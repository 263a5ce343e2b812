/** The bytes of RLP as Appendix B of the Ethereum Yellow Paper lists them, which inputs are accepted, and which are shortest. */
module RlpForms {
  import opened Options
  import opened ByteKeys
  import opened SharedBytes
  import opened Datastream
  import opened SignificantBytes
  import opened Rlp

  // ---- The bytes of an encoding ----

  /** Up to 55 bytes the head is `mod` plus the size; beyond that it is `mod` plus 55 plus the length of the size, then the size. */
  predicate Header(head: Bytes, size: nat, mod: nat) {
    if size <= 55 then |head| == 1 && head[0] as int == mod + size
    else
      && 2 <= |head| <= 9 && head[0] as int == mod + 55 + (|head| - 1)
      && head[1] != 0 && BigEndian(head[1..]) == size
  }

  lemma PrefixIsHeader(size: nat, mod: nat)
    requires (mod == 0x80 || mod == 0xc0) && size < SIZE_LIMIT
    ensures |Significant(size)| <= 8 && Header(EncodePrefix(size, mod), size, mod)
  {
    hide Pow256, BigEndian, Significant;
    SignificantLength(size, 8);
    if size > 55 {
      SignificantSome(size);
      SignificantValue(size);
      assert EncodePrefix(size, mod)[1..] == Significant(size);
    }
  }

  /** A single byte below 0x80 is itself; other strings follow their header. */
  lemma StringBytes(b: Bytes) returns (head: Bytes)
    requires Fits(BytesVal(b))
    ensures if |b| == 1 && b[0] < 0x80 then Encode(BytesVal(b)) == b
            else Encode(BytesVal(b)) == head + b && Header(head, |b|, 0x80)
  {
    hide Pow256, BigEndian, Significant, EncodePrefix;
    PrefixIsHeader(|b|, 0x80);
    head := EncodePrefix(|b|, 0x80);
  }

  /** An integer is the string of its big-endian bytes without leading zeros. */
  lemma IntBytes(n: nat) returns (b: Bytes)
    requires Fits(IntVal(n))
    ensures BigEndian(b) == n && (b == [] || b[0] != 0) && |b| <= 55
    ensures Encode(IntVal(n)) == if |b| == 1 && b[0] < 0x80 then b else [0x80 + |b|] + b
  {
    b := Significant(n);
    SignificantValue(n);
    if |b| == 1 {
      assert b[..0] == [];
    }
  }

  /** A list or record is its header and the encodings of its items, one after the other. */
  lemma ListBytes(items: seq<Val>) returns (head: Bytes)
    requires Fits(ListVal(items))
    ensures Encode(ListVal(items)) == head + EncodeAll(items) && Header(head, |EncodeAll(items)|, 0xc0)
  {
    hide Pow256, BigEndian, Significant, EncodePrefix;
    SizesAreLength(items);
    PrefixIsHeader(Sizes(items), 0xc0);
    head := EncodePrefix(Sizes(items), 0xc0);
  }

  // ---- What is accepted ----

  /** The header of a string or list as it is read: the size need not be in the shortest form. */
  predicate ReadsHeader(head: Bytes, size: nat, mod: nat) {
    || (size <= 55 && |head| == 1 && head[0] as int == mod + size)
    || (2 <= |head| <= 9 && head[0] as int == mod + 55 + (|head| - 1) && BigEndian(head[1..]) == size)
  }

  lemma PrefixReads(b: Bytes, mod: nat, size: nat, rest: Bytes)
    requires b != [] && mod <= b[0] as int < mod + 64 && DecodePrefix(b, mod) == Some((size, rest))
    ensures var head := b[..|b| - |rest|]; b == head + rest && ReadsHeader(head, size, mod) && size < SIZE_LIMIT
  {
    hide Pow256, BigEndian;
    var head := b[..|b| - |rest|];
    var n := b[0] as int - mod;
    if n > 55 {
      assert head[1..] == b[1..][..n - 55];
      BigEndianBound(head[1..]);
      PowMonotone(|head| - 1, 8);
    } else {
      PowOne();
      PowMonotone(1, 8);
    }
  }

  /** The two forms in which an integer of `w` bytes is accepted: leading zeros do not matter. */
  predicate LongInt(w: nat, x: Bytes, n: nat, body: Bytes, rest: Bytes) {
    |body| <= w && |body| <= 55 && BigEndian(body) == n && x == [0x80 + |body|] + body + rest
  }

  lemma IntAccepted(w: nat, x: Bytes, n: nat, rest: Bytes)
    ensures DecodeInt(w, x) == Some((IntVal(n), rest)) <==>
            (n < 0x80 && x == [n] + rest) || exists body :: LongInt(w, x, n, body, rest)
  {
    hide BigEndian;
    if DecodeInt(w, x) == Some((IntVal(n), rest)) {
      assert x == [x[0]] + x[1..];
      if x[0] >= 0x80 {
        var body := x[1..][..x[0] - 0x80];
        assert x[1..] == body + rest;
        assert LongInt(w, x, n, body, rest);
      }
    }
    if n < 0x80 && x == [n] + rest {
      assert x[1..] == rest;
    }
    if exists body :: LongInt(w, x, n, body, rest) {
      var body :| LongInt(w, x, n, body, rest);
      HeadAndBody(0x80 + |body|, body, rest);
    }
  }

  predicate LongString(x: Bytes, s: Bytes, head: Bytes, rest: Bytes) {
    ReadsHeader(head, |s|, 0x80) && x == head + s + rest
  }

  /** A string is accepted as one byte below 0x80, or after any header for its size. */
  lemma StringAccepted(x: Bytes, s: Bytes, rest: Bytes)
    ensures DecodeString(x) == Some((BytesVal(s), rest)) <==>
            (|s| == 1 && s[0] < 0x80 && x == s + rest) || exists head :: LongString(x, s, head, rest)
  {
    hide BigEndian, Pow256, DecodePrefix;
    if DecodeString(x) == Some((BytesVal(s), rest)) {
      if x[0] < 0x80 {
        assert x == [x[0]] + x[1..];
      } else {
        var (size, more) := DecodePrefix(x, 0x80).value;
        PrefixReads(x, 0x80, size, more);
        var head := x[..|x| - |more|];
        assert more == s + rest;
        assert x == head + s + rest;
        assert LongString(x, s, head, rest);
      }
    }
    if |s| == 1 && s[0] < 0x80 && x == s + rest {
      assert x[1..] == rest && s == [s[0]];
    }
    if exists head :: LongString(x, s, head, rest) {
      var head :| LongString(x, s, head, rest);
      ReadsBack(head, |s|, 0x80, s + rest);
      assert x == head + (s + rest);
      TakeBack(s, rest);
    }
  }

  lemma ReadsBack(head: Bytes, size: nat, mod: nat, rest: Bytes)
    requires (mod == 0x80 || mod == 0xc0) && ReadsHeader(head, size, mod)
    ensures var b := head + rest;
            mod <= b[0] as int < mod + 64 && DecodePrefix(b, mod) == Some((size, rest))
  {
    hide BigEndian, Take;
    if |head| == 1 {
      assert (head + rest)[1..] == rest;
    } else {
      assert head + rest == [head[0]] + head[1..] + rest;
      HeadAndBody(head[0], head[1..], rest);
    }
  }
}
