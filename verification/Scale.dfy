/** SCALE compact integers of 32 and 64 bits. */
module Scale {
  import opened Options
  import opened ByteKeys
  import opened SharedBytes
  import opened Datastream
  import opened SignificantBytes
  import opened Varint

  function LittleEndian(b: Bytes): nat {
    BigEndian(Reverse(b))
  }

  /** Four modes: one, two or four bytes with the mode in the low two bits, or a length and the bytes that count. */
  function Compact(v: nat): Bytes
    requires |Significant(v)| <= 8
  {
    if v < 0x40 then [4 * v]
    else if v < 0x4000 then InMemory(4 * v + 1, 2)
    else if v < 0x4000_0000 then InMemory(4 * v + 2, 4)
    else
      FourBytes(v);
      LongForm(v)
  }

  function LongForm(v: nat): Bytes
    requires 4 <= |Significant(v)| <= 8
  {
    [LongHead(|Significant(v)|)] + Reverse(Significant(v))
  }

  /** The first byte before `n` bytes. */
  function LongHead(n: nat): (c: Byte)
    requires 4 <= n <= 8
    ensures c as int % 4 == 3 && c as int / 4 == n - 4
  {
    4 * (n - 4) + 3
  }

  lemma FourBytes(v: nat)
    requires v >= 0x4000_0000
    ensures |Significant(v)| >= 4
  {
    assert |Significant(v / 256)| >= 3 by {
      assert |Significant(v / 256 / 256)| >= 2;
    }
  }

  /** Decodes into a type of `bits` bits: larger numbers are cut off. */
  function Expand(bits: Bits, b: Bytes): Option<(nat, Bytes)> {
    if b == [] then None
    else
      match b[0] as int % 4
      case 0 => Some((b[0] as int / 4, b[1..]))
      case 1 => Quarter(Take(b, 2))
      case 2 => Quarter(Take(b, 4))
      case _ => ExpandLong(bits, b)
  }

  function ExpandLong(bits: Bits, b: Bytes): Option<(nat, Bytes)>
    requires b != []
  {
    var size := b[0] as int / 4;
    if size > 4 then None
    else
      match Take(b[1..], size + 4)
      case None => None
      case Some((n, rest)) => Some((LittleEndian(n) % Range(bits), rest))
  }

  function Quarter(t: Option<(Bytes, Bytes)>): Option<(nat, Bytes)> {
    match t
    case None => None
    case Some((n, rest)) => Some((LittleEndian(n) / 4, rest))
  }

  lemma InMemoryValue(n: nat, width: nat)
    requires n < Pow256(width)
    ensures |InMemory(n, width)| == width && LittleEndian(InMemory(n, width)) == n
  {
    ReverseTwice(ToBigEndian(n, width));
    BigEndianInverse(n, width);
  }

  lemma ReverseTwice(b: Bytes)
    ensures Reverse(Reverse(b)) == b
  {
  }

  /** The first byte in memory is the lowest one. */
  lemma FirstByte(n: nat, width: nat)
    requires width > 0
    ensures InMemory(n, width) != [] && InMemory(n, width)[0] as int == n % 256
  {
    var b := ToBigEndian(n, width);
    assert b[width - 1] as int == n % 256;
  }

  /** Every value of the type comes back, with what follows it. */
  lemma RoundTrip(bits: Bits, v: nat, rest: Bytes)
    requires v < Range(bits)
    ensures |Significant(v)| <= 8 && Expand(bits, Compact(v) + rest) == Some((v, rest))
  {
    hide Compact, Expand;
    BytesOf(bits, v);
    if v < 0x40 {
      OneByteMode(bits, v, rest);
    } else if v < 0x4000 {
      TwoByteMode(bits, v, rest);
    } else if v < 0x4000_0000 {
      FourByteMode(bits, v, rest);
    } else {
      LongMode(bits, v, rest);
    }
  }

  lemma BytesOf(bits: Bits, v: nat)
    requires v < Range(bits)
    ensures |Significant(v)| <= 8
  {
    hide Pow256;
    SizeLimit();
    SignificantLength(v, 8);
  }

  lemma OneByteMode(bits: Bits, v: nat, rest: Bytes)
    requires v < 0x40 && |Significant(v)| <= 8
    ensures Expand(bits, Compact(v) + rest) == Some((v, rest))
  {
    hide Significant, InMemory, Take, Quarter, ExpandLong;
    assert ([4 * v] + rest)[1..] == rest;
  }

  lemma TwoByteMode(bits: Bits, v: nat, rest: Bytes)
    requires 0x40 <= v < 0x4000 && |Significant(v)| <= 8
    ensures Expand(bits, Compact(v) + rest) == Some((v, rest))
  {
    hide Significant, InMemory, Take, Quarter, ExpandLong, Pow256;
    SizeLimit();
    FixedRoundTrip(4 * v + 1, 2, rest);
    Packed(v, 1);
  }

  lemma FourByteMode(bits: Bits, v: nat, rest: Bytes)
    requires 0x4000 <= v < 0x4000_0000 && |Significant(v)| <= 8
    ensures Expand(bits, Compact(v) + rest) == Some((v, rest))
  {
    hide Significant, InMemory, Take, Quarter, ExpandLong, Pow256;
    SizeLimit();
    FixedRoundTrip(4 * v + 2, 4, rest);
    Packed(v, 2);
  }

  lemma LongMode(bits: Bits, v: nat, rest: Bytes)
    requires 0x4000_0000 <= v < Range(bits) && |Significant(v)| <= 8
    ensures Expand(bits, Compact(v) + rest) == Some((v, rest))
  {
    hide Significant, InMemory, Take, Quarter, ExpandLong, Pow256, LongForm, Range;
    FourBytes(v);
    LongRoundTrip(bits, v, rest);
  }

  lemma SizeLimit()
    ensures Pow256(2) == 0x1_0000 && Pow256(4) == 0x1_0000_0000 && Pow256(8) == 0x1_0000_0000_0000_0000
  {
    assert Pow256(6) == 0x1_0000_0000_0000;
  }

  lemma Packed(v: nat, mode: nat)
    requires mode < 4
    ensures (4 * v + mode) % 4 == mode && (4 * v + mode) / 4 == v
  {
  }

  lemma FixedRoundTrip(n: nat, width: nat, rest: Bytes)
    requires n < Pow256(width) && width > 0
    ensures var b := InMemory(n, width) + rest;
            b != [] && b[0] as int % 4 == n % 4 && Quarter(Take(b, width)) == Some((n / 4, rest))
  {
    FirstByte(n, width);
    assert n % 256 % 4 == n % 4;
    InMemoryValue(n, width);
    TakeBack(InMemory(n, width), rest);
  }

  lemma LongRoundTrip(bits: Bits, v: nat, rest: Bytes)
    requires v < Range(bits) && 4 <= |Significant(v)| <= 8
    ensures var b := LongForm(v) + rest;
            b != [] && b[0] as int % 4 == 3 && ExpandLong(bits, b) == Some((v, rest))
  {
    hide Significant, Range, Take, Reverse, LittleEndian;
    var n := Reverse(Significant(v));
    HeadAndBody(LongHead(|n|), n, rest);
    LittleSignificant(v);
    Small(v, Range(bits));
  }

  lemma LittleSignificant(v: nat)
    ensures LittleEndian(Reverse(Significant(v))) == v
  {
    ReverseTwice(Significant(v));
    SignificantValue(v);
  }

  lemma Small(v: nat, m: nat)
    requires v < m
    ensures v % m == v
  {
  }

  // ---- The bytes of each mode, and which encoding is shortest ----

  /** The mode is in the low two bits; small values are in the bits above it, others follow, least significant byte first. */
  lemma CompactBytes(v: nat)
    requires v < Pow256(8)
    ensures |Significant(v)| <= 8
    ensures var c := Compact(v);
            if v < 0x40 then c == [4 * v]
            else if v < 0x4000 then |c| == 2 && LittleEndian(c) == 4 * v + 1
            else if v < 0x4000_0000 then |c| == 4 && LittleEndian(c) == 4 * v + 2
            else 5 <= |c| <= 9 && c[0] as int == 4 * (|c| - 5) + 3 && LittleEndian(c[1..]) == v && c[|c| - 1] != 0
  {
    SignificantLength(v, 8);
    SizeLimit();
    hide Significant, Pow256, InMemory, LittleEndian, Reverse;
    if 0x40 <= v < 0x4000 {
      InMemoryValue(4 * v + 1, 2);
    } else if 0x4000 <= v < 0x4000_0000 {
      InMemoryValue(4 * v + 2, 4);
    } else if v >= 0x4000_0000 {
      FourBytes(v);
      LittleSignificant(v);
      assert LongForm(v)[1..] == Reverse(Significant(v));
    }
  }

  lemma LittleEndianBound(b: Bytes)
    ensures LittleEndian(b) < Pow256(|b|)
  {
    BigEndianBound(Reverse(b));
  }

  /** The bytes that a value of the type takes in the long form are no more than were read for it. */
  lemma LongShortest(bits: Bits, n: Bytes)
    requires 4 <= |n| <= 8
    ensures |Significant(LittleEndian(n) % Range(bits))| <= |n|
  {
    hide Significant, LittleEndian;
    SizeLimit();
    LittleEndianBound(n);
    var v := LittleEndian(n) % Range(bits);
    if bits == 32 {
      PowMonotone(4, |n|);
    } else {
      PowMonotone(|n|, 8);
      hide Pow256;
      Small(LittleEndian(n), Range(bits));
    }
    SignificantLength(v, |n|);
  }

  lemma ShortForm(n: Bytes, v: nat)
    requires (|n| == 2 || |n| == 4) && v == LittleEndian(n) / 4
    ensures v < if |n| == 2 then 0x4000 else 0x4000_0000
  {
    hide LittleEndian;
    SizeLimit();
    LittleEndianBound(n);
  }

  lemma CompactLength(v: nat)
    requires |Significant(v)| <= 8
    ensures |Compact(v)| == if v < 0x40 then 1 else if v < 0x4000 then 2 else if v < 0x4000_0000 then 4 else 1 + |Significant(v)|
  {
    hide Significant;
  }

  /** Of all inputs from which a value is read, what the writer emits is the shortest. */
  lemma CompactShortest(bits: Bits, x: Bytes, v: nat, rest: Bytes)
    requires Expand(bits, x) == Some((v, rest))
    ensures |Significant(v)| <= 8 && |Compact(v)| <= |x| - |rest|
  {
    hide Significant, LittleEndian, Compact, Range;
    var mode := x[0] as int % 4;
    if mode == 3 {
      LongShortest(bits, x[1..][..x[0] as int / 4 + 4]);
    } else {
      if mode == 1 {
        ShortForm(x[..2], v);
      } else if mode == 2 {
        ShortForm(x[..4], v);
      }
      SizeLimit();
      SignificantLength(v, 8);
    }
    CompactLength(v);
  }

  /** The bytes that an input beginning with `c` takes. */
  function Taken(c: Byte): nat {
    match c as int % 4
    case 0 => 1
    case 1 => 2
    case 2 => 4
    case _ => 5 + c as int / 4
  }

  /** What every input gives: it is refused if it is empty, shorter than its first byte says, or has more than eight bytes to follow. */
  lemma ExpandExactly(bits: Bits, b: Bytes)
    ensures if b == [] || |b| < Taken(b[0]) || Taken(b[0]) > 9 then Expand(bits, b) == None
            else
              var n := Taken(b[0]);
              var v := if b[0] as int % 4 == 3 then LittleEndian(b[1..n]) % Range(bits) else LittleEndian(b[..n]) / 4;
              Expand(bits, b) == Some((v, b[n..]))
  {
    hide LittleEndian, Range;
    if b != [] {
      var n := Taken(b[0]);
      if b[0] as int % 4 == 0 {
        OneByte(b[0]);
        assert b[..1] == [b[0]];
      } else if b[0] as int % 4 == 3 && n <= |b| {
        assert b[1..][..n - 1] == b[1..n] && b[1..][n - 1..] == b[n..];
      }
    }
  }

  lemma OneByte(c: Byte)
    ensures LittleEndian([c]) == c as int
  {
    var b: Bytes := [c];
    assert Reverse(b) == b && b[..0] == [];
    assert BigEndian(b) == 256 * BigEndian([]) + c as int;
  }

  // ---- Streams ----

  method CompactTo(ds: OutStream, v: nat)
    requires v < Pow256(8) && |Significant(v)| <= 8 && |ds.out| + |Compact(v)| <= ds.capacity
    modifies ds
    ensures ds.out == old(ds.out) + Compact(v)
  {
    hide Significant, Pow256, InMemory, LongForm;
    if v < 0x40 {
      ds.Put(4 * v);
    } else if v < 0x4000 {
      ds.Write(InMemory(4 * v + 1, 2));
    } else if v < 0x4000_0000 {
      ds.Write(InMemory(4 * v + 2, 4));
    } else {
      FourBytes(v);
      LongTo(ds, v);
    }
  }

  method LongTo(ds: OutStream, v: nat)
    requires 0x4000_0000 <= v < Pow256(8) && 4 <= |Significant(v)| <= 8 && |ds.out| + |LongForm(v)| <= ds.capacity
    modifies ds
    ensures ds.out == old(ds.out) + LongForm(v)
  {
    hide Significant, Pow256, InMemory, Reverse, LongHead;
    var s := InMemory(v, 8);
    var trimmed := Trim(s, v, 8);
    TrimmedLength(s, trimmed, v);
    var head, body := LongHead(trimmed), s[..trimmed];
    ds.Put(head);
    ds.Write(body);
    assert ds.out == old(ds.out) + ([head] + body);
  }

  lemma TrimmedLength(s: Bytes, trimmed: nat, v: nat)
    requires trimmed <= |s| && Reverse(s[..trimmed]) == Significant(v)
    ensures trimmed == |Significant(v)| && s[..trimmed] == Reverse(Significant(v))
  {
    ReverseTwice(s[..trimmed]);
  }

  method ExpandFrom(ds: InStream, bits: Bits) returns (r: Option<nat>)
    requires ds.Valid()
    modifies ds
    ensures ds.Valid() && Agrees(r, ds.Rest(), Expand(bits, old(ds.Rest())))
  {
    hide LittleEndian;
    if ds.pos == |ds.buf| {
      return None;
    }
    var tmp := ds.buf[ds.pos];
    var mode := tmp as int % 4;
    if mode == 0 {
      var c := ds.Get();
      return Some(c.value as int / 4);
    }
    if mode == 1 || mode == 2 {
      var n := ds.Read(if mode == 1 then 2 else 4);
      return if n.None? then None else Some(LittleEndian(n.value) / 4);
    }
    var c := ds.Get();
    var size := c.value as int / 4;
    if size > 4 {
      return None;
    }
    var n := ds.Read(size + 4);
    return if n.None? then None else Some(LittleEndian(n.value) % Range(bits));
  }
}
