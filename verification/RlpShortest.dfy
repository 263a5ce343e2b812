/**
 The encoder writes the shortest input that the decoder takes for a value, as long as no record has a header too short for
 its fields: the decoder does not compare the size in a record's header with what its fields use.
 */
module RlpShortest {
  import opened Options
  import opened ByteKeys
  import opened SharedBytes
  import opened Datastream
  import opened SignificantBytes
  import opened Rlp
  import opened RlpForms

  lemma {:induction false} SignificantMonotone(a: nat, b: nat)
    requires a <= b
    ensures |Significant(a)| <= |Significant(b)|
    decreases b
  {
    if a >= 256 {
      SignificantMonotone(a / 256, b / 256);
    }
  }

  lemma PrefixMonotone(a: nat, b: nat)
    requires a <= b
    ensures PrefixSize(a) <= PrefixSize(b)
  {
    hide Significant;
    SignificantMonotone(a, b);
    if b > 55 {
      SignificantSome(b);
    }
  }

  lemma SignificantShortest(b: Bytes)
    ensures |Significant(BigEndian(b))| <= |b|
  {
    BigEndianBound(b);
    SignificantLength(BigEndian(b), |b|);
  }

  /** No header that is read for a size is shorter than the one written for it. */
  lemma HeaderShortest(head: Bytes, size: nat, mod: nat)
    requires ReadsHeader(head, size, mod)
    ensures PrefixSize(size) <= |head|
  {
    hide Significant, BigEndian;
    if |head| > 1 {
      SignificantShortest(head[1..]);
    }
  }

  lemma IntShortest(w: nat, b: Bytes)
    requires DecodeInt(w, b).Some?
    ensures var (v, rest) := DecodeInt(w, b).value; EncodeSize(v) <= |b| - |rest|
  {
    hide Significant, BigEndian;
    if b[0] >= 0x80 {
      SignificantShortest(b[1..][..b[0] - 0x80]);
    } else if b[0] == 0 {
      NothingSignificant();
    }
  }

  lemma NothingSignificant()
    ensures |Significant(0)| == 0
  {
  }

  lemma StringShortest(b: Bytes)
    requires DecodeString(b).Some?
    ensures var (v, rest) := DecodeString(b).value; EncodeSize(v) <= |b| - |rest|
  {
    hide Significant, BigEndian, DecodePrefix, PrefixSize, Pow256;
    if b[0] >= 0x80 {
      var (size, more) := DecodePrefix(b, 0x80).value;
      PrefixReads(b, 0x80, size, more);
      HeaderShortest(b[..|b| - |more|], size, 0x80);
    }
  }

  /** The header of every record has the bytes that the size of what its fields use needs. */
  predicate RoomyHeaders(t: Type, b: Bytes)
    decreases |b|, 1
  {
    (t.ListType? || t.RecordType?) && b != [] && 0xc0 <= b[0] ==>
      match DecodePrefix(b, 0xc0)
      case None => true
      case Some((size, rest)) =>
        if t.ListType? then RoomyItems(t.elem, size, rest)
        else
          && RoomyFields(t.fields, rest)
          && match DecodeFields(t.fields, rest)
             case None => true
             case Some((_, rest')) => PrefixSize(|rest| - |rest'|) <= |b| - |rest|
  }

  predicate RoomyItems(e: Type, size: nat, b: Bytes)
    decreases |b|, 2
  {
    size != 0 ==>
      match Decode(e, b)
      case None => true
      case Some((_, rest)) => RoomyHeaders(e, b) && RoomyItems(e, Left(size, |b| - |rest|), rest)
  }

  predicate RoomyFields(ts: seq<Type>, b: Bytes)
    decreases |b|, 2
  {
    ts != [] ==>
      match Decode(ts[0], b)
      case None => true
      case Some((_, rest)) => RoomyHeaders(ts[0], b) && RoomyFields(ts[1..], rest)
  }

  /** The elements of a list use exactly the size in its header, if all lengths fit in 64 bits. */
  lemma {:induction false} ItemsUse(e: Type, size: nat, b: Bytes)
    requires DecodeItems(e, size, b).Some? && size < SIZE_LIMIT && |b| < SIZE_LIMIT
    ensures |b| - |DecodeItems(e, size, b).value.1| == size
    decreases |b|
  {
    hide Pow256, Decode;
    if size != 0 {
      var rest := Decode(e, b).value.1;
      var left := Left(size, |b| - |rest|);
      LeftOver(size, |b| - |rest|);
      ItemsUse(e, left, rest);
    }
  }

  lemma LeftOver(size: nat, used: nat)
    requires size < SIZE_LIMIT && used < SIZE_LIMIT
    ensures Left(size, used) == (if used <= size then size - used else SIZE_LIMIT + size - used) < SIZE_LIMIT
  {
    hide Pow256;
    Wraps(size - used, SIZE_LIMIT);
  }

  lemma Wraps(x: int, m: int)
    requires -m < x < m
    ensures x % m == if x >= 0 then x else x + m
  {
  }

  /** Whatever is accepted for a value, its encoding is no longer. */
  lemma {:induction false} Shortest(t: Type, b: Bytes)
    requires Decode(t, b).Some? && |b| < SIZE_LIMIT && RoomyHeaders(t, b)
    ensures var (v, rest) := Decode(t, b).value; EncodeSize(v) <= |b| - |rest|
    decreases |b|, 1
  {
    hide Pow256, Significant, BigEndian, DecodePrefix, PrefixSize;
    match t
    case IntType(w) => IntShortest(w, b);
    case BytesType => StringShortest(b);
    case ListType(e) =>
      var (size, rest) := DecodePrefix(b, 0xc0).value;
      PrefixReads(b, 0xc0, size, rest);
      HeaderShortest(b[..|b| - |rest|], size, 0xc0);
      ItemsUse(e, size, rest);
      ItemsShortest(e, size, rest);
      PrefixMonotone(Sizes(DecodeItems(e, size, rest).value.0), size);
    case RecordType(ts) =>
      var (size, rest) := DecodePrefix(b, 0xc0).value;
      var (items, rest') := DecodeFields(ts, rest).value;
      FieldsShortest(ts, rest);
      PrefixMonotone(Sizes(items), |rest| - |rest'|);
  }

  lemma {:induction false} ItemsShortest(e: Type, size: nat, b: Bytes)
    requires DecodeItems(e, size, b).Some? && |b| < SIZE_LIMIT && RoomyItems(e, size, b)
    ensures var (items, rest) := DecodeItems(e, size, b).value; Sizes(items) <= |b| - |rest|
    decreases |b|, 2
  {
    hide Pow256, Decode, Left, EncodeSize, RoomyHeaders;
    if size != 0 {
      var (v, rest) := Decode(e, b).value;
      Shortest(e, b);
      ItemsShortest(e, Left(size, |b| - |rest|), rest);
      var (vs, _) := DecodeItems(e, Left(size, |b| - |rest|), rest).value;
      assert ([v] + vs)[1..] == vs;
    }
  }

  lemma {:induction false} FieldsShortest(ts: seq<Type>, b: Bytes)
    requires DecodeFields(ts, b).Some? && |b| < SIZE_LIMIT && RoomyFields(ts, b)
    ensures var (items, rest) := DecodeFields(ts, b).value; Sizes(items) <= |b| - |rest|
    decreases |b|, 2
  {
    hide Pow256, Decode, EncodeSize, RoomyHeaders;
    if ts != [] {
      var (v, rest) := Decode(ts[0], b).value;
      Shortest(ts[0], b);
      FieldsShortest(ts[1..], rest);
      var (vs, _) := DecodeFields(ts[1..], rest).value;
      assert ([v] + vs)[1..] == vs;
    }
  }

  predicate NoRecord(t: Type) {
    t.IntType? || t.BytesType? || (t.ListType? && NoRecord(t.elem))
  }

  lemma {:induction false} NoRecordRoomy(t: Type, b: Bytes)
    requires NoRecord(t)
    ensures RoomyHeaders(t, b)
    decreases |b|, 1
  {
    hide DecodePrefix;
    if t.ListType? && b != [] && 0xc0 <= b[0] && DecodePrefix(b, 0xc0).Some? {
      var (size, rest) := DecodePrefix(b, 0xc0).value;
      NoRecordItems(t.elem, size, rest);
    }
  }

  lemma {:induction false} NoRecordItems(e: Type, size: nat, b: Bytes)
    requires NoRecord(e)
    ensures RoomyItems(e, size, b)
    decreases |b|, 2
  {
    hide Decode, Left, RoomyHeaders;
    if size != 0 && Decode(e, b).Some? {
      var rest := Decode(e, b).value.1;
      NoRecordRoomy(e, b);
      NoRecordItems(e, Left(size, |b| - |rest|), rest);
    }
  }

  /** Of all inputs accepted for a value, the encoding is the shortest, for every type without records and every input. */
  lemma EncodingShortest(v: Val, t: Type, x: Bytes, rest: Bytes)
    requires Fits(v) && Decode(t, x) == Some((v, rest)) && |x| < SIZE_LIMIT
    requires NoRecord(t) || RoomyHeaders(t, x)
    ensures |Encode(v)| <= |x| - |rest|
  {
    hide Pow256, Encode, Decode, RoomyHeaders;
    if NoRecord(t) {
      NoRecordRoomy(t, x);
    }
    Shortest(t, x);
    SizeIsLength(v);
  }

  // ---- Exactly when records are, and where the bounds are needed ----

  /**
   A record is accepted after any header, whatever the size in it. If its fields are as the encoder writes them, the
   encoding is no longer than the input exactly when the header is as long as the size of the fields needs.
   */
  lemma RecordExactly(items: seq<Val>, ts: seq<Type>, head: Bytes, size: nat, rest: Bytes)
    requires HasType(ListVal(items), RecordType(ts)) && Fits(ListVal(items)) && ReadsHeader(head, size, 0xc0)
    ensures var x := head + EncodeAll(items) + rest;
            && Decode(RecordType(ts), x) == Some((ListVal(items), rest))
            && (|Encode(ListVal(items))| <= |x| - |rest| <==> PrefixSize(|EncodeAll(items)|) <= |head|)
  {
    hide Pow256, BigEndian, DecodePrefix, PrefixSize, ReadsHeader, EncodeAll, DecodeFields;
    var x, body := head + EncodeAll(items) + rest, EncodeAll(items) + rest;
    assert x == head + body;
    ReadsBack(head, size, 0xc0, body);
    FieldsRoundTrip(items, ts, rest);
    SizesAreLength(items);
    SizeIsLength(ListVal(items));
  }

  /** The size of a record is not checked: here an empty one is claimed, and the input is a byte shorter than the encoding. */
  lemma RecordSizeUnchecked(s: Bytes)
    requires |s| == 60
    ensures var v, x := ListVal([BytesVal(s)]), [0xc0, 0xb8, 60] + s;
            && Fits(v) && HasType(v, RecordType([BytesType]))
            && Decode(RecordType([BytesType]), x) == Some((v, [])) && |Encode(v)| == |x| + 1
  {
    var items, all := [BytesVal(s)], EncodeAll([BytesVal(s)]);
    SixtyBytes(s);
    assert [0xc0, 0xb8, 60] + s == [0xc0] + all + [];
    RecordExactly(items, [BytesType], [0xc0], 0, []);
    SizeIsLength(ListVal(items));
  }

  lemma SixtyBytes(s: Bytes)
    requires |s| == 60
    ensures var items := [BytesVal(s)];
            Fits(ListVal(items)) && EncodeAll(items) == [0xb8, 60] + s && EncodeSize(ListVal(items)) == 64
  {
    PowOne();
    PowMonotone(1, 8);
    hide Pow256;
    assert Sizes([BytesVal(s)]) == 62 by {
      assert [BytesVal(s)][1..] == [];
    }
    assert EncodeString(s) == [0xb8] + [60] + s;
    assert EncodeAll([BytesVal(s)]) == Encode(BytesVal(s)) + EncodeAll([]);
  }

  /** [0x41] after a header it does not need. */
  const PADDED: Bytes := [0x81, 0x41]

  lemma PaddedDecoded(rest: Bytes)
    ensures DecodeString(PADDED + rest) == Some((BytesVal([0x41]), rest))
  {
    var b := PADDED + rest;
    assert b[1..] == [0x41] + rest;
    TakeBack([0x41], rest);
  }

  lemma EightBytes(n: nat)
    requires Pow256(7) <= n < Pow256(8)
    ensures |Significant(n)| == 8
  {
    hide Pow256, Significant, BigEndian;
    SignificantLength(n, 8);
    SignificantValue(n);
    BigEndianBound(Significant(n));
    if |Significant(n)| < 8 {
      PowMonotone(|Significant(n)|, 7);
    }
  }

  /**
   The size left in a list is counted modulo 2^64, so an input of 2^64 bytes or more can be accepted after a header too
   short for it: the first element wraps the size 1 around to 4, which the other two use up.
   */
  lemma LongListWraps(s: Bytes)
    requires |s| == SIZE_LIMIT - 12
    ensures var v := ListVal([BytesVal(s), BytesVal([0x41]), BytesVal([0x41])]);
            && Fits(v) && HasType(v, ListType(BytesType))
            && exists x :: Decode(ListType(BytesType), x) == Some((v, [])) && |x| == SIZE_LIMIT + 2 && |Encode(v)| == SIZE_LIMIT + 8
  {
    hide Pow256, Significant, Encode, EncodeSize, Sizes, EncodeString, DecodeItems, Left, HasType, Fits;
    LongSizes(s);
    var v := ListVal([BytesVal(s), BytesVal([0x41]), BytesVal([0x41])]);
    var body := EncodeString(s) + (PADDED + PADDED);
    var x := [0xc1] + body;
    assert x[1..] == body;
    LongBody(s);
    SizeIsLength(v);
    assert Decode(ListType(BytesType), x) == Some((v, []));
    assert HasType(v, ListType(BytesType)) by {
      Typed(s);
    }
  }

  lemma Typed(s: Bytes)
    ensures HasType(ListVal([BytesVal(s), BytesVal([0x41]), BytesVal([0x41])]), ListType(BytesType))
  {
  }

  lemma LongBody(s: Bytes)
    requires |s| == SIZE_LIMIT - 12 && |Significant(|s|)| <= 8 && |EncodeString(s)| == SIZE_LIMIT - 3
    ensures DecodeItems(BytesType, 1, EncodeString(s) + (PADDED + PADDED)) ==
            Some(([BytesVal(s), BytesVal([0x41]), BytesVal([0x41])], []))
  {
    hide Pow256, Significant, EncodeString, DecodeString, DecodeItems, Left;
    StringRoundTrip(s, PADDED + PADDED);
    PaddedList();
    LeftOver(1, SIZE_LIMIT - 3);
    ItemsStep(BytesType, 1, EncodeString(s) + (PADDED + PADDED), BytesVal(s), PADDED + PADDED);
    var a := BytesVal([0x41]);
    assert [BytesVal(s)] + [a, a] == [BytesVal(s), a, a];
  }

  lemma PaddedList()
    ensures DecodeItems(BytesType, 4, PADDED + PADDED) == Some(([BytesVal([0x41]), BytesVal([0x41])], []))
  {
    PowOne();
    PowMonotone(1, 8);
    hide Pow256, DecodeString, DecodeItems, Left;
    var a := BytesVal([0x41]);
    PaddedDecoded(PADDED);
    PaddedDecoded([]);
    assert PADDED + [] == PADDED;
    LeftOver(4, 2);
    LeftOver(2, 2);
    ItemsNone(BytesType, []);
    ItemsStep(BytesType, 2, PADDED, a, []);
    ItemsStep(BytesType, 4, PADDED + PADDED, a, PADDED);
    assert [a] + [] == [a] && [a] + [a] == [a, a];
  }

  lemma LongSizes(s: Bytes)
    requires |s| == SIZE_LIMIT - 12
    ensures |Significant(|s|)| <= 8 && |EncodeString(s)| == SIZE_LIMIT - 3
    ensures var v := ListVal([BytesVal(s), BytesVal([0x41]), BytesVal([0x41])]);
            Fits(v) && EncodeSize(v) == SIZE_LIMIT + 8
  {
    PowOne();
    PowMonotone(1, 7);
    assert Pow256(8) == 256 * Pow256(7);
    EightBytes(|s|);
    EightBytes(SIZE_LIMIT - 1);
    hide Pow256, Significant;
    var a := BytesVal([0x41]);
    assert [a, a][1..] == [a] && [a][1..] == [] && [BytesVal(s), a, a][1..] == [a, a];
    assert Sizes([a]) == 1 + Sizes([]);
    assert Sizes([a, a]) == 2;
    assert Sizes([BytesVal(s), a, a]) == SIZE_LIMIT - 1;
  }
}
