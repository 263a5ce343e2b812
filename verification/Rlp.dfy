/** RLP, the encoding of Appendix B of the Ethereum Yellow Paper, for values of a known type. */
module Rlp {
  import opened Options
  import opened ByteKeys
  import opened SharedBytes
  import opened Datastream
  import opened SignificantBytes

  /** Unsigned integers of `width` bytes, byte strings, lists of one type, and records. */
  datatype Type = IntType(width: nat) | BytesType | ListType(elem: Type) | RecordType(fields: seq<Type>)

  datatype Val = IntVal(n: nat) | BytesVal(b: Bytes) | ListVal(items: seq<Val>)

  const SIZE_LIMIT: nat := Pow256(8)

  // ---- Encoding ----

  function EncodeInt(n: nat): Bytes
    requires |Significant(n)| <= 55
  {
    if 0 < n < 0x80 then [n] else [0x80 + |Significant(n)|] + Significant(n)
  }

  function EncodePrefix(size: nat, mod: nat): Bytes
    requires (mod == 0x80 || mod == 0xc0) && |Significant(size)| <= 8
  {
    if size <= 55 then [size + mod] else [|Significant(size)| + mod + 55] + Significant(size)
  }

  function EncodeString(b: Bytes): Bytes
    requires |Significant(|b|)| <= 8
  {
    if |b| == 1 && b[0] < 0x80 then [b[0]] else EncodePrefix(|b|, 0x80) + b
  }

  predicate HasType(v: Val, t: Type) {
    match t
    case IntType(w) => v.IntVal? && w <= 55 && v.n < Pow256(w)
    case BytesType => v.BytesVal?
    case ListType(e) => v.ListVal? && forall i :: 0 <= i < |v.items| ==> HasType(v.items[i], e)
    case RecordType(ts) => v.ListVal? && |v.items| == |ts| && forall i :: 0 <= i < |ts| ==> HasType(v.items[i], ts[i])
  }

  /** All lengths fit in 64 bits. */
  predicate Fits(v: Val) {
    match v
    case IntVal(n) => |Significant(n)| <= 55
    case BytesVal(b) => |b| < SIZE_LIMIT
    case ListVal(items) => (forall i :: 0 <= i < |items| ==> Fits(items[i])) && Sizes(items) < SIZE_LIMIT
  }

  /** encode_size: the bytes an encoding takes, counted without writing them. */
  function EncodeSize(v: Val): nat
    decreases v, 0
  {
    match v
    case IntVal(n) => if 0 < n < 0x80 then 1 else 1 + |Significant(n)|
    case BytesVal(b) => if |b| == 1 && b[0] < 0x80 then 1 else PrefixSize(|b|) + |b|
    case ListVal(items) => PrefixSize(Sizes(items)) + Sizes(items)
  }

  function PrefixSize(size: nat): nat {
    if size <= 55 then 1 else 1 + |Significant(size)|
  }

  function Sizes(items: seq<Val>): nat
    decreases items, 1
  {
    if items == [] then 0 else EncodeSize(items[0]) + Sizes(items[1..])
  }

  function Encode(v: Val): Bytes
    requires Fits(v)
    decreases v, 0
  {
    match v
    case IntVal(n) => EncodeInt(n)
    case BytesVal(b) =>
      SignificantLength(|b|, 8);
      EncodeString(b)
    case ListVal(items) =>
      SignificantLength(Sizes(items), 8);
      EncodePrefix(Sizes(items), 0xc0) + EncodeAll(items)
  }

  function EncodeAll(items: seq<Val>): Bytes
    requires forall i :: 0 <= i < |items| ==> Fits(items[i])
    decreases items, 1
  {
    if items == [] then [] else Encode(items[0]) + EncodeAll(items[1..])
  }

  /** encode_size is the number of bytes written. */
  lemma {:induction false} SizeIsLength(v: Val)
    requires Fits(v)
    ensures EncodeSize(v) == |Encode(v)|
    decreases v, 0
  {
    if v.ListVal? {
      SizesAreLength(v.items);
    }
  }

  lemma {:induction false} SizesAreLength(items: seq<Val>)
    requires forall i :: 0 <= i < |items| ==> Fits(items[i])
    ensures Sizes(items) == |EncodeAll(items)|
    decreases items, 1
  {
    if items != [] {
      SizeIsLength(items[0]);
      SizesAreLength(items[1..]);
    }
  }

  lemma EncodeNonEmpty(v: Val)
    requires Fits(v)
    ensures |Encode(v)| > 0
  {
  }

  // ---- Decoding ----

  function DecodeInt(w: nat, b: Bytes): (r: Option<(Val, Bytes)>)
    ensures r.Some? ==> |r.value.1| < |b|
  {
    if b == [] then None
    else if b[0] < 0xb8 && b[0] as int <= 0x80 + w then
      if b[0] < 0x80 then Some((IntVal(b[0]), b[1..]))
      else
        match Take(b[1..], b[0] - 0x80)
        case None => None
        case Some((n, rest)) => Some((IntVal(BigEndian(n)), rest))
    else None
  }

  /** The length behind the first byte, `b[0]`, of a string or list. */
  function DecodePrefix(b: Bytes, mod: nat): (r: Option<(nat, Bytes)>)
    requires b != [] && mod <= b[0] as int < mod + 64
    ensures r.Some? ==> |r.value.1| < |b|
  {
    var size := b[0] as int - mod;
    if size <= 55 then Some((size, b[1..]))
    else
      match Take(b[1..], size - 55)
      case None => None
      case Some((n, rest)) => Some((BigEndian(n), rest))
  }

  function DecodeString(b: Bytes): (r: Option<(Val, Bytes)>)
    ensures r.Some? ==> |r.value.1| < |b|
  {
    if b == [] then None
    else if b[0] < 0x80 then Some((BytesVal([b[0]]), b[1..]))
    else if b[0] < 0xc0 then
      match DecodePrefix(b, 0x80)
      case None => None
      case Some((size, rest)) =>
        match Take(rest, size)
        case None => None
        case Some((s, rest')) => Some((BytesVal(s), rest'))
    else None
  }

  function Decode(t: Type, b: Bytes): (r: Option<(Val, Bytes)>)
    ensures r.Some? ==> |r.value.1| < |b|
    decreases |b|, 1
  {
    match t
    case IntType(w) => DecodeInt(w, b)
    case BytesType => DecodeString(b)
    case ListType(e) => DecodeList(e, b)
    case RecordType(ts) => DecodeRecord(ts, b)
  }

  function DecodeList(e: Type, b: Bytes): (r: Option<(Val, Bytes)>)
    ensures r.Some? ==> |r.value.1| < |b|
    decreases |b|, 0
  {
    if b == [] || b[0] < 0xc0 then None
    else
      match DecodePrefix(b, 0xc0)
      case None => None
      case Some((size, rest)) =>
        match DecodeItems(e, size, rest)
        case None => None
        case Some((items, rest')) => Some((ListVal(items), rest'))
  }

  function DecodeRecord(ts: seq<Type>, b: Bytes): (r: Option<(Val, Bytes)>)
    ensures r.Some? ==> |r.value.1| < |b|
    decreases |b|, 0
  {
    if b == [] || b[0] < 0xc0 then None
    else
      match DecodePrefix(b, 0xc0)
      case None => None
      case Some((size, rest)) =>
        match DecodeFields(ts, rest)
        case None => None
        case Some((items, rest')) => Some((ListVal(items), rest'))
  }

  /** 64-bit subtraction, which wraps. */
  function Left(size: nat, used: nat): nat {
    (size - used) % SIZE_LIMIT
  }

  /** Elements until `size` bytes are used up. */
  function DecodeItems(e: Type, size: nat, b: Bytes): (r: Option<(seq<Val>, Bytes)>)
    ensures r.Some? ==> |r.value.1| <= |b|
    decreases |b|, 2
  {
    if size == 0 then Some(([], b))
    else
      match Decode(e, b)
      case None => None
      case Some((v, rest)) =>
        match DecodeItems(e, Left(size, |b| - |rest|), rest)
        case None => None
        case Some((vs, rest')) => Some(([v] + vs, rest'))
  }

  function DecodeFields(ts: seq<Type>, b: Bytes): (r: Option<(seq<Val>, Bytes)>)
    ensures r.Some? ==> |r.value.1| <= |b|
    decreases |b|, 2
  {
    if ts == [] then Some(([], b))
    else
      match Decode(ts[0], b)
      case None => None
      case Some((v, rest)) =>
        match DecodeFields(ts[1..], rest)
        case None => None
        case Some((vs, rest')) => Some(([v] + vs, rest'))
  }

  // ---- Round trip ----

  lemma IntRoundTrip(n: nat, w: nat, rest: Bytes)
    requires n < Pow256(w) && w <= 55
    ensures |Significant(n)| <= 55 && DecodeInt(w, EncodeInt(n) + rest) == Some((IntVal(n), rest))
  {
    SignificantLength(n, w);
    hide Significant, Pow256, BigEndian, Take;
    if 0 < n < 0x80 {
      HeadAndBody(n, [], rest);
      assert [n] + [] + rest == [n] + rest;
      assert ([n] + rest)[1..] == rest;
    } else {
      SignificantValue(n);
      HeadAndBody(0x80 + |Significant(n)|, Significant(n), rest);
    }
  }

  lemma PrefixRoundTrip(size: nat, mod: nat, rest: Bytes)
    requires (mod == 0x80 || mod == 0xc0) && size < SIZE_LIMIT
    ensures |Significant(size)| <= 8
    ensures var b := EncodePrefix(size, mod) + rest;
            mod <= b[0] as int < mod + 64 && DecodePrefix(b, mod) == Some((size, rest))
  {
    SignificantLength(size, 8);
    hide Significant, Pow256, BigEndian, Take;
    if size <= 55 {
      assert ([size + mod] + rest)[1..] == rest;
    } else {
      SignificantSome(size);
      SignificantValue(size);
      HeadAndBody(|Significant(size)| + mod + 55, Significant(size), rest);
    }
  }

  lemma SignificantSome(n: nat)
    requires n > 0
    ensures |Significant(n)| > 0
  {
  }

  lemma StringRoundTrip(s: Bytes, rest: Bytes)
    requires |s| < SIZE_LIMIT
    ensures |Significant(|s|)| <= 8 && DecodeString(EncodeString(s) + rest) == Some((BytesVal(s), rest))
  {
    hide Pow256, Significant;
    SignificantLength(|s|, 8);
    var b := EncodeString(s) + rest;
    if |s| == 1 && s[0] < 0x80 {
      assert b[1..] == rest && s == [s[0]];
    } else {
      PrefixRoundTrip(|s|, 0x80, s + rest);
      assert b == EncodePrefix(|s|, 0x80) + (s + rest);
      TakeBack(s, rest);
    }
  }

  /** Decoding what was encoded, whatever follows, gives the value and exactly what follows. */
  lemma {:induction false} RoundTrip(v: Val, t: Type, rest: Bytes)
    requires HasType(v, t) && Fits(v)
    ensures Decode(t, Encode(v) + rest) == Some((v, rest))
    decreases v, 0
  {
    hide Pow256, Significant, EncodePrefix, DecodePrefix;
    match t
    case IntType(w) => IntRoundTrip(v.n, w, rest);
    case BytesType => StringRoundTrip(v.b, rest);
    case ListType(e) =>
      ListHeader(v.items, rest);
      SizesAreLength(v.items);
      ItemsRoundTrip(v.items, e, rest);
    case RecordType(ts) =>
      ListHeader(v.items, rest);
      FieldsRoundTrip(v.items, ts, rest);
  }

  lemma ListHeader(items: seq<Val>, rest: Bytes)
    requires Fits(ListVal(items))
    ensures var b, body := Encode(ListVal(items)) + rest, EncodeAll(items) + rest;
            b != [] && 0xc0 <= b[0] && DecodePrefix(b, 0xc0) == Some((|EncodeAll(items)|, body))
  {
    hide Pow256, Significant, EncodePrefix, DecodePrefix;
    SizesAreLength(items);
    SignificantLength(Sizes(items), 8);
    PrefixRoundTrip(Sizes(items), 0xc0, EncodeAll(items) + rest);
    assert Encode(ListVal(items)) + rest == EncodePrefix(Sizes(items), 0xc0) + (EncodeAll(items) + rest);
  }

  lemma {:induction false} ItemsRoundTrip(items: seq<Val>, e: Type, rest: Bytes)
    requires forall i :: 0 <= i < |items| ==> HasType(items[i], e) && Fits(items[i])
    requires |EncodeAll(items)| < SIZE_LIMIT
    ensures DecodeItems(e, |EncodeAll(items)|, EncodeAll(items) + rest) == Some((items, rest))
    decreases items, 1
  {
    hide Pow256, Encode, Decode, DecodeItems, Left, HasType, Fits;
    if items == [] {
      ItemsNone(e, rest);
      assert [] + rest == rest;
    } else {
      var first, others := Encode(items[0]), EncodeAll(items[1..]);
      assert EncodeAll(items) + rest == first + (others + rest);
      RoundTrip(items[0], e, others + rest);
      EncodeNonEmpty(items[0]);
      ItemsRoundTrip(items[1..], e, rest);
      LeftExact(|first| + |others|, |first|);
      ItemsStep(e, |first| + |others|, first + (others + rest), items[0], others + rest);
      assert items == [items[0]] + items[1..];
    }
  }

  lemma ItemsNone(e: Type, b: Bytes)
    ensures DecodeItems(e, 0, b) == Some(([], b))
  {
  }

  lemma ItemsStep(e: Type, size: nat, b: Bytes, v: Val, rest: Bytes)
    requires size > 0 && Decode(e, b) == Some((v, rest))
    ensures DecodeItems(e, size, b) ==
            match DecodeItems(e, Left(size, |b| - |rest|), rest)
            case None => None
            case Some((vs, rest')) => Some(([v] + vs, rest'))
  {
    hide Decode, Left;
  }

  lemma LeftExact(size: nat, used: nat)
    requires used <= size < SIZE_LIMIT
    ensures Left(size, used) == size - used
  {
    hide Pow256;
  }

  lemma {:induction false} FieldsRoundTrip(items: seq<Val>, ts: seq<Type>, rest: Bytes)
    requires |items| == |ts| && forall i :: 0 <= i < |items| ==> HasType(items[i], ts[i]) && Fits(items[i])
    ensures DecodeFields(ts, EncodeAll(items) + rest) == Some((items, rest))
    decreases items, 1
  {
    hide Pow256, Encode, Decode;
    if items == [] {
      assert [] + rest == rest;
    } else {
      var body := EncodeAll(items[1..]) + rest;
      assert EncodeAll(items) + rest == Encode(items[0]) + body;
      RoundTrip(items[0], ts[0], body);
      FieldsRoundTrip(items[1..], ts[1..], rest);
      assert items == [items[0]] + items[1..];
    }
  }

  /** No encoding of a type is the beginning of another. */
  lemma PrefixFree(a: Val, b: Val, t: Type, x: Bytes, y: Bytes)
    requires HasType(a, t) && HasType(b, t) && Fits(a) && Fits(b) && Encode(a) + x == Encode(b) + y
    ensures a == b && x == y
  {
    RoundTrip(a, t, x);
    RoundTrip(b, t, y);
  }
}
