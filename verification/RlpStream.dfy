/** RLP through a datastream: writing into a buffer of the counted size, and reading with a cursor. */
module RlpStream {
  import opened Options
  import opened ByteKeys
  import opened SharedBytes
  import opened Datastream
  import opened SignificantBytes
  import opened Rlp

  // ---- Writing ----

  method EncodeIntTo(ds: OutStream, n: nat, width: nat)
    requires n < Pow256(width) && width <= 55 && |Significant(n)| <= 55 && |ds.out| + |EncodeInt(n)| <= ds.capacity
    modifies ds
    ensures ds.out == old(ds.out) + EncodeInt(n)
  {
    hide Pow256;
    var s := InMemory(n, width);
    var trimmed := Trim(s, n, width);
    OneByte(s, trimmed, n);
    if trimmed == 1 && s[0] < 0x80 {
      ds.Put(s[0]);
      return;
    }
    ds.Put(trimmed + 0x80);
    ds.ReverseWrite(s[..trimmed]);
    assert ds.out == old(ds.out) + ([trimmed + 0x80] + Significant(n));
  }

  lemma OneByte(s: Bytes, trimmed: nat, n: nat)
    requires trimmed <= |s| && Reverse(s[..trimmed]) == Significant(n)
    ensures trimmed == |Significant(n)|
    ensures trimmed == 1 && s[0] < 0x80 <==> 0 < n < 0x80
    ensures trimmed == 1 ==> s[0] as int == n
  {
    SignificantValue(n);
    if trimmed == 1 {
      assert Reverse(s[..1]) == [s[0]];
      assert [s[0]][..0] == [];
    }
  }

  method EncodePrefixTo(ds: OutStream, size: nat, mod: nat)
    requires (mod == 0x80 || mod == 0xc0) && size < SIZE_LIMIT && |Significant(size)| <= 8
    requires |ds.out| + |EncodePrefix(size, mod)| <= ds.capacity
    modifies ds
    ensures ds.out == old(ds.out) + EncodePrefix(size, mod)
  {
    hide Pow256;
    if size <= 55 {
      ds.Put(size + mod);
      return;
    }
    var s := InMemory(size, 8);
    var trimmed := Trim(s, size, 8);
    OneByte(s, trimmed, size);
    ds.Put(trimmed + mod + 55);
    ds.ReverseWrite(s[..trimmed]);
    assert ds.out == old(ds.out) + ([trimmed + mod + 55] + Significant(size));
  }

  method EncodeStringTo(ds: OutStream, b: Bytes)
    requires |b| < SIZE_LIMIT && |Significant(|b|)| <= 8 && |ds.out| + |EncodeString(b)| <= ds.capacity
    modifies ds
    ensures ds.out == old(ds.out) + EncodeString(b)
  {
    hide Pow256, Significant, EncodePrefix;
    if |b| == 1 && b[0] < 0x80 {
      ds.Put(b[0]);
    } else {
      EncodePrefixTo(ds, |b|, 0x80);
      ds.Write(b);
    }
  }

  /** The type of item `i` of a list or record. */
  function ItemType(t: Type, i: nat): Type
    requires t.ListType? || (t.RecordType? && i < |t.fields|)
  {
    if t.ListType? then t.elem else t.fields[i]
  }

  predicate ItemsTyped(items: seq<Val>, t: Type) {
    && (t.ListType? || (t.RecordType? && |items| == |t.fields|))
    && forall i :: 0 <= i < |items| ==> HasType(items[i], ItemType(t, i)) && Fits(items[i])
  }

  method EncodeTo(ds: OutStream, v: Val, t: Type)
    requires HasType(v, t) && Fits(v) && |ds.out| + |Encode(v)| <= ds.capacity
    modifies ds
    ensures ds.out == old(ds.out) + Encode(v)
    decreases v, 0
  {
    hide Pow256, Significant, EncodePrefix, EncodeInt, EncodeString, EncodeAll, Sizes;
    match v
    case IntVal(n) =>
      EncodeIntTo(ds, n, t.width);
    case BytesVal(b) =>
      SignificantLength(|b|, 8);
      EncodeStringTo(ds, b);
    case ListVal(items) =>
      var size := SumOfSizes(items);
      SignificantLength(size, 8);
      EncodePrefixTo(ds, size, 0xc0);
      assert ItemsTyped(items, t);
      EncodeItemsTo(ds, items, t);
  }

  method SumOfSizes(items: seq<Val>) returns (size: nat)
    ensures size == Sizes(items)
  {
    hide EncodeSize;
    size := 0;
    for i := 0 to |items|
      invariant size == Sizes(items[..i])
    {
      SizesSplit(items[..i + 1], i);
      assert items[..i + 1][..i] == items[..i] && items[..i + 1][i] == items[i] && items[..i + 1][i + 1..] == [];
      size := size + EncodeSize(items[i]);
    }
    assert items[..|items|] == items;
  }

  method EncodeItemsTo(ds: OutStream, items: seq<Val>, t: Type)
    requires ItemsTyped(items, t) && |ds.out| + |EncodeAll(items)| <= ds.capacity
    modifies ds
    ensures ds.out == old(ds.out) + EncodeAll(items)
    decreases items, 1
  {
    hide Encode, HasType, Fits, EncodeAll;
    AllNone(items);
    for i := 0 to |items|
      invariant ds.out == old(ds.out) + EncodeAll(items[..i])
    {
      AllSplit(items, i);
      AllOneMore(items, i);
      EncodeTo(ds, items[i], ItemType(t, i));
    }
    assert items[..|items|] == items;
  }

  lemma AllNone(items: seq<Val>)
    ensures EncodeAll(items[..0]) == []
  {
  }

  lemma AllOneMore(items: seq<Val>, i: nat)
    requires i < |items| && forall j :: 0 <= j < |items| ==> Fits(items[j])
    ensures EncodeAll(items[..i + 1]) == EncodeAll(items[..i]) + Encode(items[i])
  {
    hide Encode, Fits;
    AllSplit(items[..i + 1], i);
    assert items[..i + 1][..i] == items[..i] && items[..i + 1][i + 1..] == [];
  }

  lemma {:induction false} SizesSplit(items: seq<Val>, i: nat)
    requires i <= |items|
    ensures Sizes(items) == Sizes(items[..i]) + Sizes(items[i..])
    ensures i < |items| ==> Sizes(items[i..]) == EncodeSize(items[i]) + Sizes(items[i + 1..])
    decreases i
  {
    hide EncodeSize;
    if i > 0 {
      SizesSplit(items[1..], i - 1);
      assert items[1..][..i - 1] == items[..i][1..] && items[1..][i - 1..] == items[i..];
    }
  }

  lemma {:induction false} AllSplit(items: seq<Val>, i: nat)
    requires i <= |items| && forall j :: 0 <= j < |items| ==> Fits(items[j])
    ensures EncodeAll(items) == EncodeAll(items[..i]) + EncodeAll(items[i..])
    ensures i < |items| ==> EncodeAll(items[i..]) == Encode(items[i]) + EncodeAll(items[i + 1..])
    decreases i
  {
    hide Encode, Fits;
    if i > 0 {
      AllSplit(items[1..], i - 1);
      assert items[1..][..i - 1] == items[..i][1..] && items[1..][i - 1..] == items[i..];
    } else {
      assert items[..0] == [] && items[0..] == items;
    }
  }

  /** encode: a buffer of the counted size takes the whole encoding. */
  method EncodeToBuffer(v: Val, t: Type) returns (r: Bytes)
    requires HasType(v, t) && Fits(v)
    ensures r == Encode(v) && |r| == EncodeSize(v)
  {
    SizeIsLength(v);
    var ds := new OutStream(EncodeSize(v));
    EncodeTo(ds, v, t);
    return ds.out;
  }

  // ---- Reading ----

  method DecodeIntFrom(ds: InStream, width: nat) returns (r: Option<Val>)
    requires ds.Valid()
    modifies ds
    ensures ds.Valid() && old(ds.pos) <= ds.pos && Agrees(r, ds.Rest(), DecodeInt(width, old(ds.Rest())))
  {
    var prefix := ds.Get();
    if prefix.None? {
      return None;
    }
    if prefix.value < 0xb8 && prefix.value as int <= 0x80 + width {
      if prefix.value < 0x80 {
        return Some(IntVal(prefix.value));
      }
      var n := ds.ReverseRead(prefix.value - 0x80);
      return if n.None? then None else Some(IntVal(n.value));
    }
    return None;
  }

  /** The length that follows a first byte already read. */
  method DecodePrefixFrom(ds: InStream, prefix: Byte, mod: nat) returns (r: Option<nat>)
    requires ds.Valid() && mod <= prefix as int < mod + 64
    modifies ds
    ensures ds.Valid() && old(ds.pos) <= ds.pos && Agrees(r, ds.Rest(), DecodePrefix([prefix] + old(ds.Rest()), mod))
  {
    ghost var b := [prefix] + ds.Rest();
    assert b[1..] == ds.Rest();
    var size := prefix as int - mod;
    if size <= 55 {
      return Some(size);
    }
    r := ds.ReverseRead(size - 55);
  }

  method DecodeStringFrom(ds: InStream) returns (r: Option<Val>)
    requires ds.Valid()
    modifies ds
    ensures ds.Valid() && old(ds.pos) <= ds.pos && Agrees(r, ds.Rest(), DecodeString(old(ds.Rest())))
  {
    hide DecodePrefix;
    ghost var b := ds.Rest();
    var prefix := ds.Get();
    if prefix.None? {
      return None;
    }
    assert b == [prefix.value] + b[1..];
    if prefix.value < 0x80 {
      return Some(BytesVal([prefix.value]));
    }
    if prefix.value < 0xc0 {
      var size := DecodePrefixFrom(ds, prefix.value, 0x80);
      if size.None? {
        return None;
      }
      var s := ds.Read(size.value);
      return if s.None? then None else Some(BytesVal(s.value));
    }
    return None;
  }

  /** What comes before a decoding of the rest. */
  ghost function Before(vs: seq<Val>, d: Option<(seq<Val>, Bytes)>): Option<(seq<Val>, Bytes)> {
    match d
    case None => None
    case Some((items, rest)) => Some((vs + items, rest))
  }

  lemma BeforeStep(vs: seq<Val>, v: Val, d: Option<(seq<Val>, Bytes)>)
    ensures Before(vs, Before([v], d)) == Before(vs + [v], d) && Before([], d) == d
  {
    if d.Some? {
      assert vs + ([v] + d.value.0) == vs + [v] + d.value.0 && [] + d.value.0 == d.value.0;
    }
  }

  method DecodeFrom(ds: InStream, t: Type) returns (r: Option<Val>)
    requires ds.Valid()
    modifies ds
    ensures ds.Valid() && old(ds.pos) <= ds.pos && Agrees(r, ds.Rest(), Decode(t, old(ds.Rest())))
    decreases |ds.buf| - ds.pos, 1
  {
    hide DecodePrefix, DecodeString, DecodeInt, DecodeItems, DecodeFields;
    if t.IntType? {
      r := DecodeIntFrom(ds, t.width);
      return;
    }
    if t.BytesType? {
      r := DecodeStringFrom(ds);
      return;
    }
    ghost var b := ds.Rest();
    var prefix := ds.Get();
    if prefix.None? || prefix.value < 0xc0 {
      return None;
    }
    assert b == [prefix.value] + b[1..];
    var size := DecodePrefixFrom(ds, prefix.value, 0xc0);
    if size.None? {
      return None;
    }
    var items;
    if t.ListType? {
      items := DecodeItemsFrom(ds, t.elem, size.value);
    } else {
      items := DecodeFieldsFrom(ds, t.fields);
    }
    r := if items.None? then None else Some(ListVal(items.value));
  }

  method DecodeItemsFrom(ds: InStream, e: Type, total: nat) returns (r: Option<seq<Val>>)
    requires ds.Valid()
    modifies ds
    ensures ds.Valid() && old(ds.pos) <= ds.pos && Agrees(r, ds.Rest(), DecodeItems(e, total, old(ds.Rest())))
    decreases |ds.buf| - ds.pos, 2
  {
    hide Decode, Left, DecodeItems;
    var size, vs := total, [];
    ghost var d := DecodeItems(e, total, ds.Rest());
    BeforeStep([], IntVal(0), d);
    while size > 0
      invariant ds.Valid() && old(ds.pos) <= ds.pos
      invariant d == Before(vs, DecodeItems(e, size, ds.Rest()))
      decreases |ds.buf| - ds.pos
    {
      var start := ds.pos;
      ghost var b := ds.Rest();
      var v := DecodeFrom(ds, e);
      ItemsUnfold(e, size, b);
      if v.None? {
        return None;
      }
      vs := vs + [v.value];
      size := Left(size, ds.pos - start);
      BeforeStep(vs[..|vs| - 1], v.value, DecodeItems(e, size, ds.Rest()));
      assert vs[..|vs| - 1] + [v.value] == vs;
    }
    ItemsNone(e, ds.Rest());
    r := Some(vs);
    assert vs + [] == vs;
  }

  lemma ItemsUnfold(e: Type, size: nat, b: Bytes)
    requires size > 0
    ensures Decode(e, b).None? ==> DecodeItems(e, size, b).None?
    ensures Decode(e, b).Some? ==>
              var (v, rest) := Decode(e, b).value;
              |rest| < |b| && DecodeItems(e, size, b) == Before([v], DecodeItems(e, Left(size, |b| - |rest|), rest))
  {
    hide Decode, Left;
  }

  method DecodeFieldsFrom(ds: InStream, ts: seq<Type>) returns (r: Option<seq<Val>>)
    requires ds.Valid()
    modifies ds
    ensures ds.Valid() && old(ds.pos) <= ds.pos && Agrees(r, ds.Rest(), DecodeFields(ts, old(ds.Rest())))
    decreases |ds.buf| - ds.pos, 2
  {
    hide Decode, DecodeFields;
    var vs := [];
    ghost var d := DecodeFields(ts, ds.Rest());
    BeforeStep([], IntVal(0), d);
    assert ts[0..] == ts;
    for i := 0 to |ts|
      invariant ds.Valid() && old(ds.pos) + i <= ds.pos
      invariant d == Before(vs, DecodeFields(ts[i..], ds.Rest()))
    {
      ghost var b := ds.Rest();
      var v := DecodeFrom(ds, ts[i]);
      FieldsUnfold(ts[i..], b);
      assert ts[i..][1..] == ts[i + 1..];
      if v.None? {
        return None;
      }
      vs := vs + [v.value];
      BeforeStep(vs[..|vs| - 1], v.value, DecodeFields(ts[i + 1..], ds.Rest()));
      assert vs[..|vs| - 1] + [v.value] == vs;
    }
    FieldsNone(ds.Rest());
    r := Some(vs);
    assert vs + [] == vs;
  }

  lemma FieldsUnfold(ts: seq<Type>, b: Bytes)
    requires ts != []
    ensures Decode(ts[0], b).None? ==> DecodeFields(ts, b).None?
    ensures Decode(ts[0], b).Some? ==>
              var (v, rest) := Decode(ts[0], b).value;
              |rest| < |b| && DecodeFields(ts, b) == Before([v], DecodeFields(ts[1..], rest))
  {
    hide Decode;
  }

  lemma FieldsNone(b: Bytes)
    ensures DecodeFields([], b) == Some(([], b))
  {
  }
}
