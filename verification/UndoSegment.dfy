/** The entries of the undo log and the bytes of an undo segment. */
module UndoSegment {
  import opened Options
  import opened ByteKeys
  import Varint

  /** One changed key with its value before and after; None means absent. */
  datatype Entry = Entry(key: Bytes, old_: Option<Bytes>, new_: Option<Bytes>)

  /** The inverse of a size written in groups of seven bits, of any length. */
  function UnpackSize(b: Bytes): Option<(nat, Bytes)> {
    if b == [] then None
    else if b[0] < 128 then Some((b[0], b[1..]))
    else
      match UnpackSize(b[1..])
      case None => None
      case Some((n, rest)) => Some((b[0] - 128 + 128 * n, rest))
  }

  function PackBytes(b: Bytes): Bytes {
    Varint.Leb(|b|) + b
  }

  /** The bytes and what follows them, unless fewer bytes remain than the size says. */
  function GetBytes(b: Bytes): Option<(Bytes, Bytes)> {
    match UnpackSize(b)
    case None => None
    case Some((n, rest)) => if n > |rest| then None else Some((rest[..n], rest[n..]))
  }

  function PackOptional(o: Option<Bytes>): Bytes {
    if o.None? then [0] else [1] + PackBytes(o.value)
  }

  function GetOptional(b: Bytes): Option<(Option<Bytes>, Bytes)> {
    if b == [] || b[0] > 1 then None
    else if b[0] == 0 then Some((None, b[1..]))
    else
      match GetBytes(b[1..])
      case None => None
      case Some((v, rest)) => Some((Some(v), rest))
  }

  function Pack(e: Entry): Bytes {
    PackBytes(e.key) + PackOptional(e.old_) + PackOptional(e.new_)
  }

  function PackAll(es: seq<Entry>): Bytes {
    if es == [] then [] else PackAll(es[..|es| - 1]) + Pack(es[|es| - 1])
  }

  function Unpack(b: Bytes): Option<(Entry, Bytes)> {
    match GetBytes(b)
    case None => None
    case Some((key, b1)) =>
      match GetOptional(b1)
      case None => None
      case Some((o, b2)) =>
        match GetOptional(b2)
        case None => None
        case Some((n, b3)) => Some((Entry(key, o, n), b3))
  }

  lemma {:induction false} SizeRoundTrip(n: nat, rest: Bytes)
    ensures UnpackSize(Varint.Leb(n) + rest) == Some((n, rest))
    decreases n
  {
    var b := Varint.Leb(n) + rest;
    if n < 128 {
      assert b[1..] == rest;
    } else {
      SizeRoundTrip(n / 128, rest);
      assert b[1..] == Varint.Leb(n / 128) + rest;
    }
  }

  lemma BytesRoundTrip(v: Bytes, rest: Bytes)
    ensures GetBytes(PackBytes(v) + rest) == Some((v, rest))
  {
    SizeRoundTrip(|v|, v + rest);
    assert PackBytes(v) + rest == Varint.Leb(|v|) + (v + rest);
    assert (v + rest)[..|v|] == v && (v + rest)[|v|..] == rest;
  }

  lemma OptionalRoundTrip(o: Option<Bytes>, rest: Bytes)
    ensures GetOptional(PackOptional(o) + rest) == Some((o, rest))
  {
    hide PackBytes, GetBytes;
    var b := PackOptional(o) + rest;
    if o.None? {
      assert b[1..] == rest;
    } else {
      BytesRoundTrip(o.value, rest);
      assert b[1..] == PackBytes(o.value) + rest;
    }
  }

  /** An entry is read back from its bytes, whatever follows them. */
  lemma EntryRoundTrip(e: Entry, rest: Bytes)
    ensures Unpack(Pack(e) + rest) == Some((e, rest))
  {
    hide PackBytes, PackOptional, GetBytes, GetOptional;
    var b2 := PackOptional(e.new_) + rest;
    var b1 := PackOptional(e.old_) + b2;
    BytesRoundTrip(e.key, b1);
    OptionalRoundTrip(e.old_, b2);
    OptionalRoundTrip(e.new_, rest);
    assert Pack(e) + rest == PackBytes(e.key) + b1;
  }

  /** The bytes of an entry: the key after its length, then the old value and the new one, each marked absent or present. */
  lemma PackedBytes(e: Entry)
    ensures var key := Varint.Leb(|e.key|) + e.key;
            match (e.old_, e.new_)
            case (None, None) => Pack(e) == key + [0, 0]
            case (None, Some(n)) => Pack(e) == key + [0, 1] + Varint.Leb(|n|) + n
            case (Some(o), None) => Pack(e) == key + [1] + Varint.Leb(|o|) + o + [0]
            case (Some(o), Some(n)) => Pack(e) == key + [1] + Varint.Leb(|o|) + o + [1] + Varint.Leb(|n|) + n
  {
    hide Varint.Leb;
  }

  lemma PackAllLast(es: seq<Entry>)
    requires es != []
    ensures PackAll(es) == PackAll(es[..|es| - 1]) + Pack(es[|es| - 1]) && PackAll([]) == []
  {
    hide Pack;
  }

  lemma {:induction false} PackAllSplit(es: seq<Entry>)
    requires es != []
    ensures PackAll(es) == Pack(es[0]) + PackAll(es[1..])
    decreases |es|
  {
    hide Pack, PackAll;
    PackAllLast(es);
    var n, t := |es| - 1, es[1..];
    if n == 0 {
      assert es[..0] == [] && t == [];
    } else {
      PackAllSplit(es[..n]);
      PackAllLast(t);
      assert es[..n][1..] == t[..n - 1] && es[..n][0] == es[0] && t[n - 1] == es[n];
      var first, middle, last := Pack(es[0]), PackAll(t[..n - 1]), Pack(es[n]);
      assert (first + middle) + last == first + (middle + last);
    }
  }
}
