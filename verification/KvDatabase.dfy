/** The ordered store underneath: atomic batches, and cursors that look for neighbouring keys. */
module KvDatabase {
  import opened Options
  import opened ByteKeys
  import opened UndoLog

  datatype Op = Put(key: Bytes, value: Bytes) | Delete(key: Bytes) | DeleteRange(lo: Bytes, hi: Bytes)

  predicate InRange(lo: Bytes, k: Bytes, hi: Bytes) {
    !Less(k, lo) && Less(k, hi)
  }

  function ApplyOp(m: Store, op: Op): Store {
    match op
    case Put(k, v) => m[k := v]
    case Delete(k) => m - {k}
    case DeleteRange(lo, hi) => map k | k in m && !InRange(lo, k, hi) :: m[k]
  }

  function Apply(m: Store, batch: seq<Op>): Store {
    if batch == [] then m else ApplyOp(Apply(m, batch[..|batch| - 1]), batch[|batch| - 1])
  }

  lemma ApplyAppend(m: Store, batch: seq<Op>, op: Op)
    ensures Apply(m, batch + [op]) == ApplyOp(Apply(m, batch), op)
  {
    assert (batch + [op])[..|batch|] == batch;
  }

  /** The least key not below `k`. */
  ghost predicate IsSeek(keys: set<Bytes>, k: Bytes, r: Option<Bytes>) {
    && (r.None? ==> forall x :: x in keys ==> Less(x, k))
    && (r.Some? ==> r.value in keys && !Less(r.value, k) && forall x :: x in keys && Less(x, r.value) ==> Less(x, k))
  }

  /** The least key above `k`. */
  ghost predicate IsNext(keys: set<Bytes>, k: Bytes, r: Option<Bytes>) {
    && (r.None? ==> forall x :: x in keys ==> !Less(k, x))
    && (r.Some? ==> r.value in keys && Less(k, r.value) && forall x :: x in keys && Less(x, r.value) ==> !Less(k, x))
  }

  /** The greatest key below `k`. */
  ghost predicate IsPrev(keys: set<Bytes>, k: Bytes, r: Option<Bytes>) {
    && (r.None? ==> forall x :: x in keys ==> !Less(x, k))
    && (r.Some? ==> r.value in keys && Less(r.value, k) && forall x :: x in keys && Less(r.value, x) ==> !Less(x, k))
  }

  /** A cursor is moved by looking through the keys for the nearest one. */
  method Seek(keys: set<Bytes>, k: Bytes) returns (r: Option<Bytes>)
    ensures IsSeek(keys, k, r)
  {
    hide Less;
    Order();
    var rest := keys;
    r := None;
    while rest != {}
      invariant rest <= keys && IsSeek(keys - rest, k, r)
      decreases rest
    {
      SomeMember(rest);
      var x :| x in rest;
      if !Less(x, k) && (r.None? || Less(x, r.value)) {
        r := Some(x);
      }
      assert keys - (rest - {x}) == keys - rest + {x};
      rest := rest - {x};
    }
    assert keys - rest == keys;
  }

  method NextKey(keys: set<Bytes>, k: Bytes) returns (r: Option<Bytes>)
    ensures IsNext(keys, k, r)
  {
    hide Less;
    Order();
    var rest := keys;
    r := None;
    while rest != {}
      invariant rest <= keys && IsNext(keys - rest, k, r)
      decreases rest
    {
      SomeMember(rest);
      var x :| x in rest;
      if Less(k, x) && (r.None? || Less(x, r.value)) {
        r := Some(x);
      }
      assert keys - (rest - {x}) == keys - rest + {x};
      rest := rest - {x};
    }
    assert keys - rest == keys;
  }

  method PrevKey(keys: set<Bytes>, k: Bytes) returns (r: Option<Bytes>)
    ensures IsPrev(keys, k, r)
  {
    hide Less;
    Order();
    var rest := keys;
    r := None;
    while rest != {}
      invariant rest <= keys && IsPrev(keys - rest, k, r)
      decreases rest
    {
      SomeMember(rest);
      var x :| x in rest;
      if Less(x, k) && (r.None? || Less(r.value, x)) {
        r := Some(x);
      }
      assert keys - (rest - {x}) == keys - rest + {x};
      rest := rest - {x};
    }
    assert keys - rest == keys;
  }

  /** Stepping back from the end. */
  method LastKey(keys: set<Bytes>) returns (r: Option<Bytes>)
    ensures r.None? <==> keys == {}
    ensures r.Some? ==> r.value in keys && forall x :: x in keys ==> !Less(r.value, x)
  {
    hide Less;
    Order();
    var rest := keys;
    r := None;
    while rest != {}
      invariant rest <= keys && (r.None? <==> keys - rest == {})
      invariant r.Some? ==> r.value in keys && forall x :: x in keys - rest ==> !Less(r.value, x)
      decreases rest
    {
      SomeMember(rest);
      var x :| x in rest;
      if r.None? || Less(r.value, x) {
        r := Some(x);
      }
      assert keys - (rest - {x}) == keys - rest + {x};
      rest := rest - {x};
    }
    assert keys - rest == keys;
  }

  class Database {
    var kv: Store

    constructor ()
      ensures kv == map[[0] := [], [255] := []]
    {
      kv := map[[0] := [], [255] := []];
    }

    /** All operations of a batch take effect together. */
    method Write(batch: seq<Op>)
      modifies this
      ensures kv == Apply(old(kv), batch)
    {
      kv := Apply(kv, batch);
    }
  }
}
