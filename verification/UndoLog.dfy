/** What the undo log means: contents of the store at each push, recovered from the entries. */
module UndoLog {
  import opened Options
  import opened ByteKeys
  import opened UndoSegment

  type Store = map<Bytes, Bytes>

  function Find(m: Store, k: Bytes): Option<Bytes> {
    if k in m then Some(m[k]) else None
  }

  function Assign(m: Store, k: Bytes, v: Option<Bytes>): Store {
    if v.Some? then m[k := v.value] else m - {k}
  }

  lemma AssignFind(m: Store, k: Bytes, v: Option<Bytes>, x: Bytes)
    ensures Find(Assign(m, k, v), x) == if x == k then v else Find(m, x)
  {
  }

  lemma AssignSame(m: Store, k: Bytes)
    ensures Assign(m, k, Find(m, k)) == m
  {
  }

  lemma SameStore(a: Store, b: Store)
    requires forall k :: Find(a, k) == Find(b, k)
    ensures a == b
  {
    forall k ensures k in a <==> k in b {
      assert Find(a, k) == Find(b, k);
    }
    forall k | k in a ensures a[k] == b[k] {
      assert Find(a, k) == Find(b, k);
    }
  }

  /** Put back the old values of a segment, in the order of its entries. */
  function PutBack(m: Store, es: seq<Entry>): Store
    decreases |es|
  {
    if es == [] then m else PutBack(Assign(m, es[0].key, es[0].old_), es[1..])
  }

  /** Put back segments, the last one first. */
  function Revert(m: Store, segments: seq<seq<Entry>>): Store
    decreases |segments|
  {
    if segments == [] then m
    else Revert(PutBack(m, segments[|segments| - 1]), segments[..|segments| - 1])
  }

  lemma {:induction false} RevertConcat(m: Store, a: seq<seq<Entry>>, b: seq<seq<Entry>>)
    ensures Revert(m, a + b) == Revert(Revert(m, b), a)
    decreases |b|
  {
    if b == [] {
      assert a + b == a;
    } else {
      var n := |b| - 1;
      assert (a + b)[..|a + b| - 1] == a + b[..n];
      RevertConcat(PutBack(m, b[n]), a, b[..n]);
    }
  }

  /**
   `base[i]` is the store when level i was pushed, `counts[i]` the number of segments of level i:
   putting back the segments of a level turns the store at the next push into the one at its own.
   */
  ghost predicate Restores(m: Store, segments: seq<seq<Entry>>, counts: seq<nat>, base: seq<Store>)
    decreases |counts|
  {
    |counts| == |base| &&
    if counts == [] then segments == []
    else
      var top := |counts| - 1;
      var n := counts[top];
      && n <= |segments|
      && Revert(m, segments[|segments| - n..]) == base[top]
      && Restores(base[top], segments[..|segments| - n], counts[..top], base[..top])
  }

  lemma RestoresTop(m: Store, lower: seq<seq<Entry>>, upper: seq<seq<Entry>>, counts: seq<nat>, base: seq<Store>, b: Store)
    requires Revert(m, upper) == b && Restores(b, lower, counts, base)
    ensures Restores(m, lower + upper, counts + [|upper|], base + [b])
  {
    hide Revert;
    var segments, c, bs := lower + upper, counts + [|upper|], base + [b];
    assert segments[|segments| - |upper|..] == upper && segments[..|segments| - |upper|] == lower;
    assert c[..|counts|] == counts && bs[..|base|] == base;
  }

  function Sum(counts: seq<nat>): nat {
    if counts == [] then 0 else Sum(counts[..|counts| - 1]) + counts[|counts| - 1]
  }

  lemma {:induction false} RestoresCount(m: Store, segments: seq<seq<Entry>>, counts: seq<nat>, base: seq<Store>)
    requires Restores(m, segments, counts, base)
    ensures |segments| == Sum(counts)
    decreases |counts|
  {
    if counts != [] {
      var top := |counts| - 1;
      RestoresCount(base[top], segments[..|segments| - counts[top]], counts[..top], base[..top]);
    }
  }

  lemma RestoresPush(m: Store, segments: seq<seq<Entry>>, counts: seq<nat>, base: seq<Store>)
    requires Restores(m, segments, counts, base)
    ensures Restores(m, segments, counts + [0], base + [m])
  {
    var c, b := counts + [0], base + [m];
    assert c[..|counts|] == counts && b[..|base|] == base;
    assert segments[|segments|..] == [] && segments[..|segments|] == segments;
  }

  lemma RestoresUndo(m: Store, segments: seq<seq<Entry>>, counts: seq<nat>, base: seq<Store>)
    requires Restores(m, segments, counts, base) && counts != []
    ensures var top, n := |counts| - 1, counts[|counts| - 1];
            && |base| == |counts| && n <= |segments|
            && Revert(m, segments[|segments| - n..]) == base[top]
            && Restores(base[top], segments[..|segments| - n], counts[..top], base[..top])
  {
  }

  lemma RestoresSquash(m: Store, segments: seq<seq<Entry>>, counts: seq<nat>, base: seq<Store>)
    requires Restores(m, segments, counts, base) && |counts| >= 2
    ensures var top := |counts| - 1;
            Restores(m, segments, counts[..top - 1] + [counts[top - 1] + counts[top]], base[..top])
  {
    hide Revert;
    var top := |counts| - 1;
    var n, k := counts[top], counts[top - 1];
    var lower := segments[..|segments| - n];
    var c := counts[..top - 1] + [k + n];
    assert Restores(base[top], lower, counts[..top], base[..top]);
    assert counts[..top][top - 1] == k && counts[..top][..top - 1] == counts[..top - 1];
    assert lower[..|lower| - k] == segments[..|segments| - (k + n)];
    assert lower[|lower| - k..] + segments[|segments| - n..] == segments[|segments| - (k + n)..];
    RevertConcat(m, lower[|lower| - k..], segments[|segments| - n..]);
    assert c[..|c| - 1] == counts[..top - 1] && base[..top][..top - 1] == base[..top - 1];
  }

  /** New segments that put `m'` back to `m` join the top level. */
  lemma RestoresWrite(m: Store, m': Store, segments: seq<seq<Entry>>, more: seq<seq<Entry>>, counts: seq<nat>, base: seq<Store>)
    requires Restores(m, segments, counts, base) && counts != [] && Revert(m', more) == m
    ensures var top := |counts| - 1;
            Restores(m', segments + more, counts[..top] + [counts[top] + |more|], base)
  {
    hide Revert, Restores;
    var top := |counts| - 1;
    RestoresUndo(m, segments, counts, base);
    var lower, upper := segments[..|segments| - counts[top]], segments[|segments| - counts[top]..];
    RevertConcat(m', upper, more);
    RestoresTop(m', lower, upper + more, counts[..top], base[..top], base[top]);
    Regroup(segments, more, |segments| - counts[top]);
    assert base[..top] + [base[top]] == base;
  }

  lemma Regroup(segments: seq<seq<Entry>>, more: seq<seq<Entry>>, n: nat)
    requires n <= |segments|
    ensures segments[..n] + (segments[n..] + more) == segments + more
  {
  }

  lemma {:induction false} RestoresCommit(m: Store, segments: seq<seq<Entry>>, counts: seq<nat>, base: seq<Store>, d: nat)
    requires Restores(m, segments, counts, base) && d <= |counts|
    ensures Sum(counts[d..]) <= |segments|
    ensures Restores(m, segments[|segments| - Sum(counts[d..])..], counts[d..], base[d..])
    decreases |counts|
  {
    hide Revert;
    if d == |counts| {
      assert counts[d..] == [] && base[d..] == [];
    } else {
      var top := |counts| - 1;
      var n := counts[top];
      var lower := segments[..|segments| - n];
      RestoresCommit(base[top], lower, counts[..top], base[..top], d);
      assert counts[d..][..|counts[d..]| - 1] == counts[..top][d..];
      assert base[d..][..|base[d..]| - 1] == base[..top][d..];
      var s := Sum(counts[..top][d..]);
      var kept := segments[|segments| - Sum(counts[d..])..];
      assert kept[..|kept| - n] == lower[|lower| - s..];
      assert kept[|kept| - n..] == segments[|segments| - n..];
    }
  }

  // ---- Segments cut from one list of changes ----

  function Flatten(segments: seq<seq<Entry>>): seq<Entry> {
    if segments == [] then [] else Flatten(segments[..|segments| - 1]) + segments[|segments| - 1]
  }

  predicate DistinctKeys(es: seq<Entry>) {
    forall i, j :: 0 <= i < j < |es| ==> es[i].key != es[j].key
  }

  /** The old value that `es` records for `k`, if it has an entry for `k`. */
  function Recorded(es: seq<Entry>, k: Bytes): Option<Option<Bytes>> {
    if es == [] then None
    else if es[0].key == k then Some(es[0].old_)
    else Recorded(es[1..], k)
  }

  lemma {:induction false} RecordedAt(es: seq<Entry>, k: Bytes)
    requires DistinctKeys(es)
    ensures forall i :: 0 <= i < |es| && es[i].key == k ==> Recorded(es, k) == Some(es[i].old_)
    ensures Recorded(es, k).Some? ==> exists i :: 0 <= i < |es| && es[i].key == k
    decreases |es|
  {
    if es != [] {
      RecordedAt(es[1..], k);
      assert forall i :: 1 <= i < |es| ==> es[i] == es[1..][i - 1];
      if Recorded(es[1..], k).Some? {
        var i :| 0 <= i < |es[1..]| && es[1..][i].key == k;
        assert es[i + 1].key == k;
      }
    }
  }

  lemma {:induction false} RecordedConcat(a: seq<Entry>, b: seq<Entry>, k: Bytes)
    ensures Recorded(a + b, k) == if Recorded(a, k).Some? then Recorded(a, k) else Recorded(b, k)
    decreases |a|
  {
    if a == [] {
      assert a + b == b;
    } else {
      assert (a + b)[1..] == a[1..] + b;
      RecordedConcat(a[1..], b, k);
    }
  }

  /** After putting a segment back, its keys have the recorded values and the others keep theirs. */
  lemma {:induction false} PutBackFind(m: Store, es: seq<Entry>, k: Bytes)
    requires DistinctKeys(es)
    ensures Find(PutBack(m, es), k) == if Recorded(es, k).Some? then Recorded(es, k).value else Find(m, k)
    decreases |es|
  {
    if es != [] {
      var m1 := Assign(m, es[0].key, es[0].old_);
      assert forall i, j :: 0 <= i < j < |es[1..]| ==> es[1..][i] == es[i + 1] && es[1..][j] == es[j + 1];
      PutBackFind(m1, es[1..], k);
      AssignFind(m, es[0].key, es[0].old_, k);
      if es[0].key == k {
        RecordedAt(es[1..], k);
      }
    }
  }

  lemma {:induction false} RevertFind(m: Store, segments: seq<seq<Entry>>, k: Bytes)
    requires DistinctKeys(Flatten(segments))
    ensures var es := Flatten(segments);
            Find(Revert(m, segments), k) == if Recorded(es, k).Some? then Recorded(es, k).value else Find(m, k)
    decreases |segments|
  {
    if segments != [] {
      var n := |segments| - 1;
      var lower, last := Flatten(segments[..n]), segments[n];
      assert lower + last == Flatten(segments);
      assert forall i :: 0 <= i < |lower| ==> Flatten(segments)[i] == lower[i];
      assert forall i :: 0 <= i < |last| ==> Flatten(segments)[|lower| + i] == last[i];
      RevertFind(PutBack(m, last), segments[..n], k);
      PutBackFind(m, last, k);
      RecordedConcat(lower, last, k);
    }
  }

  /** However one list of changes is cut into segments, putting them back undoes the changes. */
  lemma RevertUndoes(m: Store, m': Store, segments: seq<seq<Entry>>)
    requires var es := Flatten(segments);
             && DistinctKeys(es)
             && (forall i :: 0 <= i < |es| ==> es[i].old_ == Find(m, es[i].key))
             && (forall k :: Recorded(es, k).None? ==> Find(m', k) == Find(m, k))
    ensures Revert(m', segments) == m
  {
    var es := Flatten(segments);
    forall k ensures Find(Revert(m', segments), k) == Find(m, k) {
      RevertFind(m', segments, k);
      RecordedAt(es, k);
      if Recorded(es, k).Some? {
        var i :| 0 <= i < |es| && es[i].key == k;
      }
    }
    SameStore(Revert(m', segments), m);
  }
}
