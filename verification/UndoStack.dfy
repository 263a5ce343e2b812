/**
 The undo stack kept in the database. Keys that begin with `prefix` are its own: segment number i is
 stored under `prefix`, 0x80 and the eight bytes of i. The record of the stack itself is `saved`.
 */
module ChainKvUndo {
  import opened Options
  import opened ByteKeys
  import opened SharedBytes
  import opened UndoSegment
  import opened UndoLog
  import opened KvDatabase
  import opened WriteCache

  datatype UndoState = UndoState(revision: int, counts: seq<nat>, next: nat)

  const SEGMENT_LIMIT: nat := Pow256(8)

  function SegmentPrefix(prefix: Bytes): Bytes {
    prefix + [0x80]
  }

  /** create_segment_key: the number follows in big-endian order. */
  function SegmentKey(prefix: Bytes, i: nat): Bytes {
    SegmentPrefix(prefix) + ToBigEndian(i, 8)
  }

  /** Keys a client may use: between the sentinels and outside the undo stack's own range. */
  predicate UserKey(prefix: Bytes, k: Bytes) {
    k != [] && 0 < k[0] < 255 && !(prefix <= k)
  }

  /** What clients see of the database. */
  ghost function Users(prefix: Bytes, m: Store): Store {
    map k | k in m && !(prefix <= k) :: m[k]
  }

  lemma SegmentKeyOrder(prefix: Bytes, i: nat, j: nat)
    requires i < SEGMENT_LIMIT && j < SEGMENT_LIMIT
    ensures Less(SegmentKey(prefix, i), SegmentKey(prefix, j)) <==> i < j
    ensures SegmentKey(prefix, i) == SegmentKey(prefix, j) <==> i == j
  {
    hide Less, ToBigEndian, Pow256;
    var a, b := SegmentKey(prefix, i), SegmentKey(prefix, j);
    var n := |prefix| + 1;
    LessAt(a, b, n);
    assert a[n..] == ToBigEndian(i, 8) && b[n..] == ToBigEndian(j, 8);
    ToBigEndianOrder(i, j, 8);
  }

  /** The bytes of a segment's key: the prefix, 0x80 and the number in eight bytes, most significant first. */
  lemma SegmentKeyBytes(prefix: Bytes, i: nat)
    requires i < SEGMENT_LIMIT
    ensures var k, n := SegmentKey(prefix, i), |prefix|;
            |k| == n + 9 && k[..n] == prefix && k[n] == 0x80 && BigEndian(k[n + 1..]) == i
  {
    BigEndianInverse(i, 8);
    assert SegmentKey(prefix, i)[|prefix| + 1..] == ToBigEndian(i, 8);
  }

  /** If i is the number of one of `segments`, the last of which is number `next - 1`, it is stored. */
  ghost predicate StoredAt(prefix: Bytes, m: Store, segments: seq<seq<Entry>>, next: nat, i: nat)
    requires |segments| <= next
  {
    next - |segments| <= i < next ==>
      SegmentKey(prefix, i) in m && m[SegmentKey(prefix, i)] == PackAll(segments[i - (next - |segments|)])
  }

  /** Of the keys under `prefix` the store holds exactly the segments numbered `next - |segments|` to `next`. */
  ghost predicate SegmentsStored(prefix: Bytes, m: Store, segments: seq<seq<Entry>>, next: nat) {
    && |segments| <= next
    && (forall i :: StoredAt(prefix, m, segments, next, i))
    && (forall k :: k in m && prefix <= k ==> IsLiveSegment(prefix, |segments|, next, k))
  }

  ghost predicate IsLiveSegment(prefix: Bytes, n: nat, next: nat, k: Bytes)
    requires n <= next
  {
    exists i: nat :: next - n <= i < next && k == SegmentKey(prefix, i)
  }

  ghost predicate EntriesOk(prefix: Bytes, es: seq<Entry>) {
    es != [] && DistinctKeys(es) && forall i :: 0 <= i < |es| ==> UserKey(prefix, es[i].key)
  }

  ghost predicate StackOk(prefix: Bytes, m: Store, state: UndoState, segments: seq<seq<Entry>>, base: seq<Store>) {
    && prefix != [] && 0 < prefix[0] < 255 && [255] in m
    && state.next < SEGMENT_LIMIT
    && SegmentsStored(prefix, m, segments, state.next)
    && (forall j :: 0 <= j < |segments| ==> EntriesOk(prefix, segments[j]))
    && Restores(Users(prefix, m), segments, state.counts, base)
  }

  // ---- Single operations on the store ----

  lemma UsersFind(prefix: Bytes, m: Store, k: Bytes)
    ensures Find(Users(prefix, m), k) == if prefix <= k then None else Find(m, k)
  {
  }

  /** Changing a key outside the undo range leaves the segments alone. */
  lemma UserChange(prefix: Bytes, m: Store, segments: seq<seq<Entry>>, next: nat, k: Bytes, v: Option<Bytes>)
    requires SegmentsStored(prefix, m, segments, next) && UserKey(prefix, k)
    ensures SegmentsStored(prefix, Assign(m, k, v), segments, next)
    ensures Users(prefix, Assign(m, k, v)) == Assign(Users(prefix, m), k, v)
    ensures [255] in m ==> [255] in Assign(m, k, v)
  {
    hide PackAll, SegmentKey;
    forall i: nat ensures StoredAt(prefix, Assign(m, k, v), segments, next, i) {
      assert StoredAt(prefix, m, segments, next, i);
      SegmentKeyHasPrefix(prefix, i);
    }
  }

  lemma AddSegment(prefix: Bytes, m: Store, segments: seq<seq<Entry>>, next: nat, es: seq<Entry>)
    requires prefix != [] && SegmentsStored(prefix, m, segments, next) && next < SEGMENT_LIMIT
    ensures var m' := m[SegmentKey(prefix, next) := PackAll(es)];
            && SegmentsStored(prefix, m', segments + [es], next + 1)
            && Users(prefix, m') == Users(prefix, m)
  {
    hide PackAll, SegmentKey;
    var key, more, first, next' := SegmentKey(prefix, next), segments + [es], next - |segments|, next + 1;
    var m' := m[key := PackAll(es)];
    SegmentKeyHasPrefix(prefix, next);
    forall i: nat ensures StoredAt(prefix, m', more, next', i) {
      assert StoredAt(prefix, m, segments, next, i);
      if i < next {
        SegmentKeyOrder(prefix, i, next);
      }
    }
    forall k | k in m' && prefix <= k ensures IsLiveSegment(prefix, |more|, next + 1, k) {
      if k != key {
        assert IsLiveSegment(prefix, |segments|, next, k);
        var i: nat :| first <= i < next && k == SegmentKey(prefix, i);
      }
    }
  }

  lemma SegmentKeyHasPrefix(prefix: Bytes, i: nat)
    ensures prefix <= SegmentKey(prefix, i) && SegmentPrefix(prefix) <= SegmentKey(prefix, i)
  {
  }

  lemma RemoveLastSegment(prefix: Bytes, m: Store, segments: seq<seq<Entry>>, next: nat)
    requires prefix != [] && SegmentsStored(prefix, m, segments, next) && segments != [] && next < SEGMENT_LIMIT
    ensures var m' := m - {SegmentKey(prefix, next - 1)};
            && SegmentsStored(prefix, m', segments[..|segments| - 1], next - 1)
            && Users(prefix, m') == Users(prefix, m)
  {
    hide PackAll, SegmentKey;
    var key, fewer, first, next' := SegmentKey(prefix, next - 1), segments[..|segments| - 1], next - |segments|, next - 1;
    var m' := m - {key};
    SegmentKeyHasPrefix(prefix, next - 1);
    forall i: nat ensures StoredAt(prefix, m', fewer, next', i) {
      assert StoredAt(prefix, m, segments, next, i);
      if i < next - 1 {
        SegmentKeyOrder(prefix, i, next - 1);
      }
    }
    forall k | k in m' && prefix <= k ensures IsLiveSegment(prefix, |fewer|, next - 1, k) {
      assert IsLiveSegment(prefix, |segments|, next, k);
      var i: nat :| first <= i < next && k == SegmentKey(prefix, i);
      assert i != next - 1;
    }
  }

  /** Deleting the range of the segments below number `keep`. */
  lemma RemoveOldSegments(prefix: Bytes, m: Store, segments: seq<seq<Entry>>, next: nat, keep: nat)
    requires prefix != [] && SegmentsStored(prefix, m, segments, next) && next < SEGMENT_LIMIT
    requires next - |segments| <= keep <= next
    ensures var m' := ApplyOp(m, DeleteRange(SegmentKey(prefix, 0), SegmentKey(prefix, keep)));
            && SegmentsStored(prefix, m', segments[|segments| - (next - keep)..], next)
            && Users(prefix, m') == Users(prefix, m)
            && ([255] in m && 0 < prefix[0] < 255 ==> [255] in m')
  {
    hide PackAll, SegmentKey, Less, Pow256;
    var lo, hi := SegmentKey(prefix, 0), SegmentKey(prefix, keep);
    var m', kept := ApplyOp(m, DeleteRange(lo, hi)), segments[|segments| - (next - keep)..];
    forall i: nat ensures StoredAt(prefix, m', kept, next, i) {
      assert StoredAt(prefix, m, segments, next, i);
      if i < next {
        SegmentKeyOrder(prefix, i, keep);
      }
    }
    forall k | k in m' && prefix <= k ensures IsLiveSegment(prefix, |kept|, next, k) {
      assert IsLiveSegment(prefix, |segments|, next, k);
      var i: nat :| next - |segments| <= i < next && k == SegmentKey(prefix, i);
      SegmentKeyOrder(prefix, i, keep);
      SegmentKeyOrder(prefix, i, 0);
    }
    forall k | k in m && !(prefix <= k) ensures k in m' {
      OutsideSegmentRange(prefix, k, keep);
    }
  }

  /** A key between two segment keys begins with the prefix. */
  lemma OutsideSegmentRange(prefix: Bytes, k: Bytes, keep: nat)
    requires prefix != [] && !(prefix <= k)
    ensures !InRange(SegmentKey(prefix, 0), k, SegmentKey(prefix, keep))
  {
    hide Less;
    var p := SegmentPrefix(prefix);
    Order();
    PrefixNotLess(p, SegmentKey(prefix, 0));
    NextSegmentPrefix(prefix);
    PrefixRange(p, SegmentKey(prefix, keep));
    PrefixRange(p, k);
    assert prefix <= p;
  }

  lemma NextSegmentPrefix(prefix: Bytes)
    ensures NextPrefix(SegmentPrefix(prefix)) == prefix + [0x81]
  {
    assert SegmentPrefix(prefix)[..|prefix|] == prefix;
  }

  // ---- Writing a list of changes ----

  function EntryOf(cache: Cache, k: Bytes): Entry
    requires k in cache
  {
    Entry(k, cache[k].orig, cache[k].current)
  }

  /** The first `i` keys of the change list have been written to `m`, and `es` records how to undo that. */
  ghost predicate Writing(prefix: Bytes, kv: Store, m: Store, cache: Cache, order: seq<Bytes>, i: nat,
                          es: seq<Entry>, recording: bool)
    requires i <= |order| && forall k :: k in order ==> k in cache
  {
    && (forall k :: Find(Users(prefix, m), k) ==
                    if k in order[..i] then cache[k].current else Find(Users(prefix, kv), k))
    && DistinctKeys(es) && |es| <= i && (!recording ==> es == [])
    && (forall j :: 0 <= j < |es| ==>
          && es[j].key in order[..i] && UserKey(prefix, es[j].key)
          && es[j].old_ == Find(Users(prefix, kv), es[j].key))
    && (recording ==> forall k :: k in order[..i] && cache[k].current != cache[k].orig ==> Recorded(es, k).Some?)
  }

  ghost predicate ChangesOk(prefix: Bytes, kv: Store, cache: Cache, order: seq<Bytes>) {
    && (forall i, j :: 0 <= i < j < |order| ==> order[i] != order[j])
    && forall k :: k in order ==> k in cache && UserKey(prefix, k) && cache[k].orig == Find(kv, k)
  }

  lemma OrderStep(order: seq<Bytes>, i: nat)
    requires i < |order| && forall a, b :: 0 <= a < b < |order| ==> order[a] != order[b]
    ensures order[i] !in order[..i]
    ensures forall k :: k in order[..i + 1] <==> k in order[..i] || k == order[i]
  {
    assert order[..i + 1] == order[..i] + [order[i]];
  }

  /** The next key is unchanged: nothing to write. */
  lemma WritingSkip(prefix: Bytes, kv: Store, m: Store, cache: Cache, order: seq<Bytes>, i: nat,
                    es: seq<Entry>, recording: bool)
    requires ChangesOk(prefix, kv, cache, order) && i < |order|
    requires Writing(prefix, kv, m, cache, order, i, es, recording)
    requires cache[order[i]].current == cache[order[i]].orig
    ensures Writing(prefix, kv, m, cache, order, i + 1, es, recording)
  {
    OrderStep(order, i);
    UsersFind(prefix, kv, order[i]);
    hide Users, Recorded, UserKey, DistinctKeys;
    forall k ensures Find(Users(prefix, m), k) ==
                     if k in order[..i + 1] then cache[k].current else Find(Users(prefix, kv), k)
    {
      assert Find(Users(prefix, m), k) == if k in order[..i] then cache[k].current else Find(Users(prefix, kv), k);
    }
  }

  /** The next key is changed: it is written, and recorded while there is a level to undo to. */
  lemma WritingChange(prefix: Bytes, kv: Store, m: Store, cache: Cache, order: seq<Bytes>, i: nat,
                      es: seq<Entry>, recording: bool)
    requires ChangesOk(prefix, kv, cache, order) && i < |order|
    requires Writing(prefix, kv, m, cache, order, i, es, recording)
    ensures var k := order[i];
            Writing(prefix, kv, Assign(m, k, cache[k].current), cache, order, i + 1,
                    if recording then es + [EntryOf(cache, k)] else es, recording)
  {
    var x := order[i];
    var m' := Assign(m, x, cache[x].current);
    var es' := if recording then es + [EntryOf(cache, x)] else es;
    OrderStep(order, i);
    UsersFind(prefix, kv, x);
    forall k ensures Find(Users(prefix, m'), k) ==
                     if k in order[..i + 1] then cache[k].current else Find(Users(prefix, kv), k)
    {
      assert Find(Users(prefix, m), k) == if k in order[..i] then cache[k].current else Find(Users(prefix, kv), k);
      UsersFind(prefix, m, k);
      UsersFind(prefix, m', k);
      AssignFind(m, x, cache[x].current, k);
    }
    forall k | recording && k in order[..i + 1] && cache[k].current != cache[k].orig ensures Recorded(es', k).Some? {
      RecordedConcat(es, [EntryOf(cache, x)], k);
    }
  }

  // ---- Walking back over the segments ----

  /** Putting back a segment touches client keys only. */
  lemma {:induction false} PutBackUsers(prefix: Bytes, m: Store, segments: seq<seq<Entry>>, next: nat, es: seq<Entry>)
    requires SegmentsStored(prefix, m, segments, next)
    requires forall i :: 0 <= i < |es| ==> UserKey(prefix, es[i].key)
    ensures SegmentsStored(prefix, PutBack(m, es), segments, next)
    ensures Users(prefix, PutBack(m, es)) == PutBack(Users(prefix, m), es)
    ensures [255] in m ==> [255] in PutBack(m, es)
    decreases |es|
  {
    hide SegmentsStored, Users, Assign;
    if es != [] {
      UserChange(prefix, m, segments, next, es[0].key, es[0].old_);
      PutBackUsers(prefix, Assign(m, es[0].key, es[0].old_), segments, next, es[1..]);
    }
  }

  /** The greatest key below segment number j is segment j - 1, or lies before all segments. */
  lemma CursorBelow(prefix: Bytes, m: Store, segments: seq<seq<Entry>>, next: nat, j: nat, it: Option<Bytes>)
    requires prefix != [] && SegmentsStored(prefix, m, segments, next) && next < SEGMENT_LIMIT
    requires next - |segments| <= j <= next && IsPrev(m.Keys, SegmentKey(prefix, j), it)
    ensures j > next - |segments| ==> it == Some(SegmentKey(prefix, j - 1))
    ensures j == next - |segments| ==> it.None? || Less(it.value, SegmentKey(prefix, j))
  {
    hide Less, SegmentKey, PackAll, Pow256;
    if j > next - |segments| {
      var key := SegmentKey(prefix, j - 1);
      assert StoredAt(prefix, m, segments, next, j - 1);
      SegmentKeyOrder(prefix, j - 1, j);
      assert key in m.Keys && it.Some?;
      if it.value != key {
        Order();
        BetweenSegments(prefix, it.value, j - 1, j);
        assert IsLiveSegment(prefix, |segments|, next, it.value);
        var i: nat :| next - |segments| <= i < next && it.value == SegmentKey(prefix, i);
        SegmentKeyOrder(prefix, i, j);
        SegmentKeyOrder(prefix, j - 1, i);
      }
    }
  }

  lemma BetweenSegments(prefix: Bytes, k: Bytes, i: nat, j: nat)
    requires prefix != [] && !Less(k, SegmentKey(prefix, i)) && Less(k, SegmentKey(prefix, j))
    ensures prefix <= k
  {
    hide Less;
    var p := SegmentPrefix(prefix);
    Order();
    PrefixNotLess(p, SegmentKey(prefix, i));
    NextSegmentPrefix(prefix);
    PrefixRange(p, SegmentKey(prefix, j));
    PrefixRange(p, k);
    assert prefix <= p;
  }

  /** Seeking past the segments and stepping back lands below segment `next`, which is not stored. */
  lemma CursorStart(prefix: Bytes, m: Store, segments: seq<seq<Entry>>, next: nat, above: Option<Bytes>, it: Option<Bytes>)
    requires prefix != [] && 0 < prefix[0] < 255 && [255] in m
    requires SegmentsStored(prefix, m, segments, next) && next < SEGMENT_LIMIT
    requires IsSeek(m.Keys, NextPrefix(SegmentPrefix(prefix)), above)
    requires above.Some? ==> IsPrev(m.Keys, above.value, it)
    ensures above.Some? && IsPrev(m.Keys, SegmentKey(prefix, next), it)
  {
    hide Less, SegmentKey, PackAll, Pow256;
    var n := NextPrefix(SegmentPrefix(prefix));
    Order();
    NextSegmentPrefix(prefix);
    LessHead(n, [255]);
    LessHead([255], n);
    assert above.Some?;
    SegmentKeyHasPrefix(prefix, next);
    PrefixRange(SegmentPrefix(prefix), SegmentKey(prefix, next));
    forall x | x in m.Keys ensures Less(x, above.value) <==> Less(x, SegmentKey(prefix, next)) {
      if Less(x, above.value) && !Less(x, SegmentKey(prefix, next)) {
        PrefixNotLess(SegmentPrefix(prefix), SegmentKey(prefix, next));
        PrefixRange(SegmentPrefix(prefix), x);
        assert IsLiveSegment(prefix, |segments|, next, x);
        var i: nat :| next - |segments| <= i < next && x == SegmentKey(prefix, i);
        SegmentKeyOrder(prefix, i, next);
      }
    }
  }

  // ---- The stack ----

  /** Reads the entries of a segment and appends the operations that put their old values back. */
  method PutBackOps(segment: Bytes, batch: seq<Op>, ghost kv: Store, ghost es: seq<Entry>) returns (batch': seq<Op>)
    requires segment == PackAll(es)
    ensures Apply(kv, batch') == PutBack(Apply(kv, batch), es)
  {
    hide Pack, Unpack, Apply;
    batch' := batch;
    var ds := segment;
    ghost var j := 0;
    assert es[0..] == es;
    while ds != []
      invariant j <= |es| && ds == PackAll(es[j..])
      invariant PutBack(Apply(kv, batch'), es[j..]) == PutBack(Apply(kv, batch), es)
      decreases |es| - j
    {
      assert j < |es|;
      PackAllSplit(es[j..]);
      assert es[j..][1..] == es[j + 1..];
      EntryRoundTrip(es[j], PackAll(es[j + 1..]));
      var (e, rest) := Unpack(ds).value;
      var op := if e.old_.Some? then Put(e.key, e.old_.value) else Delete(e.key);
      ApplyAppend(kv, batch', op);
      batch' := batch' + [op];
      ds := rest;
      j := j + 1;
    }
    EntriesUsed(es[j..]);
    assert es[j..] == [];
  }

  lemma EntriesUsed(es: seq<Entry>)
    requires PackAll(es) == []
    ensures es == []
  {
  }

  class UndoStack {
    const db: Database
    const prefix: Bytes
    const target: nat
    var state: UndoState
    var saved: UndoState
    ghost var segments: seq<seq<Entry>>
    ghost var base: seq<Store>

    ghost predicate Valid()
      reads this, db
    {
      StackOk(prefix, db.kv, state, segments, base)
    }

    /** What clients see. */
    ghost function Contents(): Store
      reads this, db
    {
      Users(prefix, db.kv)
    }

    constructor (db: Database, prefix: Bytes, target: nat)
      requires prefix != [] && 0 < prefix[0] < 255
      requires [255] in db.kv && forall k :: k in db.kv ==> !(prefix <= k)
      ensures Valid() && this.db == db && this.prefix == prefix && this.target == target
      ensures state == UndoState(0, [], 0) && saved == state && base == []
    {
      this.db, this.prefix, this.target := db, prefix, target;
      state, saved := UndoState(0, [], 0), UndoState(0, [], 0);
      segments, base := [], [];
    }

    /** A new level: its base is what clients see now. */
    method Push(writeNow: bool)
      requires Valid()
      modifies this
      ensures Valid() && Contents() == old(Contents())
      ensures base == old(base) + [old(Contents())] && state.revision == old(state.revision) + 1
      ensures saved == if writeNow then state else old(saved)
    {
      RestoresPush(Contents(), segments, state.counts, base);
      base := base + [Contents()];
      state := state.(counts := state.counts + [0], revision := state.revision + 1);
      if writeNow {
        saved := state;
      }
    }

    /** The top level joins the one below, whose base stays; the only level is forgotten. */
    method Squash(writeNow: bool)
      requires Valid()
      modifies this, db
      ensures Valid() && Contents() == old(Contents())
      ensures old(base) == [] ==> base == [] && state == old(state)
      ensures old(base) != [] ==> base == old(base)[..|old(base)| - 1] && state.revision == old(state.revision) - 1
      ensures saved == if |old(base)| == 1 || (writeNow && old(base) != []) then state else old(saved)
    {
      hide SegmentsStored, EntriesOk, Restores;
      RestoresLengths(Contents(), segments, state.counts, base);
      if |state.counts| == 0 {
        return;
      }
      if |state.counts| == 1 {
        RestoresCount(Contents(), segments, state.counts, base);
        StoredBound(prefix, db.kv, segments, state.next);
        RemoveOldSegments(prefix, db.kv, segments, state.next, state.next);
        var op := DeleteRange(SegmentKey(prefix, 0), SegmentKey(prefix, state.next));
        ApplyAppend(db.kv, [], op);
        assert [] + [op] == [op];
        RestoresNothing(Contents());
        assert segments[|segments| - 0..] == [];
        db.Write([op]);
        state := state.(counts := [], revision := state.revision - 1);
        segments, base := [], [];
        saved := state;
        return;
      }
      RestoresSquash(Contents(), segments, state.counts, base);
      var top := |state.counts| - 1;
      var n := state.counts[top];
      base := base[..top];
      state := state.(counts := state.counts[..top - 1] + [state.counts[top - 1] + n], revision := state.revision - 1);
      if writeNow {
        saved := state;
      }
    }

    /** Back to what clients saw when the top level was pushed; nothing to undo is an error. */
    method Undo(writeNow: bool) returns (ok: bool)
      requires Valid()
      modifies this, db
      ensures Valid() && ok == (old(base) != [])
      ensures !ok ==> db.kv == old(db.kv) && state == old(state) && base == old(base)
      ensures ok ==> Contents() == old(base)[|old(base)| - 1] && base == old(base)[..|old(base)| - 1]
      ensures ok ==> state.revision == old(state.revision) - 1
      ensures ok && writeNow ==> saved == state
      ensures saved == old(saved) || (ok && saved == state)
      ensures db.kv != old(db.kv) ==> saved == state
    {
      hide SegmentsStored, EntriesOk, Restores, Revert, Apply, Undone;
      RestoresLengths(Contents(), segments, state.counts, base);
      if |state.counts| == 0 {
        return false;
      }
      var n, next := state.counts[|state.counts| - 1], state.next;
      ghost var kv, all := db.kv, segments;
      RestoresUndo(Contents(), segments, state.counts, base);
      StoredBound(prefix, kv, all, next);
      var batch, any, m := PutBackBatch(n);
      UndoneEnd(prefix, kv, m, all, next, n);
      state := UndoState(state.revision - 1, state.counts[..|state.counts| - 1], next - n);
      segments, base := all[..|all| - n], base[..|base| - 1];
      if writeNow || any {
        db.Write(batch);
        saved := state;
      }
      return true;
    }

    /** Walks back over the newest `n` segments: the batch that puts them back and removes them. */
    method PutBackBatch(n: nat) returns (batch: seq<Op>, any: bool, ghost m: Store)
      requires Valid() && n <= |segments| <= state.next
      ensures m == Apply(db.kv, batch) && Undone(prefix, db.kv, m, segments, state.next, n)
      ensures !any ==> n == 0
    {
      hide SegmentsStored, EntriesOk, Restores, Revert, IsPrev, IsSeek, Apply, SegmentKey, PackAll, NextPrefix, Undone;
      ghost var kv, all := db.kv, segments;
      var next := state.next;
      var first := SegmentKey(prefix, next - n);
      var above := Seek(db.kv.Keys, NextPrefix(SegmentPrefix(prefix)));
      var it := above;
      if above.Some? {
        it := PrevKey(db.kv.Keys, above.value);
      }
      CursorStart(prefix, kv, all, next, above, it);
      batch, any, m := [], false, kv;
      ghost var t := 0;
      ApplyNothing(kv);
      UndoneStart(prefix, kv, all, next);
      while it.Some?
        invariant 0 <= t <= n && IsPrev(kv.Keys, SegmentKey(prefix, next - t), it)
        invariant m == Apply(kv, batch) && Undone(prefix, kv, m, all, next, t)
        invariant any <==> t > 0
        decreases n - t
      {
        var key := it.value;
        CursorDecides(prefix, kv, all, next, t, n, it);
        if Less(key, first) {
          break;
        }
        any := true;
        ghost var es := all[|all| - t - 1];
        SegmentValue(prefix, kv, all, next, t);
        var ops := PutBackOps(db.kv[key], batch, kv, es);
        ApplyAppend(kv, ops, Delete(key));
        batch := ops + [Delete(key)];
        UndoneStep(prefix, kv, m, all, next, t);
        m := PutBack(m, es) - {key};
        it := PrevKey(db.kv.Keys, key);
        t := t + 1;
      }
      CursorDecides(prefix, kv, all, next, t, n, it);
    }

    /** Levels up to `revision` are forgotten with their segments; what clients see and the other bases stay. */
    method Commit(revision: int)
      requires Valid()
      modifies this, db
      ensures Valid() && Contents() == old(Contents()) && state.revision == old(state.revision)
      ensures var first := state.revision - |old(base)|;
              var d := (if revision < state.revision then revision else state.revision) - first;
              && base == (if d > 0 then old(base)[d..] else old(base))
              && (if d > 0 then saved == state else db.kv == old(db.kv) && state == old(state))
    {
      hide SegmentsStored, EntriesOk, Restores, SegmentKey, Apply;
      RestoresLengths(Contents(), segments, state.counts, base);
      var rev := if revision < state.revision then revision else state.revision;
      var first := state.revision - |state.counts|;
      if first < rev {
        var d := rev - first;
        var counts := state.counts[d..];
        RestoresCommit(Contents(), segments, state.counts, base, d);
        StoredBound(prefix, db.kv, segments, state.next);
        var keep: int := state.next;
        for i := 0 to |counts|
          invariant keep == state.next - Sum(counts[..i])
        {
          assert counts[..i + 1][..i] == counts[..i];
          keep := keep - counts[i];
        }
        assert counts[..|counts|] == counts;
        RemoveOldSegments(prefix, db.kv, segments, state.next, keep);
        var op := DeleteRange(SegmentKey(prefix, 0), SegmentKey(prefix, keep));
        ApplyOne(db.kv, op);
        db.Write([op]);
        state := state.(counts := counts);
        segments, base := segments[|segments| - Sum(counts)..], base[d..];
        saved := state;
      }
    }

    /** The changes reach the store; every level still goes back to its own base. */
    method WriteChanges(cache: Cache, changeList: Option<Bytes>, ghost order: seq<Bytes>)
      requires Valid() && Linked(cache, changeList, order) && ChangesOk(prefix, db.kv, cache, order)
      requires state.next + |order| < SEGMENT_LIMIT
      modifies this, db
      ensures Valid() && base == old(base) && saved == state && state.revision == old(state.revision)
      ensures forall k :: Find(Contents(), k) == if k in order then cache[k].current else Find(old(Contents()), k)
      ensures old(segments) <= segments && CutAt(target, segments[|old(segments)|..])
    {
      hide SegmentsStored, EntriesOk, Restores, SegmentKey, Apply, Users, Writing, Logged, UserKey, CutAt;
      ghost var kv, log, es := db.kv, Log(db.kv, [], []), [];
      var batch, st;
      batch, st, log, es := ChangeBatch(prefix, target, cache, changeList, state, kv, segments, order);
      WritingEnd(prefix, kv, segments, state, base, cache, order, log, es, st);
      db.Write(batch);
      state := st;
      assert (segments + log.more)[|segments|..] == log.more;
      segments := segments + log.more;
      saved := state;
    }
  }

  /** The batch of all changes on the list, with the segments that record them. */
  method ChangeBatch(prefix: Bytes, target: nat, cache: Cache, changeList: Option<Bytes>, start: UndoState,
                     ghost kv: Store, ghost segments: seq<seq<Entry>>, ghost order: seq<Bytes>)
    returns (batch: seq<Op>, st: UndoState, ghost log: Log, ghost es: seq<Entry>)
    requires Linked(cache, changeList, order) && ChangesOk(prefix, kv, cache, order)
    requires prefix != [] && 0 < prefix[0] < 255 && start.next + |order| < SEGMENT_LIMIT
    requires SegmentsStored(prefix, kv, segments, start.next) && [255] in kv
    ensures log.m == Apply(kv, batch) && log.cur == [] && CutAt(target, log.more)
    ensures Writing(prefix, kv, log.m, cache, order, |order|, es, start.counts != [])
    ensures Logged(prefix, segments, start, log, es, st)
  {
    hide SegmentsStored, Apply, Users, PackAll, Pack, Writing, Logged, UserKey, ChangesOk, Linked, Filling, CutAt, Parts;
    InCache(prefix, kv, cache, changeList, order);
    var segment: Bytes := [];
    batch, st := [], start;
    var it := changeList;
    ghost var i, recording := 0, start.counts != [];
    log, es := Log(kv, [], []), [];
    WritingStart(prefix, kv, cache, order, recording);
    LogStart(prefix, kv, segments, start);
    FillingStart(target, kv);
    ApplyNothing(kv);
    while it.Some?
      invariant i <= |order| && it == Link(order, i)
      invariant log.m == Apply(kv, batch) && segment == PackAll(log.cur) && Filling(target, log)
      invariant Writing(prefix, kv, log.m, cache, order, i, es, recording)
      invariant Logged(prefix, segments, start, log, es, st)
      decreases |order| - i
    {
      ChangeAt(prefix, kv, cache, changeList, order, i);
      var k := it.value;
      var c := cache[k];
      WritingBounds(prefix, kv, log.m, cache, order, i, es, recording);
      if c.orig != c.current {
        var op := if c.current.Some? then Put(k, c.current.value) else Delete(k);
        ApplyAppend(kv, batch, op);
        batch := batch + [op];
        WritingChange(prefix, kv, log.m, cache, order, i, es, recording);
        LogChange(prefix, segments, start, log, es, st, k, c.current);
        FillingSame(target, log, Assign(log.m, k, c.current));
        log := log.(m := Assign(log.m, k, c.current));
        GrownLevels(prefix, segments, start, log, es, st);
        if |st.counts| != 0 {
          ghost var m := log.m;
          batch, segment, st, log := AppendEntry(prefix, target, batch, segment, st, EntryOf(cache, k),
                                                 kv, segments, start, log, es);
          es := es + [EntryOf(cache, k)];
          WritingSame(prefix, kv, m, log.m, cache, order, i + 1, es, recording);
        }
      } else {
        WritingSkip(prefix, kv, log.m, cache, order, i, es, recording);
      }
      i := i + 1;
      it := c.next;
    }
    ghost var m := log.m;
    WritingBounds(prefix, kv, log.m, cache, order, i, es, recording);
    FillingEnd(target, log);
    batch, st, log := WriteSegment(prefix, batch, segment, st, kv, segments, start, log, es);
    WritingSame(prefix, kv, m, log.m, cache, order, i, es, recording);
  }

  /** Adds an entry to the segment being filled, or to a new one when the target size would be passed. */
  method AppendEntry(prefix: Bytes, target: nat, batch: seq<Op>, segment: Bytes, st: UndoState, e: Entry, ghost kv: Store,
                     ghost segments: seq<seq<Entry>>, ghost start: UndoState, ghost log: Log, ghost es: seq<Entry>)
    returns (batch': seq<Op>, segment': Bytes, st': UndoState, ghost log': Log)
    requires prefix != [] && 0 < prefix[0] < 255 && start.next + |es| < SEGMENT_LIMIT && start.counts != []
    requires Logged(prefix, segments, start, log, es, st)
    requires log.m == Apply(kv, batch) && segment == PackAll(log.cur) && Filling(target, log)
    ensures Logged(prefix, segments, start, log', es + [e], st') && segment' == PackAll(log'.cur) && Filling(target, log')
    ensures log'.m == Apply(kv, batch') && Users(prefix, log'.m) == Users(prefix, log.m)
  {
    hide Logged, Pack, Apply, Users, Filling, Parts;
    var packed := Pack(e);
    batch', segment', st', log' := batch, segment, st, log;
    if |segment| + |packed| > target {
      batch', st', log' := WriteSegment(prefix, batch, segment, st, kv, segments, start, log, es);
      segment' := [];
      EntryStarts(target, log, log', e);
      assert [] + [e] == [e];
    } else {
      EntryFits(target, log, e);
    }
    LogEntry(prefix, segments, start, log', es, st', e);
    segment' := segment' + packed;
    log' := log'.(cur := log'.cur + [e]);
  }

  lemma FillingStart(target: nat, kv: Store)
    ensures Filling(target, Log(kv, [], []))
  {
  }

  lemma FillingSame(target: nat, log: Log, m: Store)
    requires Filling(target, log)
    ensures Filling(target, log.(m := m))
  {
  }

  lemma FillingEnd(target: nat, log: Log)
    requires Filling(target, log)
    ensures CutAt(target, Parts(log))
  {
  }

  lemma InCache(prefix: Bytes, kv: Store, cache: Cache, changeList: Option<Bytes>, order: seq<Bytes>)
    requires Linked(cache, changeList, order) && ChangesOk(prefix, kv, cache, order)
    ensures changeList == Link(order, 0) && forall k :: k in order ==> k in cache
  {
  }

  lemma ChangeAt(prefix: Bytes, kv: Store, cache: Cache, changeList: Option<Bytes>, order: seq<Bytes>, i: nat)
    requires Linked(cache, changeList, order) && ChangesOk(prefix, kv, cache, order) && i < |order|
    ensures order[i] in cache && UserKey(prefix, order[i]) && cache[order[i]].next == Link(order, i + 1)
  {
  }

  lemma GrownLevels(prefix: Bytes, segments: seq<seq<Entry>>, start: UndoState, log: Log, es: seq<Entry>, st: UndoState)
    requires Logged(prefix, segments, start, log, es, st)
    ensures st.counts == [] <==> start.counts == []
  {
  }

  lemma WritingBounds(prefix: Bytes, kv: Store, m: Store, cache: Cache, order: seq<Bytes>, i: nat, es: seq<Entry>, recording: bool)
    requires i <= |order| && (forall k :: k in order ==> k in cache) && Writing(prefix, kv, m, cache, order, i, es, recording)
    ensures |es| <= i
  {
  }

  lemma WritingSame(prefix: Bytes, kv: Store, m: Store, m': Store, cache: Cache, order: seq<Bytes>, i: nat,
                    es: seq<Entry>, recording: bool)
    requires i <= |order| && (forall k :: k in order ==> k in cache) && Writing(prefix, kv, m, cache, order, i, es, recording)
    requires Users(prefix, m) == Users(prefix, m')
    ensures Writing(prefix, kv, m', cache, order, i, es, recording)
  {
    hide Users, Find, DistinctKeys, Recorded, UserKey;
  }

  /** When the whole list is written, the stack invariant holds again with the same bases. */
  lemma WritingEnd(prefix: Bytes, kv: Store, segments: seq<seq<Entry>>, start: UndoState, base: seq<Store>, cache: Cache,
                   order: seq<Bytes>, log: Log, es: seq<Entry>, st: UndoState)
    requires StackOk(prefix, kv, start, segments, base) && ChangesOk(prefix, kv, cache, order)
    requires Writing(prefix, kv, log.m, cache, order, |order|, es, start.counts != [])
    requires Logged(prefix, segments, start, log, es, st) && log.cur == [] && start.next + |order| < SEGMENT_LIMIT
    ensures StackOk(prefix, log.m, st, segments + log.more, base) && st.revision == start.revision
    ensures forall k :: Find(Users(prefix, log.m), k) == if k in order then cache[k].current else Find(Users(prefix, kv), k)
  {
    hide SegmentsStored, Restores, Users, Find, Recorded, Revert, UserKey;
    var m, m' := Users(prefix, kv), Users(prefix, log.m);
    assert order[..|order|] == order && Flatten(log.more) == es;
    forall k ensures Find(m', k) == if k in order then cache[k].current else Find(m, k) {
    }
    if start.counts == [] {
      RestoresNoLevel(m, m', segments, base);
      assert segments + [] == segments;
    } else {
      forall k | Recorded(es, k).None? ensures Find(m', k) == Find(m, k) {
        if k in order {
          assert cache[k].current == cache[k].orig;
          UsersFind(prefix, kv, k);
          ClientKey(prefix, k);
        }
      }
      RevertUndoes(m, m', log.more);
      RestoresWrite(m, m', segments, log.more, start.counts, base);
      forall j | 0 <= j < |log.more| ensures EntriesOk(prefix, log.more[j]) {
        FlattenPart(log.more, j);
        forall i | 0 <= i < |log.more[j]| ensures UserKey(prefix, log.more[j][i].key) {
          assert log.more[j][i] in es;
        }
      }
    }
  }

  lemma ClientKey(prefix: Bytes, k: Bytes)
    requires UserKey(prefix, k)
    ensures !(prefix <= k)
  {
  }

  lemma RestoresNoLevel(m: Store, m': Store, segments: seq<seq<Entry>>, base: seq<Store>)
    requires Restores(m, segments, [], base)
    ensures Restores(m', segments, [], base)
  {
  }

  /** Every segment is a stretch of the flattened list. */
  lemma {:induction false} FlattenPart(segments: seq<seq<Entry>>, j: nat)
    requires j < |segments|
    ensures var es := Flatten(segments);
            && (forall e :: e in segments[j] ==> e in es)
            && (DistinctKeys(es) ==> DistinctKeys(segments[j]))
    decreases |segments|
  {
    var n := |segments| - 1;
    var es, init, last := Flatten(segments), Flatten(segments[..n]), segments[n];
    if j < n {
      FlattenPart(segments[..n], j);
      if DistinctKeys(es) {
        forall a, b | 0 <= a < b < |init| ensures init[a].key != init[b].key {
          assert es[a] == init[a] && es[b] == init[b];
        }
      }
    } else if DistinctKeys(es) {
      forall a, b | 0 <= a < b < |last| ensures last[a].key != last[b].key {
        assert es[|init| + a] == last[a] && es[|init| + b] == last[b];
      }
    }
  }

  lemma ApplyOne(m: Store, op: Op)
    ensures Apply(m, [op]) == ApplyOp(m, op)
  {
    ApplyAppend(m, [], op);
    assert [] + [op] == [op];
  }

  /** The store so far, the segments written to it since the start, and the entries of the segment being filled. */
  datatype Log = Log(m: Store, more: seq<seq<Entry>>, cur: seq<Entry>)

  /** The state after `n` more segments of the top level. */
  function Grown(s: UndoState, n: nat): UndoState {
    if s.counts == [] then s
    else
      var top := |s.counts| - 1;
      s.(next := s.next + n, counts := s.counts[..top] + [s.counts[top] + n])
  }

  /** The segments written and, if it has entries, the one being filled. */
  function Parts(log: Log): seq<seq<Entry>> {
    if log.cur == [] then log.more else log.more + [log.cur]
  }

  /** No segment is larger than the target unless it has one entry, and the first entry after it would have been too much. */
  ghost predicate CutAt(target: nat, parts: seq<seq<Entry>>) {
    && (forall j :: 0 <= j < |parts| ==> parts[j] != [] && (|PackAll(parts[j])| <= target || |parts[j]| == 1))
    && (forall j :: 0 < j < |parts| ==> |PackAll(parts[j - 1])| + |Pack(parts[j][0])| > target)
  }

  /** A segment is written only when there is an entry for the next one. */
  ghost predicate Filling(target: nat, log: Log) {
    CutAt(target, Parts(log)) && (log.more != [] ==> log.cur != [])
  }

  /** An entry that fits joins the segment being filled. */
  lemma EntryFits(target: nat, log: Log, e: Entry)
    requires Filling(target, log) && |PackAll(log.cur)| + |Pack(e)| <= target
    ensures Filling(target, log.(cur := log.cur + [e]))
  {
    hide Pack;
    var parts, parts' := Parts(log), log.more + [log.cur + [e]];
    assert (log.cur + [e])[..|log.cur|] == log.cur;
    forall j | 0 <= j < |parts'| ensures parts'[j] != [] && (j < |log.more| ==> parts'[j] == parts[j]) {
      assert j < |log.more| ==> parts'[j] == log.more[j] && parts[j] != [];
    }
    forall j | 0 < j < |parts'| ensures |PackAll(parts'[j - 1])| + |Pack(parts'[j][0])| > target {
      assert parts'[j - 1] == parts[j - 1] && parts'[j][0] == parts[j][0];
    }
  }

  /** One that does not starts the next. */
  lemma EntryStarts(target: nat, log: Log, log': Log, e: Entry)
    requires Filling(target, log) && |PackAll(log.cur)| + |Pack(e)| > target && log'.more == Parts(log) && log'.cur == []
    ensures Filling(target, log'.(cur := [e]))
  {
    hide Pack;
  }

  ghost predicate Logged(prefix: Bytes, segments: seq<seq<Entry>>, start: UndoState, log: Log, es: seq<Entry>, st: UndoState) {
    && st == Grown(start, |log.more|) && (start.counts == [] ==> log.more == [] && log.cur == [])
    && Flatten(log.more) + log.cur == es
    && |log.more| + (if log.cur == [] then 0 else 1) <= |es|
    && (forall j :: 0 <= j < |log.more| ==> log.more[j] != [])
    && SegmentsStored(prefix, log.m, segments + log.more, start.next + |log.more|)
    && [255] in log.m
  }

  lemma LogStart(prefix: Bytes, kv: Store, segments: seq<seq<Entry>>, start: UndoState)
    requires SegmentsStored(prefix, kv, segments, start.next) && [255] in kv
    ensures Logged(prefix, segments, start, Log(kv, [], []), [], start) && PackAll([]) == []
  {
    hide SegmentsStored;
    assert segments + [] == segments;
    assert start.counts != [] ==>
        start.counts[..|start.counts| - 1] + [start.counts[|start.counts| - 1] + 0] == start.counts;
  }

  lemma LogChange(prefix: Bytes, segments: seq<seq<Entry>>, start: UndoState, log: Log, es: seq<Entry>, st: UndoState,
                  k: Bytes, v: Option<Bytes>)
    requires Logged(prefix, segments, start, log, es, st) && UserKey(prefix, k)
    ensures Logged(prefix, segments, start, log.(m := Assign(log.m, k, v)), es, st)
  {
    hide SegmentsStored, UserKey, Users, Assign;
    UserChange(prefix, log.m, segments + log.more, start.next + |log.more|, k, v);
  }

  lemma LogEntry(prefix: Bytes, segments: seq<seq<Entry>>, start: UndoState, log: Log, es: seq<Entry>, st: UndoState, e: Entry)
    requires Logged(prefix, segments, start, log, es, st) && start.counts != []
    ensures Logged(prefix, segments, start, log.(cur := log.cur + [e]), es + [e], st)
    ensures PackAll(log.cur + [e]) == PackAll(log.cur) + Pack(e)
  {
    hide SegmentsStored, Pack;
    assert (log.cur + [e])[..|log.cur|] == log.cur;
    assert Flatten(log.more) + (log.cur + [e]) == es + [e];
  }

  /** Writes the segment being filled, if it has any entry. */
  method WriteSegment(prefix: Bytes, batch: seq<Op>, segment: Bytes, st: UndoState, ghost kv: Store,
                      ghost segments: seq<seq<Entry>>, ghost start: UndoState, ghost log: Log, ghost es: seq<Entry>)
    returns (batch': seq<Op>, st': UndoState, ghost log': Log)
    requires prefix != [] && 0 < prefix[0] < 255 && start.next + |es| < SEGMENT_LIMIT
    requires Logged(prefix, segments, start, log, es, st)
    requires log.m == Apply(kv, batch) && segment == PackAll(log.cur)
    ensures Logged(prefix, segments, start, log', es, st') && log'.cur == [] && log'.more == Parts(log)
    ensures log'.m == Apply(kv, batch') && Users(prefix, log'.m) == Users(prefix, log.m)
  {
    hide SegmentsStored, SegmentKey, Pack, Apply, Users;
    if segment == [] {
      EntriesUsed(log.cur);
      return batch, st, log;
    }
    ghost var more := log.more + [log.cur];
    AddSegment(prefix, log.m, segments + log.more, start.next + |log.more|, log.cur);
    assert segments + log.more + [log.cur] == segments + more;
    assert more[..|log.more|] == log.more;
    var op := Put(SegmentKey(prefix, st.next), segment);
    ApplyAppend(kv, batch, op);
    var top := |st.counts| - 1;
    st' := st.(next := st.next + 1, counts := st.counts[..top] + [st.counts[top] + 1]);
    batch' := batch + [op];
    log' := Log(ApplyOp(log.m, op), more, []);
  }

  lemma WritingStart(prefix: Bytes, kv: Store, cache: Cache, order: seq<Bytes>, recording: bool)
    requires forall k :: k in order ==> k in cache
    ensures Writing(prefix, kv, kv, cache, order, 0, [], recording)
  {
  }

  /** After `t` segments, newest first, `m` is the store with them put back and removed. */
  ghost predicate Undone(prefix: Bytes, kv: Store, m: Store, all: seq<seq<Entry>>, next: nat, t: nat)
    requires t <= |all| <= next
  {
    && SegmentsStored(prefix, m, all[..|all| - t], next - t)
    && Users(prefix, m) == Revert(Users(prefix, kv), all[|all| - t..])
    && [255] in m
    && (t == 0 ==> m == kv)
  }

  lemma ApplyNothing(m: Store)
    ensures Apply(m, []) == m
  {
  }

  lemma UndoneStart(prefix: Bytes, kv: Store, all: seq<seq<Entry>>, next: nat)
    requires SegmentsStored(prefix, kv, all, next) && [255] in kv
    ensures Undone(prefix, kv, kv, all, next, 0)
  {
    assert all[..|all|] == all && all[|all|..] == [];
  }

  lemma UndoneStep(prefix: Bytes, kv: Store, m: Store, all: seq<seq<Entry>>, next: nat, t: nat)
    requires t < |all| <= next && next < SEGMENT_LIMIT && prefix != [] && 0 < prefix[0] < 255
    requires Undone(prefix, kv, m, all, next, t) && EntriesOk(prefix, all[|all| - t - 1])
    ensures Undone(prefix, kv, PutBack(m, all[|all| - t - 1]) - {SegmentKey(prefix, next - t - 1)}, all, next, t + 1)
  {
    hide SegmentsStored, Users, PutBack, SegmentKey, Pow256;
    var es, left := all[|all| - t - 1], all[..|all| - t];
    PutBackUsers(prefix, m, left, next - t, es);
    SentinelApart(prefix, next - t - 1);
    RemoveLastSegment(prefix, PutBack(m, es), left, next - t);
    assert left[..|left| - 1] == all[..|all| - (t + 1)];
    assert all[|all| - (t + 1)..] == [es] + all[|all| - t..];
    RevertConcat(Users(prefix, kv), [es], all[|all| - t..]);
    RevertOne(Users(prefix, m), es);
  }

  lemma RevertOne(m: Store, es: seq<Entry>)
    ensures Revert(m, [es]) == PutBack(m, es)
  {
    assert [es][..0] == [];
  }

  lemma SentinelApart(prefix: Bytes, i: nat)
    requires prefix != [] && 0 < prefix[0] < 255
    ensures SegmentKey(prefix, i) != [255]
  {
  }

  /** With all segments of the top level put back, the store is the base of that level. */
  lemma UndoneEnd(prefix: Bytes, kv: Store, m: Store, all: seq<seq<Entry>>, next: nat, n: nat)
    requires n <= |all| <= next && Undone(prefix, kv, m, all, next, n)
    ensures SegmentsStored(prefix, m, all[..|all| - n], next - n) && [255] in m
    ensures Users(prefix, m) == Revert(Users(prefix, kv), all[|all| - n..])
    ensures n == 0 ==> m == kv
  {
  }

  lemma SegmentValue(prefix: Bytes, kv: Store, all: seq<seq<Entry>>, next: nat, t: nat)
    requires SegmentsStored(prefix, kv, all, next) && t < |all|
    ensures var key := SegmentKey(prefix, next - t - 1); key in kv && kv[key] == PackAll(all[|all| - t - 1])
  {
    assert StoredAt(prefix, kv, all, next, next - t - 1);
  }

  /** The cursor is below `first` exactly when the segments of the top level are used up. */
  lemma CursorDecides(prefix: Bytes, kv: Store, all: seq<seq<Entry>>, next: nat, t: nat, n: nat, it: Option<Bytes>)
    requires prefix != [] && SegmentsStored(prefix, kv, all, next) && next < SEGMENT_LIMIT
    requires t <= n <= |all| <= next && IsPrev(kv.Keys, SegmentKey(prefix, next - t), it)
    ensures it.None? ==> t == n
    ensures it.Some? ==> (Less(it.value, SegmentKey(prefix, next - n)) <==> t == n)
    ensures t < n ==> it == Some(SegmentKey(prefix, next - t - 1))
  {
    hide SegmentsStored, Less, SegmentKey;
    CursorBelow(prefix, kv, all, next, next - t, it);
    if t < n {
      SegmentKeyOrder(prefix, next - t - 1, next - n);
    }
  }

  lemma RestoresLengths(m: Store, segments: seq<seq<Entry>>, counts: seq<nat>, base: seq<Store>)
    requires Restores(m, segments, counts, base)
    ensures |base| == |counts|
  {
  }

  lemma RestoresNothing(m: Store)
    ensures Restores(m, [], [], [])
  {
  }

  lemma StoredBound(prefix: Bytes, m: Store, segments: seq<seq<Entry>>, next: nat)
    requires SegmentsStored(prefix, m, segments, next)
    ensures |segments| <= next
  {
  }
}
