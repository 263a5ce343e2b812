/** The stack of sessions over the head store, as a stack of maps: one per session, each on top of the one before. */
module SessionUndo {
  import opened Options
  import opened ByteKeys
  import opened UndoLog
  import opened SessionLevel

  /** What the head and every session in turn show. */
  ghost function ViewsOf(head: Store, levels: seq<Level>): (r: seq<Store>)
    ensures |r| == |levels| + 1
    decreases |levels|
  {
    if levels == [] then [head]
    else
      var n := |levels| - 1;
      var below := ViewsOf(head, levels[..n]);
      below + [Overlay(below[n], levels[n])]
  }

  ghost function TopOf(head: Store, levels: seq<Level>): Store {
    ViewsOf(head, levels)[|levels|]
  }

  ghost predicate LevelsOk(head: Store, levels: seq<Level>)
    decreases |levels|
  {
    if levels == [] then Plain(head)
    else
      var n := |levels| - 1;
      LevelsOk(head, levels[..n]) && LevelOk(TopOf(head, levels[..n]), levels[n])
  }

  lemma {:induction false} ViewsPrefix(head: Store, levels: seq<Level>, i: nat)
    requires i <= |levels|
    ensures ViewsOf(head, levels[..i]) == ViewsOf(head, levels)[..i + 1]
    ensures LevelsOk(head, levels) ==> LevelsOk(head, levels[..i])
    decreases |levels|
  {
    if i == |levels| {
      assert levels[..i] == levels;
    } else {
      var n := |levels| - 1;
      ViewsPrefix(head, levels[..n], i);
      assert levels[..n][..i] == levels[..i];
    }
  }

  lemma ViewsNone(head: Store)
    ensures ViewsOf(head, []) == [head] && (LevelsOk(head, []) <==> Plain(head))
  {
  }

  /** One more session. */
  lemma ViewsMore(head: Store, levels: seq<Level>, level: Level)
    ensures ViewsOf(head, levels + [level]) == ViewsOf(head, levels) + [Overlay(TopOf(head, levels), level)]
    ensures LevelsOk(head, levels + [level]) <==> LevelsOk(head, levels) && LevelOk(TopOf(head, levels), level)
  {
    assert (levels + [level])[..|levels|] == levels;
  }

  lemma {:induction false} TopPlain(head: Store, levels: seq<Level>)
    requires LevelsOk(head, levels)
    ensures Plain(TopOf(head, levels))
    decreases |levels|
  {
    hide Overlay, Plain, LevelOk;
    if levels != [] {
      var n := |levels| - 1;
      TopPlain(head, levels[..n]);
      OverlayPlain(TopOf(head, levels[..n]), levels[n]);
    }
  }

  /** Sessions above a given one see it only through the map it shows. */
  lemma {:induction false} Rebase(head: Store, levels: seq<Level>, n: nat)
    requires LevelsOk(head, levels) && n <= |levels|
    ensures ViewsOf(TopOf(head, levels[..n]), levels[n..]) == ViewsOf(head, levels)[n..]
    ensures LevelsOk(TopOf(head, levels[..n]), levels[n..])
    decreases |levels|
  {
    hide Overlay, LevelOk, ViewsOf, LevelsOk;
    var base := TopOf(head, levels[..n]);
    if n == |levels| {
      assert levels[..n] == levels && levels[n..] == [];
      TopPlain(head, levels);
      ViewsNone(base);
    } else {
      var m := |levels| - 1;
      var lower, level := levels[..m], levels[m];
      assert levels == lower + [level] && lower[..n] == levels[..n] && levels[n..] == lower[n..] + [level];
      ViewsMore(head, lower, level);
      Rebase(head, lower, n);
      ViewsMore(base, lower[n..], level);
    }
  }

  /** Replacing a session by one that shows the same. */
  lemma {:induction false} ReplaceLevel(head: Store, levels: seq<Level>, j: nat, level: Level)
    requires LevelsOk(head, levels) && j < |levels|
    requires var m := TopOf(head, levels[..j]); LevelOk(m, level) && Overlay(m, level) == Overlay(m, levels[j])
    ensures LevelsOk(head, levels[j := level]) && ViewsOf(head, levels[j := level]) == ViewsOf(head, levels)
    decreases |levels|
  {
    hide Overlay, LevelOk, ViewsOf, LevelsOk;
    var n := |levels| - 1;
    var lower, last := levels[..n], levels[n];
    assert levels == lower + [last];
    ViewsMore(head, lower, last);
    if j == n {
      assert levels[j := level] == lower + [level];
      ViewsMore(head, lower, level);
    } else {
      assert lower[..j] == levels[..j] && levels[j := level] == lower[j := level] + [last];
      ReplaceLevel(head, lower, j, level);
      ViewsMore(head, lower[j := level], last);
    }
  }

  function Lookup(head: Store, levels: seq<Level>, k: Bytes): Option<Bytes>
    decreases |levels|
  {
    if levels == [] then Find(head, k)
    else
      var n := |levels| - 1;
      if k in levels[n] && levels[n][k].deleted then None
      else if k in levels[n] && levels[n][k].value != [] then Some(levels[n][k].value)
      else Lookup(head, levels[..n], k)
  }

  lemma {:induction false} LookupIs(head: Store, levels: seq<Level>, k: Bytes)
    ensures Lookup(head, levels, k) == Find(TopOf(head, levels), k)
    decreases |levels|
  {
    hide Overlay;
    if levels != [] {
      var n := |levels| - 1;
      LookupIs(head, levels[..n], k);
      OverlayFind(TopOf(head, levels[..n]), levels[n], k);
    }
  }

  /** A value from below enters a session. */
  lemma CacheMore(head: Store, levels: seq<Level>, j: nat, k: Bytes, v: Bytes)
    requires LevelsOk(head, levels) && j < |levels| && k !in levels[j]
    requires Lookup(head, levels[..j], k) == Some(v)
    ensures var levels' := levels[j := levels[j][k := Clean(v)]];
            LevelsOk(head, levels') && ViewsOf(head, levels') == ViewsOf(head, levels)
  {
    ViewsPrefix(head, levels, j);
    ViewsPrefix(head, levels, j + 1);
    assert levels[..j + 1][..j] == levels[..j];
    var m, level := TopOf(head, levels[..j]), levels[j][k := Clean(v)];
    LookupIs(head, levels[..j], k);
    TopPlain(head, levels[..j]);
    SlotAdded(m, levels[j], k, Clean(v));
    AssignSame(Overlay(m, levels[j]), k);
    OverlayFind(m, levels[j], k);
    ReplaceLevel(head, levels, j, level);
  }

  /** Giving `k` a slot changes what the session shows at `k` only. */
  lemma SlotAdded(m: Store, level: Level, k: Bytes, s: Slot)
    requires LevelOk(m, level) && SlotOk(m, k, s)
    ensures LevelOk(m, level[k := s])
    ensures Overlay(m, level[k := s]) == Assign(Overlay(m, level), k, if s.deleted then None else Some(s.value))
  {
    hide Overlay;
    var v := if s.deleted then None else Some(s.value);
    var m' := Assign(Overlay(m, level), k, v);
    forall x ensures Shown(m, level[k := s], x) == Find(m', x) {
      AssignFind(Overlay(m, level), k, v, x);
      OverlayFind(m, level, x);
    }
    OverlayIs(m, level[k := s], m');
  }

  /** The stack up to session `i` shows the same, the rest is untouched. */
  ghost predicate Same(h: Store, l: seq<Level>, h': Store, l': seq<Level>, i: nat) {
    && i <= |l| == |l'| && h' == h && l'[i..] == l[i..]
    && LevelsOk(h', l'[..i]) && ViewsOf(h', l'[..i]) == ViewsOf(h, l[..i])
  }

  lemma SameStart(h: Store, l: seq<Level>, i: nat)
    requires i <= |l| && LevelsOk(h, l[..i])
    ensures Same(h, l, h, l, i)
  {
  }

  lemma SameFurther(h: Store, l: seq<Level>, l1: seq<Level>, l2: seq<Level>, i: nat)
    requires Same(h, l, h, l1, i) && Same(h, l1, h, l2, i)
    ensures Same(h, l, h, l2, i)
  {
  }

  /** Reads below session `i` leave session `i` showing the same. */
  lemma SameAbove(h: Store, l: seq<Level>, l': seq<Level>, i: nat)
    requires i < |l| && Same(h, l, h, l', i) && LevelsOk(h, l[..i + 1])
    ensures Same(h, l, h, l', i + 1)
  {
    hide ViewsOf, LevelsOk, LevelOk, Overlay;
    assert l'[i] == l'[i..][0] == l[i..][0] == l[i];
    assert l[..i + 1] == l[..i] + [l[i]] && l'[..i + 1] == l'[..i] + [l[i]];
    assert l'[i + 1..] == l'[i..][1..] && l[i + 1..] == l[i..][1..];
    ViewsMore(h, l[..i], l[i]);
    ViewsMore(h, l'[..i], l[i]);
  }

  lemma SameCache(h: Store, l: seq<Level>, i: nat, j: nat, k: Bytes, v: Bytes)
    requires j < i <= |l| && LevelsOk(h, l[..i]) && k !in l[j] && Lookup(h, l[..j], k) == Some(v)
    ensures Same(h, l, h, l[j := l[j][k := Clean(v)]], i)
  {
    hide ViewsOf, LevelsOk;
    var l' := l[j := l[j][k := Clean(v)]];
    assert l[..i][..j] == l[..j];
    CacheMore(h, l[..i], j, k, v);
    assert l'[..i] == l[..i][j := l[j][k := Clean(v)]];
  }

  /** Session `i` changes at `k`; what lies below and above is the same. */
  ghost predicate Changed(h: Store, l: seq<Level>, h': Store, l': seq<Level>, i: nat, k: Bytes, v: Option<Bytes>) {
    && i <= |l| == |l'| && (i > 0 ==> h' == h) && l'[i..] == l[i..]
    && LevelsOk(h', l'[..i])
    && ViewsOf(h', l'[..i]) == ViewsOf(h, l[..i])[i := Assign(TopOf(h, l[..i]), k, v)]
  }

  lemma ChangeSlot(h: Store, l: seq<Level>, l1: seq<Level>, i: nat, k: Bytes, s: Slot)
    requires 0 < i && Same(h, l, h, l1, i) && SlotOk(TopOf(h, l1[..i - 1]), k, s)
    ensures var l2 := l1[i - 1 := l1[i - 1][k := s]];
            Changed(h, l, h, l2, i, k, if s.deleted then None else Some(s.value))
  {
    hide ViewsOf, LevelsOk, LevelOk, Overlay;
    var n := i - 1;
    var l2 := l1[n := l1[n][k := s]];
    assert l1[..i] == l1[..n] + [l1[n]] && l2[..i] == l1[..n] + [l2[n]] && l2[i..] == l1[i..];
    ViewsMore(h, l1[..n], l1[n]);
    ViewsMore(h, l1[..n], l2[n]);
    SlotAdded(TopOf(h, l1[..n]), l1[n], k, s);
  }

  class SessionStack {
    var head: Store
    var levels: seq<Level>
    var revision: int

    ghost predicate Valid()
      reads this
    {
      LevelsOk(head, levels)
    }

    ghost function Views(): seq<Store>
      reads this
    {
      ViewsOf(head, levels)
    }

    constructor (head: Store)
      requires Plain(head)
      ensures Valid() && Views() == [head] && revision == 0
    {
      this.head, levels, revision := head, [], 0;
    }

    /** Iteration may bring any keys into the sessions up to `i`, each with the value it has below. */
    method Warm(i: nat)
      requires i <= |levels| && LevelsOk(head, levels[..i])
      modifies this`levels
      ensures Same(head, old(levels), head, levels, i)
    {
      hide LevelsOk, ViewsOf, Same, Lookup;
      var near: seq<(nat, Bytes)> := *;
      SameStart(head, levels, i);
      var n := 0;
      while n < |near|
        invariant |levels| == |old(levels)| && LevelsOk(head, levels[..i]) && Same(head, old(levels), head, levels, i)
      {
        var (j, k) := near[n];
        if j < i && k !in levels[j] {
          var v := Lookup(head, levels[..j], k);
          if v.Some? {
            ghost var before := levels;
            SameCache(head, levels, i, j, k, v.value);
            levels := levels[j := levels[j][k := Clean(v.value)]];
            SameFurther(head, old(levels), before, levels, i);
            SameOk(head, before, levels, i);
          }
        }
        n := n + 1;
      }
    }

    /** The value session `i` shows; it is kept in the sessions it passed. */
    method ReadAt(i: nat, k: Bytes) returns (v: Option<Bytes>)
      requires i <= |levels| && LevelsOk(head, levels[..i])
      modifies this`levels
      ensures Same(head, old(levels), head, levels, i)
      ensures v == Find(TopOf(head, old(levels)[..i]), k)
      decreases i
    {
      hide LevelsOk, ViewsOf, Same, TopOf;
      SameStart(head, levels, i);
      LookupIs(head, levels[..i], k);
      if i == 0 {
        return Find(head, k);
      }
      var n := i - 1;
      assert levels[..i][..n] == levels[..n];
      if k in levels[n] && levels[n][k].deleted {
        return None;
      }
      if k in levels[n] && levels[n][k].value != [] {
        return Some(levels[n][k].value);
      }
      PrefixOk(head, levels, i, n);
      LookupIs(head, levels[..n], k);
      v := ReadAt(n, k);
      SameAbove(head, old(levels), levels, n);
      if v.Some? {
        ghost var before := levels;
        SameOk(head, old(levels), levels, i);
        Warm(i);
        SameFurther(head, old(levels), before, levels, i);
        SameOk(head, before, levels, i);
        if k !in levels[n] {
          SameTop(head, old(levels), levels, i, n);
          LookupIs(head, levels[..n], k);
          SameCache(head, levels, i, n, k, v.value);
          ghost var warm := levels;
          levels := levels[n := levels[n][k := Clean(v.value)]];
          SameFurther(head, old(levels), warm, levels, i);
        }
      }
    }

    method WriteAt(i: nat, k: Bytes, value: Bytes)
      requires i <= |levels| && LevelsOk(head, levels[..i]) && k != [] && value != []
      modifies this`head, this`levels
      ensures Changed(old(head), old(levels), head, levels, i, k, Some(value))
    {
      hide LevelsOk, ViewsOf, Same, TopOf, Changed;
      if i == 0 {
        ChangeHead(head, levels, k, Some(value));
        head := head[k := value];
        return;
      }
      Warm(i);
      SameOk(head, old(levels), levels, i);
      var level := levels[i - 1];
      var s := (if k in level then level[k] else Clean([])).(value := value, deleted := false, updated := true);
      ChangeSlot(head, old(levels), levels, i, k, s);
      levels := levels[i - 1 := level[k := s]];
    }

    method EraseAt(i: nat, k: Bytes)
      requires i <= |levels| && LevelsOk(head, levels[..i]) && k != []
      modifies this`head, this`levels
      ensures Changed(old(head), old(levels), head, levels, i, k, None)
    {
      hide LevelsOk, ViewsOf, Same, TopOf, Changed;
      if i == 0 {
        ChangeHead(head, levels, k, None);
        head := head - {k};
        return;
      }
      Warm(i);
      SameOk(head, old(levels), levels, i);
      var level := levels[i - 1];
      var s := if k in level then level[k] else Clean([]);
      s := s.(deleted := true, updated := false, version := s.version + 1);
      ChangeSlot(head, old(levels), levels, i, k, s);
      levels := levels[i - 1 := level[k := s]];
    }

    /** session::commit: session `i` passes its deletions and updates to the one below and is empty afterwards. */
    method CommitAt(i: nat)
      requires 0 < i <= |levels| && LevelsOk(head, levels[..i])
      modifies this`head, this`levels
      ensures Committed(old(head), old(levels), head, levels, i)
    {
      hide LevelsOk, ViewsOf, TopOf, Merging, Committed, Changed, LevelOk;
      ghost var h, l, n := head, levels, i - 1;
      PrefixOk(head, levels, i, n);
      MergeStart(head, levels, n);
      var level := levels[i - 1];
      LevelAt(head, levels, i);
      var deletes := set k | k in level && level[k].deleted;
      var updates := set k | k in level && !level[k].deleted && level[k].updated;
      EraseAll(deletes, i, h, l);
      MergeOk(h, l, head, levels, n, deletes);
      WriteAll(updates, i, deletes, h, l);
      ghost var done := deletes + updates;
      MergeOk(h, l, head, levels, n, done);
      MergeEnd(h, l, head, levels, n, done);
      levels := levels[i - 1 := map[]];
    }

    method EraseAll(deletes: set<Bytes>, i: nat, ghost h: Store, ghost l: seq<Level>)
      requires 0 < i <= |levels| && Merging(h, l, head, levels, i - 1, {})
      requires LevelOk(TopOf(h, l[..i - 1]), l[i - 1]) && forall k :: k in deletes ==> k in l[i - 1] && l[i - 1][k].deleted
      modifies this`head, this`levels
      ensures Merging(h, l, head, levels, i - 1, deletes)
    {
      hide LevelsOk, ViewsOf, TopOf, Merging, Changed, LevelOk;
      var rest := deletes;
      assert deletes - rest == {};
      while rest != {}
        invariant rest <= deletes && Merging(h, l, head, levels, i - 1, deletes - rest)
        decreases rest
      {
        SomeMember(rest);
        var k :| k in rest;
        MergeOk(h, l, head, levels, i - 1, deletes - rest);
        SlotAt(TopOf(h, l[..i - 1]), l[i - 1], k);
        ghost var h1, l1 := head, levels;
        EraseAt(i - 1, k);
        MergeStep(h, l, h1, l1, head, levels, i - 1, deletes - rest, k, None);
        assert deletes - rest + {k} == deletes - (rest - {k});
        rest := rest - {k};
      }
      assert deletes - rest == deletes;
    }

    method WriteAll(updates: set<Bytes>, i: nat, ghost done: set<Bytes>, ghost h: Store, ghost l: seq<Level>)
      requires 0 < i <= |levels| && Merging(h, l, head, levels, i - 1, done) && levels[i - 1] == l[i - 1]
      requires LevelOk(TopOf(h, l[..i - 1]), l[i - 1]) && forall k :: k in updates ==> k in l[i - 1] && !l[i - 1][k].deleted
      modifies this`head, this`levels
      ensures Merging(h, l, head, levels, i - 1, done + updates)
    {
      hide LevelsOk, ViewsOf, TopOf, Merging, Changed, LevelOk;
      var rest, level := updates, levels[i - 1];
      assert done + (updates - rest) == done;
      while rest != {}
        invariant rest <= updates && Merging(h, l, head, levels, i - 1, done + (updates - rest))
        decreases rest
      {
        SomeMember(rest);
        var k :| k in rest;
        MergeOk(h, l, head, levels, i - 1, done + (updates - rest));
        SlotAt(TopOf(h, l[..i - 1]), l[i - 1], k);
        ghost var h1, l1 := head, levels;
        WriteAt(i - 1, k, level[k].value);
        MergeStep(h, l, h1, l1, head, levels, i - 1, done + (updates - rest), k, Some(level[k].value));
        assert done + (updates - rest) + {k} == done + (updates - (rest - {k}));
        rest := rest - {k};
      }
      assert done + (updates - rest) == done + updates;
    }

    method Read(k: Bytes) returns (v: Option<Bytes>)
      requires Valid()
      modifies this
      ensures Valid() && Views() == old(Views()) && revision == old(revision)
      ensures v == Find(Views()[|Views()| - 1], k)
    {
      assert levels[..|levels|] == levels;
      v := ReadAt(|levels|, k);
      assert levels[..|levels|] == levels;
    }

    method Write(k: Bytes, value: Bytes)
      requires Valid() && k != [] && value != []
      modifies this
      ensures Valid() && revision == old(revision)
      ensures var top := |old(Views())| - 1; Views() == old(Views())[top := old(Views())[top][k := value]]
    {
      assert levels[..|levels|] == levels;
      WriteAt(|levels|, k, value);
      assert levels[..|levels|] == levels;
    }

    method Erase(k: Bytes)
      requires Valid() && k != []
      modifies this
      ensures Valid() && revision == old(revision)
      ensures var top := |old(Views())| - 1; Views() == old(Views())[top := old(Views())[top] - {k}]
    {
      assert levels[..|levels|] == levels;
      EraseAt(|levels|, k);
      assert levels[..|levels|] == levels;
    }

    /** A new session shows what the top showed. */
    method Push()
      requires Valid()
      modifies this
      ensures Valid() && revision == old(revision) + 1
      ensures Views() == old(Views()) + [old(Views())[|old(Views())| - 1]]
    {
      hide ViewsOf, LevelsOk;
      ViewsMore(head, levels, map[]);
      OverlayIs(TopOf(head, levels), map[], TopOf(head, levels));
      levels := levels + [map[]];
      assert levels[..|levels|] == levels;
      Warm(|levels|);
      assert levels[..|levels|] == levels;
      revision := revision + 1;
    }

    /** The session below takes over what the top shows. */
    method Squash()
      requires Valid()
      modifies this
      ensures Valid()
      ensures var n := |old(Views())| - 1;
              if n == 0 then Views() == old(Views()) && revision == old(revision)
              else Views() == old(Views())[..n - 1] + [old(Views())[n]] && revision == old(revision) - 1
    {
      hide ViewsOf, LevelsOk;
      if levels == [] {
        return;
      }
      ghost var n := |levels|;
      assert levels[..n] == levels;
      ViewsPrefix(head, levels, n - 1);
      CommitAt(|levels|);
      levels := levels[..|levels| - 1];
      revision := revision - 1;
    }

    /** The top is dropped with its changes. */
    method Undo()
      requires Valid()
      modifies this
      ensures Valid()
      ensures var n := |old(Views())| - 1;
              if n == 0 then Views() == old(Views()) && revision == old(revision)
              else Views() == old(Views())[..n] && revision == old(revision) - 1
    {
      hide ViewsOf, LevelsOk;
      if levels == [] {
        return;
      }
      ViewsPrefix(head, levels, |levels| - 1);
      levels := levels[..|levels| - 1];
      revision := revision - 1;
    }

    /** The head takes over the map at `revision`; that map and those above it stay as they are. */
    method Commit(revision: int)
      requires Valid()
      modifies this
      ensures Valid() && this.revision == old(this.revision)
      ensures var n := (if revision < this.revision then revision else this.revision) - (this.revision - |old(levels)|);
              Views() == if n > 0 then old(Views())[n..] else old(Views())
    {
      hide ViewsOf, LevelsOk, TopOf, Committed, Same;
      if levels == [] {
        return;
      }
      var rev := if revision < this.revision then revision else this.revision;
      var initial := this.revision - |levels| + 1;
      if initial > rev {
        return;
      }
      var n := rev - initial + 1;
      ghost var h, l := head, levels;
      DownStart(head, levels, n);
      var i := n;
      while i > 0
        invariant 0 <= i <= n && Down(h, l, head, levels, n, i) && this.revision == old(this.revision)
      {
        DownOk(h, l, head, levels, n, i);
        ghost var h1, l1 := head, levels;
        CommitAt(i);
        DownStep(h, l, h1, l1, head, levels, n, i);
        i := i - 1;
      }
      DownOk(h, l, head, levels, n, 0);
      DownEnd(h, l, head, levels, n);
      levels := levels[n..];
      if levels != [] {
        assert levels[..|levels|] == levels;
        PrefixOk(head, levels, |levels|, 1);
        ghost var before := levels;
        Warm(1);
        SameAll(head, before, levels);
      }
    }

    /** The revision can be set while there is no session, and only upwards. */
    method SetRevision(revision: int)
      requires Valid()
      modifies this
      ensures Valid() && Views() == old(Views())
      ensures this.revision == if old(levels) == [] && revision > old(this.revision) then revision else old(this.revision)
    {
      if levels != [] || revision <= this.revision {
        return;
      }
      this.revision := revision;
    }
  }

  lemma SameOk(h: Store, l: seq<Level>, l': seq<Level>, i: nat)
    requires Same(h, l, h, l', i)
    ensures i <= |l'| == |l| && LevelsOk(h, l'[..i]) && (i > 0 ==> LevelsOk(h, l'[..i - 1]))
  {
    if i > 0 {
      PrefixOk(h, l', i, i - 1);
    }
  }

  lemma PrefixOk(h: Store, l: seq<Level>, i: nat, n: nat)
    requires n <= i <= |l| && LevelsOk(h, l[..i])
    ensures LevelsOk(h, l[..n])
  {
    ViewsPrefix(h, l[..i], n);
    assert l[..i][..n] == l[..n];
  }

  lemma SameTop(h: Store, l: seq<Level>, l': seq<Level>, i: nat, n: nat)
    requires Same(h, l, h, l', i) && n <= i
    ensures TopOf(h, l'[..n]) == TopOf(h, l[..n])
  {
    ViewsPrefix(h, l[..i], n);
    ViewsPrefix(h, l'[..i], n);
    assert l[..i][..n] == l[..n] && l'[..i][..n] == l'[..n];
  }

  lemma ChangeHead(h: Store, l: seq<Level>, k: Bytes, v: Option<Bytes>)
    requires LevelsOk(h, l[..0]) && k != [] && v != Some([])
    ensures Changed(h, l, Assign(h, k, v), l, 0, k, v)
  {
    assert l[..0] == [];
  }

  /** The changes of session `n` at the keys `done` have reached the one below. */
  ghost predicate Merging(h0: Store, l0: seq<Level>, h: Store, l: seq<Level>, n: nat, done: set<Bytes>) {
    && n < |l0| == |l| && l[n..] == l0[n..] && (n > 0 ==> h == h0)
    && LevelsOk(h, l[..n])
    && ViewsOf(h, l[..n]) == ViewsOf(h0, l0[..n])[n := TopOf(h, l[..n])]
    && forall k :: Find(TopOf(h, l[..n]), k) ==
                   if k in done then Shown(TopOf(h0, l0[..n]), l0[n], k) else Find(TopOf(h0, l0[..n]), k)
  }

  /** Session `i` is empty and the one below shows what it showed; sessions further below and above are the same. */
  ghost predicate Committed(h0: Store, l0: seq<Level>, h: Store, l: seq<Level>, i: nat) {
    && 0 < i <= |l0| == |l| && l[i..] == l0[i..] && l[i - 1] == map[] && (i > 1 ==> h == h0)
    && LevelsOk(h, l[..i - 1])
    && ViewsOf(h, l[..i - 1]) == ViewsOf(h0, l0[..i - 1])[i - 1 := TopOf(h0, l0[..i])]
  }

  lemma MergeStart(h: Store, l: seq<Level>, n: nat)
    requires n < |l| && LevelsOk(h, l[..n])
    ensures Merging(h, l, h, l, n, {})
  {
  }

  lemma MergeOk(h0: Store, l0: seq<Level>, h: Store, l: seq<Level>, n: nat, done: set<Bytes>)
    requires Merging(h0, l0, h, l, n, done)
    ensures n < |l| == |l0| && LevelsOk(h, l[..n]) && (n > 0 ==> h == h0) && l[n] == l0[n]
  {
    assert l[n..][0] == l0[n..][0];
  }

  lemma LevelAt(h: Store, l: seq<Level>, i: nat)
    requires 0 < i <= |l| && LevelsOk(h, l[..i])
    ensures LevelOk(TopOf(h, l[..i - 1]), l[i - 1])
    ensures TopOf(h, l[..i]) == Overlay(TopOf(h, l[..i - 1]), l[i - 1])
  {
    hide ViewsOf, LevelsOk, LevelOk;
    assert l[..i] == l[..i - 1] + [l[i - 1]];
    ViewsMore(h, l[..i - 1], l[i - 1]);
  }

  lemma SlotAt(m: Store, level: Level, k: Bytes)
    requires LevelOk(m, level) && k in level
    ensures k != [] && (!level[k].deleted ==> level[k].value != [])
    ensures Shown(m, level, k) == if level[k].deleted then None else Some(level[k].value)
  {
  }

  lemma MergeStep(h0: Store, l0: seq<Level>, h: Store, l: seq<Level>, h': Store, l': seq<Level>, n: nat, done: set<Bytes>,
                  k: Bytes, v: Option<Bytes>)
    requires Merging(h0, l0, h, l, n, done) && Changed(h, l, h', l', n, k, v)
    requires v == Shown(TopOf(h0, l0[..n]), l0[n], k)
    ensures Merging(h0, l0, h', l', n, done + {k})
  {
    hide ViewsOf, LevelsOk, Shown, Assign;
    var m, m' := TopOf(h, l[..n]), TopOf(h', l'[..n]);
    assert m' == Assign(m, k, v);
    forall x ensures Find(m', x) == if x in done + {k} then Shown(TopOf(h0, l0[..n]), l0[n], x) else Find(TopOf(h0, l0[..n]), x) {
      AssignFind(m, k, v, x);
    }
  }

  lemma MergeEnd(h0: Store, l0: seq<Level>, h: Store, l: seq<Level>, n: nat, done: set<Bytes>)
    requires Merging(h0, l0, h, l, n, done) && LevelsOk(h0, l0[..n + 1])
    requires forall k :: k in l0[n] && (l0[n][k].deleted || l0[n][k].updated) ==> k in done
    ensures Committed(h0, l0, h, l[n := map[]], n + 1)
  {
    hide ViewsOf, LevelsOk;
    LevelAt(h0, l0, n + 1);
    var m, m0, level := TopOf(h, l[..n]), TopOf(h0, l0[..n]), l0[n];
    forall k ensures Shown(m0, level, k) == Find(m, k) {
      assert k in level ==> SlotOk(m0, k, level[k]);
    }
    OverlayIs(m0, level, m);
    var l' := l[n := map[]];
    assert l'[..n] == l[..n] && l'[n + 1..] == l[n..][1..] && l0[n + 1..] == l0[n..][1..];
  }

  /** The sessions from `n` down to above `i` are committed: session `i` shows what session `n` showed. */
  ghost predicate Down(h0: Store, l0: seq<Level>, h: Store, l: seq<Level>, n: nat, i: nat) {
    && i <= n <= |l0| == |l| && l[n..] == l0[n..] && (i > 0 ==> h == h0)
    && LevelsOk(h, l[..i])
    && ViewsOf(h, l[..i]) == ViewsOf(h0, l0[..i])[i := TopOf(h0, l0[..n])]
  }

  lemma DownStart(h: Store, l: seq<Level>, n: nat)
    requires LevelsOk(h, l) && n <= |l|
    ensures Down(h, l, h, l, n, n)
  {
    ViewsPrefix(h, l, n);
  }

  lemma DownOk(h0: Store, l0: seq<Level>, h: Store, l: seq<Level>, n: nat, i: nat)
    requires Down(h0, l0, h, l, n, i)
    ensures i <= n <= |l| && LevelsOk(h, l[..i])
    ensures i == 0 ==> h == TopOf(h0, l0[..n])
  {
    assert l[..0] == [] && l0[..0] == [];
    ViewsNone(h);
    if i == 0 {
      assert ViewsOf(h, l[..i])[0] == TopOf(h0, l0[..n]);
    }
  }

  lemma DownStep(h0: Store, l0: seq<Level>, h: Store, l: seq<Level>, h': Store, l': seq<Level>, n: nat, i: nat)
    requires Down(h0, l0, h, l, n, i) && Committed(h, l, h', l', i)
    ensures Down(h0, l0, h', l', n, i - 1)
  {
    hide ViewsOf, LevelsOk;
    assert l'[n..] == l'[i..][n - i..] && l[n..] == l[i..][n - i..];
    ViewsPrefix(h, l[..i], i - 1);
    ViewsPrefix(h0, l0[..i], i - 1);
    assert l[..i][..i - 1] == l[..i - 1] && l0[..i][..i - 1] == l0[..i - 1];
  }

  lemma DownEnd(h0: Store, l0: seq<Level>, h: Store, l: seq<Level>, n: nat)
    requires LevelsOk(h0, l0) && Down(h0, l0, h, l, n, 0)
    ensures LevelsOk(h, l[n..]) && ViewsOf(h, l[n..]) == ViewsOf(h0, l0)[n..]
  {
    hide ViewsOf, LevelsOk, Down;
    DownOk(h0, l0, h, l, n, 0);
    DownRest(h0, l0, h, l, n);
    Rebase(h0, l0, n);
  }

  lemma DownRest(h0: Store, l0: seq<Level>, h: Store, l: seq<Level>, n: nat)
    requires Down(h0, l0, h, l, n, 0)
    ensures n <= |l0| == |l| && l[n..] == l0[n..]
  {
  }

  lemma {:induction false} SameUpTo(h: Store, l: seq<Level>, l': seq<Level>, i: nat)
    requires l != [] && LevelsOk(h, l) && Same(h, l, h, l', 1) && 1 <= i <= |l|
    ensures Same(h, l, h, l', i)
    decreases i
  {
    hide ViewsOf, LevelsOk, Same;
    if i > 1 {
      SameUpTo(h, l, l', i - 1);
      ViewsPrefix(h, l, i);
      SameAbove(h, l, l', i - 1);
    }
  }

  lemma SameAll(h: Store, l: seq<Level>, l': seq<Level>)
    requires l != [] && LevelsOk(h, l) && Same(h, l, h, l', 1)
    ensures LevelsOk(h, l') && ViewsOf(h, l') == ViewsOf(h, l)
  {
    hide ViewsOf, LevelsOk;
    SameUpTo(h, l, l', |l|);
    assert l[..|l|] == l && l'[..|l|] == l';
  }
}
