/** A session directly over the base store: entries know whether their neighbours, in key order, are cached too. */
module SessionCache {
  import opened Options
  import opened ByteKeys
  import opened UndoLog
  import opened KvDatabase
  import opened SessionLevel

  datatype ValueState = ValueState(slot: Slot, nextInCache: bool, previousInCache: bool)

  type Cache = map<Bytes, ValueState>

  function Slots(cache: Cache): Level {
    map k | k in cache :: cache[k].slot
  }

  // ---- The neighbour flags ----

  /** The key after `k`, cached or in the base, is cached. */
  ghost predicate NextKnown(all: set<Bytes>, cached: set<Bytes>, k: Bytes) {
    exists b :: b in cached && IsNext(all, k, Some(b))
  }

  ghost predicate PrevKnown(all: set<Bytes>, cached: set<Bytes>, k: Bytes) {
    exists b :: b in cached && IsPrev(all, k, Some(b))
  }

  ghost predicate FlagsOk(m: Store, cache: Cache) {
    forall k :: k in cache ==>
      && (cache[k].nextInCache ==> NextKnown(m.Keys + cache.Keys, cache.Keys, k))
      && (cache[k].previousInCache ==> PrevKnown(m.Keys + cache.Keys, cache.Keys, k))
  }

  /** A key that joins the cache becomes the known neighbour of the keys it separates. */
  lemma KnownKept(all: set<Bytes>, cached: set<Bytes>, x: Bytes, k: Bytes)
    requires cached <= all
    ensures NextKnown(all, cached, k) ==> NextKnown(all + {x}, cached + {x}, k)
    ensures PrevKnown(all, cached, k) ==> PrevKnown(all + {x}, cached + {x}, k)
  {
    hide Less;
    Order();
    if NextKnown(all, cached, k) {
      var b :| b in cached && IsNext(all, k, Some(b));
      var b' := if Less(k, x) && Less(x, b) then x else b;
      assert b' in cached + {x} && IsNext(all + {x}, k, Some(b'));
    }
    if PrevKnown(all, cached, k) {
      var b :| b in cached && IsPrev(all, k, Some(b));
      var b' := if Less(x, k) && Less(b, x) then x else b;
      assert b' in cached + {x} && IsPrev(all + {x}, k, Some(b'));
    }
  }

  lemma FlagsInsert(m: Store, cache: Cache, x: Bytes, s: Slot)
    requires FlagsOk(m, cache) && x !in cache
    ensures FlagsOk(m, cache[x := ValueState(s, false, false)])
  {
    hide NextKnown, PrevKnown;
    var cache' := cache[x := ValueState(s, false, false)];
    assert m.Keys + cache'.Keys == m.Keys + cache.Keys + {x} && cache'.Keys == cache.Keys + {x};
    forall k | k in cache'
      ensures cache'[k].nextInCache ==> NextKnown(m.Keys + cache'.Keys, cache'.Keys, k)
      ensures cache'[k].previousInCache ==> PrevKnown(m.Keys + cache'.Keys, cache'.Keys, k)
    {
      KnownKept(m.Keys + cache.Keys, cache.Keys, x, k);
    }
  }

  /** A key put between two keys with nothing between them knows both its neighbours. */
  lemma BetweenKnown(m: Store, cache: Cache, x: Bytes, p: Bytes)
    requires x !in cache && p in cache && IsPrev(cache.Keys, x, Some(p)) && NextKnown(m.Keys + cache.Keys, cache.Keys, p)
    ensures var cached := cache.Keys + {x};
            NextKnown(m.Keys + cached, cached, x) && PrevKnown(m.Keys + cached, cached, x)
  {
    hide Less;
    Order();
    var all := m.Keys + cache.Keys;
    var b :| b in cache.Keys && IsNext(all, p, Some(b));
    var cached := cache.Keys + {x};
    assert Less(x, b);
    assert IsNext(m.Keys + cached, x, Some(b)) && b in cached;
    assert IsPrev(m.Keys + cached, x, Some(p)) && p in cached;
  }

  /** When the next base key is cached, the next cached key is the next of all. */
  lemma NextOfBoth(m: Store, cache: Cache, x: Bytes, pit: Option<Bytes>, next: Bytes)
    requires IsNext(m.Keys, x, pit) && (pit.Some? ==> pit.value in cache) && IsNext(cache.Keys, x, Some(next)) && x in cache
    ensures NextKnown(m.Keys + cache.Keys, cache.Keys, x) && PrevKnown(m.Keys + cache.Keys, cache.Keys, next)
  {
    hide Less;
    Order();
    assert IsNext(m.Keys + cache.Keys, x, Some(next)) && next in cache.Keys;
    assert IsPrev(m.Keys + cache.Keys, next, Some(x)) && x in cache.Keys;
  }

  lemma PrevOfBoth(m: Store, cache: Cache, x: Bytes, pit: Option<Bytes>, prev: Bytes)
    requires IsPrev(m.Keys, x, pit) && (pit.Some? ==> pit.value in cache) && IsPrev(cache.Keys, x, Some(prev)) && x in cache
    ensures PrevKnown(m.Keys + cache.Keys, cache.Keys, x) && NextKnown(m.Keys + cache.Keys, cache.Keys, prev)
  {
    hide Less;
    Order();
    assert IsPrev(m.Keys + cache.Keys, x, Some(prev)) && prev in cache.Keys;
    assert IsNext(m.Keys + cache.Keys, prev, Some(x)) && x in cache.Keys;
  }

  lemma FlagsSet(m: Store, cache: Cache, k: Bytes, v: ValueState)
    requires FlagsOk(m, cache) && k in cache
    requires v.nextInCache ==> NextKnown(m.Keys + cache.Keys, cache.Keys, k)
    requires v.previousInCache ==> PrevKnown(m.Keys + cache.Keys, cache.Keys, k)
    ensures FlagsOk(m, cache[k := v])
  {
    hide NextKnown, PrevKnown;
    assert cache[k := v].Keys == cache.Keys;
  }

  /** `a` and `b` are marked as neighbours. */
  function Neighbours(cache: Cache, a: Bytes, b: Bytes): Cache
    requires a in cache && b in cache && a != b
  {
    cache[a := cache[a].(nextInCache := true)][b := cache[b].(previousInCache := true)]
  }

  lemma FlagsLink(m: Store, cache: Cache, a: Bytes, b: Bytes)
    requires FlagsOk(m, cache) && a in cache && b in cache && a != b
    requires NextKnown(m.Keys + cache.Keys, cache.Keys, a) && PrevKnown(m.Keys + cache.Keys, cache.Keys, b)
    ensures var cache' := Neighbours(cache, a, b);
            FlagsOk(m, cache') && cache'.Keys == cache.Keys && cache'[a].nextInCache && forall k :: k in cache ==> cache'[k].slot == cache[k].slot
  {
    hide NextKnown, PrevKnown;
    assert Neighbours(cache, a, b).Keys == cache.Keys;
  }

  /** Entries stay as they were; new ones, but for `key`, repeat the base. */
  ghost predicate Grown(m: Store, a: Cache, b: Cache, key: Bytes) {
    && (forall k :: k in a ==> k in b && b[k].slot == a[k].slot)
    && (forall k :: k in b && k !in a && k != key ==> k in m && b[k].slot == Clean(m[k]))
  }

  ghost predicate CacheOk(m: Store, cache: Cache) {
    Plain(m) && LevelOk(m, Slots(cache)) && FlagsOk(m, cache)
  }

  /** Once `key` has its own slot the cache is in order again and only `key` may show something else. */
  lemma GrownSet(m: Store, a: Cache, b: Cache, key: Bytes, s: Slot)
    requires CacheOk(m, a) && Grown(m, a, b, key) && FlagsOk(m, b) && key in b && SlotOk(m, key, s)
    ensures CacheOk(m, b[key := b[key].(slot := s)])
    ensures var v := if s.deleted then None else Some(s.value);
            Overlay(m, Slots(b[key := b[key].(slot := s)])) == Assign(Overlay(m, Slots(a)), key, v)
  {
    hide NextKnown, PrevKnown, Overlay, FlagsOk;
    var c := b[key := b[key].(slot := s)];
    FlagsSetSlot(m, b, key, s);
    forall k | k in c ensures SlotOk(m, k, c[k].slot) {
      assert k in a ==> SlotOk(m, k, Slots(a)[k]);
    }
    var old_ := Overlay(m, Slots(a));
    var v := if s.deleted then None else Some(s.value);
    forall k ensures Shown(m, Slots(c), k) == Find(Assign(old_, key, v), k) {
      AssignFind(old_, key, v, k);
      OverlayFind(m, Slots(a), k);
    }
    OverlayIs(m, Slots(c), Assign(old_, key, v));
  }

  lemma FlagsSetSlot(m: Store, b: Cache, key: Bytes, s: Slot)
    requires FlagsOk(m, b) && key in b
    ensures FlagsOk(m, b[key := b[key].(slot := s)])
  {
    FlagsSet(m, b, key, b[key].(slot := s));
  }

  /** A cache that only gained entries from the base shows the same. */
  lemma GrownShows(m: Store, a: Cache, b: Cache, key: Bytes)
    requires CacheOk(m, a) && Grown(m, a, b, key) && FlagsOk(m, b) && (key in b ==> key in a)
    ensures CacheOk(m, b) && Overlay(m, Slots(b)) == Overlay(m, Slots(a))
  {
    hide FlagsOk, Overlay;
    forall k | k in b ensures SlotOk(m, k, b[k].slot) {
      assert k in a ==> SlotOk(m, k, Slots(a)[k]);
    }
    forall k ensures Shown(m, Slots(b), k) == Find(Overlay(m, Slots(a)), k) {
      OverlayFind(m, Slots(a), k);
    }
    OverlayIs(m, Slots(b), Overlay(m, Slots(a)));
  }

  // ---- Searching ----

  ghost function LiveCached(cache: Cache): set<Bytes> {
    set k | k in cache && !cache[k].slot.deleted
  }

  ghost function LiveBase(m: Store, cache: Cache): set<Bytes> {
    set k | k in m && !(k in cache && cache[k].slot.deleted)
  }

  /** The session shows the keys of the base that it does not delete and the keys it holds. */
  lemma ViewKeys(m: Store, cache: Cache)
    requires CacheOk(m, cache)
    ensures Overlay(m, Slots(cache)).Keys == LiveCached(cache) + LiveBase(m, cache)
  {
    hide FlagsOk;
    var view := Overlay(m, Slots(cache));
    forall k ensures k in view <==> k in LiveCached(cache) + LiveBase(m, cache) {
      assert k in cache ==> SlotOk(m, k, Slots(cache)[k]);
    }
  }

  /** All base keys from `key` up to `hi` are cached. */
  ghost predicate Clear(m: Store, cache: Cache, key: Bytes, hi: Bytes) {
    forall x :: x in m && !Less(x, key) && Less(x, hi) ==> x in cache
  }

  ghost function From(keys: set<Bytes>, it: Option<Bytes>): set<Bytes> {
    set k | k in keys && it.Some? && !Less(k, it.value)
  }

  /** On the way from `key`, with `it` the next cached key to look at. */
  ghost predicate Skipping(m: Store, cache: Cache, key: Bytes, it: Option<Bytes>, known: bool) {
    && (it.Some? ==> it.value in cache && !Less(it.value, key))
    && (forall c :: c in cache && !Less(c, key) && (it.Some? ==> Less(c, it.value)) ==>
          cache[c].slot.deleted && (known ==> Clear(m, cache, key, c)))
  }

  lemma SkipStart(m: Store, cache: Cache, key: Bytes, it: Option<Bytes>)
    requires IsSeek(cache.Keys, key, it)
    ensures Skipping(m, cache, key, it, true)
  {
    hide Less, Clear;
    Order();
  }

  lemma ClearBefore(m: Store, cache: Cache, key: Bytes, it: Bytes, known: bool)
    requires CacheOk(m, cache) && Skipping(m, cache, key, Some(it), known)
    ensures known && cache[it].previousInCache ==> Clear(m, cache, key, it)
  {
    hide Less;
    Order();
    if known && cache[it].previousInCache {
      var b :| b in cache.Keys && IsPrev(m.Keys + cache.Keys, it, Some(b));
      forall x | x in m && !Less(x, key) && Less(x, it) ensures x in cache {
        assert x in m.Keys + cache.Keys && !Less(b, x);
        assert !Less(b, key) ==> Clear(m, cache, key, b);
      }
    }
  }

  lemma SkipStep(m: Store, cache: Cache, key: Bytes, it: Bytes, known: bool, next: Option<Bytes>)
    requires CacheOk(m, cache) && Skipping(m, cache, key, Some(it), known) && cache[it].slot.deleted
    requires IsNext(cache.Keys, it, next)
    ensures Skipping(m, cache, key, next, known && cache[it].previousInCache)
    ensures From(cache.Keys, next) < From(cache.Keys, Some(it))
  {
    hide Less, Clear, CacheOk;
    Order();
    ClearBefore(m, cache, key, it, known);
    assert it in From(cache.Keys, Some(it)) && it !in From(cache.Keys, next);
  }

  lemma SkipEnd(m: Store, cache: Cache, key: Bytes, it: Option<Bytes>, known: bool)
    requires CacheOk(m, cache) && Skipping(m, cache, key, it, known)
    requires it.Some? ==> !cache[it.value].slot.deleted
    ensures IsSeek(LiveCached(cache), key, it)
    ensures it.Some? && known && cache[it.value].previousInCache ==> Clear(m, cache, key, it.value)
  {
    hide Less, Clear, CacheOk;
    Order();
    if it.Some? {
      ClearBefore(m, cache, key, it.value, known);
    }
  }

  ghost predicate BaseSkipping(m: Store, cache: Cache, key: Bytes, pit: Option<Bytes>) {
    && (pit.Some? ==> pit.value in m && !Less(pit.value, key))
    && (forall c :: c in m && !Less(c, key) && (pit.Some? ==> Less(c, pit.value)) ==> c in cache && cache[c].slot.deleted)
  }

  lemma BaseStart(m: Store, cache: Cache, key: Bytes, pit: Option<Bytes>)
    requires IsSeek(m.Keys, key, pit)
    ensures BaseSkipping(m, cache, key, pit)
  {
    hide Less;
    Order();
  }

  lemma BaseStep(m: Store, cache: Cache, key: Bytes, pit: Bytes, next: Option<Bytes>)
    requires BaseSkipping(m, cache, key, Some(pit)) && IsNext(m.Keys, pit, next) && pit in cache && cache[pit].slot.deleted
    ensures BaseSkipping(m, cache, key, next) && From(m.Keys, next) < From(m.Keys, Some(pit))
  {
    hide Less;
    Order();
    assert pit in From(m.Keys, Some(pit)) && pit !in From(m.Keys, next);
  }

  lemma BaseEnd(m: Store, cache: Cache, key: Bytes, pit: Option<Bytes>)
    requires BaseSkipping(m, cache, key, pit) && (pit.Some? ==> !(pit.value in cache && cache[pit.value].slot.deleted))
    ensures IsSeek(LiveBase(m, cache), key, pit)
  {
    hide Less;
    Order();
  }

  /** The smaller of the two candidates. */
  lemma SeekBoth(m: Store, cache: Cache, key: Bytes, it: Option<Bytes>, pit: Option<Bytes>)
    requires CacheOk(m, cache) && IsSeek(LiveCached(cache), key, it) && IsSeek(LiveBase(m, cache), key, pit)
    ensures var r := if pit.Some? && (it.None? || Less(pit.value, it.value)) then pit else it;
            IsSeek(Overlay(m, Slots(cache)).Keys, key, r)
    ensures pit.Some? ==> pit.value in m
  {
    hide Less, Overlay, CacheOk;
    Order();
    ViewKeys(m, cache);
  }

  lemma SeekKnown(m: Store, cache: Cache, key: Bytes, it: Bytes)
    requires CacheOk(m, cache) && IsSeek(LiveCached(cache), key, Some(it)) && (it == key || Clear(m, cache, key, it))
    ensures IsSeek(Overlay(m, Slots(cache)).Keys, key, Some(it))
  {
    hide Less, Overlay, CacheOk;
    Order();
    ViewKeys(m, cache);
  }

  ghost function Everything(m: Store, cache: Cache): set<Bytes> {
    m.Keys + cache.Keys
  }

  /** The first of all keys above `x` is the smaller of the two candidates. */
  lemma NextOfTwo(m: Store, cache: Cache, x: Bytes, pit: Option<Bytes>, pending: Option<Bytes>)
    requires IsNext(m.Keys, x, pit) && IsNext(cache.Keys, x, pending)
    ensures var r := if pit.None? || (pending.Some? && Less(pending.value, pit.value)) then pending else pit;
            IsNext(Everything(m, cache), x, r) && (r.Some? ==> r.value in m || r.value in cache)
  {
    hide Less;
    Order();
  }

  lemma KnownPair(m: Store, cache: Cache, x: Bytes, key: Bytes)
    requires IsNext(Everything(m, cache), x, Some(key)) && x in cache && key in cache
    ensures NextKnown(m.Keys + cache.Keys, cache.Keys, x) && PrevKnown(m.Keys + cache.Keys, cache.Keys, key) && x != key
  {
    hide Less;
    Order();
    assert key in cache.Keys && IsNext(m.Keys + cache.Keys, x, Some(key));
    assert x in cache.Keys && IsPrev(m.Keys + cache.Keys, key, Some(x));
  }

  /** No shown key lies above `key` up to and including `it`. */
  ghost predicate Walked(keys: set<Bytes>, key: Bytes, it: Bytes) {
    !Less(it, key) && forall x :: x in keys && Less(key, x) ==> Less(it, x)
  }

  lemma WalkStart(keys: set<Bytes>, key: Bytes)
    ensures Walked(keys, key, key)
  {
    Irreflexive(key);
  }

  lemma WalkOver(m: Store, cache: Cache, key: Bytes, it: Bytes)
    requires CacheOk(m, cache) && Walked(Overlay(m, Slots(cache)).Keys, key, it) && IsNext(Everything(m, cache), it, None)
    ensures IsNext(Overlay(m, Slots(cache)).Keys, key, None)
  {
    hide Less, Overlay, CacheOk;
    ViewKeys(m, cache);
  }

  /** From an entry whose neighbour is known, the next entry is the next of all keys. */
  lemma WalkStep(m: Store, cache: Cache, key: Bytes, it: Bytes, next: Option<Bytes>)
    requires CacheOk(m, cache) && it in cache && cache[it].nextInCache
    requires Walked(Overlay(m, Slots(cache)).Keys, key, it) && IsNext(cache.Keys, it, next)
    ensures next.Some? && next.value in cache
    ensures From(Everything(m, cache), next) < From(Everything(m, cache), Some(it))
    ensures if cache[next.value].slot.deleted then Walked(Overlay(m, Slots(cache)).Keys, key, next.value)
            else IsNext(Overlay(m, Slots(cache)).Keys, key, next)
  {
    hide Less, Overlay;
    Order();
    ViewKeys(m, cache);
    var all := Everything(m, cache);
    var b :| b in cache.Keys && IsNext(m.Keys + cache.Keys, it, Some(b));
    assert next == Some(b);
    assert it in From(all, Some(it)) && it !in From(all, next);
  }

  class Session {
    const base: Database
    var cache: Cache

    ghost predicate Valid()
      reads this, base
    {
      CacheOk(base.kv, cache)
    }

    ghost function View(): Store
      reads this, base
    {
      Overlay(base.kv, Slots(cache))
    }

    /** The cache starts with the first and the last key of the base. */
    constructor (base: Database)
      requires Plain(base.kv)
      ensures Valid() && this.base == base && View() == base.kv
    {
      hide Less;
      this.base, cache := base, map[];
      new;
      hide FlagsOk;
      FlagsNone(base.kv);
      var first := Seek(base.kv.Keys, []);
      var last := LastKey(base.kv.Keys);
      if first.Some? && last.Some? {
        Emplace(first.value);
        Emplace(last.value);
      }
      GrownShows(base.kv, map[], cache, []);
      OverlayIs(base.kv, map[], base.kv);
    }

    /** A key of the base enters the cache unless it is there. */
    method Emplace(k: Bytes)
      requires FlagsOk(base.kv, cache) && k in base.kv
      modifies this
      ensures FlagsOk(base.kv, cache) && cache.Keys == old(cache.Keys) + {k}
      ensures forall x :: x in old(cache) ==> x in cache && cache[x] == old(cache)[x]
      ensures k !in old(cache) ==> cache[k].slot == Clean(base.kv[k])
    {
      hide FlagsOk;
      if k !in cache {
        FlagsInsert(base.kv, cache, k, Clean(base.kv[k]));
        cache := cache[k := ValueState(Clean(base.kv[k]), false, false)];
      }
    }

    /** next_key_: the next base key is cached, and the entry after `x` is marked as its neighbour. */
    method LinkNext(x: Bytes)
      requires FlagsOk(base.kv, cache) && x in cache
      modifies this
      ensures FlagsOk(base.kv, cache) && Grown(base.kv, old(cache), cache, x)
    {
      hide FlagsOk, NextKnown, PrevKnown, IsNext, Neighbours;
      var pit := NextKey(base.kv.Keys, x);
      NeighbourKey(base.kv.Keys, x, pit);
      if pit.Some? {
        Emplace(pit.value);
      }
      var next := NextKey(cache.Keys, x);
      NeighbourKey(cache.Keys, x, next);
      if next.Some? {
        NextOfBoth(base.kv, cache, x, pit, next.value);
        FlagsLink(base.kv, cache, x, next.value);
        cache := Neighbours(cache, x, next.value);
      }
    }

    method LinkPrevious(x: Bytes)
      requires FlagsOk(base.kv, cache) && x in cache
      modifies this
      ensures FlagsOk(base.kv, cache) && Grown(base.kv, old(cache), cache, x)
    {
      hide FlagsOk, NextKnown, PrevKnown, IsPrev, Neighbours;
      var pit := PrevKey(base.kv.Keys, x);
      NeighbourKey(base.kv.Keys, x, pit);
      if pit.Some? {
        Emplace(pit.value);
      }
      var prev := PrevKey(cache.Keys, x);
      NeighbourKey(cache.Keys, x, prev);
      if prev.Some? {
        PrevOfBoth(base.kv, cache, x, pit, prev.value);
        FlagsLink(base.kv, cache, prev.value, x);
        cache := Neighbours(cache, prev.value, x);
      }
    }

    /** `key` gets an entry that knows its neighbours, from the flags around it or from the base. */
    method UpdateIteratorCache(key: Bytes)
      requires FlagsOk(base.kv, cache)
      modifies this
      ensures FlagsOk(base.kv, cache) && key in cache && Grown(base.kv, old(cache), cache, key)
      ensures key !in old(cache) ==> cache[key].slot == Clean([])
    {
      hide FlagsOk, IsPrev, IsNext, Less, Grown;
      GrownInsert(base.kv, cache, key, ValueState(Clean([]), true, true));
      GrownInsert(base.kv, cache, key, ValueState(Clean([]), false, false));
      if key in cache {
        return;
      }
      var prev := PrevKey(cache.Keys, key);
      NeighbourKey(cache.Keys, key, prev);
      var known;
      if prev.Some? {
        known := cache[prev.value].nextInCache;
      } else {
        var next := NextKey(cache.Keys, key);
        NeighbourKey(cache.Keys, key, next);
        FirstHasNoPrevious(base.kv, cache, key, next);
        known := next.Some? && cache[next.value].previousInCache;
      }
      if known {
        FlagsBetween(base.kv, cache, key, prev.value);
        cache := cache[key := ValueState(Clean([]), true, true)];
        return;
      }
      FlagsInsert(base.kv, cache, key, Clean([]));
      cache := cache[key := ValueState(Clean([]), false, false)];
      ghost var inserted := cache;
      LinkNext(key);
      GrownFurther(base.kv, old(cache), inserted, cache, key);
      ghost var linked := cache;
      LinkPrevious(key);
      GrownFurther(base.kv, old(cache), linked, cache, key);
    }

    method Read(key: Bytes) returns (v: Option<Bytes>)
      requires Valid() && key != []
      modifies this
      ensures Valid() && v == Find(View(), key) && View() == old(View())
    {
      hide FlagsOk, Overlay;
      OverlayFind(base.kv, Slots(cache), key);
      if key in cache && cache[key].slot.deleted {
        return None;
      }
      if key in cache && cache[key].slot.value != [] {
        return Some(cache[key].slot.value);
      }
      v := Find(base.kv, key);
      if v.Some? {
        ghost var before := cache;
        UpdateIteratorCache(key);
        GrownSet(base.kv, before, cache, key, cache[key].slot.(value := v.value));
        AssignSame(Overlay(base.kv, Slots(before)), key);
        cache := cache[key := cache[key].(slot := cache[key].slot.(value := v.value))];
      }
    }

    method Write(key: Bytes, value: Bytes)
      requires Valid() && key != [] && value != []
      modifies this
      ensures Valid() && View() == old(View())[key := value]
    {
      hide FlagsOk, Overlay;
      ghost var before := cache;
      UpdateIteratorCache(key);
      var s := cache[key].slot.(value := value, deleted := false, updated := true);
      GrownSet(base.kv, before, cache, key, s);
      cache := cache[key := cache[key].(slot := s)];
    }

    method Erase(key: Bytes)
      requires Valid() && key != []
      modifies this
      ensures Valid() && View() == old(View()) - {key}
    {
      hide FlagsOk, Overlay;
      ghost var before := cache;
      UpdateIteratorCache(key);
      var s := cache[key].slot.(deleted := true, updated := false, version := cache[key].slot.version + 1);
      GrownSet(base.kv, before, cache, key, s);
      cache := cache[key := cache[key].(slot := s)];
    }

    /** The first cached key from `key` on that is not deleted, and whether all keys on the way were known neighbours. */
    method FirstNotDeleted(key: Bytes) returns (it: Option<Bytes>, known: bool)
      requires Valid()
      ensures IsSeek(LiveCached(cache), key, it)
      ensures it.Some? && known ==> Clear(base.kv, cache, key, it.value)
    {
      hide FlagsOk, IsSeek, IsNext, Clear, LiveCached;
      it := Seek(cache.Keys, key);
      known := true;
      SkipStart(base.kv, cache, key, it);
      while it.Some? && cache[it.value].slot.deleted
        invariant Skipping(base.kv, cache, key, it, known)
        decreases From(cache.Keys, it)
      {
        var next := NextKey(cache.Keys, it.value);
        SkipStep(base.kv, cache, key, it.value, known, next);
        known := known && cache[it.value].previousInCache;
        it := next;
      }
      SkipEnd(base.kv, cache, key, it, known);
      if it.Some? {
        known := known && cache[it.value].previousInCache;
      }
    }

    /** The first base key from `key` on that the cache does not delete. */
    method FirstBaseNotDeleted(key: Bytes) returns (pit: Option<Bytes>)
      requires Valid()
      ensures IsSeek(LiveBase(base.kv, cache), key, pit)
    {
      hide IsSeek, IsNext, LiveBase;
      pit := Seek(base.kv.Keys, key);
      BaseStart(base.kv, cache, key, pit);
      while pit.Some? && pit.value in cache && cache[pit.value].slot.deleted
        invariant BaseSkipping(base.kv, cache, key, pit)
        decreases From(base.kv.Keys, pit)
      {
        var next := NextKey(base.kv.Keys, pit.value);
        BaseStep(base.kv, cache, key, pit.value, next);
        pit := next;
      }
      BaseEnd(base.kv, cache, key, pit);
    }

    /** The least key not below `key` of the map the session shows, or the end. */
    method LowerBound(key: Bytes) returns (it: Option<Bytes>)
      requires Valid()
      modifies this
      ensures Valid() && View() == old(View()) && IsSeek(View().Keys, key, it)
    {
      hide FlagsOk, IsSeek, Clear, Overlay, LiveBase, LiveCached;
      var known;
      it, known := FirstNotDeleted(key);
      if it.None? || (it.value != key && !known) {
        var pit := FirstBaseNotDeleted(key);
        SeekBoth(base.kv, cache, key, it, pit);
        if pit.Some? && (it.None? || Less(pit.value, it.value)) {
          ghost var before := cache;
          Emplace(pit.value);
          GrownShows(base.kv, before, cache, []);
          it := pit;
        }
      } else {
        SeekKnown(base.kv, cache, key, it.value);
      }
    }

    /** Makes sure the neighbour after `x` is cached and known; none when `x` is the last of all keys. */
    method LearnNext(x: Bytes) returns (more: bool)
      requires Valid() && x in cache
      modifies this
      ensures Valid() && View() == old(View()) && Everything(base.kv, cache) == old(Everything(base.kv, cache))
      ensures x in cache && more == cache[x].nextInCache && (!more ==> IsNext(Everything(base.kv, cache), x, None))
    {
      hide FlagsOk, IsNext, Overlay, NextKnown, PrevKnown, Neighbours;
      if cache[x].nextInCache {
        return true;
      }
      ghost var before := cache;
      var pending := NextKey(cache.Keys, x);
      var pit := NextKey(base.kv.Keys, x);
      NextOfTwo(base.kv, cache, x, pit, pending);
      if pit.None? && pending.None? {
        return false;
      }
      var key := if pit.None? || (pending.Some? && Less(pending.value, pit.value)) then pending.value else pit.value;
      if key in base.kv {
        Emplace(key);
      }
      assert Everything(base.kv, cache) == Everything(base.kv, before);
      KnownPair(base.kv, cache, x, key);
      FlagsLink(base.kv, cache, x, key);
      cache := Neighbours(cache, x, key);
      GrownShows(base.kv, before, cache, []);
      return true;
    }

    /** operator++ from an entry: the next key of the map the session shows, or the end. */
    method MoveNext(key: Bytes) returns (it: Option<Bytes>)
      requires Valid() && key in cache
      modifies this
      ensures Valid() && View() == old(View()) && IsNext(View().Keys, key, it)
    {
      hide CacheOk, IsNext, Overlay, Walked;
      it := Some(key);
      ghost var all, keys := Everything(base.kv, cache), View().Keys;
      WalkStart(keys, key);
      while true
        invariant Valid() && View() == old(View()) && Everything(base.kv, cache) == all
        invariant it.Some? && it.value in cache && Walked(keys, key, it.value)
        decreases From(all, it)
      {
        var more := LearnNext(it.value);
        if !more {
          WalkOver(base.kv, cache, key, it.value);
          return None;
        }
        var next := NextKey(cache.Keys, it.value);
        WalkStep(base.kv, cache, key, it.value, next);
        it := next;
        if !cache[it.value].slot.deleted {
          return;
        }
      }
    }
  }

  /** Before the first cached key nothing is known to lie. */
  lemma FirstHasNoPrevious(m: Store, cache: Cache, key: Bytes, next: Option<Bytes>)
    requires FlagsOk(m, cache) && key !in cache && IsPrev(cache.Keys, key, None) && IsNext(cache.Keys, key, next)
    ensures next.Some? ==> next.value in cache && !cache[next.value].previousInCache
  {
    hide Less;
    Order();
  }

  lemma FlagsBetween(m: Store, cache: Cache, key: Bytes, prev: Bytes)
    requires FlagsOk(m, cache) && key !in cache && prev in cache && IsPrev(cache.Keys, key, Some(prev))
    requires cache[prev].nextInCache
    ensures FlagsOk(m, cache[key := ValueState(Clean([]), true, true)])
  {
    hide NextKnown, PrevKnown, IsPrev;
    var inserted := cache[key := ValueState(Clean([]), false, false)];
    FlagsInsert(m, cache, key, Clean([]));
    BetweenKnown(m, cache, key, prev);
    assert inserted.Keys == cache.Keys + {key};
    FlagsSet(m, inserted, key, ValueState(Clean([]), true, true));
    assert inserted[key := ValueState(Clean([]), true, true)] == cache[key := ValueState(Clean([]), true, true)];
  }

  lemma GrownInsert(m: Store, a: Cache, key: Bytes, v: ValueState)
    ensures Grown(m, a, a, key)
    ensures key !in a ==> Grown(m, a, a[key := v], key)
  {
  }

  lemma GrownFurther(m: Store, a: Cache, b: Cache, c: Cache, key: Bytes)
    requires Grown(m, a, b, key) && Grown(m, b, c, key) && key in b
    ensures Grown(m, a, c, key) && key in c && c[key].slot == b[key].slot
  {
  }

  lemma FlagsNone(m: Store)
    ensures FlagsOk(m, map[])
  {
  }

  lemma NeighbourKey(keys: set<Bytes>, k: Bytes, r: Option<Bytes>)
    requires IsNext(keys, k, r) || IsPrev(keys, k, r)
    ensures r.Some? ==> r.value in keys && r.value != k
  {
    Irreflexive(k);
  }
}
