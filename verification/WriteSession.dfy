/** A write-back cache over the database, with the list of changed entries threaded through it. */
module ChainKvSession {
  import opened Options
  import opened ByteKeys
  import opened UndoLog
  import opened KvDatabase
  import opened WriteCache
  import opened ChainKvUndo

  /** The map a session stands for: cached values, and the database where nothing is cached. */
  ghost function ViewOf(kv: Store, cache: Cache): Store {
    map k | k in kv.Keys + cache.Keys && Seen(kv, cache, k).Some? :: Seen(kv, cache, k).value
  }

  function Seen(kv: Store, cache: Cache, k: Bytes): Option<Bytes> {
    if k in cache then cache[k].current else Find(kv, k)
  }

  lemma ViewFind(kv: Store, cache: Cache, k: Bytes)
    ensures Find(ViewOf(kv, cache), k) == Seen(kv, cache, k)
  {
  }

  /** Changing what one key shows changes the map at that key only. */
  lemma ViewChange(kv: Store, cache: Cache, cache': Cache, k: Bytes, v: Option<Bytes>)
    requires forall x :: Seen(kv, cache', x) == if x == k then v else Seen(kv, cache, x)
    ensures ViewOf(kv, cache') == Assign(ViewOf(kv, cache), k, v)
  {
    hide ViewOf, Seen, Assign;
    forall x ensures Find(ViewOf(kv, cache'), x) == Find(Assign(ViewOf(kv, cache), k, v), x) {
      ViewFind(kv, cache, x);
      ViewFind(kv, cache', x);
      AssignFind(ViewOf(kv, cache), k, v, x);
    }
    SameStore(ViewOf(kv, cache'), Assign(ViewOf(kv, cache), k, v));
  }

  lemma ViewKept(kv: Store, cache: Cache, cache': Cache)
    requires forall x :: Seen(kv, cache', x) == Seen(kv, cache, x)
    ensures ViewOf(kv, cache') == ViewOf(kv, cache)
  {
    hide ViewOf, Seen;
    forall x ensures Find(ViewOf(kv, cache'), x) == Find(ViewOf(kv, cache), x) {
      ViewFind(kv, cache, x);
      ViewFind(kv, cache', x);
    }
    SameStore(ViewOf(kv, cache'), ViewOf(kv, cache));
  }

  /** Entries stay in the cache, and an entry that held a value is unchanged in that or counts an erasure. */
  ghost predicate Evolves(a: Cache, b: Cache) {
    forall k :: k in a ==>
      && k in b && a[k].numErases <= b[k].numErases
      && (a[k].numErases == b[k].numErases && a[k].current.Some? ==> b[k].current.Some?)
  }

  ghost predicate CacheOk(kv: Store, cache: Cache, changeList: Option<Bytes>, order: seq<Bytes>) {
    && Linked(cache, changeList, order)
    && (forall k :: k in cache ==>
          && cache[k].orig == Find(kv, k)
          && (cache[k].inChangeList <==> k in order)
          && (k !in order ==> cache[k].current == cache[k].orig))
  }

  /** Adding an entry, not on the list, that only repeats the database. */
  lemma CacheFill(kv: Store, cache: Cache, changeList: Option<Bytes>, order: seq<Bytes>, k: Bytes)
    requires CacheOk(kv, cache, changeList, order) && k !in cache
    ensures var cache' := cache[k := CachedValue(0, Find(kv, k), Find(kv, k), false, None)];
            CacheOk(kv, cache', changeList, order) && ViewOf(kv, cache') == ViewOf(kv, cache) && Evolves(cache, cache')
  {
    ViewKept(kv, cache, cache[k := CachedValue(0, Find(kv, k), Find(kv, k), false, None)]);
  }

  /** The entry with `k` put at the head of the list unless it is on it. */
  function Listed(cache: Cache, changeList: Option<Bytes>, k: Bytes): Cache
    requires k in cache
  {
    if cache[k].inChangeList then cache
    else cache[k := cache[k].(inChangeList := true, next := changeList)]
  }

  /** Giving `k` a new value, from an entry or from the database, and listing it. */
  lemma CacheChange(kv: Store, cache: Cache, changeList: Option<Bytes>, order: seq<Bytes>, k: Bytes, c: CachedValue)
    requires CacheOk(kv, cache, changeList, order) && c.orig == Find(kv, k)
    requires if k in cache then c.next == cache[k].next && c.inChangeList == cache[k].inChangeList else !c.inChangeList
    requires k in cache ==> c.numErases >= cache[k].numErases && (c.current.None? ==> c.numErases > cache[k].numErases)
    ensures var cache' := Listed(cache[k := c], changeList, k);
            var order' := if c.inChangeList then order else [k] + order;
            && CacheOk(kv, cache', Some(order'[0]), order')
            && (c.inChangeList ==> changeList == Some(order'[0])) && (!c.inChangeList ==> order'[0] == k)
            && ViewOf(kv, cache') == Assign(ViewOf(kv, cache), k, c.current) && Evolves(cache, cache')
  {
    hide ViewOf, Assign, Linked, CacheOk, Listed, Seen;
    var cache' := Listed(cache[k := c], changeList, k);
    LinkedChange(kv, cache, changeList, order, k, c);
    EntriesChange(kv, cache, changeList, order, k, c);
    ViewChange(kv, cache, cache', k, c.current);
  }

  lemma LinkedChange(kv: Store, cache: Cache, changeList: Option<Bytes>, order: seq<Bytes>, k: Bytes, c: CachedValue)
    requires CacheOk(kv, cache, changeList, order)
    requires if k in cache then c.next == cache[k].next && c.inChangeList == cache[k].inChangeList else !c.inChangeList
    ensures var order' := if c.inChangeList then order else [k] + order;
            && order' != [] && Linked(Listed(cache[k := c], changeList, k), Some(order'[0]), order')
            && (c.inChangeList ==> changeList == Some(order'[0])) && (!c.inChangeList ==> order'[0] == k)
  {
    if c.inChangeList {
      assert k in order;
    } else {
      var cache', order' := Listed(cache[k := c], changeList, k), [k] + order;
      assert k !in order;
      forall i | 0 <= i < |order'| ensures order'[i] in cache' && cache'[order'[i]].next == Link(order', i + 1) {
        if i > 0 {
          assert order'[i] == order[i - 1] && order[i - 1] != k;
        }
      }
      forall i, j | 0 <= i < j < |order'| ensures order'[i] != order'[j] {
        assert order'[j] == order[j - 1] && order[j - 1] in order;
      }
    }
  }

  lemma EntriesChange(kv: Store, cache: Cache, changeList: Option<Bytes>, order: seq<Bytes>, k: Bytes, c: CachedValue)
    requires CacheOk(kv, cache, changeList, order) && c.orig == Find(kv, k)
    requires if k in cache then c.next == cache[k].next && c.inChangeList == cache[k].inChangeList else !c.inChangeList
    requires k in cache ==> c.numErases >= cache[k].numErases && (c.current.None? ==> c.numErases > cache[k].numErases)
    requires Linked(Listed(cache[k := c], changeList, k), if c.inChangeList then changeList else Some(k),
                    if c.inChangeList then order else [k] + order)
    ensures var cache' := Listed(cache[k := c], changeList, k);
            && CacheOk(kv, cache', if c.inChangeList then changeList else Some(k), if c.inChangeList then order else [k] + order)
            && Evolves(cache, cache')
            && forall x :: Seen(kv, cache', x) == if x == k then c.current else Seen(kv, cache, x)
  {
    hide Linked;
  }

  class WriteSession {
    const db: Database
    var cache: Cache
    var changeList: Option<Bytes>
    ghost var order: seq<Bytes>

    ghost predicate Valid()
      reads this, db
    {
      CacheOk(db.kv, cache, changeList, order)
    }

    ghost function View(): Store
      reads this, db
    {
      ViewOf(db.kv, cache)
    }

    constructor (db: Database)
      ensures Valid() && this.db == db && View() == db.kv && cache == map[]
    {
      this.db := db;
      cache, changeList, order := map[], None, [];
    }

    /** Put the entry on the change list unless it is there. */
    method Changed(k: Bytes)
      requires k in cache
      modifies this
      ensures cache == Listed(old(cache), old(changeList), k)
      ensures changeList == if old(cache)[k].inChangeList then old(changeList) else Some(k)
      ensures order == if old(cache)[k].inChangeList then old(order) else [k] + old(order)
    {
      if cache[k].inChangeList {
        return;
      }
      cache := cache[k := cache[k].(inChangeList := true, next := changeList)];
      changeList := Some(k);
      order := [k] + order;
    }

    method Get(k: Bytes) returns (v: Option<Bytes>)
      requires Valid()
      modifies this
      ensures Valid() && Evolves(old(cache), cache)
      ensures v == Find(View(), k) && View() == old(View())
    {
      hide CacheOk, ViewOf;
      ViewFind(db.kv, cache, k);
      if k in cache {
        return cache[k].current;
      }
      v := Find(db.kv, k);
      if v.Some? {
        CacheFill(db.kv, cache, changeList, order, k);
        cache := cache[k := CachedValue(0, v, v, false, None)];
      }
    }

    method Set(k: Bytes, v: Bytes)
      requires Valid()
      modifies this
      ensures Valid() && Evolves(old(cache), cache)
      ensures View() == old(View())[k := v]
    {
      hide CacheOk, ViewOf;
      ViewFind(db.kv, cache, k);
      if k in cache {
        if cache[k].current.None? || cache[k].current.value != v {
          EntryOk(db.kv, cache, changeList, order, k);
          CacheChange(db.kv, cache, changeList, order, k, cache[k].(current := Some(v)));
          cache := cache[k := cache[k].(current := Some(v))];
          Changed(k);
        }
        return;
      }
      var orig := Find(db.kv, k);
      if orig == Some(v) {
        CacheFill(db.kv, cache, changeList, order, k);
        cache := cache[k := CachedValue(0, orig, orig, false, None)];
      } else {
        CacheChange(db.kv, cache, changeList, order, k, CachedValue(0, orig, Some(v), false, None));
        cache := cache[k := CachedValue(0, orig, Some(v), false, None)];
        Changed(k);
      }
    }

    method Erase(k: Bytes)
      requires Valid()
      modifies this
      ensures Valid() && Evolves(old(cache), cache)
      ensures View() == old(View()) - {k}
      ensures k in old(cache) && old(cache)[k].current.Some? ==> cache[k].numErases == old(cache)[k].numErases + 1
    {
      hide CacheOk, ViewOf;
      ViewFind(db.kv, cache, k);
      if k in cache {
        if cache[k].current.Some? {
          EntryOk(db.kv, cache, changeList, order, k);
          var c := cache[k].(current := None, numErases := cache[k].numErases + 1);
          CacheChange(db.kv, cache, changeList, order, k, c);
          cache := cache[k := c];
          Changed(k);
        }
        return;
      }
      var orig := Find(db.kv, k);
      if orig.None? {
        CacheFill(db.kv, cache, changeList, order, k);
        cache := cache[k := CachedValue(0, None, None, false, None)];
      } else {
        CacheChange(db.kv, cache, changeList, order, k, CachedValue(1, orig, None, false, None));
        cache := cache[k := CachedValue(1, orig, None, false, None)];
        Changed(k);
      }
    }

    /** A pair read from the database enters the cache unless the key is there; changes stay. */
    method FillCache(k: Bytes, v: Bytes)
      requires Valid() && Find(db.kv, k) == Some(v)
      modifies this
      ensures Valid() && Evolves(old(cache), cache) && View() == old(View())
      ensures cache.Keys == old(cache.Keys) + {k}
    {
      hide CacheOk, ViewOf;
      if k !in cache {
        CacheFill(db.kv, cache, changeList, order, k);
        cache := cache[k := CachedValue(0, Some(v), Some(v), false, None)];
      }
    }

    /** The database becomes the map the session stood for, and the cache is empty again. */
    method WriteChanges(u: UndoStack)
      requires Valid() && u.Valid() && u.db == db
      requires forall k :: k in order ==> UserKey(u.prefix, k)
      requires u.state.next + |order| < SEGMENT_LIMIT
      modifies this, u, db
      ensures Valid() && u.Valid() && cache == map[]
      ensures u.Contents() == Users(u.prefix, old(View())) && u.base == old(u.base)
      ensures View() == db.kv
    {
      hide Users, UserKey, StackOk;
      ghost var view, kv := View(), db.kv;
      ghost var before := u.Contents();
      assert ChangesOk(u.prefix, db.kv, cache, order);
      u.WriteChanges(cache, changeList, order);
      forall k ensures Find(u.Contents(), k) == Find(Users(u.prefix, view), k) {
        UsersFind(u.prefix, view, k);
        UsersFind(u.prefix, kv, k);
        ViewFind(kv, cache, k);
        if k in order {
          ClientKey(u.prefix, k);
        }
      }
      SameStore(u.Contents(), Users(u.prefix, view));
      cache, changeList, order := map[], None, [];
    }
  }

  lemma EntryOk(kv: Store, cache: Cache, changeList: Option<Bytes>, order: seq<Bytes>, k: Bytes)
    requires CacheOk(kv, cache, changeList, order) && k in cache
    ensures cache[k].orig == Find(kv, k)
  {
  }
}
