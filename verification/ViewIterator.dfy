/**
 Iteration over the keys of a session under a prefix. Two cursors move together: one over the cache and one over
 the database, which brings the keys it passes into the cache.
 */
module ChainKvView {
  import opened Options
  import opened ByteKeys
  import opened SharedBytes
  import opened UndoLog
  import opened KvDatabase
  import opened WriteCache
  import opened ChainKvSession

  const LOW: Bytes := [0]
  const HIGH: Bytes := [255]

  predicate Between(a: Bytes, k: Bytes, b: Bytes) {
    !Less(k, a) && !Less(b, k)
  }

  /** Every database key between the two cursors is in the cache. */
  ghost predicate Bridged(kv: Store, cache: Cache, r: Bytes, c: Bytes) {
    && r in kv && c in cache
    && (forall k :: k in kv && (Between(r, k, c) || Between(c, k, r)) ==> k in cache)
  }

  ghost function Universe(kv: Store, cache: Cache): set<Bytes> {
    kv.Keys + cache.Keys
  }

  lemma SeekUniverse(kv: Store, cache: Cache, k: Bytes, r: Bytes, c: Bytes)
    requires IsSeek(kv.Keys, k, Some(r)) && r in cache && IsSeek(cache.Keys, k, Some(c))
    ensures IsSeek(Universe(kv, cache), k, Some(c)) && Bridged(kv, cache, r, c)
  {
    hide Less;
    Order();
  }

  /** The database cursor moves up one key while it is not above the cache cursor. */
  lemma BridgeUp(kv: Store, cache: Cache, cache': Cache, r: Bytes, r': Bytes, c: Bytes)
    requires Bridged(kv, cache, r, c) && !Less(c, r) && IsNext(kv.Keys, r, Some(r'))
    requires cache'.Keys == cache.Keys + {r'}
    ensures Bridged(kv, cache', r', c)
  {
    hide Less;
    Order();
  }

  lemma BridgeDown(kv: Store, cache: Cache, cache': Cache, r: Bytes, r': Bytes, c: Bytes)
    requires Bridged(kv, cache, r, c) && !Less(r, c) && IsPrev(kv.Keys, r, Some(r'))
    requires cache'.Keys == cache.Keys + {r'}
    ensures Bridged(kv, cache', r', c)
  {
    hide Less;
    Order();
  }

  /** With the database cursor ahead, the next cached key is the next of all keys. */
  lemma NextUniverse(kv: Store, cache: Cache, r: Bytes, c: Bytes, c': Option<Bytes>)
    requires Bridged(kv, cache, r, c) && Less(c, r) && IsNext(cache.Keys, c, c')
    ensures c'.Some? && IsNext(Universe(kv, cache), c, c') && Bridged(kv, cache, r, c'.value)
  {
    hide Less;
    Order();
    assert Between(c, r, r);
    assert c'.Some?;
    forall x | x in Universe(kv, cache) && Less(x, c'.value) ensures !Less(c, x) {
      assert Between(c, x, r) <==> !Less(x, c) && !Less(r, x);
    }
  }

  lemma PrevUniverse(kv: Store, cache: Cache, r: Bytes, c: Bytes, c': Option<Bytes>)
    requires Bridged(kv, cache, r, c) && Less(r, c) && IsPrev(cache.Keys, c, c')
    ensures c'.Some? && IsPrev(Universe(kv, cache), c, c') && Bridged(kv, cache, r, c'.value)
  {
    hide Less;
    Order();
    assert Between(r, r, c);
    assert c'.Some?;
    forall x | x in Universe(kv, cache) && Less(c'.value, x) ensures !Less(x, c) {
      assert Between(r, x, c) <==> !Less(x, r) && !Less(c, x);
    }
  }

  ghost function Above(keys: set<Bytes>, c: Bytes): set<Bytes> {
    set k | k in keys && Less(c, k)
  }

  ghost function Below(keys: set<Bytes>, c: Bytes): set<Bytes> {
    set k | k in keys && Less(k, c)
  }

  lemma AboveShrinks(keys: set<Bytes>, c: Bytes, c': Bytes)
    requires c' in keys && Less(c, c')
    ensures Above(keys, c') < Above(keys, c)
  {
    hide Less;
    Order();
    assert c' in Above(keys, c) && c' !in Above(keys, c');
  }

  lemma BelowShrinks(keys: set<Bytes>, c: Bytes, c': Bytes)
    requires c' in keys && Less(c', c)
    ensures Below(keys, c') < Below(keys, c)
  {
    hide Less;
    Order();
    assert c' in Below(keys, c) && c' !in Below(keys, c');
  }

  /** A prefix that starts between the sentinels has a next prefix, and both lie between the sentinels. */
  lemma PrefixBounds(prefix: Bytes)
    requires prefix != [] && 0 < prefix[0] < 255
    ensures var n := NextPrefix(prefix);
            && n != [] && Less(LOW, n) && !Less(HIGH, n) && Less(LOW, prefix) && Less(prefix, n) && !Less(HIGH, prefix)
    ensures forall k :: prefix <= k ==> Less(LOW, k) && Less(k, HIGH)
  {
    var n := NextPrefix(prefix);
    NextPrefixShape(prefix);
    assert n != [];
    PrefixRange(prefix, prefix);
    forall k | prefix <= k ensures Less(LOW, k) && Less(k, HIGH) {
      assert k[0] == prefix[0];
      LessHead(LOW, k);
      LessHead(k, HIGH);
    }
    Transitive(LOW, prefix, n);
    LessHead(HIGH, prefix);
    LessHead(HIGH, n);
    if n[0] == 255 {
      assert n[..|n| - 1] <= prefix;
      assert n == HIGH;
      Irreflexive(HIGH);
    }
  }

  ghost function Under(keys: set<Bytes>, prefix: Bytes): set<Bytes> {
    set k | k in keys && prefix <= k
  }

  /** Clipping the next key to the prefix gives the next key under the prefix. */
  lemma ClipNext(keys: set<Bytes>, prefix: Bytes, k: Bytes, c: Bytes)
    requires prefix != [] && 0 < prefix[0] < 255
    requires IsNext(keys, k, Some(c)) && !Less(k, prefix)
    ensures IsNext(Under(keys, prefix), k, if Less(c, NextPrefix(prefix)) then Some(c) else None)
    ensures Less(c, NextPrefix(prefix)) ==> prefix <= c
  {
    hide Less;
    Order();
    PrefixBounds(prefix);
    PrefixRange(prefix, c);
    forall x | x in Under(keys, prefix) ensures Less(x, NextPrefix(prefix)) {
      PrefixRange(prefix, x);
    }
  }

  lemma ClipSeek(keys: set<Bytes>, prefix: Bytes, k: Bytes, c: Bytes)
    requires prefix != [] && 0 < prefix[0] < 255
    requires IsSeek(keys, k, Some(c)) && !Less(k, prefix)
    ensures IsSeek(Under(keys, prefix), k, if Less(c, NextPrefix(prefix)) then Some(c) else None)
    ensures Less(c, NextPrefix(prefix)) ==> prefix <= c
  {
    hide Less;
    Order();
    PrefixBounds(prefix);
    PrefixRange(prefix, c);
    forall x | x in Under(keys, prefix) ensures Less(x, NextPrefix(prefix)) {
      PrefixRange(prefix, x);
    }
  }

  lemma ClipPrev(keys: set<Bytes>, prefix: Bytes, k: Bytes, c: Bytes)
    requires prefix != [] && 0 < prefix[0] < 255
    requires IsPrev(keys, k, Some(c)) && !Less(NextPrefix(prefix), k)
    ensures IsPrev(Under(keys, prefix), k, if Less(c, prefix) then None else Some(c))
    ensures !Less(c, prefix) ==> prefix <= c
  {
    hide Less;
    Order();
    PrefixBounds(prefix);
    PrefixRange(prefix, c);
    forall x | x in Under(keys, prefix) ensures !Less(x, prefix) {
      PrefixRange(prefix, x);
    }
  }

  /** The cursors agree and the entry of the cache cursor is as it was when the cursor reached it, or counts an erasure. */
  ghost predicate CursorOk(kv: Store, cache: Cache, prefix: Bytes, r: Bytes, c: Option<Bytes>, numErases: nat) {
    r in kv &&
    (c.Some? ==>
       && prefix <= c.value && Bridged(kv, cache, r, c.value)
       && numErases <= cache[c.value].numErases
       && (numErases == cache[c.value].numErases ==> cache[c.value].current.Some?))
  }

  /** What other users of the session do to the cache leaves a cursor in order. */
  lemma CursorKept(kv: Store, cache: Cache, cache': Cache, prefix: Bytes, r: Bytes, c: Option<Bytes>, numErases: nat)
    requires CursorOk(kv, cache, prefix, r, c, numErases) && Evolves(cache, cache')
    ensures CursorOk(kv, cache', prefix, r, c, numErases)
  {
    hide Less;
  }

  /** create_full_key: the contract number follows the prefix in big-endian order. */
  function FullKey(viewPrefix: Bytes, contract: nat, key: Bytes): Bytes {
    viewPrefix + ToBigEndian(contract, 8) + key
  }

  lemma FullKeyBytes(viewPrefix: Bytes, contract: nat, key: Bytes)
    requires contract < Pow256(8)
    ensures var k, n := FullKey(viewPrefix, contract, key), |viewPrefix|;
            |k| == n + 8 + |key| && k[..n] == viewPrefix && BigEndian(k[n..n + 8]) == contract && k[n + 8..] == key
  {
    BigEndianInverse(contract, 8);
    assert FullKey(viewPrefix, contract, key)[|viewPrefix|..|viewPrefix| + 8] == ToBigEndian(contract, 8);
  }

  lemma FullKeyHead(viewPrefix: Bytes, contract: nat, key: Bytes)
    requires viewPrefix != []
    ensures var k := FullKey(viewPrefix, contract, key); |k| >= |viewPrefix| + 8 && k[0] == viewPrefix[0]
  {
  }

  class ViewIterator {
    const session: WriteSession
    const prefix: Bytes
    const hidden: nat
    var cacheIt: Option<Bytes>
    var numErases: nat
    var rocksIt: Bytes

    ghost predicate Core()
      reads this, session, session.db
    {
      && session.Valid() && prefix != [] && 0 < prefix[0] < 255 && 0 < hidden <= |prefix|
      && LOW in session.db.kv && HIGH in session.db.kv && LOW in session.View() && HIGH in session.View()
    }

    ghost predicate Valid()
      reads this, session, session.db
    {
      Core() && CursorOk(session.db.kv, session.cache, prefix, rocksIt, cacheIt, numErases)
    }

    /** The keys the iterator is over. */
    ghost function Keys(): set<Bytes>
      reads this, session, session.db
    {
      Under(session.View().Keys, prefix)
    }

    predicate IsErased()
      reads this, session
    {
      cacheIt.Some? && cacheIt.value in session.cache && numErases != session.cache[cacheIt.value].numErases
    }

    constructor (session: WriteSession, viewPrefix: Bytes, contract: nat, prefix: Bytes)
      requires session.Valid() && viewPrefix != [] && 0 < viewPrefix[0] < 255
      requires LOW in session.db.kv && HIGH in session.db.kv && LOW in session.View() && HIGH in session.View()
      modifies session
      ensures Valid() && this.session == session && cacheIt == None
      ensures this.prefix == FullKey(viewPrefix, contract, prefix) && hidden == |viewPrefix| + 8
      ensures session.View() == old(session.View()) && Evolves(old(session.cache), session.cache)
    {
      hide Less, CacheOk, ViewOf, FullKey, NextPrefix, IsSeek, IsPrev, Evolves, Bridged;
      this.session := session;
      this.prefix, hidden := FullKey(viewPrefix, contract, prefix), |viewPrefix| + 8;
      cacheIt, numErases := None, 0;
      rocksIt := LOW;
      FullKeyHead(viewPrefix, contract, prefix);
      new;
      PrefixBounds(this.prefix);
      ghost var start, kv := session.cache, session.db.kv;
      var at := Seek(session.db.kv.Keys, this.prefix);
      SeekFound(kv, this.prefix, at);
      session.FillCache(at.value, session.db.kv[at.value]);
      ghost var first := session.cache;
      var before := PrevKey(session.db.kv.Keys, at.value);
      PrevFound(kv, this.prefix, at.value, before);
      session.FillCache(before.value, session.db.kv[before.value]);
      EvolvesFurther(start, first, session.cache);
      ghost var second := session.cache;
      var next := Seek(session.db.kv.Keys, NextPrefix(this.prefix));
      SeekFound(kv, NextPrefix(this.prefix), next);
      session.FillCache(next.value, session.db.kv[next.value]);
      EvolvesFurther(start, second, session.cache);
      rocksIt := next.value;
    }

    /** The database cursor moves above the cache cursor, caching what it passes. */
    method RocksAhead(c: Bytes)
      requires Core() && Bridged(session.db.kv, session.cache, rocksIt, c) && Less(c, HIGH)
      modifies this`rocksIt, session
      ensures Core() && Bridged(session.db.kv, session.cache, rocksIt, c) && Less(c, rocksIt)
      ensures session.View() == old(session.View())
      ensures Universe(session.db.kv, session.cache) == old(Universe(session.db.kv, session.cache))
      ensures Evolves(old(session.cache), session.cache)
    {
      hide Less, CacheOk, ViewOf;
      Order();
      while !Less(c, rocksIt)
        invariant Core() && Bridged(session.db.kv, session.cache, rocksIt, c)
        invariant session.View() == old(session.View())
        invariant Universe(session.db.kv, session.cache) == old(Universe(session.db.kv, session.cache))
        invariant Evolves(old(session.cache), session.cache)
        decreases Above(session.db.kv.Keys, rocksIt)
      {
        ghost var before := session.cache;
        var next := NextKey(session.db.kv.Keys, rocksIt);
        assert HIGH in session.db.kv.Keys && Less(rocksIt, HIGH);
        AboveShrinks(session.db.kv.Keys, rocksIt, next.value);
        session.FillCache(next.value, session.db.kv[next.value]);
        BridgeUp(session.db.kv, before, session.cache, rocksIt, next.value, c);
        rocksIt := next.value;
      }
    }

    method RocksBehind(c: Bytes)
      requires Core() && Bridged(session.db.kv, session.cache, rocksIt, c) && Less(LOW, c)
      modifies this`rocksIt, session
      ensures Core() && Bridged(session.db.kv, session.cache, rocksIt, c) && Less(rocksIt, c)
      ensures session.View() == old(session.View())
      ensures Universe(session.db.kv, session.cache) == old(Universe(session.db.kv, session.cache))
      ensures Evolves(old(session.cache), session.cache)
    {
      hide Less, CacheOk, ViewOf;
      Order();
      while !Less(rocksIt, c)
        invariant Core() && Bridged(session.db.kv, session.cache, rocksIt, c)
        invariant session.View() == old(session.View())
        invariant Universe(session.db.kv, session.cache) == old(Universe(session.db.kv, session.cache))
        invariant Evolves(old(session.cache), session.cache)
        decreases Below(session.db.kv.Keys, rocksIt)
      {
        ghost var before := session.cache;
        var prev := PrevKey(session.db.kv.Keys, rocksIt);
        assert LOW in session.db.kv.Keys && Less(LOW, rocksIt);
        BelowShrinks(session.db.kv.Keys, rocksIt, prev.value);
        session.FillCache(prev.value, session.db.kv[prev.value]);
        BridgeDown(session.db.kv, before, session.cache, rocksIt, prev.value, c);
        rocksIt := prev.value;
      }
    }

    /** From `from` up to the next live key. */
    method Forward(from: Bytes) returns (c: Bytes)
      requires Core() && Bridged(session.db.kv, session.cache, rocksIt, from) && Less(from, HIGH)
      modifies this`rocksIt, session
      ensures Core() && Bridged(session.db.kv, session.cache, rocksIt, c) && session.cache[c].current.Some?
      ensures session.View() == old(session.View()) && IsNext(session.View().Keys, from, Some(c))
      ensures Evolves(old(session.cache), session.cache)
    {
      hide Less, CacheOk, ViewOf, Universe, Bridged;
      ghost var all, view := Universe(session.db.kv, session.cache), session.View();
      c := from;
      var found := false;
      StartForward(view.Keys, from);
      BridgedCached(session.db.kv, session.cache, rocksIt, c);
      while !found
        invariant Core() && Bridged(session.db.kv, session.cache, rocksIt, c)
        invariant session.View() == view && Universe(session.db.kv, session.cache) == all
        invariant Evolves(old(session.cache), session.cache)
        invariant Passed(view.Keys, from, c)
        invariant !found ==> Less(c, HIGH) && (c == from || c !in view)
        invariant found ==> Less(from, c) && c in session.cache && session.cache[c].current.Some?
        decreases !found, Above(all, c)
      {
        RocksAhead(c);
        var next := NextKey(session.cache.Keys, c);
        NextUniverse(session.db.kv, session.cache, rocksIt, c, next);
        PassNext(session.db.kv, session.cache, from, c, next.value);
        AboveShrinks(all, c, next.value);
        c := next.value;
        found := session.cache[c].current.Some?;
      }
      PassedAll(session.db.kv, session.cache, from, c);
    }

    method Backward(from: Bytes) returns (c: Bytes)
      requires Core() && Bridged(session.db.kv, session.cache, rocksIt, from) && Less(LOW, from)
      modifies this`rocksIt, session
      ensures Core() && Bridged(session.db.kv, session.cache, rocksIt, c) && session.cache[c].current.Some?
      ensures session.View() == old(session.View()) && IsPrev(session.View().Keys, from, Some(c))
      ensures Evolves(old(session.cache), session.cache)
    {
      hide Less, CacheOk, ViewOf, Universe, Bridged;
      ghost var all, view := Universe(session.db.kv, session.cache), session.View();
      c := from;
      var found := false;
      StartBack(view.Keys, from);
      BridgedCached(session.db.kv, session.cache, rocksIt, c);
      while !found
        invariant Core() && Bridged(session.db.kv, session.cache, rocksIt, c)
        invariant session.View() == view && Universe(session.db.kv, session.cache) == all
        invariant Evolves(old(session.cache), session.cache)
        invariant PassedBack(view.Keys, from, c)
        invariant !found ==> Less(LOW, c) && (c == from || c !in view)
        invariant found ==> Less(c, from) && c in session.cache && session.cache[c].current.Some?
        decreases !found, Below(all, c)
      {
        RocksBehind(c);
        var prev := PrevKey(session.cache.Keys, c);
        PrevUniverse(session.db.kv, session.cache, rocksIt, c, prev);
        PassPrev(session.db.kv, session.cache, from, c, prev.value);
        BelowShrinks(all, c, prev.value);
        c := prev.value;
        found := session.cache[c].current.Some?;
      }
      PassedBackAll(session.db.kv, session.cache, from, c);
    }

    /** Both cursors at the first key not below `k`, cached and uncached alike. */
    method SeekBoth(k: Bytes) returns (c: Bytes)
      requires Core() && !Less(HIGH, k)
      modifies this`rocksIt, session
      ensures Core() && Bridged(session.db.kv, session.cache, rocksIt, c)
      ensures IsSeek(Universe(session.db.kv, session.cache), k, Some(c)) && session.View() == old(session.View())
      ensures Evolves(old(session.cache), session.cache)
    {
      hide Less, CacheOk, ViewOf, IsSeek, Evolves, Universe, Bridged;
      var r := Seek(session.db.kv.Keys, k);
      SeekFound(session.db.kv, k, r);
      session.FillCache(r.value, session.db.kv[r.value]);
      rocksIt := r.value;
      if r.value != k {
        var least := Seek(session.cache.Keys, k);
        CachedFound(session.cache, k, r.value, least);
        c := least.value;
      } else {
        SeekExact(session.cache.Keys, k);
        c := k;
      }
      SeekUniverse(session.db.kv, session.cache, k, r.value, c);
    }

    /** To the least key under the prefix that is not below `fullKey`, or to the end. */
    method LowerBoundFullKey(fullKey: Bytes)
      requires Core() && !Less(fullKey, prefix) && Less(fullKey, HIGH)
      modifies this, session
      ensures Valid() && !IsErased() && session.View() == old(session.View()) && Evolves(old(session.cache), session.cache)
      ensures IsSeek(Keys(), fullKey, cacheIt)
    {
      hide Less, CacheOk, ViewOf, IsSeek, IsNext, Evolves, Universe, Bridged;
      ghost var start := session.cache;
      Asymmetric(fullKey, HIGH);
      var c := SeekBoth(fullKey);
      ghost var middle, first := session.cache, c;
      BridgedCached(session.db.kv, session.cache, rocksIt, c);
      if session.cache[c].current.None? {
        NotYetHigh(session.db.kv, session.cache, fullKey, c);
        c := Forward(c);
        EvolvesFurther(start, middle, session.cache);
      }
      SeekLive(session.db.kv, middle, fullKey, first, c);
      BridgedCached(session.db.kv, session.cache, rocksIt, c);
      ClipSeek(session.View().Keys, prefix, fullKey, c);
      cacheIt := if Less(c, NextPrefix(prefix)) then Some(c) else None;
      if cacheIt.Some? {
        numErases := session.cache[c].numErases;
      }
    }

    method MoveToBegin()
      requires Core()
      modifies this, session
      ensures Valid() && !IsErased() && session.View() == old(session.View()) && Evolves(old(session.cache), session.cache)
      ensures IsSeek(Keys(), prefix, cacheIt)
    {
      hide Less, CacheOk, ViewOf, IsSeek, Evolves, CursorOk;
      PrefixBounds(prefix);
      Irreflexive(prefix);
      LowerBoundFullKey(prefix);
    }

    method MoveToEnd()
      requires Valid()
      modifies this
      ensures Valid() && cacheIt == None
    {
      cacheIt := None;
    }

    /** To the least key under the prefix that is not below `key`, which comes without the hidden part of the prefix. */
    method LowerBound(key: Bytes)
      requires Core()
      modifies this, session
      ensures Valid() && !IsErased() && session.View() == old(session.View()) && Evolves(old(session.cache), session.cache)
      ensures IsSeek(Keys(), prefix[..hidden] + key, cacheIt)
    {
      hide Less, CacheOk, ViewOf, IsSeek, Evolves, CursorOk;
      var tail := prefix[hidden..];
      var x := CompareBlob(key, tail);
      var fullKey := prefix[..hidden] + if x < 0 then tail else key;
      LowerBoundKey(prefix, hidden, key, fullKey);
      LowerBoundFullKey(fullKey);
      SeekFromPrefix(session.View().Keys, prefix, prefix[..hidden] + key, fullKey, cacheIt);
    }

    /** The pair the iterator is at, nothing at the end; an error where the value was erased. */
    method GetKv() returns (ok: bool, kv: Option<(Bytes, Bytes)>)
      requires Valid()
      ensures ok <==> !IsErased()
      ensures ok ==> (kv.None? <==> cacheIt.None?)
      ensures ok && kv.Some? ==>
                var full := prefix[..hidden] + kv.value.0;
                cacheIt == Some(full) && full in Keys() && session.View()[full] == kv.value.1
    {
      hide Less, CacheOk;
      if cacheIt.None? {
        return true, None;
      }
      var c := cacheIt.value;
      if numErases != session.cache[c].numErases {
        return false, None;
      }
      assert prefix[..hidden] + c[hidden..] == c;
      ViewFind(session.db.kv, session.cache, c);
      return true, Some((c[hidden..], session.cache[c].current.value));
    }

    /** operator++: from the end to the least key, from a key to the next one or to the end. */
    method Next() returns (ok: bool)
      requires Valid()
      modifies this, session
      ensures Valid() && ok == !old(IsErased()) && session.View() == old(session.View())
      ensures Evolves(old(session.cache), session.cache)
      ensures !ok ==> cacheIt == old(cacheIt) && session.cache == old(session.cache)
      ensures ok ==> !IsErased() && if old(cacheIt).None? then IsSeek(Keys(), prefix, cacheIt)
                                    else IsNext(Keys(), old(cacheIt).value, cacheIt)
    {
      hide Less, CacheOk, ViewOf, IsSeek, IsNext, Evolves, Universe, Bridged;
      if cacheIt.None? {
        MoveToBegin();
        return true;
      }
      var from := cacheIt.value;
      BridgedCached(session.db.kv, session.cache, rocksIt, from);
      if numErases != session.cache[from].numErases {
        EvolvesNot(session.cache);
        return false;
      }
      PrefixBounds(prefix);
      PrefixNotLess(prefix, from);
      var c := Forward(from);
      BridgedCached(session.db.kv, session.cache, rocksIt, c);
      ClipNext(session.View().Keys, prefix, from, c);
      cacheIt := if Less(c, NextPrefix(prefix)) then Some(c) else None;
      if cacheIt.Some? {
        numErases := session.cache[c].numErases;
      }
      return true;
    }

    /** operator--: from the end to the greatest key, from a key to the one before or to the end. */
    method Prev() returns (ok: bool)
      requires Valid()
      modifies this, session
      ensures Valid() && ok == !old(IsErased()) && session.View() == old(session.View())
      ensures Evolves(old(session.cache), session.cache)
      ensures !ok ==> cacheIt == old(cacheIt) && session.cache == old(session.cache)
      ensures ok ==> !IsErased() && IsPrev(Keys(), if old(cacheIt).None? then NextPrefix(prefix) else old(cacheIt).value, cacheIt)
    {
      hide Less, CacheOk, ViewOf, IsSeek, IsPrev, Evolves, Universe, Bridged;
      ghost var start, target := session.cache, if cacheIt.None? then NextPrefix(prefix) else cacheIt.value;
      var from;
      PrefixBounds(prefix);
      if cacheIt.None? {
        from := SeekBoth(NextPrefix(prefix));
        AboveLow(Universe(session.db.kv, session.cache), NextPrefix(prefix), from);
      } else {
        from := cacheIt.value;
        BridgedCached(session.db.kv, session.cache, rocksIt, from);
        EvolvesNot(session.cache);
        if numErases != session.cache[from].numErases {
          return false;
        }
      }
      ghost var middle, view := session.cache, session.View();
      var c := Backward(from);
      EvolvesFurther(start, middle, session.cache);
      BridgedCached(session.db.kv, session.cache, rocksIt, c);
      PrevFrom(session.db.kv, middle, prefix, target, from, c);
      ClipPrev(session.View().Keys, prefix, target, c);
      cacheIt := if Less(c, prefix) then None else Some(c);
      if cacheIt.Some? {
        numErases := session.cache[c].numErases;
      }
      return true;
    }
  }

  /** No key of `keys` above `from` has been passed over on the way up to `c`. */
  ghost predicate Passed(keys: set<Bytes>, from: Bytes, c: Bytes) {
    !Less(c, from) && forall x :: x in keys && Less(from, x) ==> !Less(x, c)
  }

  ghost predicate PassedBack(keys: set<Bytes>, from: Bytes, c: Bytes) {
    !Less(from, c) && forall x :: x in keys && Less(x, from) ==> !Less(c, x)
  }

  lemma StartForward(keys: set<Bytes>, from: Bytes)
    ensures Passed(keys, from, from)
  {
    hide Less;
    Order();
  }

  lemma StartBack(keys: set<Bytes>, from: Bytes)
    ensures PassedBack(keys, from, from)
  {
    hide Less;
    Order();
  }

  /** The sentinels keep the database cursor on a key. */
  lemma SeekFound(kv: Store, k: Bytes, r: Option<Bytes>)
    requires HIGH in kv && !Less(HIGH, k) && IsSeek(kv.Keys, k, r)
    ensures r.Some? && r.value in kv && !Less(r.value, k)
  {
    hide Less;
    assert HIGH in kv.Keys;
  }

  lemma PrevFound(kv: Store, p: Bytes, k: Bytes, r: Option<Bytes>)
    requires LOW in kv && Less(LOW, p) && !Less(k, p) && IsPrev(kv.Keys, k, r)
    ensures r.Some? && r.value in kv
  {
    hide Less;
    Order();
    assert LOW in kv.Keys;
  }

  lemma CachedFound(cache: Cache, k: Bytes, r: Bytes, least: Option<Bytes>)
    requires r in cache && !Less(r, k) && IsSeek(cache.Keys, k, least)
    ensures least.Some?
  {
    assert r in cache.Keys;
  }

  lemma SeekExact(keys: set<Bytes>, k: Bytes)
    requires k in keys
    ensures IsSeek(keys, k, Some(k))
  {
    hide Less;
    Order();
  }

  lemma Asymmetric(a: Bytes, b: Bytes)
    requires Less(a, b)
    ensures !Less(b, a)
  {
    hide Less;
    Order();
  }

  lemma NotYetHigh(kv: Store, cache: Cache, k: Bytes, c: Bytes)
    requires HIGH in ViewOf(kv, cache) && IsSeek(Universe(kv, cache), k, Some(c)) && Less(k, HIGH)
    requires c in cache && cache[c].current.None?
    ensures Less(c, HIGH)
  {
    hide Less;
    Order();
  }

  /** From the first of all keys, live or not, to the first live one. */
  lemma SeekLive(kv: Store, cache: Cache, k: Bytes, first: Bytes, c: Bytes)
    requires IsSeek(Universe(kv, cache), k, Some(first)) && first in cache
    requires if cache[first].current.Some? then c == first else IsNext(ViewOf(kv, cache).Keys, first, Some(c))
    ensures IsSeek(ViewOf(kv, cache).Keys, k, Some(c))
  {
    hide Less;
    Order();
  }

  lemma EvolvesNot(a: Cache)
    ensures Evolves(a, a)
  {
  }

  lemma AboveLow(keys: set<Bytes>, k: Bytes, c: Bytes)
    requires IsSeek(keys, k, Some(c)) && Less(LOW, k)
    ensures Less(LOW, c)
  {
    hide Less;
    Order();
  }

  /** Below the first of all keys not below the next prefix there are the same keys as below the next prefix. */
  lemma PrevFrom(kv: Store, cache: Cache, prefix: Bytes, target: Bytes, from: Bytes, c: Bytes)
    requires prefix != [] && 0 < prefix[0] < 255
    requires IsPrev(ViewOf(kv, cache).Keys, from, Some(c))
    requires || (target == from && prefix <= target)
             || (target == NextPrefix(prefix) && IsSeek(Universe(kv, cache), target, Some(from)))
    ensures IsPrev(ViewOf(kv, cache).Keys, target, Some(c)) && !Less(NextPrefix(prefix), target)
  {
    hide Less;
    Order();
    PrefixBounds(prefix);
    PrefixRange(prefix, target);
  }

  lemma LowerBoundKey(prefix: Bytes, hidden: nat, key: Bytes, fullKey: Bytes)
    requires prefix != [] && 0 < prefix[0] < 255 && 0 < hidden <= |prefix|
    requires fullKey == prefix[..hidden] + if Less(key, prefix[hidden..]) then prefix[hidden..] else key
    ensures !Less(fullKey, prefix) && Less(fullKey, HIGH)
    ensures fullKey == prefix[..hidden] + key || (fullKey == prefix && Less(prefix[..hidden] + key, prefix))
  {
    hide Less;
    Order();
    var head, tail := prefix[..hidden], prefix[hidden..];
    assert prefix == head + tail && fullKey[0] == prefix[0];
    LessHead(fullKey, HIGH);
    assert fullKey[..hidden] == head && (head + key)[..hidden] == head && (head + key)[hidden..] == key;
    LessAt(fullKey, prefix, hidden);
    LessAt(head + key, prefix, hidden);
    assert fullKey[hidden..] == tail || fullKey[hidden..] == key;
  }

  /** All keys under the prefix are at or above it, so a search may as well start there. */
  lemma SeekFromPrefix(keys: set<Bytes>, prefix: Bytes, key: Bytes, fullKey: Bytes, r: Option<Bytes>)
    requires prefix != [] && 0 < prefix[0] < 255
    requires IsSeek(Under(keys, prefix), fullKey, r)
    requires fullKey == key || (fullKey == prefix && Less(key, prefix))
    ensures IsSeek(Under(keys, prefix), key, r)
  {
    hide Less;
    Order();
    PrefixBounds(prefix);
    forall x | x in Under(keys, prefix) ensures !Less(x, prefix) {
      PrefixRange(prefix, x);
    }
  }

  lemma EvolvesFurther(a: Cache, b: Cache, c: Cache)
    requires Evolves(a, b) && Evolves(b, c)
    ensures Evolves(a, c)
  {
  }

  lemma BridgedCached(kv: Store, cache: Cache, r: Bytes, c: Bytes)
    requires Bridged(kv, cache, r, c)
    ensures c in cache && r in kv
  {
  }

  lemma PassNext(kv: Store, cache: Cache, from: Bytes, c: Bytes, c': Bytes)
    requires HIGH in ViewOf(kv, cache) && IsNext(Universe(kv, cache), c, Some(c')) && c' in cache
    requires Passed(ViewOf(kv, cache).Keys, from, c) && Less(c, HIGH)
    requires c == from || c !in ViewOf(kv, cache)
    ensures Passed(ViewOf(kv, cache).Keys, from, c') && Less(from, c') && Less(c, c') && c' in Universe(kv, cache)
    ensures cache[c'].current.None? ==> Less(c', HIGH) && c' !in ViewOf(kv, cache)
  {
    hide Less;
    Order();
  }

  lemma PassPrev(kv: Store, cache: Cache, from: Bytes, c: Bytes, c': Bytes)
    requires LOW in ViewOf(kv, cache) && IsPrev(Universe(kv, cache), c, Some(c')) && c' in cache
    requires PassedBack(ViewOf(kv, cache).Keys, from, c) && Less(LOW, c)
    requires c == from || c !in ViewOf(kv, cache)
    ensures PassedBack(ViewOf(kv, cache).Keys, from, c') && Less(c', from) && Less(c', c) && c' in Universe(kv, cache)
    ensures cache[c'].current.None? ==> Less(LOW, c') && c' !in ViewOf(kv, cache)
  {
    hide Less;
    Order();
  }

  lemma PassedAll(kv: Store, cache: Cache, from: Bytes, c: Bytes)
    requires Passed(ViewOf(kv, cache).Keys, from, c) && Less(from, c) && c in cache && cache[c].current.Some?
    ensures IsNext(ViewOf(kv, cache).Keys, from, Some(c))
  {
    hide Less;
    Order();
  }

  lemma PassedBackAll(kv: Store, cache: Cache, from: Bytes, c: Bytes)
    requires PassedBack(ViewOf(kv, cache).Keys, from, c) && Less(c, from) && c in cache && cache[c].current.Some?
    ensures IsPrev(ViewOf(kv, cache).Keys, from, Some(c))
  {
    hide Less;
    Order();
  }

  // ---- Whole runs of the iterator ----

  /** `ks` lists `keys` in ascending order, each once. */
  ghost predicate Lists(keys: set<Bytes>, ks: seq<Bytes>) {
    && (forall i, j :: 0 <= i < j < |ks| ==> Less(ks[i], ks[j]))
    && (forall k :: k in ks <==> k in keys)
  }

  ghost function BelowCursor(keys: set<Bytes>, c: Option<Bytes>): set<Bytes> {
    set k | k in keys && (c.Some? ==> Less(k, c.value))
  }

  ghost function AboveCursor(keys: set<Bytes>, c: Option<Bytes>): set<Bytes> {
    set k | k in keys && (c.Some? ==> Less(c.value, k))
  }

  lemma ListsMoreAbove(keys: set<Bytes>, ks: seq<Bytes>, c: Bytes, c': Option<Bytes>)
    requires Lists(BelowCursor(keys, Some(c)), ks) && c in keys && IsNext(keys, c, c')
    ensures Lists(BelowCursor(keys, c'), ks + [c])
    ensures keys - BelowCursor(keys, c') < keys - BelowCursor(keys, Some(c)) && (c'.Some? ==> c'.value in keys)
  {
    hide Less;
    Order();
    var more := ks + [c];
    forall i, j | 0 <= i < j < |more| ensures Less(more[i], more[j]) {
      assert more[i] in ks;
    }
    forall k ensures k in more <==> k in BelowCursor(keys, c') {
      assert k in more <==> k in ks || k == c;
    }
    assert c in BelowCursor(keys, c') && c !in BelowCursor(keys, Some(c));
  }

  lemma ListsMoreBelow(keys: set<Bytes>, ks: seq<Bytes>, c: Bytes, c': Option<Bytes>)
    requires Lists(AboveCursor(keys, Some(c)), ks) && c in keys && IsPrev(keys, c, c')
    ensures Lists(AboveCursor(keys, c'), [c] + ks)
    ensures keys - AboveCursor(keys, c') < keys - AboveCursor(keys, Some(c)) && (c'.Some? ==> c'.value in keys)
  {
    hide Less;
    Order();
    var more := [c] + ks;
    forall i, j | 0 <= i < j < |more| ensures Less(more[i], more[j]) {
      assert more[j] in ks;
    }
    forall k ensures k in more <==> k in AboveCursor(keys, c') {
      assert k in more <==> k in ks || k == c;
    }
    assert c in AboveCursor(keys, c') && c !in AboveCursor(keys, Some(c));
  }

  lemma ListsNothing(keys: set<Bytes>, prefix: Bytes, c: Option<Bytes>)
    requires prefix != [] && 0 < prefix[0] < 255
    ensures IsSeek(Under(keys, prefix), prefix, c) ==> Lists(BelowCursor(Under(keys, prefix), c), [])
    ensures IsPrev(Under(keys, prefix), NextPrefix(prefix), c) ==> Lists(AboveCursor(Under(keys, prefix), c), [])
  {
    hide Less;
    Order();
    PrefixBounds(prefix);
    forall x | x in Under(keys, prefix) ensures !Less(x, prefix) && Less(x, NextPrefix(prefix)) {
      PrefixRange(prefix, x);
    }
  }

  lemma CursorKey(keys: set<Bytes>, k: Bytes, c: Option<Bytes>)
    requires IsSeek(keys, k, c) || IsNext(keys, k, c) || IsPrev(keys, k, c)
    ensures c.Some? ==> c.value in keys
  {
  }

  /** There is one ascending list of the keys, so the walks up and down meet the same keys in opposite orders. */
  lemma {:induction false} ListsUnique(keys: set<Bytes>, a: seq<Bytes>, b: seq<Bytes>)
    requires Lists(keys, a) && Lists(keys, b)
    ensures a == b
    decreases |a|
  {
    hide Less;
    Order();
    if b != [] {
      assert b[0] in keys;
    }
    if a != [] {
      assert a[0] in keys;
      var m, n := |a| - 1, |b| - 1;
      assert a[m] in b && b[n] in a;
      assert a[m] == b[n];
      ListsFewer(keys, a);
      ListsFewer(keys, b);
      ListsUnique(keys - {a[m]}, a[..m], b[..n]);
    }
  }

  lemma ListsFewer(keys: set<Bytes>, a: seq<Bytes>)
    requires Lists(keys, a) && a != []
    ensures Lists(keys - {a[|a| - 1]}, a[..|a| - 1])
  {
    hide Less;
    Order();
    var m := |a| - 1;
    forall k ensures k in a[..m] <==> k in keys - {a[m]} {
      assert k in a <==> k in a[..m] || k == a[m];
    }
  }

  /** The pairs of the keys `ks`, the keys without the first `hidden` bytes. */
  ghost predicate PairsOf(view: Store, hidden: nat, ks: seq<Bytes>, found: seq<(Bytes, Bytes)>) {
    |ks| == |found| &&
    forall i :: 0 <= i < |ks| ==>
      && hidden <= |ks[i]| && ks[i] in view && found[i] == (ks[i][hidden..], view[ks[i]])
  }

  /** Repeated ++ from the end meets every live key under the prefix once, in ascending order, and ends at the end. */
  method GetMatching(session: WriteSession, viewPrefix: Bytes, contract: nat, prefix: Bytes)
    returns (found: seq<(Bytes, Bytes)>, ghost ks: seq<Bytes>)
    requires session.Valid() && viewPrefix != [] && 0 < viewPrefix[0] < 255
    requires LOW in session.db.kv && HIGH in session.db.kv && LOW in session.View() && HIGH in session.View()
    modifies session
    ensures session.Valid() && session.View() == old(session.View())
    ensures Lists(Under(session.View().Keys, FullKey(viewPrefix, contract, prefix)), ks)
    ensures PairsOf(session.View(), |viewPrefix| + 8, ks, found)
  {
    hide Less, CacheOk, ViewOf, IsSeek, IsNext, Evolves, CursorOk, Lists, FullKey;
    ghost var view := session.View();
    var it := new ViewIterator(session, viewPrefix, contract, prefix);
    var ok := it.Next();
    ghost var keys := it.Keys();
    found, ks := [], [];
    ListsNothing(view.Keys, it.prefix, it.cacheIt);
    CursorKey(keys, it.prefix, it.cacheIt);
    while it.cacheIt.Some?
      invariant it.Valid() && !it.IsErased() && session.View() == view && it.Keys() == keys && it.session == session
      invariant it.cacheIt.Some? ==> it.cacheIt.value in keys
      invariant Lists(BelowCursor(keys, it.cacheIt), ks) && PairsOf(view, it.hidden, ks, found)
      decreases keys - BelowCursor(keys, it.cacheIt)
    {
      ghost var c := it.cacheIt.value;
      var okKv, kv := it.GetKv();
      ok := it.Next();
      ListsMoreAbove(keys, ks, c, it.cacheIt);
      found, ks := found + [kv.value], ks + [c];
    }
    assert BelowCursor(keys, None) == keys;
  }

  /** Repeated -- from the end meets the same keys in the opposite order; prepending restores the ascending one. */
  method GetMatchingBackward(session: WriteSession, viewPrefix: Bytes, contract: nat, prefix: Bytes)
    returns (found: seq<(Bytes, Bytes)>, ghost ks: seq<Bytes>)
    requires session.Valid() && viewPrefix != [] && 0 < viewPrefix[0] < 255
    requires LOW in session.db.kv && HIGH in session.db.kv && LOW in session.View() && HIGH in session.View()
    modifies session
    ensures session.Valid() && session.View() == old(session.View())
    ensures Lists(Under(session.View().Keys, FullKey(viewPrefix, contract, prefix)), ks)
    ensures PairsOf(session.View(), |viewPrefix| + 8, ks, found)
  {
    hide Less, CacheOk, ViewOf, IsPrev, Evolves, CursorOk, Lists, FullKey, NextPrefix;
    ghost var view := session.View();
    var it := new ViewIterator(session, viewPrefix, contract, prefix);
    var ok := it.Prev();
    ghost var keys := it.Keys();
    found, ks := [], [];
    ListsNothing(view.Keys, it.prefix, it.cacheIt);
    CursorKey(keys, NextPrefix(it.prefix), it.cacheIt);
    while it.cacheIt.Some?
      invariant it.Valid() && !it.IsErased() && session.View() == view && it.Keys() == keys && it.session == session
      invariant it.cacheIt.Some? ==> it.cacheIt.value in keys
      invariant Lists(AboveCursor(keys, it.cacheIt), ks) && PairsOf(view, it.hidden, ks, found)
      decreases keys - AboveCursor(keys, it.cacheIt)
    {
      ghost var c := it.cacheIt.value;
      var okKv, kv := it.GetKv();
      ok := it.Prev();
      ListsMoreBelow(keys, ks, c, it.cacheIt);
      found, ks := [kv.value] + found, [c] + ks;
    }
    assert AboveCursor(keys, None) == keys;
  }
}
