/** Trees whose newest nodes are in the cache of the version being built: what the steps of an insertion keep. */
module JmtForest {
  import opened JmtStore

  /** Written nodes are of earlier versions, cached nodes of this one. */
  ghost predicate Versions(base: Nodes, cache: Nodes, stale: set<NodeKey>, v: int) {
    && (forall x :: x in base ==> x.version < v)
    && (forall x :: x in cache ==> x.version == v)
    && (forall x :: x in stale ==> x.version < v)
  }

  /** The tree at `k` encodes `c`; the cache holds no other node under its path, and no node of it is stale. */
  ghost predicate TreeOk(base: Nodes, cache: Nodes, stale: set<NodeKey>, v: int, k: NodeKey, c: Contents) {
    && AllUnder(c, k.path) && Encodes(base + cache, k, c)
    && (forall x :: x in cache && k.path <= x.path ==> Reaches(base + cache, k, x))
    && (forall x :: x in stale ==> !Reaches(base + cache, k, x))
  }

  ghost predicate NothingUnder(cache: Nodes, path: seq<Nibble>) {
    forall x :: x in cache ==> !(path <= x.path)
  }

  /** Only keys under `path` changed. */
  ghost predicate Frame(cache: Nodes, stale: set<NodeKey>, cache': Nodes, stale': set<NodeKey>, path: seq<Nibble>) {
    forall x: NodeKey :: !(path <= x.path) ==>
      (x in cache <==> x in cache') && (x in cache ==> cache[x] == cache'[x]) && (x in stale <==> x in stale')
  }

  lemma FrameWider(cache: Nodes, stale: set<NodeKey>, cache': Nodes, stale': set<NodeKey>, path: seq<Nibble>, longer: seq<Nibble>)
    requires Frame(cache, stale, cache', stale', longer) && path <= longer
    ensures Frame(cache, stale, cache', stale', path)
  {
  }

  lemma FrameFurther(a: Nodes, s: set<NodeKey>, a1: Nodes, s1: set<NodeKey>, a2: Nodes, s2: set<NodeKey>, path: seq<Nibble>)
    requires Frame(a, s, a1, s1, path) && Frame(a1, s1, a2, s2, path)
    ensures Frame(a, s, a2, s2, path)
  {
  }

  /** The paths part at some nibble. */
  ghost predicate Apart(p: seq<Nibble>, q: seq<Nibble>) {
    exists i :: 0 <= i < |p| && i < |q| && p[i] != q[i]
  }

  lemma SiblingsApart(path: seq<Nibble>, a: Nibble, b: Nibble)
    requires a != b
    ensures Apart(path + [a], path + [b])
  {
    assert (path + [a])[|path|] != (path + [b])[|path|];
  }

  /** A change elsewhere leaves a tree as it is. */
  lemma TreeFrame(base: Nodes, cache: Nodes, stale: set<NodeKey>, cache': Nodes, stale': set<NodeKey>, v: int,
                  k: NodeKey, c: Contents, path: seq<Nibble>)
    requires TreeOk(base, cache, stale, v, k, c) && Frame(cache, stale, cache', stale', path) && Apart(k.path, path)
    ensures TreeOk(base, cache', stale', v, k, c)
  {
    hide Encodes, Reaches;
    var m, m' := base + cache, base + cache';
    assert Agree(m, m', k.path);
    EncodesFrame(m, m', k, c);
    forall x: NodeKey ensures Reaches(m, k, x) <==> Reaches(m', k, x) {
      ReachesFrame(m, m', k, x);
    }
    forall x | x in stale' ensures !Reaches(m', k, x) {
      if Reaches(m', k, x) {
        ReachesUnder(m', k, x);
      }
    }
  }

  // ---- The children of a node ----

  /** `ch` are the children, below `path`, of a node for `c`, and the cache holds nothing else under `path`. */
  ghost predicate Forest(base: Nodes, cache: Nodes, stale: set<NodeKey>, v: int, path: seq<Nibble>,
                         ch: map<Nibble, Child>, c: Contents)
  {
    && |path| < HEIGHT && AllUnder(c, path) && ch.Keys == Nibbles(c, |path|)
    && (forall n :: n in ch ==>
          && ChildOk(ch[n], c, |path|, n)
          && TreeOk(base, cache, stale, v, NodeKey(ch[n].version, path + [n]), Sub(c, |path|, n)))
    && (forall x :: x in cache && path <= x.path ==> BelowChild(ch.Keys, path, x.path))
  }

  predicate BelowChild(ns: set<Nibble>, path: seq<Nibble>, p: seq<Nibble>) {
    |path| < |p| && p[|path|] in ns
  }

  lemma ForestNone(base: Nodes, cache: Nodes, stale: set<NodeKey>, v: int, path: seq<Nibble>)
    requires |path| < HEIGHT && NothingUnder(cache, path)
    ensures Forest(base, cache, stale, v, path, map[], map[])
  {
  }

  /** Where there is no child the cache holds nothing. */
  lemma NoChild(base: Nodes, cache: Nodes, stale: set<NodeKey>, v: int, path: seq<Nibble>,
                ch: map<Nibble, Child>, c: Contents, n: Nibble)
    requires Forest(base, cache, stale, v, path, ch, c) && n !in ch
    ensures NothingUnder(cache, path + [n])
  {
    forall x | x in cache ensures !(path + [n] <= x.path) {
      assert (path + [n])[|path|] == n && path <= path + [n];
    }
  }

  /** A child is built or rebuilt: the others are as they were. */
  lemma ForestStep(base: Nodes, cache: Nodes, stale: set<NodeKey>, cache': Nodes, stale': set<NodeKey>, v: int,
                   path: seq<Nibble>, ch: map<Nibble, Child>, c: Contents, n: Nibble, child: Child, c': Contents)
    requires Forest(base, cache, stale, v, path, ch, c)
    requires Frame(cache, stale, cache', stale', path + [n])
    requires AllUnder(c', path) && n in Nibbles(c', |path|) && ChildOk(child, c', |path|, n)
    requires TreeOk(base, cache', stale', v, NodeKey(child.version, path + [n]), Sub(c', |path|, n))
    requires forall k :: k in c' || k in c ==> Nib(k, |path|) != n ==> k in c && k in c' && c'[k] == c[k]
    ensures Forest(base, cache', stale', v, path, ch[n := child], c')
  {
    hide TreeOk, Trie, Frame;
    var d, ch' := |path|, ch[n := child];
    forall a ensures a in ch' <==> a in Nibbles(c', d) {
      if a != n {
        SameSub(c, c', d, n, a);
      }
    }
    forall a | a in ch'
      ensures ChildOk(ch'[a], c', d, a) && TreeOk(base, cache', stale', v, NodeKey(ch'[a].version, path + [a]), Sub(c', d, a))
    {
      if a != n {
        SameSub(c, c', d, n, a);
        SiblingsApart(path, a, n);
        TreeFrame(base, cache, stale, cache', stale', v, NodeKey(ch[a].version, path + [a]), Sub(c, d, a), path + [n]);
      }
    }
    StepBelow(cache, stale, cache', stale', path, ch.Keys, n);
  }

  lemma SameSub(c: Contents, c': Contents, d: nat, n: Nibble, a: Nibble)
    requires d < HEIGHT && a != n
    requires forall k :: k in c' || k in c ==> Nib(k, d) != n ==> k in c && k in c' && c'[k] == c[k]
    ensures Sub(c', d, a) == Sub(c, d, a) && (a in Nibbles(c', d) <==> a in Nibbles(c, d))
  {
    SubSome(c, d, a);
    SubSome(c', d, a);
  }

  lemma StepBelow(cache: Nodes, stale: set<NodeKey>, cache': Nodes, stale': set<NodeKey>, path: seq<Nibble>, ns: set<Nibble>, n: Nibble)
    requires Frame(cache, stale, cache', stale', path + [n])
    requires forall x :: x in cache && path <= x.path ==> BelowChild(ns, path, x.path)
    ensures forall x :: x in cache' && path <= x.path ==> BelowChild(ns + {n}, path, x.path)
  {
    forall x | x in cache' && path <= x.path ensures BelowChild(ns + {n}, path, x.path) {
      if path + [n] <= x.path {
        assert x.path[|path|] == (path + [n])[|path|];
      } else {
        assert x in cache;
      }
    }
  }

  /** Putting the node over its children makes a tree. */
  lemma Join(base: Nodes, cache: Nodes, stale: set<NodeKey>, v: int, path: seq<Nibble>, ch: map<Nibble, Child>, c: Contents)
    requires Versions(base, cache, stale, v) && Forest(base, cache, stale, v, path, ch, c) && Many(c)
    ensures var k := NodeKey(v, path);
            && k !in cache && Versions(base, cache[k := Internal(ch)], stale, v)
            && TreeOk(base, cache[k := Internal(ch)], stale, v, k, c)
            && Frame(cache, stale, cache[k := Internal(ch)], stale, path)
  {
    hide Trie, ChildOk, Encodes, Reaches, Forest, Many;
    JoinAbsent(base, cache, stale, v, path, ch, c);
    JoinEncodes(base, cache, stale, v, path, ch, c);
    JoinReaches(base, cache, stale, v, path, ch, c);
  }

  lemma JoinAbsent(base: Nodes, cache: Nodes, stale: set<NodeKey>, v: int, path: seq<Nibble>, ch: map<Nibble, Child>, c: Contents)
    requires Forest(base, cache, stale, v, path, ch, c)
    ensures NodeKey(v, path) !in cache && AllUnder(c, path)
  {
    hide TreeOk, ChildOk;
  }

  lemma JoinEncodes(base: Nodes, cache: Nodes, stale: set<NodeKey>, v: int, path: seq<Nibble>, ch: map<Nibble, Child>, c: Contents)
    requires Forest(base, cache, stale, v, path, ch, c) && Many(c)
    ensures Encodes(base + cache[NodeKey(v, path) := Internal(ch)], NodeKey(v, path), c)
  {
    hide Trie, ChildOk, Reaches;
    var k := NodeKey(v, path);
    var m, m' := base + cache, base + cache[k := Internal(ch)];
    forall n | n in ch ensures Encodes(m', ChildKey(k, ch[n].version, n), Sub(c, |path|, n)) {
      JoinAgree(base, cache, k, Internal(ch), n);
      EncodesFrame(m, m', ChildKey(k, ch[n].version, n), Sub(c, |path|, n));
    }
  }

  lemma JoinAgree(base: Nodes, cache: Nodes, k: NodeKey, node: Node, n: Nibble)
    ensures Agree(base + cache, base + cache[k := node], k.path + [n])
  {
  }

  lemma JoinReaches(base: Nodes, cache: Nodes, stale: set<NodeKey>, v: int, path: seq<Nibble>, ch: map<Nibble, Child>, c: Contents)
    requires Versions(base, cache, stale, v) && Forest(base, cache, stale, v, path, ch, c)
    ensures var k := NodeKey(v, path);
            var cache' := cache[k := Internal(ch)];
            && (forall x :: x in cache' && path <= x.path ==> Reaches(base + cache', k, x))
            && (forall x :: x in stale ==> !Reaches(base + cache', k, x))
  {
    hide Reaches, Forest;
    var k := NodeKey(v, path);
    var cache' := cache[k := Internal(ch)];
    forall x | x in cache' && path <= x.path ensures Reaches(base + cache', k, x) {
      if x != k {
        JoinCached(base, cache, stale, v, path, ch, c, x);
      }
      ReachesJoined(base, cache, k, ch, x);
    }
    forall x | x in stale ensures !Reaches(base + cache', k, x) {
      JoinStale(base, cache, stale, v, path, ch, c, x);
      ReachesJoined(base, cache, k, ch, x);
    }
  }

  lemma JoinCached(base: Nodes, cache: Nodes, stale: set<NodeKey>, v: int, path: seq<Nibble>, ch: map<Nibble, Child>,
                   c: Contents, x: NodeKey)
    requires Forest(base, cache, stale, v, path, ch, c) && x in cache && path <= x.path
    ensures BelowChild(ch.Keys, path, x.path)
    ensures var n := x.path[|path|]; Reaches(base + cache, NodeKey(ch[n].version, path + [n]), x)
  {
    hide TreeOk, ChildOk;
    var n := x.path[|path|];
    assert path + [n] <= x.path;
    TreeReaches(base, cache, stale, v, NodeKey(ch[n].version, path + [n]), Sub(c, |path|, n), x);
  }

  lemma TreeReaches(base: Nodes, cache: Nodes, stale: set<NodeKey>, v: int, k: NodeKey, c: Contents, x: NodeKey)
    requires TreeOk(base, cache, stale, v, k, c)
    ensures x in cache && k.path <= x.path ==> Reaches(base + cache, k, x)
    ensures x in stale ==> !Reaches(base + cache, k, x)
  {
    hide Reaches, Encodes;
  }

  lemma JoinStale(base: Nodes, cache: Nodes, stale: set<NodeKey>, v: int, path: seq<Nibble>, ch: map<Nibble, Child>,
                  c: Contents, x: NodeKey)
    requires Forest(base, cache, stale, v, path, ch, c) && x in stale && x.version < v
    ensures x != NodeKey(v, path)
    ensures BelowChild(ch.Keys, path, x.path) ==>
              var n := x.path[|path|]; !Reaches(base + cache, NodeKey(ch[n].version, path + [n]), x)
  {
    hide TreeOk, ChildOk;
    if BelowChild(ch.Keys, path, x.path) {
      var n := x.path[|path|];
      TreeReaches(base, cache, stale, v, NodeKey(ch[n].version, path + [n]), Sub(c, |path|, n), x);
    }
  }

  /** From the new node one reaches itself and what its children reach. */
  lemma ReachesJoined(base: Nodes, cache: Nodes, k: NodeKey, ch: map<Nibble, Child>, x: NodeKey)
    ensures Reaches(base + cache[k := Internal(ch)], k, x) <==>
            || x == k
            || (BelowChild(ch.Keys, k.path, x.path) && k.path <= x.path &&
                var n := x.path[|k.path|]; Reaches(base + cache, NodeKey(ch[n].version, k.path + [n]), x))
  {
    var m, m' := base + cache, base + cache[k := Internal(ch)];
    if BelowChild(ch.Keys, k.path, x.path) && k.path <= x.path {
      var n := x.path[|k.path|];
      JoinAgree(base, cache, k, Internal(ch), n);
      ReachesFrame(m, m', NodeKey(ch[n].version, k.path + [n]), x);
    }
  }

  // ---- Building and taking apart ----

  /** From (cache0, stale0) a tree at `k` for `c` was built; nothing else changed. */
  ghost predicate Built(base: Nodes, cache0: Nodes, stale0: set<NodeKey>, cache: Nodes, stale: set<NodeKey>, v: int,
                        k: NodeKey, c: Contents)
  {
    && Versions(base, cache, stale, v) && TreeOk(base, cache, stale, v, k, c)
    && Frame(cache0, stale0, cache, stale, k.path) && k in cache && k.version == v
  }

  lemma LeafBuilt(base: Nodes, cache: Nodes, stale: set<NodeKey>, v: int, path: seq<Nibble>, key: Key, value: Value)
    requires Versions(base, cache, stale, v) && NothingUnder(cache, path) && Extends(key, path)
    ensures var k := NodeKey(v, path);
            k !in cache && Built(base, cache, stale, cache[k := Leaf(key, value)], stale, v, k, map[key := value])
  {
    hide Trie, Extends;
    var k, c := NodeKey(v, path), map[key := value];
    OnlyKey(c, key);
    assert k !in cache;
  }

  lemma JoinBuilt(base: Nodes, cache0: Nodes, stale0: set<NodeKey>, cache: Nodes, stale: set<NodeKey>, v: int,
                  path: seq<Nibble>, ch: map<Nibble, Child>, c: Contents)
    requires Versions(base, cache, stale, v) && Forest(base, cache, stale, v, path, ch, c) && Many(c)
    requires Frame(cache0, stale0, cache, stale, path)
    ensures var k := NodeKey(v, path);
            k !in cache && Built(base, cache0, stale0, cache[k := Internal(ch)], stale, v, k, c)
  {
    hide Forest, TreeOk, Frame, Many, Versions;
    Join(base, cache, stale, v, path, ch, c);
    FrameFurther(cache0, stale0, cache, stale, cache[NodeKey(v, path) := Internal(ch)], stale, path);
  }

  /** An internal node has a child, and an only child is not a leaf. */
  predicate InternalAllowed(ch: map<Nibble, Child>) {
    ch.Keys != {} && forall n :: n in ch && ch.Keys == {n} ==> !ch[n].leaf
  }

  lemma ForestAllowed(base: Nodes, cache: Nodes, stale: set<NodeKey>, v: int, path: seq<Nibble>, ch: map<Nibble, Child>, c: Contents)
    requires Forest(base, cache, stale, v, path, ch, c) && Many(c)
    ensures InternalAllowed(ch)
  {
    hide TreeOk, Trie, Nib;
    var d := |path|;
    var a, b :| a in c && b in c && a != b;
    assert Nib(a, d) in ch.Keys && Nib(b, d) in ch.Keys;
    forall n | n in ch && ch.Keys == {n} ensures !ch[n].leaf {
      assert Nib(a, d) == n && Nib(b, d) == n;
      assert a in Sub(c, d, n) && b in Sub(c, d, n);
      assert ChildOk(ch[n], c, d, n);
    }
  }

  /** delete_node: a node of this version is dropped, an older one is listed as stale. */
  function CacheWithout(cache: Nodes, k: NodeKey): Nodes {
    if k in cache then cache - {k} else cache
  }

  function StaleWith(cache: Nodes, stale: set<NodeKey>, k: NodeKey): set<NodeKey> {
    if k in cache then stale else stale + {k}
  }

  lemma NotStale(base: Nodes, cache: Nodes, stale: set<NodeKey>, v: int, k: NodeKey, c: Contents)
    requires TreeOk(base, cache, stale, v, k, c)
    ensures k !in stale && k in base + cache
  {
    hide Trie;
    assert Reaches(base + cache, k, k);
  }

  lemma DeleteFrame(base: Nodes, cache: Nodes, stale: set<NodeKey>, v: int, k: NodeKey)
    requires Versions(base, cache, stale, v) && k in base + cache
    ensures Versions(base, CacheWithout(cache, k), StaleWith(cache, stale, k), v)
    ensures Frame(cache, stale, CacheWithout(cache, k), StaleWith(cache, stale, k), k.path)
  {
  }

  /** Without its root a tree with several keys is the forest of its children. */
  lemma DeleteInternal(base: Nodes, cache: Nodes, stale: set<NodeKey>, v: int, k: NodeKey, c: Contents)
    requires Versions(base, cache, stale, v) && TreeOk(base, cache, stale, v, k, c) && Many(c)
    ensures (base + cache)[k].Internal?
    ensures Forest(base, CacheWithout(cache, k), StaleWith(cache, stale, k), v, k.path, (base + cache)[k].children, c)
  {
    ManySome(c);
    hide Trie, Frame, ChildOk, Many;
    var m, cache', stale' := base + cache, CacheWithout(cache, k), StaleWith(cache, stale, k);
    var ch, d := m[k].children, |k.path|;
    forall n | n in ch ensures TreeOk(base, cache', stale', v, NodeKey(ch[n].version, k.path + [n]), Sub(c, d, n)) {
      DeleteChild(base, cache, stale, v, k, c, n);
    }
    forall x | x in cache' && k.path <= x.path ensures BelowChild(ch.Keys, k.path, x.path) {
      assert Reaches(m, k, x);
    }
  }

  lemma DeleteChild(base: Nodes, cache: Nodes, stale: set<NodeKey>, v: int, k: NodeKey, c: Contents, n: Nibble)
    requires Versions(base, cache, stale, v) && TreeOk(base, cache, stale, v, k, c) && Many(c) && |k.path| < HEIGHT
    requires (base + cache)[k].Internal? && n in (base + cache)[k].children
    ensures TreeOk(base, CacheWithout(cache, k), StaleWith(cache, stale, k), v,
                   NodeKey((base + cache)[k].children[n].version, k.path + [n]), Sub(c, |k.path|, n))
  {
    hide Trie, Frame, ChildOk, Many;
    var m, cache', stale' := base + cache, CacheWithout(cache, k), StaleWith(cache, stale, k);
    var m', ck := base + cache', ChildKey(k, m[k].children[n].version, n);
    SubUnder(c, k.path, n);
    assert Agree(m, m', ck.path);
    EncodesFrame(m, m', ck, Sub(c, |k.path|, n));
    DeleteReaches(base, cache, stale, v, k, c, n);
  }

  lemma DeleteReaches(base: Nodes, cache: Nodes, stale: set<NodeKey>, v: int, k: NodeKey, c: Contents, n: Nibble)
    requires TreeOk(base, cache, stale, v, k, c)
    requires k in base + cache && (base + cache)[k].Internal? && n in (base + cache)[k].children
    ensures var cache', stale' := CacheWithout(cache, k), StaleWith(cache, stale, k);
            var ck := NodeKey((base + cache)[k].children[n].version, k.path + [n]);
            && (forall x :: x in cache' && ck.path <= x.path ==> Reaches(base + cache', ck, x))
            && (forall x :: x in stale' ==> !Reaches(base + cache', ck, x))
  {
    hide Encodes, Reaches;
    var cache', stale' := CacheWithout(cache, k), StaleWith(cache, stale, k);
    var ck := NodeKey((base + cache)[k].children[n].version, k.path + [n]);
    forall x | x in cache' && ck.path <= x.path ensures Reaches(base + cache', ck, x) {
      assert x.path[|k.path|] == ck.path[|k.path|];
      ReachesChild(base, cache, k, n, x);
    }
    forall x | x in stale' ensures !Reaches(base + cache', ck, x) {
      ReachesChild(base, cache, k, n, x);
    }
  }

  lemma ReachesChild(base: Nodes, cache: Nodes, k: NodeKey, n: Nibble, x: NodeKey)
    requires k in base + cache && (base + cache)[k].Internal? && n in (base + cache)[k].children
    ensures var ck := NodeKey((base + cache)[k].children[n].version, k.path + [n]);
            && (ck.path <= x.path ==> (Reaches(base + cache, k, x) <==> Reaches(base + CacheWithout(cache, k), ck, x)))
            && (!(ck.path <= x.path) ==> !Reaches(base + CacheWithout(cache, k), ck, x))
  {
    var m, m' := base + cache, base + CacheWithout(cache, k);
    var ck := ChildKey(k, m[k].children[n].version, n);
    assert Agree(m, m', ck.path);
    ReachesFrame(m, m', ck, x);
    if ck.path <= x.path {
      assert x.path[|k.path|] == ck.path[|k.path|] && k.path <= ck.path;
    } else if Reaches(m', ck, x) {
      ReachesUnder(m', ck, x);
    }
  }

  /** Without its one node, a leaf or the null root, a tree leaves nothing behind in the cache. */
  lemma DeleteLeaf(base: Nodes, cache: Nodes, stale: set<NodeKey>, v: int, k: NodeKey, c: Contents)
    requires Versions(base, cache, stale, v) && TreeOk(base, cache, stale, v, k, c) && !Many(c)
    ensures !(base + cache)[k].Internal? && NothingUnder(CacheWithout(cache, k), k.path)
    ensures k.version != v ==> NothingUnder(cache, k.path)
  {
    hide Trie;
    forall x | x in cache && k.path <= x.path ensures x == k {
      assert Reaches(base + cache, k, x);
    }
  }

  function ChildOf(node: Node, v: int): Child {
    Child(NodeHash(node), v, node.Leaf?)
  }

  lemma ChildOfOk(base: Nodes, cache: Nodes, v: int, path: seq<Nibble>, n: Nibble, c: Contents)
    requires |path| < HEIGHT && n in Nibbles(c, |path|)
    requires Encodes(base + cache, NodeKey(v, path + [n]), Sub(c, |path|, n)) && NodeKey(v, path + [n]) in cache
    ensures ChildOk(ChildOf(cache[NodeKey(v, path + [n])], v), c, |path|, n)
  {
    hide Trie;
    SubSome(c, |path|, n);
    EncodesHash(base + cache, NodeKey(v, path + [n]), Sub(c, |path|, n));
  }

  /** After a child was built: the forest with it, and what changed since (cache0, stale0). */
  lemma StepBuilt(base: Nodes, cache0: Nodes, stale0: set<NodeKey>, cache: Nodes, stale: set<NodeKey>,
                  cache': Nodes, stale': set<NodeKey>, v: int, path: seq<Nibble>, ch: map<Nibble, Child>,
                  c: Contents, n: Nibble, c': Contents)
    requires Forest(base, cache, stale, v, path, ch, c) && Frame(cache0, stale0, cache, stale, path)
    requires AllUnder(c', path) && n in Nibbles(c', |path|)
    requires Built(base, cache, stale, cache', stale', v, NodeKey(v, path + [n]), Sub(c', |path|, n))
    requires forall k :: k in c' || k in c ==> Nib(k, |path|) != n ==> k in c && k in c' && c'[k] == c[k]
    ensures Forest(base, cache', stale', v, path, ch[n := ChildOf(cache'[NodeKey(v, path + [n])], v)], c')
    ensures Frame(cache0, stale0, cache', stale', path) && Versions(base, cache', stale', v)
  {
    hide Encodes, Reaches, Trie, Frame, Versions, Sub, ChildOk, Nib;
    ChildOfOk(base, cache', v, path, n, c');
    ForestStep(base, cache, stale, cache', stale', v, path, ch, c, n, ChildOf(cache'[NodeKey(v, path + [n])], v), c');
    FrameWider(cache, stale, cache', stale', path, path + [n]);
    FrameFurther(cache0, stale0, cache, stale, cache', stale', path);
  }
}
