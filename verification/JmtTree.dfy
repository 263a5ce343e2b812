/** Insertion into the Jellyfish Merkle tree, one pair at a time and in sorted batches, and reading at a version. */
module JmtTree {
  import opened Options
  import opened ByteKeys
  import opened JmtStore
  import opened JmtForest
  import opened JmtSpans
  import KvDatabase

  class TreeCache {
    const reader: Nodes
    var rootKey: NodeKey
    var nextVersion: int
    var nodeCache: Nodes
    var stale: set<NodeKey>
    var frozen: Nodes
    var rootHashes: seq<Tree>

    /** The nodes of finished versions. */
    ghost function Base(): Nodes
      reads this
    {
      reader + frozen
    }

    constructor (reader: Nodes, nextVersion: nat)
      ensures this.reader == reader && this.nextVersion == nextVersion && stale == {} && frozen == map[] && rootHashes == []
      ensures if nextVersion > 0 || NodeKey(-1, []) in reader
              then rootKey == NodeKey(nextVersion - 1, []) && nodeCache == map[]
              else rootKey == NodeKey(0, []) && nodeCache == map[rootKey := Null]
    {
      this.reader, this.nextVersion := reader, nextVersion;
      stale, frozen, rootHashes := {}, map[], [];
      if nextVersion == 0 {
        if NodeKey(-1, []) in reader {
          rootKey, nodeCache := NodeKey(-1, []), map[];
        } else {
          rootKey, nodeCache := NodeKey(0, []), map[NodeKey(0, []) := Null];
        }
      } else {
        rootKey, nodeCache := NodeKey(nextVersion - 1, []), map[];
      }
    }

    method GetNode(k: NodeKey) returns (r: Option<Node>)
      ensures r == if k in Base() + nodeCache then Some((Base() + nodeCache)[k]) else None
    {
      r := if k in nodeCache then Some(nodeCache[k])
           else if k in frozen then Some(frozen[k])
           else if k in reader then Some(reader[k])
           else None;
    }

    /** A node key can be written once. */
    method PutNode(k: NodeKey, node: Node) returns (ok: bool)
      modifies this`nodeCache
      ensures ok == (k !in old(nodeCache))
      ensures nodeCache == if ok then old(nodeCache)[k := node] else old(nodeCache)
    {
      ok := k !in nodeCache;
      if ok {
        nodeCache := nodeCache[k := node];
      }
    }

    /** A node of an older version can become stale once. */
    method DeleteNode(k: NodeKey) returns (ok: bool)
      modifies this`nodeCache, this`stale
      ensures ok == (k in old(nodeCache) || k !in old(stale))
      ensures nodeCache == CacheWithout(old(nodeCache), k)
      ensures ok ==> stale == StaleWith(old(nodeCache), old(stale), k)
    {
      ok := k in nodeCache || k !in stale;
      if k in nodeCache {
        nodeCache := nodeCache - {k};
      } else {
        stale := stale + {k};
      }
    }

    /** The version is finished: its root hash is noted and its nodes join the finished ones. */
    method Freeze()
      requires rootKey in Base() + nodeCache
      modifies this
      ensures rootHashes == old(rootHashes) + [NodeHash((old(Base()) + old(nodeCache))[old(rootKey)])]
      ensures rootKey == old(rootKey) && nextVersion == old(nextVersion) + 1
      ensures frozen == old(nodeCache) + old(frozen) && nodeCache == map[] && stale == {}
    {
      var root := GetNode(rootKey);
      rootHashes := rootHashes + [NodeHash(root.value)];
      frozen := nodeCache + frozen;
      nodeCache, stale := map[], {};
      nextVersion := nextVersion + 1;
    }
  }

  /** A new subtree for a span of pairs. */
  method BatchCreateSubtree(t: TreeCache, k: NodeKey, kvs: seq<(Key, Value)>) returns (node: Node)
    requires Versions(t.Base(), t.nodeCache, t.stale, k.version) && NothingUnder(t.nodeCache, k.path) && Span(kvs, k.path)
    modifies t`nodeCache, t`stale
    ensures Built(t.Base(), old(t.nodeCache), old(t.stale), t.nodeCache, t.stale, k.version, k, MapOf(kvs))
    ensures node == t.nodeCache[k]
    decreases HEIGHT - |k.path|
  {
    hide Versions, TreeOk, Forest, Frame, Built, Span, MapOf, Many, NothingUnder, Nib, Cut, NibblesSorted, Encodes, Extends, AllUnder;
    ghost var base, cache0, stale0 := t.Base(), t.nodeCache, t.stale;
    var v, path := k.version, k.path;
    SpanUnder(kvs, path);
    if |kvs| == 1 {
      node := Leaf(kvs[0].0, kvs[0].1);
      SpanKey(kvs, path, 0);
      MapOfOne(kvs);
      LeafBuilt(base, cache0, stale0, v, path, kvs[0].0, kvs[0].1);
      var ok := t.PutNode(k, node);
      return;
    }
    SpanSome(kvs, path);
    ManyShort(MapOf(kvs), path);
    SpanNibbles(kvs, path);
    var ch: map<Nibble, Child> := map[];
    ForestNone(base, cache0, stale0, v, path);
    FrameSame(cache0, stale0, path);
    CutStart(kvs, |path|);
    var it := new NibbleRangeIterator(kvs, |path|);
    while true
      invariant it.kvs == kvs && it.depth == |path| && it.pos <= |kvs| && Cut(kvs, |path|, it.pos)
      invariant t.Base() == base && Versions(base, t.nodeCache, t.stale, v) && Frame(cache0, stale0, t.nodeCache, t.stale, path)
      invariant Forest(base, t.nodeCache, t.stale, v, path, ch, MapOf(kvs[..it.pos]))
      decreases |kvs| - it.pos
    {
      var r := it.Next();
      if r.None? {
        break;
      }
      var (left, right) := r.value;
      var n := Nib(kvs[left].0, |path|);
      RunContents(kvs, path, left, right, n);
      ghost var c, run, cache, stale := MapOf(kvs[..left]), MapOf(kvs[left..right + 1]), t.nodeCache, t.stale;
      NewChild(base, cache, stale, v, path, ch, c, n, run);
      var child := BatchCreateSubtree(t, NodeKey(v, path + [n]), kvs[left..right + 1]);
      RunUnder(kvs, path, left, right);
      StepBuilt(base, cache0, stale0, cache, stale, t.nodeCache, t.stale, v, path, ch, c, n, c + run);
      ch := ch[n := ChildOf(child, v)];
    }
    assert kvs[..|kvs|] == kvs;
    ForestAllowed(base, t.nodeCache, t.stale, v, path, ch, MapOf(kvs));
    assert InternalAllowed(ch);
    JoinBuilt(base, cache0, stale0, t.nodeCache, t.stale, v, path, ch, MapOf(kvs));
    node := Internal(ch);
    var ok := t.PutNode(k, node);
  }

  /** A new subtree for a leaf that is already there and a span of pairs, which may write its key again. */
  method BatchCreateSubtreeWithExistingLeaf(t: TreeCache, k: NodeKey, key: Key, value: Value, kvs: seq<(Key, Value)>)
    returns (node: Node)
    requires Versions(t.Base(), t.nodeCache, t.stale, k.version) && NothingUnder(t.nodeCache, k.path)
    requires Span(kvs, k.path) && Extends(key, k.path)
    modifies t`nodeCache, t`stale
    ensures Built(t.Base(), old(t.nodeCache), old(t.stale), t.nodeCache, t.stale, k.version, k, map[key := value] + MapOf(kvs))
    ensures node == t.nodeCache[k]
    decreases HEIGHT - |k.path|, 0
  {
    hide Versions, TreeOk, Forest, Frame, Built, Span, MapOf, Many, NothingUnder, Nib, Cut, NibblesSorted, Encodes, Extends,
         AllUnder, Nibbles, Sub, LeafAnd, InternalAllowed;
    ghost var base, cache0, stale0 := t.Base(), t.nodeCache, t.stale;
    var v, path := k.version, k.path;
    SpanSome(kvs, path);
    if |kvs| == 1 && kvs[0].0 == key {
      node := Leaf(key, kvs[0].1);
      LeafBuilt(base, cache0, stale0, v, path, key, kvs[0].1);
      LeafWritten(kvs, key, value);
      var ok := t.PutNode(k, node);
      return;
    }
    WithLeafMany(kvs, path, key, value);
    ManyShort(map[key := value] + MapOf(kvs), path);
    LeafAndNothing(key, value);
    LeafAndAll(key, value, MapOf(kvs));
    SpanNibbles(kvs, path);
    var bucket, isolated := Nib(key, |path|), true;
    var ch: map<Nibble, Child> := map[];
    ForestNone(base, cache0, stale0, v, path);
    FrameSame(cache0, stale0, path);
    CutStart(kvs, |path|);
    var it := new NibbleRangeIterator(kvs, |path|);
    ghost var c: Contents := map[];
    while true
      invariant it.kvs == kvs && it.depth == |path| && it.pos <= |kvs| && Cut(kvs, |path|, it.pos)
      invariant t.Base() == base && Versions(base, t.nodeCache, t.stale, v) && Frame(cache0, stale0, t.nodeCache, t.stale, path)
      invariant c == LeafAnd(isolated, key, value, MapOf(kvs[..it.pos]))
      invariant isolated <==> bucket !in Nibbles(MapOf(kvs[..it.pos]), |path|)
      invariant Forest(base, t.nodeCache, t.stale, v, path, ch, c)
      decreases |kvs| - it.pos
    {
      var r := it.Next();
      if r.None? {
        break;
      }
      var (left, right) := r.value;
      var n := Nib(kvs[left].0, |path|);
      RunContents(kvs, path, left, right, n);
      ghost var cache, stale := t.nodeCache, t.stale;
      LeafRun(kvs, path, left, right, key, value, isolated, n);
      ghost var more := RunWith(bucket == n, key, value, kvs[left..right + 1]);
      NewChild(base, cache, stale, v, path, ch, c, n, more);
      if bucket == n {
        isolated := false;
        RunExtends(key, path, n);
      }
      var child := BuildRun(t, NodeKey(v, path + [n]), bucket == n, key, value, kvs[left..right + 1]);
      StepBuilt(base, cache0, stale0, cache, stale, t.nodeCache, t.stale, v, path, ch, c, n, c + more);
      ch, c := ch[n := ChildOf(child, v)], c + more;
    }
    assert kvs[..|kvs|] == kvs;
    if isolated {
      SpanUnder(kvs, path);
      LeafAlone(c, path, key, value);
      ch := PutLeafChild(t, v, path, ch, key, value, c, cache0, stale0);
      c := c + map[key := value];
    }
    ForestAllowed(base, t.nodeCache, t.stale, v, path, ch, c);
    JoinBuilt(base, cache0, stale0, t.nodeCache, t.stale, v, path, ch, c);
    node := Internal(ch);
    var ok := t.PutNode(k, node);
  }

  /** The leaf, unless it is still isolated, and the pairs written over it. */
  ghost function LeafAnd(isolated: bool, key: Key, value: Value, c: Contents): Contents {
    if isolated then c else map[key := value] + c
  }

  ghost function RunWith(withLeaf: bool, key: Key, value: Value, run: seq<(Key, Value)>): Contents {
    if withLeaf then map[key := value] + MapOf(run) else MapOf(run)
  }

  lemma LeafAndNothing(key: Key, value: Value)
    ensures LeafAnd(true, key, value, map[]) == map[]
  {
  }

  lemma LeafAndAll(key: Key, value: Value, c: Contents)
    ensures LeafAnd(true, key, value, c) == c && LeafAnd(false, key, value, c) == map[key := value] + c
  {
  }

  lemma LeafWritten(kvs: seq<(Key, Value)>, key: Key, value: Value)
    requires |kvs| == 1 && kvs[0].0 == key
    ensures map[key := value] + MapOf(kvs) == map[key := kvs[0].1]
  {
    MapOfOne(kvs);
  }

  /** One run, with the leaf when it falls into the same nibble. */
  method BuildRun(t: TreeCache, k: NodeKey, withLeaf: bool, key: Key, value: Value, run: seq<(Key, Value)>) returns (node: Node)
    requires Versions(t.Base(), t.nodeCache, t.stale, k.version) && NothingUnder(t.nodeCache, k.path)
    requires Span(run, k.path) && (withLeaf ==> Extends(key, k.path))
    modifies t`nodeCache, t`stale
    ensures Built(t.Base(), old(t.nodeCache), old(t.stale), t.nodeCache, t.stale, k.version, k,
                  RunWith(withLeaf, key, value, run))
    ensures node == t.nodeCache[k]
    decreases HEIGHT - |k.path|, 1
  {
    hide Versions, TreeOk, Built, Span, MapOf, NothingUnder, Extends;
    if withLeaf {
      node := BatchCreateSubtreeWithExistingLeaf(t, k, key, value, run);
    } else {
      node := BatchCreateSubtree(t, k, run);
    }
  }

  /** A leaf with a nibble that has no child yet becomes a child of its own. */
  method PutLeafChild(t: TreeCache, v: int, path: seq<Nibble>, ch: map<Nibble, Child>, key: Key, value: Value,
                      ghost c: Contents, ghost cache0: Nodes, ghost stale0: set<NodeKey>)
    returns (ch': map<Nibble, Child>)
    requires AllUnder(c, path) && Extends(key, path) && |path| < HEIGHT && Nib(key, |path|) !in Nibbles(c, |path|)
    requires Versions(t.Base(), t.nodeCache, t.stale, v) && Frame(cache0, stale0, t.nodeCache, t.stale, path)
    requires Forest(t.Base(), t.nodeCache, t.stale, v, path, ch, c)
    modifies t`nodeCache
    ensures Versions(t.Base(), t.nodeCache, t.stale, v) && Frame(cache0, stale0, t.nodeCache, t.stale, path)
    ensures Forest(t.Base(), t.nodeCache, t.stale, v, path, ch', c + map[key := value])
  {
    hide Versions, TreeOk, Forest, Frame, Built, NothingUnder, Nib, Encodes, Extends, AllUnder, Nibbles, Sub;
    ghost var base, cache, stale, leaf := t.Base(), t.nodeCache, t.stale, map[key := value];
    var bucket := Nib(key, |path|);
    LeafAlone(c, path, key, value);
    NewChild(base, cache, stale, v, path, ch, c, bucket, leaf);
    RunExtends(key, path, bucket);
    LeafBuilt(base, cache, stale, v, path + [bucket], key, value);
    var ok := t.PutNode(NodeKey(v, path + [bucket]), Leaf(key, value));
    StepBuilt(base, cache0, stale0, cache, stale, t.nodeCache, t.stale, v, path, ch, c, bucket, c + leaf);
    ch' := ch[bucket := ChildOf(Leaf(key, value), v)];
  }

  lemma WithLeafMany(kvs: seq<(Key, Value)>, path: seq<Nibble>, key: Key, value: Value)
    requires Span(kvs, path) && Extends(key, path) && !(|kvs| == 1 && kvs[0].0 == key)
    ensures Many(map[key := value] + MapOf(kvs)) && AllUnder(map[key := value] + MapOf(kvs), path)
  {
    hide MapOf, Extends;
    SpanUnder(kvs, path);
    var c := map[key := value] + MapOf(kvs);
    if |kvs| >= 2 {
      var a, b :| a in MapOf(kvs) && b in MapOf(kvs) && a != b;
      assert a in c && b in c;
    } else {
      MapOfKeys(kvs, kvs[0].0);
      assert kvs[0].0 in c && key in c;
    }
  }

  lemma RunExtends(key: Key, path: seq<Nibble>, n: Nibble)
    requires Extends(key, path) && |path| < HEIGHT && Nib(key, |path|) == n
    ensures Extends(key, path + [n])
  {
  }

  /** The contents before and after a run, with the leaf counted from its own run on. */
  lemma LeafRun(kvs: seq<(Key, Value)>, path: seq<Nibble>, left: nat, right: nat, key: Key, value: Value, isolated: bool, n: Nibble)
    requires Span(kvs, path) && Extends(key, path) && |path| < HEIGHT && left <= right < |kvs|
    requires Cut(kvs, |path|, left) && forall i :: left <= i <= right ==> Nib(kvs[i].0, |path|) == n
    requires isolated <==> Nib(key, |path|) !in Nibbles(MapOf(kvs[..left]), |path|)
    ensures var c := LeafAnd(isolated, key, value, MapOf(kvs[..left]));
            var bucket := Nib(key, |path|);
            var more := RunWith(bucket == n, key, value, kvs[left..right + 1]);
            && n !in Nibbles(c, |path|) && n in Nibbles(c + more, |path|)
            && (forall k :: k in more ==> Nib(k, |path|) == n)
            && c + more == LeafAnd(isolated && bucket != n, key, value, MapOf(kvs[..right + 1]))
            && (isolated && bucket != n <==> bucket !in Nibbles(MapOf(kvs[..right + 1]), |path|))
            && AllUnder(c + more, path)
  {
    hide MapOf, Nib, Extends, Span, Cut;
    RunContents(kvs, path, left, right, n);
    RunUnder(kvs, path, left, right);
    var leaf, taken, run := map[key := value], MapOf(kvs[..left]), MapOf(kvs[left..right + 1]);
    assert Nib(key, |path|) == n ==> key !in taken;
  }

  lemma LeafAlone(c: Contents, path: seq<Nibble>, key: Key, value: Value)
    requires AllUnder(c, path) && Extends(key, path) && |path| < HEIGHT && Nib(key, |path|) !in Nibbles(c, |path|)
    ensures c + map[key := value] == map[key := value] + c && AllUnder(c + map[key := value], path)
    ensures Nib(key, |path|) in Nibbles(c + map[key := value], |path|)
    ensures forall k :: k in map[key := value] ==> Nib(k, |path|) == Nib(key, |path|)
  {
    hide Nib, Extends;
    assert key !in c && key in c + map[key := value];
  }

  /** The span is written into the tree at `k`. */
  method BatchInsertAt(t: TreeCache, k: NodeKey, v: int, kvs: seq<(Key, Value)>, ghost c: Contents)
    returns (k': NodeKey, node: Node)
    requires Versions(t.Base(), t.nodeCache, t.stale, v) && TreeOk(t.Base(), t.nodeCache, t.stale, v, k, c)
    requires Span(kvs, k.path)
    modifies t`nodeCache, t`stale
    ensures k' == NodeKey(v, k.path)
    ensures Built(t.Base(), old(t.nodeCache), old(t.stale), t.nodeCache, t.stale, v, k', c + MapOf(kvs))
    ensures node == t.nodeCache[k']
    decreases HEIGHT - |k.path|, 2
  {
    hide Versions, TreeOk, Frame, Built, Span, MapOf, Many, NothingUnder, Encodes, Extends;
    ghost var base, cache0, stale0 := t.Base(), t.nodeCache, t.stale;
    NotStale(base, cache0, stale0, v, k, c);
    NodeKind(base, cache0, stale0, v, k, c);
    DeleteFrame(base, cache0, stale0, v, k);
    var r := t.GetNode(k);
    k' := NodeKey(v, k.path);
    match r.value
    case Internal(children) =>
      node := BatchInsertAtInternal(t, k, v, kvs, children, c);
    case Leaf(key, value) =>
      DeleteLeaf(base, cache0, stale0, v, k, c);
      var ok := t.DeleteNode(k);
      ghost var cache, stale := t.nodeCache, t.stale;
      node := BatchCreateSubtreeWithExistingLeaf(t, k', key, value, kvs);
      BuiltFurther(base, cache0, stale0, cache, stale, t.nodeCache, t.stale, v, k', c + MapOf(kvs));
    case Null =>
      DeleteLeaf(base, cache0, stale0, v, k, c);
      FrameSame(cache0, stale0, k.path);
      if k.version == v {
        var ok := t.DeleteNode(k);
      }
      ghost var cache, stale := t.nodeCache, t.stale;
      assert c + MapOf(kvs) == MapOf(kvs);
      node := BatchCreateSubtree(t, k', kvs);
      BuiltFurther(base, cache0, stale0, cache, stale, t.nodeCache, t.stale, v, k', c + MapOf(kvs));
  }

  method BatchInsertAtInternal(t: TreeCache, k: NodeKey, v: int, kvs: seq<(Key, Value)>, children: map<Nibble, Child>,
                               ghost c: Contents)
    returns (node: Node)
    requires Versions(t.Base(), t.nodeCache, t.stale, v) && TreeOk(t.Base(), t.nodeCache, t.stale, v, k, c) && Many(c)
    requires k in t.Base() + t.nodeCache && (t.Base() + t.nodeCache)[k] == Internal(children) && Span(kvs, k.path)
    modifies t`nodeCache, t`stale
    ensures Built(t.Base(), old(t.nodeCache), old(t.stale), t.nodeCache, t.stale, v, NodeKey(v, k.path), c + MapOf(kvs))
    ensures node == t.nodeCache[NodeKey(v, k.path)]
    decreases HEIGHT - |k.path|, 1
  {
    hide Versions, TreeOk, Forest, Frame, Built, Span, MapOf, Many, NothingUnder, Nib, Cut, NibblesSorted, Encodes, Extends,
         AllUnder, Nibbles, Sub, InternalAllowed, Untouched;
    ghost var base, cache0, stale0 := t.Base(), t.nodeCache, t.stale;
    var path := k.path;
    NotStale(base, cache0, stale0, v, k, c);
    DeleteInternal(base, cache0, stale0, v, k, c);
    DeleteFrame(base, cache0, stale0, v, k);
    var ok := t.DeleteNode(k);
    TreeUnder(base, cache0, stale0, v, k, c);
    ManyShort(c, path);
    SpanNibbles(kvs, path);
    CutStart(kvs, |path|);
    var ch: map<Nibble, Child> := children;
    assert c + MapOf(kvs[..0]) == c;
    UntouchedStart(children, |path|);
    var it := new NibbleRangeIterator(kvs, |path|);
    while true
      invariant it.kvs == kvs && it.depth == |path| && it.pos <= |kvs| && Cut(kvs, |path|, it.pos)
      invariant t.Base() == base && Versions(base, t.nodeCache, t.stale, v) && Frame(cache0, stale0, t.nodeCache, t.stale, path)
      invariant Untouched(children, ch, MapOf(kvs[..it.pos]), |path|)
      invariant Forest(base, t.nodeCache, t.stale, v, path, ch, c + MapOf(kvs[..it.pos]))
      decreases |kvs| - it.pos
    {
      var r := it.Next();
      if r.None? {
        break;
      }
      var (left, right) := r.value;
      var n := Nib(kvs[left].0, |path|);
      RunContents(kvs, path, left, right, n);
      ghost var cur, run, cache, stale := c + MapOf(kvs[..left]), MapOf(kvs[left..right + 1]), t.nodeCache, t.stale;
      UntouchedAt(children, ch, MapOf(kvs[..left]), |path|, n);
      SubPlus(cur, run, |path|, n);
      var child := InsertRun(t, v, path, n, ch, kvs[left..right + 1], cur);
      RunOver(c, kvs, path, left, right);
      StepBuilt(base, cache0, stale0, cache, stale, t.nodeCache, t.stale, v, path, ch, cur, n, cur + run);
      UntouchedStep(children, ch, MapOf(kvs[..left]), run, |path|, n, ChildOf(child, v));
      ch := ch[n := ChildOf(child, v)];
    }
    assert kvs[..|kvs|] == kvs;
    ManyMore(c, MapOf(kvs));
    ForestAllowed(base, t.nodeCache, t.stale, v, path, ch, c + MapOf(kvs));
    JoinBuilt(base, cache0, stale0, t.nodeCache, t.stale, v, path, ch, c + MapOf(kvs));
    node := Internal(ch);
    ok := t.PutNode(NodeKey(v, path), node);
  }

  /** One run goes into the child with its nibble or becomes a new child. */
  method InsertRun(t: TreeCache, v: int, path: seq<Nibble>, n: Nibble, ch: map<Nibble, Child>, run: seq<(Key, Value)>,
                   ghost c: Contents)
    returns (node: Node)
    requires |path| < HEIGHT && Versions(t.Base(), t.nodeCache, t.stale, v)
    requires Forest(t.Base(), t.nodeCache, t.stale, v, path, ch, c) && Span(run, path + [n])
    requires Sub(c + MapOf(run), |path|, n) == Sub(c, |path|, n) + MapOf(run)
    modifies t`nodeCache, t`stale
    ensures Built(t.Base(), old(t.nodeCache), old(t.stale), t.nodeCache, t.stale, v, NodeKey(v, path + [n]),
                  Sub(c + MapOf(run), |path|, n))
    ensures node == t.nodeCache[NodeKey(v, path + [n])]
    decreases HEIGHT - |path| - 1, 3
  {
    hide Versions, TreeOk, Frame, Built, Span, MapOf, NothingUnder, Encodes, ChildOk;
    if n in ch {
      var childKey := NodeKey(ch[n].version, path + [n]);
      var k';
      k', node := BatchInsertAt(t, childKey, v, run, Sub(c, |path|, n));
    } else {
      NoChild(t.Base(), t.nodeCache, t.stale, v, path, ch, c, n);
      SubSome(c, |path|, n);
      assert map[] + MapOf(run) == MapOf(run);
      node := BatchCreateSubtree(t, NodeKey(v, path + [n]), run);
    }
  }

  /** Children with other nibbles than those written are the original ones. */
  ghost predicate Untouched(children: map<Nibble, Child>, ch: map<Nibble, Child>, written: Contents, d: nat)
    requires d < HEIGHT
  {
    forall n: Nibble :: n !in Nibbles(written, d) ==> (n in ch <==> n in children) && (n in ch ==> ch[n] == children[n])
  }

  lemma UntouchedStart(children: map<Nibble, Child>, d: nat)
    requires d < HEIGHT
    ensures Untouched(children, children, map[], d)
  {
  }

  lemma UntouchedAt(children: map<Nibble, Child>, ch: map<Nibble, Child>, written: Contents, d: nat, n: Nibble)
    requires d < HEIGHT && Untouched(children, ch, written, d) && n !in Nibbles(written, d)
    ensures n in ch <==> n in children
    ensures n in ch ==> ch[n] == children[n]
  {
  }

  lemma UntouchedStep(children: map<Nibble, Child>, ch: map<Nibble, Child>, written: Contents, run: Contents, d: nat,
                      n: Nibble, child: Child)
    requires d < HEIGHT && Untouched(children, ch, written, d) && n in Nibbles(written + run, d)
    ensures Untouched(children, ch[n := child], written + run, d)
  {
    hide Nib;
    forall k | k in written ensures Nib(k, d) in Nibbles(written + run, d) {
      assert k in written + run;
    }
  }

  lemma RunOver(c: Contents, kvs: seq<(Key, Value)>, path: seq<Nibble>, left: nat, right: nat)
    requires Span(kvs, path) && AllUnder(c, path) && |path| < HEIGHT && left <= right < |kvs|
    ensures var run, n := MapOf(kvs[left..right + 1]), Nib(kvs[left].0, |path|);
            && c + MapOf(kvs[..left]) + run == c + MapOf(kvs[..right + 1])
            && AllUnder(c + MapOf(kvs[..left]) + run, path) && n in Nibbles(c + MapOf(kvs[..left]) + run, |path|)
            && MapOf(kvs[..left]) + run == MapOf(kvs[..right + 1]) && n in Nibbles(MapOf(kvs[..left]) + run, |path|)
  {
    hide MapOf, Nib, Extends, Span;
    RunUnder(kvs, path, left, right);
    var written, run := MapOf(kvs[..left]), MapOf(kvs[left..right + 1]);
    assert c + written + run == c + (written + run);
  }

  lemma ManyMore(c: Contents, more: Contents)
    requires Many(c)
    ensures Many(c + more)
  {
    var a, b :| a in c && b in c && a != b;
    assert a in c + more && b in c + more;
  }

  lemma TreeUnder(base: Nodes, cache: Nodes, stale: set<NodeKey>, v: int, k: NodeKey, c: Contents)
    requires TreeOk(base, cache, stale, v, k, c)
    ensures AllUnder(c, k.path)
  {
  }

  lemma NodeKind(base: Nodes, cache: Nodes, stale: set<NodeKey>, v: int, k: NodeKey, c: Contents)
    requires TreeOk(base, cache, stale, v, k, c) && k in base + cache
    ensures match (base + cache)[k]
            case Internal(_) => Many(c)
            case Leaf(key, value) => c == map[key := value] && Extends(key, k.path) && !Many(c)
            case Null => c == map[] && k.path == [] && !Many(c)
  {
    hide Extends, Trie;
    if c != map[] && !Many(c) {
      OnlyKey(c, TheKey(c));
    }
  }

  lemma BuiltFurther(base: Nodes, cache0: Nodes, stale0: set<NodeKey>, cache: Nodes, stale: set<NodeKey>,
                     cache': Nodes, stale': set<NodeKey>, v: int, k: NodeKey, c: Contents)
    requires Frame(cache0, stale0, cache, stale, k.path) && Built(base, cache, stale, cache', stale', v, k, c)
    ensures Built(base, cache0, stale0, cache', stale', v, k, c)
  {
    hide TreeOk, Versions, Frame;
    FrameFurther(cache0, stale0, cache, stale, cache', stale', k.path);
  }

  // ---- Whole value sets ----

  /** The contents after the first `n` value sets. */
  ghost function After(c: Contents, sets: seq<seq<(Key, Value)>>, n: nat): Contents
    requires n <= |sets|
  {
    if n == 0 then c else After(c, sets, n - 1) + MapOf(sets[n - 1])
  }

  /** The store holds versions below `next`, and the last one, if its root is there, stands for `c`. */
  ghost predicate StoreOk(reader: Nodes, next: nat, c: Contents) {
    && (forall x :: x in reader ==> x.version < next)
    && if NodeKey(next - 1, []) in reader then Encodes(reader, NodeKey(next - 1, []), c) else c == map[]
  }

  /** There is a version to build on: the one before, or none at the very start. */
  predicate RootThere(reader: Nodes, next: nat) {
    next == 0 || NodeKey(next - 1, []) in reader
  }

  /** The open version of the tree stands for `c`. */
  ghost predicate Open(base: Nodes, cache: Nodes, stale: set<NodeKey>, root: NodeKey, v: int, c: Contents) {
    root.path == [] && Versions(base, cache, stale, v) && TreeOk(base, cache, stale, v, root, c)
  }

  /** The nodes and hashes of the first `n` value sets. */
  ghost predicate Written(reader: Nodes, batch: Nodes, hashes: seq<Tree>, first: nat, c: Contents,
                          sets: seq<seq<(Key, Value)>>, n: nat)
  {
    && n == |hashes| <= |sets|
    && (forall x :: x in batch ==> first <= x.version < first + n)
    && forall i :: 0 <= i < n ==> VersionOk(reader + batch, hashes[i], first + i, After(c, sets, i + 1))
  }

  /** The tree at version `v` is the canonical trie of `c`, and `hash` is its root hash. */
  ghost predicate VersionOk(m: Nodes, hash: Tree, v: int, c: Contents) {
    Encodes(m, NodeKey(v, []), c) && hash == Trie(c, 0)
  }

  lemma OpenStart(reader: Nodes, first: nat, c: Contents)
    requires StoreOk(reader, first, c) && RootThere(reader, first)
    ensures if first > 0 || NodeKey(-1, []) in reader then Open(reader + map[], map[], {}, NodeKey(first - 1, []), first, c)
            else Open(reader + map[], map[NodeKey(0, []) := Null], {}, NodeKey(0, []), first, c)
    ensures Written(reader, map[], [], first, c, [], 0)
  {
    hide Trie;
    assert reader + map[] + map[] == reader;
  }

  /** Freezing an open version. */
  lemma FreezeOk(reader: Nodes, frozen: Nodes, cache: Nodes, stale: set<NodeKey>, root: NodeKey, hashes: seq<Tree>,
                 first: nat, c: Contents, sets: seq<seq<(Key, Value)>>, n: nat)
    requires n < |sets| && Written(reader, frozen, hashes, first, c, sets, n) && root.version == first + n
    requires Open(reader + frozen, cache, stale, root, first + n, After(c, sets, n + 1))
    ensures root in reader + frozen + cache
    ensures Open(reader + (cache + frozen), map[], {}, root, first + n + 1, After(c, sets, n + 1))
    ensures Written(reader, cache + frozen, hashes + [NodeHash((reader + frozen + cache)[root])], first, c, sets, n + 1)
  {
    hide Encodes, Trie, Reaches, After, TreeOk, NodeHash;
    var base, batch := reader + frozen, cache + frozen;
    var c' := After(c, sets, n + 1);
    OpenEncodes(base, cache, stale, root, first + n, c');
    assert base + cache == reader + batch by {
      forall x | x in frozen && x in cache ensures false {
      }
    }
    EncodesHash(base + cache, root, c');
    assert reader + batch + map[] == reader + batch;
    FreshTree(reader + batch, first + n + 1, root, c');
    var hashes' := hashes + [NodeHash((reader + frozen + cache)[root])];
    forall i | 0 <= i < n + 1 ensures VersionOk(reader + batch, hashes'[i], first + i, After(c, sets, i + 1)) {
      if i < n {
        assert VersionOk(reader + frozen, hashes[i], first + i, After(c, sets, i + 1));
        EncodesMore(base, base + cache, NodeKey(first + i, []), After(c, sets, i + 1));
      }
    }
  }

  method Put(t: TreeCache, key: Key, value: Value, v: int, ghost c: Contents)
    requires Open(t.Base(), t.nodeCache, t.stale, t.rootKey, v, c)
    modifies t`nodeCache, t`stale, t`rootKey
    ensures Open(t.Base(), t.nodeCache, t.stale, t.rootKey, v, c + map[key := value]) && t.rootKey.version == v
  {
    hide TreeOk, Versions, Frame;
    var root, node := InsertAt(t, t.rootKey, v, key, value, c);
    t.rootKey := root;
  }

  /** One pair after the other: every version is the canonical trie of what was written up to it. */
  method PutValueSets(reader: Nodes, sets: seq<seq<(Key, Value)>>, first: nat, ghost c: Contents)
    returns (ok: bool, hashes: seq<Tree>, batch: Nodes)
    requires StoreOk(reader, first, c)
    ensures ok <==> sets == [] || (RootThere(reader, first) && forall i :: 0 <= i < |sets| ==> sets[i] != [])
    ensures ok ==> Written(reader, batch, hashes, first, c, sets, |sets|)
  {
    hide Open, Written, MapOf, After, StoreOk;
    WrittenNone(reader, first, c, sets);
    AfterSteps(c, sets);
    var t := new TreeCache(reader, first);
    if sets == [] {
      return true, [], map[];
    }
    var root := t.GetNode(t.rootKey);
    if root.None? {
      return false, [], map[];
    }
    OpenStart(reader, first, c);
    for idx := 0 to |sets|
      invariant t.reader == reader && t.nextVersion == first + idx && forall i :: 0 <= i < idx ==> sets[i] != []
      invariant Written(reader, t.frozen, t.rootHashes, first, c, sets, idx)
      invariant Open(t.Base(), t.nodeCache, t.stale, t.rootKey, first + idx, After(c, sets, idx))
    {
      if sets[idx] == [] {
        return false, [], map[];
      }
      var version := first + idx;
      ghost var cur, frozen, hashes0 := After(c, sets, idx), t.frozen, t.rootHashes;
      PutEach(t, sets[idx], version, cur);
      FreezeOk(reader, frozen, t.nodeCache, t.stale, t.rootKey, hashes0, first, c, sets, idx);
      t.Freeze();
    }
    return true, t.rootHashes, t.frozen;
  }

  /** Sorted batches: the same contract, so the same canonical tries and root hashes. */
  method BatchPutValueSets(reader: Nodes, sets: seq<seq<(Key, Value)>>, first: nat, ghost c: Contents)
    returns (ok: bool, hashes: seq<Tree>, batch: Nodes)
    requires StoreOk(reader, first, c)
    ensures ok <==> sets == [] || (RootThere(reader, first) && forall i :: 0 <= i < |sets| ==> sets[i] != [])
    ensures ok ==> Written(reader, batch, hashes, first, c, sets, |sets|)
  {
    hide Open, Written, MapOf, Span, After, StoreOk;
    WrittenNone(reader, first, c, sets);
    AfterSteps(c, sets);
    var t := new TreeCache(reader, first);
    if sets == [] {
      return true, [], map[];
    }
    var root := t.GetNode(t.rootKey);
    if root.None? {
      return false, [], map[];
    }
    OpenStart(reader, first, c);
    for idx := 0 to |sets|
      invariant t.reader == reader && t.nextVersion == first + idx && forall i :: 0 <= i < idx ==> sets[i] != []
      invariant Written(reader, t.frozen, t.rootHashes, first, c, sets, idx)
      invariant Open(t.Base(), t.nodeCache, t.stale, t.rootKey, first + idx, After(c, sets, idx))
    {
      if sets[idx] == [] {
        return false, [], map[];
      }
      var version := first + idx;
      ghost var cur, frozen, hashes0 := After(c, sets, idx), t.frozen, t.rootHashes;
      var kvs := SortedPairs(sets[idx]);
      PutSorted(t, kvs, version, cur);
      FreezeOk(reader, frozen, t.nodeCache, t.stale, t.rootKey, hashes0, first, c, sets, idx);
      t.Freeze();
    }
    return true, t.rootHashes, t.frozen;
  }

  method PutEach(t: TreeCache, kvs: seq<(Key, Value)>, v: int, ghost c: Contents)
    requires Open(t.Base(), t.nodeCache, t.stale, t.rootKey, v, c) && kvs != []
    modifies t`nodeCache, t`stale, t`rootKey
    ensures Open(t.Base(), t.nodeCache, t.stale, t.rootKey, v, c + MapOf(kvs)) && t.rootKey.version == v
  {
    hide Open, MapOf;
    PairsNone(c, kvs);
    ghost var base := t.Base();
    for j := 0 to |kvs|
      invariant t.Base() == base && Open(base, t.nodeCache, t.stale, t.rootKey, v, c + MapOf(kvs[..j]))
      invariant j > 0 ==> t.rootKey.version == v
    {
      Put(t, kvs[j].0, kvs[j].1, v, c + MapOf(kvs[..j]));
      PairsStep(c, kvs, j);
    }
    assert kvs[..|kvs|] == kvs;
  }

  method PutSorted(t: TreeCache, kvs: seq<(Key, Value)>, v: int, ghost c: Contents)
    requires Open(t.Base(), t.nodeCache, t.stale, t.rootKey, v, c) && Span(kvs, [])
    modifies t`nodeCache, t`stale, t`rootKey
    ensures Open(t.Base(), t.nodeCache, t.stale, t.rootKey, v, c + MapOf(kvs)) && t.rootKey.version == v
  {
    hide TreeOk, Versions, Frame, Span, MapOf;
    var root, node := BatchInsertAt(t, t.rootKey, v, kvs, c);
    t.rootKey := root;
  }

  /** The pairs without duplicates, the last of equal keys, in key order. */
  method SortedPairs(set_: seq<(Key, Value)>) returns (kvs: seq<(Key, Value)>)
    requires set_ != []
    ensures Span(kvs, []) && MapOf(kvs) == MapOf(set_)
  {
    hide Less;
    var sorted: Contents := map[];
    for i := 0 to |set_|
      invariant sorted == MapOf(set_[..i])
    {
      assert set_[..i + 1][..i] == set_[..i];
      sorted := sorted[set_[i].0 := set_[i].1];
    }
    assert set_[..|set_|] == set_;
    assert set_[|set_| - 1].0 in sorted;
    kvs := InOrder(sorted);
  }

  method InOrder(m: Contents) returns (kvs: seq<(Key, Value)>)
    ensures MapOf(kvs) == m && forall i, j :: 0 <= i < j < |kvs| ==> Less(kvs[i].0, kvs[j].0)
  {
    hide Less;
    var rest := m;
    kvs := [];
    while rest != map[]
      invariant MapOf(kvs) + rest == m
      invariant forall i, j :: 0 <= i < j < |kvs| ==> Less(kvs[i].0, kvs[j].0)
      invariant forall i, k :: 0 <= i < |kvs| && k in rest ==> Less(kvs[i].0, k)
      decreases rest.Keys
    {
      var least := KvDatabase.Seek(rest.Keys, []);
      LeastKey(rest, least);
      var k: Key := least.value;
      assert (kvs + [(k, rest[k])])[..|kvs|] == kvs;
      kvs, rest := kvs + [(k, rest[k])], rest - {k};
    }
  }

  lemma LeastKey(rest: Contents, least: Option<Bytes>)
    requires rest != map[] && KvDatabase.IsSeek(rest.Keys, [], least)
    ensures least.Some? && least.value in rest && forall k :: k in rest && k != least.value ==> Less(least.value, k)
  {
    SomeMember(rest.Keys);
    assert rest.Keys != {};
    var k :| k in rest;
    assert k in rest.Keys;
    LessHead(k, []);
    hide Less;
    Order();
    forall x | x in rest ensures !Less(x, []) {
      LessHead(x, []);
    }
    assert forall x :: x in rest ==> x in rest.Keys;
  }

  lemma AfterSteps(c: Contents, sets: seq<seq<(Key, Value)>>)
    ensures After(c, sets, 0) == c
    ensures forall i :: 0 <= i < |sets| ==> After(c, sets, i) + MapOf(sets[i]) == After(c, sets, i + 1)
  {
  }

  lemma WrittenNone(reader: Nodes, first: nat, c: Contents, sets: seq<seq<(Key, Value)>>)
    ensures Written(reader, map[], [], first, c, sets, 0)
  {
  }

  lemma PairsNone(c: Contents, kvs: seq<(Key, Value)>)
    ensures c + MapOf(kvs[..0]) == c
  {
  }

  lemma PairsStep(c: Contents, kvs: seq<(Key, Value)>, j: nat)
    requires j < |kvs|
    ensures c + MapOf(kvs[..j]) + map[kvs[j].0 := kvs[j].1] == c + MapOf(kvs[..j + 1])
  {
    assert kvs[..j + 1][..j] == kvs[..j];
  }

  lemma OpenEncodes(base: Nodes, cache: Nodes, stale: set<NodeKey>, root: NodeKey, v: int, c: Contents)
    requires Open(base, cache, stale, root, v, c)
    ensures root in base + cache && Encodes(base + cache, root, c)
  {
  }

  lemma FreshTree(base: Nodes, v: int, root: NodeKey, c: Contents)
    requires root.path == [] && Encodes(base, root, c)
    ensures TreeOk(base, map[], {}, v, root, c)
  {
    assert base + map[] == base;
  }

  // ---- One pair at a time ----

  method CreateLeafNode(t: TreeCache, k: NodeKey, key: Key, value: Value) returns (node: Node)
    requires Versions(t.Base(), t.nodeCache, t.stale, k.version) && NothingUnder(t.nodeCache, k.path) && Extends(key, k.path)
    modifies t`nodeCache
    ensures Built(t.Base(), old(t.nodeCache), old(t.stale), t.nodeCache, t.stale, k.version, k, map[key := value])
    ensures node == t.nodeCache[k]
  {
    LeafBuilt(t.Base(), t.nodeCache, t.stale, k.version, k.path, key, value);
    node := Leaf(key, value);
    var ok := t.PutNode(k, node);
  }

  /** One pair is written into the tree at `k`. */
  method InsertAt(t: TreeCache, k: NodeKey, v: int, key: Key, value: Value, ghost c: Contents) returns (k': NodeKey, node: Node)
    requires Versions(t.Base(), t.nodeCache, t.stale, v) && TreeOk(t.Base(), t.nodeCache, t.stale, v, k, c)
    requires Extends(key, k.path)
    modifies t`nodeCache, t`stale
    ensures k' == NodeKey(v, k.path)
    ensures Built(t.Base(), old(t.nodeCache), old(t.stale), t.nodeCache, t.stale, v, k', c + map[key := value])
    ensures node == t.nodeCache[k']
    decreases HEIGHT - |k.path|, 2
  {
    hide Versions, TreeOk, Frame, Built, Many, NothingUnder, Encodes, Extends;
    ghost var base, cache0, stale0 := t.Base(), t.nodeCache, t.stale;
    NotStale(base, cache0, stale0, v, k, c);
    NodeKind(base, cache0, stale0, v, k, c);
    DeleteFrame(base, cache0, stale0, v, k);
    var r := t.GetNode(k);
    k' := NodeKey(v, k.path);
    match r.value
    case Internal(children) =>
      node := InsertAtInternalNode(t, k, v, children, key, value, c);
    case Leaf(oldKey, oldValue) =>
      DeleteLeaf(base, cache0, stale0, v, k, c);
      var ok := t.DeleteNode(k);
      ghost var cache, stale := t.nodeCache, t.stale;
      node := InsertAtLeafNode(t, k', oldKey, oldValue, key, value);
      BuiltFurther(base, cache0, stale0, cache, stale, t.nodeCache, t.stale, v, k', c + map[key := value]);
    case Null =>
      DeleteLeaf(base, cache0, stale0, v, k, c);
      FrameSame(cache0, stale0, k.path);
      if k.version == v {
        var ok := t.DeleteNode(k);
      }
      ghost var cache, stale := t.nodeCache, t.stale;
      assert c + map[key := value] == map[key := value];
      node := CreateLeafNode(t, k', key, value);
      BuiltFurther(base, cache0, stale0, cache, stale, t.nodeCache, t.stale, v, k', c + map[key := value]);
  }

  method InsertAtInternalNode(t: TreeCache, k: NodeKey, v: int, children: map<Nibble, Child>, key: Key, value: Value,
                              ghost c: Contents)
    returns (node: Node)
    requires Versions(t.Base(), t.nodeCache, t.stale, v) && TreeOk(t.Base(), t.nodeCache, t.stale, v, k, c) && Many(c)
    requires k in t.Base() + t.nodeCache && (t.Base() + t.nodeCache)[k] == Internal(children) && Extends(key, k.path)
    modifies t`nodeCache, t`stale
    ensures Built(t.Base(), old(t.nodeCache), old(t.stale), t.nodeCache, t.stale, v, NodeKey(v, k.path), c + map[key := value])
    ensures node == t.nodeCache[NodeKey(v, k.path)]
    decreases HEIGHT - |k.path|, 1
  {
    hide Versions, TreeOk, Forest, Frame, Built, Many, NothingUnder, Nib, Encodes, Extends, AllUnder, Nibbles, Sub,
         InternalAllowed;
    ghost var base, cache0, stale0 := t.Base(), t.nodeCache, t.stale;
    var path := k.path;
    NotStale(base, cache0, stale0, v, k, c);
    DeleteInternal(base, cache0, stale0, v, k, c);
    DeleteFrame(base, cache0, stale0, v, k);
    var ok := t.DeleteNode(k);
    TreeUnder(base, cache0, stale0, v, k, c);
    ManyShort(c, path);
    var n := Nib(key, |path|);
    ghost var cache, stale, pair := t.nodeCache, t.stale, map[key := value];
    PairOver(c, path, key, value);
    var child := InsertPair(t, v, path, n, children, key, value, c);
    StepBuilt(base, cache0, stale0, cache, stale, t.nodeCache, t.stale, v, path, children, c, n, c + pair);
    var ch := children[n := ChildOf(child, v)];
    ManyMore(c, pair);
    ForestAllowed(base, t.nodeCache, t.stale, v, path, ch, c + pair);
    JoinBuilt(base, cache0, stale0, t.nodeCache, t.stale, v, path, ch, c + pair);
    node := Internal(ch);
    ok := t.PutNode(NodeKey(v, path), node);
  }

  method InsertPair(t: TreeCache, v: int, path: seq<Nibble>, n: Nibble, ch: map<Nibble, Child>, key: Key, value: Value,
                    ghost c: Contents)
    returns (node: Node)
    requires |path| < HEIGHT && Versions(t.Base(), t.nodeCache, t.stale, v)
    requires Forest(t.Base(), t.nodeCache, t.stale, v, path, ch, c) && Extends(key, path + [n])
    requires Sub(c + map[key := value], |path|, n) == Sub(c, |path|, n) + map[key := value]
    modifies t`nodeCache, t`stale
    ensures Built(t.Base(), old(t.nodeCache), old(t.stale), t.nodeCache, t.stale, v, NodeKey(v, path + [n]),
                  Sub(c + map[key := value], |path|, n))
    ensures node == t.nodeCache[NodeKey(v, path + [n])]
    decreases HEIGHT - |path| - 1, 3
  {
    hide Versions, TreeOk, Frame, Built, NothingUnder, Encodes, ChildOk, Extends;
    if n in ch {
      var childKey := NodeKey(ch[n].version, path + [n]);
      var k';
      k', node := InsertAt(t, childKey, v, key, value, Sub(c, |path|, n));
    } else {
      NoChild(t.Base(), t.nodeCache, t.stale, v, path, ch, c, n);
      SubSome(c, |path|, n);
      assert map[] + map[key := value] == map[key := value];
      node := CreateLeafNode(t, NodeKey(v, path + [n]), key, value);
    }
  }

  lemma PairOver(c: Contents, path: seq<Nibble>, key: Key, value: Value)
    requires AllUnder(c, path) && Extends(key, path) && |path| < HEIGHT
    ensures var pair, n := map[key := value], Nib(key, |path|);
            && Extends(key, path + [n]) && AllUnder(c + pair, path) && n in Nibbles(c + pair, |path|)
            && Sub(c + pair, |path|, n) == Sub(c, |path|, n) + pair
            && forall k :: k in c + pair || k in c ==> Nib(k, |path|) != n ==> k in c && k in c + pair && (c + pair)[k] == c[k]
  {
    hide Nib;
    SubPlus(c, map[key := value], |path|, Nib(key, |path|));
    RunExtends(key, path, Nib(key, |path|));
    assert key in c + map[key := value];
  }

  /** How many nibbles from `from` on, and before `end`, the keys have in common. */
  method SkipCommonPrefix(a: Key, b: Key, from: nat, end: nat) returns (count: nat)
    requires from <= end <= HEIGHT
    ensures from + count <= end && forall i :: from <= i < from + count ==> Nib(a, i) == Nib(b, i)
    ensures from + count < end ==> Nib(a, from + count) != Nib(b, from + count)
  {
    count := 0;
    while from + count < end && Nib(a, from + count) == Nib(b, from + count)
      invariant from + count <= end && forall i :: from <= i < from + count ==> Nib(a, i) == Nib(b, i)
    {
      count := count + 1;
    }
  }

  /** The leaf at `k` is replaced, or both leaves hang below the last nibble they share. */
  method InsertAtLeafNode(t: TreeCache, k: NodeKey, oldKey: Key, oldValue: Value, key: Key, value: Value) returns (node: Node)
    requires Versions(t.Base(), t.nodeCache, t.stale, k.version) && NothingUnder(t.nodeCache, k.path)
    requires Extends(oldKey, k.path) && Extends(key, k.path)
    modifies t`nodeCache, t`stale
    ensures Built(t.Base(), old(t.nodeCache), old(t.stale), t.nodeCache, t.stale, k.version, k,
                  map[oldKey := oldValue] + map[key := value])
    ensures node == t.nodeCache[k]
  {
    hide Versions, TreeOk, Forest, Frame, Built, Many, NothingUnder, Nib, Encodes, Extends, AllUnder, Nibbles, Sub,
         InternalAllowed;
    ghost var base, cache0, stale0 := t.Base(), t.nodeCache, t.stale;
    var v, d := k.version, |k.path|;
    ghost var both := map[oldKey := oldValue] + map[key := value];
    SharedPath(oldKey, key, k.path);
    var visited := SkipCommonPrefix(key, oldKey, 0, d);
    assert visited == d;
    var count := SkipCommonPrefix(key, oldKey, d, HEIGHT);
    if d + count == HEIGHT {
      SameKey(key, oldKey, d);
      assert both == map[key := value];
      node := CreateLeafNode(t, k, key, value);
      return;
    }
    var common := seq(d + count, i requires 0 <= i < d + count => Nib(key, i));
    CommonPath(oldKey, oldValue, key, value, k.path, common);
    NothingDeeper(t.nodeCache, k.path, common);
    ForestNone(base, cache0, stale0, v, common);
    FrameSame(cache0, stale0, common);
    LeavesApart(oldKey, oldValue, key, value, common);
    var ch := PutLeafChild(t, v, common, map[], oldKey, oldValue, map[], cache0, stale0);
    ch := PutLeafChild(t, v, common, ch, key, value, map[] + map[oldKey := oldValue], cache0, stale0);
    ForestAllowed(base, t.nodeCache, t.stale, v, common, ch, both);
    JoinBuilt(base, cache0, stale0, t.nodeCache, t.stale, v, common, ch, both);
    node := Internal(ch);
    var ok := t.PutNode(NodeKey(v, common), node);
    assert ok;
    node := RaiseNode(t, k, common, node, both, cache0, stale0);
  }

  /** From the node at `common` up to `k`: a chain of nodes with one child each. */
  method RaiseNode(t: TreeCache, k: NodeKey, common: seq<Nibble>, node: Node, ghost c: Contents, ghost cache0: Nodes,
                   ghost stale0: set<NodeKey>)
    returns (node': Node)
    requires k.path <= common && |common| < HEIGHT && Many(c) && AllUnder(c, common)
    requires NothingUnder(cache0, k.path)
    requires Built(t.Base(), cache0, stale0, t.nodeCache, t.stale, k.version, NodeKey(k.version, common), c)
    requires NodeKey(k.version, common) in t.nodeCache && node == t.nodeCache[NodeKey(k.version, common)]
    modifies t`nodeCache
    ensures Built(t.Base(), cache0, stale0, t.nodeCache, t.stale, k.version, k, c) && node' == t.nodeCache[k]
  {
    hide Versions, TreeOk, Forest, Frame, Built, Many, NothingUnder, Nib, Encodes, Extends, AllUnder, Nibbles, Sub,
         InternalAllowed;
    ghost var base := t.Base();
    var v := k.version;
    var path := common;
    node' := node;
    while |path| > |k.path|
      invariant k.path <= path <= common && t.Base() == base
      invariant Built(base, cache0, stale0, t.nodeCache, t.stale, v, NodeKey(v, path), c)
      invariant NodeKey(v, path) in t.nodeCache && node' == t.nodeCache[NodeKey(v, path)]
    {
      var n, upper := path[|path| - 1], path[..|path| - 1];
      assert path == upper + [n];
      RaiseStep(base, cache0, stale0, t.nodeCache, t.stale, k, common, upper, n, c);
      var ch: map<Nibble, Child> := map[n := ChildOf(node', v)];
      assert map[][n := ChildOf(node', v)] == ch;
      ForestAllowed(base, t.nodeCache, t.stale, v, upper, ch, c);
      JoinBuilt(base, cache0, stale0, t.nodeCache, t.stale, v, upper, ch, c);
      node' := Internal(ch);
      path := upper;
      var ok := t.PutNode(NodeKey(v, path), node');
    }
    assert path == k.path && NodeKey(v, path) == k;
  }

  lemma RaiseStep(base: Nodes, cache0: Nodes, stale0: set<NodeKey>, cache: Nodes, stale: set<NodeKey>, k: NodeKey,
                  common: seq<Nibble>, upper: seq<Nibble>, n: Nibble, c: Contents)
    requires k.path <= upper && upper + [n] <= common && |common| < HEIGHT && Many(c) && AllUnder(c, common)
    requires NothingUnder(cache0, k.path)
    requires Built(base, cache0, stale0, cache, stale, k.version, NodeKey(k.version, upper + [n]), c)
    ensures Forest(base, cache, stale, k.version, upper,
                   map[][n := ChildOf(cache[NodeKey(k.version, upper + [n])], k.version)], c)
    ensures Versions(base, cache, stale, k.version) && Frame(cache0, stale0, cache, stale, upper)
  {
    hide Versions, TreeOk, Forest, Frame, Encodes, NothingUnder;
    NothingDeeper(cache0, k.path, upper);
    ForestNone(base, cache0, stale0, k.version, upper);
    FrameSame(cache0, stale0, upper);
    OneChild(c, common, upper, n);
    StepBuilt(base, cache0, stale0, cache0, stale0, cache, stale, k.version, upper, map[], map[], n, c);
  }

  lemma OneChild(c: Contents, common: seq<Nibble>, upper: seq<Nibble>, n: Nibble)
    requires upper + [n] <= common && |common| < HEIGHT && Many(c) && AllUnder(c, common)
    ensures AllUnder(c, upper) && n in Nibbles(c, |upper|) && Sub(c, |upper|, n) == c
    ensures forall k :: k in c ==> Nib(k, |upper|) == n
  {
    hide Nib;
    assert common[|upper|] == (upper + [n])[|upper|] && upper <= common;
    forall k | k in c ensures Nib(k, |upper|) == n && Extends(k, upper) {
      assert Extends(k, common);
      assert upper == common[..|upper|];
    }
    ManySome(c);
    assert TheKey(c) in c;
  }

  lemma NothingDeeper(cache: Nodes, path: seq<Nibble>, longer: seq<Nibble>)
    requires NothingUnder(cache, path) && path <= longer
    ensures NothingUnder(cache, longer)
  {
  }

  lemma SharedPath(a: Key, b: Key, path: seq<Nibble>)
    requires Extends(a, path) && Extends(b, path)
    ensures |path| <= HEIGHT && forall i :: 0 <= i < |path| ==> Nib(b, i) == Nib(a, i)
  {
  }

  lemma SameKey(a: Key, b: Key, d: nat)
    requires d <= HEIGHT && (forall i :: 0 <= i < d ==> Nib(a, i) == Nib(b, i))
    requires forall i :: d <= i < HEIGHT ==> Nib(a, i) == Nib(b, i)
    ensures a == b
  {
    NibblesDecide(a, b);
  }

  lemma CommonPath(oldKey: Key, oldValue: Value, key: Key, value: Value, path: seq<Nibble>, common: seq<Nibble>)
    requires Extends(oldKey, path) && Extends(key, path) && |path| <= |common| < HEIGHT
    requires forall i :: 0 <= i < |common| ==> common[i] == Nib(key, i)
    requires forall i :: |path| <= i < |common| ==> Nib(key, i) == Nib(oldKey, i)
    requires Nib(key, |common|) != Nib(oldKey, |common|)
    ensures path <= common && Extends(oldKey, common) && Extends(key, common)
    ensures var both := map[oldKey := oldValue] + map[key := value]; Many(both) && AllUnder(both, common)
  {
    hide Nib;
    var both := map[oldKey := oldValue] + map[key := value];
    assert oldKey in both && key in both;
  }

  lemma LeavesApart(oldKey: Key, oldValue: Value, key: Key, value: Value, common: seq<Nibble>)
    requires |common| < HEIGHT && Nib(key, |common|) != Nib(oldKey, |common|) && Extends(oldKey, common)
    ensures Nib(oldKey, |common|) !in Nibbles(map[], |common|) && AllUnder(map[], common)
    ensures Nib(key, |common|) !in Nibbles(map[] + map[oldKey := oldValue], |common|)
    ensures AllUnder(map[] + map[oldKey := oldValue], common)
    ensures map[] + map[oldKey := oldValue] + map[key := value] == map[oldKey := oldValue] + map[key := value]
  {
    hide Nib, Extends;
  }

  lemma SpanKey(kvs: seq<(Key, Value)>, path: seq<Nibble>, i: nat)
    requires Span(kvs, path) && i < |kvs|
    ensures Extends(kvs[i].0, path)
  {
  }

  lemma SpanSome(kvs: seq<(Key, Value)>, path: seq<Nibble>)
    requires Span(kvs, path)
    ensures kvs != []
  {
  }

  lemma FrameSame(cache: Nodes, stale: set<NodeKey>, path: seq<Nibble>)
    ensures Frame(cache, stale, cache, stale, path)
  {
  }

  lemma CutStart(kvs: seq<(Key, Value)>, d: nat)
    requires d < HEIGHT
    ensures Cut(kvs, d, 0) && MapOf(kvs[..0]) == map[]
  {
  }

  /** A run with a nibble that has no child yet. */
  lemma NewChild(base: Nodes, cache: Nodes, stale: set<NodeKey>, v: int, path: seq<Nibble>, ch: map<Nibble, Child>,
                 c: Contents, n: Nibble, run: Contents)
    requires Forest(base, cache, stale, v, path, ch, c) && |path| < HEIGHT && n !in Nibbles(c, |path|)
    requires forall k :: k in run ==> Nib(k, |path|) == n
    ensures NothingUnder(cache, path + [n]) && Sub(c + run, |path|, n) == run
    ensures forall k :: k in c + run || k in c ==> Nib(k, |path|) != n ==> k in c && k in c + run && (c + run)[k] == c[k]
  {
    hide TreeOk, Trie, NothingUnder, Nib;
    NoChild(base, cache, stale, v, path, ch, c, n);
    SubPlus(c, run, |path|, n);
    SubSome(c, |path|, n);
  }

  lemma RunUnder(kvs: seq<(Key, Value)>, path: seq<Nibble>, left: nat, right: nat)
    requires Span(kvs, path) && |path| < HEIGHT && left <= right < |kvs|
    ensures AllUnder(MapOf(kvs[..left]) + MapOf(kvs[left..right + 1]), path)
    ensures MapOf(kvs[..left]) + MapOf(kvs[left..right + 1]) == MapOf(kvs[..right + 1])
    ensures Nib(kvs[left].0, |path|) in Nibbles(MapOf(kvs[..left]) + MapOf(kvs[left..right + 1]), |path|)
  {
    hide MapOf, Nib, Extends;
    MapOfConcat(kvs[..left], kvs[left..right + 1]);
    assert kvs[..left] + kvs[left..right + 1] == kvs[..right + 1];
    forall k | k in MapOf(kvs[..right + 1]) ensures Extends(k, path) {
      MapOfKeys(kvs[..right + 1], k);
    }
    MapOfKeys(kvs[..right + 1], kvs[left].0);
    assert kvs[..right + 1][left].0 == kvs[left].0;
  }
}
