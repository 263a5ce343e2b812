/** Nodes of the Jellyfish Merkle tree under (version, path) keys, and the key/value map a node stands for. */
module JmtStore {
  import opened Options
  import opened ByteKeys

  const HEIGHT: nat := 64

  type Nibble = n: int | 0 <= n < 16

  type Key = b: Bytes | |b| == 32 witness seq(32, _ => 0)

  type Value = Bytes

  type Contents = map<Key, Value>

  function Nib(k: Key, i: nat): Nibble
    requires i < HEIGHT
  {
    if i % 2 == 0 then k[i / 2] as int / 16 else k[i / 2] as int % 16
  }

  /**
   The hash of a node, kept as the term it is computed from. Every real hash is a function of it, so equal terms
   give equal hashes.
   */
  datatype Tree = NullTree | LeafTree(key: Key, value: Value) | NodeTree(children: map<Nibble, Tree>)

  datatype NodeKey = NodeKey(version: int, path: seq<Nibble>)

  datatype Child = Child(hash: Tree, version: int, leaf: bool)

  datatype Node = Null | Internal(children: map<Nibble, Child>) | Leaf(key: Key, value: Value)

  type Nodes = map<NodeKey, Node>

  function ChildKey(k: NodeKey, version: int, n: Nibble): NodeKey {
    NodeKey(version, k.path + [n])
  }

  function NodeHash(node: Node): Tree {
    match node
    case Null => NullTree
    case Leaf(k, v) => LeafTree(k, v)
    case Internal(children) => NodeTree(map n | n in children :: children[n].hash)
  }

  // ---- The canonical trie ----

  ghost predicate Many(m: Contents) {
    exists a, b :: a in m && b in m && a != b
  }

  lemma ManySome(m: Contents)
    requires Many(m)
    ensures m != map[]
  {
  }

  ghost function TheKey(m: Contents): (k: Key)
    requires m != map[]
    ensures k in m
  {
    SomeMember(m.Keys);
    assert m.Keys != {};
    var k :| k in m;
    k
  }

  lemma OnlyKey(m: Contents, k: Key)
    requires k in m && !Many(m)
    ensures TheKey(m) == k && m == map[k := m[k]]
  {
    forall x | x in m ensures x == k {
    }
  }

  ghost function Nibbles(m: Contents, d: nat): set<Nibble>
    requires d < HEIGHT
  {
    set k | k in m :: Nib(k, d)
  }

  /** The part of the map whose keys have nibble `n` at depth `d`. */
  ghost function Sub(m: Contents, d: nat, n: Nibble): Contents
    requires d < HEIGHT
  {
    map k | k in m && Nib(k, d) == n :: m[k]
  }

  ghost function Trie(m: Contents, d: nat): Tree
    decreases HEIGHT - d
  {
    if m == map[] then NullTree
    else if !Many(m) then LeafTree(TheKey(m), m[TheKey(m)])
    else if d >= HEIGHT then NullTree
    else NodeTree(map n | n in Nibbles(m, d) :: Trie(Sub(m, d, n), d + 1))
  }

  predicate Extends(k: Key, path: seq<Nibble>) {
    |path| <= HEIGHT && forall i :: 0 <= i < |path| ==> Nib(k, i) == path[i]
  }

  ghost predicate AllUnder(m: Contents, path: seq<Nibble>) {
    forall k :: k in m ==> Extends(k, path)
  }

  /** Node `k` of the store and the nodes below it are the canonical trie of `c` from the depth of `k` on. */
  ghost predicate Encodes(m: Nodes, k: NodeKey, c: Contents)
    decreases HEIGHT - |k.path|
  {
    var d := |k.path|;
    k in m &&
    if c == map[] then m[k].Null? && d == 0
    else if !Many(c) then m[k] == Leaf(TheKey(c), c[TheKey(c)])
    else
      && d < HEIGHT && m[k].Internal?
      && m[k].children.Keys == Nibbles(c, d)
      && forall n :: n in m[k].children ==>
           && ChildOk(m[k].children[n], c, d, n)
           && Encodes(m, ChildKey(k, m[k].children[n].version, n), Sub(c, d, n))
  }

  ghost predicate ChildOk(child: Child, c: Contents, d: nat, n: Nibble)
    requires d < HEIGHT
  {
    child.hash == Trie(Sub(c, d, n), d + 1) && (child.leaf <==> !Many(Sub(c, d, n)))
  }

  lemma EncodesHash(m: Nodes, k: NodeKey, c: Contents)
    requires Encodes(m, k, c)
    ensures NodeHash(m[k]) == Trie(c, |k.path|)
  {
  }

  /** Two keys that agree in all nibbles are the same key. */
  lemma NibblesDecide(a: Key, b: Key)
    requires forall i :: 0 <= i < HEIGHT ==> Nib(a, i) == Nib(b, i)
    ensures a == b
  {
    forall j | 0 <= j < 32 ensures a[j] == b[j] {
      assert Nib(a, 2 * j) == Nib(b, 2 * j) && Nib(a, 2 * j + 1) == Nib(b, 2 * j + 1);
    }
  }

  /** While there is more than one key the path is not at its full length. */
  lemma ManyShort(c: Contents, path: seq<Nibble>)
    requires Many(c) && AllUnder(c, path)
    ensures |path| < HEIGHT
  {
    var a, b :| a in c && b in c && a != b;
    assert Extends(a, path) && Extends(b, path);
    if |path| == HEIGHT {
      NibblesDecide(a, b);
    }
  }

  lemma SubUnder(c: Contents, path: seq<Nibble>, n: Nibble)
    requires AllUnder(c, path) && |path| < HEIGHT
    ensures AllUnder(Sub(c, |path|, n), path + [n])
  {
  }

  lemma SubSome(c: Contents, d: nat, n: Nibble)
    requires d < HEIGHT
    ensures Sub(c, d, n) != map[] <==> n in Nibbles(c, d)
  {
    SomeMember(Sub(c, d, n).Keys);
    if n in Nibbles(c, d) {
      var k :| k in c && Nib(k, d) == n;
      assert k in Sub(c, d, n);
    }
  }

  // ---- Which nodes belong to the tree ----

  /** `x` is the node `k` or one below it. */
  ghost predicate Reaches(m: Nodes, k: NodeKey, x: NodeKey)
    decreases |x.path| - |k.path|
  {
    if |x.path| <= |k.path| then x == k
    else
      && k.path <= x.path && k in m && m[k].Internal?
      && var n := x.path[|k.path|];
         n in m[k].children && Reaches(m, ChildKey(k, m[k].children[n].version, n), x)
  }

  lemma {:induction false} ReachesUnder(m: Nodes, k: NodeKey, x: NodeKey)
    requires Reaches(m, k, x)
    ensures k.path <= x.path
  {
  }

  /** The two stores agree on keys under `path`. */
  ghost predicate Agree(m: Nodes, m': Nodes, path: seq<Nibble>) {
    forall x: NodeKey :: path <= x.path ==> (x in m <==> x in m') && (x in m ==> m[x] == m'[x])
  }

  lemma AgreeLonger(m: Nodes, m': Nodes, path: seq<Nibble>, longer: seq<Nibble>)
    requires Agree(m, m', path) && path <= longer
    ensures Agree(m, m', longer)
  {
  }

  lemma {:induction false} EncodesFrame(m: Nodes, m': Nodes, k: NodeKey, c: Contents)
    requires Encodes(m, k, c) && Agree(m, m', k.path)
    ensures Encodes(m', k, c)
    decreases HEIGHT - |k.path|
  {
    if c != map[] && Many(c) {
      forall n | n in m[k].children ensures Encodes(m', ChildKey(k, m[k].children[n].version, n), Sub(c, |k.path|, n)) {
        AgreeLonger(m, m', k.path, k.path + [n]);
        EncodesFrame(m, m', ChildKey(k, m[k].children[n].version, n), Sub(c, |k.path|, n));
      }
    }
  }

  lemma {:induction false} ReachesFrame(m: Nodes, m': Nodes, k: NodeKey, x: NodeKey)
    requires Agree(m, m', k.path)
    ensures Reaches(m, k, x) <==> Reaches(m', k, x)
    decreases |x.path| - |k.path|
  {
    if |x.path| > |k.path| && k.path <= x.path && k in m && m[k].Internal? {
      var n := x.path[|k.path|];
      if n in m[k].children {
        AgreeLonger(m, m', k.path, k.path + [n]);
        ReachesFrame(m, m', ChildKey(k, m[k].children[n].version, n), x);
      }
    }
  }

  /** More nodes elsewhere do not matter. */
  lemma {:induction false} EncodesMore(m: Nodes, m': Nodes, k: NodeKey, c: Contents)
    requires Encodes(m, k, c) && forall x :: x in m ==> x in m' && m'[x] == m[x]
    ensures Encodes(m', k, c)
    decreases HEIGHT - |k.path|
  {
    if c != map[] && Many(c) {
      forall n | n in m[k].children ensures Encodes(m', ChildKey(k, m[k].children[n].version, n), Sub(c, |k.path|, n)) {
        EncodesMore(m, m', ChildKey(k, m[k].children[n].version, n), Sub(c, |k.path|, n));
      }
    }
  }
}
