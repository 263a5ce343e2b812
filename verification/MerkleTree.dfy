/** The Merkle tree of RFC 6962, section 2.1, over an abstract hash with outputs of 32 bytes. */
module MerkleTree {
  import opened Options
  import opened ByteKeys

  const HASH_SIZE: nat := 32

  /** Lengths the splitting of a list is defined for. */
  const LENGTH_LIMIT: nat := 0x8000_0000

  type Hash = Bytes -> Bytes

  ghost predicate FixedLength(h: Hash) {
    forall x :: |h(x)| == HASH_SIZE
  }

  function LeafHash(h: Hash, leaf: Bytes): Bytes {
    h([0] + leaf)
  }

  function InnerHash(h: Hash, left: Bytes, right: Bytes): Bytes {
    h([1] + left + right)
  }

  /** Bytes::empty: no byte is different from zero. */
  predicate Zero(b: Bytes) {
    forall i :: 0 <= i < |b| ==> b[i] == 0
  }

  function Pow2(e: nat): (r: nat)
    ensures r > 0
  {
    if e == 0 then 1 else 2 * Pow2(e - 1)
  }

  /** std::bit_width */
  function BitWidth(n: nat): nat {
    if n == 0 then 0 else 1 + BitWidth(n / 2)
  }

  lemma {:induction false} BitWidthBounds(n: nat)
    requires n > 0
    ensures BitWidth(n) > 0 && Pow2(BitWidth(n) - 1) <= n < Pow2(BitWidth(n))
    decreases n
  {
    if n > 1 {
      BitWidthBounds(n / 2);
    }
  }

  function SplitPoint(length: nat): (k: nat)
    requires 0 < length < LENGTH_LIMIT
    ensures length > 1 ==> 0 < k < length
  {
    BitWidthBounds(length);
    var k := Pow2(BitWidth(length) - 1);
    if k == length then k / 2 else k
  }

  /** RFC 6962: the largest power of two smaller than the length. */
  lemma SplitPointIsLargest(length: nat)
    requires 1 < length < LENGTH_LIMIT
    ensures var k := SplitPoint(length); k < length <= 2 * k && exists e: nat :: k == Pow2(e)
  {
    BitWidthBounds(length);
    var e := BitWidth(length) - 1;
    if Pow2(e) == length {
      assert SplitPoint(length) == Pow2(e - 1);
    } else {
      assert SplitPoint(length) == Pow2(e);
    }
  }

  function HashFromList(h: Hash, list: seq<Bytes>): Bytes
    requires |list| < LENGTH_LIMIT
    decreases |list|
  {
    if |list| == 0 then h([])
    else if |list| == 1 then LeafHash(h, list[0])
    else
      var k := SplitPoint(|list|);
      InnerHash(h, HashFromList(h, list[..k]), HashFromList(h, list[k..]))
  }

  lemma {:induction false} Pow2Monotone(a: nat, b: nat)
    requires a < b
    ensures 2 * Pow2(a) <= Pow2(b)
    decreases b
  {
    if a < b - 1 {
      Pow2Monotone(a, b - 1);
    }
  }

  /** There is only one power of two to split at. */
  lemma SplitPointUnique(length: nat, e: nat)
    requires 1 < length < LENGTH_LIMIT && Pow2(e) < length <= 2 * Pow2(e)
    ensures SplitPoint(length) == Pow2(e)
  {
    hide Pow2, SplitPoint;
    SplitPointIsLargest(length);
    var f: nat :| SplitPoint(length) == Pow2(f);
    if e < f {
      Pow2Monotone(e, f);
    } else if f < e {
      Pow2Monotone(f, e);
    }
  }

  /** The equations of RFC 6962, section 2.1, in bytes: they determine the root of every list. */
  lemma RootEquations(h: Hash, list: seq<Bytes>, e: nat)
    requires |list| < LENGTH_LIMIT
    ensures list == [] ==> HashFromList(h, list) == h([])
    ensures |list| == 1 ==> HashFromList(h, list) == h([0] + list[0])
    ensures var k := Pow2(e);
            k < |list| <= 2 * k ==>
              HashFromList(h, list) == h([1] + HashFromList(h, list[..k]) + HashFromList(h, list[k..]))
  {
    hide Pow2, SplitPoint;
    if Pow2(e) < |list| <= 2 * Pow2(e) {
      SplitPointUnique(|list|, e);
    }
  }

  /** Two items: their hashes follow the tag in the order of the items. */
  lemma TwoItemRoot(h: Hash, a: Bytes, b: Bytes)
    ensures HashFromList(h, [a, b]) == h([1] + h([0] + a) + h([0] + b))
  {
    assert Pow2(0) == 1;
    assert [a, b][..1] == [a] && [a, b][1..] == [b];
    RootEquations(h, [a, b], 0);
    RootEquations(h, [a], 0);
    RootEquations(h, [b], 0);
  }

  /** The root that leaf `index` of `total` leads to; empty where the numbers do not fit or a part is all zero. */
  function HashFromAunts(h: Hash, index: int, total: int, leafHash: Bytes, aunts: seq<Bytes>): Bytes
    requires total < LENGTH_LIMIT
    decreases |aunts|
  {
    if index >= total || index < 0 || total <= 0 then []
    else if total == 1 then (if aunts != [] then [] else leafHash)
    else if aunts == [] then []
    else
      var left, last := SplitPoint(total), |aunts| - 1;
      if index < left then
        var r := HashFromAunts(h, index, left, leafHash, aunts[..last]);
        if Zero(r) then [] else InnerHash(h, r, aunts[last])
      else
        var r := HashFromAunts(h, index - left, total - left, leafHash, aunts[..last]);
        if Zero(r) then [] else InnerHash(h, aunts[last], r)
  }

  datatype Proof = Proof(total: int, index: int, leafHash: Bytes, aunts: seq<Bytes>)

  /** The reason for rejecting, if any. */
  function Verify(h: Hash, p: Proof, rootHash: Bytes, leaf: Bytes): Option<string>
    requires p.total < LENGTH_LIMIT
  {
    if p.total < 0 then Some("proof total must be positive")
    else if p.index < 0 then Some("proof index must be positive")
    else if LeafHash(h, leaf) != p.leafHash then Some("invalid leaf hash")
    else if HashFromAunts(h, p.index, p.total, p.leafHash, p.aunts) != rootHash then Some("invalid root hash")
    else None
  }

  // ---- Completeness ----

  /** The hashes of the subtrees beside the way from leaf `i` up to the root. */
  function Aunts(h: Hash, list: seq<Bytes>, i: nat): seq<Bytes>
    requires i < |list| < LENGTH_LIMIT
    decreases |list|
  {
    if |list| == 1 then []
    else
      var k := SplitPoint(|list|);
      if i < k then Aunts(h, list[..k], i) + [HashFromList(h, list[k..])]
      else Aunts(h, list[k..], i - k) + [HashFromList(h, list[..k])]
  }

  /** No proper subtree with leaf `i` in it has an all-zero hash. */
  predicate NoZeroBelow(h: Hash, list: seq<Bytes>, i: nat)
    requires i < |list| < LENGTH_LIMIT
    decreases |list|
  {
    |list| == 1 ||
    var k := SplitPoint(|list|);
    if i < k then !Zero(HashFromList(h, list[..k])) && NoZeroBelow(h, list[..k], i)
    else !Zero(HashFromList(h, list[k..])) && NoZeroBelow(h, list[k..], i - k)
  }

  lemma {:induction false} AuntsLeadToRoot(h: Hash, list: seq<Bytes>, i: nat)
    requires i < |list| < LENGTH_LIMIT
    ensures HashFromAunts(h, i, |list|, LeafHash(h, list[i]), Aunts(h, list, i)) ==
            if NoZeroBelow(h, list, i) then HashFromList(h, list) else []
    decreases |list|
  {
    hide SplitPoint, Zero, InnerHash, LeafHash, HashFromAunts, HashFromList, NoZeroBelow, Aunts;
    if |list| == 1 {
      OneLeaf(h, list);
    } else {
      var k := SplitPoint(|list|);
      ListSplit(h, list, i);
      if i < k {
        AuntsLeadToRoot(h, list[..k], i);
        OneAuntMore(h, i, |list|, LeafHash(h, list[i]), Aunts(h, list[..k], i), HashFromList(h, list[k..]));
      } else {
        AuntsLeadToRoot(h, list[k..], i - k);
        OneAuntMore(h, i, |list|, LeafHash(h, list[i]), Aunts(h, list[k..], i - k), HashFromList(h, list[..k]));
      }
    }
  }

  lemma OneLeaf(h: Hash, list: seq<Bytes>)
    requires |list| == 1
    ensures HashFromList(h, list) == LeafHash(h, list[0]) && Aunts(h, list, 0) == [] && NoZeroBelow(h, list, 0)
    ensures HashFromAunts(h, 0, 1, LeafHash(h, list[0]), []) == LeafHash(h, list[0])
  {
  }

  /** What the two halves of a list contribute. */
  lemma ListSplit(h: Hash, list: seq<Bytes>, i: nat)
    requires i < |list| < LENGTH_LIMIT && |list| > 1
    ensures var k := SplitPoint(|list|);
            var left, right := list[..k], list[k..];
            && HashFromList(h, list) == InnerHash(h, HashFromList(h, left), HashFromList(h, right))
            && (i < k ==>
                  && Aunts(h, list, i) == Aunts(h, left, i) + [HashFromList(h, right)]
                  && (NoZeroBelow(h, list, i) <==> !Zero(HashFromList(h, left)) && NoZeroBelow(h, left, i)))
            && (i >= k ==>
                  && Aunts(h, list, i) == Aunts(h, right, i - k) + [HashFromList(h, left)]
                  && (NoZeroBelow(h, list, i) <==> !Zero(HashFromList(h, right)) && NoZeroBelow(h, right, i - k)))
  {
    hide SplitPoint, Zero, InnerHash, LeafHash;
  }

  lemma OneAuntMore(h: Hash, index: nat, total: nat, leafHash: Bytes, aunts: seq<Bytes>, aunt: Bytes)
    requires index < total < LENGTH_LIMIT && total > 1
    ensures var k := SplitPoint(total);
            HashFromAunts(h, index, total, leafHash, aunts + [aunt]) ==
            if index < k then
              var r := HashFromAunts(h, index, k, leafHash, aunts);
              if Zero(r) then [] else InnerHash(h, r, aunt)
            else
              var r := HashFromAunts(h, index - k, total - k, leafHash, aunts);
              if Zero(r) then [] else InnerHash(h, aunt, r)
    ensures Zero([])
  {
    hide SplitPoint, InnerHash;
    assert (aunts + [aunt])[..|aunts|] == aunts;
  }

  /** The proof built for a leaf is accepted exactly when no subtree on its way is taken for empty. */
  lemma Completeness(h: Hash, list: seq<Bytes>, i: nat)
    requires FixedLength(h) && i < |list| < LENGTH_LIMIT
    ensures var p := Proof(|list|, i, LeafHash(h, list[i]), Aunts(h, list, i));
            Verify(h, p, HashFromList(h, list), list[i]) == None <==> NoZeroBelow(h, list, i)
  {
    AuntsLeadToRoot(h, list, i);
    HashLength(h, list);
  }

  /** The hash whose only all-zero output is that of the leaf `a`. */
  function ZeroAt(a: Bytes): Hash {
    (x: Bytes) => if x == [0] + a then seq(HASH_SIZE, _ => 0) else seq(HASH_SIZE, _ => 1)
  }

  /** Completeness does not hold outright: one all-zero leaf hash is enough for the proof built to be rejected. */
  lemma ZeroHashRejected(a: Bytes, b: Bytes)
    ensures var h := ZeroAt(a);
            var p := Proof(2, 0, LeafHash(h, a), Aunts(h, [a, b], 0));
            && FixedLength(h) && (forall x :: Zero(h(x)) <==> x == [0] + a)
            && Verify(h, p, HashFromList(h, [a, b]), a) == Some("invalid root hash")
  {
    var h := ZeroAt(a);
    forall x ensures Zero(h(x)) <==> x == [0] + a {
      assert x != [0] + a ==> h(x)[0] == 1;
    }
    assert SplitPoint(2) == 1;
    assert [a, b][..1] == [a];
    assert HashFromList(h, [a]) == LeafHash(h, a);
    assert !NoZeroBelow(h, [a, b], 0);
    AuntsLeadToRoot(h, [a, b], 0);
    HashLength(h, [a, b]);
  }

  lemma HashLength(h: Hash, list: seq<Bytes>)
    requires FixedLength(h) && |list| < LENGTH_LIMIT
    ensures |HashFromList(h, list)| == HASH_SIZE
  {
  }

  // ---- Binding ----

  ghost predicate Collision(h: Hash, x: Bytes, y: Bytes) {
    x != y && h(x) == h(y)
  }

  lemma {:induction false} AuntsLength(h: Hash, index: int, total: int, leafHash: Bytes, aunts: seq<Bytes>)
    requires FixedLength(h) && total < LENGTH_LIMIT && |leafHash| == HASH_SIZE
    ensures var r := HashFromAunts(h, index, total, leafHash, aunts); r == [] || |r| == HASH_SIZE
  {
  }

  /** Two inner nodes with the same hash have the same children, or the inputs collide. */
  lemma InnerBinding(h: Hash, l: Bytes, r: Bytes, l': Bytes, r': Bytes) returns (x: Bytes, y: Bytes)
    requires InnerHash(h, l, r) == InnerHash(h, l', r') && (|l| == |l'| || |r| == |r'|)
    ensures (l == l' && r == r') || Collision(h, x, y)
  {
    x, y := [1] + l + r, [1] + l' + r';
    if x == y {
      assert |l| == |l'|;
      assert l == x[1..|l| + 1] && l' == y[1..|l| + 1] && r == x[|l| + 1..] && r' == y[|l| + 1..];
    }
  }

  lemma {:induction false} AuntsBinding(h: Hash, list: seq<Bytes>, i: nat, leaf: Bytes, aunts: seq<Bytes>)
    returns (x: Bytes, y: Bytes)
    requires FixedLength(h) && i < |list| < LENGTH_LIMIT
    requires HashFromAunts(h, i, |list|, LeafHash(h, leaf), aunts) == HashFromList(h, list)
    ensures leaf == list[i] || Collision(h, x, y)
    decreases |list|
  {
    hide SplitPoint, FixedLength, InnerHash, LeafHash, Collision;
    HashLength(h, list);
    LeafHashLength(h, leaf);
    if |list| == 1 {
      x, y := LeafBinding(h, leaf, list[0]);
    } else {
      var k, last := SplitPoint(|list|), |aunts| - 1;
      var left, right := list[..k], list[k..];
      HashLength(h, left);
      HashLength(h, right);
      if i < k {
        var r := HashFromAunts(h, i, k, LeafHash(h, leaf), aunts[..last]);
        AuntsLength(h, i, k, LeafHash(h, leaf), aunts[..last]);
        x, y := InnerBinding(h, r, aunts[last], HashFromList(h, left), HashFromList(h, right));
        if !Collision(h, x, y) {
          x, y := AuntsBinding(h, left, i, leaf, aunts[..last]);
        }
      } else {
        var r := HashFromAunts(h, i - k, |list| - k, LeafHash(h, leaf), aunts[..last]);
        AuntsLength(h, i - k, |list| - k, LeafHash(h, leaf), aunts[..last]);
        x, y := InnerBinding(h, aunts[last], r, HashFromList(h, left), HashFromList(h, right));
        if !Collision(h, x, y) {
          x, y := AuntsBinding(h, right, i - k, leaf, aunts[..last]);
        }
      }
    }
  }

  lemma LeafHashLength(h: Hash, leaf: Bytes)
    requires FixedLength(h)
    ensures |LeafHash(h, leaf)| == HASH_SIZE
  {
  }

  lemma LeafBinding(h: Hash, a: Bytes, b: Bytes) returns (x: Bytes, y: Bytes)
    requires LeafHash(h, a) == LeafHash(h, b)
    ensures a == b || Collision(h, x, y)
  {
    x, y := [0] + a, [0] + b;
    assert a == x[1..] && b == y[1..];
  }

  /** An accepted proof for position i of a list of that length shows item i, or two inputs that collide. */
  lemma Binding(h: Hash, list: seq<Bytes>, p: Proof, leaf: Bytes) returns (x: Bytes, y: Bytes)
    requires FixedLength(h) && list != [] && p.total == |list| < LENGTH_LIMIT
    requires Verify(h, p, HashFromList(h, list), leaf) == None
    ensures 0 <= p.index < |list| && (leaf == list[p.index] || Collision(h, x, y))
  {
    HashLength(h, list);
    x, y := AuntsBinding(h, list, p.index, leaf, p.aunts);
  }
}
