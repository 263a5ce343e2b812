/** Proofs for all items of a list at once, from nodes that know their parent and their sibling. */
module MerkleProof {
  import opened Options
  import opened ByteKeys
  import opened MerkleTree

  class ProofNode {
    const hash: Bytes
    var parent: ProofNode?
    var left: ProofNode?
    var right: ProofNode?

    constructor (hash: Bytes)
      ensures this.hash == hash && parent == null && left == null && right == null
    {
      this.hash := hash;
      parent, left, right := null, null, null;
    }

    /** The hashes of the siblings on the way up. */
    method FlattenAunts(ghost chain: seq<ProofNode>, ghost aunts: seq<Bytes>, ghost repr: set<ProofNode>)
      returns (inner: seq<Bytes>)
      requires Climbs(LinksOf(repr), chain, aunts) && chain[0] == this
      ensures inner == aunts
    {
      assert |aunts| > 0 ==> StepsUp(LinksOf(repr), chain, aunts, 0);
      if parent == null && left == null && right == null {
        return [];
      }
      inner := [];
      var cur: ProofNode? := this;
      ghost var j := 0;
      while cur != null
        invariant j <= |chain| && cur == (if j < |chain| then chain[j] else null)
        invariant inner == aunts[..if j < |aunts| then j else |aunts|]
        decreases |chain| - j
      {
        assert j < |aunts| ==> StepsUp(LinksOf(repr), chain, aunts, j);
        if cur.left != null {
          inner := inner + [cur.left.hash];
        }
        if cur.right != null {
          inner := inner + [cur.right.hash];
        }
        cur := cur.parent;
        j := j + 1;
      }
    }
  }

  /** Where a node points to. */
  datatype Link = Link(parent: ProofNode?, left: ProofNode?, right: ProofNode?)

  type Links = map<ProofNode, Link>

  ghost function LinksOf(repr: set<ProofNode>): Links
    reads repr
  {
    map x | x in repr :: Link(x.parent, x.left, x.right)
  }

  ghost predicate HasSibling(link: Link, aunt: Bytes) {
    || (link.left == null && link.right != null && link.right.hash == aunt)
    || (link.right == null && link.left != null && link.left.hash == aunt)
  }

  /** From `chain[j]` the parent is next, and the one sibling has hash `aunts[j]`. */
  ghost predicate StepsUp(links: Links, chain: seq<ProofNode>, aunts: seq<Bytes>, j: nat)
    requires |chain| == |aunts| + 1 && j < |aunts|
  {
    chain[j] in links && links[chain[j]].parent == chain[j + 1] && HasSibling(links[chain[j]], aunts[j])
  }

  ghost predicate IsRoot(links: Links, node: ProofNode) {
    node in links && links[node] == Link(null, null, null)
  }

  /** `chain` runs from a node to the root, past siblings with the hashes `aunts`. */
  ghost predicate Climbs(links: Links, chain: seq<ProofNode>, aunts: seq<Bytes>) {
    && |chain| == |aunts| + 1
    && (forall j :: 0 <= j < |aunts| ==> StepsUp(links, chain, aunts, j))
    && IsRoot(links, chain[|aunts|])
  }

  ghost predicate TrailOk(h: Hash, items: seq<Bytes>, trail: ProofNode, root: ProofNode, chain: seq<ProofNode>, links: Links,
                          i: nat)
    requires i < |items| < LENGTH_LIMIT
  {
    && Climbs(links, chain, Aunts(h, items, i))
    && chain[0] == trail && chain[|chain| - 1] == root && trail.hash == LeafHash(h, items[i])
  }

  /** The trail of every item climbs past its aunts to the root. */
  ghost predicate TrailsOk(h: Hash, items: seq<Bytes>, trails: seq<ProofNode>, root: ProofNode,
                           chains: seq<seq<ProofNode>>, links: Links)
    requires |items| < LENGTH_LIMIT
  {
    && |trails| == |items| == |chains| && IsRoot(links, root) && root.hash == HashFromList(h, items)
    && forall i :: 0 <= i < |items| ==> TrailOk(h, items, trails[i], root, chains[i], links, i)
  }

  /** When the old root gets a parent and a sibling, a chain goes on to the parent. */
  lemma ClimbsJoined(links: Links, links': Links, chain: seq<ProofNode>, aunts: seq<Bytes>, root: ProofNode, aunt: Bytes)
    requires Climbs(links, chain, aunts) && IsRoot(links', root)
    requires forall x :: x in links && x != chain[|aunts|] ==> x in links' && links'[x] == links[x]
    requires var top := chain[|aunts|];
             top in links' && links'[top].parent == root && HasSibling(links'[top], aunt)
    ensures Climbs(links', chain + [root], aunts + [aunt])
  {
    forall j | 0 <= j < |aunts| + 1 ensures StepsUp(links', chain + [root], aunts + [aunt], j) {
      if j < |aunts| {
        assert StepsUp(links, chain, aunts, j);
      }
    }
  }

  ghost function Raised(chains: seq<seq<ProofNode>>, root: ProofNode): seq<seq<ProofNode>> {
    seq(|chains|, i requires 0 <= i < |chains| => chains[i] + [root])
  }

  /** Two trees whose roots were linked to each other and to a new root. */
  lemma TrailsJoined(h: Hash, items: seq<Bytes>, k: nat, lefts: seq<ProofNode>, rights: seq<ProofNode>, leftRoot: ProofNode,
                     rightRoot: ProofNode, lchains: seq<seq<ProofNode>>, rchains: seq<seq<ProofNode>>,
                     llinks: Links, rlinks: Links, root: ProofNode, links: Links)
    requires 1 < |items| < LENGTH_LIMIT && k == SplitPoint(|items|)
    requires TrailsOk(h, items[..k], lefts, leftRoot, lchains, llinks)
    requires TrailsOk(h, items[k..], rights, rightRoot, rchains, rlinks)
    requires IsRoot(links, root) && root.hash == InnerHash(h, leftRoot.hash, rightRoot.hash)
    requires leftRoot in links && links[leftRoot] == Link(root, null, rightRoot)
    requires rightRoot in links && links[rightRoot] == Link(root, leftRoot, null)
    requires forall x :: x in llinks && x != leftRoot ==> x in links && links[x] == llinks[x]
    requires forall x :: x in rlinks && x != rightRoot ==> x in links && links[x] == rlinks[x]
    ensures TrailsOk(h, items, lefts + rights, root, Raised(lchains + rchains, root), links)
  {
    hide Aunts, SplitPoint, Climbs, IsRoot;
    var chains, trails := Raised(lchains + rchains, root), lefts + rights;
    forall i | 0 <= i < |items| ensures TrailOk(h, items, trails[i], root, chains[i], links, i) {
      ListSplit(h, items, i);
      if i < k {
        assert TrailOk(h, items[..k], lefts[i], leftRoot, lchains[i], llinks, i);
        ChainLength(llinks, lchains[i], Aunts(h, items[..k], i));
        ClimbsJoined(llinks, links, lchains[i], Aunts(h, items[..k], i), root, rightRoot.hash);
      } else {
        assert TrailOk(h, items[k..], rights[i - k], rightRoot, rchains[i - k], rlinks, i - k);
        ChainLength(rlinks, rchains[i - k], Aunts(h, items[k..], i - k));
        ClimbsJoined(rlinks, links, rchains[i - k], Aunts(h, items[k..], i - k), root, leftRoot.hash);
      }
    }
  }

  lemma ChainLength(links: Links, chain: seq<ProofNode>, aunts: seq<Bytes>)
    requires Climbs(links, chain, aunts)
    ensures |chain| == |aunts| + 1
  {
  }

  method TrailsFromList(h: Hash, items: seq<Bytes>)
    returns (trails: seq<ProofNode>, root: ProofNode, ghost chains: seq<seq<ProofNode>>, ghost repr: set<ProofNode>)
    requires |items| < LENGTH_LIMIT
    ensures fresh(repr) && TrailsOk(h, items, trails, root, chains, LinksOf(repr))
    decreases |items|
  {
    hide TrailsOk, SplitPoint;
    if |items| == 0 {
      root := new ProofNode(h([]));
      TrailsOfNone(h, root, LinksOf({root}));
      return [], root, [], {root};
    }
    if |items| == 1 {
      root := new ProofNode(LeafHash(h, items[0]));
      TrailsOfOne(h, items, root, LinksOf({root}));
      return [root], root, [[root]], {root};
    }
    var k := SplitPoint(|items|);
    var lefts, leftRoot, lchains, lrepr := TrailsFromList(h, items[..k]);
    var rights, rightRoot, rchains, rrepr := TrailsFromList(h, items[k..]);
    ghost var llinks, rlinks := LinksOf(lrepr), LinksOf(rrepr);
    RootOf(h, items[..k], lefts, leftRoot, lchains, llinks);
    RootOf(h, items[k..], rights, rightRoot, rchains, rlinks);
    root := new ProofNode(InnerHash(h, leftRoot.hash, rightRoot.hash));
    leftRoot.parent := root;
    leftRoot.right := rightRoot;
    rightRoot.parent := root;
    rightRoot.left := leftRoot;
    trails := lefts + rights;
    chains, repr := Raised(lchains + rchains, root), lrepr + rrepr + {root};
    TrailsJoined(h, items, k, lefts, rights, leftRoot, rightRoot, lchains, rchains, llinks, rlinks, root, LinksOf(repr));
  }

  lemma RootOf(h: Hash, items: seq<Bytes>, trails: seq<ProofNode>, root: ProofNode, chains: seq<seq<ProofNode>>, links: Links)
    requires |items| < LENGTH_LIMIT && TrailsOk(h, items, trails, root, chains, links)
    ensures IsRoot(links, root)
  {
  }

  lemma TrailsOfNone(h: Hash, root: ProofNode, links: Links)
    requires IsRoot(links, root) && root.hash == h([])
    ensures TrailsOk(h, [], [], root, [], links)
  {
  }

  lemma TrailsOfOne(h: Hash, items: seq<Bytes>, root: ProofNode, links: Links)
    requires |items| == 1 && IsRoot(links, root) && root.hash == LeafHash(h, items[0])
    ensures TrailsOk(h, items, [root], root, [[root]], links)
  {
  }

  /** The root, and for every item a proof that is accepted unless a subtree on its way is taken for empty. */
  method ProofsFromList(h: Hash, items: seq<Bytes>) returns (rootHash: Bytes, proofs: seq<Proof>)
    requires |items| < LENGTH_LIMIT
    ensures rootHash == HashFromList(h, items) && |proofs| == |items|
    ensures forall i :: 0 <= i < |items| ==> proofs[i] == Proof(|items|, i, LeafHash(h, items[i]), Aunts(h, items, i))
    ensures FixedLength(h) ==>
              forall i :: 0 <= i < |items| ==>
                (Verify(h, proofs[i], rootHash, items[i]) == None <==> NoZeroBelow(h, items, i))
  {
    hide Aunts, Climbs, HashFromList, NoZeroBelow, FixedLength, Verify;
    var trails, root, chains, repr := TrailsFromList(h, items);
    rootHash := root.hash;
    proofs := [];
    for i := 0 to |trails|
      invariant |proofs| == i && TrailsOk(h, items, trails, root, chains, LinksOf(repr))
      invariant forall j :: 0 <= j < i ==> proofs[j] == Proof(|items|, j, LeafHash(h, items[j]), Aunts(h, items, j))
    {
      assert TrailOk(h, items, trails[i], root, chains[i], LinksOf(repr), i);
      var aunts := trails[i].FlattenAunts(chains[i], Aunts(h, items, i), repr);
      proofs := proofs + [Proof(|items|, i, trails[i].hash, aunts)];
    }
    if FixedLength(h) {
      forall i | 0 <= i < |items| ensures Verify(h, proofs[i], rootHash, items[i]) == None <==> NoZeroBelow(h, items, i) {
        Completeness(h, items, i);
      }
    }
  }
}
