/**
 The real hash of the tree: an internal node is hashed as a binary tree over its sixteen slots, in which a lone leaf
 stands for its whole part and an empty part for a fixed placeholder.
 */
module JmtDigest {
  import opened Options
  import opened ByteKeys
  import opened MerkleTree
  import opened JmtStore
  import opened JmtHistory

  function Ascii(s: string): Bytes {
    seq(|s|, i requires 0 <= i < |s| => s[i] as int % 256)
  }

  const LEAF_TAG := "NOIR::SparseMerkleLeafNode"
  const INNER_TAG := "NOIR::SparseMerkleInternal"

  function LeafDigest(h: Hash, key: Key, value: Value): Bytes {
    h(h(Ascii(LEAF_TAG)) + key + h(value))
  }

  function InnerDigest(h: Hash, left: Bytes, right: Bytes): Bytes {
    h(h(Ascii(INNER_TAG)) + left + right)
  }

  /** What an internal node knows of a child. */
  datatype Slot = Slot(hash: Bytes, leaf: bool)

  type Slots = map<Nibble, Slot>

  /** The first occupied slot from `lo` on and before `hi`. */
  function First(slots: Slots, lo: nat, hi: nat): (r: Option<Nibble>)
    requires hi <= 16
    ensures r.Some? ==> r.value in slots && lo <= r.value < hi && forall n :: n in slots && lo <= n < hi ==> r.value <= n
    ensures r.None? ==> forall n :: n in slots ==> !(lo <= n < hi)
    decreases hi - lo
  {
    if lo >= hi then None else if lo in slots then Some(lo) else First(slots, lo + 1, hi)
  }

  predicate Width(w: nat) {
    w == 1 || w == 2 || w == 4 || w == 8 || w == 16
  }

  /** merkle_hash */
  function MerkleHash(h: Hash, placeholder: Bytes, slots: Slots, start: nat, w: nat): Bytes
    requires Width(w) && start + w <= 16
    decreases w
  {
    var first := First(slots, start, start + w);
    if first.None? then placeholder
    else if w == 1 || (First(slots, first.value as int + 1, start + w).None? && slots[first.value].leaf) then slots[first.value].hash
    else
      InnerDigest(h, MerkleHash(h, placeholder, slots, start, w / 2), MerkleHash(h, placeholder, slots, start + w / 2, w / 2))
  }

  /** The hash of a node whose children carry the hashes of theirs. */
  function Digest(h: Hash, placeholder: Bytes, t: Tree): Bytes {
    match t
    case NullTree => placeholder
    case LeafTree(k, v) => LeafDigest(h, k, v)
    case NodeTree(ch) =>
      MerkleHash(h, placeholder, map n | n in ch :: Slot(Digest(h, placeholder, ch[n]), ch[n].LeafTree?), 0, 16)
  }

  // ---- The hash of a part of the slots in terms of the contents ----

  /** The slots of the node for `c` at depth `d`. */
  ghost function SlotsOf(h: Hash, placeholder: Bytes, c: Contents, d: nat): Slots
    requires d < HEIGHT
  {
    map n | n in Nibbles(c, d) ::
      Slot(Digest(h, placeholder, Trie(Sub(c, d, n), d + 1)), Trie(Sub(c, d, n), d + 1).LeafTree?)
  }

  ghost function Part(c: Contents, d: nat, start: nat, w: nat): Contents
    requires d < HEIGHT
  {
    map k | k in c && start <= Nib(k, d) < start + w :: c[k]
  }

  ghost function PartHash(h: Hash, placeholder: Bytes, c: Contents, d: nat, start: nat, w: nat): Bytes
    requires d < HEIGHT && Width(w) && start + w <= 16
  {
    MerkleHash(h, placeholder, SlotsOf(h, placeholder, c, d), start, w)
  }

  lemma NodeIsWhole(h: Hash, placeholder: Bytes, c: Contents, d: nat)
    requires Many(c) && d < HEIGHT
    ensures Digest(h, placeholder, Trie(c, d)) == PartHash(h, placeholder, c, d, 0, 16) && Part(c, d, 0, 16) == c
  {
    hide MerkleHash;
    TrieNode(c, d);
    ManySome(c);
    var ch := Trie(c, d).children;
    assert (map n | n in ch :: Slot(Digest(h, placeholder, ch[n]), ch[n].LeafTree?)) == SlotsOf(h, placeholder, c, d);
  }

  lemma PartSlots(h: Hash, placeholder: Bytes, c: Contents, d: nat, start: nat, w: nat)
    requires d < HEIGHT
    ensures forall k :: k in Part(c, d, start, w) ==> Nib(k, d) in SlotsOf(h, placeholder, c, d)
    ensures forall n :: n in SlotsOf(h, placeholder, c, d) && start <= n < start + w ==>
              Part(c, d, start, w) != map[] && Sub(c, d, n) != map[] && forall k :: k in Sub(c, d, n) ==> k in Part(c, d, start, w)
  {
    hide Digest, Trie, Nib;
    forall n | n in Nibbles(c, d) ensures Sub(c, d, n) != map[] {
      SubSome(c, d, n);
    }
    forall n | n in Nibbles(c, d) && start <= n < start + w ensures Part(c, d, start, w) != map[] {
      assert TheKey(Sub(c, d, n)) in Part(c, d, start, w);
    }
  }

  lemma PartEmpty(h: Hash, placeholder: Bytes, c: Contents, d: nat, start: nat, w: nat)
    requires d < HEIGHT && Width(w) && start + w <= 16 && Part(c, d, start, w) == map[]
    ensures PartHash(h, placeholder, c, d, start, w) == placeholder
  {
    hide Digest, Trie, Nib;
    PartSlots(h, placeholder, c, d, start, w);
  }

  lemma PartLeaf(h: Hash, placeholder: Bytes, c: Contents, path: seq<Nibble>, start: nat, w: nat)
    requires AllUnder(c, path) && |path| < HEIGHT && Width(w) && start + w <= 16
    requires var part := Part(c, |path|, start, w); part != map[] && !Many(part)
    ensures var part := Part(c, |path|, start, w);
            PartHash(h, placeholder, c, |path|, start, w) == LeafDigest(h, TheKey(part), part[TheKey(part)])
  {
    hide Digest, Trie, Nib, LeafDigest, InnerDigest, Extends, SlotsOf, First;
    var part := Part(c, |path|, start, w);
    LoneSlot(h, placeholder, c, path, start, w);
    OnlySlot(h, placeholder, c, path, start, w);
    ChildKind(h, placeholder, c, path, Nib(TheKey(part), |path|));
  }

  /** When one slot of the part is taken, its contents are those of the part. */
  lemma OnlySlot(h: Hash, placeholder: Bytes, c: Contents, path: seq<Nibble>, start: nat, w: nat)
    requires |path| < HEIGHT && Width(w) && start + w <= 16
    ensures var slots := SlotsOf(h, placeholder, c, |path|);
            var first := First(slots, start, start + w);
            first.Some? && (w == 1 || First(slots, first.value as int + 1, start + w).None?) ==>
              first.value in Nibbles(c, |path|) && Sub(c, |path|, first.value) == Part(c, |path|, start, w)
  {
    hide Digest, Trie, Nib;
    PartSlots(h, placeholder, c, |path|, start, w);
  }

  lemma PartChild(h: Hash, placeholder: Bytes, c: Contents, path: seq<Nibble>, start: nat)
    requires AllUnder(c, path) && |path| < HEIGHT && start < 16 && Many(Part(c, |path|, start, 1))
    ensures PartHash(h, placeholder, c, |path|, start, 1) ==
            Digest(h, placeholder, Trie(Part(c, |path|, start, 1), |path| + 1))
    ensures Part(c, |path|, start, 1) == Sub(c, |path|, start)
  {
    hide Digest, Trie, Nib, LeafDigest, InnerDigest, Extends, SlotsOf, First;
    SomeSlot(h, placeholder, c, |path|, start, 1);
    OnlySlot(h, placeholder, c, path, start, 1);
    ChildKind(h, placeholder, c, path, start);
  }

  lemma SomeSlot(h: Hash, placeholder: Bytes, c: Contents, d: nat, start: nat, w: nat)
    requires d < HEIGHT && Width(w) && start + w <= 16 && Many(Part(c, d, start, w))
    ensures First(SlotsOf(h, placeholder, c, d), start, start + w).Some?
  {
    hide Digest, Trie, Nib;
    PartSlots(h, placeholder, c, d, start, w);
    ManySome(Part(c, d, start, w));
    var k := TheKey(Part(c, d, start, w));
    assert Nib(k, d) in SlotsOf(h, placeholder, c, d);
  }

  lemma PartHalves(h: Hash, placeholder: Bytes, c: Contents, path: seq<Nibble>, start: nat, w: nat)
    requires AllUnder(c, path) && |path| < HEIGHT && Width(w) && w > 1 && start + w <= 16
    requires Many(Part(c, |path|, start, w))
    ensures PartHash(h, placeholder, c, |path|, start, w) ==
            InnerDigest(h, PartHash(h, placeholder, c, |path|, start, w / 2),
                           PartHash(h, placeholder, c, |path|, start + w / 2, w / 2))
  {
    hide Digest, Trie, Nib, LeafDigest, InnerDigest, Extends, SlotsOf, First, MerkleHash;
    var slots := SlotsOf(h, placeholder, c, |path|);
    SomeSlot(h, placeholder, c, |path|, start, w);
    OnlySlot(h, placeholder, c, path, start, w);
    var first := First(slots, start, start + w);
    if First(slots, first.value as int + 1, start + w).None? {
      ChildKind(h, placeholder, c, path, first.value);
    }
    MerkleHalves(h, placeholder, slots, start, w);
  }

  lemma MerkleHalves(h: Hash, placeholder: Bytes, slots: Slots, start: nat, w: nat)
    requires Width(w) && w > 1 && start + w <= 16 && First(slots, start, start + w).Some?
    requires var first := First(slots, start, start + w).value;
             First(slots, first as int + 1, start + w).None? ==> !slots[first].leaf
    ensures MerkleHash(h, placeholder, slots, start, w) ==
            InnerDigest(h, MerkleHash(h, placeholder, slots, start, w / 2),
                           MerkleHash(h, placeholder, slots, start + w / 2, w / 2))
  {
    hide InnerDigest, First;
  }

  lemma LoneSlot(h: Hash, placeholder: Bytes, c: Contents, path: seq<Nibble>, start: nat, w: nat)
    requires AllUnder(c, path) && |path| < HEIGHT && Width(w) && start + w <= 16
    requires var part := Part(c, |path|, start, w); part != map[] && !Many(part)
    ensures var n := Nib(TheKey(Part(c, |path|, start, w)), |path|);
            var slots := SlotsOf(h, placeholder, c, |path|);
            First(slots, start, start + w) == Some(n) && First(slots, n as int + 1, start + w).None?
  {
    hide Digest, Trie, Nib, Extends;
    var d := |path|;
    var part, slots := Part(c, d, start, w), SlotsOf(h, placeholder, c, d);
    PartSlots(h, placeholder, c, d, start, w);
    OnlyKey(part, TheKey(part));
    forall m | m in slots && start <= m < start + w ensures m == Nib(TheKey(part), d) {
      var k := TheKey(Sub(c, d, m));
      assert k in part;
    }
  }

  lemma ChildKind(h: Hash, placeholder: Bytes, c: Contents, path: seq<Nibble>, n: Nibble)
    requires AllUnder(c, path) && |path| < HEIGHT && n in Nibbles(c, |path|)
    ensures var sub, slot := Sub(c, |path|, n), SlotsOf(h, placeholder, c, |path|)[n];
            && sub != map[] && (slot.leaf <==> !Many(sub)) && slot.hash == Digest(h, placeholder, Trie(sub, |path| + 1))
            && (!Many(sub) ==> slot.hash == LeafDigest(h, TheKey(sub), sub[TheKey(sub)]))
  {
    hide Trie, Nib, LeafDigest, Extends;
    SubSome(c, |path|, n);
    SubUnder(c, path, n);
    var sub := Sub(c, |path|, n);
    TrieKind(sub, path + [n]);
    if !Many(sub) {
      OnlyKey(sub, TheKey(sub));
    }
  }

  // ---- Binding ----

  /** A collision, or an input that hashes to the placeholder. */
  ghost predicate Broken(h: Hash, placeholder: Bytes, x: Bytes, y: Bytes) {
    Collision(h, x, y) || h(x) == placeholder
  }

  ghost predicate HashesOk(h: Hash, placeholder: Bytes) {
    FixedLength(h) && |placeholder| == HASH_SIZE
  }

  lemma {:induction false} MerkleLength(h: Hash, placeholder: Bytes, slots: Slots, start: nat, w: nat)
    requires HashesOk(h, placeholder) && Width(w) && start + w <= 16
    requires forall n :: n in slots ==> |slots[n].hash| == HASH_SIZE
    ensures |MerkleHash(h, placeholder, slots, start, w)| == HASH_SIZE
  {
  }

  lemma {:induction false} DigestLength(h: Hash, placeholder: Bytes, t: Tree)
    requires HashesOk(h, placeholder)
    ensures |Digest(h, placeholder, t)| == HASH_SIZE
  {
    if t.NodeTree? {
      var slots := map n | n in t.children :: Slot(Digest(h, placeholder, t.children[n]), t.children[n].LeafTree?);
      forall n | n in slots ensures |slots[n].hash| == HASH_SIZE {
        DigestLength(h, placeholder, t.children[n]);
      }
      MerkleLength(h, placeholder, slots, 0, 16);
    }
  }

  lemma PartLength(h: Hash, placeholder: Bytes, c: Contents, d: nat, start: nat, w: nat)
    requires HashesOk(h, placeholder) && d < HEIGHT && Width(w) && start + w <= 16
    ensures |PartHash(h, placeholder, c, d, start, w)| == HASH_SIZE
  {
    hide Digest, Trie, MerkleHash;
    var slots := SlotsOf(h, placeholder, c, d);
    forall n | n in slots ensures |slots[n].hash| == HASH_SIZE {
      DigestLength(h, placeholder, Trie(Sub(c, d, n), d + 1));
    }
    MerkleLength(h, placeholder, slots, start, w);
  }

  lemma LeafOrInner(h: Hash, placeholder: Bytes, key: Key, value: Value, left: Bytes, right: Bytes) returns (x: Bytes, y: Bytes)
    requires HashesOk(h, placeholder) && LeafDigest(h, key, value) == InnerDigest(h, left, right)
    ensures Broken(h, placeholder, x, y)
  {
    x, y := h(Ascii(LEAF_TAG)) + key + h(value), h(Ascii(INNER_TAG)) + left + right;
    if x == y {
      assert x[..HASH_SIZE] == h(Ascii(LEAF_TAG)) && y[..HASH_SIZE] == h(Ascii(INNER_TAG));
      x, y := Ascii(LEAF_TAG), Ascii(INNER_TAG);
      assert x[18] != y[18];
    }
  }

  lemma LeavesBinding(h: Hash, placeholder: Bytes, k: Key, v: Value, k': Key, v': Value) returns (x: Bytes, y: Bytes)
    requires HashesOk(h, placeholder) && LeafDigest(h, k, v) == LeafDigest(h, k', v')
    ensures (k == k' && v == v') || Broken(h, placeholder, x, y)
  {
    var seed := h(Ascii(LEAF_TAG));
    x, y := seed + k + h(v), seed + k' + h(v');
    if x == y {
      assert x[|seed|..|seed| + 32] == k && y[|seed|..|seed| + 32] == k';
      assert x[|seed| + 32..] == h(v) && y[|seed| + 32..] == h(v');
      x, y := v, v';
    }
  }

  lemma HalvesBinding(h: Hash, placeholder: Bytes, l: Bytes, r: Bytes, l': Bytes, r': Bytes) returns (x: Bytes, y: Bytes)
    requires InnerDigest(h, l, r) == InnerDigest(h, l', r') && |l| == |l'| && |r| == |r'|
    ensures (l == l' && r == r') || Broken(h, placeholder, x, y)
  {
    var seed := h(Ascii(INNER_TAG));
    x, y := seed + l + r, seed + l' + r';
    if x == y {
      assert x[|seed|..|seed| + |l|] == l && y[|seed|..|seed| + |l|] == l';
      assert x[|seed| + |l|..] == r && y[|seed| + |l|..] == r';
    }
  }

  /** Several keys are always hashed as two halves. */
  lemma {:induction false} ManyIsInner(h: Hash, placeholder: Bytes, c: Contents, path: seq<Nibble>, start: nat, w: nat)
    returns (l: Bytes, r: Bytes)
    requires HashesOk(h, placeholder) && AllUnder(c, path) && |path| < HEIGHT && Width(w) && start + w <= 16
    requires Many(Part(c, |path|, start, w))
    ensures PartHash(h, placeholder, c, |path|, start, w) == InnerDigest(h, l, r)
    decreases HEIGHT - |path|, w
  {
    hide PartHash, InnerDigest, Digest, Trie, Extends;
    var d := |path|;
    if w > 1 {
      PartHalves(h, placeholder, c, path, start, w);
      l, r := PartHash(h, placeholder, c, d, start, w / 2), PartHash(h, placeholder, c, d, start + w / 2, w / 2);
    } else {
      var part := Part(c, d, start, 1);
      PartChild(h, placeholder, c, path, start);
      SubUnder(c, path, start);
      ManyShort(part, path + [start]);
      NodeIsWhole(h, placeholder, part, d + 1);
      l, r := ManyIsInner(h, placeholder, part, path + [start], 0, 16);
    }
  }

  /** A part that is not empty is hashed from some input. */
  lemma SomeInput(h: Hash, placeholder: Bytes, c: Contents, path: seq<Nibble>, start: nat, w: nat) returns (x: Bytes)
    requires HashesOk(h, placeholder) && AllUnder(c, path) && |path| < HEIGHT && Width(w) && start + w <= 16
    requires Part(c, |path|, start, w) != map[]
    ensures PartHash(h, placeholder, c, |path|, start, w) == h(x)
  {
    hide PartHash, Extends;
    var part := Part(c, |path|, start, w);
    if Many(part) {
      var l, r := ManyIsInner(h, placeholder, c, path, start, w);
      x := h(Ascii(INNER_TAG)) + l + r;
    } else {
      PartLeaf(h, placeholder, c, path, start, w);
      x := h(Ascii(LEAF_TAG)) + TheKey(part) + h(part[TheKey(part)]);
    }
  }

  lemma PartSplit(a: Contents, b: Contents, d: nat, start: nat, w: nat)
    requires d < HEIGHT && Width(w) && w > 1
    requires Part(a, d, start, w / 2) == Part(b, d, start, w / 2)
    requires Part(a, d, start + w / 2, w / 2) == Part(b, d, start + w / 2, w / 2)
    ensures Part(a, d, start, w) == Part(b, d, start, w)
  {
    hide Nib;
    forall k: Key ensures (k in Part(a, d, start, w) <==> k in Part(b, d, start, w))
      && (k in Part(a, d, start, w) ==> Part(a, d, start, w)[k] == Part(b, d, start, w)[k])
    {
      assert k in Part(a, d, start, w / 2) <==> k in Part(b, d, start, w / 2);
      assert k in Part(a, d, start + w / 2, w / 2) <==> k in Part(b, d, start + w / 2, w / 2);
    }
  }

  lemma {:induction false} PartBinding(h: Hash, placeholder: Bytes, a: Contents, b: Contents, path: seq<Nibble>, start: nat, w: nat)
    returns (x: Bytes, y: Bytes)
    requires HashesOk(h, placeholder) && AllUnder(a, path) && AllUnder(b, path)
    requires |path| < HEIGHT && Width(w) && start + w <= 16
    requires PartHash(h, placeholder, a, |path|, start, w) == PartHash(h, placeholder, b, |path|, start, w)
    ensures Part(a, |path|, start, w) == Part(b, |path|, start, w) || Broken(h, placeholder, x, y)
    decreases HEIGHT - |path|, w
  {
    hide PartHash, Extends, Broken, LeafDigest, InnerDigest, Digest, Trie, Part, Many;
    var d := |path|;
    var pa, pb := Part(a, d, start, w), Part(b, d, start, w);
    x, y := [], [];
    if pa == map[] || pb == map[] {
      x, y := EmptyBinding(h, placeholder, a, b, path, start, w);
    } else if !Many(pa) || !Many(pb) {
      x, y := LoneBinding(h, placeholder, a, b, path, start, w);
    } else if w == 1 {
      PartChild(h, placeholder, a, path, start);
      PartChild(h, placeholder, b, path, start);
      SubUnder(a, path, start);
      SubUnder(b, path, start);
      ManyShort(pa, path + [start]);
      NodeIsWhole(h, placeholder, pa, d + 1);
      NodeIsWhole(h, placeholder, pb, d + 1);
      x, y := PartBinding(h, placeholder, pa, pb, path + [start], 0, 16);
    } else {
      PartHalves(h, placeholder, a, path, start, w);
      PartHalves(h, placeholder, b, path, start, w);
      PartLengths(h, placeholder, a, b, d, start, w);
      x, y := HalvesBinding(h, placeholder,
        PartHash(h, placeholder, a, d, start, w / 2), PartHash(h, placeholder, a, d, start + w / 2, w / 2),
        PartHash(h, placeholder, b, d, start, w / 2), PartHash(h, placeholder, b, d, start + w / 2, w / 2));
      if !Broken(h, placeholder, x, y) {
        x, y := PartBinding(h, placeholder, a, b, path, start, w / 2);
        if !Broken(h, placeholder, x, y) {
          x, y := PartBinding(h, placeholder, a, b, path, start + w / 2, w / 2);
          if !Broken(h, placeholder, x, y) {
            PartSplit(a, b, d, start, w);
          }
        }
      }
    }
  }

  lemma PartLengths(h: Hash, placeholder: Bytes, a: Contents, b: Contents, d: nat, start: nat, w: nat)
    requires HashesOk(h, placeholder) && d < HEIGHT && Width(w) && w > 1 && start + w <= 16
    ensures |PartHash(h, placeholder, a, d, start, w / 2)| == |PartHash(h, placeholder, b, d, start, w / 2)|
    ensures |PartHash(h, placeholder, a, d, start + w / 2, w / 2)| == |PartHash(h, placeholder, b, d, start + w / 2, w / 2)|
  {
    hide PartHash;
    PartLength(h, placeholder, a, d, start, w / 2);
    PartLength(h, placeholder, b, d, start, w / 2);
    PartLength(h, placeholder, a, d, start + w / 2, w / 2);
    PartLength(h, placeholder, b, d, start + w / 2, w / 2);
  }

  lemma EmptyBinding(h: Hash, placeholder: Bytes, a: Contents, b: Contents, path: seq<Nibble>, start: nat, w: nat)
    returns (x: Bytes, y: Bytes)
    requires HashesOk(h, placeholder) && AllUnder(a, path) && AllUnder(b, path)
    requires |path| < HEIGHT && Width(w) && start + w <= 16
    requires PartHash(h, placeholder, a, |path|, start, w) == PartHash(h, placeholder, b, |path|, start, w)
    requires Part(a, |path|, start, w) == map[] || Part(b, |path|, start, w) == map[]
    ensures Part(a, |path|, start, w) == Part(b, |path|, start, w) || Broken(h, placeholder, x, y)
  {
    hide PartHash, Extends, Part;
    x, y := [], [];
    if Part(a, |path|, start, w) != map[] {
      PartEmpty(h, placeholder, b, |path|, start, w);
      x := SomeInput(h, placeholder, a, path, start, w);
    } else {
      PartEmpty(h, placeholder, a, |path|, start, w);
      if Part(b, |path|, start, w) != map[] {
        x := SomeInput(h, placeholder, b, path, start, w);
      }
    }
  }

  lemma LoneBinding(h: Hash, placeholder: Bytes, a: Contents, b: Contents, path: seq<Nibble>, start: nat, w: nat)
    returns (x: Bytes, y: Bytes)
    requires HashesOk(h, placeholder) && AllUnder(a, path) && AllUnder(b, path)
    requires |path| < HEIGHT && Width(w) && start + w <= 16
    requires PartHash(h, placeholder, a, |path|, start, w) == PartHash(h, placeholder, b, |path|, start, w)
    requires var pa, pb := Part(a, |path|, start, w), Part(b, |path|, start, w);
             pa != map[] && pb != map[] && (!Many(pa) || !Many(pb))
    ensures Part(a, |path|, start, w) == Part(b, |path|, start, w) || Broken(h, placeholder, x, y)
  {
    hide PartHash, Extends, Broken, LeafDigest, InnerDigest, Part;
    var pa, pb := Part(a, |path|, start, w), Part(b, |path|, start, w);
    var ka, kb := TheKey(pa), TheKey(pb);
    if Many(pa) {
      var l, r := ManyIsInner(h, placeholder, a, path, start, w);
      PartLeaf(h, placeholder, b, path, start, w);
      x, y := LeafOrInner(h, placeholder, kb, pb[kb], l, r);
    } else {
      PartLeaf(h, placeholder, a, path, start, w);
      if Many(pb) {
        var l, r := ManyIsInner(h, placeholder, b, path, start, w);
        x, y := LeafOrInner(h, placeholder, ka, pa[ka], l, r);
      } else {
        PartLeaf(h, placeholder, b, path, start, w);
        x, y := LeavesBinding(h, placeholder, ka, pa[ka], kb, pb[kb]);
        OnlyKey(pa, ka);
        OnlyKey(pb, kb);
      }
    }
  }

  /** Equal root hashes mean equal contents, or a broken hash is exhibited. */
  lemma RootBinding(h: Hash, placeholder: Bytes, a: Contents, b: Contents) returns (x: Bytes, y: Bytes)
    requires HashesOk(h, placeholder) && Digest(h, placeholder, Trie(a, 0)) == Digest(h, placeholder, Trie(b, 0))
    ensures a == b || Broken(h, placeholder, x, y)
  {
    hide PartHash, Broken;
    RootIsWhole(h, placeholder, a);
    RootIsWhole(h, placeholder, b);
    x, y := PartBinding(h, placeholder, a, b, [], 0, 16);
  }

  /** The root hash is that of all slots, also for a lone leaf and for nothing. */
  lemma RootIsWhole(h: Hash, placeholder: Bytes, c: Contents)
    ensures AllUnder(c, []) && Part(c, 0, 0, 16) == c && Digest(h, placeholder, Trie(c, 0)) == PartHash(h, placeholder, c, 0, 0, 16)
  {
    hide PartHash;
    assert Part(c, 0, 0, 16) == c;
    if Many(c) {
      NodeIsWhole(h, placeholder, c, 0);
    } else if c == map[] {
      PartEmpty(h, placeholder, c, 0, 0, 16);
    } else {
      PartLeaf(h, placeholder, c, [], 0, 16);
    }
  }
}
