/**
 The root hash of the tree in terms of bits: it is that of the binary sparse Merkle tree over the 256 bits of the keys, in
 which an empty subtree is the placeholder and a subtree with one key is its leaf.
 */
module JmtSparse {
  import opened ByteKeys
  import opened MerkleTree
  import opened JmtStore
  import opened JmtDigest

  const PLACES: seq<nat> := [128, 64, 32, 16, 8, 4, 2, 1]

  /** Bit `i` of a key, most significant first. */
  function Bit(k: Key, i: nat): nat
    requires i < 256
  {
    k[i / 8] as int / PLACES[i % 8] % 2
  }

  ghost function Half(c: Contents, i: nat, b: nat): Contents
    requires i < 256
  {
    map k | k in c && Bit(k, i) == b :: c[k]
  }

  /** The sparse Merkle tree from bit `i` on. */
  ghost function SparseRoot(h: Hash, placeholder: Bytes, c: Contents, i: nat): Bytes
    decreases 256 - i
  {
    if c == map[] then placeholder
    else if !Many(c) then h(h(Ascii("NOIR::SparseMerkleLeafNode")) + TheKey(c) + h(c[TheKey(c)]))
    else if i >= 256 then placeholder
    else
      h(h(Ascii("NOIR::SparseMerkleInternal")) +
        SparseRoot(h, placeholder, Half(c, i, 0), i + 1) + SparseRoot(h, placeholder, Half(c, i, 1), i + 1))
  }

  /** How many bits of a nibble are decided in a part of width `w`. */
  function Level(w: nat): nat
    requires Width(w)
  {
    match w
    case 16 => 0
    case 8 => 1
    case 4 => 2
    case 2 => 3
    case _ => 4
  }

  lemma BitOfNibble(k: Key, d: nat, w: nat)
    requires d < HEIGHT && Width(w) && w > 1
    ensures Bit(k, 4 * d + Level(w)) == Nib(k, d) / (w / 2) % 2
  {
    var x := k[d / 2] as int;
    assert (4 * d + Level(w)) / 8 == d / 2;
    if d % 2 == 0 {
      assert (4 * d + Level(w)) % 8 == Level(w);
      assert x / 16 / 8 == x / 128 && x / 16 / 4 == x / 64 && x / 16 / 2 == x / 32;
    } else {
      assert (4 * d + Level(w)) % 8 == 4 + Level(w);
      LowBit(x, w / 2);
    }
  }

  /** The low four bits of a number are those of its remainder. */
  lemma LowBit(x: nat, m: nat)
    requires m == 1 || m == 2 || m == 4 || m == 8
    ensures x / m % 2 == x % 16 / m % 2
  {
    match m
    case 1 =>
    case 2 => LowBit2(x);
    case 4 => LowBit4(x);
    case _ => LowBit8(x);
  }

  lemma LowBit2(x: nat)
    ensures x / 2 % 2 == x % 16 / 2 % 2
  {
    var q, r := x / 16, x % 16;
    var b := r / 2;
    assert x == 16 * q + r && 2 * b <= r < 2 * b + 2;
    Quotient(x, 2, 8 * q + b);
    Parity(4 * q, b);
  }

  lemma LowBit4(x: nat)
    ensures x / 4 % 2 == x % 16 / 4 % 2
  {
    var q, r := x / 16, x % 16;
    var b := r / 4;
    assert x == 16 * q + r && 4 * b <= r < 4 * b + 4;
    Quotient(x, 4, 4 * q + b);
    Parity(2 * q, b);
  }

  lemma LowBit8(x: nat)
    ensures x / 8 % 2 == x % 16 / 8 % 2
  {
    var q, r := x / 16, x % 16;
    var b := r / 8;
    assert x == 16 * q + r && 8 * b <= r < 8 * b + 8;
    Quotient(x, 8, 2 * q + b);
    Parity(1 * q, b);
  }

  lemma Quotient(x: nat, m: nat, y: nat)
    requires (m == 2 || m == 4 || m == 8) && m * y <= x < m * y + m
    ensures x / m == y
  {
    match m
    case 2 => assert x / 2 == y;
    case 4 => assert x / 4 == y;
    case _ => assert x / 8 == y;
  }

  lemma Parity(a: nat, b: nat)
    ensures (2 * a + b) % 2 == b % 2
  {
  }

  lemma HalfOfNibble(n: nat, start: nat, w: nat)
    requires Width(w) && w > 1 && start % w == 0 && start <= n < start + w <= 16
    ensures n / (w / 2) % 2 == if n < start + w / 2 then 0 else 1
  {
  }

  /** The two halves of a part of the slots are the keys with the next bit clear and those with it set. */
  lemma HalvesByBit(c: Contents, d: nat, start: nat, w: nat)
    requires d < HEIGHT && Width(w) && w > 1 && start % w == 0 && start + w <= 16
    ensures Half(Part(c, d, start, w), 4 * d + Level(w), 0) == Part(c, d, start, w / 2)
    ensures Half(Part(c, d, start, w), 4 * d + Level(w), 1) == Part(c, d, start + w / 2, w / 2)
  {
    hide Bit, Nib;
    forall k | k in Part(c, d, start, w) ensures Bit(k, 4 * d + Level(w)) == if Nib(k, d) < start + w / 2 then 0 else 1 {
      BitOfNibble(k, d, w);
      HalfOfNibble(Nib(k, d), start, w);
    }
  }

  lemma SparseLeaf(h: Hash, placeholder: Bytes, c: Contents, i: nat)
    ensures c == map[] ==> SparseRoot(h, placeholder, c, i) == placeholder
    ensures c != map[] && !Many(c) ==> SparseRoot(h, placeholder, c, i) == LeafDigest(h, TheKey(c), c[TheKey(c)])
  {
    hide Many, Ascii, Half;
  }

  lemma SparseInner(h: Hash, placeholder: Bytes, c: Contents, i: nat)
    requires Many(c) && i < 256
    ensures SparseRoot(h, placeholder, c, i) ==
            InnerDigest(h, SparseRoot(h, placeholder, Half(c, i, 0), i + 1), SparseRoot(h, placeholder, Half(c, i, 1), i + 1))
  {
    ManySome(c);
    hide Many, Ascii, Half;
  }

  lemma {:induction false} PartIsSparse(h: Hash, placeholder: Bytes, c: Contents, path: seq<Nibble>, start: nat, w: nat)
    requires AllUnder(c, path) && |path| < HEIGHT && Width(w) && start % w == 0 && start + w <= 16
    ensures PartHash(h, placeholder, c, |path|, start, w) ==
            SparseRoot(h, placeholder, Part(c, |path|, start, w), 4 * |path| + Level(w))
    decreases HEIGHT - |path|, w
  {
    hide PartHash, Digest, Trie, Extends, Part, Many, Half, SparseRoot, LeafDigest, InnerDigest;
    var d, part := |path|, Part(c, |path|, start, w);
    SparseLeaf(h, placeholder, part, 4 * d + Level(w));
    if part == map[] {
      PartEmpty(h, placeholder, c, d, start, w);
    } else if !Many(part) {
      PartLeaf(h, placeholder, c, path, start, w);
    } else if w == 1 {
      PartChild(h, placeholder, c, path, start);
      SubUnder(c, path, start);
      ManyShort(part, path + [start]);
      NodeIsWhole(h, placeholder, part, d + 1);
      PartIsSparse(h, placeholder, part, path + [start], 0, 16);
    } else {
      PartHalves(h, placeholder, c, path, start, w);
      HalvesByBit(c, d, start, w);
      SparseInner(h, placeholder, part, 4 * d + Level(w));
      PartIsSparse(h, placeholder, c, path, start, w / 2);
      PartIsSparse(h, placeholder, c, path, start + w / 2, w / 2);
    }
  }

  /** Hashing sixteen slots in halves, with lone leaves standing for their part, computes the sparse Merkle root of the contents. */
  lemma RootIsSparse(h: Hash, placeholder: Bytes, c: Contents)
    ensures Digest(h, placeholder, Trie(c, 0)) == SparseRoot(h, placeholder, c, 0)
  {
    hide PartHash, SparseRoot, Digest, Trie;
    RootIsWhole(h, placeholder, c);
    PartIsSparse(h, placeholder, c, [], 0, 16);
  }
}
