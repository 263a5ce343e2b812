/** Reading the tree at a version, and what every version shows after any run of value sets. */
module JmtHistory {
  import opened Options
  import opened JmtStore
  import opened JmtSpans
  import opened JmtTree

  // ---- Reading ----

  /**
   The child to follow for nibble `n`: going down halves of the sixteen children, the search stops at a half that
   is empty or holds a single leaf, which may have another nibble.
   */
  method GetChild(children: map<Nibble, Child>, n: Nibble) returns (r: Option<Nibble>)
    ensures r.None? ==> n !in children
    ensures r.Some? ==> r.value in children && (r.value == n || (n !in children && children[r.value].leaf))
  {
    var h, width := 3, 8;
    while true
      invariant 0 <= h <= 3 && width == [1, 2, 4, 8][h]
      decreases h
    {
      var start := n - n % width;
      var range := set m | m in children && start <= m < start + width;
      assert n in children ==> n in range;
      if range == {} {
        return None;
      }
      if width == 1 || (|range| == 1 && exists m :: m in range && children[m].leaf) {
        SomeMember(range);
        var m :| m in range;
        OnlyNibble(range, m, n);
        return Some(m);
      }
      h, width := h - 1, width / 2;
    }
  }

  lemma OnlyNibble(s: set<Nibble>, m: Nibble, n: Nibble)
    requires m in s
    ensures |s| == 1 ==> s == {m}
  {
    if |s| == 1 {
      assert |s - {m}| == 0;
      assert s == {m};
    }
  }

  /** The value of `key` at `version`; an error when there is no such version. */
  method Get(reader: Nodes, key: Key, version: int, ghost c: Contents) returns (ok: bool, value: Option<Value>)
    requires NodeKey(version, []) in reader ==> Encodes(reader, NodeKey(version, []), c)
    ensures ok <==> NodeKey(version, []) in reader
    ensures ok ==> value == if key in c then Some(c[key]) else None
  {
    hide Nib, Trie;
    var next := NodeKey(version, []);
    if next !in reader {
      return false, None;
    }
    ghost var cur: Contents := c;
    while true
      invariant next in reader && Encodes(reader, next, cur)
      invariant Extends(key, next.path) || !Many(cur)
      invariant if key in c then key in cur && cur[key] == c[key] else key !in cur
      decreases HEIGHT - |next.path|
    {
      match reader[next]
      case Internal(children) =>
        InternalMany(reader, next, cur);
        var n := Nib(key, |next.path|);
        var child := GetChild(children, n);
        SubSome(cur, |next.path|, n);
        if child.None? {
          return true, None;
        }
        FollowChild(reader, next, cur, key, n, child.value);
        cur := Sub(cur, |next.path|, child.value);
        next := ChildKey(next, children[child.value].version, child.value);
      case Leaf(leafKey, leafValue) =>
        LeafOnly(reader, next, cur);
        return true, if leafKey == key then Some(leafValue) else None;
      case Null =>
        NullEmpty(reader, next, cur);
        return true, None;
    }
  }

  lemma InternalMany(m: Nodes, k: NodeKey, c: Contents)
    requires Encodes(m, k, c) && m[k].Internal?
    ensures Many(c) && |k.path| < HEIGHT && m[k].children.Keys == Nibbles(c, |k.path|)
  {
  }

  lemma LeafOnly(m: Nodes, k: NodeKey, c: Contents)
    requires Encodes(m, k, c) && m[k].Leaf?
    ensures c == map[m[k].key := m[k].value]
  {
    OnlyKey(c, TheKey(c));
  }

  lemma NullEmpty(m: Nodes, k: NodeKey, c: Contents)
    requires Encodes(m, k, c) && m[k].Null?
    ensures c == map[]
  {
  }

  lemma FollowChild(m: Nodes, k: NodeKey, c: Contents, key: Key, n: Nibble, child: Nibble)
    requires Encodes(m, k, c) && m[k].Internal? && |k.path| < HEIGHT && n == Nib(key, |k.path|)
    requires child in m[k].children && (child == n || (n !in m[k].children && m[k].children[child].leaf))
    requires Extends(key, k.path)
    ensures var ck, sub := ChildKey(k, m[k].children[child].version, child), Sub(c, |k.path|, child);
            && ck in m && Encodes(m, ck, sub) && (Extends(key, ck.path) || !Many(sub))
            && if key in c then key in sub && sub[key] == c[key] else key !in sub
  {
    hide Trie, Nib;
    InternalMany(m, k, c);
    assert ChildOk(m[k].children[child], c, |k.path|, child);
    assert key in c ==> n in Nibbles(c, |k.path|);
  }

  // ---- Any run of value sets ----

  /** The store after the value sets of versions 0, 1, and so on. */
  ghost predicate History(m: Nodes, sets: seq<seq<(Key, Value)>>) {
    && (forall x :: x in m ==> 0 <= x.version < |sets|)
    && forall v :: 0 <= v < |sets| ==> Shows(m, sets, v)
  }

  /** Version `v` is the trie of what was written up to it. */
  ghost predicate Shows(m: Nodes, sets: seq<seq<(Key, Value)>>, v: nat)
    requires v < |sets|
  {
    Encodes(m, NodeKey(v, []), After(map[], sets, v + 1))
  }

  lemma HistoryStore(m: Nodes, sets: seq<seq<(Key, Value)>>)
    requires History(m, sets)
    ensures StoreOk(m, |sets|, After(map[], sets, |sets|)) && RootThere(m, |sets|)
  {
    hide Encodes;
    if sets != [] {
      assert Shows(m, sets, |sets| - 1);
      RootStored(m, NodeKey(|sets| - 1, []), After(map[], sets, |sets|));
    }
  }

  lemma {:induction false} AfterConcat(c: Contents, a: seq<seq<(Key, Value)>>, b: seq<seq<(Key, Value)>>, i: nat)
    requires i <= |b|
    ensures After(c, a + b, |a| + i) == After(After(c, a, |a|), b, i)
    decreases i
  {
    if i == 0 {
      AfterPrefix(c, a, b, |a|);
    } else {
      AfterConcat(c, a, b, i - 1);
    }
  }

  lemma {:induction false} AfterPrefix(c: Contents, a: seq<seq<(Key, Value)>>, b: seq<seq<(Key, Value)>>, i: nat)
    requires i <= |a|
    ensures After(c, a + b, i) == After(c, a, i)
    decreases i
  {
    if i > 0 {
      AfterPrefix(c, a, b, i - 1);
    }
  }

  /** Writing further value sets adds nodes of their own versions only, and every version reads as it did. */
  lemma HistoryGrows(m: Nodes, sets: seq<seq<(Key, Value)>>, batch: Nodes, hashes: seq<Tree>, more: seq<seq<(Key, Value)>>)
    requires History(m, sets) && Written(m, batch, hashes, |sets|, After(map[], sets, |sets|), more, |more|)
    ensures History(m + batch, sets + more) && forall x :: x in m ==> x !in batch && (m + batch)[x] == m[x]
  {
    hide Shows, VersionOk, After;
    assert forall x :: x in m ==> x !in batch;
    forall v | 0 <= v < |sets + more| ensures Shows(m + batch, sets + more, v) {
      if v < |sets| {
        OldVersion(m, batch, sets, more, v);
      } else {
        NewVersion(m, sets, batch, hashes, more, v - |sets|);
      }
    }
  }

  lemma OldVersion(m: Nodes, batch: Nodes, sets: seq<seq<(Key, Value)>>, more: seq<seq<(Key, Value)>>, v: nat)
    requires v < |sets| && Shows(m, sets, v) && forall x :: x in m ==> x !in batch
    ensures Shows(m + batch, sets + more, v)
  {
    hide Encodes, After;
    AfterPrefix(map[], sets, more, v + 1);
    EncodesMore(m, m + batch, NodeKey(v, []), After(map[], sets, v + 1));
  }

  lemma NewVersion(m: Nodes, sets: seq<seq<(Key, Value)>>, batch: Nodes, hashes: seq<Tree>, more: seq<seq<(Key, Value)>>, i: nat)
    requires Written(m, batch, hashes, |sets|, After(map[], sets, |sets|), more, |more|) && i < |more|
    ensures Shows(m + batch, sets + more, |sets| + i)
  {
    hide Encodes, After, Trie;
    AfterConcat(map[], sets, more, i + 1);
    assert VersionOk(m + batch, hashes[i], |sets| + i, After(After(map[], sets, |sets|), more, i + 1));
  }

  /** What a version shows for a key is the last value written to it up to that version. */
  lemma {:induction false} LastWritten(sets: seq<seq<(Key, Value)>>, n: nat, key: Key)
    requires n <= |sets|
    ensures key in After(map[], sets, n) <==> exists i :: 0 <= i < n && key in MapOf(sets[i])
    ensures forall i :: 0 <= i < n && key in MapOf(sets[i]) && (forall j :: i < j < n ==> key !in MapOf(sets[j])) ==>
              After(map[], sets, n)[key] == MapOf(sets[i])[key]
    decreases n
  {
    hide MapOf;
    if n > 0 {
      LastWritten(sets, n - 1, key);
      if key in MapOf(sets[n - 1]) {
        assert After(map[], sets, n)[key] == MapOf(sets[n - 1])[key];
      }
    }
  }

  /** After any run, reading at a version gives the last value written to the key at or before it. */
  method GetInHistory(reader: Nodes, key: Key, v: nat, ghost sets: seq<seq<(Key, Value)>>) returns (ok: bool, value: Option<Value>)
    requires History(reader, sets)
    ensures ok <==> v < |sets|
    ensures ok ==> (value.Some? <==> exists i :: 0 <= i <= v && key in MapOf(sets[i]))
    ensures ok ==> forall i :: 0 <= i <= v && key in MapOf(sets[i]) && (forall j :: i < j <= v ==> key !in MapOf(sets[j])) ==>
                     value == Some(MapOf(sets[i])[key])
  {
    hide Encodes, After, MapOf;
    ghost var c: Contents := map[];
    if v < |sets| {
      assert Shows(reader, sets, v);
      LastWritten(sets, v + 1, key);
      c := After(map[], sets, v + 1);
      RootStored(reader, NodeKey(v, []), c);
    }
    ok, value := Get(reader, key, v, c);
  }

  lemma RootStored(m: Nodes, k: NodeKey, c: Contents)
    requires Encodes(m, k, c)
    ensures k in m
  {
  }

  /** One-by-one and batch insertion give the same root hashes. */
  lemma SameRootHashes(reader: Nodes, first: nat, c: Contents, sets: seq<seq<(Key, Value)>>,
                       batch1: Nodes, hashes1: seq<Tree>, batch2: Nodes, hashes2: seq<Tree>)
    requires Written(reader, batch1, hashes1, first, c, sets, |sets|)
    requires Written(reader, batch2, hashes2, first, c, sets, |sets|)
    ensures hashes1 == hashes2
  {
    hide Encodes, Trie, After;
    forall i | 0 <= i < |sets| ensures hashes1[i] == hashes2[i] {
      assert VersionOk(reader + batch1, hashes1[i], first + i, After(c, sets, i + 1));
      assert VersionOk(reader + batch2, hashes2[i], first + i, After(c, sets, i + 1));
    }
  }

  /** The trie determines the map: different contents never have the same root hash term. */
  lemma {:induction false} TrieDetermines(a: Contents, b: Contents, path: seq<Nibble>)
    requires AllUnder(a, path) && AllUnder(b, path) && |path| <= HEIGHT && Trie(a, |path|) == Trie(b, |path|)
    ensures a == b
    decreases HEIGHT - |path|
  {
    hide Nib, Extends, Trie, Nibbles, Sub;
    var d := |path|;
    TrieKind(a, path);
    TrieKind(b, path);
    if Many(a) {
      ManyShort(a, path);
      TrieNode(a, d);
      TrieNode(b, d);
      forall n | n in Nibbles(a, d) ensures Sub(a, d, n) == Sub(b, d, n) {
        SubUnder(a, path, n);
        SubUnder(b, path, n);
        assert Trie(a, d).children[n] == Trie(b, d).children[n];
        TrieDetermines(Sub(a, d, n), Sub(b, d, n), path + [n]);
      }
      SubsDecide(a, b, d);
    }
  }

  /** The kind of node tells how many keys there are, and a leaf which. */
  lemma TrieKind(c: Contents, path: seq<Nibble>)
    requires AllUnder(c, path) && |path| <= HEIGHT
    ensures match Trie(c, |path|)
            case NullTree => c == map[]
            case LeafTree(key, value) => c == map[key := value] && !Many(c)
            case NodeTree(_) => Many(c)
    ensures Many(c) ==> Trie(c, |path|).NodeTree?
  {
    hide Nib, Extends;
    if Many(c) {
      ManyShort(c, path);
      ManySome(c);
    } else if c != map[] {
      OnlyKey(c, TheKey(c));
    }
  }

  lemma TrieNode(c: Contents, d: nat)
    requires Many(c) && d < HEIGHT
    ensures Trie(c, d).NodeTree? && Trie(c, d).children.Keys == Nibbles(c, d)
    ensures forall n :: n in Nibbles(c, d) ==> Trie(c, d).children[n] == Trie(Sub(c, d, n), d + 1)
  {
  }

  lemma SubsDecide(a: Contents, b: Contents, d: nat)
    requires d < HEIGHT && Nibbles(a, d) == Nibbles(b, d)
    requires forall n :: n in Nibbles(a, d) ==> Sub(a, d, n) == Sub(b, d, n)
    ensures a == b
  {
    hide Nib;
    forall k | k in a ensures k in b && a[k] == b[k] {
      assert Nib(k, d) in Nibbles(a, d) && k in Sub(a, d, Nib(k, d));
    }
    forall k | k in b ensures k in a {
      assert Nib(k, d) in Nibbles(b, d) && k in Sub(b, d, Nib(k, d));
    }
  }
}
