/** Byte-string keys, their lexicographic order, and key ranges given by a prefix. */
module ByteKeys {

  type Byte = x: int | 0 <= x < 256
  type Bytes = seq<Byte>

  /** Lexicographic order; a proper prefix comes first. */
  predicate Less(a: Bytes, b: Bytes) {
    if a == [] then b != []
    else if b == [] then false
    else a[0] < b[0] || (a[0] == b[0] && Less(a[1..], b[1..]))
  }

  // ---- Less is a strict total order ----

  lemma {:induction false} Irreflexive(a: Bytes)
    ensures !Less(a, a)
    decreases |a|
  {
    if a != [] {
      Irreflexive(a[1..]);
    }
  }

  lemma {:induction false} Transitive(a: Bytes, b: Bytes, c: Bytes)
    requires Less(a, b) && Less(b, c)
    ensures Less(a, c)
    decreases |a|
  {
    if a != [] && a[0] == b[0] && b[0] == c[0] {
      Transitive(a[1..], b[1..], c[1..]);
    }
  }

  lemma {:induction false} Total(a: Bytes, b: Bytes)
    ensures a == b || Less(a, b) || Less(b, a)
    decreases |a|
  {
    if a != [] && b != [] && a[0] == b[0] {
      Total(a[1..], b[1..]);
      assert a == [a[0]] + a[1..] && b == [b[0]] + b[1..];
    }
  }

  lemma Order()
    ensures forall a :: !Less(a, a)
    ensures forall a, b, c :: Less(a, b) && Less(b, c) ==> Less(a, c)
    ensures forall a, b :: a == b || Less(a, b) || Less(b, a)
  {
    hide Less;
    forall a ensures !Less(a, a) { Irreflexive(a); }
    forall a, b, c | Less(a, b) && Less(b, c) ensures Less(a, c) { Transitive(a, b, c); }
    forall a, b ensures a == b || Less(a, b) || Less(b, a) { Total(a, b); }
  }

  /** The common prefix decides nothing; the first difference decides all. */
  lemma {:induction false} LessAt(a: Bytes, b: Bytes, n: nat)
    requires n <= |a| && n <= |b| && a[..n] == b[..n]
    ensures Less(a, b) <==> Less(a[n..], b[n..])
    decreases n
  {
    if n > 0 {
      assert a[0] == a[..n][0] == b[..n][0] == b[0];
      assert a[1..][..n - 1] == a[..n][1..] == b[..n][1..] == b[1..][..n - 1];
      LessAt(a[1..], b[1..], n - 1);
      assert a[1..][n - 1..] == a[n..] && b[1..][n - 1..] == b[n..];
    } else {
      assert a[0..] == a && b[0..] == b;
    }
  }

  /** compare_blob: bytewise over the common length, then by length. */
  method CompareBlob(a: Bytes, b: Bytes) returns (r: int)
    ensures r < 0 <==> Less(a, b)
    ensures r == 0 <==> a == b
  {
    hide Less;
    var i := 0;
    while i < |a| && i < |b| && a[i] == b[i]
      invariant i <= |a| && i <= |b| && a[..i] == b[..i]
    {
      i := i + 1;
    }
    LessAt(a, b, i);
    LessHead(a[i..], b[i..]);
    if i < |a| && i < |b| {
      r := a[i] as int - b[i] as int;
    } else if |a| < |b| {
      r := -1;
    } else if |a| > |b| {
      r := 1;
    } else {
      assert a == a[..i] && b == b[..i];
      r := 0;
    }
  }

  lemma LessHead(a: Bytes, b: Bytes)
    ensures a == [] ==> (Less(a, b) <==> b != [])
    ensures a != [] && b == [] ==> !Less(a, b)
    ensures a != [] && b != [] && a[0] != b[0] ==> (Less(a, b) <==> a[0] < b[0])
  {
  }

  // ---- Prefix ranges ----

  /** The first key after all keys with prefix `p`; empty when there is none. */
  function NextPrefix(p: Bytes): Bytes {
    if p == [] then []
    else if p[|p| - 1] < 255 then p[..|p| - 1] + [p[|p| - 1] + 1]
    else NextPrefix(p[..|p| - 1])
  }

  /** get_next_prefix: add one to the last byte, dropping bytes that overflow. */
  method GetNextPrefix(p: Bytes) returns (next: Bytes)
    ensures next == NextPrefix(p)
  {
    next := p;
    while next != []
      invariant NextPrefix(next) == NextPrefix(p)
      decreases |next|
    {
      var last := next[|next| - 1];
      if last < 255 {
        return next[..|next| - 1] + [last + 1];
      }
      next := next[..|next| - 1];
    }
  }

  lemma {:induction false} NextPrefixShape(p: Bytes)
    ensures var n := NextPrefix(p);
            n != [] ==>
              |n| <= |p| && n[..|n| - 1] == p[..|n| - 1] && n[|n| - 1] as int == p[|n| - 1] as int + 1
              && forall i :: |n| <= i < |p| ==> p[i] == 255
    ensures NextPrefix(p) == [] <==> forall i :: 0 <= i < |p| ==> p[i] == 255
    decreases |p|
  {
    if p != [] && p[|p| - 1] == 255 {
      NextPrefixShape(p[..|p| - 1]);
      var n := NextPrefix(p);
      assert forall i :: 0 <= i < |p| - 1 ==> p[..|p| - 1][i] == p[i];
      if n != [] {
        assert p[..|p| - 1][..|n| - 1] == p[..|n| - 1];
      }
    }
  }

  lemma {:induction false} PrefixNotLess(p: Bytes, k: Bytes)
    requires p <= k
    ensures !Less(k, p)
  {
    LessAt(k, p, |p|);
    assert p[|p|..] == [];
  }

  /** Not below `p`, with the same bytes up to `n` and all of `p` after that 255: `k` extends `p`. */
  lemma {:induction false} FullTail(p: Bytes, k: Bytes, n: nat)
    requires n <= |p| && n <= |k| && p[..n] == k[..n] && !Less(k, p)
    requires forall i :: n <= i < |p| ==> p[i] == 255
    ensures p <= k
    decreases |p| - n
  {
    LessAt(k, p, n);
    LessHead(k[n..], p[n..]);
    if n < |p| {
      assert k[..n + 1] == k[..n] + [k[n]] && p[..n + 1] == p[..n] + [p[n]];
      FullTail(p, k, n + 1);
    }
  }

  /** A key has prefix `p` exactly when it is at least `p` and below the next prefix. */
  lemma PrefixRange(p: Bytes, k: Bytes)
    requires NextPrefix(p) != []
    ensures p <= k <==> !Less(k, p) && Less(k, NextPrefix(p))
  {
    hide Less;
    var n := NextPrefix(p);
    var m := |n| - 1;
    NextPrefixShape(p);
    if p <= k {
      PrefixNotLess(p, k);
      assert k[..m] == p[..m] == n[..m];
      LessAt(k, n, m);
      LessHead(k[m..], n[m..]);
    } else if !Less(k, p) && Less(k, n) {
      CommonPart(p, k, m);
      LessAt(k, n, m);
      LessAt(k, p, m);
      LessHead(k[m..], n[m..]);
      LessHead(k[m..], p[m..]);
      if m < |k| {
        if k[m] == p[m] {
          assert k[..m + 1] == k[..m] + [k[m]] && p[..m + 1] == p[..m] + [p[m]];
          FullTail(p, k, m + 1);
        } else {
          TailBelow(k, n, m);
        }
      }
      assert false;
    }
  }

  /** Between `p` and the next prefix, keys agree with `p` on all but the last byte of the latter. */
  lemma {:induction false} CommonPart(p: Bytes, k: Bytes, m: nat)
    requires m < |p| && NextPrefix(p) != [] && m == |NextPrefix(p)| - 1
    requires !Less(k, p) && Less(k, NextPrefix(p))
    ensures m <= |k| && k[..m] == p[..m]
  {
    NextPrefixShape(p);
    SandwichedPrefix(p, k, NextPrefix(p), m);
  }

  lemma {:induction false} SandwichedPrefix(p: Bytes, k: Bytes, n: Bytes, m: nat)
    requires m <= |p| && m <= |n| && p[..m] == n[..m]
    requires !Less(k, p) && Less(k, n)
    ensures m <= |k| && k[..m] == p[..m]
    decreases m
  {
    if m > 0 {
      assert p[0] == p[..m][0] == n[..m][0] == n[0];
      assert p[1..][..m - 1] == p[..m][1..] == n[..m][1..] == n[1..][..m - 1];
      assert k != [];
      SandwichedPrefix(p[1..], k[1..], n[1..], m - 1);
      assert k[..m] == [k[0]] + k[1..][..m - 1] && p[..m] == [p[0]] + p[1..][..m - 1];
    }
  }

  lemma {:induction false} TailBelow(k: Bytes, n: Bytes, m: nat)
    requires m + 1 == |n| && m < |k| && k[..m] == n[..m] && Less(k, n)
    ensures k[m] < n[m]
  {
    LessAt(k, n, m);
    assert n[m..] == [n[m]] && n[m..][1..] == [];
  }
}
