/** Sorted spans of key/value pairs and the iterator that cuts them into runs of equal nibbles. */
module JmtSpans {
  import opened Options
  import opened ByteKeys
  import opened JmtStore

  /** The map a list of pairs writes: for equal keys the last pair counts. */
  function MapOf(kvs: seq<(Key, Value)>): Contents {
    if kvs == [] then map[]
    else
      var last := |kvs| - 1;
      MapOf(kvs[..last])[kvs[last].0 := kvs[last].1]
  }

  lemma {:induction false} MapOfConcat(a: seq<(Key, Value)>, b: seq<(Key, Value)>)
    ensures MapOf(a + b) == MapOf(a) + MapOf(b)
    decreases |b|
  {
    if b == [] {
      assert a + b == a;
    } else {
      var last := |b| - 1;
      MapOfConcat(a, b[..last]);
      assert (a + b)[..|a + b| - 1] == a + b[..last];
    }
  }

  lemma {:induction false} MapOfKeys(kvs: seq<(Key, Value)>, k: Key)
    ensures k in MapOf(kvs) <==> exists i :: 0 <= i < |kvs| && kvs[i].0 == k
    decreases |kvs|
  {
    if kvs != [] {
      var last := |kvs| - 1;
      MapOfKeys(kvs[..last], k);
      if k in MapOf(kvs) && k != kvs[last].0 {
        var i :| 0 <= i < last && kvs[..last][i].0 == k;
        assert kvs[i].0 == k;
      }
      if exists i :: 0 <= i < |kvs| && kvs[i].0 == k {
        var i :| 0 <= i < |kvs| && kvs[i].0 == k;
        assert i < last ==> kvs[..last][i].0 == k;
      }
    }
  }

  lemma MapOfOne(kvs: seq<(Key, Value)>)
    requires |kvs| == 1
    ensures MapOf(kvs) == map[kvs[0].0 := kvs[0].1]
  {
    assert kvs[..0] == [];
  }

  /** Strictly sorted pairs whose keys all extend `path`. */
  ghost predicate Span(kvs: seq<(Key, Value)>, path: seq<Nibble>) {
    && kvs != []
    && (forall i, j :: 0 <= i < j < |kvs| ==> Less(kvs[i].0, kvs[j].0))
    && (forall i :: 0 <= i < |kvs| ==> Extends(kvs[i].0, path))
  }

  lemma SpanUnder(kvs: seq<(Key, Value)>, path: seq<Nibble>)
    requires Span(kvs, path)
    ensures AllUnder(MapOf(kvs), path) && (|kvs| >= 2 ==> Many(MapOf(kvs)))
  {
    hide MapOf;
    forall k | k in MapOf(kvs) ensures Extends(k, path) {
      MapOfKeys(kvs, k);
    }
    if |kvs| >= 2 {
      MapOfKeys(kvs, kvs[0].0);
      MapOfKeys(kvs, kvs[1].0);
      Irreflexive(kvs[0].0);
      assert kvs[0].0 != kvs[1].0;
    }
  }

  /** Among keys with the same beginning the byte order is the order of the next nibble. */
  lemma NibbleOrder(a: Key, b: Key, path: seq<Nibble>)
    requires Less(a, b) && Extends(a, path) && Extends(b, path) && |path| < HEIGHT
    ensures Nib(a, |path|) <= Nib(b, |path|)
  {
    var d := |path|;
    var h := d / 2;
    forall j | 0 <= j < h ensures a[j] == b[j] {
      assert Nib(a, 2 * j) == Nib(b, 2 * j) && Nib(a, 2 * j + 1) == Nib(b, 2 * j + 1);
    }
    assert a[..h] == b[..h];
    LessAt(a, b, h);
    LessHead(a[h..], b[h..]);
    assert a[h] <= b[h];
    if d % 2 == 1 {
      assert Nib(a, d - 1) == Nib(b, d - 1);
    }
  }

  ghost predicate NibblesSorted(kvs: seq<(Key, Value)>, d: nat)
    requires d < HEIGHT
  {
    forall i, j :: 0 <= i <= j < |kvs| ==> Nib(kvs[i].0, d) <= Nib(kvs[j].0, d)
  }

  lemma SpanNibbles(kvs: seq<(Key, Value)>, path: seq<Nibble>)
    requires Span(kvs, path) && |path| < HEIGHT
    ensures NibblesSorted(kvs, |path|)
  {
    hide Nib, Less, Extends;
    forall i, j | 0 <= i <= j < |kvs| ensures Nib(kvs[i].0, |path|) <= Nib(kvs[j].0, |path|) {
      if i < j {
        NibbleOrder(kvs[i].0, kvs[j].0, path);
      }
    }
  }

  /** Everything before `pos` has a smaller nibble than everything from there on. */
  ghost predicate Cut(kvs: seq<(Key, Value)>, d: nat, pos: nat)
    requires d < HEIGHT
  {
    forall i, j :: 0 <= i < pos <= j < |kvs| ==> Nib(kvs[i].0, d) < Nib(kvs[j].0, d)
  }

  class NibbleRangeIterator {
    const kvs: seq<(Key, Value)>
    const depth: nat
    var pos: nat

    constructor (kvs: seq<(Key, Value)>, depth: nat)
      requires depth < HEIGHT
      ensures this.kvs == kvs && this.depth == depth && pos == 0
    {
      this.kvs, this.depth, pos := kvs, depth, 0;
    }

    /** The next run: all pairs from `left` to `right` have one nibble, and the run cannot be made longer. */
    method Next() returns (r: Option<(nat, nat)>)
      requires depth < HEIGHT && NibblesSorted(kvs, depth)
      modifies this
      ensures r.None? <==> old(pos) >= |kvs|
      ensures r.None? ==> pos == old(pos)
      ensures r.Some? ==>
                var (left, right) := r.value;
                && left == old(pos) <= right < |kvs| && pos == right + 1
                && (forall i :: left <= i <= right ==> Nib(kvs[i].0, depth) == Nib(kvs[left].0, depth))
                && Cut(kvs, depth, pos)
    {
      hide Nib;
      var left := pos;
      if pos < |kvs| {
        var curNibble := Nib(kvs[left].0, depth);
        var i, j := left, |kvs| - 1;
        while i < j
          invariant left <= i <= j < |kvs|
          invariant Nib(kvs[i].0, depth) == curNibble
          invariant forall x :: j < x < |kvs| ==> Nib(kvs[x].0, depth) > curNibble
        {
          var mid := j - (j - i) / 2;
          if Nib(kvs[mid].0, depth) > curNibble {
            j := mid - 1;
          } else {
            i := mid;
          }
        }
        pos := i + 1;
        return Some((left, i));
      }
      return None;
    }
  }

  /** A run is the part of the map with its nibble, and that nibble has not occurred before. */
  lemma RunContents(kvs: seq<(Key, Value)>, path: seq<Nibble>, left: nat, right: nat, n: Nibble)
    requires Span(kvs, path) && |path| < HEIGHT && left <= right < |kvs| && Cut(kvs, |path|, left)
    requires forall i :: left <= i <= right ==> Nib(kvs[i].0, |path|) == n
    ensures var run := kvs[left..right + 1];
            && Span(run, path + [n])
            && MapOf(kvs[..right + 1]) == MapOf(kvs[..left]) + MapOf(run)
            && (forall k :: k in MapOf(run) ==> Nib(k, |path|) == n)
            && n !in Nibbles(MapOf(kvs[..left]), |path|)
  {
    hide MapOf, Nib, Less, Span, Cut;
    var run, before := kvs[left..right + 1], kvs[..left];
    assert kvs[..right + 1] == before + run;
    MapOfConcat(before, run);
    RunSpan(kvs, path, left, right, n);
    forall k | k in MapOf(run) ensures Nib(k, |path|) == n {
      MapOfKeys(run, k);
    }
    forall k | k in MapOf(before) ensures Nib(k, |path|) != n {
      EarlierNibble(kvs, |path|, left, k);
    }
  }

  lemma RunSpan(kvs: seq<(Key, Value)>, path: seq<Nibble>, left: nat, right: nat, n: Nibble)
    requires Span(kvs, path) && |path| < HEIGHT && left <= right < |kvs|
    requires forall i :: left <= i <= right ==> Nib(kvs[i].0, |path|) == n
    ensures Span(kvs[left..right + 1], path + [n])
  {
    hide Nib, Less;
  }

  lemma EarlierNibble(kvs: seq<(Key, Value)>, d: nat, left: nat, k: Key)
    requires d < HEIGHT && left < |kvs| && Cut(kvs, d, left) && k in MapOf(kvs[..left])
    ensures Nib(k, d) < Nib(kvs[left].0, d)
  {
    hide Nib;
    MapOfKeys(kvs[..left], k);
    var i :| 0 <= i < left && kvs[..left][i].0 == k;
    assert kvs[i].0 == k;
  }

  /** Writing pairs of one nibble changes only the part with that nibble. */
  lemma SubPlus(c: Contents, r: Contents, d: nat, n: Nibble)
    requires d < HEIGHT && forall k :: k in r ==> Nib(k, d) == n
    ensures Sub(c + r, d, n) == Sub(c, d, n) + r
    ensures forall k :: k in c + r || k in c ==> Nib(k, d) != n ==> k in c && k in c + r && (c + r)[k] == c[k]
  {
  }
}
