/** Big-endian numbers, and the comparison of padded keys eight bytes at a time. */
module SharedBytes {
  import opened Options
  import opened ByteKeys

  /** The number written by the bytes, most significant first. */
  function BigEndian(a: Bytes): nat {
    if a == [] then 0 else 256 * BigEndian(a[..|a| - 1]) + a[|a| - 1]
  }

  /** The last `n` big-endian bytes of `v`. */
  function ToBigEndian(v: nat, n: nat): (r: Bytes)
    ensures |r| == n
    decreases n
  {
    if n == 0 then [] else ToBigEndian(v / 256, n - 1) + [v % 256]
  }

  /** For equal lengths the last byte decides only between equal beginnings. */
  lemma {:induction false} LessByLast(a: Bytes, b: Bytes)
    requires |a| == |b| > 0
    ensures var n := |a| - 1;
            Less(a, b) <==> Less(a[..n], b[..n]) || (a[..n] == b[..n] && a[n] < b[n])
    decreases |a|
  {
    var n := |a| - 1;
    if n > 0 {
      LessByLast(a[1..], b[1..]);
      assert a[1..][..n - 1] == a[..n][1..] && b[1..][..n - 1] == b[..n][1..];
      assert a[..n] == [a[0]] + a[..n][1..] && b[..n] == [b[0]] + b[..n][1..];
    } else {
      assert a[1..] == [] && b[1..] == [];
    }
  }

  /** On byte strings of one length, numeric and lexicographic order are the same. */
  lemma {:induction false} BigEndianOrder(a: Bytes, b: Bytes)
    requires |a| == |b|
    ensures BigEndian(a) < BigEndian(b) <==> Less(a, b)
    ensures BigEndian(a) == BigEndian(b) <==> a == b
    decreases |a|
  {
    hide Less;
    if a == [] {
      LessHead(a, b);
    } else {
      var n := |a| - 1;
      BigEndianOrder(a[..n], b[..n]);
      LessByLast(a, b);
      assert a == a[..n] + [a[n]] && b == b[..n] + [b[n]];
    }
  }

  /** 256 to the power n. */
  function Pow256(n: nat): nat {
    if n == 0 then 1 else 256 * Pow256(n - 1)
  }

  lemma {:induction false} BigEndianInverse(v: nat, n: nat)
    requires v < Pow256(n)
    ensures BigEndian(ToBigEndian(v, n)) == v
    decreases n
  {
    if n > 0 {
      BigEndianInverse(v / 256, n - 1);
      var r := ToBigEndian(v, n);
      assert r[..n - 1] == ToBigEndian(v / 256, n - 1);
    }
  }

  lemma {:induction false} BigEndianBound(b: Bytes)
    ensures BigEndian(b) < Pow256(|b|)
    decreases |b|
  {
    if b != [] {
      BigEndianBound(b[..|b| - 1]);
    }
  }

  lemma {:induction false} PowMonotone(a: nat, b: nat)
    requires a <= b
    ensures 0 < Pow256(a) <= Pow256(b)
    decreases b
  {
    if a < b {
      PowMonotone(a, b - 1);
    } else if b > 0 {
      PowMonotone(b - 1, b - 1);
    }
  }

  lemma PowOne()
    ensures Pow256(1) == 256
  {
  }

  /** Fixed-width keys made from numbers sort as the numbers do. */
  lemma ToBigEndianOrder(v: nat, u: nat, n: nat)
    requires v < Pow256(n) && u < Pow256(n)
    ensures Less(ToBigEndian(v, n), ToBigEndian(u, n)) <==> v < u
    ensures ToBigEndian(v, n) == ToBigEndian(u, n) <==> v == u
  {
    BigEndianInverse(v, n);
    BigEndianInverse(u, n);
    BigEndianOrder(ToBigEndian(v, n), ToBigEndian(u, n));
  }

  // ---- Padded keys ----

  const WORD := 8

  /** The size rounded up to whole words. */
  function AlignedSize(size: nat): (r: nat)
    ensures size <= r < size + WORD && r % WORD == 0
  {
    (size + (WORD - 1)) / WORD * WORD
  }

  /** A buffer of whole words that holds the key followed by zeros. */
  predicate Padded(buffer: Bytes, key: Bytes) {
    && |buffer| == AlignedSize(|key|) && key <= buffer
    && forall i :: |key| <= i < |buffer| ==> buffer[i] == 0
  }

  /** Equal beginnings up to the shorter buffer: then the longer key extends the shorter one. */
  lemma EqualWords(left: Bytes, a: Bytes, right: Bytes, b: Bytes, n: nat)
    requires Padded(left, a) && Padded(right, b)
    requires n <= |left| && n <= |right| && left[..n] == right[..n] && (n == |left| || n == |right|)
    ensures |a| <= |b| ==> a <= b
    ensures |b| <= |a| ==> b <= a
  {
    assert |a| <= |b| ==> |a| <= n;
    assert |b| <= |a| ==> |b| <= n;
    assert forall i :: 0 <= i < |a| ==> a[i] == left[i];
    assert forall i :: 0 <= i < |b| ==> b[i] == right[i];
    assert forall i :: 0 <= i < n ==> left[i] == left[..n][i] == right[i];
  }

  lemma PrefixLess(a: Bytes, b: Bytes)
    requires a <= b
    ensures Less(a, b) <==> |a| < |b|
  {
    LessAt(a, b, |a|);
    assert a[|a|..] == [];
  }

  /** A difference within the buffers is the difference between the keys. */
  lemma WordDecides(left: Bytes, a: Bytes, right: Bytes, b: Bytes, n: nat)
    requires Padded(left, a) && Padded(right, b)
    requires n + WORD <= |left| && n + WORD <= |right| && left[..n] == right[..n]
    requires Less(left[n..n + WORD], right[n..n + WORD])
    ensures Less(a, b)
  {
    var i := FirstDifference(left[n..n + WORD], right[n..n + WORD]);
    var d := n + i;
    assert left[d] < right[d];
    assert forall j :: 0 <= j < n ==> left[j] == left[..n][j] == right[j];
    assert forall j :: n <= j < d ==> left[j] == left[n..n + WORD][j - n] == right[n..n + WORD][j - n] == right[j];
    assert d < |b|;
    if |a| <= d {
      assert a == b[..|a|];
      PrefixLess(a, b);
    } else {
      assert a[..d] == b[..d];
      LessAt(a, b, d);
      LessHead(a[d..], b[d..]);
    }
  }

  lemma {:induction false} FirstDifference(x: Bytes, y: Bytes) returns (i: nat)
    requires |x| == |y| && Less(x, y)
    ensures i < |x| && x[..i] == y[..i] && x[i] < y[i]
    decreases |x|
  {
    if x[0] < y[0] {
      i := 0;
    } else {
      var j := FirstDifference(x[1..], y[1..]);
      i := j + 1;
      assert x[..i] == [x[0]] + x[1..][..j] && y[..i] == [y[0]] + y[1..][..j];
    }
  }

  /** aligned_compare: word by word as big-endian numbers, then by size. */
  method AlignedCompare(left: Bytes, right: Bytes, leftSize: nat, rightSize: nat, ghost a: Bytes, ghost b: Bytes)
    returns (r: int)
    requires Padded(left, a) && Padded(right, b) && leftSize == |a| && rightSize == |b|
    ensures r < 0 <==> Less(a, b)
    ensures r == 0 <==> a == b
    ensures r > 0 <==> Less(b, a)
  {
    hide Less;
    var l, m := AlignedSize(leftSize), AlignedSize(rightSize);
    var iterations := (if l < m then l else m) / WORD;
    Order();
    for i := 0 to iterations
      invariant left[..i * WORD] == right[..i * WORD]
    {
      var offset := i * WORD;
      var x, y := left[offset..offset + WORD], right[offset..offset + WORD];
      var u, v := BigEndian(x), BigEndian(y);
      BigEndianOrder(x, y);
      if u != v {
        if u < v {
          WordDecides(left, a, right, b, offset);
          return -1;
        } else {
          BigEndianOrder(y, x);
          WordDecides(right, b, left, a, offset);
          return 1;
        }
      }
      assert left[..offset + WORD] == left[..offset] + x && right[..offset + WORD] == right[..offset] + y;
    }
    EqualWords(left, a, right, b, iterations * WORD);
    if |a| <= |b| {
      PrefixLess(a, b);
    } else {
      PrefixLess(b, a);
    }
    r := leftSize - rightSize;
  }

  /** shared_bytes::next: the next prefix, or an error when every byte is 0xff. */
  method Next(key: Bytes) returns (r: Option<Bytes>)
    ensures r.None? <==> forall i :: 0 <= i < |key| ==> key[i] == 255
    ensures r.Some? ==> forall k :: key <= k <==> !Less(k, key) && Less(k, r.value)
  {
    var buffer := GetNextPrefix(key);
    NextPrefixShape(key);
    if buffer == [] {
      return None;
    }
    forall k ensures key <= k <==> !Less(k, key) && Less(k, buffer) {
      PrefixRange(key, k);
    }
    return Some(buffer);
  }
}
