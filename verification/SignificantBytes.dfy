/** Numbers without their leading zero bytes. */
module SignificantBytes {
  import opened ByteKeys
  import opened SharedBytes
  import opened Datastream

  /** The big-endian bytes of `n` without leading zeros. */
  function Significant(n: nat): (r: Bytes)
    ensures n > 0 ==> |r| > 0 && r[0] != 0
    ensures n < 256 && n > 0 ==> r == [n]
  {
    if n == 0 then []
    else if n < 256 then [n]
    else Significant(n / 256) + [n % 256]
  }

  lemma {:induction false} SignificantLength(n: nat, k: nat)
    requires n < Pow256(k)
    ensures |Significant(n)| <= k
    decreases k
  {
    if n >= 256 {
      SignificantLength(n / 256, k - 1);
    } else if n > 0 && k == 0 {
      assert false;
    }
  }

  lemma {:induction false} SignificantValue(n: nat)
    ensures BigEndian(Significant(n)) == n
    decreases n
  {
    var r := Significant(n);
    if n >= 256 {
      SignificantValue(n / 256);
      assert r[..|r| - 1] == Significant(n / 256);
    } else if n > 0 {
      assert r[..0] == [];
    }
  }

  lemma {:induction false} SignificantUnique(b: Bytes)
    requires b == [] || b[0] != 0
    ensures Significant(BigEndian(b)) == b
    decreases |b|
  {
    if |b| == 1 {
      assert b[..0] == [];
    } else if |b| > 1 {
      var n := |b| - 1;
      SignificantUnique(b[..n]);
      Positive(b[..n]);
      assert b == b[..n] + [b[n]];
    }
  }

  lemma {:induction false} Positive(b: Bytes)
    requires b != [] && b[0] != 0
    ensures BigEndian(b) > 0
    decreases |b|
  {
    if |b| > 1 {
      Positive(b[..|b| - 1]);
    }
  }

  lemma {:induction false} LeadingZeros(b: Bytes, t: nat)
    requires t <= |b| && forall i :: 0 <= i < t ==> b[i] == 0
    ensures BigEndian(b) == BigEndian(b[t..])
    decreases |b|
  {
    if t < |b| {
      var n := |b| - 1;
      LeadingZeros(b[..n], t);
      assert b[t..][..n - t] == b[..n][t..];
    } else if b != [] {
      LeadingZeros(b[..|b| - 1], t - 1);
      assert b[..|b| - 1][t - 1..] == [] && b[t..] == [];
    }
  }

  /** The bytes in memory up to the last one that is not zero, reversed, are the significant ones. */
  method Trim(s: Bytes, ghost n: nat, ghost width: nat) returns (trimmed: nat)
    requires n < Pow256(width) && s == InMemory(n, width)
    ensures trimmed <= |s| && Reverse(s[..trimmed]) == Significant(n)
  {
    hide Significant, Pow256;
    trimmed := |s|;
    while trimmed > 0 && s[trimmed - 1] == 0
      invariant trimmed <= |s| && forall i :: trimmed <= i < |s| ==> s[i] == 0
    {
      trimmed := trimmed - 1;
    }
    ghost var b, t := ToBigEndian(n, width), |s| - trimmed;
    forall i | 0 <= i < t ensures b[i] == 0 {
      assert s[|s| - 1 - i] == b[i];
    }
    LeadingZeros(b, t);
    assert Reverse(s[..trimmed]) == b[t..];
    assert trimmed > 0 ==> b[t] == s[trimmed - 1];
    SignificantUnique(b[t..]);
    BigEndianInverse(n, width);
  }
}
