/** Block time: the median of the commit timestamps, weighted by voting power. */
module MedianTime {
  datatype WeightedTime = WeightedTime(time: int, weight: int)

  predicate Positive(list: seq<WeightedTime>) {
    forall i :: 0 <= i < |list| ==> list[i].weight > 0
  }

  predicate Sorted(list: seq<WeightedTime>) {
    forall i, j :: 0 <= i < j < |list| ==> list[i].time <= list[j].time
  }

  function Total(list: seq<WeightedTime>): int {
    if list == [] then 0 else list[0].weight + Total(list[1..])
  }

  /** The weight of the entries with times up to `t`. */
  function WeightUpTo(list: seq<WeightedTime>, t: int): int {
    if list == [] then 0 else (if list[0].time <= t then list[0].weight else 0) + WeightUpTo(list[1..], t)
  }

  /** The least time of an entry at which half of the total weight is reached. */
  ghost predicate IsMedian(list: seq<WeightedTime>, total: int, t: int) {
    && (exists i :: 0 <= i < |list| && list[i].time == t)
    && WeightUpTo(list, t) >= total / 2
    && forall i :: 0 <= i < |list| && list[i].time < t ==> WeightUpTo(list, list[i].time) < total / 2
  }

  /** The order of entries with equal times does not matter. */
  lemma MedianUnique(list: seq<WeightedTime>, total: int, t: int, u: int)
    requires IsMedian(list, total, t) && IsMedian(list, total, u)
    ensures t == u
  {
  }

  // ---- Sorting ----

  lemma {:induction false} WeightConcat(a: seq<WeightedTime>, b: seq<WeightedTime>, t: int)
    ensures WeightUpTo(a + b, t) == WeightUpTo(a, t) + WeightUpTo(b, t)
    decreases |a|
  {
    if a == [] {
      assert a + b == b;
    } else {
      assert (a + b)[1..] == a[1..] + b;
      WeightConcat(a[1..], b, t);
    }
  }

  /** Weights do not depend on the order. */
  lemma {:induction false} WeightPermuted(a: seq<WeightedTime>, b: seq<WeightedTime>, t: int)
    requires multiset(a) == multiset(b)
    ensures WeightUpTo(a, t) == WeightUpTo(b, t)
    decreases |a|
  {
    if a == [] {
      assert |multiset(b)| == 0;
    } else {
      assert a[0] in multiset(b);
      var i :| 0 <= i < |b| && b[i] == a[0];
      RemoveOne(a, 0, t);
      RemoveOne(b, i, t);
      assert Without(a, 0) == a[1..];
      WeightPermuted(a[1..], Without(b, i), t);
    }
  }

  function Without(list: seq<WeightedTime>, i: nat): seq<WeightedTime>
    requires i < |list|
  {
    list[..i] + list[i + 1..]
  }

  lemma RemoveOne(list: seq<WeightedTime>, i: nat, t: int)
    requires i < |list|
    ensures multiset(Without(list, i)) == multiset(list) - multiset{list[i]}
    ensures WeightUpTo(list, t) == (if list[i].time <= t then list[i].weight else 0) + WeightUpTo(Without(list, i), t)
  {
    var left, right := list[..i], list[i + 1..];
    assert list == left + ([list[i]] + right) && ([list[i]] + right)[1..] == right;
    WeightConcat(left, [list[i]] + right, t);
    WeightConcat(left, right, t);
    assert multiset(list) == multiset(left) + multiset{list[i]} + multiset(right);
  }

  method SortByTime(list: seq<WeightedTime>) returns (sorted: seq<WeightedTime>)
    ensures Sorted(sorted) && multiset(sorted) == multiset(list)
  {
    sorted := [];
    for i := 0 to |list|
      invariant Sorted(sorted) && multiset(sorted) == multiset(list[..i])
    {
      assert list[..i + 1] == list[..i] + [list[i]];
      sorted := InsertSorted(sorted, list[i]);
    }
    assert list[..|list|] == list;
  }

  method InsertSorted(sorted: seq<WeightedTime>, x: WeightedTime) returns (r: seq<WeightedTime>)
    requires Sorted(sorted)
    ensures Sorted(r) && multiset(r) == multiset(sorted) + multiset{x}
  {
    var j := |sorted|;
    while j > 0 && x.time < sorted[j - 1].time
      invariant 0 <= j <= |sorted| && forall k :: j <= k < |sorted| ==> x.time < sorted[k].time
    {
      j := j - 1;
    }
    InsertedAt(sorted, x, j);
    r := sorted[..j] + ([x] + sorted[j..]);
  }

  function Entry(sorted: seq<WeightedTime>, x: WeightedTime, j: nat, i: nat): WeightedTime
    requires j <= |sorted| && i <= |sorted|
  {
    if i < j then sorted[i] else if i == j then x else sorted[i - 1]
  }

  lemma InsertedAt(sorted: seq<WeightedTime>, x: WeightedTime, j: nat)
    requires Sorted(sorted) && j <= |sorted| && (j > 0 ==> sorted[j - 1].time <= x.time)
    requires forall k :: j <= k < |sorted| ==> x.time < sorted[k].time
    ensures var r := sorted[..j] + ([x] + sorted[j..]);
            Sorted(r) && multiset(r) == multiset(sorted) + multiset{x}
  {
    var r := sorted[..j] + ([x] + sorted[j..]);
    forall a, b | 0 <= a < b < |r| ensures r[a].time <= r[b].time {
      assert r[a] == Entry(sorted, x, j, a) && r[b] == Entry(sorted, x, j, b);
    }
    InsertedMultiset(sorted, x, j);
  }

  lemma InsertedMultiset(list: seq<WeightedTime>, x: WeightedTime, j: nat)
    requires j <= |list|
    ensures multiset(list[..j] + ([x] + list[j..])) == multiset(list) + multiset{x}
  {
    assert multiset(list) == multiset(list[..j] + list[j..]) by {
      assert list == list[..j] + list[j..];
    }
  }

  // ---- The median ----

  method WeightedMedian(list: seq<WeightedTime>, total: nat) returns (res: int)
    requires Positive(list)
    ensures list != [] && Total(list) >= total / 2 ==> IsMedian(list, total, res)
    ensures list == [] || Total(list) < total / 2 ==> res == 0
  {
    var median: int := total / 2;
    var sorted := SortByTime(list);
    SortedPositive(list, sorted);
    SortedTotal(list, sorted);
    res := 0;
    var i := 0;
    while i < |sorted|
      invariant i <= |sorted| && median == total / 2 - Total(sorted[..i]) && (i > 0 ==> median > 0)
      decreases |sorted| - i
    {
      TotalStep(sorted, i);
      if median <= sorted[i].weight {
        MedianFound(list, sorted, total, i);
        return sorted[i].time;
      }
      median := median - sorted[i].weight;
      i := i + 1;
    }
    assert sorted[..|sorted|] == sorted;
  }

  lemma {:induction false} TotalConcat(a: seq<WeightedTime>, b: seq<WeightedTime>)
    ensures Total(a + b) == Total(a) + Total(b)
    decreases |a|
  {
    if a == [] {
      assert a + b == b;
    } else {
      assert (a + b)[1..] == a[1..] + b;
      TotalConcat(a[1..], b);
    }
  }

  lemma TotalStep(list: seq<WeightedTime>, i: nat)
    requires i < |list|
    ensures Total(list[..i + 1]) == Total(list[..i]) + list[i].weight
  {
    assert list[..i + 1] == list[..i] + [list[i]];
    TotalConcat(list[..i], [list[i]]);
  }

  lemma SortedPositive(list: seq<WeightedTime>, sorted: seq<WeightedTime>)
    requires Positive(list) && multiset(sorted) == multiset(list)
    ensures Positive(sorted) && |sorted| == |list|
  {
    forall i | 0 <= i < |sorted| ensures sorted[i].weight > 0 {
      assert sorted[i] in multiset(sorted);
      assert sorted[i] in list;
    }
    assert |multiset(sorted)| == |multiset(list)|;
  }

  lemma {:induction false} TotalIsUpTo(list: seq<WeightedTime>, t: int)
    requires forall i :: 0 <= i < |list| ==> list[i].time <= t
    ensures WeightUpTo(list, t) == Total(list)
    decreases |list|
  {
    if list != [] {
      TotalIsUpTo(list[1..], t);
    }
  }

  lemma {:induction false} NothingUpTo(list: seq<WeightedTime>, t: int)
    requires Positive(list)
    ensures 0 <= WeightUpTo(list, t) <= Total(list)
    ensures (forall i :: 0 <= i < |list| ==> list[i].time > t) ==> WeightUpTo(list, t) == 0
    decreases |list|
  {
    if list != [] {
      NothingUpTo(list[1..], t);
    }
  }

  function Latest(list: seq<WeightedTime>): (t: int)
    ensures forall i :: 0 <= i < |list| ==> list[i].time <= t
  {
    if list == [] then 0
    else
      var t := Latest(list[1..]);
      if list[0].time > t then list[0].time else t
  }

  lemma SortedTotal(list: seq<WeightedTime>, sorted: seq<WeightedTime>)
    requires multiset(sorted) == multiset(list)
    ensures Total(sorted) == Total(list)
  {
    var t := Latest(sorted);
    forall i | 0 <= i < |list| ensures list[i].time <= t {
      assert list[i] in multiset(sorted);
    }
    TotalIsUpTo(sorted, t);
    TotalIsUpTo(list, t);
    WeightPermuted(sorted, list, t);
  }

  /** Where the running weight reaches half, the sorted list is at the median. */
  lemma MedianFound(list: seq<WeightedTime>, sorted: seq<WeightedTime>, total: nat, i: nat)
    requires Positive(sorted) && Sorted(sorted) && multiset(sorted) == multiset(list) && i < |sorted|
    requires Total(sorted[..i + 1]) >= total / 2 && (i > 0 ==> Total(sorted[..i]) < total / 2)
    ensures IsMedian(list, total, sorted[i].time) && Total(list) >= total / 2
  {
    hide WeightUpTo, Total, Sorted, Positive;
    var t := sorted[i].time;
    ReachedHalf(list, sorted, i);
    SameEntries(list, sorted);
    assert sorted[i] in multiset(list);
    forall k | 0 <= k < |list| && list[k].time < t ensures WeightUpTo(list, list[k].time) < total / 2 {
      assert list[k] in multiset(sorted);
      UpToBefore(sorted, i, list[k].time);
      WeightPermuted(sorted, list, list[k].time);
    }
  }

  lemma SameEntries(a: seq<WeightedTime>, b: seq<WeightedTime>)
    requires multiset(a) == multiset(b)
    ensures forall x :: x in a <==> x in b
  {
    forall x ensures x in a <==> x in b {
      assert x in a <==> x in multiset(a);
      assert x in b <==> x in multiset(b);
    }
  }

  lemma ReachedHalf(list: seq<WeightedTime>, sorted: seq<WeightedTime>, i: nat)
    requires Positive(sorted) && Sorted(sorted) && multiset(sorted) == multiset(list) && i < |sorted|
    ensures WeightUpTo(list, sorted[i].time) >= Total(sorted[..i + 1]) && Total(list) >= Total(sorted[..i + 1])
  {
    hide WeightUpTo, Total;
    UpToPrefix(sorted, i + 1, sorted[i].time);
    WeightPermuted(sorted, list, sorted[i].time);
    assert sorted == sorted[..i + 1] + sorted[i + 1..];
    TotalConcat(sorted[..i + 1], sorted[i + 1..]);
    NothingUpTo(sorted[i + 1..], 0);
    SortedTotal(list, sorted);
  }

  lemma UpToPrefix(sorted: seq<WeightedTime>, n: nat, t: int)
    requires Positive(sorted) && n <= |sorted| && forall k :: 0 <= k < n ==> sorted[k].time <= t
    ensures WeightUpTo(sorted, t) >= Total(sorted[..n])
  {
    assert sorted == sorted[..n] + sorted[n..];
    WeightConcat(sorted[..n], sorted[n..], t);
    TotalIsUpTo(sorted[..n], t);
    NothingUpTo(sorted[n..], t);
  }

  lemma UpToBefore(sorted: seq<WeightedTime>, i: nat, u: int)
    requires Positive(sorted) && Sorted(sorted) && i < |sorted| && u < sorted[i].time
    requires exists k :: 0 <= k < |sorted| && sorted[k].time == u
    ensures i > 0 && WeightUpTo(sorted, u) <= Total(sorted[..i])
  {
    assert sorted == sorted[..i] + sorted[i..];
    WeightConcat(sorted[..i], sorted[i..], u);
    NothingUpTo(sorted[i..], u);
    NothingUpTo(sorted[..i], u);
  }

  // ---- Correct and faulty voters ----

  /** The weight of the entries marked in `which`. */
  function WeightOf(list: seq<WeightedTime>, which: seq<bool>): int
    requires |list| == |which|
  {
    if list == [] then 0 else (if which[0] then list[0].weight else 0) + WeightOf(list[1..], which[1..])
  }

  lemma {:induction false} OnlyFaultyUpTo(list: seq<WeightedTime>, faulty: seq<bool>, t: int)
    requires Positive(list) && |list| == |faulty|
    ensures (forall i :: 0 <= i < |list| && !faulty[i] ==> list[i].time > t) ==> WeightUpTo(list, t) <= WeightOf(list, faulty)
    ensures (forall i :: 0 <= i < |list| && !faulty[i] ==> list[i].time <= t) ==>
              WeightUpTo(list, t) >= Total(list) - WeightOf(list, faulty)
    decreases |list|
  {
    if list != [] {
      OnlyFaultyUpTo(list[1..], faulty[1..], t);
      assert forall i :: 0 <= i < |list| - 1 ==> list[1..][i] == list[i + 1] && faulty[1..][i] == faulty[i + 1];
    }
  }

  /** With less than half of the weight faulty, the median lies between timestamps of correct voters. */
  lemma BftTime(list: seq<WeightedTime>, faulty: seq<bool>, t: int) returns (low: nat, high: nat)
    requires Positive(list) && |list| == |faulty|
    requires WeightOf(list, faulty) < Total(list) / 2 && IsMedian(list, Total(list), t)
    ensures low < |list| && !faulty[low] && list[low].time <= t
    ensures high < |list| && !faulty[high] && t <= list[high].time
  {
    OnlyFaultyUpTo(list, faulty, t);
    low :| low < |list| && !faulty[low] && list[low].time <= t;
    high := LatestCorrect(list, faulty, low);
    OnlyFaultyUpTo(list, faulty, list[high].time);
  }

  lemma {:induction false} LatestCorrect(list: seq<WeightedTime>, faulty: seq<bool>, first: nat) returns (high: nat)
    requires |list| == |faulty| && first < |list| && !faulty[first]
    ensures high < |list| && !faulty[high] && forall i :: 0 <= i < |list| && !faulty[i] ==> list[i].time <= list[high].time
  {
    high := first;
    for i := 0 to |list|
      invariant high < |list| && !faulty[high]
      invariant forall k :: 0 <= k < i && !faulty[k] ==> list[k].time <= list[high].time
    {
      if !faulty[i] && list[i].time > list[high].time {
        high := i;
      }
    }
  }

  // ---- Exactly when the bound holds ----

  /** The list when the faulty voters report `times` instead. */
  function Reported(list: seq<WeightedTime>, faulty: seq<bool>, times: seq<int>): (r: seq<WeightedTime>)
    requires |list| == |faulty| == |times|
    ensures |r| == |list|
  {
    seq(|list|, i requires 0 <= i < |list| => if faulty[i] then WeightedTime(times[i], list[i].weight) else list[i])
  }

  /** The median lies between timestamps of correct voters. */
  ghost predicate Bounded(list: seq<WeightedTime>, faulty: seq<bool>)
    requires |list| == |faulty|
  {
    forall t :: IsMedian(list, Total(list), t) ==>
      && (exists i :: 0 <= i < |list| && !faulty[i] && list[i].time <= t)
      && (exists i :: 0 <= i < |list| && !faulty[i] && t <= list[i].time)
  }

  lemma {:induction false} ReportedWeights(list: seq<WeightedTime>, faulty: seq<bool>, times: seq<int>)
    requires |list| == |faulty| == |times|
    ensures var r := Reported(list, faulty, times);
            Total(r) == Total(list) && WeightOf(r, faulty) == WeightOf(list, faulty)
    decreases |list|
  {
    if list != [] {
      ReportedWeights(list[1..], faulty[1..], times[1..]);
      assert Reported(list, faulty, times)[1..] == Reported(list[1..], faulty[1..], times[1..]);
    }
  }

  /** With the faulty times at `e` and the correct ones above it, the weight up to `e` is the faulty weight. */
  lemma {:induction false} FaultyUpTo(list: seq<WeightedTime>, faulty: seq<bool>, e: int)
    requires |list| == |faulty|
    requires forall i :: 0 <= i < |list| ==> if faulty[i] then list[i].time == e else list[i].time > e
    ensures WeightUpTo(list, e) == WeightOf(list, faulty)
    decreases |list|
  {
    if list != [] {
      FaultyUpTo(list[1..], faulty[1..], e);
    }
  }

  lemma {:induction false} SomeFaulty(list: seq<WeightedTime>, faulty: seq<bool>)
    requires |list| == |faulty| && Positive(list)
    ensures WeightOf(list, faulty) >= 0
    ensures WeightOf(list, faulty) > 0 <==> exists i :: 0 <= i < |list| && faulty[i]
    decreases |list|
  {
    if list != [] {
      SomeFaulty(list[1..], faulty[1..]);
      assert forall i :: 0 <= i < |list| - 1 ==> faulty[1..][i] == faulty[i + 1];
      if exists i :: 0 <= i < |list| && faulty[i] {
        var i :| 0 <= i < |list| && faulty[i];
        assert i > 0 ==> faulty[1..][i - 1];
      }
    }
  }

  function Earliest(list: seq<WeightedTime>): (t: int)
    ensures forall i :: 0 <= i < |list| ==> t <= list[i].time
  {
    if list == [] then 0
    else
      var t := Earliest(list[1..]);
      if list[0].time < t then list[0].time else t
  }

  /** Faulty voters with half of the weight or more can all report a time below every correct one and make it the median. */
  lemma FaultyHalfDecides(list: seq<WeightedTime>, faulty: seq<bool>, e: int)
    requires |list| == |faulty| && Positive(list) && (exists i :: 0 <= i < |list| && faulty[i])
    requires WeightOf(list, faulty) >= Total(list) / 2
    requires forall i :: 0 <= i < |list| && !faulty[i] ==> e < list[i].time
    ensures var r := Reported(list, faulty, seq(|list|, _ => e));
            IsMedian(r, Total(r), e) && !Bounded(r, faulty)
  {
    var times := seq(|list|, _ => e);
    var r := Reported(list, faulty, times);
    ReportedWeights(list, faulty, times);
    FaultyUpTo(r, faulty, e);
    var i :| 0 <= i < |list| && faulty[i];
    assert r[i].time == e;
    assert IsMedian(r, Total(r), e);
    assert forall j :: 0 <= j < |r| && !faulty[j] ==> r[j].time == list[j].time;
  }

  /** Whatever the faulty voters report, the time stays between correct ones: if and only if nobody is faulty or they have less than half. */
  lemma BftTimeExactly(list: seq<WeightedTime>, faulty: seq<bool>)
    requires |list| == |faulty| && Positive(list)
    ensures (forall times: seq<int> | |times| == |list| :: Bounded(Reported(list, faulty, times), faulty)) <==>
            WeightOf(list, faulty) == 0 || WeightOf(list, faulty) < Total(list) / 2
  {
    SomeFaulty(list, faulty);
    if WeightOf(list, faulty) == 0 || WeightOf(list, faulty) < Total(list) / 2 {
      forall times: seq<int> | |times| == |list| ensures Bounded(Reported(list, faulty, times), faulty) {
        BoundHolds(list, faulty, times);
      }
    } else {
      FaultyHalfDecides(list, faulty, Earliest(list) - 1);
      assert |seq(|list|, _ => Earliest(list) - 1)| == |list|;
    }
  }

  lemma BoundHolds(list: seq<WeightedTime>, faulty: seq<bool>, times: seq<int>)
    requires |list| == |faulty| == |times| && Positive(list)
    requires WeightOf(list, faulty) == 0 || WeightOf(list, faulty) < Total(list) / 2
    ensures Bounded(Reported(list, faulty, times), faulty)
  {
    var r := Reported(list, faulty, times);
    ReportedWeights(list, faulty, times);
    SomeFaulty(list, faulty);
    forall t | IsMedian(r, Total(r), t)
      ensures exists i :: 0 <= i < |r| && !faulty[i] && r[i].time <= t
      ensures exists i :: 0 <= i < |r| && !faulty[i] && t <= r[i].time
    {
      if WeightOf(list, faulty) < Total(list) / 2 {
        var low, high := BftTime(r, faulty, t);
      } else {
        var i :| 0 <= i < |r| && r[i].time == t;
        assert !faulty[i];
      }
    }
  }

  /** The smallest instance: one correct and one faulty voter of equal weight. */
  lemma HalfIsTooMuch(early: int, late: int)
    requires early < late
    ensures var list, faulty := [WeightedTime(early, 1), WeightedTime(late, 1)], [true, false];
            IsMedian(list, Total(list), early) && !Bounded(list, faulty)
  {
    var list, faulty := [WeightedTime(early, 1), WeightedTime(late, 1)], [true, false];
    assert list[1..] == [WeightedTime(late, 1)] && faulty[1..] == [false];
    assert list[1..][1..] == [] && faulty[1..][1..] == [];
    assert Total(list[1..]) == 1 + Total([]) && WeightOf(list[1..], faulty[1..]) == 0 + WeightOf([], []);
    assert Total(list) == 2 && WeightOf(list, faulty) == 1;
    FaultyHalfDecides(list, faulty, early);
    assert Reported(list, faulty, seq(2, _ => early)) == list;
  }

  // ---- From a commit ----

  type Address = nat

  datatype CommitSig = CommitSig(absent: bool, address: Address, timestamp: int)

  /** The signatures that count: present, and of a known validator. */
  function Counted(sigs: seq<CommitSig>, power: map<Address, int>): seq<WeightedTime> {
    if sigs == [] then []
    else
      var last := |sigs| - 1;
      Counted(sigs[..last], power) +
      if !sigs[last].absent && sigs[last].address in power
      then [WeightedTime(sigs[last].timestamp, power[sigs[last].address])]
      else []
  }

  lemma {:induction false} CountedPositive(sigs: seq<CommitSig>, power: map<Address, int>)
    requires forall a :: a in power ==> power[a] > 0
    ensures Positive(Counted(sigs, power)) && Total(Counted(sigs, power)) >= 0
    decreases |sigs|
  {
    if sigs != [] {
      CountedPositive(sigs[..|sigs| - 1], power);
    }
    NothingUpTo(Counted(sigs, power), 0);
  }

  predicate Counts(sigs: seq<CommitSig>, power: map<Address, int>, i: nat)
    requires i < |sigs|
  {
    !sigs[i].absent && sigs[i].address in power
  }

  /** The positions in `at` are those of the signatures that count, in order. */
  ghost predicate Positions(sigs: seq<CommitSig>, power: map<Address, int>, at: seq<nat>) {
    && (forall j, k :: 0 <= j < k < |at| ==> at[j] < at[k])
    && (forall i :: i in at <==> 0 <= i < |sigs| && Counts(sigs, power, i))
  }

  /** Entry j of the list is the time and the power of signature `at[j]`. */
  ghost predicate Placed(sigs: seq<CommitSig>, power: map<Address, int>, list: seq<WeightedTime>, at: seq<nat>) {
    && |at| == |list|
    && forall j :: 0 <= j < |at| ==>
         && at[j] < |sigs| && Counts(sigs, power, at[j])
         && list[j] == WeightedTime(sigs[at[j]].timestamp, power[sigs[at[j]].address])
  }

  /** The power of the signers in `who` that are present and known. */
  function SignedPower(sigs: seq<CommitSig>, power: map<Address, int>, who: set<Address>): int {
    if sigs == [] then 0
    else
      var n := |sigs| - 1;
      SignedPower(sigs[..n], power, who) +
      if Counts(sigs, power, n) && sigs[n].address in who then power[sigs[n].address] else 0
  }

  /** Which entries belong to signers in `who`. */
  function Marks(sigs: seq<CommitSig>, at: seq<nat>, who: set<Address>): (r: seq<bool>)
    requires forall j :: 0 <= j < |at| ==> at[j] < |sigs|
    ensures |r| == |at|
  {
    seq(|at|, j requires 0 <= j < |at| => sigs[at[j]].address in who)
  }

  lemma {:induction false} WeightOfAppend(list: seq<WeightedTime>, which: seq<bool>, x: WeightedTime, b: bool)
    requires |list| == |which|
    ensures WeightOf(list + [x], which + [b]) == WeightOf(list, which) + if b then x.weight else 0
    decreases |list|
  {
    if list == [] {
      assert [x][1..] == [] && [b][1..] == [];
      assert list + [x] == [x] && which + [b] == [b];
    } else {
      assert (list + [x])[1..] == list[1..] + [x] && (which + [b])[1..] == which[1..] + [b];
      WeightOfAppend(list[1..], which[1..], x, b);
    }
  }

  lemma PositionsLast(sigs: seq<CommitSig>, power: map<Address, int>, before: seq<nat>)
    requires sigs != [] && Positions(sigs[..|sigs| - 1], power, before)
    ensures var n := |sigs| - 1; Positions(sigs, power, if Counts(sigs, power, n) then before + [n] else before)
  {
    var n := |sigs| - 1;
    var at := if Counts(sigs, power, n) then before + [n] else before;
    forall i ensures i in at <==> 0 <= i < |sigs| && Counts(sigs, power, i) {
      assert i in before <==> 0 <= i < n && Counts(sigs[..n], power, i);
    }
    forall j | 0 <= j < |before| ensures before[j] < n {
      assert before[j] in before;
    }
  }

  lemma PlacedLast(sigs: seq<CommitSig>, power: map<Address, int>, list: seq<WeightedTime>, before: seq<nat>)
    requires sigs != [] && Placed(sigs[..|sigs| - 1], power, list, before)
    ensures var n := |sigs| - 1;
            if Counts(sigs, power, n)
            then Placed(sigs, power, list + [WeightedTime(sigs[n].timestamp, power[sigs[n].address])], before + [n])
            else Placed(sigs, power, list, before)
  {
    var n := |sigs| - 1;
    forall j | 0 <= j < |before|
      ensures before[j] < n && Counts(sigs, power, before[j])
      ensures list[j] == WeightedTime(sigs[before[j]].timestamp, power[sigs[before[j]].address])
    {
      assert sigs[..n][before[j]] == sigs[before[j]];
    }
  }

  lemma WeightLast(sigs: seq<CommitSig>, power: map<Address, int>, list: seq<WeightedTime>, before: seq<nat>, who: set<Address>)
    requires sigs != [] && Placed(sigs[..|sigs| - 1], power, list, before)
    ensures var n, w := |sigs| - 1, WeightOf(list, Marks(sigs[..|sigs| - 1], before, who));
            if Counts(sigs, power, n) then
              WeightOf(list + [WeightedTime(sigs[n].timestamp, power[sigs[n].address])], Marks(sigs, before + [n], who)) ==
              w + if sigs[n].address in who then power[sigs[n].address] else 0
            else WeightOf(list, Marks(sigs, before, who)) == w
  {
    hide WeightOf;
    var n := |sigs| - 1;
    var marks := Marks(sigs[..n], before, who);
    assert forall j :: 0 <= j < |before| ==> sigs[..n][before[j]] == sigs[before[j]];
    if Counts(sigs, power, n) {
      WeightOfAppend(list, marks, WeightedTime(sigs[n].timestamp, power[sigs[n].address]), sigs[n].address in who);
      assert Marks(sigs, before + [n], who) == marks + [sigs[n].address in who];
    } else {
      assert Marks(sigs, before, who) == marks;
    }
  }

  /** Exactly the signatures that are present and of a known validator count, in their order and with their power. */
  lemma {:induction false} CountedExactly(sigs: seq<CommitSig>, power: map<Address, int>) returns (at: seq<nat>)
    ensures Positions(sigs, power, at) && Placed(sigs, power, Counted(sigs, power), at)
    ensures forall who :: WeightOf(Counted(sigs, power), Marks(sigs, at, who)) == SignedPower(sigs, power, who)
    decreases |sigs|
  {
    hide WeightOf, Marks;
    at := [];
    if sigs == [] {
      assert forall who :: WeightOf([], Marks(sigs, [], who)) == 0 by {
        NothingMarked(sigs);
      }
    } else {
      hide Positions, Placed;
      var n := |sigs| - 1;
      var list := Counted(sigs[..n], power);
      var before := CountedExactly(sigs[..n], power);
      at := if Counts(sigs, power, n) then before + [n] else before;
      assert list + [] == list;
      PositionsLast(sigs, power, before);
      PlacedLast(sigs, power, list, before);
      PlacedWithin(sigs, power, Counted(sigs, power), at);
      PlacedWithin(sigs[..n], power, list, before);
      forall who ensures WeightOf(Counted(sigs, power), Marks(sigs, at, who)) == SignedPower(sigs, power, who) {
        WeightLast(sigs, power, list, before, who);
        assert WeightOf(list, Marks(sigs[..n], before, who)) == SignedPower(sigs[..n], power, who);
      }
    }
  }

  lemma NothingMarked(sigs: seq<CommitSig>)
    ensures forall who :: WeightOf([], Marks(sigs, [], who)) == 0
  {
  }

  lemma PlacedWithin(sigs: seq<CommitSig>, power: map<Address, int>, list: seq<WeightedTime>, at: seq<nat>)
    requires Placed(sigs, power, list, at)
    ensures |list| == |at| && forall j :: 0 <= j < |at| ==> at[j] < |sigs|
  {
  }

  lemma {:induction false} AllMarked(list: seq<WeightedTime>, which: seq<bool>)
    requires |list| == |which| && forall i :: 0 <= i < |list| ==> which[i]
    ensures WeightOf(list, which) == Total(list)
    decreases |list|
  {
    if list != [] {
      AllMarked(list[1..], which[1..]);
    }
  }

  /** `t` lies between the timestamps of two signers that are present, known and not in `faulty`. */
  ghost predicate Between(sigs: seq<CommitSig>, power: map<Address, int>, faulty: set<Address>, t: int) {
    && (exists i :: 0 <= i < |sigs| && Counts(sigs, power, i) && sigs[i].address !in faulty && sigs[i].timestamp <= t)
    && (exists i :: 0 <= i < |sigs| && Counts(sigs, power, i) && sigs[i].address !in faulty && t <= sigs[i].timestamp)
  }

  /** Block time: below half of the present power faulty, the median of a commit lies between correct timestamps. */
  lemma CommitTime(sigs: seq<CommitSig>, power: map<Address, int>, faulty: set<Address>, t: int)
    requires forall a :: a in power ==> power[a] > 0
    requires SignedPower(sigs, power, faulty) < SignedPower(sigs, power, power.Keys) / 2
    requires IsMedian(Counted(sigs, power), Total(Counted(sigs, power)), t)
    ensures Between(sigs, power, faulty, t)
  {
    var list := Counted(sigs, power);
    var at := CountedExactly(sigs, power);
    CountedPositive(sigs, power);
    AllMarked(list, Marks(sigs, at, power.Keys));
    var low, high := BftTime(list, Marks(sigs, at, faulty), t);
    assert Counts(sigs, power, at[low]) && Counts(sigs, power, at[high]);
  }

  method GetMedianTime(sigs: seq<CommitSig>, power: map<Address, int>, ghost faulty: set<Address>) returns (time: int)
    requires forall a :: a in power ==> power[a] > 0
    ensures var list := Counted(sigs, power);
            if list == [] then time == 0 else IsMedian(list, Total(list), time)
    ensures SignedPower(sigs, power, faulty) < SignedPower(sigs, power, power.Keys) / 2 ==> Between(sigs, power, faulty, time)
  {
    var list, total := [], 0;
    for i := 0 to |sigs|
      invariant list == Counted(sigs[..i], power) && total == Total(list)
    {
      assert sigs[..i + 1][..i] == sigs[..i];
      if !sigs[i].absent && sigs[i].address in power {
        TotalConcat(list, [WeightedTime(sigs[i].timestamp, power[sigs[i].address])]);
        total := total + power[sigs[i].address];
        list := list + [WeightedTime(sigs[i].timestamp, power[sigs[i].address])];
      }
    }
    assert sigs[..|sigs|] == sigs;
    CountedPositive(sigs, power);
    time := WeightedMedian(list, total);
    if SignedPower(sigs, power, faulty) < SignedPower(sigs, power, power.Keys) / 2 {
      if list == [] {
        NobodySigned(sigs, power, faulty);
        NobodySigned(sigs, power, power.Keys);
      }
      CommitTime(sigs, power, faulty, time);
    }
  }

  /** With nobody counted there is no power to be below half of. */
  lemma NobodySigned(sigs: seq<CommitSig>, power: map<Address, int>, who: set<Address>)
    requires Counted(sigs, power) == []
    ensures SignedPower(sigs, power, who) == 0
  {
    var at := CountedExactly(sigs, power);
    assert WeightOf([], Marks(sigs, at, who)) == 0;
  }
}
