/** Voting power of sets of validators, and why two quorums share a correct validator. */
module Quorum {
  type Validator = int
  type Weights = map<Validator, nat>

  lemma NonEmpty(s: set<Validator>)
    ensures s == {} || exists p :: p in s
  {
    if !exists p :: p in s {
      assert s == {};
    }
  }

  lemma NotSubset(a: set<Validator>, b: set<Validator>)
    ensures a <= b || exists p :: p in a && p !in b
  {
    if !exists p :: p in a && p !in b {
      assert a <= b;
    }
  }

  /** The power of the members of `s` that are validators. */
  ghost function Power(w: Weights, s: set<Validator>): nat
    decreases s
  {
    if s == {} then 0
    else
      NonEmpty(s);
      var p :| p in s;
      (if p in w then w[p] else 0) + Power(w, s - {p})
  }

  ghost function Total(w: Weights): nat {
    Power(w, w.Keys)
  }

  /** More than two thirds of the power. */
  ghost predicate IsQuorum(w: Weights, s: set<Validator>) {
    3 * Power(w, s) > 2 * Total(w)
  }

  /** The validators outside `correct` hold less than a third of the power. */
  ghost predicate FaultyMinority(w: Weights, correct: set<Validator>) {
    3 * Power(w, w.Keys - correct) < Total(w)
  }

  function WeightOf(w: Weights, p: Validator): nat {
    if p in w then w[p] else 0
  }

  lemma {:induction false} PowerRemove(w: Weights, s: set<Validator>, p: Validator)
    requires p in s
    ensures Power(w, s) == WeightOf(w, p) + Power(w, s - {p})
    decreases s
  {
    var q :| q in s && Power(w, s) == WeightOf(w, q) + Power(w, s - {q});
    if q != p {
      PowerRemove(w, s - {q}, p);
      PowerRemove(w, s - {p}, q);
      assert s - {q} - {p} == s - {p} - {q};
    }
  }

  lemma PowerAdd(w: Weights, s: set<Validator>, p: Validator)
    requires p !in s
    ensures Power(w, s + {p}) == Power(w, s) + WeightOf(w, p)
  {
    PowerRemove(w, s + {p}, p);
    assert s + {p} - {p} == s;
  }

  lemma {:induction false} PowerUnion(w: Weights, a: set<Validator>, b: set<Validator>)
    ensures Power(w, a + b) + Power(w, a * b) == Power(w, a) + Power(w, b)
    decreases b
  {
    if b == {} {
      assert a + b == a && a * b == {};
    } else {
      NonEmpty(b);
      var p :| p in b;
      PowerUnion(w, a, b - {p});
      PowerRemove(w, b, p);
      if p in a {
        assert a + b == a + (b - {p});
        PowerRemove(w, a * b, p);
        assert a * b - {p} == a * (b - {p});
      } else {
        assert a * b == a * (b - {p});
        PowerRemove(w, a + b, p);
        assert a + b - {p} == a + (b - {p});
      }
    }
  }

  lemma PowerMonotone(w: Weights, a: set<Validator>, b: set<Validator>)
    requires a <= b
    ensures Power(w, a) <= Power(w, b)
  {
    PowerUnion(w, a, b - a);
    assert a + (b - a) == b && a * (b - a) == {};
  }

  /** Two quorums of validators share one that is correct. */
  lemma QuorumIntersection(w: Weights, correct: set<Validator>, a: set<Validator>, b: set<Validator>)
    returns (p: Validator)
    requires a <= w.Keys && b <= w.Keys
    requires IsQuorum(w, a) && IsQuorum(w, b) && FaultyMinority(w, correct)
    ensures p in a && p in b && p in correct
  {
    PowerUnion(w, a, b);
    PowerMonotone(w, a + b, w.Keys);
    if a * b <= w.Keys - correct {
      PowerMonotone(w, a * b, w.Keys - correct);
      assert false;
    }
    NotSubset(a * b, w.Keys - correct);
    p :| p in a * b && p !in w.Keys - correct;
  }
}
