/**
 The votes that have been signed so far, in the order of signing, and what follows from the way
 correct validators extend that log: no two different blocks gather a precommit quorum.
 */
module VoteLog {
  import opened Quorum

  /** A block hash; 0 stands for the empty hash, which a vote for nil carries. */
  type Hash = nat
  /** A part set header; 0 stands for the empty header. */
  type Parts = nat

  const NIL: Hash := 0

  datatype BlockId = BlockId(hash: Hash, parts: Parts)
  datatype Kind = Prevote | Precommit
  datatype Vote = Vote(voter: Validator, kind: Kind, height: nat, round: int, id: BlockId)

  function KindRank(k: Kind): nat {
    match k
    case Prevote => 2
    case Precommit => 3
  }

  /** `a` is for an earlier height, round and step than `b`. */
  predicate Earlier(a: Vote, b: Vote) {
    a.height < b.height
    || (a.height == b.height && (a.round < b.round || (a.round == b.round && KindRank(a.kind) < KindRank(b.kind))))
  }

  predicate Matches(v: Vote, k: Kind, h: nat, r: int, x: Hash) {
    v.kind == k && v.height == h && v.round == r && v.id.hash == x
  }

  /** The validators of `w` with a vote of this kind, height and round for hash `x` in the log. */
  ghost function Voters(w: Weights, log: seq<Vote>, k: Kind, h: nat, r: int, x: Hash): set<Validator> {
    set i | 0 <= i < |log| && Matches(log[i], k, h, r, x) && log[i].voter in w :: log[i].voter
  }

  /** The validators of `w` with any vote of this kind, height and round in the log. */
  ghost function AnyVoters(w: Weights, log: seq<Vote>, k: Kind, h: nat, r: int): set<Validator> {
    set i | 0 <= i < |log| && Matches(log[i], k, h, r, log[i].id.hash) && log[i].voter in w :: log[i].voter
  }

  /** More than two thirds of the power cast such a vote. */
  ghost predicate Certified(w: Weights, log: seq<Vote>, k: Kind, h: nat, r: int, x: Hash) {
    IsQuorum(w, Voters(w, log, k, h, r, x))
  }

  ghost predicate Polka(w: Weights, log: seq<Vote>, h: nat, r: int, x: Hash) {
    Certified(w, log, Prevote, h, r, x)
  }

  ghost predicate Committed(w: Weights, log: seq<Vote>, h: nat, r: int, x: Hash) {
    Certified(w, log, Precommit, h, r, x)
  }

  /** After round `r` there is a polka for something other than `x`. */
  ghost predicate PolkaAgainst(w: Weights, log: seq<Vote>, h: nat, r: int, x: Hash) {
    exists r', u :: r' > r && u != x && Polka(w, log, h, r', u)
  }

  /** At round `r` or before there is a precommit quorum for `x`. */
  ghost predicate CommittedBy(w: Weights, log: seq<Vote>, h: nat, r: int, x: Hash) {
    exists r0 :: r0 <= r && Committed(w, log, h, r0, x)
  }

  // ---- What correct validators keep ----

  /** Votes of one validator never go back, and never differ at the same height, round and kind. */
  ghost predicate Ordered(p: Validator, log: seq<Vote>) {
    forall i, j :: 0 <= i < j < |log| && log[i].voter == p && log[j].voter == p ==>
      Earlier(log[i], log[j]) || log[i] == log[j]
  }

  predicate IsVote(log: seq<Vote>, i: int, p: Validator, k: Kind, h: nat) {
    0 <= i < |log| && log[i].voter == p && log[i].kind == k && log[i].height == h
  }

  /** A precommit for a block rests on a polka of its round, or on a precommit quorum no later. */
  ghost predicate Justified(w: Weights, before: seq<Vote>, v: Vote) {
    Polka(w, before, v.height, v.round, v.id.hash)
    || CommittedBy(w, before, v.height, v.round, v.id.hash)
  }

  ghost predicate PrecommitsJustified(w: Weights, p: Validator, log: seq<Vote>, h: nat) {
    forall i :: IsVote(log, i, p, Precommit, h) && log[i].id.hash != NIL ==> Justified(w, log[..i], log[i])
  }

  /** A prevote against an own earlier precommit comes after a later polka against that precommit. */
  ghost predicate PrevotesRespectPrecommits(w: Weights, p: Validator, log: seq<Vote>, h: nat) {
    forall i, j ::
      IsVote(log, i, p, Prevote, h) && IsVote(log, j, p, Precommit, h)
      && log[j].id.hash != NIL && log[j].round < log[i].round && log[i].id.hash != log[j].id.hash ==>
        PolkaAgainst(w, log[..i], h, log[j].round, log[j].id.hash)
  }

  ghost predicate RoundsFromZero(p: Validator, log: seq<Vote>) {
    forall i :: 0 <= i < |log| && log[i].voter == p ==> log[i].round >= 0
  }

  ghost predicate VotesCorrectly(w: Weights, p: Validator, log: seq<Vote>, h: nat) {
    && Ordered(p, log)
    && RoundsFromZero(p, log)
    && PrecommitsJustified(w, p, log, h)
    && PrevotesRespectPrecommits(w, p, log, h)
  }

  ghost predicate CorrectVotes(w: Weights, correct: set<Validator>, log: seq<Vote>, h: nat) {
    && FaultyMinority(w, correct)
    && forall p :: p in correct ==> VotesCorrectly(w, p, log, h)
  }

  // ---- Consequences ----

  lemma VotersMonotone(w: Weights, a: seq<Vote>, b: seq<Vote>, k: Kind, h: nat, r: int, x: Hash)
    requires a <= b
    ensures Voters(w, a, k, h, r, x) <= Voters(w, b, k, h, r, x)
  {
    forall p | p in Voters(w, a, k, h, r, x) ensures p in Voters(w, b, k, h, r, x) {
      var i :| 0 <= i < |a| && Matches(a[i], k, h, r, x) && a[i].voter == p;
      assert b[i] == a[i];
    }
  }

  lemma AnyVotersMonotone(w: Weights, a: seq<Vote>, b: seq<Vote>, k: Kind, h: nat, r: int)
    requires a <= b
    ensures AnyVoters(w, a, k, h, r) <= AnyVoters(w, b, k, h, r)
  {
    forall p | p in AnyVoters(w, a, k, h, r) ensures p in AnyVoters(w, b, k, h, r) {
      var i :| 0 <= i < |a| && Matches(a[i], k, h, r, a[i].id.hash) && a[i].voter == p;
      assert b[i] == a[i];
    }
  }

  lemma CertifiedMonotone(w: Weights, a: seq<Vote>, b: seq<Vote>, k: Kind, h: nat, r: int, x: Hash)
    requires a <= b && Certified(w, a, k, h, r, x)
    ensures Certified(w, b, k, h, r, x)
  {
    VotersMonotone(w, a, b, k, h, r, x);
    PowerMonotone(w, Voters(w, a, k, h, r, x), Voters(w, b, k, h, r, x));
  }

  lemma PolkaAgainstMonotone(w: Weights, a: seq<Vote>, b: seq<Vote>, h: nat, r: int, x: Hash)
    requires a <= b && PolkaAgainst(w, a, h, r, x)
    ensures PolkaAgainst(w, b, h, r, x)
  {
    var r', u :| r' > r && u != x && Polka(w, a, h, r', u);
    CertifiedMonotone(w, a, b, Prevote, h, r', u);
    assert Polka(w, b, h, r', u);
  }

  lemma CommittedByMonotone(w: Weights, a: seq<Vote>, b: seq<Vote>, h: nat, r: int, x: Hash)
    requires a <= b && CommittedBy(w, a, h, r, x)
    ensures CommittedBy(w, b, h, r, x)
  {
    var r0 :| r0 <= r && Committed(w, a, h, r0, x);
    CertifiedMonotone(w, a, b, Precommit, h, r0, x);
    assert Committed(w, b, h, r0, x);
  }

  /** Two certified votes have a correct validator in common; here are its votes. */
  lemma CommonVoter(w: Weights, correct: set<Validator>, log: seq<Vote>, h: nat,
                    k: Kind, r: int, x: Hash, k': Kind, r': int, x': Hash, n: nat)
    returns (i: int, j: int)
    requires n <= |log| && FaultyMinority(w, correct)
    requires Certified(w, log[..n], k, h, r, x) && Certified(w, log, k', h, r', x')
    ensures 0 <= i < n && Matches(log[i], k, h, r, x)
    ensures 0 <= j < |log| && Matches(log[j], k', h, r', x')
    ensures log[i].voter == log[j].voter && log[i].voter in correct
  {
    var p := QuorumIntersection(w, correct, Voters(w, log[..n], k, h, r, x), Voters(w, log, k', h, r', x'));
    i :| 0 <= i < |log[..n]| && Matches(log[..n][i], k, h, r, x) && log[..n][i].voter == p;
    j :| 0 <= j < |log| && Matches(log[j], k', h, r', x') && log[j].voter == p;
  }

  /** Certified votes are never for a negative round. */
  lemma CertifiedRound(w: Weights, correct: set<Validator>, log: seq<Vote>, k: Kind, h: nat, r: int, x: Hash)
    requires CorrectVotes(w, correct, log, h) && Certified(w, log, k, h, r, x)
    ensures r >= 0
  {
    assert log[..|log|] == log;
    var i, _ := CommonVoter(w, correct, log, h, k, r, x, k, r, x, |log|);
    assert VotesCorrectly(w, log[i].voter, log, h);
  }

  /** After a precommit quorum for a block no prefix of the log has a later polka against it. */
  lemma {:induction false} NoLaterPolkaBefore(w: Weights, correct: set<Validator>, log: seq<Vote>, h: nat,
                                              r: int, c: Hash, r': int, u: Hash, n: nat)
    requires CorrectVotes(w, correct, log, h) && n <= |log|
    requires Committed(w, log, h, r, c) && c != NIL
    requires r' > r && u != c
    ensures !Polka(w, log[..n], h, r', u)
    decreases n
  {
    if Polka(w, log[..n], h, r', u) {
      var i, j := CommonVoter(w, correct, log, h, Prevote, r', u, Precommit, r, c, n);
      var p := log[i].voter;
      assert VotesCorrectly(w, p, log, h);
      assert IsVote(log, i, p, Prevote, h) && IsVote(log, j, p, Precommit, h);
      assert PolkaAgainst(w, log[..i], h, r, c);
      var r'', u'' :| r'' > r && u'' != c && Polka(w, log[..i], h, r'', u'');
      NoLaterPolkaBefore(w, correct, log, h, r, c, r'', u'', i);
    }
  }

  lemma NoLaterPolka(w: Weights, correct: set<Validator>, log: seq<Vote>, h: nat, r: int, c: Hash, r': int, u: Hash)
    requires CorrectVotes(w, correct, log, h)
    requires Committed(w, log, h, r, c) && c != NIL
    requires r' > r && Polka(w, log, h, r', u)
    ensures u == c
  {
    assert log[..|log|] == log;
    if u != c {
      NoLaterPolkaBefore(w, correct, log, h, r, c, r', u, |log|);
    }
  }

  /** At most one hash is certified per kind and round. */
  lemma CertifiedUnique(w: Weights, correct: set<Validator>, log: seq<Vote>, h: nat, k: Kind, r: int, x: Hash, x': Hash)
    requires CorrectVotes(w, correct, log, h)
    requires Certified(w, log, k, h, r, x) && Certified(w, log, k, h, r, x')
    ensures x == x'
  {
    assert log[..|log|] == log;
    var i, j := CommonVoter(w, correct, log, h, k, r, x, k, r, x', |log|);
    assert VotesCorrectly(w, log[i].voter, log, h);
    if i < j {
      assert Earlier(log[i], log[j]) || log[i] == log[j];
    } else if j < i {
      assert Earlier(log[j], log[i]) || log[i] == log[j];
    }
  }

  /** A precommitted block has a round with both a polka and a precommit quorum for it. */
  lemma {:induction false} CommitHasPolka(w: Weights, correct: set<Validator>, log: seq<Vote>, h: nat,
                                          r: int, c: Hash, n: nat)
    returns (r0: int)
    requires CorrectVotes(w, correct, log, h) && n <= |log|
    requires Committed(w, log[..n], h, r, c) && c != NIL
    ensures Committed(w, log, h, r0, c) && Polka(w, log, h, r0, c)
    decreases n
  {
    CertifiedMonotone(w, log[..n], log, Precommit, h, r, c);
    var i, _ := CommonVoter(w, correct, log, h, Precommit, r, c, Precommit, r, c, n);
    var p := log[i].voter;
    assert VotesCorrectly(w, p, log, h);
    assert IsVote(log, i, p, Precommit, h);
    assert Justified(w, log[..i], log[i]);
    if Polka(w, log[..i], h, r, c) {
      CertifiedMonotone(w, log[..i], log, Prevote, h, r, c);
      r0 := r;
    } else {
      var r1 :| r1 <= r && Committed(w, log[..i], h, r1, c);
      r0 := CommitHasPolka(w, correct, log, h, r1, c, i);
    }
  }

  /** No two blocks of one height gather a precommit quorum, whatever the rounds. */
  lemma OneCommittedBlock(w: Weights, correct: set<Validator>, log: seq<Vote>, h: nat,
                          r: int, c: Hash, r': int, c': Hash)
    requires CorrectVotes(w, correct, log, h)
    requires Committed(w, log, h, r, c) && c != NIL
    requires Committed(w, log, h, r', c') && c' != NIL
    ensures c == c'
  {
    assert log[..|log|] == log;
    var a := CommitHasPolka(w, correct, log, h, r, c, |log|);
    var b := CommitHasPolka(w, correct, log, h, r', c', |log|);
    if a < b {
      NoLaterPolka(w, correct, log, h, a, c, b, c');
    } else if b < a {
      NoLaterPolka(w, correct, log, h, b, c', a, c);
    } else {
      CertifiedUnique(w, correct, log, h, Prevote, a, c, c');
    }
  }
}
