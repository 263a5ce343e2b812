/** The votes one node has seen at one height, grouped by round, kind and block. */
module VoteSets {
  import opened Options
  import opened Quorum
  import opened VoteLog

  datatype ValidatorSet = ValidatorSet(weights: Weights, total: nat) {
    ghost predicate Valid() {
      total == Total(weights)
    }
  }

  datatype BlockVotes = BlockVotes(peerMaj23: bool, voters: set<Validator>, sum: nat)

  datatype VoteSet = VoteSet(votes: map<Validator, BlockId>, sum: nat, maj23: Option<BlockId>,
                             byBlock: map<BlockId, BlockVotes>)

  const EMPTY_SET := VoteSet(map[], 0, None, map[])

  /** The votes for `id` once `p` is among them. */
  function Counted(vals: ValidatorSet, s: VoteSet, p: Validator, id: BlockId): BlockVotes
    requires p in vals.weights
  {
    var b := if id in s.byBlock then s.byBlock[id] else BlockVotes(false, {}, 0);
    if p in b.voters then b else b.(voters := b.voters + {p}, sum := b.sum + vals.weights[p])
  }

  /** Adds a verified vote of `p` for `id`; the flag says whether it was counted. */
  function AddToSet(vals: ValidatorSet, s: VoteSet, p: Validator, id: BlockId): (VoteSet, bool) {
    if p !in vals.weights then (s, false)
    else if p in s.votes && s.votes[p] == id then (s, false)
    else
      var conflicting := p in s.votes;
      var s1 :=
        if !conflicting then s.(votes := s.votes[p := id], sum := s.sum + vals.weights[p])
        else if s.maj23 == Some(id) then s.(votes := s.votes[p := id])
        else s;
      if conflicting && (id !in s1.byBlock || s1.byBlock[id].peerMaj23) then (s1, false)
      else
        var orig := if id in s1.byBlock then s1.byBlock[id].sum else 0;
        var b' := Counted(vals, s1, p, id);
        var quorum := vals.total * 2 / 3 + 1;
        var s2 := s1.(byBlock := s1.byBlock[id := b']);
        if orig < quorum <= b'.sum && s2.maj23.None? then
          (s2.(maj23 := Some(id), votes := map q | q in b'.voters :: id), true)
        else (s2, true)
  }

  /** A peer claims two thirds for `id`: start tracking that block. */
  function TrackBlock(s: VoteSet, id: BlockId): VoteSet {
    if id in s.byBlock then s.(byBlock := s.byBlock[id := s.byBlock[id].(peerMaj23 := true)])
    else s.(byBlock := s.byBlock[id := BlockVotes(true, {}, 0)])
  }

  predicate Within(lo: int, x: int, hi: int) {
    lo <= x <= hi
  }

  function Rounds(lo: int, hi: int): set<int> {
    set x | lo <= x <= hi && Within(lo, x, hi)
  }

  datatype RoundVotes = RoundVotes(prevotes: VoteSet, precommits: VoteSet)

  const EMPTY_ROUND := RoundVotes(EMPTY_SET, EMPTY_SET)

  type Peer = nat

  datatype HeightVotes = HeightVotes(vals: ValidatorSet, round: int, sets: map<int, RoundVotes>, catchups: map<Peer, nat>) {

    function Get(k: Kind, r: int): VoteSet {
      if r !in sets then EMPTY_SET
      else if k == Prevote then sets[r].prevotes else sets[r].precommits
    }

    function Put(k: Kind, r: int, s: VoteSet): HeightVotes
      requires r in sets
    {
      this.(sets := sets[r := if k == Prevote then sets[r].(prevotes := s) else sets[r].(precommits := s)])
    }

    /** two_thirds_majority */
    function Majority(k: Kind, r: int): Option<BlockId> {
      Get(k, r).maj23
    }

    /** has_two_thirds_any */
    predicate TwoThirdsAny(k: Kind, r: int) {
      Get(k, r).sum > vals.total * 2 / 3
    }

    /** The last round, from `r` down, with a polka; -1 if there is none. */
    function PolRound(r: int): int
      decreases r + 1
    {
      if r < 0 then -1 else if Majority(Prevote, r).Some? then r else PolRound(r - 1)
    }

    /** set_round refuses to go back. */
    predicate MayEnter(r: int) {
      round == 0 || round - 1 <= r
    }

    function Enter(r: int): HeightVotes {
      this.(round := r,
            sets := map x | x in sets.Keys + Rounds(round - 1, r) :: if x in sets then sets[x] else EMPTY_ROUND)
    }

    /** The rounds not entered yet that votes of this peer have opened. */
    function Opened(peer: Peer): nat {
      if peer in catchups then catchups[peer] else 0
    }

    /** Adds a vote, by which a peer can open at most two rounds not entered yet. */
    function Add(v: Vote, peer: Peer): (HeightVotes, bool) {
      if v.round !in sets && Opened(peer) >= 2 then (this, false)
      else
        var hv := if v.round in sets then this
                  else this.(sets := sets[v.round := EMPTY_ROUND], catchups := catchups[peer := Opened(peer) + 1]);
        var (s, added) := AddToSet(vals, hv.Get(v.kind, v.round), v.voter, v.id);
        (hv.Put(v.kind, v.round, s), added)
    }

    function Track(k: Kind, r: int, id: BlockId): HeightVotes {
      if r in sets then Put(k, r, TrackBlock(Get(k, r), id)) else this
    }
  }

  function NewHeightVotes(vals: ValidatorSet): HeightVotes {
    HeightVotes(vals, 0, map[0 := EMPTY_ROUND], map[])
  }

  // ---- The vote sets only hold votes of the log ----

  /** The sums per block are of votes in the log, and so is a majority. */
  ghost predicate BlocksOk(vals: ValidatorSet, log: seq<Vote>, k: Kind, h: nat, r: int, s: VoteSet) {
    && (forall id :: id in s.byBlock ==>
          && s.byBlock[id].sum == Power(vals.weights, s.byBlock[id].voters)
          && s.byBlock[id].voters <= Voters(vals.weights, log, k, h, r, id.hash))
    && (s.maj23.Some? ==> Certified(vals.weights, log, k, h, r, s.maj23.value.hash))
  }

  /** Until there is a majority the total is of validators that voted. */
  ghost predicate TotalOk(vals: ValidatorSet, log: seq<Vote>, k: Kind, h: nat, r: int, s: VoteSet) {
    s.maj23.None? ==>
      && s.sum == Power(vals.weights, s.votes.Keys)
      && s.votes.Keys <= AnyVoters(vals.weights, log, k, h, r)
  }

  ghost predicate SetOk(vals: ValidatorSet, log: seq<Vote>, k: Kind, h: nat, r: int, s: VoteSet) {
    BlocksOk(vals, log, k, h, r, s) && TotalOk(vals, log, k, h, r, s)
  }

  ghost predicate VotesOk(log: seq<Vote>, h: nat, hv: HeightVotes) {
    && hv.vals.Valid()
    && forall k, r :: SetOk(hv.vals, log, k, h, r, hv.Get(k, r))
  }

  lemma CountedOk(vals: ValidatorSet, log: seq<Vote>, s: VoteSet, v: Vote)
    requires BlocksOk(vals, log, v.kind, v.height, v.round, s)
    requires v in log && v.voter in vals.weights
    ensures var b := Counted(vals, s, v.voter, v.id);
            && b.sum == Power(vals.weights, b.voters)
            && b.voters <= Voters(vals.weights, log, v.kind, v.height, v.round, v.id.hash)
  {
    var i :| 0 <= i < |log| && log[i] == v;
    assert Matches(log[i], v.kind, v.height, v.round, v.id.hash);
    var b := if v.id in s.byBlock then s.byBlock[v.id] else BlockVotes(false, {}, 0);
    if v.voter !in b.voters {
      PowerAdd(vals.weights, b.voters, v.voter);
    }
  }

  /** The first vote of a validator counts for the total. */
  lemma TotalAdd(vals: ValidatorSet, log: seq<Vote>, s: VoteSet, v: Vote)
    requires TotalOk(vals, log, v.kind, v.height, v.round, s) && v in log && v.voter in vals.weights && s.maj23.None?
    ensures v.voter in AnyVoters(vals.weights, log, v.kind, v.height, v.round)
    ensures v.voter !in s.votes ==> s.sum + vals.weights[v.voter] == Power(vals.weights, s.votes.Keys + {v.voter})
  {
    var i :| 0 <= i < |log| && log[i] == v;
    assert Matches(log[i], v.kind, v.height, v.round, v.id.hash);
    if v.voter !in s.votes {
      PowerAdd(vals.weights, s.votes.Keys, v.voter);
    }
  }

  lemma AddedTotal(vals: ValidatorSet, log: seq<Vote>, s: VoteSet, v: Vote)
    requires TotalOk(vals, log, v.kind, v.height, v.round, s) && v in log
    ensures TotalOk(vals, log, v.kind, v.height, v.round, AddToSet(vals, s, v.voter, v.id).0)
  {
    var s' := AddToSet(vals, s, v.voter, v.id).0;
    if s'.maj23.None? && v.voter in vals.weights {
      TotalAdd(vals, log, s, v);
      hide AnyVoters;
      assert s'.votes.Keys == if v.voter in s.votes then s.votes.Keys else s.votes.Keys + {v.voter};
    }
  }

  lemma AddedBlocks(vals: ValidatorSet, log: seq<Vote>, s: VoteSet, v: Vote)
    requires vals.Valid() && v in log
    requires BlocksOk(vals, log, v.kind, v.height, v.round, s)
    ensures BlocksOk(vals, log, v.kind, v.height, v.round, AddToSet(vals, s, v.voter, v.id).0)
  {
    var (s', added) := AddToSet(vals, s, v.voter, v.id);
    if added {
      var b := Counted(vals, s, v.voter, v.id);
      assert s'.byBlock == s.byBlock[v.id := b];
      CountedOk(vals, log, s, v);
      PowerMonotone(vals.weights, b.voters, Voters(vals.weights, log, v.kind, v.height, v.round, v.id.hash));
      assert s'.maj23 == s.maj23 || (s'.maj23 == Some(v.id) && 3 * b.sum > 2 * vals.total);
    } else {
      assert s'.byBlock == s.byBlock && s'.maj23 == s.maj23;
    }
  }

  lemma AddToSetOk(vals: ValidatorSet, log: seq<Vote>, s: VoteSet, v: Vote)
    requires vals.Valid() && v in log && SetOk(vals, log, v.kind, v.height, v.round, s)
    ensures SetOk(vals, log, v.kind, v.height, v.round, AddToSet(vals, s, v.voter, v.id).0)
  {
    hide BlocksOk, TotalOk, AddToSet;
    AddedBlocks(vals, log, s, v);
    AddedTotal(vals, log, s, v);
  }

  lemma NothingCounted(vals: ValidatorSet, log: seq<Vote>, k: Kind, h: nat, r: int)
    ensures SetOk(vals, log, k, h, r, EMPTY_SET)
  {
  }

  lemma AddOk(log: seq<Vote>, h: nat, hv: HeightVotes, v: Vote, peer: Peer)
    requires VotesOk(log, h, hv) && v in log && v.height == h
    ensures VotesOk(log, h, hv.Add(v, peer).0)
  {
    AddToSetOk(hv.vals, log, hv.Get(v.kind, v.round), v);
    NothingCounted(hv.vals, log, v.kind, h, v.round);
    hide SetOk, AddToSet;
    var hv' := hv.Add(v, peer).0;
    forall k, r ensures SetOk(hv'.vals, log, k, h, r, hv'.Get(k, r)) {
      assert SetOk(hv.vals, log, k, h, r, hv.Get(k, r));
    }
  }

  /** Two thirds of any votes: so much power has voted in the round, unless there is a majority anyway. */
  lemma TwoThirdsAnyOk(log: seq<Vote>, h: nat, hv: HeightVotes, k: Kind, r: int)
    requires VotesOk(log, h, hv) && hv.TwoThirdsAny(k, r)
    ensures hv.Majority(k, r).Some? || IsQuorum(hv.vals.weights, AnyVoters(hv.vals.weights, log, k, h, r))
  {
    var s := hv.Get(k, r);
    assert SetOk(hv.vals, log, k, h, r, s);
    if s.maj23.None? {
      PowerMonotone(hv.vals.weights, s.votes.Keys, AnyVoters(hv.vals.weights, log, k, h, r));
    }
  }

  // ---- What is counted, and when there is a majority ----

  /**
   A vote is counted if it is the first of a known validator, or conflicts with an earlier one and its block is tracked
   and not claimed by a peer. Counted votes add the power of the validator once for each block, and to the total once.
   */
  predicate Counts(vals: ValidatorSet, s: VoteSet, p: Validator, id: BlockId, s': VoteSet, added: bool) {
    && (added <==>
          && p in vals.weights
          && (p !in s.votes || (s.votes[p] != id && id in s.byBlock && !s.byBlock[id].peerMaj23)))
    && s'.sum == (if added && p !in s.votes then s.sum + vals.weights[p] else s.sum)
    && (if !added then s'.byBlock == s.byBlock
        else if id !in s.byBlock then s'.byBlock == s.byBlock[id := BlockVotes(false, {p}, vals.weights[p])]
        else if p in s.byBlock[id].voters then s'.byBlock == s.byBlock
        else
          var b := s.byBlock[id];
          s'.byBlock == s.byBlock[id := BlockVotes(b.peerMaj23, b.voters + {p}, b.sum + vals.weights[p])])
    && (s.maj23.Some? || !added ==> s'.maj23 == s.maj23) && (s'.maj23 == s.maj23 || s'.maj23 == Some(id))
    && s'.votes == (if s.maj23 != s'.maj23 then map q | q in s'.byBlock[id].voters :: id
                    else if p in vals.weights && (p !in s.votes || s.maj23 == Some(id)) then s.votes[p := id]
                    else s.votes)
  }

  lemma CountedExactly(vals: ValidatorSet, s: VoteSet, p: Validator, id: BlockId)
    ensures var (s', added) := AddToSet(vals, s, p, id); Counts(vals, s, p, id, s', added)
  {
    assert id in s.byBlock ==> s.byBlock[id := s.byBlock[id]] == s.byBlock;
    assert p in s.votes ==> s.votes[p := s.votes[p]] == s.votes;
    assert {} + {p} == {p};
  }

  /**
   A second, conflicting vote counts for a block that others voted for, but no longer once a peer has claimed that block:
   the opposite of what the notes on the vote set promise.
   */
  lemma ClaimedBlockRefused(vals: ValidatorSet, p: Validator, q: Validator, a: BlockId, b: BlockId)
    requires p in vals.weights && q in vals.weights && p != q && a != b
    requires 3 * vals.weights[p] <= 2 * vals.total && 3 * vals.weights[q] <= 2 * vals.total
    ensures var s := AddToSet(vals, AddToSet(vals, EMPTY_SET, p, a).0, q, b).0;
            AddToSet(vals, s, p, b).1 && !AddToSet(vals, TrackBlock(s, b), p, b).1
  {
  }

  /** There is a majority exactly when more than two thirds of the power is counted for a block, and it is for such a block. */
  predicate MajorityExact(vals: ValidatorSet, s: VoteSet) {
    && (s.maj23.Some? ==> s.maj23.value in s.byBlock && 3 * s.byBlock[s.maj23.value].sum > 2 * vals.total)
    && (forall id :: id in s.byBlock && 3 * s.byBlock[id].sum > 2 * vals.total ==> s.maj23.Some?)
  }

  lemma AddToSetExact(vals: ValidatorSet, s: VoteSet, p: Validator, id: BlockId)
    requires MajorityExact(vals, s)
    ensures MajorityExact(vals, AddToSet(vals, s, p, id).0)
  {
  }

  ghost predicate CountsExact(hv: HeightVotes) {
    forall k, r :: MajorityExact(hv.vals, hv.Get(k, r))
  }

  /** A peer can open at most two rounds not entered yet; the vote is counted in the set of its round and kind only. */
  lemma AddExact(hv: HeightVotes, v: Vote, peer: Peer)
    ensures var (hv', added) := hv.Add(v, peer);
            && hv'.vals == hv.vals && hv'.round == hv.round
            && (if v.round !in hv.sets && hv.Opened(peer) >= 2 then hv' == hv && !added
                else
                  && Counts(hv.vals, hv.Get(v.kind, v.round), v.voter, v.id, hv'.Get(v.kind, v.round), added)
                  && hv'.sets.Keys == hv.sets.Keys + {v.round}
                  && (forall q :: hv'.Opened(q) == hv.Opened(q) + if q == peer && v.round !in hv.sets then 1 else 0)
                  && (forall k, r :: k != v.kind || r != v.round ==> hv'.Get(k, r) == hv.Get(k, r)))
            && (CountsExact(hv) ==> CountsExact(hv'))
  {
    hide AddToSet, Counts, MajorityExact;
    CountedExactly(hv.vals, hv.Get(v.kind, v.round), v.voter, v.id);
    if CountsExact(hv) {
      AddToSetExact(hv.vals, hv.Get(v.kind, v.round), v.voter, v.id);
    }
  }

  lemma TrackExact(hv: HeightVotes, k: Kind, r: int, id: BlockId)
    requires CountsExact(hv)
    ensures CountsExact(hv.Track(k, r, id))
  {
    var hv' := hv.Track(k, r, id);
    forall k', q ensures MajorityExact(hv'.vals, hv'.Get(k', q)) {
      assert MajorityExact(hv.vals, hv.Get(k', q));
    }
  }

  lemma EnterOk(log: seq<Vote>, h: nat, hv: HeightVotes, r: int)
    requires VotesOk(log, h, hv)
    ensures VotesOk(log, h, hv.Enter(r))
  {
    forall k, q ensures SetOk(hv.vals, log, k, h, q, hv.Enter(r).Get(k, q)) {
      assert SetOk(hv.vals, log, k, h, q, hv.Get(k, q));
    }
  }

  lemma TrackOk(log: seq<Vote>, h: nat, hv: HeightVotes, k: Kind, r: int, id: BlockId)
    requires VotesOk(log, h, hv)
    ensures VotesOk(log, h, hv.Track(k, r, id))
  {
    forall k', q ensures SetOk(hv.vals, log, k', h, q, hv.Track(k, r, id).Get(k', q)) {
      assert SetOk(hv.vals, log, k', h, q, hv.Get(k', q));
    }
  }

  lemma VotesOkMonotone(log: seq<Vote>, log': seq<Vote>, h: nat, hv: HeightVotes)
    requires VotesOk(log, h, hv) && log <= log'
    ensures VotesOk(log', h, hv)
  {
    forall k, r ensures SetOk(hv.vals, log', k, h, r, hv.Get(k, r)) {
      var s := hv.Get(k, r);
      assert SetOk(hv.vals, log, k, h, r, s);
      forall id | id in s.byBlock
        ensures s.byBlock[id].voters <= Voters(hv.vals.weights, log', k, h, r, id.hash)
      {
        VotersMonotone(hv.vals.weights, log, log', k, h, r, id.hash);
      }
      AnyVotersMonotone(hv.vals.weights, log, log', k, h, r);
      if s.maj23.Some? {
        CertifiedMonotone(hv.vals.weights, log, log', k, h, r, s.maj23.value.hash);
      }
    }
  }
}
