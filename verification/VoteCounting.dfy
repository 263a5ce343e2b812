/** In every run a majority is reported exactly when more than two thirds of the power is counted for a block. */
module VoteCounting {
  import opened Options
  import opened Quorum
  import opened VoteLog
  import opened VoteSets
  import opened RoundSteps
  import opened StepAnswers
  import opened Agreement

  ghost predicate Exact(s: State) {
    CountsExact(s.votes)
  }

  lemma NewVotesExact(vals: ValidatorSet)
    ensures CountsExact(NewHeightVotes(vals))
  {
  }

  lemma OpensExact(votes: HeightVotes, votes': HeightVotes, round: int)
    requires CountsExact(votes) && Opens(votes, votes', round)
    ensures CountsExact(votes')
  {
    hide MajorityExact;
    forall k, r ensures MajorityExact(votes'.vals, votes'.Get(k, r)) {
      assert MajorityExact(votes.vals, votes.Get(k, r));
    }
  }

  lemma StartsExact(s: State, env: Env, s': State, round: int)
    requires Exact(s) && StartsRound(s, env, s', round)
    ensures Exact(s')
  {
    hide CountsExact, Opens, Proposes;
    if !s'.thrown {
      OpensExact(s.votes, s'.votes, round);
    }
  }

  lemma FinalExact(s: State, env: Env, s': State)
    requires Exact(s) && TriesFinal(s, env, s')
    ensures Exact(s')
  {
    hide CountsExact;
    NewVotesExact(env.nextVals);
  }

  lemma CommitsExactly(s: State, env: Env, s': State, round: int)
    requires Exact(s) && Commits(s, env, s', round)
    ensures Exact(s')
  {
    hide CountsExact, TriesFinal;
    var maj := s.votes.Majority(Precommit, round);
    if maj.Some? {
      var prop :| Fetches(s, prop, maj.value) &&
        TriesFinal(s.(round := round, step := CommitStep, commitRound := round, prop := prop), env, s');
      FinalExact(s.(round := round, step := CommitStep, commitRound := round, prop := prop), env, s');
    }
  }

  lemma PrevoteExact(s: State, env: Env, round: int)
    requires Exact(s) && !s.thrown
    ensures Exact(AfterPrevote(s, env, round))
  {
    hide CountsExact, AfterPrevote, StartsRound, Precommits, Prevotes, Polls, HasProposal;
    var polled := PrevoteReaction(s, env, round);
    PollsKeeps(s, polled, round);
    var s' := AfterPrevote(s, env, round);
    if StartsRound(polled, env, s', round) {
      StartsExact(polled, env, s', round);
    } else if Precommits(polled, env, s', round) {
      PrecommitsReaches(polled, env, s', round);
    } else if Prevotes(polled, env, s', polled.round) {
      PrevotesReaches(polled, env, s', polled.round);
    }
  }

  lemma PrecommitExact(s: State, env: Env, round: int)
    requires Exact(s) && !s.thrown
    ensures Exact(AfterPrecommit(s, env, round))
  {
    hide CountsExact, AfterPrecommit, StartsRound, Precommits, Commits;
    var a, b, c := PrecommitReaction(s, env, round);
    var s' := AfterPrecommit(s, env, round);
    if StartsRound(s, env, a, round) {
      StartsExact(s, env, a, round);
    }
    if Precommits(a, env, b, round) {
      PrecommitsReaches(a, env, b, round);
    }
    if Commits(b, env, c, round) {
      CommitsExactly(b, env, c, round);
    }
    if StartsRound(c, env, s', 0) {
      if Exact(c) {
        StartsExact(c, env, s', 0);
      }
    }
  }

  lemma TimeoutExact(s: State, env: Env, t: Timeout)
    requires Exact(s) && !s.thrown
    ensures Exact(HandleTimeout(s, env, t))
  {
    hide CountsExact, HandleTimeout, StartsRound, Precommits, Prevotes, Proposes;
    var mid := TimeoutAnswer(s, env, t);
    var s' := HandleTimeout(s, env, t);
    if !Outdated(s, t) {
      match t.step
      case NewHeight =>
        if Begins(s, s.height, 0) {
          StartsExact(s, env, s', 0);
        }
      case NewRound =>
        if Due(s, s.height, 0, 3) {
          ProposesKeeps(s, env, s', 0);
        }
      case ProposeStep => PrevotesReaches(s, env, s', t.round);
      case PrevoteWait => PrecommitsReaches(s, env, s', t.round);
      case PrecommitWait =>
        if Due(s, s.height, t.round, 6) {
          PrecommitsReaches(s, env, mid, t.round);
        }
        if !mid.thrown {
          StartsExact(mid, env, s', t.round + 1);
        }
      case _ =>
    }
  }

  lemma PartExact(s: State, env: Env, height: nat, block: Option<Hash>)
    requires Exact(s) && !s.thrown
    ensures Exact(AddBlockPart(s, env, height, block))
  {
    hide CountsExact, AddBlockPart, Precommits, Prevotes, TriesFinal;
    var taken, mid := PartAnswer(s, env, height, block);
    var s' := AddBlockPart(s, env, height, block);
    if Prevotes(taken, env, mid, taken.round) {
      PrevotesReaches(taken, env, mid, taken.round);
    }
    if Precommits(mid, env, s', taken.round) {
      PrecommitsReaches(mid, env, s', taken.round);
    }
    if TriesFinal(taken, env, s') && Exact(taken) {
      FinalExact(taken, env, s');
    }
  }

  lemma HandleExact(s: State, env: Env, e: Event)
    requires Exact(s)
    ensures Exact(Handle(s, env, e))
  {
    hide CountsExact, EnterNewRound, HandleTimeout, AddBlockPart, AfterPrevote, AfterPrecommit, StartsRound, HeightVotes.Add,
      HeightVotes.Track;
    var s0 := s.(cast := [], thrown := false);
    match e
    case Start =>
      NewRoundAnswer(s0, env, s0.height, s0.round);
      if StartsRound(s0, env, EnterNewRound(s0, env, s0.height, s0.round), s0.round) {
        StartsExact(s0, env, EnterNewRound(s0, env, s0.height, s0.round), s0.round);
      }
    case TimeoutFired(t) => TimeoutExact(s0, env, t);
    case PartReceived(h, b) => PartExact(s0, env, h, b);
    case VoteReceived(v, peer) => VoteExact(s0, env, v, peer);
    case PeerMajority(k, r, id) => TrackExact(s0.votes, k, r, id);
    case _ =>
  }

  lemma VoteExact(s: State, env: Env, v: Vote, peer: Peer)
    requires Exact(s) && !s.thrown
    ensures Exact(AddVote(s, env, v, peer))
  {
    hide CountsExact, AddVote, AfterPrevote, AfterPrecommit, StartsRound, HeightVotes.Add;
    VoteAnswer(s, env, v, peer);
    AddExact(s.votes, v, peer);
    var s1 := s.(votes := s.votes.Add(v, peer).0);
    PrevoteExact(s1, env, v.round);
    PrecommitExact(s1, env, v.round);
    if StartsRound(s, env, AddVote(s, env, v, peer), 0) {
      StartsExact(s, env, AddVote(s, env, v, peer), 0);
    }
  }

  /**
   In every state of every run: a correct validator reports a majority exactly when it has counted more than two thirds
   of the power for a block, and then for such a block.
   */
  lemma {:induction false} MajoritiesInRuns(app: App, correct: set<Validator>, run: seq<System>, i: nat, p: Validator,
                                            k: Kind, r: int)
    requires IsRun(app, correct, run) && i < |run| && p in run[i].nodes
    ensures var votes := run[i].nodes[p].votes;
            var s := votes.Get(k, r);
            && (votes.Majority(k, r).Some? <==> exists id :: id in s.byBlock && 3 * s.byBlock[id].sum > 2 * votes.vals.total)
            && (votes.Majority(k, r).Some? ==>
                  && votes.Majority(k, r).value in s.byBlock
                  && 3 * s.byBlock[votes.Majority(k, r).value].sum > 2 * votes.vals.total)
  {
    RunExact(app, correct, run, i, p);
    assert MajorityExact(run[i].nodes[p].votes.vals, run[i].nodes[p].votes.Get(k, r));
  }

  lemma {:induction false} RunExact(app: App, correct: set<Validator>, run: seq<System>, i: nat, p: Validator)
    requires IsRun(app, correct, run) && i < |run| && p in run[i].nodes
    ensures Exact(run[i].nodes[p])
    decreases i
  {
    hide Handle, CountsExact;
    if i > 0 {
      var sys, sys' := run[i - 1], run[i - 1 + 1];
      assert Next(app, sys, sys');
      RunExact(app, correct, run, i - 1, p);
      if !exists v :: FaultyStep(sys, sys', v) {
        var q, env, e :| NodeStep(app, sys, sys', q, env, e);
        HandleExact(sys.nodes[p], env, e);
      }
    } else {
      NewVotesExact(app([]));
    }
  }
}
