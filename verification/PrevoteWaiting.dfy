/** PrevoteWait is never reached: the step that leads there throws exactly when it is called. */
module PrevoteWaiting {
  import opened Options
  import opened Quorum
  import opened VoteLog
  import opened VoteSets
  import opened RoundSteps
  import opened Agreement

  /** The conditions under which enter_prevote_wait is not simply ignored. */
  predicate Accepts(s: State, height: nat, round: int) {
    !s.thrown && s.height == height && (s.round < round || (s.round == round && Rank(s.step) < 5))
  }

  /** An accepted call throws if and only if two thirds of the power has prevoted, and otherwise waits. */
  lemma PrevoteWaitExactly(s: State, height: nat, round: int)
    requires Accepts(s, height, round)
    ensures var s' := EnterPrevoteWait(s, height, round);
            && (s'.thrown <==> s.votes.TwoThirdsAny(Prevote, round))
            && if s'.thrown then s' == Throw(s) else s'.step == PrevoteWait && s'.round == round
  {
  }

  /** Neither the step nor a pending timeout is PrevoteWait. */
  ghost predicate NotWaiting(s: State) {
    s.step != PrevoteWait && forall t :: t in s.timeouts ==> t.step != PrevoteWait
  }

  lemma PrevoteStepNotWaiting(s: State, env: Env, height: nat, round: int)
    requires NotWaiting(s)
    ensures NotWaiting(EnterPrevote(s, env, height, round))
  {
  }

  lemma ProposeNotWaiting(s: State, env: Env, height: nat, round: int)
    requires NotWaiting(s)
    ensures NotWaiting(EnterPropose(s, env, height, round))
  {
    hide ProposalComplete, EnterPrevote;
    PrevoteStepNotWaiting(Schedule(s, round, ProposeStep).(round := round, step := ProposeStep), env, height, round);
  }

  lemma StepsNotWaiting(s: State, env: Env, height: nat, round: int)
    requires NotWaiting(s)
    ensures NotWaiting(EnterNewRound(s, env, height, round)) && NotWaiting(EnterPropose(s, env, height, round))
    ensures NotWaiting(EnterPrevote(s, env, height, round))
  {
    hide EnterPropose, EnterPrevote, HeightVotes.Enter, HeightVotes.MayEnter;
    PrevoteStepNotWaiting(s, env, height, round);
    ProposeNotWaiting(s, env, height, round);
    ProposeNotWaiting(StartRound(s, round), env, height, round);
  }

  lemma PrecommitNotWaiting(s: State, env: Env, height: nat, round: int)
    requires NotWaiting(s)
    ensures NotWaiting(EnterPrecommit(s, env, height, round)) && NotWaiting(EnterPrecommitWait(s, height, round))
  {
    hide HeightVotes.PolRound;
  }

  lemma FinalizeNotWaiting(s: State, env: Env, height: nat)
    requires NotWaiting(s)
    ensures NotWaiting(TryFinalizeCommit(s, env, height))
  {
    hide NewHeightVotes;
  }

  lemma CommitNotWaiting(s: State, env: Env, height: nat, round: int)
    requires NotWaiting(s)
    ensures NotWaiting(EnterCommit(s, env, height, round))
  {
    hide TryFinalizeCommit, FetchCommitted;
    var maj := s.votes.Majority(Precommit, round);
    var prop := if maj.None? then s.prop else FetchCommitted(s, maj.value);
    FinalizeNotWaiting(s.(prop := prop, thrown := maj.None?, round := round, step := CommitStep, commitRound := round),
                       env, height);
  }

  /** The one place that calls enter_prevote_wait calls it when it throws. */
  lemma PrevoteMoveNotWaiting(s: State, env: Env, maj: Option<BlockId>, round: int)
    requires NotWaiting(s)
    ensures NotWaiting(PrevoteMove(s, env, maj, round))
  {
    hide EnterNewRound, EnterPrevote, EnterPrecommit;
    StepsNotWaiting(s, env, s.height, round);
    StepsNotWaiting(s, env, s.height, s.round);
    PrecommitNotWaiting(s, env, s.height, round);
  }

  lemma ValidKeepsStep(s: State, id: BlockId, round: int)
    ensures UpdateValid(s, id, round).step == s.step && UpdateValid(s, id, round).timeouts == s.timeouts
  {
  }

  lemma PolkaKeepsStep(s: State, round: int)
    ensures Repolled(s, round).step == s.step && Repolled(s, round).timeouts == s.timeouts
  {
    hide UpdateValid;
    var maj := s.votes.Majority(Prevote, round);
    if maj.Some? {
      ValidKeepsStep(ReleaseLock(s, maj.value, round), maj.value, round);
    }
  }

  lemma PrevoteNotWaiting(s: State, env: Env, round: int)
    requires NotWaiting(s)
    ensures NotWaiting(AfterPrevote(s, env, round))
  {
    hide PrevoteMove, Repolled;
    PolkaKeepsStep(s, round);
    PrevoteMoveNotWaiting(Repolled(s, round), env, s.votes.Majority(Prevote, round), round);
  }

  lemma CommitOrWaitNotWaiting(s: State, env: Env, id: BlockId, round: int)
    requires NotWaiting(s)
    ensures NotWaiting(CommitOrWait(s, env, id, round))
  {
    hide NotWaiting, EnterNewRound, EnterPrecommitWait, EnterCommit;
    PrecommitNotWaiting(s, env, s.height, round);
    CommitNotWaiting(s, env, s.height, round);
    var s1 := EnterCommit(s, env, s.height, round);
    StepsNotWaiting(s1, env, s1.height, 0);
  }

  lemma AfterPrecommitNotWaiting(s: State, env: Env, round: int)
    requires NotWaiting(s)
    ensures NotWaiting(AfterPrecommit(s, env, round))
  {
    hide NotWaiting, EnterNewRound, EnterPrecommit, EnterPrecommitWait, CommitOrWait;
    var maj := s.votes.Majority(Precommit, round);
    var s1 := EnterNewRound(s, env, s.height, round);
    StepsNotWaiting(s, env, s.height, round);
    PrecommitNotWaiting(s1, env, s.height, round);
    if maj.Some? {
      CommitOrWaitNotWaiting(EnterPrecommit(s1, env, s.height, round), env, maj.value, round);
    }
  }

  lemma TimeoutNotWaiting(s: State, env: Env, t: Timeout)
    requires NotWaiting(s)
    ensures NotWaiting(HandleTimeout(s, env, t))
  {
    hide EnterNewRound, EnterPropose, EnterPrevote, EnterPrecommit;
    StepsNotWaiting(s, env, t.height, 0);
    StepsNotWaiting(s, env, t.height, t.round);
    PrecommitNotWaiting(s, env, t.height, t.round);
    StepsNotWaiting(EnterPrecommit(s, env, t.height, t.round), env, t.height, t.round + 1);
  }

  lemma PartNotWaiting(s: State, env: Env, height: nat, block: Option<Hash>)
    requires NotWaiting(s)
    ensures NotWaiting(AddBlockPart(s, env, height, block))
  {
    hide EnterPrevote, EnterPrecommit, TryFinalizeCommit, ProposalComplete;
    var s1 := Received(s, block);
    StepsNotWaiting(s1, env, height, s1.round);
    var s2 := EnterPrevote(s1, env, height, s1.round);
    PrecommitNotWaiting(s2, env, height, s2.round);
    FinalizeNotWaiting(s1, env, height);
  }

  /** Whatever the event and whatever the environment answers. */
  lemma HandleNotWaiting(s: State, env: Env, e: Event)
    requires NotWaiting(s)
    ensures NotWaiting(Handle(s, env, e))
  {
    hide EnterNewRound, HandleTimeout, AddBlockPart, AfterPrevote, AfterPrecommit;
    var s0 := s.(cast := [], thrown := false);
    match e
    case Start => StepsNotWaiting(s0, env, s0.height, s0.round);
    case TimeoutFired(t) => TimeoutNotWaiting(s0, env, t);
    case PartReceived(h, b) => PartNotWaiting(s0, env, h, b);
    case VoteReceived(v, peer) =>
      StepsNotWaiting(s0, env, s0.height, 0);
      var s1 := s0.(votes := s0.votes.Add(v, peer).0);
      PrevoteNotWaiting(s1, env, v.round);
      AfterPrecommitNotWaiting(s1, env, v.round);
    case _ =>
  }

  /** In no state of any run does a correct validator wait for prevotes or have a timeout of that kind pending. */
  lemma {:induction false} NeverWaitsForPrevotes(app: App, correct: set<Validator>, run: seq<System>, i: nat, p: Validator)
    requires IsRun(app, correct, run) && i < |run| && p in run[i].nodes
    ensures NotWaiting(run[i].nodes[p])
    decreases i
  {
    hide Handle;
    if i > 0 {
      var sys, sys' := run[i - 1], run[i - 1 + 1];
      assert Next(app, sys, sys');
      if exists v :: FaultyStep(sys, sys', v) {
        NeverWaitsForPrevotes(app, correct, run, i - 1, p);
      } else {
        var q, env, e :| NodeStep(app, sys, sys', q, env, e);
        NeverWaitsForPrevotes(app, correct, run, i - 1, p);
        HandleNotWaiting(sys.nodes[p], env, e);
      }
    }
  }
}
