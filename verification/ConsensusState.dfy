/** The consensus object itself: its handlers change the round state in place, step by step. */
module ConsensusObject {
  import opened Options
  import opened Quorum
  import opened VoteLog
  import opened VoteSets
  import Spec = RoundSteps
  import opened RoundSteps
  import opened RoundInvariant
  import opened RoundPreservation
  import opened HandlerEffects
  import opened StepAnswers

  class ConsensusState {
    const me: Validator
    var height: nat
    var round: int
    var step: Step
    var prop: Proposed
    var lock: Held
    var valid: Held
    var votes: HeightVotes
    var commitRound: int
    var triggeredTimeoutPrecommit: bool
    var timeouts: set<Timeout>
    var signed: Option<Vote>
    var stored: map<nat, Hash>
    var chain: seq<Hash>
    var cast: seq<Vote>
    var thrown: bool
    ghost var askedTwice: bool

    ghost function Value(): State
      reads this
    {
      State(me, height, round, step, prop, lock, valid, votes, commitRound, triggeredTimeoutPrecommit,
            timeouts, signed, stored, chain, cast, thrown, askedTwice)
    }

    constructor (me: Validator, vals: ValidatorSet)
      ensures Value() == InitialState(me, vals)
    {
      this.me := me;
      height, round, step := 0, 0, NewHeight;
      prop, lock, valid := NOTHING_PROPOSED, NOTHING_HELD, NOTHING_HELD;
      votes, commitRound, triggeredTimeoutPrecommit := NewHeightVotes(vals), -1, false;
      timeouts, signed, stored, chain, cast, thrown, askedTwice := {}, None, map[], [], [], false, false;
    }

    method ScheduleTimeout(r: int, s: Step)
      modifies this`timeouts
      ensures Value() == Schedule(old(Value()), r, s)
    {
      timeouts := timeouts + {Timeout(height, r, s)};
    }

    method SignAddVote(env: Env, k: Kind, id: BlockId)
      modifies this`signed, this`cast, this`askedTwice
      ensures Value() == Spec.SignAddVote(old(Value()), env, k, id)
      ensures SignsForward(old(Value()), Value())
    {
      SignerForward(Value(), env, k, id);
      if !env.canSign {
        return;
      }
      var v := Vote(me, k, height, round, id);
      askedTwice := Asked(Value(), v);
      if signed.Some? && !Earlier(signed.value, v) && signed.value != v {
        return;
      }
      signed := Some(v);
      cast := cast + [v];
    }

    method IsProposalComplete() returns (complete: bool)
      ensures complete == ProposalComplete(Value())
    {
      if prop.pol.None? || prop.block.None? {
        return false;
      }
      if prop.pol.value < 0 {
        return true;
      }
      complete := votes.Majority(Prevote, prop.pol.value).Some?;
    }

    method EnterNewRound(env: Env, h: nat, r: int)
      modifies this
      ensures Value() == Spec.EnterNewRound(old(Value()), env, h, r)
      ensures Value() == old(Value()) || Later(old(Value()), Value())
      ensures RespectsLock(old(Value()), Value())
      ensures if Begins(old(Value()), h, r) then StartsRound(old(Value()), env, Value(), r) else Value() == old(Value())
    {
      hide RespectsLock, LocksToPrecommit, StoresMajority, Later, SignsForward, OnlyWaits;
      hide StartsRound;
      NewRoundAnswer(Value(), env, h, r);
      NewRoundRaises(Value(), env, h, r);
      NewRoundEffect(Value(), env, h, r);
      hide Spec.EnterPropose, StartRound;
      if thrown || height != h || r < round || (round == r && step != NewHeight) {
        return;
      }
      BeginRound(r);
      if thrown {
        ThrownSkips(Value(), env, h, r);
        return;
      }
      EnterPropose(env, h, r);
    }

    method BeginRound(r: int)
      requires !thrown
      modifies this
      ensures Value() == StartRound(old(Value()), r)
    {
      round, step := r, NewRound;
      if r != 0 {
        prop := NOTHING_PROPOSED;
      }
      if !votes.MayEnter(r + 1) {
        thrown := true;
        return;
      }
      votes := votes.Enter(r + 1);
      triggeredTimeoutPrecommit := false;
    }

    method EnterPropose(env: Env, h: nat, r: int)
      modifies this
      ensures Value() == Spec.EnterPropose(old(Value()), env, h, r)
      ensures Value() == old(Value()) || Later(old(Value()), Value())
      ensures RespectsLock(old(Value()), Value())
      ensures if Due(old(Value()), h, r, 3) then Proposes(old(Value()), env, Value(), r) else Value() == old(Value())
    {
      hide RespectsLock, LocksToPrecommit, StoresMajority, Later, SignsForward, OnlyWaits;
      hide Proposes, Prevotes;
      ProposeAnswer(Value(), env, h, r);
      ProposeRaises(Value(), env, h, r);
      ProposeEffect(Value(), env, h, r);
      if thrown || height != h || r < round || (round == r && 3 <= Rank(step)) {
        return;
      }
      ScheduleTimeout(r, ProposeStep);
      round, step := r, ProposeStep;
      var complete := IsProposalComplete();
      if complete {
        EnterPrevote(env, h, r);
      }
    }

    method EnterPrevote(env: Env, h: nat, r: int)
      modifies this
      ensures Value() == Spec.EnterPrevote(old(Value()), env, h, r)
      ensures Value() == old(Value()) || Later(old(Value()), Value())
      ensures RespectsLock(old(Value()), Value())
      ensures if Due(old(Value()), h, r, 4) then Prevotes(old(Value()), env, Value(), r) else Value() == old(Value())
    {
      hide RespectsLock, LocksToPrecommit, StoresMajority, Later, SignsForward, OnlyWaits;
      hide Prevotes;
      PrevoteAnswer(Value(), env, h, r);
      PrevoteRaises(Value(), env, h, r);
      PrevoteEffect(Value(), env, h, r);
      if thrown || height != h || r < round || (round == r && 4 <= Rank(step)) {
        return;
      }
      if lock.block.Some? {
        SignAddVote(env, Prevote, BlockId(lock.block.value, Header(lock.parts)));
      } else if prop.block.None? {
        SignAddVote(env, Prevote, BlockId(NIL, 0));
      } else {
        SignAddVote(env, Prevote, BlockId(prop.block.value, Header(prop.parts)));
      }
      round, step := r, PrevoteStep;
    }

    method EnterPrevoteWait(h: nat, r: int)
      modifies this
      ensures Value() == Spec.EnterPrevoteWait(old(Value()), h, r)
      ensures Value() == old(Value()) || Value() == Throw(old(Value())) || Later(old(Value()), Value())
      ensures thrown && !old(thrown) <==> Value() != old(Value()) && old(votes).TwoThirdsAny(Prevote, r)
    {
      if thrown || height != h || r < round || (round == r && 5 <= Rank(step)) {
        return;
      }
      if votes.TwoThirdsAny(Prevote, r) {
        thrown := true;
        return;
      }
      ScheduleTimeout(r, PrevoteWait);
      round, step := r, PrevoteWait;
    }

    /** The body of enter_precommit, which leaves round and step to be set on the way out. */
    method DoPrecommit(env: Env, r: int)
      modifies this
      ensures Value() == Spec.DoPrecommit(old(Value()), env, r)
    {
      hide SignsForward;
      var maj := votes.Majority(Prevote, r);
      if maj.None? {
        SignAddVote(env, Precommit, BlockId(NIL, 0));
        return;
      }
      var id := maj.value;
      if votes.PolRound(votes.round) < r {
        thrown := true;
        return;
      }
      if id.hash == NIL {
        if lock.block.Some? {
          lock := NOTHING_HELD;
        }
        SignAddVote(env, Precommit, BlockId(NIL, 0));
        return;
      }
      if HashesTo(lock.block, id.hash) {
        lock := lock.(round := r);
        SignAddVote(env, Precommit, id);
        return;
      }
      if HashesTo(prop.block, id.hash) {
        lock := Held(r, prop.block, prop.parts);
        SignAddVote(env, Precommit, id);
        return;
      }
      lock := NOTHING_HELD;
      if prop.parts != Some(id.parts) {
        prop := prop.(block := None, parts := Some(id.parts));
      }
      SignAddVote(env, Precommit, BlockId(NIL, 0));
    }

    method EnterPrecommit(env: Env, h: nat, r: int)
      modifies this
      ensures Value() == Spec.EnterPrecommit(old(Value()), env, h, r)
      ensures Value() == old(Value()) || Later(old(Value()), Value())
      ensures LocksToPrecommit(old(Value()), Value(), r)
      ensures if Due(old(Value()), h, r, 6) then Precommits(old(Value()), env, Value(), r) else Value() == old(Value())
    {
      hide RespectsLock, LocksToPrecommit, StoresMajority, Later, SignsForward, OnlyWaits;
      hide Precommits;
      PrecommitAnswer(Value(), env, h, r);
      PrecommitRaises(Value(), env, h, r);
      PrecommitEffect(Value(), env, h, r);
      if thrown || height != h || r < round || (round == r && 6 <= Rank(step)) {
        return;
      }
      DoPrecommit(env, r);
      round, step := r, PrecommitStep;
    }

    method EnterPrecommitWait(h: nat, r: int)
      modifies this
      ensures Value() == Spec.EnterPrecommitWait(old(Value()), h, r)
      ensures OnlyWaits(old(Value()), Value())
      ensures if h == old(height) then Waits(old(Value()), Value(), r) else Value() == old(Value())
    {
      WaitAnswer(Value(), h, r);
      hide Waits;
      if thrown || height != h || r < round || (round == r && triggeredTimeoutPrecommit) {
        return;
      }
      if !votes.TwoThirdsAny(Precommit, r) {
        thrown := true;
        return;
      }
      ScheduleTimeout(r, PrecommitWait);
      triggeredTimeoutPrecommit := true;
    }

    method EnterCommit(env: Env, h: nat, r: int)
      modifies this
      ensures Value() == Spec.EnterCommit(old(Value()), env, h, r)
      ensures if !old(thrown) && old(height) == h && Rank(old(step)) < 8 then Commits(old(Value()), env, Value(), r)
              else Value() == old(Value())
    {
      hide StoresMajority, Commits;
      CommitAnswer(Value(), env, h, r);
      hide Spec.TryFinalizeCommit;
      if thrown || height != h || 8 <= Rank(step) {
        return;
      }
      var maj := votes.Majority(Precommit, r);
      if maj.None? {
        thrown := true;
      } else {
        if HashesTo(lock.block, maj.value.hash) {
          prop := prop.(block := lock.block, parts := lock.parts);
        }
        if !HashesTo(prop.block, maj.value.hash) && prop.parts != Some(maj.value.parts) {
          prop := prop.(block := None, parts := Some(maj.value.parts));
        }
      }
      round, step, commitRound := r, CommitStep, r;
      TryFinalizeCommit(env, h);
    }

    method TryFinalizeCommit(env: Env, h: nat)
      modifies this
      ensures Value() == Spec.TryFinalizeCommit(old(Value()), env, h)
      ensures StoresMajority(old(Value()), Value())
    {
      hide StoresMajority;
      TryFinalizeEffect(Value(), env, h);
      if height != h {
        thrown := true;
        return;
      }
      var maj := votes.Majority(Precommit, commitRound);
      if maj.None? || maj.value.hash == NIL {
        return;
      }
      if !HashesTo(prop.block, maj.value.hash) {
        return;
      }
      FinalizeCommit(env, maj.value);
    }

    method FinalizeCommit(env: Env, id: BlockId)
      modifies this
      ensures Value() == Spec.FinalizeCommit(old(Value()), env, id)
      ensures old(votes).Majority(Precommit, old(commitRound)) == Some(id) && id.hash != NIL ==> StoresMajority(old(Value()), Value())
    {
      if votes.Majority(Precommit, commitRound) == Some(id) && id.hash != NIL {
        FinalizeEffect(Value(), env, id);
      }
      if step != CommitStep {
        return;
      }
      if prop.parts != Some(id.parts) || !env.blockValid {
        thrown := true;
        return;
      }
      if height !in stored {
        stored := stored[height := id.hash];
      }
      if !env.applied {
        return;
      }
      UpdateToState(env.nextVals, id.hash);
    }

    method ResetRoundState(vals: ValidatorSet)
      modifies this
      ensures Value() == old(Value()).(prop := NOTHING_PROPOSED, lock := NOTHING_HELD, valid := NOTHING_HELD,
                                       votes := NewHeightVotes(vals), commitRound := -1,
                                       triggeredTimeoutPrecommit := false)
    {
      hide NewHeightVotes;
      prop, lock, valid := NOTHING_PROPOSED, NOTHING_HELD, NOTHING_HELD;
      votes := NewHeightVotes(vals);
      commitRound, triggeredTimeoutPrecommit := -1, false;
    }

    method UpdateToState(vals: ValidatorSet, hash: Hash)
      modifies this
      ensures Value() == Spec.UpdateToState(old(Value()), vals, hash)
      ensures StartsHeight(old(Value()), Value())
    {
      hide StartsHeight;
      NewHeightEffect(Value(), vals, hash);
      hide NewHeightVotes;
      chain := chain + [hash];
      height := height + 1;
      round, step := 0, NewHeight;
      ResetRoundState(vals);
      ScheduleTimeout(0, NewHeight);
    }

    method SetProposal(h: nat, r: int, pol: int, parts: Parts, signatureOk: bool)
      modifies this
      ensures Value() == Spec.SetProposal(old(Value()), h, r, pol, parts, signatureOk)
      ensures TakesProposal(old(Value()), Value())
    {
      ProposalEffect(Value(), h, r, pol, parts, signatureOk);
      if prop.pol.Some? || h != height || r != round {
        return;
      }
      if pol < -1 || (pol >= 0 && pol >= r) || !signatureOk {
        return;
      }
      prop := prop.(pol := Some(pol));
      if prop.parts.None? {
        prop := prop.(parts := Some(parts));
      }
    }

    /** The complete block becomes the proposal block, and the valid block if the round has a polka for it. */
    method TakeBlock(block: Option<Hash>)
      modifies this`prop, this`valid
      ensures Value() == Received(old(Value()), block)
    {
      prop := prop.(block := block);
      var maj := votes.Majority(Prevote, round);
      if maj.Some? && maj.value != BlockId(NIL, 0) && valid.round < round && HashesTo(prop.block, maj.value.hash) {
        valid := Held(round, prop.block, prop.parts);
      }
    }

    method AddProposalBlockPart(env: Env, h: nat, block: Option<Hash>, ghost q: Quorums, ghost log: seq<Vote>)
      modifies this
      ensures Value() == Spec.AddBlockPart(old(Value()), env, h, block)
      ensures Context(q, log, old(Value())) ==> Handled(q, log, old(Value()), Value(), env.nextVals)
    {
      hide RespectsLock, LocksToPrecommit, StoresMajority, Later, SignsForward, OnlyWaits, Handled;
      if Context(q, log, Value()) {
        PartHandled(q, log, Value(), env, h, block);
      }
      hide Context;
      hide Spec.EnterPrevote, Spec.EnterPrecommit, Spec.TryFinalizeCommit, Spec.Received, ProposalComplete;
      ReceivedKeeps(Value(), block);
      if height != h || prop.parts.None? || block.None? {
        return;
      }
      var maj := votes.Majority(Prevote, round);
      TakeBlock(block);
      var complete := IsProposalComplete();
      if Rank(step) <= 3 && complete {
        EnterPrevote(env, h, round);
        if maj.Some? {
          EnterPrecommit(env, h, round);
        }
      } else if step == CommitStep {
        TryFinalizeCommit(env, h);
      }
    }

    method HandleTimeout(env: Env, t: Timeout, ghost q: Quorums, ghost log: seq<Vote>)
      modifies this
      ensures Value() == Spec.HandleTimeout(old(Value()), env, t)
      ensures !old(thrown) ==> TimeoutLeads(old(Value()), t, Value())
      ensures Context(q, log, old(Value())) && t in old(timeouts) ==> Handled(q, log, old(Value()), Value(), env.nextVals)
    {
      hide RespectsLock, LocksToPrecommit, StoresMajority, Later, SignsForward, OnlyWaits, Handled;
      hide TimeoutLeads, StartsRound, Proposes, Prevotes, Precommits, Due, Begins, Context;
      hide Spec.EnterNewRound, Spec.EnterPropose, Spec.EnterPrevote, Spec.EnterPrecommit;
      if !thrown {
        TimeoutReaches(Value(), env, t);
      }
      if Context(q, log, Value()) && t in timeouts {
        TimeoutHandled(q, log, Value(), env, t);
      }
      if t.height != height || t.round < round || (t.round == round && Rank(t.step) < Rank(step)) {
        return;
      }
      match t.step
      case NewHeight => EnterNewRound(env, t.height, 0);
      case NewRound => EnterPropose(env, t.height, 0);
      case ProposeStep => EnterPrevote(env, t.height, t.round);
      case PrevoteWait => EnterPrecommit(env, t.height, t.round);
      case PrecommitWait =>
        EnterPrecommit(env, t.height, t.round);
        EnterNewRound(env, t.height, t.round + 1);
      case _ => thrown := true;
    }

    method AddVote(env: Env, v: Vote, peer: Peer, ghost q: Quorums, ghost log: seq<Vote>)
      modifies this
      ensures Value() == Spec.AddVote(old(Value()), env, v, peer)
      ensures var e := VoteReceived(v, peer);
              !old(thrown) && old(cast) == [] && Context(q, log, Absorbed(old(Value()), e)) ==>
                Handled(q, log, Absorbed(old(Value()), e), Value(), env.nextVals)
    {
      hide RespectsLock, LocksToPrecommit, StoresMajority, Later, SignsForward, OnlyWaits, Handled;
      if !thrown && cast == [] && Context(q, log, Absorbed(Value(), VoteReceived(v, peer))) {
        VoteHandled(q, log, Value(), env, v, peer);
      }
      if v.height + 1 == height && v.kind == Precommit {
        if step == NewHeight && env.hasAll {
          EnterNewRound(env, height, 0);
        }
        return;
      }
      if v.height != height {
        return;
      }
      var (votes', added) := votes.Add(v, peer);
      votes := votes';
      if !added {
        return;
      }
      if v.kind == Prevote {
        AddedPrevote(env, v.round, q, log);
      } else {
        AddedPrecommit(env, v.round, q, log);
      }
    }

    method AddedPrevote(env: Env, r: int, ghost q: Quorums, ghost log: seq<Vote>)
      modifies this
      ensures Value() == AfterPrevote(old(Value()), env, r)
      ensures !old(thrown) && Context(q, log, old(Value())) ==> Handled(q, log, old(Value()), Value(), env.nextVals)
    {
      hide RespectsLock, LocksToPrecommit, StoresMajority, Later, SignsForward, OnlyWaits, Handled;
      if !thrown && Context(q, log, Value()) {
        PrevoteHandled(q, log, Value(), env, r);
      }
      var maj := votes.Majority(Prevote, r);
      if maj.Some? {
        ApplyPolka(maj.value, r);
      }
      assert Value() == Repolled(old(Value()), r);
      if round < r && votes.TwoThirdsAny(Prevote, r) {
        EnterNewRound(env, height, r);
      } else if round == r && 4 <= Rank(step) {
        var complete := IsProposalComplete();
        if maj.Some? && (complete || maj.value.hash == NIL) {
          EnterPrecommit(env, height, r);
        } else if votes.TwoThirdsAny(Prevote, r) {
          EnterPrevoteWait(height, r);
        }
      } else if prop.pol.Some? && 0 <= prop.pol.value == r {
        var complete := IsProposalComplete();
        if complete {
          EnterPrevote(env, height, round);
        }
      }
    }

    /** A polka in the round of a prevote just added: unlock if it is later than the lock, and update valid. */
    method ApplyPolka(id: BlockId, r: int)
      modifies this
      ensures Value() == UpdateValid(ReleaseLock(old(Value()), id, r), id, r)
    {
      if lock.block.Some? && lock.round < r && r <= round && !HashesTo(lock.block, id.hash) {
        lock := NOTHING_HELD;
      }
      if id.hash != NIL && valid.round < r && r == round {
        if HashesTo(prop.block, id.hash) {
          valid := Held(r, prop.block, prop.parts);
        } else {
          prop := prop.(block := None);
        }
        if prop.parts != Some(id.parts) {
          prop := prop.(parts := Some(id.parts));
        }
      }
    }

    method AddedPrecommit(env: Env, r: int, ghost q: Quorums, ghost log: seq<Vote>)
      modifies this
      ensures Value() == AfterPrecommit(old(Value()), env, r)
      ensures !old(thrown) && Context(q, log, old(Value())) ==> Handled(q, log, old(Value()), Value(), env.nextVals)
    {
      hide RespectsLock, LocksToPrecommit, StoresMajority, Later, SignsForward, OnlyWaits, Handled;
      if !thrown && Context(q, log, Value()) {
        PrecommitHandled(q, log, Value(), env, r);
      }
      hide Spec.EnterCommit, Spec.EnterPrecommitWait, Spec.EnterNewRound, Spec.EnterPrecommit;
      var maj := votes.Majority(Precommit, r);
      var h := height;
      if maj.Some? {
        EnterNewRound(env, h, r);
        EnterPrecommit(env, h, r);
        HeightKept(old(Value()), env, h, r);
        HeightKept(Spec.EnterNewRound(old(Value()), env, h, r), env, h, r);
        if maj.value.hash != NIL {
          EnterCommit(env, h, r);
          if env.hasAll {
            EnterNewRound(env, height, 0);
          }
        } else {
          EnterPrecommitWait(h, r);
        }
      } else if round <= r && votes.TwoThirdsAny(Precommit, r) {
        EnterNewRound(env, h, r);
        EnterPrecommitWait(h, r);
      }
    }

    /**
     One message or timeout. Whatever log of votes and quorums the invariant holds for, it is kept or the height is
     finished, the votes cast obey the rules, a lock is kept or overruled, and only a decided block is stored.
     */
    method Handle(env: Env, e: Event, ghost q: Quorums, ghost log: seq<Vote>)
      modifies this
      ensures Value() == Spec.Handle(old(Value()), env, e)
      ensures Context(q, log, Absorbed(old(Value()), e)) && (e.TimeoutFired? ==> e.timeout in old(timeouts)) ==>
                Handled(q, log, Absorbed(old(Value()), e), Value(), env.nextVals)
    {
      hide Spec.EnterNewRound, Spec.HandleTimeout, Spec.SetProposal, Spec.AddBlockPart, Spec.AddVote;
      hide Context, Handled, Absorbed, RespectsLock, LocksToPrecommit, StoresMajority, Later, SignsForward, OnlyWaits, TakesProposal;
      if Context(q, log, Absorbed(Value(), e)) && (e.TimeoutFired? ==> e.timeout in timeouts) {
        EventHandled(q, log, Value(), env, e);
      }
      cast, thrown := [], false;
      match e
      case Start => EnterNewRound(env, height, round);
      case TimeoutFired(t) => HandleTimeout(env, t, q, log);
      case ProposalReceived(h, r, pol, parts, ok) => SetProposal(h, r, pol, parts, ok);
      case PartReceived(h, b) => AddProposalBlockPart(env, h, b, q, log);
      case VoteReceived(v, peer) => AddVote(env, v, peer, q, log);
      case PeerMajority(k, r, id) => votes := votes.Track(k, r, id);
    }
  }
}
