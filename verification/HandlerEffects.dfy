/** What a caller can rely on from the single steps and handlers of a validator. */
module HandlerEffects {
  import opened Options
  import opened VoteLog
  import opened VoteSets
  import opened RoundSteps
  import opened RoundInvariant
  import opened RoundPreservation

  /** The signer never goes back, and what it signs is cast. */
  predicate SignsForward(s: State, s': State) {
    && (s.signed.Some? ==> s'.signed.Some? && (Earlier(s.signed.value, s'.signed.value) || s'.signed == s.signed))
    && (s'.cast != s.cast ==> s'.signed.Some? && s'.cast == s.cast + [s'.signed.value])
    && (s'.signed != s.signed ==> s'.cast != s.cast)
  }

  /** At most one vote is cast, a prevote, and for the locked block if there is one; the lock stays. */
  predicate RespectsLock(s: State, s': State) {
    && s'.lock == s.lock && s'.stored == s.stored && s'.chain == s.chain
    && (s'.cast != s.cast ==>
          && s'.signed.Some? && s'.cast == s.cast + [s'.signed.value] && s'.signed.value.kind == Prevote
          && (s.lock.block.Some? ==> s'.signed.value.id.hash == s.lock.block.value))
  }

  /** A block is precommitted only with a polka of the round and under a lock of the round; the lock moves only with a polka. */
  predicate LocksToPrecommit(s: State, s': State, round: int) {
    var maj := s.votes.Majority(Prevote, round);
    && (s'.lock != s.lock ==> maj.Some?) && s'.stored == s.stored && s'.chain == s.chain
    && (s'.cast != s.cast ==>
          && s'.signed.Some? && s'.cast == s.cast + [s'.signed.value] && s'.signed.value.kind == Precommit
          && (s'.signed.value.id.hash != NIL ==>
                maj == Some(s'.signed.value.id) && s'.lock.block == Some(maj.value.hash) && s'.lock.round == round))
  }

  /** A stored block is never replaced; one may be added at the height, with a precommit majority of the commit round, and applied. */
  predicate StoresMajority(s: State, s': State) {
    var maj := s.votes.Majority(Precommit, s.commitRound);
    && s'.cast == s.cast && s'.signed == s.signed
    && (s'.stored != s.stored ==>
          maj.Some? && maj.value.hash != NIL && s.height !in s.stored && s'.stored == s.stored[s.height := maj.value.hash])
    && (s'.chain != s.chain ==>
          maj.Some? && maj.value.hash != NIL && s.height in s'.stored && s'.chain == s.chain + [maj.value.hash])
  }

  /** The step changes the timeouts and flags only. */
  predicate OnlyWaits(s: State, s': State) {
    s' == s.(timeouts := s'.timeouts, triggeredTimeoutPrecommit := s'.triggeredTimeoutPrecommit, thrown := s'.thrown)
  }

  /** A new height starts without proposal, lock, valid block or majority, and with the memory of the signer and the stored blocks. */
  ghost predicate StartsHeight(s: State, s': State) {
    && s'.height == s.height + 1 && s'.lock == NOTHING_HELD && s'.valid == NOTHING_HELD && s'.prop == NOTHING_PROPOSED
    && (forall k, r :: s'.votes.Majority(k, r).None? && !s'.votes.TwoThirdsAny(k, r))
    && s'.signed == s.signed && s'.stored == s.stored && s'.cast == s.cast && s.chain <= s'.chain
  }

  /** The first proposal of a round stays, and its proof-of-lock round is an earlier one. */
  predicate TakesProposal(s: State, s': State) {
    && s' == s.(prop := s'.prop) && s'.prop.block == s.prop.block
    && (s.prop.pol.Some? ==> s'.prop == s.prop)
    && (s.prop.parts.Some? ==> s'.prop.parts == s.prop.parts)
    && (s'.prop != s.prop ==> s'.prop.pol.Some? && -1 <= s'.prop.pol.value && (s'.prop.pol.value >= 0 ==> s'.prop.pol.value < s.round))
  }

  lemma SignerForward(s: State, env: Env, k: Kind, id: BlockId)
    ensures SignsForward(s, SignAddVote(s, env, k, id))
  {
  }

  lemma PrevoteEffect(s: State, env: Env, height: nat, round: int)
    ensures RespectsLock(s, EnterPrevote(s, env, height, round))
  {
  }

  lemma ProposeEffect(s: State, env: Env, height: nat, round: int)
    ensures RespectsLock(s, EnterPropose(s, env, height, round))
  {
    hide ProposalComplete, EnterPrevote;
    var s1 := Schedule(s, round, ProposeStep).(round := round, step := ProposeStep);
    PrevoteEffect(s1, env, height, round);
  }

  lemma NewRoundEffect(s: State, env: Env, height: nat, round: int)
    ensures RespectsLock(s, EnterNewRound(s, env, height, round))
  {
    hide EnterPropose, HeightVotes.Enter, HeightVotes.MayEnter;
    ProposeEffect(StartRound(s, round), env, height, round);
  }

  lemma PrecommitEffect(s: State, env: Env, height: nat, round: int)
    ensures LocksToPrecommit(s, EnterPrecommit(s, env, height, round), round)
  {
    hide HeightVotes.PolRound;
  }

  lemma FinalizeEffect(s: State, env: Env, id: BlockId)
    requires s.votes.Majority(Precommit, s.commitRound) == Some(id) && id.hash != NIL
    ensures StoresMajority(s, FinalizeCommit(s, env, id))
  {
    hide NewHeightVotes;
  }

  lemma TryFinalizeEffect(s: State, env: Env, height: nat)
    ensures StoresMajority(s, TryFinalizeCommit(s, env, height))
  {
    hide FinalizeCommit;
    var maj := s.votes.Majority(Precommit, s.commitRound);
    if maj.Some? && maj.value.hash != NIL {
      FinalizeEffect(s, env, maj.value);
    }
  }

  lemma NewHeightEffect(s: State, vals: ValidatorSet, hash: Hash)
    ensures StartsHeight(s, UpdateToState(s, vals, hash))
  {
  }

  lemma ReceivedKeeps(s: State, block: Option<Hash>)
    ensures var s' := Received(s, block); s'.step == s.step && s'.round == s.round && s'.votes == s.votes
  {
  }

  lemma ProposalEffect(s: State, h: nat, r: int, pol: int, parts: Parts, ok: bool)
    ensures TakesProposal(s, SetProposal(s, h, r, pol, parts, ok))
  {
  }

  /** What a whole handler means under the invariant: it is kept or the height is finished, and the votes cast obey the rules. */
  ghost predicate Handled(q: Quorums, log: seq<Vote>, s: State, s': State, vals: ValidatorSet) {
    && StepOk(q, log, s, s', vals)
    && CastOk(q, log, log + s'.cast, s.me, s.height)
    && (s'.height == s.height && s'.commitRound < 0 && s.lock.block.Some? ==>
          || Overruled(q, s.lock.round, s.lock.block.value)
          || (s'.lock.block == s.lock.block && s'.lock.round >= s.lock.round))
    && (s.height !in s.stored && s.height in s'.stored ==> Decided(q, s'.stored[s.height]))
  }

  lemma StepHandled(q: Quorums, log: seq<Vote>, s: State, s': State, vals: ValidatorSet)
    requires StepOk(q, log, s, s', vals)
    ensures Handled(q, log, s, s', vals)
  {
  }

  lemma PartHandled(q: Quorums, log: seq<Vote>, s: State, env: Env, height: nat, block: Option<Hash>)
    requires Context(q, log, s)
    ensures Handled(q, log, s, AddBlockPart(s, env, height, block), env.nextVals)
  {
    hide StepOk, AddBlockPart, Handled;
    BlockPartKeeps(q, log, s, env, height, block);
    StepHandled(q, log, s, AddBlockPart(s, env, height, block), env.nextVals);
  }

  lemma TimeoutHandled(q: Quorums, log: seq<Vote>, s: State, env: Env, t: Timeout)
    requires Context(q, log, s) && t in s.timeouts
    ensures Handled(q, log, s, HandleTimeout(s, env, t), env.nextVals)
  {
    hide Inv, Progress, HandleTimeout, Handled;
    TimeoutKeeps(q, log, s, env, t);
    StepHandled(q, log, s, HandleTimeout(s, env, t), env.nextVals);
  }

  lemma PrevoteHandled(q: Quorums, log: seq<Vote>, s: State, env: Env, round: int)
    requires Context(q, log, s) && !s.thrown
    ensures Handled(q, log, s, AfterPrevote(s, env, round), env.nextVals)
  {
    hide Inv, Progress, AfterPrevote, Handled;
    AfterPrevoteKeeps(q, log, s, env, round);
    StepHandled(q, log, s, AfterPrevote(s, env, round), env.nextVals);
  }

  lemma PrecommitHandled(q: Quorums, log: seq<Vote>, s: State, env: Env, round: int)
    requires Context(q, log, s) && !s.thrown
    ensures Handled(q, log, s, AfterPrecommit(s, env, round), env.nextVals)
  {
    hide StepOk, AfterPrecommit, Handled;
    AfterPrecommitKeeps(q, log, s, env, round);
    StepHandled(q, log, s, AfterPrecommit(s, env, round), env.nextVals);
  }

  lemma EventHandled(q: Quorums, log: seq<Vote>, s: State, env: Env, e: Event)
    requires Context(q, log, Absorbed(s, e)) && (e.TimeoutFired? ==> e.timeout in s.timeouts)
    ensures Handled(q, log, Absorbed(s, e), Handle(s, env, e), env.nextVals)
  {
    hide StepOk, Handle, Handled, Absorbed;
    HandleKeeps(q, log, s, env, e);
    StepHandled(q, log, Absorbed(s, e), Handle(s, env, e), env.nextVals);
  }

  lemma VoteHandled(q: Quorums, log: seq<Vote>, s: State, env: Env, v: Vote, peer: Peer)
    requires !s.thrown && s.cast == [] && Context(q, log, Absorbed(s, VoteReceived(v, peer)))
    ensures Handled(q, log, Absorbed(s, VoteReceived(v, peer)), AddVote(s, env, v, peer), env.nextVals)
  {
    hide Handled, Absorbed, AddVote, Context;
    assert s.(cast := [], thrown := false) == s;
    EventHandled(q, log, s, env, VoteReceived(v, peer));
  }
}
