/** Every step and every handler keeps the invariant of a correct validator. */
module RoundPreservation {
  import opened Options
  import opened VoteLog
  import opened VoteSets
  import opened RoundSteps
  import opened RoundInvariant

  /** Moving on in round and step keeps what was reached. */
  lemma PositionKept(q: Quorums, log: seq<Vote>, s: State, s': State)
    requires Inv(q, log, s) && NotEarlier(s, s')
    requires s'.me == s.me && s'.height == s.height && s'.commitRound == s.commitRound && !s'.askedTwice
    requires s'.step != CommitStep && (s'.round == s.round ==> s.step != CommitStep)
    requires s'.lock.block.Some? ==>
               s'.lock == s.lock || Reached(s', s'.lock.round, 6)
    requires s'.cast == s.cast
             || (|s'.cast| > 0 && s'.cast[..|s'.cast| - 1] == s.cast
                 && var v := s'.cast[|s'.cast| - 1]; Reached(s', v.round, if v.kind == Prevote then 4 else 6))
    requires s.commitRound < 0 ==> forall t :: t in s'.timeouts - s.timeouts ==> t.round <= s'.round
    requires Core(q, log, s')
    ensures Inv(q, log, s')
  {
    if s'.commitRound < 0 {
      var all, all' := log + s.cast, log + s'.cast;
      forall j | 0 <= j < |all'| && all'[j].voter == s.me && all'[j].height == s.height
        ensures Reached(s', all'[j].round, if all'[j].kind == Prevote then 4 else 6)
      {
        if j < |all| {
          assert all'[j] == all[j];
          assert IsVote(all, j, s.me, all[j].kind, s.height);
        }
      }
    }
  }

  /** The core of the invariant looks at few fields. */
  lemma CoreSame(q: Quorums, log: seq<Vote>, s: State, s': State)
    requires Core(q, log, s)
    requires s'.me == s.me && s'.height == s.height && SameSets(s.votes, s'.votes) && s'.signed == s.signed && s'.cast == s.cast
    requires s'.lock == s.lock
    requires s'.stored == s.stored && s'.chain == s.chain
    requires forall t :: t in s'.timeouts - s.timeouts ==> t.height == s.height
    ensures Core(q, log, s')
  {
    assert forall k, r :: s.votes.Majority(k, r) == s'.votes.Majority(k, r) by {
      assert forall k, r :: s.votes.Get(k, r) == s'.votes.Get(k, r);
    }
    forall t | t in s'.timeouts ensures t.height <= s'.height {
      assert t in s.timeouts || t in s'.timeouts - s.timeouts;
    }
  }

  lemma PrevoteKeeps(q: Quorums, log: seq<Vote>, s: State, env: Env, height: nat, round: int)
    requires Inv(q, log, s)
    requires s.commitRound < 0 ==> round <= s.round
    ensures Inv(q, log, EnterPrevote(s, env, height, round))
    ensures Progress(q, s, EnterPrevote(s, env, height, round))
  {
    var s' := EnterPrevote(s, env, height, round);
    if s' != s {
      var s1 := SignAddVote(s, env, Prevote, PrevoteId(s));
      CastKeepsCore(q, log, s, env, Prevote, PrevoteId(s));
      NotAskedTwice(q, log, s, env, Prevote, PrevoteId(s), s.lock, s.prop);
      assert s == s.(lock := s.lock, prop := s.prop);
      hide Core, SignerOk;
      CoreSame(q, log, s1, s');
      PositionKept(q, log, s, s');
    }
  }

  lemma RenewedLockGuards(q: Quorums, log: seq<Vote>, s: State, round: int, u: Hash)
    requires Context(q, log, s) && MayPrecommit(s, round)
    requires s.lock.block == Some(u) && Cert(round, u) in q.polkas
    ensures PrecommitsGuarded(q, log + s.cast, s.me, s.height, s.lock.(round := round))
    ensures s.commitRound < 0 ==> s.lock.round <= round
  {
    var all := log + s.cast;
    if s.commitRound >= 0 {
      PolkaAfterCommit(q, log, s, round, u);
      assert SettledBy(q, round, u);
    }
    forall j | IsBlockPrecommit(all, j, s.me, s.height)
      ensures Guarded(q, s.lock.(round := round), all[j])
    {
      assert Guarded(q, s.lock, all[j]);
      if s.commitRound < 0 {
        assert Reached(s, all[j].round, 6);
      }
    }
  }

  /** The lock after a polka is guarded, has its polka, and was kept or overruled. */
  lemma RelockKeeps(q: Quorums, log: seq<Vote>, s: State, round: int)
    requires Context(q, log, s) && MayPrecommit(s, round)
    ensures var lock := Relock(s, round, s.votes.Majority(Prevote, round));
            && PrecommitsGuarded(q, log + s.cast, s.me, s.height, lock)
            && LockHasPolka(q, lock)
            && (s.lock.block.Some? && s.commitRound < 0 ==>
                  || Overruled(q, s.lock.round, s.lock.block.value)
                  || (lock.block == s.lock.block && lock.round >= s.lock.round))
  {
    var maj := s.votes.Majority(Prevote, round);
    if maj.Some? {
      var u := maj.value.hash;
      assert Cert(round, u) in q.polkas;
      if s.lock.block == Some(u) {
        RenewedLockGuards(q, log, s, round, u);
      } else {
        if s.lock.block.Some? {
          PolkaAfterLock(q, log, s, round, u);
        }
        LockOverruled(q, log, s, round, u, Relock(s, round, maj));
      }
    }
  }

  /** The precommit cast on a polka is backed by it and guarded by the lock just taken. */
  lemma PrecommitObeysRules(q: Quorums, log: seq<Vote>, s: State, round: int)
    requires Context(q, log, s) && MayPrecommit(s, round)
    requires s.commitRound < 0 ==> round <= s.round
    ensures var maj := s.votes.Majority(Prevote, round);
            var v := Vote(s.me, Precommit, s.height, s.round, PrecommitId(s, maj));
            v.id.hash != NIL ==> Backed(q, v) && Guarded(q, Relock(s, round, maj), v)
  {
    var maj := s.votes.Majority(Prevote, round);
    var u := PrecommitId(s, maj).hash;
    if u != NIL {
      assert Cert(round, u) in q.polkas;
      if s.commitRound >= 0 {
        PolkaAfterCommit(q, log, s, round, u);
        assert SettledBy(q, s.round, u);
      }
    }
  }

  lemma DoPrecommitCore(q: Quorums, log: seq<Vote>, s: State, env: Env, round: int)
    requires Context(q, log, s) && MayPrecommit(s, round)
    requires s.commitRound < 0 ==> round <= s.round
    ensures Core(q, log, DoPrecommit(s, env, round))
  {
    var maj := s.votes.Majority(Prevote, round);
    if maj.Some? && s.votes.PolRound(s.votes.round) < round {
      CoreSame(q, log, s, Throw(s));
    } else {
      var s1 := s.(lock := Relock(s, round, maj), prop := Refetch(s, maj));
      RelockKeeps(q, log, s, round);
      PrecommitObeysRules(q, log, s, round);
      CastKeepsCore(q, log, s1, env, Precommit, PrecommitId(s, maj));
    }
  }

  /** How DoPrecommit changes the state. */
  lemma DoPrecommitShape(s: State, env: Env, round: int)
    ensures var s1 := DoPrecommit(s, env, round);
            && s1.me == s.me && s1.height == s.height && s1.chain == s.chain && s1.votes == s.votes
            && s1.commitRound == s.commitRound && s1.timeouts == s.timeouts
            && (s1.lock == s.lock || s1.lock == Relock(s, round, s.votes.Majority(Prevote, round)))
            && (s1.cast == s.cast ||
                exists id :: s1.cast == s.cast + [Vote(s.me, Precommit, s.height, s.round, id)])
  {
  }

  lemma DoPrecommitAsksOnce(q: Quorums, log: seq<Vote>, s: State, env: Env, round: int)
    requires Inv(q, log, s) && MayPrecommit(s, round)
    requires s.commitRound < 0 ==> round <= s.round
    ensures !DoPrecommit(s, env, round).askedTwice
  {
    var maj := s.votes.Majority(Prevote, round);
    NotAskedTwice(q, log, s, env, Precommit, PrecommitId(s, maj), Relock(s, round, maj), Refetch(s, maj));
  }

  lemma PrecommitProgress(q: Quorums, log: seq<Vote>, s: State, env: Env, height: nat, round: int)
    requires Context(q, log, s)
    ensures Progress(q, s, EnterPrecommit(s, env, height, round))
  {
    if EnterPrecommit(s, env, height, round) != s {
      RelockKeeps(q, log, s, round);
      DoPrecommitShape(s, env, round);
    }
  }

  lemma PrecommitKeeps(q: Quorums, log: seq<Vote>, s: State, env: Env, height: nat, round: int)
    requires Context(q, log, s)
    requires s.commitRound < 0 ==> round <= s.round
    ensures Inv(q, log, EnterPrecommit(s, env, height, round))
  {
    var s' := EnterPrecommit(s, env, height, round);
    if s' != s {
      DoPrecommitCore(q, log, s, env, round);
      DoPrecommitShape(s, env, round);
      DoPrecommitAsksOnce(q, log, s, env, round);
      hide Core, DoPrecommit;
      CoreSame(q, log, DoPrecommit(s, env, round), s');
      PositionKept(q, log, s, s');
    }
  }

  lemma ProposeKeeps(q: Quorums, log: seq<Vote>, s: State, env: Env, height: nat, round: int)
    requires Inv(q, log, s)
    ensures Inv(q, log, EnterPropose(s, env, height, round))
    ensures Progress(q, s, EnterPropose(s, env, height, round))
  {
    if EnterPropose(s, env, height, round) != s {
      var s1 := Schedule(s, round, ProposeStep).(round := round, step := ProposeStep);
      CoreSame(q, log, s, s1);
      PositionKept(q, log, s, s1);
      if ProposalComplete(s1) {
        PrevoteKeeps(q, log, s1, env, height, round);
        ProgressTransitive(q, s, s1, EnterPrevote(s1, env, height, round));
      }
    }
  }

  lemma SameSetsReflexive(hv: HeightVotes)
    ensures SameSets(hv, hv)
  {
  }

  lemma EnterSameSets(hv: HeightVotes, r: int)
    ensures SameSets(hv, hv.Enter(r))
  {
  }

  lemma StartRoundKeeps(q: Quorums, log: seq<Vote>, s: State, round: int)
    requires Inv(q, log, s)
    requires s.round < round || (s.round == round && s.step == NewHeight)
    ensures Inv(q, log, StartRound(s, round)) && Progress(q, s, StartRound(s, round))
  {
    hide Core, BeforeCommit, AfterCommit, SameSets;
    var s' := StartRound(s, round);
    EnterSameSets(s.votes, round + 1);
    SameSetsReflexive(s.votes);
    CoreSame(q, log, s, s');
    PositionKept(q, log, s, s');
  }

  lemma NewRoundKeeps(q: Quorums, log: seq<Vote>, s: State, env: Env, height: nat, round: int)
    requires Inv(q, log, s)
    ensures Inv(q, log, EnterNewRound(s, env, height, round))
    ensures Progress(q, s, EnterNewRound(s, env, height, round))
    ensures !s.thrown && s.height == height ==> round <= EnterNewRound(s, env, height, round).round
  {
    var s' := EnterNewRound(s, env, height, round);
    if s' != s {
      var s1 := StartRound(s, round);
      StartRoundKeeps(q, log, s, round);
      ProposeKeeps(q, log, s1, env, height, round);
      ProgressTransitive(q, s, s1, s');
    }
  }

  lemma ProgressReflexive(q: Quorums, s: State)
    ensures Progress(q, s, s)
  {
  }

  /** Only proposal and valid block change. */
  lemma ProposalKeeps(q: Quorums, log: seq<Vote>, s: State, prop: Proposed, valid: Held)
    requires Inv(q, log, s)
    ensures Inv(q, log, s.(prop := prop, valid := valid)) && Progress(q, s, s.(prop := prop, valid := valid))
  {
    CoreSame(q, log, s, s.(prop := prop, valid := valid));
  }

  lemma ThrowKeeps(q: Quorums, log: seq<Vote>, s: State)
    requires Inv(q, log, s)
    ensures Inv(q, log, Throw(s)) && Progress(q, s, Throw(s))
  {
    CoreSame(q, log, s, Throw(s));
  }

  lemma PrevoteWaitKeeps(q: Quorums, log: seq<Vote>, s: State, height: nat, round: int)
    requires Inv(q, log, s)
    ensures Inv(q, log, EnterPrevoteWait(s, height, round))
    ensures Progress(q, s, EnterPrevoteWait(s, height, round))
  {
    var s' := EnterPrevoteWait(s, height, round);
    if s' == Throw(s) {
      ThrowKeeps(q, log, s);
    } else if s' != s {
      CoreSame(q, log, s, s');
      PositionKept(q, log, s, s');
    }
  }

  lemma PrecommitWaitKeeps(q: Quorums, log: seq<Vote>, s: State, height: nat, round: int)
    requires Inv(q, log, s)
    requires s.commitRound < 0 ==> round <= s.round
    ensures Inv(q, log, EnterPrecommitWait(s, height, round))
    ensures Progress(q, s, EnterPrecommitWait(s, height, round))
  {
    var s' := EnterPrecommitWait(s, height, round);
    if s' == Throw(s) {
      ThrowKeeps(q, log, s);
    } else if s' != s {
      CoreSame(q, log, s, s');
    }
  }

  // ---- Commit ----

  /** One call that may finalize: either the height goes on, or the block is applied. */
  ghost predicate StepOk(q: Quorums, log: seq<Vote>, s: State, s': State, vals: ValidatorSet) {
    (Inv(q, log, s') && Progress(q, s, s')) || Finalized(q, log, s, s', vals)
  }

  lemma StoreKeeps(q: Quorums, log: seq<Vote>, s: State, hash: Hash)
    requires Inv(q, log, s) && Decided(q, hash)
    ensures Inv(q, log, s.(stored := s.stored[s.height := hash]))
    ensures Progress(q, s, s.(stored := s.stored[s.height := hash]))
  {
  }

  lemma ApplyFinalizes(q: Quorums, log: seq<Vote>, s: State, vals: ValidatorSet, hash: Hash)
    requires Inv(q, log, s) && Decided(q, hash) && s.height in s.stored && s.stored[s.height] == hash
    ensures Finalized(q, log, s, UpdateToState(s, vals, hash), vals)
  {
  }

  lemma FinalizeKeeps(q: Quorums, log: seq<Vote>, s: State, env: Env, id: BlockId)
    requires Context(q, log, s) && s.commitRound >= 0
    requires Cert(s.commitRound, id.hash) in q.commits && id.hash != NIL
    ensures StepOk(q, log, s, FinalizeCommit(s, env, id), env.nextVals)
  {
    var s' := FinalizeCommit(s, env, id);
    assert Decided(q, id.hash);
    assert s.height in s.stored ==> s.stored[s.height] == id.hash;
    hide Inv, Progress, Finalized, UpdateToState;
    ProgressReflexive(q, s);
    if s.step == CommitStep && s.prop.parts == Some(id.parts) && env.blockValid {
      var s1 := if s.height in s.stored then s else s.(stored := s.stored[s.height := id.hash]);
      StoreKeeps(q, log, s, id.hash);
      if env.applied {
        ApplyFinalizes(q, log, s1, env.nextVals, id.hash);
        StepAfterProgress(q, log, s, s1, s', env.nextVals);
      }
    } else if s.step == CommitStep {
      ThrowKeeps(q, log, s);
    }
  }

  lemma TryFinalizeKeeps(q: Quorums, log: seq<Vote>, s: State, env: Env, height: nat)
    requires Context(q, log, s) && s.commitRound >= 0
    ensures StepOk(q, log, s, TryFinalizeCommit(s, env, height), env.nextVals)
  {
    var maj := s.votes.Majority(Precommit, s.commitRound);
    if s.height != height {
      ThrowKeeps(q, log, s);
    } else if maj.Some? && maj.value.hash != NIL && HashesTo(s.prop.block, maj.value.hash) {
      FinalizeKeeps(q, log, s, env, maj.value);
    }
  }

  /** Entering Commit, before the attempt to finalize. */
  lemma CommitMoveKeeps(q: Quorums, log: seq<Vote>, s: State, round: int, id: BlockId)
    requires Context(q, log, s) && Cert(round, id.hash) in q.commits && id.hash != NIL
    ensures var s1 := s.(prop := FetchCommitted(s, id), round := round, step := CommitStep, commitRound := round);
            Inv(q, log, s1) && Progress(q, s, s1) && s1.commitRound >= 0
  {
    var s1 := s.(prop := FetchCommitted(s, id), round := round, step := CommitStep, commitRound := round);
    CoreSame(q, log, s, s1);
  }

  lemma CommitKeeps(q: Quorums, log: seq<Vote>, s: State, env: Env, height: nat, round: int)
    requires Context(q, log, s)
    requires s.votes.Majority(Precommit, round).Some? && s.votes.Majority(Precommit, round).value.hash != NIL
    ensures StepOk(q, log, s, EnterCommit(s, env, height, round), env.nextVals)
  {
    if EnterCommit(s, env, height, round) != s {
      var id := s.votes.Majority(Precommit, round).value;
      var s1 := s.(prop := FetchCommitted(s, id), round := round, step := CommitStep, commitRound := round);
      CommitMoveKeeps(q, log, s, round, id);
      TryFinalizeKeeps(q, log, s1, env, height);
      StepAfterProgress(q, log, s, s1, TryFinalizeCommit(s1, env, height), env.nextVals);
    }
  }

  lemma StepAfterProgress(q: Quorums, log: seq<Vote>, s: State, s1: State, s': State, vals: ValidatorSet)
    requires Progress(q, s, s1) && StepOk(q, log, s1, s', vals)
    ensures StepOk(q, log, s, s', vals)
  {
    if Inv(q, log, s') && Progress(q, s1, s') {
      ProgressTransitive(q, s, s1, s');
    }
  }

  // ---- Handlers ----

  lemma FinalizedNewRound(q: Quorums, log: seq<Vote>, s: State, s': State, env: Env)
    requires Finalized(q, log, s, s', env.nextVals)
    ensures Finalized(q, log, s, EnterNewRound(s', env, s'.height, 0), env.nextVals)
  {
    if s'.step == NewHeight && !s'.thrown {
      EnterSameSets(s'.votes, 1);
    }
  }

  lemma CommitOrWaitKeeps(q: Quorums, log: seq<Vote>, s: State, env: Env, id: BlockId, round: int)
    requires Context(q, log, s) && s.votes.Majority(Precommit, round) == Some(id)
    requires s.commitRound < 0 ==> round <= s.round
    ensures StepOk(q, log, s, CommitOrWait(s, env, id, round), env.nextVals)
  {
    if id.hash == NIL {
      PrecommitWaitKeeps(q, log, s, s.height, round);
    } else {
      var s1 := EnterCommit(s, env, s.height, round);
      CommitKeeps(q, log, s, env, s.height, round);
      if Finalized(q, log, s, s1, env.nextVals) {
        FinalizedNewRound(q, log, s, s1, env);
      } else {
        NewRoundKeeps(q, log, s1, env, s1.height, 0);
        ProgressTransitive(q, s, s1, EnterNewRound(s1, env, s1.height, 0));
      }
    }
  }

  lemma AfterPrecommitKeeps(q: Quorums, log: seq<Vote>, s: State, env: Env, round: int)
    requires Context(q, log, s) && !s.thrown
    ensures StepOk(q, log, s, AfterPrecommit(s, env, round), env.nextVals)
  {
    var maj := s.votes.Majority(Precommit, round);
    var s1 := EnterNewRound(s, env, s.height, round);
    NewRoundKeeps(q, log, s, env, s.height, round);
    if maj.Some? {
      var s2 := EnterPrecommit(s1, env, s.height, round);
      if s1.thrown {
        assert s2 == s1;
      } else {
        PrecommitKeeps(q, log, s1, env, s.height, round);
        PrecommitProgress(q, log, s1, env, s.height, round);
      }
      ProgressTransitive(q, s, s1, s2);
      assert s2.votes.Get(Precommit, round) == s.votes.Get(Precommit, round);
      CommitOrWaitKeeps(q, log, s2, env, maj.value, round);
      StepAfterProgress(q, log, s, s2, AfterPrecommit(s, env, round), env.nextVals);
    } else if s.round <= round && s.votes.TwoThirdsAny(Precommit, round) {
      PrecommitWaitKeeps(q, log, s1, s.height, round);
      ProgressTransitive(q, s, s1, EnterPrecommitWait(s1, s.height, round));
    }
  }

  lemma ReleaseLockKeeps(q: Quorums, log: seq<Vote>, s: State, id: BlockId, round: int)
    requires Context(q, log, s) && Cert(round, id.hash) in q.polkas
    ensures Inv(q, log, ReleaseLock(s, id, round)) && Progress(q, s, ReleaseLock(s, id, round))
  {
    if ReleaseLock(s, id, round) != s {
      LockOverruled(q, log, s, round, id.hash, NOTHING_HELD);
    }
  }

  lemma UpdateValidKeeps(q: Quorums, log: seq<Vote>, s: State, id: BlockId, round: int)
    requires Inv(q, log, s)
    ensures Inv(q, log, UpdateValid(s, id, round)) && Progress(q, s, UpdateValid(s, id, round))
  {
    hide Inv, Progress;
    var s' := UpdateValid(s, id, round);
    ProposalKeeps(q, log, s, s'.prop, s'.valid);
    assert s' == s.(prop := s'.prop, valid := s'.valid);
  }

  lemma PrevoteMoveKeeps(q: Quorums, log: seq<Vote>, s: State, env: Env, maj: Option<BlockId>, round: int)
    requires Context(q, log, s)
    ensures Inv(q, log, PrevoteMove(s, env, maj, round)) && Progress(q, s, PrevoteMove(s, env, maj, round))
  {
    hide Inv, Progress, EnterNewRound, EnterPrecommit, EnterPrevoteWait, EnterPrevote;
    ProgressReflexive(q, s);
    NewRoundKeeps(q, log, s, env, s.height, round);
    PrevoteKeeps(q, log, s, env, s.height, s.round);
    PrevoteWaitKeeps(q, log, s, s.height, round);
    if s.round == round {
      PrecommitKeeps(q, log, s, env, s.height, round);
      PrecommitProgress(q, log, s, env, s.height, round);
    }
  }

  lemma AfterPrevoteKeeps(q: Quorums, log: seq<Vote>, s: State, env: Env, round: int)
    requires Context(q, log, s)
    ensures Inv(q, log, AfterPrevote(s, env, round)) && Progress(q, s, AfterPrevote(s, env, round))
  {
    var maj := s.votes.Majority(Prevote, round);
    var s1 := Repolled(s, round);
    if maj.Some? {
      var s0 := ReleaseLock(s, maj.value, round);
      ReleaseLockKeeps(q, log, s, maj.value, round);
      UpdateValidKeeps(q, log, s0, maj.value, round);
      ProgressTransitive(q, s, s0, s1);
    }
    var s' := AfterPrevote(s, env, round);
    PrevoteMoveKeeps(q, log, s1, env, maj, round);
    ProgressTransitive(q, s, s1, s');
  }

  lemma CommitStepRound(q: Quorums, log: seq<Vote>, s: State)
    requires Inv(q, log, s) && s.step == CommitStep
    ensures s.commitRound >= 0
  {
  }

  lemma TimeoutRound(q: Quorums, log: seq<Vote>, s: State, t: Timeout)
    requires Inv(q, log, s) && t in s.timeouts && t.height == s.height
    ensures s.commitRound < 0 ==> t.round <= s.round
  {
  }

  lemma BlockPartKeeps(q: Quorums, log: seq<Vote>, s: State, env: Env, height: nat, block: Option<Hash>)
    requires Context(q, log, s)
    ensures StepOk(q, log, s, AddBlockPart(s, env, height, block), env.nextVals)
  {
    hide Inv, Progress, EnterPrevote, EnterPrecommit, TryFinalizeCommit, Finalized;
    var s' := AddBlockPart(s, env, height, block);
    ProgressReflexive(q, s);
    if s.height == height && s.prop.parts.Some? && block.Some? {
      var s2 := Received(s, block);
      ProposalKeeps(q, log, s, s2.prop, s2.valid);
      assert s2 == s.(prop := s2.prop, valid := s2.valid);
      if Rank(s2.step) <= 3 && ProposalComplete(s2) {
        var s3 := EnterPrevote(s2, env, height, s2.round);
        PrevoteKeeps(q, log, s2, env, height, s2.round);
        assert Context(q, log, s3);
        PrecommitKeeps(q, log, s3, env, height, s3.round);
        PrecommitProgress(q, log, s3, env, height, s3.round);
        ProgressTransitive(q, s, s2, s3);
        ProgressTransitive(q, s, s3, EnterPrecommit(s3, env, height, s3.round));
      } else if s2.step == CommitStep {
        CommitStepRound(q, log, s2);
        TryFinalizeKeeps(q, log, s2, env, height);
        StepAfterProgress(q, log, s, s2, s', env.nextVals);
      }
    }
  }

  lemma TimeoutKeeps(q: Quorums, log: seq<Vote>, s: State, env: Env, t: Timeout)
    requires Context(q, log, s) && t in s.timeouts
    ensures Inv(q, log, HandleTimeout(s, env, t)) && Progress(q, s, HandleTimeout(s, env, t))
  {
    hide Inv, Progress, EnterNewRound, EnterPropose, EnterPrevote, EnterPrecommit;
    ProgressReflexive(q, s);
    if t.height == s.height {
      TimeoutRound(q, log, s, t);
      match t.step
      case NewHeight => NewRoundKeeps(q, log, s, env, t.height, 0);
      case NewRound => ProposeKeeps(q, log, s, env, t.height, 0);
      case ProposeStep => PrevoteKeeps(q, log, s, env, t.height, t.round);
      case PrevoteWait =>
        PrecommitKeeps(q, log, s, env, t.height, t.round);
        PrecommitProgress(q, log, s, env, t.height, t.round);
      case PrecommitWait =>
        var s1 := EnterPrecommit(s, env, t.height, t.round);
        PrecommitKeeps(q, log, s, env, t.height, t.round);
        PrecommitProgress(q, log, s, env, t.height, t.round);
        NewRoundKeeps(q, log, s1, env, t.height, t.round + 1);
        ProgressTransitive(q, s, s1, EnterNewRound(s1, env, t.height, t.round + 1));
      case _ => ThrowKeeps(q, log, s);
    }
  }

  /** The state as the handler of `e` starts: outbox empty, the vote or claim received noted. */
  function Absorbed(s: State, e: Event): State {
    var s0 := s.(cast := [], thrown := false);
    match e
    case VoteReceived(v, peer) => if v.height == s.height then s0.(votes := s.votes.Add(v, peer).0) else s0
    case PeerMajority(k, r, id) => s0.(votes := s.votes.Track(k, r, id))
    case _ => s0
  }

  lemma SetProposalKeeps(q: Quorums, log: seq<Vote>, s: State, h: nat, r: int, pol: int, parts: Parts, ok: bool)
    requires Inv(q, log, s)
    ensures Inv(q, log, SetProposal(s, h, r, pol, parts, ok)) && Progress(q, s, SetProposal(s, h, r, pol, parts, ok))
  {
    hide Inv, Progress;
    var s' := SetProposal(s, h, r, pol, parts, ok);
    ProposalKeeps(q, log, s, s'.prop, s.valid);
    assert s' == s.(prop := s'.prop, valid := s.valid);
  }

  /** Every handler keeps the invariant of the height, or finishes the height. */
  lemma HandleKeeps(q: Quorums, log: seq<Vote>, s: State, env: Env, e: Event)
    requires Sound(q) && Inv(q, log, Absorbed(s, e))
    requires e.TimeoutFired? ==> e.timeout in s.timeouts
    ensures StepOk(q, log, Absorbed(s, e), Handle(s, env, e), env.nextVals)
  {
    hide Inv, Progress, Finalized, EnterNewRound, HandleTimeout, SetProposal, AddBlockPart, AfterPrevote, AfterPrecommit;
    var s0 := Absorbed(s, e);
    ProgressReflexive(q, s0);
    match e
    case Start => NewRoundKeeps(q, log, s0, env, s0.height, s0.round);
    case TimeoutFired(t) => TimeoutKeeps(q, log, s0, env, t);
    case ProposalReceived(h, r, pol, parts, ok) => SetProposalKeeps(q, log, s0, h, r, pol, parts, ok);
    case PartReceived(h, b) => BlockPartKeeps(q, log, s0, env, h, b);
    case VoteReceived(v, _) =>
      NewRoundKeeps(q, log, s0, env, s0.height, 0);
      AfterPrevoteKeeps(q, log, s0, env, v.round);
      AfterPrecommitKeeps(q, log, s0, env, v.round);
    case PeerMajority(_, _, _) =>
  }

  predicate Later(s: State, s': State) {
    s.round < s'.round || (s.round == s'.round && Rank(s.step) < Rank(s'.step))
  }

  lemma NewRoundRaises(s: State, env: Env, height: nat, round: int)
    ensures var s' := EnterNewRound(s, env, height, round); s' == s || Later(s, s')
  {
    hide DoPrecommit, SignAddVote, ProposalComplete;
  }

  lemma ProposeRaises(s: State, env: Env, height: nat, round: int)
    ensures var s' := EnterPropose(s, env, height, round); s' == s || Later(s, s')
  {
    hide DoPrecommit, SignAddVote, ProposalComplete;
  }

  lemma PrevoteRaises(s: State, env: Env, height: nat, round: int)
    ensures var s' := EnterPrevote(s, env, height, round); s' == s || Later(s, s')
    ensures var s' := EnterPrevoteWait(s, height, round); s' == s || s' == Throw(s) || Later(s, s')
  {
    hide DoPrecommit, SignAddVote, ProposalComplete;
  }

  lemma PrecommitRaises(s: State, env: Env, height: nat, round: int)
    ensures var s' := EnterPrecommit(s, env, height, round); s' == s || Later(s, s')
  {
    hide SignAddVote, ProposalComplete;
  }

  /** Every accepted step, Commit and the step-less PrecommitWait apart, raises round and step. */
  lemma AcceptedStepsRaise(s: State, env: Env, height: nat, round: int)
    ensures var s' := EnterNewRound(s, env, height, round); s' == s || Later(s, s')
    ensures var s' := EnterPropose(s, env, height, round); s' == s || Later(s, s')
    ensures var s' := EnterPrevote(s, env, height, round); s' == s || Later(s, s')
    ensures var s' := EnterPrevoteWait(s, height, round); s' == s || s' == Throw(s) || Later(s, s')
    ensures var s' := EnterPrecommit(s, env, height, round); s' == s || Later(s, s')
  {
    hide EnterNewRound, EnterPropose, EnterPrevote, EnterPrevoteWait, EnterPrecommit, Later;
    NewRoundRaises(s, env, height, round);
    ProposeRaises(s, env, height, round);
    PrevoteRaises(s, env, height, round);
    PrecommitRaises(s, env, height, round);
  }
}
