/**
 What a step or handler answers, told from the state before it: which vote is cast, what is locked afterwards, which
 round is reached, what is stored. Together the answers leave no field of the new state open.
 */
module StepAnswers {
  import opened Options
  import opened VoteLog
  import opened VoteSets
  import opened RoundSteps
  import opened RoundInvariant

  /** Step number `rank` of `round` is still to come. */
  predicate Due(s: State, height: nat, round: int, rank: nat) {
    !s.thrown && s.height == height && (s.round < round || (s.round == round && Rank(s.step) < rank))
  }

  /** The vote of the state's round is signed and cast, unless there is no signer or it has signed a later one. */
  predicate Casts(s: State, env: Env, s': State, k: Kind, id: BlockId) {
    var v := Vote(s.me, k, s.height, s.round, id);
    if env.canSign && (s.signed.None? || Earlier(s.signed.value, v) || s.signed.value == v)
    then s'.cast == s.cast + [v] && s'.signed == Some(v)
    else s'.cast == s.cast && s'.signed == s.signed
  }

  /** A proposal with its block, and with the polka it refers to. */
  predicate HasProposal(prop: Proposed, votes: HeightVotes) {
    prop.pol.Some? && prop.block.Some? && (0 <= prop.pol.value ==> votes.Majority(Prevote, prop.pol.value).Some?)
  }

  // ---- Prevote ----

  /** The locked block is prevoted, without a lock the proposal block, and without either nil. */
  predicate Prevotes(s: State, env: Env, s': State, round: int) {
    && s' == s.(round := round, step := PrevoteStep, cast := s'.cast, signed := s'.signed, askedTwice := s'.askedTwice)
    && match (s.lock.block, s.prop.block)
       case (Some(locked), _) => Casts(s, env, s', Prevote, BlockId(locked, Header(s.lock.parts)))
       case (None, Some(proposed)) => Casts(s, env, s', Prevote, BlockId(proposed, Header(s.prop.parts)))
       case (None, None) => Casts(s, env, s', Prevote, BlockId(NIL, 0))
  }

  lemma PrevoteAnswer(s: State, env: Env, height: nat, round: int)
    ensures var s' := EnterPrevote(s, env, height, round);
            if Due(s, height, round, 4) then Prevotes(s, env, s', round) else s' == s
  {
  }

  // ---- Precommit ----

  /**
   With a polka for a block that is locked or proposed, that block is precommitted and locked in this round. With a polka
   for another block nil is precommitted, the lock is given up and the block awaited. With a polka for nil the lock is
   given up, without a polka it stays, and nil is precommitted.
   */
  predicate PrecommitsFor(s: State, env: Env, s': State, round: int, maj: Option<BlockId>) {
    match maj
    case None => Casts(s, env, s', Precommit, BlockId(NIL, 0)) && s'.lock == s.lock && s'.prop == s.prop
    case Some(id) =>
      if id.hash == NIL then
        && Casts(s, env, s', Precommit, BlockId(NIL, 0)) && s'.prop == s.prop
        && s'.lock == if s.lock.block.Some? then NOTHING_HELD else s.lock
      else if s.lock.block == Some(id.hash) || s.prop.block == Some(id.hash) then
        && Casts(s, env, s', Precommit, id) && s'.prop == s.prop
        && s'.lock == Held(round, Some(id.hash), if s.lock.block == Some(id.hash) then s.lock.parts else s.prop.parts)
      else
        && Casts(s, env, s', Precommit, BlockId(NIL, 0)) && s'.lock == NOTHING_HELD
        && s'.prop == if s.prop.parts == Some(id.parts) then s.prop else Proposed(s.prop.pol, None, Some(id.parts))
  }

  /** A polka of a round whose vote sets were not entered is an error; round and step are set all the same. */
  predicate Precommits(s: State, env: Env, s': State, round: int) {
    var maj := s.votes.Majority(Prevote, round);
    && s' == s.(round := round, step := PrecommitStep, lock := s'.lock, prop := s'.prop, thrown := s'.thrown,
                cast := s'.cast, signed := s'.signed, askedTwice := s'.askedTwice)
    && (s'.thrown <==> maj.Some? && 0 <= round && s.votes.round < round)
    && if s'.thrown then s' == s.(round := round, step := PrecommitStep, thrown := true)
       else PrecommitsFor(s, env, s', round, maj)
  }

  /** pol_info finds the last polka. */
  lemma {:induction false} PolRoundIsLast(votes: HeightVotes, r: int)
    ensures var p := votes.PolRound(r);
            && (p == -1 || (0 <= p <= r && votes.Majority(Prevote, p).Some?))
            && forall q :: 0 <= q <= r && votes.Majority(Prevote, q).Some? ==> q <= p
    decreases r + 1
  {
    if r >= 0 && votes.Majority(Prevote, r).None? {
      PolRoundIsLast(votes, r - 1);
    }
  }

  lemma PrecommitAnswer(s: State, env: Env, height: nat, round: int)
    ensures var s' := EnterPrecommit(s, env, height, round);
            if Due(s, height, round, 6) then Precommits(s, env, s', round) else s' == s
  {
    PolRoundIsLast(s.votes, s.votes.round);
    hide HeightVotes.PolRound, PrecommitsFor, SignAddVote, Relock, Refetch, PrecommitId;
    DoPrecommitAnswer(s, env, round);
  }

  lemma DoPrecommitAnswer(s: State, env: Env, round: int)
    ensures var s' := DoPrecommit(s, env, round).(round := round, step := PrecommitStep);
            if s.votes.Majority(Prevote, round).Some? && s.votes.PolRound(s.votes.round) < round
            then s' == s.(round := round, step := PrecommitStep, thrown := true)
            else
              && PrecommitsFor(s, env, s', round, s.votes.Majority(Prevote, round))
              && s' == s.(round := round, step := PrecommitStep, lock := s'.lock, prop := s'.prop,
                          cast := s'.cast, signed := s'.signed, askedTwice := s'.askedTwice)
  {
    hide HeightVotes.PolRound, HeightVotes.Get;
  }

  /** Under the invariant and before Commit, a vote that is due is cast whenever there is a signer. */
  lemma DueVoteIsCast(q: Quorums, log: seq<Vote>, s: State, env: Env, s': State, k: Kind, id: BlockId)
    requires Inv(q, log, s) && s.commitRound < 0 && env.canSign && Casts(s, env, s', k, id)
    requires if k == Prevote then Rank(s.step) < 4 else Rank(s.step) < 6
    ensures s'.cast == s.cast + [Vote(s.me, k, s.height, s.round, id)]
  {
    SignerNeverRefuses(q, log, s, k, id);
  }

  // ---- Propose and new round ----

  /** The proposal is awaited until a timeout, and prevoted at once if it is complete. */
  predicate Proposes(s: State, env: Env, s': State, round: int) {
    var s1 := s.(round := round, step := ProposeStep, timeouts := s.timeouts + {Timeout(s.height, round, ProposeStep)});
    if HasProposal(s.prop, s.votes) then Prevotes(s1, env, s', round) else s' == s1
  }

  lemma ProposeAnswer(s: State, env: Env, height: nat, round: int)
    ensures var s' := EnterPropose(s, env, height, round);
            if Due(s, height, round, 3) then Proposes(s, env, s', round) else s' == s
  {
    hide EnterPrevote, Prevotes;
    PrevoteAnswer(Schedule(s, round, ProposeStep).(round := round, step := ProposeStep), env, height, round);
  }

  /** The vote sets up to the round after `round` are open; those that were open are as they were. */
  ghost predicate Opens(votes: HeightVotes, votes': HeightVotes, round: int) {
    && votes'.vals == votes.vals && votes'.catchups == votes.catchups && votes'.round == round + 1
    && (forall r :: r in votes'.sets <==> r in votes.sets || votes.round - 1 <= r <= round + 1)
    && (forall k, r :: votes'.Get(k, r) == votes.Get(k, r))
  }

  /** The round starts without a proposal, except round 0; going back by more than two rounds is an error. */
  ghost predicate StartsRound(s: State, env: Env, s': State, round: int) {
    && s'.round == round
    && (s'.thrown <==> s.votes.round != 0 && round + 1 < s.votes.round - 1)
    && var prop := if round == 0 then s.prop else NOTHING_PROPOSED;
       if s'.thrown then s' == s.(round := round, step := NewRound, prop := prop, thrown := true)
       else
         && Opens(s.votes, s'.votes, round)
         && Proposes(s.(round := round, step := NewRound, votes := s'.votes, triggeredTimeoutPrecommit := false,
                        prop := prop), env, s', round)
  }

  predicate Begins(s: State, height: nat, round: int) {
    !s.thrown && s.height == height && (s.round < round || (s.round == round && s.step == NewHeight))
  }

  lemma NewRoundAnswer(s: State, env: Env, height: nat, round: int)
    ensures var s' := EnterNewRound(s, env, height, round);
            if Begins(s, height, round) then StartsRound(s, env, s', round) else s' == s
  {
    hide EnterPropose, Proposes;
    var s1 := StartRound(s, round);
    ProposeAnswer(s1, env, height, round);
    if Begins(s, height, round) && !s1.thrown {
      ProposesKeeps(s1, env, EnterPropose(s1, env, height, round), round);
      EnterOpens(s.votes, round);
    }
  }

  lemma ProposesKeeps(s: State, env: Env, s': State, round: int)
    requires Proposes(s, env, s', round)
    ensures s'.votes == s.votes && s'.thrown == s.thrown && s'.round == round && (s'.step == ProposeStep || s'.step == PrevoteStep)
  {
  }

  lemma EnterOpens(votes: HeightVotes, round: int)
    ensures Opens(votes, votes.Enter(round + 1), round)
  {
  }

  // ---- Waiting and commit ----

  /** The timeout of PrecommitWait is scheduled once a round; without two thirds of any precommits that is an error. */
  predicate Waits(s: State, s': State, round: int) {
    if s.thrown || round < s.round || (s.round == round && s.triggeredTimeoutPrecommit) then s' == s
    else if !s.votes.TwoThirdsAny(Precommit, round) then s' == s.(thrown := true)
    else s' == s.(triggeredTimeoutPrecommit := true, timeouts := s.timeouts + {Timeout(s.height, round, PrecommitWait)})
  }

  lemma WaitAnswer(s: State, height: nat, round: int)
    ensures var s' := EnterPrecommitWait(s, height, round); if height == s.height then Waits(s, s', round) else s' == s
  {
  }

  /** The block `id` is at hand with parts `parts`: it is stored, unless one is, and if the application takes it the next height starts. */
  predicate Finalizes(s: State, env: Env, s': State, id: BlockId, parts: Option<Parts>) {
    if parts != Some(id.parts) || !env.blockValid then s' == s.(thrown := true)
    else
      && s'.stored == (if s.height in s.stored then s.stored else s.stored[s.height := id.hash])
      && if env.applied then NextHeight(s, env, s', id) else s' == s.(stored := s'.stored)
  }

  /** The next height, with the application's validators and nothing proposed, locked or counted. */
  predicate NextHeight(s: State, env: Env, s': State, id: BlockId) {
    s' == State(s.me, s.height + 1, 0, NewHeight, Proposed(None, None, None), Held(-1, None, None), Held(-1, None, None),
                HeightVotes(env.nextVals, 0, map[0 := RoundVotes(EMPTY_SET, EMPTY_SET)], map[]), -1, false,
                s.timeouts + {Timeout(s.height + 1, 0, NewHeight)}, s.signed, s'.stored, s.chain + [id.hash],
                s.cast, s.thrown, s.askedTwice)
  }

  lemma FinalizeAnswer(s: State, env: Env, id: BlockId)
    requires s.step == CommitStep
    ensures Finalizes(s, env, FinalizeCommit(s, env, id), id, s.prop.parts)
  {
  }

  /** In Commit: a precommit majority for the proposal block finalises it. */
  predicate TriesFinal(s: State, env: Env, s': State) {
    match s.votes.Majority(Precommit, s.commitRound)
    case None => s' == s
    case Some(id) =>
      if id.hash != NIL && s.prop.block == Some(id.hash) then Finalizes(s, env, s', id, s.prop.parts) else s' == s
  }

  lemma TryFinalizeAnswer(s: State, env: Env)
    requires s.step == CommitStep
    ensures TriesFinal(s, env, TryFinalizeCommit(s, env, s.height))
  {
    hide FinalizeCommit, Finalizes;
    var maj := s.votes.Majority(Precommit, s.commitRound);
    if maj.Some? {
      FinalizeAnswer(s, env, maj.value);
    }
  }

  /** What is proposed once `id` is to be committed: the locked block if it is the one, else the block awaited. */
  predicate Fetches(s: State, prop: Proposed, id: BlockId) {
    if id.hash != NIL && s.lock.block == Some(id.hash) then prop == Proposed(s.prop.pol, Some(id.hash), s.lock.parts)
    else if (id.hash != NIL && s.prop.block == Some(id.hash)) || s.prop.parts == Some(id.parts) then prop == s.prop
    else prop == Proposed(s.prop.pol, None, Some(id.parts))
  }

  /** The commit round is set and its block fetched; if it is at hand it is finalised at once. */
  ghost predicate Commits(s: State, env: Env, s': State, round: int) {
    match s.votes.Majority(Precommit, round)
    case None => s' == s.(round := round, step := CommitStep, commitRound := round, thrown := true)
    case Some(id) =>
      exists prop ::
        && Fetches(s, prop, id)
        && TriesFinal(s.(round := round, step := CommitStep, commitRound := round, prop := prop), env, s')
  }

  lemma CommitAnswer(s: State, env: Env, height: nat, round: int)
    ensures var s' := EnterCommit(s, env, height, round);
            if !s.thrown && s.height == height && Rank(s.step) < 8 then Commits(s, env, s', round) else s' == s
  {
    hide TryFinalizeCommit, TriesFinal, HeightVotes.Get;
    var maj := s.votes.Majority(Precommit, round);
    var prop := if maj.None? then s.prop else FetchCommitted(s, maj.value);
    var s1 := s.(prop := prop, thrown := maj.None?, round := round, step := CommitStep, commitRound := round);
    TryFinalizeAnswer(s1, env);
    if maj.None? {
      NothingToFinalize(s1, env);
    } else {
      assert Fetches(s, prop, maj.value);
    }
  }

  lemma NothingToFinalize(s: State, env: Env)
    requires s.votes.Majority(Precommit, s.commitRound).None?
    ensures TryFinalizeCommit(s, env, s.height) == s
  {
  }

  // ---- Handlers ----

  /** The first proposal of the current round is taken: signed, with a proof-of-lock round before this one or none. */
  lemma ProposalAnswer(s: State, height: nat, round: int, pol: int, parts: Parts, ok: bool)
    ensures var s' := SetProposal(s, height, round, pol, parts, ok);
            if s.prop.pol.None? && height == s.height && round == s.round && ok && (pol == -1 || 0 <= pol < round)
            then s' == s.(prop := Proposed(Some(pol), s.prop.block, Some(if s.prop.parts.Some? then s.prop.parts.value else parts)))
            else s' == s
  {
  }

  predicate Outdated(s: State, t: Timeout) {
    t.height != s.height || t.round < s.round || (t.round == s.round && Rank(t.step) < Rank(s.step))
  }

  /** The round and step that each kind of timeout leads to, if nothing is thrown. */
  predicate TimeoutLeads(s: State, t: Timeout, s': State) {
    if Outdated(s, t) then s' == s
    else
      s'.thrown || match t.step
      case NewHeight => if s.round > 0 || (s.round == 0 && s.step != NewHeight) then s' == s else s'.round == 0 && 3 <= Rank(s'.step) <= 4
      case NewRound => if s.round > 0 || (s.round == 0 && 3 <= Rank(s.step)) then s' == s else s'.round == 0 && 3 <= Rank(s'.step) <= 4
      case ProposeStep => s'.round == t.round && s'.step == PrevoteStep
      case PrevoteWait => s'.round == t.round && s'.step == PrecommitStep
      case PrecommitWait => s'.round == t.round + 1 && 3 <= Rank(s'.step) <= 4
      case _ => false
  }

  /** What a timeout that is not outdated does; `mid` is the state between the two steps of one in PrecommitWait. */
  ghost predicate TimesOut(s: State, env: Env, t: Timeout, mid: State, s': State) {
    match t.step
    case NewHeight => if Begins(s, s.height, 0) then StartsRound(s, env, s', 0) else s' == s
    case NewRound => if Due(s, s.height, 0, 3) then Proposes(s, env, s', 0) else s' == s
    case ProposeStep => Prevotes(s, env, s', t.round)
    case PrevoteWait => Precommits(s, env, s', t.round)
    case PrecommitWait =>
      && (if Due(s, s.height, t.round, 6) then Precommits(s, env, mid, t.round) else mid == s)
      && (if mid.thrown then s' == mid else StartsRound(mid, env, s', t.round + 1))
    case _ => s' == s.(thrown := true)
  }

  lemma TimeoutAnswer(s: State, env: Env, t: Timeout) returns (mid: State)
    requires !s.thrown
    ensures var s' := HandleTimeout(s, env, t);
            if Outdated(s, t) then s' == s else TimesOut(s, env, t, mid, s')
  {
    hide EnterNewRound, EnterPropose, EnterPrevote, EnterPrecommit, Prevotes, Precommits, StartsRound, Proposes;
    mid := EnterPrecommit(s, env, t.height, t.round);
    PrecommitAnswer(s, env, t.height, t.round);
    PrevoteAnswer(s, env, t.height, t.round);
    ProposeAnswer(s, env, t.height, 0);
    NewRoundAnswer(s, env, t.height, 0);
    NewRoundAnswer(mid, env, t.height, t.round + 1);
    if Due(s, t.height, t.round, 6) {
      PrecommitsReaches(s, env, mid, t.round);
    }
  }

  lemma PrecommitsReaches(s: State, env: Env, s': State, round: int)
    requires Precommits(s, env, s', round)
    ensures s'.height == s.height && s'.round == round && s'.step == PrecommitStep && s'.votes == s.votes
  {
    hide PrecommitsFor;
  }

  lemma StartsRoundReaches(s: State, env: Env, s': State, round: int)
    requires StartsRound(s, env, s', round) && !s'.thrown
    ensures s'.round == round && 3 <= Rank(s'.step) <= 4
  {
    hide Proposes;
    ProposesKeeps(s.(round := round, step := NewRound, votes := s'.votes, triggeredTimeoutPrecommit := false,
                     prop := if round == 0 then s.prop else NOTHING_PROPOSED), env, s', round);
  }

  /** So a timeout of a round leads to that round's prevote or precommit, or to exactly the next round. */
  lemma TimeoutReaches(s: State, env: Env, t: Timeout)
    requires !s.thrown
    ensures TimeoutLeads(s, t, HandleTimeout(s, env, t))
  {
    hide HandleTimeout, Precommits, StartsRound, Proposes, Casts;
    var mid := TimeoutAnswer(s, env, t);
    var s' := HandleTimeout(s, env, t);
    if !Outdated(s, t) && !s'.thrown {
      match t.step
      case NewHeight =>
        if Begins(s, s.height, 0) {
          StartsRoundReaches(s, env, s', 0);
        }
      case NewRound =>
        if Due(s, s.height, 0, 3) {
          ProposesKeeps(s, env, s', 0);
        }
      case PrevoteWait => PrecommitsReaches(s, env, s', t.round);
      case PrecommitWait => StartsRoundReaches(mid, env, s', t.round + 1);
      case _ =>
    }
  }

  // ---- Block parts ----

  /** The complete block is the proposal block; it is the valid block too if it has the polka of the round and valid is older. */
  predicate TakesBlock(s: State, s': State, block: Hash) {
    var maj := s.votes.Majority(Prevote, s.round);
    && s' == s.(prop := s.prop.(block := Some(block)), valid := s'.valid)
    && s'.valid == if maj.Some? && maj.value.hash == block != NIL && s.valid.round < s.round
                   then Held(s.round, Some(block), s.prop.parts) else s.valid
  }

  /** Until the prevote, a complete proposal is prevoted, and precommitted if the round has a polka; in Commit it may be finalised. */
  predicate MovesOnBlock(s: State, env: Env, mid: State, s': State) {
    if Rank(s.step) <= 3 && HasProposal(s.prop, s.votes) then
      && Prevotes(s, env, mid, s.round)
      && if s.votes.Majority(Prevote, s.round).Some? then Precommits(mid, env, s', s.round) else s' == mid
    else if s.step == CommitStep then TriesFinal(s, env, s')
    else s' == s
  }

  lemma PartAnswer(s: State, env: Env, height: nat, block: Option<Hash>) returns (taken: State, mid: State)
    requires !s.thrown
    ensures var s' := AddBlockPart(s, env, height, block);
            if s.height != height || s.prop.parts.None? || block.None? then s' == s
            else TakesBlock(s, taken, block.value) && MovesOnBlock(taken, env, mid, s')
  {
    hide EnterPrevote, EnterPrecommit, TryFinalizeCommit, Prevotes, Precommits, TriesFinal, Received, HeightVotes.Get;
    taken := Received(s, block);
    mid := EnterPrevote(taken, env, height, taken.round);
    if block.Some? {
      ReceivedAnswer(s, block.value);
    }
    PrevoteAnswer(taken, env, height, taken.round);
    PrecommitAnswer(mid, env, height, mid.round);
    if Due(taken, height, taken.round, 4) {
      PrevotesReaches(taken, env, mid, taken.round);
    }
    if taken.step == CommitStep {
      TryFinalizeAnswer(taken, env);
    }
  }

  lemma ReceivedAnswer(s: State, block: Hash)
    ensures TakesBlock(s, Received(s, Some(block)), block)
  {
  }

  lemma PrevotesReaches(s: State, env: Env, s': State, round: int)
    requires Prevotes(s, env, s', round)
    ensures s'.height == s.height && s'.round == round && s'.step == PrevoteStep && s'.votes == s.votes && s'.thrown == s.thrown
  {
    hide Casts;
  }

  // ---- Votes ----

  /**
   A polka later than the lock and not later than the round, for something else, releases the lock. A polka of the
   round for a block makes it the valid block if it is the proposal block, and else what is awaited.
   */
  predicate Polls(s: State, s': State, round: int) {
    match s.votes.Majority(Prevote, round)
    case None => s' == s
    case Some(id) =>
      && s' == s.(lock := s'.lock, valid := s'.valid, prop := s'.prop)
      && s'.lock == (if s.lock.round < round <= s.round && (id.hash == NIL || s.lock.block != Some(id.hash)) && s.lock.block.Some?
                     then NOTHING_HELD else s.lock)
      && if id.hash == NIL || round != s.round || round <= s.valid.round then s'.valid == s.valid && s'.prop == s.prop
         else if s.prop.block == Some(id.hash) then
           s'.valid == Held(round, Some(id.hash), s.prop.parts) && s'.prop == Proposed(s.prop.pol, Some(id.hash), Some(id.parts))
         else s'.valid == s.valid && s'.prop == Proposed(s.prop.pol, None, Some(id.parts))
  }

  lemma PolledAnswer(s: State, round: int)
    ensures Polls(s, Repolled(s, round), round)
  {
    hide HeightVotes.Get;
  }

  /**
   Two thirds of any prevotes of a later round start it. From the prevote on, a polka for nil or with the proposal at hand
   leads to the precommit, and two thirds of any prevotes to the error. The polka that a complete proposal refers to leads
   to the prevote.
   */
  ghost predicate MovesOnPrevotes(s: State, env: Env, s': State, round: int) {
    var maj := s.votes.Majority(Prevote, round);
    if s.round < round && s.votes.TwoThirdsAny(Prevote, round) then StartsRound(s, env, s', round)
    else if s.round == round && 4 <= Rank(s.step) then
      if maj.Some? && (maj.value.hash == NIL || HasProposal(s.prop, s.votes)) then
        if Rank(s.step) < 6 then Precommits(s, env, s', round) else s' == s
      else if Rank(s.step) < 5 && s.votes.TwoThirdsAny(Prevote, round) then s' == s.(thrown := true)
      else s' == s
    else if 0 <= round && s.prop.pol == Some(round) && HasProposal(s.prop, s.votes) && Rank(s.step) < 4 then
      Prevotes(s, env, s', s.round)
    else s' == s
  }

  lemma PrevoteReaction(s: State, env: Env, round: int) returns (polled: State)
    requires !s.thrown
    ensures Polls(s, polled, round) && MovesOnPrevotes(polled, env, AfterPrevote(s, env, round), round)
  {
    hide EnterNewRound, EnterPrevote, EnterPrecommit, StartsRound, Prevotes, Precommits, Repolled, Polls, HeightVotes.Get;
    polled := Repolled(s, round);
    PolledAnswer(s, round);
    PollsKeeps(s, polled, round);
    NewRoundAnswer(polled, env, polled.height, round);
    PrecommitAnswer(polled, env, polled.height, round);
    PrevoteAnswer(polled, env, polled.height, polled.round);
  }

  lemma PollsKeeps(s: State, s': State, round: int)
    requires Polls(s, s', round)
    ensures s'.votes == s.votes && s'.thrown == s.thrown
  {
    hide HeightVotes.Get;
  }

  /**
   A precommit quorum of a round starts the round and its precommit if they are still to come. One for a block commits it,
   one for nil waits for the next round, and so do two thirds of any precommits.
   */
  ghost predicate MovesOnPrecommits(s: State, env: Env, a: State, b: State, c: State, s': State, round: int) {
    && (if Begins(s, s.height, round) then StartsRound(s, env, a, round) else a == s)
    && (if Due(a, s.height, round, 6) then Precommits(a, env, b, round) else b == a)
    && match s.votes.Majority(Precommit, round)
       case None =>
         if s.round <= round && s.votes.TwoThirdsAny(Precommit, round) then Waits(a, s', round) else s' == s
       case Some(id) =>
         if id.hash == NIL then Waits(b, s', round)
         else
           && (if b.thrown || 8 <= Rank(b.step) then c == b else Commits(b, env, c, round))
           && if env.hasAll && Begins(c, c.height, 0) then StartsRound(c, env, s', 0) else s' == c
  }

  lemma PrecommitReaction(s: State, env: Env, round: int) returns (a: State, b: State, c: State)
    requires !s.thrown
    ensures MovesOnPrecommits(s, env, a, b, c, AfterPrecommit(s, env, round), round)
  {
    hide EnterNewRound, EnterPrecommit, EnterPrecommitWait, EnterCommit, StartsRound, Precommits, Commits, HeightVotes.Get, Waits;
    a := EnterNewRound(s, env, s.height, round);
    b := EnterPrecommit(a, env, s.height, round);
    c := EnterCommit(b, env, b.height, round);
    NewRoundAnswer(s, env, s.height, round);
    PrecommitAnswer(a, env, s.height, round);
    HeightKept(s, env, s.height, round);
    HeightKept(a, env, s.height, round);
    CommitAnswer(b, env, b.height, round);
    NewRoundAnswer(c, env, c.height, 0);
    WaitAnswer(a, s.height, round);
    WaitAnswer(b, b.height, round);
  }

  /** A late precommit of the last height may start round 0; a vote of this height is counted, and if it is new, reacted to. */
  lemma VoteAnswer(s: State, env: Env, v: Vote, peer: Peer)
    requires !s.thrown
    ensures var s' := AddVote(s, env, v, peer);
            if v.height + 1 == s.height && v.kind == Precommit then
              if s.step == NewHeight && env.hasAll && s.round <= 0 then StartsRound(s, env, s', 0) else s' == s
            else if v.height != s.height then s' == s
            else
              var (votes, added) := s.votes.Add(v, peer);
              var s1 := s.(votes := votes);
              if !added then s' == s1
              else s' == if v.kind == Prevote then AfterPrevote(s1, env, v.round) else AfterPrecommit(s1, env, v.round)
  {
    hide EnterNewRound, StartsRound, AfterPrevote, AfterPrecommit, HeightVotes.Add;
    NewRoundAnswer(s, env, s.height, 0);
  }
}
