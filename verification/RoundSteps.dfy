/**
 The steps of one validator, as functions on its state. A handler that throws leaves `thrown` set:
 the calls after the throw are skipped, while updates deferred to scope exit still happen.
 */
module RoundSteps {
  import opened Options
  import opened Quorum
  import opened VoteLog
  import opened VoteSets

  datatype Step = NewHeight | NewRound | ProposeStep | PrevoteStep | PrevoteWait | PrecommitStep | PrecommitWait | CommitStep

  function Rank(s: Step): nat {
    match s
    case NewHeight => 1
    case NewRound => 2
    case ProposeStep => 3
    case PrevoteStep => 4
    case PrevoteWait => 5
    case PrecommitStep => 6
    case PrecommitWait => 7
    case CommitStep => 8
  }

  datatype Timeout = Timeout(height: nat, round: int, step: Step)

  /** The proposal's POL round, its block once complete, and the header of the parts expected. */
  datatype Proposed = Proposed(pol: Option<int>, block: Option<Hash>, parts: Option<Parts>)

  /** A block with the round of its polka: the locked block, or the valid block. */
  datatype Held = Held(round: int, block: Option<Hash>, parts: Option<Parts>)

  const NOTHING_PROPOSED := Proposed(None, None, None)
  const NOTHING_HELD := Held(-1, None, None)

  /**
   Heights count from the initial height; `chain` holds the applied blocks, so `height == |chain|`.
   `askedTwice` records that before Commit the signer was asked for a vote not later than its last one.
   */
  datatype State = State(
    me: Validator,
    height: nat, round: int, step: Step,
    prop: Proposed, lock: Held, valid: Held,
    votes: HeightVotes, commitRound: int, triggeredTimeoutPrecommit: bool,
    timeouts: set<Timeout>,
    signed: Option<Vote>,
    stored: map<nat, Hash>, chain: seq<Hash>,
    cast: seq<Vote>, thrown: bool, askedTwice: bool)

  /** What the surroundings decide during one handler call. */
  datatype Env = Env(canSign: bool, blockValid: bool, applied: bool, hasAll: bool, nextVals: ValidatorSet)

  predicate HashesTo(b: Option<Hash>, h: Hash) {
    h != NIL && b == Some(h)
  }

  function Header(p: Option<Parts>): Parts {
    if p.Some? then p.value else 0
  }

  function Schedule(s: State, round: int, step: Step): State {
    s.(timeouts := s.timeouts + {Timeout(s.height, round, step)})
  }

  function Throw(s: State): State {
    s.(thrown := true)
  }

  // ---- Signing ----

  /** The signer takes a vote later than its last one, or the last one again. */
  predicate SignerAccepts(last: Option<Vote>, v: Vote) {
    last.None? || Earlier(last.value, v) || last.value == v
  }

  predicate Asked(s: State, v: Vote) {
    s.askedTwice || (s.commitRound < 0 && s.signed.Some? && !Earlier(s.signed.value, v))
  }

  /** The vote carries the round of the state, not the round of the step being entered. */
  function SignAddVote(s: State, env: Env, k: Kind, id: BlockId): State {
    var v := Vote(s.me, k, s.height, s.round, id);
    if !env.canSign then s
    else if SignerAccepts(s.signed, v) then s.(signed := Some(v), cast := s.cast + [v], askedTwice := Asked(s, v))
    else s.(askedTwice := Asked(s, v))
  }

  // ---- Steps ----

  predicate ProposalComplete(s: State) {
    && s.prop.pol.Some? && s.prop.block.Some?
    && (s.prop.pol.value < 0 || s.votes.Majority(Prevote, s.prop.pol.value).Some?)
  }

  /** A fresh round: the proposal is forgotten, except in round 0, and its vote sets are opened. */
  function StartRound(s: State, round: int): State {
    var prop := if round == 0 then s.prop else NOTHING_PROPOSED;
    if !s.votes.MayEnter(round + 1) then s.(round := round, step := NewRound, prop := prop, thrown := true)
    else s.(round := round, step := NewRound, prop := prop,
            votes := s.votes.Enter(round + 1), triggeredTimeoutPrecommit := false)
  }

  function EnterNewRound(s: State, env: Env, height: nat, round: int): State {
    if s.thrown || s.height != height || round < s.round || (s.round == round && s.step != NewHeight) then s
    else EnterPropose(StartRound(s, round), env, height, round)
  }

  function EnterPropose(s: State, env: Env, height: nat, round: int): State {
    if s.thrown || s.height != height || round < s.round || (s.round == round && 3 <= Rank(s.step)) then s
    else
      var s1 := Schedule(s, round, ProposeStep).(round := round, step := ProposeStep);
      if ProposalComplete(s1) then EnterPrevote(s1, env, height, round) else s1
  }

  /** Prevote the locked block, else the proposal block, else nil. */
  function PrevoteId(s: State): BlockId {
    if s.lock.block.Some? then BlockId(s.lock.block.value, Header(s.lock.parts))
    else if s.prop.block.None? then BlockId(NIL, 0)
    else BlockId(s.prop.block.value, Header(s.prop.parts))
  }

  function EnterPrevote(s: State, env: Env, height: nat, round: int): State {
    if s.thrown || s.height != height || round < s.round || (s.round == round && 4 <= Rank(s.step)) then s
    else SignAddVote(s, env, Prevote, PrevoteId(s)).(round := round, step := PrevoteStep)
  }

  /** Throws exactly when two thirds of the power has prevoted. */
  function EnterPrevoteWait(s: State, height: nat, round: int): State {
    if s.thrown || s.height != height || round < s.round || (s.round == round && 5 <= Rank(s.step)) then s
    else if s.votes.TwoThirdsAny(Prevote, round) then Throw(s)
    else Schedule(s, round, PrevoteWait).(round := round, step := PrevoteWait)
  }

  function Unlock(s: State): State {
    s.(lock := NOTHING_HELD)
  }

  /** The lock after looking at the polka of the round: kept, renewed, taken or released. */
  function Relock(s: State, round: int, maj: Option<BlockId>): Held {
    if maj.None? then s.lock
    else if maj.value.hash == NIL then if s.lock.block.Some? then NOTHING_HELD else s.lock
    else if HashesTo(s.lock.block, maj.value.hash) then s.lock.(round := round)
    else if HashesTo(s.prop.block, maj.value.hash) then Held(round, s.prop.block, s.prop.parts)
    else NOTHING_HELD
  }

  /** A polka for a block that is neither locked nor at hand: get ready to receive it. */
  function Refetch(s: State, maj: Option<BlockId>): Proposed {
    if maj.None? || maj.value.hash == NIL || HashesTo(s.lock.block, maj.value.hash)
       || HashesTo(s.prop.block, maj.value.hash) || s.prop.parts == Some(maj.value.parts)
    then s.prop else Proposed(s.prop.pol, None, Some(maj.value.parts))
  }

  /** Precommit the block of the polka if it is locked or at hand, else nil. */
  function PrecommitId(s: State, maj: Option<BlockId>): BlockId {
    if maj.Some? && (HashesTo(s.lock.block, maj.value.hash) || HashesTo(s.prop.block, maj.value.hash))
    then maj.value else BlockId(NIL, 0)
  }

  /** The body of enter_precommit, before the deferred step update. */
  function DoPrecommit(s: State, env: Env, round: int): State {
    var maj := s.votes.Majority(Prevote, round);
    if maj.Some? && s.votes.PolRound(s.votes.round) < round then Throw(s)
    else SignAddVote(s.(lock := Relock(s, round, maj), prop := Refetch(s, maj)), env, Precommit, PrecommitId(s, maj))
  }

  function EnterPrecommit(s: State, env: Env, height: nat, round: int): State {
    if s.thrown || s.height != height || round < s.round || (s.round == round && 6 <= Rank(s.step)) then s
    else DoPrecommit(s, env, round).(round := round, step := PrecommitStep)
  }

  function EnterPrecommitWait(s: State, height: nat, round: int): State {
    if s.thrown || s.height != height || round < s.round || (s.round == round && s.triggeredTimeoutPrecommit) then s
    else if !s.votes.TwoThirdsAny(Precommit, round) then Throw(s)
    else Schedule(s, round, PrecommitWait).(triggeredTimeoutPrecommit := true)
  }

  /** The committed block if it is locked, else room to receive it. */
  function FetchCommitted(s: State, id: BlockId): Proposed {
    if HashesTo(s.lock.block, id.hash) then Proposed(s.prop.pol, s.lock.block, s.lock.parts)
    else if HashesTo(s.prop.block, id.hash) || s.prop.parts == Some(id.parts) then s.prop
    else Proposed(s.prop.pol, None, Some(id.parts))
  }

  /** Sets the round to the commit round, which may be earlier than the current one. */
  function EnterCommit(s: State, env: Env, height: nat, round: int): State {
    if s.thrown || s.height != height || 8 <= Rank(s.step) then s
    else
      var maj := s.votes.Majority(Precommit, round);
      var prop := if maj.None? then s.prop else FetchCommitted(s, maj.value);
      TryFinalizeCommit(s.(prop := prop, thrown := maj.None?, round := round, step := CommitStep, commitRound := round),
                        env, height)
  }

  function TryFinalizeCommit(s: State, env: Env, height: nat): State {
    if s.height != height then Throw(s)
    else
      var maj := s.votes.Majority(Precommit, s.commitRound);
      if maj.None? || maj.value.hash == NIL then s
      else if !HashesTo(s.prop.block, maj.value.hash) then s
      else FinalizeCommit(s, env, maj.value)
  }

  function FinalizeCommit(s: State, env: Env, id: BlockId): State {
    if s.step != CommitStep then s
    else if s.prop.parts != Some(id.parts) || !env.blockValid then Throw(s)
    else
      var s1 := if s.height in s.stored then s else s.(stored := s.stored[s.height := id.hash]);
      if !env.applied then s1 else UpdateToState(s1, env.nextVals, id.hash)
  }

  function UpdateToState(s: State, vals: ValidatorSet, hash: Hash): State {
    Schedule(
      s.(chain := s.chain + [hash], height := s.height + 1, round := 0, step := NewHeight,
         prop := NOTHING_PROPOSED, lock := NOTHING_HELD, valid := NOTHING_HELD,
         votes := NewHeightVotes(vals), commitRound := -1, triggeredTimeoutPrecommit := false),
      0, NewHeight)
  }

  lemma ThrownSkips(s: State, env: Env, height: nat, round: int)
    requires s.thrown
    ensures EnterPropose(s, env, height, round) == s
  {
  }

  /** Only finalizing changes the height. */
  lemma HeightKept(s: State, env: Env, height: nat, round: int)
    ensures EnterNewRound(s, env, height, round).height == s.height
    ensures EnterPrecommit(s, env, height, round).height == s.height
  {
  }

  // ---- Handlers ----

  function SetProposal(s: State, height: nat, round: int, pol: int, parts: Parts, signatureOk: bool): State {
    if s.prop.pol.Some? || height != s.height || round != s.round then s
    else if pol < -1 || (pol >= 0 && pol >= round) || !signatureOk then s
    else s.(prop := s.prop.(pol := Some(pol), parts := if s.prop.parts.None? then Some(parts) else s.prop.parts))
  }

  /** The last part of a block arrived: it is the proposal block, and valid if it has the round's polka. */
  function Received(s: State, block: Option<Hash>): State {
    var maj := s.votes.Majority(Prevote, s.round);
    if maj.Some? && maj.value != BlockId(NIL, 0) && s.valid.round < s.round && HashesTo(block, maj.value.hash)
    then s.(prop := s.prop.(block := block), valid := Held(s.round, block, s.prop.parts))
    else s.(prop := s.prop.(block := block))
  }

  /** `block` is the hash of the block when this part completes the part set. */
  function AddBlockPart(s: State, env: Env, height: nat, block: Option<Hash>): State {
    if s.height != height || s.prop.parts.None? || block.None? then s
    else
      var s1 := Received(s, block);
      if Rank(s1.step) <= 3 && ProposalComplete(s1) then
        var s2 := EnterPrevote(s1, env, height, s1.round);
        if s.votes.Majority(Prevote, s.round).Some? then EnterPrecommit(s2, env, height, s2.round) else s2
      else if s1.step == CommitStep then TryFinalizeCommit(s1, env, height)
      else s1
  }

  function HandleTimeout(s: State, env: Env, t: Timeout): State {
    if t.height != s.height || t.round < s.round || (t.round == s.round && Rank(t.step) < Rank(s.step)) then s
    else
      match t.step
      case NewHeight => EnterNewRound(s, env, t.height, 0)
      case NewRound => EnterPropose(s, env, t.height, 0)
      case ProposeStep => EnterPrevote(s, env, t.height, t.round)
      case PrevoteWait => EnterPrecommit(s, env, t.height, t.round)
      case PrecommitWait => EnterNewRound(EnterPrecommit(s, env, t.height, t.round), env, t.height, t.round + 1)
      case _ => Throw(s)
  }

  function AddVote(s: State, env: Env, v: Vote, peer: Peer): State {
    if v.height + 1 == s.height && v.kind == Precommit then
      if s.step == NewHeight && env.hasAll then EnterNewRound(s, env, s.height, 0) else s
    else if v.height != s.height then s
    else
      var (votes, added) := s.votes.Add(v, peer);
      var s1 := s.(votes := votes);
      if !added then s1
      else if v.kind == Prevote then AfterPrevote(s1, env, v.round)
      else AfterPrecommit(s1, env, v.round)
  }

  /** A polka of a round after the lock, for something else, releases the lock. */
  function ReleaseLock(s: State, id: BlockId, round: int): State {
    if s.lock.block.Some? && s.lock.round < round <= s.round && !HashesTo(s.lock.block, id.hash)
    then Unlock(s) else s
  }

  function UpdateValid(s: State, id: BlockId, round: int): State {
    if id.hash != NIL && s.valid.round < round && round == s.round then
      var s1 := if HashesTo(s.prop.block, id.hash)
                then s.(valid := Held(round, s.prop.block, s.prop.parts))
                else s.(prop := s.prop.(block := None));
      if s1.prop.parts == Some(id.parts) then s1 else s1.(prop := s1.prop.(parts := Some(id.parts)))
    else s
  }

  /** Lock and valid block after looking at the prevotes of a round. */
  function Repolled(s: State, round: int): State {
    var maj := s.votes.Majority(Prevote, round);
    if maj.None? then s else UpdateValid(ReleaseLock(s, maj.value, round), maj.value, round)
  }

  function AfterPrevote(s: State, env: Env, round: int): State {
    PrevoteMove(Repolled(s, round), env, s.votes.Majority(Prevote, round), round)
  }

  /** Skip ahead, precommit, wait or prevote, depending on the prevotes of a round. */
  function PrevoteMove(s: State, env: Env, maj: Option<BlockId>, round: int): State {
    if s.round < round && s.votes.TwoThirdsAny(Prevote, round) then EnterNewRound(s, env, s.height, round)
    else if s.round == round && 4 <= Rank(s.step) then
      if maj.Some? && (ProposalComplete(s) || maj.value.hash == NIL) then EnterPrecommit(s, env, s.height, round)
      else if s.votes.TwoThirdsAny(Prevote, round) then EnterPrevoteWait(s, s.height, round)
      else s
    else if s.prop.pol.Some? && 0 <= s.prop.pol.value == round && ProposalComplete(s) then
      EnterPrevote(s, env, s.height, s.round)
    else s
  }

  function AfterPrecommit(s: State, env: Env, round: int): State {
    var maj := s.votes.Majority(Precommit, round);
    if maj.Some? then
      CommitOrWait(EnterPrecommit(EnterNewRound(s, env, s.height, round), env, s.height, round), env, maj.value, round)
    else if s.round <= round && s.votes.TwoThirdsAny(Precommit, round) then
      EnterPrecommitWait(EnterNewRound(s, env, s.height, round), s.height, round)
    else s
  }

  /** A precommit quorum for a block commits it; one for nil waits for the next round. */
  function CommitOrWait(s: State, env: Env, id: BlockId, round: int): State {
    if id.hash == NIL then EnterPrecommitWait(s, s.height, round)
    else
      var s1 := EnterCommit(s, env, s.height, round);
      if env.hasAll then EnterNewRound(s1, env, s1.height, 0) else s1
  }

  datatype Event =
    | Start
    | TimeoutFired(timeout: Timeout)
    | ProposalReceived(height: nat, round: int, pol: int, parts: Parts, signatureOk: bool)
    | PartReceived(height: nat, block: Option<Hash>)
    | VoteReceived(vote: Vote, peer: Peer)
    | PeerMajority(kind: Kind, round: int, id: BlockId)

  function Handle(s: State, env: Env, e: Event): State {
    var s0 := s.(cast := [], thrown := false);
    match e
    case Start => EnterNewRound(s0, env, s0.height, s0.round)
    case TimeoutFired(t) => HandleTimeout(s0, env, t)
    case ProposalReceived(h, r, pol, parts, ok) => SetProposal(s0, h, r, pol, parts, ok)
    case PartReceived(h, b) => AddBlockPart(s0, env, h, b)
    case VoteReceived(v, peer) => AddVote(s0, env, v, peer)
    case PeerMajority(k, r, id) => s0.(votes := s0.votes.Track(k, r, id))
  }

  function InitialState(me: Validator, vals: ValidatorSet): State {
    State(me, 0, 0, NewHeight, NOTHING_PROPOSED, NOTHING_HELD, NOTHING_HELD,
          NewHeightVotes(vals), -1, false, {}, None, map[], [], [], false, false)
  }
}
