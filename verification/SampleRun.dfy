/** A run of one validator in which a proposed block is prevoted, locked, precommitted and stored. */
module SampleRun {
  import opened Options
  import opened Quorum
  import opened VoteLog
  import opened VoteSets
  import opened RoundSteps
  import opened Agreement

  const WEIGHTS: Weights := map[0 := 1]
  const VALS := ValidatorSet(WEIGHTS, 1)
  const ENV := Env(true, true, false, false, VALS)
  const ID := BlockId(5, 7)
  const PREVOTE := Vote(0, Prevote, 0, 0, ID)
  const PRECOMMIT := Vote(0, Precommit, 0, 0, ID)

  function Constant(): App {
    (chain: seq<Hash>) => VALS
  }

  lemma OnePower()
    ensures Power(WEIGHTS, {}) == 0 && Total(WEIGHTS) == 1
    ensures Assumptions(Constant(), {0})
  {
    PowerAdd(WEIGHTS, {}, 0);
    assert {} + {0} == WEIGHTS.Keys;
    assert WEIGHTS.Keys - {0} == {};
  }

  /** The votes while nothing was counted in rounds 0 and 1. */
  predicate Fresh(v: HeightVotes) {
    v.vals == VALS && v.round == 1 && 0 in v.sets && v.sets[0] == EMPTY_ROUND && v.Majority(Prevote, 1).None?
  }

  predicate AtRoundZero(s: State) {
    s.me == 0 && s.height == 0 && s.round == 0 && s.commitRound < 0 && s.stored == map[] && s.chain == []
  }

  /** One vote of the only validator is a majority. */
  lemma CountedAlone()
    ensures var (s, added) := AddToSet(VALS, EMPTY_SET, 0, ID);
            added && s.maj23 == Some(ID)
  {
  }

  lemma Started(s: State)
    requires s == InitialState(0, VALS)
    ensures var s1 := Handle(s, ENV, Start);
            && AtRoundZero(s1) && s1.step == ProposeStep && s1.prop == NOTHING_PROPOSED && s1.lock == NOTHING_HELD
            && s1.valid == NOTHING_HELD && s1.signed == None && Fresh(s1.votes) && s1.cast == []
  {
  }

  lemma ProposalTaken(s: State)
    requires AtRoundZero(s) && s.prop == NOTHING_PROPOSED
    ensures Handle(s, ENV, ProposalReceived(0, 0, -1, 7, true)) ==
            s.(cast := [], thrown := false, prop := Proposed(Some(-1), None, Some(7)))
  {
  }

  lemma Prevoted(s: State)
    requires AtRoundZero(s) && s.step == ProposeStep && s.prop == Proposed(Some(-1), None, Some(7)) && s.lock == NOTHING_HELD
    requires s.signed == None && Fresh(s.votes)
    ensures Handle(s, ENV, PartReceived(0, Some(5))) ==
            s.(prop := Proposed(Some(-1), Some(5), Some(7)), step := PrevoteStep, signed := Some(PREVOTE),
               cast := [PREVOTE], thrown := false, askedTwice := s.askedTwice)
  {
  }

  lemma VotesAfterPrevote(v: HeightVotes)
    requires Fresh(v)
    ensures var (v', added) := v.Add(PREVOTE, 0);
            && added && v'.vals == VALS && v'.round == 1 && v'.Majority(Prevote, 0) == Some(ID) && v'.Majority(Prevote, 1).None?
            && 0 in v'.sets && v'.sets[0].precommits == EMPTY_SET && v'.PolRound(v'.round) == 0
  {
    CountedAlone();
    var v' := v.Add(PREVOTE, 0).0;
    assert v'.PolRound(1) == v'.PolRound(0);
  }

  lemma Precommitted(s: State)
    requires AtRoundZero(s) && s.step == PrevoteStep && s.prop == Proposed(Some(-1), Some(5), Some(7)) && s.lock == NOTHING_HELD
    requires s.valid == NOTHING_HELD && s.signed == Some(PREVOTE) && Fresh(s.votes)
    ensures var s' := Handle(s, ENV, VoteReceived(PREVOTE, 0));
            && AtRoundZero(s') && s'.step == PrecommitStep && s'.prop == s.prop && s'.lock == Held(0, Some(5), Some(7))
            && s'.votes == s.votes.Add(PREVOTE, 0).0 && s'.cast == [PRECOMMIT]
  {
    hide HeightVotes.Add;
    VotesAfterPrevote(s.votes);
  }

  lemma Stored(s: State)
    requires AtRoundZero(s) && s.step == PrecommitStep && s.prop == Proposed(Some(-1), Some(5), Some(7))
    requires s.lock == Held(0, Some(5), Some(7)) && s.votes.vals == VALS && 0 in s.votes.sets && s.votes.sets[0].precommits == EMPTY_SET
    ensures Handle(s, ENV, VoteReceived(PRECOMMIT, 0)).stored == map[0 := 5] && Handle(s, ENV, VoteReceived(PRECOMMIT, 0)).chain == []
  {
    CountedAlone();
  }

  function Only(s: State, log: seq<Vote>): System {
    System(map[0 := s], log)
  }

  lemma Moves(s: State, log: seq<Vote>, e: Event)
    requires e.VoteReceived? ==> e.vote in log
    requires !e.TimeoutFired?
    ensures var s' := Handle(s, ENV, e);
            |s'.chain| <= |s.chain| ==> Next(Constant(), Only(s, log), Only(s', log + s'.cast))
  {
    hide Handle;
    var s' := Handle(s, ENV, e);
    if |s'.chain| <= |s.chain| {
      assert map[0 := s][0 := s'] == map[0 := s'];
      assert NodeStep(Constant(), Only(s, log), Only(s', log + s'.cast), 0, ENV, e);
    }
  }

  lemma Extended(run: seq<System>, s: State, log: seq<Vote>, e: Event) returns (run': seq<System>, s': State)
    requires IsRun(Constant(), {0}, run) && run[|run| - 1] == Only(s, log)
    requires (e.VoteReceived? ==> e.vote in log) && !e.TimeoutFired? && |Handle(s, ENV, e).chain| <= |s.chain|
    ensures s' == Handle(s, ENV, e)
    ensures IsRun(Constant(), {0}, run') && run'[|run'| - 1] == Only(s', log + s'.cast)
  {
    hide Handle, Next;
    s' := Handle(s, ENV, e);
    Moves(s, log, e);
    run' := run + [Only(s', log + s'.cast)];
    forall i | 0 <= i < |run'| - 1 ensures Next(Constant(), run'[i], run'[i + 1]) {
      if i < |run| - 1 {
        assert Next(Constant(), run[i], run[i + 1]);
      }
    }
  }

  /** Up to the prevote. */
  lemma PrevotingRun() returns (run: seq<System>, s: State)
    ensures IsRun(Constant(), {0}, run) && run[|run| - 1] == Only(s, [PREVOTE])
    ensures AtRoundZero(s) && s.step == PrevoteStep && s.prop == Proposed(Some(-1), Some(5), Some(7)) && s.lock == NOTHING_HELD
    ensures s.valid == NOTHING_HELD && s.signed == Some(PREVOTE) && Fresh(s.votes)
  {
    hide Handle, Next, Fresh;
    s := InitialState(0, VALS);
    run := [Only(s, [])];
    Started(s);
    run, s := Extended(run, s, [], Start);
    assert [] + s.cast == [];
    var proposal := ProposalReceived(0, 0, -1, 7, true);
    ProposalTaken(s);
    run, s := Extended(run, s, [], proposal);
    assert [] + s.cast == [];
    Prevoted(s);
    run, s := Extended(run, s, [], PartReceived(0, Some(5)));
    assert [] + s.cast == [PREVOTE];
  }

  /** The results about stored blocks are about something: here is a run in which a correct validator stores one. */
  lemma StoringRun() returns (run: seq<System>)
    ensures Assumptions(Constant(), {0}) && IsRun(Constant(), {0}, run)
    ensures var last := run[|run| - 1]; 0 in last.nodes && last.nodes[0].stored == map[0 := 5]
  {
    hide Handle, Next, Assumptions, IsRun;
    OnePower();
    var s;
    run, s := PrevotingRun();
    Precommitted(s);
    VotesAfterPrevote(s.votes);
    run, s := Extended(run, s, [PREVOTE], VoteReceived(PREVOTE, 0));
    assert [PREVOTE] + s.cast == [PREVOTE, PRECOMMIT];
    Stored(s);
    run, s := Extended(run, s, [PREVOTE, PRECOMMIT], VoteReceived(PRECOMMIT, 0));
  }
}
