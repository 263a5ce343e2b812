/**
 Runs of many validators. Correct ones take the steps of RoundSteps on votes that have been signed;
 the others sign whatever they like. No two correct validators store different blocks at one height.
 */
module Agreement {
  import opened Options
  import opened Quorum
  import opened VoteLog
  import opened VoteSets
  import opened RoundSteps
  import opened RoundInvariant
  import opened RoundPreservation

  /** The validator set that the application yields after a chain of blocks. */
  type App = seq<Hash> -> ValidatorSet

  datatype System = System(nodes: map<Validator, State>, log: seq<Vote>)

  /** Whatever the chain, the validators outside `correct` hold less than a third of the power. */
  ghost predicate Assumptions(app: App, correct: set<Validator>) {
    forall chain :: app(chain).Valid() && FaultyMinority(app(chain).weights, correct)
  }

  ghost predicate Init(app: App, correct: set<Validator>, sys: System) {
    && sys.log == [] && sys.nodes.Keys == correct
    && forall p :: p in correct ==> sys.nodes[p] == InitialState(p, app([]))
  }

  /** A correct validator handles a timeout it scheduled, a vote that was signed, or any other message. */
  ghost predicate NodeStep(app: App, sys: System, sys': System, p: Validator, env: Env, e: Event) {
    && p in sys.nodes
    && (e.TimeoutFired? ==> e.timeout in sys.nodes[p].timeouts)
    && (e.VoteReceived? ==> e.vote in sys.log)
    && var s' := Handle(sys.nodes[p], env, e);
    && (|s'.chain| > |sys.nodes[p].chain| ==> env.nextVals == app(s'.chain))
    && sys' == System(sys.nodes[p := s'], sys.log + s'.cast)
  }

  /** A faulty validator signs any vote. */
  predicate FaultyStep(sys: System, sys': System, v: Vote) {
    v.voter !in sys.nodes && sys' == System(sys.nodes, sys.log + [v])
  }

  ghost predicate Next(app: App, sys: System, sys': System) {
    (exists p, env, e :: NodeStep(app, sys, sys', p, env, e)) || (exists v :: FaultyStep(sys, sys', v))
  }

  ghost predicate IsRun(app: App, correct: set<Validator>, run: seq<System>) {
    && |run| > 0 && Init(app, correct, run[0])
    && forall i :: 0 <= i < |run| - 1 ==> Next(app, run[i], run[i + 1])
  }

  // ---- The invariant of runs ----

  ghost function QuorumsOf(w: Weights, log: seq<Vote>, h: nat): Quorums {
    Quorums(iset c: Cert | Polka(w, log, h, c.round, c.hash), iset c: Cert | Committed(w, log, h, c.round, c.hash))
  }

  ghost predicate NodeOk(app: App, log: seq<Vote>, chain: seq<Hash>, n: State) {
    && n.height == |n.chain| && n.chain <= chain
    && n.votes.vals == app(n.chain) && VotesOk(log, n.height, n.votes)
    && Inv(QuorumsOf(app(n.chain).weights, log, n.height), log, n.(cast := []))
  }

  ghost predicate ChainOk(app: App, correct: set<Validator>, log: seq<Vote>, chain: seq<Hash>) {
    && (forall h :: 0 <= h <= |chain| ==> CorrectVotes(app(chain[..h]).weights, correct, log, h))
    && (forall h :: 0 <= h < |chain| ==> Settled(app, log, chain, h))
  }

  ghost predicate Settled(app: App, log: seq<Vote>, chain: seq<Hash>, h: nat)
    requires h < |chain|
  {
    chain[h] != NIL && exists r :: Committed(app(chain[..h]).weights, log, h, r, chain[h])
  }

  /** `chain` is the longest chain of blocks applied so far. */
  ghost predicate SystemOk(app: App, correct: set<Validator>, sys: System, chain: seq<Hash>) {
    && sys.nodes.Keys == correct
    && (forall p :: p in correct ==> sys.nodes[p].me == p && NodeOk(app, sys.log, chain, sys.nodes[p]))
    && ChainOk(app, correct, sys.log, chain)
  }

  lemma QuorumsSound(w: Weights, correct: set<Validator>, log: seq<Vote>, h: nat)
    requires CorrectVotes(w, correct, log, h)
    ensures Sound(QuorumsOf(w, log, h))
  {
    var q := QuorumsOf(w, log, h);
    forall c | c in q.commits ensures c.round >= 0 {
      CertifiedRound(w, correct, log, Precommit, h, c.round, c.hash);
    }
    forall c, p | c in q.commits && p in q.polkas && c.hash != NIL && c.round < p.round ensures p.hash == c.hash {
      NoLaterPolka(w, correct, log, h, c.round, c.hash, p.round, p.hash);
    }
    forall c, c' | c in q.commits && c' in q.commits && c.hash != NIL && c'.hash != NIL ensures c.hash == c'.hash {
      OneCommittedBlock(w, correct, log, h, c.round, c.hash, c'.round, c'.hash);
    }
  }

  ghost predicate Within(q: Quorums, q': Quorums) {
    q.polkas <= q'.polkas && q.commits <= q'.commits
  }

  lemma QuorumsGrow(w: Weights, log: seq<Vote>, log': seq<Vote>, h: nat)
    requires log <= log'
    ensures Within(QuorumsOf(w, log, h), QuorumsOf(w, log', h))
  {
    forall c: Cert | Polka(w, log, h, c.round, c.hash) ensures Polka(w, log', h, c.round, c.hash) {
      CertifiedMonotone(w, log, log', Prevote, h, c.round, c.hash);
    }
    forall c: Cert | Committed(w, log, h, c.round, c.hash) ensures Committed(w, log', h, c.round, c.hash) {
      CertifiedMonotone(w, log, log', Precommit, h, c.round, c.hash);
    }
  }

  lemma MajoritiesFromVotes(w: Weights, log: seq<Vote>, h: nat, votes: HeightVotes)
    requires VotesOk(log, h, votes) && votes.vals.weights == w
    ensures MajoritiesOk(QuorumsOf(w, log, h), votes)
  {
    forall k, r | votes.Majority(k, r).Some?
      ensures Certified(w, log, k, h, r, votes.Majority(k, r).value.hash)
    {
      assert SetOk(votes.vals, log, k, h, r, votes.Get(k, r));
    }
  }

  // ---- The invariant of a node as the log grows ----

  /** Nothing `me` voted is in `ext`, so its votes in the longer log are those of the shorter one. */
  lemma GuardsGrow(q: Quorums, q': Quorums, log: seq<Vote>, ext: seq<Vote>, me: Validator, h: nat, lock: Held)
    requires Within(q, q') && forall v :: v in ext ==> v.voter != me
    requires PrecommitsGuarded(q, log, me, h, lock)
    ensures PrecommitsGuarded(q', log + ext, me, h, lock)
  {
    var all := log + ext;
    assert forall i :: |log| <= i < |all| ==> all[i] in ext;
    forall j | IsBlockPrecommit(all, j, me, h) ensures Guarded(q', lock, all[j]) {
      assert IsBlockPrecommit(log, j, me, h);
      assert Guarded(q, lock, log[j]);
    }
  }

  lemma SignerGrows(log: seq<Vote>, ext: seq<Vote>, me: Validator, signed: Option<Vote>, h: nat)
    requires SignerOk(log, me, signed, h) && forall v :: v in ext ==> v.voter != me
    ensures SignerOk(log + ext, me, signed, h)
  {
    var all := log + ext;
    assert forall i :: 0 <= i < |all| && all[i].voter == me ==> i < |log| by {
      assert forall i :: |log| <= i < |all| ==> all[i] in ext;
    }
  }

  lemma PositionGrows(q: Quorums, q': Quorums, log: seq<Vote>, ext: seq<Vote>, s: State)
    requires Within(q, q') && forall v :: v in ext ==> v.voter != s.me
    requires if s.commitRound < 0 then BeforeCommit(log, s) else AfterCommit(q, s)
    ensures if s.commitRound < 0 then BeforeCommit(log + ext, s) else AfterCommit(q', s)
  {
    var all := log + ext;
    assert forall i :: |log| <= i < |all| ==> all[i] in ext;
    assert forall j, k :: IsVote(all, j, s.me, k, s.height) ==> IsVote(log, j, s.me, k, s.height) && all[j] == log[j];
  }

  lemma StoredGrows(q: Quorums, q': Quorums, h: nat, stored: map<nat, Hash>, chain: seq<Hash>)
    requires Within(q, q') && StoredOk(q, h, stored, chain)
    ensures StoredOk(q', h, stored, chain)
  {
  }

  /** The log grows by votes of others. */
  lemma OthersVote(q: Quorums, q': Quorums, log: seq<Vote>, ext: seq<Vote>, s: State)
    requires Inv(q, log, s) && s.cast == [] && Within(q, q')
    requires forall v :: v in ext ==> v.voter != s.me
    ensures Inv(q', log + ext, s)
  {
    assert log + s.cast == log && log + ext + s.cast == log + ext;
    GuardsGrow(q, q', log, ext, s.me, s.height, s.lock);
    SignerGrows(log, ext, s.me, s.signed, s.height);
    PositionGrows(q, q', log, ext, s);
    StoredGrows(q, q', s.height, s.stored, s.chain);
  }

  /** The votes cast by the handler become part of the log. */
  lemma OwnVotes(q: Quorums, q': Quorums, log: seq<Vote>, s: State)
    requires Inv(q, log, s) && Within(q, q')
    ensures Inv(q', log + s.cast, s.(cast := []))
  {
    var all := log + s.cast;
    assert all + [] == all;
    GuardsGrow(q, q', all, [], s.me, s.height, s.lock);
    PositionGrows(q, q', all, [], s.(cast := []));
    StoredGrows(q, q', s.height, s.stored, s.chain);
  }

  /** The state after a block is applied satisfies the invariant of the next height. */
  lemma NextHeight(q: Quorums, q': Quorums, log: seq<Vote>, s: State, s': State, vals: ValidatorSet)
    requires Finalized(q, log, s, s', vals)
    ensures Inv(q', log + s'.cast, s'.(cast := []))
  {
    var all := log + s'.cast;
    assert all + [] == all;
    assert forall k, r :: s'.votes.Majority(k, r).None? by {
      assert forall k, r :: s'.votes.Get(k, r) == NewHeightVotes(vals).Get(k, r);
    }
    assert forall j, k :: !IsVote(all, j, s.me, k, s'.height);
  }

  // ---- The log stays correct ----

  /** Votes of others do not matter to the rules `p` keeps. */
  lemma RulesUnderOthers(w: Weights, p: Validator, log: seq<Vote>, ext: seq<Vote>, h: nat)
    requires VotesCorrectly(w, p, log, h) && forall v :: v in ext ==> v.voter != p
    ensures VotesCorrectly(w, p, log + ext, h)
  {
    var all := log + ext;
    assert forall i :: |log| <= i < |all| ==> all[i] in ext;
    assert forall i :: 0 <= i < |all| && all[i].voter == p ==> i < |log| && all[..i] == log[..i];
    assert forall i, k :: IsVote(all, i, p, k, h) ==> IsVote(log, i, p, k, h);
  }

  lemma BackedInLog(w: Weights, log: seq<Vote>, before: seq<Vote>, h: nat, v: Vote)
    requires log <= before && v.height == h && Backed(QuorumsOf(w, log, h), v)
    ensures Justified(w, before, v)
  {
    if Cert(v.round, v.id.hash) in QuorumsOf(w, log, h).polkas {
      CertifiedMonotone(w, log, before, Prevote, h, v.round, v.id.hash);
    } else {
      var c :| c in QuorumsOf(w, log, h).commits && c.round <= v.round && c.hash == v.id.hash;
      assert Committed(w, log, h, c.round, v.id.hash);
      CommittedByMonotone(w, log, before, h, v.round, v.id.hash);
    }
  }

  lemma OverruledInLog(w: Weights, log: seq<Vote>, before: seq<Vote>, h: nat, r: int, x: Hash)
    requires log <= before && Overruled(QuorumsOf(w, log, h), r, x)
    ensures PolkaAgainst(w, before, h, r, x)
  {
    var c :| c in QuorumsOf(w, log, h).polkas && c.round > r && c.hash != x;
    assert Polka(w, log, h, c.round, c.hash);
    PolkaAgainstMonotone(w, log, before, h, r, x);
  }

  /** The votes cast by a handler of `p` keep the rules of its height. */
  lemma RulesUnderOwn(w: Weights, p: Validator, log: seq<Vote>, cast: seq<Vote>, signed: Option<Vote>, h: nat)
    requires VotesCorrectly(w, p, log, h)
    requires SignerOk(log + cast, p, signed, h) && CastOk(QuorumsOf(w, log, h), log, log + cast, p, h)
    ensures VotesCorrectly(w, p, log + cast, h)
  {
    var all := log + cast;
    forall i | IsVote(all, i, p, Precommit, h) && all[i].id.hash != NIL ensures Justified(w, all[..i], all[i]) {
      if i < |log| {
        assert IsVote(log, i, p, Precommit, h) && all[..i] == log[..i];
      } else {
        assert IsBlockPrecommit(all, i, p, h);
        BackedInLog(w, log, all[..i], h, all[i]);
      }
    }
    forall i, j | IsVote(all, i, p, Prevote, h) && IsVote(all, j, p, Precommit, h)
                  && all[j].id.hash != NIL && all[j].round < all[i].round && all[i].id.hash != all[j].id.hash
      ensures PolkaAgainst(w, all[..i], h, all[j].round, all[j].id.hash)
    {
      assert j < i;
      assert IsBlockPrecommit(all, j, p, h);
      if i < |log| {
        assert IsVote(log, i, p, Prevote, h) && IsVote(log, j, p, Precommit, h) && all[..i] == log[..i];
      } else {
        assert PrevoteRespects(QuorumsOf(w, log, h), all[i], all[j]);
        OverruledInLog(w, log, all[..i], h, all[j].round, all[j].id.hash);
      }
    }
  }

  /** At another height than the one `p` votes at, only the order of its votes is at stake. */
  lemma RulesAtOtherHeight(w: Weights, p: Validator, log: seq<Vote>, cast: seq<Vote>, signed: Option<Vote>, h: nat, k: nat)
    requires VotesCorrectly(w, p, log, k) && k != h
    requires SignerOk(log + cast, p, signed, h) && forall v :: v in cast ==> v.height == h
    ensures VotesCorrectly(w, p, log + cast, k)
  {
    var all := log + cast;
    assert forall i :: |log| <= i < |all| ==> all[i] in cast;
    assert forall i, d :: IsVote(all, i, p, d, k) ==> IsVote(log, i, p, d, k) && all[..i] == log[..i];
  }

  lemma LogKeeps(app: App, correct: set<Validator>, log: seq<Vote>, chain: seq<Hash>,
                 p: Validator, cast: seq<Vote>, signed: Option<Vote>, h: nat)
    requires ChainOk(app, correct, log, chain) && h <= |chain|
    requires SignerOk(log + cast, p, signed, h)
    requires CastOk(QuorumsOf(app(chain[..h]).weights, log, h), log, log + cast, p, h)
    ensures ChainOk(app, correct, log + cast, chain)
  {
    var all := log + cast;
    assert forall i :: 0 <= i < |cast| ==> cast[i] == all[|log| + i];
    forall k | 0 <= k <= |chain| ensures CorrectVotes(app(chain[..k]).weights, correct, all, k) {
      var w := app(chain[..k]).weights;
      assert CorrectVotes(w, correct, log, k);
      forall p' | p' in correct ensures VotesCorrectly(w, p', all, k) {
        if p' != p {
          RulesUnderOthers(w, p', log, cast, k);
        } else if k == h {
          RulesUnderOwn(w, p, log, cast, signed, h);
        } else {
          RulesAtOtherHeight(w, p, log, cast, signed, h, k);
        }
      }
    }
    SettledGrows(app, correct, log, all, chain);
  }

  /** Taking in a signed vote or a peer's claim keeps the invariant of the node. */
  lemma AbsorbKeeps(app: App, log: seq<Vote>, chain: seq<Hash>, n: State, e: Event)
    requires NodeOk(app, log, chain, n)
    requires e.VoteReceived? ==> e.vote in log
    ensures var s := Absorbed(n, e);
            && VotesOk(log, n.height, s.votes) && s.votes.vals == n.votes.vals
            && Inv(QuorumsOf(app(n.chain).weights, log, n.height), log, s)
  {
    var s := Absorbed(n, e);
    AbsorbVotes(log, n, e);
    hide VotesOk;
    MajoritiesFromVotes(app(n.chain).weights, log, n.height, s.votes);
  }

  lemma AbsorbVotes(log: seq<Vote>, n: State, e: Event)
    requires VotesOk(log, n.height, n.votes) && (e.VoteReceived? ==> e.vote in log)
    ensures VotesOk(log, n.height, Absorbed(n, e).votes) && Absorbed(n, e).votes.vals == n.votes.vals
  {
    hide VotesOk;
    if e.VoteReceived? && e.vote.height == n.height {
      AddOk(log, n.height, n.votes, e.vote, e.peer);
    } else if e.PeerMajority? {
      TrackOk(log, n.height, n.votes, e.kind, e.round, e.id);
    }
  }

  lemma SameSetsOk(log: seq<Vote>, h: nat, a: HeightVotes, b: HeightVotes)
    requires VotesOk(log, h, a) && SameSets(a, b)
    ensures VotesOk(log, h, b)
  {
    forall k, r ensures SetOk(b.vals, log, k, h, r, b.Get(k, r)) {
      assert SetOk(a.vals, log, k, h, r, a.Get(k, r));
    }
  }

  /** The other nodes are untouched by a longer log and a longer chain. */
  lemma OtherNodeOk(app: App, log: seq<Vote>, ext: seq<Vote>, chain: seq<Hash>, chain': seq<Hash>, n: State)
    requires NodeOk(app, log, chain, n) && chain <= chain'
    requires forall v :: v in ext ==> v.voter != n.me
    ensures NodeOk(app, log + ext, chain', n)
  {
    hide Inv, VotesOk;
    var w := app(n.chain).weights;
    QuorumsGrow(w, log, log + ext, n.height);
    OthersVote(QuorumsOf(w, log, n.height), QuorumsOf(w, log + ext, n.height), log, ext, n.(cast := []));
    VotesOkMonotone(log, log + ext, n.height, n.votes);
  }

  /** The node that moved, when it is still at the same height. */
  lemma MovedNodeOk(app: App, log: seq<Vote>, chain: seq<Hash>, s: State, s': State)
    requires s.height == |s.chain| && s.chain <= chain && s.votes.vals == app(s.chain) && VotesOk(log, s.height, s.votes)
    requires var q := QuorumsOf(app(s.chain).weights, log, s.height); Inv(q, log, s') && Progress(q, s, s')
    ensures NodeOk(app, log + s'.cast, chain, s')
  {
    var w := app(s.chain).weights;
    SameSetsOk(log, s.height, s.votes, s'.votes);
    hide Inv, VotesOk;
    VotesOkMonotone(log, log + s'.cast, s.height, s'.votes);
    QuorumsGrow(w, log, log + s'.cast, s.height);
    OwnVotes(QuorumsOf(w, log, s.height), QuorumsOf(w, log + s'.cast, s.height), log, s');
  }

  /** The node that moved, when it has applied the block of its height. */
  lemma FinishedNodeOk(app: App, q: Quorums, log: seq<Vote>, chain: seq<Hash>, s: State, s': State, vals: ValidatorSet)
    requires Finalized(q, log, s, s', vals) && vals == app(s'.chain) && vals.Valid() && s'.chain <= chain
    ensures NodeOk(app, log + s'.cast, chain, s')
  {
    var log' := log + s'.cast;
    assert VotesOk(log', s'.height, NewHeightVotes(vals)) by {
      assert forall k, r :: NewHeightVotes(vals).Get(k, r) == EMPTY_SET;
    }
    SameSetsOk(log', s'.height, NewHeightVotes(vals), s'.votes);
    NextHeight(q, QuorumsOf(vals.weights, log', s'.height), log, s, s', vals);
  }

  /** Whichever way a step ends, its votes are in order and keep the rules of the height. */
  lemma StepVotes(q: Quorums, log: seq<Vote>, s: State, s': State, vals: ValidatorSet)
    requires StepOk(q, log, s, s', vals)
    ensures SignerOk(log + s'.cast, s.me, s'.signed, s.height) && CastOk(q, log, log + s'.cast, s.me, s.height)
    ensures s'.me == s.me && forall v :: v in s'.cast ==> v.voter == s.me
  {
    var all := log + s'.cast;
    assert forall i :: 0 <= i < |s'.cast| ==> s'.cast[i] == all[|log| + i];
  }

  lemma OthersOk(app: App, correct: set<Validator>, sys: System, p: Validator, ext: seq<Vote>,
                 chain: seq<Hash>, chain': seq<Hash>)
    requires SystemOk(app, correct, sys, chain) && chain <= chain'
    requires forall v :: v in ext ==> v.voter == p
    ensures forall p' :: p' in correct && p' != p ==> NodeOk(app, sys.log + ext, chain', sys.nodes[p'])
  {
    forall p' | p' in correct && p' != p ensures NodeOk(app, sys.log + ext, chain', sys.nodes[p']) {
      OtherNodeOk(app, sys.log, ext, chain, chain', sys.nodes[p']);
    }
  }

  ghost predicate VotesUpTo(correct: set<Validator>, log: seq<Vote>, h: nat) {
    forall i :: 0 <= i < |log| && log[i].voter in correct ==> log[i].height <= h
  }

  lemma HeightsBounded(app: App, correct: set<Validator>, sys: System, chain: seq<Hash>,
                       p: Validator, cast: seq<Vote>, signed: Option<Vote>, h: nat)
    requires SystemOk(app, correct, sys, chain) && h <= |chain|
    requires SignerOk(sys.log + cast, p, signed, h) && forall v :: v in cast ==> v.voter == p
    ensures VotesUpTo(correct, sys.log + cast, |chain|)
  {
    var all := sys.log + cast;
    forall i | 0 <= i < |all| && all[i].voter in correct ensures all[i].height <= |chain| {
      var p' := all[i].voter;
      if p' != p {
        var n := sys.nodes[p'];
        assert NodeOk(app, sys.log, chain, n);
        assert i < |sys.log| && sys.log + n.(cast := []).cast == sys.log;
        assert SignerOk(sys.log, p', n.signed, n.height);
        assert sys.log[i].voter == p';
      }
    }
  }

  /** A newly committed block extends the chain: at the next height no correct validator has voted. */
  lemma ChainExtends(app: App, correct: set<Validator>, log: seq<Vote>, chain: seq<Hash>, r: int, c: Hash)
    requires Assumptions(app, correct) && ChainOk(app, correct, log, chain) && VotesUpTo(correct, log, |chain|)
    requires c != NIL && Committed(app(chain).weights, log, |chain|, r, c)
    ensures ChainOk(app, correct, log, chain + [c])
  {
    var chain' := chain + [c];
    assert chain[..|chain|] == chain;
    forall h | 0 <= h <= |chain'| ensures CorrectVotes(app(chain'[..h]).weights, correct, log, h) {
      if h <= |chain| {
        assert chain'[..h] == chain[..h];
      } else {
        forall p | p in correct ensures VotesCorrectly(app(chain'[..h]).weights, p, log, h) {
          assert VotesCorrectly(app(chain).weights, p, log, |chain|) by {
            assert CorrectVotes(app(chain[..|chain|]).weights, correct, log, |chain|);
          }
          assert forall i, k :: !IsVote(log, i, p, k, h);
        }
      }
    }
    forall h | 0 <= h < |chain'| ensures Settled(app, log, chain', h) {
      assert chain'[..h] == chain[..h];
      assert h < |chain| ==> Settled(app, log, chain, h);
    }
  }

  /** A committed block is the one already on the chain, or extends it. */
  lemma Extended(app: App, correct: set<Validator>, log: seq<Vote>, chain: seq<Hash>, mine: seq<Hash>, r: int, c: Hash)
    returns (chain': seq<Hash>)
    requires Assumptions(app, correct) && ChainOk(app, correct, log, chain) && VotesUpTo(correct, log, |chain|)
    requires mine <= chain && c != NIL && Committed(app(mine).weights, log, |mine|, r, c)
    ensures mine + [c] <= chain' && chain <= chain' && ChainOk(app, correct, log, chain')
  {
    hide CorrectVotes, Certified;
    var h := |mine|;
    if h < |chain| {
      chain' := chain;
      assert chain[..h] == mine && Settled(app, log, chain, h);
      assert CorrectVotes(app(chain[..h]).weights, correct, log, h);
      var r' :| Committed(app(chain[..h]).weights, log, h, r', chain[h]);
      OneCommittedBlock(app(mine).weights, correct, log, h, r, c, r', chain[h]);
    } else {
      assert mine == chain;
      chain' := chain + [c];
      ChainExtends(app, correct, log, chain, r, c);
    }
  }

  /** The block applied at the end of a height has a precommit quorum. */
  lemma FinalizedBlock(w: Weights, log: seq<Vote>, s: State, s': State, vals: ValidatorSet) returns (r: int, c: Hash)
    requires Finalized(QuorumsOf(w, log, s.height), log, s, s', vals) && |s.chain| == s.height
    ensures c != NIL && Committed(w, log + s'.cast, s.height, r, c)
    ensures s'.chain == s.chain + [c]
  {
    c := s'.chain[s.height];
    r :| Cert(r, c) in QuorumsOf(w, log, s.height).commits;
    CertifiedMonotone(w, log, log + s'.cast, Precommit, s.height, r, c);
  }

  /** The handler of a correct validator ends in a state of the same height, or has applied its block. */
  lemma NodeHandles(app: App, correct: set<Validator>, sys: System, chain: seq<Hash>, p: Validator, env: Env, e: Event)
    requires SystemOk(app, correct, sys, chain) && p in sys.nodes
    requires e.TimeoutFired? ==> e.timeout in sys.nodes[p].timeouts
    requires e.VoteReceived? ==> e.vote in sys.log
    ensures var n := sys.nodes[p];
            StepOk(QuorumsOf(app(n.chain).weights, sys.log, n.height), sys.log, Absorbed(n, e), Handle(n, env, e), env.nextVals)
  {
    hide Handle, Inv, StepOk, VotesOk, QuorumsOf, ChainOk;
    var n := sys.nodes[p];
    assert NodeOk(app, sys.log, chain, n) && n.chain == chain[..n.height];
    HeightSound(app, correct, sys.log, chain, n.height);
    AbsorbKeeps(app, sys.log, chain, n, e);
    HandleKeeps(QuorumsOf(app(n.chain).weights, sys.log, n.height), sys.log, n, env, e);
  }

  lemma BlockApplied(app: App, correct: set<Validator>, log: seq<Vote>, chain: seq<Hash>, s: State, s': State,
                     vals: ValidatorSet)
    returns (chain': seq<Hash>)
    requires Assumptions(app, correct) && ChainOk(app, correct, log + s'.cast, chain)
    requires VotesUpTo(correct, log + s'.cast, |chain|)
    requires s.height == |s.chain| && s.chain <= chain
    requires Finalized(QuorumsOf(app(s.chain).weights, log, s.height), log, s, s', vals)
    requires |s'.chain| > |s.chain| ==> vals == app(s'.chain)
    ensures chain <= chain' && ChainOk(app, correct, log + s'.cast, chain') && NodeOk(app, log + s'.cast, chain', s')
  {
    hide Finalized, ChainOk, Assumptions, QuorumsOf, Committed, NodeOk, VotesUpTo;
    var r, c := FinalizedBlock(app(s.chain).weights, log, s, s', vals);
    chain' := Extended(app, correct, log + s'.cast, chain, s.chain, r, c);
    AppValid(app, correct, s'.chain);
    FinishedNodeOk(app, QuorumsOf(app(s.chain).weights, log, s.height), log, chain', s, s', vals);
  }

  /** One step of a correct validator. */
  lemma NodeStepKeeps(app: App, correct: set<Validator>, sys: System, sys': System, chain: seq<Hash>,
                      p: Validator, env: Env, e: Event)
    returns (chain': seq<Hash>)
    requires Assumptions(app, correct) && SystemOk(app, correct, sys, chain) && NodeStep(app, sys, sys', p, env, e)
    ensures SystemOk(app, correct, sys', chain')
  {
    hide Handle, Inv, Progress, Finalized, VotesOk, ChainOk, SignerOk, CastOk, Assumptions, QuorumsOf, Committed;
    var n, log := sys.nodes[p], sys.log;
    var s, s' := Absorbed(n, e), Handle(n, env, e);
    var h, w := n.height, app(n.chain).weights;
    var q := QuorumsOf(w, log, h);
    assert NodeOk(app, log, chain, n) && n.chain == chain[..h];
    AbsorbKeeps(app, log, chain, n, e);
    NodeHandles(app, correct, sys, chain, p, env, e);
    StepVotes(q, log, s, s', env.nextVals);
    LogKeeps(app, correct, log, chain, p, s'.cast, s'.signed, h);
    if Inv(q, log, s') && Progress(q, s, s') {
      chain' := chain;
      MovedNodeOk(app, log, chain, s, s');
    } else {
      HeightsBounded(app, correct, sys, chain, p, s'.cast, s'.signed, h);
      chain' := BlockApplied(app, correct, log, chain, s, s', env.nextVals);
    }
    OthersOk(app, correct, sys, p, s'.cast, chain, chain');
  }

  lemma HeightSound(app: App, correct: set<Validator>, log: seq<Vote>, chain: seq<Hash>, h: nat)
    requires ChainOk(app, correct, log, chain) && h <= |chain|
    ensures Sound(QuorumsOf(app(chain[..h]).weights, log, h))
  {
    assert CorrectVotes(app(chain[..h]).weights, correct, log, h);
    QuorumsSound(app(chain[..h]).weights, correct, log, h);
  }

  lemma AppValid(app: App, correct: set<Validator>, chain: seq<Hash>)
    requires Assumptions(app, correct)
    ensures app(chain).Valid() && FaultyMinority(app(chain).weights, correct)
  {
  }

  lemma FaultyStepKeeps(app: App, correct: set<Validator>, sys: System, sys': System, chain: seq<Hash>, v: Vote)
    requires SystemOk(app, correct, sys, chain) && FaultyStep(sys, sys', v)
    ensures SystemOk(app, correct, sys', chain)
  {
    OthersOk(app, correct, sys, v.voter, [v], chain, chain);
    forall k | 0 <= k <= |chain| ensures CorrectVotes(app(chain[..k]).weights, correct, sys'.log, k) {
      var w := app(chain[..k]).weights;
      assert CorrectVotes(w, correct, sys.log, k);
      forall p | p in correct ensures VotesCorrectly(w, p, sys'.log, k) {
        RulesUnderOthers(w, p, sys.log, [v], k);
      }
    }
    SettledGrows(app, correct, sys.log, sys'.log, chain);
  }

  lemma SettledGrows(app: App, correct: set<Validator>, log: seq<Vote>, log': seq<Vote>, chain: seq<Hash>)
    requires ChainOk(app, correct, log, chain) && log <= log'
    ensures forall k :: 0 <= k < |chain| ==> Settled(app, log', chain, k)
  {
    forall k | 0 <= k < |chain| ensures Settled(app, log', chain, k) {
      assert Settled(app, log, chain, k);
      var r :| Committed(app(chain[..k]).weights, log, k, r, chain[k]);
      CertifiedMonotone(app(chain[..k]).weights, log, log', Precommit, k, r, chain[k]);
      assert Committed(app(chain[..k]).weights, log', k, r, chain[k]);
    }
  }

  lemma InitialNodeOk(app: App, p: Validator)
    requires app([]).Valid()
    ensures NodeOk(app, [], [], InitialState(p, app([])))
  {
    hide QuorumsOf, Overruled, Backed;
    var n := InitialState(p, app([]));
    assert forall k, r :: n.votes.Get(k, r) == EMPTY_SET;
    assert forall k, r :: n.votes.Majority(k, r).None?;
  }

  lemma InitOk(app: App, correct: set<Validator>, sys: System)
    requires Assumptions(app, correct) && Init(app, correct, sys)
    ensures SystemOk(app, correct, sys, [])
  {
    hide NodeOk;
    forall p | p in correct ensures NodeOk(app, [], [], sys.nodes[p]) {
      InitialNodeOk(app, p);
    }
  }

  lemma {:induction false} RunOk(app: App, correct: set<Validator>, run: seq<System>, i: nat) returns (chain: seq<Hash>)
    requires Assumptions(app, correct) && IsRun(app, correct, run) && i < |run|
    ensures SystemOk(app, correct, run[i], chain)
  {
    if i == 0 {
      chain := [];
      InitOk(app, correct, run[0]);
    } else {
      chain := RunOk(app, correct, run, i - 1);
      var sys, sys' := run[i - 1], run[i - 1 + 1];
      assert Next(app, sys, sys');
      if exists v :: FaultyStep(sys, sys', v) {
        var v :| FaultyStep(sys, sys', v);
        FaultyStepKeeps(app, correct, sys, sys', chain, v);
      } else {
        var p, env, e :| NodeStep(app, sys, sys', p, env, e);
        chain := NodeStepKeeps(app, correct, sys, sys', chain, p, env, e);
      }
    }
  }

  /** The assumptions can be met: for any power, kept at all heights, of which less than a third is faulty, there are runs. */
  lemma RunsExist(w: Weights, correct: set<Validator>) returns (app: App, run: seq<System>)
    requires FaultyMinority(w, correct)
    ensures Assumptions(app, correct) && IsRun(app, correct, run)
  {
    var vals := ValidatorSet(w, Total(w));
    app := (chain: seq<Hash>) => vals;
    run := [System(map p | p in correct :: InitialState(p, vals), [])];
  }

  // ---- Main results ----

  /** In every state of every run, two correct validators that stored a block at a height stored the same one. */
  lemma AgreementOnBlocks(app: App, correct: set<Validator>, run: seq<System>, i: nat, p: Validator, p': Validator, h: nat)
    requires Assumptions(app, correct) && IsRun(app, correct, run) && i < |run|
    requires p in run[i].nodes && p' in run[i].nodes
    requires h in run[i].nodes[p].stored && h in run[i].nodes[p'].stored
    ensures run[i].nodes[p].stored[h] == run[i].nodes[p'].stored[h]
  {
    var chain := RunOk(app, correct, run, i);
    var r := StoredIsCommitted(app, correct, run[i], chain, p, h);
    var r' := StoredIsCommitted(app, correct, run[i], chain, p', h);
    assert CorrectVotes(app(chain[..h]).weights, correct, run[i].log, h);
    OneCommittedBlock(app(chain[..h]).weights, correct, run[i].log, h,
                      r, run[i].nodes[p].stored[h], r', run[i].nodes[p'].stored[h]);
  }

  /** The chains that correct validators have applied are prefixes of one another. */
  lemma AgreementOnChains(app: App, correct: set<Validator>, run: seq<System>, i: nat, p: Validator, p': Validator)
    requires Assumptions(app, correct) && IsRun(app, correct, run) && i < |run|
    requires p in run[i].nodes && p' in run[i].nodes
    ensures run[i].nodes[p].chain <= run[i].nodes[p'].chain || run[i].nodes[p'].chain <= run[i].nodes[p].chain
  {
    var chain := RunOk(app, correct, run, i);
    assert NodeOk(app, run[i].log, chain, run[i].nodes[p]) && NodeOk(app, run[i].log, chain, run[i].nodes[p']);
  }

  lemma StoredIsCommitted(app: App, correct: set<Validator>, sys: System, chain: seq<Hash>, p: Validator, h: nat)
    returns (r: int)
    requires SystemOk(app, correct, sys, chain) && p in correct && h in sys.nodes[p].stored
    ensures h <= |chain| && sys.nodes[p].stored[h] != NIL
    ensures Committed(app(chain[..h]).weights, sys.log, h, r, sys.nodes[p].stored[h])
  {
    var n := sys.nodes[p];
    assert NodeOk(app, sys.log, chain, n);
    if h < n.height {
      assert Settled(app, sys.log, chain, h);
      r :| Committed(app(chain[..h]).weights, sys.log, h, r, chain[h]);
    } else {
      assert chain[..h] == n.chain;
      r :| Cert(r, n.stored[h]) in QuorumsOf(app(n.chain).weights, sys.log, h).commits;
    }
  }

  /** In every state of every run a correct validator casts at most one vote per height, round and kind. */
  lemma OneVotePerRound(app: App, correct: set<Validator>, run: seq<System>, i: nat, v: Vote, v': Vote)
    requires Assumptions(app, correct) && IsRun(app, correct, run) && i < |run|
    requires v in run[i].log && v' in run[i].log && v.voter in correct && v'.voter == v.voter
    requires v.height == v'.height && v.round == v'.round && v.kind == v'.kind
    ensures v == v'
  {
    var chain := RunOk(app, correct, run, i);
    assert CorrectVotes(app(chain[..0]).weights, correct, run[i].log, 0);
    assert VotesCorrectly(app(chain[..0]).weights, v.voter, run[i].log, 0);
    var a :| 0 <= a < |run[i].log| && run[i].log[a] == v;
    var b :| 0 <= b < |run[i].log| && run[i].log[b] == v';
    if a < b {
      assert Earlier(run[i].log[a], run[i].log[b]) || run[i].log[a] == run[i].log[b];
    } else if b < a {
      assert Earlier(run[i].log[b], run[i].log[a]) || run[i].log[b] == run[i].log[a];
    }
  }

  /** In no run does a correct validator, before Commit, ask its signer for a vote not later than the last one it signed. */
  lemma NeverAskedTwice(app: App, correct: set<Validator>, run: seq<System>, i: nat, p: Validator)
    requires Assumptions(app, correct) && IsRun(app, correct, run) && i < |run| && p in run[i].nodes
    ensures !run[i].nodes[p].askedTwice
  {
    var chain := RunOk(app, correct, run, i);
    assert NodeOk(app, run[i].log, chain, run[i].nodes[p]);
  }

  /** In every state of every run a held lock has a polka; before Commit its round has been precommitted. */
  lemma LockJustified(app: App, correct: set<Validator>, run: seq<System>, i: nat, p: Validator)
    requires Assumptions(app, correct) && IsRun(app, correct, run) && i < |run| && p in run[i].nodes
    requires run[i].nodes[p].lock.block.Some?
    ensures var n := run[i].nodes[p];
            && n.lock.block.value != NIL
            && Polka(app(n.chain).weights, run[i].log, n.height, n.lock.round, n.lock.block.value)
            && (n.commitRound < 0 ==> Reached(n, n.lock.round, 6))
  {
    var chain := RunOk(app, correct, run, i);
    assert NodeOk(app, run[i].log, chain, run[i].nodes[p]);
  }

  /**
   While a correct validator stays at a height and before Commit, it never goes back in round and
   step, and it gives up a lock only when a later round has a polka for something else.
   */
  lemma LockGivenUpOnlyToPolka(app: App, correct: set<Validator>, run: seq<System>, i: nat, p: Validator)
    requires Assumptions(app, correct) && IsRun(app, correct, run) && i + 1 < |run|
    requires p in run[i].nodes && p in run[i + 1].nodes
    requires run[i + 1].nodes[p].height == run[i].nodes[p].height && run[i + 1].nodes[p].commitRound < 0
    ensures var n, n' := run[i].nodes[p], run[i + 1].nodes[p];
            && n.commitRound < 0 && NotEarlier(n, n')
            && (n.lock.block.Some? ==>
                  || PolkaAgainst(app(n.chain).weights, run[i].log, n.height, n.lock.round, n.lock.block.value)
                  || (n'.lock.block == n.lock.block && n'.lock.round >= n.lock.round))
  {
    hide Handle, SystemOk, StepOk, Assumptions, Init, QuorumsOf, PolkaAgainst, Overruled;
    var chain := RunOk(app, correct, run, i);
    var sys, sys' := run[i], run[i + 1];
    var n, n' := sys.nodes[p], sys'.nodes[p];
    assert Next(app, sys, sys');
    if n' != n {
      var p', env, e :| NodeStep(app, sys, sys', p', env, e);
      var q := QuorumsOf(app(n.chain).weights, sys.log, n.height);
      NodeHandles(app, correct, sys, chain, p, env, e);
      StaysPut(q, sys.log, Absorbed(n, e), n', env.nextVals);
      if n.lock.block.Some? && Overruled(q, n.lock.round, n.lock.block.value) {
        OverruledInLog(app(n.chain).weights, sys.log, sys.log, n.height, n.lock.round, n.lock.block.value);
      }
    }
  }

  lemma StaysPut(q: Quorums, log: seq<Vote>, s: State, s': State, vals: ValidatorSet)
    requires StepOk(q, log, s, s', vals) && s'.height == s.height
    ensures Progress(q, s, s')
  {
  }
}
