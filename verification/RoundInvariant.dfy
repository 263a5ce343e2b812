/** What every step of a correct validator keeps, at one height and against one log of votes. */
module RoundInvariant {
  import opened Options
  import opened Quorum
  import opened VoteLog
  import opened VoteSets
  import opened RoundSteps

  /** A round and the hash that more than two thirds of the power voted for in it. */
  datatype Cert = Cert(round: int, hash: Hash)

  /** The polkas and precommit quorums of one height that the log holds. */
  datatype Quorums = Quorums(polkas: iset<Cert>, commits: iset<Cert>)

  /** What the log of correct validators guarantees about them. */
  ghost predicate Sound(q: Quorums) {
    && (forall c :: c in q.commits ==> c.round >= 0)
    && (forall c, p :: c in q.commits && p in q.polkas && c.hash != NIL && c.round < p.round ==> p.hash == c.hash)
    && (forall c, c' :: c in q.commits && c' in q.commits && c.hash != NIL && c'.hash != NIL ==> c.hash == c'.hash)
  }

  /** After round `r` there is a polka for something other than `x`. */
  ghost predicate Overruled(q: Quorums, r: int, x: Hash) {
    exists p :: p in q.polkas && p.round > r && p.hash != x
  }

  /** At round `r` or before there is a precommit quorum for `x`. */
  ghost predicate SettledBy(q: Quorums, r: int, x: Hash) {
    exists c :: c in q.commits && c.round <= r && c.hash == x
  }

  /** A precommit for a block rests on a polka of its round, or on a precommit quorum no later. */
  ghost predicate Backed(q: Quorums, v: Vote) {
    Cert(v.round, v.id.hash) in q.polkas || SettledBy(q, v.round, v.id.hash)
  }

  /** Majorities seen by the node are quorums of the log. */
  ghost predicate MajoritiesOk(q: Quorums, votes: HeightVotes) {
    && (forall r :: votes.Majority(Prevote, r).Some? ==> Cert(r, votes.Majority(Prevote, r).value.hash) in q.polkas)
    && (forall r :: votes.Majority(Precommit, r).Some? ==> Cert(r, votes.Majority(Precommit, r).value.hash) in q.commits)
  }

  /** The signer's last vote is the latest of the validator's votes, which never go back. */
  ghost predicate SignerOk(all: seq<Vote>, me: Validator, signed: Option<Vote>, h: nat) {
    && (forall i :: 0 <= i < |all| && all[i].voter == me ==>
          && signed.Some?
          && (Earlier(all[i], signed.value) || all[i] == signed.value)
          && all[i].height <= h && all[i].round >= 0)
    && Ordered(me, all)
    && (signed.Some? ==> signed.value.voter == me && signed.value in all)
  }

  ghost predicate IsBlockPrecommit(votes: seq<Vote>, j: int, p: Validator, h: nat) {
    IsVote(votes, j, p, Precommit, h) && votes[j].id.hash != NIL
  }

  ghost predicate PrevoteRespects(q: Quorums, v: Vote, c: Vote) {
    c.round < v.round && v.id.hash != c.id.hash ==> Overruled(q, c.round, c.id.hash)
  }

  /** The votes cast by the running handler, those of `all` after `log`, obey the voting rules. */
  ghost predicate CastOk(q: Quorums, log: seq<Vote>, all: seq<Vote>, me: Validator, h: nat) {
    && (forall i :: |log| <= i < |all| ==> all[i].voter == me && all[i].height == h)
    && (forall i :: |log| <= i && IsBlockPrecommit(all, i, me, h) ==> Backed(q, all[i]))
    && (forall i, j :: |log| <= i && IsVote(all, i, me, Prevote, h) && IsBlockPrecommit(all, j, me, h) ==>
          PrevoteRespects(q, all[i], all[j]))
  }

  /** A precommitted block stays locked until a later polka goes against it. */
  ghost predicate Guarded(q: Quorums, lock: Held, v: Vote) {
    || Overruled(q, v.round, v.id.hash)
    || (lock.block == Some(v.id.hash) && (lock.round >= v.round || SettledBy(q, lock.round, v.id.hash)))
  }

  ghost predicate PrecommitsGuarded(q: Quorums, all: seq<Vote>, me: Validator, h: nat, lock: Held) {
    forall j :: IsBlockPrecommit(all, j, me, h) ==> Guarded(q, lock, all[j])
  }

  /** A held lock has a polka for that block at the locked round. */
  ghost predicate LockHasPolka(q: Quorums, lock: Held) {
    lock.block.Some? ==> lock.block.value != NIL && Cert(lock.round, lock.block.value) in q.polkas
  }

  /** Round `r` at a step of at least `rank` has been reached. */
  predicate Reached(s: State, r: int, rank: nat) {
    r < s.round || (r == s.round && rank <= Rank(s.step))
  }

  /** Until Commit, votes, lock and pending timeouts are no later than the current round and step. */
  ghost predicate BeforeCommit(all: seq<Vote>, s: State) {
    && s.step != CommitStep
    && (forall j :: IsVote(all, j, s.me, Precommit, s.height) ==> Reached(s, all[j].round, 6))
    && (forall j :: IsVote(all, j, s.me, Prevote, s.height) ==> Reached(s, all[j].round, 4))
    && (s.lock.block.Some? ==> Reached(s, s.lock.round, 6))
    && (forall t :: t in s.timeouts && t.height == s.height ==> t.round <= s.round)
  }

  /** From Commit on there is a precommit quorum for a block, and the state only moves past its round. */
  ghost predicate AfterCommit(q: Quorums, s: State) {
    && (exists c :: c != NIL && Cert(s.commitRound, c) in q.commits)
    && s.commitRound <= s.round
    && (s.round == s.commitRound <==> s.step == CommitStep)
  }

  ghost predicate Decided(q: Quorums, c: Hash) {
    c != NIL && exists r :: Cert(r, c) in q.commits
  }

  ghost predicate StoredOk(q: Quorums, h: nat, stored: map<nat, Hash>, chain: seq<Hash>) {
    && h == |chain|
    && (forall k :: k in stored ==> k <= h)
    && (forall k :: k in stored && k < h ==> stored[k] == chain[k])
    && (h in stored ==> Decided(q, stored[h]))
  }

  /** The part of the invariant that does not depend on the round and step. */
  ghost predicate Core(q: Quorums, log: seq<Vote>, s: State) {
    var all := log + s.cast;
    && MajoritiesOk(q, s.votes)
    && (forall t :: t in s.timeouts ==> t.height <= s.height)
    && SignerOk(all, s.me, s.signed, s.height)
    && CastOk(q, log, all, s.me, s.height)
    && PrecommitsGuarded(q, all, s.me, s.height, s.lock)
    && LockHasPolka(q, s.lock)
    && StoredOk(q, s.height, s.stored, s.chain)
  }

  ghost predicate Inv(q: Quorums, log: seq<Vote>, s: State) {
    && s.round >= 0 && !s.askedTwice
    && Core(q, log, s)
    && (if s.commitRound < 0 then BeforeCommit(log + s.cast, s) else AfterCommit(q, s))
  }

  ghost predicate Context(q: Quorums, log: seq<Vote>, s: State) {
    Sound(q) && Inv(q, log, s)
  }

  // ---- Two-state properties ----

  predicate NotEarlier(s: State, s': State) {
    s.round < s'.round || (s.round == s'.round && Rank(s.step) <= Rank(s'.step))
  }

  ghost predicate SameSets(a: HeightVotes, b: HeightVotes) {
    a.vals == b.vals && forall k, r :: a.Get(k, r) == b.Get(k, r)
  }

  /** While at the same height and before Commit: progress only, and a lock is kept or overruled. */
  ghost predicate Progress(q: Quorums, s: State, s': State) {
    && s'.height == s.height && s'.me == s.me && s'.chain == s.chain && SameSets(s.votes, s'.votes)
    && (s'.commitRound < 0 ==>
          && s.commitRound < 0
          && NotEarlier(s, s')
          && (s.lock.block.Some? ==>
                || Overruled(q, s.lock.round, s.lock.block.value)
                || (s'.lock.block == s.lock.block && s'.lock.round >= s.lock.round)))
  }

  /** The block of this height is applied and the next height is about to start. */
  ghost predicate Finalized(q: Quorums, log: seq<Vote>, s: State, s': State, vals: ValidatorSet) {
    var all := log + s'.cast;
    && s'.me == s.me && s'.height == s.height + 1 && !s'.askedTwice
    && |s'.chain| == s'.height && s'.chain[..s.height] == s.chain && Decided(q, s'.chain[s.height])
    && (forall k :: k in s'.stored ==> k <= s.height && s'.stored[k] == s'.chain[k])
    && SignerOk(all, s.me, s'.signed, s.height) && CastOk(q, log, all, s.me, s.height)
    && SameSets(s'.votes, NewHeightVotes(vals))
    && s'.lock == NOTHING_HELD && s'.commitRound < 0 && s'.prop.pol.None?
    && s'.round == 0 && Rank(s'.step) <= 3 && s'.votes.round >= 0
    && (s'.step == NewHeight ==> s'.votes.round == 0)
    && (forall t :: t in s'.timeouts ==> t.height <= s'.height && (t.height == s'.height ==> t.round <= 0))
  }

  lemma ProgressTransitive(q: Quorums, a: State, b: State, c: State)
    requires Progress(q, a, b) && Progress(q, b, c)
    ensures Progress(q, a, c)
  {
    if c.commitRound < 0 && a.lock.block.Some? && b.lock.block == a.lock.block
       && Overruled(q, b.lock.round, b.lock.block.value) && b.lock.round >= a.lock.round {
      var p :| p in q.polkas && p.round > b.lock.round && p.hash != b.lock.block.value;
      assert Overruled(q, a.lock.round, a.lock.block.value);
    }
  }

  // ---- Signing ----

  lemma SignOk(all: seq<Vote>, me: Validator, signed: Option<Vote>, h: nat, v: Vote)
    requires SignerOk(all, me, signed, h)
    requires v.voter == me && v.height <= h && v.round >= 0 && SignerAccepts(signed, v)
    ensures SignerOk(all + [v], me, Some(v), h)
  {
  }

  /** Before Commit the signer never refuses: the vote is later than every vote before. */
  lemma SignerNeverRefuses(q: Quorums, log: seq<Vote>, s: State, k: Kind, id: BlockId)
    requires Inv(q, log, s) && s.commitRound < 0
    requires if k == Prevote then Rank(s.step) < 4 else Rank(s.step) < 6
    ensures s.signed.None? || Earlier(s.signed.value, Vote(s.me, k, s.height, s.round, id))
  {
    if s.signed.Some? {
      var all := log + s.cast;
      var i :| 0 <= i < |all| && all[i] == s.signed.value;
      assert IsVote(all, i, s.me, all[i].kind, all[i].height);
    }
  }

  /** So a vote that is due leaves no trace of having been asked for again. */
  lemma NotAskedTwice(q: Quorums, log: seq<Vote>, s: State, env: Env, k: Kind, id: BlockId, lock: Held, prop: Proposed)
    requires Inv(q, log, s)
    requires s.commitRound < 0 ==> if k == Prevote then Rank(s.step) < 4 else Rank(s.step) < 6
    ensures !SignAddVote(s.(lock := lock, prop := prop), env, k, id).askedTwice
  {
    if s.commitRound < 0 {
      SignerNeverRefuses(q, log, s, k, id);
    }
  }

  /** Casting a vote that obeys the rules keeps the core of the invariant. */
  lemma CastKeepsCore(q: Quorums, log: seq<Vote>, s: State, env: Env, k: Kind, id: BlockId)
    requires Core(q, log, s) && s.round >= 0
    requires k == Precommit && id.hash != NIL ==>
               var v := Vote(s.me, k, s.height, s.round, id);
               Backed(q, v) && Guarded(q, s.lock, v)
    requires k == Prevote && s.lock.block.Some? ==> s.lock.block.value == id.hash
    ensures Core(q, log, SignAddVote(s, env, k, id))
  {
    var v := Vote(s.me, k, s.height, s.round, id);
    var s' := SignAddVote(s, env, k, id);
    if s'.cast != s.cast {
      var all, all' := log + s.cast, log + s'.cast;
      assert all' == all + [v];
      SignOk(all, s.me, s.signed, s.height, v);
      forall i, j | |log| <= i && IsVote(all', i, s.me, Prevote, s.height) && IsBlockPrecommit(all', j, s.me, s.height)
        ensures PrevoteRespects(q, all'[i], all'[j])
      {
        if j == |all| {
          assert Earlier(all'[i], all'[j]) || all'[i] == all'[j];
        } else {
          assert IsBlockPrecommit(all, j, s.me, s.height);
          if i < |all| {
            assert IsVote(all, i, s.me, Prevote, s.height);
          } else {
            assert Guarded(q, s.lock, all[j]);
          }
        }
      }
      forall i | IsBlockPrecommit(all', i, s.me, s.height)
        ensures |log| <= i ==> Backed(q, all'[i])
        ensures Guarded(q, s.lock, all'[i])
      {
        assert i < |all| ==> IsBlockPrecommit(all, i, s.me, s.height);
      }
    }
  }

  // ---- Polkas and locks ----

  /** After Commit a later polka can only be for the committed block. */
  lemma PolkaAfterCommit(q: Quorums, log: seq<Vote>, s: State, round: int, u: Hash)
    requires Context(q, log, s) && s.commitRound >= 0
    requires Cert(round, u) in q.polkas && round > s.commitRound
    ensures u != NIL && Cert(s.commitRound, u) in q.commits
  {
    var c :| c != NIL && Cert(s.commitRound, c) in q.commits;
    assert Cert(round, u).hash == c;
  }

  predicate MayPrecommit(s: State, round: int) {
    s.round < round || (s.round == round && Rank(s.step) < 6)
  }

  /** A polka seen when entering Precommit, against the lock, is later than the lock. */
  lemma PolkaAfterLock(q: Quorums, log: seq<Vote>, s: State, round: int, u: Hash)
    requires Context(q, log, s) && MayPrecommit(s, round)
    requires Cert(round, u) in q.polkas
    requires s.lock.block.Some? && s.lock.block.value != u
    ensures s.lock.round < round
  {
    if s.commitRound >= 0 && s.lock.round >= round {
      PolkaAfterCommit(q, log, s, round, u);
      assert false;
    }
  }

  /** A later polka against the lock frees every own precommit, so any lock state guards them. */
  lemma LockOverruled(q: Quorums, log: seq<Vote>, s: State, round: int, u: Hash, lock: Held)
    requires Context(q, log, s)
    requires Cert(round, u) in q.polkas && s.lock.block != Some(u)
    requires s.lock.block.Some? ==> s.lock.round < round
    ensures PrecommitsGuarded(q, log + s.cast, s.me, s.height, lock)
    ensures s.lock.block.Some? ==> Overruled(q, s.lock.round, s.lock.block.value)
  {
    var all := log + s.cast;
    forall j | IsBlockPrecommit(all, j, s.me, s.height)
      ensures Overruled(q, all[j].round, all[j].id.hash)
    {
      var x := all[j].id.hash;
      assert Guarded(q, s.lock, all[j]);
      if s.lock.block == Some(x) && s.lock.round >= all[j].round {
        assert Cert(round, u).round > all[j].round;
      }
    }
  }
}
