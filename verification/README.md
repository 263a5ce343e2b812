# Smite: a Dafny model of a Tendermint node

Smite is a Tendermint node in C++. This project models the parts of it where correctness is hardest to see and proves
what they promise. It is plain Dafny 4.11; verify it with `dafny verify dfyconfig.toml`.

## The parts

**Consensus.** `RoundSteps` is the round state machine of one validator as transition functions: proposals, block
parts, votes and timeouts move it through the steps of a round, lock and unlock blocks, cast votes and finalise blocks.
A handler that throws leaves the state with `thrown` set. `ConsensusState` is the same machine as an object whose
methods update its fields. Each method is proved equal to its transition function and carries what `HandlerEffects` and
`StepAnswers` say a caller can rely on; `Handle` carries the invariant of the runs. `StepAnswers` tells what each step
and handler answers: which vote is cast, what is locked, which round is reached, what is stored. `Agreement` puts many validators together: correct ones handle scheduled timeouts, signed votes and arbitrary other messages in any order; faulty ones,
with less than a third of the voting power, sign what they like. The validator set of a height is what the application
yields after the chain so far. Votes of a height are a log that only grows; `VoteLog` derives from the rules that correct
voters obey that only one block can be committed, and `RoundInvariant` and `RoundPreservation` show that every handler
obeys those rules. Agreement is proved without assuming that a node stops voting once it has entered Commit: the signer,
which never signs below the last height, round and step it signed, is part of the model; the field `askedTwice` records
whether a handler relies on it before Commit, and no run sets it.

**Undoable key/value store.** `KvDatabase` is an ordered store with atomic batches. `UndoStack` keeps undo segments in
that store; its ghost field `base` is the stack of snapshots that the segments stand for. `WriteSession` is the
write-back cache with its linked list of changes, `ViewIterator` the iterator with one cursor in the cache and one in
the database.

**Session stack.** `SessionCache` is one session over the base store, with the flags that say whether an entry's
neighbours are cached. `SessionStack` is a stack of sessions, specified as a stack of plain maps. Keys are compared
eight bytes at a time in `SharedBytes`.

**Authenticated trees.** `JmtStore`, `JmtForest`, `JmtSpans`, `JmtTree` and `JmtHistory` are the Jellyfish Merkle tree:
nodes under (version, path) keys, the canonical nibble trie of a key/value map, the two insertion algorithms, and
reading at a version. There a hash is kept as the term it is computed from, so that equal terms mean equal hashes for any
hash function; `JmtDigest` evaluates the terms as the code does and shows the converse up to collisions, and `JmtSparse`
that the result is the root of a binary sparse Merkle tree. `MerkleTree`
and `MerkleProof` are the tree of RFC 6962, sections 2.1 and 2.1.1, over an arbitrary hash function with outputs of 32
bytes, with the proof builder on nodes linked by parent and sibling pointers.

**Codecs and time.** `Rlp`, `RlpForms`, `RlpShortest` and `RlpStream` (Appendix B of the Ethereum Yellow Paper), `Varint`
(section 7.6 of DWARF 5), `Scale`, and the weighted median of commit timestamps in `MedianTime`.

## Where the code does less than it seems to promise

- A Merkle proof built by the code is not always accepted: `Bytes::empty` takes an all-zero hash for an absent one.
  `MerkleTree.ZeroHashRejected` is an example and `MerkleTree.Completeness` the exact condition.
- A LEB128 input of maximal length need not be what the writer emits, because the last byte is not checked:
  `Varint.PaddedZeroAccepted` is an example and `Varint.FullLengthCanonical` the exact condition.
- `enter_prevote_wait` throws when two thirds of any prevotes are there (`PrevoteWaiting.PrevoteWaitExactly`), where its
  message says the opposite. Its only caller calls it under that condition, so the PrevoteWait step is never reached
  (`PrevoteWaiting.NeverWaitsForPrevotes`). The model follows the code.
- A conflicting vote should count only for a block that a peer claims to have a majority. It counts only for a block that
  no peer claims: `VoteSets.ClaimedBlockRefused` is an example and `VoteSets.CountedExactly` the exact condition.
- RLP decoding of a record subtracts what its fields use from the size in its header, but the unsigned result is never
  found too small: `RlpShortest.RecordSizeUnchecked` is an example and `RlpShortest.RecordExactly` the exact condition.
  The size left in a list wraps in the same way, which needs inputs of 2^64 bytes (`RlpShortest.LongListWraps`).
- The median time is bounded by correct timestamps if and only if nobody is faulty or the faulty weight is below half of
  the total, rounded down (`MedianTime.BftTimeExactly`); from half on the faulty voters can move it below all of them.

## Model

| member | source | states |
|---|---|---|
| `Agreement.AgreementOnBlocks` | src/noir/consensus/consensus_state.cpp:942-1027 | in every state of every run, with less than a third of the power faulty, two correct validators that stored a block at a height stored the same block |
| `Agreement.AgreementOnChains` | src/noir/consensus/consensus_state.cpp:959-1027 | in every state of every run, of the chains two correct validators have applied one is a prefix of the other |
| `Agreement.OneVotePerRound` | src/noir/consensus/consensus_state.cpp:702-742 | in every state of every run, a correct validator has signed at most one vote for a height, round and kind |
| `Agreement.LockJustified` | src/noir/consensus/consensus_state.cpp:786-862 | in every state of every run, a held lock has a prevote quorum (polka) for that block at the locked round, and before Commit the locked round is past, or current with Precommit reached |
| `Agreement.LockGivenUpOnlyToPolka` | src/noir/consensus/consensus_state.cpp:1226-1241 | from one state of a run to the next, at one height and before Commit, round and step never go back, and a lock is kept (for its block, at its round or a later one) unless a strictly later round has a polka for something else or nil |
| `Agreement.RunOk` | src/noir/consensus/consensus_state.cpp:469-504 | every state of every run satisfies the system invariant, for a chain that all correct validators have a prefix of |
| `Agreement.NeverAskedTwice` | src/noir/consensus/consensus_state.cpp:702-784 | in no run does a correct validator, before Commit, ask its signer for a vote that is not later than the last one signed, so the handlers themselves cast at most one prevote and one precommit per round |
| `SampleRun.StoringRun` | src/noir/consensus/consensus_state.cpp:959-1027 | there is a run in which a correct validator prevotes, locks, precommits and stores a block, so the results about stored blocks are not empty |
| `PrevoteWaiting.PrevoteWaitExactly` | src/noir/consensus/consensus_state.cpp:744-766 | an accepted enter_prevote_wait throws if and only if two thirds of the power has prevoted, and otherwise waits |
| `PrevoteWaiting.HandleNotWaiting` | src/noir/consensus/consensus_state.cpp:1271-1281 | no handler, whatever the event and the environment, reaches PrevoteWait or schedules its timeout |
| `PrevoteWaiting.NeverWaitsForPrevotes` | src/noir/consensus/consensus_state.cpp:744-766 | in no state of any run is a correct validator at PrevoteWait or has its timeout pending |
| `Agreement.RunsExist` | src/noir/consensus/consensus_state.cpp:299-385 | the assumptions of the results above can be met: there are runs from the initial round state for every distribution of power with less than a third faulty |
| `Agreement.NodeStepKeeps` | src/noir/consensus/consensus_state.cpp:408-414 | one event handled by one correct validator keeps the system invariant and only extends the common chain |
| `Agreement.FaultyStepKeeps` | src/noir/consensus/consensus_state.cpp:1208-1213 | any vote signed by a faulty validator keeps the system invariant |
| `Agreement.StoredIsCommitted` | src/noir/consensus/consensus_state.cpp:959-1027 | a block a correct validator stored has a precommit quorum of the validator set of its height |
| `RoundPreservation.HandleKeeps` | src/noir/consensus/consensus_state.cpp:469-504 | whatever the event and whatever the environment answers, a handler keeps the invariant of the height with the progress property, or finishes the height with a decided block |
| `RoundPreservation.AcceptedStepsRaise` | src/noir/consensus/consensus_state.cpp:506-784 | every accepted enter_new_round, enter_propose, enter_prevote, enter_prevote_wait and enter_precommit, with all it cascades into, strictly raises round and step, except that an accepted enter_prevote_wait may throw and change nothing else; a refused one changes nothing |
| `RoundPreservation.PrevoteKeeps` | src/noir/consensus/consensus_state.cpp:702-742 | prevoting the locked block, the valid proposal or nil keeps the invariant |
| `RoundPreservation.PrecommitKeeps` | src/noir/consensus/consensus_state.cpp:773-867 | precommitting with relocking, unlocking and refetching keeps the invariant |
| `RoundPreservation.RelockKeeps` | src/noir/consensus/consensus_state.cpp:808-862 | the lock taken in enter_precommit has a polka and guards all earlier precommits of the validator |
| `RoundPreservation.PrecommitObeysRules` | src/noir/consensus/consensus_state.cpp:786-862 | a block is precommitted only on a polka of the round or after a precommit quorum no later |
| `RoundPreservation.CommitKeeps` | src/noir/consensus/consensus_state.cpp:895-940 | entering Commit, with the fetch of a missing block, keeps the invariant |
| `RoundPreservation.FinalizeKeeps` | src/noir/consensus/consensus_state.cpp:959-1027 | finalising stores and applies only a decided block and starts the next height with no lock |
| `RoundPreservation.AfterPrevoteKeeps` | src/noir/consensus/consensus_state.cpp:1220-1286 | the reaction to a counted prevote (unlock, valid block, next step) keeps the invariant |
| `RoundPreservation.AfterPrecommitKeeps` | src/noir/consensus/consensus_state.cpp:1287-1306 | the reaction to a counted precommit keeps the invariant or finishes the height |
| `RoundPreservation.TimeoutKeeps` | src/noir/consensus/consensus_state.cpp:469-504 | a scheduled timeout keeps the invariant or finishes the height |
| `RoundPreservation.BlockPartKeeps` | src/noir/consensus/consensus_state.cpp:1068-1131 | a block part keeps the invariant or finishes the height |
| `RoundInvariant.SignerNeverRefuses` | src/noir/consensus/consensus_state.cpp:1315-1358 | when the round and step say a vote is due, the signer that never goes back in height, round and step has not yet signed it |
| `RoundInvariant.CastKeepsCore` | src/noir/consensus/consensus_state.cpp:1382-1406 | a cast vote that obeys the voting rules keeps the invariant |
| `RoundInvariant.PolkaAfterLock` | src/noir/consensus/consensus_state.cpp:786-862 | a polka for another block after the locked round overrules the lock |
| `VoteLog.NoLaterPolka` | src/noir/consensus/consensus_state.cpp:786-862 | once a block has a precommit quorum in a round, no later round has a polka for anything else |
| `VoteLog.CommitHasPolka` | src/noir/consensus/consensus_state.cpp:786-862 | behind every precommit quorum for a block there is a polka for it in the same round or earlier |
| `VoteLog.CertifiedUnique` | src/noir/consensus/consensus_state.cpp:1169-1306 | one round has at most one hash with more than two thirds of the power, for each kind of vote |
| `VoteLog.OneCommittedBlock` | src/noir/consensus/consensus_state.cpp:942-957 | no two blocks of one height have precommit quorums, whatever the rounds |
| `Quorum.QuorumIntersection` | src/noir/consensus/consensus_state.cpp:722-742 | two sets with more than two thirds of the voting power share a correct validator when less than a third is faulty |
| `VoteSets.AddOk` | src/noir/consensus/types/vote.cpp:65-177 | counting a vote, whichever peer it comes from, keeps the sum per block equal to the power that voted for it and, until there is a majority, the total equal to the power that voted; so a reported majority is a quorum of signed votes |
| `VoteSets.TwoThirdsAnyOk` | src/noir/consensus/types/vote.h:225-228 | two thirds of any votes means that more than two thirds of the power signed votes of that round, unless there is a majority already |
| `VoteSets.EnterOk` | src/noir/consensus/types/height_vote_set.h:68-79 | opening the vote sets of a round keeps them in step with the log |
| `VoteSets.CountedExactly` | src/noir/consensus/types/vote.cpp:65-177 | a vote is counted if and only if it is the first of a known validator, or conflicts with an earlier one and its block is tracked without a peer claiming it; it adds the power of the validator once per block and once to the total |
| `VoteSets.ClaimedBlockRefused` | src/noir/consensus/types/vote.cpp:139-157 | an example: a conflicting vote is counted for a block others voted for, and refused once a peer claims that block |
| `VoteSets.AddExact` | src/noir/consensus/types/height_vote_set.h:120-144 | a vote changes only the set of its round and kind, and a peer can open at most two rounds not entered yet |
| `VoteCounting.MajoritiesInRuns` | src/noir/consensus/types/vote.cpp:153-172 | in every state of every run, a correct validator reports a majority if and only if it has counted more than two thirds of the power for a block, and then for such a block |
| `VoteCounting.HandleExact` | src/noir/consensus/types/vote.cpp:153-172 | every handler, whatever the event and the environment, keeps that |
| `StepAnswers.PolRoundIsLast` | src/noir/consensus/types/height_vote_set.h:107-118 | the last round with a polka, or none |
| `StepAnswers.PrevoteAnswer` | src/noir/consensus/consensus_state.cpp:702-742 | an accepted enter_prevote casts the one prevote that is due: for the locked block, without a lock for the proposal block, without either for nil; a step that is not due changes nothing |
| `StepAnswers.PrecommitAnswer` | src/noir/consensus/consensus_state.cpp:773-867 | an accepted enter_precommit casts the one precommit that is due: for the block of the polka if and only if it is locked or proposed, which is then locked in this round; otherwise for nil, and a polka releases the lock; it throws if and only if the polka is of a round not entered |
| `StepAnswers.DueVoteIsCast` | src/noir/consensus/consensus_state.cpp:1382-1406 | under the invariant and before Commit, a vote that is due is cast whenever there is a signer |
| `StepAnswers.ProposeAnswer` | src/noir/consensus/consensus_state.cpp:564-610 | an accepted enter_propose schedules the timeout of the round, and prevotes at once if and only if the proposal is complete with its polka |
| `StepAnswers.NewRoundAnswer` | src/noir/consensus/consensus_state.cpp:506-552 | an accepted enter_new_round reaches exactly that round, without the old proposal except in round 0, with the vote sets open up to the next round; it throws if and only if the sets would go back by more than two rounds |
| `StepAnswers.WaitAnswer` | src/noir/consensus/consensus_state.cpp:872-893 | the timeout of PrecommitWait is scheduled once a round, and it is an error without two thirds of any precommits |
| `StepAnswers.CommitAnswer` | src/noir/consensus/consensus_state.cpp:895-940 | entering Commit sets the commit round and proposes the locked block if it is the committed one, else awaits it; at hand, it is finalised |
| `StepAnswers.TryFinalizeAnswer` | src/noir/consensus/consensus_state.cpp:942-957 | a precommit majority of the commit round for the proposal block finalises it, anything else changes nothing |
| `StepAnswers.FinalizeAnswer` | src/noir/consensus/consensus_state.cpp:959-1027 | the block is stored once if its parts and validation agree, else it is an error; applied, the next height starts from round 0 with the validators the application gave |
| `StepAnswers.ProposalAnswer` | src/noir/consensus/consensus_state.cpp:1029-1062 | a proposal is taken if and only if it is the first of the current round, signed, and with a proof-of-lock round before this one or none |
| `StepAnswers.TimeoutAnswer` | src/noir/consensus/consensus_state.cpp:469-504 | what each kind of timeout that is not outdated does, with the votes it casts |
| `StepAnswers.TimeoutReaches` | src/noir/consensus/consensus_state.cpp:469-504 | a timeout of NewHeight leads to round 0, of Propose to the prevote and of PrevoteWait to the precommit of its round, and of PrecommitWait to exactly the next round |
| `StepAnswers.PartAnswer` | src/noir/consensus/consensus_state.cpp:1068-1131 | a complete block is the proposal block, and valid if it has the polka of the round; before the prevote it is prevoted, and precommitted with a polka; in Commit it may be finalised |
| `StepAnswers.PrevoteReaction` | src/noir/consensus/consensus_state.cpp:1220-1286 | a polka after the lock, up to the current round and for something else, releases the lock; one of the round sets the valid block or what is awaited; then the step that the prevotes call for follows |
| `StepAnswers.PrecommitReaction` | src/noir/consensus/consensus_state.cpp:1287-1306 | a precommit quorum brings the node to its round and precommit; one for a block commits it, one for nil or two thirds of any precommits wait |
| `StepAnswers.VoteAnswer` | src/noir/consensus/consensus_state.cpp:1169-1219 | votes of other heights change nothing, except that a late precommit may start round 0; a vote not counted changes the vote sets only |
| `ConsensusObject.ConsensusState.Handle` | src/noir/consensus/consensus_state.cpp:408-414 | one message or timeout: the new state is that of the transition function; under the invariant for any log and its quorums, the invariant is kept with progress or the height is finished, the votes cast obey the voting rules, a lock is kept or overruled by a later polka, and only a decided block is stored |
| `ConsensusObject.ConsensusState.SignAddVote` | src/noir/consensus/consensus_state.cpp:1382-1406 | the signer never goes back in height, round and step, and a newly signed vote is cast |
| `ConsensusObject.ConsensusState.EnterNewRound` | src/noir/consensus/consensus_state.cpp:506-552 | ignored, or round and step strictly rise; the lock stays, and the only vote cast is a prevote, for the locked block if there is one; accepted, it has the answer of StepAnswers.NewRoundAnswer |
| `ConsensusObject.ConsensusState.EnterPropose` | src/noir/consensus/consensus_state.cpp:564-610 | ignored, or round and step strictly rise; the lock stays, and the only vote cast is a prevote, for the locked block if there is one; accepted, it prevotes at once exactly when the proposal is complete |
| `ConsensusObject.ConsensusState.EnterPrevote` | src/noir/consensus/consensus_state.cpp:702-742 | ignored, or round and step strictly rise; the lock stays, and the only vote cast is the prevote that is due, for the locked block, else the proposal block, else nil |
| `ConsensusObject.ConsensusState.EnterPrevoteWait` | src/noir/consensus/consensus_state.cpp:744-766 | an accepted call throws exactly when two thirds of any prevotes are there, changing nothing else, and otherwise raises the step |
| `ConsensusObject.ConsensusState.DoPrecommit` | src/noir/consensus/consensus_state.cpp:786-867 | the branches of the source in their order have the lock, the proposal and the precommit of the factored transition |
| `ConsensusObject.ConsensusState.EnterPrecommit` | src/noir/consensus/consensus_state.cpp:773-867 | ignored, or round and step strictly rise; the lock moves only with a polka of the round, and a block is precommitted if and only if it has that polka and is locked or proposed, under a lock of that round |
| `ConsensusObject.ConsensusState.EnterPrecommitWait` | src/noir/consensus/consensus_state.cpp:872-893 | only timeouts and flags change: no vote, no lock, no step; the timeout is scheduled once a round, with two thirds of any precommits |
| `ConsensusObject.ConsensusState.EnterCommit` | src/noir/consensus/consensus_state.cpp:895-940 | the two updates of the proposal in sequence are the single fetch of the transition; the committed block is proposed if it is locked, else awaited, and finalised if at hand |
| `ConsensusObject.ConsensusState.TryFinalizeCommit` | src/noir/consensus/consensus_state.cpp:942-957 | a stored block is never replaced; a block is stored and applied only with a precommit majority of the commit round, and no vote is cast |
| `ConsensusObject.ConsensusState.FinalizeCommit` | src/noir/consensus/consensus_state.cpp:959-1027 | for a majority of the commit round: the block is stored once, and applied after it is stored |
| `ConsensusObject.ConsensusState.UpdateToState` | src/noir/consensus/consensus_state.cpp:299-385 | the next height starts without proposal, lock, valid block or any majority, and the memory of the signer and the stored blocks survive |
| `ConsensusObject.ConsensusState.SetProposal` | src/noir/consensus/consensus_state.cpp:1029-1062 | only the proposal changes; the first one of a round stays, and its proof-of-lock round is an earlier round or none |
| `ConsensusObject.ConsensusState.AddProposalBlockPart` | src/noir/consensus/consensus_state.cpp:1068-1131 | the in-place sequence has the effect of the factored transition; under the invariant the handler keeps it or finishes the height, as for Handle |
| `ConsensusObject.ConsensusState.HandleTimeout` | src/noir/consensus/consensus_state.cpp:469-504 | each kind of timeout leads to its round and step, PrecommitWait to exactly the next round; under the invariant a scheduled timeout keeps it or finishes the height, as for Handle |
| `ConsensusObject.ConsensusState.AddVote` | src/noir/consensus/consensus_state.cpp:1169-1313 | under the invariant a received vote, counted or not, keeps it or finishes the height, as for Handle |
| `ConsensusObject.ConsensusState.AddedPrevote` | src/noir/consensus/consensus_state.cpp:1220-1286 | under the invariant the reaction to a counted prevote keeps it or finishes the height, as for Handle |
| `ConsensusObject.ConsensusState.AddedPrecommit` | src/noir/consensus/consensus_state.cpp:1287-1306 | under the invariant the reaction to a counted precommit keeps it or finishes the height, as for Handle |
| `ByteKeys.CompareBlob` | src/noir/db/chain_kv.h:94-108 | the sign of the comparison is bytewise lexicographic order, and zero is equality |
| `ByteKeys.Order` | src/noir/db/chain_kv.h:109-116 | that order is irreflexive, transitive and total |
| `ByteKeys.GetNextPrefix` | src/noir/db/chain_kv.h:118-126 | the loop computes the next prefix |
| `ByteKeys.PrefixRange` | src/noir/db/chain_kv.h:118-126 | a key has prefix p exactly when it is not below p and below the next prefix of p, whenever there is one |
| `ByteKeys.NextPrefixShape` | src/noir/db/chain_kv.h:118-126 | the next prefix keeps a beginning of p, raises one byte, and drops only bytes 0xff; there is none exactly when all bytes are 0xff |
| `SharedBytes.AlignedSize` | src/noir/db/shared_bytes.h:169-171 | the size rounded up to whole words |
| `SharedBytes.AlignedCompare` | src/noir/db/shared_bytes.h:186-203 | comparing zero-padded keys eight bytes at a time has the sign of bytewise lexicographic comparison, for all lengths |
| `SharedBytes.Next` | src/noir/db/shared_bytes.h:273-286 | the next key of equal prefix range, or the error when there is none |
| `SharedBytes.ToBigEndianOrder` | src/noir/db/chain_kv.h:232-234 | numbers appended to a key sort as numbers |
| `UndoSegment.EntryRoundTrip` | src/noir/db/chain_kv.h:437-441 | an undo entry packed and followed by anything unpacks to itself and what follows |
| `UndoSegment.PackedBytes` | src/noir/db/chain_kv.h:437-441 | the bytes of an entry: key, old value and new value, in this order, with lengths and marks for absent values |
| `UndoSegment.PackAllSplit` | src/noir/db/chain_kv.h:609-618 | a segment is its entries packed one after the other, and can be read from the front |
| `UndoLog.RevertUndoes` | src/noir/db/chain_kv.h:543-562 | however one list of changes is cut into segments, putting the recorded old values back, newest segment first, restores the store before the changes |
| `UndoLog.RestoresSquash` | src/noir/db/chain_kv.h:523-526 | with the segments of the two top levels joined, undoing still restores the store at the lower push |
| `UndoLog.RestoresCommit` | src/noir/db/chain_kv.h:580-583 | forgetting the oldest levels with their segments leaves every other level undoable |
| `UndoLog.RestoresWrite` | src/noir/db/chain_kv.h:595-640 | new segments on the top level leave every level undoable to its own store |
| `ChainKvUndo.UndoStack.Push` | src/noir/db/chain_kv.h:502-507 | one more level, whose base is what clients see now; nothing clients see changes |
| `ChainKvUndo.UndoStack.Squash` | src/noir/db/chain_kv.h:510-529 | the top level joins the one below and its base is forgotten; the only level is deleted with its segments; what clients see stays |
| `ChainKvUndo.UndoStack.Undo` | src/noir/db/chain_kv.h:532-572 | what clients see is exactly what it was when the top level was pushed, and the live segments are again the interval ending at the next number; nothing to undo is an error that changes nothing |
| `ChainKvUndo.UndoStack.PutBackBatch` | src/noir/db/chain_kv.h:537-563 | the cursor meets exactly the segments of the top level, newest first, and the batch puts their old values back and deletes them |
| `ChainKvUndo.UndoStack.Commit` | src/noir/db/chain_kv.h:575-589 | exactly the levels up to the revision are forgotten, with exactly their segments; what clients see and the other bases stay |
| `ChainKvUndo.UndoStack.WriteChanges` | src/noir/db/chain_kv.h:595-640 | for any target segment size: afterwards clients see the changed values and nothing else changed, and all bases stay; the new segments are cut at the target |
| `ChainKvUndo.ChangeBatch` | src/noir/db/chain_kv.h:620-639 | the linked list is followed once, changed values are written, and the segments together record each changed key once with its old value |
| `ChainKvUndo.AppendEntry` | src/noir/db/chain_kv.h:609-618 | an entry starts a new segment exactly when it would pass the target size, so that a larger segment has a single entry |
| `ChainKvUndo.WriteSegment` | src/noir/db/chain_kv.h:600-607 | a segment that is not empty is stored under the next number and counted on the top level |
| `ChainKvUndo.PutBackOps` | src/noir/db/chain_kv.h:548-559 | reading a segment back yields the operations that put its old values back |
| `ChainKvUndo.CursorDecides` | src/noir/db/chain_kv.h:544-546 | the cursor is below the first segment of the level exactly when the segments of the level are used up |
| `ChainKvUndo.RemoveOldSegments` | src/noir/db/chain_kv.h:584-585 | the range deletion removes exactly the segments below a number and nothing of the clients |
| `ChainKvUndo.SegmentKeyBytes` | src/noir/db/chain_kv.h:654-660 | the bytes of a segment key: the prefix, 0x80 and the number in eight bytes, most significant first |
| `ChainKvUndo.SegmentKeyOrder` | src/noir/db/chain_kv.h:654-660 | segment keys sort by segment number |
| `ChainKvSession.WriteSession.constructor` | src/noir/db/chain_kv.h:678 | a new session stands for the database contents |
| `ChainKvSession.WriteSession.Changed` | src/noir/db/chain_kv.h:687-693 | an entry enters the change list once, at its head |
| `ChainKvSession.WriteSession.Get` | src/noir/db/chain_kv.h:697-711 | the value of the key in the map the session stands for, which does not change |
| `ChainKvSession.WriteSession.Set` | src/noir/db/chain_kv.h:714-741 | the map with the key set, the change list holding every changed key exactly once |
| `ChainKvSession.WriteSession.Erase` | src/noir/db/chain_kv.h:744-767 | the map without the key; erasing a value counts up so that iterators on it notice |
| `ChainKvSession.WriteSession.FillCache` | src/noir/db/chain_kv.h:771-780 | a pair read from the database enters the cache without undoing any change |
| `ChainKvSession.WriteSession.WriteChanges` | src/noir/db/chain_kv.h:785-788 | the database shows exactly the map the session stood for, and the session starts anew |
| `ChainKvSession.LinkedChange` | src/noir/db/chain_kv.h:687-693 | the change list stays acyclic and without repetition |
| `ChainKvView.ViewIterator.constructor` | src/noir/db/chain_kv.h:822-843 | sentinels are cached and the iterator is at the end |
| `ChainKvView.ViewIterator.RocksAhead` | src/noir/db/chain_kv.h:878-882 | the database cursor passes the cache cursor, and every database key between the cursors is cached |
| `ChainKvView.ViewIterator.Forward` | src/noir/db/chain_kv.h:919-926 | from a key to the least live key above it, cached or not |
| `ChainKvView.ViewIterator.Backward` | src/noir/db/chain_kv.h:943-950 | from a key to the greatest live key below it |
| `ChainKvView.ViewIterator.LowerBoundFullKey` | src/noir/db/chain_kv.h:871-889 | the least live key under the prefix not below the given one, or the end |
| `ChainKvView.ViewIterator.LowerBound` | src/noir/db/chain_kv.h:856-869 | the same for a key without its hidden prefix, also for keys before the prefix |
| `ChainKvView.ViewIterator.GetKv` | src/noir/db/chain_kv.h:891-899 | the pair at the iterator as the map shows it, nothing at the end, an error on an erased value |
| `ChainKvView.ViewIterator.Next` | src/noir/db/chain_kv.h:913-932 | operator++: from the end to the least live key under the prefix, from a key to the next or to the end; an error on an erased value that changes nothing |
| `ChainKvView.ViewIterator.Prev` | src/noir/db/chain_kv.h:934-956 | operator--: from the end to the greatest live key under the prefix, from a key to the one before or to the end |
| `ChainKvView.ViewIterator.MoveToEnd` | src/noir/db/chain_kv.h:852-854 | the iterator is at the end |
| `ChainKvView.ViewIterator.MoveToBegin` | src/noir/db/chain_kv.h:848-850 | the iterator is at the least live key under the prefix or at the end |
| `ChainKvView.FullKeyBytes` | src/noir/db/chain_kv.h:309-316 | the bytes of a full key: the prefix, the contract in eight bytes, most significant first, and the key |
| `ChainKvView.CursorKept` | src/noir/db/chain_kv.h:744-755 | whatever other users of the session read, set or erase, the cursors stay in agreement and an erasure is noticed |
| `ChainKvView.GetMatching` | src/noir/db/tests/chain_kv_tests.h:78-91 | repeated ++ from the end visits every live key under the prefix exactly once in ascending order, with its value, and returns to the end |
| `ChainKvView.GetMatchingBackward` | src/noir/db/tests/chain_kv_tests.h:93-107 | repeated -- from the end visits the same keys in the opposite order |
| `ChainKvView.ListsUnique` | src/noir/db/tests/chain_kv_tests.h:93-107 | there is one ascending list of a set of keys, so the two walks are reverses of each other |
| `SessionCache.Session.constructor` | src/noir/db/session.h:288-310 | the cache starts with the first and the last key of the base and shows the base |
| `SessionCache.Session.LinkNext` | src/noir/db/session.h:385-411 | the neighbour flags set are true: no base key lies between the two entries |
| `SessionCache.Session.LinkPrevious` | src/noir/db/session.h:361-383 | the neighbour flags set are true: no base key lies between the two entries |
| `SessionCache.Session.UpdateIteratorCache` | src/noir/db/session.h:413-462 | every flag in the cache stays true, also those concluded from the flags around a new key |
| `SessionCache.Session.Read` | src/noir/db/session.h:544-575 | the value of the merged map, which does not change |
| `SessionCache.Session.Write` | src/noir/db/session.h:577-583 | the merged map with the key set |
| `SessionCache.Session.Erase` | src/noir/db/session.h:628-634 | the merged map without the key |
| `SessionCache.Session.FirstNotDeleted` | src/noir/db/session.h:707-725 | the first cached key that is not deleted, and no uncached base key before it when all flags on the way say so |
| `SessionCache.Session.LowerBound` | src/noir/db/session.h:822-863 | the least live key not below the given one of the merged map, or the end |
| `SessionCache.Session.LearnNext` | src/noir/db/session.h:905-947 | the next of all keys is cached and marked, or there is none |
| `SessionCache.Session.MoveNext` | src/noir/db/session.h:877-898 | operator++ from an entry: the next live key of the merged map, or the end |
| `SessionCache.KnownKept` | src/noir/db/session.h:420-442 | a key that joins the cache keeps every neighbour flag true |
| `SessionUndo.SessionStack.ReadAt` | src/noir/db/session.h:544-575 | reading through any number of sessions gives the value of the map that session shows, and changes no map |
| `SessionUndo.SessionStack.CommitAt` | src/noir/db/session.h:504-542 | the session below shows what the session showed; sessions further down and further up show the same as before |
| `SessionUndo.SessionStack.Read` | src/noir/db/undo_stack.h:186-193 | a read at the top gives the value of the top map |
| `SessionUndo.SessionStack.Write` | src/noir/db/session.h:577-583 | of the stack of maps only the top changes, at the key |
| `SessionUndo.SessionStack.Erase` | src/noir/db/session.h:628-634 | of the stack of maps only the top changes, at the key |
| `SessionUndo.SessionStack.Push` | src/noir/db/undo_stack.h:104-112 | a copy of the top map is pushed |
| `SessionUndo.SessionStack.Squash` | src/noir/db/undo_stack.h:114-123 | the map below the top is dropped |
| `SessionUndo.SessionStack.Undo` | src/noir/db/undo_stack.h:125-133 | the top map is dropped |
| `SessionUndo.SessionStack.Commit` | src/noir/db/undo_stack.h:135-156 | the maps below the one at the revision are dropped, so that the head is that map and every read at the top stays |
| `SessionUndo.SessionStack.SetRevision` | src/noir/db/undo_stack.h:173-184 | the revision moves only up and only without sessions |
| `SessionUndo.Rebase` | src/noir/db/undo_stack.h:152-155 | sessions above a given one see it only through the map it shows, so they may be attached to the head instead |
| `JmtSpans.NibbleRangeIterator.Next` | src/noir/jmt/jmt.h:44-62 | the binary search returns the maximal run of equal nibbles from the position on |
| `JmtSpans.RunContents` | src/noir/jmt/jmt.h:44-62 | a run is exactly the part of the sorted span with its nibble, and no earlier run had that nibble |
| `JmtSpans.NibbleOrder` | src/noir/jmt/jmt.h:18-21 | among keys with a common beginning byte order implies the order of the next nibble |
| `JmtStore.ManyShort` | src/noir/jmt/jmt.h:25-28 | while several keys share a path it is shorter than 64 nibbles, so the depth check never fails |
| `JmtTree.BatchCreateSubtree` | src/noir/jmt/jmt.h:219-245 | the subtree built is the canonical trie of the span, all its nodes are new and of this version, and no write fails |
| `JmtTree.BatchCreateSubtreeWithExistingLeaf` | src/noir/jmt/jmt.h:174-217 | the same with a leaf that was there, which the span may overwrite |
| `JmtTree.BatchInsertAt` | src/noir/jmt/jmt.h:117-172 | the tree becomes the canonical trie of its contents overwritten by the span; nothing else in the cache changes, and no write or deletion fails |
| `JmtTree.BatchInsertAtInternal` | src/noir/jmt/jmt.h:127-154 | the same at an internal node, run by run |
| `JmtTree.CreateLeafNode` | src/noir/jmt/jmt.h:360-367 | a leaf for one pair |
| `JmtTree.InsertAt` | src/noir/jmt/jmt.h:257-281 | the tree becomes the canonical trie of its contents with one pair written |
| `JmtTree.InsertAtInternalNode` | src/noir/jmt/jmt.h:283-307 | the same at an internal node |
| `JmtTree.InsertAtLeafNode` | src/noir/jmt/jmt.h:309-358 | the leaf is replaced, or both leaves hang below the last nibble they share under a chain of nodes |
| `JmtTree.RaiseNode` | src/noir/jmt/jmt.h:346-357 | the chain of single-child nodes from the common path up to the old leaf |
| `JmtTree.SkipCommonPrefix` | src/noir/jmt/types/nibble.h:223-234 | the number of nibbles two keys have in common from a position on |
| `JmtTree.PutValueSets` | src/noir/jmt/jmt.h:418-431 | one by one: an error exactly when the version before has no root or a set is empty; otherwise every version is the canonical trie of all values written up to it, with its root hash, in nodes of the new versions only |
| `JmtTree.BatchPutValueSets` | src/noir/jmt/jmt.h:85-115 | in sorted batches: the same contract as one by one |
| `JmtTree.SortedPairs` | src/noir/jmt/jmt.h:102-106 | duplicates give the last value, and the pairs are in key order |
| `JmtTree.TreeCache.PutNode` | src/noir/jmt/types/tree_cache.h:54-63 | a node key can be written once per version |
| `JmtTree.TreeCache.DeleteNode` | src/noir/jmt/types/tree_cache.h:65-76 | a node of this version is dropped, an older one becomes stale once |
| `JmtTree.TreeCache.GetNode` | src/noir/jmt/types/tree_cache.h:41-52 | the node of this version, of the frozen versions or of the store |
| `JmtTree.TreeCache.Freeze` | src/noir/jmt/types/tree_cache.h:78-101 | the root hash is noted and the nodes of the version join the frozen ones |
| `JmtForest.Join` | src/noir/jmt/jmt.h:150-153 | a node put over correct subtrees is the canonical trie of their contents together |
| `JmtForest.DeleteInternal` | src/noir/jmt/jmt.h:127-128 | without its root a tree is the forest of its children, of which no node is stale |
| `JmtForest.ForestAllowed` | src/noir/jmt/types/node.h:137-142 | the node built always has a child, and an only child is not a leaf |
| `JmtHistory.SameRootHashes` | src/noir/jmt/jmt.h:85-115 | one-by-one and batch insertion of the same value sets give the same root hashes |
| `JmtHistory.TrieDetermines` | src/noir/jmt/jmt.h:385-387 | different contents have different root hash terms |
| `JmtSparse.RootIsSparse` | src/noir/jmt/types/node.h:259-270 | the root hash is that of the binary sparse Merkle tree over the 256 bits of the keys, written out in bytes: hashing sixteen slots in halves, with a lone leaf standing for its part, changes nothing |
| `JmtSparse.PartIsSparse` | src/noir/jmt/types/node.h:259-270 | the same for an aligned part of the slots at any depth |
| `JmtDigest.RootBinding` | src/noir/jmt/types/node.h:259-270 | for any hash of 32 bytes and the hashing of sixteen slots in halves, equal root hashes mean equal contents, or a collision or an input that hashes to the placeholder is exhibited |
| `JmtDigest.PartBinding` | src/noir/jmt/types/node.h:259-270 | the same for any part of the slots of a node |
| `JmtDigest.PartHalves` | src/noir/jmt/types/node.h:266-269 | a part with several keys is hashed as its two halves, also when one child holds them all |
| `JmtDigest.PartLeaf` | src/noir/jmt/types/node.h:263-265 | a part with one key is hashed as its leaf, whatever its width |
| `JmtDigest.LeafOrInner` | src/noir/jmt/types/proof.h:20-54 | a leaf and an inner node with one hash give a collision, because their tags differ |
| `JmtHistory.GetChild` | src/noir/jmt/types/node.h:279-305 | the child of the nibble, or a lone leaf beside it, or none; the nibble is absent in the last two cases |
| `JmtHistory.Get` | src/noir/jmt/jmt.h:433-476 | the value of the key in the contents of the version; an error exactly when the version has no root |
| `JmtHistory.GetInHistory` | src/noir/jmt/jmt.h:371-373 | after any run of value sets, the last value written to the key at or before the version |
| `JmtHistory.HistoryGrows` | src/noir/jmt/jmt.h:418-431 | further value sets add nodes of their own versions only, and every earlier version reads as before |
| `JmtHistory.HistoryStore` | src/noir/jmt/jmt.h:418-431 | the store after any run of value sets meets what the next insertion requires |
| `JmtHistory.LastWritten` | src/noir/jmt/jmt.h:418-431 | the contents of a version are the last values written up to it |
| `MerkleTree.SplitPointIsLargest` | src/noir/consensus/merkle/tree.cpp:40-47 | the split is the largest power of two smaller than the length |
| `MerkleTree.RootEquations` | src/noir/consensus/merkle/tree.cpp:23-60 | the equations of RFC 6962, section 2.1, in bytes: the empty list, one item, and every list with the power of two it is split at; left before right |
| `MerkleTree.TwoItemRoot` | src/noir/consensus/merkle/tree.cpp:31-60 | two items: the hash of the first comes first |
| `MerkleTree.AuntsLeadToRoot` | src/noir/consensus/merkle/tree.cpp:62-88 | from a leaf and its aunts one computes the root, or nothing when a subtree on the way is all zero |
| `MerkleTree.Completeness` | src/noir/consensus/merkle/proof.h:21-37 | the proof built for a leaf is accepted if and only if no proper subtree on its way has an all-zero hash |
| `MerkleTree.ZeroHashRejected` | src/noir/consensus/merkle/tree.cpp:77-78 | one all-zero leaf hash, all other outputs being different from zero, is enough for the proof built to be rejected |
| `MerkleTree.Binding` | src/noir/consensus/merkle/proof.h:21-37 | an accepted proof for an index of a list of that length shows the item there, or yields two different inputs with one hash |
| `MerkleTree.AuntsBinding` | src/noir/consensus/merkle/tree.cpp:62-88 | the same for the computation from the aunts |
| `MerkleTree.InnerBinding` | src/noir/consensus/merkle/tree.cpp:31-38 | inner nodes with one hash have the same children, or their inputs collide |
| `MerkleProof.TrailsFromList` | src/noir/consensus/merkle/proof.cpp:12-36 | the trail of every item climbs, by parent pointers, past siblings with exactly the hashes of its aunts to a root with the hash of the list |
| `MerkleProof.ProofNode.FlattenAunts` | src/noir/consensus/merkle/proof.h:68-81 | the sibling hashes on the way up, in order |
| `MerkleProof.ProofsFromList` | src/noir/consensus/merkle/proof.cpp:38-48 | the root is the hash of the list, and each item has the proof with its aunts |
| `MerkleProof.ClimbsJoined` | src/noir/consensus/merkle/proof.cpp:26-30 | linking two roots to each other and a new root extends every chain by one step |
| `Rlp.RoundTrip` | src/noir/codec/rlp.h:82-254 | for every nested value of integers, byte strings, lists and records, decoding its encoding followed by any bytes gives the value and exactly those bytes |
| `Rlp.PrefixFree` | src/noir/codec/rlp.h:82-254 | no encoding of a type is the beginning of another one |
| `Rlp.SizeIsLength` | src/noir/codec/basic_datastream.h:199-203 | encode_size is the number of bytes of the encoding |
| `Rlp.IntRoundTrip` | src/noir/codec/rlp.h:82-103 | integers of any width up to 55 bytes |
| `Rlp.PrefixRoundTrip` | src/noir/codec/rlp.h:34-79 | lengths of strings and lists below 2^64 |
| `Rlp.StringRoundTrip` | src/noir/codec/rlp.h:150-210 | byte strings |
| `RlpForms.StringBytes` | src/noir/codec/rlp.h:150-160 | the bytes of a string: itself for one byte below 0x80; else 0x80 plus the length up to 55 bytes, or 0xb7 plus the length of the length and the length without leading zeros; then the bytes |
| `RlpForms.IntBytes` | src/noir/codec/rlp.h:17-32 | the bytes of an integer: those of the string of its big-endian bytes without leading zeros |
| `RlpForms.ListBytes` | src/noir/codec/rlp.h:122-134 | the bytes of a list or record: 0xc0 plus the length or 0xf7 plus the length of the length and the length; then the items in order |
| `RlpForms.IntAccepted` | src/noir/codec/rlp.h:90-103 | exactly which inputs are accepted as an integer: leading zeros do not matter, up to the width of the type |
| `RlpForms.StringAccepted` | src/noir/codec/rlp.h:196-210 | exactly which inputs are accepted as a byte string: after any header for its length |
| `RlpShortest.EncodingShortest` | src/noir/codec/rlp.h:82-281 | of all inputs below 2^64 bytes accepted for a value, the encoding is the shortest, for all types without records, and with records if no record header is too short for its fields |
| `RlpShortest.ItemsUse` | src/noir/codec/rlp.h:212-225 | the elements of a list use exactly the size in its header, for inputs below 2^64 bytes |
| `RlpShortest.RecordExactly` | src/noir/codec/rlp.h:267-281 | a record is accepted after any header, whatever its size says; with its fields as the encoder writes them, the encoding is no longer than the input if and only if the header is long enough for their size |
| `RlpShortest.RecordSizeUnchecked` | src/noir/codec/rlp.h:267-281 | an example: a header that claims an empty record is accepted before a field of 62 bytes, in an input shorter than the encoding |
| `RlpShortest.LongListWraps` | src/noir/codec/rlp.h:218-224 | an example from 2^64 bytes on: the size left in a list wraps around, and the input accepted is shorter than the encoding |
| `RlpStream.EncodeToBuffer` | src/noir/codec/basic_datastream.h:205-210 | writing into a buffer of the counted size loses nothing |
| `RlpStream.EncodeTo` | src/noir/codec/rlp.h:122-134 | the bytes written are the encoding |
| `RlpStream.EncodeIntTo` | src/noir/codec/rlp.h:17-32 | the trimmed bytes in memory, reversed, are the integer encoding |
| `RlpStream.EncodePrefixTo` | src/noir/codec/rlp.h:34-53 | the bytes written are the length prefix |
| `RlpStream.DecodeFrom` | src/noir/codec/rlp.h:212-225 | reading with the cursor agrees with decoding what was to be read |
| `RlpStream.DecodeItemsFrom` | src/noir/codec/rlp.h:216-224 | the loop that counts down the size agrees with decoding the elements |
| `RlpStream.DecodeFieldsFrom` | src/noir/codec/rlp.h:267-280 | the fields of a record in order |
| `RlpStream.DecodeIntFrom` | src/noir/codec/rlp.h:90-103 | integers, and the prefixes refused |
| `RlpStream.DecodeStringFrom` | src/noir/codec/rlp.h:196-210 | byte strings, and the prefixes refused |
| `SignificantBytes.Trim` | src/noir/codec/rlp.h:19-24 | the search for the last byte that is not zero leaves the significant bytes |
| `Varint.RoundTrip` | src/noir/common/varint.h:52-99 | every 32-bit and 64-bit value, followed by anything, is read back with what follows |
| `Varint.LebBytes` | src/noir/common/varint.h:53-66 | the bytes written: groups of seven bits, least significant first, a high bit on all but the last, and no last group of zeros except for zero |
| `Varint.ReadExactly` | src/noir/common/varint.h:70-99 | what every input gives: the value, the refusal of a zero last group, or the error when it ends too early |
| `Varint.ReadCanonical` | src/noir/common/varint.h:69-99 | an input accepted in fewer bytes than the maximum is exactly what the writer emits for the value |
| `Varint.FullLengthCanonical` | src/noir/common/varint.h:89-98 | an input of maximal length is what the writer emits if and only if its last byte is not zero and fits the bits left |
| `Varint.PaddedZeroAccepted` | src/noir/common/varint.h:89-98 | an accepted input of maximal length that the writer does not emit |
| `Varint.WriteUleb128` | src/noir/common/varint.h:53-66 | the bytes written and their number |
| `Varint.ReadUleb128` | src/noir/common/varint.h:70-99 | value, error and position of the reader |
| `Varint.ZigZagRoundTrip` | src/noir/common/varint.h:101-114 | zigzag is a bijection between the signed and the unsigned numbers of a width |
| `Varint.ZigZagValue` | src/noir/common/varint.h:104 | numbers close to zero of either sign become small |
| `Varint.WriteZigzag` | src/noir/common/varint.h:101-106 | the bytes written |
| `Varint.ReadZigzag` | src/noir/common/varint.h:108-114 | every signed value comes back with what follows; zero on an error |
| `Scale.RoundTrip` | src/noir/codec/scale.h:63-124 | every 32-bit and 64-bit value, followed by anything, is read back with what follows, in all four modes |
| `Scale.CompactBytes` | src/noir/codec/scale.h:65-91 | the bytes of each of the four modes, with the mode in the low two bits of the first |
| `Scale.CompactShortest` | src/noir/codec/scale.h:63-124 | of all inputs from which a value is read, what the writer emits is the shortest |
| `Scale.ExpandExactly` | src/noir/codec/scale.h:94-124 | what every input gives: the value with what follows, or exactly which inputs are refused |
| `Scale.CompactTo` | src/noir/codec/scale.h:63-91 | the bytes written |
| `Scale.ExpandFrom` | src/noir/codec/scale.h:93-124 | value and position of the reader, and the lengths refused |
| `MedianTime.WeightedMedian` | src/noir/consensus/state.h:127-139 | the least timestamp at which half of the total weight is reached; zero when it is never reached |
| `MedianTime.MedianUnique` | src/noir/consensus/state.h:129-137 | the order of equal timestamps does not matter |
| `MedianTime.BftTime` | src/noir/consensus/state.h:112-139 | with faulty weight below half of the total, rounded down, the median lies between timestamps of correct voters |
| `MedianTime.BftTimeExactly` | src/noir/consensus/state.h:127-139 | whatever times the faulty voters report, the median lies between correct timestamps: if and only if nobody is faulty or the faulty weight is below half of the total, rounded down |
| `MedianTime.FaultyHalfDecides` | src/noir/consensus/state.h:127-139 | faulty voters with half of the weight or more can make any time below all correct ones the median |
| `MedianTime.HalfIsTooMuch` | src/noir/consensus/state.h:127-139 | the smallest instance: one correct and one faulty voter of equal weight |
| `MedianTime.CountedExactly` | src/noir/consensus/state.h:115-124 | the entries are, in order, the timestamp and the power of exactly the signatures that are present and of a known validator |
| `MedianTime.CommitTime` | src/noir/consensus/state.h:112-139 | with the present faulty signers below half of the present known power, rounded down, the median of a commit lies between timestamps of present, known, correct signers |
| `MedianTime.GetMedianTime` | src/noir/consensus/state.h:112-125 | the median of the signatures that count, zero if none does; it lies between timestamps of present, known, correct signers if the faulty ones have less than half |

## Left out

- Liveness, timers and wait steps: any timeout that was scheduled may fire at any time, and nothing is claimed about progress.
- Validator sets, part sets and the file signer have their contracts only: voting power, complete or not, never signing backwards.
- Block ids are taken one-to-one with blocks and votes are not forged; a missing vote set counts as one without a majority.
- The write-ahead log, restarts and catch-up replay, evidence, signing of proposals, and the events published by handlers.
- Heights count from the initial height, and 64-bit heights, revisions and sums of power do not overflow.
- ConsensusObject.ConsensusState.EnterPropose: creating and publishing one's own proposal is not modelled, because it changes no field of the round state and reaches the node as any other proposal.
- ConsensusObject.ConsensusState.FinalizeCommit: applying the block is a parameter that gives the next validator set, because the application is foreign code.
- RocksDB is an ordered map; snapshots, column families and status errors of the database are not modelled.
- ChainKvUndo.UndoStack.WriteChanges: segment numbers stay below 2^64 and packed sizes below 2^32, because the counter and the size field of the code are that wide.
- The state record of the undo stack is the field `saved`; unpacking it when the stack is reopened and `set_revision` are not modelled.
- Comparison of two view iterators, float keys and arrays in `append_key`.
- SessionUndo.SessionStack.ReadAt: which neighbours iteration brings into the sessions of a stack is left open (any keys, each with its own value), because iteration over sessions stacked on sessions, and `session::begin` on which it relies, are not modelled.
- `session::begin`, `find`, `contains`, batch reads, stepping backwards and past the end in sessions, and the file an undo stack of sessions is saved to.
- Empty keys and values in sessions, which the code treats as absent, are excluded.
- The Jellyfish tree's sibling hashes, range proofs, node statistics, leaf counts, precomputed hashes, node serialisation and pruning; nibble paths are sequences of nibbles.
- Merkle lists of 2^31 items and more, for which the shift in `get_split_point` overflows; protobuf conversion of proofs.
- RlpStream.DecodeFrom: a read past the end is an error in the model, because the source drops the stream's error there and goes on with bytes it never set.
- Scale.ExpandFrom: a read past the end is an error in the model, for the same reason.
- RLP decoding into fixed-size arrays and spans, strings as a type of their own, and the rest of SCALE and BCS.
- Overflow of the sum of voting powers in the median time, and the order in which `std::sort` leaves equal times, on which the result does not depend.
- Networking, RPC, mempool, block sync, indexer, command line and plugins.
