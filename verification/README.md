# Verified model of abcperf's agreement core

This project models, in Dafny, the parts of the abcperf repository on which agreement between
replicas rests, and proves what they promise for all inputs and all runs.

**Chained Damysus** (`Damysus*.dfy`, `HeapBuffer.dfy`). Modelled on two levels.

- `DamysusSystem` is a step system over n replicas with quorums of n/2+1 and leaders that hold two
  views each. A step joins a peer, gives up a view, proposes, votes or executes, and may use anything
  that was issued before, however late or often. Replicas may stop. `DamysusInvariant`, `DamysusChain`
  and `DamysusSafety` prove the lock lemma by quorum intersection and induction on views, and from it
  agreement on executed blocks and delivered transactions.
- `DamysusEnclaveAutomata`, `DamysusBlockstore`, `HeapBuffers` and `DamysusReplica` are the program's
  objects as classes. The replica carries the state of the step system as a ghost field. Every handler
  is proved to terminate, to reach none of the program's panics, and to move the system by enabled
  steps of this replica only (`Evolves`), while the replica's fields keep their meaning in the system
  (`Synced`): its view is that of its enclave, buffered blocks belong to later views, requested views
  are earlier and missing in the store, and the flag to propose implies leadership and a quorum. The
  recursion from voting over changing the view to proposing and back is measured by the number of
  buffered messages, and the reflection of messages to itself by these and the votes collected.
  No handler loses anything (`NothingLost`): buffered blocks are stored and buffered commitments are
  collected when their view comes, and peers that asked for a block are answered. After every entry
  point no own vote for the current view is left uncollected (`OwnVotesUsed`).
- `DamysusCluster` and `DamysusScenarios` put n replica objects together that exchange nothing but the
  contents of their own outboxes. `RunSchedule` proves agreement of their deliveries for every
  schedule of deliveries, losses, repetitions, timers and client requests, and `Progress` builds
  schedules after which all of them have executed any number of blocks, through the same entry points.

For a single handler call, content integrity is an assumption (`DamysusLocal.Deliverable`):
commitments and blocks arrive as they were issued. For a cluster it is proved of everything the
replicas send. The signed hash of a commitment covers neither of its block hashes and the hash of a
block does not cover its transactions, and the model's digests carry exactly the hashed fields. Hashes
are injective in these fields and signatures are ideal.

**USIG ordering of MinBFT** (`Usig.dfy`, `UsigOrder.dfy`). A signer stamps consecutive counters, and
the receiver turns any order of arrival into a prefix of the order of signing. The interface follows
section 2 of Veronese et al., "Efficient Byzantine Fault-Tolerance".

**Lagrange coefficients** (`PrimeField.dfy`, `Lagrange.dfy`, `LagrangeTables.dfy`). The interpolation
law at zero over a field of any prime order, and the table-driven form against the direct one. The
program divides by x_i - x_j where the usual form divides by x_j - x_i, hence the sign (-1)^(k-1).

**Smaller state machines**. Key agreement (`KeyAgreement.dfy`) and trip records (`TripDb.dfy`) of the
mobility service, and the per-client matching of requests and responses (`RequestMatcher.dfy`), each
with properties of whole runs.

Value-level functions specify the operations; a class with the program's fields is proved against
them wherever the program changes state in place; lemmas prove the properties of the functions.
Check the whole project with `dafny verify dfyconfig.toml`.

Where the code does not meet an expected property, the model keeps the code as it is and states
exactly when it does:

- `RecoversExactlyWhenOdd`: the sum of coefficients times shares is the shared value only for an odd
  number of points, apart from trivial cases.
- `FormsAgreeExactlyWhenSpansDo`: the table-driven coefficients are the direct ones only if distances
  of positions and of ids have the same products, which consecutive ids ensure.
- `SkippingKeepsLaterMessages`, `SkippingLosesLaterMessages`: `update_in_new_view` pops one buffered
  message per counter skipped, whatever that message's own counter is, and so loses later messages.
- `EarlyResponsesToggle`: a second equal response that precedes its request clears the first one.
- `ReadyExactlyWhenAllProposed`: a mobility server without peers never reports to be ready.
- `ProcessPeerMessage`, `RunSchedule`: a replica leaves view 0 exactly when the last missing key arrives
  with a handshake of another replica. A lone replica adds its only key itself, never leaves view 0 and
  executes nothing, so `Progress` is about two replicas or more.

## Model

| member | source | states |
|---|---|---|
| DamysusSafety.Agreement | atomic-broadcast/damysus/damysus/src/lib.rs:667-835 | in every run of n replicas, under any interleaving, loss, delay and repetition, the block sequences executed by any two replicas are prefix-comparable |
| DamysusSafety.DeliveryAgreement | atomic-broadcast/damysus/damysus/src/lib.rs:820-835 | so are the transaction sequences they delivered |
| DamysusSafety.ExecutedInOrder | atomic-broadcast/damysus/damysus/src/lib.rs:777-818 | in every run each replica executes a chain: the first block is justified by genesis, each later one by the block executed before it, with increasing views, so ancestors come first and nothing is executed twice |
| DamysusSafety.LockLemma | atomic-broadcast/damysus/damysus-base/src/enclave.rs:400-529 | once a quorum voted for the block of view a+1 whose parent and justification are both block g of view a, every accumulator for a view above a+1 names g or a justification-descendant of g |
| DamysusSafety.LockHoldsInRuns | atomic-broadcast/damysus/damysus-base/src/enclave.rs:400-529 | the same for every state of every run |
| DamysusSafety.QuorumsIntersect | atomic-broadcast/damysus/damysus/src/lib.rs:63-63 | two sets of n/2+1 commitments by distinct replicas share a creator |
| DamysusTypes.LeadsTwoViewsPerRound | atomic-broadcast/damysus/damysus-base/src/view.rs:29-31 | replica i leads exactly the views 2(rn + i) and 2(rn + i) + 1 for every round r |
| DamysusTypes.QuorumIsLeastThatMeets | atomic-broadcast/damysus/damysus/src/lib.rs:63-63 | n/2+1 is the least group size for which any two groups of that size have a member in common |
| DamysusSafety.ThreeChainLocks | atomic-broadcast/damysus/damysus/src/lib.rs:667-690 | a chain of three blocks linked by parent and justification has consecutive views, and the votes counted for the third lock the first |
| DamysusSafety.CommittedExtend | atomic-broadcast/damysus/damysus/src/lib.rs:667-720 | of two blocks that three-chains make executable, the later one extends the earlier one |
| DamysusSafety.ExecuteContinues | atomic-broadcast/damysus/damysus/src/lib.rs:777-818 | executing what is left up to an executable block turns the executed chain of one such block into the executed chain of the later of the two |
| DamysusSafety.RunKeepsInv | atomic-broadcast/damysus/damysus/src/lib.rs:384-847 | every step of every replica keeps the system invariant, over whole runs |
| DamysusSafety.BlocksAreUnique | atomic-broadcast/damysus/damysus/src/lib.rs:511-562 | at most one block per view ever exists, and the leader of that view made it |
| DamysusSafety.CommitmentBounds | atomic-broadcast/damysus/damysus-base/src/enclave.rs:478-584 | every commitment issued names blocks of its own view at most, is locked strictly below its view after view 0, is the only one of its creator for its view, and carries a lock not older than that of its creator's earlier ones |
| DamysusSafety.LockBounds | atomic-broadcast/damysus/damysus-base/src/enclave.rs:478-556 | an enclave's last prepared view never decreases and stays strictly below its view once that is positive, so re-signing after view 0 gives a NewView commitment |
| DamysusInvariant.StepKeepsConsensus | atomic-broadcast/damysus/damysus/src/lib.rs:384-847 | each of joining, timing out, proposing, voting and executing keeps the invariant on enclaves, commitments and blocks, and nothing issued is lost |
| DamysusInvariant.ReSignIssues | atomic-broadcast/damysus/damysus-base/src/enclave.rs:531-556 | re-signing issues a commitment that is new for its view; it is in the NewView phase exactly after view 0 |
| DamysusInvariant.VoteIssues | atomic-broadcast/damysus/damysus-base/src/enclave.rs:478-529 | preparing a block issues a Prepare commitment for it; when parent and justification coincide, the voter is locked on them |
| DamysusInvariant.LinkedNamesPredecessor | atomic-broadcast/damysus/damysus/src/lib.rs:538-554 | a block whose parent is its justification is justified by the block of the view before |
| DamysusInvariant.CountedIsQuorum | atomic-broadcast/damysus/damysus-base/src/enclave.rs:416-476 | the commitments an accumulator counts form a quorum of distinct creators and determine the block it names |
| DamysusInvariant.ProposalOk | atomic-broadcast/damysus/damysus/src/lib.rs:511-562 | a proposal is new, belongs to the leader of its view and names a known earlier block |
| DamysusScenarios.RunSchedule | atomic-broadcast/damysus/damysus/src/lib.rs:110-195 | end to end, for every cluster and every schedule of deliveries of messages the replicas sent themselves, timers and client requests: what any two replica objects delivered is prefix-comparable, each delivers every request at most once, and a lone replica stays in view 0 and delivers nothing |
| DamysusScenarios.Progress | atomic-broadcast/damysus/damysus/src/lib.rs:110-174 | for any n > 1 and any k there is a schedule of deliveries of sent messages and of block timers, each handled with its reflection, after which every replica object has marked exactly the blocks of views 1 to k as executed, and all have delivered the same |
| DamysusScenarios.Round | atomic-broadcast/damysus/damysus/src/lib.rs:511-720 | once all replicas have voted for a block, the leader of the next view proposes one on top of it and all replicas vote for that one |
| DamysusScenarios.Lead | atomic-broadcast/damysus/damysus/src/lib.rs:458-562 | the leader counts votes up to a quorum and proposes a block on top, at the latest when its block timer fires; reflection counts its own vote |
| DamysusScenarios.Follow | atomic-broadcast/damysus/damysus/src/lib.rs:197-314 | another replica accepts that block, executes the block two below and votes |
| DamysusScenarios.TakeKeys | atomic-broadcast/damysus/damysus/src/lib.rs:384-402 | a replica leaves view 0 once it has received the keys of all others, and counts its own vote if it leads view 1 |
| DamysusProgress.ProposeOnTop | atomic-broadcast/damysus/damysus/src/lib.rs:511-562 | a leader that has counted a quorum of votes for a block proposes a block whose parent and justification are that one |
| DamysusProgress.AcceptOnTop | atomic-broadcast/damysus/damysus/src/lib.rs:564-720 | a vote for a block on top leaves the replica with the longer stack, the new lock and exactly one more block executed |
| DamysusProgress.LeadOnTop | atomic-broadcast/damysus/damysus/src/lib.rs:458-562 | a leader that counts the vote completing its quorum ends the round with its proposal sent and, if it leads the next view too, its own vote for it collected |
| DamysusProgress.FollowOnTop | atomic-broadcast/damysus/damysus/src/lib.rs:197-314 | another replica ends the round with its vote sent and, if it leads the next view, collected |
| DamysusProgress.ReflectedInRound | atomic-broadcast/damysus/damysus/src/lib.rs:873-906 | reflection of a vote for the top collects it exactly if the voter leads the next view |
| DamysusProgress.ExecutionOnTop | atomic-broadcast/damysus/damysus/src/lib.rs:667-689 | execution is due exactly from the second block on, and executes exactly the block two below the top |
| DamysusProgress.BallotsAcceptable | atomic-broadcast/damysus/damysus-base/src/enclave.rs:400-476 | a quorum of votes for one block, in any order, is always accumulated to an accumulator for that block |
| DamysusCluster.Happen | atomic-broadcast/damysus/damysus/src/lib.rs:110-195 | one event at one replica takes effect there, loses nothing anywhere, and keeps all replicas ready and in line with one and the same state of the protocol |
| DamysusCluster.PerformAt | atomic-broadcast/damysus/damysus/src/lib.rs:110-174 | a message, a timer or the handshake does to a replica without buffered messages exactly what the value-level steps say, reflection included |
| DamysusCluster.Share | atomic-broadcast/damysus/damysus/src/lib.rs:110-132 | after one replica moved by its own steps, all others are still in line |
| DamysusEnclave.AccumulateMeaning | atomic-broadcast/damysus/damysus-base/src/enclave.rs:400-476 | for every input list, accumulation succeeds if and only if the last quorum-many entries are verified usig commitments of the previous view by distinct creators, none locked above the last one, agreeing on one block of that view when all are Prepare; the accumulator then names that block, otherwise the one with the highest prepared view among those counted |
| DamysusEnclave.CollectMeaning | atomic-broadcast/damysus/damysus-base/src/enclave.rs:416-458 | the backward walk succeeds exactly on such a list, and reports whether all counted entries are in the Prepare phase |
| DamysusEnclave.ObjectionMeaning | atomic-broadcast/damysus/damysus-base/src/enclave.rs:417-453 | a single commitment passes the checks of the walk exactly when its creator is new and it is fit to be counted |
| DamysusEnclave.UsigViewsIncrease | atomic-broadcast/damysus/damysus-base/src/enclave.rs:400-556 | whatever calls a host makes, failing ones included, an enclave issues at most one usig commitment per view, with strictly increasing views |
| DamysusEnclaveAutomata.EnclaveAutomata.constructor | atomic-broadcast/damysus/damysus-base/src/enclave.rs:379-390 | a new automaton is in view 0, locked on genesis |
| DamysusEnclaveAutomata.EnclaveAutomata.AddPeer | atomic-broadcast/damysus/damysus/src/enclave.rs:42-54 | adds a peer once; a second key and a foreign key are reported as errors and change nothing |
| DamysusEnclaveAutomata.EnclaveAutomata.CreateUsig | atomic-broadcast/damysus/damysus-base/src/enclave.rs:540-556 | the refinement of the value-level call whose uniqueness is UsigViewsIncrease: one commitment for the current view, then the next view |
| DamysusEnclaveAutomata.EnclaveAutomata.ReSignLastPrepared | atomic-broadcast/damysus/damysus-base/src/enclave.rs:531-538 | the refinement of the value-level call behind ReSignIssues |
| DamysusEnclaveAutomata.EnclaveAutomata.Prepare | atomic-broadcast/damysus/damysus-base/src/enclave.rs:478-529 | the refinement of the value-level call behind VoteIssues, with its five error cases in order and no change of state on failure |
| DamysusEnclaveAutomata.EnclaveAutomata.Accumulate | atomic-broadcast/damysus/damysus-base/src/enclave.rs:400-476 | the loop over mutable locals computes exactly the value-level accumulation of AccumulateMeaning, error by error |
| DamysusBlockstore.InsertedMeaning | atomic-broadcast/damysus/damysus/src/blockstore.rs:141-157 | after an insertion exactly the block's own view holds it, not executed, every other view is as before, and the vector is as long as needed |
| DamysusBlockstore.Blockstore.constructor | atomic-broadcast/damysus/damysus/src/blockstore.rs:181-187 | a new store holds genesis |
| DamysusBlockstore.Blockstore.Insert | atomic-broadcast/damysus/damysus/src/blockstore.rs:141-157 | pads and fills the vector as InsertedMeaning says; the asserted free slot is the precondition |
| DamysusBlockstore.Blockstore.Get | atomic-broadcast/damysus/damysus/src/blockstore.rs:159-165 | finds a block exactly when its view holds one, also beyond the end |
| HeapBuffers.HeapBuffer.constructor | other/heaps/src/heap_buffer.rs:67-77 | a new buffer is empty |
| HeapBuffers.HeapBuffer.Peek | other/heaps/src/heap_buffer.rs:18-23 | the element with the least key |
| HeapBuffers.HeapBuffer.Knows | other/heaps/src/heap_buffer.rs:25-27 | a value is known exactly when an element with its key is buffered |
| HeapBuffers.HeapBuffer.KnowsKey | other/heaps/src/heap_buffer.rs:29-31 | a key is known exactly when an element with it is buffered |
| HeapBuffers.HeapBuffer.Clear | other/heaps/src/heap_buffer.rs:33-36 | empties heap and key set together |
| HeapBuffers.HeapBuffer.FindByKey | other/heaps/src/heap_buffer.rs:38-43 | finds an element with the key if and only if there is one |
| HeapBuffers.HeapBuffer.Insert | other/heaps/src/heap_buffer.rs:50-54 | adds exactly one element, keeping order and key set in line |
| HeapBuffers.HeapBuffer.Pop | other/heaps/src/heap_buffer.rs:56-64 | removes exactly the least element, so the buffer shrinks by one, which is the measure of the recursion of the handlers |
| DamysusDelivery.DeliveredExactlyOnce | atomic-broadcast/damysus/damysus/src/lib.rs:820-835 | whatever blocks are executed, the request ids delivered per client strictly increase and the table holds the last one delivered |
| DamysusDelivery.DeliversExactlyTheNew | atomic-broadcast/damysus/damysus/src/lib.rs:825-834 | whatever blocks are executed, what is delivered are exactly the transactions, in their order, whose request id exceeds every earlier one of the same client, and the table holds the greatest id per client |
| DamysusDelivery.NewOnesMeaning | atomic-broadcast/damysus/damysus/src/lib.rs:825-834 | a transaction is among those if and only if it stands at some position before which no transaction of its client has the same or a greater id |
| DamysusDelivery.TransactionDeliveredOnce | atomic-broadcast/damysus/damysus/src/lib.rs:825-834 | one transaction keeps that |
| DamysusDelivery.DeliveryGrows | atomic-broadcast/damysus/damysus/src/lib.rs:820-835 | executing more blocks only appends to what was delivered |
| DamysusDelivery.RemainingMeaning | atomic-broadcast/damysus/damysus/src/lib.rs:527-534 | a transaction that is still new is kept as often as it occurred, any other is dropped |
| DamysusDelivery.RemainingInOrder | atomic-broadcast/damysus/damysus/src/lib.rs:527-534 | what is kept of two lists one after the other stays in that order |
| DamysusExecution.BacklogShape | atomic-broadcast/damysus/damysus/src/lib.rs:777-810 | the views collected ascend along justifications from an executed block or genesis to the block asked for, and none was executed before |
| DamysusExecution.BacklogExactly | atomic-broadcast/damysus/damysus/src/lib.rs:781-810 | there is a backlog if and only if a way of stored blocks, each justified by the next, leads from the block asked for down to an executed block or genesis, whatever views it skips |
| DamysusExecution.WayIsExecuted | atomic-broadcast/damysus/damysus/src/lib.rs:777-818 | whenever there is such a way, the block asked for is executed afterwards or genesis |
| DamysusExecution.MarkAllMeaning | atomic-broadcast/damysus/damysus/src/lib.rs:812-824 | executing a list of views marks exactly these and keeps all blocks |
| DamysusExecution.StoreDescends | atomic-broadcast/damysus/damysus/src/lib.rs:781-810 | justifications of stored blocks point to strictly earlier views, so the walk back ends |
| DamysusExecution.BacklogIsPending | atomic-broadcast/damysus/damysus/src/lib.rs:777-810 | what a replica collects from its store is what the protocol has it execute |
| DamysusExecution.BacklogExecuted | atomic-broadcast/damysus/damysus/src/lib.rs:777-835 | executing it keeps flags, table and deliveries in line with the chain executed |
| DamysusExecution.ExecutionsAreClosed | atomic-broadcast/damysus/damysus/src/lib.rs:777-818 | every executed block in a store has its justification in the store, executed or genesis |
| DamysusLocal.AccumulateSucceeds | atomic-broadcast/damysus/damysus/src/lib.rs:519-525 | a collected and sorted quorum can always be accumulated, so the `expect` is never reached |
| DamysusLocal.VoteSucceeds | atomic-broadcast/damysus/damysus/src/lib.rs:637-660 | a block of the enclave's view can always be prepared, so the panics are never reached |
| DamysusReplicaSteps.ReadyToPropose | atomic-broadcast/damysus/damysus/src/lib.rs:511-557 | with a quorum collected, the leader's proposal with the stored parent is an enabled step |
| DamysusReplicaSteps.NeverDiverges | atomic-broadcast/damysus/damysus/src/lib.rs:469-482 | no commitment ever contradicts a stored block |
| DamysusReplicaSteps.TimeOutMoves | atomic-broadcast/damysus/damysus/src/lib.rs:837-847 | giving up a view is an enabled step that moves enclave and replica on by one view |
| DamysusReplicaSteps.VoteMoves | atomic-broadcast/damysus/damysus/src/lib.rs:631-665 | voting for the block of the view does the same |
| DamysusReplicaSteps.ExecuteKeeps | atomic-broadcast/damysus/damysus/src/lib.rs:667-689 | the execution a replica performs is an execution step of the protocol |
| DamysusReplicaSteps.StoredThreeChain | atomic-broadcast/damysus/damysus/src/lib.rs:667-681 | the blocks looked up in the store form a three-chain of the protocol |
| DamysusReplicaSteps.ChainStartExactly | atomic-broadcast/damysus/damysus/src/lib.rs:667-689 | the execution is started if and only if the block completes a three-chain of the protocol whose first two blocks are stored, and then at the first of them |
| DamysusReplicaSteps.CompletedChainIsExecuted | atomic-broadcast/damysus/damysus/src/lib.rs:667-689 | the first block of such a chain is marked as executed, provided a way leads down from it |
| DamysusReplicaSteps.StoredBlockIs | atomic-broadcast/damysus/damysus/src/lib.rs:202-221 | a block received for a view that is stored is the stored one, so the `unreachable!` is never reached |
| DamysusReplicaSteps.RequestedHash | atomic-broadcast/damysus/damysus/src/lib.rs:435-447 | a requested block that arrives has the requested hash and is not stored yet, so the panic is never reached |
| DamysusReplicaSteps.OthersMove | atomic-broadcast/damysus/damysus/src/lib.rs:110-132 | steps of other replicas never disturb the relation between a replica and the protocol |
| DamysusReplicaSteps.NothingIsDue | atomic-broadcast/damysus/damysus/src/lib.rs:755-774 | when a handler has lost nothing and only early commitments are left, every buffered commitment for the view reached has been collected and every buffered block up to it is stored |
| DamysusReplicaSteps.OwnVoteCounts | atomic-broadcast/damysus/damysus/src/lib.rs:316-362 | a vote a replica sent itself is never early and passes all checks while its view lasts |
| DamysusReplicaSteps.OwnVotesStay | atomic-broadcast/damysus/damysus/src/lib.rs:863-887 | after a handler that lost nothing, the only own votes that may be left to use are those it sent itself meanwhile |
| DamysusReplicaSteps.ReceivedStays | atomic-broadcast/damysus/damysus/src/lib.rs:110-132 | the effect of a message (collected or kept, stored or kept, answered or remembered) outlasts the reflection after it |
| DamysusReplicaSteps.NothingLostFurther | atomic-broadcast/damysus/damysus/src/lib.rs:110-195 | from state to state: what is stored, sent or collected in the view stays so, a buffered block is kept or stored, a buffered commitment is kept or used unless its view has passed, and a peer that asked for a block is remembered or answered |
| DamysusReplica.Replica.constructor | atomic-broadcast/damysus/damysus/src/lib.rs:53-88 | a new replica is in line with the initial system |
| DamysusReplica.Replica.RequestBlock | atomic-broadcast/damysus/damysus/src/lib.rs:604-620 | asks for a missing block of an earlier view exactly once, recording its hash |
| DamysusReplica.Replica.RequestMissing | atomic-broadcast/damysus/damysus/src/lib.rs:577-620 | asks for parent and justification where they are missing, and for nothing else |
| DamysusReplica.Replica.ExecuteBlock | atomic-broadcast/damysus/damysus/src/lib.rs:820-835 | marks the block and delivers its transactions by the rule of which DeliversExactlyTheNew says exactly what it lets through |
| DamysusReplica.Replica.CollectBacklog | atomic-broadcast/damysus/damysus/src/lib.rs:777-810 | the walk back ends; it is complete if and only if a way of stored blocks leads down to an executed block or genesis, and then finds exactly the backlog |
| DamysusReplica.Replica.ExecuteAll | atomic-broadcast/damysus/damysus/src/lib.rs:812-818 | executes the backlog ancestors first |
| DamysusReplica.Replica.TryExecuteFrom | atomic-broadcast/damysus/damysus/src/lib.rs:777-818 | when a way leads down, the block asked for ends up executed after its whole backlog; when none does, nothing changes |
| DamysusReplica.Replica.FindChain | atomic-broadcast/damysus/damysus/src/lib.rs:667-689 | finds the view to execute from exactly when block, justification and its justification are linked both ways |
| DamysusReplica.Replica.ExecuteChain | atomic-broadcast/damysus/damysus/src/lib.rs:667-715 | performs exactly one execution step of the protocol when it is due and none otherwise |
| DamysusReplica.Replica.PrepareBlock | atomic-broadcast/damysus/damysus/src/lib.rs:631-665 | a block of the current view is prepared without error, is one protocol step of this replica, and its vote goes to the leader of the next view |
| DamysusReplica.Replica.StoreOld | atomic-broadcast/damysus/damysus/src/lib.rs:622-629 | a block of an earlier view is stored and nothing else happens |
| DamysusReplica.Replica.VoteAndStore | atomic-broadcast/damysus/damysus/src/lib.rs:631-717 | votes, executes what the block completes and stores it |
| DamysusReplica.Replica.VoteAndMove | atomic-broadcast/damysus/damysus/src/lib.rs:631-719 | and moves to a later view with the vote in the outbox |
| DamysusReplica.Replica.AddAndPrepareBlock | atomic-broadcast/damysus/damysus/src/lib.rs:564-720 | keeps the replica invariant, terminates by the number of buffered messages, stores the block, and for a block of the current view returns the vote sent |
| DamysusReplica.Replica.RoundTransition | atomic-broadcast/damysus/damysus/src/lib.rs:722-775 | ends settled in a later view, using up buffered messages only; every buffered block up to that view is stored, every buffered commitment for that view is collected, only early ones are left, and nothing is lost |
| DamysusReplica.Replica.EnterView | atomic-broadcast/damysus/damysus/src/lib.rs:746-759 | enters the next view, forgets what was collected and pops the buffered block of that view if there is one |
| DamysusReplica.Replica.DrainCommitments | atomic-broadcast/damysus/damysus/src/lib.rs:761-774 | leaves only early commitments in the buffer, and every one that was buffered for the view the replica ends in has been collected |
| DamysusReplica.Replica.UseFirst | atomic-broadcast/damysus/damysus/src/lib.rs:761-773 | a buffered commitment that is not early is popped and used: it is collected unless its view passes |
| DamysusReplica.Replica.TakeCommitment | atomic-broadcast/damysus/damysus/src/lib.rs:761-773 | pops the least buffered commitment |
| DamysusReplica.Replica.ApplyCommitment | atomic-broadcast/damysus/damysus/src/lib.rs:458-509 | ignores a second commitment of a sender and one that contradicts a stored block, otherwise collects it |
| DamysusReplica.Replica.CountCommitment | atomic-broadcast/damysus/damysus/src/lib.rs:484-508 | after a collected commitment, proposes or waits once there is a quorum, and does nothing more before |
| DamysusReplica.Replica.CreateBlock | atomic-broadcast/damysus/damysus/src/lib.rs:511-562 | succeeds whenever the replica leads the view and holds a quorum, broadcasts its block last and moves on |
| DamysusReplica.Replica.SortByPreparedView | atomic-broadcast/damysus/damysus/src/lib.rs:519-520 | a permutation sorted by prepared view |
| DamysusReplica.Replica.AddPeerKey | atomic-broadcast/damysus/damysus/src/lib.rs:384-393 | adds a key once and counts it |
| DamysusReplica.Replica.InitHandshake | atomic-broadcast/damysus/damysus/src/lib.rs:90-108 | adds the own key and broadcasts it, which sends nothing to itself |
| DamysusReplica.Replica.NewView | atomic-broadcast/damysus/damysus/src/lib.rs:837-847 | re-signs the last prepared block, sends it to the leader of the next view and moves on |
| DamysusReplica.Replica.HandleBlockTimeout | atomic-broadcast/damysus/damysus/src/lib.rs:160-174 | proposes exactly when a quorum is waiting |
| DamysusReplica.Replica.ReceiveClientRequest | atomic-broadcast/damysus/damysus/src/lib.rs:134-158 | proposes only when a quorum is waiting |
| DamysusReplica.Replica.CheckProposal | atomic-broadcast/damysus/damysus/src/lib.rs:224-275 | accepts exactly proposals with a verified accumulator for their view and a verified Prepare vote for them |
| DamysusReplica.Replica.ForgetRequest | atomic-broadcast/damysus/damysus/src/lib.rs:293-298 | drops the request for the view |
| DamysusReplica.Replica.ProcessBlock | atomic-broadcast/damysus/damysus/src/lib.rs:197-314 | an acceptable block is buffered, voted for or stored according to its view; any other changes nothing |
| DamysusReplica.Replica.TakeBlock | atomic-broadcast/damysus/damysus/src/lib.rs:300-313 | the same after the checks |
| DamysusReplica.Replica.ProcessCommitment | atomic-broadcast/damysus/damysus/src/lib.rs:316-382 | a commitment that counts for a view led by this replica is buffered or collected according to its view; any other changes nothing |
| DamysusReplica.Replica.AdmitCommitment | atomic-broadcast/damysus/damysus/src/lib.rs:363-382 | a commitment that passed the checks is buffered if early and collected otherwise, unless the view changes with it |
| DamysusReplica.Replica.ProcessRequestedBlock | atomic-broadcast/damysus/damysus/src/lib.rs:430-456 | a block that was asked for is stored without changing the view; any other changes nothing |
| DamysusReplica.Replica.MakeBlock | atomic-broadcast/damysus/damysus/src/lib.rs:511-554 | the block carries the accumulator of exactly the commitments collected, the stored parent and only transactions that are still new, and is an enabled proposal |
| DamysusReplica.Replica.FilterFront | atomic-broadcast/damysus/damysus/src/lib.rs:527-534 | keeps exactly the transactions whose client has had no such or later request executed, in their order |
| DamysusReplica.Replica.Collect | atomic-broadcast/damysus/damysus/src/lib.rs:484-485 | counts a commitment and its sender |
| DamysusReplica.Replica.ProposeOrWait | atomic-broadcast/damysus/damysus/src/lib.rs:487-508 | with a quorum the replica proposes at once or asks for its timer |
| DamysusReplica.Replica.ProcessHandshake | atomic-broadcast/damysus/damysus/src/lib.rs:384-402 | adds the key and leaves view 0 exactly when the last missing key arrives this way |
| DamysusReplica.Replica.HandleViewTimeout | atomic-broadcast/damysus/damysus/src/lib.rs:176-195 | a leader stays, anybody else moves to a later view |
| DamysusReplica.Replica.AnswerOpenRequests | atomic-broadcast/damysus/damysus/src/lib.rs:277-291 | answers every peer that asked for the block and forgets exactly these requests |
| DamysusReplica.Replica.BufferBlock | atomic-broadcast/damysus/damysus/src/lib.rs:300-311 | adds exactly an early block to the buffer, once |
| DamysusReplica.Replica.BufferCommitment | atomic-broadcast/damysus/damysus/src/lib.rs:363-380 | adds exactly an early commitment to the buffer, once |
| DamysusReplica.Replica.AdmitBlock | atomic-broadcast/damysus/damysus/src/lib.rs:277-313 | answers open requests for the block and buffers, votes for or stores it |
| DamysusReplica.Replica.ProcessBlockRequest | atomic-broadcast/damysus/damysus/src/lib.rs:404-428 | answers exactly when the block of the view is stored or buffered, and remembers who asked otherwise |
| DamysusReplica.Replica.ProcessPeerMessage | atomic-broadcast/damysus/damysus/src/lib.rs:120-130 | on every message whose contents were issued, the replica terminates without panic, keeps its invariant, moves the protocol by own steps only, loses nothing, lets the message take effect, and neither unsends nor undelivers anything; it leaves view 0 if and only if the message is the last missing key |
| DamysusReplica.Replica.Reflect | atomic-broadcast/damysus/damysus/src/lib.rs:873-906 | handling messages to itself ends; afterwards every vote among them is collected unless its view has passed, no vote sent meanwhile is left, and a single vote below the quorum is collected and does nothing else |
| DamysusReplica.Replica.ReflectOne | atomic-broadcast/damysus/damysus/src/lib.rs:887-897 | one message to itself takes effect, and leads to further ones only by using up buffered messages or collected votes of others |
| DamysusReplica.Replica.ReflectSince | atomic-broadcast/damysus/damysus/src/lib.rs:873-906 | handles all messages to itself since a point, so that no own vote for the current view is left uncollected |
| DamysusReplica.Replica.HandlePeerMessage | atomic-broadcast/damysus/damysus/src/lib.rs:110-132 | a message together with the reflection it causes: the message takes effect, nothing is lost, no own vote for the current view is left uncollected, and a lone replica stays in view 0 |
| DamysusReplica.Replica.OnViewTimeout | atomic-broadcast/damysus/damysus/src/lib.rs:176-195 | a view timeout with its reflection: who does not lead the view leaves it, and no own vote for the current view is left uncollected |
| DamysusReplica.Replica.OnBlockTimeout | atomic-broadcast/damysus/damysus/src/lib.rs:160-174 | a block timeout with its reflection: a replica with a quorum proposes and moves on, and no own vote for the current view is left uncollected |
| DamysusReplica.Replica.OnClientRequest | atomic-broadcast/damysus/damysus/src/lib.rs:134-158 | a client request with its reflection: only a replica with a quorum moves on, and no own vote for the current view is left uncollected |
| DamysusReplica.DeliveriesAgree | atomic-broadcast/damysus/damysus/src/lib.rs:820-835 | what any two replicas in line with one state of the protocol delivered is prefix-comparable; RunSchedule establishes that state |
| DamysusReplica.DeliversExactlyOnce | atomic-broadcast/damysus/damysus/src/lib.rs:820-835 | each replica's deliveries are exactly once per request, in order |
| DamysusReplica.DeliversExactlyNewRequests | atomic-broadcast/damysus/damysus/src/lib.rs:820-835 | each replica's deliveries are exactly those new transactions of the blocks it executed |
| DamysusReplica.ExecutedBlocksAreClosed | atomic-broadcast/damysus/damysus/src/lib.rs:777-818 | each replica's executed blocks are closed under justifications down to genesis |
| Usig.BytesRoundTrip | atomic-broadcast/minbft/usig/src/signature.rs:84-92 | the big-endian bytes of a counter determine it |
| Usig.SignedBytesInjective | atomic-broadcast/minbft/usig/src/signature.rs:84-92 | the bytes signed determine counter and message |
| Usig.SignHalf.constructor | atomic-broadcast/minbft/usig/src/signature.rs:65-72 | a new signer starts at counter 0 with nothing signed |
| Usig.SignHalf.Sign | atomic-broadcast/minbft/usig/src/signature.rs:84-92 | the k-th message signed is stamped with counter k |
| Usig.VerifyHalf.Verify | atomic-broadcast/minbft/usig/src/signature.rs:115-133 | rebuilds the bytes that were signed; an unknown party and a wrong signature are told apart |
| Usig.VerifiesOnlyWhatWasSigned | atomic-broadcast/minbft/usig/src/signature.rs:84-133 | an issued signature verifies if and only if key, counter and message are those it was issued with |
| UsigOrder.CountChecker.Next | atomic-broadcast/minbft/minbft/src/usig_msg_order_enforcer.rs:88-97 | moves on exactly on the expected counter |
| UsigOrder.NextIsLeastMissing | atomic-broadcast/minbft/minbft/src/usig_msg_order_enforcer.rs:138-215 | the counter expected next is the least one not received |
| UsigOrder.ArrivalOrderIsIrrelevant | atomic-broadcast/minbft/minbft/src/usig_msg_order_enforcer.rs:138-215 | what was received decides what was yielded, whatever the order and number of arrivals |
| UsigOrder.YieldsPrefixOfSigned | atomic-broadcast/minbft/minbft/src/usig_msg_order_enforcer.rs:138-215 | messages of one signer come out as a prefix of the signing order that ends at the first one missing |
| UsigOrder.VerifiedStreamIsPrefix | atomic-broadcast/minbft/minbft/src/usig_msg_order_enforcer.rs:138-215 | the same end to end, with signing and verification in between |
| UsigOrder.UsigMsgOrderEnforcer.constructor | atomic-broadcast/minbft/minbft/src/usig_msg_order_enforcer.rs:112-121 | a new enforcer expects counter 0 |
| UsigOrder.UsigMsgOrderEnforcer.PushToHandle | atomic-broadcast/minbft/minbft/src/usig_msg_order_enforcer.rs:138-180 | keeps the counters yielded exactly 0, 1, 2 and so on, loses nothing still to come, and yields the expected message first |
| UsigOrder.UsigMsgOrderEnforcer.YieldToBeProcessed | atomic-broadcast/minbft/minbft/src/usig_msg_order_enforcer.rs:183-215 | yields buffered messages with consecutive counters from the expected one on until a counter is missing, and drops only what was passed |
| UsigOrder.NextIsLeastUnbuffered | atomic-broadcast/minbft/minbft/src/usig_msg_order_enforcer.rs:183-215 | the counter expected after that is the least one from the start on that was not buffered |
| UsigOrder.UsigMsgOrderEnforcer.Store | atomic-broadcast/minbft/minbft/src/usig_msg_order_enforcer.rs:170-175 | adds exactly one message to the heap |
| UsigOrder.UsigMsgOrderEnforcer.UpdateInNewView | atomic-broadcast/minbft/minbft/src/usig_msg_order_enforcer.rs:237-247 | skips to the counter after the given one; yielded counters still increase |
| UsigOrder.UsigMsgOrderEnforcer.UpdateAfterRecoveredCounter | atomic-broadcast/minbft/minbft/src/usig_msg_order_enforcer.rs:252-282 | yields the buffered messages without a gap from the recovered counter on, or from the one expected before if that is greater, so the counter expected next is not buffered; what is not yielded or passed stays buffered |
| UsigOrder.RememberedOnce | atomic-broadcast/minbft/minbft/src/usig_msg_order_enforcer.rs:144-157 | every arrival of a view message files it once more under the view it leads to, and nothing else changes |
| UsigOrder.UsigMsgOrderEnforcer.GetPendingNewViews | atomic-broadcast/minbft/minbft/src/usig_msg_order_enforcer.rs:217-233 | returns exactly the filed messages for later views, as often as they are filed |
| UsigOrder.SkippingKeepsLaterMessages | atomic-broadcast/minbft/minbft/src/usig_msg_order_enforcer.rs:237-247 | for every buffer, a skip keeps the messages after the given counter if and only if none is buffered or at least as many messages up to the counter are buffered as counters are skipped |
| UsigOrder.SkippingLosesLaterMessages | atomic-broadcast/minbft/minbft/src/usig_msg_order_enforcer.rs:237-247 | as the enforcer keeps its buffer, without repetitions, they are kept if and only if nothing is skipped or none is buffered, so a skip loses a later message whenever there is one |
| UsigOrder.SkippingMayLose | atomic-broadcast/minbft/minbft/src/usig_msg_order_enforcer.rs:237-247 | an input on which a later message is lost |
| PrimeField.MulLaws | splitee/splitee-crypto/src/math.rs:39-43 | multiplication is commutative and associative with unit one |
| PrimeField.AddLaws | splitee/splitee-crypto/src/math.rs:55-65 | addition is a commutative group, undone by subtraction |
| PrimeField.Distributes | splitee/splitee-crypto/src/math.rs:39-59 | multiplication distributes over addition |
| PrimeField.Inverse | splitee/splitee-crypto/src/math.rs:81-85 | every element but zero times its inverse is one |
| PrimeField.InverseIsUnique | splitee/splitee-crypto/src/math.rs:81-85 | an inverse is the only element with that property |
| Lagrange.Horner | splitee/splitee-crypto/src/math.rs:210-222 | evaluation by powers agrees with Horner's rule |
| Lagrange.Division | splitee/splitee-crypto/src/math.rs:210-222 | a polynomial is its value at r plus a quotient of one coefficient less times (x - r) |
| Lagrange.SumOfCoefficients | splitee/splitee-crypto/src/util.rs:21-47 | the coefficients of k distinct points add up to (-1)^(k-1) |
| Lagrange.Interpolation | splitee/splitee-crypto/src/util.rs:21-47 | for k distinct points and any polynomial with at most k coefficients, the sum of coefficient times share is (-1)^(k-1) times the value at zero |
| Lagrange.RecoversExactlyWhenOdd | splitee/splitee-crypto/src/util.rs:21-47 | so it is the value at zero itself if and only if k is odd, the value is zero or the field has two elements |
| Lagrange.PositionsEqualDirect | splitee/splitee-crypto/src/util.rs:49-81 | for consecutive ids, dividing by distances of positions gives the direct coefficients |
| Lagrange.PositionInterpolation | splitee/splitee-crypto/src/util.rs:49-81 | so the interpolation law holds for them as well |
| Lagrange.FormsAgreeExactlyWhenSpansDo | splitee/splitee-crypto/src/util.rs:49-81 | for any number of parties with distinct ids other than zero, both forms agree if and only if for each party the product of its distances from the others is the same by position as by id |
| Lagrange.ProductTimesSpan | splitee/splitee-crypto/src/util.rs:21-47 | a coefficient times the product of the distances is the product of the other ids |
| Lagrange.PairsAgreeExactlyWhenConsecutive | splitee/splitee-crypto/src/util.rs:49-81 | for two parties that is: the ids are consecutive |
| LagrangeTables.LagrangeCoefficients.Unoptimized | splitee/splitee-crypto/src/util.rs:21-47 | the nested loops compute the direct coefficients |
| LagrangeTables.LagrangeCoefficients.Optimized | splitee/splitee-crypto/src/util.rs:49-81 | every table index is in bounds, and with filled tables the loops compute the position coefficients |
| LagrangeTables.LagrangeCoefficients.PrecomputeInverse | splitee/splitee-crypto/src/util.rs:83-101 | appends the inverses of all distances up to n - 1 in both directions; empty tables become valid for n parties |
| LagrangeTables.LagrangeCoefficients.CalculateLagrangeCoefficients | splitee/splitee-crypto/src/util.rs:10-19 | both forms agree on consecutive ids |
| KeyAgreement.ReadyUsesLeast | application/maas/maas-tee-enclave/src/lib.rs:349-432 | a replica that is ready uses the least of all n proposed keys and the key pair derived from it |
| KeyAgreement.ReadyReplicasAgree | application/maas/maas-tee-enclave/src/lib.rs:349-432 | two ready replicas agree on key and key pair, at whatever points of a run |
| KeyAgreement.ReadyIsFinal | application/maas/maas-tee-enclave/src/lib.rs:425-429 | a ready replica never changes its key again |
| KeyAgreement.ReadyExactlyWhenAllProposed | application/maas/abcperf-maas/src/server.rs:95-123 | under any delivery order and repetition, a replica is ready if and only if the proposals of all others were delivered to it and there is another one |
| KeyAgreement.DeliveryKeeps | application/maas/abcperf-maas/src/server.rs:97-120 | no replica fails to decrypt a packet, and every delivery keeps the invariant |
| KeyAgreement.AttestationIsAnswered | application/maas/abcperf-maas/src/server.rs:101-108 | an attestation of another replica is answered with the own proposal, sealed for its sender |
| KeyAgreement.AnyOrder | application/maas/abcperf-maas/src/server.rs:97-120 | packets in the network can be delivered in any order, and each attestation among them brings the proposal of its receiver |
| KeyAgreement.EveryoneCanBecomeReady | application/maas/abcperf-maas/src/server.rs:95-123 | for any two or more replicas there is a run after which all of them are ready |
| KeyAgreement.Enclave.constructor | application/maas/maas-tee-enclave/src/lib.rs:47-67 | starts with its own proposal and the pair derived from it |
| KeyAgreement.Enclave.MaFinish | application/maas/maas-tee-enclave/src/lib.rs:398-432 | takes over a smaller key with its pair and changes nothing otherwise |
| KeyAgreement.Server.constructor | application/maas/abcperf-maas/src/server.rs:87-97 | starts having heard from itself only |
| KeyAgreement.Server.Receive | application/maas/abcperf-maas/src/server.rs:97-120 | one round of the receive loop is the step of the model, own messages ignored and readiness reported once |
| TripDb.TripsAreConserved | application/maas/maas-tee-enclave/src/db.rs:65-192 | after any messages, each id below the next one is recorded in exactly one place, running or completed, of exactly one user, and no other id is recorded |
| TripDb.ModifyConserves | application/maas/maas-tee-enclave/src/db.rs:65-192 | every message keeps that, and each user's trips stay in the order of check-in |
| TripDb.CheckoutConserves | application/maas/maas-tee-enclave/src/db.rs:130-177 | checking out moves the running trip to the end of the completed ones |
| TripDb.CheckinConserves | application/maas/maas-tee-enclave/src/db.rs:88-129 | checking in records the next id as the running trip |
| TripDb.PseudonymsStayUnique | application/maas/maas-tee-enclave/src/db.rs:67-87 | over any messages, users share a pseudonym only if it is zero |
| TripDb.OnlyAnnouncedSecret | application/maas/maas-tee-enclave/src/db.rs:88-177 | whatever other users do meanwhile, a check-in or check-out of a known user is accepted if and only if it shows the secret announced last and the user is not travelling or travelling respectively; it then announces the next secret, and changes nothing otherwise |
| TripDb.JourneyIsRecorded | application/maas/maas-tee-enclave/src/db.rs:88-177 | a check-in and the check-out with the secret it announced record one completed trip with the id that was next at the check-in |
| TripDb.RegistrationAdmits | application/maas/maas-tee-enclave/src/db.rs:67-87 | a registration is accepted if and only if pseudonym and user are new, and then announces the secret registered |
| TripDb.Db.constructor | application/maas/maas-tee-enclave/src/db.rs:57-62 | a new database is empty |
| TripDb.Db.Modify | application/maas/maas-tee-enclave/src/db.rs:65-192 | refines the value-level step message by message, rejections included |
| RequestMatcher.ForwardsEachIdOnce | abcperf/abcperf/src/replica/webserver.rs:193-220 | over any sequence of requests and responses the ids forwarded to the consensus strictly increase |
| RequestMatcher.IdNeverDecreases | abcperf/abcperf/src/replica/webserver.rs:193-247 | the stored id never decreases |
| RequestMatcher.NewRequestIsForwarded | abcperf/abcperf/src/replica/webserver.rs:212-219 | a request whose id exceeds all earlier ids is forwarded and its channel waits |
| RequestMatcher.ResponseAnswersRequest | abcperf/abcperf/src/replica/webserver.rs:193-236 | when no greater id and no other response for the id came before, the first response is sent on the channel of the last request with its id, for good |
| RequestMatcher.EarlyResponseAnswersRequest | abcperf/abcperf/src/replica/webserver.rs:193-242 | a single response that comes before its request answers that request, which is not forwarded |
| RequestMatcher.AnswersMatch | abcperf/abcperf/src/replica/webserver.rs:193-242 | a channel is answered at most once, and only with a response for the id it was registered under |
| RequestMatcher.RunAnswers | abcperf/abcperf/src/replica/webserver.rs:193-242 | answers have increasing ids, each with a request and a response for it in the run |
| RequestMatcher.EarlyResponsesToggle | abcperf/abcperf/src/replica/webserver.rs:225-233 | equal early responses leave the last one stored if and only if their number is odd |
| RequestMatcher.ClientHandlerState.constructor | abcperf/abcperf/src/replica/webserver.rs:183-190 | starts at id 0 with nothing stored |
| RequestMatcher.ClientHandlerState.Request | abcperf/abcperf/src/replica/webserver.rs:193-220 | refines the value-level step for a request, of which NewRequestIsForwarded and EarlyResponseAnswersRequest say what it forwards and answers |
| RequestMatcher.ClientHandlerState.Response | abcperf/abcperf/src/replica/webserver.rs:222-242 | refines the value-level step for a response, of which ResponseAnswersRequest says what it answers |

## Left out

- Timers and pending client requests of Damysus: when a timer fires, whether enough requests are there and which pending transactions are at the front is arbitrary; the durations, the merging of timeouts in `reflect` and the ready flag are not modelled.
- DamysusReplica.Replica.MakeBlock: the pending transactions at the front of the queue are arbitrary, because the queue is not modelled; they are filtered as in the program.
- DamysusReplica.Replica.ReceiveClientRequest: does not represent the request and the pending queue, which would only add easy members.
- DamysusReplica.Replica.HandleViewTimeout: excludes a replica in view 0 that lacks keys, because the program sets the timer only when it leaves view 0.
- Liveness of Damysus under faults: Progress gives schedules that execute, but no claim is made about when timers let views synchronise.
- `full_block_or_at_least` and `PendingClientRequests`: their contents are part of the arbitrary transactions.
- Byzantine hosts of Damysus: hashes do not cover enough for that fault model, so contents arrive as issued.
- Signature strength, attestation, SGX and foreign calls, AES and elliptic curves: signatures and encryption are ideal values; errors of the platform do not occur.
- Width of machine integers: views, request ids, counters of the order enforcer and trip ids are unbounded, while the program panics or wraps after 2^64; the counter of the USIG signer is bounded explicitly.
- Usig.SignHalf.Sign: requires a counter below the last 64-bit value, because the increment overflows there.
- LagrangeTables.LagrangeCoefficients.Optimized: requires tables that cover the list, because the program indexes out of bounds otherwise.
- PrimeField: the order is any prime rather than the order of the curve's scalar field, whose primality is not proved.
- HeapBuffers.HeapBuffer.Insert: requires a new key, as the debug assertion of the program does; the heap is kept as the sequence in which it is popped, so the layout of the binary heap is not modelled.
- UsigOrder.UsigMsgOrderEnforcer.PushToHandle: iterators are fully drained, so a caller that drops one half-way is not modelled.
- UsigOrder.UsigMsgOrderEnforcer.UpdateInNewView: does not promise that buffered messages after the given counter are kept, because the program may pop them; SkippingKeepsLaterMessages says when it does.
- TripDb.Db.Modify: requires a known user for a reset and does not cover `Clearance`, which the program leaves unimplemented.
- KeyAgreement.Server.Receive: requires a proposal that decrypts, because the program stops otherwise; DeliveryKeeps proves that this never happens.
- RequestMatcher: `clear` and the map from clients to matchers are not modelled; a matcher serves one client.
- The rest of MinBFT (peer message processing, collectors, view changes, batching): no agreement claim for MinBFT.
- NxBFT and Splitee's distributed key generation, coins, threshold encryption and signatures.
- `CursoredHeap`, `TimeoutList`, `IdSet`, `IdMap` and configuration checks: they would only add easy members.
- Orchestrator, generators, statistics, web interface, network emulation and transport: input and output.
