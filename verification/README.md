# A verified model of the fast-path OmniPaxos fork

The repository is a replicated key-value store built on a fork of OmniPaxos. Requests are held until a
deadline, appended by every server, and acknowledged with a hash of the server's whole log. A proxy
confirms a log once enough servers, the leader among them, report the same hash. This project models
the parts of that system that carry state from step to step and proves what they keep.

| Area | Modules |
|---|---|
| Ballots, quorums, leader election, promise and role | `Ballots`, `Quorums`, `LeaderElection`, `Replicas`, `ElectionSafety`, `ElectionRoles`, `ElectionTimeouts`, `HeartbeatRounds`, `ElectionConvergence`, `ElectionQuorumLoss` |
| Fast path: proxy, acknowledgements, confirmations | `FastPath`, `FastPathAgreement`, `FastPathTightness`, `FastPathInterleaving`, `FastPathOnce`, `FastPathOrder`, `FastPathDelivery` |
| Execution and the key-value database | `KvStore`, `Follower`, `LeaderDatabase` |
| Clock and deadline buffers | `Clock`, `Buffers`, `BufferRuns` |
| UniCache: LFU and LRU field caches | `CacheSpec`, `UniCache`, `LfuCache`, `LruCache`, `FieldCaches`, `CacheClones`, `CacheStreams` |
| Storage: back-ends, state cache, snapshots, synchronisation | `KvSnapshot`, `Storage`, `InternalStorage`, `StorageLayer`, `StorageReads`, `StorageCoherence`, `LogSynchronisation`, `PersistentStorage`, `StorageEquivalence` |

Objects that the program updates in place are classes. Their methods are proved against functions on
the abstract state, and the theorems are about runs of those functions. Protocols are state machines
whose steps may come in any order.

## What the proofs rest on

- A history hash is represented by what is hashed: the ids and key-value commands of the log in order.
  Equal hashes then mean equal logs, so hash collisions are assumed away.
- In `FastPathAgreement` messages may be lost and reordered, servers may take any role at any time, and
  every access to the proxy's table is a step of its own. `FastPathOnce` handles each acknowledgement in
  one step, in which no send fails, on the same network. `FastPathOrder` and `FastPathDelivery` do so with
  first-in-first-out channels and fixed roles.
- `ElectionSafety` allows loss, duplication and reordering, without crashes. `ElectionConvergence`
  assumes heartbeat rounds in which every survivor hears every other, and unchanged priorities. It starts
  where all survivors follow the lost ballot and have smaller ballots of their own and no larger promise.
  `ElectionQuorumLoss` lets every server hear any fixed set of others, and the lost leader be alive.
- A follower receives the proxy's confirmations in order. Its own log may be shorter than what is
  confirmed; replays of a log that differs from it are not part of the runs.
- A leader's runs in `LeaderDatabase` take proposals, appends and confirmations in any interleaving. Which
  replays they contain is a condition on the replayed stretch, and what happens otherwise is a theorem.
- Stored values are read back as they were written; a transaction is written whole or not at all.

## Where the code does not do what one would expect

Each of these is a theorem about the code as it is, with the condition under which it does hold.

- The proxy's comment says that deleting a table entry ensures that nothing is confirmed twice. With
  handlers interleaved this holds, within n > 2f, only for f = 0
  (`FastPathInterleaving.AtMostOnceIsExact`). With a handler as one step it holds, whatever is lost and
  whoever leads, exactly for n > 2f (`FastPathOnce.AtomicOnceIsExact`).
- Agreement fails for every n <= 2f with at least two servers, if several of them act as leader
  (`FastPathTightness.AgreementIsExact`). With one leader throughout it holds for every n and f
  (`FastPathTightness.OneLeaderAgrees`).
- The proxy answers the client with the acknowledgement that completed the quorum, not with the response
  kept in the table. Whenever a quorum has two servers there are runs in which the leader's response has
  arrived and no answer carries one (`FastPathDelivery.AnswerLacksResponse`).
- Without crashes no server ever gives up the role of leader (`ElectionRoles.LeadersNeverStepDown`): a timeout hands over
  only ballots of the server's own. After a leader is lost all survivors follow one ballot and all of them
  have the role (`ElectionConvergence.AllSurvivorsLead`), so all of them speculate.
- A leader executes proposals as they arrive and replays its decided log over the same database. A replay
  leaves the database alone if and only if whatever it writes is up to date (`LeaderDatabase.ReplayServesIff`);
  a value overwritten by a later proposal comes back (`LeaderDatabase.LeaderGoesBack`).
- Log synchronisation overwrites the cached decided index before a delta asks for the decided
  snapshot, so the follower snapshots its old log up to the new index. A follower that agrees with the
  leader below the common prefix, which is all that the leader knows, can lose decided entries and can
  keep undecided entries of its own in the decided snapshot. Every such exchange is right if and only if
  the follower's log ends before the new decided index and the delta starts within what it has compacted
  (`LogSynchronisation.FollowerDeltaIsExact`, `LogSynchronisation.DeltaLosesEntries`,
  `LogSynchronisation.DeltaKeepsUndecided`). If the follower agrees in all that it takes for decided, it is
  also right whenever its log reaches the new decided index (`LogSynchronisation.DeltaSyncIsExact`).
- A failed synchronisation leaves the cache ahead of the back-end
  (`StorageCoherence.FailedSyncBreaksCoherence`).
- The storage layer does not check that compaction stays within the log or that a synchronisation leaves
  no gap. `StorageCoherence.StepCoherentIff` says which operations keep the cache coherent.
- An LFU cache's clone drops counts and order. Clones are safe for every stream only if there is room for
  one entry, nothing is cached, or the only entry has been touched once (`CacheClones.CloneIsExact`).
- A new deadline sent to a follower, or a leader's clock turned back, can let requests be released out
  of deadline order (`BufferRuns.EarlyNewDeadlineLosesOrder`, `BufferRuns.TurnedBackClockLosesOrder`).
- The clock's reported uncertainty stops covering its error as soon as the clock has asked for a
  resynchronisation (`Clock.UncertaintyCovers`).
- A read range that starts at the stopsign and ends before it panics (`StorageReads.ReadPanics`).
- A follower panics when it replays its log before it has appended all that was confirmed to it, which
  can happen whenever f > 0 (`Follower.ReplayPanicsIff`, `Follower.ShortLogPanics`).
- A follower executes a command when its confirmation arrives and again when it replays its decided log.
  The database is unaffected, but a replayed read can be answered with a later value
  (`Follower.ReplayReadsLaterWrite`, in the run `Follower.ReplayReadsLaterWriteRun`, and exactly when:
  `Follower.RunReplayAnswersIff`).

## Model

| member | source | states |
|---|---|---|
| Quorums.QuorumsIntersect | crates/custom-paxos/omnipaxos/src/util.rs:158-185 | for every accepted configuration of distinct nodes, a prepare quorum meets every accept quorum and every prepare quorum |
| Quorums.OverlapCheckIsExact | crates/custom-paxos/omnipaxos/src/omni_paxos.rs:105-132 | among flexible configurations that pass the earlier checks, validation reports quorums that do not overlap exactly if some prepare quorum misses some accept quorum |
| Quorums.ValidIffQuorumsWork | crates/custom-paxos/omnipaxos/src/omni_paxos.rs:105-132 | validation accepts exactly the numbered configurations in which all servers form both quorums, none does alone, prepare quorums are accept quorums and no two kinds of quorum miss each other |
| LeaderElection.BallotLeaderElection.constructor | crates/custom-paxos/omnipaxos/src/ballot_leader_election.rs:103-151 | the initial election state of a server |
| LeaderElection.BallotLeaderElection.SetPriority | crates/custom-paxos/omnipaxos/src/ballot_leader_election.rs:155-157 | changes the priority of the current ballot and nothing else |
| LeaderElection.BallotLeaderElection.StartRound | crates/custom-paxos/omnipaxos/src/ballot_leader_election.rs:175-193 | forgets the replies, numbers the round and asks every peer |
| LeaderElection.BallotLeaderElection.UpdateLeader | crates/custom-paxos/omnipaxos/src/ballot_leader_election.rs:221-228 | follows the largest ballot heard if it is larger than the leader's |
| LeaderElection.BallotLeaderElection.UpdateHappiness | crates/custom-paxos/omnipaxos/src/ballot_leader_election.rs:230-257 | a leader is happy with a quorum of followers or a happy larger leader; a follower if it hears its happy leader |
| LeaderElection.BallotLeaderElection.CheckTakeover | crates/custom-paxos/omnipaxos/src/ballot_leader_election.rs:259-273 | an unhappy server that hears a prepare quorum of unhappy servers leads a ballot one past its leader's |
| LeaderElection.BallotLeaderElection.EndRound | crates/custom-paxos/omnipaxos/src/ballot_leader_election.rs:196-219 | the whole heartbeat timeout, and the ballot elected if it is the server's own |
| LeaderElection.BallotLeaderElection.HandleMessage | crates/custom-paxos/omnipaxos/src/ballot_leader_election.rs:275-293 | answers requests with its state; keeps replies of the current round and configuration only |
| Replicas.OmniPaxosNode.BecomeLeader | crates/custom-paxos/omnipaxos/src/sequence_paxos/leader.rs:13-41 | takes a ballot only above promise and last led ballot; leads, with a flush of the batch, if it is its own, follows otherwise |
| Replicas.OmniPaxosNode.Timeout | crates/custom-paxos/omnipaxos/src/omni_paxos.rs:395-402 | a heartbeat timeout followed by handing over an elected ballot |
| Replicas.OmniPaxosNode.TryTakeLeadership | crates/custom-paxos/omnipaxos/src/omni_paxos.rs:377-384 | offers itself with a ballot one past its promise |
| Replicas.OmniPaxosNode.ReconnectTo | crates/custom-paxos/omnipaxos/src/sequence_paxos/mod.rs:199-205 | recovers as follower exactly when the peer is another server and its leader |
| ElectionSafety.ElectionSafety | crates/custom-paxos/omnipaxos/src/ballot_leader_election.rs:196-293 | in every run nobody follows a ballot its owner has not reached, no server's own round is past its leader's, and a ballot is elected at most once, by its owner |
| ElectionSafety.NothingGoesBack | crates/custom-paxos/omnipaxos/src/sequence_paxos/leader.rs:13-41 | over a run no server's leader or own round decreases, and a promise that changes strictly increases |
| ElectionSafety.StepInv | crates/custom-paxos/omnipaxos/src/ballot_leader_election.rs:196-293 | every timeout, delivery, takeover and reconnection keeps the invariant behind both |
| ElectionRoles.ElectedLeads | crates/custom-paxos/omnipaxos/src/sequence_paxos/leader.rs:13-41 | whenever an action of a run elects a ballot, its server is then leader, preparing, with that ballot led and promised |
| ElectionRoles.LeadsIffElected | crates/custom-paxos/omnipaxos/src/sequence_paxos/leader.rs:13-41 | in every run a server leads if and only if it has been elected, and then with the last and largest of its elected ballots |
| ElectionRoles.LeadersNeverStepDown | crates/custom-paxos/omnipaxos/src/sequence_paxos/leader.rs:13-45 | in every run a server that leads does so for ever, whoever else is elected |
| ElectionRoles.OfferingLeads | crates/custom-paxos/omnipaxos/src/omni_paxos.rs:377-384 | in every run a server that offers itself is elected with a ballot one past its promise |
| ElectionRoles.CountsCurrentReplies | crates/custom-paxos/omnipaxos/src/ballot_leader_election.rs:289-293 | in every run the replies that a server counts answer its current request and come from its configuration |
| ElectionTimeouts.FollowerTimeout | crates/custom-paxos/omnipaxos/src/ballot_leader_election.rs:230-273 | after a timeout a server that does not lead is happy exactly if it heard its leader say so; otherwise it takes over exactly if all heard are unhappy and form a prepare quorum with it |
| ElectionTimeouts.LeaderTimeout | crates/custom-paxos/omnipaxos/src/ballot_leader_election.rs:230-273 | a server that leads is happy exactly if those heard following nothing larger form its quorum or one that follows something larger is happy |
| ElectionTimeouts.PromiseTimeout | crates/custom-paxos/omnipaxos/src/ballot_leader_election.rs:196-219 | a larger promise is followed happily, and led if it is the server's own |
| ElectionConvergence.ElectionConverges | crates/custom-paxos/omnipaxos/src/ballot_leader_election.rs:196-273 | from survivors who all follow the lost ballot happily, with smaller ballots of their own and no larger promise: after three full rounds all follow one ballot one past the lost one, of the survivor with the highest priority and among those the largest pid, happily, and keep to it in every later round |
| ElectionConvergence.RoundOne | crates/custom-paxos/omnipaxos/src/ballot_leader_election.rs:230-257 | all survivors turn unhappy and nothing else changes |
| ElectionConvergence.RoundTwo | crates/custom-paxos/omnipaxos/src/ballot_leader_election.rs:259-273 | all survivors lead ballots of their own, one past the lost one |
| ElectionConvergence.RoundThree | crates/custom-paxos/omnipaxos/src/ballot_leader_election.rs:221-257 | all survivors settle on the largest of these ballots |
| ElectionConvergence.AllSurvivorsLead | crates/custom-paxos/omnipaxos/src/sequence_paxos/leader.rs:13-41 | from the second of these rounds on every survivor has the role of leader, although all follow one ballot |
| ElectionQuorumLoss.QuorumLossRecovers | crates/custom-paxos/omnipaxos/src/ballot_leader_election.rs:196-273 | whoever hears whom, if exactly one server, not the leader, still hears a prepare quorum: from the fourth round on it leads one past the lost ballot, all that hear it follow it happily, and nobody else follows anything new |
| ElectionQuorumLoss.StarHasOneHub | crates/custom-paxos/omnipaxos/src/ballot_leader_election.rs:230-273 | such clusters exist whenever a prepare quorum has more than two servers |
| HeartbeatRounds.ScheduleExists | crates/custom-paxos/omnipaxos/src/ballot_leader_election.rs:175-219 | from every state of the servers, and whoever hears whom, there is a schedule of any number of rounds |
| FastPath.Proxy.constructor | src/proxy/proxy.rs:24-30 | the quorum is the number of servers less the tolerated faults; the table is empty |
| FastPath.Proxy.HandleCommand | src/proxy/database.rs:19-36 | get, put and delete on the shared table |
| FastPath.Proxy.HandleAck | src/proxy/proxy.rs:109-137 | counts the acknowledgement, keeping the first leader speculation; at a quorum with a speculation it confirms to every server, answers the client and forgets the hash; a send that fails ends it before that, with the entry still stored |
| FastPath.Proxy.HandleAcks | src/proxy/proxy.rs:86-137 | acknowledgements handled one after the other add to every server's queue, and answer the client, exactly what they confirm |
| FastPathDelivery.RunProxy | src/proxy/proxy.rs:109-137 | the proxy of every run of the cluster has sent each server exactly the confirmed commands in order, with indices 1, 2, 3, ... within n > 2f, and has answered the client once for each |
| FastPathDelivery.EntryTells | src/proxy/proxy.rs:111-123 | the entry of an unconfirmed hash counts its acknowledgements and keeps the first leader's response |
| FastPathDelivery.AnswerLacksResponse | src/proxy/proxy.rs:124-135 | whenever a quorum has two servers, a run in which the leader's response arrived and the client is answered without one |
| FastPathAgreement.StepKeepsInv | src/proxy/proxy.rs:111-136 | every append, loss and table access keeps each counter backed by that many distinct servers whose logs extend the hash |
| FastPathAgreement.Agreement | src/proxy/proxy.rs:111-136 | with n > 2f, in every run with interleaved handlers, confirmed logs extend one another and no index has two different confirmed commands |
| FastPathTightness.AgreementIsExact | src/proxy/proxy.rs:24-30 | all runs, whoever leads and when, agree if and only if n > 2f |
| FastPathTightness.OneLeaderAgrees | src/proxy/proxy.rs:111-136 | every run in which one server leads throughout agrees, whatever n and f |
| FastPathInterleaving.AtMostOnceIsExact | src/proxy/proxy.rs:113-135 | within the fault bound, interleaved handlers confirm each hash at most once in every run if and only if f = 0 |
| FastPathInterleaving.InterleavingConfirmsTwice | src/proxy/proxy.rs:113-135 | for every f > 0 and quorum of at least two, a run that confirms one hash twice |
| FastPathOnce.AtomicOnceIsExact | src/proxy/proxy.rs:113-135 | with each acknowledgement handled as one step, loss, reordering and any roles, no run confirms a hash twice if and only if n > 2f |
| FastPathOnce.HandlerIsAtomic | src/proxy/proxy.rs:109-137 | that one step is the handler's accesses in a row, so its runs are runs of the interleaved system |
| FastPathOnce.HandledTallied | src/proxy/proxy.rs:113-135 | handling keeps the count of an unconfirmed hash equal to the servers counted, and that of a confirmed one at least a quorum below |
| FastPathOrder.ConfirmedInOrder | src/proxy/proxy.rs:109-136 | with atomic handlers and n > 2f, the confirmations are the prefixes of lengths 1, 2, 3, ... of one log, in order, each exactly once |
| FastPathOrder.ConfirmedIffQuorumHandled | src/proxy/proxy.rs:109-136 | a hash is confirmed exactly when a quorum of servers with a leader among them has been handled for it, although its count restarts after deletion |
| FastPathOrder.PrefixesConfirmed | src/proxy/proxy.rs:109-136 | when a hash is confirmed, all its shorter non-empty prefixes already are |
| FastPathOrder.HandleKeepsInv | src/proxy/proxy.rs:109-136 | handling one acknowledgement keeps the table accounted for by logs and channels |
| KvStore.LastWriteWins | src/server/database.rs:13-25 | after any commands a key holds what the last write to it left |
| KvStore.ReplayIsIdempotent | src/server/database.rs:13-25 | executing again any suffix of the executed commands changes nothing |
| KvStore.Database.HandleCommand | src/server/database.rs:13-25 | executes one command and answers reads from the state before it |
| Follower.FollowerServer.HandleExecution | crates/custom-paxos/omnipaxos/src/sequence_paxos/follower.rs:12-29 | a follower executes the confirmed command and the decided index moves; a leader only moves it |
| Follower.FollowerServer.HandleNewProposal | crates/custom-paxos/omnipaxos/src/sequence_paxos/follower.rs:56-66 | a leader executes a proposal at once and speculates on the response; a follower does neither |
| Follower.FollowerServer.HandleDecidedEntries | src/server/server.rs:165-190 | replays exactly the log between the last replay and the decided index, or panics, changing nothing, if the log ends before that |
| Follower.FollowerServer.UpdateDatabaseAndRespond | src/server/server.rs:192-203 | executes the commands in order and answers those that this server coordinates, in order |
| Follower.FollowerState | src/server/server.rs:165-203 | however confirmations and replays of a matching or too short log interleave, the database of a server whose log matches is the decided log executed once and in order |
| Follower.ConfirmedLogIsServed | crates/custom-paxos/omnipaxos/src/sequence_paxos/follower.rs:12-29 | from any run of servers and proxy, a follower's database is that of the log confirmed to it, even if its own log is shorter and a replay of it has panicked |
| Follower.ReplayPanicsIff | src/server/server.rs:165-190 | in every run a replay panics exactly if confirmations beyond the log have come since the last one |
| Follower.ShortLogPanics | src/server/server.rs:174-179 | whenever f > 0 there is a run of servers and proxy after which the slowest follower panics at its first replay |
| Follower.RunReplayAnswersIff | src/server/server.rs:192-203 | a replay answers what executing the decided log once would, if and only if no read answered here has been overwritten since, other than by commands the replay has executed again |
| Follower.ReplayReadsLaterWrite | src/server/server.rs:192-203 | the replay of a read followed by a write of its key answers the read with the written value |
| Follower.ReplayReadsLaterWriteRun | src/server/server.rs:165-190 | a follower comes to such a replay by appending both commands and receiving both confirmations first |
| Follower.ReplayCatchesUp | src/server/server.rs:165-190 | after a replay that does not panic, everything confirmed so far has been replayed |
| Follower.AnswersInPlace | src/server/server.rs:192-203 | each coordinated command is answered in place, to its client, under its number, with its response at that point |
| Follower.OnlyCoordinatedAnswered | src/server/server.rs:192-203 | no other command is answered |
| LeaderDatabase.LeaderServesProposals | crates/custom-paxos/omnipaxos/src/sequence_paxos/follower.rs:12-66 | however proposals, appends, confirmations and up-to-date replays interleave, a leader's database and responses are those of the proposals in order of arrival, executed once; a confirmation moves only the decided index |
| LeaderDatabase.ReplayServesIff | src/server/server.rs:165-203 | a replay leaves a leader's database alone if and only if all it writes is what the proposals last wrote |
| LeaderDatabase.LeaderGoesBack | src/server/server.rs:165-203 | a run in which a replay brings back a value that a later proposal has overwritten |
| Clock.Clock.Tick | crates/custom-paxos/omnipaxos/src/clock.rs:93-126 | moves by one tick more or less the drift, notifies what is due and asks for a resynchronisation when its period is over |
| Clock.Clock.ProcessDeadlines | crates/custom-paxos/omnipaxos/src/clock.rs:128-147 | removes exactly the deadlines before the clock's time and notifies exactly their senders |
| Clock.Clock.AddDeadline | crates/custom-paxos/omnipaxos/src/clock.rs:208-214 | adds a deadline; a sender for the same deadline is replaced |
| Clock.Clock.Resync | crates/custom-paxos/omnipaxos/src/clock.rs:163-168 | sets the time, and clears count and uncertainty |
| Clock.ProcessingTakesDue | crates/custom-paxos/omnipaxos/src/clock.rs:128-147 | exactly the deadlines before the time go, with their senders, which are those notified |
| Clock.DriftIsBounded | crates/custom-paxos/omnipaxos/src/clock.rs:93-126 | after n ticks the clock is within n drifts of a perfect one, whichever way each tick drifts |
| Clock.UncertaintyCovers | crates/custom-paxos/omnipaxos/src/clock.rs:158-161 | the reported uncertainty covers the error for every drift exactly until the count is reset by asking for a resynchronisation |
| Buffers.Buffers.Insert | crates/custom-paxos/omnipaxos/src/buffers.rs:130-161 | a request after the last released deadline goes early; otherwise a leader gives it a new deadline and a follower holds it as late |
| Buffers.Buffers.FreeFromLate | crates/custom-paxos/omnipaxos/src/buffers.rs:119-128 | a late request becomes early with the new deadline, unchecked |
| Buffers.Buffers.PopEarly | crates/custom-paxos/omnipaxos/src/buffers.rs:80-99 | takes a request with the least deadline, its notifier with it, and records the deadline |
| BufferRuns.ExactlyOnePlace | crates/custom-paxos/omnipaxos/src/buffers.rs:80-161 | in every run each numbered request is in exactly one of: on its way, early, late, in flight, released; exactly the buffered ones have a notifier |
| BufferRuns.ReleasedAfterDeadline | crates/custom-paxos/omnipaxos/src/buffers.rs:100-116 | requests are released to whoever inserted them, after the clock has passed their deadline, in the order of the pops |
| BufferRuns.TickNotifies | crates/custom-paxos/omnipaxos/src/clock.rs:128-147 | the waiter is notified on exactly the first tick past its deadline |
| BufferRuns.ReleasedInOrder | crates/custom-paxos/omnipaxos/src/buffers.rs:80-161 | deadlines are popped and released in non-decreasing order if every push is at or after the last popped |
| BufferRuns.LeaderReleasesInOrder | crates/custom-paxos/omnipaxos/src/buffers.rs:140-159 | a leader whose clock is never turned back releases all its requests in deadline order |
| BufferRuns.OrderKeptIff | crates/custom-paxos/omnipaxos/src/buffers.rs:119-161 | a step keeps the buffer ordered if and only if it pushes nothing before the last popped deadline |
| BufferRuns.OrderNeedsEveryPush | crates/custom-paxos/omnipaxos/src/buffers.rs:119-161 | any push before the last popped deadline can be followed by a pop out of order |
| BufferRuns.TurnedBackClockLosesOrder | crates/custom-paxos/omnipaxos/src/clock.rs:163-168 | a leader's clock turned back by any amount has a run that pops out of order |
| BufferRuns.EarlyNewDeadlineLosesOrder | crates/custom-paxos/omnipaxos/src/buffers.rs:119-128 | so has a follower that is sent a new deadline before the last popped one |
| UniCache.StreamRoundTrip | crates/custom-paxos/omnipaxos/src/unicache/lru_cache.rs:100-142 | an encoder and a decoder in step, LFU or LRU, stay in step over every stream, and the stream comes back unchanged |
| UniCache.RoundTrip | crates/custom-paxos/omnipaxos/src/unicache/lfu_cache.rs:54-96 | for every stream and size, two new caches return the original stream through every eviction |
| UniCache.CodesStayWithinSize | crates/custom-paxos/omnipaxos/src/unicache/lfu_cache.rs:54-72 | no code that is ever sent exceeds the size |
| CacheStreams.LruHoldsLastSent | crates/custom-paxos/omnipaxos/src/unicache/lru_cache.rs:100-118 | after every stream an LRU encoder holds exactly the fields since whose last occurrence fewer than its size of others were sent, in order of last occurrence |
| CacheStreams.LruSendsCodeIff | crates/custom-paxos/omnipaxos/src/unicache/lru_cache.rs:100-118 | a field is sent as a code exactly if it was sent before with fewer than the size of others since |
| CacheStreams.LfuCountsSent | crates/custom-paxos/omnipaxos/src/unicache/lfu/mod.rs:87-112 | after every stream an LFU encoder's counts are how often each field was sent since it was last sent in full, and its fields are in order of last occurrence |
| CacheStreams.LfuEvictsRarest | crates/custom-paxos/omnipaxos/src/unicache/lfu/mod.rs:114-139 | for an unseen field a full LFU encoder gives up the field sent least often since it was let in, the one sent longest ago among several, and otherwise nothing |
| CacheSpec.SetPutsLast | crates/custom-paxos/omnipaxos/src/unicache/lfu/mod.rs:147-164 | storing a value puts its key last, changes no other item and keeps within the capacity |
| CacheSpec.RemoveForgets | crates/custom-paxos/omnipaxos/src/unicache/lfu/mod.rs:75-83 | removing a key forgets that item and no other |
| LfuCache.LFUCache.constructor | crates/custom-paxos/omnipaxos/src/unicache/lfu/mod.rs:51-61 | the bins represent an empty list |
| LfuCache.LFUCache.UpdateFrequencyBin | crates/custom-paxos/omnipaxos/src/unicache/lfu/mod.rs:97-112 | the key's item is counted once more and becomes the most recently touched |
| LfuCache.LFUCache.Lookup | crates/custom-paxos/omnipaxos/src/unicache/lfu/mod.rs:87-90 | answers the key's value and touches its item |
| LfuCache.LFUCache.RemoveKey | crates/custom-paxos/omnipaxos/src/unicache/lfu/mod.rs:75-85 | takes the key's item out of the list and answers its value |
| LfuCache.LFUCache.EvictEntry | crates/custom-paxos/omnipaxos/src/unicache/lfu/mod.rs:114-139 | a full cache evicts the least recently touched of the items with the least count |
| LfuCache.LFUCache.Put | crates/custom-paxos/omnipaxos/src/unicache/lfu/mod.rs:147-164 | overwrites and touches a cached key, or inserts a new one after an eviction if full |
| LfuCache.LFUCache.FullCanEvict | crates/custom-paxos/omnipaxos/src/unicache/lfu/mod.rs:114-139 | in a full cache the bin at the minimum frequency is not empty, so eviction cannot fail |
| LfuCache.TouchKeepsRepresentation | crates/custom-paxos/omnipaxos/src/unicache/lfu/mod.rs:97-112 | the bins and the minimum frequency after a touch represent the touched list |
| LfuCache.TouchMinimum | crates/custom-paxos/omnipaxos/src/unicache/lfu/mod.rs:97-112 | adding one when the minimum's bin empties gives the new minimum count |
| LruCache.LRUCache.Lookup | crates/custom-paxos/omnipaxos/src/unicache/lru_cache.rs:100-118 | a lookup that the caches rely on makes the entry the most recently used |
| LruCache.LRUCache.Push | crates/custom-paxos/omnipaxos/src/unicache/lru_cache.rs:57-72 | a push puts the entry last and evicts the least recently used one if full |
| FieldCaches.LFUniCache.TryEncode | crates/custom-paxos/omnipaxos/src/unicache/lfu_cache.rs:54-72 | the two caches and the code counter change as the specification of encoding says, and so does the message |
| FieldCaches.LFUniCache.Decode | crates/custom-paxos/omnipaxos/src/unicache/lfu_cache.rs:74-96 | likewise for decoding |
| FieldCaches.LFUniCache.CloneOf | crates/custom-paxos/omnipaxos/src/unicache/lfu_cache.rs:24-37 | the clone's decoder has the encoder's entries, in any order, each counted once |
| FieldCaches.LRUniCache.TryEncode | crates/custom-paxos/omnipaxos/src/unicache/lru_cache.rs:100-118 | as for LFU, with recency in place of counts |
| FieldCaches.LRUniCache.Decode | crates/custom-paxos/omnipaxos/src/unicache/lru_cache.rs:120-142 | likewise for decoding |
| FieldCaches.LRUniCache.CloneOf | crates/custom-paxos/omnipaxos/src/unicache/lru_cache.rs:57-72 | pushing the encoder's entries gives the specified clone, which mirrors the encoder in the same recency order |
| CacheClones.HandOver | crates/custom-paxos/omnipaxos/src/unicache/lru_cache.rs:57-142 | the clone made of an LRU encoder after any stream is in step with it and decodes all the rest of the stream |
| CacheClones.CloneUntilEviction | crates/custom-paxos/omnipaxos/src/unicache/lfu_cache.rs:24-37 | an LFU clone, however ordered, decodes every stream that evicts nothing |
| CacheClones.CloneIsExact | crates/custom-paxos/omnipaxos/src/unicache/lfu_cache.rs:24-37 | given enough unseen fields, LFU clones decode every stream if and only if there is room for one entry, nothing is cached, or the only entry has been touched once |
| CacheClones.FullCloneFails | crates/custom-paxos/omnipaxos/src/unicache/lfu_cache.rs:24-37 | every clone of a full cache whose first entry is not the one the encoder evicts misreads a new field sent twice |
| KvSnapshot.CreateConcat | crates/custom-paxos/examples/kv_store/src/kv.rs:18-31 | the snapshot of two stretches is the first one's snapshot merged with the second one's |
| KvSnapshot.MergeOverlapping | crates/custom-paxos/examples/kv_store/src/kv.rs:27-31 | a delta that starts before the end of the snapshot gives the same result |
| KvSnapshot.CreateHoldsLast | crates/custom-paxos/examples/kv_store/src/kv.rs:18-25 | a snapshot holds each key's last value |
| KvSnapshot.KVSnapshot.FromEntries | crates/custom-paxos/examples/kv_store/src/kv.rs:18-25 | inserting the entries in order creates their snapshot |
| KvSnapshot.KVSnapshot.MergeWith | crates/custom-paxos/examples/kv_store/src/kv.rs:27-31 | the delta's values win |
| Storage.MemoryStorage.HistoryHash | crates/custom-paxos/omnipaxos_storage/src/memory_storage.rs:35-42 | the hash is fed every log entry, in order |
| Storage.MemoryStorage.Perform | crates/custom-paxos/omnipaxos_storage/src/memory_storage.rs:64-158 | each storage operation has its effect on the abstract log and state values |
| Storage.MemoryStorage.WriteAtomically | crates/custom-paxos/omnipaxos_storage/src/memory_storage.rs:44-62 | a transaction has the effect of its operations in order |
| Storage.MemoryStorage.GetEntries | crates/custom-paxos/omnipaxos_storage/src/memory_storage.rs:103-107 | the entries of the index range, or none if they are not all there |
| Storage.MemoryStorage.GetSuffix | crates/custom-paxos/omnipaxos_storage/src/memory_storage.rs:113-118 | the entries from an index on, or none past the end |
| Storage.ApplyConcat | crates/custom-paxos/omnipaxos_storage/src/memory_storage.rs:44-62 | two transactions in turn have the effect, and the failures, of one |
| StorageLayer.LogStorage.constructor | crates/custom-paxos/omnipaxos/src/storage/internal_storage.rs:56-75 | the cache is what loading from the back-end gives |
| StorageLayer.LogStorage.AppendBatched | crates/custom-paxos/omnipaxos/src/storage/internal_storage.rs:180-192 | entries join the batch, which is stored whole once it is full; the accepted index is answered then |
| StorageLayer.LogStorage.AppendWithoutBatching | crates/custom-paxos/omnipaxos/src/storage/internal_storage.rs:215-222 | entries are stored at once |
| StorageLayer.LogStorage.FlushBatch | crates/custom-paxos/omnipaxos/src/storage/internal_storage.rs:204-211 | the batch is stored and emptied |
| StorageLayer.LogStorage.TakePromise | crates/custom-paxos/omnipaxos/src/storage/internal_storage.rs:367-370 | cache and back-end take the promise |
| StorageLayer.LogStorage.TakeDecidedIdx | crates/custom-paxos/omnipaxos/src/storage/internal_storage.rs:372-375 | cache and back-end take the decided index |
| StorageLayer.LogStorage.TakeStopsign | crates/custom-paxos/omnipaxos/src/storage/internal_storage.rs:409-418 | the accepted index counts the stopsign when it appears and no longer when it goes |
| StorageLayer.LogStorage.DecidedWithoutStopsign | crates/custom-paxos/omnipaxos/src/storage/internal_storage.rs:381-386 | the decided index, without a decided stopsign |
| StorageLayer.LogStorage.MakeSnapshot | crates/custom-paxos/omnipaxos/src/storage/internal_storage.rs:279-295 | extends the stored snapshot by the stored entries below the index, or reports a trimmed index |
| StorageLayer.LogStorage.MakeDiffSnapshot | crates/custom-paxos/omnipaxos/src/storage/internal_storage.rs:301-324 | a delta from the index on, or a complete snapshot if those entries are compacted |
| StorageLayer.LogStorage.TryTrimTo | crates/custom-paxos/omnipaxos/src/storage/internal_storage.rs:326-342 | compacts up to a decided index, never backwards and not over a decided stopsign, or reports the index as undecided |
| StorageLayer.LogStorage.TrySnapshotTo | crates/custom-paxos/omnipaxos/src/storage/internal_storage.rs:344-365 | the same with the snapshot of the compacted entries |
| StorageLayer.LogStorage.SyncWithLeader | crates/custom-paxos/omnipaxos/src/storage/internal_storage.rs:225-272 | installs a log synchronisation in one transaction; a failure leaves round and decided index in the cache only |
| StorageLayer.LogStorage.ReadRange | crates/custom-paxos/omnipaxos/src/storage/internal_storage.rs:91-138 | a read of an index range answers what its specification says, case by case |
| StorageReads.ReadsAreSlices | crates/custom-paxos/omnipaxos/src/storage/internal_storage.rs:91-176 | a non-empty uncompacted range reads as the log's slice, tagged decided exactly below the decided index with the stopsign last, or as out of bounds exactly past the accepted index |
| StorageReads.BoundsNameTheRange | crates/custom-paxos/omnipaxos/src/storage/internal_storage.rs:91-138 | included, excluded and missing bounds name the positions that they should |
| StorageReads.ReadPanics | crates/custom-paxos/omnipaxos/src/storage/internal_storage.rs:91-138 | exactly which ranges panic: those within the accepted log that touch compacted entries or run backwards from the stopsign |
| StorageReads.DecidedSuffixIsDecided | crates/custom-paxos/omnipaxos/src/storage/internal_storage.rs:78-88 | without a stopsign the decided suffix has only decided entries, all of them, in order |
| StorageCoherence.CoherentRuns | crates/custom-paxos/omnipaxos/src/storage/internal_storage.rs:56-75 | after every run of operations that fit, a reload would rebuild the cache as it is, with the accepted index the end of the log and one more for a stopsign |
| StorageCoherence.StepCoherentIff | crates/custom-paxos/omnipaxos/src/storage/internal_storage.rs:180-272 | an operation keeps the cache coherent if and only if compaction stays within the log, a synchronisation without snapshot leaves no gap and one that fails brings nothing new |
| StorageCoherence.StepInvIff | crates/custom-paxos/omnipaxos/src/storage/internal_storage.rs:225-272 | it also keeps the decided index within what is accepted if and only if it does not move it past that |
| StorageCoherence.DecidedRuns | crates/custom-paxos/omnipaxos/src/storage/internal_storage.rs:326-418 | with decided indices never set past the accepted index, both hold after every run |
| StorageCoherence.DecidedCompactionFits | crates/custom-paxos/omnipaxos/src/storage/internal_storage.rs:326-365 | then every request to trim or snapshot stays within the log |
| StorageCoherence.FailedSyncBreaksCoherence | crates/custom-paxos/omnipaxos/src/storage/internal_storage.rs:225-272 | after a failed synchronisation the cache is coherent if and only if neither round nor decided index was new |
| StorageCoherence.SyncFailsIff | crates/custom-paxos/omnipaxos/src/storage/internal_storage.rs:225-272 | a synchronisation fails exactly for a delta whose decided index is below the compacted one |
| StorageCoherence.AppendsStayInOrder | crates/custom-paxos/omnipaxos/src/storage/internal_storage.rs:180-222 | stored plus batched entries are all appends in order, whatever is decided, trimmed or snapshotted |
| StorageCoherence.SnapshotsLoseNothing | crates/custom-paxos/omnipaxos/src/storage/internal_storage.rs:344-365 | in runs without plain trims the stored snapshot is that of all compacted entries and the log is the rest |
| LogSynchronisation.SyncCarriesSuffix | crates/custom-paxos/omnipaxos/src/sequence_paxos/mod.rs:223-261 | a leader's synchronisation carries its log from the synchronisation index on, and its stopsign |
| LogSynchronisation.SyncCarriesSnapshot | crates/custom-paxos/omnipaxos/src/sequence_paxos/mod.rs:223-261 | a complete snapshot is that of the leader's decided log, a delta that of the missing stretch |
| LogSynchronisation.SyncCatchesUp | crates/custom-paxos/omnipaxos/src/storage/internal_storage.rs:225-272 | a follower that agrees below the common prefix ends with the leader's log, stopsign and accepted index, and in the complete case with the snapshot of its decided log |
| LogSynchronisation.DeltaSyncCorrect | crates/custom-paxos/omnipaxos/src/storage/internal_storage.rs:240-262 | a delta gives that snapshot, and the leader's log, if the follower's log already agrees up to the new decided index |
| LogSynchronisation.FollowerDeltaIsExact | crates/custom-paxos/omnipaxos/src/storage/internal_storage.rs:225-272 | for given indices, every delta to a follower that agrees with the leader below the common prefix ends with that snapshot if and only if its log ends before the new decided index and the delta starts within what it has compacted |
| LogSynchronisation.DeltaKeepsUndecided | crates/custom-paxos/omnipaxos/src/storage/internal_storage.rs:225-272 | for all indices at which the follower's log reaches the new decided index beyond the common prefix, servers between which an undecided entry gets into the decided snapshot |
| LogSynchronisation.UndecidedEntryKept | crates/custom-paxos/omnipaxos/src/storage/internal_storage.rs:240-262 | in every delta exchange, a follower's entry below the new decided index whose key the leader has not decided stays in the snapshot |
| LogSynchronisation.DeltaInstalled | crates/custom-paxos/omnipaxos/src/storage/internal_storage.rs:225-272 | which snapshot a delta installs, whatever both logs are |
| LogSynchronisation.DeltaSyncIsExact | crates/custom-paxos/omnipaxos/src/storage/internal_storage.rs:225-272 | for followers that agree in all that they take for decided, and given indices, every delta ends with that snapshot if and only if the follower's log reaches the new decided index or everything below the delta is compacted |
| LogSynchronisation.DistinctDeltaIff | crates/custom-paxos/omnipaxos/src/storage/internal_storage.rs:225-272 | for leader logs with distinct keys the same holds for each pair of logs |
| LogSynchronisation.DeltaLosesEntries | crates/custom-paxos/omnipaxos/src/storage/internal_storage.rs:225-272 | for all other indices, servers between which a delta loses entries |
| LogSynchronisation.StoreOfReached | crates/custom-paxos/omnipaxos/src/storage/internal_storage.rs:180-418 | such servers are reached by appending, deciding and making a snapshot |
| PersistentStorage.PersistentStorage.Open | crates/custom-paxos/omnipaxos_storage/src/persistent_storage.rs:120-165 | the next key is one past the last stored key, or the compacted index of an empty log |
| PersistentStorage.PersistentStorage.BatchAppendEntries | crates/custom-paxos/omnipaxos_storage/src/persistent_storage.rs:193-203 | the queued batch will store the entries under the next keys |
| PersistentStorage.PersistentStorage.BatchAppendOnPrefix | crates/custom-paxos/omnipaxos_storage/src/persistent_storage.rs:205-216 | the queued batch will replace the log from the index on, deleting only what is not overwritten |
| PersistentStorage.PersistentStorage.WriteAtomically | crates/custom-paxos/omnipaxos_storage/src/persistent_storage.rs:278-296 | one batch has the effect of its operations in order |
| PersistentStorage.PersistentStorage.AppendEntriesNow | crates/custom-paxos/omnipaxos_storage/src/persistent_storage.rs:309-321 | appends under the next keys at once |
| PersistentStorage.PersistentStorage.AppendOnPrefixNow | crates/custom-paxos/omnipaxos_storage/src/persistent_storage.rs:323-334 | replaces the log from the index on at once |
| PersistentStorage.PersistentStorage.GetEntries | crates/custom-paxos/omnipaxos_storage/src/persistent_storage.rs:336-351 | the values of the first keys from the start of the range on, none if the range passes the next key, an error if keys run out |
| PersistentStorage.PersistentStorage.GetLogLen | crates/custom-paxos/omnipaxos_storage/src/persistent_storage.rs:353-355 | the next key less the compacted index |
| PersistentStorage.LengthsAgree | crates/custom-paxos/omnipaxos_storage/src/persistent_storage.rs:353-355 | that is the length of the in-memory log |
| PersistentStorage.WriteAgrees | crates/custom-paxos/omnipaxos_storage/src/persistent_storage.rs:205-248 | both back-ends agree after an operation if and only if it neither appends nor trims beyond the end of the log |
| PersistentStorage.WriteFollows | crates/custom-paxos/omnipaxos_storage/src/persistent_storage.rs:278-296 | within a transaction, trimming past the end is made good by an append from there |
| PersistentStorage.ReadsAgree | crates/custom-paxos/omnipaxos_storage/src/persistent_storage.rs:336-351 | scanning keys reads the same entries as slicing the in-memory log |
| PersistentStorage.OpenRecovers | crates/custom-paxos/omnipaxos_storage/src/persistent_storage.rs:120-165 | opening the store again finds the same next key |
| StorageEquivalence.StepAgrees | crates/custom-paxos/omnipaxos/src/storage/internal_storage.rs:225-272 | the transaction of every operation keeps both back-ends in agreement |
| StorageEquivalence.EmittedApplies | crates/custom-paxos/omnipaxos/src/storage/internal_storage.rs:180-418 | an operation of the storage layer changes the back-end by exactly the transaction it writes |
| StorageEquivalence.StoragesAreEquivalent | crates/custom-paxos/omnipaxos_storage/src/persistent_storage.rs:336-359 | after every run both back-ends give the same entries, suffixes and length, and reopening the key-range one loses nothing |

## Left out

- LeaderElection.BallotLeaderElection.StartRound: does not model 32-bit overflow of round and ballot numbers, which are unbounded here, as are all counters and indices.
- ElectionSafety.ElectionSafety: does not cover servers that crash and recover; the fork has no recovery of the fast path.
- CacheClones.CloneIsExact: takes as many fields that the cache has not seen as fill it and one more, and counts of at least one, as every cache has.
- LogSynchronisation.FollowerDeltaIsExact: does not cover stopsigns.
- LogSynchronisation.DeltaSyncIsExact: takes followers that agree with the leader in all that they take for decided, which no caller can check; followers in general are the theorem before it.
- ElectionQuorumLoss.QuorumLossRecovers: takes links that stay as they are, and one server that hears a quorum; with several, all of them may take over.
- StorageCoherence.CoherentRuns: does not model a synchronisation that starts below the compacted index, which underflows in the source.
- FastPathOnce.AtomicOnceIsExact: takes handlers whose sends succeed; one that fails leaves its entry stored, as the interleaved system allows at any point.
- Follower.FollowerState: is about followers whose log starts with what is confirmed when they replay it; a leader's database follows the order of arrival and not the log (`LeaderDatabase`).
- TCP framing, connection set-up, channels, tasks and retries, including which receiver a client connection is given.
- Clients, benchmarks, the dashboard, configuration files, logging and metrics.
- Crash recovery, reconfiguration proposals and the repair of diverged followers, for which the fork has no code.
- The rejection of proposals after a stopsign (crates/custom-paxos/omnipaxos/src/sequence_paxos/mod.rs:163-176), one comparison.
- Real time, round-trip estimates and random drift: every tick's direction and every resynchronised time is arbitrary.
- Numbers that a leader sends with a new deadline are its own and may name another request on a follower; the runs allow any number and deadline.
- The tick counter that spaces heartbeat timeouts and the buffering of outgoing messages: timeouts and deliveries may come at any time.
- The internals of RocksDB, the binary heap, the LRU crate and the linked hash set, modelled as an ordered map, a multiset, a recency sequence and an insertion-ordered sequence.
- Serialisation, including that of the caches; storage errors other than missing entries.
- The encoding of log batches with the caches under the optional unicache feature (crates/custom-paxos/omnipaxos/src/storage/state_cache.rs:66-91).
- src/server/proxy.rs, which no module of the server binary includes.
