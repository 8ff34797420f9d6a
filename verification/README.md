# TrixPS in Dafny

TrixPS is a small partitioned message broker. Each (topic, partition) has a leader that appends records to a binary
log file and, before it does so, replicates them to one follower. A raft-replicated cluster state says who leads and
who follows; a control loop repairs it. Producers choose partitions by key and send batches; consumers page through
the logs from saved offsets.

The project proves what these parts promise to each other, over every input, every file content and every run.

## How it is built

| file | what it holds |
|---|---|
| Basics | facts about sequences and division |
| Records, Codec | the record, its binary frame, printer and parser (step by step, as methods) |
| Recovery | files as concatenations of frames; what a scan of arbitrary bytes finds; what a crash leaves |
| Storage | the `Log` class over mutable bytes: replay, append, idempotent append, reads; the disk may fail in each append |
| IndexedRead | reading through the index against scanning the whole file, and exactly when the two agree |
| LogRuns | whole lives of one log: any list of operations and restarts with any disk failures, on a real `Log` |
| Replication | one write as a function of the two logs and of every outcome of its calls |
| BrokerRpc | the RPC methods on real `Log` objects, proved equal to those functions |
| Protocol | the replication of one partition as a state machine of small steps, with any number of brokers, threads, messages in flight, stale assignments, crashes, disk failures |
| Refinement | every write of Replication, under every fault, is a run of Protocol, and so is the restart after a failed local append |
| Coverage | what all runs keep without any assumption |
| Payloads | what a committed write carries in every run |
| ZeroLoss | agreement and survival of committed records: the exact condition on the steps of a run for each, three hypotheses that imply both, and runs showing that none of these can be dropped |
| SoleLeader | concurrent writes on one broker, which may have been a follower before: reservations, disjoint ranges, order |
| Ids, Metadata | sorted broker ids; the cluster state, its commands and the state machine object |
| Controller, Convergence | the repair pass as loops over that object; what it achieves and what it leaves |
| Bootstrap, MetadataSafety | registration and first placement; what every history of the cluster state keeps |
| Naming, Partitions | log keys, file names; the maps of logs and locks |
| Consumer, Producer | the polling loop; partitioning, chunking, counting |

Faults are parameters. A method that talks to the disk takes what the disk does, a replication takes one outcome for
each call (answered, or broken after any number of its records was applied), a controller pass takes raft's answer to
each command, the consumer takes what each fetch meets. Theorems quantify over all of them. The checksum and the
key hash are arbitrary functions to 32 bits.

## What the documentation promises and what holds

`report.md:20` and `report.md:190` promise zero data loss after a crash. The code does not keep that promise in every
run. `ZeroLoss` says exactly when it does:

- As long as records agree, a state is without loss if and only if the assigned leader's log reaches the end of every
  commit (`LosslessIffLongEnough`), and a step keeps it so if and only if it is careful: a write is answered as
  committed only when the assigned leader's log reaches the write's end, and a broker is assigned only when its log
  reaches the end of every commit (`LosslessStepIff`, and `ZeroLossIffCareful` for whole runs). When records do not
  agree, lengths are not enough (`ReusedOffset`); as a corollary for every run, the same two tests with contents
  compared are then exact (`ZeroLossIffCompared`).
- Replicas are prefixes of one another at all times of a run if and only if each record is only appended where every
  longer log has the same one (`ReplicasStepIff`, `ReplicasAgreeIffHarmless`). `AppendAt` answers success for a present
  offset without comparing contents (internal/storage/log.go:161-164), so nothing in the code sees to that.
- It is so when no reservation gives an offset that is still around, in a log, a message or a call, to another record
  (`ReuseFreeIsHarmless`); and that is exactly what keeps all records around in agreement (`AgreementStepIff`,
  `AgreementIffReuseFree`).

Three hypotheses on a deployment imply all of this: offsets are not reused; a write commits at the assigned leader or is
replicated to it (assignments can be stale, internal/broker/replication.go:61-68); a broker that is promoted acked the
last commit (a new follower is not caught up before the next write, internal/broker/controller.go:114-139).
`PrudentRunIsCareful` derives the exact condition from them, and `NoHypothesisCanBeDropped` gives a run that loses a
committed record for each one left out. Offset coverage (`Coverage`) needs none of them.

One log by itself never loses or changes a record, whatever fails (`LogRuns.RecordsOnlyGrow`). It also has no holes as
long as every failed append is followed by a restart, by the same append again, or by one at least as long; if a shorter
one comes in between, a restart can find a frame that was only part of a key (`LogRuns.ResurfacingFrame`). That is
`LogRuns.TidyRunsAreDense`; `LogRuns.DenseRunIff` is the exact form, operation by operation.

Some other promises hold only under a condition, which is then proved to be exact:

- printing then parsing a record (`Codec.RoundTripIff`: the lengths and numbers fit their fields);
- reading through the index (`IndexedRead.IndexExactIff`: offsets increase and the counter has not wrapped;
  `IndexedRead.StaleExactIff`: no bytes of a failed append lie behind the records);
- agreement of two logs after an acked write (`Replication.AgreementIff`);
- a repair that leaves only working partitions (`Convergence.ReconcileConverges`: someone was probed alive);
- well-formed assignments (`MetadataSafety.SafeIffNotAlone`: not just one broker is configured);
- one file for each partition (`Naming.FileNameInjective`: the topics do not sanitize alike).

## Model

| member | source | states |
|---|---|---|
| Codec.EncodeOfDecode | internal/storage/log.go:346-393 | whenever the parser succeeds, on any bytes, the bytes it consumed are exactly the print of the record it returned |
| Codec.DecodeOfEncode | internal/storage/log.go:315-338 | a printed record followed by anything parses back to itself and to the frame's length |
| Codec.RoundTripIff | internal/storage/log.go:315-393 | that round trip holds if and only if key and value are shorter than 2^32 and the numbers fit 64 bits |
| Codec.DecodeExtends | internal/storage/log.go:346-393 | a successful parse does not depend on what follows the frame |
| Codec.DecodeOfTorn | internal/storage/log.go:346-393 | a frame cut anywhere inside is an unexpected end; only the empty input is a clean one |
| Codec.EncodeRecord | internal/storage/log.go:315-338 | the bytes of the frame by position: offset, key length, value length, timestamp and checksum least significant byte first, the two strings between them, the checksum over everything before it |
| Codec.PutUintByte | internal/storage/log.go:322-335 | byte i of a number is the number divided by 256^i, modulo 256 |
| Codec.FieldValues | internal/storage/log.go:346-393 | what the fields of a parsed record are worth in the bytes they were read from, written out in powers of 256 |
| Codec.WrongSumIsCorrupt | internal/storage/log.go:380-393 | a complete frame is accepted or reported as corrupt, with its offset, by its checksum alone |
| Codec.Reader.ReadFull | internal/storage/log.go:346-393 | a full read gives the next n bytes; at the very end it reports a clean end, in between a short read |
| Codec.ReadRecord | internal/storage/log.go:346-393 | the field-by-field reader agrees with the parser on every input and moves by exactly the frame; the record it returns is worth what its bytes say, number by number |
| Recovery.ScanSplits | internal/storage/log.go:90-123 | any file is the frames a scan finds followed by the leftover bytes |
| Recovery.ScanIsLongest | internal/storage/log.go:90-123 | a list of frames is a prefix of a file if and only if it is a prefix of what the scan finds: recovery keeps the longest run of valid frames |
| Recovery.RecoveryIdempotent | internal/storage/log.go:90-123 | recovering a recovered file changes nothing; recovery only cuts at the end |
| Recovery.CrashAtomic | internal/storage/log.go:90-123 | frames followed by a part of one more scan to the old records, and to the old records plus the new one exactly when that frame is whole |
| Storage.IndexLeadsToLast | internal/storage/log.go:90-123 | the index knows exactly the offsets in the file and leads to the last record carrying each |
| Storage.DenseIndex | internal/storage/log.go:31-47 | in a log without holes, index[i] is the total length of the frames before i and nextOff the number of records |
| Storage.Log.Rebuild | internal/storage/log.go:90-123 | the read loop finds the scan of the file, ends right behind it, and rebuilds index and nextOff from it |
| Storage.Log.Replay | internal/storage/log.go:90-123 | replay of arbitrary bytes gives a consistent log of exactly the scanned records and cuts the file to them; it fails only if a needed truncation fails, leaving the file alone |
| Storage.Log.Open | internal/storage/log.go:55-82 | a restarted broker has exactly the records the file's frames spell |
| Storage.Log.AppendLocked | internal/storage/log.go:185-208 | a healthy append adds one record; a failed write or sync leaves size, index, nextOff and the bytes before size unchanged and, behind them, exactly the part of the frame that was written over what was there |
| Storage.Log.Append | internal/storage/log.go:132-142 | appends at the next offset and keeps the log without holes |
| Storage.Log.AppendAt | internal/storage/log.go:153-175 | a present offset is accepted and changes nothing, a gap is refused and changes nothing, the next offset is appended; on a log without holes this is the receiver the replication proofs use |
| Storage.Log.ReadFrom | internal/storage/log.go:217-272 | which bytes are read: from the indexed position, from byte 0, or none; up to max records at or after the offset, failing only on bytes that are not a frame |
| Storage.ReadLoop | internal/storage/log.go:245-272 | the loop returns the filtered scan of its bytes, cut at the limit |
| Storage.Log.NextOffset | internal/storage/log.go:279-289 | the next offset is the number of records |
| IndexedRead.IndexedReadIsFullScan | internal/storage/log.go:217-272 | on increasing offsets, dense or sparse, the indexed read returns what a scan from byte 0 returns, for every offset and limit |
| IndexedRead.DisorderIsVisible | internal/storage/log.go:217-272 | a later record with a smaller or equal offset makes the two differ |
| IndexedRead.WrapIsVisible | internal/storage/log.go:185-208 | so does a sparse log whose 64-bit counter has wrapped to 0 |
| IndexedRead.IndexExactIff | internal/storage/log.go:217-272 | the two agree for all offsets and limits if and only if the file is of the first kind |
| IndexedRead.StaleExactIff | internal/storage/log.go:217-272 | with the bytes of a failed append behind a log without holes, reads are exact for all offsets and limits if and only if there are no such bytes or the log is empty |
| IndexedRead.DenseSlice | internal/storage/log.go:217-272 | a bounded read inside the log, as backfill does, is the exact slice even with such bytes behind it |
| LogRuns.ReopenLog | internal/storage/log.go:55-123 | a restart finds the records and whatever the bytes behind them spell; with nothing behind them, records, index, nextOff, size and file are unchanged |
| LogRuns.Operate | internal/storage/log.go:55-289 | any list of appends, idempotent appends, reads and restarts with any disk failures, from the empty file: every answer and the final log and file are those of the functional model; index, nextOff and size fit the records, and without holes index[i] is the length of the frames before i |
| LogRuns.RecordsOnlyGrow | internal/storage/log.go:132-208 | no operation, failure or restart takes a record away or changes it |
| LogRuns.CrashThenReopen | internal/storage/log.go:90-208 | an append cut short anywhere and a restart leave the old records, or those and the new one exactly when the whole frame was written, and nothing behind them |
| LogRuns.RetryHeals | internal/storage/log.go:153-208 | a failed append tried again leaves what it would have left at once, in records and bytes |
| LogRuns.DenseStepIff | internal/storage/log.go:90-208 | an operation leaves a log without holes if and only if a restart finds records that go on where the log ends, and an append finds the counter not used up |
| LogRuns.DenseRunIff | internal/storage/log.go:90-208 | a life of a log has no holes at any time if and only if all its operations are of that kind |
| LogRuns.TidyRunsAreDense | internal/storage/log.go:90-208 | they are when every failed append is followed by a restart, the same append, or a write over all it left |
| LogRuns.ResurfacingFrame | internal/storage/log.go:185-208 | otherwise a restart can index a frame that was only part of a key: three operations that leave a hole |
| Replication.OfferContiguous | internal/broker/replication.go:176-192 | a contiguous message starting at or before the end of a log is accepted and adds exactly what the log misses |
| Replication.SendsPrefix | internal/broker/replication.go:204-245 | wherever the network breaks, exactly a prefix of the records sent has been applied |
| Replication.ReplicationExtends | internal/broker/replication.go:292-331 | from any follower log, a replication only continues it with a stretch of the leader's log and the new records; all of it when it succeeds; without faults it succeeds |
| Replication.AckCovers | internal/broker/replication.go:292-331 | an acked replication leaves an entry at every offset of the write and below, whatever the follower held |
| Replication.CatchUp | internal/broker/replication.go:204-331 | a follower that is a prefix of its leader ends equal to leader plus new records on success, and a prefix of that on any failure |
| Replication.AgreementIff | internal/storage/log.go:161-164 | after an acked write the logs agree if and only if the follower agreed before and was ahead, if at all, only with the very records of this write |
| Replication.WriteCovers | internal/broker/replication.go:85-99 | a write only grows both logs, appends locally only after the ack, and never lets the leader pass the follower |
| Replication.BatchEqualsSingles | internal/broker/replication.go:55-167 | without faults and with one timestamp, a batch and the same records written one by one leave the same two logs, and the batch's base offset is the first single's |
| Replication.AnyDeliveryKeepsPrefix | internal/broker/replication.go:176-384 | messages cut from one leader history, in any order, repeated, lost or partly applied, keep a follower a prefix of that history that never shrinks |
| BrokerRpc.ApplyMessage | internal/broker/replication.go:176-192 | the records of a message appended in order to a real log up to the first refusal, with the answer, also when the disk fails at any record that has to be written |
| Replication.SeenIsDelivered | internal/broker/replication.go:176-192 | a follower whose disk fails at a record it has to write does to its log, and shows the leader, exactly what a call broken before that record does |
| BrokerRpc.CallFollower | internal/broker/replication.go:257-361 | one call as the leader sees it: acked, refused, or broken with some records applied, by the network or by the follower's disk |
| BrokerRpc.Missing | internal/broker/replication.go:308-327 | the leader reads back exactly the records the follower misses |
| BrokerRpc.ReplicateToFollower | internal/broker/replication.go:204-331 | asking, backfilling and sending on real logs is the replication function; no address refuses |
| BrokerRpc.CommitLocally | internal/broker/replication.go:156-162 | the local appends add the acked records, or those before the disk failed |
| BrokerRpc.HandleProduce | internal/broker/replication.go:55-167 | the whole write request: who answers, what both logs become and what is replied, under every fault of the network and of both disks; a committed answer means that the leader's log, and a follower's that was a prefix of it, holds each key and value in its place at the offsets answered, with one timestamp |
| Replication.CommittedAsSent | internal/broker/replication.go:85-99 | the same of the two logs of a committed write through a follower |
| Replication.StopsAtGap | internal/broker/replication.go:184-191 | a message is applied up to the first record beyond the end of the log, and nothing after it |
| Replication.SinglesBackfill | internal/broker/replication.go:308-327 | a single write backfills record by record: broken after i acks, the follower has i more |
| Replication.BatchBackfill | internal/broker/replication.go:222-241 | a batch backfills in one message: broken after i of its records, the follower has i more |
| Payloads.CommitIsWhatWasSent | internal/broker/replication.go:137-166 | in every run of the protocol, what a call commits is the payload it was started with, each key and value in its place, at contiguous offsets and with one timestamp |
| BrokerRpc.HandleFetch | internal/broker/replication.go:413-449 | only the leader answers; the page and its next offset are those of the indexed read, and a page of the log unless stale bytes are in reach |
| BrokerRpc.PageThroughIndex | internal/broker/replication.go:433-447 | the indexed read of a log without holes is a contiguous page of it |
| Refinement.WriteIsARun | internal/broker/replication.go:55-167 | every write, with or without a follower, under every outcome of its calls and of its broker's disk is a run of the protocol with the same logs, the same commit and nothing else touched, except that the record a failed local append left may be kept |
| Refinement.RestartIsARun | internal/storage/log.go:90-123 | what a reopened file with a part of the next frame behind its log holds, the protocol reaches by a crash and by applying or dropping the message that stands for that record |
| Refinement.FailedWriteThenRestart | internal/broker/replication.go:156-162 | a write whose local append fails, then a restart, on frames and in the protocol: the broker's log has the acked records the disk stored, and the next one exactly when its whole frame was written |
| Protocol.LogsOnlyGrow | internal/storage/log.go:153-208 | no step of the protocol shortens or rewrites a log |
| Coverage.StepKeeps | internal/broker/replication.go:55-192 | every step keeps the whole invariant: logs without holes, exclusive locks, calls, messages, commits and origins covered |
| Coverage.LockIsExclusive | internal/broker/broker.go:306-322 | two calls of one broker are never both past reservation |
| Coverage.AppendOnlyAfterFollower | internal/broker/replication.go:85-96 | in every run, a broker about to append for a write that names a follower finds an entry on it at every offset up to the write's last |
| Coverage.FetchShowsReplicated | internal/broker/replication.go:413-449 | in every reachable state, a fetched record was received from another broker, or its write named no follower, or the named follower has an entry at its offset; records left by a failed local append and found at a restart included |
| Coverage.ResidueIsCovered | internal/storage/log.go:185-208 | what a failed local append leaves for a restart to find is already covered on the write's follower |
| Coverage.CommitsStayCovered | internal/broker/replication.go:149-166 | a committed write keeps an entry at each of its offsets on its broker and its follower, for ever |
| ZeroLoss.NothingNew | internal/broker/replication.go:76-99 | only a reservation brings a new record into the system |
| ZeroLoss.NoCommittedRecordIsLost | internal/broker/replication.go:55-167 | in every run under the three hypotheses, each committed record is in the assigned leader's log at its offset with its key, value and timestamp |
| ZeroLoss.AgreementStepIff | internal/broker/replication.go:76-99 | a step keeps all records around in agreement if and only if it is not a reservation that gives an offset still around to another record |
| ZeroLoss.AgreementIffReuseFree | internal/broker/replication.go:76-99 | records agree at all times of a run if and only if none of its reservations does |
| ZeroLoss.LosslessIffLongEnough | internal/broker/controller.go:97-139 | while records agree, every committed record is in the assigned leader's log if and only if that log reaches the end of every commit |
| ZeroLoss.LosslessStepIff | internal/broker/replication.go:85-99 | a step loses a committed record if and only if it commits past the end of the assigned leader's log or assigns a broker whose log ends before some commit does |
| ZeroLoss.ZeroLossIffCareful | internal/broker/replication.go:55-167 | a run without reuse has every committed record in the assigned leader's log at all times if and only if each step passes that test |
| ZeroLoss.ZeroLossIffCompared | internal/broker/replication.go:55-167 | for every run, with reuse or without: no loss at any time if and only if each answered write is in the assigned leader's log and each new leader's log has what the old one's has at the committed offsets |
| ZeroLoss.PrudentRunIsCareful | internal/broker/controller.go:114-139 | committing at or through the assigned leader and promoting brokers that acked the last commit passes the test at every step |
| ZeroLoss.ReplicasStepIff | internal/storage/log.go:153-175 | in any state whose replicas are prefixes of one another, a step keeps them so if and only if a record it appends is the one that every longer log has at that offset |
| ZeroLoss.ReplicasAgreeIffHarmless | internal/storage/log.go:153-175 | in every run, with no assumption on it, replicas are prefixes of one another at all times if and only if every step is of that kind |
| ZeroLoss.ReuseFreeIsHarmless | internal/broker/replication.go:76-99 | without reuse of offsets every step is |
| ZeroLoss.ReplicasAgreeIffGuarded | internal/storage/log.go:161-164 | stale leaders and careless promotions alone never make replicas differ; reuse does |
| ZeroLoss.ReusedOffset | internal/storage/log.go:161-164 | a lost ack, a second write at the same offset and a promotion lose a committed record and make the logs differ |
| ZeroLoss.CommitOutOfReach | internal/broker/controller.go:114-139 | a commit by a stale leader, or a promotion of a broker without the last commit, loses it |
| ZeroLoss.NoHypothesisCanBeDropped | internal/broker/controller.go:97-139 | all three hypotheses together protect every run, and no two of them do |
| SoleLeader.SparesIsExact | internal/broker/replication.go:76-99 | a step keeps every reservation of a broker if and only if no message appends to its log while a write holds its lock |
| SoleLeader.ReservedIsNext | internal/broker/replication.go:76-99 | in any continuation of any reachable state in which the lock is free, with no such message, the reserved offset plus the records already appended is the log's next offset |
| SoleLeader.RangesAreDisjoint | internal/broker/replication.go:134-166 | writes answered in such a continuation have disjoint ranges in the order of their answers, behind all earlier ones, and each range holds its write's records |
| SoleLeader.LaterGetsLarger | internal/broker/replication.go:134-166 | a write answered after another one has larger offsets |
| SoleLeader.LogIsCommittedWrites | internal/broker/replication.go:55-167 | from any reachable state in which the lock is free, without disk errors, crashes and messages that append, the log is what it was, the writes committed since in lock order and what the lock holder has appended |
| Ids.CollectSorted | internal/metadata/metadata.go:92-105 | the sorted list of the brokers that are not down, however the map is walked |
| Ids.SortedIsUnique | internal/broker/broker.go:417-424 | a set of ids has one sorted list, so every broker computes the same one |
| Ids.LessIsAlphabetical | internal/metadata/metadata.go:101-104 | the order is the alphabetical one: the first difference decides, a prefix comes first |
| Ids.RankIsPlace | internal/broker/broker.go:417-424 | in the sorted list an id stands at the number of ids before it |
| Metadata.FSM.Apply | internal/raftfsm/fsm.go:98-134 | what each command makes of the state |
| Metadata.DownIsLastWord | internal/raftfsm/fsm.go:114-125 | after any list of commands a broker is down exactly when the last of the commands that mark, unmark or register it marks it |
| Metadata.AssignmentIsLastWord | internal/raftfsm/fsm.go:117-131 | a partition's leader and follower are those of the last command about it |
| Metadata.BrokerIsLastWord | internal/raftfsm/fsm.go:114-116 | a broker is known under the address it was last registered with |
| Metadata.CountIsLargest | internal/raftfsm/fsm.go:117-121 | the number of partitions is the largest any assignment carried |
| Metadata.FSM.Snapshot | internal/raftfsm/fsm.go:80-90 | a snapshot is the current state |
| Metadata.FSM.constructor | internal/metadata/metadata.go:50-56 | the state machine starts empty |
| Controller.PickAlive | internal/broker/controller.go:173-185 | the first registered broker in canonical order that is not marked down, is alive and is not excluded; none only if there is none |
| Controller.PickIsLeast | internal/broker/controller.go:175-183 | the broker picked is the smallest id among all that could be picked |
| Controller.WantedWorks | internal/broker/controller.go:114-130 | a proposed assignment is never broken and never names one broker twice |
| Controller.MarkPass | internal/broker/controller.go:88-95 | the down marks after any refusals; every accepted command removes exactly one fault |
| Controller.RepairPass | internal/broker/controller.go:97-139 | the assignments after any refusals; every accepted command removes exactly one fault |
| Controller.Reconcile | internal/broker/controller.go:79-140 | the whole pass under any refusals; faults left plus commands accepted is the number of faults found; which survivors it chooses is stated by the three lemmas of Convergence on changed assignments |
| Convergence.ReconcileConverges | internal/broker/controller.go:79-140 | an accepted pass makes the marks exact, gives all partitions a live leader and an empty or live follower if and only if somebody is alive or nothing is assigned, and then a second pass sends nothing |
| Convergence.OnlyDeadLeadersAreReplaced | internal/broker/controller.go:107-139 | under any refusals, a leader changes only if it was probed dead, and then to its follower if that one is alive; a changed assignment names live brokers only |
| Convergence.SurvivorsAreLeast | internal/broker/controller.go:114-125 | under any refusals, a leader chosen when both brokers are dead and a follower chosen in any repair come before every other registered, live, unmarked broker; the follower is empty only if there is no other |
| Convergence.OnlyBrokenOnesChange | internal/broker/controller.go:107-125 | a partition whose leader is alive and whose follower is empty or alive is never touched; those chosen are registered, alive and unmarked |
| Convergence.EmptyFollowerIsLeftAlone | internal/broker/controller.go:107-112 | a pass leaves a partition with a live leader and no follower as it is |
| Convergence.EmptyFollowerStaysEmpty | internal/broker/controller.go:107-112 | so does any number of passes on current states, while each finds the leader alive |
| Bootstrap.EnsureBootstrap | internal/broker/controller.go:37-73 | what one pass adds under any refusals, and that its commands are registrations and first placements |
| Bootstrap.CompleteIsGoal | internal/broker/controller.go:39-43 | the completeness test, which only compares counts, is exact on every state bootstrap produces |
| Bootstrap.OneFixedPlacement | internal/broker/controller.go:54-72 | from the empty cluster, passes with any refusals only fill in one goal fixed by the peers, and an accepted pass reaches it |
| Bootstrap.GoalByRank | internal/broker/controller.go:54-68 | partition p is led by the peer with p mod n peers before it in alphabetical order, and followed by the one with p + 1 mod n before it |
| Bootstrap.PlacementIsBalanced | internal/broker/controller.go:61-72 | each broker leads the floor or the ceiling of partitions over brokers, and follows as many |
| MetadataSafety.HistoryIsSound | internal/broker/controller.go:37-140 | for controllers working on any old states with any probes and refusals: leaders are peers, followers other peers or none, partitions in range, nothing is ever removed |
| MetadataSafety.SafeIffNotAlone | internal/broker/controller.go:61-72 | that holds for all histories if and only if not just one broker is configured |
| Naming.LogKeyInjective | internal/broker/broker.go:236 | two partitions have the same key if and only if topic and partition are the same |
| Naming.SanitizeTopic | internal/broker/broker.go:244-261 | letters, digits, hyphen and underscore stay, every other character becomes an underscore, the empty topic a single one |
| Naming.ItoaIsDecimal | internal/broker/broker.go:236 | numbers are printed in base ten without leading zeros, with a minus sign if negative |
| Naming.KeysLookLike | internal/broker/broker.go:236 | the form of a key |
| Naming.FileLooksLike | internal/broker/broker.go:290 | the form of a file name |
| Naming.CleanedFileLooksLike | internal/broker/broker.go:290 | the form of a file name whose topic had to be cleaned |
| Naming.FileNameInjective | internal/broker/broker.go:290 | two partitions have the same file if and only if the numbers are the same and the topics sanitize alike |
| Partitions.Broker.LogFor | internal/broker/broker.go:270-297 | the open log of a partition, or the recovered log of its file, opened once and kept; a refusal to open, create or truncate the file is an error that keeps no log; no other file changes |
| Partitions.Broker.ProduceLock | internal/broker/broker.go:306-322 | one lock for a partition, made at first use and kept |
| Partitions.OneLogEach | internal/broker/broker.go:270-322 | different partitions have different logs and locks; they share a file if and only if their topics sanitize alike |
| Consumer.PrintPage | cmd/consumer/main.go:69-86 | a page is printed and counted record by record and stops at the limit |
| Consumer.Round | cmd/consumer/main.go:59-87 | a round asks every partition once, in order, and moves each offset by up to 100 records as far as its answer allows, a failed fetch not at all; only the limit ends it early, in the middle of a page; it prints something exactly when it moves an offset |
| Consumer.Consume | cmd/consumer/main.go:57-103 | what was printed for each partition is exactly the stretch from the starting to the saved offset of its log in an answer the loop got, and nothing else was printed; every round but one stopped by the limit asked all partitions; a limit stops at exactly that many records; without follow the first round that moves nothing is the last, and on steady logs there is one; with follow only the limit ends the loop |
| Consumer.DeliveredForLater | cmd/consumer/main.go:57-103 | in a cluster whose logs only grow, every later answer has that stretch too |
| Consumer.SteadyIsDrained | cmd/consumer/main.go:92-97 | on logs that do not change, the end of a run without follow leaves nothing unread |
| Consumer.TotalIsBounded | cmd/consumer/main.go:57-103 | no more is printed than was unread at the start, which bounds the rounds |
| Consumer.ResumeIsSeamless | cmd/consumer/main.go:57-155 | two runs, the second from the offsets the first one saved and over the cluster as it is by then, deliver for each partition exactly its log from the first start to the last offset, as answered to one of them |
| Consumer.ConsumeTwice | cmd/consumer/main.go:57-155 | the loop run twice with the offsets saved in between delivers that |
| Producer.PartitionFor | internal/hashing/hash.go:12-23 | the partition is in range for every number of partitions that does not make the source divide by zero; 0 when there is at most one, below n modulo 2^32 otherwise |
| Producer.PartitionIsRemainder | internal/hashing/hash.go:12-23 | it is p exactly when the key's hash is a multiple of n modulo 2^32 plus p, with p below that; with one partition it is 0 |
| Producer.BucketPicks | cmd/producer/main.go:82-89 | a partition's list picks, in generation order, exactly the messages whose key belongs there |
| Producer.MessagesLookLike | cmd/producer/main.go:83-86 | the form of the generated messages |
| Producer.BucketsPartition | cmd/producer/main.go:82-89 | the sizes of the partitions' message lists add up to the number of messages |
| Producer.SortIntoPartitions | cmd/producer/main.go:82-89 | each partition's list holds exactly its messages in generation order |
| Producer.SendPartition | cmd/producer/main.go:95-110 | the chunks sent are all of the batch size but the last, add up to a prefix of the list, and to all of it in the fewest calls when every call succeeds; the first call that fails is the last |
| Producer.PublishBatch | cmd/producer/main.go:76-114 | when every call succeeds each partition has received exactly its messages in order, a message being in it exactly when its key's hash leaves that remainder, the totals are right and the calls are the sum of ceilings; partitions are served one after the other in full chunks and a rest; after the first failed call nothing is sent, and the partitions before have everything, that one a proper prefix, the later ones nothing |

## Left out

- raft itself, elections, snapshots and restore: a proposed command is accepted or refused, and accepted commands are applied one at a time.
- sockets, net/rpc encoding, dial caches, timeouts and the client's retry loop: they become outcomes of calls; a retried write is another write of the protocol.
- CRC-32 (section 8 of RFC 1952) and FNV: any function to 32 bits. Nothing proved rests on errors being detected.
- JSON of the cluster, the commands and the offset file: taken to round-trip, so Clone and the offset file are the values themselves.
- the Down map: modelled as the set of ids whose entry is true; the code never stores false.
- Storage.Log: an append that does not fit a record's fields (a key or value of 2^32 bytes, offset 2^64) is excluded; Codec.RoundTripIff shows what would be lost.
- Storage.Log.ReadFrom: the frame parser reads from a snapshot of the file, so appends that overlap a read are not modelled; in the source a lock excludes them.
- BrokerRpc.Missing: the count of missing records is unbounded; the source converts it to a signed 64-bit integer.
- Coverage: like Protocol, it leaves out untidy lives of a log.
- BrokerRpc.CommitLocally: the disk completes any number of appends and then fails in any way; a request ends at its first failure, so no second one is needed.
- BrokerRpc.HandleProduce: one request at a time on two log objects; interleavings are the business of Protocol, and a missing log or an empty topic of Partitions.Broker.LogFor.
- Partitions.Broker.LogFor: says nothing about two open logs over one file, which topics that sanitize alike get.
- Protocol: one partition; asking the follower and reading the backfill is one step; brokers are numbers; a record that a failed disk write leaves behind, to be found at the next restart, is a message that may be applied at any time or never. Lives of a log that are not tidy in the sense of LogRuns, where a restart finds other frames, are outside Protocol.
- SoleLeader: while a write holds a broker's lock, no message may append to that broker's log (SoleLeader.SparesIsExact shows that nothing less will do); with two brokers accepting writes for one partition only Coverage and the per-log lemmas apply.
- ZeroLoss: fsync is taken at its word; a disk that loses synced bytes is not modelled.
- Convergence.ReconcileConverges: partitions are numbered below the partition count, which MetadataSafety.HistoryIsSound provides.
- Convergence.EmptyFollowerStaysEmpty: a controller that works on an older state, in which the partition was broken, may still reassign it.
- Consumer.Consume: an answered fetch is a page of a log, so no bytes of a failed append may be in its reach. BrokerRpc.HandleFetch says what is answered otherwise: with a whole frame that was written but not synced behind the log, a consumer at the tail prints a record that the next write replaces.
- Consumer.Consume, how it ends: follow mode is cut after any given number of rounds; a consumer killed between printing and saving repeats what it printed in that round.
- LogRuns.ReopenLog: a restart whose truncation fails is not an operation of a life; Storage.Log.Replay says that it changes nothing and opens no log.
- Producer: the single message and the interactive mode, which send one record each.
- Append's callers: Log.Append is not used by the brokers, which reserve offsets and use AppendAt.
- the HTTP gateway, command lines, status output and the web demo.
