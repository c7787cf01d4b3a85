# MiniDist: verified model

A Dafny model of MiniDist, a Dynamo-style replicated key-value store with an object layer and the
voting and commit/apply part of Raft. The project states what the system is meant to guarantee and
proves it: for every input of its algorithms, and over every interleaving of its protocols.

`dafny verify dfyconfig.toml` checks everything.

## How it is organised

| files | what they model |
|---|---|
| `Versions`, `Sequences`, `Requests` | versions and versioned values; facts about lists and finite sets; the outcomes of a request |
| `HashRing`, `RingWalk`, `RingExit`, `VirtualNodes` | the consistent hash ring: joins, leaves, the clockwise walk and when it ends; the points and their names |
| `Wal`, `DurableStore`, `MemoryStore` | write-ahead log bytes, crash recovery, the mutable store |
| `Register`, `ReadWrite`, `QuietCalls`, `QuorumOverlap`, `Restarts` | the quorum register as a step system; what reads answer; what works when nothing fails; why quorums must overlap; what restarts break and what they do not |
| `Coordinator`, `ClientCalls`, `HintFlush` | the coordinator's loops and the calls made of them |
| `ClusterConfig`, `ConfigAgreement`, `ConfigSteps`, `MembershipSync` | publishing member lists and compensation as a step system; exactly when nodes agree; the sync handler |
| `Rebalance`, `Migration`, `ChunkMigration`, `QuorumSurvival`, `JoinSuccess` | moving keys and chunks after a membership change; quorums across the change; when the success of a join is enough |
| `ConfigPublisher`, `JoinLoss` | adding and removing members end to end: drain, publish, rebalance, roll back; a successful join that loses a quorum |
| `Gossip` | the failure detector with incarnations and self-refutation |
| `Gc`, `Collector`, `ChunkStore` | mark and sweep of chunks, and one node's chunk directory |
| `Objects`, `ObjectCollection` | chunking, metadata, reading objects back with fallback and repair; uploads and collections together |
| `Raft`, `RaftRuns` | one Raft node; many of them running together |

Code that changes state step by step is a class or a loop here too, and each such method is proved
equal to a function of its inputs and of the old state. Protocols are step systems built from those
same functions: a state, a `Step` datatype, the steps that are `Enabled`, what a step does (`Do`), and
`Run`, which plays any list of steps. Main results are about `Run` of every list. A request to another
node has three outcomes: applied and acknowledged, applied but reported as an error, or not applied
(and possibly applied later, where the network allows it). Choices of the environment - which request
fails, what order a Go map is iterated in, what a rival goroutine does between a load and a swap - are
parameters, and the theorems hold for all of them. `Lookup`, `Entry` and `OwnerOf` spell out Go's zero
value for a missing map key.

## Hypotheses, where a theorem needs one

- Ring: every member has at least one virtual node, and points of different members differ (points of
  the same member may coincide). `ExactIffPoints` shows that the first is exactly what `GetN` needs,
  `JoinUndoneIff` that the second is exactly what makes a leave undo a join, and `HistoriesAgreeIff` that it is
  exactly what makes the ring independent of its history.
- Register: write and read quorum together exceed the number of owners of a key, which
  `InOrderIffOverlapping` shows to be exactly what real-time order needs; the ring is fixed. Real-time order
  needs nothing of restarts (`RealTimeOrderAcrossRestarts`); that versions are unique needs exactly that a node's
  store has caught up with the node's counter when it restarts (`HarmlessIffCovers`). A restart keeps
  exactly the versions covered that owners hold or other nodes have hints for (`CoveredAfterRestart`), so
  `FinishedRoundsCovered` and `Converged` speak of runs without any.
- Hints: no replica name, followed by `|`, starts another. `HintKeysMeetIff` shows that this is exactly when
  hints of different replicas stay apart.
- Store: the record codec decodes what it encoded; a crash leaves a prefix of the write on disk.
- Membership changes: names that can ever be members have separate points and at least one point each, and
  nothing else changes the member list meanwhile; client writes during a change are covered by
  `JoinKeepsQuorum`, `LeaveKeepsQuorum` and `FailedJoinSparesIff`, whose runs interleave them freely.
- Configuration: one coordinator, which does not remove itself, takes no configuration from a sync to itself
  that it saw fail (one that is no longer newer changes nothing and is allowed), and does not miss its own
  rollback. A run without these three is called sound. `AgreementIff` shows that agreement needs exactly the
  three: with any one of them allowed, some run ends in disagreement.
- Gossip: no restart and no node untracks itself; every clock reads at least one nanosecond.
- Collection: fixed members, agreeing clocks, no metadata deleted by a rebalance, and uploads whose
  metadata lands within the grace period of each chunk write.
- Objects: the content hash separates the chunks in question, and metadata decodes to what was encoded.
- Raft: node names and candidate names are not empty, one applier per node, no restart.

## Where the code differs from what it is meant to do

- A file that ends right after a record's frame reads as a clean end, because `io.ReadFull` of the
  payload returns EOF. Replay leaves the frame in place, and the next acknowledged operation is lost at
  the following restart. `TornTailReplay` and `CrashRecovery` give the exact condition,
  `DanglingLosesAppend` and `AcknowledgedOpLost` the loss.
- A crash that leaves one to seven bytes of the file header makes the log unusable at the next start
  (`CrashRecovery`, `OpenAfterCut`).
- `WriteFromReader` stores the error of its write in the same `err` as the error of the read before it, so a
  short read never ends the loop; the next read does. The chunk list is the same
  (`Objects.LocalStore.WriteFromReader`).
- `AddMember` does not look at the failure counts of the rebalances it asks for. Its success alone means that
  quorums have passed to the new owners exactly for the keys and chunks of which the join displaces no owner, or
  for which the quorum is zero or more than there are owners (`SuccessPassesIff`, `ChunkSuccessPassesIff`). For
  every other key and chunk `JoinLosesQuorum` is a call that succeeds and loses the quorum. For those
  `ConfigPublisher.Cluster.AddMember` says when the replies show that they have passed.
- A join that is rolled back can cost a key one copy (`FailedJoinSparesIff`).
- Two nodes can end up at one configuration version with different members in exactly three ways
  (`AgreementIff`); the `...BreaksAgreement` lemmas give the runs.
- A restarted node counts on from the largest counter in its own store. If it had handed out more than that, it
  hands out a version again (`HarmlessIffCovers`); in `RestartDiverges` two puts of one key then share a version,
  and its owners differ with no hint left, although the second put succeeded.
- A vote for an empty candidate name reads as no vote, so a second candidate gets one in the same term;
  this happens exactly for that name (`SecondVote`).
- When two members collide on a point, adding and removing the second one leaves the first without
  that point (`CollisionBreaksHistory`).
- The guard of the `GetN` loop compares the owners met with the number of points. If points of
  different members collide, some points share an owner and fewer owners than wanted are left, the loop
  never ends (`EndsIff`, without a key in `EndsIffOwners` and `GetNAlwaysEndsIff`, with a two-member ring in
  `CollisionWalksForever`).

## Model

| member | source | states |
|---|---|---|
| `Versions.CompareVersionSeparates` | internal/store/memory.go:137-155 | two versions compare equal only if counter and node are the same, and the comparison is antisymmetric |
| `Versions.CompareVersionIff` | internal/store/memory.go:137-155 | a version is below another exactly if its counter is, or the counters are equal and its node name comes first, character by character |
| `Versions.NewerIff` | internal/node/replication.go:28-34 | a copy is newer exactly if the other's version is below its own |
| `Versions.LeqTransitive` | internal/store/memory.go:137-155 | the order on versions is transitive |
| `Versions.VersionsTotallyOrdered` | internal/store/memory.go:137-155 | versions are totally ordered, so "newest copy" is well defined |
| `HashRing.CanonicalUnique` | internal/hashring/ring.go:11-18 | a member set determines the whole ring: owners of points, sorted point list with multiplicities, members |
| `HashRing.AddedCanonical` | internal/hashring/ring.go:37-58 | adding a member to a well-formed ring gives the well-formed ring of the larger member set |
| `HashRing.RemovedCanonical` | internal/hashring/ring.go:148-178 | removing a member gives the well-formed ring of the smaller member set |
| `HashRing.BuiltCanonical` | internal/hashring/ring.go:21-34 | New builds the well-formed ring of its list |
| `HashRing.ChangesCanonical` | internal/hashring/ring.go:37-58 | every sequence of joins and leaves stays on well-formed rings |
| `HashRing.HistoryIndependent` | internal/hashring/ring.go:21-58 | any joins and leaves ending in a member set yield exactly the ring New builds from any ordering of that set |
| `HashRing.CollisionBreaksHistory` | internal/hashring/ring.go:148-178 | whenever a member's only points belong to a newcomer too, a join followed by the leave takes them from it |
| `HashRing.HistoriesAgreeIff` | internal/hashring/ring.go:21-58 | over any set of names, the history of the ring never matters if and only if no two names share a point |
| `VirtualNodes.VirtualNameReadsBack` | internal/hashring/ring.go:46-52 | the name of a virtual node is the address, a # and a decimal number, and gives both back |
| `VirtualNodes.VirtualNamesDiffer` | internal/hashring/ring.go:46-52 | no two virtual nodes share a name, even if addresses contain # |
| `VirtualNodes.RingPoints` | internal/hashring/ring.go:37-58 | with a hash that separates the names a ring has exactly members times virtual nodes points, and a point belongs to the member after whose name it is hashed |
| `VirtualNodes.AddedPoints` | internal/hashring/ring.go:37-58 | on any ring a join adds one entry per virtual node, owns exactly the hashes of its names, and leaves the other points |
| `VirtualNodes.RemovedPoints` | internal/hashring/ring.go:148-178 | on any ring a leave takes exactly the hashes of the leaver's names |
| `VirtualNodes.FirstReplicaIsNext` | internal/hashring/ring.go:104-145 | the first replica of a key is the owner of the least point at or above its hash, or of the least point of all |
| `RingWalk.LapIsRotation` | internal/hashring/ring.go:104-127 | walking from the binary-search index with wrap-around visits one lap: first the points at or above the hash, then the rest |
| `RingWalk.PreferenceListsMembers` | internal/hashring/ring.go:104-145 | one lap meets every member exactly once in the preference order |
| `RingWalk.ReplicasExact` | internal/hashring/ring.go:104-145 | GetN yields exactly min(n, members) distinct members |
| `RingWalk.ExactIffPoints` | internal/hashring/ring.go:108-145 | a populated ring answers with min(n, members) owners if and only if members own points |
| `RingWalk.RemoveFromPreference` | internal/hashring/ring.go:148-178 | removing a member deletes it from every key's preference order and changes nothing else |
| `RingWalk.MinimalMovement` | internal/hashring/ring.go:148-178 | on a leave the old replica list without the leaver is a prefix of the new one, which has at most one more |
| `RingWalk.MinimalMovementOnJoin` | internal/hashring/ring.go:37-58 | on a join the new replica list without the newcomer is a prefix of the old one: at most one owner is displaced |
| `RingWalk.JoinThenLeave` | internal/hashring/ring.go:148-178 | leaving undoes joining exactly |
| `RingWalk.JoinUndoneIff` | internal/hashring/ring.go:148-178 | leaving undoes joining if and only if the newcomer's points miss everybody else's |
| `RingWalk.Ring.Add` | internal/hashring/ring.go:37-58 | the mutable ring after Add is the ring function Added of the old one |
| `RingWalk.Ring.Remove` | internal/hashring/ring.go:148-178 | the filtering over the very list being read leaves exactly the ring function Removed of the old one |
| `RingWalk.Ring.Search` | internal/hashring/ring.go:111-118 | the binary search finds the least point at or above the hash, or the length if there is none |
| `RingWalk.Ring.GetN` | internal/hashring/ring.go:104-145 | on every ring reached by Add and Remove, collisions included, on which the walk ends, it ends within one lap with the first members of the preference order, as many as wanted and there are |
| `RingWalk.Compact` | internal/hashring/ring.go:170-177 | compacting a list into its own front keeps exactly the wanted points, in order |
| `RingWalk.ReachableOwned` | internal/hashring/ring.go:37-58 | on every ring reached by joins and leaves, colliding or not, the owner of a listed point is known |
| `RingWalk.ChosenReplicas` | internal/hashring/ring.go:104-145 | without colliding points the walk ends and chooses exactly the replicas |
| `RingExit.EndsIff` | internal/hashring/ring.go:128-144 | on any ring, collisions included, the walk ends if and only if there are as many owners as wanted or as points |
| `RingExit.GetNEndsIff` | internal/hashring/ring.go:104-144 | the condition under which GetN is modelled is exactly that its loop ends |
| `RingExit.EndsIffOwners` | internal/hashring/ring.go:128-144 | on rings reached by joins and leaves the walk ends, for any key, if and only if the points have as many owners as wanted or as points |
| `RingExit.GetNAlwaysEndsIff` | internal/hashring/ring.go:104-145 | on such rings GetN returns for every key and count if and only if the points have as many owners as there are members, or as there are points |
| `RingExit.CollisionWalksForever` | internal/hashring/ring.go:128-144 | a two-member ring with colliding points on which asking for two replicas never ends |
| `Wal.BigEndianRoundTrip` | internal/store/wal.go:283-335 | four-byte lengths and checksums read back what was written |
| `Wal.FileHeaderIs` | internal/store/wal.go:12-16 | the file header is the letters MDWL, version one in two bytes, and two zero bytes |
| `Wal.RecordLayout` | internal/store/wal.go:283-301 | a record is its length, in headed logs its checksum, then the payload |
| `Wal.ReadRecordIff` | internal/store/wal.go:304-335 | bytes are read as a record exactly if all of it is there, it is no larger than 16 MiB and the checksum fits; refused exactly if too large or the checksum differs |
| `Wal.OpenFileIff` | internal/store/wal.go:237-280 | a file is refused exactly if it is too short for a header or has the right letters and another version |
| `Wal.ScanCut` | internal/store/wal.go:304-335 | scanning any cut of an encoding hands over the whole records before it and says how it ended |
| `Wal.TornTailReplay` | internal/store/wal.go:105-157 | for every cut, Replay applies exactly the whole records and leaves exactly their encoding, except at a frame without payload |
| `Wal.ReplayRoundTrip` | internal/store/wal.go:105-157 | replaying a whole log hands over exactly the records appended |
| `Wal.DanglingLosesAppend` | internal/store/wal.go:304-335 | a record appended behind a frame without payload is never replayed: cut off as torn, or refused on the checksum |
| `Wal.ScanThrough` | internal/store/wal.go:105-157 | scanning whole records and then anything is handing over the records and scanning the rest |
| `Wal.ScanValid` | internal/store/wal.go:105-157 | the bytes kept by a repair scan to the same records and need no second repair, whatever they are |
| `Wal.OpenAfterCut` | internal/store/wal.go:37-84 | a log cut anywhere can be opened unless one to seven bytes of its header are left |
| `Wal.WAL.Append` | internal/store/wal.go:87-102 | an oversized payload is refused; otherwise the file grows by exactly one encoded record |
| `Wal.WAL.Replay` | internal/store/wal.go:105-157 | the loop hands over what the scan says and truncates a torn tail to the last whole record |
| `Wal.WAL.Truncate` | internal/store/wal.go:168-185 | the file is the bare header again |
| `DurableStore.EffectIsReplay` | internal/store/memory.go:214-268 | what replaying a log does to one key, as a function of the old value of that key alone |
| `DurableStore.EffectForgets` | internal/store/memory.go:108-126 | a log that writes a key forgets the old value; one that does not keeps or deletes it |
| `DurableStore.GetAfterSet` | internal/store/memory.go:62-134 | reading after a write never goes back, is at least the written version if it could be logged, and other keys read as before |
| `DurableStore.GetAfterDelete` | internal/store/memory.go:170-211 | reading after a conditional delete: nothing exactly if the version matched and the deletion could be logged, otherwise as before; other keys as before |
| `DurableStore.ReplayedEntry` | internal/store/memory.go:233-262 | what replaying one entry does to its key, to other keys and to the largest counter |
| `DurableStore.EveryPrefixIsPossible` | internal/store/wal.go:87-102 | any prefix of a record, or of a new file header, can be all that a crash leaves |
| `DurableStore.ReplayIdempotent` | internal/store/memory.go:214-268 | replaying a whole log over the state it produced changes nothing, although the writes are unguarded |
| `DurableStore.RecoverConsistent` | internal/store/memory.go:214-268 | a store in step with its disk reopens to itself and leaves the disk alone |
| `DurableStore.OpKeepsConsistent` | internal/store/memory.go:62-105 | Set, DeleteIfMatch and saveSnapshot keep disk and memory in step |
| `DurableStore.CutAppend` | internal/store/wal.go:87-102 | the log after a crash inside an append, and what reopening it gives |
| `DurableStore.CrashRecovery` | internal/store/memory.go:62-105 | a crash anywhere reopens to the store before or after the operation, fails exactly on a torn file header, and stays well formed exactly if no bare frame was left |
| `DurableStore.RecoverySettles` | internal/store/memory.go:214-268 | on any disk, a second restart gives the same store as the first, unless repair left a headerless log shorter than a header: exactly then it fails |
| `DurableStore.RecoveryCrash` | internal/store/wal.go:37-84 | a crash during recovery changes nothing for the next restart, unless it tears a new file header: exactly then it fails |
| `DurableStore.InterruptedSame` | internal/store/wal.go:209-219 | any number of such crashes one after the other change nothing either |
| `DurableStore.InterruptedMore` | internal/store/wal.go:209-219 | each interrupted restart works on the disk the one before it left |
| `DurableStore.DanglingIsIllFormed` | internal/store/wal.go:304-335 | a log ending in a bare frame encodes no list of entries |
| `DurableStore.RunsAreIdeal` | internal/store/memory.go:214-268 | over every run of operations and crashes, also crashes of the restarts, that tears no file header and leaves no bare frame, the store equals the crash-free history: nothing acknowledged is lost |
| `DurableStore.AcknowledgedOpLost` | internal/store/wal.go:105-157 | after a crash at a bare frame, the next acknowledged operation is gone after the following restart |
| `MemoryStore.Memory.Set` | internal/store/memory.go:62-105 | version-guarded: performs exactly the set operation on memory, log and snapshot, and stays recoverable |
| `MemoryStore.Memory.DeleteIfMatch` | internal/store/memory.go:170-211 | deletes exactly the matching version, on memory, log and snapshot, and stays recoverable |
| `MemoryStore.Memory.MaybeSnapshot` | internal/store/memory.go:311-331 | takes a snapshot exactly from the threshold on; contents unchanged |
| `MemoryStore.Memory.SaveSnapshot` | internal/store/memory.go:288-339 | snapshot file and emptied log stand for the same contents |
| `MemoryStore.OpenMemory` | internal/store/memory.go:214-268 | opens exactly the recovered store and repaired disk, or fails exactly when recovery does |
| `MemoryStore.ReplayInto` | internal/store/memory.go:233-262 | the replay callback loop applies all entries in order |
| `Register.StepKeeps` | internal/store/memory.go:62-105 | no step makes a replica forget a version, or uncovers a version a round has covered |
| `Register.StepKeepsOp` | internal/node/replication.go:195-300 | an operation keeps its key and its allocated value or selected result |
| `Register.InvAlways` | internal/node/replication.go:53-80 | the register invariant holds after every interleaving of steps |
| `Register.RealTimeOrder` | internal/node/version.go:16-98 | a write acknowledged before another operation starts: a later write gets a greater counter, a later read selects a copy at least as new |
| `QuorumOverlap.InOrderIffOverlapping` | internal/node/node.go:68-70 | every run is in real-time order if and only if any read quorum meets any write quorum |
| `QuorumOverlap.StaleRead` | internal/node/replication.go:214-262 | without overlap, a read after an acknowledged write can find nothing |
| `Register.EqualVersionEqualValue` | internal/node/version.go:79-97 | two copies of equal version anywhere (stores, hints, wire, listed hints) are the same key and value |
| `Register.AllocationsUnique` | internal/node/version.go:79-97 | no two write operations are allocated the same version |
| `Register.FinishedRoundsCovered` | internal/node/replication.go:53-80 | after a finished round every owner holds the version or its coordinator holds a hint at least that new |
| `Register.Converged` | internal/node/hint.go:86-97 | with no round in progress and no hint left for a key, all its owners hold the identical value, whatever other keys do |
| `ReadWrite.OperationsAsStarted` | internal/node/replication.go:195-300 | an operation keeps the kind, key and coordinator it was started with in every run |
| `ReadWrite.WritesWhatWasAsked` | internal/node/replication.go:195-211 | in every run a put replicates exactly its data, live, and a delete a tombstone |
| `ReadWrite.ReadsAnswerWrites` | internal/node/replication.go:214-281 | every read answers what was asked of the one write of its key it saw: the data of a put, not found for a delete or if it saw none |
| `ReadWrite.SameVersionSameAnswer` | internal/node/replication.go:214-281 | a read that selects the version of a put answers exactly its data, of a delete not found |
| `ReadWrite.LastWriteIsRead` | internal/node/replication.go:214-281 | a read that starts after a write was acknowledged answers exactly that write, unless a newer one of the key was begun |
| `ReadWrite.DecidesOnQuorum` | internal/node/version.go:54-76 | once all owners are heard a call is refused exactly without a read quorum; before that nothing is decided |
| `ReadWrite.ReturnsOnQuorum` | internal/node/replication.go:66-80 | a round succeeds, and counts as acknowledged, exactly with a write quorum |
| `ReadWrite.ReportsOnce` | internal/node/replication.go:53-80 | each owner reports once to a round |
| `ReadWrite.HintIsHandedOff` | internal/node/hint.go:86-97 | a flush lists exactly its node's hints; an acknowledged hand-off puts the hinted version on the replica, and dropping removes that hint and no other |
| `ReadWrite.LaggingIsRepaired` | internal/node/replication.go:268-274 | after a read every replica that answered with less is being sent exactly the newest copy, and no other is |
| `ReadWrite.FailedWriteMayArrive` | internal/node/replication.go:66-77 | a write request that failed leaves a hint, and may arrive after anything else that happens |
| `QuietCalls.WriteWorks` | internal/node/replication.go:195-211 | from any state a put or delete that reaches all owners succeeds, and they all hold exactly its value |
| `QuietCalls.WriteThenRead` | internal/node/replication.go:195-300 | from any state such a write followed by a read of all owners answers exactly the data, or not found after a delete |
| `Restarts.CoreAlways` | internal/node/node.go:44-80 | the part of the register invariant that real-time order rests on holds in every run with restarts |
| `Restarts.RealTimeOrderAcrossRestarts` | internal/node/version.go:16-98 | real-time order holds in every run, with any nodes restarting at any time and losing their counters, hints and operations |
| `Restarts.CoveredRestartsAreHarmless` | internal/node/node.go:76 | while a node's store reaches what the node has handed out whenever it restarts, versions are unique and equal versions mean equal values |
| `Restarts.HarmlessIffCovers` | internal/node/node.go:76 | after a restart no run hands out a version twice if and only if the node's store reaches every counter it had handed out |
| `Restarts.CoveredAfterRestart` | internal/node/hint.go:21-26 | a version is still covered after a restart if and only if its replica holds it or the hint for it is another node's |
| `Restarts.RestartedMeans` | internal/node/node.go:44-80 | a restart ends the node's operations, drops its hints, reads its counter off its store and changes nothing else but that unfinished writes may still arrive |
| `Restarts.RestartDiverges` | internal/node/version.go:79-97 | with three copies and quorums of two, one restart and two puts of a key end with different values under one version on its owners, the second put successful, and no round and no hint left |
| `Coordinator.HintKeyInjective` | internal/node/hint.go:29-31 | hint keys are unambiguous among names of which none, followed by the separator, starts another |
| `Coordinator.HintKeysMeetIff` | internal/node/hint.go:29-31 | hints for two replicas can share a slot if and only if one name, followed by the separator, starts the other |
| `Coordinator.HintStore.Add` | internal/node/hint.go:34-53 | on the slots exactly the guarded write; among names that stay apart it keeps only a strictly newer value for the same replica and key, other hints unchanged |
| `Coordinator.HintStore.RemoveIfMatch` | internal/node/hint.go:69-83 | on the slots exactly the conditional delete; among names that stay apart it removes the hint exactly if it still has that version |
| `Coordinator.ReplicateValue` | internal/node/replication.go:53-80 | success exactly from a write quorum of acknowledgements, and a hint for every failed replica |
| `Coordinator.RoundEnds` | internal/node/replication.go:53-80 | a replication round is a run of per-replica steps of the register |
| `Coordinator.RoundRefines` | internal/node/replication.go:53-80 | its result is the one the register's return step gives |
| `Coordinator.SelectLatest` | internal/node/replication.go:214-262 | counts the answers and picks a newest copy among them, whatever order they arrive in |
| `Coordinator.RepairTargets` | internal/node/replication.go:263-281 | repairs go to exactly the replicas that answered with less than the newest copy |
| `Coordinator.LargestCounter` | internal/node/version.go:16-76 | the largest counter among the answers of the version read quorum |
| `Coordinator.AllocateCounter` | internal/node/version.go:79-97 | the compare-and-swap loop ends and hands out a counter above everything read or installed before it |
| `ClientCalls.AllocateVersion` | internal/node/version.go:16-98 | a version of this node exactly with a read quorum, above every counter answered and every counter handed out here |
| `ClientCalls.Put` | internal/node/replication.go:195-211 | the data, live, under a new version; success exactly with both quorums; hints for exactly the failed replicas |
| `ClientCalls.Delete` | internal/node/replication.go:284-300 | a tombstone under a new version; success exactly with both quorums; hints for exactly the failed replicas |
| `ClientCalls.Get` | internal/node/replication.go:214-281 | with a read quorum the data of a newest copy, or not found for a tombstone or none; repairs exactly the replicas behind it |
| `ClientCalls.AllocationIsStep` | internal/node/version.go:79-97 | the version and the value of a call are those of the register's allocation step |
| `ClientCalls.SelectionIsStep` | internal/node/replication.go:214-281 | what a call answers and repairs is the register's selection step |
| `HintFlush.NoHintLost` | internal/node/hint.go:86-97 | a hint leaves only after its replica holds at least its version, and no replica goes back |
| `HintFlush.AcknowledgedDropped` | internal/node/hint.go:69-83 | a hint whose hand-off was acknowledged is gone afterwards |
| `HintFlush.FlushHints` | internal/node/hint.go:86-97 | every hint is kept or delivered; if all hand-offs are acknowledged, the hint store is empty |
| `HintFlush.FlushIsRun` | internal/node/hint.go:86-97 | the loop is a run of hand-off and drop steps of the register |
| `ClusterConfig.InvKept` | internal/node/cluster_membership.go:120-168 | every step of publishing, failing, compensating and late delivery keeps the configuration invariant |
| `ClusterConfig.Agreement` | internal/node/cluster_membership.go:120-168 | two nodes at the same version of at least one have the same members, in every sound run |
| `ClusterConfig.VersionsNeverFall` | internal/node/handler.go:187-211 | no step lowers a node's version, and a node keeps its members while its version stays |
| `ClusterConfig.VersionsNeverFallInRuns` | internal/node/handler.go:187-211 | versions never fall as a run goes on |
| `ClusterConfig.CoordinatorIsNewest` | internal/node/cluster_membership.go:148-168 | whenever the coordinator is idle nobody is ahead of it |
| `ClusterConfig.ChangeStarts` | internal/node/cluster_membership.go:28-118 | a join starts exactly for a node that is no member, a leave exactly for one that is and is not the last; what is published is the coordinator's list with that one change, one version on |
| `ClusterConfig.NewerIsTaken` | internal/node/handler.go:187-195 | a sync changes its target exactly if its configuration is newer, and nobody else |
| `ClusterConfig.FailedSyncMayArrive` | internal/node/cluster_membership.go:128-135 | a sync seen to fail may arrive after anything else that happens |
| `ConfigAgreement.AgreementIff` | internal/node/cluster_membership.go:120-168 | every run from every initial state agrees if and only if all three things are ruled out: removing itself, hearing a failed sync after all, missing its rollback |
| `ConfigAgreement.RemovingItselfBreaksAgreement` | internal/node/cluster_membership.go:85-117 | a coordinator that removes itself uses the next version twice, and two nodes disagree at it |
| `ConfigAgreement.HalfFailedSyncBreaksAgreement` | internal/node/cluster_membership.go:158-167 | a sync to itself reported as failed that arrives all the same leaves the failed members under the rollback's version |
| `ConfigAgreement.MissedRollbackBreaksAgreement` | internal/node/cluster_membership.go:158-167 | a coordinator that misses its own rollback uses the rollback's version again |
| `ConfigPublisher.Cluster.AddMember` | internal/node/cluster_membership.go:28-52 | succeeds exactly if every member takes sync and rebalance; then each has exactly the new configuration and every quorum for a version, or chunk, has passed to the new owners if no owner was displaced or a cleanly rebalanced node held it; otherwise the coordinator is back on its old members, two versions up, and old owners keep every quorum with slack |
| `ConfigPublisher.Cluster.RemoveMember` | internal/node/cluster_membership.go:85-117 | succeeds exactly if the node drains and every other member takes sync and rebalance; then every quorum the rest can form, for keys and chunks, has passed to the new owners; otherwise every quorum is where it was, and nothing is published unless the node drained |
| `ConfigPublisher.Cluster.Without` | internal/node/cluster_membership.go:171-181 | the list without one member, in order |
| `ConfigPublisher.Cluster.ApplyClusterConfig` | internal/node/cluster_membership.go:120-145 | the two loops are a sound run of the step system and end idle, all applied or rolled back; the rebalances in between are one run under one placement |
| `ConfigPublisher.Cluster.RebalanceAll` | internal/node/cluster_membership.go:137-142 | every node rebalances under the ring it has by then, which is the same for all; replies without failures are from clean rebalances |
| `ConfigPublisher.Cluster.Compensate` | internal/node/cluster_membership.go:148-168 | best-effort rollback ends with the coordinator on the rollback configuration |
| `ConfigSteps.PublishAnswered` | internal/node/cluster_membership.go:128-135 | what one answered or failed publishing request does to nodes and job |
| `ConfigSteps.UndoAnswered` | internal/node/cluster_membership.go:159-167 | what one compensation request does; the last one restores the coordinator |
| `MembershipSync.Member.Sync` | internal/node/handler.go:187-213 | version zero refused, old versions ignored, otherwise the ring becomes the one New builds from the list |
| `MembershipSync.Member.RemoveGone` | internal/node/handler.go:197-204 | removes exactly the members no longer listed |
| `MembershipSync.Member.AddAll` | internal/node/handler.go:206-209 | adds exactly the listed members |
| `MembershipSync.AgreeingNodesAgreeOnOwners` | internal/node/cluster_membership.go:120-168 | nodes at the same configuration version place every key on the same owners, in every sound run |
| `Rebalance.MoveKeeps` | internal/node/rebalance.go:24-78 | an owner never loses a version |
| `Rebalance.BackedAlways` | internal/node/rebalance.go:24-78 | in every run a cleaned key is backed by its owners |
| `Rebalance.NewestNeverLost` | internal/node/rebalance.go:24-78 | no interleaving of writes and rebalances, several of one node at once included, lowers the newest version of a key held in the cluster |
| `Rebalance.CleanRebalanceSpreads` | internal/node/rebalance.go:24-78 | after a rebalance with zero failures every owner holds what its node held, whatever else went on |
| `Rebalance.QuietRebalanceConverges` | internal/node/rebalance.go:24-78 | after failure-free rebalances, repeated ones included, every owner holds the newest copy and no other node holds the key |
| `Rebalance.BeginMeans` | internal/node/rebalance.go:24-34 | a rebalance begins with exactly what its node holds |
| `Rebalance.CopyMeans` | internal/node/rebalance.go:36-58 | every other owner is asked once; an acknowledged copy is on it, a failed one changes nothing there |
| `Rebalance.CleanMeans` | internal/node/rebalance.go:60-73 | a key is cleaned exactly off a node that does not own it, once all owners took it, and only in the copied version |
| `Rebalance.FinishMeans` | internal/node/rebalance.go:24-78 | a rebalance can finish exactly when every key has been dealt with |
| `Rebalance.PutMeans` | internal/store/memory.go:62-105 | other writes go on at any time, and only replace older copies |
| `Migration.Cluster.Drain` | internal/node/drain.go:17-55 | keys, then chunks: success exactly if every read and request succeeded; then every future replica holds the drained data and valid chunk copies, and nothing was lost |
| `Migration.Cluster.DrainKey` | internal/node/drain.go:24-30 | one key to all its future replicas, stopping at the first failure |
| `Migration.Cluster.Rebalance` | internal/node/rebalance.go:24-78 | the key loops are a finished run of the step system from any state; its reports are the outcomes of the requests; zero failures means a clean job; every failed copy has a hint; all eight counters are exact |
| `Migration.Cluster.CopyKey` | internal/node/rebalance.go:36-58 | every other replica is asked once; allCopied says whether all acknowledged |
| `Migration.Cluster.CopyOne` | internal/node/rebalance.go:40-57 | an acknowledged copy is counted; a failed one is counted and hinted; no key of this node disappears |
| `Migration.Cluster.CleanUp` | internal/node/rebalance.go:60-73 | a key not owned here and copied everywhere is deleted only if unchanged since the snapshot |
| `ChunkMigration.Chunks.Drain` | internal/node/drain.go:33-52 | success exactly if the directory can be listed and every chunk read and sent; then every future replica has a valid copy |
| `ChunkMigration.Chunks.Rebalance` | internal/node/rebalance.go:109-141 | the three counters are exact; no failure means every owner has a valid copy; nothing is deleted |
| `QuorumSurvival.JoinKeepsQuorum` | internal/node/cluster_membership.go:28-52 | a quorum holding a version before a join is a quorum of the new owners once one of its holders has rebalanced cleanly, in any interleaving |
| `QuorumSurvival.LeaveKeepsQuorum` | internal/node/cluster_membership.go:85-117 | a quorum holding a version before a successful leave is a quorum of the new owners after any later run |
| `QuorumSurvival.JoinKeepsChunkQuorum` | internal/node/cluster_membership.go:28-52 | the same for chunks on a join |
| `QuorumSurvival.LeaveKeepsChunkQuorum` | internal/node/cluster_membership.go:85-117 | the same for chunks on a leave |
| `QuorumSurvival.FailedJoinSparesIff` | internal/node/cluster_membership.go:137-142 | after a join that is rolled back the old owners keep a write quorum, in every run, if and only if the quorum is not all of them or no owner was displaced |
| `QuorumSurvival.FailedLeaveSpares` | internal/node/cluster_membership.go:137-142 | after a leave that is rolled back the old owners keep every quorum they had |
| `QuorumSurvival.DrainRingIsSurvivorRing` | internal/node/drain.go:17-22 | the ring a draining node builds is the ring the survivors reach |
| `JoinSuccess.SuccessPassesIff` | internal/node/cluster_membership.go:28-52 | quorums of a key pass to the new owners in every run in which all targets finish a rebalance, if and only if the join displaces no owner of the key, or the quorum is zero or more than there are owners |
| `JoinSuccess.ChunkSuccessPassesIff` | internal/node/rebalance.go:109-141 | the same for chunks |
| `JoinLoss.LosesIff` | internal/node/cluster_membership.go:137-142 | some set of old owners is a quorum and no quorum of the new owners, if and only if an owner is displaced and the quorum is one the owners can form |
| `JoinLoss.JoinLosesQuorum` | internal/node/cluster_membership.go:137-142 | for every such key and chunk, a call of AddMember that succeeds on every node and after which the quorum is gone |
| `Gossip.StatusRoundTrip` | internal/node/membership.go:107-132 | a status survives its text form |
| `Gossip.StatusWords` | internal/node/membership.go:107-132 | the three words on the wire, and that every other word is taken as suspicion |
| `Gossip.FailureDetector.constructor` | internal/node/membership.go:33-53 | tracks the given nodes, itself with the clock as incarnation |
| `Gossip.FailureDetector.MarkSuccess` | internal/node/membership.go:56-70 | alive, failures reset, version raised, other entries unchanged |
| `Gossip.FailureDetector.MarkFailure` | internal/node/membership.go:73-90 | suspect, dead from the third failure on, version raised |
| `Gossip.FailureDetector.Merge` | internal/node/membership.go:178-213 | merging a message is merging its claims one after the other |
| `Gossip.FailureDetector.RefuteSelf` | internal/node/membership.go:229-242 | a claim that is not older raises the own incarnation above it, alive |
| `Gossip.ProbesDecide` | internal/node/membership.go:56-90 | only failures since the last answered probe count: none is alive, one or two suspect, three dead; every probe raises the version |
| `Gossip.ProbesAreRun` | internal/node/probe.go:102-128 | a run of probes changes nothing but the probed node's entry in the probing node's table |
| `Gossip.MergedIsNewest` | internal/node/membership.go:178-213 | after a merge no claim about another node is later than its entry, which is the old one or says what a claim said |
| `Gossip.OwnEntryAfter` | internal/node/membership.go:178-190 | a claim about the node itself outbids exactly if it doubts it and is later than its own entry |
| `Gossip.TrackedLikeUnknown` | internal/node/membership.go:245-257 | for every later claim a freshly tracked node is told apart from an unknown one in exactly one way |
| `Gossip.UntrackedComesBack` | internal/node/membership.go:260-265 | an untracked node is back with the next claim about it that is worth an entry |
| `Gossip.FollowingKeeps` | internal/node/membership.go:245-257 | following a node leaves what is known of it, and everything else, as it was |
| `Gossip.ForgettingRemoves` | internal/node/membership.go:260-265 | forgetting a node removes its entry and no other |
| `Gossip.InvAlways` | internal/node/membership.go:178-242 | in every run own entries are alive and bound every claim about them |
| `Gossip.SuspicionsAreRefutable` | internal/node/membership.go:178-242 | no table entry outruns its subject, and a suspicion is either superseded by the subject or refuted on hearing |
| `Gossip.MessagesAreRefutable` | internal/node/gossip.go:23-54 | the same for claims on the wire |
| `Gossip.ExchangeClearsSuspicion` | internal/node/membership.go:178-242 | one exchange between accuser and accused ends with the accused alive in both tables |
| `Gossip.ExchangeIsRun` | internal/node/gossip.go:23-54 | the same as a run with whole messages: once the accuser has told all it knows and the accused has answered so, the accuser calls it alive |
| `Gossip.AlwaysPossible` | internal/node/gossip.go:23-54 | a node can at any time probe another, tell exactly what its table says, and hear anything that was told |
| `Gc.InvAlways` | internal/node/gc.go:209-260 | in every interleaving of uploads, writes and collections, sweeps that stop half-way included, the collection invariant holds |
| `Gc.CurrentObjectsIntact` | internal/node/gc.go:119-169 | every acknowledged copy referenced by current live metadata stays stored |
| `Gc.PendingUploadsIntact` | internal/node/gc.go:209-260 | an upload that can still land in time has all its acknowledged copies |
| `Gc.SweepSparesLateUploads` | internal/node/gc.go:209-260 | a sweep spares copies of uploads whose metadata landed after the collection began |
| `Gc.LiveOnlyGrows` | internal/node/gc.go:119-153 | what a collection has marked stays marked |
| `Gc.SweepSparesMarked` | internal/node/gc.go:42-66 | a chunk referenced by live metadata at the member's mark is never deleted by that collection |
| `Gc.UploadCanLand` | internal/object/store.go:41-82 | after any run an upload can complete, and its copies and its record are then stored |
| `Gc.OthersGoOn` | internal/chunk/store.go:56-109 | time, other chunk writes and other metadata writes go on at any time and touch nothing else |
| `Gc.LiveAtIff` | internal/node/gc.go:42-66 | a member contributes to a mark exactly the chunks of its own live records |
| `Gc.SweepMeans` | internal/chunk/store.go:229-278 | a sweep deletes exactly the old unmarked copies of its node that it reaches |
| `Collector.Cluster.MarkLiveChunks` | internal/node/gc.go:42-66 | marks exactly the chunks of live metadata; fails exactly if some live metadata does not decode |
| `Collector.Cluster.CollectLiveChunks` | internal/node/gc.go:119-153 | succeeds exactly if every member answers under one configuration that is still the coordinator's at the end; then the union of their marks |
| `Collector.Cluster.SweepFiles` | internal/chunk/store.go:229-278 | deletes exactly the orphans, counts them right, and stops at the first file it cannot remove |
| `Collector.Cluster.RequestSweep` | internal/node/gc.go:156-206 | succeeds exactly if the configuration matches, the files can be removed and the reply arrives; a lost reply still swept only orphans |
| `Collector.Cluster.RunGC` | internal/node/gc.go:209-260 | whatever fails, only orphans on the members swept disappear; it succeeds exactly if every member marks, no configuration changes and every member then listed can delete, and then all orphans there are gone and counted |
| `Collector.CollectionIsRun` | internal/node/gc.go:209-260 | whatever an uninterrupted collection does, up to where it stops, is a run of begin, mark and sweep steps of the protocol, so its safety results apply |
| `Collector.ValidIdIff` | internal/chunk/store.go:180-190 | an identifier is valid exactly if it is 64 hexadecimal digits of either case |
| `Collector.HashIsValidId` | internal/chunk/store.go:49-53 | the text of every 32-byte hash is valid |
| `ObjectCollection.OnlyMetadataMarks` | internal/node/gc.go:42-66 | a chunk is marked exactly by a live value whose key begins with object:meta: and that refers to it |
| `ObjectCollection.MarkFailsIff` | internal/node/gc.go:42-66 | a mark fails exactly if a live value under such a key does not decode |
| `ObjectCollection.UploadIsMarked` | internal/object/store.go:122-126 | the collector recognises what the object layer stores: every chunk of an upload is marked where its metadata is held |
| `ObjectCollection.OthersMarkNothing` | internal/node/gc.go:46-53 | tombstones and values under other keys make no difference to a mark |
| `ObjectCollection.PutThenCollect` | internal/node/gc.go:209-260 | an upload, then a collection: no chunk of the upload disappears if a marked member holds its metadata, whatever fails |
| `ChunkStore.Directory.Put` | internal/chunk/store.go:56-109 | the chunk is intact with the current time, other files unchanged, an intact copy keeps its bytes; a failure changes nothing |
| `ChunkStore.PutIsPutCopy` | internal/chunk/store.go:56-109 | to the object layer a put is exactly its copy step: an intact copy keeps its bytes, anything else becomes the data |
| `ChunkStore.Directory.Get` | internal/chunk/store.go:112-135 | data only with the hash asked for, and which error otherwise |
| `ChunkStore.Directory.Delete` | internal/chunk/store.go:138-152 | removes that file only; a missing chunk counts as deleted |
| `Objects.SplitJoin` | internal/object/store.go:168-203 | cutting a stream into chunks and joining them again loses and reorders nothing |
| `Objects.Reader.ReadFull` | internal/object/store.go:178-186 | fills the buffer from the stream and tells a full, a short, an empty and a failed read apart |
| `Objects.FetchFindsValid` | internal/node/chunk.go:158-191 | a read finds data exactly if some owner, when asked, is reachable and has a matching copy, and then data of that hash |
| `Objects.Cluster.PutChunk` | internal/node/chunk.go:82-118 | succeeds exactly with a write quorum of acknowledgements, each of which left a valid copy |
| `Objects.Cluster.GetChunk` | internal/node/chunk.go:158-191 | the fallback loop returns the first reachable matching copy, without changing the cluster |
| `Objects.Cluster.RepairChunk` | internal/node/chunk.go:233-251 | repair never spoils a valid copy |
| `Objects.Cluster.WriteChunks` | internal/object/store.go:168-203 | succeeds exactly if the stream is whole and every chunk is accepted; the chunk list of the stream in order, each with a write quorum of valid copies |
| `Objects.Cluster.Put` | internal/object/store.go:41-82 | commits exactly if the stream is whole and every chunk is accepted by a write quorum; size, chunk size and chunk list are those of the bytes |
| `Objects.Cluster.WriteTo` | internal/object/store.go:85-120 | writes the chunks in order and stops at the first missing or wrong-sized one, each chunk read in its own environment |
| `Objects.ReadObjectIff` | internal/object/store.go:85-120 | an object can be read exactly if every chunk is found with its recorded size and the sizes add up |
| `Objects.Cluster.Lookup` | internal/object/store.go:129-148 | the metadata under the key of the name, if the register answers and it decodes |
| `Objects.Cluster.Delete` | internal/object/store.go:206-215 | a tombstone under the key of the name |
| `Objects.Cluster.Get` | internal/object/store.go:151-165 | finds the metadata, if that read succeeds, and writes the object it describes |
| `Objects.ObjectRoundTrip` | internal/object/store.go:41-120 | Put then Get gives back the bytes while, as each chunk is read, fewer than a write quorum of its acknowledged copies are bad or unreachable |
| `Objects.PutThenGet` | internal/object/store.go:41-165 | an upload followed by a download of the name, metadata lookup included: found, and the bytes written are the bytes uploaded, under the same condition |
| `Objects.DeleteThenGet` | internal/object/store.go:151-215 | after a successful delete a download finds nothing, without an error |
| `Objects.LocalStore.WriteFromReader` | internal/chunk/chunker.go:18-53 | the second chunking loop ends, succeeds exactly if the stream is whole and no chunk fails, and yields the same chunk list |
| `Raft.UpToDateIsTotalOrder` | internal/raft/vote.go:60-66 | "at least as up to date" is a total order on log ends |
| `Raft.GrantsIff` | internal/raft/vote.go:15-66 | a vote is granted exactly for a current or newer term whose vote is free or already this candidate's, to a log ending in a later term, or in the same one and no earlier |
| `Raft.SecondVote` | internal/raft/vote.go:15-58 | a second candidate of the same term gets a vote exactly if the first vote went to the empty name |
| `Raft.MessagesStable` | internal/raft/raft.go:199-225 | what was delivered depends on the entries up to that index only |
| `Raft.Server.constructor` | internal/raft/raft.go:54-62 | a follower in term zero with only the dummy entry |
| `Raft.Server.AppendEntry` | internal/raft/raft.go:122-134 | the entry becomes the last of the log, at the index answered |
| `Raft.Server.RequestVote` | internal/raft/vote.go:15-58 | granted exactly to a log that ends in a later term, or in the same one and no earlier, where the vote is free or already this candidate's; term, role and vote afterwards |
| `Raft.Server.StartElection` | internal/raft/election.go:4-29 | a new term with a vote for itself, and a request the node would itself grant again |
| `Raft.Server.TruncateFrom` | internal/raft/raft.go:154-170 | which of the four outcomes, and the log cut exactly on success |
| `Raft.Server.AdvanceCommit` | internal/raft/raft.go:174-188 | only forward and only within the log |
| `Raft.Server.ApplyCommitted` | internal/raft/raft.go:199-225 | sends exactly the committed entries not sent before, in order |
| `RaftRuns.InvAlways` | internal/raft/raft.go:32-51 | in every run votes are remembered, one per term, and each applier is where its log says |
| `RaftRuns.OneVotePerTerm` | internal/raft/vote.go:15-58 | a node votes for at most one candidate in a term, itself included |
| `RaftRuns.VotesWereCast` | internal/raft/vote.go:15-58 | every recorded vote was cast in one step of the run, on the log its voter had just then |
| `RaftRuns.VotesAreRecorded` | internal/raft/vote.go:15-58 | every vote that is due is given |
| `RaftRuns.OneWinner` | internal/raft/vote.go:15-58 | at most one candidate of a term has the votes of a majority |
| `RaftRuns.WinnerIsUpToDate` | internal/raft/vote.go:44-56 | a winner was at least as up to date as some voter in every majority |
| `RaftRuns.CandidatesVoteForThemselves` | internal/raft/election.go:4-8 | a candidate has voted for nobody else in its term |
| `RaftRuns.NothingTakenBack` | internal/raft/raft.go:105-188 | terms, commit index and applied index never fall, committed entries never change, deliveries are only added to |
| `RaftRuns.DeliveredInOrder` | internal/raft/raft.go:199-225 | deliveries are entries 1, 2, 3 and onward, all committed, applied <= delivered <= commit index < log length |
| `RaftRuns.DeliveredForGood` | internal/raft/raft.go:199-225 | a delivered entry is in the log at its index ever after |
| `RaftRuns.EntryIsDelivered` | internal/raft/raft.go:199-225 | a node that has applied all it has can take a new entry through to its state machine, as the next and last message |
| `RaftRuns.StepsDown` | internal/raft/raft.go:105-120 | hearing of a newer term clears the vote, of this one only the role |
| `RaftRuns.Truncates` | internal/raft/raft.go:154-170 | uncommitted entries are cut off, committed ones never |

## Left out

- HTTP routing and clients, JSON, gRPC and generated code: requests are steps, codecs are round-trip hypotheses.
- SHA-256 and CRC-32: arbitrary functions, separating only where a theorem says so.
- Integer widths: counters, versions, terms and log indexes are natural numbers; wrap-around of uint64 is not modelled.
- Restarts while members change, collections run or Raft votes are held; `Restarts` covers the register and `DurableStore` the store.
- The snapshot file format: the snapshot is a value replaced atomically, with a crash point on each side of the rename.
- Logs without a file header are part of `Wal` but not of the whole-run results in `DurableStore`.
- Writes that fail without a crash and leave partial bytes behind.
- fsync, temporary files and directory layout.
- `NewMemory` without a log, `ForceSet` from debug handlers, and the debug endpoints.
- Timers, tickers, probe timeouts, choice of random targets, logging, `cmd/node`.
- Times of the last success and failure in the failure detector; they influence no decision.
- Rebalances that go on after their request was given up, while the configuration is already being rolled back: a rebalance here runs under one ring.
- Changes of the member list, or requests of other clients, in the middle of one `AddMember` or `RemoveMember` call: the calls are verified as such, interleavings by the step systems.
- ConfigPublisher.Cluster.AddMember: not for a coordinator whose sync to itself fails and arrives all the same, or that misses its own rollback; there agreement is lost, as `HalfFailedSyncBreaksAgreement` and `MissedRollbackBreaksAgreement` show.
- ConfigPublisher.Cluster.RemoveMember: the same two, and not for the coordinator itself, as `RemovingItselfBreaksAgreement` shows.
- ConfigPublisher.Cluster.ApplyClusterConfig: the same two conditions as `AddMember`.
- ConfigPublisher.Cluster.Compensate: not for a coordinator that misses its own rollback.
- Members changed by several coordinators at once, and linearizable reads; the code promises neither.
- Interleaving inside a loop: loops are verified as one call, other requests in between are covered by the step systems, whose steps the loops are proved to take.
- Retries inside a step: `Register` allocates a version in one step, the compare-and-swap retries are in `Coordinator.AllocateCounter`.
- Configuration checks and undecodable metadata during a collection are in `Collector`; in `Gc` a collection that aborts just stops taking steps.
- The metadata register under the object layer is taken to return what was stored; its own guarantees are those of `Register`.
- Raft leader election completion, AppendEntries, persistence and Leader Completeness: not in the code.
- Raft peers, the capacity of the apply channel, and RPC transport.
- `Exists`, `IDs`, `Snapshot`, single-owner `Get`, the list of alive members: they would only add easy members.
- RingWalk.Ring.GetN: only on rings on which its loop ends; `RingExit.GetNEndsIff` says exactly which those are.
- Gc.CurrentObjectsIntact: speaks of the member on which an upload's metadata first landed; that an upload is referenced by every other replica is not claimed.
