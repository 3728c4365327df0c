# Verified model of a Raft scaffold's storage, network and wire forms

This project models three parts of the actix-raft scaffold in Dafny and proves
what they keep over every run.

**Storage.** `MemoryStore.dfy` holds the storage engine and its snapshot actor
as classes with mutable fields; `StorageSpec.dfy` says what each handler, or each
stage of a handler that waits for the snapshot actor, does to the state.
`LayeredLog.dfy` is the same engine without files: a pointer simply holds the
entries it stands for. The theorems are in `SnapshotHistory.dfy` (the engine with
pointers and files refines the one without, so compaction loses nothing, whatever
the interleaving), `PointerChains.dfy` (following pointers ends),
`SnapshotLimits.dfy`, `FileReuse.dfy` and `NameReuse.dfy` (exactly what happens when
a caller breaks one of the rules), `Compaction.dfy` (what a snapshot leaves behind),
`SnapshotTransfer.dfy` (a snapshot made by one engine and installed by another),
`ChunkFile.dfy` (a file built from chunks with offsets) and `StorageBatches.dfy`
(batches against single steps, range reads).

**Network.** `NetworkSpec.dfy` is one network with the node actors it has started,
as a state machine: a step is a message the network handles or a piece of work of
an actor, and an actor's status messages reach the network in the order sent. What a
handler leaves to a later poll of its future is a step of its own, so other messages
can come in between.
`Networks.dfy`, `Nodes.dfy` and `NetworkStates.dfy` are the mutable objects, each
method proved against its step. The theorems are in `Registry.dfy` (what every run
keeps, and which panics are left), `Connections.dfy` (who ends up connected and
isolated), `NodeSetHistory.dfy` (the same for every run, told from its messages),
`Routing.dfy` (gates, leader, cluster changes), `Continuations.dfy` (what happens to
calls and requests that are continued later), `Delivery.dfy` and `ForwardingLoops.dfy`
(a Raft call through a cluster of networks), `RunFacts.dfy` (registry, status, leader and Raft
of a whole run, told from its events alone), `ClusterChanges.dfy` (no cluster change is
lost or doubled, and none removes a node), `NodeAttempts.dfy` (how
attempts end, and the branches of the connect protocol that are not reached),
`NetStateLemmas.dfy` and `StatusTimes.dfy` (timeline, metrics, durations, node sets;
over `NetStateSpec.dfy`).

**Identity and wire forms.** `NodeIds.dfy` is the id arithmetic, `Entities.dfy` the
conversions between Raft messages and wire entities with their round trips.
`RaftMessages.dfy` and `Wrappers.dfy` hold the shared data types.

Conventions. A handler that panics yields `None` in the state machines; in the
classes the panicking call is a precondition. A snapshot path is kept as the pair
of its directory and the index that names the file. Times are integers in
nanoseconds. Serializers are partial functions; the theorems ask only that what
was encoded decodes to itself. The answer of a remote node, the clock, the digest
and the state of links are parameters.

Where the code differs from what one might expect, the code is modelled:
`apply_status_change` never stores the status, so an actor stays `Initialized` and
every failure counts as the first; a weakly connected node is isolated until it is
connected; a refused batch of the state machine has already replaced the entry it
was refused for; installing a snapshot keeps the log above its index even when the
terms differ, where section 7 of the extended Raft paper discards the whole log.

## Model

| member | source | states |
|---|---|---|
| SnapshotHistory.HistoryConserved | tests/fixtures/memory_storage.rs:221-407 | after any interleaving of appends, replications, snapshot requests (several may be in flight), file writes, failed file writes, completions, receptions and installations, the latest write at every index is read back by following pointers from the log through the files; no file in use may be written again, writes must stay out of ranges being captured and off the live pointers, and an installed snapshot must agree with the captures still under way |
| SnapshotHistory.RunSimulates | tests/fixtures/memory_storage.rs:221-407 | as long as no file in use is written again, every run does to log, files and captures exactly what it does to an engine in which a pointer holds its entries, with no rule on where or when writes and installations happen |
| SnapshotHistory.CompletedSimulates | tests/fixtures/memory_storage.rs:334-353 | trimming the log and leaving the pointer puts what was captured in place of everything up to the index, also with other captures outstanding and whichever of them completes first |
| SnapshotHistory.FileFailedSimulates | tests/fixtures/memory_storage.rs:487-492 | a snapshot file that could not be written, whatever it contains, costs nothing |
| LayeredLog.StepKeeps | tests/fixtures/memory_storage.rs:221-407 | every message keeps the latest write at every index readable, now and after each snapshot under way has completed in its turn |
| PointerChains.PointersEnd | tests/fixtures/memory_storage.rs:303-355 | after any such run every pointer leads to a legible file, and names get smaller on the way, so following pointers ends |
| SnapshotLimits.RisingNames | tests/fixtures/memory_storage.rs:313-316 | a request above every pointer and every snapshot under way is always for a name that is not in use |
| SnapshotLimits.UpwardConserves | tests/fixtures/memory_storage.rs:221-407 | a caller that only moves upwards, writing, asking for snapshots and receiving files above every pointer and every snapshot under way, and installing above that with nothing under way, loses nothing |
| SnapshotLimits.SnapshotRestores | tests/fixtures/memory_storage.rs:303-353 | whatever happened since it was asked for, a snapshot that completes puts every index up to its own back to what was captured, leaves only what was not captured to higher pointers, and changes nothing above |
| SnapshotLimits.WriteDuringSnapshot | tests/fixtures/memory_storage.rs:230-231 | a write made between request and completion, with any messages before and after it, survives if and only if it repeats what was captured, or nothing was and a higher pointer says the same |
| SnapshotLimits.WriteOverPointer | tests/fixtures/memory_storage.rs:221-233 | a write at the key of a pointer keeps the history if and only if everything else that is not live can be read behind the other pointers; with no other pointer, if and only if everything else is live |
| SnapshotLimits.LateCompletion | tests/fixtures/memory_storage.rs:334-407 | an own snapshot that completes after an installation keeps the installed history if and only if its capture agrees with it, which for a lower index means that the installed snapshot says all that the capture says; the metadata goes back to the older snapshot and both pointers stand in the log |
| FileReuse.FileRewritten | tests/fixtures/memory_storage.rs:313-317 | writing any file, in use or not, keeps the history if and only if every read that gets to the file finds the same with its new bytes as with its old ones |
| FileReuse.ReplacedBehind | tests/fixtures/memory_storage.rs:313-317 | the same for reading through any list of entries, a capture under way for one: a read that gets to the file takes its new answer, every other read is as without the file |
| NameReuse.RequestConserves | tests/fixtures/memory_storage.rs:303-355 | for every index, above, at or below the last completed one and whatever is outstanding, a snapshot keeps the history if and only if each index its capture does not know is readable, without the old file of that name, from what the log keeps above |
| NameReuse.RequestOutcome | tests/fixtures/memory_storage.rs:303-355 | what is read at every index after such a snapshot |
| NameReuse.OnePointerConserves | tests/fixtures/memory_storage.rs:313-342 | with one pointer in the log and nothing under way: a snapshot above the pointer always keeps the history, one at it if and only if all history is live, one below it if and only if what is not live can be read behind the pointer without the old file of that name |
| NameReuse.RepeatLoses | tests/fixtures/memory_storage.rs:313-342 | from an empty engine: repeating a snapshot of one index makes its file point to itself, and the entry is gone |
| NameReuse.LowerLoses | tests/fixtures/memory_storage.rs:313-342 | from an empty engine: a snapshot below the last one overwrites a file in use; the entry is gone, the metadata falls back, two pointers stand in the log |
| NameReuse.OutstandingLoses | tests/fixtures/memory_storage.rs:313-342 | the same with the later snapshot still under way |
| NameReuse.ReceptionConserves | tests/fixtures/memory_storage.rs:540-588 | a reception, complete or not, keeps the history if and only if every read that gets to its file finds the same as before; if the file is not in use it also costs no snapshot under way anything |
| NameReuse.BrokenReceptionLoses | tests/fixtures/memory_storage.rs:545-551 | from an empty engine: a reception for the index of the last snapshot that breaks before its first chunk empties the file, and the entry is gone |
| Compaction.SnapshotTaken | tests/fixtures/memory_storage.rs:303-355 | for any index, logged or not, with anything outstanding and anything handled meanwhile: metadata and pointer carry index and term of the last captured entry (zeros for none), the file holds the log up to the index as it was, the log keeps what is above, nothing else changes |
| Compaction.CompactionKeepsLast | tests/fixtures/memory_storage.rs:172-195 | the last index reported after a restart survives a compaction if and only if the compaction does not go beyond it; the last term survives always |
| Compaction.RunKeyed | tests/fixtures/memory_storage.rs:303-355 | as long as snapshots are asked for at logged indices, every entry, pointers too, stays under its own index |
| Compaction.KeyedExactly | tests/fixtures/memory_storage.rs:306-342 | a snapshot keeps entries under their own index if and only if its index is logged, or zero |
| SnapshotTransfer.TransferDelivers | tests/fixtures/memory_storage.rs:313-407 | chunks of the sender's bytes in any cut, order and repetition, with other handlers running between the stages: the receiver's log becomes its old entries above the index plus the pointer, and its state machine the sender's log prefix, unless it had an entry of that index and term, when the machine is left alone |
| SnapshotTransfer.TransferConserves | tests/fixtures/memory_storage.rs:303-407 | two runs from empty engines composed: the sender's first snapshot, its stream and the installation leave exactly the sender's history up to the index merged with the receiver's above, and the rebuilt state machine is the sender's history up to the index |
| SnapshotTransfer.RebuiltIfNeverWritten | tests/fixtures/memory_storage.rs:389-405 | told from the messages: a receiver that never wrote at the index, nor compacted or replaced its log there, has its state machine rebuilt from the file |
| SnapshotTransfer.KeptIfWritten | tests/fixtures/memory_storage.rs:389-397 | a receiver that wrote the entry of that index and did not touch it since keeps its state machine if the terms are equal, and has it rebuilt if not |
| SnapshotTransfer.InstallFails | tests/fixtures/memory_storage.rs:378-405 | an installation reports an error if and only if something failed while the stream was received, no chunk was final, or the file has to be read back and cannot be |
| SnapshotTransfer.TransferCompleteIff | tests/fixtures/memory_storage.rs:313-342 | the transferred prefix is the sender's whole history up to the index if and only if no captured entry is a pointer and each index up to there is live; for an index above all pointers, if and only if it is the sender's first snapshot |
| ChunkFile.ReassemblyExact | tests/fixtures/memory_storage.rs:558-580 | chunks that agree with a source rebuild it, in any order and with overlaps, if and only if every byte they leave out is a zero other than the last byte |
| ChunkFile.CoveringChunksRebuild | tests/fixtures/memory_storage.rs:558-580 | chunks that cover the source rebuild it |
| ChunkFile.LastChunkWins | tests/fixtures/memory_storage.rs:558-580 | any chunks, agreeing or not: every byte is that of the last chunk that covers it, or zero, and the file ends with a covered byte |
| ChunkFile.WrittenChunks | tests/fixtures/memory_storage.rs:557-580 | what is written of a stream: its chunks up to the first failure, and of a chunk whose write failed its first bytes |
| StorageBatches.ReplicateInParts | tests/fixtures/memory_storage.rs:244-247 | replicating a batch is replicating its parts in turn |
| StorageBatches.BatchLatest | tests/fixtures/memory_storage.rs:244-247 | after a batch an index holds the last entry of the batch for it, or what it held before |
| StorageBatches.ApplyBatch | tests/fixtures/memory_storage.rs:282-296 | a batch is accepted if and only if its indices are new and distinct, and then nothing was replaced; a refused batch has applied exactly the entries through the first clash |
| StorageBatches.RangesConcatenate | tests/fixtures/memory_storage.rs:212-218 | adjacent range reads join up |
| StorageBatches.RangeOrdered | tests/fixtures/memory_storage.rs:212-218 | a range read lists what the log holds at exactly the keys in range, by increasing key, whatever index the entries carry |
| MemoryStore.SnapshotActor.SyncInstallSnapshot | tests/fixtures/memory_storage.rs:540-588 | the file becomes the reassembly of the chunks received, up to a broken stream or the written part of a chunk whose write failed; the call succeeds if and only if the file could be created, nothing failed and some chunk was final |
| MemoryStore.SnapshotActor.DeserializeSnapshot | tests/fixtures/memory_storage.rs:510-525 | yields the decoded file, or an error if and only if it is missing or unreadable |
| MemoryStore.SnapshotActor.CreateSnapshotWithData | tests/fixtures/memory_storage.rs:487-492 | writes that file and no other; a fault leaves other bytes in it, or leaves it as it was or absent, and is reported |
| MemoryStore.MemoryStorage.constructor | tests/fixtures/memory_storage.rs:128-145 | the initial state |
| MemoryStore.MemoryStorage.GetInitialState | tests/fixtures/memory_storage.rs:172-195 | last index, applied index and term of the entry with the largest key, zeros for an empty log, and the hard state |
| MemoryStore.MemoryStorage.SaveHardState | tests/fixtures/memory_storage.rs:202-205 | replaces the hard state only |
| MemoryStore.MemoryStorage.GetLogEntries | tests/fixtures/memory_storage.rs:212-218 | the entries of the range in key order |
| MemoryStore.MemoryStorage.AppendEntryToLog | tests/fixtures/memory_storage.rs:225-232 | takes the append step |
| MemoryStore.MemoryStorage.ReplicateToLog | tests/fixtures/memory_storage.rs:239-248 | takes the append steps of the batch one by one |
| MemoryStore.MemoryStorage.ApplyEntryToStateMachine | tests/fixtures/memory_storage.rs:255-271 | inserts the entry, and reports an error if and only if the index was occupied |
| MemoryStore.MemoryStorage.ReplicateToStateMachine | tests/fixtures/memory_storage.rs:278-296 | applies one by one up to the first clash; success if and only if the indices are new and distinct |
| MemoryStore.MemoryStorage.CreateSnapshot | tests/fixtures/memory_storage.rs:303-328 | captures and serializes the log through the index; a serializer error changes nothing |
| MemoryStore.MemoryStorage.ServeSnapshot | tests/fixtures/memory_storage.rs:328-333 | the file of the oldest unserved request is written, or the request ends with a fault |
| MemoryStore.MemoryStorage.FinishCreateSnapshot | tests/fixtures/memory_storage.rs:335-353 | trims the log, leaves the pointer, caches and returns the metadata, for any served request |
| MemoryStore.MemoryStorage.ReceiveSnapshot | tests/fixtures/memory_storage.rs:362-375 | at most the file changes, whether or not the stream completes: log, state machine and metadata stay |
| MemoryStore.MemoryStorage.FinishInstallSnapshot | tests/fixtures/memory_storage.rs:378-406 | sets metadata, log and pointer; a rebuild is due if and only if the log had no entry of that index and term |
| MemoryStore.MemoryStorage.RebuildStateMachineFromSnapshot | tests/fixtures/memory_storage.rs:437-457 | the state machine becomes the entries of the file; on error nothing changes |
| Connections.ConnectionsSettle | src/network/node.rs:143-322 | after any run from startup, once no status message is on its way, no registered node is isolated; if nobody was disconnected no node is isolated at all, and a node is connected if and only if one of its actors completed a connect |
| Connections.StepKeepsSets | src/network.rs:909-935 | at every step a registered node is isolated only while one of its actors is half connected, and without disconnects the two sets hold exactly the nodes that were weakly connected |
| Connections.DisconnectStrands | src/network.rs:1129-1136 | disconnecting a node leaves it isolated, until somebody connects it again, if and only if it is isolated at that moment |
| Connections.StrandingHappens | src/network.rs:1129-1136 | a quiet run from startup that leaves a disconnected node isolated |
| NodeSetHistory.SetsFromBoot | src/network.rs:909-935 | after any run from startup, quiet or not and with any disconnects, a node is isolated if and only if a handled status isolated it and nothing restored it since, and connected if and only if it was isolated once and the last of these events is a restore by registration or by a handled status |
| Registry.StepKeeps | src/network.rs:210-545 | every step keeps: all entries have info and a started actor of the right kind, except the own node before Raft is registered; the own actor submits to the Raft registered last once it has been sent and has handled what waits for it; the status is Joining, Up or Leaving; a step panics if and only if it registers Raft without an own entry or continues a snapshot call whose target is not registered, or is the own node before Raft |
| Registry.BootOk | src/network.rs:126-185 | a network that was created, configured and started has the invariant, whatever the order of the visits |
| Registry.ActorLanguage | src/network/node.rs:144-321 | an actor has at most one attempt outstanding and has sent failures of one attempt, then weakly connected, then connected, or a prefix of that |
| Routing.RunFromBoot | src/network.rs:310-391 | after any run from startup the invariant holds, a step panics in those two situations only, and once Raft is registered every entry has info and an actor |
| Continuations.RaftPanics | src/network.rs:383-388 | reached from startup: registering Raft after the own node was disconnected |
| Continuations.ForwardingPanics | src/raft/network.rs:104-151 | a snapshot call that was let in panics when it is continued, whatever was handled in between, if and only if its target was disconnected in between and not connected again, or is the own node and Raft is still not registered |
| Continuations.CallStays | src/raft/network.rs:144-151 | a call that was let in waits, whatever is handled, until it is forwarded |
| Continuations.OwnSnapshotPanics | src/raft/network.rs:146-151 | reached from startup: a snapshot for the own node before Raft panics when it is continued, and does not if Raft is registered in between |
| Continuations.DisconnectedSnapshotPanics | src/raft/network.rs:146-151 | reached from startup, with Raft registered: a snapshot for a node that is disconnected before the call is continued panics |
| Continuations.LeaderMissed | src/network.rs:631-650 | a client request ends in a not-leader error if and only if the leader it resolved is another node that was disconnected before the request was continued and not connected again |
| Continuations.LeaderMissedHappens | src/network.rs:631-650 | such a request reached from startup |
| Routing.ActorsSpeakInRuns | src/network/node.rs:215-413 | after any run from startup every actor keeps to the message language and is local if and only if it is for the own node |
| Routing.GatesAgree | src/raft/network.rs:34-163 | once Raft is registered, or for another node, the three handlers let a call in under one condition (target registered, neither end isolated), and two forward it at once to the target's actor; a snapshot call goes to the actor registered when it is continued, and panics if there is none; before Raft the first two refuse calls for the own node and the third lets them in |
| Routing.LeaderIsLookup | src/network.rs:198-207 | if nothing happens between its stages, resolving the leader for a client request yields exactly the address registered for the known leader, no leader if and only if that leader is unknown or unregistered, and an unknown error only for the own node before Raft is registered |
| Routing.LeaderResolved | src/network.rs:631-663 | the closed form over two states, the one that resolves the leader and the one that looks another leader's address up: no leader, an unknown error, a not-leader error if and only if another node led and is not registered any more, or the leader's actor |
| Routing.LeaderAnswered | src/network.rs:795-832 | a query for the current leader panics if and only if no leader is known at any of its handlings, and else tells the first leader known |
| Continuations.QueryAnswers | src/network.rs:795-832 | told from the messages: a query for the current leader answers the leader that the last metrics message handled by then names, at the first of its handlings when one is named |
| Continuations.QueryPanics | src/network.rs:795-832 | it panics if and only if at none of its handlings the last metrics message named a leader |
| Continuations.FreshQueryPanics | src/network.rs:741-760 | with the limit of the source, a query for the current leader panics if and only if no leader was named by the last metrics message at any of four handlings |
| Continuations.BootHasNoMetrics | src/network.rs:126-154 | a network that has just started knows no leader, so both hold of every run from startup |
| Routing.ChangesStayLocal | src/network.rs:860-1115 | a cluster change is passed only to the actor of the own node, and whatever actor gets to one proposes exactly that change to the local Raft, so the unimplemented remote change is not reached |
| Delivery.OneHop | src/raft/network.rs:34-163 | the closed form of delivery from a well-routed network in a cluster that changes between all stages: a call is refused at one of two gates, lost on a link that is down, reaches the Raft of its target unchanged after at most one remote hop, or, a snapshot call only, panics at one of the two networks because its target was disconnected there after it was let in |
| Delivery.OwnRaftIsLatest | src/network.rs:402-438 | the Raft that calls for the own node reach is the one registered last, as soon as no change of proximity waits for the own actor or is still to be sent to it |
| Delivery.DeliveryFollowsWalk | src/raft/network/node/remote.rs:59-92 | with any addresses, in a cluster that changes: a call is delivered if and only if following next hops through open gates comes to its target in time, then unchanged to the target's own Raft; it crashes if and only if it comes to a network that lets it in and then loses the target; it is still being forwarded if and only if the walk goes on |
| ForwardingLoops.ForwardsForever | src/raft/network/node/remote.rs:59-92 | in a cluster that does not change, a call is forwarded for ever if and only if it is still being forwarded after as many hops as there are networks |
| ForwardingLoops.FrozenNeverCrashes | src/raft/network.rs:144-151 | in a cluster that does not change no call crashes |
| ForwardingLoops.MisroutedForever | src/raft/network.rs:34-163 | the routing condition is needed: two networks, each out of a run from startup in which it was told the other's address for a third node, forward a call for that node for ever |
| RunFacts.RegistryFromBoot | src/network.rs:946-1136 | after any run from startup a node is registered if and only if the last connect or disconnect of it was a connect, or it met neither and was configured; its info is the last it was given, and among seeds with one id the last counts |
| RunFacts.StatusFromBoot | src/network.rs:484-545 | after any run from startup the status and the length of the timeline are those of its metrics messages alone, whatever was handled between them |
| RunFacts.TimelineFromBoot | src/network.rs:484-545 | the timeline after any run from startup, entry by entry with its times: Joining from the start, Up from the first metrics message of a voter, Leaving from the first of a non-voter after that |
| RunFacts.DurationsFromBoot | src/network/state.rs:108-115 | the time spent in each status after any run from startup, from those times, in whole milliseconds |
| RunFacts.StepStarts | src/network.rs:210-274 | a message starts an actor if and only if it connects a node with new info (the own node only once Raft is known) or registers the first Raft, and the actor is a new one of that node with one attempt to make |
| RunFacts.LatestKept | src/network.rs:362-545 | after any run the known metrics are those of the last metrics message and the Raft is the one registered last |
| ClusterChanges.ChangesConserved | src/network.rs:860-1115 | in any run every connect of a node is accounted for exactly once: waiting in the network or a mailbox, proposed to the local Raft, or turned away because the network did not lead |
| ClusterChanges.ChangesSettle | src/network.rs:946-1115 | from startup, with nothing waiting any more, the proposals for a node and the changes turned away add up to its connects, and every proposal removes nobody and adds one connected node |
| ClusterChanges.ChangesOnlyAdd | src/network.rs:1066-1070 | after any run from startup every cluster change that waits or was proposed removes nobody and adds exactly one node, which some connect of the run named |
| NetStateLemmas.TimelineRun | src/network/state.rs:78-104 | after any accepted changes the timeline is well formed, Removed stands only last, and its length is at most seven plus the repeats of Down |
| NetStateLemmas.RunIsPath | src/network/state.rs:78-104 | changes are accepted if and only if they form a legal path, and the timeline records that path |
| StatusTimes.LegalPaths | src/network/state.rs:91-104 | the accepted paths in full: from Joining up the ladder as far as one likes, with or without the weak step, then Down for as long as one likes; Removed only ends a path, after Down or after the whole ladder |
| StatusTimes.TimelineOf | src/network/state.rs:78-89 | the timeline of a run entry by entry: its status, entered at the time of the change, left at the time of the next |
| StatusTimes.DurationOf | src/network/state.rs:108-115 | how long a run stayed in each status but Down: from its change to the next or to now, in whole milliseconds |
| StatusTimes.NeverEntered | src/network/state.rs:108-115 | a status that was never entered has no duration |
| StatusTimes.BackwardClockPanics | src/network/state.rs:108-115 | asking for a duration panics if and only if the clock is a whole millisecond or more behind the start |
| StatusTimes.MetricsAct | src/network.rs:507-536 | from any status, metrics messages act as exactly these changes: Up from Joining or WeaklyUp with the first voter, Leaving from Up with the first non-voter; they panic if and only if a non-voter reports while Down |
| NetStateLemmas.MetricsRun | src/network.rs:484-545 | every sequence of metrics messages from the initial state runs without a panic and ends in Joining, Up or Leaving as it contains no vote, a vote, or a non-voter after a vote, with one to three timeline entries |
| NetStateLemmas.MetricsPanic | src/network.rs:507-536 | a metrics message panics if and only if it is a non-voter's in a network that is Down |
| NetStateLemmas.TimeAccounted | src/network/state.rs:35-38 | after any accepted changes under a clock that does not run backwards, no duration is negative, so asking for one never panics, and all together, in milliseconds of a million nanoseconds, never exceed the time since the start and fall short of it by less than one millisecond per entry |
| RunFacts.TimeFromBoot | src/network/state.rs:108-115 | the same for a network after any run from startup whose metrics messages come at rising times |
| NetStateLemmas.AnySplit | src/network/state.rs:108-115 | the parallel sum is the same for every way of cutting the timeline |
| NetStateLemmas.NodeSetsAreHistory | src/network/state.rs:137-153 | the two sets are disjoint; a node is isolated if and only if it was isolated and not restored since, connected if and only if it was isolated once and its last event is a restore |
| NetStateLemmas.KnownNodesGrow | src/network/state.rs:137-153 | no node drops out of the two sets together |
| NetworkStates.NetworkState.constructor | src/network/state.rs:157-167 | the initial status and timeline |
| NetworkStates.NetworkState.Advance | src/network/state.rs:78-89 | takes the status change and returns the previous status |
| NetworkStates.NetworkState.IsolateNode | src/network/state.rs:137-145 | takes the isolate step |
| NetworkStates.NetworkState.RestoreNode | src/network/state.rs:147-153 | takes the restore step |
| NetworkStates.NetworkState.DurationIn | src/network/state.rs:108-115 | the sum of the entries of that status, defined as long as it is not negative |
| Networks.Network.constructor | src/network.rs:126-154 | the registry starts with the own node, without an actor |
| Networks.Network.ConfigureWith | src/network.rs:166-185 | adds the seed nodes under the ids of their addresses |
| Networks.Network.RegisterNode | src/network.rs:211-274 | sets the info, starts an actor unless the entry is current or the proximity unknown, and lifts isolation |
| Networks.Network.Started | src/network.rs:312-319 | registers every configured node once, by increasing id |
| Networks.Network.RegisterRaft | src/network.rs:362-470 | keeps the Raft and leaves the new proximity to be sent to the own actor, or starts that actor |
| Networks.Network.SendNextProximity | src/network.rs:433-437 | the continuation: the oldest new proximity goes into the mailbox of its actor |
| Networks.Network.HandleMetrics | src/network.rs:484-545 | takes the status change the metrics ask for and keeps the metrics |
| Networks.Network.HandleNodeStatusChange | src/network.rs:910-935 | isolates or restores a registered node as its status says |
| Networks.Network.HandleConnectNode | src/network.rs:946-979 | registers a node unless its info is known already |
| Networks.Network.HandleInstallSnapshot | src/raft/network.rs:104-146 | lets a snapshot call in if its target is registered and neither end isolated |
| Networks.Network.ForwardInstallSnapshot | src/raft/network.rs:147-152 | the continuation: the address registered for the target by then; none is a panic |
| Networks.Network.ResolveLeader | src/network.rs:860-897 | the leader as metrics and registry have it |
| Networks.Network.ContinueClientRequest | src/network.rs:634-650 | the continuation: another leader's actor as registered by then, or the not-leader error |
| Networks.Network.DelegateToLeader | src/network.rs:982-1115 | passes a cluster change to the leader's actor if this network leads, and acknowledges unless the leader is unknown |
| Networks.Network.HandleDisconnectNode | src/network.rs:1129-1136 | drops the registry entry and nothing else |
| Nodes.Node.constructor | src/network/node.rs:115-217 | a started actor has one connect message to itself |
| Nodes.Node.ApplyStatusChange | src/network/node.rs:144-191 | sends the status, or Disconnected beyond three attempts, and keeps its own |
| Nodes.Node.HandleConnect | src/network/node.rs:240-321 | one attempt: weakly connected and a task to report it, or a failure and a retry timer |
| Nodes.Node.HandleConnectResult | src/network/node.rs:257-265 | reports the connection |
| Nodes.Node.RetryConnect | src/network/node.rs:296-305 | the timer turns into a connect message |
| Nodes.Node.DisconnectNode | src/network/node.rs:343-374 | reports a disconnection only from a connected status |
| Nodes.Node.HandleMessage | src/network/node.rs:406-425 | takes a new proximity, disconnects, or proposes a cluster change to the local Raft |
| NodeAttempts.StatusReported | src/network/node.rs:144-191 | reporting a status sends that one status, a fourth or later failure as a disconnection, and changes nothing else; reporting the initial status is a panic and nothing else is |
| NodeAttempts.AttemptEnds | src/network/node.rs:277-321 | an attempt fails exactly for another node that does not answer, reports the first failure and sets the timer; any other reports the weak connection and leaves the result to be handled |
| NodeAttempts.OwnConnects | src/network/node.rs:240-321 | after any run from startup the actor of the own node has never reported a failure: its words are a beginning of weakly connected, connected |
| NodeAttempts.RaftInAnyNetwork | src/network.rs:362-391 | in any network, reachable or not, registering Raft panics exactly without an own entry, keeps the Raft otherwise, and does nothing more when the own entry has no info |
| NodeAttempts.AttemptLimit | src/network/node.rs:144-174 | were the status stored, the n-th failure in a row would be reported as such up to the third and as a disconnection from the fourth; as it is not, each is reported as the first |
| NodeAttempts.OnceConnected | src/network/node.rs:240-374 | were the status stored, a connected actor would only repeat that it is connected and would report a disconnection |
| NodeAttempts.RegisterAgain | src/network.rs:225-229 | registering a node again with the same info changes nothing and starts no second actor |
| NodeIds.GenerateNodeId | src/lib.rs:81-92 | the id of the digest, within 64 bits |
| NodeIds.IdsFollowDigests | src/lib.rs:81-92 | ids are ordered as the first 32 bits of the digests and equal if and only if those are |
| NodeIds.IdSpellsDigest | src/lib.rs:88-91 | byte k of an id is the character for the k-th half byte of the digest in the table 0123456789abcdef, high halves first |
| NodeIds.BoundsAttained | src/lib.rs:88-91 | both bounds of the id range are attained, by the digests of zeros and of 0xff |
| NodeIds.IdRange | src/lib.rs:88-91 | every id lies between 0x3030303030303030 and 0x6666666666666666 |
| NodeIds.FallbackFindsNobody | src/network.rs:721-732 | the fallback id of a node query names no node registered under its generated id |
| NodeIds.QueryFinds | src/network.rs:721-732 | a node query finds info if and only if a node with info is registered under the id asked for or, if none is asked for, under the one the ring knows; an id asked for wins over the ring |
| Entities.CallRoundTrip | src/ports/http/entities.rs:144-261 | a Raft call of any kind goes onto the wire if and only if its application data can be serialized, and is read back as it was, without a panic |
| Entities.CallTold | src/ports/http/entities.rs:317-364 | each wire field of a call carries the message field of its name, down to the fields of every entry and payload |
| Entities.ReadingPanics | src/ports/http/entities.rs:155-261 | reading a list of wire entries panics if and only if one has no payload, or is a normal one without data that can be decoded |
| Entities.EntriesRoundTrip | src/ports/http/entities.rs:463-489 | the same for entry lists of any length with all four payloads |
| Entities.IdsRoundTrip | src/ports/http/entities.rs:76-92 | id lists survive in both directions |
| Entities.ResponsesRoundTrip | src/ports/http/entities.rs:508-553 | responses survive in both directions |
| Entities.ResponsesTold | src/ports/http/entities.rs:508-553 | each wire field of a response carries the message field of its name |

## Left out

- SnapshotTransfer.TransferConserves: its sender takes its first snapshot; of a later one only the entries themselves arrive, since the files behind its pointers are not sent (SnapshotTransfer.TransferCompleteIff).
- PointerChains.PointersEnd: an installed file whose own pointers lead nowhere in the receiver's directory is covered by SnapshotHistory.HistoryConserved, which then reads nothing behind them, and not by this theorem.
- NameReuse.RequestConserves: nothing but the snapshots under way is handled between the request and the end; what other messages do in between is the subject of SnapshotLimits.SnapshotRestores, for names not in use.
- Appending or replicating an entry that is itself a snapshot pointer: the run theorems are about ordinary entries.
- Networks.Network.DelegateToLeader: mailbox errors while a command is passed on are not modelled.
- NodeIds.GenerateNodeId: the SHA-256 digest is a parameter of 32 bytes.
- Entities.CallRoundTrip: the JSON text around the wire entities and the CBOR bytes of application data are not modelled.
- Node actors inside the network object are values, tied to the actor object in `Nodes.dfy` by the same step functions; one object per actor with shared references is not modelled.
- The 64-bit width of log indices, terms and node ids: the modelled code does no arithmetic on them apart from building a node id, whose width is proved.
- The HTTP server, its routes beyond handing a converted message to the network, URL building, HTTP error classes, and the panic on an empty successful reply.
- The actor runtime beyond atomic handlers, mailboxes in order, delayed messages and finished tasks.
- The Raft consensus itself, which is a library that is not part of this repository.
- The hash ring, which is only created empty; configuration parsing, system building, gRPC remnants and the unused cluster module.
- Logging, formatting, node queries beyond the looked-up id, and cluster summaries.
