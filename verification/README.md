# Boki's shared log, modelled in Dafny

Boki gives serverless functions a shared log and builds a transactional object
store and queues on it. This project models the logic of that log and of its two
libraries and proves what they promise, for every input, every order of messages
and every run.

The modules follow the system, from the sequencers up to the libraries:

- Metalogs. `MetaLogs`, `LogSpaces`, `LiteMode`, `Finalizing`: a metalog is a cut
  through the shards' entries; a log space applies metalogs, in full mode one
  after another, in lite mode skipping those that do not concern it.
- Sequencers. `Ranks`, `Primaries`, `Sealing`, `Sequencing`, `ViewSeals`,
  `SequencerRuns`: the primary cuts, the backups replicate, the controller seals.
  `Sequencing` is the state machine of the protocol for one log space; every message
  may be delayed, reordered or repeated. `ViewSeals` puts the log spaces of a view
  and the reports to their controller on top of it. `SequencerRuns` holds runs that
  show what is possible.
- Engines and storages. `Pending`, `Producers`, `Storages`, `StorageWindow`,
  `StorageDelivery`, `Durability`, `Propagation`, `NodeFinality`, `ClusterReads`,
  `FinalReads`, `ClusterProgress`, `Acknowledgements`, `ClusterRuns`: appending,
  storing, reporting progress, taking sequence numbers, serving reads and flushing, as
  classes, and all nodes together as a state machine on top of `Sequencing`;
  `ClusterReads` adds the reads and the flush of a storage to it and `FinalReads` the
  end of a view. `ClusterProgress` shows that appends can always go through,
  `Acknowledgements` what their callers are told, and `ClusterRuns` holds a run from
  an append to its read.
- The index. `Lookup`, `Queries`, `Indexing`, `IndexFeed`, `Sessions`: per-tag
  search, the chain of queries over views, the index of an engine under any
  arrival order, and what a caller sees over a session.
- The libraries. `SharedLogs`, `Transactions`, `Objects`, `StateStore`,
  `ObjectRefs`, `TxnEnvs`, `Queues`, `QueueRefs`: commit checking, object views,
  whole transactions and queues. Other processes append between any two calls, and
  auxiliary data is a cache that they overwrite and that may be lost before any
  read.
- Two smaller parts. `ViewPlans` assigns nodes in a view; `SpscRing` is the
  shared-memory ring under every interleaving of its loads and stores.

Classes and methods with loops model code that updates state; each is proved
against functions on values, and the theorems are about those functions and about
runs of the state machines. Shards are named by the position of their engine in
the view, and sequence numbers inside one log space by their lower 32 bits, which
`CountersFit` shows do not overflow as long as the totals fit.

## Where the code and a natural reading differ

- `Lookup.PrevInIff`: the shortcut of `FindPrev` for a query at the maximal
  sequence number is right for every log space but the one whose sequence numbers
  begin exactly there; the lemma gives the exact condition, `TailQueryWrong` an
  example, `FindPrev` the same condition for the whole index and
  `Queries.ReadPrevRight` for the chain of all views.
- `ObjectRefs.ObjectRef.SyncToBackward`, `Write`, `Get`: an object that has no view
  yet and is synced to sequence number 0 keeps no view, and the next access
  dereferences nil. This happens exactly for a write whose record gets sequence
  number 0 (`TxnEnvs.FirstWriteNil`), and for a read in a transaction whose
  snapshot position is 0, as of a read-only transaction exactly on the empty log
  (`TxnEnvs.ReadOnlyNilIff`).
- `SequencerRuns.BackupOvershoots`: the abort that the source calls uncommon is
  reached in a run in which a backup receives the last two metalogs in the wrong
  order. `NodeFinality.SequencersEnd` says for every sealed run exactly when a backup
  ends short of, at or past the final position, and when a sequencer has already gone
  too far; `NodeFinality.NodesEnd` shows that finalizing an engine or a storage never
  ends past it.
- `ClusterProgress.AloneNothingGoesThrough`: a view with a single replica of the
  metalog is accepted, but its primary waits for the acknowledgement of backups it
  does not have: it cuts at most once and propagates nothing until the view is
  sealed. With backups every append can go through (`AppendsGoThrough`).
- `Sequencing.SealSafety`: sealing is safe if and only if the number of tail metalogs
  that sequencers report is not configured to be 0 (or nothing was replicated).
  `SequencerRuns.EmptyTailsUnsafe` is a run with 0.
- `Indexing.LogIndex.OnFinalized`: only a debug assertion, which the default build
  leaves out, says that no initial query waits when a view ends. Finalizing applies
  the tail metalogs right before, so their index data may be missing, and then an
  initial query is answered from less than its caller has seen.
  `Indexing.AnsweredTooEarly` is a read that misses its caller's own append this way.
  Everything handed out at the end of a view is in time if and only if no initial
  query waits (`OnFinalized`), which is the assertion (`Indexing.NoneInitialIff`); the
  caller can tell by the progress of the answer (`Sessions.ProgressGrows`).
- `Indexing.LogIndex.MakeQuery`: no code sets the finalized state, so a query that
  is continued to the index of an older view after that view ended waits for good;
  one that waits when the view ends is answered, and `ContinuedCompleteIff` says
  exactly when that answer is complete.

## Model

| member | source | states |
|---|---|---|
| MetaLogs.TotalOrder | src/log/log_space.cpp:75-107 | over any run of cuts, (shard, index) to sequence number is a bijection onto [0, total), increasing within a shard |
| MetaLogs.ChainExtend | src/log/log_space.cpp:75-107 | a cut that starts where the last one ended keeps the run a run |
| MetaLogs.OrderWithinShard | src/log/log_space_base.cpp:159-182 | entries of one shard get increasing sequence numbers across all cuts |
| MetaLogs.SeqnumInjective | src/log/log_space_base.cpp:159-182 | no two entries get the same sequence number |
| MetaLogs.CoveredOnce | src/log/log_space_base.cpp:159-182 | every entry lies in at most one cut |
| MetaLogs.Locate | src/log/log_space_base.cpp:159-182 | every sequence number below a total belongs to an entry of an earlier cut |
| MetaLogs.SeqnumStable | src/log/log_space.cpp:75-107 | later cuts do not change a sequence number |
| MetaLogs.CountersFit | src/log/log_space.cpp:75-107 | if the total fits 32 bits so do all positions, starts and deltas |
| LogSpaces.LogSpace.constructor | src/log/log_space_base.cpp:8-27 | an empty log space |
| LogSpaces.LogSpace.CanApplyMetaLog | src/log/log_space_base.cpp:133-157 | the decision is the one of the specification: in full mode the next metalog, in lite mode no shard of interest behind |
| LogSpaces.LogSpace.ApplyMetaLog | src/log/log_space_base.cpp:159-196 | shard positions, the sequence number position and the hook calls after a cut |
| LogSpaces.LogSpace.FirstPending | src/log/log_space_base.cpp:104-131 | the pending metalog with the least number |
| LogSpaces.LogSpace.AdvanceOnce | src/log/log_space_base.cpp:104-131 | one turn: drop an old metalog, apply the first one, or stop |
| LogSpaces.LogSpace.AdvanceMetaLogProgress | src/log/log_space_base.cpp:104-131 | the loop computes the specified outcome, state and hook calls |
| LogSpaces.LogSpace.ProvideMetaLog | src/log/log_space_base.cpp:37-54 | a received metalog has the specified outcome; the result says whether the position moved |
| LogSpaces.LogSpace.Freeze | src/log/log_space_base.cpp:56-59 | the log space is frozen |
| LogSpaces.LogSpace.Finalize | src/log/log_space_base.cpp:61-93 | which of the four outcomes, from the positions before and after providing the tail; the state and the hook calls are those of providing the tail |
| LiteMode.CanApplyIff | src/log/log_space_base.cpp:133-157 | a cut can be applied exactly when no cut that concerns the node is missing before it |
| LiteMode.EveryCutRelevant | src/log/log_space_base.cpp:133-157 | to a node that hears all shards every cut matters, so full mode is the special case |
| LiteMode.ApplyFollows | src/log/log_space_base.cpp:159-196 | applying a cut keeps positions equal to the sums over all earlier cuts, skipped ones included |
| LiteMode.Turn | src/log/log_space_base.cpp:104-131 | one turn of the loop stops with a relevant cut missing before every pending one, drops one, or applies one |
| LiteMode.ProvideFollows | src/log/log_space_base.cpp:37-54 | one message, duplicate or out of order, hands over exactly the in-order replay between the two positions |
| LiteMode.ArriveFollows | src/log/log_space_base.cpp:37-54 | the same for any sequence of messages; nothing needed is forgotten |
| LiteMode.LiteRefinesFull | src/log/log_space_base.cpp:104-196 | what lite mode hands over is the full replay restricted to the node's shards, and no relevant cut is skipped |
| LiteMode.LiteDeliversAll | src/log/log_space_base.cpp:104-196 | once all relevant cuts have arrived every entry of the shards has been handed over once, in order, with its sequence number |
| Finalizing.FinalizeIff | src/log/log_space_base.cpp:61-93 | finalizing ends exactly at the final position if and only if no relevant metalog is missing and none past it would be applied too |
| Ranks.RankIff | src/log/log_space.cpp:109-126 | the element at rank r of the sorted progress is at least x exactly when enough backups are |
| Ranks.RankMonotone | src/log/log_space.cpp:109-126 | more progress never lowers the rank |
| Ranks.ReplicatedIsHeld | src/log/log_space.cpp:109-126 | a majority of all copies, the primary's included, holds everything below the replicated position |
| Primaries.MinProgress | src/log/log_space.cpp:128-138 | the least progress of the storages of a shard, reached by one of them |
| Primaries.RaisedTakesIn | src/log/log_space.cpp:36-56 | every entry of a report is taken in, and nothing else changes |
| Primaries.TakenInDistinct | src/log/log_space.cpp:36-56 | each of distinct sources gets the larger of its old progress and its entry |
| Primaries.ReplicatedPast | src/log/log_space.cpp:128-138 | the replicated position of a shard is past a cut exactly when every storage of the shard is |
| Primaries.CutContinues | src/log/log_space.cpp:75-107 | the cut built from the last one and the replicated positions continues the run |
| Primaries.OwnCutApplies | src/log/log_space.cpp:75-107 | the primary's own log space applies its cut at once |
| Primaries.MetaLogPrimary.constructor | src/log/log_space.cpp:8-27 | nothing reported, dirty, cut or replicated |
| Primaries.MetaLogPrimary.UpdateStorageProgress | src/log/log_space.cpp:31-57 | every pair the report is about gets the larger of its old progress and its entry, no other pair changes; a shard is dirty exactly when all of its storages have reported past the last cut; refused exactly for unknown storages and wrong lengths |
| Primaries.MetaLogPrimary.RaiseShard | src/log/log_space.cpp:36-56 | one entry of a report |
| Primaries.MetaLogPrimary.UpdateReplicaProgress | src/log/log_space.cpp:59-73 | a backup's progress and the replicated position, which never moves back |
| Primaries.MetaLogPrimary.BuildCut | src/log/log_space.cpp:75-107 | starts and deltas of the next cut |
| Primaries.MetaLogPrimary.MarkNextCut | src/log/log_space.cpp:75-107 | a cut exactly when a shard is dirty, applied at once; no shard is dirty afterwards |
| Sealing.FreezeLogSpace | src/log/sequencer.cpp:61-77 | the tail of the applied metalogs |
| Sealing.TailIs | src/log/sequencer.cpp:61-77 | the tail holds exactly the last applied metalogs, as many as configured |
| Sealing.ReportsKept | src/log/controller.cpp:408-437 | after any sequence of reports a log space has tails of exactly the sequencers that have reported one |
| Sealing.LastKept | src/log/controller.cpp:408-437 | and of each the last it has reported |
| Sealing.QuorumOfReporters | src/log/controller.cpp:185-206 | a log space has a quorum exactly when that many different sequencers have reported it |
| Sealing.PhylogOfLogspace | src/log/controller.cpp:185-206 | the key of a log space is its sequencer |
| Sealing.CollectEntries | src/log/controller.cpp:170-177 | every metalog of the tails, by number |
| Sealing.BuildFinalTailMetalog | src/log/controller.cpp:168-183 | all metalogs of all tails once, in order, and the position after the last |
| Sealing.Controller.constructor | src/log/controller.cpp:140-164 | a view whose sealing has begun |
| Sealing.Controller.CollectedFor | src/log/controller.cpp:190-195 | the tails reported for one log space |
| Sealing.Controller.CheckAllSealed | src/log/controller.cpp:185-206 | sealed exactly when every log space has a quorum of tails; then each final position and tail is the merge of its tails |
| Sealing.Controller.OnFreezeZNodeCreated | src/log/controller.cpp:408-437 | the view is sealed by the report with which a quorum of different sequencers has reported every log space, with the merge of the tails kept of each; no later report and none for another view changes anything |
| Sequencing.CutInv | src/log/sequencer.cpp:272-294 | a new cut keeps the invariant |
| Sequencing.DeliverInv | src/log/sequencer.cpp:232-264 | a metalog at a backup keeps the invariant |
| Sequencing.AcknowledgeInv | src/log/sequencer.cpp:183-212 | an acknowledgement, however old, keeps the invariant and takes nothing back |
| Sequencing.FreezePrimaryInv | src/log/sequencer.cpp:79-114 | freezing the primary keeps the invariant |
| Sequencing.FreezeBackupInv | src/log/sequencer.cpp:79-114 | freezing a backup keeps the invariant |
| Sequencing.CollectInv | src/log/controller.cpp:408-437 | collecting a tail keeps the invariant |
| Sequencing.RunInv | src/log/sequencer.cpp:183-294 | the invariant holds in every reachable state |
| Sequencing.ReplicationInvariant | src/log/log_space.cpp:109-126 | in every run each backup holds a prefix of the primary's metalogs, a majority holds everything replicated, at most one metalog is not replicated |
| Sequencing.StepsOnlyGrow | src/log/sequencer.cpp:183-212 | no step takes back a metalog, the replicated position, a propagation or a seal |
| Sequencing.SealWithinLog | src/log/controller.cpp:168-206 | the sealed tail holds only metalogs that were cut, and the position is not past the last |
| Sequencing.SealSafety | src/log/log_space_base.cpp:66-79 | everything propagated lies below the sealed position and no sequencer is more than one metalog past it, if and only if the tails reported are not configured to be empty |
| Sequencing.SealSafetyOfRuns | src/log/log_space_base.cpp:66-79 | the same for everything propagated after the seal, in every run, and the seal never changes |
| Sequencing.SealHoldsTail | src/log/controller.cpp:168-183 | the sealed tail holds every one of the last metalogs below the sealed position, as many as sequencers report |
| ViewSeals.ViewProjects | src/log/controller.cpp:408-437 | in every run of a view, whatever reports for several log spaces arrive, the controller holds for each log space the tails its state machine has collected and seals what is sealed there |
| ViewSeals.ViewSealedSafely | src/log/controller.cpp:185-206 | so for every log space of a sealed view everything propagated lies below the position the controller published, if and only if the reported tails suffice |
| SequencerRuns.SealHappens | src/log/sequencer.cpp:183-294 | a run in which a metalog is cut, replicated, propagated and sealed over, with one of three replicas silent |
| SequencerRuns.EmptyTailsUnsafe | src/log/sequencer.cpp:61-77 | with empty tails a run in which a propagated metalog lies past the sealed position |
| SequencerRuns.BackupOvershoots | src/log/log_space_base.cpp:61-93 | a run after whose seal finalizing a backup ends past the final position |
| Pending.ProvideTakes | src/log/log_space.cpp:316-337 | a node that has the entries of its cuts waiting takes each once and never misses one |
| Pending.Contiguous | src/log/log_space.cpp:379-392 | the first index from a given one on that is not stored |
| Producers.LogProducer.constructor | src/log/log_space.cpp:148-154 | a producer that has appended nothing |
| Producers.LogProducer.LocalAppend | src/log/log_space.cpp:158-163 | a fresh local id waits with its caller's data |
| Producers.LogProducer.PollAppendResults | src/log/log_space.cpp:165-168 | all results so far, once; what has been polled is kept on record |
| Producers.LogProducer.OnNewLogs | src/log/log_space.cpp:170-188 | each entry leaves the waiting set and is acknowledged with the sequence number, the progress and its own caller's data of what was handed over; the abort exactly when one is missing |
| Producers.LogProducer.OnAllNewLogs | src/log/log_space.cpp:170-188 | the same for all hook calls of a message: one result for every entry, in order |
| Producers.LogProducer.ProvideMetaLog | src/log/log_space_base.cpp:37-54 | receiving a metalog is the engine step of the state machine, and all results, polled or not, acknowledge exactly what was handed over |
| Producers.ProvideCallsHeard | src/log/log_space_base.cpp:159-182 | the hook is called for the node's shards only |
| Acknowledgements.AcksRight | src/log/log_space.cpp:170-188 | in every run an engine has acknowledged exactly its appends up to its progress, in order, each once, with its sequence number in the total order, the progress right after the metalog that covers it, and its caller's data |
| Acknowledgements.EngineAcks | src/log/log_space.cpp:158-188 | the same for an engine object in the state of the run, of all results polled or waiting to be |
| Acknowledgements.OwnWriteSeen | src/log/engine_base.cpp:325-335 | in every run of the cluster a call that was told the progress of its append and reads later sees the acknowledged sequence number, if its answer carries its progress |
| Acknowledgements.AppendsAnswered | src/log/log_space.cpp:158-188 | every run without a frozen sequencer can go on so that a given append is acknowledged so |
| StorageWindow.ReadAtRight | src/log/log_space.cpp:239-260 | a read is answered with its entry, sent to a database that has it, or waits for an entry still to come |
| StorageWindow.ShrinkRight | src/log/log_space.cpp:394-402 | shrinking drops only persisted entries |
| StorageWindow.OnNewLogsRight | src/log/log_space.cpp:316-367 | a batch enters the window and serves the reads waiting for it; only reads of other shards' entries fail |
| StorageWindow.GrabbedAll | src/log/log_space.cpp:262-280 | what is grabbed for flushing is everything from the persisted position on |
| StorageWindow.PersistedInv | src/log/log_space.cpp:282-285 | moving the persisted position keeps every entry in the window or the database |
| StorageWindow.StepInv | src/log/storage.cpp:354-389 | every step of the two threads keeps the invariant |
| StorageWindow.ReadsNeverLost | src/log/storage.cpp:354-389 | in every interleaving no read of an entry of the storage fails, gets a wrong entry or waits for an entry that has arrived |
| StorageWindow.StepReads | src/log/log_space.cpp:239-260 | no step loses, repeats or makes up a read: those waiting and those answered are together the same, and one more after a read |
| StorageWindow.ReadAtReads | src/log/log_space.cpp:239-260 | a read waits exactly for what is still to come, and is answered from memory whenever its entry is there |
| StorageWindow.InsertPlace | src/log/log_space.cpp:239-260 | waiting reads are in the order of sequence numbers, and of arrival for one entry |
| StorageWindow.ShrinksEnough | src/log/log_space.cpp:394-402 | after shrinking the window is small enough or holds nothing persisted, and nothing was dropped without need |
| Storages.LogStorage.constructor | src/log/log_space.cpp:202-214 | an empty storage |
| Storages.LogStorage.Store | src/log/log_space.cpp:218-237 | an entry is stored, and progress moves over contiguous entries; refused exactly for engines of other storages |
| Storages.LogStorage.AdvanceShardProgress | src/log/log_space.cpp:379-392 | progress moves to the first index not stored; dirty exactly when it moved |
| Storages.LogStorage.GrabShardProgressForSending | src/log/log_space.cpp:303-314 | the report, exactly when progress changed since the last one |
| Storages.LogStorage.ReadAt | src/log/log_space.cpp:239-260 | the read step of the window |
| Storages.LogStorage.GrabLogEntriesForPersistence | src/log/log_space.cpp:262-280 | the part of the window to flush and the position after it |
| Storages.LogStorage.LogEntriesPersisted | src/log/log_space.cpp:282-285 | the persisted step of the window, with the position given |
| Storages.LogStorage.ShrinkLiveEntriesIfNeeded | src/log/log_space.cpp:394-402 | the shrinking of the window |
| Storages.LogStorage.FailPastReads | src/log/log_space.cpp:319-328 | reads of passed sequence numbers fail |
| Storages.LogStorage.ServeReads | src/log/log_space.cpp:358-365 | waiting reads of an entry are answered with it |
| Storages.LogStorage.AddEntry | src/log/log_space.cpp:350-365 | an entry enters the window |
| Storages.LogStorage.TakeEntry | src/log/log_space.cpp:329-365 | a stored entry gets its sequence number and its index data |
| Storages.LogStorage.OnNewLogs | src/log/log_space.cpp:316-367 | waiting set, window and index data after a hook call; the abort exactly when an entry is missing |
| Storages.LogStorage.OnAllNewLogs | src/log/log_space.cpp:316-367 | the same for all hook calls of a message |
| Storages.LogStorage.ProvideMetaLog | src/log/log_space_base.cpp:37-54 | receiving a metalog is the storage step of the state machine and the apply step of the window |
| Storages.LogStorage.PollReadResults | src/log/log_space.cpp:287-290 | all read results so far, once |
| Storages.LogStorage.PollIndexData | src/log/log_space.cpp:292-301 | all index data so far, once |
| Storages.IndexDescribes | src/log/log_space.cpp:338-349 | the index data describes every entry handed over, each once, in order |
| StorageDelivery.ProvideHands | src/log/log_space_base.cpp:159-182 | a message hands the window exactly the storage's own entries between the two sequence number positions, in any arrival order |
| StorageDelivery.OwnedIff | src/log/log_space_base.cpp:159-182 | a sequence number belongs to a storage exactly when the shard of its entry does |
| Durability.StoreOne | src/log/log_space.cpp:218-237 | storing an entry keeps what all nodes and the primary rely on |
| Durability.AppendOne | src/log/log_space.cpp:158-163 | appending keeps what all nodes rely on |
| Durability.ReportPrimary | src/log/log_space.cpp:303-314 | a report says no more than its storage has |
| Durability.MarkCutInv | src/log/log_space.cpp:75-107 | cutting keeps the invariant of all nodes |
| Durability.ReceiveReportInv | src/log/log_space.cpp:31-57 | a progress report, however old, keeps it |
| Durability.ToEngineInv | src/log/log_space.cpp:170-188 | a metalog at an engine keeps it, without an abort |
| Durability.ToStorageInv | src/log/log_space.cpp:316-337 | a metalog at a storage keeps it, without an abort |
| Durability.CutIsStored | src/log/log_space.cpp:128-138 | whatever is cut was stored by every storage of its engine |
| Durability.RunInv | src/log/engine.cpp:188-211 | the invariant holds in every reachable state of engines, storages and sequencers |
| Durability.Durable | src/log/log_space.cpp:316-337 | in every run no loop misses an entry, and each entry of a cut is waiting or sequenced at its engine and at all of its storages |
| Durability.NodesAgree | src/log/log_space_base.cpp:159-182 | in every run engine and storages have been handed the entries of a shard up to their own progress, in order, each once, with the same sequence numbers and the cut that covers each |
| ClusterProgress.Replicate | src/log/sequencer.cpp:183-212 | every run without a frozen sequencer and with backups can go on so that everything cut is replicated and propagated |
| ClusterProgress.AppendsGoThrough | src/log/sequencer.cpp:183-294 | every such run can go on so that a given append is stored by all storages, reported, cut, replicated, propagated and handed to its engine and storage |
| ClusterProgress.AloneNothingGoesThrough | src/log/log_space.cpp:109-126 | with a single sequencer at most one metalog is cut and nothing is propagated or handed over until the view is sealed |
| NodeFinality.RunWithin | src/log/sequencer.cpp:183-212 | in every run no engine or storage has a metalog at or past the replicated and the sealed position |
| NodeFinality.NodesEnd | src/log/log_space_base.cpp:61-93 | in every sealed run finalizing an engine or storage never overshoots, fails exactly when it lacks a metalog that concerns it, aborts exactly when it is more than one past, and otherwise leaves it with exactly its entries of the sealed log; none is past the position when the reported tails suffice |
| NodeFinality.LaggardsEnd | src/log/log_space_base.cpp:61-93 | in every sealed run no engine or storage that lags by at most the length of the reported tails falls short |
| NodeFinality.LaggingBackups | src/log/log_space_base.cpp:61-93 | nor does such a backup |
| NodeFinality.SequencersEnd | src/log/log_space_base.cpp:61-93 | in every sealed run a backup ends short exactly when it lacks a metalog, past exactly when it lacks none and holds the one cut past the final position; a sequencer aborts exactly when it is more than one past; sealing is safe exactly when the reported tails suffice |
| ClusterReads.ReadsInCluster | src/log/storage.cpp:354-389 | in every run of the cluster each cut entry is at each storage of its engine in the window, in the database or waiting for its metalog, and every read of it was answered with it, sent to a database that has it, or waits for a metalog still to come |
| FinalReads.NoReadLeft | src/log/log_space.cpp:369-377 | in every sealed run, once finalizing a storage of its engine has succeeded, no read of an entry of the sealed log waits there, so the abort on pending reads needs a read past the end |
| ClusterRuns.EntryIsRead | src/log/storage.cpp:354-389 | a run in which an entry is appended, stored, reported, cut, replicated, propagated and read |
| Propagation.PropagateMetaLog | src/log/sequencer_base.cpp:111-131 | a storage is sent a metalog exactly when it has entries of its engines, an engine when it has entries of its own or keeps the index |
| Propagation.SentIsEnough | src/log/sequencer_base.cpp:111-131 | a storage that gets what it is sent, in any order, is handed every entry cut for its engines |
| Lookup.UpperBound | src/log/index.cpp:142-147 | the first position past everything at most the query, also with repeated elements |
| Lookup.LowerBound | src/log/index.cpp:161-166 | the first position not below the query |
| Lookup.PrevInIff | src/log/index.cpp:133-154 | the greatest element at most the query, for every query but exactly one family |
| Lookup.TailQueryWrong | src/log/index.cpp:138-141 | an input of that family |
| Lookup.NextInRight | src/log/index.cpp:156-173 | the least element at least the query |
| Lookup.Add | src/log/index.cpp:77-87 | the lists of all tags hold exactly the entries with the tag, sorted |
| Lookup.FindPrev | src/log/index.cpp:89-109 | the matching entry with the greatest sequence number at most the query and its engine, exactly outside that family, and in it the last matching entry of all |
| Lookup.FindNext | src/log/index.cpp:111-131 | the matching entry with the least sequence number at least the query and its engine |
| Queries.ReadNextRight | src/log/index.cpp:353-389 | the chain from the newest view, each time to the view that the result names, ends with the least match at least the query over all views, or nothing if there is none |
| Queries.ReadNextBRight | src/log/index.cpp:417-438 | a blocking read waits exactly when its view is the newest and has no match, otherwise it is answered like ReadNext |
| Queries.ReadPrevRight | src/log/index.cpp:391-415 | the chain ends with the greatest match at most the query over all views, exactly outside the family of `Lookup.PrevInIff` |
| Queries.ChaseNext | src/log/index.cpp:490-521 | the result carried from view to view is the answer over the newer views |
| Queries.ViewsServe | src/log/engine.cpp:562-594 | the chain needs of the views what their indexes find for the user log space of each query |
| Queries.ForUserIff | src/log/index.cpp:330-338 | the entries of a user log space are those of it and no others |
| Indexing.AddToIndex | src/log/index.cpp:330-338 | an entry goes to the index of its user log space and to no other |
| Indexing.ArrivalOrderIrrelevant | src/log/index.cpp:280-303 | the index depends only on which data and how many metalogs arrived |
| Indexing.IndexedIff | src/log/index.cpp:280-303 | a cut is indexed exactly when all data below its end has arrived |
| Indexing.EndOfCut | src/log/index.cpp:258-266 | the sequence number after a cut |
| Indexing.LogIndex.constructor | src/log/index.cpp:34-41 | an empty index |
| Indexing.LogIndex.ApplyReceived | src/log/index.cpp:287-297 | received entries below the end of a cut are indexed, each once, in order |
| Indexing.LogIndex.ApplyCut | src/log/index.cpp:281-303 | one complete cut is indexed |
| Indexing.LogIndex.ApplyCuts | src/log/index.cpp:281-303 | all complete cuts and no others are indexed |
| Indexing.LogIndex.FindFor | src/log/index.cpp:440-457 | what is found is the match among the entries indexed for the user log space |
| Indexing.LogIndex.Process | src/log/index.cpp:340-351 | the new result answers this query from all that is indexed, or the query is a blocking read of this view that nothing matches and waits |
| Indexing.LogIndex.RetryBlocking | src/log/index.cpp:304-318 | exactly the blocking reads without a match and with time left wait on; every other one gets its own answer, nothing only if nothing matches and its time is up |
| Indexing.LogIndex.RunPending | src/log/index.cpp:319-327 | exactly the queries whose position is indexed are taken, and each of them is answered or, as a blocking read, waits |
| Indexing.LogIndex.AdvanceIndexProgress | src/log/index.cpp:280-328 | the queries answered, blocking and waiting are together the same as before; none that can be answered waits, and no blocking read past its time; new results are answers from all that is indexed |
| Indexing.LogIndex.ProvideIndexData | src/log/index.cpp:175-213 | after duplicated and out-of-order data exactly the old and the given sequence numbers are there, and the index is as specified; the queries as in AdvanceIndexProgress |
| Indexing.LogIndex.OnMetaLogApplied | src/log/index.cpp:258-268 | a metalog queues its cut; the queries as in AdvanceIndexProgress |
| Indexing.LogIndex.MakeQuery | src/log/index.cpp:215-242 | processed at once exactly when what the caller has seen is indexed, with an answer to this query from all that is indexed; otherwise it waits; the abort exactly for progress of a later view |
| Indexing.LogIndex.OnFinalized | src/log/index.cpp:270-278 | the waiting queries are processed in order: blocking reads of this view that nothing matches go on waiting, each other one gets its own answer from all that is indexed; all are answered in time, with at least their own progress, if and only if no initial query waits |
| Indexing.NoneInitialIff | src/log/index.cpp:270-278 | no initial query waits exactly when the debug assertion holds: nothing waits, or the first waits for the end of the view |
| Indexing.InTimeIff | src/log/index.cpp:270-278 | of the waiting queries, the ones answered in time at the end of a view are exactly the continued ones |
| Indexing.OwnReadFinds | src/log/index.cpp:353-389 | from the log its caller has seen, the read below has an answer |
| Indexing.AnsweredTooEarly | src/log/index.cpp:270-278 | an index whose view ends before the index data arrives answers that read with nothing and less progress than its caller has seen |
| Indexing.LogIndex.PollQueryResults | src/log/index.cpp:244-256 | every result answers the query it was asked for, from the log up to a position not below what its caller had seen, but for queries that waited when the view ended |
| Indexing.AnswerNames | src/log/index.cpp:459-521 | a result names the query it answers, up to a blocking read that goes on to an older view as a plain one |
| Indexing.KeptIff | src/log/index.cpp:304-318 | a blocking read waits on exactly if nothing matches it and its time is not up |
| Indexing.KeptOrFinished | src/log/index.cpp:304-318 | a blocking read either waits on or is answered, never both |
| Indexing.InsertPlace | src/log/index.cpp:228-240 | waiting queries are in the order of positions, and of arrival for one position |
| IndexFeed.FeedTrue | src/log/log_space.cpp:338-349 | the index data of any storage describes the entries of the total order |
| IndexFeed.IndexFed | src/log/log_space.cpp:338-349 | in every run of the cluster the log is one an index accepts, its metalogs can be applied in turn, and all data storages send at any time fits |
| IndexFeed.FeedComplete | src/log/log_space.cpp:338-349 | in every run the index data a storage has made so far describes every entry of its engines below its position, as the log has it |
| Sessions.ProgressGrows | src/log/index.cpp:459-473 | an answer carries at least the progress of its query if and only if it is from all that its caller has seen |
| Sessions.OwnAppendSeen | src/log/log_space.cpp:177-186 | a query with the progress of an append that is answered from all of it sees the append: ReadPrev from it on, ReadNext and blocking ReadNext from it or anywhere before it |
| Sessions.ReadsMoveForward | src/log/index.cpp:353-415 | on more of the log ReadPrev does not go back and a found ReadNext stays |
| Sessions.ContinuedCompleteIff | src/log/index.cpp:270-278 | an answer at the end of a view is complete for all queries exactly when everything is indexed |
| Sessions.ProgressIsSeen | src/log/engine_base.cpp:325-335 | the progress of a call is that of one of its events, or none |
| Sessions.SessionSeesAppend | src/log/engine_base.cpp:325-335 | in every session a later read sees an acknowledged append, in the same sense, if its answer carries at least its progress, which fails exactly for answers before their time |
| Sessions.RereadForward | src/log/index.cpp:353-438 | answered from more of the log, the same read returns nothing older by ReadPrev, nothing past the query but for the family of `Lookup.PrevInIff`, and the same by ReadNext |
| Sessions.SessionReadsForward | src/log/engine_base.cpp:325-335 | in every session repeating a read never goes back: ReadPrev returns the same or newer, a found ReadNext stays, if the later answer carries at least its progress |
| SharedLogs.ReadPrevIs | src/log/index.cpp:391-415 | the library's ReadPrev: the last tagged record at most the query |
| SharedLogs.ReadNextIs | src/log/index.cpp:353-389 | the library's ReadNext: the first tagged record at least the query |
| SharedLogs.SnapshotStays | slib/statestore/txn.go:19-51 | what is appended later never lies below a snapshot position |
| SharedLogs.CollectStep | slib/statestore/log.go:319-351 | a read backwards finds the next record to apply or shows that none is left |
| SharedLogs.NextSkips | slib/statestore/log.go:259-300 | a read forwards skips no record to apply |
| Transactions.EffectiveIff | slib/statestore/log.go:148-193 | a commit takes effect exactly when no effective record that writes one of its objects lies between begin and commit |
| Transactions.EffectiveStays | slib/statestore/log.go:148-193 | the decision depends on the log up to the commit only |
| Transactions.OverlapShowsInTag | slib/statestore/log.go:116-126 | records with a common object share a tag, whatever the hash function |
| Transactions.AllCheckedCommits | slib/statestore/log.go:149-188 | checking the tags of the transaction's objects finds every conflict |
| StateStore.Env.constructor | slib/statestore/env.go:22-29 | an empty log and cache |
| StateStore.Env.Append | slib/statestore/log.go:380-399 | a record is appended after whatever others append; cached data stays right |
| StateStore.Env.Load | slib/statestore/log.go:75-114 | any cached data that is there is right for its record |
| StateStore.Env.Others | slib/statestore/log.go:380-399 | other processes append anything well-formed; cached data stays right |
| StateStore.Env.SetAux | slib/statestore/log.go:421-442 | the data is stored for the record, and what is cached stays right |
| StateStore.Env.CheckTxnCommitResult | slib/statestore/log.go:136-193 | the answer is whether the commit takes effect, for any cache and any hash collisions; the decision is added to what is cached, all of which is right; it terminates |
| StateStore.Env.CheckTag | slib/statestore/log.go:154-184 | nothing with one tag conflicts, or the commit does not take effect |
| StateStore.Env.CheckOne | slib/statestore/log.go:166-183 | whether one record conflicts |
| StateStore.TxnContext.constructor | slib/statestore/txn.go:12-17 | an active transaction without operations |
| Objects.ReplayStays | slib/statestore/log.go:302-378 | later records do not change the object as of an earlier point |
| Objects.ApplyOpsConcat | slib/statestore/log.go:369-373 | operations take effect one after another, each on what those before it made of the object |
| Objects.ApplyOpsOne | slib/statestore/log.go:369-373 | one operation changes its own object and no other |
| Objects.ReplayIsHistory | slib/statestore/log.go:302-378 | an object is all effective operations of the log applied in order to an empty one |
| Objects.CommittedReadsCurrent | slib/statestore/txn.go:79-116 | at commit every object written still has its value from the snapshot: no lost update |
| Objects.ReadCurrentIff | slib/statestore/txn.go:79-116 | a value read, written or not, is still current at commit for every meaning of operations exactly when no effective record in between writes the object |
| Objects.WriteSkew | slib/statestore/log.go:148-193 | a log in which two transactions with disjoint writes both commit although one changes what the other read |
| Objects.CommittedInTurn | slib/statestore/log.go:148-193 | of two committed transactions with a common object one ended before the other began |
| ObjectRefs.ObjectRef.constructor | slib/statestore/object.go:26-44 | an object without a view, in the transaction of its environment if there is one |
| ObjectRefs.ObjectRef.Decode | slib/statestore/log.go:332-342 | whether a record writes the object and takes effect |
| ObjectRefs.ObjectRef.LoadCached | slib/statestore/log.go:209-230 | a view is loaded exactly if one is cached, and is the object after its record |
| ObjectRefs.ObjectRef.Cache | slib/statestore/log.go:232-253 | only right views are cached; a missing one is added to what is there, which is kept |
| ObjectRefs.ObjectRef.ApplyAll | slib/statestore/log.go:369-373 | the record's operations on the object, in order |
| ObjectRefs.ObjectRef.Collect | slib/statestore/log.go:319-351 | all writes since the newest cached view, newest first |
| ObjectRefs.ObjectRef.Redo | slib/statestore/log.go:363-376 | applying them gives the object below the tail; the order abort cannot happen |
| ObjectRefs.ObjectRef.SyncToBackward | slib/statestore/log.go:302-378 | contents and position of the view are those of the replay of all effective writes below the tail, for any cache; a view is missing exactly if there was none and the tail is 0 |
| ObjectRefs.ObjectRef.SyncToForward | slib/statestore/log.go:259-300 | the same view, contents and position, by reading forwards |
| ObjectRefs.ObjectRef.Perform | slib/statestore/op.go:113-121 | the results of operations applied one after another |
| ObjectRefs.RepliesAre | slib/statestore/op.go:113-121 | result k is the reply of operation k to the object after the operations before it |
| ObjectRefs.ObjectRef.Write | slib/statestore/op.go:96-158 | a write takes effect at its record, with the results of that point; the nil dereference exactly when there was no view and the record is number 0 |
| ObjectRefs.ObjectRef.DoWriteOp | slib/statestore/op.go:125-158 | in a transaction the operation is kept for the commit and nothing else changes; a read-only or ended one panics; outside it is a write |
| ObjectRefs.ObjectRef.Sync | slib/statestore/object.go:66-71 | the view of the whole log; the panic exactly in a transaction |
| ObjectRefs.ObjectRef.Get | slib/statestore/object.go:54-88 | in a transaction every read returns the object as of the snapshot; outside, the last synced view, and a first read the whole log; a panic exactly in an ended transaction or at snapshot position 0 |
| ObjectRefs.StaysOk | slib/statestore/object.go:54-64 | what other processes append leaves a view right, and in a transaction the snapshot |
| TxnEnvs.TxnEnv.constructor | slib/statestore/env.go:22-29 | an environment outside a transaction |
| TxnEnvs.TxnEnv.Txn | slib/statestore/txn.go:19-32 | the transaction is named by its begin record, right after its snapshot |
| TxnEnvs.TxnEnv.ReadOnly | slib/statestore/txn.go:34-51 | the snapshot is the whole log, at position 0 on the empty one |
| TxnEnvs.TxnEnv.Others | slib/statestore/txn.go:19-51 | whatever others append, everything read so far in the transaction is still as of the snapshot |
| TxnEnvs.TxnEnv.Object | slib/statestore/object.go:26-44 | one reference per name, with the environment's transaction |
| TxnEnvs.TxnEnv.Get | slib/statestore/object.go:54-88 | every read in a transaction is as of the snapshot, and a repeated one returns the same; outside, a first read is as of the whole log and a later one the last view |
| TxnEnvs.TxnEnv.Write | slib/statestore/op.go:125-158 | in a transaction the log is not touched and the operation is kept in order; a read-only one panics; outside, the write takes effect at its record with the results of that point |
| TxnEnvs.TxnEnv.TxnCommit | slib/statestore/txn.go:79-116 | one record with all operations; committed exactly when it takes effect; then every object read and written had the value read right up to the record, which applied the operations to it |
| TxnEnvs.TxnEnv.TxnAbort | slib/statestore/txn.go:53-77 | an abort record ends the transaction; the panic exactly outside one or in a read-only one |
| TxnEnvs.OneSnapshot | slib/statestore/txn.go:19-51 | all reads of a transaction, with any appends between them, see the one state at its beginning |
| TxnEnvs.CommitAtomic | slib/statestore/txn.go:79-116 | in every later log a committed transaction's operations apply to exactly the values it read |
| TxnEnvs.ReadOnlySeesAll | slib/statestore/txn.go:34-51 | all reads of a read-only transaction return the whole log at its beginning |
| TxnEnvs.ReadOnlyNilIff | slib/statestore/log.go:302-318 | a new object of a read-only transaction has no view after syncing exactly on the empty log |
| TxnEnvs.FirstWriteNil | slib/statestore/op.go:146-158 | a new object has no view after syncing to a first record numbered 0 |
| Queues.Fifo | slib/sync/queue.go:127-146 | what was popped followed by what waits is what was pushed: in order, each once |
| Queues.HeadIsPush | slib/sync/queue.go:272-291 | a pop returns the payload of the push that has waited longest, or nothing exactly when nothing waits |
| Queues.PopsInOrder | slib/sync/queue.go:272-291 | of two pops that return something the later returns a later push: none twice, in order |
| Queues.EmptyMeansAllPopped | slib/sync/queue.go:272-291 | a pop that finds nothing comes after a pop of every push |
| Queues.PopStays | slib/sync/queue.go:127-146 | what a pop has returned is the same in every longer log |
| Queues.ReplayIsQueue | slib/sync/queue.go:103-146 | the two sequence numbers represent the queue: empty exactly when they meet, its head the first push between them |
| Queues.HeadIsNext | slib/sync/queue.go:107-125 | findNext finds the head |
| Queues.ReplayStays | slib/sync/queue.go:127-146 | later records do not change the state as of an earlier point |
| QueueRefs.Env.constructor | slib/sync/queue.go:69-83 | an empty log and cache |
| QueueRefs.Env.Append | slib/sync/queue.go:98-101 | a record is appended after whatever others append; cached data stays right |
| QueueRefs.Env.Load | slib/sync/queue.go:51-67 | any cached state that is there is right for its record |
| QueueRefs.Env.SetAux | slib/sync/queue.go:148-154 | the state is stored for the record, and what is cached stays right |
| QueueRefs.Queue.constructor | slib/sync/queue.go:69-83 | a queue synced to the whole log |
| QueueRefs.Queue.Push | slib/sync/queue.go:85-101 | a push record, or the error for an empty payload |
| QueueRefs.Queue.FindNext | slib/sync/queue.go:107-125 | the first push of this queue in a range, whatever the tag collisions |
| QueueRefs.Queue.ApplyLog | slib/sync/queue.go:127-146 | one step of the replay |
| QueueRefs.Queue.SyncToBackward | slib/sync/queue.go:156-206 | all three fields become those of the replay below the tail, for any cache; it terminates and what it caches is right |
| QueueRefs.Queue.SyncToForward | slib/sync/queue.go:208-238 | the same three fields by reading forwards |
| QueueRefs.Queue.Pop | slib/sync/queue.go:272-291 | a pop returns the head of the queue at its record, or the empty error if there is none; without a record the queue was empty |
| SpscRing.StoreCellFree | src/ipc/spsc_queue-inl.h:60-88 | a push writes no cell that holds an unread message |
| SpscRing.StepInv | src/ipc/spsc_queue-inl.h:60-124 | every load and store of the two threads, and the sleep bit at any time, keep the invariant |
| SpscRing.RingSafe | src/ipc/spsc_queue-inl.h:60-124 | in every interleaving the popped messages are a prefix of the pushed ones and at most size - 1 are held |
| SpscRing.EmptyIff | src/ipc/spsc_queue-inl.h:96-118 | a pop reports an empty ring exactly when nothing is held as it loads the tail |
| SpscRing.FullIff | src/ipc/spsc_queue-inl.h:60-88 | in every interleaving a push reports a full ring exactly when size - 1 messages were held as it loaded the head |
| ViewPlans.BuildPlan | src/log/controller.cpp:126-135 | a round robin over the nodes |
| ViewPlans.ReconfigView | src/log/controller.cpp:78-135 | plans exactly when there are enough nodes |
| ViewPlans.ReadPlan | src/log/view.cpp:47-79 | each group's nodes and the inverse lists |
| ViewPlans.PlanRight | src/log/view.cpp:55-79 | distinct nodes per group, an exact inverse, and loads that differ by at most one |
| ViewPlans.PlanIsLayout | src/log/view.cpp:64-79 | storages of engines and engines of storages form the layout the other modules assume |
| ViewPlans.Backups | src/log/view.cpp:94-100 | distinct backups other than the sequencer itself, as the protocol assumes |

## Left out

- The finalized state as a gate: no code assigns it, so retiring log spaces in the flush thread and dropping requests of finalized log spaces are not modelled.
- Continue queries that go to another engine, and the message form of a query: chains stay on local indexes.
- What a single write operation does to a JSON object: the store is proved for every deterministic meaning of operations.
- Failures of the shared log, of the cache and of the database: calls succeed.
- ObjectRefs.ObjectRef.Write: stands for MultiCommit; collecting operations between MultiBegin and MultiCommit is not modelled.
- Blocking pops and clocks: `PopBlocking` and its timeouts are not modelled; the index's blocking reads take the time as a parameter.
- Trim, which the source does not implement.
- Weak memory order and wake-up liveness of the shared-memory ring.
- Discarding waiting appends and stored entries when a view ends (`OnFinalized` of producers and storages), and the read cache of an engine.
- FinalReads.NoReadLeft: says nothing of reads past the end of the sealed log, on which the abort stays possible.
- Lookup.Add: the index of a user log space is a value that is replaced, so sharing of the object between lookups is not modelled.
- StateStore.Env.Load: what other processes cached is any right data; wrong data in the cache is not modelled.
- Sharded queues, ZooKeeper, encodings, compression, Redis, the gateway, networking and configuration: plumbing around the modelled logic.
