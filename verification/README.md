# fluent31: a verified model of the storage engine

fluent31 is an LSM tree with multi-version reads, key-value separation, group commit, optimistic
transactions, and four consumers of its commit stream: range subscriptions, edge replicas, the
journal, and triggers. This project models those parts in Dafny and proves what they keep, over
every run of their steps.

One idea holds the modules together: the committed ops, in commit order, are the **history** (module
`History`), and op number n of it is the op with seqno n. Every component is proved to refine the
history or to keep an invariant over it: a read at a snapshot is a lookup in a prefix of the history,
a subscription delivers a slice of it, an edge and a rebuilt journal reproduce it, a trigger consumes
it once, and recovery returns a prefix of it.

| part | modules |
|---|---|
| keys and versions | `Keys` `Types` `Sequences` `History` `Coding` |
| tables, runs, merging | `Runs` `Bloom` `Merging` `Lru` |
| compaction | `Compaction` `Tree` `Rewriting` `Retention` `Scheduling` |
| the store as a state machine | `Views` `Engine` `Invariance` `GarbageCollection` `Guarantees` `Durability` |
| reading | `Cursors` `Scans` `Fork` |
| committing | `GroupCommit` `Occ` `CommitQueue` `Conflicts` |
| logs and recovery | `Wal` `Formats` `Recovery` |
| stream consumers | `Streams` `Edge` `JournalLog` `JournalState` `Journal` `JournalWriter` `Pump` `TriggerCodec` `TriggerQueue` `TriggerFeed` `TriggerLeftovers` |

The pivot is the **retained bound** of a state (`Engine.Bound`): the least of the registered snapshots
and the last flushed seqno. Unlike the GC watermark it never moves down, and every state of the
history at or above it is intact. A compaction may drop only what no reader at or above the bound can
see, and value-log GC may delete only what none can dereference.

Code that updates state in place is written as classes and loops (`RunningJob`, `MergeIterator`, the
cursors, `Writer`, `Committer`, `Directory`, `Subscription`, `EdgeStore`, `Drainer`, `Forwarder`,
`Shard`, the codecs' loops) and proved against functions; interleavings are state machines whose
events are the source's critical sections, each taken as one atomic step in the documented lock order.

Values enter as parameters where the code calls something outside the model: which I/O fails, the
checksum, byte-size estimates, and a trigger's module, which is any function from its input and the
ops its snapshot sees to the writes it makes.

## What the code does not keep

Where a property in the code's comments or documentation turned out to be false of the code, the model
follows the code; a lemma gives a run that breaks it, and another states exactly when it holds.

- **Keys-mode re-touch inside one fsync group** (`Occ.RetouchIsLost`). The comments at
  `trigger.rs:27-30` and `txn.rs:64-68` say that a re-touch conflicts a drain that consumes the same
  queue key. The group's set of written keys holds each earlier batch's ops but not its captured
  events, so a re-touch ahead of the drain in the same group is not seen and the touch is deleted
  with the old event. `Occ.FirstCommitterWins` is the exact condition; no user key is ever affected
  (`CommitQueue.UserTransactionsWin`).
- **Writing on after a failed append** (`Recovery.ForcedSealLosesTheStore`,
  `Recovery.AdmittedWriterLosesTheStore`, `Recovery.PhantomRecord`). A failed append leaves torn bytes
  behind the last record, and the next append goes over their head; the comment at
  `io/std_io.rs:36-40` says that framing covers any remnant. But nobody asks again, under the write
  lock, whether the store is degraded: `flush` rotates (`db.rs:1135-1143`), and a writer, a transaction
  or a GC relocation that was let in before the failure (`db.rs:597`, `txn.rs:165`,
  `compaction.rs:849`) appends and rotates. A sealed WAL longer than its records refuses recovery, and
  a frame inside the bytes left behind a shorter one is served as a record nobody appended.
  `Recovery.RecoversExactlyWhen` is the exact condition on a store: the oldest WAL longer than its
  records must be the newest, with a remnant that reads as no record, or its remnant must read as a
  record whose values are not there, with nothing acknowledged after it. A run survives a power loss at
  each of its points if and only if each of its states is such (`Recovery.RunRecoversExactly`); while
  no record points at a missing value, that is a run none of whose steps rotates a WAL longer than its
  records or leaves a remnant that reads as a record (`Recovery.RuleIsExact`).
- **Recovered pointers and pins** (`Recovery.PointersOutliveValues`, `Durability.AdoptedPinIsLost`).
  Opening after a process crash flushes replayed records into tables without syncing the value-log
  files it adopts, and every later barrier, that of `pin` included, syncs the new head only
  (`db.rs:2428`, `db.rs:479-492`, `db.rs:1895`). One append with a value, a crash, a reopen and a power
  loss leave a durable pointer to nothing, and a pin taken in between reads nothing, although it is
  created to survive restarts. A run withstands a power loss at each of its points if and only if each
  of its process crashes finds every value reachable after it on the platter
  (`Durability.RunWithstandsExactly`), as it does right after a barrier (`Durability.SettledIsCalm`). Of
  a single store, `Durability.SurvivesEveryLoss` says before the loss when no power loss can take a
  read, and `Durability.PinSurvivesEveryLoss` when none can take a pin's.
- **Edge scans** (`Edge.ResurrectionHappens`). While the stream lags behind the slice's seqno, a
  tombstone the master dropped can let an older streamed put show through. `Edge.MergedRead` says
  exactly for which keys, and `Edge.NoneResurrected` when there are none. Point lookups ask the
  overlay first and have their own exact condition (`Edge.LookupIsExactWhen`).
- **Journal rebuild** (`JournalState.OverlapHarms`). Deltas at or below the base's seqno are replayed
  unfiltered; `JournalWriter.RebuildAfterCrash` says exactly when the rebuilt state is the source's.
- **A journal ahead of its source** (`JournalWriter.StaleRebuild`). A source that does not sync each
  commit may come back without ops the journal had logged durably. Attaching does not compare the two;
  until the new base is closed a crash rebuilds a state the source no longer has.
- **Journal re-attach** (`JournalWriter.HeaderlessFirstFile`). Two crashes, in a rotation and in the
  pruning that follows, leave a first file without a header, which re-attach refuses although rebuild
  accepts the log.
- **A trigger's queue at creation** (`TriggerFeed.LeftoversAreDelivered`). Creating a trigger does not
  look at its queue: events left by a deletion that was cut short belong to the new trigger. If the
  new module consumes the queue in the other mode, its feed stalls short of a full batch
  (`TriggerLeftovers.TouchesStallTheFeed`), or it is handed seqnos for touched keys
  (`TriggerLeftovers.SeqnosReadAsKeys`).
- **The runner's sweep** (`TriggerFeed.LateSweepLoses`). The runner decides that a queue is residue,
  reads it and deletes it in separate steps; a trigger created before the reading loses its first
  events.
- **A drain that outlives its trigger** (`TriggerFeed.ForeignChunkIsDelivered`,
  `TriggerFeed.LatePackMisdelivers`). The runner looks a trigger up, packs its input, and only then opens
  the transaction, a fresh one after every conflict (`trigger.rs:621-669`, `wasm/mod.rs:424-460`). If the
  trigger is deleted and another of that name created meanwhile, a chunk already packed is delivered in
  the new life, and one not yet packed is the new trigger's changes, consumed by the old module. For
  this and the two before it, `TriggerFeed.ExactlyOnceExactlyWhen` tells before the first event whether
  every run is exactly-once: if and only if the queue is empty and the runner neither has looked the
  name up and yet to read the queue nor holds a chunk packed for an earlier trigger of the name.
  `TriggerFeed.ExactlyOnceWhen` tells it of a single run.
- **Tier triggers of zero** (`Scheduling.StuckNeverRests`). The options admit them. An unforced scheduler
  with levels between the top and the bottom comes to rest if and only if both triggers are at least
  one (`Scheduling.RestsExactlyWithTriggers`). A forced one ignores the triggers in choosing work but
  not in preempting it: a job below a zero trigger that its first slice does not finish is never
  resumed (`Scheduling.StarvedJobNeverFinishes`). With fewer levels, or in forced mode, every run ends
  at rest or in such a state (`Scheduling.RunToRest`).

## Model

| member | source | states |
|---|---|---|
| Keys.RankEmbedsOrder | crates/fluent31/src/types.rs:83-93 | byte-string keys embed in the reals, one-to-one and in order, so what is proved for all real keys holds for all byte strings |
| Types.Seek | crates/fluent31/src/version.rs:138-152 | seeking a sorted list to (key, snapshot) finds the newest visible version of the key, or shows there is none |
| Views.InsertExact | crates/fluent31/src/memtable.rs:36-60 | a memtable insert keeps internal-key order and adds exactly the inserted version |
| Views.MemEntriesExact | crates/fluent31/src/memtable.rs:36-60 | a memtable holds exactly the ops of its stretch of the history, in order |
| Views.MemGetExact | crates/fluent31/src/memtable.rs:51-60 | a memtable lookup answers with the newest version of its stretch at or below the snapshot |
| Views.ViewReadExact | crates/fluent31/src/version.rs:268-285 | memtable, then frozen memtables, then the tree: the first hit is the history's newest version, for every seqno at or above the retained bound |
| Runs.FragmentHolds | crates/fluent31/src/version.rs:71-78 | binary search over a run's key-disjoint fragments finds the only one that can hold the key |
| Runs.RunGetExact | crates/fluent31/src/version.rs:79-88 | a run's point read is the newest visible version among all its entries |
| Runs.MayContain | crates/fluent31/src/version.rs:89-95 | a run that answers "no" holds no version of the key |
| Runs.AnyMayContain | crates/fluent31/src/compaction.rs:55-70 | if no older run says "maybe", no older run holds a version of the key: the licence to drop a tombstone |
| Runs.FirstHitIsNewest | crates/fluent31/src/version.rs:232-239 | when earlier runs are newer key by key, stopping at the first run that hits finds the newest visible version of the whole tree |
| Bloom.Build | crates/fluent31/src/bloom.rs:23-42 | the set bits are exactly the probes of the given hashes, no more and no fewer |
| Bloom.MayContain | crates/fluent31/src/bloom.rs:44-64 | "maybe" exactly when every probed bit is set; an unreadable filter answers "maybe" |
| Bloom.BuiltFilterAnswers | crates/fluent31/src/bloom.rs:23-64 | a built filter never says "no" for one of its own keys, says "no" to everything when empty, and otherwise errs only when all probes collide |
| Lru.TrimExact | crates/fluent31/src/cache.rs:107-118 | eviction keeps the longest prefix of the recency order within the budget, or the front block alone |
| Lru.RunIsExact | crates/fluent31/src/cache.rs:72-119 | over every run of gets and inserts: each slot once, with the value last inserted, in order of last use, within the budget unless a single block |
| Lru.UnlinkedOrder | crates/fluent31/src/cache.rs:44-58 | relinking a node's neighbours takes exactly that node out of the doubly linked order |
| Lru.PushedOrder | crates/fluent31/src/cache.rs:60-70 | pushing a free node puts it in front of the order and disturbs no other link |
| Lru.IndexFinds | crates/fluent31/src/cache.rs:72-77 | looking a slot up in the map finds its position in the recency list, and each slot is cached once |
| Lru.Shard.Unlink | crates/fluent31/src/cache.rs:44-58 | the links again run through the remaining nodes in order, both ways, and head and tail are its ends |
| Lru.Shard.PushFront | crates/fluent31/src/cache.rs:60-70 | the pushed node becomes the most recently used one |
| Lru.Shard.Get | crates/fluent31/src/cache.rs:72-77 | a hit returns the cached value and moves its block to the front; links, map, free list and byte count stay consistent |
| Lru.Shard.Add | crates/fluent31/src/cache.rs:85-106 | a new block goes in front, in a freed node when there is one and a new one otherwise |
| Lru.Shard.EvictLast | crates/fluent31/src/cache.rs:107-118 | eviction removes exactly the least recently used block and frees its node |
| Lru.Shard.Insert | crates/fluent31/src/cache.rs:79-119 | the arena refines the recency list: place the block in front, then trim to the budget |
| Merging.MergeExists | crates/fluent31/src/iter.rs:45-80 | any well-ordered children have a merge |
| Merging.StrictMerge | crates/fluent31/src/iter.rs:53-80 | disjoint children merge into one strictly ordered list |
| Merging.MergeMembers | crates/fluent31/src/iter.rs:45-144 | a merge holds exactly the entries of its children |
| Merging.MergeIterator.Pick | crates/fluent31/src/iter.rs:53-80 | the chosen child is the first whose head no other head precedes, in either direction |
| Merging.MergeIterator.Next | crates/fluent31/src/iter.rs:121-136 | stepping yields the merge's entries one by one, each child's entries all once |
| Merging.BestIsFirst | crates/fluent31/src/iter.rs:53-80 | the chosen head precedes every entry still to come |
| Compaction.ScanExact | crates/fluent31/src/compaction.rs:409-516 | the merge loop keeps exactly: everything above the watermark, and per key the newest version at or below it, unless that is a tombstone no older run can need |
| Compaction.DiscardConserves | crates/fluent31/src/compaction.rs:477-481 | the bytes each value-log file is referenced for are conserved: kept plus accounted as discarded |
| Compaction.RunningJob.constructor | crates/fluent31/src/compaction.rs:382-408 | a job opens on the merge of its inputs with nothing read |
| Compaction.RunningJob.RunSlice | crates/fluent31/src/compaction.rs:409-516 | cut into slices anywhere on key boundaries, the job's fragments hold what one uninterrupted scan keeps, and its discard counts are the same |
| Compaction.RunningJob.Consider | crates/fluent31/src/compaction.rs:423-450 | one entry's fate is that of one turn of the scan |
| Compaction.RunningJob.Add | crates/fluent31/src/compaction.rs:451-476 | splitting into fragments by size keeps them sorted and key-disjoint |
| Tree.InstallReplaces | crates/fluent31/src/compaction.rs:581-686 | an install replaces the consumed runs, in place, by what the job produced; whatever was flushed meanwhile stays in front |
| Tree.RetainPinned | crates/fluent31/src/compaction.rs:590-640 | dropping runs by id removes exactly the pinned inputs |
| Tree.FlushKeepsInPlace | crates/fluent31/src/db.rs:1161-1235 | a flush leaves every job's inputs and its set of older runs in place |
| Tree.InstallKeepsInPlace | crates/fluent31/src/compaction.rs:581-686 | an install at a higher level leaves every suspended deeper job's inputs and older set in place |
| Rewriting.Partition | crates/fluent31/src/compaction.rs:279-370 | a splice cuts the base run into three consecutive pieces: left of, overlapping, and right of the upper run |
| Rewriting.KeptAreOutside | crates/fluent31/src/compaction.rs:279-370 | base fragments left untouched lie entirely outside the spliced key range |
| Rewriting.ReplaceKeepsTree | crates/fluent31/src/compaction.rs:581-686 | replacing consecutive runs by runs of their own entries keeps earlier runs newer than later ones, key by key |
| Rewriting.ProducedWf | crates/fluent31/src/compaction.rs:581-686 | the spliced base is a well-formed run: kept fragments and output are sorted and key-disjoint |
| Rewriting.ProducedContents | crates/fluent31/src/compaction.rs:581-686 | what an install produces holds exactly what was consumed less what the merge loop dropped |
| Rewriting.Execute | crates/fluent31/src/compaction.rs:409-522 | run to its end in slices of any size, a job hands the install exactly the output of one uninterrupted scan of its merged inputs, and accounts the same bytes as discarded |
| Retention.TreeReadExact | crates/fluent31/src/version.rs:232-239 | a tree that retains from a bound answers every read at or above it as the history does |
| Retention.DroppedIsHidden | crates/fluent31/src/compaction.rs:409-516 | a dropped newest version is a tombstone, and everything of its key at or below the bound goes with it |
| Retention.InstallRetains | crates/fluent31/src/compaction.rs:581-686 | every completed rewrite keeps the tree retaining from the same bound |
| Retention.CompactionPreservesReads | crates/fluent31/src/compaction.rs:409-686 | a tier merge or bottom splice leaves the resolved read of every key at every retained seqno unchanged |
| Retention.RaiseBound | crates/fluent31/src/db.rs:450-460 | raising the bound asks less of a tree, never more |
| Scheduling.InstallMovesDown | crates/fluent31/src/compaction.rs:581-686 | every install moves runs towards the bottom or merges them |
| Scheduling.SchedulerMakesProgress | crates/fluent31/src/compaction.rs:147-245 | without flushes, every scheduler event strictly decreases a lexicographic measure as long as every job has inputs |
| Scheduling.StillWorking | crates/fluent31/src/compaction.rs:262-318 | every job chosen has inputs, unless the scheduler gets stuck below a trigger of zero |
| Scheduling.RunToRest | crates/fluent31/src/compaction.rs:147-245 | from every reachable state, in either mode and with any options, the scheduler comes to rest or gets stuck below a trigger of zero; at rest in forced mode every level has at most one run |
| Scheduling.NextEvent | crates/fluent31/src/compaction.rs:179-245 | a scheduler that is not at rest always has an event it can take |
| Scheduling.OutputExists | crates/fluent31/src/compaction.rs:409-516 | every pinned job can be finished |
| Scheduling.QuietForcedShape | crates/fluent31/src/compaction.rs:279-370 | a forced scheduler at rest leaves at most one run per level |
| Scheduling.StuckNeverRests | crates/fluent31/src/compaction.rs:209-277 | no run of scheduler events brings a stuck scheduler to rest: a job waiting below a trigger of zero is never resumed |
| Scheduling.RestsExactlyWithTriggers | crates/fluent31/src/compaction.rs:162-370 | an unforced scheduler with more than two levels can come to rest if and only if both triggers are at least one |
| Scheduling.StarvedJobNeverFinishes | crates/fluent31/src/compaction.rs:179-277 | in either mode, a job in flight below a trigger of zero is preempted at the next step, and the scheduler never comes to rest again |
| Engine.Least | crates/fluent31/src/db.rs:80-104 | the minimum of the registered snapshots, or the cap when none is below it |
| Invariance.BoundMonotone | crates/fluent31/src/db.rs:399-456 | the retained bound never moves down, whatever happens, process crashes and power losses included |
| Invariance.CommitKeeps | crates/fluent31/src/db.rs:698-819 | a commit keeps the invariant: its values are resolvable and nothing a GC pass relies on changes |
| Invariance.FlushRetains | crates/fluent31/src/db.rs:1161-1235 | flushing the oldest memtable keeps the tree retaining |
| Invariance.FlushWf | crates/fluent31/src/db.rs:1161-1235 | a flushed run is newer, key by key, than every run it is put in front of |
| Invariance.FlushKeeps | crates/fluent31/src/db.rs:1161-1235 | a flush keeps the whole invariant, with jobs active or suspended |
| Invariance.PickBeforeOk | crates/fluent31/src/compaction.rs:262-278 | a preempting job sits strictly above the suspended ones and is intact |
| Invariance.PickOk | crates/fluent31/src/compaction.rs:279-370 | whatever the picker chooses has its inputs and older set in place |
| Invariance.SuspendKeeps | crates/fluent31/src/compaction.rs:209-230 | suspending a job for a higher one keeps levels strictly decreasing on the stack |
| Invariance.OpenIsSafe | crates/fluent31/src/compaction.rs:382-404 | because inputs are pinned before the watermark is read, no input at or below it is newer than the retained bound |
| Invariance.InstallKeeps | crates/fluent31/src/compaction.rs:581-686 | an install keeps the invariant for the tree and every suspended job |
| Invariance.DeepenSameRuns | crates/fluent31/src/compaction.rs:537-579 | deepening moves the bottom's runs into a new level and changes nothing else |
| Invariance.DeepenKeeps | crates/fluent31/src/compaction.rs:537-579 | deepening keeps the invariant |
| Invariance.SchedulerKeeps | crates/fluent31/src/compaction.rs:147-245 | every scheduler event keeps the invariant |
| GarbageCollection.RelocationsExact | crates/fluent31/src/compaction.rs:895-975 | relocation writes exactly one op per record that the newest version of its key still points at |
| GarbageCollection.RelocationPreservesValues | crates/fluent31/src/compaction.rs:895-975 | after a relocation batch every key still reads as the same bytes |
| GarbageCollection.RelocateKeeps | crates/fluent31/src/compaction.rs:895-975 | each relocation batch keeps the invariant: keys whose newest version is in the victim are still to be examined |
| GarbageCollection.GcSyncKeeps | crates/fluent31/src/compaction.rs:940-975 | once every record was examined and synced, no newest version at or above that seqno points into the victim |
| GarbageCollection.GcRetireKeeps | crates/fluent31/src/compaction.rs:960-975 | retiring the victim keeps the invariant |
| GarbageCollection.GatesRaiseBound | crates/fluent31/src/compaction.rs:697-741 | the watermark gate and the flushed gate together put the retained bound at or above the retirement seqno |
| GarbageCollection.ReleaseKeeps | crates/fluent31/src/compaction.rs:697-741 | deleting a retired file leaves every value resolvable that any reader at or above the retained bound can reach |
| GarbageCollection.ReplayedExact | crates/fluent31/src/db.rs:2318-2417 | after a power loss replay ends at the last commit end up to which the WAL reads and no value committed since the flush is missing, never below the last barrier |
| GarbageCollection.RecentOpsResolve | crates/fluent31/src/db.rs:2935-2968 | every committed op above the retained bound still has its value: queued stream entries and replayable records stay resolvable |
| GarbageCollection.CrashKeeps | crates/fluent31/src/db.rs:2428-2542 | a process crash keeps the invariant (pins come back as registrations, ephemeral snapshots go, retained states stay retained); a power loss keeps it if and only if it spares the values that the open before recovered and the retained states still reach |
| GarbageCollection.NextKeeps | crates/fluent31/src/compaction.rs:147-245 | every event of the store keeps the invariant, a power loss if it spares those values |
| Guarantees.InitIsInv | crates/fluent31/src/db.rs:2633-2656 | a fresh store satisfies the invariant |
| Guarantees.ReadsAreExact | crates/fluent31/src/version.rs:268-285 | in every state with the invariant, so in every state reached without a power loss that took a recovered value still reachable, every read at or above the retained bound returns the history's value for that seqno, and its bytes can be fetched |
| Guarantees.LatestIsExact | crates/fluent31/src/version.rs:286-290 | the conflict check's lookup finds a version newer than a held snapshot exactly when the history has one, dropped tombstones notwithstanding |
| Guarantees.SnapshotIsStable | crates/fluent31/src/db.rs:399-456 | a registered snapshot reads the same bytes for as long as it is held, over every run of commits, flushes, compactions, GC passes, process crashes, and power losses that spare the recovered values still reachable |
| Guarantees.GrantsAreSound | crates/fluent31/src/db.rs:424-442 | a snapshot at a seqno is granted exactly when the seqno is the visible one or at or above a registered snapshot, and what is granted is intact |
| Guarantees.RefusalIsConservative | crates/fluent31/src/db.rs:424-442 | a refused state can still be intact |
| Guarantees.RegistrationSites | crates/fluent31/src/fork.rs:136-157 | the other registrations (current state, a head fork's cut, a moving stream pin) are sound without asking the watermark |
| Durability.CrashReads | crates/fluent31/src/db.rs:2318-2542 | after a process crash every retained read answers as before; after a power loss it does too, unless its value was recovered by the open before and taken, and then it fails where it succeeded |
| Durability.CrashIsExact | crates/fluent31/src/db.rs:2318-2542 | a crash keeps every retained read if and only if it keeps the whole invariant, and a process crash always does |
| Durability.PinSurvives | crates/fluent31/src/db.rs:2488-2504 | recovery never ends below a pin, so open never refuses for one; the pin reads as before the crash if and only if no value recovered by the open before that it reaches was taken |
| Durability.ReplayedMonotone | crates/fluent31/src/db.rs:2355-2370 | the more of the WAL and of the values survives, the further replay gets |
| Durability.SurvivesEveryLoss | crates/fluent31/src/db.rs:2318-2542 | no power loss changes any retained read if and only if the worst one, which leaves nothing unsynced, would find whatever the last open recovered and is still reachable on the platter |
| Durability.PinSurvivesEveryLoss | crates/fluent31/src/db.rs:1865-1925 | no power loss changes what a pin reads if and only if whatever the last open recovered and the pin reaches is on the platter |
| Durability.AdoptionIsSafe | crates/fluent31/src/db.rs:2428-2542 | a store reopened after a process crash withstands every power loss if and only if the crash found every value reachable after it on the platter |
| Durability.SettledIsCalm | crates/fluent31/src/db.rs:479-492 | a process crash right after a barrier finds them there, if nothing adopted before was in danger |
| Durability.SafeIsKept | crates/fluent31/src/db.rs:1097-1235 | nothing but a process crash ever endangers what was adopted: commits, freezes, flushes, rotations, pins, compactions, GC passes and power losses do not |
| Durability.RunWithstandsExactly | crates/fluent31/src/db.rs:2318-2542 | a run of the store, from a fresh one or any in which nothing adopted is in danger, withstands a power loss at each of its points if and only if each of its process crashes finds the values reachable after it on the platter |
| Durability.InitIsSafe | crates/fluent31/src/db.rs:2633-2656 | in a fresh store nothing adopted is in danger |
| Durability.AdoptedPinIsLost | crates/fluent31/src/db.rs:1865-1925 | from every state with the invariant, for every key and value: append, process crash, reopen, pin; the pin reads the value, and a power loss leaves the pin registered with nothing to read |
| Guarantees.WatermarkDrops | crates/fluent31/src/db.rs:450-456 | the watermark itself is not monotone: registering a snapshot can move it down, the retained bound not |
| Cursors.EmitsVisible | crates/fluent31/src/iter.rs:161-212 | skipping invisible and shadowed versions and tombstones emits exactly the newest visible put per key, in order |
| Cursors.EmitsBackVisible | crates/fluent31/src/iter.rs:228-292 | the same from the back, although versions arrive oldest first |
| Cursors.MvccForward.NextVisible | crates/fluent31/src/iter.rs:173-212 | each call yields the next pair of the forward enumeration |
| Cursors.MvccReverse.NextVisible | crates/fluent31/src/iter.rs:253-292 | each call yields the next pair of the backward enumeration |
| Cursors.MvccReverse.TakeEmittable | crates/fluent31/src/iter.rs:245-252 | a finished group is emitted once, and only if its newest visible version is a put |
| Cursors.ScanForward | crates/fluent31/src/iter.rs:161-212 | a forward scan of [lo, hi) enumerates exactly the visible pairs of its sources |
| Cursors.ScanBackward | crates/fluent31/src/iter.rs:228-292 | a backward scan enumerates the same pairs |
| Cursors.DirectionsMirror | crates/fluent31/src/iter.rs:161-292 | the backward enumeration is the exact reversal of the forward one |
| Cursors.OverlaidExact | crates/fluent31/src/txn.rs:264-302 | the merged list is the snapshot with every written key overridden: puts shown, deletes hidden, the rest unchanged |
| Cursors.TxnIter.Next | crates/fluent31/src/txn.rs:264-302 | a transaction's iterator yields that list, in either direction |
| Scans.SourcesExact | crates/fluent31/src/db.rs:370-397 | memtable, frozen memtables and runs together hold exactly the store's versions, in disjoint sorted children |
| Scans.BagSeesHistory | crates/fluent31/src/db.rs:370-397 | the newest visible version among the sources is the history's |
| Scans.ScanStore | crates/fluent31/src/db.rs:370-397 | a range scan of any reachable store at a retained seqno lists exactly the history's state there, in order |
| Fork.CutExact | crates/fluent31/src/fork.rs:321-392 | the rewrite emits exactly the puts that are the newest version of their key at or below the cut |
| Fork.WriteSnapshotRun | crates/fluent31/src/fork.rs:321-392 | the written fragments form a well-formed run holding exactly those puts |
| Fork.ChildReadsTheCut | crates/fluent31/src/fork.rs:136-157 | reading the child at any seqno at or above the cut, before its own writes, equals reading the parent at the cut |
| GroupCommit.TwinsReject | crates/fluent31/src/db.rs:698-760 | the single-batch and the group path reject the same batches, and name the same reason unless both reasons hold |
| GroupCommit.PlanIsOneByOne | crates/fluent31/src/db.rs:861-897 | the group's validation and seqno hand-out accepts, numbers and captures as applying the batches one by one would |
| GroupCommit.PlanIncreasing | crates/fluent31/src/db.rs:861-897 | accepted batches keep queue order and have no result yet |
| GroupCommit.PublishedPrefix | crates/fluent31/src/db.rs:853-1089 | what a prefix of the accepted batches publishes is a prefix of what all of them would |
| GroupCommit.Writer.ApplyOne | crates/fluent31/src/db.rs:698-819 | a batch publishes its ops and events at the next seqnos with one WAL record, or, on any failure before that, nothing |
| GroupCommit.Writer.PlanGroup | crates/fluent31/src/db.rs:861-897 | phase 0 of the group apply computes that plan |
| GroupCommit.Writer.PlaceGroup | crates/fluent31/src/db.rs:928-971 | large values go to the value log in seqno order; a failure leaves a prefix placed |
| GroupCommit.Writer.AppendGroup | crates/fluent31/src/db.rs:987-1019 | one WAL record per batch, in order, up to the first failure |
| GroupCommit.Writer.Publish | crates/fluent31/src/db.rs:1039-1089 | memtable, visible seqno and stream all advance by exactly the surviving prefix |
| GroupCommit.Writer.ApplyGroup | crates/fluent31/src/db.rs:853-1089 | under any injected append or sync failure the published batches are a contiguous seqno prefix of the accepted ones, published as one by one, and every batch gets exactly one result |
| GroupCommit.EverySlotIsFilled | crates/fluent31/src/db.rs:899-919 | no batch is left without a result |
| Occ.NewestIsExact | crates/fluent31/src/version.rs:286-290 | the newest version of a key is above a snapshot exactly when the key was written after it |
| Occ.CheckIsExact | crates/fluent31/src/db.rs:2078-2099 | a transaction passes validation exactly when none of its keys was written since its snapshot, in the store or by an earlier member of its group |
| Occ.Validate | crates/fluent31/src/db.rs:2078-2099 | the validation loop computes that check |
| Occ.ValidateGroup | crates/fluent31/src/db.rs:2064-2123 | each member of a group is judged by what came before it |
| Occ.RunGroup | crates/fluent31/src/db.rs:2064-2123 | validating and applying a group gives each member its own outcome and publishes a prefix of the accepted batches |
| Occ.PublishedWrites | crates/fluent31/src/db.rs:853-1089 | the versions a group publishes continue the dense history and carry exactly the keys of its ops and events |
| Occ.StoreAtPoint | crates/fluent31/src/db.rs:2064-2123 | a member takes effect at a point of the history where the store is what its predecessors left |
| Occ.FirstCommitterWins | crates/fluent31/src/db.rs:2064-2123 | a committed transaction has no version of a validated key between its snapshot and its own commit, exactly unless a predecessor's captured event in the same group hit the key |
| Occ.DoneIsVisible | crates/fluent31/src/db.rs:2064-2123 | a member told Ok has its ops in the store, at its own seqnos |
| Occ.VisibleIsDone | crates/fluent31/src/db.rs:2064-2123 | every op a group made visible belongs to a member told Ok |
| Occ.RangesInOrder | crates/fluent31/src/db.rs:861-897 | members take effect in queue order, on disjoint seqno ranges |
| Occ.RetouchIsConsumed | crates/fluent31/src/db.rs:2064-2123 | from any store: a re-touch ahead of the drain that consumes its queue key, in one group, is not seen; both commit and the queue key ends deleted |
| Occ.RetouchIsLost | crates/fluent31/src/trigger.rs:27-30 | a run of two groups from the empty store: a first touch enters the queue, and its consumption shares a group with a second touch, which is lost |
| CommitQueue.ChunkIsUnique | crates/fluent31/src/db.rs:2732-2738 | the byte-cap rule leaves no choice of chunk |
| CommitQueue.NextChunk | crates/fluent31/src/db.rs:2018-2030 | the chunk loop takes the first batch whatever its size, then as many as fit |
| CommitQueue.WithdrawKeeps | crates/fluent31/src/db.rs:660-687 | a writer told Background or Closed had its batch pulled from the queue |
| CommitQueue.ServeKeeps | crates/fluent31/src/db.rs:2064-2137 | serving a chunk keeps the invariant |
| CommitQueue.NextKeeps | crates/fluent31/src/db.rs:1972-2137 | every step of writers, committer, degradation and shutdown keeps the invariant |
| CommitQueue.RunExtends | crates/fluent31/src/db.rs:1972-2137 | answers given are final and the store only grows |
| CommitQueue.AcksNeverLie | crates/fluent31/src/db.rs:623-687 | over every interleaving: a withdrawn batch is never applied, every answered ticket has one outcome, and a non-empty batch is Ok exactly when its ops are visible |
| CommitQueue.CommittedTransactionsWin | crates/fluent31/src/txn.rs:161-224 | over every interleaving, first committer wins for every committed transaction that was not overtaken by an event of its own group |
| CommitQueue.UserTransactionsWin | crates/fluent31/src/txn.rs:161-224 | over every interleaving, first committer wins for every transaction on user keys |
| CommitQueue.Committer.Bail | crates/fluent31/src/db.rs:660-687 | a parked writer leaves only with its batch still queued |
| CommitQueue.Committer.ServeChunk | crates/fluent31/src/db.rs:2014-2135 | one turn of the committer is one step of the protocol |
| CommitQueue.Committer.ServeDrained | crates/fluent31/src/db.rs:1972-2137 | everything drained is answered, chunk by chunk |
| Conflicts.LatestAgrees | crates/fluent31/src/version.rs:286-290 | in any reachable store, the newest version found in memtables and tables is above a held snapshot exactly when the newest ever committed is |
| Conflicts.ValidationIsExact | crates/fluent31/src/txn.rs:198-224 | over every run of commits, flushes, compactions and GC passes with the snapshot held, validation on the tables passes exactly when no key of the transaction was committed since |
| Conflicts.CommitsOnWhatItRead | crates/fluent31/src/db.rs:2064-2123 | a group validated on the tables: for each committed member, the newest version of every key it wrote or locked is the same where it takes effect as at its snapshot, exactly unless an earlier member's trigger event hit such a key |
| Coding.LittleEndianRoundTrip | crates/fluent31/src/coding.rs:6-12 | fixed-width integers decode to what was encoded |
| Coding.PutUvarint | crates/fluent31/src/coding.rs:14-20 | the encoding loop appends the LEB128 digits |
| Coding.UvarintRoundTrip | crates/fluent31/src/coding.rs:14-86 | engine and guest readers both take back every 64-bit number the engine writes, whatever follows it |
| Coding.ReadersDiffer | crates/fluent-guest/src/lib.rs:158-176 | on malformed tenth bytes the engine reports overflow where the guest reads the low bit |
| Coding.BigEndianInOrder | crates/fluent31/src/types.rs:230-239 | byte order on big-endian numbers of one width is numeric order |
| Wal.ReadWal | crates/fluent31/src/wal.rs:58-111 | the reading loop returns the longest run of whole records with matching checksums, and where it stops |
| Wal.ReadsWhatWasWritten | crates/fluent31/src/wal.rs:31-111 | appended records are read back, in order |
| Wal.FileReads | crates/fluent31/src/wal.rs:58-111 | a torn tail costs none of the records before it |
| Wal.CutReads | crates/fluent31/src/wal.rs:58-111 | a file cut at any byte reads as a prefix of its records |
| Wal.CutReadsPrefix | crates/fluent31/src/wal.rs:58-111 | any file, whatever its bytes, cut anywhere reads as a prefix of what it read as before |
| Wal.CutFrameIsGarbage | crates/fluent31/src/wal.rs:58-111 | a record cut anywhere is recognised as torn |
| Wal.ZerosAreGarbage | crates/fluent31/src/wal.rs:58-111 | a zero-filled tail is torn, not an empty record |
| Wal.TruncatedIsClean | crates/fluent31/src/db.rs:2318-2417 | truncating at the point where reading stopped leaves a clean file with the same records |
| Formats.BatchesReadBack | crates/fluent31/src/batch.rs:68-99 | a batch payload of fewer than 2^32 entries is read back, whatever its keys and values and whatever follows it |
| Formats.LowestFormat | crates/fluent31/src/manifest.rs:120-129 | a manifest is written at the lowest format whose sections carry it |
| Formats.ManifestReadsBack | crates/fluent31/src/manifest.rs:88-285 | every manifest is read back by exactly the programs that know the format it is written at; an older program refuses it by its format |
| Recovery.ReplayAll | crates/fluent31/src/db.rs:2318-2417 | the replay loop over the live WALs computes what the disk recovers to |
| Recovery.Directory.Open | crates/fluent31/src/db.rs:2318-2542 | stopped after any step, the disk still recovers to the same records; run to the end, it holds them in tables with one empty WAL |
| Recovery.TruncateKeeps | crates/fluent31/src/db.rs:2380-2417 | truncating the torn tail changes nothing that is recovered |
| Recovery.FlipKeeps | crates/fluent31/src/db.rs:2506-2542 | tables and WAL floor change in one manifest flip, so records are never lost nor replayed twice |
| Recovery.RecoveryIsAPrefix | crates/fluent31/src/db.rs:2318-2417 | whatever part of the unsynced tail survives, recovery yields a prefix of whole batches containing every acknowledged one |
| Recovery.OpeningLosesNothing | crates/fluent31/src/db.rs:2506-2542 | on a disk with nothing left unsynced, as a power loss leaves one, a power loss during or right after opening changes nothing |
| Recovery.OpenedRuns | crates/fluent31/src/db.rs:2506-2542 | a store opened on a disk that a power loss left runs on from the records it recovered, its invariant intact |
| Recovery.RecoversExactlyWhen | crates/fluent31/src/db.rs:2318-2417 | of any running store: every power loss is survived, with a prefix of the batches that has every acknowledged one and nothing taken from a remnant, if and only if the oldest WAL longer than its records is the newest and its remnant reads as no record, or its remnant reads as a record whose values are missing and nothing after it is acknowledged |
| Recovery.SoundIsTolerable | crates/fluent31/src/db.rs:2318-2417 | a store whose sealed WALs end with their last records, and whose newest has a remnant that reads as no record, is such a store; and when every record read has its values, no other is |
| Recovery.NextKeeps | crates/fluent31/src/db.rs:698-819 | every append, failed append, sync, rotation, flush and sweep keeps the invariant, on a degraded store too, and a sound store stays sound exactly unless the step rotates a WAL longer than its records or leaves a remnant that reads as a record |
| Recovery.FreshIsSound | crates/fluent31/src/db.rs:2633-2656 | a fresh store satisfies the invariant and is sound |
| Recovery.EveryRunRecovers | crates/fluent31/src/db.rs:1097-1235 | over every run without such a step, degraded or not, any power loss at its end leaves a store that opens with a prefix of the batches, every acknowledged one among them |
| Recovery.RunRecoversExactly | crates/fluent31/src/db.rs:1097-1235 | any run survives every power loss at every one of its points if and only if the condition of RecoversExactlyWhen holds in each of its states |
| Recovery.RuleIsExact | crates/fluent31/src/db.rs:1097-1235 | while every record that any live WAL reads has its values, that is if and only if no step of the run rotates a WAL longer than its records or leaves a remnant that reads as a record |
| Recovery.ForcedSealLosesTheStore | crates/fluent31/src/db.rs:1135-1143 | from every sound store whose newest WAL is whole and not empty, a torn append and then an explicit flush leave a store that does not open |
| Recovery.AdmittedWriterLosesTheStore | crates/fluent31/src/db.rs:698-819 | from every sound store whose newest WAL is whole, a torn append, a shorter append by a writer let in before the failure, and the rotation its own write causes leave a store that does not open |
| Recovery.PhantomRecord | crates/fluent31/src/io/std_io.rs:36-46 | in every sound store whose newest WAL is whole: a batch that contains a frame is torn behind it and a shorter batch is written over its head: after a crash the store serves a record nobody appended |
| Recovery.TornSealedWalRefuses | crates/fluent31/src/db.rs:2318-2417 | one torn sealed WAL refuses recovery |
| Recovery.LostIsOnPlatter | crates/fluent31/src/db.rs:2318-2417 | after a power loss everything left is durable, and a second power loss takes nothing more |
| Recovery.RecoveredPointersDurable | crates/fluent31/src/db.rs:2506-2542 | opening after a process crash recovers every appended batch, and the opened store is in order if and only if the values they point at were durable before |
| Recovery.PointersOutliveValues | crates/fluent31/src/db.rs:2506-2542 | from every sound store whose newest WAL is whole, one unsynced append with a value, a process crash, a reopen and a power loss leave a durable table that points at a lost value |
| Streams.ExpectedIsFeed | crates/fluent31/src/db.rs:2790-2866 | the entries offered are the gap-free, seqno-ordered, in-range part of the history, in whole commits |
| Streams.Subscription.constructor | crates/fluent31/src/db.rs:3017-3043 | a subscription starts, pinned, at the visible seqno |
| Streams.Subscription.Offer | crates/fluent31/src/db.rs:2790-2835 | a commit's in-range ops are queued whole, or the subscriber is cut loose exactly when they exceed its budget |
| Streams.Subscription.Receive | crates/fluent31/src/db.rs:2912-2968 | a batch is everything queued, and moves the pin to its last entry; Lagged exactly after a cut |
| Streams.QueuedAbovePin | crates/fluent31/src/db.rs:2935-2968 | every queued entry lies above the pin, so its value cannot be collected |
| Streams.DeliveredIsFeed | crates/fluent31/src/db.rs:2912-2968 | what was delivered is, at any moment, the in-range history from the start to the end of a whole commit |
| Edge.SliceKeepsScope | crates/fluent31/src/db.rs:3069-3106 | the tables a slice ships retain, for keys in scope, what the master's tree retains |
| Edge.MergedRead | crates/fluent31/src/edge.rs:436-494 | merging overlay and slice reads a key as the master at the edge's frontier exactly if it is not resurrected |
| Edge.LookupIsExactWhen | crates/fluent31/src/edge.rs:411-435 | asking the overlay first is exact exactly when the stream has passed the slice, the overlay misses, or the key did not change in between |
| Edge.NoneResurrected | crates/fluent31/src/edge.rs:436-494 | no key is resurrected once the stream has reached the slice, or if the slice retains from where the stream started |
| Edge.ResurrectionHappens | crates/fluent31/src/edge.rs:292-494 | a run for any key: the stream carries its put and its delete, a slice taken after both were compacted away is installed, the put is applied, and the scan shows the deleted key |
| Edge.EdgeStore.InstallSlice | crates/fluent31/src/edge.rs:292-373 | installing a slice keeps the edge attached to the master's history, pruning only overlay entries the slice covers |
| Edge.EdgeStore.ApplyStream | crates/fluent31/src/edge.rs:374-406 | applying a batch brings the edge to the end of its last commit |
| Edge.EdgeStore.Lookup | crates/fluent31/src/edge.rs:411-435 | a lookup equals the master's value at the frontier exactly under the condition above |
| Edge.EdgeStore.Scan | crates/fluent31/src/edge.rs:436-494 | a scan equals the master's scoped scan at the frontier, key by key, exactly for keys not resurrected; those show what the overlay has of them |
| JournalLog.ReadAllRecords | crates/fluent31/src/journal.rs:941-1016 | a log is accepted exactly if its files form a contiguous chain whose headers agree, and then yields every record in order |
| JournalLog.FindLastCompleteCheckpoint | crates/fluent31/src/journal.rs:905-940 | the walk finds the last base that was closed, and the deltas after it |
| JournalLog.Rebuild | crates/fluent31/src/journal.rs:790-888 | rebuilding answers with the anchor base overlaid by its deltas, or with the error the first violated rule calls for |
| JournalState.BaseState | crates/fluent31/src/journal.rs:844-868 | a base span replays to the source's scoped state at its seqno |
| JournalState.DeltaState | crates/fluent31/src/journal.rs:844-868 | replaying a feed brings each touched key to the history's value at its end |
| JournalState.RebuildIsExactWhen | crates/fluent31/src/journal.rs:844-868 | the rebuilt state is the source's at the last logged seqno exactly when the deltas after the base are none, or reach its seqno, or touch only keys that read the same at their end as in the base |
| JournalState.OverlapHarms | crates/fluent31/src/journal.rs:844-868 | a concrete overlap of base and deltas that rebuilds a wrong state |
| Journal.AnchorIsLastEra | crates/fluent31/src/journal.rs:905-940 | in any log the drainer can leave, the anchor is the newest completed era |
| Journal.ShapeIsAccepted | crates/fluent31/src/journal.rs:790-888 | any such log passes every check of rebuild |
| Journal.CutKeepsShape | crates/fluent31/src/journal.rs:430-487 | cut anywhere after the first base, it is still such a log |
| Journal.WalkSkipsHeaders | crates/fluent31/src/journal.rs:905-940 | file headers inside the record stream change nothing that is found |
| JournalWriter.Drainer.Fresh | crates/fluent31/src/journal.rs:230-306 | a fresh journal is durable with a header and its base before anything else |
| JournalWriter.Drainer.WriteDeltas | crates/fluent31/src/journal.rs:656-676 | a delivered batch extends the newest era by exactly its ops |
| JournalWriter.Drainer.Rotate | crates/fluent31/src/journal.rs:464-479 | rotation keeps the chain contiguous and header-first |
| JournalWriter.Drainer.Compact | crates/fluent31/src/journal.rs:716-745 | a new durable base replaces the files before it, and only those |
| JournalWriter.Drainer.PruneFilesBelow | crates/fluent31/src/journal.rs:756-788 | pruning oldest-first keeps the log rebuildable after every single removal |
| JournalWriter.Drainer.HealLag | crates/fluent31/src/journal.rs:700-715 | after a lag the journal re-anchors on a fresh base at the new subscription's start |
| JournalWriter.Drainer.Reattach | crates/fluent31/src/journal.rs:230-306 | attaching to what a crash left cuts the torn tail off and keeps everything before it, whether or not the source still has every op logged |
| JournalWriter.CrashRebuilds | crates/fluent31/src/journal.rs:375-487 | any crash of any drainer run, at any record, with or without a torn one, leaves a log that rebuild accepts and anchors on a completed era |
| JournalWriter.StaleRebuild | crates/fluent31/src/journal.rs:230-306 | for every history, key and value: a journal that logged one op more than its source came back with is attached again and crashes; it rebuilds to a seqno the source has not reached and a value it does not have |
| JournalWriter.RebuildAfterCrash | crates/fluent31/src/journal.rs:790-888 | crash any drainer run anywhere and rebuild: the answer is the state of the source the anchoring base was written of, at the seqno it reports (the present source's, unless that one came back without logged ops and no base was closed since), if and only if the deltas since the anchoring base are none, or reach its seqno, or touch only keys that read the same at their end as in the base |
| JournalWriter.HeaderlessFirstFile | crates/fluent31/src/journal.rs:375-479 | a run of the drainer with two crashes, one in a rotation and one in the pruning of the next attach, leaves a log that rebuilds and that every further attach refuses |
| Pump.QueuedBeyond | crates/fluent-graphql/src/subscriptions.rs:158-190 | entries queued since a whole number of commits have boundaries beyond those commits |
| Pump.Grantable | crates/fluent31/src/db.rs:424-442 | with any registration held, every committed seqno at or above it is granted |
| Pump.Forwarder.Attach | crates/fluent-graphql/src/subscriptions.rs:138-157 | the attach marker's snapshot is always granted, since the stream's own pin still holds its start |
| Pump.Forwarder.Receive | crates/fluent-graphql/src/subscriptions.rs:160-190 | taking a batch moves the stream's pin while the hold stays at or below every boundary in it |
| Pump.Forwarder.Send | crates/fluent-graphql/src/subscriptions.rs:190-222 | each shown entry goes out, in order, with a granted snapshot at its own commit boundary |
| Pump.Forwarder.Roll | crates/fluent-graphql/src/subscriptions.rs:224-237 | the hold moves up to the batch's last boundary and is never refused |
| Pump.Forwarder.Outside | crates/fluent-graphql/src/subscriptions.rs:158-237 | whatever commits, flushes, compactions and GC passes run between two steps of the pump, its guarantees stay |
| Pump.SentIsFeed | crates/fluent-graphql/src/subscriptions.rs:126-238 | what was sent is the in-range history from the subscription's start, gap-free and in order, with deletes dropped only where they are not shown |
| Pump.BoundaryReads | crates/fluent-graphql/src/subscriptions.rs:190-222 | an attached snapshot reads the store exactly as its commit left it |
| TriggerCodec.RecordRoundTrip | crates/fluent31/src/trigger.rs:258-295 | a queued change record decodes to the change it encodes, elided values included |
| TriggerCodec.ParseInvertsPack | crates/fluent-guest/src/lib.rs:274-309 | an input parses to a list of changes exactly when it is the engine's packing of them |
| TriggerCodec.PackChanges | crates/fluent31/src/trigger.rs:704-749 | the longest prefix of the queue within batch and input limits is packed, with exactly its keys to consume; an unreadable entry stops it |
| TriggerCodec.ParseChanges | crates/fluent-guest/src/lib.rs:274-302 | the guest's loop over one buffer computes that parse |
| TriggerCodec.CapturedChangesFit | crates/fluent31/src/trigger.rs:323-328 | the inline cap guarantees that no captured change can exceed an invocation's input |
| TriggerCodec.ParseInvertsPackKeys | crates/fluent-guest/src/lib.rs:158-180 | the guest recovers exactly the touched keys the engine packed |
| TriggerCodec.PackTouchedKeys | crates/fluent31/src/trigger.rs:672-699 | the longest prefix of touched keys within the limits is packed |
| TriggerCodec.ParseTriggerKeys | crates/fluent-guest/src/lib.rs:158-180 | the guest's nested loops compute the keys-mode parse |
| TriggerQueue.QueueRangeIsPrefix | crates/fluent31/src/trigger.rs:86-95 | the range iterated for a trigger holds exactly the keys under its prefix |
| TriggerQueue.QueuesApart | crates/fluent31/src/types.rs:214-239 | queues of different triggers share no key |
| TriggerQueue.UserKeysApart | crates/fluent31/src/types.rs:177-187 | no user key lies in a queue |
| TriggerQueue.ChangeKeysInOrder | crates/fluent31/src/types.rs:230-239 | iterating a changes-mode queue is iterating in commit order, one key a seqno |
| TriggerQueue.Capture | crates/fluent31/src/trigger.rs:318-363 | the capture loops list, for a batch committing at a base, the coalesced touches and one change per matching op |
| TriggerQueue.SortedUniqueExact | crates/fluent31/src/trigger.rs:351-352 | keys-mode touches are coalesced into one ascending list of the same keys |
| TriggerQueue.CaptureEnqueues | crates/fluent31/src/trigger.rs:318-363 | a captured commit extends each matching trigger's queue by exactly its matching ops, each under its own commit seqno |
| TriggerFeed.IteratedInOrder | crates/fluent31/src/trigger.rs:704-712 | what the runner's iterator yields is the pending feed, in commit order |
| TriggerFeed.WriteIsGood | crates/fluent31/src/trigger.rs:318-363 | after any commit the queue is the unconsumed suffix of the matching history |
| TriggerFeed.OthersAreGood | crates/fluent31/src/trigger.rs:657-668 | after a drain, a sweep or a relocation it still is |
| TriggerFeed.NextKeeps | crates/fluent31/src/trigger.rs:588-668 | every step of commits, packing, retries, conflicts, drains, sweeps and crashes keeps the invariant, from any point of the runner's work for an earlier trigger of the name on |
| TriggerFeed.ExactlyOnceWhen | crates/fluent31/src/trigger.rs:33-45 | the changes delivered to the trigger's module followed by the pending ones are exactly the matching history, and no other module was handed anything, if and only if a sweep threw away exactly what the queue held at creation and no drain for an earlier trigger committed |
| TriggerFeed.ExactlyOnce | crates/fluent31/src/trigger.rs:33-45 | over every run from an empty queue, with nothing of an earlier trigger in the runner's hands, each change is delivered exactly once, in commit order |
| TriggerFeed.ExactlyOnceExactlyWhen | crates/fluent31/src/trigger.rs:416-668 | every run of a trigger's life is exactly-once if and only if it begins on an empty queue with the runner neither between its lookup of the name and its read of the queue nor holding a chunk packed for an earlier trigger of the name |
| TriggerFeed.EachDrainIsNext | crates/fluent31/src/trigger.rs:657-749 | each committed drain took the next chunk of the feed, wrote the module's effects of exactly that input, and the guest parses that chunk from it |
| TriggerFeed.LeftoversAreDelivered | crates/fluent31/src/trigger.rs:416-480 | a trigger created on a queue that is not empty is exactly-once in no run, unless the runner was at work for an earlier one |
| TriggerFeed.LeftoversRemain | crates/fluent31/src/trigger.rs:482-508 | what a life leaves in its queue is a state in which the next life of the name can begin |
| TriggerFeed.LateSweepLoses | crates/fluent31/src/trigger.rs:562-634 | a sweep decided before the trigger was created reads and deletes the new trigger's pending changes |
| TriggerFeed.ForeignChunkIsDelivered | crates/fluent31/src/wasm/mod.rs:424-467 | a chunk packed for a deleted trigger commits in the life of a new one of the same name, whatever attempt the runner was at |
| TriggerFeed.LatePackMisdelivers | crates/fluent31/src/trigger.rs:621-669 | a runner that looked up a trigger deleted since packs the changes of the new trigger of that name for the old one's module |
| TriggerFeed.PendingHappens | crates/fluent31/src/trigger.rs:318-363 | in any state, one captured write leaves its change pending behind the others |
| TriggerLeftovers.MixedInOrder | crates/fluent31/src/types.rs:214-239 | in a queue of both modes, every change comes before every touched key |
| TriggerLeftovers.TouchesStallTheFeed | crates/fluent31/src/trigger.rs:704-749 | a changes-mode trigger over touched keys delivers only changes, and its drain fails exactly when all pending changes fit one invocation with room in the batch |
| TriggerLeftovers.SeqnosReadAsKeys | crates/fluent31/src/trigger.rs:672-699 | a keys-mode trigger over changes is handed their seqnos, which are no user keys |

## Left out

Weaker than the code, or on values where the code updates in place:

- GarbageCollection.ReleaseKeeps: both deletion gates are read as one atomic step; the code reads them one after the other, and a fork's head cut can fall between the two reads, which its own hold on the file makes harmless.
- Durability.RunWithstandsExactly: a crash and the open after it are one step; crashes within an open, torn WALs and what follows their records are module Recovery's subject.
- GroupCommit.Writer.ApplyGroup: an encoded record over the WAL limit is modelled as an injected fault, since the validation bound makes it unreachable.
- Recovery.EveryRunRecovers: a store reopened after a failed WAL sync is not covered: what reached the disk is unknown then. A torn append is a cut frame, and a power loss cuts the newest WAL at a byte; older bytes coming back under an unsynced overwrite are not modelled.
- JournalWriter.CrashRebuilds: the journal is modelled at the level of records with a torn flag on the last one, not of bytes; record framing is the WAL's, proved in module Wal. The directory entry of a rotated file counts as durable when the file is.
- TriggerFeed.ExactlyOnce: a drain that its own entries do not conflict may still be answered Conflict in the model, since the module's other keys decide that. A run that loses the trigger's own creation ends the life, and a trigger found again at open starts the next.
- TriggerFeed.ExactlyOnceExactlyWhen: the queue a life begins with holds changes only; leftovers of the other mode are in module TriggerLeftovers, and a drain of an earlier life in keys mode delivers no changes and is not modelled.
- Merging.MergeIterator.Next: seeking is modelled by positioning the children before the merge starts.
- Pump.Forwarder.Send: the channel to the consumer and the idle poll are not modelled; a consumer that leaves ends the loop.
- Scheduling.RunToRest: run and file ids come from a counter that may skip; byte sizes and slice lengths are parameters.
- Edge.EdgeStore.Scan: the edge's value cache and paging limits are not modelled.
- Bloom.Build: the hash function is a parameter; the probe count is computed over the reals, not in floating point.
- Lru.Shard.Insert: sharding by hash and the hit counters are not modelled; sizes do not overflow.

Not modelled:

- The trigger definition record, the stream protocol's messages, and `block.rs` with its in-block search.
- Table files, value-log files, the I/O layer and LZ4: a table is a sorted list with a filter, a value-log append returns a fresh location, a sync makes a prefix durable, and the checksum is any function to 32-bit numbers. `table.rs`, `vlog.rs`, `io.rs` and `wasm.rs` are not part of this model.
- Running WASM, guest host calls, GraphQL schemas, HTTP and sockets, the command line.
- Backoff delays, stalls, statistics, tracing, identity and provenance hashes.
- Memory ordering, lock implementation, and the committer's panic guard.
- Keys-mode triggers beyond their capture, their codec and the lost re-touch: a module there reconciles against current state, so there is no feed to deliver.
