/** The whole store as a state machine: commits, memtable freezes, flushes, snapshots, the
 * compaction scheduler with its suspended jobs, value-log GC and crashes, in any interleaving.
 *
 * What a power loss may take is part of the state: the tail of the WAL, and every value the value
 * log was never synced for.  A process crash takes neither, but the reopened store adopts the files
 * it finds without syncing them.
 *
 * Each critical section of the source is one event.  `Inv` holds in every reachable state; the
 * theorems at the end of module Guarantees are read off it.
 */
module Engine {
  import opened Types
  import opened History
  import opened Runs
  import opened Tree
  import opened Rewriting
  import opened Retention
  import opened Views

  // ---------------------------------------------------------------- state

  /** A rewrite in flight: its pinned job, the watermark it read, its output's run id, and how many
      input entries its slices have still to read. */
  datatype Running = Running(job: Job, watermark: SeqNo, outId: nat, left: nat)

  /** `chosen` is work the picker chose and the executor has not started yet. */
  datatype Sched = Sched(active: Option<Running>, suspended: seq<Running>, chosen: Option<Work>, force: bool)

  datatype Record = Record(key: Key, ptr: ValuePtr)

  /** A value-log GC pass: its victim, the records not yet examined, and, once the relocations are
      synced, the seqno from which on no newest version points into the victim. */
  datatype Gc = Gc(victim: nat, todo: set<Record>, clean: Option<SeqNo>)

  datatype Retired = Retired(file: nat, retiredAt: SeqNo, clean: SeqNo)

  /** `ends` are the seqnos at which commits end.  The WAL is on the platter up to `durable`, and up
      to `settled` so are the values of whatever was committed since the last open.  `platter` are the
      values a power loss cannot take.  The last open recovered the first `adopted` ops, whose values
      lie in files below `openHead`. */
  datatype State = State(
    log: Log, ends: set<SeqNo>,
    durable: SeqNo, settled: SeqNo, flushed: SeqNo,
    frozen: seq<SeqNo>, levels: Levels,
    nextId: nat,
    snaps: multiset<SeqNo>, pins: multiset<SeqNo>,
    sched: Sched, disk: map<ValuePtr, seq<nat>>, platter: set<ValuePtr>,
    head: nat, adopted: SeqNo, openHead: nat, gc: Option<Gc>,
    retired: seq<Retired>)

  /** The least of `m` and `cap`, found by looking upwards from `i`. */
  function LeastFrom(m: multiset<SeqNo>, cap: SeqNo, i: SeqNo): (x: SeqNo)
    requires i <= cap
    ensures i <= x <= cap && (x == cap || x in m)
    ensures forall y :: y in m && i <= y ==> x <= y
    decreases cap - i
  {
    if i == cap || i in m then i else LeastFrom(m, cap, i + 1)
  }

  function Least(m: multiset<SeqNo>, cap: SeqNo): (x: SeqNo)
    ensures x <= cap && (x == cap || x in m)
    ensures forall y :: y in m ==> x <= y
  {
    LeastFrom(m, cap, 0)
  }

  /** The GC watermark: the oldest registered snapshot, or visible + 1 when there is none. */
  function Watermark(st: State): SeqNo {
    Least(st.snaps, |st.log| + 1)
  }

  /** The retained bound: every state at or above it is intact.  Unlike the watermark it never
      moves down. */
  function Bound(st: State): SeqNo {
    Least(st.snaps, st.flushed)
  }

  // ---------------------------------------------------------------- pointers

  predicate PointsInto(op: Op, file: nat) {
    op.Put? && op.repr.Pointer? && op.repr.ptr.file == file
  }

  /** Nothing a reader at `from` or later can reach points into `file`. */
  ghost predicate CleanFrom(h: Log, file: nat, from: SeqNo) {
    forall k, s :: from <= s <= |h| && Newest(h, k, s) > 0 ==> !PointsInto(h[Newest(h, k, s) - 1].op, file)
  }

  predicate Resolvable(disk: map<ValuePtr, seq<nat>>, op: Op) {
    op.Put? && op.repr.Pointer? ==> op.repr.ptr in disk
  }

  /** Whatever a reader at `from` or later finds, its value can be fetched. */
  ghost predicate ResolvableFrom(h: Log, disk: map<ValuePtr, seq<nat>>, from: SeqNo) {
    forall k, s :: from <= s <= |h| && Newest(h, k, s) > 0 ==> Resolvable(disk, h[Newest(h, k, s) - 1].op)
  }

  /** The values of the file being appended to. */
  function HeadValues(st: State): set<ValuePtr> {
    set p | p in st.disk && p.file == st.head
  }

  // ---------------------------------------------------------------- replay after a power loss

  predicate Lost(op: Op, kept: set<ValuePtr>) {
    op.Put? && op.repr.Pointer? && op.repr.ptr !in kept
  }

  /** The ops after `lo` up to `hi` all have their values. */
  predicate Whole(h: Log, kept: set<ValuePtr>, lo: SeqNo, hi: SeqNo)
    requires hi <= |h|
  {
    forall i :: lo <= i < hi ==> !Lost(h[i].op, kept)
  }

  /** Where replay ends when the WAL reads up to `wal` and the values `kept` are left: after the last
      commit none of whose predecessors since the flushed seqno, nor itself, misses a value. */
  function Replayed(st: State, kept: set<ValuePtr>, wal: SeqNo): (at: SeqNo)
    requires wal <= |st.log|
    ensures at <= wal && (st.flushed <= wal ==> st.flushed <= at)
    decreases wal
  {
    if wal <= st.flushed || (wal in st.ends && Whole(st.log, kept, st.flushed, wal)) then wal
    else Replayed(st, kept, wal - 1)
  }

  /** Nothing the last open recovered and a reader at `from` or later, up to `to`, can reach is
      missing from `kept`. */
  ghost predicate Reaches(st: State, kept: set<ValuePtr>, from: SeqNo, to: SeqNo)
    requires to <= |st.log|
  {
    forall k, s :: from <= s <= to && 0 < Newest(st.log, k, s) <= st.adopted ==>
      !Lost(st.log[Newest(st.log, k, s) - 1].op, kept)
  }

  /** The records a scan of file `f` finds. */
  function RecordsOf(h: Log, f: nat): set<Record> {
    set i | 0 <= i < |h| && PointsInto(h[i].op, f) :: Record(h[i].key, h[i].op.repr.ptr)
  }

  /** The newest version of the record's key points exactly at it. */
  predicate LiveRecord(h: Log, r: Record) {
    var n := Newest(h, r.key, |h|);
    n > 0 && h[n - 1].op == Put(Pointer(r.ptr))
  }

  /** Relocation writes one op per live record of the batch, at a freshly placed value. */
  function Relocations(h: Log, batch: seq<Record>, placed: seq<Repr>): seq<Write>
    requires |placed| == |batch|
  {
    if batch == [] then []
    else
      var rest := Relocations(h, batch[1..], placed[1..]);
      if LiveRecord(h, batch[0]) then [Write(batch[0].key, Put(placed[0]))] + rest else rest
  }

  function ValueOf(disk: map<ValuePtr, seq<nat>>, r: Repr): Option<seq<nat>> {
    match r
    case Inline(v) => Some(v)
    case Pointer(p) => if p in disk then Some(disk[p]) else None
  }

  /** Ops as the write path hands them on: large values just appended to the head file. */
  predicate Placed(ops: seq<Write>, records: map<ValuePtr, seq<nat>>, head: nat, disk: map<ValuePtr, seq<nat>>) {
    (forall p :: p in records ==> p.file == head && p !in disk) &&
    (forall w :: w in ops && w.op.Put? && w.op.repr.Pointer? ==> w.op.repr.ptr in records)
  }

  // ---------------------------------------------------------------- events

  datatype Event =
    | Commit(ops: seq<Write>, records: map<ValuePtr, seq<nat>>)
    | Freeze
    | FlushOldest(run: Option<Run>)
    | SyncWal
    | RotateHead
    | Register(at: SeqNo)
    | Deregister(at: SeqNo)
    | Pin(at: SeqNo)
    | Unpin(at: SeqNo)
    | Preempt
    | Schedule
    | Open(entries: nat)
    | Slice(entries: nat)
    | InstallOutput(merged: seq<Ver>, output: Option<Run>)
    | DeepenNow
    | GcStart(victim: nat)
    | GcRelocate(batch: seq<Record>, placed: seq<Repr>, records: map<ValuePtr, seq<nat>>)
    | GcSync
    | GcRetire
    | Release(which: nat)
    | ProcessCrash(run: Option<Run>)
    | PowerLoss(wal: SeqNo, kept: set<ValuePtr>, run: Option<Run>)

  /** A flush writes the memtable out as a run of key-disjoint fragments, or nothing when empty. */
  ghost predicate RunOf(run: Option<Run>, h: Log, lo: SeqNo, hi: SeqNo, id: nat)
    requires hi <= |h|
  {
    if run.None? then MemEntries(h, lo, hi) == []
    else WfRun(run.value) && run.value.tables != [] && run.value.id == id && Ents(run.value) == MemEntries(h, lo, hi)
  }

  function Opened(job: Job, st: State, entries: nat): Running {
    Running(job, Watermark(st), st.nextId, entries)
  }

  function OutputId(r: Running): nat {
    if r.job.kind.Tier? then r.outId else r.job.kind.newRunId
  }

  /** What the picker answers in this state, for a scheduler with nothing active. */
  function ScheduleNext(st: State, opts: Options): Sched
    requires WfLevels(st.levels)
  {
    if st.sched.suspended == [] then st.sched.(chosen := Pick(st.levels, opts, st.sched.force, st.nextId))
    else
      var n := |st.sched.suspended| - 1;
      var deep := st.sched.suspended[n];
      var job := PickBefore(st.levels, opts, deep.job.level);
      if job.Some? then st.sched.(chosen := Some(Rewrite(job.value)))
      else st.sched.(active := Some(deep), suspended := st.sched.suspended[..n])
  }

  ghost predicate Enabled(st: State, e: Event, opts: Options)
    requires WfLevels(st.levels) && WfFrozen(st.flushed, st.frozen, |st.log|)
  {
    match e
    case Commit(ops, records) => Placed(ops, records, st.head, st.disk)
    case Freeze => true
    case FlushOldest(run) => st.frozen != [] && RunOf(run, st.log, st.flushed, st.frozen[0], st.nextId)
    case SyncWal => true
    case RotateHead => true
    case Register(s) => Bound(st) <= s <= |st.log|
    case Deregister(s) => s in st.snaps - st.pins
    case Pin(s) => s in st.snaps - st.pins && s <= st.settled
    case Unpin(s) => s in st.pins
    case Preempt =>
      st.sched.active.Some? && st.sched.chosen.None? &&
      PickBefore(st.levels, opts, st.sched.active.value.job.level).Some?
    case Schedule => st.sched.active.None? && st.sched.chosen.None?
    case Open(entries) => st.sched.active.None? && st.sched.chosen.Some? && st.sched.chosen.value.Rewrite?
    case Slice(entries) =>
      st.sched.active.Some? && st.sched.chosen.None? && 1 <= entries <= st.sched.active.value.left
    case InstallOutput(merged, output) =>
      st.sched.active.Some? && st.sched.chosen.None? && st.sched.active.value.left == 0 &&
      var r := st.sched.active.value;
      WfRuns(r.job.older) && OutputOf(r.job, r.watermark, merged, output) &&
      (output.Some? ==> output.value.id == r.outId)
    case DeepenNow => st.sched.active.None? && st.sched.chosen.Some? && st.sched.chosen.value.Deepen?
    case GcStart(victim) =>
      st.gc.None? && victim < st.head && forall r :: r in st.retired ==> r.file != victim
    case GcRelocate(batch, placed, records) =>
      st.gc.Some? && st.gc.value.clean.None? && |placed| == |batch| &&
      Placed(Relocations(st.log, batch, placed), records, st.head, st.disk) &&
      (forall i :: 0 <= i < |batch| && LiveRecord(st.log, batch[i]) && batch[i].ptr in st.disk ==>
        ValueOf(records, placed[i]) == Some(st.disk[batch[i].ptr]))
    case GcSync => st.gc.Some? && st.gc.value.todo == {}
    case GcRetire => st.gc.Some? && st.gc.value.clean.Some?
    case Release(i) =>
      i < |st.retired| && Watermark(st) > st.retired[i].retiredAt && st.flushed >= st.retired[i].retiredAt
    case ProcessCrash(run) => RunOf(run, st.log, st.flushed, |st.log|, st.nextId)
    case PowerLoss(wal, kept, run) =>
      st.durable <= wal <= |st.log| && st.platter <= kept <= st.disk.Keys &&
      RunOf(run, st.log, st.flushed, Replayed(st, kept, wal), st.nextId)
  }

  /** A power loss takes no recovered value that the states it leaves retained can reach. */
  ghost predicate Spares(st: State, e: Event)
    requires e.PowerLoss? ==> e.wal <= |st.log|
  {
    e.PowerLoss? ==>
      var at := Replayed(st, e.kept, e.wal);
      Reaches(st, e.kept, Least(st.pins, at), at)
  }

  function WithRun(levels: Levels, run: Option<Run>): Levels
    requires levels != []
  {
    if run.Some? then Flush(levels, run.value) else levels
  }

  /** The store a crash leaves, reopened: the recovered ops all in the tree, a fresh head file, and
      the pins registered again. */
  function Reopened(st: State, at: SeqNo, run: Option<Run>): State
    requires at <= |st.log| && st.levels != []
  {
    State(st.log[..at], (set e | e in st.ends && e <= at), at, at, at, [], WithRun(st.levels, run), st.nextId + 2,
          st.pins, st.pins, Sched(None, [], None, false), st.disk, st.platter, st.nextId + 1, at, st.nextId + 1,
          None, st.retired)
  }

  function Next(st: State, e: Event, opts: Options): State
    requires WfLevels(st.levels) && WfFrozen(st.flushed, st.frozen, |st.log|) && InvStack(st)
    requires Enabled(st, e, opts)
  {
    match e
    case Commit(ops, records) => 
      st.(log := st.log + ops, ends := st.ends + {|st.log + ops|}, disk := st.disk + records)
    case Freeze => st.(frozen := st.frozen + [|st.log|], durable := |st.log|, nextId := st.nextId + 1)
    case FlushOldest(run) =>
      st.(levels := WithRun(st.levels, run), flushed := st.frozen[0], frozen := st.frozen[1..],
          nextId := st.nextId + 1, settled := Max(st.settled, st.frozen[0]),
          platter := st.platter + if run.Some? then HeadValues(st) else {})
    case SyncWal => st.(durable := |st.log|, settled := |st.log|, platter := st.platter + HeadValues(st))
    case RotateHead => st.(head := st.nextId, nextId := st.nextId + 1, platter := st.platter + HeadValues(st))
    case Register(s) => st.(snaps := st.snaps + multiset{s})
    case Deregister(s) => st.(snaps := st.snaps - multiset{s})
    case Pin(s) => st.(pins := st.pins + multiset{s})
    case Unpin(s) => st.(pins := st.pins - multiset{s}, snaps := st.snaps - multiset{s})
    case Preempt =>
      var deep := st.sched.active.value;
      st.(sched := Sched(None, st.sched.suspended + [deep],
                         Some(Rewrite(PickBefore(st.levels, opts, deep.job.level).value)), st.sched.force))
    case Schedule => st.(sched := ScheduleNext(st, opts), nextId := st.nextId + 1)
    case Open(entries) =>
      st.(sched := st.sched.(active := Some(Opened(st.sched.chosen.value.job, st, entries)), chosen := None),
          nextId := st.nextId + 1)
    case Slice(n) =>
      var r := st.sched.active.value;
      st.(sched := st.sched.(active := Some(r.(left := r.left - n))))
    case InstallOutput(merged, output) =>
      assert Stack(st.sched)[|st.sched.suspended|] == st.sched.active.value;
      st.(levels := Install(st.levels, st.sched.active.value.job, output), sched := st.sched.(active := None))
    case DeepenNow =>
      var w := st.sched.chosen.value;
      st.(levels := InstallDeepen(st.levels, w.level, w.runs), sched := st.sched.(chosen := None))
    case GcStart(victim) => st.(gc := Some(Gc(victim, RecordsOf(st.log, victim), None)))
    case GcRelocate(batch, placed, records) =>
      var log' := st.log + Relocations(st.log, batch, placed);
      st.(log := log', ends := st.ends + {|log'|}, disk := st.disk + records,
          gc := Some(st.gc.value.(todo := st.gc.value.todo - set r | r in batch)))
    case GcSync =>
      st.(durable := |st.log|, settled := |st.log|, platter := st.platter + HeadValues(st),
          gc := Some(st.gc.value.(clean := Some(|st.log|))))
    case GcRetire =>
      var g := st.gc.value;
      st.(gc := None, retired := st.retired + [Retired(g.victim, |st.log|, g.clean.value)])
    case Release(i) =>
      var f := st.retired[i].file;
      st.(retired := st.retired[..i] + st.retired[i + 1..],
          disk := map p | p in st.disk && p.file != f :: st.disk[p],
          platter := set p | p in st.platter && p.file != f)
    case ProcessCrash(run) => Reopened(st, |st.log|, run)
    case PowerLoss(wal, kept, run) =>
      Reopened(st, Replayed(st, kept, wal), run).(disk := map p | p in st.disk && p in kept :: st.disk[p],
                                                  platter := kept)
  }

  // ---------------------------------------------------------------- invariant

  predicate SnapsOk(visible: SeqNo, settled: SeqNo, snaps: multiset<SeqNo>, pins: multiset<SeqNo>) {
    (forall s :: s in snaps ==> s <= visible) && (forall s :: s in pins ==> s <= settled) && pins <= snaps
  }

  ghost predicate InvBounds(st: State) {
    WfFrozen(st.flushed, st.frozen, |st.log|) && FrozenEnd(st.flushed, st.frozen) <= st.durable <= |st.log| &&
    st.adopted <= st.flushed <= st.settled <= st.durable && SnapsOk(|st.log|, st.settled, st.snaps, st.pins)
  }

  /** Commits end where memtables, syncs and the log end. */
  predicate InvEnds(st: State) {
    (forall e :: e in st.ends ==> e <= |st.log|) && (forall b :: b in st.frozen ==> b in st.ends) &&
    st.settled in st.ends && |st.log| in st.ends
  }

  /** The value of an op committed since the last open: in one of the files written since, and still
      there unless its file was collected; on the platter if the op is settled. */
  predicate InPlaceSince(st: State, op: Op, settled: bool) {
    op.Put? && op.repr.Pointer? ==>
      var p := op.repr.ptr;
      st.openHead <= p.file && (p in st.disk || p.file < st.head) && (p in st.disk && settled ==> p in st.platter)
  }

  /** Since the last open values were placed in the files from `openHead` to the head, and those of
      all but the head were synced when it was rotated away. */
  ghost predicate InvPlatter(st: State) {
    st.platter <= st.disk.Keys && st.openHead <= st.head &&
    (forall p :: p in st.disk ==> p.file <= st.head) &&
    (forall p :: p in st.disk && st.openHead <= p.file < st.head ==> p in st.platter) &&
    (forall n :: st.adopted <= n < |st.log| ==> InPlaceSince(st, st.log[n].op, n < st.settled))
  }

  /** The tree is well formed, its ids are below the counter, and it retains what it must. */
  ghost predicate InvTree(st: State) {
    WfLevels(st.levels) && (forall r :: r in AllRuns(st.levels) ==> r.id < st.nextId) &&
    Retains(AllRuns(st.levels), st.log, st.flushed, Bound(st))
  }

  /** A job still has its inputs and `older` set in place, over well-formed runs. */
  ghost predicate JobOk(levels: Levels, job: Job) {
    InPlace(levels, job) && WfRuns(job.inputs) && NewestFirst(job.inputs) && WfRuns(job.older)
  }

  ghost predicate FreshId(st: State, id: nat) {
    id < st.nextId && !HasId(AllRuns(st.levels), id)
  }

  ghost predicate RunningOk(st: State, r: Running) {
    JobOk(st.levels, r.job) && WatermarkSafe(r.job, r.watermark, Bound(st)) && FreshId(st, OutputId(r))
  }

  /** Everything in flight, innermost first. */
  function Stack(s: Sched): seq<Running> {
    if s.active.Some? then s.suspended + [s.active.value] else s.suspended
  }

  ghost predicate ChosenOk(st: State, work: Work) {
    match work
    case Rewrite(job) =>
      JobOk(st.levels, job) && (job.kind.BottomSplice? ==> FreshId(st, job.kind.newRunId)) &&
      (forall r :: r in st.sched.suspended ==> job.level < r.job.level && job.kind.Tier?)
    case Deepen(level, runs) =>
      st.sched.suspended == [] && level == |st.levels| - 1 < MAX_DYNAMIC_LEVELS - 1 &&
      EndsWith(st.levels[level], runs)
  }

  /** Suspended jobs sit strictly deeper the earlier they were suspended, each intact and with an
      output id of its own. */
  ghost predicate InvStack(st: State) {
    var stack := Stack(st.sched);
    (st.sched.active.Some? ==> st.sched.chosen.None?) &&
    (forall i :: 0 <= i < |stack| ==> RunningOk(st, stack[i])) &&
    (forall i, j :: 0 <= i < j < |stack| ==>
      stack[j].job.level < stack[i].job.level && OutputId(stack[j]) != OutputId(stack[i])) &&
    (st.sched.chosen.Some? ==> ChosenOk(st, st.sched.chosen.value))
  }

  /** If the newest version of `k` points into the victim, its record is still to be examined. */
  predicate KeyCovered(h: Log, victim: nat, todo: set<Record>, k: Key) {
    var n := Newest(h, k, |h|);
    n > 0 && PointsInto(h[n - 1].op, victim) ==> Record(k, h[n - 1].op.repr.ptr) in todo
  }

  ghost predicate GcOk(st: State, g: Gc) {
    g.victim < st.head && (forall k :: KeyCovered(st.log, g.victim, g.todo, k)) &&
    (g.clean.Some? ==> g.clean.value <= st.settled && CleanFrom(st.log, g.victim, g.clean.value))
  }

  ghost predicate InvValues(st: State) {
    ResolvableFrom(st.log, st.disk, Bound(st)) && st.head < st.nextId &&
    (st.gc.Some? ==> GcOk(st, st.gc.value)) &&
    (forall r :: r in st.retired ==>
      r.file < st.head && r.clean <= st.settled && r.clean <= r.retiredAt && CleanFrom(st.log, r.file, r.clean))
  }

  ghost predicate Inv(st: State) {
    InvBounds(st) && InvEnds(st) && InvTree(st) && InvStack(st) && InvValues(st) && InvPlatter(st)
  }

  ghost predicate Init(st: State, maxLevels: nat) {
    maxLevels >= 1 &&
    st == State([], {0}, 0, 0, 0, [], seq(maxLevels, _ => []), 1, multiset{}, multiset{},
                Sched(None, [], None, false), map[], {}, 0, 0, 0, None, [])
  }
}
