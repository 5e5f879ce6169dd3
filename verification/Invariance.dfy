/** Every event of the store keeps the invariant, and the retained bound never moves down. */
module Invariance {
  import opened Sequences
  import opened Types
  import opened History
  import opened Runs
  import opened Tree
  import opened Rewriting
  import opened Retention
  import opened Views
  import opened Engine

  // ---------------------------------------------------------------- frames

  ghost predicate Ready(st: State, e: Event, opts: Options) {
    Inv(st) && Enabled(st, e, opts) && Spares(st, e)
  }

  /** The retained bound is monotone, even across crashes. */
  lemma BoundMonotone(st: State, e: Event, opts: Options)
    requires Inv(st) && Enabled(st, e, opts)
    ensures Bound(st) <= Bound(Next(st, e, opts))
  {
  }

  lemma StackFrame(st: State, st': State)
    requires InvStack(st) && st'.levels == st.levels && st'.sched == st.sched
    requires st.nextId <= st'.nextId && Bound(st) <= Bound(st')
    ensures InvStack(st')
  {
    var stack := Stack(st.sched);
    forall i | 0 <= i < |stack| ensures RunningOk(st', stack[i]) {
      assert RunningOk(st, stack[i]);
    }
  }

  lemma TreeFrame(st: State, st': State)
    requires InvTree(st) && st'.levels == st.levels && st.nextId <= st'.nextId
    requires st'.flushed == st.flushed && st.flushed <= |st'.log| && st.log[..st.flushed] == st'.log[..st.flushed]
    requires Bound(st) <= Bound(st')
    ensures InvTree(st')
  {
    GrowHistory(AllRuns(st.levels), st.log, st'.log, st.flushed, Bound(st));
    RaiseBound(AllRuns(st.levels), st'.log, st.flushed, Bound(st), Bound(st'));
  }

  /** Values: same log and disk, later bounds. */
  lemma ValuesFrame(st: State, st': State)
    requires InvValues(st) && st'.log == st.log && st'.disk == st.disk
    requires st'.gc == st.gc && st'.retired == st.retired
    requires st.head <= st'.head < st'.nextId && st.settled <= st'.settled && Bound(st) <= Bound(st')
    ensures InvValues(st')
  {
  }

  /** Syncing the head settles everything committed since the open, up to any point. */
  lemma PlatterSynced(st: State, st': State)
    requires InvPlatter(st) && st'.log == st.log && st'.disk == st.disk && st.head <= st'.head
    requires st'.adopted == st.adopted && st'.openHead == st.openHead && st'.platter == st.platter + HeadValues(st)
    ensures InvPlatter(st')
  {
    forall n | st.adopted <= n < |st.log| ensures InPlaceSince(st', st.log[n].op, n < st'.settled) {
      assert InPlaceSince(st, st.log[n].op, n < st.settled);
    }
  }

  lemma PlatterExtended(st: State, st': State, ops: seq<Write>, records: map<ValuePtr, seq<nat>>)
    requires InvPlatter(st) && Placed(ops, records, st.head, st.disk) && st.settled == st'.settled <= |st.log|
    requires st'.log == st.log + ops && st'.disk == st.disk + records && st'.head == st.head
    requires st'.adopted == st.adopted && st'.openHead == st.openHead && st'.platter == st.platter
    ensures InvPlatter(st')
  {
    forall n | st.adopted <= n < |st'.log| ensures InPlaceSince(st', st'.log[n].op, n < st'.settled) {
      if n < |st.log| {
        assert InPlaceSince(st, st.log[n].op, n < st.settled) && st'.log[n] == st.log[n];
      } else {
        assert st'.log[n] in ops;
      }
    }
  }

  // ---------------------------------------------------------------- commits

  lemma NewestOfExtended(h: Log, ops: seq<Write>, k: Key, s: SeqNo)
    requires s <= |h + ops|
    ensures s <= |h| ==> Newest(h + ops, k, s) == Newest(h, k, s)
    ensures s > |h| && Newest(h + ops, k, s) <= |h| ==> Newest(h + ops, k, s) == Newest(h, k, |h|)
    ensures Newest(h + ops, k, s) > |h| ==> (h + ops)[Newest(h + ops, k, s) - 1] in ops
  {
    var all := h + ops;
    var n := Newest(all, k, s);
    if s <= |h| {
      assert all[..s] == h[..s];
      NewestPrefix(h, all, k, s);
    } else if n <= |h| {
      forall m | n < m <= |h| ensures !WroteKey(h, k, m) {
        assert !WroteKey(all, k, m);
        assert all[m - 1] == h[m - 1];
      }
      if n > 0 { assert all[n - 1] == h[n - 1] && WroteKey(h, k, n); }
      NewestIs(h, k, |h|, n);
    } else {
      assert all[n - 1] == ops[n - 1 - |h|];
    }
  }

  lemma ExtendClean(h: Log, ops: seq<Write>, file: nat, from: SeqNo)
    requires CleanFrom(h, file, from) && from <= |h|
    requires forall w :: w in ops ==> !PointsInto(w.op, file)
    ensures CleanFrom(h + ops, file, from)
  {
    forall k, s | from <= s <= |h + ops| && Newest(h + ops, k, s) > 0
      ensures !PointsInto((h + ops)[Newest(h + ops, k, s) - 1].op, file)
    {
      NewestOfExtended(h, ops, k, s);
    }
  }

  lemma ExtendResolvable(h: Log, ops: seq<Write>, disk: map<ValuePtr, seq<nat>>, records: map<ValuePtr, seq<nat>>,
                         from: SeqNo)
    requires ResolvableFrom(h, disk, from) && from <= |h|
    requires forall w :: w in ops ==> Resolvable(records, w.op)
    ensures ResolvableFrom(h + ops, disk + records, from)
  {
    forall k, s | from <= s <= |h + ops| && Newest(h + ops, k, s) > 0
      ensures Resolvable(disk + records, (h + ops)[Newest(h + ops, k, s) - 1].op)
    {
      NewestOfExtended(h, ops, k, s);
    }
  }

  /** Extending the log with freshly placed ops. */
  lemma ExtendValues(st: State, ops: seq<Write>, records: map<ValuePtr, seq<nat>>)
    requires Inv(st) && Placed(ops, records, st.head, st.disk)
    ensures ResolvableFrom(st.log + ops, st.disk + records, Bound(st))
    ensures st.gc.Some? && st.gc.value.clean.Some? ==>
      CleanFrom(st.log + ops, st.gc.value.victim, st.gc.value.clean.value)
    ensures forall r :: r in st.retired ==> CleanFrom(st.log + ops, r.file, r.clean)
  {
    ExtendResolvable(st.log, ops, st.disk, records, Bound(st));
    if st.gc.Some? && st.gc.value.clean.Some? {
      ExtendClean(st.log, ops, st.gc.value.victim, st.gc.value.clean.value);
    }
    forall r | r in st.retired ensures CleanFrom(st.log + ops, r.file, r.clean) {
      ExtendClean(st.log, ops, r.file, r.clean);
    }
  }

  lemma CommitKeeps(st: State, e: Event, opts: Options)
    requires Ready(st, e, opts) && e.Commit?
    ensures Inv(Next(st, e, opts))
  {
    var st' := Next(st, e, opts);
    StackFrame(st, st');
    assert st.log[..st.flushed] == st'.log[..st.flushed];
    TreeFrame(st, st');
    ExtendValues(st, e.ops, e.records);
    PlatterExtended(st, st', e.ops, e.records);
    if st.gc.Some? {
      forall k ensures KeyCovered(st'.log, st.gc.value.victim, st.gc.value.todo, k) {
        assert KeyCovered(st.log, st.gc.value.victim, st.gc.value.todo, k);
        ExtendCovered(st.log, e.ops, st.gc.value.victim, st.gc.value.todo, k);
      }
    }
  }

  lemma ExtendCovered(h: Log, ops: seq<Write>, victim: nat, todo: set<Record>, k: Key)
    requires KeyCovered(h, victim, todo, k) && forall w :: w in ops ==> !PointsInto(w.op, victim)
    ensures KeyCovered(h + ops, victim, todo, k)
  {
    NewestOfExtended(h, ops, k, |h + ops|);
    if |ops| == 0 { assert h + ops == h; }
  }

  // ---------------------------------------------------------------- freezes, syncs, snapshots

  predicate Quiet(e: Event) {
    e.Freeze? || e.SyncWal? || e.RotateHead? || e.Register? || e.Deregister? || e.Pin? || e.Unpin?
  }

  /** The snapshot bookkeeping of an event that only registers, releases or pins. */
  lemma SnapBounds(visible: SeqNo, settled: SeqNo, snaps: multiset<SeqNo>, pins: multiset<SeqNo>, s: SeqNo)
    requires SnapsOk(visible, settled, snaps, pins)
    ensures s <= visible ==> SnapsOk(visible, settled, snaps + multiset{s}, pins)
    ensures s in snaps - pins ==> SnapsOk(visible, settled, snaps - multiset{s}, pins)
    ensures s in snaps - pins && s <= settled ==> SnapsOk(visible, settled, snaps, pins + multiset{s})
    ensures s in pins ==> SnapsOk(visible, settled, snaps - multiset{s}, pins - multiset{s})
  {
  }

  lemma FreezeWf(flushed: SeqNo, frozen: seq<SeqNo>, visible: SeqNo)
    requires WfFrozen(flushed, frozen, visible)
    ensures WfFrozen(flushed, frozen + [visible], visible)
    ensures FrozenEnd(flushed, frozen + [visible]) == visible
  {
  }

  lemma QuietBounds(st: State, e: Event, opts: Options)
    requires Ready(st, e, opts) && Quiet(e)
    ensures InvBounds(Next(st, e, opts)) && InvEnds(Next(st, e, opts))
  {
    if e.Register? || e.Deregister? || e.Pin? || e.Unpin? {
      SnapBounds(|st.log|, st.settled, st.snaps, st.pins, e.at);
    } else if e.Freeze? {
      FreezeWf(st.flushed, st.frozen, |st.log|);
    }
  }

  lemma QuietFrame(st: State, e: Event, opts: Options)
    requires Ready(st, e, opts) && Quiet(e)
    ensures var st' := Next(st, e, opts);
      st'.levels == st.levels && st'.sched == st.sched && st'.log == st.log && st'.disk == st.disk &&
      st'.flushed == st.flushed && st'.gc == st.gc && st'.retired == st.retired && st.nextId <= st'.nextId &&
      st.head <= st'.head < st'.nextId && st.settled <= st'.settled
  {
  }

  lemma QuietPlatter(st: State, e: Event, opts: Options)
    requires Ready(st, e, opts) && Quiet(e)
    ensures InvPlatter(Next(st, e, opts))
  {
    hide InvStack, Retains, ResolvableFrom, CleanFrom, GcOk;
    if e.SyncWal? || e.RotateHead? { PlatterSynced(st, Next(st, e, opts)); }
  }

  lemma QuietKeeps(st: State, e: Event, opts: Options)
    requires Ready(st, e, opts) && Quiet(e)
    ensures Inv(Next(st, e, opts))
  {
    var st' := Next(st, e, opts);
    BoundMonotone(st, e, opts);
    QuietFrame(st, e, opts);
    QuietBounds(st, e, opts);
    QuietPlatter(st, e, opts);
    StackFrame(st, st');
    TreeFrame(st, st');
    ValuesFrame(st, st');
  }

  // ---------------------------------------------------------------- flush

  lemma FlushRetains(rs: seq<Run>, run: Option<Run>, h: Log, flushed: SeqNo, hi: SeqNo, bound: SeqNo, id: nat)
    requires Retains(rs, h, flushed, bound) && flushed <= hi <= |h| && RunOf(run, h, flushed, hi, id)
    ensures Retains((if run.Some? then [run.value] else []) + rs, h, hi, bound)
  {
    var front := if run.Some? then [run.value] else [];
    MemEntriesExact(h, flushed, hi);
    forall v ensures InRuns(front + rs, v) <==> InRuns(rs, v) || (Wrote(h, v) && flushed < v.at <= hi) {
      assert front + rs == front + rs + [];
      InRuns3(front, rs, [], v);
      if run.Some? { InRunsOne(run.value, v); }
      assert v in MemEntries(h, flushed, hi) <==> Wrote(h, v) && flushed < v.at <= hi;
    }
    forall n | bound < n <= hi ensures InRuns(front + rs, VerAt(h, n)) {
      if n <= flushed { assert InRuns(rs, VerAt(h, n)); }
    }
    forall k ensures KeyKept(front + rs, h, k, bound) {
      assert KeyKept(rs, h, k, bound);
    }
  }

  lemma PrependWf(run: Run, rs: seq<Run>)
    requires WfTree(rs) && WfRun(run) && run.tables != [] && !HasId(rs, run.id)
    requires forall r :: r in rs ==> Newer(run, r)
    ensures WfTree([run] + rs)
  {
    var all := [run] + rs;
    forall i, j | 0 <= i < j < |all| ensures Newer(all[i], all[j]) && all[i].id != all[j].id {
      assert all[j] == rs[j - 1] && rs[j - 1] in rs;
      if i > 0 { assert all[i] == rs[i - 1]; }
    }
    forall i | 0 <= i < |all| ensures WfRun(all[i]) && all[i].tables != [] {
      if i > 0 { assert all[i] == rs[i - 1] && rs[i - 1] in rs; }
    }
  }

  /** The flushed run is newer than the whole tree, for the tree ends at the flushed seqno. */
  lemma FlushedIsNewer(run: Run, r: Run, rs: seq<Run>, h: Log, flushed: SeqNo, hi: SeqNo)
    requires hi <= |h| && Ents(run) == MemEntries(h, flushed, hi) && r in rs
    requires forall v :: InRuns(rs, v) ==> v.at <= flushed
    ensures Newer(run, r)
  {
    MemEntriesExact(h, flushed, hi);
    var i :| 0 <= i < |rs| && rs[i] == r;
    forall w | w in Ents(r) ensures w.at <= flushed { assert w in Ents(rs[i]); }
  }

  lemma FlushWf(levels: Levels, run: Option<Run>, h: Log, flushed: SeqNo, hi: SeqNo, bound: SeqNo, id: nat)
    requires WfLevels(levels) && (forall r :: r in AllRuns(levels) ==> r.id < id)
    requires Retains(AllRuns(levels), h, flushed, bound) && flushed <= hi <= |h| && RunOf(run, h, flushed, hi, id)
    ensures WfLevels(WithRun(levels, run))
    ensures AllRuns(WithRun(levels, run)) == (if run.Some? then [run.value] else []) + AllRuns(levels)
  {
    var rs := AllRuns(levels);
    if run.Some? {
      FlushPrepends(levels, run.value);
      forall r | r in rs ensures Newer(run.value, r) {
        FlushedIsNewer(run.value, r, rs, h, flushed, hi);
      }
      PrependWf(run.value, rs);
    } else {
      assert [] + rs == rs;
    }
  }

  lemma FlushStack(st: State, run: Run, st': State)
    requires Inv(st) && run.id == st.nextId && st'.levels == Flush(st.levels, run) && st'.sched == st.sched
    requires st'.nextId == st.nextId + 1 && Bound(st) <= Bound(st')
    ensures InvStack(st')
  {
    FlushPrepends(st.levels, run);
    var stack := Stack(st.sched);
    forall i | 0 <= i < |stack| ensures RunningOk(st', stack[i]) {
      assert RunningOk(st, stack[i]);
      FlushKeepsInPlace(st.levels, run, stack[i].job);
    }
    if st.sched.chosen.Some? {
      match st.sched.chosen.value
      case Rewrite(job) => FlushKeepsInPlace(st.levels, run, job);
      case Deepen(level, runs) => if level == 0 { EndsWithLonger([run], st.levels[0], runs); }
    }
  }

  lemma NotEmpty(h: Log, lo: SeqNo, hi: SeqNo)
    requires hi <= |h|
    ensures lo < hi ==> MemEntries(h, lo, hi) != []
  {
  }

  /** A flush of a memtable that is not empty syncs the head. */
  lemma FlushPlatter(st: State, e: Event, opts: Options)
    requires Ready(st, e, opts) && e.FlushOldest?
    ensures InvPlatter(Next(st, e, opts)) && InvEnds(Next(st, e, opts))
  {
    if e.run.Some? {
      PlatterSynced(st, Next(st, e, opts));
    } else {
      NotEmpty(st.log, st.flushed, st.frozen[0]);
    }
  }

  /** What a flush changes. */
  lemma FlushFrame(st: State, e: Event, opts: Options)
    requires Ready(st, e, opts) && e.FlushOldest?
    ensures var st' := Next(st, e, opts);
      st' == st.(levels := WithRun(st.levels, e.run), flushed := st.frozen[0], frozen := st.frozen[1..],
                 nextId := st.nextId + 1, settled := st'.settled, platter := st'.platter) &&
      st.settled <= st'.settled && Bound(st) <= Bound(st') <= st'.flushed && InvBounds(st')
  {
    BoundMonotone(st, e, opts);
  }

  lemma FlushKeeps(st: State, e: Event, opts: Options)
    requires Ready(st, e, opts) && e.FlushOldest?
    ensures Inv(Next(st, e, opts))
  {
    hide ResolvableFrom, CleanFrom, GcOk, AllRuns, Flush, InvPlatter, InvEnds, Next, Bound;
    FlushPlatter(st, e, opts);
    FlushFrame(st, e, opts);
    var st' := Next(st, e, opts);
    FlushWf(st.levels, e.run, st.log, st.flushed, st.frozen[0], Bound(st), st.nextId);
    FlushRetains(AllRuns(st.levels), e.run, st.log, st.flushed, st.frozen[0], Bound(st), st.nextId);
    RaiseBound(AllRuns(st'.levels), st.log, st'.flushed, Bound(st), Bound(st'));
    if e.run.Some? { FlushStack(st, e.run.value, st'); } else { StackFrame(st, st'); }
    ValuesFrame(st, st');
  }

  // ---------------------------------------------------------------- the scheduler

  lemma TreeTail(levels: Levels, l: nat)
    requires WfLevels(levels) && l < |levels|
    ensures WfRuns(AllRuns(levels[l + 1..])) && WfTree(levels[l])
  {
    LevelRuns(levels, l);
    AllRunsSplit(levels, l);
    var a, b := AllRuns(levels[..l]) + levels[l], AllRuns(levels[l + 1..]);
    assert a + b == a + b + [];
    SubTree(a, b, []);
  }

  lemma PickTierOk(levels: Levels, l: nat)
    requires WfLevels(levels) && l + 1 < |levels|
    ensures JobOk(levels, PickTier(levels, l))
  {
    TreeTail(levels, l);
    assert levels[l][0..] == levels[l];
  }

  lemma PickSpliceOk(levels: Levels, newRunId: nat)
    requires WfLevels(levels) && |levels[|levels| - 1]| >= 2
    ensures WfTree(levels[|levels| - 1]) && JobOk(levels, PickSplice(levels, newRunId))
  {
    PickSpliceInPlace(levels, newRunId);
    var job := PickSplice(levels, newRunId);
    var level := levels[|levels| - 1];
    var n := |level|;
    assert Newer(level[n - 2], level[n - 1]);
    forall v | v in Ents(job.inputs[1]) ensures v in Ents(level[n - 1]) {
      InRunsPair(job.inputs, v);
      InRunsPair(Consumed(job), v);
      InputsAreConsumed(job, v);
      ConsumedIsPair(levels, job, v);
    }
  }

  lemma ConsumedIsPair(levels: Levels, job: Job, v: Ver)
    requires InPlace(levels, job) && job.kind.BottomSplice? && v in Ents(job.inputs[1])
    ensures var level := levels[|levels| - 1]; |level| >= 2 && v in Ents(level[|level| - 1])
  {
    var level := levels[|levels| - 1];
    assert level[|level| - 2..][1] == level[|level| - 1];
    Flat3(job.kind.keepLeft, job.inputs[1].tables, job.kind.keepRight, v);
  }

  lemma FreshNext(st: State, st': State)
    requires InvTree(st) && st'.levels == st.levels && st'.nextId > st.nextId
    ensures FreshId(st', st.nextId)
  {
  }

  /** Work picked above a level is fine while everything suspended sits at or below that level. */
  lemma PickBeforeOk(st: State, st': State, opts: Options, before: nat)
    requires InvTree(st) && PickBefore(st.levels, opts, before).Some? && st'.levels == st.levels
    requires forall r :: r in st'.sched.suspended ==> before <= r.job.level
    ensures ChosenOk(st', Rewrite(PickBefore(st.levels, opts, before).value))
  {
    PickTierOk(st.levels, PickBefore(st.levels, opts, before).value.level);
  }

  /** The innermost job in flight is the highest. */
  lemma InnermostIsHighest(st: State, top: Running)
    requires InvStack(st) && Stack(st.sched) != [] && Stack(st.sched)[|Stack(st.sched)| - 1] == top
    ensures forall r :: r in Stack(st.sched) ==> top.job.level <= r.job.level
  {
    var stack := Stack(st.sched);
    forall r | r in stack ensures top.job.level <= r.job.level {
      var i :| 0 <= i < |stack| && stack[i] == r;
    }
  }

  lemma SuspendKeeps(st: State, e: Event, opts: Options)
    requires Ready(st, e, opts) && e.Preempt?
    ensures InvStack(Next(st, e, opts))
  {
    var st' := Next(st, e, opts);
    var deep := st.sched.active.value;
    assert Stack(st'.sched) == Stack(st.sched) == st'.sched.suspended;
    InnermostIsHighest(st, deep);
    PickBeforeOk(st, st', opts, deep.job.level);
    StackKept(st, st');
  }

  /** The picker's own choice, with nothing suspended. */
  lemma PickOk(st: State, st': State, opts: Options)
    requires InvTree(st) && st.sched.active.None? && st.sched.suspended == []
    requires st'.levels == st.levels && st'.nextId == st.nextId + 1 && st'.sched == ScheduleNext(st, opts)
    ensures st'.sched.chosen.Some? ==> ChosenOk(st', st'.sched.chosen.value)
  {
    var last := |st.levels| - 1;
    var l := FirstEligible(st.levels, opts, st.sched.force, 0, last);
    FreshNext(st, st');
    if l.Some? {
      PickTierOk(st.levels, l.value);
    } else {
      assert st.levels[last][0..] == st.levels[last];
      if st'.sched.chosen.Some? && st'.sched.chosen.value.Rewrite? { PickSpliceOk(st.levels, st.nextId); }
    }
  }

  lemma StackKept(st: State, st': State)
    requires InvStack(st) && st'.levels == st.levels && st.nextId <= st'.nextId && Bound(st) == Bound(st')
    requires Stack(st'.sched) == Stack(st.sched)
    requires st'.sched.chosen.Some? ==> st'.sched.active.None? && ChosenOk(st', st'.sched.chosen.value)
    ensures InvStack(st')
  {
    var stack := Stack(st.sched);
    forall i | 0 <= i < |stack| ensures RunningOk(st', stack[i]) { assert RunningOk(st, stack[i]); }
  }

  lemma ScheduleKeeps(st: State, e: Event, opts: Options)
    requires Ready(st, e, opts) && e.Schedule?
    ensures InvStack(Next(st, e, opts))
  {
    var st' := Next(st, e, opts);
    if st.sched.suspended == [] {
      PickOk(st, st', opts);
    } else {
      var deep := st.sched.suspended[|st.sched.suspended| - 1];
      if PickBefore(st.levels, opts, deep.job.level).Some? {
        InnermostIsHighest(st, deep);
        PickBeforeOk(st, st', opts, deep.job.level);
      }
      assert Stack(st'.sched) == Stack(st.sched);
    }
    StackKept(st, st');
  }

  /** The watermark is read after the inputs were pinned, which makes it safe. */
  lemma OpenIsSafe(st: State, job: Job)
    requires Inv(st) && JobOk(st.levels, job)
    ensures WatermarkSafe(job, Watermark(st), Bound(st))
  {
    var a := InstallReplaces(st.levels, job, None);
    forall v | InRuns(job.inputs, v) && v.at <= Watermark(st) ensures v.at <= Bound(st) {
      InputsAreConsumed(job, v);
      InRuns3(a, Consumed(job), job.older, v);
    }
  }

  /** Pushing an intact job above everything in flight. */
  lemma PushKeeps(st: State, st': State, r: Running)
    requires InvStack(st) && st'.levels == st.levels && st.nextId <= st'.nextId && Bound(st) == Bound(st')
    requires st'.sched.chosen.None? && Stack(st'.sched) == Stack(st.sched) + [r]
    requires RunningOk(st', r)
    requires forall x :: x in Stack(st.sched) ==> r.job.level < x.job.level && OutputId(r) != OutputId(x)
    ensures InvStack(st')
  {
    var stack := Stack(st.sched);
    forall i | 0 <= i < |stack| ensures RunningOk(st', stack[i]) {
      assert RunningOk(st, stack[i]);
    }
    forall i | 0 <= i < |stack| ensures stack[i] in stack {}
  }

  lemma OpenKeeps(st: State, e: Event, opts: Options)
    requires Ready(st, e, opts) && e.Open?
    ensures InvStack(Next(st, e, opts))
  {
    var st' := Next(st, e, opts);
    var job := st.sched.chosen.value.job;
    var r := Opened(job, st, e.entries);
    OpenIsSafe(st, job);
    FreshNext(st, st');
    var stack := Stack(st.sched);
    forall x | x in stack ensures job.level < x.job.level && OutputId(r) != OutputId(x) {
      var i :| 0 <= i < |stack| && stack[i] == x;
      assert RunningOk(st, stack[i]);
    }
    PushKeeps(st, st', r);
  }

  lemma SliceKeeps(st: State, e: Event, opts: Options)
    requires Ready(st, e, opts) && e.Slice?
    ensures InvStack(Next(st, e, opts))
  {
    var st' := Next(st, e, opts);
    var stack, stack' := Stack(st.sched), Stack(st'.sched);
    var n := |st.sched.suspended|;
    assert |stack'| == |stack| == n + 1;
    forall i | 0 <= i <= n
      ensures RunningOk(st', stack'[i]) && stack'[i].job == stack[i].job && OutputId(stack'[i]) == OutputId(stack[i])
    {
      assert RunningOk(st, stack[i]);
      if i < n { assert stack'[i] == stack[i]; }
    }
  }

  lemma ProducedIds(r: Running, output: Option<Run>)
    requires output.Some? ==> output.value.id == r.outId
    ensures forall x :: x in Produced(r.job, output) ==> x.id == OutputId(r)
  {
  }

  lemma InstallTreeKeeps(st: State, r: Running, merged: seq<Ver>, output: Option<Run>)
    requires InvTree(st) && RunningOk(st, r) && OutputOf(r.job, r.watermark, merged, output)
    requires output.Some? ==> output.value.id == r.outId
    ensures WfLevels(Install(st.levels, r.job, output))
    ensures Retains(AllRuns(Install(st.levels, r.job, output)), st.log, st.flushed, Bound(st))
    ensures forall x :: x in AllRuns(Install(st.levels, r.job, output)) ==>
      x in AllRuns(st.levels) || x.id == OutputId(r)
  {
    ProducedIds(r, output);
    var a := InstallReplaces(st.levels, r.job, output);
    InstallRetains(st.levels, r.job, r.watermark, merged, output, st.log, st.flushed, Bound(st));
  }

  lemma InstallStackKeeps(st: State, st': State, r: Running, output: Option<Run>)
    requires InvStack(st) && st.sched.active == Some(r)
    requires r.job.level < |st.levels| && r.job.target < |st.levels|
    requires st'.levels == Install(st.levels, r.job, output) && st'.sched == st.sched.(active := None)
    requires st'.nextId == st.nextId && Bound(st') == Bound(st)
    requires forall x :: x in AllRuns(st'.levels) ==> x in AllRuns(st.levels) || x.id == OutputId(r)
    ensures InvStack(st')
  {
    var stack, n := Stack(st.sched), |st.sched.suspended|;
    assert stack[n] == r && RunningOk(st, r) && Stack(st'.sched) == stack[..n];
    forall i | 0 <= i < n ensures RunningOk(st', stack[i]) {
      assert RunningOk(st, stack[i]);
      InstallKeepsInPlace(st.levels, r.job, output, stack[i].job);
    }
  }

  lemma InstallKeeps(st: State, e: Event, opts: Options)
    requires Ready(st, e, opts) && e.InstallOutput?
    ensures InvTree(Next(st, e, opts)) && InvStack(Next(st, e, opts))
  {
    var r := st.sched.active.value;
    assert Stack(st.sched)[|st.sched.suspended|] == r && RunningOk(st, r);
    InstallTreeKeeps(st, r, e.merged, e.output);
    InstallStackKeeps(st, Next(st, e, opts), r, e.output);
  }

  /** Deepening relabels the tree; no run moves relative to another. */
  lemma DeepenSameRuns(levels: Levels, level: nat, runs: seq<Run>)
    requires WfLevels(levels) && level == |levels| - 1 && EndsWith(levels[level], runs)
    ensures AllRuns(InstallDeepen(levels, level, runs)) == AllRuns(levels)
    ensures |InstallDeepen(levels, level, runs)| == |levels| + 1
  {
    var newer := levels[level][..|levels[level]| - |runs|];
    assert levels[level] == newer + runs;
    LevelRuns(levels, level);
    RetainPinned(newer, runs, runs);
    DeepenAlgebra(levels, newer, runs);
  }

  lemma DeepenAlgebra(levels: Levels, newer: seq<Run>, runs: seq<Run>)
    requires levels != [] && levels[|levels| - 1] == newer + runs
    ensures AllRuns(levels[|levels| - 1 := newer] + [runs]) == AllRuns(levels)
  {
    var l := |levels| - 1;
    BottomRuns(levels);
    BottomRuns(levels[l := newer]);
    assert levels[l := newer][..l] == levels[..l];
    AllRunsConcat(levels[l := newer], [runs]);
    AllRunsOne(runs);
    Assoc(AllRuns(levels[..l]), newer, runs);
  }

  lemma AllRunsOne(runs: seq<Run>)
    ensures AllRuns([runs]) == runs
  {
    assert [runs][1..] == [];
    assert runs + [] == runs;
  }

  lemma BottomRuns(levels: Levels)
    requires levels != []
    ensures AllRuns(levels) == AllRuns(levels[..|levels| - 1]) + levels[|levels| - 1]
  {
    var l := |levels| - 1;
    assert levels == levels[..l] + [levels[l]];
    AllRunsConcat(levels[..l], [levels[l]]);
    AllRunsOne(levels[l]);
  }

  lemma DeepenKeeps(st: State, e: Event, opts: Options)
    requires Ready(st, e, opts) && e.DeepenNow?
    ensures InvTree(Next(st, e, opts)) && InvStack(Next(st, e, opts))
  {
    DeepenSameRuns(st.levels, st.sched.chosen.value.level, st.sched.chosen.value.runs);
  }

  predicate SchedulerEvent(e: Event) {
    e.Preempt? || e.Schedule? || e.Open? || e.Slice? || e.InstallOutput? || e.DeepenNow?
  }

  /** The scheduler touches nothing but the tree, its own state and the id counter. */
  lemma SchedulerFrame(st: State, e: Event, opts: Options)
    requires Ready(st, e, opts) && SchedulerEvent(e)
    ensures var st' := Next(st, e, opts);
      st' == st.(levels := st'.levels, sched := st'.sched, nextId := st'.nextId) && st.nextId <= st'.nextId &&
      (e.InstallOutput? || e.DeepenNow? || st'.levels == st.levels)
  {
  }

  lemma SchedulerKeeps(st: State, e: Event, opts: Options)
    requires Ready(st, e, opts) && SchedulerEvent(e)
    ensures Inv(Next(st, e, opts))
  {
    hide Next;
    var st' := Next(st, e, opts);
    SchedulerFrame(st, e, opts);
    match e {
      case Preempt => SuspendKeeps(st, e, opts); TreeFrame(st, st');
      case Schedule => ScheduleKeeps(st, e, opts); TreeFrame(st, st');
      case Open(_) => OpenKeeps(st, e, opts); TreeFrame(st, st');
      case Slice(_) => SliceKeeps(st, e, opts); TreeFrame(st, st');
      case InstallOutput(_, _) => InstallKeeps(st, e, opts);
      case DeepenNow => DeepenKeeps(st, e, opts);
    }
    ValuesFrame(st, st');
  }
}
