/** When the compaction scheduler comes to rest, and what the tree looks like when it does. */
module Scheduling {
  import opened Types
  import opened Runs
  import opened Merging
  import opened Compaction
  import opened Tree
  import opened Rewriting
  import opened Engine
  import opened Invariance
  import opened GarbageCollection
  import opened Guarantees
  import opened Views

  // ---------------------------------------------------------------- how far the runs have to go

  function Count(levels: Levels): nat {
    if levels == [] then 0 else Count(levels[..|levels| - 1]) + |levels[|levels| - 1]|
  }

  /** The runs' summed distances from the floor: a run in level l counts once per level at or below
      l. */
  function Distance(levels: Levels): nat {
    if levels == [] then 0 else Distance(levels[..|levels| - 1]) + Count(levels)
  }

  /** Level `l` lost more runs than level `l + 1` gained, and nothing else changed. */
  predicate MovedDown(before: Levels, after: Levels, l: nat) {
    |after| == |before| && l < |before| && |after[l]| < |before[l]| &&
    (l + 1 < |before| ==> |after[l]| + |after[l + 1]| <= |before[l]| + |before[l + 1]|) &&
    forall i :: 0 <= i < |before| && i != l && i != l + 1 ==> |after[i]| == |before[i]|
  }

  lemma {:induction false} CountSame(before: Levels, after: Levels)
    requires |after| == |before| && forall i :: 0 <= i < |before| ==> |after[i]| == |before[i]|
    ensures Count(after) == Count(before) && Distance(after) == Distance(before)
  {
    if before != [] {
      CountSame(before[..|before| - 1], after[..|before| - 1]);
    }
  }

  lemma {:induction false} MovedDownIsCloser(before: Levels, after: Levels, l: nat)
    requires MovedDown(before, after, l)
    ensures Count(after) <= Count(before) && Distance(after) < Distance(before)
    ensures |before| == l + 1 ==> Count(after) == Count(before) - |before[l]| + |after[l]|
  {
    var b, a := before[..|before| - 1], after[..|before| - 1];
    if |before| == l + 1 {
      CountSame(b, a);
    } else {
      assert MovedDown(b, a, l);
      MovedDownIsCloser(b, a, l);
    }
  }

  /** Every install of a job with inputs moves runs down. */
  lemma InstallMovesDown(levels: Levels, job: Job, output: Option<Run>)
    requires WfLevels(levels) && InPlace(levels, job) && job.inputs != []
    ensures MovedDown(levels, Install(levels, job, output), job.level)
  {
    var l, pinned := job.level, Consumed(job);
    var newer := levels[l][..|levels[l]| - |pinned|];
    assert levels[l] == newer + pinned;
    LevelRuns(levels, l);
    RetainPinned(newer, pinned, job.inputs);
    if job.kind.BottomSplice? { RetainBase(newer, pinned, job); }
  }

  // ---------------------------------------------------------------- the measure

  predicate Triggers(opts: Options) {
    opts.l0Trigger >= 1 && opts.tierWidth >= 1
  }

  /** Some level above `level` has a trigger of zero: it is eligible without holding a single run. */
  predicate Starved(opts: Options, level: nat) {
    (opts.l0Trigger == 0 && level > 0) || (opts.tierWidth == 0 && level > 1)
  }

  /** A suspended job waits below such a level, or the bottom itself lies below one and the normal
      triggers decide. */
  ghost predicate Stuck(st: State, opts: Options) {
    (exists r :: r in st.sched.suspended && Starved(opts, r.job.level)) ||
    (!st.sched.force && |st.levels| > 0 && Starved(opts, |st.levels| - 1))
  }

  /** No job in flight or chosen has an empty input list. */
  ghost predicate Working(s: Sched) {
    (forall r :: r in Stack(s) ==> r.job.inputs != []) &&
    (s.chosen.Some? && s.chosen.value.Rewrite? ==> s.chosen.value.job.inputs != [])
  }

  function LevelsAddable(st: State): nat {
    if |st.levels| < MAX_DYNAMIC_LEVELS then MAX_DYNAMIC_LEVELS - |st.levels| else 0
  }

  /** The level of the work at hand; past the bottom when there is none. */
  function TopLevel(st: State): nat {
    if st.sched.chosen.Some? then
      match st.sched.chosen.value
      case Rewrite(job) => job.level
      case Deepen(level, _) => level
    else if st.sched.active.Some? then st.sched.active.value.job.level
    else |st.levels|
  }

  function Unopened(st: State): nat {
    if st.sched.chosen.Some? then 1 else 0
  }

  function EntriesLeft(st: State): nat {
    if st.sched.active.Some? then st.sched.active.value.left + 1 else 0
  }

  /** Lexicographic: levels still addable, distance of the runs, level of the work at hand, not yet
      opened, entries left to read. */
  predicate Closer(a: State, b: State) {
    LevelsAddable(a) < LevelsAddable(b) || (LevelsAddable(a) == LevelsAddable(b) && (
      Distance(a.levels) < Distance(b.levels) || (Distance(a.levels) == Distance(b.levels) && (
        TopLevel(a) < TopLevel(b) || (TopLevel(a) == TopLevel(b) && (
          Unopened(a) < Unopened(b) || (Unopened(a) == Unopened(b) && EntriesLeft(a) < EntriesLeft(b))))))))
  }

  /** Nothing in flight and nothing the picker wants. */
  predicate AtRest(st: State, opts: Options)
    requires WfLevels(st.levels)
  {
    st.sched.active.None? && st.sched.chosen.None? && st.sched.suspended == [] &&
    Pick(st.levels, opts, st.sched.force, st.nextId).None?
  }

  /** Below a level that is always eligible, there is always work above. */
  lemma StarvedPicks(levels: Levels, opts: Options, before: nat)
    requires before < |levels| && Starved(opts, before)
    ensures PickBefore(levels, opts, before).Some?
  {
    var none := FirstEligible(levels, opts, false, 0, before);
    assert 0 < before ==> |levels[0]| >= 0;
    assert 1 < before ==> |levels[1]| >= 0;
  }

  /** Elsewhere, a level that reached its trigger holds a run. */
  lemma EligibleHasRuns(levels: Levels, opts: Options, force: bool, limit: nat)
    requires limit <= |levels| && (force || !Starved(opts, limit))
    ensures var l := FirstEligible(levels, opts, force, 0, limit); l.Some? ==> levels[l.value] != []
  {
  }

  /** What the scheduler chooses has inputs, unless it is stuck. */
  lemma PickedHasRuns(st: State, e: Event, opts: Options)
    requires Ready(st, e, opts) && (e.Preempt? || e.Schedule?) && !Stuck(Next(st, e, opts), opts)
    ensures var c := Next(st, e, opts).sched.chosen; c.Some? && c.value.Rewrite? ==> c.value.job.inputs != []
  {
    hide InvValues, ResolvableFrom, RunOf, WfRuns, NewestFirst, FreshId;
    var s := st.sched;
    if e.Preempt? || s.suspended != [] {
      var deep := if e.Preempt? then s.active.value else s.suspended[|s.suspended| - 1];
      assert deep in Stack(s) && RunningOk(st, deep);
      EligibleHasRuns(st.levels, opts, false, deep.job.level);
    } else {
      EligibleHasRuns(st.levels, opts, s.force, |st.levels| - 1);
    }
  }

  /** Scheduler events keep every job non-empty, short of getting stuck. */
  lemma StillWorking(st: State, e: Event, opts: Options)
    requires Ready(st, e, opts) && SchedulerEvent(e) && Working(st.sched) && !Stuck(Next(st, e, opts), opts)
    ensures Working(Next(st, e, opts).sched)
  {
    hide InvValues, ResolvableFrom, RunOf, WfRuns, NewestFirst, FreshId;
    var st' := Next(st, e, opts);
    if e.Preempt? || e.Schedule? { PickedHasRuns(st, e, opts); }
    forall r | r in Stack(st'.sched) ensures r.job.inputs != [] {
      if e.Slice? && r == st'.sched.active.value {
        assert st.sched.active.value in Stack(st.sched);
      } else if !e.Open? || r in st.sched.suspended {
        assert r in Stack(st.sched);
      }
    }
  }

  /** The events that read and write no runs. */
  lemma LightIsCloser(st: State, e: Event, opts: Options)
    requires Ready(st, e, opts) && (e.Preempt? || e.Open? || e.Slice? || e.DeepenNow?)
    ensures Closer(Next(st, e, opts), st)
  {
    hide InvValues, ResolvableFrom, RunOf, Pick, WfRuns, NewestFirst, FreshId;
    var stack := Stack(st.sched);
    assert st.sched.active.Some? ==> stack[|st.sched.suspended|] == st.sched.active.value;
  }

  lemma ScheduleIsCloser(st: State, e: Event, opts: Options)
    requires Ready(st, e, opts) && e.Schedule? && !AtRest(st, opts)
    ensures Closer(Next(st, e, opts), st)
  {
    hide InvValues, ResolvableFrom, RunOf, WfRuns, NewestFirst, FreshId;
    var stack := Stack(st.sched);
    if st.sched.suspended != [] {
      assert stack[|st.sched.suspended| - 1] == st.sched.suspended[|st.sched.suspended| - 1];
      assert RunningOk(st, stack[|st.sched.suspended| - 1]);
    }
  }

  lemma InstallIsCloser(st: State, e: Event, opts: Options)
    requires Ready(st, e, opts) && e.InstallOutput? && Working(st.sched)
    ensures Closer(Next(st, e, opts), st)
  {
    hide InvValues, ResolvableFrom, RunOf, ScanOf, IsMerge, AnyMayContain, FreshId, NewestFirst;
    var stack, r := Stack(st.sched), st.sched.active.value;
    assert stack[|st.sched.suspended|] == r && RunningOk(st, r) && r in stack;
    InstallMovesDown(st.levels, r.job, e.output);
    MovedDownIsCloser(st.levels, Next(st, e, opts).levels, r.job.level);
  }

  /** Without flushes, every scheduler event moves the store closer to rest while every job has
      inputs. */
  lemma SchedulerMakesProgress(st: State, e: Event, opts: Options)
    requires Ready(st, e, opts) && SchedulerEvent(e) && Working(st.sched)
    requires !AtRest(st, opts)
    ensures Closer(Next(st, e, opts), st)
  {
    hide Inv, Enabled, Working, AtRest, Closer, Next;
    match e {
      case InstallOutput(_, _) => InstallIsCloser(st, e, opts);
      case Schedule => ScheduleIsCloser(st, e, opts);
      case Preempt => LightIsCloser(st, e, opts);
      case Open(_) => LightIsCloser(st, e, opts);
      case Slice(_) => LightIsCloser(st, e, opts);
      case DeepenNow => LightIsCloser(st, e, opts);
    }
  }

  /** A forced scheduler at rest leaves at most one run per level. */
  lemma QuietForcedShape(st: State, opts: Options)
    requires Inv(st) && AtRest(st, opts) && st.sched.force
    ensures forall i :: 0 <= i < |st.levels| ==> |st.levels[i]| <= 1
  {
    var last := |st.levels| - 1;
    var l := FirstEligible(st.levels, opts, true, 0, last);
    forall i | 0 <= i < last ensures |st.levels[i]| < 2 {
      assert |st.levels[i]| < Trigger(opts, true, i);
    }
  }

  // ---------------------------------------------------------------- running it

  lemma InvIsWf(st: State)
    requires Inv(st)
    ensures WfLevels(st.levels) && WfFrozen(st.flushed, st.frozen, |st.log|) && InvStack(st)
  {
  }

  /** Any pinned job can be finished: its merge exists, and one fragment can hold the survivors. */
  lemma OutputExists(job: Job, w: SeqNo, id: nat) returns (merged: seq<Ver>, output: Option<Run>)
    requires WfRuns(job.inputs) && NewestFirst(job.inputs) && WfRuns(job.older)
    ensures WfRuns(job.older) && OutputOf(job, w, merged, output)
    ensures output.Some? ==> output.value.id == id
  {
    hide IsMerge, WfRuns, NewestFirst, ScanOf, InputChildren, AnyMayContain, WfChildren, IkeyLess;
    InputsMerge(job.inputs);
    merged := MergeExists(false, InputChildren(job.inputs));
    StrictMerge(false, InputChildren(job.inputs), merged);
    assert Sorted(merged);
    ScanExact(merged, w, job.older);
    var kept := ScanOf(merged, w, job.older).out;
    if kept == [] {
      output := None;
    } else {
      var t := FinishTable(id, kept, {});
      output := Some(Run(id, [t]));
      assert Flat([t]) == t.ents + Flat([]);
    }
  }

  /** What the executor does next: take over, choose, start, read a slice, or finish. */
  lemma NextEvent(st: State, opts: Options) returns (e: Event)
    requires Inv(st) && !AtRest(st, opts)
    ensures SchedulerEvent(e) && Enabled(st, e, opts)
  {
    var s := st.sched;
    if s.chosen.Some? {
      e := if s.chosen.value.Rewrite? then Open(1) else DeepenNow;
    } else if s.active.None? {
      e := Schedule;
    } else {
      var r := s.active.value;
      assert Stack(s)[|s.suspended|] == r && RunningOk(st, r);
      if PickBefore(st.levels, opts, r.job.level).Some? {
        e := Preempt;
      } else if r.left > 0 {
        e := Slice(1);
      } else {
        var merged, output := OutputExists(r.job, r.watermark, r.outId);
        e := InstallOutput(merged, output);
      }
    }
  }

  lemma SchedulerWritesNothing(st: State, e: Event, opts: Options)
    requires Ready(st, e, opts) && SchedulerEvent(e)
    ensures Next(st, e, opts).log == st.log && Next(st, e, opts).sched.force == st.sched.force
  {
  }

  predicate SchedulerRun(es: seq<Event>) {
    forall i :: 0 <= i < |es| ==> SchedulerEvent(es[i])
  }

  /** `compact_until_quiet`: run the scheduler until it comes to rest, which it does unless it gets
      stuck. */
  lemma {:induction false} RunToRest(st: State, opts: Options) returns (es: seq<Event>)
    requires Inv(st) && Working(st.sched)
    ensures SchedulerRun(es) && Legal(st, es, opts)
    ensures var st' := After(st, es, opts);
      (AtRest(st', opts) || Stuck(st', opts)) && st'.log == st.log && st'.sched.force == st.sched.force &&
      (AtRest(st', opts) && st.sched.force ==> forall i :: 0 <= i < |st'.levels| ==> |st'.levels[i]| <= 1)
    decreases LevelsAddable(st), Distance(st.levels), TopLevel(st), Unopened(st), EntriesLeft(st)
  {
    hide Inv, Next, Enabled, AtRest, Stuck, Working, SchedulerEvent;
    InvIsWf(st);
    if AtRest(st, opts) || Stuck(st, opts) {
      es := [];
      if AtRest(st, opts) && st.sched.force { QuietForcedShape(st, opts); }
    } else {
      var e := NextEvent(st, opts);
      NextKeeps(st, e, opts);
      SchedulerMakesProgress(st, e, opts);
      SchedulerWritesNothing(st, e, opts);
      var rest := [];
      if Stuck(Next(st, e, opts), opts) {
        StuckHasWork(Next(st, e, opts), opts);
      } else {
        StillWorking(st, e, opts);
        rest := RunToRest(Next(st, e, opts), opts);
      }
      es := [e] + rest;
      FirstEvent(st, e, rest, opts);
    }
  }

  // ---------------------------------------------------------------- never coming to rest

  /** A stuck scheduler has work. */
  lemma StuckHasWork(st: State, opts: Options)
    requires Inv(st) && Stuck(st, opts)
    ensures !AtRest(st, opts)
  {
    hide InvValues, ResolvableFrom, RunOf, WfRuns, NewestFirst, FreshId;
    if st.sched.suspended == [] {
      var last := |st.levels| - 1;
      StarvedPicks(st.levels, opts, last);
    }
  }

  /** No scheduler event gets it out: the waiting job is resumed only when nothing above it is
      eligible, and levels are never removed. */
  lemma StuckStays(st: State, e: Event, opts: Options)
    requires Ready(st, e, opts) && SchedulerEvent(e) && Stuck(st, opts)
    ensures Stuck(Next(st, e, opts), opts)
  {
    hide Inv, Enabled, Next;
    InvIsWf(st);
    if r :| r in st.sched.suspended && Starved(opts, r.job.level) {
      if e.Schedule? { NotResumed(st, r, opts); } else { OthersStay(st, e, r, opts); }
    } else {
      NoLevelGone(st, e, opts);
    }
  }

  lemma NotResumed(st: State, r: Running, opts: Options)
    requires Ready(st, Schedule, opts) && r in st.sched.suspended && Starved(opts, r.job.level)
    ensures r in Next(st, Schedule, opts).sched.suspended
  {
    hide Inv, Enabled, PickBefore, WfLevels, InvStack, WfFrozen, Pick, Starved;
    InvIsWf(st);
    JobIsInside(st, r);
    var n, s' := |st.sched.suspended| - 1, ScheduleNext(st, opts).suspended;
    if st.sched.suspended[n] == r { StarvedPicks(st.levels, opts, r.job.level); }
    var i :| 0 <= i < |st.sched.suspended| && st.sched.suspended[i] == r;
    assert i < n ==> st.sched.suspended[..n][i] == r;
    assert s'[i] == r;
  }

  lemma OthersStay(st: State, e: Event, r: Running, opts: Options)
    requires Ready(st, e, opts) && SchedulerEvent(e) && !e.Schedule? && r in st.sched.suspended
    ensures r in Next(st, e, opts).sched.suspended
  {
    hide Inv, Install, InstallDeepen, PickBefore, WfLevels, InvStack, WfFrozen, Pick;
    InvIsWf(st);
  }

  lemma NoLevelGone(st: State, e: Event, opts: Options)
    requires Ready(st, e, opts) && SchedulerEvent(e)
    ensures Next(st, e, opts).sched.force == st.sched.force && |Next(st, e, opts).levels| >= |st.levels|
  {
    hide Inv, Install, PickBefore, Pick, WfLevels, InvStack, WfFrozen, Retain;
    InvIsWf(st);
    if e.InstallOutput? {
      InstallKeepsCount(st, e.output);
      assert Next(st, e, opts).levels == Install(st.levels, st.sched.active.value.job, e.output);
    } else if e.DeepenNow? {
      DeepenIsInside(st);
      assert |Next(st, e, opts).levels| == |st.levels| + 1;
    } else {
      assert Next(st, e, opts).levels == st.levels;
    }
  }

  lemma DeepenIsInside(st: State)
    requires Inv(st) && st.sched.chosen.Some? && st.sched.chosen.value.Deepen?
    ensures st.sched.chosen.value.level < |st.levels|
  {
    hide InvValues, ResolvableFrom, RunOf, WfRuns, NewestFirst, FreshId, InvTree;
  }

  lemma InstallKeepsCount(st: State, output: Option<Run>)
    requires Inv(st) && st.sched.active.Some?
    ensures var job := st.sched.active.value.job;
      job.level < |st.levels| && job.target < |st.levels| && |Install(st.levels, job, output)| == |st.levels|
  {
    hide InvValues, ResolvableFrom, RunOf, WfRuns, NewestFirst, FreshId, Retain, Splice;
    var r := st.sched.active.value;
    assert Stack(st.sched)[|st.sched.suspended|] == r && RunningOk(st, r);
  }

  lemma JobIsInside(st: State, r: Running)
    requires Inv(st) && r in st.sched.suspended
    ensures r.job.level < |st.levels|
  {
    hide InvValues, ResolvableFrom, RunOf, WfRuns, NewestFirst, FreshId;
    assert r in Stack(st.sched) && RunningOk(st, r);
  }

  lemma {:induction false} StuckNeverRests(st: State, es: seq<Event>, opts: Options)
    requires Inv(st) && Stuck(st, opts) && SchedulerRun(es) && Legal(st, es, opts)
    ensures Stuck(After(st, es, opts), opts) && !AtRest(After(st, es, opts), opts)
    decreases |es|
  {
    hide Inv, Next, Enabled, AtRest, Stuck, SchedulerEvent;
    InvIsWf(st);
    if es == [] {
      StuckHasWork(st, opts);
    } else {
      NextKeeps(st, es[0], opts);
      StuckStays(st, es[0], opts);
      StuckNeverRests(Next(st, es[0], opts), es[1..], opts);
    }
  }

  ghost predicate RestsAfter(st: State, es: seq<Event>, opts: Options)
    requires Inv(st)
  {
    SchedulerRun(es) && Legal(st, es, opts) && AtRest(After(st, es, opts), opts)
  }

  /** The scheduler can come to rest from here. */
  ghost predicate ComesToRest(st: State, opts: Options)
    requires Inv(st)
  {
    exists es :: RestsAfter(st, es, opts)
  }

  lemma NeverFromStuck(st: State, opts: Options)
    requires Inv(st) && Stuck(st, opts)
    ensures !ComesToRest(st, opts)
  {
    hide Inv, SchedulerRun, AtRest;
    if ComesToRest(st, opts) {
      var es :| RestsAfter(st, es, opts);
      StuckNeverRests(st, es, opts);
    }
  }

  /** The unforced scheduler, with levels between the top and the bottom, comes to rest if and only if
      neither trigger is zero. */
  lemma RestsExactlyWithTriggers(st: State, opts: Options)
    requires Inv(st) && Working(st.sched) && !st.sched.force && |st.levels| > 2
    ensures ComesToRest(st, opts) <==> Triggers(opts)
  {
    hide Inv, Working, SchedulerRun, AtRest;
    if Triggers(opts) {
      var es := RunToRest(st, opts);
      assert !Stuck(After(st, es, opts), opts);
      assert RestsAfter(st, es, opts);
    } else {
      NeverFromStuck(st, opts);
    }
  }

  /** `pick_before` looks at the normal triggers even when the run is forced: a job below a zero
      trigger that its first slice does not finish is preempted at the next step and never resumed. */
  lemma StarvedJobNeverFinishes(st: State, opts: Options)
    requires Inv(st) && st.sched.active.Some? && st.sched.chosen.None?
    requires Starved(opts, st.sched.active.value.job.level)
    ensures Enabled(st, Preempt, opts) && Stuck(Next(st, Preempt, opts), opts)
    ensures (NextKeeps(st, Preempt, opts); !ComesToRest(Next(st, Preempt, opts), opts))
  {
    hide InvValues, ResolvableFrom, RunOf, WfRuns, NewestFirst, FreshId, ComesToRest;
    var r := st.sched.active.value;
    assert Stack(st.sched)[|st.sched.suspended|] == r && RunningOk(st, r);
    StarvedPicks(st.levels, opts, r.job.level);
    var st' := Next(st, Preempt, opts);
    assert st'.sched.suspended[|st.sched.suspended|] == r;
    NextKeeps(st, Preempt, opts);
    NeverFromStuck(st', opts);
  }
}
