/** What a power loss takes from a running store: which reads survive it, exactly when every power
 * loss is harmless, and which runs withstand one at each of their points.
 *
 * Opening adopts the value-log files a crash left and never syncs them; barriers and flushes sync
 * the new head file only.  So a process crash over values that were not yet on the platter leaves
 * durable records, and possibly durable pins, whose values the next power loss takes.
 */
module Durability {
  import opened Types
  import opened History
  import opened Runs
  import opened Tree
  import opened Retention
  import opened Compaction
  import opened Views
  import opened Engine
  import opened Invariance
  import opened GarbageCollection
  import opened Guarantees

  // ---------------------------------------------------------------- one crash

  /** The seqnos whose states a crash leaves retained. */
  predicate LeftReadable(st: State, e: Event, s: SeqNo)
    requires e.PowerLoss? ==> e.wal <= |st.log|
  {
    Least(st.pins, Left(st, e)) <= s <= Left(st, e)
  }

  /** The crash takes the value a reader of `k` at `s` would fetch. */
  predicate Taken(st: State, e: Event, k: Key, s: SeqNo)
    requires s <= |st.log|
  {
    var n := Newest(st.log, k, s);
    e.PowerLoss? && 0 < n <= st.adopted && Lost(st.log[n - 1].op, e.kept)
  }

  lemma CrashReadable(st: State, e: Event, opts: Options)
    requires Inv(st) && Enabled(st, e, opts) && IsCrash(e)
    ensures var st' := Next(st, e, opts); InvBounds(st') && InvTree(st')
  {
    CrashBounds(st, e, opts);
    CrashTree(st, e, opts);
  }

  ghost function ReadAfter(st: State, e: Event, opts: Options, k: Key, s: SeqNo): Option<seq<nat>>
    requires Inv(st) && Enabled(st, e, opts) && IsCrash(e)
  {
    CrashReadable(st, e, opts);
    Read(Next(st, e, opts), k, s)
  }

  ghost function DiskAfter(st: State, e: Event, opts: Options): map<ValuePtr, seq<nat>>
    requires Inv(st) && Enabled(st, e, opts) && IsCrash(e)
  {
    Next(st, e, opts).disk
  }

  function Fetched(disk: map<ValuePtr, seq<nat>>, v: Option<Repr>): Option<seq<nat>> {
    if v.None? then None else ValueOf(disk, v.value)
  }

  /** The reopened store looks a key up in what was left of the history. */
  lemma LookupAfter(st: State, e: Event, opts: Options, k: Key, s: SeqNo)
    requires Inv(st) && Enabled(st, e, opts) && IsCrash(e) && LeftReadable(st, e, s)
    ensures ReadAfter(st, e, opts, k, s) == Fetched(DiskAfter(st, e, opts), ValueAt(st.log, k, s))
  {
    hide InvStack, InvPlatter, InvEnds, InvValues, Next, ValueAt, WfRuns;
    var st' := Next(st, e, opts);
    CrashReadable(st, e, opts);
    CrashFrame(st, e, opts);
    ViewReadExact(st'.log, st'.flushed, st'.frozen, AllRuns(st'.levels), Bound(st'), k, s);
    assert st'.log[..s] == st.log[..s];
    NewestPrefix(st.log, st'.log, k, s);
  }

  /** Which of the values a reader could fetch are still there, unchanged. */
  lemma ValueAfter(st: State, e: Event, opts: Options, k: Key, s: SeqNo)
    requires Inv(st) && Enabled(st, e, opts) && IsCrash(e) && LeftReadable(st, e, s)
    requires ValueAt(st.log, k, s).Some?
    ensures var r := ValueAt(st.log, k, s).value;
      ValueOf(st.disk, r).Some? &&
      ValueOf(DiskAfter(st, e, opts), r) == if Taken(st, e, k, s) then None else ValueOf(st.disk, r)
  {
    hide InvStack, InvPlatter, InvEnds, Retains, Next, DiskAfter, RunOf, CleanFrom;
    var n := Newest(st.log, k, s);
    CrashFrame(st, e, opts);
    assert Resolvable(st.disk, st.log[n - 1].op);
    CrashResolvable(st, e, opts, k, s);
    DiskShrinks(st, e, opts);
  }

  lemma DiskShrinks(st: State, e: Event, opts: Options)
    requires Inv(st) && Enabled(st, e, opts) && IsCrash(e)
    ensures forall p :: p in DiskAfter(st, e, opts) ==> p in st.disk && DiskAfter(st, e, opts)[p] == st.disk[p]
    ensures e.PowerLoss? ==> DiskAfter(st, e, opts).Keys == e.kept
    ensures e.ProcessCrash? ==> DiskAfter(st, e, opts) == st.disk
  {
  }

  /** A read after a crash answers as before, unless a power loss took a value recovered by the last
      open; then it fails where it succeeded before. */
  lemma CrashReads(st: State, e: Event, opts: Options, k: Key, s: SeqNo)
    requires Inv(st) && Enabled(st, e, opts) && IsCrash(e) && LeftReadable(st, e, s)
    ensures ReadAfter(st, e, opts, k, s) == if Taken(st, e, k, s) then None else Read(st, k, s)
    ensures Taken(st, e, k, s) ==> Read(st, k, s).Some?
  {
    hide InvStack, InvPlatter, InvEnds, Next, ReadAfter, DiskAfter, ValueOf, Read, Lookup, Retains, ResolvableFrom,
         WfRuns;
    LookupAfter(st, e, opts, k, s);
    CrashFrame(st, e, opts);
    ReadsAreExact(st, k, s);
    if ValueAt(st.log, k, s).Some? { ValueAfter(st, e, opts, k, s); }
  }

  /** Every read of a state left retained answers after the crash as before. */
  ghost predicate KeepsReads(st: State, e: Event, opts: Options)
    requires Inv(st) && Enabled(st, e, opts) && IsCrash(e)
  {
    forall k, s :: LeftReadable(st, e, s) ==> ReadAfter(st, e, opts, k, s) == Read(st, k, s)
  }

  /** A crash keeps the reads if and only if it keeps the whole invariant, and if and only if it
      spares the recovered values they reach; a process crash always does. */
  lemma CrashIsExact(st: State, e: Event, opts: Options)
    requires Inv(st) && Enabled(st, e, opts) && IsCrash(e)
    ensures KeepsReads(st, e, opts) <==> Spares(st, e)
    ensures Inv(Next(st, e, opts)) <==> Spares(st, e)
    ensures e.ProcessCrash? ==> Spares(st, e)
  {
    CrashKeeps(st, e, opts);
    ReadsAreSpared(st, e, opts);
  }

  lemma ReadsAreSpared(st: State, e: Event, opts: Options)
    requires Inv(st) && Enabled(st, e, opts) && IsCrash(e)
    ensures KeepsReads(st, e, opts) <==> Spares(st, e)
  {
    hide InvStack, InvPlatter, InvEnds, InvValues, Retains, RunOf, ReadAfter, Read;
    forall k, s | LeftReadable(st, e, s)
      ensures ReadAfter(st, e, opts, k, s) == Read(st, k, s) <==> !Taken(st, e, k, s)
    {
      CrashReads(st, e, opts, k, s);
    }
    if KeepsReads(st, e, opts) && e.PowerLoss? {
      var at := Left(st, e);
      forall k, s | Least(st.pins, at) <= s <= at && 0 < Newest(st.log, k, s) <= st.adopted
        ensures !Lost(st.log[Newest(st.log, k, s) - 1].op, e.kept)
      {
        assert LeftReadable(st, e, s);
        assert ReadAfter(st, e, opts, k, s) == Read(st, k, s);
        assert !Taken(st, e, k, s);
      }
    }
  }

  /** A pin outlives every crash: recovery never ends below it, so the open does not refuse the store.
      It reads after the crash as before if and only if no value recovered by
      the last open that it reaches was taken. */
  lemma PinSurvives(st: State, e: Event, opts: Options, s: SeqNo)
    requires Inv(st) && Enabled(st, e, opts) && IsCrash(e) && s in st.pins
    ensures s in Next(st, e, opts).pins && s <= |Next(st, e, opts).log| <= |st.log|
    ensures (forall k :: ReadAfter(st, e, opts, k, s) == Read(st, k, s)) <==> forall k :: !Taken(st, e, k, s)
  {
    hide ReadAfter, Read, Taken, InvPlatter, InvEnds;
    CrashFrame(st, e, opts);
    assert LeftReadable(st, e, s);
    forall k ensures ReadAfter(st, e, opts, k, s) == Read(st, k, s) <==> !Taken(st, e, k, s) {
      CrashReads(st, e, opts, k, s);
    }
  }

  // ---------------------------------------------------------------- every power loss

  /** Where the worst power loss leaves the history: nothing unsynced survives. */
  function Landing(st: State): SeqNo
    requires st.durable <= |st.log|
  {
    Replayed(st, st.platter, st.durable)
  }

  /** Whatever the last open recovered, and the states the worst power loss would leave retained can
      reach, is on the platter. */
  ghost predicate Survivable(st: State)
    requires st.durable <= |st.log|
  {
    Reaches(st, st.platter, Least(st.pins, Landing(st)), Landing(st))
  }

  ghost predicate EveryLossKeepsReads(st: State, opts: Options)
    requires Inv(st)
  {
    forall e :: LossNow(st, e, opts) ==> KeepsReads(st, e, opts)
  }

  ghost predicate LossNow(st: State, e: Event, opts: Options)
    requires Inv(st)
  {
    e.PowerLoss? && Enabled(st, e, opts)
  }

  /** Replay gets no less far with more of the WAL and of the values left. */
  lemma ReplayedMonotone(st: State, kept: set<ValuePtr>, wal: SeqNo, kept': set<ValuePtr>, wal': SeqNo)
    requires Inv(st) && st.platter <= kept <= kept' && st.settled <= wal <= wal' <= |st.log|
    ensures Replayed(st, kept, wal) <= Replayed(st, kept', wal')
  {
    ReplayedExact(st, kept, wal);
    ReplayedExact(st, kept', wal');
    assert Whole(st.log, kept', st.flushed, Replayed(st, kept, wal));
  }

  /** A version recovered by the last open that is visible late is visible earlier too. */
  lemma RecoveredEarlier(h: Log, k: Key, from: SeqNo, s: SeqNo)
    requires from <= s <= |h| && Newest(h, k, s) <= from
    ensures Newest(h, k, from) == Newest(h, k, s)
  {
    NewestIs(h, k, from, Newest(h, k, s));
  }

  lemma SurvivableSpares(st: State, e: Event, opts: Options)
    requires Inv(st) && Enabled(st, e, opts) && e.PowerLoss? && Survivable(st)
    ensures Spares(st, e)
  {
    hide InvTree, InvStack, InvValues, InvPlatter, RunOf, Lost, Replayed, Reaches;
    var at, low := Left(st, e), Landing(st);
    ReplayedMonotone(st, st.platter, st.durable, e.kept, e.wal);
    ReplayedExact(st, st.platter, st.durable);
    assert Least(st.pins, low) <= Least(st.pins, at) && (Least(st.pins, at) >= low ==> Least(st.pins, low) == low);
    ReachesLess(st, low, at, e.kept);
  }

  /** What is there for readers up to `low` is there for those up to `at`, of what was recovered. */
  lemma ReachesLess(st: State, low: SeqNo, at: SeqNo, kept: set<ValuePtr>)
    requires st.adopted <= low <= at <= |st.log| && st.platter <= kept
    requires Reaches(st, st.platter, Least(st.pins, low), low)
    ensures Reaches(st, kept, Least(st.pins, at), at)
  {
    hide Lost;
    forall k, s | Least(st.pins, at) <= s <= at && 0 < Newest(st.log, k, s) <= st.adopted
      ensures !Lost(st.log[Newest(st.log, k, s) - 1].op, kept)
    {
      var s' := if s < low then s else low;
      RecoveredEarlier(st.log, k, s', s);
      LostLess(st.log[Newest(st.log, k, s') - 1].op, st.platter, kept);
    }
  }

  lemma LostLess(op: Op, kept: set<ValuePtr>, kept': set<ValuePtr>)
    requires kept <= kept' && !Lost(op, kept)
    ensures !Lost(op, kept')
  {
  }

  /** Any stretch of the history can be written out as a run. */
  lemma RunExists(h: Log, lo: SeqNo, hi: SeqNo, id: nat) returns (run: Option<Run>)
    requires hi <= |h|
    ensures RunOf(run, h, lo, hi, id)
  {
    MemEntriesExact(h, lo, hi);
    var ents := MemEntries(h, lo, hi);
    if ents == [] {
      run := None;
    } else {
      var t := FinishTable(id, ents, {});
      run := Some(Run(id, [t]));
      assert Flat([t]) == t.ents + Flat([]);
    }
  }

  /** Every power loss keeps every read it leaves retained, if and only if the worst one would find
      whatever the last open recovered, and is still reachable then, on the platter. */
  lemma SurvivesEveryLoss(st: State, opts: Options)
    requires Inv(st)
    ensures EveryLossKeepsReads(st, opts) <==> Survivable(st)
  {
    hide InvTree, InvStack, InvValues, InvPlatter, InvEnds, Enabled, KeepsReads, Spares, Survivable;
    if Survivable(st) {
      forall e | LossNow(st, e, opts) ensures KeepsReads(st, e, opts) {
        SurvivableSpares(st, e, opts);
        CrashIsExact(st, e, opts);
      }
    }
    if EveryLossKeepsReads(st, opts) {
      var worst := WorstLoss(st, opts);
      assert LossNow(st, worst, opts);
      CrashIsExact(st, worst, opts);
      WorstSpares(st, worst);
    }
  }

  /** The same for one pin: it reads the same after every power loss if and only if whatever the last
      open recovered and the pin reaches is on the platter. */
  lemma PinSurvivesEveryLoss(st: State, opts: Options, s: SeqNo)
    requires Inv(st) && s in st.pins
    ensures (forall e, k :: LossNow(st, e, opts) ==> ReadAfter(st, e, opts, k, s) == Read(st, k, s)) <==>
            Reaches(st, st.platter, s, s)
  {
    hide InvStack, InvValues, InvPlatter, InvEnds, Retains, Enabled, Read, ReadAfter;
    var worst := WorstLoss(st, opts);
    assert LossNow(st, worst, opts);
    PinSurvives(st, worst, opts, s);
    forall e | LossNow(st, e, opts) && Reaches(st, st.platter, s, s)
      ensures forall k :: ReadAfter(st, e, opts, k, s) == Read(st, k, s)
    {
      PinSurvives(st, e, opts, s);
      KeptLoss(st, e, opts, s);
    }
    if forall k :: !Taken(st, worst, k, s) { NoneTaken(st, worst, s); }
  }

  lemma KeptLoss(st: State, e: Event, opts: Options, s: SeqNo)
    requires Inv(st) && LossNow(st, e, opts) && s <= |st.log| && Reaches(st, st.platter, s, s)
    ensures forall k :: !Taken(st, e, k, s)
  {
  }

  lemma NoneTaken(st: State, e: Event, s: SeqNo)
    requires s <= |st.log| && e.PowerLoss? && e.kept == st.platter && forall k :: !Taken(st, e, k, s)
    ensures Reaches(st, st.platter, s, s)
  {
    forall k | 0 < Newest(st.log, k, s) <= st.adopted
      ensures !Lost(st.log[Newest(st.log, k, s) - 1].op, st.platter)
    {
      assert !Taken(st, e, k, s);
    }
  }

  lemma WorstLoss(st: State, opts: Options) returns (e: Event)
    requires Inv(st)
    ensures Enabled(st, e, opts) && e.PowerLoss? && e.wal == st.durable && e.kept == st.platter
  {
    var run := RunExists(st.log, st.flushed, Landing(st), st.nextId);
    e := PowerLoss(st.durable, st.platter, run);
  }

  lemma WorstSpares(st: State, e: Event)
    requires st.durable <= |st.log| && e.PowerLoss? && e.wal == st.durable && e.kept == st.platter && Spares(st, e)
    ensures Survivable(st)
  {
  }

  // ---------------------------------------------------------------- whole runs

  /** Whatever the last open recovered and any reader can still reach is on the platter. */
  ghost predicate Safe(st: State) {
    Reaches(st, st.platter, Bound(st), |st.log|)
  }

  /** Whatever a reader can reach after a process crash is on the platter now. */
  ghost predicate Calm(st: State) {
    forall k, s :: Least(st.pins, |st.log|) <= s <= |st.log| && Newest(st.log, k, s) > 0 ==>
      !Lost(st.log[Newest(st.log, k, s) - 1].op, st.platter)
  }

  lemma SafeSurvives(st: State)
    requires Inv(st) && Safe(st)
    ensures Survivable(st)
  {
    ReplayedExact(st, st.platter, st.durable);
    assert Bound(st) <= Least(st.pins, Landing(st));
  }

  /** Reopening after a process crash withstands every power loss if and only if the crash found every
      value the reopened store's readers can reach on the platter. */
  lemma AdoptionIsSafe(st: State, e: Event, opts: Options)
    requires Ready(st, e, opts) && e.ProcessCrash?
    ensures Safe(Next(st, e, opts)) <==> Calm(st)
    ensures Survivable(Next(st, e, opts)) <==> Calm(st)
  {
    var st' := Next(st, e, opts);
    assert st'.log == st.log;
    assert Landing(st') == |st.log|;
    assert Bound(st') == Least(st.pins, |st.log|);
  }

  /** A barrier just before makes a process crash harmless. */
  lemma SettledIsCalm(st: State)
    requires Inv(st) && Safe(st) && st.settled == |st.log|
    ensures Calm(st)
  {
    hide InvTree, InvStack;
    forall k, s | Least(st.pins, |st.log|) <= s <= |st.log| && Newest(st.log, k, s) > 0
      ensures !Lost(st.log[Newest(st.log, k, s) - 1].op, st.platter)
    {
      var n := Newest(st.log, k, s);
      assert Bound(st) <= Least(st.pins, |st.log|);
      assert Resolvable(st.disk, st.log[n - 1].op);
      if n > st.adopted { assert InPlaceSince(st, st.log[n - 1].op, true); }
    }
  }

  /** Nothing but a process crash makes a safe store unsafe. */
  lemma SafeIsKept(st: State, e: Event, opts: Options)
    requires Ready(st, e, opts) && !e.ProcessCrash? && (Safe(st) || e.PowerLoss?)
    ensures Inv(Next(st, e, opts)) && Safe(Next(st, e, opts))
  {
    hide InvStack, InvPlatter, InvEnds, Retains, Safe, Next, Spares, ResolvableFrom;
    NextKeeps(st, e, opts);
    if e.PowerLoss? {
      LossIsSafe(st, e, opts);
    } else {
      BoundMonotone(st, e, opts);
      StepFrame(st, e, opts);
      SafeFrame(st, Next(st, e, opts));
    }
  }

  /** What a power loss left is on the platter. */
  lemma LossIsSafe(st: State, e: Event, opts: Options)
    requires Ready(st, e, opts) && e.PowerLoss? && Inv(Next(st, e, opts))
    ensures Safe(Next(st, e, opts))
  {
    var st' := Next(st, e, opts);
    assert st'.disk.Keys == st'.platter;
    forall k, s | Bound(st') <= s <= |st'.log| && Newest(st'.log, k, s) > 0
      ensures !Lost(st'.log[Newest(st'.log, k, s) - 1].op, st'.platter)
    {
      assert Resolvable(st'.disk, st'.log[Newest(st'.log, k, s) - 1].op);
    }
  }

  /** An event that is no crash extends the history and keeps the values that are on the platter,
      except those of a released file. */
  lemma StepFrame(st: State, e: Event, opts: Options)
    requires Ready(st, e, opts) && !IsCrash(e)
    ensures var st' := Next(st, e, opts);
      st.log <= st'.log && st'.adopted == st.adopted &&
      forall p :: p in st.platter && p in st'.disk ==> p in st'.platter
  {
  }

  lemma SafeFrame(st: State, st': State)
    requires Safe(st) && st.log <= st'.log && st'.adopted == st.adopted <= |st.log|
    requires forall p :: p in st.platter && p in st'.disk ==> p in st'.platter
    requires Bound(st) <= Bound(st') && Bound(st) <= |st.log| && ResolvableFrom(st'.log, st'.disk, Bound(st'))
    ensures Safe(st')
  {
    hide Bound;
    forall k, s | Bound(st') <= s <= |st'.log| && 0 < Newest(st'.log, k, s) <= st.adopted
      ensures !Lost(st'.log[Newest(st'.log, k, s) - 1].op, st'.platter)
    {
      var n := Newest(st'.log, k, s);
      var s' := if s < |st.log| then s else |st.log|;
      RecoveredEarlier(st'.log, k, s', s);
      NewestPrefix(st.log, st'.log, k, s');
      assert Resolvable(st'.disk, st'.log[n - 1].op) && st'.log[n - 1] == st.log[n - 1];
    }
  }

  /** The events happen one after the other, and each process crash finds the values reachable after
      it on the platter. */
  ghost predicate Careful(st: State, es: seq<Event>, opts: Options)
    requires Inv(st) && Safe(st)
    decreases |es|
  {
    es == [] ||
    (Enabled(st, es[0], opts) && (es[0].ProcessCrash? ==> Calm(st)) &&
     (CarefulStep(st, es[0], opts); Careful(Next(st, es[0], opts), es[1..], opts)))
  }

  lemma CarefulStep(st: State, e: Event, opts: Options)
    requires Inv(st) && Safe(st) && Enabled(st, e, opts) && (e.ProcessCrash? ==> Calm(st))
    ensures Spares(st, e) && Inv(Next(st, e, opts)) && Safe(Next(st, e, opts))
  {
    hide InvTree, InvStack, InvValues, InvPlatter, Safe, Calm, Survivable;
    SafeSurvives(st);
    if e.PowerLoss? { SurvivableSpares(st, e, opts); }
    NextKeeps(st, e, opts);
    if e.ProcessCrash? { AdoptionIsSafe(st, e, opts); } else { SafeIsKept(st, e, opts); }
  }

  /** The events happen one after the other, and before, between and after them every power loss
      would keep the reads. */
  ghost predicate Withstands(st: State, es: seq<Event>, opts: Options)
    requires Inv(st)
    decreases |es|
  {
    EveryLossKeepsReads(st, opts) &&
    (es == [] ||
     (Enabled(st, es[0], opts) && Spares(st, es[0]) &&
      (NextKeeps(st, es[0], opts); Withstands(Next(st, es[0], opts), es[1..], opts))))
  }

  /** A run withstands a power loss at each of its points if and only if each of its process crashes
      finds the values reachable after it on the platter. */
  lemma {:induction false} RunWithstandsExactly(st: State, es: seq<Event>, opts: Options)
    requires Inv(st) && Safe(st)
    ensures Withstands(st, es, opts) <==> Careful(st, es, opts)
    ensures Careful(st, es, opts) ==> Legal(st, es, opts)
    decreases |es|
  {
    hide InvStack, InvValues, InvPlatter, InvEnds, Retains, Safe, Enabled, Survivable, EveryLossKeepsReads, Calm, Next,
         Spares;
    SafeSurvives(st);
    SurvivesEveryLoss(st, opts);
    if es != [] && Enabled(st, es[0], opts) {
      var e := es[0];
      if e.ProcessCrash? && !Calm(st) {
        if Spares(st, e) {
          NextKeeps(st, e, opts);
          AdoptionIsSafe(st, e, opts);
          SurvivesEveryLoss(Next(st, e, opts), opts);
        }
      } else {
        CarefulStep(st, e, opts);
        RunWithstandsExactly(Next(st, e, opts), es[1..], opts);
      }
    }
  }

  /** A fresh store is safe. */
  lemma InitIsSafe(st: State, maxLevels: nat)
    requires Init(st, maxLevels)
    ensures Inv(st) && Safe(st)
  {
    InitIsInv(st, maxLevels);
  }

  // ---------------------------------------------------------------- a pin that does not hold

  lemma CommitOne(st: State, k: Key, v: seq<nat>, p: ValuePtr, opts: Options) returns (e: Event)
    requires Inv(st) && p.file == st.head && p !in st.disk
    ensures Ready(st, e, opts) && e.Commit?
    ensures var st' := Next(st, e, opts);
      st'.log == st.log + [Write(k, Put(Pointer(p)))] && st'.disk == st.disk[p := v] && st'.platter == st.platter &&
      st'.head == st.head
  {
    hide InvTree, InvStack, InvValues, InvPlatter;
    var ops := [Write(k, Put(Pointer(p)))];
    assert forall w :: w in ops ==> w == ops[0];
    e := Commit(ops, map[p := v]);
    assert st.disk + map[p := v] == st.disk[p := v];
  }

  lemma CrashNow(st: State, opts: Options) returns (e: Event)
    requires Inv(st)
    ensures Ready(st, e, opts) && e.ProcessCrash?
    ensures var st' := Next(st, e, opts);
      st'.log == st.log && st'.adopted == st'.flushed == |st.log| && st'.disk == st.disk && st'.platter == st.platter &&
      st'.head > st.head
  {
    hide InvTree, InvStack, InvPlatter;
    var run := RunExists(st.log, st.flushed, |st.log|, st.nextId);
    e := ProcessCrash(run);
  }

  /** The steps of creating a pin at the current state: register it, sync the head and the WAL, and
      commit the pin. */
  lemma PinSteps(st: State, opts: Options)
    requires Inv(st)
    ensures Ready(st, Register(|st.log|), opts)
    ensures Next(st, Register(|st.log|), opts) == st.(snaps := st.snaps + multiset{|st.log|})
    ensures Ready(st, SyncWal, opts)
    ensures Next(st, SyncWal, opts) ==
      st.(durable := |st.log|, settled := |st.log|, platter := st.platter + HeadValues(st))
    ensures st.settled == |st.log| && |st.log| in st.snaps - st.pins ==>
      Ready(st, Pin(|st.log|), opts) &&
      Next(st, Pin(|st.log|), opts) == st.(pins := st.pins + multiset{|st.log|})
  {
    hide InvTree, InvStack, InvValues, InvPlatter, InvEnds;
  }

  lemma PinNow(st: State, opts: Options) returns (es: seq<Event>)
    requires Inv(st)
    ensures Legal(st, es, opts) && forall e :: e in es ==> !e.PowerLoss?
    ensures After(st, es, opts) ==
      st.(snaps := st.snaps + multiset{|st.log|}, pins := st.pins + multiset{|st.log|}, durable := |st.log|,
          settled := |st.log|, platter := st.platter + HeadValues(st))
  {
    hide InvStack, InvValues, InvPlatter, InvEnds, Retains, Next, Enabled, Spares;
    var n := |st.log|;
    PinSteps(st, opts);
    NextKeeps(st, Register(n), opts);
    var st1 := Next(st, Register(n), opts);
    PinSteps(st1, opts);
    NextKeeps(st1, SyncWal, opts);
    var st2 := Next(st1, SyncWal, opts);
    PinSteps(st2, opts);
    assert st.pins <= st.snaps;
    assert n in st2.snaps - st2.pins;
    NextKeeps(st2, Pin(n), opts);
    assert HeadValues(st1) == HeadValues(st);
    assert Legal(Next(st2, Pin(n), opts), [], opts);
    FirstEvent(st2, Pin(n), [], opts);
    FirstEvent(st1, SyncWal, [Pin(n)] + [], opts);
    FirstEvent(st, Register(n), [SyncWal] + ([Pin(n)] + []), opts);
    es := [Register(n)] + ([SyncWal] + ([Pin(n)] + []));
  }

  /** A store that has just pinned a state whose newest value it adopted and never synced. */
  lemma PinIsLost(st: State, k: Key, p: ValuePtr, opts: Options) returns (loss: Event)
    requires Inv(st) && p in st.disk && p !in st.platter && st.adopted == st.flushed == st.durable == |st.log| > 0
    requires st.log[|st.log| - 1] == Write(k, Put(Pointer(p))) && |st.log| in st.pins
    ensures Read(st, k, |st.log|) == Some(st.disk[p])
    ensures loss.PowerLoss? && Enabled(st, loss, opts) && |st.log| in Next(st, loss, opts).pins
    ensures ReadAfter(st, loss, opts, k, |st.log|) == None
  {
    hide InvStack, InvValues, InvPlatter, InvEnds, Retains, Next, Enabled, Read, ReadAfter;
    var n := |st.log|;
    loss := WorstLoss(st, opts);
    PinSurvives(st, loss, opts, n);
    assert WroteKey(st.log, k, n);
    NewestIs(st.log, k, n, n);
    CrashReads(st, loss, opts, k, n);
    ReadsAreExact(st, k, n);
  }

  /** In any store, for any key and value: append it, crash the process, reopen, pin the current state;
      the next power loss may leave the pin with nothing to read. */
  lemma AdoptedPinIsLost(st: State, k: Key, v: seq<nat>, p: ValuePtr, opts: Options)
    returns (es: seq<Event>, loss: Event)
    requires Inv(st) && p.file == st.head && p !in st.disk
    ensures Legal(st, es, opts) && forall e :: e in es ==> !e.PowerLoss?
    ensures var st', n := After(st, es, opts), |st.log| + 1;
      n == |st'.log| && n in st'.pins && Read(st', k, n) == Some(v) &&
      loss.PowerLoss? && Enabled(st', loss, opts) && n in Next(st', loss, opts).pins &&
      ReadAfter(st', loss, opts, k, n) == None
  {
    hide InvStack, InvValues, InvEnds, Retains, Next, Enabled, Spares, ReadAfter, Read;
    var append := CommitOne(st, k, v, p, opts);
    NextKeeps(st, append, opts);
    var st1 := Next(st, append, opts);
    var crash := CrashNow(st1, opts);
    NextKeeps(st1, crash, opts);
    var st2 := Next(st1, crash, opts);
    var rest := PinNow(st2, opts);
    FirstEvent(st1, crash, rest, opts);
    FirstEvent(st, append, [crash] + rest, opts);
    es := [append] + ([crash] + rest);
    loss := PinIsLost(After(st2, rest, opts), k, p, opts);
  }
}
