/** Value-log GC and crash recovery keep the store's invariant. */
module GarbageCollection {
  import opened Types
  import opened History
  import opened Tree
  import opened Retention
  import opened Engine
  import opened Invariance

  // ---------------------------------------------------------------- relocation

  /** Every relocated op rewrites a live record of the batch at the place chosen for it. */
  lemma {:induction false} RelocationsExact(h: Log, batch: seq<Record>, placed: seq<Repr>, w: Write)
    requires |placed| == |batch|
    ensures w in Relocations(h, batch, placed) <==>
      exists i :: 0 <= i < |batch| && LiveRecord(h, batch[i]) && w == Write(batch[i].key, Put(placed[i]))
  {
    if batch != [] {
      var rest, pr := batch[1..], placed[1..];
      RelocationsExact(h, rest, pr, w);
      if w in Relocations(h, rest, pr) {
        var i :| 0 <= i < |rest| && LiveRecord(h, rest[i]) && w == Write(rest[i].key, Put(pr[i]));
        assert batch[i + 1] == rest[i] && placed[i + 1] == pr[i];
      }
      if i :| 0 <= i < |batch| && LiveRecord(h, batch[i]) && w == Write(batch[i].key, Put(placed[i])) {
        if i > 0 { assert rest[i - 1] == batch[i] && pr[i - 1] == placed[i]; }
      }
    }
  }

  /** After a batch is relocated, what still points into the victim is a record still to do. */
  lemma RelocateTodo(st: State, e: Event, opts: Options, k: Key)
    requires Ready(st, e, opts) && e.GcRelocate?
    ensures var st' := Next(st, e, opts); KeyCovered(st'.log, st.gc.value.victim, st'.gc.value.todo, k)
  {
    hide Retains, RunningOk, ResolvableFrom, CleanFrom;
    var st', g := Next(st, e, opts), st.gc.value;
    var ops := Relocations(st.log, e.batch, e.placed);
    var n := Newest(st'.log, k, |st'.log|);
    NewestOfExtended(st.log, ops, k, |st'.log|);
    if n > |st.log| {
      var op := st'.log[n - 1].op;
      assert op.Put? && op.repr.Pointer? ==> op.repr.ptr.file == st.head;
    } else if n > 0 {
      assert KeyCovered(st.log, g.victim, g.todo, k);
      OldNewest(st.log, ops, k);
      if PointsInto(st'.log[n - 1].op, g.victim) {
        NotInBatch(st.log, e.batch, e.placed, Record(k, st.log[n - 1].op.repr.ptr));
      }
    }
  }

  /** A live record of the batch is rewritten, so its key's newest version is a new op. */
  lemma NotInBatch(h: Log, batch: seq<Record>, placed: seq<Repr>, r: Record)
    requires |placed| == |batch| && LiveRecord(h, r)
    requires var h' := h + Relocations(h, batch, placed); Newest(h', r.key, |h'|) <= |h|
    ensures r !in batch
  {
    if i :| 0 <= i < |batch| && batch[i] == r {
      var w := Write(r.key, Put(placed[i]));
      RelocationsExact(h, batch, placed, w);
      WrittenIsNewer(h, Relocations(h, batch, placed), r.key, w);
    }
  }

  lemma OldNewest(h: Log, ops: seq<Write>, k: Key)
    requires Newest(h + ops, k, |h + ops|) <= |h|
    ensures Newest(h + ops, k, |h + ops|) == Newest(h, k, |h|)
  {
    NewestOfExtended(h, ops, k, |h + ops|);
    if |ops| == 0 { assert h + ops == h; }
  }

  lemma WrittenIsNewer(h: Log, ops: seq<Write>, k: Key, w: Write)
    requires w in ops && w.key == k
    ensures Newest(h + ops, k, |h + ops|) > |h|
  {
    var i :| 0 <= i < |ops| && ops[i] == w;
    assert WroteKey(h + ops, k, |h| + i + 1);
  }

  lemma RelocateKeeps(st: State, e: Event, opts: Options)
    requires Ready(st, e, opts) && e.GcRelocate?
    ensures Inv(Next(st, e, opts))
  {
    var st' := Next(st, e, opts);
    var ops := Relocations(st.log, e.batch, e.placed);
    StackFrame(st, st');
    assert st.log[..st.flushed] == st'.log[..st.flushed];
    TreeFrame(st, st');
    ExtendValues(st, ops, e.records);
    PlatterExtended(st, st', ops, e.records);
    forall k ensures KeyCovered(st'.log, st.gc.value.victim, st'.gc.value.todo, k) {
      RelocateTodo(st, e, opts, k);
    }
  }

  /** Relocation changes where values live, never what a key's value is. */
  lemma RelocationPreservesValues(st: State, e: Event, opts: Options, k: Key)
    requires Ready(st, e, opts) && e.GcRelocate?
    ensures var st' := Next(st, e, opts);
      var was, now := ValueAt(st.log, k, |st.log|), ValueAt(st'.log, k, |st'.log|);
      (was.Some? <==> now.Some?) &&
      (was.Some? ==> ValueOf(st.disk, was.value).Some? &&
                     ValueOf(st'.disk, now.value) == ValueOf(st.disk, was.value))
  {
    var n := Newest(st.log, k, |st.log|);
    if n > 0 { assert Resolvable(st.disk, st.log[n - 1].op); }
    RelocatedValue(st.log, st.disk, e.batch, e.placed, e.records, st.head, k);
  }

  lemma RelocatedValue(h: Log, disk: map<ValuePtr, seq<nat>>, batch: seq<Record>, placed: seq<Repr>,
                       records: map<ValuePtr, seq<nat>>, head: nat, k: Key)
    requires |placed| == |batch| && Placed(Relocations(h, batch, placed), records, head, disk)
    requires forall i :: 0 <= i < |batch| && LiveRecord(h, batch[i]) && batch[i].ptr in disk ==>
      ValueOf(records, placed[i]) == Some(disk[batch[i].ptr])
    requires Newest(h, k, |h|) > 0 ==> Resolvable(disk, h[Newest(h, k, |h|) - 1].op)
    ensures var h' := h + Relocations(h, batch, placed);
      var was, now := ValueAt(h, k, |h|), ValueAt(h', k, |h'|);
      (was.Some? <==> now.Some?) &&
      (was.Some? ==> ValueOf(disk, was.value).Some? && ValueOf(disk + records, now.value) == ValueOf(disk, was.value))
  {
    var h' := h + Relocations(h, batch, placed);
    if Newest(h', k, |h'|) <= |h| {
      UntouchedKey(h, Relocations(h, batch, placed), k);
      KeptValue(disk, records, ValueAt(h, k, |h|));
    } else {
      var i := RewrittenKey(h, batch, placed, k);
      PlacedValue(disk, records, placed[i]);
    }
  }

  lemma UntouchedKey(h: Log, ops: seq<Write>, k: Key)
    requires Newest(h + ops, k, |h + ops|) <= |h|
    ensures ValueAt(h + ops, k, |h + ops|) == ValueAt(h, k, |h|)
  {
    OldNewest(h, ops, k);
  }

  lemma RewrittenKey(h: Log, batch: seq<Record>, placed: seq<Repr>, k: Key) returns (i: nat)
    requires |placed| == |batch|
    requires var h' := h + Relocations(h, batch, placed); Newest(h', k, |h'|) > |h|
    ensures i < |batch| && LiveRecord(h, batch[i])
    ensures ValueAt(h, k, |h|) == Some(Pointer(batch[i].ptr))
    ensures var h' := h + Relocations(h, batch, placed); ValueAt(h', k, |h'|) == Some(placed[i])
  {
    var ops := Relocations(h, batch, placed);
    var h' := h + ops;
    var n' := Newest(h', k, |h'|);
    NewestOfExtended(h, ops, k, |h'|);
    var w := h'[n' - 1];
    RelocationsExact(h, batch, placed, w);
    i :| 0 <= i < |batch| && LiveRecord(h, batch[i]) && w == Write(batch[i].key, Put(placed[i]));
    assert WroteKey(h', k, n');
  }

  lemma KeptValue(disk: map<ValuePtr, seq<nat>>, records: map<ValuePtr, seq<nat>>, r: Option<Repr>)
    requires forall p :: p in records ==> p !in disk
    requires r.Some? && r.value.Pointer? ==> r.value.ptr in disk
    ensures r.Some? ==> ValueOf(disk + records, r.value) == ValueOf(disk, r.value) && ValueOf(disk, r.value).Some?
  {
  }

  lemma PlacedValue(disk: map<ValuePtr, seq<nat>>, records: map<ValuePtr, seq<nat>>, r: Repr)
    requires ValueOf(records, r).Some?
    ensures ValueOf(disk + records, r) == ValueOf(records, r)
  {
  }

  // ---------------------------------------------------------------- retirement

  lemma GcStartKeeps(st: State, e: Event, opts: Options)
    requires Ready(st, e, opts) && e.GcStart?
    ensures Inv(Next(st, e, opts))
  {
    hide RunningOk, ChosenOk, Retains;
    var st' := Next(st, e, opts);
    StackFrame(st, st');
    TreeFrame(st, st');
    forall k ensures KeyCovered(st.log, e.victim, RecordsOf(st.log, e.victim), k) {
      var n := Newest(st.log, k, |st.log|);
      if n > 0 { assert st.log[n - 1].key == k; }
    }
  }

  lemma GcSyncKeeps(st: State, e: Event, opts: Options)
    requires Ready(st, e, opts) && e.GcSync?
    ensures Inv(Next(st, e, opts))
  {
    var st' := Next(st, e, opts);
    StackFrame(st, st');
    TreeFrame(st, st');
    PlatterSynced(st, st');
    forall k, s | |st.log| <= s <= |st.log| && Newest(st.log, k, s) > 0
      ensures !PointsInto(st.log[Newest(st.log, k, s) - 1].op, st.gc.value.victim)
    {
      assert KeyCovered(st.log, st.gc.value.victim, st.gc.value.todo, k);
    }
  }

  lemma GcRetireKeeps(st: State, e: Event, opts: Options)
    requires Ready(st, e, opts) && e.GcRetire?
    ensures Inv(Next(st, e, opts))
  {
    var st' := Next(st, e, opts);
    StackFrame(st, st');
    TreeFrame(st, st');
  }

  /** The two deletion gates put the retained bound at or above the retirement seqno. */
  lemma GatesRaiseBound(st: State, i: nat)
    requires i < |st.retired|
    requires Watermark(st) > st.retired[i].retiredAt && st.flushed >= st.retired[i].retiredAt
    ensures Bound(st) >= st.retired[i].retiredAt
  {
  }

  lemma ReleaseKeeps(st: State, e: Event, opts: Options)
    requires Ready(st, e, opts) && e.Release?
    ensures Inv(Next(st, e, opts))
  {
    hide RunningOk, ChosenOk, Retains, InvEnds, InPlaceSince;
    var st' := Next(st, e, opts);
    StackFrame(st, st');
    TreeFrame(st, st');
    ReleasePlatter(st, e, opts);
    hide InvTree, InvStack, InvPlatter;
    GatesRaiseBound(st, e.which);
    ReleaseResolves(st, st', e.which);
  }

  lemma ReleasePlatter(st: State, e: Event, opts: Options)
    requires Ready(st, e, opts) && e.Release?
    ensures InvPlatter(Next(st, e, opts)) && InvEnds(Next(st, e, opts))
  {
    hide InvStack, InvValues, Retains;
    forall n | st.adopted <= n < |st.log| ensures InPlaceSince(Next(st, e, opts), st.log[n].op, n < st.settled) {
      assert InPlaceSince(st, st.log[n].op, n < st.settled);
      assert st.retired[e.which].file < st.head by { ReleasedBelowHead(st, e.which); }
    }
  }

  lemma ReleasedBelowHead(st: State, i: nat)
    requires InvValues(st) && i < |st.retired|
    ensures st.retired[i].file < st.head
  {
    assert st.retired[i] in st.retired;
  }

  /** Nothing a reader at the raised bound reaches is in the file deleted. */
  lemma ReleaseResolves(st: State, st': State, i: nat)
    requires InvValues(st) && i < |st.retired| && st'.log == st.log && Bound(st) <= Bound(st')
    requires st.retired[i].retiredAt <= Bound(st')
    requires st'.disk == map p | p in st.disk && p.file != st.retired[i].file :: st.disk[p]
    ensures ResolvableFrom(st'.log, st'.disk, Bound(st'))
  {
    hide Bound, GcOk;
    var r := st.retired[i];
    assert r in st.retired;
    forall k, s | Bound(st') <= s <= |st'.log| && Newest(st'.log, k, s) > 0
      ensures Resolvable(st'.disk, st'.log[Newest(st'.log, k, s) - 1].op)
    {
      var op := st.log[Newest(st.log, k, s) - 1].op;
      assert Resolvable(st.disk, op) && !PointsInto(op, r.file);
    }
  }

  // ---------------------------------------------------------------- crash and reopen

  lemma PrefixNewest(h: Log, upTo: SeqNo, k: Key, s: SeqNo)
    requires s <= upTo <= |h|
    ensures Newest(h[..upTo], k, s) == Newest(h, k, s)
    ensures Newest(h, k, s) > 0 ==> h[..upTo][Newest(h, k, s) - 1] == h[Newest(h, k, s) - 1]
  {
    assert h[..upTo][..s] == h[..s];
    NewestPrefix(h, h[..upTo], k, s);
  }

  lemma PrefixClean(h: Log, upTo: SeqNo, file: nat, from: SeqNo)
    requires upTo <= |h| && CleanFrom(h, file, from)
    ensures CleanFrom(h[..upTo], file, from)
  {
    forall k, s | from <= s <= upTo && Newest(h[..upTo], k, s) > 0
      ensures !PointsInto(h[..upTo][Newest(h[..upTo], k, s) - 1].op, file)
    {
      PrefixNewest(h, upTo, k, s);
    }
  }

  predicate IsCrash(e: Event) {
    e.ProcessCrash? || e.PowerLoss?
  }

  /** How much of the history a crash leaves. */
  function Left(st: State, e: Event): (at: SeqNo)
    requires e.PowerLoss? ==> e.wal <= |st.log|
    ensures at <= |st.log|
  {
    if e.PowerLoss? then Replayed(st, e.kept, e.wal) else |st.log|
  }

  /** Replay ends at the end of a commit, at or after the settled seqno, with every value since the
      flush there; and no later end at or before the WAL's is such. */
  lemma ReplayedExact(st: State, kept: set<ValuePtr>, wal: SeqNo)
    requires Inv(st) && st.platter <= kept && st.settled <= wal <= |st.log|
    ensures var at := Replayed(st, kept, wal);
      st.settled <= at && at in st.ends && Whole(st.log, kept, st.flushed, at) &&
      forall b :: at < b <= wal && b in st.ends ==> !Whole(st.log, kept, st.flushed, b)
  {
    SettledIsWhole(st, kept);
    ReplayedSearch(st, kept, wal);
  }

  lemma {:induction false} ReplayedSearch(st: State, kept: set<ValuePtr>, wal: SeqNo)
    requires st.flushed <= st.settled <= wal <= |st.log| && st.settled in st.ends
    requires Whole(st.log, kept, st.flushed, st.settled)
    ensures var at := Replayed(st, kept, wal);
      st.settled <= at && at in st.ends && Whole(st.log, kept, st.flushed, at) &&
      forall b :: at < b <= wal && b in st.ends ==> !Whole(st.log, kept, st.flushed, b)
    decreases wal
  {
    if wal > st.settled && !(wal in st.ends && Whole(st.log, kept, st.flushed, wal)) {
      ReplayedSearch(st, kept, wal - 1);
    }
  }

  /** An op above the retained bound still has its value, and a settled one has it on the platter. */
  lemma SettledIsWhole(st: State, kept: set<ValuePtr>)
    requires Inv(st) && st.platter <= kept
    ensures Whole(st.log, kept, st.flushed, st.settled)
  {
    forall n | st.flushed <= n < st.settled ensures !Lost(st.log[n].op, kept) {
      RecentOpsResolve(st, n + 1);
      assert InPlaceSince(st, st.log[n].op, true);
    }
  }

  /** Every committed op above the retained bound still has its value: this is what keeps queued
      stream entries and replayable WAL records resolvable. */
  lemma RecentOpsResolve(st: State, n: SeqNo)
    requires Inv(st) && Bound(st) <= n <= |st.log| && n > 0
    ensures Resolvable(st.disk, st.log[n - 1].op)
  {
    var k := st.log[n - 1].key;
    assert WroteKey(st.log, k, n);
    NewestIs(st.log, k, n, n);
    assert Newest(st.log, k, n) > 0;
  }

  /** What a crash leaves of the history, the values and the files being collected. */
  lemma CrashFrame(st: State, e: Event, opts: Options)
    requires Inv(st) && Enabled(st, e, opts) && IsCrash(e)
    ensures var st', at := Next(st, e, opts), Left(st, e);
      st'.log == st.log[..at] && Bound(st') == Least(st.pins, at) && Bound(st) <= Bound(st') <= at &&
      st.settled <= at && st'.settled == at && st'.head == st.nextId + 1 < st'.nextId && st'.gc.None? &&
      st'.retired == st.retired && st'.disk.Keys == if e.PowerLoss? then e.kept else st.disk.Keys
  {
    BoundMonotone(st, e, opts);
    if e.PowerLoss? { ReplayedExact(st, e.kept, e.wal); }
  }

  /** A crash loses no value committed since the open before and still in the history: it is in the
      replayed part, or it was settled. */
  lemma RecentSurvives(st: State, e: Event, opts: Options, n: SeqNo)
    requires Inv(st) && Enabled(st, e, opts) && e.PowerLoss? && st.adopted < n <= Left(st, e)
    requires Resolvable(st.disk, st.log[n - 1].op)
    ensures !Lost(st.log[n - 1].op, e.kept)
  {
    ReplayedExact(st, e.kept, e.wal);
    assert InPlaceSince(st, st.log[n - 1].op, n - 1 < st.settled);
    if n > st.flushed { assert !Lost(st.log[n - 1].op, e.kept); }
  }

  /** A reader's value after a crash: whether the power loss spared it, if the open before had
      recovered it. */
  lemma CrashResolvable(st: State, e: Event, opts: Options, k: Key, s: SeqNo)
    requires Inv(st) && Enabled(st, e, opts) && IsCrash(e)
    requires var at := Left(st, e); Least(st.pins, at) <= s <= at && Newest(st.log, k, s) > 0
    ensures var st', n := Next(st, e, opts), Newest(st.log, k, s);
      Newest(st'.log, k, s) == n && st'.log[n - 1] == st.log[n - 1]
    ensures var n := Newest(st.log, k, s);
      Resolvable(Next(st, e, opts).disk, st.log[n - 1].op) <==>
      (n <= st.adopted && e.PowerLoss? ==> !Lost(st.log[n - 1].op, e.kept))
  {
    hide InvTree, InvStack, InvPlatter, InvEnds, Next;
    var n := Newest(st.log, k, s);
    CrashFrame(st, e, opts);
    PrefixNewest(st.log, Left(st, e), k, s);
    assert Resolvable(st.disk, st.log[n - 1].op);
    if e.PowerLoss? && n > st.adopted { RecentSurvives(st, e, opts, n); }
  }

  lemma CrashRetired(st: State, e: Event, opts: Options)
    requires Inv(st) && Enabled(st, e, opts) && IsCrash(e)
    ensures var st' := Next(st, e, opts);
      InvValues(st') <==> ResolvableFrom(st'.log, st'.disk, Bound(st'))
  {
    hide InvTree, InvStack, InvPlatter, InvEnds, Next, ResolvableFrom;
    CrashFrame(st, e, opts);
    forall r | r in st.retired ensures CleanFrom(st.log[..Left(st, e)], r.file, r.clean) {
      PrefixClean(st.log, Left(st, e), r.file, r.clean);
    }
  }

  lemma SparedResolves(st: State, e: Event, opts: Options)
    requires Inv(st) && Enabled(st, e, opts) && IsCrash(e) && Spares(st, e)
    ensures var st' := Next(st, e, opts); ResolvableFrom(st'.log, st'.disk, Bound(st'))
  {
    hide InvStack, InvPlatter, InvEnds, InvValues, Next, Resolvable, Lost, Retains;
    var st', at := Next(st, e, opts), Left(st, e);
    CrashFrame(st, e, opts);
    forall k, s | Bound(st') <= s <= at && Newest(st'.log, k, s) > 0
      ensures Resolvable(st'.disk, st'.log[Newest(st'.log, k, s) - 1].op)
    {
      PrefixNewest(st.log, at, k, s);
      CrashResolvable(st, e, opts, k, s);
    }
  }

  lemma ResolvesSpared(st: State, e: Event, opts: Options)
    requires Inv(st) && Enabled(st, e, opts) && IsCrash(e)
    requires var st' := Next(st, e, opts); ResolvableFrom(st'.log, st'.disk, Bound(st'))
    ensures Spares(st, e)
  {
    hide InvStack, InvPlatter, InvEnds, InvValues, Next, Resolvable, Lost, Retains;
    var st', at := Next(st, e, opts), Left(st, e);
    CrashFrame(st, e, opts);
    if e.PowerLoss? {
      forall k, s | Least(st.pins, at) <= s <= at && 0 < Newest(st.log, k, s) <= st.adopted
        ensures !Lost(st.log[Newest(st.log, k, s) - 1].op, e.kept)
      {
        CrashResolvable(st, e, opts, k, s);
        assert Resolvable(st'.disk, st'.log[Newest(st'.log, k, s) - 1].op);
      }
    }
  }

  /** A crash keeps the values readers can reach exactly if a power loss spares them. */
  lemma CrashValues(st: State, e: Event, opts: Options)
    requires Inv(st) && Enabled(st, e, opts) && IsCrash(e)
    ensures InvValues(Next(st, e, opts)) <==> Spares(st, e)
  {
    hide InvStack, InvPlatter, InvEnds, InvValues, Next, ResolvableFrom, Spares, Retains;
    CrashRetired(st, e, opts);
    if Spares(st, e) { SparedResolves(st, e, opts); }
    if ResolvableFrom(Next(st, e, opts).log, Next(st, e, opts).disk, Bound(Next(st, e, opts))) {
      ResolvesSpared(st, e, opts);
    }
  }

  lemma CrashTree(st: State, e: Event, opts: Options)
    requires Inv(st) && Enabled(st, e, opts) && IsCrash(e)
    ensures InvTree(Next(st, e, opts))
  {
    var st', at := Next(st, e, opts), Left(st, e);
    BoundMonotone(st, e, opts);
    FlushWf(st.levels, e.run, st.log, st.flushed, at, Bound(st), st.nextId);
    FlushRetains(AllRuns(st.levels), e.run, st.log, st.flushed, at, Bound(st), st.nextId);
    RaiseBound(AllRuns(st'.levels), st.log, at, Bound(st), Bound(st'));
    assert st'.log[..at] == st.log[..at];
    GrowHistory(AllRuns(st'.levels), st.log, st'.log, at, Bound(st'));
  }

  lemma CrashBounds(st: State, e: Event, opts: Options)
    requires Inv(st) && Enabled(st, e, opts) && IsCrash(e)
    ensures var st' := Next(st, e, opts); InvBounds(st') && InvEnds(st') && InvStack(st') && InvPlatter(st')
  {
    if e.PowerLoss? { ReplayedExact(st, e.kept, e.wal); }
  }

  /** A process crash keeps the invariant; a power loss keeps it if and only if it spares what the
      open before had recovered and the retained states still reach. */
  lemma CrashKeeps(st: State, e: Event, opts: Options)
    requires Inv(st) && Enabled(st, e, opts) && IsCrash(e)
    ensures Inv(Next(st, e, opts)) <==> Spares(st, e)
  {
    hide InvTree, InvValues, InvStack, InvBounds, InvPlatter, Spares, Enabled;
    CrashTree(st, e, opts);
    CrashBounds(st, e, opts);
    CrashValues(st, e, opts);
  }

  // ---------------------------------------------------------------- every event

  lemma NextKeeps(st: State, e: Event, opts: Options)
    requires Ready(st, e, opts)
    ensures Inv(Next(st, e, opts))
  {
    if Quiet(e) {
      QuietKeeps(st, e, opts);
    } else {
      match e {
        case Commit(_, _) => CommitKeeps(st, e, opts);
        case FlushOldest(_) => FlushKeeps(st, e, opts);
        case GcStart(_) => GcStartKeeps(st, e, opts);
        case GcRelocate(_, _, _) => RelocateKeeps(st, e, opts);
        case GcSync => GcSyncKeeps(st, e, opts);
        case GcRetire => GcRetireKeeps(st, e, opts);
        case Release(_) => ReleaseKeeps(st, e, opts);
        case ProcessCrash(_) => CrashKeeps(st, e, opts);
        case PowerLoss(_, _, _) => CrashKeeps(st, e, opts);
        case _ => SchedulerKeeps(st, e, opts);
      }
    }
  }
}
