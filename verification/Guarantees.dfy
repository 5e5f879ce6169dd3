/** What the store promises over every run. */
module Guarantees {
  import opened Types
  import opened History
  import opened Runs
  import opened Tree
  import opened Retention
  import opened Views
  import opened Engine
  import opened Invariance
  import opened GarbageCollection

  // ---------------------------------------------------------------- runs

  lemma {:induction false} EmptyLevels(n: nat)
    ensures AllRuns(seq(n, _ => [])) == []
  {
    if n > 0 {
      EmptyLevels(n - 1);
      assert seq(n, _ => [])[1..] == seq<seq<Run>>(n - 1, _ => []);
    }
  }

  /** A fresh store satisfies the invariant. */
  lemma InitIsInv(st: State, maxLevels: nat)
    requires Init(st, maxLevels)
    ensures Inv(st)
  {
    InitTree(st, maxLevels);
    hide InvTree, AllRuns, WfLevels;
  }

  lemma InitTree(st: State, maxLevels: nat)
    requires Init(st, maxLevels)
    ensures InvTree(st)
  {
    EmptyLevels(maxLevels);
  }

  /** The events can happen one after the other from `st`, and no power loss among them takes a value
      that the last open recovered and readers still reach (module Durability says when none does). */
  ghost predicate Legal(st: State, es: seq<Event>, opts: Options)
    requires Inv(st)
    decreases |es|
  {
    es == [] ||
    (Enabled(st, es[0], opts) && Spares(st, es[0]) &&
     (NextKeeps(st, es[0], opts); Legal(Next(st, es[0], opts), es[1..], opts)))
  }

  /** The state after a run; the invariant holds there, and the retained bound only rose. */
  ghost function After(st: State, es: seq<Event>, opts: Options): (st': State)
    requires Inv(st) && Legal(st, es, opts)
    ensures Inv(st') && Bound(st) <= Bound(st')
    decreases |es|
  {
    if es == [] then st
    else
      NextKeeps(st, es[0], opts);
      BoundMonotone(st, es[0], opts);
      After(Next(st, es[0], opts), es[1..], opts)
  }

  lemma FirstEvent(st: State, e: Event, es: seq<Event>, opts: Options)
    requires Ready(st, e, opts) && (NextKeeps(st, e, opts); Legal(Next(st, e, opts), es, opts))
    ensures Legal(st, [e] + es, opts)
    ensures (NextKeeps(st, e, opts); After(st, [e] + es, opts) == After(Next(st, e, opts), es, opts))
  {
    hide Inv, Enabled, Next;
    NextKeeps(st, e, opts);
    assert ([e] + es)[0] == e && ([e] + es)[1..] == es;
  }

  // ---------------------------------------------------------------- reads

  function Lookup(st: State, k: Key, s: SeqNo): Option<Ver>
    requires WfFrozen(st.flushed, st.frozen, |st.log|) && WfRuns(AllRuns(st.levels))
  {
    GetVersioned(st.log, st.flushed, st.frozen, AllRuns(st.levels), k, s)
  }

  /** A user's read: look the key up at `s`, then fetch the value. */
  function Read(st: State, k: Key, s: SeqNo): Option<seq<nat>>
    requires WfFrozen(st.flushed, st.frozen, |st.log|) && WfRuns(AllRuns(st.levels))
  {
    var r := Visible(Lookup(st, k, s));
    if r.None? then None else ValueOf(st.disk, r.value)
  }

  /** In every state such a run reaches, every read at or above the retained bound returns the
      history's value for that seqno, and its bytes can be fetched. */
  lemma ReadsAreExact(st: State, k: Key, s: SeqNo)
    requires Inv(st) && Bound(st) <= s <= |st.log|
    ensures Visible(Lookup(st, k, s)) == ValueAt(st.log, k, s)
    ensures Read(st, k, s).Some? <==> ValueAt(st.log, k, s).Some?
    ensures ValueAt(st.log, k, s).Some? ==> Read(st, k, s) == ValueOf(st.disk, ValueAt(st.log, k, s).value)
  {
    ViewReadExact(st.log, st.flushed, st.frozen, AllRuns(st.levels), Bound(st), k, s);
    var n := Newest(st.log, k, s);
    if n > 0 { assert Resolvable(st.disk, st.log[n - 1].op); }
  }

  /** The conflict check's primitive: the lookup without a seqno limit finds a version newer than a
      held snapshot exactly when the history has one, dropped tombstones notwithstanding. */
  lemma LatestIsExact(st: State, k: Key, snap: SeqNo)
    requires Inv(st) && Bound(st) <= snap <= |st.log|
    ensures var hit := Lookup(st, k, |st.log|);
      (hit.Some? && hit.value.at > snap) <==> exists n :: snap < n <= |st.log| && WroteKey(st.log, k, n)
  {
    ViewReadExact(st.log, st.flushed, st.frozen, AllRuns(st.levels), Bound(st), k, |st.log|);
    var n := Newest(st.log, k, |st.log|);
    if n > snap { assert WroteKey(st.log, k, n); }
  }

  // ---------------------------------------------------------------- snapshots

  /** `s` stays registered from `st` to the end of the run. */
  ghost predicate Held(st: State, es: seq<Event>, opts: Options, s: SeqNo)
    requires Inv(st) && Legal(st, es, opts)
    decreases |es|
  {
    s in st.snaps &&
    (es == [] || (NextKeeps(st, es[0], opts); Held(Next(st, es[0], opts), es[1..], opts, s)))
  }

  /** One event changes neither the history a held snapshot sees nor any value it can fetch. */
  lemma StepKeepsPast(st: State, e: Event, opts: Options, s: SeqNo)
    requires Ready(st, e, opts) && s in st.snaps && s in Next(st, e, opts).snaps
    ensures s <= |st.log| && s <= |Next(st, e, opts).log| && st.log[..s] == Next(st, e, opts).log[..s]
    ensures forall p :: p in st.disk && p in Next(st, e, opts).disk ==> Next(st, e, opts).disk[p] == st.disk[p]
  {
    hide InvStack, InvPlatter, InvEnds, InvValues, Retains, RunOf, Next;
    NextKeeps(st, e, opts);
    if IsCrash(e) {
      CrashFrame(st, e, opts);
      assert st.log[..Left(st, e)][..s] == st.log[..s];
    } else {
      LogGrows(st, e, opts);
      assert Next(st, e, opts).log[..|st.log|] == st.log;
      assert Next(st, e, opts).log[..|st.log|][..s] == Next(st, e, opts).log[..s];
    }
    ValuesStay(st, e, opts);
  }

  lemma LogGrows(st: State, e: Event, opts: Options)
    requires Ready(st, e, opts) && !IsCrash(e)
    ensures st.log <= Next(st, e, opts).log
  {
  }

  lemma ValuesStay(st: State, e: Event, opts: Options)
    requires Ready(st, e, opts)
    ensures forall p :: p in st.disk && p in Next(st, e, opts).disk ==> Next(st, e, opts).disk[p] == st.disk[p]
  {
    hide InvStack, InvPlatter, InvEnds, InvValues, Retains, RunOf;
  }

  lemma StepKeepsRead(st: State, e: Event, opts: Options, s: SeqNo, k: Key)
    requires Ready(st, e, opts) && s in st.snaps && s in Next(st, e, opts).snaps
    ensures Inv(Next(st, e, opts)) && Read(Next(st, e, opts), k, s) == Read(st, k, s)
  {
    NextKeeps(st, e, opts);
    var st' := Next(st, e, opts);
    StepKeepsPast(st, e, opts, s);
    ReadsAreExact(st, k, s);
    ReadsAreExact(st', k, s);
    NewestPrefix(st.log, st'.log, k, s);
    SameValue(st.disk, st'.disk, ValueAt(st.log, k, s));
  }

  lemma SameValue(disk: map<ValuePtr, seq<nat>>, disk': map<ValuePtr, seq<nat>>, r: Option<Repr>)
    requires forall p :: p in disk && p in disk' ==> disk'[p] == disk[p]
    ensures r.Some? && ValueOf(disk, r.value).Some? && ValueOf(disk', r.value).Some? ==>
      ValueOf(disk', r.value) == ValueOf(disk, r.value)
  {
  }

  /** A registered snapshot reads the same bytes for as long as it is held, whatever commits,
      flushes, compactions, GC passes and (for a pin) crashes run meanwhile, power losses included that
      spare the recovered values still reached. */
  lemma {:induction false} SnapshotIsStable(st: State, es: seq<Event>, opts: Options, s: SeqNo, k: Key)
    requires Inv(st) && Legal(st, es, opts) && Held(st, es, opts, s)
    ensures Read(After(st, es, opts), k, s) == Read(st, k, s)
    decreases |es|
  {
    if es != [] {
      NextKeeps(st, es[0], opts);
      StepKeepsRead(st, es[0], opts, s, k);
      SnapshotIsStable(Next(st, es[0], opts), es[1..], opts, s, k);
    }
  }

  // ---------------------------------------------------------------- granting snapshots

  datatype Grant = Granted | NotCommitted | NotRetained

  /** `try_register_snapshot_at`, with the visible seqno and the snapshot list it reads. */
  function TryRegister(st: State, s: SeqNo): Grant {
    if s > |st.log| then NotCommitted
    else if s < Watermark(st) && s != |st.log| then NotRetained
    else Granted
  }

  /** What it grants is intact and may be registered; and a seqno at or above a held snapshot is
      never refused, which is all a rolling hold needs. */
  lemma GrantsAreSound(st: State, s: SeqNo, opts: Options)
    requires Inv(st)
    ensures TryRegister(st, s).Granted? ==> Enabled(st, Register(s), opts)
    ensures s <= |st.log| && (exists r :: r in st.snaps && r <= s) ==> TryRegister(st, s).Granted?
    ensures TryRegister(st, s).Granted? <==>
      s <= |st.log| && (s == |st.log| || exists r :: r in st.snaps && r <= s)
  {
    var w := Watermark(st);
    if w in st.snaps { assert exists r :: r in st.snaps && r <= w; }
  }

  /** The refusal is conservative: with no snapshot held, a flushed but not visible-most state is
      intact and still refused. */
  lemma RefusalIsConservative(st: State, s: SeqNo)
    requires Inv(st) && st.snaps == multiset{} && st.flushed <= s < |st.log|
    ensures TryRegister(st, s).NotRetained? && Bound(st) <= s
  {
  }

  /** The other registration sites: the current state, a fork's head cut, and a subscription's pin
      moving up from one it holds. */
  lemma RegistrationSites(st: State, opts: Options, pinned: SeqNo, last: SeqNo)
    requires Inv(st)
    ensures Enabled(st, Register(|st.log|), opts)
    ensures Enabled(st, Register(st.flushed), opts)
    ensures pinned in st.snaps && pinned <= last <= |st.log| ==> Enabled(st, Register(last), opts)
  {
  }

  /** The watermark itself is not monotone: registering a snapshot at the visible seqno moves it
      down when none was held, while the retained bound stays where it was. */
  lemma WatermarkDrops(st: State, opts: Options)
    requires Inv(st) && st.snaps == multiset{}
    ensures Enabled(st, Register(|st.log|), opts)
    ensures Watermark(Next(st, Register(|st.log|), opts)) < Watermark(st)
    ensures Bound(Next(st, Register(|st.log|), opts)) == Bound(st)
  {
  }
}
