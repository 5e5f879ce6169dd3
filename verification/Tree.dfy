/** The levels, what the picker chooses from them, and what installing the choice does to them. */
module Tree {
  import opened Sequences
  import opened Types
  import opened Runs

  /** Levels hold runs newest first. */
  type Levels = seq<seq<Run>>

  datatype Options = Options(l0Trigger: nat, tierWidth: nat, memtableSize: nat, tableBytes: nat -> nat)

  const MAX_DYNAMIC_LEVELS := 16

  const U64_MAX := 0xffff_ffff_ffff_ffff

  datatype JobKind =
    | Tier
    | BottomSplice(baseId: nat, keepLeft: seq<Table>, keepRight: seq<Table>, newRunId: nat)

  /** A rewrite: its inputs, and the runs that will sit behind (older than) its output. */
  datatype Job = Job(level: nat, target: nat, inputs: seq<Run>, older: seq<Run>, kind: JobKind)

  datatype Work = Rewrite(job: Job) | Deepen(level: nat, runs: seq<Run>)

  /** All runs, newest level first. */
  function AllRuns(levels: Levels): seq<Run> {
    if levels == [] then [] else levels[0] + AllRuns(levels[1..])
  }

  // ---------------------------------------------------------------- the picker

  function Trigger(opts: Options, force: bool, level: nat): nat {
    if force then 2 else if level == 0 then opts.l0Trigger else opts.tierWidth
  }

  /** The first level from `from` and below `limit` that reached its trigger. */
  function FirstEligible(levels: Levels, opts: Options, force: bool, from: nat, limit: nat): (l: Option<nat>)
    requires from <= limit <= |levels|
    ensures l.Some? ==> from <= l.value < limit && |levels[l.value]| >= Trigger(opts, force, l.value)
    ensures forall i :: from <= i < (if l.Some? then l.value else limit) ==>
      |levels[i]| < Trigger(opts, force, i)
    decreases limit - from
  {
    if from == limit then None
    else if |levels[from]| >= Trigger(opts, force, from) then Some(from)
    else FirstEligible(levels, opts, force, from + 1, limit)
  }

  function PickTier(levels: Levels, level: nat): Job
    requires level + 1 < |levels|
  {
    Job(level, level + 1, levels[level], AllRuns(levels[level + 1..]), Tier)
  }

  /** Normal-trigger work strictly above level `before`. */
  function PickBefore(levels: Levels, opts: Options, before: nat): Option<Job>
    requires levels != []
  {
    var last := |levels| - 1;
    var l := FirstEligible(levels, opts, false, 0, if before < last then before else last);
    if l.None? then None else Some(PickTier(levels, l.value))
  }

  /** The byte budget of a level: one L0 merge's volume times `tier_width` per level, saturating. */
  function LevelTargetBytes(opts: Options, level: nat): nat {
    if level == 0 then Max(Min(opts.memtableSize * opts.l0Trigger, U64_MAX), 1)
    else Min(LevelTargetBytes(opts, level - 1) * Max(opts.tierWidth, 2), U64_MAX)
  }

  function TablesBytes(opts: Options, ts: seq<Table>): nat {
    if ts == [] then 0 else opts.tableBytes(ts[0].id) + TablesBytes(opts, ts[1..])
  }

  function LevelBytes(opts: Options, runs: seq<Run>): nat {
    if runs == [] then 0 else TablesBytes(opts, runs[0].tables) + LevelBytes(opts, runs[1..])
  }

  function LowKey(ts: seq<Table>): Key
    requires ts != [] && forall i :: 0 <= i < |ts| ==> WfTable(ts[i])
  {
    if |ts| == 1 then MinKey(ts[0])
    else var rest := LowKey(ts[1..]); if MinKey(ts[0]) <= rest then MinKey(ts[0]) else rest
  }

  function HighKey(ts: seq<Table>): Key
    requires ts != [] && forall i :: 0 <= i < |ts| ==> WfTable(ts[i])
  {
    if |ts| == 1 then MaxKey(ts[0])
    else var rest := HighKey(ts[1..]); if MaxKey(ts[0]) > rest then MaxKey(ts[0]) else rest
  }

  /** Base tables that end before `lo`. */
  function KeepLeft(ts: seq<Table>, lo: Key): seq<Table>
    requires WfTables(ts)
  {
    if ts == [] then []
    else if MaxKey(ts[0]) < lo then [ts[0]] + KeepLeft(TailTables(ts), lo)
    else KeepLeft(TailTables(ts), lo)
  }

  /** Base tables that start after `hi`, among those that do not end before `lo`. */
  function KeepRight(ts: seq<Table>, lo: Key, hi: Key): seq<Table>
    requires WfTables(ts)
  {
    if ts == [] then []
    else if MaxKey(ts[0]) >= lo && MinKey(ts[0]) > hi then [ts[0]] + KeepRight(TailTables(ts), lo, hi)
    else KeepRight(TailTables(ts), lo, hi)
  }

  function Overlapped(ts: seq<Table>, lo: Key, hi: Key): seq<Table>
    requires WfTables(ts)
  {
    if ts == [] then []
    else if MaxKey(ts[0]) >= lo && MinKey(ts[0]) <= hi then [ts[0]] + Overlapped(TailTables(ts), lo, hi)
    else Overlapped(TailTables(ts), lo, hi)
  }

  function TailTables(ts: seq<Table>): (r: seq<Table>)
    requires WfTables(ts) && ts != []
    ensures r == ts[1..] && WfTables(r)
  {
    assert forall i :: 0 <= i < |ts[1..]| ==> ts[1..][i] == ts[i + 1];
    ts[1..]
  }

  function PickSplice(levels: Levels, newRunId: nat): Job
    requires levels != [] && |levels[|levels| - 1]| >= 2
    requires WfRuns(levels[|levels| - 1])
    requires forall r :: r in levels[|levels| - 1] ==> r.tables != []
  {
    var last := |levels| - 1;
    var n := |levels[last]|;
    var upper, base := levels[last][n - 2], levels[last][n - 1];
    var lo, hi := LowKey(upper.tables), HighKey(upper.tables);
    Job(last, last, [upper, Run(base.id, Overlapped(base.tables, lo, hi))], [],
        BottomSplice(base.id, KeepLeft(base.tables, lo), KeepRight(base.tables, lo, hi), newRunId))
  }

  /** What the picker wants: tiers from the top, else deepening, else a bottom splice. */
  function Pick(levels: Levels, opts: Options, force: bool, newRunId: nat): Option<Work>
    requires WfLevels(levels)
  {
    var last := |levels| - 1;
    var l := FirstEligible(levels, opts, force, 0, last);
    if l.Some? then Some(Rewrite(PickTier(levels, l.value)))
    else
      var crowdedSingle := last == 0 && |levels[last]| >= 2;
      var overBudget := !force && LevelBytes(opts, levels[last]) > LevelTargetBytes(opts, last);
      if |levels| < MAX_DYNAMIC_LEVELS && levels[last] != [] && (crowdedSingle || overBudget)
      then Some(Deepen(last, levels[last]))
      else if |levels[last]| >= 2 then
        LevelRuns(levels, last);
        Some(Rewrite(PickSplice(levels, newRunId)))
      else None
  }

  // ---------------------------------------------------------------- installing

  predicate HasId(rs: seq<Run>, id: nat) {
    exists r :: r in rs && r.id == id
  }

  /** `retain(|r| !ids.contains(r.id))`. */
  function Retain(level: seq<Run>, gone: seq<Run>): seq<Run> {
    if level == [] then []
    else if HasId(gone, level[0].id) then Retain(level[1..], gone)
    else [level[0]] + Retain(level[1..], gone)
  }

  function Splice(kind: JobKind, output: Option<Run>): seq<Run>
    requires kind.BottomSplice?
  {
    var ts := kind.keepLeft + (if output.Some? then output.value.tables else []) + kind.keepRight;
    if ts == [] then [] else [Run(kind.newRunId, ts)]
  }

  /** Remove exactly the pinned inputs and put the output where the job's kind says. */
  function Install(levels: Levels, job: Job, output: Option<Run>): Levels
    requires job.level < |levels| && job.target < |levels|
  {
    var left := levels[job.level := Retain(levels[job.level], job.inputs)];
    match job.kind
    case Tier => if output.Some? then left[job.target := [output.value] + left[job.target]] else left
    case BottomSplice(baseId, _, _, _) =>
      left[job.level := Retain(left[job.level], [Run(baseId, [])]) + Splice(job.kind, output)]
  }

  /** Move the bottom's pinned runs into a level created below it. */
  function InstallDeepen(levels: Levels, level: nat, runs: seq<Run>): Levels
    requires level < |levels|
  {
    levels[level := Retain(levels[level], runs)] + [runs]
  }

  // ---------------------------------------------------------------- invariants

  predicate DistinctIds(rs: seq<Run>) {
    forall i, j :: 0 <= i < j < |rs| ==> rs[i].id != rs[j].id
  }

  predicate WfTree(rs: seq<Run>) {
    WfRuns(rs) && NewestFirst(rs) && DistinctIds(rs) && forall r :: r in rs ==> r.tables != []
  }

  predicate WfLevels(levels: Levels) {
    levels != [] && WfTree(AllRuns(levels))
  }

  /** `s` ends with `t`. */
  predicate EndsWith<T(==)>(s: seq<T>, t: seq<T>) {
    |t| <= |s| && s[|s| - |t|..] == t
  }

  /** Every key of `r` falls after all of `left` and before all of `right`. */
  predicate Between(left: seq<Table>, r: Run, right: seq<Table>)
    requires WfTables(left) && WfTables(right)
  {
    forall v :: v in Ents(r) ==>
      (forall t :: t in left ==> MaxKey(t) < v.key) && (forall t :: t in right ==> v.key < MinKey(t))
  }

  /** The base run a splice job consumes. */
  function SpliceBase(job: Job): Run
    requires job.kind.BottomSplice? && |job.inputs| == 2
  {
    Run(job.kind.baseId, job.kind.keepLeft + job.inputs[1].tables + job.kind.keepRight)
  }

  /** The runs the job will take out of the tree. */
  function Consumed(job: Job): seq<Run>
    requires job.kind.BottomSplice? ==> |job.inputs| == 2
  {
    if job.kind.Tier? then job.inputs else [job.inputs[0], SpliceBase(job)]
  }

  /** The job's inputs and its `older` set are still where they were pinned. */
  predicate InPlace(levels: Levels, job: Job) {
    job.level < |levels| &&
    match job.kind
    case Tier =>
      job.target == job.level + 1 < |levels| &&
      EndsWith(levels[job.level], job.inputs) && AllRuns(levels[job.target..]) == job.older
    case BottomSplice(baseId, keepLeft, keepRight, newRunId) =>
      job.target == job.level == |levels| - 1 && |job.inputs| == 2 && job.older == [] &&
      job.inputs[1].id == baseId && EndsWith(levels[job.level], Consumed(job)) &&
      WfTables(keepLeft) && WfTables(keepRight) && Between(keepLeft, job.inputs[0], keepRight)
  }

  // ---------------------------------------------------------------- list algebra

  lemma {:induction false} AllRunsConcat(a: Levels, b: Levels)
    ensures AllRuns(a + b) == AllRuns(a) + AllRuns(b)
  {
    if a == [] {
      assert a + b == b;
    } else {
      AllRunsConcat(a[1..], b);
      assert (a + b)[1..] == a[1..] + b;
      assert (a[0] + AllRuns(a[1..])) + AllRuns(b) == a[0] + (AllRuns(a[1..]) + AllRuns(b));
    }
  }

  /** Split the tree around level `l`. */
  lemma AllRunsSplit(levels: Levels, l: nat)
    requires l < |levels|
    ensures AllRuns(levels) == AllRuns(levels[..l]) + levels[l] + AllRuns(levels[l + 1..])
  {
    AllRunsDrop(levels, l);
    AllRunsTake(levels, l);
    Assoc(AllRuns(levels[..l]), levels[l], AllRuns(levels[l + 1..]));
  }

  lemma AllRunsTake(levels: Levels, l: nat)
    requires l <= |levels|
    ensures AllRuns(levels) == AllRuns(levels[..l]) + AllRuns(levels[l..])
  {
    assert levels == levels[..l] + levels[l..];
    AllRunsConcat(levels[..l], levels[l..]);
  }

  lemma AllRunsDrop(levels: Levels, l: nat)
    requires l < |levels|
    ensures AllRuns(levels[l..]) == levels[l] + AllRuns(levels[l + 1..])
  {
    assert levels[l..][1..] == levels[l + 1..];
  }

  lemma SubTree(a: seq<Run>, m: seq<Run>, b: seq<Run>)
    requires WfTree(a + m + b)
    ensures WfTree(m)
  {
    var all := a + m + b;
    assert forall i :: 0 <= i < |m| ==> m[i] == all[|a| + i];
    forall i, j | 0 <= i < j < |m| ensures Newer(m[i], m[j]) && m[i].id != m[j].id {
      assert Newer(all[|a| + i], all[|a| + j]);
      assert all[|a| + i].id != all[|a| + j].id;
    }
  }

  lemma LevelRuns(levels: Levels, l: nat)
    requires WfLevels(levels) && l < |levels|
    ensures WfTree(levels[l])
  {
    AllRunsSplit(levels, l);
    SubTree(AllRuns(levels[..l]), levels[l], AllRuns(levels[l + 1..]));
  }

  lemma {:induction false} RetainConcat(a: seq<Run>, b: seq<Run>, gone: seq<Run>)
    ensures Retain(a + b, gone) == Retain(a, gone) + Retain(b, gone)
  {
    if a == [] {
      assert a + b == b;
    } else {
      RetainConcat(a[1..], b, gone);
      assert (a + b)[1..] == a[1..] + b;
    }
  }

  lemma {:induction false} RetainNone(level: seq<Run>, gone: seq<Run>)
    requires forall r :: r in level ==> !HasId(gone, r.id)
    ensures Retain(level, gone) == level
  {
    if level != [] { RetainNone(level[1..], gone); }
  }

  lemma {:induction false} RetainAll(level: seq<Run>, gone: seq<Run>)
    requires forall r :: r in level ==> HasId(gone, r.id)
    ensures Retain(level, gone) == []
  {
    if level != [] { RetainAll(level[1..], gone); }
  }

  /** Retaining by id removes exactly the pinned suffix. */
  lemma RetainPinned(newer: seq<Run>, pinned: seq<Run>, gone: seq<Run>)
    requires DistinctIds(newer + pinned)
    requires |gone| == |pinned| && forall i :: 0 <= i < |gone| ==> gone[i].id == pinned[i].id
    ensures Retain(newer + pinned, gone) == newer
  {
    forall r | r in newer ensures !HasId(gone, r.id) {
      var i :| 0 <= i < |newer| && newer[i] == r;
      forall g | g in gone ensures g.id != r.id {
        var j :| 0 <= j < |gone| && gone[j] == g;
        assert (newer + pinned)[i].id != (newer + pinned)[|newer| + j].id;
      }
    }
    forall r | r in pinned ensures HasId(gone, r.id) {
      var j :| 0 <= j < |pinned| && pinned[j] == r;
      assert gone[j] in gone;
    }
    RetainConcat(newer, pinned, gone);
    RetainNone(newer, gone);
    RetainAll(pinned, gone);
  }

  // ---------------------------------------------------------------- what an install does

  /** What takes the place of the consumed runs. */
  function Produced(job: Job, output: Option<Run>): seq<Run> {
    if job.kind.Tier? then (if output.Some? then [output.value] else []) else Splice(job.kind, output)
  }

  /** An install replaces the consumed runs, in place, by what the job produced; everything older
      than the consumed runs is the job's `older` set. */
  lemma InstallReplaces(levels: Levels, job: Job, output: Option<Run>) returns (a: seq<Run>)
    requires WfLevels(levels) && InPlace(levels, job)
    ensures AllRuns(levels) == a + Consumed(job) + job.older
    ensures AllRuns(Install(levels, job, output)) == a + Produced(job, output) + job.older
    ensures |Install(levels, job, output)| == |levels|
    ensures Install(levels, job, output)[..job.level] == levels[..job.level]
  {
    var level, pinned := levels[job.level], Consumed(job);
    var newer := level[..|level| - |pinned|];
    assert level == newer + pinned;
    LevelRuns(levels, job.level);
    a := AllRuns(levels[..job.level]) + newer;
    if job.kind.Tier? {
      InstallTier(levels, job, output, newer);
    } else {
      InstallSplice(levels, job, output, newer);
    }
  }

  lemma InstallEdits(levels: Levels, job: Job, output: Option<Run>, newer: seq<Run>)
    requires job.kind.Tier? && job.target == job.level + 1 < |levels| && Retain(levels[job.level], job.inputs) == newer
    ensures Install(levels, job, output) ==
            levels[job.level := newer][job.level + 1 := Produced(job, output) + levels[job.level + 1]]
  {
    hide Retain;
    assert [] + levels[job.level + 1] == levels[job.level + 1];
  }

  lemma InstallTier(levels: Levels, job: Job, output: Option<Run>, newer: seq<Run>)
    requires job.kind.Tier? && job.target == job.level + 1 < |levels|
    requires levels[job.level] == newer + job.inputs && DistinctIds(newer + job.inputs)
    requires AllRuns(levels[job.target..]) == job.older
    ensures AllRuns(levels) == AllRuns(levels[..job.level]) + newer + job.inputs + job.older
    ensures AllRuns(Install(levels, job, output)) ==
            AllRuns(levels[..job.level]) + newer + Produced(job, output) + job.older
  {
    hide AllRuns, DistinctIds, Install, Retain;
    var l, out := job.level, Produced(job, output);
    RetainPinned(newer, job.inputs, job.inputs);
    InstallEdits(levels, job, output, newer);
    EditTwo(levels, l, newer, out + levels[l + 1]);
    AllRunsSplit(levels, l);
    AllRunsDrop(levels, l + 1);
    Regroup(AllRuns(levels[..l]), newer, job.inputs, out, levels[l + 1], AllRuns(levels[l + 2..]));
  }

  lemma Regroup<T>(a: seq<T>, n: seq<T>, i: seq<T>, o: seq<T>, t: seq<T>, b: seq<T>)
    ensures a + (n + i) + (t + b) == a + n + i + (t + b)
    ensures a + n + (o + t) + b == a + n + o + (t + b)
  {
  }

  lemma EditOne(levels: Levels, l: nat, x: seq<Run>)
    requires l < |levels|
    ensures AllRuns(levels[l := x]) == AllRuns(levels[..l]) + x + AllRuns(levels[l + 1..])
  {
    var after := levels[l := x];
    AllRunsSplit(after, l);
    assert after[..l] == levels[..l] && after[l + 1..] == levels[l + 1..];
  }

  lemma EditTwo(levels: Levels, l: nat, x: seq<Run>, y: seq<Run>)
    requires l + 1 < |levels|
    ensures AllRuns(levels[l := x][l + 1 := y]) == AllRuns(levels[..l]) + x + y + AllRuns(levels[l + 2..])
  {
    var once := levels[l := x];
    EditOne(once, l + 1, y);
    assert once[..l + 1] == levels[..l] + [x] && once[l + 2..] == levels[l + 2..];
    AllRunsConcat(levels[..l], [x]);
    assert AllRuns([x]) == x + AllRuns([]);
  }

  lemma InstallSplice(levels: Levels, job: Job, output: Option<Run>, newer: seq<Run>)
    requires job.kind.BottomSplice? && |job.inputs| == 2 && job.level == |levels| - 1 && job.target == job.level
    requires job.inputs[1].id == job.kind.baseId && job.older == []
    requires levels[job.level] == newer + Consumed(job) && DistinctIds(newer + Consumed(job))
    ensures AllRuns(levels) == AllRuns(levels[..job.level]) + newer + Consumed(job) + job.older
    ensures AllRuns(Install(levels, job, output)) ==
            AllRuns(levels[..job.level]) + newer + Produced(job, output) + job.older
  {
    var l, produced := job.level, Produced(job, output);
    RetainPinned(newer, Consumed(job), job.inputs);
    RetainBase(newer, Consumed(job), job);
    assert Install(levels, job, output) == levels[l := newer + produced];
    EditOne(levels, l, newer + produced);
    AllRunsSplit(levels, l);
    Assoc(AllRuns(levels[..l]), newer, Consumed(job));
    Assoc(AllRuns(levels[..l]), newer, produced);
  }

  lemma RetainBase(newer: seq<Run>, pinned: seq<Run>, job: Job)
    requires job.kind.BottomSplice? && |job.inputs| == 2 && pinned == Consumed(job)
    requires DistinctIds(newer + pinned)
    ensures Retain(newer, [Run(job.kind.baseId, [])]) == newer
  {
    var all := newer + pinned;
    assert all[|newer| + 1].id == job.kind.baseId;
    forall r | r in newer ensures !HasId([Run(job.kind.baseId, [])], r.id) {
      var i :| 0 <= i < |newer| && newer[i] == r;
      assert all[i].id != all[|newer| + 1].id;
    }
    RetainNone(newer, [Run(job.kind.baseId, [])]);
  }

  // ---------------------------------------------------------------- what survives around an install

  /** A flush: one more run at the front of level 0. */
  function Flush(levels: Levels, run: Run): Levels
    requires levels != []
  {
    levels[0 := [run] + levels[0]]
  }

  lemma FlushPrepends(levels: Levels, run: Run)
    requires levels != []
    ensures AllRuns(Flush(levels, run)) == [run] + AllRuns(levels)
  {
    assert Flush(levels, run)[1..] == levels[1..];
    Assoc([run], levels[0], AllRuns(levels[1..]));
  }

  lemma EndsWithLonger<T>(x: seq<T>, s: seq<T>, t: seq<T>)
    requires EndsWith(s, t)
    ensures EndsWith(x + s, t)
  {
    assert (x + s)[|x + s| - |t|..] == s[|s| - |t|..];
  }

  lemma FlushKeepsInPlace(levels: Levels, run: Run, job: Job)
    requires levels != [] && InPlace(levels, job)
    ensures InPlace(Flush(levels, run), job)
  {
    var after := Flush(levels, run);
    if job.level == 0 { EndsWithLonger([run], levels[0], Consumed(job)); }
    if job.kind.Tier? { assert after[job.target..] == levels[job.target..]; }
  }

  /** A job above a suspended one leaves the suspended job's inputs and `older` set alone. */
  lemma InstallKeepsInPlace(levels: Levels, job: Job, output: Option<Run>, deep: Job)
    requires InPlace(levels, job) && InPlace(levels, deep) && job.level < deep.level
    ensures InPlace(Install(levels, job, output), deep)
  {
    var after := Install(levels, job, output);
    assert job.kind.Tier?;
    if deep.level == job.target && output.Some? {
      EndsWithLonger([output.value], levels[deep.level], Consumed(deep));
    }
    if deep.kind.Tier? { assert after[deep.target..] == levels[deep.target..]; }
  }
}
