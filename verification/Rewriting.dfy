/** What one installed rewrite does to the tree as a whole. */
module Rewriting {
  import opened Types
  import opened Runs
  import opened Merging
  import opened Compaction
  import opened Tree

  /** Replacing the runs `c` by at most one run made of their entries keeps a tree well formed. */
  lemma ReplaceKeepsTree(a: seq<Run>, c: seq<Run>, p: seq<Run>, b: seq<Run>)
    requires WfTree(a + c + b) && |p| <= 1
    requires forall r :: r in p ==> WfRun(r) && r.tables != [] && !HasId(a, r.id) && !HasId(b, r.id)
    requires forall r, v :: r in p && v in Ents(r) ==> InRuns(c, v)
    ensures WfTree(a + p + b)
  {
    var old_, new_ := a + c + b, a + p + b;
    forall i | 0 <= i < |new_| ensures new_[i] in p || new_[i] in old_ {
      if i < |a| { assert old_[i] == new_[i]; }
      if i >= |a| + |p| { assert old_[i - |p| + |c|] == new_[i]; }
    }
    forall i, j | 0 <= i < j < |new_| ensures Newer(new_[i], new_[j]) && new_[i].id != new_[j].id {
      if i < |a| && |a| <= j < |a| + |p| {
        NewerThanProduced(a, c, b, new_[i], i, new_[j]);
        assert new_[j] in p && new_[i] in a;
      } else if |a| <= i < |a| + |p| {
        NewerThanOlder(a, c, b, new_[i], j - |a| - |p|);
        assert new_[i] in p && new_[j] in b;
      } else {
        var i', j' := if i < |a| then i else i - |p| + |c|, if j < |a| then j else j - |p| + |c|;
        assert old_[i'] == new_[i] && old_[j'] == new_[j];
      }
    }
  }

  lemma NewerThanProduced(a: seq<Run>, c: seq<Run>, b: seq<Run>, x: Run, i: nat, r: Run)
    requires WfTree(a + c + b) && i < |a| && a[i] == x
    requires forall v :: v in Ents(r) ==> InRuns(c, v)
    ensures Newer(x, r)
  {
    forall v, w | v in Ents(x) && w in Ents(r) && v.key == w.key ensures v.at > w.at {
      var k :| 0 <= k < |c| && w in Ents(c[k]);
      assert (a + c + b)[|a| + k] == c[k] && (a + c + b)[i] == x;
      assert Newer((a + c + b)[i], (a + c + b)[|a| + k]);
    }
  }

  lemma NewerThanOlder(a: seq<Run>, c: seq<Run>, b: seq<Run>, r: Run, j: nat)
    requires WfTree(a + c + b) && j < |b|
    requires forall v :: v in Ents(r) ==> InRuns(c, v)
    ensures Newer(r, b[j])
  {
    forall v, w | v in Ents(r) && w in Ents(b[j]) && v.key == w.key ensures v.at > w.at {
      var k :| 0 <= k < |c| && v in Ents(c[k]);
      assert (a + c + b)[|a| + k] == c[k] && (a + c + b)[|a| + |c| + j] == b[j];
      assert Newer((a + c + b)[|a| + k], (a + c + b)[|a| + |c| + j]);
    }
  }

  // ---------------------------------------------------------------- the spliced base

  lemma {:induction false} NoLeft(ts: seq<Table>, lo: Key)
    requires WfTables(ts) && (ts != [] ==> MaxKey(ts[0]) >= lo)
    ensures KeepLeft(ts, lo) == []
  {
    if ts != [] {
      var rest := TailTables(ts);
      if rest != [] { NextHigher(ts); }
      NoLeft(rest, lo);
    }
  }

  lemma NextHigher(ts: seq<Table>)
    requires WfTables(ts) && |ts| > 1
    ensures MaxKey(ts[0]) < MinKey(ts[1]) <= MaxKey(ts[1])
    ensures MinKey(ts[0]) <= MaxKey(ts[0])
  {
    TableBounds(ts[1], ts[1].ents[0]);
    TableBounds(ts[0], ts[0].ents[0]);
  }

  lemma {:induction false} NoOverlap(ts: seq<Table>, lo: Key, hi: Key)
    requires WfTables(ts) && (ts != [] ==> MinKey(ts[0]) > hi)
    ensures Overlapped(ts, lo, hi) == []
  {
    if ts != [] {
      var rest := TailTables(ts);
      if rest != [] { NextHigher(ts); }
      NoOverlap(rest, lo, hi);
    }
  }

  /** Which piece the first fragment of a run falls in. */
  lemma FirstPiece(ts: seq<Table>, lo: Key, hi: Key)
    requires WfTables(ts) && ts != []
    ensures var t, rest := ts[0], TailTables(ts);
      KeepLeft(ts, lo) == (if MaxKey(t) < lo then [t] else []) + KeepLeft(rest, lo) &&
      Overlapped(ts, lo, hi) == (if MaxKey(t) >= lo && MinKey(t) <= hi then [t] else []) + Overlapped(rest, lo, hi) &&
      KeepRight(ts, lo, hi) == (if MaxKey(t) >= lo && MinKey(t) > hi then [t] else []) + KeepRight(rest, lo, hi)
  {
    hide WfTables, MinKey, MaxKey;
    var rest := TailTables(ts);
    assert [] + KeepLeft(rest, lo) == KeepLeft(rest, lo) && [] + Overlapped(rest, lo, hi) == Overlapped(rest, lo, hi);
    assert [] + KeepRight(rest, lo, hi) == KeepRight(rest, lo, hi);
  }

  lemma RestIsRight(ts: seq<Table>, lo: Key, hi: Key)
    requires WfTables(ts) && ts != [] && MaxKey(ts[0]) >= lo
    ensures KeepLeft(TailTables(ts), lo) == []
    ensures MinKey(ts[0]) > hi ==> Overlapped(TailTables(ts), lo, hi) == []
  {
    var rest := TailTables(ts);
    if rest != [] { NextHigher(ts); }
    NoLeft(rest, lo);
    if MinKey(ts[0]) > hi { NoOverlap(rest, lo, hi); }
  }

  /** The splice partition cuts the base run into three consecutive pieces. */
  lemma {:induction false} Partition(ts: seq<Table>, lo: Key, hi: Key)
    requires WfTables(ts)
    ensures ts == KeepLeft(ts, lo) + Overlapped(ts, lo, hi) + KeepRight(ts, lo, hi)
  {
    if ts != [] {
      hide WfTables, MinKey, MaxKey, KeepLeft, Overlapped, KeepRight;
      var t, rest := ts[0], TailTables(ts);
      Partition(rest, lo, hi);
      FirstPiece(ts, lo, hi);
      if MaxKey(t) >= lo { RestIsRight(ts, lo, hi); }
      Pieces(t, MaxKey(t) < lo, MinKey(t) <= hi, KeepLeft(rest, lo), Overlapped(rest, lo, hi), KeepRight(rest, lo, hi));
      assert ts == [t] + rest;
    }
  }

  lemma Pieces<T>(t: T, left: bool, over: bool, a: seq<T>, b: seq<T>, c: seq<T>)
    requires left || (a == [] && (over || b == []))
    ensures [t] + (a + b + c) ==
      ((if left then [t] else []) + a) + ((if !left && over then [t] else []) + b) +
        ((if !left && !over then [t] else []) + c)
  {
  }

  lemma {:induction false} KeptAreOutside(ts: seq<Table>, lo: Key, hi: Key)
    requires WfTables(ts)
    ensures forall t :: t in KeepLeft(ts, lo) ==> t in ts && MaxKey(t) < lo
    ensures forall t :: t in KeepRight(ts, lo, hi) ==> t in ts && MinKey(t) > hi
    ensures forall t :: t in Overlapped(ts, lo, hi) ==> t in ts
  {
    if ts != [] { KeptAreOutside(TailTables(ts), lo, hi); }
  }

  lemma {:induction false} Extremes(ts: seq<Table>, t: Table)
    requires ts != [] && (forall i :: 0 <= i < |ts| ==> WfTable(ts[i])) && t in ts
    ensures LowKey(ts) <= MinKey(t) && MaxKey(t) <= HighKey(ts)
  {
    if |ts| > 1 && t in ts[1..] { Extremes(ts[1..], t); }
  }

  lemma SubTables(a: seq<Table>, m: seq<Table>, b: seq<Table>)
    requires WfTables(a + m + b)
    ensures WfTables(a) && WfTables(m) && WfTables(b)
  {
    var all := a + m + b;
    assert forall i :: 0 <= i < |a| ==> a[i] == all[i];
    assert forall i :: 0 <= i < |m| ==> m[i] == all[|a| + i];
    assert forall i :: 0 <= i < |b| ==> b[i] == all[|a| + |m| + i];
  }

  /** The kept fragments of the base are exactly around the upper run's key range. */
  lemma SplicePieces(upper: Run, base: Run) returns (lo: Key, hi: Key)
    requires WfRun(upper) && WfRun(base) && upper.tables != []
    ensures lo == LowKey(upper.tables) && hi == HighKey(upper.tables)
    ensures base.tables ==
            KeepLeft(base.tables, lo) + Overlapped(base.tables, lo, hi) + KeepRight(base.tables, lo, hi)
    ensures WfTables(KeepLeft(base.tables, lo)) && WfTables(KeepRight(base.tables, lo, hi))
    ensures WfTables(Overlapped(base.tables, lo, hi))
    ensures Between(KeepLeft(base.tables, lo), upper, KeepRight(base.tables, lo, hi))
  {
    lo, hi := LowKey(upper.tables), HighKey(upper.tables);
    Partition(base.tables, lo, hi);
    KeptAreOutside(base.tables, lo, hi);
    SubTables(KeepLeft(base.tables, lo), Overlapped(base.tables, lo, hi), KeepRight(base.tables, lo, hi));
    forall v | v in Ents(upper) ensures lo <= v.key <= hi {
      FlatMember(upper.tables, v);
      var i :| 0 <= i < |upper.tables| && v in upper.tables[i].ents;
      Extremes(upper.tables, upper.tables[i]);
      TableBounds(upper.tables[i], v);
    }
  }

  lemma EndsWithPair<T>(s: seq<T>)
    requires |s| >= 2
    ensures EndsWith(s, [s[|s| - 2], s[|s| - 1]])
  {
    assert s[|s| - 2..] == [s[|s| - 2], s[|s| - 1]];
  }

  /** A freshly picked splice job is in place. */
  lemma PickSpliceInPlace(levels: Levels, newRunId: nat)
    requires WfLevels(levels) && |levels[|levels| - 1]| >= 2
    ensures WfTree(levels[|levels| - 1])
    ensures InPlace(levels, PickSplice(levels, newRunId)) && WfRuns(PickSplice(levels, newRunId).inputs)
  {
    var last := |levels| - 1;
    LevelRuns(levels, last);
    var level := levels[last];
    var upper, base := level[|level| - 2], level[|level| - 1];
    var lo, hi := SplicePieces(upper, base);
    EndsWithPair(level);
    var mid := Run(base.id, Overlapped(base.tables, lo, hi));
    SpliceInPlace(levels, upper, mid, KeepLeft(base.tables, lo), KeepRight(base.tables, lo, hi), newRunId);
  }

  lemma SpliceInPlace(levels: Levels, upper: Run, mid: Run, left: seq<Table>, right: seq<Table>, newRunId: nat)
    requires levels != [] && EndsWith(levels[|levels| - 1], [upper, Run(mid.id, left + mid.tables + right)])
    requires WfTables(left) && WfTables(right) && WfRun(mid) && WfRun(upper) && Between(left, upper, right)
    ensures var job := Job(|levels| - 1, |levels| - 1, [upper, mid], [], BottomSplice(mid.id, left, right, newRunId));
      InPlace(levels, job) && WfRuns(job.inputs)
  {
  }

  /** Every entry of the job's inputs falls between the kept fragments. */
  lemma InputsBetween(job: Job, v: Ver)
    requires job.kind.BottomSplice? && |job.inputs| == 2
    requires WfRuns(Consumed(job)) && WfTables(job.kind.keepLeft) && WfTables(job.kind.keepRight)
    requires Between(job.kind.keepLeft, job.inputs[0], job.kind.keepRight)
    requires v in Ents(job.inputs[0]) || v in Ents(job.inputs[1])
    ensures forall t :: t in job.kind.keepLeft ==> MaxKey(t) < v.key
    ensures forall t :: t in job.kind.keepRight ==> v.key < MinKey(t)
  {
    if v !in Ents(job.inputs[0]) {
      var left, mid, right := job.kind.keepLeft, job.inputs[1].tables, job.kind.keepRight;
      var all := left + mid + right;
      assert Consumed(job)[1].tables == all;
      FlatMember(mid, v);
      var m :| 0 <= m < |mid| && v in mid[m].ents;
      assert all[|left| + m] == mid[m];
      TableBounds(mid[m], v);
      forall t | t in left ensures MaxKey(t) < v.key {
        var i :| 0 <= i < |left| && left[i] == t;
        assert all[i] == t;
      }
      forall t | t in right ensures v.key < MinKey(t) {
        var i :| 0 <= i < |right| && right[i] == t;
        assert all[|left| + |mid| + i] == t;
      }
    }
  }

  // ---------------------------------------------------------------- contents

  /** `output` is what a finished rewrite of `job` at watermark `w` hands to the install. */
  ghost predicate OutputOf(job: Job, w: SeqNo, merged: seq<Ver>, output: Option<Run>)
    requires WfRuns(job.older)
  {
    IsMerge(false, InputChildren(job.inputs), merged) && Sorted(merged) &&
    var kept := ScanOf(merged, w, job.older).out;
    if output.None? then kept == []
    else WfRun(output.value) && output.value.tables != [] && Ents(output.value) == kept
  }

  /** Run a job to its end, slice by slice, whatever the quantum.  What it hands to the install, and the
      bytes it accounts as discarded, are those of one uninterrupted scan of the merged inputs: this is
      the output that Engine's InstallOutput installs. */
  method Execute(job: Job, w: SeqNo, runId: nat, bytes: Ver -> nat, est: seq<Ver> -> nat, extra: set<Key>, firstId: nat,
                 sliceBytes: nat, targetFileSize: nat)
    returns (output: Option<Run>, discard: map<nat, nat>, ghost merged: seq<Ver>)
    requires WfRuns(job.inputs) && NewestFirst(job.inputs) && WfRuns(job.older)
    ensures OutputOf(job, w, merged, output) && (output.Some? ==> output.value.id == runId)
    ensures discard == ScanOf(merged, w, job.older).discard
  {
    hide ScanOf, WfRuns, NewestFirst, IsMerge, WfChildren;
    var running := new RunningJob(job.inputs, job.older, w, bytes, est, extra, firstId);
    merged := running.input;
    var done := running.RunSlice(sliceBytes, targetFileSize);
    while !done
      invariant running.Valid() && running.input == merged && running.older == job.older && running.watermark == w
      invariant fresh(running) && fresh(running.merge) && (done <==> running.read == |merged|)
      invariant done ==> running.builder.None? && Flat(running.tables) == ScanOf(merged, w, job.older).out
      invariant done ==> running.discard == ScanOf(merged, w, job.older).discard
      decreases |merged| - running.read
    {
      done := running.RunSlice(sliceBytes, targetFileSize);
    }
    assert running.Fragments() == running.tables;
    output := if running.tables == [] then None else Some(Run(runId, running.tables));
    discard := running.discard;
  }

  /** The job's inputs hold `v` and the merge loop drops it. */
  ghost predicate Dropped(job: Job, w: SeqNo, merged: seq<Ver>, v: Ver)
    requires WfRuns(job.older)
  {
    InRuns(job.inputs, v) && !Survives(merged, w, job.older, v)
  }

  lemma KeptIsSurvivors(job: Job, w: SeqNo, merged: seq<Ver>, v: Ver)
    requires WfRuns(job.older) && IsMerge(false, InputChildren(job.inputs), merged) && Sorted(merged)
    ensures v in ScanOf(merged, w, job.older).out <==> InRuns(job.inputs, v) && !Dropped(job, w, merged, v)
    ensures v in merged <==> InRuns(job.inputs, v)
    ensures Sorted(ScanOf(merged, w, job.older).out)
  {
    var cs := InputChildren(job.inputs);
    MergeMembers(false, cs, merged);
    ScanExact(merged, w, job.older);
    assert InChildren(cs, v) <==> InRuns(job.inputs, v);
  }

  lemma {:induction false} FlatOfWf(ts: seq<Table>, v: Ver)
    requires WfTables(ts) && v in Flat(ts)
    ensures exists t :: t in ts && MinKey(t) <= v.key <= MaxKey(t)
  {
    FlatMember(ts, v);
    var i :| 0 <= i < |ts| && v in ts[i].ents;
    TableBounds(ts[i], v);
    assert ts[i] in ts;
  }

  /** A key the job reads occurs in no kept fragment. */
  lemma KeptHasNoInputKey(job: Job, u: Ver, v: Ver)
    requires job.kind.BottomSplice? && |job.inputs| == 2
    requires WfRuns(Consumed(job)) && WfTables(job.kind.keepLeft) && WfTables(job.kind.keepRight)
    requires Between(job.kind.keepLeft, job.inputs[0], job.kind.keepRight)
    requires InRuns(job.inputs, u) && (v in Flat(job.kind.keepLeft) || v in Flat(job.kind.keepRight))
    ensures u.key != v.key
  {
    InRunsPair(job.inputs, u);
    InputsBetween(job, u);
    if v in Flat(job.kind.keepLeft) {
      FlatOfWf(job.kind.keepLeft, v);
    } else {
      FlatOfWf(job.kind.keepRight, v);
    }
  }

  lemma InRunsPair(rs: seq<Run>, v: Ver)
    requires |rs| == 2
    ensures InRuns(rs, v) <==> v in Ents(rs[0]) || v in Ents(rs[1])
  {
    if v in Ents(rs[0]) { assert 0 < |rs|; }
    if v in Ents(rs[1]) { assert 1 < |rs|; }
  }

  lemma InRunsOne(r: Run, v: Ver)
    ensures InRuns([r], v) <==> v in Ents(r)
  {
    assert [r][0] == r;
  }

  lemma Flat3(a: seq<Table>, b: seq<Table>, c: seq<Table>, v: Ver)
    ensures v in Flat(a + b + c) <==> v in Flat(a) || v in Flat(b) || v in Flat(c)
  {
    FlatConcat(a + b, c);
    FlatConcat(a, b);
  }

  /** An install changes the consumed runs' contents by exactly the dropped versions. */
  lemma ProducedContents(levels: Levels, job: Job, w: SeqNo, merged: seq<Ver>, output: Option<Run>, v: Ver)
    requires InPlace(levels, job) && WfRuns(Consumed(job)) && WfRuns(job.older)
    requires OutputOf(job, w, merged, output)
    ensures InRuns(Produced(job, output), v) <==> InRuns(Consumed(job), v) && !Dropped(job, w, merged, v)
  {
    KeptIsSurvivors(job, w, merged, v);
    if output.Some? { InRunsOne(output.value, v); }
    if job.kind.BottomSplice? {
      var left, mid, right := job.kind.keepLeft, job.inputs[1].tables, job.kind.keepRight;
      var out := if output.Some? then output.value.tables else [];
      Flat3(left, mid, right, v);
      Flat3(left, out, right, v);
      InRunsPair(job.inputs, v);
      InRunsPair(Consumed(job), v);
      InRunsOne(Run(job.kind.newRunId, left + out + right), v);
      if (v in Flat(left) || v in Flat(right)) && InRuns(job.inputs, v) {
        KeptHasNoInputKey(job, v, v);
      }
    }
  }

  /** What the job produced is well formed. */
  lemma ProducedWf(levels: Levels, job: Job, w: SeqNo, merged: seq<Ver>, output: Option<Run>)
    requires InPlace(levels, job) && WfRuns(Consumed(job)) && WfRuns(job.older)
    requires OutputOf(job, w, merged, output)
    ensures |Produced(job, output)| <= 1
    ensures forall r :: r in Produced(job, output) ==> WfRun(r) && r.tables != []
  {
    hide ScanOf, IsMerge, AnyMayContain;
    if job.kind.BottomSplice? && Produced(job, output) != [] {
      var left, right := job.kind.keepLeft, job.kind.keepRight;
      var out := if output.Some? then output.value.tables else [];
      var base := Consumed(job)[1].tables;
      forall t | t in out
        ensures forall l :: l in left ==> MaxKey(l) < MinKey(t)
        ensures forall r :: r in right ==> MaxKey(t) < MinKey(r)
      {
        var i :| 0 <= i < |out| && out[i] == t;
        OutputTableBetween(job, w, merged, output, i);
      }
      assert base == left + job.inputs[1].tables + right;
      JoinTables(left, out, right, base, |job.inputs[1].tables|);
    }
  }

  lemma OutputTableBetween(job: Job, w: SeqNo, merged: seq<Ver>, output: Option<Run>, i: nat)
    requires job.kind.BottomSplice? && |job.inputs| == 2 && WfRuns(job.older)
    requires WfRuns(Consumed(job)) && WfTables(job.kind.keepLeft) && WfTables(job.kind.keepRight)
    requires Between(job.kind.keepLeft, job.inputs[0], job.kind.keepRight)
    requires OutputOf(job, w, merged, output) && output.Some? && i < |output.value.tables|
    ensures forall l :: l in job.kind.keepLeft ==> MaxKey(l) < MinKey(output.value.tables[i])
    ensures forall r :: r in job.kind.keepRight ==> MaxKey(output.value.tables[i]) < MinKey(r)
  {
    var t := output.value.tables[i];
    var first, last := t.ents[0], t.ents[|t.ents| - 1];
    FlatMember(output.value.tables, first);
    FlatMember(output.value.tables, last);
    KeptIsSurvivors(job, w, merged, first);
    KeptIsSurvivors(job, w, merged, last);
    InRunsPair(job.inputs, first);
    InRunsPair(job.inputs, last);
    InputsBetween(job, first);
    InputsBetween(job, last);
  }

  /** Fragments that fall between two pieces of a well-formed run join with them. */
  lemma JoinTables(left: seq<Table>, out: seq<Table>, right: seq<Table>, base: seq<Table>, mid: nat)
    requires WfTables(left) && WfTables(out) && WfTables(right) && WfTables(base)
    requires |base| == |left| + mid + |right| && base[..|left|] == left && base[|left| + mid..] == right
    requires forall t, l :: t in out && l in left ==> MaxKey(l) < MinKey(t)
    requires forall t, r :: t in out && r in right ==> MaxKey(t) < MinKey(r)
    ensures WfTables(left + out + right)
  {
    var all := left + out + right;
    forall i, j | 0 <= i < j < |all| ensures WfTable(all[i]) && WfTable(all[j]) && MaxKey(all[i]) < MinKey(all[j]) {
      if i < |left| && j >= |left| + |out| {
        assert base[i] == all[i] && base[j - |out| + mid] == all[j] by {
          assert base[..|left|][i] == base[i];
          assert base[|left| + mid..][j - |left| - |out|] == base[j - |out| + mid];
        }
      }
    }
    if |all| == 1 { assert all[0] in left || all[0] in out || all[0] in right; }
  }
}
