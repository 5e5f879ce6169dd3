/** What a tree must retain of the history, and that rewrites keep it. */
module Retention {
  import opened Types
  import opened History
  import opened Runs
  import opened Merging
  import opened Compaction
  import opened Tree
  import opened Rewriting

  /** The newest version of `k` at or below `bound` is in the tree, or it is a tombstone and the
      tree holds nothing of `k` at or below the bound. */
  ghost predicate KeyKept(rs: seq<Run>, h: Log, k: Key, bound: SeqNo)
    requires bound <= |h|
  {
    var n := Newest(h, k, bound);
    n > 0 ==>
      InRuns(rs, VerAt(h, n)) || (h[n - 1].op.Delete? && forall v :: InRuns(rs, v) && v.key == k ==> v.at > bound)
  }

  /** The tree holds only versions of the history up to `flushed`, all of those above `bound`, and
      of the rest what a reader at `bound` or later can see. */
  ghost predicate Retains(rs: seq<Run>, h: Log, flushed: SeqNo, bound: SeqNo) {
    bound <= flushed <= |h| &&
    (forall v :: InRuns(rs, v) ==> Wrote(h, v) && v.at <= flushed) &&
    (forall n :: bound < n <= flushed ==> InRuns(rs, VerAt(h, n))) &&
    (forall k :: KeyKept(rs, h, k, bound))
  }

  /** A tree read at a retained seqno sees exactly the history's value, whatever was dropped. */
  lemma TreeReadExact(rs: seq<Run>, h: Log, flushed: SeqNo, bound: SeqNo, k: Key, s: SeqNo)
    requires WfTree(rs) && Retains(rs, h, flushed, bound) && bound <= s <= flushed
    ensures Get(rs, k, s).Some? ==> Newest(h, k, s) > 0 && Get(rs, k, s).value == VerAt(h, Newest(h, k, s))
    ensures Newest(h, k, s) > bound ==> Get(rs, k, s).Some?
    ensures Visible(Get(rs, k, s)) == ValueAt(h, k, s)
  {
    FirstHitIsNewest(rs, k, s);
    AnswerExact(rs, h, flushed, bound, k, s, Get(rs, k, s));
  }

  lemma AnswerExact(rs: seq<Run>, h: Log, flushed: SeqNo, bound: SeqNo, k: Key, s: SeqNo, got: Option<Ver>)
    requires IsAnswer(rs, k, s, got)
    requires Retains(rs, h, flushed, bound) && bound <= s <= flushed
    ensures got.Some? ==> Newest(h, k, s) > 0 && got.value == VerAt(h, Newest(h, k, s))
    ensures Newest(h, k, s) > bound ==> got.Some?
    ensures Visible(got) == ValueAt(h, k, s)
  {
    var n := Newest(h, k, s);
    if got.Some? {
      assert Wrote(h, got.value) && WroteKey(h, k, got.value.at);
    }
    if n > 0 {
      NewestIsKept(rs, h, flushed, bound, k, s);
      if InRuns(rs, VerAt(h, n)) { assert Matches(VerAt(h, n), k, s); }
    }
  }

  lemma NewestIsKept(rs: seq<Run>, h: Log, flushed: SeqNo, bound: SeqNo, k: Key, s: SeqNo)
    requires Retains(rs, h, flushed, bound) && bound <= s <= flushed && Newest(h, k, s) > 0
    ensures InRuns(rs, VerAt(h, Newest(h, k, s))) ||
      (Newest(h, k, s) <= bound && h[Newest(h, k, s) - 1].op.Delete? &&
       forall v :: InRuns(rs, v) && v.key == k ==> v.at > bound)
  {
    var n := Newest(h, k, s);
    if n <= bound {
      NewestIs(h, k, bound, n);
      assert KeyKept(rs, h, k, bound);
    }
  }

  /** Raising the bound asks for less. */
  lemma RaiseBound(rs: seq<Run>, h: Log, flushed: SeqNo, bound: SeqNo, bound': SeqNo)
    requires Retains(rs, h, flushed, bound) && bound <= bound' <= flushed
    ensures Retains(rs, h, flushed, bound')
  {
    forall k ensures KeyKept(rs, h, k, bound') {
      assert KeyKept(rs, h, k, bound);
      var n := Newest(h, k, bound');
      if n <= bound {
        NewestIs(h, k, bound, n);
        if n > 0 && !InRuns(rs, VerAt(h, n)) {
          forall v | InRuns(rs, v) && v.key == k ensures v.at > bound' {
            assert Wrote(h, v) && WroteKey(h, k, v.at);
          }
        }
      } else {
        assert InRuns(rs, VerAt(h, n));
      }
    }
  }

  /** Later commits change nothing about what the tree must retain. */
  lemma GrowHistory(rs: seq<Run>, h: Log, h': Log, flushed: SeqNo, bound: SeqNo)
    requires Retains(rs, h, flushed, bound) && flushed <= |h'| && h[..flushed] == h'[..flushed]
    ensures Retains(rs, h', flushed, bound)
  {
    assert forall i :: 0 <= i < flushed ==> h[i] == h[..flushed][i] && h'[i] == h'[..flushed][i];
    forall n | bound < n <= flushed ensures InRuns(rs, VerAt(h', n)) {
      assert VerAt(h', n) == VerAt(h, n);
    }
    forall k ensures KeyKept(rs, h', k, bound) {
      assert KeyKept(rs, h, k, bound);
      assert h[..bound] == h[..flushed][..bound] && h'[..bound] == h'[..flushed][..bound];
      NewestPrefix(h, h', k, bound);
      var n := Newest(h, k, bound);
      if n > 0 { assert VerAt(h', n) == VerAt(h, n); }
    }
  }

  /** The watermark a job read is safe: of its inputs, whatever is at or below it is at or below
      the retained bound. */
  ghost predicate WatermarkSafe(job: Job, w: SeqNo, bound: SeqNo) {
    forall v :: InRuns(job.inputs, v) && v.at <= w ==> v.at <= bound
  }

  lemma InRuns3(a: seq<Run>, m: seq<Run>, b: seq<Run>, v: Ver)
    ensures InRuns(a + m + b, v) <==> InRuns(a, v) || InRuns(m, v) || InRuns(b, v)
  {
    var all := a + m + b;
    if i :| 0 <= i < |a| && v in Ents(a[i]) { assert all[i] == a[i]; }
    if i :| 0 <= i < |m| && v in Ents(m[i]) { assert all[|a| + i] == m[i]; }
    if i :| 0 <= i < |b| && v in Ents(b[i]) { assert all[|a| + |m| + i] == b[i]; }
  }

  /** Inputs are consumed, so they sit between what is newer and what is older. */
  lemma InputsAreConsumed(job: Job, v: Ver)
    requires job.kind.BottomSplice? ==> |job.inputs| == 2
    requires InRuns(job.inputs, v)
    ensures InRuns(Consumed(job), v)
  {
    if job.kind.BottomSplice? {
      InRunsPair(job.inputs, v);
      InRunsPair(Consumed(job), v);
      Flat3(job.kind.keepLeft, job.inputs[1].tables, job.kind.keepRight, v);
    }
  }

  /** In a newest-first list, a version in the middle part has all newer versions of its key at or
      before it and all older ones at or after it. */
  lemma MiddleSeparates(a: seq<Run>, m: seq<Run>, b: seq<Run>, u: Ver, v: Ver)
    requires NewestFirst(a + m + b) && InRuns(m, u) && u.key == v.key
    ensures InRuns(a, v) ==> v.at > u.at
    ensures InRuns(b, v) ==> v.at < u.at
  {
    var all := a + m + b;
    var j :| 0 <= j < |m| && u in Ents(m[j]);
    assert all[|a| + j] == m[j];
    if i :| 0 <= i < |a| && v in Ents(a[i]) {
      assert all[i] == a[i] && Newer(all[i], all[|a| + j]);
    }
    if i :| 0 <= i < |b| && v in Ents(b[i]) {
      assert all[|a| + |m| + i] == b[i] && Newer(all[|a| + j], all[|a| + |m| + i]);
    }
  }

  /** A tree around a job about to install: everything newer, what it consumes, everything older. */
  ghost predicate Around(levels: Levels, job: Job, a: seq<Run>)
  {
    InPlace(levels, job) && WfLevels(levels) &&
    AllRuns(levels) == a + Consumed(job) + job.older && WfRuns(Consumed(job)) && WfRuns(job.older)
  }

  lemma AroundParts(levels: Levels, job: Job, a: seq<Run>)
    requires InPlace(levels, job) && WfLevels(levels) && AllRuns(levels) == a + Consumed(job) + job.older
    ensures Around(levels, job, a)
  {
    SubTree(a, Consumed(job), job.older);
    assert a + Consumed(job) + job.older == (a + Consumed(job)) + job.older + [];
    SubTree(a + Consumed(job), job.older, []);
  }

  /** After an install the tree holds exactly what it held, minus what the job dropped. */
  lemma InstalledContents(levels: Levels, job: Job, w: SeqNo, merged: seq<Ver>, output: Option<Run>,
                          a: seq<Run>, v: Ver)
    requires Around(levels, job, a) && OutputOf(job, w, merged, output)
    requires AllRuns(Install(levels, job, output)) == a + Produced(job, output) + job.older
    ensures InRuns(AllRuns(Install(levels, job, output)), v) <==>
            InRuns(AllRuns(levels), v) && !Dropped(job, w, merged, v)
  {
    InRuns3(a, Consumed(job), job.older, v);
    InRuns3(a, Produced(job, output), job.older, v);
    ProducedContents(levels, job, w, merged, output, v);
    if InRuns(job.inputs, v) {
      InputsAreConsumed(job, v);
      MiddleSeparates(a, Consumed(job), job.older, v, v);
    }
  }

  /** What the tree and the job look like around an install. */
  lemma AroundFacts(levels: Levels, job: Job, a: seq<Run>)
    requires Around(levels, job, a)
    ensures AllRuns(levels) == a + Consumed(job) + job.older && NewestFirst(AllRuns(levels)) && WfRuns(job.older)
    ensures job.kind.BottomSplice? ==> |job.inputs| == 2 && WfRuns(Consumed(job))
    ensures job.kind.BottomSplice? ==> WfTables(job.kind.keepLeft) && WfTables(job.kind.keepRight)
    ensures job.kind.BottomSplice? ==> Between(job.kind.keepLeft, job.inputs[0], job.kind.keepRight)
  {
  }

  /** No input at or below the watermark is newer than the newest version at the bound. */
  lemma InputsNotNewer(levels: Levels, job: Job, w: SeqNo, a: seq<Run>, h: Log, flushed: SeqNo, bound: SeqNo, k: Key,
                       u: Ver)
    requires Around(levels, job, a) && Retains(AllRuns(levels), h, flushed, bound) && WatermarkSafe(job, w, bound)
    requires InRuns(job.inputs, u) && Matches(u, k, w)
    ensures u.at <= Newest(h, k, bound)
  {
    hide InRuns, AllRuns, Consumed, Around, InPlace, KeyKept;
    AroundFacts(levels, job, a);
    InputsAreConsumed(job, u);
    InRuns3(a, Consumed(job), job.older, u);
    assert Wrote(h, u) && WroteKey(h, k, u.at);
  }

  /** Everything of its key at or below the bound goes with it. */
  lemma RestIsDropped(levels: Levels, job: Job, w: SeqNo, merged: seq<Ver>, output: Option<Run>,
                      a: seq<Run>, h: Log, flushed: SeqNo, bound: SeqNo, k: Key, v: Ver)
    requires Around(levels, job, a) && OutputOf(job, w, merged, output)
    requires Retains(AllRuns(levels), h, flushed, bound)
    requires Newest(h, k, bound) > 0
    requires var top := VerAt(h, Newest(h, k, bound));
      Dropped(job, w, merged, top) && NewestBelow(merged, w, top) && !AnyMayContain(job.older, k)
    requires InRuns(AllRuns(levels), v) && v.key == k && v.at <= bound
    ensures Dropped(job, w, merged, v)
  {
    hide InRuns, AllRuns, Consumed, Around, InPlace, KeyKept, IsMerge, ScanOf, Sorted, WfRun;
    var top := VerAt(h, Newest(h, k, bound));
    AroundFacts(levels, job, a);
    assert Wrote(h, v) && WroteKey(h, k, v.at);
    KeptIsSurvivors(job, w, merged, v);
    KeptIsSurvivors(job, w, merged, top);
    InputsAreConsumed(job, top);
    InRuns3(a, Consumed(job), job.older, v);
    MiddleSeparates(a, Consumed(job), job.older, top, v);
    NotOlder(job.older, v);
    if !InRuns(job.inputs, v) {
      ConsumedNotInput(job, v);
      KeptHasNoInputKey(job, top, v);
    }
  }

  lemma NotOlder(rs: seq<Run>, v: Ver)
    requires WfRuns(rs) && !AnyMayContain(rs, v.key)
    ensures !InRuns(rs, v)
  {
  }

  /** A version at or below the watermark is dropped only if the history above the bound hides it:
      a newer version of its key at or below the bound is there, or it is a tombstone over nothing. */
  lemma DroppedIsHidden(levels: Levels, job: Job, w: SeqNo, merged: seq<Ver>, output: Option<Run>,
                        a: seq<Run>, h: Log, flushed: SeqNo, bound: SeqNo, k: Key)
    requires Around(levels, job, a) && OutputOf(job, w, merged, output)
    requires Retains(AllRuns(levels), h, flushed, bound) && WatermarkSafe(job, w, bound)
    requires Newest(h, k, bound) > 0 && Dropped(job, w, merged, VerAt(h, Newest(h, k, bound)))
    ensures h[Newest(h, k, bound) - 1].op.Delete?
    ensures forall v :: InRuns(AllRuns(levels), v) && v.key == k && v.at <= bound ==> Dropped(job, w, merged, v)
  {
    hide InRuns, AllRuns, Consumed, Around, InPlace, Retains, WatermarkSafe, IsMerge, ScanOf, Sorted, WfRun, WfRuns;
    RetainedWithin(levels, job, a, h, flushed, bound);
    var n := Newest(h, k, bound);
    var top := VerAt(h, n);
    KeptIsSurvivors(job, w, merged, top);
    forall u | u in merged && Matches(u, k, w) ensures u.at <= n {
      KeptIsSurvivors(job, w, merged, u);
      InputsNotNewer(levels, job, w, a, h, flushed, bound, k, u);
    }
    assert NewestBelow(merged, w, top) && !AnyMayContain(job.older, k);
    forall v | InRuns(AllRuns(levels), v) && v.key == k && v.at <= bound ensures Dropped(job, w, merged, v) {
      RestIsDropped(levels, job, w, merged, output, a, h, flushed, bound, k, v);
    }
  }

  lemma RetainedWithin(levels: Levels, job: Job, a: seq<Run>, h: Log, flushed: SeqNo, bound: SeqNo)
    requires Around(levels, job, a) && Retains(AllRuns(levels), h, flushed, bound)
    ensures bound <= flushed <= |h| && WfRuns(job.older)
  {
  }

  lemma ConsumedNotInput(job: Job, v: Ver)
    requires job.kind.BottomSplice? ==> |job.inputs| == 2
    requires InRuns(Consumed(job), v) && !InRuns(job.inputs, v)
    ensures job.kind.BottomSplice? && (v in Flat(job.kind.keepLeft) || v in Flat(job.kind.keepRight))
  {
    if job.kind.BottomSplice? {
      InRunsPair(job.inputs, v);
      InRunsPair(Consumed(job), v);
      Flat3(job.kind.keepLeft, job.inputs[1].tables, job.kind.keepRight, v);
    }
  }

  /** Every installed rewrite keeps the tree well formed and keeps everything it must retain. */
  lemma InstallRetains(levels: Levels, job: Job, w: SeqNo, merged: seq<Ver>, output: Option<Run>,
                       h: Log, flushed: SeqNo, bound: SeqNo)
    requires WfLevels(levels) && InPlace(levels, job) && WfRuns(job.older)
    requires OutputOf(job, w, merged, output) && WatermarkSafe(job, w, bound)
    requires Retains(AllRuns(levels), h, flushed, bound)
    requires forall r :: r in Produced(job, output) ==> !HasId(AllRuns(levels), r.id)
    ensures WfLevels(Install(levels, job, output))
    ensures Retains(AllRuns(Install(levels, job, output)), h, flushed, bound)
  {
    var a := InstallReplaces(levels, job, output);
    AroundParts(levels, job, a);
    var before, after := AllRuns(levels), AllRuns(Install(levels, job, output));
    ProducedWf(levels, job, w, merged, output);
    forall r, v | r in Produced(job, output) && v in Ents(r) ensures InRuns(Consumed(job), v) {
      var i :| 0 <= i < |Produced(job, output)| && Produced(job, output)[i] == r;
      ProducedContents(levels, job, w, merged, output, v);
    }
    forall r | r in Produced(job, output) ensures !HasId(a, r.id) && !HasId(job.older, r.id) {
      assert forall x :: x in a || x in job.older ==> x in before;
    }
    ReplaceKeepsTree(a, Consumed(job), Produced(job, output), job.older);
    forall v ensures InRuns(after, v) <==> InRuns(before, v) && !Dropped(job, w, merged, v) {
      InstalledContents(levels, job, w, merged, output, a, v);
    }
    forall n | bound < n <= flushed ensures InRuns(after, VerAt(h, n)) {
      var v := VerAt(h, n);
      assert InRuns(before, v);
      if InRuns(job.inputs, v) { KeptIsSurvivors(job, w, merged, v); }
    }
    forall k ensures KeyKept(after, h, k, bound) {
      assert KeyKept(before, h, k, bound);
      var n := Newest(h, k, bound);
      if n > 0 && InRuns(before, VerAt(h, n)) && Dropped(job, w, merged, VerAt(h, n)) {
        DroppedIsHidden(levels, job, w, merged, output, a, h, flushed, bound, k);
      }
    }
  }

  /** A compaction, as readers see it: at every retained seqno, every key reads as before. */
  lemma CompactionPreservesReads(levels: Levels, job: Job, w: SeqNo, merged: seq<Ver>, output: Option<Run>,
                                 h: Log, flushed: SeqNo, bound: SeqNo, k: Key, s: SeqNo)
    requires WfLevels(levels) && InPlace(levels, job) && WfRuns(job.older)
    requires OutputOf(job, w, merged, output) && WatermarkSafe(job, w, bound)
    requires Retains(AllRuns(levels), h, flushed, bound)
    requires forall r :: r in Produced(job, output) ==> !HasId(AllRuns(levels), r.id)
    requires bound <= s <= flushed
    ensures WfLevels(Install(levels, job, output))
    ensures Visible(Get(AllRuns(Install(levels, job, output)), k, s)) == Visible(Get(AllRuns(levels), k, s))
  {
    InstallRetains(levels, job, w, merged, output, h, flushed, bound);
    TreeReadExact(AllRuns(levels), h, flushed, bound, k, s);
    TreeReadExact(AllRuns(Install(levels, job, output)), h, flushed, bound, k, s);
  }
}
