/** What the journal's files hold: complete bases with the deltas after them, and at most one unfinished
 * base.  In any such log, cut anywhere, a rebuild finds the newest complete base; JournalWriter's drainer
 * leaves no other kind.
 */
module Journal {
  import opened Sequences
  import opened Types
  import opened History
  import opened Streams
  import opened JournalLog
  import opened JournalState

  // ---------------------------------------------------------------- the shape of the log

  /** Records without the headers that open each file. */
  function Strip(rs: seq<Rec>): seq<Rec> {
    if rs == [] then []
    else if rs[|rs| - 1].Header? then Strip(rs[..|rs| - 1])
    else Strip(rs[..|rs| - 1]) + [rs[|rs| - 1]]
  }

  /** A complete base and the deltas after it, written of the source's history `h`; `junk` is what an
      interrupted attempt left before it, `from` where the deltas' subscription stood. */
  datatype Era = Era(h: Log, junk: seq<Rec>, at: SeqNo, from: SeqNo, base: seq<Rec>, deltas: seq<Rec>)

  function Core(e: Era): seq<Rec> {
    [Checkpoint(e.at)] + e.base + [BaseEnd(e.at)]
  }

  function Render(e: Era): seq<Rec> {
    e.junk + Core(e) + e.deltas
  }

  function RenderAll(es: seq<Era>): seq<Rec> {
    if es == [] then [] else RenderAll(es[..|es| - 1]) + Render(es[|es| - 1])
  }

  /** Scaffolding of a base not yet complete. */
  predicate Scaffold(rs: seq<Rec>) {
    forall i :: 0 <= i < |rs| ==> rs[i].Checkpoint? || rs[i].BaseKey?
  }

  ghost predicate EraOk(s: Scope, e: Era) {
    Scaffold(e.junk) && e.from <= e.at <= |e.h| && BaseIs(s, e.h, e.at, e.base) &&
    EndOf(e.from, e.deltas) <= |e.h| && Feed(s, e.h, e.from, EndOf(e.from, e.deltas), e.deltas)
  }

  ghost predicate ErasOk(s: Scope, es: seq<Era>) {
    forall i :: 0 <= i < |es| ==> EraOk(s, es[i])
  }

  /** Whatever came first, then complete bases with their deltas, then an unfinished base. */
  ghost predicate Shape(s: Scope, body: seq<Rec>, lead: seq<Rec>, es: seq<Era>, partial: seq<Rec>) {
    es != [] && ErasOk(s, es) && Scaffold(partial) && body == lead + RenderAll(es) + partial
  }

  // ---------------------------------------------------------------- the walk finds the last era

  lemma {:induction false} WalkScaffold(rs: seq<Rec>, more: seq<Rec>)
    requires Scaffold(more)
    ensures WalkOf(rs + more).best.Some? <==> WalkOf(rs).best.Some?
    ensures WalkOf(rs).best.Some? ==>
      WalkOf(rs + more).best == Some(WalkOf(rs).best.value.(tail := WalkOf(rs).best.value.tail + more))
  {
    if more == [] {
      assert rs + more == rs;
      assert WalkOf(rs).best.Some? ==> WalkOf(rs).best.value.tail + [] == WalkOf(rs).best.value.tail;
    } else {
      var pre, r := more[..|more| - 1], more[|more| - 1];
      WalkScaffold(rs, pre);
      assert (rs + more)[..|rs + more| - 1] == rs + pre;
      assert WalkOf(rs).best.Some? ==> (WalkOf(rs).best.value.tail + pre) + [r] == WalkOf(rs).best.value.tail + more;
    }
  }

  predicate BaseKeys(rs: seq<Rec>) {
    forall i :: 0 <= i < |rs| ==> rs[i].BaseKey?
  }

  predicate Deltas(rs: seq<Rec>) {
    forall i :: 0 <= i < |rs| ==> rs[i].Delta?
  }

  /** The span since a checkpoint grows by base keys. */
  lemma {:induction false} WalkBase(rs: seq<Rec>, at: SeqNo, base: seq<Rec>)
    requires BaseKeys(base)
    ensures WalkOf(rs + [Checkpoint(at)] + base).open == Some((at, base))
  {
    if base == [] {
      assert (rs + [Checkpoint(at)])[..|rs|] == rs;
      assert rs + [Checkpoint(at)] + base == rs + [Checkpoint(at)];
    } else {
      var pre := base[..|base| - 1];
      WalkBase(rs, at, pre);
      var all := rs + [Checkpoint(at)] + base;
      assert all[..|all| - 1] == rs + [Checkpoint(at)] + pre;
      assert pre + [base[|base| - 1]] == base;
    }
  }

  lemma {:induction false} WalkDeltas(rs: seq<Rec>, ds: seq<Rec>)
    requires Deltas(ds) && WalkOf(rs).best.Some?
    ensures WalkOf(rs + ds).best == Some(WalkOf(rs).best.value.(tail := WalkOf(rs).best.value.tail + ds))
  {
    if ds == [] {
      assert rs + ds == rs;
      assert WalkOf(rs).best.value.tail + [] == WalkOf(rs).best.value.tail;
    } else {
      var pre, r := ds[..|ds| - 1], ds[|ds| - 1];
      WalkDeltas(rs, pre);
      assert (rs + ds)[..|rs + ds| - 1] == rs + pre;
      assert (WalkOf(rs).best.value.tail + pre) + [r] == WalkOf(rs).best.value.tail + ds;
    }
  }

  /** After a complete era, the walk's best is that era. */
  lemma WalkEra(rs: seq<Rec>, e: Era)
    requires BaseKeys(e.base) && Deltas(e.deltas)
    ensures WalkOf(rs + Render(e)).best == Some(Anchor(e.at, e.base, e.deltas))
  {
    hide WalkOf;
    var pre := rs + e.junk;
    WalkBase(pre, e.at, e.base);
    var upTo := pre + [Checkpoint(e.at)] + e.base;
    WalkClose(upTo, e.at, e.base);
    WalkDeltas(upTo + [BaseEnd(e.at)], e.deltas);
    assert upTo + [BaseEnd(e.at)] + e.deltas == rs + Render(e);
    assert [] + e.deltas == e.deltas;
  }

  lemma WalkClose(rs: seq<Rec>, at: SeqNo, base: seq<Rec>)
    requires WalkOf(rs).open == Some((at, base))
    ensures WalkOf(rs + [BaseEnd(at)]).best == Some(Anchor(at, base, []))
  {
    assert (rs + [BaseEnd(at)])[..|rs|] == rs;
  }

  /** The anchor of a well-shaped log is its last complete base. */
  lemma AnchorIsLastEra(s: Scope, body: seq<Rec>, lead: seq<Rec>, es: seq<Era>, partial: seq<Rec>)
    requires Shape(s, body, lead, es, partial)
    ensures var e := es[|es| - 1]; WalkOf(body).best == Some(Anchor(e.at, e.base, e.deltas + partial))
  {
    var e, pre := es[|es| - 1], lead + RenderAll(es[..|es| - 1]);
    assert EraOk(s, e);
    SplitLast(lead, es, partial);
    hide *;
    EraRecords(s, e);
    WalkEra(pre, e);
    WalkScaffold(pre + Render(e), partial);
  }

  lemma SplitLast(lead: seq<Rec>, es: seq<Era>, partial: seq<Rec>)
    requires es != []
    ensures lead + RenderAll(es) + partial == lead + RenderAll(es[..|es| - 1]) + Render(es[|es| - 1]) + partial
  {
    Assoc(lead, RenderAll(es[..|es| - 1]), Render(es[|es| - 1]));
    hide Render;
  }

  lemma RenderNone()
    ensures RenderAll([]) == []
  {
  }

  lemma CutConcat(a: seq<Rec>, b: seq<Rec>, n: nat)
    requires n <= |a + b|
    ensures (a + b)[..n] == if n <= |a| then a[..n] else a + b[..n - |a|]
  {
  }

  lemma EraRecords(s: Scope, e: Era)
    requires EraOk(s, e)
    ensures BaseKeys(e.base) && Deltas(e.deltas)
    ensures DeltasAscend(e.deltas) && DeltasPositive(e.deltas)
  {
  }

  // ---------------------------------------------------------------- headers do not matter

  lemma {:induction false} StripConcat(a: seq<Rec>, b: seq<Rec>)
    ensures Strip(a + b) == Strip(a) + Strip(b)
  {
    if b == [] {
      assert a + b == a;
    } else {
      StripConcat(a, b[..|b| - 1]);
      assert (a + b)[..|a + b| - 1] == a + b[..|b| - 1];
    }
  }

  function StripWalk(w: Walk): Walk {
    Walk(if w.open.Some? then Some((w.open.value.0, Strip(w.open.value.1))) else None,
         if w.best.Some? then Some(Anchor(w.best.value.at, Strip(w.best.value.base), Strip(w.best.value.tail)))
           else None)
  }

  lemma StepSkipsHeaders(w: Walk, r: Rec)
    ensures StripWalk(Step(w, r)) == if r.Header? then StripWalk(w) else Step(StripWalk(w), r)
  {
    if w.open.Some? { StripSnoc(w.open.value.1, r); }
    if w.best.Some? { StripSnoc(w.best.value.tail, r); }
  }

  /** Skipping headers while reading is the same as never having written them. */
  lemma {:induction false} WalkSkipsHeaders(rs: seq<Rec>)
    ensures StripWalk(WalkOf(rs)) == WalkOf(Strip(rs))
  {
    if rs != [] {
      var pre, r := rs[..|rs| - 1], rs[|rs| - 1];
      WalkSkipsHeaders(pre);
      StepSkipsHeaders(WalkOf(pre), r);
      hide Step, StripWalk;
      if !r.Header? { assert Strip(rs)[..|Strip(rs)| - 1] == Strip(pre); }
    }
  }

  lemma StripSnoc(rs: seq<Rec>, r: Rec)
    ensures Strip(rs + [r]) == if r.Header? then Strip(rs) else Strip(rs) + [r]
  {
    assert (rs + [r])[..|rs|] == rs;
  }

  lemma {:induction false} ReplaySkipsHeaders(m: map<Key, Repr>, rs: seq<Rec>)
    ensures ApplyBase(Strip(rs)) == ApplyBase(rs) && ApplyDeltas(m, Strip(rs)) == ApplyDeltas(m, rs)
    ensures LastDelta(Strip(rs)) == LastDelta(rs)
  {
    if rs != [] {
      var pre, r := rs[..|rs| - 1], rs[|rs| - 1];
      ReplaySkipsHeaders(m, pre);
      if !r.Header? { assert Strip(rs)[..|Strip(rs)| - 1] == Strip(pre); }
    }
  }

  lemma {:induction false} StripMembers(rs: seq<Rec>)
    ensures forall r :: r in Strip(rs) <==> r in rs && !r.Header?
  {
    if rs != [] {
      StripMembers(rs[..|rs| - 1]);
      assert forall r :: r in rs <==> r in rs[..|rs| - 1] || r == rs[|rs| - 1];
    }
  }

  lemma {:induction false} ChecksSkipHeaders(rs: seq<Rec>)
    ensures DeltasAscend(Strip(rs)) <==> DeltasAscend(rs)
    ensures DeltasPositive(Strip(rs)) <==> DeltasPositive(rs)
    ensures BaseKeys(Strip(rs)) <==> BaseSpan(rs)
  {
    if rs != [] {
      var pre, r := rs[..|rs| - 1], rs[|rs| - 1];
      ChecksSkipHeaders(pre);
      ChecksSnoc(pre, r);
      ChecksSnoc(Strip(pre), r);
      assert pre + [r] == rs;
      StripMembers(pre);
      AllBelow(pre, r);
      AllBelow(Strip(pre), r);
    }
  }

  /** The checks, one record at a time. */
  lemma ChecksSnoc(rs: seq<Rec>, r: Rec)
    ensures DeltasAscend(rs + [r]) <==> DeltasAscend(rs) && (r.Delta? ==> Below(rs, r))
    ensures DeltasPositive(rs + [r]) <==> DeltasPositive(rs) && (r.Delta? ==> r.at > 0)
    ensures BaseSpan(rs + [r]) <==> BaseSpan(rs) && (r.BaseKey? || r.Header?)
    ensures BaseKeys(rs + [r]) <==> BaseKeys(rs) && r.BaseKey?
  {
    var all := rs + [r];
    assert forall i :: 0 <= i < |rs| ==> all[i] == rs[i];
    assert all[|rs|] == r;
  }

  predicate Below(rs: seq<Rec>, r: Rec)
    requires r.Delta?
  {
    forall i :: 0 <= i < |rs| && rs[i].Delta? ==> rs[i].at < r.at
  }

  lemma AllBelow(rs: seq<Rec>, r: Rec)
    ensures r.Delta? ==> (Below(rs, r) <==> forall x :: x in rs && x.Delta? ==> x.at < r.at)
  {
    if r.Delta? && Below(rs, r) {
      forall x | x in rs && x.Delta? ensures x.at < r.at {}
    }
  }

  /** A well-shaped log in a well-formed directory is accepted, and rebuilds from its last era. */
  lemma ShapeIsAccepted(s: Scope, rs: seq<Rec>, lead: seq<Rec>, es: seq<Era>, partial: seq<Rec>)
    requires Shape(s, Strip(rs), lead, es, partial)
    ensures var e, best := es[|es| - 1], WalkOf(rs).best;
      best.Some? && BaseSpan(best.value.base) && DeltasAscend(best.value.tail) && DeltasPositive(best.value.tail) &&
      best.value.at == e.at && ApplyBase(best.value.base) == ApplyBase(e.base) &&
      (forall m :: ApplyDeltas(m, best.value.tail) == ApplyDeltas(m, e.deltas + partial)) &&
      LastDelta(best.value.tail) == LastDelta(e.deltas + partial)
  {
    hide WalkOf, BaseIs, ApplyBase, ApplyDeltas, Strip, Feed;
    var e := es[|es| - 1];
    AnchorIsLastEra(s, Strip(rs), lead, es, partial);
    WalkSkipsHeaders(rs);
    var best := WalkOf(rs).best.value;
    assert EraOk(s, e);
    EraRecords(s, e);
    ReplaySkipsHeaders(map[], best.base);
    forall m ensures ApplyDeltas(m, best.tail) == ApplyDeltas(m, e.deltas + partial) {
      ReplaySkipsHeaders(m, best.tail);
    }
    ReplaySkipsHeaders(map[], best.tail);
    ChecksSkipHeaders(best.base);
    ChecksSkipHeaders(best.tail);
    ScaffoldChecks(e.deltas, partial);
  }

  lemma ScaffoldChecks(ds: seq<Rec>, partial: seq<Rec>)
    requires Scaffold(partial) && DeltasAscend(ds) && DeltasPositive(ds)
    ensures DeltasAscend(ds + partial) && DeltasPositive(ds + partial)
  {
  }

  // ---------------------------------------------------------------- crashes

  /** Cutting a well-shaped log anywhere after its first complete base leaves a well-shaped log, with
      no base and no delta it did not have. */
  lemma {:induction false} CutKeepsShape(s: Scope, body: seq<Rec>, lead: seq<Rec>, es: seq<Era>,
                                         partial: seq<Rec>, n: nat)
    returns (es': seq<Era>, partial': seq<Rec>)
    requires Shape(s, body, lead, es, partial)
    requires |lead + es[0].junk + Core(es[0])| <= n <= |body|
    ensures Shape(s, body[..n], lead, es', partial') && IsCut(es', es)
    decreases |es|
  {
    hide EraOk, RenderAll, Render, Core, Scaffold;
    var m := |es| - 1;
    var pre := lead + RenderAll(es[..m]);
    SplitLast(lead, es, partial);
    RenderNone();
    assert es[..0] == [];
    CutConcat(pre + Render(es[m]), partial, n);
    CutConcat(pre, Render(es[m]), if n <= |pre + Render(es[m])| then n else |pre|);
    if n > |pre + Render(es[m])| {
      es', partial' := es, partial[..n - |pre + Render(es[m])|];
      WholeCut(s, lead, es, partial, n - |pre + Render(es[m])|);
    } else if n > |pre| {
      es', partial' := CutInLast(s, lead, es, n - |pre|);
    } else {
      PreIsShaped(s, lead, es);
      es', partial' := CutKeepsShape(s, pre, lead, es[..m], [], n);
    }
  }

  lemma WholeCut(s: Scope, lead: seq<Rec>, es: seq<Era>, partial: seq<Rec>, k: nat)
    requires es != [] && ErasOk(s, es) && Scaffold(partial) && k <= |partial|
    ensures Shape(s, lead + RenderAll(es[..|es| - 1]) + Render(es[|es| - 1]) + partial[..k], lead, es, partial[..k])
    ensures IsCut(es, es)
  {
    hide EraOk, Render;
    SplitLast(lead, es, partial[..k]);
    var m := |es| - 1;
    assert es[m].(deltas := es[m].deltas) == es[m];
  }

  /** The eras of `cut` are the first ones of `es`, the last of them perhaps with fewer deltas. */
  predicate IsCut(cut: seq<Era>, es: seq<Era>) {
    0 < |cut| <= |es| &&
    var m := |cut| - 1;
    cut[..m] == es[..m] && cut[m] == es[m].(deltas := cut[m].deltas) && cut[m].deltas <= es[m].deltas
  }

  lemma PreIsShaped(s: Scope, lead: seq<Rec>, es: seq<Era>)
    requires es != [] && ErasOk(s, es)
    requires |lead + es[0].junk + Core(es[0])| <= |lead + RenderAll(es[..|es| - 1])|
    ensures var m := |es| - 1; m > 0 && es[..m][0] == es[0] && Shape(s, lead + RenderAll(es[..m]), lead, es[..m], [])
  {
    hide BaseIs, Feed;
    var m := |es| - 1;
    assert es[..0] == [] && RenderAll([]) == [];
    assert lead + RenderAll(es[..m]) + [] == lead + RenderAll(es[..m]);
    assert forall i :: 0 <= i < m ==> es[..m][i] == es[i];
  }

  /** A cut inside the last era: some of its deltas go, or its base was not finished. */
  lemma CutInLast(s: Scope, lead: seq<Rec>, es: seq<Era>, k: nat) returns (es': seq<Era>, partial': seq<Rec>)
    requires es != [] && ErasOk(s, es) && k <= |Render(es[|es| - 1])|
    requires |es| == 1 ==> |es[0].junk + Core(es[0])| <= k
    ensures Shape(s, lead + RenderAll(es[..|es| - 1]) + Render(es[|es| - 1])[..k], lead, es', partial') &&
      IsCut(es', es)
  {
    hide BaseIs, Feed;
    var m := |es| - 1;
    var e, pre := es[m], lead + RenderAll(es[..m]);
    assert EraOk(s, e);
    CutConcat(e.junk + Core(e), e.deltas, k);
    if k > |e.junk + Core(e)| || m == 0 {
      var n := k - |e.junk + Core(e)|;
      CutInDeltas(s, es, n);
      es', partial' := es[m := e.(deltas := e.deltas[..n])], [];
      RenderLast(es, e.(deltas := e.deltas[..n]));
      assert Render(e)[..k] == Render(e.(deltas := e.deltas[..n]));
      Regroup(lead, RenderAll(es[..m]), Render(e)[..k]);
    } else if k == |e.junk + Core(e)| {
      CutInDeltas(s, es, 0);
      es', partial' := es[m := e.(deltas := [])], [];
      assert e.deltas[..0] == [];
      RenderLast(es, e.(deltas := []));
      assert Render(e)[..k] == Render(e.(deltas := []));
      Regroup(lead, RenderAll(es[..m]), Render(e)[..k]);
    } else {
      es', partial' := es[..m], Render(e)[..k];
      EraRecords(s, e);
      ScaffoldCut(e, k);
      assert forall i :: 0 <= i < m ==> es[..m][i] == es[i];
      assert es[m - 1].(deltas := es[m - 1].deltas) == es[m - 1];
    }
  }

  lemma Regroup(a: seq<Rec>, b: seq<Rec>, c: seq<Rec>)
    ensures a + b + c == a + (b + c) + []
  {
  }

  lemma RenderLast(es: seq<Era>, e: Era)
    requires es != []
    ensures RenderAll(es[|es| - 1 := e]) == RenderAll(es[..|es| - 1]) + Render(e)
  {
    assert es[|es| - 1 := e][..|es| - 1] == es[..|es| - 1];
  }

  lemma CutInDeltas(s: Scope, es: seq<Era>, k: nat)
    requires es != [] && ErasOk(s, es) && k <= |es[|es| - 1].deltas|
    ensures ErasOk(s, es[|es| - 1 := es[|es| - 1].(deltas := es[|es| - 1].deltas[..k])])
  {
    var e := es[|es| - 1];
    assert EraOk(s, e);
    FeedCut(s, e.h, e.from, EndOf(e.from, e.deltas), e.deltas, k);
    var es' := es[|es| - 1 := e.(deltas := e.deltas[..k])];
    forall i | 0 <= i < |es'| ensures EraOk(s, es'[i]) {
      assert EraOk(s, es[i]);
    }
  }

  lemma ScaffoldCut(e: Era, n: nat)
    requires Scaffold(e.junk) && BaseKeys(e.base) && n < |e.junk + Core(e)|
    ensures n <= |Render(e)| && Scaffold(Render(e)[..n])
  {
    var cut := Render(e)[..n];
    forall i | 0 <= i < n ensures cut[i].Checkpoint? || cut[i].BaseKey? {
      assert cut[i] == (e.junk + Core(e))[i];
    }
  }
}
