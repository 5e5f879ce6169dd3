/** The journal's log: what the files hold, how they are read back, and what a rebuild makes of them.
 *
 * Records are whole here; a file that ends in a torn record says so.
 */
module JournalLog {
  import opened Types

  datatype Rec =
    | Header(source: nat)
    | Checkpoint(at: SeqNo)
    | BaseKey(key: Key, value: Repr)
    | BaseEnd(at: SeqNo)
    | Delta(at: SeqNo, key: Key, op: Op)

  datatype LogFile = LogFile(id: nat, recs: seq<Rec>, torn: bool)

  datatype Error = NoFiles | Gap | TornMiddle | NoHeader | Foreign | NoBase | NotABase | OutOfOrder

  datatype Result<T> = Ok(value: T) | Err(error: Error)

  // ---------------------------------------------------------------- reading the directory

  /** The files form a chain the writer could have produced. */
  predicate Chain(files: seq<LogFile>, source: nat) {
    (forall i :: 0 <= i < |files| ==> files[i].id == files[0].id + i) &&
    (forall i :: 0 <= i < |files| - 1 ==> !files[i].torn) &&
    (forall i :: 0 <= i < |files| ==> files[i].recs == [] || files[i].recs[0] == Header(source))
  }

  function Contents(files: seq<LogFile>): seq<Rec> {
    if files == [] then [] else Contents(files[..|files| - 1]) + files[|files| - 1].recs
  }

  /** Read every file in id order, refusing gaps, torn middles and foreign files. */
  method ReadAllRecords(files: seq<LogFile>) returns (r: Result<seq<Rec>>)
    ensures r.Ok? <==> files != [] && exists source :: Chain(files, source)
    ensures r.Ok? ==> r.value == Contents(files)
    ensures r == Err(NoFiles) <==> files == []
  {
    if files == [] { return Err(NoFiles); }
    var out: seq<Rec> := [];
    var source: Option<nat> := None;
    var expected := files[0].id;
    var i := 0;
    while i < |files|
      invariant 0 <= i <= |files| && expected == files[0].id + i
      invariant forall j :: 0 <= j < i ==> files[j].id == files[0].id + j && (j < |files| - 1 ==> !files[j].torn)
      invariant source.None? ==> forall j :: 0 <= j < i ==> files[j].recs == []
      invariant source.Some? ==>
        forall j :: 0 <= j < i ==> files[j].recs == [] || files[j].recs[0] == Header(source.value)
      invariant source.Some? ==> exists j :: 0 <= j < i && files[j].recs != []
      invariant out == Contents(files[..i])
    {
      var f := files[i];
      if f.id != expected { return Err(Gap); }
      expected := f.id + 1;
      if f.torn && i != |files| - 1 { return Err(TornMiddle); }
      if f.recs != [] {
        if !f.recs[0].Header? { return Err(NoHeader); }
        if source.None? { source := Some(f.recs[0].source); }
        if f.recs[0].source != source.value { return Err(Foreign); }
      }
      assert files[..i + 1][..i] == files[..i];
      out := out + f.recs;
      i := i + 1;
    }
    assert files[..i] == files;
    assert Chain(files, if source.Some? then source.value else 0);
    return Ok(out);
  }

  // ---------------------------------------------------------------- the last complete base

  /** A complete base snapshot: its seqno, its span, and everything after it. */
  datatype Anchor = Anchor(at: SeqNo, base: seq<Rec>, tail: seq<Rec>)

  /** Walking forward: the span since an unfinished checkpoint, and the last finished one. */
  datatype Walk = Walk(open: Option<(SeqNo, seq<Rec>)>, best: Option<Anchor>)

  function Step(w: Walk, r: Rec): Walk {
    var best := if w.best.Some? then Some(w.best.value.(tail := w.best.value.tail + [r])) else None;
    match r
    case Checkpoint(at) => Walk(Some((at, [])), best)
    case BaseEnd(at) =>
      if w.open.Some?
      then Walk(None, Some(Anchor(if w.open.value.0 > at then w.open.value.0 else at, w.open.value.1, [])))
      else Walk(None, best)
    case _ => Walk(if w.open.Some? then Some((w.open.value.0, w.open.value.1 + [r])) else None, best)
  }

  function WalkOf(rs: seq<Rec>): Walk {
    if rs == [] then Walk(None, None) else Step(WalkOf(rs[..|rs| - 1]), rs[|rs| - 1])
  }

  lemma WalkNothing()
    ensures WalkOf([]) == Walk(None, None)
  {
  }

  lemma WalkNext(rs: seq<Rec>, i: nat)
    requires i < |rs|
    ensures WalkOf(rs[..i + 1]) == Step(WalkOf(rs[..i]), rs[i])
  {
    assert rs[..i + 1][..i] == rs[..i];
  }

  lemma SpanNext(rs: seq<Rec>, from: nat, i: nat)
    requires from <= i < |rs|
    ensures rs[from..i + 1] == rs[from..i] + [rs[i]] && rs[i + 1..i + 1] == []
  {
  }

  /** Find the last checkpoint that is followed by its base end, as indices into the records. */
  method FindLastCompleteCheckpoint(rs: seq<Rec>) returns (found: bool, at: SeqNo, start: nat, end: nat)
    ensures found <==> WalkOf(rs).best.Some?
    ensures found ==> start <= end < |rs| && WalkOf(rs).best == Some(Anchor(at, rs[start..end], rs[end + 1..]))
  {
    hide WalkOf;
    found, at, start, end := false, 0, 0, 0;
    var cur: Option<(nat, SeqNo)> := None;
    var i := 0;
    WalkNothing();
    assert rs[..0] == [];
    while i < |rs|
      invariant 0 <= i <= |rs|
      invariant WalkOf(rs[..i]).open.Some? <==> cur.Some?
      invariant cur.Some? ==> cur.value.0 < i && WalkOf(rs[..i]).open.value == (cur.value.1, rs[cur.value.0 + 1..i])
      invariant found <==> WalkOf(rs[..i]).best.Some?
      invariant found ==> start <= end < i && WalkOf(rs[..i]).best.value == Anchor(at, rs[start..end], rs[end + 1..i])
    {
      WalkNext(rs, i);
      SpanNext(rs, if cur.Some? then cur.value.0 + 1 else i, i);
      SpanNext(rs, if found then end + 1 else i, i);
      match rs[i] {
        case Checkpoint(s) =>
          cur := Some((i, s));
        case BaseEnd(e) =>
          if cur.Some? {
            found, at, start, end := true, if cur.value.1 > e then cur.value.1 else e, cur.value.0 + 1, i;
            cur := None;
          }
        case _ =>
      }
      i := i + 1;
    }
    assert rs[..i] == rs;
    if found { assert rs[end + 1..i] == rs[end + 1..]; }
  }

  // ---------------------------------------------------------------- rebuild

  datatype Rebuilt = Rebuilt(state: map<Key, Repr>, last: SeqNo)

  function Apply(m: map<Key, Repr>, k: Key, op: Op): map<Key, Repr> {
    if op.Put? then m[k := op.repr] else map x | x in m && x != k :: m[x]
  }

  function ApplyBase(rs: seq<Rec>): map<Key, Repr> {
    if rs == [] then map[]
    else
      var m := ApplyBase(rs[..|rs| - 1]);
      var r := rs[|rs| - 1];
      if r.BaseKey? then m[r.key := r.value] else m
  }

  function ApplyDeltas(m: map<Key, Repr>, rs: seq<Rec>): map<Key, Repr> {
    if rs == [] then m
    else
      var before := ApplyDeltas(m, rs[..|rs| - 1]);
      var r := rs[|rs| - 1];
      if r.Delta? then Apply(before, r.key, r.op) else before
  }

  function LastDelta(rs: seq<Rec>): SeqNo {
    if rs == [] then 0
    else if rs[|rs| - 1].Delta? then rs[|rs| - 1].at
    else LastDelta(rs[..|rs| - 1])
  }

  predicate BaseSpan(rs: seq<Rec>) {
    forall i :: 0 <= i < |rs| ==> rs[i].BaseKey? || rs[i].Header?
  }

  predicate DeltasAscend(rs: seq<Rec>) {
    forall i, j :: 0 <= i < j < |rs| && rs[i].Delta? && rs[j].Delta? ==> rs[i].at < rs[j].at
  }

  predicate DeltasPositive(rs: seq<Rec>) {
    forall i :: 0 <= i < |rs| && rs[i].Delta? ==> rs[i].at > 0
  }

  /** Replay a log: the anchoring base, then every delta after it, in order. */
  method Rebuild(files: seq<LogFile>) returns (r: Result<Rebuilt>)
    ensures var best := WalkOf(Contents(files)).best;
      r.Ok? <==>
        files != [] && (exists source :: Chain(files, source)) && best.Some? && BaseSpan(best.value.base) &&
        DeltasAscend(best.value.tail) && DeltasPositive(best.value.tail)
    ensures var best := WalkOf(Contents(files)).best;
      r.Ok? ==> r.value == Rebuilt(ApplyDeltas(ApplyBase(best.value.base), best.value.tail),
                                   Max(best.value.at, LastDelta(best.value.tail)))
  {
    var read := ReadAllRecords(files);
    if read.Err? { return Err(read.error); }
    var rs := read.value;
    var found, at, start, end := FindLastCompleteCheckpoint(rs);
    if !found { return Err(NoBase); }
    var ok, state := ReplayBase(rs[start..end]);
    if !ok { return Err(NotABase); }
    var last;
    ok, state, last := ReplayDeltas(state, at, rs[end + 1..]);
    if !ok { return Err(OutOfOrder); }
    return Ok(Rebuilt(state, last));
  }

  method ReplayBase(rs: seq<Rec>) returns (ok: bool, state: map<Key, Repr>)
    ensures ok <==> BaseSpan(rs)
    ensures ok ==> state == ApplyBase(rs)
  {
    ok, state := true, map[];
    var i := 0;
    while i < |rs|
      invariant 0 <= i <= |rs| && BaseSpan(rs[..i]) && state == ApplyBase(rs[..i])
    {
      assert rs[..i + 1][..i] == rs[..i];
      if rs[i].BaseKey? {
        state := state[rs[i].key := rs[i].value];
      } else if !rs[i].Header? {
        return false, state;
      }
      i := i + 1;
    }
    assert rs[..i] == rs;
  }

  method ReplayDeltas(base: map<Key, Repr>, at: SeqNo, rs: seq<Rec>)
    returns (ok: bool, state: map<Key, Repr>, last: SeqNo)
    ensures ok <==> DeltasAscend(rs) && DeltasPositive(rs)
    ensures ok ==> state == ApplyDeltas(base, rs) && last == Max(at, LastDelta(rs))
  {
    ok, state, last := true, base, at;
    var prev := 0;
    var i := 0;
    while i < |rs|
      invariant 0 <= i <= |rs| && DeltasAscend(rs[..i]) && DeltasPositive(rs[..i])
      invariant forall j :: 0 <= j < i && rs[j].Delta? ==> rs[j].at <= prev
      invariant prev > 0 ==> exists j :: 0 <= j < i && rs[j].Delta? && rs[j].at == prev
      invariant state == ApplyDeltas(base, rs[..i]) && prev == LastDelta(rs[..i]) && last == Max(at, prev)
    {
      assert rs[..i + 1][..i] == rs[..i];
      if rs[i].Delta? {
        if rs[i].at <= prev { return false, state, last; }
        prev := rs[i].at;
        state := Apply(state, rs[i].key, rs[i].op);
        last := Max(last, rs[i].at);
      }
      i := i + 1;
    }
    assert rs[..i] == rs;
  }
}
