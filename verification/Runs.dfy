/** Sorted runs of table fragments, and point reads that stop at the first hit. */
module Runs {
  import opened Sequences
  import opened Types

  /** A table: sorted entries, and the keys its bloom filter answers "maybe" for. */
  datatype Table = Table(id: nat, ents: seq<Ver>, filter: set<Key>)

  datatype Run = Run(id: nat, tables: seq<Table>)

  predicate WfTable(t: Table) {
    |t.ents| > 0 && Sorted(t.ents) && forall v :: v in t.ents ==> v.key in t.filter
  }

  function MinKey(t: Table): Key
    requires WfTable(t)
  {
    t.ents[0].key
  }

  function MaxKey(t: Table): Key
    requires WfTable(t)
  {
    t.ents[|t.ents| - 1].key
  }

  /** Fragments are key-ordered and share no user key. */
  predicate WfTables(ts: seq<Table>) {
    (forall i :: 0 <= i < |ts| ==> WfTable(ts[i])) &&
    (forall i, j :: 0 <= i < j < |ts| ==> MaxKey(ts[i]) < MinKey(ts[j]))
  }

  predicate WfRun(r: Run) {
    WfTables(r.tables)
  }

  /** All entries of a run, in internal-key order. */
  function Flat(ts: seq<Table>): seq<Ver> {
    if ts == [] then [] else ts[0].ents + Flat(ts[1..])
  }

  function Ents(r: Run): seq<Ver> {
    Flat(r.tables)
  }

  lemma {:induction false} FlatConcat(a: seq<Table>, b: seq<Table>)
    ensures Flat(a + b) == Flat(a) + Flat(b)
  {
    if a == [] {
      assert a + b == b;
    } else {
      FlatConcat(a[1..], b);
      assert (a + b)[1..] == a[1..] + b;
      Assoc(a[0].ents, Flat(a[1..]), Flat(b));
    }
  }

  lemma {:induction false} FlatMember(ts: seq<Table>, v: Ver)
    ensures v in Flat(ts) <==> exists i :: 0 <= i < |ts| && v in ts[i].ents
  {
    if ts != [] {
      FlatMember(ts[1..], v);
      if v in Flat(ts[1..]) {
        var i :| 0 <= i < |ts[1..]| && v in ts[1..][i].ents;
        assert v in ts[i + 1].ents;
      }
      if i :| 0 <= i < |ts| && v in ts[i].ents {
        if i > 0 { assert ts[1..][i - 1] == ts[i]; }
      }
    }
  }

  lemma TableBounds(t: Table, v: Ver)
    requires WfTable(t) && v in t.ents
    ensures MinKey(t) <= v.key <= MaxKey(t)
  {
    var i :| 0 <= i < |t.ents| && t.ents[i] == v;
    if i > 0 { assert IkeyLess(t.ents[0], t.ents[i]); }
    if i < |t.ents| - 1 { assert IkeyLess(t.ents[i], t.ents[|t.ents| - 1]); }
  }

  /** The entries of a well-formed run are sorted. */
  lemma {:induction false} FlatSorted(ts: seq<Table>)
    requires WfTables(ts)
    ensures Sorted(Flat(ts))
  {
    if ts != [] {
      assert forall i :: 0 <= i < |ts[1..]| ==> ts[1..][i] == ts[i + 1];
      FlatSorted(ts[1..]);
      forall v, w | v in ts[0].ents && w in Flat(ts[1..]) ensures IkeyLess(v, w) {
        FlatMember(ts[1..], w);
        var i :| 0 <= i < |ts[1..]| && w in ts[1..][i].ents;
        TableBounds(ts[0], v);
        TableBounds(ts[i + 1], w);
      }
      SortedConcat(ts[0].ents, Flat(ts[1..]));
    }
  }

  /** Index of the first fragment that does not end before `k`. */
  function PartitionPoint(ts: seq<Table>, k: Key): (i: nat)
    requires WfTables(ts)
    ensures i <= |ts|
    ensures forall j :: 0 <= j < i ==> MaxKey(ts[j]) < k
    ensures i < |ts| ==> k <= MaxKey(ts[i])
  {
    if ts == [] || k <= MaxKey(ts[0]) then 0
    else
      assert forall j :: 0 <= j < |ts[1..]| ==> ts[1..][j] == ts[j + 1];
      1 + PartitionPoint(ts[1..], k)
  }

  /** The single fragment that may contain `k`, if any. */
  function FragmentFor(r: Run, k: Key): (t: Option<Table>)
    requires WfRun(r)
    ensures t.Some? ==> t.value in r.tables
  {
    var i := PartitionPoint(r.tables, k);
    if i == |r.tables| || k < MinKey(r.tables[i]) then None else Some(r.tables[i])
  }

  /** Every entry for `k` in the run lies in the one fragment `FragmentFor` names. */
  lemma FragmentHolds(r: Run, k: Key, v: Ver)
    requires WfRun(r) && v.key == k && v in Ents(r)
    ensures FragmentFor(r, k).Some? && v in FragmentFor(r, k).value.ents
  {
    FlatMember(r.tables, v);
    var j :| 0 <= j < |r.tables| && v in r.tables[j].ents;
    TableBounds(r.tables[j], v);
    var i := PartitionPoint(r.tables, k);
    assert i <= j;
    var ends, starts := MaxKey(r.tables[i]), MinKey(r.tables[j]);
  }

  /** A run lookup reads one fragment. */
  function RunGet(r: Run, k: Key, s: SeqNo): Option<Ver>
    requires WfRun(r)
  {
    var t := FragmentFor(r, k);
    if t.None? then None else Seek(t.value.ents, k, s)
  }

  /** Reading one fragment is reading the whole run. */
  lemma RunGetExact(r: Run, k: Key, s: SeqNo)
    requires WfRun(r)
    ensures Sorted(Ents(r)) && RunGet(r, k, s) == Seek(Ents(r), k, s)
  {
    FlatSorted(r.tables);
    var got, want := RunGet(r, k, s), Seek(Ents(r), k, s);
    if want.Some? { FragmentHolds(r, k, want.value); }
    if got.Some? {
      var t := FragmentFor(r, k).value;
      var i :| 0 <= i < |r.tables| && r.tables[i] == t;
      FlatMember(r.tables, got.value);
      assert want.Some? && got.value.at == want.value.at;
      SortedAt(Ents(r), got.value, want.value);
    }
  }

  lemma SortedAt(s: seq<Ver>, v: Ver, w: Ver)
    requires Sorted(s) && v in s && w in s && v.key == w.key && v.at == w.at
    ensures v == w
  {
  }

  /** The bloom-backed membership question; "no" means the run holds no entry for `k`. */
  predicate MayContain(r: Run, k: Key)
    requires WfRun(r)
    ensures !MayContain(r, k) ==> forall v :: v in Ents(r) ==> v.key != k
  {
    var t := FragmentFor(r, k);
    assert t.None? || k !in t.value.filter ==> forall v :: v in Ents(r) ==> v.key != k by {
      forall v | v in Ents(r) ensures v.key == k ==> t.Some? && k in t.value.filter {
        if v.key == k { FragmentHolds(r, k, v); }
      }
    }
    t.Some? && k in t.value.filter
  }

  predicate AnyMayContain(rs: seq<Run>, k: Key)
    requires forall i :: 0 <= i < |rs| ==> WfRun(rs[i])
    ensures !AnyMayContain(rs, k) ==> forall i, v :: 0 <= i < |rs| && v in Ents(rs[i]) ==> v.key != k
  {
    rs != [] && (MayContain(rs[0], k) || AnyMayContain(rs[1..], k))
  }

  // ---------------------------------------------------------------- first hit

  predicate WfRuns(rs: seq<Run>) {
    forall i :: 0 <= i < |rs| ==> WfRun(rs[i])
  }

  predicate InRuns(rs: seq<Run>, v: Ver) {
    exists i :: 0 <= i < |rs| && v in Ents(rs[i])
  }

  /** Each key's versions in `a` are all newer than those in `b`. */
  predicate Newer(a: Run, b: Run) {
    forall v, w :: v in Ents(a) && w in Ents(b) && v.key == w.key ==> v.at > w.at
  }

  /** Each key's versions in an earlier run are all newer than those in any later run. */
  predicate NewestFirst(rs: seq<Run>) {
    forall i, j :: 0 <= i < j < |rs| ==> Newer(rs[i], rs[j])
  }

  /** The point read: ask run after run and stop at the first hit. */
  function Get(rs: seq<Run>, k: Key, s: SeqNo): Option<Ver>
    requires WfRuns(rs)
  {
    if rs == [] then None
    else
      var hit := RunGet(rs[0], k, s);
      if hit.Some? then hit else Get(rs[1..], k, s)
  }

  lemma InRunsCons(rs: seq<Run>, v: Ver)
    requires rs != []
    ensures InRuns(rs, v) <==> v in Ents(rs[0]) || InRuns(rs[1..], v)
  {
    if i :| 0 <= i < |rs| && v in Ents(rs[i]) {
      if i > 0 { assert rs[1..][i - 1] == rs[i]; }
    }
    if i :| 0 <= i < |rs[1..]| && v in Ents(rs[1..][i]) {
      assert v in Ents(rs[i + 1]);
    }
  }

  /** `got` is the newest version of `k` at or below `s` anywhere in the runs. */
  ghost predicate IsAnswer(rs: seq<Run>, k: Key, s: SeqNo, got: Option<Ver>) {
    match got
    case None => forall v :: InRuns(rs, v) ==> !Matches(v, k, s)
    case Some(top) =>
      InRuns(rs, top) && Matches(top, k, s) && forall v :: InRuns(rs, v) && Matches(v, k, s) ==> v.at <= top.at
  }

  /** With newest-first runs, the first hit is the newest version in the whole tree. */
  lemma {:induction false} FirstHitIsNewest(rs: seq<Run>, k: Key, s: SeqNo)
    requires WfRuns(rs) && NewestFirst(rs)
    ensures IsAnswer(rs, k, s, Get(rs, k, s))
  {
    if rs != [] {
      var rest := rs[1..];
      assert forall i :: 0 <= i < |rest| ==> rest[i] == rs[i + 1];
      FirstHitIsNewest(rest, k, s);
      RunGetExact(rs[0], k, s);
      var hit := Get(rs, k, s);
      if hit.Some? { InRunsCons(rs, hit.value); }
      forall v | InRuns(rs, v) && Matches(v, k, s) ensures hit.Some? && v.at <= hit.value.at {
        InRunsCons(rs, v);
        if v !in Ents(rs[0]) && RunGet(rs[0], k, s).Some? {
          var i :| 0 <= i < |rest| && v in Ents(rest[i]);
          assert Newer(rs[0], rs[i + 1]);
        }
      }
    }
  }
}
