/** Memtables, and the read path over a pinned view: active memtable, frozen ones, then the tree. */
module Views {
  import opened Types
  import opened History
  import opened Runs
  import opened Tree
  import opened Retention

  /** Ordered insertion, as into the memtable's skip list. */
  function Insert(m: seq<Ver>, v: Ver): seq<Ver> {
    if m == [] || IkeyLess(v, m[0]) then [v] + m else [m[0]] + Insert(m[1..], v)
  }

  lemma {:induction false} InsertExact(m: seq<Ver>, v: Ver)
    requires Sorted(m) && forall u :: u in m ==> u.key != v.key || u.at != v.at
    ensures Sorted(Insert(m, v))
    ensures forall u :: u in Insert(m, v) <==> u in m || u == v
  {
    if m != [] && !IkeyLess(v, m[0]) {
      InsertExact(m[1..], v);
      assert m == [m[0]] + m[1..];
      assert m[0] in m;
      forall u | u in Insert(m[1..], v) ensures IkeyLess(m[0], u) {}
    } else {
      forall u | u in m ensures IkeyLess(v, u) {}
    }
  }

  /** The memtable that took the commits after `lo` up to `hi`. */
  function MemEntries(h: Log, lo: SeqNo, hi: SeqNo): seq<Ver>
    requires hi <= |h|
  {
    if hi <= lo then [] else Insert(MemEntries(h, lo, hi - 1), VerAt(h, hi))
  }

  lemma {:induction false} MemEntriesExact(h: Log, lo: SeqNo, hi: SeqNo)
    requires hi <= |h|
    ensures Sorted(MemEntries(h, lo, hi))
    ensures forall v :: v in MemEntries(h, lo, hi) <==> Wrote(h, v) && lo < v.at <= hi
  {
    if lo < hi {
      MemEntriesExact(h, lo, hi - 1);
      InsertExact(MemEntries(h, lo, hi - 1), VerAt(h, hi));
    }
  }

  function MemGet(h: Log, lo: SeqNo, hi: SeqNo, k: Key, s: SeqNo): Option<Ver>
    requires hi <= |h|
  {
    MemEntriesExact(h, lo, hi);
    Seek(MemEntries(h, lo, hi), k, s)
  }

  /** A memtable hit is the newest version of the key, if that is recent enough to be in it. */
  lemma MemGetExact(h: Log, lo: SeqNo, hi: SeqNo, k: Key, s: SeqNo)
    requires lo <= hi <= |h| && lo <= s
    ensures var n := Newest(h, k, if s < hi then s else hi);
      MemGet(h, lo, hi, k, s) == if n > lo then Some(VerAt(h, n)) else None
  {
    MemEntriesExact(h, lo, hi);
    var top := if s < hi then s else hi;
    var n, got := Newest(h, k, top), MemGet(h, lo, hi, k, s);
    if n > lo {
      assert Matches(VerAt(h, n), k, s) && VerAt(h, n) in MemEntries(h, lo, hi);
    }
    if got.Some? {
      assert WroteKey(h, k, got.value.at);
    }
  }

  /** The boundaries of the frozen memtables, oldest first: each holds the commits after the
      boundary before it (the flushed seqno for the first). */
  predicate WfFrozen(flushed: SeqNo, frozen: seq<SeqNo>, visible: SeqNo) {
    (forall i, j :: 0 <= i < j < |frozen| ==> frozen[i] <= frozen[j]) &&
    (forall i :: 0 <= i < |frozen| ==> flushed <= frozen[i] <= visible) && flushed <= visible
  }

  /** Where the memtable frozen last (or the flushed tree) ends. */
  function FrozenEnd(flushed: SeqNo, frozen: seq<SeqNo>): SeqNo {
    if frozen == [] then flushed else frozen[|frozen| - 1]
  }

  /** The read path below the active memtable: frozen memtables newest first, then the tree. */
  function GetFrozen(h: Log, flushed: SeqNo, frozen: seq<SeqNo>, rs: seq<Run>, k: Key, s: SeqNo): Option<Ver>
    requires WfFrozen(flushed, frozen, |h|) && WfRuns(rs)
  {
    if frozen == [] then Get(rs, k, s)
    else
      var below := frozen[..|frozen| - 1];
      var hit := MemGet(h, FrozenEnd(flushed, below), frozen[|frozen| - 1], k, s);
      if hit.Some? then hit else GetFrozen(h, flushed, below, rs, k, s)
  }

  function GetVersioned(h: Log, flushed: SeqNo, frozen: seq<SeqNo>, rs: seq<Run>, k: Key, s: SeqNo): Option<Ver>
    requires WfFrozen(flushed, frozen, |h|) && WfRuns(rs)
  {
    var hit := MemGet(h, FrozenEnd(flushed, frozen), |h|, k, s);
    if hit.Some? then hit else GetFrozen(h, flushed, frozen, rs, k, s)
  }

  /** `got` answers a read of `k` at `s`: it is the newest version, or a dropped tombstone's absence. */
  ghost predicate Answers(h: Log, bound: SeqNo, k: Key, s: SeqNo, got: Option<Ver>)
    requires s <= |h|
  {
    Visible(got) == ValueAt(h, k, s) &&
    (got.Some? ==> Newest(h, k, s) > 0 && got.value == VerAt(h, Newest(h, k, s))) &&
    (Newest(h, k, s) > bound ==> got.Some?)
  }

  lemma {:induction false} GetFrozenExact(h: Log, flushed: SeqNo, frozen: seq<SeqNo>, rs: seq<Run>,
                                          bound: SeqNo, k: Key, s: SeqNo)
    requires WfFrozen(flushed, frozen, |h|) && WfTree(rs) && Retains(rs, h, flushed, bound)
    requires bound <= s
    ensures var top := FrozenEnd(flushed, frozen);
      Answers(h, bound, k, if s < top then s else top, GetFrozen(h, flushed, frozen, rs, k, s))
  {
    hide MemGet, Get, KeyKept;
    if frozen == [] {
      TreeReadExact(rs, h, flushed, bound, k, if s < flushed then s else flushed);
      if s > flushed { ReadAbove(rs, h, flushed, bound, k, s); }
    } else {
      var below := frozen[..|frozen| - 1];
      GetFrozenExact(h, flushed, below, rs, bound, k, s);
      MemStep(h, FrozenEnd(flushed, below), frozen[|frozen| - 1], k, s);
    }
  }

  /** The tree holds nothing newer than the flushed seqno, so reading it later reads the same. */
  lemma ReadAbove(rs: seq<Run>, h: Log, flushed: SeqNo, bound: SeqNo, k: Key, s: SeqNo)
    requires WfTree(rs) && Retains(rs, h, flushed, bound) && flushed <= s
    ensures Get(rs, k, s) == Get(rs, k, flushed)
  {
    FirstHitIsNewest(rs, k, s);
    FirstHitIsNewest(rs, k, flushed);
    SameAnswer(rs, h, k, s, flushed, Get(rs, k, s), Get(rs, k, flushed));
  }

  lemma SameAnswer(rs: seq<Run>, h: Log, k: Key, s: SeqNo, flushed: SeqNo, a: Option<Ver>, b: Option<Ver>)
    requires IsAnswer(rs, k, s, a) && IsAnswer(rs, k, flushed, b) && flushed <= s
    requires forall v :: InRuns(rs, v) ==> Wrote(h, v) && v.at <= flushed
    ensures a == b
  {
    if a.Some? { assert Matches(a.value, k, flushed); }
    if b.Some? { assert Matches(b.value, k, s); }
  }

  /** One memtable in front of an exact answer below it. */
  lemma MemStep(h: Log, lo: SeqNo, hi: SeqNo, k: Key, s: SeqNo)
    requires lo <= hi <= |h|
    ensures MemGet(h, lo, hi, k, s).None? ==>
      Newest(h, k, if s < hi then s else hi) == Newest(h, k, if s < lo then s else lo)
    ensures MemGet(h, lo, hi, k, s).Some? ==>
      var n := Newest(h, k, if s < hi then s else hi); n > 0 && MemGet(h, lo, hi, k, s).value == VerAt(h, n)
  {
    MemEntriesExact(h, lo, hi);
    if lo <= s {
      MemGetExact(h, lo, hi, k, s);
      var n := Newest(h, k, if s < hi then s else hi);
      if n <= lo { NewestIs(h, k, lo, n); }
    }
  }

  /** Every read of the view at a retained seqno is exact. */
  lemma ViewReadExact(h: Log, flushed: SeqNo, frozen: seq<SeqNo>, rs: seq<Run>, bound: SeqNo, k: Key, s: SeqNo)
    requires WfFrozen(flushed, frozen, |h|) && WfTree(rs) && Retains(rs, h, flushed, bound)
    requires bound <= s <= |h|
    ensures Answers(h, bound, k, s, GetVersioned(h, flushed, frozen, rs, k, s))
  {
    GetFrozenExact(h, flushed, frozen, rs, bound, k, s);
    MemStep(h, FrozenEnd(flushed, frozen), |h|, k, s);
  }
}
