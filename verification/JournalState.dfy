/** What a journal's records say about the source: bases, feeds of deltas, and the state a rebuild
 * reconstructs from them.
 */
module JournalState {
  import opened Types
  import opened History
  import opened Streams
  import opened JournalLog

  // ---------------------------------------------------------------- bases and deltas

  function LookUp(m: map<Key, Repr>, k: Key): Option<Repr> {
    if k in m then Some(m[k]) else None
  }

  /** A base span lists exactly the in-scope state at `at`. */
  ghost predicate BaseIs(s: Scope, h: Log, at: SeqNo, base: seq<Rec>)
    requires at <= |h|
  {
    (forall i :: 0 <= i < |base| ==>
      base[i].BaseKey? && Covers(s, base[i].key) && ValueAt(h, base[i].key, at) == Some(base[i].value)) &&
    (forall k :: Covers(s, k) && ValueAt(h, k, at).Some? ==> Lists(base, k))
  }

  ghost predicate Lists(base: seq<Rec>, k: Key) {
    exists i :: 0 <= i < |base| && base[i].BaseKey? && base[i].key == k
  }

  ghost predicate Touched(ds: seq<Rec>, k: Key) {
    exists i :: 0 <= i < |ds| && ds[i].Delta? && ds[i].key == k
  }

  /** Deltas in seqno order: exactly the in-scope ops of the history after `from`, up to `to`. */
  ghost predicate Feed(s: Scope, h: Log, from: SeqNo, to: SeqNo, ds: seq<Rec>)
    requires to <= |h|
  {
    from <= to && (forall i :: 0 <= i < |ds| ==> ds[i].Delta? && from < ds[i].at <= to) &&
    (forall i, j :: 0 <= i < j < |ds| ==> ds[i].at < ds[j].at) &&
    (forall i :: 0 <= i < |ds| ==> h[ds[i].at - 1] == Write(ds[i].key, ds[i].op) && Covers(s, ds[i].key)) &&
    (forall n: SeqNo :: from < n <= to && Wanted(s, h, n) ==> Logged(ds, n))
  }

  ghost predicate Logged(ds: seq<Rec>, n: SeqNo) {
    exists i :: 0 <= i < |ds| && ds[i].Delta? && ds[i].at == n
  }

  /** Where a run of deltas ends. */
  function EndOf(from: SeqNo, ds: seq<Rec>): SeqNo {
    if ds == [] || !ds[|ds| - 1].Delta? then from else ds[|ds| - 1].at
  }

  /** A feed cut short is a feed up to its last delta. */
  lemma FeedCut(s: Scope, h: Log, from: SeqNo, to: SeqNo, ds: seq<Rec>, n: nat)
    requires to <= |h| && Feed(s, h, from, to, ds) && n <= |ds|
    ensures var to' := EndOf(from, ds[..n]); to' <= to && Feed(s, h, from, to', ds[..n])
  {
    var to' := EndOf(from, ds[..n]);
    forall m: SeqNo | from < m <= to' && Wanted(s, h, m) ensures Logged(ds[..n], m) {
      assert Logged(ds, m);
      var i :| 0 <= i < |ds| && ds[i].Delta? && ds[i].at == m;
      assert ds[..n][i] == ds[i];
    }
  }

  lemma FeedSnoc(s: Scope, h: Log, from: SeqNo, to: SeqNo, ds: seq<Rec>, e: Rec)
    requires to <= |h| && Feed(s, h, from, to, ds)
    requires e.Delta? && to < e.at <= |h| && h[e.at - 1] == Write(e.key, e.op) && Covers(s, e.key)
    requires forall n: SeqNo :: to < n < e.at ==> !Wanted(s, h, n)
    ensures Feed(s, h, from, e.at, ds + [e])
  {
    forall m: SeqNo | from < m <= e.at && Wanted(s, h, m) ensures Logged(ds + [e], m) {
      if m <= to {
        assert Logged(ds, m);
        var i :| 0 <= i < |ds| && ds[i].Delta? && ds[i].at == m;
        assert (ds + [e])[i] == ds[i];
      } else {
        assert (ds + [e])[|ds|] == e;
      }
    }
  }

  // ---------------------------------------------------------------- the state a rebuild reaches

  lemma {:induction false} BaseState(s: Scope, h: Log, at: SeqNo, base: seq<Rec>, k: Key)
    requires at <= |h| && forall i :: 0 <= i < |base| ==>
      base[i].BaseKey? && ValueAt(h, base[i].key, at) == Some(base[i].value)
    ensures LookUp(ApplyBase(base), k) == if Lists(base, k) then ValueAt(h, k, at) else None
  {
    if base != [] {
      var pre, r := base[..|base| - 1], base[|base| - 1];
      BaseState(s, h, at, pre, k);
      assert Lists(base, k) <==> Lists(pre, k) || r.key == k by {
        if i :| 0 <= i < |pre| && pre[i].BaseKey? && pre[i].key == k { assert base[i] == pre[i]; }
        if i :| 0 <= i < |base| && base[i].BaseKey? && base[i].key == k { assert i < |pre| ==> pre[i] == base[i]; }
      }
    }
  }

  /** The last delta is the newest op of its key, and hides no other key's. */
  lemma LastIsNewest(s: Scope, h: Log, from: SeqNo, to: SeqNo, ds: seq<Rec>, k: Key)
    requires to <= |h| && Feed(s, h, from, to, ds) && Covers(s, k) && ds != []
    ensures var pre, r := ds[..|ds| - 1], ds[|ds| - 1];
      var mid := EndOf(from, pre);
      mid <= to && Feed(s, h, from, mid, pre) && r.Delta? &&
      Newest(h, k, to) == if r.key == k then r.at else Newest(h, k, mid)
  {
    var pre, r := ds[..|ds| - 1], ds[|ds| - 1];
    FeedCut(s, h, from, to, ds, |pre|);
    var mid := EndOf(from, pre);
    assert WroteKey(h, r.key, r.at);
    forall x | mid < x <= to && WroteKey(h, k, x) ensures x == r.at {
      assert Wanted(s, h, x);
      assert Logged(ds, x);
    }
    NewestIs(h, k, to, if r.key == k then r.at else Newest(h, k, mid));
  }

  /** What the deltas leave at a key: the last one's op, or what was there before. */
  lemma {:induction false} DeltaState(s: Scope, h: Log, from: SeqNo, to: SeqNo, m: map<Key, Repr>, ds: seq<Rec>, k: Key)
    requires to <= |h| && Feed(s, h, from, to, ds) && Covers(s, k)
    ensures LookUp(ApplyDeltas(m, ds), k) == if Newest(h, k, to) > from then ValueAt(h, k, to) else LookUp(m, k)
    decreases |ds|
  {
    var n := Newest(h, k, to);
    if ds == [] {
      assert n > from ==> Wanted(s, h, n) && Logged(ds, n);
    } else {
      LastIsNewest(s, h, from, to, ds, k);
      assert ds[|ds| - 1].at > from && h[ds[|ds| - 1].at - 1] == Write(ds[|ds| - 1].key, ds[|ds| - 1].op);
      hide Feed;
      DeltaState(s, h, from, EndOf(from, ds[..|ds| - 1]), m, ds[..|ds| - 1], k);
    }
  }

  lemma {:induction false} QuietTail(m: map<Key, Repr>, ds: seq<Rec>, rest: seq<Rec>)
    requires forall i :: 0 <= i < |rest| ==> !rest[i].Delta?
    ensures ApplyDeltas(m, ds + rest) == ApplyDeltas(m, ds) && LastDelta(ds + rest) == LastDelta(ds)
  {
    if rest == [] {
      assert ds + rest == ds;
    } else {
      QuietTail(m, ds, rest[..|rest| - 1]);
      assert (ds + rest)[..|ds + rest| - 1] == ds + rest[..|rest| - 1];
    }
  }

  lemma KeptSame(h: Log, k: Key, a: SeqNo, b: SeqNo)
    requires a <= b <= |h| && Newest(h, k, b) <= a
    ensures ValueAt(h, k, a) == ValueAt(h, k, b)
  {
    NewestIs(h, k, a, Newest(h, k, b));
  }

  lemma TouchedIsNew(s: Scope, h: Log, from: SeqNo, to: SeqNo, ds: seq<Rec>, k: Key)
    requires to <= |h| && Feed(s, h, from, to, ds) && Covers(s, k)
    ensures Touched(ds, k) <==> Newest(h, k, to) > from
  {
    if Touched(ds, k) {
      var i :| 0 <= i < |ds| && ds[i].Delta? && ds[i].key == k;
      assert WroteKey(h, k, ds[i].at);
    }
    var n := Newest(h, k, to);
    if n > from {
      assert Wanted(s, h, n);
      assert Logged(ds, n);
      var i :| 0 <= i < |ds| && ds[i].Delta? && ds[i].at == n;
      assert ds[i].key == k;
    }
  }

  /** The state a rebuild reaches is the source's at the last logged seqno, exactly when the deltas
      after the base are none, or reach the base's seqno, or the keys they touch read the same at
      their end as in the base. */
  lemma RebuildIsExactWhen(s: Scope, h: Log, at: SeqNo, base: seq<Rec>, from: SeqNo, ds: seq<Rec>, rest: seq<Rec>)
    requires from <= at <= |h| && BaseIs(s, h, at, base)
    requires EndOf(from, ds) <= |h| && Feed(s, h, from, EndOf(from, ds), ds)
    requires forall i :: 0 <= i < |rest| ==> !rest[i].Delta?
    ensures var last, reported := EndOf(from, ds), Max(at, LastDelta(ds + rest));
      reported == (if ds == [] then at else Max(at, last)) &&
      ((forall k :: Covers(s, k) ==> LookUp(ApplyDeltas(ApplyBase(base), ds + rest), k) == ValueAt(h, k, reported)) <==>
       (ds == [] || last >= at || forall k :: Touched(ds, k) ==> ValueAt(h, k, last) == ValueAt(h, k, at)))
  {
    hide ApplyBase, ApplyDeltas, Feed, Lists, Touched, BaseIs;
    var last := EndOf(from, ds);
    QuietTail(ApplyBase(base), ds, rest);
    LastOfFeed(s, h, from, last, ds);
    forall k | Covers(s, k)
      ensures LookUp(ApplyDeltas(ApplyBase(base), ds), k) == if Touched(ds, k) then ValueAt(h, k, last)
        else ValueAt(h, k, at)
      ensures !Touched(ds, k) && last >= at ==> ValueAt(h, k, at) == ValueAt(h, k, last)
    {
      KeyAfterRebuild(s, h, at, base, from, last, ds, k);
    }
    forall k | Touched(ds, k) ensures Covers(s, k) && ds != [] { TouchedInScope(s, h, from, last, ds, k); }
  }

  lemma LastOfFeed(s: Scope, h: Log, from: SeqNo, last: SeqNo, ds: seq<Rec>)
    requires last <= |h| && Feed(s, h, from, last, ds) && last == EndOf(from, ds)
    ensures LastDelta(ds) == if ds == [] then 0 else last
  {
  }

  lemma TouchedInScope(s: Scope, h: Log, from: SeqNo, last: SeqNo, ds: seq<Rec>, k: Key)
    requires last <= |h| && Feed(s, h, from, last, ds) && Touched(ds, k)
    ensures Covers(s, k) && ds != []
  {
  }

  lemma KeyAfterRebuild(s: Scope, h: Log, at: SeqNo, base: seq<Rec>, from: SeqNo, last: SeqNo, ds: seq<Rec>, k: Key)
    requires from <= at <= |h| && last <= |h| && BaseIs(s, h, at, base) && Feed(s, h, from, last, ds) && Covers(s, k)
    ensures LookUp(ApplyDeltas(ApplyBase(base), ds), k) == if Touched(ds, k) then ValueAt(h, k, last)
      else ValueAt(h, k, at)
    ensures !Touched(ds, k) && last >= at ==> ValueAt(h, k, at) == ValueAt(h, k, last)
  {
    TouchedIsNew(s, h, from, last, ds, k);
    DeltaState(s, h, from, last, ApplyBase(base), ds, k);
    BaseState(s, h, at, base, k);
    if last >= at && Newest(h, k, last) <= from { KeptSame(h, k, at, last); }
  }

  /** The overlap does harm: a base taken after two writes to a key, and a log that ends between
      them, rebuild to a state the source never had at the seqno it reports. */
  lemma OverlapHarms()
    ensures var a, b := Put(Inline([1])), Put(Inline([2]));
      var h, s := [Write(1.0, a), Write(1.0, b)], Scope(0.0, None);
      var base, ds := [BaseKey(1.0, b.repr)], [Delta(1, 1.0, a)];
      BaseIs(s, h, 2, base) && Feed(s, h, 0, 1, ds) &&
      LookUp(ApplyDeltas(ApplyBase(base), ds), 1.0) == Some(a.repr) &&
      ValueAt(h, 1.0, Max(2, LastDelta(ds))) == Some(b.repr)
  {
    var a, b := Put(Inline([1])), Put(Inline([2]));
    var h, s := [Write(1.0, a), Write(1.0, b)], Scope(0.0, None);
    var base, ds := [BaseKey(1.0, b.repr)], [Delta(1, 1.0, a)];
    assert ds[..0] == [] && base[..0] == [];
    assert Logged(ds, 1) by { assert ds[0].at == 1; }
    forall k | ValueAt(h, k, 2).Some? ensures Lists(base, k) {
      assert k == 1.0;
      assert base[0].key == k;
    }
  }
}
