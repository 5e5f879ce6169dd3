/** The edge replica: a slice of the master's flushed tree under an overlay fed by the stream. */
module Edge {
  import opened Types
  import opened History
  import opened Runs
  import opened Merging
  import opened Cursors
  import opened Retention
  import opened Scans
  import opened Streams

  // ---------------------------------------------------------------- slices

  predicate Overlaps(s: Scope, t: Table)
    requires WfTable(t)
  {
    MaxKey(t) >= s.lo && (s.hi.None? || MinKey(t) < s.hi.value)
  }

  function SliceTables(s: Scope, ts: seq<Table>): seq<Table>
    requires forall i :: 0 <= i < |ts| ==> WfTable(ts[i])
  {
    if ts == [] then []
    else if Overlaps(s, ts[0]) then [ts[0]] + SliceTables(s, ts[1..])
    else SliceTables(s, ts[1..])
  }

  /** The master's half: of each run, the fragments that overlap the scope; runs left empty go. */
  function SliceRuns(s: Scope, rs: seq<Run>): seq<Run>
    requires WfRuns(rs)
  {
    if rs == [] then []
    else
      var ts := SliceTables(s, rs[0].tables);
      if ts == [] then SliceRuns(s, rs[1..]) else [Run(rs[0].id, ts)] + SliceRuns(s, rs[1..])
  }

  lemma {:induction false} SliceTablesWf(s: Scope, ts: seq<Table>)
    requires WfTables(ts)
    ensures WfTables(SliceTables(s, ts)) && forall t :: t in SliceTables(s, ts) ==> t in ts
  {
    if ts != [] {
      assert forall i :: 0 <= i < |ts[1..]| ==> ts[1..][i] == ts[i + 1];
      SliceTablesWf(s, ts[1..]);
      hide WfTable, Overlaps;
      forall t | t in SliceTables(s, ts[1..]) ensures MaxKey(ts[0]) < MinKey(t) {
        assert t in ts[1..];
      }
    }
  }

  lemma {:induction false} SliceTablesExact(s: Scope, ts: seq<Table>)
    requires WfTables(ts)
    ensures forall v :: v in Flat(SliceTables(s, ts)) ==> v in Flat(ts)
    ensures forall v :: v in Flat(ts) && Covers(s, v.key) ==> v in Flat(SliceTables(s, ts))
  {
    if ts != [] {
      assert forall i :: 0 <= i < |ts[1..]| ==> ts[1..][i] == ts[i + 1];
      SliceTablesExact(s, ts[1..]);
      forall v | v in ts[0].ents && Covers(s, v.key) ensures Overlaps(s, ts[0]) {
        TableBounds(ts[0], v);
      }
      hide WfTable, WfTables, Overlaps, Covers, Sorted;
    }
  }

  lemma {:induction false} SliceRunsExact(s: Scope, rs: seq<Run>)
    requires WfRuns(rs) && NewestFirst(rs)
    ensures WfRuns(SliceRuns(s, rs)) && NewestFirst(SliceRuns(s, rs))
    ensures forall v :: InRuns(SliceRuns(s, rs), v) ==> InRuns(rs, v)
    ensures forall v :: InRuns(rs, v) && Covers(s, v.key) ==> InRuns(SliceRuns(s, rs), v)
  {
    if rs != [] {
      var rest := rs[1..];
      assert forall i :: 0 <= i < |rest| ==> rest[i] == rs[i + 1];
      SliceRunsExact(s, rest);
      SliceTablesExact(s, rs[0].tables);
      SliceTablesWf(s, rs[0].tables);
      var out := SliceRuns(s, rs);
      forall v ensures InRuns(rs, v) <==> v in Ents(rs[0]) || InRuns(rest, v) { InRunsCons(rs, v); }
      if SliceTables(s, rs[0].tables) != [] {
        assert out[1..] == SliceRuns(s, rest);
        forall v ensures InRuns(out, v) <==> v in Ents(out[0]) || InRuns(out[1..], v) { InRunsCons(out, v); }
        forall i | 0 < i < |out| ensures Newer(out[0], out[i]) {
          forall v, w | v in Ents(out[0]) && w in Ents(out[i]) && v.key == w.key ensures v.at > w.at {
            assert w in Ents(out[1..][i - 1]);
            assert InRuns(rest, w);
            var j :| 0 <= j < |rest| && w in Ents(rest[j]);
            assert Newer(rs[0], rs[j + 1]);
          }
        }
      }
    }
  }

  /** A slice holds, for the keys in scope, what the master's tree had to retain. */
  ghost predicate SliceRetains(s: Scope, rs: seq<Run>, h: Log, flushed: SeqNo, bound: SeqNo) {
    bound <= flushed <= |h| && WfRuns(rs) && NewestFirst(rs) &&
    (forall v :: InRuns(rs, v) ==> Wrote(h, v) && v.at <= flushed) &&
    (forall n :: bound < n <= flushed && Covers(s, h[n - 1].key) ==> InRuns(rs, VerAt(h, n))) &&
    (forall k :: Covers(s, k) ==> KeyKept(rs, h, k, bound))
  }

  lemma SliceKeepsScope(s: Scope, rs: seq<Run>, h: Log, flushed: SeqNo, bound: SeqNo)
    requires WfRuns(rs) && NewestFirst(rs) && Retains(rs, h, flushed, bound)
    ensures SliceRetains(s, SliceRuns(s, rs), h, flushed, bound)
  {
    SliceRunsExact(s, rs);
    forall k | Covers(s, k) ensures KeyKept(SliceRuns(s, rs), h, k, bound) {
      assert KeyKept(rs, h, k, bound);
    }
  }

  // ---------------------------------------------------------------- the replica in terms of the master's history

  /** The slice is of flush watermark `flushed`, taken when the master retained states from `bound`
      on; the overlay holds the in-scope versions after `low` up to `applied`. */
  ghost predicate EdgeOk(s: Scope, h: Log, version: seq<Run>, overlay: seq<Ver>, flushed: SeqNo, bound: SeqNo,
                         low: SeqNo, applied: SeqNo) {
    SliceRetains(s, version, h, flushed, bound) && low <= applied <= |h| &&
    Sorted(overlay) && forall v :: v in overlay <==> Wrote(h, v) && Covers(s, v.key) && low < v.at <= applied
  }

  /** The stream lags the slice, the slice has nothing of `k`, and the overlay's newest version of it
      is a value: a tombstone the master's compaction already dropped is missing between them. */
  ghost predicate Resurrected(h: Log, version: seq<Run>, overlay: seq<Ver>, flushed: SeqNo, applied: SeqNo, k: Key) {
    applied < flushed && (forall v :: InRuns(version, v) ==> v.key != k) && exists r :: Sees(overlay, k, applied, r)
  }

  ghost predicate IsBag(bag: seq<Ver>, version: seq<Run>, overlay: seq<Ver>) {
    forall v :: v in bag <==> InRuns(version, v) || v in overlay
  }

  /** The newest in-scope version a replica can be asked about is in one of its halves, unless it is a
      dropped tombstone, and then the slice has nothing of the key at or below the bound. */
  lemma NewestIsThere(s: Scope, h: Log, version: seq<Run>, overlay: seq<Ver>, flushed: SeqNo, bound: SeqNo, low: SeqNo,
                      applied: SeqNo, k: Key)
    requires EdgeOk(s, h, version, overlay, flushed, bound, low, applied) && low <= flushed && Covers(s, k)
    ensures var n := Newest(h, k, Max(flushed, applied));
      n == 0 || InRuns(version, VerAt(h, n)) || VerAt(h, n) in overlay ||
      (n <= bound && h[n - 1].op.Delete? && (forall v :: InRuns(version, v) ==> v.key != k) &&
      (n > applied || n <= low))
  {
    var n := Newest(h, k, Max(flushed, applied));
    if n > 0 && n <= flushed {
      NewestIs(h, k, flushed, n);
      if n <= bound {
        NewestIs(h, k, bound, n);
        assert KeyKept(version, h, k, bound);
        if !InRuns(version, VerAt(h, n)) {
          forall v | InRuns(version, v) ensures v.key != k {
            assert Wrote(h, v) && (v.key == k ==> WroteKey(h, k, v.at));
          }
        }
      }
    }
  }

  /** A merged read of both halves: the master's value at the frontier, exactly unless the key is
      resurrected. */
  lemma MergedRead(s: Scope, h: Log, version: seq<Run>, overlay: seq<Ver>, flushed: SeqNo, bound: SeqNo, low: SeqNo,
                   applied: SeqNo, bag: seq<Ver>, k: Key, top: SeqNo)
    requires EdgeOk(s, h, version, overlay, flushed, bound, low, applied) && low <= flushed && Covers(s, k) &&
      |h| <= top
    requires IsBag(bag, version, overlay)
    ensures (forall r :: Sees(bag, k, top, r) <==> ValueAt(h, k, Max(flushed, applied)) == Some(r)) <==>
            !Resurrected(h, version, overlay, flushed, applied, k)
    ensures Resurrected(h, version, overlay, flushed, applied, k) ==>
      forall r :: Sees(bag, k, top, r) <==> Sees(overlay, k, applied, r)
  {
    var f := Max(flushed, applied);
    var n := Newest(h, k, f);
    NewestIsThere(s, h, version, overlay, flushed, bound, low, applied, k);
    forall v | v in bag && Matches(v, k, top) ensures 0 < v.at <= n && (v.at == n ==> v == VerAt(h, n)) {
      assert Wrote(h, v) && WroteKey(h, k, v.at);
    }
    if n > 0 && VerAt(h, n) in bag {
      assert Matches(VerAt(h, n), k, top);
      if Resurrected(h, version, overlay, flushed, applied, k) {
        NotResurrected(s, h, version, overlay, flushed, bound, low, applied, k);
      }
    } else if Resurrected(h, version, overlay, flushed, applied, k) {
      forall r ensures Sees(bag, k, top, r) <==> Sees(overlay, k, applied, r) {
        OverlayOnly(version, overlay, bag, k, applied, top, r);
      }
      var r :| Sees(overlay, k, applied, r);
      assert ValueAt(h, k, f) != Some(r);
    } else {
      NothingSeen(s, h, version, overlay, flushed, bound, low, applied, bag, k, top);
    }
  }

  /** What the overlay alone answers. */
  lemma OverlaySees(s: Scope, h: Log, version: seq<Run>, overlay: seq<Ver>, flushed: SeqNo, bound: SeqNo, low: SeqNo,
                    applied: SeqNo, k: Key, top: SeqNo)
    requires EdgeOk(s, h, version, overlay, flushed, bound, low, applied) && Covers(s, k) && applied <= top
    ensures var m, hit := Newest(h, k, applied), Seek(overlay, k, top);
      (hit.Some? <==> m > low) && (m > low ==> hit.value == VerAt(h, m))
    ensures forall r :: Sees(overlay, k, applied, r) ==>
      Newest(h, k, applied) > low && h[Newest(h, k, applied) - 1].op == Put(r)
  {
    var m, hit := Newest(h, k, applied), Seek(overlay, k, top);
    forall v | v in overlay && v.key == k ensures low < v.at <= m && v == VerAt(h, v.at) {
      assert WroteKey(h, k, v.at);
    }
    if m > low { assert VerAt(h, m) in overlay && Matches(VerAt(h, m), k, top) && Matches(VerAt(h, m), k, applied); }
  }

  /** The slice has the newest version up to its watermark if that is a value. */
  lemma ValueIsKept(s: Scope, h: Log, version: seq<Run>, flushed: SeqNo, bound: SeqNo, k: Key)
    requires SliceRetains(s, version, h, flushed, bound) && Covers(s, k)
    ensures var n := Newest(h, k, flushed); n > 0 && h[n - 1].op.Put? ==> InRuns(version, VerAt(h, n))
  {
    var n := Newest(h, k, flushed);
    if 0 < n <= bound {
      NewestIs(h, k, bound, n);
      assert KeyKept(version, h, k, bound);
    }
  }

  /** A resurrected key's newest version up to the watermark is in neither half. */
  lemma NotResurrected(s: Scope, h: Log, version: seq<Run>, overlay: seq<Ver>, flushed: SeqNo, bound: SeqNo, low: SeqNo,
                       applied: SeqNo, k: Key)
    requires EdgeOk(s, h, version, overlay, flushed, bound, low, applied) && low <= flushed && Covers(s, k)
    requires Resurrected(h, version, overlay, flushed, applied, k)
    ensures var n := Newest(h, k, flushed);
      n > applied && h[n - 1].op.Delete? && !InRuns(version, VerAt(h, n)) && VerAt(h, n) !in overlay
  {
    hide Seek, Get, Covers;
    OverlaySees(s, h, version, overlay, flushed, bound, low, applied, k, applied);
    ValueIsKept(s, h, version, flushed, bound, k);
    hide KeyKept, SliceRetains, NewestFirst, WfRuns;
    assert WroteKey(h, k, Newest(h, k, applied));
  }

  /** With nothing of the key in the slice, the overlay alone answers. */
  lemma OverlayOnly(version: seq<Run>, overlay: seq<Ver>, bag: seq<Ver>, k: Key, applied: SeqNo, top: SeqNo, r: Repr)
    requires IsBag(bag, version, overlay) && applied <= top
    requires (forall v :: InRuns(version, v) ==> v.key != k) && forall v :: v in overlay ==> v.at <= applied
    ensures Sees(bag, k, top, r) <==> Sees(overlay, k, applied, r)
  {
    if Sees(bag, k, top, r) {
      var v :| v in bag && Matches(v, k, top) && v.op == Put(r) && forall w :: w in bag && Matches(w, k, top) ==>
        w.at <= v.at;
      assert v in overlay;
    }
    if Sees(overlay, k, applied, r) {
      var v :| v in overlay && Matches(v, k, applied) && v.op == Put(r) &&
        forall w :: w in overlay && Matches(w, k, applied) ==> w.at <= v.at;
      assert v in bag;
    }
  }

  /** The newest version is a tombstone neither half has, or there is none, and nothing older shows. */
  lemma NothingSeen(s: Scope, h: Log, version: seq<Run>, overlay: seq<Ver>, flushed: SeqNo, bound: SeqNo, low: SeqNo,
                    applied: SeqNo, bag: seq<Ver>, k: Key, top: SeqNo)
    requires EdgeOk(s, h, version, overlay, flushed, bound, low, applied) && low <= flushed && Covers(s, k) &&
      |h| <= top
    requires IsBag(bag, version, overlay) && !Resurrected(h, version, overlay, flushed, applied, k)
    requires var n := Newest(h, k, Max(flushed, applied)); n > 0 ==> VerAt(h, n) !in bag
    ensures ValueAt(h, k, Max(flushed, applied)) == None && forall r :: !Sees(bag, k, top, r)
  {
    var n := Newest(h, k, Max(flushed, applied));
    NewestIsThere(s, h, version, overlay, flushed, bound, low, applied, k);
    forall v | v in bag && v.key == k ensures v.at <= n {
      assert Wrote(h, v) && WroteKey(h, k, v.at);
    }
    if n > 0 {
      OverlaySees(s, h, version, overlay, flushed, bound, low, applied, k, applied);
      assert Newest(h, k, applied) > low ==> Newest(h, k, applied) <= n;
      forall r ensures !Sees(bag, k, top, r) {
        OverlayOnly(version, overlay, bag, k, applied, top, r);
      }
    }
  }

  /** The replica's point lookup: the overlay first, the slice only if that has nothing. */
  lemma OverlayFirstRead(s: Scope, h: Log, version: seq<Run>, overlay: seq<Ver>, flushed: SeqNo, bound: SeqNo,
                         low: SeqNo, applied: SeqNo, k: Key, top: SeqNo)
    requires EdgeOk(s, h, version, overlay, flushed, bound, low, applied) && low <= flushed && Covers(s, k) &&
      |h| <= top
    requires Sorted(overlay) && WfRuns(version) && applied <= |h| && flushed <= |h|
    ensures var hit := Seek(overlay, k, top);
      Visible(if hit.Some? then hit else Get(version, k, top)) ==
        if Newest(h, k, applied) > low then ValueAt(h, k, applied) else ValueAt(h, k, flushed)
  {
    OverlaySees(s, h, version, overlay, flushed, bound, low, applied, k, top);
    FirstHitIsNewest(version, k, top);
    SliceAnswer(s, h, version, flushed, bound, k, top, Get(version, k, top));
  }

  lemma SliceAnswer(s: Scope, h: Log, version: seq<Run>, flushed: SeqNo, bound: SeqNo, k: Key, top: SeqNo,
                    got: Option<Ver>)
    requires SliceRetains(s, version, h, flushed, bound) && Covers(s, k) && |h| <= top && IsAnswer(version, k, top, got)
    ensures Visible(got) == ValueAt(h, k, flushed)
  {
    var n := Newest(h, k, flushed);
    if got.Some? { assert Wrote(h, got.value) && WroteKey(h, k, got.value.at); }
    if n > 0 {
      if n <= bound {
        NewestIs(h, k, bound, n);
        assert KeyKept(version, h, k, bound);
      }
      if InRuns(version, VerAt(h, n)) { assert Matches(VerAt(h, n), k, top); }
    }
  }

  /** So the lookup is the master's value at the frontier exactly when the stream has delivered
      through the slice's watermark, or the overlay has nothing of the key, or nothing changed it in
      between. */
  lemma LookupIsExactWhen(s: Scope, h: Log, version: seq<Run>, overlay: seq<Ver>, flushed: SeqNo, bound: SeqNo,
                          low: SeqNo, applied: SeqNo, k: Key, top: SeqNo)
    requires EdgeOk(s, h, version, overlay, flushed, bound, low, applied) && low <= flushed && Covers(s, k) &&
      |h| <= top
    requires Sorted(overlay) && WfRuns(version) && applied <= |h| && flushed <= |h|
    ensures var hit := Seek(overlay, k, top);
      Visible(if hit.Some? then hit else Get(version, k, top)) == ValueAt(h, k, Max(flushed, applied)) <==>
        applied >= flushed || hit.None? || ValueAt(h, k, applied) == ValueAt(h, k, flushed)
  {
    OverlayFirstRead(s, h, version, overlay, flushed, bound, low, applied, k, top);
    OverlaySees(s, h, version, overlay, flushed, bound, low, applied, k, top);
    if applied >= flushed && Newest(h, k, applied) <= low { Unchanged(h, k, flushed, applied); }
    hide *;
  }

  lemma Unchanged(h: Log, k: Key, a: SeqNo, b: SeqNo)
    requires a <= b <= |h| && Newest(h, k, b) <= a
    ensures ValueAt(h, k, a) == ValueAt(h, k, b)
  {
    NewestIs(h, k, a, Newest(h, k, b));
  }

  // ---------------------------------------------------------------- the store

  const MAX_SEQNO := 0xff_ffff_ffff_ffff

  /** Ordered insertion; the same version inserted again changes nothing. */
  function Upsert(m: seq<Ver>, v: Ver): seq<Ver> {
    if m == [] || IkeyLess(v, m[0]) then [v] + m
    else if m[0].key == v.key && m[0].at == v.at then [v] + m[1..]
    else [m[0]] + Upsert(m[1..], v)
  }

  lemma {:induction false} UpsertExact(m: seq<Ver>, v: Ver)
    requires Sorted(m) && forall u :: u in m && u.key == v.key && u.at == v.at ==> u == v
    ensures Sorted(Upsert(m, v)) && forall u :: u in Upsert(m, v) <==> u in m || u == v
  {
    if m != [] {
      assert forall u :: u in m <==> u == m[0] || u in m[1..];
      assert forall u :: u in m[1..] ==> IkeyLess(m[0], u);
      if IkeyLess(v, m[0]) {
        forall u | u in m ensures IkeyLess(v, u) {}
      } else if !(m[0].key == v.key && m[0].at == v.at) {
        UpsertExact(m[1..], v);
      }
    }
  }

  /** The master's history only grows; what the replica holds of it stays what it is. */
  lemma HistoryGrows(s: Scope, h: Log, h': Log, version: seq<Run>, overlay: seq<Ver>, flushed: SeqNo, bound: SeqNo,
                     low: SeqNo, applied: SeqNo)
    requires EdgeOk(s, h, version, overlay, flushed, bound, low, applied) && h <= h'
    ensures EdgeOk(s, h', version, overlay, flushed, bound, low, applied)
  {
    forall v ensures Wrote(h', v) && v.at <= |h| <==> Wrote(h, v) {}
    forall n | bound < n <= flushed && Covers(s, h'[n - 1].key) ensures InRuns(version, VerAt(h', n)) {
      assert VerAt(h', n) == VerAt(h, n);
    }
    forall k | Covers(s, k) ensures KeyKept(version, h', k, bound) {
      assert KeyKept(version, h, k, bound);
      assert h[..bound] == h'[..bound];
      NewestPrefix(h, h', k, bound);
      var n := Newest(h, k, bound);
      if n > 0 { assert VerAt(h', n) == VerAt(h, n); }
    }
  }

  function AsVer(e: Entry): Ver {
    Ver(e.key, e.at, e.op)
  }

  /** A streamed entry is a version of the history, so it can only meet itself in the overlay. */
  lemma FeedVersion(s: Scope, h: Log, from: SeqNo, to: SeqNo, es: seq<Entry>, e: Entry)
    requires from <= to <= |h| && IsFeed(s, h, from, to, es) && e in es
    ensures Wrote(h, AsVer(e)) && from < e.at <= to && Covers(s, e.key)
  {
  }

  /** Adding a feed extends the overlay to where the feed ends. */
  lemma FeedExtends(s: Scope, h: Log, low: SeqNo, applied: SeqNo, to: SeqNo, es: seq<Entry>, before: seq<Ver>,
                    after: seq<Ver>)
    requires low <= applied <= to <= |h| && IsFeed(s, h, applied, to, es)
    requires forall v :: v in before <==> Wrote(h, v) && Covers(s, v.key) && low < v.at <= applied
    requires forall v :: v in after <==> v in before || exists e :: e in es && v == AsVer(e)
    ensures forall v :: v in after <==> Wrote(h, v) && Covers(s, v.key) && low < v.at <= to
  {
    forall v ensures v in after <==> Wrote(h, v) && Covers(s, v.key) && low < v.at <= to {
      if e :| e in es && v == AsVer(e) { FeedVersion(s, h, applied, to, es, e); }
      if Wrote(h, v) && Covers(s, v.key) && applied < v.at <= to {
        assert Wanted(s, h, v.at);
        assert HasSeqno(es, v.at);
        var e :| e in es && e.at == v.at;
        assert v == AsVer(e);
      }
    }
  }

  class EdgeStore {
    const scope: Scope
    var version: seq<Run>
    var overlay: seq<Ver>
    var flushed: SeqNo
    var frontier: SeqNo
    /** The master's history so far, the bound it retained states from when the slice was taken, and
        how far the stream has been applied. */
    ghost var h: Log
    ghost var bound: SeqNo
    ghost var low: SeqNo
    ghost var applied: SeqNo

    ghost predicate Valid()
      reads this
    {
      EdgeOk(scope, h, version, overlay, flushed, bound, low, applied) && |h| <= MAX_SEQNO && frontier <= |h|
    }

    /** A slice has been installed since the stream was opened. */
    ghost predicate Attached()
      reads this
    {
      Valid() && low <= flushed && frontier == Max(flushed, applied)
    }

    /** Attached to a master whose stream was opened at `start`; nothing installed yet. */
    constructor (s: Scope, master: Log, start: SeqNo)
      requires start <= |master| <= MAX_SEQNO
      ensures Valid() && scope == s && h == master && low == start && applied == start && overlay == [] && flushed == 0
    {
      scope, version, overlay, flushed, frontier := s, [], [], 0, 0;
      h, bound, low, applied := master, 0, start, start;
    }

    /** Keep the overlay's tail past the new watermark. */
    method Prune(watermark: SeqNo) returns (kept: seq<Ver>)
      requires Sorted(overlay)
      ensures Sorted(kept) && forall v :: v in kept <==> v in overlay && v.at > watermark
    {
      kept := [];
      var i := 0;
      while i < |overlay|
        invariant 0 <= i <= |overlay| && Sorted(kept)
        invariant forall v :: v in kept <==> v in overlay[..i] && v.at > watermark
      {
        if overlay[i].at > watermark {
          forall v | v in kept ensures IkeyLess(v, overlay[i]) {
            var j :| 0 <= j < i && overlay[j] == v;
          }
          kept := kept + [overlay[i]];
        }
        i := i + 1;
      }
      assert overlay[..i] == overlay;
    }

    /** Swap in a freshly pulled slice.  `restart` is the start of a new stream when the old one was
        cut; subscribing before pulling is what puts it at or below the watermark. */
    method InstallSlice(runs: seq<Run>, watermark: SeqNo, ghost master: Log, ghost retained: SeqNo,
                        ghost restart: Option<SeqNo>)
      requires Valid() && h <= master && |master| <= MAX_SEQNO
      requires SliceRetains(scope, runs, master, watermark, retained)
      requires flushed <= watermark && low <= watermark && frontier <= Max(watermark, applied)
      requires applied > watermark ==> frontier >= applied
      requires restart.Some? ==> applied <= restart.value <= watermark
      modifies this
      ensures Attached() && version == runs && flushed == watermark && h == master && bound == retained
      ensures applied == if restart.Some? then restart.value else old(applied)
      ensures low == if restart.Some? || applied < watermark then applied else watermark
    {
      var kept := Prune(watermark);
      HistoryGrows(scope, h, master, version, overlay, flushed, bound, low, applied);
      overlay, version, flushed := kept, runs, watermark;
      h, bound := master, retained;
      if restart.Some? {
        low, applied := restart.value, restart.value;
      } else {
        low := if applied < watermark then applied else watermark;
      }
      if watermark > frontier { frontier := watermark; }
    }

    /** Insert the batch's in-scope entries. */
    method InsertAll(entries: seq<Entry>, ghost master: Log, ghost to: SeqNo)
      requires Sorted(overlay) && applied <= to <= |master| && IsFeed(scope, master, applied, to, entries)
      requires forall v :: v in overlay ==> Wrote(master, v)
      modifies this`overlay
      ensures Sorted(overlay) && forall v :: v in overlay <==>
        v in old(overlay) || exists e :: e in entries && v == AsVer(e)
    {
      var i := 0;
      while i < |entries|
        invariant 0 <= i <= |entries| && Sorted(overlay)
        invariant forall v :: v in overlay ==> Wrote(master, v)
        invariant forall v :: v in overlay <==> v in old(overlay) || exists e :: e in entries[..i] && v == AsVer(e)
      {
        var e := entries[i];
        assert e in entries;
        FeedVersion(scope, master, applied, to, entries, e);
        UpsertExact(overlay, AsVer(e));
        assert entries[..i + 1] == entries[..i] + [e];
        if Covers(scope, e.key) { overlay := Upsert(overlay, AsVer(e)); }
        i := i + 1;
      }
      assert entries[..i] == entries;
    }

    /** Apply a batch of whole commits, the next stretch of the stream: the frontier lands on its
        highest commit seqno. */
    method ApplyStream(entries: seq<Entry>, ghost master: Log, ghost to: SeqNo)
      requires Attached() && h <= master && |master| <= MAX_SEQNO && entries != []
      requires applied <= to <= |master| && IsFeed(scope, master, applied, to, entries)
      requires entries[|entries| - 1].commit == to
      modifies this
      ensures Attached() && h == master && applied == to
      ensures version == old(version) && flushed == old(flushed) && bound == old(bound) && low == old(low)
    {
      var commit := 0;
      var i := 0;
      while i < |entries|
        invariant 0 <= i <= |entries| && commit <= to && forall j :: 0 <= j < i ==> entries[j].commit <= commit
      {
        assert entries[i] in entries;
        if entries[i].commit > commit { commit := entries[i].commit; }
        i := i + 1;
      }
      HistoryGrows(scope, h, master, version, overlay, flushed, bound, low, applied);
      ghost var before := overlay;
      InsertAll(entries, master, to);
      FeedExtends(scope, master, low, applied, to, entries, before, overlay);
      h, applied := master, to;
      if commit > frontier { frontier := commit; }
    }

    /** The point lookup. */
    method Lookup(key: Key) returns (r: Option<Repr>)
      requires Attached() && Covers(scope, key)
      ensures r == ValueAt(h, key, frontier) <==>
        applied >= flushed || Seek(overlay, key, MAX_SEQNO).None? ||
        ValueAt(h, key, applied) == ValueAt(h, key, flushed)
    {
      LookupIsExactWhen(scope, h, version, overlay, flushed, bound, low, applied, key, MAX_SEQNO);
      var hit := Seek(overlay, key, MAX_SEQNO);
      if hit.None? { hit := Get(version, key, MAX_SEQNO); }
      r := Visible(hit);
    }

    /** A scan of part of the scope: the master's scoped state at the frontier, exactly for the keys
        that are not resurrected, which show what the overlay has of them. */
    method Scan(lo: Key, hi: Option<Key>, reverse: bool) returns (out: seq<Pair>)
      requires Attached() && scope.lo <= lo && (scope.hi.Some? ==> hi.Some? && hi.value <= scope.hi.value)
      ensures KeysInOrder(reverse, out) && forall p :: p in out ==> lo <= p.key && Below(p.key, hi)
      ensures forall k :: lo <= k && Below(k, hi) ==>
        ((forall r :: Pair(k, r) in out <==> ValueAt(h, k, frontier) == Some(r)) <==>
         !Resurrected(h, version, overlay, flushed, applied, k))
      ensures forall k :: lo <= k && Below(k, hi) && Resurrected(h, version, overlay, flushed, applied, k) ==>
        forall r :: Pair(k, r) in out <==> Sees(overlay, k, applied, r)
    {
      hide Sees, EdgeOk, Resurrected;
      var sources := [overlay] + RunSources(version);
      EdgeSources(scope, h, version, overlay, flushed, bound, low, applied);
      if reverse {
        out := ScanBackward(sources, MAX_SEQNO, lo, hi);
      } else {
        out := ScanForward(sources, MAX_SEQNO, lo, hi);
      }
      forall k | lo <= k && Below(k, hi)
        ensures (forall r :: Pair(k, r) in out <==> ValueAt(h, k, frontier) == Some(r)) <==>
                !Resurrected(h, version, overlay, flushed, applied, k)
        ensures Resurrected(h, version, overlay, flushed, applied, k) ==>
          forall r :: Pair(k, r) in out <==> Sees(overlay, k, applied, r)
      {
        MergedRead(scope, h, version, overlay, flushed, bound, low, applied, Bag(sources), k, MAX_SEQNO);
        forall r ensures Pair(k, r) in out <==> Sees(Bag(sources), k, MAX_SEQNO, r) {
          assert Pair(k, r).key == k;
        }
      }
    }
  }

  /** The overlay and the slice may hold the same version, never two different ones. */
  lemma EdgeSources(s: Scope, h: Log, version: seq<Run>, overlay: seq<Ver>, flushed: SeqNo, bound: SeqNo, low: SeqNo,
                    applied: SeqNo)
    requires EdgeOk(s, h, version, overlay, flushed, bound, low, applied)
    ensures WfSources([overlay] + RunSources(version)) && IsBag(Bag([overlay] + RunSources(version)), version, overlay)
  {
    RunSourcesExact(version);
    var sources := [overlay] + RunSources(version);
    assert WfSources([overlay]);
    ConcatSources([overlay], RunSources(version));
    forall v ensures v in Bag(sources) <==> InRuns(version, v) || v in overlay {
      BagMember(sources, v);
      assert InChildren([overlay], v) <==> v in [overlay][0];
    }
  }

  /** No key is resurrected once the stream has passed the watermark; nor if the master retained, when
      the slice was taken, every state from where the stream was applied. */
  lemma NoneResurrected(s: Scope, h: Log, version: seq<Run>, overlay: seq<Ver>, flushed: SeqNo, bound: SeqNo,
                        low: SeqNo, applied: SeqNo, k: Key)
    requires EdgeOk(s, h, version, overlay, flushed, bound, low, applied) && low <= flushed && Covers(s, k)
    requires applied >= flushed || bound <= applied
    ensures !Resurrected(h, version, overlay, flushed, applied, k)
  {
    if Resurrected(h, version, overlay, flushed, applied, k) {
      NotResurrected(s, h, version, overlay, flushed, bound, low, applied, k);
    }
  }

  /** One commit of one op, published and taken by the sender: the stream's pin stands at it. */
  method SendOne(sub: Subscription, base: SeqNo, w: Write) returns (es: seq<Entry>)
    requires sub.Valid() && !sub.dropped && sub.queue == [] && base == sub.start + |Ops(sub.offered)| + 1
    requires Covers(sub.scope, w.key) && sub.weigh(Entry(w.key, base, base, w.op)) <= sub.maxBytes
    modifies sub
    ensures sub.Valid() && !sub.dropped && sub.queue == [] && sub.offered == old(sub.offered) + [[w]]
    ensures es == [Entry(w.key, base, base, w.op)] && sub.pinned == base
  {
    hide Weight, Expected, Ops;
    OneEntry(sub.scope, base, w, sub.weigh);
    assert sub.queue + Selected(sub.scope, base, [w], 1) == [Entry(w.key, base, base, w.op)];
    sub.Offer(base, [w]);
    var e := sub.Receive();
    es := e.entries;
  }

  lemma OneEntry(s: Scope, base: SeqNo, w: Write, weigh: Entry -> nat)
    requires Covers(s, w.key)
    ensures var e := Entry(w.key, base, base, w.op); Selected(s, base, [w], 1) == [e] && Weight(weigh, [e]) == weigh(e)
  {
    var e := Entry(w.key, base, base, w.op);
    assert Selected(s, base, [w], 0) == [] && [e][..0] == [];
  }

  function PutThenDelete(k: Key, v: Repr): Log {
    [Write(k, Put(v)), Write(k, Delete)]
  }

  /** It does happen, to any key in scope.  The master sends a put and then its delete; both are on their
      way, which moves the stream's pin past them, so a compaction may drop them; the replica installs
      the slice taken then, applies the first batch, and scans: the deleted key is there. */
  method ResurrectionHappens(s: Scope, k: Key, v: Repr, cap: nat, weigh: Entry -> nat)
    returns (edge: EdgeStore, sub: Subscription, out: seq<Pair>)
    requires Covers(s, k) && forall e :: weigh(e) <= cap
    ensures fresh(edge) && edge.Attached() && edge.scope == s && edge.h == PutThenDelete(k, v) && edge.frontier == 2
    ensures fresh(sub) && sub.Valid() && Ops(sub.offered) == PutThenDelete(k, v) && sub.pinned == 2
    ensures Pair(k, v) in out && ValueAt(edge.h, k, edge.frontier) == None
  {
    assert s.lo <= k && Below(k, s.hi);
    hide Sees, EdgeOk, SliceRetains, IsFeed, Resurrected, Expected, Ops, Weight, Covers, ValueAt;
    var h, put, del := PutThenDelete(k, v), Write(k, Put(v)), Write(k, Delete);
    OpsOfTwo(put, del);
    sub := new Subscription(s, 0, cap, weigh);
    var batch := SendOne(sub, 1, put);
    var unseen := SendOne(sub, 2, del);
    edge := new EdgeStore(s, [put], 0);
    EmptySlice(s, k, v);
    edge.InstallSlice([], 2, h, 2, None);
    PutFeed(s, k, v);
    edge.ApplyStream(batch, h, 1);
    out := edge.Scan(s.lo, s.hi, false);
    PutShows(s, h, edge.overlay, k, v);
  }

  lemma OpsOfTwo(a: Write, b: Write)
    ensures Ops([]) == [] && Ops([] + [[a]]) == [a] && Ops([] + [[a]] + [[b]]) == [a, b]
  {
    assert [[a]][..0] == [] && ([[a]] + [[b]])[..1] == [[a]];
  }

  /** A tree that has dropped both retains from the delete on. */
  lemma EmptySlice(s: Scope, k: Key, v: Repr)
    ensures SliceRetains(s, [], PutThenDelete(k, v), 2, 2)
  {
    var h := PutThenDelete(k, v);
    forall x ensures KeyKept([], h, x, 2) {
      var n := Newest(h, x, 2);
      assert WroteKey(h, k, 2);
    }
  }

  lemma PutFeed(s: Scope, k: Key, v: Repr)
    requires Covers(s, k)
    ensures IsFeed(s, PutThenDelete(k, v), 0, 1, [Entry(k, 1, 1, Put(v))])
  {
    var es := [Entry(k, 1, 1, Put(v))];
    assert es[0] in es;
  }

  lemma PutShows(s: Scope, h: Log, overlay: seq<Ver>, k: Key, v: Repr)
    requires h == PutThenDelete(k, v) && Covers(s, k) && EdgeOk(s, h, [], overlay, 2, 2, 0, 1)
    ensures Resurrected(h, [], overlay, 2, 1, k) && ValueAt(h, k, 2) == None && Sees(overlay, k, 1, v)
  {
    var ver := Ver(k, 1, Put(v));
    assert Wrote(h, ver) && ver in overlay && Matches(ver, k, 1);
    assert Sees(overlay, k, 1, v);
    assert WroteKey(h, k, 2);
  }
}
