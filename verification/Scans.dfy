/** A snapshot iterator over the whole store: memtables, frozen memtables and every run. */
module Scans {
  import opened Types
  import opened History
  import opened Merging
  import opened Cursors
  import opened Runs
  import opened Tree
  import opened Retention
  import opened Views
  import opened Engine

  /** The frozen memtables, newest first. */
  function FrozenMems(h: Log, flushed: SeqNo, frozen: seq<SeqNo>): Children
    requires WfFrozen(flushed, frozen, |h|)
  {
    if frozen == [] then []
    else
      var below := frozen[..|frozen| - 1];
      [MemEntries(h, FrozenEnd(flushed, below), frozen[|frozen| - 1])] + FrozenMems(h, flushed, below)
  }

  function RunSources(rs: seq<Run>): Children {
    if rs == [] then [] else [Ents(rs[0])] + RunSources(rs[1..])
  }

  /** Everything a view reads from: the active memtable, the frozen ones, then the tree. */
  function Sources(st: State): Children
    requires WfFrozen(st.flushed, st.frozen, |st.log|)
  {
    [MemEntries(st.log, FrozenEnd(st.flushed, st.frozen), |st.log|)] +
    (FrozenMems(st.log, st.flushed, st.frozen) + RunSources(AllRuns(st.levels)))
  }

  lemma {:induction false} FrozenMemsExact(h: Log, flushed: SeqNo, frozen: seq<SeqNo>)
    requires WfFrozen(flushed, frozen, |h|)
    ensures var cs := FrozenMems(h, flushed, frozen);
      WfSources(cs) && forall v :: InChildren(cs, v) <==> Wrote(h, v) && flushed < v.at <= FrozenEnd(flushed, frozen)
  {
    if frozen != [] {
      var below := frozen[..|frozen| - 1];
      FrozenMemsExact(h, flushed, below);
      MemEntriesExact(h, FrozenEnd(flushed, below), frozen[|frozen| - 1]);
      ConsSource(MemEntries(h, FrozenEnd(flushed, below), frozen[|frozen| - 1]), FrozenMems(h, flushed, below));
    }
  }

  /** One more source whose versions no other source has. */
  lemma ConsSource(s: seq<Ver>, cs: Children)
    requires Sorted(s) && WfSources(cs)
    requires forall v, w :: v in s && InChildren(cs, w) ==> v.key != w.key || v.at != w.at
    ensures WfSources([s] + cs)
    ensures forall v :: InChildren([s] + cs, v) <==> v in s || InChildren(cs, v)
  {
    var all := [s] + cs;
    forall v ensures InChildren(all, v) <==> v in s || InChildren(cs, v) {
      if v in s { assert v in all[0]; }
      if i :| 0 <= i < |cs| && v in cs[i] { assert v in all[i + 1]; }
      if i :| 0 < i < |all| && v in all[i] { assert v in cs[i - 1]; }
    }
    forall i | 0 < i < |all| ensures forall w :: w in all[i] ==> InChildren(cs, w) {
      assert all[i] == cs[i - 1];
    }
  }

  lemma {:induction false} RunSourcesExact(rs: seq<Run>)
    requires WfRuns(rs) && NewestFirst(rs)
    ensures WfSources(RunSources(rs)) && forall v :: InChildren(RunSources(rs), v) <==> InRuns(rs, v)
  {
    if rs != [] {
      var rest := rs[1..];
      assert forall i :: 0 <= i < |rest| ==> rest[i] == rs[i + 1];
      RunSourcesExact(rest);
      FlatSorted(rs[0].tables);
      forall v, w | v in Ents(rs[0]) && InChildren(RunSources(rest), w) ensures v.key != w.key || v.at != w.at {
        var i :| 0 <= i < |rest| && w in Ents(rest[i]);
        assert Newer(rs[0], rs[i + 1]);
      }
      ConsSource(Ents(rs[0]), RunSources(rest));
      forall v ensures InRuns(rs, v) <==> v in Ents(rs[0]) || InRuns(rest, v) { InRunsCons(rs, v); }
    }
  }

  /** Sources of two kinds that never disagree, together. */
  lemma {:induction false} ConcatSources(a: Children, b: Children)
    requires WfSources(a) && WfSources(b)
    requires forall v, w :: InChildren(a, v) && InChildren(b, w) && v.key == w.key && v.at == w.at ==> v == w
    ensures WfSources(a + b) && forall v :: InChildren(a + b, v) <==> InChildren(a, v) || InChildren(b, v)
  {
    var all := a + b;
    forall v ensures InChildren(all, v) <==> InChildren(a, v) || InChildren(b, v) {
      if i :| 0 <= i < |a| && v in a[i] { assert v in all[i]; }
      if i :| 0 <= i < |b| && v in b[i] { assert v in all[|a| + i]; }
      if i :| 0 <= i < |all| && v in all[i] {
        if i < |a| { assert v in a[i]; } else { assert v in b[i - |a|]; }
      }
    }
    forall i, j, v: Ver, w: Ver | 0 <= i < j < |all| && v in all[i] && w in all[j] && v.key == w.key && v.at == w.at
      ensures v == w
    {
      if i < |a| <= j { assert InChildren(a, v) && InChildren(b, w); }
    }
  }

  /** A view reads from exactly the tree's versions and every later commit. */
  lemma SourcesExact(st: State)
    requires Inv(st)
    ensures WfSources(Sources(st))
    ensures forall v :: InChildren(Sources(st), v) <==>
      InRuns(AllRuns(st.levels), v) || (Wrote(st.log, v) && st.flushed < v.at)
  {
    var end := FrozenEnd(st.flushed, st.frozen);
    FrozenMemsExact(st.log, st.flushed, st.frozen);
    RunSourcesExact(AllRuns(st.levels));
    MemEntriesExact(st.log, end, |st.log|);
    var mems, runs := FrozenMems(st.log, st.flushed, st.frozen), RunSources(AllRuns(st.levels));
    ConcatSources(mems, runs);
    ConsSource(MemEntries(st.log, end, |st.log|), mems + runs);
  }

  /** What a reader sees in those versions is the history, whatever compaction dropped. */
  lemma BagSeesHistory(bag: seq<Ver>, rs: seq<Run>, h: Log, flushed: SeqNo, bound: SeqNo, k: Key, s: SeqNo, r: Repr)
    requires Retains(rs, h, flushed, bound) && bound <= s <= |h|
    requires forall v :: v in bag <==> InRuns(rs, v) || (Wrote(h, v) && flushed < v.at)
    ensures Sees(bag, k, s, r) <==> ValueAt(h, k, s) == Some(r)
  {
    var n := Newest(h, k, s);
    forall v | v in bag && Matches(v, k, s) ensures 0 < v.at <= n && (v.at == n ==> v == VerAt(h, n)) {
      assert Wrote(h, v) && WroteKey(h, k, v.at);
    }
    if n > 0 {
      var top := VerAt(h, n);
      if n <= flushed {
        NewestIs(h, k, if s < flushed then s else flushed, n);
        NewestIsKept(rs, h, flushed, bound, k, if s < flushed then s else flushed);
        if !InRuns(rs, top) {
          forall v | v in bag ensures !Matches(v, k, s) {}
        }
      }
      if top in bag { assert Matches(top, k, s); }
    }
  }

  /** Scanning a reachable store at a retained seqno lists exactly the history's state there, in
      either direction; the other direction is the mirror image. */
  method ScanStore(st: State, s: SeqNo, lo: Key, hi: Option<Key>, reverse: bool) returns (out: seq<Pair>)
    requires Inv(st) && Bound(st) <= s <= |st.log|
    ensures KeysInOrder(reverse, out)
    ensures forall p: Pair :: p in out <==> lo <= p.key && Below(p.key, hi) && ValueAt(st.log, p.key, s) == Some(p.repr)
  {
    hide Sees;
    SourcesExact(st);
    var sources := Sources(st);
    if reverse {
      out := ScanBackward(sources, s, lo, hi);
    } else {
      out := ScanForward(sources, s, lo, hi);
    }
    forall v ensures v in Bag(sources) <==> InChildren(sources, v) { BagMember(sources, v); }
    forall p: Pair ensures Sees(Bag(sources), p.key, s, p.repr) <==> ValueAt(st.log, p.key, s) == Some(p.repr) {
      BagSeesHistory(Bag(sources), AllRuns(st.levels), st.log, st.flushed, Bound(st), p.key, s, p.repr);
    }
  }
}
