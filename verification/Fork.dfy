/** Point forks: the state at a cut, rewritten as one run for the child store. */
module Fork {
  import opened Types
  import opened History
  import opened Runs
  import opened Merging
  import opened Compaction
  import opened Tree
  import opened Retention
  import opened Engine

  /** The rewrite's state: the user key being read, and whether its version at the cut was met. */
  datatype Cut = Cut(cur: Option<Key>, emitted: bool, out: seq<Ver>)

  function CutTurn(st: Cut, v: Ver, cut: SeqNo): Cut {
    var emitted := st.cur == Some(v.key) && st.emitted;
    if v.at <= cut && !emitted
    then Cut(Some(v.key), true, if v.op.Put? then st.out + [v] else st.out)
    else Cut(Some(v.key), emitted, st.out)
  }

  function CutOf(vs: seq<Ver>, cut: SeqNo): Cut {
    if vs == [] then Cut(None, false, [])
    else CutTurn(CutOf(vs[..|vs| - 1], cut), vs[|vs| - 1], cut)
  }

  /** The rewritten run holds exactly the Puts visible at the cut. */
  lemma {:induction false} CutExact(vs: seq<Ver>, cut: SeqNo)
    requires Sorted(vs)
    ensures Sorted(CutOf(vs, cut).out)
    ensures forall v :: v in CutOf(vs, cut).out <==> v in vs && v.op.Put? && NewestBelow(vs, cut, v)
    ensures vs != [] ==> CutOf(vs, cut).cur == Some(vs[|vs| - 1].key)
    ensures vs != [] ==> (CutOf(vs, cut).emitted <==> MetBelow(vs, vs[|vs| - 1].key, cut))
  {
    if vs != [] {
      var pre, v := vs[..|vs| - 1], vs[|vs| - 1];
      CutExact(pre, cut);
      var st, st' := CutOf(pre, cut), CutOf(vs, cut);
      assert forall u :: u in vs <==> u in pre || u == v;
      forall u | u in pre ensures IkeyLess(u, v) {}
      var emitted := st.cur == Some(v.key) && st.emitted;
      assert emitted <==> MetBelow(pre, v.key, cut) by {
        if u :| u in pre && Matches(u, v.key, cut) {
          assert IkeyLess(u, pre[|pre| - 1]) || u == pre[|pre| - 1];
        }
      }
      assert MetBelow(vs, v.key, cut) <==> MetBelow(pre, v.key, cut) || v.at <= cut by {
        assert Matches(v, v.key, cut) <==> v.at <= cut;
      }
      forall u | u in pre ensures NewestBelow(vs, cut, u) <==> NewestBelow(pre, cut, u) {}
      SortedSnoc(st.out, v);
    }
  }

  lemma CutOutBefore(vs: seq<Ver>, n: nat, cut: SeqNo, u: Ver)
    requires Sorted(vs) && n < |vs| && u in CutOf(vs[..n], cut).out
    ensures u.key < vs[n].key || (u.key == vs[n].key && CutOf(vs[..n], cut).cur == Some(u.key)
            && CutOf(vs[..n], cut).emitted)
  {
    SortedPrefix(vs, n);
    CutExact(vs[..n], cut);
    assert u in vs[..n];
    assert IkeyLess(u, vs[n]);
    if u.key == vs[n].key {
      var last := vs[..n][n - 1];
      assert IkeyLess(u, last) || u == last;
      assert IkeyLess(last, vs[n]);
      assert Matches(u, last.key, cut);
    }
  }

  /** One merge over the pinned view's runs, keeping per key the newest version at or below the cut
      when it is a Put; fragments split by size alone. */
  method WriteSnapshotRun(merge: MergeIterator, cut: SeqNo, firstId: nat, estimate: seq<Ver> -> nat,
                          targetFileSize: nat, extra: set<Key>) returns (tables: seq<Table>)
    requires merge.Valid() && !merge.reverse && Sorted(merge.rest)
    modifies merge
    ensures WfTables(tables) && Flat(tables) == CutOf(old(merge.rest), cut).out
  {
    hide IsMerge, WfChildren, IsBest, FinishTable, Sorted, WfBuilder, WithBuilder, Flat, WfTables, CutOf, CutTurn;
    hide PastEverything;
    ghost var input := merge.rest;
    ghost var read := 0;
    assert input[0..] == input && input[..0] == [];
    tables := [];
    var builder: Option<Table> := None;
    var curKey: Option<Key> := None;
    var emitted := false;
    var nextId := firstId;
    NothingWritten(extra, cut);
    merge.Front();
    while merge.HasEntry()
      invariant merge.Valid() && !merge.reverse && read <= |input| && merge.rest == input[read..]
      invariant merge.HasEntry() <==> read < |input|
      invariant WfBuilder(tables, builder, extra)
      invariant CutOf(input[..read], cut) == Cut(curKey, emitted, Flat(WithBuilder(tables, builder)))
      decreases |input| - read
    {
      merge.Front();
      var v := merge.Entry();
      assert v == input[read];
      Built(tables, builder, extra);
      if !(curKey == Some(v.key) && emitted) { LastKeyBefore(WithBuilder(tables, builder), input, read, cut); }
      tables, builder, curKey, emitted, nextId :=
        Take(tables, builder, curKey, emitted, nextId, v, cut, estimate, targetFileSize, extra);
      merge.Next();
      CutSnoc(input, read, cut);
      read := read + 1;
      merge.Front();
    }
    assert input[..read] == input;
    Built(tables, builder, extra);
    tables := WithBuilder(tables, builder);
  }

  lemma NothingWritten(extra: set<Key>, cut: SeqNo)
    ensures WfBuilder([], None, extra) && CutOf([], cut) == Cut(None, false, Flat(WithBuilder([], None)))
  {
  }

  lemma Built(tables: seq<Table>, builder: Option<Table>, extra: set<Key>)
    requires WfBuilder(tables, builder, extra)
    ensures WfTables(WithBuilder(tables, builder))
  {
  }

  lemma CutSnoc(vs: seq<Ver>, n: nat, cut: SeqNo)
    requires n < |vs|
    ensures CutOf(vs[..n + 1], cut) == CutTurn(CutOf(vs[..n], cut), vs[n], cut)
  {
    assert vs[..n + 1][..n] == vs[..n];
  }

  predicate WfBuilder(tables: seq<Table>, builder: Option<Table>, extra: set<Key>) {
    WfTables(WithBuilder(tables, builder)) && (tables != [] ==> builder.Some?) &&
    (builder.Some? ==> builder.value == FinishTable(builder.value.id, builder.value.ents, extra))
  }

  predicate PastEverything(tables: seq<Table>, v: Ver)
    requires WfTables(tables)
  {
    tables != [] ==> MaxKey(tables[|tables| - 1]) < v.key
  }

  /** One turn of the rewrite. */
  method Take(tables: seq<Table>, builder: Option<Table>, curKey: Option<Key>, emitted: bool, nextId: nat, v: Ver,
              cut: SeqNo, estimate: seq<Ver> -> nat, targetFileSize: nat, extra: set<Key>)
    returns (tables': seq<Table>, builder': Option<Table>, curKey': Option<Key>, emitted': bool, nextId': nat)
    requires WfBuilder(tables, builder, extra)
    requires !(curKey == Some(v.key) && emitted) ==> PastEverything(WithBuilder(tables, builder), v)
    ensures WfBuilder(tables', builder', extra)
    ensures Cut(curKey', emitted', Flat(WithBuilder(tables', builder'))) ==
            CutTurn(Cut(curKey, emitted, Flat(WithBuilder(tables, builder))), v, cut)
  {
    tables', builder', curKey', emitted', nextId' := tables, builder, curKey, emitted, nextId;
    if curKey != Some(v.key) {
      curKey' := Some(v.key);
      emitted' := false;
    }
    if v.at <= cut && !emitted' {
      emitted' := true;
      if v.op.Put? {
        tables', builder', nextId' := Emit(tables, builder, v, nextId, estimate, targetFileSize, extra);
      }
    }
  }

  /** Add an entry whose user key is past everything written. */
  method Emit(tables: seq<Table>, builder: Option<Table>, v: Ver, nextId: nat, estimate: seq<Ver> -> nat,
              targetFileSize: nat, extra: set<Key>)
    returns (tables': seq<Table>, builder': Option<Table>, nextId': nat)
    requires WfBuilder(tables, builder, extra)
    requires PastEverything(WithBuilder(tables, builder), v)
    ensures WfBuilder(tables', builder', extra)
    ensures Flat(WithBuilder(tables', builder')) == Flat(WithBuilder(tables, builder)) + [v]
  {
    tables', builder', nextId' := tables, builder, nextId;
    if builder.Some? {
      assert WithBuilder(tables, builder)[|tables|] == builder.value;
      if estimate(builder.value.ents) >= targetFileSize {
        tables', builder' := tables + [builder.value], None;
      }
    }
    if builder'.None? {
      OpenFragment(tables', nextId, extra, v);
      builder', nextId' := Some(FinishTable(nextId, [v], extra)), nextId + 1;
    } else {
      ExtendLast(tables, builder.value.id, builder.value.ents, extra, v);
      builder' := Some(FinishTable(builder.value.id, builder.value.ents + [v], extra));
    }
  }

  function WithBuilder(tables: seq<Table>, builder: Option<Table>): seq<Table> {
    if builder.Some? then tables + [builder.value] else tables
  }

  /** A key's version is emitted once, so the next one is past every emitted key. */
  lemma LastKeyBefore(all: seq<Table>, input: seq<Ver>, read: nat, cut: SeqNo)
    requires Sorted(input) && read < |input| && WfTables(all) && Flat(all) == CutOf(input[..read], cut).out
    requires !(CutOf(input[..read], cut).cur == Some(input[read].key) && CutOf(input[..read], cut).emitted)
    ensures PastEverything(all, input[read])
  {
    if all != [] {
      var t := all[|all| - 1];
      var last := t.ents[|t.ents| - 1];
      FlatMember(all, last);
      CutOutBefore(input, read, cut, last);
    }
  }

  /** The child reads, at any seqno at or above the cut and before its own writes, what the parent
      held at the cut: over every run of the parent, as long as the cut is retained. */
  lemma ChildReadsTheCut(st: State, cut: SeqNo, merged: seq<Ver>, child: Run, k: Key, s: SeqNo)
    requires Inv(st) && Bound(st) <= cut <= st.flushed && cut <= s
    requires IsMerge(false, InputChildren(AllRuns(st.levels)), merged)
    requires WfRun(child) && Ents(child) == CutOf(merged, cut).out
    ensures WfRuns([child]) && Visible(Get([child], k, s)) == ValueAt(st.log, k, cut)
  {
    hide IsMerge, InvStack, InvValues, InvBounds, AllRuns, InputChildren, CutOf, Retains, IkeyLess;
    var rs := AllRuns(st.levels);
    MergedTree(rs, merged);
    CutExact(merged, cut);
    RunGetExact(child, k, s);
    CutAnswers(rs, st.log, st.flushed, Bound(st), cut, merged, k, s, Seek(Ents(child), k, s));
    assert Get([child], k, s) == RunGet(child, k, s);
  }

  /** The merge of a newest-first tree is sorted and has exactly its versions. */
  lemma MergedTree(rs: seq<Run>, merged: seq<Ver>)
    requires WfRuns(rs) && NewestFirst(rs) && IsMerge(false, InputChildren(rs), merged)
    ensures Sorted(merged) && forall v :: v in merged <==> InRuns(rs, v)
  {
    InputsMerge(rs);
    StrictMerge(false, InputChildren(rs), merged);
    MergeMembers(false, InputChildren(rs), merged);
    forall v ensures v in merged <==> InRuns(rs, v) {
      assert InChildren(InputChildren(rs), v) <==> InRuns(rs, v);
    }
  }

  lemma CutAnswers(rs: seq<Run>, h: Log, flushed: SeqNo, bound: SeqNo, cut: SeqNo, merged: seq<Ver>,
                   k: Key, s: SeqNo, got: Option<Ver>)
    requires Retains(rs, h, flushed, bound) && bound <= cut <= flushed && cut <= s
    requires Sorted(merged) && forall v :: v in merged <==> InRuns(rs, v)
    requires got.Some? ==> got.value in CutOf(merged, cut).out && got.value.key == k
    requires got.None? ==> forall v :: v in CutOf(merged, cut).out ==> !Matches(v, k, s)
    ensures Visible(got) == ValueAt(h, k, cut)
  {
    CutExact(merged, cut);
    var n := Newest(h, k, cut);
    if got.Some? {
      assert Wrote(h, got.value) && WroteKey(h, k, got.value.at);
    }
    if n > 0 {
      NewestIsKept(rs, h, flushed, bound, k, cut);
      var top := VerAt(h, n);
      if InRuns(rs, top) {
        assert Matches(top, k, cut);
        forall u | u in merged && Matches(u, k, cut) ensures u.at <= n {
          assert Wrote(h, u) && WroteKey(h, k, u.at);
        }
        assert NewestBelow(merged, cut, top);
      }
    }
  }
}
