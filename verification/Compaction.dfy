/** One rewrite job: the merge loop that decides which versions survive. */
module Compaction {
  import opened Types
  import opened Runs
  import opened Merging

  // ---------------------------------------------------------------- what the loop computes

  /** The loop's state: the user key being read, whether one of its versions at or below the
      watermark has been met, what was kept, and the value-log bytes dropped per file. */
  datatype Scan = Scan(cur: Option<Key>, met: bool, out: seq<Ver>, discard: map<nat, nat>)

  function DiscardOf(m: map<nat, nat>, f: nat): nat {
    if f in m then m[f] else 0
  }

  function DropPointer(m: map<nat, nat>, v: Ver): map<nat, nat> {
    if v.op.Put? && v.op.repr.Pointer?
    then m[v.op.repr.ptr.file := DiscardOf(m, v.op.repr.ptr.file) + v.op.repr.ptr.len]
    else m
  }

  /** One turn: everything above the watermark stays; of the rest only the newest version of each
      key stays, and not even that if it is a tombstone that no older run can need. */
  function Turn(st: Scan, v: Ver, w: SeqNo, older: seq<Run>): Scan
    requires WfRuns(older)
  {
    var met := st.cur == Some(v.key) && st.met;
    if v.at > w then Scan(Some(v.key), met, st.out + [v], st.discard)
    else if !met then
      if v.op.Delete? && !AnyMayContain(older, v.key)
      then Scan(Some(v.key), true, st.out, st.discard)
      else Scan(Some(v.key), true, st.out + [v], st.discard)
    else Scan(Some(v.key), true, st.out, DropPointer(st.discard, v))
  }

  function ScanOf(vs: seq<Ver>, w: SeqNo, older: seq<Run>): Scan
    requires WfRuns(older)
  {
    if vs == [] then Scan(None, false, [], map[])
    else Turn(ScanOf(vs[..|vs| - 1], w, older), vs[|vs| - 1], w, older)
  }

  lemma ScanSnoc(vs: seq<Ver>, n: nat, w: SeqNo, older: seq<Run>)
    requires WfRuns(older) && n < |vs|
    ensures ScanOf(vs[..n + 1], w, older) == Turn(ScanOf(vs[..n], w, older), vs[n], w, older)
  {
    assert vs[..n + 1][..n] == vs[..n];
  }

  // ---------------------------------------------------------------- what it means

  /** `v` is the newest version of its key at or below `w`. */
  predicate NewestBelow(vs: seq<Ver>, w: SeqNo, v: Ver) {
    v.at <= w && forall u :: u in vs && Matches(u, v.key, w) ==> u.at <= v.at
  }

  /** Who survives a compaction, said without reference to any order of reading. */
  predicate Survives(vs: seq<Ver>, w: SeqNo, older: seq<Run>, v: Ver)
    requires WfRuns(older)
  {
    v in vs && (v.at > w || (NewestBelow(vs, w, v) && (v.op.Put? || AnyMayContain(older, v.key))))
  }

  predicate MetBelow(vs: seq<Ver>, k: Key, w: SeqNo) {
    exists u :: u in vs && Matches(u, k, w)
  }

  /** The loop keeps exactly the survivors, in order. */
  lemma {:induction false} ScanExact(vs: seq<Ver>, w: SeqNo, older: seq<Run>)
    requires Sorted(vs) && WfRuns(older)
    ensures Sorted(ScanOf(vs, w, older).out)
    ensures forall v :: v in ScanOf(vs, w, older).out <==> Survives(vs, w, older, v)
    ensures vs != [] ==> ScanOf(vs, w, older).cur == Some(vs[|vs| - 1].key)
    ensures vs != [] ==>
      (ScanOf(vs, w, older).met <==> MetBelow(vs, vs[|vs| - 1].key, w))
  {
    if vs != [] {
      var pre, v := vs[..|vs| - 1], vs[|vs| - 1];
      ScanExact(pre, w, older);
      var st, st' := ScanOf(pre, w, older), ScanOf(vs, w, older);
      assert forall u :: u in vs <==> u in pre || u == v;
      forall u | u in pre ensures IkeyLess(u, v) {}
      var met := st.cur == Some(v.key) && st.met;
      assert met <==> MetBelow(pre, v.key, w) by {
        if u :| u in pre && Matches(u, v.key, w) {
          assert IkeyLess(u, pre[|pre| - 1]) || u == pre[|pre| - 1];
        }
      }
      assert MetBelow(vs, v.key, w) <==> MetBelow(pre, v.key, w) || v.at <= w by {
        assert Matches(v, v.key, w) <==> v.at <= w;
      }
      forall u | u in pre ensures Survives(vs, w, older, u) <==> Survives(pre, w, older, u) {}
      forall u | u in st'.out ensures Survives(vs, w, older, u) {}
      SortedSnoc(st.out, v);
    }
  }

  lemma SortedSnoc(s: seq<Ver>, v: Ver)
    requires Sorted(s) && forall u :: u in s ==> IkeyLess(u, v)
    ensures Sorted(s + [v])
  {
  }

  /** Bytes of file `f` that the entries' pointers reference. */
  function Referenced(vs: seq<Ver>, f: nat): nat {
    if vs == [] then 0
    else
      var v := vs[|vs| - 1];
      Referenced(vs[..|vs| - 1], f) +
        if v.op.Put? && v.op.repr.Pointer? && v.op.repr.ptr.file == f then v.op.repr.ptr.len else 0
  }

  /** Conservation: what the inputs reference in a value-log file is what the output still
      references plus what the job reports as discarded. */
  lemma {:induction false} DiscardConserves(vs: seq<Ver>, w: SeqNo, older: seq<Run>, f: nat)
    requires WfRuns(older)
    ensures Referenced(vs, f) ==
            Referenced(ScanOf(vs, w, older).out, f) + DiscardOf(ScanOf(vs, w, older).discard, f)
  {
    hide AnyMayContain, WfRuns, Referenced;
    if vs == [] {
      NothingReferenced(f);
    } else {
      var pre, v := vs[..|vs| - 1], vs[|vs| - 1];
      DiscardConserves(pre, w, older, f);
      ReferencedSnoc(pre, v, f);
      assert pre + [v] == vs;
      ReferencedSnoc(ScanOf(pre, w, older).out, v, f);
    }
  }

  lemma NothingReferenced(f: nat)
    ensures Referenced([], f) == 0
  {
  }

  lemma ReferencedSnoc(vs: seq<Ver>, v: Ver, f: nat)
    ensures Referenced(vs + [v], f) == Referenced(vs, f) +
      if v.op.Put? && v.op.repr.Pointer? && v.op.repr.ptr.file == f then v.op.repr.ptr.len else 0
  {
    assert (vs + [v])[..|vs|] == vs;
  }

  // ---------------------------------------------------------------- the job

  function KeySet(ents: seq<Ver>): set<Key> {
    set v | v in ents :: v.key
  }

  /** Closing a builder: the table, with a filter that at least knows the table's own keys. */
  function FinishTable(id: nat, ents: seq<Ver>, extra: set<Key>): Table {
    Table(id, ents, KeySet(ents) + extra)
  }

  /** Adding an entry that sorts after everything to the last fragment. */
  lemma ExtendLast(init: seq<Table>, id: nat, ents: seq<Ver>, extra: set<Key>, v: Ver)
    requires WfTables(init + [FinishTable(id, ents, extra)])
    requires ents != [] && IkeyLess(ents[|ents| - 1], v)
    ensures WfTables(init + [FinishTable(id, ents + [v], extra)])
    ensures Flat(init + [FinishTable(id, ents + [v], extra)]) == Flat(init + [FinishTable(id, ents, extra)]) + [v]
  {
    var a, b := FinishTable(id, ents, extra), FinishTable(id, ents + [v], extra);
    assert (init + [a])[|init|] == a && (init + [b])[|init|] == b;
    forall u | u in ents ensures IkeyLess(u, v) {
      assert u == ents[|ents| - 1] || IkeyLess(u, ents[|ents| - 1]);
    }
    SortedSnoc(ents, v);
    forall i | 0 <= i < |init| ensures WfTable(init[i]) && MaxKey(init[i]) < MinKey(b) {
      assert (init + [a])[i] == init[i];
    }
    forall i, j | 0 <= i < j < |init| ensures MaxKey(init[i]) < MinKey(init[j]) {
      assert (init + [a])[i] == init[i] && (init + [a])[j] == init[j];
    }
    FlatSnoc(init, a);
    FlatSnoc(init, b);
  }

  /** Opening a new fragment with an entry whose user key is past the last one. */
  lemma OpenFragment(ts: seq<Table>, id: nat, extra: set<Key>, v: Ver)
    requires WfTables(ts) && (ts != [] ==> MaxKey(ts[|ts| - 1]) < v.key)
    ensures WfTables(ts + [FinishTable(id, [v], extra)])
    ensures Flat(ts + [FinishTable(id, [v], extra)]) == Flat(ts) + [v]
  {
    var t := FinishTable(id, [v], extra);
    assert WfTable(t) && MinKey(t) == v.key;
    SnocTable(ts, t);
    FlatSnoc(ts, t);
  }

  lemma SnocTable(ts: seq<Table>, t: Table)
    requires WfTables(ts) && WfTable(t) && (ts != [] ==> MaxKey(ts[|ts| - 1]) < MinKey(t))
    ensures WfTables(ts + [t])
  {
    var all := ts + [t];
    assert forall i :: 0 <= i < |ts| ==> all[i] == ts[i];
    forall i | 0 <= i < |ts| ensures MaxKey(all[i]) < MinKey(t) {
      if i < |ts| - 1 {
        assert MaxKey(ts[i]) < MinKey(ts[|ts| - 1]);
        TableBounds(ts[|ts| - 1], ts[|ts| - 1].ents[0]);
      }
    }
  }

  lemma FlatSnoc(ts: seq<Table>, t: Table)
    ensures Flat(ts + [t]) == Flat(ts) + t.ents
  {
    FlatConcat(ts, [t]);
    assert Flat([t]) == t.ents + Flat([]);
  }

  function InputChildren(inputs: seq<Run>): (cs: Children)
    ensures |cs| == |inputs| && forall i :: 0 <= i < |inputs| ==> cs[i] == Ents(inputs[i])
  {
    seq(|inputs|, i requires 0 <= i < |inputs| => Ents(inputs[i]))
  }

  /** A rewrite job in flight: the cursor over its pinned inputs and the output built so far. */
  class RunningJob {
    const older: seq<Run>
    const watermark: SeqNo
    const entryBytes: Ver -> nat
    const estimate: seq<Ver> -> nat
    const falsePositives: set<Key>
    const merge: MergeIterator
    var tables: seq<Table>
    var builder: Option<(nat, seq<Ver>)>
    var discard: map<nat, nat>
    var curKey: Option<Key>
    var keptBelow: bool
    var nextFileId: nat
    ghost const input: seq<Ver>
    ghost var read: nat

    /** The closed fragments, and the open one as it would close now. */
    function Fragments(): seq<Table>
      reads this
    {
      if builder.None? then tables
      else tables + [FinishTable(builder.value.0, builder.value.1, falsePositives)]
    }

    function Output(): Scan
      reads this
    {
      Scan(curKey, keptBelow, Flat(Fragments()), discard)
    }

    /** The output so far is what the scan of the input read so far keeps. */
    ghost predicate Valid()
      reads this, merge
    {
      merge.Valid() && !merge.reverse && WfRuns(older) && Sorted(input) &&
      read <= |input| && merge.rest == input[read..] &&
      ScanOf(input[..read], watermark, older) == Output() &&
      WfTables(Fragments()) && (read < |input| && tables != [] ==> builder.Some?)
    }

    constructor (inputs: seq<Run>, olderRuns: seq<Run>, w: SeqNo, bytes: Ver -> nat,
                 est: seq<Ver> -> nat, extra: set<Key>, firstId: nat)
      requires WfRuns(inputs) && WfRuns(olderRuns) && NewestFirst(inputs)
      ensures Valid() && read == 0 && tables == [] && builder.None? && fresh(merge)
      ensures older == olderRuns && watermark == w
      ensures IsMerge(false, InputChildren(inputs), input) && Sorted(input)
    {
      InputsMerge(inputs);
      var m := new MergeIterator(InputChildren(inputs), false);
      older, watermark, entryBytes, estimate, falsePositives := olderRuns, w, bytes, est, extra;
      merge, tables, builder, discard := m, [], None, map[];
      curKey, keptBelow, nextFileId := None, false, firstId;
      input, read := m.rest, 0;
      new;
      assert input[..0] == [] && input[0..] == input;
      StrictMerge(false, InputChildren(inputs), input);
      assert InOrder(false, input);
    }

    /** Process at most one quantum, stopping only between user keys; true once the input is
        exhausted and the last table is closed. */
    method RunSlice(sliceBytes: nat, targetFileSize: nat) returns (done: bool)
      requires Valid()
      modifies this, merge
      ensures Valid()
      ensures done <==> read == |input|
      ensures old(read) < |input| ==> old(read) < read
      ensures !done && read > 0 ==> input[read].key != input[read - 1].key
      ensures done ==> builder.None? && Flat(tables) == ScanOf(input, watermark, older).out
      ensures done ==> discard == ScanOf(input, watermark, older).discard
    {
      hide ScanOf, WfTables, WfRuns, FinishTable, Flat, Sorted, IsMerge, WfChildren, IsBest;
      var budget := if sliceBytes < 1 then 1 else sliceBytes;
      var processed := 0;
      merge.Front();
      while merge.HasEntry()
        invariant Valid()
        invariant merge.HasEntry() <==> read < |input|
        invariant old(read) <= read
        invariant read == old(read) ==> processed == 0
        decreases |input| - read
      {
        var v := Current();
        if processed >= budget && curKey != Some(v.key) {
          Boundary();
          return false;
        }
        Advance(v, targetFileSize);
        processed := processed + entryBytes(v);
        merge.Front();
      }
      assert input[..read] == input;
      CloseBuilder();
      return true;
    }

    method Current() returns (v: Ver)
      requires Valid() && merge.HasEntry()
      ensures read < |input| && v == input[read]
    {
      merge.Front();
      v := merge.Entry();
    }

    /** Consume the current entry. */
    method Advance(v: Ver, targetFileSize: nat)
      requires Valid() && merge.HasEntry() && read < |input| && v == input[read]
      modifies this, merge
      ensures Valid() && read == old(read) + 1
    {
      hide WfTables, Flat, IkeyLess, Sorted, WfRuns, Turn, IsBest, WfChildren, IsMerge, ScanOf;
      OutputBefore(read);
      Consider(v, curKey != Some(v.key), targetFileSize);
      merge.Next();
      ScanSnoc(input, read, watermark, older);
      read := read + 1;
    }

    /** Everything kept so far sorts before the next input entry. */
    lemma OutputBefore(n: nat)
      requires Valid() && n == read < |input|
      ensures forall u :: u in Output().out ==> IkeyLess(u, input[n])
    {
      SortedPrefix(input, n);
      ScanExact(input[..n], watermark, older);
      forall u | u in Output().out ensures IkeyLess(u, input[n]) {
        assert u in input[..n];
      }
    }

    /** Decide one entry's fate. */
    method Consider(v: Ver, newUserKey: bool, targetFileSize: nat)
      requires WfRuns(older) && WfTables(Fragments()) && (tables != [] ==> builder.Some?)
      requires newUserKey <==> curKey != Some(v.key)
      requires forall u :: u in Output().out ==> IkeyLess(u, v)
      modifies this`tables, this`builder, this`nextFileId, this`curKey, this`keptBelow, this`discard
      ensures Output() == Turn(old(Output()), v, watermark, older)
      ensures WfTables(Fragments()) && (tables != [] ==> builder.Some?)
    {
      if newUserKey {
        curKey := Some(v.key);
        keptBelow := false;
      }
      var keep, dropped := true, false;
      if v.at <= watermark {
        if !keptBelow {
          keptBelow := true;
          keep := !(v.op.Delete? && !AnyMayContain(older, v.key));
        } else {
          keep, dropped := false, v.op.Put?;
        }
      }
      if keep {
        Add(v, targetFileSize);
      } else if dropped {
        discard := DropPointer(discard, v);
      }
    }

    lemma Boundary()
      requires Valid() && read < |input| && curKey != Some(input[read].key)
      ensures read > 0 ==> input[read].key != input[read - 1].key
    {
      if read > 0 {
        SortedPrefix(input, read);
        ScanExact(input[..read], watermark, older);
      }
    }

    /** Add a kept entry, splitting fragments only between user keys. */
    method Add(v: Ver, targetFileSize: nat)
      requires WfTables(Fragments()) && (tables != [] ==> builder.Some?)
      requires forall u :: u in Flat(Fragments()) ==> IkeyLess(u, v)
      modifies this`tables, this`builder, this`nextFileId
      ensures Flat(Fragments()) == old(Flat(Fragments())) + [v]
      ensures WfTables(Fragments()) && builder.Some?
    {
      ghost var before := Fragments();
      if builder.Some? {
        var ents := builder.value.1;
        assert before[|before| - 1].ents == ents;
        FlatMember(before, ents[|ents| - 1]);
        if estimate(ents) >= targetFileSize && v.key != ents[|ents| - 1].key {
          CloseBuilder();
        }
      }
      assert Fragments() == before;
      if builder.None? {
        OpenFragment(before, nextFileId, falsePositives, v);
        builder := Some((nextFileId, [v]));
        nextFileId := nextFileId + 1;
      } else {
        ExtendLast(tables, builder.value.0, builder.value.1, falsePositives, v);
        builder := Some((builder.value.0, builder.value.1 + [v]));
      }
    }

    method CloseBuilder()
      modifies this`tables, this`builder
      ensures builder.None? && tables == old(Fragments())
    {
      if builder.Some? {
        var t := FinishTable(builder.value.0, builder.value.1, falsePositives);
        tables := tables + [t];
        builder := None;
      }
    }
  }

  lemma SortedPrefix(s: seq<Ver>, n: nat)
    requires Sorted(s) && n <= |s|
    ensures Sorted(s[..n])
  {
  }

  /** Newest-first runs never hold the same version twice, so they merge. */
  lemma InputsMerge(inputs: seq<Run>)
    requires WfRuns(inputs) && NewestFirst(inputs)
    ensures WfChildren(false, InputChildren(inputs)) && Disjoint(InputChildren(inputs))
  {
    var cs := InputChildren(inputs);
    forall i | 0 <= i < |cs| ensures InOrder(false, cs[i]) { FlatSorted(inputs[i].tables); }
    forall i, j, v: Ver, w: Ver | 0 <= i < j < |cs| && v in cs[i] && w in cs[j] ensures v.key != w.key || v.at != w.at {
      assert Newer(inputs[i], inputs[j]);
    }
  }
}
