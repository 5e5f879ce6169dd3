/** Optimistic validation over the store as it is: memtables and tables, flushed, compacted and
 * collected while the transactions ran.
 *
 * Module Occ validates against the list of all versions ever committed.  The code looks each key up in
 * the read view instead, where compaction has dropped versions and tombstones meanwhile.  While the
 * transactions' snapshots are held the two agree, so what Occ and CommitQueue prove holds of the store.
 */
module Conflicts {
  import opened Keys
  import opened Types
  import opened History
  import opened Runs
  import opened Tree
  import opened Views
  import opened Engine
  import opened Guarantees
  import GroupCommit
  import opened GarbageCollection
  import Occ

  /** The versions committed so far, over byte keys, are the store's history. */
  predicate Mirrors(mem: seq<GroupCommit.Version>, log: Log) {
    |mem| == |log| && Occ.Dense(mem) && forall n :: 0 <= n < |mem| ==> Rank(mem[n].key) == log[n].key
  }

  /** The validation loop over the read view: the newest version of each key, whatever is left of it. */
  function CheckTables(st: State, written: set<Bytes>, snap: SeqNo, keys: seq<Bytes>,
                       unreadable: Bytes -> bool): Occ.Check
    requires WfFrozen(st.flushed, st.frozen, |st.log|) && WfRuns(AllRuns(st.levels))
  {
    if keys == [] then Occ.Clear
    else if keys[0] in written then Occ.Hit
    else if unreadable(keys[0]) then Occ.CannotRead
    else
      var latest := Lookup(st, Rank(keys[0]), |st.log|);
      if latest.Some? && latest.value.at > snap then Occ.Hit
      else CheckTables(st, written, snap, keys[1..], unreadable)
  }

  /** The group's admission, each request checked on the tables. */
  function AdmitTables(st: State, group: seq<Occ.Request>, unreadable: Bytes -> bool): Occ.Admission
    requires WfFrozen(st.flushed, st.frozen, |st.log|) && WfRuns(AllRuns(st.levels))
  {
    if group == [] then Occ.Admission([], {}, [], [])
    else
      var a, r := AdmitTables(st, group[..|group| - 1], unreadable), group[|group| - 1];
      var check := if r.validate.None? then Occ.Clear
                   else CheckTables(st, a.written, r.validate.value.snap, r.validate.value.keys, unreadable);
      if !check.Clear? then a.(checks := a.checks + [check])
      else if r.batch.ops == [] then a.(checks := a.checks + [check])
      else Occ.Admission(a.checks + [check], a.written + Occ.OpKeys(r.batch.ops), a.batches + [r.batch],
                         a.slots + [|group| - 1])
  }

  /** Every validated request's snapshot is still registered. */
  predicate SnapshotsHeld(st: State, group: seq<Occ.Request>) {
    forall r :: r in group && r.validate.Some? ==> r.validate.value.snap in st.snaps
  }

  lemma SameWrites(mem: seq<GroupCommit.Version>, log: Log, k: Bytes, n: SeqNo)
    requires Mirrors(mem, log)
    ensures Occ.Writes(mem, k, n) <==> WroteKey(log, Rank(k), n)
  {
    if 1 <= n <= |mem| { RankEmbedsOrder(mem[n - 1].key, k); }
  }

  /** The newest version in the read view is above a held snapshot exactly when the newest ever
      committed is, tombstones that compaction dropped notwithstanding. */
  lemma LatestAgrees(st: State, mem: seq<GroupCommit.Version>, k: Bytes, snap: SeqNo)
    requires Inv(st) && Mirrors(mem, st.log) && snap in st.snaps
    ensures var latest := Lookup(st, Rank(k), |st.log|);
      (latest.Some? && latest.value.at > snap) <==> Occ.NewestOf(mem, k) > snap
  {
    hide InvTree, InvStack, InvValues, Lookup, Occ.NewestOf, Mirrors;
    assert Bound(st) <= snap <= |st.log|;
    LatestIsExact(st, Rank(k), snap);
    assert |mem| == |st.log| && Occ.Dense(mem) by { MirrorsAll(mem, st.log); }
    Occ.NewestIsExact(mem, k, snap);
    if n :| snap < n <= |st.log| && WroteKey(st.log, Rank(k), n) { SameWrites(mem, st.log, k, n); }
    if Occ.WrittenIn(mem, k, snap, |mem|) {
      var n :| snap < n <= |mem| && Occ.Writes(mem, k, n);
      SameWrites(mem, st.log, k, n);
    }
  }

  lemma MirrorsAll(mem: seq<GroupCommit.Version>, log: Log)
    requires Mirrors(mem, log)
    ensures |mem| == |log| && Occ.Dense(mem)
  {
  }

  lemma InvReads(st: State)
    requires Inv(st)
    ensures WfFrozen(st.flushed, st.frozen, |st.log|) && WfRuns(AllRuns(st.levels))
    ensures WfLevels(st.levels) && InvStack(st)
  {
  }

  lemma {:induction false} ChecksAgree(st: State, mem: seq<GroupCommit.Version>, written: set<Bytes>, snap: SeqNo,
                                       keys: seq<Bytes>, unreadable: Bytes -> bool)
    requires Inv(st) && Mirrors(mem, st.log) && snap in st.snaps
    ensures CheckTables(st, written, snap, keys, unreadable) == Occ.CheckKeys(mem, written, snap, keys, unreadable)
  {
    hide Inv, Mirrors, Lookup, Occ.NewestOf;
    InvReads(st);
    if keys != [] {
      LatestAgrees(st, mem, keys[0], snap);
      ChecksAgree(st, mem, written, snap, keys[1..], unreadable);
    }
  }

  lemma {:induction false} AdmissionsAgree(st: State, mem: seq<GroupCommit.Version>, group: seq<Occ.Request>,
                                           unreadable: Bytes -> bool)
    requires Inv(st) && Mirrors(mem, st.log) && SnapshotsHeld(st, group)
    ensures AdmitTables(st, group, unreadable) == Occ.Admit(mem, group, unreadable)
  {
    hide Inv, Mirrors, CheckTables, Occ.CheckKeys, Occ.OpKeys;
    InvReads(st);
    if group != [] {
      var r, a := group[|group| - 1], Occ.Admit(mem, group[..|group| - 1], unreadable);
      AdmissionsAgree(st, mem, group[..|group| - 1], unreadable);
      assert r in group;
      if r.validate.Some? {
        ChecksAgree(st, mem, a.written, r.validate.value.snap, r.validate.value.keys, unreadable);
      }
    }
  }

  /** A transaction began on a snapshot of `st`; any run of commits, flushes, compactions and GC passes
      follows, the snapshot held.  Its validation on the tables at the end passes exactly when no key of
      it was committed since, by the store or by an earlier member of its group. */
  lemma ValidationIsExact(st: State, es: seq<Event>, opts: Options, mem: seq<GroupCommit.Version>, written: set<Bytes>,
                          snap: SeqNo, keys: seq<Bytes>, unreadable: Bytes -> bool)
    requires Inv(st) && Legal(st, es, opts) && Held(st, es, opts, snap) && Mirrors(mem, After(st, es, opts).log)
    ensures snap <= |After(st, es, opts).log|
    ensures CheckTables(After(st, es, opts), written, snap, keys, unreadable).Clear? <==>
      forall k :: k in keys ==>
        (k !in written && !unreadable(k) &&
         Untouched(After(st, es, opts).log, Rank(k), snap, |After(st, es, opts).log|))
  {
    hide Inv, Held, Legal, After, CheckTables, Mirrors, Occ.CheckKeys;
    var st' := After(st, es, opts);
    HeldAtEnd(st, es, opts, snap);
    MirrorsAll(mem, st'.log);
    ChecksAgree(st', mem, written, snap, keys, unreadable);
    Occ.CheckIsExact(mem, written, snap, keys, unreadable);
    SnapIsCommitted(st', snap);
    forall k ensures Occ.WrittenIn(mem, k, snap, |mem|) <==> !Untouched(st'.log, Rank(k), snap, |st'.log|) {
      SameSpan(mem, st'.log, k, snap, |mem|);
      NothingBetween(st'.log, Rank(k), snap, |st'.log|);
    }
  }

  lemma SameSpan(mem: seq<GroupCommit.Version>, log: Log, k: Bytes, from: SeqNo, to: SeqNo)
    requires Mirrors(mem, log)
    ensures Occ.WrittenIn(mem, k, from, to) <==> exists n :: from < n <= to && WroteKey(log, Rank(k), n)
  {
    hide Mirrors;
    if Occ.WrittenIn(mem, k, from, to) {
      var n :| from < n <= to && Occ.Writes(mem, k, n);
      SameWrites(mem, log, k, n);
    }
    if n :| from < n <= to && WroteKey(log, Rank(k), n) { SameWrites(mem, log, k, n); }
  }

  lemma {:induction false} HeldAtEnd(st: State, es: seq<Event>, opts: Options, snap: SeqNo)
    requires Inv(st) && Legal(st, es, opts) && Held(st, es, opts, snap)
    ensures Inv(After(st, es, opts)) && snap in After(st, es, opts).snaps
    decreases |es|
  {
    hide Inv, Next, Enabled;
    InvReads(st);
    if es != [] {
      NextKeeps(st, es[0], opts);
      HeldAtEnd(Next(st, es[0], opts), es[1..], opts, snap);
    }
  }

  /** First committer wins, of the store itself.  A group is validated on the tables, its members'
      snapshots held, and published; `log'` is the history then.  For a member that commits, the state of
      every key it wrote or locked is the same where it takes effect as at its snapshot, exactly unless
      an earlier member's trigger event hit such a key. */
  lemma CommitsOnWhatItRead(st: State, cfg: GroupCommit.Config, mem: seq<GroupCommit.Version>,
                            vlog: seq<(Bytes, Bytes)>, group: seq<Occ.Request>, unreadable: Bytes -> bool,
                            published: nat, mem': seq<GroupCommit.Version>, outcomes: seq<Occ.Outcome>, i: nat,
                            log': Log)
    requires Inv(st) && Mirrors(mem, st.log) && SnapshotsHeld(st, group)
    requires Occ.Ran(cfg, mem, vlog, group, unreadable, published, mem', outcomes) && Mirrors(mem', log')
    requires i < |group| && outcomes[i] == Occ.Done && group[i].validate.Some?
    ensures AdmitTables(st, group, unreadable) == Occ.Admit(mem, group, unreadable)
    ensures var v, at := group[i].validate.value, Occ.PointOf(cfg, mem, vlog, group, unreadable, published, i);
      v.snap <= |log'| && at <= |log'| &&
      ((forall k :: k in v.keys ==> Untouched(log', Rank(k), v.snap, at)) <==>
       (forall k :: k in v.keys ==> k !in Occ.EventsAhead(cfg, mem, group, unreadable, published, i)))
  {
    hide Inv, Mirrors, Occ.Ran, Occ.PointOf, Occ.EventsAhead, AdmitTables, Occ.Admit, Occ.Ahead, Occ.AfterGroup;
    var v := group[i].validate.value;
    AdmissionsAgree(st, mem, group, unreadable);
    MirrorsAll(mem, st.log);
    MirrorsAll(mem', log');
    assert group[i] in group;
    SnapIsCommitted(st, v.snap);
    Occ.StoreAtPoint(cfg, mem, vlog, group, unreadable, published, mem', outcomes, i);
    Occ.StoreAtPoint(cfg, mem, vlog, group, unreadable, published, mem', outcomes, 0);
    Occ.FirstCommitterWins(cfg, mem, vlog, group, unreadable, published, mem', outcomes, i);
    var at := Occ.PointOf(cfg, mem, vlog, group, unreadable, published, i);
    forall k ensures Occ.WrittenIn(mem', k, v.snap, at) <==> !Untouched(log', Rank(k), v.snap, at) {
      SameSpan(mem', log', k, v.snap, at);
      NothingBetween(log', Rank(k), v.snap, at);
    }
  }

  /** The newest version of the key is the same at both seqnos. */
  predicate Untouched(log: Log, k: Key, from: SeqNo, to: SeqNo)
    requires from <= |log| && to <= |log|
  {
    Newest(log, k, to) == Newest(log, k, from)
  }

  lemma NothingBetween(log: Log, k: Key, from: SeqNo, to: SeqNo)
    requires from <= to <= |log|
    ensures Untouched(log, k, from, to) <==> !exists n :: from < n <= to && WroteKey(log, k, n)
  {
    if n :| from < n <= to && WroteKey(log, k, n) {
      assert Newest(log, k, to) >= n;
    } else {
      NewestIs(log, k, to, Newest(log, k, from));
    }
  }

  lemma SnapIsCommitted(st: State, snap: SeqNo)
    requires Inv(st) && snap in st.snaps
    ensures snap <= |st.log|
  {
  }
}
