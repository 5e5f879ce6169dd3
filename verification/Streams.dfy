/** Range subscriptions: the bounded queue between the write path and one consumer, and the
 * snapshot pin that keeps queued pointers resolvable.
 */
module Streams {
  import opened Sequences
  import opened Types
  import opened History

  /** One committed op, as streamed: its seqno, and the last seqno of the commit it belongs to. */
  datatype Entry = Entry(key: Key, at: SeqNo, commit: SeqNo, op: Op)

  datatype Scope = Scope(lo: Key, hi: Option<Key>)

  predicate Covers(s: Scope, k: Key) {
    s.lo <= k && (s.hi.None? || k < s.hi.value)
  }

  /** The in-range ops among the first `n` of a commit whose ops got seqnos from `base` on. */
  function Selected(s: Scope, base: SeqNo, ws: Log, n: nat): seq<Entry>
    requires n <= |ws|
  {
    if n == 0 then []
    else
      var before := Selected(s, base, ws, n - 1);
      var w := ws[n - 1];
      if Covers(s, w.key) then before + [Entry(w.key, base + n - 1, base + |ws| - 1, w.op)] else before
  }

  /** All ops of some commits. */
  function Ops(commits: seq<Log>): Log {
    if commits == [] then [] else Ops(commits[..|commits| - 1]) + commits[|commits| - 1]
  }

  /** What a subscription that starts at `from` must deliver of the commits made since. */
  function Expected(s: Scope, from: SeqNo, commits: seq<Log>): seq<Entry> {
    if commits == [] then []
    else
      var before, last := commits[..|commits| - 1], commits[|commits| - 1];
      Expected(s, from, before) + Selected(s, from + |Ops(before)| + 1, last, |last|)
  }

  /** Entries in seqno order, each exactly an in-range op of the history after `from`. */
  ghost predicate IsFeed(s: Scope, h: Log, from: SeqNo, to: SeqNo, es: seq<Entry>)
    requires to <= |h|
  {
    (forall i, j :: 0 <= i < j < |es| ==> es[i].at < es[j].at) &&
    (forall e :: e in es ==> from < e.at <= e.commit <= to && h[e.at - 1] == Write(e.key, e.op) && Covers(s, e.key)) &&
    (forall n: SeqNo :: from < n <= to && Wanted(s, h, n) ==> HasSeqno(es, n))
  }

  predicate Wanted(s: Scope, h: Log, n: SeqNo) {
    1 <= n <= |h| && Covers(s, h[n - 1].key)
  }

  ghost predicate HasSeqno(es: seq<Entry>, n: SeqNo) {
    exists e :: e in es && e.at == n
  }

  lemma {:induction false} SelectedIsFeed(s: Scope, h: Log, base: SeqNo, ws: Log, n: nat)
    requires base >= 1 && base - 1 + |ws| <= |h| && h[base - 1..base - 1 + |ws|] == ws && n <= |ws|
    ensures var es := Selected(s, base, ws, n);
      (forall i, j :: 0 <= i < j < |es| ==> es[i].at < es[j].at) &&
      (forall e :: e in es ==>
        base <= e.at < base + n && e.commit == base + |ws| - 1 && h[e.at - 1] == Write(e.key, e.op) &&
        Covers(s, e.key)) &&
      (forall m: SeqNo :: base <= m < base + n && Wanted(s, h, m) ==> HasSeqno(es, m))
  {
    if n > 0 {
      SelectedIsFeed(s, h, base, ws, n - 1);
      var before, es := Selected(s, base, ws, n - 1), Selected(s, base, ws, n);
      assert h[base + n - 2] == ws[n - 1];
      forall m: SeqNo | base <= m < base + n && Wanted(s, h, m) ensures HasSeqno(es, m) {
        if m < base + n - 1 {
          assert HasSeqno(before, m);
          var e :| e in before && e.at == m;
          assert e in es;
        } else {
          assert es[|es| - 1] in es;
        }
      }
    }
  }

  lemma CommitIsFeed(s: Scope, h: Log, mid: SeqNo, ws: Log)
    requires mid + |ws| <= |h| && h[mid..mid + |ws|] == ws
    ensures IsFeed(s, h, mid, mid + |ws|, Selected(s, mid + 1, ws, |ws|))
  {
    hide Selected, Wanted, Covers, HasSeqno;
    SelectedIsFeed(s, h, mid + 1, ws, |ws|);
  }

  /** The expected entries are the gap-free, ordered, in-range part of the history. */
  lemma {:induction false} ExpectedIsFeed(s: Scope, h: Log, from: SeqNo, commits: seq<Log>)
    requires from + |Ops(commits)| <= |h| && h[from..from + |Ops(commits)|] == Ops(commits)
    ensures IsFeed(s, h, from, from + |Ops(commits)|, Expected(s, from, commits))
  {
    hide Selected, Wanted, Covers, HasSeqno;
    if commits != [] {
      var before, last := commits[..|commits| - 1], commits[|commits| - 1];
      var mid := from + |Ops(before)|;
      SliceSplits(h, from, Ops(before), last);
      ExpectedIsFeed(s, h, from, before);
      CommitIsFeed(s, h, mid, last);
      hide IsFeed;
      FeedConcat(s, h, from, mid, mid + |last|, Expected(s, from, before), Selected(s, mid + 1, last, |last|));
    }
  }

  lemma SliceSplits(h: Log, from: SeqNo, a: Log, b: Log)
    requires from + |a + b| <= |h| && h[from..from + |a + b|] == a + b
    ensures h[from..from + |a|] == a && h[from + |a|..from + |a| + |b|] == b
  {
    var both := h[from..from + |a + b|];
    assert both[..|a|] == h[from..from + |a|] && (a + b)[..|a|] == a;
    assert both[|a|..] == h[from + |a|..from + |a| + |b|] && (a + b)[|a|..] == b;
  }

  lemma FeedConcat(s: Scope, h: Log, from: SeqNo, mid: SeqNo, to: SeqNo, a: seq<Entry>, b: seq<Entry>)
    requires from <= mid <= to <= |h| && IsFeed(s, h, from, mid, a) && IsFeed(s, h, mid, to, b)
    ensures IsFeed(s, h, from, to, a + b)
  {
    forall n: SeqNo | from < n <= to && Wanted(s, h, n) ensures HasSeqno(a + b, n) {
      if n <= mid { assert HasSeqno(a, n); } else { assert HasSeqno(b, n); }
      var e :| (e in a || e in b) && e.at == n;
      assert e in a + b;
    }
  }

  predicate Ascends(from: SeqNo, to: SeqNo, es: seq<Entry>) {
    (forall i, j :: 0 <= i < j < |es| ==> es[i].at < es[j].at) &&
    forall i :: 0 <= i < |es| ==> from < es[i].at <= es[i].commit <= to
  }

  lemma {:induction false} SelectedAscends(s: Scope, base: SeqNo, ws: Log, n: nat)
    requires base >= 1 && n <= |ws|
    ensures Ascends(base - 1, base - 1 + |ws|, Selected(s, base, ws, n))
    ensures forall e :: e in Selected(s, base, ws, n) ==> e.at < base + n
  {
    if n > 0 { SelectedAscends(s, base, ws, n - 1); }
  }

  lemma {:induction false} ExpectedAscends(s: Scope, from: SeqNo, commits: seq<Log>)
    ensures Ascends(from, from + |Ops(commits)|, Expected(s, from, commits))
  {
    if commits != [] {
      var before, last := commits[..|commits| - 1], commits[|commits| - 1];
      ExpectedAscends(s, from, before);
      SelectedAscends(s, from + |Ops(before)| + 1, last, |last|);
    }
  }

  datatype Event = Batch(entries: seq<Entry>) | Lagged | Timeout

  function Weight(weigh: Entry -> nat, es: seq<Entry>): nat {
    if es == [] then 0 else Weight(weigh, es[..|es| - 1]) + weigh(es[|es| - 1])
  }

  class Subscription {
    const scope: Scope
    const start: SeqNo
    const maxBytes: nat
    const weigh: Entry -> nat
    var queue: seq<Entry>
    var bytes: nat
    var dropped: bool
    var pinned: SeqNo
    /** Every commit published since the subscription opened, and how many of them were delivered. */
    ghost var offered: seq<Log>
    ghost var served: nat
    ghost var delivered: seq<Entry>

    ghost predicate Valid()
      reads this
    {
      served <= |offered| && delivered == Expected(scope, start, offered[..served]) &&
      (if dropped then queue == [] else delivered + queue == Expected(scope, start, offered)) &&
      bytes == Weight(weigh, queue) && bytes <= maxBytes &&
      pinned == if delivered == [] then start else delivered[|delivered| - 1].at
    }

    /** Opened under the write lock, so no commit falls between the seqno read and the install. */
    constructor (s: Scope, visible: SeqNo, cap: nat, w: Entry -> nat)
      ensures Valid() && scope == s && start == visible && pinned == visible && offered == [] && !dropped
      ensures maxBytes == cap && weigh == w && delivered == []
    {
      scope, start, maxBytes, weigh := s, visible, cap, w;
      queue, bytes, dropped, pinned := [], 0, false, visible;
      offered, served, delivered := [], 0, [];
    }

    /** The publisher's half: queue a commit's in-range ops, or cut the subscriber loose. */
    method Offer(base: SeqNo, ws: Log)
      requires Valid() && !dropped && base == start + |Ops(offered)| + 1
      modifies this
      ensures Valid() && offered == old(offered) + [ws]
      ensures delivered == old(delivered) && served == old(served) && pinned == old(pinned)
      ensures dropped <==> Weight(weigh, old(queue) + Selected(scope, base, ws, |ws|)) > maxBytes
      ensures queue == if dropped then [] else old(queue) + Selected(scope, base, ws, |ws|)
    {
      hide Expected, Ops;
      OfferedMore(scope, start, offered, ws, served);
      var i := 0;
      while i < |ws|
        invariant 0 <= i <= |ws|
        invariant queue == old(queue) + Selected(scope, base, ws, i) && bytes == Weight(weigh, queue)
        modifies this`queue, this`bytes
      {
        if Covers(scope, ws[i].key) {
          var e := Entry(ws[i].key, base + i, base + |ws| - 1, ws[i].op);
          assert (queue + [e])[..|queue|] == queue;
          assert queue + [e] == old(queue) + Selected(scope, base, ws, i + 1);
          bytes := bytes + weigh(e);
          queue := queue + [e];
        }
        i := i + 1;
      }
      Assoc(delivered, old(queue), Selected(scope, base, ws, |ws|));
      offered := offered + [ws];
      if bytes > maxBytes {
        queue, bytes, dropped := [], 0, true;
      }
    }

    /** The consumer's half: everything queued, in one piece; then the pin moves up. */
    method Receive() returns (e: Event)
      requires Valid()
      modifies this
      ensures Valid() && offered == old(offered) && dropped == old(dropped)
      ensures e.Lagged? <==> old(dropped)
      ensures e.Timeout? <==> !old(dropped) && old(queue) == []
      ensures e.Batch? ==> e.entries == old(queue) && e.entries != [] && delivered == old(delivered) + e.entries
      ensures e.Batch? ==> served == |offered| && queue == [] && pinned == e.entries[|e.entries| - 1].at
      ensures !e.Batch? ==> delivered == old(delivered) && served == old(served) && pinned == old(pinned)
      ensures old(pinned) <= pinned
    {
      if dropped { return Lagged; }
      hide Expected, Ops, Covers, Selected;
      var raws := queue;
      queue, bytes := [], 0;
      if raws == [] { return Timeout; }
      ExpectedAscends(scope, start, offered);
      assert offered[..|offered|] == offered;
      assert raws[|raws| - 1] == (delivered + raws)[|delivered| + |raws| - 1];
      assert delivered != [] ==> delivered[|delivered| - 1] == (delivered + raws)[|delivered| - 1];
      delivered, served := delivered + raws, |offered|;
      pinned := raws[|raws| - 1].at;
      return Batch(raws);
    }
  }

  lemma OfferedMore(s: Scope, from: SeqNo, commits: seq<Log>, ws: Log, served: nat)
    requires served <= |commits|
    ensures Expected(s, from, commits + [ws]) ==
      Expected(s, from, commits) + Selected(s, from + |Ops(commits)| + 1, ws, |ws|)
    ensures (commits + [ws])[..served] == commits[..served]
  {
    assert (commits + [ws])[..|commits|] == commits;
  }

  /** The pin sits below every queued entry, so while it is registered the retained bound is below
      them too and their values cannot be collected (GarbageCollection.RecentOpsResolve). */
  lemma QueuedAbovePin(sub: Subscription)
    requires sub.Valid()
    ensures forall e :: e in sub.queue ==> sub.pinned < e.at
  {
    ExpectedAscends(sub.scope, sub.start, sub.offered);
    if !sub.dropped {
      var all := sub.delivered + sub.queue;
      forall i | 0 <= i < |sub.queue| ensures sub.pinned < sub.queue[i].at {
        assert sub.queue[i] == all[|sub.delivered| + i];
        assert sub.delivered != [] ==> sub.delivered[|sub.delivered| - 1] == all[|sub.delivered| - 1];
      }
    }
  }

  /** What a subscription has delivered, at any moment of its life, is the gap-free in-range part of
      the history from its start to the end of a whole commit. */
  lemma DeliveredIsFeed(sub: Subscription, h: Log)
    requires sub.Valid() && sub.start + |Ops(sub.offered)| <= |h|
    requires h[sub.start..sub.start + |Ops(sub.offered)|] == Ops(sub.offered)
    ensures var to := sub.start + |Ops(sub.offered[..sub.served])|;
      to <= |h| && IsFeed(sub.scope, h, sub.start, to, sub.delivered)
  {
    var n := |Ops(sub.offered[..sub.served])|;
    OpsPrefix(sub.offered, sub.served);
    assert Ops(sub.offered)[..n] == h[sub.start..sub.start + |Ops(sub.offered)|][..n] == h[sub.start..sub.start + n];
    ExpectedIsFeed(sub.scope, h, sub.start, sub.offered[..sub.served]);
  }

  lemma {:induction false} OpsPrefix(commits: seq<Log>, m: nat)
    requires m <= |commits|
    ensures Ops(commits[..m]) <= Ops(commits)
  {
    if m < |commits| {
      OpsPrefix(commits[..|commits| - 1], m);
      assert commits[..|commits| - 1][..m] == commits[..m];
    } else {
      assert commits[..m] == commits;
    }
  }
}
