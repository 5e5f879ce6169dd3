/** A changes-mode trigger over a whole run: captures, drains, conflicts, retries, sweeps, crashes.
 *
 * A run is a list of commits, so a crash is the loss of its tail.  One life of a trigger starts
 * when its definition enters the registry, after `since` commits, on whatever its queue held then
 * and with whatever the runner was doing for an earlier trigger of the same name.
 */
module TriggerFeed {
  import opened Sequences
  import opened Keys
  import opened Types
  import opened Coding
  import opened GroupCommit
  import opened TriggerCodec
  import opened TriggerQueue

  datatype Commit =
    | Write(ops: seq<BatchOp>, capture: bool, defs: seq<Def>)
    | Relocated(op: BatchOp)
    | Drained(own: bool, gone: seq<Change>, changes: seq<Change>, snap: nat, effects: seq<BatchOp>)
    | Swept(gone: seq<Change>, changes: seq<Change>)

  /** What a module writes, given its input and the ops its snapshot sees. */
  type Guest = (Bytes, seq<BatchOp>) -> seq<BatchOp>

  /** `stale`: what the queue held when the life began.  `former` is the module of an earlier trigger of the
      name, and `gone` what of a chunk read before this life began has been cleared from the queue. */
  datatype Life = Life(def: Def, cap: nat, batch: nat, maxInput: nat, guest: Guest, since: nat, stale: seq<Change>,
                       former: Guest, gone: seq<Change>)

  /** The one runner thread.  `Residue`: it looked the name up before this life began, found no trigger, and
      has yet to read what it takes for residue; `Clearing`: it has read it and has yet to delete it.
      `Former`: it found an earlier trigger of the name and has yet to read the queue for it.  A chunk
      is drained for this life's trigger, its `own`, or for the earlier one; `gone` comes before it and
      is no longer in the queue. */
  datatype Runner =
    | Idle
    | Residue
    | Former
    | Clearing(gone: seq<Change>, chunk: seq<Change>)
    | Ready(own: bool, gone: seq<Change>, chunk: seq<Change>)
    | Running(own: bool, gone: seq<Change>, chunk: seq<Change>, snap: nat)

  datatype State = State(commits: seq<Commit>, runner: Runner)

  const SWEEP_BATCH := 512

  function Deletes(name: Bytes, cs: seq<Change>): seq<BatchOp> {
    seq(|cs|, i requires 0 <= i < |cs| => DeleteOp(ChangeKey(name, cs[i].at)))
  }

  /** The ops a commit puts in the store, its first at seqno `base`. */
  function OpsOf(life: Life, c: Commit, base: SeqNo): seq<BatchOp> {
    match c
    case Write(ops, capture, defs) => ops + if capture then CaptureOps(defs, ops, base, life.cap) else []
    case Relocated(op) => [op]
    case Drained(_, gone, changes, _, effects) => Deletes(life.def.name, gone + changes) + effects
    case Swept(gone, changes) => Deletes(life.def.name, gone + changes)
  }

  /** All committed ops: the one at index i has seqno i + 1. */
  function Store(life: Life, commits: seq<Commit>): seq<BatchOp> {
    if commits == [] then []
    else
      var before := Store(life, commits[..|commits| - 1]);
      before + OpsOf(life, commits[|commits| - 1], |before| + 1)
  }

  function Queue(life: Life, commits: seq<Commit>): map<Bytes, Bytes> {
    Live(life.def.name, map[], Store(life, commits))
  }

  // ---------------------------------------------------------------- what a life has seen

  /** What a commit adds to the feed, and what it takes off the queue. */
  function Fed(life: Life, c: Commit, base: SeqNo): seq<Change> {
    if c.Write? && c.capture then Matching(life.def, c.ops, base, life.cap) else []
  }

  function Taken(c: Commit): seq<Change> {
    if c.Drained? || c.Swept? then c.changes else []
  }

  /** The matching ops of the commits made in this life: what must be delivered, in commit order. */
  function Feed(life: Life, commits: seq<Commit>): seq<Change> {
    if |commits| <= life.since then []
    else
      var pre, last := commits[..|commits| - 1], commits[|commits| - 1];
      Feed(life, pre) + Fed(life, last, |Store(life, pre)| + 1)
  }

  function All(life: Life, commits: seq<Commit>): seq<Change> {
    life.stale + Feed(life, commits)
  }

  /** A change handed to a module: this trigger's own, or an earlier one's. */
  datatype Delivery = Delivery(own: bool, change: Change)

  function Handing(own: bool, cs: seq<Change>): seq<Delivery> {
    seq(|cs|, i requires 0 <= i < |cs| => Delivery(own, cs[i]))
  }

  /** What drains have delivered, and to whom; what they took off the queue; and what an earlier trigger's
      module was handed. */
  function Delivered(life: Life, commits: seq<Commit>): seq<Delivery> {
    if |commits| <= life.since then []
    else
      var last := commits[|commits| - 1];
      Delivered(life, commits[..|commits| - 1]) +
      if last.Drained? then Handing(last.own, last.gone + last.changes) else []
  }

  function Handed(life: Life, commits: seq<Commit>): seq<Change> {
    if |commits| <= life.since then []
    else
      var last := commits[|commits| - 1];
      Handed(life, commits[..|commits| - 1]) + if last.Drained? then last.changes else []
  }

  function Foreign(life: Life, commits: seq<Commit>): seq<Change> {
    if |commits| <= life.since then []
    else
      var last := commits[|commits| - 1];
      Foreign(life, commits[..|commits| - 1]) + if last.Drained? && !last.own then last.gone + last.changes else []
  }

  /** The changes that a sweep has thrown away. */
  function Lost(life: Life, commits: seq<Commit>): seq<Change> {
    if |commits| <= life.since then []
    else
      var last := commits[|commits| - 1];
      Lost(life, commits[..|commits| - 1]) + if last.Swept? then last.changes else []
  }

  /** What left the queue either way, in that order. */
  function Removed(life: Life, commits: seq<Commit>): seq<Change> {
    if |commits| <= life.since then []
    else
      Removed(life, commits[..|commits| - 1]) + Taken(commits[|commits| - 1])
  }

  function Pending(life: Life, commits: seq<Commit>): seq<Change>
    requires |Removed(life, commits)| <= |All(life, commits)|
  {
    All(life, commits)[|Removed(life, commits)|..]
  }

  // ---------------------------------------------------------------- the queue follows the history

  /** The queue is the part of the feed that has not left it. */
  predicate Good(life: Life, commits: seq<Commit>) {
    Removed(life, commits) <= All(life, commits) &&
    Rising(life.gone + All(life, commits), |Store(life, commits)|) &&
    QueueIs(life.def.name, Queue(life, commits), Pending(life, commits))
  }

  predicate Elsewhere(life: Life, ops: seq<BatchOp>) {
    forall op :: op in ops ==> !InQueue(life.def.name, op.key)
  }

  /** Only a chunk read for an earlier trigger can have a part that is no longer in the queue. */
  predicate OldPart(life: Life, own: bool, gone: seq<Change>) {
    gone == [] || (!own && gone == life.gone)
  }

  /** What may be committed next, by anyone. */
  predicate MayCommit(life: Life, commits: seq<Commit>, c: Commit)
    requires |Removed(life, commits)| <= |All(life, commits)|
  {
    |Store(life, commits)| + |OpsOf(life, c, |Store(life, commits)| + 1)| < MAX_SEQNO &&
    match c
    case Write(ops, capture, defs) => Active(defs, life.def) && Elsewhere(life, ops) && KeysFit(ops)
    case Relocated(op) =>
      InQueue(life.def.name, op.key) ==>
        op.key in Queue(life, commits) && op == PutOp(op.key, Queue(life, commits)[op.key])
    case Drained(own, gone, changes, _, effects) =>
      OldPart(life, own, gone) && changes <= Pending(life, commits) && Elsewhere(life, effects)
    case Swept(gone, changes) => OldPart(life, false, gone) && changes <= Pending(life, commits)
  }

  lemma StoreSnoc(life: Life, commits: seq<Commit>, c: Commit)
    ensures var made := OpsOf(life, c, |Store(life, commits)| + 1);
      Store(life, commits + [c]) == Store(life, commits) + made &&
      Queue(life, commits + [c]) == Live(life.def.name, Queue(life, commits), made)
  {
    hide OpsOf, Live;
    assert (commits + [c])[..|commits|] == commits;
    LiveConcat(life.def.name, map[], Store(life, commits), OpsOf(life, c, |Store(life, commits)| + 1));
  }

  lemma FeedSnoc(life: Life, commits: seq<Commit>, c: Commit)
    requires life.since <= |commits|
    ensures Feed(life, commits + [c]) == Feed(life, commits) + Fed(life, c, |Store(life, commits)| + 1)
    ensures All(life, commits + [c]) == All(life, commits) + Fed(life, c, |Store(life, commits)| + 1)
    ensures Removed(life, commits + [c]) == Removed(life, commits) + Taken(c)
    ensures Delivered(life, commits + [c]) ==
      Delivered(life, commits) + if c.Drained? then Handing(c.own, c.gone + c.changes) else []
    ensures Handed(life, commits + [c]) == Handed(life, commits) + if c.Drained? then c.changes else []
    ensures Foreign(life, commits + [c]) ==
      Foreign(life, commits) + if c.Drained? && !c.own then c.gone + c.changes else []
    ensures Lost(life, commits + [c]) == Lost(life, commits) + if c.Swept? then c.changes else []
  {
    hide Store, Fed, Taken, Handing;
    assert (commits + [c])[..|commits|] == commits;
    Assoc(life.stale, Feed(life, commits), Fed(life, c, |Store(life, commits)| + 1));
  }

  lemma {:induction false} DrainQueue(name: Bytes, q: map<Bytes, Bytes>, cs: seq<Change>, to: SeqNo, n: nat)
    requires n <= |cs| && QueueIs(name, q, cs) && Rising(cs, to)
    ensures QueueIs(name, Live(name, q, Deletes(name, cs[..n])), cs[n..])
  {
    hide QueueIs, ChangeKey, InQueue, Live, Rising;
    if n == 0 {
      assert Deletes(name, cs[..0]) == [] && cs[0..] == cs;
      NothingLive(name, q);
    } else {
      DrainQueue(name, q, cs, to, n - 1);
      var pre, k := Deletes(name, cs[..n - 1]), ChangeKey(name, cs[n - 1].at);
      assert Deletes(name, cs[..n]) == pre + [DeleteOp(k)];
      LiveSnoc(name, q, pre, DeleteOp(k));
      ChangeKeysAreOurs(name, cs[n - 1].at);
      RisingTail(cs, to, n - 1);
      Dequeued(name, Live(name, q, pre), cs[n - 1..], to);
      assert cs[n - 1..][1..] == cs[n..];
    }
  }

  lemma RisingTail(cs: seq<Change>, to: SeqNo, n: nat)
    requires n <= |cs| && Rising(cs, to)
    ensures Rising(cs[n..], to)
  {
  }

  /** What is risen so far, without what the queue no longer held when the life began. */
  lemma AllRises(life: Life, commits: seq<Commit>)
    requires Rising(life.gone + All(life, commits), |Store(life, commits)|)
    ensures Rising(All(life, commits), |Store(life, commits)|)
  {
    hide Rising, All, Store;
    var all := life.gone + All(life, commits);
    RisingTail(all, |Store(life, commits)|, |life.gone|);
    assert all[|life.gone|..] == All(life, commits);
  }

  lemma {:induction false} LiveWithout(name: Bytes, q: map<Bytes, Bytes>, ops: seq<BatchOp>)
    requires forall op :: op in ops ==> op.DeleteOp? && op.key !in q
    ensures Live(name, q, ops) == q
  {
    if ops != [] { LiveWithout(name, q, ops[..|ops| - 1]); }
  }

  /** Deleting entries that are no longer there changes nothing. */
  lemma GoneAlready(name: Bytes, q: map<Bytes, Bytes>, gone: seq<Change>, cs: seq<Change>, to: SeqNo)
    requires QueueIs(name, q, cs) && Rising(gone + cs, to)
    ensures Live(name, q, Deletes(name, gone)) == q
  {
    hide ChangeKey, EncodeRecord, Pow2, Live;
    var all, ds := gone + cs, Deletes(name, gone);
    forall op | op in ds ensures op.DeleteOp? && op.key !in q {
      var i :| 0 <= i < |ds| && ds[i] == op;
      if op.key in q {
        assert HasKey(name, cs, op.key);
        var j :| 0 <= j < |cs| && ChangeKey(name, cs[j].at) == op.key;
        assert all[i] == gone[i] && all[|gone| + j] == cs[j] && Within(all[i], to) && Within(all[|gone| + j], to);
        ChangeKeysInOrder(name, gone[i].at, cs[j].at);
      }
    }
    LiveWithout(name, q, ds);
  }

  lemma DeletesApart(name: Bytes, a: seq<Change>, b: seq<Change>)
    ensures Deletes(name, a + b) == Deletes(name, a) + Deletes(name, b)
  {
    hide ChangeKey;
  }

  lemma ChangeKeysAreOurs(name: Bytes, at: SeqNo)
    ensures InQueue(name, ChangeKey(name, at))
  {
    QueueRangeIsPrefix(name, ChangeKey(name, at));
  }

  lemma TailGrows<T>(a: seq<T>, more: seq<T>, n: nat)
    requires n <= |a|
    ensures (a + more)[n..] == a[n..] + more && (a + more)[..n] == a[..n] && a + [] == a
  {
  }

  lemma WriteIsGood(life: Life, commits: seq<Commit>, c: Commit)
    requires Good(life, commits) && MayCommit(life, commits, c) && c.Write? && life.since <= |commits|
    ensures Good(life, commits + [c])
  {
    hide MayCommit, Rising, QueueIs, Feed, All, Removed, Store, Queue, Fed;
    FeedSnoc(life, commits, c);
    var s, all, n := Store(life, commits), All(life, commits), |Removed(life, commits)|;
    TailGrows(all, Fed(life, c, |s| + 1), n);
    TailGrows(Removed(life, commits), [], n);
    WrittenQueue(life, commits, c);
    WrittenRises(life, commits, c);
    Assoc(life.gone, all, Fed(life, c, |s| + 1));
  }

  /** A write appends what it matches to the queue. */
  lemma WrittenQueue(life: Life, commits: seq<Commit>, c: Commit)
    requires Good(life, commits) && MayCommit(life, commits, c) && c.Write? && life.since <= |commits|
    ensures QueueIs(life.def.name, Queue(life, commits + [c]),
                    Pending(life, commits) + Fed(life, c, |Store(life, commits)| + 1))
  {
    hide Active, Rising, QueueIs, Live, CaptureOps, Matching, InQueue, Feed, All, Removed, Store, Queue;
    StoreSnoc(life, commits, c);
    var s, cs := Store(life, commits), Pending(life, commits);
    SmallSeqnos();
    if c.capture {
      AllRises(life, commits);
      RisingTail(All(life, commits), |s|, |Removed(life, commits)|);
      CaptureEnqueues(c.defs, life.def, c.ops, |s| + 1, life.cap, Queue(life, commits), cs);
    } else {
      assert c.ops + [] == c.ops;
      TailGrows(cs, [], 0);
      LiveElsewhere(life.def.name, Queue(life, commits), c.ops);
    }
  }

  lemma WrittenRises(life: Life, commits: seq<Commit>, c: Commit)
    requires Good(life, commits) && MayCommit(life, commits, c) && c.Write? && life.since <= |commits|
    ensures Rising((life.gone + All(life, commits)) + Fed(life, c, |Store(life, commits)| + 1),
                   |Store(life, commits + [c])|)
  {
    hide Active, Rising, QueueIs, Live, CaptureOps, Matching, InQueue, Feed, All, Removed, Store, Queue;
    StoreSnoc(life, commits, c);
    var s, all := Store(life, commits), life.gone + All(life, commits);
    SmallSeqnos();
    if c.capture {
      FeedRises(life.def, all, |s|, c.ops, life.cap, |Store(life, commits + [c])|);
    } else {
      TailGrows(all, [], 0);
      RisingFurther(all, |s|, |Store(life, commits + [c])|);
    }
  }

  lemma SmallSeqnos()
    ensures MAX_SEQNO < Pow2(64)
  {
    hide Pow2;
    Pow32();
    PowSplit(32);
    PowSplit(40);
    PowSplit(48);
    PowSplit(56);
  }

  lemma RisingFurther(cs: seq<Change>, to: SeqNo, later: SeqNo)
    requires Rising(cs, to) && to <= later < Pow2(64)
    ensures Rising(cs, later)
  {
    hide Pow2;
  }

  lemma FeedRises(d: Def, all: seq<Change>, visible: SeqNo, ops: seq<BatchOp>, cap: nat, to: SeqNo)
    requires Rising(all, visible) && visible + |ops| <= to < Pow2(64) && KeysFit(ops)
    ensures Rising(all + Matching(d, ops, visible + 1, cap), to)
  {
    hide Pow2, Matching;
    var more := Matching(d, ops, visible + 1, cap);
    MatchingRises(d, ops, visible + 1, cap);
    assert forall i :: 0 <= i < |more| ==> more[i] in more;
  }

  lemma OthersAreGood(life: Life, commits: seq<Commit>, c: Commit)
    requires Good(life, commits) && MayCommit(life, commits, c) && !c.Write? && life.since <= |commits|
    ensures Good(life, commits + [c])
  {
    hide Rising, QueueIs, Live, InQueue, Deletes, Feed, All, Removed, Store, Queue;
    StoreSnoc(life, commits, c);
    FeedSnoc(life, commits, c);
    var name, s, all, q := life.def.name, Store(life, commits), All(life, commits), Queue(life, commits);
    var gone := Removed(life, commits);
    TailGrows(all, [], |gone|);
    TailGrows(gone, [], 0);
    SmallSeqnos();
    RisingFurther(life.gone + all, |s|, |Store(life, commits + [c])|);
    if c.Relocated? {
      Rewritten(name, q, c.op);
    } else {
      TakeFrom(all, gone, c.changes);
      DeletedFrom(life, commits, c);
      if c.Drained? {
        LiveConcat(name, q, Deletes(name, c.gone + c.changes), c.effects);
        LiveElsewhere(name, Live(name, q, Deletes(name, c.gone + c.changes)), c.effects);
      }
    }
  }

  /** What a drain or a sweep leaves of the queue. */
  lemma DeletedFrom(life: Life, commits: seq<Commit>, c: Commit)
    requires Good(life, commits) && MayCommit(life, commits, c) && (c.Drained? || c.Swept?)
    ensures var name := life.def.name;
      QueueIs(name, Live(name, Queue(life, commits), Deletes(name, c.gone + c.changes)),
              Pending(life, commits)[|c.changes|..])
  {
    hide Rising, QueueIs, Live, Deletes, All, Removed, Store, Queue;
    var name, s, all, q := life.def.name, Store(life, commits), All(life, commits), Queue(life, commits);
    var cs, n := Pending(life, commits), |c.changes|;
    AllRises(life, commits);
    RisingTail(all, |s|, |Removed(life, commits)|);
    assert cs[..n] == c.changes;
    if c.gone == [] {
      assert c.gone + c.changes == c.changes;
    } else {
      RisingAround(life.gone, all, |Removed(life, commits)|, |s|);
      GoneAlready(name, q, c.gone, cs, |s|);
      DeletesApart(name, c.gone, c.changes);
      LiveConcat(name, q, Deletes(name, c.gone), Deletes(name, c.changes));
    }
    DrainQueue(name, q, cs, |s|, n);
  }

  lemma RisingAround(gone: seq<Change>, all: seq<Change>, n: nat, to: SeqNo)
    requires n <= |all| && Rising(gone + all, to)
    ensures Rising(gone + all[n..], to)
  {
    hide Pow2, Within;
    var a, b := gone + all, gone + all[n..];
    forall i, j | 0 <= i < j < |b| ensures b[i].at < b[j].at {
      assert b[i] == a[if i < |gone| then i else i + n] && b[j] == a[if j < |gone| then j else j + n];
    }
    forall i | 0 <= i < |b| ensures Within(b[i], to) {
      assert b[i] == a[if i < |gone| then i else i + n];
    }
  }

  lemma TakeFrom<T>(all: seq<T>, gone: seq<T>, more: seq<T>)
    requires gone <= all && more <= all[|gone|..]
    ensures gone + more <= all && all[|gone + more|..] == all[|gone|..][|more|..] && all[|gone|..][..|more|] == more
  {
    var cs := all[|gone|..];
    assert cs[..|more|] == more && all == gone + cs;
    assert all[..|gone| + |more|] == gone + cs[..|more|];
  }

  /** Moving a live entry's value changes where it is stored, not the queue. */
  lemma Rewritten(name: Bytes, q: map<Bytes, Bytes>, op: BatchOp)
    requires InQueue(name, op.key) ==> op.key in q && op == PutOp(op.key, q[op.key])
    ensures Live(name, q, [op]) == q
  {
    hide InQueue;
    NothingLive(name, q);
    LiveSnoc(name, q, [], op);
    assert [] + [op] == [op];
  }

  // ---------------------------------------------------------------- iterating the queue

  /** What an iterator over the queue's range yields: every live entry once, in key order. */
  predicate Iterates(q: map<Bytes, Bytes>, items: seq<Item>) {
    Ascending(KeysIn(items)) && (forall k :: k in q ==> k in KeysIn(items)) &&
    forall i :: 0 <= i < |items| ==> items[i].key in q && items[i].record == q[items[i].key]
  }

  function PrefixLength(life: Life): nat {
    |QueuePrefix(life.def.name)|
  }

  function ChangeKeys(name: Bytes, cs: seq<Change>): seq<Bytes> {
    seq(|cs|, i requires 0 <= i < |cs| => ChangeKey(name, cs[i].at))
  }

  /** The runner reads its queue in commit order. */
  lemma IteratedInOrder(name: Bytes, q: map<Bytes, Bytes>, cs: seq<Change>, to: SeqNo, items: seq<Item>)
    requires QueueIs(name, q, cs) && Rising(cs, to) && Iterates(q, items)
    ensures |items| == |cs| && forall i :: 0 <= i < |cs| ==>
      items[i] == Item(ChangeKey(name, cs[i].at), EncodeRecord(cs[i]))
  {
    hide ChangeKey, EncodeRecord, Before, Pow2;
    var ks, ours := KeysIn(items), ChangeKeys(name, cs);
    forall i, j | 0 <= i < j < |ours| ensures Before(ours[i], ours[j]) {
      assert Within(cs[i], to) && Within(cs[j], to);
      ChangeKeysInOrder(name, cs[i].at, cs[j].at);
    }
    forall k | k in ks ensures k in ours {
      var i :| 0 <= i < |ks| && ks[i] == k;
      assert items[i].key in q && HasKey(name, cs, k);
      var j :| 0 <= j < |cs| && ChangeKey(name, cs[j].at) == k;
      assert ours[j] == k;
    }
    forall k | k in ours ensures k in ks {
      var j :| 0 <= j < |ours| && ours[j] == k;
      assert Listed(name, q, cs[j]);
    }
    OneAscendingList(ks, ours);
    forall i | 0 <= i < |cs| ensures items[i] == Item(ChangeKey(name, cs[i].at), EncodeRecord(cs[i])) {
      assert Listed(name, q, cs[i]) && ks[i] == ours[i] && ks[i] == items[i].key;
    }
  }

  lemma ReadBack(name: Bytes, c: Change, to: SeqNo)
    requires Within(c, to) && to < Pow2(64)
    ensures var item, prefix := Item(ChangeKey(name, c.at), EncodeRecord(c)), |QueuePrefix(name)|;
      Readable(prefix, item) && ChangeIn(prefix, item) == c
  {
    hide EncodeRecord, DecodeRecord, QueuePrefix, BigEndian, FromBigEndian, Pow2;
    RecordRoundTrip(c);
    BigEndianRoundTrip(c.at, 8);
    assert ChangeKey(name, c.at)[|QueuePrefix(name)|..] == BigEndian(c.at, 8);
  }

  lemma LastRises(cs: seq<Change>, to: SeqNo, i: nat)
    requires Rising(cs, to) && i < |cs|
    ensures Within(cs[i], to) && to < Pow2(64)
  {
  }

  /** The changes packed from the first `n` entries are the oldest pending ones. */
  lemma {:induction false} IteratedChanges(name: Bytes, q: map<Bytes, Bytes>, cs: seq<Change>, to: SeqNo,
                                           items: seq<Item>, n: nat)
    requires QueueIs(name, q, cs) && Rising(cs, to) && Iterates(q, items) && n <= |items|
    ensures n <= |cs| && forall item :: item in items[..n] ==> Readable(|QueuePrefix(name)|, item)
    ensures ChangesIn(|QueuePrefix(name)|, items[..n]) == cs[..n]
  {
    hide QueueIs, Iterates, Readable, ChangeIn, ChangeKey, EncodeRecord, Pow2, QueuePrefix;
    IteratedInOrder(name, q, cs, to, items);
    if n == 0 {
      NothingPacked(|QueuePrefix(name)|, items);
    } else {
      IteratedChanges(name, q, cs, to, items, n - 1);
      hide Rising, Within;
      LastRises(cs, to, n - 1);
      ReadBack(name, cs[n - 1], to);
      assert forall item :: item in items[..n] ==> item in items[..n - 1] || item == items[n - 1];
      OneMore(|QueuePrefix(name)|, items, n - 1);
    }
  }

  // ---------------------------------------------------------------- the run

  datatype Event =
    | Publish(commit: Commit)
    | Pack(items: seq<Item>, n: nat)
    | Begin
    | Conflict
    | Finish
    | GiveUp
    | Collect(items: seq<Item>, n: nat)
    | Clear
    | Crash(left: nat)

  /** The first `n` entries make an input: what PackChanges returns when it packs anything. */
  predicate Packs(life: Life, items: seq<Item>, n: nat) {
    0 < n <= |items| && n <= life.batch && (forall item :: item in items[..n] ==> Readable(PrefixLength(life), item)) &&
    |TriggerCodec.Pack(ChangesIn(PrefixLength(life), items[..n]))| <= life.maxInput
  }

  predicate Packed(r: Runner) {
    r.Ready? || r.Running?
  }

  function Module(life: Life, own: bool): Guest {
    if own then life.guest else life.former
  }

  /** What a drain that commits now writes: its chunk, and the module's effects of it. */
  function DrainOf(life: Life, st: State): Commit
    requires st.runner.Running? && st.runner.snap <= |Store(life, st.commits)|
  {
    var r := st.runner;
    Drained(r.own, r.gone, r.chunk, r.snap,
            Module(life, r.own)(TriggerCodec.Pack(r.gone + r.chunk), Store(life, st.commits)[..r.snap]))
  }

  function SweepOf(r: Runner): Commit
    requires r.Clearing?
  {
    Swept(r.gone, r.chunk)
  }

  /** No op after the snapshot wrote any of these entries: what the commit validates. */
  predicate Untouched(name: Bytes, ops: seq<BatchOp>, snap: nat, cs: seq<Change>) {
    forall i :: snap <= i < |ops| ==> ops[i].key !in ChangeKeys(name, cs)
  }

  predicate Enabled(life: Life, st: State, e: Event)
    requires Inv(life, st)
  {
    match e
    case Publish(c) => (c.Write? || c.Relocated?) && MayCommit(life, st.commits, c)
    case Pack(items, n) =>
      (st.runner.Idle? || st.runner.Former?) && Iterates(Queue(life, st.commits), items) && Packs(life, items, n)
    case Begin => st.runner.Ready?
    case Conflict => st.runner.Running?
    case Finish =>
      st.runner.Running? && MayCommit(life, st.commits, DrainOf(life, st)) &&
      Untouched(life.def.name, Store(life, st.commits), st.runner.snap, st.runner.gone + st.runner.chunk)
    case GiveUp => !st.runner.Idle?
    case Collect(items, n) =>
      st.runner.Residue? && Iterates(Queue(life, st.commits), items) &&
      n == (if |items| <= SWEEP_BATCH then |items| else SWEEP_BATCH) &&
      (forall item :: item in items[..n] ==> Readable(PrefixLength(life), item))
    case Clear => st.runner.Clearing? && MayCommit(life, st.commits, SweepOf(st.runner))
    case Crash(left) => life.since <= left <= |st.commits|
  }

  function Next(life: Life, st: State, e: Event): State
    requires Inv(life, st) && Enabled(life, st, e)
  {
    match e
    case Publish(c) => st.(commits := st.commits + [c])
    case Pack(items, n) => st.(runner := Ready(st.runner.Idle?, [], ChangesIn(PrefixLength(life), items[..n])))
    case Begin => st.(runner := Running(st.runner.own, st.runner.gone, st.runner.chunk, |Store(life, st.commits)|))
    case Conflict => st.(runner := Ready(st.runner.own, st.runner.gone, st.runner.chunk))
    case Finish => State(st.commits + [DrainOf(life, st)], Idle)
    case GiveUp => st.(runner := Idle)
    case Collect(items, n) =>
      st.(runner := if n == 0 then Idle else Clearing([], ChangesIn(PrefixLength(life), items[..n])))
    case Clear => State(st.commits + [SweepOf(st.runner)], Idle)
    case Crash(left) => State(st.commits[..left], Idle)
  }

  predicate GoodAt(life: Life, commits: seq<Commit>, n: nat)
    requires n <= |commits|
  {
    Good(life, commits[..n])
  }

  /** A drain took a chunk, wrote what its module makes of it, and committed before anything else
      wrote those entries. */
  predicate DrainAt(life: Life, commits: seq<Commit>, i: nat)
    requires i < |commits|
  {
    var c, before := commits[i], Store(life, commits[..i]);
    c.Drained? ==>
      OldPart(life, c.own, c.gone) &&
      c.gone + c.changes != [] && |TriggerCodec.Pack(c.gone + c.changes)| <= life.maxInput && c.snap <= |before| &&
      c.effects == Module(life, c.own)(TriggerCodec.Pack(c.gone + c.changes), before[..c.snap]) &&
      Untouched(life.def.name, before, c.snap, c.gone + c.changes)
  }

  /** A chunk in hand is the head of the queue, behind what of it is gone. */
  predicate RunnerFits(life: Life, st: State)
    requires |Removed(life, st.commits)| <= |All(life, st.commits)|
  {
    var r := st.runner;
    r.Idle? || r.Residue? || r.Former? ||
    (r.chunk <= Pending(life, st.commits) && ChunkFits(life, r) &&
     (r.Running? ==> r.snap <= |Store(life, st.commits)|))
  }

  predicate ChunkFits(life: Life, r: Runner)
    requires r.Clearing? || Packed(r)
  {
    OldPart(life, Packed(r) && r.own, r.gone) &&
    (Packed(r) ==> r.gone + r.chunk != [] && |TriggerCodec.Pack(r.gone + r.chunk)| <= life.maxInput)
  }

  predicate Inv(life: Life, st: State) {
    life.since <= |st.commits| && Good(life, st.commits) && RunnerFits(life, st) &&
    (forall n :: life.since <= n <= |st.commits| ==> GoodAt(life, st.commits, n)) &&
    forall i :: life.since <= i < |st.commits| ==> DrainAt(life, st.commits, i)
  }

  /** A life may begin at any point of the runner's work for an earlier trigger of the name. */
  predicate FromBefore(life: Life, st: State) {
    var r := st.runner;
    r.Idle? || r.Residue? || r.Former? ||
    (r.chunk <= life.stale && ChunkFits(life, r) && (Packed(r) ==> !r.own) &&
     (r.Running? ==> r.snap <= |Store(life, st.commits)|))
  }

  predicate Init(life: Life, st: State) {
    |st.commits| == life.since && FromBefore(life, st) &&
    Rising(life.gone + life.stale, |Store(life, st.commits)|) &&
    QueueIs(life.def.name, Queue(life, st.commits), life.stale)
  }

  lemma InitIsInv(life: Life, st: State)
    requires Init(life, st)
    ensures Inv(life, st)
  {
    hide Rising, QueueIs, Queue, Store, ChunkFits;
    assert life.stale + [] == life.stale && life.stale[0..] == life.stale;
    assert st.commits[..life.since] == st.commits;
  }

  lemma ExtendKeeps(life: Life, st: State, c: Commit, runner: Runner)
    requires Inv(life, st) && Good(life, st.commits + [c])
    requires DrainAt(life, st.commits + [c], |st.commits|)
    requires RunnerFits(life, State(st.commits + [c], runner))
    ensures Inv(life, State(st.commits + [c], runner))
  {
    hide Good, DrainAt, RunnerFits;
    var more := st.commits + [c];
    forall n | life.since <= n <= |more| ensures GoodAt(life, more, n) {
      if n <= |st.commits| {
        assert GoodAt(life, st.commits, n) && more[..n] == st.commits[..n];
      } else {
        assert more[..n] == more;
      }
    }
    forall i | life.since <= i < |more| ensures DrainAt(life, more, i) {
      if i < |st.commits| { SameDrain(life, st.commits, more, i); }
    }
  }

  lemma SameDrain(life: Life, commits: seq<Commit>, more: seq<Commit>, i: nat)
    requires i < |commits| && i < |more| && commits[..i + 1] == more[..i + 1]
    ensures DrainAt(life, commits, i) <==> DrainAt(life, more, i)
  {
    assert commits[i] == commits[..i + 1][i] && more[i] == more[..i + 1][i];
    assert commits[..i] == commits[..i + 1][..i] && more[..i] == more[..i + 1][..i];
  }

  lemma CommitKeeps(life: Life, st: State, e: Event)
    requires Inv(life, st) && Enabled(life, st, e) && e.Publish?
    ensures Inv(life, Next(life, st, e))
  {
    hide Good, MayCommit, Store, All, Removed, Inv;
    GoodHere(life, st);
    if e.commit.Write? { WriteIsGood(life, st.commits, e.commit); } else { OthersAreGood(life, st.commits, e.commit); }
    GoodIsBounded(life, st.commits + [e.commit]);
    ChunkStays(life, st, e.commit);
    LastIsNoDrain(life, st.commits, e.commit);
    ExtendKeeps(life, st, e.commit, st.runner);
  }

  lemma GoodHere(life: Life, st: State)
    requires Inv(life, st)
    ensures life.since <= |st.commits| && Good(life, st.commits) &&
      |Removed(life, st.commits)| <= |All(life, st.commits)|
    ensures RunnerFits(life, st)
  {
  }

  lemma GoodIsBounded(life: Life, commits: seq<Commit>)
    requires Good(life, commits)
    ensures |Removed(life, commits)| <= |All(life, commits)|
  {
  }

  lemma LastIsNoDrain(life: Life, commits: seq<Commit>, c: Commit)
    requires !c.Drained?
    ensures DrainAt(life, commits + [c], |commits|)
  {
  }

  /** Others' commits only add to the end of the queue, so a packed chunk stays its head. */
  lemma ChunkStays(life: Life, st: State, c: Commit)
    requires life.since <= |st.commits| && |Removed(life, st.commits)| <= |All(life, st.commits)| &&
      RunnerFits(life, st)
    requires c.Write? || c.Relocated?
    requires |Removed(life, st.commits + [c])| <= |All(life, st.commits + [c])|
    ensures RunnerFits(life, State(st.commits + [c], st.runner))
  {
    hide Store, All, Removed, Fed, OpsOf, Live, Queue;
    StoreSnoc(life, st.commits, c);
    FeedSnoc(life, st.commits, c);
    var all, gone := All(life, st.commits), Removed(life, st.commits);
    TailGrows(all, Fed(life, c, |Store(life, st.commits)| + 1), |gone|);
    TailGrows(gone, [], 0);
  }

  /** The runner moves on without a commit. */
  lemma RunnerMoves(life: Life, st: State, runner: Runner)
    requires Inv(life, st) && (GoodHere(life, st); RunnerFits(life, st.(runner := runner)))
    ensures Inv(life, st.(runner := runner))
  {
    hide Good, GoodAt, DrainAt, RunnerFits;
  }

  /** What the runner reads from its queue's head are the oldest pending changes. */
  lemma HeadIsRead(life: Life, st: State, items: seq<Item>, n: nat)
    requires Inv(life, st) && Iterates(Queue(life, st.commits), items) && n <= |items|
    ensures forall item :: item in items[..n] ==> Readable(PrefixLength(life), item)
    ensures |Removed(life, st.commits)| <= |All(life, st.commits)|
    ensures n <= |Pending(life, st.commits)| &&
      ChangesIn(PrefixLength(life), items[..n]) == Pending(life, st.commits)[..n]
  {
    hide GoodAt, DrainAt, RunnerFits, Queue, Store, Rising, QueueIs, Iterates, All, Removed, Readable, ChangesIn, Inv;
    GoodHere(life, st);
    AllRises(life, st.commits);
    RisingTail(All(life, st.commits), |Store(life, st.commits)|, |Removed(life, st.commits)|);
    IteratedChanges(life.def.name, Queue(life, st.commits), Pending(life, st.commits), |Store(life, st.commits)|,
      items, n);
  }

  lemma PackKeeps(life: Life, st: State, e: Event)
    requires Inv(life, st) && Enabled(life, st, e) && e.Pack?
    ensures Inv(life, Next(life, st, e))
  {
    hide Good, Inv, Queue, Store, Iterates, All, Removed, Readable, ChangesIn, Pending, TriggerCodec.Pack;
    HeadIsRead(life, st, e.items, e.n);
    GoodHere(life, st);
    var chunk := ChangesIn(PrefixLength(life), e.items[..e.n]);
    assert [] + chunk == chunk && |chunk| == e.n;
    RunnerMoves(life, st, Ready(st.runner.Idle?, [], chunk));
  }

  lemma BeginKeeps(life: Life, st: State, e: Event)
    requires Inv(life, st) && Enabled(life, st, e) && (e.Begin? || e.Conflict?)
    ensures Inv(life, Next(life, st, e))
  {
    hide Good, Inv, Queue, Store, Iterates, All, Removed, Pending, TriggerCodec.Pack;
    GoodHere(life, st);
    RunnerMoves(life, st, Next(life, st, e).runner);
  }

  lemma FinishKeeps(life: Life, st: State, e: Event)
    requires Inv(life, st) && Enabled(life, st, e) && e.Finish?
    ensures Inv(life, Next(life, st, e))
  {
    hide Good, MayCommit, All, Removed, Inv, Queue, Live, OpsOf;
    GoodHere(life, st);
    var c := DrainOf(life, st);
    OthersAreGood(life, st.commits, c);
    GoodIsBounded(life, st.commits + [c]);
    assert (st.commits + [c])[..|st.commits|] == st.commits;
    ExtendKeeps(life, st, c, Idle);
  }

  lemma CollectKeeps(life: Life, st: State, e: Event)
    requires Inv(life, st) && Enabled(life, st, e) && e.Collect?
    ensures Inv(life, Next(life, st, e))
  {
    hide Good, Inv, Queue, Store, Iterates, All, Removed, Readable, ChangesIn, Pending;
    HeadIsRead(life, st, e.items, e.n);
    GoodHere(life, st);
    RunnerMoves(life, st, Next(life, st, e).runner);
  }

  lemma ClearKeeps(life: Life, st: State)
    requires Inv(life, st) && Enabled(life, st, Clear)
    ensures Inv(life, Next(life, st, Clear))
  {
    hide Good, MayCommit, All, Removed, Inv, Queue;
    GoodHere(life, st);
    var c := SweepOf(st.runner);
    OthersAreGood(life, st.commits, c);
    GoodIsBounded(life, st.commits + [c]);
    LastIsNoDrain(life, st.commits, c);
    ExtendKeeps(life, st, c, Idle);
  }

  /** Forgetting the work in hand, with or without losing a tail of the commits. */
  lemma IdleKeeps(life: Life, st: State, st': State)
    requires Inv(life, st) && st'.runner.Idle? && life.since <= |st'.commits| && st'.commits <= st.commits
    ensures Inv(life, st')
  {
    hide Good, DrainAt, RunnerFits;
    var left := |st'.commits|;
    assert GoodAt(life, st.commits, left) && st.commits[..left] == st'.commits;
    GoodIsBounded(life, st'.commits);
    IdleFits(life, st');
    forall n | life.since <= n <= left ensures GoodAt(life, st'.commits, n) {
      assert GoodAt(life, st.commits, n) && st.commits[..left][..n] == st.commits[..n];
    }
    forall i | life.since <= i < left ensures DrainAt(life, st'.commits, i) {
      assert st.commits[..left][..i + 1] == st.commits[..i + 1];
      SameDrain(life, st.commits, st'.commits, i);
    }
  }

  lemma ForgetKeeps(life: Life, st: State, e: Event)
    requires Inv(life, st) && Enabled(life, st, e) && (e.GiveUp? || e.Crash?)
    ensures Inv(life, Next(life, st, e))
  {
    hide Good, Inv, Iterates, Packs, MayCommit;
    GoodHere(life, st);
    IdleKeeps(life, st, Next(life, st, e));
  }

  lemma IdleFits(life: Life, st: State)
    requires st.runner.Idle? && |Removed(life, st.commits)| <= |All(life, st.commits)|
    ensures RunnerFits(life, st)
  {
  }

  lemma NextKeeps(life: Life, st: State, e: Event)
    requires Inv(life, st) && Enabled(life, st, e)
    ensures Inv(life, Next(life, st, e))
  {
    hide Inv, Enabled, Next;
    match e
    case Publish(_) => CommitKeeps(life, st, e);
    case Pack(_, _) => PackKeeps(life, st, e);
    case Begin => BeginKeeps(life, st, e);
    case Conflict => BeginKeeps(life, st, e);
    case Finish => FinishKeeps(life, st, e);
    case GiveUp => ForgetKeeps(life, st, e);
    case Collect(_, _) => CollectKeeps(life, st, e);
    case Clear => ClearKeeps(life, st);
    case Crash(left) => ForgetKeeps(life, st, e);
  }

  ghost predicate Legal(life: Life, st: State, es: seq<Event>)
    requires Inv(life, st)
    decreases |es|
  {
    es == [] || (Enabled(life, st, es[0]) && (NextKeeps(life, st, es[0]); Legal(life, Next(life, st, es[0]), es[1..])))
  }

  ghost function After(life: Life, st: State, es: seq<Event>): (st': State)
    requires Inv(life, st) && Legal(life, st, es)
    ensures Inv(life, st')
    decreases |es|
  {
    if es == [] then st
    else
      NextKeeps(life, st, es[0]);
      After(life, Next(life, st, es[0]), es[1..])
  }

  // ---------------------------------------------------------------- exactly once

  function Drop(cs: seq<Change>, out: seq<Change>): (r: seq<Change>)
    ensures forall c :: c in r <==> c in cs && c !in out
  {
    if cs == [] then []
    else
      var last := cs[|cs| - 1];
      assert cs == cs[..|cs| - 1] + [last];
      Drop(cs[..|cs| - 1], out) + if last in out then [] else [last]
  }

  lemma DropSnoc(cs: seq<Change>, c: Change, out: seq<Change>)
    ensures Drop(cs + [c], out) == Drop(cs, out) + if c in out then [] else [c]
  {
    assert (cs + [c])[..|cs|] == cs;
  }

  lemma {:induction false} DropConcat(a: seq<Change>, b: seq<Change>, out: seq<Change>)
    ensures Drop(a + b, out) == Drop(a, out) + Drop(b, out)
  {
    hide Drop;
    if b == [] {
      NothingDropped(a, out);
    } else {
      var pre, last := b[..|b| - 1], b[|b| - 1];
      DropConcat(a, pre, out);
      DropSnoc(a + pre, last, out);
      DropSnoc(pre, last, out);
      assert pre + [last] == b;
      Assoc(a, pre, [last]);
      Assoc(Drop(a, out), Drop(pre, out), if last in out then [] else [last]);
    }
  }

  lemma NothingDropped(a: seq<Change>, out: seq<Change>)
    ensures a + [] == a && Drop([], out) == [] && Drop(a, out) + [] == Drop(a, out)
  {
  }

  lemma {:induction false} DropNone(cs: seq<Change>, out: seq<Change>)
    requires forall c :: c in cs ==> c !in out
    ensures Drop(cs, out) == cs
  {
    if cs != [] {
      assert cs[|cs| - 1] in cs;
      DropNone(cs[..|cs| - 1], out);
      assert cs == cs[..|cs| - 1] + [cs[|cs| - 1]];
    }
  }

  lemma {:induction false} DropSame(cs: seq<Change>, out: seq<Change>, out': seq<Change>)
    requires forall c :: c in cs ==> (c in out <==> c in out')
    ensures Drop(cs, out) == Drop(cs, out')
  {
    if cs != [] {
      assert cs[|cs| - 1] in cs;
      DropSame(cs[..|cs| - 1], out, out');
    }
  }

  lemma {:induction false} DropAll(cs: seq<Change>, out: seq<Change>)
    requires forall c :: c in cs ==> c in out
    ensures Drop(cs, out) == []
  {
    if cs != [] {
      assert cs[|cs| - 1] in cs;
      DropAll(cs[..|cs| - 1], out);
    }
  }

  predicate Distinct(cs: seq<Change>) {
    forall i, j :: 0 <= i < j < |cs| ==> cs[i] != cs[j]
  }

  lemma PartsApart(a: seq<Change>, b: seq<Change>)
    requires Distinct(a + b)
    ensures Distinct(a) && Distinct(b) && forall c :: c in b ==> c !in a
  {
    assert forall i :: 0 <= i < |a| ==> a[i] == (a + b)[i];
    assert forall j :: 0 <= j < |b| ==> b[j] == (a + b)[|a| + j];
  }

  /** What left the queue was either handed on or lost, in order and never both. */
  lemma {:induction false} LeftOneWay(life: Life, commits: seq<Commit>)
    requires Distinct(Removed(life, commits))
    ensures Handed(life, commits) == Drop(Removed(life, commits), Lost(life, commits))
    ensures Lost(life, commits) == Drop(Removed(life, commits), Handed(life, commits))
  {
    hide Drop;
    if |commits| > life.since {
      var pre, last := commits[..|commits| - 1], commits[|commits| - 1];
      assert commits == pre + [last];
      FeedSnoc(life, pre, last);
      var gone, t := Removed(life, pre), Taken(last);
      PartsApart(gone, t);
      LeftOneWay(life, pre);
      OneWayMore(gone, Handed(life, pre), Lost(life, pre), t,
                 if last.Drained? then t else [], if last.Swept? then t else []);
    } else {
      DropAll([], []);
    }
  }

  lemma OneWayMore(gone: seq<Change>, d: seq<Change>, l: seq<Change>, t: seq<Change>, td: seq<Change>, tl: seq<Change>)
    requires d == Drop(gone, l) && l == Drop(gone, d) && forall c :: c in t ==> c !in gone
    requires (td == t && tl == []) || (td == [] && tl == t)
    ensures d + td == Drop(gone + t, l + tl) && l + tl == Drop(gone + t, d + td)
  {
    if tl == [] {
      assert l + tl == l && d + td == d + t;
      NewOnly(gone, d, l, t);
    } else {
      assert d + td == d && l + tl == l + t;
      NewOnly(gone, l, d, t);
    }
  }

  lemma NewOnly(gone: seq<Change>, d: seq<Change>, l: seq<Change>, t: seq<Change>)
    requires d == Drop(gone, l) && l == Drop(gone, d) && forall c :: c in t ==> c !in gone
    ensures d + t == Drop(gone + t, l) && l == Drop(gone + t, d + t)
  {
    DropConcat(gone, t, l);
    DropConcat(gone, t, d + t);
    DropNone(t, l);
    DropAll(t, d + t);
    DropSame(gone, d, d + t);
    assert l + [] == l;
  }

  lemma RisingIsDistinct(cs: seq<Change>, to: SeqNo, n: nat)
    requires Rising(cs, to) && n <= |cs|
    ensures Distinct(cs) && Distinct(cs[..n])
  {
    hide Pow2;
  }

  lemma PiecesMatch(stale: seq<Change>, feed: seq<Change>, gone: seq<Change>)
    requires gone <= stale + feed && |stale| <= |gone|
    ensures var m := |gone| - |stale|;
      m <= |feed| && gone == stale + feed[..m] && (stale + feed)[|gone|..] == feed[m..] && feed == feed[..m] + feed[m..]
  {
    var m := |gone| - |stale|;
    assert (stale + feed)[..|gone|] == stale + feed[..m];
  }

  /** Every change of this life was handed to its module once, in commit order, or waits in the queue; and
      nothing else was handed to anyone. */
  predicate OnceInOrder(life: Life, st: State)
    requires Inv(life, st)
  {
    Delivered(life, st.commits) + Handing(true, Pending(life, st.commits)) == Handing(true, Feed(life, st.commits))
  }

  lemma HandingParts(own: bool, a: seq<Change>, b: seq<Change>)
    ensures Handing(own, a + b) == Handing(own, a) + Handing(own, b)
  {
  }

  lemma HandingSame(a: seq<Change>, b: seq<Change>)
    ensures Handing(true, a) == Handing(true, b) <==> a == b
  {
    if Handing(true, a) == Handing(true, b) {
      assert |a| == |Handing(true, a)| == |b|;
      forall i | 0 <= i < |a| ensures a[i] == b[i] {
        assert Handing(true, a)[i] == Handing(true, b)[i];
      }
    }
  }

  /** Without drains for an earlier trigger, what left the queue that way went to this life's module; and
      such a drain shows. */
  lemma {:induction false} WhoWasHanded(life: Life, st: State, n: nat)
    requires Inv(life, st) && life.since <= n <= |st.commits|
    ensures Foreign(life, st.commits[..n]) == [] ==>
      Delivered(life, st.commits[..n]) == Handing(true, Handed(life, st.commits[..n]))
    ensures Foreign(life, st.commits[..n]) != [] ==> exists d :: d in Delivered(life, st.commits[..n]) && !d.own
  {
    hide Good, GoodAt, RunnerFits, Untouched, Store, TriggerCodec.Pack, Handing;
    NothingHanded();
    if n > life.since {
      hide Delivered, Handed, Foreign, Inv, All, Removed, Feed, Lost, Fed, Taken;
      var pre, c := st.commits[..n - 1], st.commits[n - 1];
      WhoWasHanded(life, st, n - 1);
      assert st.commits[..n] == pre + [c];
      FeedSnoc(life, pre, c);
      if c.Drained? {
        DrainedHere(life, st, n - 1);
        OneHanding(c.own, c.gone + c.changes);
        HandingParts(true, Handed(life, pre), c.changes);
        assert Foreign(life, pre) + [] == Foreign(life, pre);
      } else {
        assert Delivered(life, pre) + [] == Delivered(life, pre);
        assert Handed(life, pre) + [] == Handed(life, pre) && Foreign(life, pre) + [] == Foreign(life, pre);
      }
    }
  }

  lemma DrainedHere(life: Life, st: State, i: nat)
    requires Inv(life, st) && life.since <= i < |st.commits| && st.commits[i].Drained?
    ensures var c := st.commits[i];
      c.gone + c.changes != [] && (c.own ==> c.gone == [] && c.gone + c.changes == c.changes)
  {
    hide Good, GoodAt, RunnerFits, Untouched, Store, TriggerCodec.Pack;
    assert DrainAt(life, st.commits, i);
    assert [] + st.commits[i].changes == st.commits[i].changes;
  }

  lemma NothingHanded()
    ensures Handing(true, []) == []
  {
  }

  lemma OneHanding(own: bool, cs: seq<Change>)
    requires cs != []
    ensures Delivery(own, cs[0]) in Handing(own, cs)
  {
    assert Handing(own, cs)[0] == Delivery(own, cs[0]);
  }

  /** That is so precisely when a sweep threw away what the life began with and nothing else, and no
      drain for an earlier trigger committed in it. */
  lemma ExactlyOnceWhen(life: Life, st: State)
    requires Inv(life, st)
    ensures OnceInOrder(life, st) <==> Lost(life, st.commits) == life.stale && Foreign(life, st.commits) == []
  {
    hide Drop, Distinct, Removed, Delivered, Handed, Lost, Foreign, Feed, GoodAt, DrainAt, RunnerFits, Rising, QueueIs,
         Queue, Store, Handing;
    var stale, feed, gone := life.stale, Feed(life, st.commits), Removed(life, st.commits);
    assert st.commits[..|st.commits|] == st.commits;
    WhoWasHanded(life, st, |st.commits|);
    if Foreign(life, st.commits) == [] {
      var d, p := Handed(life, st.commits), Pending(life, st.commits);
      HandingParts(true, d, p);
      HandingSame(d + p, feed);
      AllRises(life, st.commits);
      RisingIsDistinct(stale + feed, |Store(life, st.commits)|, |gone|);
      assert (stale + feed)[..|gone|] == gone;
      LeftOneWay(life, st.commits);
      Split(stale, feed, gone, d, Lost(life, st.commits), p);
    } else {
      ForeignIsNotFed(life, st);
    }
  }

  lemma ForeignIsNotFed(life: Life, st: State)
    requires Inv(life, st) && exists d :: d in Delivered(life, st.commits) && !d.own
    ensures !OnceInOrder(life, st)
  {
    hide Delivered, Feed, GoodAt, DrainAt, RunnerFits, Good;
    GoodHere(life, st);
    var d :| d in Delivered(life, st.commits) && !d.own;
    assert d in Delivered(life, st.commits) + Handing(true, Pending(life, st.commits));
    assert forall x :: x in Handing(true, Feed(life, st.commits)) ==> x.own;
  }

  lemma Split(stale: seq<Change>, feed: seq<Change>, gone: seq<Change>, d: seq<Change>, l: seq<Change>, p: seq<Change>)
    requires gone <= stale + feed && p == (stale + feed)[|gone|..] && Distinct(stale + feed) && Distinct(gone)
    requires d == Drop(gone, l) && l == Drop(gone, d)
    ensures d + p == feed <==> l == stale
  {
    hide Drop;
    PartsApart(stale, feed);
    if d + p == feed || l == stale {
      AllStaleGone(stale, feed, gone, d, l, p);
      PiecesMatch(stale, feed, gone);
      var early := feed[..|gone| - |stale|];
      assert forall c :: c in early ==> c in feed;
      if l == stale {
        DropConcat(stale, early, stale);
        DropAll(stale, stale);
        DropNone(early, stale);
      } else {
        assert d == early by { SameEnds(d, early, p, feed); }
        DropConcat(stale, early, early);
        DropNone(stale, early);
        DropAll(early, early);
      }
    }
  }

  lemma SameEnds<T>(a: seq<T>, b: seq<T>, p: seq<T>, whole: seq<T>)
    requires a + p == whole && b + p == whole
    ensures a == b
  {
    assert a == whole[..|whole| - |p|] && b == whole[..|whole| - |p|];
  }

  lemma AllStaleGone(stale: seq<Change>, feed: seq<Change>, gone: seq<Change>, d: seq<Change>, l: seq<Change>,
                     p: seq<Change>)
    requires gone <= stale + feed && p == (stale + feed)[|gone|..] && Distinct(stale + feed)
    requires (forall c :: c in l ==> c in gone) && (forall c :: c in stale ==> c !in feed)
    requires d + p == feed || l == stale
    ensures |stale| <= |gone|
  {
    assert forall c :: c in p ==> c in d + p;
    if |gone| < |stale| { StaleWaits(stale, feed, gone); }
  }

  lemma StaleWaits(stale: seq<Change>, feed: seq<Change>, gone: seq<Change>)
    requires gone <= stale + feed && Distinct(stale + feed) && |gone| < |stale|
    ensures exists c :: c in stale && c in (stale + feed)[|gone|..] && c !in gone
  {
    var all, c := stale + feed, stale[|gone|];
    assert all[|gone|] == c && all[|gone|..][0] == c;
    forall i | 0 <= i < |gone| ensures gone[i] != c {
      assert gone[i] == all[i] && all[i] != all[|gone|];
    }
    assert c in stale && c in all[|gone|..] && c !in gone;
  }

  // ---------------------------------------------------------------- a life that starts clean

  /** The runner has nothing of an earlier life to deliver or to delete. */
  predicate Calm(r: Runner) {
    match r
    case Idle => true
    case Residue => false
    case Former => false
    case Clearing(_, chunk) => chunk == []
    case Ready(own, _, _) => own
    case Running(own, _, _, _) => own
  }

  predicate Clean(life: Life, st: State) {
    Lost(life, st.commits) == [] && Foreign(life, st.commits) == [] && Calm(st.runner)
  }

  lemma {:induction false} StaysClean(life: Life, st: State, es: seq<Event>)
    requires Inv(life, st) && Legal(life, st, es) && Clean(life, st)
    ensures Clean(life, After(life, st, es))
    decreases |es|
  {
    hide Clean, Inv, Enabled, Next;
    if es != [] {
      NextKeeps(life, st, es[0]);
      StepStaysClean(life, st, es[0]);
      StaysClean(life, Next(life, st, es[0]), es[1..]);
    }
  }

  lemma StepStaysClean(life: Life, st: State, e: Event)
    requires Inv(life, st) && Enabled(life, st, e) && Clean(life, st)
    ensures Clean(life, Next(life, st, e))
  {
    hide Good, GoodAt, DrainAt, MayCommit, Packs, Lost, Foreign, Untouched;
    GoodHere(life, st);
    match e
    case Publish(c) => FeedSnoc(life, st.commits, c);
    case Finish => FeedSnoc(life, st.commits, DrainOf(life, st));
    case Clear => FeedSnoc(life, st.commits, SweepOf(st.runner));
    case Crash(left) => LostPrefix(life, st.commits, left);
    case Pack(_, _) =>
    case Begin =>
    case Conflict =>
    case GiveUp =>
  }

  lemma {:induction false} LostPrefix(life: Life, commits: seq<Commit>, n: nat)
    requires n <= |commits|
    ensures Lost(life, commits[..n]) <= Lost(life, commits) && Foreign(life, commits[..n]) <= Foreign(life, commits)
    ensures Feed(life, commits[..n]) <= Feed(life, commits)
  {
    hide Store, Fed;
    if n == |commits| {
      assert commits[..n] == commits;
    } else {
      LostPrefix(life, commits[..|commits| - 1], n);
      assert commits[..|commits| - 1][..n] == commits[..n];
    }
  }

  /** Changes-mode delivery is exactly-once and in commit order, over every run of captures, drains,
      conflicts, retries and crashes, of a trigger begun on an empty queue while the runner has nothing
      in hand for an earlier one. */
  lemma ExactlyOnce(life: Life, st: State, es: seq<Event>)
    requires Init(life, st) && life.stale == [] && Calm(st.runner) && (InitIsInv(life, st); Legal(life, st, es))
    ensures (InitIsInv(life, st); OnceInOrder(life, After(life, st, es)))
  {
    hide Legal, After;
    InitIsInv(life, st);
    StaysClean(life, st, es);
    ExactlyOnceWhen(life, After(life, st, es));
  }

  lemma {:induction false} PackHolds(cs: seq<Change>)
    ensures |cs| <= |PackAll(cs)| && forall c :: c in cs ==> |c.key| + |InlineOf(c)| <= |PackAll(cs)|
  {
    hide PackOne;
    if cs != [] {
      var pre, last := cs[..|cs| - 1], cs[|cs| - 1];
      PackOneLength(last);
      PackHolds(pre);
      assert cs == pre + [last];
    }
  }

  /** A packed input within 32 bits is read back as the changes packed. */
  lemma PackedIsRead(cs: seq<Change>, to: SeqNo, maxInput: nat)
    requires Rising(cs, to) && |TriggerCodec.Pack(cs)| <= maxInput < Pow2(32)
    ensures Parsed(TriggerCodec.Pack(cs)) == Some(cs)
  {
    hide Pow2, PackAll, Parsed, InlineOf;
    PackHolds(cs);
    forall c | c in cs ensures OnWire(c) {
      var i :| 0 <= i < |cs| && cs[i] == c;
      assert Within(cs[i], to);
    }
    ParseInvertsPack(TriggerCodec.Pack(cs), cs);
  }

  /** Commit `i` is a drain of the next chunk of the feed, and wrote what the module makes of it. */
  predicate DrainsNext(life: Life, commits: seq<Commit>, i: nat)
    requires i < |commits| && commits[i].Drained?
  {
    var c, d, seen := commits[i], |Delivered(life, commits[..i])|, Store(life, commits[..i]);
    c.own && c.gone == [] && d + |c.changes| <= |Feed(life, commits)| &&
    c.changes == Feed(life, commits)[d..d + |c.changes|] &&
    c.snap <= |seen| && c.effects == life.guest(TriggerCodec.Pack(c.changes), seen[..c.snap])
  }

  /** Each drain that committed took the next chunk of the feed, its writes are the module's for
      exactly that input, and the module's parser reads exactly those changes from it. */
  lemma EachDrainIsNext(life: Life, st: State, i: nat)
    requires Inv(life, st) && life.stale == [] && Lost(life, st.commits) == [] && Foreign(life, st.commits) == []
    requires life.since <= i < |st.commits| && st.commits[i].Drained?
    ensures DrainsNext(life, st.commits, i)
    ensures life.maxInput < Pow2(32) ==> Parsed(TriggerCodec.Pack(st.commits[i].changes)) == Some(st.commits[i].changes)
  {
    hide Store, Feed, All, Removed, Delivered, Handed, Lost, Foreign, Fed, Taken, Rising, Pow2, Parsed, RunnerFits,
         Good,
         TriggerCodec.Pack, Untouched, Handing;
    var before, here, c := st.commits[..i], st.commits[..i + 1], st.commits[i];
    assert here == before + [c];
    FeedSnoc(life, before, c);
    HandedPrefix(life, st, i);
    HandedPrefix(life, st, i + 1);
    assert DrainAt(life, st.commits, i);
    assert c.own && c.gone + c.changes == c.changes;
    HandingLength(Handed(life, before));
    var d := Handed(life, before);
    Chunk(d, c.changes, Feed(life, here), Feed(life, st.commits));
    if life.maxInput < Pow2(32) {
      ChunkRises(life, here, |d|, c.changes);
      PackedIsRead(c.changes, |Store(life, here)|, life.maxInput);
    }
  }

  lemma HandingLength(cs: seq<Change>)
    ensures |Handing(true, cs)| == |cs|
  {
  }

  lemma Chunk<T>(d: seq<T>, cs: seq<T>, near: seq<T>, far: seq<T>)
    requires d + cs <= near <= far
    ensures |d| + |cs| <= |near| && near[|d|..|d| + |cs|] == cs && far[|d|..|d| + |cs|] == cs
  {
    assert (d + cs)[|d|..] == cs;
    assert near[..|d| + |cs|] == d + cs && far[..|d| + |cs|] == d + cs;
  }

  lemma ChunkRises(life: Life, commits: seq<Commit>, from: nat, cs: seq<Change>)
    requires Good(life, commits) && life.stale == [] && from + |cs| <= |Feed(life, commits)|
    requires cs == Feed(life, commits)[from..from + |cs|]
    ensures Rising(cs, |Store(life, commits)|)
  {
    hide Store, Feed, Removed, QueueIs, Queue, Pow2, Within;
    AllRises(life, commits);
    assert life.stale + Feed(life, commits) == Feed(life, commits);
  }

  lemma HandedPrefix(life: Life, st: State, n: nat)
    requires Inv(life, st) && life.stale == [] && Lost(life, st.commits) == [] && Foreign(life, st.commits) == []
    requires life.since <= n <= |st.commits|
    ensures Delivered(life, st.commits[..n]) == Handing(true, Handed(life, st.commits[..n]))
    ensures Handed(life, st.commits[..n]) <= Feed(life, st.commits[..n]) <= Feed(life, st.commits)
    ensures Good(life, st.commits[..n]) && Foreign(life, st.commits[..n]) == []
  {
    hide Good, Store, Feed, All, Removed, Delivered, Handed, Lost, Foreign, Pending, Handing;
    LostPrefix(life, st.commits, n);
    var st' := State(st.commits[..n], Idle);
    IdleKeeps(life, st, st');
    ExactlyOnceWhen(life, st');
    WhoWasHanded(life, st, n);
    GoodHere(life, st');
    HandingParts(true, Handed(life, st'.commits), Pending(life, st'.commits));
    HandingSame(Handed(life, st'.commits) + Pending(life, st'.commits), Feed(life, st'.commits));
  }

  // ---------------------------------------------------------------- a life that does not

  lemma {:induction false} SameStore(life: Life, next: Life, commits: seq<Commit>)
    requires next.def.name == life.def.name && next.cap == life.cap
    ensures Store(next, commits) == Store(life, commits)
  {
    hide CaptureOps, Deletes;
    if commits != [] { SameStore(life, next, commits[..|commits| - 1]); }
  }

  /** Creating a trigger does not look at its queue: what a cut-short deletion left of an earlier
      trigger of that name is where the new life starts. */
  lemma LeftoversRemain(life: Life, st: State, next: Life)
    requires Inv(life, st) && next.def.name == life.def.name && next.cap == life.cap
    requires next.since == |st.commits| && next.stale == Pending(life, st.commits) && next.gone == []
    ensures Init(next, State(st.commits, Idle))
  {
    hide GoodAt, DrainAt, RunnerFits, QueueIs, Rising, Store, All, Removed;
    SameStore(life, next, st.commits);
    AllRises(life, st.commits);
    RisingTail(All(life, st.commits), |Store(life, st.commits)|, |Removed(life, st.commits)|);
    assert [] + next.stale == next.stale;
  }

  /** And it is delivered with the rest, unless a sweep was under way: no run is exactly-once. */
  lemma LeftoversAreDelivered(life: Life, st: State, es: seq<Event>)
    requires Init(life, st) && life.stale != [] && Calm(st.runner) && (InitIsInv(life, st); Legal(life, st, es))
    ensures (InitIsInv(life, st); !OnceInOrder(life, After(life, st, es)))
  {
    hide Legal, After;
    InitIsInv(life, st);
    StaysClean(life, st, es);
    ExactlyOnceWhen(life, After(life, st, es));
  }

  function ItemsOf(name: Bytes, cs: seq<Change>): seq<Item> {
    seq(|cs|, i requires 0 <= i < |cs| => Item(ChangeKey(name, cs[i].at), EncodeRecord(cs[i])))
  }

  lemma ItemsIterate(name: Bytes, q: map<Bytes, Bytes>, cs: seq<Change>, to: SeqNo)
    requires QueueIs(name, q, cs) && Rising(cs, to)
    ensures Iterates(q, ItemsOf(name, cs))
  {
    hide ChangeKey, EncodeRecord, Before, Pow2;
    var items := ItemsOf(name, cs);
    var ks := KeysIn(items);
    forall i, j | 0 <= i < j < |ks| ensures Before(ks[i], ks[j]) {
      assert Within(cs[i], to) && Within(cs[j], to);
      ChangeKeysInOrder(name, cs[i].at, cs[j].at);
    }
    forall k | k in q ensures k in ks {
      assert HasKey(name, cs, k);
      var i :| 0 <= i < |cs| && ChangeKey(name, cs[i].at) == k;
      assert ks[i] == k;
    }
    forall i | 0 <= i < |items| ensures items[i].key in q && items[i].record == q[items[i].key] {
      assert Listed(name, q, cs[i]);
    }
  }

  /** Reading what is pending now for residue. */
  function LateCollect(life: Life, commits: seq<Commit>): Event
    requires |Removed(life, commits)| <= |All(life, commits)|
  {
    Collect(ItemsOf(life.def.name, Pending(life, commits)), Min(|Pending(life, commits)|, SWEEP_BATCH))
  }

  lemma LateCollectHappens(life: Life, st: State)
    requires Inv(life, st) && st.runner.Residue? && Pending(life, st.commits) != []
    ensures Enabled(life, st, LateCollect(life, st.commits))
    ensures var cs := Pending(life, st.commits);
      Next(life, st, LateCollect(life, st.commits)) == st.(runner := Clearing([], cs[..Min(|cs|, SWEEP_BATCH)]))
  {
    hide Inv, Good, QueueIs, Rising, Store, All, Removed, Queue, Iterates, Readable, ChangesIn, ItemsOf, Pending;
    GoodHere(life, st);
    var items := ItemsOf(life.def.name, Pending(life, st.commits));
    QueueIterates(life, st);
    HeadIsRead(life, st, items, Min(|items|, SWEEP_BATCH));
  }

  lemma FirstEvent(life: Life, st: State, e: Event, es: seq<Event>)
    requires Inv(life, st) && Enabled(life, st, e) && (NextKeeps(life, st, e); Legal(life, Next(life, st, e), es))
    ensures Legal(life, st, [e] + es)
    ensures (NextKeeps(life, st, e); After(life, st, [e] + es) == After(life, Next(life, st, e), es))
  {
    hide Inv, Enabled, Next;
    NextKeeps(life, st, e);
    assert ([e] + es)[1..] == es;
  }

  /** The runner finds residue of a name, looks the name up and finds no trigger; a trigger of that
      name is created and its range written; then the runner reads and deletes what is in the queue.
      The new trigger's changes are gone. */
  lemma LateSweepLoses(life: Life, st: State)
    requires Inv(life, st) && st.runner.Residue? && life.stale == []
    requires Pending(life, st.commits) != [] && |Store(life, st.commits)| + SWEEP_BATCH < MAX_SEQNO
    ensures Legal(life, st, [LateCollect(life, st.commits), Clear])
    ensures !OnceInOrder(life, After(life, st, [LateCollect(life, st.commits), Clear]))
  {
    hide Good, GoodAt, DrainAt, RunnerFits, Store, All, Removed, Feed, Delivered, Lost, Foreign, Enabled, ItemsOf;
    GoodHere(life, st);
    LateCollectHappens(life, st);
    var e, cs := LateCollect(life, st.commits), Pending(life, st.commits);
    NextKeeps(life, st, e);
    var st1 := Next(life, st, e);
    ClearHappens(life, st1);
    NextKeeps(life, st1, Clear);
    FeedSnoc(life, st.commits, SweepOf(st1.runner));
    ExactlyOnceWhen(life, Next(life, st1, Clear));
    FirstEvent(life, st1, Clear, []);
    FirstEvent(life, st, e, [Clear] + []);
    assert [e] + ([Clear] + []) == [e, Clear];
  }

  lemma ClearHappens(life: Life, st: State)
    requires Inv(life, st) && st.runner.Clearing? && st.runner.gone == []
    requires |Store(life, st.commits)| + |st.runner.chunk| < MAX_SEQNO
    ensures Enabled(life, st, Clear)
  {
    hide Good, GoodAt, DrainAt;
    GoodHere(life, st);
    assert [] + st.runner.chunk == st.runner.chunk;
  }

  /** One captured write leaves its change pending. */
  lemma PendingHappens(life: Life, st: State, op: BatchOp)
    requires Inv(life, st) && life.def.changes && ValidName(life.def.name)
    requires Fires(life.def, op.key) && |op.key| < Pow2(64) && |Store(life, st.commits)| + 2 < MAX_SEQNO
    ensures var w := Write([op], true, [life.def]);
      Enabled(life, st, Publish(w)) && |Removed(life, st.commits + [w])| <= |All(life, st.commits + [w])| &&
      Pending(life, st.commits + [w]) ==
        Pending(life, st.commits) + [ChangeOf(op, |Store(life, st.commits)| + 1, life.cap)]
  {
    hide Fires, EncodeRecord, Pow2, CaptureOps, InQueue, Matching, ChangeOf, Good, GoodAt, DrainAt, RunnerFits, Store,
         All, Removed;
    var w, n := Write([op], true, [life.def]), |Store(life, st.commits)| + 1;
    GoodHere(life, st);
    FiringKeysApart(life.def, op.key);
    OneWrite(life.def, op, n, life.cap);
    FeedSnoc(life, st.commits, w);
    TailGrows(All(life, st.commits), Matching(life.def, [op], n, life.cap), |Removed(life, st.commits)|);
    TailGrows(Removed(life, st.commits), [], 0);
  }

  /** The earlier trigger's module writes user keys only, and at most so many. */
  ghost predicate Behaves(life: Life, effects: nat) {
    forall input, seen :: Elsewhere(life, life.former(input, seen)) && |life.former(input, seen)| <= effects
  }

  lemma ConflictHappens(life: Life, st: State)
    requires Inv(life, st) && st.runner.Running?
    ensures Enabled(life, st, Conflict)
  {
    hide Inv;
  }

  lemma BeginHappens(life: Life, st: State)
    requires Inv(life, st) && st.runner.Ready?
    ensures Enabled(life, st, Begin)
  {
    hide Inv;
  }

  lemma FinishHappens(life: Life, st: State, effects: nat)
    requires Inv(life, st) && st.runner.Running? && !st.runner.own && Behaves(life, effects)
    requires st.runner.snap == |Store(life, st.commits)|
    requires |Store(life, st.commits)| + |st.runner.gone + st.runner.chunk| + effects < MAX_SEQNO
    ensures Enabled(life, st, Finish) && Foreign(life, Next(life, st, Finish).commits) != []
  {
    hide Inv, Good, Store, All, Removed, Iterates, Packs, Foreign, Elsewhere, OpsOf, Live, Untouched;
    GoodHere(life, st);
    var s, c := Store(life, st.commits), DrainOf(life, st);
    assert s[..|s|] == s;
    DrainLength(life, c, |s| + 1);
    NothingTouched(life.def.name, s, c.gone + c.changes);
    FeedSnoc(life, st.commits, c);
    assert Elsewhere(life, c.effects);
    assert |Foreign(life, st.commits + [c])| >= |c.gone + c.changes|;
  }

  lemma DrainLength(life: Life, c: Commit, base: SeqNo)
    requires c.Drained?
    ensures |OpsOf(life, c, base)| == |c.gone + c.changes| + |c.effects|
  {
  }

  lemma NothingTouched(name: Bytes, ops: seq<BatchOp>, cs: seq<Change>)
    ensures Untouched(name, ops, |ops|, cs)
  {
  }

  /** A chunk packed for an earlier trigger of the name, and not by this life's, is delivered in this life:
      every attempt opens a fresh transaction for it, whose snapshot sees the queue as it is by then. */
  lemma ForeignChunkIsDelivered(life: Life, st: State, effects: nat) returns (es: seq<Event>)
    requires Inv(life, st) && Packed(st.runner) && !st.runner.own && Behaves(life, effects)
    requires |Store(life, st.commits)| + |st.runner.gone + st.runner.chunk| + effects < MAX_SEQNO
    ensures Legal(life, st, es) && !OnceInOrder(life, After(life, st, es))
    decreases if st.runner.Ready? then 0 else 1
  {
    hide Inv, Store, Feed, Delivered, Lost, Foreign, Enabled, DrainOf, OnceInOrder, Behaves;
    if st.runner.Ready? {
      BeginHappens(life, st);
      NextKeeps(life, st, Begin);
      var st1 := Next(life, st, Begin);
      FinishHappens(life, st1, effects);
      NextKeeps(life, st1, Finish);
      ExactlyOnceWhen(life, Next(life, st1, Finish));
      FirstEvent(life, st1, Finish, []);
      FirstEvent(life, st, Begin, [Finish] + []);
      es := [Begin] + ([Finish] + []);
    } else {
      ConflictHappens(life, st);
      NextKeeps(life, st, Conflict);
      var rest := ForeignChunkIsDelivered(life, Next(life, st, Conflict), effects);
      FirstEvent(life, st, Conflict, rest);
      es := [Conflict] + rest;
    }
  }

  /** The runner looks the name up and finds a trigger; that one is deleted, another is created and its
      range written; then the runner packs the new trigger's changes for the old one's module. */
  lemma LatePackMisdelivers(life: Life, st: State, effects: nat) returns (es: seq<Event>)
    requires Inv(life, st) && st.runner.Former? && Pending(life, st.commits) != [] && Behaves(life, effects)
    requires life.batch >= 1 && |TriggerCodec.Pack(Pending(life, st.commits)[..1])| <= life.maxInput
    requires |Store(life, st.commits)| + 1 + effects < MAX_SEQNO
    ensures Legal(life, st, es) && !OnceInOrder(life, After(life, st, es))
  {
    hide Inv, Store, Pending, Enabled, OnceInOrder, Behaves, ItemsOf;
    GoodHere(life, st);
    var e := Pack(ItemsOf(life.def.name, Pending(life, st.commits)), 1);
    LatePackHappens(life, st);
    NextKeeps(life, st, e);
    var rest := ForeignChunkIsDelivered(life, Next(life, st, e), effects);
    FirstEvent(life, st, e, rest);
    es := [e] + rest;
  }

  lemma LatePackHappens(life: Life, st: State)
    requires Inv(life, st) && st.runner.Former? && Pending(life, st.commits) != []
    requires life.batch >= 1 && |TriggerCodec.Pack(Pending(life, st.commits)[..1])| <= life.maxInput
    ensures var e := Pack(ItemsOf(life.def.name, Pending(life, st.commits)), 1);
      Enabled(life, st, e) && Next(life, st, e) == st.(runner := Ready(false, [], Pending(life, st.commits)[..1]))
    ensures |[] + Pending(life, st.commits)[..1]| == 1
  {
    hide Inv, Good, Rising, QueueIs, Store, All, Removed, Queue, Iterates, Readable, ChangesIn, ItemsOf, Pending,
         TriggerCodec.Pack;
    GoodHere(life, st);
    var items := ItemsOf(life.def.name, Pending(life, st.commits));
    QueueIterates(life, st);
    HeadIsRead(life, st, items, 1);
  }

  lemma QueueIterates(life: Life, st: State)
    requires Inv(life, st)
    ensures |Removed(life, st.commits)| <= |All(life, st.commits)|
    ensures var items := ItemsOf(life.def.name, Pending(life, st.commits));
      Iterates(Queue(life, st.commits), items) && |items| == |Pending(life, st.commits)|
  {
    hide GoodAt, DrainAt, RunnerFits, QueueIs, Rising, Store, All, Removed, Queue, Iterates, ChangeKey, EncodeRecord;
    var name, cs, to := life.def.name, Pending(life, st.commits), |Store(life, st.commits)|;
    AllRises(life, st.commits);
    RisingTail(All(life, st.commits), to, |Removed(life, st.commits)|);
    ItemsIterate(name, Queue(life, st.commits), cs, to);
  }

  // ---------------------------------------------------------------- told before the life begins

  ghost predicate RunIsOnce(life: Life, st: State, es: seq<Event>)
    requires Inv(life, st)
  {
    Legal(life, st, es) ==> OnceInOrder(life, After(life, st, es))
  }

  /** The store has seqnos left, the earlier module behaves, and the range can be written: `op` fires, and
      its change fits an invocation. */
  ghost predicate Serves(life: Life, st: State, op: BatchOp, effects: nat) {
    life.def.changes && ValidName(life.def.name) && Fires(life.def, op.key) && |op.key| < Pow2(64) &&
    life.batch >= 1 && Behaves(life, effects) &&
    |TriggerCodec.Pack([ChangeOf(op, |Store(life, st.commits)| + 1, life.cap)])| <= life.maxInput &&
    |Store(life, st.commits)| + 3 + SWEEP_BATCH + effects < MAX_SEQNO &&
    (Packed(st.runner) ==>
      |Store(life, st.commits)| + |st.runner.gone + st.runner.chunk| + effects < MAX_SEQNO)
  }

  /** Before the first event it can be told whether the trigger's delivery will be exactly-once in every
      run: exactly if its queue is empty and the runner has neither looked the name up and yet to read
      the queue, nor a chunk in hand that it packed for an earlier trigger of the name. */
  lemma ExactlyOnceExactlyWhen(life: Life, st: State, op: BatchOp, effects: nat)
    requires Init(life, st) && Serves(life, st, op, effects)
    ensures (InitIsInv(life, st);
             (forall es :: RunIsOnce(life, st, es)) <==>
             life.stale == [] && !st.runner.Residue? && !st.runner.Former? && !Packed(st.runner))
  {
    hide Inv, Good, Store, Fires, Pow2, Behaves, ChangeOf, TriggerCodec.Pack, OnceInOrder;
    InitIsInv(life, st);
    if life.stale != [] {
      StaleIsNotFed(life, st);
      var es: seq<Event> := [];
      assert !RunIsOnce(life, st, es);
    } else if Packed(st.runner) {
      var es := ForeignChunkIsDelivered(life, st, effects);
      assert !RunIsOnce(life, st, es);
    } else if st.runner.Residue? || st.runner.Former? {
      var es := GoesWrongAfter(life, st, op, effects);
      assert !RunIsOnce(life, st, es);
    } else {
      forall es ensures RunIsOnce(life, st, es) {
        if Legal(life, st, es) { ExactlyOnce(life, st, es); }
      }
    }
  }

  lemma StaleIsNotFed(life: Life, st: State)
    requires Init(life, st) && life.stale != []
    ensures (InitIsInv(life, st); !OnceInOrder(life, st))
  {
    hide Store, Rising, QueueIs, Handing;
    InitIsInv(life, st);
    assert Feed(life, st.commits) == [] && Delivered(life, st.commits) == [];
    assert life.stale[0..] == life.stale && life.stale + [] == life.stale;
    HandingSame(life.stale, []);
    assert [] + Handing(true, life.stale) == Handing(true, life.stale);
  }

  /** The range is written, and then the runner goes on with what it looked up before. */
  lemma GoesWrongAfter(life: Life, st: State, op: BatchOp, effects: nat) returns (es: seq<Event>)
    requires Init(life, st) && life.stale == [] && (st.runner.Residue? || st.runner.Former?)
    requires Serves(life, st, op, effects)
    ensures (InitIsInv(life, st); Legal(life, st, es) && !OnceInOrder(life, After(life, st, es)))
  {
    hide Inv, Good, Store, All, Removed, Enabled, Fires, Pow2, OpsOf, Live, Behaves, ChangeOf, TriggerCodec.Pack,
         OnceInOrder, Pending;
    InitIsInv(life, st);
    var e := Publish(Write([op], true, [life.def]));
    GoodHere(life, st);
    PendingHappens(life, st, op);
    NextKeeps(life, st, e);
    var st1 := Next(life, st, e);
    OneWriteIsShort(life, st, op);
    NothingPendingYet(life, st);
    var rest;
    if st.runner.Residue? {
      LateSweepLoses(life, st1);
      rest := [LateCollect(life, st1.commits), Clear];
    } else {
      var c := ChangeOf(op, |Store(life, st.commits)| + 1, life.cap);
      assert [] + [c] == [c] && [c][..1] == [c];
      rest := LatePackMisdelivers(life, st1, effects);
    }
    FirstEvent(life, st, e, rest);
    es := [e] + rest;
  }

  lemma NothingPendingYet(life: Life, st: State)
    requires Init(life, st) && life.stale == []
    ensures (InitIsInv(life, st); GoodHere(life, st); Pending(life, st.commits) == [])
  {
    hide Store, Rising, QueueIs;
    InitIsInv(life, st);
  }

  lemma OneWriteIsShort(life: Life, st: State, op: BatchOp)
    requires life.def.changes && Fires(life.def, op.key)
    ensures |Store(life, st.commits + [Write([op], true, [life.def])])| <= |Store(life, st.commits)| + 2
  {
    hide Fires, CaptureOps, Store, Live;
    StoreSnoc(life, st.commits, Write([op], true, [life.def]));
    OneWrite(life.def, op, |Store(life, st.commits)| + 1, life.cap);
  }

  lemma FiringKeysApart(def: Def, key: Bytes)
    requires Fires(def, key)
    ensures !InQueue(def.name, key)
  {
    UserKeysApart(def.name, key);
  }

  lemma OneWrite(def: Def, op: BatchOp, at: SeqNo, cap: nat)
    requires def.changes && Fires(def, op.key) && at >= 1
    ensures Matching(def, [op], at, cap) == [ChangeOf(op, at, cap)]
    ensures |CaptureOps([def], [op], at, cap)| <= 1
  {
    hide Fires, EncodeRecord, ChangeKey, TouchKey, ChangeOf;
    var defs := [def];
    assert defs[..0] == [] && [op][..0] == [];
    assert TouchesAt(defs, op) == [] + [];
    assert Touches(defs, [op]) == [] + [];
    assert SortedUnique(Touches(defs, [op])) == [];
    assert ChangeEvents(defs, [op], at, cap) == [] + EventsAt(defs, op, at, cap);
  }
}
