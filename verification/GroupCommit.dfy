/** The write path: one batch at a time, and a whole fsync group at once.
 *
 * Both run the same phases over the same state; I/O may fail at any append or sync.  The group
 * apply is proved to publish what applying a prefix of its accepted batches one by one publishes.
 */
module GroupCommit {
  import opened Sequences
  import opened Keys
  import opened Types

  datatype BatchOp = PutOp(key: Bytes, value: Bytes) | DeleteOp(key: Bytes)

  /** A batch, and whether its ops may fire triggers. */
  datatype Batch = Batch(ops: seq<BatchOp>, capture: bool)

  /** A placed op: a pointer is the index of the value's record in the log of values. */
  datatype Place = Here(value: Bytes) | InVlog(record: nat) | Tombstone

  datatype Entry = Entry(key: Bytes, place: Place)

  /** The first seqno of a commit: seqno 0 is never given out. */
  type First = n: nat | n >= 1 witness 1

  /** One WAL record, and one stream publication: a batch's entries from its first seqno on. */
  datatype Commit = Commit(base: First, entries: seq<Entry>)

  datatype Version = Version(key: Bytes, at: SeqNo, place: Place)

  datatype Error =
    | TooLarge | SeqnosExhausted
    | VlogAppendFailed | VlogSyncFailed | WalAppendFailed | WalSyncFailed
    | Aborted

  datatype Result = Ok | Err(error: Error)

  /** What applying batches one by one yields: the commits made, the seqno reached, and the value
      log they placed their large values in. */
  datatype Core = Core(visible: SeqNo, vlog: seq<(Bytes, Bytes)>, commits: seq<Commit>)

  /** What the write path is configured with; `capture` lists the trigger events of a batch
      committing from a given seqno. */
  datatype Config = Config(valueThreshold: nat, capture: (seq<BatchOp>, SeqNo) -> seq<BatchOp>, syncAlways: bool)

  /** Which I/O fails: the n-th value-log record, the n-th WAL record, the two syncs, rotation; and
      which encoded records exceed the WAL's limit. */
  datatype Faults = Faults(vlogAppend: nat -> bool, vlogSync: bool, walAppend: nat -> bool, walSync: bool,
                           rotate: bool, tooLong: Commit -> bool)

  const WAL_RECORD_LIMIT := 0x4000_0000

  const MAX_SEQNO := 0xff_ffff_ffff_ffff

  // ---------------------------------------------------------------- one batch, in one step

  function Events(cfg: Config, b: Batch, base: SeqNo): seq<BatchOp> {
    if b.capture then cfg.capture(b.ops, base) else []
  }

  function ApproxSize(ops: seq<BatchOp>): nat {
    if ops == [] then 0
    else
      var op := ops[|ops| - 1];
      ApproxSize(ops[..|ops| - 1]) + match op
        case PutOp(key, value) => |key| + |value| + 32
        case DeleteOp(key) => |key| + 16
  }

  /** Both checks of the single-batch path, in its order. */
  function Rejection(cfg: Config, visible: SeqNo, b: Batch): Option<Error> {
    var events := Events(cfg, b, visible + 1);
    if visible + 1 + |b.ops| + |events| >= MAX_SEQNO then Some(SeqnosExhausted)
    else if ApproxSize(b.ops + events) >= WAL_RECORD_LIMIT then Some(TooLarge)
    else None
  }

  /** The group's checks: the same two, the other way round. */
  function GroupRejection(cfg: Config, visible: SeqNo, b: Batch): Option<Error> {
    var events := Events(cfg, b, visible + 1);
    if ApproxSize(b.ops + events) >= WAL_RECORD_LIMIT then Some(TooLarge)
    else if visible + 1 + |b.ops| + |events| >= MAX_SEQNO then Some(SeqnosExhausted)
    else None
  }

  /** The twins reject the same batches, and name the same reason unless both reasons hold. */
  lemma TwinsReject(cfg: Config, visible: SeqNo, b: Batch)
    ensures Rejection(cfg, visible, b).Some? <==> GroupRejection(cfg, visible, b).Some?
    ensures Rejection(cfg, visible, b) == GroupRejection(cfg, visible, b) <==>
      !(visible + 1 + |b.ops| + |Events(cfg, b, visible + 1)| >= MAX_SEQNO &&
        ApproxSize(b.ops + Events(cfg, b, visible + 1)) >= WAL_RECORD_LIMIT)
  {
  }

  datatype Placed = Placed(entries: seq<Entry>, vlog: seq<(Bytes, Bytes)>)

  function PlaceOps(cfg: Config, ops: seq<BatchOp>, vlog: seq<(Bytes, Bytes)>): (p: Placed)
    ensures |p.entries| == |ops| && vlog <= p.vlog
  {
    if ops == [] then Placed([], vlog)
    else
      var before := PlaceOps(cfg, ops[..|ops| - 1], vlog);
      match ops[|ops| - 1]
      case PutOp(key, value) =>
        if |value| >= cfg.valueThreshold
        then Placed(before.entries + [Entry(key, InVlog(|before.vlog|))], before.vlog + [(key, value)])
        else Placed(before.entries + [Entry(key, Here(value))], before.vlog)
      case DeleteOp(key) => Placed(before.entries + [Entry(key, Tombstone)], before.vlog)
  }

  function AllOps(cfg: Config, b: Batch, base: SeqNo): seq<BatchOp> {
    b.ops + Events(cfg, b, base)
  }

  function Versions(c: Commit): seq<Version> {
    seq(|c.entries|, i requires 0 <= i < |c.entries| => Version(c.entries[i].key, c.base + i, c.entries[i].place))
  }

  /** What the memtable holds after these commits. */
  function AllVersions(commits: seq<Commit>): seq<Version> {
    if commits == [] then [] else AllVersions(commits[..|commits| - 1]) + Versions(commits[|commits| - 1])
  }

  /** An accepted batch, committed: fresh seqnos for its ops and events, values placed in order. */
  function Applied(cfg: Config, c: Core, b: Batch): Core {
    var base := c.visible + 1;
    var placed := PlaceOps(cfg, AllOps(cfg, b, base), c.vlog);
    Core(c.visible + |placed.entries|, placed.vlog, c.commits + [Commit(base, placed.entries)])
  }

  lemma AppliedVisible(cfg: Config, c: Core, b: Batch)
    ensures Applied(cfg, c, b).visible == c.visible + |b.ops| + |Events(cfg, b, c.visible + 1)|
  {
  }

  lemma OneCommit(c: Commit)
    ensures AllVersions([c]) == Versions(c)
  {
    assert [c][..0] == [];
  }

  /** Batches applied one by one, rejected ones leaving no trace. */
  function OneByOne(cfg: Config, c: Core, bs: seq<Batch>): Core {
    if bs == [] then c
    else
      var before := OneByOne(cfg, c, bs[..|bs| - 1]);
      if Rejection(cfg, before.visible, bs[|bs| - 1]).Some? then before
      else Applied(cfg, before, bs[|bs| - 1])
  }

  // ---------------------------------------------------------------- the group's plan

  /** An accepted batch: its index in the group, its first seqno and its trigger events. */
  datatype Planned = Planned(index: nat, base: First, events: seq<BatchOp>)

  datatype Plan = Plan(accepted: seq<Planned>, next: First, results: seq<Option<Result>>)

  /** Phase 0: validate each batch and hand out seqnos. */
  function PlanOf(cfg: Config, next: First, bs: seq<Batch>): (p: Plan)
    ensures |p.results| == |bs|
  {
    if bs == [] then Plan([], next, [])
    else
      var before := PlanOf(cfg, next, bs[..|bs| - 1]);
      var b := bs[|bs| - 1];
      var rejected := GroupRejection(cfg, before.next - 1, b);
      if rejected.Some? then Plan(before.accepted, before.next, before.results + [Some(Err(rejected.value))])
      else
        var events := Events(cfg, b, before.next);
        Plan(before.accepted + [Planned(|bs| - 1, before.next, events)], before.next + |b.ops| + |events|,
             before.results + [None])
  }

  /** How many of the first `i` batches are accepted; batch `i`, if accepted, gets this rank. */
  function RankOf(cfg: Config, next: First, bs: seq<Batch>, i: nat): nat
    requires i <= |bs|
  {
    |PlanOf(cfg, next, bs[..i]).accepted|
  }

  /** What phase 0 says about batch `i`. */
  function Verdict(cfg: Config, next: First, bs: seq<Batch>, i: nat): Option<Error>
    requires i < |bs|
  {
    GroupRejection(cfg, PlanOf(cfg, next, bs[..i]).next - 1, bs[i])
  }

  lemma {:induction false} PlanPrefix(cfg: Config, next: First, bs: seq<Batch>, i: nat)
    requires i <= |bs|
    ensures PlanOf(cfg, next, bs[..i]).accepted <= PlanOf(cfg, next, bs).accepted
    ensures PlanOf(cfg, next, bs[..i]).results <= PlanOf(cfg, next, bs).results
  {
    if i == |bs| {
      assert bs[..i] == bs;
    } else {
      PlanPrefix(cfg, next, bs[..|bs| - 1], i);
      assert bs[..|bs| - 1][..i] == bs[..i];
    }
  }

  /** Each batch is either rejected with its verdict or planned at its rank. */
  lemma PlanAt(cfg: Config, next: First, bs: seq<Batch>, i: nat)
    requires i < |bs|
    ensures var plan, v, r := PlanOf(cfg, next, bs), Verdict(cfg, next, bs, i), RankOf(cfg, next, bs, i);
      (v.Some? ==> plan.results[i] == Some(Err(v.value))) &&
      (v.None? ==> plan.results[i].None? && r < |plan.accepted| && plan.accepted[r].index == i)
  {
    PlanPrefix(cfg, next, bs, i + 1);
    assert bs[..i + 1][..i] == bs[..i];
  }

  predicate Increasing(accepted: seq<Planned>, n: nat) {
    (forall g :: 0 <= g < |accepted| ==> accepted[g].index < n) &&
    (forall g, g' :: 0 <= g < g' < |accepted| ==> accepted[g].index < accepted[g'].index)
  }

  lemma {:induction false} PlanIncreasing(cfg: Config, next: First, bs: seq<Batch>)
    ensures var plan := PlanOf(cfg, next, bs);
      Increasing(plan.accepted, |bs|) && forall g :: 0 <= g < |plan.accepted| ==>
        plan.results[plan.accepted[g].index].None?
  {
    hide Events, GroupRejection;
    if bs != [] {
      var n := |bs| - 1;
      PlanIncreasing(cfg, next, bs[..n]);
      var before, plan := PlanOf(cfg, next, bs[..n]), PlanOf(cfg, next, bs);
      forall g | 0 <= g < |plan.accepted| ensures plan.results[plan.accepted[g].index].None? {
        assert g < |before.accepted| ==> before.results[before.accepted[g].index].None?;
      }
    }
  }

  /** The first `g` accepted batches applied one by one. */
  function Published(cfg: Config, c: Core, bs: seq<Batch>, accepted: seq<Planned>, g: nat): Core
    requires Increasing(accepted, |bs|) && g <= |accepted|
  {
    if g == 0 then c else Applied(cfg, Published(cfg, c, bs, accepted, g - 1), bs[accepted[g - 1].index])
  }

  lemma AppliedCommits(cfg: Config, c: Core, b: Batch)
    ensures c.commits <= Applied(cfg, c, b).commits && |Applied(cfg, c, b).commits| == |c.commits| + 1
  {
  }

  /** Publishing one more accepted batch adds one commit. */
  lemma {:induction false} PublishedPrefix(cfg: Config, c: Core, bs: seq<Batch>, accepted: seq<Planned>, g: nat, n: nat)
    requires Increasing(accepted, |bs|) && g <= n <= |accepted|
    ensures |Published(cfg, c, bs, accepted, n).commits| == |c.commits| + n
    ensures Published(cfg, c, bs, accepted, g).commits == Published(cfg, c, bs, accepted, n).commits[..|c.commits| + g]
    decreases n
  {
    hide Applied;
    if n > 0 {
      PublishedPrefix(cfg, c, bs, accepted, if g < n then g else n - 1, n - 1);
      AppliedCommits(cfg, Published(cfg, c, bs, accepted, n - 1), bs[accepted[n - 1].index]);
    }
  }

  lemma {:induction false} PublishedVlogGrows(cfg: Config, c: Core, bs: seq<Batch>, accepted: seq<Planned>, g: nat,
                                              n: nat)
    requires Increasing(accepted, |bs|) && g <= n <= |accepted|
    ensures c.vlog <= Published(cfg, c, bs, accepted, g).vlog <= Published(cfg, c, bs, accepted, n).vlog
    decreases n
  {
    if n > 0 { PublishedVlogGrows(cfg, c, bs, accepted, if g < n then g else n - 1, n - 1); }
  }

  /** The first records are the commits of the first accepted batches, and the last of them fixes
      the visible seqno. */
  lemma PublishedRecords(cfg: Config, c: Core, bs: seq<Batch>, accepted: seq<Planned>, placed: seq<Commit>, n: nat)
    requires Increasing(accepted, |bs|) && n <= |placed| <= |accepted| && c.commits == []
    requires placed == Published(cfg, c, bs, accepted, |placed|).commits
    ensures var p := Published(cfg, c, bs, accepted, n);
      p.commits == placed[..n] &&
      p.visible == if n == 0 then c.visible else placed[n - 1].base + |placed[n - 1].entries| - 1
  {
    hide PlaceOps, AllOps;
    PublishedPrefix(cfg, c, bs, accepted, n, |placed|);
  }

  /** The planned base and events are those of applying the batches one by one. */
  predicate FitsAt(cfg: Config, c: Core, bs: seq<Batch>, accepted: seq<Planned>, g: nat)
    requires Increasing(accepted, |bs|) && g < |accepted|
  {
    var before := Published(cfg, c, bs, accepted, g);
    accepted[g].base == before.visible + 1 &&
    accepted[g].events == Events(cfg, bs[accepted[g].index], before.visible + 1)
  }

  lemma {:induction false} PublishedFrame(cfg: Config, c: Core, bs: seq<Batch>, accepted: seq<Planned>,
                                          bs': seq<Batch>, accepted': seq<Planned>, g: nat)
    requires Increasing(accepted, |bs|) && Increasing(accepted', |bs'|)
    requires bs <= bs' && accepted <= accepted' && g <= |accepted|
    ensures Published(cfg, c, bs, accepted, g) == Published(cfg, c, bs', accepted', g)
  {
    hide Applied;
    if g > 0 { PublishedFrame(cfg, c, bs, accepted, bs', accepted', g - 1); }
  }

  /** Placing the values of the next accepted batch makes its commit. */
  lemma PlaceOneMore(cfg: Config, c: Core, bs: seq<Batch>, accepted: seq<Planned>, g: nat, placed: Placed)
    requires Increasing(accepted, |bs|) && g < |accepted| && FitsAt(cfg, c, bs, accepted, g)
    requires placed ==
      PlaceOps(cfg, bs[accepted[g].index].ops + accepted[g].events, Published(cfg, c, bs, accepted, g).vlog)
    ensures var before, after := Published(cfg, c, bs, accepted, g), Published(cfg, c, bs, accepted, g + 1);
      after.commits == before.commits + [Commit(accepted[g].base, placed.entries)] && after.vlog == placed.vlog
  {
    hide PlaceOps, Events;
  }

  predicate FitsAll(cfg: Config, c: Core, bs: seq<Batch>, accepted: seq<Planned>) {
    Increasing(accepted, |bs|) && forall g :: 0 <= g < |accepted| ==> FitsAt(cfg, c, bs, accepted, g)
  }

  /** A batch more, rejected: what fitted still fits. */
  lemma FitsWithout(cfg: Config, c: Core, bs: seq<Batch>, b: Batch, accepted: seq<Planned>)
    requires FitsAll(cfg, c, bs, accepted)
    ensures FitsAll(cfg, c, bs + [b], accepted)
    ensures Published(cfg, c, bs, accepted, |accepted|) == Published(cfg, c, bs + [b], accepted, |accepted|)
  {
    forall g | 0 <= g < |accepted| ensures FitsAt(cfg, c, bs + [b], accepted, g) {
      assert FitsAt(cfg, c, bs, accepted, g);
      PublishedFrame(cfg, c, bs, accepted, bs + [b], accepted, g);
    }
    PublishedFrame(cfg, c, bs, accepted, bs + [b], accepted, |accepted|);
  }

  /** A batch more, accepted right after the others. */
  lemma FitsWith(cfg: Config, c: Core, bs: seq<Batch>, b: Batch, accepted: seq<Planned>, last: Planned)
    requires FitsAll(cfg, c, bs, accepted) && last.index == |bs|
    requires var before := Published(cfg, c, bs, accepted, |accepted|);
      last.base == before.visible + 1 && last.events == Events(cfg, b, before.visible + 1)
    ensures FitsAll(cfg, c, bs + [b], accepted + [last])
    ensures Published(cfg, c, bs + [b], accepted + [last], |accepted| + 1) ==
            Applied(cfg, Published(cfg, c, bs, accepted, |accepted|), b)
  {
    hide Applied;
    forall g | 0 <= g <= |accepted|
      ensures Published(cfg, c, bs, accepted, g) == Published(cfg, c, bs + [b], accepted + [last], g)
    {
      PublishedFrame(cfg, c, bs, accepted, bs + [b], accepted + [last], g);
    }
    forall g | 0 <= g < |accepted| ensures FitsAt(cfg, c, bs + [b], accepted + [last], g) {
      assert FitsAt(cfg, c, bs, accepted, g);
    }
  }

  /** The plan of `bs` is exactly what applying its batches one by one does. */
  predicate PlanFits(cfg: Config, c: Core, bs: seq<Batch>, plan: Plan, after: Core) {
    FitsAll(cfg, c, bs, plan.accepted) && Published(cfg, c, bs, plan.accepted, |plan.accepted|) == after &&
    plan.next == after.visible + 1
  }

  lemma EmptyPlan(cfg: Config, c: Core)
    ensures PlanFits(cfg, c, [], PlanOf(cfg, c.visible + 1, []), OneByOne(cfg, c, []))
  {
  }

  lemma PlanStep(cfg: Config, c: Core, bs: seq<Batch>, b: Batch)
    requires PlanFits(cfg, c, bs, PlanOf(cfg, c.visible + 1, bs), OneByOne(cfg, c, bs))
    ensures PlanFits(cfg, c, bs + [b], PlanOf(cfg, c.visible + 1, bs + [b]), OneByOne(cfg, c, bs + [b]))
  {
    hide ApproxSize, PlaceOps, Applied, AllOps, Events;
    AppliedVisible(cfg, OneByOne(cfg, c, bs), b);
    var was, before := PlanOf(cfg, c.visible + 1, bs), OneByOne(cfg, c, bs);
    assert (bs + [b])[..|bs|] == bs;
    TwinsReject(cfg, before.visible, b);
    if Rejection(cfg, before.visible, b).Some? {
      FitsWithout(cfg, c, bs, b, was.accepted);
    } else {
      FitsWith(cfg, c, bs, b, was.accepted, Planned(|bs|, was.next, Events(cfg, b, was.next)));
    }
  }

  /** Phase 0 accepts exactly the batches that applying them one by one would apply, and hands out
      exactly the seqnos and trigger events those would get. */
  lemma {:induction false} PlanIsOneByOne(cfg: Config, c: Core, bs: seq<Batch>)
    ensures PlanFits(cfg, c, bs, PlanOf(cfg, c.visible + 1, bs), OneByOne(cfg, c, bs))
  {
    hide *;
    if bs == [] {
      EmptyPlan(cfg, c);
    } else {
      PlanIsOneByOne(cfg, c, bs[..|bs| - 1]);
      PlanStep(cfg, c, bs[..|bs| - 1], bs[|bs| - 1]);
      assert bs[..|bs| - 1] + [bs[|bs| - 1]] == bs;
    }
  }

  // ---------------------------------------------------------------- the two methods

  ghost predicate NoFaults(f: Faults) {
    (forall n :: !f.vlogAppend(n) && !f.walAppend(n)) && !f.vlogSync && !f.walSync && (forall c :: !f.tooLong(c))
  }

  /** Slots of accepted batches of rank `from` and up are settled, Ok exactly below `published`;
      rejected batches keep their verdict. */
  ghost predicate SettledFrom(planned: seq<Option<Result>>, slots: seq<Option<Result>>, accepted: seq<Planned>,
                              from: nat, published: nat)
  {
    |slots| == |planned| && Increasing(accepted, |planned|) &&
    (forall g :: 0 <= g < |accepted| ==> planned[accepted[g].index].None?) &&
    (forall i :: 0 <= i < |planned| && planned[i].Some? ==> slots[i] == planned[i]) &&
    (forall g :: from <= g < |accepted| ==>
      slots[accepted[g].index].Some? && (slots[accepted[g].index] == Some(Ok) <==> g < published))
  }

  /** Ranks `from` to `to` get a result, the first of them its own; nothing else changes. */
  ghost predicate Given(before: seq<Option<Result>>, after: seq<Option<Result>>, accepted: seq<Planned>,
                        from: nat, to: nat, first: Result, others: Result)
  {
    Increasing(accepted, |before|) && from <= to <= |accepted| && |after| == |before| &&
    (forall g :: from <= g < to ==> after[accepted[g].index] == Some(if g == from then first else others)) &&
    (forall i :: 0 <= i < |before| && (forall g :: from <= g < to ==> accepted[g].index != i) ==> after[i] == before[i])
  }

  lemma SettledByGiving(planned: seq<Option<Result>>, before: seq<Option<Result>>, after: seq<Option<Result>>,
                        accepted: seq<Planned>, from: nat, to: nat, first: Result, others: Result)
    requires Given(before, after, accepted, from, to, first, others) && SettledFrom(planned, before, accepted, to, 0)
    ensures first != Ok && others != Ok ==> SettledFrom(planned, after, accepted, from, 0)
    ensures from == 0 && first == Ok && others == Ok ==> SettledFrom(planned, after, accepted, 0, to)
  {
  }

  /** Every batch has one result: its verdict if rejected, else Ok exactly if it was published. */
  ghost predicate OneResultEach(cfg: Config, next: First, bs: seq<Batch>, published: nat, results: seq<Result>)
  {
    |results| == |bs| &&
    forall i :: 0 <= i < |bs| ==>
      (Verdict(cfg, next, bs, i).Some? ==> results[i] == Err(Verdict(cfg, next, bs, i).value)) &&
      (Verdict(cfg, next, bs, i).None? ==> (results[i] == Ok <==> RankOf(cfg, next, bs, i) < published))
  }

  lemma EverySlotIsFilled(cfg: Config, next: First, bs: seq<Batch>, planned: seq<Option<Result>>,
                          slots: seq<Option<Result>>, accepted: seq<Planned>, published: nat)
    requires PlanOf(cfg, next, bs).accepted == accepted && PlanOf(cfg, next, bs).results == planned
    requires SettledFrom(planned, slots, accepted, 0, published)
    ensures forall i :: 0 <= i < |bs| ==> slots[i].Some?
    ensures forall results: seq<Result> ::
      (|results| == |bs| && forall i :: 0 <= i < |bs| ==> results[i] == slots[i].value)
      ==> OneResultEach(cfg, next, bs, published, results)
  {
    forall i | 0 <= i < |bs|
      ensures slots[i].Some?
      ensures Verdict(cfg, next, bs, i).Some? ==> slots[i] == Some(Err(Verdict(cfg, next, bs, i).value))
      ensures Verdict(cfg, next, bs, i).None? ==> (slots[i] == Some(Ok) <==> RankOf(cfg, next, bs, i) < published)
    {
      PlanAt(cfg, next, bs, i);
    }
  }

  class Writer {
    const cfg: Config
    var visible: SeqNo
    var mem: seq<Version>
    var wal: seq<Commit>
    var vlog: seq<(Bytes, Bytes)>
    var stream: seq<Commit>
    var degraded: bool

    constructor (config: Config)
      ensures cfg == config && !degraded && visible == 0 && mem == [] && wal == [] && vlog == [] && stream == []
    {
      cfg, visible, mem, wal, vlog, stream, degraded := config, 0, [], [], [], [], false;
    }

    /** The state a commit starts from, with no commit made yet. */
    function Start(): Core
      reads this
    {
      Core(visible, vlog, [])
    }

    /** Place a batch's large values; stops at the first append that fails. */
    method PlaceBatch(ops: seq<BatchOp>, f: Faults) returns (ok: bool, large: bool, entries: seq<Entry>)
      modifies this`vlog
      ensures old(vlog) <= vlog
      ensures ok ==> Placed(entries, vlog) == PlaceOps(cfg, ops, old(vlog))
      ensures NoFaults(f) ==> ok
    {
      ok, large, entries := true, false, [];
      var i := 0;
      while i < |ops|
        invariant 0 <= i <= |ops| && ok && old(vlog) <= vlog
        invariant Placed(entries, vlog) == PlaceOps(cfg, ops[..i], old(vlog))
      {
        assert ops[..i + 1][..i] == ops[..i];
        match ops[i] {
          case PutOp(key, value) =>
            if |value| >= cfg.valueThreshold {
              large := true;
              if f.vlogAppend(|vlog|) { return false, large, entries; }
              entries := entries + [Entry(key, InVlog(|vlog|))];
              vlog := vlog + [(key, value)];
            } else {
              entries := entries + [Entry(key, Here(value))];
            }
          case DeleteOp(key) => entries := entries + [Entry(key, Tombstone)];
        }
        i := i + 1;
      }
      assert ops[..i] == ops;
    }

    /** Memtable inserts for one batch. */
    method InsertAll(c: Commit)
      modifies this`mem
      ensures mem == old(mem) + Versions(c)
    {
      var i := 0;
      while i < |c.entries|
        invariant 0 <= i <= |c.entries|
        invariant mem == old(mem) + Versions(c)[..i]
      {
        mem := mem + [Version(c.entries[i].key, c.base + i, c.entries[i].place)];
        i := i + 1;
      }
    }

    /** The commits of `c` are published: visible, in the memtable, in the stream and in the WAL. */
    ghost predicate Committed(c: Core, mem0: seq<Version>, stream0: seq<Commit>, wal0: seq<Commit>)
      reads this
    {
      visible == c.visible && mem == mem0 + AllVersions(c.commits) &&
      stream == stream0 + c.commits && wal == wal0 + c.commits
    }

    /** The single-batch path. */
    method ApplyOne(b: Batch, f: Faults) returns (r: Result)
      modifies this
      ensures r == Ok ==> Committed(Applied(cfg, old(Start()), b), old(mem), old(stream), old(wal))
      ensures r == Ok ==> vlog == Applied(cfg, old(Start()), b).vlog
      ensures r != Ok ==> visible == old(visible) && mem == old(mem) && stream == old(stream)
      ensures Rejection(cfg, old(visible), b).Some? ==>
        r == Err(Rejection(cfg, old(visible), b).value) && wal == old(wal) && vlog == old(vlog) &&
        degraded == old(degraded)
      ensures Rejection(cfg, old(visible), b).None? && NoFaults(f) ==> r == Ok
      ensures r.Err? && r.error !in {TooLarge, SeqnosExhausted} ==> degraded
      ensures old(degraded) ==> degraded
    {
      hide PlaceOps, ApproxSize, Versions, AllVersions;
      var base := visible + 1;
      var events := Events(cfg, b, base);
      if base + |b.ops| + |events| >= MAX_SEQNO { return Err(SeqnosExhausted); }
      if ApproxSize(b.ops + events) >= WAL_RECORD_LIMIT { return Err(TooLarge); }
      var ok, large, entries := PlaceBatch(b.ops + events, f);
      if !ok { degraded := true; return Err(VlogAppendFailed); }
      if large && cfg.syncAlways && f.vlogSync { degraded := true; return Err(VlogSyncFailed); }
      var commit := Commit(base, entries);
      if f.tooLong(commit) { return Err(TooLarge); }
      if f.walAppend(|wal|) { degraded := true; return Err(WalAppendFailed); }
      wal := wal + [commit];
      if cfg.syncAlways && f.walSync { degraded := true; return Err(WalSyncFailed); }
      InsertAll(commit);
      OneCommit(commit);
      assert [] + [commit] == [commit];
      visible := base + |entries| - 1;
      stream := stream + [commit];
      if f.rotate { degraded := true; }
      return Ok;
    }

    // -------------------------------------------------------------- the group

    /** Give the accepted batches of rank `from` up to `to` their results: the first its own, the
        others the second one. */
    method Settle(results: seq<Option<Result>>, accepted: seq<Planned>, from: nat, to: nat, first: Result,
                  others: Result)
      returns (out: seq<Option<Result>>)
      requires Increasing(accepted, |results|) && from <= to <= |accepted|
      ensures Given(results, out, accepted, from, to, first, others)
    {
      out := results;
      var g := from;
      while g < to
        invariant from <= g <= to && Given(results, out, accepted, from, g, first, others)
      {
        out := out[accepted[g].index := Some(if g == from then first else others)];
        g := g + 1;
      }
    }

    /** Phase 0: per-batch validation and seqno assignment. */
    method PlanGroup(bs: seq<Batch>) returns (accepted: seq<Planned>, results: seq<Option<Result>>)
      ensures PlanOf(cfg, visible + 1, bs).accepted == accepted
      ensures PlanOf(cfg, visible + 1, bs).results == results
    {
      var next: First := visible + 1;
      accepted, results := [], [];
      var i := 0;
      while i < |bs|
        invariant 0 <= i <= |bs|
        invariant PlanOf(cfg, visible + 1, bs[..i]) == Plan(accepted, next, results)
      {
        assert bs[..i + 1][..i] == bs[..i];
        var b := bs[i];
        var events := Events(cfg, b, next);
        if ApproxSize(b.ops + events) >= WAL_RECORD_LIMIT {
          results := results + [Some(Err(TooLarge))];
        } else if next + |b.ops| + |events| >= MAX_SEQNO {
          results := results + [Some(Err(SeqnosExhausted))];
        } else {
          accepted := accepted + [Planned(i, next, events)];
          next := next + |b.ops| + |events|;
          results := results + [None];
        }
        i := i + 1;
      }
      assert bs[..i] == bs;
    }

    /** Phase 1: place large values until an append fails. */
    method PlaceGroup(bs: seq<Batch>, accepted: seq<Planned>, f: Faults)
      returns (placed: seq<Commit>, anyLarge: bool)
      requires FitsAll(cfg, Start(), bs, accepted)
      modifies this`vlog
      ensures |placed| <= |accepted| && Published(cfg, old(Start()), bs, accepted, |placed|).commits == placed
      ensures Published(cfg, old(Start()), bs, accepted, |placed|).vlog <= vlog && old(vlog) <= vlog
      ensures |placed| == |accepted| ==> vlog == Published(cfg, old(Start()), bs, accepted, |accepted|).vlog
      ensures NoFaults(f) ==> |placed| == |accepted|
    {
      placed, anyLarge := [], false;
      ghost var c := Start();
      hide PlaceOps, Applied;
      while |placed| < |accepted|
        invariant |placed| <= |accepted|
        invariant Published(cfg, c, bs, accepted, |placed|).commits == placed
        invariant vlog == Published(cfg, c, bs, accepted, |placed|).vlog && old(vlog) <= vlog
      {
        var g := |placed|;
        assert FitsAt(cfg, c, bs, accepted, g);
        var b := bs[accepted[g].index];
        var ok, large, entries := PlaceBatch(b.ops + accepted[g].events, f);
        anyLarge := anyLarge || large;
        if !ok { return; }
        PlaceOneMore(cfg, c, bs, accepted, g, Placed(entries, vlog));
        placed := placed + [Commit(accepted[g].base, entries)];
      }
    }

    /** Phase 3: one WAL record per placed batch, until one fails. */
    method AppendGroup(placed: seq<Commit>, f: Faults) returns (n: nat, tooLong: bool)
      modifies this`wal
      ensures n <= |placed| && wal == old(wal) + placed[..n]
      ensures tooLong ==> n < |placed| && f.tooLong(placed[n])
      ensures NoFaults(f) ==> n == |placed|
    {
      n, tooLong := 0, false;
      while n < |placed|
        invariant 0 <= n <= |placed| && wal == old(wal) + placed[..n] && !tooLong
      {
        if f.tooLong(placed[n]) { return n, true; }
        if f.walAppend(|wal|) { return n, false; }
        wal := wal + [placed[n]];
        n := n + 1;
      }
    }

    /** Phase 5: memtable inserts and stream publication of the first `n` commits. */
    method InsertGroup(placed: seq<Commit>, n: nat)
      requires n <= |placed|
      modifies this`mem
      ensures mem == old(mem) + AllVersions(placed[..n])
    {
      var g := 0;
      while g < n
        invariant 0 <= g <= n && mem == old(mem) + AllVersions(placed[..g])
      {
        assert placed[..g + 1][..g] == placed[..g];
        InsertAll(placed[g]);
        Assoc(old(mem), AllVersions(placed[..g]), Versions(placed[g]));
        g := g + 1;
      }
    }

    method StreamGroup(placed: seq<Commit>, n: nat)
      requires n <= |placed|
      modifies this`stream
      ensures stream == old(stream) + placed[..n]
    {
      var g := 0;
      while g < n
        invariant 0 <= g <= n && stream == old(stream) + placed[..g]
      {
        stream := stream + [placed[g]];
        g := g + 1;
      }
    }

    /** Phases 5 and 6: the first `n` records are durable; publish them and rotate. */
    method Publish(placed: seq<Commit>, n: nat, rotate: bool)
      requires n <= |placed|
      modifies this`visible, this`mem, this`stream, this`degraded
      ensures visible == if n == 0 then old(visible) else placed[n - 1].base + |placed[n - 1].entries| - 1
      ensures mem == old(mem) + AllVersions(placed[..n]) && stream == old(stream) + placed[..n]
      ensures old(degraded) ==> degraded
    {
      if n > 0 {
        InsertGroup(placed, n);
        visible := placed[n - 1].base + |placed[n - 1].entries| - 1;
        StreamGroup(placed, n);
        if rotate { degraded := true; }
      }
    }

    /** Phases 2 to 6 for the placed batches. */
    method Finish(placed: seq<Commit>, anyLarge: bool, partial: bool, slots0: seq<Option<Result>>,
                  accepted: seq<Planned>, f: Faults, ghost planned: seq<Option<Result>>)
      returns (slots: seq<Option<Result>>, n: nat)
      requires |placed| <= |accepted| && SettledFrom(planned, slots0, accepted, |placed|, 0)
      modifies this`visible, this`mem, this`stream, this`wal, this`degraded
      ensures n <= |placed| && SettledFrom(planned, slots, accepted, 0, n)
      ensures visible == if n == 0 then old(visible) else placed[n - 1].base + |placed[n - 1].entries| - 1
      ensures mem == old(mem) + AllVersions(placed[..n]) && stream == old(stream) + placed[..n]
      ensures n > 0 ==> wal == old(wal) + placed[..n]
      ensures old(wal) <= wal && (old(degraded) ==> degraded)
      ensures NoFaults(f) ==> n == |placed| && wal == old(wal) + placed
      ensures n < |placed| ==> degraded || exists c :: c in placed && f.tooLong(c)
    {
      hide Given;
      slots := slots0;
      if anyLarge && cfg.syncAlways && f.vlogSync {
        degraded := true;
        slots := Settle(slots0, accepted, 0, |placed|, Err(VlogSyncFailed), Err(Aborted));
        SettledByGiving(planned, slots0, slots, accepted, 0, |placed|, Err(VlogSyncFailed), Err(Aborted));
        return slots, 0;
      }
      var tooLong;
      n, tooLong := AppendGroup(placed, f);
      var hardFailure := partial;
      if n < |placed| {
        if !tooLong { degraded, hardFailure := true, true; }
        var why := Err(if tooLong then TooLarge else WalAppendFailed);
        slots := Settle(slots0, accepted, n, |placed|, why, Err(Aborted));
        SettledByGiving(planned, slots0, slots, accepted, n, |placed|, why, Err(Aborted));
      }
      ghost var tail := slots;
      if cfg.syncAlways && n > 0 && f.walSync {
        degraded := true;
        slots := Settle(slots, accepted, 0, n, Err(WalSyncFailed), Err(Aborted));
        SettledByGiving(planned, tail, slots, accepted, 0, n, Err(WalSyncFailed), Err(Aborted));
        return slots, 0;
      }
      Publish(placed, n, !hardFailure && f.rotate);
      slots := Settle(slots, accepted, 0, n, Ok, Ok);
      SettledByGiving(planned, tail, slots, accepted, 0, n, Ok, Ok);
    }

    /** The group: one value-log sync and one WAL sync for all its batches.
     *
     * `published` accepted batches end up visible: a prefix, and the state they leave is that of
     * applying them one by one.  Each batch gets exactly one result, and Ok exactly when it is
     * visible. */
    method ApplyGroup(bs: seq<Batch>, f: Faults) returns (results: seq<Result>, ghost published: nat)
      modifies this
      ensures var plan := PlanOf(cfg, old(visible) + 1, bs);
        Increasing(plan.accepted, |bs|) && published <= |plan.accepted| &&
        var p := Published(cfg, old(Start()), bs, plan.accepted, published);
        visible == p.visible && mem == old(mem) + AllVersions(p.commits) && stream == old(stream) + p.commits &&
        (published > 0 ==> wal == old(wal) + p.commits) && p.vlog <= vlog
      ensures OneResultEach(cfg, old(visible) + 1, bs, published, results)
      ensures NoFaults(f) ==> published == |PlanOf(cfg, old(visible) + 1, bs).accepted|
      ensures NoFaults(f) ==> Committed(OneByOne(cfg, old(Start()), bs), old(mem), old(stream), old(wal))
      ensures NoFaults(f) ==> vlog == OneByOne(cfg, old(Start()), bs).vlog
      ensures old(wal) <= wal && old(vlog) <= vlog && (old(degraded) ==> degraded)
      ensures published < |PlanOf(cfg, old(visible) + 1, bs).accepted| ==> degraded || exists c :: f.tooLong(c)
    {
      hide ApproxSize, PlaceOps, Applied, AllOps, Events, PlanOf, OneByOne, AllVersions, Published, OneResultEach,
           Given;
      ghost var c := Start();
      PlanIsOneByOne(cfg, c, bs);
      PlanIncreasing(cfg, visible + 1, bs);
      var accepted, slots := PlanGroup(bs);
      ghost var planned := slots;
      var placed, anyLarge := PlaceGroup(bs, accepted, f);
      var partial := |placed| < |accepted|;
      if partial {
        degraded := true;
        slots := Settle(slots, accepted, |placed|, |accepted|, Err(VlogAppendFailed), Err(Aborted));
        SettledByGiving(planned, planned, slots, accepted, |placed|, |accepted|, Err(VlogAppendFailed), Err(Aborted));
      }
      slots, published := Finish(placed, anyLarge, partial, slots, accepted, f, planned);
      PublishedRecords(cfg, c, bs, accepted, placed, published);
      PublishedVlogGrows(cfg, c, bs, accepted, published, |placed|);
      assert placed[..|placed|] == placed;
      EverySlotIsFilled(cfg, c.visible + 1, bs, planned, slots, accepted, published);
      results := Deliver(slots);
    }

    method Deliver(slots: seq<Option<Result>>) returns (results: seq<Result>)
      requires forall i :: 0 <= i < |slots| ==> slots[i].Some?
      ensures |results| == |slots| && forall i :: 0 <= i < |slots| ==> results[i] == slots[i].value
    {
      results := [];
      var i := 0;
      while i < |slots|
        invariant 0 <= i <= |slots| && |results| == i
        invariant forall j :: 0 <= j < i ==> results[j] == slots[j].value
      {
        results := results + [slots[i].value];
        i := i + 1;
      }
    }
  }
}
