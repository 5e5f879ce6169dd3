/** The commit queue: writers enqueue and park, one committer drains and serves chunk after chunk,
 * and a writer may pull its batch back out while the store is degraded or closing.
 *
 * The protocol is a state machine over its critical sections; class Committer performs them.
 */
module CommitQueue {
  import opened Keys
  import opened Types
  import opened GroupCommit
  import opened Occ

  /** Where a request took effect, and how many versions it wrote from there on. */
  datatype Span = Span(at: SeqNo, width: nat)

  /** Requests are named by their ticket, the order they were enqueued in.  `spans`, `missed` and
      `others` record history: where each served request took effect, whether a trigger event ahead
      of it in its group hit one of its keys, and which seqnos other write paths used. */
  datatype State = State(
    requests: seq<Request>,
    queue: seq<nat>, drained: seq<nat>,
    outcomes: map<nat, Outcome>, withdrawn: set<nat>,
    mem: seq<Version>, vlog: seq<(Bytes, Bytes)>,
    degraded: bool, closing: bool,
    spans: map<nat, Span>, missed: map<nat, bool>,
    others: set<SeqNo>)

  datatype Event =
    | Enqueue(request: Request)
    | Withdraw(ticket: nat, sawDegraded: bool)
    | Drain
    | Serve(unreadable: Bytes -> bool, published: nat, mem: seq<Version>, vlog: seq<(Bytes, Bytes)>,
            answers: seq<Outcome>, degraded: bool)
    | Refuse
    | WriteElsewhere(versions: seq<Version>, vlog: seq<(Bytes, Bytes)>)
    | Degrade
    | Close

  // ---------------------------------------------------------------- chunks

  function GroupByteCap(first: nat): nat {
    if first <= 0x2_0000 then first + 0x2_0000 else 0x10_0000
  }

  function Total(bytes: seq<nat>): nat {
    if bytes == [] then 0 else Total(bytes[..|bytes| - 1]) + bytes[|bytes| - 1]
  }

  /** A chunk holds its first batch whatever its size, then as many as fit under the cap. */
  predicate IsChunk(bytes: seq<nat>, n: nat) {
    1 <= n <= |bytes| &&
    (n > 1 ==> Total(bytes[..n]) <= GroupByteCap(bytes[0])) &&
    (n < |bytes| ==> Total(bytes[..n + 1]) > GroupByteCap(bytes[0]))
  }

  predicate Below(ts: seq<nat>, n: nat) {
    forall i :: 0 <= i < |ts| ==> ts[i] < n
  }

  function BytesOf(requests: seq<Request>, ts: seq<nat>): (bytes: seq<nat>)
    requires Below(ts, |requests|)
    ensures |bytes| == |ts| && forall i :: 0 <= i < |ts| ==> bytes[i] == requests[ts[i]].bytes
  {
    if ts == [] then [] else BytesOf(requests, ts[..|ts| - 1]) + [requests[ts[|ts| - 1]].bytes]
  }

  function GroupOf(requests: seq<Request>, ts: seq<nat>): (group: seq<Request>)
    requires Below(ts, |requests|)
    ensures |group| == |ts| && forall i :: 0 <= i < |ts| ==> group[i] == requests[ts[i]]
  {
    if ts == [] then [] else GroupOf(requests, ts[..|ts| - 1]) + [requests[ts[|ts| - 1]]]
  }

  lemma {:induction false} TotalGrows(bytes: seq<nat>, i: nat, j: nat)
    requires i <= j <= |bytes|
    ensures Total(bytes[..i]) <= Total(bytes[..j])
  {
    if i < j {
      TotalGrows(bytes, i, j - 1);
      assert bytes[..j][..j - 1] == bytes[..j - 1];
    }
  }

  /** The chunk rule leaves no choice. */
  lemma ChunkIsUnique(bytes: seq<nat>, m: nat, n: nat)
    requires IsChunk(bytes, m) && IsChunk(bytes, n)
    ensures m == n
  {
    if m < n { TotalGrows(bytes, m + 1, n); }
    if n < m { TotalGrows(bytes, n + 1, m); }
  }

  method NextChunk(bytes: seq<nat>) returns (end: nat)
    requires bytes != []
    ensures IsChunk(bytes, end)
  {
    var total, cap := bytes[0], GroupByteCap(bytes[0]);
    end := 1;
    assert bytes[..1][..0] == [];
    while end < |bytes| && total + bytes[end] <= cap
      invariant 1 <= end <= |bytes| && total == Total(bytes[..end]) && (end > 1 ==> total <= cap)
    {
      assert bytes[..end + 1][..end] == bytes[..end];
      total := total + bytes[end];
      end := end + 1;
    }
    if end < |bytes| { assert bytes[..end + 1][..end] == bytes[..end]; }
  }

  /** The committer's chunk, a prefix of what it drained. */
  ghost function ChunkOf(st: State): (n: nat)
    requires Below(st.drained, |st.requests|) && st.drained != []
    ensures IsChunk(BytesOf(st.requests, st.drained), n) && 1 <= n <= |st.drained|
  {
    ChunkExists(BytesOf(st.requests, st.drained));
    var n: nat :| IsChunk(BytesOf(st.requests, st.drained), n);
    n
  }

  lemma ChunkExists(bytes: seq<nat>)
    requires bytes != []
    ensures exists n :: IsChunk(bytes, n)
  {
    var n := 1;
    assert bytes[..1][..0] == [];
    while n < |bytes| && Total(bytes[..n + 1]) <= GroupByteCap(bytes[0])
      invariant 1 <= n <= |bytes| && (n > 1 ==> Total(bytes[..n]) <= GroupByteCap(bytes[0]))
    {
      n := n + 1;
    }
    assert IsChunk(bytes, n);
  }

  // ---------------------------------------------------------------- steps

  function Assign<T>(m: map<nat, T>, ts: seq<nat>, vs: seq<T>): map<nat, T>
    requires |ts| == |vs|
  {
    if ts == [] then m else Assign(m, ts[..|ts| - 1], vs[..|vs| - 1])[ts[|ts| - 1] := vs[|vs| - 1]]
  }

  predicate Distinct(ts: seq<nat>) {
    forall i, j :: 0 <= i < j < |ts| ==> ts[i] != ts[j]
  }

  lemma {:induction false} AssignedAt<T>(m: map<nat, T>, ts: seq<nat>, vs: seq<T>, i: nat)
    requires |ts| == |vs| && Distinct(ts) && i < |ts|
    ensures ts[i] in Assign(m, ts, vs) && Assign(m, ts, vs)[ts[i]] == vs[i]
  {
    var n := |ts| - 1;
    if i < n { AssignedAt(m, ts[..n], vs[..n], i); }
  }

  lemma {:induction false} AssignedElse<T>(m: map<nat, T>, ts: seq<nat>, vs: seq<T>, t: nat)
    requires |ts| == |vs| && t !in ts
    ensures t in Assign(m, ts, vs) <==> t in m
    ensures t in m ==> Assign(m, ts, vs)[t] == m[t]
  {
    var n := |ts| - 1;
    if ts != [] {
      assert ts[n] in ts;
      AssignedElse(m, ts[..n], vs[..n], t);
    }
  }

  /** `m'` is `m` with the answers `vs` for the tickets `ts`. */
  ghost predicate Updated<T>(m: map<nat, T>, ts: seq<nat>, vs: seq<T>, m': map<nat, T>) {
    |ts| == |vs| && (forall i :: 0 <= i < |ts| ==> ts[i] in m' && m'[ts[i]] == vs[i]) &&
    (forall t :: t !in ts ==> (t in m' <==> t in m)) && (forall t :: t !in ts && t in m ==> m'[t] == m[t])
  }

  lemma AssignUpdates<T>(m: map<nat, T>, ts: seq<nat>, vs: seq<T>)
    requires |ts| == |vs| && Distinct(ts)
    ensures Updated(m, ts, vs, Assign(m, ts, vs))
  {
    forall i | 0 <= i < |ts| ensures ts[i] in Assign(m, ts, vs) && Assign(m, ts, vs)[ts[i]] == vs[i] {
      AssignedAt(m, ts, vs, i);
    }
    forall t: nat | t !in ts ensures (t in Assign(m, ts, vs) <==> t in m) && (t in m ==> Assign(m, ts, vs)[t] == m[t]) {
      AssignedElse(m, ts, vs, t);
    }
  }

  ghost predicate Enabled(cfg: Config, st: State, e: Event)
    requires Below(st.drained, |st.requests|)
  {
    match e
    case Enqueue(r) => r.validate.Some? ==> r.validate.value.snap <= |st.mem|
    case Withdraw(t, saw) => t in st.queue && (if saw then st.degraded else st.closing)
    case Drain => st.drained == []
    case Serve(unreadable, published, mem, vlog, answers, degraded) =>
      st.drained != [] && (st.degraded ==> degraded) &&
      var group := GroupOf(st.requests, st.drained[..ChunkOf(st)]);
      Ran(cfg, st.mem, st.vlog, group, unreadable, published, mem, answers) &&
      st.vlog <= vlog && AfterGroup(cfg, st.mem, st.vlog, group, unreadable, published).vlog <= vlog
    case Refuse => st.drained != [] && st.degraded
    case WriteElsewhere(versions, vlog) => DenseFrom(|st.mem|, versions) && st.vlog <= vlog
    case Degrade => true
    case Close => true
  }

  /** Where the members of a group took effect. */
  ghost function SpansOf(cfg: Config, mem: seq<Version>, vlog: seq<(Bytes, Bytes)>, group: seq<Request>,
                         unreadable: Bytes -> bool, published: nat): (s: seq<Span>)
    ensures |s| == |group|
  {
    seq(|group|, i requires 0 <= i < |group| =>
      Span(PointOf(cfg, mem, vlog, group, unreadable, published, i),
           if group[i].batch.ops == [] then 0 else WidthOf(cfg, mem, vlog, group, unreadable, published, i)))
  }

  /** Which members had a key hit by a trigger event published ahead of them. */
  ghost function MissedOf(cfg: Config, mem: seq<Version>, group: seq<Request>, unreadable: Bytes -> bool,
                          published: nat): (s: seq<bool>)
    ensures |s| == |group|
  {
    seq(|group|, i requires 0 <= i < |group| =>
      group[i].validate.Some? &&
      exists k :: k in group[i].validate.value.keys && k in EventsAhead(cfg, mem, group, unreadable, published, i))
  }

  ghost function Next(cfg: Config, st: State, e: Event): State
    requires Below(st.drained, |st.requests|) && Enabled(cfg, st, e)
  {
    hide AfterGroup, PointOf, WidthOf, EventsAhead, OutcomeFits, PlanOf, Admit, DenseFrom, BytesOf, IsChunk;
    match e
    case Enqueue(r) => st.(requests := st.requests + [r], queue := st.queue + [|st.requests|])
    case Withdraw(t, saw) =>
      st.(queue := Without(st.queue, t), withdrawn := st.withdrawn + {t},
          outcomes := st.outcomes[t := if saw then Background else Closed])
    case Drain => st.(queue := [], drained := st.queue)
    case Serve(unreadable, published, mem, vlog, answers, degraded) =>
      var n := ChunkOf(st);
      var group := GroupOf(st.requests, st.drained[..n]);
      st.(drained := st.drained[n..], outcomes := Assign(st.outcomes, st.drained[..n], answers), mem := mem,
          vlog := vlog, degraded := degraded,
          spans := Assign(st.spans, st.drained[..n], SpansOf(cfg, st.mem, st.vlog, group, unreadable, published)),
          missed := Assign(st.missed, st.drained[..n], MissedOf(cfg, st.mem, group, unreadable, published)))
    case Refuse =>
      var n := ChunkOf(st);
      st.(drained := st.drained[n..], outcomes := Assign(st.outcomes, st.drained[..n], seq(n, _ => Background)))
    case WriteElsewhere(versions, vlog) =>
      st.(mem := st.mem + versions, vlog := vlog, others := st.others + Interval(|st.mem|, |versions|))
    case Degrade => st.(degraded := true)
    case Close => st.(closing := true)
  }

  function Interval(from: SeqNo, n: nat): (s: set<SeqNo>)
    ensures forall x :: x in s <==> from <= x < from + n
  {
    if n == 0 then {} else {from + n - 1} + Interval(from, n - 1)
  }

  function Without(ts: seq<nat>, t: nat): (r: seq<nat>)
    ensures forall x :: x in r ==> x in ts && x != t
    ensures forall x :: x in ts && x != t ==> x in r
    ensures Distinct(ts) ==> Distinct(r)
  {
    if ts == [] then []
    else if ts[0] == t then Without(ts[1..], t)
    else
      assert Distinct(ts) ==> Distinct(ts[1..]) && ts[0] !in ts[1..];
      [ts[0]] + Without(ts[1..], t)
  }

  // ---------------------------------------------------------------- invariant

  /** Each ticket waits, is being served, or has been answered: exactly one of the three. */
  predicate Placed(st: State) {
    Distinct(st.queue) && Distinct(st.drained) &&
    Below(st.queue, |st.requests|) && Below(st.drained, |st.requests|) &&
    (forall t :: t in st.queue ==> t !in st.drained && t !in st.outcomes) &&
    (forall t :: t in st.drained ==> t !in st.outcomes) &&
    (forall t :: t in st.outcomes ==> t < |st.requests|) &&
    (forall t: nat :: t < |st.requests| ==> t in st.queue || t in st.drained || t in st.outcomes)
  }

  predicate Withdrawals(st: State) {
    (forall t :: t in st.withdrawn ==>
      t in st.outcomes && (st.outcomes[t] == Background || st.outcomes[t] == Closed)) &&
    (forall t :: t in st.outcomes && st.outcomes[t] == Closed ==> t in st.withdrawn)
  }

  predicate IsDone(st: State, t: nat) {
    t in st.outcomes && st.outcomes[t] == Done
  }

  predicate Owns(st: State, t: nat, n: SeqNo) {
    IsDone(st, t) && t in st.spans && Covers(st.spans[t], n)
  }

  /** Between its snapshot and where it took effect nothing wrote a key it validated. */
  predicate Serializable(mem: seq<Version>, v: Validation, at: SeqNo) {
    forall k :: k in v.keys ==> !WrittenIn(mem, k, v.snap, at)
  }

  /** A request told Done is in the store, whole, and won its keys unless an event slipped by. */
  predicate KeptAt(mem: seq<Version>, vlog: seq<(Bytes, Bytes)>, r: Request, span: Span, missed: bool) {
    span.at + span.width <= |mem| && |r.batch.ops| <= span.width && (r.batch.ops == [] ==> span.width == 0) &&
    Sits(mem, vlog, span.at, r.batch.ops) &&
    (r.validate.Some? ==> (Serializable(mem, r.validate.value, span.at) <==> !missed))
  }

  predicate Kept(st: State, t: nat)
    requires t < |st.requests|
  {
    t in st.spans && t in st.missed && KeptAt(st.mem, st.vlog, st.requests[t], st.spans[t], st.missed[t])
  }

  predicate Snapshots(st: State) {
    forall t :: 0 <= t < |st.requests| && st.requests[t].validate.Some? ==>
      st.requests[t].validate.value.snap <= |st.mem|
  }

  /** Every version was written by exactly one request told Done, or by another write path. */
  ghost predicate Attributed(st: State) {
    (forall n: SeqNo :: n < |st.mem| ==> n in st.others || exists t :: Owns(st, t, n)) &&
    (forall n, t :: n in st.others ==> !Owns(st, t, n)) &&
    (forall n: SeqNo, t, u :: Owns(st, t, n) && Owns(st, u, n) ==> t == u)
  }

  /** What the store holds for the requests told Done, and nothing besides. */
  ghost predicate Settled(st: State) {
    Dense(st.mem) && (forall t: nat :: IsDone(st, t) ==> t < |st.requests| && Kept(st, t)) && Attributed(st) &&
    (forall n :: n in st.others ==> n < |st.mem|)
  }

  ghost predicate Inv(st: State) {
    Placed(st) && Withdrawals(st) && Snapshots(st) && Settled(st)
  }

  // ---------------------------------------------------------------- one group, summed up

  /** What serving a group does to the store and tells its members. */
  ghost predicate Served(mem: seq<Version>, vlog: seq<(Bytes, Bytes)>, group: seq<Request>, mem': seq<Version>,
                         vlog': seq<(Bytes, Bytes)>, answers: seq<Outcome>, spans: seq<Span>, missed: seq<bool>)
  {
    mem <= mem' && vlog <= vlog' && Dense(mem') && |answers| == |group| && |spans| == |group| && |missed| == |group| &&
    (forall i :: 0 <= i < |group| ==> answers[i] != Background && answers[i] != Closed) &&
    (forall i :: 0 <= i < |group| && answers[i] == Done ==>
      |mem| <= spans[i].at && KeptAt(mem', vlog', group[i], spans[i], missed[i])) &&
    (forall i, j :: 0 <= i < j < |group| && answers[i] == Done ==> spans[i].at + spans[i].width <= spans[j].at) &&
    (forall n: SeqNo :: |mem| <= n < |mem'| ==> SomeoneCovers(answers, spans, n))
  }

  predicate SomeoneCovers(answers: seq<Outcome>, spans: seq<Span>, n: SeqNo) {
    exists i :: 0 <= i < |answers| && i < |spans| && answers[i] == Done && Covers(spans[i], n)
  }

  predicate Covers(s: Span, n: SeqNo) {
    s.at <= n < s.at + s.width
  }

  predicate SnapshotsUpTo(group: seq<Request>, visible: SeqNo) {
    forall i :: 0 <= i < |group| && group[i].validate.Some? ==> group[i].validate.value.snap <= visible
  }

  lemma GroupIsServed(cfg: Config, mem: seq<Version>, vlog: seq<(Bytes, Bytes)>, group: seq<Request>,
                      unreadable: Bytes -> bool, published: nat, mem': seq<Version>, vlog': seq<(Bytes, Bytes)>,
                      answers: seq<Outcome>)
    requires Dense(mem) && Ran(cfg, mem, vlog, group, unreadable, published, mem', answers)
    requires SnapshotsUpTo(group, |mem|)
    requires vlog <= vlog' && AfterGroup(cfg, mem, vlog, group, unreadable, published).vlog <= vlog'
    ensures Served(mem, vlog, group, mem', vlog', answers, SpansOf(cfg, mem, vlog, group, unreadable, published),
                   MissedOf(cfg, mem, group, unreadable, published))
  {
    hide Ran, AfterGroup, PointOf, WidthOf, EventsAhead, KeptAt;
    var spans, missed := SpansOf(cfg, mem, vlog, group, unreadable, published),
      MissedOf(cfg, mem, group, unreadable, published);
    RanKeepsDense(cfg, mem, vlog, group, unreadable, published, mem', answers);
    forall i | 0 <= i < |group| && answers[i] == Done
      ensures |mem| <= spans[i].at && KeptAt(mem', vlog', group[i], spans[i], missed[i])
    {
      MemberIsKept(cfg, mem, vlog, group, unreadable, published, mem', vlog', answers, i);
    }
    forall i, j | 0 <= i < j < |group| && answers[i] == Done ensures spans[i].at + spans[i].width <= spans[j].at {
      MembersInOrder(cfg, mem, vlog, group, unreadable, published, mem', answers, i, j);
    }
    forall n: SeqNo | |mem| <= n < |mem'|
      ensures SomeoneCovers(answers, spans, n)
    {
      var i := VisibleIsDone(cfg, mem, vlog, group, unreadable, published, mem', answers, n);
      assert Covers(spans[i], n);
    }
  }

  lemma RanKeepsDense(cfg: Config, mem: seq<Version>, vlog: seq<(Bytes, Bytes)>, group: seq<Request>,
                      unreadable: Bytes -> bool, published: nat, mem': seq<Version>, answers: seq<Outcome>)
    requires Dense(mem) && Ran(cfg, mem, vlog, group, unreadable, published, mem', answers)
    ensures mem <= mem' && Dense(mem') && |answers| == |group|
    ensures forall i :: 0 <= i < |group| ==> answers[i] != Background && answers[i] != Closed
  {
    hide Admit, PlanOf, Published, AllVersions, CheckAt;
    GroupWrites(cfg, mem, vlog, Admit(mem, group, unreadable).batches, published);
    forall i | 0 <= i < |group| ensures answers[i] != Background && answers[i] != Closed {
      assert OutcomeFits(cfg, mem, group, unreadable, published, i, answers[i]);
    }
  }

  lemma MembersInOrder(cfg: Config, mem: seq<Version>, vlog: seq<(Bytes, Bytes)>, group: seq<Request>,
                       unreadable: Bytes -> bool, published: nat, mem': seq<Version>, answers: seq<Outcome>, i: nat,
                       j: nat)
    requires Dense(mem) && Ran(cfg, mem, vlog, group, unreadable, published, mem', answers)
    requires i < j < |group| && answers[i] == Done
    ensures var s := SpansOf(cfg, mem, vlog, group, unreadable, published); s[i].at + s[i].width <= s[j].at
  {
    hide Ran, AfterGroup, Ahead, WidthOf;
    if group[i].batch.ops != [] {
      RangesInOrder(cfg, mem, vlog, group, unreadable, published, mem', answers, i, j);
    } else {
      PointsAscend(cfg, mem, vlog, group, unreadable, published, mem', answers, i, j);
    }
  }

  lemma PointsAscend(cfg: Config, mem: seq<Version>, vlog: seq<(Bytes, Bytes)>, group: seq<Request>,
                     unreadable: Bytes -> bool, published: nat, mem': seq<Version>, answers: seq<Outcome>, i: nat,
                     j: nat)
    requires Dense(mem) && Ran(cfg, mem, vlog, group, unreadable, published, mem', answers) && i <= j <= |group|
    ensures |mem| <= PointOf(cfg, mem, vlog, group, unreadable, published, i) <=
            PointOf(cfg, mem, vlog, group, unreadable, published, j)
  {
    hide Admit, PlanOf, Published;
    var bs := Admit(mem, group, unreadable).batches;
    assert group[..j][..i] == group[..i];
    AdmitPrefix(mem, group[..j], unreadable, i);
    var bi, bj := Admit(mem, group[..i], unreadable).batches, Admit(mem, group[..j], unreadable).batches;
    assert bj[..|bi|] == bi;
    PlanPrefix(cfg, |mem| + 1, bj, |bi|);
    AheadIsBefore(cfg, mem, group, unreadable, published, j);
    PublishedGrows(cfg, Core(|mem|, vlog, []), bs, PlanOf(cfg, |mem| + 1, bs).accepted,
                   Ahead(cfg, mem, group, unreadable, published, i), Ahead(cfg, mem, group, unreadable, published, j));
  }

  lemma MemberIsKept(cfg: Config, mem: seq<Version>, vlog: seq<(Bytes, Bytes)>, group: seq<Request>,
                     unreadable: Bytes -> bool, published: nat, mem': seq<Version>, vlog': seq<(Bytes, Bytes)>,
                     answers: seq<Outcome>, i: nat)
    requires Dense(mem) && Ran(cfg, mem, vlog, group, unreadable, published, mem', answers)
    requires SnapshotsUpTo(group, |mem|) && i < |group| && answers[i] == Done
    requires vlog <= vlog' && AfterGroup(cfg, mem, vlog, group, unreadable, published).vlog <= vlog'
    ensures var span := SpansOf(cfg, mem, vlog, group, unreadable, published)[i];
      |mem| <= span.at && KeptAt(mem', vlog', group[i], span, MissedOf(cfg, mem, group, unreadable, published)[i])
  {
    hide Ran, AfterGroup, Ahead, PointOf, WidthOf, EventsAhead, WrittenIn, Carries;
    PointsAscend(cfg, mem, vlog, group, unreadable, published, mem', answers, i, |group|);
    StoreAtPoint(cfg, mem, vlog, group, unreadable, published, mem', answers, i);
    if group[i].batch.ops != [] {
      RangesInOrder(cfg, mem, vlog, group, unreadable, published, mem', answers, i, |group|);
      DoneIsVisible(cfg, mem, vlog, group, unreadable, published, mem', answers, i);
      SitsLater(mem', AfterGroup(cfg, mem, vlog, group, unreadable, published).vlog, mem', vlog',
                PointOf(cfg, mem, vlog, group, unreadable, published, i), group[i].batch.ops);
    }
    if group[i].validate.Some? {
      FirstCommitterWins(cfg, mem, vlog, group, unreadable, published, mem', answers, i);
    }
  }

  lemma SitsLater(mem: seq<Version>, vlog: seq<(Bytes, Bytes)>, mem': seq<Version>, vlog': seq<(Bytes, Bytes)>,
                  at: SeqNo, ops: seq<BatchOp>)
    requires Sits(mem, vlog, at, ops) && mem <= mem' && vlog <= vlog'
    ensures Sits(mem', vlog', at, ops)
  {
    forall k | 0 <= k < |ops| ensures Carries(vlog', Entry(mem'[at + k].key, mem'[at + k].place), ops[k]) {
      assert Carries(vlog, Entry(mem[at + k].key, mem[at + k].place), ops[k]);
    }
  }

  // ---------------------------------------------------------------- every step keeps the invariant

  lemma SerializableLater(mem: seq<Version>, mem': seq<Version>, v: Validation, at: SeqNo)
    requires mem <= mem' && at <= |mem|
    ensures Serializable(mem', v, at) == Serializable(mem, v, at)
  {
    forall k ensures WrittenIn(mem', k, v.snap, at) == WrittenIn(mem, k, v.snap, at) {
      assert forall n: SeqNo :: n <= at ==> Writes(mem', k, n) == Writes(mem, k, n);
    }
  }

  /** What the store keeps for a request stays kept as the store grows. */
  lemma KeptLater(mem: seq<Version>, vlog: seq<(Bytes, Bytes)>, mem': seq<Version>, vlog': seq<(Bytes, Bytes)>,
                  r: Request, span: Span, missed: bool)
    requires KeptAt(mem, vlog, r, span, missed) && mem <= mem' && vlog <= vlog'
    ensures KeptAt(mem', vlog', r, span, missed)
  {
    hide Serializable, Sits;
    SitsLater(mem, vlog, mem', vlog', span.at, r.batch.ops);
    if r.validate.Some? { SerializableLater(mem, mem', r.validate.value, span.at); }
  }

  /** Requests told Done before stay attributed when only answers other than Done are added. */
  lemma SettledFrame(st: State, st': State)
    requires Settled(st) && st.requests <= st'.requests
    requires st'.mem == st.mem && st'.vlog == st.vlog && st'.others == st.others && st'.spans == st.spans &&
      st'.missed == st.missed
    requires forall t: nat :: IsDone(st', t) <==> IsDone(st, t)
    ensures Settled(st')
  {
    hide KeptAt;
    forall t: nat, n: SeqNo ensures Owns(st', t, n) <==> Owns(st, t, n) {}
    forall n: SeqNo | n < |st'.mem| ensures n in st'.others || exists t :: Owns(st', t, n) {
      if n !in st.others {
        var t :| Owns(st, t, n);
        assert Owns(st', t, n);
      }
    }
    forall t: nat | IsDone(st', t) ensures t < |st'.requests| && Kept(st', t) {
      assert Kept(st, t);
    }
  }

  lemma EnqueueKeeps(cfg: Config, st: State, r: Request)
    requires Inv(st) && Enabled(cfg, st, Enqueue(r))
    ensures Inv(Next(cfg, st, Enqueue(r)))
  {
    hide Settled;
    SettledFrame(st, Next(cfg, st, Enqueue(r)));
  }

  lemma WithdrawKeeps(cfg: Config, st: State, t: nat, saw: bool)
    requires Inv(st) && Enabled(cfg, st, Withdraw(t, saw))
    ensures Inv(Next(cfg, st, Withdraw(t, saw)))
  {
    hide Settled;
    var st' := Next(cfg, st, Withdraw(t, saw));
    SettledFrame(st, st');
    forall i | 0 <= i < |st'.queue| ensures st'.queue[i] < |st.requests| {
      assert st'.queue[i] in st'.queue;
      assert st'.queue[i] in st.queue;
    }
  }

  lemma DrainKeeps(cfg: Config, st: State)
    requires Inv(st) && Enabled(cfg, st, Drain)
    ensures Inv(Next(cfg, st, Drain))
  {
    hide Settled;
    SettledFrame(st, Next(cfg, st, Drain));
  }

  /** Answering the front of the drained tickets leaves every ticket in one place. */
  lemma AnsweredArePlaced(st: State, st': State, n: nat, answers: seq<Outcome>)
    requires Placed(st) && Withdrawals(st) && n <= |st.drained|
    requires st'.requests == st.requests && st'.queue == st.queue && st'.drained == st.drained[n..] &&
      st'.withdrawn == st.withdrawn
    requires Updated(st.outcomes, st.drained[..n], answers, st'.outcomes)
    requires forall i :: 0 <= i < |answers| ==> answers[i] != Closed
    ensures Placed(st') && Withdrawals(st')
  {
    assert st.drained == st.drained[..n] + st.drained[n..];
    forall t | t in st'.outcomes ensures t < |st'.requests| {
      if t in st.drained[..n] {} else { assert t in st.outcomes; }
    }
    forall i | 0 <= i < |st'.drained| ensures st'.drained[i] !in st.drained[..n] {}
  }

  lemma RefuseKeeps(cfg: Config, st: State)
    requires Inv(st) && Enabled(cfg, st, Refuse)
    ensures Inv(Next(cfg, st, Refuse))
  {
    hide Settled, Updated, Placed, Withdrawals, Snapshots, IsChunk, Assign, Distinct;
    TicketsReady(st);
    var st', n := Next(cfg, st, Refuse), ChunkOf(st);
    AssignUpdates(st.outcomes, st.drained[..n], seq(n, _ => Background));
    AnsweredArePlaced(st, st', n, seq(n, _ => Background));
    NoneDone(st, st', n, seq(n, _ => Background));
    SettledFrame(st, st');
    SnapshotsFrame(st, st');
  }

  lemma SnapshotsFrame(st: State, st': State)
    requires Snapshots(st) && st'.requests == st.requests && |st.mem| <= |st'.mem|
    ensures Snapshots(st')
  {
  }

  lemma NoneDone(st: State, st': State, n: nat, answers: seq<Outcome>)
    requires Placed(st) && n <= |st.drained| && Updated(st.outcomes, st.drained[..n], answers, st'.outcomes)
    requires forall i :: 0 <= i < |answers| ==> answers[i] != Done
    ensures forall t: nat :: IsDone(st', t) <==> IsDone(st, t)
  {
    forall t: nat ensures IsDone(st', t) <==> IsDone(st, t) {
      if t in st.drained[..n] { assert t in st.drained; }
    }
  }

  lemma DegradeKeeps(cfg: Config, st: State, e: Event)
    requires Inv(st) && (e == Degrade || e == Close) && Enabled(cfg, st, e)
    ensures Inv(Next(cfg, st, e))
  {
    hide Settled;
    SettledFrame(st, Next(cfg, st, e));
  }

  /** The step answers `ts` and grows the store; nothing answered before changes. */
  ghost predicate Answers(st: State, st': State, ts: seq<nat>, answers: seq<Outcome>, spans: seq<Span>,
                          missed: seq<bool>) {
    st'.requests == st.requests && st'.others == st.others && Below(ts, |st.requests|) && Distinct(ts) &&
    (forall i :: 0 <= i < |ts| ==> ts[i] !in st.outcomes) && Updated(st.outcomes, ts, answers, st'.outcomes) &&
    Updated(st.spans, ts, spans, st'.spans) && Updated(st.missed, ts, missed, st'.missed)
  }

  lemma OldStayKept(st: State, st': State, ts: seq<nat>, answers: seq<Outcome>, spans: seq<Span>, missed: seq<bool>,
                    t: nat)
    requires Settled(st) && Answers(st, st', ts, answers, spans, missed) && t !in ts
    requires st.mem <= st'.mem && st.vlog <= st'.vlog
    ensures IsDone(st', t) <==> IsDone(st, t)
    ensures IsDone(st, t) ==> t < |st.requests| && Kept(st, t) && Kept(st', t) && st'.spans[t] == st.spans[t]
  {
    hide KeptAt;
    if IsDone(st, t) {
      assert Kept(st, t);
      KeptLater(st.mem, st.vlog, st'.mem, st'.vlog, st.requests[t], st.spans[t], st.missed[t]);
    }
  }

  /** After the step, an old request owns what it owned, a new one what the group says. */
  lemma OwnersAfter(st: State, st': State, ts: seq<nat>, answers: seq<Outcome>, spans: seq<Span>, missed: seq<bool>)
    requires Settled(st) && Answers(st, st', ts, answers, spans, missed)
    requires st.mem <= st'.mem && st.vlog <= st'.vlog
    ensures forall t: nat, n: SeqNo :: t !in ts ==> (Owns(st', t, n) <==> Owns(st, t, n))
    ensures forall i, n: SeqNo :: 0 <= i < |ts| ==> (Owns(st', ts[i], n) <==> answers[i] == Done && Covers(spans[i], n))
    ensures forall t: nat, n: SeqNo :: Owns(st, t, n) ==> n < |st.mem| && t !in ts
  {
    hide KeptAt;
    forall t: nat, n: SeqNo | t !in ts ensures Owns(st', t, n) <==> Owns(st, t, n) {
      OldStayKept(st, st', ts, answers, spans, missed, t);
    }
    forall t: nat, n: SeqNo | Owns(st, t, n) ensures n < |st.mem| && t !in ts {
      SpanInside(st, t);
    }
  }

  lemma SpanInside(st: State, t: nat)
    requires Settled(st) && IsDone(st, t)
    ensures t in st.spans && st.spans[t].at + st.spans[t].width <= |st.mem|
  {
    assert Kept(st, t);
  }

  lemma ServedIsSettled(st: State, st': State, ts: seq<nat>, group: seq<Request>, answers: seq<Outcome>,
                        spans: seq<Span>, missed: seq<bool>)
    requires Settled(st) && Answers(st, st', ts, answers, spans, missed)
    requires |group| == |ts| && forall i :: 0 <= i < |ts| ==> group[i] == st.requests[ts[i]]
    requires Served(st.mem, st.vlog, group, st'.mem, st'.vlog, answers, spans, missed)
    ensures Settled(st')
  {
    forall t: nat | IsDone(st', t) ensures t < |st'.requests| && Kept(st', t) {
      hide KeptAt;
      if t !in ts { OldStayKept(st, st', ts, answers, spans, missed, t); }
    }
    ServedIsAttributed(st, st', ts, group, answers, spans, missed);
  }

  lemma ServedIsAttributed(st: State, st': State, ts: seq<nat>, group: seq<Request>, answers: seq<Outcome>,
                           spans: seq<Span>, missed: seq<bool>)
    requires Settled(st) && Answers(st, st', ts, answers, spans, missed) && |group| == |ts|
    requires Served(st.mem, st.vlog, group, st'.mem, st'.vlog, answers, spans, missed)
    ensures Attributed(st')
  {
    hide KeptAt, Covers, IsDone, Updated, Below;
    OwnersAfter(st, st', ts, answers, spans, missed);
    forall n: SeqNo | n < |st'.mem| ensures n in st'.others || exists t :: Owns(st', t, n) {
      if n >= |st.mem| {
        assert SomeoneCovers(answers, spans, n);
        var i :| 0 <= i < |answers| && answers[i] == Done && Covers(spans[i], n);
        assert Owns(st', ts[i], n);
      } else if n !in st.others {
        var t :| Owns(st, t, n);
        assert Owns(st', t, n);
      }
    }
    forall n, t | n in st'.others ensures !Owns(st', t, n) {
      OwnedOnce(st, st', ts, group, answers, spans, missed, t, t, n);
    }
    forall n: SeqNo, t, u | Owns(st', t, n) && Owns(st', u, n) ensures t == u {
      OwnedOnce(st, st', ts, group, answers, spans, missed, t, u, n);
    }
  }

  lemma OwnedOnce(st: State, st': State, ts: seq<nat>, group: seq<Request>, answers: seq<Outcome>,
                  spans: seq<Span>, missed: seq<bool>, t: nat, u: nat, n: SeqNo)
    requires Settled(st) && Answers(st, st', ts, answers, spans, missed) && |group| == |ts|
    requires Served(st.mem, st.vlog, group, st'.mem, st'.vlog, answers, spans, missed)
    ensures Owns(st', t, n) && t in ts ==> n >= |st.mem|
    ensures Owns(st', t, n) ==> n !in st.others
    ensures Owns(st', t, n) && Owns(st', u, n) ==> t == u
  {
    hide KeptAt, IsDone, Updated, Below;
    OwnersAfter(st, st', ts, answers, spans, missed);
  }

  lemma ServeKeeps(cfg: Config, st: State, e: Event)
    requires Inv(st) && e.Serve? && Enabled(cfg, st, e)
    ensures Inv(Next(cfg, st, e))
  {
    hide Settled, Updated, Served, Ran, AfterGroup, Placed, Withdrawals, IsChunk, SpansOf, MissedOf, GroupOf, Assign,
         Distinct;
    TicketsReady(st);
    var st', n := Next(cfg, st, e), ChunkOf(st);
    var ts := st.drained[..n];
    var group := GroupOf(st.requests, ts);
    var spans := SpansOf(cfg, st.mem, st.vlog, group, e.unreadable, e.published);
    var missed := MissedOf(cfg, st.mem, group, e.unreadable, e.published);
    DenseStore(st);
    GroupIsServed(cfg, st.mem, st.vlog, group, e.unreadable, e.published, e.mem, e.vlog, e.answers);
    ServedAnswers(st.mem, st.vlog, group, e.mem, e.vlog, e.answers, spans, missed);
    AssignUpdates(st.outcomes, ts, e.answers);
    AssignUpdates(st.spans, ts, spans);
    AssignUpdates(st.missed, ts, missed);
    AnsweredArePlaced(st, st', n, e.answers);
    ServedIsSettled(st, st', ts, group, e.answers, spans, missed);
    SnapshotsFrame(st, st');
  }

  lemma TicketsReady(st: State)
    requires Placed(st)
    ensures Below(st.drained, |st.requests|)
    ensures forall n :: 0 <= n <= |st.drained| ==> Below(st.drained[..n], |st.requests|) && Distinct(st.drained[..n])
    ensures forall i :: 0 <= i < |st.drained| ==> st.drained[i] !in st.outcomes
  {
    forall i | 0 <= i < |st.drained| ensures st.drained[i] !in st.outcomes {
      assert st.drained[i] in st.drained;
    }
  }

  lemma DenseStore(st: State)
    requires Settled(st)
    ensures Dense(st.mem)
  {
  }

  lemma ServedAnswers(mem: seq<Version>, vlog: seq<(Bytes, Bytes)>, group: seq<Request>, mem': seq<Version>,
                      vlog': seq<(Bytes, Bytes)>, answers: seq<Outcome>, spans: seq<Span>, missed: seq<bool>)
    requires Served(mem, vlog, group, mem', vlog', answers, spans, missed)
    ensures |answers| == |group| && |mem| <= |mem'| && forall i :: 0 <= i < |answers| ==> answers[i] != Closed
  {
  }

  lemma WriteElsewhereKeeps(cfg: Config, st: State, e: Event)
    requires Inv(st) && e.WriteElsewhere? && Enabled(cfg, st, e)
    ensures Inv(Next(cfg, st, e))
  {
    hide KeptAt, Withdrawals;
    var st' := Next(cfg, st, e);
    forall t: nat
      ensures (IsDone(st', t) <==> IsDone(st, t)) && (IsDone(st, t) ==> t < |st'.requests| && Kept(st', t))
    {
      if IsDone(st, t) {
        assert Kept(st, t);
        KeptLater(st.mem, st.vlog, st'.mem, st'.vlog, st.requests[t], st.spans[t], st.missed[t]);
      }
    }
    forall t: nat, n: SeqNo ensures (Owns(st', t, n) <==> Owns(st, t, n)) && (Owns(st, t, n) ==> n < |st.mem|) {
      if IsDone(st, t) { SpanInside(st, t); }
    }
    forall n: SeqNo | n < |st'.mem| ensures n in st'.others || exists t :: Owns(st', t, n) {
      if n < |st.mem| && n !in st.others {
        var t :| Owns(st, t, n);
        assert Owns(st', t, n);
      }
    }
    PlacedFrame(st, st');
  }

  lemma PlacedFrame(st: State, st': State)
    requires Placed(st) && Withdrawals(st) && st'.requests == st.requests && st'.queue == st.queue
    requires st'.drained == st.drained && st'.outcomes == st.outcomes && st'.withdrawn == st.withdrawn
    ensures Placed(st') && Withdrawals(st')
  {
  }

  /** Every step of the protocol keeps the invariant. */
  lemma NextKeeps(cfg: Config, st: State, e: Event)
    requires Inv(st) && Enabled(cfg, st, e)
    ensures Inv(Next(cfg, st, e))
  {
    hide Inv, Enabled, Next;
    match e
    case Enqueue(r) => EnqueueKeeps(cfg, st, r);
    case Withdraw(t, saw) => WithdrawKeeps(cfg, st, t, saw);
    case Drain => DrainKeeps(cfg, st);
    case Serve(_, _, _, _, _, _) => ServeKeeps(cfg, st, e);
    case Refuse => RefuseKeeps(cfg, st);
    case WriteElsewhere(_, _) => WriteElsewhereKeeps(cfg, st, e);
    case Degrade => DegradeKeeps(cfg, st, e);
    case Close => DegradeKeeps(cfg, st, e);
  }

  // ---------------------------------------------------------------- runs

  ghost predicate Legal(cfg: Config, st: State, es: seq<Event>)
    requires Inv(st)
    decreases |es|
  {
    es == [] || (Enabled(cfg, st, es[0]) && (NextKeeps(cfg, st, es[0]); Legal(cfg, Next(cfg, st, es[0]), es[1..])))
  }

  ghost function After(cfg: Config, st: State, es: seq<Event>): (st': State)
    requires Inv(st) && Legal(cfg, st, es)
    ensures Inv(st')
    decreases |es|
  {
    if es == [] then st else NextKeeps(cfg, st, es[0]); After(cfg, Next(cfg, st, es[0]), es[1..])
  }

  function Init(): State {
    State([], [], [], map[], {}, [], [], false, false, map[], map[], {})
  }

  lemma InitIsInv()
    ensures Inv(Init())
  {
  }

  /** No step takes back or changes an answer, moves an answered batch, or shrinks the store. */
  ghost predicate Extends(st: State, st': State) {
    st.requests <= st'.requests && st.mem <= st'.mem && st.vlog <= st'.vlog && st.withdrawn <= st'.withdrawn &&
    forall t: nat :: t in st.outcomes ==>
      t in st'.outcomes && st'.outcomes[t] == st.outcomes[t] &&
      (t in st.spans ==> t in st'.spans && st'.spans[t] == st.spans[t]) &&
      (t in st.missed ==> t in st'.missed && st'.missed[t] == st.missed[t])
  }

  lemma NextExtends(cfg: Config, st: State, e: Event)
    requires Inv(st) && Enabled(cfg, st, e)
    ensures Extends(st, Next(cfg, st, e))
  {
    hide Settled, IsChunk, Assign, SpansOf, MissedOf, GroupOf, AfterGroup, Ran, Withdrawals;
    if e.Serve? { ServeExtends(cfg, st, e); }
    if e.Refuse? { AnsweringExtends(st, st.outcomes, ChunkOf(st), seq(ChunkOf(st), _ => Background)); }
  }

  /** Answering drained tickets touches no ticket answered before. */
  lemma AnsweringExtends<T>(st: State, m: map<nat, T>, n: nat, vs: seq<T>)
    requires Placed(st) && n == |vs| <= |st.drained|
    ensures forall t: nat :: t in st.outcomes && t in m ==>
      t in Assign(m, st.drained[..n], vs) && Assign(m, st.drained[..n], vs)[t] == m[t]
  {
    TicketsReady(st);
    assert forall i :: 0 <= i < n ==> st.drained[..n][i] == st.drained[i];
    AnswersExtend(m, st.drained[..n], vs);
  }

  lemma ServeExtends(cfg: Config, st: State, e: Event)
    requires Inv(st) && e.Serve? && Enabled(cfg, st, e)
    ensures Extends(st, Next(cfg, st, e))
  {
    hide Settled, IsChunk, Assign, SpansOf, MissedOf, GroupOf, AfterGroup, Ran, Withdrawals, Snapshots;
    TicketsReady(st);
    var n := ChunkOf(st);
    var group := GroupOf(st.requests, st.drained[..n]);
    RanGrows(cfg, st.mem, st.vlog, group, e.unreadable, e.published, e.mem, e.answers);
    AnsweringExtends(st, st.outcomes, n, e.answers);
    AnsweringExtends(st, st.spans, n, SpansOf(cfg, st.mem, st.vlog, group, e.unreadable, e.published));
    AnsweringExtends(st, st.missed, n, MissedOf(cfg, st.mem, group, e.unreadable, e.published));
  }

  lemma RanGrows(cfg: Config, mem: seq<Version>, vlog: seq<(Bytes, Bytes)>, group: seq<Request>,
                 unreadable: Bytes -> bool, published: nat, mem': seq<Version>, answers: seq<Outcome>)
    requires Ran(cfg, mem, vlog, group, unreadable, published, mem', answers)
    ensures mem <= mem' && |answers| == |group|
  {
  }

  lemma AnswersExtend<T>(m: map<nat, T>, ts: seq<nat>, vs: seq<T>)
    requires |ts| == |vs|
    ensures forall t: nat :: t !in ts && t in m ==> t in Assign(m, ts, vs) && Assign(m, ts, vs)[t] == m[t]
  {
    forall t: nat | t !in ts && t in m ensures t in Assign(m, ts, vs) && Assign(m, ts, vs)[t] == m[t] {
      AssignedElse(m, ts, vs, t);
    }
  }

  lemma {:induction false} RunExtends(cfg: Config, st: State, es: seq<Event>)
    requires Inv(st) && Legal(cfg, st, es)
    ensures Extends(st, After(cfg, st, es))
    decreases |es|
  {
    hide Enabled, Next, Settled;
    if es != [] {
      NextKeeps(cfg, st, es[0]);
      NextExtends(cfg, st, es[0]);
      RunExtends(cfg, Next(cfg, st, es[0]), es[1..]);
    }
  }

  /** Acks never lie.
   *
   * Once a ticket is answered, whatever runs later: the answer stands; told Done, its ops are in
   * the store, whole and where they were; told anything else, every version in the store belongs
   * to somebody else. */
  lemma AcksNeverLie(cfg: Config, st: State, es: seq<Event>, t: nat)
    requires Inv(st) && Legal(cfg, st, es) && t in st.outcomes
    ensures var st' := After(cfg, st, es);
      t in st'.outcomes && st'.outcomes[t] == st.outcomes[t] && t < |st.requests| <= |st'.requests| &&
      (st.outcomes[t] == Done ==> t in st.spans && Sits(st'.mem, st'.vlog, st.spans[t].at, st.requests[t].batch.ops)) &&
      (st.outcomes[t] != Done ==>
        forall n: SeqNo :: n < |st'.mem| ==> n in st'.others || exists u :: u != t && Owns(st', u, n))
  {
    hide Sits;
    var st' := After(cfg, st, es);
    RunExtends(cfg, st, es);
    if st.outcomes[t] == Done {
      assert IsDone(st, t);
      assert IsDone(st', t);
      assert Kept(st', t);
    } else {
      forall n: SeqNo | n < |st'.mem| && n !in st'.others ensures exists u :: u != t && Owns(st', u, n) {
        var u :| Owns(st', u, n);
        assert u != t;
      }
    }
  }

  /** A transaction that committed won its keys for good, exactly unless a trigger event published
      ahead of it in its own group hit one of them. */
  lemma CommittedTransactionsWin(cfg: Config, st: State, es: seq<Event>, t: nat)
    requires Inv(st) && Legal(cfg, st, es) && IsDone(st, t)
    ensures t < |st.requests| && t in st.spans && t in st.missed
    ensures st.requests[t].validate.Some? ==>
      (Serializable(After(cfg, st, es).mem, st.requests[t].validate.value, st.spans[t].at) <==> !st.missed[t])
  {
    hide Serializable, Sits;
    assert Kept(st, t);
    RunExtends(cfg, st, es);
    assert IsDone(After(cfg, st, es), t);
    assert Kept(After(cfg, st, es), t);
  }

  predicate UserKeysOnly(r: Request, reserved: Bytes -> bool) {
    r.validate.Some? && forall k :: k in r.validate.value.keys ==> !reserved(k)
  }

  /** No transaction over user keys was ever missed. */
  ghost predicate UsersWin(st: State, reserved: Bytes -> bool) {
    forall t: nat :: IsDone(st, t) && t < |st.requests| && UserKeysOnly(st.requests[t], reserved) && t in st.missed ==>
      !st.missed[t]
  }

  lemma ServeUsersWin(cfg: Config, st: State, e: Event, reserved: Bytes -> bool)
    requires Inv(st) && e.Serve? && Enabled(cfg, st, e) && CapturesOnly(cfg, reserved) && UsersWin(st, reserved)
    ensures UsersWin(Next(cfg, st, e), reserved)
  {
    hide Settled, IsChunk, Assign, SpansOf, GroupOf, AfterGroup, Withdrawals, Snapshots, Ran, EventsAhead, CapturesOnly,
         Distinct, Placed;
    TicketsReady(st);
    var st', ts := Next(cfg, st, e), st.drained[..ChunkOf(st)];
    var group := GroupOf(st.requests, ts);
    var missed := MissedOf(cfg, st.mem, group, e.unreadable, e.published);
    RanGrows(cfg, st.mem, st.vlog, group, e.unreadable, e.published, e.mem, e.answers);
    AssignUpdates(st.missed, ts, missed);
    AssignUpdates(st.outcomes, ts, e.answers);
    forall i | 0 <= i < |ts| && UserKeysOnly(group[i], reserved) ensures !missed[i] {
      EventsAheadReserved(cfg, st.mem, group, e.unreadable, e.published, i, reserved);
    }
  }

  lemma StepUsersWin(cfg: Config, st: State, e: Event, reserved: Bytes -> bool)
    requires Inv(st) && Enabled(cfg, st, e) && CapturesOnly(cfg, reserved) && UsersWin(st, reserved)
    ensures UsersWin(Next(cfg, st, e), reserved)
  {
    hide Settled, IsChunk, Assign, SpansOf, MissedOf, GroupOf, AfterGroup, Withdrawals, Snapshots, Ran, CapturesOnly,
         UserKeysOnly;
    if e.Serve? {
      ServeUsersWin(cfg, st, e, reserved);
    } else if e.Refuse? {
      AssignUpdates(st.outcomes, st.drained[..ChunkOf(st)], seq(ChunkOf(st), _ => Background));
    }
  }

  /** First committer wins for users: with trigger events kept under reserved keys, every committed
      transaction over user keys is serializable, in every run. */
  lemma {:induction false} UserTransactionsWin(cfg: Config, st: State, es: seq<Event>, t: nat, reserved: Bytes -> bool)
    requires Inv(st) && UsersWin(st, reserved) && Legal(cfg, st, es) && CapturesOnly(cfg, reserved)
    ensures var st' := After(cfg, st, es);
      UsersWin(st', reserved) &&
      (IsDone(st', t) && t < |st'.requests| && UserKeysOnly(st'.requests[t], reserved) ==>
        t in st'.spans && Serializable(st'.mem, st'.requests[t].validate.value, st'.spans[t].at))
    decreases |es|
  {
    hide Enabled, Next, CapturesOnly, Serializable, Sits;
    if es == [] {
      if IsDone(st, t) { assert Kept(st, t); }
    } else {
      NextKeeps(cfg, st, es[0]);
      StepUsersWin(cfg, st, es[0], reserved);
      UserTransactionsWin(cfg, Next(cfg, st, es[0]), es[1..], t, reserved);
    }
  }

  // ---------------------------------------------------------------- the committer

  class Committer {
    const writer: Writer
    var requests: seq<Request>
    var queue: seq<nat>
    var drained: seq<nat>
    var outcomes: map<nat, Outcome>
    var withdrawn: set<nat>
    var closing: bool
    ghost var spans: map<nat, Span>
    ghost var missed: map<nat, bool>
    ghost var others: set<SeqNo>

    ghost function View(): State
      reads this, writer
    {
      State(requests, queue, drained, outcomes, withdrawn, writer.mem, writer.vlog, writer.degraded, closing, spans,
        missed, others)
    }

    ghost predicate Valid()
      reads this, writer
    {
      Inv(View()) && writer.visible == |writer.mem|
    }

    constructor (cfg: Config)
      ensures Valid() && fresh(writer) && writer.cfg == cfg && View() == Init()
    {
      requests, queue, drained, outcomes, withdrawn, closing := [], [], [], map[], {}, false;
      spans, missed, others := map[], map[], {};
      writer := new Writer(cfg);
    }

    /** A writer queues its commit; the ticket is what it parks on. */
    method Push(r: Request) returns (ticket: nat)
      requires Valid() && Enabled(writer.cfg, View(), Enqueue(r))
      modifies this
      ensures Valid() && View() == Next(writer.cfg, old(View()), Enqueue(r)) && ticket == old(|requests|)
    {
      EnqueueKeeps(writer.cfg, View(), r);
      ticket := |requests|;
      requests, queue := requests + [r], queue + [ticket];
    }

    /** A parked writer that saw the store degraded or closing bails out, but only if its batch is
        still in the queue; otherwise it goes on waiting for its result. */
    method Bail(ticket: nat, sawDegraded: bool) returns (gone: bool)
      requires Valid() && (if sawDegraded then writer.degraded else closing)
      modifies this
      ensures Valid() && gone == (ticket in old(queue))
      ensures View() == if gone then Next(writer.cfg, old(View()), Withdraw(ticket, sawDegraded)) else old(View())
    {
      var i := 0;
      while i < |queue| && queue[i] != ticket
        invariant 0 <= i <= |queue| && ticket !in queue[..i]
      {
        i := i + 1;
      }
      if i == |queue| {
        assert queue[..i] == queue;
        return false;
      }
      WithdrawKeeps(writer.cfg, View(), ticket, sawDegraded);
      WithoutAt(queue, ticket, i);
      queue := queue[..i] + queue[i + 1..];
      outcomes := outcomes[ticket := if sawDegraded then Background else Closed];
      withdrawn := withdrawn + {ticket};
      return true;
    }

    method DrainQueue()
      requires Valid() && drained == []
      modifies this
      ensures Valid() && View() == Next(writer.cfg, old(View()), Drain)
    {
      DrainKeeps(writer.cfg, View());
      drained, queue := queue, [];
    }

    /** Hand the chunk's results to its waiters. */
    method Deliver(n: nat, answers: seq<Outcome>)
      requires n == |answers| <= |drained|
      modifies this`drained, this`outcomes
      ensures drained == old(drained[n..]) && outcomes == Assign(old(outcomes), old(drained[..n]), answers)
    {
      var i := 0;
      while i < n
        invariant 0 <= i <= n && drained == old(drained)
        invariant outcomes == Assign(old(outcomes), drained[..i], answers[..i])
      {
        assert drained[..i + 1][..i] == drained[..i] && answers[..i + 1][..i] == answers[..i];
        outcomes := outcomes[drained[i] := answers[i]];
        i := i + 1;
      }
      assert answers[..i] == answers;
      drained := drained[n..];
    }

    /** The degradation gate: every member of the chunk is told so, and nothing is applied. */
    method RefuseChunk(n: nat)
      requires Valid() && drained != [] && writer.degraded && n == ChunkOf(View())
      modifies this
      ensures Enabled(writer.cfg, old(View()), Refuse) && View() == Next(writer.cfg, old(View()), Refuse) && Valid()
    {
      RefuseKeeps(writer.cfg, View());
      Deliver(n, seq(n, _ => Background));
    }

    /** Validation and application under one lock, then delivery.  The store may have been degraded
        by another thread since the chunk was let through the gate. */
    method ApplyChunk(n: nat, unreadable: Bytes -> bool, f: Faults) returns (ghost e: Event)
      requires Valid() && drained != [] && n == ChunkOf(View())
      modifies this, writer
      ensures e.Serve? && e.unreadable == unreadable
      ensures Enabled(writer.cfg, old(View()), e) && View() == Next(writer.cfg, old(View()), e) && Valid()
    {
      hide Settled, IsChunk, Ran, AfterGroup, SpansOf, MissedOf, Assign, Withdrawals, Snapshots;
      ghost var st := View();
      TicketsReady(st);
      DenseStore(st);
      var group := GroupOf(requests, drained[..n]);
      ghost var published;
      var answers;
      answers, published := RunGroup(writer, group, unreadable, f);
      e := Serve(unreadable, published, writer.mem, writer.vlog, answers, writer.degraded);
      assert Enabled(writer.cfg, st, e);
      ServeKeeps(writer.cfg, st, e);
      spans := Assign(spans, drained[..n], SpansOf(writer.cfg, st.mem, st.vlog, group, unreadable, published));
      missed := Assign(missed, drained[..n], MissedOf(writer.cfg, st.mem, group, unreadable, published));
      Deliver(n, answers);
    }

    /** Serve the next chunk. */
    method ServeChunk(unreadable: Bytes -> bool, f: Faults) returns (ghost e: Event)
      requires Valid() && drained != []
      modifies this, writer
      ensures Enabled(writer.cfg, old(View()), e) && View() == Next(writer.cfg, old(View()), e) && Valid()
      ensures e == Refuse || (e.Serve? && e.unreadable == unreadable)
      ensures |drained| < old(|drained|)
    {
      hide Inv, Ran, AfterGroup, SpansOf, MissedOf, Assign, IsChunk;
      PlacedView(View());
      var bytes := BytesOf(requests, drained);
      var n := NextChunk(bytes);
      ChunkIsUnique(bytes, n, ChunkOf(View()));
      if writer.degraded {
        e := Refuse;
        RefuseChunk(n);
      } else {
        e := ApplyChunk(n, unreadable, f);
      }
    }

    /** Serve everything drained; every drained ticket is answered. */
    method ServeDrained(unreadable: nat -> (Bytes -> bool), f: nat -> Faults) returns (ghost es: seq<Event>)
      requires Valid()
      modifies this, writer
      ensures Valid() && drained == []
      ensures Legal(writer.cfg, old(View()), es) && After(writer.cfg, old(View()), es) == View()
    {
      es := [];
      while drained != []
        invariant Valid()
        invariant Legal(writer.cfg, old(View()), es) && After(writer.cfg, old(View()), es) == View()
        decreases |drained|
      {
        ghost var was := View();
        ghost var e := ServeChunk(unreadable(|drained|), f(|drained|));
        OneMoreEvent(writer.cfg, old(View()), es, e);
        es := es + [e];
      }
    }
  }

  lemma PlacedView(st: State)
    requires Inv(st)
    ensures Below(st.drained, |st.requests|)
  {
  }

  lemma {:induction false} WithoutAt(ts: seq<nat>, t: nat, i: nat)
    requires Distinct(ts) && i < |ts| && ts[i] == t
    ensures Without(ts, t) == ts[..i] + ts[i + 1..]
  {
    if i == 0 {
      WithoutNone(ts[1..], t);
    } else {
      WithoutAt(ts[1..], t, i - 1);
    }
  }

  lemma {:induction false} WithoutNone(ts: seq<nat>, t: nat)
    requires t !in ts
    ensures Without(ts, t) == ts
  {
    if ts != [] { WithoutNone(ts[1..], t); }
  }

  lemma {:induction false} OneMoreEvent(cfg: Config, st: State, es: seq<Event>, e: Event)
    requires Inv(st) && Legal(cfg, st, es) && Enabled(cfg, After(cfg, st, es), e)
    ensures Legal(cfg, st, es + [e]) && After(cfg, st, es + [e]) == Next(cfg, After(cfg, st, es), e)
    decreases |es|
  {
    hide Enabled, Next, Settled;
    if es == [] {
      NextKeeps(cfg, st, e);
      assert [e][1..] == [];
    } else {
      NextKeeps(cfg, st, es[0]);
      OneMoreEvent(cfg, Next(cfg, st, es[0]), es[1..], e);
      assert (es + [e])[1..] == es[1..] + [e];
    }
  }
}
