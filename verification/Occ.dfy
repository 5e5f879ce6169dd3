/** Optimistic validation of one fsync group, and the group's application.
 *
 * Transactions and plain batches of a group are checked in queue order against the store and
 * against the keys written by earlier members, and the survivors are applied by GroupCommit.
 */
module Occ {
  import opened Keys
  import opened Types
  import opened GroupCommit

  datatype Validation = Validation(snap: SeqNo, keys: seq<Bytes>)

  /** A queued commit: a plain batch has nothing to validate. */
  datatype Request = Request(batch: Batch, bytes: nat, validate: Option<Validation>)

  datatype Check = Clear | Hit | CannotRead

  datatype Outcome = Done | Conflict | Unreadable | Failed(error: Error) | Background | Closed

  // ---------------------------------------------------------------- the store's newest versions

  /** Seqno n wrote the n-th version. */
  predicate Dense(mem: seq<Version>) {
    forall n :: 0 <= n < |mem| ==> mem[n].at == n + 1
  }

  /** The newest version of a key, tombstones included; 0 when there is none. */
  function NewestOf(mem: seq<Version>, key: Bytes): SeqNo {
    if mem == [] then 0
    else if mem[|mem| - 1].key == key then mem[|mem| - 1].at
    else NewestOf(mem[..|mem| - 1], key)
  }

  predicate Writes(mem: seq<Version>, key: Bytes, n: SeqNo) {
    1 <= n <= |mem| && mem[n - 1].key == key
  }

  predicate WrittenIn(mem: seq<Version>, key: Bytes, after: SeqNo, upTo: SeqNo) {
    exists n :: after < n <= upTo && Writes(mem, key, n)
  }

  lemma {:induction false} NewestIsExact(mem: seq<Version>, key: Bytes, snap: SeqNo)
    requires Dense(mem)
    ensures NewestOf(mem, key) > snap <==> WrittenIn(mem, key, snap, |mem|)
  {
    if mem != [] {
      var pre := mem[..|mem| - 1];
      NewestIsExact(pre, key, snap);
      assert Writes(mem, key, |mem|) <==> mem[|mem| - 1].key == key;
      assert forall n: SeqNo :: n < |mem| ==> (Writes(pre, key, n) <==> Writes(mem, key, n));
    }
  }

  // ---------------------------------------------------------------- validation

  /** Check keys in order; the first that settles the matter decides. */
  function CheckKeys(mem: seq<Version>, written: set<Bytes>, snap: SeqNo, keys: seq<Bytes>,
                     unreadable: Bytes -> bool): Check {
    if keys == [] then Clear
    else if keys[0] in written then Hit
    else if unreadable(keys[0]) then CannotRead
    else if NewestOf(mem, keys[0]) > snap then Hit
    else CheckKeys(mem, written, snap, keys[1..], unreadable)
  }

  lemma {:induction false} CheckIsExact(mem: seq<Version>, written: set<Bytes>, snap: SeqNo, keys: seq<Bytes>,
                                        unreadable: Bytes -> bool)
    requires Dense(mem)
    ensures CheckKeys(mem, written, snap, keys, unreadable).Clear? <==>
      forall k :: k in keys ==> k !in written && !unreadable(k) && !WrittenIn(mem, k, snap, |mem|)
  {
    if keys != [] {
      NewestIsExact(mem, keys[0], snap);
      CheckIsExact(mem, written, snap, keys[1..], unreadable);
      assert forall k :: k in keys <==> k == keys[0] || k in keys[1..];
    }
  }

  function OpKeys(ops: seq<BatchOp>): set<Bytes> {
    set op | op in ops :: op.key
  }

  /** What the validation loop has decided: a check for each request, the keys written so far in the
      group, and the batches to apply. */
  datatype Admission = Admission(checks: seq<Check>, written: set<Bytes>, batches: seq<Batch>, slots: seq<nat>)

  function CheckOf(mem: seq<Version>, written: set<Bytes>, r: Request, unreadable: Bytes -> bool): Check {
    if r.validate.None? then Clear
    else CheckKeys(mem, written, r.validate.value.snap, r.validate.value.keys, unreadable)
  }

  function Admit(mem: seq<Version>, group: seq<Request>, unreadable: Bytes -> bool): (a: Admission)
    ensures |a.checks| == |group| && |a.slots| == |a.batches|
  {
    if group == [] then Admission([], {}, [], [])
    else
      var a := Admit(mem, group[..|group| - 1], unreadable);
      var r := group[|group| - 1];
      var check := CheckOf(mem, a.written, r, unreadable);
      if !check.Clear? then a.(checks := a.checks + [check])
      else if r.batch.ops == [] then a.(checks := a.checks + [check])
      else Admission(a.checks + [check], a.written + OpKeys(r.batch.ops), a.batches + [r.batch],
        a.slots + [|group| - 1])
  }

  /** Request `i` is judged by what came before it. */
  function CheckAt(mem: seq<Version>, group: seq<Request>, unreadable: Bytes -> bool, i: nat): Check
    requires i < |group|
  {
    CheckOf(mem, Admit(mem, group[..i], unreadable).written, group[i], unreadable)
  }

  /** How many batches of the first `i` requests are applied. */
  function SlotOf(mem: seq<Version>, group: seq<Request>, unreadable: Bytes -> bool, i: nat): nat
    requires i <= |group|
  {
    |Admit(mem, group[..i], unreadable).batches|
  }

  predicate Applies(mem: seq<Version>, group: seq<Request>, unreadable: Bytes -> bool, i: nat)
    requires i < |group|
  {
    CheckAt(mem, group, unreadable, i).Clear? && group[i].batch.ops != []
  }

  lemma {:induction false} AdmitPrefix(mem: seq<Version>, group: seq<Request>, unreadable: Bytes -> bool, i: nat)
    requires i <= |group|
    ensures var p, a := Admit(mem, group[..i], unreadable), Admit(mem, group, unreadable);
      p.checks <= a.checks && p.batches <= a.batches && p.slots <= a.slots && p.written <= a.written
  {
    if i == |group| {
      assert group[..i] == group;
    } else {
      AdmitPrefix(mem, group[..|group| - 1], unreadable, i);
      assert group[..|group| - 1][..i] == group[..i];
    }
  }

  lemma AdmitAt(mem: seq<Version>, group: seq<Request>, unreadable: Bytes -> bool, i: nat)
    requires i < |group|
    ensures var a, p := Admit(mem, group, unreadable), SlotOf(mem, group, unreadable, i);
      a.checks[i] == CheckAt(mem, group, unreadable, i) && p <= |a.batches| &&
      a.batches[..p] == Admit(mem, group[..i], unreadable).batches &&
      (Applies(mem, group, unreadable, i) ==> p < |a.slots| && a.slots[p] == i && a.batches[p] == group[i].batch)
  {
    AdmitPrefix(mem, group, unreadable, i + 1);
    AdmitPrefix(mem, group, unreadable, i);
    assert group[..i + 1][..i] == group[..i];
  }

  /** Slot p of the group's apply belongs to the request that fills it. */
  lemma {:induction false} SlotFilled(mem: seq<Version>, group: seq<Request>, unreadable: Bytes -> bool, p: nat)
    requires p < |Admit(mem, group, unreadable).slots|
    ensures var i := Admit(mem, group, unreadable).slots[p];
      i < |group| && Applies(mem, group, unreadable, i) && SlotOf(mem, group, unreadable, i) == p
  {
    var pre := group[..|group| - 1];
    var a := Admit(mem, pre, unreadable);
    if p < |a.slots| {
      SlotFilled(mem, pre, unreadable, p);
      assert pre[..a.slots[p]] == group[..a.slots[p]];
    }
  }

  /** Everything the admitted batches write is in the written set. */
  lemma {:induction false} WrittenCovers(mem: seq<Version>, group: seq<Request>, unreadable: Bytes -> bool, p: nat)
    requires p < |Admit(mem, group, unreadable).batches|
    ensures OpKeys(Admit(mem, group, unreadable).batches[p].ops) <= Admit(mem, group, unreadable).written
  {
    if group != [] {
      var pre := group[..|group| - 1];
      if p < |Admit(mem, pre, unreadable).batches| { WrittenCovers(mem, pre, unreadable, p); }
    }
  }

  // ---------------------------------------------------------------- what a group writes

  /** Keys of the versions the first `g` accepted batches write: their ops' and their events'. */
  function OpKeysUpTo(bs: seq<Batch>, accepted: seq<Planned>, g: nat): set<Bytes>
    requires Increasing(accepted, |bs|) && g <= |accepted|
  {
    if g == 0 then {} else OpKeysUpTo(bs, accepted, g - 1) + OpKeys(bs[accepted[g - 1].index].ops)
  }

  function EventKeysUpTo(accepted: seq<Planned>, g: nat): set<Bytes>
    requires g <= |accepted|
  {
    if g == 0 then {} else EventKeysUpTo(accepted, g - 1) + OpKeys(accepted[g - 1].events)
  }

  function KeysOf(vs: seq<Version>): set<Bytes> {
    set v | v in vs :: v.key
  }

  /** An entry carries an op: same key, and the op's value or tombstone. */
  predicate Carries(vlog: seq<(Bytes, Bytes)>, e: Entry, op: BatchOp) {
    e.key == op.key &&
    match e.place
    case Here(value) => op.PutOp? && op.value == value
    case InVlog(record) => op.PutOp? && record < |vlog| && vlog[record] == (op.key, op.value)
    case Tombstone => op.DeleteOp?
  }

  lemma {:induction false} PlacedCarries(cfg: Config, ops: seq<BatchOp>, vlog: seq<(Bytes, Bytes)>)
    ensures var p := PlaceOps(cfg, ops, vlog);
      vlog <= p.vlog && forall i :: 0 <= i < |ops| ==> Carries(p.vlog, p.entries[i], ops[i])
  {
    if ops != [] {
      var pre := ops[..|ops| - 1];
      PlacedCarries(cfg, pre, vlog);
      var before := PlaceOps(cfg, pre, vlog);
      forall i | 0 <= i < |pre| ensures Carries(PlaceOps(cfg, ops, vlog).vlog, before.entries[i], ops[i]) {
        assert pre[i] == ops[i];
      }
    }
  }

  /** The commit made for an accepted batch carries its ops and then its events. */
  lemma AppliedCarries(cfg: Config, c: Core, b: Batch)
    ensures var c', ops := Applied(cfg, c, b), AllOps(cfg, b, c.visible + 1);
      c.vlog <= c'.vlog && c'.visible == c.visible + |ops| && |c'.commits| == |c.commits| + 1 &&
      c.commits <= c'.commits &&
      var made := c'.commits[|c.commits|];
      made.base == c.visible + 1 && |made.entries| == |ops| &&
      c'.commits == c.commits + [made] &&
      forall i :: 0 <= i < |ops| ==> Carries(c'.vlog, made.entries[i], ops[i])
  {
    PlacedCarries(cfg, AllOps(cfg, b, c.visible + 1), c.vlog);
  }

  lemma CarriedKeys(vlog: seq<(Bytes, Bytes)>, c: Commit, ops: seq<BatchOp>)
    requires |c.entries| == |ops| && forall i :: 0 <= i < |ops| ==> Carries(vlog, c.entries[i], ops[i])
    ensures KeysOf(Versions(c)) == OpKeys(ops)
  {
    forall k | k in OpKeys(ops) ensures k in KeysOf(Versions(c)) {
      var i :| 0 <= i < |ops| && ops[i].key == k;
      assert Versions(c)[i].key == k && Versions(c)[i] in Versions(c);
    }
    forall k | k in KeysOf(Versions(c)) ensures k in OpKeys(ops) {
      var i :| 0 <= i < |Versions(c)| && Versions(c)[i].key == k;
      assert ops[i] in ops && ops[i].key == k;
    }
  }

  lemma AllVersionsSnoc(cs: seq<Commit>, c: Commit)
    ensures AllVersions(cs + [c]) == AllVersions(cs) + Versions(c)
  {
    assert (cs + [c])[..|cs|] == cs;
  }

  /** The versions `vs` continue a dense history that has `visible` seqnos. */
  predicate DenseFrom(visible: SeqNo, vs: seq<Version>) {
    forall n :: 0 <= n < |vs| ==> vs[n].at == visible + n + 1
  }

  lemma DenseSnoc(visible: SeqNo, vs: seq<Version>, made: Commit)
    requires DenseFrom(visible, vs) && made.base == visible + |vs| + 1
    ensures DenseFrom(visible, vs + Versions(made))
    ensures KeysOf(vs + Versions(made)) == KeysOf(vs) + KeysOf(Versions(made))
  {
    var all := vs + Versions(made);
    forall k | k in KeysOf(vs) + KeysOf(Versions(made)) ensures k in KeysOf(all) {
      var v :| (v in vs || v in Versions(made)) && v.key == k;
      assert v in all;
    }
  }

  /** One more accepted batch writes its ops, then its events, at the next seqnos. */
  lemma PublishedNext(cfg: Config, c: Core, bs: seq<Batch>, accepted: seq<Planned>, g: nat) returns (made: Commit)
    requires FitsAll(cfg, c, bs, accepted) && g < |accepted|
    ensures var p, p' := Published(cfg, c, bs, accepted, g), Published(cfg, c, bs, accepted, g + 1);
      var ops := bs[accepted[g].index].ops + accepted[g].events;
      p'.commits == p.commits + [made] && made.base == p.visible + 1 && |made.entries| == |ops| &&
      p.vlog <= p'.vlog && p'.visible == p.visible + |ops| &&
      AllVersions(p'.commits) == AllVersions(p.commits) + Versions(made) &&
      KeysOf(Versions(made)) == OpKeys(bs[accepted[g].index].ops) + OpKeys(accepted[g].events) &&
      forall i :: 0 <= i < |ops| ==> Carries(p'.vlog, made.entries[i], ops[i])
  {
    hide Applied, Versions, AllVersions, Carries;
    assert FitsAt(cfg, c, bs, accepted, g);
    var p := Published(cfg, c, bs, accepted, g);
    var b := bs[accepted[g].index];
    AppliedCarries(cfg, p, b);
    var p' := Applied(cfg, p, b);
    made := p'.commits[|p.commits|];
    AllVersionsSnoc(p.commits, made);
    CarriedKeys(p'.vlog, made, b.ops + accepted[g].events);
    assert OpKeys(b.ops + accepted[g].events) == OpKeys(b.ops) + OpKeys(accepted[g].events);
  }

  /** What publishing the first `g` accepted batches adds to the store. */
  lemma {:induction false} PublishedWrites(cfg: Config, c: Core, bs: seq<Batch>, accepted: seq<Planned>, g: nat)
    requires FitsAll(cfg, c, bs, accepted) && g <= |accepted| && c.commits == []
    ensures var p := Published(cfg, c, bs, accepted, g);
      var vs := AllVersions(p.commits);
      p.visible == c.visible + |vs| && DenseFrom(c.visible, vs) && c.vlog <= p.vlog &&
      KeysOf(vs) == OpKeysUpTo(bs, accepted, g) + EventKeysUpTo(accepted, g)
  {
    hide Applied, Carries, FitsAt;
    if g > 0 {
      PublishedWrites(cfg, c, bs, accepted, g - 1);
      var made := PublishedNext(cfg, c, bs, accepted, g - 1);
      DenseSnoc(c.visible, AllVersions(Published(cfg, c, bs, accepted, g - 1).commits), made);
    }
  }

  // ---------------------------------------------------------------- the group's run

  function OutcomeOf(r: Result): Outcome {
    if r == Ok then Done else Failed(r.error)
  }

  /** The store after `n` accepted batches of a group, as applying them one by one leaves it. */
  ghost function AfterGroup(cfg: Config, mem: seq<Version>, vlog: seq<(Bytes, Bytes)>, group: seq<Request>,
                            unreadable: Bytes -> bool, n: nat): Core
  {
    var bs := Admit(mem, group, unreadable).batches;
    var accepted := PlanOf(cfg, |mem| + 1, bs).accepted;
    if Increasing(accepted, |bs|) && n <= |accepted| then Published(cfg, Core(|mem|, vlog, []), bs, accepted, n)
    else Core(|mem|, vlog, [])
  }

  /** The requests of a group ran, `published` of their accepted batches becoming visible. */
  ghost predicate Ran(cfg: Config, mem: seq<Version>, vlog: seq<(Bytes, Bytes)>, group: seq<Request>,
                      unreadable: Bytes -> bool, published: nat, mem': seq<Version>, outcomes: seq<Outcome>)
  {
    published <= |PlanOf(cfg, |mem| + 1, Admit(mem, group, unreadable).batches).accepted| && |outcomes| == |group| &&
    mem' == mem + AllVersions(AfterGroup(cfg, mem, vlog, group, unreadable, published).commits) &&
    forall i :: 0 <= i < |group| ==> OutcomeFits(cfg, mem, group, unreadable, published, i, outcomes[i])
  }

  /** Request `i` fails validation, has nothing to write, or gets its batch's result. */
  ghost predicate OutcomeFits(cfg: Config, mem: seq<Version>, group: seq<Request>, unreadable: Bytes -> bool,
                              published: nat, i: nat, o: Outcome)
    requires i < |group|
  {
    var check, ops := CheckAt(mem, group, unreadable, i), group[i].batch.ops;
    (o == Conflict <==> check.Hit?) && (o == Unreadable <==> check.CannotRead?) && o != Background && o != Closed &&
    (check.Clear? ==> (o == Done <==> ops == [] || IsPublished(cfg, mem, group, unreadable, published, i)))
  }

  /** The batch of request `i` passed phase 0 and is among the published. */
  ghost predicate IsPublished(cfg: Config, mem: seq<Version>, group: seq<Request>, unreadable: Bytes -> bool,
                              published: nat, i: nat)
    requires i < |group|
  {
    var bs := Admit(mem, group[..i], unreadable).batches;
    var plan := PlanOf(cfg, |mem| + 1, bs);
    GroupRejection(cfg, plan.next - 1, group[i].batch).None? && |plan.accepted| < published
  }

  method Validate(mem: seq<Version>, written: set<Bytes>, v: Validation, unreadable: Bytes -> bool) returns (c: Check)
    ensures c == CheckKeys(mem, written, v.snap, v.keys, unreadable)
  {
    var j := 0;
    while j < |v.keys|
      invariant 0 <= j <= |v.keys|
      invariant CheckKeys(mem, written, v.snap, v.keys, unreadable) ==
        CheckKeys(mem, written, v.snap, v.keys[j..], unreadable)
    {
      var key := v.keys[j];
      if key in written { return Hit; }
      if unreadable(key) { return CannotRead; }
      if NewestOf(mem, key) > v.snap { return Hit; }
      assert v.keys[j..][1..] == v.keys[j + 1..];
      j := j + 1;
    }
    return Clear;
  }

  /** The validation loop's answer for request `i`: an outcome, or none yet if its batch is applied. */
  ghost predicate Judged(mem: seq<Version>, group: seq<Request>, unreadable: Bytes -> bool, i: nat, o: Option<Outcome>)
    requires i < |group|
  {
    match CheckAt(mem, group, unreadable, i)
    case Hit => o == Some(Conflict)
    case CannotRead => o == Some(Unreadable)
    case Clear => o == if group[i].batch.ops == [] then Some(Done) else None
  }

  method ValidateGroup(mem: seq<Version>, group: seq<Request>, unreadable: Bytes -> bool)
    returns (batches: seq<Batch>, slots: seq<nat>, outcomes: seq<Option<Outcome>>)
    ensures Admit(mem, group, unreadable).batches == batches && Admit(mem, group, unreadable).slots == slots
    ensures |outcomes| == |group| && forall i :: 0 <= i < |group| ==> Judged(mem, group, unreadable, i, outcomes[i])
  {
    batches, slots, outcomes := [], [], [];
    var written := {};
    ghost var checks := [];
    var i := 0;
    while i < |group|
      invariant 0 <= i <= |group| && |outcomes| == i
      invariant Admit(mem, group[..i], unreadable) == Admission(checks, written, batches, slots)
      invariant forall j :: 0 <= j < i ==> Judged(mem, group, unreadable, j, outcomes[j])
    {
      assert group[..i + 1][..i] == group[..i];
      var r := group[i];
      var c := Clear;
      if r.validate.Some? { c := Validate(mem, written, r.validate.value, unreadable); }
      checks := checks + [c];
      assert c == CheckAt(mem, group, unreadable, i);
      match c {
        case Hit => outcomes := outcomes + [Some(Conflict)];
        case CannotRead => outcomes := outcomes + [Some(Unreadable)];
        case Clear =>
          if r.batch.ops == [] {
            outcomes := outcomes + [Some(Done)];
          } else {
            written := written + OpKeys(r.batch.ops);
            batches, slots := batches + [r.batch], slots + [i];
            outcomes := outcomes + [None];
          }
      }
      i := i + 1;
    }
    assert group[..i] == group;
  }

  /** If request `i` is applied, its batch's result is its outcome. */
  ghost predicate Filled(mem: seq<Version>, group: seq<Request>, unreadable: Bytes -> bool, applied: seq<Result>,
                         i: nat, o: Option<Outcome>)
    requires i < |group|
  {
    var p := SlotOf(mem, group, unreadable, i);
    if Applies(mem, group, unreadable, i) then p < |applied| && o == Some(OutcomeOf(applied[p]))
    else Judged(mem, group, unreadable, i, o) && o.Some?
  }

  lemma FilledFits(cfg: Config, mem: seq<Version>, group: seq<Request>, unreadable: Bytes -> bool, applied: seq<Result>,
                   published: nat, i: nat, o: Option<Outcome>)
    requires i < |group| && Filled(mem, group, unreadable, applied, i, o)
    requires OneResultEach(cfg, |mem| + 1, Admit(mem, group, unreadable).batches, published, applied)
    ensures o.Some? && OutcomeFits(cfg, mem, group, unreadable, published, i, o.value)
  {
    hide Admit, PlanOf, GroupRejection, CheckOf, NewestOf, OpKeys, Events;
    AdmitAt(mem, group, unreadable, i);
  }

  /** Hand each applied batch's result to its request. */
  method FillIn(ghost cfg: Config, ghost mem: seq<Version>, ghost group: seq<Request>, ghost unreadable: Bytes -> bool,
                slots: seq<nat>, judged: seq<Option<Outcome>>, applied: seq<Result>, ghost published: nat)
    returns (outcomes: seq<Outcome>)
    requires slots == Admit(mem, group, unreadable).slots && |judged| == |group|
    requires forall i :: 0 <= i < |group| ==> Judged(mem, group, unreadable, i, judged[i])
    requires OneResultEach(cfg, |mem| + 1, Admit(mem, group, unreadable).batches, published, applied)
    ensures |outcomes| == |group|
    ensures forall i :: 0 <= i < |group| ==> OutcomeFits(cfg, mem, group, unreadable, published, i, outcomes[i])
  {
    hide Admit, Judged, OutcomeFits, CheckAt;
    var filled := judged;
    var p := 0;
    while p < |slots|
      invariant 0 <= p <= |slots| && |filled| == |group|
      invariant forall i ::
        0 <= i < |group| && (!Applies(mem, group, unreadable, i) || SlotOf(mem, group, unreadable, i) >= p) ==>
        filled[i] == judged[i]
      invariant forall i ::
        0 <= i < |group| && Applies(mem, group, unreadable, i) && SlotOf(mem, group, unreadable, i) < p ==>
        filled[i] == Some(OutcomeOf(applied[SlotOf(mem, group, unreadable, i)]))
    {
      SlotFilled(mem, group, unreadable, p);
      SlotsDiffer(mem, group, unreadable, p);
      filled := filled[slots[p] := Some(OutcomeOf(applied[p]))];
      p := p + 1;
    }
    outcomes := [];
    var i := 0;
    while i < |filled|
      invariant 0 <= i <= |filled| == |group| && |outcomes| == i
      invariant forall j :: 0 <= j < i ==> OutcomeFits(cfg, mem, group, unreadable, published, j, outcomes[j])
    {
      JudgedOrFilled(mem, group, unreadable, applied, i, judged[i], filled[i]);
      FilledFits(cfg, mem, group, unreadable, applied, published, i, filled[i]);
      outcomes := outcomes + [filled[i].value];
      i := i + 1;
    }
  }

  lemma SlotsDiffer(mem: seq<Version>, group: seq<Request>, unreadable: Bytes -> bool, p: nat)
    requires p < |Admit(mem, group, unreadable).slots|
    ensures forall i ::
      0 <= i < |group| && Applies(mem, group, unreadable, i) && SlotOf(mem, group, unreadable, i) == p ==>
      i == Admit(mem, group, unreadable).slots[p]
  {
    forall i | 0 <= i < |group| && Applies(mem, group, unreadable, i) && SlotOf(mem, group, unreadable, i) == p
      ensures i == Admit(mem, group, unreadable).slots[p]
    {
      AdmitAt(mem, group, unreadable, i);
    }
  }

  lemma JudgedOrFilled(mem: seq<Version>, group: seq<Request>, unreadable: Bytes -> bool, applied: seq<Result>,
                       i: nat, was: Option<Outcome>, o: Option<Outcome>)
    requires i < |group| && Judged(mem, group, unreadable, i, was) && |applied| == |Admit(mem, group, unreadable).slots|
    requires !Applies(mem, group, unreadable, i) ==> o == was
    requires Applies(mem, group, unreadable, i) && SlotOf(mem, group, unreadable, i) < |applied| ==>
      o == Some(OutcomeOf(applied[SlotOf(mem, group, unreadable, i)]))
    ensures Filled(mem, group, unreadable, applied, i, o)
  {
    AdmitAt(mem, group, unreadable, i);
  }

  /** Validation and application of one group, in one critical section. */
  method RunGroup(w: Writer, group: seq<Request>, unreadable: Bytes -> bool, f: Faults)
    returns (outcomes: seq<Outcome>, ghost published: nat)
    requires Dense(w.mem) && w.visible == |w.mem|
    modifies w
    ensures Ran(w.cfg, old(w.mem), old(w.vlog), group, unreadable, published, w.mem, outcomes)
    ensures Dense(w.mem) && w.visible == |w.mem| && old(w.vlog) <= w.vlog
    ensures AfterGroup(w.cfg, old(w.mem), old(w.vlog), group, unreadable, published).vlog <= w.vlog
    ensures old(w.degraded) ==> w.degraded
  {
    ghost var mem, vlog := w.mem, w.vlog;
    var batches, slots, judged := ValidateGroup(w.mem, group, unreadable);
    var applied: seq<Result> := [];
    published := 0;
    if batches != [] { applied, published := w.ApplyGroup(batches, f); }
    GroupWrites(w.cfg, mem, vlog, batches, published);
    outcomes := FillIn(w.cfg, mem, group, unreadable, slots, judged, applied, published);
  }

  /** The store stays dense, whatever prefix of the group was published. */
  lemma GroupWrites(cfg: Config, mem: seq<Version>, vlog: seq<(Bytes, Bytes)>, bs: seq<Batch>, published: nat)
    requires Dense(mem) && published <= |PlanOf(cfg, |mem| + 1, bs).accepted|
    ensures var accepted := PlanOf(cfg, |mem| + 1, bs).accepted;
      Increasing(accepted, |bs|) && FitsAll(cfg, Core(|mem|, vlog, []), bs, accepted) &&
      var p := Published(cfg, Core(|mem|, vlog, []), bs, accepted, published);
      Dense(mem + AllVersions(p.commits)) && p.visible == |mem + AllVersions(p.commits)| && vlog <= p.vlog
  {
    hide Applied, PlanOf, OneByOne, FitsAt, AllVersions;
    var c := Core(|mem|, vlog, []);
    PlanIsOneByOne(cfg, c, bs);
    PublishedWrites(cfg, c, bs, PlanOf(cfg, |mem| + 1, bs).accepted, published);
  }

  // ---------------------------------------------------------------- first committer wins

  /** How many batches the members before request `i` published. */
  ghost function Ahead(cfg: Config, mem: seq<Version>, group: seq<Request>, unreadable: Bytes -> bool,
                       published: nat, i: nat): nat
    requires i <= |group|
  {
    var before := |PlanOf(cfg, |mem| + 1, Admit(mem, group[..i], unreadable).batches).accepted|;
    if before < published then before else published
  }

  /** Where request `i` takes effect: the seqno its predecessors reached. */
  ghost function PointOf(cfg: Config, mem: seq<Version>, vlog: seq<(Bytes, Bytes)>, group: seq<Request>,
                         unreadable: Bytes -> bool, published: nat, i: nat): SeqNo
    requires i <= |group|
  {
    AfterGroup(cfg, mem, vlog, group, unreadable, Ahead(cfg, mem, group, unreadable, published, i)).visible
  }

  /** Trigger events captured by the members before request `i` and published with them. */
  ghost function EventsAhead(cfg: Config, mem: seq<Version>, group: seq<Request>, unreadable: Bytes -> bool,
                             published: nat, i: nat): set<Bytes>
    requires i <= |group|
  {
    var accepted := PlanOf(cfg, |mem| + 1, Admit(mem, group, unreadable).batches).accepted;
    var n := Ahead(cfg, mem, group, unreadable, published, i);
    if n <= |accepted| then EventKeysUpTo(accepted, n) else {}
  }

  lemma {:induction false} AllVersionsPrefix(cs: seq<Commit>, n: nat)
    requires n <= |cs|
    ensures AllVersions(cs[..n]) <= AllVersions(cs)
  {
    if n < |cs| {
      AllVersionsPrefix(cs[..|cs| - 1], n);
      assert cs[..|cs| - 1][..n] == cs[..n];
    } else {
      assert cs[..n] == cs;
    }
  }

  /** The batches published ahead of request `i` are batches of requests before it. */
  lemma AheadIsBefore(cfg: Config, mem: seq<Version>, group: seq<Request>, unreadable: Bytes -> bool, published: nat,
                      i: nat)
    requires i <= |group|
    ensures var bs := Admit(mem, group, unreadable).batches;
      var accepted := PlanOf(cfg, |mem| + 1, bs).accepted;
      var n := Ahead(cfg, mem, group, unreadable, published, i);
      Increasing(accepted, |bs|) && n <= |accepted| &&
      OpKeysUpTo(bs, accepted, n) <= Admit(mem, group[..i], unreadable).written
  {
    var pre, all := Admit(mem, group[..i], unreadable).batches, Admit(mem, group, unreadable).batches;
    AdmitPrefix(mem, group, unreadable, i);
    assert all[..|pre|] == pre;
    PlanPrefix(cfg, |mem| + 1, all, |pre|);
    PlanIncreasing(cfg, |mem| + 1, all);
    PlanIncreasing(cfg, |mem| + 1, pre);
    var accepted := PlanOf(cfg, |mem| + 1, all).accepted;
    var n := Ahead(cfg, mem, group, unreadable, published, i);
    forall h | 0 <= h < n
      ensures accepted[h].index < |pre| &&
        OpKeys(all[accepted[h].index].ops) <= Admit(mem, group[..i], unreadable).written
    {
      assert accepted[h] == PlanOf(cfg, |mem| + 1, pre).accepted[h];
      WrittenCovers(mem, group[..i], unreadable, accepted[h].index);
    }
    OpKeysWithin(all, accepted, n, Admit(mem, group[..i], unreadable).written);
  }

  lemma {:induction false} OpKeysWithin(bs: seq<Batch>, accepted: seq<Planned>, n: nat, written: set<Bytes>)
    requires Increasing(accepted, |bs|) && n <= |accepted|
    requires forall h :: 0 <= h < n ==> OpKeys(bs[accepted[h].index].ops) <= written
    ensures OpKeysUpTo(bs, accepted, n) <= written
  {
    if n > 0 { OpKeysWithin(bs, accepted, n - 1, written); }
  }

  /** Up to where request `i` takes effect, the store holds what it held before the group and what
      the members ahead of it published. */
  lemma StoreAtPoint(cfg: Config, mem: seq<Version>, vlog: seq<(Bytes, Bytes)>, group: seq<Request>,
                     unreadable: Bytes -> bool, published: nat, mem': seq<Version>, outcomes: seq<Outcome>, i: nat)
    requires Dense(mem) && Ran(cfg, mem, vlog, group, unreadable, published, mem', outcomes) && i <= |group|
    ensures var n := Ahead(cfg, mem, group, unreadable, published, i);
      var vs := AllVersions(AfterGroup(cfg, mem, vlog, group, unreadable, n).commits);
      var at := PointOf(cfg, mem, vlog, group, unreadable, published, i);
      at == |mem| + |vs| <= |mem'| && mem'[..at] == mem + vs && n <= published
  {
    hide Admit, PlanOf, Published, OutcomeFits, AllVersions;
    var bs := Admit(mem, group, unreadable).batches;
    var accepted := PlanOf(cfg, |mem| + 1, bs).accepted;
    var c := Core(|mem|, vlog, []);
    var n := Ahead(cfg, mem, group, unreadable, published, i);
    AheadIsBefore(cfg, mem, group, unreadable, published, i);
    GroupWrites(cfg, mem, vlog, bs, published);
    GroupWrites(cfg, mem, vlog, bs, n);
    PublishedPrefix(cfg, c, bs, accepted, n, published);
    AllVersionsPrefix(Published(cfg, c, bs, accepted, published).commits, n);
  }

  /** First committer wins, and its one exception.
   *
   * A transaction that commits has, between its snapshot and the point where it takes effect, no
   * version of a key it wrote or locked, exactly unless a member ahead of it in the same group
   * captured a trigger event under such a key: the group check tracks the ops of its members and
   * not the events riding with them. */
  lemma FirstCommitterWins(cfg: Config, mem: seq<Version>, vlog: seq<(Bytes, Bytes)>, group: seq<Request>,
                           unreadable: Bytes -> bool, published: nat, mem': seq<Version>, outcomes: seq<Outcome>,
                           i: nat)
    requires Dense(mem) && Ran(cfg, mem, vlog, group, unreadable, published, mem', outcomes)
    requires i < |group| && outcomes[i] == Done && group[i].validate.Some? && group[i].validate.value.snap <= |mem|
    ensures var v, at := group[i].validate.value, PointOf(cfg, mem, vlog, group, unreadable, published, i);
      (forall k :: k in v.keys ==> !WrittenIn(mem', k, v.snap, at)) <==>
      (forall k :: k in v.keys ==> k !in EventsAhead(cfg, mem, group, unreadable, published, i))
  {
    var v, at := group[i].validate.value, PointOf(cfg, mem, vlog, group, unreadable, published, i);
    var n := Ahead(cfg, mem, group, unreadable, published, i);
    StoreAtPoint(cfg, mem, vlog, group, unreadable, published, mem', outcomes, i);
    forall k | k in v.keys
      ensures WrittenIn(mem', k, v.snap, at) <==> k in EventsAhead(cfg, mem, group, unreadable, published, i)
    {
      KeyAtPoint(cfg, mem, vlog, group, unreadable, published, i, k);
      NewerInPrefix(mem, AllVersions(AfterGroup(cfg, mem, vlog, group, unreadable, n).commits), mem', k, v.snap);
    }
  }

  /** A validated key is newly written by the members ahead only as an event. */
  lemma KeyAtPoint(cfg: Config, mem: seq<Version>, vlog: seq<(Bytes, Bytes)>, group: seq<Request>,
                   unreadable: Bytes -> bool, published: nat, i: nat, k: Bytes)
    requires Dense(mem) && i < |group| && CheckAt(mem, group, unreadable, i).Clear?
    requires group[i].validate.Some? && k in group[i].validate.value.keys
    ensures !WrittenIn(mem, k, group[i].validate.value.snap, |mem|)
    ensures var n := Ahead(cfg, mem, group, unreadable, published, i);
      k in KeysOf(AllVersions(AfterGroup(cfg, mem, vlog, group, unreadable, n).commits)) <==>
      k in EventsAhead(cfg, mem, group, unreadable, published, i)
  {
    hide Admit, PlanOf, Published, AllVersions, KeysOf, OpKeysUpTo, EventKeysUpTo, WrittenIn, CheckKeys;
    var v, written := group[i].validate.value, Admit(mem, group[..i], unreadable).written;
    CheckIsExact(mem, written, v.snap, v.keys, unreadable);
    AheadIsBefore(cfg, mem, group, unreadable, published, i);
    var bs := Admit(mem, group, unreadable).batches;
    PlanIsOneByOne(cfg, Core(|mem|, vlog, []), bs);
    PublishedWrites(cfg, Core(|mem|, vlog, []), bs, PlanOf(cfg, |mem| + 1, bs).accepted,
                    Ahead(cfg, mem, group, unreadable, published, i));
  }

  lemma NewerInPrefix(mem: seq<Version>, vs: seq<Version>, mem': seq<Version>, k: Bytes, snap: SeqNo)
    requires snap <= |mem| && |mem| + |vs| <= |mem'| && mem'[..|mem| + |vs|] == mem + vs
    requires !WrittenIn(mem, k, snap, |mem|)
    ensures WrittenIn(mem', k, snap, |mem| + |vs|) <==> k in KeysOf(vs)
  {
    forall j | 0 <= j < |mem| + |vs| ensures mem'[j] == (mem + vs)[j] {
      assert mem'[..|mem| + |vs|][j] == (mem + vs)[j];
    }
    if WrittenIn(mem', k, snap, |mem| + |vs|) {
      var n :| snap < n <= |mem| + |vs| && Writes(mem', k, n);
      assert n <= |mem| ==> mem'[..|mem| + |vs|][n - 1] == mem[n - 1];
      assert n <= |mem| ==> Writes(mem, k, n);
      assert vs[n - 1 - |mem|] in vs;
    }
    if k in KeysOf(vs) {
      var j :| 0 <= j < |vs| && vs[j].key == k;
      assert Writes(mem', k, |mem| + j + 1);
    }
  }

  /** `ops` were committed right after seqno `at`, with their values. */
  predicate Sits(mem: seq<Version>, vlog: seq<(Bytes, Bytes)>, at: SeqNo, ops: seq<BatchOp>) {
    at + |ops| <= |mem| &&
    forall k :: 0 <= k < |ops| ==> Carries(vlog, Entry(mem[at + k].key, mem[at + k].place), ops[k])
  }

  /** A batch told Done is in the store, whole, right after the point where it takes effect. */
  lemma DoneIsVisible(cfg: Config, mem: seq<Version>, vlog: seq<(Bytes, Bytes)>, group: seq<Request>,
                      unreadable: Bytes -> bool, published: nat, mem': seq<Version>, outcomes: seq<Outcome>, i: nat)
    requires Dense(mem) && Ran(cfg, mem, vlog, group, unreadable, published, mem', outcomes)
    requires i < |group| && outcomes[i] == Done && group[i].batch.ops != []
    ensures var at := PointOf(cfg, mem, vlog, group, unreadable, published, i);
      Sits(mem', AfterGroup(cfg, mem, vlog, group, unreadable, published).vlog, at, group[i].batch.ops)
  {
    hide *;
    var bs := Admit(mem, group, unreadable).batches;
    var accepted := PlanOf(cfg, |mem| + 1, bs).accepted;
    var r := Ahead(cfg, mem, group, unreadable, published, i);
    DoneIsAccepted(cfg, mem, vlog, group, unreadable, published, mem', outcomes, i);
    var made := PublishedAfter(cfg, Core(|mem|, vlog, []), bs, accepted, r, published);
    var vs := AllVersions(AfterGroup(cfg, mem, vlog, group, unreadable, r).commits);
    StoreAtPoint(cfg, mem, vlog, group, unreadable, published, mem', outcomes, i);
    SitsThere(mem, vs, made, mem', AfterGroup(cfg, mem, vlog, group, unreadable, published).vlog,
              group[i].batch.ops, accepted[r].events);
  }

  /** Rank r of the group is the batch of request `i`, if that was told Done. */
  lemma DoneIsAccepted(cfg: Config, mem: seq<Version>, vlog: seq<(Bytes, Bytes)>, group: seq<Request>,
                       unreadable: Bytes -> bool, published: nat, mem': seq<Version>, outcomes: seq<Outcome>, i: nat)
    requires Dense(mem) && Ran(cfg, mem, vlog, group, unreadable, published, mem', outcomes)
    requires i < |group| && outcomes[i] == Done && group[i].batch.ops != []
    ensures Applies(mem, group, unreadable, i) && IsPublished(cfg, mem, group, unreadable, published, i)
    ensures var bs := Admit(mem, group, unreadable).batches;
      var accepted := PlanOf(cfg, |mem| + 1, bs).accepted;
      var r := Ahead(cfg, mem, group, unreadable, published, i);
      FitsAll(cfg, Core(|mem|, vlog, []), bs, accepted) && r < published <= |accepted| &&
      bs[accepted[r].index] == group[i].batch &&
      AfterGroup(cfg, mem, vlog, group, unreadable, r) == Published(cfg, Core(|mem|, vlog, []), bs, accepted, r) &&
      AfterGroup(cfg, mem, vlog, group, unreadable, published) ==
        Published(cfg, Core(|mem|, vlog, []), bs, accepted, published) &&
      mem' == mem + AllVersions(Published(cfg, Core(|mem|, vlog, []), bs, accepted, published).commits)
  {
    hide Admit, PlanOf, Published, AllVersions, GroupRejection;
    var bs := Admit(mem, group, unreadable).batches;
    AdmitAt(mem, group, unreadable, i);
    assert IsPublished(cfg, mem, group, unreadable, published, i);
    PlanAt(cfg, |mem| + 1, bs, SlotOf(mem, group, unreadable, i));
    PlanIsOneByOne(cfg, Core(|mem|, vlog, []), bs);
  }

  /** Rank r's commit, among those published in the end. */
  lemma PublishedAfter(cfg: Config, c: Core, bs: seq<Batch>, accepted: seq<Planned>, r: nat, n: nat)
    returns (made: Commit)
    requires FitsAll(cfg, c, bs, accepted) && r < n <= |accepted| && c.commits == []
    ensures var ops, p, p' := bs[accepted[r].index].ops + accepted[r].events, Published(cfg, c, bs, accepted, r),
                              Published(cfg, c, bs, accepted, n);
      |made.entries| == |ops| && AllVersions(p.commits) + Versions(made) <= AllVersions(p'.commits) &&
      forall i :: 0 <= i < |ops| ==> Carries(p'.vlog, made.entries[i], ops[i])
  {
    hide Published, Versions, AllVersions;
    made := PublishedNext(cfg, c, bs, accepted, r);
    PublishedPrefix(cfg, c, bs, accepted, r + 1, n);
    AllVersionsPrefix(Published(cfg, c, bs, accepted, n).commits, r + 1);
    PublishedVlogGrows(cfg, c, bs, accepted, r + 1, n);
  }

  lemma SitsThere(mem: seq<Version>, vs: seq<Version>, made: Commit, mem': seq<Version>, vlog: seq<(Bytes, Bytes)>,
                  ops: seq<BatchOp>, events: seq<BatchOp>)
    requires mem <= mem' && vs + Versions(made) <= mem'[|mem|..] && |made.entries| == |ops + events|
    requires forall i :: 0 <= i < |ops + events| ==> Carries(vlog, made.entries[i], (ops + events)[i])
    ensures Sits(mem', vlog, |mem| + |vs|, ops)
  {
    var at := |mem| + |vs|;
    forall k | 0 <= k < |ops| ensures Carries(vlog, Entry(mem'[at + k].key, mem'[at + k].place), ops[k]) {
      assert mem'[at + k] == mem'[|mem|..][|vs| + k] == (vs + Versions(made))[|vs| + k] == Versions(made)[k];
      assert Carries(vlog, made.entries[k], (ops + events)[k]);
    }
  }

  /** Trigger events are captured under reserved keys. */
  ghost predicate CapturesOnly(cfg: Config, reserved: Bytes -> bool) {
    forall ops, base, op :: op in cfg.capture(ops, base) ==> reserved(op.key)
  }

  lemma {:induction false} EventKeysReserved(cfg: Config, c: Core, bs: seq<Batch>, accepted: seq<Planned>, g: nat,
                                             reserved: Bytes -> bool)
    requires CapturesOnly(cfg, reserved) && FitsAll(cfg, c, bs, accepted) && g <= |accepted|
    ensures forall k :: k in EventKeysUpTo(accepted, g) ==> reserved(k)
  {
    if g > 0 {
      EventKeysReserved(cfg, c, bs, accepted, g - 1, reserved);
      assert FitsAt(cfg, c, bs, accepted, g - 1);
    }
  }

  /** So a transaction over user keys always wins. */
  lemma EventsAheadReserved(cfg: Config, mem: seq<Version>, group: seq<Request>, unreadable: Bytes -> bool,
                            published: nat, i: nat, reserved: Bytes -> bool)
    requires CapturesOnly(cfg, reserved) && i <= |group|
    ensures forall k :: k in EventsAhead(cfg, mem, group, unreadable, published, i) ==> reserved(k)
  {
    hide Admit, PlanOf, EventKeysUpTo, CapturesOnly;
    var bs := Admit(mem, group, unreadable).batches;
    AheadIsBefore(cfg, mem, group, unreadable, published, i);
    PlanIsOneByOne(cfg, Core(|mem|, [], []), bs);
    EventKeysReserved(cfg, Core(|mem|, [], []), bs, PlanOf(cfg, |mem| + 1, bs).accepted,
                      Ahead(cfg, mem, group, unreadable, published, i), reserved);
  }

  // ---------------------------------------------------------------- nothing else is visible

  /** How many versions request `i` wrote: its ops and the events captured with them. */
  ghost function WidthOf(cfg: Config, mem: seq<Version>, vlog: seq<(Bytes, Bytes)>, group: seq<Request>,
                         unreadable: Bytes -> bool, published: nat, i: nat): nat
    requires i <= |group|
  {
    var n := Ahead(cfg, mem, group, unreadable, published, i);
    var from, to := AfterGroup(cfg, mem, vlog, group, unreadable, n).visible,
      AfterGroup(cfg, mem, vlog, group, unreadable, n + 1).visible;
    if from <= to then to - from else 0
  }

  lemma {:induction false} PublishedGrows(cfg: Config, c: Core, bs: seq<Batch>, accepted: seq<Planned>, g: nat, n: nat)
    requires Increasing(accepted, |bs|) && g <= n <= |accepted|
    ensures c.visible <= Published(cfg, c, bs, accepted, g).visible <= Published(cfg, c, bs, accepted, n).visible
    decreases n
  {
    hide PlaceOps, AllOps;
    if n > 0 { PublishedGrows(cfg, c, bs, accepted, if g < n then g else n - 1, n - 1); }
  }

  /** Each published seqno belongs to one accepted batch. */
  lemma {:induction false} RankOfSeqno(cfg: Config, c: Core, bs: seq<Batch>, accepted: seq<Planned>, g: nat, n: SeqNo)
    returns (h: nat)
    requires Increasing(accepted, |bs|) && g <= |accepted|
    requires c.visible <= n < Published(cfg, c, bs, accepted, g).visible
    ensures h < g && Published(cfg, c, bs, accepted, h).visible <= n < Published(cfg, c, bs, accepted, h + 1).visible
  {
    hide Applied;
    if n >= Published(cfg, c, bs, accepted, g - 1).visible { h := g - 1; }
    else { h := RankOfSeqno(cfg, c, bs, accepted, g - 1, n); }
  }

  /** The request behind rank h of the group's accepted batches was told Done. */
  lemma RequestOfRank(cfg: Config, mem: seq<Version>, vlog: seq<(Bytes, Bytes)>, group: seq<Request>,
                      unreadable: Bytes -> bool, published: nat, mem': seq<Version>, outcomes: seq<Outcome>, h: nat)
    returns (i: nat)
    requires Ran(cfg, mem, vlog, group, unreadable, published, mem', outcomes) && h < published
    ensures i < |group| && outcomes[i] == Done && group[i].batch.ops != []
    ensures Ahead(cfg, mem, group, unreadable, published, i) == h
  {
    hide Admit, GroupRejection;
    var bs := Admit(mem, group, unreadable).batches;
    var accepted := PlanOf(cfg, |mem| + 1, bs).accepted;
    PlanIncreasing(cfg, |mem| + 1, bs);
    var p := accepted[h].index;
    i := Admit(mem, group, unreadable).slots[p];
    SlotFilled(mem, group, unreadable, p);
    AdmitAt(mem, group, unreadable, i);
    PlanAt(cfg, |mem| + 1, bs, p);
    SameRank(accepted, |bs|, h, RankOf(cfg, |mem| + 1, bs, p));
  }

  lemma SameRank(accepted: seq<Planned>, n: nat, g: nat, h: nat)
    requires Increasing(accepted, n) && g < |accepted| && h < |accepted| && accepted[g].index == accepted[h].index
    ensures g == h
  {
  }

  /** Every version the group made visible was written by a request told Done. */
  lemma VisibleIsDone(cfg: Config, mem: seq<Version>, vlog: seq<(Bytes, Bytes)>, group: seq<Request>,
                      unreadable: Bytes -> bool, published: nat, mem': seq<Version>, outcomes: seq<Outcome>, n: SeqNo)
    returns (i: nat)
    requires Dense(mem) && Ran(cfg, mem, vlog, group, unreadable, published, mem', outcomes)
    requires |mem| <= n < |mem'|
    ensures i < |group| && outcomes[i] == Done && group[i].batch.ops != []
    ensures var at := PointOf(cfg, mem, vlog, group, unreadable, published, i);
      at <= n < at + WidthOf(cfg, mem, vlog, group, unreadable, published, i)
  {
    hide Admit, PlanOf, Published, AllVersions, OutcomeFits, Ahead;
    var bs := Admit(mem, group, unreadable).batches;
    var accepted := PlanOf(cfg, |mem| + 1, bs).accepted;
    GroupWrites(cfg, mem, vlog, bs, published);
    var h := RankOfSeqno(cfg, Core(|mem|, vlog, []), bs, accepted, published, n);
    i := RequestOfRank(cfg, mem, vlog, group, unreadable, published, mem', outcomes, h);
  }

  /** Requests told Done write disjoint ranges, in queue order, each at least as wide as its ops. */
  lemma RangesInOrder(cfg: Config, mem: seq<Version>, vlog: seq<(Bytes, Bytes)>, group: seq<Request>,
                      unreadable: Bytes -> bool, published: nat, mem': seq<Version>, outcomes: seq<Outcome>, i: nat,
                      j: nat)
    requires Dense(mem) && Ran(cfg, mem, vlog, group, unreadable, published, mem', outcomes)
    requires i < j <= |group| && outcomes[i] == Done && group[i].batch.ops != []
    ensures PointOf(cfg, mem, vlog, group, unreadable, published, i) +
            WidthOf(cfg, mem, vlog, group, unreadable, published, i) <=
            PointOf(cfg, mem, vlog, group, unreadable, published, j) <= |mem'|
    ensures WidthOf(cfg, mem, vlog, group, unreadable, published, i) >= |group[i].batch.ops|
  {
    hide Admit, PlanOf, Published, AllVersions, OutcomeFits, Ahead;
    var bs := Admit(mem, group, unreadable).batches;
    var accepted := PlanOf(cfg, |mem| + 1, bs).accepted;
    var c := Core(|mem|, vlog, []);
    var r, s := Ahead(cfg, mem, group, unreadable, published, i), Ahead(cfg, mem, group, unreadable, published, j);
    DoneIsAccepted(cfg, mem, vlog, group, unreadable, published, mem', outcomes, i);
    var made := PublishedNext(cfg, c, bs, accepted, r);
    AheadGrows(cfg, mem, group, unreadable, published, i, j, r);
    AheadIsBefore(cfg, mem, group, unreadable, published, j);
    PublishedGrows(cfg, c, bs, accepted, r + 1, s);
    StoreAtPoint(cfg, mem, vlog, group, unreadable, published, mem', outcomes, j);
  }

  lemma AheadGrows(cfg: Config, mem: seq<Version>, group: seq<Request>, unreadable: Bytes -> bool, published: nat,
                   i: nat, j: nat, r: nat)
    requires i < j <= |group| && Applies(mem, group, unreadable, i)
    requires IsPublished(cfg, mem, group, unreadable, published, i) &&
      r == Ahead(cfg, mem, group, unreadable, published, i)
    ensures r + 1 <= Ahead(cfg, mem, group, unreadable, published, j)
  {
    hide Admit;
    var bsj := Admit(mem, group[..j], unreadable).batches;
    assert group[..j][..i] == group[..i] && group[..j][i] == group[i];
    AdmitAt(mem, group[..j], unreadable, i);
    PlanAt(cfg, |mem| + 1, bsj, |Admit(mem, group[..i], unreadable).batches|);
  }

  // ---------------------------------------------------------------- the exception is real

  /** The keys of the example: a user key, and the queue key of a keys-mode trigger that it touches. */
  datatype Keyed = Keyed(user: Bytes, queue: Bytes)

  predicate Fits(x: Keyed) {
    x.user != x.queue && |x.user| + |x.queue| + 64 < WAL_RECORD_LIMIT
  }

  /** Touching the user key enqueues it under its queue key. */
  function Touch(x: Keyed, ops: seq<BatchOp>): seq<BatchOp> {
    if exists op :: op in ops && op.key == x.user then [PutOp(x.queue, [])] else []
  }

  function Touching(x: Keyed, syncAlways: bool): Config {
    Config(1, (ops, base) => Touch(x, ops), syncAlways)
  }

  ghost predicate Captures(x: Keyed, cfg: Config) {
    forall ops, base :: cfg.capture(ops, base) == Touch(x, ops)
  }

  predicate Unreadables(k: Bytes) { false }

  function TouchBatch(x: Keyed): Batch { Batch([PutOp(x.user, [])], true) }

  function ConsumeBatch(x: Keyed): Batch { Batch([DeleteOp(x.queue)], false) }

  function Toucher(x: Keyed): Request { Request(TouchBatch(x), 0, None) }

  function Consumer(x: Keyed, snap: SeqNo): Request {
    Request(ConsumeBatch(x), 0, Some(Validation(snap, [x.queue])))
  }

  /** A touch of the key, and the trigger runner consuming the touch its snapshot shows, in one group. */
  function TouchAndConsume(x: Keyed, snap: SeqNo): seq<Request> {
    [Toucher(x)] + [Consumer(x, snap)]
  }

  function Touched(x: Keyed, at: First): seq<Version> {
    [Version(x.user, at, Here([])), Version(x.queue, at + 1, Here([]))]
  }

  function TouchPlan(x: Keyed, at: First): Plan {
    Plan([Planned(0, at, [PutOp(x.queue, [])])], at + 2, [None])
  }

  function BothPlan(x: Keyed, at: First): Plan {
    Plan([Planned(0, at, [PutOp(x.queue, [])]), Planned(1, at + 2, [])], at + 3, [None, None])
  }

  /** One more request that passes validation, with something to write. */
  lemma AdmitClear(mem: seq<Version>, group: seq<Request>, r: Request, unreadable: Bytes -> bool)
    requires CheckOf(mem, Admit(mem, group, unreadable).written, r, unreadable).Clear? && r.batch.ops != []
    ensures var a := Admit(mem, group, unreadable);
      Admit(mem, group + [r], unreadable) ==
        Admission(a.checks + [Clear], a.written + OpKeys(r.batch.ops), a.batches + [r.batch], a.slots + [|group|]) &&
      CheckAt(mem, group + [r], unreadable, |group|).Clear?
  {
    hide CheckOf, OpKeys;
    assert (group + [r])[..|group|] == group;
  }

  lemma NoneAdmitted(mem: seq<Version>, unreadable: Bytes -> bool)
    ensures Admit(mem, [], unreadable) == Admission([], {}, [], [])
  {
  }

  lemma TouchIsAdmitted(x: Keyed, mem: seq<Version>)
    ensures Admit(mem, [], Unreadables) == Admission([], {}, [], [])
    ensures Admit(mem, [Toucher(x)], Unreadables) == Admission([Clear], {x.user}, [TouchBatch(x)], [0])
    ensures CheckAt(mem, [Toucher(x)], Unreadables, 0).Clear?
  {
    hide Admit, CheckAt;
    NoneAdmitted(mem, Unreadables);
    AdmitClear(mem, [], Toucher(x), Unreadables);
    assert [] + [Toucher(x)] == [Toucher(x)];
    assert OpKeys([PutOp(x.user, [])]) == {x.user} by {
      assert PutOp(x.user, []) in [PutOp(x.user, [])];
    }
  }

  lemma ConsumeIsClear(x: Keyed, mem: seq<Version>)
    requires Fits(x) && Dense(mem)
    ensures CheckKeys(mem, {x.user}, |mem|, [x.queue], Unreadables).Clear?
  {
    NewestIsExact(mem, x.queue, |mem|);
  }

  lemma BothAreAdmitted(x: Keyed, mem: seq<Version>)
    requires Fits(x) && Dense(mem)
    ensures Admit(mem, TouchAndConsume(x, |mem|), Unreadables).batches == [TouchBatch(x), ConsumeBatch(x)]
    ensures CheckAt(mem, TouchAndConsume(x, |mem|), Unreadables, 0).Clear?
    ensures CheckAt(mem, TouchAndConsume(x, |mem|), Unreadables, 1).Clear?
  {
    hide Admit, CheckAt, CheckKeys, OpKeys;
    TouchIsAdmitted(x, mem);
    ConsumeIsClear(x, mem);
    AdmitClear(mem, [Toucher(x)], Consumer(x, |mem|), Unreadables);
    assert CheckAt(mem, TouchAndConsume(x, |mem|), Unreadables, 0).Clear? by {
      FirstIsChecked(mem, TouchAndConsume(x, |mem|), [Toucher(x)]);
    }
  }

  lemma FirstIsChecked(mem: seq<Version>, group: seq<Request>, start: seq<Request>)
    requires start != [] && start <= group
    ensures CheckAt(mem, group, Unreadables, 0) == CheckAt(mem, start, Unreadables, 0)
  {
    hide Admit, CheckOf;
    assert group[..0] == start[..0];
  }

  lemma BothArePlanned(x: Keyed, cfg: Config, at: First)
    requires Fits(x) && Captures(x, cfg) && at + 3 < MAX_SEQNO
    ensures PlanOf(cfg, at, []) == Plan([], at, [])
    ensures PlanOf(cfg, at, [TouchBatch(x)]) == TouchPlan(x, at)
    ensures PlanOf(cfg, at, [TouchBatch(x), ConsumeBatch(x)]) == BothPlan(x, at)
  {
    var b0, b1 := TouchBatch(x), ConsumeBatch(x);
    assert [b0][..0] == [] && [b0, b1][..1] == [b0];
    assert PutOp(x.user, []) in b0.ops;
    assert Events(cfg, b0, at) == [PutOp(x.queue, [])];
    SmallBatch(PutOp(x.user, []), PutOp(x.queue, []));
    assert b0.ops + [PutOp(x.queue, [])] == [PutOp(x.user, []), PutOp(x.queue, [])];
    assert b1.ops + [] == b1.ops;
    SmallDelete(x);
  }

  lemma SmallBatch(a: BatchOp, b: BatchOp)
    requires a.PutOp? && b.PutOp?
    ensures ApproxSize([a, b]) == |a.key| + |a.value| + |b.key| + |b.value| + 64
  {
    assert [a, b][..1] == [a] && [a][..0] == [];
    assert ApproxSize([a]) == |a.key| + |a.value| + 32;
  }

  /** What the touch commits. */
  function TouchCommit(x: Keyed, at: First): Commit {
    Commit(at, [Entry(x.user, Here([])), Entry(x.queue, Here([]))])
  }

  lemma TouchIsPublished(x: Keyed, cfg: Config, mem: seq<Version>, vlog: seq<(Bytes, Bytes)>, bs: seq<Batch>,
                         accepted: seq<Planned>)
    requires Captures(x, cfg) && cfg.valueThreshold > 0 && bs != [] && bs[0] == TouchBatch(x)
    requires Increasing(accepted, |bs|) && accepted != [] && accepted[0].index == 0
    ensures Published(cfg, Core(|mem|, vlog, []), bs, accepted, 1) == Core(|mem| + 2, vlog, [TouchCommit(x, |mem| + 1)])
  {
    var b0 := TouchBatch(x);
    var put0, put1 := PutOp(x.user, []), PutOp(x.queue, []);
    assert put0 in b0.ops;
    assert AllOps(cfg, b0, |mem| + 1) == [put0, put1];
    assert [put0, put1][..1] == [put0] && [put0][..0] == [];
    assert PlaceOps(cfg, [put0], vlog) == Placed([Entry(x.user, Here([]))], vlog);
    assert PlaceOps(cfg, [put0, put1], vlog) == Placed([Entry(x.user, Here([])), Entry(x.queue, Here([]))], vlog);
  }

  lemma BothArePublished(x: Keyed, cfg: Config, mem: seq<Version>, vlog: seq<(Bytes, Bytes)>)
    requires Captures(x, cfg) && cfg.valueThreshold > 0
    ensures var bs, accepted := [TouchBatch(x), ConsumeBatch(x)], BothPlan(x, |mem| + 1).accepted;
      Increasing(accepted, 2) && Published(cfg, Core(|mem|, vlog, []), bs, accepted, 1).visible == |mem| + 2 &&
      Published(cfg, Core(|mem|, vlog, []), bs, accepted, 2).commits ==
        [TouchCommit(x, |mem| + 1)] + [Commit(|mem| + 3, [Entry(x.queue, Tombstone)])]
  {
    var bs, accepted := [TouchBatch(x), ConsumeBatch(x)], BothPlan(x, |mem| + 1).accepted;
    TouchIsPublished(x, cfg, mem, vlog, bs, accepted);
    assert AllOps(cfg, ConsumeBatch(x), |mem| + 3) == [DeleteOp(x.queue)];
    assert [DeleteOp(x.queue)][..0] == [];
    assert PlaceOps(cfg, [DeleteOp(x.queue)], vlog).entries == [Entry(x.queue, Tombstone)];
  }

  lemma BothAreVisible(x: Keyed, at: First)
    ensures AllVersions([TouchCommit(x, at)]) == Touched(x, at)
    ensures AllVersions([TouchCommit(x, at)] + [Commit(at + 2, [Entry(x.queue, Tombstone)])]) ==
      Touched(x, at) + [Version(x.queue, at + 2, Tombstone)]
  {
    OneCommit(TouchCommit(x, at));
    AllVersionsSnoc([TouchCommit(x, at)], Commit(at + 2, [Entry(x.queue, Tombstone)]));
  }

  /** A touch alone puts the key in the queue. */
  lemma {:induction false} TouchEnqueues(x: Keyed, syncAlways: bool, mem: seq<Version>, vlog: seq<(Bytes, Bytes)>)
    requires Fits(x) && Dense(mem) && |mem| + 4 < MAX_SEQNO
    ensures Ran(Touching(x, syncAlways), mem, vlog, [Toucher(x)], Unreadables, 1, mem + Touched(x, |mem| + 1), [Done])
    ensures Dense(mem + Touched(x, |mem| + 1)) && NewestOf(mem + Touched(x, |mem| + 1), x.queue) == |mem| + 2
  {
    hide Admit, PlanOf, Published, AllVersions, CheckAt, ApproxSize, NewestOf;
    var cfg, mem' := Touching(x, syncAlways), mem + Touched(x, |mem| + 1);
    TouchIsAdmitted(x, mem);
    BothArePlanned(x, cfg, |mem| + 1);
    TouchIsPublished(x, cfg, mem, vlog, [TouchBatch(x)], TouchPlan(x, |mem| + 1).accepted);
    BothAreVisible(x, |mem| + 1);
    assert [Toucher(x)][..0] == [];
    EnoughRoom(x, cfg, mem);
    assert OutcomeFits(cfg, mem, [Toucher(x)], Unreadables, 1, 0, Done);
    NewestSnoc(mem + [Touched(x, |mem| + 1)[0]], Touched(x, |mem| + 1)[1]);
    assert mem' == mem + [Touched(x, |mem| + 1)[0]] + [Touched(x, |mem| + 1)[1]];
  }

  lemma NewestSnoc(mem: seq<Version>, v: Version)
    ensures NewestOf(mem + [v], v.key) == v.at
  {
  }

  lemma EnoughRoom(x: Keyed, cfg: Config, mem: seq<Version>)
    requires Fits(x) && Captures(x, cfg)
    ensures Events(cfg, TouchBatch(x), |mem| + 1) == [PutOp(x.queue, [])]
    ensures ApproxSize(TouchBatch(x).ops + [PutOp(x.queue, [])]) < WAL_RECORD_LIMIT
    ensures ApproxSize(ConsumeBatch(x).ops + []) < WAL_RECORD_LIMIT
  {
    SmallBatch(PutOp(x.user, []), PutOp(x.queue, []));
    assert PutOp(x.user, []) in TouchBatch(x).ops;
    assert TouchBatch(x).ops + [PutOp(x.queue, [])] == [PutOp(x.user, []), PutOp(x.queue, [])];
    SmallDelete(x);
    assert ConsumeBatch(x).ops + [] == ConsumeBatch(x).ops;
  }

  /** From any store: the runner reads the queue at `|mem|`; a re-touch of the key enters the group ahead
      of it.  The runner's commit is accepted although the re-touch wrote the queue key after its
      snapshot, and its tombstone is the newest version: the re-touch is lost. */
  lemma RetouchIsConsumed(x: Keyed, syncAlways: bool, mem: seq<Version>, vlog: seq<(Bytes, Bytes)>)
    requires Fits(x) && Dense(mem) && |mem| + 4 < MAX_SEQNO
    ensures var cfg, group := Touching(x, syncAlways), TouchAndConsume(x, |mem|);
      var mem' := mem + (Touched(x, |mem| + 1) + [Version(x.queue, |mem| + 3, Tombstone)]);
      Ran(cfg, mem, vlog, group, Unreadables, 2, mem', [Done, Done]) &&
      WrittenIn(mem', x.queue, |mem|, PointOf(cfg, mem, vlog, group, Unreadables, 2, 1)) &&
      mem'[|mem'| - 1] == Version(x.queue, |mem| + 3, Tombstone)
  {
    hide Admit, PlanOf, Published, AllVersions, CheckAt, ApproxSize;
    var cfg, group := Touching(x, syncAlways), TouchAndConsume(x, |mem|);
    TouchIsAdmitted(x, mem);
    BothAreAdmitted(x, mem);
    BothArePlanned(x, cfg, |mem| + 1);
    BothArePublished(x, cfg, mem, vlog);
    BothAreVisible(x, |mem| + 1);
    var mem' := mem + (Touched(x, |mem| + 1) + [Version(x.queue, |mem| + 3, Tombstone)]);
    assert mem'[|mem| + 1] == Touched(x, |mem| + 1)[1];
    assert Writes(mem', x.queue, |mem| + 2);
    assert group[..0] == [] && group[..1] == [Toucher(x)];
    EnoughRoom(x, cfg, mem);
    assert OutcomeFits(cfg, mem, group, Unreadables, 2, 0, Done);
    assert OutcomeFits(cfg, mem, group, Unreadables, 2, 1, Done);
  }

  /** So it happens in a run of two groups from the empty store: the first touch enters the queue; the
      runner reads it there, and its consumption shares a group with a second touch.  The runner is told
      it committed, the queue is empty, and the second touch was never handed to the module. */
  lemma RetouchIsLost(x: Keyed, syncAlways: bool)
    requires Fits(x)
    ensures var cfg, mem := Touching(x, syncAlways), Touched(x, 1);
      var mem' := mem + (Touched(x, 3) + [Version(x.queue, 5, Tombstone)]);
      Ran(cfg, [], [], [Toucher(x)], Unreadables, 1, mem, [Done]) && NewestOf(mem, x.queue) == 2 &&
      Ran(cfg, mem, [], TouchAndConsume(x, 2), Unreadables, 2, mem', [Done, Done]) &&
      WrittenIn(mem', x.queue, 2, PointOf(cfg, mem, [], TouchAndConsume(x, 2), Unreadables, 2, 1)) &&
      NewestOf(mem', x.queue) == 5 && mem'[4].place == Tombstone
  {
    hide Ran, PointOf;
    assert [] + Touched(x, 1) == Touched(x, 1);
    TouchEnqueues(x, syncAlways, [], []);
    RetouchIsConsumed(x, syncAlways, Touched(x, 1), []);
  }

  lemma SmallDelete(x: Keyed)
    ensures ApproxSize([DeleteOp(x.queue)]) == |x.queue| + 16
  {
    assert [DeleteOp(x.queue)][..0] == [];
  }
}
