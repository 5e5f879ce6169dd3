/** A trigger's durable queue: its keys, what a commit captures, and what the queue holds. */
module TriggerQueue {
  import opened Sequences
  import opened Keys
  import opened Types
  import opened Coding
  import opened GroupCommit
  import opened TriggerCodec

  // ---------------------------------------------------------------- queue keys

  const SYS_PREFIX: Byte := 0

  /** `\0trgq\0`, the space of all queues. */
  const QUEUE_SPACE: Bytes := [0, 116, 114, 103, 113, 0]

  function QueuePrefix(name: Bytes): Bytes {
    (QUEUE_SPACE + name) + [0]
  }

  function QueueEnd(name: Bytes): Bytes {
    (QUEUE_SPACE + name) + [1]
  }

  function ChangeKey(name: Bytes, at: SeqNo): Bytes {
    QueuePrefix(name) + BigEndian(at, 8)
  }

  function TouchKey(name: Bytes, key: Bytes): Bytes {
    QueuePrefix(name) + key
  }

  /** The range the runner iterates for one trigger. */
  predicate InQueue(name: Bytes, k: Bytes) {
    !Before(k, QueuePrefix(name)) && Before(k, QueueEnd(name))
  }

  lemma {:induction false} RangeIsPrefix(p: Bytes, k: Bytes)
    ensures !Before(k, p + [0]) && Before(k, p + [1]) <==> p + [0] <= k
  {
    if p == [] {
      assert p + [0] == [0] && p + [1] == [1];
      assert k != [] && k[0] == 0 ==> [0] <= k;
    } else {
      assert (p + [0])[1..] == p[1..] + [0] && (p + [1])[1..] == p[1..] + [1];
      if k != [] && k[0] == p[0] {
        RangeIsPrefix(p[1..], k[1..]);
        assert p + [0] <= k <==> p[1..] + [0] <= k[1..] by { PrefixTail(p, k); }
      }
    }
  }

  lemma PrefixTail(p: Bytes, k: Bytes)
    requires p != [] && k != [] && k[0] == p[0]
    ensures p + [0] <= k <==> p[1..] + [0] <= k[1..]
  {
    assert p + [0] == [p[0]] + (p[1..] + [0]) && k == [k[0]] + k[1..];
  }

  /** The range holds exactly the keys under the trigger's prefix. */
  lemma QueueRangeIsPrefix(name: Bytes, k: Bytes)
    ensures InQueue(name, k) <==> QueuePrefix(name) <= k
  {
    RangeIsPrefix(QUEUE_SPACE + name, k);
  }

  predicate ValidName(name: Bytes) {
    0 !in name
  }

  lemma {:induction false} NamesDelimited(a: Bytes, b: Bytes, more: Bytes)
    requires ValidName(a) && ValidName(b)
    ensures a + [0] <= (b + [0]) + more <==> a == b
  {
    assert a + [0] <= (b + [0]) + more ==> (a + [0])[0] == ((b + [0]) + more)[0];
    assert (a + [0])[0] == if a == [] then 0 else a[0];
    assert ((b + [0]) + more)[0] == if b == [] then 0 else b[0];
    if a == [] {
      assert a + [0] == [0];
    } else if b != [] && a[0] == b[0] {
      assert (b + [0]) + more == [a[0]] + ((b[1..] + [0]) + more);
      assert a + [0] == [a[0]] + (a[1..] + [0]);
      assert a == [a[0]] + a[1..] && b == [b[0]] + b[1..];
      NamesDelimited(a[1..], b[1..], more);
      PrefixUnder([a[0]], a[1..] + [0], (b[1..] + [0]) + more);
    }
  }

  lemma PrefixUnder(p: Bytes, a: Bytes, b: Bytes)
    ensures p + a <= p + b <==> a <= b
  {
    assert (p + a)[|p|..] == a && (p + b)[|p|..] == b;
    if p + a <= p + b {
      assert (p + b)[..|p| + |a|][|p|..] == b[..|a|];
    }
  }

  /** The space under one trigger's prefix belongs to that trigger alone, and no user key is in it. */
  lemma QueuesApart(name: Bytes, other: Bytes, key: Bytes)
    requires ValidName(name) && ValidName(other)
    ensures InQueue(name, TouchKey(other, key)) <==> name == other
  {
    QueueRangeIsPrefix(name, TouchKey(other, key));
    NamesDelimited(name, other, key);
    PrefixUnder(QUEUE_SPACE, name + [0], (other + [0]) + key);
    assert QueuePrefix(name) == QUEUE_SPACE + (name + [0]);
    assert TouchKey(other, key) == QUEUE_SPACE + ((other + [0]) + key);
  }

  lemma UserKeysApart(name: Bytes, key: Bytes)
    requires key == [] || key[0] != SYS_PREFIX
    ensures !InQueue(name, key)
  {
    QueueRangeIsPrefix(name, key);
    assert QueuePrefix(name)[0] == 0;
  }

  lemma {:induction false} BeforeUnder(p: Bytes, a: Bytes, b: Bytes)
    ensures Before(p + a, p + b) <==> Before(a, b)
  {
    if p == [] {
      assert p + a == a && p + b == b;
    } else {
      assert (p + a)[1..] == p[1..] + a && (p + b)[1..] == p[1..] + b;
      BeforeUnder(p[1..], a, b);
    }
  }

  /** Iterating the queue is iterating in commit order, one key a seqno. */
  lemma ChangeKeysInOrder(name: Bytes, m: SeqNo, n: SeqNo)
    requires m < Pow2(64) && n < Pow2(64)
    ensures Before(ChangeKey(name, m), ChangeKey(name, n)) <==> m < n
    ensures ChangeKey(name, m) == ChangeKey(name, n) <==> m == n
  {
    hide Pow2, BigEndian, QueuePrefix;
    var p := QueuePrefix(name);
    BeforeUnder(p, BigEndian(m, 8), BigEndian(n, 8));
    BigEndianInOrder(m, n, 8);
    assert ChangeKey(name, m)[|p|..] == BigEndian(m, 8) && ChangeKey(name, n)[|p|..] == BigEndian(n, 8);
  }

  // ---------------------------------------------------------------- capture

  datatype Def = Def(name: Bytes, lo: Bytes, hi: Bytes, changes: bool)

  predicate MatchesKey(d: Def, key: Bytes) {
    (d.lo == [] || !Before(key, d.lo)) && (d.hi == [] || Before(key, d.hi))
  }

  predicate IsSystem(key: Bytes) {
    key != [] && key[0] == SYS_PREFIX
  }

  predicate Fires(d: Def, key: Bytes) {
    !IsSystem(key) && MatchesKey(d, key)
  }

  /** Names are unique and cannot hold the separator. */
  predicate Registry(defs: seq<Def>) {
    (forall i :: 0 <= i < |defs| ==> ValidName(defs[i].name)) &&
    forall i, j :: 0 <= i < j < |defs| ==> defs[i].name != defs[j].name
  }

  function ChangeEvent(d: Def, op: BatchOp, at: SeqNo, cap: nat): BatchOp {
    PutOp(ChangeKey(d.name, at), EncodeRecord(ChangeOf(op, at, cap)))
  }

  /** The changes-mode events of one op, in registry order. */
  function EventsAt(defs: seq<Def>, op: BatchOp, at: SeqNo, cap: nat): seq<BatchOp> {
    if defs == [] then []
    else
      var d := defs[|defs| - 1];
      EventsAt(defs[..|defs| - 1], op, at, cap) +
      if Fires(d, op.key) && d.changes then [ChangeEvent(d, op, at, cap)] else []
  }

  function ChangeEvents(defs: seq<Def>, ops: seq<BatchOp>, base: SeqNo, cap: nat): seq<BatchOp> {
    if ops == [] then []
    else
      var n := |ops| - 1;
      ChangeEvents(defs, ops[..n], base, cap) + EventsAt(defs, ops[n], base + n, cap)
  }

  /** The keys-mode queue keys one op touches, and all of a batch's. */
  function TouchesAt(defs: seq<Def>, op: BatchOp): seq<Bytes> {
    if defs == [] then []
    else
      var d := defs[|defs| - 1];
      TouchesAt(defs[..|defs| - 1], op) + if Fires(d, op.key) && !d.changes then [TouchKey(d.name, op.key)] else []
  }

  function Touches(defs: seq<Def>, ops: seq<BatchOp>): seq<Bytes> {
    if ops == [] then [] else Touches(defs, ops[..|ops| - 1]) + TouchesAt(defs, ops[|ops| - 1])
  }

  function InsertKey(s: seq<Bytes>, k: Bytes): seq<Bytes> {
    if s == [] then [k]
    else if k == s[0] then s
    else if Before(k, s[0]) then [k] + s
    else [s[0]] + InsertKey(s[1..], k)
  }

  /** Sorted, without repeats. */
  function SortedUnique(ks: seq<Bytes>): seq<Bytes> {
    if ks == [] then [] else InsertKey(SortedUnique(ks[..|ks| - 1]), ks[|ks| - 1])
  }

  function Puts(ks: seq<Bytes>): seq<BatchOp> {
    seq(|ks|, i requires 0 <= i < |ks| => PutOp(ks[i], []))
  }

  /** The events a batch enqueues when its first op commits at `base`. */
  function CaptureOps(defs: seq<Def>, ops: seq<BatchOp>, base: SeqNo, cap: nat): seq<BatchOp> {
    Puts(SortedUnique(Touches(defs, ops))) + ChangeEvents(defs, ops, base, cap)
  }

  method Capture(defs: seq<Def>, ops: seq<BatchOp>, base: SeqNo, cap: nat) returns (out: seq<BatchOp>)
    ensures out == CaptureOps(defs, ops, base, cap)
  {
    hide EncodeRecord, ChangeKey, TouchKey, Fires;
    if defs == [] {
      NoDefs(ops, base, cap);
      return [];
    }
    var keyed, changes, i := [], [], 0;
    while i < |ops|
      invariant 0 <= i <= |ops|
      invariant keyed == Touches(defs, ops[..i]) && changes == ChangeEvents(defs, ops[..i], base, cap)
    {
      var touched, made := CaptureOne(defs, ops[i], base + i, cap);
      assert ops[..i + 1][..i] == ops[..i];
      keyed, changes, i := keyed + touched, changes + made, i + 1;
    }
    assert ops[..|ops|] == ops;
    out := Puts(SortedUnique(keyed)) + changes;
  }

  /** The inner loop: one op against every definition. */
  method CaptureOne(defs: seq<Def>, op: BatchOp, at: SeqNo, cap: nat) returns (keyed: seq<Bytes>, changes: seq<BatchOp>)
    ensures keyed == TouchesAt(defs, op) && changes == EventsAt(defs, op, at, cap)
  {
    hide EncodeRecord, ChangeKey, TouchKey, MatchesKey;
    keyed, changes := [], [];
    if IsSystem(op.key) {
      SystemKeysAreSilent(defs, op, at, cap);
      return;
    }
    var j := 0;
    while j < |defs|
      invariant 0 <= j <= |defs|
      invariant keyed == TouchesAt(defs[..j], op) && changes == EventsAt(defs[..j], op, at, cap)
    {
      var d := defs[j];
      assert defs[..j + 1][..j] == defs[..j];
      if MatchesKey(d, op.key) {
        if d.changes {
          changes := changes + [ChangeEvent(d, op, at, cap)];
        } else {
          keyed := keyed + [TouchKey(d.name, op.key)];
        }
      }
      j := j + 1;
    }
    assert defs[..|defs|] == defs;
  }

  lemma {:induction false} SystemKeysAreSilent(defs: seq<Def>, op: BatchOp, at: SeqNo, cap: nat)
    requires IsSystem(op.key)
    ensures TouchesAt(defs, op) == [] && EventsAt(defs, op, at, cap) == []
  {
    if defs != [] { SystemKeysAreSilent(defs[..|defs| - 1], op, at, cap); }
  }

  lemma {:induction false} NoDefs(ops: seq<BatchOp>, base: SeqNo, cap: nat)
    ensures Touches([], ops) == [] && ChangeEvents([], ops, base, cap) == [] && CaptureOps([], ops, base, cap) == []
  {
    if ops != [] { NoDefs(ops[..|ops| - 1], base, cap); }
  }

  predicate Ascending(ks: seq<Bytes>) {
    forall i, j :: 0 <= i < j < |ks| ==> Before(ks[i], ks[j])
  }

  lemma Order(a: Bytes, b: Bytes, c: Bytes)
    ensures !Before(a, a) && (Before(a, b) || a == b || Before(b, a)) && !(Before(a, b) && Before(b, a))
    ensures Before(a, b) && Before(b, c) ==> Before(a, c)
  {
    hide Rank, Before;
    RankEmbedsOrder(a, a);
    RankEmbedsOrder(a, b);
    RankEmbedsOrder(b, a);
    RankEmbedsOrder(b, c);
    RankEmbedsOrder(a, c);
  }

  lemma {:induction false} InsertedInOrder(s: seq<Bytes>, k: Bytes)
    requires Ascending(s)
    ensures Ascending(InsertKey(s, k)) && forall x :: x in InsertKey(s, k) <==> x == k || x in s
  {
    hide Before;
    if s != [] {
      var more := InsertKey(s[1..], k);
      InsertedInOrder(s[1..], k);
      Order(k, s[0], k);
      assert s == [s[0]] + s[1..];
      assert forall x :: x in s <==> x == s[0] || x in s[1..];
      if Before(k, s[0]) {
        forall x | x in s[1..] ensures Before(k, x) {
          assert Before(s[0], x);
          Order(k, s[0], x);
        }
      } else {
        forall x | x in more && k != s[0] ensures Before(s[0], x) {
          assert x in s[1..] ==> Before(s[0], x);
        }
      }
    }
  }

  /** Sorting and deduplicating gives the one ascending list with the same keys. */
  lemma {:induction false} SortedUniqueExact(ks: seq<Bytes>)
    ensures Ascending(SortedUnique(ks)) && forall k :: k in SortedUnique(ks) <==> k in ks
  {
    if ks != [] {
      SortedUniqueExact(ks[..|ks| - 1]);
      InsertedInOrder(SortedUnique(ks[..|ks| - 1]), ks[|ks| - 1]);
      assert ks == ks[..|ks| - 1] + [ks[|ks| - 1]];
    }
  }

  lemma {:induction false} OneAscendingList(a: seq<Bytes>, b: seq<Bytes>)
    requires Ascending(a) && Ascending(b) && forall k :: k in a <==> k in b
    ensures a == b
  {
    hide Before;
    assert forall i :: 0 <= i < |a| ==> a[i] in b;
    assert forall i :: 0 <= i < |b| ==> b[i] in a;
    if a != [] && b != [] {
      assert a[0] in b && b[0] in a;
      Order(a[0], b[0], a[0]);
      assert a[0] == b[0];
      forall k ensures k in a[1..] <==> k in b[1..] {
        Order(k, a[0], k);
        assert k in a <==> k == a[0] || k in a[1..];
        assert k in b <==> k == b[0] || k in b[1..];
      }
      OneAscendingList(a[1..], b[1..]);
      assert a == [a[0]] + a[1..] && b == [b[0]] + b[1..];
    }
  }

  // ---------------------------------------------------------------- what the queue holds

  /** The live entries of one trigger's queue after more ops commit. */
  function Live(name: Bytes, q: map<Bytes, Bytes>, ops: seq<BatchOp>): map<Bytes, Bytes> {
    if ops == [] then q
    else
      var before, op := Live(name, q, ops[..|ops| - 1]), ops[|ops| - 1];
      if !InQueue(name, op.key) then before
      else if op.PutOp? then before[op.key := op.value]
      else before - {op.key}
  }

  lemma LiveSnoc(name: Bytes, q: map<Bytes, Bytes>, ops: seq<BatchOp>, op: BatchOp)
    ensures var before := Live(name, q, ops);
      Live(name, q, ops + [op]) ==
      if !InQueue(name, op.key) then before else if op.PutOp? then before[op.key := op.value] else before - {op.key}
  {
    assert (ops + [op])[..|ops|] == ops;
  }

  lemma {:induction false} LiveConcat(name: Bytes, q: map<Bytes, Bytes>, a: seq<BatchOp>, b: seq<BatchOp>)
    ensures Live(name, q, a + b) == Live(name, Live(name, q, a), b)
  {
    if b == [] {
      assert a + b == a;
    } else {
      LiveConcat(name, q, a, b[..|b| - 1]);
      assert (a + b)[..|a + b| - 1] == a + b[..|b| - 1];
    }
  }

  lemma {:induction false} LiveElsewhere(name: Bytes, q: map<Bytes, Bytes>, ops: seq<BatchOp>)
    requires forall op :: op in ops ==> !InQueue(name, op.key)
    ensures Live(name, q, ops) == q
  {
    if ops != [] { LiveElsewhere(name, q, ops[..|ops| - 1]); }
  }

  predicate HasKey(name: Bytes, cs: seq<Change>, k: Bytes) {
    exists i :: 0 <= i < |cs| && ChangeKey(name, cs[i].at) == k
  }

  predicate Listed(name: Bytes, q: map<Bytes, Bytes>, c: Change) {
    ChangeKey(name, c.at) in q && q[ChangeKey(name, c.at)] == EncodeRecord(c)
  }

  /** The queue holds exactly these changes. */
  predicate QueueIs(name: Bytes, q: map<Bytes, Bytes>, cs: seq<Change>) {
    (forall k :: k in q ==> HasKey(name, cs, k)) && forall i :: 0 <= i < |cs| ==> Listed(name, q, cs[i])
  }

  /** Seqnos rise strictly, within `(0, to]`; key lengths are 64-bit numbers. */
  predicate Rising(cs: seq<Change>, to: SeqNo) {
    to < Pow2(64) && (forall i, j :: 0 <= i < j < |cs| ==> cs[i].at < cs[j].at) &&
    forall i :: 0 <= i < |cs| ==> Within(cs[i], to)
  }

  predicate Within(c: Change, to: SeqNo) {
    0 < c.at <= to && |c.key| < Pow2(64)
  }

  predicate KeysFit(ops: seq<BatchOp>) {
    forall op :: op in ops ==> |op.key| < Pow2(64)
  }

  lemma Enqueued(name: Bytes, q: map<Bytes, Bytes>, cs: seq<Change>, to: SeqNo, c: Change)
    requires QueueIs(name, q, cs) && Rising(cs, to) && to < c.at < Pow2(64) && |c.key| < Pow2(64)
    ensures QueueIs(name, q[ChangeKey(name, c.at) := EncodeRecord(c)], cs + [c]) && Rising(cs + [c], c.at)
  {
    hide ChangeKey, EncodeRecord, Pow2;
    var all, q' := cs + [c], q[ChangeKey(name, c.at) := EncodeRecord(c)];
    forall k | k in q' ensures HasKey(name, all, k) {
      if k == ChangeKey(name, c.at) {
        assert all[|cs|] == c;
      } else {
        var i :| 0 <= i < |cs| && ChangeKey(name, cs[i].at) == k;
        assert all[i] == cs[i];
      }
    }
    forall i | 0 <= i < |all| ensures Listed(name, q', all[i]) {
      if i < |cs| {
        assert Listed(name, q, cs[i]);
        ChangeKeysInOrder(name, cs[i].at, c.at);
      }
    }
  }

  lemma Dequeued(name: Bytes, q: map<Bytes, Bytes>, cs: seq<Change>, to: SeqNo)
    requires QueueIs(name, q, cs) && Rising(cs, to) && cs != []
    ensures QueueIs(name, q - {ChangeKey(name, cs[0].at)}, cs[1..]) && Rising(cs[1..], to)
  {
    hide ChangeKey, EncodeRecord, Pow2;
    var rest, q' := cs[1..], q - {ChangeKey(name, cs[0].at)};
    forall k | k in q' ensures HasKey(name, rest, k) {
      assert HasKey(name, cs, k);
      var i :| 0 <= i < |cs| && ChangeKey(name, cs[i].at) == k;
      assert i > 0 && rest[i - 1] == cs[i];
    }
    forall i | 0 <= i < |rest| ensures Listed(name, q', rest[i]) {
      assert rest[i] == cs[i + 1] && Listed(name, q, cs[i + 1]);
      ChangeKeysInOrder(name, cs[0].at, cs[i + 1].at);
    }
  }

  // ---------------------------------------------------------------- capture enqueues exactly the matching ops

  /** The changes of a batch that a trigger must see. */
  function Matching(d: Def, ops: seq<BatchOp>, base: SeqNo, cap: nat): seq<Change> {
    if ops == [] then []
    else
      var n := |ops| - 1;
      Matching(d, ops[..n], base, cap) + if Fires(d, ops[n].key) then [ChangeOf(ops[n], base + n, cap)] else []
  }

  predicate Active(defs: seq<Def>, d: Def) {
    Registry(defs) && d in defs && d.changes
  }

  lemma {:induction false} EventsOfOne(defs: seq<Def>, d: Def, op: BatchOp, at: SeqNo, cap: nat, q: map<Bytes, Bytes>)
    requires Registry(defs) && ValidName(d.name) && d.changes
    requires forall i :: 0 <= i < |defs| ==> defs[i] == d || defs[i].name != d.name
    ensures Live(d.name, q, EventsAt(defs, op, at, cap)) ==
      if d in defs && Fires(d, op.key) then q[ChangeKey(d.name, at) := EncodeRecord(ChangeOf(op, at, cap))] else q
  {
    hide Fires, EncodeRecord, InQueue, MatchesKey, BigEndian, QueuePrefix, Live;
    NothingLive(d.name, q);
    if defs != [] {
      var pre, last := defs[..|defs| - 1], defs[|defs| - 1];
      EventsOfOne(pre, d, op, at, cap, q);
      assert defs == pre + [last];
      QueuesApart(d.name, last.name, BigEndian(at, 8));
      assert last == d ==> d !in pre;
      var evs := EventsAt(pre, op, at, cap);
      LiveSnoc(d.name, q, evs, ChangeEvent(last, op, at, cap));
      if !Fires(last, op.key) || !last.changes {
        assert evs + [] == evs;
      }
    }
  }

  lemma {:induction false} TouchesElsewhere(defs: seq<Def>, d: Def, ops: seq<BatchOp>)
    requires Registry(defs) && ValidName(d.name) && forall i :: 0 <= i < |defs| ==>
      defs[i] == d || defs[i].name != d.name
    requires d.changes
    ensures forall k :: k in Touches(defs, ops) ==> !InQueue(d.name, k)
  {
    hide InQueue, TouchesAt;
    if ops != [] {
      TouchesElsewhere(defs, d, ops[..|ops| - 1]);
      TouchesOfOne(defs, d, ops[|ops| - 1]);
    }
  }

  lemma {:induction false} TouchesOfOne(defs: seq<Def>, d: Def, op: BatchOp)
    requires Registry(defs) && ValidName(d.name) && forall i :: 0 <= i < |defs| ==>
      defs[i] == d || defs[i].name != d.name
    requires d.changes
    ensures forall k :: k in TouchesAt(defs, op) ==> !InQueue(d.name, k)
  {
    hide InQueue, TouchKey;
    if defs != [] {
      var last := defs[|defs| - 1];
      TouchesOfOne(defs[..|defs| - 1], d, op);
      if last != d { QueuesApart(d.name, last.name, op.key); }
    }
  }

  lemma {:induction false} MatchingRises(d: Def, ops: seq<BatchOp>, base: SeqNo, cap: nat)
    requires base >= 1 && base - 1 + |ops| < Pow2(64) && KeysFit(ops)
    ensures Rising(Matching(d, ops, base, cap), base - 1 + |ops|)
    ensures forall c :: c in Matching(d, ops, base, cap) ==> base <= c.at
  {
    hide Fires, Pow2;
    if ops != [] { MatchingRises(d, ops[..|ops| - 1], base, cap); }
  }

  lemma {:induction false} ChangesEnqueued(defs: seq<Def>, d: Def, ops: seq<BatchOp>, base: SeqNo, cap: nat,
                                           q: map<Bytes, Bytes>, cs: seq<Change>)
    requires Active(defs, d) && QueueIs(d.name, q, cs) && base >= 1 && Rising(cs, base - 1) && base + |ops| < Pow2(64)
    requires KeysFit(ops)
    ensures var q' := Live(d.name, q, ChangeEvents(defs, ops, base, cap));
      QueueIs(d.name, q', cs + Matching(d, ops, base, cap)) &&
      Rising(cs + Matching(d, ops, base, cap), base - 1 + |ops|)
  {
    hide Fires, InQueue, EventsAt, ChangeKey, QueueIs, Live, Rising, Pow2, ChangeOf;
    if ops == [] {
      assert cs + [] == cs;
      NothingLive(d.name, q);
    } else {
      var n := |ops| - 1;
      var pre := ops[..n];
      ChangesEnqueued(defs, d, pre, base, cap, q, cs);
      LiveConcat(d.name, q, ChangeEvents(defs, pre, base, cap), EventsAt(defs, ops[n], base + n, cap));
      var mid, so := Live(d.name, q, ChangeEvents(defs, pre, base, cap)), Matching(d, pre, base, cap);
      OneEnqueued(defs, d, ops[n], base + n, cap, mid, cs + so);
      Assoc(cs, so, if Fires(d, ops[n].key) then [ChangeOf(ops[n], base + n, cap)] else []);
    }
  }

  lemma NothingLive(name: Bytes, q: map<Bytes, Bytes>)
    ensures Live(name, q, []) == q
  {
  }

  lemma OneEnqueued(defs: seq<Def>, d: Def, op: BatchOp, at: SeqNo, cap: nat, q: map<Bytes, Bytes>, cs: seq<Change>)
    requires Active(defs, d) && QueueIs(d.name, q, cs) && at >= 1 && Rising(cs, at - 1) && at < Pow2(64) &&
      |op.key| < Pow2(64)
    ensures var cs' := cs + if Fires(d, op.key) then [ChangeOf(op, at, cap)] else [];
      QueueIs(d.name, Live(d.name, q, EventsAt(defs, op, at, cap)), cs') && Rising(cs', at)
  {
    hide Fires, InQueue, EventsAt, ChangeKey, QueueIs, Live, Pow2;
    EventsOfOne(defs, d, op, at, cap, q);
    if Fires(d, op.key) { Enqueued(d.name, q, cs, at - 1, ChangeOf(op, at, cap)); } else { assert cs + [] == cs; }
  }

  /** A captured commit extends the queue by exactly its matching ops, each under its own seqno. */
  lemma CaptureEnqueues(defs: seq<Def>, d: Def, ops: seq<BatchOp>, base: SeqNo, cap: nat, q: map<Bytes, Bytes>,
                        cs: seq<Change>)
    requires Active(defs, d) && QueueIs(d.name, q, cs) && base >= 1 && Rising(cs, base - 1) && base + |ops| < Pow2(64)
    requires KeysFit(ops)
    requires forall op :: op in ops ==> !InQueue(d.name, op.key)
    ensures var q' := Live(d.name, q, ops + CaptureOps(defs, ops, base, cap));
      QueueIs(d.name, q', cs + Matching(d, ops, base, cap)) &&
      Rising(cs + Matching(d, ops, base, cap), base - 1 + |ops|)
  {
    hide InQueue, QueueIs, Rising, Touches, ChangeEvents, Pow2, Matching;
    var ks := SortedUnique(Touches(defs, ops));
    LiveConcat(d.name, q, ops, CaptureOps(defs, ops, base, cap));
    LiveElsewhere(d.name, q, ops);
    LiveConcat(d.name, q, Puts(ks), ChangeEvents(defs, ops, base, cap));
    SortedUniqueExact(Touches(defs, ops));
    TouchesElsewhere(defs, d, ops);
    forall op | op in Puts(ks) ensures !InQueue(d.name, op.key) {
      var i :| 0 <= i < |ks| && Puts(ks)[i] == op;
      assert ks[i] in ks;
    }
    LiveElsewhere(d.name, q, Puts(ks));
    ChangesEnqueued(defs, d, ops, base, cap, q, cs);
  }
}
