/** One shard of the block cache: an arena of nodes linked by recency, a map into it, a free list and
 * a byte budget, refining a plain list of cached blocks, most recently used first.
 */
module Lru {
  import opened Keys
  import opened Types

  /** A file and an offset. */
  datatype Slot = Slot(file: nat, offset: nat)

  type Value = Bytes

  datatype Cached = Cached(slot: Slot, val: Value)

  // ---------------------------------------------------------------- the recency list

  function Size(l: seq<Cached>): nat {
    if l == [] then 0 else Size(l[..|l| - 1]) + |l[|l| - 1].val|
  }

  /** Where a slot is cached. */
  function Find(l: seq<Cached>, k: Slot): (p: Option<nat>)
    ensures p.Some? ==> p.value < |l| && l[p.value].slot == k
    ensures p.None? ==> forall i :: 0 <= i < |l| ==> l[i].slot != k
  {
    if l == [] then None
    else if l[|l| - 1].slot == k then Some(|l| - 1)
    else Find(l[..|l| - 1], k)
  }

  function Without<T>(s: seq<T>, p: nat): seq<T>
    requires p < |s|
  {
    s[..p] + s[p + 1..]
  }

  function ToFront(l: seq<Cached>, p: nat): seq<Cached>
    requires p < |l|
  {
    [l[p]] + Without(l, p)
  }

  /** A hit moves its block to the front. */
  function Touched(l: seq<Cached>, k: Slot): seq<Cached> {
    var p := Find(l, k);
    if p.Some? then ToFront(l, p.value) else l
  }

  function Placed(l: seq<Cached>, k: Slot, v: Value): seq<Cached> {
    var p := Find(l, k);
    [Cached(k, v)] + if p.Some? then Without(l, p.value) else l
  }

  /** Drop the least recent blocks until the rest fit; the first one stays whatever its size. */
  function Trim(l: seq<Cached>, cap: nat): seq<Cached> {
    if Size(l) <= cap || |l| <= 1 then l else Trim(l[..|l| - 1], cap)
  }

  function Inserted(l: seq<Cached>, k: Slot, v: Value, cap: nat): seq<Cached> {
    Trim(Placed(l, k, v), cap)
  }

  predicate Keyed(l: seq<Cached>) {
    forall i, j :: 0 <= i < j < |l| ==> l[i].slot != l[j].slot
  }

  /** Eviction keeps the longest prefix within the budget, or the front block alone. */
  lemma {:induction false} TrimExact(l: seq<Cached>, cap: nat)
    ensures var t := Trim(l, cap);
      t <= l && (l != [] ==> t != []) && (Size(t) <= cap || |t| <= 1) &&
      forall n :: |t| < n <= |l| ==> Size(l[..n]) > cap
  {
    if Size(l) <= cap || |l| <= 1 {
    } else {
      var pre := l[..|l| - 1];
      TrimExact(pre, cap);
      forall n | |Trim(l, cap)| < n <= |l| ensures Size(l[..n]) > cap {
        if n == |l| { assert l[..n] == l; } else { assert pre[..n] == l[..n]; }
      }
    }
  }

  // ---------------------------------------------------------------- whole runs

  datatype Op = Get(slot: Slot) | Insert(slot: Slot, val: Value)

  function After(ops: seq<Op>, cap: nat): seq<Cached> {
    if ops == [] then []
    else
      var l := After(ops[..|ops| - 1], cap);
      match ops[|ops| - 1]
      case Get(k) => Touched(l, k)
      case Insert(k, v) => Inserted(l, k, v, cap)
  }

  /** The value last inserted for a slot. */
  function LastInserted(ops: seq<Op>, k: Slot): Option<Value> {
    if ops == [] then None
    else
      var op := ops[|ops| - 1];
      if op.Insert? && op.slot == k then Some(op.val) else LastInserted(ops[..|ops| - 1], k)
  }

  /** When a slot was last inserted or hit, counted from 1; 0 for never. */
  function LastUse(ops: seq<Op>, cap: nat, k: Slot): (n: nat)
    ensures n <= |ops|
  {
    if ops == [] then 0
    else
      var before, op := ops[..|ops| - 1], ops[|ops| - 1];
      if op.slot == k && (op.Insert? || Find(After(before, cap), k).Some?) then |ops| else LastUse(before, cap, k)
  }

  predicate Current(l: seq<Cached>, ops: seq<Op>) {
    forall i :: 0 <= i < |l| ==> LastInserted(ops, l[i].slot) == Some(l[i].val)
  }

  predicate ByRecency(l: seq<Cached>, ops: seq<Op>, cap: nat) {
    forall i, j :: 0 <= i < j < |l| ==> LastUse(ops, cap, l[i].slot) > LastUse(ops, cap, l[j].slot)
  }

  /** Over every run the list holds each slot once with the value last inserted for it, in order of
      last use, and is within the budget unless it is a single block: so what a hit returns is
      current, and what eviction drops was used longest ago. */
  lemma {:induction false} RunIsExact(ops: seq<Op>, cap: nat)
    ensures var l := After(ops, cap);
      Keyed(l) && Current(l, ops) && ByRecency(l, ops, cap) && (Size(l) <= cap || |l| <= 1)
  {
    hide Trim, Find, Placed, ToFront, Keyed, Current, ByRecency, LastUse, LastInserted, Size;
    if ops == [] {
      NothingCached(cap);
    } else {
      var before, op := ops[..|ops| - 1], ops[|ops| - 1];
      var l := After(before, cap);
      assert ops == before + [op];
      RunIsExact(before, cap);
      match op
      case Get(k) =>
        var p := Find(l, k);
        if p.Some? {
          FrontIsNewest(l, before, op, cap, p.value);
          MovedKeepsSize(l, p.value);
        } else {
          UntouchedStays(l, before, op, cap);
        }
      case Insert(k, v) =>
        var l' := Placed(l, k, v);
        PlacedIsExact(l, before, op, cap);
        TrimExact(l', cap);
        PrefixIsExact(l', Trim(l', cap), ops, cap);
    }
  }

  lemma NothingCached(cap: nat)
    ensures Keyed([]) && Current([], []) && ByRecency([], [], cap) && Size([]) == 0
  {
  }

  lemma PrefixIsExact(l: seq<Cached>, t: seq<Cached>, ops: seq<Op>, cap: nat)
    requires t <= l && Keyed(l) && Current(l, ops) && ByRecency(l, ops, cap)
    ensures Keyed(t) && Current(t, ops) && ByRecency(t, ops, cap)
  {
    hide LastUse, LastInserted;
    assert forall i :: 0 <= i < |t| ==> t[i] == l[i];
  }

  lemma LastStep(before: seq<Op>, op: Op, cap: nat, k: Slot)
    ensures LastInserted(before + [op], k) ==
      if op.Insert? && op.slot == k then Some(op.val) else LastInserted(before, k)
    ensures LastUse(before + [op], cap, k) ==
      if op.slot == k && (op.Insert? || Find(After(before, cap), k).Some?) then |before| + 1
      else LastUse(before, cap, k)
  {
    assert (before + [op])[..|before|] == before;
  }

  lemma UntouchedStays(l: seq<Cached>, before: seq<Op>, op: Op, cap: nat)
    requires l == After(before, cap) && op.Get? && Find(l, op.slot).None?
    requires Current(l, before) && ByRecency(l, before, cap)
    ensures Current(l, before + [op]) && ByRecency(l, before + [op], cap)
  {
    hide Find, LastInserted, LastUse, After;
    forall i | 0 <= i < |l| ensures LastInserted(before + [op], l[i].slot) == Some(l[i].val) {
      LastStep(before, op, cap, l[i].slot);
    }
    forall i, j | 0 <= i < j < |l|
      ensures LastUse(before + [op], cap, l[i].slot) > LastUse(before + [op], cap, l[j].slot)
    {
      LastStep(before, op, cap, l[i].slot);
      LastStep(before, op, cap, l[j].slot);
    }
  }

  /** A block put in front of a list that does not hold its slot. */
  lemma FrontFirst(c: Cached, rest: seq<Cached>, before: seq<Op>, op: Op, cap: nat)
    requires Keyed(rest) && Current(rest, before) && ByRecency(rest, before, cap) && op.slot == c.slot
    requires forall i :: 0 <= i < |rest| ==> rest[i].slot != c.slot
    requires op.Insert? || Find(After(before, cap), op.slot).Some?
    requires LastInserted(before + [op], c.slot) == Some(c.val)
    ensures var l := [c] + rest; Keyed(l) && Current(l, before + [op]) && ByRecency(l, before + [op], cap)
  {
    hide Find, LastInserted, LastUse, After;
    var l, ops := [c] + rest, before + [op];
    forall i | 0 <= i < |l| ensures LastInserted(ops, l[i].slot) == Some(l[i].val) {
      LastStep(before, op, cap, l[i].slot);
    }
    forall i, j | 0 <= i < j < |l| ensures LastUse(ops, cap, l[i].slot) > LastUse(ops, cap, l[j].slot) {
      LastStep(before, op, cap, l[i].slot);
      LastStep(before, op, cap, l[j].slot);
    }
  }

  lemma RestIsExact(l: seq<Cached>, before: seq<Op>, cap: nat, p: nat)
    requires Keyed(l) && Current(l, before) && ByRecency(l, before, cap) && p < |l|
    ensures var rest := Without(l, p);
      Keyed(rest) && Current(rest, before) && ByRecency(rest, before, cap) &&
      forall i :: 0 <= i < |rest| ==> rest[i].slot != l[p].slot
  {
    hide LastInserted, LastUse;
    var rest := Without(l, p);
    assert forall i :: 0 <= i < |rest| ==> rest[i] == if i < p then l[i] else l[i + 1];
  }

  lemma FrontIsNewest(l: seq<Cached>, before: seq<Op>, op: Op, cap: nat, p: nat)
    requires l == After(before, cap) && op.Get? && p < |l| && Find(l, op.slot) == Some(p)
    requires Keyed(l) && Current(l, before) && ByRecency(l, before, cap)
    ensures var l' := ToFront(l, p); Keyed(l') && Current(l', before + [op]) && ByRecency(l', before + [op], cap)
  {
    hide LastInserted, LastUse, After, Keyed, Current, ByRecency;
    RestIsExact(l, before, cap, p);
    LastStep(before, op, cap, l[p].slot);
    CurrentAt(l, before, p);
    FrontFirst(l[p], Without(l, p), before, op, cap);
  }

  lemma CurrentAt(l: seq<Cached>, ops: seq<Op>, p: nat)
    requires Current(l, ops) && p < |l|
    ensures LastInserted(ops, l[p].slot) == Some(l[p].val)
  {
  }

  lemma PlacedIsExact(l: seq<Cached>, before: seq<Op>, op: Op, cap: nat)
    requires l == After(before, cap) && op.Insert? && Keyed(l) && Current(l, before) && ByRecency(l, before, cap)
    ensures var l' := Placed(l, op.slot, op.val);
      Keyed(l') && Current(l', before + [op]) && ByRecency(l', before + [op], cap)
  {
    hide LastInserted, LastUse, After, Keyed, Current, ByRecency;
    var p := Find(l, op.slot);
    LastStep(before, op, cap, op.slot);
    if p.Some? {
      RestIsExact(l, before, cap, p.value);
      FrontFirst(Cached(op.slot, op.val), Without(l, p.value), before, op, cap);
    } else {
      FrontFirst(Cached(op.slot, op.val), l, before, op, cap);
    }
  }

  lemma {:induction false} SizeConcat(a: seq<Cached>, b: seq<Cached>)
    ensures Size(a + b) == Size(a) + Size(b)
  {
    if b == [] {
      assert a + b == a;
    } else {
      SizeConcat(a, b[..|b| - 1]);
      assert (a + b)[..|a + b| - 1] == a + b[..|b| - 1];
    }
  }

  lemma SizeWithout(l: seq<Cached>, p: nat)
    requires p < |l|
    ensures Size(l) == Size(Without(l, p)) + |l[p].val|
  {
    SizeConcat(l[..p], [l[p]] + l[p + 1..]);
    SizeConcat([l[p]], l[p + 1..]);
    SizeConcat(l[..p], l[p + 1..]);
    assert l == l[..p] + ([l[p]] + l[p + 1..]);
    SizeOne(l[p]);
  }

  lemma SizeOne(c: Cached)
    ensures Size([c]) == |c.val|
  {
    assert [c][..0] == [];
  }

  lemma MovedKeepsSize(l: seq<Cached>, p: nat)
    requires p < |l|
    ensures Size(ToFront(l, p)) == Size(l) && |ToFront(l, p)| == |l|
  {
    SizeWithout(l, p);
    SizeConcat([l[p]], Without(l, p));
    SizeOne(l[p]);
  }

  // ---------------------------------------------------------------- the arena

  datatype Node = Node(slot: Slot, val: Value, prev: Option<nat>, next: Option<nat>)

  function At(order: seq<nat>, p: int): Option<nat> {
    if 0 <= p < |order| then Some(order[p]) else None
  }

  predicate Distinct(order: seq<nat>) {
    forall i, j :: 0 <= i < j < |order| ==> order[i] != order[j]
  }

  predicate InArena(nodes: seq<Node>, order: seq<nat>) {
    forall p :: 0 <= p < |order| ==> order[p] < |nodes|
  }

  predicate LinkedAt(nodes: seq<Node>, order: seq<nat>, p: nat)
    requires p < |order| && order[p] < |nodes|
  {
    nodes[order[p]].prev == At(order, p - 1) && nodes[order[p]].next == At(order, p + 1)
  }

  /** The links of the nodes in `order` run through them in that order, both ways. */
  predicate Linked(nodes: seq<Node>, order: seq<nat>) {
    InArena(nodes, order) && Distinct(order) && forall p :: 0 <= p < |order| ==> LinkedAt(nodes, order, p)
  }

  function BlockOf(n: Node): Cached {
    Cached(n.slot, n.val)
  }

  function Listing(nodes: seq<Node>, order: seq<nat>): seq<Cached>
    requires InArena(nodes, order)
  {
    seq(|order|, p requires 0 <= p < |order| => BlockOf(nodes[order[p]]))
  }

  /** Nodes keep what they cache; only links differ. */
  predicate SameBlocks(nodes: seq<Node>, nodes': seq<Node>) {
    |nodes| == |nodes'| && forall i :: 0 <= i < |nodes| ==> BlockOf(nodes'[i]) == BlockOf(nodes[i])
  }

  function SetNext(nodes: seq<Node>, i: Option<nat>, n: Option<nat>): (nodes': seq<Node>)
    requires i.Some? ==> i.value < |nodes|
    ensures SameBlocks(nodes, nodes')
  {
    if i.Some? then nodes[i.value := nodes[i.value].(next := n)] else nodes
  }

  function SetPrev(nodes: seq<Node>, i: Option<nat>, n: Option<nat>): (nodes': seq<Node>)
    requires i.Some? ==> i.value < |nodes|
    ensures SameBlocks(nodes, nodes')
  {
    if i.Some? then nodes[i.value := nodes[i.value].(prev := n)] else nodes
  }

  /** Relinking a node's neighbours past it. */
  function Relinked(nodes: seq<Node>, i: nat): (nodes': seq<Node>)
    requires i < |nodes| && (nodes[i].prev.Some? ==> nodes[i].prev.value < |nodes|)
    requires nodes[i].next.Some? ==> nodes[i].next.value < |nodes|
    ensures SameBlocks(nodes, nodes')
  {
    var n := nodes[i];
    var around := SetPrev(SetNext(nodes, n.prev, n.next), n.next, n.prev);
    around[i := around[i].(prev := None, next := None)]
  }

  lemma NeighboursIn(nodes: seq<Node>, order: seq<nat>, p: nat)
    requires Linked(nodes, order) && p < |order|
    ensures order[p] < |nodes| && LinkedAt(nodes, order, p)
    ensures p > 0 ==> order[p - 1] < |nodes| && LinkedAt(nodes, order, p - 1) && order[p - 1] != order[p]
    ensures p + 1 < |order| ==> order[p + 1] < |nodes| && LinkedAt(nodes, order, p + 1) && order[p + 1] != order[p]
    ensures 0 < p < |order| - 1 ==> order[p - 1] != order[p + 1]
  {
  }

  lemma RelinkedAt(nodes: seq<Node>, order: seq<nat>, p: nat, o: nat)
    requires Linked(nodes, order) && p < |order| && o < |order| && o != p
    requires order[p] < |nodes| && LinkedAt(nodes, order, p)
    requires (nodes[order[p]].prev.Some? ==> nodes[order[p]].prev.value < |nodes|)
    requires (nodes[order[p]].next.Some? ==> nodes[order[p]].next.value < |nodes|)
    ensures order[o] < |nodes|
    ensures var n := Relinked(nodes, order[p])[order[o]];
      n.prev == (if o == p + 1 then At(order, p - 1) else At(order, o - 1)) &&
      n.next == (if o + 1 == p then At(order, p + 1) else At(order, o + 1))
  {
    NeighboursIn(nodes, order, p);
    NeighboursIn(nodes, order, o);
    OthersDiffer(order, p, o);
    hide Linked, InArena, Distinct, SameBlocks;
  }

  lemma OthersDiffer(order: seq<nat>, p: nat, o: nat)
    requires Distinct(order) && p < |order| && o < |order| && o != p
    ensures order[o] != order[p]
    ensures p > 0 && o != p - 1 ==> order[o] != order[p - 1]
    ensures p + 1 < |order| && o != p + 1 ==> order[o] != order[p + 1]
  {
  }

  /** It takes the node out of the order. */
  lemma UnlinkedOrder(nodes: seq<Node>, order: seq<nat>, p: nat)
    requires Linked(nodes, order) && p < |order|
    ensures var i := order[p];
      i < |nodes| && LinkedAt(nodes, order, p) &&
      (nodes[i].prev.Some? ==> nodes[i].prev.value < |nodes|) &&
      (nodes[i].next.Some? ==> nodes[i].next.value < |nodes|) &&
      Linked(Relinked(nodes, i), Without(order, p))
  {
    hide LinkedAt, Relinked, SameBlocks;
    NeighboursIn(nodes, order, p);
    LinksStayIn(nodes, order, p);
    var rest, nodes' := Without(order, p), Relinked(nodes, order[p]);
    assert |nodes'| == |nodes| by { SameLength(nodes, nodes'); }
    assert forall q :: 0 <= q < |rest| ==> rest[q] == if q < p then order[q] else order[q + 1];
    forall q | 0 <= q < |rest| ensures LinkedAt(nodes', rest, q) {
      RelinkedAt(nodes, order, p, if q < p then q else q + 1);
      LinkedNow(nodes', rest, q);
    }
  }

  lemma LinksStayIn(nodes: seq<Node>, order: seq<nat>, p: nat)
    requires InArena(nodes, order) && p < |order| && LinkedAt(nodes, order, p)
    ensures nodes[order[p]].prev.Some? ==> nodes[order[p]].prev.value < |nodes|
    ensures nodes[order[p]].next.Some? ==> nodes[order[p]].next.value < |nodes|
  {
  }

  lemma SameLength(nodes: seq<Node>, nodes': seq<Node>)
    requires SameBlocks(nodes, nodes')
    ensures |nodes'| == |nodes|
  {
  }

  lemma LinkedNow(nodes: seq<Node>, order: seq<nat>, p: nat)
    requires p < |order| && order[p] < |nodes|
    requires nodes[order[p]].prev == At(order, p - 1) && nodes[order[p]].next == At(order, p + 1)
    ensures LinkedAt(nodes, order, p)
  {
  }

  lemma PushedOrder(nodes: seq<Node>, order: seq<nat>, i: nat)
    requires Linked(nodes, order) && i < |nodes| && i !in order
    ensures order != [] ==> order[0] < |nodes|
    ensures var nodes' := nodes[i := nodes[i].(prev := None, next := At(order, 0))];
      Linked(SetPrev(nodes', At(order, 0), Some(i)), [i] + order)
  {
    var all := [i] + order;
    if order != [] { assert LinkedAt(nodes, order, 0); }
    var first := nodes[i := nodes[i].(prev := None, next := At(order, 0))];
    var nodes' := SetPrev(first, At(order, 0), Some(i));
    forall p | 0 <= p < |all| ensures LinkedAt(nodes', all, p) {
      if p > 0 { assert LinkedAt(nodes, order, p - 1) && all[p] == order[p - 1]; }
    }
  }

  predicate IndexedAt(index: map<Slot, nat>, nodes: seq<Node>, i: nat) {
    i < |nodes| && nodes[i].slot in index && index[nodes[i].slot] == i
  }

  /** The map finds each block's node, and nothing else. */
  predicate Indexed(index: map<Slot, nat>, nodes: seq<Node>, order: seq<nat>) {
    (forall i: nat :: i in order ==> IndexedAt(index, nodes, i)) &&
    forall k :: k in index ==> index[k] in order && index[k] < |nodes| && nodes[index[k]].slot == k
  }

  /** Every node is linked or free, never both. */
  predicate Partition(count: nat, order: seq<nat>, free: seq<nat>) {
    Distinct(free) && (forall i :: i in free ==> i < count && i !in order) &&
    forall i: nat :: i < count ==> i in order || i in free
  }

  function Position(order: seq<nat>, i: nat): (p: nat)
    requires i in order
    ensures p < |order| && order[p] == i
  {
    if order[0] == i then 0 else Position(order[1..], i) + 1
  }

  /** Looking a slot up in the map is finding it in the list. */
  lemma IndexFinds(index: map<Slot, nat>, nodes: seq<Node>, order: seq<nat>, k: Slot)
    requires Linked(nodes, order) && Indexed(index, nodes, order)
    ensures Keyed(Listing(nodes, order))
    ensures k in index <==> Find(Listing(nodes, order), k).Some?
    ensures k in index ==> index[k] in order && Find(Listing(nodes, order), k) == Some(Position(order, index[k]))
  {
    hide LinkedAt;
    var l := Listing(nodes, order);
    forall i, j | 0 <= i < j < |l| ensures l[i].slot != l[j].slot {
      assert order[i] in order && order[j] in order;
      assert IndexedAt(index, nodes, order[i]) && IndexedAt(index, nodes, order[j]);
    }
    var p := Find(l, k);
    if p.Some? { assert IndexedAt(index, nodes, order[p.value]); }
    if k in index {
      var q := Position(order, index[k]);
      assert l[q].slot == k;
      assert p.Some?;
    }
  }

  lemma ListingSame(nodes: seq<Node>, nodes': seq<Node>, order: seq<nat>)
    requires InArena(nodes, order) && SameBlocks(nodes, nodes')
    ensures InArena(nodes', order) && Listing(nodes', order) == Listing(nodes, order)
  {
    assert forall i :: 0 <= i < |nodes| ==>
      nodes'[i].slot == BlockOf(nodes'[i]).slot && nodes[i].slot == BlockOf(nodes[i]).slot;
  }

  lemma IndexedSame(index: map<Slot, nat>, nodes: seq<Node>, nodes': seq<Node>, order: seq<nat>)
    requires Indexed(index, nodes, order) && SameBlocks(nodes, nodes')
    ensures Indexed(index, nodes', order)
  {
    forall i: nat | i < |nodes| ensures nodes'[i].slot == nodes[i].slot {
      assert BlockOf(nodes'[i]) == BlockOf(nodes[i]);
    }
    forall i: nat | i in order ensures IndexedAt(index, nodes', i) {
      assert IndexedAt(index, nodes, i);
    }
  }

  /** The map and the partition do not care about the order. */
  lemma Reordered(index: map<Slot, nat>, nodes: seq<Node>, order: seq<nat>, order': seq<nat>, free: seq<nat>)
    requires Indexed(index, nodes, order) && Partition(|nodes|, order, free)
    requires forall i: nat :: i in order <==> i in order'
    ensures Indexed(index, nodes, order') && Partition(|nodes|, order', free)
  {
  }

  lemma SameThrough(a: seq<Node>, b: seq<Node>, c: seq<Node>)
    requires SameBlocks(a, b) && SameBlocks(b, c)
    ensures SameBlocks(a, c) && |a| == |b| == |c|
  {
  }

  lemma ListingWithout(nodes: seq<Node>, order: seq<nat>, p: nat)
    requires InArena(nodes, order) && p < |order|
    ensures InArena(nodes, Without(order, p)) && Listing(nodes, Without(order, p)) == Without(Listing(nodes, order), p)
  {
  }

  lemma ListingFront(nodes: seq<Node>, order: seq<nat>, i: nat)
    requires InArena(nodes, order) && i < |nodes|
    ensures InArena(nodes, [i] + order) && Listing(nodes, [i] + order) == [BlockOf(nodes[i])] + Listing(nodes, order)
  {
  }

  lemma WithoutMembers(order: seq<nat>, p: nat)
    requires Distinct(order) && p < |order|
    ensures forall i: nat :: i in Without(order, p) <==> i in order && i != order[p]
  {
    var rest := Without(order, p);
    forall i: nat | i in order && i != order[p] ensures i in rest {
      var q :| 0 <= q < |order| && order[q] == i;
      assert rest[if q < p then q else q - 1] == i;
    }
    forall i: nat | i in rest ensures i in order && i != order[p] {
      var q :| 0 <= q < |rest| && rest[q] == i;
      assert order[if q < p then q else q + 1] == i;
    }
  }

  lemma Itself(nodes: seq<Node>)
    ensures SameBlocks(nodes, nodes)
  {
  }

  lemma LinkedFacts(nodes: seq<Node>, order: seq<nat>)
    requires Linked(nodes, order)
    ensures InArena(nodes, order) && Distinct(order)
  {
  }

  lemma BlockAt(nodes: seq<Node>, order: seq<nat>, p: nat)
    requires InArena(nodes, order) && p < |order|
    ensures |Listing(nodes, order)| == |order| && order[p] < |nodes| &&
      Listing(nodes, order)[p] == BlockOf(nodes[order[p]])
  {
  }

  class Shard {
    const cap: nat
    var index: map<Slot, nat>
    var nodes: seq<Node>
    var free: seq<nat>
    var head: Option<nat>
    var tail: Option<nat>
    var bytes: nat
    /** The linked nodes, most recently used first. */
    ghost var order: seq<nat>

    ghost predicate Chain()
      reads this
    {
      Linked(nodes, order) && head == At(order, 0) && tail == At(order, |order| - 1)
    }

    ghost predicate Valid()
      reads this
    {
      Chain() && Indexed(index, nodes, order) && Partition(|nodes|, order, free) && bytes == Size(Contents())
    }

    ghost function Contents(): seq<Cached>
      reads this
      requires Chain()
    {
      Listing(nodes, order)
    }

    constructor (capacity: nat)
      ensures Valid() && Contents() == [] && cap == capacity
    {
      cap := capacity;
      index, nodes, free, head, tail, bytes, order := map[], [], [], None, None, 0, [];
    }

    method Unlink(i: nat, ghost p: nat)
      requires Chain() && p < |order| && order[p] == i
      modifies this`nodes, this`head, this`tail, this`order
      ensures Chain() && order == Without(old(order), p) && SameBlocks(old(nodes), nodes)
    {
      hide Linked, SameBlocks;
      UnlinkedOrder(nodes, order, p);
      ghost var was := nodes;
      var prev, next := nodes[i].prev, nodes[i].next;
      if prev.Some? {
        nodes := nodes[prev.value := nodes[prev.value].(next := next)];
      } else {
        head := next;
      }
      if next.Some? {
        nodes := nodes[next.value := nodes[next.value].(prev := prev)];
      } else {
        tail := prev;
      }
      nodes := nodes[i := nodes[i].(prev := None, next := None)];
      assert nodes == Relinked(was, i);
      order := Without(order, p);
    }

    method PushFront(i: nat)
      requires Chain() && i < |nodes| && i !in order
      modifies this`nodes, this`head, this`tail, this`order
      ensures Chain() && order == [i] + old(order) && SameBlocks(old(nodes), nodes)
    {
      hide Linked;
      PushedOrder(nodes, order, i);
      nodes := nodes[i := nodes[i].(prev := None, next := head)];
      if head.Some? {
        nodes := nodes[head.value := nodes[head.value].(prev := Some(i))];
      }
      head := Some(i);
      if tail.None? { tail := Some(i); }
      order := [i] + order;
    }

    /** Move a linked node to the front. */
    method MoveToFront(i: nat, ghost p: nat)
      requires Valid() && p < |order| && order[p] == i
      modifies this`nodes, this`head, this`tail, this`order
      ensures Chain() && Indexed(index, nodes, order) && Partition(|nodes|, order, free)
      ensures SameBlocks(old(nodes), nodes) && order == [i] + Without(old(order), p)
      ensures Contents() == ToFront(old(Contents()), p)
    {
      hide Linked, SameBlocks, Indexed, Partition, Size, Listing;
      ghost var was, order0 := nodes, order;
      ghost var rest := Without(order, p);
      LinkedFacts(nodes, order);
      WithoutMembers(order, p);
      Reordered(index, nodes, order, [i] + rest, free);
      ListingWithout(nodes, order, p);
      BlockAt(nodes, order, p);
      Unlink(i, p);
      ghost var mid := nodes;
      Itself(was);
      SameThrough(was, was, mid);
      PushFront(i);
      SameThrough(was, mid, nodes);
      IndexedSame(index, was, nodes, order);
      ListingFront(was, rest, i);
      ListingSame(was, nodes, [i] + rest);
    }

    method Get(k: Slot) returns (r: Option<Value>)
      requires Valid()
      modifies this
      ensures Valid() && Contents() == Touched(old(Contents()), k)
      ensures var p := Find(old(Contents()), k);
        r == if p.Some? then Some(old(Contents())[p.value].val) else None
    {
      hide Linked, SameBlocks, Indexed, Partition, Size, Find;
      ghost var l := Contents();
      IndexFinds(index, nodes, order, k);
      if k !in index { return None; }
      var i := index[k];
      ghost var p := Position(order, i);
      MovedKeepsSize(l, p);
      MoveToFront(i, p);
      LinkedFacts(nodes, order);
      BlockAt(nodes, order, 0);
      r := Some(nodes[i].val);
    }

    /** Overwrite a cached block's value in place. */
    method Replace(i: nat, v: Value, ghost p: nat)
      requires Valid() && p < |order| && order[p] == i
      modifies this`nodes, this`bytes
      ensures Valid() && i < |nodes| && Contents() == old(Contents())[p := Cached(old(Contents())[p].slot, v)]
    {
      hide Linked, Indexed, Partition, Size, Listing, LinkedAt;
      LinkedFacts(nodes, order);
      BlockAt(nodes, order, p);
      ghost var l := Listing(nodes, order);
      SizeWithout(l, p);
      Overwritten(index, nodes, order, p, v);
      SizeWithout(l[p := Cached(l[p].slot, v)], p);
      assert Without(l[p := Cached(l[p].slot, v)], p) == Without(l, p);
      bytes := bytes - |nodes[i].val| + |v|;
      nodes := nodes[i := nodes[i].(val := v)];
    }

    /** Cache a new block in a free or freshly pushed node. */
    method Add(k: Slot, v: Value)
      requires Valid() && k !in index
      modifies this
      ensures Valid() && Contents() == [Cached(k, v)] + old(Contents())
    {
      hide Linked, Indexed, Partition, Size, Listing, SameBlocks, Distinct;
      ghost var was, order0, l := nodes, order, Contents();
      LinkedFacts(nodes, order);
      var i;
      var n := Node(k, v, None, None);
      if free != [] {
        i := free[|free| - 1];
        Reused(index, nodes, order, free, n);
        free := free[..|free| - 1];
        nodes := nodes[i := n];
      } else {
        i := |nodes|;
        Grown(index, nodes, order, free, n);
        nodes := nodes + [n];
      }
      ghost var mid := nodes;
      bytes := bytes + |nodes[i].val|;
      index := index[k := i];
      PushFront(i);
      ListingFront(mid, order0, i);
      LinkedFacts(nodes, order);
      ListingSame(mid, nodes, order);
      IndexedSame(index, mid, nodes, order);
      Itself(mid);
      SameThrough(mid, mid, nodes);
      SizeConcat([Cached(k, v)], l);
      SizeOne(Cached(k, v));
    }

    /** Evict the least recently used block. */
    method EvictLast()
      requires Valid() && |order| >= 2
      modifies this`index, this`nodes, this`free, this`head, this`tail, this`bytes, this`order
      ensures Valid() && |order| == |old(order)| - 1 && |old(Contents())| == |old(order)|
      ensures Contents() == old(Contents())[..|old(order)| - 1]
    {
      hide Linked, Indexed, Partition, Size, Listing, SameBlocks;
      ghost var was, p, l := nodes, |order| - 1, Contents();
      var victim := tail.value;
      LinkedFacts(nodes, order);
      BlockAt(nodes, order, p);
      SizeWithout(l, p);
      assert Without(l, p) == l[..p];
      ListingWithout(nodes, order, p);
      Freed(index, nodes, order, free, p);
      bytes := bytes - |nodes[victim].val|;
      index := index - {nodes[victim].slot};
      Unlink(victim, p);
      ghost var mid := nodes;
      LinkedFacts(nodes, order);
      ListingSame(was, mid, order);
      IndexedSame(index, was, mid, order);
      Itself(mid);
      SameThrough(was, mid, mid);
      EmptiedFree(index, mid, order, victim);
      nodes := nodes[victim := nodes[victim].(val := [])];
      free := free + [victim];
    }

    method Insert(k: Slot, v: Value)
      requires Valid()
      modifies this
      ensures Valid() && Contents() == Inserted(old(Contents()), k, v, cap)
    {
      hide Linked, Indexed, Partition, Size, Listing, SameBlocks, Find, Trim;
      ghost var l := Contents();
      IndexFinds(index, nodes, order, k);
      if k in index {
        var i := index[k];
        ghost var p := Position(order, i);
        Replace(i, v, p);
        ghost var l' := Contents();
        assert Without(l', p) == Without(l, p);
        MovedKeepsSize(l', p);
        MoveToFront(i, p);
      } else {
        Add(k, v);
      }
      ghost var placed := Contents();
      assert placed == Placed(l, k, v);
      while bytes > cap && tail.Some?
        invariant Valid() && Trim(Contents(), cap) == Trim(placed, cap)
        invariant bytes > cap && tail.Some? ==> |order| >= 1
        decreases |order|
      {
        HeadIsTail(nodes, order);
        if tail == head { break; }
        TrimOnce(Contents(), cap);
        EvictLast();
      }
      HeadIsTail(nodes, order);
      TrimDone(Contents(), cap);
    }
  }

  lemma Overwritten(index: map<Slot, nat>, nodes: seq<Node>, order: seq<nat>, p: nat, v: Value)
    requires Linked(nodes, order) && Indexed(index, nodes, order) && p < |order| && order[p] < |nodes|
    ensures var nodes' := nodes[order[p] := nodes[order[p]].(val := v)];
      Linked(nodes', order) && Indexed(index, nodes', order) && |Listing(nodes, order)| == |order| &&
      Listing(nodes', order) == Listing(nodes, order)[p := Cached(Listing(nodes, order)[p].slot, v)]
  {
    var nodes' := nodes[order[p] := nodes[order[p]].(val := v)];
    forall q | 0 <= q < |order| ensures LinkedAt(nodes', order, q) {
      assert LinkedAt(nodes, order, q);
    }
    forall i: nat | i in order ensures IndexedAt(index, nodes', i) {
      assert IndexedAt(index, nodes, i);
    }
  }

  /** A node taken off the free list. */
  lemma Reused(index: map<Slot, nat>, nodes: seq<Node>, order: seq<nat>, free: seq<nat>, n: Node)
    requires Linked(nodes, order) && Indexed(index, nodes, order) && Partition(|nodes|, order, free) && free != []
    requires n.slot !in index
    ensures var i := free[|free| - 1];
      i < |nodes| && i !in order &&
      var nodes' := nodes[i := n];
      Linked(nodes', order) && Listing(nodes', order) == Listing(nodes, order) &&
      Indexed(index[n.slot := i], nodes', [i] + order) && Partition(|nodes'|, [i] + order, free[..|free| - 1])
  {
    var i, rest := free[|free| - 1], free[..|free| - 1];
    assert i in free && free == rest + [i];
    assert forall j :: j in rest ==> j in free && j != i;
    NewNode(index, nodes, nodes[i := n], order, i, n);
  }

  lemma Grown(index: map<Slot, nat>, nodes: seq<Node>, order: seq<nat>, free: seq<nat>, n: Node)
    requires Linked(nodes, order) && Indexed(index, nodes, order) && Partition(|nodes|, order, free) && free == []
    requires n.slot !in index
    ensures |nodes| !in order
    ensures var nodes' := nodes + [n];
      Linked(nodes', order) && Listing(nodes', order) == Listing(nodes, order) &&
      Indexed(index[n.slot := |nodes|], nodes', [|nodes|] + order) && Partition(|nodes'|, [|nodes|] + order, [])
  {
    assert forall i: nat :: i in order ==> i < |nodes|;
    NewNode(index, nodes, nodes + [n], order, |nodes|, n);
  }

  /** A new node outside the order disturbs nothing in it. */
  lemma NewNode(index: map<Slot, nat>, nodes: seq<Node>, nodes': seq<Node>, order: seq<nat>, i: nat, n: Node)
    requires Linked(nodes, order) && Indexed(index, nodes, order) && i !in order && i < |nodes'| && nodes'[i] == n
    requires |nodes| <= |nodes'| && forall j :: 0 <= j < |nodes| && j != i ==> nodes'[j] == nodes[j]
    requires n.slot !in index
    ensures Linked(nodes', order) && Listing(nodes', order) == Listing(nodes, order)
    ensures Indexed(index[n.slot := i], nodes', [i] + order)
  {
    forall q | 0 <= q < |order|
      ensures order[q] < |nodes'| && LinkedAt(nodes', order, q) && nodes'[order[q]] == nodes[order[q]]
    {
      assert LinkedAt(nodes, order, q) && order[q] in order;
    }
    forall j: nat | j in [i] + order ensures IndexedAt(index[n.slot := i], nodes', j) {
      if j != i {
        assert j in order && IndexedAt(index, nodes, j);
      }
    }
  }

  /** A node that leaves the order leaves the map and joins the free list. */
  lemma Freed(index: map<Slot, nat>, nodes: seq<Node>, order: seq<nat>, free: seq<nat>, p: nat)
    requires Linked(nodes, order) && Indexed(index, nodes, order) && Partition(|nodes|, order, free) && p < |order|
    ensures var i := order[p];
      i < |nodes| && Indexed(index - {nodes[i].slot}, nodes, Without(order, p)) &&
      Partition(|nodes|, Without(order, p), free + [i]) && i !in Without(order, p)
  {
    hide LinkedAt;
    var i, rest := order[p], Without(order, p);
    WithoutMembers(order, p);
    assert i in order && IndexedAt(index, nodes, i);
    forall j: nat | j in rest ensures IndexedAt(index - {nodes[i].slot}, nodes, j) {
      assert IndexedAt(index, nodes, j);
    }
  }

  lemma EmptiedFree(index: map<Slot, nat>, nodes: seq<Node>, order: seq<nat>, i: nat)
    requires Linked(nodes, order) && Indexed(index, nodes, order) && i < |nodes| && i !in order
    ensures var nodes' := nodes[i := nodes[i].(val := [])];
      Linked(nodes', order) && Listing(nodes', order) == Listing(nodes, order) && Indexed(index, nodes', order)
  {
    var nodes' := nodes[i := nodes[i].(val := [])];
    forall q | 0 <= q < |order| ensures LinkedAt(nodes', order, q) && nodes'[order[q]] == nodes[order[q]] {
      assert LinkedAt(nodes, order, q) && order[q] in order;
    }
    forall j: nat | j in order ensures IndexedAt(index, nodes', j) {
      assert IndexedAt(index, nodes, j);
    }
  }

  lemma HeadIsTail(nodes: seq<Node>, order: seq<nat>)
    requires Linked(nodes, order)
    ensures order != [] ==> (At(order, 0) == At(order, |order| - 1) <==> |order| == 1)
    ensures |Listing(nodes, order)| == |order|
  {
    hide LinkedAt;
  }

  lemma TrimOnce(l: seq<Cached>, cap: nat)
    requires Size(l) > cap && |l| >= 2
    ensures Trim(l, cap) == Trim(l[..|l| - 1], cap)
  {
  }

  lemma TrimDone(l: seq<Cached>, cap: nat)
    requires Size(l) <= cap || |l| <= 1
    ensures Trim(l, cap) == l
  {
  }
}
