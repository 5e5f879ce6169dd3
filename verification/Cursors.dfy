/** Snapshot cursors: the newest visible value of each key in a range, in either direction, and a
 * transaction's own writes laid over them.
 */
module Cursors {
  import opened Sequences
  import opened Types
  import opened Merging

  datatype Pair = Pair(key: Key, repr: Repr)

  /** What a reader at `snap` sees of `k` in a bag of versions. */
  ghost predicate Sees(ents: seq<Ver>, k: Key, snap: SeqNo, r: Repr) {
    exists v :: v in ents && Matches(v, k, snap) && v.op == Put(r) &&
      forall w :: w in ents && Matches(w, k, snap) ==> w.at <= v.at
  }

  predicate KeyAhead(reverse: bool, a: Key, b: Key) {
    if reverse then a > b else a < b
  }

  predicate KeysInOrder(reverse: bool, out: seq<Pair>) {
    forall i, j :: 0 <= i < j < |out| ==> KeyAhead(reverse, out[i].key, out[j].key)
  }

  predicate Below(k: Key, hi: Option<Key>) {
    hi.None? || k < hi.value
  }

  /** `out` lists exactly the visible pairs of the range, each once, in order. */
  ghost predicate Enumerates(reverse: bool, ents: seq<Ver>, snap: SeqNo, lo: Key, hi: Option<Key>, out: seq<Pair>) {
    KeysInOrder(reverse, out) &&
    forall p: Pair :: p in out <==> lo <= p.key && Below(p.key, hi) && Sees(ents, p.key, snap, p.repr)
  }

  // ---------------------------------------------------------------- forward

  /** What the forward cursor still emits, having last settled key `last`. */
  function Emits(rest: seq<Ver>, snap: SeqNo, hi: Option<Key>, last: Option<Key>): seq<Pair> {
    if rest == [] then []
    else
      var v := rest[0];
      if !Below(v.key, hi) then []
      else if last == Some(v.key) then Emits(rest[1..], snap, hi, last)
      else if v.at > snap then Emits(rest[1..], snap, hi, last)
      else if v.op.Delete? then Emits(rest[1..], snap, hi, Some(v.key))
      else [Pair(v.key, v.op.repr)] + Emits(rest[1..], snap, hi, Some(v.key))
  }

  class MvccForward {
    const it: MergeIterator
    const snap: SeqNo
    const hi: Option<Key>
    var last: Option<Key>
    var done: bool

    ghost predicate Valid()
      reads this, it
    {
      it.Valid() && !it.reverse
    }

    ghost function Todo(): seq<Pair>
      reads this, it
    {
      if done then [] else Emits(it.rest, snap, hi, last)
    }

    constructor (cursor: MergeIterator, s: SeqNo, upTo: Option<Key>)
      requires cursor.Valid() && !cursor.reverse
      ensures Valid() && it == cursor && Todo() == Emits(cursor.rest, s, upTo, None)
    {
      it, snap, hi, last, done := cursor, s, upTo, None, false;
    }

    method NextVisible() returns (p: Option<Pair>)
      requires Valid()
      modifies this, it
      ensures Valid()
      ensures p.None? <==> old(Todo()) == []
      ensures p.Some? ==> old(Todo()) == [p.value] + Todo()
      ensures p.None? ==> Todo() == []
    {
      if done { return None; }
      while true
        invariant Valid() && !done && Todo() == old(Todo())
        decreases |it.rest|
      {
        it.Front();
        if !it.HasEntry() { done := true; return None; }
        var v := it.Entry();
        if hi.Some? && v.key >= hi.value { done := true; return None; }
        if last == Some(v.key) {
          it.Next();
        } else if v.at > snap {
          it.Next();
        } else {
          last := Some(v.key);
          it.Next();
          if v.op.Put? { return Some(Pair(v.key, v.op.repr)); }
        }
      }
    }
  }

  /** Everything of `rest` comes after key `last`, or is one of its versions. */
  predicate NotBefore(reverse: bool, rest: seq<Ver>, last: Option<Key>) {
    last.Some? ==> forall v :: v in rest ==> v.key == last.value || KeyAhead(reverse, last.value, v.key)
  }

  /** The forward cursor settles each key with its newest version at or below the snapshot. */
  lemma {:induction false} EmitsVisible(rest: seq<Ver>, snap: SeqNo, hi: Option<Key>, last: Option<Key>)
    requires WeaklyInOrder(false, rest) && NotBefore(false, rest, last)
    ensures KeysInOrder(false, Emits(rest, snap, hi, last))
    ensures forall p :: p in Emits(rest, snap, hi, last) <==>
      Some(p.key) != last && Below(p.key, hi) && Sees(rest, p.key, snap, p.repr)
  {
    if rest != [] {
      var v, tail := rest[0], rest[1..];
      if !Below(v.key, hi) {
        forall p: Pair | Below(p.key, hi) ensures !Sees(rest, p.key, snap, p.repr) {
          NoneFrom(rest, p.key, hi);
        }
      } else {
        var last' := if last == Some(v.key) || v.at > snap then last else Some(v.key);
        EmitsVisible(tail, snap, hi, last');
        forall p: Pair ensures p in Emits(rest, snap, hi, last) <==>
          Some(p.key) != last && Below(p.key, hi) && Sees(rest, p.key, snap, p.repr)
        {
          SeesCons(rest, p.key, snap, p.repr);
        }
      }
    }
  }

  lemma NoneFrom(rest: seq<Ver>, k: Key, hi: Option<Key>)
    requires WeaklyInOrder(false, rest) && rest != [] && !Below(rest[0].key, hi) && Below(k, hi)
    ensures forall v :: v in rest ==> v.key != k
  {
  }

  /** The first version that matches is the newest. */
  lemma SeesCons(rest: seq<Ver>, k: Key, snap: SeqNo, r: Repr)
    requires WeaklyInOrder(false, rest) && rest != []
    ensures Sees(rest, k, snap, r) <==>
      if Matches(rest[0], k, snap) then rest[0].op == Put(r) else Sees(rest[1..], k, snap, r)
  {
    assert forall v :: v in rest <==> v == rest[0] || v in rest[1..];
    assert forall v :: v in rest[1..] ==> v == rest[0] || IkeyLess(rest[0], v);
    if Sees(rest[1..], k, snap, r) && !Matches(rest[0], k, snap) {
      var v :| v in rest[1..] && Matches(v, k, snap) && v.op == Put(r) &&
        forall w :: w in rest[1..] && Matches(w, k, snap) ==> w.at <= v.at;
      assert v in rest;
    }
  }

  // ---------------------------------------------------------------- reverse

  /** The candidate of the key being left: `Some(None)` is a tombstone. */
  function Emittable(group: Option<Key>, cand: Option<Option<Repr>>): seq<Pair> {
    if group.Some? && cand.Some? && cand.value.Some? then [Pair(group.value, cand.value.value)] else []
  }

  function AsCand(op: Op): Option<Repr> {
    if op.Put? then Some(op.repr) else None
  }

  /** What the reverse cursor still emits, in the middle of key `group`. */
  function EmitsBack(rest: seq<Ver>, snap: SeqNo, lo: Key, group: Option<Key>, cand: Option<Option<Repr>>): seq<Pair> {
    if rest == [] || rest[0].key < lo then Emittable(group, cand)
    else
      var v := rest[0];
      var same := group == Some(v.key);
      var cand' := if v.at <= snap then Some(AsCand(v.op)) else if same then cand else None;
      (if same then [] else Emittable(group, cand)) + EmitsBack(rest[1..], snap, lo, Some(v.key), cand')
  }

  lemma EmitsBackStep(rest: seq<Ver>, snap: SeqNo, lo: Key, group: Option<Key>, cand: Option<Option<Repr>>)
    ensures rest == [] || rest[0].key < lo ==> EmitsBack(rest, snap, lo, group, cand) == Emittable(group, cand)
    ensures rest != [] && rest[0].key >= lo && group != Some(rest[0].key) ==>
      EmitsBack(rest, snap, lo, group, cand) ==
        Emittable(group, cand) + EmitsBack(rest, snap, lo, Some(rest[0].key), None)
    ensures rest != [] && rest[0].key >= lo ==>
      forall c ::
        EmitsBack(rest, snap, lo, Some(rest[0].key), c) ==
        EmitsBack(rest[1..], snap, lo, Some(rest[0].key), if rest[0].at <= snap then Some(AsCand(rest[0].op)) else c)
  {
  }

  class MvccReverse {
    const it: MergeIterator
    const snap: SeqNo
    const lo: Key
    var group: Option<Key>
    var cand: Option<Option<Repr>>
    var done: bool

    ghost predicate Valid()
      reads this, it
    {
      it.Valid() && it.reverse
    }

    ghost function Todo(): seq<Pair>
      reads this, it
    {
      if done then [] else EmitsBack(it.rest, snap, lo, group, cand)
    }

    constructor (cursor: MergeIterator, s: SeqNo, from: Key)
      requires cursor.Valid() && cursor.reverse
      ensures Valid() && it == cursor && Todo() == EmitsBack(cursor.rest, s, from, None, None)
    {
      it, snap, lo, group, cand, done := cursor, s, from, None, None, false;
    }

    method TakeEmittable() returns (p: Option<Pair>)
      modifies this`group, this`cand
      ensures group.None? && (old(group).Some? ==> cand.None?)
      ensures Emittable(old(group), old(cand)) == if p.Some? then [p.value] else []
    {
      p := None;
      if group.Some? {
        if cand.Some? && cand.value.Some? { p := Some(Pair(group.value, cand.value.value)); }
        cand := None;
      }
      group := None;
    }

    method NextVisible() returns (p: Option<Pair>)
      requires Valid()
      modifies this, it
      ensures Valid()
      ensures p.None? <==> old(Todo()) == []
      ensures p.Some? ==> old(Todo()) == [p.value] + Todo()
      ensures p.None? ==> Todo() == []
    {
      hide EmitsBack;
      if done { return None; }
      while true
        invariant Valid() && !done && Todo() == old(Todo())
        decreases |it.rest|
      {
        it.Front();
        EmitsBackStep(it.rest, snap, lo, group, cand);
        if !it.HasEntry() {
          done := true;
          p := TakeEmittable();
          return;
        }
        var v := it.Entry();
        if v.key < lo {
          done := true;
          p := TakeEmittable();
          return;
        }
        if group != Some(v.key) {
          var emit := TakeEmittable();
          group, cand := Some(v.key), None;
          if emit.Some? { return emit; }
        }
        if v.at <= snap { cand := Some(AsCand(v.op)); }
        it.Next();
      }
    }
  }

  /** What the reverse cursor knows of `k`: versions still to come, or the candidate it holds. */
  ghost predicate SeesBack(rest: seq<Ver>, k: Key, snap: SeqNo, r: Repr, group: Option<Key>,
                           cand: Option<Option<Repr>>) {
    Sees(rest, k, snap, r) ||
    (Some(k) == group && cand == Some(Some(r)) && NoMatch(rest, k, snap))
  }

  predicate NoMatch(ents: seq<Ver>, k: Key, snap: SeqNo) {
    forall v :: v in ents ==> !Matches(v, k, snap)
  }

  /** The reverse cursor sees each key's versions oldest first and still settles it with the newest. */
  lemma {:induction false} EmitsBackVisible(rest: seq<Ver>, snap: SeqNo, lo: Key, group: Option<Key>,
                                            cand: Option<Option<Repr>>)
    requires WeaklyInOrder(true, rest) && NotBefore(true, rest, group) && (group.Some? ==> lo <= group.value)
    ensures KeysInOrder(true, EmitsBack(rest, snap, lo, group, cand))
    ensures forall p :: p in EmitsBack(rest, snap, lo, group, cand) <==>
      lo <= p.key && SeesBack(rest, p.key, snap, p.repr, group, cand)
  {
    if rest == [] || rest[0].key < lo {
      forall p: Pair | lo <= p.key ensures Sees(rest, p.key, snap, p.repr) ==> false {
        if rest != [] { NoneAbove(rest, lo, p.key); }
      }
      if rest != [] {
        forall p: Pair | lo <= p.key ensures forall v :: v in rest ==> v.key != p.key {
          NoneAbove(rest, lo, p.key);
        }
      }
    } else {
      var v := rest[0];
      var same := group == Some(v.key);
      var cand' := if v.at <= snap then Some(AsCand(v.op)) else if same then cand else None;
      assert v in rest;
      EmitsBackVisible(rest[1..], snap, lo, Some(v.key), cand');
      forall p: Pair ensures p in EmitsBack(rest, snap, lo, group, cand) <==>
        lo <= p.key && SeesBack(rest, p.key, snap, p.repr, group, cand)
      {
        SeesBackCons(rest, p.key, snap, p.repr, group, cand);
      }
    }
  }

  lemma NoneAbove(rest: seq<Ver>, lo: Key, k: Key)
    requires WeaklyInOrder(true, rest) && rest != [] && rest[0].key < lo <= k
    ensures forall v :: v in rest ==> v.key != k
  {
  }

  /** The oldest remaining version of a key counts unless a newer one follows. */
  lemma OldestCountsLast(rest: seq<Ver>, k: Key, snap: SeqNo, r: Repr)
    requires WeaklyInOrder(true, rest) && rest != []
    ensures Sees(rest, k, snap, r) <==>
      Sees(rest[1..], k, snap, r) || (Matches(rest[0], k, snap) && rest[0].op == Put(r) && NoMatch(rest[1..], k, snap))
    ensures NoMatch(rest, k, snap) <==> !Matches(rest[0], k, snap) && NoMatch(rest[1..], k, snap)
    ensures Sees(rest, k, snap, r) ==> !NoMatch(rest, k, snap)
    ensures Sees(rest[1..], k, snap, r) ==> !NoMatch(rest[1..], k, snap)
  {
    var v, tail := rest[0], rest[1..];
    assert forall w :: w in rest <==> w == v || w in tail;
    assert forall w :: w in tail ==> w == v || IkeyLess(w, v);
    if Sees(tail, k, snap, r) {
      var w :| w in tail && Matches(w, k, snap) && w.op == Put(r) &&
        forall u :: u in tail && Matches(u, k, snap) ==> u.at <= w.at;
      assert w in rest;
    }
    if Sees(rest, k, snap, r) {
      var w :| w in rest && Matches(w, k, snap) && w.op == Put(r) &&
        forall u :: u in rest && Matches(u, k, snap) ==> u.at <= w.at;
      assert w in tail ==> Sees(tail, k, snap, r);
    }
  }

  /** A key left behind has no version to come. */
  lemma LeftBehind(rest: seq<Ver>, k: Key, snap: SeqNo)
    requires WeaklyInOrder(true, rest) && rest != [] && rest[0].key < k
    ensures NoMatch(rest, k, snap)
  {
  }

  /** Taking in one more version, the cursor knows the same things. */
  lemma SeesBackCons(rest: seq<Ver>, k: Key, snap: SeqNo, r: Repr, group: Option<Key>, cand: Option<Option<Repr>>)
    requires WeaklyInOrder(true, rest) && rest != [] && NotBefore(true, rest, group)
    ensures var v := rest[0];
      var same := group == Some(v.key);
      var cand' := if v.at <= snap then Some(AsCand(v.op)) else if same then cand else None;
      SeesBack(rest, k, snap, r, group, cand) <==>
        SeesBack(rest[1..], k, snap, r, Some(v.key), cand') ||
        (!same && Some(k) == group && cand == Some(Some(r)))
  {
    OldestCountsLast(rest, k, snap, r);
    assert rest[0] in rest;
    if Some(k) == group && group != Some(rest[0].key) { LeftBehind(rest, k, snap); }
    hide Sees, NoMatch, NotBefore, WeaklyInOrder;
  }

  // ---------------------------------------------------------------- scans over sources

  /** The versions of all sources together. */
  function Bag(sources: Children): seq<Ver> {
    if sources == [] then [] else sources[0] + Bag(sources[1..])
  }

  lemma {:induction false} BagMember(sources: Children, v: Ver)
    ensures v in Bag(sources) <==> InChildren(sources, v)
  {
    if sources != [] {
      BagMember(sources[1..], v);
      if v in sources[0] { assert InChildren(sources, v); }
      if i :| 0 <= i < |sources[1..]| && v in sources[1..][i] { assert v in sources[i + 1]; }
      if i :| 0 < i < |sources| && v in sources[i] { assert v in sources[1..][i - 1]; }
    }
  }

  /** A source positioned at the first entry of key `lo` or later. */
  function AtOrAfter(s: seq<Ver>, lo: Key): seq<Ver> {
    if s == [] || s[0].key >= lo then s else AtOrAfter(s[1..], lo)
  }

  lemma {:induction false} AtOrAfterExact(s: seq<Ver>, lo: Key)
    requires Sorted(s)
    ensures InOrder(false, AtOrAfter(s, lo)) && forall v :: v in AtOrAfter(s, lo) <==> v in s && v.key >= lo
  {
    if s != [] && s[0].key < lo {
      AtOrAfterExact(s[1..], lo);
      assert forall v :: v in s <==> v == s[0] || v in s[1..];
    } else if s != [] {
      forall v | v in s ensures v.key >= lo {}
    }
  }

  /** A source walked back from the last entry below `hi`. */
  function Backwards(s: seq<Ver>, hi: Option<Key>): seq<Ver> {
    if s == [] || !Below(s[0].key, hi) then [] else Backwards(s[1..], hi) + [s[0]]
  }

  lemma {:induction false} BackwardsExact(s: seq<Ver>, hi: Option<Key>)
    requires Sorted(s)
    ensures InOrder(true, Backwards(s, hi)) && forall v :: v in Backwards(s, hi) <==> v in s && Below(v.key, hi)
  {
    if s != [] {
      if Below(s[0].key, hi) {
        BackwardsExact(s[1..], hi);
        assert forall v :: v in s <==> v == s[0] || v in s[1..];
        forall v | v in s[1..] ensures IkeyLess(s[0], v) {}
      } else {
        forall v | v in s ensures !Below(v.key, hi) {}
      }
    }
  }

  /** Each source is sorted, and they never disagree about a version. */
  ghost predicate WfSources(sources: Children) {
    WfChildren(false, sources) && forall i :: 0 <= i < |sources| ==> Sorted(sources[i])
  }

  /** `cs` are the sources, positioned: the versions that `keep` wants, in delivery order. */
  ghost predicate Positioned(reverse: bool, sources: Children, cs: Children, keep: Key -> bool) {
    |cs| == |sources| && WfChildren(reverse, cs) &&
    forall i :: 0 <= i < |cs| ==> forall v :: v in cs[i] <==> v in sources[i] && keep(v.key)
  }

  method SeekAll(sources: Children, lo: Key) returns (cs: Children)
    requires WfSources(sources)
    ensures Positioned(false, sources, cs, k => k >= lo)
  {
    cs := [];
    var i := 0;
    while i < |sources|
      invariant 0 <= i <= |sources| && |cs| == i
      invariant forall j :: 0 <= j < i ==>
        InOrder(false, cs[j]) && forall v :: v in cs[j] <==> v in sources[j] && v.key >= lo
    {
      AtOrAfterExact(sources[i], lo);
      cs := cs + [AtOrAfter(sources[i], lo)];
      i := i + 1;
    }
  }

  method SeekAllBack(sources: Children, hi: Option<Key>) returns (cs: Children)
    requires WfSources(sources)
    ensures Positioned(true, sources, cs, k => Below(k, hi))
  {
    cs := [];
    var i := 0;
    while i < |sources|
      invariant 0 <= i <= |sources| && |cs| == i
      invariant forall j :: 0 <= j < i ==>
        InOrder(true, cs[j]) && forall v :: v in cs[j] <==> v in sources[j] && Below(v.key, hi)
    {
      BackwardsExact(sources[i], hi);
      cs := cs + [Backwards(sources[i], hi)];
      i := i + 1;
    }
  }

  /** Dropping keys outside the range does not change what is seen of those inside. */
  lemma SeesPositioned(reverse: bool, sources: Children, cs: Children, keep: Key -> bool, merged: seq<Ver>,
                       k: Key, snap: SeqNo, r: Repr)
    requires Positioned(reverse, sources, cs, keep) && IsMerge(reverse, cs, merged)
    ensures Sees(merged, k, snap, r) <==> keep(k) && Sees(Bag(sources), k, snap, r)
  {
    MergeMembers(reverse, cs, merged);
    forall v ensures v in merged <==> v in Bag(sources) && keep(v.key) {
      BagMember(sources, v);
      if i :| 0 <= i < |sources| && v in sources[i] && keep(v.key) { assert v in cs[i]; }
      if i :| 0 <= i < |cs| && v in cs[i] { assert v in sources[i]; }
    }
  }

  /** What a cursor emits over positioned sources is the scan. */
  lemma EmittedIsScan(reverse: bool, sources: Children, cs: Children, merged: seq<Ver>, snap: SeqNo, lo: Key,
                      hi: Option<Key>, keep: Key -> bool, rest: Key -> bool, out: seq<Pair>)
    requires Positioned(reverse, sources, cs, keep) && IsMerge(reverse, cs, merged)
    requires forall k :: keep(k) && rest(k) <==> lo <= k && Below(k, hi)
    requires KeysInOrder(reverse, out) && forall p :: p in out <==> rest(p.key) && Sees(merged, p.key, snap, p.repr)
    ensures Enumerates(reverse, Bag(sources), snap, lo, hi, out)
  {
    hide Sees, Positioned, IsMerge;
    forall q: Pair ensures q in out <==> lo <= q.key && Below(q.key, hi) && Sees(Bag(sources), q.key, snap, q.repr) {
      SeesPositioned(reverse, sources, cs, keep, merged, q.key, snap, q.repr);
    }
  }

  method DrainForward(c: MvccForward) returns (out: seq<Pair>)
    requires c.Valid()
    modifies c, c.it
    ensures out == old(c.Todo())
  {
    hide Emits;
    out := [];
    var more := true;
    while more
      invariant c.Valid() && old(c.Todo()) == if more then out + c.Todo() else out
      decreases more, |c.Todo()|
    {
      var p := c.NextVisible();
      if p.None? {
        more := false;
      } else {
        Assoc(out, [p.value], c.Todo());
        out := out + [p.value];
      }
    }
  }

  method DrainBackward(c: MvccReverse) returns (out: seq<Pair>)
    requires c.Valid()
    modifies c, c.it
    ensures out == old(c.Todo())
  {
    hide EmitsBack;
    out := [];
    var more := true;
    while more
      invariant c.Valid() && old(c.Todo()) == if more then out + c.Todo() else out
      decreases more, |c.Todo()|
    {
      var p := c.NextVisible();
      if p.None? {
        more := false;
      } else {
        Assoc(out, [p.value], c.Todo());
        out := out + [p.value];
      }
    }
  }

  /** A forward scan lists exactly the range's visible pairs. */
  method ScanForward(sources: Children, snap: SeqNo, lo: Key, hi: Option<Key>) returns (out: seq<Pair>)
    requires WfSources(sources)
    ensures Enumerates(false, Bag(sources), snap, lo, hi, out)
  {
    hide Emits, Sees, Enumerates;
    var cs := SeekAll(sources, lo);
    var it := new MergeIterator(cs, false);
    ghost var merged := it.rest;
    EmitsVisible(merged, snap, hi, None);
    EmittedIsScan(false, sources, cs, merged, snap, lo, hi, k => k >= lo, k => Below(k, hi),
      Emits(merged, snap, hi, None));
    var c := new MvccForward(it, snap, hi);
    out := DrainForward(c);
  }

  /** A backward scan lists the same pairs, the other way round. */
  method ScanBackward(sources: Children, snap: SeqNo, lo: Key, hi: Option<Key>) returns (out: seq<Pair>)
    requires WfSources(sources)
    ensures Enumerates(true, Bag(sources), snap, lo, hi, out)
  {
    hide EmitsBack, Sees, Enumerates;
    var cs := SeekAllBack(sources, hi);
    var it := new MergeIterator(cs, true);
    ghost var merged := it.rest;
    EmitsBackVisible(merged, snap, lo, None, None);
    EmittedIsScan(true, sources, cs, merged, snap, lo, hi, k => Below(k, hi), k => lo <= k,
      EmitsBack(merged, snap, lo, None, None));
    var c := new MvccReverse(it, snap, lo);
    out := DrainBackward(c);
  }

  function Reversed<T>(s: seq<T>): (r: seq<T>)
    ensures |r| == |s| && forall i :: 0 <= i < |s| ==> r[i] == s[|s| - 1 - i]
  {
    if s == [] then [] else [s[|s| - 1]] + Reversed(s[..|s| - 1])
  }

  lemma {:induction false} OrderDetermines(reverse: bool, a: seq<Pair>, b: seq<Pair>)
    requires KeysInOrder(reverse, a) && KeysInOrder(reverse, b) && forall p :: p in a <==> p in b
    ensures a == b
  {
    if a != [] { assert a[0] in b; }
    if b != [] { assert b[0] in a; }
    if a != [] && b != [] {
      forall p ensures p in a[1..] <==> p in b[1..] {
        if p in a[1..] { assert p in b; }
        if p in b[1..] { assert p in a; }
      }
      OrderDetermines(reverse, a[1..], b[1..]);
      assert a == [a[0]] + a[1..] && b == [b[0]] + b[1..];
    }
  }

  /** The two directions are exact mirrors. */
  lemma DirectionsMirror(ents: seq<Ver>, snap: SeqNo, lo: Key, hi: Option<Key>, up: seq<Pair>, down: seq<Pair>)
    requires Enumerates(false, ents, snap, lo, hi, up) && Enumerates(true, ents, snap, lo, hi, down)
    ensures down == Reversed(up)
  {
    forall p ensures p in Reversed(up) <==> p in down {
      if i :| 0 <= i < |up| && up[i] == p { assert Reversed(up)[|up| - 1 - i] == p; }
    }
    OrderDetermines(true, down, Reversed(up));
  }

  // ---------------------------------------------------------------- a transaction's view

  datatype Over = Over(key: Key, value: Option<Repr>)

  predicate OversInOrder(reverse: bool, o: seq<Over>) {
    forall i, j :: 0 <= i < j < |o| ==> KeyAhead(reverse, o[i].key, o[j].key)
  }

  ghost predicate Overwrites(o: seq<Over>, k: Key) {
    exists w :: w in o && w.key == k
  }

  /** `out` is the base with the writes laid over it. */
  ghost predicate IsOverlaid(reverse: bool, base: seq<Pair>, o: seq<Over>, out: seq<Pair>) {
    KeysInOrder(reverse, out) &&
    forall p: Pair :: p in out <==> Over(p.key, Some(p.repr)) in o || (p in base && !Overwrites(o, p.key))
  }

  /** What the merge of the two still yields. */
  function Overlaid(reverse: bool, base: seq<Pair>, o: seq<Over>): seq<Pair>
    decreases |base| + |o|
  {
    if o == [] then base
    else
      var takeOver := base == [] || o[0].key == base[0].key || KeyAhead(reverse, o[0].key, base[0].key);
      if !takeOver then [base[0]] + Overlaid(reverse, base[1..], o)
      else
        var base' := if base != [] && base[0].key == o[0].key then base[1..] else base;
        if o[0].value.Some? then [Pair(o[0].key, o[0].value.value)] + Overlaid(reverse, base', o[1..])
        else Overlaid(reverse, base', o[1..])
  }

  class TxnIter {
    var base: seq<Pair>
    var peek: Option<Pair>
    var overlay: seq<Over>
    const reverse: bool
    var done: bool

    function Left(): seq<Pair>
      reads this
    {
      (if peek.Some? then [peek.value] else []) + base
    }

    function Todo(): seq<Pair>
      reads this
    {
      if done then [] else Overlaid(reverse, Left(), overlay)
    }

    constructor (snapshot: seq<Pair>, writes: seq<Over>, rev: bool)
      ensures Todo() == Overlaid(rev, snapshot, writes) && reverse == rev
    {
      base, peek, overlay, reverse, done := snapshot, None, writes, rev, false;
      new;
      assert Left() == snapshot;
    }

    /** Keep one base pair in hand. */
    method FillBase()
      modifies this`base, this`peek
      ensures Left() == old(Left()) && (peek.None? ==> base == [])
    {
      if peek.None? && base != [] {
        peek, base := Some(base[0]), base[1..];
      }
    }

    method Next() returns (p: Option<Pair>)
      modifies this`base, this`peek, this`overlay, this`done
      ensures p.None? <==> old(Todo()) == []
      ensures p.Some? ==> old(Todo()) == [p.value] + Todo()
      ensures p.None? ==> Todo() == []
    {
      if done { return None; }
      while true
        invariant !done && Todo() == old(Todo())
        decreases |overlay|
      {
        FillBase();
        ghost var left, o := Left(), overlay;
        if overlay == [] && peek.None? { done := true; return None; }
        if overlay != [] &&
          (peek.None? || overlay[0].key == peek.value.key || KeyAhead(reverse, overlay[0].key, peek.value.key)) {
          var w := overlay[0];
          overlay := overlay[1..];
          if peek.Some? && peek.value.key == w.key {
            peek := None;
            assert Left() == base == left[1..];
          }
          OverlaidTakesOver(reverse, left, o);
          if w.value.Some? { return Some(Pair(w.key, w.value.value)); }
        } else {
          p, peek := peek, None;
          assert Left() == base == left[1..];
          OverlaidTakesBase(reverse, left, o);
          return;
        }
      }
    }
  }

  lemma OverlaidTakesOver(reverse: bool, base: seq<Pair>, o: seq<Over>)
    requires o != [] && (base == [] || o[0].key == base[0].key || KeyAhead(reverse, o[0].key, base[0].key))
    ensures var base' := if base != [] && base[0].key == o[0].key then base[1..] else base;
      Overlaid(reverse, base, o) ==
        if o[0].value.Some? then [Pair(o[0].key, o[0].value.value)] + Overlaid(reverse, base', o[1..])
        else Overlaid(reverse, base', o[1..])
  {
  }

  lemma OverlaidTakesBase(reverse: bool, base: seq<Pair>, o: seq<Over>)
    requires base != [] && (o != [] ==> o[0].key != base[0].key && !KeyAhead(reverse, o[0].key, base[0].key))
    ensures Overlaid(reverse, base, o) == [base[0]] + Overlaid(reverse, base[1..], o)
  {
  }

  /** The merge is the snapshot overridden by the write set, in both directions. */
  lemma {:induction false} OverlaidExact(reverse: bool, base: seq<Pair>, o: seq<Over>)
    requires KeysInOrder(reverse, base) && OversInOrder(reverse, o)
    ensures IsOverlaid(reverse, base, o, Overlaid(reverse, base, o))
    decreases |base| + |o|
  {
    if o != [] {
      assert forall w :: w in o <==> w == o[0] || w in o[1..];
      assert forall p :: p in base <==> (base != [] && p == base[0]) || (base != [] && p in base[1..]);
      var takeOver := base == [] || o[0].key == base[0].key || KeyAhead(reverse, o[0].key, base[0].key);
      if !takeOver {
        OverlaidExact(reverse, base[1..], o);
      } else {
        var base' := if base != [] && base[0].key == o[0].key then base[1..] else base;
        OverlaidExact(reverse, base', o[1..]);
        OverlaidHead(reverse, base, base', o, Overlaid(reverse, base', o[1..]));
      }
    }
  }

  /** One write, ahead of everything else: it decides its own key and no other. */
  lemma OverlaidHead(reverse: bool, base: seq<Pair>, base': seq<Pair>, o: seq<Over>, tail: seq<Pair>)
    requires KeysInOrder(reverse, base) && OversInOrder(reverse, o) && o != []
    requires base == [] || o[0].key == base[0].key || KeyAhead(reverse, o[0].key, base[0].key)
    requires base' == if base != [] && base[0].key == o[0].key then base[1..] else base
    requires IsOverlaid(reverse, base', o[1..], tail)
    ensures IsOverlaid(reverse, base, o, if o[0].value.Some? then [Pair(o[0].key, o[0].value.value)] + tail else tail)
  {
    hide Overwrites, Overlaid;
    var w, rest := o[0], o[1..];
    var out := if w.value.Some? then [Pair(w.key, w.value.value)] + tail else tail;
    OverlaidParts(reverse, base, base', o);
    forall p: Pair ensures p in out <==> Over(p.key, Some(p.repr)) in o || (p in base && !Overwrites(o, p.key)) {
      OverwritesCons(o, p.key);
    }
    forall p | p in tail ensures KeyAhead(reverse, w.key, p.key) {}
  }

  /** The first write's key is ahead of all that the merge goes on with. */
  lemma OverlaidParts(reverse: bool, base: seq<Pair>, base': seq<Pair>, o: seq<Over>)
    requires KeysInOrder(reverse, base) && OversInOrder(reverse, o) && o != []
    requires base == [] || o[0].key == base[0].key || KeyAhead(reverse, o[0].key, base[0].key)
    requires base' == if base != [] && base[0].key == o[0].key then base[1..] else base
    ensures forall x :: x in o <==> x == o[0] || x in o[1..]
    ensures forall x :: x in o[1..] ==> KeyAhead(reverse, o[0].key, x.key)
    ensures forall p :: p in base' ==> p in base && KeyAhead(reverse, o[0].key, p.key)
    ensures forall p :: p in base && p !in base' ==> p.key == o[0].key
  {
  }

  lemma OverwritesCons(o: seq<Over>, k: Key)
    requires o != []
    ensures Overwrites(o, k) <==> o[0].key == k || Overwrites(o[1..], k)
  {
    if Overwrites(o, k) {
      var w :| w in o && w.key == k;
      assert w == o[0] || w in o[1..];
    }
    if o[0].key == k { assert o[0] in o; }
    if Overwrites(o[1..], k) {
      var w :| w in o[1..] && w.key == k;
      assert w in o;
    }
  }
}
