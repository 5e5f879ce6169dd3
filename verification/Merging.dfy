/** The k-way merge by linear scan over its children, in either direction. */
module Merging {
  import opened Types

  /** The order a merge delivers in: internal-key order, or its reverse. */
  predicate Ahead(reverse: bool, a: Ver, b: Ver) {
    if reverse then IkeyLess(b, a) else IkeyLess(a, b)
  }

  predicate InOrder(reverse: bool, s: seq<Ver>) {
    forall i, j :: 0 <= i < j < |s| ==> Ahead(reverse, s[i], s[j])
  }

  /** In order, but the same version may come several times, from different children. */
  predicate WeaklyInOrder(reverse: bool, s: seq<Ver>) {
    forall i, j :: 0 <= i < j < |s| ==> s[i] == s[j] || Ahead(reverse, s[i], s[j])
  }

  /** What is left of each child, in delivery order. */
  type Children = seq<seq<Ver>>

  /** Children may share versions, but never disagree about one. */
  predicate WfChildren(reverse: bool, cs: Children) {
    (forall i :: 0 <= i < |cs| ==> InOrder(reverse, cs[i])) &&
    (forall i, j, v, w :: 0 <= i < j < |cs| && v in cs[i] && w in cs[j] && v.key == w.key && v.at == w.at ==> v == w)
  }

  /** No version is in two children. */
  predicate Disjoint(cs: Children) {
    forall i, j, v, w :: 0 <= i < j < |cs| && v in cs[i] && w in cs[j] ==> v.key != w.key || v.at != w.at
  }

  predicate InChildren(cs: Children, v: Ver) {
    exists i :: 0 <= i < |cs| && v in cs[i]
  }

  /** `b` names a valid child whose head no other valid child's head is ahead of. */
  predicate IsBest(reverse: bool, cs: Children, b: Option<nat>, n: nat)
    requires n <= |cs|
  {
    match b
    case None => forall i :: 0 <= i < n ==> cs[i] == []
    case Some(x) =>
      x < n && cs[x] != [] &&
      forall i :: 0 <= i < n && cs[i] != [] ==> cs[i][0] == cs[x][0] || Ahead(reverse, cs[x][0], cs[i][0])
  }

  function Size(cs: Children): nat {
    if cs == [] then 0 else |cs[0]| + Size(cs[1..])
  }

  lemma {:induction false} SizeAdvance(cs: Children, b: nat)
    requires b < |cs| && cs[b] != []
    ensures Size(cs[b := cs[b][1..]]) == Size(cs) - 1
  {
    if b > 0 {
      SizeAdvance(cs[1..], b - 1);
      assert cs[b := cs[b][1..]][1..] == cs[1..][b - 1 := cs[1..][b - 1][1..]];
    }
  }

  lemma {:induction false} SizeZero(cs: Children)
    ensures Size(cs) == 0 <==> forall i :: 0 <= i < |cs| ==> cs[i] == []
  {
    if cs != [] {
      SizeZero(cs[1..]);
      assert forall i :: 0 < i < |cs| ==> cs[i] == cs[1..][i - 1];
    }
  }

  /** All entries of all children. */
  ghost function Heap(cs: Children): multiset<Ver> {
    if cs == [] then multiset{} else multiset(cs[0]) + Heap(cs[1..])
  }

  /** `out` is the full merge of `cs`: in delivery order, and with exactly the children's entries. */
  ghost predicate IsMerge(reverse: bool, cs: Children, out: seq<Ver>) {
    WeaklyInOrder(reverse, out) && multiset(out) == Heap(cs)
  }

  lemma {:induction false} HeapMember(cs: Children, v: Ver)
    ensures v in Heap(cs) <==> InChildren(cs, v)
  {
    if cs != [] {
      HeapMember(cs[1..], v);
      if i :| 0 <= i < |cs[1..]| && v in cs[1..][i] { assert v in cs[i + 1]; }
      if i :| 0 < i < |cs| && v in cs[i] { assert v in cs[1..][i - 1]; }
    }
  }

  lemma {:induction false} HeapAdvance(cs: Children, b: nat)
    requires b < |cs| && cs[b] != []
    ensures Heap(cs) == Heap(cs[b := cs[b][1..]]) + multiset{cs[b][0]}
  {
    if b == 0 {
      assert cs[0] == [cs[0][0]] + cs[0][1..];
    } else {
      HeapAdvance(cs[1..], b - 1);
      assert cs[b := cs[b][1..]][1..] == cs[1..][b - 1 := cs[1..][b - 1][1..]];
    }
  }

  lemma {:induction false} HeapEmpty(cs: Children)
    requires forall i :: 0 <= i < |cs| ==> cs[i] == []
    ensures Heap(cs) == multiset{}
  {
    if cs != [] { HeapEmpty(cs[1..]); }
  }

  /** A merge has the children's members, and is strictly in order when they share none. */
  lemma MergeMembers(reverse: bool, cs: Children, out: seq<Ver>)
    requires IsMerge(reverse, cs, out)
    ensures forall v :: v in out <==> InChildren(cs, v)
  {
    forall v ensures v in out <==> InChildren(cs, v) {
      HeapMember(cs, v);
      assert v in out <==> v in multiset(out);
    }
  }

  lemma {:induction false} HeapOnce(reverse: bool, cs: Children, v: Ver)
    requires WfChildren(reverse, cs) && Disjoint(cs)
    ensures Heap(cs)[v] <= 1
  {
    if cs != [] {
      assert forall i :: 0 <= i < |cs[1..]| ==> cs[1..][i] == cs[i + 1];
      HeapOnce(reverse, cs[1..], v);
      OnceInOrder(reverse, cs[0], v);
      HeapMember(cs[1..], v);
      if v in Heap(cs[1..]) {
        var j :| 0 <= j < |cs[1..]| && v in cs[1..][j];
        assert v in cs[j + 1] && v !in cs[0];
      }
    }
  }

  lemma {:induction false} OnceInOrder(reverse: bool, s: seq<Ver>, v: Ver)
    requires InOrder(reverse, s)
    ensures multiset(s)[v] <= 1
  {
    if s != [] {
      OnceInOrder(reverse, s[1..], v);
      assert s == [s[0]] + s[1..];
      forall j | 0 < j < |s| ensures s[j] != s[0] { assert Ahead(reverse, s[0], s[j]); }
    }
  }

  lemma StrictMerge(reverse: bool, cs: Children, out: seq<Ver>)
    requires WfChildren(reverse, cs) && Disjoint(cs) && IsMerge(reverse, cs, out)
    ensures InOrder(reverse, out)
  {
    forall i, j | 0 <= i < j < |out| ensures out[i] != out[j] {
      HeapOnce(reverse, cs, out[i]);
      TwiceInSeq(out, i, j);
    }
  }

  lemma TwiceInSeq(s: seq<Ver>, i: nat, j: nat)
    requires i < j < |s| && multiset(s)[s[i]] <= 1
    ensures s[i] != s[j]
  {
    assert s == s[..i] + [s[i]] + s[i + 1..j] + [s[j]] + s[j + 1..];
  }

  /** The best head is the first of all entries. */
  lemma BestIsFirst(reverse: bool, cs: Children, b: nat, v: Ver)
    requires WfChildren(reverse, cs) && IsBest(reverse, cs, Some(b), |cs|) && InChildren(cs, v)
    ensures v == cs[b][0] || Ahead(reverse, cs[b][0], v)
  {
    var i :| 0 <= i < |cs| && v in cs[i];
    var j :| 0 <= j < |cs[i]| && cs[i][j] == v;
    if j > 0 { assert Ahead(reverse, cs[i][0], v); }
  }

  /** Advancing a child leaves members of the children. */
  lemma AdvanceMember(cs: Children, b: nat, v: Ver)
    requires b < |cs| && cs[b] != [] && InChildren(cs[b := cs[b][1..]], v)
    ensures InChildren(cs, v)
  {
    var i :| 0 <= i < |cs| && v in cs[b := cs[b][1..]][i];
    assert v in cs[i];
  }

  lemma Cons(reverse: bool, x: Ver, rest: seq<Ver>)
    ensures multiset([x] + rest) == multiset(rest) + multiset{x}
    ensures WeaklyInOrder(reverse, rest) && (forall v :: v in rest ==> v == x || Ahead(reverse, x, v)) ==>
      WeaklyInOrder(reverse, [x] + rest)
    ensures WeaklyInOrder(reverse, [x] + rest) ==> WeaklyInOrder(reverse, rest)
  {
    if WeaklyInOrder(reverse, [x] + rest) {
      forall i, j | 0 <= i < j < |rest| ensures rest[i] == rest[j] || Ahead(reverse, rest[i], rest[j]) {
        assert ([x] + rest)[i + 1] == rest[i] && ([x] + rest)[j + 1] == rest[j];
      }
    }
  }

  lemma HeadIsAhead(reverse: bool, cs: Children, b: nat, rest: seq<Ver>)
    requires WfChildren(reverse, cs) && IsBest(reverse, cs, Some(b), |cs|)
    requires IsMerge(reverse, cs[b := cs[b][1..]], rest)
    ensures forall v :: v in rest ==> v == cs[b][0] || Ahead(reverse, cs[b][0], v)
  {
    MergeMembers(reverse, cs[b := cs[b][1..]], rest);
    forall v | v in rest ensures v == cs[b][0] || Ahead(reverse, cs[b][0], v) {
      AdvanceMember(cs, b, v);
      BestIsFirst(reverse, cs, b, v);
    }
  }

  /** Taking the best head off its child takes the first entry off the merge. */
  lemma MergeAdvance(reverse: bool, cs: Children, b: nat, rest: seq<Ver>)
    requires WfChildren(reverse, cs) && IsBest(reverse, cs, Some(b), |cs|)
    requires IsMerge(reverse, cs[b := cs[b][1..]], rest)
    ensures IsMerge(reverse, cs, [cs[b][0]] + rest)
  {
    HeapAdvance(cs, b);
    HeadIsAhead(reverse, cs, b, rest);
    Cons(reverse, cs[b][0], rest);
    hide Heap, WfChildren, Ahead, WeaklyInOrder;
  }

  /** And conversely. */
  lemma MergeTail(reverse: bool, cs: Children, b: nat, out: seq<Ver>)
    requires b < |cs| && cs[b] != [] && IsMerge(reverse, cs, out) && out != [] && out[0] == cs[b][0]
    ensures IsMerge(reverse, cs[b := cs[b][1..]], out[1..])
  {
    HeapAdvance(cs, b);
    Cons(reverse, out[0], out[1..]);
    hide Heap, WeaklyInOrder;
    assert [out[0]] + out[1..] == out;
    Cancel(multiset(out[1..]), Heap(cs[b := cs[b][1..]]), out[0]);
  }

  lemma Cancel(a: multiset<Ver>, b: multiset<Ver>, v: Ver)
    requires a + multiset{v} == b + multiset{v}
    ensures a == b
  {
    assert a == (a + multiset{v}) - multiset{v} && b == (b + multiset{v}) - multiset{v};
  }

  lemma WfAdvance(reverse: bool, cs: Children, b: nat)
    requires WfChildren(reverse, cs) && b < |cs| && cs[b] != []
    ensures WfChildren(reverse, cs[b := cs[b][1..]])
  {
  }

  /** The merge of well-formed children exists. */
  lemma {:induction false} MergeExists(reverse: bool, cs: Children) returns (out: seq<Ver>)
    requires WfChildren(reverse, cs)
    ensures IsMerge(reverse, cs, out) && |out| == Size(cs)
    decreases Size(cs)
  {
    SizeZero(cs);
    if Size(cs) == 0 {
      HeapEmpty(cs);
      out := [];
    } else {
      var b := BestExists(reverse, cs, |cs|);
      SizeAdvance(cs, b.value);
      WfAdvance(reverse, cs, b.value);
      var rest := MergeExists(reverse, cs[b.value := cs[b.value][1..]]);
      MergeAdvance(reverse, cs, b.value, rest);
      out := [cs[b.value][0]] + rest;
    }
  }

  lemma {:induction false} BestExists(reverse: bool, cs: Children, n: nat) returns (b: Option<nat>)
    requires WfChildren(reverse, cs) && n <= |cs|
    ensures IsBest(reverse, cs, b, n)
  {
    if n == 0 { return None; }
    b := BestExists(reverse, cs, n - 1);
    b := Better(reverse, cs, b, n - 1);
  }

  /** One turn of the picker's scan. */
  lemma Better(reverse: bool, cs: Children, b: Option<nat>, i: nat) returns (b': Option<nat>)
    requires WfChildren(reverse, cs) && i < |cs| && IsBest(reverse, cs, b, i)
    ensures IsBest(reverse, cs, b', i + 1)
    ensures b' ==
      if cs[i] == [] then b
      else if b.None? || Ahead(reverse, cs[i][0], cs[b.value][0]) then Some(i) else b
  {
    b' := if cs[i] == [] then b
          else if b.None? || Ahead(reverse, cs[i][0], cs[b.value][0]) then Some(i) else b;
    if b.Some? && cs[i] != [] {
      assert cs[b.value][0] in cs[b.value] && cs[i][0] in cs[i];
    }
  }

  /** The merge cursor; `rest` is what it has still to deliver. */
  class MergeIterator {
    var children: Children
    var cur: Option<nat>
    const reverse: bool
    ghost var rest: seq<Ver>

    ghost predicate Valid()
      reads this
    {
      WfChildren(reverse, children) && IsBest(reverse, children, cur, |children|) &&
      IsMerge(reverse, children, rest)
    }

    /** Positioned children in, first entry picked. */
    constructor (cs: Children, rev: bool)
      requires WfChildren(rev, cs)
      ensures Valid() && reverse == rev && IsMerge(rev, cs, rest)
    {
      children, reverse, cur := cs, rev, None;
      new;
      rest := MergeExists(rev, cs);
      Pick();
    }

    /** Scan the children for the best head; of equal ones the first. */
    method Pick()
      requires WfChildren(reverse, children) && IsMerge(reverse, children, rest)
      modifies this`cur
      ensures Valid()
    {
      var best: Option<nat> := None;
      var i := 0;
      while i < |children|
        invariant 0 <= i <= |children|
        invariant IsBest(reverse, children, best, i)
      {
        ghost var next := Better(reverse, children, best, i);
        if children[i] != [] {
          if best.None? || Ahead(reverse, children[i][0], children[best.value][0]) {
            best := Some(i);
          }
        }
        i := i + 1;
      }
      cur := best;
    }

    predicate HasEntry()
      reads this
    {
      cur.Some?
    }

    /** The current entry is the first of what remains; an exhausted cursor has nothing left. */
    lemma Front()
      requires Valid()
      ensures HasEntry() <==> rest != []
      ensures HasEntry() ==> children[cur.value] != [] && children[cur.value][0] == rest[0]
    {
      MergeMembers(reverse, children, rest);
      if rest != [] {
        assert rest[0] in rest;
        if HasEntry() { BestIsFirst(reverse, children, cur.value, rest[0]); }
      }
      if HasEntry() {
        var head := children[cur.value][0];
        assert head in children[cur.value];
        assert InChildren(children, head);
        var j :| 0 <= j < |rest| && rest[j] == head;
      }
    }

    function Entry(): Ver
      reads this
      requires Valid() && HasEntry()
    {
      children[cur.value][0]
    }

    method Next()
      requires Valid() && HasEntry()
      modifies this
      ensures Valid()
      ensures old(rest) != [] && rest == old(rest)[1..]
    {
      Front();
      var i := cur.value;
      WfAdvance(reverse, children, i);
      MergeTail(reverse, children, i, rest);
      children := children[i := children[i][1..]];
      rest := rest[1..];
      Pick();
    }
  }
}
