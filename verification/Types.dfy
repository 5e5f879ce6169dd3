/** Versions, value representations and the order of internal keys. */
module Types {

  /** A user key, known only through its order (module Keys says why reals lose nothing). */
  type Key = real

  type SeqNo = nat

  function Min(a: nat, b: nat): nat {
    if a < b then a else b
  }

  function Max(a: nat, b: nat): nat {
    if a < b then b else a
  }

  datatype Option<+T> = None | Some(value: T)

  /** The location of one whole record in a value-log file. */
  datatype ValuePtr = ValuePtr(file: nat, offset: nat, len: nat)

  /** What the tree stores for a Put: the value, or where the value log keeps it. */
  datatype Repr = Inline(value: seq<nat>) | Pointer(ptr: ValuePtr)

  datatype Op = Put(repr: Repr) | Delete

  /** One internal entry: a user key, the seqno that wrote it, and what was written. */
  datatype Ver = Ver(key: Key, at: SeqNo, op: Op)

  /** The internal-key comparator: user key ascending, newest first within one key. */
  predicate IkeyLess(a: Ver, b: Ver) {
    a.key < b.key || (a.key == b.key && a.at > b.at)
  }

  predicate Sorted(s: seq<Ver>) {
    forall i, j :: 0 <= i < j < |s| ==> IkeyLess(s[i], s[j])
  }

  /** `v` is a version of `k` at or below `s`. */
  predicate Matches(v: Ver, k: Key, s: SeqNo) {
    v.key == k && v.at <= s
  }

  /** The newest version of `k` at or below `s` in a sorted sequence: the first one that matches. */
  function Seek(ents: seq<Ver>, k: Key, s: SeqNo): (r: Option<Ver>)
    requires Sorted(ents)
    ensures r.Some? ==> r.value in ents && Matches(r.value, k, s)
    ensures r.Some? ==> forall v :: v in ents && Matches(v, k, s) ==> v.at <= r.value.at
    ensures r.None? ==> forall v :: v in ents ==> !Matches(v, k, s)
  {
    if ents == [] then None
    else if Matches(ents[0], k, s) then Some(ents[0])
    else
      assert forall v :: v in ents ==> v == ents[0] || v in ents[1..];
      Seek(ents[1..], k, s)
  }

  lemma SortedConcat(a: seq<Ver>, b: seq<Ver>)
    requires Sorted(a) && Sorted(b)
    requires forall v, w :: v in a && w in b ==> IkeyLess(v, w)
    ensures Sorted(a + b)
  {
    forall i, j | 0 <= i < j < |a + b| ensures IkeyLess((a + b)[i], (a + b)[j]) {
      if i < |a| <= j { assert a[i] in a && b[j - |a|] in b; }
    }
  }
}
