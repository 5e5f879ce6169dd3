/** The abstract history every component refines: the committed ops, in commit order.
 *
 * Seqnos are handed out without gaps from 1, so op number n of the history is exactly the op that
 * committed at seqno n, and the visible seqno is the length of the history.
 */
module History {
  import opened Types

  datatype Write = Write(key: Key, op: Op)

  type Log = seq<Write>

  /** The version that seqno `n` wrote. */
  function VerAt(h: Log, n: SeqNo): Ver
    requires 1 <= n <= |h|
  {
    Ver(h[n - 1].key, n, h[n - 1].op)
  }

  /** `v` is really a version the history wrote. */
  predicate Wrote(h: Log, v: Ver) {
    1 <= v.at <= |h| && v == VerAt(h, v.at)
  }

  predicate WroteKey(h: Log, k: Key, n: SeqNo) {
    1 <= n <= |h| && h[n - 1].key == k
  }

  /** The newest seqno at or below `s` that wrote `k`; 0 when there is none. */
  function Newest(h: Log, k: Key, s: SeqNo): (n: SeqNo)
    requires s <= |h|
    ensures n <= s
    ensures n > 0 ==> WroteKey(h, k, n)
    ensures forall m :: n < m <= s ==> !WroteKey(h, k, m)
  {
    if s == 0 then 0 else if h[s - 1].key == k then s else Newest(h, k, s - 1)
  }

  /** The state of key `k` at seqno `s`: the value a reader at `s` must see. */
  function ValueAt(h: Log, k: Key, s: SeqNo): Option<Repr>
    requires s <= |h|
  {
    var n := Newest(h, k, s);
    if n == 0 || h[n - 1].op.Delete? then None else Some(h[n - 1].op.repr)
  }

  /** A lookup that may answer with a tombstone, read as a value. */
  function Visible(r: Option<Ver>): Option<Repr> {
    if r.None? || r.value.op.Delete? then None else Some(r.value.op.repr)
  }

  lemma NewestIs(h: Log, k: Key, s: SeqNo, n: SeqNo)
    requires s <= |h| && n <= s
    requires n > 0 ==> WroteKey(h, k, n)
    requires forall m :: n < m <= s ==> !WroteKey(h, k, m)
    ensures Newest(h, k, s) == n
  {
    var x := Newest(h, k, s);
    var both := WroteKey(h, k, n) && WroteKey(h, k, x);
  }

  /** What a history says at or below `s` depends on its first `s` ops only. */
  lemma NewestPrefix(h: Log, h': Log, k: Key, s: SeqNo)
    requires s <= |h| && s <= |h'|
    requires h[..s] == h'[..s]
    ensures Newest(h, k, s) == Newest(h', k, s)
    ensures ValueAt(h, k, s) == ValueAt(h', k, s)
  {
    var n := Newest(h, k, s);
    assert forall i :: 0 <= i < s ==> h[i] == h[..s][i] && h'[i] == h'[..s][i];
    forall m | n < m <= s ensures !WroteKey(h', k, m) {
      assert !WroteKey(h, k, m);
    }
    NewestIs(h', k, s, n);
  }
}
