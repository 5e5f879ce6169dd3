/** Byte-string keys and their order.
 *
 * The engine compares user keys as byte strings, lexicographically.  The modules that use keys
 * only through that comparison work on real numbers instead; this module proves that nothing is
 * lost: `Rank` maps byte strings to reals one-to-one and in order, so every statement proved for
 * all real keys holds for all byte strings.
 */
module Keys {

  newtype Byte = x: int | 0 <= x < 256

  type Bytes = seq<Byte>

  /** Lexicographic order, a proper prefix first (Rust's `Ord` on byte slices). */
  predicate Before(a: Bytes, b: Bytes) {
    if b == [] then false
    else if a == [] then true
    else if a[0] != b[0] then a[0] < b[0]
    else Before(a[1..], b[1..])
  }

  /** The rank of a byte string: its bytes, each plus one, as digits after the point in base 257. */
  function Rank(a: Bytes): (r: real)
    ensures 0.0 <= r < 1.0
  {
    if a == [] then 0.0 else ((a[0] as int + 1) as real + Rank(a[1..])) / 257.0
  }

  /** The rank preserves and reflects the order, and tells different keys apart. */
  lemma {:induction false} RankEmbedsOrder(a: Bytes, b: Bytes)
    ensures Before(a, b) <==> Rank(a) < Rank(b)
    ensures a == b <==> Rank(a) == Rank(b)
    decreases |a|
  {
    if a != [] && b != [] {
      RankEmbedsOrder(a[1..], b[1..]);
      assert a == [a[0]] + a[1..] && b == [b[0]] + b[1..];
      RankSplits(a);
      RankSplits(b);
    }
  }

  /** The first byte is the integer part of the scaled rank. */
  lemma RankSplits(a: Bytes)
    requires a != []
    ensures Rank(a) * 257.0 == (a[0] as int + 1) as real + Rank(a[1..])
    ensures (a[0] as int + 1) as real <= Rank(a) * 257.0 < (a[0] as int + 2) as real
    ensures 0.0 < Rank(a)
  {
  }
}
