/** The per-table bloom filter: double hashing over a byte bitmap whose first byte is the probe count.
 *
 * Compaction drops a tombstone when every older run's filter says "no", so a filter must never say
 * "no" for a key of its table (the premise on `Table.filter` in module Runs).
 */
module Bloom {

  const U64 := 0x1_0000_0000_0000_0000

  type Hash = n: int | 0 <= n < 0x1_0000_0000_0000_0000

  /** The stride between probes: the hash's high bits, made odd. */
  function Stride(h: Hash): Hash {
    var d := h / 0x2_0000_0000;
    if d % 2 == 0 then d + 1 else d
  }

  /** Where the i-th probe stands, with 64-bit wrap-around. */
  function Probe(h: Hash, i: nat): Hash {
    if i == 0 then h else (Probe(h, i - 1) + Stride(h)) % U64
  }

  function Bit(h: Hash, i: nat, nbits: nat): (b: nat)
    requires nbits > 0
    ensures b < nbits
  {
    Probe(h, i) % nbits
  }

  /** The bits the first `k` probes of `h` touch. */
  function BitsOf(h: Hash, k: nat, nbits: nat): set<nat>
    requires nbits > 0
  {
    set i | 0 <= i < k :: Bit(h, i, nbits)
  }

  function AllBits(hashes: seq<Hash>, k: nat, nbits: nat): set<nat>
    requires nbits > 0
  {
    if hashes == [] then {} else AllBits(hashes[..|hashes| - 1], k, nbits) + BitsOf(hashes[|hashes| - 1], k, nbits)
  }

  /** Bit `b` of a serialized filter's bitmap. */
  predicate IsSet(filter: seq<bv8>, b: nat)
    requires b < 8 * (|filter| - 1)
  {
    filter[1 + b / 8] & Mask(b % 8) != 0
  }

  function Mask(i: nat): (m: bv8)
    requires i < 8
    ensures m != 0
  {
    1 << i
  }

  function Count(b: bv8): (k: nat)
    ensures k < 256
  {
    b as nat
  }

  function AsByte(k: nat): bv8
    requires k < 256
  {
    k as bv8
  }

  /** A filter that cannot be read answers "maybe". */
  predicate Unreadable(filter: seq<bv8>) {
    |filter| < 2 || Count(filter[0]) > 30
  }

  predicate Answer(filter: seq<bv8>, h: Hash) {
    Unreadable(filter) ||
    forall b: nat :: b in BitsOf(h, Count(filter[0]), 8 * (|filter| - 1)) ==> IsSet(filter, b)
  }

  /** The probe count for a given number of bits a key. */
  function ProbeCount(bitsPerKey: nat): (k: nat)
    ensures 1 <= k <= 30
  {
    var k := (bitsPerKey as real * 0.69).Floor;
    if k < 1 then 1 else if k > 30 then 30 else k
  }

  function BitmapBytes(n: nat, bitsPerKey: nat): (bytes: nat)
    ensures bytes >= 8
  {
    var bits := (if n == 0 then 1 else n) * bitsPerKey;
    ((if bits < 64 then 64 else bits) + 7) / 8
  }

  /** The filter's set bits are exactly the probes of its keys, no more and no fewer. */
  predicate Holds(filter: seq<bv8>, hashes: seq<Hash>, k: nat) {
    |filter| >= 9 && Count(filter[0]) == k && 1 <= k <= 30 &&
    forall b: nat :: b < 8 * (|filter| - 1) ==> (IsSet(filter, b) <==> b in AllBits(hashes, k, 8 * (|filter| - 1)))
  }

  lemma MasksApart(i: nat, j: nat, x: bv8)
    requires i < 8 && j < 8
    ensures (x | Mask(i)) & Mask(j) != 0 <==> x & Mask(j) != 0 || i == j
  {
    MaskTable(i);
    MaskTable(j);
  }

  lemma MaskTable(i: nat)
    requires i < 8
    ensures Mask(i) == if i == 0 then 1 else if i == 1 then 2 else if i == 2 then 4 else if i == 3 then 8
                       else if i == 4 then 16 else if i == 5 then 32 else if i == 6 then 64 else 128
  {
  }

  method SetBit(out: array<bv8>, bit: nat, ghost bits: set<nat>)
    requires bit < 8 * (out.Length - 1) && Marked(out[..], bits)
    modifies out
    ensures out[0] == old(out[0]) && Marked(out[..], bits + {bit})
  {
    hide Mask, Marked;
    ghost var was := out[..];
    MarkOne(was, bits, bit);
    out[1 + bit / 8] := out[1 + bit / 8] | Mask(bit % 8);
    assert out[..] == was[1 + bit / 8 := was[1 + bit / 8] | Mask(bit % 8)];
  }

  /** The inner loop: one key's probes. */
  method AddHash(out: array<bv8>, h: Hash, k: nat, ghost before: set<nat>)
    requires out.Length >= 2 && Marked(out[..], before)
    modifies out
    ensures out[0] == old(out[0]) && Marked(out[..], before + BitsOf(h, k, 8 * (out.Length - 1)))
  {
    hide Stride, BitsOf, Marked;
    var nbits := 8 * (out.Length - 1);
    var delta, g, i := Stride(h), h, 0;
    NoBits(h, nbits);
    assert before + {} == before;
    while i < k
      invariant 0 <= i <= k && g == Probe(h, i) && out[0] == old(out[0])
      invariant Marked(out[..], before + BitsOf(h, i, nbits))
    {
      var bit := g % nbits;
      assert bit == Bit(h, i, nbits);
      SetBit(out, bit, before + BitsOf(h, i, nbits));
      OneMoreBit(h, i, nbits);
      assert before + BitsOf(h, i + 1, nbits) == before + BitsOf(h, i, nbits) + {bit};
      g := (g + delta) % U64;
      i := i + 1;
    }
  }

  method Build(hashes: seq<Hash>, bitsPerKey: nat) returns (out: array<bv8>)
    ensures out.Length == 1 + BitmapBytes(|hashes|, bitsPerKey)
    ensures Holds(out[..], hashes, ProbeCount(bitsPerKey))
  {
    hide Stride, Mask, ProbeCount, BitmapBytes, BitsOf, AllBits, Count, IsSet, Marked;
    var nbytes := BitmapBytes(|hashes|, bitsPerKey);
    var nbits, k := nbytes * 8, ProbeCount(bitsPerKey);
    out := new bv8[1 + nbytes](_ => 0);
    out[0] := AsByte(k);
    AllClear(out[..], nbits);
    assert hashes[..0] == [];
    var n := 0;
    while n < |hashes|
      invariant 0 <= n <= |hashes| && out[0] == AsByte(k)
      invariant Marked(out[..], AllBits(hashes[..n], k, nbits))
    {
      NextHash(hashes, n, k, nbits);
      AddHash(out, hashes[n], k, AllBits(hashes[..n], k, nbits));
      n := n + 1;
    }
    assert hashes[..n] == hashes;
    MarkedHolds(out[..], hashes, k);
  }

  lemma NextHash(hashes: seq<Hash>, n: nat, k: nat, nbits: nat)
    requires nbits > 0 && n < |hashes|
    ensures AllBits(hashes[..n + 1], k, nbits) == AllBits(hashes[..n], k, nbits) + BitsOf(hashes[n], k, nbits)
  {
    assert hashes[..n + 1][..n] == hashes[..n];
  }

  lemma MarkedHolds(filter: seq<bv8>, hashes: seq<Hash>, k: nat)
    requires |filter| >= 9 && 1 <= k <= 30 && filter[0] == AsByte(k) &&
      Marked(filter, AllBits(hashes, k, 8 * (|filter| - 1)))
    ensures Holds(filter, hashes, k)
  {
  }

  predicate Marked(filter: seq<bv8>, bits: set<nat>) {
    |filter| >= 1 && forall b: nat :: b < 8 * (|filter| - 1) ==> (IsSet(filter, b) <==> b in bits)
  }

  lemma AllClear(filter: seq<bv8>, nbits: nat)
    requires |filter| >= 1 && forall i :: 1 <= i < |filter| ==> filter[i] == 0
    ensures Marked(filter, {}) && (nbits > 0 ==> forall k :: AllBits([], k, nbits) == {})
  {
    forall b: nat | b < 8 * (|filter| - 1) ensures !IsSet(filter, b) {
      assert filter[1 + b / 8] == 0;
    }
  }

  lemma NoBits(h: Hash, nbits: nat)
    requires nbits > 0
    ensures BitsOf(h, 0, nbits) == {}
  {
  }

  lemma OneMoreBit(h: Hash, i: nat, nbits: nat)
    requires nbits > 0
    ensures BitsOf(h, i + 1, nbits) == BitsOf(h, i, nbits) + {Bit(h, i, nbits)}
  {
    hide Bit;
    forall b | b in BitsOf(h, i + 1, nbits) ensures b in BitsOf(h, i, nbits) + {Bit(h, i, nbits)} {
      var j :| 0 <= j < i + 1 && Bit(h, j, nbits) == b;
    }
    forall b | b in BitsOf(h, i, nbits) + {Bit(h, i, nbits)} ensures b in BitsOf(h, i + 1, nbits) {
      if b in BitsOf(h, i, nbits) {
        var j :| 0 <= j < i && Bit(h, j, nbits) == b;
        assert 0 <= j < i + 1;
      }
    }
  }

  /** Or-ing one bit in sets that bit and no other. */
  lemma MarkOne(filter: seq<bv8>, bits: set<nat>, bit: nat)
    requires Marked(filter, bits) && bit < 8 * (|filter| - 1)
    ensures Marked(filter[1 + bit / 8 := filter[1 + bit / 8] | Mask(bit % 8)], bits + {bit})
  {
    hide Mask;
    var filter' := filter[1 + bit / 8 := filter[1 + bit / 8] | Mask(bit % 8)];
    forall b: nat | b < 8 * (|filter| - 1) ensures IsSet(filter', b) <==> b in bits + {bit} {
      assert IsSet(filter, b) <==> b in bits;
      MasksApart(bit % 8, b % 8, filter[1 + b / 8]);
      if b / 8 == bit / 8 { assert b == bit <==> b % 8 == bit % 8; }
    }
  }

  method MayContain(filter: array<bv8>, h: Hash) returns (r: bool)
    ensures r == Answer(filter[..], h)
  {
    if filter.Length < 2 { return true; }
    hide Stride, Mask, BitsOf, Count, IsSet;
    var k := Count(filter[0]);
    ghost var f := filter[..];
    assert f[0] == filter[0];
    if k > 30 { return true; }
    var nbits := 8 * (filter.Length - 1);
    var delta, g, i := Stride(h), h, 0;
    NoBits(h, nbits);
    while i < k
      invariant 0 <= i <= k && g == Probe(h, i)
      invariant filter[..] == f && forall b: nat :: b in BitsOf(h, i, nbits) ==> IsSet(f, b)
    {
      var bit := g % nbits;
      OneMoreBit(h, i, nbits);
      SetHere(f, bit);
      if filter[1 + bit / 8] & Mask(bit % 8) == 0 {
        BitsGrow(h, i + 1, k, nbits);
        assert bit in BitsOf(h, i + 1, nbits);
        return false;
      }
      g := (g + delta) % U64;
      i := i + 1;
    }
    return true;
  }

  lemma SetHere(filter: seq<bv8>, b: nat)
    requires b < 8 * (|filter| - 1)
    ensures IsSet(filter, b) <==> filter[1 + b / 8] & Mask(b % 8) != 0
  {
  }

  lemma BitsGrow(h: Hash, i: nat, k: nat, nbits: nat)
    requires nbits > 0 && i <= k
    ensures BitsOf(h, i, nbits) <= BitsOf(h, k, nbits)
  {
  }

  lemma {:induction false} HashIncluded(hashes: seq<Hash>, h: Hash, k: nat, nbits: nat)
    requires nbits > 0 && h in hashes
    ensures BitsOf(h, k, nbits) <= AllBits(hashes, k, nbits)
  {
    hide BitsOf;
    if h != hashes[|hashes| - 1] { HashIncluded(hashes[..|hashes| - 1], h, k, nbits); }
  }

  lemma {:induction false} BitsInRange(hashes: seq<Hash>, k: nat, nbits: nat)
    requires nbits > 0
    ensures forall b :: b in AllBits(hashes, k, nbits) ==> b < nbits
  {
    if hashes != [] { BitsInRange(hashes[..|hashes| - 1], k, nbits); }
  }

  /** A built filter answers "maybe" exactly when every probe of the asked key was made by some key
      of the table; in particular it never says "no" for one of them. */
  lemma BuiltFilterAnswers(filter: seq<bv8>, hashes: seq<Hash>, k: nat, h: Hash)
    requires Holds(filter, hashes, k)
    ensures Answer(filter, h) <==> BitsOf(h, k, 8 * (|filter| - 1)) <= AllBits(hashes, k, 8 * (|filter| - 1))
    ensures h in hashes ==> Answer(filter, h)
    ensures hashes == [] ==> !Answer(filter, h)
  {
    hide IsSet, BitsOf, AllBits;
    var nbits := 8 * (|filter| - 1);
    BitsBelow(h, k, nbits);
    if h in hashes { HashIncluded(hashes, h, k, nbits); }
    forall b: nat | b in BitsOf(h, k, nbits) ensures IsSet(filter, b) <==> b in AllBits(hashes, k, nbits) {
    }
    FirstProbe(h, k, nbits);
    NoHashes(k, nbits);
  }

  lemma BitsBelow(h: Hash, k: nat, nbits: nat)
    requires nbits > 0
    ensures forall b: nat :: b in BitsOf(h, k, nbits) ==> 0 <= b < nbits
  {
  }

  lemma FirstProbe(h: Hash, k: nat, nbits: nat)
    requires nbits > 0 && k > 0
    ensures Bit(h, 0, nbits) in BitsOf(h, k, nbits)
  {
  }

  lemma NoHashes(k: nat, nbits: nat)
    requires nbits > 0
    ensures AllBits([], k, nbits) == {}
  {
  }
}
