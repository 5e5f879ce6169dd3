/** Fixed-width and LEB128 integers, and the checked cursor every decoder reads through. */
module Coding {
  import opened Keys
  import opened Types

  function Pow2(n: nat): (p: nat)
    ensures p >= 1
  {
    if n == 0 then 1 else 2 * Pow2(n - 1)
  }

  // ---------------------------------------------------------------- fixed width

  /** Little-endian digits. */
  function LittleEndian(v: nat, width: nat): (b: Bytes)
    ensures |b| == width
  {
    if width == 0 then [] else [(v % 256) as Byte] + LittleEndian(v / 256, width - 1)
  }

  function FromLittleEndian(b: Bytes): nat {
    if b == [] then 0 else b[0] as nat + 256 * FromLittleEndian(b[1..])
  }

  lemma {:induction false} LittleEndianRoundTrip(v: nat, width: nat)
    requires v < Pow2(8 * width)
    ensures FromLittleEndian(LittleEndian(v, width)) == v
  {
    if width > 0 {
      assert Pow2(8 * width) == 256 * Pow2(8 * (width - 1)) by { PowSplit(8 * (width - 1)); }
      LittleEndianRoundTrip(v / 256, width - 1);
    }
  }

  lemma PowSplit(n: nat)
    ensures Pow2(n + 8) == 256 * Pow2(n)
  {
    assert Pow2(n + 8) == 2 * Pow2(n + 7) && Pow2(n + 7) == 2 * Pow2(n + 6);
    assert Pow2(n + 6) == 2 * Pow2(n + 5) && Pow2(n + 5) == 2 * Pow2(n + 4);
    assert Pow2(n + 4) == 2 * Pow2(n + 3) && Pow2(n + 3) == 2 * Pow2(n + 2);
    assert Pow2(n + 2) == 2 * Pow2(n + 1);
  }

  lemma Pow32()
    ensures Pow2(32) == 0x1_0000_0000
  {
    PowSplit(0);
    PowSplit(8);
    PowSplit(16);
    PowSplit(24);
  }

  /** The digits hold at most what their width can. */
  lemma {:induction false} FromLittleEndianBound(b: Bytes)
    ensures FromLittleEndian(b) < Pow2(8 * |b|)
  {
    if b != [] {
      FromLittleEndianBound(b[1..]);
      PowSplit(8 * (|b| - 1));
    }
  }

  /** Digits are the only ones with their value: decoding is one-to-one at a given width. */
  lemma {:induction false} LittleEndianOnto(b: Bytes)
    ensures LittleEndian(FromLittleEndian(b), |b|) == b
  {
    if b != [] {
      LittleEndianOnto(b[1..]);
      assert b == [b[0]] + b[1..];
    }
  }

  // ---------------------------------------------------------------- LEB128

  /** Unsigned LEB128 (section 7.6 of DWARF Version 5): seven bits a byte, lowest first. */
  function Uvarint(v: nat): (b: Bytes)
    ensures |b| >= 1
  {
    if v < 128 then [v as Byte] else [(v % 128 + 128) as Byte] + Uvarint(v / 128)
  }

  method PutUvarint(dst: Bytes, value: nat) returns (out: Bytes)
    ensures out == dst + Uvarint(value)
  {
    out := dst;
    var v := value;
    while v >= 128
      invariant out + Uvarint(v) == dst + Uvarint(value)
    {
      assert out + Uvarint(v) == (out + [(v % 128 + 128) as Byte]) + Uvarint(v / 128);
      out := out + [(v % 128 + 128) as Byte];
      v := v / 128;
    }
    out := out + [v as Byte];
  }

  /** A number and what follows it. */
  datatype Numbered = Numbered(value: nat, rest: Bytes)

  /** The engine's reader: what is left of a 64-bit number whose low `shift` bits are `low`. */
  function ReadUvarint(b: Bytes, shift: nat, low: nat): Option<Numbered>
    decreases |b|
  {
    if b == [] || (shift == 63 && b[0] > 1) then None
    else
      var v := low + (b[0] as nat % 128) * Pow2(shift);
      if b[0] < 128 then Some(Numbered(v, b[1..]))
      else if shift + 7 > 63 then None
      else ReadUvarint(b[1..], shift + 7, v)
  }

  /** The guest's reader: no overflow check.  Bits past the 64th fall away, and only a tenth byte,
      at shift 63, has any. */
  function GuestUvarint(b: Bytes, shift: nat, low: nat): Option<Numbered>
    decreases |b|
  {
    if b == [] then None
    else
      var v := low + (b[0] as nat % if shift == 63 then 2 else 128) * Pow2(shift);
      if b[0] < 128 then Some(Numbered(v, b[1..]))
      else if shift + 7 > 63 then None
      else GuestUvarint(b[1..], shift + 7, v)
  }

  lemma {:induction false} PowGrows(a: nat, b: nat)
    requires a <= b
    ensures Pow2(a) <= Pow2(b)
  {
    if a < b { PowGrows(a, b - 1); }
  }

  lemma ShiftBy7(v: nat, shift: nat)
    ensures Pow2(shift + 7) == 128 * Pow2(shift)
    ensures (v % 128) * Pow2(shift) + (v / 128) * Pow2(shift + 7) == v * Pow2(shift)
    ensures (v % 128) * Pow2(shift) <= v * Pow2(shift)
    ensures v >= 128 ==> Pow2(shift + 7) <= v * Pow2(shift)
  {
    PowPlus7(shift);
    hide Pow2;
    SplitBy128(v / 128, v % 128, Pow2(shift));
  }

  lemma PowPlus7(n: nat)
    ensures Pow2(n + 7) == 128 * Pow2(n)
  {
    assert Pow2(n + 7) == 2 * Pow2(n + 6) && Pow2(n + 6) == 2 * Pow2(n + 5);
    assert Pow2(n + 5) == 2 * Pow2(n + 4) && Pow2(n + 4) == 2 * Pow2(n + 3);
    assert Pow2(n + 3) == 2 * Pow2(n + 2) && Pow2(n + 2) == 2 * Pow2(n + 1);
  }

  lemma SplitBy128(q: nat, r: nat, p: nat)
    ensures (128 * q + r) * p == r * p + q * (128 * p)
    ensures r * p <= (128 * q + r) * p
    ensures q >= 1 ==> 128 * p <= (128 * q + r) * p
  {
    assert q >= 1 ==> (q - 1) * p >= 0;
  }

  /** Both readers take back every 64-bit number the engine writes, whatever follows it. */
  lemma {:induction false} UvarintRoundTrip(v: nat, rest: Bytes, shift: nat, low: nat)
    requires shift <= 63 && v * Pow2(shift) < Pow2(64)
    ensures ReadUvarint(Uvarint(v) + rest, shift, low) == Some(Numbered(low + v * Pow2(shift), rest))
    ensures GuestUvarint(Uvarint(v) + rest, shift, low) == Some(Numbered(low + v * Pow2(shift), rest))
    decreases v
  {
    hide Pow2;
    ShiftBy7(v, shift);
    var b := Uvarint(v) + rest;
    if shift == 63 { TopBit(v); }
    if v < 128 {
      assert b[0] as nat == v && b[1..] == rest;
    } else {
      if shift + 7 > 63 { PowGrows(64, shift + 7); }
      assert b[0] as nat == v % 128 + 128 && b[1..] == Uvarint(v / 128) + rest;
      UvarintRoundTrip(v / 128, rest, shift + 7, low + (v % 128) * Pow2(shift));
    }
  }

  lemma TopBit(v: nat)
    requires v * Pow2(63) < Pow2(64)
    ensures v <= 1
  {
    assert Pow2(64) == 2 * Pow2(63);
    TwiceOrMore(v, Pow2(63));
  }

  lemma TwiceOrMore(v: nat, p: nat)
    ensures v >= 2 ==> v * p >= 2 * p
  {
    if v >= 2 { assert v * p == 2 * p + (v - 2) * p; }
  }

  /** Where the readers differ: a tenth byte above 1 is an overflow to the engine, and read as
      its low bit by the guest. */
  lemma ReadersDiffer(x: Byte, low: nat)
    requires 2 <= x < 128
    ensures ReadUvarint([x], 63, low).None?
    ensures GuestUvarint([x], 63, low) == Some(Numbered(low + (x as nat % 2) * Pow2(63), []))
  {
    hide Pow2;
    assert [x][1..] == [];
  }

  // ---------------------------------------------------------------- big-endian

  function BigEndian(v: nat, width: nat): (b: Bytes)
    ensures |b| == width
  {
    if width == 0 then [] else BigEndian(v / 256, width - 1) + [(v % 256) as Byte]
  }

  function FromBigEndian(b: Bytes): nat {
    if b == [] then 0 else 256 * FromBigEndian(b[..|b| - 1]) + b[|b| - 1] as nat
  }

  lemma {:induction false} BigEndianRoundTrip(v: nat, width: nat)
    requires v < Pow2(8 * width)
    ensures FromBigEndian(BigEndian(v, width)) == v
  {
    if width > 0 {
      PowSplit(8 * (width - 1));
      BigEndianRoundTrip(v / 256, width - 1);
      assert BigEndian(v, width)[..width - 1] == BigEndian(v / 256, width - 1);
    }
  }

  lemma {:induction false} BeforeSnoc(a: Bytes, b: Bytes, x: Byte, y: Byte)
    requires |a| == |b|
    ensures Before(a + [x], b + [y]) <==> Before(a, b) || (a == b && x < y)
  {
    if a != [] {
      assert (a + [x])[1..] == a[1..] + [x] && (b + [y])[1..] == b[1..] + [y];
      BeforeSnoc(a[1..], b[1..], x, y);
      assert a == [a[0]] + a[1..] && b == [b[0]] + b[1..];
    }
  }

  /** Byte order on big-endian numbers of one width is numeric order. */
  lemma {:induction false} BigEndianInOrder(v: nat, w: nat, width: nat)
    requires v < Pow2(8 * width) && w < Pow2(8 * width)
    ensures Before(BigEndian(v, width), BigEndian(w, width)) <==> v < w
    ensures BigEndian(v, width) == BigEndian(w, width) <==> v == w
  {
    BigEndianRoundTrip(v, width);
    BigEndianRoundTrip(w, width);
    if width > 0 {
      PowSplit(8 * (width - 1));
      BigEndianInOrder(v / 256, w / 256, width - 1);
      BeforeSnoc(BigEndian(v / 256, width - 1), BigEndian(w / 256, width - 1), (v % 256) as Byte, (w % 256) as Byte);
    }
  }
}
