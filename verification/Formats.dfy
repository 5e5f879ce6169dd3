/** The durable formats built from lists, options and length-prefixed strings: the WAL's batch payload and
 * the manifest with its three versions.  Each piece is read back whatever follows it, so the whole is.
 */
module Formats {
  import opened Keys
  import opened Types
  import opened Coding
  import opened Sequences

  datatype Read<+T> = Got(value: T, rest: Bytes) | Failed

  /** How one kind of value is written and read, and which values can be written at all. */
  datatype Codec<!T(!new)> = Codec(fits: T -> bool, put: T -> Bytes, get: Bytes -> Read<T>)

  ghost predicate ReadsBack<T(!new)>(c: Codec<T>) {
    forall v, more :: c.fits(v) ==> c.get(c.put(v) + more) == Got(v, more)
  }

  // ---------------------------------------------------------------- the pieces

  function Fixed(width: nat): Codec<nat> {
    Codec(v => v < Pow2(8 * width), v => LittleEndian(v, width),
          b => if |b| < width then Failed else Got(FromLittleEndian(b[..width]), b[width..]))
  }

  function Varint(): Codec<nat> {
    Codec(v => v < Pow2(64), v => Uvarint(v), b => GetUvarint(b))
  }

  function GetUvarint(b: Bytes): Read<nat> {
    var n := ReadUvarint(b, 0, 0);
    if n.None? then Failed else Got(n.value.value, n.value.rest)
  }

  /** Exactly `n` bytes. */
  function Raw(n: nat): Codec<Bytes> {
    Codec(v => |v| == n, v => v, b => if |b| < n then Failed else Got(b[..n], b[n..]))
  }

  /** A length, then that many bytes, which must be well formed. */
  function Prefixed(wf: Bytes -> bool): Codec<Bytes> {
    Codec(v => |v| < Pow2(64) && wf(v), v => Uvarint(|v|) + v, b => GetPrefixed(wf, b))
  }

  function GetPrefixed(wf: Bytes -> bool, b: Bytes): Read<Bytes> {
    var n := GetUvarint(b);
    if n.Failed? || n.value > |n.rest| || !wf(n.rest[..n.value]) then Failed
    else Got(n.rest[..n.value], n.rest[n.value..])
  }

  function Pair<A(!new), B(!new)>(a: Codec<A>, c: Codec<B>): Codec<(A, B)> {
    Codec((v: (A, B)) => a.fits(v.0) && c.fits(v.1), (v: (A, B)) => a.put(v.0) + c.put(v.1), b => GetPair(a, c, b))
  }

  function GetPair<A(!new), B(!new)>(a: Codec<A>, c: Codec<B>, b: Bytes): Read<(A, B)> {
    var x := a.get(b);
    if x.Failed? then Failed
    else
      var y := c.get(x.rest);
      if y.Failed? then Failed else Got((x.value, y.value), y.rest)
  }

  /** A one and the value, or a zero; readers differ in what they make of any other tag. */
  function Opt<T(!new)>(isSome: Byte -> bool, c: Codec<T>): Codec<Option<T>> {
    Codec((v: Option<T>) => v.Some? ==> c.fits(v.value),
          (v: Option<T>) => if v.None? then [0] else [1] + c.put(v.value), b => GetOpt(isSome, c, b))
  }

  function GetOpt<T(!new)>(isSome: Byte -> bool, c: Codec<T>, b: Bytes): Read<Option<T>> {
    if b == [] then Failed
    else if !isSome(b[0]) then Got(None, b[1..])
    else
      var x := c.get(b[1..]);
      if x.Failed? then Failed else Got(Some(x.value), x.rest)
  }

  /** The same bytes, as another type. */
  function Mapped<A(!new), B(!new)>(c: Codec<A>, of: A -> B, to: B -> A): Codec<B> {
    Codec(v => c.fits(to(v)), v => c.put(to(v)), b => GetMapped(c, of, b))
  }

  function GetMapped<A(!new), B(!new)>(c: Codec<A>, of: A -> B, b: Bytes): Read<B> {
    var x := c.get(b);
    if x.Failed? then Failed else Got(of(x.value), x.rest)
  }

  function PutAll<T(!new)>(c: Codec<T>, vs: seq<T>): Bytes {
    if vs == [] then [] else c.put(vs[0]) + PutAll(c, vs[1..])
  }

  function GetAll<T(!new)>(c: Codec<T>, n: nat, b: Bytes): Read<seq<T>> {
    if n == 0 then Got([], b)
    else
      var x := c.get(b);
      if x.Failed? then Failed
      else
        var xs := GetAll(c, n - 1, x.rest);
        if xs.Failed? then Failed else Got([x.value] + xs.value, xs.rest)
  }

  /** A count, then that many values. */
  function Many<T(!new)>(count: Codec<nat>, c: Codec<T>): Codec<seq<T>> {
    Codec((vs: seq<T>) => count.fits(|vs|) && AllFit(c, vs), (vs: seq<T>) => count.put(|vs|) + PutAll(c, vs),
          b => GetMany(count, c, b))
  }

  predicate AllFit<T(!new)>(c: Codec<T>, vs: seq<T>) {
    forall i :: 0 <= i < |vs| ==> c.fits(vs[i])
  }

  function GetMany<T(!new)>(count: Codec<nat>, c: Codec<T>, b: Bytes): Read<seq<T>> {
    var n := count.get(b);
    if n.Failed? then Failed else GetAll(c, n.value, n.rest)
  }

  // ---------------------------------------------------------------- each piece reads back

  lemma FixedReadsBack(width: nat)
    ensures ReadsBack(Fixed(width))
  {
    hide LittleEndian, FromLittleEndian, Pow2;
    forall v: nat, more: Bytes | v < Pow2(8 * width)
      ensures Fixed(width).get(Fixed(width).put(v) + more) == Got(v, more)
    {
      LittleEndianRoundTrip(v, width);
      var b := LittleEndian(v, width);
      assert (b + more)[..width] == b && (b + more)[width..] == more;
    }
  }

  lemma VarintBack(v: nat, more: Bytes)
    requires v < Pow2(64)
    ensures GetUvarint(Uvarint(v) + more) == Got(v, more)
  {
    assert Pow2(0) == 1;
    hide Pow2;
    UvarintRoundTrip(v, more, 0, 0);
  }

  lemma VarintReadsBack()
    ensures ReadsBack(Varint())
  {
    hide Uvarint, ReadUvarint, Pow2;
    forall v: nat, more: Bytes | v < Pow2(64) ensures GetUvarint(Uvarint(v) + more) == Got(v, more) {
      VarintBack(v, more);
    }
  }

  lemma RawReadsBack(n: nat)
    ensures ReadsBack(Raw(n))
  {
    forall v: Bytes, more: Bytes | |v| == n ensures Raw(n).get(v + more) == Got(v, more) {
      assert (v + more)[..n] == v && (v + more)[n..] == more;
    }
  }

  lemma PrefixedReadsBack(wf: Bytes -> bool)
    ensures ReadsBack(Prefixed(wf))
  {
    hide Uvarint, ReadUvarint, Pow2;
    forall v: Bytes, more: Bytes | |v| < Pow2(64) && wf(v)
      ensures GetPrefixed(wf, (Uvarint(|v|) + v) + more) == Got(v, more)
    {
      VarintBack(|v|, v + more);
      Assoc(Uvarint(|v|), v, more);
      assert (v + more)[..|v|] == v && (v + more)[|v|..] == more;
    }
  }

  lemma PairReadsBack<A(!new), B(!new)>(a: Codec<A>, c: Codec<B>)
    requires ReadsBack(a) && ReadsBack(c)
    ensures ReadsBack(Pair(a, c))
  {
    forall v: (A, B), more: Bytes | a.fits(v.0) && c.fits(v.1)
      ensures GetPair(a, c, (a.put(v.0) + c.put(v.1)) + more) == Got(v, more)
    {
      Assoc(a.put(v.0), c.put(v.1), more);
    }
  }

  lemma OptReadsBack<T(!new)>(isSome: Byte -> bool, c: Codec<T>)
    requires ReadsBack(c) && isSome(1) && !isSome(0)
    ensures ReadsBack(Opt(isSome, c))
  {
    forall v: Option<T>, more: Bytes | Opt(isSome, c).fits(v)
      ensures GetOpt(isSome, c, Opt(isSome, c).put(v) + more) == Got(v, more)
    {
      if v.None? {
        assert ([0] + more)[1..] == more;
      } else {
        assert ([1] + c.put(v.value) + more)[1..] == c.put(v.value) + more;
      }
    }
  }

  lemma MappedReadsBack<A(!new), B(!new)>(c: Codec<A>, of: A -> B, to: B -> A)
    requires ReadsBack(c) && forall v :: of(to(v)) == v
    ensures ReadsBack(Mapped(c, of, to))
  {
  }

  lemma {:induction false} AllReadBack<T(!new)>(c: Codec<T>, vs: seq<T>, more: Bytes)
    requires ReadsBack(c) && AllFit(c, vs)
    ensures GetAll(c, |vs|, PutAll(c, vs) + more) == Got(vs, more)
  {
    if vs == [] {
      assert [] + more == more;
    } else {
      assert c.fits(vs[0]);
      assert AllFit(c, vs[1..]);
      Assoc(c.put(vs[0]), PutAll(c, vs[1..]), more);
      AllReadBack(c, vs[1..], more);
      assert [vs[0]] + vs[1..] == vs;
    }
  }

  lemma ManyReadsBack<T(!new)>(count: Codec<nat>, c: Codec<T>)
    requires ReadsBack(count) && ReadsBack(c)
    ensures ReadsBack(Many(count, c))
  {
    forall vs: seq<T>, more: Bytes | Many(count, c).fits(vs)
      ensures GetMany(count, c, (count.put(|vs|) + PutAll(c, vs)) + more) == Got(vs, more)
    {
      Assoc(count.put(|vs|), PutAll(c, vs), more);
      AllReadBack(c, vs, more);
    }
  }

  // ---------------------------------------------------------------- the WAL's batch payload

  datatype Kind = Deleted | Stored

  datatype BatchEntry = BatchEntry(kind: Kind, key: Bytes, repr: Bytes)

  function Kinds(): Codec<Kind> {
    Codec((v: Kind) => true, (v: Kind) => if v.Deleted? then [0] else [1], b => GetKind(b))
  }

  function GetKind(b: Bytes): Read<Kind> {
    if b == [] || b[0] > 1 then Failed else Got(if b[0] == 0 then Deleted else Stored, b[1..])
  }

  function Anything(): Bytes -> bool {
    b => true
  }

  function EntryParts(): Codec<(Kind, (Bytes, Bytes))> {
    Pair(Kinds(), Pair(Prefixed(Anything()), Prefixed(Anything())))
  }

  function EntryOf(x: (Kind, (Bytes, Bytes))): BatchEntry {
    BatchEntry(x.0, x.1.0, x.1.1)
  }

  function PartsOf(e: BatchEntry): (Kind, (Bytes, Bytes)) {
    (e.kind, (e.key, e.repr))
  }

  /** The base seqno, a 32-bit count, and the entries. */
  function Batches(): Codec<(nat, seq<BatchEntry>)> {
    Pair(Fixed(8), Many(Fixed(4), Mapped(EntryParts(), EntryOf, PartsOf)))
  }

  lemma KindsReadBack()
    ensures ReadsBack(Kinds())
  {
    forall v: Kind, more: Bytes ensures Kinds().get(Kinds().put(v) + more) == Got(v, more) {
      assert (Kinds().put(v) + more)[1..] == more;
    }
  }

  /** A batch of fewer than 2^32 entries is read back from its payload, whatever its keys and values. */
  lemma BatchesReadBack()
    ensures ReadsBack(Batches())
  {
    hide ReadsBack, Fixed, Prefixed, Kinds, Mapped, Many, Pair;
    KindsReadBack();
    PrefixedReadsBack(Anything());
    PairReadsBack(Prefixed(Anything()), Prefixed(Anything()));
    PairReadsBack(Kinds(), Pair(Prefixed(Anything()), Prefixed(Anything())));
    MappedReadsBack(EntryParts(), EntryOf, PartsOf);
    FixedReadsBack(8);
    FixedReadsBack(4);
    ManyReadsBack(Fixed(4), Mapped(EntryParts(), EntryOf, PartsOf));
    PairReadsBack(Fixed(8), Many(Fixed(4), Mapped(EntryParts(), EntryOf, PartsOf)));
  }

  // ---------------------------------------------------------------- the manifest

  const MAGIC := 0xf115_e731_3aa1_0001
  const ID_LENGTH := 16
  const NEWEST_FORMAT := 3

  /** Runs by id, with their tables; files, with the seqno they were retired at or their dead bytes. */
  datatype Structure = Structure(nextFile: nat, lastFlushed: nat, walFloor: nat, levels: seq<seq<(nat, seq<nat>)>>,
                                 vlogLive: seq<nat>, vlogHead: nat, retired: seq<(nat, nat)>, discard: seq<(nat, nat)>)

  /** Names are UTF-8; ids are 16 bytes. */
  datatype Identity = Identity(name: Bytes, instance: Bytes, parent: Option<(Bytes, nat)>)
  datatype PendingFork = PendingFork(name: Bytes, parent: Bytes, cut: nat)
  datatype Pin = Pin(name: Bytes, seqno: nat, created: nat)

  datatype Manifest = Manifest(structure: Structure, identity: Option<Identity>, pending: Option<PendingFork>,
                               pins: seq<Pin>)

  function U64(): Codec<nat> {
    Fixed(8)
  }

  function List<T(!new)>(c: Codec<T>): Codec<seq<T>> {
    Many(Varint(), c)
  }

  function Counters(): Codec<(nat, (nat, nat))> {
    Pair(U64(), Pair(U64(), U64()))
  }

  function LevelList(): Codec<seq<seq<(nat, seq<nat>)>>> {
    List(List(Pair(U64(), List(U64()))))
  }

  function FileStats(): Codec<seq<(nat, nat)>> {
    List(Pair(U64(), U64()))
  }

  type VlogPart = (seq<nat>, (nat, (seq<(nat, nat)>, seq<(nat, nat)>)))

  function VlogParts(): Codec<VlogPart> {
    Pair(List(U64()), Pair(U64(), Pair(FileStats(), FileStats())))
  }

  type StructurePart = ((nat, (nat, nat)), (seq<seq<(nat, seq<nat>)>>, VlogPart))

  function StructureOf(x: StructurePart): Structure {
    Structure(x.0.0, x.0.1.0, x.0.1.1, x.1.0, x.1.1.0, x.1.1.1.0, x.1.1.1.1.0, x.1.1.1.1.1)
  }

  function StructureParts(s: Structure): StructurePart {
    ((s.nextFile, (s.lastFlushed, s.walFloor)), (s.levels, (s.vlogLive, (s.vlogHead, (s.retired, s.discard)))))
  }

  function Structures(): Codec<Structure> {
    Mapped(Pair(Counters(), Pair(LevelList(), VlogParts())), StructureOf, StructureParts)
  }

  function IsOne(tag: Byte): bool {
    tag == 1
  }

  function NotZero(tag: Byte): bool {
    tag != 0
  }

  type IdentityPart = (Bytes, (Bytes, Option<(Bytes, nat)>))

  function IdentityOf(x: IdentityPart): Identity {
    Identity(x.0, x.1.0, x.1.1)
  }

  function IdentityParts(d: Identity): IdentityPart {
    (d.name, (d.instance, d.parent))
  }

  function Identities(utf8: Bytes -> bool): Codec<Option<Identity>> {
    Opt(IsOne, Mapped(Pair(Prefixed(utf8), Pair(Raw(ID_LENGTH), Opt(NotZero, Pair(Raw(ID_LENGTH), U64())))),
                      IdentityOf, IdentityParts))
  }

  function ForkOf(x: (Bytes, (Bytes, nat))): PendingFork {
    PendingFork(x.0, x.1.0, x.1.1)
  }

  function ForkParts(f: PendingFork): (Bytes, (Bytes, nat)) {
    (f.name, (f.parent, f.cut))
  }

  function Forks(utf8: Bytes -> bool): Codec<Option<PendingFork>> {
    Opt(IsOne, Mapped(Pair(Prefixed(utf8), Pair(Raw(ID_LENGTH), U64())), ForkOf, ForkParts))
  }

  function PinOf(x: (Bytes, (nat, nat))): Pin {
    Pin(x.0, x.1.0, x.1.1)
  }

  function PinParts(p: Pin): (Bytes, (nat, nat)) {
    (p.name, (p.seqno, p.created))
  }

  function Pins(utf8: Bytes -> bool): Codec<seq<Pin>> {
    List(Mapped(Pair(Prefixed(utf8), Pair(U64(), U64())), PinOf, PinParts))
  }

  // ---------------------------------------------------------------- its sections read back

  lemma ListReadsBack<T(!new)>(c: Codec<T>)
    requires ReadsBack(c)
    ensures ReadsBack(List(c))
  {
    VarintReadsBack();
    ManyReadsBack(Varint(), c);
  }

  lemma StructuresReadBack()
    ensures ReadsBack(Structures())
  {
    hide ReadsBack, Fixed, Pair, Many, Mapped, Varint;
    FixedReadsBack(8);
    PairReadsBack(U64(), U64());
    PairReadsBack(U64(), Pair(U64(), U64()));
    ListReadsBack(U64());
    PairReadsBack(U64(), List(U64()));
    ListReadsBack(Pair(U64(), List(U64())));
    ListReadsBack(List(Pair(U64(), List(U64()))));
    ListReadsBack(Pair(U64(), U64()));
    PairReadsBack(FileStats(), FileStats());
    PairReadsBack(U64(), Pair(FileStats(), FileStats()));
    PairReadsBack(List(U64()), Pair(U64(), Pair(FileStats(), FileStats())));
    PairReadsBack(LevelList(), VlogParts());
    PairReadsBack(Counters(), Pair(LevelList(), VlogParts()));
    MappedReadsBack(Pair(Counters(), Pair(LevelList(), VlogParts())), StructureOf, StructureParts);
  }

  lemma TailsReadBack(utf8: Bytes -> bool)
    ensures ReadsBack(Identities(utf8)) && ReadsBack(Forks(utf8)) && ReadsBack(Pins(utf8))
  {
    hide ReadsBack, Fixed, Pair, Many, Mapped, Varint, Opt, Prefixed, Raw;
    var id := Raw(ID_LENGTH);
    FixedReadsBack(8);
    RawReadsBack(ID_LENGTH);
    PrefixedReadsBack(utf8);
    PairReadsBack(id, U64());
    OptReadsBack(NotZero, Pair(id, U64()));
    PairReadsBack(id, Opt(NotZero, Pair(id, U64())));
    var identity := Pair(Prefixed(utf8), Pair(id, Opt(NotZero, Pair(id, U64()))));
    PairReadsBack(Prefixed(utf8), Pair(id, Opt(NotZero, Pair(id, U64()))));
    MappedReadsBack(identity, IdentityOf, IdentityParts);
    OptReadsBack(IsOne, Mapped(identity, IdentityOf, IdentityParts));
    PairReadsBack(Prefixed(utf8), Pair(id, U64()));
    MappedReadsBack(Pair(Prefixed(utf8), Pair(id, U64())), ForkOf, ForkParts);
    OptReadsBack(IsOne, Mapped(Pair(Prefixed(utf8), Pair(id, U64())), ForkOf, ForkParts));
    PairReadsBack(U64(), U64());
    PairReadsBack(Prefixed(utf8), Pair(U64(), U64()));
    MappedReadsBack(Pair(Prefixed(utf8), Pair(U64(), U64())), PinOf, PinParts);
    ListReadsBack(Mapped(Pair(Prefixed(utf8), Pair(U64(), U64())), PinOf, PinParts));
  }

  // ---------------------------------------------------------------- three formats

  /** The sections a format has carry all there is to carry. */
  predicate Carries(format: nat, m: Manifest) {
    1 <= format <= NEWEST_FORMAT && (format < 2 ==> m.identity.None? && m.pending.None?) &&
    (format < 3 ==> m.pins == [])
  }

  function FormatOf(m: Manifest): nat {
    if m.pins != [] then 3 else if m.identity.Some? || m.pending.Some? then 2 else 1
  }

  predicate Writable(utf8: Bytes -> bool, m: Manifest) {
    Structures().fits(m.structure) && Identities(utf8).fits(m.identity) && Forks(utf8).fits(m.pending) &&
    Pins(utf8).fits(m.pins)
  }

  function Sections(utf8: Bytes -> bool, m: Manifest): Bytes {
    Structures().put(m.structure) + TailSections(utf8, m)
  }

  function TailSections(utf8: Bytes -> bool, m: Manifest): Bytes {
    (if FormatOf(m) >= 2 then Identities(utf8).put(m.identity) + Forks(utf8).put(m.pending) else []) +
    (if FormatOf(m) >= 3 then Pins(utf8).put(m.pins) else [])
  }

  function Body(utf8: Bytes -> bool, m: Manifest): Bytes {
    LittleEndian(MAGIC, 8) + (LittleEndian(FormatOf(m), 4) + Sections(utf8, m))
  }

  function Encode(crc: Bytes -> nat, utf8: Bytes -> bool, m: Manifest): Bytes {
    var body := Body(utf8, m);
    body + LittleEndian(crc(body), 4)
  }

  datatype Error = TooSmall | BadChecksum | BadMagic | UnknownFormat(format: nat) | Truncated

  datatype Decoded = Ok(manifest: Manifest) | Err(error: Error)

  /** How a program whose newest format is `newest` reads a manifest. */
  function Decode(crc: Bytes -> nat, utf8: Bytes -> bool, newest: nat, buf: Bytes): Decoded {
    if |buf| < 16 then Err(TooSmall)
    else
      var body := buf[..|buf| - 4];
      if crc(body) != FromLittleEndian(buf[|buf| - 4..]) then Err(BadChecksum)
      else if FromLittleEndian(body[..8]) != MAGIC then Err(BadMagic)
      else
        var format := FromLittleEndian(body[8..12]);
        if !(1 <= format <= newest) then Err(UnknownFormat(format)) else DecodeSections(utf8, format, body[12..])
  }

  function DecodeSections(utf8: Bytes -> bool, format: nat, b: Bytes): Decoded {
    var s := Structures().get(b);
    if s.Failed? then Err(Truncated)
    else
      var d := if format >= 2 then Identities(utf8).get(s.rest) else Got(None, s.rest);
      if d.Failed? then Err(Truncated)
      else
        var f := if format >= 2 then Forks(utf8).get(d.rest) else Got(None, d.rest);
        if f.Failed? then Err(Truncated)
        else
          var p := if format >= 3 then Pins(utf8).get(f.rest) else Got([], f.rest);
          if p.Failed? then Err(Truncated) else Ok(Manifest(s.value, d.value, f.value, p.value))
  }

  /** A manifest is written at the lowest format that carries it. */
  lemma LowestFormat(m: Manifest, format: nat)
    ensures Carries(format, m) <==> FormatOf(m) <= format <= NEWEST_FORMAT
  {
  }

  lemma ReadBack<T(!new)>(c: Codec<T>, v: T, more: Bytes)
    requires ReadsBack(c) && c.fits(v)
    ensures c.get(c.put(v) + more) == Got(v, more)
  {
  }

  lemma SectionsReadBack(utf8: Bytes -> bool, m: Manifest)
    requires Writable(utf8, m)
    ensures DecodeSections(utf8, FormatOf(m), Sections(utf8, m)) == Ok(m)
  {
    hide Structures, Identities, Forks, Pins, ReadsBack;
    StructuresReadBack();
    TailsReadBack(utf8);
    var pins := if FormatOf(m) >= 3 then Pins(utf8).put(m.pins) else [];
    var d, f := Identities(utf8).put(m.identity), Forks(utf8).put(m.pending);
    ReadBack(Structures(), m.structure, TailSections(utf8, m));
    if FormatOf(m) >= 2 {
      ReadBack(Identities(utf8), m.identity, f + pins);
      ReadBack(Forks(utf8), m.pending, pins);
      Assoc(d, f, pins);
      if FormatOf(m) >= 3 {
        ReadBack(Pins(utf8), m.pins, []);
        assert pins + [] == pins;
      }
    }
  }

  lemma HeadReadsBack(format: nat, sections: Bytes, sum: nat)
    requires format < 0x1_0000_0000 && sum < 0x1_0000_0000
    ensures var body := LittleEndian(MAGIC, 8) + (LittleEndian(format, 4) + sections);
      var buf := body + LittleEndian(sum, 4);
      |buf| >= 16 && buf[..|buf| - 4] == body && FromLittleEndian(buf[|buf| - 4..]) == sum &&
      FromLittleEndian(body[..8]) == MAGIC && FromLittleEndian(body[8..12]) == format && body[12..] == sections
  {
    hide LittleEndian, FromLittleEndian;
    Pow32();
    PowSplit(32);
    PowSplit(40);
    PowSplit(48);
    PowSplit(56);
    hide Pow2;
    LittleEndianRoundTrip(MAGIC, 8);
    LittleEndianRoundTrip(format, 4);
    LittleEndianRoundTrip(sum, 4);
    var magic, form := LittleEndian(MAGIC, 8), LittleEndian(format, 4);
    var body := magic + (form + sections);
    var buf := body + LittleEndian(sum, 4);
    assert body[..8] == magic && body[8..12] == form && body[12..] == sections;
    assert buf[..|buf| - 4] == body && buf[|buf| - 4..] == LittleEndian(sum, 4);
  }

  /** A program reads a manifest back exactly if it knows the lowest format that carries it, which is the
      one it is written at; an older program refuses it by its format. */
  lemma ManifestReadsBack(crc: Bytes -> nat, utf8: Bytes -> bool, newest: nat, m: Manifest)
    requires Writable(utf8, m) && forall b :: crc(b) < 0x1_0000_0000
    ensures Decode(crc, utf8, newest, Encode(crc, utf8, m)) ==
      if newest >= FormatOf(m) then Ok(m) else Err(UnknownFormat(FormatOf(m)))
  {
    hide LittleEndian, FromLittleEndian, Sections, DecodeSections;
    HeadReadsBack(FormatOf(m), Sections(utf8, m), crc(Body(utf8, m)));
    SectionsReadBack(utf8, m);
  }
}
