/** The wire formats of triggers: the engine's queue records and packed module inputs, and the
 * guest library's parsers.
 */
module TriggerCodec {
  import opened Sequences
  import opened Keys
  import opened Types
  import opened Coding
  import opened GroupCommit

  /** One committed change, as a module sees it; a put's value may be elided. */
  datatype Change = Written(at: SeqNo, key: Bytes, value: Option<Bytes>) | Erased(at: SeqNo, key: Bytes)

  /** The change an op makes at its seqno: values above `cap` are elided. */
  function ChangeOf(op: BatchOp, at: SeqNo, cap: nat): Change {
    match op
    case PutOp(key, value) => Written(at, key, if |value| <= cap then Some(value) else None)
    case DeleteOp(key) => Erased(at, key)
  }

  function KindOf(c: Change): Byte {
    if c.Erased? then 1 else if c.value.Some? then 0 else 2
  }

  function InlineOf(c: Change): Bytes {
    if c.Written? && c.value.Some? then c.value.value else []
  }

  // ---------------------------------------------------------------- queue records

  function EncodeRecord(c: Change): Bytes {
    [1, KindOf(c)] + (Uvarint(|c.key|) + (c.key + InlineOf(c)))
  }

  datatype Record = Record(kind: Byte, key: Bytes, value: Bytes)

  function DecodeRecord(b: Bytes): Option<Record> {
    if |b| < 2 || b[0] != 1 || b[1] > 2 then None
    else
      var len := ReadUvarint(b[2..], 0, 0);
      if len.None? || |len.value.rest| < len.value.value then None
      else
        var key, value := len.value.rest[..len.value.value], len.value.rest[len.value.value..];
        if b[1] != 0 && value != [] then None else Some(Record(b[1], key, value))
  }

  /** A decoded record, read at the seqno its queue key carries. */
  function Meaning(at: SeqNo, r: Record): Change {
    if r.kind == 1 then Erased(at, r.key) else Written(at, r.key, if r.kind == 0 then Some(r.value) else None)
  }

  lemma RecordRoundTrip(c: Change)
    requires |c.key| < Pow2(64)
    ensures var r := DecodeRecord(EncodeRecord(c)); r.Some? && Meaning(c.at, r.value) == c
    ensures DecodeRecord(EncodeRecord(c)) == Some(Record(KindOf(c), c.key, InlineOf(c)))
  {
    hide Uvarint, ReadUvarint, GuestUvarint;
    var b, tail := EncodeRecord(c), c.key + InlineOf(c);
    assert b[2..] == Uvarint(|c.key|) + tail;
    assert |c.key| * Pow2(0) == |c.key|;
    UvarintRoundTrip(|c.key|, tail, 0, 0);
    assert tail[..|c.key|] == c.key && tail[|c.key|..] == InlineOf(c);
  }

  // ---------------------------------------------------------------- changes-mode input

  function Framed(value: Bytes): Bytes {
    LittleEndian(|value|, 4) + value
  }

  function PackOne(c: Change): Bytes {
    LittleEndian(c.at, 8) + ([KindOf(c)] + (Framed(c.key) + if KindOf(c) == 0 then Framed(InlineOf(c)) else []))
  }

  function PackAll(cs: seq<Change>): Bytes {
    if cs == [] then [] else PackAll(cs[..|cs| - 1]) + PackOne(cs[|cs| - 1])
  }

  function Pack(cs: seq<Change>): Bytes {
    LittleEndian(|cs|, 4) + PackAll(cs)
  }

  /** Lengths and seqnos within the frame's integer widths. */
  predicate OnWire(c: Change) {
    c.at < Pow2(64) && |c.key| < Pow2(32) && |InlineOf(c)| < Pow2(32)
  }

  lemma {:induction false} PackAllFront(cs: seq<Change>)
    requires cs != []
    ensures PackAll(cs) == PackOne(cs[0]) + PackAll(cs[1..])
  {
    hide PackOne;
    var last := cs[|cs| - 1];
    if |cs| == 1 {
      assert cs[..0] == [] && cs[1..] == [];
    } else {
      PackAllFront(cs[..|cs| - 1]);
      assert cs[..|cs| - 1][1..] == cs[1..][..|cs| - 2];
      assert PackAll(cs[1..]) == PackAll(cs[1..][..|cs| - 2]) + PackOne(last);
      Assoc(PackOne(cs[0]), PackAll(cs[1..][..|cs| - 2]), PackOne(last));
    }
  }

  // ---------------------------------------------------------------- the guest's parser

  datatype Taken<T> = Taken(it: T, rest: Bytes)

  function TakeFramed(b: Bytes): Option<Taken<Bytes>> {
    if |b| < 4 then None
    else
      var len := FromLittleEndian(b[..4]);
      if |b| - 4 < len then None else Some(Taken(b[4..][..len], b[4..][len..]))
  }

  function TakeOne(b: Bytes): Option<Taken<Change>> {
    if |b| < 9 then None
    else
      var at, kind, key := FromLittleEndian(b[..8]), b[8], TakeFramed(b[9..]);
      if key.None? then None
      else if kind == 1 then Some(Taken(Erased(at, key.value.it), key.value.rest))
      else if kind == 2 then Some(Taken(Written(at, key.value.it, None), key.value.rest))
      else if kind > 2 then None
      else
        var value := TakeFramed(key.value.rest);
        if value.None? then None
        else Some(Taken(Written(at, key.value.it, Some(value.value.it)), value.value.rest))
  }

  /** Exactly `n` changes and nothing after them. */
  function ParseMany(b: Bytes, n: nat): Option<seq<Change>> {
    if n == 0 then if b == [] then Some([]) else None
    else
      var one := TakeOne(b);
      if one.None? then None
      else
        var more := ParseMany(one.value.rest, n - 1);
        if more.None? then None else Some([one.value.it] + more.value)
  }

  function Parsed(b: Bytes): Option<seq<Change>> {
    if |b| < 4 then None else ParseMany(b[4..], FromLittleEndian(b[..4]))
  }

  lemma TakeFramedExact(b: Bytes, v: Bytes, rest: Bytes)
    ensures TakeFramed(b) == Some(Taken(v, rest)) <==> |v| < Pow2(32) && b == Framed(v) + rest
  {
    hide Pow2, LittleEndian, FromLittleEndian;
    if |v| < Pow2(32) && b == Framed(v) + rest {
      LittleEndianRoundTrip(|v|, 4);
      assert b[..4] == LittleEndian(|v|, 4) && b[4..] == v + rest;
      assert (v + rest)[..|v|] == v && (v + rest)[|v|..] == rest;
    }
    if TakeFramed(b) == Some(Taken(v, rest)) {
      LittleEndianOnto(b[..4]);
      FromLittleEndianBound(b[..4]);
      assert b == b[..4] + (b[4..][..|v|] + b[4..][|v|..]);
    }
  }

  /** What follows a change's seqno and kind. */
  function Body(c: Change): Bytes {
    Framed(c.key) + if KindOf(c) == 0 then Framed(InlineOf(c)) else []
  }

  lemma BodyExact(b: Bytes, c: Change, rest: Bytes)
    ensures |c.key| < Pow2(32) && |InlineOf(c)| < Pow2(32) && b == Body(c) + rest <==>
      var key := TakeFramed(b);
      key.Some? && key.value.it == c.key &&
      (if KindOf(c) == 0 then TakeFramed(key.value.rest) == Some(Taken(InlineOf(c), rest)) else key.value.rest == rest)
  {
    hide TakeFramed, Framed, Pow2;
    var key := TakeFramed(b);
    PowGrows(0, 32);
    assert Pow2(0) >= 1;
    var mid := if KindOf(c) == 0 then Framed(InlineOf(c)) + rest else rest;
    TakeFramedExact(b, c.key, mid);
    TakeFramedExact(mid, InlineOf(c), rest);
    Assoc(Framed(c.key), if KindOf(c) == 0 then Framed(InlineOf(c)) else [], rest);
    assert [] + rest == rest;
    if key.Some? {
      TakeFramedExact(b, c.key, key.value.rest);
      TakeFramedExact(key.value.rest, InlineOf(c), rest);
    }
  }

  lemma TakeOneExact(b: Bytes, c: Change, rest: Bytes)
    ensures TakeOne(b) == Some(Taken(c, rest)) <==> OnWire(c) && b == PackOne(c) + rest
  {
    hide Pow2, LittleEndian, FromLittleEndian, TakeFramed, Framed;
    var head := LittleEndian(c.at, 8) + [KindOf(c)];
    assert PackOne(c) + rest == head + (Body(c) + rest);
    if OnWire(c) && b == PackOne(c) + rest {
      LittleEndianRoundTrip(c.at, 8);
      assert b[..8] == LittleEndian(c.at, 8) && b[8] == KindOf(c) && b[9..] == Body(c) + rest;
      BodyExact(b[9..], c, rest);
    }
    if TakeOne(b) == Some(Taken(c, rest)) {
      LittleEndianOnto(b[..8]);
      FromLittleEndianBound(b[..8]);
      BodyExact(b[9..], c, rest);
      assert b == b[..8] + [b[8]] + b[9..];
    }
  }

  lemma {:induction false} ParseManyExact(b: Bytes, n: nat, cs: seq<Change>)
    ensures ParseMany(b, n) == Some(cs) <==> |cs| == n && (forall c :: c in cs ==> OnWire(c)) && b == PackAll(cs)
    decreases n
  {
    hide TakeOne, PackOne, OnWire;
    if n > 0 && cs != [] {
      PackAllFront(cs);
      TakeOneExact(b, cs[0], PackAll(cs[1..]));
      assert cs == [cs[0]] + cs[1..];
      ParseManyExact(PackAll(cs[1..]), n - 1, cs[1..]);
      var one := TakeOne(b);
      if one.Some? {
        TakeOneExact(b, one.value.it, one.value.rest);
        ParseManyExact(one.value.rest, n - 1, cs[1..]);
        assert forall m: seq<Change> :: [one.value.it] + m == cs ==> m == cs[1..] && one.value.it == cs[0];
      }
    }
  }

  /** The guest recovers exactly the changes the engine packed, and accepts nothing else: an input
      parses to a list of changes precisely when it is their packing. */
  lemma ParseInvertsPack(b: Bytes, cs: seq<Change>)
    ensures Parsed(b) == Some(cs) <==> |cs| < Pow2(32) && (forall c :: c in cs ==> OnWire(c)) && b == Pack(cs)
  {
    hide Pow2, LittleEndian, FromLittleEndian, PackAll, ParseMany, OnWire;
    if |b| >= 4 {
      ParseManyExact(b[4..], FromLittleEndian(b[..4]), cs);
      LittleEndianOnto(b[..4]);
      FromLittleEndianBound(b[..4]);
      assert b == b[..4] + b[4..];
      if |cs| < Pow2(32) && b == Pack(cs) {
        LittleEndianRoundTrip(|cs|, 4);
        assert b[..4] == LittleEndian(|cs|, 4) && b[4..] == PackAll(cs);
      }
    }
  }

  /** The parser as the guest runs it, on one buffer with a moving position. */
  method ParseChanges(input: Bytes) returns (r: Option<seq<Change>>)
    ensures r == Parsed(input)
  {
    hide TakeOne, FromLittleEndian;
    if |input| < 4 { return None; }
    var count := FromLittleEndian(input[..4]);
    var pos, out: seq<Change>, i := 4, [], 0;
    NothingYet(ParseMany(input[4..], count));
    while i < count
      invariant 0 <= i <= count && 4 <= pos <= |input|
      invariant Parsed(input) == Prepend(out, ParseMany(input[pos..], count - i))
    {
      var c, next := ChangeAt(input, pos);
      if c.None? { return None; }
      PrependMore(out, c.value, ParseMany(input[next..], count - i - 1));
      out, pos, i := out + [c.value], next, i + 1;
    }
    if pos != |input| { return None; }
    assert input[pos..] == [] && out + [] == out;
    return Some(out);
  }

  method ChangeAt(input: Bytes, pos: nat) returns (c: Option<Change>, next: nat)
    requires pos <= |input|
    ensures c.Some? <==> TakeOne(input[pos..]).Some?
    ensures c.Some? ==> pos <= next <= |input| && TakeOne(input[pos..]) == Some(Taken(c.value, input[next..]))
  {
    hide FromLittleEndian, TakeFramed;
    var rest := input[pos..];
    if |rest| < 9 { return None, pos; }
    var at, kind := FromLittleEndian(input[pos..pos + 8]), input[pos + 8];
    assert rest[..8] == input[pos..pos + 8] && rest[9..] == input[pos + 9..];
    var key, kend := FramedAt(input, pos + 9);
    if key.None? { return None, pos; }
    if kind == 0 {
      var value, vend := FramedAt(input, kend);
      if value.None? { return None, pos; }
      c, next := Some(Written(at, key.value, value)), vend;
    } else if kind == 2 {
      c, next := Some(Written(at, key.value, None)), kend;
    } else if kind == 1 {
      c, next := Some(Erased(at, key.value)), kend;
    } else {
      c, next := None, pos;
    }
  }

  lemma NothingYet(more: Option<seq<Change>>)
    ensures Prepend([], more) == more
  {
    if more.Some? { assert [] + more.value == more.value; }
  }

  function Prepend(done: seq<Change>, more: Option<seq<Change>>): Option<seq<Change>> {
    if more.None? then None else Some(done + more.value)
  }

  lemma PrependMore(done: seq<Change>, c: Change, more: Option<seq<Change>>)
    ensures Prepend(done + [c], more) == Prepend(done, if more.None? then None else Some([c] + more.value))
  {
    if more.Some? { Assoc(done, [c], more.value); }
  }

  method FramedAt(input: Bytes, pos: nat) returns (v: Option<Bytes>, end: nat)
    requires pos <= |input|
    ensures v.Some? <==> TakeFramed(input[pos..]).Some?
    ensures v.Some? ==> pos <= end <= |input| && TakeFramed(input[pos..]) == Some(Taken(v.value, input[end..]))
  {
    hide FromLittleEndian;
    end := pos;
    if |input| < pos + 4 { return None, pos; }
    var len := FromLittleEndian(input[pos..pos + 4]);
    var b := input[pos..];
    assert b[..4] == input[pos..pos + 4];
    if |input| < pos + 4 + len { return None, pos; }
    end := pos + 4 + len;
    v := Some(input[pos + 4..end]);
    assert b[4..][..len] == input[pos + 4..end] && b[4..][len..] == input[end..];
  }

  // ---------------------------------------------------------------- packing a chunk of the queue

  datatype Packing = Packed(input: Bytes, consume: seq<Bytes>) | CorruptEvent | EventTooBig

  /** One queue entry: its key under the trigger's prefix, and its record. */
  datatype Item = Item(key: Bytes, record: Bytes)

  predicate Readable(prefix: nat, item: Item) {
    |item.key| == prefix + 8 && DecodeRecord(item.record).Some?
  }

  function ChangeIn(prefix: nat, item: Item): Change
    requires Readable(prefix, item)
  {
    Meaning(FromBigEndian(item.key[prefix..]), DecodeRecord(item.record).value)
  }

  function ChangesIn(prefix: nat, items: seq<Item>): (cs: seq<Change>)
    requires forall item :: item in items ==> Readable(prefix, item)
    ensures |cs| == |items|
  {
    if items == [] then [] else ChangesIn(prefix, items[..|items| - 1]) + [ChangeIn(prefix, items[|items| - 1])]
  }

  function KeysIn(items: seq<Item>): seq<Bytes> {
    seq(|items|, i requires 0 <= i < |items| => items[i].key)
  }

  lemma PackOneLength(c: Change)
    ensures |PackOne(c)| == 8 + 1 + 4 + |c.key| + if KindOf(c) == 0 then 4 + |InlineOf(c)| else 0
  {
    hide LittleEndian;
  }

  lemma OneMore(prefix: nat, items: seq<Item>, n: nat)
    requires n < |items| && forall item :: item in items[..n + 1] ==> Readable(prefix, item)
    ensures items[n] in items[..n + 1] && forall item :: item in items[..n] ==> item in items[..n + 1]
    ensures ChangesIn(prefix, items[..n + 1]) == ChangesIn(prefix, items[..n]) + [ChangeIn(prefix, items[n])]
    ensures PackAll(ChangesIn(prefix, items[..n + 1])) ==
      PackAll(ChangesIn(prefix, items[..n])) + PackOne(ChangeIn(prefix, items[n]))
    ensures KeysIn(items[..n + 1]) == KeysIn(items[..n]) + [items[n].key]
  {
    hide PackOne, ChangeIn;
    var more, before := items[..n + 1], items[..n];
    assert more[..n] == before && more[n] == items[n];
    forall item | item in before ensures item in more {
      var i :| 0 <= i < n && before[i] == item;
      assert more[i] == item;
    }
    var cs := ChangesIn(prefix, before) + [ChangeIn(prefix, items[n])];
    assert cs[..n] == ChangesIn(prefix, before);
  }

  lemma NothingPacked(prefix: nat, items: seq<Item>)
    ensures items[..0] == [] && ChangesIn(prefix, []) == [] && PackAll([]) == [] && KeysIn([]) == []
  {
  }

  /** The first `n` entries can be read and make an input. */
  predicate FirstFit(prefix: nat, items: seq<Item>, batch: nat, maxInput: nat, n: nat) {
    n <= |items| && n <= batch && (forall item :: item in items[..n] ==> Readable(prefix, item)) &&
    (n > 0 ==> |Pack(ChangesIn(prefix, items[..n]))| <= maxInput)
  }

  /** The longest prefix of the queue that stays within the batch and the input limit is packed; packing
      fails at the first entry that cannot be read, and when not even one fits. */
  predicate Outcome(prefix: nat, items: seq<Item>, batch: nat, maxInput: nat, r: Packing) {
    match r
    case Packed(input, consume) =>
      var n := |consume|;
      FirstFit(prefix, items, batch, maxInput, n) &&
      input == Pack(ChangesIn(prefix, items[..n])) && consume == KeysIn(items[..n]) &&
      (n == |items| || n == batch || (n > 0 && Readable(prefix, items[n]) &&
        |Pack(ChangesIn(prefix, items[..n]))| + |PackOne(ChangeIn(prefix, items[n]))| > maxInput))
    case CorruptEvent =>
      exists n :: 0 <= n < |items| && n < batch && FirstFit(prefix, items, batch, maxInput, n) &&
        !Readable(prefix, items[n])
    case EventTooBig =>
      items != [] && batch > 0 && Readable(prefix, items[0]) &&
      4 + |PackOne(ChangeIn(prefix, items[0]))| > maxInput
  }

  method PackChanges(prefix: nat, items: seq<Item>, batch: nat, maxInput: nat) returns (r: Packing)
    ensures Outcome(prefix, items, batch, maxInput, r)
  {
    hide PackOne, LittleEndian, DecodeRecord, FromBigEndian, PackAll, ChangesIn, KeysIn;
    var input, consume: seq<Bytes> := [], [];
    ghost var n := 0;
    NothingPacked(prefix, items);
    while |consume| < |items|
      invariant n == |consume| <= |items| && n <= batch
      invariant forall item :: item in items[..n] ==> Readable(prefix, item)
      invariant input == PackAll(ChangesIn(prefix, items[..n])) && consume == KeysIn(items[..n])
      invariant n > 0 ==> 4 + |input| <= maxInput
    {
      if |consume| >= batch { break; }
      var item := items[|consume|];
      assert FirstFit(prefix, items, batch, maxInput, n);
      if |item.key| != prefix + 8 { return CorruptEvent; }
      var record := DecodeRecord(item.record);
      if record.None? { return CorruptEvent; }
      var c := Meaning(FromBigEndian(item.key[prefix..]), record.value);
      PackOneLength(c);
      var packed := 8 + 1 + 4 + |record.value.key| + if KindOf(c) == 0 then 4 + |InlineOf(c)| else 0;
      if 4 + |input| + packed > maxInput {
        if consume == [] { return EventTooBig; }
        break;
      }
      OneMore(prefix, items, n);
      input := input + PackOne(c);
      consume := consume + [item.key];
      n := n + 1;
    }
    r := Packed(LittleEndian(|consume|, 4) + input, consume);
  }

  /** The inline cap is chosen so that no captured change can exceed an invocation's input. */
  lemma CapturedChangesFit(op: BatchOp, at: SeqNo, inlineValue: nat, maxInput: nat, maxKey: nat)
    requires |op.key| <= maxKey && maxKey + 64 <= maxInput
    ensures 4 + |PackOne(ChangeOf(op, at, InlineCap(inlineValue, maxInput, maxKey)))| <= maxInput
  {
    PackOneLength(ChangeOf(op, at, InlineCap(inlineValue, maxInput, maxKey)));
  }

  function InlineCap(inlineValue: nat, maxInput: nat, maxKey: nat): nat {
    var room := if maxInput >= maxKey + 64 then maxInput - (maxKey + 64) else 0;
    if inlineValue <= room then inlineValue else room
  }

  // ---------------------------------------------------------------- keys-mode input

  function PackKey(k: Bytes): Bytes {
    Uvarint(|k|) + k
  }

  function PackKeys(ks: seq<Bytes>): Bytes {
    if ks == [] then [] else PackKeys(ks[..|ks| - 1]) + PackKey(ks[|ks| - 1])
  }

  function ParsedKeys(b: Bytes): Option<seq<Bytes>>
    decreases |b|
  {
    if b == [] then Some([])
    else
      var len := GuestUvarint(b, 0, 0);
      if len.None? || |len.value.rest| < len.value.value then None
      else
        RestShrinks(b, 0, 0);
        var more := ParsedKeys(len.value.rest[len.value.value..]);
        if more.None? then None else Some([len.value.rest[..len.value.value]] + more.value)
  }

  lemma {:induction false} RestShrinks(b: Bytes, shift: nat, low: nat)
    ensures var r := GuestUvarint(b, shift, low); r.Some? ==> |r.value.rest| < |b|
    decreases |b|
  {
    if b != [] && b[0] >= 128 && shift + 7 <= 63 {
      hide Pow2;
      RestShrinks(b[1..], shift + 7, low + (b[0] as nat % if shift == 63 then 2 else 128) * Pow2(shift));
    }
  }

  lemma {:induction false} PackKeysFront(ks: seq<Bytes>)
    requires ks != []
    ensures PackKeys(ks) == PackKey(ks[0]) + PackKeys(ks[1..])
  {
    hide PackKey;
    if |ks| == 1 {
      assert ks[..0] == [] && ks[1..] == [];
    } else {
      PackKeysFront(ks[..|ks| - 1]);
      assert ks[..|ks| - 1][1..] == ks[1..][..|ks| - 2];
      Assoc(PackKey(ks[0]), PackKeys(ks[1..][..|ks| - 2]), PackKey(ks[|ks| - 1]));
    }
  }

  /** The guest recovers exactly the touched keys the engine packed. */
  lemma {:induction false} ParseInvertsPackKeys(ks: seq<Bytes>)
    requires forall k :: k in ks ==> |k| < Pow2(64)
    ensures ParsedKeys(PackKeys(ks)) == Some(ks)
  {
    hide GuestUvarint, PackKey;
    if ks != [] {
      var k, more := ks[0], PackKeys(ks[1..]);
      PackKeysFront(ks);
      ParseInvertsPackKeys(ks[1..]);
      OneKey(k, more);
      assert ks == [k] + ks[1..];
    }
  }

  lemma OneKey(k: Bytes, more: Bytes)
    requires |k| < Pow2(64)
    ensures var b := PackKey(k) + more;
      b != [] && GuestUvarint(b, 0, 0) == Some(Numbered(|k|, k + more)) &&
      (k + more)[..|k|] == k && (k + more)[|k|..] == more
  {
    hide Uvarint, GuestUvarint, ReadUvarint;
    Assoc(Uvarint(|k|), k, more);
    assert |k| * Pow2(0) == |k|;
    UvarintRoundTrip(|k|, k + more, 0, 0);
  }

  method PackTouchedKeys(prefix: nat, queue: seq<Bytes>, batch: nat, maxInput: nat) returns (r: Packing)
    requires forall k :: k in queue ==> prefix <= |k|
    ensures r.Packed? ==> |r.consume| <= |queue| && r.consume == queue[..|r.consume|] && |r.consume| <= batch
    ensures r.Packed? ==>
      r.input == PackKeys(Stripped(prefix, r.consume)) && (r.consume != [] ==> |r.input| <= maxInput)
    ensures r.Packed? ==> (r.consume == queue || |r.consume| == batch ||
      (r.consume != [] && |r.input| + |PackKey(queue[|r.consume|][prefix..])| > maxInput))
    ensures !r.Packed? ==> r.EventTooBig? && queue != [] && batch > 0 && |PackKey(queue[0][prefix..])| > maxInput
  {
    hide Uvarint;
    var input, n := [], 0;
    while n < |queue|
      invariant 0 <= n <= |queue| && n <= batch
      invariant input == PackKeys(Stripped(prefix, queue[..n])) && (n > 0 ==> |input| <= maxInput)
    {
      if n >= batch { break; }
      var k := queue[n][prefix..];
      var hdr := PutUvarint([], |k|);
      assert [] + Uvarint(|k|) == Uvarint(|k|);
      if |input| + |hdr| + |k| > maxInput {
        if n == 0 { return EventTooBig; }
        break;
      }
      assert queue[..n + 1][..n] == queue[..n];
      var ks := Stripped(prefix, queue[..n + 1]);
      assert ks[..n] == Stripped(prefix, queue[..n]) && ks[n] == k;
      Assoc(input, hdr, k);
      input := input + hdr + k;
      n := n + 1;
    }
    assert n == |queue| ==> queue[..n] == queue;
    return Packed(input, queue[..n]);
  }

  function Stripped(prefix: nat, ks: seq<Bytes>): (r: seq<Bytes>)
    requires forall k :: k in ks ==> prefix <= |k|
    ensures |r| == |ks| && forall i :: 0 <= i < |ks| ==> r[i] == ks[i][prefix..]
  {
    seq(|ks|, i requires 0 <= i < |ks| => ks[i][prefix..])
  }

  /** The guest's keys-mode parser. */
  method ParseTriggerKeys(input: Bytes) returns (r: Option<seq<Bytes>>)
    ensures r == ParsedKeys(input)
  {
    hide GuestUvarint;
    var keys: seq<Bytes>, pos := [], 0;
    assert input[0..] == input;
    NoKeyYet(ParsedKeys(input));
    while pos < |input|
      invariant 0 <= pos <= |input|
      invariant ParsedKeys(input) == PrependKeys(keys, ParsedKeys(input[pos..]))
    {
      var len, next := LengthAt(input, pos);
      if len.None? || |input| - next < len.value { return None; }
      var rest, end := input[next..], next + len.value;
      assert rest[..len.value] == input[next..end] && rest[len.value..] == input[end..];
      PrependKey(keys, input[next..end], ParsedKeys(input[end..]));
      keys, pos := keys + [input[next..end]], end;
    }
    assert input[pos..] == [] && keys + [] == keys;
    return Some(keys);
  }

  /** Its inner loop, over the digits of a length. */
  method LengthAt(input: Bytes, pos: nat) returns (len: Option<nat>, next: nat)
    requires pos < |input|
    ensures len.Some? <==> GuestUvarint(input[pos..], 0, 0).Some?
    ensures len.Some? ==>
      pos < next <= |input| && GuestUvarint(input[pos..], 0, 0) == Some(Numbered(len.value, input[next..]))
  {
    hide Pow2;
    next := pos;
    var v: nat, shift: nat := 0, 0;
    while true
      invariant pos <= next <= |input| && shift <= 63
      invariant GuestUvarint(input[pos..], 0, 0) == GuestUvarint(input[next..], shift, v)
      decreases |input| - next
    {
      if next >= |input| { return None, pos; }
      var b := input[next] as nat;
      assert input[next..][1..] == input[next + 1..];
      next := next + 1;
      v := v + (b % if shift == 63 then 2 else 128) * Pow2(shift);
      if b < 128 { return Some(v), next; }
      shift := shift + 7;
      if shift > 63 { return None, pos; }
    }
  }

  lemma NoKeyYet(more: Option<seq<Bytes>>)
    ensures PrependKeys([], more) == more
  {
    if more.Some? { assert [] + more.value == more.value; }
  }

  function PrependKeys(done: seq<Bytes>, more: Option<seq<Bytes>>): Option<seq<Bytes>> {
    if more.None? then None else Some(done + more.value)
  }

  lemma PrependKey(done: seq<Bytes>, k: Bytes, more: Option<seq<Bytes>>)
    ensures PrependKeys(done + [k], more) == PrependKeys(done, if more.None? then None else Some([k] + more.value))
  {
    if more.Some? { Assoc(done, [k], more.value); }
  }
}
