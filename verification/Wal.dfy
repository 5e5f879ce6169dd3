/** Write-ahead log files: framed records, read back up to the first byte that does not belong. */
module Wal {
  import opened Keys
  import opened Types
  import opened Coding

  const HEADER_LEN := 8

  const MAX_RECORD := 0x4000_0000

  type Checksum = Bytes -> nat

  /** A 32-bit checksum; nothing else is known of it. */
  ghost predicate IsChecksum(crc: Checksum) {
    forall p :: crc(p) < 0x1_0000_0000
  }

  function Frame(crc: Checksum, p: Bytes): Bytes {
    LittleEndian(|p|, 4) + LittleEndian(crc(p), 4) + p
  }

  function Frames(crc: Checksum, ps: seq<Bytes>): Bytes {
    if ps == [] then [] else Frame(crc, ps[0]) + Frames(crc, ps[1..])
  }

  /** The length of the record at `pos`, if a whole valid one is there. */
  function RecordAt(crc: Checksum, buf: Bytes, pos: nat): Option<nat>
    requires pos <= |buf|
  {
    if |buf| - pos < HEADER_LEN then None
    else
      var len := FromLittleEndian(buf[pos..pos + 4]);
      var sum := FromLittleEndian(buf[pos + 4..pos + 8]);
      if len == 0 && sum == 0 then None
      else if len > MAX_RECORD || |buf| - pos - HEADER_LEN < len then None
      else if crc(buf[pos + HEADER_LEN..pos + HEADER_LEN + len]) != sum then None
      else Some(len)
  }

  /** What a reader makes of a file: its records, and where the valid prefix ends. */
  datatype Contents = Contents(records: seq<Bytes>, validLen: nat, clean: bool)

  function ReadFrom(crc: Checksum, buf: Bytes, pos: nat): (c: Contents)
    requires pos <= |buf|
    ensures pos <= c.validLen <= |buf| && (c.clean <==> c.validLen == |buf|)
    decreases |buf| - pos
  {
    if pos == |buf| then Contents([], pos, true)
    else
      var r := RecordAt(crc, buf, pos);
      if r.None? then Contents([], pos, false)
      else
        var end := pos + HEADER_LEN + r.value;
        var rest := ReadFrom(crc, buf, end);
        Contents([buf[pos + HEADER_LEN..end]] + rest.records, rest.validLen, rest.clean)
  }

  lemma ReadStep(crc: Checksum, buf: Bytes, pos: nat, len: nat)
    requires pos <= |buf| && RecordAt(crc, buf, pos) == Some(len)
    ensures pos + HEADER_LEN + len <= |buf|
    ensures var rest := ReadFrom(crc, buf, pos + HEADER_LEN + len);
      ReadFrom(crc, buf, pos) ==
        Contents([buf[pos + HEADER_LEN..pos + HEADER_LEN + len]] + rest.records, rest.validLen, rest.clean)
  {
    hide FromLittleEndian;
  }

  lemma ReadEnd(crc: Checksum, buf: Bytes, pos: nat)
    requires pos <= |buf| && (pos < |buf| ==> RecordAt(crc, buf, pos).None?)
    ensures ReadFrom(crc, buf, pos) == Contents([], pos, pos == |buf|)
  {
  }

  method ReadWal(crc: Checksum, buf: Bytes) returns (c: Contents)
    ensures c == ReadFrom(crc, buf, 0)
  {
    hide FromLittleEndian, ReadFrom;
    var records, pos, torn := [], 0, false;
    while |buf| - pos > 0 && !torn
      invariant 0 <= pos <= |buf| && (torn ==> pos < |buf| && RecordAt(crc, buf, pos).None?)
      invariant var rest := ReadFrom(crc, buf, pos);
        ReadFrom(crc, buf, 0) == Contents(records + rest.records, rest.validLen, rest.clean)
      decreases |buf| - pos, !torn
    {
      if |buf| - pos < HEADER_LEN {
        torn := true;
      } else {
        var len := FromLittleEndian(buf[pos..pos + 4]);
        var sum := FromLittleEndian(buf[pos + 4..pos + 8]);
        if len == 0 && sum == 0 {
          torn := true;
        } else if len > MAX_RECORD || |buf| - pos - HEADER_LEN < len {
          torn := true;
        } else {
          var payload := buf[pos + HEADER_LEN..pos + HEADER_LEN + len];
          if crc(payload) != sum {
            torn := true;
          } else {
            ReadStep(crc, buf, pos, len);
            Shift(records, payload, ReadFrom(crc, buf, pos + HEADER_LEN + len).records);
            records := records + [payload];
            pos := pos + HEADER_LEN + len;
          }
        }
      }
    }
    ReadEnd(crc, buf, pos);
    assert records + [] == records;
    c := Contents(records, pos, !torn);
  }

  lemma Shift<T>(a: seq<T>, x: T, b: seq<T>)
    ensures a + ([x] + b) == a + [x] + b
  {
  }

  /** What the write path appends: never empty, never over the limit. */
  predicate Writable(p: Bytes) {
    0 < |p| <= MAX_RECORD
  }

  /** A whole frame reads back as its payload, wherever it stands and whatever follows it. */
  lemma FrameReads(crc: Checksum, buf: Bytes, pos: nat, p: Bytes)
    requires IsChecksum(crc) && Writable(p) && pos <= |buf| && Frame(crc, p) <= buf[pos..]
    ensures |Frame(crc, p)| == HEADER_LEN + |p| <= |buf| - pos
    ensures RecordAt(crc, buf, pos) == Some(|p|) && buf[pos + HEADER_LEN..pos + HEADER_LEN + |p|] == p
  {
    hide FromLittleEndian, LittleEndian;
    Pow32();
    LittleEndianRoundTrip(|p|, 4);
    LittleEndianRoundTrip(crc(p), 4);
    var f := buf[pos..];
    assert f[..HEADER_LEN + |p|] == Frame(crc, p);
    assert buf[pos..pos + 4] == f[..4] == LittleEndian(|p|, 4);
    assert buf[pos + 4..pos + 8] == f[4..8] == LittleEndian(crc(p), 4);
    assert buf[pos + 8..pos + 8 + |p|] == f[8..8 + |p|] == p;
  }

  /** Appending a record appends its frame. */
  lemma {:induction false} FramesSnoc(crc: Checksum, ps: seq<Bytes>, p: Bytes)
    ensures Frames(crc, ps + [p]) == Frames(crc, ps) + Frame(crc, p)
  {
    hide Frame;
    if ps == [] {
      assert [] + [p] == [p];
    } else {
      FramesSnoc(crc, ps[1..], p);
      assert (ps + [p])[1..] == ps[1..] + [p];
    }
  }

  predicate AllWritable(ps: seq<Bytes>) {
    forall i :: 0 <= i < |ps| ==> Writable(ps[i])
  }

  /** The reader finds exactly the records written, and then judges what follows them. */
  lemma {:induction false} ReadsWhatWasWritten(crc: Checksum, buf: Bytes, pos: nat, ps: seq<Bytes>)
    requires IsChecksum(crc) && AllWritable(ps) && pos <= |buf| && Frames(crc, ps) <= buf[pos..]
    ensures var rest := ReadFrom(crc, buf, pos + |Frames(crc, ps)|);
      ReadFrom(crc, buf, pos) == Contents(ps + rest.records, rest.validLen, rest.clean)
    decreases |ps|
  {
    hide Frame, RecordAt, ReadFrom;
    if ps == [] {
      assert ps + ReadFrom(crc, buf, pos).records == ReadFrom(crc, buf, pos).records;
    } else {
      var p, tail := ps[0], ps[1..];
      Prefixes(Frame(crc, p), Frames(crc, tail), buf, pos);
      FrameReads(crc, buf, pos, p);
      ReadStep(crc, buf, pos, |p|);
      var end := pos + HEADER_LEN + |p|;
      ReadsWhatWasWritten(crc, buf, end, tail);
      ConsAppend(ps, ReadFrom(crc, buf, end + |Frames(crc, tail)|).records);
    }
  }

  lemma Prefixes(a: Bytes, b: Bytes, buf: Bytes, pos: nat)
    requires pos <= |buf| && a + b <= buf[pos..]
    ensures a <= buf[pos..] && pos + |a| + |b| <= |buf| && b <= buf[pos + |a|..]
  {
    assert a == (a + b)[..|a|] && b == (a + b)[|a|..];
    assert buf[pos + |a|..] == buf[pos..][|a|..];
  }

  lemma ConsAppend<T>(a: seq<T>, b: seq<T>)
    requires a != []
    ensures [a[0]] + (a[1..] + b) == a + b
  {
  }

  /** Bytes that no record starts with. */
  predicate Garbage(crc: Checksum, pre: Bytes, g: Bytes) {
    g != [] && RecordAt(crc, pre + g, |pre|).None?
  }

  /** The file's records, followed by nothing or by garbage: exactly the records, and the tail is
      torn exactly when there is garbage. */
  lemma FileReads(crc: Checksum, ps: seq<Bytes>, g: Bytes)
    requires IsChecksum(crc) && AllWritable(ps) && (g != [] ==> Garbage(crc, Frames(crc, ps), g))
    ensures ReadFrom(crc, Frames(crc, ps) + g, 0) == Contents(ps, |Frames(crc, ps)|, g == [])
  {
    assert (Frames(crc, ps) + g)[0..] == Frames(crc, ps) + g;
    ReadsWhatWasWritten(crc, Frames(crc, ps) + g, 0, ps);
    assert ps + [] == ps;
  }

  /** A frame cut short by a crash is garbage, whatever the checksum. */
  lemma CutFrameIsGarbage(crc: Checksum, pre: Bytes, p: Bytes, n: nat)
    requires IsChecksum(crc) && Writable(p) && 0 < n < HEADER_LEN + |p|
    ensures |Frame(crc, p)| == HEADER_LEN + |p| && Garbage(crc, pre, Frame(crc, p)[..n])
  {
    hide FromLittleEndian, LittleEndian;
    var g := Frame(crc, p)[..n];
    if n >= HEADER_LEN {
      Pow32();
      LittleEndianRoundTrip(|p|, 4);
      assert g[..4] == Frame(crc, p)[..4] == LittleEndian(|p|, 4);
      assert (pre + g)[|pre|..|pre| + 4] == g[..4];
    }
  }

  /** So is a region the file system filled with zeros. */
  lemma {:induction false} ZerosAreGarbage(crc: Checksum, pre: Bytes, g: Bytes)
    requires g != [] && forall i :: 0 <= i < |g| ==> g[i] == 0
    ensures Garbage(crc, pre, g)
  {
    if |g| >= HEADER_LEN {
      var buf := pre + g;
      assert buf[|pre|..|pre| + 4] == [0, 0, 0, 0] && buf[|pre| + 4..|pre| + 8] == [0, 0, 0, 0];
      ZeroDigits([0, 0, 0, 0]);
    }
  }

  lemma {:induction false} ZeroDigits(b: Bytes)
    requires forall i :: 0 <= i < |b| ==> b[i] == 0
    ensures FromLittleEndian(b) == 0
  {
    if b != [] { ZeroDigits(b[1..]); }
  }

  /** Where a byte cut of a file falls: after some whole frames, and a partial one or nothing. */
  lemma {:induction false} CutPoint(crc: Checksum, ps: seq<Bytes>, n: nat) returns (k: nat)
    requires IsChecksum(crc) && AllWritable(ps) && n <= |Frames(crc, ps)|
    ensures k <= |ps| && |Frames(crc, ps[..k])| <= n
    ensures k < |ps| ==> n - |Frames(crc, ps[..k])| < |Frame(crc, ps[k])|
    ensures Frames(crc, ps)[..n] ==
      Frames(crc, ps[..k]) + (if k < |ps| then Frame(crc, ps[k])[..n - |Frames(crc, ps[..k])|] else [])
  {
    hide Frame;
    if ps == [] {
      k := 0;
    } else if n < |Frame(crc, ps[0])| {
      k := 0;
      assert Frames(crc, ps)[..n] == Frame(crc, ps[0])[..n];
    } else {
      var m := n - |Frame(crc, ps[0])|;
      var k' := CutPoint(crc, ps[1..], m);
      k := k' + 1;
      assert ps[..k][1..] == ps[1..][..k'];
      assert Frames(crc, ps)[..n] == Frame(crc, ps[0]) + Frames(crc, ps[1..])[..m];
    }
  }

  /** A file cut at any byte reads as its whole frames, and its tail is torn unless the cut falls on
      a frame boundary: a torn append is never mistaken for a record. */
  lemma CutReads(crc: Checksum, ps: seq<Bytes>, n: nat) returns (k: nat)
    requires IsChecksum(crc) && AllWritable(ps) && n <= |Frames(crc, ps)|
    ensures k <= |ps| && |Frames(crc, ps[..k])| <= n
    ensures ReadFrom(crc, Frames(crc, ps)[..n], 0) ==
      Contents(ps[..k], |Frames(crc, ps[..k])|, n == |Frames(crc, ps[..k])|)
    ensures k < |ps| ==> n - |Frames(crc, ps[..k])| < |Frame(crc, ps[k])|
  {
    hide Frame, ReadFrom, Frames, RecordAt;
    k := CutPoint(crc, ps, n);
    var r := n - |Frames(crc, ps[..k])|;
    if r == 0 {
      FileReads(crc, ps[..k], []);
      assert Frames(crc, ps)[..n] == Frames(crc, ps[..k]) + [];
    } else {
      assert k < |ps|;
      FrameLength(crc, ps[k]);
      CutFrameIsGarbage(crc, Frames(crc, ps[..k]), ps[k], r);
      FileReads(crc, ps[..k], Frame(crc, ps[k])[..r]);
    }
  }

  lemma RecordInCut(crc: Checksum, buf: Bytes, n: nat, pos: nat)
    requires pos <= n <= |buf| && RecordAt(crc, buf[..n], pos).Some?
    ensures RecordAt(crc, buf, pos) == RecordAt(crc, buf[..n], pos)
    ensures pos + HEADER_LEN + RecordAt(crc, buf, pos).value <= n
  {
    hide FromLittleEndian;
    var cut, len := buf[..n], RecordAt(crc, buf[..n], pos).value;
    assert cut[pos..pos + 4] == buf[pos..pos + 4] && cut[pos + 4..pos + 8] == buf[pos + 4..pos + 8];
    assert cut[pos + HEADER_LEN..pos + HEADER_LEN + len] == buf[pos + HEADER_LEN..pos + HEADER_LEN + len];
  }

  /** Whatever a file reads as, cut at any byte it reads as a prefix of that. */
  lemma {:induction false} CutReadsPrefix(crc: Checksum, buf: Bytes, n: nat, pos: nat)
    requires pos <= n <= |buf|
    ensures ReadFrom(crc, buf[..n], pos).records <= ReadFrom(crc, buf, pos).records
    decreases n - pos
  {
    hide RecordAt, ReadFrom;
    var cut := buf[..n];
    if pos < n && RecordAt(crc, cut, pos).Some? {
      RecordInCut(crc, buf, n, pos);
      var end := pos + HEADER_LEN + RecordAt(crc, buf, pos).value;
      ReadStep(crc, cut, pos, RecordAt(crc, buf, pos).value);
      ReadStep(crc, buf, pos, RecordAt(crc, buf, pos).value);
      CutReadsPrefix(crc, buf, n, end);
      assert cut[pos + HEADER_LEN..end] == buf[pos + HEADER_LEN..end];
    } else {
      ReadEnd(crc, cut, pos);
    }
  }

  lemma FrameLength(crc: Checksum, p: Bytes)
    ensures |Frame(crc, p)| == HEADER_LEN + |p|
  {
  }

  /** Truncating to the valid prefix leaves the same records in a clean file. */
  lemma {:induction false} TruncatedIsClean(crc: Checksum, buf: Bytes, pos: nat)
    requires pos <= |buf|
    ensures var c := ReadFrom(crc, buf, pos);
      ReadFrom(crc, buf[..c.validLen], pos) == Contents(c.records, c.validLen, true)
    decreases |buf| - pos
  {
    hide FromLittleEndian;
    if pos < |buf| {
      var r := RecordAt(crc, buf, pos);
      if r.Some? {
        var end := pos + HEADER_LEN + r.value;
        TruncatedIsClean(crc, buf, end);
        var cut := buf[..ReadFrom(crc, buf, pos).validLen];
        assert cut[pos..pos + 4] == buf[pos..pos + 4] && cut[pos + 4..pos + 8] == buf[pos + 4..pos + 8];
        assert cut[pos + HEADER_LEN..end] == buf[pos + HEADER_LEN..end];
      }
    }
  }
}
