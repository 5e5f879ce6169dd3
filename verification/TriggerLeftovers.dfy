/** Entries of the other mode in a trigger's queue: what a deletion that was cut short leaves to a new
 * trigger of the same name whose module consumes the queue in the other mode.
 */
module TriggerLeftovers {
  import opened Keys
  import opened Types
  import opened Coding
  import opened GroupCommit
  import opened TriggerCodec
  import opened TriggerQueue
  import opened TriggerFeed

  predicate UserKey(k: Bytes) {
    k != [] && !IsSystem(k)
  }

  predicate IsTouch(name: Bytes, touched: set<Bytes>, k: Bytes) {
    exists u :: u in touched && k == TouchKey(name, u)
  }

  /** A queue that holds these changes and these touched keys. */
  predicate Mixed(name: Bytes, q: map<Bytes, Bytes>, cs: seq<Change>, touched: set<Bytes>) {
    (forall k :: k in q ==> HasKey(name, cs, k) || (IsTouch(name, touched, k) && q[k] == [])) &&
    (forall i :: 0 <= i < |cs| ==> Listed(name, q, cs[i])) &&
    (forall u :: u in touched ==> UserKey(u) && TouchKey(name, u) in q)
  }

  lemma {:induction false} LeadingZero(v: nat, width: nat)
    requires v < Pow2(8 * width)
    ensures BigEndian(v, width + 1)[0] == 0
  {
    hide Pow2;
    if width == 0 {
      assert Pow2(0) == 1 by { PowZero(); }
      assert BigEndian(v, 1) == BigEndian(0, 0) + [0];
    } else {
      PowSplit(8 * (width - 1));
      LeadingZero(v / 256, width - 1);
      assert BigEndian(v, width + 1) == BigEndian(v / 256, width) + [(v % 256) as Byte];
    }
  }

  lemma PowZero()
    ensures Pow2(0) == 1
  {
  }

  lemma SeqnosStartWithZero(at: SeqNo)
    requires at <= MAX_SEQNO
    ensures BigEndian(at, 8)[0] == 0 && at < Pow2(64)
  {
    hide Pow2;
    Pow32();
    PowSplit(32);
    PowSplit(40);
    PowSplit(48);
    SmallSeqnos();
    LeadingZero(at, 7);
  }

  /** In a queue, every change comes before every touched key: seqnos are below 2^56, so their first
      byte is zero, and no user key starts with a zero. */
  lemma ChangesFirst(name: Bytes, at: SeqNo, u: Bytes)
    requires at <= MAX_SEQNO && UserKey(u)
    ensures Before(ChangeKey(name, at), TouchKey(name, u)) && !Before(TouchKey(name, u), ChangeKey(name, at))
    ensures ChangeKey(name, at) != TouchKey(name, u)
  {
    hide BigEndian, QueuePrefix;
    SeqnosStartWithZero(at);
    BeforeUnder(QueuePrefix(name), BigEndian(at, 8), u);
    BeforeUnder(QueuePrefix(name), u, BigEndian(at, 8));
    assert Before(BigEndian(at, 8), u) && !Before(u, BigEndian(at, 8));
  }

  lemma KindsApart(name: Bytes, cs: seq<Change>, touched: set<Bytes>, a: Bytes, b: Bytes)
    requires Rising(cs, MAX_SEQNO) && HasKey(name, cs, a) && IsTouch(name, touched, b)
    requires forall u :: u in touched ==> UserKey(u)
    ensures Before(a, b) && !Before(b, a) && a != b
  {
    hide ChangeKey, TouchKey, Before, Pow2;
    var i :| 0 <= i < |cs| && ChangeKey(name, cs[i].at) == a;
    var u :| u in touched && b == TouchKey(name, u);
    assert Within(cs[i], MAX_SEQNO);
    ChangesFirst(name, cs[i].at, u);
  }

  lemma {:induction false} ChangesThenTouches(name: Bytes, cs: seq<Change>, touched: set<Bytes>, ks: seq<Bytes>)
    returns (m: nat)
    requires Rising(cs, MAX_SEQNO) && Ascending(ks) && forall u :: u in touched ==> UserKey(u)
    requires forall i :: 0 <= i < |ks| ==> HasKey(name, cs, ks[i]) || IsTouch(name, touched, ks[i])
    ensures m <= |ks| && (forall i :: 0 <= i < m ==> HasKey(name, cs, ks[i]))
    ensures forall i :: m <= i < |ks| ==> IsTouch(name, touched, ks[i])
  {
    hide HasKey, IsTouch, Rising, Before;
    if ks == [] {
      m := 0;
    } else if HasKey(name, cs, ks[0]) {
      var n := ChangesThenTouches(name, cs, touched, ks[1..]);
      m := n + 1;
      assert forall i :: 1 <= i < |ks| ==> ks[i] == ks[1..][i - 1];
    } else {
      m := 0;
      forall i | 0 <= i < |ks| ensures IsTouch(name, touched, ks[i]) {
        if i > 0 && HasKey(name, cs, ks[i]) { KindsApart(name, cs, touched, ks[i], ks[0]); }
      }
    }
  }

  function ChangeEntries(name: Bytes, q: map<Bytes, Bytes>, cs: seq<Change>): map<Bytes, Bytes> {
    map k | k in q && HasKey(name, cs, k) :: q[k]
  }

  /** Iterating such a queue yields the changes, then the touched keys. */
  lemma MixedInOrder(name: Bytes, q: map<Bytes, Bytes>, cs: seq<Change>, touched: set<Bytes>, items: seq<Item>)
    requires Mixed(name, q, cs, touched) && Rising(cs, MAX_SEQNO) && Iterates(q, items)
    ensures |cs| <= |items| && (touched != {} ==> |cs| < |items|)
    ensures QueueIs(name, ChangeEntries(name, q, cs), cs) && Iterates(ChangeEntries(name, q, cs), items[..|cs|])
    ensures forall i :: |cs| <= i < |items| ==> items[i].record == []
  {
    hide ChangeKey, TouchKey, EncodeRecord, Before, Pow2, Rising, HasKey, IsTouch;
    var ks, q' := KeysIn(items), ChangeEntries(name, q, cs);
    var m := ChangesThenTouches(name, cs, touched, ks);
    EntriesAreQueue(name, q, cs, touched);
    forall i | m <= i < |items| ensures !HasKey(name, cs, ks[i]) && items[i].record == [] {
      if HasKey(name, cs, ks[i]) { KindsApart(name, cs, touched, ks[i], ks[i]); }
      assert items[i].key == ks[i];
    }
    var front := KeysIn(items[..m]);
    assert front == ks[..m];
    forall k | k in q' ensures k in front {
      var i :| 0 <= i < |ks| && ks[i] == k;
      assert front[i] == k;
    }
    forall i | 0 <= i < m ensures items[..m][i].key in q' && items[..m][i].record == q'[items[..m][i].key] {
      assert items[..m][i] == items[i] && items[i].key == ks[i];
    }
    assert forall i, j :: 0 <= i < j < m ==> Before(ks[i], ks[j]);
    assert Iterates(q', items[..m]);
    IteratedInOrder(name, q', cs, MAX_SEQNO, items[..m]);
    if u :| u in touched { TouchIsListed(name, q, cs, touched, u, ks, m); }
  }

  lemma TouchIsListed(name: Bytes, q: map<Bytes, Bytes>, cs: seq<Change>, touched: set<Bytes>, u: Bytes, ks: seq<Bytes>,
                      m: nat)
    requires Mixed(name, q, cs, touched) && Rising(cs, MAX_SEQNO) && u in touched && m <= |ks|
    requires (forall k :: k in q ==> k in ks) && forall i :: 0 <= i < m ==> HasKey(name, cs, ks[i])
    ensures m < |ks|
  {
    hide ChangeKey, TouchKey, Before, Pow2, Rising, HasKey;
    var k := TouchKey(name, u);
    assert IsTouch(name, touched, k) && k in ks;
    var i :| 0 <= i < |ks| && ks[i] == k;
    if i < m { KindsApart(name, cs, touched, k, k); }
  }

  lemma EntriesAreQueue(name: Bytes, q: map<Bytes, Bytes>, cs: seq<Change>, touched: set<Bytes>)
    requires Mixed(name, q, cs, touched)
    ensures QueueIs(name, ChangeEntries(name, q, cs), cs)
  {
    hide ChangeKey, EncodeRecord;
    forall i | 0 <= i < |cs| ensures Listed(name, ChangeEntries(name, q, cs), cs[i]) {
      assert Listed(name, q, cs[i]);
      assert HasKey(name, cs, ChangeKey(name, cs[i].at));
    }
  }

  lemma {:induction false} PackedPrefix(cs: seq<Change>, n: nat)
    requires n <= |cs|
    ensures |TriggerCodec.Pack(cs[..n])| <= |TriggerCodec.Pack(cs)|
    ensures n < |cs| ==> |TriggerCodec.Pack(cs[..n])| + |PackOne(cs[n])| <= |TriggerCodec.Pack(cs)|
  {
    hide PackOne, LittleEndian;
    if n < |cs| {
      PackedPrefix(cs[..|cs| - 1], n);
      assert cs[..|cs| - 1][..n] == cs[..n];
    } else {
      assert cs[..n] == cs;
    }
  }

  /** What can be read of such a queue is its changes: the first `n` entries are the first `n` changes,
      and the entry behind the last change cannot be read. */
  lemma MixedIsRead(name: Bytes, q: map<Bytes, Bytes>, cs: seq<Change>, touched: set<Bytes>, items: seq<Item>, n: nat)
    requires Mixed(name, q, cs, touched) && Rising(cs, MAX_SEQNO) && Iterates(q, items) && n <= |items|
    ensures |cs| <= |items| && (touched != {} ==> |cs| < |items|)
    ensures (forall item :: item in items[..n] ==> Readable(|QueuePrefix(name)|, item)) <==> n <= |cs|
    ensures n <= |cs| ==> ChangesIn(|QueuePrefix(name)|, items[..n]) == cs[..n]
    ensures n <= |cs| ==> KeysIn(items[..n]) == ChangeKeys(name, cs[..n])
    ensures n < |items| ==> (Readable(|QueuePrefix(name)|, items[n]) <==> n < |cs|)
    ensures n < |cs| ==> ChangeIn(|QueuePrefix(name)|, items[n]) == cs[n]
  {
    hide ChangeKey, EncodeRecord, Before, Pow2, Rising, Mixed, QueueIs, Iterates, ChangesIn, ChangeIn, QueuePrefix;
    MixedInOrder(name, q, cs, touched, items);
    var prefix, q', front := |QueuePrefix(name)|, ChangeEntries(name, q, cs), items[..|cs|];
    IteratedInOrder(name, q', cs, MAX_SEQNO, front);
    if n <= |cs| {
      assert front[..n] == items[..n];
      IteratedChanges(name, q', cs, MAX_SEQNO, front, n);
      if n < |cs| {
        IteratedChanges(name, q', cs, MAX_SEQNO, front, n + 1);
        OneMore(prefix, front, n);
        assert front[..n + 1][n] == items[n];
        assert cs[..n + 1][n] == cs[n];
      }
    } else {
      var item := items[|cs|];
      assert items[..n][|cs|] == item && item in items[..n] && !Readable(prefix, item);
    }
  }

  /** A changes-mode trigger created over touched keys of a keys-mode one delivers only changes, and its
      drain fails exactly when the whole backlog of changes fits one invocation with room in the batch:
      the feed stalls short of a full batch, until enough further changes arrive. */
  lemma TouchesStallTheFeed(name: Bytes, q: map<Bytes, Bytes>, cs: seq<Change>, touched: set<Bytes>, items: seq<Item>,
                            batch: nat, maxInput: nat, r: Packing)
    requires Mixed(name, q, cs, touched) && touched != {} && Rising(cs, MAX_SEQNO) && Iterates(q, items)
    requires Outcome(|QueuePrefix(name)|, items, batch, maxInput, r)
    ensures r.Packed? ==> |r.consume| <= |cs| && r.input == TriggerCodec.Pack(cs[..|r.consume|]) &&
                          r.consume == ChangeKeys(name, cs[..|r.consume|])
    ensures r.CorruptEvent? <==> |cs| < batch && (cs == [] || |TriggerCodec.Pack(cs)| <= maxInput)
  {
    hide ChangeKeys, Rising, Mixed, Iterates, PackOne, TriggerCodec.Pack, ChangesIn, ChangeIn, QueuePrefix, Readable,
         KeysIn;
    match r
    case CorruptEvent =>
      var n :| 0 <= n < |items| && n < batch && FirstFit(|QueuePrefix(name)|, items, batch, maxInput, n) &&
        !Readable(|QueuePrefix(name)|, items[n]);
      MixedIsRead(name, q, cs, touched, items, n);
      assert n == |cs| && cs[..n] == cs;
    case Packed(_, consume) =>
      MixedIsRead(name, q, cs, touched, items, |consume|);
      PackedPrefix(cs, |consume|);
      assert |consume| == |cs| ==> cs[..|consume|] == cs;
    case EventTooBig =>
      MixedIsRead(name, q, cs, touched, items, 0);
      PackedPrefix(cs, 0);
      EmptyPack();
      assert cs[..0] == [];
  }

  lemma EmptyPack()
    ensures |TriggerCodec.Pack([])| == 4
  {
    hide LittleEndian;
  }

  /** The other way round, a keys-mode trigger created over changes hands its module their seqnos for
      touched keys: eight bytes that start with a zero, which no user key does. */
  lemma SeqnosReadAsKeys(name: Bytes, q: map<Bytes, Bytes>, cs: seq<Change>, items: seq<Item>, i: nat)
    requires QueueIs(name, q, cs) && Rising(cs, MAX_SEQNO) && Iterates(q, items) && i < |items|
    ensures |items| == |cs| && items[i].key == TouchKey(name, BigEndian(cs[i].at, 8))
    ensures !UserKey(BigEndian(cs[i].at, 8))
  {
    hide BigEndian, QueuePrefix, EncodeRecord, Pow2;
    IteratedInOrder(name, q, cs, MAX_SEQNO, items);
    assert Within(cs[i], MAX_SEQNO);
    SeqnosStartWithZero(cs[i].at);
  }
}
