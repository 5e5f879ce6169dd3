/** The GraphQL subscription pump: every streamed change travels with a snapshot at its commit
 * boundary, and a rolling hold keeps the next boundary grantable.
 */
module Pump {
  import opened Types
  import opened History
  import opened Engine
  import opened Invariance
  import opened GarbageCollection
  import opened Guarantees
  import Streams

  type Entry = Streams.Entry

  /** What the consumer gets: a change, and the seqno of the snapshot it can read at. */
  datatype Item = Item(entry: Entry, snap: SeqNo)

  /** Feed surfaces drop deletes. */
  predicate Shown(putsOnly: bool, e: Entry) {
    !(putsOnly && e.op.Delete?)
  }

  /** The items due for some entries: each at its own commit boundary. */
  function Due(putsOnly: bool, es: seq<Entry>): seq<Item> {
    if es == [] then []
    else
      var e := es[|es| - 1];
      Due(putsOnly, es[..|es| - 1]) + if Shown(putsOnly, e) then [Item(e, e.commit)] else []
  }

  function One(s: Option<SeqNo>): multiset<SeqNo> {
    if s.Some? then multiset{s.value} else multiset{}
  }

  /** Where the commits a subscription has seen so far end. */
  function Reached(start: SeqNo, commits: seq<Log>): SeqNo {
    start + |Streams.Ops(commits)|
  }

  predicate Between(lo: SeqNo, es: seq<Entry>, hi: SeqNo) {
    forall i :: 0 <= i < |es| ==> lo < es[i].at <= es[i].commit <= hi
  }

  lemma {:induction false} OpsConcat(a: seq<Log>, b: seq<Log>)
    ensures Streams.Ops(a + b) == Streams.Ops(a) + Streams.Ops(b)
  {
    if b == [] {
      assert a + b == a;
    } else {
      OpsConcat(a, b[..|b| - 1]);
      assert (a + b)[..|a + b| - 1] == a + b[..|b| - 1];
    }
  }

  /** The entries queued since a whole number of commits lie beyond those commits. */
  lemma {:induction false} QueuedBeyond(s: Streams.Scope, start: SeqNo, commits: seq<Log>, served: nat)
    requires served <= |commits|
    ensures Streams.Expected(s, start, commits[..served]) <= Streams.Expected(s, start, commits)
    ensures var done := Streams.Expected(s, start, commits[..served]);
      Between(Reached(start, commits[..served]), Streams.Expected(s, start, commits)[|done|..], Reached(start, commits))
  {
    hide Streams.Selected;
    if served == |commits| {
      assert commits[..served] == commits;
    } else {
      var before, last := commits[..|commits| - 1], commits[|commits| - 1];
      QueuedBeyond(s, start, before, served);
      assert before[..served] == commits[..served];
      var done, more := Streams.Expected(s, start, commits[..served]), Streams.Expected(s, start, before);
      var picked := Streams.Selected(s, Reached(start, before) + 1, last, |last|);
      Streams.SelectedAscends(s, Reached(start, before) + 1, last, |last|);
      assert (more + picked)[|done|..] == more[|done|..] + picked;
      Streams.OpsPrefix(before, served);
    }
  }

  // ---------------------------------------------------------------- what the engine grants

  /** One event of the engine, from a state that satisfies its invariant. */
  function Step(st: State, e: Event, opts: Tree.Options): State
    requires Ready(st, e, opts)
  {
    Next(st, e, opts)
  }

  /** Registrations that are not pins. */
  function Loose(st: State): multiset<SeqNo> {
    st.snaps - st.pins
  }

  lemma OneMoreLoose(snaps: multiset<SeqNo>, pins: multiset<SeqNo>, s: SeqNo)
    requires pins <= snaps
    ensures snaps + multiset{s} - pins == snaps - pins + multiset{s}
    ensures s in snaps - pins ==> snaps - multiset{s} - pins == snaps - pins - multiset{s}
  {
  }

  lemma RegisterStep(st: State, s: SeqNo, opts: Tree.Options)
    requires Ready(st, Register(s), opts)
    ensures var st' := Step(st, Register(s), opts);
      Inv(st') && st'.log == st.log && Loose(st') == Loose(st) + multiset{s} && s in st'.snaps
  {
    hide InvValues, InvTree, InvStack;
    NextKeeps(st, Register(s), opts);
    OneMoreLoose(st.snaps, st.pins, s);
  }

  /** A held seqno makes every committed one above it grantable. */
  lemma Grantable(st: State, held: SeqNo, s: SeqNo, opts: Tree.Options)
    requires Inv(st) && held in Loose(st) && held <= s <= |st.log|
    ensures TryRegister(st, s).Granted? && Ready(st, Register(s), opts)
    ensures var st' := Step(st, Register(s), opts);
      Inv(st') && st'.log == st.log && Loose(st') == Loose(st) + multiset{s} && s in st'.snaps
  {
    hide Inv, TryRegister, Enabled;
    GrantsAreSound(st, s, opts);
    RegisterStep(st, s, opts);
  }

  lemma ReleaseStep(st: State, s: SeqNo, opts: Tree.Options)
    requires Inv(st) && s in Loose(st)
    ensures Ready(st, Deregister(s), opts)
    ensures var st' := Step(st, Deregister(s), opts);
      Inv(st') && st'.log == st.log && Loose(st') == Loose(st) - multiset{s}
  {
    hide InvValues, InvTree, InvStack;
    NextKeeps(st, Deregister(s), opts);
    OneMoreLoose(st.snaps, st.pins, s);
  }

  lemma OutsideStep(st: State, e: Event, opts: Tree.Options)
    requires Ready(st, e, opts) && !IsCrash(e)
    ensures Inv(Step(st, e, opts)) && st.log <= Step(st, e, opts).log
  {
    hide InvValues, InvTree, InvStack;
    NextKeeps(st, e, opts);
  }

  /** Subscribing registers the visible seqno. */
  lemma SubscribeStep(st: State, opts: Tree.Options)
    requires Inv(st)
    ensures Ready(st, Register(|st.log|), opts)
    ensures var st' := Step(st, Register(|st.log|), opts);
      Inv(st') && st'.log == st.log && Loose(st') == Loose(st) + multiset{|st.log|}
  {
    hide Inv, Enabled;
    RegistrationSites(st, opts, 0, 0);
    RegisterStep(st, |st.log|, opts);
  }

  // ---------------------------------------------------------------- the pump's own state

  /** What a pump has in hand: how many commits were received, the stream's pin, the rolling hold,
      the batch with the boundary of its last entry, and the commit snapshot last taken. */
  datatype Hand = Hand(
    served: nat, pinned: SeqNo, hold: Option<SeqNo>,
    batch: seq<Entry>, tail: SeqNo, rolling: bool, commit: Option<SeqNo>)

  /** What the pump itself keeps registered. */
  function Owned(p: Hand): multiset<SeqNo> {
    multiset{p.pinned} + One(p.hold) + One(p.commit)
  }

  /** The commits offered are the history since the start, and what was received of them was sent. */
  predicate Feeding(s: Streams.Scope, putsOnly: bool, start: SeqNo, log: Log, offered: seq<Log>, p: Hand,
                    received: seq<Entry>, sent: seq<Item>)
  {
    p.served <= |offered| && Reached(start, offered) <= |log| &&
    log[start..Reached(start, offered)] == Streams.Ops(offered) &&
    received + p.batch == Streams.Expected(s, start, offered[..p.served]) && sent == Due(putsOnly, received)
  }

  /** The hold is at or below every boundary still to be asked for. */
  predicate Holding(start: SeqNo, reached: SeqNo, visible: SeqNo, p: Hand) {
    start <= p.pinned <= reached <= visible &&
    (p.hold.None? ==> p.batch == [] && !p.rolling && p.commit.None? && p.pinned == start) &&
    (p.hold.Some? ==> p.hold.value <= reached && Between(p.hold.value, p.batch, reached)) &&
    (p.hold.Some? && p.rolling ==> p.hold.value <= p.tail <= reached) &&
    (!p.rolling ==> p.batch == []) && (p.commit.Some? ==> p.commit.value <= reached)
  }

  function ReachedBy(start: SeqNo, offered: seq<Log>, p: Hand): SeqNo {
    Reached(start, if p.served <= |offered| then offered[..p.served] else offered)
  }

  lemma FeedingLater(s: Streams.Scope, putsOnly: bool, start: SeqNo, log: Log, log': Log, offered: seq<Log>, p: Hand,
                     received: seq<Entry>, sent: seq<Item>)
    requires Feeding(s, putsOnly, start, log, offered, p, received, sent) && log <= log'
    ensures Feeding(s, putsOnly, start, log', offered, p, received, sent)
  {
    hide Due, Streams.Expected, Streams.Ops;
    assert log'[start..Reached(start, offered)] == log[start..Reached(start, offered)];
  }

  lemma FeedingMore(s: Streams.Scope, putsOnly: bool, start: SeqNo, log: Log, offered: seq<Log>, p: Hand,
                    received: seq<Entry>, sent: seq<Item>, ws: Log)
    requires Feeding(s, putsOnly, start, log, offered, p, received, sent)
    requires Reached(start, offered) + |ws| <= |log| &&
      log[Reached(start, offered)..Reached(start, offered) + |ws|] == ws
    ensures Feeding(s, putsOnly, start, log, offered + [ws], p, received, sent)
    ensures ReachedBy(start, offered + [ws], p) == ReachedBy(start, offered, p)
  {
    hide Due, Streams.Expected, Streams.Ops;
    OpsConcat(offered, [ws]);
    OneCommit(ws);
    var reached := Reached(start, offered);
    assert log[start..reached + |ws|] == log[start..reached] + log[reached..reached + |ws|];
    assert (offered + [ws])[..p.served] == offered[..p.served];
  }

  /** Taking all that is queued. */
  lemma Refilled(s: Streams.Scope, putsOnly: bool, start: SeqNo, log: Log, offered: seq<Log>, p: Hand,
                 received: seq<Entry>, sent: seq<Item>) returns (queued: seq<Entry>)
    requires Feeding(s, putsOnly, start, log, offered, p, received, sent) && p.batch == []
    requires Holding(start, ReachedBy(start, offered, p), |log|, p) && p.hold.Some?
    ensures received + queued == Streams.Expected(s, start, offered) && queued == Queued(s, start, offered, p.served)
    ensures Between(ReachedBy(start, offered, p), queued, Reached(start, offered)) && Reached(start, offered) <= |log|
    ensures ReachedBy(start, offered, p) <= Reached(start, offered)
    ensures forall p': Hand :: p'.served == |offered| ==> ReachedBy(start, offered, p') == Reached(start, offered)
    ensures forall p': Hand :: p'.served == |offered| && p'.batch == queued ==>
      Feeding(s, putsOnly, start, log, offered, p', received, sent)
  {
    hide Due, Streams.Expected, Streams.Ops;
    QueuedBeyond(s, start, offered, p.served);
    assert received + [] == received;
    assert offered[..|offered|] == offered;
    Streams.OpsPrefix(offered, p.served);
    queued := Queued(s, start, offered, p.served);
  }

  /** The queue: everything expected past the first `served` commits. */
  function Queued(s: Streams.Scope, start: SeqNo, offered: seq<Log>, served: nat): seq<Entry> {
    var all := Streams.Expected(s, start, offered);
    var done := if served <= |offered| then |Streams.Expected(s, start, offered[..served])| else 0;
    if done <= |all| then all[done..] else []
  }

  lemma HoldingRefilled(start: SeqNo, reached: SeqNo, to: SeqNo, visible: SeqNo, p: Hand, queued: seq<Entry>, n: nat)
    requires Holding(start, reached, visible, p) && p.hold.Some? && !p.rolling && reached <= to <= visible
    requires Between(reached, queued, to) && queued != []
    ensures var last := queued[|queued| - 1];
      p.pinned <= last.at <= last.commit <= to &&
      Holding(start, to, visible,
        p.(pinned := last.at, batch := queued, tail := last.commit, rolling := true, served := n))
    ensures Holding(start, to, visible, p.(served := n))
  {
  }

  lemma SentOne(s: Streams.Scope, putsOnly: bool, start: SeqNo, log: Log, offered: seq<Log>, p: Hand,
                received: seq<Entry>, sent: seq<Item>, p': Hand)
    requires Feeding(s, putsOnly, start, log, offered, p, received, sent) && p.batch != []
    requires p'.served == p.served && p'.batch == p.batch[1..]
    ensures Feeding(s, putsOnly, start, log, offered, p', received + [p.batch[0]],
                    sent + if Shown(putsOnly, p.batch[0]) then [Item(p.batch[0], p.batch[0].commit)] else [])
  {
    hide Due, Streams.Expected, Streams.Ops, Shown;
    DueMore(putsOnly, received, p.batch[0]);
    assert (received + [p.batch[0]]) + p.batch[1..] == received + p.batch;
  }

  lemma HoldingSent(start: SeqNo, reached: SeqNo, visible: SeqNo, p: Hand)
    requires Holding(start, reached, visible, p) && p.batch != [] && p.hold.Some?
    ensures p.hold.value <= p.batch[0].commit <= visible && p.rolling
    ensures Holding(start, reached, visible, p.(batch := p.batch[1..]))
    ensures Holding(start, reached, visible, p.(batch := p.batch[1..], commit := Some(p.batch[0].commit)))
  {
  }

  class Forwarder {
    const scope: Streams.Scope
    const putsOnly: bool
    const opts: Tree.Options
    const start: SeqNo
    var engine: State
    /** The commits published to this subscription. */
    var offered: seq<Log>
    var hand: Hand
    ghost var received: seq<Entry>
    var sent: seq<Item>

    ghost predicate Valid()
      reads this
    {
      Inv(engine) && Owned(hand) <= Loose(engine) &&
      Feeding(scope, putsOnly, start, engine.log, offered, hand, received, sent) &&
      Holding(start, ReachedBy(start, offered, hand), |engine.log|, hand)
    }

    /** Subscribed: the engine pins the boundary the stream starts at. */
    constructor (s: Streams.Scope, puts: bool, o: Tree.Options, st: State)
      requires Inv(st)
      ensures Valid() && start == |st.log| && hand.hold.None? && scope == s && putsOnly == puts && opts == o
    {
      hide Inv, Ready, Step, Loose;
      SubscribeStep(st, o);
      scope, putsOnly, opts, start := s, puts, o, |st.log|;
      engine := Step(st, Register(|st.log|), o);
      offered, hand := [], Hand(0, |st.log|, None, [], 0, false, None);
      received, sent := [], [];
    }

    /** Anything the rest of the process does, as long as it leaves this subscription's own
        registrations alone and does not end with the process. */
    method Outside(e: Event)
      requires Valid() && Ready(engine, e, opts) && !IsCrash(e) && Owned(hand) <= Loose(Step(engine, e, opts))
      modifies this`engine
      ensures Valid() && engine == Step(old(engine), e, opts)
    {
      hide Inv, Ready, Step, Loose, Feeding, Owned, Between, ReachedBy;
      OutsideStep(engine, e, opts);
      FeedingLater(scope, putsOnly, start, engine.log, Step(engine, e, opts).log, offered, hand, received, sent);
      engine := Step(engine, e, opts);
    }

    /** The publisher offers the next commit, already visible. */
    method Publish(ws: Log)
      requires Valid() && Reached(start, offered) + |ws| <= |engine.log|
      requires engine.log[Reached(start, offered)..Reached(start, offered) + |ws|] == ws
      modifies this`offered
      ensures Valid() && offered == old(offered) + [ws]
    {
      hide Inv, Loose, Feeding, Holding, Owned, Reached, ReachedBy;
      FeedingMore(scope, putsOnly, start, engine.log, offered, hand, received, sent, ws);
      offered := offered + [ws];
    }

    /** The attach marker's snapshot: granted, because the subscription's own pin is still there. */
    method Attach() returns (g: Grant)
      requires Valid() && hand.hold.None?
      modifies this`engine, this`hand
      ensures Valid() && g.Granted? && hand == old(hand).(hold := Some(start))
    {
      hide Inv, Ready, Step, Loose, TryRegister, Streams.Ops, Streams.Expected, Due, Reached;
      assert hand.pinned in Owned(hand);
      g := TryRegister(engine, hand.pinned);
      Grantable(engine, hand.pinned, hand.pinned, opts);
      engine := Step(engine, Register(hand.pinned), opts);
      hand := hand.(hold := Some(hand.pinned));
    }

    /** Take everything queued; the stream's pin moves up to the last entry. */
    method Receive() returns (any: bool)
      requires Valid() && hand.hold.Some? && !hand.rolling && hand.batch == []
      modifies this`engine, this`hand
      ensures Valid() && hand.hold == old(hand).hold && (any <==> hand.batch != [])
      ensures received + hand.batch == Streams.Expected(scope, start, offered)
    {
      hide Inv, Ready, Step, Loose, Feeding, Holding, Queued, Between, Reached, ReachedBy, Streams.Expected, Owned;
      ghost var again := Refilled(scope, putsOnly, start, engine.log, offered, hand, received, sent);
      ghost var reached := ReachedBy(start, offered, hand);
      var queued := Queued(scope, start, offered, hand.served);
      HoldingEmpty(start, reached, Reached(start, offered), |engine.log|, hand, |offered|);
      OwnedMoves(hand, hand.(served := |offered|), hand.pinned, Loose(engine));
      if queued == [] {
        hand := hand.(served := |offered|);
        any := false;
      } else {
        HoldingRefilled(start, reached, Reached(start, offered), |engine.log|, hand, queued, |offered|);
        var last := queued[|queued| - 1];
        ghost var next := hand.(pinned := last.at, batch := queued, tail := last.commit, rolling := true,
          served := |offered|);
        OwnedMoves(hand, next, last.at, Loose(engine));
        Grantable(engine, hand.pinned, last.at, opts);
        engine := Step(engine, Register(last.at), opts);
        ReleaseStep(engine, hand.pinned, opts);
        engine := Step(engine, Deregister(hand.pinned), opts);
        hand := hand.(pinned := last.at, batch := queued, tail := last.commit, rolling := true, served := |offered|);
        any := true;
      }
    }

    /** Send the next entry with a snapshot at its boundary, reusing the one just taken. */
    method Send() returns (g: Grant)
      requires Valid() && hand.hold.Some? && hand.batch != []
      modifies this
      ensures Valid() && g.Granted? && offered == old(offered) && hand.hold == old(hand).hold &&
        hand.tail == old(hand).tail
      ensures received == old(received) + [old(hand).batch[0]] && hand.batch == old(hand).batch[1..]
      ensures Shown(putsOnly, old(hand).batch[0]) ==> One(Some(old(hand).batch[0].commit)) <= Loose(engine)
      ensures sent == old(sent) + if Shown(putsOnly, old(hand).batch[0])
        then [Item(old(hand).batch[0], old(hand).batch[0].commit)] else []
    {
      hide Inv, Ready, Step, Loose, TryRegister, Feeding, Holding, Shown, Reached, ReachedBy, Owned;
      var e, p := hand.batch[0], hand;
      g := Granted;
      HoldingSent(start, ReachedBy(start, offered, p), |engine.log|, p);
      SameReached(start, offered, p, p.(batch := p.batch[1..]));
      SameReached(start, offered, p, p.(batch := p.batch[1..], commit := Some(e.commit)));
      OwnedKeeps(p, e.commit, Loose(engine));
      if Shown(putsOnly, e) {
        if p.commit != Some(e.commit) {
          g := TryRegister(engine, e.commit);
          Grantable(engine, p.hold.value, e.commit, opts);
          engine := Step(engine, Register(e.commit), opts);
        }
        hand := p.(batch := p.batch[1..], commit := Some(e.commit));
        SentOne(scope, putsOnly, start, engine.log, offered, p, received, sent, hand);
        sent := sent + [Item(e, e.commit)];
      } else {
        hand := p.(batch := p.batch[1..]);
        SentOne(scope, putsOnly, start, engine.log, offered, p, received, sent, hand);
        assert sent + [] == sent;
      }
      received := received + [e];
    }

    /** Move the hold up to the batch's last boundary, registering before releasing. */
    method Roll() returns (g: Grant)
      requires Valid() && hand.hold.Some? && hand.batch == [] && hand.rolling
      modifies this`engine, this`hand
      ensures Valid() && g.Granted? &&
        hand == old(hand).(hold := Some(old(hand).tail), rolling := false, commit := None)
    {
      hide Inv, Ready, Step, Loose, TryRegister, Streams.Ops, Streams.Expected, Due, Reached;
      var p := hand;
      g := Granted;
      if p.commit != Some(p.tail) {
        assert p.hold.value in Owned(p);
        g := TryRegister(engine, p.tail);
        Grantable(engine, p.hold.value, p.tail, opts);
        engine := Step(engine, Register(p.tail), opts);
      }
      hand := p.(hold := Some(p.tail), rolling := false, commit := None);
    }
  }

  lemma OwnedMoves(p: Hand, p': Hand, s: SeqNo, loose: multiset<SeqNo>)
    requires Owned(p) <= loose && p'.hold == p.hold && p'.commit == p.commit && p'.pinned == s
    ensures p.pinned in loose && p.pinned in loose + multiset{s} &&
      Owned(p') <= loose + multiset{s} - multiset{p.pinned}
  {
  }

  lemma OwnedKeeps(p: Hand, s: SeqNo, loose: multiset<SeqNo>)
    requires Owned(p) <= loose && p.hold.Some?
    ensures p.hold.value in loose
    ensures forall p': Hand :: p'.pinned == p.pinned && p'.hold == p.hold ==>
      (p'.commit == p.commit ==> Owned(p') <= loose) &&
      (p'.commit == Some(s) ==> Owned(p') <= loose + multiset{s} && One(Some(s)) <= loose + multiset{s}) &&
      (p'.commit == Some(s) == p.commit ==> One(Some(s)) <= loose)
  {
  }

  /** A snapshot that is registered reads the store exactly as its commit left it. */
  lemma BoundaryReads(st: State, s: SeqNo, k: Key)
    requires Inv(st) && s in Loose(st)
    ensures s <= |st.log| && Visible(Lookup(st, k, s)) == ValueAt(st.log, k, s)
  {
    hide InvTree, InvStack, InvValues, Lookup;
    assert s in st.snaps;
    ReadsAreExact(st, k, s);
  }

  /** What was sent, at any moment, is the in-range part of the history from the subscription's start,
      in order and without gaps, deletes dropped where they are not shown, and nothing of a batch in
      hand is skipped. */
  lemma SentIsFeed(f: Forwarder)
    requires f.Valid() && f.hand.batch == []
    ensures var to := ReachedBy(f.start, f.offered, f.hand);
      to <= |f.engine.log| && Streams.IsFeed(f.scope, f.engine.log, f.start, to, f.received) &&
      f.sent == Due(f.putsOnly, f.received)
  {
    hide Inv, Loose, Streams.IsFeed, Streams.Expected, Streams.Ops, Due, Holding;
    var commits := f.offered[..f.hand.served];
    assert f.received + [] == f.received;
    Streams.OpsPrefix(f.offered, f.hand.served);
    var n := |Streams.Ops(commits)|;
    assert Streams.Ops(f.offered)[..n] == f.engine.log[f.start..Reached(f.start, f.offered)][..n];
    assert f.engine.log[f.start..f.start + n] == Streams.Ops(commits);
    Streams.ExpectedIsFeed(f.scope, f.engine.log, f.start, commits);
  }

  lemma SameReached(start: SeqNo, offered: seq<Log>, p: Hand, p': Hand)
    requires p.served == p'.served
    ensures ReachedBy(start, offered, p) == ReachedBy(start, offered, p')
  {
  }

  lemma HoldingEmpty(start: SeqNo, reached: SeqNo, to: SeqNo, visible: SeqNo, p: Hand, n: nat)
    requires Holding(start, reached, visible, p) && p.batch == [] && reached <= to <= visible
    ensures Holding(start, to, visible, p.(served := n))
  {
  }

  lemma OneCommit(ws: Log)
    ensures Streams.Ops([ws]) == ws
  {
    assert [ws][..0] == [] && [] + ws == ws;
  }

  lemma DueMore(putsOnly: bool, es: seq<Entry>, e: Entry)
    ensures Due(putsOnly, es + [e]) == Due(putsOnly, es) + if Shown(putsOnly, e) then [Item(e, e.commit)] else []
  {
    assert (es + [e])[..|es|] == es;
  }
}
