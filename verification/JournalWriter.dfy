/** The journal's drainer: it owns the log files and writes them one record at a time.
 *
 * Every method below that writes keeps `Valid`, and every longer operation is made of such steps,
 * so a crash between any two of them (or inside one: the record it was writing is torn off) leaves
 * what `CrashRebuilds` speaks of.
 */
module JournalWriter {
  import opened Sequences
  import opened Types
  import opened History
  import opened Streams
  import opened JournalLog
  import opened JournalState
  import opened Journal

  function Last(files: seq<LogFile>): LogFile
    requires files != []
  {
    files[|files| - 1]
  }

  /** The files with their newest one's records replaced. */
  function WithLast(files: seq<LogFile>, recs: seq<Rec>, torn: bool): seq<LogFile>
    requires files != []
  {
    files[..|files| - 1] + [LogFile(Last(files).id, recs, torn)]
  }

  lemma ContentsWithLast(files: seq<LogFile>, recs: seq<Rec>, torn: bool)
    requires files != []
    ensures Contents(WithLast(files, recs, torn)) == Contents(files[..|files| - 1]) + recs
  {
    assert WithLast(files, recs, torn)[..|files| - 1] == files[..|files| - 1];
  }

  lemma ChainWithLast(files: seq<LogFile>, source: nat, recs: seq<Rec>, torn: bool)
    requires files != [] && Chain(files, source) && (recs == [] || recs[0] == Header(source))
    ensures Chain(WithLast(files, recs, torn), source)
  {
    var out := WithLast(files, recs, torn);
    assert forall i :: 0 <= i < |files| - 1 ==> out[i] == files[i];
    assert out[|files| - 1].id == files[|files| - 1].id;
  }

  /** How many of the stripped records are durable. */
  function Kept(files: seq<LogFile>, synced: nat): nat
    requires files != [] && synced <= |Last(files).recs|
  {
    |Strip(Contents(files[..|files| - 1]) + Last(files).recs[..synced])|
  }

  class Drainer {
    const source: nat
    const scope: Scope
    const rotateAt: nat
    const size: Rec -> nat
    var files: seq<LogFile>
    var bytesInFile: nat
    /** How much of the newest file is durable; the source's history; how far the stream has been
        logged, if it has no hole; and the shape of the log.  Eras from before the last attach may be
        of a history the source has lost. */
    ghost var synced: nat
    ghost var h: Log
    ghost var at: SeqNo
    ghost var live: bool
    ghost var lead: seq<Rec>
    ghost var eras: seq<Era>
    ghost var partial: seq<Rec>

    ghost predicate Valid()
      reads this
    {
      files != [] && Chain(files, source) && !Last(files).torn && synced <= |Last(files).recs| && at <= |h| &&
      Shape(scope, Strip(Contents(files)), lead, eras, partial) &&
      |lead + eras[0].junk + Core(eras[0])| <= Kept(files, synced) &&
      (live ==> partial == [] && InStep(eras[|eras| - 1]))
    }

    /** Nothing in the log is of a history the source has lost. */
    ghost predicate Current()
      reads this
    {
      forall e :: e in eras ==> e.h <= h
    }

    /** Where the subscription behind the newest era's deltas started. */
    ghost function From(): SeqNo
      reads this
    {
      if eras == [] then 0 else eras[|eras| - 1].from
    }

    /** The newest era is of the source's history, its deltas the stream up to where it stands. */
    ghost predicate InStep(e: Era)
      reads this
    {
      e.h == h && at <= |h| && Feed(scope, h, e.from, at, e.deltas)
    }

    // -------------------------------------------------------------- primitive writes

    method AppendRaw(r: Rec)
      requires files != []
      modifies this`files, this`bytesInFile
      ensures files == WithLast(old(files), Last(old(files)).recs + [r], Last(old(files)).torn)
    {
      var f := files[|files| - 1];
      files := files[..|files| - 1] + [LogFile(f.id, f.recs + [r], f.torn)];
      bytesInFile := bytesInFile + size(r);
    }

    /** A record that is not a header goes at the end of the log. */
    lemma AppendedBody(r: Rec)
      requires files != [] && Chain(files, source) && synced <= |Last(files).recs| &&
        (Last(files).recs == [] ==> r == Header(source))
      ensures var files' := WithLast(files, Last(files).recs + [r], Last(files).torn);
        Chain(files', source) && Last(files').torn == Last(files).torn && Last(files').recs == Last(files).recs + [r] &&
        Strip(Contents(files')) == Strip(Contents(files)) + (if r.Header? then [] else [r]) &&
        Kept(files', synced) == Kept(files, synced)
    {
      var files' := WithLast(files, Last(files).recs + [r], Last(files).torn);
      ChainOfLast(files, source);
      hide Chain, Strip, Contents;
      ContentsLast(files);
      ChainWithLast(files, source, Last(files).recs + [r], Last(files).torn);
      ContentsWithLast(files, Last(files).recs + [r], Last(files).torn);
      Assoc(Contents(files[..|files| - 1]), Last(files).recs, [r]);
      StripSnoc(Contents(files), r);
      assert files'[..|files'| - 1] == files[..|files| - 1];
      assert (Last(files).recs + [r])[..synced] == Last(files).recs[..synced];
    }

    /** The header that opens a fresh file. */
    method AppendHeader()
      requires Valid() && Last(files).recs == []
      modifies this`files, this`bytesInFile
      ensures Valid() && files == WithLast(old(files), [Header(source)], false)
    {
      hide Chain, Contents, Strip, Kept, Shape;
      AppendedBody(Header(source));
      assert Last(files).recs + [Header(source)] == [Header(source)];
      assert Strip(Contents(files)) + [] == Strip(Contents(files));
      AppendRaw(Header(source));
    }

    /** The next op of the stream. */
    method AppendDelta(seqno: SeqNo, key: Key, op: Op)
      requires Valid() && live && Last(files).recs != []
      requires at < seqno <= |h| && h[seqno - 1] == Write(key, op) && Covers(scope, key)
      requires forall n: SeqNo :: at < n < seqno ==> !Wanted(scope, h, n)
      modifies this
      ensures Valid() && live && at == seqno && h == old(h) && lead == old(lead) && From() == old(From())
      ensures files == WithLast(old(files), Last(old(files)).recs + [Delta(seqno, key, op)], false)
    {
      hide Chain, Contents, Strip, Kept, EraOk, Feed, Core, RenderAll;
      var r := Delta(seqno, key, op);
      AppendedBody(r);
      ghost var m := |eras| - 1;
      ghost var e := eras[m].(deltas := eras[m].deltas + [r]);
      assert EraOk(scope, eras[m]);
      NextDelta(scope, eras[m], at, r);
      DeltaExtends(scope, lead, eras, e, r);
      AppendRaw(r);
      eras := eras[m := e];
      at := seqno;
    }

    // -------------------------------------------------------------- bases

    /** Scaffolding of a new base: its checkpoint, and its keys. */
    method AppendScaffold(r: Rec)
      requires Valid() && Last(files).recs != [] && (r.Checkpoint? || r.BaseKey?)
      modifies this
      ensures Valid() && !live && partial == old(partial) + [r]
      ensures files == WithLast(old(files), Last(old(files)).recs + [r], false)
      ensures lead == old(lead) && eras == old(eras) && h == old(h) && at == old(at) && synced == old(synced)
    {
      hide Chain, Contents, Strip, Kept, ErasOk, Core, RenderAll;
      AppendedBody(r);
      Assoc(lead + RenderAll(eras), partial, [r]);
      AppendRaw(r);
      live, partial := false, partial + [r];
    }

    /** The base is complete: it starts a new era, whose deltas begin where the stream stands. */
    method EndBase(snap: SeqNo, ghost junk: seq<Rec>, ghost base: seq<Rec>)
      requires Valid() && Last(files).recs != [] && at <= snap <= |h|
      requires partial == junk + ([Checkpoint(snap)] + base) && BaseIs(scope, h, snap, base)
      modifies this
      ensures Valid() && live && partial == [] && eras == old(eras) + [Era(h, junk, snap, at, base, [])]
      ensures files == WithLast(old(files), Last(old(files)).recs + [BaseEnd(snap)], false)
      ensures lead == old(lead) && h == old(h) && at == old(at) && synced == old(synced)
      ensures old(Current()) ==> Current()
    {
      hide Chain, Contents, Strip, Kept, Core, RenderAll, BaseIs;
      AppendedBody(BaseEnd(snap));
      BaseCompletes(scope, h, lead, eras, partial, snap, at, junk, base);
      AppendRaw(BaseEnd(snap));
      eras, partial, live := eras + [Era(h, junk, snap, at, base, [])], [], true;
    }

    /** Make the newest file durable.  From then on the newest complete base anchors the log, and all
        before it may go. */
    method Sync()
      requires Valid()
      modifies this
      ensures Valid() && synced == |Last(files).recs| && files == old(files) && live == old(live)
      ensures (old(Current()) || live ==> Current()) && From() == old(From())
      ensures h == old(h) && at == old(at) && partial == old(partial) && bytesInFile == old(bytesInFile)
      ensures eras == [old(eras[|eras| - 1]).(junk := [])]
      ensures lead + Render(eras[0]) + partial == Strip(Contents(files))
      ensures Anchored(old(eras)) ==> lead == old(lead) && eras == old(eras)
    {
      hide Chain, Contents, Strip, EraOk, Feed, Core;
      Reanchor(scope, lead, eras, partial);
      ghost var e := eras[|eras| - 1].(junk := []);
      ghost var lead' := lead + RenderAll(eras[..|eras| - 1]) + eras[|eras| - 1].junk;
      assert Last(files).recs[..|Last(files).recs|] == Last(files).recs;
      assert Contents(files) == Contents(files[..|files| - 1]) + Last(files).recs by { ContentsLast(files); }
      synced := |Last(files).recs|;
      AnchoredStays(lead, eras);
      lead, eras := lead', [e];
    }

    /** The snapshot's state, as one rotation-free span. */
    method WriteBaseSpan(snap: SeqNo, state: seq<(Key, Repr)>)
      requires Valid() && Last(files).recs != [] && at <= snap <= |h| && BaseIs(scope, h, snap, KeysOf(state))
      modifies this
      ensures Valid() && live && partial == [] && |files| == |old(files)| && Last(files).id == Last(old(files)).id
      ensures h == old(h) && at == old(at)
      ensures files[..|files| - 1] == old(files[..|files| - 1])
      ensures Last(files).recs == Last(old(files)).recs + ([Checkpoint(snap)] + KeysOf(state) + [BaseEnd(snap)])
      ensures eras[|eras| - 1].(junk := []) == Era(h, [], snap, at, KeysOf(state), [])
    {
      hide Chain, Contents, Strip, Kept, Shape, Core, BaseIs;
      ghost var junk := partial;
      AppendScaffold(Checkpoint(snap));
      var i := 0;
      while i < |state|
        invariant 0 <= i <= |state| && Valid() && !live && Last(files).recs != []
        invariant partial == junk + ([Checkpoint(snap)] + KeysOf(state)[..i])
        invariant h == old(h) && at == old(at) && |files| == |old(files)| && Last(files).id == Last(old(files)).id
        invariant files[..|files| - 1] == old(files[..|files| - 1])
        invariant Last(files).recs == Last(old(files)).recs + ([Checkpoint(snap)] + KeysOf(state)[..i])
      {
        AppendScaffold(BaseKey(state[i].0, state[i].1));
        i := i + 1;
      }
      assert KeysOf(state)[..i] == KeysOf(state);
      EndBase(snap, junk, KeysOf(state));
    }

    // -------------------------------------------------------------- files

    /** Rotation's file creation; the file before it is durable by then. */
    method CreateNext()
      requires Valid() && synced == |Last(files).recs|
      modifies this
      ensures Valid() && files == old(files) + [LogFile(Last(old(files)).id + 1, [], false)] && synced == 0
      ensures h == old(h) && at == old(at) && live == old(live) && partial == old(partial) && lead == old(lead) &&
        eras == old(eras)
    {
      hide Strip, Shape, Core;
      ghost var files0 := files;
      ContentsLast(files);
      files := files + [LogFile(files[|files| - 1].id + 1, [], false)];
      assert files[..|files| - 1] == files0;
      assert Contents(files0) + [] == Contents(files0);
      assert files0[|files0| - 1].recs[..synced] == files0[|files0| - 1].recs;
      bytesInFile, synced := 0, 0;
    }

    method Rotate()
      requires Valid()
      modifies this
      ensures Valid() && Last(files).recs == [Header(source)] && |files| == |old(files)| + 1
      ensures files[..|files| - 1] == old(files) && Last(files).id == Last(old(files)).id + 1
      ensures h == old(h) && at == old(at) && live == old(live) && partial == old(partial)
      ensures (old(Current()) || live ==> Current()) && From() == old(From())
      ensures lead + Render(eras[0]) + partial == Strip(Contents(files))
      ensures Anchored(old(eras)) ==> lead == old(lead) && eras == old(eras)
    {
      hide Shape, Kept, Core, Strip, Contents, Chain, Render;
      Sync();
      CreateNext();
      AppendHeader();
      assert files[..|files| - 1] == old(files);
      Sync();
    }

    method MaybeRotate()
      requires Valid() && Last(files).recs != []
      modifies this
      ensures Valid() && Last(files).recs != [] && h == old(h) && at == old(at) && live == old(live) &&
        partial == old(partial)
      ensures old(files) <= files && (Anchored(old(eras)) ==> lead == old(lead) && eras == old(eras))
      ensures (old(Current()) ==> Current()) && From() == old(From())
    {
      hide Shape, Render, Kept, Core, Strip, Contents, Chain;
      if bytesInFile >= rotateAt { Rotate(); }
    }

    /** Delete the oldest file; everything in it came before the anchoring base. */
    method RemoveOldest()
      requires Valid() && |files| > 1 && |Strip(files[0].recs)| <= |lead|
      modifies this
      ensures Valid() && files == old(files)[1..] && lead == old(lead)[|Strip(old(files)[0].recs)|..]
      ensures h == old(h) && at == old(at) && live == old(live) && partial == old(partial) && eras == old(eras) &&
        synced == old(synced)
    {
      hide Chain, Contents, Strip, Core, EraOk, RenderAll;
      ghost var files0 := files;
      ghost var cut := |Strip(files[0].recs)|;
      ChainTail(files, source);
      ContentsTail(files);
      ContentsTail(files[..|files| - 1]);
      assert files[..|files| - 1][1..] == files[1..][..|files| - 2];
      StripConcat(files[0].recs, Contents(files[1..]));
      StripConcat(files[0].recs, Contents(files[1..][..|files| - 2]) + Last(files).recs[..synced]);
      Assoc(files[0].recs, Contents(files[1..][..|files| - 2]), Last(files).recs[..synced]);
      DropLead(lead, RenderAll(eras), partial, cut);
      assert Strip(Contents(files))[cut..] == Strip(Contents(files[1..]));
      files := files[1..];
      lead := lead[cut..];
    }

    /** Delete every file below the anchor, oldest first. */
    method PruneFilesBelow(anchor: nat, ghost before: seq<LogFile>)
      requires Valid() && before < files && files[|before|].id == anchor && lead == Strip(Contents(before))
      modifies this
      ensures Valid() && files == old(files)[|before|..] && lead == []
      ensures h == old(h) && at == old(at) && live == old(live) && partial == old(partial) && eras == old(eras) &&
        synced == old(synced)
    {
      hide Contents, Strip, Shape, Kept, Core;
      ghost var left := before;
      while files[0].id < anchor
        invariant Valid() && left < files && files[|left|].id == anchor && lead == Strip(Contents(left))
        invariant |left| <= |before| && left == before[|before| - |left|..] && files == old(files)[|before| - |left|..]
        invariant h == old(h) && at == old(at) && live == old(live) && partial == old(partial) && eras == old(eras) &&
          synced == old(synced)
        decreases |left|
      {
        assert left != [];
        ContentsTail(left);
        StripConcat(left[0].recs, Contents(left[1..]));
        assert left[0] == files[0];
        RemoveOldest();
        assert Strip(Contents(left))[|Strip(left[0].recs)|..] == Strip(Contents(left[1..]));
        left := left[1..];
      }
      assert files[|left|].id == files[0].id + |left|;
      assert left == [];
      StripNone();
    }

    /** A fresh file with a fresh base in it, durable. */
    method WriteAnchor(snap: SeqNo, state: seq<(Key, Repr)>) returns (ghost before: seq<LogFile>)
      requires Valid() && at <= snap <= |h| && BaseIs(scope, h, snap, KeysOf(state))
      modifies this
      ensures Valid() && live && partial == [] && Last(files).recs != [] && h == old(h) && at == old(at)
      ensures files[..|files| - 1] == before == old(files) && Last(files).id == Last(old(files)).id + 1
      ensures Current() && Anchored(eras) && lead == Strip(Contents(before))
    {
      hide Chain, Contents, Strip, Shape, Kept, Core, BaseIs, Render;
      Rotate();
      before := files[..|files| - 1];
      WriteBaseSpan(snap, state);
      Sync();
      AnchorAfter(files, before, h, lead, snap, at, KeysOf(state), source);
    }

    /** Compact: only when the new base is durable do the old files go. */
    method Compact(snap: SeqNo, state: seq<(Key, Repr)>)
      requires Valid() && at <= snap <= |h| && BaseIs(scope, h, snap, KeysOf(state))
      modifies this
      ensures Valid() && live && partial == [] && Last(files).recs != [] && h == old(h) && at == old(at) && Current()
      ensures files[0].id == Last(old(files)).id + 1
    {
      hide Chain, Contents, Strip, Shape, Kept, Core, BaseIs, Render;
      ghost var before := WriteAnchor(snap, state);
      var anchor := files[|files| - 1].id;
      MaybeRotate();
      PruneFilesBelow(anchor, before);
    }

    // -------------------------------------------------------------- the stream

    /** A batch from the subscription: its deltas in order, rotating when the file is full, then one
        sync.  `to` is where the batch's last commit ends. */
    method WriteDeltas(entries: seq<Entry>, ghost to: SeqNo)
      requires Valid() && live && Last(files).recs != [] && to <= |h| && IsFeed(scope, h, at, to, entries) && at <= to
      modifies this
      ensures Valid() && live && at == to && h == old(h) && Last(files).recs != [] && synced == |Last(files).recs|
      ensures Current() && From() == old(From()) && (old(files[0].recs) != [] ==> files[0].recs != [])
    {
      hide Chain, Contents, Strip, ErasOk, RenderAll, Kept, Core, Render, Feed;
      ghost var from := at;
      var i := 0;
      while i < |entries|
        invariant 0 <= i <= |entries| && Valid() && live && Last(files).recs != [] && h == old(h)
        invariant at == if i == 0 then from else entries[i - 1].at
        invariant From() == old(From()) && (old(files[0].recs) != [] ==> files[0].recs != [])
      {
        NextWanted(scope, h, from, to, entries, i);
        AppendDelta(entries[i].at, entries[i].key, entries[i].op);
        MaybeRotate();
        i := i + 1;
      }
      NextWanted(scope, h, from, to, entries, |entries|);
      FeedWiden(scope, h, eras[|eras| - 1].from, at, to, eras[|eras| - 1].deltas);
      at := to;
      Sync();
    }

    /** The source commits on; nothing logged changes its meaning. */
    ghost method SourceGrows(h': Log)
      requires Valid() && h <= h'
      modifies this`h, this`eras
      ensures Valid() && h == h' && files == old(files) && live == old(live) && at == old(at) && From() == old(From())
      ensures old(Current()) ==> Current()
    {
      hide Chain, Contents, Strip, Kept, Core, Render, RenderAll, ErasOk, Feed, Scaffold;
      CurrentGrows(eras, h, h');
      if live {
        FeedGrows(scope, h, h', eras[|eras| - 1].from, at, eras[|eras| - 1].deltas);
        EraGrows(scope, Strip(Contents(files)), lead, eras, h');
        eras := eras[|eras| - 1 := eras[|eras| - 1].(h := h')];
      }
      h := h';
    }

    /** The stream was cut: a new subscription starts at `start`, and a fresh base heals the hole. */
    method HealLag(start: SeqNo, snap: SeqNo, state: seq<(Key, Repr)>)
      requires Valid() && start <= snap <= |h| && BaseIs(scope, h, snap, KeysOf(state))
      modifies this
      ensures Valid() && live && partial == [] && Last(files).recs != [] && h == old(h) && at == start && Current()
    {
      hide Chain, Contents, Strip, Shape, Kept, Core, BaseIs, Render;
      live, at := false, start;
      Compact(snap, state);
    }

    // -------------------------------------------------------------- attaching

    /** A fresh journal: a header, and the initial base, durable. */
    constructor Fresh(src: nat, s: Scope, cap: nat, bytes: Rec -> nat, history: Log, start: SeqNo, snap: SeqNo,
                      state: seq<(Key, Repr)>)
      requires start <= snap <= |history| && BaseIs(s, history, snap, KeysOf(state))
      ensures Valid() && live && at == start && h == history && source == src && scope == s && Last(files).recs != []
      ensures Current()
      ensures eras == [Era(h, [], snap, start, KeysOf(state), [])] && lead == []
      ensures files == [FirstFile(src, snap, KeysOf(state))]
    {
      hide Chain, Contents, Strip, Shape, ErasOk, Scaffold, RenderAll, Core, BaseIs, Feed, Kept, FirstFile, KeysOf;
      source, scope, rotateAt, size := src, s, cap, bytes;
      h, at, live, partial := history, start, true, [];
      lead, eras := [], [Era(history, [], snap, start, KeysOf(state), [])];
      var first := FirstFile(src, snap, KeysOf(state));
      files, bytesInFile := [first], 0;
      synced := |first.recs|;
      new;
      FirstFileWhole(src, snap, KeysOf(state));
      FreshShape(src, s, history, start, snap, KeysOf(state));
    }

    /** Attaching again to what a crash left: the torn tail is cut off; a fresh base must come before
        any delta.  The source may have come back without ops the journal had logged; nobody compares
        the two. */
    constructor Reattach(left: seq<LogFile>, src: nat, s: Scope, cap: nat, bytes: Rec -> nat, history: Log,
                         start: SeqNo, ghost lead0: seq<Rec>, ghost eras0: seq<Era>, ghost partial0: seq<Rec>)
      requires left != [] && Chain(left, src) && start <= |history|
      requires Shape(s, Strip(Contents(left)), lead0, eras0, partial0)
      requires !AttachRefuses(left, src)
      ensures Valid() && !live && at == start && h == history && source == src && scope == s
      ensures lead == lead0 && eras == eras0 && partial == partial0
      ensures Current() <==> forall e :: e in eras0 ==> e.h <= history
      ensures files == WithLast(left, Last(left).recs, false) && synced == |Last(left).recs|
    {
      source, scope, rotateAt, size := src, s, cap, bytes;
      h, at, live, lead, eras, partial := history, start, false, lead0, eras0, partial0;
      files, bytesInFile := WithLast(left, Last(left).recs, false), 0;
      synced := |Last(left).recs|;
      new;
      hide Chain, Strip, Contents, ErasOk, Core, RenderAll, Kept, Feed, Scaffold;
      ReattachKeeps(left, src, lead0, eras0, partial0);
    }
  }

  /** `LogWriter::open` looks for the header in the first file only. */
  predicate AttachRefuses(files: seq<LogFile>, source: nat)
    requires files != []
  {
    files[0].recs == [] || files[0].recs[0] != Header(source)
  }

  /** Cutting the torn tail off leaves the same records, all of them durable. */
  lemma ReattachKeeps(left: seq<LogFile>, src: nat, lead: seq<Rec>, es: seq<Era>, partial: seq<Rec>)
    requires left != [] && Chain(left, src) && es != [] && Strip(Contents(left)) == lead + RenderAll(es) + partial
    ensures var files := WithLast(left, Last(left).recs, false);
      Chain(files, src) && Contents(files) == Contents(left) && !Last(files).torn &&
      Last(files).recs == Last(left).recs && |lead + es[0].junk + Core(es[0])| <= Kept(files, |Last(left).recs|)
  {
    hide Strip, Core, RenderAll;
    var files := WithLast(left, Last(left).recs, false);
    ChainOfLast(left, src);
    ChainWithLast(left, src, Last(left).recs, false);
    hide Chain;
    ContentsWithLast(left, Last(left).recs, false);
    ContentsLast(left);
    assert files[..|files| - 1] == left[..|left| - 1];
    assert Last(left).recs[..|Last(left).recs|] == Last(left).recs;
    FirstBaseFits(lead, es, partial);
  }

  lemma ChainOfLast(files: seq<LogFile>, source: nat)
    requires files != [] && Chain(files, source)
    ensures Last(files).recs == [] || Last(files).recs[0] == Header(source)
  {
  }

  lemma {:induction false} FirstBaseFits(lead: seq<Rec>, es: seq<Era>, partial: seq<Rec>)
    requires es != []
    ensures |lead + es[0].junk + Core(es[0])| <= |lead + RenderAll(es) + partial|
  {
    if |es| > 1 { FirstBaseFits(lead, es[..|es| - 1], partial); } else { assert es[..0] == []; }
  }

  /** The file a fresh journal consists of once its first base is written. */
  function FirstFile(source: nat, snap: SeqNo, base: seq<Rec>): LogFile {
    LogFile(1, [Header(source)] + ([Checkpoint(snap)] + base + [BaseEnd(snap)]), false)
  }

  lemma FirstFileWhole(source: nat, snap: SeqNo, base: seq<Rec>)
    ensures FirstFile(source, snap, base).recs != [] && !FirstFile(source, snap, base).torn
  {
  }

  lemma FreshShape(source: nat, s: Scope, h: Log, start: SeqNo, snap: SeqNo, base: seq<Rec>)
    requires start <= snap <= |h| && BaseIs(s, h, snap, base) && BaseKeys(base)
    ensures var e, f := Era(h, [], snap, start, base, []), FirstFile(source, snap, base);
      Chain([f], source) && Shape(s, Strip(Contents([f])), [], [e], []) && Feed(s, h, start, start, []) &&
      |[] + e.junk + Core(e)| <= Kept([f], |f.recs|)
  {
    var e, span := Era(h, [], snap, start, base, []), [Checkpoint(snap)] + base + [BaseEnd(snap)];
    OneFile(FirstFile(source, snap, base), source, span);
    FreshEra(s, h, start, snap, base);
    hide Chain, Contents, Strip, BaseIs, Feed, ErasOk;
  }

  lemma OneFile(f: LogFile, source: nat, span: seq<Rec>)
    requires f.recs == [Header(source)] + span && !f.torn && forall i :: 0 <= i < |span| ==> !span[i].Header?
    ensures Chain([f], source) && Strip(Contents([f])) == span && Kept([f], |f.recs|) == |span|
  {
    assert [f][..0] == [] && Contents([f]) == [] + f.recs == f.recs;
    assert Contents([f][..0]) + f.recs[..|f.recs|] == f.recs;
    StripHeader(source, span);
  }

  lemma FreshEra(s: Scope, h: Log, start: SeqNo, snap: SeqNo, base: seq<Rec>)
    requires start <= snap <= |h| && BaseIs(s, h, snap, base) && BaseKeys(base)
    ensures var e, span := Era(h, [], snap, start, base, []), [Checkpoint(snap)] + base + [BaseEnd(snap)];
      Shape(s, span, [], [e], []) && Feed(s, h, start, start, []) && |[] + e.junk + Core(e)| == |span|
  {
    hide BaseIs;
    var e, span := Era(h, [], snap, start, base, []), [Checkpoint(snap)] + base + [BaseEnd(snap)];
    NewEra(s, h, [Checkpoint(snap)] + base, snap, start, [], base);
    hide Feed;
    assert [] + ([Checkpoint(snap)] + base) == [Checkpoint(snap)] + base;
    assert [e][..0] == [] && [] + Render(e) == Render(e);
    assert [] + RenderAll([e]) + [] == RenderAll([e]);
  }

  /** Between two deltas of a batch, and after the last, no op is in scope. */
  lemma NextWanted(s: Scope, h: Log, from: SeqNo, to: SeqNo, entries: seq<Entry>, i: nat)
    requires from <= to <= |h| && IsFeed(s, h, from, to, entries) && i <= |entries|
    ensures var prev := if i == 0 then from else entries[i - 1].at;
      prev <= to && forall n: SeqNo :: prev < n < (if i < |entries| then entries[i].at else to + 1) ==> !Wanted(s, h, n)
    ensures i < |entries| ==>
      (var e := entries[i];
       (if i == 0 then from else entries[i - 1].at) < e.at <= to && h[e.at - 1] == Write(e.key, e.op) &&
       Covers(s, e.key))
  {
    if i < |entries| { assert entries[i] in entries; }
    if i > 0 { assert entries[i - 1] in entries; }
    var prev := if i == 0 then from else entries[i - 1].at;
    forall n: SeqNo | prev < n < (if i < |entries| then entries[i].at else to + 1) ensures !Wanted(s, h, n) {
      if Wanted(s, h, n) {
        assert HasSeqno(entries, n);
        var j :| 0 <= j < |entries| && entries[j].at == n;
      }
    }
  }

  lemma FeedWiden(s: Scope, h: Log, from: SeqNo, at: SeqNo, to: SeqNo, ds: seq<Rec>)
    requires at <= to <= |h| && Feed(s, h, from, at, ds) && forall n: SeqNo :: at < n <= to ==> !Wanted(s, h, n)
    ensures Feed(s, h, from, to, ds)
  {
  }

  lemma FeedGrows(s: Scope, h: Log, h': Log, from: SeqNo, to: SeqNo, ds: seq<Rec>)
    requires h <= h' && to <= |h| && Feed(s, h, from, to, ds)
    ensures Feed(s, h', from, to, ds)
  {
    forall n: SeqNo | from < n <= to && Wanted(s, h', n) ensures Logged(ds, n) {
      assert Wanted(s, h, n);
    }
  }

  lemma CurrentGrows(es: seq<Era>, h: Log, h': Log)
    requires h <= h'
    ensures (forall e :: e in es ==> e.h <= h) ==>
      forall i, e :: 0 <= i < |es| && e in es[i := es[i].(h := h')] ==> e.h <= h'
    ensures (forall e :: e in es ==> e.h <= h) ==> forall e :: e in es ==> e.h <= h'
  {
    forall e | e in es && e.h <= h ensures e.h <= h' {
      assert h'[..|e.h|] == h[..|e.h|];
    }
  }

  /** What the newest era says of a history it says of any longer one. */
  lemma EraGrows(s: Scope, body: seq<Rec>, lead: seq<Rec>, es: seq<Era>, h': Log)
    requires Shape(s, body, lead, es, []) && es[|es| - 1].h <= h'
    ensures var es' := es[|es| - 1 := es[|es| - 1].(h := h')];
      Shape(s, body, lead, es', []) && es'[0].junk == es[0].junk && Core(es'[0]) == Core(es[0])
  {
    var m := |es| - 1;
    var e := es[m];
    var e' := e.(h := h');
    var es' := es[m := e'];
    assert EraOk(s, e);
    FeedGrows(s, e.h, h', e.from, EndOf(e.from, e.deltas), e.deltas);
    assert e.h[..e.at] == h'[..e.at];
    forall k ensures ValueAt(h', k, e.at) == ValueAt(e.h, k, e.at) { NewestPrefix(e.h, h', k, e.at); }
    assert EraOk(s, e');
    forall i | 0 <= i < |es'| ensures EraOk(s, es'[i]) { assert i < m ==> EraOk(s, es[i]); }
    RenderLast(es, e');
    assert RenderAll(es') == RenderAll(es);
  }

  // ---------------------------------------------------------------- crashes

  /** What is left of the files: of the newest, at least what was synced, and perhaps a torn record. */
  function CrashFiles(files: seq<LogFile>, k: nat, torn: bool): seq<LogFile>
    requires files != [] && k <= |Last(files).recs|
  {
    WithLast(files, Last(files).recs[..k], torn)
  }

  /** Crash anywhere, and a rebuild accepts what is left.  Its result is that of a complete base of
      the source and a prefix of the deltas after it; RebuildIsExactWhen says when that is the
      source's state at the last logged seqno. */
  lemma CrashRebuilds(d: Drainer, k: nat, torn: bool) returns (e: Era, rest: seq<Rec>)
    requires d.Valid() && d.synced <= k <= |Last(d.files).recs|
    ensures var left := CrashFiles(d.files, k, torn);
      var best := WalkOf(Contents(left)).best;
      left != [] && Chain(left, d.source) && best.Some? && BaseSpan(best.value.base) &&
      DeltasAscend(best.value.tail) && DeltasPositive(best.value.tail) && best.value.at == e.at &&
      ApplyDeltas(ApplyBase(best.value.base), best.value.tail) == ApplyDeltas(ApplyBase(e.base), e.deltas + rest) &&
      LastDelta(best.value.tail) == LastDelta(e.deltas + rest)
    ensures EraOk(d.scope, e) && forall i :: 0 <= i < |rest| ==> !rest[i].Delta?
    ensures exists i :: 0 <= i < |d.eras| && d.eras[i].h == e.h
  {
    hide Chain, Contents, Strip, EraOk, Core, RenderAll, WalkOf, ApplyBase, ApplyDeltas;
    var recs, init := Last(d.files).recs, Contents(d.files[..|d.files| - 1]);
    ChainOfLast(d.files, d.source);
    ChainWithLast(d.files, d.source, recs[..k], torn);
    ContentsWithLast(d.files, recs[..k], torn);
    CrashIsCut(d.files, d.synced, k);
    var n := |Strip(init + recs[..k])|;
    var es', partial' := CutKeepsShape(d.scope, Strip(Contents(d.files)), d.lead, d.eras, d.partial, n);
    ShapeIsAccepted(d.scope, init + recs[..k], d.lead, es', partial');
    e, rest := es'[|es'| - 1], partial';
    assert d.eras[|es'| - 1].h == e.h;
  }

  /** The journal's promise, exactly: crash anywhere and rebuild; the rebuild answers, and the state it
      answers with is the source's at the seqno it reports if and only if the deltas logged since the
      anchoring base are none, or reach that base's seqno, or touch only keys that read the same in
      both.  The source is meant as it was when that base was written; what it is now agrees with that,
      unless it came back without ops the journal had logged and no base was closed since. */
  method RebuildAfterCrash(d: Drainer, k: nat, torn: bool) returns (r: Result<Rebuilt>, ghost e: Era)
    requires d.Valid() && d.synced <= k <= |Last(d.files).recs|
    ensures r.Ok? && EraOk(d.scope, e) && r.value.last <= |e.h|
    ensures r.value.last == (if e.deltas == [] then e.at else Max(e.at, EndOf(e.from, e.deltas)))
    ensures (forall x :: Covers(d.scope, x) ==> LookUp(r.value.state, x) == ValueAt(e.h, x, r.value.last)) <==>
      (e.deltas == [] || EndOf(e.from, e.deltas) >= e.at ||
       forall x :: Touched(e.deltas, x) ==> ValueAt(e.h, x, EndOf(e.from, e.deltas)) == ValueAt(e.h, x, e.at))
    ensures d.Current() ==> e.h <= d.h
    ensures e.h[..r.value.last] <= d.h ==> forall x :: ValueAt(e.h, x, r.value.last) == ValueAt(d.h, x, r.value.last)
  {
    hide Chain, Contents, Strip, Core, RenderAll, WalkOf, ApplyBase, ApplyDeltas, BaseIs, Feed, Touched, ValueAt;
    ghost var rest;
    e, rest := CrashRebuilds(d, k, torn);
    RebuildIsExactWhen(d.scope, e.h, e.at, e.base, e.from, e.deltas, rest);
    r := Rebuild(CrashFiles(d.files, k, torn));
    if e.h[..r.value.last] <= d.h { SameValues(e.h, d.h, r.value.last); }
  }

  lemma SameValues(h: Log, h': Log, s: SeqNo)
    requires s <= |h| && h[..s] <= h'
    ensures forall x :: ValueAt(h, x, s) == ValueAt(h', x, s)
  {
    forall x ensures ValueAt(h, x, s) == ValueAt(h', x, s) { NewestPrefix(h, h', x, s); }
  }

  lemma CrashIsCut(files: seq<LogFile>, synced: nat, k: nat)
    requires files != [] && synced <= k <= |Last(files).recs|
    ensures var cut := Strip(Contents(files[..|files| - 1]) + Last(files).recs[..k]);
      Kept(files, synced) <= |cut| <= |Strip(Contents(files))| && Strip(Contents(files))[..|cut|] == cut
  {
    var recs, init := Last(files).recs, Contents(files[..|files| - 1]);
    ContentsLast(files);
    assert init + recs == (init + recs[..k]) + recs[k..];
    StripConcat(init + recs[..k], recs[k..]);
    assert init + recs[..k] == (init + recs[..synced]) + recs[synced..k];
    StripConcat(init + recs[..synced], recs[synced..k]);
  }

  /** A rotation that dies between creating the next file and writing its header. */
  method CutRotation(src: nat, s: Scope, cap: nat, bytes: Rec -> nat, history: Log, start: SeqNo, snap: SeqNo,
                     state: seq<(Key, Repr)>)
    returns (d: Drainer)
    requires start <= snap <= |history| && BaseIs(s, history, snap, KeysOf(state))
    ensures fresh(d) && d.Valid() && d.source == src && d.scope == s && d.h == history && |d.files| == 2
    ensures d.files[0].recs != [] && CrashFiles(d.files, 0, false) == d.files && Last(d.files).recs == []
  {
    hide Chain, Contents, Strip, Shape, Kept, Core, BaseIs, Render, Feed, KeysOf;
    d := new Drainer.Fresh(src, s, cap, bytes, history, start, snap, state);
    d.Sync();
    d.CreateNext();
    assert d.files[0] == FirstFile(src, snap, KeysOf(state));
  }

  /** Re-attaching is stricter than rebuilding.  Two crashes are enough: a journal is started, a rotation
      creates the next file and dies before its header; the re-attach compacts, as it always does, and
      dies when the first old file is gone.  The first file left has no header: the log rebuilds, and
      every further attach is refused. */
  method HeaderlessFirstFile(src: nat, s: Scope, cap: nat, bytes: Rec -> nat, history: Log, start: SeqNo, snap: SeqNo,
                             state: seq<(Key, Repr)>)
    returns (d: Drainer)
    requires start <= snap <= |history| && BaseIs(s, history, snap, KeysOf(state))
    ensures fresh(d) && d.Valid() && d.source == src && d.scope == s && d.h == history && |d.files| == 2
    ensures CrashFiles(d.files, |Last(d.files).recs|, false) == d.files && AttachRefuses(d.files, src)
  {
    hide Chain, Contents, Strip, Shape, Kept, Core, BaseIs, Render, Feed, KeysOf;
    var first := CutRotation(src, s, cap, bytes, history, start, snap, state);
    HeaderFirst(first.files, src);
    d := new Drainer.Reattach(first.files, src, s, cap, bytes, history, start, first.lead, first.eras, first.partial);
    assert |d.files| == 2 && d.files[0] == first.files[0] && d.files[1].recs == [];
    ghost var before := d.WriteAnchor(snap, state);
    assert |before| == 2 && |d.files| == 3 && d.files[0] == before[0] && d.files[1] == before[1];
    FirstIsPartOf(before);
    d.RemoveOldest();
    assert d.files[0] == before[1] && Last(d.files).recs[..|Last(d.files).recs|] == Last(d.files).recs;
  }

  /** A journal that has logged, durably, one op more than `history`. */
  method JournalAhead(src: nat, s: Scope, cap: nat, bytes: Rec -> nat, history: Log, state: seq<(Key, Repr)>, k: Key,
                      v: Repr)
    returns (d: Drainer)
    requires BaseIs(s, history, |history|, KeysOf(state)) && Covers(s, k)
    ensures fresh(d) && d.Valid() && d.live && d.source == src && d.scope == s && d.From() == |history|
    ensures d.h == history + [Write(k, Put(v))] && d.at == |d.h| && d.files[0].recs != []
  {
    hide Chain, Contents, Strip, Shape, Kept, Core, BaseIs, Render, Feed, KeysOf, WalkOf;
    var n := |history| + 1;
    d := new Drainer.Fresh(src, s, cap, bytes, history, |history|, |history|, state);
    d.SourceGrows(history + [Write(k, Put(v))]);
    OneEntry(s, history, k, Put(v));
    d.WriteDeltas([Entry(k, n, n, Put(v))], n);
  }

  /** A journal syncs on its own, so its source may come back without the last ops logged.  Attached to
      it again and crashed before the new base is closed, the journal rebuilds to a seqno the source has
      not reached and a value it does not have. */
  method StaleRebuild(src: nat, s: Scope, cap: nat, bytes: Rec -> nat, history: Log, state: seq<(Key, Repr)>, k: Key,
                      v: Repr)
    returns (d: Drainer, r: Result<Rebuilt>)
    requires BaseIs(s, history, |history|, KeysOf(state)) && Covers(s, k)
    ensures fresh(d) && d.Valid() && d.source == src && d.scope == s && d.h == history && !d.Current()
    ensures CrashFiles(d.files, |Last(d.files).recs|, false) == d.files && d.synced <= |Last(d.files).recs|
    ensures r.Ok? && r.value.last == |d.h| + 1 && LookUp(r.value.state, k) == Some(v)
  {
    hide Chain, Contents, Strip, ErasOk, Kept, Core, BaseIs, RenderAll, Feed, KeysOf, WalkOf, Scaffold, ApplyBase,
         ApplyDeltas, BaseSpan, DeltasAscend, DeltasPositive, LastDelta;
    var first := JournalAhead(src, s, cap, bytes, history, state, k, v);
    HeaderFirst(first.files, src);
    d := new Drainer.Reattach(first.files, src, s, cap, bytes, history, |history|, first.lead, first.eras,
      first.partial);
    assert Last(d.files).recs[..|Last(d.files).recs|] == Last(d.files).recs;
    LastOpRebuilds(s, d.files, d.lead, d.eras, k, v);
    r := Rebuild(d.files);
  }

  /** A log whose newest era follows its history to the end rebuilds to that end. */
  lemma LastOpRebuilds(s: Scope, files: seq<LogFile>, lead: seq<Rec>, es: seq<Era>, k: Key, v: Repr)
    requires Shape(s, Strip(Contents(files)), lead, es, [])
    requires var e := es[|es| - 1];
      e.h != [] && e.h[|e.h| - 1] == Write(k, Put(v)) && Covers(s, k) && Feed(s, e.h, e.from, |e.h|, e.deltas) &&
      e.from < |e.h|
    ensures var best, h := WalkOf(Contents(files)).best, es[|es| - 1].h;
      best.Some? && BaseSpan(best.value.base) && DeltasAscend(best.value.tail) && DeltasPositive(best.value.tail) &&
      Max(best.value.at, LastDelta(best.value.tail)) == |h| &&
      LookUp(ApplyDeltas(ApplyBase(best.value.base), best.value.tail), k) == Some(v)
  {
    hide Strip, Contents, WalkOf, ApplyBase, ApplyDeltas, RenderAll;
    var e := es[|es| - 1];
    var n := |e.h|;
    ShapeIsAccepted(s, Contents(files), lead, es, []);
    assert EraOk(s, e);
    assert Wanted(s, e.h, n) && Logged(e.deltas, n);
    RebuildIsExactWhen(s, e.h, e.at, e.base, e.from, e.deltas, []);
    assert EndOf(e.from, e.deltas) == n;
    assert WroteKey(e.h, k, n);
    NewestIs(e.h, k, n, n);
  }

  lemma OneEntry(s: Scope, h: Log, k: Key, op: Op)
    requires Covers(s, k)
    ensures var n := |h| + 1; IsFeed(s, h + [Write(k, op)], |h|, n, [Entry(k, n, n, op)])
  {
    assert HasSeqno([Entry(k, |h| + 1, |h| + 1, op)], |h| + 1);
  }

  lemma FirstIsPartOf(files: seq<LogFile>)
    requires files != []
    ensures |Strip(files[0].recs)| <= |Strip(Contents(files))|
  {
    ContentsTail(files);
    StripConcat(files[0].recs, Contents(files[1..]));
  }

  lemma HeaderFirst(files: seq<LogFile>, source: nat)
    requires files != [] && Chain(files, source) && files[0].recs != []
    ensures !AttachRefuses(files, source)
  {
  }

  function KeysOf(state: seq<(Key, Repr)>): (rs: seq<Rec>)
    ensures |rs| == |state| && forall i :: 0 <= i < |state| ==> rs[i] == BaseKey(state[i].0, state[i].1)
  {
    if state == [] then [] else KeysOf(state[..|state| - 1]) + [BaseKey(state[|state| - 1].0, state[|state| - 1].1)]
  }

  lemma ContentsLast(files: seq<LogFile>)
    requires files != []
    ensures Contents(files) == Contents(files[..|files| - 1]) + Last(files).recs
  {
  }

  lemma NextDelta(s: Scope, e: Era, at: SeqNo, r: Rec)
    requires at <= |e.h| && EraOk(s, e) && Feed(s, e.h, e.from, at, e.deltas)
    requires r.Delta? && at < r.at <= |e.h| && e.h[r.at - 1] == Write(r.key, r.op) && Covers(s, r.key)
    requires forall n: SeqNo :: at < n < r.at ==> !Wanted(s, e.h, n)
    ensures var e' := e.(deltas := e.deltas + [r]); EraOk(s, e') && Feed(s, e.h, e.from, r.at, e'.deltas)
  {
    hide BaseIs;
    FeedSnoc(s, e.h, e.from, at, e.deltas, r);
  }

  lemma BaseCompletes(s: Scope, h: Log, lead: seq<Rec>, es: seq<Era>, partial: seq<Rec>, snap: SeqNo, at: SeqNo,
                      junk: seq<Rec>, base: seq<Rec>)
    requires es != [] && ErasOk(s, es) && Scaffold(partial) && at <= snap <= |h|
    requires partial == junk + ([Checkpoint(snap)] + base) && BaseIs(s, h, snap, base)
    ensures var e := Era(h, junk, snap, at, base, []);
      Shape(s, lead + RenderAll(es) + partial + [BaseEnd(snap)], lead, es + [e], []) && Feed(s, h, at, at, []) &&
      (es + [e])[0] == es[0] && (es + [e])[|es|] == e
  {
    var e := Era(h, junk, snap, at, base, []);
    NewEra(s, h, partial, snap, at, junk, base);
    BaseRegroup(lead, RenderAll(es), partial, BaseEnd(snap));
    RenderSnoc(es, e);
    ErasSnoc(s, es, e);
    hide ErasOk, EraOk, Render, RenderAll, BaseIs, Feed;
  }

  lemma ErasSnoc(s: Scope, es: seq<Era>, e: Era)
    requires ErasOk(s, es) && EraOk(s, e)
    ensures ErasOk(s, es + [e])
  {
    hide EraOk;
    assert forall i :: 0 <= i < |es + [e]| ==> (es + [e])[i] == if i < |es| then es[i] else e;
  }

  lemma RenderSnoc(es: seq<Era>, e: Era)
    ensures RenderAll(es + [e]) == RenderAll(es) + Render(e)
  {
    assert (es + [e])[..|es|] == es;
  }

  lemma NewEra(s: Scope, h: Log, partial: seq<Rec>, snap: SeqNo, at: SeqNo, junk: seq<Rec>, base: seq<Rec>)
    requires Scaffold(partial) && at <= snap <= |h|
    requires partial == junk + ([Checkpoint(snap)] + base) && BaseIs(s, h, snap, base)
    ensures var e := Era(h, junk, snap, at, base, []);
      EraOk(s, e) && Feed(s, h, at, at, []) && Render(e) == partial + [BaseEnd(snap)]
  {
    hide BaseIs;
    forall i | 0 <= i < |junk| ensures junk[i].Checkpoint? || junk[i].BaseKey? { assert partial[i] == junk[i]; }
  }

  lemma BaseRegroup(a: seq<Rec>, b: seq<Rec>, c: seq<Rec>, r: Rec)
    ensures a + b + c + [r] == a + (b + (c + [r])) + []
  {
  }

  /** Everything before the newest complete base may count as what came first. */
  lemma Reanchor(s: Scope, lead: seq<Rec>, es: seq<Era>, partial: seq<Rec>)
    requires es != [] && ErasOk(s, es) && Scaffold(partial)
    ensures var m := |es| - 1;
      var lead', e := lead + RenderAll(es[..m]) + es[m].junk, es[m].(junk := []);
      Shape(s, lead + RenderAll(es) + partial, lead', [e], partial) &&
      lead' + Render(e) + partial == lead + RenderAll(es) + partial &&
      |lead' + e.junk + Core(e)| <= |lead + RenderAll(es) + partial|
  {
    hide BaseIs, Feed;
    var m := |es| - 1;
    var e := es[m].(junk := []);
    assert EraOk(s, es[m]);
    assert [e][..0] == [] && RenderAll([e]) == RenderAll([]) + Render(e);
    ReanchorRegroup(lead, RenderAll(es[..m]), es[m].junk, Core(e), es[m].deltas, partial);
    assert Render(e) == Core(e) + es[m].deltas;
  }

  lemma ReanchorRegroup(a: seq<Rec>, b: seq<Rec>, c: seq<Rec>, d: seq<Rec>, e: seq<Rec>, f: seq<Rec>)
    ensures a + (b + (c + d + e)) + f == (a + b + c) + (d + e) + f == (a + b + c) + ([] + (d + e)) + f
  {
  }

  /** One more delta belongs to the newest era. */
  lemma DeltaExtends(s: Scope, lead: seq<Rec>, es: seq<Era>, e: Era, r: Rec)
    requires es != [] && ErasOk(s, es) && e == es[|es| - 1].(deltas := es[|es| - 1].deltas + [r]) && EraOk(s, e)
    ensures Shape(s, lead + RenderAll(es) + [] + [r], lead, es[|es| - 1 := e], [])
    ensures es[|es| - 1 := e][0].junk == es[0].junk && Core(es[|es| - 1 := e][0]) == Core(es[0])
  {
    hide EraOk;
    var m := |es| - 1;
    RenderLast(es, e);
    Assoc(es[m].junk + Core(es[m]), es[m].deltas, [r]);
    SnocRender(lead, RenderAll(es[..m]), Render(es[m]), r);
    assert RenderAll(es) == RenderAll(es[..m]) + Render(es[m]);
    assert forall i :: 0 <= i < |es| ==> es[m := e][i] == if i == m then e else es[i];
  }

  lemma SnocRender(a: seq<Rec>, b: seq<Rec>, c: seq<Rec>, r: Rec)
    ensures a + (b + c) + [] + [r] == a + (b + (c + [r])) + []
  {
  }

  /** The log is anchored at its only base, with nothing of an earlier attempt left. */
  predicate Anchored(es: seq<Era>) {
    |es| == 1 && es[0].junk == []
  }

  lemma AnchoredStays(lead: seq<Rec>, es: seq<Era>)
    requires es != []
    ensures Anchored(es) ==>
      lead + RenderAll(es[..|es| - 1]) + es[|es| - 1].junk == lead && [es[|es| - 1].(junk := [])] == es
  {
    assert es[..0] == [];
  }

  /** With the base at the front of the newest file, all earlier files are what came first. */
  lemma AnchorAfter(files: seq<LogFile>, before: seq<LogFile>, h: Log, lead: seq<Rec>, snap: SeqNo, at: SeqNo,
                    base: seq<Rec>, source: nat)
    requires files != [] && files[..|files| - 1] == before && BaseKeys(base)
    requires Last(files).recs == [Header(source)] + ([Checkpoint(snap)] + base + [BaseEnd(snap)])
    requires lead + Render(Era(h, [], snap, at, base, [])) + [] == Strip(Contents(files))
    ensures lead == Strip(Contents(before))
  {
    hide Strip, Contents;
    var span := [Checkpoint(snap)] + base + [BaseEnd(snap)];
    StripConcat(Contents(before), [Header(source)] + span);
    StripHeader(source, span);
    ContentsLast(files);
    assert Render(Era(h, [], snap, at, base, [])) == span;
    hide Render;
    SamePrefix(lead, Strip(Contents(before)), span);
  }

  lemma StripHeader(source: nat, span: seq<Rec>)
    requires forall i :: 0 <= i < |span| ==> !span[i].Header?
    ensures Strip([Header(source)] + span) == span
  {
    StripConcat([Header(source)], span);
    assert [Header(source)][..0] == [];
    StripPlain(span);
    assert [] + span == span;
  }

  lemma SamePrefix(a: seq<Rec>, b: seq<Rec>, c: seq<Rec>)
    requires a + c + [] == b + c
    ensures a == b
  {
    assert |a| == |b|;
    assert a == (a + c + [])[..|a|] && b == (b + c)[..|a|];
  }

  lemma {:induction false} StripPlain(rs: seq<Rec>)
    requires forall i :: 0 <= i < |rs| ==> !rs[i].Header?
    ensures Strip(rs) == rs
  {
    if rs != [] { StripPlain(rs[..|rs| - 1]); }
  }

  lemma StripNone()
    ensures Strip(Contents([])) == []
  {
  }

  lemma {:induction false} ContentsTail(files: seq<LogFile>)
    requires files != []
    ensures Contents(files) == files[0].recs + Contents(files[1..])
  {
    if |files| == 1 {
      assert files[..0] == [] && files[1..] == [];
    } else {
      ContentsTail(files[..|files| - 1]);
      assert files[..|files| - 1][1..] == files[1..][..|files| - 2];
      Assoc(files[0].recs, Contents(files[1..][..|files| - 2]), files[|files| - 1].recs);
    }
  }

  lemma ChainTail(files: seq<LogFile>, source: nat)
    requires Chain(files, source) && |files| > 1
    ensures Chain(files[1..], source) && Last(files[1..]) == Last(files)
  {
    assert files[1].id == files[0].id + 1;
    forall i | 0 <= i < |files| - 1 ensures files[1..][i].id == files[1].id + i {
      assert files[i + 1].id == files[0].id + (i + 1);
    }
  }

  lemma DropLead(a: seq<Rec>, b: seq<Rec>, c: seq<Rec>, n: nat)
    requires n <= |a|
    ensures (a + b + c)[n..] == a[n..] + b + c
  {
  }
}
