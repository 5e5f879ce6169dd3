/** Opening a store after a crash: WAL replay, torn-tail truncation, the recovery flush and its
 * manifest flip, and what a crash in between leaves behind.
 */
module Recovery {
  import opened Coding
  import opened Keys
  import opened Types
  import opened Wal

  /** The checksum, and how much of the value log a record's pointers need. */
  datatype Env = Env(crc: Checksum, need: Bytes -> nat)

  /** A WAL file; a power loss keeps at least its first `synced` bytes. */
  datatype WalFile = WalFile(id: nat, bytes: Bytes, synced: nat)

  /** What is on disk.  `tables` are the records the manifest's tables hold, `floor` its WAL floor,
      `values` the length of the value log, of which `valuesSynced` is durable. */
  datatype Disk = Disk(floor: nat, tables: seq<Bytes>, wals: seq<WalFile>, values: nat, valuesSynced: nat, nextId: nat)

  predicate Ascending(ws: seq<WalFile>, nextId: nat) {
    (forall i, j :: 0 <= i < j < |ws| ==> ws[i].id < ws[j].id) && (forall i :: 0 <= i < |ws| ==> ws[i].id < nextId)
  }

  predicate WfDisk(d: Disk) {
    Ascending(d.wals, d.nextId) && d.valuesSynced <= d.values && d.floor <= d.nextId &&
    forall i :: 0 <= i < |d.wals| ==> d.wals[i].synced <= |d.wals[i].bytes|
  }

  /** The WALs a replay reads. */
  function Live(ws: seq<WalFile>, floor: nat): (live: seq<WalFile>)
    ensures |live| <= |ws|
  {
    if ws == [] then []
    else if ws[0].id >= floor then [ws[0]] + Live(ws[1..], floor)
    else Live(ws[1..], floor)
  }

  /** How many leading records point only at values that are there. */
  function Usable(env: Env, rs: seq<Bytes>, values: nat): (n: nat)
    ensures n <= |rs|
    ensures forall i :: 0 <= i < n ==> env.need(rs[i]) <= values
    ensures n < |rs| ==> env.need(rs[n]) > values
  {
    if rs == [] || env.need(rs[0]) > values then 0 else 1 + Usable(env, rs[1..], values)
  }

  /** A replay's records, and the valid length of the newest WAL if its tail is to be cut off. */
  datatype Replay = Replayed(records: seq<Bytes>, tear: Option<nat>) | Damaged

  function ReplayOf(env: Env, ws: seq<WalFile>, values: nat): Replay {
    if ws == [] then Replayed([], None)
    else
      var c := ReadFrom(env.crc, ws[0].bytes, 0);
      var n := Usable(env, c.records, values);
      if n < |c.records| then Replayed(c.records[..n], None)
      else if c.clean then
        var rest := ReplayOf(env, ws[1..], values);
        if rest.Damaged? then Damaged else Replayed(c.records + rest.records, rest.tear)
      else if |ws| == 1 then Replayed(c.records, Some(c.validLen))
      else Damaged
  }

  /** The records a store opened on this disk serves; none if it refuses to open. */
  function Recovered(env: Env, d: Disk): Option<seq<Bytes>> {
    var r := ReplayOf(env, Live(d.wals, d.floor), d.values);
    if r.Damaged? then None else Some(d.tables + r.records)
  }

  // ---------------------------------------------------------------- the steps of opening

  /** Cut the torn tail off the newest WAL. */
  function Truncate(d: Disk, tear: Option<nat>): Disk
    requires tear.Some? ==> d.wals != [] && tear.value <= |d.wals[|d.wals| - 1].bytes|
  {
    if tear.None? then d
    else
      var n := |d.wals| - 1;
      d.(wals := d.wals[..n] + [WalFile(d.wals[n].id, d.wals[n].bytes[..tear.value], tear.value)])
  }

  /** Create the fresh value-log head and the fresh WAL. */
  function AddFresh(d: Disk): Disk {
    d.(wals := d.wals + [WalFile(d.nextId + 1, [], 0)], nextId := d.nextId + 2)
  }

  /** The manifest flip that records the recovery table and passes every replayed WAL. */
  function FlushRecovered(d: Disk, records: seq<Bytes>, lastId: nat): Disk {
    if records == [] then d
    else d.(tables := d.tables + records, floor := if d.floor < lastId + 1 then lastId + 1 else d.floor)
  }

  function Finish(d: Disk, walId: nat): Disk {
    d.(floor := walId)
  }

  function Sweep(d: Disk): Disk {
    d.(wals := Live(d.wals, d.floor))
  }

  // ---------------------------------------------------------------- what each step keeps

  lemma {:induction false} LiveAppend(ws: seq<WalFile>, w: WalFile, floor: nat)
    ensures Live(ws + [w], floor) == Live(ws, floor) + if w.id >= floor then [w] else []
  {
    if ws == [] {
      assert [] + [w] == [w];
    } else {
      assert (ws + [w])[1..] == ws[1..] + [w];
      LiveAppend(ws[1..], w, floor);
    }
  }

  lemma {:induction false} LiveNone(ws: seq<WalFile>, floor: nat)
    requires forall i :: 0 <= i < |ws| ==> ws[i].id < floor
    ensures Live(ws, floor) == []
  {
    if ws != [] { LiveNone(ws[1..], floor); }
  }

  lemma {:induction false} LiveAll(ws: seq<WalFile>, floor: nat)
    requires forall i :: 0 <= i < |ws| ==> ws[i].id >= floor
    ensures Live(ws, floor) == ws
  {
    if ws != [] { LiveAll(ws[1..], floor); }
  }

  lemma {:induction false} LiveIsLive(ws: seq<WalFile>, floor: nat)
    ensures forall i :: 0 <= i < |Live(ws, floor)| ==> Live(ws, floor)[i].id >= floor && Live(ws, floor)[i] in ws
  {
    if ws != [] { LiveIsLive(ws[1..], floor); }
  }

  lemma {:induction false} LiveLast(ws: seq<WalFile>, floor: nat)
    requires ws != [] && ws[|ws| - 1].id >= floor
    ensures Live(ws, floor) != [] && Live(ws, floor)[|Live(ws, floor)| - 1] == ws[|ws| - 1]
  {
    if |ws| > 1 { LiveLast(ws[1..], floor); }
  }

  /** A torn newest WAL, cut to its valid prefix, replays to the same records with nothing to cut. */
  lemma {:induction false} TruncationKeeps(env: Env, ws: seq<WalFile>, values: nat)
    requires var r := ReplayOf(env, ws, values); r.Replayed? && r.tear.Some?
    ensures var r, n := ReplayOf(env, ws, values), |ws| - 1;
      ws != [] && r.tear.value <= |ws[n].bytes| &&
      ReplayOf(env, ws[..n] + [WalFile(ws[n].id, ws[n].bytes[..r.tear.value], r.tear.value)], values) ==
        Replayed(r.records, None)
  {
    var r, n := ReplayOf(env, ws, values), |ws| - 1;
    var c := ReadFrom(env.crc, ws[0].bytes, 0);
    if c.clean {
      TruncationKeeps(env, ws[1..], values);
      var cut := WalFile(ws[n].id, ws[n].bytes[..r.tear.value], r.tear.value);
      assert (ws[..n] + [cut])[1..] == ws[1..][..n - 1] + [cut];
    } else {
      TruncatedIsClean(env.crc, ws[0].bytes, 0);
      assert ws[..n] == [];
      assert c.records + [] == c.records;
    }
  }

  /** A fresh, empty WAL adds nothing, once no tail is left to cut. */
  lemma {:induction false} FreshKeeps(env: Env, ws: seq<WalFile>, w: WalFile, values: nat)
    requires var r := ReplayOf(env, ws, values); r.Replayed? && r.tear.None?
    requires w.bytes == []
    ensures ReplayOf(env, ws + [w], values) == ReplayOf(env, ws, values)
  {
    if ws == [] {
      assert [] + [w] == [w];
      assert ReplayOf(env, [w][1..], values) == Replayed([], None);
    } else {
      assert (ws + [w])[1..] == ws[1..] + [w];
      var c := ReadFrom(env.crc, ws[0].bytes, 0);
      if Usable(env, c.records, values) == |c.records| && c.clean {
        FreshKeeps(env, ws[1..], w, values);
      }
    }
  }

  /** Nothing a power loss could take is left. */
  predicate OnPlatter(d: Disk) {
    (d.wals != [] ==> d.wals[|d.wals| - 1].synced == |d.wals[|d.wals| - 1].bytes|) && d.valuesSynced == d.values
  }

  // ---------------------------------------------------------------- the replay loop

  /** A replay that goes on with `rest` after these records. */
  function Onto(records: seq<Bytes>, rest: Replay): Replay {
    if rest.Damaged? then Damaged else Replayed(records + rest.records, rest.tear)
  }

  lemma {:induction false} UsableFrom(env: Env, rs: seq<Bytes>, values: nat, i: nat)
    requires i <= |rs| && forall j :: 0 <= j < i ==> env.need(rs[j]) <= values
    ensures Usable(env, rs, values) == i + Usable(env, rs[i..], values)
  {
    if i > 0 {
      UsableFrom(env, rs[1..], values, i - 1);
      assert rs[1..][i - 1..] == rs[i..];
    }
  }

  /** Take records until one points at a value that is not there. */
  method TakeUsable(env: Env, before: seq<Bytes>, rs: seq<Bytes>, values: nat) returns (records: seq<Bytes>, n: nat)
    ensures n == Usable(env, rs, values) && records == before + rs[..n]
  {
    hide Usable;
    records, n := before, 0;
    while n < |rs| && env.need(rs[n]) <= values
      invariant 0 <= n <= |rs| && records == before + rs[..n]
      invariant forall j :: 0 <= j < n ==> env.need(rs[j]) <= values
    {
      records := records + [rs[n]];
      n := n + 1;
    }
    UsableStops(env, rs, values, n);
  }

  lemma UsableStops(env: Env, rs: seq<Bytes>, values: nat, n: nat)
    requires n <= |rs| && (forall j :: 0 <= j < n ==> env.need(rs[j]) <= values)
    requires n < |rs| ==> env.need(rs[n]) > values
    ensures Usable(env, rs, values) == n
  {
    UsableFrom(env, rs, values, n);
  }

  /** What one WAL contributes. */
  lemma ReplayStep(env: Env, ws: seq<WalFile>, values: nat, c: Contents, n: nat)
    requires ws != [] && c == ReadFrom(env.crc, ws[0].bytes, 0) && n == Usable(env, c.records, values)
    ensures n < |c.records| ==> ReplayOf(env, ws, values) == Replayed(c.records[..n], None)
    ensures n == |c.records| && c.clean ==> ReplayOf(env, ws, values) == Onto(c.records, ReplayOf(env, ws[1..], values))
    ensures n == |c.records| && !c.clean ==>
      ReplayOf(env, ws, values) == if |ws| == 1 then Replayed(c.records, Some(c.validLen)) else Damaged
  {
    hide ReadFrom;
  }

  /** Read the live WALs oldest first; stop at a pointer whose value was lost, at a torn tail of the
      newest, and refuse a torn tail of any other. */
  method ReplayAll(env: Env, ws: seq<WalFile>, values: nat) returns (r: Replay)
    ensures r == ReplayOf(env, ws, values)
  {
    hide ReadFrom, ReplayOf, Usable;
    var records := [];
    var wi := 0;
    assert ws[0..] == ws;
    while wi < |ws|
      invariant 0 <= wi <= |ws|
      invariant ReplayOf(env, ws, values) == Onto(records, ReplayOf(env, ws[wi..], values))
    {
      var c := ReadWal(env.crc, ws[wi].bytes);
      var before := records;
      var n;
      records, n := TakeUsable(env, before, c.records, values);
      ReplayStep(env, ws[wi..], values, c, n);
      assert ws[wi..][1..] == ws[wi + 1..];
      if n < |c.records| { return Replayed(records, None); }
      assert c.records[..n] == c.records;
      if !c.clean {
        if wi == |ws| - 1 { return Replayed(records, Some(c.validLen)); }
        return Damaged;
      }
      OntoOnto(before, c.records, ReplayOf(env, ws[wi + 1..], values));
      wi := wi + 1;
    }
    ReplayNothing(env, values);
    assert ws[wi..] == [];
    assert records + [] == records;
    r := Replayed(records, None);
  }

  lemma ReplayNothing(env: Env, values: nat)
    ensures ReplayOf(env, [], values) == Replayed([], None)
  {
  }

  lemma OntoOnto(a: seq<Bytes>, b: seq<Bytes>, rest: Replay)
    ensures Onto(a, Onto(b, rest)) == Onto(a + b, rest)
  {
    if rest.Replayed? { assert a + (b + rest.records) == (a + b) + rest.records; }
  }

  // ---------------------------------------------------------------- opening

  /** The disk replays to `records`, with no tail to cut. */
  predicate ReplaysTo(env: Env, d: Disk, records: seq<Bytes>) {
    ReplayOf(env, Live(d.wals, d.floor), d.values) == Replayed(records, None)
  }

  /** The newest WAL is among the live ones if there is any. */
  lemma NewestIsLive(d: Disk)
    requires WfDisk(d)
    ensures var live := Live(d.wals, d.floor);
      (live != [] ==> d.wals != [] && live[|live| - 1] == d.wals[|d.wals| - 1] && live[|live| - 1].id >= d.floor) &&
      (live == [] ==> forall i :: 0 <= i < |d.wals| ==> d.wals[i].id < d.floor)
  {
    hide Live;
    LiveIsLive(d.wals, d.floor);
    var live := Live(d.wals, d.floor);
    if live != [] { assert live[0] in d.wals; }
    if d.wals != [] && d.wals[|d.wals| - 1].id >= d.floor { LiveLast(d.wals, d.floor); }
  }

  lemma TruncateKeeps(env: Env, d: Disk)
    requires WfDisk(d) && ReplayOf(env, Live(d.wals, d.floor), d.values).Replayed?
    ensures var r := ReplayOf(env, Live(d.wals, d.floor), d.values);
      (r.tear.Some? ==> d.wals != [] && r.tear.value <= |d.wals[|d.wals| - 1].bytes|) &&
      var d' := Truncate(d, r.tear);
      WfDisk(d') && ReplaysTo(env, d', r.records) &&
      |d'.wals| == |d.wals| && (forall i :: 0 <= i < |d.wals| ==> d'.wals[i].id == d.wals[i].id)
  {
    hide ReplayOf, Live;
    var live := Live(d.wals, d.floor);
    var r := ReplayOf(env, live, d.values);
    if r.tear.Some? {
      TruncationKeeps(env, live, d.values);
      NewestIsLive(d);
      CutIsLive(d, r.tear.value);
    }
  }

  lemma CutIsLive(d: Disk, at: nat)
    requires WfDisk(d) && Live(d.wals, d.floor) != [] && d.wals != [] && at <= |d.wals[|d.wals| - 1].bytes|
    ensures at <= |Live(d.wals, d.floor)[|Live(d.wals, d.floor)| - 1].bytes|
    ensures var live := Live(d.wals, d.floor);
      Live(Truncate(d, Some(at)).wals, d.floor) ==
        live[..|live| - 1] + [WalFile(live[|live| - 1].id, live[|live| - 1].bytes[..at], at)]
  {
    NewestIsLive(d);
    var n := |d.wals| - 1;
    var cut := WalFile(d.wals[n].id, d.wals[n].bytes[..at], at);
    LiveAppend(d.wals[..n], d.wals[n], d.floor);
    LiveAppend(d.wals[..n], cut, d.floor);
    assert d.wals == d.wals[..n] + [d.wals[n]];
    assert Live(d.wals, d.floor)[..|Live(d.wals, d.floor)| - 1] == Live(d.wals[..n], d.floor);
  }

  lemma AddFreshKeeps(env: Env, d: Disk, records: seq<Bytes>)
    requires WfDisk(d) && ReplaysTo(env, d, records)
    ensures WfDisk(AddFresh(d)) && ReplaysTo(env, AddFresh(d), records)
  {
    hide ReplayOf;
    var w := WalFile(d.nextId + 1, [], 0);
    LiveAppend(d.wals, w, d.floor);
    FreshKeeps(env, Live(d.wals, d.floor), w, d.values);
  }

  /** All that is left to replay is the fresh WAL `w`. */
  lemma OnlyFresh(env: Env, ws: seq<WalFile>, w: WalFile, floor: nat, values: nat)
    requires (forall i :: 0 <= i < |ws| ==> ws[i].id < floor) && floor <= w.id && w.bytes == []
    ensures Live(ws + [w], floor) == [w] && ReplayOf(env, [w], values) == Replayed([], None)
  {
    LiveNone(ws, floor);
    LiveAppend(ws, w, floor);
    assert [w][1..] == [];
    assert ReplayOf(env, [w][1..], values) == Replayed([], None);
  }

  /** The recovery table and the floor move in one manifest write: the records change sides. */
  lemma FlipKeeps(env: Env, d: Disk, lastId: nat, records: seq<Bytes>)
    requires WfDisk(d) && ReplaysTo(env, d, records) && d.wals != [] && d.wals[|d.wals| - 1].bytes == []
    requires lastId < d.wals[|d.wals| - 1].id && d.floor <= d.wals[|d.wals| - 1].id
    requires records != [] ==> forall i :: 0 <= i < |d.wals| - 1 ==> d.wals[i].id <= lastId
    ensures WfDisk(FlushRecovered(d, records, lastId)) && ReplaysTo(env, FlushRecovered(d, records, lastId), [])
    ensures FlushRecovered(d, records, lastId).tables == d.tables + records
  {
    hide ReplayOf;
    if records == [] {
      assert d.tables + records == d.tables;
    } else {
      var n, d' := |d.wals| - 1, FlushRecovered(d, records, lastId);
      assert d.wals == d.wals[..n] + [d.wals[n]];
      OnlyFresh(env, d.wals[..n], d.wals[n], d'.floor, d.values);
    }
  }

  lemma FinishKeeps(env: Env, d: Disk)
    requires WfDisk(d) && d.wals != [] && d.wals[|d.wals| - 1].bytes == []
    ensures var w := d.wals[|d.wals| - 1];
      WfDisk(Finish(d, w.id)) && ReplaysTo(env, Finish(d, w.id), []) && Live(d.wals, w.id) == [w]
  {
    var n := |d.wals| - 1;
    assert d.wals == d.wals[..n] + [d.wals[n]];
    OnlyFresh(env, d.wals[..n], d.wals[n], d.wals[n].id, d.values);
  }

  class Directory {
    var floor: nat
    var tables: seq<Bytes>
    var wals: seq<WalFile>
    var values: nat
    var valuesSynced: nat
    var nextId: nat

    constructor (d: Disk)
      ensures View() == d
    {
      floor, tables, wals, values, valuesSynced, nextId := d.floor, d.tables, d.wals, d.values, d.valuesSynced,
        d.nextId;
    }

    function View(): Disk
      reads this
    {
      Disk(floor, tables, wals, values, valuesSynced, nextId)
    }

    method CutTail(tear: Option<nat>)
      requires tear.Some? ==> wals != [] && tear.value <= |wals[|wals| - 1].bytes|
      modifies this`wals
      ensures View() == Truncate(old(View()), tear)
    {
      if tear.Some? {
        var n := |wals| - 1;
        wals := wals[..n] + [WalFile(wals[n].id, wals[n].bytes[..tear.value], tear.value)];
      }
    }

    method CreateFresh() returns (walId: nat)
      modifies this`wals, this`nextId
      ensures View() == AddFresh(old(View())) && walId == old(nextId) + 1
    {
      walId := nextId + 1;
      wals, nextId := wals + [WalFile(walId, [], 0)], nextId + 2;
    }

    /** The recovery memtable's flush: one manifest write for its table and the floor. */
    method FlipRecovered(records: seq<Bytes>, lastId: nat)
      modifies this`tables, this`floor
      ensures View() == FlushRecovered(old(View()), records, lastId)
    {
      if records != [] {
        tables := tables + records;
        if floor < lastId + 1 { floor := lastId + 1; }
      }
    }

    /** Neutralize the torn tail, then create the fresh files. */
    method Prepare(ghost env: Env, records: seq<Bytes>, tear: Option<nat>, steps: nat) returns (walId: nat)
      requires WfDisk(View()) && ReplayOf(env, Live(wals, floor), values) == Replayed(records, tear)
      modifies this`wals, this`nextId
      ensures WfDisk(View()) && Recovered(env, View()) == Recovered(env, old(View()))
      ensures OnPlatter(old(View())) ==> OnPlatter(View())
      ensures steps >= 2 ==> ReplaysTo(env, View(), records) && walId == old(nextId) + 1
      ensures steps >= 2 ==> |wals| == |old(wals)| + 1 && wals[|old(wals)|] == WalFile(walId, [], 0)
      ensures steps >= 2 ==> forall i :: 0 <= i < |old(wals)| ==> wals[i].id == old(wals[i].id)
    {
      hide ReplayOf, Live, Truncate, AddFresh;
      ghost var d := View();
      walId := 0;
      if steps == 0 { return; }
      TruncateKeeps(env, d);
      CutTail(tear);
      TruncateFrame(d, tear);
      if steps == 1 { return; }
      AddFreshKeeps(env, View(), records);
      AddFreshFrame(View());
      walId := CreateFresh();
    }

    /** The flip of the recovered records, the final manifest, and the sweep of old WALs. */
    method Commit(ghost env: Env, records: seq<Bytes>, lastId: nat, walId: nat, steps: nat)
      requires WfDisk(View()) && ReplaysTo(env, View(), records) && wals != []
      requires wals[|wals| - 1] == WalFile(walId, [], 0) && lastId < walId && floor <= walId
      requires records != [] ==> forall i :: 0 <= i < |wals| - 1 ==> wals[i].id <= lastId
      modifies this`tables, this`floor, this`wals
      ensures WfDisk(View()) && Recovered(env, View()) == Recovered(env, old(View()))
      ensures OnPlatter(old(View())) ==> OnPlatter(View())
      ensures steps >= 3 ==> tables == old(tables) + records && wals == [WalFile(floor, [], 0)]
    {
      hide ReplayOf, Live;
      if steps == 0 { return; }
      FlipKeeps(env, View(), lastId, records);
      FlipRecovered(records, lastId);
      assert tables + [] == tables;
      if steps == 1 { return; }
      FinishKeeps(env, View());
      floor := walId;
      if steps == 2 { return; }
      wals := Live(wals, floor);
      LiveAll(wals, floor);
    }

    /** Open the store; a crash may stop it after any number of its steps.
     *
     * It refuses to open exactly when the replay finds damage.  Otherwise a store opened on whatever
     * is left serves the same records, however far it got; and when it got to the end they are all
     * in tables, under a fresh WAL that is the only one left. */
    method Open(env: Env, steps: nat) returns (ok: bool)
      requires WfDisk(View())
      modifies this
      ensures WfDisk(View())
      ensures ok <==> Recovered(env, old(View())).Some?
      ensures Recovered(env, View()) == Recovered(env, old(View()))
      ensures OnPlatter(old(View())) ==> OnPlatter(View())
      ensures values == old(values) && valuesSynced == old(valuesSynced)
      ensures ok && steps >= 5 ==> tables == Recovered(env, old(View())).value && wals == [WalFile(floor, [], 0)]
    {
      hide ReplayOf, Live;
      ghost var d := View();
      var live := Live(wals, floor);
      var r := ReplayAll(env, live, values);
      if r.Damaged? { return false; }
      ok := true;
      var lastId := if live == [] then 0 else live[|live| - 1].id;
      var walId := Prepare(env, r.records, r.tear, steps);
      if steps < 2 { return; }
      LastIdCovers(env, d, View(), r.records, lastId);
      Commit(env, r.records, lastId, walId, steps - 2);
    }
  }

  lemma TruncateFrame(d: Disk, tear: Option<nat>)
    requires tear.Some? ==> d.wals != [] && tear.value <= |d.wals[|d.wals| - 1].bytes|
    ensures var d' := Truncate(d, tear);
      d'.floor == d.floor && d'.tables == d.tables && d'.values == d.values && d'.valuesSynced == d.valuesSynced &&
      d'.nextId == d.nextId && (OnPlatter(d) ==> OnPlatter(d'))
  {
  }

  lemma AddFreshFrame(d: Disk)
    ensures var d' := AddFresh(d);
      d'.floor == d.floor && d'.tables == d.tables && d'.values == d.values && d'.valuesSynced == d.valuesSynced &&
      |d'.wals| == |d.wals| + 1 && d'.wals[|d.wals|] == WalFile(d.nextId + 1, [], 0) &&
      forall i :: 0 <= i < |d.wals| ==> d'.wals[i] == d.wals[i]
  {
  }

  /** The newest replayed id covers every WAL but the fresh one, if anything was replayed. */
  lemma LastIdCovers(env: Env, d: Disk, after: Disk, records: seq<Bytes>, lastId: nat)
    requires WfDisk(d) && ReplayOf(env, Live(d.wals, d.floor), d.values).Replayed?
    requires records == ReplayOf(env, Live(d.wals, d.floor), d.values).records
    requires var live := Live(d.wals, d.floor); lastId == if live == [] then 0 else live[|live| - 1].id
    requires |after.wals| == |d.wals| + 1 && after.wals[|d.wals|].id == d.nextId + 1 && after.floor == d.floor
    requires forall i :: 0 <= i < |d.wals| ==> after.wals[i].id == d.wals[i].id
    ensures lastId < after.wals[|d.wals|].id && after.floor <= after.wals[|d.wals|].id
    ensures records != [] ==> forall i :: 0 <= i < |d.wals| ==> after.wals[i].id <= lastId
  {
    hide Live;
    NewestIsLive(d);
  }

  // ---------------------------------------------------------------- the running store

  /** A store between opens: the records of each sealed memtable, oldest first, those of the current
      one, how many of these a WAL sync covers, and how many records in all were acknowledged as
      durable. */
  datatype Store = Store(disk: Disk, sealed: seq<seq<Bytes>>, current: seq<Bytes>, covered: nat, acked: nat)

  /** `Append` and `AppendFails` write at the end of the last whole frame, over whatever a failed
      append left there.  A degraded store still appends, syncs and rotates: writers are admitted
      before they take the write lock, and a GC pass is admitted once for all its batches. */
  datatype Event =
    | Append(p: Bytes, grown: nat)
    | AppendFails(g: Bytes)
    | SyncValues
    | Sync
    | Rotate
    | Flush
    | DeleteOld

  function Flat(parts: seq<seq<Bytes>>): seq<Bytes> {
    if parts == [] then [] else parts[0] + Flat(parts[1..])
  }

  /** Every record appended so far, oldest first. */
  function Hist(s: Store): seq<Bytes> {
    s.disk.tables + (Flat(s.sealed) + s.current)
  }

  function Newest(d: Disk): WalFile
    requires d.wals != []
  {
    d.wals[|d.wals| - 1]
  }

  function WithNewest(d: Disk, bytes: Bytes, synced: nat): Disk
    requires d.wals != []
  {
    var n := |d.wals| - 1;
    d.(wals := d.wals[..n] + [WalFile(d.wals[n].id, bytes, synced)])
  }

  /** What one failed append writes: a frame cut short. */
  ghost predicate TornTail(env: Env, g: Bytes) {
    g == [] || exists p :: Writable(p) && |g| < |Frame(env.crc, p)| && g == Frame(env.crc, p)[..|g|]
  }

  /** A WAL starts with exactly these records' frames; anything may follow. */
  predicate Starts(env: Env, bytes: Bytes, rs: seq<Bytes>) {
    AllWritable(rs) && Frames(env.crc, rs) <= bytes
  }

  /** What follows the frames reads as no record. */
  predicate Inert(env: Env, bytes: Bytes, rs: seq<Bytes>)
    requires Frames(env.crc, rs) <= bytes
  {
    var g := bytes[|Frames(env.crc, rs)|..];
    g == [] || Garbage(env.crc, Frames(env.crc, rs), g)
  }

  /** A WAL reads back as exactly these records, torn or not. */
  predicate Holds(env: Env, bytes: Bytes, rs: seq<Bytes>) {
    Starts(env, bytes, rs) && Inert(env, bytes, rs)
  }

  /** A write at an offset: what it does not reach stays. */
  function Over(bytes: Bytes, off: nat, data: Bytes): Bytes
    requires off <= |bytes|
  {
    bytes[..off] + (data + if off + |data| < |bytes| then bytes[off + |data|..] else [])
  }

  ghost predicate Enabled(env: Env, s: Store, e: Event)
    requires s.disk.wals != []
  {
    match e
    case Append(p, grown) => Writable(p) && env.need(p) <= s.disk.values + grown
    case AppendFails(g) => g != [] && TornTail(env, g)
    case SyncValues => true
    case Sync => true
    case Rotate => s.current != []
    case Flush => s.sealed != [] && Live(s.disk.wals, s.disk.floor) != []
    case DeleteOld => true
  }

  /** Where the next append goes.  Writing over bytes that a sync had made durable makes them volatile
      again. */
  function End(env: Env, s: Store): nat {
    |Frames(env.crc, s.current)|
  }

  function Next(env: Env, s: Store, e: Event): Store
    requires s.disk.wals != [] && End(env, s) <= |Newest(s.disk).bytes|
    requires e.Flush? ==> s.sealed != [] && Live(s.disk.wals, s.disk.floor) != []
  {
    var d, w, end := s.disk, Newest(s.disk), End(env, s);
    match e
    case Append(p, grown) =>
      s.(current := s.current + [p],
         disk := WithNewest(d, Over(w.bytes, end, Frame(env.crc, p)), Min(w.synced, end)).(values := d.values + grown))
    case AppendFails(g) => s.(disk := WithNewest(d, Over(w.bytes, end, g), Min(w.synced, end)))
    case SyncValues => s.(disk := d.(valuesSynced := d.values))
    case Sync =>
      s.(disk := WithNewest(d, w.bytes, |w.bytes|).(valuesSynced := d.values), covered := |s.current|,
        acked := |Hist(s)|)
    case Rotate =>
      var sealed := WithNewest(d, w.bytes, |w.bytes|);
      s.(sealed := s.sealed + [s.current], current := [], covered := 0,
         disk := sealed.(wals := sealed.wals + [WalFile(d.nextId, [], 0)], nextId := d.nextId + 1))
    case Flush =>
      s.(sealed := s.sealed[1..], disk := d.(tables := d.tables + s.sealed[0], valuesSynced := d.values,
                                             floor := Live(d.wals, d.floor)[0].id + 1))
    case DeleteOld => s.(disk := Sweep(d))
  }

  /** The live WALs: one per sealed memtable, durable, and the newest. */
  ghost predicate LiveWals(env: Env, s: Store) {
    var live, n := Live(s.disk.wals, s.disk.floor), |s.sealed|;
    |live| == n + 1 && s.disk.wals != [] && Newest(s.disk).id >= s.disk.floor && Newest(s.disk) == live[n] &&
    (forall i :: 0 <= i < n ==> Starts(env, live[i].bytes, s.sealed[i])) &&
    Starts(env, live[n].bytes, s.current) &&
    s.covered <= |s.current| && |Frames(env.crc, s.current[..s.covered])| <= live[n].synced
  }

  ghost predicate Needs(env: Env, rs: seq<Bytes>, values: nat) {
    forall i :: 0 <= i < |rs| ==> env.need(rs[i]) <= values
  }

  /** Acknowledged records are durable, and so are their values and those the tables point at. */
  ghost predicate Durable(env: Env, s: Store) {
    s.acked <= |s.disk.tables| + |Flat(s.sealed)| + s.covered && s.acked <= |Hist(s)| &&
    Needs(env, Hist(s), s.disk.values) && Needs(env, s.disk.tables, s.disk.valuesSynced) &&
    Needs(env, Hist(s)[..s.acked], s.disk.valuesSynced)
  }

  ghost predicate Inv(env: Env, s: Store) {
    IsChecksum(env.crc) && WfDisk(s.disk) && LiveWals(env, s) && Durable(env, s)
  }

  /** Every sealed WAL ends with its last record. */
  ghost predicate SealedClean(env: Env, s: Store) {
    var live := Live(s.disk.wals, s.disk.floor);
    forall i :: 0 <= i < |s.sealed| && i < |live| ==> live[i].bytes == Frames(env.crc, s.sealed[i])
  }

  /** And what is left of failed appends in the newest WAL reads as no record. */
  ghost predicate Sound(env: Env, s: Store) {
    SealedClean(env, s) && s.disk.wals != [] && Holds(env, Newest(s.disk).bytes, s.current)
  }

  /** The newest WAL ends with its last record. */
  predicate Whole(env: Env, s: Store)
    requires s.disk.wals != []
  {
    Newest(s.disk).bytes == Frames(env.crc, s.current)
  }

  // ---------------------------------------------------------------- what a replay finds

  lemma HoldsReads(env: Env, bytes: Bytes, rs: seq<Bytes>)
    requires IsChecksum(env.crc) && Holds(env, bytes, rs)
    ensures ReadFrom(env.crc, bytes, 0) == Contents(rs, |Frames(env.crc, rs)|, bytes == Frames(env.crc, rs))
  {
    hide Frame, Frames, ReadFrom;
    var g := bytes[|Frames(env.crc, rs)|..];
    assert bytes == Frames(env.crc, rs) + g;
    FileReads(env.crc, rs, g);
  }

  lemma WholeHolds(env: Env, rs: seq<Bytes>)
    requires AllWritable(rs)
    ensures Holds(env, Frames(env.crc, rs), rs)
  {
    hide Frames;
    assert Frames(env.crc, rs)[|Frames(env.crc, rs)|..] == [];
  }

  /** A record that a cut file holds is one the whole file holds. */
  lemma CutGarbage(crc: Checksum, pre: Bytes, g: Bytes, n: nat)
    requires Garbage(crc, pre, g) && 0 < n <= |g|
    ensures Garbage(crc, pre, g[..n])
  {
    var whole, cut, pos := pre + g, pre + g[..n], |pre|;
    assert cut == whole[..|cut|];
    if |cut| - pos >= HEADER_LEN {
      assert cut[pos..pos + 4] == whole[pos..pos + 4] && cut[pos + 4..pos + 8] == whole[pos + 4..pos + 8];
      hide FromLittleEndian;
      var len := FromLittleEndian(cut[pos..pos + 4]);
      if |cut| - pos - HEADER_LEN >= len {
        assert cut[pos + HEADER_LEN..pos + HEADER_LEN + len] == whole[pos + HEADER_LEN..pos + HEADER_LEN + len];
      }
    }
  }

  /** Losing the end of a WAL loses its last records, none that the kept length covers, and what is
      left still reads back. */
  lemma HoldsCut(env: Env, bytes: Bytes, rs: seq<Bytes>, n: nat) returns (k: nat)
    requires IsChecksum(env.crc) && Holds(env, bytes, rs) && n <= |bytes|
    ensures k <= |rs| && Holds(env, bytes[..n], rs[..k])
    ensures forall j :: 0 <= j <= |rs| && |Frames(env.crc, rs[..j])| <= n ==> j <= k
  {
    hide Frame, Frames, Garbage;
    var end := |Frames(env.crc, rs)|;
    if n <= end {
      k := CutPoint(env.crc, rs, n);
      assert bytes[..n] == Frames(env.crc, rs)[..n];
      CutHolds(env, rs, k, n);
      forall j | 0 <= j <= |rs| && |Frames(env.crc, rs[..j])| <= n ensures j <= k {
        if j > k { LongerFrames(env.crc, rs, k, j); }
      }
    } else {
      k := |rs|;
      assert rs[..k] == rs;
      assert bytes[..n][end..] == bytes[end..][..n - end];
      CutGarbage(env.crc, Frames(env.crc, rs), bytes[end..], n - end);
    }
  }

  lemma CutHolds(env: Env, rs: seq<Bytes>, k: nat, n: nat)
    requires IsChecksum(env.crc) && AllWritable(rs) && k <= |rs| && n <= |Frames(env.crc, rs)| &&
      |Frames(env.crc, rs[..k])| <= n
    requires k < |rs| ==> n - |Frames(env.crc, rs[..k])| < |Frame(env.crc, rs[k])|
    requires Frames(env.crc, rs)[..n] ==
      Frames(env.crc, rs[..k]) + (if k < |rs| then Frame(env.crc, rs[k])[..n - |Frames(env.crc, rs[..k])|] else [])
    ensures Holds(env, Frames(env.crc, rs)[..n], rs[..k])
  {
    hide Frame, Frames, Garbage;
    var pre, r := Frames(env.crc, rs[..k]), n - |Frames(env.crc, rs[..k])|;
    var cut := Frames(env.crc, rs)[..n];
    assert cut[|pre|..] == if k < |rs| then Frame(env.crc, rs[k])[..r] else [];
    if k < |rs| && r > 0 {
      FrameLength(env.crc, rs[k]);
      CutFrameIsGarbage(env.crc, pre, rs[k], r);
    }
  }

  lemma {:induction false} LongerFrames(crc: Checksum, rs: seq<Bytes>, k: nat, j: nat)
    requires k < j <= |rs|
    ensures |Frames(crc, rs[..j])| >= |Frames(crc, rs[..k])| + |Frame(crc, rs[k])|
    decreases j
  {
    hide Frame;
    assert rs[..j] == rs[..j - 1] + [rs[j - 1]];
    FramesSnoc(crc, rs[..j - 1], rs[j - 1]);
    if k < j - 1 { LongerFrames(crc, rs, k, j - 1); }
  }

  lemma {:induction false} UsableConcat(env: Env, a: seq<Bytes>, b: seq<Bytes>, values: nat)
    ensures Usable(env, a + b, values) ==
            if Usable(env, a, values) < |a| then Usable(env, a, values) else |a| + Usable(env, b, values)
  {
    if a == [] {
      assert a + b == b;
    } else {
      assert (a + b)[1..] == a[1..] + b;
      UsableConcat(env, a[1..], b, values);
    }
  }

  ghost predicate HoldParts(env: Env, ws: seq<WalFile>, parts: seq<seq<Bytes>>) {
    |ws| == |parts| && forall i :: 0 <= i < |ws| ==> Holds(env, ws[i].bytes, parts[i])
  }

  ghost predicate CleanBut(env: Env, ws: seq<WalFile>, parts: seq<seq<Bytes>>) {
    forall i :: 0 <= i < |ws| - 1 && i < |parts| ==> ws[i].bytes == Frames(env.crc, parts[i])
  }

  /** A replay returns the records in order, up to the first whose values are gone. */
  lemma {:induction false} ReplayFinds(env: Env, ws: seq<WalFile>, parts: seq<seq<Bytes>>, values: nat)
    requires IsChecksum(env.crc) && HoldParts(env, ws, parts) && CleanBut(env, ws, parts)
    ensures ReplayOf(env, ws, values).Replayed?
    ensures ReplayOf(env, ws, values).records == Flat(parts)[..Usable(env, Flat(parts), values)]
  {
    hide Holds, Frames, ReadFrom, Usable;
    if ws == [] {
      UsableStops(env, [], values, 0);
    } else {
      var c, n := ReadFrom(env.crc, ws[0].bytes, 0), Usable(env, parts[0], values);
      HoldsReads(env, ws[0].bytes, parts[0]);
      ReplayStep(env, ws, values, c, n);
      UsableConcat(env, parts[0], Flat(parts[1..]), values);
      UsableBound(env, parts[0], values);
      if n < |parts[0]| {
        assert Flat(parts)[..n] == parts[0][..n];
      } else if |ws| > 1 {
        ReplayFinds(env, ws[1..], parts[1..], values);
        TakeOver(parts[0], Flat(parts[1..]), Usable(env, Flat(parts[1..]), values));
      } else {
        UsableStops(env, [], values, 0);
        assert parts[1..] == [] && parts[0] + [] == parts[0];
        assert ws[1..] == [];
      }
    }
  }

  lemma UsableBound(env: Env, rs: seq<Bytes>, values: nat)
    ensures Usable(env, rs, values) <= |rs|
  {
  }

  lemma TakeOver(a: seq<Bytes>, b: seq<Bytes>, n: nat)
    requires n <= |b|
    ensures (a + b)[..|a| + n] == a + b[..n]
  {
  }

  /** With every value there, one torn WAL below the newest is enough to refuse the store. */
  lemma {:induction false} ReplayRefuses(env: Env, ws: seq<WalFile>, parts: seq<seq<Bytes>>, values: nat)
    requires IsChecksum(env.crc) && HoldParts(env, ws, parts) && !CleanBut(env, ws, parts)
    requires Needs(env, Flat(parts), values)
    ensures ReplayOf(env, ws, values).Damaged?
  {
    hide Holds, Frames, ReadFrom, Usable;
    var rs, rest := parts[0], Flat(parts[1..]);
    assert forall i :: 0 <= i < |rs| ==> rs[i] == Flat(parts)[i];
    assert forall i :: 0 <= i < |rest| ==> rest[i] == Flat(parts)[|rs| + i];
    HoldsReads(env, ws[0].bytes, rs);
    UsableStops(env, rs, values, |rs|);
    ReplayStep(env, ws, values, ReadFrom(env.crc, ws[0].bytes, 0), |rs|);
    if ws[0].bytes == Frames(env.crc, rs) {
      var i :| 0 <= i < |ws| - 1 && i < |parts| && ws[i].bytes != Frames(env.crc, parts[i]);
      assert ws[1..][i - 1].bytes != Frames(env.crc, parts[1..][i - 1]);
      ReplayRefuses(env, ws[1..], parts[1..], values);
    }
  }

  // ---------------------------------------------------------------- power loss

  /** A power loss: of the newest WAL at least the synced part stays, of the value log likewise. */
  predicate CanLose(d: Disk, n: nat, values: nat)
    requires d.wals != []
  {
    Newest(d).synced <= n <= |Newest(d).bytes| && d.valuesSynced <= values <= d.values
  }

  function Lose(d: Disk, n: nat, values: nat): Disk
    requires d.wals != [] && CanLose(d, n, values)
  {
    WithNewest(d, Newest(d).bytes[..n], n).(values := values, valuesSynced := values)
  }

  lemma NewestReplaced(d: Disk, bytes: Bytes, synced: nat)
    requires WfDisk(d) && d.wals != [] && Newest(d).id >= d.floor && synced <= |bytes|
    ensures WfDisk(WithNewest(d, bytes, synced))
    ensures var live := Live(d.wals, d.floor);
      live != [] &&
      Live(WithNewest(d, bytes, synced).wals, d.floor) == live[..|live| - 1] + [WalFile(Newest(d).id, bytes, synced)]
  {
    var n := |d.wals| - 1;
    LiveAppend(d.wals[..n], d.wals[n], d.floor);
    LiveAppend(d.wals[..n], WalFile(d.wals[n].id, bytes, synced), d.floor);
    assert d.wals == d.wals[..n] + [d.wals[n]];
  }

  lemma {:induction false} FlatSnoc(parts: seq<seq<Bytes>>, p: seq<Bytes>)
    ensures Flat(parts + [p]) == Flat(parts) + p
  {
    if parts == [] {
      assert [] + [p] == [p] && p + [] == p;
    } else {
      assert (parts + [p])[1..] == parts[1..] + [p];
      FlatSnoc(parts[1..], p);
    }
  }

  /** Of a sound store, every live WAL reads back as its own records. */
  lemma SoundHolds(env: Env, s: Store)
    requires Inv(env, s) && Sound(env, s)
    ensures HoldParts(env, Live(s.disk.wals, s.disk.floor), s.sealed + [s.current])
    ensures CleanBut(env, Live(s.disk.wals, s.disk.floor), s.sealed + [s.current])
  {
    hide Frames, Live, Inert, Durable;
    var live := Live(s.disk.wals, s.disk.floor);
    forall i | 0 <= i < |s.sealed| ensures Holds(env, live[i].bytes, s.sealed[i]) {
      WholeHolds(env, s.sealed[i]);
    }
  }

  /** The records a sound store serves after a power loss are a prefix of those appended, exactly up
      to the first that was cut off or whose values are gone. */
  lemma LossLeavesPrefix(env: Env, s: Store, n: nat, values: nat) returns (k: nat)
    requires Inv(env, s) && Sound(env, s) && CanLose(s.disk, n, values)
    ensures s.covered <= k <= |s.current|
    ensures var rest := Flat(s.sealed) + s.current[..k];
      Recovered(env, Lose(s.disk, n, values)) == Some(s.disk.tables + rest[..Usable(env, rest, values)])
  {
    hide ReplayOf, Live, Holds, Frames, Usable, Durable;
    var d', live := Lose(s.disk, n, values), Live(s.disk.wals, s.disk.floor);
    NewestReplaced(s.disk, Newest(s.disk).bytes[..n], n);
    k := HoldsCut(env, Newest(s.disk).bytes, s.current, n);
    var parts := s.sealed + [s.current[..k]];
    SoundHolds(env, s);
    FlatSnoc(s.sealed, s.current[..k]);
    forall i | 0 <= i < |parts| ensures Holds(env, Live(d'.wals, d'.floor)[i].bytes, parts[i]) {
      assert i < |s.sealed| ==> (s.sealed + [s.current])[i] == parts[i];
    }
    assert HoldParts(env, Live(d'.wals, d'.floor), parts);
    ReplayFinds(env, Live(d'.wals, d'.floor), parts, values);
  }

  /** Replay takes of each WAL at most the records appended to it, never what a remnant reads as. */
  predicate TakesOwn(env: Env, ws: seq<WalFile>, parts: seq<seq<Bytes>>, values: nat) {
    ws == [] || parts == [] ||
    var c := ReadFrom(env.crc, ws[0].bytes, 0);
    var n := Usable(env, c.records, values);
    n <= |parts[0]| && (n == |c.records| && c.clean ==> TakesOwn(env, ws[1..], parts[1..], values))
  }

  /** What recovery owes after a power loss: it opens, with a prefix of the appended batches, whole,
      that contains every batch acknowledged as durable, and with nothing from a remnant. */
  ghost predicate Kept(env: Env, s: Store, n: nat, values: nat)
    requires s.disk.wals != [] && CanLose(s.disk, n, values)
  {
    var d' := Lose(s.disk, n, values);
    var r := Recovered(env, d');
    r.Some? && r.value <= Hist(s) && s.acked <= |r.value| &&
    TakesOwn(env, Live(d'.wals, d'.floor), s.sealed + [s.current], values)
  }

  ghost predicate Recovers(env: Env, s: Store)
    requires s.disk.wals != []
  {
    forall n, values :: CanLose(s.disk, n, values) ==> Kept(env, s, n, values)
  }

  // ---------------------------------------------------------------- which stores recover, exactly

  ghost predicate StartParts(env: Env, ws: seq<WalFile>, parts: seq<seq<Bytes>>) {
    |ws| == |parts| && forall i :: 0 <= i < |ws| ==> Starts(env, ws[i].bytes, parts[i])
  }

  /** The oldest WAL that is longer than its records. */
  ghost predicate FirstLonger(env: Env, ws: seq<WalFile>, parts: seq<seq<Bytes>>, i: nat) {
    i < |ws| == |parts| && ws[i].bytes != Frames(env.crc, parts[i]) &&
    forall j :: 0 <= j < i ==> ws[j].bytes == Frames(env.crc, parts[j])
  }

  /** What follows the records reads as another one, whose values are not there: replay stops at it. */
  predicate Halts(env: Env, bytes: Bytes, rs: seq<Bytes>, values: nat) {
    var c := ReadFrom(env.crc, bytes, 0);
    |rs| < |c.records| && env.need(c.records[|rs|]) > values
  }

  /** Of the oldest WAL longer than its records: it is the newest, and its remnant reads as no record;
      or its remnant reads as one whose values are not there, and no later record is acknowledged. */
  ghost predicate Tolerable(env: Env, s: Store) {
    var live, parts := Live(s.disk.wals, s.disk.floor), s.sealed + [s.current];
    forall i: nat :: FirstLonger(env, live, parts, i) ==>
      (i == |s.sealed| && Holds(env, live[i].bytes, parts[i])) ||
      (Halts(env, live[i].bytes, parts[i], s.disk.values) && s.acked <= |s.disk.tables| + |Flat(parts[..i + 1])|)
  }

  /** A WAL reads back at least its own records; more, or torn, unless they are all there is. */
  lemma StartsReads(env: Env, bytes: Bytes, rs: seq<Bytes>)
    requires IsChecksum(env.crc) && Starts(env, bytes, rs)
    ensures var c := ReadFrom(env.crc, bytes, 0);
      rs <= c.records && (bytes != Frames(env.crc, rs) ==> !c.clean || |c.records| > |rs|) &&
      (!Inert(env, bytes, rs) ==> |c.records| > |rs|)
  {
    hide Frame, Frames, RecordAt;
    var end := |Frames(env.crc, rs)|;
    assert bytes[0..] == bytes;
    ReadsWhatWasWritten(env.crc, bytes, 0, rs);
    assert bytes == Frames(env.crc, rs) + bytes[end..];
  }

  /** Where a replay of such WALs ends: at the first lost value, or where the oldest longer WAL `stop`
      ends with its own records. */
  lemma {:induction false} TolerantReplay(env: Env, ws: seq<WalFile>, parts: seq<seq<Bytes>>, values: nat, stop: nat)
    requires IsChecksum(env.crc) && StartParts(env, ws, parts) && stop < |ws|
    requires forall j :: 0 <= j < stop ==> ws[j].bytes == Frames(env.crc, parts[j])
    requires Halts(env, ws[stop].bytes, parts[stop], values) ||
             (stop == |ws| - 1 && Holds(env, ws[stop].bytes, parts[stop]))
    ensures var r, own := ReplayOf(env, ws, values), Flat(parts[..stop + 1]);
      r.Replayed? && r.records == own[..Usable(env, own, values)] && TakesOwn(env, ws, parts, values)
  {
    hide Frames, ReadFrom, Usable, ReplayOf, Inert;
    var c, n := ReadFrom(env.crc, ws[0].bytes, 0), Usable(env, parts[0], values);
    UsableBound(env, parts[0], values);
    StartsReads(env, ws[0].bytes, parts[0]);
    assert parts[..stop + 1][1..] == parts[1..stop + 1] == parts[1..][..stop];
    if stop == 0 {
      assert parts[..1] == [parts[0]] && Flat(parts[..1]) == parts[0] + Flat([]) == parts[0];
      if Halts(env, ws[0].bytes, parts[0], values) {
        HaltedReplay(env, ws, parts, values);
      } else {
        HoldsReads(env, ws[0].bytes, parts[0]);
        ReplayStep(env, ws, values, c, n);
        EndOfReplay(env, ws, values, c, parts[0]);
      }
    } else {
      WholeHolds(env, parts[0]);
      HoldsReads(env, ws[0].bytes, parts[0]);
      ReplayStep(env, ws, values, c, n);
      UsableConcat(env, parts[0], Flat(parts[1..][..stop]), values);
      if n < |parts[0]| {
        assert Flat(parts[..stop + 1])[..n] == parts[0][..n];
      } else {
        TolerantReplay(env, ws[1..], parts[1..], values, stop - 1);
        UsableBound(env, Flat(parts[1..][..stop]), values);
        TakeOver(parts[0], Flat(parts[1..][..stop]), Usable(env, Flat(parts[1..][..stop]), values));
      }
    }
  }

  lemma HaltedReplay(env: Env, ws: seq<WalFile>, parts: seq<seq<Bytes>>, values: nat)
    requires ws != [] && parts != [] && parts[0] <= ReadFrom(env.crc, ws[0].bytes, 0).records
    requires Halts(env, ws[0].bytes, parts[0], values)
    ensures var r, n := ReplayOf(env, ws, values), Usable(env, parts[0], values);
      n <= |parts[0]| && r == Replayed(parts[0][..n], None) && TakesOwn(env, ws, parts, values)
  {
    hide ReadFrom, Usable, ReplayOf;
    var c, n := ReadFrom(env.crc, ws[0].bytes, 0), Usable(env, parts[0], values);
    UsableBound(env, parts[0], values);
    UsableStops(env, c.records, values, n);
    ReplayStep(env, ws, values, c, n);
    assert c.records[..n] == parts[0][..n];
  }

  /** A last WAL that reads as `rs`, torn or not. */
  lemma EndOfReplay(env: Env, ws: seq<WalFile>, values: nat, c: Contents, rs: seq<Bytes>)
    requires |ws| == 1 && c == ReadFrom(env.crc, ws[0].bytes, 0) && c.records == rs
    ensures var r, n := ReplayOf(env, ws, values), Usable(env, rs, values);
      r.Replayed? && r.records == rs[..n] && TakesOwn(env, ws, [rs], values)
  {
    hide ReadFrom;
    assert ws[1..] == [] && rs + [] == rs;
  }

  /** A remnant that halts replay halts it cut short too, or is no record then. */
  lemma HaltsCut(env: Env, bytes: Bytes, rs: seq<Bytes>, values: nat, n: nat) returns (k: nat)
    requires IsChecksum(env.crc) && Starts(env, bytes, rs) && Halts(env, bytes, rs, values) && n <= |bytes|
    ensures k <= |rs| && Starts(env, bytes[..n], rs[..k])
    ensures Holds(env, bytes[..n], rs[..k]) || Halts(env, bytes[..n], rs[..k], values)
    ensures forall j :: 0 <= j <= |rs| && |Frames(env.crc, rs[..j])| <= n ==> j <= k
  {
    hide Frame, Frames, ReadFrom, Inert;
    if n <= |Frames(env.crc, rs)| {
      WholeHolds(env, rs);
      k := HoldsCut(env, Frames(env.crc, rs), rs, n);
      assert bytes[..n] == Frames(env.crc, rs)[..n];
    } else {
      k := |rs|;
      assert rs[..k] == rs;
      StartsReads(env, bytes, rs);
      StartsReads(env, bytes[..n], rs);
      CutReadsPrefix(env.crc, bytes, n, 0);
    }
  }

  /** What a power loss leaves of a tolerable store: its live WALs with the newest cut, which holds the
      first `k` of its records, and the oldest of them that ends replay. */
  lemma LossTolerated(env: Env, s: Store, n: nat, values: nat) returns (k: nat, stop: nat)
    requires Inv(env, s) && Tolerable(env, s) && CanLose(s.disk, n, values)
    ensures s.covered <= k <= |s.current| && stop <= |s.sealed|
    ensures var d', parts := Lose(s.disk, n, values), s.sealed + [s.current[..k]];
      var ws, own := Live(d'.wals, d'.floor), Flat(parts[..stop + 1]);
      Recovered(env, d') == Some(s.disk.tables + own[..Usable(env, own, values)]) &&
      |ws| == |parts| && TakesOwn(env, ws, parts, values) &&
      (stop < |s.sealed| ==> s.acked <= |s.disk.tables| + |own|)
  {
    hide ReplayOf, Live, Frames, Usable, Durable, TakesOwn, Inert, ReadFrom;
    var d', live := Lose(s.disk, n, values), Live(s.disk.wals, s.disk.floor);
    var w := Newest(s.disk);
    NewestReplaced(s.disk, w.bytes[..n], n);
    stop := OldestLonger(env, live, s.sealed + [s.current]);
    k := NewestCut(env, s, n, stop);
    var parts, ws := s.sealed + [s.current[..k]], Live(d'.wals, d'.floor);
    forall i | 0 <= i < |ws| ensures Starts(env, ws[i].bytes, parts[i]) {
      assert i < |s.sealed| ==> (s.sealed + [s.current])[i] == parts[i] && ws[i] == live[i];
    }
    if stop < |s.sealed| {
      assert parts[..stop + 1] == (s.sealed + [s.current])[..stop + 1];
      HaltsSooner(env, live[stop].bytes, s.sealed[stop], s.disk.values, values);
    } else {
      stop := |s.sealed|;
    }
    TolerantReplay(env, ws, parts, values, stop);
  }

  lemma HaltsSooner(env: Env, bytes: Bytes, rs: seq<Bytes>, values: nat, values': nat)
    requires Halts(env, bytes, rs, values) && values' <= values
    ensures Halts(env, bytes, rs, values')
  {
    hide ReadFrom;
  }

  /** The oldest WAL longer than its records; their number if there is none. */
  lemma {:induction false} OldestLonger(env: Env, ws: seq<WalFile>, parts: seq<seq<Bytes>>) returns (i: nat)
    requires |ws| == |parts|
    ensures i <= |ws| && (forall j :: 0 <= j < i ==> ws[j].bytes == Frames(env.crc, parts[j]))
    ensures i < |ws| ==> FirstLonger(env, ws, parts, i)
  {
    hide Frames;
    i := 0;
    while i < |ws| && ws[i].bytes == Frames(env.crc, parts[i])
      invariant i <= |ws| && forall j :: 0 <= j < i ==> ws[j].bytes == Frames(env.crc, parts[j])
    {
      i := i + 1;
    }
  }

  /** The newest WAL after a power loss that replay may get to. */
  lemma NewestCut(env: Env, s: Store, n: nat, stop: nat) returns (k: nat)
    requires Inv(env, s) && Tolerable(env, s) && Newest(s.disk).synced <= n <= |Newest(s.disk).bytes|
    requires var live := Live(s.disk.wals, s.disk.floor);
      stop <= |live| && (stop < |live| ==> FirstLonger(env, live, s.sealed + [s.current], stop)) &&
      (stop == |live| ==> Newest(s.disk).bytes == Frames(env.crc, s.current))
    ensures s.covered <= k <= |s.current| && Starts(env, Newest(s.disk).bytes[..n], s.current[..k])
    ensures stop >= |s.sealed| ==>
      Holds(env, Newest(s.disk).bytes[..n], s.current[..k]) ||
      Halts(env, Newest(s.disk).bytes[..n], s.current[..k], s.disk.values)
  {
    hide Frames, Live, Durable, Inert, ReadFrom;
    var bytes := Newest(s.disk).bytes;
    if stop < |s.sealed| {
      k := StartsCut(env, bytes, s.current, n);
    } else if stop == |s.sealed| && Halts(env, bytes, s.current, s.disk.values) {
      k := HaltsCut(env, bytes, s.current, s.disk.values, n);
    } else {
      if stop > |s.sealed| { WholeHolds(env, s.current); }
      k := HoldsCut(env, bytes, s.current, n);
    }
  }

  lemma StartsCut(env: Env, bytes: Bytes, rs: seq<Bytes>, n: nat) returns (k: nat)
    requires IsChecksum(env.crc) && Starts(env, bytes, rs) && n <= |bytes|
    ensures k <= |rs| && Starts(env, bytes[..n], rs[..k])
    ensures forall j :: 0 <= j <= |rs| && |Frames(env.crc, rs[..j])| <= n ==> j <= k
  {
    hide Frames, Inert;
    if n <= |Frames(env.crc, rs)| {
      WholeHolds(env, rs);
      k := HoldsCut(env, Frames(env.crc, rs), rs, n);
      assert bytes[..n] == Frames(env.crc, rs)[..n];
    } else {
      k := |rs|;
      assert rs[..k] == rs;
    }
  }

  /** The first record whose values are gone was not acknowledged. */
  lemma LostIsNotAcked(env: Env, s: Store, own: seq<Bytes>, values: nat)
    requires Durable(env, s) && s.disk.valuesSynced <= values
    requires s.disk.tables + own <= Hist(s) && s.acked <= |s.disk.tables| + |own|
    ensures s.acked <= |s.disk.tables| + Usable(env, own, values) && Usable(env, own, values) <= |own|
    ensures s.disk.tables + own[..Usable(env, own, values)] <= Hist(s)
  {
    var m := Usable(env, own, values);
    if m < |own| {
      assert own[m] == (s.disk.tables + own)[|s.disk.tables| + m] == Hist(s)[|s.disk.tables| + m];
      assert forall i :: 0 <= i < s.acked ==> Hist(s)[..s.acked][i] == Hist(s)[i];
    }
    assert s.disk.tables + own[..m] == (s.disk.tables + own)[..|s.disk.tables| + m];
  }

  lemma {:induction false} FlatPrefix(parts: seq<seq<Bytes>>, n: nat)
    requires n <= |parts|
    ensures Flat(parts[..n]) <= Flat(parts)
  {
    if n > 0 {
      FlatPrefix(parts[1..], n - 1);
      assert parts[..n][1..] == parts[1..][..n - 1];
    } else {
      assert parts[..0] == [];
    }
  }

  /** The records replay may reach are among those appended. */
  lemma OwnIsHist(s: Store, k: nat, stop: nat)
    requires k <= |s.current| && stop <= |s.sealed|
    ensures var own := Flat((s.sealed + [s.current[..k]])[..stop + 1]);
      s.disk.tables + own <= Hist(s) && (stop == |s.sealed| ==> |own| == |Flat(s.sealed)| + k)
  {
    var parts := s.sealed + [s.current[..k]];
    FlatSnoc(s.sealed, s.current[..k]);
    FlatPrefix(parts, stop + 1);
    assert parts[..|parts|] == parts;
    assert Flat(parts) <= Flat(s.sealed) + s.current;
    var own := Flat(parts[..stop + 1]);
    assert own == (Flat(s.sealed) + s.current)[..|own|];
    assert s.disk.tables + own == Hist(s)[..|s.disk.tables| + |own|];
  }

  lemma {:induction false} TakesMore(env: Env, ws: seq<WalFile>, a: seq<seq<Bytes>>, b: seq<seq<Bytes>>, values: nat)
    requires |a| == |b| && (forall i :: 0 <= i < |a| ==> |a[i]| <= |b[i]|) && TakesOwn(env, ws, a, values)
    ensures TakesOwn(env, ws, b, values)
  {
    hide ReadFrom, Usable;
    if ws != [] && a != [] {
      var c := ReadFrom(env.crc, ws[0].bytes, 0);
      if Usable(env, c.records, values) == |c.records| && c.clean { TakesMore(env, ws[1..], a[1..], b[1..], values); }
    }
  }

  /** A tolerable store pays what it owes, whatever is lost, and never loses what its tables hold. */
  lemma TolerableIsKept(env: Env, s: Store, n: nat, values: nat)
    requires Inv(env, s) && Tolerable(env, s) && CanLose(s.disk, n, values)
    ensures Kept(env, s, n, values) && s.disk.tables <= Recovered(env, Lose(s.disk, n, values)).value
  {
    hide ReplayOf, Live, Usable, LiveWals, Tolerable, Hist, TakesOwn, Recovered;
    InvHasWal(env, s);
    var k, stop := LossTolerated(env, s, n, values);
    var d', parts := Lose(s.disk, n, values), s.sealed + [s.current[..k]];
    var own := Flat(parts[..stop + 1]);
    OwnIsHist(s, k, stop);
    LostIsNotAcked(env, s, own, values);
    TakesMore(env, Live(d'.wals, d'.floor), parts, s.sealed + [s.current], values);
  }

  lemma LossOfNothing(env: Env, s: Store)
    requires Inv(env, s)
    ensures CanLose(s.disk, |Newest(s.disk).bytes|, s.disk.values)
    ensures var d', live := Lose(s.disk, |Newest(s.disk).bytes|, s.disk.values), Live(s.disk.wals, s.disk.floor);
      d'.tables == s.disk.tables && d'.values == s.disk.values && live != [] && |Live(d'.wals, d'.floor)| == |live| &&
      forall i :: 0 <= i < |live| ==> Live(d'.wals, d'.floor)[i].bytes == live[i].bytes
  {
    hide Live, Starts, Durable;
    var w := Newest(s.disk);
    assert w.bytes[..|w.bytes|] == w.bytes;
    NewestReplaced(s.disk, w.bytes, |w.bytes|);
  }

  /** With every value there, a replay that opens and takes only own records passes a WAL longer than
      its records only by halting in it, or as the last. */
  lemma {:induction false} ReplayToLonger(env: Env, ws: seq<WalFile>, parts: seq<seq<Bytes>>, values: nat, i: nat)
    requires IsChecksum(env.crc) && StartParts(env, ws, parts) && FirstLonger(env, ws, parts, i)
    requires Needs(env, Flat(parts), values)
    requires ReplayOf(env, ws, values).Replayed? && TakesOwn(env, ws, parts, values)
    ensures (i == |ws| - 1 && Holds(env, ws[i].bytes, parts[i])) ||
      (Halts(env, ws[i].bytes, parts[i], values) && |ReplayOf(env, ws, values).records| == |Flat(parts[..i + 1])|)
  {
    hide Frames, ReadFrom, Usable, Inert, ReplayOf;
    var c, rest := ReadFrom(env.crc, ws[0].bytes, 0), Flat(parts[1..]);
    assert forall j :: 0 <= j < |parts[0]| ==> parts[0][j] == Flat(parts)[j];
    assert forall j :: 0 <= j < |rest| ==> rest[j] == Flat(parts)[|parts[0]| + j];
    StartsReads(env, ws[0].bytes, parts[0]);
    ReplayStep(env, ws, values, c, Usable(env, c.records, values));
    assert parts[..i + 1][1..] == parts[1..][..i];
    if i == 0 {
      assert Flat(parts[..1]) == parts[0] + Flat([]) == parts[0];
      TakesAll(env, c.records, parts[0], values);
    } else {
      WholeHolds(env, parts[0]);
      HoldsReads(env, ws[0].bytes, parts[0]);
      UsableStops(env, c.records, values, |parts[0]|);
      ReplayToLonger(env, ws[1..], parts[1..], values, i - 1);
    }
  }

  lemma TakesAll(env: Env, records: seq<Bytes>, rs: seq<Bytes>, values: nat)
    requires rs <= records && Needs(env, rs, values) && Usable(env, records, values) <= |rs|
    ensures Usable(env, records, values) == |rs|
    ensures |rs| < |records| ==> env.need(records[|rs|]) > values
  {
  }

  /** Every power loss is survived exactly by a tolerable store; of any other there is a loss after
      which it does not open, misses an acknowledged batch, or takes a remnant for a record. */
  lemma RecoversExactlyWhen(env: Env, s: Store)
    requires Inv(env, s)
    ensures Recovers(env, s) <==> Tolerable(env, s)
  {
    if Tolerable(env, s) {
      hide Kept, Tolerable, Inv, CanLose;
      InvHasWal(env, s);
      forall n, values | CanLose(s.disk, n, values) ensures Kept(env, s, n, values) {
        TolerableIsKept(env, s, n, values);
      }
    }
    if Recovers(env, s) { RecoveredIsTolerable(env, s); }
  }

  lemma RecoveredIsTolerable(env: Env, s: Store)
    requires Inv(env, s) && Recovers(env, s)
    ensures Tolerable(env, s)
  {
    hide ReplayOf, ReadFrom, Frames, Inert, Live, Usable, TakesOwn;
    LossOfNothing(env, s);
    var n := |Newest(s.disk).bytes|;
    assert Kept(env, s, n, s.disk.values);
    var d', live, parts := Lose(s.disk, n, s.disk.values), Live(s.disk.wals, s.disk.floor), s.sealed + [s.current];
    var ws := Live(d'.wals, d'.floor);
    FlatSnoc(s.sealed, s.current);
    assert forall j :: 0 <= j < |Flat(parts)| ==> Flat(parts)[j] == Hist(s)[|s.disk.tables| + j];
    assert StartParts(env, ws, parts);
    forall i: nat | FirstLonger(env, live, parts, i)
      ensures (i == |s.sealed| && Holds(env, live[i].bytes, parts[i])) ||
        (Halts(env, live[i].bytes, parts[i], s.disk.values) && s.acked <= |s.disk.tables| + |Flat(parts[..i + 1])|)
    {
      ReplayToLonger(env, ws, parts, s.disk.values, i);
    }
  }

  /** A sound store is tolerable; and when every record a live WAL reads has its values, no other is. */
  lemma SoundIsTolerable(env: Env, s: Store)
    requires Inv(env, s)
    ensures Sound(env, s) ==> Tolerable(env, s)
    ensures Resolved(env, s) && Tolerable(env, s) ==> Sound(env, s)
  {
    hide Frames, Live, Inert, ReadFrom, Durable;
    var live, parts := Live(s.disk.wals, s.disk.floor), s.sealed + [s.current];
    var i := OldestLonger(env, live, parts);
    if Resolved(env, s) && Tolerable(env, s) {
      assert i < |live| ==> !Halts(env, live[i].bytes, parts[i], s.disk.values);
      forall j | 0 <= j < |s.sealed| ensures live[j].bytes == Frames(env.crc, s.sealed[j]) {
        assert parts[j] == s.sealed[j];
      }
      if i == |live| { WholeHolds(env, s.current); }
    }
  }

  /** A sound store recovers, from any power loss, a prefix that never lacks what its tables hold. */
  lemma RecoveryIsAPrefix(env: Env, s: Store, n: nat, values: nat)
    requires Inv(env, s) && Sound(env, s) && CanLose(s.disk, n, values)
    ensures Kept(env, s, n, values) && s.disk.tables <= Recovered(env, Lose(s.disk, n, values)).value
  {
    hide Inv, Sound, Tolerable, Kept, Recovered;
    SoundIsTolerable(env, s);
    TolerableIsKept(env, s, n, values);
  }

  /** Every record that any live WAL reads, remnants included, points at values that are there. */
  ghost predicate Resolved(env: Env, s: Store) {
    var live := Live(s.disk.wals, s.disk.floor);
    forall i :: 0 <= i < |live| ==> Needs(env, ReadFrom(env.crc, live[i].bytes, 0).records, s.disk.values)
  }

  /** With every live WAL torn at most, one torn sealed WAL and the store does not open at all. */
  lemma TornSealedWalRefuses(env: Env, s: Store)
    requires Inv(env, s) && !SealedClean(env, s)
    requires HoldParts(env, Live(s.disk.wals, s.disk.floor), s.sealed + [s.current])
    ensures Recovered(env, s.disk) == None
  {
    hide ReplayOf, Live, Holds, Frames;
    var live, parts := Live(s.disk.wals, s.disk.floor), s.sealed + [s.current];
    FlatSnoc(s.sealed, s.current);
    var i :| 0 <= i < |s.sealed| && i < |live| && live[i].bytes != Frames(env.crc, s.sealed[i]);
    assert live[i].bytes != Frames(env.crc, parts[i]);
    assert forall j :: 0 <= j < |Flat(parts)| ==> Flat(parts)[j] == Hist(s)[|s.disk.tables| + j];
    ReplayRefuses(env, live, parts, s.disk.values);
  }

  // ---------------------------------------------------------------- opening and running on

  /** A power loss while opening a disk with everything on the platter changes nothing, and opening
      again serves the same records.  A disk that only a process crash left is not such a disk. */
  lemma OpeningLosesNothing(d: Disk, n: nat, values: nat)
    requires OnPlatter(d) && d.wals != [] && CanLose(d, n, values)
    ensures Lose(d, n, values) == d
  {
    var w := Newest(d);
    assert w.bytes[..n] == w.bytes;
    assert d.wals[..|d.wals| - 1] + [w] == d.wals;
  }

  /** A disk after a power loss is one. */
  lemma LostIsOnPlatter(d: Disk, n: nat, values: nat)
    requires d.wals != [] && CanLose(d, n, values)
    ensures OnPlatter(Lose(d, n, values))
    ensures CanLose(Lose(d, n, values), n, values) && Lose(Lose(d, n, values), n, values) == Lose(d, n, values)
  {
    OpeningLosesNothing(Lose(d, n, values), n, values);
  }

  /** A store that just opened: everything in tables, one empty WAL. */
  function Opened(d: Disk): Store {
    Store(d, [], [], 0, |d.tables|)
  }

  lemma OpenedIsSound(env: Env, d: Disk)
    requires IsChecksum(env.crc) && WfDisk(d) && d.wals == [WalFile(d.floor, [], 0)]
    ensures Inv(env, Opened(d)) <==> Needs(env, d.tables, d.valuesSynced)
    ensures Sound(env, Opened(d)) && Whole(env, Opened(d)) && Hist(Opened(d)) == d.tables
  {
    hide Starts, Inert;
    LiveAll(d.wals, d.floor);
    WholeHolds(env, []);
    assert Frames(env.crc, []) == [] && Hist(Opened(d))[..|d.tables|] == d.tables;
  }

  /** A fresh store: nothing written yet. */
  lemma FreshIsSound(env: Env, floor: nat)
    requires IsChecksum(env.crc)
    ensures var s := Opened(Disk(floor, [], [WalFile(floor, [], 0)], 0, 0, floor + 1));
      Inv(env, s) && Sound(env, s) && Whole(env, s) && Hist(s) == []
  {
    hide Inv, Sound;
    OpenedIsSound(env, Disk(floor, [], [WalFile(floor, [], 0)], 0, 0, floor + 1));
  }

  /** A store that opened after a power loss runs on from the records it recovered. */
  lemma OpenedRuns(env: Env, s: Store, n: nat, values: nat, d: Disk)
    requires Inv(env, s) && Sound(env, s) && CanLose(s.disk, n, values)
    requires WfDisk(d) && d.values == values && d.valuesSynced == values && d.wals == [WalFile(d.floor, [], 0)]
    requires Some(d.tables) == Recovered(env, Lose(s.disk, n, values))
    ensures Inv(env, Opened(d)) && Sound(env, Opened(d))
  {
    hide ReplayOf, LiveWals, Usable, Sound;
    var k := LossLeavesPrefix(env, s, n, values);
    var rest := Flat(s.sealed) + s.current[..k];
    UsableNeeds(env, rest, values);
    OpenedIsSound(env, d);
  }

  lemma UsableNeeds(env: Env, rs: seq<Bytes>, values: nat)
    ensures Usable(env, rs, values) <= |rs| && Needs(env, rs[..Usable(env, rs, values)], values)
  {
  }

  // ---------------------------------------------------------------- every step keeps the invariant

  /** A write at the end of the records leaves them and starts with what it wrote. */
  lemma OverEnd(bytes: Bytes, pre: Bytes, data: Bytes)
    requires pre <= bytes
    ensures var bytes' := Over(bytes, |pre|, data);
      pre + data <= bytes' && |pre| <= |bytes'| && bytes'[|pre|..] == data + bytes'[|pre + data|..] &&
      bytes'[|pre + data|..] == (if |pre + data| < |bytes| then bytes[|pre + data|..] else []) &&
      (bytes == pre ==> bytes' == pre + data)
  {
    assert bytes[..|pre|] == pre;
    var bytes' := Over(bytes, |pre|, data);
    assert bytes' == (pre + data) + (if |pre + data| < |bytes| then bytes[|pre + data|..] else []);
  }

  /** Replacing what follows the records the newest WAL starts with. */
  lemma RewriteKeeps(env: Env, s: Store, bytes: Bytes, rs: seq<Bytes>, grown: nat)
    requires Inv(env, s) && s.current <= rs && Starts(env, bytes, rs) && End(env, s) <= |bytes|
    requires Needs(env, rs[|s.current|..], s.disk.values + grown)
    ensures var d := WithNewest(s.disk, bytes, Min(Newest(s.disk).synced, End(env, s)));
      Inv(env, s.(current := rs, disk := d.(values := s.disk.values + grown)))
    ensures var d := WithNewest(s.disk, bytes, Min(Newest(s.disk).synced, End(env, s)));
      SealedClean(env, s.(current := rs, disk := d.(values := s.disk.values + grown))) <==> SealedClean(env, s)
  {
    hide Frames, Live, Starts;
    var w := Newest(s.disk);
    var synced := Min(w.synced, End(env, s));
    var s' := s.(current := rs, disk := WithNewest(s.disk, bytes, synced).(values := s.disk.values + grown));
    NewestReplaced(s.disk, bytes, synced);
    CoveredEnds(env, s);
    assert rs[..s.covered] == s.current[..s.covered];
    assert Hist(s') == Hist(s) + rs[|s.current|..];
    assert Hist(s')[..s.acked] == Hist(s)[..s.acked];
  }

  lemma CoveredEnds(env: Env, s: Store)
    requires s.covered <= |s.current|
    ensures |Frames(env.crc, s.current[..s.covered])| <= End(env, s)
  {
    assert s.current[..|s.current|] == s.current;
    if s.covered < |s.current| { LongerFrames(env.crc, s.current, s.covered, |s.current|); }
  }

  /** What a step must not do: rotate a WAL longer than its records, or leave of an earlier failed
      append something that reads as a record. */
  ghost predicate StepSound(env: Env, s: Store, e: Event)
    requires Inv(env, s) && Enabled(env, s, e)
  {
    (e.Rotate? ==> Whole(env, s)) &&
    (e.Append? || e.AppendFails? ==> Holds(env, Newest(Next(env, s, e).disk).bytes, Next(env, s, e).current))
  }

  lemma AppendKeeps(env: Env, s: Store, p: Bytes, grown: nat)
    requires Inv(env, s) && Enabled(env, s, Append(p, grown))
    ensures Inv(env, Next(env, s, Append(p, grown)))
    ensures SealedClean(env, Next(env, s, Append(p, grown))) <==> SealedClean(env, s)
  {
    hide Inv, Frames, Frame, Live, SealedClean, Over;
    InvHasWal(env, s);
    var bytes := Over(Newest(s.disk).bytes, End(env, s), Frame(env.crc, p));
    OverEnd(Newest(s.disk).bytes, Frames(env.crc, s.current), Frame(env.crc, p));
    FramesSnoc(env.crc, s.current, p);
    assert (s.current + [p])[|s.current|..] == [p];
    RewriteKeeps(env, s, bytes, s.current + [p], grown);
  }

  lemma AppendFailsKeeps(env: Env, s: Store, g: Bytes)
    requires Inv(env, s) && Enabled(env, s, AppendFails(g))
    ensures Inv(env, Next(env, s, AppendFails(g)))
    ensures SealedClean(env, Next(env, s, AppendFails(g))) <==> SealedClean(env, s)
  {
    hide Inv, Frames, Frame, Live, SealedClean, TornTail, Over;
    InvHasWal(env, s);
    var bytes := Over(Newest(s.disk).bytes, End(env, s), g);
    OverEnd(Newest(s.disk).bytes, Frames(env.crc, s.current), g);
    assert Frames(env.crc, s.current) <= bytes;
    assert s.current[|s.current|..] == [];
    RewriteKeeps(env, s, bytes, s.current, 0);
  }

  lemma SyncKeeps(env: Env, s: Store, e: Event)
    requires Inv(env, s) && (e == Sync || e == SyncValues) && Enabled(env, s, e)
    ensures Inv(env, Next(env, s, e))
    ensures Sound(env, Next(env, s, e)) <==> Sound(env, s)
  {
    InvHasWal(env, s);
    hide Frames, Frame, Live, Starts, Inert;
    var w, s' := Newest(s.disk), Next(env, s, e);
    if e == Sync {
      NewestReplaced(s.disk, w.bytes, |w.bytes|);
      SyncedEnds(env, s);
      assert Hist(s')[..|Hist(s)|] == Hist(s);
    }
  }

  lemma SyncedEnds(env: Env, s: Store)
    requires Inv(env, s)
    ensures s.current[..|s.current|] == s.current && End(env, s) <= |Newest(s.disk).bytes|
  {
  }

  /** Rotation seals the newest WAL as it is and starts an empty one. */
  lemma RotatedLive(env: Env, s: Store)
    requires Inv(env, s)
    ensures var s', live, w := Next(env, s, Rotate), Live(s.disk.wals, s.disk.floor), Newest(s.disk);
      WfDisk(s'.disk) && Newest(s'.disk) == WalFile(s.disk.nextId, [], 0) &&
      Live(s'.disk.wals, s'.disk.floor) ==
        live[..|live| - 1] + [WalFile(w.id, w.bytes, |w.bytes|)] + [WalFile(s.disk.nextId, [], 0)]
  {
    hide Live, Frames, Durable;
    var w := Newest(s.disk);
    NewestReplaced(s.disk, w.bytes, |w.bytes|);
    LiveAppend(WithNewest(s.disk, w.bytes, |w.bytes|).wals, WalFile(s.disk.nextId, [], 0), s.disk.floor);
  }

  lemma RotateKeeps(env: Env, s: Store)
    requires Inv(env, s) && Enabled(env, s, Rotate)
    ensures Inv(env, Next(env, s, Rotate))
  {
    hide Frame, Live, Usable;
    var w, s' := Newest(s.disk), Next(env, s, Rotate);
    RotatedLive(env, s);
    FlatSnoc(s.sealed, s.current);
    assert Hist(s') == Hist(s);
  }

  /** Rotation keeps a store sound exactly when the WAL it seals ends with its last record. */
  lemma RotateSeals(env: Env, s: Store)
    requires Inv(env, s) && Sound(env, s)
    ensures Sound(env, Next(env, s, Rotate)) <==> Whole(env, s)
  {
    hide Live, Inert, Durable;
    RotatedLive(env, s);
    NoFrames(env);
    assert AllWritable([]);
    WholeHolds(env, []);
    hide Frames;
    var s', live := Next(env, s, Rotate), Live(s.disk.wals, s.disk.floor);
    var live' := Live(s'.disk.wals, s'.disk.floor);
    assert live'[|s.sealed|].bytes == Newest(s.disk).bytes && s'.sealed[|s.sealed|] == s.current;
    assert forall i :: 0 <= i < |s.sealed| ==> live'[i] == live[i] && s'.sealed[i] == s.sealed[i];
  }

  lemma NoFrames(env: Env)
    ensures Frames(env.crc, []) == []
  {
  }

  lemma FlushKeeps(env: Env, s: Store)
    requires Inv(env, s) && Enabled(env, s, Flush)
    ensures Inv(env, Next(env, s, Flush))
    ensures Sound(env, s) ==> Sound(env, Next(env, s, Flush))
  {
    InvHasWal(env, s);
    hide Frames, Frame, Live, Usable, TornTail, Starts, Inert;
    var s', live := Next(env, s, Flush), Live(s.disk.wals, s.disk.floor);
    FloorPassesOne(s.disk);
    assert Hist(s') == Hist(s);
    assert forall i :: 0 <= i < |s.disk.tables| ==> Hist(s)[i] == s.disk.tables[i];
    assert forall i :: 0 <= i < |s'.disk.tables| ==> Hist(s)[i] == s'.disk.tables[i];
  }

  /** Moving the floor past the oldest live WAL retires exactly that one. */
  lemma FloorPassesOne(d: Disk)
    requires WfDisk(d) && |Live(d.wals, d.floor)| >= 2
    ensures var live := Live(d.wals, d.floor);
      Live(d.wals, live[0].id + 1) == live[1..] && live[0].id + 1 <= live[|live| - 1].id && live[0].id + 1 <= d.nextId
  {
    FloorPasses(d.wals, d.floor, d.nextId);
  }

  lemma {:induction false} FloorPasses(ws: seq<WalFile>, floor: nat, nextId: nat)
    requires Ascending(ws, nextId) && |Live(ws, floor)| >= 2
    ensures var live := Live(ws, floor);
      Live(ws, live[0].id + 1) == live[1..] && live[0].id + 1 <= live[|live| - 1].id && live[0].id < nextId
  {
    if ws[0].id >= floor {
      LiveAll(ws[1..], floor);
      LiveAll(ws[1..], ws[0].id + 1);
    } else {
      FloorPasses(ws[1..], floor, nextId);
      LiveIsLive(ws[1..], floor);
    }
  }

  lemma {:induction false} LiveTwice(ws: seq<WalFile>, floor: nat)
    ensures Live(Live(ws, floor), floor) == Live(ws, floor)
  {
    if ws != [] { LiveTwice(ws[1..], floor); }
  }

  lemma LiveFirst(ws: seq<WalFile>, floor: nat)
    ensures Live(ws, floor) ==
      if ws == [] then [] else if ws[0].id >= floor then [ws[0]] + Live(ws[1..], floor) else Live(ws[1..], floor)
  {
  }

  lemma {:induction false} LiveAscends(ws: seq<WalFile>, floor: nat, nextId: nat)
    requires Ascending(ws, nextId)
    ensures Ascending(Live(ws, floor), nextId)
  {
    hide Live;
    LiveFirst(ws, floor);
    if ws != [] {
      LiveAscends(ws[1..], floor, nextId);
      LiveIsLive(ws[1..], floor);
      forall w | w in ws[1..] ensures ws[0].id < w.id {
        var i :| 0 < i < |ws| && ws[i] == w;
      }
    }
  }

  lemma DeleteOldKeeps(env: Env, s: Store)
    requires Inv(env, s)
    ensures Inv(env, Next(env, s, DeleteOld))
    ensures Sound(env, Next(env, s, DeleteOld)) <==> Sound(env, s)
  {
    hide Live, Starts, Inert, Frames;
    LiveTwice(s.disk.wals, s.disk.floor);
    LiveAscends(s.disk.wals, s.disk.floor, s.disk.nextId);
    LiveIsLive(s.disk.wals, s.disk.floor);
  }

  /** Every step of the running store keeps the invariant, and a sound store stays sound exactly under
      the steps that keep to the rule above. */
  lemma NextKeeps(env: Env, s: Store, e: Event)
    requires Inv(env, s) && Enabled(env, s, e)
    ensures Inv(env, Next(env, s, e))
    ensures Sound(env, s) ==> (Sound(env, Next(env, s, e)) <==> StepSound(env, s, e))
  {
    hide Inv, SealedClean, Holds, Whole, Live;
    InvHasWal(env, s);
    match e
    case Append(p, grown) =>
      AppendKeeps(env, s, p, grown);
      InvHasWal(env, Next(env, s, e));
    case AppendFails(g) =>
      AppendFailsKeeps(env, s, g);
      InvHasWal(env, Next(env, s, e));
    case SyncValues => SyncKeeps(env, s, e);
    case Sync => SyncKeeps(env, s, e);
    case Rotate =>
      RotateKeeps(env, s);
      if Sound(env, s) { RotateSeals(env, s); }
    case Flush => FlushKeeps(env, s);
    case DeleteOld => DeleteOldKeeps(env, s);
  }

  lemma InvHasWal(env: Env, s: Store)
    requires Inv(env, s)
    ensures s.disk.wals != [] && WfDisk(s.disk) && End(env, s) <= |Newest(s.disk).bytes|
    ensures Starts(env, Newest(s.disk).bytes, s.current)
    ensures s.sealed != [] ==> Live(s.disk.wals, s.disk.floor) != []
  {
  }

  lemma StepIsDefined(env: Env, s: Store, e: Event)
    requires Inv(env, s) && Enabled(env, s, e)
    ensures s.disk.wals != [] && End(env, s) <= |Newest(s.disk).bytes|
    ensures e.Flush? ==> s.sealed != [] && Live(s.disk.wals, s.disk.floor) != []
  {
  }

  // ---------------------------------------------------------------- runs

  ghost predicate Legal(env: Env, s: Store, es: seq<Event>)
    requires Inv(env, s)
    decreases |es|
  {
    es == [] || (Enabled(env, s, es[0]) && (NextKeeps(env, s, es[0]); Legal(env, Next(env, s, es[0]), es[1..])))
  }

  ghost function After(env: Env, s: Store, es: seq<Event>): (s': Store)
    requires Inv(env, s) && Legal(env, s, es)
    ensures Inv(env, s')
    decreases |es|
  {
    if es == [] then s else NextKeeps(env, s, es[0]); After(env, Next(env, s, es[0]), es[1..])
  }

  /** Every step of the run keeps to the rule. */
  ghost predicate StepsSound(env: Env, s: Store, es: seq<Event>)
    requires Inv(env, s) && Legal(env, s, es)
    decreases |es|
  {
    es == [] ||
    (StepSound(env, s, es[0]) && (NextKeeps(env, s, es[0]); StepsSound(env, Next(env, s, es[0]), es[1..])))
  }

  /** A power loss at any point of the run is survived. */
  ghost predicate RecoversThroughout(env: Env, s: Store, es: seq<Event>)
    requires Inv(env, s) && Legal(env, s, es)
    decreases |es|
  {
    Recovers(env, s) &&
    (es == [] || (NextKeeps(env, s, es[0]); RecoversThroughout(env, Next(env, s, es[0]), es[1..])))
  }

  ghost predicate ResolvedThroughout(env: Env, s: Store, es: seq<Event>)
    requires Inv(env, s) && Legal(env, s, es)
    decreases |es|
  {
    Resolved(env, s) &&
    (es == [] || (NextKeeps(env, s, es[0]); ResolvedThroughout(env, Next(env, s, es[0]), es[1..])))
  }

  lemma {:induction false} RunStaysSound(env: Env, s: Store, es: seq<Event>)
    requires Inv(env, s) && Sound(env, s) && Legal(env, s, es) && StepsSound(env, s, es)
    ensures Sound(env, After(env, s, es))
    decreases |es|
  {
    hide Inv, Sound, Enabled, StepSound, Next;
    if es != [] {
      StepIsDefined(env, s, es[0]);
      NextKeeps(env, s, es[0]);
      RunStaysSound(env, Next(env, s, es[0]), es[1..]);
    }
  }

  /** A run none of whose steps breaks the rule: a power loss at its end, with any part of the
      unsynced tail surviving, leaves a store that opens with the records of a prefix of the appended
      batches, every acknowledged one among them. */
  lemma EveryRunRecovers(env: Env, s: Store, es: seq<Event>)
    requires Inv(env, s) && Sound(env, s) && Legal(env, s, es) && StepsSound(env, s, es)
    ensures After(env, s, es).disk.wals != [] && Recovers(env, After(env, s, es))
  {
    hide Inv, Sound, Recovers;
    RunStaysSound(env, s, es);
    InvHasWal(env, After(env, s, es));
    SoundIsTolerable(env, After(env, s, es));
    RecoversExactlyWhen(env, After(env, s, es));
  }

  /** Every state of the run is tolerable. */
  ghost predicate TolerableThroughout(env: Env, s: Store, es: seq<Event>)
    requires Inv(env, s) && Legal(env, s, es)
    decreases |es|
  {
    Tolerable(env, s) &&
    (es == [] || (NextKeeps(env, s, es[0]); TolerableThroughout(env, Next(env, s, es[0]), es[1..])))
  }

  /** Of any run: it can lose power at every one of its points if and only if each of its states is
      tolerable. */
  lemma {:induction false} RunRecoversExactly(env: Env, s: Store, es: seq<Event>)
    requires Inv(env, s) && Legal(env, s, es)
    ensures RecoversThroughout(env, s, es) <==> TolerableThroughout(env, s, es)
    decreases |es|
  {
    hide Inv, Enabled, Next, Recovers, Tolerable;
    InvHasWal(env, s);
    RecoversExactlyWhen(env, s);
    if es != [] {
      StepIsDefined(env, s, es[0]);
      NextKeeps(env, s, es[0]);
      RunRecoversExactly(env, Next(env, s, es[0]), es[1..]);
    }
  }

  /** In terms of its steps: while every record read has its values, such a run is one none of whose
      steps rotates a WAL longer than its records or leaves a remnant that reads as a record. */
  lemma {:induction false} RuleIsExact(env: Env, s: Store, es: seq<Event>)
    requires Inv(env, s) && Sound(env, s) && Legal(env, s, es) && ResolvedThroughout(env, s, es)
    ensures TolerableThroughout(env, s, es) <==> StepsSound(env, s, es)
    decreases |es|
  {
    hide Inv, Sound, Enabled, StepSound, Next, Tolerable, Resolved;
    InvHasWal(env, s);
    SoundIsTolerable(env, s);
    if es != [] {
      StepIsDefined(env, s, es[0]);
      var s' := Next(env, s, es[0]);
      NextKeeps(env, s, es[0]);
      InvHasWal(env, s');
      if StepSound(env, s, es[0]) {
        RuleIsExact(env, s', es[1..]);
      } else {
        SoundIsTolerable(env, s');
      }
    }
  }

  // ---------------------------------------------------------------- runs that break the rule

  lemma OneStep(env: Env, s: Store, e: Event)
    requires Inv(env, s) && Enabled(env, s, e)
    ensures Legal(env, s, [e]) && After(env, s, [e]) == Next(env, s, e) && Inv(env, Next(env, s, e))
  {
    hide Inv, Enabled, Next;
    StepIsDefined(env, s, e);
    NextKeeps(env, s, e);
    assert [e][1..] == [];
    assert Legal(env, Next(env, s, e), []);
  }

  lemma FirstStep(env: Env, s: Store, e: Event, es: seq<Event>)
    requires Inv(env, s) && Enabled(env, s, e) && (NextKeeps(env, s, e); Legal(env, Next(env, s, e), es))
    ensures Legal(env, s, [e] + es)
    ensures (NextKeeps(env, s, e); After(env, s, [e] + es) == After(env, Next(env, s, e), es))
  {
    hide Inv, Enabled, Next;
    StepIsDefined(env, s, e);
    NextKeeps(env, s, e);
    assert ([e] + es)[1..] == es;
  }

  /** A failed append to a whole WAL leaves its cut frame, which is no record. */
  lemma FailureIsTorn(env: Env, s: Store, g: Bytes)
    requires Inv(env, s) && Whole(env, s) && Enabled(env, s, AppendFails(g))
    ensures Newest(Next(env, s, AppendFails(g)).disk).bytes == Frames(env.crc, s.current) + g
    ensures StepSound(env, s, AppendFails(g))
  {
    hide Frame, Frames, Live, Durable, Garbage;
    var pre := Frames(env.crc, s.current);
    OverEnd(Newest(s.disk).bytes, pre, g);
    assert (pre + g)[|pre|..] == g;
    var p :| Writable(p) && |g| < |Frame(env.crc, p)| && g == Frame(env.crc, p)[..|g|];
    FrameLength(env.crc, p);
    CutFrameIsGarbage(env.crc, pre, p, |g|);
  }

  /** Rotating a torn WAL, whoever does it. */
  lemma TornRotationRefuses(env: Env, s: Store)
    requires Inv(env, s) && Sound(env, s) && !Whole(env, s) && s.current != []
    ensures Inv(env, Next(env, s, Rotate)) && Recovered(env, Next(env, s, Rotate).disk) == None
  {
    hide Live, Holds, Frames, Durable, Starts;
    InvHasWal(env, s);
    NextKeeps(env, s, Rotate);
    var s', live := Next(env, s, Rotate), Live(s.disk.wals, s.disk.floor);
    RotatedLive(env, s);
    SoundHolds(env, s);
    NoFrames(env);
    WholeHolds(env, []);
    var live', parts' := Live(s'.disk.wals, s'.disk.floor), s'.sealed + [s'.current];
    forall i | 0 <= i < |live'| ensures Holds(env, live'[i].bytes, parts'[i]) {
      assert i <= |s.sealed| ==> (s.sealed + [s.current])[i] == parts'[i] && live'[i].bytes == live[i].bytes;
    }
    assert live'[|s.sealed|].bytes != Frames(env.crc, s'.sealed[|s.sealed|]);
    TornSealedWalRefuses(env, s');
  }

  /** From every sound store whose newest WAL is whole and not empty: an append that fails half-way, then an
      explicit flush, which rotates without asking whether the store is degraded.  Until that
      memtable's own flush moves the floor on, the store does not open again. */
  lemma ForcedSealLosesTheStore(env: Env, s: Store, g: Bytes)
    requires Inv(env, s) && Sound(env, s) && Whole(env, s) && s.current != [] && g != [] && TornTail(env, g)
    ensures Legal(env, s, [AppendFails(g), Rotate])
    ensures Recovered(env, After(env, s, [AppendFails(g), Rotate]).disk) == None
  {
    hide Inv, Sound, Whole, Frames, TornTail, StepSound;
    InvHasWal(env, s);
    var s1 := Next(env, s, AppendFails(g));
    NextKeeps(env, s, AppendFails(g));
    FailureIsTorn(env, s, g);
    LongerIsNotWhole(env, s1, g);
    TornRotationRefuses(env, s1);
    OneStep(env, s1, Rotate);
    FirstStep(env, s, AppendFails(g), [Rotate]);
    assert [AppendFails(g)] + [Rotate] == [AppendFails(g), Rotate];
  }

  lemma LongerIsNotWhole(env: Env, s: Store, g: Bytes)
    requires s.disk.wals != [] && Newest(s.disk).bytes == Frames(env.crc, s.current) + g && g != []
    ensures !Whole(env, s)
  {
    hide Frames;
    assert |Newest(s.disk).bytes| == |Frames(env.crc, s.current)| + |g|;
  }

  /** What a write leaves of a longer torn frame. */
  lemma OverTorn(env: Env, s: Store, g: Bytes, p: Bytes, grown: nat)
    requires Inv(env, s) && Newest(s.disk).bytes == Frames(env.crc, s.current) + g && |Frame(env.crc, p)| < |g|
    requires Enabled(env, s, Append(p, grown))
    ensures Newest(Next(env, s, Append(p, grown)).disk).bytes ==
      Frames(env.crc, s.current + [p]) + g[|Frame(env.crc, p)|..]
  {
    hide Frame, Frames, Live, Durable;
    var pre, f, bytes := Frames(env.crc, s.current), Frame(env.crc, p), Newest(s.disk).bytes;
    OverEnd(bytes, pre, f);
    FramesSnoc(env.crc, s.current, p);
    assert bytes[|pre + f|..] == g[|f|..];
    var bytes' := Over(bytes, |pre|, f);
    assert bytes' == bytes'[..|pre|] + bytes'[|pre|..] && bytes'[..|pre|] == pre;
    assert pre + (f + g[|f|..]) == (pre + f) + g[|f|..];
  }

  /** From every sound store whose newest WAL is whole, empty or not: a writer's append tears; a second
      one, let in before the store was flagged, writes a frame shorter by less than a frame header over the torn
      bytes; its own write fills the memtable, and it rotates.  Nobody forced anything. */
  lemma AdmittedWriterLosesTheStore(env: Env, s: Store, g: Bytes, p: Bytes, grown: nat)
    requires Inv(env, s) && Sound(env, s) && Whole(env, s) && TornTail(env, g)
    requires Writable(p) && env.need(p) <= s.disk.values + grown
    requires |Frame(env.crc, p)| < |g| < |Frame(env.crc, p)| + HEADER_LEN
    ensures var es := [AppendFails(g), Append(p, grown), Rotate];
      Legal(env, s, es) && Recovered(env, After(env, s, es).disk) == None
  {
    hide Inv, Frames, Frame, TornTail, SealedClean;
    var e1, e2 := AppendFails(g), Append(p, grown);
    var s1 := Next(env, s, e1);
    InvHasWal(env, s);
    FailureIsTorn(env, s, g);
    NextKeeps(env, s, e1);
    InvHasWal(env, s1);
    var s2 := Next(env, s1, e2);
    NextKeeps(env, s1, e2);
    OverTorn(env, s1, g, p, grown);
    ShortIsGarbage(env, Newest(s2.disk).bytes, s2.current, g[|Frame(env.crc, p)|..]);
    AllCurrentWritable(env, s2);
    LongerIsNotWhole(env, s2, g[|Frame(env.crc, p)|..]);
    TornRotationRefuses(env, s2);
    OneStep(env, s2, Rotate);
    FirstStep(env, s1, e2, [Rotate]);
    FirstStep(env, s, e1, [e2] + [Rotate]);
    assert [e1] + ([e2] + [Rotate]) == [AppendFails(g), Append(p, grown), Rotate];
  }

  lemma AllCurrentWritable(env: Env, s: Store)
    requires Inv(env, s)
    ensures AllWritable(s.current)
  {
  }

  lemma ShortIsGarbage(env: Env, bytes: Bytes, rs: seq<Bytes>, g: Bytes)
    requires bytes == Frames(env.crc, rs) + g && 0 < |g| < HEADER_LEN
    ensures Frames(env.crc, rs) <= bytes && Inert(env, bytes, rs)
  {
    hide Frames;
    assert bytes[|Frames(env.crc, rs)|..] == g;
  }

  /** A payload that carries a whole frame where a shorter frame will end. */
  function Carrier(env: Env, short: Bytes, hidden: Bytes): Bytes {
    short + (Frame(env.crc, hidden) + [0])
  }

  /** The other half of the rule, for every checksum: a batch whose bytes contain a frame is cut short
      by a failure just behind it, and a shorter batch is written over its head.  After a crash the store
      serves `hidden`, which nobody appended. */
  lemma PhantomRecord(env: Env, s: Store, short: Bytes, hidden: Bytes, grown: nat)
    requires Inv(env, s) && Sound(env, s) && Whole(env, s)
    requires Writable(short) && env.need(short) <= s.disk.values + grown
    requires Writable(hidden) && env.need(hidden) <= s.disk.values + grown && Writable(Carrier(env, short, hidden))
    ensures var g := Frame(env.crc, Carrier(env, short, hidden))[..|Frame(env.crc, short)| + |Frame(env.crc, hidden)|];
      var es := [AppendFails(g), Append(short, grown)];
      Legal(env, s, es) && Hist(After(env, s, es)) == Hist(s) + [short] &&
      Recovered(env, After(env, s, es).disk) == Some(Hist(s) + [short] + [hidden])
  {
    hide Inv, Frames, Frame, TornTail, SealedClean, ReplayOf, Live;
    var f, fh, big := Frame(env.crc, short), Frame(env.crc, hidden), Carrier(env, short, hidden);
    CarrierFrame(env, short, hidden);
    var g := Frame(env.crc, big)[..|f| + |fh|];
    assert g != [] && TornTail(env, g) by { CutIsTorn(env, big, |f| + |fh|); }
    var e1, e2 := AppendFails(g), Append(short, grown);
    var s1 := Next(env, s, e1);
    InvHasWal(env, s);
    FailureIsTorn(env, s, g);
    NextKeeps(env, s, e1);
    InvHasWal(env, s1);
    var s2 := Next(env, s1, e2);
    NextKeeps(env, s1, e2);
    OverTorn(env, s1, g, short, grown);
    OneStep(env, s1, e2);
    FirstStep(env, s, e1, [e2]);
    assert [e1] + [e2] == [e1, e2];
    assert Hist(s2) == Hist(s) + [short];
    AppendKeepsClean(env, s1, e2);
    PhantomServed(env, s2, hidden);
  }

  lemma CutIsTorn(env: Env, p: Bytes, n: nat)
    requires Writable(p) && n < |Frame(env.crc, p)|
    ensures TornTail(env, Frame(env.crc, p)[..n])
  {
    hide Frame;
    assert |Frame(env.crc, p)[..n]| == n;
  }

  lemma CarrierFrame(env: Env, short: Bytes, hidden: Bytes)
    ensures var f, fh := Frame(env.crc, short), Frame(env.crc, hidden);
      var big := Frame(env.crc, Carrier(env, short, hidden));
      0 < |f| < |f| + |fh| < |big| && big[..|f| + |fh|][|f|..] == fh
  {
    hide LittleEndian;
    FrameLength(env.crc, short);
    FrameLength(env.crc, hidden);
    var fh, p := Frame(env.crc, hidden), Carrier(env, short, hidden);
    FrameLength(env.crc, p);
    var big := Frame(env.crc, p);
    assert big[HEADER_LEN..] == p;
    assert big[..HEADER_LEN + |short| + |fh|][HEADER_LEN + |short|..] == p[|short|..|short| + |fh|] == fh;
  }

  lemma AppendKeepsClean(env: Env, s: Store, e: Event)
    requires Inv(env, s) && Enabled(env, s, e) && e.Append? && SealedClean(env, s)
    ensures SealedClean(env, Next(env, s, e))
  {
    AppendKeeps(env, s, e.p, e.grown);
  }

  /** A frame behind the last record is served as one. */
  lemma PhantomServed(env: Env, s: Store, hidden: Bytes)
    requires Inv(env, s) && SealedClean(env, s) && Writable(hidden) && env.need(hidden) <= s.disk.values
    requires Newest(s.disk).bytes == Frames(env.crc, s.current) + Frame(env.crc, hidden)
    ensures Recovered(env, s.disk) == Some(Hist(s) + [hidden])
  {
    hide ReplayOf, Live, Frames, Frame, Usable, Inert;
    var live, rs := Live(s.disk.wals, s.disk.floor), s.current + [hidden];
    FramesSnoc(env.crc, s.current, hidden);
    var parts := s.sealed + [rs];
    forall i | 0 <= i < |parts| ensures Holds(env, live[i].bytes, parts[i]) {
      WholeHolds(env, parts[i]);
    }
    FlatSnoc(s.sealed, rs);
    ReplayFinds(env, live, parts, s.disk.values);
    assert Flat(parts) == (Flat(s.sealed) + s.current) + [hidden];
    assert forall j :: 0 <= j < |Flat(s.sealed) + s.current| ==>
      (Flat(s.sealed) + s.current)[j] == Hist(s)[|s.disk.tables| + j];
    UsableStops(env, Flat(parts), s.disk.values, |Flat(parts)|);
    assert Flat(parts)[..|Flat(parts)|] == Flat(parts);
    assert s.disk.tables + Flat(parts) == Hist(s) + [hidden];
  }

  // ---------------------------------------------------------------- a process crash

  /** Opening after a mere process crash replays what only the page cache holds and records it in
      tables, without syncing the value-log files it adopts: the opened store is in order exactly if
      the values its tables point at were durable before. */
  lemma RecoveredPointersDurable(env: Env, s: Store, d: Disk)
    requires Inv(env, s) && Sound(env, s)
    requires WfDisk(d) && d.values == s.disk.values && d.valuesSynced == s.disk.valuesSynced
    requires d.wals == [WalFile(d.floor, [], 0)] && Some(d.tables) == Recovered(env, s.disk)
    ensures d.tables == Hist(s)
    ensures Inv(env, Opened(d)) <==> Needs(env, Hist(s), s.disk.valuesSynced)
  {
    hide ReplayOf, Live, Usable, Holds, Frames, Starts;
    var live := Live(s.disk.wals, s.disk.floor);
    var parts := s.sealed + [s.current];
    FlatSnoc(s.sealed, s.current);
    SoundHolds(env, s);
    ReplayFinds(env, live, parts, s.disk.values);
    assert forall j :: 0 <= j < |Flat(parts)| ==> Flat(parts)[j] == Hist(s)[|s.disk.tables| + j];
    UsableStops(env, Flat(parts), s.disk.values, |Flat(parts)|);
    assert Flat(parts)[..|Flat(parts)|] == Flat(parts);
    OpenedIsSound(env, d);
  }

  /** They need not be: from every sound store whose newest WAL is whole, one append with a value and no
      sync, a process crash, a reopen, and then a power loss that takes the unsynced value.  The table
      that points at it is durable. */
  lemma PointersOutliveValues(env: Env, s: Store, p: Bytes, grown: nat, d: Disk)
    requires Inv(env, s) && Sound(env, s) && Whole(env, s) && Enabled(env, s, Append(p, grown))
    requires env.need(p) > s.disk.valuesSynced
    requires WfDisk(d) && d.values == s.disk.values + grown && d.valuesSynced == s.disk.valuesSynced
    requires d.wals == [WalFile(d.floor, [], 0)] &&
      Some(d.tables) == Recovered(env, Next(env, s, Append(p, grown)).disk)
    ensures p in d.tables && d.tables == Hist(s) + [p]
    ensures CanLose(d, 0, d.valuesSynced) && Lose(d, 0, d.valuesSynced).tables == d.tables
    ensures !Needs(env, d.tables, Lose(d, 0, d.valuesSynced).values) && !Inv(env, Opened(d))
  {
    hide Inv, Frames, Frame, SealedClean, Recovered;
    var s1 := Next(env, s, Append(p, grown));
    InvHasWal(env, s);
    NextKeeps(env, s, Append(p, grown));
    AppendToWhole(env, s, p, grown);
    RecoveredPointersDurable(env, s1, d);
    assert Hist(s1) == Hist(s) + [p];
    assert Hist(s1)[|Hist(s)|] == p;
  }

  lemma AppendToWhole(env: Env, s: Store, p: Bytes, grown: nat)
    requires Inv(env, s) && Whole(env, s) && Enabled(env, s, Append(p, grown))
    ensures StepSound(env, s, Append(p, grown)) && Whole(env, Next(env, s, Append(p, grown)))
  {
    hide Frame, Frames, Live, Durable, Inert;
    OverEnd(Newest(s.disk).bytes, Frames(env.crc, s.current), Frame(env.crc, p));
    FramesSnoc(env.crc, s.current, p);
    WholeHolds(env, s.current + [p]);
  }
}
