/**
 What is left in the target when a snapshot starts over, and when that does harm.

 A LOG_BASED snapshot stores the version of its rows, and a FULL_TABLE scan does not.  A LOG_BASED
 snapshot without the ordered key starts over under the version it had, so that the rows of the dead
 run stay; a FULL_TABLE scan with the ordered key goes on under a new version, so that they go.
 */
module Leftovers {
  import opened Singer
  import opened QuerySpec
  import opened FullTableSpec
  import opened FullTable
  import opened Historical
  import opened Tables

  /** The target's cell of the key, if it is of the version. */
  function CellOf(target: Target, version: int, k: int): Option<Cell> {
    if k in target && target[k].version == version then Some(target[k]) else None
  }

  /** After the messages of a scan, each key that was delivered has its row; any other key has what
      the version had before. */
  ghost predicate FedAt(before: Target, after: Target, version: int, delivered: seq<Row>, k: int) {
    && (HasKey(delivered, k) ==>
          exists r :: r in delivered && r.pk == k && CellOf(after, version, k) == Some(Cell(r, version, false)))
    && (!HasKey(delivered, k) ==> CellOf(after, version, k) == CellOf(before, version, k))
  }

  lemma {:induction false} ScanFeeds(id: StreamId, version: int, before: Target, msgs: seq<Message>, k: int)
    requires OfVersion(id, version, Records, msgs)
    ensures FedAt(before, FeedAll(before, msgs), version, Delivered(msgs), k)
    decreases |msgs|
  {
    if msgs != [] {
      var front, m := msgs[..|msgs| - 1], msgs[|msgs| - 1];
      assert OfVersion(id, version, Records, front);
      ScanFeeds(id, version, before, front, k);
      assert m in msgs && MessageOf(id, version, Records, m);
      MessageFeeds(before, FeedAll(before, front), version, Delivered(front), m, k);
    }
  }

  lemma MessageFeeds(before: Target, target: Target, version: int, rows: seq<Row>, m: Message, k: int)
    requires FedAt(before, target, version, rows, k)
    requires (m.Record? && m.version == version) || (m.ActivateVersion? && m.version == version) || m.StateMessage?
    ensures FedAt(before, Feed(target, m), version, rows + Rows(m), k)
  {
    if m.Record? {
      var all := rows + [m.row];
      assert all[|rows|] == m.row;
      if m.row.pk == k {
        assert CellOf(Feed(target, m), version, k) == Some(Cell(m.row, version, false));
      } else {
        assert CellOf(Feed(target, m), version, k) == CellOf(target, version, k);
        if HasKey(rows, k) {
          var i :| 0 <= i < |rows| && rows[i].pk == k;
          assert all[i].pk == k;
        }
      }
    } else {
      assert rows + Rows(m) == rows;
      assert CellOf(Feed(target, m), version, k) == CellOf(target, version, k);
    }
  }

  /** After a scan that ends with its announcement the target shows the rows delivered, and beside
      them what it had under the same version.  `last` are the messages of the attempt that succeeds. */
  lemma ScanShows(id: StreamId, version: int, first: bool, before: Target, table: seq<Row>, early: seq<Message>,
                  last: seq<Message>, k: int)
    requires Distinct(table) && Announced(id, version, Records, first, true, early + last) && FromTable(table, last)
    ensures var shown := View(FeedAll(before, early + last), k);
            if HasKey(Delivered(last), k) then shown == RowOf(table, k)
            else if HasKey(Delivered(early), k) then exists r :: r in Delivered(early) && r.pk == k && shown == Some(r)
            else shown == View(Activate(before, version), k)
  {
    hide Announced, Distinct, FeedAll, RowOf, Delivered, FromTable, OfVersion, HasKey;
    AttemptsAreOfVersion(id, version, first, early, last);
    ScanFeeds(id, version, before, early, k);
    ScanFeeds(id, version, FeedAll(before, early), last, k);
    FeedConcat(before, early, last);
    LastActivates(id, version, first, before, early + last, k);
    if HasKey(Delivered(last), k) {
      var r :| r in Delivered(last) && r.pk == k
               && CellOf(FeedAll(before, early + last), version, k) == Some(Cell(r, version, false));
      RowIsOfTheTable(table, last, r);
    }
  }

  lemma RowIsOfTheTable(table: seq<Row>, msgs: seq<Message>, r: Row)
    requires Distinct(table) && FromTable(table, msgs) && r in Delivered(msgs)
    ensures RowOf(table, r.pk) == Some(r)
  {
    RowOfIs(table, r);
  }

  lemma AttemptsAreOfVersion(id: StreamId, version: int, first: bool, early: seq<Message>, last: seq<Message>)
    requires Announced(id, version, Records, first, true, early + last)
    ensures OfVersion(id, version, Records, early) && OfVersion(id, version, Records, last)
  {
    assert forall m :: m in early || m in last ==> m in early + last;
  }

  lemma LastActivates(id: StreamId, version: int, first: bool, before: Target, msgs: seq<Message>, k: int)
    requires Announced(id, version, Records, first, true, msgs)
    ensures k in FeedAll(before, msgs) ==> FeedAll(before, msgs)[k].version == version
  {
  }

  // ----- a LOG_BASED snapshot without the ordered key -----

  /** What the target shows at the end: the scan of the table as it was at `q`, then the changes
      from the coordinates `c` to the end `e`. */
  function Result(source: Source, target: Target, version: int, scan: seq<Message>, c: nat, e: nat): Target
    requires c <= e <= |source.log|
  {
    ReplayAll(source, FeedAll(target, scan), version, c, e)
  }

  /** A row of the dead run does no harm if it is still in the table at the scan, or if some change
      in the log after the coordinates is about it. */
  ghost predicate Harmless(source: Source, left: Target, c: nat, q: nat, e: nat, k: int)
    requires c <= q <= e <= |source.log|
  {
    View(left, k) == None || source.Value(q, k) != None || Touched(source, k, c, e)
  }

  /** The row was in the table at some time from `c` to `q`. */
  ghost predicate WasThere(source: Source, r: Row, c: nat, q: nat) {
    exists t :: c <= t <= q && t <= |source.log| && source.Value(t, r.pk) == Some(r)
  }

  /** What an attempt delivers, whether it fails or not, was in the table as it read it. */
  lemma AttemptReadsWhatWasThere(source: Source, scan: Scan, version: int, before: State, fault: Fault, after: State,
                                 msgs: seq<Message>, c: nat, t: nat, q: nat)
    requires c <= t <= q <= |source.log| && TableAt(source, t, scan.table)
    requires Attempted(scan, version, Records, before, fault, after, msgs)
    ensures forall r :: r in Delivered(msgs) ==> WasThere(source, r, c, q)
  {
    hide Attempted, Delivered, RowOf, Distinct;
    NothingYet(scan.table);
    AttemptIsFromTable(scan, version, Records, before, fault, after, [], msgs);
    assert [] + msgs == msgs;
    forall r | r in Delivered(msgs) ensures WasThere(source, r, c, q) {
      RowOfIs(scan.table, r);
      assert source.Value(t, r.pk) == Some(r);
    }
  }

  /** A snapshot that reads the whole table anew, followed by the log, leaves the target equal to
      the source exactly when every row that the target had under its version is harmless.  The attempts
      that failed, `early`, read the table as it was by then; the last one reads it as it is at `q`. */
  lemma FullScanConvergesExactlyWhenLeftoversAreHarmless(source: Source, target: Target, id: StreamId, version: int,
                                                         first: bool, early: seq<Message>, table: seq<Row>,
                                                         last: seq<Message>, c: nat, q: nat, e: nat)
    requires c <= q <= e <= |source.log| && KeysStay(source.log) && TableAt(source, q, table)
    requires Announced(id, version, Records, first, true, early + last)
    requires forall r :: r in Delivered(early) ==> WasThere(source, r, c, q)
    requires FromTable(table, last) && EndsWith(Delivered(last), table)
    ensures (forall k :: View(Result(source, target, version, early + last, c, e), k) == source.Value(e, k))
       <==> (forall k :: Harmless(source, Activate(target, version), c, q, e, k))
  {
    hide Harmless;
    forall k ensures View(Result(source, target, version, early + last, c, e), k) == source.Value(e, k)
                <==> Harmless(source, Activate(target, version), c, q, e, k)
    {
      FullScanAt(source, target, id, version, first, early, table, last, c, q, e, k);
    }
  }

  lemma FullScanAt(source: Source, target: Target, id: StreamId, version: int, first: bool, early: seq<Message>,
                   table: seq<Row>, last: seq<Message>, c: nat, q: nat, e: nat, k: int)
    requires c <= q <= e <= |source.log| && KeysStay(source.log) && TableAt(source, q, table)
    requires Announced(id, version, Records, first, true, early + last)
    requires forall r :: r in Delivered(early) ==> WasThere(source, r, c, q)
    requires FromTable(table, last) && EndsWith(Delivered(last), table)
    ensures View(Result(source, target, version, early + last, c, e), k) == source.Value(e, k)
       <==> Harmless(source, Activate(target, version), c, q, e, k)
  {
    hide Announced, Distinct, FeedAll, RowOf, Delivered, Activate, HasKey, Touched;
    ScanShows(id, version, first, target, table, early, last, k);
    ReplayAllView(source, FeedAll(target, early + last), version, c, e, k);
    assert source.Value(q, k) == RowOf(table, k);
    RowOfNone(table, k);
    DeliveredHasKeys(table, Delivered(last), k);
  }

  lemma DeliveredHasKeys(table: seq<Row>, rows: seq<Row>, k: int)
    requires EndsWith(rows, table) && forall r :: r in rows ==> r in table
    ensures HasKey(rows, k) <==> HasKey(table, k)
  {
    if HasKey(table, k) {
      var i :| 0 <= i < |table| && table[i].pk == k;
      assert rows[|rows| - |table|..][i] == table[i];
      assert rows[|rows| - |table| + i].pk == k;
    }
    if HasKey(rows, k) {
      var i :| 0 <= i < |rows| && rows[i].pk == k;
      assert rows[i] in table;
    }
  }

  /** Under a version that the target does not know there are no leftovers. */
  lemma NewVersionHasNoLeftovers(source: Source, target: Target, version: int, c: nat, q: nat, e: nat)
    requires c <= q <= e <= |source.log| && forall k :: k in target ==> target[k].version != version
    ensures forall k :: Harmless(source, Activate(target, version), c, q, e, k)
  {
  }

  /** The STATE messages of a snapshot that died carry its version, so the next run starts over
      under it and keeps what it wrote. */
  lemma RestartKeepsTheVersion(id: StreamId, msgs: seq<Message>, anchor: Anchor, max: Value, m: nat, now: int)
    requires Carries(id, msgs, anchor, max) && anchor.version.Num?
    requires m < |msgs| && msgs[m].StateMessage?
    ensures StreamVersion(msgs[m].state, id, now) == anchor.version.n
  {
    assert AnchorOf(msgs[m].state, id).version == anchor.version;
  }

  // A row that is deleted between two runs: what the code writes, step by step.

  const STREAM := Stream("t", LogBased)
  const GONE := Row(7, None, "old")
  const FIRST_TRY := [NoFault, NoFault, NoFault, NoFault, NoFault]

  /** The scan of a snapshot that starts over from `st` under version 1. */
  function Rescan(st: State, table: seq<Row>, at: Coordinates): seq<Message> {
    ScanMessages(ScanFrom(STREAM, false, table, FreshStart(STREAM, false, st, 1, at)), 1, Records, FIRST_TRY, 1, true)
  }

  lemma RescanShape(st: State, table: seq<Row>, at: Coordinates)
    requires Get(st, "t", MaxPk) == Null && |table| <= 1 && !Truthy(Get(st, "t", InitialFullTableComplete))
    ensures var activate, state := ActivateVersion("t", 1), StateMessage(FreshStart(STREAM, false, st, 1, at));
            Rescan(st, table, at)
            == [activate] + (if table == [] then [] else [Record("t", table[0], 1)]) + [state, activate]
  {
    hide Whitelist;
    var start := FreshStart(STREAM, false, st, 1, at);
    var scan := ScanFrom(STREAM, false, table, start);
    FreshStartFields(st, at);
    assert AttemptsMessages(scan, 1, Records, start, FIRST_TRY, 1)
        == AttemptsMessages(scan, 1, Records, start, FIRST_TRY, 0) + AttemptMessages(scan, 1, Records, start, NoFault);
    assert table[..Served(NoFault, |table|)] == table;
    QueryOfAtMostOneRow(start, table);
  }

  lemma FreshStartFields(st: State, at: Coordinates)
    ensures var start := FreshStart(STREAM, false, st, 1, at);
            && Get(start, "t", MaxPk) == Get(st, "t", MaxPk) && Get(start, "t", Version) == Num(1)
            && Get(start, "t", InitialFullTableComplete) == Get(st, "t", InitialFullTableComplete)
            && Get(start, "t", LogFile) == Get(st, "t", LogFile) && Get(start, "t", Gtid) == Get(st, "t", Gtid)
            && (ActivatesFirst(start, "t") <==> !Truthy(Get(st, "t", InitialFullTableComplete)))
  {
  }

  lemma QueryOfAtMostOneRow(st: State, rows: seq<Row>)
    requires |rows| <= 1 && Get(st, "t", MaxPk) == Null
    ensures QueryMessages(STREAM, st, 1, Records, rows, false)
         == (if rows == [] then [] else [Record("t", rows[0], 1)]) + [StateMessage(st)]
  {
    assert Progress(STREAM, st, 1, Records, rows, 0) == [];
    if |rows| == 1 {
      assert Progress(STREAM, st, 1, Records, rows, 1)
          == Progress(STREAM, st, 1, Records, rows, 0) + RowMessages(STREAM, st, 1, Records, rows, 1);
    }
  }

  /** The table holds row 7, and a snapshot dies after its last STATE, before it stores coordinates.  Row 7
      is deleted.  The next run starts over from that STATE, under the same version; it reads an empty
      table, and the log after its coordinates has nothing for it.  Row 7 stays in the target. */
  lemma DeletedRowStays(clock: int)
    ensures var source := Source(map[7 := GONE], [Entry(FileNames.Pos("f", 10), Remove(GONE))], FileNames.Pos("f", 20));
            var first := Rescan(State(map[], None), [GONE], Coordinates("f", 4, None));
            && TableAt(source, 0, [GONE]) && |first| == 4 && first[2].StateMessage?
            && var left, st := FeedAll(map[], first[..3]), first[2].state;
               && RequiresHistorical(st, "t") && !CanResume(st, "t", false) && StreamVersion(st, "t", clock) == 1
               && var second := Rescan(st, [], Coordinates("f", 20, None));
                  && TableAt(source, 1, []) && source.Value(1, 7) == None
                  && View(Result(source, left, 1, second, 1, 1), 7) == Some(GONE)
  {
    hide FreshStart, Rescan, StreamVersion;
    var source := Source(map[7 := GONE], [Entry(FileNames.Pos("f", 10), Remove(GONE))], FileNames.Pos("f", 20));
    var st0, at := State(map[], None), Coordinates("f", 4, None);
    var st, activate := FreshStart(STREAM, false, st0, 1, at), ActivateVersion("t", 1);
    RescanShape(st0, [GONE], at);
    FreshStartFields(st0, at);
    RescanShape(st, [], Coordinates("f", 20, None));
    var first, second := Rescan(st0, [GONE], at), Rescan(st, [], Coordinates("f", 20, None));
    assert first == [activate, Record("t", GONE, 1), StateMessage(st), activate];
    FeedScan(map[], GONE, st);
    assert first[..3] == [activate, Record("t", GONE, 1), StateMessage(st)];
    var left: Target := map[7 := Cell(GONE, 1, false)];
    var st' := FreshStart(STREAM, false, st, 1, Coordinates("f", 20, None));
    assert second == [activate, StateMessage(st'), activate];
    FeedEmptyScan(left, st');
    assert Result(source, left, 1, second, 1, 1) == left;
    VersionStays(st, clock);
    forall k ensures source.Value(0, k) == RowOf([GONE], k) {
      assert RowOf([GONE], k) == if k == 7 then Some(GONE) else RowOf([GONE][1..], k);
      assert [GONE][1..] == [];
    }
    assert source.Value(1, 7) == Effect(Remove(GONE), 7, source.Value(0, 7));
    forall k ensures source.Value(1, k) == RowOf([], k) {
      assert source.Value(1, k) == Effect(Remove(GONE), k, source.Value(0, k));
    }
  }

  lemma VersionStays(st: State, clock: int)
    requires Get(st, "t", Version) == Num(1)
    ensures StreamVersion(st, "t", clock) == 1
  {
  }

  lemma FeedThree(target: Target, a: Message, b: Message, c: Message)
    ensures FeedAll(target, [a, b, c]) == Feed(Feed(Feed(target, a), b), c)
  {
    hide Feed;
    assert [a, b, c][..2] == [a, b] && [a, b][..1] == [a] && [a][..0] == [];
    assert FeedAll(target, []) == target;
    assert FeedAll(target, [a]) == Feed(FeedAll(target, []), a);
    assert FeedAll(target, [a, b]) == Feed(FeedAll(target, [a]), b);
  }

  lemma FeedScan(target: Target, row: Row, st: State)
    requires target == map[]
    ensures FeedAll(target, [ActivateVersion("t", 1), Record("t", row, 1), StateMessage(st)])
            == map[row.pk := Cell(row, 1, false)]
  {
    hide FeedAll;
    FeedThree(target, ActivateVersion("t", 1), Record("t", row, 1), StateMessage(st));
    assert Activate(map[], 1) == map[];
  }

  lemma FeedEmptyScan(target: Target, st: State)
    requires forall k :: k in target ==> target[k].version == 1
    ensures FeedAll(target, [ActivateVersion("t", 1), StateMessage(st), ActivateVersion("t", 1)]) == target
  {
    hide FeedAll, Activate;
    FeedThree(target, ActivateVersion("t", 1), StateMessage(st), ActivateVersion("t", 1));
    AllOfTheVersion(target);
  }

  lemma AllOfTheVersion(target: Target)
    requires forall k :: k in target ==> target[k].version == 1
    ensures Activate(target, 1) == target
  {
    assert forall k :: k in Activate(target, 1) <==> k in target;
  }

  // ----- a FULL_TABLE scan with the ordered key -----

  /** The scan goes on after the last key, under the new version: the target ends up with the rows
      up to the maximum exactly when none of them is at or below that key. */
  lemma ResumedFullTableIsCompleteExactlyWhenNothingWasRead(s: Stream, table: seq<Row>, st: State, target: Target,
                                                            now: int, faults: seq<Fault>, attempts: nat,
                                                            msgs: seq<Message>, ends: seq<nat>, last: int, max: int)
    requires s.replication == QuerySpec.FullTable && Ascending(table) && 0 < attempts <= |faults|
    requires Get(st, s.id, Version) == Null && Get(st, s.id, LastPk) == Key(last) && Get(st, s.id, MaxPk) == Key(max)
    requires forall k :: k in target ==> target[k].version != now
    requires var version := StreamVersion(st, s.id, now);
             && ScanMeetsItsPromises(ScanFrom(s, true, table, st), Records, faults, attempts, true, msgs, ends)
             && Announced(s.id, version, Records, ActivatesFirst(st, s.id), true, msgs) && FromTable(table, msgs)
    ensures (forall r :: r in table && r.pk <= max ==> View(FeedAll(target, msgs), r.pk) == Some(r))
       <==> (forall r :: r in table && r.pk <= max ==> last < r.pk)
  {
    var want := SelectRange(table, Key(last), Key(max));
    ScanWants(s, table, st, faults, attempts, msgs, ends, last, max);
    SelectedAreRows(table, Key(last), Key(max));
    forall r | r in table && r.pk <= max ensures View(FeedAll(target, msgs), r.pk) == Some(r) <==> last < r.pk {
      ResumedAt(s, table, target, now, ActivatesFirst(st, s.id), msgs, want, r, last, max);
    }
  }

  /** Rows 3 and 7, and a scan that died at key 5: row 3 is not in the target in the end. */
  lemma RowBelowTheLastKeyIsLost(target: Target, now: int, faults: seq<Fault>, attempts: nat, msgs: seq<Message>,
                                 ends: seq<nat>)
    requires 0 < attempts <= |faults| && forall k :: k in target ==> target[k].version != now
    requires var s, table := Stream("t", QuerySpec.FullTable), [Row(3, None, "three"), Row(7, None, "seven")];
             var st := State(map["t" := map[LastPk := Key(5), MaxPk := Key(10)]], None);
             && ScanMeetsItsPromises(ScanFrom(s, true, table, st), Records, faults, attempts, true, msgs, ends)
             && Announced(s.id, now, Records, ActivatesFirst(st, s.id), true, msgs) && FromTable(table, msgs)
    ensures View(FeedAll(target, msgs), 3) != Some(Row(3, None, "three"))
  {
    hide ScanMeetsItsPromises, Announced, FeedAll, ScanFrom, ActivatesFirst, FromTable;
    var s, table := Stream("t", QuerySpec.FullTable), [Row(3, None, "three"), Row(7, None, "seven")];
    var st := State(map["t" := map[LastPk := Key(5), MaxPk := Key(10)]], None);
    ScanWants(s, table, st, faults, attempts, msgs, ends, 5, 10);
    SelectedAreRows(table, Key(5), Key(10));
    ResumedAt(s, table, target, now, ActivatesFirst(st, s.id), msgs, SelectRange(table, Key(5), Key(10)), table[0], 5,
              10);
  }

  lemma ScanWants(s: Stream, table: seq<Row>, st: State, faults: seq<Fault>, attempts: nat, msgs: seq<Message>,
                  ends: seq<nat>, last: int, max: int)
    requires 0 < attempts <= |faults|
    requires Get(st, s.id, LastPk) == Key(last) && Get(st, s.id, MaxPk) == Key(max)
    requires ScanMeetsItsPromises(ScanFrom(s, true, table, st), Records, faults, attempts, true, msgs, ends)
    ensures Delivered(msgs) == SelectRange(table, Key(last), Key(max))
  {
    hide Delivered, SelectRange, RepeatsBounded, CheckpointsCover, KeepsAnchor, LostBefore;
    assert Pin(s, true, table, st) == st;
  }

  lemma ResumedAt(s: Stream, table: seq<Row>, target: Target, now: int, first: bool, msgs: seq<Message>,
                  want: seq<Row>, r: Row, last: int, max: int)
    requires Ascending(table) && r in table && r.pk <= max
    requires forall x :: x in want <==> x in table && InRange(Key(last), Key(max), x.pk)
    requires Delivered(msgs) == want && FromTable(table, msgs)
    requires Announced(s.id, now, Records, first, true, msgs)
    requires forall k :: k in target ==> target[k].version != now
    ensures View(FeedAll(target, msgs), r.pk) == Some(r) <==> last < r.pk
  {
    assert [] + msgs == msgs && Delivered([]) == [];
    ScanShows(s.id, now, first, target, table, [], msgs, r.pk);
    RowOfIs(table, r);
    if HasKey(want, r.pk) {
      var i :| 0 <= i < |want| && want[i].pk == r.pk;
      assert want[i] in want;
    }
    if last < r.pk {
      assert r in want;
      var i :| 0 <= i < |want| && want[i] == r;
      assert want[i].pk == r.pk;
    }
  }
}
