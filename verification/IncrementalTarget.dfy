/**
 What an INCREMENTAL stream leaves in the target: the version is stored, so that a run that is started
 again adds to what the dead ones wrote.
 */
module IncrementalTarget {
  import opened Singer
  import opened QuerySpec
  import opened Incremental
  import opened Tables
  import opened Leftovers

  /** Each row has a key of its own. */
  ghost predicate OneRowAKey(table: set<Row>) {
    forall a, b :: a in table && b in table && a.pk == b.pk ==> a == b
  }

  /** The messages of all runs. */
  function Everything(crashes: seq<Crash>, last: seq<Message>): seq<Message> {
    if crashes == [] then last else crashes[0].msgs + Everything(crashes[1..], last)
  }

  /** What a run says of a key: the row of the table, if it delivers it, and otherwise nothing. */
  lemma RunShows(s: Stream, table: set<Row>, key: string, st: State, now: int, gone: set<Row>, msgs: seq<Message>,
                 target: Target, r: Row)
    requires OneRowAKey(table) && IsRun(s, table, key, Records, st, now, gone, msgs) && r in table
    ensures var version := StreamVersion(st, s.id, now);
            CellOf(FeedAll(target, msgs), version, r.pk)
            == if r in Delivered(msgs) then Some(Cell(r, version, false)) else CellOf(target, version, r.pk)
  {
    hide RkAtMost, RkBookmark, Begin, Delivered, StateAccounts, CellOf, FeedAll, StatesCarry, MessageOf;
    ScanFeeds(s.id, StreamVersion(st, s.id, now), target, msgs, r.pk);
    KeyOfTheRow(table, Delivered(msgs), r);
  }

  lemma KeyOfTheRow(table: set<Row>, rows: seq<Row>, r: Row)
    requires OneRowAKey(table) && r in table && forall x :: x in rows ==> x in table
    ensures HasKey(rows, r.pk) <==> r in rows
  {
    if r in rows {
      var i :| 0 <= i < |rows| && rows[i] == r;
      assert rows[i].pk == r.pk;
    }
    if HasKey(rows, r.pk) {
      var i :| 0 <= i < |rows| && rows[i].pk == r.pk;
      assert rows[i] in rows;
    }
  }

  /** From a state that has a version, a row that the target has under it stays through all later runs. */
  lemma {:induction false} RowsStay(s: Stream, table: set<Row>, key: string, st: State, now: int, crashes: seq<Crash>,
                                    last: seq<Message>, gone: set<Row>, target: Target, r: Row, version: int)
    requires OneRowAKey(table) && History(s, table, key, Records, st, now, crashes, last, gone) && r in table
    requires StoredVersion(st, s.id) == Some(version) && CellOf(target, version, r.pk) == Some(Cell(r, version, false))
    ensures CellOf(FeedAll(target, Everything(crashes, last)), version, r.pk) == Some(Cell(r, version, false))
    decreases |crashes|
  {
    hide IsRun, CellOf, FeedAll, CompleteBut, Begin, RkBookmark, StoredVersion, Delivered, OneRowAKey;
    if crashes == [] {
      RunShows(s, table, key, st, now, gone, last, target, r);
    } else {
      var c := crashes[0];
      RunShows(s, table, key, st, now, c.gone, c.msgs, target, r);
      CrashCovers(s, table, key, Records, st, now, c);
      RowsStay(s, table, key, c.Next(st), c.now, crashes[1..], last, gone, FeedAll(target, c.msgs), r, version);
      FeedConcat(target, c.msgs, Everything(crashes[1..], last));
    }
  }

  /** Fed with the messages of any number of dead runs and of the last one, the target has every row from the
      first bookmark on, but for those that were gone in some run: in RECORD mode there are none. */
  lemma {:induction false} RestartsAddUp(s: Stream, table: set<Row>, key: string, st: State, now: int,
                                         crashes: seq<Crash>, last: seq<Message>, gone: set<Row>, target: Target,
                                         r: Row)
    requires OneRowAKey(table) && History(s, table, key, Records, st, now, crashes, last, gone)
    requires r in table && RkAtMost(RkBookmark(Begin(st, s.id, key, now), s.id), r.rk)
    ensures View(FeedAll(target, Everything(crashes, last)), r.pk) == Some(r) || GoneSomewhere(r, crashes, gone)
    decreases |crashes|
  {
    hide IsRun, FeedAll, Begin, RkBookmark, StoredVersion, Delivered, OneRowAKey, RkAtMost, StreamVersion;
    if crashes == [] {
      RunShows(s, table, key, st, now, gone, last, target, r);
    } else {
      var c := crashes[0];
      CrashCovers(s, table, key, Records, st, now, c);
      FeedConcat(target, c.msgs, Everything(crashes[1..], last));
      if RkAtMost(RkBookmark(Begin(c.Next(st), s.id, key, c.now), s.id), r.rk) {
        RestartsAddUp(s, table, key, c.Next(st), c.now, crashes[1..], last, gone, FeedAll(target, c.msgs), r);
        LaterRunsCount(r, crashes, last, gone);
      } else if r in c.gone {
        assert r in crashes[0].gone;
      } else {
        RowOfTheDeadRunStays(s, table, key, st, now, crashes, last, gone, target, r);
      }
    }
  }

  lemma RowOfTheDeadRunStays(s: Stream, table: set<Row>, key: string, st: State, now: int, crashes: seq<Crash>,
                             last: seq<Message>, gone: set<Row>, target: Target, r: Row)
    requires OneRowAKey(table) && crashes != [] && History(s, table, key, Records, st, now, crashes, last, gone)
    requires r in table && DeliveredBy(r, crashes[0])
    ensures View(FeedAll(FeedAll(target, crashes[0].msgs), Everything(crashes[1..], last)), r.pk) == Some(r)
  {
    hide IsRun, FeedAll, Begin, RkBookmark, StoredVersion, Delivered, OneRowAKey, RkAtMost, StreamVersion;
    var c := crashes[0];
    CrashCovers(s, table, key, Records, st, now, c);
    assert c.msgs == c.msgs[..c.at.value] + c.msgs[c.at.value..];
    DeliveredConcat(c.msgs[..c.at.value], c.msgs[c.at.value..]);
    RunShows(s, table, key, st, now, c.gone, c.msgs, target, r);
    RowsStay(s, table, key, c.Next(st), c.now, crashes[1..], last, gone, FeedAll(target, c.msgs), r,
             StreamVersion(st, s.id, now));
  }
}
