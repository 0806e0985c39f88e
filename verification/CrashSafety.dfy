/**
 Process deaths during a key-ordered scan in RECORD mode.

 A process may die after any message.  The next one starts from a STATE the dead one wrote, or
 from the state that one was started with.
 */
module CrashSafety {
  import opened Singer
  import opened QuerySpec
  import opened FullTableSpec
  import opened FullTable

  /** A run that died: the messages it would have written, where its failed attempts would have ended,
      how many messages it did write, and the STATE among those that the next run starts from. */
  datatype Crash = Crash(msgs: seq<Message>, ends: seq<nat>, cut: nat, at: Option<nat>)

  /** What `SyncTable` promises of the messages of one run in RECORD mode. */
  ghost predicate RunOf(scan: Scan, msgs: seq<Message>, ends: seq<nat>) {
    && Delivered(msgs) <= scan.want
    && CheckpointsCover(scan.s, scan.pinned, msgs)
    && RepeatsBounded(msgs, ends)
  }

  /** The messages of `SyncTable` are such a run, and a complete one when it succeeds. */
  lemma SyncTableIsARun(scan: Scan, faults: seq<Fault>, attempts: nat, ok: bool, msgs: seq<Message>, ends: seq<nat>)
    requires scan.auto && 0 < attempts <= |faults|
    requires ScanMeetsItsPromises(scan, Records, faults, attempts, ok, msgs, ends)
    ensures RunOf(scan, msgs, ends)
    ensures ok ==> Delivered(msgs) == scan.want
  {
  }

  ghost predicate Possible(scan: Scan, c: Crash) {
    && RunOf(scan, c.msgs, c.ends)
    && c.cut <= |c.msgs|
    && (c.at.Some? ==> c.at.value < c.cut && c.msgs[c.at.value].StateMessage?)
  }

  /** The rows a run delivered before the STATE it is resumed from. */
  function Kept(c: Crash): seq<Row>
    requires c.at.Some? ==> c.at.value <= |c.msgs|
  {
    if c.at.None? then [] else Delivered(c.msgs[..c.at.value])
  }

  /** The rows it delivered after that: the next run delivers them again. */
  function Repeated(c: Crash): seq<Row>
    requires c.cut <= |c.msgs| && (c.at.Some? ==> c.at.value <= c.cut)
  {
    if c.at.None? then Delivered(c.msgs[..c.cut]) else Delivered(c.msgs[c.at.value..c.cut])
  }

  function Restarted(scan: Scan, c: Crash): Scan
    requires c.at.Some? ==> c.at.value < |c.msgs| && c.msgs[c.at.value].StateMessage?
  {
    if c.at.None? then scan
    else ScanFrom(scan.s, scan.auto, scan.table, Whitelist(c.msgs[c.at.value].state, scan.s.id, BookmarkKeys(scan.s)))
  }

  /** The scan has an ordered key, and its state holds no field that `sync_table` would drop. */
  ghost predicate Keyed(scan: Scan) {
    && scan.Valid() && scan.auto
    && BookmarkOf(scan.start, scan.s.id).Keys <= BookmarkKeys(scan.s)
  }

  /** Runs that died one after the other, and the one that came through. */
  ghost predicate History(scan: Scan, crashes: seq<Crash>, last: seq<Message>, ends: seq<nat>)
    decreases |crashes|
  {
    if crashes == [] then
      RunOf(scan, last, ends) && Delivered(last) == scan.want
    else
      Possible(scan, crashes[0]) && History(Restarted(scan, crashes[0]), crashes[1..], last, ends)
  }

  /** A STATE of a run stands after a prefix of its rows. */
  lemma StateStandsAfter(scan: Scan, msgs: seq<Message>, ends: seq<nat>, m: nat)
    requires RunOf(scan, msgs, ends) && m < |msgs| && msgs[m].StateMessage?
    ensures var n := |Delivered(msgs[..m])|;
            && n <= |scan.want|
            && Delivered(msgs[..m]) == scan.want[..n]
            && msgs[m].state == After(scan.s, scan.pinned, scan.want[..n])
  {
    hide After, Delivered, RepeatsBounded;
    assert CoversAt(scan.s, scan.pinned, msgs, m);
    DeliveredConcat(msgs[..m], msgs[m..]);
    assert msgs == msgs[..m] + msgs[m..];
  }

  /** A restart takes up exactly where the STATE stands. */
  lemma RestartResumes(scan: Scan, c: Crash)
    requires Keyed(scan) && Possible(scan, c)
    ensures Keyed(Restarted(scan, c))
    ensures Kept(c) + Restarted(scan, c).want == scan.want
  {
    if c.at.Some? {
      var n := |Kept(c)|;
      StateStandsAfter(scan, c.msgs, c.ends, c.at.value);
      PinKeepsFields(scan.s, true, scan.table, scan.start);
      AnswerResumes(scan.s, scan.table, scan.pinned, n);
      ScanKeepsKeys(scan, n);
      Rejoined(scan.want, n);
    }
  }

  /** A state of the scan has nothing for the next run to drop. */
  lemma ScanKeepsKeys(scan: Scan, n: nat)
    requires Keyed(scan) && n <= |scan.want|
    ensures var st := After(scan.s, scan.pinned, scan.want[..n]);
            && BookmarkOf(st, scan.s.id).Keys <= BookmarkKeys(scan.s)
            && Whitelist(st, scan.s.id, BookmarkKeys(scan.s)) == st
  {
  }

  function AllKept(crashes: seq<Crash>): seq<Row>
    requires forall c :: c in crashes && c.at.Some? ==> c.at.value <= |c.msgs|
  {
    if crashes == [] then [] else Kept(crashes[0]) + AllKept(crashes[1..])
  }

  lemma {:induction false} HistoriesAreWellFormed(scan: Scan, crashes: seq<Crash>, last: seq<Message>, ends: seq<nat>)
    requires History(scan, crashes, last, ends)
    ensures forall c :: c in crashes ==> c.cut <= |c.msgs| && (c.at.Some? ==> c.at.value < c.cut)
    decreases |crashes|
  {
    if crashes != [] {
      HistoriesAreWellFormed(Restarted(scan, crashes[0]), crashes[1..], last, ends);
    }
  }

  /** Over any number of deaths, what the runs kept and what the last one delivered is the whole
      range, each row once and in key order. */
  lemma {:induction false} CrashesLoseNothing(scan: Scan, crashes: seq<Crash>, last: seq<Message>, ends: seq<nat>)
    requires Keyed(scan) && History(scan, crashes, last, ends)
    ensures forall c :: c in crashes && c.at.Some? ==> c.at.value <= |c.msgs|
    ensures AllKept(crashes) + Delivered(last) == scan.want
    decreases |crashes|
  {
    HistoriesAreWellFormed(scan, crashes, last, ends);
    if crashes != [] {
      RestartResumes(scan, crashes[0]);
      CrashesLoseNothing(Restarted(scan, crashes[0]), crashes[1..], last, ends);
      Associative(Kept(crashes[0]), AllKept(crashes[1..]), Delivered(last));
    }
  }

  /** Where what a run repeats begins. */
  function Since(c: Crash): nat {
    if c.at.None? then 0 else c.at.value + 1
  }

  /** Resumed from its last STATE, a run that died has at most 999 rows repeated for each attempt
      that failed since that STATE, and 1000 for the attempt it died in. */
  lemma CrashRepeatsLittle(scan: Scan, c: Crash)
    requires Possible(scan, c) && CountStates(c.msgs[Since(c)..c.cut]) == 0
    ensures |Repeated(c)| <= EndsBetween(c.ends, Since(c), c.cut) * (STATE_PERIOD - 1) + STATE_PERIOD
  {
    hide EndsBetween, Delivered, CountStates, Tail, LastState, CheckpointsCover;
    assert CutWithin(c.msgs, c.ends, c.cut);
    LastStateIsSince(c);
    if c.at.None? {
      assert c.msgs[0..c.cut] == c.msgs[..c.cut];
      TailWithoutStates(c.msgs[..c.cut]);
    } else {
      TailSinceState(c.msgs, c.at.value, c.cut);
    }
  }

  /** Killed while no attempt has failed since its last STATE, a run repeats at most 1000 rows, however
      many attempts failed before that. */
  lemma CrashAfterStateRepeatsOnePeriod(scan: Scan, c: Crash)
    requires Possible(scan, c) && CountStates(c.msgs[Since(c)..c.cut]) == 0
    requires forall i :: 0 <= i < |c.ends| ==> c.ends[i] <= Since(c) || c.cut <= c.ends[i]
    ensures |Repeated(c)| <= STATE_PERIOD
  {
    CrashRepeatsLittle(scan, c);
    NoEndsBetween(c.ends, Since(c), c.cut);
  }

  lemma {:induction false} NoEndsBetween(ends: seq<nat>, after: nat, before: nat)
    requires forall i :: 0 <= i < |ends| ==> ends[i] <= after || before <= ends[i]
    ensures EndsBetween(ends, after, before) == 0
    decreases |ends|
  {
    if ends != [] { NoEndsBetween(ends[..|ends| - 1], after, before); }
  }

  lemma LastStateIsSince(c: Crash)
    requires c.cut <= |c.msgs| && (c.at.Some? ==> c.at.value < c.cut && c.msgs[c.at.value].StateMessage?)
    requires CountStates(c.msgs[Since(c)..c.cut]) == 0
    ensures LastState(c.msgs[..c.cut]) == Since(c)
  {
    var since := Since(c);
    LastStateConcat(c.msgs[..since], c.msgs[since..c.cut]);
    assert c.msgs[..since] + c.msgs[since..c.cut] == c.msgs[..c.cut];
  }

  lemma TailSinceState(msgs: seq<Message>, i: nat, cut: nat)
    requires i < cut <= |msgs| && msgs[i].StateMessage? && CountStates(msgs[i + 1..cut]) == 0
    ensures Tail(msgs[..cut]) == Delivered(msgs[i..cut])
  {
    var before, after := msgs[..i] + [msgs[i]], msgs[i + 1..cut];
    assert msgs[..cut] == before + after;
    assert msgs[i..cut] == [msgs[i]] + after;
    TailConcat(before, after);
    OneMore(msgs[..i], msgs[i]);
    BatchThenState(ActivateVersion("", 0), msgs[i]);
    DeliveredConcat([msgs[i]], after);
  }

  /** The bound is met: killed after its thousandth record and before the STATE that is due, a run
      repeats a full period. */
  lemma RepeatsReachTheBound(s: Stream, st: State, version: int, rows: seq<Row>)
    requires |rows| == STATE_PERIOD
    ensures var msgs := QueryMessages(s, st, version, Records, rows, false);
            0 < |msgs| && |Tail(msgs[..|msgs| - 1])| == STATE_PERIOD
  {
    hide Progress, Closing, After, InPeriod, Tail, QueryMessages;
    var k := STATE_PERIOD;
    FullPeriodEnds(s, st, version, rows);
    var before, row := Progress(s, st, version, Records, rows, k - 1), Record(s.id, rows[k - 1], version);
    var msgs := QueryMessages(s, st, version, Records, rows, false);
    assert msgs[..|msgs| - 1] == before + [row];
    PeriodsDivide(k - 1, k);
    ProgressTail(s, st, version, Records, rows, k - 1);
    OneMore(before, row);
  }

  lemma FullPeriodEnds(s: Stream, st: State, version: int, rows: seq<Row>)
    requires |rows| == STATE_PERIOD
    ensures var k := STATE_PERIOD;
            QueryMessages(s, st, version, Records, rows, false)
            == Progress(s, st, version, Records, rows, k - 1)
               + [Record(s.id, rows[k - 1], version), StateMessage(After(s, st, rows[..k]))]
  {
    hide Closing, After, InPeriod;
    var k := STATE_PERIOD;
    PeriodsDivide(k, k);
    ClosingShape(s, st, Records, rows);
    assert Progress(s, st, version, Records, rows, k)
        == Progress(s, st, version, Records, rows, k - 1) + RowMessages(s, st, version, Records, rows, k);
  }
}
