/**
 The snapshot of a LOG_BASED stream: `do_sync_historical_binlog`, and the test that tells a stream
 that still needs its snapshot from one that is ready for the binlog.
 */
module Historical {
  import opened Singer
  import opened QuerySpec
  import opened SyncQuery
  import opened FullTableSpec
  import opened FullTable

  /** `binlog_stream_requires_historical`. */
  predicate RequiresHistorical(st: State, id: StreamId) {
    !( && ((Truthy(Get(st, id, LogFile)) && Truthy(Get(st, id, LogPos))) || Truthy(Get(st, id, Gtid)))
       && !Truthy(Get(st, id, MaxPk)) && !Truthy(Get(st, id, LastPk)))
  }

  /** The test in `do_sync_historical_binlog` for a snapshot that can be resumed. */
  predicate CanResume(st: State, id: StreamId, useGtid: bool) {
    && Truthy(Get(st, id, MaxPk))
    && ((useGtid && Truthy(Get(st, id, Gtid))) || (Truthy(Get(st, id, LogFile)) && Truthy(Get(st, id, LogPos))))
  }

  /** Where the binlog will be read from, and the version the snapshot's rows carry. */
  datatype Anchor = Anchor(logFile: Value, logPos: Value, gtid: Value, version: Value)

  function AnchorOf(st: State, id: StreamId): Anchor {
    Anchor(Get(st, id, LogFile), Get(st, id, LogPos), Get(st, id, Gtid), Get(st, id, Version))
  }

  datatype Outcome = Finished | ConnectionLost | IsView

  /** The coordinates of the server as the snapshot starts.  No GTID stands for GTID mode off. */
  datatype Coordinates = Coordinates(file: string, pos: int, gtid: Option<string>)

  predicate Usable(at: Coordinates) {
    at.file != "" && at.pos != 0 && at.gtid != Some("")
  }

  lemma SettledAgree(a: State, b: State, id: StreamId, f: Field)
    requires Settled(a, id) == Settled(b, id) && f != MaxPk && f != LastPk
    ensures Get(a, id, f) == Get(b, id, f)
  {
    assert Get(Settled(a, id), id, f) == Get(a, id, f);
    assert Get(Settled(b, id), id, f) == Get(b, id, f);
  }

  lemma SettledSharesAnchor(a: State, b: State, id: StreamId)
    requires Settled(a, id) == Settled(b, id)
    ensures AnchorOf(a, id) == AnchorOf(b, id)
  {
    SettledAgree(a, b, id, LogFile);
    SettledAgree(a, b, id, LogPos);
    SettledAgree(a, b, id, Gtid);
    SettledAgree(a, b, id, Version);
  }

  function WriteCoordinates(st: State, id: StreamId, at: Coordinates): State {
    var st' := Write(Write(st, id, LogFile, Text(at.file)), id, LogPos, Num(at.pos));
    if at.gtid.Some? && at.gtid.value != "" then Write(st', id, Gtid, Text(at.gtid.value)) else st'
  }

  const WITH_COORDINATES: Bookmark := map[LogFile := Text("f"), LogPos := Num(4)]
  const WITH_GTID: Bookmark := map[Gtid := Text("0-1-5")]

  /** Coordinates or a GTID make a stream ready, but not a zero position or an empty name, and not while a field of
      the scan is there, even if the key in it is 0. */
  lemma WhatIsReady(id: StreamId)
    ensures !RequiresHistorical(With(id, WITH_COORDINATES), id) && !RequiresHistorical(With(id, WITH_GTID), id)
    ensures RequiresHistorical(With(id, map[]), id) && RequiresHistorical(With(id, map[LogFile := Text("f")]), id)
    ensures RequiresHistorical(With(id, WITH_COORDINATES[LogPos := Num(0)]), id)
    ensures RequiresHistorical(With(id, WITH_COORDINATES[LogFile := Text("")]), id)
    ensures RequiresHistorical(With(id, WITH_GTID[Gtid := Text("")]), id)
    ensures RequiresHistorical(With(id, WITH_COORDINATES[MaxPk := Key(0)]), id)
    ensures RequiresHistorical(With(id, WITH_GTID[LastPk := Key(0)]), id)
  {
  }

  /** A snapshot goes on from a maximum, with coordinates, or in GTID mode with a GTID. */
  lemma WhatCanResume(id: StreamId, useGtid: bool)
    ensures CanResume(With(id, WITH_COORDINATES[MaxPk := Key(0)]), id, useGtid)
    ensures CanResume(With(id, WITH_GTID[MaxPk := Key(0)]), id, useGtid) <==> useGtid
    ensures !CanResume(With(id, map[MaxPk := Key(9)]), id, useGtid)
    ensures !CanResume(With(id, map[MaxPk := Key(9), LogFile := Text("f")]), id, useGtid)
    ensures !CanResume(With(id, WITH_COORDINATES[LastPk := Key(9)]), id, useGtid)
  {
  }

  function With(id: StreamId, bookmark: Bookmark): State {
    State(map[id := bookmark], None)
  }

  /** The anchor once the coordinates are stored. */
  function Anchored(previous: Anchor, at: Coordinates): Anchor {
    Anchor(Text(at.file), Num(at.pos), if at.gtid.Some? then Text(at.gtid.value) else previous.gtid, previous.version)
  }

  /** Every STATE carries `anchor` and the maximum `max`. */
  ghost predicate Carries(id: StreamId, msgs: seq<Message>, anchor: Anchor, max: Value) {
    forall m :: 0 <= m < |msgs| && msgs[m].StateMessage? ==>
      AnchorOf(msgs[m].state, id) == anchor && Get(msgs[m].state, id, MaxPk) == max
  }

  /** The maximum a scan from `st` works with. */
  function PinnedMax(s: Stream, auto: bool, table: seq<Row>, st: State): Value {
    Get(Pin(s, auto, table, st), s.id, MaxPk)
  }

  /** The rows that a scan from `st` has to deliver. */
  function RowsToScan(s: Stream, auto: bool, table: seq<Row>, st: State): seq<Row> {
    Answer(s, auto, table, Pin(s, auto, table, st))
  }

  /** In RECORD mode a scan that succeeds delivers those rows, once and in order; without the
      ordered key, the last attempt does. */
  ghost predicate DeliversScan(s: Stream, auto: bool, table: seq<Row>, st: State, mode: Mode, msgs: seq<Message>) {
    mode == Records ==>
      if auto then Delivered(msgs) == RowsToScan(s, auto, table, st) else EndsWith(Delivered(msgs), table)
  }

  /** The messages of a whole scan, after some number of attempts. */
  ghost predicate IsScan(scan: Scan, version: int, mode: Mode, faults: seq<Fault>, ok: bool, msgs: seq<Message>) {
    exists attempts :: 0 < attempts <= |faults| && IsScanOf(scan, version, mode, faults, attempts, ok, msgs)
  }

  ghost predicate IsScanOf(scan: Scan, version: int, mode: Mode, faults: seq<Fault>, attempts: nat, ok: bool,
                           msgs: seq<Message>)
    requires attempts <= |faults|
  {
    FaultsSoFar(faults, attempts, ok) && msgs == ScanMessages(scan, version, mode, faults, attempts, ok)
  }

  /** The state a fresh scan starts from: with the ordered key it has its coordinates already. */
  function FreshStart(s: Stream, auto: bool, st: State, version: int, at: Coordinates): State {
    var st' := Write(Write(st, s.id, InitialBinlogComplete, Flag(false)), s.id, Version, Num(version));
    Whitelist(if auto then WriteCoordinates(st', s.id, at) else st', s.id, BookmarkKeys(s))
  }

  function SnapshotStart(s: Stream, auto: bool, st: State, version: int, useGtid: bool, at: Coordinates): State {
    if CanResume(st, s.id, useGtid) then Whitelist(st, s.id, BookmarkKeys(s)) else FreshStart(s, auto, st, version, at)
  }

  /** A run of the snapshot: the state it starts from, its messages and its state in the end. */
  datatype Run = Run(start: State, msgs: seq<Message>, useGtid: bool, max: Value, finished: bool, end: State)

  ghost predicate ResumedRun(id: StreamId, run: Run) {
    && (Truthy(Get(run.start, id, MaxPk)) ==> run.max == Get(run.start, id, MaxPk))
    && (CanResume(run.start, id, run.useGtid) ==>
          && Carries(id, run.msgs, AnchorOf(run.start, id), run.max)
          && AnchorOf(run.end, id) == AnchorOf(run.start, id))
    && (run.finished ==> !RequiresHistorical(run.end, id))
  }

  /** The snapshot, or the rest of it.  `at` and `now` are what the server and the clock say; a
      snapshot that is resumed does not look at them.

      A resumed snapshot never moves its anchor or its maximum.  A fresh one with an ordered key
      stores the coordinates before the first row, so that each of its STATE messages can be
      resumed.  Without the key they are stored once the table has been read, so that a STATE in
      between does not pass for a finished snapshot.  Either way a finished one is ready. */
  method DoSyncHistorical(tap: Tap, s: Stream, columns: set<string>, isView: bool, auto: bool, table: seq<Row>,
                          faults: seq<Fault>, mode: Mode, useGtid: bool, at: Coordinates, now: int)
    returns (outcome: Outcome, ghost scan: seq<Message>)
    requires s.replication == LogBased && (auto ==> Ascending(table)) && |faults| == MAX_SYNC_RETRIES
    requires Usable(at) && (!useGtid ==> at.gtid == None)
    modifies tap, tap.output
    ensures isView <==> outcome == IsView
    ensures isView ==> tap.output.messages == old(tap.output.messages) && tap.state == old(tap.state)
    ensures !isView ==> tap.output.messages == old(tap.output.messages) + [Schema(s.id, columns)] + scan
    // a snapshot that is resumed
    ensures !isView && CanResume(old(tap.state), s.id, useGtid) ==>
              var anchor := AnchorOf(old(tap.state), s.id);
              && Carries(s.id, scan, anchor, PinnedMax(s, auto, table, old(tap.state)))
              && AnchorOf(tap.state, s.id) == anchor
    // a fresh one
    ensures !isView && !CanResume(old(tap.state), s.id, useGtid) ==>
              var previous := AnchorOf(old(tap.state), s.id).(version := Num(StreamVersion(old(tap.state), s.id, now)));
              var current := Anchored(previous, at);
              && Carries(s.id, scan, if auto then current else previous, PinnedMax(s, auto, table, old(tap.state)))
              && AnchorOf(tap.state, s.id) == (if outcome == Finished || auto then current else previous)
    // either way
    ensures !isView ==>
              var version := StreamVersion(old(tap.state), s.id, now);
              var start := SnapshotStart(s, auto, old(tap.state), version, useGtid, at);
              IsScan(ScanFrom(s, auto, table, start), version, mode, faults, outcome == Finished, scan)
    ensures !isView ==> Announced(s.id, StreamVersion(old(tap.state), s.id, now), mode, false, outcome == Finished,
                                  scan)
    ensures outcome == Finished ==> DeliversScan(s, auto, table, old(tap.state), mode, scan)
    ensures outcome == Finished ==> !RequiresHistorical(tap.state, s.id)
    ensures !isView ==> ResumedRun(s.id, Run(old(tap.state), scan, useGtid, PinnedMax(s, auto, table, old(tap.state)),
                                             outcome == Finished, tap.state))
  {
    hide Carries, AnchorOf, PinnedMax, Announced, DeliversScan, RequiresHistorical, CanResume, StreamVersion, IsScan,
         FreshStart;
    PinnedMaxStays(s, auto, table, tap.state);
    scan := [];
    if isView {
      return IsView, [];
    }
    tap.output.Emit(Schema(s.id, columns));
    var version := StreamVersion(tap.state, s.id, now);
    var ok;
    if CanResume(tap.state, s.id, useGtid) {
      ResumedIsReady(tap.state, s.id, useGtid);
      ok, scan := RunScan(tap, s, auto, table, faults, version, mode);
    } else {
      ok, scan := FreshScan(tap, s, auto, table, faults, version, mode, at);
    }
    outcome := if ok then Finished else ConnectionLost;
  }

  lemma PinnedMaxStays(s: Stream, auto: bool, table: seq<Row>, st: State)
    ensures Truthy(Get(st, s.id, MaxPk)) ==> PinnedMax(s, auto, table, st) == Get(st, s.id, MaxPk)
  {
  }

  /** What a snapshot that can be resumed lacks to be ready is the end of its scan. */
  lemma ResumedIsReady(st: State, id: StreamId, useGtid: bool)
    requires CanResume(st, id, useGtid)
    ensures forall after: State ::
              AnchorOf(after, id) == AnchorOf(st, id) && Get(after, id, MaxPk) == Null && Get(after, id, LastPk) == Null
              ==> !RequiresHistorical(after, id)
  {
    forall after: State |
      AnchorOf(after, id) == AnchorOf(st, id) && Get(after, id, MaxPk) == Null && Get(after, id, LastPk) == Null
      ensures !RequiresHistorical(after, id)
    {
      assert AnchorOf(after, id).logFile == AnchorOf(st, id).logFile
             && AnchorOf(after, id).logPos == AnchorOf(st, id).logPos;
      assert AnchorOf(after, id).gtid == AnchorOf(st, id).gtid;
    }
  }

  lemma CoordinatesWritten(st: State, id: StreamId, at: Coordinates)
    requires Usable(at)
    ensures AnchorOf(WriteCoordinates(st, id, at), id) == Anchored(AnchorOf(st, id), at)
    ensures Get(WriteCoordinates(st, id, at), id, MaxPk) == Get(st, id, MaxPk)
    ensures Get(WriteCoordinates(st, id, at), id, LastPk) == Get(st, id, LastPk)
  {
  }

  lemma VersionWritten(st: State, s: Stream, version: int)
    ensures var st' := Write(Write(st, s.id, InitialBinlogComplete, Flag(false)), s.id, Version, Num(version));
            && AnchorOf(st', s.id) == AnchorOf(st, s.id).(version := Num(version))
            && Get(st', s.id, MaxPk) == Get(st, s.id, MaxPk)
  {
  }

  lemma ScanDependsOnTheKeys(s: Stream, auto: bool, table: seq<Row>, a: State, b: State)
    requires Get(a, s.id, MaxPk) == Get(b, s.id, MaxPk) && Get(a, s.id, LastPk) == Get(b, s.id, LastPk)
    ensures PinnedMax(s, auto, table, a) == PinnedMax(s, auto, table, b)
    ensures RowsToScan(s, auto, table, a) == RowsToScan(s, auto, table, b)
  {
  }

  /** The branch for a snapshot that cannot be resumed. */
  method FreshScan(tap: Tap, s: Stream, auto: bool, table: seq<Row>, faults: seq<Fault>, version: int, mode: Mode,
                   at: Coordinates)
    returns (ok: bool, ghost msgs: seq<Message>)
    requires s.replication == LogBased && (auto ==> Ascending(table)) && |faults| == MAX_SYNC_RETRIES
    requires Usable(at)
    modifies tap, tap.output
    ensures tap.output.messages == old(tap.output.messages) + msgs
    ensures var previous := AnchorOf(old(tap.state), s.id).(version := Num(version));
            var current := Anchored(previous, at);
            && Carries(s.id, msgs, if auto then current else previous, PinnedMax(s, auto, table, old(tap.state)))
            && AnchorOf(tap.state, s.id) == (if ok || auto then current else previous)
    ensures Announced(s.id, version, mode, false, ok, msgs)
    ensures ok ==> DeliversScan(s, auto, table, old(tap.state), mode, msgs)
    ensures ok ==> !RequiresHistorical(tap.state, s.id)
    ensures IsScan(ScanFrom(s, auto, table, FreshStart(s, auto, old(tap.state), version, at)), version, mode, faults,
                   ok, msgs)
  {
    hide Carries, Announced, PinnedMax, RowsToScan, RequiresHistorical, AnchorOf, WriteCoordinates, IsScan, Whitelist;
    ghost var st0 := tap.state;
    VersionWritten(tap.state, s, version);
    tap.state := Write(tap.state, s.id, InitialBinlogComplete, Flag(false));
    tap.state := Write(tap.state, s.id, Version, Num(version));
    if auto {
      CoordinatesWritten(tap.state, s.id, at);
      tap.state := WriteCoordinates(tap.state, s.id, at);
      ScanDependsOnTheKeys(s, auto, table, st0, tap.state);
      ok, msgs := RunScan(tap, s, auto, table, faults, version, mode);
    } else {
      ScanDependsOnTheKeys(s, auto, table, st0, tap.state);
      ok, msgs := RunScan(tap, s, auto, table, faults, version, mode);
      if ok {
        CoordinatesWritten(tap.state, s.id, at);
        tap.state := WriteCoordinates(tap.state, s.id, at);
      }
    }
    if ok { AnchoredIsReady(tap.state, s.id); }
  }

  lemma AnchoredIsReady(st: State, id: StreamId)
    requires Truthy(AnchorOf(st, id).logFile) && Truthy(AnchorOf(st, id).logPos)
    requires Get(st, id, MaxPk) == Null && Get(st, id, LastPk) == Null
    ensures !RequiresHistorical(st, id)
  {
  }

  /** `full_table.sync_table`, as far as the anchor is concerned. */
  method RunScan(tap: Tap, s: Stream, auto: bool, table: seq<Row>, faults: seq<Fault>, version: int, mode: Mode)
    returns (ok: bool, ghost msgs: seq<Message>)
    requires s.replication == LogBased && (auto ==> Ascending(table)) && |faults| == MAX_SYNC_RETRIES
    modifies tap, tap.output
    ensures tap.output.messages == old(tap.output.messages) + msgs
    ensures Carries(s.id, msgs, AnchorOf(old(tap.state), s.id), PinnedMax(s, auto, table, old(tap.state)))
    ensures AnchorOf(tap.state, s.id) == AnchorOf(old(tap.state), s.id)
    ensures Announced(s.id, version, mode, false, ok, msgs)
    ensures ok ==> DeliversScan(s, auto, table, old(tap.state), mode, msgs)
    ensures ok ==> Get(tap.state, s.id, MaxPk) == Null && Get(tap.state, s.id, LastPk) == Null
    ensures IsScan(ScanFrom(s, auto, table, Whitelist(old(tap.state), s.id, BookmarkKeys(s))), version, mode, faults,
                   ok, msgs)
  {
    hide Carries, Announced, PinnedMax, AnchorOf, Whitelist, ScanMeetsItsPromises, DeliversScan, Settled, Ascending,
         ScanMessages;
    ghost var start := Whitelist(tap.state, s.id, BookmarkKeys(s));
    WhitelistKeepsTheScan(s, auto, table, tap.state);
    var attempts;
    ghost var ends;
    ok, attempts, msgs, ends := SyncTable(tap, s, auto, table, faults, version, mode);
    SettledSharesAnchor(tap.state, start, s.id);
    ScanCarries(s, auto, table, start, mode, faults, attempts, ok, msgs, ends);
    NotFirst(s.id, version, mode, ActivatesFirst(start, s.id), ok, msgs);
    if ok { SettledHasNoKeys(start, s.id); }
    ItIsAScan(ScanFrom(s, auto, table, start), version, mode, faults, attempts, ok, msgs);
  }

  lemma ItIsAScan(scan: Scan, version: int, mode: Mode, faults: seq<Fault>, attempts: nat, ok: bool, msgs: seq<Message>)
    requires 0 < attempts <= |faults| && (ok <==> faults[attempts - 1] == NoFault)
    requires forall i :: 0 <= i < attempts - 1 ==> faults[i] != NoFault
    requires msgs == ScanMessages(scan, version, mode, faults, attempts, ok)
    ensures IsScan(scan, version, mode, faults, ok, msgs)
  {
    assert IsScanOf(scan, version, mode, faults, attempts, ok, msgs);
  }

  lemma SettledHasNoKeys(st: State, id: StreamId)
    ensures Get(Settled(st, id), id, MaxPk) == Null && Get(Settled(st, id), id, LastPk) == Null
  {
  }

  lemma NotFirst(id: StreamId, version: int, mode: Mode, first: bool, ok: bool, msgs: seq<Message>)
    requires Announced(id, version, mode, first, ok, msgs)
    ensures Announced(id, version, mode, false, ok, msgs)
  {
  }

  lemma WhitelistKeepsTheScan(s: Stream, auto: bool, table: seq<Row>, st: State)
    requires s.replication == LogBased
    ensures var start := Whitelist(st, s.id, BookmarkKeys(s));
            && AnchorOf(start, s.id) == AnchorOf(st, s.id)
            && PinnedMax(s, auto, table, start) == PinnedMax(s, auto, table, st)
            && (forall mode, msgs :: DeliversScan(s, auto, table, start, mode, msgs) ==>
                                       DeliversScan(s, auto, table, st, mode, msgs))
  {
    ScanDependsOnTheKeys(s, auto, table, Whitelist(st, s.id, BookmarkKeys(s)), st);
    hide EndsWith, Delivered, Pin, Answer;
  }

  /** What the promises of a scan say about its anchor and its rows. */
  lemma ScanCarries(s: Stream, auto: bool, table: seq<Row>, start: State, mode: Mode, faults: seq<Fault>,
                    attempts: nat, ok: bool, msgs: seq<Message>, ends: seq<nat>)
    requires s.replication == LogBased && (auto ==> Ascending(table)) && 0 < attempts <= |faults|
    requires ScanMeetsItsPromises(ScanFrom(s, auto, table, start), mode, faults, attempts, ok, msgs, ends)
    ensures Carries(s.id, msgs, AnchorOf(start, s.id), PinnedMax(s, auto, table, start))
    ensures ok ==> DeliversScan(s, auto, table, start, mode, msgs)
  {
    hide AnchorOf, Settled, CheckpointsCover, RepeatsBounded, Answer, LostBefore, Delivered;
    var pinned := Pin(s, auto, table, start);
    PinKeepsFields(s, auto, table, start);
    SettledSharesAnchor(pinned, start, s.id);
    forall m | 0 <= m < |msgs| && msgs[m].StateMessage?
      ensures AnchorOf(msgs[m].state, s.id) == AnchorOf(start, s.id)
      ensures Get(msgs[m].state, s.id, MaxPk) == PinnedMax(s, auto, table, start)
    {
      SettledSharesAnchor(msgs[m].state, pinned, s.id);
    }
  }

  /** While it carries a maximum a stream is not ready, and with coordinates it can be resumed:
      this is how each STATE of a resumed or keyed snapshot reads. */
  lemma CarriedStatesResume(id: StreamId, msgs: seq<Message>, anchor: Anchor, max: Value, m: nat)
    requires Carries(id, msgs, anchor, max) && Truthy(max)
    requires m < |msgs| && msgs[m].StateMessage?
    ensures RequiresHistorical(msgs[m].state, id)
    ensures Truthy(anchor.logFile) && Truthy(anchor.logPos) ==> CanResume(msgs[m].state, id, false)
    ensures Truthy(anchor.gtid) ==> CanResume(msgs[m].state, id, true)
  {
  }

  /** Without coordinates a stream is not ready: so reads each STATE of an unkeyed first snapshot. */
  lemma UnanchoredStatesAreNotReady(id: StreamId, msgs: seq<Message>, anchor: Anchor, max: Value, m: nat)
    requires Carries(id, msgs, anchor, max) && m < |msgs| && msgs[m].StateMessage?
    requires !(Truthy(anchor.logFile) && Truthy(anchor.logPos)) && !Truthy(anchor.gtid)
    ensures RequiresHistorical(msgs[m].state, id)
  {
  }

  /** Each run starts from a STATE of the one before it. */
  ghost predicate Resumptions(id: StreamId, runs: seq<Run>) {
    && (forall i :: 0 <= i < |runs| ==> ResumedRun(id, runs[i]))
    && (forall i :: 0 < i < |runs| ==> StateMessage(runs[i].start) in runs[i - 1].msgs)
    && (forall i :: 0 < i < |runs| ==> runs[i].useGtid == runs[i - 1].useGtid)
  }

  /** Over any number of crashes the snapshot keeps its coordinates, its version and its maximum,
      every STATE in between can be resumed and is not ready, and the end state is ready with
      those same coordinates. */
  lemma {:induction false} AnchorSurvivesCrashes(id: StreamId, runs: seq<Run>, i: nat)
    requires Resumptions(id, runs) && i < |runs|
    requires CanResume(runs[0].start, id, runs[0].useGtid)
    ensures CanResume(runs[i].start, id, runs[i].useGtid)
    ensures Carries(id, runs[i].msgs, AnchorOf(runs[0].start, id), Get(runs[0].start, id, MaxPk))
    ensures forall m :: 0 <= m < |runs[i].msgs| && runs[i].msgs[m].StateMessage? ==>
              RequiresHistorical(runs[i].msgs[m].state, id)
    ensures AnchorOf(runs[i].end, id) == AnchorOf(runs[0].start, id)
    ensures runs[i].finished ==> !RequiresHistorical(runs[i].end, id)
    decreases i
  {
    assert ResumedRun(id, runs[i]);
    if i > 0 {
      AnchorSurvivesCrashes(id, runs, i - 1);
      assert StateMessage(runs[i].start) in runs[i - 1].msgs;
      var m :| 0 <= m < |runs[i - 1].msgs| && runs[i - 1].msgs[m] == StateMessage(runs[i].start);
      assert runs[i - 1].msgs[m].StateMessage?;
    }
  }
}
