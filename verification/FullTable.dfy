/**
 `full_table.sync_table`: up to five attempts at one scan, with the bookmarks of the tap process
 as the only memory between them.
 */
module FullTable {
  import opened Singer
  import opened QuerySpec
  import opened SyncQuery
  import opened FullTableSpec

  const MAX_SYNC_RETRIES := 5

  /** Whether the scan announces its version before the first row. */
  predicate ActivatesFirst(st: State, id: StreamId) {
    && !Truthy(Get(st, id, InitialFullTableComplete))
    && !(Version in BookmarkOf(st, id) && Get(st, id, Version) == Null)
  }

  /** A first scan announces its version before the first row; one of a stream whose scan was completed before, or
      that starts over because its version was set to null, does not. */
  lemma WhatIsAnnouncedFirst(id: StreamId, version: int)
    ensures ActivatesFirst(State(map[], None), id)
    ensures ActivatesFirst(State(map[id := map[Version := Num(version)]], None), id)
    ensures ActivatesFirst(State(map[id := map[InitialFullTableComplete := Flag(false)]], None), id)
    ensures !ActivatesFirst(State(map[id := map[InitialFullTableComplete := Flag(true)]], None), id)
    ensures !ActivatesFirst(State(map[id := map[Version := Null]], None), id)
  {
  }

  /** One attempt: connect, pin the maximum, run the query. */
  method Attempt(tap: Tap, ghost scan: Scan, s: Stream, auto: bool, table: seq<Row>, fault: Fault, version: int,
                 mode: Mode)
    returns (ok: bool, ghost msgs: seq<Message>)
    requires scan.s == s && scan.auto == auto && scan.table == table
    modifies tap, tap.output
    ensures ok <==> fault == NoFault
    ensures tap.output.messages == old(tap.output.messages) + msgs
    ensures Attempted(scan, version, mode, old(tap.state), fault, tap.state, msgs)
  {
    msgs := [];
    if fault == AtConnect {
      return false, [];
    }
    ghost var st := Pin(s, auto, table, tap.state);
    if auto {
      var maxPk := Get(tap.state, s.id, MaxPk);
      if Truthy(maxPk) {
        RewriteKeepsState(tap.state, s.id, MaxPk);
      } else if table != [] {
        maxPk := Key(table[|table| - 1].pk);
      }
      if Truthy(maxPk) {
        tap.state := Write(tap.state, s.id, MaxPk, maxPk);
      }
    }
    assert tap.state == st;
    var rows := Answer(s, auto, table, tap.state);
    var cursor := new Cursor(rows[..Served(fault, |rows|)], fault != NoFault);
    ok := tap.SyncQuery(s, cursor, version, mode);
    msgs := QueryMessages(s, st, version, mode, cursor.rows, fault != NoFault);
  }

  /** What holds of the messages and the state after `attempts` attempts, the last of which
      succeeded if `ok`.  `ends` says after how many messages each failed attempt ended. */
  ghost predicate Scanned(scan: Scan, mode: Mode, faults: seq<Fault>, attempts: nat, ok: bool, st: State,
                          msgs: seq<Message>, ends: seq<nat>)
    requires attempts <= |faults|
  {
    && FaultsSoFar(faults, attempts, ok)
    && scan.Reaches(st, if scan.auto then ReadBefore(faults, |scan.want|, attempts) else 0)
    && KeepsAnchor(scan.s, scan.pinned, msgs)
    && |ends| == (if ok then attempts - 1 else attempts)
    && (mode == Records ==> RepeatsBounded(msgs, ends))
    && (mode == Records && scan.auto ==> EndsMark(scan, faults, msgs, ends))
    && (scan.auto ==> Tallied(scan, mode, faults, attempts, msgs))
    && (scan.auto && ok ==> ReadBefore(faults, |scan.want|, attempts) == |scan.want|)
    && (!scan.auto && ok && mode == Records ==> EndsWith(Delivered(msgs), scan.table))
  }

  /** The ends divide the messages into attempts: by each of them, the rows read by then are out. */
  ghost predicate EndsMark(scan: Scan, faults: seq<Fault>, msgs: seq<Message>, ends: seq<nat>)
    requires |ends| <= |faults|
  {
    forall i :: 0 <= i < |ends| ==> EndMarks(scan, faults, msgs, ends, i)
  }

  predicate EndMarks(scan: Scan, faults: seq<Fault>, msgs: seq<Message>, ends: seq<nat>, i: nat)
    requires i < |ends| <= |faults|
  {
    && ends[i] <= |msgs| && (i > 0 ==> ends[i - 1] <= ends[i])
    && |Delivered(msgs[..ends[i]])| == ReadBefore(faults, |scan.want|, i + 1)
  }

  ghost predicate FaultsSoFar(faults: seq<Fault>, attempts: nat, ok: bool)
    requires attempts <= |faults|
  {
    && (ok ==> attempts > 0)
    && forall i :: 0 <= i < attempts ==> (faults[i] == NoFault <==> ok && i == attempts - 1)
  }

  ghost predicate Tallied(scan: Scan, mode: Mode, faults: seq<Fault>, attempts: nat, msgs: seq<Message>)
    requires attempts <= |faults|
  {
    Accounts(scan.s, scan.pinned, scan.want, msgs, ReadBefore(faults, |scan.want|, attempts),
             LostBefore(mode, faults, |scan.want|, attempts))
  }

  ghost predicate EndsWith(rows: seq<Row>, last: seq<Row>) {
    |last| <= |rows| && rows[|rows| - |last|..] == last
  }

  lemma ScanBegins(s: Stream, auto: bool, table: seq<Row>, start: State, mode: Mode, faults: seq<Fault>)
    requires s.replication != Incremental && (auto ==> Ascending(table))
    ensures var scan := ScanFrom(s, auto, table, start);
            && scan.Valid() && scan.s == s && scan.auto == auto && scan.table == table && scan.start == start
            && Scanned(scan, mode, faults, 0, false, start, [], [])
  {
    hide Scanned, Pin, Answer;
    ScanStarts(ScanFrom(s, auto, table, start), mode, faults);
  }

  lemma ScanStarts(scan: Scan, mode: Mode, faults: seq<Fault>)
    requires scan.Valid()
    ensures Scanned(scan, mode, faults, 0, false, scan.start, [], [])
  {
    assert CutWithin([], [], 0);
  }

  lemma ScanSaysNothing(scan: Scan, mode: Mode, faults: seq<Fault>, attempts: nat, ok: bool, st: State,
                        msgs: seq<Message>, ends: seq<nat>, m: Message)
    requires attempts <= |faults| && Scanned(scan, mode, faults, attempts, ok, st, msgs, ends)
    requires m.ActivateVersion?
    ensures Scanned(scan, mode, faults, attempts, ok, st, msgs + [m], ends)
  {
    hide Accounts, KeepsAnchor, RepeatsBounded, ReadBefore, LostBefore, Delivered, EndsMark, FaultsSoFar;
    var total := |scan.want|;
    OneMore(msgs, m);
    AnchorSilent(scan.s, scan.pinned, msgs, m);
    if mode == Records {
      RepeatsSilent(msgs, ends, m);
      if scan.auto { EndsStay(scan, faults, msgs, ends, [m]); }
    }
    if scan.auto {
      AccountSilent(scan.s, scan.pinned, scan.want, msgs, ReadBefore(faults, total, attempts),
                    LostBefore(mode, faults, total, attempts), m);
    }
    Nothing(Delivered(msgs));
  }

  lemma EndsStay(scan: Scan, faults: seq<Fault>, msgs: seq<Message>, ends: seq<nat>, more: seq<Message>)
    requires |ends| <= |faults| && EndsMark(scan, faults, msgs, ends)
    ensures EndsMark(scan, faults, msgs + more, ends)
  {
    hide Delivered, ReadBefore;
    forall i | 0 <= i < |ends| ensures EndMarks(scan, faults, msgs + more, ends, i) {
      assert EndMarks(scan, faults, msgs, ends, i);
      assert (msgs + more)[..ends[i]] == msgs[..ends[i]];
    }
  }

  /** In RECORD mode the rows read are the rows out, so an attempt that fails leaves its mark. */
  lemma AttemptEnds(scan: Scan, faults: seq<Fault>, attempts: nat, sofar: seq<Message>, ends: seq<nat>,
                    msgs: seq<Message>)
    requires attempts < |faults| && |ends| == attempts && EndsMark(scan, faults, sofar, ends)
    requires Tallied(scan, Records, faults, attempts + 1, sofar + msgs)
    ensures EndsMark(scan, faults, sofar + msgs, ends + [|sofar + msgs|])
  {
    var all, ends' := sofar + msgs, ends + [|sofar + msgs|];
    EndsStay(scan, faults, sofar, ends, msgs);
    RecordsLoseNothing(faults, |scan.want|, attempts + 1);
    TalliedIs(scan, Records, faults, attempts + 1, all);
    hide Delivered, ReadBefore, CheckpointsCover, LostBefore;
    forall i | 0 <= i < |ends'| ensures EndMarks(scan, faults, all, ends', i) {
      if i < attempts {
        assert EndMarks(scan, faults, all, ends, i);
      } else {
        assert all[..|all|] == all;
        if i > 0 { assert EndMarks(scan, faults, sofar, ends, i - 1); }
      }
    }
  }

  lemma AnchorSilent(s: Stream, st: State, msgs: seq<Message>, m: Message)
    requires KeepsAnchor(s, st, msgs) && m.ActivateVersion?
    ensures KeepsAnchor(s, st, msgs + [m])
  {
    assert KeepsAnchor(s, st, [m]);
    AnchorConcat(s, st, msgs, [m]);
  }

  lemma OneMoreAttempt(mode: Mode, faults: seq<Fault>, total: nat, a: nat)
    requires a < |faults|
    ensures ReadBefore(faults, total, a + 1)
         == ReadBefore(faults, total, a) + Served(faults[a], total - ReadBefore(faults, total, a))
    ensures LostBefore(mode, faults, total, a + 1)
         == LostBefore(mode, faults, total, a)
            + LostBy(mode, faults[a], Served(faults[a], total - ReadBefore(faults, total, a)))
  {
  }

  lemma ScanTallies(scan: Scan, version: int, mode: Mode, faults: seq<Fault>, attempts: nat, before: State,
                    sofar: seq<Message>, after: State, msgs: seq<Message>)
    requires scan.Valid() && scan.auto && attempts < |faults|
    requires scan.Reaches(before, ReadBefore(faults, |scan.want|, attempts))
             && Tallied(scan, mode, faults, attempts, sofar)
    requires Attempted(scan, version, mode, before, faults[attempts], after, msgs)
    ensures Tallied(scan, mode, faults, attempts + 1, sofar + msgs)
  {
    hide *;
    var total, fault := |scan.want|, faults[attempts];
    var read, lost := ReadBefore(faults, total, attempts), LostBefore(mode, faults, total, attempts);
    TalliedIs(scan, mode, faults, attempts, sofar);
    AttemptAccounts(scan, version, mode, before, read, lost, fault, after, sofar, msgs);
    OneMoreAttempt(mode, faults, total, attempts);
    TalliedIs(scan, mode, faults, attempts + 1, sofar + msgs);
  }

  lemma TalliedIs(scan: Scan, mode: Mode, faults: seq<Fault>, a: nat, msgs: seq<Message>)
    requires a <= |faults|
    ensures Tallied(scan, mode, faults, a, msgs)
       <==> Accounts(scan.s, scan.pinned, scan.want, msgs, ReadBefore(faults, |scan.want|, a),
                     LostBefore(mode, faults, |scan.want|, a))
  {
  }

  lemma ScanReaches(scan: Scan, version: int, mode: Mode, faults: seq<Fault>, attempts: nat, before: State,
                    sofar: seq<Message>, after: State, msgs: seq<Message>)
    requires scan.Valid() && attempts < |faults|
    requires scan.Reaches(before, if scan.auto then ReadBefore(faults, |scan.want|, attempts) else 0)
    requires KeepsAnchor(scan.s, scan.pinned, sofar)
    requires Attempted(scan, version, mode, before, faults[attempts], after, msgs)
    ensures scan.Reaches(after, if scan.auto then ReadBefore(faults, |scan.want|, attempts + 1) else 0)
    ensures KeepsAnchor(scan.s, scan.pinned, sofar + msgs)
  {
    hide *;
    OneMoreAttempt(mode, faults, |scan.want|, attempts);
    AttemptReaches(scan, version, mode, before, if scan.auto then ReadBefore(faults, |scan.want|, attempts) else 0,
                   faults[attempts], after, msgs);
    AttemptKeepsAnchor(scan, version, mode, before, if scan.auto then ReadBefore(faults, |scan.want|, attempts) else 0,
                       faults[attempts], after, msgs);
    AnchorConcat(scan.s, scan.pinned, sofar, msgs);
  }

  lemma ScanAttempts(scan: Scan, version: int, mode: Mode, faults: seq<Fault>, attempts: nat, before: State,
                     sofar: seq<Message>, ends: seq<nat>, after: State, msgs: seq<Message>)
    requires scan.Valid() && attempts < |faults|
    requires Scanned(scan, mode, faults, attempts, false, before, sofar, ends)
    requires Attempted(scan, version, mode, before, faults[attempts], after, msgs)
    ensures Scanned(scan, mode, faults, attempts + 1, faults[attempts] == NoFault, after, sofar + msgs,
                    EndsAfter(ends, faults[attempts], sofar + msgs))
  {
    hide Attempted, ScanFrom, KeepsAnchor, RepeatsBounded, Accounts, EndsWith, LostBefore, EndsMark, Tallied;
    ScanReaches(scan, version, mode, faults, attempts, before, sofar, after, msgs);
    if mode == Records {
      AttemptRepeats(scan, version, before, faults[attempts], after, sofar, msgs, ends);
    }
    if scan.auto {
      ScanTallies(scan, version, mode, faults, attempts, before, sofar, after, msgs);
      if mode == Records {
        if faults[attempts] == NoFault {
          EndsStay(scan, faults, sofar, ends, msgs);
        } else {
          AttemptEnds(scan, faults, attempts, sofar, ends, msgs);
        }
      }
    } else if faults[attempts] == NoFault && mode == Records {
      WholeTableLast(scan, version, before, after, sofar, msgs);
    }
  }

  function EndsAfter(ends: seq<nat>, fault: Fault, msgs: seq<Message>): seq<nat> {
    if fault == NoFault then ends else ends + [|msgs|]
  }

  lemma WholeTableLast(scan: Scan, version: int, before: State, after: State, sofar: seq<Message>, msgs: seq<Message>)
    requires !scan.auto && Attempted(scan, version, Records, before, NoFault, after, msgs)
    ensures EndsWith(Delivered(sofar + msgs), scan.table)
  {
    QueryDelivers(scan.s, before, version, Records, scan.table, false);
    Rejoined(scan.table, |scan.table|);
    assert scan.table[..|scan.table|] == scan.table;
    DeliveredConcat(sofar, msgs);
  }

  lemma AttemptIsOfVersion(scan: Scan, version: int, mode: Mode, before: State, fault: Fault, after: State,
                           msgs: seq<Message>)
    requires Attempted(scan, version, mode, before, fault, after, msgs)
    ensures OfVersion(scan.s.id, version, mode, msgs)
  {
    if fault != AtConnect {
      var st := Pin(scan.s, scan.auto, scan.table, before);
      var rows := Answer(scan.s, scan.auto, scan.table, st);
      QueryIsOfVersion(scan.s, st, version, mode, rows[..Served(fault, |rows|)], fault != NoFault);
    }
  }

  /** Every row that goes out is a row of the table. */
  ghost predicate FromTable(table: seq<Row>, msgs: seq<Message>) {
    forall r :: r in Delivered(msgs) ==> r in table
  }

  lemma AttemptIsFromTable(scan: Scan, version: int, mode: Mode, before: State, fault: Fault, after: State,
                           sofar: seq<Message>, msgs: seq<Message>)
    requires Attempted(scan, version, mode, before, fault, after, msgs) && FromTable(scan.table, sofar)
    ensures FromTable(scan.table, sofar + msgs)
  {
    hide Answer, Delivered, Pin, QueryMessages, Held, CheckpointsCover;
    DeliveredConcat(sofar, msgs);
    if fault == AtConnect {
      Nothing(sofar);
    } else {
      var st := Pin(scan.s, scan.auto, scan.table, before);
      var rows := Answer(scan.s, scan.auto, scan.table, st);
      QueryDelivers(scan.s, st, version, mode, rows[..Served(fault, |rows|)], fault != NoFault);
      AnswerIsOfTheTable(scan.s, scan.auto, scan.table, st);
      assert forall r :: r in Delivered(msgs) ==> r in rows;
    }
  }

  lemma AnswerIsOfTheTable(s: Stream, auto: bool, table: seq<Row>, st: State)
    ensures forall r :: r in Answer(s, auto, table, st) ==> r in table
  {
    SelectedAreRows(table, Get(st, s.id, LastPk), Get(st, s.id, MaxPk));
  }

  /** The attempt loop.  `sofar` are the messages of the scan before it. */
  method RunAttempts(tap: Tap, ghost scan: Scan, s: Stream, auto: bool, table: seq<Row>, faults: seq<Fault>,
                     version: int, mode: Mode, ghost sofar: seq<Message>)
    returns (ok: bool, attempts: nat, ghost msgs: seq<Message>, ghost ends: seq<nat>)
    requires |faults| == MAX_SYNC_RETRIES
    requires scan.Valid() && scan.s == s && scan.auto == auto && scan.table == table
    requires Scanned(scan, mode, faults, 0, false, tap.state, sofar, [])
    modifies tap, tap.output
    ensures tap.output.messages == old(tap.output.messages) + msgs
    ensures 0 < attempts <= MAX_SYNC_RETRIES && (!ok ==> attempts == MAX_SYNC_RETRIES)
    ensures Scanned(scan, mode, faults, attempts, ok, tap.state, sofar + msgs, ends)
    ensures OfVersion(s.id, version, mode, msgs) && FromTable(table, msgs)
    ensures tap.state == StateAfterAttempts(scan, old(tap.state), faults, attempts)
    ensures msgs == AttemptsMessages(scan, version, mode, old(tap.state), faults, attempts)
  {
    hide ScanFrom, Scanned, Attempted, FromTable, StateAfterAttempts, AttemptsMessages;
    FirstAttempt(scan, version, mode, tap.state, faults);
    NothingYet(table);
    ghost var out0 := tap.output.messages;
    attempts, ok, msgs, ends := 0, false, [], [];
    Nothing(sofar);
    while attempts < MAX_SYNC_RETRIES && !ok
      invariant attempts <= MAX_SYNC_RETRIES && (ok ==> attempts > 0)
      invariant tap.output.messages == out0 + msgs
      invariant Scanned(scan, mode, faults, attempts, ok, tap.state, sofar + msgs, ends)
      invariant OfVersion(s.id, version, mode, msgs) && FromTable(table, msgs)
      invariant tap.state == StateAfterAttempts(scan, old(tap.state), faults, attempts)
      invariant msgs == AttemptsMessages(scan, version, mode, old(tap.state), faults, attempts)
    {
      ghost var before, more := tap.state, [];
      ok, more := Attempt(tap, scan, s, auto, table, faults[attempts], version, mode);
      ScanAttempts(scan, version, mode, faults, attempts, before, sofar + msgs, ends, tap.state, more);
      AttemptIsOfVersion(scan, version, mode, before, faults[attempts], tap.state, more);
      AttemptIsFromTable(scan, version, mode, before, faults[attempts], tap.state, msgs, more);
      NextAttemptAdds(scan, version, mode, old(tap.state), faults, attempts, before, msgs, tap.state, more);
      Associative(out0, msgs, more);
      Associative(sofar, msgs, more);
      msgs := msgs + more;
      ends := EndsAfter(ends, faults[attempts], sofar + msgs);
      attempts := attempts + 1;
    }
  }

  lemma FirstAttempt(scan: Scan, version: int, mode: Mode, st: State, faults: seq<Fault>)
    ensures StateAfterAttempts(scan, st, faults, 0) == st && AttemptsMessages(scan, version, mode, st, faults, 0) == []
  {
  }

  lemma NothingYet(table: seq<Row>)
    ensures FromTable(table, [])
  {
  }

  /** The messages of a scan: those of its attempts, between its announcements. */
  function ScanMessages(scan: Scan, version: int, mode: Mode, faults: seq<Fault>, attempts: nat, ok: bool): seq<Message>
    requires attempts <= |faults|
  {
    var activate := [ActivateVersion(scan.s.id, version)];
    (if ActivatesFirst(scan.start, scan.s.id) then activate else [])
    + AttemptsMessages(scan, version, mode, scan.start, faults, attempts)
    + (if ok then activate else [])
  }

  /** The scan of a table that does not change meanwhile.  `faults` says how each attempt fares.

      With `want` the rows from the bookmark to the pinned maximum, a key-ordered scan delivers
      exactly `want` on success, each row once and in order, if and only if no attempt that failed
      left rows in an open file; a failure of all five leaves a prefix of it.  Every record carries
      the version, which is announced before them on the stream's first scan, and after them on
      success.  `ends` says after how many messages each failed attempt ended. */
  method SyncTable(tap: Tap, s: Stream, auto: bool, table: seq<Row>, faults: seq<Fault>, version: int, mode: Mode)
    returns (ok: bool, attempts: nat, ghost msgs: seq<Message>, ghost ends: seq<nat>)
    requires s.replication != Incremental && (auto ==> Ascending(table)) && |faults| == MAX_SYNC_RETRIES
    modifies tap, tap.output
    ensures tap.output.messages == old(tap.output.messages) + msgs
    ensures 0 < attempts <= MAX_SYNC_RETRIES
    ensures forall i :: 0 <= i < attempts - 1 ==> faults[i] != NoFault
    ensures ok <==> faults[attempts - 1] == NoFault
    ensures !ok ==> attempts == MAX_SYNC_RETRIES
    ensures ok <==> NoFault in faults[..5]
    ensures var start := Whitelist(old(tap.state), s.id, BookmarkKeys(s));
            && Settled(tap.state, s.id) == Settled(start, s.id)
            && (ok ==> tap.state == Settled(start, s.id))
            && ScanMeetsItsPromises(ScanFrom(s, auto, table, start), mode, faults, attempts, ok, msgs, ends)
            && Announced(s.id, version, mode, ActivatesFirst(start, s.id), ok, msgs)
            && FromTable(table, msgs)
            && msgs == ScanMessages(ScanFrom(s, auto, table, start), version, mode, faults, attempts, ok)
  {
    hide ScanFrom, Scanned, Attempted, StateAfterAttempts, AttemptsMessages, ScanMeetsItsPromises, ActivatesFirst,
         Whitelist, Settled, Announced, Ascending, FromTable;
    tap.state := Whitelist(tap.state, s.id, BookmarkKeys(s));
    ghost var start, out0, scan := tap.state, tap.output.messages, ScanFrom(s, auto, table, tap.state);
    var activatesFirst := ActivatesFirst(tap.state, s.id);
    var activate := ActivateVersion(s.id, version);
    ghost var head, body, foot := [], [], [];
    ScanBegins(s, auto, table, start, mode, faults);
    if activatesFirst {
      ScanSaysNothing(scan, mode, faults, 0, false, tap.state, [], [], activate);
      assert [] + [activate] == [activate];
      tap.output.Emit(activate);
      head := [activate];
    }
    ok, attempts, body, ends := RunAttempts(tap, scan, s, auto, table, faults, version, mode, head);
    SettledLikeStart(scan, mode, faults, attempts, ok, tap.state, head + body, ends);
    if ok {
      ScanSaysNothing(scan, mode, faults, attempts, ok, tap.state, head + body, ends, activate);
      ScanEnds(scan, mode, faults, attempts, ok, tap.state, head + body + [activate], ends);
      tap.state := Settled(tap.state, s.id);
      tap.output.Emit(activate);
      foot := [activate];
    } else {
      ScanEnds(scan, mode, faults, attempts, ok, tap.state, head + body, ends);
      Nothing(head + body);
    }
    msgs := head + body + foot;
    ThreeParts(out0, head, body, foot);
    ScanIsAnnounced(s.id, version, mode, activatesFirst, ok, body, msgs);
    AnnouncedFromTable(table, head, body, foot);
    FaultsAre(faults, attempts, ok);
  }

  lemma FaultsAre(faults: seq<Fault>, attempts: nat, ok: bool)
    requires |faults| == 5 && 0 < attempts <= 5 && forall i :: 0 <= i < attempts - 1 ==> faults[i] != NoFault
    requires (ok <==> faults[attempts - 1] == NoFault) && (!ok ==> attempts == 5)
    ensures ok <==> NoFault in faults[..5]
  {
    assert faults[..5][attempts - 1] == faults[attempts - 1];
  }

  /** What a scan leaves of a bookmark, and what a snapshot of a LOG_BASED stream leaves besides: on success
      these fields are as they were, and all others are gone. */
  lemma FinishedScanLeaves(s: Stream, st: State, f: Field)
    requires s.replication != Incremental
    ensures Get(Settled(Whitelist(st, s.id, BookmarkKeys(s)), s.id), s.id, f)
         == match f
            case Version => Get(st, s.id, f)
            case InitialFullTableComplete => Get(st, s.id, f)
            case LogFile => if s.replication == LogBased then Get(st, s.id, f) else Null
            case LogPos => if s.replication == LogBased then Get(st, s.id, f) else Null
            case Gtid => if s.replication == LogBased then Get(st, s.id, f) else Null
            case _ => Null
  {
  }

  /** No other stream's bookmark is touched, neither as a scan begins nor as it ends. */
  lemma ScanLeavesOthersAlone(s: Stream, st: State, id: StreamId)
    requires id != s.id
    ensures BookmarkOf(Settled(Whitelist(st, s.id, BookmarkKeys(s)), s.id), id) == BookmarkOf(st, id)
  {
  }

  lemma ThreeParts(out0: seq<Message>, a: seq<Message>, b: seq<Message>, c: seq<Message>)
    ensures out0 + a + b + c == out0 + (a + b + c) && out0 + a + b + [] == out0 + a + b && out0 + [] + b == out0 + b
  {
  }

  /** How the version is announced. */
  ghost predicate Announced(id: StreamId, version: int, mode: Mode, first: bool, ok: bool, msgs: seq<Message>) {
    && OfVersion(id, version, mode, msgs)
    && (first ==> msgs != [] && msgs[0] == ActivateVersion(id, version))
    && (ok ==> msgs != [] && msgs[|msgs| - 1] == ActivateVersion(id, version))
  }

  lemma ScanIsAnnounced(id: StreamId, version: int, mode: Mode, first: bool, ok: bool, body: seq<Message>,
                        msgs: seq<Message>)
    requires OfVersion(id, version, mode, body)
    requires var activate := ActivateVersion(id, version);
             msgs == (if first then [activate] else []) + body + (if ok then [activate] else [])
    ensures Announced(id, version, mode, first, ok, msgs)
  {
  }

  lemma AnnouncedFromTable(table: seq<Row>, head: seq<Message>, body: seq<Message>, foot: seq<Message>)
    requires FromTable(table, body)
    requires (head == [] || exists id, v :: head == [ActivateVersion(id, v)])
    requires (foot == [] || exists id, v :: foot == [ActivateVersion(id, v)])
    ensures FromTable(table, head + body + foot)
  {
    AnnouncementsCarryNothing(head);
    AnnouncementsCarryNothing(foot);
    DeliveredConcat(head, body);
    DeliveredConcat(head + body, foot);
  }

  lemma AnnouncementsCarryNothing(msgs: seq<Message>)
    requires (msgs == [] || exists id, v :: msgs == [ActivateVersion(id, v)])
    ensures Delivered(msgs) == []
  {
    if msgs != [] {
      OneMore([], msgs[0]);
      assert [] + [msgs[0]] == msgs;
    }
  }

  lemma SettledLikeStart(scan: Scan, mode: Mode, faults: seq<Fault>, attempts: nat, ok: bool, st: State,
                         msgs: seq<Message>, ends: seq<nat>)
    requires attempts <= |faults| && Scanned(scan, mode, faults, attempts, ok, st, msgs, ends)
    ensures Settled(st, scan.s.id) == Settled(scan.start, scan.s.id)
    ensures Settled(Settled(st, scan.s.id), scan.s.id) == Settled(st, scan.s.id)
  {
    SettledTwice(st, scan.s.id);
  }

  lemma ScanEnds(scan: Scan, mode: Mode, faults: seq<Fault>, attempts: nat, ok: bool, st: State, msgs: seq<Message>,
                 ends: seq<nat>)
    requires 0 < attempts <= |faults| && Scanned(scan, mode, faults, attempts, ok, st, msgs, ends)
    ensures ScanMeetsItsPromises(scan, mode, faults, attempts, ok, msgs, ends)
    ensures Settled(st, scan.s.id) == Settled(scan.start, scan.s.id)
    ensures forall i :: 0 <= i < attempts - 1 ==> faults[i] != NoFault
    ensures ok <==> faults[attempts - 1] == NoFault
  {
    RecordsLoseNothing(faults, |scan.want|, attempts);
  }

  lemma SettledTwice(st: State, id: StreamId)
    ensures Settled(Settled(st, id), id) == Settled(st, id)
  {
    var b := BookmarkOf(st, id) - {MaxPk} - {LastPk};
    assert b - {MaxPk} - {LastPk} == b;
    assert Settled(st, id).bookmarks == st.bookmarks[id := b];
  }

  /** What the messages of a whole scan promise. */
  ghost predicate ScanMeetsItsPromises(scan: Scan, mode: Mode, faults: seq<Fault>, attempts: nat, ok: bool,
                                       msgs: seq<Message>, ends: seq<nat>)
    requires 0 < attempts <= |faults|
  {
    var want := scan.want;
    var lost := LostBefore(mode, faults, |want|, attempts);
    // Every STATE keeps the fields the scan started with, and the one pinned maximum.
    && KeepsAnchor(scan.s, scan.pinned, msgs)
    && (scan.auto ==>
          // Success delivers the whole range, once and in order, exactly when no file was lost.
          && (ok ==> (Delivered(msgs) == want <==> lost == 0))
          // Until then it is a prefix, and each STATE speaks of just the rows before it.
          && (lost == 0 ==> Delivered(msgs) <= want && CheckpointsCover(scan.s, scan.pinned, msgs))
          && (mode == Records ==> lost == 0))
    // Without the ordered key each attempt starts over, and the last one reads the whole table.
    && (!scan.auto && ok && mode == Records ==> EndsWith(Delivered(msgs), scan.table))
    // A crash repeats a bounded number of rows; the attempts that count are those since the last STATE.
    && |ends| == (if ok then attempts - 1 else attempts)
    && (mode == Records ==> RepeatsBounded(msgs, ends))
    && (mode == Records && scan.auto ==> EndsMark(scan, faults, msgs, ends))
  }

  /** Two rows in files of two, and a connection that is lost after the first of them: the next attempt
      succeeds, and yet not both rows are delivered. */
  lemma OpenFileIsLost(s: Stream, st: State, msgs: seq<Message>, ends: seq<nat>)
    requires s.replication != Incremental && Get(st, s.id, MaxPk) == Null && Get(st, s.id, LastPk) == Null
    requires var table := [Row(1, None, "a"), Row(2, None, "b")];
             var faults := [AfterRows(1), NoFault, NoFault, NoFault, NoFault];
             ScanMeetsItsPromises(ScanFrom(s, true, table, st), Jsonl(2), faults, 2, true, msgs, ends)
    ensures Delivered(msgs) != [Row(1, None, "a"), Row(2, None, "b")]
  {
    hide KeepsAnchor, CheckpointsCover, RepeatsBounded, EndsMark, Delivered;
    var table, faults := [Row(1, None, "a"), Row(2, None, "b")], [AfterRows(1), NoFault, NoFault, NoFault, NoFault];
    assert table[1..] == [Row(2, None, "b")] && table[1..][1..] == [];
    assert SelectRange(table[1..][1..], Null, Key(2)) == [];
    assert SelectRange(table[1..], Null, Key(2)) == [Row(2, None, "b")];
    assert SelectRange(table, Null, Key(2)) == table;
    assert ReadBefore(faults, 2, 0) == 0 && LostBefore(Jsonl(2), faults, 2, 0) == 0;
    assert LostBefore(Jsonl(2), faults, 2, 1) == LostBy(Jsonl(2), AfterRows(1), 1) == 1;
  }
}
