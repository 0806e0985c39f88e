/**
 From the first message of a snapshot to the last one of a binlog run.

 A snapshot is any number of attempts, each on the table as it is by then; the binlog run that follows
 begins at the snapshot's coordinates or before.  The source commits throughout.
 */
module EndToEnd {
  import opened Singer
  import opened FileNames
  import opened QuerySpec
  import opened FullTableSpec
  import opened StartPosition
  import opened BinlogSpec
  import opened FullTable
  import opened Historical
  import opened Tables
  import opened Replication
  import opened Refinement
  import L = LogRefinement

  // ----- the attempts of a snapshot -----

  function StateAfter(s: Stream, st: State, tries: seq<Try>): State {
    if tries == [] then st else tries[|tries| - 1].After(s, StateAfter(s, st, tries[..|tries| - 1]))
  }

  function MessagesOf(s: Stream, version: int, st: State, tries: seq<Try>): seq<Message> {
    if tries == [] then []
    else MessagesOf(s, version, st, tries[..|tries| - 1])
         + tries[|tries| - 1].Messages(s, version, StateAfter(s, st, tries[..|tries| - 1]))
  }

  /** Where the source is after the first `n` attempts. */
  function SourceAfter(first: Source, courses: seq<seq<Source>>, n: nat): Source
    requires n <= |courses| && forall i :: 0 <= i < n ==> courses[i] != []
  {
    if n == 0 then first else courses[n - 1][|courses[n - 1]| - 1]
  }

  /** The attempts happen one after the other, the source going on in between; all but the last fail. */
  ghost predicate Happen(s: Stream, st: State, tries: seq<Try>, first: Source, courses: seq<seq<Source>>) {
    && |courses| == |tries| && (forall i :: 0 <= i < |courses| ==> courses[i] != [])
    && forall i :: 0 <= i < |tries| ==> HappensAt(s, st, tries, first, courses, i)
  }

  ghost predicate HappensAt(s: Stream, st: State, tries: seq<Try>, first: Source, courses: seq<seq<Source>>, i: nat)
    requires i < |tries| == |courses| && forall i :: 0 <= i < |courses| ==> courses[i] != []
  {
    && tries[i].Happens(s, StateAfter(s, st, tries[..i]), courses[i])
    && GoesOn(SourceAfter(first, courses, i), courses[i][0])
    && (tries[i].fault == NoFault ==> i == |tries| - 1)
  }

  /** Between attempts: the target has heard the first `n` of them. */
  function Between(s: Stream, w: World, tries: seq<Try>, courses: seq<seq<Source>>, n: nat): World
    requires n <= |tries| == |courses| && forall i :: 0 <= i < |courses| ==> courses[i] != []
  {
    HearAll(w, MessagesOf(s, VersionOf(w.now.state, s.id), w.now.state, tries[..n]))
      .(source := SourceAfter(w.source, courses, n),
        now := Checkpoint(StateAfter(s, w.now.state, tries[..n]), w.now.floor))
  }

  lemma {:induction false} FailuresArePath(s: Stream, w: World, tries: seq<Try>, courses: seq<seq<Source>>, n: nat)
    requires s.replication == LogBased && w.phase == Connecting && n <= |tries|
    requires Happen(s, w.now.state, tries, w.source, courses)
    requires forall i :: 0 <= i < n ==> tries[i].fault != NoFault
    ensures var w' := Between(s, w, tries, courses, n);
            Reaches(s, w, w') && w'.phase == Connecting && VersionOf(w'.now.state, s.id) == VersionOf(w.now.state, s.id)
    decreases n
  {
    hide Reaches, HappensAt, VersionOf;
    if n == 0 {
      assert tries[..0] == [] && HearAll(w, []) == w;
      Stay(s, w);
    } else {
      FailuresArePath(s, w, tries, courses, n - 1);
      NextFailureIsAPath(s, w, tries, courses, n);
    }
  }

  lemma AttemptKeepsFields(s: Stream, st: State, t: Try)
    requires s.replication == LogBased
    ensures Settled(t.After(s, st), s.id) == Settled(st, s.id)
  {
    hide Answer, Settled;
    if t.fault != AtConnect {
      PinKeepsFields(s, true, t.pinned, st);
      ScanKeepsFields(s, t.Start(s, st), t.Rows(s, st));
    }
  }

  lemma AttemptKeepsVersion(s: Stream, st: State, t: Try)
    requires s.replication == LogBased
    ensures VersionOf(t.After(s, st), s.id) == VersionOf(st, s.id)
  {
    hide Settled, Try.After;
    AttemptKeepsFields(s, st, t);
    SettledFields(t.After(s, st), s.id);
    SettledFields(st, s.id);
  }

  /** The world in which attempt `n` begins: the source has gone on since the one before. */
  function Connects(s: Stream, w: World, tries: seq<Try>, courses: seq<seq<Source>>, n: nat): World
    requires n < |tries| == |courses| && forall i :: 0 <= i < |courses| ==> courses[i] != []
  {
    Between(s, w, tries, courses, n).(source := courses[n][0])
  }

  lemma AttemptFollows(s: Stream, w: World, tries: seq<Try>, courses: seq<seq<Source>>, n: nat)
    requires s.replication == LogBased && n < |tries| && Happen(s, w.now.state, tries, w.source, courses)
    requires var before := Between(s, w, tries, courses, n);
             Reaches(s, w, before) && before.phase == Connecting
    ensures var at := Connects(s, w, tries, courses, n);
            Reaches(s, w, Tried(s, at, tries[n], courses[n][|courses[n]| - 1]))
  {
    hide Reaches, Tried, GoesOn, VersionOf, StateAfter, MessagesOf, SourceAfter;
    assert HappensAt(s, w.now.state, tries, w.source, courses, n);
    var before, at := Between(s, w, tries, courses, n), Connects(s, w, tries, courses, n);
    SourceGoesOn(s, w, before, courses[n][0]);
    AttemptIsAPath(s, at, tries[n], courses[n]);
    PathsJoin(s, w, at, Tried(s, at, tries[n], courses[n][|courses[n]| - 1]));
  }

  lemma NextFailureIsAPath(s: Stream, w: World, tries: seq<Try>, courses: seq<seq<Source>>, n: nat)
    requires s.replication == LogBased && 0 < n <= |tries| && Happen(s, w.now.state, tries, w.source, courses)
    requires tries[n - 1].fault != NoFault
    requires var before := Between(s, w, tries, courses, n - 1);
             && Reaches(s, w, before) && before.phase == Connecting
             && VersionOf(before.now.state, s.id) == VersionOf(w.now.state, s.id)
    ensures var w' := Between(s, w, tries, courses, n);
            Reaches(s, w, w') && w'.phase == Connecting && VersionOf(w'.now.state, s.id) == VersionOf(w.now.state, s.id)
  {
    hide Reaches, Between, Connects, Tried, VersionOf, HappensAt;
    AttemptFollows(s, w, tries, courses, n - 1);
    TriedIsBetween(s, w, tries, courses, n);
  }

  lemma TriedIsBetween(s: Stream, w: World, tries: seq<Try>, courses: seq<seq<Source>>, n: nat)
    requires s.replication == LogBased && 0 < n <= |tries| == |courses| && tries[n - 1].fault != NoFault
    requires forall i :: 0 <= i < |courses| ==> courses[i] != []
    requires var before := Between(s, w, tries, courses, n - 1);
             before.phase == Connecting && VersionOf(before.now.state, s.id) == VersionOf(w.now.state, s.id)
    ensures Tried(s, Connects(s, w, tries, courses, n - 1), tries[n - 1], courses[n - 1][|courses[n - 1]| - 1])
         == Between(s, w, tries, courses, n)
    ensures var w' := Between(s, w, tries, courses, n);
            w'.phase == Connecting && VersionOf(w'.now.state, s.id) == VersionOf(w.now.state, s.id)
  {
    hide VersionOf, Try.After, Try.Messages;
    AttemptKeepsVersion(s, StateAfter(s, w.now.state, tries[..n - 1]), tries[n - 1]);
    var version, st := VersionOf(w.now.state, s.id), w.now.state;
    var first := MessagesOf(s, version, st, tries[..n - 1]);
    var more := tries[n - 1].Messages(s, version, StateAfter(s, st, tries[..n - 1]));
    assert tries[..n][..n - 1] == tries[..n - 1];
    HearOn(w, first, StateAfter(s, st, tries[..n - 1]), courses[n - 1][0], more,
           StateAfter(s, st, tries[..n]), SourceAfter(w.source, courses, n));
    HearsAlike(w, w, first);
    HearsAlike(w, w, first + more);
  }

  /** The world once the last attempt has succeeded. */
  function Finished(s: Stream, w: World, tries: seq<Try>, courses: seq<seq<Source>>): World
    requires |tries| == |courses| && forall i :: 0 <= i < |courses| ==> courses[i] != []
  {
    var version := VersionOf(w.now.state, s.id);
    HearAll(w, MessagesOf(s, version, w.now.state, tries) + [ActivateVersion(s.id, version)])
      .(source := SourceAfter(w.source, courses, |tries|), phase := Done,
        now := Checkpoint(Settled(StateAfter(s, w.now.state, tries), s.id), w.now.floor))
  }

  /** All attempts of a snapshot, up to the one that succeeds, are a path of the protocol. */
  lemma AttemptsArePath(s: Stream, w: World, tries: seq<Try>, courses: seq<seq<Source>>)
    requires s.replication == LogBased && w.phase == Connecting && tries != [] && tries[|tries| - 1].fault == NoFault
    requires Happen(s, w.now.state, tries, w.source, courses)
    ensures Reaches(s, w, Finished(s, w, tries, courses))
  {
    hide Reaches, Tried, Between, Connects, VersionOf;
    var n := |tries| - 1;
    forall i | 0 <= i < n ensures tries[i].fault != NoFault {
      assert HappensAt(s, w.now.state, tries, w.source, courses, i);
    }
    FailuresArePath(s, w, tries, courses, n);
    AttemptFollows(s, w, tries, courses, n);
    TriedIsFinished(s, w, tries, courses);
  }

  lemma TriedIsFinished(s: Stream, w: World, tries: seq<Try>, courses: seq<seq<Source>>)
    requires |tries| == |courses| && tries != [] && tries[|tries| - 1].fault == NoFault
    requires forall i :: 0 <= i < |courses| ==> courses[i] != []
    requires var before := Between(s, w, tries, courses, |tries| - 1);
             VersionOf(before.now.state, s.id) == VersionOf(w.now.state, s.id)
    ensures var n := |tries| - 1;
            Tried(s, Connects(s, w, tries, courses, n), tries[n], courses[n][|courses[n]| - 1])
            == Finished(s, w, tries, courses)
  {
    hide VersionOf, Settled;
    var version, st, n := VersionOf(w.now.state, s.id), w.now.state, |tries| - 1;
    var first := MessagesOf(s, version, st, tries[..n]);
    var more := tries[n].Messages(s, version, StateAfter(s, st, tries[..n]));
    var activate := [ActivateVersion(s.id, version)];
    Associative(first, more, activate);
    HearOn(w, first, StateAfter(s, st, tries[..n]), courses[n][0], more + activate,
           Settled(StateAfter(s, st, tries), s.id), SourceAfter(w.source, courses, |tries|));
  }

  // ----- from the first message to the last -----

  /** The messages of a snapshot that goes through in the end. */
  function SnapshotMessages(s: Stream, version: int, st: State, tries: seq<Try>): seq<Message> {
    var activate := [ActivateVersion(s.id, version)];
    (if ActivatesFirst(st, s.id) then activate else []) + (MessagesOf(s, version, st, tries) + activate)
  }

  /** The next process has read the last STATE and begins to read the log. */
  function Resumes(s: Stream, done: World, later: Source, start: Pos): World {
    done.(source := later, saved := {Checkpoint(done.now.state, start)},
          phase := Phase.Replaying(later.Clock(start), later.here),
          now := Checkpoint(Whitelist(done.now.state, s.id, BINLOG_KEYS), start),
          outset := ReadingFrom(done.outset, later.Clock(start)))
  }

  /** A snapshot and the binlog run after it, message by message, while the source commits throughout:
      fed with all their messages the target shows exactly the table as it was at the run's end, if and
      only if what the snapshot found is harmless; a stream without a bookmark always converges. */
  lemma SnapshotAndLogConverge(s: Stream, w: World, clock: int, begun: World, tries: seq<Try>,
                               courses: seq<seq<Source>>, later: Source, start: Pos, decode: L.Decode, run: LoopRun,
                               m: nat)
    requires Starts(s, w) && Does(s, w, BeginFresh(clock), begun)
    requires tries != [] && tries[|tries| - 1].fault == NoFault
             && Happen(s, begun.now.state, tries, begun.source, courses)
    requires GoesOn(SourceAfter(begun.source, courses, |tries|), later) && AtMost(start, begun.now.floor)
    requires var reading := Resumes(s, Finished(s, begun, tries, courses), later, start);
             && L.Mirrors(decode, s.id, run, reading, m) && L.AllArrive(decode, s.id, run, m)
             && BookmarkOf(run.start, s.id) == BookmarkOf(reading.now.state, s.id)
    ensures var scan := SnapshotMessages(s, begun.outset.version, begun.now.state, tries);
            var reading := Resumes(s, Finished(s, begun, tries, courses), later, start);
            var target := L.FeedLogAll(decode, s.id, FeedAll(w.target, scan), run.Messages(m));
            && (ShowsTableAt(later, target, later.here)
                <==> forall k :: Harmless(reading.outset, later, later.Clock(later.here), k))
            && (Blank(w.now.state, s.id) ==> ShowsTableAt(later, target, later.here))
  {
    hide Does, Reaches, Finished, HappensAt, GoesOn, SourceAfter, VersionOf, ActivatesFirst, Activate, L.Mirrors,
         L.AllArrive, Inv, StaysClean, Blank, ShowsTableAt, Harmless, SnapshotMessages, L.FeedLogAll, Clean,
         NeedsFresh, KeysStay, AtMost;
    var done := Finished(s, begun, tries, courses);
    var reading := Resumes(s, done, later, start);
    StartKeepsInv(s, w);
    ReadingIsReached(s, w, clock, begun, tries, courses, later, start);
    ReachesKeepsInv(s, w, reading);
    L.BinlogRunConverges(s, decode, run, reading, m);
    FreshShape(s, w, clock, begun);
    SnapshotIsAPath(s, w, BeginFresh(clock), begun, tries, courses);
    if Blank(w.now.state, s.id) {
      StartIsClean(s, w);
      ReachesStaysClean(s, w, reading);
      CleanWhileReading(reading, s.id);
      CleanIsHarmless(reading.outset, later, later.Clock(later.here));
    }
  }

  lemma CleanWhileReading(w: World, id: StreamId)
    requires StaysClean(w, id) && w.phase.Replaying?
    ensures Clean(w.outset)
  {
  }

  lemma FreshShape(s: Stream, w: World, clock: int, begun: World)
    requires s.replication == LogBased && Starts(s, w) && Does(s, w, BeginFresh(clock), begun)
    ensures begun.phase == Connecting && Begun(begun.now.state, s.id) && begun.source == w.source
    ensures VersionOf(begun.now.state, s.id) == begun.outset.version
    ensures begun.target
         == if ActivatesFirst(begun.now.state, s.id) then Activate(w.target, begun.outset.version) else w.target
  {
    hide FreshState, ActivatesFirst, Activate, RequiresHistorical, CanResume, Begun, PosOf, VersionOf, KeysStay;
    FreshStateIsBegun(s, w.now.state, StreamVersion(w.now.state, s.id, clock), w.source.here);
  }

  /** As a snapshot begins, the target hears its version, or nothing. */
  lemma FinishedHasHeard(s: Stream, w: World, begun: World, tries: seq<Try>, courses: seq<seq<Source>>)
    requires begun.target
             == if ActivatesFirst(begun.now.state, s.id) then Activate(w.target, VersionOf(begun.now.state, s.id))
                             else w.target
    requires |courses| == |tries| && forall i :: 0 <= i < |courses| ==> courses[i] != []
    ensures Finished(s, begun, tries, courses).target
         == FeedAll(w.target, SnapshotMessages(s, VersionOf(begun.now.state, s.id), begun.now.state, tries))
  {
    hide ActivatesFirst, MessagesOf, VersionOf, Settled, StateAfter, Activate;
    var version := VersionOf(begun.now.state, s.id);
    var rest := MessagesOf(s, version, begun.now.state, tries) + [ActivateVersion(s.id, version)];
    HearsAlike(begun, begun, rest);
    if ActivatesFirst(begun.now.state, s.id) {
      var activate := ActivateVersion(s.id, version);
      FeedOneMore(w.target, [], activate);
      assert [] + [activate] == [activate];
      FeedConcat(w.target, [activate], rest);
    } else {
      assert [] + rest == rest;
    }
  }

  /** A whole snapshot, fresh or resumed, is a path of the protocol on which the target hears exactly its
      messages, whatever the source commits meanwhile. */
  lemma SnapshotIsAPath(s: Stream, w: World, step: Step, begun: World, tries: seq<Try>, courses: seq<seq<Source>>)
    requires s.replication == LogBased && Does(s, w, step, begun) && (step.BeginFresh? || step.BeginResumed?)
             && Inv(w, s.id)
    requires tries != [] && tries[|tries| - 1].fault == NoFault
             && Happen(s, begun.now.state, tries, begun.source, courses)
    ensures var done := Finished(s, begun, tries, courses);
            && Reaches(s, w, done)
            && done.target == FeedAll(w.target,
                                      SnapshotMessages(s, VersionOf(begun.now.state, s.id), begun.now.state, tries))
  {
    hide Reaches, HappensAt, Finished, Does, Inv, SnapshotMessages, VersionOf, ActivatesFirst, Activate;
    BeginningShape(s, w, step, begun);
    Stay(s, w);
    OneStep(s, w, w, step, begun);
    AttemptsArePath(s, begun, tries, courses);
    PathsJoin(s, w, begun, Finished(s, begun, tries, courses));
    FinishedHasHeard(s, w, begun, tries, courses);
  }

  lemma BeginningShape(s: Stream, w: World, step: Step, begun: World)
    requires s.replication == LogBased && Does(s, w, step, begun) && (step.BeginFresh? || step.BeginResumed?)
             && Inv(w, s.id)
    ensures begun.phase == Connecting
    ensures begun.target
            == if ActivatesFirst(begun.now.state, s.id) then Activate(w.target, VersionOf(begun.now.state, s.id))
                            else w.target
  {
    hide FreshState, Whitelist, ActivatesFirst, Activate, RequiresHistorical, CanResume, VersionOf, KeysStay,
         AllCovered, OutOfReachIsKept;
  }

  lemma {:induction false} AttemptsKeepFields(s: Stream, st: State, tries: seq<Try>)
    requires s.replication == LogBased
    ensures Settled(StateAfter(s, st, tries), s.id) == Settled(st, s.id)
    decreases |tries|
  {
    hide Settled, Try.After;
    if tries != [] {
      AttemptsKeepFields(s, st, tries[..|tries| - 1]);
      AttemptKeepsFields(s, StateAfter(s, st, tries[..|tries| - 1]), tries[|tries| - 1]);
    }
  }

  /** Then the STATE goes out, and the next process reads it and begins to read the log. */
  lemma ReadingIsReached(s: Stream, w: World, clock: int, begun: World, tries: seq<Try>, courses: seq<seq<Source>>,
                         later: Source, start: Pos)
    requires Starts(s, w) && Does(s, w, BeginFresh(clock), begun)
    requires tries != [] && tries[|tries| - 1].fault == NoFault
             && Happen(s, begun.now.state, tries, begun.source, courses)
    requires GoesOn(SourceAfter(begun.source, courses, |tries|), later) && AtMost(start, begun.now.floor)
    ensures Reaches(s, w, Resumes(s, Finished(s, begun, tries, courses), later, start))
  {
    hide Reaches, HappensAt, GoesOn, SourceAfter, AtMost, Settled, StateAfter, MessagesOf, VersionOf, Begun,
         RequiresHistorical, Starts, Does, Resumes;
    StartsShape(s, w);
    FreshShape(s, w, clock, begun);
    Stay(s, w);
    OneStep(s, w, w, BeginFresh(clock), begun);
    AttemptsArePath(s, begun, tries, courses);
    var done := Finished(s, begun, tries, courses);
    PathsJoin(s, w, begun, done);
    AttemptsKeepFields(s, begun.now.state, tries);
    SettledIsReady(begun.now.state, begun.now.state, s.id);
    DoneIsResumed(s, w, done, later, start);
  }

  lemma DoneIsResumed(s: Stream, w: World, done: World, later: Source, start: Pos)
    requires Reaches(s, w, done) && done.phase == Done && !RequiresHistorical(done.now.state, s.id)
    requires GoesOn(done.source, later) && AtMost(start, done.now.floor)
    ensures Reaches(s, w, Resumes(s, done, later, start))
  {
    hide Reaches, GoesOn, AtMost, RequiresHistorical, Whitelist;
    var w1 := done.(saved := done.saved + {done.now});
    var w2 := w1.(saved := {done.now}, phase := Loaded);
    OneStep(s, w, done, EmitState, w1);
    OneStep(s, w, w1, Restart(done.now), w2);
    SourceGoesOn(s, w, w2, later);
    OneStep(s, w, w2.(source := later), BeginReplay(start), Resumes(s, done, later, start));
  }

  lemma StartsShape(s: Stream, w: World)
    requires Starts(s, w)
    ensures s.replication == LogBased
  {
  }

  // ----- the scan of a table that does not change -----

  /** The attempts of a scan by `FullTable`. */
  function TriesOf(table: seq<Row>, faults: seq<Fault>, n: nat): (tries: seq<Try>)
    requires n <= |faults|
    ensures |tries| == n && forall i :: 0 <= i < n ==> tries[i] == Try(table, table, faults[i])
  {
    if n == 0 then [] else TriesOf(table, faults, n - 1) + [Try(table, table, faults[n - 1])]
  }

  lemma {:induction false} AttemptsAreTries(scan: Scan, version: int, faults: seq<Fault>, n: nat)
    requires scan.auto && n <= |faults|
    ensures var tries := TriesOf(scan.table, faults, n);
            && StateAfterAttempts(scan, scan.start, faults, n) == StateAfter(scan.s, scan.start, tries)
            && AttemptsMessages(scan, version, Records, scan.start, faults, n)
               == MessagesOf(scan.s, version, scan.start, tries)
    decreases n
  {
    if n > 0 {
      AttemptsAreTries(scan, version, faults, n - 1);
      AttemptIsATry(scan, version, StateAfterAttempts(scan, scan.start, faults, n - 1), faults[n - 1],
                    StateAfterAttempts(scan, scan.start, faults, n),
                    AttemptMessages(scan, version, Records, StateAfterAttempts(scan, scan.start, faults, n - 1),
                                    faults[n - 1]));
      assert TriesOf(scan.table, faults, n)[..n - 1] == TriesOf(scan.table, faults, n - 1);
    }
  }

  /** What `DoSyncHistorical` writes when it goes through in RECORD mode with the ordered key is the
      messages of such a snapshot, from the state that `BeginFresh` begins with. */
  lemma HistoricalSyncIsASnapshot(s: Stream, table: seq<Row>, st: State, version: int, at: Pos, faults: seq<Fault>,
                                  msgs: seq<Message>)
    requires !CanResume(st, s.id, false)
    requires IsScan(ScanFrom(s, true, table,
                             SnapshotStart(s, true, st, version, false, Coordinates(at.file, at.offset, None))),
                    version, Records, faults, true, msgs)
    ensures exists n :: 0 < n <= |faults| && faults[n - 1] == NoFault
                        && msgs == SnapshotMessages(s, version, FreshState(s, st, version, at),
                                                    TriesOf(table, faults, n))
  {
    hide StateAfterAttempts, AttemptsMessages, StateAfter, MessagesOf, TriesOf, ActivatesFirst, CanResume, Whitelist;
    var start := FreshState(s, st, version, at);
    var scan := ScanFrom(s, true, table, start);
    var n :| 0 < n <= |faults| && IsScanOf(scan, version, Records, faults, n, true, msgs);
    AttemptsAreTries(scan, version, faults, n);
    var activate := [ActivateVersion(s.id, version)];
    var head := if ActivatesFirst(start, s.id) then activate else [];
    Associative(head, AttemptsMessages(scan, version, Records, start, faults, n), activate);
  }
}
