/**
 The attempts of `full_table.sync_table` are steps of the protocol.

 The table may change at any time: between the query for the maximum and the one for the rows, and
 between any two rows.  The query for the rows reads the table as it was when that query began.
 */
module Refinement {
  import opened Singer
  import opened QuerySpec
  import opened FullTableSpec
  import opened Tables
  import opened Replication

  // ----- paths -----

  ghost predicate Path(s: Stream, worlds: seq<World>, steps: seq<Step>) {
    && |worlds| == |steps| + 1
    && forall i :: 0 <= i < |steps| ==> StepAt(s, worlds, steps, i)
  }

  ghost predicate StepAt(s: Stream, worlds: seq<World>, steps: seq<Step>, i: nat)
    requires i < |steps| && |worlds| == |steps| + 1
  {
    Does(s, worlds[i], steps[i], worlds[i + 1])
  }

  ghost predicate PathBetween(s: Stream, w: World, worlds: seq<World>, steps: seq<Step>, w': World) {
    Path(s, worlds, steps) && worlds[0] == w && worlds[|worlds| - 1] == w'
  }

  /** Some steps of the protocol lead from one world to the other. */
  ghost predicate Reaches(s: Stream, w: World, w': World) {
    exists worlds, steps :: PathBetween(s, w, worlds, steps, w')
  }

  lemma Stay(s: Stream, w: World)
    ensures Reaches(s, w, w)
  {
    assert PathBetween(s, w, [w], [], w);
  }

  lemma OneStep(s: Stream, start: World, w: World, step: Step, w': World)
    requires Reaches(s, start, w) && Does(s, w, step, w')
    ensures Reaches(s, start, w')
  {
    hide Does;
    var worlds, steps :| PathBetween(s, start, worlds, steps, w);
    var worlds', steps' := worlds + [w'], steps + [step];
    forall i | 0 <= i < |steps'| ensures StepAt(s, worlds', steps', i) {
      if i < |steps| { assert StepAt(s, worlds, steps, i); }
    }
    assert PathBetween(s, start, worlds', steps', w');
  }

  lemma PathsJoin(s: Stream, a: World, b: World, c: World)
    requires Reaches(s, a, b) && Reaches(s, b, c)
    ensures Reaches(s, a, c)
  {
    hide Does;
    var worlds, steps :| PathBetween(s, b, worlds, steps, c);
    PathGoesOn(s, a, worlds, steps);
  }

  lemma {:induction false} PathGoesOn(s: Stream, a: World, worlds: seq<World>, steps: seq<Step>)
    requires Path(s, worlds, steps) && Reaches(s, a, worlds[0])
    ensures Reaches(s, a, worlds[|worlds| - 1])
    decreases |steps|
  {
    hide Does, Reaches;
    if steps != [] {
      var n := |steps| - 1;
      var front, before := worlds[..n + 1], steps[..n];
      forall i | 0 <= i < n ensures StepAt(s, front, before, i) {
        assert StepAt(s, worlds, steps, i);
      }
      PathGoesOn(s, a, front, before);
      assert StepAt(s, worlds, steps, n);
      OneStep(s, a, worlds[n], steps[n], worlds[n + 1]);
    }
  }

  /** A history goes on along a path. */
  lemma {:induction false} PathsKeepInv(s: Stream, worlds: seq<World>, steps: seq<Step>)
    requires s.replication == LogBased && Path(s, worlds, steps) && Inv(worlds[0], s.id)
    ensures Inv(worlds[|worlds| - 1], s.id)
    decreases |steps|
  {
    hide Inv, Does;
    if steps != [] {
      assert StepAt(s, worlds, steps, 0);
      StepKeepsInv(s, worlds[0], steps[0], worlds[1]);
      forall i | 0 <= i < |steps[1..]| ensures StepAt(s, worlds[1..], steps[1..], i) {
        assert StepAt(s, worlds, steps, i + 1);
      }
      PathsKeepInv(s, worlds[1..], steps[1..]);
    }
  }

  lemma ReachesKeepsInv(s: Stream, w: World, w': World)
    requires s.replication == LogBased && Reaches(s, w, w') && Inv(w, s.id)
    ensures Inv(w', s.id)
  {
    hide Inv, Does;
    var worlds, steps :| PathBetween(s, w, worlds, steps, w');
    PathsKeepInv(s, worlds, steps);
  }

  lemma {:induction false} PathsStayClean(s: Stream, worlds: seq<World>, steps: seq<Step>)
    requires s.replication == LogBased && Path(s, worlds, steps) && Inv(worlds[0], s.id) && StaysClean(worlds[0], s.id)
    ensures StaysClean(worlds[|worlds| - 1], s.id)
    decreases |steps|
  {
    hide Inv, Does, StaysClean;
    if steps != [] {
      assert StepAt(s, worlds, steps, 0);
      StepKeepsInv(s, worlds[0], steps[0], worlds[1]);
      StepStaysClean(s, worlds[0], steps[0], worlds[1]);
      forall i | 0 <= i < |steps[1..]| ensures StepAt(s, worlds[1..], steps[1..], i) {
        assert StepAt(s, worlds, steps, i + 1);
      }
      PathsStayClean(s, worlds[1..], steps[1..]);
    }
  }

  lemma ReachesStaysClean(s: Stream, w: World, w': World)
    requires s.replication == LogBased && Reaches(s, w, w') && Inv(w, s.id) && StaysClean(w, s.id)
    ensures StaysClean(w', s.id)
  {
    hide Inv, Does, StaysClean;
    var worlds, steps :| PathBetween(s, w, worlds, steps, w');
    PathsStayClean(s, worlds, steps);
  }

  // ----- a source that goes on meanwhile -----

  ghost predicate GoesOn(before: Source, after: Source) {
    before == after || exists entries :: Commits(before, entries, after)
  }

  /** What becomes of the source, time after time. */
  ghost predicate Course(sources: seq<Source>) {
    forall i :: 0 < i < |sources| ==> GoesOnAt(sources, i)
  }

  ghost predicate GoesOnAt(sources: seq<Source>, i: nat)
    requires 0 < i < |sources|
  {
    GoesOn(sources[i - 1], sources[i])
  }

  lemma SourceGoesOn(s: Stream, start: World, w: World, after: Source)
    requires Reaches(s, start, w) && GoesOn(w.source, after)
    ensures Reaches(s, start, w.(source := after))
  {
    hide Reaches, Commits;
    if w.source != after {
      var entries :| Commits(w.source, entries, after);
      OneStep(s, start, w, Commit(entries, after), w.(source := after));
    }
  }

  // ----- messages -----

  /** The target takes a message in; a STATE becomes one that a restart may use. */
  function Hear(w: World, m: Message): World {
    match m
    case ActivateVersion(_, version) => Announce(w, version)
    case StateMessage(state) => w.(saved := w.saved + {Checkpoint(state, w.now.floor)})
    case _ => w.(target := Feed(w.target, m))
  }

  function HearAll(w: World, msgs: seq<Message>): World {
    if msgs == [] then w else Hear(HearAll(w, msgs[..|msgs| - 1]), msgs[|msgs| - 1])
  }

  lemma HearOneMore(w: World, msgs: seq<Message>, m: Message)
    ensures HearAll(w, msgs + [m]) == Hear(HearAll(w, msgs), m)
  {
    assert (msgs + [m])[..|msgs|] == msgs;
  }

  /** The world as another one has heard it. */
  function Hearing(w: World, heard: World): World {
    w.(target := heard.target, saved := heard.saved, outset := heard.outset)
  }

  /** Hearing is the target's alone: it depends on nothing else, and leaves all else as it was. */
  lemma {:induction false} HearsAlike(a: World, b: World, msgs: seq<Message>)
    requires Hearing(a, b) == a && a.now.floor == b.now.floor
    ensures HearAll(a, msgs) == Hearing(a, HearAll(b, msgs)) && HearAll(b, msgs) == Hearing(b, HearAll(b, msgs))
    ensures HearAll(a, msgs).target == FeedAll(a.target, msgs)
    decreases |msgs|
  {
    if msgs != [] { HearsAlike(a, b, msgs[..|msgs| - 1]); }
  }

  lemma {:induction false} HearConcat(w: World, a: seq<Message>, b: seq<Message>)
    ensures HearAll(w, a + b) == HearAll(HearAll(w, a), b)
    decreases |b|
  {
    if b == [] {
      assert a + b == a;
    } else {
      HearConcat(w, a, b[..|b| - 1]);
      assert (a + b)[..|a + b| - 1] == a + b[..|b| - 1];
    }
  }

  // ----- the rows of a query -----

  lemma {:induction false} SelectedAscend(table: seq<Row>, last: Value, max: Value)
    requires Ascending(table)
    ensures Ascending(SelectRange(table, last, max))
  {
    if table != [] {
      SelectedAscend(table[1..], last, max);
      SelectedAreRows(table[1..], last, max);
      var rest := SelectRange(table[1..], last, max);
      forall i | 0 <= i < |rest| ensures table[0].pk < rest[i].pk {
        assert rest[i] in rest;
      }
    }
  }

  /** The table as the query began. */
  ghost predicate Reads(source: Source, t: nat, table: seq<Row>)
    requires t <= |source.log|
  {
    Ascending(table) && TableAt(source, t, table)
  }

  /** A query is under way, with these rows still to come.  Without a maximum it asks for the whole table. */
  ghost predicate Under(s: Stream, w: World, table: seq<Row>, rows: seq<Row>) {
    && s.replication == LogBased && w.phase.Reading? && w.phase.since <= |w.source.log|
    && Reads(w.source, w.phase.since, table)
    && if Truthy(Get(w.now.state, s.id, MaxPk)) then rows == Answer(s, true, table, w.now.state)
       else forall r :: r in rows ==> r in table
  }

  lemma UnderGoesOn(s: Stream, w: World, table: seq<Row>, rows: seq<Row>, after: Source)
    requires Under(s, w, table, rows) && GoesOn(w.source, after)
    ensures Under(s, w.(source := after), table, rows)
  {
    hide Ascending, Distinct, Answer;
    if w.source != after {
      var entries :| Commits(w.source, entries, after);
      assert |w.source.log| <= |after.log|;
      forall k ensures after.Value(w.phase.since, k) == RowOf(table, k) {
        CommitKeepsValues(w.source, entries, after, w.phase.since, k);
      }
    }
  }

  lemma NoRowNoKey(source: Source, t: nat, table: seq<Row>, k: int)
    requires t <= |source.log| && TableAt(source, t, table) && (forall r :: r in table ==> r.pk != k)
    ensures Absent(source, k, t, |source.log|)
  {
    RowOfNone(table, k);
    assert source.Value(t, k) == None;
  }

  lemma FirstIsLeast(rows: seq<Row>, r: Row)
    requires Ascending(rows) && r in rows
    ensures rows[0].pk <= r.pk
  {
    var i :| 0 <= i < |rows| && rows[i] == r;
  }

  /** What the query passes over on its way to its first row is not there; with no row, nothing is. */
  lemma PassedOver(s: Stream, w: World, table: seq<Row>, rows: seq<Row>, k: int)
    requires Under(s, w, table, rows) && (rows == [] || k < rows[0].pk)
    ensures Skipped(w, s.id, k, w.phase.since)
  {
    hide TableAt;
    var last, max := Get(w.now.state, s.id, LastPk), Get(w.now.state, s.id, MaxPk);
    if ToRead(w.now.state, s.id, k, true) {
      SelectedAreRows(table, last, max);
      SelectedAscend(table, last, max);
      forall r | r in table ensures r.pk != k {
        if r in rows { FirstIsLeast(rows, r); }
      }
      NoRowNoKey(w.source, w.phase.since, table, k);
    }
  }

  /** The next rows of the query after one of them is out. */
  lemma RestIsUnder(s: Stream, w: World, table: seq<Row>, rows: seq<Row>)
    requires Under(s, w, table, rows) && rows != []
    ensures Under(s, w.(now := w.now.(state := Advance(s, w.now.state, rows[0]))), table, rows[1..])
  {
    hide TableAt;
    var st := w.now.state;
    AdvanceFields(s, st, rows[0]);
    if Truthy(Get(st, s.id, MaxPk)) {
      AnswerResumes(s, table, st, 1);
      assert rows[..1][0] == rows[0];
    }
  }

  /** The first row of the query can be read, and the query goes on with the others. */
  lemma FirstRowIsAStep(s: Stream, w: World, table: seq<Row>, rows: seq<Row>, w': World)
    requires Under(s, w, table, rows) && rows != []
    requires w' == w.(now := w.now.(state := Advance(s, w.now.state, rows[0])),
                      target := Upsert(w.target, rows[0], VersionOf(w.now.state, s.id), false))
    ensures Does(s, w, ReadRow(rows[0], w.phase.since), w')
    ensures Under(s, w', table, rows[1..])
    ensures VersionOf(w'.now.state, s.id) == VersionOf(w.now.state, s.id)
  {
    var st, first := w.now.state, rows[0];
    SelectedAreRows(table, Get(st, s.id, LastPk), Get(st, s.id, MaxPk));
    assert first in rows;
    RowOfIs(table, first);
    forall k | k < first.pk ensures Skipped(w, s.id, k, w.phase.since) {
      PassedOver(s, w, table, rows, k);
    }
    AdvanceFields(s, st, first);
    RestIsUnder(s, w, table, rows);
  }

  /** The messages of a row are steps, and so is what the source does then. */
  lemma RowIsSteps(s: Stream, start: World, w: World, table: seq<Row>, rows: seq<Row>, msgs: seq<Message>,
                   after: Source, w': World)
    requires Reaches(s, start, w) && Under(s, w, table, rows) && rows != [] && GoesOn(w.source, after)
    requires var record := Record(s.id, rows[0], VersionOf(w.now.state, s.id));
             var state := StateMessage(Advance(s, w.now.state, rows[0]));
             msgs == [record] || msgs == [record, state]
    requires w' == HearAll(w, msgs).(now := w.now.(state := Advance(s, w.now.state, rows[0])), source := after)
    ensures Reaches(s, start, w') && Under(s, w', table, rows[1..])
    ensures VersionOf(w'.now.state, s.id) == VersionOf(w.now.state, s.id)
  {
    hide Does, Under, Reaches, Advance, Upsert, GoesOn, VersionOf, HearAll;
    var st' := Advance(s, w.now.state, rows[0]);
    var w1 := w.(now := w.now.(state := st'), target := Upsert(w.target, rows[0], VersionOf(w.now.state, s.id), false));
    FirstRowIsAStep(s, w, table, rows, w1);
    HearAllOfNothing(w);
    OneStep(s, start, w, ReadRow(rows[0], w.phase.since), w1);
    HearOneMore(w, [], msgs[0]);
    assert [] + [msgs[0]] == [msgs[0]];
    var w2 := w1;
    if |msgs| > 1 {
      HearOneMore(w, [msgs[0]], msgs[1]);
      assert [msgs[0]] + [msgs[1]] == msgs;
      w2 := w1.(saved := w1.saved + {w1.now});
      StateIsAStep(s, start, w1, table, rows[1..], w2);
    }
    assert w' == w2.(source := after);
    SourceGoesOn(s, start, w2, after);
    UnderGoesOn(s, w2, table, rows[1..], after);
  }

  lemma HearAllOfNothing(w: World)
    ensures HearAll(w, []) == w
  {
  }

  lemma StateIsAStep(s: Stream, start: World, w: World, table: seq<Row>, rows: seq<Row>, w': World)
    requires Reaches(s, start, w) && Under(s, w, table, rows) && w' == w.(saved := w.saved + {w.now})
    ensures Reaches(s, start, w') && Under(s, w', table, rows)
  {
    assert Does(s, w, EmitState, w');
    OneStep(s, start, w, EmitState, w');
  }

  /** The world once the query has sent out its first `k` rows, with the source as it is then. */
  function WorldAfter(s: Stream, w: World, version: int, rows: seq<Row>, k: nat, source: Source): World
    requires k <= |rows|
  {
    HearAll(w, Progress(s, w.now.state, version, Records, rows, k))
      .(now := Checkpoint(After(s, w.now.state, rows[..k]), w.now.floor), source := source)
  }

  /** Hearing more after the process and the source have moved on. */
  lemma HearOn(w: World, first: seq<Message>, st: State, source: Source, more: seq<Message>, st': State,
               source': Source)
    ensures HearAll(HearAll(w, first).(now := Checkpoint(st, w.now.floor), source := source), more)
              .(now := Checkpoint(st', w.now.floor), source := source')
         == HearAll(w, first + more).(now := Checkpoint(st', w.now.floor), source := source')
  {
    var heard := HearAll(w, first);
    HearsAlike(w, w, first);
    HearsAlike(heard.(now := Checkpoint(st, w.now.floor), source := source), heard, more);
    HearsAlike(heard, heard, more);
    HearConcat(w, first, more);
  }

  /** Row by row, while the source goes through `course`. */
  lemma {:induction false} RowsAreSteps(s: Stream, start: World, w: World, table: seq<Row>, rows: seq<Row>, k: nat,
                                        course: seq<Source>)
    requires Reaches(s, start, w) && Under(s, w, table, rows) && k <= |rows|
    requires k < |course| && Course(course) && course[0] == w.source
    ensures var version := VersionOf(w.now.state, s.id);
            var w' := WorldAfter(s, w, version, rows, k, course[k]);
            && Reaches(s, start, w') && Under(s, w', table, rows[k..]) && VersionOf(w'.now.state, s.id) == version
    decreases k
  {
    hide Reaches, Under, WorldAfter, VersionOf, GoesOn;
    if k == 0 {
      NoRows(s, w, rows);
    } else {
      RowsAreSteps(s, start, w, table, rows, k - 1, course);
      assert GoesOnAt(course, k);
      NextRowIsSteps(s, start, w, table, rows, k, course[k - 1], course[k]);
    }
  }

  lemma NoRows(s: Stream, w: World, rows: seq<Row>)
    ensures WorldAfter(s, w, VersionOf(w.now.state, s.id), rows, 0, w.source) == w && rows[0..] == rows
  {
    assert Progress(s, w.now.state, VersionOf(w.now.state, s.id), Records, rows, 0) == [];
  }

  lemma NextRowIsSteps(s: Stream, start: World, w: World, table: seq<Row>, rows: seq<Row>, k: nat, source: Source,
                       source': Source)
    requires 0 < k <= |rows| && GoesOn(source, source')
    requires var version := VersionOf(w.now.state, s.id);
             var before := WorldAfter(s, w, version, rows, k - 1, source);
             && Reaches(s, start, before) && Under(s, before, table, rows[k - 1..])
             && VersionOf(before.now.state, s.id) == version
    ensures var version := VersionOf(w.now.state, s.id);
            var w' := WorldAfter(s, w, version, rows, k, source');
            && Reaches(s, start, w') && Under(s, w', table, rows[k..]) && VersionOf(w'.now.state, s.id) == version
  {
    hide Reaches, Under, After, Advance, VersionOf, HearAll, InPeriod, Progress, GoesOn;
    var st, version := w.now.state, VersionOf(w.now.state, s.id);
    var before := WorldAfter(s, w, version, rows, k - 1, source);
    var w' := WorldAfter(s, w, version, rows, k, source');
    var msgs := RowMessages(s, st, version, Records, rows, k);
    AfterStep(s, st, rows, k - 1);
    HearOn(w, Progress(s, st, version, Records, rows, k - 1), before.now.state, source, msgs, w'.now.state, source');
    OneRowFurther(s, st, version, rows, k);
    assert rows[k - 1..][0] == rows[k - 1] && rows[k - 1..][1..] == rows[k..];
    RowIsSteps(s, start, before, table, rows[k - 1..], msgs, source', w');
  }

  lemma OneRowFurther(s: Stream, st: State, version: int, rows: seq<Row>, k: nat)
    requires 0 < k <= |rows|
    ensures Progress(s, st, version, Records, rows, k)
         == Progress(s, st, version, Records, rows, k - 1) + RowMessages(s, st, version, Records, rows, k)
    ensures var msgs := RowMessages(s, st, version, Records, rows, k);
            var record, state := Record(s.id, rows[k - 1], version), StateMessage(After(s, st, rows[..k]));
            msgs == [record] || msgs == [record, state]
  {
    hide After;
  }

  // ----- attempts -----

  /** A query that is cut short has sent out what the whole one had by then. */
  lemma {:induction false} ProgressOfPrefix(s: Stream, st: State, version: int, rows: seq<Row>, n: nat, k: nat)
    requires k <= n <= |rows|
    ensures Progress(s, st, version, Records, rows[..n], k) == Progress(s, st, version, Records, rows, k)
    decreases k
  {
    hide After, InPeriod;
    if k > 0 {
      ProgressOfPrefix(s, st, version, rows, n, k - 1);
      assert rows[..n][..k] == rows[..k];
    } else {
      assert Progress(s, st, version, Records, rows[..n], 0) == [];
      assert Progress(s, st, version, Records, rows, 0) == [];
    }
  }

  function LargestKey(table: seq<Row>): Option<int> {
    if table == [] then None else Some(table[|table| - 1].pk)
  }

  /** Pinning the maximum is a step, and so is the query that follows, later on. */
  lemma ConnectingIsSteps(s: Stream, w: World, pinned: seq<Row>, table: seq<Row>, later: Source, w': World)
    requires s.replication == LogBased && w.phase == Connecting && GoesOn(w.source, later)
    requires Reads(w.source, |w.source.log|, pinned) && Reads(later, |later.log|, table)
    requires w' == w.(source := later, phase := Phase.Reading(|later.log|),
                      now := Checkpoint(Pin(s, true, pinned, w.now.state), w.now.floor))
    ensures Reaches(s, w, w') && Under(s, w', table, Answer(s, true, table, w'.now.state))
    ensures VersionOf(w'.now.state, s.id) == VersionOf(w.now.state, s.id)
  {
    hide IsMax, PinnedState, Pin, Reaches, Reads, GoesOn, Answer;
    var max := LargestKey(pinned);
    var w1 := w.(phase := Connected, now := w'.now);
    MaxIsLargest(w.source, pinned);
    PinIsPinned(s, pinned, w.now.state);
    PinnedFields(s.id, w.now.state, max);
    AllOfTheTable(s, table, w'.now.state);
    Stay(s, w);
    OneStep(s, w, w, PinMax(max), w1);
    SourceGoesOn(s, w, w1, later);
    OneStep(s, w, w1.(source := later), Query, w');
  }

  lemma PinIsPinned(s: Stream, table: seq<Row>, st: State)
    ensures Pin(s, true, table, st) == PinnedState(s.id, st, LargestKey(table))
  {
  }

  lemma AllOfTheTable(s: Stream, table: seq<Row>, st: State)
    ensures !Truthy(Get(st, s.id, MaxPk)) ==> Answer(s, true, table, st) == table
  {
  }

  lemma MaxIsLargest(source: Source, table: seq<Row>)
    requires Reads(source, |source.log|, table)
    ensures IsMax(source, LargestKey(table))
  {
    var n := |source.log|;
    if table != [] {
      var last := table[|table| - 1];
      RowOfIs(table, last);
      assert source.Value(n, last.pk) == Some(last);
    }
    forall k | LargestKey(table) == None || LargestKey(table).value < k ensures source.Value(n, k) == None {
      RowOfNone(table, k);
    }
  }

  /** The whole table has been read: the snapshot may finish. */
  lemma FinishIsAStep(s: Stream, start: World, w: World, table: seq<Row>, w': World)
    requires Reaches(s, start, w) && Under(s, w, table, [])
    requires w' == Hear(w, ActivateVersion(s.id, VersionOf(w.now.state, s.id)))
                   .(phase := Done, now := Checkpoint(Settled(w.now.state, s.id), w.now.floor))
    ensures Reaches(s, start, w')
  {
    hide Reaches;
    forall k ensures Skipped(w, s.id, k, w.phase.since) {
      PassedOver(s, w, table, [], k);
    }
    OneStep(s, start, w, FinishSnapshot, w');
  }

  // ----- attempts -----

  /** An attempt: what the query for the maximum found, what the one for the rows found, and how it fared. */
  datatype Try = Try(pinned: seq<Row>, table: seq<Row>, fault: Fault) {

    /** The state that the query for the rows goes by. */
    function Start(s: Stream, st: State): State {
      Pin(s, true, pinned, st)
    }

    /** The rows it reads. */
    function Rows(s: Stream, st: State): seq<Row> {
      var rows := Answer(s, true, table, Start(s, st));
      rows[..Served(fault, |rows|)]
    }

    function After(s: Stream, st: State): State {
      if fault == AtConnect then st else QuerySpec.After(s, Start(s, st), Rows(s, st))
    }

    function Messages(s: Stream, version: int, st: State): seq<Message> {
      if fault == AtConnect then [] else QueryMessages(s, Start(s, st), version, Records, Rows(s, st), fault != NoFault)
    }

    /** The tables are as the source had them: at its first time, and at its second. */
    ghost predicate Happens(s: Stream, st: State, course: seq<Source>) {
      && Course(course) && course != []
      && (fault != AtConnect ==>
            && |course| == |Rows(s, st)| + 2
            && Reads(course[0], |course[0].log|, pinned) && Reads(course[1], |course[1].log|, table))
    }
  }

  /** On a table that does not change it is the attempt of `FullTable`. */
  lemma AttemptIsATry(scan: Scan, version: int, before: State, fault: Fault, after: State, msgs: seq<Message>)
    requires scan.auto
    ensures Attempted(scan, version, Records, before, fault, after, msgs)
       <==> var t := Try(scan.table, scan.table, fault);
            after == t.After(scan.s, before) && msgs == t.Messages(scan.s, version, before)
  {
  }

  /** Where an attempt leads. */
  function Tried(s: Stream, w: World, t: Try, source: Source): World {
    var version := VersionOf(w.now.state, s.id);
    var msgs, after := t.Messages(s, version, w.now.state), t.After(s, w.now.state);
    if t.fault == NoFault
    then HearAll(w, msgs + [ActivateVersion(s.id, version)])
           .(source := source, phase := Done, now := Checkpoint(Settled(after, s.id), w.now.floor))
    else HearAll(w, msgs).(source := source, now := Checkpoint(after, w.now.floor))
  }

  /** Every attempt is a path of the protocol, whatever the source commits meanwhile: the target hears
      exactly its messages, and the process ends with exactly its state.  A failed attempt leads back to
      the next connection, a successful one through the final announcement to the end of the snapshot. */
  lemma AttemptIsAPath(s: Stream, w: World, t: Try, course: seq<Source>)
    requires s.replication == LogBased && w.phase == Connecting
    requires t.Happens(s, w.now.state, course) && course[0] == w.source
    ensures Reaches(s, w, Tried(s, w, t, course[|course| - 1]))
  {
    hide Reaches, Reads, VersionOf, QueryMessages, Pin, Answer, Settled, QuerySpec.After, GoesOn;
    if t.fault == AtConnect {
      Stay(s, w);
      CourseGoesOn(s, w, w, course);
      assert HearAll(w, []) == w;
    } else {
      QueryIsAPath(s, w, t, course);
    }
  }

  lemma {:induction false} CourseGoesOn(s: Stream, start: World, w: World, course: seq<Source>)
    requires Reaches(s, start, w) && course != [] && Course(course) && course[0] == w.source
    ensures Reaches(s, start, w.(source := course[|course| - 1]))
    decreases |course|
  {
    hide Reaches, GoesOn;
    if |course| > 1 {
      var front := course[..|course| - 1];
      forall i | 0 < i < |front| ensures GoesOnAt(front, i) {
        assert GoesOnAt(course, i);
      }
      CourseGoesOn(s, start, w, front);
      assert GoesOnAt(course, |course| - 1);
      SourceGoesOn(s, start, w.(source := front[|front| - 1]), course[|course| - 1]);
    }
  }

  /** The rows of the attempt are the first ones of the query's answer. */
  lemma QueryIsAPath(s: Stream, w: World, t: Try, course: seq<Source>)
    requires s.replication == LogBased && w.phase == Connecting && t.fault != AtConnect
    requires t.Happens(s, w.now.state, course) && course[0] == w.source
    ensures Reaches(s, w, Tried(s, w, t, course[|course| - 1]))
  {
    hide *;
    var version, st := VersionOf(w.now.state, s.id), t.Start(s, w.now.state);
    HappensShape(s, w.now.state, t, course);
    var rows, n := Answer(s, true, t.table, st), |course| - 2;
    var reading := w.(source := course[1], phase := Phase.Reading(|course[1].log|), now := Checkpoint(st, w.now.floor));
    ConnectingIsSteps(s, w, t.pinned, t.table, course[1], reading);
    RowsAreSteps(s, w, reading, t.table, rows, n, course[1..]);
    ProgressOfPrefix(s, st, version, rows, n, n);
    ReadSoFar(s, w, reading, version, rows, n, course[n + 1]);
    var read := WorldAfter(s, reading, version, rows, n, course[n + 1]);
    if t.fault == NoFault {
      CloseIsSteps(s, w, t, read, rows, st, course[n + 1]);
    } else {
      DropIsAStep(s, w, t, read, rows, n, st, course[n + 1]);
    }
  }

  lemma HappensShape(s: Stream, st: State, t: Try, course: seq<Source>)
    requires t.fault != AtConnect && t.Happens(s, st, course)
    ensures var rows := Answer(s, true, t.table, t.Start(s, st));
            && 2 <= |course| && |course| - 2 <= |rows| && t.Rows(s, st) == rows[..|course| - 2]
            && (t.fault == NoFault ==> |course| - 2 == |rows|)
    ensures t.Start(s, st) == Pin(s, true, t.pinned, st)
    ensures Course(course[1..]) && GoesOn(course[0], course[1]) && course[1..][|course| - 2] == course[|course| - 1]
    ensures Reads(course[0], |course[0].log|, t.pinned) && Reads(course[1], |course[1].log|, t.table)
  {
    hide Answer, Pin, Reads, GoesOn;
    assert GoesOnAt(course, 1);
    forall i | 0 < i < |course[1..]| ensures GoesOnAt(course[1..], i) {
      assert GoesOnAt(course, i + 1);
    }
  }

  /** The world after the rows, as the target of the world before the query has heard it. */
  lemma ReadSoFar(s: Stream, w: World, reading: World, version: int, rows: seq<Row>, n: nat, source: Source)
    requires reading.target == w.target && reading.saved == w.saved && reading.outset == w.outset
    requires reading.now.floor == w.now.floor && n <= |rows|
    ensures WorldAfter(s, reading, version, rows, n, source)
         == HearAll(w, Progress(s, reading.now.state, version, Records, rows, n))
              .(source := source, phase := reading.phase,
                now := Checkpoint(After(s, reading.now.state, rows[..n]), w.now.floor))
  {
    HearsAlike(reading, w, Progress(s, reading.now.state, version, Records, rows, n));
    HearsAlike(w, w, Progress(s, reading.now.state, version, Records, rows, n));
  }

  lemma DropIsAStep(s: Stream, start: World, t: Try, read: World, rows: seq<Row>, n: nat, st: State, source: Source)
    requires start.phase == Connecting && t.fault != AtConnect && t.fault != NoFault && n <= |rows|
    requires st == t.Start(s, start.now.state) && t.Rows(s, start.now.state) == rows[..n]
    requires Reaches(s, start, read) && Under(s, read, t.table, rows[n..])
    requires var version := VersionOf(start.now.state, s.id);
             var progress := Progress(s, st, version, Records, rows[..n], n);
             read == HearAll(start, progress)
                       .(source := source, phase := read.phase,
                         now := Checkpoint(After(s, st, rows[..n]), start.now.floor))
    ensures Reaches(s, start, Tried(s, start, t, source))
  {
    hide Reaches, After, Progress, VersionOf, Pin, Answer;
    var version := VersionOf(start.now.state, s.id);
    var msgs := Progress(s, st, version, Records, rows[..n], n);
    assert QueryMessages(s, st, version, Records, rows[..n], true) == msgs;
    HearsAlike(start, start, msgs);
    OneStep(s, start, read, LoseConnection, Tried(s, start, t, source));
  }

  lemma CloseIsSteps(s: Stream, start: World, t: Try, read: World, rows: seq<Row>, st: State, source: Source)
    requires start.phase == Connecting && t.fault == NoFault
    requires st == t.Start(s, start.now.state) && t.Rows(s, start.now.state) == rows[..|rows|]
    requires Reaches(s, start, read) && Under(s, read, t.table, rows[|rows|..])
    requires VersionOf(read.now.state, s.id) == VersionOf(start.now.state, s.id)
    requires var version := VersionOf(start.now.state, s.id);
             read == HearAll(start, Progress(s, st, version, Records, rows, |rows|))
                       .(source := source, phase := read.phase,
                         now := Checkpoint(After(s, st, rows[..|rows|]), start.now.floor))
    ensures Reaches(s, start, Tried(s, start, t, source))
  {
    hide Reaches, After, Progress, Under, VersionOf, Settled, Closing, InPeriod, Pin, Answer;
    assert rows[..|rows|] == rows && rows[|rows|..] == [];
    var version := VersionOf(start.now.state, s.id);
    var after, closing := After(s, st, rows), Closing(s, st, Records, rows);
    var progress := Progress(s, st, version, Records, rows, |rows|);
    var closed := HearAll(start, progress + closing).(source := source, phase := read.phase, now := read.now);
    ClosingShape(s, st, Records, rows);
    HearsAlike(start, start, progress);
    if closing == [] {
      assert progress + closing == progress;
    } else {
      assert closing == [StateMessage(after)];
      HearOneMore(start, progress, StateMessage(after));
      StateIsAStep(s, start, read, t.table, [], closed);
    }
    assert QueryMessages(s, st, version, Records, rows, false) == progress + closing;
    HearOneMore(start, progress + closing, ActivateVersion(s.id, version));
    HearsAlike(start, start, progress + closing);
    FinishIsAStep(s, start, closed, t.table, Tried(s, start, t, source));
  }
}
