/**
 What a fresh snapshot does with a bookmark that another replication method left: two histories after
 which the target does not show the table.
 */
module FreshStarts {
  import opened Singer
  import opened FileNames
  import opened QuerySpec
  import opened FullTableSpec
  import opened StartPosition
  import opened FullTable
  import opened Historical
  import opened Tables
  import opened Replication
  import opened Refinement

  /** Some history that starts in the world ends with a binlog run after which the target is just this. */
  ghost predicate EndsWithTarget(s: Stream, w: World, target: Target) {
    exists worlds, steps :: History(s, worlds, steps) && worlds[0] == w && RunEndsWith(worlds, steps, w.source, target)
  }

  ghost predicate RunEndsWith(worlds: seq<World>, steps: seq<Step>, source: Source, target: Target)
    requires |worlds| == |steps| + 1
  {
    && steps != [] && steps[|steps| - 1].FinishReplay?
    && var last, done := worlds[|steps| - 1], worlds[|steps|];
       && last.phase.Replaying? && last.phase.end == source.here
       && done.source == source && done.target == target
  }

  /** From a start and a path, and one more binlog run. */
  lemma PathIsAHistory(s: Stream, w: World, before: World, after: World)
    requires Starts(s, w) && Reaches(s, w, before) && Does(s, before, FinishReplay, after)
    requires before.source == w.source && before.phase.end == w.source.here
    ensures EndsWithTarget(s, w, after.target)
  {
    hide Does, Starts;
    var worlds, steps :| PathBetween(s, w, worlds, steps, before);
    var worlds', steps' := worlds + [after], steps + [FinishReplay];
    FinishingKeeps(s, before, after);
    forall i | 0 <= i < |steps'| ensures Does(s, worlds'[i], steps'[i], worlds'[i + 1]) {
      if i < |steps| { assert StepAt(s, worlds, steps, i); }
    }
    assert History(s, worlds', steps');
    assert RunEndsWith(worlds', steps', w.source, after.target);
  }

  lemma FinishingKeeps(s: Stream, w: World, w': World)
    requires Does(s, w, FinishReplay, w')
    ensures w.phase.Replaying? && w' == w.(phase := Done)
  {
  }

  /** The world once the snapshot has announced its version. */
  function Begins(s: Stream, w: World, version: int): World {
    var here, target := w.source.here, Activate(w.target, version);
    World(w.source, target, w.saved, Connecting, Checkpoint(FreshState(s, w.now.state, version, here), here),
          Outset(version, target, |w.source.log|, Get(w.now.state, s.id, LastPk), Get(w.now.state, s.id, MaxPk)))
  }

  lemma BeginningIsAStep(s: Stream, w: World, clock: int)
    requires Starts(s, w) && !Truthy(Get(w.now.state, s.id, InitialFullTableComplete))
    requires Get(w.now.state, s.id, Version) == Null ==> forall k :: k in w.target ==> w.target[k].version != clock
    ensures var w' := Begins(s, w, StreamVersion(w.now.state, s.id, clock));
            && Does(s, w, BeginFresh(clock), w') && Begun(w'.now.state, s.id)
            && VersionOf(w'.now.state, s.id) == w'.outset.version
            && Get(w'.now.state, s.id, MaxPk) == Get(w.now.state, s.id, MaxPk)
            && Get(w'.now.state, s.id, LastPk) == Get(w.now.state, s.id, LastPk)
  {
    hide FreshState, ActivatesFirst, Activate, RequiresHistorical, CanResume, Begun, PosOf, VersionOf, KeysStay;
    FreshStateIsBegun(s, w.now.state, StreamVersion(w.now.state, s.id, clock), w.source.here);
  }

  /** From there to the end of a snapshot that finds no row. */
  lemma ReadingNothing(s: Stream, start: World, w: World, version: int, max: Option<int>, w': World)
    requires s.replication == LogBased && Reaches(s, start, w) && w.phase == Connecting && IsMax(w.source, max)
    requires Begun(w.now.state, s.id) && VersionOf(w.now.state, s.id) == version
    requires Activate(w.target, version) == w.target && Activate(w.outset.left, version) == w.outset.left
    requires forall k :: ToRead(PinnedState(s.id, w.now.state, max), s.id, k, true) ==>
                           w.source.Value(|w.source.log|, k) == None
    requires w' == w.(phase := Done, now := Checkpoint(Settled(PinnedState(s.id, w.now.state, max), s.id), w.now.floor))
    ensures Reaches(s, start, w')
  {
    hide Reaches, IsMax, PinnedState, Settled, Activate, Begun;
    var st := w.now.state;
    PinnedFields(s.id, st, max);
    SettledFields(PinnedState(s.id, st, max), s.id);
    var w2 := WithProcess(w, Phase.Reading(|w.source.log|), PinnedState(s.id, st, max));
    forall k ensures Skipped(w2, s.id, k, |w.source.log|) {
      if ToRead(w2.now.state, s.id, k, true) { assert w.source.Value(|w.source.log|, k) == None; }
    }
    QueryIsReached(s, start, w, max, w2);
    OneStep(s, start, w2, FinishSnapshot, w');
  }

  lemma QueryIsReached(s: Stream, start: World, w: World, max: Option<int>, w': World)
    requires Reaches(s, start, w) && w.phase == Connecting && IsMax(w.source, max)
    requires w' == WithProcess(w, Phase.Reading(|w.source.log|), PinnedState(s.id, w.now.state, max))
    ensures Reaches(s, start, w')
  {
    hide Reaches, IsMax, PinnedState;
    var w1 := WithProcess(w, Connected, PinnedState(s.id, w.now.state, max));
    OneStep(s, start, w, PinMax(max), w1);
    OneStep(s, start, w1, Query, w');
  }

  lemma RestartIsReached(s: Stream, start: World, w: World, w': World)
    requires Reaches(s, start, w) && w.phase == Done && w' == w.(saved := {w.now}, phase := Loaded)
    ensures Reaches(s, start, w')
  {
    hide Reaches;
    var w1 := w.(saved := w.saved + {w.now});
    OneStep(s, start, w, EmitState, w1);
    OneStep(s, start, w1, Restart(w.now), w');
  }

  /** Then the STATE goes out, the next process starts from it, and its binlog run is at its end at once. */
  lemma ReplayingNothing(s: Stream, start: World, w: World)
    requires Reaches(s, start, w) && w.phase == Done && !RequiresHistorical(w.now.state, s.id) && w.source.Valid()
    requires w.now.floor == w.source.here && Starts(s, start) && w.source == start.source
    ensures EndsWithTarget(s, start, w.target)
  {
    hide Reaches, Starts, RequiresHistorical, Whitelist, EndsWithTarget;
    var here := w.source.here;
    ClockHere(w.source);
    BeforeTotal(here, here);
    var w2 := w.(saved := {w.now}, phase := Loaded);
    var w3 := w2.(saved := set cp | cp in {w.now} :: Checkpoint(cp.state, here),
                  phase := Phase.Replaying(|w.source.log|, here),
                  now := Checkpoint(Whitelist(w.now.state, s.id, BINLOG_KEYS), here),
                  outset := ReadingFrom(w.outset, |w.source.log|));
    RestartIsReached(s, start, w, w2);
    OneStep(s, start, w2, BeginReplay(here), w3);
    assert Does(s, w3, FinishReplay, w3.(phase := Done));
    PathIsAHistory(s, start, w3, w3.(phase := Done));
  }

  /** After a fresh snapshot that finds nothing to read, and a binlog run that finds nothing new, the
      target has dropped what is not of the snapshot's version, and that is all. */
  lemma QuietRun(s: Stream, w: World, clock: int, max: Option<int>)
    requires Starts(s, w) && IsMax(w.source, max) && !Truthy(Get(w.now.state, s.id, InitialFullTableComplete))
    requires Get(w.now.state, s.id, Version) == Null ==> forall k :: k in w.target ==> w.target[k].version != clock
    requires forall k :: ToRead(PinnedState(s.id, w.now.state, max), s.id, k, true) ==>
                           w.source.Value(|w.source.log|, k) == None
    ensures EndsWithTarget(s, w, Activate(w.target, StreamVersion(w.now.state, s.id, clock)))
  {
    hide Does, Reaches, IsMax, FreshState, Settled, PinnedState, Activate, EndsWithTarget, Begun, VersionOf,
         NeedsFresh, KeysStay, RequiresHistorical, StreamVersion;
    var w1 := Begins(s, w, StreamVersion(w.now.state, s.id, clock));
    BeginningIsAStep(s, w, clock);
    Stay(s, w);
    OneStep(s, w, w, BeginFresh(clock), w1);
    AnnounceTwice(w.target, w1.outset.version);
    PinnedFields(s.id, w.now.state, max);
    PinnedFields(s.id, w1.now.state, max);
    var settled := Settled(PinnedState(s.id, w1.now.state, max), s.id);
    var w2 := w1.(phase := Done, now := Checkpoint(settled, w1.now.floor));
    ReadingNothing(s, w, w1, w1.outset.version, max, w2);
    SettledIsReady(PinnedState(s.id, w1.now.state, max), w1.now.state, s.id);
    ReplayingNothing(s, w, w2);
  }

  // ----- two bookmarks -----

  const STREAM := Stream("t", LogBased)

  function StartOf(source: Source, target: Target, bookmark: Bookmark): World {
    var now := Checkpoint(State(map["t" := bookmark], None), source.here);
    World(source, target, {now}, Loaded, now, Outset(0, target, |source.log|, Null, Null))
  }

  const ROW3 := Row(3, None, "three")
  const ROW7 := Row(7, None, "seven")

  /** The table had row 7, which was deleted since INCREMENTAL read it. */
  function Deleted(): Source {
    Source(map[7 := ROW7], [Entry(Pos("f", 10), Remove(ROW7))], Pos("f", 20))
  }

  /** INCREMENTAL leaves a version and a replication key.  The snapshot goes on under that version, so
      that a row deleted before it stays in the target. */
  lemma RowUnderTheOldVersionStays()
    ensures var bookmark: Bookmark := map[Version := Num(1), ReplicationKey := Text("id")];
            var target: Target := map[7 := Cell(ROW7, 1, false)];
            var w := StartOf(Deleted(), target, bookmark);
            Starts(STREAM, w) && EndsWithTarget(STREAM, w, target) && !ShowsTableAt(w.source, target, w.source.here)
  {
    var bookmark: Bookmark := map[Version := Num(1), ReplicationKey := Text("id")];
    var target: Target := map[7 := Cell(ROW7, 1, false)];
    var w := StartOf(Deleted(), target, bookmark);
    DeletedIsValid();
    assert Activate(target, 1) == target;
    assert BookmarkOf(w.now.state, "t") == bookmark;
    hide EndsWithTarget, Reaches, Does;
    QuietRun(STREAM, w, 5, None);
    assert View(target, 7) == Some(ROW7);
  }

  lemma DeletedIsValid()
    ensures var source := Deleted();
            && source.Valid() && KeysStay(source.log) && source.Clock(source.here) == |source.log| == 1
            && (forall k :: source.Value(1, k) == None) && IsMax(source, None)
  {
    var source := Deleted();
    assert source.Times() == [Pos("f", 10)];
    forall k ensures source.Value(1, k) == None {
      assert source.Value(1, k) == Effect(source.log[0].change, k, source.Value(0, k));
    }
    ClockHere(source);
  }

  /** An interrupted FULL_TABLE scan leaves a maximum and a last key.  The snapshot announces a new
      version and asks for the rows after that key only, so that the rows up to it are lost. */
  lemma RowsUpToTheLastKeyAreLost()
    ensures var bookmark: Bookmark := map[MaxPk := Key(10), LastPk := Key(5)];
            var source := Source(map[3 := ROW3], [], Pos("f", 20));
            var w := StartOf(source, map[3 := Cell(ROW3, 1, false)], bookmark);
            Starts(STREAM, w) && EndsWithTarget(STREAM, w, map[]) && !ShowsTableAt(source, map[], source.here)
  {
    var bookmark: Bookmark := map[MaxPk := Key(10), LastPk := Key(5)];
    var source := Source(map[3 := ROW3], [], Pos("f", 20));
    var target: Target := map[3 := Cell(ROW3, 1, false)];
    var w := StartOf(source, target, bookmark);
    assert source.Times() == [];
    ClockHere(source);
    assert Activate(target, 2) == map[];
    assert BookmarkOf(w.now.state, "t") == bookmark;
    hide EndsWithTarget, Reaches, Does;
    QuietRun(STREAM, w, 2, Some(3));
    assert View(map[], 3) == None && source.Value(0, 3) == Some(ROW3);
  }
}
