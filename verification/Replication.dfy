/**
 The whole protocol of a LOG_BASED stream with an ordered key: snapshot, crashes, resumptions and
 binlog runs, interleaved with the changes that the source commits meanwhile.

 A message counts as written once the target has it; what a dying process wrote beyond that is as
 if it had not been written.  So a step moves the process and the target together, and a new
 process may start at any time.  The model is RECORD mode, by file and position.
 */
module Replication {
  import opened Singer
  import opened FileNames
  import opened QuerySpec
  import opened FullTableSpec
  import opened StartPosition
  import opened BinlogSpec
  import opened FullTable
  import opened Historical
  import opened Tables

  /** A STATE, and the last coordinates that a binlog run from it may start at.  A run starts at the
      earliest bookmark of its streams.  Once it is under way a restart must not start later, which
      it does not as long as no stream is taken out. */
  datatype Checkpoint = Checkpoint(state: State, floor: Pos)

  /** `since` is the time at which the query began, `next` the change that the reader is at. */
  datatype Phase =
    | Loaded
    | Connecting
    | Connected
    | Reading(since: nat)
    | Replaying(next: nat, end: Pos)
    | Done

  /** How the last fresh snapshot set out: its version, the cells the target has kept from before it,
      the earliest change that the log has been read from since, and the last key and the maximum
      that were already in the state.  It is a record of the past; no step looks at it. */
  datatype Outset = Outset(version: int, left: Target, since: nat, last: Value, max: Value)

  /** The source, the target, the STATE messages it may restart from, and the process. */
  datatype World = World(source: Source, target: Target, saved: set<Checkpoint>, phase: Phase, now: Checkpoint,
                         outset: Outset)

  datatype Step =
    | Commit(entries: seq<Entry>, after: Source)
    | Restart(from: Checkpoint)
    | EmitState
    | SyncOthers(state: State)
    | BeginFresh(clock: int)
    | BeginResumed
    | PinMax(max: Option<int>)
    | Query
    | LoseConnection
    | ReadRow(row: Row, at: nat)
    | FinishSnapshot
    | BeginReplay(start: Pos)
    | ReplayOne
    | MoveBookmarks(to: Pos)
    | FinishReplay

  // ----- the states a process computes -----

  /** The state a fresh snapshot begins with: its version and its coordinates are in it. */
  function FreshState(s: Stream, st: State, version: int, at: Pos): State {
    var st' := Write(Write(st, s.id, InitialBinlogComplete, Flag(false)), s.id, Version, Num(version));
    Whitelist(WriteCoordinates(st', s.id, Coordinates(at.file, at.offset, None)), s.id, BookmarkKeys(s))
  }

  function PinnedState(id: StreamId, st: State, max: Option<int>): State {
    if Truthy(Get(st, id, MaxPk)) || max == None then st else Write(st, id, MaxPk, Key(max.value))
  }

  // ----- the steps -----

  function WithProcess(w: World, phase: Phase, st: State): World {
    w.(phase := phase, now := w.now.(state := st))
  }

  /** The version that the records of the process carry. */
  function VersionOf(st: State, id: StreamId): int {
    if Get(st, id, Version).Num? then Get(st, id, Version).n else 0
  }

  /** The target hears the version announced and drops the cells of all others. */
  function Announce(w: World, version: int): World {
    w.(target := Activate(w.target, version), outset := w.outset.(left := Activate(w.outset.left, version)))
  }

  /** A scan announces its version before the first row, unless the stream completed FULL_TABLE before. */
  function Opened(w: World, id: StreamId): World {
    if ActivatesFirst(w.now.state, id) then Announce(w, VersionOf(w.now.state, id)) else w
  }

  /** A fresh snapshot sets out from the state `st` and from what the target holds now. */
  function SettingOut(w: World, version: int, st: State, id: StreamId): World {
    w.(outset := Outset(version, w.target, |w.source.log|, Get(st, id, LastPk), Get(st, id, MaxPk)))
  }

  /** The log is read from the change `from` on. */
  function ReadingFrom(o: Outset, from: nat): Outset {
    if from < o.since then o.(since := from) else o
  }

  /** A key that the query asks for and that comes before `upto` had no row as the query passed. */
  ghost predicate Skipped(w: World, id: StreamId, k: int, since: nat) {
    ToRead(w.now.state, id, k, true) ==> Absent(w.source, k, since, |w.source.log|)
  }

  /** The largest key of the table just now. */
  ghost predicate IsMax(source: Source, max: Option<int>) {
    && (max.Some? ==> source.Value(|source.log|, max.value) != None)
    && (forall k :: max == None || max.value < k ==> source.Value(|source.log|, k) == None)
  }

  ghost predicate Does(s: Stream, w: World, step: Step, w': World) {
    var id, st := s.id, w.now.state;
    match step
    case Commit(entries, after) =>
      Commits(w.source, entries, after) && w' == w.(source := after)
    // Any STATE since the last restart will do, or the one that run was started from.
    case Restart(from) =>
      from in w.saved && w' == w.(saved := {from}, phase := Loaded, now := from)
    case EmitState =>
      && (w.phase.Reading? || w.phase.Replaying? || w.phase.Loaded? || w.phase.Done?)
      && w' == w.(saved := w.saved + {w.now})
    // The state also holds the bookmarks of other streams, which the process syncs in between.
    case SyncOthers(state) =>
      BookmarkOf(state, id) == BookmarkOf(st, id) && w' == WithProcess(w, w.phase, state)
    case BeginFresh(clock) =>
      var version := StreamVersion(st, id, clock);
      && w.phase == Loaded && RequiresHistorical(st, id) && !CanResume(st, id, false)
      && (Get(st, id, Version) == Null ==> forall k :: k in w.target ==> w.target[k].version != clock)
      && var begun := w.(phase := Connecting,
                         now := Checkpoint(FreshState(s, st, version, w.source.here), w.source.here));
         w' == SettingOut(Opened(begun, id), version, st, id)
    case BeginResumed =>
      && w.phase == Loaded && RequiresHistorical(st, id) && CanResume(st, id, false)
      && w' == Opened(WithProcess(w, Connecting, Whitelist(st, id, BookmarkKeys(s))), id)
    case PinMax(max) =>
      && w.phase == Connecting && IsMax(w.source, max)
      && w' == WithProcess(w, Connected, PinnedState(id, st, max))
    case Query =>
      w.phase == Connected && w' == WithProcess(w, Reading(|w.source.log|), st)
    case LoseConnection =>
      (w.phase.Connected? || w.phase.Reading?) && w' == WithProcess(w, Connecting, st)
    // The row as the query saw it.  The keys it passed over had no row.
    case ReadRow(row, at) =>
      && w.phase.Reading? && w.phase.since <= at <= |w.source.log|
      && w.source.Value(at, row.pk) == Some(row)
      && (Truthy(Get(st, id, MaxPk)) ==>
            && InRange(Get(st, id, LastPk), Get(st, id, MaxPk), row.pk)
            && forall k :: k < row.pk ==> Skipped(w, id, k, w.phase.since))
      && w' == WithProcess(w, w.phase, Advance(s, st, row))
               .(target := Upsert(w.target, row, VersionOf(st, id), false))
    case FinishSnapshot =>
      && w.phase.Reading? && (forall k :: Skipped(w, id, k, w.phase.since))
      && w' == Announce(WithProcess(w, Done, Settled(st, id)), VersionOf(st, id))
    case BeginReplay(start) =>
      && w.phase == Loaded && !RequiresHistorical(st, id) && AtMost(start, w.now.floor)
      && w' == w.(saved := set cp | cp in w.saved :: Checkpoint(cp.state, start),
                  phase := Replaying(w.source.Clock(start), w.source.here),
                  now := Checkpoint(Whitelist(st, id, BINLOG_KEYS), start),
                  outset := ReadingFrom(w.outset, w.source.Clock(start)))
    case ReplayOne =>
      && w.phase.Replaying? && w.phase.next < |w.source.log|
      && Before(w.source.log[w.phase.next].at, w.phase.end)
      && w' == w.(target := Replay(w.target, w.source.log[w.phase.next].change, VersionOf(st, id)),
                  phase := Replaying(w.phase.next + 1, w.phase.end))
    // Bookmarks move to where an event starts, and not past the rows that are out.
    case MoveBookmarks(to) =>
      && w.phase.Replaying? && RealPos(to) && AtMost(to, w.source.here) && w.source.Clock(to) <= w.phase.next
      && w' == w.(now := Checkpoint(Moved(st, {id}, to, Null), to))
    case FinishReplay =>
      && w.phase.Replaying?
      && (w.phase.next < |w.source.log| ==> !Before(w.source.log[w.phase.next].at, w.phase.end))
      && w' == w.(phase := Done)
  }

  // ----- what every step keeps -----

  /** The fields hold what the tap writes to them. */
  predicate Typed(st: State, id: StreamId) {
    && (Get(st, id, Version).Num? || Get(st, id, Version) == Null)
    && (Get(st, id, MaxPk).Key? || Get(st, id, MaxPk) == Null)
    && (Get(st, id, LastPk).Key? || Get(st, id, LastPk) == Null)
  }

  /** The stream's next run takes a fresh snapshot. */
  predicate NeedsFresh(st: State, id: StreamId) {
    Typed(st, id) && RequiresHistorical(st, id) && !CanResume(st, id, false)
  }

  /** The fields of a stream whose snapshot has begun. */
  predicate Begun(st: State, id: StreamId) {
    Typed(st, id) && Get(st, id, Version).Num? && HasCoordinates(st, id) && RealPos(PosOf(st, id))
  }

  /** The snapshot still has to read the key. */
  predicate ToRead(st: State, id: StreamId, k: int, pinned: bool) {
    && (pinned ==> Get(st, id, MaxPk).Key?)
    && InRange(Get(st, id, LastPk), Get(st, id, MaxPk), k)
  }

  /** The snapshot never asks for the key: it is not above the last key that the state had to begin
      with, or it is above the maximum. */
  predicate Unread(o: Outset, k: int) {
    !InRange(o.last, o.max, k)
  }

  predicate SameCell(a: Target, b: Target, k: int) {
    (k in a <==> k in b) && (k in a ==> a[k] == b[k])
  }

  /** The target has the key as it was left, and the log has not touched it so far. */
  ghost predicate Kept(o: Outset, source: Source, target: Target, k: int, upto: nat) {
    SameCell(target, o.left, k) && !Touched(source, k, o.since, upto)
  }

  /** The target shows a value that the source held in the range, and not under another version. */
  ghost predicate Fresh(o: Outset, source: Source, target: Target, k: int, lo: nat, hi: nat) {
    Seen(source, target, k, lo, hi) && (k in target ==> target[k].version == o.version)
  }

  /** The target shows a value that the source held since the floor; or it has the key as it was left,
      and the snapshot will still read it, or never asks for it, or there was no row to read. */
  ghost predicate Covered(source: Source, target: Target, o: Outset, id: StreamId, cp: Checkpoint, pinned: bool,
                          k: int) {
    var from := source.Clock(cp.floor);
    || Fresh(o, source, target, k, from, |source.log|)
    || (Kept(o, source, target, k, from)
        && (ToRead(cp.state, id, k, pinned) || Unread(o, k) || Absent(source, k, from, |source.log|)))
  }

  ghost predicate AllCovered(source: Source, target: Target, o: Outset, id: StreamId, cp: Checkpoint, pinned: bool) {
    forall k :: Covered(source, target, o, id, cp, pinned, k)
  }

  /** The snapshot goes by the maximum that it found, and not back before the last key it found. */
  predicate Within(o: Outset, st: State, id: StreamId) {
    && (o.max.Key? ==> Get(st, id, MaxPk) == o.max)
    && (o.last.Key? ==> Get(st, id, LastPk).Key? && o.last.pk <= Get(st, id, LastPk).pk)
  }

  ghost predicate Tracked(source: Source, target: Target, o: Outset, id: StreamId, cp: Checkpoint, pinned: bool) {
    && Begun(cp.state, id) && VersionOf(cp.state, id) == o.version
    && AtMost(cp.floor, PosOf(cp.state, id)) && AtMost(PosOf(cp.state, id), source.here)
    && (Get(cp.state, id, MaxPk).Key? ==> Within(o, cp.state, id))
    && AllCovered(source, target, o, id, cp, pinned)
  }

  /** A restart from the checkpoint starts over or goes on. */
  ghost predicate Good(source: Source, target: Target, o: Outset, id: StreamId, cp: Checkpoint) {
    NeedsFresh(cp.state, id) || Tracked(source, target, o, id, cp, true)
  }

  /** No key had a row all at once; stated key by key. */
  ghost predicate WasEmpty(source: Source, lo: nat, hi: nat) {
    forall k :: Absent(source, k, lo, hi)
  }

  ghost predicate ProcessStands(w: World, id: StreamId) {
    var o, st := w.outset, w.now.state;
    match w.phase
    case Loaded => Good(w.source, w.target, o, id, w.now)
    case Connecting => Tracked(w.source, w.target, o, id, w.now, false) && Within(o, st, id)
    case Connected =>
      && Tracked(w.source, w.target, o, id, w.now, true) && Within(o, st, id)
      && (Get(st, id, MaxPk) == Null ==> WasEmpty(w.source, o.since, |w.source.log|))
    case Reading(since) =>
      && Tracked(w.source, w.target, o, id, w.now, true) && Within(o, st, id)
      && w.source.Clock(w.now.floor) <= since <= |w.source.log| && o.since <= since
      && (Get(st, id, MaxPk) == Null ==> WasEmpty(w.source, o.since, since))
    case Replaying(next, end) =>
      && Tracked(w.source, w.target, o, id, w.now, true) && Ready(st, id)
      && AtMost(end, w.source.here)
      && w.source.Clock(w.now.floor) <= next <= w.source.Clock(end) && o.since <= next
      && ReplayStands(w.source, w.target, o, next, w.source.Clock(end))
    case Done => Good(w.source, w.target, o, id, w.now)
  }

  /** No snapshot is under way. */
  predicate Ready(st: State, id: StreamId) {
    Get(st, id, MaxPk) == Null && Get(st, id, LastPk) == Null
  }

  /** Each key's value is one the source held between the change the reader is at and the end; or the
      target has the key as it was left, and it was never asked for or had no row. */
  ghost predicate ReplayStands(source: Source, target: Target, o: Outset, next: nat, end: nat) {
    forall k :: ReplayStandsAt(source, target, o, next, end, k)
  }

  ghost predicate ReplayStandsAt(source: Source, target: Target, o: Outset, next: nat, end: nat, k: int) {
    || Fresh(o, source, target, k, next, end)
    || (Kept(o, source, target, k, next) && (Unread(o, k) || Absent(source, k, o.since, end)))
  }

  /** How a checkpoint that may be restarted from relates to the process. */
  ghost predicate Follows(w: World, id: StreamId, cp: Checkpoint) {
    match w.phase
    case Loaded => SameStream(cp, w.now, id)
    case Replaying(next, end) =>
      !NeedsFresh(cp.state, id) && Ready(cp.state, id) && w.source.Clock(cp.floor) <= next
    case Done => true
    case _ => NeedsFresh(cp.state, id) || cp.floor == w.now.floor
  }

  /** For this stream the two are the same checkpoint. */
  predicate SameStream(a: Checkpoint, b: Checkpoint, id: StreamId) {
    a.floor == b.floor && BookmarkOf(a.state, id) == BookmarkOf(b.state, id)
  }

  /** Neither the snapshot nor the log can have brought the key. */
  ghost predicate OutOfReach(source: Source, o: Outset, upto: nat, k: int)
    requires o.since <= |source.log|
  {
    !Touched(source, k, o.since, upto) && (Unread(o, k) || source.Value(o.since, k) == None)
  }

  ghost predicate OutOfReachIsKept(source: Source, target: Target, o: Outset, upto: nat)
    requires o.since <= |source.log|
  {
    forall k :: OutOfReach(source, o, upto, k) ==> SameCell(target, o.left, k)
  }

  /** How far the snapshot and the log have been read, at most. */
  function Horizon(w: World): nat {
    if w.phase.Replaying? then w.source.Clock(w.phase.end) else |w.source.log|
  }

  ghost predicate Inv(w: World, id: StreamId) {
    && w.source.Valid() && KeysStay(w.source.log) && w.outset.since <= |w.source.log|
    && OutOfReachIsKept(w.source, w.target, w.outset, Horizon(w))
    && (forall cp :: cp in w.saved ==> Good(w.source, w.target, w.outset, id, cp) && Follows(w, id, cp))
    && ProcessStands(w, id)
  }

  // ----- the fields of the states -----

  lemma WhitelistGets(st: State, id: StreamId, keep: set<Field>, f: Field)
    ensures Get(Whitelist(st, id, keep), id, f) == if f in keep then Get(st, id, f) else Null
  {
  }

  /** Version and coordinates are in the state before the first row is read; the last key and the
      maximum that an interrupted scan left are still there. */
  lemma FreshStateIsBegun(s: Stream, st: State, version: int, at: Pos)
    requires s.replication == LogBased && Typed(st, s.id) && RealPos(at)
    ensures var st' := FreshState(s, st, version, at);
            && Begun(st', s.id) && PosOf(st', s.id) == at && VersionOf(st', s.id) == version
            && Get(st', s.id, MaxPk) == Get(st, s.id, MaxPk) && Get(st', s.id, LastPk) == Get(st, s.id, LastPk)
            && (ActivatesFirst(st', s.id) <==> !Truthy(Get(st, s.id, InitialFullTableComplete)))
  {
    hide Whitelist;
    var st' := Write(Write(st, s.id, InitialBinlogComplete, Flag(false)), s.id, Version, Num(version));
    var st1 := WriteCoordinates(st', s.id, Coordinates(at.file, at.offset, None));
    WhitelistGets(st1, s.id, BookmarkKeys(s), LogFile);
    WhitelistGets(st1, s.id, BookmarkKeys(s), LogPos);
    WhitelistGets(st1, s.id, BookmarkKeys(s), Version);
    WhitelistGets(st1, s.id, BookmarkKeys(s), MaxPk);
    WhitelistGets(st1, s.id, BookmarkKeys(s), LastPk);
    WhitelistGets(st1, s.id, BookmarkKeys(s), InitialFullTableComplete);
  }

  /** The two states agree on the anchor. */
  predicate SameAnchor(a: State, b: State, id: StreamId) {
    && Get(a, id, LogFile) == Get(b, id, LogFile) && Get(a, id, LogPos) == Get(b, id, LogPos)
    && Get(a, id, Version) == Get(b, id, Version)
  }

  lemma AnchorDecides(a: State, b: State, id: StreamId)
    requires SameAnchor(a, b, id) && Begun(b, id) && Typed(a, id)
    ensures Begun(a, id) && PosOf(a, id) == PosOf(b, id) && VersionOf(a, id) == VersionOf(b, id)
  {
  }

  lemma ResumedFields(s: Stream, st: State)
    requires s.replication == LogBased
    ensures var st' := Whitelist(st, s.id, BookmarkKeys(s));
            && SameAnchor(st', st, s.id)
            && Get(st', s.id, MaxPk) == Get(st, s.id, MaxPk) && Get(st', s.id, LastPk) == Get(st, s.id, LastPk)
  {
    WhitelistGets(st, s.id, BookmarkKeys(s), LogFile);
    WhitelistGets(st, s.id, BookmarkKeys(s), LogPos);
    WhitelistGets(st, s.id, BookmarkKeys(s), Version);
    WhitelistGets(st, s.id, BookmarkKeys(s), MaxPk);
    WhitelistGets(st, s.id, BookmarkKeys(s), LastPk);
  }

  lemma ReplayFields(st: State, id: StreamId)
    ensures var st' := Whitelist(st, id, BINLOG_KEYS); SameAnchor(st', st, id) && Ready(st', id)
  {
    WhitelistGets(st, id, BINLOG_KEYS, LogFile);
    WhitelistGets(st, id, BINLOG_KEYS, LogPos);
    WhitelistGets(st, id, BINLOG_KEYS, Version);
    WhitelistGets(st, id, BINLOG_KEYS, MaxPk);
    WhitelistGets(st, id, BINLOG_KEYS, LastPk);
  }

  lemma PinnedFields(id: StreamId, st: State, max: Option<int>)
    ensures var st' := PinnedState(id, st, max);
            && SameAnchor(st', st, id) && Get(st', id, LastPk) == Get(st, id, LastPk)
            && Get(st', id, MaxPk)
               == if Truthy(Get(st, id, MaxPk)) || max == None then Get(st, id, MaxPk) else Key(max.value)
  {
  }

  lemma AdvanceFields(s: Stream, st: State, row: Row)
    requires s.replication == LogBased
    ensures var st' := Advance(s, st, row);
            && SameAnchor(st', st, s.id) && Get(st', s.id, MaxPk) == Get(st, s.id, MaxPk)
            && Get(st', s.id, LastPk) == if Truthy(Get(st, s.id, MaxPk)) then Key(row.pk) else Get(st, s.id, LastPk)
  {
  }

  lemma SettledFields(st: State, id: StreamId)
    ensures SameAnchor(Settled(st, id), st, id) && Ready(Settled(st, id), id)
  {
  }

  lemma MovedFields(st: State, id: StreamId, to: Pos)
    requires RealPos(to) && Begun(st, id) && Ready(st, id)
    ensures var st' := Moved(st, {id}, to, Null);
            Begun(st', id) && PosOf(st', id) == to && VersionOf(st', id) == VersionOf(st, id) && Ready(st', id)
  {
  }

  /** A stream that has begun can be resumed while a maximum is pinned; without one it is ready, or it
      starts over if it still has a last key. */
  lemma BegunKinds(st: State, id: StreamId)
    requires Begun(st, id)
    ensures CanResume(st, id, false) <==> Get(st, id, MaxPk) != Null
    ensures !RequiresHistorical(st, id) <==> Ready(st, id)
    ensures NeedsFresh(st, id) <==> Get(st, id, MaxPk) == Null && Get(st, id, LastPk) != Null
  {
  }

  lemma SettledIsReady(st: State, begun: State, id: StreamId)
    requires Begun(begun, id) && SameAnchor(st, begun, id)
    ensures !RequiresHistorical(Settled(st, id), id)
  {
    hide Settled, PosOf;
    SettledFields(st, id);
    AnchorDecides(Settled(st, id), begun, id);
    BegunKinds(Settled(st, id), id);
  }

  // ----- each step keeps the invariant -----

  lemma LogGrows(before: Source, entries: seq<Entry>, after: Source)
    requires Commits(before, entries, after)
    ensures |before.log| <= |after.log| && AtMost(before.here, after.here)
  {
  }

  lemma KeptLater(before: Source, entries: seq<Entry>, after: Source, target: Target, o: Outset, k: int, upto: nat)
    requires Commits(before, entries, after) && upto <= |before.log|
    ensures Kept(o, after, target, k, upto) <==> Kept(o, before, target, k, upto)
  {
    TouchedLater(before, entries, after, k, o.since, upto);
  }

  lemma CoveredLater(before: Source, entries: seq<Entry>, after: Source, target: Target, o: Outset, id: StreamId,
                     cp: Checkpoint, pinned: bool, k: int)
    requires Commits(before, entries, after) && after.Clock(cp.floor) == before.Clock(cp.floor)
    requires Covered(before, target, o, id, cp, pinned, k)
    ensures Covered(after, target, o, id, cp, pinned, k)
  {
    hide Commits, Kept, ToRead, Unread, Seen, Absent;
    var from := before.Clock(cp.floor);
    LogGrows(before, entries, after);
    KeptLater(before, entries, after, target, o, k, from);
    if Seen(before, target, k, from, |before.log|) {
      SeenLater(before, entries, after, target, k, from, |before.log|, |after.log|);
    }
    if Absent(before, k, from, |before.log|) {
      AbsentLater(before, entries, after, k, from, |before.log|, |after.log|);
    }
  }

  lemma TrackedLater(before: Source, entries: seq<Entry>, after: Source, target: Target, o: Outset, id: StreamId,
                     cp: Checkpoint, pinned: bool)
    requires before.Valid() && Commits(before, entries, after)
    requires Tracked(before, target, o, id, cp, pinned)
    ensures Tracked(after, target, o, id, cp, pinned)
    ensures after.Clock(cp.floor) == before.Clock(cp.floor)
  {
    hide Begun, PosOf, VersionOf, Covered, Within;
    BeforeTransitive(cp.floor, PosOf(cp.state, id), before.here);
    BeforeTransitive(PosOf(cp.state, id), before.here, after.here);
    ClockStays(before, entries, after, cp.floor);
    forall k ensures Covered(after, target, o, id, cp, pinned, k) {
      assert Covered(before, target, o, id, cp, pinned, k);
      CoveredLater(before, entries, after, target, o, id, cp, pinned, k);
    }
  }

  lemma ReplayStandsLater(before: Source, entries: seq<Entry>, after: Source, target: Target, o: Outset, next: nat,
                          end: nat)
    requires Commits(before, entries, after) && ReplayStands(before, target, o, next, end) && next <= |before.log|
    ensures ReplayStands(after, target, o, next, end)
  {
    hide Commits, Kept, Unread, Seen, Absent;
    forall k ensures ReplayStandsAt(after, target, o, next, end, k) {
      assert ReplayStandsAt(before, target, o, next, end, k);
      KeptLater(before, entries, after, target, o, k, next);
      if Seen(before, target, k, next, end) {
        SeenLater(before, entries, after, target, k, next, end, end);
      }
      if Absent(before, k, o.since, end) {
        AbsentLater(before, entries, after, k, o.since, end, end);
      }
    }
  }

  lemma WasEmptyLater(before: Source, entries: seq<Entry>, after: Source, lo: nat, hi: nat, later: nat)
    requires Commits(before, entries, after) && WasEmpty(before, lo, hi) && hi <= later
    ensures WasEmpty(after, lo, later)
  {
    forall k ensures Absent(after, k, lo, later) {
      AbsentLater(before, entries, after, k, lo, hi, later);
    }
  }

  lemma CommitKeepsKeys(before: Source, entries: seq<Entry>, after: Source)
    requires Commits(before, entries, after) && KeysStay(before.log)
    ensures KeysStay(after.log) && |before.log| <= |after.log| && after.Valid() && AtMost(before.here, after.here)
  {
  }

  lemma OutOfReachLater(before: Source, entries: seq<Entry>, after: Source, target: Target, o: Outset, upto: nat,
                        later: nat)
    requires Commits(before, entries, after) && o.since <= |before.log| <= |after.log| && upto <= |before.log|
             && upto <= later
    requires OutOfReachIsKept(before, target, o, upto)
    ensures OutOfReachIsKept(after, target, o, later)
  {
    hide Commits, Unread, SameCell;
    forall k | OutOfReach(after, o, later, k) ensures SameCell(target, o.left, k) {
      TouchedLater(before, entries, after, k, o.since, upto);
      TouchedMore(after, k, o.since, upto, o.since, later);
      CommitKeepsValues(before, entries, after, o.since, k);
      assert OutOfReach(before, o, upto, k);
    }
  }

  lemma TouchedMore(source: Source, k: int, from: nat, upto: nat, lower: nat, higher: nat)
    requires lower <= from && upto <= higher
    ensures Touched(source, k, from, upto) ==> Touched(source, k, lower, higher)
  {
  }

  lemma CommitKeepsInv(w: World, id: StreamId, entries: seq<Entry>, w': World)
    requires Inv(w, id) && Commits(w.source, entries, w'.source) && w' == w.(source := w'.source)
    ensures Inv(w', id)
  {
    hide Commits, NeedsFresh, Tracked, ReplayStands, KeysStay, OutOfReachIsKept, WasEmpty, Within, Ready;
    CommitKeepsKeys(w.source, entries, w'.source);
    forall cp | cp in w.saved ensures Good(w'.source, w'.target, w'.outset, id, cp) && Follows(w', id, cp) {
      assert Good(w.source, w.target, w.outset, id, cp) && Follows(w, id, cp);
      if Tracked(w.source, w.target, w.outset, id, cp, true) {
        TrackedLater(w.source, entries, w'.source, w.target, w.outset, id, cp, true);
      }
    }
    ProcessLater(w, id, entries, w');
    if w.phase.Replaying? { ClockStays(w.source, entries, w'.source, w.phase.end); }
    OutOfReachLater(w.source, entries, w'.source, w.target, w.outset, Horizon(w), Horizon(w'));
  }

  lemma ProcessLater(w: World, id: StreamId, entries: seq<Entry>, w': World)
    requires w.source.Valid() && ProcessStands(w, id)
    requires Commits(w.source, entries, w'.source) && w' == w.(source := w'.source)
    ensures ProcessStands(w', id)
  {
    hide Commits, NeedsFresh, Tracked, ReplayStands, WasEmpty, Within, Ready;
    var before, after, o := w.source, w'.source, w.outset;
    LogGrows(before, entries, after);
    match w.phase
    case Connecting => TrackedLater(before, entries, after, w.target, o, id, w.now, false);
    case Connected =>
      TrackedLater(before, entries, after, w.target, o, id, w.now, true);
      if WasEmpty(before, o.since, |before.log|) {
        WasEmptyLater(before, entries, after, o.since, |before.log|, |after.log|);
      }
    case Reading(since) =>
      TrackedLater(before, entries, after, w.target, o, id, w.now, true);
      if WasEmpty(before, o.since, since) {
        WasEmptyLater(before, entries, after, o.since, since, since);
      }
    case Replaying(next, end) =>
      TrackedLater(before, entries, after, w.target, o, id, w.now, true);
      ClockStays(before, entries, after, end);
      BeforeTransitive(end, before.here, after.here);
      ReplayStandsLater(before, entries, after, w.target, o, next, before.Clock(end));
    case _ =>
      if Tracked(before, w.target, o, id, w.now, true) {
        TrackedLater(before, entries, after, w.target, o, id, w.now, true);
      }
  }

  lemma RestartKeepsInv(s: Stream, w: World, from: Checkpoint, w': World)
    requires Inv(w, s.id) && Does(s, w, Restart(from), w')
    ensures Inv(w', s.id)
  {
    hide Good, KeysStay, OutOfReachIsKept;
    assert Good(w.source, w.target, w.outset, s.id, from);
    WiderHorizon(w, w');
  }

  lemma WiderHorizon(w: World, w': World)
    requires w.outset.since <= |w.source.log| && OutOfReachIsKept(w.source, w.target, w.outset, Horizon(w))
    requires w'.source == w.source && w'.target == w.target && w'.outset == w.outset && Horizon(w) <= Horizon(w')
    ensures OutOfReachIsKept(w'.source, w'.target, w'.outset, Horizon(w'))
  {
    hide Unread, SameCell;
    forall k | OutOfReach(w.source, w.outset, Horizon(w'), k) ensures SameCell(w.target, w.outset.left, k) {
      TouchedMore(w.source, k, w.outset.since, Horizon(w), w.outset.since, Horizon(w'));
      assert OutOfReach(w.source, w.outset, Horizon(w), k);
    }
  }

  lemma EmitKeepsInv(s: Stream, w: World, w': World)
    requires Inv(w, s.id) && Does(s, w, EmitState, w')
    ensures Inv(w', s.id)
  {
    hide AllCovered, ReplayStands, KeysStay, OutOfReachIsKept, WasEmpty, Within;
    forall cp | cp in w'.saved ensures Good(w'.source, w'.target, w'.outset, s.id, cp) && Follows(w', s.id, cp) {
      if cp in w.saved {
        assert Good(w.source, w.target, w.outset, s.id, cp) && Follows(w, s.id, cp);
      }
    }
  }

  /** Everything the invariant says of a state is about the stream's own bookmark. */
  lemma OwnBookmarkDecides(a: State, b: State, id: StreamId)
    requires BookmarkOf(a, id) == BookmarkOf(b, id)
    ensures NeedsFresh(a, id) <==> NeedsFresh(b, id)
    ensures Begun(a, id) <==> Begun(b, id)
    ensures Ready(a, id) <==> Ready(b, id)
    ensures forall o :: Within(o, a, id) <==> Within(o, b, id)
    ensures PosOf(a, id) == PosOf(b, id) && VersionOf(a, id) == VersionOf(b, id)
    ensures Get(a, id, MaxPk) == Get(b, id, MaxPk)
    ensures forall k, pinned :: ToRead(a, id, k, pinned) <==> ToRead(b, id, k, pinned)
  {
  }

  lemma OwnBookmarkTracks(source: Source, target: Target, o: Outset, id: StreamId, a: Checkpoint, b: Checkpoint,
                          pinned: bool)
    requires SameStream(a, b, id) && Tracked(source, target, o, id, a, pinned)
    ensures Tracked(source, target, o, id, b, pinned)
  {
    hide Begun, ToRead, PosOf, VersionOf, Fresh, Kept, Unread, Absent, Within, NeedsFresh, Ready;
    OwnBookmarkDecides(a.state, b.state, id);
    forall k ensures Covered(source, target, o, id, b, pinned, k) {
      assert Covered(source, target, o, id, a, pinned, k);
    }
  }

  lemma SyncOthersKeepsInv(s: Stream, w: World, state: State, w': World)
    requires Inv(w, s.id) && Does(s, w, SyncOthers(state), w')
    ensures Inv(w', s.id)
  {
    hide Tracked, NeedsFresh, Ready, Within, KeysStay, ReplayStands, OutOfReachIsKept, WasEmpty, Get, PosOf, VersionOf,
         Begun, ToRead;
    OwnBookmarkDecides(w.now.state, state, s.id);
    if Tracked(w.source, w.target, w.outset, s.id, w.now, true) {
      OwnBookmarkTracks(w.source, w.target, w.outset, s.id, w.now, w'.now, true);
    }
    if Tracked(w.source, w.target, w.outset, s.id, w.now, false) {
      OwnBookmarkTracks(w.source, w.target, w.outset, s.id, w.now, w'.now, false);
    }
    forall cp | cp in w'.saved ensures Good(w'.source, w'.target, w'.outset, s.id, cp) && Follows(w', s.id, cp) {
      assert Good(w.source, w.target, w.outset, s.id, cp) && Follows(w, s.id, cp);
    }
  }

  /** Before the stream's own sync, every checkpoint is as good as the process. */
  lemma AllLikeTheProcess(w: World, id: StreamId, cp: Checkpoint)
    requires Inv(w, id) && w.phase == Loaded && cp in w.saved
    ensures SameStream(cp, w.now, id)
    ensures NeedsFresh(cp.state, id) <==> NeedsFresh(w.now.state, id)
    ensures Ready(cp.state, id) <==> Ready(w.now.state, id)
  {
    assert Follows(w, id, cp);
    OwnBookmarkDecides(cp.state, w.now.state, id);
  }

  /** As the snapshot sets out, the target has every key as it was left. */
  lemma SettingOutIsTracked(source: Source, target: Target, o: Outset, id: StreamId, cp: Checkpoint)
    requires source.Valid() && Begun(cp.state, id) && VersionOf(cp.state, id) == o.version
             && PosOf(cp.state, id) == cp.floor == source.here
    requires o.left == target && o.since == |source.log| && o.last == Get(cp.state, id, LastPk)
             && o.max == Get(cp.state, id, MaxPk)
    ensures Tracked(source, target, o, id, cp, false) && Within(o, cp.state, id)
    ensures OutOfReachIsKept(source, target, o, |source.log|)
  {
    hide Begun, VersionOf, PosOf, Seen, Absent;
    BeforeTotal(source.here, source.here);
    ClockHere(source);
    forall k ensures Covered(source, target, o, id, cp, false, k) {
      assert Kept(o, source, target, k, source.Clock(cp.floor));
    }
  }

  /** A stream that starts over has typed fields. */
  lemma FreshIsTyped(w: World, id: StreamId)
    requires ProcessStands(w, id) && w.phase == Loaded
    requires RequiresHistorical(w.now.state, id) && !CanResume(w.now.state, id, false)
    ensures NeedsFresh(w.now.state, id)
  {
    if Begun(w.now.state, id) { BegunKinds(w.now.state, id); }
  }

  lemma BeginFreshKeepsInv(s: Stream, w: World, clock: int, w': World)
    requires s.replication == LogBased
    requires Inv(w, s.id) && Does(s, w, BeginFresh(clock), w')
    ensures Inv(w', s.id)
  {
    hide FreshState, Begun, PosOf, VersionOf, ActivatesFirst, Tracked, KeysStay, RequiresHistorical, CanResume,
         Activate, OutOfReachIsKept, Within;
    var st, here := w.now.state, w.source.here;
    FreshIsTyped(w, s.id);
    FreshStateIsBegun(s, st, StreamVersion(st, s.id, clock), here);
    SettingOutIsTracked(w.source, w'.target, w'.outset, s.id, w'.now);
    forall cp | cp in w'.saved ensures Good(w'.source, w'.target, w'.outset, s.id, cp) && Follows(w', s.id, cp) {
      AllLikeTheProcess(w, s.id, cp);
    }
  }

  // ----- announcements -----

  lemma AnnouncedCell(a: Target, b: Target, version: int, k: int)
    requires SameCell(a, b, k)
    ensures SameCell(Activate(a, version), Activate(b, version), k)
  {
  }

  lemma AnnouncedFresh(o: Outset, source: Source, target: Target, left: Target, k: int, lo: nat, hi: nat)
    requires Fresh(o, source, target, k, lo, hi)
    ensures Fresh(o.(left := left), source, Activate(target, o.version), k, lo, hi)
  {
    assert View(Activate(target, o.version), k) == View(target, k);
    var t :| lo <= t <= hi && t <= |source.log| && View(target, k) == source.Value(t, k);
    assert View(Activate(target, o.version), k) == source.Value(t, k);
  }

  lemma AnnouncedTracked(source: Source, target: Target, o: Outset, id: StreamId, cp: Checkpoint, pinned: bool)
    requires Tracked(source, target, o, id, cp, pinned)
    ensures Tracked(source, Activate(target, o.version), o.(left := Activate(o.left, o.version)), id, cp, pinned)
  {
    hide Begun, VersionOf, PosOf, Seen, Absent, ToRead, Touched, Activate;
    var o' := o.(left := Activate(o.left, o.version));
    forall k ensures Covered(source, Activate(target, o.version), o', id, cp, pinned, k) {
      assert Covered(source, target, o, id, cp, pinned, k);
      if Fresh(o, source, target, k, source.Clock(cp.floor), |source.log|) {
        AnnouncedFresh(o, source, target, o'.left, k, source.Clock(cp.floor), |source.log|);
      } else {
        AnnouncedCell(target, o.left, o.version, k);
      }
    }
  }

  lemma AnnouncedOutOfReach(source: Source, target: Target, o: Outset, upto: nat)
    requires o.since <= |source.log| && OutOfReachIsKept(source, target, o, upto)
    ensures OutOfReachIsKept(source, Activate(target, o.version), o.(left := Activate(o.left, o.version)), upto)
  {
    hide SameCell, Activate, Touched;
    var o' := o.(left := Activate(o.left, o.version));
    forall k | OutOfReach(source, o', upto, k) ensures SameCell(Activate(target, o.version), o'.left, k) {
      assert OutOfReach(source, o, upto, k);
      AnnouncedCell(target, o.left, o.version, k);
    }
  }

  /** An announcement of its version does no harm to any checkpoint. */
  lemma AnnouncedGood(w: World, id: StreamId, cp: Checkpoint)
    requires Good(w.source, w.target, w.outset, id, cp)
    ensures var w' := Announce(w, w.outset.version); Good(w'.source, w'.target, w'.outset, id, cp)
  {
    hide NeedsFresh, Tracked, Activate;
    if Tracked(w.source, w.target, w.outset, id, cp, true) {
      AnnouncedTracked(w.source, w.target, w.outset, id, cp, true);
    }
  }

  lemma BeginResumedKeepsInv(s: Stream, w: World, w': World)
    requires s.replication == LogBased
    requires Inv(w, s.id) && Does(s, w, BeginResumed, w')
    ensures Inv(w', s.id)
  {
    hide AllCovered, Activate, KeysStay, OutOfReachIsKept, Begun, Whitelist, PosOf, VersionOf, ActivatesFirst;
    var st := w.now.state;
    ResumedFields(s, st);
    ResumableIsTracked(w, s.id);
    AnchorDecides(w'.now.state, st, s.id);
    TrackedState(w.source, w.target, w.outset, s.id, w.now, w'.now.state, true, false);
    forall cp | cp in w.saved ensures Good(w.source, w.target, w.outset, s.id, cp) && cp.floor == w.now.floor {
      AllLikeTheProcess(w, s.id, cp);
    }
    if ActivatesFirst(w'.now.state, s.id) {
      AnnouncedTracked(w.source, w.target, w.outset, s.id, w'.now, false);
      AnnouncedOutOfReach(w.source, w.target, w.outset, |w.source.log|);
      forall cp | cp in w.saved ensures Good(w'.source, w'.target, w'.outset, s.id, cp) {
        AnnouncedGood(w, s.id, cp);
      }
    }
  }

  lemma ResumableIsTracked(w: World, id: StreamId)
    requires ProcessStands(w, id) && w.phase == Loaded && CanResume(w.now.state, id, false)
    ensures Tracked(w.source, w.target, w.outset, id, w.now, true) && Within(w.outset, w.now.state, id)
    ensures Begun(w.now.state, id) && Typed(w.now.state, id) && !NeedsFresh(w.now.state, id)
  {
    hide AllCovered, Within;
  }

  /** A change of the state that keeps the anchor and all that is left to read. */
  lemma TrackedState(source: Source, target: Target, o: Outset, id: StreamId, cp: Checkpoint, st: State, pinned: bool,
                     pinned': bool)
    requires Tracked(source, target, o, id, cp, pinned) && SameAnchor(st, cp.state, id) && Begun(st, id)
    requires Get(st, id, MaxPk).Key? ==> Within(o, st, id)
    requires forall k :: ToRead(cp.state, id, k, pinned) ==>
                           ToRead(st, id, k, pinned') || Absent(source, k, source.Clock(cp.floor), |source.log|)
    ensures Tracked(source, target, o, id, Checkpoint(st, cp.floor), pinned')
  {
    hide Begun, Typed, ToRead, PosOf, VersionOf, SameAnchor, Fresh, Kept, Absent, Unread, Within;
    var cp' := Checkpoint(st, cp.floor);
    BegunIsTyped(st, id);
    AnchorDecides(st, cp.state, id);
    forall k ensures Covered(source, target, o, id, cp', pinned', k) {
      assert Covered(source, target, o, id, cp, pinned, k);
    }
  }

  /** What the pinned maximum leaves out is not there just now. */
  lemma PinnedLeavesNoRow(source: Source, st: State, id: StreamId, max: Option<int>, lo: nat, k: int)
    requires IsMax(source, max) && Typed(st, id) && lo <= |source.log|
    requires ToRead(st, id, k, false) && !ToRead(PinnedState(id, st, max), id, k, true)
    ensures Absent(source, k, lo, |source.log|)
  {
    PinnedFields(id, st, max);
    assert source.Value(|source.log|, k) == None;
  }

  lemma PinnedWithin(o: Outset, st: State, id: StreamId, max: Option<int>)
    requires Within(o, st, id) && Typed(st, id)
    ensures Within(o, PinnedState(id, st, max), id) && Typed(PinnedState(id, st, max), id)
  {
    PinnedFields(id, st, max);
  }

  /** No maximum means no row. */
  lemma NoMaxNoRow(source: Source, st: State, id: StreamId, max: Option<int>, lo: nat)
    requires IsMax(source, max) && Get(PinnedState(id, st, max), id, MaxPk) == Null && lo <= |source.log|
    ensures WasEmpty(source, lo, |source.log|)
  {
    PinnedFields(id, st, max);
    forall k ensures Absent(source, k, lo, |source.log|) {
      assert source.Value(|source.log|, k) == None;
    }
  }

  lemma PinMaxKeepsInv(s: Stream, w: World, max: Option<int>, w': World)
    requires Inv(w, s.id) && Does(s, w, PinMax(max), w')
    ensures Inv(w', s.id)
  {
    hide AllCovered, Absent, IsMax, PinnedState, Begun, ToRead, WasEmpty, PosOf, VersionOf, KeysStay, OutOfReachIsKept,
         Within;
    var st, lo := w.now.state, w.source.Clock(w.now.floor);
    BegunIsTyped(st, s.id);
    PinnedFields(s.id, st, max);
    PinnedWithin(w.outset, st, s.id, max);
    AnchorDecides(w'.now.state, st, s.id);
    forall k | ToRead(st, s.id, k, false) && !ToRead(w'.now.state, s.id, k, true)
      ensures Absent(w.source, k, lo, |w.source.log|)
    {
      PinnedLeavesNoRow(w.source, st, s.id, max, lo, k);
    }
    TrackedState(w.source, w.target, w.outset, s.id, w.now, w'.now.state, false, true);
    if Get(w'.now.state, s.id, MaxPk) == Null {
      NoMaxNoRow(w.source, st, s.id, max, w.outset.since);
    }
    FollowersStay(w, w', s.id);
  }

  lemma BegunIsTyped(st: State, id: StreamId)
    requires Begun(st, id)
    ensures Typed(st, id)
  {
  }

  /** Between connections nothing changes for the checkpoints. */
  lemma FollowersStay(w: World, w': World, id: StreamId)
    requires Inv(w, id) && w'.source == w.source && w'.target == w.target && w'.saved == w.saved
             && w'.outset == w.outset
    requires w.phase.Connecting? || w.phase.Connected? || w.phase.Reading?
    requires w'.phase.Connecting? || w'.phase.Connected? || w'.phase.Reading?
    requires w'.now.floor == w.now.floor
    ensures forall cp :: cp in w'.saved ==> Good(w'.source, w'.target, w'.outset, id, cp) && Follows(w', id, cp)
    ensures OutOfReachIsKept(w'.source, w'.target, w'.outset, Horizon(w'))
  {
    hide Good, NeedsFresh, OutOfReachIsKept;
    forall cp | cp in w'.saved ensures Good(w'.source, w'.target, w'.outset, id, cp) && Follows(w', id, cp) {
      assert Good(w.source, w.target, w.outset, id, cp) && Follows(w, id, cp);
    }
  }

  lemma QueryKeepsInv(s: Stream, w: World, w': World)
    requires Inv(w, s.id) && Does(s, w, Query, w')
    ensures Inv(w', s.id)
  {
    hide Tracked, KeysStay, OutOfReachIsKept, WasEmpty, Within;
    FollowersStay(w, w', s.id);
  }

  lemma LoseConnectionKeepsInv(s: Stream, w: World, w': World)
    requires Inv(w, s.id) && Does(s, w, LoseConnection, w')
    ensures Inv(w', s.id)
  {
    hide AllCovered, Begun, KeysStay, OutOfReachIsKept, WasEmpty, Within;
    FollowersStay(w, w', s.id);
    TrackedState(w.source, w.target, w.outset, s.id, w.now, w.now.state, true, false);
  }

  /** A row that was read since the floor covers its key, for every checkpoint of the snapshot. */
  lemma UpsertKeepsTracked(source: Source, target: Target, o: Outset, id: StreamId, cp: Checkpoint, row: Row, at: nat)
    requires Tracked(source, target, o, id, cp, true)
    requires source.Clock(cp.floor) <= at <= |source.log| && source.Value(at, row.pk) == Some(row)
    ensures Tracked(source, Upsert(target, row, o.version, false), o, id, cp, true)
  {
    hide Begun, ToRead, PosOf, VersionOf, Within, Touched, Unread, Absent;
    var target' := Upsert(target, row, o.version, false);
    forall k ensures Covered(source, target', o, id, cp, true, k) {
      assert Covered(source, target, o, id, cp, true, k);
      if k == row.pk {
        assert View(target', k) == source.Value(at, k);
      } else {
        assert View(target', k) == View(target, k);
      }
    }
  }

  /** A row that the query may ask for was in the table to begin with, or the log has brought it. */
  lemma ReadIsInReach(source: Source, o: Outset, k: int, at: nat)
    requires KeysStay(source.log) && o.since <= at <= |source.log| && source.Value(at, k) != None && !Unread(o, k)
    ensures !OutOfReach(source, o, |source.log|, k)
  {
    if !Touched(source, k, o.since, |source.log|) {
      TouchedMore(source, k, o.since, at, o.since, |source.log|);
      UntouchedStays(source, k, o.since, at);
    }
  }

  lemma ReadOfEmptyIsInReach(source: Source, o: Outset, k: int, since: nat, at: nat)
    requires KeysStay(source.log) && o.since <= since <= at <= |source.log| && source.Value(at, k) != None
    requires WasEmpty(source, o.since, since)
    ensures !OutOfReach(source, o, |source.log|, k)
  {
    assert Absent(source, k, o.since, since);
    var t :| o.since <= t <= since && t <= |source.log| && source.Value(t, k) == None;
    if !Touched(source, k, o.since, |source.log|) {
      TouchedMore(source, k, t, at, o.since, |source.log|);
      UntouchedStays(source, k, t, at);
    }
  }

  lemma WithinIsNotUnread(o: Outset, st: State, id: StreamId, k: int)
    requires Within(o, st, id) && InRange(Get(st, id, LastPk), Get(st, id, MaxPk), k)
    ensures !Unread(o, k)
  {
  }

  lemma UpsertInReach(source: Source, target: Target, o: Outset, upto: nat, row: Row, deleted: bool)
    requires o.since <= |source.log| && OutOfReachIsKept(source, target, o, upto)
             && !OutOfReach(source, o, upto, row.pk)
    ensures OutOfReachIsKept(source, Upsert(target, row, o.version, deleted), o, upto)
  {
    hide OutOfReach;
    var target' := Upsert(target, row, o.version, deleted);
    forall k | OutOfReach(source, o, upto, k) ensures SameCell(target', o.left, k) {
      assert SameCell(target, o.left, k) && k != row.pk;
    }
  }

  lemma ReadRowIsInReach(s: Stream, w: World, row: Row, at: nat, w': World)
    requires Inv(w, s.id) && Does(s, w, ReadRow(row, at), w')
    ensures !OutOfReach(w.source, w.outset, |w.source.log|, row.pk)
  {
    hide OutOfReach, OutOfReachIsKept, AllCovered, KeysStay, WasEmpty, Unread, Within, InRange, Skipped, Good;
    if Get(w.now.state, s.id, MaxPk) == Null {
      ReadOfEmptyIsInReach(w.source, w.outset, row.pk, w.phase.since, at);
    } else {
      WithinIsNotUnread(w.outset, w.now.state, s.id, row.pk);
      ReadIsInReach(w.source, w.outset, row.pk, at);
    }
  }

  lemma AdvancedWithin(s: Stream, o: Outset, st: State, row: Row)
    requires s.replication == LogBased && Within(o, st, s.id) && Typed(st, s.id)
    requires Truthy(Get(st, s.id, MaxPk)) ==> InRange(Get(st, s.id, LastPk), Get(st, s.id, MaxPk), row.pk)
    ensures Within(o, Advance(s, st, row), s.id) && Typed(Advance(s, st, row), s.id)
  {
    AdvanceFields(s, st, row);
  }

  /** Moving the last key passes over keys that had no row, and over the row that is out. */
  lemma AdvanceSkips(s: Stream, w: World, row: Row, k: int)
    requires s.replication == LogBased && w.phase.Reading? && Typed(w.now.state, s.id)
    requires Truthy(Get(w.now.state, s.id, MaxPk)) ==> forall k :: k < row.pk ==> Skipped(w, s.id, k, w.phase.since)
    requires ToRead(w.now.state, s.id, k, true) && !ToRead(Advance(s, w.now.state, row), s.id, k, true) && k != row.pk
    requires w.source.Clock(w.now.floor) <= w.phase.since
    ensures Absent(w.source, k, w.source.Clock(w.now.floor), |w.source.log|)
  {
    hide Absent;
    AdvanceFields(s, w.now.state, row);
    assert Skipped(w, s.id, k, w.phase.since);
    AbsentWider(w.source, k, w.phase.since, |w.source.log|, w.source.Clock(w.now.floor), |w.source.log|);
  }

  /** Once the row is out, the state may say so. */
  lemma AdvanceIsTracked(s: Stream, w: World, row: Row, target: Target)
    requires s.replication == LogBased && w.phase.Reading?
    requires Truthy(Get(w.now.state, s.id, MaxPk)) ==> forall k :: k < row.pk ==> Skipped(w, s.id, k, w.phase.since)
    requires w.source.Clock(w.now.floor) <= w.phase.since
    requires Tracked(w.source, target, w.outset, s.id, w.now, true)
    requires Fresh(w.outset, w.source, target, row.pk, w.source.Clock(w.now.floor), |w.source.log|)
    requires Within(w.outset, Advance(s, w.now.state, row), s.id) && Typed(Advance(s, w.now.state, row), s.id)
    ensures Tracked(w.source, target, w.outset, s.id, Checkpoint(Advance(s, w.now.state, row), w.now.floor), true)
  {
    hide Advance, Begun, ToRead, PosOf, VersionOf, SameAnchor, Fresh, Kept, Absent, Unread, Within, Skipped, Typed;
    var st, cp' := w.now.state, Checkpoint(Advance(s, w.now.state, row), w.now.floor);
    BegunIsTyped(st, s.id);
    AdvanceFields(s, st, row);
    AnchorDecides(cp'.state, st, s.id);
    forall k ensures Covered(w.source, target, w.outset, s.id, cp', true, k) {
      assert Covered(w.source, target, w.outset, s.id, w.now, true, k);
      if ToRead(st, s.id, k, true) && !ToRead(cp'.state, s.id, k, true) && k != row.pk {
        AdvanceSkips(s, w, row, k);
      }
    }
  }

  lemma RowIsFresh(source: Source, target: Target, o: Outset, row: Row, lo: nat, at: nat)
    requires lo <= at <= |source.log| && source.Value(at, row.pk) == Some(row)
    ensures Fresh(o, source, Upsert(target, row, o.version, false), row.pk, lo, |source.log|)
  {
    assert View(Upsert(target, row, o.version, false), row.pk) == source.Value(at, row.pk);
  }

  lemma ReadRowKeepsInv(s: Stream, w: World, row: Row, at: nat, w': World)
    requires s.replication == LogBased
    requires Inv(w, s.id) && Does(s, w, ReadRow(row, at), w')
    ensures Inv(w', s.id)
  {
    hide AllCovered, Fresh, Advance, Skipped, Upsert, Begun, PosOf, VersionOf, KeysStay, OutOfReach, OutOfReachIsKept,
         Within, Typed, WasEmpty, InRange;
    var st, o, lo := w.now.state, w.outset, w.source.Clock(w.now.floor);
    BegunIsTyped(st, s.id);
    AdvanceFields(s, st, row);
    AdvancedWithin(s, o, st, row);
    UpsertKeepsTracked(w.source, w.target, o, s.id, w.now, row, at);
    RowIsFresh(w.source, w.target, o, row, lo, at);
    AdvanceIsTracked(s, w, row, w'.target);
    ReadRowIsInReach(s, w, row, at, w');
    UpsertInReach(w.source, w.target, o, |w.source.log|, row, false);
    forall cp | cp in w'.saved ensures Good(w'.source, w'.target, w'.outset, s.id, cp) && Follows(w', s.id, cp) {
      ReadRowKeepsGood(s, w, row, at, w', cp);
    }
  }

  lemma ReadRowKeepsGood(s: Stream, w: World, row: Row, at: nat, w': World, cp: Checkpoint)
    requires Inv(w, s.id) && Does(s, w, ReadRow(row, at), w') && cp in w'.saved
    ensures Good(w'.source, w'.target, w'.outset, s.id, cp) && Follows(w', s.id, cp)
  {
    hide AllCovered, Advance, Skipped, Upsert, Begun, PosOf, KeysStay, OutOfReachIsKept, Within, WasEmpty, InRange,
         NeedsFresh;
    assert Good(w.source, w.target, w.outset, s.id, cp) && Follows(w, s.id, cp);
    if !NeedsFresh(cp.state, s.id) {
      UpsertKeepsTracked(w.source, w.target, w.outset, s.id, cp, row, at);
    }
  }

  lemma FinishSnapshotKeepsInv(s: Stream, w: World, w': World)
    requires Inv(w, s.id) && Does(s, w, FinishSnapshot, w')
    ensures Inv(w', s.id)
  {
    hide AllCovered, Absent, Settled, Begun, Activate, PosOf, VersionOf, KeysStay, OutOfReachIsKept, Within, WasEmpty,
         InRange;
    var st, lo := w.now.state, w.source.Clock(w.now.floor);
    SettledFields(st, s.id);
    BegunIsTyped(st, s.id);
    AnchorDecides(w'.now.state, st, s.id);
    forall k | ToRead(st, s.id, k, true) ensures Absent(w.source, k, lo, |w.source.log|) {
      assert Skipped(w, s.id, k, w.phase.since);
      AbsentWider(w.source, k, w.phase.since, |w.source.log|, lo, |w.source.log|);
    }
    TrackedState(w.source, w.target, w.outset, s.id, w.now, w'.now.state, true, true);
    AnnouncedTracked(w.source, w.target, w.outset, s.id, w'.now, true);
    AnnouncedOutOfReach(w.source, w.target, w.outset, |w.source.log|);
    forall cp | cp in w'.saved ensures Good(w'.source, w'.target, w'.outset, s.id, cp) && Follows(w', s.id, cp) {
      assert Good(w.source, w.target, w.outset, s.id, cp);
      AnnouncedGood(w, s.id, cp);
    }
  }

  // ----- the log is read -----

  /** Reading from an earlier change on leaves less untouched. */
  lemma KeptFrom(o: Outset, source: Source, target: Target, k: int, upto: nat, from: nat)
    requires Kept(o, source, target, k, upto) && from <= upto
    ensures Kept(ReadingFrom(o, from), source, target, k, from)
  {
  }

  lemma FreshWider(o: Outset, o': Outset, source: Source, target: Target, k: int, lo: nat, hi: nat, lower: nat,
                   higher: nat)
    requires Fresh(o, source, target, k, lo, hi) && lower <= lo && hi <= higher && o'.version == o.version
    ensures Fresh(o', source, target, k, lower, higher)
  {
    SeenWider(source, target, k, lo, hi, lower, higher);
  }

  lemma TrackedFrom(source: Source, target: Target, o: Outset, id: StreamId, cp: Checkpoint, start: Pos)
    requires source.Valid() && Tracked(source, target, o, id, cp, true) && AtMost(start, cp.floor)
    ensures Tracked(source, target, ReadingFrom(o, source.Clock(start)), id, Checkpoint(cp.state, start), true)
  {
    hide Begun, PosOf, VersionOf, Kept, Fresh, Absent, ToRead, Unread;
    var o', cp', from := ReadingFrom(o, source.Clock(start)), Checkpoint(cp.state, start), source.Clock(cp.floor);
    BeforeTransitive(start, cp.floor, PosOf(cp.state, id));
    ClockMonotone(source, start, cp.floor);
    forall k ensures Covered(source, target, o', id, cp', true, k) {
      assert Covered(source, target, o, id, cp, true, k);
      CoveredFrom(source, target, o, id, cp, start, k);
    }
  }

  lemma CoveredFrom(source: Source, target: Target, o: Outset, id: StreamId, cp: Checkpoint, start: Pos, k: int)
    requires source.Clock(start) <= source.Clock(cp.floor) && Covered(source, target, o, id, cp, true, k)
    ensures Covered(source, target, ReadingFrom(o, source.Clock(start)), id, Checkpoint(cp.state, start), true, k)
  {
    hide Kept, Fresh, Absent, ToRead;
    var from, lower := source.Clock(cp.floor), source.Clock(start);
    if Fresh(o, source, target, k, from, |source.log|) {
      FreshWider(o, ReadingFrom(o, lower), source, target, k, from, |source.log|, lower, |source.log|);
    } else {
      KeptFrom(o, source, target, k, from, lower);
      if Absent(source, k, from, |source.log|) {
        AbsentWider(source, k, from, |source.log|, lower, |source.log|);
      }
    }
  }

  lemma OutOfReachFrom(source: Source, target: Target, o: Outset, from: nat, upto: nat)
    requires KeysStay(source.log) && o.since <= upto <= |source.log| && OutOfReachIsKept(source, target, o, upto)
    ensures OutOfReachIsKept(source, target, ReadingFrom(o, from), upto)
  {
    hide SameCell, KeysStay;
    var o' := ReadingFrom(o, from);
    forall k | OutOfReach(source, o', upto, k) ensures SameCell(target, o'.left, k) {
      TouchedMore(source, k, o.since, upto, o'.since, upto);
      TouchedMore(source, k, o'.since, o.since, o'.since, upto);
      UntouchedStays(source, k, o'.since, o.since);
      assert OutOfReach(source, o, upto, k);
    }
  }

  /** A checkpoint that is ready accounts for every key as a replay needs it. */
  lemma ReadyStands(source: Source, target: Target, o: Outset, id: StreamId, cp: Checkpoint)
    requires Tracked(source, target, o, id, cp, true) && Ready(cp.state, id) && o.since <= source.Clock(cp.floor)
    ensures ReplayStands(source, target, o, source.Clock(cp.floor), |source.log|)
  {
    hide Begun, PosOf, VersionOf, Kept, Fresh, Absent, Unread, InRange;
    var from := source.Clock(cp.floor);
    forall k ensures ReplayStandsAt(source, target, o, from, |source.log|, k) {
      assert Covered(source, target, o, id, cp, true, k);
      if Absent(source, k, from, |source.log|) {
        AbsentWider(source, k, from, |source.log|, o.since, |source.log|);
      }
    }
  }

  lemma BeginReplayKeepsInv(s: Stream, w: World, start: Pos, w': World)
    requires Inv(w, s.id) && Does(s, w, BeginReplay(start), w')
    ensures Inv(w', s.id)
  {
    hide AllCovered, ReplayStands, Begun, PosOf, VersionOf, KeysStay, OutOfReachIsKept, Within, Whitelist, NeedsFresh,
         RequiresHistorical;
    var st := w.now.state;
    ReadyInTheEnd(w, s.id);
    ReplayFields(st, s.id);
    BegunIsTyped(st, s.id);
    AnchorDecides(w'.now.state, st, s.id);
    TrackedFrom(w.source, w.target, w.outset, s.id, w.now, start);
    TrackedState(w.source, w.target, w'.outset, s.id, Checkpoint(st, start), w'.now.state, true, true);
    ReadyStands(w.source, w.target, w'.outset, s.id, w'.now);
    ClockHere(w.source);
    BeforeTotal(w.source.here, w.source.here);
    OutOfReachFrom(w.source, w.target, w.outset, w.source.Clock(start), |w.source.log|);
    forall lower | lower in w'.saved
      ensures Good(w'.source, w'.target, w'.outset, s.id, lower) && Follows(w', s.id, lower)
    {
      var before :| before in w.saved && lower == Checkpoint(before.state, start);
      AllLikeTheProcess(w, s.id, before);
      OwnBookmarkTracks(w.source, w.target, w.outset, s.id, w.now, before, true);
      TrackedFrom(w.source, w.target, w.outset, s.id, before, start);
    }
  }

  lemma ReadyInTheEnd(w: World, id: StreamId)
    requires ProcessStands(w, id) && w.phase == Loaded && !RequiresHistorical(w.now.state, id)
    ensures Tracked(w.source, w.target, w.outset, id, w.now, true) && Begun(w.now.state, id) && Ready(w.now.state, id)
    ensures !NeedsFresh(w.now.state, id)
  {
    BegunKinds(w.now.state, id);
  }

  lemma ReplayedCell(o: Outset, target: Target, c: Change, k: int)
    requires !About(c, k)
    ensures SameCell(Replay(target, c, o.version), target, k)
  {
  }

  lemma ReplayedIsFresh(o: Outset, source: Source, target: Target, n: nat, lo: nat, hi: nat, k: int)
    requires n < |source.log| && lo <= n + 1 <= hi && KeysStay(source.log) && About(source.log[n].change, k)
    ensures Fresh(o, source, Replay(target, source.log[n].change, o.version), k, lo, hi)
  {
    var after := Replay(target, source.log[n].change, o.version);
    assert source.Value(n + 1, k) == Effect(source.log[n].change, k, source.Value(n, k));
    assert View(after, k) == source.Value(n + 1, k);
  }

  lemma ReplayKeepsCovered(source: Source, target: Target, o: Outset, id: StreamId, cp: Checkpoint, n: nat, k: int)
    requires KeysStay(source.log) && n < |source.log| && source.Clock(cp.floor) <= n
    requires Covered(source, target, o, id, cp, true, k)
    ensures Covered(source, Replay(target, source.log[n].change, o.version), o, id, cp, true, k)
  {
    hide Unread, ToRead, Absent, Touched, KeysStay, Replay;
    var c, from := source.log[n].change, source.Clock(cp.floor);
    if About(c, k) {
      ReplayedIsFresh(o, source, target, n, from, |source.log|, k);
    } else {
      ReplayedCell(o, target, c, k);
      SameCellIsSeen(source, target, Replay(target, c, o.version), k, from, |source.log|);
    }
  }

  lemma SameCellIsSeen(source: Source, a: Target, b: Target, k: int, lo: nat, hi: nat)
    requires SameCell(b, a, k)
    ensures Seen(source, a, k, lo, hi) ==> Seen(source, b, k, lo, hi)
  {
    assert View(a, k) == View(b, k);
  }

  lemma ReplayKeepsTracked(source: Source, target: Target, o: Outset, id: StreamId, cp: Checkpoint, n: nat)
    requires KeysStay(source.log) && n < |source.log| && source.Clock(cp.floor) <= n
    requires Tracked(source, target, o, id, cp, true)
    ensures Tracked(source, Replay(target, source.log[n].change, o.version), o, id, cp, true)
  {
    hide Begun, PosOf, VersionOf, Within, Covered, KeysStay, Replay;
    forall k ensures Covered(source, Replay(target, source.log[n].change, o.version), o, id, cp, true, k) {
      assert Covered(source, target, o, id, cp, true, k);
      ReplayKeepsCovered(source, target, o, id, cp, n, k);
    }
  }

  /** One change replayed moves on what the replay has to account for. */
  lemma ReplayAdvancesAt(source: Source, target: Target, o: Outset, n: nat, end: nat, k: int)
    requires n < |source.log| && n < end && KeysStay(source.log) && ReplayStandsAt(source, target, o, n, end, k)
    ensures ReplayStandsAt(source, Replay(target, source.log[n].change, o.version), o, n + 1, end, k)
  {
    hide Unread, Absent, KeysStay, Replay, Seen;
    var c := source.log[n].change;
    if About(c, k) {
      ReplayedIsFresh(o, source, target, n, n + 1, end, k);
    } else {
      ReplayedCell(o, target, c, k);
      if Fresh(o, source, target, k, n, end) {
        ReplayAdvances(source, target, o.version, n, end, k);
      } else {
        TouchedByOne(source, k, o.since, n);
      }
    }
  }

  lemma TouchedByOne(source: Source, k: int, from: nat, n: nat)
    requires n < |source.log| && !About(source.log[n].change, k)
    ensures Touched(source, k, from, n + 1) ==> Touched(source, k, from, n)
  {
  }

  lemma ReplayedInReach(source: Source, target: Target, o: Outset, n: nat, upto: nat)
    requires o.since <= n < upto <= |source.log| && OutOfReachIsKept(source, target, o, upto)
    ensures OutOfReachIsKept(source, Replay(target, source.log[n].change, o.version), o, upto)
  {
    var c := source.log[n].change;
    forall k | OutOfReach(source, o, upto, k) ensures SameCell(Replay(target, c, o.version), o.left, k) {
      assert SameCell(target, o.left, k) && !About(c, k);
      ReplayedCell(o, target, c, k);
    }
  }

  lemma ReplayOneKeepsInv(s: Stream, w: World, w': World)
    requires Inv(w, s.id) && Does(s, w, ReplayOne, w')
    ensures Inv(w', s.id)
  {
    hide AllCovered, Replay, NeedsFresh, Ready, Begun, PosOf, VersionOf, KeysStay, OutOfReachIsKept, Within,
         ReplayStandsAt, AtMost, Before;
    var n, end, o := w.phase.next, w.source.Clock(w.phase.end), w.outset;
    ClockSplits(w.source, w.phase.end);
    ReplayKeepsTracked(w.source, w.target, o, s.id, w.now, n);
    var next := n + 1;
    forall k ensures ReplayStandsAt(w.source, w'.target, o, next, end, k) {
      assert ReplayStandsAt(w.source, w.target, o, n, end, k);
      ReplayAdvancesAt(w.source, w.target, o, n, end, k);
    }
    ReplayedInReach(w.source, w.target, o, n, end);
    forall cp | cp in w'.saved ensures Good(w'.source, w'.target, w'.outset, s.id, cp) && Follows(w', s.id, cp) {
      assert Good(w.source, w.target, w.outset, s.id, cp) && Follows(w, s.id, cp);
      ReplayKeepsTracked(w.source, w.target, o, s.id, cp, n);
    }
  }

  /** What the replay has to account for is what a checkpoint at a change it has passed accounts for. */
  lemma StandsIsCovered(source: Source, target: Target, o: Outset, id: StreamId, cp: Checkpoint, next: nat, end: nat,
                        k: int)
    requires source.Clock(cp.floor) <= next && end <= |source.log| && KeysStay(source.log)
    requires ReplayStandsAt(source, target, o, next, end, k)
    ensures Covered(source, target, o, id, cp, true, k)
  {
    hide Unread, KeysStay, Seen, SameCell;
    var from := source.Clock(cp.floor);
    if Fresh(o, source, target, k, next, end) {
      FreshWider(o, o, source, target, k, next, end, from, |source.log|);
    } else {
      TouchedMore(source, k, o.since, from, o.since, next);
      if Unread(o, k) {
      } else if from < o.since {
        AbsentWider(source, k, o.since, end, from, |source.log|);
      } else {
        AbsentSoFar(source, k, o.since, from, end);
      }
    }
  }

  /** A key that was absent and is untouched up to a time is absent from then on, or was absent then. */
  lemma AbsentSoFar(source: Source, k: int, lo: nat, from: nat, hi: nat)
    requires lo <= from <= |source.log| && hi <= |source.log| && KeysStay(source.log)
    requires Absent(source, k, lo, hi) && !Touched(source, k, lo, from)
    ensures Absent(source, k, from, |source.log|)
  {
    var t :| lo <= t <= hi && t <= |source.log| && source.Value(t, k) == None;
    if t < from {
      TouchedMore(source, k, t, from, lo, from);
      UntouchedStays(source, k, t, from);
      assert source.Value(from, k) == None;
    } else {
      assert source.Value(t, k) == None;
    }
  }

  lemma MoveKeepsInv(s: Stream, w: World, to: Pos, w': World)
    requires Inv(w, s.id) && Does(s, w, MoveBookmarks(to), w')
    ensures Inv(w', s.id)
  {
    hide Covered, Moved, Begun, NeedsFresh, PosOf, VersionOf, KeysStay, OutOfReachIsKept, Within, ReplayStandsAt,
         Before, Ready;
    var next, end, o := w.phase.next, w.source.Clock(w.phase.end), w.outset;
    MovedFields(w.now.state, s.id, to);
    BeforeTotal(to, to);
    ReadyHasNoMax(w'.now.state, s.id);
    forall k ensures Covered(w.source, w.target, o, s.id, w'.now, true, k) {
      assert ReplayStandsAt(w.source, w.target, o, next, end, k);
      StandsIsCovered(w.source, w.target, o, s.id, w'.now, next, end, k);
    }
    forall cp | cp in w'.saved ensures Good(w'.source, w'.target, o, s.id, cp) && Follows(w', s.id, cp) {
      assert Good(w.source, w.target, o, s.id, cp) && Follows(w, s.id, cp);
    }
  }

  lemma ReadyHasNoMax(st: State, id: StreamId)
    requires Ready(st, id)
    ensures !Get(st, id, MaxPk).Key?
  {
  }

  lemma FinishReplayKeepsInv(s: Stream, w: World, w': World)
    requires Inv(w, s.id) && Does(s, w, FinishReplay, w')
    ensures Inv(w', s.id)
  {
    hide Tracked, NeedsFresh, KeysStay, OutOfReachIsKept, ReplayStands, Ready;
    WiderHorizon(w, w');
    forall cp | cp in w'.saved ensures Good(w'.source, w'.target, w'.outset, s.id, cp) && Follows(w', s.id, cp) {
      assert Good(w.source, w.target, w.outset, s.id, cp);
    }
  }

  lemma StepKeepsInv(s: Stream, w: World, step: Step, w': World)
    requires s.replication == LogBased && Inv(w, s.id) && Does(s, w, step, w')
    ensures Inv(w', s.id)
  {
    hide Inv;
    match step
    case Commit(entries, _) => CommitKeepsInv(w, s.id, entries, w');
    case Restart(from) => RestartKeepsInv(s, w, from, w');
    case EmitState => EmitKeepsInv(s, w, w');
    case SyncOthers(state) => SyncOthersKeepsInv(s, w, state, w');
    case BeginFresh(clock) => BeginFreshKeepsInv(s, w, clock, w');
    case BeginResumed => BeginResumedKeepsInv(s, w, w');
    case PinMax(max) => PinMaxKeepsInv(s, w, max, w');
    case Query => QueryKeepsInv(s, w, w');
    case LoseConnection => LoseConnectionKeepsInv(s, w, w');
    case ReadRow(row, at) => ReadRowKeepsInv(s, w, row, at, w');
    case FinishSnapshot => FinishSnapshotKeepsInv(s, w, w');
    case BeginReplay(start) => BeginReplayKeepsInv(s, w, start, w');
    case ReplayOne => ReplayOneKeepsInv(s, w, w');
    case MoveBookmarks(to) => MoveKeepsInv(s, w, to, w');
    case FinishReplay => FinishReplayKeepsInv(s, w, w');
  }

  // ----- whole runs -----

  /** Any stream that needs a fresh snapshot, a source whose updates keep their keys, and any target. */
  ghost predicate Starts(s: Stream, w: World) {
    && s.replication == LogBased
    && w.source.Valid() && KeysStay(w.source.log)
    && w.phase == Loaded && w.saved == {w.now} && NeedsFresh(w.now.state, s.id)
    && w.outset == Outset(0, w.target, |w.source.log|, Null, Null)
  }

  /** Any interleaving of source, processes and crashes. */
  ghost predicate History(s: Stream, worlds: seq<World>, steps: seq<Step>) {
    && |worlds| == |steps| + 1 && Starts(s, worlds[0])
    && forall i :: 0 <= i < |steps| ==> Does(s, worlds[i], steps[i], worlds[i + 1])
  }

  lemma StepOf(s: Stream, worlds: seq<World>, steps: seq<Step>, i: nat)
    requires History(s, worlds, steps) && i < |steps|
    ensures |worlds| == |steps| + 1 && s.replication == LogBased && Does(s, worlds[i], steps[i], worlds[i + 1])
  {
    hide Does, NeedsFresh;
  }

  lemma {:induction false} HistoriesKeepInv(s: Stream, worlds: seq<World>, steps: seq<Step>, i: nat)
    requires History(s, worlds, steps) && i < |worlds|
    ensures Inv(worlds[i], s.id)
    decreases i
  {
    hide Does, Inv;
    if i == 0 {
      StartKeepsInv(s, worlds[0]);
    } else {
      HistoriesKeepInv(s, worlds, steps, i - 1);
      StepOf(s, worlds, steps, i - 1);
      StepKeepsInv(s, worlds[i - 1], steps[i - 1], worlds[i]);
    }
  }

  lemma StartKeepsInv(s: Stream, w: World)
    requires Starts(s, w)
    ensures Inv(w, s.id)
  {
    hide NeedsFresh, KeysStay;
  }

  /** The target shows exactly the table as it was at the coordinates. */
  ghost predicate ShowsTableAt(source: Source, target: Target, at: Pos) {
    forall k :: View(target, k) == source.Value(source.Clock(at), k)
  }

  /** What the snapshot left at the key does no harm: the log touches it after all; or the snapshot
      asks for it, and nothing was left or there is a row; or it never asks for it, and what was left
      is what the table has. */
  ghost predicate Harmless(o: Outset, source: Source, end: nat, k: int)
    requires end <= |source.log|
  {
    || Touched(source, k, o.since, end)
    || (if Unread(o, k) then View(o.left, k) == source.Value(end, k)
        else View(o.left, k) == None || source.Value(end, k) != None)
  }

  /** Snapshot plus log: whatever was committed in between, however often processes died and whichever
      STATE they restarted from, a completed binlog run leaves the target equal to the source table at
      the run's end position exactly when what the last fresh snapshot found, in the target and in its
      bookmark, is harmless at every key. */
  lemma SnapshotPlusLogConvergesExactlyWhenHarmless(s: Stream, worlds: seq<World>, steps: seq<Step>, i: nat)
    requires History(s, worlds, steps) && i < |steps| && steps[i].FinishReplay?
    ensures var w, w' := worlds[i], worlds[i + 1];
            && w.phase.Replaying?
            && (ShowsTableAt(w'.source, w'.target, w.phase.end)
                <==> forall k :: Harmless(w.outset, w.source, w.source.Clock(w.phase.end), k))
  {
    hide History, Inv, ShowsTableAt, Harmless;
    StepOf(s, worlds, steps, i);
    HistoriesKeepInv(s, worlds, steps, i);
    ReplayEndsExactly(s, worlds[i], worlds[i + 1]);
  }

  lemma ReplayEndsExactly(s: Stream, w: World, w': World)
    requires Inv(w, s.id) && Does(s, w, FinishReplay, w')
    ensures ShowsTableAt(w'.source, w'.target, w.phase.end)
       <==> forall k :: Harmless(w.outset, w.source, w.source.Clock(w.phase.end), k)
  {
    hide Inv, Harmless, ReplayStandsAt, KeysStay, OutOfReachIsKept;
    ReplayIsWithin(w, s.id);
    NothingBeforeTheEndIsLeft(w.source, w.phase.next, w.phase.end);
    var end := w.source.Clock(w.phase.end);
    forall k ensures View(w'.target, k) == w.source.Value(end, k) <==> Harmless(w.outset, w.source, end, k) {
      assert ReplayStandsAt(w.source, w.target, w.outset, end, end, k);
      ReplayEndsAt(w.source, w.target, w.outset, end, k);
    }
  }

  lemma ReplayEndsAt(source: Source, target: Target, o: Outset, end: nat, k: int)
    requires o.since <= end <= |source.log| && KeysStay(source.log) && ReplayStandsAt(source, target, o, end, end, k)
    requires OutOfReachIsKept(source, target, o, end)
    ensures View(target, k) == source.Value(end, k) <==> Harmless(o, source, end, k)
  {
    hide KeysStay, Unread;
    if Fresh(o, source, target, k, end, end) {
      SeenExactly(source, target, k, end);
      if !Touched(source, k, o.since, end) {
        UntouchedStays(source, k, o.since, end);
        OutOfReachIsAsLeft(source, target, o, end, k);
      }
    } else if !Unread(o, k) {
      AbsentThroughout(source, k, o.since, end);
    }
  }

  lemma OutOfReachIsAsLeft(source: Source, target: Target, o: Outset, end: nat, k: int)
    requires o.since <= |source.log| && OutOfReachIsKept(source, target, o, end)
    ensures OutOfReach(source, o, end, k) ==> View(target, k) == View(o.left, k)
  {
    hide OutOfReach;
    if OutOfReach(source, o, end, k) { assert SameCell(target, o.left, k); }
  }

  lemma AbsentThroughout(source: Source, k: int, lo: nat, hi: nat)
    requires lo <= hi <= |source.log| && KeysStay(source.log) && Absent(source, k, lo, hi)
             && !Touched(source, k, lo, hi)
    ensures source.Value(hi, k) == None
  {
    var t :| lo <= t <= hi && t <= |source.log| && source.Value(t, k) == None;
    TouchedMore(source, k, t, hi, lo, hi);
    UntouchedStays(source, k, t, hi);
  }

  lemma ReplayIsWithin(w: World, id: StreamId)
    requires Inv(w, id) && w.phase.Replaying?
    ensures w.source.Valid() && KeysStay(w.source.log) && w.outset.since <= w.phase.next <= w.source.Clock(w.phase.end)
    ensures ReplayStands(w.source, w.target, w.outset, w.phase.next, w.source.Clock(w.phase.end))
    ensures OutOfReachIsKept(w.source, w.target, w.outset, w.source.Clock(w.phase.end))
  {
    hide AllCovered, ReplayStands, KeysStay, OutOfReachIsKept, Begun, Within, Good;
  }

  lemma NothingBeforeTheEndIsLeft(source: Source, next: nat, end: Pos)
    requires source.Valid() && next <= source.Clock(end)
    requires next < |source.log| ==> !Before(source.log[next].at, end)
    ensures next == source.Clock(end)
  {
    ClockSplits(source, end);
  }

  lemma SeenExactly(source: Source, target: Target, k: int, t: nat)
    requires t <= |source.log| && Seen(source, target, k, t, t)
    ensures View(target, k) == source.Value(t, k)
  {
  }

  // ----- what the last fresh snapshot found -----

  /** As the process begins the snapshot it can be read off the state and the target; afterwards the
      target only drops cells of other versions, and the log is read from no later change. */
  ghost predicate SetOutFrom(w: World, o: Outset, id: StreamId, clock: int) {
    && o.version == StreamVersion(w.now.state, id, clock)
    && o.last == Get(w.now.state, id, LastPk) && o.max == Get(w.now.state, id, MaxPk)
    && (o.left == w.target || o.left == Activate(w.target, o.version))
    && o.since <= |w.source.log|
  }

  lemma {:induction false} OutsetIsOfTheLastFreshStart(s: Stream, worlds: seq<World>, steps: seq<Step>, b: nat, i: nat)
    requires History(s, worlds, steps) && b < i <= |steps| && steps[b].BeginFresh?
    requires forall j :: b < j < i ==> !steps[j].BeginFresh?
    ensures SetOutFrom(worlds[b], worlds[i].outset, s.id, steps[b].clock)
    decreases i
  {
    hide Does, Inv, SetOutFrom;
    StepOf(s, worlds, steps, i - 1);
    HistoriesKeepInv(s, worlds, steps, i - 1);
    if i == b + 1 {
      BeginFreshSetsOut(s, worlds[b], steps[b].clock, worlds[i]);
    } else {
      OutsetIsOfTheLastFreshStart(s, worlds, steps, b, i - 1);
      StepKeepsOutset(s, worlds[b], steps[b].clock, worlds[i - 1], steps[i - 1], worlds[i]);
    }
  }

  lemma BeginFreshSetsOut(s: Stream, w: World, clock: int, w': World)
    requires s.replication == LogBased && Inv(w, s.id) && Does(s, w, BeginFresh(clock), w')
    ensures SetOutFrom(w, w'.outset, s.id, clock)
  {
    hide FreshState, ActivatesFirst, Activate, RequiresHistorical, CanResume, Begun, PosOf, VersionOf;
    FreshIsTyped(w, s.id);
    FreshStateIsBegun(s, w.now.state, StreamVersion(w.now.state, s.id, clock), w.source.here);
  }

  lemma StepKeepsOutset(s: Stream, first: World, clock: int, w: World, step: Step, w': World)
    requires Inv(w, s.id) && Does(s, w, step, w') && !step.BeginFresh? && SetOutFrom(first, w.outset, s.id, clock)
    requires s.replication == LogBased
    ensures SetOutFrom(first, w'.outset, s.id, clock)
  {
    hide Inv, Activate, StreamVersion, Replay, Whitelist, Settled, Moved, Advance, Commits, VersionOf, PinnedState,
         IsMax, ActivatesFirst, RequiresHistorical, CanResume, Skipped;
    AnnouncesItsVersion(s, w, step, w');
    AnnounceTwice(first.target, w.outset.version);
  }

  lemma AnnounceTwice(target: Target, version: int)
    ensures Activate(Activate(target, version), version) == Activate(target, version)
  {
  }

  /** Only the version of the snapshot is ever announced. */
  lemma AnnouncesItsVersion(s: Stream, w: World, step: Step, w': World)
    requires s.replication == LogBased && Inv(w, s.id) && Does(s, w, step, w')
    ensures step.BeginResumed? || step.FinishSnapshot? ==>
              w'.outset == w.outset || w'.outset == w.outset.(left := Activate(w.outset.left, w.outset.version))
  {
    hide AllCovered, Activate, KeysStay, OutOfReachIsKept, Begun, Whitelist, PosOf, VersionOf, Within, WasEmpty,
         Skipped, Settled, ActivatesFirst;
    match step
    case BeginResumed =>
      ResumedFields(s, w.now.state);
      BegunIsTyped(w.now.state, s.id);
      AnchorDecides(w'.now.state, w.now.state, s.id);
    case FinishSnapshot => SettledFields(w.now.state, s.id);
    case _ =>
  }

  // ----- a stream without a bookmark -----

  /** The stream has no bookmark that counts. */
  predicate Blank(st: State, id: StreamId) {
    && !Truthy(Get(st, id, LogFile)) && !Truthy(Get(st, id, Field.Gtid)) && Get(st, id, Version) == Null
    && Get(st, id, MaxPk) == Null && Get(st, id, LastPk) == Null && !Truthy(Get(st, id, InitialFullTableComplete))
  }

  /** Nothing was left, and every key is asked for. */
  predicate Clean(o: Outset) {
    o.left == map[] && o.last == Null && o.max == Null
  }

  lemma CleanIsHarmless(o: Outset, source: Source, end: nat)
    requires Clean(o) && end <= |source.log|
    ensures forall k :: Harmless(o, source, end, k)
  {
  }

  /** Whoever starts over does so without a bookmark, and whoever has begun was left nothing. */
  ghost predicate StaysClean(w: World, id: StreamId) {
    && (forall cp :: cp in w.saved ==> CleanCheckpoint(w.outset, id, cp))
    && CleanCheckpoint(w.outset, id, w.now)
    && (w.phase != Loaded && w.phase != Done ==> Clean(w.outset))
  }

  predicate CleanCheckpoint(o: Outset, id: StreamId, cp: Checkpoint) {
    if NeedsFresh(cp.state, id) then Blank(cp.state, id) else Clean(o)
  }

  /** The state of a scan that has begun cannot need a fresh one. */
  lemma BegunIsNotFresh(w: World, id: StreamId)
    requires StaysClean(w, id) && Begun(w.now.state, id)
    ensures !NeedsFresh(w.now.state, id) && Clean(w.outset)
    ensures Get(w.now.state, id, LastPk) != Null ==> Get(w.now.state, id, MaxPk) != Null
  {
    hide PosOf, Clean;
    BegunKinds(w.now.state, id);
  }

  lemma StaysCleanWhen(w: World, w': World, id: StreamId)
    requires StaysClean(w, id) && Clean(w'.outset) && !NeedsFresh(w'.now.state, id)
    requires forall cp :: cp in w'.saved ==> exists from :: from in w.saved + {w.now} && from.state == cp.state
    ensures StaysClean(w', id)
  {
    hide NeedsFresh, Blank, Clean;
  }

  lemma SavedAsBefore(w: World, w': World)
    requires w'.saved == w.saved
    ensures forall cp :: cp in w'.saved ==> exists from :: from in w.saved + {w.now} && from.state == cp.state
  {
    forall cp | cp in w'.saved ensures exists from :: from in w.saved + {w.now} && from.state == cp.state {
      assert cp in w.saved + {w.now} && cp.state == cp.state;
    }
  }

  lemma CleanAnnounced(w: World, version: int)
    requires Clean(w.outset)
    ensures Clean(Announce(w, version).outset)
  {
    assert forall k :: k !in Activate(map[], version);
  }

  /** A version that the target does not know leaves nothing. */
  lemma NewVersionLeavesNothing(target: Target, version: int)
    requires forall k :: k in target ==> target[k].version != version
    ensures Activate(target, version) == map[]
  {
    assert forall k :: k !in Activate(target, version);
  }

  lemma BeginFreshStaysClean(s: Stream, w: World, clock: int, w': World)
    requires s.replication == LogBased && Inv(w, s.id) && StaysClean(w, s.id) && Does(s, w, BeginFresh(clock), w')
    ensures StaysClean(w', s.id)
  {
    hide FreshState, ActivatesFirst, Activate, RequiresHistorical, CanResume, Begun, PosOf, VersionOf, AllCovered,
         KeysStay, OutOfReachIsKept;
    FreshIsTyped(w, s.id);
    FreshStateIsBegun(s, w.now.state, clock, w.source.here);
    NewVersionLeavesNothing(w.target, clock);
    BegunKinds(w'.now.state, s.id);
    SavedAsBefore(w, w');
    StaysCleanWhen(w, w', s.id);
  }

  lemma BeginResumedStaysClean(s: Stream, w: World, w': World)
    requires s.replication == LogBased && Inv(w, s.id) && StaysClean(w, s.id) && Does(s, w, BeginResumed, w')
    ensures StaysClean(w', s.id)
  {
    hide Whitelist, ActivatesFirst, Activate, RequiresHistorical, Begun, PosOf, VersionOf, AllCovered, KeysStay,
         OutOfReachIsKept, Clean;
    ResumableIsTracked(w, s.id);
    ResumedFields(s, w.now.state);
    AnchorDecides(w'.now.state, w.now.state, s.id);
    BegunKinds(w.now.state, s.id);
    BegunKinds(w'.now.state, s.id);
    CleanAnnounced(w, VersionOf(w'.now.state, s.id));
    SavedAsBefore(w, w');
    StaysCleanWhen(w, w', s.id);
  }

  lemma SnapshotStaysClean(s: Stream, w: World, step: Step, w': World)
    requires s.replication == LogBased && Inv(w, s.id) && StaysClean(w, s.id) && Does(s, w, step, w')
    requires step.PinMax? || step.ReadRow? || step.FinishSnapshot?
    ensures StaysClean(w', s.id)
  {
    hide PinnedState, IsMax, Advance, Settled, Skipped, Activate, Begun, PosOf, VersionOf, AllCovered, KeysStay,
         OutOfReachIsKept, Clean, InRange, StaysClean, WasEmpty, Within;
    var st := w.now.state;
    BegunIsNotFresh(w, s.id);
    BegunIsTyped(st, s.id);
    match step {
      case PinMax(max) => PinnedFields(s.id, st, max);
      case ReadRow(row, _) => AdvanceFields(s, st, row);
      case FinishSnapshot =>
        SettledFields(st, s.id);
        CleanAnnounced(w, VersionOf(st, s.id));
    }
    AnchorDecides(w'.now.state, st, s.id);
    BegunKinds(w'.now.state, s.id);
    SavedAsBefore(w, w');
    StaysCleanWhen(w, w', s.id);
  }

  lemma BeginReplayStaysClean(s: Stream, w: World, start: Pos, w': World)
    requires Inv(w, s.id) && StaysClean(w, s.id) && Does(s, w, BeginReplay(start), w')
    ensures StaysClean(w', s.id)
  {
    hide Whitelist, RequiresHistorical, CanResume, Begun, PosOf, AllCovered, KeysStay, OutOfReachIsKept, StaysClean,
         AtMost;
    ReadyInTheEnd(w, s.id);
    BegunIsNotFresh(w, s.id);
    BegunIsTyped(w.now.state, s.id);
    ReplayFields(w.now.state, s.id);
    AnchorDecides(w'.now.state, w.now.state, s.id);
    BegunKinds(w'.now.state, s.id);
    forall cp | cp in w'.saved ensures exists from :: from in w.saved + {w.now} && from.state == cp.state {
      var from :| from in w.saved && cp == Checkpoint(from.state, start);
      assert from in w.saved + {w.now};
    }
    StaysCleanWhen(w, w', s.id);
  }

  lemma MoveStaysClean(s: Stream, w: World, to: Pos, w': World)
    requires Inv(w, s.id) && StaysClean(w, s.id) && Does(s, w, MoveBookmarks(to), w')
    ensures StaysClean(w', s.id)
  {
    hide Moved, Begun, PosOf, AllCovered, KeysStay, OutOfReachIsKept, StaysClean, AtMost, ReplayStands, Within,
         NeedsFresh;
    BegunIsNotFresh(w, s.id);
    MovedFields(w.now.state, s.id, to);
    BegunKinds(w'.now.state, s.id);
    SavedAsBefore(w, w');
    StaysCleanWhen(w, w', s.id);
  }

  lemma StepStaysClean(s: Stream, w: World, step: Step, w': World)
    requires s.replication == LogBased && Inv(w, s.id) && StaysClean(w, s.id) && Does(s, w, step, w')
    ensures StaysClean(w', s.id)
  {
    hide Inv, NeedsFresh, Blank, Clean, Activate, StreamVersion, Replay, Whitelist, Settled, Moved, Advance, Commits,
         VersionOf, PinnedState, IsMax, ActivatesFirst, RequiresHistorical, CanResume, Skipped;
    match step
    case BeginFresh(clock) => BeginFreshStaysClean(s, w, clock, w');
    case BeginResumed => BeginResumedStaysClean(s, w, w');
    case PinMax(_) => SnapshotStaysClean(s, w, step, w');
    case ReadRow(_, _) => SnapshotStaysClean(s, w, step, w');
    case FinishSnapshot => SnapshotStaysClean(s, w, step, w');
    case BeginReplay(start) => BeginReplayStaysClean(s, w, start, w');
    case MoveBookmarks(to) => MoveStaysClean(s, w, to, w');
    case SyncOthers(state) => SameBookmarkIsClean(w.now.state, state, s.id);
    case _ =>
  }

  lemma SameBookmarkIsClean(a: State, b: State, id: StreamId)
    requires BookmarkOf(a, id) == BookmarkOf(b, id)
    ensures NeedsFresh(a, id) <==> NeedsFresh(b, id)
    ensures Blank(a, id) <==> Blank(b, id)
  {
  }

  lemma {:induction false} HistoriesStayClean(s: Stream, worlds: seq<World>, steps: seq<Step>, i: nat)
    requires History(s, worlds, steps) && i < |worlds| && Blank(worlds[0].now.state, s.id)
    ensures StaysClean(worlds[i], s.id)
    decreases i
  {
    hide Does, Inv, StaysClean, NeedsFresh, KeysStay, Blank;
    if i == 0 {
      StartIsClean(s, worlds[0]);
    } else {
      HistoriesStayClean(s, worlds, steps, i - 1);
      HistoriesKeepInv(s, worlds, steps, i - 1);
      StepOf(s, worlds, steps, i - 1);
      StepStaysClean(s, worlds[i - 1], steps[i - 1], worlds[i]);
    }
  }

  lemma StartIsClean(s: Stream, w: World)
    requires Starts(s, w) && Blank(w.now.state, s.id)
    ensures StaysClean(w, s.id)
  {
    hide NeedsFresh, Blank, KeysStay;
  }

  /** Snapshot plus log converges, always, for a stream that begins without a bookmark: in any history a
      completed binlog run leaves the target equal to the source table at the run's end position. */
  lemma SnapshotPlusLogConverges(s: Stream, worlds: seq<World>, steps: seq<Step>, i: nat)
    requires History(s, worlds, steps) && i < |steps| && steps[i].FinishReplay? && Blank(worlds[0].now.state, s.id)
    ensures worlds[i].phase.Replaying? && ShowsTableAt(worlds[i + 1].source, worlds[i + 1].target, worlds[i].phase.end)
  {
    hide Inv, ShowsTableAt, Harmless, Clean, Blank;
    StepOf(s, worlds, steps, i);
    HistoriesStayClean(s, worlds, steps, i);
    SnapshotPlusLogConvergesExactlyWhenHarmless(s, worlds, steps, i);
    CleanIsHarmless(worlds[i].outset, worlds[i].source, worlds[i].source.Clock(worlds[i].phase.end));
  }

  /** At any moment of any history, and for any STATE that a restart goes on from: what the target shows
      for a key is a value the source held since the coordinates of that STATE; or the target has the key
      as the last fresh snapshot found it, and the snapshot is still to read it, or never asks for it, or
      there was no row at some time since. */
  lemma CheckpointsAccountForEveryKey(s: Stream, worlds: seq<World>, steps: seq<Step>, i: nat, cp: Checkpoint, k: int)
    requires History(s, worlds, steps) && i < |worlds| && cp in worlds[i].saved && !NeedsFresh(cp.state, s.id)
    ensures var w, from := worlds[i], worlds[i].source.Clock(cp.floor);
            || Seen(w.source, w.target, k, from, |w.source.log|)
            || (SameCell(w.target, w.outset.left, k)
                && ( || (CanResume(cp.state, s.id, false) && ToRead(cp.state, s.id, k, true)) || Unread(w.outset, k)
                     || Absent(w.source, k, from, |w.source.log|)))
  {
    HistoriesKeepInv(s, worlds, steps, i);
    assert Good(worlds[i].source, worlds[i].target, worlds[i].outset, s.id, cp);
    assert Covered(worlds[i].source, worlds[i].target, worlds[i].outset, s.id, cp, true, k);
    BegunKinds(cp.state, s.id);
  }
}
