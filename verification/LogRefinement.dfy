/**
 A run of the binlog loop is a path of the protocol.

 `decode` reads the key and the data of a row out of its columns.  The source's rows are what it reads
 out of the rows of the events; the target's are what it reads out of the records, which carry the
 desired columns only.  A record that carries the deletion time is a deletion.
 */
module LogRefinement {
  import opened Singer
  import opened FileNames
  import opened QuerySpec
  import opened Drift
  import opened BinlogSpec
  import opened Historical
  import opened Refinement
  import T = Tables
  import R = Replication

  /** How a row is read, and the columns that are looked at. */
  datatype Decode = Decode(read: map<string, string> -> Row, columns: set<string>)

  predicate SameOn(columns: set<string>, a: map<string, string>, b: map<string, string>) {
    forall c :: c in columns ==> (c in a <==> c in b) && (c in a ==> a[c] == b[c])
  }

  /** It looks at these columns, and the deletion time is not among them. */
  ghost predicate ReadsOnly(read: map<string, string> -> Row, columns: set<string>) {
    DELETED_AT !in columns && forall a, b :: SameOn(columns, a, b) ==> read(a) == read(b)
  }

  // ----- what the target makes of the messages -----

  /** The target takes in a message of the loop. */
  function FeedLog(decode: Decode, id: StreamId, target: T.Target, m: Message): T.Target {
    if m.Change? && m.stream == id
    then T.Upsert(target, decode.read(m.record), m.version, DELETED_AT in m.record) else target
  }

  function FeedLogAll(decode: Decode, id: StreamId, target: T.Target, msgs: seq<Message>): T.Target {
    if msgs == [] then target
    else FeedLog(decode, id, FeedLogAll(decode, id, target, msgs[..|msgs| - 1]), msgs[|msgs| - 1])
  }

  lemma {:induction false} FeedLogConcat(decode: Decode, id: StreamId, target: T.Target, a: seq<Message>,
                                         b: seq<Message>)
    ensures FeedLogAll(decode, id, target, a + b) == FeedLogAll(decode, id, FeedLogAll(decode, id, target, a), b)
    decreases |b|
  {
    if b == [] {
      assert a + b == a;
    } else {
      FeedLogConcat(decode, id, target, a, b[..|b| - 1]);
      assert (a + b)[..|a + b| - 1] == a + b[..|b| - 1];
    }
  }

  // ----- what the source has in its log for them -----

  /** The change that a row of an event is. */
  function ChangeOf(decode: Decode, ev: RowsEvent, row: map<string, string>): T.Change {
    if ev.kind == DeleteRows then T.Remove(decode.read(row)) else T.Put(decode.read(row))
  }

  function RowEntries(decode: Decode, at: Pos, ev: RowsEvent, n: nat): (entries: seq<T.Entry>)
    requires n <= |ev.rows|
    ensures |entries| == if ev.kind == OtherRows then 0 else n
    ensures forall e :: e in entries ==> e.at == at
  {
    if n == 0 || ev.kind == OtherRows then []
    else RowEntries(decode, at, ev, n - 1) + [T.Entry(at, ChangeOf(decode, ev, ev.rows[n - 1]))]
  }

  /** The changes to the stream's table that an item holds. */
  function ItemEntries(decode: Decode, id: StreamId, item: Item): (entries: seq<T.Entry>)
    ensures forall e :: e in entries ==> e.at == item.at
  {
    if item.event.Rows? && item.event.rows.stream == id
    then RowEntries(decode, item.at, item.event.rows, |item.event.rows.rows|) else []
  }

  function Entries(decode: Decode, id: StreamId, items: seq<Item>, n: nat): seq<T.Entry>
    requires n <= |items|
  {
    if n == 0 then [] else Entries(decode, id, items, n - 1) + ItemEntries(decode, id, items[n - 1])
  }

  // ----- what a record carries -----

  /** The columns of the row that `decode` looks at are desired. */
  predicate Arrives(decode: Decode, desired: set<string>, row: map<string, string>) {
    decode.columns * row.Keys <= desired
  }

  /** A record reads like its row exactly when it carries the columns that are looked at: then for
      every way to read them, and otherwise for some way not. */
  lemma RecordReadsLikeItsRowExactlyWhenColumnsArrive(ev: RowsEvent, desired: set<string>, row: map<string, string>,
                                                      columns: set<string>)
    requires DELETED_AT !in columns
    ensures (forall read :: ReadsOnly(read, columns) ==> read(RecordOf(ev, desired, row)) == read(row))
       <==> columns * row.Keys <= desired
  {
    var record := RecordOf(ev, desired, row);
    if columns * row.Keys <= desired {
      assert SameOn(columns, record, row);
    } else {
      var c :| c in columns && c in row && c !in desired;
      var read := (values: map<string, string>) => Row(if c in values then 1 else 0, None, "");
      forall a, b | SameOn(columns, a, b) ensures read(a) == read(b) {
        assert c in a <==> c in b;
      }
      assert ReadsOnly(read, columns) && read(record) != read(row);
    }
  }

  lemma RecordReadsLikeItsRow(decode: Decode, ev: RowsEvent, desired: set<string>, row: map<string, string>)
    requires ReadsOnly(decode.read, decode.columns) && Arrives(decode, desired, row)
    ensures decode.read(RecordOf(ev, desired, row)) == decode.read(row)
  {
    assert SameOn(decode.columns, RecordOf(ev, desired, row), row);
  }

  /** While the schemas agree, a column arrives exactly when the last SCHEMA sent has it. */
  lemma ColumnsArriveExactlyWhenAnnounced(decode: Decode, context: Context, sent: seq<Message>, id: StreamId,
                                          row: map<string, string>)
    requires SchemasAgree(context, sent) && id in context.streams && DELETED_AT !in decode.columns
    ensures Arrives(decode, context.streams[id].desired, row)
            <==> decode.columns * row.Keys <= LastSchema(sent, id).value
  {
  }

  /** Which columns are desired after an event: those from before, or if discovery has replaced the
      entry those that the table supports by then. */
  lemma DesiredAfterAnEvent(context: Context, item: Item, c: string)
    requires item.event.Rows? && StepItem(context, item).Step? && item.event.rows.stream in context.streams
             && c != DELETED_AT
    ensures var id := item.event.rows.stream;
            var entry := StepItem(context, item).context.streams[id];
            if entry == context.streams[id] then c in entry.desired <==> c in context.streams[id].desired
            else c in entry.desired <==> item.table.Some? && c in Supported(item.table.value)
  {
    hide Changes, SettledIgnored, Discovers, Diff, HasColumnNames;
  }

  /** A column that was dropped before its rows are read is lost: the event has a column that is new to
      the stream, and the table that is discovered lacks another one that the row still has. */
  lemma DroppedColumnIsLost(context: Context, ev: RowsEvent, table: Definition, row: map<string, string>)
    requires ev.stream in context.streams && context.ignored == {}
    requires context.streams[ev.stream].catalog == CatalogEntry(map["name" := Property(Available, "string")], map[])
    requires ev.columns == [Some("name"), Some("extra")] && row == map["name" := "ann", "extra" := "x"]
    requires table == map["extra" := Property(Available, "string")]
    ensures var step := HandleEvent(context, ev, Some(table));
            && step.Step?
            && exists read :: ReadsOnly(read, {"name"})
                              && read(RecordOf(ev, step.context.streams[ev.stream].desired, row)) != read(row)
  {
    hide Changes, ReadsOnly, RecordOf;
    var entry := context.streams[ev.stream];
    var diff := Diff(ev, entry.catalog.properties.Keys, context.ignored);
    assert ColumnNames(ev) == {"name", "extra"} by {
      assert ev.columns[0] == Some("name") && ev.columns[1] == Some("extra");
    }
    assert "extra" in diff && CallsForDiscovery(entry.catalog.metadata, "extra");
    var desired := HandleEvent(context, ev, Some(table)).context.streams[ev.stream].desired;
    assert "name" in {"name"} * row.Keys && "name" !in desired;
    RecordReadsLikeItsRowExactlyWhenColumnsArrive(ev, desired, row, {"name"});
  }

  // ----- feeding records is replaying changes -----

  /** The rows of the event can be read out of its records, and deletions told: no row has the deletion
      time as a column of its own, and the stream's schema has it. */
  ghost predicate Legible(decode: Decode, ev: RowsEvent, desired: set<string>) {
    && ReadsOnly(decode.read, decode.columns) && DELETED_AT in desired
    && forall row :: row in ev.rows ==> DELETED_AT !in row && Arrives(decode, desired, row)
  }

  /** Feeding the records of an event is replaying its changes. */
  lemma {:induction false} RecordsReplay(decode: Decode, at: Pos, ev: RowsEvent, desired: set<string>, version: int,
                                         n: nat, target: T.Target)
    requires n <= |ev.rows| && Legible(decode, ev, desired)
    ensures FeedLogAll(decode, ev.stream, target, Changes(ev, desired, version, n))
         == ReplayEntries(target, RowEntries(decode, at, ev, n), version)
    decreases n
  {
    if n > 0 && ev.kind != OtherRows {
      RecordsReplay(decode, at, ev, desired, version, n - 1, target);
      RecordReplays(decode, at, ev, desired, version, n, target);
    }
  }

  lemma RecordReplays(decode: Decode, at: Pos, ev: RowsEvent, desired: set<string>, version: int, n: nat,
                      target: T.Target)
    requires 0 < n <= |ev.rows| && Legible(decode, ev, desired) && ev.kind != OtherRows
    requires FeedLogAll(decode, ev.stream, target, Changes(ev, desired, version, n - 1))
          == ReplayEntries(target, RowEntries(decode, at, ev, n - 1), version)
    ensures FeedLogAll(decode, ev.stream, target, Changes(ev, desired, version, n))
         == ReplayEntries(target, RowEntries(decode, at, ev, n), version)
  {
    hide FeedLogAll, ReplayEntries, FeedLog, RecordOf, ChangeOf;
    var row := ev.rows[n - 1];
    var m, e := Change(ev.stream, RecordOf(ev, desired, row), version), T.Entry(at, ChangeOf(decode, ev, row));
    assert row in ev.rows;
    FeedLogOneMore(decode, ev.stream, target, Changes(ev, desired, version, n - 1), m);
    ReplayOneMore(target, RowEntries(decode, at, ev, n - 1), e, version);
    RecordIsItsChange(decode, ev, desired, row, version,
                      FeedLogAll(decode, ev.stream, target, Changes(ev, desired, version, n - 1)));
  }

  lemma RecordIsItsChange(decode: Decode, ev: RowsEvent, desired: set<string>, row: map<string, string>, version: int,
                          target: T.Target)
    requires Legible(decode, ev, desired) && row in ev.rows
    ensures FeedLog(decode, ev.stream, target, Change(ev.stream, RecordOf(ev, desired, row), version))
         == T.Replay(target, ChangeOf(decode, ev, row), version)
  {
    assert DELETED_AT in RecordOf(ev, desired, row) <==> ev.kind == DeleteRows;
    RecordReadsLikeItsRow(decode, ev, desired, row);
  }

  lemma FeedLogOneMore(decode: Decode, id: StreamId, target: T.Target, msgs: seq<Message>, m: Message)
    ensures FeedLogAll(decode, id, target, msgs + [m]) == FeedLog(decode, id, FeedLogAll(decode, id, target, msgs), m)
  {
    assert (msgs + [m])[..|msgs|] == msgs;
  }

  lemma ReplayOneMore(target: T.Target, entries: seq<T.Entry>, e: T.Entry, version: int)
    ensures ReplayEntries(target, entries + [e], version)
            == T.Replay(ReplayEntries(target, entries, version), e.change, version)
  {
    assert (entries + [e])[..|entries|] == entries;
  }

  function ReplayEntries(target: T.Target, entries: seq<T.Entry>, version: int): T.Target {
    if entries == [] then target
    else T.Replay(ReplayEntries(target, entries[..|entries| - 1], version), entries[|entries| - 1].change, version)
  }

  // ----- one item -----

  lemma {:induction false} OthersFeedNothing(decode: Decode, id: StreamId, target: T.Target, msgs: seq<Message>)
    requires forall m :: m in msgs ==> m.Change? ==> m.stream != id
    ensures FeedLogAll(decode, id, target, msgs) == target
    decreases |msgs|
  {
    if msgs != [] {
      var m := msgs[|msgs| - 1];
      assert m in msgs;
      OthersFeedNothing(decode, id, target, msgs[..|msgs| - 1]);
    }
  }

  lemma {:induction false} ChangesAreOfTheStream(ev: RowsEvent, desired: set<string>, version: int, n: nat)
    requires n <= |ev.rows|
    ensures forall m :: m in Changes(ev, desired, version, n) ==> m.Change? && m.stream == ev.stream
    decreases n
  {
    if n > 0 { ChangesAreOfTheStream(ev, desired, version, n - 1); }
  }

  /** The event goes through; its rows can be read out of its records, which carry the version. */
  ghost predicate Readable(decode: Decode, id: StreamId, context: Context, item: Item, version: int) {
    && StepItem(context, item).Step?
    && (item.event.Rows? && item.event.rows.stream == id ==>
          && EntryAfter(context, item, id).Some?
          && Legible(decode, item.event.rows, EntryAfter(context, item, id).value.desired)
          && EntryAfter(context, item, id).value.version == Some(version))
  }

  /** The messages of an item make of the target what its changes make of it. */
  lemma ItemFeeds(decode: Decode, id: StreamId, context: Context, item: Item, version: int, target: T.Target)
    requires id in context.streams && Readable(decode, id, context, item, version)
    ensures FeedLogAll(decode, id, target, ItemData(context, item))
         == ReplayEntries(target, ItemEntries(decode, id, item), version)
  {
    if item.event.Rows? && StepItem(context, item).Step? && item.event.rows.stream in context.streams {
      var ev := item.event.rows;
      var entry := StepItem(context, item).context.streams[ev.stream];
      var changes := Changes(ev, entry.desired, VersionAt(entry.version, ev.now), |ev.rows|);
      var announced := if entry == context.streams[ev.stream] then []
                       else [Schema(ev.stream, entry.catalog.properties.Keys)];
      DataOfAnEvent(context, item);
      hide HandleEvent, Changes, FeedLogAll, ReplayEntries, RowEntries, ItemData;
      FeedLogConcat(decode, id, target, announced, changes);
      OthersFeedNothing(decode, id, target, announced);
      if ev.stream == id {
        RecordsReplay(decode, item.at, ev, entry.desired, version, |ev.rows|, target);
      } else {
        ChangesAreOfTheStream(ev, entry.desired, VersionAt(entry.version, ev.now), |ev.rows|);
        OthersFeedNothing(decode, id, target, changes);
        NoEntries(target, version);
      }
    } else {
      OthersFeedNothing(decode, id, target, []);
      NoEntries(target, version);
    }
  }

  lemma NoEntries(target: T.Target, version: int)
    ensures ReplayEntries(target, [], version) == target
  {
  }

  // ----- replaying the changes of an item -----

  /** The world once the replay has done these changes. */
  function Replayed(w: R.World, entries: seq<T.Entry>, version: int): R.World
    requires w.phase.Replaying?
  {
    w.(target := ReplayEntries(w.target, entries, version),
       phase := R.Phase.Replaying(w.phase.next + |entries|, w.phase.end))
  }

  lemma {:induction false} EntriesAreSteps(s: Stream, start: R.World, w: R.World, entries: seq<T.Entry>, k: nat)
    requires Reaches(s, start, w) && w.phase.Replaying? && k <= |entries|
    requires w.phase.next + |entries| <= |w.source.log|
    requires w.source.log[w.phase.next..w.phase.next + |entries|] == entries
    requires forall e :: e in entries ==> Before(e.at, w.phase.end)
    ensures Reaches(s, start, Replayed(w, entries[..k], R.VersionOf(w.now.state, s.id)))
    decreases k
  {
    hide Reaches, Before, R.VersionOf, T.Replay, ReplayEntries;
    var version := R.VersionOf(w.now.state, s.id);
    if k == 0 {
      assert entries[..0] == [];
      NoEntries(w.target, version);
      assert Replayed(w, [], version) == w;
    } else {
      EntriesAreSteps(s, start, w, entries, k - 1);
      var before, after := Replayed(w, entries[..k - 1], version), Replayed(w, entries[..k], version);
      var e := w.source.log[w.phase.next + k - 1];
      assert e == entries[k - 1] && entries[k - 1] in entries;
      assert entries[..k] == entries[..k - 1] + [e];
      ReplayOneMore(w.target, entries[..k - 1], e, version);
      OneStep(s, start, before, R.ReplayOne, after);
    }
  }

  // ----- a whole run -----

  /** The reader's items up to `m` hold exactly the changes of the source between the place where the
      replay begins and the end.  The run goes by file and position. */
  ghost predicate Mirrors(decode: Decode, id: StreamId, run: LoopRun, w: R.World, m: nat) {
    && w.phase.Replaying? && w.source.Valid() && AtMost(w.phase.end, w.source.here)
    && WellPositioned(run.items) && m <= |run.items| && run.gtid == Null
    && Prepared(id, run, R.VersionOf(w.now.state, id))
    && (forall i :: 0 <= i < m ==> ItemFits(id, run, w, i))
    && w.phase.next + |Entries(decode, id, run.items, m)| == w.source.Clock(w.phase.end)
    && w.source.log[w.phase.next..w.source.Clock(w.phase.end)] == Entries(decode, id, run.items, m)
  }

  /** The streams map knows the stream, as `GenerateStreamsMap` leaves it. */
  predicate Prepared(id: StreamId, run: LoopRun, version: int) {
    id in run.Ids() && run.context.streams[id].version == Some(version) && DELETED_AT in run.context.streams[id].desired
  }

  /** The item starts before the end and does not make the run fail, and none of its rows has the deletion
      time as a column of its own. */
  ghost predicate ItemFits(id: StreamId, run: LoopRun, w: R.World, i: nat)
    requires i < |run.items| && w.phase.Replaying?
  {
    && Before(run.items[i].at, w.phase.end) && !run.items[i].event.Gtid?
    && StepItem(ContextAt(run.context, run.items, i), run.items[i]).Step?
    && (run.items[i].event.Rows? ==> forall row :: row in run.items[i].event.rows.rows ==> DELETED_AT !in row)
  }

  /** Whatever drift does, the columns that are looked at are in the records of the first `m` items. */
  ghost predicate AllArrive(decode: Decode, id: StreamId, run: LoopRun, m: nat)
    requires m <= |run.items|
  {
    ReadsOnly(decode.read, decode.columns) && forall i :: 0 <= i < m ==> ItemArrives(decode, id, run, i)
  }

  ghost predicate ItemArrives(decode: Decode, id: StreamId, run: LoopRun, i: nat)
    requires i < |run.items|
  {
    var entry := EntryAfter(ContextAt(run.context, run.items, i), run.items[i], id);
    run.items[i].event.Rows? && run.items[i].event.rows.stream == id && entry.Some? ==>
      forall row :: row in run.items[i].event.rows.rows ==> Arrives(decode, entry.value.desired, row)
  }

  /** Through all drift the stream keeps its version and the column for the deletion time. */
  lemma {:induction false} StreamKeeps(id: StreamId, run: LoopRun, version: int, n: nat)
    requires n <= |run.items| && Prepared(id, run, version)
    ensures var context := ContextAt(run.context, run.items, n);
            && id in context.streams && context.streams[id].version == Some(version)
            && DELETED_AT in context.streams[id].desired
    decreases n
  {
    if n > 0 {
      StreamKeeps(id, run, version, n - 1);
      StepKeeps(id, ContextAt(run.context, run.items, n - 1), run.items[n - 1], version);
    }
  }

  lemma StepKeeps(id: StreamId, context: Context, item: Item, version: int)
    requires id in context.streams && context.streams[id].version == Some(version)
             && DELETED_AT in context.streams[id].desired
    ensures StepItem(context, item).Step? ==>
              var entry := EntryAfter(context, item, id);
              entry.Some? && entry.value.version == Some(version) && DELETED_AT in entry.value.desired
  {
    hide Changes, SettledIgnored, Discovers, Diff, HasColumnNames, SettledEntry;
    if item.event.Rows? && item.event.rows.stream == id && StepItem(context, item).Step? {
      var ev, entry := item.event.rows, context.streams[id];
      var diff := Diff(ev, entry.catalog.properties.Keys, context.ignored);
      var table := if item.table.Some? then item.table.value else map[];
      NewEntryShape(entry, diff, table);
      SettledKeepsVersion(entry, diff, table);
    }
  }

  /** The two states differ, for the stream, in its coordinates only. */
  predicate LikeButForPlace(a: State, b: State, id: StreamId) {
    BookmarkOf(a, id) - {LogFile, LogPos} == BookmarkOf(b, id) - {LogFile, LogPos}
  }

  lemma MovedIsLike(a: State, b: State, id: StreamId, ids: set<StreamId>, to: Pos)
    requires LikeButForPlace(a, b, id) && id in ids
    ensures LikeButForPlace(a, Moved(b, ids, to, Null), id)
    ensures BookmarkOf(Moved(a, {id}, to, Null), id) == BookmarkOf(Moved(b, ids, to, Null), id)
  {
    var x, y := BookmarkOf(a, id), BookmarkOf(b, id);
    var x' := x[LogFile := Text(to.file)][LogPos := Num(to.offset)];
    var y' := y[LogFile := Text(to.file)][LogPos := Num(to.offset)];
    assert BookmarkOf(Moved(b, ids, to, Null), id) == y' && y' - {LogFile, LogPos} == y - {LogFile, LogPos};
    assert BookmarkOf(Moved(a, {id}, to, Null), id) == x';
    assert forall f :: f in x - {LogFile, LogPos} <==> f in y - {LogFile, LogPos};
    forall f ensures f in x' <==> f in y' {
      if f != LogFile && f != LogPos { assert f in x - {LogFile, LogPos} <==> f in y - {LogFile, LogPos}; }
    }
    forall f | f in x' ensures x'[f] == y'[f] {
      if f != LogFile && f != LogPos {
        assert (x - {LogFile, LogPos})[f] == x[f] && (y - {LogFile, LogPos})[f] == y[f];
      }
    }
    assert x' == y';
  }

  lemma LikeKeepsVersion(a: State, b: State, id: StreamId)
    requires LikeButForPlace(a, b, id)
    ensures R.VersionOf(a, id) == R.VersionOf(b, id)
  {
    var x, y := BookmarkOf(a, id), BookmarkOf(b, id);
    assert Version in x - {LogFile, LogPos} <==> Version in y - {LogFile, LogPos};
    if Version in x {
      assert (x - {LogFile, LogPos})[Version] == x[Version] && (y - {LogFile, LogPos})[Version] == y[Version];
    }
  }

  /** Where the process of the protocol stands: at the last STATE. */
  function Place(run: LoopRun, now: R.Checkpoint, n: nat): R.Checkpoint
    requires n <= |run.items|
  {
    if n == 0 then now
    else if run.Due(n) then R.Checkpoint(run.StateAfter(n), run.items[n - 1].at)
    else Place(run, now, n - 1)
  }

  /** The STATE messages so far, as checkpoints. */
  function Saves(run: LoopRun, n: nat): set<R.Checkpoint>
    requires n <= |run.items|
  {
    if n == 0 then {}
    else Saves(run, n - 1) + (if run.Due(n) then {R.Checkpoint(run.StateAfter(n), run.items[n - 1].at)} else {})
  }

  /** The world once the run has handled `n` items: the target has its messages, and the STATE
      messages among them may be restarted from. */
  function RunWorld(decode: Decode, id: StreamId, run: LoopRun, w: R.World, n: nat): R.World
    requires w.phase.Replaying? && n <= |run.items|
  {
    R.World(w.source, FeedLogAll(decode, id, w.target, run.Messages(n)), w.saved + Saves(run, n),
            R.Phase.Replaying(w.phase.next + |Entries(decode, id, run.items, n)|, w.phase.end),
            Place(run, w.now, n), w.outset)
  }

  lemma {:induction false} NoGtidEver(run: LoopRun, n: nat)
    requires n <= |run.items| && run.gtid == Null && forall i :: 0 <= i < n ==> !run.items[i].event.Gtid?
    ensures run.GtidAfter(n) == Null
    decreases n
  {
    if n > 0 { NoGtidEver(run, n - 1); }
  }

  /** The loop's state and the protocol's differ only in where they stand. */
  lemma {:induction false} PlaceIsLike(id: StreamId, run: LoopRun, now: R.Checkpoint, n: nat)
    requires n <= |run.items| && id in run.Ids() && run.gtid == Null
    requires forall i :: 0 <= i < n ==> !run.items[i].event.Gtid?
    requires BookmarkOf(now.state, id) == BookmarkOf(run.start, id)
    ensures LikeButForPlace(Place(run, now, n).state, run.StateAfter(n), id)
    ensures R.VersionOf(Place(run, now, n).state, id) == R.VersionOf(now.state, id)
    decreases n
  {
    if n > 0 {
      PlaceIsLike(id, run, now, n - 1);
      NoGtidEver(run, n - 1);
      NoGtidEver(run, n);
      NextPlaceIsLike(id, run, now, n);
    }
  }

  lemma NextPlaceIsLike(id: StreamId, run: LoopRun, now: R.Checkpoint, n: nat)
    requires 0 < n <= |run.items| && id in run.Ids() && !run.items[n - 1].event.Gtid?
    requires run.GtidAfter(n - 1) == run.GtidAfter(n) == Null
    requires LikeButForPlace(Place(run, now, n - 1).state, run.StateAfter(n - 1), id)
    requires R.VersionOf(Place(run, now, n - 1).state, id) == R.VersionOf(now.state, id)
    ensures LikeButForPlace(Place(run, now, n).state, run.StateAfter(n), id)
    ensures R.VersionOf(Place(run, now, n).state, id) == R.VersionOf(now.state, id)
  {
    hide LikeButForPlace, Moved, R.VersionOf, CheckpointDue;
    var before, item := Place(run, now, n - 1).state, run.items[n - 1];
    var moved := ItemMoved(run.StateAfter(n - 1), run.Ids(), item, Null);
    if item.event.Rotate? {
      MovedIsLike(before, run.StateAfter(n - 1), id, run.Ids(), item.event.next);
    }
    assert LikeButForPlace(before, moved, id);
    if run.Due(n) {
      MovedIsLike(before, moved, id, run.Ids(), item.at);
      LikeKeepsVersion(before, run.StateAfter(n), id);
      LikeItself(run.StateAfter(n), id);
    }
  }

  lemma LikeItself(st: State, id: StreamId)
    ensures LikeButForPlace(st, st, id)
  {
  }

  /** Every change after the first `n` items is where one of the later items is. */
  lemma {:induction false} LaterEntries(decode: Decode, id: StreamId, run: LoopRun, n: nat, m: nat, j: nat)
    requires n <= m <= |run.items|
    requires |Entries(decode, id, run.items, n)| <= j < |Entries(decode, id, run.items, m)|
    ensures exists i :: n <= i < m && Entries(decode, id, run.items, m)[j].at == run.items[i].at
    decreases m
  {
    hide ItemEntries, ContextAt;
    var front := Entries(decode, id, run.items, m - 1);
    var last := ItemEntries(decode, id, run.items[m - 1]);
    assert Entries(decode, id, run.items, m) == front + last;
    if j < |front| {
      LaterEntries(decode, id, run, n, m - 1, j);
    } else {
      assert last[j - |front|] in last;
    }
  }

  lemma {:induction false} EntriesGrow(decode: Decode, id: StreamId, run: LoopRun, n: nat, m: nat)
    requires n <= m <= |run.items|
    ensures Entries(decode, id, run.items, n) <= Entries(decode, id, run.items, m)
    decreases m
  {
    hide ItemEntries, ContextAt;
    if n < m {
      EntriesGrow(decode, id, run, n, m - 1);
      LongerPrefix(Entries(decode, id, run.items, n), Entries(decode, id, run.items, m - 1),
                   ItemEntries(decode, id, run.items[m - 1]));
    }
  }

  lemma LongerPrefix<A>(a: seq<A>, b: seq<A>, c: seq<A>)
    requires a <= b
    ensures a <= b + c
  {
  }

  /** What `Mirrors` says of the change that a number of them lead up to. */
  lemma MirrorsChange(decode: Decode, id: StreamId, run: LoopRun, w: R.World, m: nat, j: nat)
    requires Mirrors(decode, id, run, w, m) && j < |Entries(decode, id, run.items, m)|
    ensures w.phase.next + j < |w.source.log| && w.source.log[w.phase.next + j] == Entries(decode, id, run.items, m)[j]
  {
    hide Entries, ItemFits, WellPositioned;
  }

  /** What it says of an item. */
  lemma MirrorsItem(decode: Decode, id: StreamId, run: LoopRun, w: R.World, n: nat, m: nat)
    requires Mirrors(decode, id, run, w, m) && 0 < n <= m
    ensures Before(run.items[n - 1].at, w.phase.end) && RealPos(run.items[n - 1].at) && !run.items[n - 1].event.Gtid?
    ensures forall i :: n <= i < m ==> AtMost(run.items[n - 1].at, run.items[i].at)
  {
    hide Entries, ContextAt, Before, AtMost, StepItem;
    assert ItemFits(id, run, w, n - 1);
  }

  lemma ReadableItem(decode: Decode, id: StreamId, run: LoopRun, w: R.World, n: nat, m: nat)
    requires Mirrors(decode, id, run, w, m) && AllArrive(decode, id, run, m) && 0 < n <= m
    ensures Readable(decode, id, ContextAt(run.context, run.items, n - 1), run.items[n - 1],
                     R.VersionOf(w.now.state, id))
  {
    hide Entries, ContextAt, Before, AtMost, StepItem, WellPositioned, ReadsOnly, Arrives, R.VersionOf;
    assert ItemFits(id, run, w, n - 1) && ItemArrives(decode, id, run, n - 1);
    var version := R.VersionOf(w.now.state, id);
    StreamKeeps(id, run, version, n - 1);
    StepKeeps(id, ContextAt(run.context, run.items, n - 1), run.items[n - 1], version);
  }

  /** What it says of the whole. */
  lemma MirrorsRun(decode: Decode, id: StreamId, run: LoopRun, w: R.World, m: nat)
    requires Mirrors(decode, id, run, w, m)
    ensures w.phase.Replaying? && w.source.Valid() && AtMost(w.phase.end, w.source.here)
    ensures m <= |run.items| && id in run.Ids() && run.gtid == Null
    ensures w.phase.next + |Entries(decode, id, run.items, m)| == w.source.Clock(w.phase.end)
    ensures forall i :: 0 <= i < m ==> !run.items[i].event.Gtid?
  {
    hide Entries, Readable, WellPositioned, Before, AtMost;
    forall i | 0 <= i < m ensures !run.items[i].event.Gtid? {
      assert ItemFits(id, run, w, i);
    }
  }

  /** No STATE stands past the changes that are out. */
  lemma PlaceIsNotAhead(decode: Decode, id: StreamId, run: LoopRun, w: R.World, n: nat, m: nat)
    requires Mirrors(decode, id, run, w, m) && 0 < n <= m
    ensures var next := w.phase.next + |Entries(decode, id, run.items, n)|;
            w.source.Clock(run.items[n - 1].at) <= next <= w.source.Clock(w.phase.end)
    ensures AtMost(run.items[n - 1].at, w.source.here) && RealPos(run.items[n - 1].at)
  {
    hide Mirrors, Entries, Readable;
    MirrorsRun(decode, id, run, w, m);
    var at, j := run.items[n - 1].at, |Entries(decode, id, run.items, n)|;
    MirrorsItem(decode, id, run, w, n, m);
    BeforeTransitive(at, w.phase.end, w.source.here);
    EntriesGrow(decode, id, run, n, m);
    if j == |Entries(decode, id, run.items, m)| {
      T.ClockMonotone(w.source, at, w.phase.end);
    } else {
      LaterEntries(decode, id, run, n, m, j);
      var i :| n <= i < m && Entries(decode, id, run.items, m)[j].at == run.items[i].at;
      MirrorsChange(decode, id, run, w, m, j);
      BeforeTotal(at, run.items[i].at);
      T.ClockSplits(w.source, at);
    }
  }

  /** The changes of an item are the next ones of the source. */
  lemma NextChanges(decode: Decode, id: StreamId, run: LoopRun, w: R.World, n: nat, m: nat)
    requires Mirrors(decode, id, run, w, m) && 0 < n <= m
    ensures var from := w.phase.next + |Entries(decode, id, run.items, n - 1)|;
            var entries := ItemEntries(decode, id, run.items[n - 1]);
            && from + |entries| <= |w.source.log| && w.source.log[from..from + |entries|] == entries
            && |Entries(decode, id, run.items, n)| == |Entries(decode, id, run.items, n - 1)| + |entries|
            && (forall e :: e in entries ==> Before(e.at, w.phase.end))
  {
    hide Readable, ItemEntries, ContextAt, Before, WellPositioned, ItemFits, Prepared;
    EntriesGrow(decode, id, run, n, m);
    MirrorsItem(decode, id, run, w, n, m);
    var all, upto := Entries(decode, id, run.items, m), Entries(decode, id, run.items, n);
    var before := Entries(decode, id, run.items, n - 1);
    var entries := ItemEntries(decode, id, run.items[n - 1]);
    assert upto == before + entries;
    PartOfSlice(w.source.log, w.phase.next, w.source.Clock(w.phase.end), all, before, entries);
  }

  lemma PartOfSlice<A>(log: seq<A>, from: nat, upto: nat, all: seq<A>, before: seq<A>, part: seq<A>)
    requires from <= upto <= |log| && log[from..upto] == all && before + part <= all
    ensures from + |before| + |part| <= |log| && log[from + |before|..from + |before| + |part|] == part
  {
    assert |before + part| <= |all| && |all| == upto - from;
    forall i | 0 <= i < |part| ensures log[from + |before| + i] == part[i] {
      assert (before + part)[|before| + i] == part[i] && all[|before| + i] == part[i];
      assert log[from..upto][|before| + i] == log[from + |before| + i];
    }
  }

  /** The messages and the changes of an item, one after the other. */
  lemma NextTarget(decode: Decode, id: StreamId, run: LoopRun, w: R.World, n: nat, m: nat, version: int)
    requires Mirrors(decode, id, run, w, m) && AllArrive(decode, id, run, m)
    requires 0 < n <= m && version == R.VersionOf(w.now.state, id)
    ensures ReplayEntries(FeedLogAll(decode, id, w.target, run.Messages(n - 1)),
                          ItemEntries(decode, id, run.items[n - 1]), version)
         == FeedLogAll(decode, id, w.target, run.Messages(n))
  {
    hide Mirrors, Readable, ItemEntries, ItemData, FeedLogAll, ReplayEntries, Entries, R.VersionOf, AllArrive;
    MirrorsRun(decode, id, run, w, m);
    ReadableItem(decode, id, run, w, n, m);
    var context := ContextAt(run.context, run.items, n - 1);
    StreamsStay(run.context, run.items, n - 1);
    var data := ItemData(context, run.items[n - 1]);
    var states := if run.Due(n) then [StateMessage(run.StateAfter(n))] else [];
    ItemFeeds(decode, id, context, run.items[n - 1], version, FeedLogAll(decode, id, w.target, run.Messages(n - 1)));
    FeedLogConcat(decode, id, w.target, run.Messages(n - 1), data);
    FeedLogConcat(decode, id, w.target, run.Messages(n - 1) + data, states);
    OthersFeedNothing(decode, id, FeedLogAll(decode, id, w.target, run.Messages(n - 1) + data), states);
    assert run.Messages(n) == run.Messages(n - 1) + data + states;
  }

  /** The world once the changes of item `n` are replayed, and before the STATE that may follow. */
  function BeforeState(decode: Decode, id: StreamId, run: LoopRun, w: R.World, n: nat): R.World
    requires w.phase.Replaying? && 0 < n <= |run.items|
  {
    R.World(w.source, FeedLogAll(decode, id, w.target, run.Messages(n)), w.saved + Saves(run, n - 1),
            R.Phase.Replaying(w.phase.next + |Entries(decode, id, run.items, n)|, w.phase.end),
            Place(run, w.now, n - 1), w.outset)
  }

  lemma ItemIsReplayed(s: Stream, decode: Decode, run: LoopRun, w: R.World, n: nat, m: nat)
    requires Mirrors(decode, s.id, run, w, m) && AllArrive(decode, s.id, run, m) && 0 < n <= m
    requires R.VersionOf(Place(run, w.now, n - 1).state, s.id) == R.VersionOf(w.now.state, s.id)
    requires Reaches(s, w, RunWorld(decode, s.id, run, w, n - 1))
    ensures Reaches(s, w, BeforeState(decode, s.id, run, w, n))
  {
    hide Mirrors, AllArrive, Reaches, Entries, ItemEntries, FeedLogAll, ReplayEntries, ContextAt, R.VersionOf, Place,
         Saves, StepItem;
    MirrorsRun(decode, s.id, run, w, m);
    var entries := ItemEntries(decode, s.id, run.items[n - 1]);
    var before := RunWorld(decode, s.id, run, w, n - 1);
    NextChanges(decode, s.id, run, w, n, m);
    NextTarget(decode, s.id, run, w, n, m, R.VersionOf(w.now.state, s.id));
    EntriesAreSteps(s, w, before, entries, |entries|);
    assert entries[..|entries|] == entries;
    assert Replayed(before, entries, R.VersionOf(w.now.state, s.id)) == BeforeState(decode, s.id, run, w, n);
  }

  lemma NextItemIsAPath(s: Stream, decode: Decode, run: LoopRun, w: R.World, n: nat, m: nat)
    requires Mirrors(decode, s.id, run, w, m) && AllArrive(decode, s.id, run, m) && 0 < n <= m
    requires BookmarkOf(w.now.state, s.id) == BookmarkOf(run.start, s.id)
    requires Reaches(s, w, RunWorld(decode, s.id, run, w, n - 1))
    ensures Reaches(s, w, RunWorld(decode, s.id, run, w, n))
  {
    hide Mirrors, AllArrive, Reaches, Entries, FeedLogAll, R.VersionOf, CheckpointDue, LikeButForPlace, BeforeState,
         RunWorld, Readable;
    MirrorsRun(decode, s.id, run, w, m);
    MirrorsItem(decode, s.id, run, w, n, m);
    PlaceIsLike(s.id, run, w.now, n - 1);
    ItemIsReplayed(s, decode, run, w, n, m);
    StateFollows(decode, s.id, run, w, n);
    if run.Due(n) {
      NoGtidEver(run, n - 1);
      NoGtidEver(run, n);
      PlaceIsNotAhead(decode, s.id, run, w, n, m);
      CheckpointIsSteps(s, w, run, BeforeState(decode, s.id, run, w, n), n, RunWorld(decode, s.id, run, w, n));
    }
  }

  lemma StateFollows(decode: Decode, id: StreamId, run: LoopRun, w: R.World, n: nat)
    requires w.phase.Replaying? && 0 < n <= |run.items|
    ensures var u, at := BeforeState(decode, id, run, w, n), run.items[n - 1].at;
            && u.phase == R.Phase.Replaying(w.phase.next + |Entries(decode, id, run.items, n)|, w.phase.end)
            && u.source == w.source && u.now == Place(run, w.now, n - 1)
            && RunWorld(decode, id, run, w, n)
               == if !run.Due(n) then u
                  else u.(saved := u.saved + {R.Checkpoint(run.StateAfter(n), at)},
                          now := R.Checkpoint(run.StateAfter(n), at))
  {
    hide Entries, FeedLogAll;
    assert w.saved + Saves(run, n - 1) + {} == w.saved + Saves(run, n - 1);
    assert w.saved + (Saves(run, n - 1) + {R.Checkpoint(run.StateAfter(n), run.items[n - 1].at)})
        == w.saved + Saves(run, n - 1) + {R.Checkpoint(run.StateAfter(n), run.items[n - 1].at)};
  }

  /** Moving the bookmarks of all streams and writing the STATE. */
  lemma CheckpointIsSteps(s: Stream, start: R.World, run: LoopRun, w: R.World, n: nat, w': R.World)
    requires Reaches(s, start, w) && w.phase.Replaying? && 0 < n <= |run.items| && run.Due(n) && s.id in run.Ids()
    requires run.GtidAfter(n - 1) == run.GtidAfter(n) == Null && !run.items[n - 1].event.Gtid?
    requires LikeButForPlace(w.now.state, run.StateAfter(n - 1), s.id)
    requires var at := run.items[n - 1].at;
             && RealPos(at) && AtMost(at, w.source.here) && w.source.Clock(at) <= w.phase.next
             && w' == w.(saved := w.saved + {R.Checkpoint(run.StateAfter(n), at)},
                         now := R.Checkpoint(run.StateAfter(n), at))
    ensures Reaches(s, start, w')
  {
    hide Reaches, LikeButForPlace, Moved, CheckpointDue;
    var item := run.items[n - 1];
    var moved := ItemMoved(run.StateAfter(n - 1), run.Ids(), item, Null);
    if item.event.Rotate? {
      MovedIsLike(w.now.state, run.StateAfter(n - 1), s.id, run.Ids(), item.event.next);
    }
    MovedIsLike(w.now.state, moved, s.id, run.Ids(), item.at);
    var u1 := w.(now := R.Checkpoint(Moved(w.now.state, {s.id}, item.at, Null), item.at));
    var u2 := w.(now := R.Checkpoint(run.StateAfter(n), item.at));
    OneStep(s, start, w, R.MoveBookmarks(item.at), u1);
    OneStep(s, start, u1, R.SyncOthers(run.StateAfter(n)), u2);
    OneStep(s, start, u2, R.EmitState, w');
  }

  /** However far a run gets, its messages and its bookmarks are a path of the protocol. */
  lemma {:induction false} BinlogRunIsAPath(s: Stream, decode: Decode, run: LoopRun, w: R.World, n: nat, m: nat)
    requires Mirrors(decode, s.id, run, w, m) && AllArrive(decode, s.id, run, m) && n <= m
    requires BookmarkOf(w.now.state, s.id) == BookmarkOf(run.start, s.id)
    ensures Reaches(s, w, RunWorld(decode, s.id, run, w, n))
    decreases n
  {
    hide Reaches, RunWorld, Mirrors, AllArrive;
    MirrorsRun(decode, s.id, run, w, m);
    if n == 0 {
      Stay(s, w);
      NothingRun(decode, s.id, run, w);
    } else {
      BinlogRunIsAPath(s, decode, run, w, n - 1, m);
      NextItemIsAPath(s, decode, run, w, n, m);
    }
  }

  lemma NothingRun(decode: Decode, id: StreamId, run: LoopRun, w: R.World)
    requires w.phase.Replaying?
    ensures RunWorld(decode, id, run, w, 0) == w
  {
    assert run.Messages(0) == [] && Entries(decode, id, run.items, 0) == [] && Saves(run, 0) == {};
    assert w.saved + {} == w.saved;
  }

  // ----- the end of a run -----

  function FinalState(run: LoopRun, m: nat, end: Pos): State
    requires m <= |run.items| && run.items != []
  {
    Moved(run.StateAfter(m), run.Ids(), FinalPos(run.items, m, end), run.GtidAfter(m))
  }

  /** The bookmark of a completed run, and the STATE that goes out last. */
  function FinalCheckpoint(run: LoopRun, m: nat, end: Pos): R.Checkpoint
    requires m <= |run.items| && run.items != []
  {
    R.Checkpoint(FinalState(run, m, end), FinalPos(run.items, m, end))
  }

  /** The world once the run is complete, and before its process ends. */
  function Moving(decode: Decode, id: StreamId, run: LoopRun, w: R.World, m: nat): R.World
    requires w.phase.Replaying? && m <= |run.items| && run.items != []
  {
    RunWorld(decode, id, run, w, m).(now := FinalCheckpoint(run, m, w.phase.end))
  }

  /** The world once the last STATE is out. */
  function Completed(decode: Decode, id: StreamId, run: LoopRun, w: R.World, m: nat): R.World
    requires w.phase.Replaying? && m <= |run.items| && run.items != []
  {
    var u := Moving(decode, id, run, w, m);
    u.(phase := R.Phase.Done, saved := u.saved + {u.now})
  }

  /** The final position is one that the protocol may move the bookmarks to. */
  lemma FinalPosFits(decode: Decode, id: StreamId, run: LoopRun, w: R.World, m: nat)
    requires Mirrors(decode, id, run, w, m) && run.items != [] && HandlesUpTo(run.items, m, w.phase.end)
             && RealPos(w.phase.end)
    ensures var at := FinalPos(run.items, m, w.phase.end);
            RealPos(at) && AtMost(at, w.source.here) && w.source.Clock(at) <= w.source.Clock(w.phase.end)
  {
    hide Entries, ItemFits, Prepared;
    var at := FinalPos(run.items, m, w.phase.end);
    FinalPosIsNotPastTheEnd(run.items, m, w.phase.end);
    BeforeTransitive(at, w.phase.end, w.source.here);
    T.ClockMonotone(w.source, at, w.phase.end);
  }

  lemma MovingIsAPath(s: Stream, decode: Decode, run: LoopRun, w: R.World, m: nat)
    requires Mirrors(decode, s.id, run, w, m) && AllArrive(decode, s.id, run, m)
    requires run.items != [] && HandlesUpTo(run.items, m, w.phase.end) && RealPos(w.phase.end)
    requires BookmarkOf(w.now.state, s.id) == BookmarkOf(run.start, s.id)
    ensures Reaches(s, w, Moving(decode, s.id, run, w, m))
  {
    hide Mirrors, AllArrive, Reaches, FeedLogAll, Entries, LikeButForPlace, Moved, FinalPos, HandlesUpTo;
    MirrorsRun(decode, s.id, run, w, m);
    BinlogRunIsAPath(s, decode, run, w, m, m);
    FinalPosFits(decode, s.id, run, w, m);
    NoGtidEver(run, m);
    PlaceIsLike(s.id, run, w.now, m);
    var u, at := RunWorld(decode, s.id, run, w, m), FinalPos(run.items, m, w.phase.end);
    MovedIsLike(u.now.state, run.StateAfter(m), s.id, run.Ids(), at);
    var u1 := u.(now := R.Checkpoint(Moved(u.now.state, {s.id}, at, Null), at));
    OneStep(s, w, u, R.MoveBookmarks(at), u1);
    OneStep(s, w, u1, R.SyncOthers(FinalState(run, m, w.phase.end)), Moving(decode, s.id, run, w, m));
  }

  /** A completed run is a path of the protocol to its very end: the bookmarks move to the final position,
      and the last STATE goes out. */
  lemma CompletedRunIsAPath(s: Stream, decode: Decode, run: LoopRun, w: R.World, m: nat)
    requires Mirrors(decode, s.id, run, w, m) && AllArrive(decode, s.id, run, m)
    requires run.items != [] && HandlesUpTo(run.items, m, w.phase.end) && RealPos(w.phase.end)
    requires BookmarkOf(w.now.state, s.id) == BookmarkOf(run.start, s.id)
    ensures Reaches(s, w, Completed(decode, s.id, run, w, m))
  {
    hide Mirrors, AllArrive, Reaches, Moving, HandlesUpTo;
    MirrorsRun(decode, s.id, run, w, m);
    MovingIsAPath(s, decode, run, w, m);
    MovingIsAtTheEnd(decode, s.id, run, w, m);
    ProcessEnds(s, w, Moving(decode, s.id, run, w, m));
  }

  lemma MovingIsAtTheEnd(decode: Decode, id: StreamId, run: LoopRun, w: R.World, m: nat)
    requires Mirrors(decode, id, run, w, m) && run.items != []
    ensures var u := Moving(decode, id, run, w, m);
            && u.phase == R.Phase.Replaying(w.source.Clock(w.phase.end), w.phase.end)
            && u.source == w.source && u.source.Valid()
  {
    hide Entries, FeedLogAll, FinalCheckpoint, Saves, Place, Mirrors;
    MirrorsRun(decode, id, run, w, m);
  }

  /** At the end of the log the process ends, and writes its STATE. */
  lemma ProcessEnds(s: Stream, start: R.World, w: R.World)
    requires Reaches(s, start, w) && w.phase.Replaying? && w.source.Valid()
             && w.phase.next == w.source.Clock(w.phase.end)
    ensures Reaches(s, start, w.(phase := R.Phase.Done, saved := w.saved + {w.now}))
  {
    hide Reaches;
    T.ClockSplits(w.source, w.phase.end);
    var done := w.(phase := R.Phase.Done);
    OneStep(s, start, w, R.FinishReplay, done);
    OneStep(s, start, done, R.EmitState, done.(saved := w.saved + {w.now}));
  }

  /** The next run may start from the last STATE: the stream is ready, and no key is unaccounted for. */
  lemma LastStateIsGood(s: Stream, decode: Decode, run: LoopRun, w: R.World, m: nat)
    requires s.replication == LogBased && R.Inv(w, s.id)
    requires Mirrors(decode, s.id, run, w, m) && AllArrive(decode, s.id, run, m)
    requires run.items != [] && HandlesUpTo(run.items, m, w.phase.end) && RealPos(w.phase.end)
    requires BookmarkOf(w.now.state, s.id) == BookmarkOf(run.start, s.id)
    ensures var last := FinalCheckpoint(run, m, w.phase.end);
            && !RequiresHistorical(last.state, s.id)
            && R.Tracked(w.source, FeedLogAll(decode, s.id, w.target, run.Messages(m)), w.outset, s.id, last, true)
  {
    hide Mirrors, AllArrive, Reaches, FeedLogAll, Entries, FinalCheckpoint, HandlesUpTo, R.Inv, R.Tracked,
         RequiresHistorical;
    MirrorsRun(decode, s.id, run, w, m);
    MovingIsAPath(s, decode, run, w, m);
    var u := Moving(decode, s.id, run, w, m);
    ReachesKeepsInv(s, w, u);
    ReplayingIsTracked(u, s.id);
  }

  lemma ReplayingIsTracked(w: R.World, id: StreamId)
    requires R.Inv(w, id) && w.phase.Replaying?
    ensures R.Tracked(w.source, w.target, w.outset, id, w.now, true) && !RequiresHistorical(w.now.state, id)
  {
    hide R.AllCovered, R.ReplayStands, T.KeysStay, R.OutOfReachIsKept;
    R.BegunKinds(w.now.state, id);
  }

  /** Fed with the messages of a complete run, the target shows exactly the source table as it was at the
      run's end position, if and only if what the last fresh snapshot found is harmless. */
  lemma BinlogRunConverges(s: Stream, decode: Decode, run: LoopRun, w: R.World, m: nat)
    requires s.replication == LogBased && R.Inv(w, s.id)
    requires Mirrors(decode, s.id, run, w, m) && AllArrive(decode, s.id, run, m)
    requires BookmarkOf(w.now.state, s.id) == BookmarkOf(run.start, s.id)
    ensures R.ShowsTableAt(w.source, FeedLogAll(decode, s.id, w.target, run.Messages(m)), w.phase.end)
       <==> forall k :: R.Harmless(w.outset, w.source, w.source.Clock(w.phase.end), k)
  {
    hide Mirrors, AllArrive, Reaches, FeedLogAll, Entries, R.Inv, R.Harmless;
    MirrorsRun(decode, s.id, run, w, m);
    BinlogRunIsAPath(s, decode, run, w, m, m);
    var last := RunWorld(decode, s.id, run, w, m);
    ReachesKeepsInv(s, w, last);
    T.ClockSplits(w.source, w.phase.end);
    R.ReplayEndsExactly(s, last, last.(phase := R.Phase.Done));
  }
}
