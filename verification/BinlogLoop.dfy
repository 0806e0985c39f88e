/**
 `_run_binlog_sync`: the event loop, its bookmarks, its schema drift and its STATE messages.
 */
module BinlogLoop {
  import opened Singer
  import opened FileNames
  import opened Writers
  import opened Drift
  import opened BinlogSpec

  /** The version of each stream is the one in its bookmark. */
  predicate Versioned(streams: map<StreamId, StreamEntry>, st: State) {
    forall id :: id in streams ==> streams[id].version == StoredVersion(st, id)
  }

  /** What the streams map has for a stream: `add_automatic_properties` adds the deletion time. */
  function MapEntry(catalog: CatalogEntry, version: Option<int>): StreamEntry {
    var properties := catalog.properties[DELETED_AT := DELETED_PROPERTY];
    StreamEntry(catalog.(properties := properties), properties.Keys, version)
  }

  /** The map has these streams of the catalog, each under the version of its bookmark. */
  ghost predicate MapOf(streams: map<StreamId, StreamEntry>, catalog: map<StreamId, CatalogEntry>, state: State) {
    forall id :: id in streams ==>
      id in catalog && streams[id] == MapEntry(catalog[id], StoredVersion(state, id))
  }

  /** The last SCHEMA of each of these streams has just the columns of its catalog entry. */
  ghost predicate SchemasSent(ids: set<StreamId>, catalog: map<StreamId, CatalogEntry>, msgs: seq<Message>) {
    forall id :: id in ids && id in catalog ==> LastSchema(msgs, id) == Some(catalog[id].properties.Keys)
  }

  /** The messages and the map agree, and the messages are as good as those before. */
  ghost predicate MapStands(streams: map<StreamId, StreamEntry>, catalog: map<StreamId, CatalogEntry>,
                            before: seq<Message>, sent: seq<Message>, state: State) {
    && MapOf(streams, catalog, state) && SchemasSent(streams.Keys, catalog, before + sent)
    && SchemasAgree(Context(streams, {}), before + sent)
    && (RecordsFit(before) ==> RecordsFit(before + sent))
    && (forall m :: m in sent ==> m.Schema?)
  }

  /** `generate_streams_map`, and the SCHEMA messages that `sync_binlog_streams` sends before it. */
  method GenerateStreamsMap(catalog: map<StreamId, CatalogEntry>, output: Output, state: State)
    returns (streams: map<StreamId, StreamEntry>)
    modifies output
    ensures streams.Keys == catalog.Keys && MapOf(streams, catalog, state) && Versioned(streams, state)
    ensures old(output.messages) <= output.messages
    ensures SchemasSent(catalog.Keys, catalog, output.messages)
    ensures SchemasAgree(Context(streams, {}), output.messages)
    ensures RecordsFit(old(output.messages)) ==> RecordsFit(output.messages)
    ensures WithoutStates(output.messages[|old(output.messages)|..]) == output.messages[|old(output.messages)|..]
  {
    hide *;
    streams := map[];
    var todo := catalog.Keys;
    ghost var out0, sent := output.messages, [];
    NoStreams(catalog, out0, state);
    while todo != {}
      invariant todo <= catalog.Keys && streams.Keys == catalog.Keys - todo
      invariant output.messages == out0 + sent && MapStands(streams, catalog, out0, sent, state)
      decreases |todo|
    {
      var id :| id in todo;
      todo := todo - {id};
      ghost var schema;
      streams, schema := AddStream(streams, id, catalog, output, state, out0, sent);
      Associative(out0, sent, [schema]);
      sent := sent + [schema];
    }
    MapIsDone(streams, catalog, out0, sent, state);
  }

  method AddStream(streams: map<StreamId, StreamEntry>, id: StreamId, catalog: map<StreamId, CatalogEntry>,
                   output: Output, state: State, ghost before: seq<Message>, ghost sent: seq<Message>)
    returns (more: map<StreamId, StreamEntry>, ghost schema: Message)
    requires id in catalog && id !in streams
    requires output.messages == before + sent && MapStands(streams, catalog, before, sent, state)
    modifies output
    ensures more.Keys == streams.Keys + {id} && output.messages == old(output.messages) + [schema]
    ensures MapStands(more, catalog, before, sent + [schema], state)
  {
    hide SchemasAgree, RecordsFit, StreamVersion, LastSchema;
    var columns := catalog[id].properties.Keys;
    schema := Schema(id, columns);
    var entry := catalog[id].(properties := catalog[id].properties[DELETED_AT := DELETED_PROPERTY]);
    var version := StoredVersion(state, id);
    StreamAdded(streams, before + sent, id, entry, columns, version);
    forall x | x in streams || x == id
      ensures LastSchema(before + sent + [schema], x) == if x == id then Some(columns) else LastSchema(before + sent, x)
    {
      SchemaOne(before + sent, schema, x);
    }
    if RecordsFit(before) { SchemaFits(before + sent, id, columns); }
    Associative(before, sent, [schema]);
    output.Emit(Schema(id, columns));
    more := streams[id := StreamEntry(entry, entry.properties.Keys, version)];
  }

  lemma SchemaFits(msgs: seq<Message>, id: StreamId, columns: set<string>)
    requires RecordsFit(msgs)
    ensures RecordsFit(msgs + [Schema(id, columns)])
  {
    RecordsFitOne(msgs, Schema(id, columns));
  }

  lemma MapIsDone(streams: map<StreamId, StreamEntry>, catalog: map<StreamId, CatalogEntry>, before: seq<Message>,
                  sent: seq<Message>, state: State)
    requires MapStands(streams, catalog, before, sent, state)
    ensures SchemasSent(streams.Keys, catalog, before + sent)
    ensures MapOf(streams, catalog, state) && Versioned(streams, state)
            && SchemasAgree(Context(streams, {}), before + sent)
    ensures RecordsFit(before) ==> RecordsFit(before + sent)
    ensures before <= before + sent && WithoutStates((before + sent)[|before|..]) == (before + sent)[|before|..]
  {
    assert (before + sent)[|before|..] == sent;
    OnlyData(sent);
  }

  lemma NoStreams(catalog: map<StreamId, CatalogEntry>, before: seq<Message>, state: State)
    ensures MapStands(map[], catalog, before, [], state) && before + [] == before
  {
    assert before + [] == before;
  }

  lemma OnlyData(msgs: seq<Message>)
    requires forall m :: m in msgs ==> m.Schema?
    ensures WithoutStates(msgs) == msgs
  {
    WithoutStatesConcat([], msgs);
    assert [] + msgs == msgs;
  }

  lemma StreamAdded(streams: map<StreamId, StreamEntry>, sent: seq<Message>, id: StreamId, entry: CatalogEntry,
                    columns: set<string>, version: Option<int>)
    requires SchemasAgree(Context(streams, {}), sent) && id !in streams
    requires entry.properties.Keys == columns + {DELETED_AT}
    ensures SchemasAgree(Context(streams[id := StreamEntry(entry, entry.properties.Keys, version)], {}),
                         sent + [Schema(id, columns)])
  {
    forall x | x in streams || x == id
      ensures LastSchema(sent + [Schema(id, columns)], x) == if x == id then Some(columns) else LastSchema(sent, x)
    {
      SchemaOne(sent, Schema(id, columns), x);
    }
  }

  datatype Outcome = Completed | Raised

  /** The loop of `update_bookmarks` over the streams of the run. */
  method UpdateEach(before: State, ids: set<StreamId>, at: Pos, gtid: Value) returns (state: State)
    ensures state == Moved(before, ids, at, gtid)
  {
    state := before;
    var todo := ids;
    MovedNone(before, ids - todo, at, gtid);
    while todo != {}
      invariant todo <= ids
      invariant state == Moved(before, ids - todo, at, gtid)
      decreases todo
    {
      var id :| id in todo;
      MovedOneMore(before, ids - todo, id, ids - (todo - {id}), at, gtid);
      todo := todo - {id};
      state := UpdateOne(state, id, at, gtid);
    }
    assert ids - todo == ids;
  }

  method UpdateOne(before: State, id: StreamId, at: Pos, gtid: Value) returns (state: State)
    ensures state == WriteAll(before, id, at, gtid)
  {
    state := Write(before, id, LogFile, Text(at.file));
    state := Write(state, id, LogPos, Num(at.offset));
    if Truthy(gtid) {
      state := Write(state, id, Field.Gtid, gtid);
    }
  }

  class BinlogSync {
    var state: State
    var streams: map<StreamId, StreamEntry>
    var ignored: set<string>
    var processedRows: nat
    var eventsSkipped: nat
    const output: Output

    constructor (state: State, streams: map<StreamId, StreamEntry>, output: Output)
      ensures this.state == state && this.streams == streams && this.output == output
      ensures ignored == {} && processedRows == 0 && eventsSkipped == 0
    {
      this.state, this.streams, this.output := state, streams, output;
      ignored, processedRows, eventsSkipped := {}, 0, 0;
    }

    function Current(): Context
      reads this
    {
      Context(streams, ignored)
    }

    /** `update_bookmarks`. */
    method UpdateBookmarks(at: Pos, gtid: Value)
      requires RealPos(at) && Versioned(streams, state)
      modifies this`state
      ensures state == Moved(old(state), streams.Keys, at, gtid) && Versioned(streams, state)
    {
      MovedKeepsVersions(streams, state, at, gtid);
      state := UpdateEach(state, streams.Keys, at, gtid);
    }

    /** Discover the table, keep what a stream can carry, add the deletion time. */
    method Rediscover(table: Definition) returns (entry: CatalogEntry)
      ensures entry == Rediscovered(table)
    {
      var columns := DesiredColumns(table.Keys, table);
      assert columns == Supported(table);
      var properties := table;
      var todo := table.Keys;
      while todo != {}
        invariant todo <= table.Keys
        invariant properties == map c | c in table && (c in todo || c in columns) :: table[c]
        decreases |todo|
      {
        var c :| c in todo;
        todo := todo - {c};
        if c !in columns {
          properties := properties - {c};
        }
      }
      entry := CatalogEntry(properties[DELETED_AT := DELETED_PROPERTY], MetadataOf(table));
    }

    /** A difference between the event and the schema: discover, or ignore the columns. */
    method SettleDiff(id: StreamId, diff: set<string>, table: Option<Definition>) returns (ok: bool)
      requires id in streams
      modifies this`streams, this`ignored, output
      ensures var entry := old(streams)[id];
              && ok == (Discovers(entry, diff) ==> table.Some?)
              && (!ok ==> streams == old(streams) && ignored == old(ignored) && output.messages == old(output.messages))
              && (ok ==> var definition := if table.Some? then table.value else map[];
                         var entry' := SettledEntry(entry, diff, definition);
                         && streams == old(streams)[id := entry']
                         && ignored == SettledIgnored(entry, old(ignored), diff, definition)
                         && output.messages == old(output.messages) +
                              (if entry' != entry then [Schema(id, entry'.catalog.properties.Keys)] else []))
    {
      var entry := streams[id];
      assert streams == streams[id := entry];
      var discover := ShouldRunDiscovery(diff, entry.catalog.metadata);
      if !discover {
        ignored := ignored + diff;
        return true;
      }
      if table.None? {
        return false;
      }
      var found := Rediscover(table.value);
      if found.properties != entry.catalog.properties {
        output.Emit(Schema(id, found.properties.Keys));
        streams := streams[id := StreamEntry(found, found.properties.Keys, entry.version)];
      }
      var unresolved := diff - found.properties.Keys;
      if unresolved != {} {
        ignored := ignored + unresolved;
      }
      ok := true;
    }

    /** The three handlers: one RECORD for each row, with the version in the bookmark. */
    method HandleRows(ev: RowsEvent, desired: set<string>)
      modifies this`processedRows, output
      ensures var changes := Changes(ev, desired, StreamVersion(state, ev.stream, ev.now), |ev.rows|);
              output.messages == old(output.messages) + changes
      ensures ev.kind != OtherRows ==>
                forall j :: 0 <= j < |ev.rows| ==>
                  && |old(output.messages)| + j < |output.messages|
                  && CarriesRow(output.messages[|old(output.messages)| + j], ev, desired, ev.rows[j],
                                StreamVersion(state, ev.stream, ev.now))
      ensures processedRows == old(processedRows) + (if ev.kind == OtherRows then 0 else |ev.rows|)
    {
      hide CarriesRow, StreamVersion;
      if ev.kind == OtherRows {
        return;
      }
      ghost var out0 := output.messages;
      var version := StreamVersion(state, ev.stream, ev.now);
      for i := 0 to |ev.rows|
        invariant output.messages == out0 + Changes(ev, desired, version, i)
        invariant processedRows == old(processedRows) + i
      {
        output.Emit(Change(ev.stream, RecordOf(ev, desired, ev.rows[i]), version));
        processedRows := processedRows + 1;
      }
      forall j | 0 <= j < |ev.rows|
        ensures |out0| + j < |output.messages|
        ensures CarriesRow(output.messages[|out0| + j], ev, desired, ev.rows[j], version)
      {
        ChangesCarryRows(ev, desired, version, |ev.rows|, j);
      }
    }

    /** A row event of a selected table is verified, reconciled with the schema, and written. */
    method HandleRowsEvent(ev: RowsEvent, table: Option<Definition>) returns (ok: bool)
      requires Versioned(streams, state)
      modifies this`streams, this`ignored, this`processedRows, this`eventsSkipped, output
      ensures var step := HandleEvent(old(Current()), ev, table);
              && ok == step.Step?
              && (ok ==> Current() == step.context && output.messages == old(output.messages) + step.msgs)
              && (!ok ==> output.messages == old(output.messages))
      ensures streams.Keys == old(streams.Keys) && Versioned(streams, state)
      ensures ok ==>
                processedRows
                == old(processedRows) + (if ev.stream in streams && ev.kind != OtherRows then |ev.rows| else 0)
      ensures ok ==> eventsSkipped == old(eventsSkipped) + (if ev.stream in streams then 0 else 1)
    {
      hide Discovers, SettledEntry, SettledIgnored, Changes, Diff, IsUnknownColumn, VersionAt, StoredVersion,
           Rediscovered;
      if ev.stream !in streams {
        eventsSkipped := eventsSkipped + 1;
        return true;
      }
      var unnamed := exists c :: c in ev.columns && (c.None? || IsUnknownColumn(c.value));
      if unnamed {
        return false;
      }
      ghost var out0, context, entry := output.messages, Current(), streams[ev.stream];
      var diff := Diff(ev, streams[ev.stream].catalog.properties.Keys, ignored);
      SettlingNothing(context, ev.stream, diff, table);
      if diff != {} {
        ok := SettleDiff(ev.stream, diff, table);
        if !ok {
          return;
        }
      }
      SettledKeepsVersion(entry, diff, if table.Some? then table.value else map[]);
      ghost var announced := if streams[ev.stream] != entry
                             then [Schema(ev.stream, streams[ev.stream].catalog.properties.Keys)] else [];
      assert output.messages == out0 + announced;
      HandleRows(ev, streams[ev.stream].desired);
      ghost var version := VersionAt(streams[ev.stream].version, ev.now);
      Associative(out0, announced, Changes(ev, streams[ev.stream].desired, version, |ev.rows|));
      ok := true;
    }

    /** The loop.  It handles exactly the items that start before the end, in order, unless one of
        them raises.  Its messages and its bookmarks are those of the run's specification, and the
        final bookmark is that of `FinalPos`. */
    method Run(items: seq<Item>, autoPosition: Value,
               end: Pos) returns (outcome: Outcome, handled: nat, ghost msgs: seq<Message>)
      requires WellPositioned(items) && RealPos(end)
      requires Versioned(streams, state)
      modifies this, output
      ensures output.messages == old(output.messages) + msgs
      ensures handled <= |items| && forall i :: 0 <= i < handled ==> Before(items[i].at, end)
      ensures var run := LoopRun(Context(old(streams), {}), items, old(state), autoPosition);
              && msgs == run.Messages(handled)
              && streams.Keys == run.Ids() && Versioned(streams, state)
              && (outcome == Completed ==>
                    && HandlesUpTo(items, handled, end)
                    && Current() == ContextAt(run.context, items, handled)
                    && state == (if items == [] then run.start
                                 else Moved(run.StateAfter(handled), run.Ids(), FinalPos(items, handled, end),
                                            run.GtidAfter(handled))))
              && (outcome == Raised ==>
                    && handled < |items| && Before(items[handled].at, end)
                    && StepItem(ContextAt(run.context, items, handled), items[handled]) == Failure)
    {
      processedRows, eventsSkipped, ignored := 0, 0, {};
      ghost var out0, run := output.messages, LoopRun(Current(), items, state, autoPosition);
      var log: Option<Pos> := None;
      var gtidPos := autoPosition;
      handled, msgs := 0, [];
      assert Follows(run, 0, gtidPos);
      hide Follows, Versioned, ContextAt, StepItem, Less, Before, AtMost, FinalPos, Moved;
      while handled < |items|
        invariant handled <= |items| && forall i :: 0 <= i < handled ==> Before(items[i].at, end)
        invariant output.messages == out0 + msgs && msgs == run.Messages(handled)
        invariant Follows(run, handled, gtidPos)
        invariant log == if handled == 0 then None else Some(items[handled - 1].at)
      {
        var item := items[handled];
        log := Some(item.at);
        EndTest(item.at, end);
        if Less(end.file, item.at.file) || (end.file == item.at.file && item.at.offset >= end.offset) {
          log := Some(end);
          break;
        }
        var ok;
        ghost var more: seq<Message>;
        ok, gtidPos, more := HandleAndCheckpoint(run, handled, item, gtidPos);
        if !ok {
          return Raised, handled, msgs;
        }
        Associative(out0, msgs, more);
        msgs := msgs + more;
        handled := handled + 1;
      }
      LastPos(items, handled, end, log);
      RunStands(run, handled, gtidPos);
      Finish(log, gtidPos, end);
      outcome := Completed;
    }

    /** The loop's variables once it has handled `n` items of the run. */
    ghost predicate Follows(run: LoopRun, n: nat, gtidPos: Value)
      requires n <= |run.items|
      reads this
    {
      && Current() == ContextAt(run.context, run.items, n)
      && streams.Keys == run.Ids() && Versioned(streams, state)
      && state == run.StateAfter(n) && gtidPos == run.GtidAfter(n)
      && processedRows == run.RowsBy(n) && eventsSkipped == run.SkippedBy(n)
    }

    lemma RunStands(run: LoopRun, n: nat, gtidPos: Value)
      requires n <= |run.items| && Follows(run, n, gtidPos)
      ensures Current() == ContextAt(run.context, run.items, n)
      ensures streams.Keys == run.Ids() && Versioned(streams, state)
      ensures state == run.StateAfter(n) && gtidPos == run.GtidAfter(n)
      ensures n == 0 ==> state == run.start
    {
    }

    /** The loop body for an item before the end. */
    method HandleAndCheckpoint(ghost run: LoopRun, ghost n: nat, item: Item, gtid: Value)
      returns (ok: bool, gtidPos: Value, ghost more: seq<Message>)
      requires WellPositioned(run.items) && n < |run.items| && item == run.items[n]
      requires Follows(run, n, gtid)
      modifies this, output
      ensures output.messages == old(output.messages) + more
      ensures ok ==> Follows(run, n + 1, gtidPos) && run.Messages(n + 1) == run.Messages(n) + more
      ensures !ok ==> more == [] && StepItem(ContextAt(run.context, run.items, n), item) == Failure
      ensures !ok ==> streams.Keys == run.Ids() && Versioned(streams, state)
    {
      hide Versioned, StepItem, Moved, ItemMoved, ItemRows, ItemSkips, CheckpointDue, WellPositioned, ItemData;
      RealItem(run.items, n);
      ContextStep(run.context, run.items, n);
      gtidPos := gtid;
      ghost var out0, data, states := output.messages, [], [];
      ok, data := Handle(item, gtidPos);
      if !ok {
        return false, gtidPos, [];
      }
      CountsAgree(Current(), run.context, item);
      if item.event.Gtid? {
        gtidPos := Text(item.event.gtid);
      }
      states := Checkpoint(item.at, gtidPos);
      Associative(out0, data, states);
      Associative(run.Messages(n), data, states);
      more := data + states;
    }

    /** Move the bookmarks and write a STATE, when the row count or the skip count calls for it. */
    method Checkpoint(at: Pos, gtidPos: Value) returns (ghost states: seq<Message>)
      requires RealPos(at) && Versioned(streams, state)
      modifies this`state, output
      ensures state
           == if CheckpointDue(processedRows, eventsSkipped) then Moved(old(state), streams.Keys, at, gtidPos)
              else old(state)
      ensures states == if CheckpointDue(processedRows, eventsSkipped) then [StateMessage(state)] else []
      ensures output.messages == old(output.messages) + states
      ensures Versioned(streams, state)
    {
      states := [];
      if (processedRows != 0 && processedRows % UPDATE_BOOKMARK_PERIOD == 0)
         || (eventsSkipped != 0 && eventsSkipped % UPDATE_BOOKMARK_PERIOD == 0) {
        UpdateBookmarks(at, gtidPos);
        output.Emit(StateMessage(state));
        states := [StateMessage(state)];
      }
    }

    /** After the loop: a run that ended in the end file moves up to the end. */
    method Finish(log: Option<Pos>, gtidPos: Value, end: Pos)
      requires RealPos(end) && (log.Some? ==> RealPos(log.value)) && Versioned(streams, state)
      modifies this`state
      ensures Versioned(streams, state)
      ensures log == None ==> state == old(state)
      ensures log.Some? ==> state == Moved(old(state), streams.Keys,
                                           if log.value.file == end.file && log.value.offset < end.offset then end
                                              else log.value,
                                           gtidPos)
    {
      var last := log;
      if log.Some? && log.value.file == end.file && log.value.offset < end.offset {
        last := Some(end);
      }
      if last.Some? {
        UpdateBookmarks(last.value, gtidPos);
      }
    }

    /** The body of the loop for one item that is not past the end. */
    method Handle(item: Item, gtidPos: Value) returns (ok: bool, ghost more: seq<Message>)
      requires RealPos(item.at) && (item.event.Rotate? ==> RealPos(item.event.next))
      requires Versioned(streams, state)
      modifies this, output
      ensures var step := StepItem(old(Current()), item);
              && ok == step.Step?
              && output.messages == old(output.messages) + more
              && more == ItemData(old(Current()), item)
              && (ok ==> Current() == step.context)
              && (!ok ==> more == [])
      ensures streams.Keys == old(streams.Keys) && Versioned(streams, state)
      ensures ok ==>
                && state == ItemMoved(old(state), streams.Keys, item, gtidPos)
                && processedRows == old(processedRows) + ItemRows(Current(), item)
                && eventsSkipped == old(eventsSkipped) + ItemSkips(Current(), item)
    {
      hide Versioned, Moved, HandleEvent;
      ok, more := true, [];
      match item.event {
        case Rotate(next) =>
          UpdateBookmarks(next, gtidPos);
        case Gtid(gtid) =>
          UpdateBookmarks(item.at, Text(gtid));
        case Rows(rows) =>
          more := ItemData(Current(), item);
          ok := HandleRowsEvent(rows, item.table);
      }
    }
  }

  /** Without a difference there is nothing to settle. */
  lemma SettlingNothing(context: Context, id: StreamId, diff: set<string>, table: Option<Definition>)
    requires id in context.streams
    ensures var entry := context.streams[id];
            diff == {} ==> var definition := if table.Some? then table.value else map[];
                           && !Discovers(entry, diff) && SettledEntry(entry, diff, definition) == entry
                           && SettledIgnored(entry, context.ignored, diff, definition) == context.ignored
                           && context.streams[id := entry] == context.streams
  {
  }

  lemma CountsAgree(a: Context, b: Context, item: Item)
    requires a.streams.Keys == b.streams.Keys
    ensures ItemRows(a, item) == ItemRows(b, item) && ItemSkips(a, item) == ItemSkips(b, item)
  {
  }

  lemma RealItem(items: seq<Item>, n: nat)
    requires WellPositioned(items) && n < |items|
    ensures RealPos(items[n].at) && (items[n].event.Rotate? ==> RealPos(items[n].event.next))
  {
  }

  /** A move leaves every version alone. */
  lemma MovedKeepsVersions(streams: map<StreamId, StreamEntry>, st: State, at: Pos, gtid: Value)
    requires Versioned(streams, st)
    ensures Versioned(streams, Moved(st, streams.Keys, at, gtid))
  {
  }

  function WriteAll(st: State, id: StreamId, at: Pos, gtid: Value): State {
    var st' := Write(Write(st, id, LogFile, Text(at.file)), id, LogPos, Num(at.offset));
    if Truthy(gtid) then Write(st', id, Field.Gtid, gtid) else st'
  }

  lemma MovedNone(st: State, none: set<StreamId>, at: Pos, gtid: Value)
    requires none == {}
    ensures Moved(st, none, at, gtid) == st
  {
  }

  lemma MovedOneMore(st: State, done: set<StreamId>, id: StreamId, more: set<StreamId>, at: Pos, gtid: Value)
    requires id !in done && more == done + {id}
    ensures Moved(st, more, at, gtid) == WriteAll(Moved(st, done, at, gtid), id, at, gtid)
  {
    hide WriteAll, MovedBookmark;
    var before, after := Moved(st, done, at, gtid), Moved(st, more, at, gtid);
    WriteAllIs(before, id, at, gtid);
    assert BookmarkOf(before, id) == BookmarkOf(st, id);
    assert after.bookmarks == before.bookmarks[id := MovedBookmark(BookmarkOf(st, id), at, gtid)];
  }

  lemma WriteAllIs(st: State, id: StreamId, at: Pos, gtid: Value)
    ensures WriteAll(st, id, at, gtid) == Put(st, id, MovedBookmark(BookmarkOf(st, id), at, gtid))
  {
    hide Put, BookmarkOf;
    var b := BookmarkOf(st, id)[LogFile := Text(at.file)];
    var b' := b[LogPos := Num(at.offset)];
    PutTwice(st, id, b, b');
    PutTwice(st, id, b', b'[Field.Gtid := gtid]);
  }

  /** The loop's end test is the order of coordinates. */
  lemma EndTest(at: Pos, end: Pos)
    ensures Less(end.file, at.file) || (end.file == at.file && at.offset >= end.offset) <==> !Before(at, end)
  {
    BeforeTotal(at, end);
  }

  /** What the lines after the loop make of the last position is `FinalPos`. */
  lemma LastPos(items: seq<Item>, handled: nat, end: Pos, log: Option<Pos>)
    requires handled <= |items| && (handled == |items| ==> forall i :: 0 <= i < handled ==> Before(items[i].at, end))
    requires log == if handled < |items| then Some(end) else if handled == 0 then None else Some(items[handled - 1].at)
    ensures items != [] ==>
              log.Some? && FinalPos(items, handled, end)
              == if log.value.file == end.file && log.value.offset < end.offset then end else log.value
  {
    LessIrreflexive(end.file);
    if 0 < handled == |items| { assert Before(items[handled - 1].at, end); }
  }

  lemma ContextStep(context: Context, items: seq<Item>, n: nat)
    requires n < |items|
    ensures StepItem(ContextAt(context, items, n), items[n]).Step? ==>
              ContextAt(context, items, n + 1) == StepItem(ContextAt(context, items, n), items[n]).context
  {
  }
}
