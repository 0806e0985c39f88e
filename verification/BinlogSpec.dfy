/**
 What a run of the binlog loop does with the items of its reader, and how runs chain.

 The reader reports the position at which an event starts.
 */
module BinlogSpec {
  import opened Singer
  import opened FileNames
  import opened Drift
  import opened StartPosition

  datatype Event = Rotate(next: Pos) | Gtid(gtid: string) | Rows(rows: RowsEvent)

  /** One event with the reader's position, and what discovering its table would find just then. */
  datatype Item = Item(at: Pos, event: Event, table: Option<Definition>)

  predicate RealPos(p: Pos) {
    p.file != "" && 0 < p.offset
  }

  /** Positions never go back, and a row event has its position to itself: whatever follows it
      starts after it. */
  ghost predicate WellPositioned(items: seq<Item>) {
    && (forall i :: 0 <= i < |items| ==>
          RealPos(items[i].at) && (items[i].event.Rotate? ==> RealPos(items[i].event.next)))
    && (forall i, j :: 0 <= i < j < |items| ==> AtMost(items[i].at, items[j].at))
    && (forall i, j :: 0 <= i < j < |items| && items[i].event.Rows? ==> Before(items[i].at, items[j].at))
  }

  // ----- bookmarks -----

  function MovedBookmark(b: Bookmark, at: Pos, gtid: Value): Bookmark {
    var b' := b[LogFile := Text(at.file)][LogPos := Num(at.offset)];
    if Truthy(gtid) then b'[Field.Gtid := gtid] else b'
  }

  /** `update_bookmarks`: every stream of the run gets the same position. */
  function Moved(st: State, ids: set<StreamId>, at: Pos, gtid: Value): State {
    st.(bookmarks := map id | id in st.bookmarks.Keys + ids ::
          if id in ids then MovedBookmark(BookmarkOf(st, id), at, gtid) else st.bookmarks[id])
  }

  /** All streams of the run stand at the position. */
  ghost predicate StandsAt(st: State, ids: set<StreamId>, at: Pos) {
    forall id :: id in ids ==> HasCoordinates(st, id) && PosOf(st, id) == at
  }

  lemma MovedStandsAt(st: State, ids: set<StreamId>, at: Pos, gtid: Value)
    ensures StandsAt(Moved(st, ids, at, gtid), ids, at)
  {
  }

  // ----- the data of a run -----

  function StepItem(context: Context, item: Item): Step {
    match item.event
    case Rows(rows) => HandleEvent(context, rows, item.table)
    case _ => Step(context, [])
  }

  function ContextAt(context: Context, items: seq<Item>, n: nat): Context
    requires n <= |items|
  {
    if n == 0 then context else
      var before := ContextAt(context, items, n - 1);
      var step := StepItem(before, items[n - 1]);
      if step.Step? then step.context else before
  }

  /** The SCHEMA and RECORD messages of the first `n` items. */
  function Data(context: Context, items: seq<Item>, n: nat): seq<Message>
    requires n <= |items|
  {
    if n == 0 then []
    else Data(context, items, n - 1) + ItemData(ContextAt(context, items, n - 1), items[n - 1])
  }

  function WithoutStates(msgs: seq<Message>): seq<Message> {
    if msgs == [] then []
    else WithoutStates(msgs[..|msgs| - 1]) + (if msgs[|msgs| - 1].StateMessage? then [] else [msgs[|msgs| - 1]])
  }

  lemma WithoutStatesOne(msgs: seq<Message>, m: Message)
    ensures WithoutStates(msgs + [m]) == WithoutStates(msgs) + (if m.StateMessage? then [] else [m])
  {
    assert (msgs + [m])[..|msgs|] == msgs;
  }

  lemma {:induction false} WithoutStatesConcat(a: seq<Message>, b: seq<Message>)
    requires forall m :: m in b ==> !m.StateMessage?
    ensures WithoutStates(a + b) == WithoutStates(a) + b
  {
    if b == [] {
      assert a + b == a;
    } else {
      var c, m := b[..|b| - 1], b[|b| - 1];
      assert a + b == (a + c) + [m];
      WithoutStatesConcat(a, c);
      WithoutStatesOne(a + c, m);
      assert c + [m] == b;
    }
  }

  lemma StepIsData(context: Context, item: Item)
    requires StepItem(context, item).Step?
    ensures forall m :: m in StepItem(context, item).msgs ==> !m.StateMessage?
  {
    if item.event.Rows? && item.event.rows.stream in context.streams {
      var entry := StepItem(context, item).context.streams[item.event.rows.stream];
      var ev := item.event.rows;
      ChangesAreData(ev, entry.desired, VersionAt(entry.version, ev.now), |ev.rows|);
    }
  }

  /** A STATE of the loop: the data of some first `i + 1` items precedes it, and it stands where
      item `i` starts. */
  ghost predicate StateCovers(context: Context, items: seq<Item>, ids: set<StreamId>, before: seq<Message>, st: State,
                              i: nat)
    requires i < |items|
  {
    WithoutStates(before) == Data(context, items, i + 1) && StandsAt(st, ids, items[i].at)
  }

  ghost predicate StatesCover(context: Context, items: seq<Item>, ids: set<StreamId>, msgs: seq<Message>) {
    forall m :: 0 <= m < |msgs| ==> StateCoversAt(context, items, ids, msgs, m)
  }

  ghost predicate StateCoversAt(context: Context, items: seq<Item>, ids: set<StreamId>, msgs: seq<Message>, m: nat)
    requires m < |msgs|
  {
    msgs[m].StateMessage? ==>
      exists i :: 0 <= i < |items| && StateCovers(context, items, ids, msgs[..m], msgs[m].state, i)
  }

  lemma StatesCoverOne(context: Context, items: seq<Item>, ids: set<StreamId>, msgs: seq<Message>, m: Message, i: nat)
    requires StatesCover(context, items, ids, msgs)
    requires m.StateMessage? ==> i < |items| && StateCovers(context, items, ids, msgs, m.state, i)
    ensures StatesCover(context, items, ids, msgs + [m])
  {
    var all := msgs + [m];
    forall x | 0 <= x < |all| ensures StateCoversAt(context, items, ids, all, x) {
      if x < |msgs| {
        assert StateCoversAt(context, items, ids, msgs, x) && all[..x] == msgs[..x];
      } else {
        assert all[..x] == msgs;
      }
    }
  }

  lemma {:induction false} StatesCoverData(context: Context, items: seq<Item>, ids: set<StreamId>, msgs: seq<Message>,
                                           more: seq<Message>)
    requires StatesCover(context, items, ids, msgs) && forall m :: m in more ==> !m.StateMessage?
    ensures StatesCover(context, items, ids, msgs + more)
    decreases |more|
  {
    if more == [] {
      assert msgs + more == msgs;
    } else {
      StatesCoverOne(context, items, ids, msgs, more[0], 0);
      StatesCoverData(context, items, ids, msgs + [more[0]], more[1..]);
      assert msgs + more == (msgs + [more[0]]) + more[1..];
    }
  }

  lemma {:induction false} DataKeepsSchemas(context: Context, sent: seq<Message>, items: seq<Item>, n: nat)
    requires SchemasAgree(context, sent) && RecordsFit(sent) && n <= |items|
    ensures SchemasAgree(ContextAt(context, items, n), sent + Data(context, items, n))
    ensures RecordsFit(sent + Data(context, items, n))
    decreases n
  {
    if n == 0 {
      assert Data(context, items, n) == [] && sent + [] == sent;
      assert ContextAt(context, items, n) == context;
    } else {
      DataKeepsSchemas(context, sent, items, n - 1);
      NextItemKeepsSchemas(context, sent, items, n);
    }
  }

  lemma NextItemKeepsSchemas(context: Context, sent: seq<Message>, items: seq<Item>, n: nat)
    requires 0 < n <= |items|
    requires SchemasAgree(ContextAt(context, items, n - 1), sent + Data(context, items, n - 1))
    requires RecordsFit(sent + Data(context, items, n - 1))
    ensures SchemasAgree(ContextAt(context, items, n), sent + Data(context, items, n))
    ensures RecordsFit(sent + Data(context, items, n))
  {
    var data, more := Data(context, items, n - 1), ItemData(ContextAt(context, items, n - 1), items[n - 1]);
    Associative(sent, data, more);
    ItemKeepsSchemas(ContextAt(context, items, n - 1), sent + data, items[n - 1]);
  }

  /** What one item adds to the data. */
  function ItemData(context: Context, item: Item): seq<Message> {
    if StepItem(context, item).Step? then StepItem(context, item).msgs else []
  }

  lemma ItemKeepsSchemas(context: Context, sent: seq<Message>, item: Item)
    requires SchemasAgree(context, sent) && RecordsFit(sent)
    ensures var step := StepItem(context, item);
            && SchemasAgree(if step.Step? then step.context else context, sent + ItemData(context, item))
            && RecordsFit(sent + ItemData(context, item))
  {
    if StepItem(context, item).Step? && item.event.Rows? {
      EventKeepsSchemas(context, sent, item.event.rows, item.table);
    } else {
      assert sent + ItemData(context, item) == sent;
    }
  }

  // ----- the streams of a run -----

  /** The entry that the stream has once the item is handled. */
  function EntryAfter(context: Context, item: Item, id: StreamId): Option<StreamEntry> {
    if StepItem(context, item).Step? && id in StepItem(context, item).context.streams
    then Some(StepItem(context, item).context.streams[id]) else None
  }

  lemma DataOfAnEvent(context: Context, item: Item)
    requires item.event.Rows? && StepItem(context, item).Step? && item.event.rows.stream in context.streams
    ensures var ev := item.event.rows;
            && ev.stream in StepItem(context, item).context.streams
            && var entry := StepItem(context, item).context.streams[ev.stream];
               ItemData(context, item)
               == (if entry == context.streams[ev.stream] then []
                   else [Schema(ev.stream, entry.catalog.properties.Keys)])
                  + Changes(ev, entry.desired, VersionAt(entry.version, ev.now), |ev.rows|)
  {
    hide Changes, SettledEntry, SettledIgnored, Discovers, Diff, HasColumnNames;
  }

  lemma {:induction false} StreamsStay(context: Context, items: seq<Item>, n: nat)
    requires n <= |items|
    ensures ContextAt(context, items, n).streams.Keys == context.streams.Keys
    decreases n
  {
    if n > 0 {
      StreamsStay(context, items, n - 1);
      StepKeepsStreams(ContextAt(context, items, n - 1), items[n - 1]);
    }
  }

  lemma StepKeepsStreams(context: Context, item: Item)
    ensures StepItem(context, item).Step? ==> StepItem(context, item).context.streams.Keys == context.streams.Keys
  {
  }

  // ----- a run, step by step -----

  const UPDATE_BOOKMARK_PERIOD := 1000

  /** Rows that the item sends out. */
  function ItemRows(context: Context, item: Item): nat {
    if item.event.Rows? && item.event.rows.stream in context.streams && item.event.rows.kind != OtherRows
    then |item.event.rows.rows| else 0
  }

  /** Whether the item counts as skipped. */
  function ItemSkips(context: Context, item: Item): nat {
    if item.event.Rows? && item.event.rows.stream !in context.streams then 1 else 0
  }

  /** The bookmarks after the item's own branch. */
  function ItemMoved(st: State, ids: set<StreamId>, item: Item, gtid: Value): State {
    match item.event
    case Rotate(next) => Moved(st, ids, next, gtid)
    case Gtid(g) => Moved(st, ids, item.at, Text(g))
    case Rows(_) => st
  }

  predicate CheckpointDue(processedRows: nat, eventsSkipped: nat) {
    || (processedRows != 0 && processedRows % UPDATE_BOOKMARK_PERIOD == 0)
    || (eventsSkipped != 0 && eventsSkipped % UPDATE_BOOKMARK_PERIOD == 0)
  }

  /** A run of the loop from the streams map, the state and the GTID it starts with.  Each function
      speaks of the run once it has handled `n` items. */
  datatype LoopRun = LoopRun(context: Context, items: seq<Item>, start: State, gtid: Value) {

    function Ids(): set<StreamId> {
      context.streams.Keys
    }

    function GtidAfter(n: nat): Value
      requires n <= |items|
    {
      if n == 0 then gtid else if items[n - 1].event.Gtid? then Text(items[n - 1].event.gtid) else GtidAfter(n - 1)
    }

    function RowsBy(n: nat): nat
      requires n <= |items|
    {
      if n == 0 then 0 else RowsBy(n - 1) + ItemRows(context, items[n - 1])
    }

    function SkippedBy(n: nat): nat
      requires n <= |items|
    {
      if n == 0 then 0 else SkippedBy(n - 1) + ItemSkips(context, items[n - 1])
    }

    /** The last item is followed by a STATE. */
    predicate Due(n: nat)
      requires n <= |items|
    {
      n > 0 && CheckpointDue(RowsBy(n), SkippedBy(n))
    }

    function StateAfter(n: nat): State
      requires n <= |items|
    {
      if n == 0 then start else
        var moved := ItemMoved(StateAfter(n - 1), Ids(), items[n - 1], GtidAfter(n - 1));
        if Due(n) then Moved(moved, Ids(), items[n - 1].at, GtidAfter(n)) else moved
    }

    function Messages(n: nat): seq<Message>
      requires n <= |items|
    {
      if n == 0 then []
      else Messages(n - 1) + ItemData(ContextAt(context, items, n - 1), items[n - 1])
           + (if Due(n) then [StateMessage(StateAfter(n))] else [])
    }
  }

  /** The messages so far: the data of the first `n` items, and STATE messages that each stand
      where some item starts and come after all data up to that item. */
  ghost predicate Written(context: Context, items: seq<Item>, ids: set<StreamId>, n: nat, msgs: seq<Message>)
    requires n <= |items|
  {
    WithoutStates(msgs) == Data(context, items, n) && StatesCover(context, items, ids, msgs)
  }

  lemma {:induction false} ItemIsData(context: Context, item: Item)
    ensures forall m :: m in ItemData(context, item) ==> !m.StateMessage?
  {
    if StepItem(context, item).Step? { StepIsData(context, item); }
  }

  lemma ItemWritten(context: Context, items: seq<Item>, ids: set<StreamId>, n: nat, msgs: seq<Message>, st: State,
                    states: seq<Message>)
    requires n < |items| && Written(context, items, ids, n, msgs)
    requires states == [] || (states == [StateMessage(st)] && StandsAt(st, ids, items[n].at))
    ensures Written(context, items, ids, n + 1, msgs + ItemData(ContextAt(context, items, n), items[n]) + states)
  {
    hide StandsAt, ItemData, StatesCover, WithoutStates;
    var more := ItemData(ContextAt(context, items, n), items[n]);
    ItemIsData(ContextAt(context, items, n), items[n]);
    WithoutStatesConcat(msgs, more);
    StatesCoverData(context, items, ids, msgs, more);
    var before := msgs + more;
    assert Data(context, items, n + 1) == Data(context, items, n) + more;
    if states == [] {
      assert before + states == before;
    } else {
      WithoutStatesOne(before, StateMessage(st));
      assert StateCovers(context, items, ids, before, st, n);
      StatesCoverOne(context, items, ids, before, StateMessage(st), n);
      assert WithoutStates(before) + [] == WithoutStates(before);
    }
  }

  /** Every STATE of the loop stands where the last item handled starts, with all data up to there
      before it; and beside the STATE messages there is the data alone, in order. */
  lemma {:induction false} RunIsWritten(run: LoopRun, n: nat)
    requires n <= |run.items|
    ensures Written(run.context, run.items, run.Ids(), n, run.Messages(n))
    decreases n
  {
    if n == 0 {
      assert run.Messages(0) == [];
    } else {
      RunIsWritten(run, n - 1);
      NextItemIsWritten(run, n);
    }
  }

  lemma NextItemIsWritten(run: LoopRun, n: nat)
    requires 0 < n <= |run.items| && Written(run.context, run.items, run.Ids(), n - 1, run.Messages(n - 1))
    ensures Written(run.context, run.items, run.Ids(), n, run.Messages(n))
  {
    hide Written, ItemData, ContextAt, StandsAt, Moved;
    var item, st := run.items[n - 1], run.StateAfter(n);
    var moved := ItemMoved(run.StateAfter(n - 1), run.Ids(), item, run.GtidAfter(n - 1));
    MovedStandsAt(moved, run.Ids(), item.at, run.GtidAfter(n));
    ItemWritten(run.context, run.items, run.Ids(), n - 1, run.Messages(n - 1), st,
                if run.Due(n) then [StateMessage(st)] else []);
  }

  // ----- the records of a run -----

  lemma {:induction false} MessagesGrow(run: LoopRun, n: nat, m: nat)
    requires n <= m <= |run.items|
    ensures run.Messages(n) <= run.Messages(m)
    decreases m
  {
    hide ItemData, CheckpointDue;
    if n < m { MessagesGrow(run, n, m - 1); }
  }

  /** Where the records of the item are among the messages: after those before it, and after the SCHEMA if the
      entry of its stream was replaced. */
  function FirstRecord(run: LoopRun, i: nat): nat
    requires i < |run.items| && run.items[i].event.Rows? && run.items[i].event.rows.stream in run.Ids()
  {
    var id := run.items[i].event.rows.stream;
    StreamsStay(run.context, run.items, i);
    StreamsStay(run.context, run.items, i + 1);
    var before, after := ContextAt(run.context, run.items, i), ContextAt(run.context, run.items, i + 1);
    |run.Messages(i)| + (if after.streams[id] == before.streams[id] then 0 else 1)
  }

  /** Each row of each event of the run's streams is a record among the messages, in order, with its values in the
      columns of the stream by then, and with the time of the event if it is a deletion. */
  lemma RunCarriesEachRow(run: LoopRun, n: nat, i: nat, j: nat)
    requires i < n <= |run.items| && run.items[i].event.Rows?
    requires StepItem(ContextAt(run.context, run.items, i), run.items[i]).Step?
    requires var ev := run.items[i].event.rows; ev.stream in run.Ids() && ev.kind != OtherRows && j < |ev.rows|
    ensures var ev, place := run.items[i].event.rows, FirstRecord(run, i) + j;
            && ev.stream in ContextAt(run.context, run.items, i + 1).streams
            && var entry := ContextAt(run.context, run.items, i + 1).streams[ev.stream];
               place < |run.Messages(n)|
               && CarriesRow(run.Messages(n)[place], ev, entry.desired, ev.rows[j], VersionAt(entry.version, ev.now))
  {
    hide CarriesRow, StepItem, Changes, ItemData, VersionAt, CheckpointDue;
    var ev, context := run.items[i].event.rows, ContextAt(run.context, run.items, i);
    StreamsStay(run.context, run.items, i);
    DataOfAnEvent(context, run.items[i]);
    var entry := StepItem(context, run.items[i]).context.streams[ev.stream];
    assert ContextAt(run.context, run.items, i + 1) == StepItem(context, run.items[i]).context;
    var version := VersionAt(entry.version, ev.now);
    ChangesCarryRows(ev, entry.desired, version, |ev.rows|, j);
    MessagesGrow(run, i + 1, n);
    var place := FirstRecord(run, i) + j;
    assert run.Messages(i + 1)[place] == Changes(ev, entry.desired, version, |ev.rows|)[j];
  }

  function CountRecords(msgs: seq<Message>): nat {
    if msgs == [] then 0
    else CountRecords(msgs[..|msgs| - 1]) + (if msgs[|msgs| - 1].Change? then 1 else 0)
  }

  lemma {:induction false} RecordsConcat(a: seq<Message>, b: seq<Message>)
    ensures CountRecords(a + b) == CountRecords(a) + CountRecords(b)
    decreases |b|
  {
    if b == [] {
      assert a + b == a;
    } else {
      var c, m := b[..|b| - 1], b[|b| - 1];
      RecordsConcat(a, c);
      assert (a + b)[..|a + b| - 1] == a + c;
    }
  }

  lemma {:induction false} AllAreRecords(msgs: seq<Message>)
    requires forall m :: m in msgs ==> m.Change?
    ensures CountRecords(msgs) == |msgs|
    decreases |msgs|
  {
    if msgs != [] { AllAreRecords(msgs[..|msgs| - 1]); }
  }

  lemma NoRecord(m: Message)
    requires !m.Change?
    ensures CountRecords([m]) == 0 && CountRecords([]) == 0
  {
    assert [m][..0] == [];
  }

  lemma RecordsOfAnItem(context: Context, item: Item)
    requires StepItem(context, item).Step?
    ensures CountRecords(ItemData(context, item)) == ItemRows(context, item)
  {
    hide CountRecords, Changes, HandleEvent;
    NoRecord(StateMessage(State(map[], None)));
    if item.event.Rows? && item.event.rows.stream in context.streams {
      DataOfAnEvent(context, item);
      var ev := item.event.rows;
      var entry := StepItem(context, item).context.streams[ev.stream];
      var changes := Changes(ev, entry.desired, VersionAt(entry.version, ev.now), |ev.rows|);
      ChangesAreData(ev, entry.desired, VersionAt(entry.version, ev.now), |ev.rows|);
      AllAreRecords(changes);
      var schema := Schema(ev.stream, entry.catalog.properties.Keys);
      NoRecord(schema);
      RecordsConcat([schema], changes);
      RecordsConcat([], changes);
    } else {
      NothingFromOthers(context, item);
    }
  }

  lemma NothingFromOthers(context: Context, item: Item)
    requires item.event.Rows? ==> item.event.rows.stream !in context.streams
    ensures ItemData(context, item) == []
  {
  }

  /** The count of rows that the checkpoints go by is the number of records that went out. */
  lemma {:induction false} RowsAreTheRecords(run: LoopRun, n: nat)
    requires n <= |run.items|
    requires forall i :: 0 <= i < n ==> StepItem(ContextAt(run.context, run.items, i), run.items[i]).Step?
    ensures CountRecords(run.Messages(n)) == run.RowsBy(n)
    decreases n
  {
    hide CountRecords, ItemData, StepItem, CheckpointDue, LoopRun.StateAfter;
    if n == 0 {
      NoRecord(StateMessage(run.start));
    } else {
      RowsAreTheRecords(run, n - 1);
      var context, item := ContextAt(run.context, run.items, n - 1), run.items[n - 1];
      RecordsOfAnItem(context, item);
      SameItemRows(run.context, context, item);
      StreamsStay(run.context, run.items, n - 1);
      var before, state := run.Messages(n - 1) + ItemData(context, item), StateMessage(run.StateAfter(n));
      RecordsConcat(run.Messages(n - 1), ItemData(context, item));
      RecordsConcat(before, [state]);
      NoRecord(state);
      Nothing(before);
    }
  }

  lemma SameItemRows(a: Context, b: Context, item: Item)
    ensures a.streams.Keys == b.streams.Keys ==> ItemRows(a, item) == ItemRows(b, item)
  {
  }

  /** The run wrote a STATE when it had written just `rows` rows. */
  ghost predicate CheckpointAt(run: LoopRun, n: nat, rows: nat)
    requires n <= |run.items|
  {
    exists m :: 0 < m <= n && run.RowsBy(m) == rows && run.Due(m)
  }

  /** Some event led from fewer rows past `rows`. */
  ghost predicate SteppedOver(run: LoopRun, n: nat, rows: nat)
    requires n <= |run.items|
  {
    exists i :: 0 <= i < n && StepsOver(run, i, rows)
  }

  predicate StepsOver(run: LoopRun, i: nat, rows: nat)
    requires i < |run.items|
  {
    run.RowsBy(i) < rows < run.RowsBy(i) + ItemRows(run.context, run.items[i])
  }

  /** There is a STATE at a multiple of the period exactly when no event steps over it: its rows do not
      begin before that count and end after it. */
  lemma {:induction false} MultipleIsCheckpointedExactlyWhenNoEventStepsOver(run: LoopRun, n: nat, k: nat)
    requires n <= |run.items| && 0 < k && k * UPDATE_BOOKMARK_PERIOD <= run.RowsBy(n)
    ensures CheckpointAt(run, n, k * UPDATE_BOOKMARK_PERIOD) <==> !SteppedOver(run, n, k * UPDATE_BOOKMARK_PERIOD)
    decreases n
  {
    var rows := k * UPDATE_BOOKMARK_PERIOD;
    assert run.RowsBy(n) == run.RowsBy(n - 1) + ItemRows(run.context, run.items[n - 1]);
    if rows <= run.RowsBy(n - 1) {
      MultipleIsCheckpointedExactlyWhenNoEventStepsOver(run, n - 1, k);
      CountsOnlyGrow(run, n, rows);
    } else if rows == run.RowsBy(n) {
      assert run.Due(n);
      forall i | 0 <= i < n ensures !StepsOver(run, i, rows) {
        RowsGrow(run, i + 1, n);
      }
    } else {
      assert StepsOver(run, n - 1, rows);
      forall m | 0 < m <= n ensures run.RowsBy(m) != rows {
        if m < n { RowsGrow(run, m, n - 1); }
      }
    }
  }

  /** An item after the multiple adds neither a STATE at it nor a step over it. */
  lemma CountsOnlyGrow(run: LoopRun, n: nat, rows: nat)
    requires 0 < n <= |run.items| && rows <= run.RowsBy(n - 1) && 0 < rows
    requires CheckpointAt(run, n - 1, rows) <==> !SteppedOver(run, n - 1, rows)
    ensures CheckpointAt(run, n, rows) <==> !SteppedOver(run, n, rows)
  {
    hide CheckpointDue, ItemRows;
    if CheckpointAt(run, n, rows) && !CheckpointAt(run, n - 1, rows) {
      var i :| 0 <= i < n - 1 && StepsOver(run, i, rows);
      assert run.RowsBy(i + 1) == run.RowsBy(i) + ItemRows(run.context, run.items[i]);
      RowsGrow(run, i + 1, n);
    }
    if SteppedOver(run, n - 1, rows) {
      var i :| 0 <= i < n - 1 && StepsOver(run, i, rows);
      assert StepsOver(run, i, rows);
    }
  }

  lemma {:induction false} RowsGrow(run: LoopRun, n: nat, m: nat)
    requires n <= m <= |run.items|
    ensures run.RowsBy(n) <= run.RowsBy(m)
    decreases m
  {
    if n < m { RowsGrow(run, n, m - 1); }
  }

  /** A single event of 1001 rows gets no STATE at all. */
  lemma BigEventIsNotCheckpointed(run: LoopRun)
    requires |run.items| == 1 && ItemRows(run.context, run.items[0]) == 1001
    ensures !CheckpointAt(run, 1, 1000) && CountStates(run.Messages(1)) == 0
  {
    assert run.RowsBy(1) == run.RowsBy(0) + ItemRows(run.context, run.items[0]) && run.RowsBy(0) == 0;
    assert run.SkippedBy(1) == run.SkippedBy(0) && run.SkippedBy(0) == 0;
    assert run.Messages(1) == run.Messages(0) + ItemData(run.context, run.items[0]) + [] && run.Messages(0) == [];
    ItemIsData(run.context, run.items[0]);
    DataCountsNoStates(run.Messages(1));
  }

  lemma {:induction false} DataCountsNoStates(msgs: seq<Message>)
    requires forall m :: m in msgs ==> !m.StateMessage?
    ensures CountStates(msgs) == 0
    decreases |msgs|
  {
    if msgs != [] {
      assert msgs[|msgs| - 1] in msgs;
      DataCountsNoStates(msgs[..|msgs| - 1]);
    }
  }

  /** With one row an event there is a STATE after every thousandth row. */
  lemma SingleRowEventsMeetEveryPeriod(run: LoopRun, n: nat, k: nat)
    requires n <= |run.items| && 0 < k && k * UPDATE_BOOKMARK_PERIOD <= run.RowsBy(n)
    requires forall i :: 0 <= i < n ==> ItemRows(run.context, run.items[i]) <= 1
    ensures CheckpointAt(run, n, k * UPDATE_BOOKMARK_PERIOD)
  {
    MultipleIsCheckpointedExactlyWhenNoEventStepsOver(run, n, k);
  }

  /** Events of other streams go one by one, so that there is a STATE after every thousandth of them. */
  lemma {:induction false} EveryThousandthSkipIsCheckpointed(run: LoopRun, n: nat, k: nat)
    requires n <= |run.items| && 0 < k && k * 1000 <= run.SkippedBy(n)
    ensures exists m :: 0 < m <= n && run.SkippedBy(m) == k * 1000 && EndsWithState(run, m)
    decreases n
  {
    hide ItemData, ContextAt;
    assert run.SkippedBy(n) == run.SkippedBy(n - 1) + ItemSkips(run.context, run.items[n - 1]);
    if k * 1000 <= run.SkippedBy(n - 1) {
      EveryThousandthSkipIsCheckpointed(run, n - 1, k);
    } else {
      assert run.Due(n);
      assert EndsWithState(run, n);
    }
  }

  predicate EndsWithState(run: LoopRun, m: nat)
    requires m <= |run.items|
  {
    run.Messages(m) != [] && run.Messages(m)[|run.Messages(m)| - 1] == StateMessage(run.StateAfter(m))
  }

  /** A run over nothing but events of other streams has a STATE for each thousand of them, and says nothing else. */
  lemma {:induction false} SkippedEventsAreCheckpointed(run: LoopRun, n: nat)
    requires n <= |run.items|
    requires forall i :: 0 <= i < n ==> run.items[i].event.Rows? && run.items[i].event.rows.stream !in run.Ids()
    ensures |run.Messages(n)| == CountStates(run.Messages(n)) == n / 1000
    ensures run.SkippedBy(n) == n && run.RowsBy(n) == 0 && ContextAt(run.context, run.items, n) == run.context
    decreases n
  {
    hide ItemData, ItemMoved, Moved, StepItem;
    if n == 0 {
      assert run.Messages(0) == [];
    } else {
      SkippedEventsAreCheckpointed(run, n - 1);
      SkippedSaysNothing(run.context, run.items[n - 1]);
      OneMoreState(run, n);
      ThousandsGrow(n);
    }
  }

  lemma SkippedSaysNothing(context: Context, item: Item)
    requires item.event.Rows? && item.event.rows.stream !in context.streams
    ensures StepItem(context, item) == Step(context, []) && ItemData(context, item) == []
  {
  }

  lemma ThousandsGrow(n: nat)
    requires n > 0
    ensures n / 1000 == (n - 1) / 1000 + (if n % 1000 == 0 then 1 else 0)
  {
  }

  /** Rotations and GTID events are not counted: a run over nothing else says nothing. */
  lemma {:induction false} OtherItemsAreNotCounted(run: LoopRun, n: nat)
    requires n <= |run.items| && forall i :: 0 <= i < n ==> !run.items[i].event.Rows?
    ensures run.Messages(n) == [] && run.SkippedBy(n) == 0 && run.RowsBy(n) == 0
    decreases n
  {
    hide ItemMoved, Moved, ContextAt, LoopRun.StateAfter;
    if n > 0 { OtherItemsAreNotCounted(run, n - 1); }
  }

  /** A run over events of one row each has a STATE for each thousand of them. */
  lemma {:induction false} SingleRowsAreCheckpointed(run: LoopRun, n: nat)
    requires n <= |run.items| && forall i :: 0 <= i < n ==> IsOneRow(run, run.items[i])
    ensures CountStates(run.Messages(n)) == n / 1000 && run.SkippedBy(n) == 0 && run.RowsBy(n) == n
    decreases n
  {
    hide ItemData, ItemMoved, Moved, ContextAt, LoopRun.Messages, LoopRun.StateAfter, CountStates;
    if n == 0 {
      NothingSaid(run);
    } else {
      SingleRowsAreCheckpointed(run, n - 1);
      assert IsOneRow(run, run.items[n - 1]);
      OneMoreState(run, n);
      ThousandsGrow(n);
    }
  }

  lemma NothingSaid(run: LoopRun)
    ensures run.Messages(0) == [] && CountStates(run.Messages(0)) == 0
  {
  }

  predicate IsOneRow(run: LoopRun, item: Item) {
    && item.event.Rows? && item.event.rows.stream in run.Ids() && item.event.rows.kind != OtherRows
    && |item.event.rows.rows| == 1
  }

  lemma OneMoreState(run: LoopRun, n: nat)
    requires 0 < n <= |run.items|
    ensures CountStates(run.Messages(n)) == CountStates(run.Messages(n - 1)) + (if run.Due(n) then 1 else 0)
  {
    hide ItemData, CheckpointDue, LoopRun.StateAfter, CountStates;
    var before, data := run.Messages(n - 1), ItemData(ContextAt(run.context, run.items, n - 1), run.items[n - 1]);
    ItemIsData(ContextAt(run.context, run.items, n - 1), run.items[n - 1]);
    CountConcat(before, data);
    DataCountsNoStates(data);
    if run.Due(n) {
      OneMore(before + data, StateMessage(run.StateAfter(n)));
    } else {
      assert run.Messages(n) == before + data;
    }
  }

  /** The bookmarks after a rotation are those of the file that begins, and after a GTID event those of the event,
      with its GTID; no stream that is not of the run moves. */
  lemma BookmarksMove(run: LoopRun, n: nat, id: StreamId)
    requires 0 < n <= |run.items| && !run.Due(n)
    ensures var item, st := run.items[n - 1], run.StateAfter(n);
            && (id in run.Ids() && item.event.Rotate? ==> HasCoordinates(st, id) && PosOf(st, id) == item.event.next)
            && (id in run.Ids() && item.event.Gtid? ==>
                  && HasCoordinates(st, id) && PosOf(st, id) == item.at
                  && (item.event.gtid != "" ==> Get(st, id, Field.Gtid) == Text(item.event.gtid)))
            && (id !in run.Ids() || item.event.Rows? ==> BookmarkOf(st, id) == BookmarkOf(run.StateAfter(n - 1), id))
  {
  }

  /** A STATE leaves alone all but the coordinates and the GTID of the streams of the run. */
  lemma {:induction false} OtherFieldsStay(run: LoopRun, n: nat, id: StreamId, f: Field)
    requires n <= |run.items| && (id in run.Ids() ==> f != LogFile && f != LogPos && f != Field.Gtid)
    ensures Get(run.StateAfter(n), id, f) == Get(run.start, id, f)
    decreases n
  {
    hide CheckpointDue, Moved, Get;
    if n > 0 {
      OtherFieldsStay(run, n - 1, id, f);
      var item, before := run.items[n - 1], run.StateAfter(n - 1);
      var moved := ItemMoved(before, run.Ids(), item, run.GtidAfter(n - 1));
      MoveKeepsField(before, run.Ids(), if item.event.Rotate? then item.event.next else item.at,
                     if item.event.Gtid? then Text(item.event.gtid) else run.GtidAfter(n - 1), id, f);
      MoveKeepsField(moved, run.Ids(), item.at, run.GtidAfter(n), id, f);
    }
  }

  lemma MoveKeepsField(st: State, ids: set<StreamId>, at: Pos, gtid: Value, id: StreamId, f: Field)
    requires id in ids ==> f != LogFile && f != LogPos && f != Field.Gtid
    ensures Get(Moved(st, ids, at, gtid), id, f) == Get(st, id, f)
  {
  }

  // ----- where a run ends -----

  /** The bookmark that a completed run leaves, after it handled `n` items. */
  function FinalPos(items: seq<Item>, n: nat, end: Pos): Pos
    requires n <= |items| && items != []
  {
    var last := items[|items| - 1].at;
    if n < |items| || last.file == end.file then end else last
  }

  /** The loop handles exactly the items that start before the end. */
  ghost predicate HandlesUpTo(items: seq<Item>, n: nat, end: Pos) {
    && n <= |items|
    && (forall i :: 0 <= i < n ==> Before(items[i].at, end))
    && (n < |items| ==> !Before(items[n].at, end))
  }

  lemma FinalPosIsNotPastTheEnd(items: seq<Item>, n: nat, end: Pos)
    requires items != [] && HandlesUpTo(items, n, end)
    ensures AtMost(FinalPos(items, n, end), end)
  {
  }

  function Positions(log: seq<Item>): (ats: seq<Pos>)
    ensures |ats| == |log|
  {
    seq(|log|, i requires 0 <= i < |log| => log[i].at)
  }

  /** How many items of the log start before the position. */
  function Index(log: seq<Item>, p: Pos): (n: nat)
    ensures n <= |log|
  {
    CountBefore(Positions(log), p)
  }

  lemma IndexSplits(log: seq<Item>, p: Pos)
    requires WellPositioned(log)
    ensures forall i :: 0 <= i < |log| ==> (Before(log[i].at, p) <==> i < Index(log, p))
  {
    var ats := Positions(log);
    CountSplits(ats, p);
    forall i | 0 <= i < |log| ensures Before(log[i].at, p) <==> i < Index(log, p) {
      assert ats[i] == log[i].at;
    }
  }

  /** A run that starts at `start`, while the log extends at least to `end`, reads the log's items
      from `start` on, up to `upto`. */
  ghost predicate Reads(log: seq<Item>, start: Pos, end: Pos, upto: nat, items: seq<Item>) {
    && AtMost(start, end)
    && Index(log, end) <= upto <= |log|
    && Index(log, start) <= upto
    && items == log[Index(log, start)..upto]
  }

  /** A run covers the log from its start to its end. */
  lemma RunCoversTheLog(log: seq<Item>, start: Pos, end: Pos, upto: nat, items: seq<Item>, n: nat)
    requires WellPositioned(log) && Reads(log, start, end, upto, items) && HandlesUpTo(items, n, end)
    ensures Index(log, start) + n == Index(log, end)
  {
    var from, stop := Index(log, start), Index(log, end);
    IndexSplits(log, end);
    IndexSplits(log, start);
    if from > stop {
      BeforeTransitive(log[stop].at, start, end);
      assert false;
    }
    assert forall i :: 0 <= i < |items| ==> items[i] == log[from + i];
    assert n < |items| ==> !Before(log[from + n].at, end);
    assert stop - from < n ==> Before(items[stop - from].at, end);
  }

  /** Runs chain without loss: the next run starts no later than the first event that this one did
      not handle.  What it repeats starts where the last event handled starts, so that it is one
      row event at most; and it repeats nothing if this run ended in the end file. */
  lemma RunsChain(log: seq<Item>, start: Pos, end: Pos, upto: nat, items: seq<Item>, n: nat)
    requires WellPositioned(log) && Reads(log, start, end, upto, items) && HandlesUpTo(items, n, end)
    requires items != []
    ensures var next := Index(log, FinalPos(items, n, end));
            && next <= Index(log, end)
            && (forall i :: next <= i < Index(log, end) ==> log[i].at == log[Index(log, end) - 1].at)
            && (forall i, j :: next <= i < j < Index(log, end) ==> !log[i].event.Rows? || !log[j].event.Rows?)
            && (n < |items| || items[|items| - 1].at.file == end.file <==> next == Index(log, end))
  {
    var p, stop := FinalPos(items, n, end), Index(log, end);
    RunCoversTheLog(log, start, end, upto, items, n);
    IndexSplits(log, end);
    IndexSplits(log, p);
    FinalPosIsNotPastTheEnd(items, n, end);
    NextIsNotPast(log, p, end);
    if p != end {
      assert items[n - 1] == log[stop - 1] && p == log[stop - 1].at;
      forall i | Index(log, p) <= i < stop ensures log[i].at == log[stop - 1].at {
        BeforeTotal(log[i].at, p);
      }
      IndexOfItem(log, stop - 1);
    }
    if n == |items| { BeforeTotal(items[n - 1].at, end); }
  }

  /** A completed run over the log: where it starts and ends, how much of the log its reader gets to
      read, and how many items it handles. */
  datatype LogRun = LogRun(start: Pos, end: Pos, upto: nat, items: seq<Item>, handled: nat) {

    ghost predicate Over(log: seq<Item>) {
      Reads(log, start, end, upto, items) && HandlesUpTo(items, handled, end)
    }

    /** The bookmark it leaves: without an item it leaves the one it found. */
    function Next(): Pos
      requires handled <= |items|
    {
      if items == [] then start else FinalPos(items, handled, end)
    }
  }

  /** Runs one after the other, each from the bookmark that the one before it left. */
  ghost predicate Chain(log: seq<Item>, runs: seq<LogRun>) {
    && (forall i :: 0 <= i < |runs| ==> runs[i].Over(log))
    && (forall i :: 0 < i < |runs| ==> Links(runs, i))
  }

  ghost predicate Links(runs: seq<LogRun>, i: nat)
    requires 0 < i < |runs|
  {
    runs[i - 1].handled <= |runs[i - 1].items| && runs[i].start == runs[i - 1].Next()
  }

  /** One of the runs handled the item of the log. */
  ghost predicate HandledByOne(log: seq<Item>, runs: seq<LogRun>, j: nat) {
    exists i :: 0 <= i < |runs| && HandledBy(log, runs[i], j)
  }

  ghost predicate HandledBy(log: seq<Item>, run: LogRun, j: nat) {
    Index(log, run.start) <= j < Index(log, run.start) + run.handled
  }

  /** However many runs follow one another, between them they handle every item of the log from the
      first start to the last end. */
  lemma {:induction false} ChainCoversTheLog(log: seq<Item>, runs: seq<LogRun>, j: nat)
    requires WellPositioned(log) && runs != [] && Chain(log, runs)
    requires Index(log, runs[0].start) <= j < Index(log, runs[|runs| - 1].end)
    ensures HandledByOne(log, runs, j)
    decreases |runs|
  {
    hide Index, WellPositioned;
    var last := runs[|runs| - 1];
    RunCoversTheLog(log, last.start, last.end, last.upto, last.items, last.handled);
    if Index(log, last.start) <= j {
      assert HandledBy(log, runs[|runs| - 1], j);
    } else {
      var front, before := runs[..|runs| - 1], runs[|runs| - 2];
      assert Links(runs, |runs| - 1);
      NextStartsInTime(log, before);
      forall i | 0 < i < |front| ensures Links(front, i) {
        assert Links(runs, i) && front[i] == runs[i] && front[i - 1] == runs[i - 1];
      }
      ChainCoversTheLog(log, front, j);
      var i :| 0 <= i < |front| && HandledBy(log, front[i], j);
      assert HandledBy(log, runs[i], j);
    }
  }

  lemma NextStartsInTime(log: seq<Item>, run: LogRun)
    requires WellPositioned(log) && run.Over(log)
    ensures Index(log, run.Next()) <= Index(log, run.end)
  {
    if run.items == [] {
      RunCoversTheLog(log, run.start, run.end, run.upto, run.items, run.handled);
    } else {
      RunsChain(log, run.start, run.end, run.upto, run.items, run.handled);
    }
  }

  lemma NextIsNotPast(log: seq<Item>, p: Pos, end: Pos)
    requires WellPositioned(log) && AtMost(p, end)
    ensures Index(log, p) <= Index(log, end)
  {
    IndexSplits(log, end);
    IndexSplits(log, p);
    if Index(log, p) > Index(log, end) {
      BeforeTransitive(log[Index(log, end)].at, p, end);
      assert false;
    }
  }

  /** The data of the first `i + 1` items is out, and the reader begins at item `i` or before. */
  ghost predicate ReadsAgain(run: LoopRun, before: seq<Message>, i: nat, from: nat, restart: nat)
    requires i < |run.items|
  {
    WithoutStates(before) == Data(run.context, run.items, i + 1) && restart <= from + i
  }

  /** A restart from any STATE of a run reads again every event whose data did not precede it: the data
      of some first items precede it, and the restart begins no later than at the last of those. */
  lemma RestartLosesNothing(log: seq<Item>, start: Pos, end: Pos, upto: nat, run: LoopRun, n: nat, m: nat, id: StreamId)
    requires WellPositioned(log) && Reads(log, start, end, upto, run.items) && n <= |run.items| && id in run.Ids()
    requires m < |run.Messages(n)| && run.Messages(n)[m].StateMessage?
    ensures exists i :: 0 <= i < |run.items|
              && ReadsAgain(run, run.Messages(n)[..m], i, Index(log, start),
                            Index(log, PosOf(run.Messages(n)[m].state, id)))
  {
    hide Index, Data, WithoutStates, WellPositioned;
    RunIsWritten(run, n);
    var msgs := run.Messages(n);
    assert StateCoversAt(run.context, run.items, run.Ids(), msgs, m);
    var i :| 0 <= i < |run.items| && StateCovers(run.context, run.items, run.Ids(), msgs[..m], msgs[m].state, i);
    RestartFromItem(log, start, end, upto, run.items, run.Ids(), msgs[m].state, i, id);
    assert ReadsAgain(run, msgs[..m], i, Index(log, start), Index(log, PosOf(msgs[m].state, id)));
  }

  lemma RestartFromItem(log: seq<Item>, start: Pos, end: Pos, upto: nat, items: seq<Item>, ids: set<StreamId>,
                        st: State, i: nat, id: StreamId)
    requires WellPositioned(log) && Reads(log, start, end, upto, items)
    requires i < |items| && StandsAt(st, ids, items[i].at) && id in ids
    ensures Index(log, PosOf(st, id)) <= Index(log, start) + i
  {
    assert items[i] == log[Index(log, start) + i];
    IndexOfItem(log, Index(log, start) + i);
  }

  lemma IndexOfItem(log: seq<Item>, k: nat)
    requires WellPositioned(log) && k < |log|
    ensures Index(log, log[k].at) <= k
  {
    BeforeTotal(log[k].at, log[k].at);
    IndexSplits(log, log[k].at);
  }
}
