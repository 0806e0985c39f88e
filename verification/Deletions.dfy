/**
 The deletion time and the schema: the first SCHEMA of a binlog run lacks the column, and one that
 follows a discovery has it.
 */
module Deletions {
  import opened Singer
  import opened Drift
  import opened BinlogSpec
  import opened BinlogLoop

  function EntryOf(context: Context, id: StreamId): Option<StreamEntry> {
    if id in context.streams then Some(context.streams[id]) else None
  }

  /** One of the first `n` items replaced the entry of the stream. */
  ghost predicate Replaced(context: Context, items: seq<Item>, id: StreamId, n: nat)
    requires n <= |items|
  {
    exists i :: 0 <= i < n && ReplacedAt(context, items, id, i)
  }

  predicate ReplacedAt(context: Context, items: seq<Item>, id: StreamId, i: nat)
    requires i < |items|
  {
    EntryOf(ContextAt(context, items, i), id) != EntryOf(ContextAt(context, items, i + 1), id)
  }

  lemma {:induction false} OthersKeepTheSchema(msgs: seq<Message>, more: seq<Message>, id: StreamId)
    requires forall m :: m in more ==> m.Schema? ==> m.stream != id
    ensures LastSchema(msgs + more, id) == LastSchema(msgs, id)
    decreases |more|
  {
    if more == [] {
      assert msgs + more == msgs;
    } else {
      var front, m := more[..|more| - 1], more[|more| - 1];
      OthersKeepTheSchema(msgs, front, id);
      SchemaOne(msgs + front, m, id);
      assert msgs + more == (msgs + front) + [m] && m in more;
    }
  }

  /** What an item does to the last SCHEMA of the stream: nothing, or it replaces the entry and sends
      one with the deletion time. */
  lemma ItemSchema(context: Context, sent: seq<Message>, item: Item, id: StreamId)
    ensures var after := if StepItem(context, item).Step? then StepItem(context, item).context else context;
            var last := LastSchema(sent + ItemData(context, item), id);
            if EntryOf(after, id) == EntryOf(context, id) then last == LastSchema(sent, id)
            else last.Some? && DELETED_AT in last.value
  {
    if item.event.Rows? && StepItem(context, item).Step? && item.event.rows.stream in context.streams {
      EventSchema(context, sent, item, id);
    } else {
      OthersKeepTheSchema(sent, ItemData(context, item), id);
    }
  }

  lemma EventSchema(context: Context, sent: seq<Message>, item: Item, id: StreamId)
    requires item.event.Rows? && StepItem(context, item).Step? && item.event.rows.stream in context.streams
    ensures var last := LastSchema(sent + ItemData(context, item), id);
            if EntryOf(StepItem(context, item).context, id) == EntryOf(context, id) then last == LastSchema(sent, id)
            else last.Some? && DELETED_AT in last.value
  {
    hide Changes, Diff, SettledEntry, SettledIgnored, Discovers, HasColumnNames, LastSchema;
    var ev, before := item.event.rows, context.streams[item.event.rows.stream];
    DataOfAnEvent(context, item);
    var entry := StepItem(context, item).context.streams[ev.stream];
    var changes := Changes(ev, entry.desired, VersionAt(entry.version, ev.now), |ev.rows|);
    ChangesAreData(ev, entry.desired, VersionAt(entry.version, ev.now), |ev.rows|);
    NewEntryShape(before, Diff(ev, before.catalog.properties.Keys, context.ignored),
                  if item.table.Some? then item.table.value else map[]);
    if entry == before {
      assert ItemData(context, item) == [] + changes;
      Nothing(sent);
      OthersKeepTheSchema(sent, ItemData(context, item), id);
    } else {
      var schema := Schema(ev.stream, entry.catalog.properties.Keys);
      SchemaOne(sent, schema, id);
      OthersKeepTheSchema(sent + [schema], changes, id);
      Associative(sent, [schema], changes);
    }
  }

  /** Over a run, the last SCHEMA of the stream is the first one until its entry is replaced, and has
      the deletion time from then on. */
  lemma {:induction false} SchemaOverRun(context: Context, sent: seq<Message>, items: seq<Item>, id: StreamId, n: nat)
    requires n <= |items|
    ensures var last := LastSchema(sent + Data(context, items, n), id);
            if Replaced(context, items, id, n) then last.Some? && DELETED_AT in last.value
               else last == LastSchema(sent, id)
    decreases n
  {
    hide LastSchema, ItemData, StepItem;
    if n == 0 {
      assert Data(context, items, 0) == [];
      Nothing(sent);
    } else {
      SchemaOverRun(context, sent, items, id, n - 1);
      var data, item := Data(context, items, n - 1), items[n - 1];
      ItemSchema(ContextAt(context, items, n - 1), sent + data, item, id);
      Associative(sent, data, ItemData(ContextAt(context, items, n - 1), item));
      assert Replaced(context, items, id, n)
        <==> Replaced(context, items, id, n - 1) || ReplacedAt(context, items, id, n - 1);
    }
  }

  /** A deletion of the stream in item `i`, as its record goes out. */
  function DeletionRecord(context: Context, items: seq<Item>, id: StreamId, i: nat,
                          row: map<string, string>): map<string, string>
    requires i < |items| && items[i].event.Rows?
  {
    var entry := EntryOf(ContextAt(context, items, i + 1), id);
    if entry.Some? then RecordOf(items[i].event.rows, entry.value.desired, row) else map[]
  }

  /** A deletion fits the last SCHEMA sent before it exactly when its own item or an earlier one has
      replaced the stream's entry: the first SCHEMA lacks the deletion time, unless the table itself
      has a column of that name. */
  lemma DeletionFitsExactlyWhenTheEntryWasReplaced(context: Context, sent: seq<Message>, items: seq<Item>,
                                                   id: StreamId, i: nat, row: map<string, string>)
    requires SchemasAgree(context, sent) && RecordsFit(sent) && id in context.streams
    requires LastSchema(sent, id).Some? && DELETED_AT !in LastSchema(sent, id).value
    requires i < |items| && items[i].event.Rows? && items[i].event.rows.stream == id
    requires items[i].event.rows.kind == DeleteRows
    ensures var last := LastSchema(sent + Data(context, items, i + 1), id);
            && last.Some?
            && (DeletionRecord(context, items, id, i, row).Keys <= last.value <==> Replaced(context, items, id, i + 1))
  {
    hide Data, ContextAt, RecordsFit, Replaced, LastSchema;
    SchemaOverRun(context, sent, items, id, i + 1);
    DataKeepsSchemas(context, sent, items, i + 1);
    StreamsStay(context, items, i + 1);
    DeletionTimeIsAnnounced(ContextAt(context, items, i + 1), sent + Data(context, items, i + 1), items[i].event.rows,
                            row);
  }

  /** The first event of a run is a deletion and has no new column: it does not fit the SCHEMA that
      the run began with. */
  lemma FirstDeletionDoesNotFit(context: Context, sent: seq<Message>, items: seq<Item>, row: map<string, string>)
    requires SchemasAgree(context, sent) && RecordsFit(sent)
    requires "t" in context.streams && context.streams["t"].catalog.properties.Keys == {"id", DELETED_AT}
    requires LastSchema(sent, "t") == Some({"id"})
    requires |items| == 1 && items[0].event == Event.Rows(RowsEvent("t", DeleteRows, [Some("id")], [row], "now", 0))
    ensures var last := LastSchema(sent + Data(context, items, 1), "t");
            last.Some? && !(DeletionRecord(context, items, "t", 0, row).Keys <= last.value)
  {
    var ev := items[0].event.rows;
    DeletionFitsExactlyWhenTheEntryWasReplaced(context, sent, items, "t", 0, row);
    assert ContextAt(context, items, 0) == context;
    var diff := Diff(ev, context.streams["t"].catalog.properties.Keys, context.ignored);
    assert ColumnNames(ev) == {"id"};
    assert diff == {};
    SettlingNothing(context, "t", diff, items[0].table);
    assert !ReplacedAt(context, items, "t", 0);
  }
}
