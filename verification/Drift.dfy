/**
 Schema drift in the binlog loop: an event with columns that the stream's schema lacks makes the
 tap discover the table again or ignore the columns.
 */
module Drift {
  import opened Singer

  const DELETED_AT := "_sdc_deleted_at"

  datatype Inclusion = Automatic | Available | Unsupported

  /** The schema of one column; `detail` stands for its type and format. */
  datatype Property = Property(inclusion: Inclusion, detail: string)

  /** What discovery reads of a table. */
  type Definition = map<string, Property>

  /** Of a column's metadata, the two entries that `should_run_discovery` looks at. */
  datatype ColumnMetadata = ColumnMetadata(selectedByDefault: bool, supportedType: bool)

  datatype CatalogEntry = CatalogEntry(properties: map<string, Property>, metadata: map<string, ColumnMetadata>)

  /** An entry of the streams map.  `version` is what the row event handlers read from the bookmark, if it
      has one. */
  datatype StreamEntry = StreamEntry(catalog: CatalogEntry, desired: set<string>, version: Option<int>)

  /** The streams of the run, and the columns they ignore.  One set of ignored columns serves all. */
  datatype Context = Context(streams: map<StreamId, StreamEntry>, ignored: set<string>)

  datatype Kind = WriteRows | UpdateRows | DeleteRows | OtherRows

  /** A row event.  `rows` holds the values of a write or a delete, and those after an update.  `now` is
      what the clock says as the event is handled. */
  datatype RowsEvent = RowsEvent(stream: StreamId, kind: Kind, columns: seq<Option<string>>,
                                 rows: seq<map<string, string>>, timestamp: string, now: int)

  // ----- column names -----

  predicate IsDigit(c: char) { '0' <= c <= '9' }

  predicate AllDigits(s: string) { forall i :: 0 <= i < |s| ==> IsDigit(s[i]) }

  /** `^UNKNOWN_COL\d+$`. */
  predicate IsUnknownColumn(name: string) {
    && "UNKNOWN_COL" <= name && |name| > |"UNKNOWN_COL"|
    && AllDigits(name[|"UNKNOWN_COL"|..])
  }

  /** `__dropped_col_\d+__`, matched at the start of the name. */
  predicate IsDroppedColumn(name: string) {
    && "__dropped_col_" <= name
    && exists i :: |"__dropped_col_"| < i <= |name| - 2
                   && AllDigits(name[|"__dropped_col_"|..i]) && name[i..i + 2] == "__"
  }

  lemma UnknownColumnsAre(name: string)
    ensures IsUnknownColumn(name) <==> exists n :: n != "" && AllDigits(n) && name == "UNKNOWN_COL" + n
  {
    if IsUnknownColumn(name) {
      var n := name[|"UNKNOWN_COL"|..];
      assert n != "" && AllDigits(n) && name == "UNKNOWN_COL" + n;
    }
    if n :| n != "" && AllDigits(n) && name == "UNKNOWN_COL" + n {
      assert name[|"UNKNOWN_COL"|..] == n && name[..|"UNKNOWN_COL"|] == "UNKNOWN_COL";
    }
  }

  lemma DroppedColumnsAre(name: string)
    ensures IsDroppedColumn(name)
       <==> exists n, rest :: n != "" && AllDigits(n) && name == "__dropped_col_" + n + "__" + rest
  {
    var prefix := "__dropped_col_";
    if IsDroppedColumn(name) {
      var i :| |prefix| < i <= |name| - 2 && AllDigits(name[|prefix|..i]) && name[i..i + 2] == "__";
      var n, rest := name[|prefix|..i], name[i + 2..];
      assert n != "" && AllDigits(n) && name == prefix + n + "__" + rest;
    }
    if n, rest :| n != "" && AllDigits(n) && name == prefix + n + "__" + rest {
      var i := |prefix| + |n|;
      assert name[..|prefix|] == prefix && name[|prefix|..i] == n && name[i..i + 2] == "__";
    }
  }

  lemma NamesOfColumns()
    ensures IsUnknownColumn("UNKNOWN_COL0") && IsUnknownColumn("UNKNOWN_COL12")
    ensures !IsUnknownColumn("UNKNOWN_COL") && !IsUnknownColumn("UNKNOWN_COLOUR") && !IsUnknownColumn("MY_UNKNOWN_COL0")
    ensures IsDroppedColumn("__dropped_col_3__")
    ensures !IsDroppedColumn("_note") && !IsDroppedColumn("__dropped_col___") && !IsDroppedColumn("dropped_col_3")
  {
    var unknown, dropped, prefix := "UNKNOWN_COL12", "__dropped_col_3__", "__dropped_col_";
    assert unknown[|"UNKNOWN_COL"|..] == "12" && "UNKNOWN_COL0"[|"UNKNOWN_COL"|..] == "0";
    assert "UNKNOWN_COLOUR"[|"UNKNOWN_COL"|] == 'O' && "MY_UNKNOWN_COL0"[0] == 'M';
    assert "UNKNOWN_COLOUR"[|"UNKNOWN_COL"|..][0] == 'O';
    assert dropped[..|prefix|] == prefix && dropped[|prefix|..15] == "3" && dropped[15..17] == "__";
    assert "_note"[1] == 'n' && "dropped_col_3"[0] == 'd';
    assert "__dropped_col___"[|prefix|..15][0] == '_';
  }

  /** `verify_event_column_names` lets the event pass. */
  predicate HasColumnNames(ev: RowsEvent) {
    forall c :: c in ev.columns ==> c.Some? && !IsUnknownColumn(c.value)
  }

  function ColumnNames(ev: RowsEvent): set<string> {
    set c | c in ev.columns && c.Some? :: c.value
  }

  /** `__get_diff_in_columns_list`. */
  function Diff(ev: RowsEvent, properties: set<string>, ignored: set<string>): set<string> {
    (set c | c in ColumnNames(ev) && !IsDroppedColumn(c) && c !in ignored) - properties
  }

  // ----- discovery -----

  predicate CallsForDiscovery(metadata: map<string, ColumnMetadata>, name: string) {
    name !in metadata || (metadata[name].selectedByDefault && metadata[name].supportedType)
  }

  /** `should_run_discovery`: stops at the first column that calls for it. */
  method ShouldRunDiscovery(names: set<string>, metadata: map<string, ColumnMetadata>) returns (run: bool)
    ensures run <==> exists c :: c in names && CallsForDiscovery(metadata, c)
    ensures run <==> exists c :: c in names && (c in metadata ==> metadata[c] == ColumnMetadata(true, true))
  {
    var todo := names;
    while todo != {}
      invariant todo <= names
      invariant forall c :: c in names - todo ==> !CallsForDiscovery(metadata, c)
      decreases |todo|
    {
      var c :| c in todo;
      todo := todo - {c};
      if c !in metadata {
        return true;
      }
      if metadata[c].selectedByDefault && metadata[c].supportedType {
        return true;
      }
    }
    run := false;
  }

  /** The columns of a table that a stream can carry. */
  function Supported(table: Definition): set<string> {
    set c | c in table && table[c].inclusion != Unsupported
  }

  /** `desired_columns`: the selected available columns, and the keys. */
  method DesiredColumns(selected: set<string>, table: Definition) returns (columns: set<string>)
    ensures forall c :: c in columns <==>
              c in table && (table[c].inclusion == Automatic || (table[c].inclusion == Available && c in selected))
  {
    var available, automatic: set<string> := {}, {};
    var todo := table.Keys;
    while todo != {}
      invariant todo <= table.Keys
      invariant forall c :: c in available <==> c in table && c !in todo && table[c].inclusion == Available
      invariant forall c :: c in automatic <==> c in table && c !in todo && table[c].inclusion == Automatic
      decreases |todo|
    {
      var c :| c in todo;
      todo := todo - {c};
      match table[c].inclusion {
        case Automatic => automatic := automatic + {c};
        case Available => available := available + {c};
        case Unsupported =>
      }
    }
    columns := selected * available + automatic;
  }

  const DELETED_PROPERTY := Property(Available, "date-time")

  function MetadataOf(table: Definition): map<string, ColumnMetadata> {
    map c | c in table :: ColumnMetadata(table[c].inclusion != Unsupported, table[c].inclusion != Unsupported)
  }

  /** The entry that discovery leads to: every supported column of the table, and the deletion
      time.  A freshly discovered column counts as selected. */
  function Rediscovered(table: Definition): CatalogEntry {
    CatalogEntry((map c | c in Supported(table) :: table[c])[DELETED_AT := DELETED_PROPERTY], MetadataOf(table))
  }

  predicate Discovers(entry: StreamEntry, diff: set<string>) {
    exists c :: c in diff && CallsForDiscovery(entry.catalog.metadata, c)
  }

  /** The entry and the ignored columns once the difference has been dealt with. */
  function SettledEntry(entry: StreamEntry, diff: set<string>, table: Definition): StreamEntry {
    var found := Rediscovered(table);
    if Discovers(entry, diff) && found.properties != entry.catalog.properties
    then StreamEntry(found, found.properties.Keys, entry.version) else entry
  }

  function SettledIgnored(entry: StreamEntry, ignored: set<string>, diff: set<string>, table: Definition): set<string> {
    if Discovers(entry, diff) then ignored + (diff - Rediscovered(table).properties.Keys) else ignored + diff
  }

  /** Every column of the difference ends in the stream's schema or among the ignored ones; nothing
      is ignored that was not in the difference, nor anything that the schema now has. */
  lemma DiffSettles(entry: StreamEntry, ignored: set<string>, diff: set<string>, table: Definition)
    requires diff !! ignored && diff !! entry.catalog.properties.Keys
    ensures var entry' := SettledEntry(entry, diff, table);
            var ignored' := SettledIgnored(entry, ignored, diff, table);
            && diff <= entry'.catalog.properties.Keys + ignored'
            && ignored <= ignored' <= ignored + diff
            && (ignored' - ignored) !! entry'.catalog.properties.Keys
  {
  }

  // ----- one event -----

  /** The record of one row: its values in the desired columns. */
  function RecordOf(ev: RowsEvent, desired: set<string>, row: map<string, string>): map<string, string> {
    var values := if ev.kind == DeleteRows then row[DELETED_AT := ev.timestamp] else row;
    map c | c in values && c in desired :: values[c]
  }

  /** The records of the first `n` rows, with the version of the stream. */
  function Changes(ev: RowsEvent, desired: set<string>, version: int, n: nat): (msgs: seq<Message>)
    requires n <= |ev.rows|
  {
    if n == 0 || ev.kind == OtherRows then []
    else Changes(ev, desired, version, n - 1) + [Change(ev.stream, RecordOf(ev, desired, ev.rows[n - 1]), version)]
  }

  /** The message carries the row of the event: its values in the desired columns, and for a deletion the time of
      the event in the column for it. */
  ghost predicate CarriesRow(m: Message, ev: RowsEvent, desired: set<string>, row: map<string, string>, version: int) {
    && m.Change? && m.stream == ev.stream && m.version == version
    && (forall c :: c in m.record <==> c in desired && (c in row || (c == DELETED_AT && ev.kind == DeleteRows)))
    && (forall c :: c in m.record ==>
          if c == DELETED_AT && ev.kind == DeleteRows then m.record[c] == ev.timestamp
          else c in row && m.record[c] == row[c])
  }

  lemma {:induction false} ChangesAreData(ev: RowsEvent, desired: set<string>, version: int, n: nat)
    requires n <= |ev.rows|
    ensures forall m :: m in Changes(ev, desired, version, n) ==> m.Change?
    ensures |Changes(ev, desired, version, n)| == if ev.kind == OtherRows then 0 else n
  {
    if n > 0 { ChangesAreData(ev, desired, version, n - 1); }
  }

  lemma {:induction false} ChangesCarryRows(ev: RowsEvent, desired: set<string>, version: int, n: nat, j: nat)
    requires j < n <= |ev.rows| && ev.kind != OtherRows
    ensures |Changes(ev, desired, version, n)| == n
    ensures CarriesRow(Changes(ev, desired, version, n)[j], ev, desired, ev.rows[j], version)
  {
    if n == 1 {
      assert Changes(ev, desired, version, 0) == [];
    } else {
      ChangesCarryRows(ev, desired, version, n - 1, if j < n - 1 then j else 0);
    }
  }

  /** What one row event leads to.  It fails when the event lacks column names, or when discovery
      finds no table. */
  datatype Step = Step(context: Context, msgs: seq<Message>) | Failure

  function HandleEvent(context: Context, ev: RowsEvent, table: Option<Definition>): Step {
    if ev.stream !in context.streams then Step(context, [])
    else if !HasColumnNames(ev) then Failure
    else
      var entry := context.streams[ev.stream];
      var diff := Diff(ev, entry.catalog.properties.Keys, context.ignored);
      if Discovers(entry, diff) && table.None? then Failure
      else
        var definition := if table.Some? then table.value else map[];
        var entry' := SettledEntry(entry, diff, definition);
        Step(Context(context.streams[ev.stream := entry'], SettledIgnored(entry, context.ignored, diff, definition)),
             (if entry' != entry then [Schema(ev.stream, entry'.catalog.properties.Keys)] else [])
             + Changes(ev, entry'.desired, VersionAt(entry'.version, ev.now), |ev.rows|))
  }

  // ----- the schema invariant -----

  /** The columns of the last SCHEMA sent for the stream. */
  function LastSchema(msgs: seq<Message>, id: StreamId): Option<set<string>> {
    if msgs == [] then None
    else if msgs[|msgs| - 1].Schema? && msgs[|msgs| - 1].stream == id then Some(msgs[|msgs| - 1].properties)
    else LastSchema(msgs[..|msgs| - 1], id)
  }

  /** The desired columns of each stream are the columns of its schema, and but for the deletion
      time they are those of the last SCHEMA sent. */
  ghost predicate SchemasAgree(context: Context, msgs: seq<Message>) {
    forall id :: id in context.streams ==>
      && context.streams[id].desired == context.streams[id].catalog.properties.Keys
      && LastSchema(msgs, id).Some?
      && context.streams[id].desired == LastSchema(msgs, id).value + {DELETED_AT}
  }

  /** A record has only columns that the last SCHEMA before it has, but for the deletion time. */
  predicate Fits(before: seq<Message>, m: Message) {
    m.Change? ==>
      && LastSchema(before, m.stream).Some?
      && m.record.Keys <= LastSchema(before, m.stream).value + {DELETED_AT}
  }

  ghost predicate RecordsFit(msgs: seq<Message>) {
    forall m :: 0 <= m < |msgs| ==> FitsAt(msgs, m)
  }

  predicate FitsAt(msgs: seq<Message>, m: nat)
    requires m < |msgs|
  {
    Fits(msgs[..m], msgs[m])
  }

  lemma RecordsFitOne(msgs: seq<Message>, m: Message)
    requires RecordsFit(msgs) && Fits(msgs, m)
    ensures RecordsFit(msgs + [m])
  {
    var all := msgs + [m];
    forall i | 0 <= i < |all| ensures FitsAt(all, i) {
      if i < |msgs| {
        assert FitsAt(msgs, i) && all[..i] == msgs[..i];
      } else {
        assert all[..i] == msgs;
      }
    }
  }

  lemma SchemaOne(msgs: seq<Message>, m: Message, id: StreamId)
    ensures LastSchema(msgs + [m], id)
         == if m.Schema? && m.stream == id then Some(m.properties) else LastSchema(msgs, id)
  {
    assert (msgs + [m])[..|msgs|] == msgs;
  }

  lemma {:induction false} ChangesFit(context: Context, sent: seq<Message>, ev: RowsEvent, n: nat)
    requires SchemasAgree(context, sent) && RecordsFit(sent) && ev.stream in context.streams && n <= |ev.rows|
    ensures var entry := context.streams[ev.stream];
            var all := sent + Changes(ev, entry.desired, VersionAt(entry.version, ev.now), n);
            SchemasAgree(context, all) && RecordsFit(all)
  {
    var desired, version := context.streams[ev.stream].desired, VersionAt(context.streams[ev.stream].version, ev.now);
    if n == 0 || ev.kind == OtherRows {
      assert sent + Changes(ev, desired, version, n) == sent;
    } else {
      ChangesFit(context, sent, ev, n - 1);
      var before := sent + Changes(ev, desired, version, n - 1);
      var m := Change(ev.stream, RecordOf(ev, desired, ev.rows[n - 1]), version);
      assert sent + Changes(ev, desired, version, n) == before + [m];
      forall id | id in context.streams ensures LastSchema(before + [m], id) == LastSchema(before, id) {
        SchemaOne(before, m, id);
      }
      RecordsFitOne(before, m);
    }
  }

  /** Handling any event keeps the schemas in agreement, and every record it emits fits. */
  lemma EventKeepsSchemas(context: Context, sent: seq<Message>, ev: RowsEvent, table: Option<Definition>)
    requires SchemasAgree(context, sent) && RecordsFit(sent)
    requires HandleEvent(context, ev, table).Step?
    ensures var step := HandleEvent(context, ev, table);
            && step.context.streams.Keys == context.streams.Keys
            && SchemasAgree(step.context, sent + step.msgs) && RecordsFit(sent + step.msgs)
  {
    hide SchemasAgree, RecordsFit, SettledEntry, SettledIgnored, Diff, Discovers, Changes;
    var step := HandleEvent(context, ev, table);
    if ev.stream !in context.streams {
      assert sent + step.msgs == sent;
    } else {
      var entry, entry' := context.streams[ev.stream], step.context.streams[ev.stream];
      var changes := Changes(ev, entry'.desired, VersionAt(entry'.version, ev.now), |ev.rows|);
      if entry' == entry {
        assert step.context.streams == context.streams;
        ChangesFit(context, sent, ev, |ev.rows|);
        assert step.msgs == changes;
        AgreementOfStreams(context, step.context, sent + changes);
      } else {
        var m := Schema(ev.stream, entry'.catalog.properties.Keys);
        var diff := Diff(ev, entry.catalog.properties.Keys, context.ignored);
        NewEntryShape(entry, diff, if table.Some? then table.value else map[]);
        SchemaReplaced(context, sent, ev.stream, entry', step.context.ignored);
        ChangesFit(step.context, sent + [m], ev, |ev.rows|);
        assert sent + step.msgs == (sent + [m]) + changes;
      }
    }
  }

  lemma AgreementOfStreams(a: Context, b: Context, sent: seq<Message>)
    requires a.streams == b.streams && SchemasAgree(a, sent)
    ensures SchemasAgree(b, sent)
  {
  }

  lemma SettledKeepsVersion(entry: StreamEntry, diff: set<string>, table: Definition)
    ensures SettledEntry(entry, diff, table).version == entry.version
  {
  }

  lemma NewEntryShape(entry: StreamEntry, diff: set<string>, table: Definition)
    ensures var entry' := SettledEntry(entry, diff, table);
            entry' != entry ==> entry'.desired == entry'.catalog.properties.Keys && DELETED_AT in entry'.desired
  {
  }

  lemma SchemaReplaced(context: Context, sent: seq<Message>, id: StreamId, entry: StreamEntry, ignored: set<string>)
    requires SchemasAgree(context, sent) && RecordsFit(sent) && id in context.streams
    requires entry.desired == entry.catalog.properties.Keys && DELETED_AT in entry.desired
    ensures var context' := Context(context.streams[id := entry], ignored);
            var all := sent + [Schema(id, entry.catalog.properties.Keys)];
            SchemasAgree(context', all) && RecordsFit(all)
  {
    var m := Schema(id, entry.catalog.properties.Keys);
    RecordsFitOne(sent, m);
    forall x | x in context.streams[id := entry]
      ensures LastSchema(sent + [m], x) == if x == id then Some(m.properties) else LastSchema(sent, x)
    {
      SchemaOne(sent, m, x);
    }
  }

  /** Converting a row looks up only columns that the schema has. */
  lemma ConversionFindsItsColumns(context: Context, sent: seq<Message>, ev: RowsEvent, row: map<string, string>)
    requires SchemasAgree(context, sent) && ev.stream in context.streams
    ensures var entry := context.streams[ev.stream];
            RecordOf(ev, entry.desired, row).Keys <= entry.catalog.properties.Keys
  {
  }

  /** A deletion goes out under a schema without the deletion time until discovery has replaced
      the schema of its stream: the record fits exactly when the last SCHEMA has that column. */
  lemma DeletionTimeIsAnnounced(context: Context, sent: seq<Message>, ev: RowsEvent, row: map<string, string>)
    requires SchemasAgree(context, sent) && ev.stream in context.streams && ev.kind == DeleteRows
    ensures RecordOf(ev, context.streams[ev.stream].desired, row).Keys <= LastSchema(sent, ev.stream).value
            <==> DELETED_AT in LastSchema(sent, ev.stream).value
  {
    assert DELETED_AT in RecordOf(ev, context.streams[ev.stream].desired, row);
  }

  // ----- a column that another stream has ignored -----

  /** A column that the table supports, selected or not, reaches the record exactly when the schema has
      it or the event calls for discovery.  For a column that calls for discovery, as a new one does, that
      is certain unless some stream, this one or another, has it ignored. */
  lemma IgnoredColumnStaysOut(context: Context, ev: RowsEvent, table: Definition, c: string, row: map<string, string>)
    requires ev.stream in context.streams && HasColumnNames(ev) && Some(c) in ev.columns && !IsDroppedColumn(c)
    requires c in Supported(table) && c in row && c != DELETED_AT
    requires context.streams[ev.stream].desired == context.streams[ev.stream].catalog.properties.Keys
    ensures var entry := context.streams[ev.stream];
            var diff := Diff(ev, entry.desired, context.ignored);
            var step := HandleEvent(context, ev, Some(table));
            && step.Step?
            && (c in RecordOf(ev, step.context.streams[ev.stream].desired, row)
                <==> c in entry.desired || Discovers(entry, diff))
            && (CallsForDiscovery(entry.catalog.metadata, c) && c !in context.ignored ==>
                  c in entry.desired || Discovers(entry, diff))
  {
    var entry := context.streams[ev.stream];
    var diff := Diff(ev, entry.desired, context.ignored);
    if CallsForDiscovery(entry.catalog.metadata, c) && c !in entry.desired && c !in context.ignored {
      assert c in ColumnNames(ev);
      assert c in diff;
    }
  }

  const NAME_COLUMN := Property(Available, "string")

  /** A stream whose schema has one column, with what discovery wrote of the others. */
  function NamedEntry(metadata: map<string, ColumnMetadata>): StreamEntry {
    StreamEntry(CatalogEntry(map["name" := NAME_COLUMN], metadata), {"name"}, Some(1))
  }

  /** One stream has a column of an unsupported type, and another one gets a column of that name later,
      of a supported type: the column is missing from the other's record. */
  lemma ColumnOfAnotherStreamStaysOut()
    ensures var context := Context(map["a" := NamedEntry(map["extra" := ColumnMetadata(false, false)]),
                                       "b" := NamedEntry(map[])],
                                   {});
            var row, columns := map["name" := "ann", "extra" := "x"], [Some("name"), Some("extra")];
            var first := HandleEvent(context, RowsEvent("a", WriteRows, columns, [row], "now", 0), None);
            var ev := RowsEvent("b", WriteRows, columns, [row], "now", 0);
            var table := map["name" := NAME_COLUMN, "extra" := NAME_COLUMN];
            && first.Step?
            && var second := HandleEvent(first.context, ev, Some(table));
               && second.Step? && "extra" in Supported(table) && "b" in second.context.streams
               && "extra" !in RecordOf(ev, second.context.streams["b"].desired, row)
  {
    hide Changes, RecordOf;
    var a, b := NamedEntry(map["extra" := ColumnMetadata(false, false)]), NamedEntry(map[]);
    var context := Context(map["a" := a, "b" := b], {});
    var row, columns := map["name" := "ann", "extra" := "x"], [Some("name"), Some("extra")];
    var ev1 := RowsEvent("a", WriteRows, columns, [row], "now", 0);
    var ev2 := RowsEvent("b", WriteRows, columns, [row], "now", 0);
    var table := map["name" := NAME_COLUMN, "extra" := NAME_COLUMN];
    TwoColumns(ev1);
    TwoColumns(ev2);
    assert Diff(ev1, {"name"}, {}) == {"extra"} && !Discovers(a, {"extra"});
    assert a.catalog.properties.Keys == {"name"} && b.catalog.properties.Keys == {"name"};
    var first := HandleEvent(context, ev1, None);
    assert first.context.ignored == {"extra"} && first.context.streams["b"] == b;
    assert Diff(ev2, {"name"}, {"extra"}) == {} && !Discovers(b, {});
    var second := HandleEvent(first.context, ev2, Some(table));
    assert second.context.streams["b"].desired == {"name"};
    OnlyDesired(ev2, {"name"}, row, "extra");
  }

  /** A column that is supported and was deselected, so that the schema does not have it: its first event
      makes the tap discover the table, which brings the column back. */
  lemma DeselectedColumnComesBack()
    ensures var entry := NamedEntry(map["extra" := ColumnMetadata(true, true)]);
            var context := Context(map["a" := entry], {});
            var row, columns := map["name" := "ann", "extra" := "x"], [Some("name"), Some("extra")];
            var ev := RowsEvent("a", WriteRows, columns, [row], "now", 0);
            var table := map["name" := NAME_COLUMN, "extra" := NAME_COLUMN];
            var step := HandleEvent(context, ev, Some(table));
            && "extra" !in entry.desired && step.Step? && "a" in step.context.streams
            && "extra" in RecordOf(ev, step.context.streams["a"].desired, row)
  {
    hide Changes, RecordOf;
    var entry := NamedEntry(map["extra" := ColumnMetadata(true, true)]);
    var context := Context(map["a" := entry], {});
    var row, columns := map["name" := "ann", "extra" := "x"], [Some("name"), Some("extra")];
    var ev := RowsEvent("a", WriteRows, columns, [row], "now", 0);
    var table := map["name" := NAME_COLUMN, "extra" := NAME_COLUMN];
    TwoColumns(ev);
    assert columns[1] == Some("extra");
    assert entry.desired == entry.catalog.properties.Keys == {"name"};
    IgnoredColumnStaysOut(context, ev, table, "extra", row);
  }

  lemma OnlyDesired(ev: RowsEvent, desired: set<string>, row: map<string, string>, c: string)
    requires c !in desired
    ensures c !in RecordOf(ev, desired, row)
  {
  }

  lemma TwoColumns(ev: RowsEvent)
    requires ev.columns == [Some("name"), Some("extra")]
    ensures ColumnNames(ev) == {"name", "extra"} && HasColumnNames(ev) && !IsDroppedColumn("name")
            && !IsDroppedColumn("extra")
  {
    assert ev.columns[0] == Some("name") && ev.columns[1] == Some("extra");
  }

  /** An event of a stream of the run is refused exactly when a column of it has no name, or one that stands for
      none, or when its table is to be discovered and is not there. */
  lemma EventIsRefusedExactlyWhen(context: Context, ev: RowsEvent, table: Option<Definition>)
    requires ev.stream in context.streams
    ensures var entry := context.streams[ev.stream];
            var discovers := Discovers(entry, Diff(ev, entry.catalog.properties.Keys, context.ignored));
            HandleEvent(context, ev, table).Failure?
            <==> (None in ev.columns || NamesNothing(ev.columns) || (table.None? && discovers))
  {
    hide Discovers, Diff, IsUnknownColumn, SettledEntry, SettledIgnored, Changes;
    forall c | c in ev.columns && c.Some? && IsUnknownColumn(c.value) ensures NamesNothing(ev.columns) {
      UnknownColumnsAre(c.value);
      var n :| n != "" && AllDigits(n) && c.value == "UNKNOWN_COL" + n;
      assert Some("UNKNOWN_COL" + n) in ev.columns;
    }
    if NamesNothing(ev.columns) {
      var n :| n != "" && AllDigits(n) && Some("UNKNOWN_COL" + n) in ev.columns;
      UnknownColumnsAre("UNKNOWN_COL" + n);
      assert IsUnknownColumn(Some("UNKNOWN_COL" + n).value);
    }
  }

  /** Some column has only a number. */
  ghost predicate NamesNothing(columns: seq<Option<string>>) {
    exists n :: n != "" && AllDigits(n) && Some("UNKNOWN_COL" + n) in columns
  }

  /** A discovery sends a SCHEMA first exactly when the supported columns of the table are others than those of the
      schema, or have changed, the column for the deletion time set aside. */
  lemma SchemaIsSentExactlyWhenTheTableDiffers(context: Context, ev: RowsEvent, table: Definition)
    requires ev.stream in context.streams && HasColumnNames(ev)
    requires var entry := context.streams[ev.stream];
             Discovers(entry, Diff(ev, entry.catalog.properties.Keys, context.ignored))
    ensures var step, before := HandleEvent(context, ev, Some(table)), context.streams[ev.stream].catalog.properties;
            && step.Step?
            && (step.msgs != [] && step.msgs[0].Schema?
                <==> || DELETED_AT !in before || before[DELETED_AT] != DELETED_PROPERTY
                     || (exists c :: c != DELETED_AT && DiffersAt(table, before, c)))
            && (step.msgs != [] && step.msgs[0].Schema? ==>
                  forall c :: c in step.msgs[0].properties <==>
                    c == DELETED_AT || (c in table && table[c].inclusion != Unsupported))
  {
    hide Discovers, Diff, HasColumnNames;
    var entry := context.streams[ev.stream];
    var found := Rediscovered(table).properties;
    DiffersSomewhere(table, entry.catalog.properties);
    var entry' := SettledEntry(entry, Diff(ev, entry.catalog.properties.Keys, context.ignored), table);
    if |ev.rows| > 0 && ev.kind != OtherRows {
      ChangesCarryRows(ev, entry'.desired, VersionAt(entry'.version, ev.now), |ev.rows|, 0);
    }
  }

  /** Once a discovery has replaced the entry of a stream, no event with columns of that table leads to another,
      whether their types are supported or not. */
  lemma KnownTableIsNotDiscoveredAgain(context: Context, first: RowsEvent, table: Definition, ev: RowsEvent)
    requires first.stream in context.streams && ev.stream == first.stream && HasColumnNames(ev)
    requires forall c :: Some(c) in ev.columns ==> c in table
    requires var step := HandleEvent(context, first, Some(table));
             step.Step? && step.context.streams[ev.stream] != context.streams[ev.stream]
    ensures var step := HandleEvent(HandleEvent(context, first, Some(table)).context, ev, None);
            && step.Step? && step.context.streams == HandleEvent(context, first, Some(table)).context.streams
            && forall m :: m in step.msgs ==> !m.Schema?
  {
    hide Changes, IsUnknownColumn, IsDroppedColumn;
    var middle := HandleEvent(context, first, Some(table)).context;
    var entry := middle.streams[ev.stream];
    var diff := Diff(ev, entry.catalog.properties.Keys, middle.ignored);
    assert !Discovers(entry, diff);
    ChangesAreData(ev, entry.desired, VersionAt(entry.version, ev.now), |ev.rows|);
    assert middle.streams[ev.stream := entry] == middle.streams;
  }

  /** The schema does not have the column as the table does. */
  predicate DiffersAt(table: Definition, schema: map<string, Property>, c: string) {
    if c in table && table[c].inclusion != Unsupported then c !in schema || schema[c] != table[c] else c in schema
  }

  lemma DiffersSomewhere(table: Definition, schema: map<string, Property>)
    ensures Rediscovered(table).properties != schema
       <==> || DELETED_AT !in schema || schema[DELETED_AT] != DELETED_PROPERTY
            || (exists c :: c != DELETED_AT && DiffersAt(table, schema, c))
  {
    var found := Rediscovered(table).properties;
    if DELETED_AT in schema && schema[DELETED_AT] == DELETED_PROPERTY
       && forall c :: c != DELETED_AT ==> !DiffersAt(table, schema, c) {
      forall c ensures c in found <==> c in schema {
        if c != DELETED_AT { assert !DiffersAt(table, schema, c); }
      }
      forall c | c in found ensures found[c] == schema[c] {
        if c != DELETED_AT { assert !DiffersAt(table, schema, c); }
      }
      assert found == schema;
    }
  }

  /** A new column whose name begins with an underscore is like any other: it reaches the record. */
  lemma NewColumnArrives()
    ensures var context := Context(map["a" := NamedEntry(map[])], {});
            var row, columns := map["name" := "ann", "_note" := "x"], [Some("name"), Some("_note")];
            var ev := RowsEvent("a", WriteRows, columns, [row], "now", 0);
            var table := map["name" := NAME_COLUMN, "_note" := NAME_COLUMN];
            var step := HandleEvent(context, ev, Some(table));
            && step.Step? && "a" in step.context.streams
            && "_note" in RecordOf(ev, step.context.streams["a"].desired, row)
  {
    hide Changes, RecordOf;
    var entry := NamedEntry(map[]);
    var context := Context(map["a" := entry], {});
    var row, columns := map["name" := "ann", "_note" := "x"], [Some("name"), Some("_note")];
    var ev := RowsEvent("a", WriteRows, columns, [row], "now", 0);
    var table := map["name" := NAME_COLUMN, "_note" := NAME_COLUMN];
    NamesOfColumns();
    assert columns[1] == Some("_note");
    assert entry.desired == entry.catalog.properties.Keys == {"name"};
    IgnoredColumnStaysOut(context, ev, table, "_note", row);
  }

  /** A column that was dropped since is no difference: it neither leads to a discovery nor is it ignored. */
  lemma DroppedColumnsAreNoDifference(ev: RowsEvent, properties: set<string>, ignored: set<string>, n: string,
                                      rest: string)
    requires n != "" && AllDigits(n)
    ensures "__dropped_col_" + n + "__" + rest !in Diff(ev, properties, ignored)
  {
    hide IsDroppedColumn;
    DroppedColumnsAre("__dropped_col_" + n + "__" + rest);
  }

  /** A deletion of one row, with the time of its event. */
  lemma DeletionHasItsTime()
    ensures var columns := map["id" := NAME_COLUMN, "_sdc_deleted_at" := NAME_COLUMN];
            var entry := StreamEntry(CatalogEntry(columns, map[]), {"id", "_sdc_deleted_at"}, Some(7));
            var ev := RowsEvent("t", DeleteRows, [Some("id")], [map["id" := "1"]], "2024-01-01T00:00:00+00:00", 0);
            HandleEvent(Context(map["t" := entry], {}), ev, None)
            == Step(Context(map["t" := entry], {}),
                    [Change("t", map["id" := "1", "_sdc_deleted_at" := "2024-01-01T00:00:00+00:00"], 7)])
  {
    hide IsUnknownColumn, IsDroppedColumn;
    var columns := map["id" := NAME_COLUMN, "_sdc_deleted_at" := NAME_COLUMN];
    var entry := StreamEntry(CatalogEntry(columns, map[]), {"id", "_sdc_deleted_at"}, Some(7));
    var ev := RowsEvent("t", DeleteRows, [Some("id")], [map["id" := "1"]], "2024-01-01T00:00:00+00:00", 0);
    var record := map["id" := "1", "_sdc_deleted_at" := "2024-01-01T00:00:00+00:00"];
    assert RecordOf(ev, entry.desired, ev.rows[0]) == record;
    assert Changes(ev, entry.desired, 7, 0) == [] && Changes(ev, entry.desired, 7, 1) == [Change("t", record, 7)];
    IdIsAName();
    assert HasColumnNames(ev) && Diff(ev, columns.Keys, {}) == {} && !Discovers(entry, {});
    assert map["t" := entry]["t" := entry] == map["t" := entry];
  }

  lemma IdIsAName()
    ensures !IsUnknownColumn("id")
  {
  }

  // ----- discovery comes to rest -----

  /** The table of every event is known, and stays as it is. */
  predicate Known(events: seq<RowsEvent>, tables: map<StreamId, Definition>) {
    forall ev :: ev in events ==> ev.stream in tables
  }

  /** The run so far, event by event, while no table changes. */
  function ContextAfter(context: Context, events: seq<RowsEvent>, tables: map<StreamId, Definition>, n: nat): Context
    requires n <= |events|
    requires Known(events, tables)
  {
    if n == 0 then context else
      var before := ContextAfter(context, events, tables, n - 1);
      var step := HandleEvent(before, events[n - 1], Some(tables[events[n - 1].stream]));
      if step.Step? then step.context else before
  }

  /** The difference that event `n` meets. */
  function DiffAt(context: Context, events: seq<RowsEvent>, tables: map<StreamId, Definition>, n: nat): set<string>
    requires n < |events|
    requires Known(events, tables)
  {
    var before := ContextAfter(context, events, tables, n);
    var ev := events[n];
    if ev.stream in before.streams && HasColumnNames(ev)
    then Diff(ev, before.streams[ev.stream].catalog.properties.Keys, before.ignored) else {}
  }

  /** Columns in the differences of the stream's first `n` events. */
  function Met(context: Context, events: seq<RowsEvent>, tables: map<StreamId, Definition>, id: StreamId,
               n: nat): set<string>
    requires n <= |events|
    requires Known(events, tables)
  {
    if n == 0 then {} else
      Met(context, events, tables, id, n - 1)
      + (if events[n - 1].stream == id then DiffAt(context, events, tables, n - 1) else {})
  }

  /** How many of the stream's first `n` events met a difference. */
  function Encounters(context: Context, events: seq<RowsEvent>, tables: map<StreamId, Definition>, id: StreamId,
                      n: nat): nat
    requires n <= |events|
    requires Known(events, tables)
  {
    if n == 0 then 0 else
      Encounters(context, events, tables, id, n - 1)
      + (if events[n - 1].stream == id && DiffAt(context, events, tables, n - 1) != {} then 1 else 0)
  }

  /** Where a column that was met has gone: it is ignored, or the schema is the table's own. */
  ghost predicate Resolved(context: Context, id: StreamId, table: Definition, c: string) {
    || c in context.ignored
    || (id in context.streams && context.streams[id].catalog.properties == Rediscovered(table).properties
        && c in Rediscovered(table).properties)
  }

  lemma EventResolves(before: Context, ev: RowsEvent, table: Definition, c: string)
    requires ev.stream in before.streams && HasColumnNames(ev)
    requires Resolved(before, ev.stream, table, c)
             || c in Diff(ev, before.streams[ev.stream].catalog.properties.Keys, before.ignored)
    ensures Resolved(HandleEvent(before, ev, Some(table)).context, ev.stream, table, c)
  {
  }

  lemma {:induction false} MetIsResolved(context: Context, events: seq<RowsEvent>, tables: map<StreamId, Definition>,
                                         id: StreamId, n: nat, c: string)
    requires n <= |events| && Known(events, tables) && id in tables
    requires c in Met(context, events, tables, id, n)
    ensures Resolved(ContextAfter(context, events, tables, n), id, tables[id], c)
    decreases n
  {
    var before, ev := ContextAfter(context, events, tables, n - 1), events[n - 1];
    if c in Met(context, events, tables, id, n - 1) {
      MetIsResolved(context, events, tables, id, n - 1, c);
    }
    if ev.stream in before.streams && HasColumnNames(ev) && ev.stream == id {
      EventResolves(before, ev, tables[id], c);
    }
  }

  /** While no table changes, a column enters the differences of a stream at most once. */
  lemma DiffsNeverRepeat(context: Context, events: seq<RowsEvent>, tables: map<StreamId, Definition>, n: nat)
    requires n < |events| && Known(events, tables)
    ensures DiffAt(context, events, tables, n) !! Met(context, events, tables, events[n].stream, n)
  {
    var id := events[n].stream;
    forall c | c in DiffAt(context, events, tables, n) && c in Met(context, events, tables, id, n)
      ensures false
    {
      MetIsResolved(context, events, tables, id, n, c);
    }
  }

  function AllColumns(events: seq<RowsEvent>, id: StreamId, n: nat): set<string>
    requires n <= |events|
  {
    if n == 0 then {} else
      AllColumns(events, id, n - 1) + (if events[n - 1].stream == id then ColumnNames(events[n - 1]) else {})
  }

  lemma {:induction false} MetAreColumns(context: Context, events: seq<RowsEvent>, tables: map<StreamId, Definition>,
                                         id: StreamId, n: nat)
    requires n <= |events| && Known(events, tables)
    ensures Met(context, events, tables, id, n) <= AllColumns(events, id, n)
    decreases n
  {
    if n > 0 { MetAreColumns(context, events, tables, id, n - 1); }
  }

  lemma {:induction false} EncountersAreMet(context: Context, events: seq<RowsEvent>,
                                            tables: map<StreamId, Definition>, id: StreamId, n: nat)
    requires n <= |events| && Known(events, tables)
    ensures Encounters(context, events, tables, id, n) <= |Met(context, events, tables, id, n)|
    decreases n
  {
    hide DiffAt, ContextAfter, Known;
    if n == 0 {
      assert Encounters(context, events, tables, id, n) == 0;
    } else {
      EncountersAreMet(context, events, tables, id, n - 1);
      EncounterStep(context, events, tables, id, n);
    }
  }

  lemma EncounterStep(context: Context, events: seq<RowsEvent>, tables: map<StreamId, Definition>, id: StreamId, n: nat)
    requires 0 < n <= |events| && Known(events, tables)
    requires Encounters(context, events, tables, id, n - 1) <= |Met(context, events, tables, id, n - 1)|
    ensures Encounters(context, events, tables, id, n) <= |Met(context, events, tables, id, n)|
  {
    hide DiffAt, ContextAfter, Known;
    if events[n - 1].stream == id {
      DiffsNeverRepeat(context, events, tables, n - 1);
      DisjointSizes(Met(context, events, tables, id, n - 1), DiffAt(context, events, tables, n - 1));
    }
  }

  lemma DisjointSizes(a: set<string>, b: set<string>)
    requires a !! b
    ensures |a + b| == |a| + |b| && (b != {} ==> |b| > 0)
  {
  }

  lemma SubsetSize(a: set<string>, b: set<string>)
    requires a <= b
    ensures |a| <= |b|
  {
    DisjointSizes(a, b - a);
    assert a + (b - a) == b;
  }

  /** Discovery comes to rest: over a run of any length a stream meets differences, and so is
      discovered, at most once for each column name its events carry. */
  lemma DiscoveriesAreBounded(context: Context, events: seq<RowsEvent>, tables: map<StreamId, Definition>, id: StreamId)
    requires Known(events, tables)
    ensures Encounters(context, events, tables, id, |events|) <= |AllColumns(events, id, |events|)|
  {
    EncountersAreMet(context, events, tables, id, |events|);
    MetAreColumns(context, events, tables, id, |events|);
    SubsetSize(Met(context, events, tables, id, |events|), AllColumns(events, id, |events|));
  }
}
