/**
 `common._sync_query_arrow`: the same query loop over record batches, which go to files whole.
 */
module ArrowQuery {
  import opened Singer
  import opened Writers
  import opened QuerySpec
  import opened SyncQuery

  type RecordBatches = seq<seq<Row>>

  lemma {:induction false} FlattenConcat(a: RecordBatches, b: RecordBatches)
    ensures Flatten(a + b) == Flatten(a) + Flatten(b)
  {
    if b == [] {
      assert a + b == a;
    } else {
      FlattenConcat(a, b[..|b| - 1]);
      assert (a + b)[..|a + b| - 1] == a + b[..|b| - 1];
      Associative(Flatten(a), Flatten(b[..|b| - 1]), b[|b| - 1]);
    }
  }

  /** Of the first `i` record batches, those from this index on wait in the writer. */
  function Opened(batches: RecordBatches, size: BatchSize, i: nat): (from: nat)
    requires i <= |batches|
    ensures from <= i
  {
    if i == 0 then 0 else
      var from := Opened(batches, size, i - 1);
      if size <= |Flatten(batches[from..i])| then i else from
  }

  /** The rows that wait in the writer. */
  function Waiting(batches: RecordBatches, size: BatchSize, i: nat): seq<Row>
    requires i <= |batches|
  {
    Flatten(batches[Opened(batches, size, i)..i])
  }

  lemma {:induction false} WaitingStep(batches: RecordBatches, size: BatchSize, i: nat)
    requires 0 < i <= |batches|
    ensures var held := Waiting(batches, size, i - 1) + batches[i - 1];
            && held == Flatten(batches[Opened(batches, size, i - 1)..i])
            && Waiting(batches, size, i) == if size <= |held| then [] else held
  {
    var from := Opened(batches, size, i - 1);
    assert batches[from..i] == batches[from..i - 1] + [batches[i - 1]];
    FlattenOne(batches[from..i - 1], batches[i - 1]);
  }

  /** An open file is always short of the size: a file first reaches it at its final batch. */
  lemma {:induction false} WaitingIsShort(batches: RecordBatches, size: BatchSize, i: nat)
    requires i <= |batches|
    ensures |Waiting(batches, size, i)| < size
  {
    if i > 0 { WaitingStep(batches, size, i); }
  }

  /** Of the first `i` record batches, the rows that no longer wait, in order. */
  lemma OpenedSplits(batches: RecordBatches, size: BatchSize, i: nat)
    requires i <= |batches|
    ensures Flatten(batches[..Opened(batches, size, i)]) + Waiting(batches, size, i) == Flatten(batches[..i])
  {
    var from := Opened(batches, size, i);
    assert batches[..i] == batches[..from] + batches[from..i];
    FlattenConcat(batches[..from], batches[from..i]);
  }

  function BatchMessages(s: Stream, st: State, size: BatchSize, batches: RecordBatches, i: nat): seq<Message>
    requires 0 < i <= |batches|
  {
    var file := Flatten(batches[Opened(batches, size, i - 1)..i]);
    if size <= |file| then [Batch(s.id, file), StateMessage(After(s, st, Flatten(batches[..i])))] else []
  }

  /** The messages of the first `i` record batches. */
  function ArrowProgress(s: Stream, st: State, size: BatchSize, batches: RecordBatches, i: nat): seq<Message>
    requires i <= |batches|
    decreases i
  {
    if i == 0 then []
    else ArrowProgress(s, st, size, batches, i - 1) + BatchMessages(s, st, size, batches, i)
  }

  function ArrowClosing(s: Stream, st: State, size: BatchSize, batches: RecordBatches): seq<Message> {
    var held := Waiting(batches, size, |batches|);
    var state := StateMessage(After(s, st, Flatten(batches)));
    if held != [] then [Batch(s.id, held), state]
    else if Flatten(batches) == [] then [state] else []
  }

  function ArrowMessages(s: Stream, st: State, size: BatchSize, batches: RecordBatches, drops: bool): seq<Message> {
    ArrowProgress(s, st, size, batches, |batches|) + (if drops then [] else ArrowClosing(s, st, size, batches))
  }

  lemma BatchDelivers(s: Stream, st: State, size: BatchSize, batches: RecordBatches, i: nat)
    requires 0 < i <= |batches|
    ensures Delivered(BatchMessages(s, st, size, batches, i))
         == if Opened(batches, size, i) == i then Flatten(batches[Opened(batches, size, i - 1)..i]) else []
  {
    var from := Opened(batches, size, i - 1);
    BatchThenState(Batch(s.id, Flatten(batches[from..i])), StateMessage(After(s, st, Flatten(batches[..i]))));
  }

  /** No row is lost, repeated or moved: the files hold the rows read, but for those that wait. */
  lemma {:induction false} ArrowDelivers(s: Stream, st: State, size: BatchSize, batches: RecordBatches, i: nat)
    requires i <= |batches|
    ensures Delivered(ArrowProgress(s, st, size, batches, i)) == Flatten(batches[..Opened(batches, size, i)])
    decreases i
  {
    hide Delivered, ArrowProgress, Flatten, Opened;
    if i == 0 {
      NothingDelivered(s, st, size, batches);
    } else {
      ArrowDelivers(s, st, size, batches, i - 1);
      ArrowStepDelivers(s, st, size, batches, i);
    }
  }

  lemma NothingDelivered(s: Stream, st: State, size: BatchSize, batches: RecordBatches)
    ensures Delivered(ArrowProgress(s, st, size, batches, 0)) == Flatten(batches[..Opened(batches, size, 0)])
  {
  }

  lemma ArrowStepDelivers(s: Stream, st: State, size: BatchSize, batches: RecordBatches, i: nat)
    requires 0 < i <= |batches|
    requires Delivered(ArrowProgress(s, st, size, batches, i - 1)) == Flatten(batches[..Opened(batches, size, i - 1)])
    ensures Delivered(ArrowProgress(s, st, size, batches, i)) == Flatten(batches[..Opened(batches, size, i)])
  {
    hide Delivered, Flatten, Opened, BatchMessages;
    var before, msgs := ArrowProgress(s, st, size, batches, i - 1), BatchMessages(s, st, size, batches, i);
    BatchDelivers(s, st, size, batches, i);
    DeliveredConcat(before, msgs);
    OpenedStep(batches, size, i);
  }

  lemma OpenedStep(batches: RecordBatches, size: BatchSize, i: nat)
    requires 0 < i <= |batches|
    ensures Flatten(batches[..Opened(batches, size, i - 1)])
              + (if Opened(batches, size, i) == i then Flatten(batches[Opened(batches, size, i - 1)..i]) else [])
         == Flatten(batches[..Opened(batches, size, i)])
  {
    var from := Opened(batches, size, i - 1);
    if Opened(batches, size, i) == i {
      assert batches[..i] == batches[..from] + batches[from..i];
      FlattenConcat(batches[..from], batches[from..i]);
    }
  }

  /** STATE messages never run ahead of the files, however large the record batches are. */
  lemma {:induction false} ArrowCheckpoints(s: Stream, st: State, size: BatchSize, batches: RecordBatches, i: nat)
    requires i <= |batches|
    ensures CheckpointsCover(s, st, ArrowProgress(s, st, size, batches, i))
    decreases i
  {
    hide Delivered, ArrowProgress, Flatten, Opened, BatchMessages, CheckpointsCover, After;
    if i == 0 {
      NothingToCover(s, st, size, batches);
    } else {
      ArrowCheckpoints(s, st, size, batches, i - 1);
      ArrowDelivers(s, st, size, batches, i);
      ArrowStep(s, st, size, batches, i);
      CheckpointsCoverStep(s, st, ArrowProgress(s, st, size, batches, i - 1), BatchMessages(s, st, size, batches, i),
                           Flatten(batches[..i]));
    }
  }

  lemma NothingToCover(s: Stream, st: State, size: BatchSize, batches: RecordBatches)
    ensures CheckpointsCover(s, st, ArrowProgress(s, st, size, batches, 0))
  {
  }

  lemma ArrowStep(s: Stream, st: State, size: BatchSize, batches: RecordBatches, i: nat)
    requires 0 < i <= |batches|
    ensures var msgs := BatchMessages(s, st, size, batches, i);
            && ArrowProgress(s, st, size, batches, i) == ArrowProgress(s, st, size, batches, i - 1) + msgs
            && |msgs| <= 2 && (|msgs| == 2 ==> !msgs[0].StateMessage?)
            && (|msgs| > 0 && msgs[|msgs| - 1].StateMessage? ==>
                  msgs[|msgs| - 1].state == After(s, st, Flatten(batches[..i])) && Opened(batches, size, i) == i)
  {
    hide Flatten, After;
  }

  /** A query that came to its end delivered every row, and each STATE covers what precedes it. */
  lemma ArrowDeliversAll(s: Stream, st: State, size: BatchSize, batches: RecordBatches)
    ensures var msgs := ArrowMessages(s, st, size, batches, false);
            && Delivered(msgs) == Flatten(batches)
            && CheckpointsCover(s, st, msgs)
  {
    hide Flatten, Opened, After, Delivered, CheckpointsCover, ArrowProgress, Waiting;
    var n := |batches|;
    var before, msgs := ArrowProgress(s, st, size, batches, n), ArrowClosing(s, st, size, batches);
    ArrowDelivers(s, st, size, batches, n);
    ArrowCheckpoints(s, st, size, batches, n);
    OpenedSplits(batches, size, n);
    assert batches[..n] == batches;
    BatchThenState(Batch(s.id, Waiting(batches, size, n)), StateMessage(After(s, st, Flatten(batches))));
    DeliveredConcat(before, msgs);
    CheckpointsCoverStep(s, st, before, msgs, Flatten(batches));
  }

  /** Each file that fills up first crosses the size at its final record batch. */
  lemma FileCrossesAtItsLastBatch(s: Stream, st: State, size: BatchSize, batches: RecordBatches, i: nat)
    requires 0 < i <= |batches|
    ensures var msgs := BatchMessages(s, st, size, batches, i);
            var from := Opened(batches, size, i - 1);
            msgs != [] ==>
              && from < i && msgs[0] == Batch(s.id, Flatten(batches[from..i]))
              && |Flatten(batches[from..i - 1])| < size <= |Flatten(batches[from..i])|
  {
    WaitingIsShort(batches, size, i - 1);
  }

  /** Each row as a record batch of its own. */
  function Singles(rows: seq<Row>): RecordBatches {
    seq(|rows|, i requires 0 <= i < |rows| => [rows[i]])
  }

  lemma {:induction false} FlattenSingles(rows: seq<Row>, from: nat, end: nat)
    requires from <= end <= |rows|
    ensures Flatten(Singles(rows)[from..end]) == rows[from..end]
    decreases end
  {
    if from < end {
      FlattenSingles(rows, from, end - 1);
      assert Singles(rows)[from..end][..end - 1 - from] == Singles(rows)[from..end - 1];
    }
  }

  lemma {:induction false} SinglesOpened(rows: seq<Row>, size: BatchSize, k: nat)
    requires k <= |rows|
    ensures Opened(Singles(rows), size, k) == k - InPeriod(k, size)
    decreases k
  {
    if k > 0 {
      SinglesOpened(rows, size, k - 1);
      FlattenSingles(rows, Opened(Singles(rows), size, k - 1), k);
    }
  }

  lemma SinglesFile(rows: seq<Row>, size: BatchSize, k: nat)
    requires 0 < k <= |rows|
    ensures Flatten(Singles(rows)[Opened(Singles(rows), size, k - 1)..k]) == rows[k - 1 - InPeriod(k - 1, size)..k]
    ensures Flatten(Singles(rows)[..k]) == rows[..k]
  {
    hide Flatten, Opened, InPeriod;
    SinglesOpened(rows, size, k - 1);
    FlattenSingles(rows, k - 1 - InPeriod(k - 1, size), k);
    FlattenSingles(rows, 0, k);
    assert Singles(rows)[0..k] == Singles(rows)[..k] && rows[0..k] == rows[..k];
  }

  lemma SinglesStep(s: Stream, st: State, version: int, size: BatchSize, rows: seq<Row>, k: nat)
    requires 0 < k <= |rows|
    ensures BatchMessages(s, st, size, Singles(rows), k) == RowMessages(s, st, version, Jsonl(size), rows, k)
  {
    hide Flatten, Opened, InPeriod, After, Singles;
    SinglesFile(rows, size, k);
    HeldStep(Jsonl(size), rows, k);
  }

  /** On record batches of one row the two writers write the same messages. */
  lemma {:induction false} WritersAgreeOnSingles(s: Stream, st: State, version: int, size: BatchSize, rows: seq<Row>,
                                                 k: nat)
    requires k <= |rows|
    ensures ArrowProgress(s, st, size, Singles(rows), k) == Progress(s, st, version, Jsonl(size), rows, k)
    decreases k
  {
    hide Flatten, Opened, InPeriod, After, BatchMessages, RowMessages;
    if k == 0 {
      assert ArrowProgress(s, st, size, Singles(rows), k) == [] == Progress(s, st, version, Jsonl(size), rows, k);
    } else {
      WritersAgreeOnSingles(s, st, version, size, rows, k - 1);
      SinglesStep(s, st, version, size, rows, k);
      assert ArrowProgress(s, st, size, Singles(rows), k)
          == ArrowProgress(s, st, size, Singles(rows), k - 1) + BatchMessages(s, st, size, Singles(rows), k);
      assert Progress(s, st, version, Jsonl(size), rows, k)
          == Progress(s, st, version, Jsonl(size), rows, k - 1) + RowMessages(s, st, version, Jsonl(size), rows, k);
    }
  }

  lemma ClosingsAgreeOnSingles(s: Stream, st: State, size: BatchSize, rows: seq<Row>)
    ensures ArrowClosing(s, st, size, Singles(rows)) == Closing(s, st, Jsonl(size), rows)
  {
    hide Flatten, Opened, InPeriod, After, Waiting, Closing;
    SinglesWaiting(rows, size);
    ClosingShape(s, st, Jsonl(size), rows);
  }

  lemma SinglesWaiting(rows: seq<Row>, size: BatchSize)
    ensures Flatten(Singles(rows)) == rows
    ensures Waiting(Singles(rows), size, |rows|) == rows[|rows| - InPeriod(|rows|, size)..]
  {
    hide Flatten, Opened, InPeriod;
    var n := |rows|;
    SinglesOpened(rows, size, n);
    FlattenSingles(rows, n - InPeriod(n, size), n);
    FlattenSingles(rows, 0, n);
    assert Singles(rows)[0..n] == Singles(rows) && rows[0..n] == rows;
    assert rows[n - InPeriod(n, size)..n] == rows[n - InPeriod(n, size)..];
  }

  lemma QueriesAgreeOnSingles(s: Stream, st: State, version: int, size: BatchSize, rows: seq<Row>, drops: bool)
    ensures ArrowMessages(s, st, size, Singles(rows), drops) == QueryMessages(s, st, version, Jsonl(size), rows, drops)
  {
    WritersAgreeOnSingles(s, st, version, size, rows, |rows|);
    ClosingsAgreeOnSingles(s, st, size, rows);
  }

  lemma NothingRead(s: Stream, st: State, size: BatchSize, batches: RecordBatches)
    ensures Flatten(batches[..0]) == [] && Waiting(batches, size, 0) == []
    ensures After(s, st, Flatten(batches[..0])) == st && ArrowProgress(s, st, size, batches, 0) == []
  {
    assert batches[..0] == [];
  }

  /** The process and its writer after `i` record batches of a query that began with `out0` written. */
  ghost predicate ArrowStands(tap: Tap, s: Stream, replicationKey: Value, st0: State, size: BatchSize,
                              reader: RecordBatches, i: nat, checkpoint: bool, batchWriter: ArrowBatchWriter,
                              out0: seq<Message>)
    requires i <= |reader|
    reads tap, tap.output, batchWriter
  {
    && Get(tap.state, s.id, ReplicationKey) == replicationKey
    && tap.state == After(s, st0, Flatten(reader[..i]))
    && tap.output.messages == out0 + ArrowProgress(s, st0, size, reader, i)
    && batchWriter.Valid() && batchWriter.Held() == Waiting(reader, size, i)
    && batchWriter.stream == s.id && batchWriter.output == tap.output && batchWriter.batchSize == size
    && (checkpoint <==> Flatten(reader[..i]) != [] && Waiting(reader, size, i) == [])
  }

  lemma ArrowStandsAtTheStart(tap: Tap, s: Stream, size: BatchSize, reader: RecordBatches,
                              batchWriter: ArrowBatchWriter)
    requires batchWriter.Valid() && batchWriter.Held() == []
    requires batchWriter.stream == s.id && batchWriter.output == tap.output && batchWriter.batchSize == size
    ensures ArrowStands(tap, s, Get(tap.state, s.id, ReplicationKey), tap.state, size, reader, 0, false, batchWriter,
                        tap.output.messages)
  {
    hide After, ArrowProgress, Flatten, Waiting;
    NothingRead(s, tap.state, size, reader);
    assert tap.output.messages + [] == tap.output.messages;
  }

  lemma ArrowStandsAtTheEnd(tap: Tap, s: Stream, replicationKey: Value, st0: State, size: BatchSize,
                            reader: RecordBatches, checkpoint: bool, batchWriter: ArrowBatchWriter, out0: seq<Message>)
    requires ArrowStands(tap, s, replicationKey, st0, size, reader, |reader|, checkpoint, batchWriter, out0)
    ensures tap.state == After(s, st0, Flatten(reader))
    ensures tap.output.messages == out0 + ArrowMessages(s, st0, size, reader, true)
    ensures tap.output.messages == out0 + ArrowProgress(s, st0, size, reader, |reader|)
    ensures batchWriter.Valid() && batchWriter.Held() == Waiting(reader, size, |reader|)
    ensures batchWriter.stream == s.id && batchWriter.output == tap.output
    ensures checkpoint <==> Flatten(reader) != [] && Waiting(reader, size, |reader|) == []
  {
    hide After, ArrowProgress, Flatten, Waiting, ArrowClosing;
    assert reader[..|reader|] == reader;
    assert ArrowProgress(s, st0, size, reader, |reader|) + [] == ArrowProgress(s, st0, size, reader, |reader|);
  }

  lemma ArrowCloses(s: Stream, st: State, size: BatchSize, reader: RecordBatches, out0: seq<Message>)
    ensures out0 + ArrowProgress(s, st, size, reader, |reader|) + ArrowClosing(s, st, size, reader)
         == out0 + ArrowMessages(s, st, size, reader, false)
  {
    hide ArrowProgress, ArrowClosing;
    Associative(out0, ArrowProgress(s, st, size, reader, |reader|), ArrowClosing(s, st, size, reader));
  }

  method SyncQueryArrow(tap: Tap, s: Stream, reader: RecordBatches, drops: bool, size: BatchSize) returns (ok: bool)
    modifies tap, tap.output
    ensures ok == !drops
    ensures tap.state == After(s, old(tap.state), Flatten(reader))
    ensures tap.output.messages == old(tap.output.messages) + ArrowMessages(s, old(tap.state), size, reader, drops)
  {
    hide ArrowStands, After, Flatten, ArrowMessages, ArrowProgress, ArrowClosing;
    ghost var st0, out0 := tap.state, tap.output.messages;
    var replicationKey := Get(tap.state, s.id, ReplicationKey);
    var batchWriter := new ArrowBatchWriter(s.id, size, tap.output);
    var checkpoint := false;
    ArrowStandsAtTheStart(tap, s, size, reader, batchWriter);
    for i := 0 to |reader|
      invariant ArrowStands(tap, s, replicationKey, st0, size, reader, i, checkpoint, batchWriter, out0)
      invariant fresh(batchWriter)
    {
      checkpoint := SaveNext(tap, s, replicationKey, batchWriter, size, reader, i, checkpoint, st0, out0);
    }
    ArrowStandsAtTheEnd(tap, s, replicationKey, st0, size, reader, checkpoint, batchWriter, out0);
    if drops {
      return false;
    }
    FinishQueryArrow(tap, s, st0, size, reader, batchWriter, checkpoint);
    ArrowCloses(s, st0, size, reader, out0);
    ok := true;
  }

  /** After the last record batch: flush the open file, and checkpoint unless the last one just did. */
  method FinishQueryArrow(tap: Tap, s: Stream, ghost st0: State, ghost size: BatchSize, ghost reader: RecordBatches,
                          batchWriter: ArrowBatchWriter, checkpoint: bool)
    requires tap.state == After(s, st0, Flatten(reader))
    requires batchWriter.Valid() && batchWriter.Held() == Waiting(reader, size, |reader|)
    requires batchWriter.stream == s.id && batchWriter.output == tap.output
    requires checkpoint <==> Flatten(reader) != [] && Waiting(reader, size, |reader|) == []
    modifies tap.output, batchWriter
    ensures tap.output.messages == old(tap.output.messages) + ArrowClosing(s, st0, size, reader)
  {
    hide After, Flatten, Waiting;
    batchWriter.Flush();
    if !checkpoint {
      tap.output.Emit(StateMessage(tap.state));
    }
  }

  /** The loop body, in terms of the record batches read so far. */
  method SaveNext(tap: Tap, s: Stream, replicationKey: Value, batchWriter: ArrowBatchWriter, ghost size: BatchSize,
                  reader: RecordBatches, i: nat, before: bool, ghost st0: State, ghost out0: seq<Message>)
    returns (checkpoint: bool)
    requires i < |reader|
    requires ArrowStands(tap, s, replicationKey, st0, size, reader, i, before, batchWriter, out0)
    modifies tap, tap.output, batchWriter
    ensures ArrowStands(tap, s, replicationKey, st0, size, reader, i + 1, checkpoint, batchWriter, out0)
  {
    hide After, Flatten, Waiting, Opened, BatchMessages;
    BatchCases(reader, size, i);
    checkpoint := SaveBatch(tap, s, replicationKey, batchWriter, reader[i], before, st0, Flatten(reader[..i]));
    BatchIs(s, st0, size, reader, i);
    Associative(out0, ArrowProgress(s, st0, size, reader, i), BatchMessages(s, st0, size, reader, i + 1));
  }

  lemma BatchIs(s: Stream, st: State, size: BatchSize, batches: RecordBatches, i: nat)
    requires i < |batches|
    ensures var held := Waiting(batches, size, i) + batches[i];
            BatchMessages(s, st, size, batches, i + 1)
            == if size <= |held| then [Batch(s.id, held), StateMessage(After(s, st, Flatten(batches[..i + 1])))] else []
    ensures ArrowProgress(s, st, size, batches, i + 1)
         == ArrowProgress(s, st, size, batches, i) + BatchMessages(s, st, size, batches, i + 1)
  {
    hide After, Flatten, Waiting;
    BatchCases(batches, size, i);
  }

  /** One record batch: an empty one is passed over, and the last row of any other one moves the
      bookmark.  `read` are the rows of the record batches before it. */
  method SaveBatch(tap: Tap, s: Stream, replicationKey: Value, batchWriter: ArrowBatchWriter, recordBatch: seq<Row>,
                   before: bool, ghost st0: State, ghost read: seq<Row>)
    returns (checkpoint: bool)
    requires Get(tap.state, s.id, ReplicationKey) == replicationKey
    requires tap.state == After(s, st0, read)
    requires batchWriter.Valid() && batchWriter.stream == s.id && batchWriter.output == tap.output
    modifies tap, tap.output, batchWriter
    ensures Get(tap.state, s.id, ReplicationKey) == replicationKey
    ensures tap.state == After(s, st0, read + recordBatch)
    ensures var held, full := old(batchWriter.Held()) + recordBatch,
                              batchWriter.batchSize <= |old(batchWriter.Held()) + recordBatch|;
            && batchWriter.Valid() && batchWriter.Held() == (if full then [] else held)
            && checkpoint == (if recordBatch == [] then before else full)
            && tap.output.messages == old(tap.output.messages) +
                 (if full then [Batch(s.id, held), StateMessage(tap.state)] else [])
  {
    if |recordBatch| == 0 {
      assert read + recordBatch == read;
      assert batchWriter.Held() + recordBatch == batchWriter.Held();
      return before;
    }
    checkpoint := batchWriter.Write(recordBatch);
    BatchAdvances(s, st0, read, recordBatch);
    tap.AdvanceBookmark(s, replicationKey, recordBatch[|recordBatch| - 1]);
    if checkpoint {
      tap.output.Emit(StateMessage(tap.state));
    }
  }

  /** What one more record batch does to the rows read and to those that wait. */
  lemma BatchCases(batches: RecordBatches, size: BatchSize, i: nat)
    requires i < |batches|
    ensures var held := Waiting(batches, size, i) + batches[i];
            && Flatten(batches[..i + 1]) == Flatten(batches[..i]) + batches[i]
            && Flatten(batches[Opened(batches, size, i)..i + 1]) == held
            && Waiting(batches, size, i + 1) == (if size <= |held| then [] else held)
            && (batches[i] == [] ==> held == Waiting(batches, size, i) && |held| < size)
  {
    WaitingStep(batches, size, i + 1);
    WaitingIsShort(batches, size, i);
    assert batches[..i + 1][..i] == batches[..i];
  }

  lemma BatchAdvances(s: Stream, st: State, first: seq<Row>, recordBatch: seq<Row>)
    requires recordBatch != []
    ensures Advance(s, After(s, st, first), recordBatch[|recordBatch| - 1]) == After(s, st, first + recordBatch)
  {
    AfterConcat(s, st, first, recordBatch);
  }
}
