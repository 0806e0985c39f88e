/**
 The two BATCH writers.  A file is the sequence of rows in it, and the writers share the output
 that the rest of the tap writes its messages to.
 */
module Writers {
  import opened Singer

  type BatchSize = n: nat | 0 < n witness 1

  /** Standard output: the messages written so far. */
  class Output {
    var messages: seq<Message>

    constructor ()
      ensures messages == []
    {
      messages := [];
    }

    method Emit(m: Message)
      modifies this
      ensures messages == old(messages) + [m]
    {
      messages := messages + [m];
    }
  }

  /** Appends rows to an open file and closes it as a BATCH message every `batchSize` rows. */
  class BatchWriter {
    const stream: StreamId
    const batchSize: BatchSize
    const output: Output
    var file: Option<seq<Row>>
    var rowCount: nat

    constructor (stream: StreamId, batchSize: BatchSize, output: Output)
      ensures Valid() && Held() == []
      ensures this.stream == stream && this.batchSize == batchSize && this.output == output
    {
      this.stream, this.batchSize, this.output := stream, batchSize, output;
      file, rowCount := None, 0;
    }

    ghost predicate Valid()
      reads this
    {
      && rowCount == |Held()| < batchSize
      && (file.Some? ==> file.value != [])
    }

    /** The rows written since the last BATCH message. */
    function Held(): seq<Row>
      reads this
    {
      if file.Some? then file.value else []
    }

    method Write(row: Row) returns (full: bool)
      requires Valid()
      modifies this, output
      ensures Valid()
      ensures full <==> |old(Held())| + 1 == batchSize
      ensures Held() == if full then [] else old(Held()) + [row]
      ensures output.messages == old(output.messages) +
                                 (if full then [Batch(stream, old(Held()) + [row])] else [])
    {
      if file.None? { file := Some([]); }
      file := Some(file.value + [row]);
      rowCount := rowCount + 1;
      full := rowCount >= batchSize;
      if full { Close(); }
    }

    method Flush()
      requires Valid()
      modifies this, output
      ensures Valid() && Held() == []
      ensures output.messages == old(output.messages) +
                                 (if old(Held()) == [] then [] else [Batch(stream, old(Held()))])
    {
      Close();
    }

    /** The body of `flush`, which `write` also runs, on a file that has just filled up. */
    method Close()
      requires rowCount == |Held()|
      requires file.Some? ==> file.value != []
      modifies this, output
      ensures file == None && rowCount == 0
      ensures output.messages == old(output.messages) +
                                 (if old(Held()) == [] then [] else [Batch(stream, old(Held()))])
    {
      if file.None? {
        return;
      }
      output.Emit(Batch(stream, file.value));
      file, rowCount := None, 0;
    }
  }

  function Flatten(batches: seq<seq<Row>>): seq<Row> {
    if batches == [] then [] else Flatten(batches[..|batches| - 1]) + batches[|batches| - 1]
  }

  lemma FlattenOne(batches: seq<seq<Row>>, batch: seq<Row>)
    ensures Flatten(batches + [batch]) == Flatten(batches) + batch
  {
    assert (batches + [batch])[..|batches|] == batches;
  }

  /** Buffers record batches whole until they hold `batchSize` rows or more. */
  class ArrowBatchWriter {
    const stream: StreamId
    const batchSize: BatchSize
    const output: Output
    var batches: seq<seq<Row>>
    var rowCount: nat

    constructor (stream: StreamId, batchSize: BatchSize, output: Output)
      ensures Valid() && Held() == []
      ensures this.stream == stream && this.batchSize == batchSize && this.output == output
    {
      this.stream, this.batchSize, this.output := stream, batchSize, output;
      batches, rowCount := [], 0;
    }

    ghost predicate Valid()
      reads this
    {
      && rowCount == |Held()| < batchSize
      && (batches != [] ==> Held() != [])
    }

    ghost function Held(): seq<Row>
      reads this
    {
      Flatten(batches)
    }

    method Write(recordBatch: seq<Row>) returns (full: bool)
      requires Valid()
      modifies this, output
      ensures Valid()
      ensures full <==> recordBatch != [] && batchSize <= |old(Held())| + |recordBatch|
      ensures Held() == if full then [] else old(Held()) + recordBatch
      ensures output.messages == old(output.messages) +
                                 (if full then [Batch(stream, old(Held()) + recordBatch)] else [])
    {
      if |recordBatch| == 0 {
        return false;
      }
      FlattenOne(batches, recordBatch);
      batches := batches + [recordBatch];
      rowCount := rowCount + |recordBatch|;
      full := rowCount >= batchSize;
      if full { Close(); }
    }

    method Flush()
      requires Valid()
      modifies this, output
      ensures Valid() && Held() == []
      ensures output.messages == old(output.messages) +
                                 (if old(Held()) == [] then [] else [Batch(stream, old(Held()))])
    {
      Close();
    }

    method Close()
      requires rowCount == |Held()|
      requires batches != [] ==> Held() != []
      modifies this, output
      ensures batches == [] && rowCount == 0
      ensures output.messages == old(output.messages) +
                                 (if old(Held()) == [] then [] else [Batch(stream, old(Held()))])
    {
      if batches == [] {
        return;
      }
      output.Emit(Batch(stream, Flatten(batches)));
      batches, rowCount := [], 0;
    }
  }
}
