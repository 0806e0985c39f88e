/**
 `common.sync_query`: the fetch loop that turns rows into RECORD messages or JSONL files, moves
 the bookmark after each row and writes STATE messages at checkpoints.
 */
module SyncQuery {
  import opened Singer
  import opened Writers
  import opened QuerySpec

  const FETCH_BATCH_SIZE := 1000

  /** A query under way: `rows` is all the server gets to send.  After them the query is over, or
      the connection drops. */
  class Cursor {
    const rows: seq<Row>
    const drops: bool
    var next: nat

    constructor (rows: seq<Row>, drops: bool)
      ensures this.rows == rows && this.drops == drops && next == 0
    {
      this.rows, this.drops, next := rows, drops, 0;
    }

    /** No value stands for the exception of a lost connection. */
    method FetchMany(size: nat) returns (chunk: Option<seq<Row>>)
      requires next <= |rows| && 0 < size
      modifies this
      ensures old(next) <= next <= |rows|
      ensures chunk.Some? ==> chunk.value == rows[old(next)..next] && |chunk.value| <= size
      ensures old(next) < |rows| ==> chunk.Some? && chunk.value != []
      ensures old(next) == |rows| ==> chunk == if drops then None else Some([])
    {
      if next == |rows| && drops {
        return None;
      }
      var end := if next + size <= |rows| then next + size else |rows|;
      chunk := Some(rows[next..end]);
      next := end;
    }
  }

  /** The tap process: its in-memory state and its standard output. */
  class Tap {
    var state: State
    const output: Output

    constructor (state: State, output: Output)
      ensures this.state == state && this.output == output
    {
      this.state, this.output := state, output;
    }

    /** The bookmark update after one row, branch by branch. */
    method AdvanceBookmark(s: Stream, replicationKey: Value, row: Row)
      requires s.replication == Incremental ==> replicationKey == Get(state, s.id, ReplicationKey)
      modifies this
      ensures state == Advance(s, old(state), row)
    {
      if s.replication == FullTable || s.replication == LogBased {
        var maxPk := Get(state, s.id, MaxPk);
        if Truthy(maxPk) {
          state := Write(state, s.id, LastPk, Key(row.pk));
        }
      } else if replicationKey != Null {
        RewriteKeepsState(state, s.id, ReplicationKey);
        state := Write(state, s.id, ReplicationKey, replicationKey);
        state := Write(state, s.id, ReplicationKeyValue, RkValue(row.rk));
      }
    }

    /** One row of the query: write it, move the bookmark past it, then checkpoint if it is due. */
    method SaveRow(s: Stream, replicationKey: Value, version: int, mode: Mode, batchWriter: BatchWriter, row: Row,
                   rowsSaved: nat, ghost st0: State, ghost rows: seq<Row>)
      returns (checkpoint: bool)
      requires 0 < rowsSaved <= |rows| && row == rows[rowsSaved - 1]
      requires replicationKey == Get(state, s.id, ReplicationKey)
      requires state == After(s, st0, rows[..rowsSaved - 1])
      requires WriterFollows(batchWriter, mode, rows, rowsSaved - 1)
      requires batchWriter.stream == s.id && batchWriter.output == output
      modifies this, output, batchWriter
      ensures checkpoint <==> InPeriod(rowsSaved, Period(mode)) == 0
      ensures state == After(s, st0, rows[..rowsSaved])
      ensures WriterFollows(batchWriter, mode, rows, rowsSaved)
      ensures output.messages == old(output.messages) + RowMessages(s, st0, version, mode, rows, rowsSaved)
    {
      hide RowData, After, WriterFollows, InPeriod, Advance;
      checkpoint := WriteRow(s, version, mode, batchWriter, row, rowsSaved, rows);
      AfterStep(s, st0, rows, rowsSaved - 1);
      AdvanceBookmark(s, replicationKey, row);
      if checkpoint {
        output.Emit(StateMessage(state));
      }
    }

    method WriteRow(s: Stream, version: int, mode: Mode, batchWriter: BatchWriter, row: Row, rowsSaved: nat,
                    ghost rows: seq<Row>)
      returns (checkpoint: bool)
      requires 0 < rowsSaved <= |rows| && row == rows[rowsSaved - 1]
      requires WriterFollows(batchWriter, mode, rows, rowsSaved - 1)
      requires batchWriter.stream == s.id && batchWriter.output == output
      modifies output, batchWriter
      ensures checkpoint <==> InPeriod(rowsSaved, Period(mode)) == 0
      ensures WriterFollows(batchWriter, mode, rows, rowsSaved)
      ensures output.messages == old(output.messages) + RowData(s, version, mode, rows, rowsSaved)
    {
      if mode.Jsonl? {
        HeldStep(mode, rows, rowsSaved);
        checkpoint := batchWriter.Write(row);
      } else {
        output.Emit(Record(s.id, row, version));
        checkpoint := rowsSaved % STATE_PERIOD == 0;
        PeriodsDivide(rowsSaved, STATE_PERIOD);
      }
    }

    /** The rows of one fetch.  `sent` are the messages of the query so far. */
    method SaveRows(s: Stream, replicationKey: Value, version: int, mode: Mode, batchWriter: BatchWriter,
                    chunk: seq<Row>, start: nat, before: bool, ghost st0: State, ghost rows: seq<Row>,
                    ghost out0: seq<Message>)
      returns (checkpoint: bool)
      requires start + |chunk| <= |rows| && chunk == rows[start..start + |chunk|]
      requires QueryStands(s, replicationKey, st0, version, mode, rows, start, before, batchWriter, out0)
      modifies this, output, batchWriter
      ensures QueryStands(s, replicationKey, st0, version, mode, rows, start + |chunk|, checkpoint, batchWriter, out0)
    {
      hide QueryStands;
      checkpoint := before;
      for i := 0 to |chunk|
        invariant QueryStands(s, replicationKey, st0, version, mode, rows, start + i, checkpoint, batchWriter, out0)
      {
        checkpoint := NextRow(s, replicationKey, version, mode, batchWriter, chunk[i], start + i, checkpoint, st0, rows,
                              out0);
      }
    }

    method NextRow(s: Stream, replicationKey: Value, version: int, mode: Mode, batchWriter: BatchWriter, row: Row,
                   k: nat, ghost before: bool, ghost st0: State, ghost rows: seq<Row>, ghost out0: seq<Message>)
      returns (checkpoint: bool)
      requires k < |rows| && row == rows[k]
      requires QueryStands(s, replicationKey, st0, version, mode, rows, k, before, batchWriter, out0)
      modifies this, output, batchWriter
      ensures QueryStands(s, replicationKey, st0, version, mode, rows, k + 1, checkpoint, batchWriter, out0)
    {
      hide After, RowMessages, Held, WriterFollows;
      ghost var sofar := Progress(s, st0, version, mode, rows, k);
      checkpoint := SaveRow(s, replicationKey, version, mode, batchWriter, row, k + 1, st0, rows);
      Associative(out0, sofar, RowMessages(s, st0, version, mode, rows, k + 1));
      AfterKeepsReplicationKey(s, st0, rows[..k]);
      AfterKeepsReplicationKey(s, st0, rows[..k + 1]);
      assert Progress(s, st0, version, mode, rows, k + 1) == sofar + RowMessages(s, st0, version, mode, rows, k + 1);
    }

    /** The process and its writer after `k` rows of a query that began with `out0` written. */
    ghost predicate QueryStands(s: Stream, replicationKey: Value, st0: State, version: int, mode: Mode, rows: seq<Row>,
                                k: nat, checkpoint: bool, batchWriter: BatchWriter, out0: seq<Message>)
      requires k <= |rows|
      reads this, output, batchWriter
    {
      && Get(state, s.id, ReplicationKey) == replicationKey
      && state == After(s, st0, rows[..k])
      && output.messages == out0 + Progress(s, st0, version, mode, rows, k)
      && WriterFollows(batchWriter, mode, rows, k)
      && batchWriter.stream == s.id && batchWriter.output == output
      && (checkpoint <==> k > 0 && InPeriod(k, Period(mode)) == 0)
    }

    method SyncQuery(s: Stream, cursor: Cursor, version: int, mode: Mode) returns (ok: bool)
      requires cursor.next == 0
      modifies this, output, cursor
      ensures ok == !cursor.drops
      ensures state == After(s, old(state), cursor.rows)
      ensures output.messages == old(output.messages) +
                                 QueryMessages(s, old(state), version, mode, cursor.rows, cursor.drops)
    {
      hide QueryStands, WriterFollows, QueryMessages, Progress, Closing, After, InPeriod;
      ghost var st0, out0, rows := state, output.messages, cursor.rows;
      var replicationKey := Get(state, s.id, ReplicationKey);
      var rowsSaved := 0;
      var batchWriter := new BatchWriter(s.id, match mode case Records => 1 case Jsonl(size) => size, output);
      var checkpoint := false;
      QueryStandsAtTheStart(s, version, mode, rows, batchWriter);
      while true
        invariant rowsSaved == cursor.next <= |rows|
        invariant QueryStands(s, replicationKey, st0, version, mode, rows, rowsSaved, checkpoint, batchWriter, out0)
        invariant fresh(batchWriter)
        decreases |rows| - cursor.next
      {
        var chunk := cursor.FetchMany(FETCH_BATCH_SIZE);
        if chunk.None? {
          QueryStandsAtTheEnd(s, replicationKey, st0, version, mode, rows, rowsSaved, checkpoint, batchWriter, out0);
          return false;
        }
        if |chunk.value| == 0 {
          break;
        }
        checkpoint := SaveRows(s, replicationKey, version, mode, batchWriter, chunk.value, rowsSaved, checkpoint, st0,
                               rows, out0);
        rowsSaved := rowsSaved + |chunk.value|;
      }
      QueryStandsAtTheEnd(s, replicationKey, st0, version, mode, rows, rowsSaved, checkpoint, batchWriter, out0);
      FinishQuery(s, st0, mode, rows, batchWriter, checkpoint);
      QueryCloses(s, st0, version, mode, rows, out0);
      ok := true;
    }

    lemma QueryStandsAtTheStart(s: Stream, version: int, mode: Mode, rows: seq<Row>, batchWriter: BatchWriter)
      requires batchWriter.Valid() && batchWriter.Held() == []
      requires batchWriter.stream == s.id && batchWriter.output == output
      requires batchWriter.batchSize == match mode case Records => 1 case Jsonl(size) => size
      ensures QueryStands(s, Get(state, s.id, ReplicationKey), state, version, mode, rows, 0, false, batchWriter,
                          output.messages)
    {
      assert rows[..0] == [] == rows[0..0];
      assert Progress(s, state, version, mode, rows, 0) == [];
      assert output.messages + [] == output.messages;
    }

    lemma QueryStandsAtTheEnd(s: Stream, replicationKey: Value, st0: State, version: int, mode: Mode, rows: seq<Row>,
                              k: nat, checkpoint: bool, batchWriter: BatchWriter, out0: seq<Message>)
      requires k == |rows| && QueryStands(s, replicationKey, st0, version, mode, rows, k, checkpoint, batchWriter, out0)
      ensures state == After(s, st0, rows)
      ensures output.messages == out0 + QueryMessages(s, st0, version, mode, rows, true)
      ensures output.messages == out0 + Progress(s, st0, version, mode, rows, |rows|)
      ensures WriterFollows(batchWriter, mode, rows, |rows|)
      ensures batchWriter.stream == s.id && batchWriter.output == output
      ensures checkpoint <==> rows != [] && InPeriod(|rows|, Period(mode)) == 0
    {
      assert rows[..k] == rows;
    }

    /** After the last row: flush the open file, and checkpoint unless the last row just did. */
    method FinishQuery(s: Stream, ghost st0: State, mode: Mode, ghost rows: seq<Row>, batchWriter: BatchWriter,
                       checkpoint: bool)
      requires state == After(s, st0, rows)
      requires WriterFollows(batchWriter, mode, rows, |rows|)
      requires checkpoint <==> rows != [] && InPeriod(|rows|, Period(mode)) == 0
      requires batchWriter.stream == s.id && batchWriter.output == output
      modifies output, batchWriter
      ensures output.messages == old(output.messages) + Closing(s, st0, mode, rows)
    {
      ClosingShape(s, st0, mode, rows);
      LastFile(batchWriter, mode, rows);
      hide After, Closing, WriterFollows, InPeriod;
      if mode.Jsonl? {
        batchWriter.Flush();
      }
      if !checkpoint {
        output.Emit(StateMessage(state));
      }
    }
  }

  lemma QueryCloses(s: Stream, st: State, version: int, mode: Mode, rows: seq<Row>, out0: seq<Message>)
    ensures out0 + Progress(s, st, version, mode, rows, |rows|) + Closing(s, st, mode, rows)
         == out0 + QueryMessages(s, st, version, mode, rows, false)
  {
    Associative(out0, Progress(s, st, version, mode, rows, |rows|), Closing(s, st, mode, rows));
  }

  lemma RewriteKeepsState(st: State, id: StreamId, f: Field)
    requires Get(st, id, f) != Null
    ensures Write(st, id, f, Get(st, id, f)) == st
  {
    var b := BookmarkOf(st, id);
    assert b[f := b[f]] == b;
    assert st.bookmarks[id := b] == st.bookmarks;
  }

  /** The open file holds the rows since the last full one. */
  ghost predicate WriterFollows(w: BatchWriter, mode: Mode, rows: seq<Row>, k: nat)
    requires k <= |rows|
    reads w
  {
    && w.Valid()
    && (mode.Jsonl? ==> w.batchSize == mode.size && w.Held() == rows[k - Held(mode, k)..k])
  }

  lemma LastFile(w: BatchWriter, mode: Mode, rows: seq<Row>)
    requires WriterFollows(w, mode, rows, |rows|)
    ensures w.Valid()
    ensures mode.Jsonl? ==>
              w.Held() == rows[|rows| - Held(mode, |rows|)..] && |w.Held()| == InPeriod(|rows|, Period(mode))
    ensures mode.Records? ==> Held(mode, |rows|) == 0
  {
    assert rows[|rows| - Held(mode, |rows|)..|rows|] == rows[|rows| - Held(mode, |rows|)..];
  }

  lemma AfterKeepsReplicationKey(s: Stream, st: State, rows: seq<Row>)
    ensures Get(After(s, st, rows), s.id, ReplicationKey) == Get(st, s.id, ReplicationKey)
  {
  }

  /** A row either joins the open file or completes it. */
  lemma HeldStep(mode: Mode, rows: seq<Row>, k: nat)
    requires 0 < k <= |rows| && mode.Jsonl?
    ensures var held := Held(mode, k - 1);
            var open := rows[k - 1 - held..k - 1] + [rows[k - 1]];
            && (held + 1 == mode.size <==> Held(mode, k) == 0)
            && (Held(mode, k) == 0 ==> open == RowsOf(mode, rows, k))
            && (Held(mode, k) != 0 ==> open == rows[k - Held(mode, k)..k])
  {
    var held := Held(mode, k - 1);
    assert Held(mode, k) == if held + 1 == mode.size then 0 else held + 1;
    SliceGrows(rows, k - 1 - held, k);
  }

  lemma SliceGrows(rows: seq<Row>, from: nat, k: nat)
    requires from < k <= |rows|
    ensures rows[from..k - 1] + [rows[k - 1]] == rows[from..k]
  {
  }
}
