/**
 What one query of `sync_query` writes, and what that promises.

 A query delivers `rows`, in order, and then ends or loses its connection.  `Progress` lists the
 messages up to a row count, `Closing` those of a query that came to its end.
 */
module QuerySpec {
  import opened Singer
  import opened Writers

  datatype Replication = FullTable | LogBased | Incremental

  datatype Stream = Stream(id: StreamId, replication: Replication)

  /** One RECORD message a row, or JSONL files of `size` rows. */
  datatype Mode = Records | Jsonl(size: BatchSize)

  const STATE_PERIOD := 1000

  /** Rows from one checkpoint to the next. */
  function Period(mode: Mode): BatchSize {
    match mode
    case Records => STATE_PERIOD
    case Jsonl(size) => size
  }

  function RkValue(rk: Option<int>): Value {
    match rk
    case None => Null
    case Some(n) => Num(n)
  }

  /** The bookmark update that follows the row. */
  function Advance(s: Stream, st: State, row: Row): State {
    if s.replication == Incremental then
      if Get(st, s.id, ReplicationKey) == Null then st
      else Write(st, s.id, ReplicationKeyValue, RkValue(row.rk))
    else
      if Truthy(Get(st, s.id, MaxPk)) then Write(st, s.id, LastPk, Key(row.pk)) else st
  }

  /** The state once `rows` went out: only the last of them shows. */
  function After(s: Stream, st: State, rows: seq<Row>): State {
    if rows == [] then st else Advance(s, st, rows[|rows| - 1])
  }

  lemma AdvanceOverwrites(s: Stream, st: State, first: Row, second: Row)
    ensures Advance(s, Advance(s, st, first), second) == Advance(s, st, second)
  {
    var b := BookmarkOf(st, s.id);
    var incremental := s.replication == Incremental;
    var f := if incremental then ReplicationKeyValue else LastPk;
    var v := if incremental then RkValue(first.rk) else Key(first.pk);
    var w := if incremental then RkValue(second.rk) else Key(second.pk);
    assert b[f := v][f := w] == b[f := w];
    assert st.bookmarks[s.id := b[f := v]][s.id := b[f := w]] == st.bookmarks[s.id := b[f := w]];
  }

  lemma AfterStep(s: Stream, st: State, rows: seq<Row>, k: nat)
    requires k < |rows|
    ensures Advance(s, After(s, st, rows[..k]), rows[k]) == After(s, st, rows[..k + 1])
  {
    if k > 0 { AdvanceOverwrites(s, st, rows[k - 1], rows[k]); }
  }

  lemma AfterConcat(s: Stream, st: State, first: seq<Row>, second: seq<Row>)
    ensures After(s, After(s, st, first), second) == After(s, st, first + second)
  {
    if second == [] {
      assert first + second == first;
    } else if first != [] {
      AdvanceOverwrites(s, st, first[|first| - 1], second[|second| - 1]);
    }
  }

  /** The bookmark moves only where there is something to move: an INCREMENTAL one with a replication key, any other
      with a maximum. */
  lemma WithoutItsFieldTheBookmarkStays(s: Stream, st: State, rows: seq<Row>)
    requires if s.replication == Incremental then Get(st, s.id, ReplicationKey) == Null
             else !Truthy(Get(st, s.id, MaxPk))
    ensures After(s, st, rows) == st
  {
  }

  /** The field that moves, and no other. */
  lemma OneFieldMoves(s: Stream, st: State, rows: seq<Row>, id: StreamId, f: Field)
    requires id != s.id || f != (if s.replication == Incremental then ReplicationKeyValue else LastPk)
    ensures Get(After(s, st, rows), id, f) == Get(st, id, f)
  {
  }

  /** How many of the first `k` rows came after the last full period: the counter that a writer
      resets whenever it is full. */
  function InPeriod(k: nat, period: BatchSize): (count: nat)
    ensures count < period && count <= k
  {
    if k == 0 then 0 else
      var count := InPeriod(k - 1, period) + 1;
      if count == period then 0 else count
  }

  function FullPeriods(k: nat, period: BatchSize): nat {
    if k == 0 then 0 else FullPeriods(k - 1, period) + (if InPeriod(k, period) == 0 then 1 else 0)
  }

  lemma {:induction false} PeriodsDivide(k: nat, period: BatchSize)
    ensures InPeriod(k, period) == k % period && FullPeriods(k, period) == k / period
  {
    if k > 0 {
      PeriodsDivide(k - 1, period);
      NextRemainder(k - 1, period);
    } else {
      Divides(0, period, 0, 0);
    }
  }

  /** Rows of the first `k` that are still in an open file. */
  function Held(mode: Mode, k: nat): (held: nat)
    ensures held <= k && held < Period(mode)
  {
    match mode
    case Records => 0
    case Jsonl(size) => InPeriod(k, size)
  }

  /** What row `k`, counted from one, sends out. */
  function RowData(s: Stream, version: int, mode: Mode, rows: seq<Row>, k: nat): seq<Message>
    requires 0 < k <= |rows|
  {
    match mode
    case Records => [Record(s.id, rows[k - 1], version)]
    case Jsonl(size) => if InPeriod(k, size) == 0 then [Batch(s.id, RowsOf(mode, rows, k))] else []
  }

  /** The messages of row `k`: its data, then a STATE if a period is over. */
  function RowMessages(s: Stream, st: State, version: int, mode: Mode, rows: seq<Row>, k: nat): seq<Message>
    requires 0 < k <= |rows|
  {
    RowData(s, version, mode, rows, k)
    + (if InPeriod(k, Period(mode)) == 0 then [StateMessage(After(s, st, rows[..k]))] else [])
  }

  /** The messages of the first `k` rows. */
  function Progress(s: Stream, st: State, version: int, mode: Mode, rows: seq<Row>, k: nat): seq<Message>
    requires k <= |rows|
    decreases k
  {
    if k == 0 then []
    else Progress(s, st, version, mode, rows, k - 1) + RowMessages(s, st, version, mode, rows, k)
  }

  /** What follows the last row: the open file, then a STATE unless the last row just had one. */
  function Closing(s: Stream, st: State, mode: Mode, rows: seq<Row>): seq<Message> {
    (if Held(mode, |rows|) == 0 then [] else [Batch(s.id, rows[|rows| - Held(mode, |rows|)..])])
    + (if |rows| == 0 || InPeriod(|rows|, Period(mode)) != 0 then [StateMessage(After(s, st, rows))] else [])
  }

  function QueryMessages(s: Stream, st: State, version: int, mode: Mode, rows: seq<Row>, drops: bool): seq<Message> {
    Progress(s, st, version, mode, rows, |rows|) + (if drops then [] else Closing(s, st, mode, rows))
  }

  lemma BatchThenState(data: Message, state: Message)
    requires !data.StateMessage? && state.StateMessage?
    ensures Delivered([]) == [] && Delivered([state]) == []
    ensures Delivered([data]) == Delivered([data, state]) == Tail([data]) == Rows(data)
    ensures CountStates([]) == CountStates([data]) == 0 && CountStates([state]) == CountStates([data, state]) == 1
    ensures Tail([]) == Tail([data, state]) == []
  {
    OneMore([], data);
    OneMore([], state);
    OneMore([data], state);
    assert [] + [data] == [data] && [] + [state] == [state] && [data] + [state] == [data, state];
  }

  lemma RowDelivers(s: Stream, st: State, version: int, mode: Mode, rows: seq<Row>, k: nat)
    requires 0 < k <= |rows|
    ensures Delivered(RowMessages(s, st, version, mode, rows, k)) == RowsOf(mode, rows, k)
    ensures CountStates(RowMessages(s, st, version, mode, rows, k)) == if InPeriod(k, Period(mode)) == 0 then 1 else 0
    ensures Tail(RowMessages(s, st, version, mode, rows, k))
         == if InPeriod(k, Period(mode)) == 0 then [] else RowsOf(mode, rows, k)
  {
    hide Delivered, CountStates, Tail, After, InPeriod;
    var data := if mode.Records? then Record(s.id, rows[k - 1], version) else Batch(s.id, RowsOf(mode, rows, k));
    var state := StateMessage(After(s, st, rows[..k]));
    BatchThenState(data, state);
    assert RowMessages(s, st, version, mode, rows, k)
        == if InPeriod(k, Period(mode)) == 0 then [data, state] else if mode.Records? then [data] else [];
  }

  /** The rows that one more row sends out. */
  function RowsOf(mode: Mode, rows: seq<Row>, k: nat): seq<Row>
    requires 0 < k <= |rows|
  {
    match mode
    case Records => [rows[k - 1]]
    case Jsonl(size) => if InPeriod(k, size) == 0 then rows[k - size..k] else []
  }

  /** The rows that the first `k` send out. */
  function SentRows(mode: Mode, rows: seq<Row>, k: nat): seq<Row>
    requires k <= |rows|
  {
    if k == 0 then [] else SentRows(mode, rows, k - 1) + RowsOf(mode, rows, k)
  }

  lemma NoProgress(s: Stream, st: State, version: int, mode: Mode, rows: seq<Row>)
    ensures var none := Progress(s, st, version, mode, rows, 0);
            && Delivered(none) == SentRows(mode, rows, 0) && CheckpointsCover(s, st, none)
            && CountStates(none) == FullPeriods(0, Period(mode)) && |Tail(none)| == 0
    ensures InPeriod(0, STATE_PERIOD) == 0
  {
    assert Progress(s, st, version, mode, rows, 0) == [];
  }

  lemma OnePeriodMore(k: nat, period: BatchSize)
    requires 0 < k
    ensures FullPeriods(k, period) == FullPeriods(k - 1, period) + (if InPeriod(k, period) == 0 then 1 else 0)
  {
  }

  lemma {:induction false} ProgressSends(s: Stream, st: State, version: int, mode: Mode, rows: seq<Row>, k: nat)
    requires k <= |rows|
    ensures Delivered(Progress(s, st, version, mode, rows, k)) == SentRows(mode, rows, k)
    decreases k
  {
    hide *;
    if k == 0 {
      NoProgress(s, st, version, mode, rows);
    } else {
      ProgressSends(s, st, version, mode, rows, k - 1);
      StepSends(s, st, version, mode, rows, k);
    }
  }

  lemma StepSends(s: Stream, st: State, version: int, mode: Mode, rows: seq<Row>, k: nat)
    requires 0 < k <= |rows| && Delivered(Progress(s, st, version, mode, rows, k - 1)) == SentRows(mode, rows, k - 1)
    ensures Delivered(Progress(s, st, version, mode, rows, k)) == SentRows(mode, rows, k)
  {
    hide Delivered, InPeriod, RowsOf, RowMessages;
    RowDelivers(s, st, version, mode, rows, k);
    DeliveredConcat(Progress(s, st, version, mode, rows, k - 1), RowMessages(s, st, version, mode, rows, k));
  }

  lemma {:induction false} SentRowsAreAPrefix(mode: Mode, rows: seq<Row>, k: nat)
    requires k <= |rows|
    ensures SentRows(mode, rows, k) == rows[..k - Held(mode, k)]
    decreases k
  {
    if k > 0 {
      SentRowsAreAPrefix(mode, rows, k - 1);
      SentStep(mode, rows, k, SentRows(mode, rows, k - 1));
    }
  }

  lemma SentStep(mode: Mode, rows: seq<Row>, k: nat, before: seq<Row>)
    requires 0 < k <= |rows| && before == rows[..k - 1 - Held(mode, k - 1)]
    ensures before + RowsOf(mode, rows, k) == rows[..k - Held(mode, k)]
  {
    if mode.Jsonl? {
      var h0, h := Held(mode, k - 1), Held(mode, k);
      assert if h == 0 then k - 1 - h0 == k - mode.size else k - 1 - h0 == k - h;
    }
  }

  /** No row is lost, repeated or moved: what is delivered is what was read, short of the rows
      that wait in the open file. */
  lemma ProgressDelivers(s: Stream, st: State, version: int, mode: Mode, rows: seq<Row>, k: nat)
    requires k <= |rows|
    ensures Delivered(Progress(s, st, version, mode, rows, k)) == rows[..k - Held(mode, k)]
  {
    ProgressSends(s, st, version, mode, rows, k);
    SentRowsAreAPrefix(mode, rows, k);
  }

  lemma {:induction false} ProgressCounts(s: Stream, st: State, version: int, mode: Mode, rows: seq<Row>, k: nat)
    requires k <= |rows|
    ensures CountStates(Progress(s, st, version, mode, rows, k)) == FullPeriods(k, Period(mode))
    decreases k
  {
    hide *;
    if k == 0 {
      NoProgress(s, st, version, mode, rows);
    } else {
      ProgressCounts(s, st, version, mode, rows, k - 1);
      StepCounts(s, st, version, mode, rows, k);
      OnePeriodMore(k, Period(mode));
    }
  }

  lemma StepCounts(s: Stream, st: State, version: int, mode: Mode, rows: seq<Row>, k: nat)
    requires 0 < k <= |rows|
    ensures CountStates(Progress(s, st, version, mode, rows, k))
         == CountStates(Progress(s, st, version, mode, rows, k - 1)) + (if InPeriod(k, Period(mode)) == 0 then 1 else 0)
    ensures Tail(Progress(s, st, version, mode, rows, k))
         == if InPeriod(k, Period(mode)) == 0 then []
            else Tail(Progress(s, st, version, mode, rows, k - 1)) + RowsOf(mode, rows, k)
  {
    hide Delivered, InPeriod, RowsOf, RowMessages, CountStates, Tail;
    RowDelivers(s, st, version, mode, rows, k);
    CountConcat(Progress(s, st, version, mode, rows, k - 1), RowMessages(s, st, version, mode, rows, k));
    TailConcat(Progress(s, st, version, mode, rows, k - 1), RowMessages(s, st, version, mode, rows, k));
  }

  lemma {:induction false} ProgressTail(s: Stream, st: State, version: int, mode: Mode, rows: seq<Row>, k: nat)
    requires k <= |rows|
    ensures |Tail(Progress(s, st, version, mode, rows, k))| == if mode == Records then InPeriod(k, STATE_PERIOD) else 0
    decreases k
  {
    hide *;
    if k == 0 {
      NoProgress(s, st, version, mode, rows);
    } else {
      ProgressTail(s, st, version, mode, rows, k - 1);
      StepTail(s, st, version, mode, rows, k);
    }
  }

  lemma StepTail(s: Stream, st: State, version: int, mode: Mode, rows: seq<Row>, k: nat)
    requires 0 < k <= |rows|
    requires |Tail(Progress(s, st, version, mode, rows, k - 1))|
          == if mode == Records then InPeriod(k - 1, STATE_PERIOD) else 0
    ensures |Tail(Progress(s, st, version, mode, rows, k))| == if mode == Records then InPeriod(k, STATE_PERIOD) else 0
  {
    StepCounts(s, st, version, mode, rows, k);
  }

  /** Every STATE speaks of exactly the rows delivered before it: the bookmark in it is the one
      after the last of them, and none of the rows it covers is still in a file. */
  ghost predicate CheckpointsCover(s: Stream, st: State, msgs: seq<Message>) {
    forall m :: 0 <= m < |msgs| ==> CoversAt(s, st, msgs, m)
  }

  predicate CoversAt(s: Stream, st: State, msgs: seq<Message>, m: nat)
    requires m < |msgs|
  {
    msgs[m].StateMessage? ==> msgs[m].state == After(s, st, Delivered(msgs[..m]))
  }

  lemma CheckpointsCoverOne(s: Stream, st: State, msgs: seq<Message>, m: Message)
    requires CheckpointsCover(s, st, msgs)
    requires m.StateMessage? ==> m.state == After(s, st, Delivered(msgs))
    ensures CheckpointsCover(s, st, msgs + [m])
  {
    var all := msgs + [m];
    forall i | 0 <= i < |all| ensures CoversAt(s, st, all, i) {
      if i < |msgs| {
        assert CoversAt(s, st, msgs, i) && all[..i] == msgs[..i];
      } else {
        assert all[..i] == msgs;
      }
    }
  }

  lemma {:induction false} ProgressCheckpoints(s: Stream, st: State, version: int, mode: Mode, rows: seq<Row>, k: nat)
    requires k <= |rows|
    ensures CheckpointsCover(s, st, Progress(s, st, version, mode, rows, k))
    decreases k
  {
    hide *;
    if k == 0 {
      NoProgress(s, st, version, mode, rows);
    } else {
      ProgressCheckpoints(s, st, version, mode, rows, k - 1);
      RowKeepsCheckpoints(s, st, version, mode, rows, k, Progress(s, st, version, mode, rows, k - 1));
    }
  }

  lemma RowKeepsCheckpoints(s: Stream, st: State, version: int, mode: Mode, rows: seq<Row>, k: nat,
                            before: seq<Message>)
    requires 0 < k <= |rows| && before == Progress(s, st, version, mode, rows, k - 1)
    requires CheckpointsCover(s, st, before)
    ensures CheckpointsCover(s, st, Progress(s, st, version, mode, rows, k))
  {
    hide After, CheckpointsCover, Delivered, InPeriod, RowsOf;
    var msgs := RowMessages(s, st, version, mode, rows, k);
    assert Progress(s, st, version, mode, rows, k) == before + msgs;
    RowShape(s, st, version, mode, rows, k);
    ProgressDelivers(s, st, version, mode, rows, k);
    Nothing(rows[..k]);
    CheckpointsCoverStep(s, st, before, msgs, rows[..k]);
  }

  lemma RowShape(s: Stream, st: State, version: int, mode: Mode, rows: seq<Row>, k: nat)
    requires 0 < k <= |rows|
    ensures var msgs := RowMessages(s, st, version, mode, rows, k);
            && |msgs| <= 2 && (|msgs| == 2 ==> !msgs[0].StateMessage?)
            && (|msgs| > 0 && msgs[|msgs| - 1].StateMessage? ==>
                  msgs[|msgs| - 1].state == After(s, st, rows[..k]) && Held(mode, k) == 0)
  {
    hide After, RowsOf;
  }

  /** One row's messages keep the promise: data first, then a STATE that covers it. */
  lemma CheckpointsCoverStep(s: Stream, st: State, before: seq<Message>, msgs: seq<Message>, rows: seq<Row>)
    requires CheckpointsCover(s, st, before)
    requires |msgs| <= 2 && (|msgs| == 2 ==> !msgs[0].StateMessage?)
    requires |msgs| > 0 && msgs[|msgs| - 1].StateMessage? ==>
               msgs[|msgs| - 1].state == After(s, st, rows) && Delivered(before + msgs) == rows
    ensures CheckpointsCover(s, st, before + msgs)
  {
    hide CheckpointsCover, After, Delivered;
    if |msgs| == 0 {
      assert before + msgs == before;
    } else if |msgs| == 1 {
      assert before + msgs == before + [msgs[0]];
      OneMore(before, msgs[0]);
      Nothing(Delivered(before));
      CheckpointsCoverOne(s, st, before, msgs[0]);
    } else {
      CheckpointsCoverOne(s, st, before, msgs[0]);
      assert before + msgs == (before + [msgs[0]]) + [msgs[1]];
      OneMore(before + [msgs[0]], msgs[1]);
      Nothing(Delivered(before + [msgs[0]]));
      CheckpointsCoverOne(s, st, before + [msgs[0]], msgs[1]);
    }
  }

  lemma ClosingShape(s: Stream, st: State, mode: Mode, rows: seq<Row>)
    ensures var held := Held(mode, |rows|);
            var batch := Batch(s.id, rows[|rows| - held..]);
            var state := StateMessage(After(s, st, rows));
            Closing(s, st, mode, rows) == if held != 0 then [batch, state]
                                          else if rows == [] || InPeriod(|rows|, Period(mode)) != 0 then [state] else []
  {
  }

  lemma ClosingDelivers(s: Stream, st: State, mode: Mode, rows: seq<Row>)
    ensures Delivered(Closing(s, st, mode, rows)) == rows[|rows| - Held(mode, |rows|)..]
    ensures CountStates(Closing(s, st, mode, rows))
         == if rows == [] || InPeriod(|rows|, Period(mode)) != 0 then 1 else 0
  {
    ClosingShape(s, st, mode, rows);
    BatchThenState(Batch(s.id, rows[|rows| - Held(mode, |rows|)..]), StateMessage(After(s, st, rows)));
  }

  /** A query that came to its end delivered every row, and each of its STATE messages covers
      exactly the rows before it. */
  lemma QueryDeliversAll(s: Stream, st: State, version: int, mode: Mode, rows: seq<Row>)
    ensures var msgs := QueryMessages(s, st, version, mode, rows, false);
            && Delivered(msgs) == rows
            && CheckpointsCover(s, st, msgs)
  {
    hide After, CheckpointsCover, Delivered, InPeriod, Progress, Closing;
    var n := |rows|;
    var before, msgs := Progress(s, st, version, mode, rows, n), Closing(s, st, mode, rows);
    ProgressDelivers(s, st, version, mode, rows, n);
    ProgressCheckpoints(s, st, version, mode, rows, n);
    ClosingDelivers(s, st, mode, rows);
    DeliveredConcat(before, msgs);
    Rejoined(rows, n - Held(mode, n));
    ClosingShape(s, st, mode, rows);
    CheckpointsCoverStep(s, st, before, msgs, rows);
  }

  lemma Rejoined(rows: seq<Row>, cut: nat)
    requires cut <= |rows|
    ensures rows[..cut] + rows[cut..] == rows
  {
  }

  /** The last message is a STATE, and it carries the final state. */
  lemma QueryEndsWithState(s: Stream, st: State, version: int, mode: Mode, rows: seq<Row>)
    ensures var msgs := QueryMessages(s, st, version, mode, rows, false);
            msgs != [] && msgs[|msgs| - 1] == StateMessage(After(s, st, rows))
  {
    ClosingShape(s, st, mode, rows);
    Rejoined(rows, |rows|);
  }

  /** The STATE messages number the rows divided by the period, rounded up, and at least one: a
      boundary on the last row adds no second one. */
  lemma QueryCountsItsStates(s: Stream, st: State, version: int, mode: Mode, rows: seq<Row>)
    ensures CountStates(QueryMessages(s, st, version, mode, rows, false))
         == if rows == [] then 1 else (|rows| + Period(mode) - 1) / Period(mode)
  {
    ProgressCounts(s, st, version, mode, rows, |rows|);
    ClosingDelivers(s, st, mode, rows);
    CountConcat(Progress(s, st, version, mode, rows, |rows|), Closing(s, st, mode, rows));
    CountRoundsUp(|rows|, Period(mode));
    PeriodsDivide(|rows|, Period(mode));
  }

  /** One RECORD message for each row, and a STATE for each thousand begun. */
  lemma RecordsAndStates(s: Stream, st: State, version: int, rows: seq<Row>)
    ensures var msgs := QueryMessages(s, st, version, Records, rows, false);
            && CountStates(msgs) == (if rows == [] then 1 else (|rows| + 999) / 1000)
            && |Delivered(msgs)| == |rows|
  {
    hide QueryMessages;
    QueryCountsItsStates(s, st, version, Records, rows);
    QueryDeliversAll(s, st, version, Records, rows);
  }

  /** Euclid for one more row. */
  lemma NextRemainder(k: nat, size: BatchSize)
    ensures (k + 1) % size == if k % size + 1 == size then 0 else k % size + 1
    ensures (k + 1) / size == k / size + (if k % size + 1 == size then 1 else 0)
  {
    var q, r := k / size, k % size;
    assert k == q * size + r;
    if r + 1 == size {
      assert k + 1 == (q + 1) * size;
      Divides(k + 1, size, q + 1, 0);
    } else {
      Divides(k + 1, size, q, r + 1);
    }
  }

  lemma Divides(m: nat, d: nat, quotient: nat, rest: nat)
    requires d > 0 && m == d * quotient + rest && rest < d
    ensures m / d == quotient && m % d == rest
  {
    var k: int := m / d - quotient;
    assert m == d * (m / d) + m % d;
    var spread: int := d * k;
    assert spread == rest - m % d;
    assert 0 - d < spread && spread < d;
  }

  lemma CountRoundsUp(n: nat, p: BatchSize)
    ensures n > 0 ==> (n + p - 1) / p == n / p + (if n % p == 0 then 0 else 1)
    ensures n == 0 ==> n / p == 0
  {
    var q, r := n / p, n % p;
    assert n == p * q + r;
    if n == 0 { Divides(0, p, 0, 0); }
    if r == 0 {
      Divides(n + p - 1, p, q, p - 1);
    } else {
      assert n + p - 1 == p * (q + 1) + (r - 1);
      Divides(n + p - 1, p, q + 1, r - 1);
    }
  }

  /** In RECORD mode at most one period of rows follows the last STATE, wherever the process dies. */
  lemma {:induction false} ProgressRepeats(s: Stream, st: State, version: int, rows: seq<Row>, k: nat, cut: nat)
    requires k <= |rows| && cut <= |Progress(s, st, version, Records, rows, k)|
    ensures |Tail(Progress(s, st, version, Records, rows, k)[..cut])| <= STATE_PERIOD
    decreases k
  {
    var all := Progress(s, st, version, Records, rows, k);
    if cut == |all| {
      ProgressTail(s, st, version, Records, rows, k);
      assert all[..cut] == all;
    } else if cut <= |Progress(s, st, version, Records, rows, k - 1)| {
      ProgressRepeats(s, st, version, rows, k - 1, cut);
      assert all[..cut] == Progress(s, st, version, Records, rows, k - 1)[..cut];
    } else {
      RowCutShort(s, st, version, rows, k);
      assert all[..cut] == Progress(s, st, version, Records, rows, k - 1) + [Record(s.id, rows[k - 1], version)];
    }
  }

  /** The process dies between a record and the STATE that is due after it. */
  lemma RowCutShort(s: Stream, st: State, version: int, rows: seq<Row>, k: nat)
    requires 0 < k <= |rows|
    ensures var before := Progress(s, st, version, Records, rows, k - 1);
            |Tail(before + [Record(s.id, rows[k - 1], version)])| <= STATE_PERIOD
  {
    hide Tail, Progress;
    ProgressTail(s, st, version, Records, rows, k - 1);
    OneMore(Progress(s, st, version, Records, rows, k - 1), Record(s.id, rows[k - 1], version));
  }

  /** The stream's rows go out in the mode, its records and announcements carry the version, and
      nothing else goes out but STATE messages. */
  ghost predicate OfVersion(id: StreamId, version: int, mode: Mode, msgs: seq<Message>) {
    forall m :: m in msgs ==> MessageOf(id, version, mode, m)
  }

  predicate MessageOf(id: StreamId, version: int, mode: Mode, m: Message) {
    match m
    case Record(stream, _, v) => stream == id && v == version && mode.Records?
    case Batch(stream, _) => stream == id && mode.Jsonl?
    case ActivateVersion(stream, v) => stream == id && v == version
    case StateMessage(_) => true
    case _ => false
  }

  lemma {:induction false} ProgressIsOfVersion(s: Stream, st: State, version: int, mode: Mode, rows: seq<Row>, k: nat)
    requires k <= |rows|
    ensures OfVersion(s.id, version, mode, Progress(s, st, version, mode, rows, k))
    decreases k
  {
    if k > 0 {
      ProgressIsOfVersion(s, st, version, mode, rows, k - 1);
      assert OfVersion(s.id, version, mode, RowMessages(s, st, version, mode, rows, k));
    }
  }

  lemma QueryIsOfVersion(s: Stream, st: State, version: int, mode: Mode, rows: seq<Row>, drops: bool)
    ensures OfVersion(s.id, version, mode, QueryMessages(s, st, version, mode, rows, drops))
  {
    ClosingShape(s, st, mode, rows);
    assert OfVersion(s.id, version, mode, Closing(s, st, mode, rows)) && OfVersion(s.id, version, mode, []);
    ProgressIsOfVersion(s, st, version, mode, rows, |rows|);
    var progress := Progress(s, st, version, mode, rows, |rows|);
    var closing := if drops then [] else Closing(s, st, mode, rows);
    assert QueryMessages(s, st, version, mode, rows, drops) == progress + closing;
    hide Progress, Closing, QueryMessages, MessageOf;
  }

  /** A file of the size, and one that is not full. */
  predicate FullFile(size: BatchSize, m: Message) {
    m.Batch? ==> |m.rows| == size
  }

  predicate ShortFile(size: BatchSize, m: Message) {
    m.Batch? && 0 < |m.rows| < size
  }

  lemma {:induction false} ProgressFilesAreFull(s: Stream, st: State, version: int, size: BatchSize, rows: seq<Row>,
                                                k: nat)
    requires k <= |rows|
    ensures forall m :: m in Progress(s, st, version, Jsonl(size), rows, k) ==> FullFile(size, m)
    decreases k
  {
    hide After, InPeriod, FullFile;
    if k > 0 {
      ProgressFilesAreFull(s, st, version, size, rows, k - 1);
      var more := RowMessages(s, st, version, Jsonl(size), rows, k);
      RowFileIsFull(s, st, version, size, rows, k);
      assert Progress(s, st, version, Jsonl(size), rows, k)
             == Progress(s, st, version, Jsonl(size), rows, k - 1) + more;
    }
  }

  lemma RowFileIsFull(s: Stream, st: State, version: int, size: BatchSize, rows: seq<Row>, k: nat)
    requires 0 < k <= |rows|
    ensures forall m :: m in RowMessages(s, st, version, Jsonl(size), rows, k) ==> FullFile(size, m)
  {
    hide After;
    assert InPeriod(k, size) == 0 ==> InPeriod(k - 1, size) + 1 == size;
  }

  /** Every file of a query holds exactly `size` rows, but for a shorter last one that is not empty. */
  lemma FilesAreFullButTheLast(s: Stream, st: State, version: int, size: BatchSize, rows: seq<Row>, drops: bool, i: nat)
    requires i < |QueryMessages(s, st, version, Jsonl(size), rows, drops)|
    ensures var msgs := QueryMessages(s, st, version, Jsonl(size), rows, drops);
            || FullFile(size, msgs[i])
            || (!drops && ShortFile(size, msgs[i]) && forall j :: i < j < |msgs| ==> !msgs[j].Batch?)
  {
    ClosingShape(s, st, Jsonl(size), rows);
    hide After, InPeriod, Progress, Closing;
    var progress := Progress(s, st, version, Jsonl(size), rows, |rows|);
    ProgressFilesAreFull(s, st, version, size, rows, |rows|);
    if i < |progress| { assert progress[i] in progress; }
  }
}
