/**
 The keyed scan of `full_table`: which rows a query asks for, how the pinned maximum and the last
 key fetched divide them, and what a run of attempts adds up to.
 */
module FullTableSpec {
  import opened Singer
  import opened QuerySpec

  const BASE_KEYS: set<Field> := {LastPk, MaxPk, Version, InitialFullTableComplete}
  const BINLOG_KEYS: set<Field> := {LogFile, LogPos, Version, Gtid}

  /** `generate_bookmark_keys`. */
  function BookmarkKeys(s: Stream): set<Field> {
    if s.replication == FullTable then BASE_KEYS else BASE_KEYS + BINLOG_KEYS
  }

  /** The table in key order, each key once. */
  ghost predicate Ascending(table: seq<Row>) {
    forall i, j :: 0 <= i < j < |table| ==> table[i].pk < table[j].pk
  }

  /** The range of `generate_pk_clause`.  Both fields hold a dictionary or nothing. */
  predicate InRange(last: Value, max: Value, pk: int) {
    (last.Key? ==> last.pk < pk) && (max.Key? ==> pk <= max.pk)
  }

  function SelectRange(table: seq<Row>, last: Value, max: Value): seq<Row> {
    if table == [] then []
    else (if InRange(last, max, table[0].pk) then [table[0]] else []) + SelectRange(table[1..], last, max)
  }

  /** The state once the maximum is pinned: a maximum that is already there stays. */
  function Pin(s: Stream, auto: bool, table: seq<Row>, st: State): State {
    if !auto || Truthy(Get(st, s.id, MaxPk)) || table == [] then st
    else Write(st, s.id, MaxPk, Key(table[|table| - 1].pk))
  }

  /** The answer to the query of one attempt. */
  function Answer(s: Stream, auto: bool, table: seq<Row>, st: State): seq<Row>
  {
    if auto && Truthy(Get(st, s.id, MaxPk)) then
      SelectRange(table, Get(st, s.id, LastPk), Get(st, s.id, MaxPk))
    else table
  }

  lemma {:induction false} SelectedAreRows(table: seq<Row>, last: Value, max: Value)
    ensures forall r :: r in SelectRange(table, last, max) <==> r in table && InRange(last, max, r.pk)
  {
    if table != [] {
      SelectedAreRows(table[1..], last, max);
      assert table == [table[0]] + table[1..];
    }
  }

  lemma {:induction false} SelectAbove(table: seq<Row>, last: Value, higher: int, max: Value)
    requires last.Key? ==> last.pk <= higher
    requires forall r :: r in table ==> higher < r.pk
    ensures SelectRange(table, last, max) == SelectRange(table, Key(higher), max)
  {
    if table != [] {
      SelectAbove(table[1..], last, higher, max);
      assert table[0] in table;
    }
  }

  lemma SomethingSelected(table: seq<Row>, last: Value, max: Value)
    requires 0 < |SelectRange(table, last, max)|
    ensures table != []
  {
  }

  lemma SelectStep(table: seq<Row>, last: Value, max: Value)
    requires table != []
    ensures SelectRange(table, last, max)
         == (if InRange(last, max, table[0].pk) then [table[0]] else []) + SelectRange(table[1..], last, max)
  {
  }

  /** A lower bound at a later row of the table passes over its first row. */
  lemma SelectSkipsFirst(table: seq<Row>, last: Value, max: Value, r: Row)
    requires table != [] && Ascending(table) && r in SelectRange(table[1..], last, max)
    ensures SelectRange(table, Key(r.pk), max) == SelectRange(table[1..], Key(r.pk), max)
  {
    SelectedAreRows(table[1..], last, max);
    assert table[0].pk < r.pk;
  }

  /** Moving the lower bound to a row of the answer leaves exactly the rows after it. */
  lemma {:induction false} SelectResumes(table: seq<Row>, last: Value, max: Value, n: nat)
    requires Ascending(table)
    requires 0 < n <= |SelectRange(table, last, max)|
    ensures var rows := SelectRange(table, last, max);
            SelectRange(table, Key(rows[n - 1].pk), max) == rows[n..]
    decreases |table|
  {
    hide SelectRange, InRange;
    var rows := SelectRange(table, last, max);
    SomethingSelected(table, last, max);
    var rest := SelectRange(table[1..], last, max);
    SelectStep(table, last, max);
    var first := InRange(last, max, table[0].pk);
    if first && n == 1 {
      assert rows[1..] == rest;
      SelectFirst(table, last, max);
    } else {
      var m := if first then n - 1 else n;
      SelectResumes(table[1..], last, max, m);
      SelectSkipsFirst(table, last, max, rest[m - 1]);
      assert rows[n - 1] == rest[m - 1] && rows[n..] == rest[m..];
    }
  }

  /** From the first row of the table, the others. */
  lemma SelectFirst(table: seq<Row>, last: Value, max: Value)
    requires table != [] && Ascending(table) && InRange(last, max, table[0].pk)
    ensures SelectRange(table, Key(table[0].pk), max) == SelectRange(table[1..], last, max)
  {
    SelectAbove(table[1..], last, table[0].pk, max);
  }

  /** After the first `n` rows of an answer, the next query asks for exactly the others. */
  lemma AnswerResumes(s: Stream, table: seq<Row>, st: State, n: nat)
    requires Ascending(table) && s.replication != Incremental
    requires table == [] || Truthy(Get(st, s.id, MaxPk))
    requires n <= |Answer(s, true, table, st)|
    ensures var rows := Answer(s, true, table, st);
            var st' := After(s, st, rows[..n]);
            && Pin(s, true, table, st') == st'
            && Answer(s, true, table, st') == rows[n..]
  {
    var rows := Answer(s, true, table, st);
    if n > 0 {
      assert rows[..n][n - 1] == rows[n - 1];
      if Truthy(Get(st, s.id, MaxPk)) { SelectResumes(table, Get(st, s.id, LastPk), Get(st, s.id, MaxPk), n); }
    }
  }

  // ----- what several attempts add up to -----

  /** How an attempt ends: it succeeds, it gets no connection, or it loses it after some rows. */
  datatype Fault = NoFault | AtConnect | AfterRows(n: nat)

  /** Of `left` rows still to read, those the attempt reads. */
  function Served(fault: Fault, left: nat): (n: nat)
    ensures n <= left
  {
    match fault
    case NoFault => left
    case AtConnect => 0
    case AfterRows(n) => if n < left then n else left
  }

  /** Rows read before attempt `a`. */
  function ReadBefore(faults: seq<Fault>, total: nat, a: nat): (n: nat)
    requires a <= |faults|
    ensures n <= total
  {
    if a == 0 then 0 else
      var read := ReadBefore(faults, total, a - 1);
      read + Served(faults[a - 1], total - read)
  }

  /** Rows that an attempt loses: those in the file that is open as it fails. */
  function LostBy(mode: Mode, fault: Fault, n: nat): nat {
    if fault == NoFault then 0 else Held(mode, n)
  }

  /** Rows that a failed attempt before `a` left in an open file. */
  function LostBefore(mode: Mode, faults: seq<Fault>, total: nat, a: nat): nat
    requires a <= |faults|
  {
    if a == 0 then 0 else
      LostBefore(mode, faults, total, a - 1)
      + LostBy(mode, faults[a - 1], Served(faults[a - 1], total - ReadBefore(faults, total, a - 1)))
  }

  /** RECORD mode leaves nothing behind. */
  lemma {:induction false} RecordsLoseNothing(faults: seq<Fault>, total: nat, a: nat)
    requires a <= |faults|
    ensures LostBefore(Records, faults, total, a) == 0
  {
    if a > 0 { RecordsLoseNothing(faults, total, a - 1); }
  }

  /** The messages so far account for the first `read` rows of `want`, `lost` of which are gone. */
  ghost predicate Accounts(s: Stream, st: State, want: seq<Row>, msgs: seq<Message>, read: nat, lost: nat) {
    && read <= |want| && |Delivered(msgs)| + lost == read
    && (lost == 0 ==> Delivered(msgs) == want[..read] && CheckpointsCover(s, st, msgs))
  }

  lemma CoverConcat(s: Stream, st: State, a: seq<Message>, b: seq<Message>)
    requires CheckpointsCover(s, st, a) && CheckpointsCover(s, After(s, st, Delivered(a)), b)
    ensures CheckpointsCover(s, st, a + b)
  {
    forall m | 0 <= m < |a + b| ensures CoversAt(s, st, a + b, m) {
      if m < |a| {
        assert CoversAt(s, st, a, m) && (a + b)[..m] == a[..m];
      } else {
        assert CoversAt(s, After(s, st, Delivered(a)), b, m - |a|);
        assert (a + b)[..m] == a + b[..m - |a|];
        DeliveredConcat(a, b[..m - |a|]);
        AfterConcat(s, st, Delivered(a), Delivered(b[..m - |a|]));
      }
    }
  }

  /** A query that may drop: what it delivers and how its checkpoints read. */
  lemma QueryDelivers(s: Stream, st: State, version: int, mode: Mode, rows: seq<Row>, drops: bool)
    ensures var msgs := QueryMessages(s, st, version, mode, rows, drops);
            && Delivered(msgs) == rows[..|rows| - (if drops then Held(mode, |rows|) else 0)]
            && CheckpointsCover(s, st, msgs)
  {
    hide Progress, Closing, Delivered, CheckpointsCover, InPeriod;
    var none: seq<Message> := [];
    ProgressDelivers(s, st, version, mode, rows, |rows|);
    ProgressCheckpoints(s, st, version, mode, rows, |rows|);
    QueryDeliversAll(s, st, version, mode, rows);
    assert Progress(s, st, version, mode, rows, |rows|) + none == Progress(s, st, version, mode, rows, |rows|);
    Rejoined(rows, |rows|);
  }

  lemma AccountNothing(s: Stream, st: State, want: seq<Row>, msgs: seq<Message>, more: seq<Message>, read: nat,
                       lost: nat)
    requires Accounts(s, st, want, msgs, read, lost) && more == []
    ensures Accounts(s, st, want, msgs + more, read, lost)
  {
    assert msgs + more == msgs;
  }

  lemma AccountQuery(s: Stream, st: State, want: seq<Row>, version: int, mode: Mode, fault: Fault, msgs: seq<Message>,
                     more: seq<Message>, read: nat, lost: nat, n: nat)
    requires Accounts(s, st, want, msgs, read, lost) && read + n <= |want|
    requires more == QueryMessages(s, After(s, st, want[..read]), version, mode, want[read..read + n], fault != NoFault)
    ensures Accounts(s, st, want, msgs + more, read + n, lost + LostBy(mode, fault, n))
  {
    hide After, Delivered, CheckpointsCover, QueryMessages, InPeriod;
    var rows := want[read..read + n];
    QueryDelivers(s, After(s, st, want[..read]), version, mode, rows, fault != NoFault);
    DeliveredConcat(msgs, more);
    if lost + LostBy(mode, fault, n) == 0 {
      Rejoined(rows, n);
      AccountAll(s, st, want, msgs, more, read, n);
    }
  }

  lemma AccountAll(s: Stream, st: State, want: seq<Row>, msgs: seq<Message>, more: seq<Message>, read: nat, n: nat)
    requires read + n <= |want| && Delivered(msgs) == want[..read] && CheckpointsCover(s, st, msgs)
    requires Delivered(more) == want[read..read + n] && CheckpointsCover(s, After(s, st, want[..read]), more)
    ensures Delivered(msgs + more) == want[..read + n] && CheckpointsCover(s, st, msgs + more)
  {
    hide After, Delivered, CheckpointsCover;
    CoverConcat(s, st, msgs, more);
    DeliveredConcat(msgs, more);
  }

  lemma AccountSilent(s: Stream, st: State, want: seq<Row>, msgs: seq<Message>, read: nat, lost: nat, m: Message)
    requires Accounts(s, st, want, msgs, read, lost) && m.ActivateVersion?
    ensures Accounts(s, st, want, msgs + [m], read, lost)
  {
    OneMore(msgs, m);
    if lost == 0 { CheckpointsCoverOne(s, st, msgs, m); }
  }

  /** Wherever the messages are cut, at most `bound` rows follow the last STATE. */
  ghost predicate TailsWithin(msgs: seq<Message>, bound: nat) {
    forall cut :: 0 <= cut <= |msgs| ==> TailWithin(msgs, cut, bound)
  }

  predicate TailWithin(msgs: seq<Message>, cut: nat, bound: nat)
    requires cut <= |msgs|
  {
    |Tail(msgs[..cut])| <= bound
  }

  /** How many messages there are up to the last STATE, itself included. */
  function LastState(msgs: seq<Message>): (p: nat)
    ensures p <= |msgs|
  {
    if msgs == [] then 0
    else if msgs[|msgs| - 1].StateMessage? then |msgs| else LastState(msgs[..|msgs| - 1])
  }

  /** How many of the ends lie after the one place and before the other. */
  function EndsBetween(ends: seq<nat>, after: nat, before: nat): nat {
    if ends == [] then 0
    else EndsBetween(ends[..|ends| - 1], after, before) + (if after < ends[|ends| - 1] < before then 1 else 0)
  }

  /** What a process repeats that dies at the cut: 999 rows for each attempt that failed since the
      last STATE, and 1000 for the one that was under way. */
  predicate CutWithin(msgs: seq<Message>, ends: seq<nat>, cut: nat)
    requires cut <= |msgs|
  {
    |Tail(msgs[..cut])| <= EndsBetween(ends, LastState(msgs[..cut]), cut) * (STATE_PERIOD - 1) + STATE_PERIOD
  }

  /** `ends` says after how many messages each failed attempt ended.  The bound holds wherever the
      messages are cut; at the end, 999 rows for each attempt that failed since the last STATE. */
  ghost predicate RepeatsBounded(msgs: seq<Message>, ends: seq<nat>) {
    && (forall i :: 0 <= i < |ends| ==> ends[i] <= |msgs|)
    && |Tail(msgs)| <= EndsBetween(ends, LastState(msgs), |msgs| + 1) * (STATE_PERIOD - 1)
    && forall cut :: 0 <= cut <= |msgs| ==> CutWithin(msgs, ends, cut)
  }

  lemma LastStateOne(msgs: seq<Message>, m: Message)
    ensures LastState(msgs + [m]) == if m.StateMessage? then |msgs| + 1 else LastState(msgs)
  {
    assert (msgs + [m])[..|msgs|] == msgs;
  }

  lemma {:induction false} LastStateConcat(a: seq<Message>, b: seq<Message>)
    ensures LastState(a + b) == if CountStates(b) == 0 then LastState(a) else |a| + LastState(b)
    decreases |b|
  {
    if b == [] {
      assert a + b == a;
    } else {
      var c, m := b[..|b| - 1], b[|b| - 1];
      assert a + b == (a + c) + [m] && b == c + [m];
      LastStateConcat(a, c);
      OneMore(c, m);
      LastStateOne(a + c, m);
      LastStateOne(c, m);
    }
  }

  lemma EndsOne(ends: seq<nat>, e: nat, after: nat, before: nat)
    ensures EndsBetween(ends + [e], after, before)
         == EndsBetween(ends, after, before) + (if after < e < before then 1 else 0)
  {
    assert (ends + [e])[..|ends|] == ends;
  }

  /** An end that is before both places counts for both. */
  lemma {:induction false} EndsAllBefore(ends: seq<nat>, after: nat, before: nat, later: nat)
    requires before <= later && forall i :: 0 <= i < |ends| ==> ends[i] < before
    ensures EndsBetween(ends, after, before) == EndsBetween(ends, after, later)
    decreases |ends|
  {
    if ends != [] {
      EndsAllBefore(ends[..|ends| - 1], after, before, later);
    }
  }

  lemma {:induction false} TailWithoutStates(msgs: seq<Message>)
    requires CountStates(msgs) == 0
    ensures Tail(msgs) == Delivered(msgs)
  {
    if msgs != [] { TailWithoutStates(msgs[..|msgs| - 1]); }
  }

  lemma RepeatsOfQuery(s: Stream, st: State, version: int, rows: seq<Row>, drops: bool)
    ensures var msgs := QueryMessages(s, st, version, Records, rows, drops);
            && |Tail(msgs)| <= (if drops then STATE_PERIOD - 1 else 0)
            && TailsWithin(msgs, STATE_PERIOD)
  {
    hide Progress, Closing, Tail, After, InPeriod;
    var progress := Progress(s, st, version, Records, rows, |rows|);
    var msgs := QueryMessages(s, st, version, Records, rows, drops);
    ProgressTail(s, st, version, Records, rows, |rows|);
    ClosingShape(s, st, Records, rows);
    var state := StateMessage(After(s, st, rows));
    if !drops && msgs != progress { OneMore(progress, state); }
    assert msgs == if drops || Closing(s, st, Records, rows) == [] then progress else progress + [state];
    forall cut | 0 <= cut <= |msgs| ensures TailWithin(msgs, cut, STATE_PERIOD) {
      if cut <= |progress| {
        ProgressRepeats(s, st, version, rows, |rows|, cut);
        assert msgs[..cut] == progress[..cut];
      } else {
        assert msgs[..cut] == msgs;
      }
    }
  }

  /** One more attempt, cut anywhere in its messages. */
  lemma CutInAttempt(a: seq<Message>, b: seq<Message>, ends: seq<nat>, ends': seq<nat>, cut: nat)
    requires RepeatsBounded(a, ends) && TailsWithin(b, STATE_PERIOD) && cut <= |a + b|
    requires ends' == ends || ends' == ends + [|a + b|]
    ensures CutWithin(a + b, ends', cut)
  {
    hide Tail, LastState, EndsBetween, CountStates;
    EndsOne(ends, |a + b|, LastState((a + b)[..cut]), cut);
    if cut <= |a| {
      assert CutWithin(a, ends, cut) && (a + b)[..cut] == a[..cut];
    } else {
      var c := b[..cut - |a|];
      assert (a + b)[..cut] == a + c && TailWithin(b, cut - |a|, STATE_PERIOD);
      TailConcat(a, c);
      LastStateConcat(a, c);
      if CountStates(c) == 0 {
        TailWithoutStates(c);
        EndsAllBefore(ends, LastState(a), |a| + 1, cut);
      }
    }
  }

  lemma RepeatsAppended(a: seq<Message>, b: seq<Message>, ends: seq<nat>, drops: bool)
    requires RepeatsBounded(a, ends)
    requires |Tail(b)| <= (if drops then STATE_PERIOD - 1 else 0)
    requires TailsWithin(b, STATE_PERIOD)
    ensures RepeatsBounded(a + b, if drops then ends + [|a + b|] else ends)
  {
    var ends' := if drops then ends + [|a + b|] else ends;
    forall cut | 0 <= cut <= |a + b| ensures CutWithin(a + b, ends', cut) {
      CutInAttempt(a, b, ends, ends', cut);
    }
    EndOfAttempt(a, b, ends, drops);
  }

  lemma EndOfAttempt(a: seq<Message>, b: seq<Message>, ends: seq<nat>, drops: bool)
    requires forall i :: 0 <= i < |ends| ==> ends[i] <= |a|
    requires |Tail(a)| <= EndsBetween(ends, LastState(a), |a| + 1) * (STATE_PERIOD - 1)
    requires |Tail(b)| <= (if drops then STATE_PERIOD - 1 else 0)
    ensures var ends' := if drops then ends + [|a + b|] else ends;
            |Tail(a + b)| <= EndsBetween(ends', LastState(a + b), |a + b| + 1) * (STATE_PERIOD - 1)
  {
    hide Tail, LastState, EndsBetween, CountStates, Delivered;
    TailConcat(a, b);
    LastStateConcat(a, b);
    EndsOne(ends, |a + b|, LastState(a + b), |a + b| + 1);
    NoTailAtState(b);
    if CountStates(b) == 0 {
      TailWithoutStates(b);
      EndsAllBefore(ends, LastState(a), |a| + 1, |a + b| + 1);
      if b == [] { Nothing(a); }
    }
  }

  /** Rows follow the last STATE only where messages do. */
  lemma {:induction false} NoTailAtState(msgs: seq<Message>)
    ensures Tail(msgs) != [] ==> LastState(msgs) < |msgs|
    ensures msgs == [] ==> Tail(msgs) == [] && LastState(msgs) == 0
  {
  }

  lemma RepeatsNothing(msgs: seq<Message>, more: seq<Message>, ends: seq<nat>)
    requires RepeatsBounded(msgs, ends) && more == []
    ensures RepeatsBounded(msgs + more, ends + [|msgs + more|])
  {
    assert TailWithin(more, 0, STATE_PERIOD);
    RepeatsAppended(msgs, more, ends, true);
  }

  lemma RepeatsSilent(msgs: seq<Message>, ends: seq<nat>, m: Message)
    requires RepeatsBounded(msgs, ends) && m.ActivateVersion?
    ensures RepeatsBounded(msgs + [m], ends)
  {
    OneMore([], m);
    assert [] + [m] == [m] && [m][..0] == [] && [m][..1] == [m];
    RepeatsAppended(msgs, [m], ends, false);
  }

  // ----- what a scan keeps -----

  /** The state without the two fields that only a scan under way needs. */
  function Settled(st: State, id: StreamId): State {
    Clear(Clear(st, id, MaxPk), id, LastPk)
  }

  /** Every STATE keeps the fields of `st` and carries the pinned maximum. */
  ghost predicate KeepsAnchor(s: Stream, st: State, msgs: seq<Message>) {
    forall m :: 0 <= m < |msgs| && msgs[m].StateMessage? ==>
      && Settled(msgs[m].state, s.id) == Settled(st, s.id)
      && Get(msgs[m].state, s.id, MaxPk) == Get(st, s.id, MaxPk)
  }

  lemma ScanKeepsFields(s: Stream, st: State, rows: seq<Row>)
    requires s.replication != Incremental
    ensures Settled(After(s, st, rows), s.id) == Settled(st, s.id)
    ensures Get(After(s, st, rows), s.id, MaxPk) == Get(st, s.id, MaxPk)
  {
    if rows != [] && Truthy(Get(st, s.id, MaxPk)) {
      WriteThenSettle(st, s.id, LastPk, Key(rows[|rows| - 1].pk));
    }
  }

  lemma WriteThenSettle(st: State, id: StreamId, f: Field, v: Value)
    requires f == MaxPk || f == LastPk
    ensures Settled(Write(st, id, f, v), id) == Settled(st, id)
  {
    var b := BookmarkOf(st, id);
    assert b[f := v] - {MaxPk} - {LastPk} == b - {MaxPk} - {LastPk};
    SettledIs(st, id);
    SettledIs(Write(st, id, f, v), id);
    assert st.bookmarks[id := b[f := v]][id := b - {MaxPk} - {LastPk}] == st.bookmarks[id := b - {MaxPk} - {LastPk}];
  }

  lemma SettledIs(st: State, id: StreamId)
    ensures Settled(st, id) == st.(bookmarks := st.bookmarks[id := BookmarkOf(st, id) - {MaxPk} - {LastPk}])
  {
    var b := BookmarkOf(st, id) - {MaxPk};
    assert st.bookmarks[id := b][id := b - {LastPk}] == st.bookmarks[id := b - {LastPk}];
  }

  lemma PinKeepsFields(s: Stream, auto: bool, table: seq<Row>, st: State)
    ensures Settled(Pin(s, auto, table, st), s.id) == Settled(st, s.id)
    ensures Pin(s, auto, table, Pin(s, auto, table, st)) == Pin(s, auto, table, st)
    ensures auto && table != [] ==> Truthy(Get(Pin(s, auto, table, st), s.id, MaxPk))
  {
    if auto && !Truthy(Get(st, s.id, MaxPk)) && table != [] {
      WriteThenSettle(st, s.id, MaxPk, Key(table[|table| - 1].pk));
    }
  }

  lemma AnchorConcat(s: Stream, st: State, a: seq<Message>, b: seq<Message>)
    requires KeepsAnchor(s, st, a) && KeepsAnchor(s, st, b)
    ensures KeepsAnchor(s, st, a + b)
  {
  }

  lemma QueryKeepsAnchor(s: Stream, st: State, version: int, mode: Mode, rows: seq<Row>, drops: bool)
    requires s.replication != Incremental
    ensures KeepsAnchor(s, st, QueryMessages(s, st, version, mode, rows, drops))
  {
    var msgs := QueryMessages(s, st, version, mode, rows, drops);
    QueryDelivers(s, st, version, mode, rows, drops);
    forall m | 0 <= m < |msgs| && msgs[m].StateMessage?
      ensures Settled(msgs[m].state, s.id) == Settled(st, s.id)
      ensures Get(msgs[m].state, s.id, MaxPk) == Get(st, s.id, MaxPk)
    {
      assert CoversAt(s, st, msgs, m);
      ScanKeepsFields(s, st, Delivered(msgs[..m]));
    }
  }

  // ----- one scan over its attempts -----

  /** A scan of a table that does not change, from the state it starts in: `pinned` is the state
      from the first connection on, and `want` the rows to deliver. */
  datatype Scan = Scan(s: Stream, auto: bool, table: seq<Row>, start: State, pinned: State, want: seq<Row>) {

    ghost predicate Valid() {
      && s.replication != Incremental && (auto ==> Ascending(table))
      && this == ScanFrom(s, auto, table, start)
    }

    /** The in-memory state after `read` rows.  Before the first connection nothing is pinned. */
    ghost predicate Reaches(st: State, read: nat) {
      && Settled(st, s.id) == Settled(start, s.id)
      && (st == start || Get(st, s.id, MaxPk) == Get(pinned, s.id, MaxPk))
      && (auto ==> read <= |want| && (st == After(s, pinned, want[..read]) || (st == start && read == 0)))
    }
  }

  function ScanFrom(s: Stream, auto: bool, table: seq<Row>, start: State): Scan {
    var pinned := Pin(s, auto, table, start);
    Scan(s, auto, table, start, pinned, Answer(s, auto, table, pinned))
  }

  // ----- an attempt -----

  function AttemptState(scan: Scan, before: State, fault: Fault): State {
    if fault == AtConnect then before else
      var st := Pin(scan.s, scan.auto, scan.table, before);
      var rows := Answer(scan.s, scan.auto, scan.table, st);
      After(scan.s, st, rows[..Served(fault, |rows|)])
  }

  function AttemptMessages(scan: Scan, version: int, mode: Mode, before: State, fault: Fault): seq<Message> {
    if fault == AtConnect then [] else
      var st := Pin(scan.s, scan.auto, scan.table, before);
      var rows := Answer(scan.s, scan.auto, scan.table, st);
      QueryMessages(scan.s, st, version, mode, rows[..Served(fault, |rows|)], fault != NoFault)
  }

  /** What an attempt leaves behind: its state and its messages. */
  ghost predicate Attempted(scan: Scan, version: int, mode: Mode, before: State, fault: Fault, after: State,
                            msgs: seq<Message>) {
    after == AttemptState(scan, before, fault) && msgs == AttemptMessages(scan, version, mode, before, fault)
  }

  /** What `n` attempts from `st` lead to. */
  function StateAfterAttempts(scan: Scan, st: State, faults: seq<Fault>, n: nat): State
    requires n <= |faults|
  {
    if n == 0 then st else AttemptState(scan, StateAfterAttempts(scan, st, faults, n - 1), faults[n - 1])
  }

  function AttemptsMessages(scan: Scan, version: int, mode: Mode, st: State, faults: seq<Fault>, n: nat): seq<Message>
    requires n <= |faults|
  {
    if n == 0 then []
    else AttemptsMessages(scan, version, mode, st, faults, n - 1)
         + AttemptMessages(scan, version, mode, StateAfterAttempts(scan, st, faults, n - 1), faults[n - 1])
  }

  lemma NextAttemptAdds(scan: Scan, version: int, mode: Mode, st: State, faults: seq<Fault>, n: nat, before: State,
                        sofar: seq<Message>, after: State, msgs: seq<Message>)
    requires n < |faults| && Attempted(scan, version, mode, before, faults[n], after, msgs)
    requires before == StateAfterAttempts(scan, st, faults, n)
             && sofar == AttemptsMessages(scan, version, mode, st, faults, n)
    ensures after == StateAfterAttempts(scan, st, faults, n + 1)
    ensures sofar + msgs == AttemptsMessages(scan, version, mode, st, faults, n + 1)
  {
    hide Pin, Answer, After, QueryMessages;
  }

  /** An attempt takes up where the ones before it stopped. */
  lemma AttemptResumes(scan: Scan, before: State, read: nat)
    requires scan.Valid() && scan.Reaches(before, read)
    ensures var st := Pin(scan.s, scan.auto, scan.table, before);
            && Settled(st, scan.s.id) == Settled(scan.start, scan.s.id)
            && Get(st, scan.s.id, MaxPk) == Get(scan.pinned, scan.s.id, MaxPk)
            && (scan.auto ==> st == After(scan.s, scan.pinned, scan.want[..read])
                              && Answer(scan.s, scan.auto, scan.table, st) == scan.want[read..])
  {
    PinKeepsFields(scan.s, scan.auto, scan.table, before);
    PinKeepsFields(scan.s, scan.auto, scan.table, scan.start);
    if scan.auto {
      AnswerResumes(scan.s, scan.table, scan.pinned, read);
      assert read == 0 ==> scan.want[..read] == [] && scan.want[read..] == scan.want;
    }
  }

  lemma AttemptKeepsAnchor(scan: Scan, version: int, mode: Mode, before: State, read: nat, fault: Fault, after: State,
                           msgs: seq<Message>)
    requires scan.Valid() && scan.Reaches(before, read)
    requires Attempted(scan, version, mode, before, fault, after, msgs)
    ensures KeepsAnchor(scan.s, scan.pinned, msgs)
  {
    if fault != AtConnect {
      AttemptResumes(scan, before, read);
      PinKeepsFields(scan.s, scan.auto, scan.table, scan.start);
      var st := Pin(scan.s, scan.auto, scan.table, before);
      var rows := Answer(scan.s, scan.auto, scan.table, st);
      QueryKeepsAnchor(scan.s, st, version, mode, rows[..Served(fault, |rows|)], fault != NoFault);
    }
  }

  lemma AttemptReaches(scan: Scan, version: int, mode: Mode, before: State, read: nat, fault: Fault, after: State,
                       msgs: seq<Message>)
    requires scan.Valid() && scan.Reaches(before, read)
    requires Attempted(scan, version, mode, before, fault, after, msgs)
    ensures scan.Reaches(after, if scan.auto then read + Served(fault, |scan.want| - read) else 0)
  {
    hide Answer, Pin, After, QueryMessages, Settled, ScanFrom;
    if fault != AtConnect {
      AttemptResumes(scan, before, read);
      var st := Pin(scan.s, scan.auto, scan.table, before);
      var rows := Answer(scan.s, scan.auto, scan.table, st);
      var n := Served(fault, |rows|);
      ScanKeepsFields(scan.s, st, rows[..n]);
      if scan.auto { ReachFurther(scan, scan.want, read, n); }
    }
  }

  lemma ReachFurther(scan: Scan, want: seq<Row>, read: nat, n: nat)
    requires read + n <= |want|
    ensures After(scan.s, After(scan.s, scan.pinned, want[..read]), want[read..][..n])
         == After(scan.s, scan.pinned, want[..read + n])
  {
    AfterConcat(scan.s, scan.pinned, want[..read], want[read..][..n]);
    assert want[..read] + want[read..][..n] == want[..read + n];
  }

  lemma AttemptAccounts(scan: Scan, version: int, mode: Mode, before: State, read: nat, lost: nat, fault: Fault,
                        after: State, sofar: seq<Message>, msgs: seq<Message>)
    requires scan.Valid() && scan.auto && scan.Reaches(before, read)
    requires Attempted(scan, version, mode, before, fault, after, msgs)
    requires Accounts(scan.s, scan.pinned, scan.want, sofar, read, lost)
    ensures var n := Served(fault, |scan.want| - read);
            Accounts(scan.s, scan.pinned, scan.want, sofar + msgs, read + n, lost + LostBy(mode, fault, n))
  {
    hide Answer, Pin, Accounts, QueryMessages;
    if fault == AtConnect {
      AccountNothing(scan.s, scan.pinned, scan.want, sofar, msgs, read, lost);
    } else {
      var n := Served(fault, |scan.want| - read);
      AttemptQueries(scan, version, mode, before, read, fault, after, msgs);
      AccountQuery(scan.s, scan.pinned, scan.want, version, mode, fault, sofar, msgs, read, lost, n);
    }
  }

  /** The messages of an attempt that connects, in terms of the whole scan. */
  lemma AttemptQueries(scan: Scan, version: int, mode: Mode, before: State, read: nat, fault: Fault, after: State,
                       msgs: seq<Message>)
    requires scan.Valid() && scan.auto && scan.Reaches(before, read) && fault != AtConnect
    requires Attempted(scan, version, mode, before, fault, after, msgs)
    ensures var n := Served(fault, |scan.want| - read);
            msgs == QueryMessages(scan.s, After(scan.s, scan.pinned, scan.want[..read]), version, mode,
                                  scan.want[read..read + n], fault != NoFault)
  {
    hide Answer, Pin, After, QueryMessages, ScanFrom;
    AttemptResumes(scan, before, read);
    var n := Served(fault, |scan.want| - read);
    assert scan.want[read..][..n] == scan.want[read..read + n];
  }

  lemma AttemptRepeats(scan: Scan, version: int, before: State, fault: Fault, after: State, sofar: seq<Message>,
                       msgs: seq<Message>, ends: seq<nat>)
    requires Attempted(scan, version, Records, before, fault, after, msgs)
    requires RepeatsBounded(sofar, ends)
    ensures RepeatsBounded(sofar + msgs, if fault == NoFault then ends else ends + [|sofar + msgs|])
  {
    hide RepeatsBounded, QueryMessages, Pin, Answer, After, TailsWithin, Tail;
    if fault == AtConnect {
      RepeatsNothing(sofar, msgs, ends);
    } else {
      var st := Pin(scan.s, scan.auto, scan.table, before);
      var rows := Answer(scan.s, scan.auto, scan.table, st);
      RepeatsOfQuery(scan.s, st, version, rows[..Served(fault, |rows|)], fault != NoFault);
      RepeatsAppended(sofar, msgs, ends, fault != NoFault);
    }
  }
}
