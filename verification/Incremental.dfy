/**
 INCREMENTAL replication: `incremental.sync_table`, its `>=` query and its retries.

 A row without a replication key value sorts first, as it does in MySQL.
 */
module Incremental {
  import opened Singer
  import opened QuerySpec
  import opened SyncQuery
  import opened FullTableSpec

  const INCREMENTAL_KEYS: set<Field> := {ReplicationKey, ReplicationKeyValue, Version}
  const MAX_SYNC_RETRIES := 5

  predicate RkAtMost(a: Option<int>, b: Option<int>) {
    a.Some? ==> b.Some? && a.value <= b.value
  }

  /** The value of the bookmark as a replication key value: nothing stored reads as no value. */
  function RkOf(v: Value): Option<int> {
    match v
    case Num(n) => Some(n)
    case _ => None
  }

  function RkBookmark(st: State, id: StreamId): Option<int> {
    RkOf(Get(st, id, ReplicationKeyValue))
  }

  ghost predicate Ordered(rows: seq<Row>) {
    forall i, j :: 0 <= i < j < |rows| ==> RkAtMost(rows[i].rk, rows[j].rk)
  }

  /** An answer to the query from a bookmark: every row from it on, ties in any order. Without a
      bookmark the query has no lower bound. */
  ghost predicate IsAnswer(table: set<Row>, from: Option<int>, rows: seq<Row>) {
    && Ordered(rows)
    && (forall r :: r in rows <==> r in table && RkAtMost(from, r.rk))
  }

  /** The last key in the rows, or the one to begin with. */
  function LastRk(from: Option<int>, rows: seq<Row>): Option<int> {
    if rows == [] then from else rows[|rows| - 1].rk
  }

  /** Every row of the table from `from` on is in `rows`, or is not below their last key. */
  ghost predicate Swept(table: set<Row>, from: Option<int>, rows: seq<Row>) {
    forall r :: r in table && RkAtMost(from, r.rk) ==> r in rows || RkAtMost(LastRk(from, rows), r.rk)
  }

  /** The rows come in key order, none from below `from`, and no prefix of them skips a row. */
  ghost predicate Sweep(table: set<Row>, from: Option<int>, rows: seq<Row>) {
    && Ordered(rows)
    && (forall r :: r in rows ==> r in table && RkAtMost(from, r.rk))
    && (forall k :: 0 <= k <= |rows| ==> Swept(table, from, rows[..k]))
  }

  lemma SweepStarts(table: set<Row>, from: Option<int>)
    ensures Sweep(table, from, [])
  {
  }

  lemma SweepIsSwept(table: set<Row>, from: Option<int>, rows: seq<Row>)
    requires Sweep(table, from, rows)
    ensures Swept(table, from, rows)
  {
    assert rows[..|rows|] == rows;
  }

  lemma PartOfAnswerIsSwept(table: set<Row>, from: Option<int>, answer: seq<Row>, k: nat)
    requires IsAnswer(table, from, answer) && k <= |answer|
    ensures Swept(table, from, answer[..k])
  {
    forall r | r in table && RkAtMost(from, r.rk)
      ensures r in answer[..k] || RkAtMost(LastRk(from, answer[..k]), r.rk)
    {
      assert r in answer;
      var i :| 0 <= i < |answer| && answer[i] == r;
      if i < k { assert answer[..k][i] == r; }
    }
  }

  /** Sweeping on from where a sweep stopped. */
  lemma SweptConcat(table: set<Row>, from: Option<int>, first: seq<Row>, second: seq<Row>)
    requires Sweep(table, from, first) && Swept(table, LastRk(from, first), second)
    requires RkAtMost(from, LastRk(from, first))
    ensures Swept(table, from, first + second)
  {
    SweepIsSwept(table, from, first);
    forall r | r in table && RkAtMost(from, r.rk)
      ensures r in first + second || RkAtMost(LastRk(from, first + second), r.rk)
    {
      if r !in first {
        assert RkAtMost(LastRk(from, first), r.rk);
      }
    }
  }

  lemma SweepResumes(table: set<Row>, from: Option<int>, rows: seq<Row>, answer: seq<Row>, n: nat)
    requires Sweep(table, from, rows) && IsAnswer(table, LastRk(from, rows), answer) && n <= |answer|
    ensures Sweep(table, from, rows + answer[..n])
    ensures n == |answer| ==> forall r :: r in table && RkAtMost(from, r.rk) ==> r in rows + answer[..n]
  {
    var more := answer[..n];
    var all := rows + more;
    LastIsAtLeast(table, from, rows);
    forall i, j | 0 <= i < j < |all| ensures RkAtMost(all[i].rk, all[j].rk) {
      if i < |rows| <= j {
        assert more[j - |rows|] in answer;
        assert RkAtMost(rows[i].rk, LastRk(from, rows)) && RkAtMost(LastRk(from, rows), all[j].rk);
      }
    }
    forall r | r in all ensures r in table && RkAtMost(from, r.rk) {
      if r !in rows { assert r in more; assert r in answer; }
    }
    forall k | 0 <= k <= |all| ensures Swept(table, from, all[..k]) {
      if k <= |rows| {
        assert all[..k] == rows[..k];
      } else {
        assert all[..k] == rows + answer[..k - |rows|];
        PartOfAnswerIsSwept(table, LastRk(from, rows), answer, k - |rows|);
        SweptConcat(table, from, rows, answer[..k - |rows|]);
      }
    }
    if n == |answer| { WholeAnswerIsComplete(table, from, rows, answer); }
  }

  lemma LastIsAtLeast(table: set<Row>, from: Option<int>, rows: seq<Row>)
    requires Sweep(table, from, rows)
    ensures RkAtMost(from, LastRk(from, rows))
  {
    if rows != [] { assert rows[|rows| - 1] in rows; }
  }

  lemma WholeAnswerIsComplete(table: set<Row>, from: Option<int>, rows: seq<Row>, answer: seq<Row>)
    requires Sweep(table, from, rows) && IsAnswer(table, LastRk(from, rows), answer)
    ensures forall r :: r in table && RkAtMost(from, r.rk) ==> r in rows + answer[..|answer|]
  {
    SweepIsSwept(table, from, rows);
    assert answer[..|answer|] == answer;
  }

  // ----- the bookmark -----

  lemma AfterMovesRk(s: Stream, st: State, rows: seq<Row>)
    requires s.replication == Incremental && Get(st, s.id, ReplicationKey) != Null
    ensures RkBookmark(After(s, st, rows), s.id) == LastRk(RkBookmark(st, s.id), rows)
    ensures Get(After(s, st, rows), s.id, ReplicationKey) == Get(st, s.id, ReplicationKey)
  {
  }

  /** The state as the first query runs: a changed key forgets its value. */
  function Begin(st: State, id: StreamId, key: string, now: int): State {
    var kept := Whitelist(st, id, INCREMENTAL_KEYS);
    var keyed := if Text(key) == Get(kept, id, ReplicationKey) then kept
                 else Clear(Write(kept, id, ReplicationKey, Text(key)), id, ReplicationKeyValue);
    Write(keyed, id, Version, Num(StreamVersion(keyed, id, now)))
  }

  lemma BeginReads(st: State, id: StreamId, key: string, now: int)
    ensures Carries(Begin(st, id, key, now), id, key, StreamVersion(st, id, now))
    ensures RkBookmark(Begin(st, id, key, now), id)
         == if Get(st, id, ReplicationKey) == Text(key) then RkBookmark(st, id) else None
    ensures forall x :: x != id ==> BookmarkOf(Begin(st, id, key, now), x) == BookmarkOf(st, x)
  {
  }

  /** The bookmark has the replication key and the version, and beside them at most a value. */
  predicate Carries(st: State, id: StreamId, key: string, version: int) {
    && Get(st, id, ReplicationKey) == Text(key) && Get(st, id, Version) == Num(version)
    && BookmarkOf(st, id).Keys <= {ReplicationKey, ReplicationKeyValue, Version}
  }

  ghost predicate StatesCarry(id: StreamId, key: string, version: int, msgs: seq<Message>) {
    forall m :: m in msgs && m.StateMessage? ==> Carries(m.state, id, key, version)
  }

  lemma AfterCarries(s: Stream, key: string, version: int, st: State, rows: seq<Row>)
    requires s.replication == Incremental && Carries(st, s.id, key, version)
    ensures Carries(After(s, st, rows), s.id, key, version)
  {
  }

  /** Every STATE of a query carries the version. */
  lemma QueryCarries(s: Stream, key: string, version: int, st: State, mode: Mode, rows: seq<Row>, drops: bool)
    requires s.replication == Incremental && Carries(st, s.id, key, version)
    ensures StatesCarry(s.id, key, version, QueryMessages(s, st, version, mode, rows, drops))
  {
    hide Carries, QueryMessages, After, Held, Delivered;
    var msgs := QueryMessages(s, st, version, mode, rows, drops);
    QueryDelivers(s, st, version, mode, rows, drops);
    forall m | m in msgs && m.StateMessage? ensures Carries(m.state, s.id, key, version) {
      var i :| 0 <= i < |msgs| && msgs[i] == m;
      assert CoversAt(s, st, msgs, i);
      AfterCarries(s, key, version, st, Delivered(msgs[..i]));
    }
  }

  // ----- what the messages of a run account for -----

  /** Every row from `from` on has gone out, but for exactly those that are gone. */
  ghost predicate CompleteBut(table: set<Row>, from: Option<int>, gone: set<Row>, rows: seq<Row>) {
    forall r :: r in table && RkAtMost(from, r.rk) ==> (r in rows <==> r !in gone)
  }

  /** Every row from `from` on has gone out, or is gone, or is not below the key reached. */
  ghost predicate AccountsFor(table: set<Row>, from: Option<int>, rows: seq<Row>, gone: set<Row>,
                              reached: Option<int>) {
    forall r :: r in table && RkAtMost(from, r.rk) ==> r in rows || r in gone || RkAtMost(reached, r.rk)
  }

  /** The messages of a run: its rows are of the table, from the bookmark on; each STATE keeps the
      replication key and does not go back, and the rows before it account for its bookmark.  `gone` are
      rows that no query will ask for again. */
  ghost predicate RunOf(s: Stream, table: set<Row>, start: State, gone: set<Row>, msgs: seq<Message>) {
    && (forall r :: r in Delivered(msgs) ==> r in table && RkAtMost(RkBookmark(start, s.id), r.rk))
    && (forall m :: 0 <= m < |msgs| && msgs[m].StateMessage? ==> StateAccounts(s, table, start, gone, msgs, m))
  }

  ghost predicate StateAccounts(s: Stream, table: set<Row>, start: State, gone: set<Row>, msgs: seq<Message>, m: nat)
    requires m < |msgs| && msgs[m].StateMessage?
  {
    var st, from := msgs[m].state, RkBookmark(start, s.id);
    && Get(st, s.id, ReplicationKey) == Get(start, s.id, ReplicationKey)
    && RkAtMost(from, RkBookmark(st, s.id))
    && AccountsFor(table, from, Delivered(msgs[..m]), gone, RkBookmark(st, s.id))
  }

  /** In RECORD mode nothing is gone, the rows come in key order, and each STATE is the bookmark of the
      row before it. */
  ghost predicate InOrder(s: Stream, table: set<Row>, start: State, gone: set<Row>, msgs: seq<Message>) {
    gone == {} && Sweep(table, RkBookmark(start, s.id), Delivered(msgs)) && CheckpointsCover(s, start, msgs)
  }

  /** The run so far: `seen` are the rows it has read.  A row that is gone lies below the key reached and
      has not gone out; any other row that was read has gone out, or has just that key. */
  ghost predicate Standing(s: Stream, table: set<Row>, start: State, mode: Mode, seen: seq<Row>, gone: set<Row>,
                           msgs: seq<Message>) {
    var from := RkBookmark(start, s.id);
    && Sweep(table, from, seen)
    && RunOf(s, table, start, gone, msgs)
    && AccountsFor(table, from, Delivered(msgs), gone, LastRk(from, seen))
    && (forall r :: r in Delivered(msgs) ==> r in seen)
    && AreGone(table, from, gone, Delivered(msgs), LastRk(from, seen))
    && (mode == Records ==> seen == Delivered(msgs) && InOrder(s, table, start, gone, msgs))
  }

  ghost predicate AreGone(table: set<Row>, from: Option<int>, gone: set<Row>, out: seq<Row>, reached: Option<int>) {
    forall r :: r in gone ==> r in table && RkAtMost(from, r.rk) && r !in out && !RkAtMost(reached, r.rk)
  }

  /** The rows in the file that is open as a connection is lost. */
  function OpenFile(mode: Mode, rows: seq<Row>): seq<Row> {
    rows[|rows| - Held(mode, |rows|)..]
  }

  /** Of those, the rows that are lost for good: they did not go out before, and the next query starts
      above them. */
  function GoneWith(mode: Mode, rows: seq<Row>, out: seq<Row>, reached: Option<int>): set<Row> {
    set r | r in OpenFile(mode, rows) && r !in out && !RkAtMost(reached, r.rk)
  }

  /** What an attempt adds to the rows that are gone. */
  function GoneAfter(mode: Mode, gone: set<Row>, rows: seq<Row>, drops: bool, out: seq<Row>,
                     reached: Option<int>): set<Row> {
    if drops then gone + GoneWith(mode, rows, out, reached) else gone
  }

  /** How many of `n` rows go out. */
  function Sent(mode: Mode, n: nat, drops: bool): (sent: nat)
    ensures sent <= n
  {
    n - (if drops then Held(mode, n) else 0)
  }

  /** The first rows of an answer move on what is accounted for. */
  lemma AccountsUpTo(table: set<Row>, from: Option<int>, at: Option<int>, gone: set<Row>, out: seq<Row>,
                     answer: seq<Row>, d: nat)
    requires AccountsFor(table, from, out, gone, at) && IsAnswer(table, at, answer) && d <= |answer|
    ensures AccountsFor(table, from, out + answer[..d], gone, LastRk(at, answer[..d]))
    ensures RkAtMost(at, LastRk(at, answer[..d]))
  {
    PartOfAnswerIsSwept(table, at, answer, d);
    if d > 0 { assert answer[d - 1] in answer; }
  }

  /** With a failed attempt, the rows of its open file go out later, or are gone. */
  lemma OpenFileAccounts(table: set<Row>, from: Option<int>, at: Option<int>, gone: set<Row>, out: seq<Row>,
                         mode: Mode, answer: seq<Row>, n: nat, drops: bool)
    requires AccountsFor(table, from, out, gone, at) && IsAnswer(table, at, answer) && n <= |answer|
    ensures var sent, reached := out + answer[..Sent(mode, n, drops)], LastRk(at, answer[..n]);
            AccountsFor(table, from, sent, GoneAfter(mode, gone, answer[..n], drops, sent, reached), reached)
  {
    hide Held, IsAnswer;
    var sent, reached := out + answer[..Sent(mode, n, drops)], LastRk(at, answer[..n]);
    var gone' := GoneAfter(mode, gone, answer[..n], drops, sent, reached);
    AccountsUpTo(table, from, at, gone, out, answer, n);
    forall r | r in table && RkAtMost(from, r.rk) ensures r in sent || r in gone' || RkAtMost(reached, r.rk) {
      if r !in out && r !in gone && !RkAtMost(reached, r.rk) {
        assert r in out + answer[..n];
        InOneOfTheParts(mode, answer[..n], drops, r);
        assert answer[..n][..Sent(mode, n, drops)] == answer[..Sent(mode, n, drops)];
      }
    }
  }

  lemma InOneOfTheParts(mode: Mode, rows: seq<Row>, drops: bool, r: Row)
    requires r in rows
    ensures r in rows[..Sent(mode, |rows|, drops)] || (drops && r in OpenFile(mode, rows))
  {
    hide Held;
    assert rows == rows[..Sent(mode, |rows|, drops)] + rows[Sent(mode, |rows|, drops)..];
  }

  /** What is gone stays so: no later answer has it. */
  lemma GoneStaysGone(table: set<Row>, from: Option<int>, at: Option<int>, gone: set<Row>, out: seq<Row>,
                      mode: Mode, answer: seq<Row>, n: nat, drops: bool)
    requires AreGone(table, from, gone, out, at) && IsAnswer(table, at, answer) && n <= |answer| && RkAtMost(from, at)
    ensures var sent, reached := out + answer[..Sent(mode, n, drops)], LastRk(at, answer[..n]);
            AreGone(table, from, GoneAfter(mode, gone, answer[..n], drops, sent, reached), sent, reached)
  {
    hide Held;
    var sent, reached := out + answer[..Sent(mode, n, drops)], LastRk(at, answer[..n]);
    PartOfAnswerIsAbove(table, at, answer, n);
    PartOfAnswerIsAbove(table, at, answer, Sent(mode, n, drops));
    forall r | r in OpenFile(mode, answer[..n]) ensures r in table && RkAtMost(from, r.rk) {
      assert r in answer[..n];
    }
  }

  lemma PartOfAnswerIsAbove(table: set<Row>, at: Option<int>, answer: seq<Row>, d: nat)
    requires IsAnswer(table, at, answer) && d <= |answer|
    ensures forall r :: r in answer[..d] ==> r in table && RkAtMost(at, r.rk)
    ensures RkAtMost(at, LastRk(at, answer[..d]))
  {
    forall r | r in answer[..d] ensures r in answer {
    }
    if d > 0 { assert answer[d - 1] in answer; }
  }

  /** A run that comes to its end has delivered every row but those that are gone. */
  lemma EndIsComplete(table: set<Row>, from: Option<int>, at: Option<int>, gone: set<Row>,
                                         out: seq<Row>, answer: seq<Row>)
    requires AccountsFor(table, from, out, gone, at) && IsAnswer(table, at, answer)
    requires AreGone(table, from, gone, out + answer, LastRk(at, answer))
    ensures CompleteBut(table, from, gone, out + answer)
  {
    forall r | r in table && RkAtMost(from, r.rk) && r !in gone ensures r in out + answer {
      if r !in out { assert r in answer; }
    }
  }

  /** The messages of another attempt keep the promises of the run. */
  lemma RunGoesOn(s: Stream, table: set<Row>, start: State, gone: set<Row>, more: set<Row>, msgs: seq<Message>,
                  st: State, answer: seq<Row>, next: seq<Message>, d: nat)
    requires s.replication == Incremental && RunOf(s, table, start, gone, msgs)
    requires Get(st, s.id, ReplicationKey) == Get(start, s.id, ReplicationKey) != Null
    requires RkAtMost(RkBookmark(start, s.id), RkBookmark(st, s.id)) && IsAnswer(table, RkBookmark(st, s.id), answer)
    requires AccountsFor(table, RkBookmark(start, s.id), Delivered(msgs), gone, RkBookmark(st, s.id))
    requires d <= |answer| && Delivered(next) == answer[..d] && CheckpointsCover(s, st, next) && gone <= more
    ensures RunOf(s, table, start, more, msgs + next)
  {
    hide AccountsFor, RkBookmark, After;
    var all := msgs + next;
    DeliveredConcat(msgs, next);
    forall r | r in Delivered(all) ensures r in table && RkAtMost(RkBookmark(start, s.id), r.rk) {
      if r !in Delivered(msgs) { assert r in answer[..d]; assert r in answer; }
    }
    forall m | 0 <= m < |all| && all[m].StateMessage? ensures StateAccounts(s, table, start, more, all, m) {
      if m < |msgs| {
        assert all[..m] == msgs[..m] && StateAccounts(s, table, start, gone, msgs, m);
        MoreIsGone(table, RkBookmark(start, s.id), Delivered(msgs[..m]), gone, more, RkBookmark(msgs[m].state, s.id));
      } else {
        StateOfTheAttempt(s, table, start, gone, msgs, st, answer, next, d, m - |msgs|);
        assert all[..m] == msgs + next[..m - |msgs|] && all[m] == next[m - |msgs|];
        MoreIsGone(table, RkBookmark(start, s.id), Delivered(all[..m]), gone, more, RkBookmark(all[m].state, s.id));
      }
    }
  }

  lemma MoreIsGone(table: set<Row>, from: Option<int>, rows: seq<Row>, gone: set<Row>, more: set<Row>, at: Option<int>)
    requires AccountsFor(table, from, rows, gone, at) && gone <= more
    ensures AccountsFor(table, from, rows, more, at)
  {
  }

  lemma StateOfTheAttempt(s: Stream, table: set<Row>, start: State, gone: set<Row>, msgs: seq<Message>, st: State,
                          answer: seq<Row>, next: seq<Message>, d: nat, j: nat)
    requires s.replication == Incremental && j < |next| && next[j].StateMessage?
    requires Get(st, s.id, ReplicationKey) == Get(start, s.id, ReplicationKey) != Null
    requires RkAtMost(RkBookmark(start, s.id), RkBookmark(st, s.id)) && IsAnswer(table, RkBookmark(st, s.id), answer)
    requires AccountsFor(table, RkBookmark(start, s.id), Delivered(msgs), gone, RkBookmark(st, s.id))
    requires d <= |answer| && Delivered(next) == answer[..d] && CheckpointsCover(s, st, next)
    ensures var state, from := next[j].state, RkBookmark(start, s.id);
            && Get(state, s.id, ReplicationKey) == Get(start, s.id, ReplicationKey)
            && RkAtMost(from, RkBookmark(state, s.id))
            && AccountsFor(table, from, Delivered(msgs + next[..j]), gone, RkBookmark(state, s.id))
  {
    hide AccountsFor, RkBookmark, After, Delivered;
    assert CoversAt(s, st, next, j);
    var before := Delivered(next[..j]);
    assert next == next[..j] + next[j..];
    DeliveredConcat(next[..j], next[j..]);
    assert before == answer[..|before|];
    AfterMovesRk(s, st, before);
    DeliveredConcat(msgs, next[..j]);
    AccountsUpTo(table, RkBookmark(start, s.id), RkBookmark(st, s.id), gone, Delivered(msgs), answer, |before|);
  }

  /** An attempt: its answer goes on from where the run stands.  If it comes to its end every row has gone
      out, but for exactly those that are gone. */
  lemma AttemptStands(s: Stream, table: set<Row>, start: State, mode: Mode, seen: seq<Row>, gone: set<Row>,
                      msgs: seq<Message>, version: int, answer: seq<Row>, n: nat, drops: bool)
    requires s.replication == Incremental && Get(start, s.id, ReplicationKey) != Null
    requires Standing(s, table, start, mode, seen, gone, msgs) && n <= |answer| && (!drops ==> n == |answer|)
    requires IsAnswer(table, LastRk(RkBookmark(start, s.id), seen), answer)
    ensures var st, rows := After(s, start, seen), answer[..n];
            var all := msgs + QueryMessages(s, st, version, mode, rows, drops);
            var reached := LastRk(RkBookmark(start, s.id), seen + rows);
            var gone' := GoneAfter(mode, gone, rows, drops, Delivered(all), reached);
            && Standing(s, table, start, mode, seen + rows, gone', all)
            && After(s, st, rows) == After(s, start, seen + rows)
            && (!drops ==> CompleteBut(table, RkBookmark(start, s.id), gone', Delivered(all)))
  {
    hide QueryMessages, GoneAfter, CompleteBut, Sweep, After, RkBookmark, IsAnswer, OpenFile, Held, Delivered, RunOf,
         AccountsFor, AreGone, InOrder, CheckpointsCover;
    var st, rows, from := After(s, start, seen), answer[..n], RkBookmark(start, s.id);
    var at, sent, more := LastRk(from, seen), Sent(mode, n, drops), QueryMessages(s, st, version, mode, rows, drops);
    var all := msgs + more;
    AfterMovesRk(s, start, seen);
    LastIsAtLeast(table, from, seen);
    SweepResumes(table, from, seen, answer, n);
    AfterConcat(s, start, seen, rows);
    QueryDelivers(s, st, version, mode, rows, drops);
    assert rows[..sent] == answer[..sent];
    DeliveredConcat(msgs, more);
    OpenFileAccounts(table, from, at, gone, Delivered(msgs), mode, answer, n, drops);
    GoneStaysGone(table, from, at, gone, Delivered(msgs), mode, answer, n, drops);
    var gone' := GoneAfter(mode, gone, rows, drops, Delivered(all), LastRk(at, rows));
    GoneGrows(mode, gone, rows, drops, Delivered(all), LastRk(at, rows));
    RunGoesOn(s, table, start, gone, gone', msgs, st, answer, more, sent);
    assert LastRk(from, seen + rows) == LastRk(at, rows);
    if mode == Records {
      RecordsAllGo(n, drops);
      RecordsStayInOrder(s, table, start, seen, gone, msgs, more, rows, drops);
    }
    if !drops {
      assert answer[..n] == answer;
      EndIsComplete(table, from, at, gone', Delivered(msgs), answer);
    }
  }

  lemma RecordsAllGo(n: nat, drops: bool)
    ensures Sent(Records, n, drops) == n
  {
  }

  lemma GoneGrows(mode: Mode, gone: set<Row>, rows: seq<Row>, drops: bool, out: seq<Row>, reached: Option<int>)
    ensures gone <= GoneAfter(mode, gone, rows, drops, out, reached)
    ensures !drops || mode == Records ==> GoneAfter(mode, gone, rows, drops, out, reached) == gone
  {
  }

  lemma RecordsStayInOrder(s: Stream, table: set<Row>, start: State, seen: seq<Row>, gone: set<Row>, msgs: seq<Message>,
                           more: seq<Message>, rows: seq<Row>, drops: bool)
    requires InOrder(s, table, start, gone, msgs) && seen == Delivered(msgs)
    requires Delivered(more) == rows && CheckpointsCover(s, After(s, start, seen), more)
    requires Sweep(table, RkBookmark(start, s.id), seen + rows)
    ensures InOrder(s, table, start, gone, msgs + more) && seen + rows == Delivered(msgs + more)
  {
    hide Sweep, After, RkBookmark, CheckpointsCover;
    DeliveredConcat(msgs, more);
    CoverConcat(s, start, msgs, more);
  }

  /** The answer of the server to the query of each attempt from each bookmark. */
  type Server = (nat, Option<int>) -> seq<Row>

  /** The lines before the attempts. */
  method BeginSync(tap: Tap, s: Stream, key: string, now: int) returns (value: Value, version: int)
    modifies tap
    ensures tap.state == Begin(old(tap.state), s.id, key, now) && version == StreamVersion(old(tap.state), s.id, now)
    ensures Carries(tap.state, s.id, key, version) && RkOf(value) == RkBookmark(tap.state, s.id)
  {
    BeginReads(tap.state, s.id, key, now);
    tap.state := Whitelist(tap.state, s.id, INCREMENTAL_KEYS);
    value := Null;
    if Text(key) == Get(tap.state, s.id, ReplicationKey) {
      value := Get(tap.state, s.id, ReplicationKeyValue);
    } else {
      tap.state := Write(tap.state, s.id, ReplicationKey, Text(key));
      tap.state := Clear(tap.state, s.id, ReplicationKeyValue);
    }
    version := StreamVersion(tap.state, s.id, now);
    tap.state := Write(tap.state, s.id, Version, Num(version));
  }

  /** One attempt.  `seen` are the rows that the run has read before it, `msgs` its messages. */
  method Attempt(tap: Tap, s: Stream, ghost key: string, ghost table: set<Row>, ghost start: State, server: Server,
                 attempt: nat, value: Value, fault: Fault, version: int, mode: Mode, ghost seen: seq<Row>,
                 ghost gone: set<Row>, ghost msgs: seq<Message>)
    returns (ok: bool, ghost more: seq<Message>, ghost rows: seq<Row>, ghost gone': set<Row>)
    requires s.replication == Incremental && Carries(start, s.id, key, version)
    requires IsAnswer(table, RkOf(value), server(attempt, RkOf(value)))
    requires Standing(s, table, start, mode, seen, gone, msgs) && tap.state == After(s, start, seen)
    requires RkOf(value) == LastRk(RkBookmark(start, s.id), seen)
    modifies tap, tap.output
    ensures ok <==> fault == NoFault
    ensures tap.output.messages == old(tap.output.messages) + more
    ensures Standing(s, table, start, mode, seen + rows, gone', msgs + more)
    ensures tap.state == After(s, start, seen + rows)
    ensures var reached := LastRk(RkBookmark(start, s.id), seen + rows);
            gone' == GoneAfter(mode, gone, rows, !ok, Delivered(msgs + more), reached)
    ensures OfVersion(s.id, version, mode, more) && StatesCarry(s.id, key, version, more)
    ensures ok ==> CompleteBut(table, RkBookmark(start, s.id), gone', Delivered(msgs + more))
  {
    hide Standing, Carries, StatesCarry, After, CompleteBut, QueryMessages, RkBookmark, IsAnswer, OfVersion, GoneAfter,
         Delivered, LastRk;
    ok, more, rows, gone' := false, [], [], gone;
    CarriesKey(start, s.id, key, version);
    if fault == AtConnect {
      NothingMore(s.id, key, version, mode, msgs);
      NothingGone(mode, gone, Delivered(msgs), LastRk(RkBookmark(start, s.id), seen));
      Nothing(seen);
    } else {
      var answer := server(attempt, RkOf(value));
      var n := Served(fault, |answer|);
      var cursor := new Cursor(answer[..n], fault != NoFault);
      rows := answer[..n];
      more := QueryMessages(s, tap.state, version, mode, rows, fault != NoFault);
      gone' := GoneAfter(mode, gone, rows, fault != NoFault, Delivered(msgs + more),
                         LastRk(RkBookmark(start, s.id), seen + rows));
      AttemptStands(s, table, start, mode, seen, gone, msgs, version, answer, n, fault != NoFault);
      QueryIsOfVersion(s, tap.state, version, mode, rows, fault != NoFault);
      AfterCarries(s, key, version, start, seen);
      QueryCarries(s, key, version, tap.state, mode, rows, fault != NoFault);
      ok := tap.SyncQuery(s, cursor, version, mode);
    }
  }

  lemma CarriesKey(st: State, id: StreamId, key: string, version: int)
    requires Carries(st, id, key, version)
    ensures Get(st, id, ReplicationKey) != Null
  {
  }

  lemma NothingMore(id: StreamId, key: string, version: int, mode: Mode, msgs: seq<Message>)
    ensures msgs + [] == msgs && OfVersion(id, version, mode, []) && StatesCarry(id, key, version, [])
  {
  }

  lemma NothingGone(mode: Mode, gone: set<Row>, out: seq<Row>, reached: Option<int>)
    ensures GoneAfter(mode, gone, [], true, out, reached) == gone
  {
  }

  /** The sync of a table that does not change meanwhile.  `gone` are the rows that were in the open file of
      an attempt that failed, below the last key it had read, and had not gone out before: success delivers
      every row from the starting bookmark on, ties included, but for exactly those.  In RECORD mode there
      are none.  Each STATE speaks of the rows before it, but for those, and carries the version of the run. */
  method SyncTable(tap: Tap, s: Stream, key: string, ghost table: set<Row>, server: Server, faults: seq<Fault>,
                   now: int, mode: Mode)
    returns (ok: bool, ghost msgs: seq<Message>, ghost seen: seq<Row>, ghost gone: set<Row>)
    requires s.replication == Incremental && |faults| == MAX_SYNC_RETRIES
    requires forall a: nat, from: Option<int> :: IsAnswer(table, from, server(a, from))
    modifies tap, tap.output
    ensures tap.output.messages == old(tap.output.messages) + msgs
    ensures ok <==> NoFault in faults[..5]
    ensures var start := Begin(old(tap.state), s.id, key, now);
            && Standing(s, table, start, mode, seen, gone, msgs)
            && tap.state == After(s, start, seen)
            && (ok ==> CompleteBut(table, RkBookmark(start, s.id), gone, Delivered(msgs)))
    ensures var version := StreamVersion(old(tap.state), s.id, now);
            && OfVersion(s.id, version, mode, msgs) && msgs != [] && msgs[0] == ActivateVersion(s.id, version)
            && StatesCarry(s.id, key, version, msgs) && Carries(tap.state, s.id, key, version)
  {
    hide Standing, Carries, StatesCarry, StreamVersion, After, CompleteBut, Begin, RkBookmark, IsAnswer, OfVersion,
         RkOf, Delivered, Get, LastRk, GoneAfter;
    ghost var out0, start := tap.output.messages, Begin(tap.state, s.id, key, now);
    var value, version := BeginSync(tap, s, key, now);
    var activate := ActivateVersion(s.id, version);
    tap.output.Emit(activate);
    msgs, seen, gone := [activate], [], {};
    RunBegins(s, table, start, mode, activate);
    VersionBegins(s.id, key, version, mode);
    ok := false;
    var attempt := 0;
    while attempt < MAX_SYNC_RETRIES && !ok
      invariant attempt <= MAX_SYNC_RETRIES
      invariant tap.output.messages == out0 + msgs && msgs != [] && msgs[0] == activate
      invariant Standing(s, table, start, mode, seen, gone, msgs) && OfVersion(s.id, version, mode, msgs)
      invariant StatesCarry(s.id, key, version, msgs)
      invariant tap.state == After(s, start, seen)
      invariant attempt == 0 ==> RkOf(value) == LastRk(RkBookmark(start, s.id), seen)
      invariant ok ==> attempt > 0 && faults[attempt - 1] == NoFault
      invariant !ok ==> NoFault !in faults[..attempt]
      invariant ok ==> CompleteBut(table, RkBookmark(start, s.id), gone, Delivered(msgs))
    {
      if attempt > 0 {
        value := Get(tap.state, s.id, ReplicationKeyValue);
        BookmarkIs(tap.state, s.id);
        BookmarkIsLast(s, key, version, start, seen);
      }
      ghost var more, rows;
      ok, more, rows, gone := Attempt(tap, s, key, table, start, server, attempt, value, faults[attempt], version, mode,
                                      seen, gone, msgs);
      Associative(out0, msgs, more);
      VersionGoesOn(s.id, key, version, mode, msgs, more);
      msgs, seen := msgs + more, seen + rows;
      attempt := attempt + 1;
    }
    assert faults[..|faults|] == faults;
    AfterCarries(s, key, version, start, seen);
  }

  lemma BookmarkIsLast(s: Stream, key: string, version: int, start: State, seen: seq<Row>)
    requires s.replication == Incremental && Carries(start, s.id, key, version)
    ensures RkBookmark(After(s, start, seen), s.id) == LastRk(RkBookmark(start, s.id), seen)
  {
    AfterMovesRk(s, start, seen);
  }

  lemma BookmarkIs(st: State, id: StreamId)
    ensures RkBookmark(st, id) == RkOf(Get(st, id, ReplicationKeyValue))
  {
  }

  lemma VersionBegins(id: StreamId, key: string, version: int, mode: Mode)
    ensures var msgs := [ActivateVersion(id, version)];
            OfVersion(id, version, mode, msgs) && StatesCarry(id, key, version, msgs)
  {
  }

  lemma VersionGoesOn(id: StreamId, key: string, version: int, mode: Mode, msgs: seq<Message>, more: seq<Message>)
    requires OfVersion(id, version, mode, msgs) && OfVersion(id, version, mode, more)
    requires StatesCarry(id, key, version, msgs) && StatesCarry(id, key, version, more)
    ensures OfVersion(id, version, mode, msgs + more) && StatesCarry(id, key, version, msgs + more)
  {
  }

  lemma RunBegins(s: Stream, table: set<Row>, start: State, mode: Mode, m: Message)
    requires m.ActivateVersion?
    ensures Standing(s, table, start, mode, [], {}, [m]) && After(s, start, []) == start
    ensures LastRk(RkBookmark(start, s.id), []) == RkBookmark(start, s.id)
  {
    hide RkBookmark, Sweep, After;
    OneMore([], m);
    assert [] + [m] == [m] && Delivered([m]) == [];
    AfterNothing(s, start);
    SweepStarts(table, RkBookmark(start, s.id));
  }

  lemma AfterNothing(s: Stream, start: State)
    ensures After(s, start, []) == start && CheckpointsCover(s, start, [])
  {
  }

  /** Two rows in files of three, and a connection that is lost after both: the next query starts at the
      second one, and the first is gone. */
  lemma OpenFileIsGone(s: Stream, st: State, version: int)
    requires s.replication == Incremental && Get(st, s.id, ReplicationKey) != Null && RkBookmark(st, s.id) == None
    ensures var a, b := Row(1, Some(1), "a"), Row(2, Some(2), "b");
            var first := QueryMessages(s, st, version, Jsonl(3), [a, b], true);
            var second := QueryMessages(s, After(s, st, [a, b]), version, Jsonl(3), [b], false);
            && IsAnswer({a, b}, None, [a, b])
            && IsAnswer({a, b}, RkBookmark(After(s, st, [a, b]), s.id), [b])
            && Delivered(first + second) == [b]
  {
    hide QueryMessages, Delivered, After, RkBookmark;
    var a, b := Row(1, Some(1), "a"), Row(2, Some(2), "b");
    var first := QueryMessages(s, st, version, Jsonl(3), [a, b], true);
    var second := QueryMessages(s, After(s, st, [a, b]), version, Jsonl(3), [b], false);
    QueryDelivers(s, st, version, Jsonl(3), [a, b], true);
    QueryDelivers(s, After(s, st, [a, b]), version, Jsonl(3), [b], false);
    assert [a, b][..0] == [] && [b][..1] == [b];
    assert Held(Jsonl(3), 2) == 2;
    DeliveredConcat(first, second);
    AfterMovesRk(s, st, [a, b]);
    assert [a, b][0] == a && [a, b][1] == b;
    assert [b][0] == b;
  }

  // ----- over several processes -----

  /** A run that died.  The next one starts at the time `now`: from the STATE at `at`, or if the run wrote
      none, from the state that it had started from itself. */
  datatype Crash = Crash(msgs: seq<Message>, gone: set<Row>, at: Option<nat>, now: int) {

    predicate LeavesAState() {
      at.Some? ==> at.value < |msgs| && msgs[at.value].StateMessage?
    }

    function Next(st: State): State
      requires LeavesAState()
    {
      if at.Some? then msgs[at.value].state else st
    }
  }

  /** The messages of a run from the state `st`, as far as it got. */
  ghost predicate IsRun(s: Stream, table: set<Row>, key: string, mode: Mode, st: State, now: int, gone: set<Row>,
                        msgs: seq<Message>) {
    && RunOf(s, table, Begin(st, s.id, key, now), gone, msgs)
    && OfVersion(s.id, StreamVersion(st, s.id, now), mode, msgs)
    && StatesCarry(s.id, key, StreamVersion(st, s.id, now), msgs)
  }

  /** A run that dies is the beginning of one that goes on. */
  lemma PartOfARunIsARun(s: Stream, table: set<Row>, key: string, mode: Mode, st: State, now: int, gone: set<Row>,
                         msgs: seq<Message>, cut: nat)
    requires IsRun(s, table, key, mode, st, now, gone, msgs) && cut <= |msgs|
    ensures IsRun(s, table, key, mode, st, now, gone, msgs[..cut])
  {
    hide AccountsFor, RkBookmark, Delivered, Carries, MessageOf, Begin, StreamVersion;
    var part, start := msgs[..cut], Begin(st, s.id, key, now);
    assert msgs == part + msgs[cut..];
    DeliveredConcat(part, msgs[cut..]);
    forall m | 0 <= m < cut && part[m].StateMessage? ensures StateAccounts(s, table, start, gone, part, m) {
      assert part[..m] == msgs[..m] && StateAccounts(s, table, start, gone, msgs, m);
    }
  }

  /** What `SyncTable` promises makes its messages a run, however far it gets; in RECORD mode nothing is gone. */
  lemma SyncTableIsARun(s: Stream, table: set<Row>, key: string, mode: Mode, st: State, now: int, seen: seq<Row>,
                        gone: set<Row>, msgs: seq<Message>, cut: nat)
    requires Standing(s, table, Begin(st, s.id, key, now), mode, seen, gone, msgs) && cut <= |msgs|
    requires OfVersion(s.id, StreamVersion(st, s.id, now), mode, msgs)
    requires StatesCarry(s.id, key, StreamVersion(st, s.id, now), msgs)
    ensures IsRun(s, table, key, mode, st, now, gone, msgs[..cut]) && (mode == Records ==> gone == {})
  {
    hide RunOf, Sweep, AccountsFor, AreGone, OfVersion, StatesCarry, Begin, StreamVersion, RkBookmark;
    PartOfARunIsARun(s, table, key, mode, st, now, gone, msgs, cut);
  }

  /** Runs that died one after the other with the replication key unchanged, and the last one.  The first
      starts from `st`. */
  ghost predicate History(s: Stream, table: set<Row>, key: string, mode: Mode, st: State, now: int,
                          crashes: seq<Crash>, last: seq<Message>, gone: set<Row>)
    decreases |crashes|
  {
    if crashes == [] then
      && IsRun(s, table, key, mode, st, now, gone, last)
      && CompleteBut(table, RkBookmark(Begin(st, s.id, key, now), s.id), gone, Delivered(last))
    else
      var c := crashes[0];
      && IsRun(s, table, key, mode, st, now, c.gone, c.msgs) && c.LeavesAState()
      && History(s, table, key, mode, c.Next(st), c.now, crashes[1..], last, gone)
  }

  /** The bookmark a crash leaves behind is not below the one its run began with, and covers only rows
      that were delivered before it, or are gone.  The version of the run is stored in it. */
  lemma CrashCovers(s: Stream, table: set<Row>, key: string, mode: Mode, st: State, now: int, c: Crash)
    requires IsRun(s, table, key, mode, st, now, c.gone, c.msgs) && c.LeavesAState()
    ensures var from, next := RkBookmark(Begin(st, s.id, key, now), s.id), Begin(c.Next(st), s.id, key, c.now);
            && (c.at.Some? ==> StoredVersion(c.Next(st), s.id) == Some(StreamVersion(st, s.id, now)))
            && (c.at.None? ==> RkBookmark(next, s.id) == from)
            && (c.at.Some? ==>
                  && RkAtMost(from, RkBookmark(next, s.id))
                  && AccountsFor(table, from, Delivered(c.msgs[..c.at.value]), c.gone, RkBookmark(next, s.id)))
  {
    hide AccountsFor, RkBookmark, Begin, Delivered, RkAtMost;
    BeginReads(st, s.id, key, now);
    BeginReads(c.Next(st), s.id, key, c.now);
    if c.at.Some? {
      assert StateAccounts(s, table, Begin(st, s.id, key, now), c.gone, c.msgs, c.at.value);
      assert c.msgs[c.at.value] in c.msgs;
    }
  }

  /** From a state that has a version all runs have that one, however often they die. */
  lemma {:induction false} RestartsKeepTheVersion(s: Stream, table: set<Row>, key: string, mode: Mode, st: State,
                                                  now: int, crashes: seq<Crash>, last: seq<Message>, gone: set<Row>,
                                                  version: int)
    requires History(s, table, key, mode, st, now, crashes, last, gone) && StoredVersion(st, s.id) == Some(version)
    ensures OfVersion(s.id, version, mode, last)
    ensures forall i :: 0 <= i < |crashes| ==> OfVersion(s.id, version, mode, crashes[i].msgs)
    decreases |crashes|
  {
    hide OfVersion, Begin, Delivered, CompleteBut, StoredVersion, RunOf, RkBookmark, RkAtMost, StatesCarry;
    if crashes != [] {
      var c := crashes[0];
      CrashCovers(s, table, key, mode, st, now, c);
      RestartsKeepTheVersion(s, table, key, mode, c.Next(st), c.now, crashes[1..], last, gone, version);
      assert forall i :: 0 < i < |crashes| ==> crashes[i] == crashes[1..][i - 1];
    }
  }

  ghost predicate DeliveredSomewhere(r: Row, crashes: seq<Crash>, last: seq<Message>) {
    r in Delivered(last) || exists i :: 0 <= i < |crashes| && DeliveredBy(r, crashes[i])
  }

  predicate DeliveredBy(r: Row, c: Crash) {
    c.at.Some? && c.at.value <= |c.msgs| && r in Delivered(c.msgs[..c.at.value])
  }

  ghost predicate GoneSomewhere(r: Row, crashes: seq<Crash>, gone: set<Row>) {
    r in gone || exists i :: 0 <= i < |crashes| && r in crashes[i].gone
  }

  /** Over any failures and restarts every row from the first bookmark on is delivered by some run, or was
      gone in some run: in RECORD mode there is no such row. */
  lemma {:induction false} CrashesLoseNothing(s: Stream, table: set<Row>, key: string, mode: Mode, st: State, now: int,
                                              crashes: seq<Crash>, last: seq<Message>, gone: set<Row>, r: Row)
    requires History(s, table, key, mode, st, now, crashes, last, gone)
    requires r in table && RkAtMost(RkBookmark(Begin(st, s.id, key, now), s.id), r.rk)
    ensures DeliveredSomewhere(r, crashes, last) || GoneSomewhere(r, crashes, gone)
    decreases |crashes|
  {
    hide IsRun, RkBookmark, Begin, Delivered, RkAtMost, StreamVersion, StoredVersion;
    if crashes != [] {
      var c := crashes[0];
      CrashCovers(s, table, key, mode, st, now, c);
      if RkAtMost(RkBookmark(Begin(c.Next(st), s.id, key, c.now), s.id), r.rk) {
        CrashesLoseNothing(s, table, key, mode, c.Next(st), c.now, crashes[1..], last, gone, r);
        LaterRunsCount(r, crashes, last, gone);
      } else if r in c.gone {
        assert r in crashes[0].gone;
      } else {
        assert DeliveredBy(r, crashes[0]);
      }
    }
  }

  lemma LaterRunsCount(r: Row, crashes: seq<Crash>, last: seq<Message>, gone: set<Row>)
    requires crashes != []
    ensures DeliveredSomewhere(r, crashes[1..], last) ==> DeliveredSomewhere(r, crashes, last)
    ensures GoneSomewhere(r, crashes[1..], gone) ==> GoneSomewhere(r, crashes, gone)
  {
    hide DeliveredBy;
    forall i | 0 <= i < |crashes[1..]| ensures crashes[1..][i] == crashes[i + 1] {
    }
    if DeliveredSomewhere(r, crashes[1..], last) && r !in Delivered(last) {
      var i :| 0 <= i < |crashes[1..]| && DeliveredBy(r, crashes[1..][i]);
      assert DeliveredBy(r, crashes[i + 1]);
    }
    if GoneSomewhere(r, crashes[1..], gone) && r !in gone {
      var i :| 0 <= i < |crashes[1..]| && r in crashes[1..][i].gone;
      assert r in crashes[i + 1].gone;
    }
  }
}
