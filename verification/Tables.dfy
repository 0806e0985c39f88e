/**
 The source table as its log of changes makes it, and the table that a target builds from the
 messages.

 The source is a log of row changes, in the order of their binlog positions.  The rows of one
 event share a position.  The target keeps one cell for each key: the last record wins, a record
 with `_sdc_deleted_at` leaves a tombstone, and ACTIVATE_VERSION drops the cells of other versions.
 */
module Tables {
  import opened Singer
  import opened FileNames

  /** A row change.  `Move` is an update that changes the key, `Elsewhere` an event that does not
      touch the table. */
  datatype Change = Put(row: Row) | Remove(row: Row) | Move(from: int, row: Row) | Elsewhere

  datatype Entry = Entry(at: Pos, change: Change)

  /** The rows before the log begins, the log so far, and the server's current coordinates. */
  datatype Source = Source(base: map<int, Row>, log: seq<Entry>, here: Pos) {

    ghost predicate Valid() {
      && NeverBack(Times())
      && (forall i :: 0 <= i < |log| ==> Before(log[i].at, here))
      && here.file != "" && 0 < here.offset
    }

    function Times(): (ats: seq<Pos>)
      ensures |ats| == |log|
    {
      seq(|log|, i requires 0 <= i < |log| => log[i].at)
    }

    /** How many changes the log holds before the coordinates. */
    function Clock(p: Pos): (n: nat)
      ensures n <= |log|
    {
      CountBefore(Times(), p)
    }

    /** The row of the key once the first `n` changes are made. */
    function Value(n: nat, k: int): Option<Row>
      requires n <= |log|
    {
      if n == 0 then (if k in base then Some(base[k]) else None)
      else Effect(log[n - 1].change, k, Value(n - 1, k))
    }
  }

  function Effect(c: Change, k: int, before: Option<Row>): Option<Row> {
    match c
    case Put(row) => if row.pk == k then Some(row) else before
    case Remove(row) => if row.pk == k then None else before
    case Move(from, row) => if row.pk == k then Some(row) else if from == k then None else before
    case Elsewhere => before
  }

  datatype Cell = Cell(row: Row, version: int, deleted: bool)

  type Target = map<int, Cell>

  /** What the target shows for the key. */
  function View(target: Target, k: int): Option<Row> {
    if k in target && !target[k].deleted then Some(target[k].row) else None
  }

  /** ACTIVATE_VERSION. */
  function Activate(target: Target, version: int): Target {
    map k | k in target && target[k].version == version :: target[k]
  }

  /** RECORD. */
  function Upsert(target: Target, row: Row, version: int, deleted: bool): Target {
    target[row.pk := Cell(row, version, deleted)]
  }

  /** What the three row event handlers make of a change: an update sends its new row only. */
  function Replay(target: Target, c: Change, version: int): Target {
    match c
    case Put(row) => Upsert(target, row, version, false)
    case Remove(row) => Upsert(target, row, version, true)
    case Move(_, row) => Upsert(target, row, version, false)
    case Elsewhere => target
  }

  /** A target that shows the table before a change shows the table after it, unless an update
      took a row that exists to another key: then the old row stays. */
  lemma ReplayTracksExactlyWhenKeysStay(target: Target, c: Change, version: int)
    ensures (forall k :: View(Replay(target, c, version), k) == Effect(c, k, View(target, k)))
       <==> (c.Move? && c.from != c.row.pk ==> View(target, c.from) == None)
  {
    if c.Move? && c.from != c.row.pk {
      assert Effect(c, c.from, View(target, c.from)) == None;
      assert View(Replay(target, c, version), c.from) == View(target, c.from);
    }
  }

  /** Row 1 becomes row 2: the target shows both. */
  lemma MovedRowStays()
    ensures var target: Target, c := map[1 := Cell(Row(1, None, "a"), 1, false)], Move(1, Row(2, None, "a"));
            var after := Replay(target, c, 1);
            && View(after, 1) == Some(Row(1, None, "a")) && View(after, 2) == Some(Row(2, None, "a"))
            && Effect(c, 1, View(target, 1)) == None
  {
  }

  // ----- a table read at many times -----

  /** What the target shows for the key is what the source held at some time in the range. */
  ghost predicate Seen(source: Source, target: Target, k: int, lo: nat, hi: nat) {
    exists t :: lo <= t <= hi && t <= |source.log| && View(target, k) == source.Value(t, k)
  }

  /** The key had no row at some time in the range. */
  ghost predicate Absent(source: Source, k: int, lo: nat, hi: nat) {
    exists t :: lo <= t <= hi && t <= |source.log| && source.Value(t, k) == None
  }

  /** Every update keeps its key. */
  ghost predicate KeysStay(log: seq<Entry>) {
    forall i :: 0 <= i < |log| && log[i].change.Move? ==> log[i].change.from == log[i].change.row.pk
  }

  /** The source commits more changes, at coordinates not seen before. */
  ghost predicate Commits(before: Source, entries: seq<Entry>, after: Source) {
    && after.base == before.base
    && after.log == before.log + entries
    && (forall e :: e in entries ==> AtMost(before.here, e.at))
    && AtMost(before.here, after.here)
    && KeysStay(entries)
    && after.Valid()
  }

  lemma {:induction false} CommitKeepsValues(before: Source, entries: seq<Entry>, after: Source, n: nat, k: int)
    requires Commits(before, entries, after) && n <= |before.log|
    ensures after.Value(n, k) == before.Value(n, k)
    decreases n
  {
    if n == 0 {
      assert after.Value(0, k) == before.Value(0, k);
    } else {
      CommitKeepsValues(before, entries, after, n - 1, k);
      assert after.log[n - 1] == before.log[n - 1];
    }
  }

  lemma SeenLater(before: Source, entries: seq<Entry>, after: Source, target: Target, k: int, lo: nat, hi: nat,
                  later: nat)
    requires Commits(before, entries, after) && Seen(before, target, k, lo, hi) && hi <= later
    ensures Seen(after, target, k, lo, later)
  {
    var t :| lo <= t <= hi && t <= |before.log| && View(target, k) == before.Value(t, k);
    CommitKeepsValues(before, entries, after, t, k);
    assert View(target, k) == after.Value(t, k);
  }

  lemma SeenWider(source: Source, target: Target, k: int, lo: nat, hi: nat, lower: nat, higher: nat)
    requires Seen(source, target, k, lo, hi) && lower <= lo && hi <= higher
    ensures Seen(source, target, k, lower, higher)
  {
    var t :| lo <= t <= hi && t <= |source.log| && View(target, k) == source.Value(t, k);
    assert View(target, k) == source.Value(t, k);
  }

  /** Some change between the two times is about the key. */
  ghost predicate Touched(source: Source, k: int, from: nat, upto: nat) {
    exists i :: from <= i < upto && i < |source.log| && About(source.log[i].change, k)
  }

  /** The change is about the key. */
  predicate About(c: Change, k: int) {
    !c.Elsewhere? && c.row.pk == k
  }

  /** Between two times at which its row differs the key was touched. */
  lemma {:induction false} UntouchedStays(source: Source, k: int, from: nat, upto: nat)
    requires from <= upto <= |source.log| && KeysStay(source.log) && !Touched(source, k, from, upto)
    ensures source.Value(from, k) == source.Value(upto, k)
    decreases upto
  {
    if from < upto {
      assert !About(source.log[upto - 1].change, k);
      UntouchedStays(source, k, from, upto - 1);
    }
  }

  lemma TouchedLater(before: Source, entries: seq<Entry>, after: Source, k: int, from: nat, upto: nat)
    requires Commits(before, entries, after) && upto <= |before.log|
    ensures Touched(after, k, from, upto) <==> Touched(before, k, from, upto)
  {
    assert forall i :: 0 <= i < |before.log| ==> after.log[i] == before.log[i];
    if Touched(before, k, from, upto) {
      var i :| from <= i < upto && i < |before.log| && About(before.log[i].change, k);
      assert About(after.log[i].change, k);
    }
  }

  lemma AbsentLater(before: Source, entries: seq<Entry>, after: Source, k: int, lo: nat, hi: nat, later: nat)
    requires Commits(before, entries, after) && Absent(before, k, lo, hi) && hi <= later
    ensures Absent(after, k, lo, later)
  {
    var t :| lo <= t <= hi && t <= |before.log| && before.Value(t, k) == None;
    CommitKeepsValues(before, entries, after, t, k);
    assert after.Value(t, k) == None;
  }

  lemma AbsentWider(source: Source, k: int, lo: nat, hi: nat, lower: nat, higher: nat)
    requires Absent(source, k, lo, hi) && lower <= lo && hi <= higher
    ensures Absent(source, k, lower, higher)
  {
    var t :| lo <= t <= hi && t <= |source.log| && source.Value(t, k) == None;
    assert source.Value(t, k) == None;
  }

  lemma ClockSplits(source: Source, p: Pos)
    requires source.Valid()
    ensures forall i :: 0 <= i < |source.log| ==> (Before(source.log[i].at, p) <==> i < source.Clock(p))
  {
    var ats := source.Times();
    CountSplits(ats, p);
    forall i | 0 <= i < |source.log| ensures Before(source.log[i].at, p) <==> i < source.Clock(p) {
      assert ats[i] == source.log[i].at;
    }
  }

  /** A count that splits the log at the coordinates is their clock. */
  lemma ClockIs(source: Source, p: Pos, n: nat)
    requires source.Valid() && n <= |source.log|
    requires forall i :: 0 <= i < |source.log| ==> (Before(source.log[i].at, p) <==> i < n)
    ensures source.Clock(p) == n
  {
    var m := source.Clock(p);
    ClockSplits(source, p);
    if m < |source.log| { assert Before(source.log[m].at, p) <==> m < n; }
    if n < |source.log| { assert Before(source.log[n].at, p) <==> n < m; }
  }

  /** The current coordinates stand for everything committed so far. */
  lemma ClockHere(source: Source)
    requires source.Valid()
    ensures source.Clock(source.here) == |source.log|
  {
    ClockIs(source, source.here, |source.log|);
  }

  lemma ClockMonotone(source: Source, p: Pos, q: Pos)
    requires source.Valid() && AtMost(p, q)
    ensures source.Clock(p) <= source.Clock(q)
  {
    ClockSplits(source, p);
    ClockSplits(source, q);
    var m := source.Clock(q);
    if m < |source.log| && Before(source.log[m].at, p) {
      BeforeTransitive(source.log[m].at, p, q);
    }
  }

  /** Coordinates that were taken keep their meaning. */
  lemma ClockStays(before: Source, entries: seq<Entry>, after: Source, p: Pos)
    requires before.Valid() && Commits(before, entries, after) && AtMost(p, before.here)
    ensures after.Clock(p) == before.Clock(p)
  {
    ClockSplits(before, p);
    forall i | 0 <= i < |after.log| ensures Before(after.log[i].at, p) <==> i < before.Clock(p) {
      if i < |before.log| {
        assert after.log[i] == before.log[i];
      } else {
        NotBeforeHere(before, entries, p, i - |before.log|);
        assert after.log[i] == entries[i - |before.log|];
      }
    }
    ClockIs(after, p, before.Clock(p));
  }

  lemma NotBeforeHere(before: Source, entries: seq<Entry>, p: Pos, i: nat)
    requires (forall e :: e in entries ==> AtMost(before.here, e.at)) && AtMost(p, before.here) && i < |entries|
    ensures !Before(entries[i].at, p)
  {
    assert entries[i] in entries;
    BeforeTransitive(p, before.here, entries[i].at);
    BeforeTotal(p, entries[i].at);
  }

  /** One change replayed moves the lower bound of every key past it. */
  lemma ReplayAdvances(source: Source, target: Target, version: int, n: nat, hi: nat, k: int)
    requires n < |source.log| && n < hi && KeysStay(source.log)
    requires Seen(source, target, k, n, hi)
    ensures Seen(source, Replay(target, source.log[n].change, version), k, n + 1, hi)
  {
    var c := source.log[n].change;
    var after := Replay(target, c, version);
    assert source.Value(n + 1, k) == Effect(c, k, source.Value(n, k));
    if !c.Elsewhere? && c.row.pk == k {
      assert View(after, k) == source.Value(n + 1, k);
    } else {
      assert View(after, k) == View(target, k);
      assert source.Value(n + 1, k) == source.Value(n, k);
      var t :| n <= t <= hi && t <= |source.log| && View(target, k) == source.Value(t, k);
      assert View(after, k) == source.Value(if t == n then n + 1 else t, k);
    }
  }

  // ----- feeding messages to the target -----

  /** What the target does with a message of the stream.  A BATCH message has no version in it; what
      a target makes of its file is not part of this model. */
  function Feed(target: Target, m: Message): Target {
    match m
    case Record(_, row, version) => Upsert(target, row, version, false)
    case ActivateVersion(_, version) => Activate(target, version)
    case _ => target
  }

  function FeedAll(target: Target, msgs: seq<Message>): Target {
    if msgs == [] then target else Feed(FeedAll(target, msgs[..|msgs| - 1]), msgs[|msgs| - 1])
  }

  lemma FeedOneMore(target: Target, msgs: seq<Message>, m: Message)
    ensures FeedAll(target, msgs + [m]) == Feed(FeedAll(target, msgs), m)
  {
    assert (msgs + [m])[..|msgs|] == msgs;
  }

  lemma {:induction false} FeedConcat(target: Target, a: seq<Message>, b: seq<Message>)
    ensures FeedAll(target, a + b) == FeedAll(FeedAll(target, a), b)
    decreases |b|
  {
    if b == [] {
      assert a + b == a;
    } else {
      FeedConcat(target, a, b[..|b| - 1]);
      assert (a + b)[..|a + b| - 1] == a + b[..|b| - 1];
    }
  }

  /** The changes from time `from` up to time `upto`, one after the other. */
  function ReplayAll(source: Source, target: Target, version: int, from: nat, upto: nat): Target
    requires from <= upto <= |source.log|
    decreases upto
  {
    if from == upto then target
    else Replay(ReplayAll(source, target, version, from, upto - 1), source.log[upto - 1].change, version)
  }

  /** After a replay a key that was touched is up to date, and any other is as it was, here and at
      the source. */
  lemma {:induction false} ReplayAllView(source: Source, target: Target, version: int, from: nat, upto: nat, k: int)
    requires from <= upto <= |source.log| && KeysStay(source.log)
    ensures View(ReplayAll(source, target, version, from, upto), k)
         == if Touched(source, k, from, upto) then source.Value(upto, k) else View(target, k)
    ensures !Touched(source, k, from, upto) ==>
              forall t :: from <= t <= upto ==> source.Value(t, k) == source.Value(upto, k)
    decreases upto
  {
    if from < upto {
      var c := source.log[upto - 1].change;
      ReplayAllView(source, target, version, from, upto - 1, k);
      assert source.Value(upto, k) == Effect(c, k, source.Value(upto - 1, k));
      if About(c, k) {
        assert Touched(source, k, from, upto);
      } else {
        assert Touched(source, k, from, upto) <==> Touched(source, k, from, upto - 1);
      }
    }
  }

  // ----- the table as a query reads it -----

  /** Each key once, in whatever order. */
  ghost predicate Distinct(table: seq<Row>) {
    forall i, j :: 0 <= i < j < |table| ==> table[i].pk != table[j].pk
  }

  /** The row with the key is among the rows. */
  predicate HasKey(rows: seq<Row>, k: int) {
    exists i :: 0 <= i < |rows| && rows[i].pk == k
  }

  /** The rows of a table with the key all are the same row. */
  lemma OneRowForTheKey(table: seq<Row>, a: Row, b: Row)
    requires Distinct(table) && a in table && b in table && a.pk == b.pk
    ensures a == b
  {
    var i :| 0 <= i < |table| && table[i] == a;
    var j :| 0 <= j < |table| && table[j] == b;
  }

  /** The row of the table with the key. */
  function RowOf(table: seq<Row>, k: int): Option<Row> {
    if table == [] then None
    else if table[0].pk == k then Some(table[0]) else RowOf(table[1..], k)
  }

  lemma {:induction false} RowOfIs(table: seq<Row>, r: Row)
    requires Distinct(table) && r in table
    ensures RowOf(table, r.pk) == Some(r)
  {
    if table[0].pk == r.pk {
      OneRowForTheKey(table, table[0], r);
    } else {
      assert r in table[1..];
      RowOfIs(table[1..], r);
    }
  }

  lemma {:induction false} RowOfNone(table: seq<Row>, k: int)
    ensures RowOf(table, k) == None <==> !HasKey(table, k)
  {
    if table != [] {
      RowOfNone(table[1..], k);
      if HasKey(table[1..], k) {
        var i :| 0 <= i < |table[1..]| && table[1..][i].pk == k;
        assert table[i + 1].pk == k;
      }
      if HasKey(table, k) && table[0].pk != k {
        var i :| 0 <= i < |table| && table[i].pk == k;
        assert table[1..][i - 1].pk == k;
      }
    }
  }

  /** The table reads so at the time. */
  ghost predicate TableAt(source: Source, t: nat, table: seq<Row>)
    requires t <= |source.log|
  {
    Distinct(table) && forall k :: source.Value(t, k) == RowOf(table, k)
  }
}
