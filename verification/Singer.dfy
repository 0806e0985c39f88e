/**
 Bookmarks, STATE values and the messages the tap writes to standard output.

 A STATE message carries a deep copy of the state, so a state is a value here.
 */
module Singer {

  datatype Option<+T> = None | Some(value: T)

  type StreamId = string

  /** What a bookmark field can hold.  `Key` is the dictionary from the one key column to its
      value, as in `max_pk_values` and `last_pk_fetched`. */
  datatype Value = Null | Num(n: int) | Text(s: string) | Flag(b: bool) | Key(pk: int)

  /** Python truth: a null, a zero, an empty string and a false flag do not count. A dictionary
      with one entry always does, whatever the value in it. */
  predicate Truthy(v: Value) {
    match v
    case Null => false
    case Num(n) => n != 0
    case Text(s) => s != ""
    case Flag(b) => b
    case Key(_) => true
  }

  datatype Field =
    | LogFile | LogPos | Gtid | Version
    | MaxPk | LastPk
    | ReplicationKey | ReplicationKeyValue
    | InitialFullTableComplete | InitialBinlogComplete

  type Bookmark = map<Field, Value>

  datatype State = State(bookmarks: map<StreamId, Bookmark>, currentlySyncing: Option<StreamId>)

  function BookmarkOf(st: State, id: StreamId): Bookmark {
    if id in st.bookmarks then st.bookmarks[id] else map[]
  }

  function FieldOf(b: Bookmark, f: Field): Value {
    if f in b then b[f] else Null
  }

  /** `singer.get_bookmark`: a missing stream or field reads as null. */
  function Get(st: State, id: StreamId, f: Field): Value {
    FieldOf(BookmarkOf(st, id), f)
  }

  function Put(st: State, id: StreamId, b: Bookmark): State {
    st.(bookmarks := st.bookmarks[id := b])
  }

  lemma PutTwice(st: State, id: StreamId, first: Bookmark, second: Bookmark)
    ensures Put(Put(st, id, first), id, second) == Put(st, id, second) && BookmarkOf(Put(st, id, first), id) == first
  {
    assert st.bookmarks[id := first][id := second] == st.bookmarks[id := second];
  }

  /** `singer.write_bookmark`. */
  function Write(st: State, id: StreamId, f: Field, v: Value): State {
    Put(st, id, BookmarkOf(st, id)[f := v])
  }

  /** `singer.clear_bookmark`: creates the stream's entry when there is none. */
  function Clear(st: State, id: StreamId, f: Field): State {
    Put(st, id, BookmarkOf(st, id) - {f})
  }

  /** `whitelist_bookmark_keys`: drop every field that is not in `keep`. */
  function Whitelist(st: State, id: StreamId, keep: set<Field>): State {
    if BookmarkOf(st, id).Keys <= keep then st
    else Put(st, id, map f | f in BookmarkOf(st, id) && f in keep :: BookmarkOf(st, id)[f])
  }

  /** `get_stream_version`: the stored version, or the time now. */
  function StreamVersion(st: State, id: StreamId, now: int): int {
    VersionAt(StoredVersion(st, id), now)
  }

  function StoredVersion(st: State, id: StreamId): Option<int> {
    match Get(st, id, Version)
    case Num(n) => Some(n)
    case _ => None
  }

  function VersionAt(stored: Option<int>, now: int): int {
    if stored.Some? then stored.value else now
  }

  /** A row of the one-column-key tables of this model.  `rk` is the replication key value. */
  datatype Row = Row(pk: int, rk: Option<int>, data: string)

  /** `Change` is the RECORD message of a binlog row, column by column. */
  datatype Message =
    | Record(stream: StreamId, row: Row, version: int)
    | Batch(stream: StreamId, rows: seq<Row>)
    | Schema(stream: StreamId, properties: set<string>)
    | Change(stream: StreamId, record: map<string, string>, version: int)
    | ActivateVersion(stream: StreamId, version: int)
    | StateMessage(state: State)

  /** The rows one message carries to the target. */
  function Rows(m: Message): seq<Row> {
    match m
    case Record(_, row, _) => [row]
    case Batch(_, rows) => rows
    case _ => []
  }

  /** The rows a run of messages delivers to the target, in order. */
  function Delivered(msgs: seq<Message>): seq<Row> {
    if msgs == [] then [] else Delivered(msgs[..|msgs| - 1]) + Rows(msgs[|msgs| - 1])
  }

  /** How many of the messages are STATE messages. */
  function CountStates(msgs: seq<Message>): nat {
    if msgs == [] then 0
    else CountStates(msgs[..|msgs| - 1]) + (if msgs[|msgs| - 1].StateMessage? then 1 else 0)
  }

  /** The rows delivered after the last STATE message: what a restart from it repeats. */
  function Tail(msgs: seq<Message>): seq<Row> {
    if msgs == [] || msgs[|msgs| - 1].StateMessage? then []
    else Tail(msgs[..|msgs| - 1]) + Rows(msgs[|msgs| - 1])
  }

  lemma OneMore(msgs: seq<Message>, m: Message)
    ensures Delivered(msgs + [m]) == Delivered(msgs) + Rows(m)
    ensures CountStates(msgs + [m]) == CountStates(msgs) + (if m.StateMessage? then 1 else 0)
    ensures Tail(msgs + [m]) == if m.StateMessage? then [] else Tail(msgs) + Rows(m)
  {
    assert (msgs + [m])[..|msgs|] == msgs;
  }

  lemma {:induction false} DeliveredConcat(a: seq<Message>, b: seq<Message>)
    ensures Delivered(a + b) == Delivered(a) + Delivered(b)
  {
    if b == [] {
      assert a + b == a;
    } else {
      var c, m := b[..|b| - 1], b[|b| - 1];
      DeliveredConcat(a, c);
      assert (a + b)[..|a + b| - 1] == a + c;
      Associative(Delivered(a), Delivered(c), Rows(m));
    }
  }

  lemma Associative<T>(a: seq<T>, b: seq<T>, c: seq<T>)
    ensures (a + b) + c == a + (b + c)
  {
  }

  lemma Nothing<T>(a: seq<T>)
    ensures a + [] == a
  {
  }

  lemma {:induction false} CountConcat(a: seq<Message>, b: seq<Message>)
    ensures CountStates(a + b) == CountStates(a) + CountStates(b)
  {
    if b == [] {
      assert a + b == a;
    } else {
      var c, m := b[..|b| - 1], b[|b| - 1];
      assert a + b == (a + c) + [m] && b == c + [m];
      CountConcat(a, c);
      OneMore(a + c, m);
      OneMore(c, m);
    }
  }

  lemma {:induction false} TailConcat(a: seq<Message>, b: seq<Message>)
    ensures Tail(a + b) == if CountStates(b) == 0 then Tail(a) + Delivered(b) else Tail(b)
  {
    if b == [] {
      assert a + b == a;
    } else {
      var c, m := b[..|b| - 1], b[|b| - 1];
      assert a + b == (a + c) + [m] && b == c + [m];
      TailConcat(a, c);
      OneMore(a + c, m);
      OneMore(c, m);
    }
  }
}
