/**
 Where a binlog run starts: `get_min_log_pos_per_log_file` and `calculate_bookmark`.
 */
module StartPosition {
  import opened Singer
  import opened FileNames

  /** The streams of the run that have a bookmark. */
  function Bookmarked(st: State, streams: set<StreamId>): set<StreamId> {
    st.bookmarks.Keys * streams
  }

  /** The coordinates in a stream's bookmark. */
  function PosOf(st: State, id: StreamId): Pos {
    Pos(if Get(st, id, LogFile).Text? then Get(st, id, LogFile).s else "",
        if Get(st, id, LogPos).Num? then Get(st, id, LogPos).n else 0)
  }

  /** Neither coordinate is null: so it is for a stream that is ready for the binlog by file and
      position. */
  predicate HasCoordinates(st: State, id: StreamId) {
    Get(st, id, LogFile).Text? && Get(st, id, LogPos).Num?
  }

  datatype MinPos = MinPos(logPos: int, streams: set<StreamId>)

  /** Some stream's bookmark is in the file. */
  ghost predicate InUse(st: State, ids: set<StreamId>, f: string) {
    exists id :: id in ids && PosOf(st, id).file == f
  }

  /** The entry of a file: the least position of the streams in it, which some stream has. */
  ghost predicate IsMinOf(st: State, ids: set<StreamId>, f: string, min: MinPos) {
    && min.streams == (set id | id in ids && PosOf(st, id).file == f)
    && (forall id :: id in min.streams ==> min.logPos <= PosOf(st, id).offset)
    && exists id :: id in min.streams && PosOf(st, id).offset == min.logPos
  }

  ghost predicate MinPerFile(st: State, ids: set<StreamId>, found: map<string, MinPos>) {
    && (forall f :: f in found <==> InUse(st, ids, f))
    && (forall f :: f in found ==> IsMinOf(st, ids, f, found[f]))
  }

  /** The dictionary of bookmarks may be walked in any order. */
  method GetMinLogPosPerLogFile(st: State, streams: set<StreamId>) returns (found: map<string, MinPos>)
    requires forall id :: id in Bookmarked(st, streams) ==> HasCoordinates(st, id)
    ensures MinPerFile(st, Bookmarked(st, streams), found)
  {
    found := map[];
    var todo := st.bookmarks.Keys;
    ghost var done: set<StreamId> := {};
    while todo != {}
      invariant todo <= st.bookmarks.Keys
      invariant done == (st.bookmarks.Keys - todo) * streams
      invariant MinPerFile(st, done, found)
      decreases |todo|
    {
      var id :| id in todo;
      todo := todo - {id};
      if id in streams {
        assert id in Bookmarked(st, streams);
        assert HasCoordinates(st, id);
        ghost var before := found;
        found := Merge(found, id, Get(st, id, LogFile).s, Get(st, id, LogPos).n);
        OneMoreStream(st, done, before, found, id);
        done := done + {id};
      }
    }
    assert done == Bookmarked(st, streams);
  }

  /** One more bookmark: a new file, a new least position, or just one more stream. */
  method Merge(found: map<string, MinPos>, id: StreamId, logFile: string,
               logPos: int) returns (merged: map<string, MinPos>)
    ensures merged == found[logFile :=
              if logFile !in found then MinPos(logPos, {id})
              else MinPos(if found[logFile].logPos > logPos then logPos else found[logFile].logPos,
                          found[logFile].streams + {id})]
  {
    if logFile !in found {
      merged := found[logFile := MinPos(logPos, {id})];
    } else if found[logFile].logPos > logPos {
      merged := found[logFile := MinPos(logPos, found[logFile].streams + {id})];
    } else {
      merged := found[logFile := MinPos(found[logFile].logPos, found[logFile].streams + {id})];
    }
  }

  lemma OneMoreStream(st: State, done: set<StreamId>, before: map<string, MinPos>, after: map<string, MinPos>,
                      id: StreamId)
    requires MinPerFile(st, done, before) && id !in done
    requires var p := PosOf(st, id);
             after == before[p.file :=
               if p.file !in before then MinPos(p.offset, {id})
               else MinPos(if before[p.file].logPos > p.offset then p.offset else before[p.file].logPos,
                           before[p.file].streams + {id})]
    ensures MinPerFile(st, done + {id}, after)
  {
    var p := PosOf(st, id);
    forall f ensures f in after <==> InUse(st, done + {id}, f) {
      if f == p.file {
        assert id in done + {id} && PosOf(st, id).file == f;
      } else {
        OtherFile(st, done, id, f);
      }
    }
    forall f | f in after ensures IsMinOf(st, done + {id}, f, after[f]) {
      if f != p.file {
        OtherFile(st, done, id, f);
        assert IsMinOf(st, done, f, before[f]);
      } else {
        SameFile(st, done, before, id, after[f]);
      }
    }
  }

  /** A file that the new stream is not in keeps its entry. */
  lemma OtherFile(st: State, done: set<StreamId>, id: StreamId, f: string)
    requires PosOf(st, id).file != f
    ensures InUse(st, done + {id}, f) <==> InUse(st, done, f)
    ensures forall min :: IsMinOf(st, done, f, min) ==> IsMinOf(st, done + {id}, f, min)
  {
    if InUse(st, done, f) {
      var x :| x in done && PosOf(st, x).file == f;
      assert x in done + {id};
    }
    assert (set x | x in done + {id} && PosOf(st, x).file == f) == (set x | x in done && PosOf(st, x).file == f);
  }

  lemma SameFile(st: State, done: set<StreamId>, before: map<string, MinPos>, id: StreamId, min: MinPos)
    requires MinPerFile(st, done, before) && id !in done
    requires var p := PosOf(st, id);
             min == if p.file !in before then MinPos(p.offset, {id})
                    else MinPos(if before[p.file].logPos > p.offset then p.offset else before[p.file].logPos,
                                before[p.file].streams + {id})
    ensures IsMinOf(st, done + {id}, PosOf(st, id).file, min)
  {
    var f := PosOf(st, id).file;
    var ids := set x | x in done + {id} && PosOf(st, x).file == f;
    if f in before {
      assert IsMinOf(st, done, f, before[f]);
      var x :| x in before[f].streams && PosOf(st, x).offset == before[f].logPos;
      assert ids == before[f].streams + {id};
      assert x in min.streams && id in min.streams;
    } else {
      assert !InUse(st, done, f);
      assert ids == {id};
      assert id in min.streams;
    }
  }

  /** The server still has the file of each of the streams. */
  ghost predicate AllOnServer(st: State, ids: set<StreamId>, serverLogs: seq<string>) {
    forall id :: id in ids ==> PosOf(st, id).file in serverLogs
  }

  datatype Start = At(pos: Pos) | Expired(files: set<string>) | NoLogs

  /** The least name in a set of names, which `sorted` puts first. */
  ghost predicate IsFirst(f: string, names: set<string>) {
    f in names && forall g :: g in names ==> !Less(g, f)
  }

  /** The first name of the set, found by comparing each with the best so far. */
  method First(names: set<string>) returns (first: string)
    requires names != {}
    ensures IsFirst(first, names)
  {
    first :| first in names;
    var todo := names - {first};
    LessIrreflexive(first);
    while todo != {}
      invariant todo <= names && first in names
      invariant forall g :: g in names - todo ==> !Less(g, first)
      decreases |todo|
    {
      var g :| g in todo;
      todo := todo - {g};
      if Less(g, first) {
        forall h | h in names - todo ensures !Less(h, g) {
          LessIrreflexive(g);
          if h != g && Less(h, g) { LessTransitive(h, g, first); }
        }
        first := g;
      }
    }
  }

  /** The position is the one of a stream of the run, and no stream's lies before it. */
  ghost predicate IsEarliest(st: State, ids: set<StreamId>, pos: Pos) {
    && (exists id :: id in ids && PosOf(st, id) == pos)
    && forall id :: id in ids ==> AtMost(pos, PosOf(st, id))
  }

  /** The run starts at the least coordinates of its streams, in the order that the binlog loop
      itself compares by, and refuses to start exactly when a stream's file is gone or there is no bookmark. */
  method CalculateBookmark(st: State, streams: set<StreamId>, serverLogs: seq<string>) returns (start: Start)
    requires forall id :: id in Bookmarked(st, streams) ==> HasCoordinates(st, id)
    ensures start.At? ==> IsEarliest(st, Bookmarked(st, streams), start.pos)
    ensures start.At? <==> Bookmarked(st, streams) != {} && AllOnServer(st, Bookmarked(st, streams), serverLogs)
    ensures start.Expired? ==>
              forall f :: f in start.files <==> f !in serverLogs && InUse(st, Bookmarked(st, streams), f)
    ensures start.NoLogs? <==> serverLogs == [] || Bookmarked(st, streams) == {}
  {
    var found := GetMinLogPosPerLogFile(st, streams);
    ghost var ids := Bookmarked(st, streams);
    if serverLogs == [] {
      assert forall id :: id in ids ==> PosOf(st, id).file !in serverLogs;
      return NoLogs;
    }
    var serverLogsSet := set f | f in serverLogs;
    var expired := found.Keys - serverLogsSet;
    if expired != {} {
      ghost var f :| f in expired;
      assert f !in serverLogs && InUse(st, ids, f);
      return Expired(expired);
    }
    FilesAreOnServer(st, ids, found, serverLogsSet);
    assert forall id :: id in ids ==> InUse(st, ids, PosOf(st, id).file);
    var todo := serverLogsSet;
    while todo != {}
      invariant todo <= serverLogsSet
      invariant found.Keys <= todo
      decreases |todo|
    {
      var logFile := First(todo);
      if logFile in found {
        EarliestIsFirst(st, ids, found, todo, logFile);
        return At(Pos(logFile, found[logFile].logPos));
      }
      todo := todo - {logFile};
    }
    start := NoLogs;
  }

  lemma FilesAreOnServer(st: State, ids: set<StreamId>, found: map<string, MinPos>, serverLogs: set<string>)
    requires MinPerFile(st, ids, found) && found.Keys - serverLogs == {}
    ensures found.Keys <= serverLogs
    ensures forall id :: id in ids ==> PosOf(st, id).file in serverLogs
  {
    forall f | f in found.Keys ensures f in serverLogs {
      assert f !in found.Keys - serverLogs;
    }
    forall id | id in ids ensures PosOf(st, id).file in serverLogs {
      assert InUse(st, ids, PosOf(st, id).file);
    }
  }

  lemma EarliestIsFirst(st: State, ids: set<StreamId>, found: map<string, MinPos>, todo: set<string>, f: string)
    requires MinPerFile(st, ids, found) && found.Keys <= todo && IsFirst(f, todo) && f in found
    ensures IsEarliest(st, ids, Pos(f, found[f].logPos))
  {
    var p := Pos(f, found[f].logPos);
    assert IsMinOf(st, ids, f, found[f]);
    var x :| x in found[f].streams && PosOf(st, x).offset == found[f].logPos;
    assert x in ids && PosOf(st, x) == p;
    forall id | id in ids ensures AtMost(p, PosOf(st, id)) {
      LessTotal(f, PosOf(st, id).file);
      assert InUse(st, ids, PosOf(st, id).file);
      assert PosOf(st, id).file in todo;
      if PosOf(st, id).file == f { assert id in found[f].streams; }
    }
  }

  // ----- GTID mode -----

  datatype GtidStart = FromGtid(gtid: string) | NoGtid | Malformed

  /** `str.split`. */
  function Split(s: string, sep: char): (parts: seq<string>)
    ensures parts != []
  {
    if s == "" then [""]
    else if s[0] == sep then [""] + Split(s[1..], sep)
    else [[s[0]] + Split(s[1..], sep)[0]] + Split(s[1..], sep)[1..]
  }

  predicate IsNumber(s: string) {
    s != "" && forall i :: 0 <= i < |s| ==> '0' <= s[i] <= '9'
  }

  function NumberOf(s: string): nat
    requires forall i :: 0 <= i < |s| ==> '0' <= s[i] <= '9'
  {
    if s == "" then 0 else 10 * NumberOf(s[..|s| - 1]) + (s[|s| - 1] as int - '0' as int)
  }

  /** It is read digit by digit, in the decimal system. */
  lemma {:induction false} NumberOfDigits(n: nat, width: nat)
    requires n < Pow10(width)
    ensures (width > 0 ==> IsNumber(Digits(n, width)))
    ensures forall i :: 0 <= i < width ==> '0' <= Digits(n, width)[i] <= '9'
    ensures NumberOf(Digits(n, width)) == n
    decreases width
  {
    if width > 0 {
      NumberOfDigits(n / 10, width - 1);
      DigitIs(n % 10);
      NumberOfOneMore(Digits(n / 10, width - 1), "0123456789"[n % 10]);
    }
  }

  lemma DigitIs(d: nat)
    requires d < 10
    ensures "0123456789"[d] as int == '0' as int + d
  {
  }

  lemma NumberOfOneMore(front: string, c: char)
    requires '0' <= c <= '9' && forall i :: 0 <= i < |front| ==> '0' <= front[i] <= '9'
    ensures IsNumber(front + [c]) && NumberOf(front + [c]) == 10 * NumberOf(front) + (c as int - '0' as int)
  {
    OneMoreDigit(front, c);
    NumberOfLast(front, c, front + [c]);
  }

  lemma OneMoreDigit(front: string, c: char)
    requires '0' <= c <= '9' && forall i :: 0 <= i < |front| ==> '0' <= front[i] <= '9'
    ensures IsNumber(front + [c])
  {
  }

  lemma NumberOfLast(front: string, c: char, all: string)
    requires all == front + [c] && forall i :: 0 <= i < |all| ==> '0' <= all[i] <= '9'
    requires forall i :: 0 <= i < |front| ==> '0' <= front[i] <= '9'
    ensures NumberOf(all) == 10 * NumberOf(front) + (c as int - '0' as int)
  {
    assert all[..|all| - 1] == front;
  }

  /** `int` on a string of digits; it raises on any other. */
  function IntOf(s: string): Option<int> {
    if IsNumber(s) then Some(NumberOf(s)) else None
  }

  /** The sequence number as the tap reads it: the third part of a MariaDB GTID, and of a MySQL one the
      end of the interval behind the server's id. */
  function SeqNoOf(gtid: string, mariaDb: bool): Option<int> {
    if mariaDb then
      var parts := Split(gtid, '-');
      if |parts| > 2 then IntOf(parts[2]) else None
    else
      var parts := Split(gtid, ':');
      if |parts| < 2 then None else
        var interval := Split(parts[1], '-');
        IntOf(if |interval| > 1 then interval[1] else parts[1])
  }

  /** The number by which GTIDs are compared. */
  function SeqNo(mariaDb: bool): string -> int {
    (gtid: string) => if SeqNoOf(gtid, mariaDb).Some? then SeqNoOf(gtid, mariaDb).value else 0
  }

  lemma {:induction false} SplitApart(first: string, sep: char, rest: string)
    requires sep !in first
    ensures Split(first + [sep] + rest, sep) == [first] + Split(rest, sep)
  {
    var s := first + [sep] + rest;
    if first == "" {
      assert s[0] == sep && s[1..] == rest;
    } else {
      SplitApart(first[1..], sep, rest);
      assert s[0] == first[0] && s[1..] == first[1..] + [sep] + rest;
      assert first == [first[0]] + first[1..];
    }
  }

  lemma {:induction false} SplitWhole(s: string, sep: char)
    requires sep !in s
    ensures Split(s, sep) == [s]
  {
    if s != "" {
      SplitWhole(s[1..], sep);
      assert s == [s[0]] + s[1..];
    }
  }

  /** The number of a GTID is read back out of it, in each form that a server writes. */
  lemma SeqNoReads(domain: string, server: string, first: string, number: string)
    requires IsNumber(number) && IsNumber(first) && '-' !in domain && '-' !in server && ':' !in server
    ensures SeqNoOf(domain + "-" + server + "-" + number, true) == Some(NumberOf(number))
    ensures SeqNoOf(server + ":" + number, false) == Some(NumberOf(number))
    ensures SeqNoOf(server + ":" + first + "-" + number, false) == Some(NumberOf(number))
  {
    hide Split, IsNumber, NumberOf;
    MariaDbParts(domain, server, number);
    NumbersAreWhole(number);
    MySqlParts(server, number);
    IntervalParts(first, number);
    MySqlParts(server, first + "-" + number);
    assert server + ":" + first + "-" + number == server + ":" + (first + "-" + number);
  }

  /** GTIDs that the tap reads, and some that it refuses. */
  lemma WhatIsRead()
    ensures SeqNoOf("0-1-42", true) == Some(42)
    ensures SeqNoOf("0-1", true) == None && SeqNoOf("", true) == None && SeqNoOf("uuid:7", true) == None
    ensures SeqNoOf("uuid:42", false) == Some(42) && SeqNoOf("uuid:1-42", false) == Some(42)
    ensures SeqNoOf("uuid", false) == None && SeqNoOf("0-1-42", false) == None && SeqNoOf("uuid:", false) == None
  {
    hide Split, IsNumber, NumberOf;
    FortyTwo();
    SeqNoReads("0", "1", "1", "42");
    SeqNoReads("0", "uuid", "1", "42");
    assert "0" + "-" + "1" + "-" + "42" == "0-1-42" && "uuid" + ":" + "42" == "uuid:42";
    assert "uuid" + ":" + "1" + "-" + "42" == "uuid:1-42";
    assert "0-1" == "0" + ['-'] + "1";
    SplitApart("0", '-', "1");
    SplitWhole("1", '-');
    SplitWhole("", '-');
    SplitWhole("uuid:7", '-');
    SplitWhole("uuid", ':');
    SplitWhole("0-1-42", ':');
    assert "uuid:" == "uuid" + [':'] + "";
    SplitApart("uuid", ':', "");
    SplitWhole("", ':');
  }

  lemma FortyTwo()
    ensures IsNumber("42") && IsNumber("1") && NumberOf("42") == 42 && !IsNumber("")
  {
    assert "42"[..1] == "4" && "4"[..0] == "";
    assert NumberOf("4") == 4;
  }

  lemma IntervalParts(first: string, number: string)
    requires IsNumber(first) && IsNumber(number)
    ensures ':' !in first + "-" + number && Split(first + "-" + number, '-') == [first, number]
  {
    hide Split, IsNumber;
    NumbersAreWhole(first);
    NumbersAreWhole(number);
    SplitApart(first, '-', number);
    assert first + "-" + number == first + ['-'] + number;
  }

  lemma MariaDbParts(domain: string, server: string, number: string)
    requires IsNumber(number) && '-' !in domain && '-' !in server
    ensures Split(domain + "-" + server + "-" + number, '-') == [domain, server, number]
  {
    hide Split, IsNumber;
    NumbersAreWhole(number);
    SplitApart(domain, '-', server + "-" + number);
    assert domain + "-" + server + "-" + number == domain + ['-'] + (server + "-" + number);
    SplitApart(server, '-', number);
    assert server + "-" + number == server + ['-'] + number;
  }

  lemma MySqlParts(server: string, interval: string)
    requires ':' !in server && ':' !in interval
    ensures Split(server + ":" + interval, ':') == [server, interval]
  {
    hide Split;
    SplitApart(server, ':', interval);
    assert server + ":" + interval == server + [':'] + interval;
    SplitWhole(interval, ':');
  }

  lemma NumbersAreWhole(number: string)
    requires IsNumber(number)
    ensures '-' !in number && ':' !in number && Split(number, '-') == [number] && Split(number, ':') == [number]
  {
    SplitWhole(number, '-');
    SplitWhole(number, ':');
  }

  predicate HasGtid(st: State, id: StreamId) {
    Get(st, id, Gtid).Text? && Get(st, id, Gtid).s != ""
  }

  function GtidOf(st: State, id: StreamId): string {
    if Get(st, id, Gtid).Text? then Get(st, id, Gtid).s else ""
  }

  /** The GTID is the one of a stream, and of all streams that have one its number is the least. */
  ghost predicate IsLeastGtid(st: State, ids: set<StreamId>, seqNo: string -> int, gtid: string) {
    && (exists id :: id in ids && HasGtid(st, id) && GtidOf(st, id) == gtid)
    && forall id :: id in ids && HasGtid(st, id) ==> seqNo(gtid) <= seqNo(GtidOf(st, id))
  }

  /** Some stream has a GTID that cannot be read. */
  ghost predicate HasMalformed(st: State, ids: set<StreamId>, mariaDb: bool) {
    exists id :: id in ids && HasGtid(st, id) && SeqNoOf(GtidOf(st, id), mariaDb) == None
  }

  /** The GTID is one of the server. */
  predicate OfServer(gtid: string, server: string) {
    |Split(gtid, '-')| == 3 && Split(gtid, '-')[1] == server
  }

  /** Of the GTIDs in the list it is the last one of the server. */
  ghost predicate IsLastOfServer(gtid: string, gtids: seq<string>, server: string) {
    exists i :: 0 <= i < |gtids| && gtids[i] == gtid && OfServer(gtid, server)
                && forall j :: i < j < |gtids| ==> !OfServer(gtids[j], server)
  }

  /** A GTID as MariaDB has it. */
  datatype MariaDbGtid = MariaDbGtid(domain: string, server: string, number: string) {

    predicate WellFormed() {
      && IsNumber(number)
      && forall c :: c in domain || c in server ==> c != '-' && c != ','
    }

    function Written(): string {
      domain + "-" + server + "-" + number
    }
  }

  /** The list as a server writes it. */
  function Joined(gtids: seq<MariaDbGtid>): string {
    if gtids == [] then ""
    else if |gtids| == 1 then gtids[0].Written() else gtids[0].Written() + "," + Joined(gtids[1..])
  }

  /** The last GTID in the list that was written by the server. */
  function LastOf(gtids: seq<MariaDbGtid>, server: string): Option<MariaDbGtid> {
    if gtids == [] then None
    else if gtids[|gtids| - 1].server == server then Some(gtids[|gtids| - 1]) else LastOf(gtids[..|gtids| - 1], server)
  }

  lemma OfServerReads(gtid: MariaDbGtid, server: string)
    requires gtid.WellFormed()
    ensures OfServer(gtid.Written(), server) <==> gtid.server == server
    ensures ',' !in gtid.Written()
  {
    hide Split, IsNumber;
    MariaDbParts(gtid.domain, gtid.server, gtid.number);
    assert ',' !in gtid.number by { assert IsNumber(gtid.number); NoCommas(gtid.number); }
  }

  lemma NoCommas(number: string)
    requires IsNumber(number)
    ensures ',' !in number
  {
  }

  lemma {:induction false} JoinedSplits(gtids: seq<MariaDbGtid>)
    requires gtids != [] && forall i :: 0 <= i < |gtids| ==> gtids[i].WellFormed()
    ensures var parts := Split(Joined(gtids), ',');
            |parts| == |gtids| && forall i :: 0 <= i < |gtids| ==> parts[i] == gtids[i].Written()
  {
    hide Split, MariaDbGtid.Written, MariaDbGtid.WellFormed;
    OfServerReads(gtids[0], "");
    if |gtids| == 1 {
      SplitWhole(gtids[0].Written(), ',');
    } else {
      JoinedSplits(gtids[1..]);
      SplitApart(gtids[0].Written(), ',', Joined(gtids[1..]));
      assert gtids[0].Written() + "," + Joined(gtids[1..]) == gtids[0].Written() + [','] + Joined(gtids[1..]);
    }
  }

  lemma {:induction false} LastOfIs(gtids: seq<MariaDbGtid>, server: string)
    ensures var last := LastOf(gtids, server);
            if last.None? then forall i :: 0 <= i < |gtids| ==> gtids[i].server != server
            else exists i :: 0 <= i < |gtids| && gtids[i] == last.value && gtids[i].server == server
                             && forall j :: i < j < |gtids| ==> gtids[j].server != server
  {
    if gtids != [] && gtids[|gtids| - 1].server != server {
      LastOfIs(gtids[..|gtids| - 1], server);
    }
  }

  /** Of what a server writes, the GTID taken is the last one with its own id. */
  lemma LastIsOfTheServer(gtids: seq<MariaDbGtid>, server: string, gtid: string)
    requires gtids != [] && forall i :: 0 <= i < |gtids| ==> gtids[i].WellFormed()
    ensures IsLastOfServer(gtid, Split(Joined(gtids), ','), server)
       <==> LastOf(gtids, server).Some? && gtid == LastOf(gtids, server).value.Written()
  {
    hide Split, MariaDbGtid.Written, MariaDbGtid.WellFormed, Joined, LastOf, OfServer;
    var parts := Split(Joined(gtids), ',');
    JoinedSplits(gtids);
    LastOfIs(gtids, server);
    forall i | 0 <= i < |gtids| ensures OfServer(parts[i], server) <==> gtids[i].server == server {
      OfServerReads(gtids[i], server);
    }
  }

  /** "0-1-5,1-2-9": server 1 starts from the first GTID, server 2 from the second, and any other is refused. */
  lemma EachServerHasItsOwn(gtid: string)
    ensures IsLastOfServer(gtid, Split("0-1-5,1-2-9", ','), "1") <==> gtid == "0-1-5"
    ensures IsLastOfServer(gtid, Split("0-1-5,1-2-9", ','), "2") <==> gtid == "1-2-9"
    ensures !IsLastOfServer(gtid, Split("0-1-5,1-2-9", ','), "0")
  {
    hide Split, OfServer;
    var a, b := MariaDbGtid("0", "1", "5"), MariaDbGtid("1", "2", "9");
    var list := [a, b];
    assert a.Written() == "0-1-5" && b.Written() == "1-2-9" && Joined(list[1..]) == "1-2-9";
    assert Joined(list) == "0-1-5,1-2-9";
    assert a.WellFormed() && b.WellFormed();
    LastIsOfTheServer(list, "0", gtid);
    LastIsOfTheServer(list, "1", gtid);
    LastIsOfTheServer(list, "2", gtid);
    assert list[..1] == [a] && [a][..0] == [];
    assert LastOf([a], "1") == Some(a) && LastOf([a], "0") == LastOf([a][..0], "0") == None;
    assert LastOf(list, "1") == Some(a) && LastOf(list, "2") == Some(b) && LastOf(list, "0") == None;
  }

  /** `_find_gtid_by_binlog_coordinates`, on the answer of the server. */
  method FindGtid(answer: string, server: string) returns (gtid: Option<string>)
    ensures gtid.Some? ==> IsLastOfServer(gtid.value, Split(answer, ','), server)
    ensures gtid.None? ==> forall i :: 0 <= i < |Split(answer, ',')| ==> !OfServer(Split(answer, ',')[i], server)
    ensures forall gtids :: IsAnswer(gtids, answer) ==> gtid == WrittenOf(LastOf(gtids, server))
  {
    hide OfServer, Split, IsAnswer, WrittenOf, LastOf;
    var gtids := Split(answer, ',');
    gtid := None;
    for n := 0 to |gtids|
      invariant gtid.Some? ==> IsLastOfServer(gtid.value, gtids[..n], server)
      invariant gtid.None? ==> forall i :: 0 <= i < n ==> !OfServer(gtids[i], server)
    {
      assert gtids[..n + 1] == gtids[..n] + [gtids[n]];
      if OfServer(gtids[n], server) {
        gtid := Some(gtids[n]);
        assert gtids[..n + 1][n] == gtids[n];
      }
    }
    assert gtids[..|gtids|] == gtids;
    forall list | IsAnswer(list, answer) ensures gtid == WrittenOf(LastOf(list, server)) {
      AnswerIs(list, answer, server, gtid);
    }
  }

  /** The server answers with the list. */
  ghost predicate IsAnswer(gtids: seq<MariaDbGtid>, answer: string) {
    gtids != [] && answer == Joined(gtids) && forall i :: 0 <= i < |gtids| ==> gtids[i].WellFormed()
  }

  function WrittenOf(gtid: Option<MariaDbGtid>): Option<string> {
    if gtid.Some? then Some(gtid.value.Written()) else None
  }

  lemma AnswerIs(gtids: seq<MariaDbGtid>, answer: string, server: string, found: Option<string>)
    requires IsAnswer(gtids, answer)
    requires found.Some? ==> IsLastOfServer(found.value, Split(answer, ','), server)
    requires found.None? ==> forall i :: 0 <= i < |Split(answer, ',')| ==> !OfServer(Split(answer, ',')[i], server)
    ensures found == WrittenOf(LastOf(gtids, server))
  {
    hide OfServer, Split, LastOf, Joined, MariaDbGtid.Written, MariaDbGtid.WellFormed;
    if found.Some? {
      LastIsOfTheServer(gtids, server, found.value);
    } else if LastOf(gtids, server).Some? {
      LastIsOfTheServer(gtids, server, LastOf(gtids, server).value.Written());
    }
  }

  /** What a MariaDB server knows: its files, its id, and the GTIDs at the coordinates. */
  datatype Server = Server(logs: seq<string>, id: string, gtidsAt: Pos -> string)

  /** The GTID is inferred from the earliest coordinates of the streams. */
  ghost predicate Inferred(st: State, ids: set<StreamId>, server: Server, gtid: string) {
    && AllOnServer(st, ids, server.logs)
    && exists pos :: IsEarliest(st, ids, pos) && pos.file != "" && pos.offset != 0
                     && IsLastOfServer(gtid, Split(server.gtidsAt(pos), ','), server.id)
  }

  /** `calculate_gtid_bookmark`.  Streams without a GTID are passed over; without any GTID, MariaDB infers one
      from the coordinates that `calculate_bookmark` finds. */
  method CalculateGtidBookmark(st: State, streams: set<StreamId>, mariaDb: bool, server: Server)
    returns (start: GtidStart)
    requires forall id :: id in Bookmarked(st, streams) && Truthy(Get(st, id, Gtid)) ==> HasGtid(st, id)
    requires forall id :: id in Bookmarked(st, streams) && !HasGtid(st, id) ==> HasCoordinates(st, id)
    ensures start == Malformed <==> HasMalformed(st, Bookmarked(st, streams), mariaDb)
    ensures (exists id :: id in Bookmarked(st, streams) && HasGtid(st, id)) && start != Malformed ==>
              start.FromGtid? && IsLeastGtid(st, Bookmarked(st, streams), SeqNo(mariaDb), start.gtid)
    ensures !(exists id :: id in Bookmarked(st, streams) && HasGtid(st, id)) ==>
              && (start.FromGtid? ==> Inferred(st, Bookmarked(st, streams), server, start.gtid))
              && (start.FromGtid? <==> mariaDb && exists g :: Inferred(st, Bookmarked(st, streams), server, g))
  {
    hide LeastSoFar, SeqNoOf, HasGtid, GtidOf, IsLeastGtid, Inferred, HasCoordinates;
    var min: Option<string> := None;
    var todo := st.bookmarks.Keys;
    ghost var done: set<StreamId> := {};
    NoGtidYet(st, mariaDb);
    while todo != {}
      invariant todo <= st.bookmarks.Keys && done == (st.bookmarks.Keys - todo) * streams
      invariant LeastSoFar(st, done, SeqNo(mariaDb), min) && !HasMalformed(st, done, mariaDb)
      decreases |todo|
    {
      var id :| id in todo;
      todo := todo - {id};
      if id in streams {
        assert id in Bookmarked(st, streams);
        ghost var before := min;
        GtidIsText(st, id);
        if Truthy(Get(st, id, Gtid)) {
          var gtid := GtidOf(st, id);
          var number := SeqNoOf(gtid, mariaDb);
          if number.None? {
            return Malformed;
          }
          if min.None? || SeqNo(mariaDb)(gtid) < SeqNo(mariaDb)(min.value) {
            min := Some(gtid);
          }
        }
        OneMoreGtid(st, done, SeqNo(mariaDb), before, id, min);
        done := done + {id};
      }
    }
    assert done == Bookmarked(st, streams);
    LeastInTheEnd(st, done, SeqNo(mariaDb), min);
    if min.Some? {
      return FromGtid(min.value);
    }
    if !mariaDb {
      return NoGtid;
    }
    start := InferGtid(st, streams, server);
  }

  /** The branch without any GTID. */
  method InferGtid(st: State, streams: set<StreamId>, server: Server) returns (start: GtidStart)
    requires forall id :: id in Bookmarked(st, streams) ==> HasCoordinates(st, id)
    ensures start != Malformed
    ensures start.FromGtid? ==> Inferred(st, Bookmarked(st, streams), server, start.gtid)
    ensures start.NoGtid? ==> forall g :: !Inferred(st, Bookmarked(st, streams), server, g)
  {
    hide AllOnServer, HasCoordinates, IsLastOfServer, Split, OfServer;
    var earliest := CalculateBookmark(st, streams, server.logs);
    if !earliest.At? {
      return NoGtid;
    }
    var pos := earliest.pos;
    EarliestIsOne(st, Bookmarked(st, streams), pos);
    if pos.file == "" || pos.offset == 0 {
      return NoGtid;
    }
    var gtid := FindGtid(server.gtidsAt(pos), server.id);
    if gtid.None? {
      NoneOfServer(Split(server.gtidsAt(pos), ','), server.id);
      return NoGtid;
    }
    start := FromGtid(gtid.value);
  }

  /** From coordinates without a file or at position 0 nothing is inferred. */
  lemma NothingIsInferredFromNoCoordinates(st: State, ids: set<StreamId>, server: Server, gtid: string, pos: Pos)
    requires IsEarliest(st, ids, pos) && (pos.file == "" || pos.offset == 0)
    ensures !Inferred(st, ids, server, gtid)
  {
    hide AllOnServer, IsLastOfServer, Split;
    EarliestIsOne(st, ids, pos);
  }

  lemma NoneOfServer(gtids: seq<string>, server: string)
    requires forall i :: 0 <= i < |gtids| ==> !OfServer(gtids[i], server)
    ensures forall g :: !IsLastOfServer(g, gtids, server)
  {
  }

  lemma EarliestIsOne(st: State, ids: set<StreamId>, pos: Pos)
    requires IsEarliest(st, ids, pos)
    ensures forall p :: IsEarliest(st, ids, p) ==> p == pos
  {
    forall p | IsEarliest(st, ids, p) ensures p == pos {
      BeforeTotal(p, pos);
    }
  }


  lemma GtidIsText(st: State, id: StreamId)
    ensures HasGtid(st, id) ==> Truthy(Get(st, id, Gtid))
  {
  }

  ghost predicate LeastSoFar(st: State, ids: set<StreamId>, seqNo: string -> int, min: Option<string>) {
    match min
    case Some(gtid) => gtid != "" && IsLeastGtid(st, ids, seqNo, gtid)
    case None => forall id :: id in ids ==> !HasGtid(st, id)
  }

  lemma NoGtidYet(st: State, mariaDb: bool)
    ensures LeastSoFar(st, {}, SeqNo(mariaDb), None) && !HasMalformed(st, {}, mariaDb)
  {
  }

  lemma OneMoreGtid(st: State, ids: set<StreamId>,
                    seqNo: string -> int, before: Option<string>, id: StreamId, after: Option<string>)
    requires LeastSoFar(st, ids, seqNo, before)
    requires var lower := HasGtid(st, id) && (before.None? || seqNo(GtidOf(st, id)) < seqNo(before.value));
             after == if lower then Some(GtidOf(st, id)) else before
    ensures LeastSoFar(st, ids + {id}, seqNo, after)
  {
    if after != before { assert id in ids + {id} && HasGtid(st, id) && GtidOf(st, id) == after.value; }
  }

  lemma LeastInTheEnd(st: State, ids: set<StreamId>, seqNo: string -> int, min: Option<string>)
    requires LeastSoFar(st, ids, seqNo, min)
    ensures min.Some? <==> exists id :: id in ids && HasGtid(st, id)
    ensures min.Some? ==> min.value != "" && IsLeastGtid(st, ids, seqNo, min.value)
  {
  }
}
