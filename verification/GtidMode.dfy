/**
 GTID mode: what the server sends to a reader that is started from a GTID, and what that means for a
 restart and for streams that stand at different places.

 A server sends the transactions that the position does not include, in the order of its log.
 */
module GtidMode {
  import opened Singer
  import opened FileNames
  import opened Drift
  import opened StartPosition
  import opened BinlogSpec

  // ----- positions -----

  /** The position includes the transaction.  A MariaDB position speaks of one domain, and includes what
      has no greater number there.  A MySQL one names a server and one number, or an interval of them. */
  predicate Includes(position: string, gtid: string, mariaDb: bool) {
    if mariaDb then InDomain(Split(position, '-'), Split(gtid, '-'))
    else InInterval(Split(position, ':'), Split(gtid, ':'))
  }

  predicate InDomain(position: seq<string>, gtid: seq<string>) {
    && |position| == |gtid| == 3 && position[0] == gtid[0]
    && IsNumber(position[2]) && IsNumber(gtid[2]) && NumberOf(gtid[2]) <= NumberOf(position[2])
  }

  predicate InInterval(position: seq<string>, gtid: seq<string>) {
    && |position| == |gtid| == 2 && position[0] == gtid[0] && IsNumber(gtid[1])
    && WithinBounds(Split(position[1], '-'), NumberOf(gtid[1]))
  }

  predicate WithinBounds(bounds: seq<string>, n: nat) {
    && 0 < |bounds| <= 2 && IsNumber(bounds[0]) && IsNumber(bounds[|bounds| - 1])
    && NumberOf(bounds[0]) <= n <= NumberOf(bounds[|bounds| - 1])
  }

  /** A position includes only transactions whose number is not above its own, as the tap reads them. */
  lemma IncludedIsNotAbove(position: string, gtid: string, mariaDb: bool)
    requires Includes(position, gtid, mariaDb)
    ensures SeqNo(mariaDb)(gtid) <= SeqNo(mariaDb)(position)
  {
    hide Split, NumberOf, IsNumber;
    if !mariaDb {
      NumbersAreWhole(Split(gtid, ':')[1]);
      if |Split(Split(position, ':')[1], '-')| == 1 { OnePart(Split(position, ':')[1], '-'); }
    }
  }

  lemma {:induction false} OnePart(s: string, sep: char)
    requires |Split(s, sep)| == 1
    ensures Split(s, sep) == [s]
  {
    if s != "" {
      OnePart(s[1..], sep);
      assert s == [s[0]] + s[1..];
    }
  }

  /** In a MariaDB log, those of the same domain up to the number. */
  lemma MariaDbIncludes(domain: string, server: string, number: string,
                        domain': string, server': string, number': string)
    requires IsNumber(number) && IsNumber(number')
    requires '-' !in domain && '-' !in server && '-' !in domain' && '-' !in server'
    ensures Includes(domain + "-" + server + "-" + number, domain' + "-" + server' + "-" + number', true)
       <==> domain == domain' && NumberOf(number') <= NumberOf(number)
  {
    hide Split, IsNumber, NumberOf;
    MariaDbParts(domain, server, number);
    MariaDbParts(domain', server', number');
  }

  /** Of a MySQL position of one number, that transaction alone; of an interval, those in it. */
  lemma MySqlIncludes(server: string, first: string, number: string, server': string, number': string)
    requires IsNumber(first) && IsNumber(number) && IsNumber(number') && ':' !in server && ':' !in server'
    ensures Includes(server + ":" + number, server' + ":" + number', false)
       <==> server == server' && NumberOf(number') == NumberOf(number)
    ensures Includes(server + ":" + first + "-" + number, server' + ":" + number', false)
       <==> server == server' && NumberOf(first) <= NumberOf(number') <= NumberOf(number)
  {
    hide Split, IsNumber, NumberOf;
    NumbersAreWhole(number);
    NumbersAreWhole(number');
    IntervalParts(first, number);
    MySqlParts(server, number);
    MySqlParts(server', number');
    MySqlParts(server, first + "-" + number);
    assert server + ":" + first + "-" + number == server + ":" + (first + "-" + number);
  }

  // ----- the reader -----

  /** The transaction that the last of the items belongs to. */
  function Transaction(items: seq<Item>): Option<string> {
    if items == [] then None
    else if items[|items| - 1].event.Gtid? then Some(items[|items| - 1].event.gtid)
    else Transaction(items[..|items| - 1])
  }

  /** The server sends the item to a reader that is started from the position. */
  predicate HandedOver(log: seq<Item>, position: string, mariaDb: bool, i: nat)
    requires i < |log|
  {
    Transaction(log[..i + 1]).Some? ==> !Includes(position, Transaction(log[..i + 1]).value, mariaDb)
  }

  /** The places in the log of the items that the server sends. */
  function Places(log: seq<Item>, position: string, mariaDb: bool): (places: seq<nat>)
    ensures forall i :: 0 <= i < |places| ==> places[i] < |log|
  {
    if log == [] then []
    else Places(log[..|log| - 1], position, mariaDb)
         + (if HandedOver(log, position, mariaDb, |log| - 1) then [|log| - 1] else [])
  }

  function ItemsAt(log: seq<Item>, places: seq<nat>): (items: seq<Item>)
    requires forall i :: 0 <= i < |places| ==> places[i] < |log|
    ensures |items| == |places|
  {
    seq(|places|, i requires 0 <= i < |places| => log[places[i]])
  }

  /** Every item belongs to a transaction; a position that is a transaction's GTID includes it, and none
      that is logged later. */
  ghost predicate Orderly(log: seq<Item>, mariaDb: bool) {
    && (log != [] ==> log[0].event.Gtid?)
    && (forall i :: 0 <= i < |log| && log[i].event.Gtid? ==>
          log[i].event.gtid != "" && Includes(log[i].event.gtid, log[i].event.gtid, mariaDb))
    && (forall i, j :: 0 <= i < j < |log| && log[i].event.Gtid? && log[j].event.Gtid? ==>
          !Includes(log[i].event.gtid, log[j].event.gtid, mariaDb))
  }

  lemma {:induction false} TransactionIs(items: seq<Item>, i: nat)
    requires i < |items|
    ensures var t := Transaction(items[..i + 1]);
            if t.None? then forall j :: 0 <= j <= i ==> !items[j].event.Gtid?
            else exists j :: 0 <= j <= i && OpensAt(items, i, j, t.value)
    decreases i
  {
    assert items[..i + 1][..i] == items[..i];
    if items[i].event.Gtid? {
      assert OpensAt(items, i, i, items[i].event.gtid);
    } else if i > 0 {
      TransactionIs(items, i - 1);
      var t := Transaction(items[..i]);
      if t.Some? {
        var j :| 0 <= j <= i - 1 && OpensAt(items, i - 1, j, t.value);
        assert OpensAt(items, i, j, t.value);
      }
    }
  }

  /** The transaction of item `i` begins at `j`. */
  ghost predicate OpensAt(items: seq<Item>, i: nat, j: nat, gtid: string)
    requires j <= i < |items|
  {
    items[j].event == Event.Gtid(gtid) && forall k :: j < k <= i ==> !items[k].event.Gtid?
  }

  /** An item belongs to the transaction that began last. */
  lemma {:induction false} StillOpen(items: seq<Item>, j: nat, i: nat)
    requires j <= i < |items| && items[j].event.Gtid? && forall k :: j < k <= i ==> !items[k].event.Gtid?
    ensures Transaction(items[..i + 1]) == Some(items[j].event.gtid)
    decreases i - j
  {
    assert items[..i + 1][..i] == items[..i];
    if j < i { StillOpen(items, j, i - 1); }
  }

  // ----- a restart from a STATE of the loop -----

  /** The items of the run are those that the server sends from the run's GTID. */
  ghost predicate ReadsOn(run: LoopRun, log: seq<Item>, mariaDb: bool) {
    && Orderly(log, mariaDb) && run.gtid.Text?
    && run.items == ItemsAt(log, Places(log, run.gtid.s, mariaDb))
  }

  /** The place in the log of an item of the run. */
  function PlaceOf(run: LoopRun, log: seq<Item>, mariaDb: bool, i: nat): (place: nat)
    requires run.gtid.Text? && i < |Places(log, run.gtid.s, mariaDb)|
    ensures place < |log|
  {
    Places(log, run.gtid.s, mariaDb)[i]
  }

  /** Transactions are sent whole, so that an item belongs to the same one in the run as in the log. */
  lemma {:induction false} SentWhole(log: seq<Item>, position: string, mariaDb: bool, i: nat)
    requires i < |Places(log, position, mariaDb)|
    ensures var places := Places(log, position, mariaDb);
            Transaction(ItemsAt(log, places)[..i + 1]) == Transaction(log[..places[i] + 1])
    decreases |log|
  {
    hide Includes, Transaction, HandedOver;
    var front := log[..|log| - 1];
    var places, before := Places(log, position, mariaDb), Places(front, position, mariaDb);
    if i < |before| {
      SentWhole(front, position, mariaDb, i);
      SentBefore(log, front, places, before, i);
    } else {
      LastSent(log, position, mariaDb);
    }
  }

  lemma SentBefore(log: seq<Item>, front: seq<Item>, places: seq<nat>, before: seq<nat>, i: nat)
    requires log != [] && front == log[..|log| - 1] && before <= places && i < |before|
    requires forall k :: 0 <= k < |places| ==> places[k] < |log|
    requires forall k :: 0 <= k < |before| ==> before[k] < |front|
    ensures ItemsAt(log, places)[..i + 1] == ItemsAt(front, before)[..i + 1]
    ensures log[..places[i] + 1] == front[..before[i] + 1]
  {
  }

  lemma LastSent(log: seq<Item>, position: string, mariaDb: bool)
    requires log != [] && HandedOver(log, position, mariaDb, |log| - 1)
    ensures var places := Places(log, position, mariaDb);
            && places != []
            && Transaction(ItemsAt(log, places)[..|places|]) == Transaction(log[..places[|places| - 1] + 1])
  {
    hide HandedOver;
    var front, last := log[..|log| - 1], log[|log| - 1];
    var before := Places(front, position, mariaDb);
    var places := before + [|log| - 1];
    assert Places(log, position, mariaDb) == places;
    var items := ItemsAt(front, before);
    assert ItemsAt(log, places) == items + [last];
    assert (items + [last])[..|places|] == items + [last] && log[..|log|] == log;
    assert (items + [last])[..|items|] == items;
    if !last.event.Gtid? { SentSoFar(log, position, mariaDb); }
  }

  /** Up to an item that is sent and opens no transaction, the last item sent is of its transaction. */
  lemma {:induction false} SentSoFar(log: seq<Item>, position: string, mariaDb: bool)
    requires log != [] && !log[|log| - 1].event.Gtid? && HandedOver(log, position, mariaDb, |log| - 1)
    ensures var front := log[..|log| - 1];
            Transaction(ItemsAt(front, Places(front, position, mariaDb))) == Transaction(front)
    decreases |log|
  {
    hide Includes;
    var front := log[..|log| - 1];
    assert log[..|log|] == log;
    if front == [] {
      assert ItemsAt(front, Places(front, position, mariaDb)) == [];
    } else {
      assert front[..|front|] == front;
      var start := front[..|front| - 1];
      var places := Places(start, position, mariaDb);
      assert Places(front, position, mariaDb) == places + [|front| - 1];
      assert ItemsAt(front, places + [|front| - 1]) == ItemsAt(start, places) + [front[|front| - 1]];
      assert (ItemsAt(start, places) + [front[|front| - 1]])[..|places|] == ItemsAt(start, places);
      if !front[|front| - 1].event.Gtid? { SentSoFar(front, position, mariaDb); }
    }
  }

  lemma {:induction false} PlacesRise(log: seq<Item>, position: string, mariaDb: bool, i: nat, j: nat)
    requires i < j < |Places(log, position, mariaDb)|
    ensures Places(log, position, mariaDb)[i] < Places(log, position, mariaDb)[j]
    decreases |log|
  {
    hide HandedOver;
    var before := Places(log[..|log| - 1], position, mariaDb);
    if j < |before| { PlacesRise(log[..|log| - 1], position, mariaDb, i, j); }
  }

  /** The GTID that a STATE after `n` items carries. */
  function StateGtid(run: LoopRun, n: nat): string
    requires n <= |run.items|
  {
    if run.GtidAfter(n).Text? then run.GtidAfter(n).s else ""
  }

  lemma {:induction false} StateGtidIs(run: LoopRun, n: nat)
    requires n <= |run.items| && Transaction(run.items[..n]).Some?
    ensures run.GtidAfter(n) == Text(Transaction(run.items[..n]).value)
    decreases n
  {
    assert run.items[..n][..n - 1] == run.items[..n - 1];
    if !run.items[n - 1].event.Gtid? { StateGtidIs(run, n - 1); }
  }

  /** Where the transaction under way at `from` is over. */
  function TransactionEnd(items: seq<Item>, from: nat): (n: nat)
    requires from <= |items|
    ensures from <= n <= |items|
    ensures n < |items| ==> items[n].event.Gtid?
    ensures forall i :: from <= i < n ==> !items[i].event.Gtid?
    decreases |items| - from
  {
    if from == |items| || items[from].event.Gtid? then from else TransactionEnd(items, from + 1)
  }

  lemma {:induction false} StateGtidBefore(run: LoopRun, n: nat)
    requires n <= |run.items| && Transaction(run.items[..n]).None?
    ensures run.GtidAfter(n) == run.gtid
    decreases n
  {
    if n > 0 {
      assert run.items[..n][..n - 1] == run.items[..n - 1];
      StateGtidBefore(run, n - 1);
    }
  }

  /** Every STATE of the loop carries the GTID of the transaction under way, for every stream, and before the first
      one the GTID that the run started from. */
  lemma StateCarriesGtid(run: LoopRun, n: nat, id: StreamId)
    requires 0 < n <= |run.items| && run.Due(n) && id in run.Ids()
    ensures var t := Transaction(run.items[..n]);
            var gtid := if t.Some? then Text(t.value) else run.gtid;
            Truthy(gtid) ==> Get(run.StateAfter(n), id, Field.Gtid) == gtid
  {
    hide ItemMoved, CheckpointDue, Transaction;
    if Transaction(run.items[..n]).Some? { StateGtidIs(run, n); } else { StateGtidBefore(run, n); }
    var moved := ItemMoved(run.StateAfter(n - 1), run.Ids(), run.items[n - 1], run.GtidAfter(n - 1));
    assert run.StateAfter(n) == Moved(moved, run.Ids(), run.items[n - 1].at, run.GtidAfter(n));
  }

  /** The item of the run, in the log: its transaction has a place there. */
  lemma RunItemOpens(run: LoopRun, log: seq<Item>, mariaDb: bool, i: nat)
    requires ReadsOn(run, log, mariaDb) && i < |run.items|
    ensures var place, t := PlaceOf(run, log, mariaDb, i), Transaction(run.items[..i + 1]);
            && t.Some? && t == Transaction(log[..place + 1]) && run.items[i] == log[place]
            && exists j :: 0 <= j <= place && OpensAt(log, place, j, t.value)
  {
    hide Includes;
    SentWhole(log, run.gtid.s, mariaDb, i);
    TransactionIs(log, PlaceOf(run, log, mariaDb, i));
  }

  /** Where the transaction of an item of the run begins. */
  lemma Began(run: LoopRun, log: seq<Item>, mariaDb: bool, i: nat) returns (k: nat)
    requires ReadsOn(run, log, mariaDb) && i < |run.items|
    ensures Transaction(run.items[..i + 1]).Some?
    ensures k <= i && OpensAt(run.items, i, k, Transaction(run.items[..i + 1]).value)
    ensures forall position :: HandedOver(log, position, mariaDb, PlaceOf(run, log, mariaDb, i))
                          <==> !Includes(position, Transaction(run.items[..i + 1]).value, mariaDb)
  {
    hide Includes, Places;
    RunItemOpens(run, log, mariaDb, i);
    TransactionIs(run.items, i);
    k :| 0 <= k <= i && OpensAt(run.items, i, k, Transaction(run.items[..i + 1]).value);
  }

  /** In the run as in the log, a transaction includes itself and none that is logged later. */
  lemma RunIsOrderly(run: LoopRun, log: seq<Item>, mariaDb: bool, k: nat, m: nat)
    requires ReadsOn(run, log, mariaDb) && k <= m < |run.items| && run.items[k].event.Gtid? && run.items[m].event.Gtid?
    ensures Includes(run.items[k].event.gtid, run.items[m].event.gtid, mariaDb) <==> k == m
  {
    hide Includes, Places;
    RunItemOpens(run, log, mariaDb, k);
    RunItemOpens(run, log, mariaDb, m);
    if k < m { PlacesRise(log, run.gtid.s, mariaDb, k, m); }
  }

  /** From a STATE after `n` items, the server sends again none of the transaction under way, and all of
      those that follow. */
  lemma RestartIsAtTransactionEnd(run: LoopRun, log: seq<Item>, mariaDb: bool, n: nat, i: nat)
    requires ReadsOn(run, log, mariaDb) && 0 < n <= i < |run.items|
    ensures HandedOver(log, StateGtid(run, n), mariaDb, PlaceOf(run, log, mariaDb, i))
       <==> TransactionEnd(run.items, n) <= i
  {
    hide Includes, Places, ReadsOn, HandedOver, PlaceOf, Transaction;
    var k := Began(run, log, mariaDb, n - 1);
    var m := Began(run, log, mariaDb, i);
    StateGtidIs(run, n);
    RunIsOrderly(run, log, mariaDb, k, if k <= m then m else k);
    BeganBefore(run.items, n, k, i, m);
  }

  /** The transaction of a later item is the one under way, or it begins where that one is over or later. */
  lemma BeganBefore(items: seq<Item>, n: nat, k: nat, i: nat, m: nat)
    requires 0 < n <= i < |items| && k < n && m <= i && items[k].event.Gtid? && items[m].event.Gtid?
    requires forall j :: k < j < n ==> !items[j].event.Gtid?
    requires forall j :: m < j <= i ==> !items[j].event.Gtid?
    ensures k <= m && (k == m <==> i < TransactionEnd(items, n))
  {
  }

  /** The reader of a run that is started from that STATE hands over again every item with rows that
      had not been written. */
  ghost predicate RestartCovers(run: LoopRun, log: seq<Item>, mariaDb: bool, n: nat)
    requires ReadsOn(run, log, mariaDb) && n <= |run.items|
  {
    forall i :: n <= i < |run.items| ==> CoveredAt(run, log, mariaDb, n, i)
  }

  ghost predicate CoveredAt(run: LoopRun, log: seq<Item>, mariaDb: bool, n: nat, i: nat)
    requires ReadsOn(run, log, mariaDb) && n <= |run.items| && i < |run.items|
  {
    ItemRows(run.context, run.items[i]) > 0 ==>
      HandedOver(log, StateGtid(run, n), mariaDb, PlaceOf(run, log, mariaDb, i))
  }

  /** The first item from `n` on that opens a transaction or has rows for a stream of the run opens a
      transaction; or there is none. */
  predicate NextOpensTransaction(run: LoopRun, n: nat)
    requires n <= |run.items|
    decreases |run.items| - n
  {
    n == |run.items| || run.items[n].event.Gtid?
    || (ItemRows(run.context, run.items[n]) == 0 && NextOpensTransaction(run, n + 1))
  }

  lemma {:induction false} NextOpensIs(run: LoopRun, n: nat)
    requires n <= |run.items|
    ensures NextOpensTransaction(run, n)
       <==> forall i :: n <= i < TransactionEnd(run.items, n) ==> ItemRows(run.context, run.items[i]) == 0
    decreases |run.items| - n
  {
    if n < |run.items| && !run.items[n].event.Gtid? { NextOpensIs(run, n + 1); }
  }

  /** The GTID is written down before the rows of its transaction are: a restart from a STATE of the
      loop covers every row not yet written exactly when the next item that matters opens a
      transaction. */
  lemma GtidStateIsSafeExactlyWhenNextOpensTransaction(run: LoopRun, log: seq<Item>, mariaDb: bool, n: nat)
    requires ReadsOn(run, log, mariaDb) && 0 < n <= |run.items|
    ensures RestartCovers(run, log, mariaDb, n) <==> NextOpensTransaction(run, n)
  {
    hide NextOpensTransaction, ItemRows, HandedOver, ReadsOn, StateGtid, PlaceOf;
    NextOpensIs(run, n);
    forall i | n <= i < |run.items|
      ensures CoveredAt(run, log, mariaDb, n, i)
         <==> (i < TransactionEnd(run.items, n) ==> ItemRows(run.context, run.items[i]) == 0)
    {
      RestartIsAtTransactionEnd(run, log, mariaDb, n, i);
    }
  }

  /** Of two MySQL transactions neither includes the other, or each does. */
  lemma MySqlIncludesBothWays(a: string, b: string)
    requires Includes(a, a, false) && Includes(b, b, false)
    ensures Includes(a, b, false) <==> Includes(b, a, false)
  {
    hide Split, IsNumber, NumberOf;
    NumbersAreWhole(Split(a, ':')[1]);
    NumbersAreWhole(Split(b, ':')[1]);
  }

  /** On MySQL the position in a STATE includes one transaction alone: of what had been written before it,
      a restart reads again every item of any other transaction. */
  lemma MySqlRestartReadsAgainAllOtherTransactions(run: LoopRun, log: seq<Item>, n: nat, i: nat)
    requires ReadsOn(run, log, false) && i < n <= |run.items|
    ensures HandedOver(log, StateGtid(run, n), false, PlaceOf(run, log, false, i))
       <==> Transaction(run.items[..i + 1]) != Transaction(run.items[..n])
  {
    hide Includes, Places, ReadsOn, HandedOver, PlaceOf, Transaction;
    var k := Began(run, log, false, n - 1);
    var m := Began(run, log, false, i);
    StateGtidIs(run, n);
    var gtid, other := Transaction(run.items[..n]).value, Transaction(run.items[..i + 1]).value;
    assert m <= k;
    RunIsOrderly(run, log, false, m, k);
    RunIsOrderly(run, log, false, m, m);
    RunIsOrderly(run, log, false, k, k);
    MySqlIncludesBothWays(gtid, other);
  }

  // ----- streams that stand at different places -----

  /** How many items there are up to the GTID event of the last transaction that the position includes. */
  function Through(log: seq<Item>, position: string, mariaDb: bool): (n: nat)
    ensures n <= |log|
  {
    if log == [] then 0
    else if log[|log| - 1].event.Gtid? && Includes(position, log[|log| - 1].event.gtid, mariaDb) then |log|
    else Through(log[..|log| - 1], position, mariaDb)
  }

  lemma {:induction false} ThroughIs(log: seq<Item>, position: string, mariaDb: bool)
    ensures var n := Through(log, position, mariaDb);
            && (n > 0 ==> log[n - 1].event.Gtid? && Includes(position, log[n - 1].event.gtid, mariaDb))
            && (forall i :: n <= i < |log| && log[i].event.Gtid? ==> !Includes(position, log[i].event.gtid, mariaDb))
    decreases |log|
  {
    hide Includes;
    if log != [] { ThroughIs(log[..|log| - 1], position, mariaDb); }
  }

  /** Where that transaction is over. */
  function End(log: seq<Item>, position: string, mariaDb: bool): (n: nat)
    ensures n <= |log|
  {
    var n := Through(log, position, mariaDb);
    if n == 0 then 0 else TransactionEnd(log, n)
  }

  /** What lies behind the end is sent, and what comes right before it is not. */
  lemma EndDivides(log: seq<Item>, position: string, mariaDb: bool)
    ensures var end := End(log, position, mariaDb);
            && (forall i :: end <= i < |log| ==> HandedOver(log, position, mariaDb, i))
            && (end > 0 ==> !HandedOver(log, position, mariaDb, end - 1))
  {
    hide Includes, Through;
    ThroughIs(log, position, mariaDb);
    var n, end := Through(log, position, mariaDb), End(log, position, mariaDb);
    forall i | end <= i < |log| ensures HandedOver(log, position, mariaDb, i) {
      TransactionIs(log, i);
      var t := Transaction(log[..i + 1]);
      if t.Some? {
        var j :| 0 <= j <= i && OpensAt(log, i, j, t.value);
        assert n <= j;
      }
    }
    if end > 0 { StillOpen(log, n - 1, end - 1); }
  }

  /** The first item of the log that the stream still needs: after its own transaction, or from its
      coordinates on. */
  function Needed(log: seq<Item>, st: State, id: StreamId, mariaDb: bool): (n: nat)
    ensures n <= |log|
  {
    if HasGtid(st, id) then End(log, GtidOf(st, id), mariaDb) else Index(log, PosOf(st, id))
  }

  /** The server sends every item that the stream still needs. */
  ghost predicate StreamIsCovered(log: seq<Item>, st: State, id: StreamId, position: string, mariaDb: bool) {
    forall i :: Needed(log, st, id, mariaDb) <= i < |log| ==> HandedOver(log, position, mariaDb, i)
  }

  /** What the server sends begins in time for the stream: the last transaction that the position includes
      is logged no later than the last one that the stream's own GTID includes; without a GTID, its last
      item lies before the stream's coordinates. */
  predicate InTime(log: seq<Item>, st: State, id: StreamId, position: string, mariaDb: bool) {
    var end := End(log, position, mariaDb);
    if HasGtid(st, id) then Through(log, position, mariaDb) <= Through(log, GtidOf(st, id), mariaDb)
    else end == 0 || Before(log[end - 1].at, PosOf(st, id))
  }

  /** A run started from any position gets all that its streams still need exactly when it begins in time
      for each of them. */
  lemma StreamsAreCoveredExactlyWhenInTime(st: State, ids: set<StreamId>, position: string, mariaDb: bool,
                                           log: seq<Item>)
    requires WellPositioned(log)
    ensures (forall id :: id in ids ==> StreamIsCovered(log, st, id, position, mariaDb))
       <==> (forall id :: id in ids ==> InTime(log, st, id, position, mariaDb))
  {
    hide StreamIsCovered, InTime, WellPositioned;
    forall id | id in ids
      ensures StreamIsCovered(log, st, id, position, mariaDb) <==> InTime(log, st, id, position, mariaDb)
    {
      StreamIsCoveredWhenInTime(log, st, id, position, mariaDb);
    }
  }

  lemma StreamIsCoveredWhenInTime(log: seq<Item>, st: State, id: StreamId, position: string, mariaDb: bool)
    requires WellPositioned(log)
    ensures StreamIsCovered(log, st, id, position, mariaDb) <==> InTime(log, st, id, position, mariaDb)
  {
    hide HandedOver, End, Index, Before, Through;
    EndDivides(log, position, mariaDb);
    var end, n := End(log, position, mariaDb), Needed(log, st, id, mariaDb);
    assert StreamIsCovered(log, st, id, position, mariaDb) <==> end <= n by {
      if end > n { assert !HandedOver(log, position, mariaDb, end - 1); }
    }
    if HasGtid(st, id) {
      EndsInOrder(log, position, GtidOf(st, id), mariaDb);
    } else {
      IndexSplits(log, PosOf(st, id));
    }
  }

  lemma EndsInOrder(log: seq<Item>, a: string, b: string, mariaDb: bool)
    ensures End(log, a, mariaDb) <= End(log, b, mariaDb) <==> Through(log, a, mariaDb) <= Through(log, b, mariaDb)
  {
    hide Includes, Through;
    ThroughIs(log, a, mariaDb);
    var m, n := Through(log, a, mariaDb), Through(log, b, mariaDb);
    if 0 < m <= n { TransactionEndGrows(log, m, n); }
  }

  lemma {:induction false} TransactionEndGrows(items: seq<Item>, from: nat, later: nat)
    requires from <= later <= |items|
    ensures TransactionEnd(items, from) <= TransactionEnd(items, later)
    decreases |items| - from
  {
    if from < later { TransactionEndGrows(items, from + 1, later); }
  }

  /** The transactions of the log are numbered in order, as those of one server or one domain are. */
  ghost predicate Numbered(log: seq<Item>, mariaDb: bool) {
    forall i, j :: 0 <= i < j < |log| && log[i].event.Gtid? && log[j].event.Gtid? ==>
      SeqNo(mariaDb)(log[i].event.gtid) < SeqNo(mariaDb)(log[j].event.gtid)
  }

  /** The log still has the transaction that the position ends with. */
  ghost predicate Logged(log: seq<Item>, position: string, mariaDb: bool) {
    exists i :: 0 <= i < |log| && EndsWithItem(log, position, mariaDb, i)
  }

  predicate EndsWithItem(log: seq<Item>, position: string, mariaDb: bool, i: nat)
    requires i < |log|
  {
    && log[i].event.Gtid? && Includes(position, log[i].event.gtid, mariaDb)
    && SeqNo(mariaDb)(log[i].event.gtid) == SeqNo(mariaDb)(position)
  }

  /** In a log of one server or one domain the least GTID is in time for every stream that has one. */
  lemma LeastGtidIsInTime(st: State, ids: set<StreamId>, gtid: string, mariaDb: bool, log: seq<Item>, id: StreamId)
    requires Numbered(log, mariaDb) && IsLeastGtid(st, ids, SeqNo(mariaDb), gtid)
    requires id in ids && HasGtid(st, id) && Logged(log, GtidOf(st, id), mariaDb)
    ensures InTime(log, st, id, gtid, mariaDb)
  {
    hide Includes, SeqNo, Through;
    ThroughIs(log, gtid, mariaDb);
    ThroughIs(log, GtidOf(st, id), mariaDb);
    var n := Through(log, gtid, mariaDb);
    var i :| 0 <= i < |log| && EndsWithItem(log, GtidOf(st, id), mariaDb, i);
    if n > 0 { IncludedIsNotAbove(gtid, log[n - 1].event.gtid, mariaDb); }
  }

  // ----- inputs where it fails -----

  /** A MariaDB GTID of one digit each. */
  function Text3(domain: char, server: char, number: char): string {
    [domain, '-', server, '-', number]
  }

  predicate IsDigitChar(c: char) {
    '0' <= c <= '9'
  }

  lemma Text3Parts(domain: char, server: char, number: char)
    requires IsDigitChar(domain) && IsDigitChar(server) && IsDigitChar(number)
    ensures Split(Text3(domain, server, number), '-') == [[domain], [server], [number]]
    ensures IsNumber([number]) && NumberOf([number]) == number as int - '0' as int
    ensures SeqNoOf(Text3(domain, server, number), true) == Some(number as int - '0' as int)
  {
    assert IsNumber([number]);
    assert [number][..0] == "";
    MariaDbParts([domain], [server], [number]);
    assert [domain] + "-" + [server] + "-" + [number] == Text3(domain, server, number);
  }

  lemma Text3Includes(d: char, s: char, n: char, e: char, t: char, m: char)
    requires IsDigitChar(d) && IsDigitChar(s) && IsDigitChar(n) && IsDigitChar(e) && IsDigitChar(t) && IsDigitChar(m)
    ensures Includes(Text3(d, s, n), Text3(e, t, m), true) <==> d == e && m <= n
  {
    hide Split, IsNumber, NumberOf;
    Text3Parts(d, s, n);
    Text3Parts(e, t, m);
  }

  /** Four items: a transaction, and three more. */
  function LogOf(first: string, second: Event, third: Event, fourth: Event): seq<Item> {
    [Item(Pos("f", 4), Event.Gtid(first), None), Item(Pos("f", 5), second, None),
     Item(Pos("f", 6), third, None), Item(Pos("f", 7), fourth, None)]
  }

  /** The log holds two transactions: the second one begins at `p`. */
  predicate TwoIn(log: seq<Item>, a: string, p: nat, b: string) {
    && |log| == 4 && 0 < p < 4 && log[0].event == Event.Gtid(a) && log[p].event == Event.Gtid(b)
    && forall i :: 0 < i < 4 && i != p ==> !log[i].event.Gtid?
  }

  lemma TwoAreOrderly(log: seq<Item>, a: string, p: nat, b: string)
    requires TwoIn(log, a, p, b) && a != "" && b != ""
    requires Includes(a, a, true) && Includes(b, b, true) && !Includes(a, b, true)
    ensures Orderly(log, true)
  {
    hide Includes;
  }

  lemma HandedOverIn(log: seq<Item>, a: string, p: nat, b: string, position: string, i: nat)
    requires TwoIn(log, a, p, b) && i < 4
    ensures HandedOver(log, position, true, i) <==> !Includes(position, if i < p then a else b, true)
  {
    hide Includes, Transaction;
    StillOpen(log, if i < p then 0 else p, i);
  }

  lemma PlacesOneMore(log: seq<Item>, position: string, n: nat)
    requires n < |log|
    ensures Places(log[..n + 1], position, true)
         == Places(log[..n], position, true) + (if HandedOver(log, position, true, n) then [n] else [])
  {
    hide Includes, Transaction;
    assert log[..n + 1][..n] == log[..n] && log[..n + 1][..n + 1] == log[..n + 1];
  }

  /** A reader started from the first of two transactions gets the second. */
  lemma SecondIsSent(log: seq<Item>, a: string, b: string)
    requires TwoIn(log, a, 1, b) && Includes(a, a, true) && !Includes(a, b, true)
    ensures log[1..] == ItemsAt(log, Places(log, a, true))
  {
    hide Includes, Transaction, HandedOver, Places;
    HandedOverIn(log, a, 1, b, a, 0);
    HandedOverIn(log, a, 1, b, a, 1);
    HandedOverIn(log, a, 1, b, a, 2);
    HandedOverIn(log, a, 1, b, a, 3);
    assert log[..0] == [] && log[..4] == log;
    NoPlaces(a);
    PlacesOneMore(log, a, 0);
    PlacesOneMore(log, a, 1);
    PlacesOneMore(log, a, 2);
    PlacesOneMore(log, a, 3);
    assert Places(log, a, true) == [1, 2, 3];
  }

  lemma NoPlaces(position: string)
    ensures Places([], position, true) == []
  {
  }

  lemma LogIsPositioned(log: seq<Item>, first: string, second: Event, third: Event, fourth: Event)
    requires log == LogOf(first, second, third, fourth) && !second.Rotate? && !third.Rotate? && !fourth.Rotate?
    ensures WellPositioned(log)
  {
    hide Less;
  }

  /** From its first item's place a log is needed from its first item on. */
  lemma StandsBefore(log: seq<Item>, at: Pos)
    requires WellPositioned(log) && log != [] && log[0].at == at
    ensures Index(log, at) == 0
  {
    BeforeTotal(at, at);
    IndexSplits(log, at);
  }

  /** Two events of one transaction, with 1000 rows and with one, after the transaction that the run
      started from: the STATE after the first carries the GTID, and the row of the second is not sent again. */
  lemma MidTransactionStateSkipsARow() returns (run: LoopRun, log: seq<Item>)
    ensures run.gtid == Text("0-1-1") && ReadsOn(run, log, true)
    ensures |run.items| == 3 && run.Due(2) && StateMessage(run.StateAfter(2)) in run.Messages(2)
    ensures "t" in run.Ids() && Get(run.StateAfter(2), "t", Field.Gtid) == Text("0-1-2")
    ensures ItemRows(run.context, run.items[2]) == 1 && !CoveredAt(run, log, true, 2, 2)
  {
    hide Includes, Places, Orderly, HandedOver, ItemData, Moved, ItemMoved, PlaceOf, TransactionEnd;
    var many := RowsEvent("t", WriteRows, [], seq(UPDATE_BOOKMARK_PERIOD, i => map[]), "", 0);
    var one := RowsEvent("t", WriteRows, [], [map[]], "", 0);
    var context := Context(map["t" := StreamEntry(CatalogEntry(map[], map[]), {}, Some(1))], {});
    log := LogOf(Text3('0', '1', '1'), Event.Gtid(Text3('0', '1', '2')), Event.Rows(many), Event.Rows(one));
    run := LoopRun(context, log[1..], State(map[], None), Text("0-1-1"));
    assert "0-1-1" == Text3('0', '1', '1') && "0-1-2" == Text3('0', '1', '2');
    Text3Includes('0', '1', '1', '0', '1', '1');
    Text3Includes('0', '1', '2', '0', '1', '2');
    Text3Includes('0', '1', '1', '0', '1', '2');
    TwoAreOrderly(log, "0-1-1", 1, "0-1-2");
    SecondIsSent(log, "0-1-1", "0-1-2");
    TwoEventRun(run, log, many, one);
    RestartIsAtTransactionEnd(run, log, true, 2, 2);
  }

  lemma TwoEventRun(run: LoopRun, log: seq<Item>, many: RowsEvent, one: RowsEvent)
    requires many.stream == one.stream == "t" && many.kind == one.kind == WriteRows
    requires |many.rows| == UPDATE_BOOKMARK_PERIOD && |one.rows| == 1 && "t" in run.context.streams
    requires log == LogOf("0-1-1", Event.Gtid("0-1-2"), Event.Rows(many), Event.Rows(one))
    requires run.items == log[1..] && run.gtid == Text("0-1-1")
    ensures |run.items| == 3 && run.Due(2) && StateMessage(run.StateAfter(2)) in run.Messages(2)
    ensures "t" in run.Ids() && Get(run.StateAfter(2), "t", Field.Gtid) == Text("0-1-2")
    ensures ItemRows(run.context, run.items[2]) == 1 && TransactionEnd(run.items, 2) == 3
  {
    hide ItemData, Moved, ItemMoved;
    assert run.items == [log[1], log[2], log[3]];
    assert run.RowsBy(1) == run.RowsBy(0) && run.RowsBy(2) == run.RowsBy(1) + UPDATE_BOOKMARK_PERIOD;
    assert run.GtidAfter(2) == run.GtidAfter(1) == Text("0-1-2");
    StillOpen(run.items, 0, 1);
    StateCarriesGtid(run, 2, "t");
    assert TransactionEnd(run.items, 2) == TransactionEnd(run.items, 3) == 3;
    assert run.Messages(2)[|run.Messages(2)| - 1] == StateMessage(run.StateAfter(2));
  }

  /** Stream x stands at its coordinates, stream y at the second transaction: x loses its row event in
      the first. */
  lemma StreamWithoutGtidLosesAnEvent() returns (st: State, log: seq<Item>)
    ensures WellPositioned(log) && Orderly(log, true) && Numbered(log, true) && |log| == 4
    ensures !HasMalformed(st, {"x", "y"}, true) && IsLeastGtid(st, {"x", "y"}, SeqNo(true), "0-1-2")
    ensures !HasGtid(st, "x") && log[1].event.Rows? && log[1].event.rows.stream == "x"
    ensures Needed(log, st, "x", true) <= 1 && !HandedOver(log, "0-1-2", true, 1)
  {
    hide Includes, Orderly, Numbered, HandedOver, Index, WellPositioned, Less, Split;
    var ofX, ofY := RowsEvent("x", WriteRows, [], [map[]], "", 0), RowsEvent("y", WriteRows, [], [map[]], "", 0);
    log := LogOf(Text3('0', '1', '1'), Event.Rows(ofX), Event.Gtid(Text3('0', '1', '2')), Event.Rows(ofY));
    st := State(map["x" := map[LogFile := Text("f"), LogPos := Num(4)],
                    "y" := map[Field.Gtid := Text("0-1-2")]], None);
    var a, b := Text3('0', '1', '1'), Text3('0', '1', '2');
    assert "0-1-2" == b;
    Text3Includes('0', '1', '1', '0', '1', '1');
    Text3Includes('0', '1', '2', '0', '1', '2');
    Text3Includes('0', '1', '1', '0', '1', '2');
    Text3Includes('0', '1', '2', '0', '1', '1');
    Text3Parts('0', '1', '1');
    Text3Parts('0', '1', '2');
    LogIsPositioned(log, a, Event.Rows(ofX), Event.Gtid(b), Event.Rows(ofY));
    TwoAreOrderly(log, a, 2, b);
    TwoAreNumbered(log, a, 2, b);
    HandedOverIn(log, a, 2, b, b, 1);
    StandsBefore(log, Pos("f", 4));
    assert HasGtid(st, "y") && GtidOf(st, "y") == b && PosOf(st, "x") == Pos("f", 4);
  }

  lemma TwoAreNumbered(log: seq<Item>, a: string, p: nat, b: string)
    requires TwoIn(log, a, p, b) && SeqNo(true)(a) < SeqNo(true)(b)
    ensures Numbered(log, true)
  {
    hide SeqNo;
  }

  /** Stream x stands at transaction 5 of domain 0, stream y at transaction 3 of domain 1, which is logged
      later: 3 is the least number, and x loses its row event in that transaction. */
  lemma LeastNumberOfAnotherDomainLosesAnEvent() returns (st: State, log: seq<Item>)
    ensures WellPositioned(log) && Orderly(log, true) && |log| == 4
    ensures !HasMalformed(st, {"x", "y"}, true) && IsLeastGtid(st, {"x", "y"}, SeqNo(true), "1-1-3")
    ensures GtidOf(st, "x") == "0-1-5" && Logged(log, "0-1-5", true) && Logged(log, "1-1-3", true)
    ensures log[3].event.Rows? && log[3].event.rows.stream == "x"
    ensures Needed(log, st, "x", true) <= 3 && !HandedOver(log, "1-1-3", true, 3)
  {
    hide Includes, Orderly, HandedOver, Index, WellPositioned, Less, Split;
    var ofX, ofY := RowsEvent("x", WriteRows, [], [map[]], "", 0), RowsEvent("y", WriteRows, [], [map[]], "", 0);
    log := LogOf(Text3('0', '1', '5'), Event.Rows(ofY), Event.Gtid(Text3('1', '1', '3')), Event.Rows(ofX));
    st := State(map["x" := map[Field.Gtid := Text("0-1-5")], "y" := map[Field.Gtid := Text("1-1-3")]], None);
    var a, b := Text3('0', '1', '5'), Text3('1', '1', '3');
    assert "0-1-5" == a && "1-1-3" == b;
    Text3Includes('0', '1', '5', '0', '1', '5');
    Text3Includes('1', '1', '3', '1', '1', '3');
    Text3Includes('0', '1', '5', '1', '1', '3');
    Text3Parts('0', '1', '5');
    Text3Parts('1', '1', '3');
    LogIsPositioned(log, a, Event.Rows(ofY), Event.Gtid(b), Event.Rows(ofX));
    TwoAreOrderly(log, a, 2, b);
    HandedOverIn(log, a, 2, b, b, 3);
    assert EndsWithItem(log, a, true, 0) && EndsWithItem(log, b, true, 2);
    assert HasGtid(st, "x") && GtidOf(st, "x") == a && HasGtid(st, "y") && GtidOf(st, "y") == b;
    FirstEndsBefore(log, a, 2, b);
  }

  lemma FirstEndsBefore(log: seq<Item>, a: string, p: nat, b: string)
    requires TwoIn(log, a, p, b) && !Includes(a, b, true)
    ensures End(log, a, true) <= p
  {
    hide Includes, Through;
    ThroughIs(log, a, true);
  }
}
