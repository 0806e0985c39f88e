/**
 Which streams a run syncs by SELECT and which by binlog, and in what order: `get_non_binlog_streams`
 and `get_binlog_streams`, up to matching the streams with the tables that still exist.
 */
module Scheduling {
  import opened Singer
  import opened QuerySpec
  import opened Historical

  datatype Selected = Selected(id: StreamId, replication: Replication, isView: bool)

  /** An entry in the state that is not empty. */
  predicate HasState(st: State, s: Selected) {
    BookmarkOf(st, s.id) != map[]
  }

  predicate ForBinlog(st: State, s: Selected) {
    s.replication == LogBased && !RequiresHistorical(st, s.id)
  }

  predicate IsNew(st: State, s: Selected) {
    !HasState(st, s)
  }

  /** Synced before, or interrupted in a snapshot. */
  predicate IsKnown(st: State, s: Selected) {
    HasState(st, s) && !ForBinlog(st, s)
  }

  /** `is_valid_currently_syncing_stream`. */
  predicate ValidCurrentlySyncing(st: State, s: Selected) {
    s.replication != LogBased || RequiresHistorical(st, s.id)
  }

  function New(st: State): Selected -> bool { s => IsNew(st, s) }

  function Known(st: State): Selected -> bool { s => IsKnown(st, s) }

  function Binlog(st: State): Selected -> bool { s => ForBinlog(st, s) }

  function Named(id: StreamId): Selected -> bool { (s: Selected) => s.id == id }

  function NotNamed(id: StreamId): Selected -> bool { (s: Selected) => s.id != id }

  function NamedAndValid(st: State, id: StreamId): Selected -> bool {
    (s: Selected) => s.id == id && ValidCurrentlySyncing(st, s)
  }

  function Keep(streams: seq<Selected>, p: Selected -> bool): seq<Selected> {
    if streams == [] then []
    else Keep(streams[..|streams| - 1], p)
         + (if p(streams[|streams| - 1]) then [streams[|streams| - 1]] else [])
  }

  lemma KeepOne(streams: seq<Selected>, k: nat, p: Selected -> bool)
    requires k < |streams|
    ensures Keep(streams[..k + 1], p) == Keep(streams[..k], p) + (if p(streams[k]) then [streams[k]] else [])
  {
    assert streams[..k + 1][..k] == streams[..k];
  }

  lemma {:induction false} KeepContains(streams: seq<Selected>, p: Selected -> bool, s: Selected)
    ensures s in Keep(streams, p) <==> s in streams && p(s)
  {
    if streams != [] {
      KeepContains(streams[..|streams| - 1], p, s);
      assert streams == streams[..|streams| - 1] + [streams[|streams| - 1]];
    }
  }

  lemma {:induction false} KeepConcat(a: seq<Selected>, b: seq<Selected>, p: Selected -> bool)
    ensures Keep(a + b, p) == Keep(a, p) + Keep(b, p)
  {
    if b == [] {
      assert a + b == a;
    } else {
      KeepConcat(a, b[..|b| - 1], p);
      assert (a + b)[..|a + b| - 1] == a + b[..|b| - 1];
    }
  }

  /** The streams by SELECT: the new ones, then the known ones, each in catalog order. */
  function BySelect(st: State, selected: seq<Selected>): seq<Selected> {
    Keep(selected, New(st)) + Keep(selected, Known(st))
  }

  /** The order after a sync was interrupted: the stream that was under way, then the others. */
  function Resumed(st: State, selected: seq<Selected>, current: StreamId): seq<Selected> {
    Keep(Keep(selected, Known(st)), NamedAndValid(st, current))
    + Keep(BySelect(st, selected), NotNamed(current))
  }

  // ----- the order of the list -----

  /** The stream that the state names as under way. */
  function UnderWay(st: State): Option<StreamId> {
    if st.currentlySyncing.Some? && st.currentlySyncing.value != "" then st.currentlySyncing else None
  }

  /** The streams stand at these places of the catalog: the ones without state before those with state, and
      each of the two kinds in the order of the catalog. */
  ghost predicate StandAt(st: State, selected: seq<Selected>, streams: seq<Selected>, places: seq<nat>) {
    && |places| == |streams|
    && (forall i :: 0 <= i < |streams| ==> places[i] < |selected| && selected[places[i]] == streams[i])
    && (forall i, j :: 0 <= i < j < |streams| ==> Precedes(st, streams[i], places[i], streams[j], places[j]))
  }

  predicate Precedes(st: State, a: Selected, i: nat, b: Selected, j: nat) {
    (!HasState(st, a) && HasState(st, b)) || ((HasState(st, a) <==> HasState(st, b)) && i < j)
  }

  ghost predicate NewFirst(st: State, selected: seq<Selected>, streams: seq<Selected>) {
    exists places :: StandAt(st, selected, streams, places)
  }

  /** The list of a run: at its front the stream that was under way, then the others, new ones first. */
  ghost predicate InOrder(st: State, selected: seq<Selected>, streams: seq<Selected>) {
    exists n :: 0 <= n <= |streams| && NewFirst(st, selected, streams[..n]) && NewFirst(st, selected, streams[n..])
                && forall i :: 0 <= i < |streams| ==> (i < n <==> UnderWay(st) == Some(streams[i].id))
  }

  /** It has the streams that are not for the binlog, but for a new one named as under way. */
  ghost predicate IsWhole(st: State, selected: seq<Selected>, streams: seq<Selected>) {
    forall s :: s in streams <==>
      && s in selected && (s.replication == LogBased ==> RequiresHistorical(st, s.id))
      && (HasState(st, s) || UnderWay(st) != Some(s.id))
  }

  /** The places of the streams that are kept. */
  function KeptPlaces(streams: seq<Selected>, p: Selected -> bool): (places: seq<nat>)
    ensures |places| == |Keep(streams, p)|
    ensures forall i :: 0 <= i < |places| ==>
              places[i] < |streams| && streams[places[i]] == Keep(streams, p)[i] && p(streams[places[i]])
    ensures forall i, j :: 0 <= i < j < |places| ==> places[i] < places[j]
  {
    if streams == [] then []
    else KeptPlaces(streams[..|streams| - 1], p) + (if p(streams[|streams| - 1]) then [|streams| - 1] else [])
  }

  lemma KeptStayInOrder(st: State, selected: seq<Selected>, streams: seq<Selected>, p: Selected -> bool)
    requires NewFirst(st, selected, streams)
    ensures NewFirst(st, selected, Keep(streams, p))
  {
    hide HasState, Keep;
    var places :| StandAt(st, selected, streams, places);
    var kept := KeptPlaces(streams, p);
    assert StandAt(st, selected, Keep(streams, p), seq(|kept|, i requires 0 <= i < |kept| => places[kept[i]]));
  }

  lemma BySelectIsInOrder(st: State, selected: seq<Selected>)
    ensures NewFirst(st, selected, BySelect(st, selected))
  {
    hide HasState, Keep, ForBinlog;
    var a, b := KeptPlaces(selected, New(st)), KeptPlaces(selected, Known(st));
    assert StandAt(st, selected, BySelect(st, selected), a + b);
  }

  lemma KnownAreInOrder(st: State, selected: seq<Selected>)
    ensures NewFirst(st, selected, Keep(selected, Known(st)))
  {
    hide HasState, Keep, ForBinlog;
    assert StandAt(st, selected, Keep(selected, Known(st)), KeptPlaces(selected, Known(st)));
  }

  lemma NoneAreInOrder(st: State, selected: seq<Selected>)
    ensures NewFirst(st, selected, [])
  {
    assert StandAt(st, selected, [], []);
  }

  lemma {:induction false} KeepIs(streams: seq<Selected>, p: Selected -> bool)
    ensures forall s :: s in Keep(streams, p) <==> s in streams && p(s)
  {
    forall s ensures s in Keep(streams, p) <==> s in streams && p(s) {
      KeepContains(streams, p, s);
    }
  }

  lemma BySelectIsTheList(st: State, selected: seq<Selected>)
    requires UnderWay(st).None?
    ensures InOrder(st, selected, BySelect(st, selected)) && IsWhole(st, selected, BySelect(st, selected))
  {
    hide HasState, Keep;
    var streams := BySelect(st, selected);
    KeepIs(selected, New(st));
    KeepIs(selected, Known(st));
    BySelectIsInOrder(st, selected);
    NoneAreInOrder(st, selected);
    assert streams[..0] == [] && streams[0..] == streams;
    NewHasNoBinlog(st);
  }

  lemma NewHasNoBinlog(st: State)
    ensures forall s :: ForBinlog(st, s) ==> HasState(st, s)
  {
  }

  lemma ResumedIsTheList(st: State, selected: seq<Selected>, current: StreamId)
    requires UnderWay(st) == Some(current)
    ensures InOrder(st, selected, Resumed(st, selected, current))
    ensures IsWhole(st, selected, Resumed(st, selected, current))
  {
    hide HasState, Keep, NewFirst, RequiresHistorical;
    var known, all := Keep(selected, Known(st)), BySelect(st, selected);
    var first, others := Keep(known, NamedAndValid(st, current)), Keep(all, NotNamed(current));
    var streams := Resumed(st, selected, current);
    KeepIs(selected, New(st));
    KeepIs(selected, Known(st));
    KeepIs(known, NamedAndValid(st, current));
    KeepIs(all, NotNamed(current));
    BySelectIsInOrder(st, selected);
    KnownAreInOrder(st, selected);
    KeptStayInOrder(st, selected, known, NamedAndValid(st, current));
    KeptStayInOrder(st, selected, all, NotNamed(current));
    assert streams[..|first|] == first && streams[|first|..] == others;
    forall i | 0 <= i < |streams| ensures i < |first| <==> Some(current) == Some(streams[i].id) {
      assert if i < |first| then streams[i] == first[i] && first[i] in first
             else streams[i] == others[i - |first|] && others[i - |first|] in others;
    }
    NewHasNoBinlog(st);
  }

  /** A known stream and then a new one in the catalog: the new one is synced first. */
  lemma NewStreamGoesFirst(st: State, a: Selected, b: Selected, streams: seq<Selected>)
    requires HasState(st, a) && !ForBinlog(st, a) && !HasState(st, b) && UnderWay(st).None?
    requires InOrder(st, [a, b], streams) && IsWhole(st, [a, b], streams)
    ensures streams == [b, a]
  {
    hide HasState, RequiresHistorical, StandAt;
    var n :| 0 <= n <= |streams| && NewFirst(st, [a, b], streams[..n]) && NewFirst(st, [a, b], streams[n..])
             && forall i :: 0 <= i < |streams| ==> (i < n <==> UnderWay(st) == Some(streams[i].id));
    var first := if streams == [] then None else Some(streams[0].id);
    assert streams[0..] == streams;
    var places :| StandAt(st, [a, b], streams, places);
    assert [a, b][0] in [a, b] && [a, b][1] in [a, b];
    NewHasNoBinlog(st);
    TwoInOrder(st, a, b, streams, places);
  }

  lemma TwoInOrder(st: State, a: Selected, b: Selected, streams: seq<Selected>, places: seq<nat>)
    requires HasState(st, a) && !HasState(st, b) && StandAt(st, [a, b], streams, places)
    requires a in streams && b in streams
    ensures streams == [b, a]
  {
    hide HasState;
    forall i | 0 <= i < |streams| ensures places[i] < 2 && streams[i] == if places[i] == 0 then a else b {
      assert [a, b][places[i]] == streams[i];
    }
    forall i, j | 0 <= i < j < |streams| ensures streams[i] == b && streams[j] == a {
      assert Precedes(st, streams[i], places[i], streams[j], places[j]);
    }
    var i :| 0 <= i < |streams| && streams[i] == a;
    var j :| 0 <= j < |streams| && streams[j] == b;
    var middle := streams[|streams| / 2];
  }

  /** `get_non_binlog_streams`.  No list stands for the exception about a view. */
  method GetNonBinlogStreams(selected: seq<Selected>, st: State) returns (streams: Option<seq<Selected>>)
    ensures streams == None <==>
              exists s :: s in selected && s.isView && IsKnown(st, s) && s.replication == LogBased
    ensures streams.Some? ==>
              streams.value == if st.currentlySyncing.Some? && st.currentlySyncing.value != ""
                               then Resumed(st, selected, st.currentlySyncing.value) else BySelect(st, selected)
    ensures streams.Some? ==> InOrder(st, selected, streams.value) && IsWhole(st, selected, streams.value)
  {
    hide InOrder, IsWhole;
    var withState, withoutState: seq<Selected> := [], [];
    for i := 0 to |selected|
      invariant withoutState == Keep(selected[..i], New(st))
      invariant withState == Keep(selected[..i], Known(st))
      invariant forall s :: s in selected[..i] ==> !(s.isView && IsKnown(st, s) && s.replication == LogBased)
    {
      var stream := selected[i];
      KeepOne(selected, i, New(st));
      KeepOne(selected, i, Known(st));
      if !HasState(st, stream) {
        withoutState := withoutState + [stream];
      } else if stream.replication == LogBased && RequiresHistorical(st, stream.id) {
        if stream.isView {
          return None;
        }
        withState := withState + [stream];
      } else if stream.replication != LogBased {
        withState := withState + [stream];
      }
    }
    assert selected[..|selected|] == selected;
    var ordered := withoutState + withState;
    if st.currentlySyncing.Some? && st.currentlySyncing.value != "" {
      var current := st.currentlySyncing.value;
      streams := Some(Keep(withState, NamedAndValid(st, current))
                      + Keep(ordered, NotNamed(current)));
      ResumedIsTheList(st, selected, current);
    } else {
      BySelectIsTheList(st, selected);
      streams := Some(ordered);
    }
  }

  /** `get_binlog_streams`. */
  method GetBinlogStreams(selected: seq<Selected>, st: State) returns (streams: seq<Selected>)
    ensures streams == Keep(selected, Binlog(st))
    ensures forall s :: s in streams <==>
              s in selected && s.replication == LogBased && !RequiresHistorical(st, s.id)
    ensures InCatalogOrder(selected, streams)
  {
    streams := [];
    for i := 0 to |selected|
      invariant streams == Keep(selected[..i], Binlog(st))
    {
      KeepOne(selected, i, Binlog(st));
      if selected[i].replication == LogBased && !RequiresHistorical(st, selected[i].id) {
        streams := streams + [selected[i]];
      }
    }
    assert selected[..|selected|] == selected;
    KeepIs(selected, Binlog(st));
    assert StandInOrder(selected, streams, KeptPlaces(selected, Binlog(st)));
  }

  ghost predicate InCatalogOrder(selected: seq<Selected>, streams: seq<Selected>) {
    exists places :: StandInOrder(selected, streams, places)
  }

  ghost predicate StandInOrder(selected: seq<Selected>, streams: seq<Selected>, places: seq<nat>) {
    && |places| == |streams|
    && (forall i :: 0 <= i < |streams| ==> places[i] < |selected| && selected[places[i]] == streams[i])
    && (forall i, j :: 0 <= i < j < |streams| ==> places[i] < places[j])
  }

  /** An entry in the state that holds nothing counts as none. */
  lemma EmptyEntryIsNew(s: Selected)
    ensures !HasState(State(map[s.id := map[]], None), s) && !HasState(State(map[], None), s)
    ensures HasState(State(map[s.id := map[Version := Num(1)]], None), s)
  {
    assert Version in map[Version := Num(1)];
  }

  /** Every selected stream is in exactly one of the two lists. */
  lemma ListsPartition(st: State, selected: seq<Selected>, s: Selected)
    requires s in selected
    ensures s in BySelect(st, selected) <==> s !in Keep(selected, Binlog(st))
  {
    KeepContains(selected, New(st), s);
    KeepContains(selected, Known(st), s);
    KeepContains(selected, Binlog(st), s);
  }

  lemma {:induction false} PartsAddUp(streams: seq<Selected>, p: Selected -> bool, q: Selected -> bool)
    requires forall s :: s in streams ==> (p(s) <==> !q(s))
    ensures multiset(Keep(streams, p)) + multiset(Keep(streams, q)) == multiset(streams)
  {
    if streams == [] {
      assert Keep(streams, p) == [] && Keep(streams, q) == [];
    } else {
      var front, last := streams[..|streams| - 1], streams[|streams| - 1];
      PartsAddUp(front, p, q);
      LastAddsUp(Keep(front, p), Keep(front, q), front, last, p(last));
      assert streams == front + [last];
      assert Keep(streams, p) == Keep(front, p) + (if p(last) then [last] else []);
      assert Keep(streams, q) == Keep(front, q) + (if p(last) then [] else [last]);
    }
  }

  lemma LastAddsUp(a: seq<Selected>, b: seq<Selected>, front: seq<Selected>, last: Selected, first: bool)
    requires multiset(a) + multiset(b) == multiset(front)
    ensures multiset(a + (if first then [last] else [])) + multiset(b + (if first then [] else [last]))
         == multiset(front + [last])
  {
    if first { assert b + [] == b; } else { assert a + [] == a; }
  }

  lemma {:induction false} KeepAgrees(streams: seq<Selected>, p: Selected -> bool, q: Selected -> bool)
    requires forall s :: s in streams ==> (p(s) <==> q(s))
    ensures Keep(streams, p) == Keep(streams, q)
  {
    if streams != [] { KeepAgrees(streams[..|streams| - 1], p, q); }
  }

  /** A known stream that was under way counts as valid. */
  lemma KnownStreamsAreValid(st: State, selected: seq<Selected>, current: StreamId)
    ensures var known := Keep(selected, Known(st));
            Keep(known, NamedAndValid(st, current)) == Keep(known, Named(current))
  {
    var known := Keep(selected, Known(st));
    forall s | s in known ensures ValidCurrentlySyncing(st, s) {
      KeepContains(selected, Known(st), s);
    }
    KeepAgrees(known, NamedAndValid(st, current), Named(current));
  }

  /** The reordering keeps every stream, except one: a stream named as under way that has no entry
      in the state yet is left out of the run. */
  lemma ReorderingDropsOnlyANewStream(st: State, selected: seq<Selected>, current: StreamId)
    ensures multiset(Resumed(st, selected, current)) + multiset(Dropped(st, selected, current))
            == multiset(BySelect(st, selected))
    ensures multiset(Resumed(st, selected, current)) == multiset(BySelect(st, selected))
            <==> forall s :: s in selected && s.id == current ==> HasState(st, s)
  {
    var new_, known := Keep(selected, New(st)), Keep(selected, Known(st));
    var first, others := Keep(known, Named(current)), Keep(BySelect(st, selected), NotNamed(current));
    KnownStreamsAreValid(st, selected, current);
    KeepConcat(new_, known, Named(current));
    PartsAddUp(BySelect(st, selected), Named(current), NotNamed(current));
    JoinAddsUp(Dropped(st, selected, current), first, others);
    DroppedAreNew(st, selected, current);
    NothingDropped(multiset(Resumed(st, selected, current)), Dropped(st, selected, current),
                   multiset(BySelect(st, selected)));
  }

  /** The new streams with that name. */
  function Dropped(st: State, selected: seq<Selected>, current: StreamId): seq<Selected> {
    Keep(Keep(selected, New(st)), Named(current))
  }

  lemma JoinAddsUp(dropped: seq<Selected>, first: seq<Selected>, others: seq<Selected>)
    ensures multiset(first + others) + multiset(dropped) == multiset(dropped + first) + multiset(others)
  {
  }

  lemma DroppedAreNew(st: State, selected: seq<Selected>, current: StreamId)
    ensures Dropped(st, selected, current) == [] <==> forall s :: s in selected && s.id == current ==> HasState(st, s)
  {
    var dropped := Dropped(st, selected, current);
    forall s ensures s in dropped <==> s in selected && IsNew(st, s) && s.id == current {
      KeepContains(selected, New(st), s);
      KeepContains(Keep(selected, New(st)), Named(current), s);
    }
    if dropped != [] { assert dropped[0] in dropped; }
  }

  lemma NothingDropped(a: multiset<Selected>, dropped: seq<Selected>, b: multiset<Selected>)
    requires a + multiset(dropped) == b
    ensures a == b <==> dropped == []
  {
    if dropped != [] {
      assert b[dropped[0]] == a[dropped[0]] + multiset(dropped)[dropped[0]];
      assert dropped[0] in multiset(dropped);
    }
  }

  /** The only stream is new and named as under way: nothing is synced. */
  lemma NewStreamUnderWayIsLeftOut()
    ensures var st, selected := State(map[], Some("t")), [Selected("t", QuerySpec.FullTable, false)];
            BySelect(st, selected) == selected && Resumed(st, selected, "t") == []
  {
    var st, selected := State(map[], Some("t")), [Selected("t", QuerySpec.FullTable, false)];
    assert selected[..0] == [];
    assert Keep(selected, New(st)) == Keep(selected[..0], New(st)) + selected == selected;
    assert Keep(selected, Known(st)) == Keep(selected[..0], Known(st)) + [] == [];
    assert BySelect(st, selected) == selected;
    assert Keep(selected, NotNamed("t")) == Keep(selected[..0], NotNamed("t")) + [] == [];
  }

  /** A known stream that was under way comes first, and the others keep their order. */
  lemma KnownStreamComesFirst(st: State, selected: seq<Selected>, current: Selected)
    requires current in selected && IsKnown(st, current)
    requires forall s :: s in selected && s.id == current.id ==> s == current
    requires forall i, j :: 0 <= i < j < |selected| ==> selected[i].id != selected[j].id
    ensures Resumed(st, selected, current.id) == [current] + Keep(BySelect(st, selected), NotNamed(current.id))
  {
    var known := Keep(selected, Known(st));
    KnownStreamsAreValid(st, selected, current.id);
    KeepContains(selected, Known(st), current);
    KeptOnce(selected, st, current);
  }

  lemma {:induction false} KeptOnce(selected: seq<Selected>, st: State, current: Selected)
    requires forall i, j :: 0 <= i < j < |selected| ==> selected[i].id != selected[j].id
    requires current in selected ==> IsKnown(st, current)
    requires forall s :: s in selected && s.id == current.id ==> s == current
    ensures Keep(Keep(selected, Known(st)), Named(current.id)) == if current in selected then [current] else []
  {
    hide HasState, ForBinlog;
    if selected != [] {
      var front, last := selected[..|selected| - 1], selected[|selected| - 1];
      LastIsApart(selected, front, last);
      KeptOnce(front, st, current);
      KeepLast(selected, front, last, Known(st));
      var known, one := Keep(front, Known(st)), if IsKnown(st, last) then [last] else [];
      KeepConcat(known, one, Named(current.id));
      KeepOfOne(st, last, current);
    }
  }

  lemma LastIsApart(selected: seq<Selected>, front: seq<Selected>, last: Selected)
    requires selected == front + [last]
    requires forall i, j :: 0 <= i < j < |selected| ==> selected[i].id != selected[j].id
    ensures forall i, j :: 0 <= i < j < |front| ==> front[i].id != front[j].id
    ensures last !in front && forall s :: s in selected <==> s in front || s == last
  {
    assert forall i :: 0 <= i < |front| ==> selected[i] == front[i];
    assert selected[|front|] == last;
  }

  lemma KeepLast(selected: seq<Selected>, front: seq<Selected>, last: Selected, p: Selected -> bool)
    requires selected == front + [last]
    ensures Keep(selected, p) == Keep(front, p) + (if p(last) then [last] else [])
  {
    assert selected[..|selected| - 1] == front;
  }

  lemma KeepOfOne(st: State, last: Selected, current: Selected)
    requires last.id == current.id ==> last == current
    requires last == current ==> IsKnown(st, current)
    ensures Keep(if IsKnown(st, last) then [last] else [], Named(current.id))
         == if last == current then [current] else []
  {
    hide IsKnown;
    if IsKnown(st, last) {
      assert [last] == [] + [last];
      KeepLast([last], [], last, Named(current.id));
      assert Keep([], Named(current.id)) == [];
    }
  }
}
