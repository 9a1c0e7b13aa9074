/**
 The relations table of src/db.rs as a replica of the event store: it applies every event
 and every derivative, one row per edge, and never renumbers anything itself.
 */
module Replica {
  import opened Properties
  import opened BeliefStore

  /** `Transaction::add_event`, as far as the relations table is concerned. */
  function AddEvent(table: Relations, ev: BeliefEvent): Relations {
    match ev
    case RelationUpdate(s, t, ws, _) => WriteEdge(table, (s, t), ws)
    case RelationRemoved(s, t, _) => table - {(s, t)}
    // node events touch another table, and a RelationChange waits for the update it resolves to
    case _ => table
  }

  function AddEvents(table: Relations, events: seq<BeliefEvent>): Relations
    decreases |events|
  {
    if events == [] then table
    else AddEvents(AddEvent(table, events[0]), events[1..])
  }

  function Live(table: Relations, nodes: set<Bid>): Relations {
    map e | e in table && e.0 in nodes && e.1 in nodes :: table[e]
  }

  /** The table equals the store's edges once rows with a dead endpoint are ignored. */
  ghost predicate Agrees(table: Relations, st: Store) {
    Live(table, st.nodes) == st.rel
  }

  ghost predicate Mentions(events: seq<BeliefEvent>, e: Edge) {
    exists ev :: ev in events && ev.RelationUpdate? && (ev.source, ev.sink) == e
  }

  /** Applying updates that all carry the weights of `final` rewrites exactly the rows they name. */
  lemma {:induction false} ApplyChanges(table: Relations, events: seq<BeliefEvent>, final: Relations, e: Edge)
    requires forall ev | ev in events ::
               ev.RelationUpdate? && (ev.source, ev.sink) in final && ev.weights == final[(ev.source, ev.sink)] != map[]
    ensures var after := AddEvents(table, events);
            if Mentions(events, e)
            then e in after && after[e] == final[e]
            else (e in after <==> e in table) && (e in table ==> after[e] == table[e])
    decreases |events|
  {
    if events == [] {
    } else {
      var first, rest := events[0], events[1..];
      assert events == [first] + rest;
      ApplyChanges(AddEvent(table, first), rest, final, e);
      if Mentions(events, e) && !Mentions(rest, e) {
        assert (first.source, first.sink) == e;
      }
    }
  }

  /** Change events bring a table that agreed before a renumbering to agree after it. */
  lemma CatchesUp(table: Relations, nodes: set<Bid>, r: Relations, r': Relations, sinks: SinkKinds,
      events: seq<BeliefEvent>)
    requires Live(table, nodes) == r && SameButKeys(r, r', sinks) && ChangeEvents(r, r', events)
    ensures Live(AddEvents(table, events), nodes) == r'
  {
    var after := AddEvents(table, events);
    forall e | e in r && r'[e] != r[e] ensures r'[e] != map[] {
      assert r'[e].Keys == r[e].Keys;
    }
    forall e: Edge | e.0 in nodes && e.1 in nodes
      ensures e in after <==> e in r'
      ensures e in after ==> after[e] == r'[e]
    {
      ApplyChanges(table, events, r', e);
      if e in r && r'[e] != r[e] {
        var ev := RelationUpdate(e.0, e.1, r'[e], Local);
        assert ev in events && (ev.source, ev.sink) == e;
      }
    }
    forall e | e in after && !(e.0 in nodes && e.1 in nodes) ensures e !in r' {
    }
  }

  lemma WriteIsLive(table: Relations, nodes: set<Bid>, e: Edge, ws: WeightSet)
    ensures Live(WriteEdge(table, e, ws), nodes) ==
            if e.0 in nodes && e.1 in nodes then WriteEdge(Live(table, nodes), e, ws) else Live(table, nodes)
  {
  }

  lemma WriteCatchesUp(table: Relations, st: Store, s: Bid, t: Bid, ws: WeightSet, st': Store, events: seq<BeliefEvent>)
    requires st.Valid() && Agrees(table, st) && UpdatesRelation(st, s, t, ws, st', events)
    ensures Agrees(AddEvents(WriteEdge(table, (s, t), ws), events), st')
  {
    WriteIsLive(table, st.nodes, (s, t), ws);
    if s in st.nodes && t in st.nodes {
      var lost := WeightsAt(st.rel, (s, t)).Keys - ws.Keys;
      CatchesUp(WriteEdge(table, (s, t), ws), st.nodes, WriteEdge(st.rel, (s, t), ws), st'.rel, map[t := lost], events);
    }
  }

  /** No row joins `n` to itself or to a node of `nodes`. */
  ghost predicate NoRowJoins(table: Relations, n: Bid, nodes: set<Bid>) {
    forall e | e in table && (e.0 == n || e.1 == n) ::
      !(e.0 in nodes + {n} && e.1 in nodes + {n})
  }

  /** The event makes a node live that was not. */
  predicate Revives(st: Store, ev: BeliefEvent) {
    ev.NodeUpdate? && ev.origin == Remote && ev.node.bid !in st.nodes
  }

  /** Local events are already part of the store that made them. */
  predicate FromOutside(ev: BeliefEvent) {
    ev.NoStoreEffect? || ev.origin == Remote
  }

  /**
   One event and its derivatives keep the replica in agreement, exactly unless the event
   makes a node live for which the table still holds a row to a live node.
   */
  lemma StepAgreesIff(table: Relations, st: Store, ev: BeliefEvent, st': Store, events: seq<BeliefEvent>)
    requires st.Valid() && Agrees(table, st) && Processes(st, ev, st', events) && FromOutside(ev)
    ensures Agrees(AddEvents(table, [ev] + events), st')
            <==> (Revives(st, ev) ==> NoRowJoins(table, ev.node.bid, st.nodes))
  {
    assert ([ev] + events)[1..] == events;
    assert AddEvents(table, [ev] + events) == AddEvents(AddEvent(table, ev), events);
    hide Agrees, UpdatesRelation, RemovesNodes, GenerateEdgeUpdate, Store.Valid, AddEvents;
    match ev
    case NoStoreEffect =>
      NothingDerived(table);
    case MalformedNodeUpdate(_) =>
      NothingDerived(table);
    case NodeUpdate(node, _) =>
      NothingDerived(table);
      NodeUpdateAgreesIff(table, st, node);
    case NodesRemoved(bids, _) =>
      RemovalAgrees(table, st, BidSet(bids), st', events);
    case RelationUpdate(s, t, ws, _) =>
      WriteCatchesUp(table, st, s, t, ws, st', events);
    case RelationRemoved(s, t, _) =>
      WriteCatchesUp(table, st, s, t, map[], st', events);
    case RelationChange(s, t, k, w, origin) =>
      if GenerateEdgeUpdate(st, s, t, k, w).Some? {
        WriteCatchesUp(table, st, s, t, events[0].weights, st', events[1..]);
        AddEventsHead(table, events);
      } else {
        NothingDerived(table);
      }
  }

  lemma NothingDerived(table: Relations)
    ensures AddEvents(table, []) == table
  {
  }

  lemma AddEventsHead(table: Relations, events: seq<BeliefEvent>)
    requires events != []
    ensures AddEvents(table, events) == AddEvents(AddEvent(table, events[0]), events[1..])
  {
  }

  lemma RemovalAgrees(table: Relations, st: Store, bids: set<Bid>, st': Store, events: seq<BeliefEvent>)
    requires st.Valid() && Agrees(table, st) && RemovesNodes(st, bids, st', events)
    ensures Agrees(AddEvents(table, events), st')
  {
    var kept := WithoutNodes(st.rel, bids);
    assert Live(table, st'.nodes) == kept by {
      forall e | e in table && e.0 in st'.nodes && e.1 in st'.nodes
        ensures e in kept && kept[e] == table[e]
      {
        assert e in Live(table, st.nodes);
      }
    }
    CatchesUp(table, st'.nodes, kept, st'.rel, LostSinks(st.rel, bids), events);
  }

  lemma NodeUpdateAgreesIff(table: Relations, st: Store, node: BeliefNode)
    requires st.Valid() && Agrees(table, st)
    ensures Agrees(table, InsertState(st, node)) <==> (node.bid !in st.nodes ==> NoRowJoins(table, node.bid, st.nodes))
  {
    var n, nodes := node.bid, st.nodes + {node.bid};
    if n in st.nodes {
      assert nodes == st.nodes;
    } else if NoRowJoins(table, n, st.nodes) {
      assert Live(table, nodes) == Live(table, st.nodes);
    } else {
      var e :| e in table && (e.0 == n || e.1 == n) && e.0 in nodes && e.1 in nodes;
      assert e in Live(table, nodes) && e !in st.rel;
    }
  }

  // ------------------------------------------------------------------ whole runs

  /** The replica's tables along a run. */
  ghost predicate Replicates(tables: seq<Relations>, evs: seq<BeliefEvent>, derived: seq<seq<BeliefEvent>>) {
    && |tables| == |evs| + 1 && |derived| == |evs|
    && forall i | 0 <= i < |evs| :: tables[i + 1] == AddEvents(tables[i], [evs[i]] + derived[i])
  }

  /** Relation events name live nodes. */
  ghost predicate LiveEndpoints(st: Store, ev: BeliefEvent) {
    ev.RelationUpdate? || ev.RelationChange? ==> ev.source in st.nodes && ev.sink in st.nodes
  }

  /**
   An edge is written, its source removed, and the source comes back: the table has kept the row and now shows
   an edge that the store lacks.
   */
  lemma RevivedRowDisagrees(node: BeliefNode, other: BeliefNode, ws: WeightSet)
    returns (stores: seq<Store>, tables: seq<Relations>, evs: seq<BeliefEvent>, derived: seq<seq<BeliefEvent>>)
    requires node.bid != other.bid && ws != map[]
    ensures Run(stores, evs, derived) && Replicates(tables, evs, derived) && |evs| == 3
    ensures stores[0].OrphanFree() && tables[0] == map[] == stores[0].rel
    ensures forall i | 0 <= i < |evs| :: FromOutside(evs[i]) && LiveEndpoints(stores[i], evs[i])
    ensures Agrees(tables[2], stores[2]) && !Agrees(tables[3], stores[3])
  {
    var s, t := node.bid, other.bid;
    var st0 := Store(map[s := node, t := other], {s, t}, map[]);
    var st1 := st0.(rel := map[(s, t) := ws]);
    var st2 := Store(map[t := other], {t}, map[]);
    var st3 := InsertState(st2, node);
    stores := [st0, st1, st2, st3];
    evs := [RelationUpdate(s, t, ws, Remote), NodesRemoved([s], Remote), NodeUpdate(node, Remote)];
    derived := [[], [], []];
    tables := [map[], st1.rel, st1.rel, st1.rel];
    hide Processes, AddEvents, WriteEdge, Agrees, Run, Replicates, InsertState;
    EdgeWritten(st0, s, t, ws);
    SourceGone(node, other, ws);
    SourceBack(st1.rel, st2, node, other, ws);
    ThreeSteps(stores, evs);
    ThreeTables(tables, evs);
  }

  lemma ThreeSteps(stores: seq<Store>, evs: seq<BeliefEvent>)
    requires |stores| == 4 && |evs| == 3
    requires Processes(stores[0], evs[0], stores[1], []) && Processes(stores[1], evs[1], stores[2], [])
    requires Processes(stores[2], evs[2], stores[3], [])
    ensures Run(stores, evs, [[], [], []])
  {
    hide Processes;
  }

  lemma ThreeTables(tables: seq<Relations>, evs: seq<BeliefEvent>)
    requires |tables| == 4 && |evs| == 3
    requires tables[1] == AddEvent(tables[0], evs[0]) && tables[2] == AddEvent(tables[1], evs[1])
    requires tables[3] == AddEvent(tables[2], evs[2])
    ensures Replicates(tables, evs, [[], [], []])
  {
    AddOne(tables[0], evs[0]);
    AddOne(tables[1], evs[1]);
    AddOne(tables[2], evs[2]);
    hide AddEvents, AddEvent;
  }

  lemma EdgeWritten(st: Store, s: Bid, t: Bid, ws: WeightSet)
    requires s in st.nodes && t in st.nodes && st.rel == map[] && ws != map[]
    ensures WriteEdge(map[], (s, t), ws) == map[(s, t) := ws]
    ensures Processes(st, RelationUpdate(s, t, ws, Remote), st.(rel := map[(s, t) := ws]), [])
  {
    hide Renumbered;
    assert WeightsAt(st.rel, (s, t)).Keys - ws.Keys == {};
    assert UpdatesRelation(st, s, t, ws, st.(rel := map[(s, t) := ws]), []);
  }

  lemma SourceBack(table: Relations, st: Store, node: BeliefNode, other: BeliefNode, ws: WeightSet)
    requires st == Store(map[other.bid := other], {other.bid}, map[]) && node.bid != other.bid
    requires table == map[(node.bid, other.bid) := ws]
    ensures Processes(st, NodeUpdate(node, Remote), InsertState(st, node), [])
    ensures Agrees(table, st) && !Agrees(table, InsertState(st, node))
  {
    assert Live(table, st.nodes) == map[];
    NodeUpdateAgreesIff(table, st, node);
    assert (node.bid, other.bid) in table;
  }

  lemma AddOne(table: Relations, ev: BeliefEvent)
    ensures AddEvents(table, [ev] + []) == AddEvent(table, ev)
  {
    assert [ev] + [] == [ev] && [ev][1..] == [];
  }

  lemma SourceGone(node: BeliefNode, other: BeliefNode, ws: WeightSet)
    requires node.bid != other.bid
    ensures var s, t := node.bid, other.bid;
            Processes(Store(map[s := node, t := other], {s, t}, map[(s, t) := ws]), NodesRemoved([s], Remote),
              Store(map[t := other], {t}, map[]), [])
  {
    var s, t := node.bid, other.bid;
    var rel: Relations := map[(s, t) := ws];
    assert BidSet([s]) == {s};
    assert WithoutNodes(rel, {s}) == map[];
    forall u, k ensures Renumbered(map[], map[], u, k) {
      assert Keyed(map[], u, k) == {};
      assert SortedByKey(map[], u, k, []);
    }
  }

  /** A node made live by event `i` was never live before. */
  ghost predicate NoReuse(stores: seq<Store>, evs: seq<BeliefEvent>) {
    forall i, j | 0 <= j <= i < |evs| && i < |stores| && Revives(stores[i], evs[i]) ::
      evs[i].node.bid !in stores[j].nodes
  }

  ghost predicate RowsWithin(table: Relations, known: set<Bid>) {
    forall e | e in table :: e.0 in known && e.1 in known
  }

  lemma {:induction false} RowsStayWithin(table: Relations, events: seq<BeliefEvent>, known: set<Bid>)
    requires RowsWithin(table, known)
    requires forall ev | ev in events && ev.RelationUpdate? :: ev.source in known && ev.sink in known
    ensures RowsWithin(AddEvents(table, events), known)
    decreases |events|
  {
    if events == [] {
    } else {
      RowsStayWithin(AddEvent(table, events[0]), events[1..], known);
    }
  }

  /** Derivatives of an event with live endpoints name live nodes only. */
  lemma DerivedNamesKnown(st: Store, ev: BeliefEvent, st': Store, events: seq<BeliefEvent>)
    requires st.Valid() && Processes(st, ev, st', events) && LiveEndpoints(st, ev)
    ensures forall d | d in events && d.RelationUpdate? :: d.source in st.nodes && d.sink in st.nodes
  {
    if ev.RelationChange? && events != [] {
      assert events == [events[0]] + events[1..];
    }
  }

  ghost function KnownUpTo(stores: seq<Store>, n: nat): (known: set<Bid>)
    requires n < |stores|
    ensures forall j | 0 <= j <= n :: stores[j].nodes <= known
    ensures forall b | b in known :: exists j :: 0 <= j <= n && b in stores[j].nodes
  {
    if n == 0 then stores[0].nodes else KnownUpTo(stores, n - 1) + stores[n].nodes
  }

  /**
   Replica agreement: along any run of outside events with live endpoints that never revives
   a removed id, a table that starts in agreement ends in agreement.
   */
  lemma {:induction false} RunsAgree(stores: seq<Store>, tables: seq<Relations>, evs: seq<BeliefEvent>,
                                     derived: seq<seq<BeliefEvent>>, n: nat)
    requires Run(stores, evs, derived) && Replicates(tables, evs, derived)
    requires stores[0].Valid() && Agrees(tables[0], stores[0]) && RowsWithin(tables[0], stores[0].nodes)
    requires forall i | 0 <= i < |evs| :: FromOutside(evs[i]) && LiveEndpoints(stores[i], evs[i])
    requires NoReuse(stores, evs)
    requires n <= |evs|
    ensures stores[n].Valid() && Agrees(tables[n], stores[n])
    ensures RowsWithin(tables[n], KnownUpTo(stores, n))
  {
    if n == 0 {
    } else {
      var i := n - 1;
      RunsAgree(stores, tables, evs, derived, i);
      ProcessingKeepsValid(stores[i], evs[i], stores[n], derived[i]);
      if Revives(stores[i], evs[i]) {
        assert evs[i].node.bid !in KnownUpTo(stores, i);
        assert NoRowJoins(tables[i], evs[i].node.bid, stores[i].nodes);
      }
      StepAgreesIff(tables[i], stores[i], evs[i], stores[n], derived[i]);
      DerivedNamesKnown(stores[i], evs[i], stores[n], derived[i]);
      RowsStayWithin(tables[i], [evs[i]] + derived[i], KnownUpTo(stores, i));
    }
  }
}
