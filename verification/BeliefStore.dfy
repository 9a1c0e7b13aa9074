/**
 What the event store of src/beliefbase/base.rs does to its contents, one event at a time.

 Renumbering sorts by the current sort key and leaves the order of equal keys to the graph
 library, so each step is a relation between the contents before and after. Everything is
 release-build behaviour: `debug_assert`s are not part of it.
 */
module BeliefStore {
  import opened Properties

  datatype EventOrigin = Local | Remote

  datatype BeliefEvent =
    | NodeUpdate(node: BeliefNode, origin: EventOrigin)     // keyed by the node's own Bid
    | MalformedNodeUpdate(origin: EventOrigin)              // the TOML text does not parse
    | NodesRemoved(bids: seq<Bid>, origin: EventOrigin)
    | RelationUpdate(source: Bid, sink: Bid, weights: WeightSet, origin: EventOrigin)
    | RelationChange(source: Bid, sink: Bid, kind: WeightKind, weight: Option<Weight>, origin: EventOrigin)
    | RelationRemoved(source: Bid, sink: Bid, origin: EventOrigin)
    | NoStoreEffect                                         // path, file and batch events

  /**
   The contents of the store: states, every id known to the graph or the states, and edges.
   */
  datatype Store = Store(states: States, nodes: set<Bid>, rel: Relations)
  {
    ghost predicate Valid() {
      && states.Keys <= nodes
      && forall e | e in rel :: e.0 in nodes && e.1 in nodes
    }

    /** No graph node lacks a state, hence no edge has a stateless endpoint. */
    ghost predicate OrphanFree() {
      Valid() && nodes == states.Keys
    }
  }

  // ------------------------------------------------------------------ sort keys

  function KeyOf(rel: Relations, s: Bid, t: Bid, k: WeightKind): Option<SortKey> {
    if (s, t) in rel && k in rel[(s, t)] then rel[(s, t)][k].sortKey else None
  }

  predicate HasKind(rel: Relations, s: Bid, t: Bid, k: WeightKind) {
    (s, t) in rel && k in rel[(s, t)]
  }

  function Sources(rel: Relations): (sources: set<Bid>)
    ensures forall s, t | (s, t) in rel :: s in sources
  {
    var sources := set e | e in rel :: e.0;
    assert forall s, t | (s, t) in rel :: (s, t).0 in sources;
    sources
  }

  /** Sources of the edges of kind `k` into `t`. */
  function Incoming(rel: Relations, t: Bid, k: WeightKind): set<Bid> {
    set s | s in Sources(rel) && HasKind(rel, s, t, k)
  }

  /** Those of them whose weight carries a sort key. */
  function Keyed(rel: Relations, t: Bid, k: WeightKind): set<Bid> {
    set s | s in Sources(rel) && KeyOf(rel, s, t, k).Some?
  }

  lemma IncomingMembers(rel: Relations, t: Bid, k: WeightKind)
    ensures forall s :: s in Incoming(rel, t, k) <==> HasKind(rel, s, t, k)
    ensures forall s :: s in Keyed(rel, t, k) <==> KeyOf(rel, s, t, k).Some?
  {
  }

  /** `order` lists the keyed sources of `t` by ascending key. */
  ghost predicate SortedByKey(rel: Relations, t: Bid, k: WeightKind, order: seq<Bid>) {
    && Enumerates(order, Keyed(rel, t, k))
    && forall i, j | 0 <= i < j < |order| ::
         KeyOf(rel, order[i], t, k).Some? && KeyOf(rel, order[j], t, k).Some? &&
         KeyOf(rel, order[i], t, k).value <= KeyOf(rel, order[j], t, k).value
  }

  /** After renumbering, the i-th source in key order holds key `i as u16`. */
  ghost predicate Renumbered(r: Relations, r': Relations, t: Bid, k: WeightKind) {
    exists order: seq<Bid> ::
      SortedByKey(r, t, k, order) &&
      forall i | 0 <= i < |order| :: KeyOf(r', order[i], t, k) == Some(AsU16(i))
  }

  /** The kinds to renumber at a sink. */
  type SinkKinds = map<Bid, set<WeightKind>>

  predicate Affected(sinks: SinkKinds, t: Bid, k: WeightKind) {
    t in sinks && k in sinks[t]
  }

  /** Only keys of affected kinds at affected sinks may differ. */
  ghost predicate SameButKeys(r: Relations, r': Relations, sinks: SinkKinds) {
    && r'.Keys == r.Keys
    && (forall e | e in r :: r'[e].Keys == r[e].Keys)
    && (forall e, k | e in r && k in r[e] ::
          if Affected(sinks, e.1, k) && r[e][k].sortKey.Some?
          then r'[e][k].sortKey.Some? && r'[e][k] == r[e][k].(sortKey := r'[e][k].sortKey)
          else r'[e][k] == r[e][k])
  }

  /** `reindex_sink_edges` over every sink of `sinks`. */
  ghost predicate Reindexed(r: Relations, r': Relations, sinks: SinkKinds) {
    && SameButKeys(r, r', sinks)
    && forall t, k | t in sinks && k in sinks[t] :: Renumbered(r, r', t, k)
  }

  /** One Local RelationUpdate per edge that changed, carrying its new weights. */
  ghost predicate ChangeEvents(r: Relations, r': Relations, events: seq<BeliefEvent>) {
    && r'.Keys == r.Keys
    && NoDuplicates(events)
    && (forall ev | ev in events ::
          ev.RelationUpdate? && ev.origin == Local && (ev.source, ev.sink) in r &&
          r'[(ev.source, ev.sink)] != r[(ev.source, ev.sink)] && ev.weights == r'[(ev.source, ev.sink)])
    && (forall e | e in r && r'[e] != r[e] :: RelationUpdate(e.0, e.1, r'[e], Local) in events)
  }

  // ------------------------------------------------------------------ the operations

  function WeightsAt(rel: Relations, e: Edge): WeightSet {
    if e in rel then rel[e] else map[]
  }

  /** The edge map after writing one edge and before renumbering. */
  function WriteEdge(rel: Relations, e: Edge, ws: WeightSet): Relations {
    if ws == map[] then rel - {e} else rel[e := ws]
  }

  /** `update_relation`: write the edge, then close the gaps left by lost kinds. */
  ghost predicate UpdatesRelation(st: Store, s: Bid, t: Bid, ws: WeightSet, st': Store, events: seq<BeliefEvent>) {
    if s !in st.nodes || t !in st.nodes then
      st' == st && events == []
    else
      var written := WriteEdge(st.rel, (s, t), ws);
      var lost := WeightsAt(st.rel, (s, t)).Keys - ws.Keys;
      && st' == st.(rel := st'.rel)
      && Reindexed(written, st'.rel, map[t := lost])
      && ChangeEvents(written, st'.rel, events)
  }

  function WithoutNodes(rel: Relations, bids: set<Bid>): Relations {
    map e | e in rel && e.0 !in bids && e.1 !in bids :: rel[e]
  }

  /** Kinds on the edges of `rel` from a removed source into `t`. */
  function LostKinds(rel: Relations, bids: set<Bid>, t: Bid): set<WeightKind> {
    set e, k | e in rel && e.0 in bids && e.1 == t && k in rel[e] :: k
  }

  /** Every surviving sink of a removed source, with the kinds it loses. */
  function LostSinks(rel: Relations, bids: set<Bid>): SinkKinds {
    map t | t in (set e | e in rel && e.0 in bids && e.1 !in bids :: e.1) :: LostKinds(rel, bids, t)
  }

  function BidSet(bids: seq<Bid>): set<Bid> {
    set b | b in bids
  }

  /** `remove_nodes`. */
  ghost predicate RemovesNodes(st: Store, bids: set<Bid>, st': Store, events: seq<BeliefEvent>) {
    && st'.states == st.states - bids
    && st'.nodes == st.nodes - bids
    && Reindexed(WithoutNodes(st.rel, bids), st'.rel, LostSinks(st.rel, bids))
    && ChangeEvents(WithoutNodes(st.rel, bids), st'.rel, events)
  }

  /** `insert_state` when the merge keys name no other node. */
  function InsertState(st: Store, node: BeliefNode): Store {
    st.(states := st.states[node.bid := node], nodes := st.nodes + {node.bid})
  }

  ghost function MaxOf(s: set<nat>): (m: nat)
    requires s != {}
    ensures m in s && forall x | x in s :: x <= m
  {
    var x :| x in s;
    if s == {x} then x
    else
      assert s == {x} + (s - {x});
      var m := MaxOf(s - {x});
      if x < m then m else x
  }

  /** The sort keys in use among the edges of kind `k` into `t`. */
  ghost function KeysInto(rel: Relations, t: Bid, k: WeightKind): set<nat> {
    set s | s in Keyed(rel, t, k) :: KeyOf(rel, s, t, k).value
  }

  /** The key given to a weight without one: maximum plus one, in u16 arithmetic. */
  ghost function NextKey(rel: Relations, t: Bid, k: WeightKind): SortKey {
    var keys := KeysInto(rel, t, k);
    if keys == {} then 0 else AsU16(MaxOf(keys) + 1)
  }

  function WithKey(w: Weight, key: SortKey): Weight {
    if w.sortKey.Some? then w else w.(sortKey := Some(key))
  }

  /** `generate_edge_update`: the weights a RelationChange resolves to, if it changes anything. */
  ghost function GenerateEdgeUpdate(st: Store, s: Bid, t: Bid, k: WeightKind,
      weight: Option<Weight>): Option<WeightSet> {
    var present := WeightsAt(st.rel, (s, t));
    match weight
    case None =>
      if k in present then Some(present - {k}) else None
    case Some(w) =>
      var merged := if k in present then present[k].Merge(w) else w;
      var keyed := WithKey(merged, NextKey(st.rel, t, k));
      if k in present && keyed == present[k] then None else Some(present[k := keyed])
  }

  /** `process_event`. */
  ghost predicate Processes(st: Store, ev: BeliefEvent, st': Store, events: seq<BeliefEvent>) {
    if ev.NoStoreEffect? || ev.MalformedNodeUpdate? || ev.origin == Local then
      st' == st && events == []
    else match ev
      case NodeUpdate(node, _) => st' == InsertState(st, node) && events == []
      case NodesRemoved(bids, _) => RemovesNodes(st, BidSet(bids), st', events)
      case RelationUpdate(s, t, ws, _) => UpdatesRelation(st, s, t, ws, st', events)
      case RelationRemoved(s, t, _) => UpdatesRelation(st, s, t, map[], st', events)
      case RelationChange(s, t, k, w, origin) =>
        match GenerateEdgeUpdate(st, s, t, k, w)
        case None => st' == st && events == []
        case Some(ws) =>
          |events| > 0 && events[0] == RelationUpdate(s, t, ws, origin) &&
          UpdatesRelation(st, s, t, ws, st', events[1..])
  }

  /** `stores[i]` processes `evs[i]` into `stores[i+1]`. */
  ghost predicate Run(stores: seq<Store>, evs: seq<BeliefEvent>, derived: seq<seq<BeliefEvent>>) {
    && |stores| == |evs| + 1 && |derived| == |evs|
    && forall i | 0 <= i < |evs| :: Processes(stores[i], evs[i], stores[i + 1], derived[i])
  }

  lemma ProcessingKeepsValid(st: Store, ev: BeliefEvent, st': Store, events: seq<BeliefEvent>)
    requires st.Valid() && Processes(st, ev, st', events)
    ensures st'.Valid()
    ensures st.OrphanFree() ==> st'.OrphanFree()
  {
  }
}
