/**
 The memo table over query results of src/beliefbase/cached.rs and when event-driven
 eviction keeps it sound: the result of a query for states depends only on the states and
 edges among the ids it returns, as long as no node outside it can be picked.
 */
module Cached {
  import opened Properties
  import opened Reachability
  import opened BeliefStore
  import opened BeliefGraphs
  import opened GraphStore
  import opened Expressions
  import opened Balance
  import BeliefBases

  /** A query without neighbour traversal. */
  datatype Query = Query(seed: Expression)

  function GraphOf(st: Store): Graph {
    Graph(st.states, st.rel)
  }

  // ------------------------------------------------------------------ query results

  /** `eval_query`: evaluate the seed, then balance it unless it found nothing. */
  ghost predicate IsResult(base: Graph, env: Lookups, q: Query, allOrNone: bool, out: Graph) {
    exists found ::
      && Evaluates(base, env, Full, q.seed, found)
      && (if found.states == map[] then out == (if allOrNone then EMPTY else found)
          else exists graphs :: Balances(base, graphs) && graphs[0] == found && out == graphs[Calls(graphs)])
  }

  /**
   The query selects states, by id or node by node. Queries by path are left out: they read a map
   that events change.
   */
  predicate Selects(q: Query) {
    (q.seed.StateIn? || q.seed.StateNotIn?) && !q.seed.state.PathLookup?
  }

  /** The query picks `node`, filed under `b`; a list of ids is not inverted. */
  predicate Picks(env: Lookups, q: Query, b: Bid, node: BeliefNode)
    requires Selects(q)
  {
    match q.seed.state
    case BidIn(bids) => b in bids
    case _ => MatchesState(env, q.seed.state, node) != q.seed.StateNotIn?
  }

  function Chosen(base: Graph, env: Lookups, q: Query): States
    requires Selects(q)
  {
    map b | b in base.states && Picks(env, q, b, base.states[b]) :: base.states[b]
  }

  /** The query asks for given ids. */
  predicate Pinned(q: Query) {
    Selects(q) && q.seed.state.BidIn?
  }

  function Asked(q: Query): set<Bid>
    requires Pinned(q)
  {
    set b | b in q.seed.state.bids
  }

  /** The graph a selection starts from. */
  function Found(base: Graph, env: Lookups, q: Query): Graph
    requires Selects(q)
  {
    SelectStates(base, Chosen(base, env, q))
  }

  lemma SelectionEvaluates(base: Graph, env: Lookups, q: Query, out: Graph)
    requires Selects(q)
    ensures Evaluates(base, env, Full, q.seed, out) <==> out == Found(base, env, q)
  {
    assert Chosen(base, env, q) == FilterStates(base, env, q.seed.state, q.seed.StateNotIn?);
  }

  lemma FoundShape(base: Graph, env: Lookups, q: Query)
    requires Selects(q) && base.OrphanFree()
    ensures Found(base, env, q).OrphanFree()
    ensures Found(base, env, q).states.Keys <= base.states.Keys
    ensures Chosen(base, env, q).Keys <= Found(base, env, q).states.Keys
  {
    SelectOrphanFree(base, Chosen(base, env, q), Full);
  }

  // ------------------------------------------------------------------ runs are determined

  lemma RoundInTrail(base: Graph, graphs: seq<Graph>, i: nat)
    requires base.OrphanFree() && Trail(base, graphs) && graphs[0].OrphanFree() && i + 1 < |graphs|
    ensures Pending(graphs, i).Some? && Pending(graphs, i).value <= graphs[i].states.Keys
    ensures graphs[i].OrphanFree()
    ensures Round(base, graphs[i], Pending(graphs, i).value, graphs[i + 1])
    ensures graphs[i + 1] == Climb(graphs[i], TraceOf(base, Pending(graphs, i).value))
  {
    assert GoesOn(base, graphs, i);
    TrailShape(base, graphs, i);
    PendingWithinStates(graphs[i], if i == 0 then ALL_KINDS else SECTION);
    RoundIsClimb(base, graphs[i], Pending(graphs, i).value, graphs[i + 1]);
  }

  lemma ClimbStates(base: Graph, g: Graph, bids: set<Bid>)
    requires base.OrphanFree() && bids <= g.states.Keys
    ensures var next := Climb(g, TraceOf(base, bids));
            && g.states.Keys <= next.states.Keys
            && TraceOf(base, bids).states.Keys <= next.states.Keys
            && (g.states.Keys <= base.states.Keys ==> next.states.Keys <= base.states.Keys)
  {
    var trace := TraceOf(base, bids);
    forall b | b in trace.states && b !in g.states ensures b in Endpoints(trace.relations.Keys) {
      assert b in Sinks(trace.relations.Keys);
    }
  }

  lemma StepStates(base: Graph, graphs: seq<Graph>, i: nat)
    requires base.OrphanFree() && Trail(base, graphs) && graphs[0].OrphanFree() && i + 1 < |graphs|
    ensures Pending(graphs, i).Some?
    ensures graphs[i].states.Keys <= graphs[i + 1].states.Keys
    ensures TraceOf(base, Pending(graphs, i).value).states.Keys <= graphs[i + 1].states.Keys
    ensures graphs[i].states.Keys <= base.states.Keys ==> graphs[i + 1].states.Keys <= base.states.Keys
  {
    RoundInTrail(base, graphs, i);
    hide Climb, TraceOf, Round, Trail, Pending;
    ClimbStates(base, graphs[i], Pending(graphs, i).value);
  }

  /** States only accumulate along a run, and all come from the store. */
  lemma {:induction false} TrailStates(base: Graph, graphs: seq<Graph>, j: nat)
    requires base.OrphanFree() && Trail(base, graphs) && graphs[0].OrphanFree()
    requires graphs[0].states.Keys <= base.states.Keys && j < |graphs|
    ensures graphs[j].states.Keys <= base.states.Keys
    ensures forall i | 0 <= i <= j :: graphs[i].states.Keys <= graphs[j].states.Keys
  {
    hide TraceOf, Trail, Pending, Graph.OrphanFree;
    if j == 0 {
    } else {
      TrailStates(base, graphs, j - 1);
      StepStates(base, graphs, j - 1);
    }
  }

  lemma StepSame(base: Graph, a: seq<Graph>, b: seq<Graph>, i: nat)
    requires base.OrphanFree() && Trail(base, a) && Trail(base, b) && a[0].OrphanFree() && b[0].OrphanFree()
    requires i + 1 < |a| && i + 1 < |b| && a[i] == b[i]
    ensures a[i + 1] == b[i + 1]
  {
    RoundInTrail(base, a, i);
    RoundInTrail(base, b, i);
    hide Climb, TraceOf, Round, Trail, DownstreamQuery;
  }

  /** Two runs from the same graph pass through the same graphs. */
  lemma {:induction false} SameTrail(base: Graph, a: seq<Graph>, b: seq<Graph>, i: nat)
    requires base.OrphanFree() && Trail(base, a) && Trail(base, b) && a[0] == b[0] && a[0].OrphanFree()
    requires i < |a| && i < |b|
    ensures a[i] == b[i]
  {
    hide Trail, Graph.OrphanFree;
    if i == 0 {
    } else {
      SameTrail(base, a, b, i - 1);
      StepSame(base, a, b, i - 1);
    }
  }

  lemma ShorterRun(base: Graph, a: seq<Graph>, b: seq<Graph>)
    requires base.OrphanFree() && Balances(base, a) && Balances(base, b) && a[0] == b[0] && a[0].OrphanFree()
    ensures |b| <= |a|
  {
    if |a| < |b| {
      var n := Calls(a);
      assert GoesOn(base, b, n);
      SameTrail(base, a, b, n);
      if n > 0 {
        SameTrail(base, a, b, n - 1);
      }
    }
  }

  /** A run is determined by the graph it starts from. */
  lemma RunsAreEqual(base: Graph, a: seq<Graph>, b: seq<Graph>)
    requires base.OrphanFree() && Balances(base, a) && Balances(base, b) && a[0] == b[0] && a[0].OrphanFree()
    ensures a[Calls(a)] == b[Calls(b)]
  {
    ShorterRun(base, a, b);
    ShorterRun(base, b, a);
    SameTrail(base, a, b, Calls(a));
  }

  /** Some run exists from any graph. */
  lemma {:induction false} RunFrom(base: Graph, graphs: seq<Graph>) returns (all: seq<Graph>)
    requires Trail(base, graphs) && Calls(graphs) <= BALANCE_CUTOFF + 1
    ensures Balances(base, all) && all[0] == graphs[0]
    decreases BALANCE_CUTOFF + 1 - Calls(graphs)
  {
    var n := Calls(graphs);
    if Settled(graphs, n) || n > BALANCE_CUTOFF {
      all := graphs;
    } else {
      var trace := TraceOf(base, Pending(graphs, n).value);
      var order := OrderOf(trace.relations.Keys);
      var bg := graphs[n];
      var next := AddRelations(Graph(bg.states + CompleteOf(trace.states), bg.relations), trace, None, order);
      assert Round(base, bg, Pending(graphs, n).value, next);
      ExtendTrail(base, graphs, next);
      all := RunFrom(base, graphs + [next]);
    }
  }

  lemma ResultExists(base: Graph, env: Lookups, q: Query, allOrNone: bool) returns (out: Graph)
    requires Selects(q)
    ensures IsResult(base, env, q, allOrNone, out)
  {
    var found := Found(base, env, q);
    SelectionEvaluates(base, env, q, found);
    if found.states == map[] {
      out := if allOrNone then EMPTY else found;
    } else {
      var graphs := RunFrom(base, [found]);
      out := graphs[Calls(graphs)];
    }
  }

  lemma ResultIsDetermined(base: Graph, env: Lookups, q: Query, allOrNone: bool, a: Graph, b: Graph)
    requires Selects(q) && base.OrphanFree()
    requires IsResult(base, env, q, allOrNone, a) && IsResult(base, env, q, allOrNone, b)
    ensures a == b
  {
    var found := Found(base, env, q);
    FoundShape(base, env, q);
    SelectionResult(base, env, q, allOrNone, a);
    SelectionResult(base, env, q, allOrNone, b);
    if found.states != map[] {
      var xs :| Balances(base, xs) && xs[0] == found && a == xs[Calls(xs)];
      var ys :| Balances(base, ys) && ys[0] == found && b == ys[Calls(ys)];
      RunsAreEqual(base, xs, ys);
    }
  }

  /** The result of a selection is a balance run from the found graph. */
  lemma SelectionResult(base: Graph, env: Lookups, q: Query, allOrNone: bool, out: Graph)
    requires Selects(q) && IsResult(base, env, q, allOrNone, out)
    ensures var found := Found(base, env, q);
            if found.states == map[] then out == (if allOrNone then EMPTY else found)
            else exists graphs :: Balances(base, graphs) && graphs[0] == found && out == graphs[Calls(graphs)]
  {
    var found :| Evaluates(base, env, Full, q.seed, found)
      && (if found.states == map[] then out == (if allOrNone then EMPTY else found)
          else exists graphs :: Balances(base, graphs) && graphs[0] == found && out == graphs[Calls(graphs)]);
    SelectionEvaluates(base, env, q, found);
  }

  lemma ResultWithin(base: Graph, env: Lookups, q: Query, allOrNone: bool, out: Graph)
    requires Selects(q) && base.OrphanFree() && IsResult(base, env, q, allOrNone, out)
    ensures out.states.Keys <= base.states.Keys
    ensures Chosen(base, env, q).Keys <= out.states.Keys
  {
    FoundShape(base, env, q);
    SelectionResult(base, env, q, allOrNone, out);
    var found := Found(base, env, q);
    if found.states != map[] {
      var graphs :| Balances(base, graphs) && graphs[0] == found && out == graphs[Calls(graphs)];
      TrailStates(base, graphs, Calls(graphs));
    }
  }

  // ------------------------------------------------------------------ the frame

  /** The ids an event names: `invalidate_for_events`, one event. */
  function Named(ev: BeliefEvent): set<Bid> {
    match ev
    case NodeUpdate(node, _) => {node.bid}
    case NodesRemoved(bids, _) => BidSet(bids)
    case RelationUpdate(s, t, _, _) => {s, t}
    case RelationChange(s, t, _, _, _) => {s, t}
    case RelationRemoved(s, t, _) => {s, t}
    case _ => {}
  }

  function AffectedBy(events: seq<BeliefEvent>): set<Bid> {
    set ev, b | ev in events && b in Named(ev) :: b
  }

  lemma NamedAffected(events: seq<BeliefEvent>, ev: BeliefEvent)
    requires ev in events
    ensures Named(ev) <= AffectedBy(events)
  {
  }

  /**
   All differences between two stores are at affected ids: a new or rewritten state is filed under its
   own id, a new or rewritten edge has both endpoints affected, a lost edge at least one.
   */
  ghost predicate Confined(base: Graph, base': Graph, affected: set<Bid>) {
    && (forall b | b !in affected ::
            (b in base.states <==> b in base'.states) && (b in base.states ==> base.states[b] == base'.states[b]))
    && (forall b | b in base'.states && !(b in base.states && base.states[b] == base'.states[b]) ::
          base'.states[b].bid == b)
    && (forall e | e in base'.relations && !(e in base.relations && base.relations[e] == base'.relations[e]) ::
          e.0 in affected && e.1 in affected)
    && (forall e | e in base.relations && e !in base'.relations :: e.0 in affected || e.1 in affected)
  }

  lemma FrameRestrict(base: Graph, base': Graph, affected: set<Bid>, bids: set<Bid>)
    requires Confined(base, base', affected) && bids !! affected
    ensures Restrict(base'.states, bids) == Restrict(base.states, bids)
  {
  }

  /** No node whose id is outside `bids` would be picked. */
  ghost predicate ClosedTo(env: Lookups, q: Query, bids: set<Bid>)
    requires Selects(q)
  {
    forall node: BeliefNode | node.bid !in bids :: !Picks(env, q, node.bid, node)
  }

  /** A closed selection whose nodes are all unaffected chooses the same in both stores. */
  lemma FrameChosen(base: Graph, base': Graph, affected: set<Bid>, env: Lookups, q: Query, bids: set<Bid>)
    requires Selects(q) && Confined(base, base', affected) && ClosedTo(env, q, bids) && bids !! affected
    requires Chosen(base, env, q).Keys <= bids
    ensures Chosen(base', env, q) == Chosen(base, env, q)
  {
    hide Picks;
    forall b | b in Chosen(base', env, q)
      ensures b in Chosen(base, env, q)
    {
      assert base'.states[b].bid != b || b in bids;
    }
    forall b | b in Chosen(base, env, q)
      ensures b in Chosen(base', env, q) && base'.states[b] == base.states[b]
    {
      assert b !in affected;
    }
  }

  lemma FrameFill(base: Graph, base': Graph, affected: set<Bid>, states: States, bids: set<Bid>)
    requires Confined(base, base', affected) && bids !! affected
    ensures FillTrace(states, base.states, bids) == FillTrace(states, base'.states, bids)
  {
  }

  /** An edge set closed over unaffected ids: present edges stay, and no other edge touches `inner`. */
  lemma FrameEdge(base: Graph, base': Graph, affected: set<Bid>, e: Edge)
    requires Confined(base, base', affected)
    ensures e in base.relations && e.0 !in affected && e.1 !in affected ==>
              e in base'.relations && base'.relations[e] == base.relations[e]
    ensures e in base'.relations && (e.0 !in affected || e.1 !in affected) ==>
              e in base.relations && base'.relations[e] == base.relations[e]
  {
  }

  lemma FrameSelectEdges(base: Graph, base': Graph, affected: set<Bid>, selected: States)
    requires Confined(base, base', affected) && selected.Keys !! affected
    requires forall e | e in base.relations && (e.0 in selected || e.1 in selected) ::
            e.0 !in affected && e.1 !in affected
    ensures SelectStates(base', selected).relations == SelectStates(base, selected).relations
  {
    hide Confined, FillTrace;
    forall e: Edge | e.0 in selected || e.1 in selected
      ensures e in base'.relations <==> e in base.relations
      ensures e in base.relations ==> base'.relations[e] == base.relations[e]
    {
      FrameEdge(base, base', affected, e);
    }
  }

  lemma EndpointsSelected(base: Graph, selected: States)
    requires base.OrphanFree() && selected.Keys <= base.states.Keys
    ensures var was := SelectStates(base, selected);
            && selected.Keys <= was.states.Keys && Endpoints(was.relations.Keys) <= was.states.Keys
            && forall e | e in base.relations && (e.0 in selected || e.1 in selected) :: e.0 in was.states
                && e.1 in was.states
  {
    var was := SelectStates(base, selected);
    SelectOrphanFree(base, selected, Full);
    forall e | e in base.relations && (e.0 in selected || e.1 in selected) ensures e in was.relations {
    }
  }

  /** A selection whose nodes are all unaffected is the same in both stores. */
  lemma FrameFound(base: Graph, base': Graph, affected: set<Bid>, env: Lookups, q: Query)
    requires Selects(q) && Confined(base, base', affected) && base.OrphanFree()
    requires Chosen(base', env, q) == Chosen(base, env, q) && Found(base, env, q).states.Keys !! affected
    ensures Found(base', env, q) == Found(base, env, q)
  {
    var selected := Chosen(base, env, q);
    FoundShape(base, env, q);
    EndpointsSelected(base, selected);
    hide Confined, Chosen;
    FrameSelectEdges(base, base', affected, selected);
    FrameFill(base, base', affected, selected, Endpoints(Found(base, env, q).relations.Keys));
  }

  lemma FrameTraceEdges(base: Graph, base': Graph, affected: set<Bid>, selected: States)
    requires Confined(base, base', affected) && selected.Keys !! affected
    requires forall e | e in TraceStates(base, selected, SECTION).relations :: e.1 !in affected
    ensures TraceStates(base', selected, SECTION).relations == TraceStates(base, selected, SECTION).relations
  {
    hide Confined, FillTrace;
    forall e: Edge | e.0 in selected
      ensures e in base'.relations ==> e in base.relations && base'.relations[e] == base.relations[e]
      ensures e in TraceStates(base, selected, SECTION).relations ==> e in base'.relations
    {
      FrameEdge(base, base', affected, e);
    }
  }

  lemma TraceSinksHaveStates(base: Graph, selected: States)
    requires base.OrphanFree()
    ensures var was := TraceStates(base, selected, SECTION);
            && Sinks(was.relations.Keys) <= was.states.Keys
            && forall e | e in was.relations :: e.1 in was.states
  {
    var was := TraceStates(base, selected, SECTION);
    forall e | e in was.relations ensures e.1 in Sinks(was.relations.Keys) {
    }
  }

  /** A trace whose nodes are all unaffected is the same in both stores. */
  lemma FrameTrace(base: Graph, base': Graph, affected: set<Bid>, bids: set<Bid>)
    requires Confined(base, base', affected) && base.OrphanFree()
    requires bids !! affected && TraceOf(base, bids).states.Keys !! affected
    ensures TraceOf(base', bids) == TraceOf(base, bids)
  {
    var selected := Restrict(base.states, bids);
    TraceSinksHaveStates(base, selected);
    hide Confined;
    FrameRestrict(base, base', affected, bids);
    FrameTraceEdges(base, base', affected, selected);
    FrameFill(base, base', affected, AllTrace(selected), Sinks(TraceOf(base, bids).relations.Keys));
  }

  /** A run whose last graph holds no affected id is a run over the changed store too. */
  lemma FrameRun(base: Graph, base': Graph, affected: set<Bid>, graphs: seq<Graph>)
    requires Confined(base, base', affected) && base.OrphanFree() && Balances(base, graphs)
    requires graphs[0].OrphanFree() && graphs[0].states.Keys <= base.states.Keys
    requires graphs[Calls(graphs)].states.Keys !! affected
    ensures Balances(base', graphs)
  {
    TrailStates(base, graphs, Calls(graphs));
    forall i: nat | i + 1 < |graphs| ensures GoesOn(base', graphs, i) {
      FrameRound(base, base', affected, graphs, i);
    }
  }

  lemma FrameRound(base: Graph, base': Graph, affected: set<Bid>, graphs: seq<Graph>, i: nat)
    requires Confined(base, base', affected) && base.OrphanFree() && Trail(base, graphs) && i + 1 < |graphs|
    requires graphs[0].OrphanFree() && graphs[i + 1].states.Keys !! affected
    ensures GoesOn(base', graphs, i)
  {
    RoundInTrail(base, graphs, i);
    StepStates(base, graphs, i);
    assert GoesOn(base, graphs, i);
    hide Confined, Climb, TraceOf, IsUnion, DownstreamQuery;
    FrameTrace(base, base', affected, Pending(graphs, i).value);
  }

  /**
   Frame theorem: the result of a selection that can pick no node outside it depends only on the
   states and edges among its own ids, and on no new edge touching them.
   */
  lemma ResultFrame(base: Graph, base': Graph, affected: set<Bid>, env: Lookups, q: Query, allOrNone: bool, out: Graph)
    requires Selects(q) && base.OrphanFree() && Confined(base, base', affected)
    requires IsResult(base, env, q, allOrNone, out) && ClosedTo(env, q, out.states.Keys)
    requires out.states.Keys !! affected
    ensures IsResult(base', env, q, allOrNone, out)
  {
    hide ClosedTo, Chosen, Found, Confined, Trail, SelectStates, Graph.OrphanFree;
    var found := Found(base, env, q);
    FoundShape(base, env, q);
    ResultWithin(base, env, q, allOrNone, out);
    FrameChosen(base, base', affected, env, q, out.states.Keys);
    SelectionResult(base, env, q, allOrNone, out);
    if found.states == map[] {
      FrameFound(base, base', affected, env, q);
      SelectionEvaluates(base', env, q, found);
    } else {
      var graphs :| Balances(base, graphs) && graphs[0] == found && out == graphs[Calls(graphs)];
      TrailStates(base, graphs, Calls(graphs));
      FrameFound(base, base', affected, env, q);
      SelectionEvaluates(base', env, q, found);
      FrameRun(base, base', affected, graphs);
    }
  }

  // ------------------------------------------------------------------ what events touch

  /** Renumbering and its change events name both endpoints of every edge they rewrite. */
  lemma ReindexConfined(states: States, r: Relations, r': Relations, sinks: SinkKinds, events: seq<BeliefEvent>,
      affected: set<Bid>)
    requires SameButKeys(r, r', sinks) && ChangeEvents(r, r', events) && AffectedBy(events) <= affected
    ensures Confined(Graph(states, r), Graph(states, r'), affected)
  {
    forall e | e in r && r'[e] != r[e] ensures e.0 in affected && e.1 in affected {
      NamedAffected(events, RelationUpdate(e.0, e.1, r'[e], Local));
    }
  }

  lemma ConfinedThrough(a: Graph, b: Graph, c: Graph, affected: set<Bid>)
    requires Confined(a, b, affected) && Confined(b, c, affected)
    requires forall e | e in a.relations && e !in b.relations :: e in c.relations ==> e.0 in affected && e.1 in affected
    ensures Confined(a, c, affected)
  {
  }

  lemma UpdateConfined(st: Store, s: Bid, t: Bid, ws: WeightSet, st': Store, events: seq<BeliefEvent>,
      affected: set<Bid>)
    requires UpdatesRelation(st, s, t, ws, st', events) && AffectedBy(events) <= affected && s in affected
        && t in affected
    ensures Confined(GraphOf(st), GraphOf(st'), affected)
  {
    if s in st.nodes && t in st.nodes {
      var written := WriteEdge(st.rel, (s, t), ws);
      var lost := WeightsAt(st.rel, (s, t)).Keys - ws.Keys;
      assert Confined(GraphOf(st), Graph(st.states, written), affected);
      hide Confined;
      ReindexConfined(st.states, written, st'.rel, map[t := lost], events, affected);
      WriteConfined(st, s, t, ws, st'.rel, affected);
    }
  }

  lemma WriteConfined(st: Store, s: Bid, t: Bid, ws: WeightSet, r': Relations, affected: set<Bid>)
    requires s in affected && t in affected
    requires Confined(GraphOf(st), Graph(st.states, WriteEdge(st.rel, (s, t), ws)), affected)
    requires Confined(Graph(st.states, WriteEdge(st.rel, (s, t), ws)), Graph(st.states, r'), affected)
    ensures Confined(GraphOf(st), Graph(st.states, r'), affected)
  {
    ConfinedThrough(GraphOf(st), Graph(st.states, WriteEdge(st.rel, (s, t), ws)), Graph(st.states, r'), affected);
  }

  lemma RemovalConfined(st: Store, bids: set<Bid>, st': Store, events: seq<BeliefEvent>, affected: set<Bid>)
    requires RemovesNodes(st, bids, st', events) && AffectedBy(events) <= affected && bids <= affected
    ensures Confined(GraphOf(st), GraphOf(st'), affected)
  {
    var kept := WithoutNodes(st.rel, bids);
    assert Confined(GraphOf(st), Graph(st'.states, kept), affected);
    ReindexConfined(st'.states, kept, st'.rel, LostSinks(st.rel, bids), events, affected);
    assert st'.rel.Keys == kept.Keys;
    ConfinedThrough(GraphOf(st), Graph(st'.states, kept), GraphOf(st'), affected);
  }

  /** Everything an event changes in the store is at an id that it or a derivative names. */
  lemma EventConfined(st: Store, ev: BeliefEvent, st': Store, events: seq<BeliefEvent>)
    requires Processes(st, ev, st', events)
    ensures Confined(GraphOf(st), GraphOf(st'), AffectedBy([ev] + events))
  {
    var all := [ev] + events;
    var affected := AffectedBy(all);
    assert ev in all;
    NamedAffected(all, ev);
    assert AffectedBy(events) <= affected;
    hide Confined, AffectedBy;
    if ev.NoStoreEffect? || ev.MalformedNodeUpdate? || ev.origin == Local {
      ConfinedSame(GraphOf(st), affected);
    } else {
      match ev
      case NodeUpdate(node, _) =>
        InsertConfined(st, node, affected);
      case NodesRemoved(bids, _) =>
        RemovalConfined(st, BidSet(bids), st', events, affected);
      case RelationUpdate(s, t, ws, _) =>
        UpdateConfined(st, s, t, ws, st', events, affected);
      case RelationRemoved(s, t, _) =>
        UpdateConfined(st, s, t, map[], st', events, affected);
      case RelationChange(s, t, k, w, _) =>
        var generated := GenerateEdgeUpdate(st, s, t, k, w);
        if generated.Some? {
          TailAffected(events);
          UpdateConfined(st, s, t, generated.value, st', events[1..], affected);
        } else {
          ConfinedSame(GraphOf(st), affected);
        }
    }
  }

  lemma TailAffected(events: seq<BeliefEvent>)
    requires events != []
    ensures AffectedBy(events[1..]) <= AffectedBy(events)
  {
  }

  lemma ConfinedSame(g: Graph, affected: set<Bid>)
    ensures Confined(g, g, affected)
  {
  }

  lemma InsertConfined(st: Store, node: BeliefNode, affected: set<Bid>)
    requires node.bid in affected
    ensures Confined(GraphOf(st), GraphOf(InsertState(st, node)), affected)
  {
  }

  // ------------------------------------------------------------------ coherence

  /** Every fresh evaluation gives `out`, and at least one exists. */
  ghost predicate Current(base: Graph, env: Lookups, q: Query, allOrNone: bool, out: Graph) {
    && IsResult(base, env, q, allOrNone, out)
    && forall again | IsResult(base, env, q, allOrNone, again) :: again == out
  }

  /**
   An entry that no event or derivative names, and outside which no node can be picked, equals a
   fresh evaluation of its query after the event.
   */
  lemma SurvivorIsCurrent(st: Store, ev: BeliefEvent, st': Store, events: seq<BeliefEvent>,
                          env: Lookups, q: Query, allOrNone: bool, out: Graph)
    requires st.OrphanFree() && Processes(st, ev, st', events) && Selects(q)
    requires IsResult(GraphOf(st), env, q, allOrNone, out) && ClosedTo(env, q, out.states.Keys)
    requires out.states.Keys !! AffectedBy([ev] + events)
    ensures Current(GraphOf(st'), env, q, allOrNone, out)
  {
    EventConfined(st, ev, st', events);
    ProcessingKeepsValid(st, ev, st', events);
    ResultFrame(GraphOf(st), GraphOf(st'), AffectedBy([ev] + events), env, q, allOrNone, out);
    hide Processes, Confined, AffectedBy, ClosedTo, IsResult;
    forall other | IsResult(GraphOf(st'), env, q, allOrNone, other) ensures other == out {
      ResultIsDetermined(GraphOf(st'), env, q, allOrNone, out, other);
    }
  }

  /** Whatever event comes next, the entry is evicted or still current. */
  ghost predicate StaysCurrent(st: Store, env: Lookups, q: Query, allOrNone: bool, out: Graph) {
    forall ev, st', events |
      Processes(st, ev, st', events) && out.states.Keys !! AffectedBy([ev] + events) ::
      Current(GraphOf(st'), env, q, allOrNone, out)
  }

  lemma AffectedByOne(ev: BeliefEvent)
    ensures AffectedBy([ev] + []) == Named(ev)
  {
    assert [ev] + [] == [ev];
    NamedAffected([ev], ev);
    assert forall x | x in [ev] :: x == ev;
  }

  /** The missing node arrives: the event is processed, and names that node alone. */
  lemma Arrives(st: Store, node: BeliefNode)
    requires st.OrphanFree()
    ensures var ev, st' := NodeUpdate(node, Remote), InsertState(st, node);
            Processes(st, ev, st', []) && st'.OrphanFree() && AffectedBy([ev] + []) == {node.bid}
  {
    AffectedByOne(NodeUpdate(node, Remote));
  }

  /** A node that would be picked arrives outside the result: the entry stays and is wrong. */
  lemma PickedGoesStale(st: Store, env: Lookups, q: Query, allOrNone: bool, out: Graph, node: BeliefNode)
    requires st.OrphanFree() && Selects(q) && node.bid !in out.states && Picks(env, q, node.bid, node)
    ensures !StaysCurrent(st, env, q, allOrNone, out)
  {
    hide Processes, IsResult, AffectedBy, Picks;
    var st' := InsertState(st, node);
    Arrives(st, node);
    var again := ResultExists(GraphOf(st'), env, q, allOrNone);
    ResultWithin(GraphOf(st'), env, q, allOrNone, again);
    assert node.bid in Chosen(GraphOf(st'), env, q);
    assert again != out;
    assert !Current(GraphOf(st'), env, q, allOrNone, out);
  }

  /** An entry stays current under every event exactly if no node outside it can be picked. */
  lemma StaysCurrentIff(st: Store, env: Lookups, q: Query, allOrNone: bool, out: Graph)
    requires st.OrphanFree() && Selects(q) && IsResult(GraphOf(st), env, q, allOrNone, out)
    ensures StaysCurrent(st, env, q, allOrNone, out) <==> ClosedTo(env, q, out.states.Keys)
  {
    hide Picks;
    if ClosedTo(env, q, out.states.Keys) {
      forall ev, st', events | Processes(st, ev, st', events) && out.states.Keys !! AffectedBy([ev] + events)
        ensures Current(GraphOf(st'), env, q, allOrNone, out)
      {
        SurvivorIsCurrent(st, ev, st', events, env, q, allOrNone, out);
      }
    } else {
      var node: BeliefNode :| node.bid !in out.states.Keys && Picks(env, q, node.bid, node);
      PickedGoesStale(st, env, q, allOrNone, out, node);
    }
  }

  /** What a caller can check: whether the query can pick no node that is not in the result. */
  ghost predicate Keepable(st: Store, env: Lookups, q: Query, out: Graph)
    requires Selects(q)
  {
    match q.seed.state
    case BidIn(bids) => Asked(q) <= st.states.Keys
    case AnyState => q.seed.StateNotIn?
    case SchemaIs(_) => false
    case KindWithin(kinds) => q.seed.StateNotIn? && forall kind: BeliefKind :: kind in kinds
    case NodeMatch(key) =>
      forall node: BeliefNode | node.bid !in out.states :: env.matches(key, node) == q.seed.StateNotIn?
  }

  /**
   Exactly when an entry is safe to keep: a query for ids if every id was present when it was made, since
   one that appears later is not named in the entry; a query node by node practically never, since a
   new node may match.
   */
  lemma SafeToCacheIff(st: Store, env: Lookups, q: Query, allOrNone: bool, out: Graph)
    requires st.OrphanFree() && Selects(q) && IsResult(GraphOf(st), env, q, allOrNone, out)
    ensures StaysCurrent(st, env, q, allOrNone, out) <==> Keepable(st, env, q, out)
  {
    StaysCurrentIff(st, env, q, allOrNone, out);
    ResultWithin(GraphOf(st), env, q, allOrNone, out);
    hide IsResult, StaysCurrent;
    if Pinned(q) {
      AskedClosesIff(st, env, q, out.states.Keys);
    } else {
      MatchedClosesIff(st, env, q, out);
    }
  }

  lemma AskedClosesIff(st: Store, env: Lookups, q: Query, bids: set<Bid>)
    requires Pinned(q) && bids <= st.states.Keys && Chosen(GraphOf(st), env, q).Keys <= bids
    ensures ClosedTo(env, q, bids) <==> Asked(q) <= st.states.Keys
  {
    forall b | b in Asked(q) && b !in bids ensures !ClosedTo(env, q, bids) {
      var node := Plain(b, {}, None);
      assert Picks(env, q, node.bid, node);
    }
    assert forall b | b in Asked(q) && b in st.states :: b in Chosen(GraphOf(st), env, q);
  }

  function Plain(b: Bid, kind: set<BeliefKind>, schema: Option<string>): BeliefNode {
    BeliefNode(b, kind, "", schema, None)
  }

  /** There is always another id. */
  lemma FreshBid(bids: set<Bid>) returns (b: Bid)
    ensures b !in bids
  {
    b := if bids == {} then 0 else MaxOf(bids) + 1;
  }

  lemma MatchedClosesIff(st: Store, env: Lookups, q: Query, out: Graph)
    requires Selects(q) && !Pinned(q)
    ensures ClosedTo(env, q, out.states.Keys) <==> Keepable(st, env, q, out)
  {
    var b := FreshBid(out.states.Keys);
    match q.seed.state
    case AnyState =>
      assert q.seed.StateIn? ==> Picks(env, q, b, Plain(b, {}, None));
    case SchemaIs(schema) =>
      var node := Plain(b, {}, if q.seed.StateIn? then Some(schema) else None);
      assert node.bid == b && Picks(env, q, b, node);
    case KindWithin(kinds) =>
      if q.seed.StateIn? {
        assert Picks(env, q, b, Plain(b, {}, None));
      } else if kind: BeliefKind :| kind !in kinds {
        var node := Plain(b, {kind}, None);
        assert node.bid == b && kind in node.kind && Picks(env, q, b, node);
      }
    case NodeMatch(key) =>
      assert forall node: BeliefNode :: Picks(env, q, node.bid, node) <==> env.matches(key, node) != q.seed.StateNotIn?;
  }

  /** A query for all states is out of date with the next new node. */
  lemma AllStatesGoStale(st: Store, env: Lookups, allOrNone: bool, out: Graph)
    requires st.OrphanFree() && IsResult(GraphOf(st), env, Query(StateIn(AnyState)), allOrNone, out)
    ensures !StaysCurrent(st, env, Query(StateIn(AnyState)), allOrNone, out)
  {
    SafeToCacheIff(st, env, Query(StateIn(AnyState)), allOrNone, out);
  }

  // ------------------------------------------------------------------ the cache

  datatype CacheEntry = CacheEntry(result: Graph, bids: set<Bid>)

  type Key = (Query, bool)

  /** A stored result with its ids; current if no node outside them can be picked. */
  ghost predicate EntrySound(base: Graph, env: Lookups, key: Key, entry: CacheEntry) {
    && entry.bids == entry.result.states.Keys
    && (Selects(key.0) && ClosedTo(env, key.0, entry.bids) ==> Current(base, env, key.0, key.1, entry.result))
  }

  lemma EntrySurvives(st: Store, ev: BeliefEvent, st': Store, events: seq<BeliefEvent>, env: Lookups, key: Key,
      entry: CacheEntry)
    requires st.OrphanFree() && Processes(st, ev, st', events)
    requires EntrySound(GraphOf(st), env, key, entry) && entry.bids !! AffectedBy([ev] + events)
    ensures EntrySound(GraphOf(st'), env, key, entry)
  {
    hide ClosedTo, Processes, AffectedBy, IsResult;
    if Selects(key.0) && ClosedTo(env, key.0, entry.bids) {
      SurvivorIsCurrent(st, ev, st', events, env, key.0, key.1, entry.result);
    }
  }

  lemma NewEntrySound(base: Graph, env: Lookups, key: Key, out: Graph)
    requires base.OrphanFree() && IsResult(base, env, key.0, key.1, out)
    ensures EntrySound(base, env, key, CacheEntry(out, out.states.Keys))
  {
    hide ClosedTo, IsResult;
    var (q, allOrNone) := key;
    if Selects(q) {
      forall again | IsResult(base, env, q, allOrNone, again) ensures again == out {
        ResultIsDetermined(base, env, q, allOrNone, out, again);
      }
    }
  }

  /** The entries that hold no affected id. */
  function Unaffected(cache: map<Key, CacheEntry>, affected: set<Bid>): map<Key, CacheEntry> {
    map key | key in cache && cache[key].bids !! affected :: cache[key]
  }

  class CachedBeliefSource {
    const source: BeliefBases.BeliefBase
    const env: Lookups
    var cache: map<Key, CacheEntry>

    /** Every entry is sound for what the source holds now. */
    ghost predicate Valid()
      reads this, source
    {
      && source.Valid() && source.View().OrphanFree()
      && forall key | key in cache :: EntrySound(GraphOf(source.View()), env, key, cache[key])
    }

    constructor (source: BeliefBases.BeliefBase, env: Lookups)
      requires source.Valid() && source.View().OrphanFree()
      ensures Valid() && this.source == source && this.env == env && cache == map[]
    {
      this.source, this.env, this.cache := source, env, map[];
    }

    /** `eval_query`: answer from the table, or evaluate and remember. */
    method EvalQuery(q: Query, allOrNone: bool) returns (out: Graph)
      requires Valid()
      modifies this`cache
      ensures Valid()
      ensures Selects(q) && ClosedTo(env, q, out.states.Keys) ==>
                Current(GraphOf(source.View()), env, q, allOrNone, out)
      ensures Pinned(q) && Asked(q) <= out.states.Keys ==> Current(GraphOf(source.View()), env, q, allOrNone, out)
      ensures (q, allOrNone) !in old(cache) ==> IsResult(GraphOf(source.View()), env, q, allOrNone, out)
      ensures cache == if (q, allOrNone) in old(cache) then old(cache)
                       else old(cache)[(q, allOrNone) := CacheEntry(out, out.states.Keys)]
      ensures cache[(q, allOrNone)].result == out
    {
      var key := (q, allOrNone);
      if key in cache {
        out := cache[key].result;
      } else {
        out := Compute(q, allOrNone);
        NewEntrySound(GraphOf(source.View()), env, key, out);
        cache := cache[key := CacheEntry(out, out.states.Keys)];
      }
    }

    /** `eval_query` of the source itself. */
    method Compute(q: Query, allOrNone: bool) returns (out: Graph)
      requires source.Valid()
      ensures IsResult(GraphOf(source.View()), env, q, allOrNone, out)
    {
      var rel := source.ReadRelations();
      var base := Graph(source.states, rel);
      var found := Evaluate(base, env, Full, q.seed);
      ghost var seed := found.Value();
      if found.states == map[] {
        out := if allOrNone then EMPTY else Graph(found.states, found.relations);
      } else {
        ghost var graphs := RunBalance(base, found);
        out := Graph(found.states, found.relations);
        assert graphs[0] == seed;
      }
    }

    /** `evict_affected`: an entry stays, unchanged, exactly if it holds no affected id. */
    method EvictAffected(affected: set<Bid>)
      modifies this`cache
      ensures forall key :: key in cache <==> key in old(cache) && old(cache)[key].bids !! affected
      ensures forall key | key in cache :: cache[key] == old(cache)[key]
    {
      if affected == {} {
        return;
      }
      var todo := cache.Keys;
      while todo != {}
        invariant todo <= old(cache).Keys
        invariant forall key :: key in cache <==> key in old(cache) && (key in todo || old(cache)[key].bids !! affected)
        invariant forall key | key in cache :: cache[key] == old(cache)[key]
        decreases todo
      {
        var key: Key :| key in todo;
        todo := todo - {key};
        if !(cache[key].bids !! affected) {
          cache := cache - {key};
        }
      }
    }

    /** `invalidate_for_events` */
    method InvalidateForEvents(events: seq<BeliefEvent>)
      modifies this`cache
      ensures cache == Unaffected(old(cache), AffectedBy(events))
    {
      var affected := {};
      for i := 0 to |events|
        invariant affected == AffectedBy(events[..i]) && cache == old(cache)
      {
        AffectedAppend(events, i);
        affected := affected + Named(events[i]);
      }
      assert events[..|events|] == events;
      EvictAffected(affected);
    }

    /** `invalidate` */
    method Invalidate()
      modifies this`cache
      ensures cache == map[]
    {
      cache := map[];
    }

    /** One event reaches the source, and the table hears of it and of its derivatives. */
    method Deliver(ev: BeliefEvent) returns (events: seq<BeliefEvent>)
      requires Valid()
      modifies this`cache, source
      ensures Valid()
      ensures Processes(old(source.View()), ev, source.View(), events)
      ensures cache == Unaffected(old(cache), AffectedBy([ev] + events))
    {
      ghost var before, kept := source.View(), cache;
      var derived := source.ProcessEvent(ev);
      events := if derived.Success? then derived.value else [];
      InvalidateForEvents([ev] + events);
      ProcessingKeepsValid(before, ev, source.View(), events);
      hide Processes, EntrySound, AffectedBy;
      forall key | key in cache ensures EntrySound(GraphOf(source.View()), env, key, cache[key]) {
        EntrySurvives(before, ev, source.View(), events, env, key, kept[key]);
      }
    }
  }

  lemma AffectedAppend(events: seq<BeliefEvent>, i: nat)
    requires i < |events|
    ensures AffectedBy(events[..i + 1]) == AffectedBy(events[..i]) + Named(events[i])
  {
    assert events[..i + 1] == events[..i] + [events[i]];
  }
}
