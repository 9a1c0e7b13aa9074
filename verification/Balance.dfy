/**
 The fixpoint loop of src/query.rs that climbs Section edges until every Section sink of a
 result is a root, with its round cutoff.
 */
module Balance {
  import opened Properties
  import opened Reachability
  import opened BeliefGraphs
  import opened GraphStore
  import opened Expressions

  const BALANCE_CUTOFF := 10

  // ------------------------------------------------------------------ open sinks

  function OfKinds(rel: Relations, kinds: set<WeightKind>): set<Edge> {
    set e | e in rel && rel[e].Keys * kinds != {}
  }

  /** `find_externals` towards sinks: targets of such an edge that have none leaving them. */
  function OpenSinks(rel: Relations, kinds: set<WeightKind>): set<Bid> {
    var edges := OfKinds(rel, kinds);
    set n | n in Sinks(edges) && !exists e :: e in edges && e.0 == n
  }

  /** The next query, if there is anything to ask: `build_downstream_expr`. */
  function DownstreamQuery(rel: Relations, kinds: set<WeightKind>): Option<set<Bid>> {
    var sinks := OpenSinks(rel, kinds);
    if sinks == {} then None else Some(sinks)
  }

  const SECTION: set<WeightKind> := {Section}

  /** `eval_trace` of the given ids: their outgoing Section edges, everything as Trace. */
  function TraceOf(base: Graph, bids: set<Bid>): Graph {
    TraceStates(base, Restrict(base.states, bids), SECTION)
  }

  // ------------------------------------------------------------------ the loop

  /** One evaluation and union. */
  ghost predicate Round(base: Graph, bg: Graph, bids: set<Bid>, next: Graph) {
    IsUnion(bg, TraceOf(base, bids), next)
  }

  /** The query pending after `i` rounds: sinks of every kind at first, Section sinks after that. */
  function Pending(graphs: seq<Graph>, i: nat): Option<set<Bid>>
    requires i < |graphs|
  {
    DownstreamQuery(graphs[i].relations, if i == 0 then ALL_KINDS else SECTION)
  }

  /** No query is pending, or the one just answered came back unchanged. */
  predicate Settled(graphs: seq<Graph>, i: nat)
    requires i < |graphs|
  {
    Pending(graphs, i).None? || (i > 0 && Pending(graphs, i) == Pending(graphs, i - 1))
  }

  /** The graph after `i` rounds went on to another one. */
  ghost predicate GoesOn(base: Graph, graphs: seq<Graph>, i: nat)
    requires i + 1 < |graphs|
  {
    && i <= BALANCE_CUTOFF
    && !Settled(graphs, i)
    && Round(base, graphs[i], Pending(graphs, i).value, graphs[i + 1])
  }

  /** `graphs[i]` is the graph after `i` rounds; every graph but the last went on. */
  ghost predicate Trail(base: Graph, graphs: seq<Graph>) {
    && |graphs| > 0
    && forall i: nat | i + 1 < |graphs| :: GoesOn(base, graphs, i)
  }

  ghost function Calls(graphs: seq<Graph>): nat
    requires |graphs| > 0
  {
    |graphs| - 1
  }

  /** `balance` turns `graphs[0]` into the last graph: it settled, or the cutoff stopped it. */
  ghost predicate Balances(base: Graph, graphs: seq<Graph>) {
    && Trail(base, graphs)
    && (Settled(graphs, Calls(graphs)) || Calls(graphs) > BALANCE_CUTOFF)
  }

  ghost predicate CutOff(graphs: seq<Graph>)
    requires |graphs| > 0
  {
    !Settled(graphs, Calls(graphs))
  }

  /** `balance` */
  method RunBalance(base: Graph, g: BeliefGraph) returns (ghost graphs: seq<Graph>)
    modifies g
    ensures Balances(base, graphs) && graphs[0] == old(g.Value()) && graphs[Calls(graphs)] == g.Value()
  {
    var round := 0;
    var query := DownstreamQuery(g.relations, ALL_KINDS);
    var settled := query.None?;
    graphs := [g.Value()];
    hide IsUnion, TraceOf, OpenSinks;
    while !settled
      invariant 0 <= round <= BALANCE_CUTOFF + 1 && Trail(base, graphs) && round == Calls(graphs)
      invariant graphs[0] == old(g.Value()) && graphs[round] == g.Value()
      invariant query == Pending(graphs, round) && settled == Settled(graphs, round)
      decreases BALANCE_CUTOFF + 1 - round
    {
      if round > BALANCE_CUTOFF {
        break;
      }
      g.UnionMut(TraceOf(base, query.value));
      var next := DownstreamQuery(g.relations, SECTION);
      ExtendTrail(base, graphs, g.Value());
      graphs := graphs + [g.Value()];
      settled := next.None? || next == query;
      query := next;
      round := round + 1;
    }
  }

  lemma ExtendTrail(base: Graph, graphs: seq<Graph>, next: Graph)
    requires Trail(base, graphs) && Calls(graphs) <= BALANCE_CUTOFF && !Settled(graphs, Calls(graphs))
    requires Round(base, graphs[Calls(graphs)], Pending(graphs, Calls(graphs)).value, next)
    ensures Trail(base, graphs + [next])
    ensures Pending(graphs + [next], Calls(graphs)) == Pending(graphs, Calls(graphs))
  {
    hide Round, DownstreamQuery;
    var all := graphs + [next];
    forall i: nat | i < |graphs|
      ensures Settled(all, i) == Settled(graphs, i) && Pending(all, i) == Pending(graphs, i)
    {
    }
    forall i: nat | i + 1 < |all| ensures GoesOn(base, all, i) {
      if i + 1 < |graphs| {
        assert GoesOn(base, graphs, i);
      }
    }
  }

  // ------------------------------------------------------------------ one round

  function NoLoops(rel: Relations): Relations {
    map e | e in rel && e.0 != e.1 :: rel[e]
  }

  /** What one round amounts to: take over the trace's edges and the states of their endpoints. */
  function Climb(bg: Graph, trace: Graph): Graph {
    Graph(Fill(bg.states, trace.states, Endpoints(trace.relations.Keys)), bg.relations + NoLoops(trace.relations))
  }

  function Written(rhs: Graph, order: seq<Edge>): Relations
    requires forall e | e in order :: e in rhs.relations
  {
    map e: Edge | e in order && e.0 != e.1 :: rhs.relations[e]
  }

  lemma WrittenHead(rel: Relations, rhs: Graph, order: seq<Edge>)
    requires order != [] && forall e | e in order :: e in rhs.relations
    ensures var first := order[0];
            (if first.0 == first.1 then rel else rel[first := rhs.relations[first]]) + Written(rhs, order[1..]) ==
            rel + Written(rhs, order)
  {
    assert order == [order[0]] + order[1..];
  }

  /** When every endpoint has a state already, the edge pass writes all edges but loops. */
  lemma {:induction false} EdgePassExact(g: Graph, rhs: Graph, order: seq<Edge>)
    requires forall e | e in order :: e in rhs.relations && e.0 in g.states && e.1 in g.states
    ensures EdgePass(g, rhs, order) == Graph(g.states, g.relations + Written(rhs, order))
    decreases |order|
  {
    if order == [] {
      assert g.relations + Written(rhs, order) == g.relations;
    } else {
      var first := order[0];
      assert Fill(g.states, rhs.states, {first.0, first.1}) == g.states;
      EdgePassExact(EdgeStep(g, rhs, first), rhs, order[1..]);
      hide Written;
      WrittenHead(g.relations, rhs, order);
    }
  }

  /** Every node of a trace is connected to its queried ids. */
  lemma TraceConnected(trace: Graph, states: States)
    requires forall e | e in trace.relations :: e.0 in states
    ensures Connected(trace, Seeds(states, trace, None)) == Endpoints(trace.relations.Keys)
  {
    var edges, seeds := trace.relations.Keys, Seeds(states, trace, None);
    forall e | e in edges ensures Reaches(edges, seeds, e.0) && Reaches(edges, seeds, e.1) {
      SeedReached(edges, seeds, e.0);
      StepReached(edges, seeds, e.0, e.1);
    }
  }

  /** On graphs without orphans a round is a function of the graph and the query. */
  lemma RoundIsClimb(base: Graph, bg: Graph, bids: set<Bid>, next: Graph)
    requires base.OrphanFree() && bg.OrphanFree() && bids <= bg.states.Keys
    requires Round(base, bg, bids, next)
    ensures next == Climb(bg, TraceOf(base, bids))
    ensures next.OrphanFree()
  {
    var trace := TraceOf(base, bids);
    TraceShape(base, bids);
    hide TraceOf;
    UnionIsClimb(bg, trace, next);
  }

  lemma UnionIsClimb(bg: Graph, trace: Graph, next: Graph)
    requires bg.OrphanFree() && trace.OrphanFree() && CompleteOf(trace.states) == map[]
    requires forall e | e in trace.relations :: e.0 in bg.states
    requires IsUnion(bg, trace, next)
    ensures next == Climb(bg, trace) && next.OrphanFree()
  {
    assert bg.states + CompleteOf(trace.states) == bg.states;
    assert Graph(bg.states + CompleteOf(trace.states), bg.relations) == bg;
    var order :| EdgeOrder(trace, order) && next == AddRelations(bg, trace, None, order);
    TraceConnected(trace, bg.states);
    ClimbPass(bg, trace, order);
  }

  lemma ClimbPass(bg: Graph, trace: Graph, order: seq<Edge>)
    requires bg.OrphanFree() && trace.OrphanFree() && EdgeOrder(trace, order)
    ensures EdgePass(Graph(Fill(bg.states, trace.states, Endpoints(trace.relations.Keys)), bg.relations), trace, order)
            == Climb(bg, trace)
    ensures Climb(bg, trace).OrphanFree()
  {
    EndpointsFilled(bg, trace);
    OrderWritesAll(trace, order);
    hide Fill, Endpoints, EdgePass, NoDuplicates, Written, NoLoops;
    var reached := Graph(Fill(bg.states, trace.states, Endpoints(trace.relations.Keys)), bg.relations);
    EdgePassExact(reached, trace, order);
    ClimbOrphanFree(bg, trace);
  }

  lemma OrderWritesAll(trace: Graph, order: seq<Edge>)
    requires EdgeOrder(trace, order)
    ensures forall e | e in order :: e in trace.relations
    ensures Written(trace, order) == NoLoops(trace.relations)
  {
  }

  lemma ClimbOrphanFree(bg: Graph, trace: Graph)
    requires bg.OrphanFree() && trace.OrphanFree()
    ensures Climb(bg, trace).OrphanFree()
  {
    EndpointsFilled(bg, trace);
    hide Fill, Endpoints;
  }

  lemma EndpointsFilled(bg: Graph, trace: Graph)
    requires bg.OrphanFree() && trace.OrphanFree()
    ensures var states := Fill(bg.states, trace.states, Endpoints(trace.relations.Keys));
            && (forall e | e in trace.relations :: e.0 in states && e.1 in states)
            && (forall e | e in bg.relations :: e.0 in states && e.1 in states)
  {
    forall e | e in trace.relations
      ensures e.0 in Endpoints(trace.relations.Keys) && e.1 in Endpoints(trace.relations.Keys)
    {
    }
  }

  lemma TraceShape(base: Graph, bids: set<Bid>)
    requires base.OrphanFree()
    ensures var trace := TraceOf(base, bids);
            && CompleteOf(trace.states) == map[]
            && (forall e | e in trace.relations :: e.0 in bids && e.0 in trace.states && e.1 in trace.states)
            && (forall e :: e in trace.relations <==>
                    e in base.relations && e.0 in bids && Section in base.relations[e])
            && (forall e | e in trace.relations :: trace.relations[e] == base.relations[e])
  {
    TraceEdges(base, bids);
    var trace := TraceOf(base, bids);
    TraceFilled(base, bids);
    hide TraceOf;
  }

  lemma TraceEdges(base: Graph, bids: set<Bid>)
    requires base.OrphanFree()
    ensures var trace := TraceOf(base, bids);
            && (forall e :: e in trace.relations <==>
                    e in base.relations && e.0 in bids && Section in base.relations[e])
            && (forall e | e in trace.relations :: trace.relations[e] == base.relations[e])
  {
    forall e | e in base.relations
      ensures base.relations[e].Keys * SECTION != {} <==> Section in base.relations[e]
    {
      assert Section in base.relations[e].Keys * SECTION <==> Section in base.relations[e];
    }
    hide FillTrace, AllTrace, Sinks;
  }

  lemma TraceFilled(base: Graph, bids: set<Bid>)
    requires base.OrphanFree()
    ensures var trace := TraceOf(base, bids);
            && CompleteOf(trace.states) == map[]
            && (forall e | e in trace.relations :: e.0 in trace.states && e.1 in trace.states)
  {
    var trace := TraceOf(base, bids);
    assert forall e | e in trace.relations :: e.1 in Sinks(trace.relations.Keys);
  }

  // ------------------------------------------------------------------ Section edges over a run

  function SectionEdges(g: Graph): set<Edge> {
    set e | e in g.relations && Section in g.relations[e]
  }

  /** The Section edges, loops aside, that leave the ids of `bids` in the store. */
  function Leaving(base: Graph, bids: set<Bid>): set<Edge> {
    set e | e in base.relations && Section in base.relations[e] && e.0 in bids && e.0 != e.1
  }

  /** No Section edge but a loop leaves `n` in the store. */
  predicate IsRoot(base: Graph, n: Bid) {
    Leaving(base, {n}) == {}
  }

  ghost predicate Open(edges: set<Edge>, n: Bid) {
    (exists e :: e in edges && e.1 == n) && forall e | e in edges :: e.0 != n
  }

  lemma SectionSinksAreOpen(g: Graph, n: Bid)
    ensures n in OpenSinks(g.relations, SECTION) <==> Open(SectionEdges(g), n)
  {
    SectionKinds(g);
    var edges := SectionEdges(g);
    if n in Sinks(edges) {
      var e :| e in edges && e.1 == n;
    }
    if e :| e in edges && e.1 == n {
      assert n in Sinks(edges);
    }
  }

  lemma SectionKinds(g: Graph)
    ensures OfKinds(g.relations, SECTION) == SectionEdges(g)
  {
    forall e | e in g.relations
      ensures g.relations[e].Keys * SECTION != {} <==> Section in g.relations[e]
    {
      assert Section in g.relations[e].Keys * SECTION <==> Section in g.relations[e];
    }
  }

  lemma PendingWithinStates(g: Graph, kinds: set<WeightKind>)
    requires g.OrphanFree()
    ensures OpenSinks(g.relations, kinds) <= g.states.Keys
  {
  }

  /** A round adds exactly the Section edges that leave the queried ids. */
  lemma RoundAddsLeaving(base: Graph, bg: Graph, bids: set<Bid>, next: Graph)
    requires base.OrphanFree() && bg.OrphanFree() && bids <= bg.states.Keys
    requires Round(base, bg, bids, next)
    ensures SectionEdges(next) == SectionEdges(bg) + Leaving(base, bids)
    ensures next.OrphanFree()
  {
    RoundIsClimb(base, bg, bids, next);
    TraceShape(base, bids);
    hide TraceOf, Round, Fill, Endpoints;
    ClimbAddsLeaving(base, bg, bids, TraceOf(base, bids));
  }

  lemma ClimbAddsLeaving(base: Graph, bg: Graph, bids: set<Bid>, trace: Graph)
    requires forall e :: e in trace.relations <==> e in base.relations && e.0 in bids && Section in base.relations[e]
    requires forall e | e in trace.relations :: trace.relations[e] == base.relations[e]
    ensures SectionEdges(Climb(bg, trace)) == SectionEdges(bg) + Leaving(base, bids)
  {
    hide Fill, Endpoints;
    assert Climb(bg, trace).relations == bg.relations + NoLoops(trace.relations);
  }

  /** Along a run every graph is free of orphans and the edge sets grow by what each query leaves. */
  lemma {:induction false} TrailShape(base: Graph, graphs: seq<Graph>, i: nat)
    requires base.OrphanFree() && Trail(base, graphs) && graphs[0].OrphanFree() && i < |graphs|
    ensures graphs[i].OrphanFree()
    ensures i + 1 < |graphs| ==>
              Pending(graphs, i).Some? &&
              SectionEdges(graphs[i + 1]) == SectionEdges(graphs[i]) + Leaving(base, Pending(graphs, i).value)
  {
    if i == 0 {
    } else {
      TrailShape(base, graphs, i - 1);
      assert GoesOn(base, graphs, i - 1);
      PendingWithinStates(graphs[i - 1], if i == 1 then ALL_KINDS else SECTION);
      RoundAddsLeaving(base, graphs[i - 1], Pending(graphs, i - 1).value, graphs[i]);
    }
    if i + 1 < |graphs| {
      assert GoesOn(base, graphs, i);
      PendingWithinStates(graphs[i], if i == 0 then ALL_KINDS else SECTION);
      RoundAddsLeaving(base, graphs[i], Pending(graphs, i).value, graphs[i + 1]);
    }
  }

  // ------------------------------------------------------------------ when a run asks at all

  /** An edge of some kind leads to `n` and none leads on from it. */
  ghost predicate Dangling(g: Graph, n: Bid) {
    && (exists e :: e in g.relations && g.relations[e] != map[] && e.1 == n)
    && forall e | e in g.relations && e.0 == n :: g.relations[e] == map[]
  }

  lemma DanglingIsOpen(g: Graph, n: Bid)
    ensures n in OpenSinks(g.relations, ALL_KINDS) <==> Dangling(g, n)
  {
    var edges := OfKinds(g.relations, ALL_KINDS);
    AllKindsAre();
    forall e | e in g.relations ensures e in edges <==> g.relations[e] != map[] {
      assert g.relations[e].Keys * ALL_KINDS == g.relations[e].Keys;
    }
    if n in Sinks(edges) {
      var e :| e in edges && e.1 == n;
    }
    if e :| e in edges && e.1 == n {
      assert n in Sinks(edges);
    }
  }

  lemma AllKindsAre()
    ensures forall k: WeightKind :: k in ALL_KINDS
  {
    forall k: WeightKind ensures k in ALL_KINDS {
      match k
      case Epistemic =>
      case Section =>
      case Pragmatic =>
    }
  }

  lemma FirstPending(graphs: seq<Graph>)
    requires |graphs| > 0
    ensures Pending(graphs, 0).Some? <==> exists n :: Dangling(graphs[0], n)
    ensures Pending(graphs, 0).Some? ==> forall n :: n in Pending(graphs, 0).value <==> Dangling(graphs[0], n)
  {
    forall n: Bid {
      DanglingIsOpen(graphs[0], n);
    }
    hide OpenSinks, Dangling;
    assert Pending(graphs, 0).Some? ==> exists n :: n in Pending(graphs, 0).value;
  }

  /** The loop asks exactly if the query's graph has a dangling edge; otherwise it leaves the graph alone. */
  lemma AsksIff(base: Graph, graphs: seq<Graph>)
    requires Balances(base, graphs)
    ensures Calls(graphs) > 0 <==> exists n :: Dangling(graphs[0], n)
    ensures Calls(graphs) == 0 ==> graphs[Calls(graphs)] == graphs[0]
  {
    FirstPending(graphs);
    hide Dangling, Pending;
    if Calls(graphs) > 0 {
      assert GoesOn(base, graphs, 0);
    }
  }

  /** Cut off means the eleventh evaluation was the last. */
  lemma CutOffAfterEleven(base: Graph, graphs: seq<Graph>)
    requires Balances(base, graphs)
    ensures Calls(graphs) <= 11 && (CutOff(graphs) ==> Calls(graphs) == 11)
  {
    var n := Calls(graphs);
    assert n > 0 ==> GoesOn(base, graphs, n - 1);
  }

  /** Section edges only accumulate over a run. */
  lemma {:induction false} SectionsStay(base: Graph, graphs: seq<Graph>, i: nat, j: nat)
    requires base.OrphanFree() && Trail(base, graphs) && graphs[0].OrphanFree() && i <= j < |graphs|
    ensures SectionEdges(graphs[i]) <= SectionEdges(graphs[j])
  {
    hide Trail, SectionEdges;
    if i == j {
    } else {
      SectionsStay(base, graphs, i, j - 1);
      TrailShape(base, graphs, j - 1);
    }
  }

  /**
   Whatever the query came upon is followed up: if some edge of the start, of any kind, leads to a node that none
   leads on from, every Section edge of the store that leaves it, loops aside, is in the result.
   */
  lemma DanglingIsFollowed(base: Graph, graphs: seq<Graph>, n: Bid, e: Edge)
    requires base.OrphanFree() && |graphs| > 0 && graphs[0].OrphanFree() && Balances(base, graphs)
    requires exists f :: f in graphs[0].relations && graphs[0].relations[f] != map[] && f.1 == n
    requires forall f | f in graphs[0].relations && f.0 == n :: graphs[0].relations[f] == map[]
    requires e in base.relations && Section in base.relations[e] && e.0 == n && e.1 != n
    ensures var last := graphs[|graphs| - 1].relations;
            e in last && Section in last[e]
  {
    assert Dangling(graphs[0], n);
    AsksIff(base, graphs);
    FirstPending(graphs);
    TrailShape(base, graphs, 0);
    SectionsStay(base, graphs, 1, Calls(graphs));
    hide Pending, Balances, Dangling;
    assert e in Leaving(base, Pending(graphs, 0).value);
    assert e in SectionEdges(graphs[1]);
  }

  /** What is not from the start is from the store: nodes coloured Trace, and Section edges with their weights. */
  ghost predicate AddsFrom(base: Graph, start: Graph, g: Graph) {
    && (forall b | b in start.states :: b in g.states && g.states[b] == start.states[b])
    && (forall b | b in g.states && b !in start.states ::
          b in base.states && g.states[b] == base.states[b].(kind := base.states[b].kind + {Trace}))
    && (forall e | e in start.relations :: e in g.relations)
    && (forall e | e in g.relations ::
          || (e in start.relations && g.relations[e] == start.relations[e])
          || (e in base.relations && Section in base.relations[e] && g.relations[e] == base.relations[e]))
  }

  lemma ClimbAdds(base: Graph, start: Graph, g: Graph, bids: set<Bid>)
    requires base.OrphanFree() && AddsFrom(base, start, g)
    ensures AddsFrom(base, start, Climb(g, TraceOf(base, bids)))
  {
    TraceShape(base, bids);
    TraceColoured(base, bids);
    hide TraceOf, Endpoints, Graph.OrphanFree;
    ClimbAddsTrace(base, start, g, TraceOf(base, bids));
  }

  lemma ClimbAddsTrace(base: Graph, start: Graph, g: Graph, trace: Graph)
    requires AddsFrom(base, start, g)
    requires forall b | b in trace.states ::
               b in base.states && trace.states[b] == base.states[b].(kind := base.states[b].kind + {Trace})
    requires forall e | e in trace.relations ::
               e in base.relations && Section in base.relations[e] && trace.relations[e] == base.relations[e]
    ensures AddsFrom(base, start, Climb(g, trace))
  {
    hide Endpoints;
    assert forall e | e in NoLoops(trace.relations) :: NoLoops(trace.relations)[e] == trace.relations[e];
    hide NoLoops;
  }

  lemma TraceColoured(base: Graph, bids: set<Bid>)
    ensures forall b | b in TraceOf(base, bids).states ::
              && b in base.states
              && TraceOf(base, bids).states[b] == base.states[b].(kind := base.states[b].kind + {Trace})
  {
    hide Sinks;
  }

  lemma {:induction false} RunAdds(base: Graph, graphs: seq<Graph>, i: nat)
    requires base.OrphanFree() && Trail(base, graphs) && graphs[0].OrphanFree() && i < |graphs|
    ensures AddsFrom(base, graphs[0], graphs[i])
  {
    hide TraceOf, Climb, AddsFrom, Round;
    if i == 0 {
      NothingAdded(base, graphs[0]);
    } else {
      RunAdds(base, graphs, i - 1);
      TrailShape(base, graphs, i - 1);
      assert GoesOn(base, graphs, i - 1);
      PendingWithinStates(graphs[i - 1], if i == 1 then ALL_KINDS else SECTION);
      hide Trail, Graph.OrphanFree;
      var asked := Pending(graphs, i - 1).value;
      RoundIsClimb(base, graphs[i - 1], asked, graphs[i]);
      ClimbAdds(base, graphs[0], graphs[i - 1], asked);
    }
  }

  lemma NothingAdded(base: Graph, g: Graph)
    ensures AddsFrom(base, g, g)
  {
  }

  // ------------------------------------------------------------------ what a run achieves

  ghost predicate AllRoots(base: Graph, g: Graph) {
    forall n | n in OpenSinks(g.relations, SECTION) :: IsRoot(base, n)
  }

  /** An open sink that was queried before is a root. */
  lemma QueriedOpenIsRoot(base: Graph, g: Graph, bids: set<Bid>, n: Bid)
    requires n in bids && Leaving(base, bids) <= SectionEdges(g) && Open(SectionEdges(g), n)
    ensures IsRoot(base, n)
  {
    assert Leaving(base, {n}) <= Leaving(base, bids);
  }

  /**
   A run that settles, from a start with a dangling edge, leaves every Section sink a root of the
   store, cycles in the store or not.
   */
  lemma SettledIsBalanced(base: Graph, graphs: seq<Graph>)
    requires base.OrphanFree() && graphs != [] && graphs[0].OrphanFree() && Balances(base, graphs)
    requires !CutOff(graphs) && exists n :: Dangling(graphs[0], n)
    ensures AllRoots(base, graphs[Calls(graphs)])
    ensures var last := graphs[Calls(graphs)].relations;
            forall e | e in last && Section in last[e] ::
              || (exists f :: f in last && Section in last[f] && f.0 == e.1)
              || (forall f | f in base.relations && f.0 == e.1 && f.1 != e.1 :: Section !in base.relations[f])
  {
    AsksIff(base, graphs);
    SettledAreRoots(base, graphs);
    RootsSpelledOut(base, graphs[Calls(graphs)]);
  }

  lemma SettledAreRoots(base: Graph, graphs: seq<Graph>)
    requires base.OrphanFree() && graphs != [] && graphs[0].OrphanFree() && Balances(base, graphs)
    requires !CutOff(graphs) && Calls(graphs) > 0
    ensures AllRoots(base, graphs[Calls(graphs)])
  {
    var n := Calls(graphs);
    TrailShape(base, graphs, n - 1);
    forall b | b in OpenSinks(graphs[n].relations, SECTION) ensures IsRoot(base, b) {
      SectionSinksAreOpen(graphs[n], b);
      assert Pending(graphs, n) == Pending(graphs, n - 1);
      QueriedOpenIsRoot(base, graphs[n], Pending(graphs, n - 1).value, b);
    }
  }

  /** In terms of edges: a Section edge is followed by another, or its sink has none in the store but loops. */
  lemma RootsSpelledOut(base: Graph, g: Graph)
    requires AllRoots(base, g)
    ensures forall e | e in g.relations && Section in g.relations[e] ::
              || (exists f :: f in g.relations && Section in g.relations[f] && f.0 == e.1)
              || (forall f | f in base.relations && f.0 == e.1 && f.1 != e.1 :: Section !in base.relations[f])
  {
    forall e | e in g.relations && Section in g.relations[e]
        && !exists f :: f in g.relations && Section in g.relations[f] && f.0 == e.1
      ensures forall f | f in base.relations && f.0 == e.1 && f.1 != e.1 :: Section !in base.relations[f]
    {
      SectionSinksAreOpen(g, e.1);
      assert e in SectionEdges(g) && Open(SectionEdges(g), e.1);
      forall f | f in base.relations && f.0 == e.1 && f.1 != e.1 ensures Section !in base.relations[f] {
        assert f !in Leaving(base, {e.1});
      }
    }
  }

  /** The Section graph of the store is acyclic and at most `height` edges high. */
  ghost predicate Ranked(base: Graph, rank: Bid -> nat, height: nat) {
    && (forall n :: rank(n) <= height)
    && (forall e | e in base.relations && Section in base.relations[e] :: rank(e.1) < rank(e.0))
  }

  /** What is known of the sinks pending after `i` rounds: roots, or ever closer to one. */
  ghost predicate Closing(base: Graph, rank: Bid -> nat, height: nat, g: Graph, i: nat) {
    forall n | n in OpenSinks(g.relations, SECTION) :: IsRoot(base, n) || rank(n) + i <= height + 1
  }

  lemma StepCloses(base: Graph, rank: Bid -> nat, height: nat, g: Graph, next: Graph, i: nat)
    requires Ranked(base, rank, height) && Closing(base, rank, height, g, i)
    requires SectionEdges(next) == SectionEdges(g) + Leaving(base, OpenSinks(g.relations, SECTION))
    ensures Closing(base, rank, height, next, i + 1)
  {
    var asked := OpenSinks(g.relations, SECTION);
    forall n | n in OpenSinks(next.relations, SECTION)
      ensures IsRoot(base, n) || rank(n) + i + 1 <= height + 1
    {
      SectionSinksAreOpen(next, n);
      SectionSinksAreOpen(g, n);
      var e :| e in SectionEdges(next) && e.1 == n;
      if n in asked {
        QueriedOpenIsRoot(base, next, asked, n);
      } else {
        assert e !in SectionEdges(g);
        assert e in Leaving(base, {e.0});
      }
    }
  }

  lemma {:induction false} TrailCloses(base: Graph, rank: Bid -> nat, height: nat, graphs: seq<Graph>, i: nat)
    requires base.OrphanFree() && Trail(base, graphs) && graphs[0].OrphanFree()
    requires Ranked(base, rank, height) && 0 < i < |graphs|
    ensures Closing(base, rank, height, graphs[i], i)
  {
    if i == 1 {
    } else {
      hide Closing, Ranked, Trail;
      TrailCloses(base, rank, height, graphs, i - 1);
      RoundCloses(base, rank, height, graphs, i - 1);
    }
  }

  lemma RoundCloses(base: Graph, rank: Bid -> nat, height: nat, graphs: seq<Graph>, i: nat)
    requires base.OrphanFree() && Trail(base, graphs) && graphs[0].OrphanFree()
    requires Ranked(base, rank, height) && 0 < i && i + 1 < |graphs| && Closing(base, rank, height, graphs[i], i)
    ensures Closing(base, rank, height, graphs[i + 1], i + 1)
  {
    hide Closing, Ranked;
    TrailShape(base, graphs, i);
    assert GoesOn(base, graphs, i);
    StepCloses(base, rank, height, graphs[i], graphs[i + 1], i);
  }

  lemma RootsAddNothing(base: Graph, bids: set<Bid>)
    requires forall n | n in bids :: IsRoot(base, n)
    ensures Leaving(base, bids) == {}
  {
    forall e | e in base.relations && Section in base.relations[e] && e.0 != e.1 ensures e.0 !in bids {
      assert e in Leaving(base, {e.0});
    }
  }

  /** A run whose pending sinks are all roots settles in the next round. */
  lemma RootsSettle(base: Graph, graphs: seq<Graph>, i: nat)
    requires base.OrphanFree() && Trail(base, graphs) && graphs[0].OrphanFree() && 0 < i && i + 1 < |graphs|
    requires AllRoots(base, graphs[i])
    ensures Settled(graphs, i + 1)
  {
    TrailShape(base, graphs, i);
    assert GoesOn(base, graphs, i);
    var asked := Pending(graphs, i).value;
    RootsAddNothing(base, asked);
    assert SectionEdges(graphs[i + 1]) == SectionEdges(graphs[i]);
    SectionKinds(graphs[i]);
    SectionKinds(graphs[i + 1]);
  }

  /**
   Convergence: over a store without orphans whose Section graph is acyclic and at most nine
   edges high, `balance` settles before the cutoff, within height + 2 evaluations.
   */
  lemma BalanceConverges(base: Graph, rank: Bid -> nat, height: nat, graphs: seq<Graph>)
    requires base.OrphanFree() && graphs != [] && graphs[0].OrphanFree() && Balances(base, graphs)
    requires Ranked(base, rank, height) && height <= 9
    ensures !CutOff(graphs) && Calls(graphs) <= height + 2
    ensures (exists n :: Dangling(graphs[0], n)) ==> AllRoots(base, graphs[Calls(graphs)])
  {
    AsksIff(base, graphs);
    if Calls(graphs) >= height + 2 {
      var i := height + 1;
      TrailCloses(base, rank, height, graphs, i);
      assert AllRoots(base, graphs[i]) by {
        forall n | n in OpenSinks(graphs[i].relations, SECTION) ensures IsRoot(base, n) {
          RankZeroIsRoot(base, rank, height, n);
        }
      }
      assert Calls(graphs) > height + 2 ==> GoesOn(base, graphs, i + 1);
      RootsSettle(base, graphs, i);
    }
    if Calls(graphs) > 0 {
      SettledAreRoots(base, graphs);
    }
  }

  lemma RankZeroIsRoot(base: Graph, rank: Bid -> nat, height: nat, n: Bid)
    requires Ranked(base, rank, height)
    ensures rank(n) == 0 ==> IsRoot(base, n)
  {
    if rank(n) == 0 {
      forall e | e in Leaving(base, {n}) ensures false {
      }
    }
  }

  /**
   What a run leaves over an acyclic store of any height, cut off or not: each open Section sink is a
   root or has come ten levels closer to one. One level above the bound of convergence all are roots.
   */
  lemma CutOffComesCloser(base: Graph, rank: Bid -> nat, height: nat, graphs: seq<Graph>)
    requires base.OrphanFree() && graphs != [] && graphs[0].OrphanFree() && Balances(base, graphs)
    requires Ranked(base, rank, height) && exists n :: Dangling(graphs[0], n)
    ensures forall b | b in OpenSinks(graphs[Calls(graphs)].relations, SECTION) ::
              IsRoot(base, b) || rank(b) + 10 <= height
    ensures height <= 10 ==> AllRoots(base, graphs[Calls(graphs)])
  {
    AsksIff(base, graphs);
    var n := Calls(graphs);
    if CutOff(graphs) {
      TrailCloses(base, rank, height, graphs, n);
      forall b | b in OpenSinks(graphs[n].relations, SECTION) ensures rank(b) == 0 ==> IsRoot(base, b) {
        RankZeroIsRoot(base, rank, height, b);
      }
    } else {
      SettledAreRoots(base, graphs);
    }
  }
}
