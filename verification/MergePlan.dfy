/**
 `to_event_stream` of src/beliefbase/graph.rs: the ordered operations that merge one graph into a
 base. Which nodes and edges it emits, how often and in what order.
 */
module MergePlans {
  import opened Properties
  import opened Reachability
  import BeliefStore
  import opened BeliefGraphs
  import opened Expressions
  import opened GraphStore
  import opened Balance
  import opened SectionWalks

  datatype MergeOp =
    | NodeUpsert(node: BeliefNode)
    | RelationUpdate(source: Bid, sink: Bid, weights: WeightSet)

  // ------------------------------------------------------------------ what is in scope

  predicate Touches(e: Edge, bids: set<Bid>) {
    e.0 in bids || e.1 in bids
  }

  /** The seeds and their neighbours over edges of any kind. */
  function Halo(rel: Relations, seeds: set<Bid>): set<Bid> {
    seeds + Endpoints(set e | e in rel && Touches(e, seeds))
  }

  /** Without seeds everything; with seeds the part of their halo that has states. */
  function Scope(rhs: Graph, seeds: Option<set<Bid>>): set<Bid> {
    match seeds
    case None => rhs.states.Keys
    case Some(s) => Halo(rhs.relations, s) * rhs.states.Keys
  }

  function Among(rel: Relations, bids: set<Bid>): Relations {
    map e | e in rel && e.0 in bids && e.1 in bids :: rel[e]
  }

  lemma OpenSinksAmong(rel: Relations, bids: set<Bid>)
    ensures OpenSinks(Among(rel, bids), SECTION) <= bids
  {
  }

  method HaloOf(rel: Relations, seeds: set<Bid>) returns (halo: set<Bid>)
    ensures halo == Halo(rel, seeds)
  {
    halo := seeds;
    var todo := rel.Keys;
    while todo != {}
      invariant todo <= rel.Keys
      invariant forall n :: n in halo <==>
              n in seeds || exists e :: e in rel && e !in todo && Touches(e, seeds) && (e.0 == n || e.1 == n)
    {
      var e :| e in todo;
      ghost var before := halo;
      if Touches(e, seeds) {
        halo := halo + {e.0, e.1};
      }
      assert forall n :: n in halo <==> n in before || (Touches(e, seeds) && (e.0 == n || e.1 == n));
      todo := todo - {e};
    }
  }

  /**
   The in-memory balance loop: it fetches the open Section sinks from `rhs`, but those are endpoints
   inside the halo, so nothing is ever added and the scope stays the halo. `rounds` counts its turns.
   */
  method ComputeScope(rhs: Graph, seeds: Option<set<Bid>>) returns (scope: set<Bid>, rounds: nat)
    ensures scope == Scope(rhs, seeds)
    ensures rounds <= 1
  {
    rounds := 0;
    if seeds.None? {
      return rhs.states.Keys, 0;
    }
    var halo := HaloOf(rhs.relations, seeds.value);
    var balanced := Graph(Restrict(rhs.states, halo), Among(rhs.relations, halo));
    var added := true;
    while added
      invariant balanced.states == Restrict(rhs.states, halo) && halo == Halo(rhs.relations, seeds.value)
      invariant OpenSinks(balanced.relations, SECTION) <= halo
      invariant rounds == if added then 0 else 1
      decreases added
    {
      hide OpenSinks, Halo, Among;
      rounds := rounds + 1;
      var query := DownstreamQuery(balanced.relations, SECTION);
      if query.None? {
        break;
      }
      var missing := query.value * rhs.states.Keys - balanced.states.Keys;
      added := missing != {};
      balanced := Graph(Fill(balanced.states, rhs.states, missing), balanced.relations);
      OpenSinksAmong(rhs.relations, balanced.states.Keys);
      balanced := Graph(balanced.states, Among(rhs.relations, balanced.states.Keys));
    }
    scope := balanced.states.Keys;
  }

  // ------------------------------------------------------------------ nodes

  /** lhs wins with a complete node; a Trace or missing one is replaced. */
  predicate Upserted(lhs: States, scope: set<Bid>, node: BeliefNode) {
    node.bid in scope && (node.bid in lhs ==> !lhs[node.bid].IsComplete())
  }

  /** The keys of the nodes to emit. A node is looked up under its own id, which need not be its key. */
  function Wanted(lhs: States, rhs: States, scope: set<Bid>): set<Bid> {
    set b | b in rhs && Upserted(lhs, scope, rhs[b])
  }

  /** The nodes under the given keys, by ascending key. */
  ghost function Upserts(rhs: States, keys: set<Bid>): seq<MergeOp>
    requires keys <= rhs.Keys
  {
    if keys == {} then []
    else
      var last := BeliefStore.MaxOf(keys);
      Upserts(rhs, keys - {last}) + [NodeUpsert(rhs[last])]
  }

  ghost predicate NodePart(lhs: States, rhs: States, scope: set<Bid>, nodes: seq<MergeOp>) {
    nodes == Upserts(rhs, Wanted(lhs, rhs, scope))
  }

  lemma UpsertsOneMore(rhs: States, keys: set<Bid>, b: Bid)
    requires keys + {b} <= rhs.Keys && forall x | x in keys :: x < b
    ensures Upserts(rhs, keys + {b}) == Upserts(rhs, keys) + [NodeUpsert(rhs[b])]
  {
    assert BeliefStore.MaxOf(keys + {b}) == b;
    assert keys + {b} - {b} == keys;
  }

  lemma {:induction false} UpsertsMember(rhs: States, keys: set<Bid>, op: MergeOp)
    requires keys <= rhs.Keys
    ensures op in Upserts(rhs, keys) <==> exists b :: b in keys && op == NodeUpsert(rhs[b])
    decreases keys
  {
    if keys == {} {
    } else {
      var last := BeliefStore.MaxOf(keys);
      UpsertsMember(rhs, keys - {last}, op);
    }
  }

  lemma {:induction false} LeastExists(s: set<Bid>) returns (b: Bid)
    requires s != {}
    ensures b in s && forall x | x in s :: b <= x
    decreases s
  {
    var a :| a in s;
    assert s == s - {a} + {a};
    if s == {a} {
      b := a;
    } else {
      var m := LeastExists(s - {a});
      b := if m < a then m else a;
    }
  }

  /** The nodes in scope that the base lacks or holds as Trace, by ascending key. */
  method NodeOps(lhs: States, rhs: States, scope: set<Bid>) returns (nodes: seq<MergeOp>)
    ensures NodePart(lhs, rhs, scope, nodes)
    ensures forall op ::
              op in nodes <==> exists b :: b in rhs && Upserted(lhs, scope, rhs[b]) && op == NodeUpsert(rhs[b])
  {
    nodes := [];
    var todo := rhs.Keys;
    ghost var wanted, done: set<Bid> := Wanted(lhs, rhs, scope), {};
    while todo != {}
      invariant todo + done == rhs.Keys
      invariant forall x, y | x in done && y in todo :: x < y
      invariant nodes == Upserts(rhs, wanted * done)
    {
      hide Upserted;
      ghost var least := LeastExists(todo);
      var b :| b in todo && forall x | x in todo :: b <= x;
      if Upserted(lhs, scope, rhs[b]) {
        UpsertsOneMore(rhs, wanted * done, b);
        assert wanted * (done + {b}) == wanted * done + {b};
        nodes := nodes + [NodeUpsert(rhs[b])];
      } else {
        assert wanted * (done + {b}) == wanted * done;
      }
      todo, done := todo - {b}, done + {b};
    }
    assert wanted * done == wanted;
    forall op
      ensures op in nodes <==> exists b :: b in rhs && Upserted(lhs, scope, rhs[b]) && op == NodeUpsert(rhs[b])
    {
      UpsertsMember(rhs, wanted, op);
    }
  }

  // ------------------------------------------------------------------ edges

  /** Section edges with an endpoint in scope, from parent to child. */
  function SectionLinks(rel: Relations, scope: set<Bid>): set<Edge> {
    Flip(set e | e in rel && Touches(e, scope) && Section in rel[e])
  }

  /** Parents that are nobody's child. */
  function WalkRoots(links: set<Edge>): set<Bid> {
    Endpoints(links) - Sinks(links)
  }

  lemma FlipMember(edges: set<Edge>, l: Edge)
    ensures l in Flip(edges) <==> (l.1, l.0) in edges
  {
    var e := (l.1, l.0);
    assert e in edges ==> (e.1, e.0) in Flip(edges);
  }

  lemma LinkIsEdge(rel: Relations, scope: set<Bid>, l: Edge)
    ensures l in SectionLinks(rel, scope) <==>
            (l.1, l.0) in rel && Touches((l.1, l.0), scope) && Section in rel[(l.1, l.0)]
  {
    var edges := set e | e in rel && Touches(e, scope) && Section in rel[e];
    FlipMember(edges, l);
  }

  /** The base already has the edge with equal weights, as the program compares them. */
  predicate Present(lhs: Relations, e: Edge, ws: WeightSet) {
    e in lhs && SameWeights(lhs[e], ws)
  }

  function FlipAll(tree: seq<Edge>): (edges: seq<Edge>)
    ensures |edges| == |tree| && forall i | 0 <= i < |tree| :: edges[i] == (tree[i].1, tree[i].0)
  {
    seq(|tree|, i requires 0 <= i < |tree| => (tree[i].1, tree[i].0))
  }

  /** What the second edge scan emits. */
  function Remaining(lhs: Relations, rel: Relations, scope: set<Bid>, emitted: seq<Edge>): set<Edge> {
    set e | e in rel && Touches(e, scope) && e !in emitted && !Present(lhs, e, rel[e])
  }

  function Updates(rel: Relations, edges: seq<Edge>): (ops: seq<MergeOp>)
    requires forall e | e in edges :: e in rel
    ensures |ops| == |edges|
    ensures forall i | 0 <= i < |edges| :: ops[i] == RelationUpdate(edges[i].0, edges[i].1, rel[edges[i]])
  {
    if edges == [] then []
    else
      var last := edges[|edges| - 1];
      Updates(rel, edges[..|edges| - 1]) + [RelationUpdate(last.0, last.1, rel[last])]
  }

  /** Node upserts, then the Section tree in walk order, then every other edge that is news. */
  ghost predicate IsPlan(lhs: Graph, rhs: Graph, seeds: Option<set<Bid>>,
    nodes: seq<MergeOp>, tree: seq<Edge>, rest: seq<Edge>)
  {
    var scope := Scope(rhs, seeds);
    var links := SectionLinks(rhs.relations, scope);
    && NodePart(lhs.states, rhs.states, scope, nodes)
    && IsWalk(links, WalkRoots(links), tree)
    && Enumerates(rest, Remaining(lhs.relations, rhs.relations, scope, FlipAll(tree)))
  }

  lemma TreeEdgesKnown(rel: Relations, scope: set<Bid>, tree: seq<Edge>)
    requires forall i | 0 <= i < |tree| :: tree[i] in SectionLinks(rel, scope)
    ensures forall e | e in FlipAll(tree) :: e in rel && Touches(e, scope)
  {
    forall i | 0 <= i < |tree|
      ensures FlipAll(tree)[i] in rel && Touches(FlipAll(tree)[i], scope)
    {
      LinkIsEdge(rel, scope, tree[i]);
    }
  }

  method RemainingEdges(lhs: Relations, rel: Relations, scope: set<Bid>, emitted: seq<Edge>) returns (rest: seq<Edge>)
    ensures Enumerates(rest, Remaining(lhs, rel, scope, emitted))
  {
    rest := [];
    var todo := rel.Keys;
    while todo != {}
      invariant todo <= rel.Keys
      invariant Enumerates(rest, Remaining(lhs, rel, scope, emitted) - todo)
    {
      hide Touches, Present;
      var e :| e in todo;
      var wanted := Remaining(lhs, rel, scope, emitted);
      if !Touches(e, scope) || e in emitted || Present(lhs, e, rel[e]) {
        assert wanted - (todo - {e}) == wanted - todo;
      } else {
        EnumeratesOneMore(rest, wanted - todo, e);
        assert wanted - (todo - {e}) == wanted - todo + {e};
        rest := rest + [e];
      }
      todo := todo - {e};
    }
  }

  lemma RootsHaveNoParent(links: set<Edge>)
    ensures forall e | e in links :: e.1 !in WalkRoots(links)
  {
  }

  ghost predicate PlanKnown(rhs: Graph, tree: seq<Edge>, rest: seq<Edge>) {
    && (forall e | e in FlipAll(tree) :: e in rhs.relations)
    && forall e | e in rest :: e in rhs.relations
  }

  /** The operations of some plan. */
  ghost predicate IsPlanList(lhs: Graph, rhs: Graph, seeds: Option<set<Bid>>, ops: seq<MergeOp>) {
    exists nodes, tree, rest ::
      && IsPlan(lhs, rhs, seeds, nodes, tree, rest) && PlanKnown(rhs, tree, rest)
      && ops == nodes + Updates(rhs.relations, FlipAll(tree)) + Updates(rhs.relations, rest)
  }

  /** `to_event_stream` */
  method ToEventStream(lhs: Graph, rhs: Graph, seeds: Option<set<Bid>>)
    returns (ops: seq<MergeOp>, ghost nodes: seq<MergeOp>, ghost tree: seq<Edge>, ghost rest: seq<Edge>)
    ensures IsPlan(lhs, rhs, seeds, nodes, tree, rest)
    ensures PlanKnown(rhs, tree, rest)
    ensures ops == nodes + Updates(rhs.relations, FlipAll(tree)) + Updates(rhs.relations, rest)
    ensures IsPlanList(lhs, rhs, seeds, ops)
  {
    var scope, rounds := ComputeScope(rhs, seeds);
    var upserts := NodeOps(lhs.states, rhs.states, scope);
    var links := SectionLinks(rhs.relations, scope);
    RootsHaveNoParent(links);
    var walk := SectionWalk(links, WalkRoots(links));
    TreeEdgesKnown(rhs.relations, scope, walk);
    var emitted := FlipAll(walk);
    var others := RemainingEdges(lhs.relations, rhs.relations, scope, emitted);
    ops := upserts + Updates(rhs.relations, emitted) + Updates(rhs.relations, others);
    nodes, tree, rest := upserts, walk, others;
    hide IsPlan, PlanKnown, IsPlanList, Updates, FlipAll;
    PlanListed(lhs, rhs, seeds, nodes, tree, rest, ops);
  }

  lemma PlanListed(lhs: Graph, rhs: Graph, seeds: Option<set<Bid>>, nodes: seq<MergeOp>, tree: seq<Edge>,
      rest: seq<Edge>, ops: seq<MergeOp>)
    requires IsPlan(lhs, rhs, seeds, nodes, tree, rest) && PlanKnown(rhs, tree, rest)
    requires ops == nodes + Updates(rhs.relations, FlipAll(tree)) + Updates(rhs.relations, rest)
    ensures IsPlanList(lhs, rhs, seeds, ops)
  {
    hide IsPlan, Updates, FlipAll;
  }

  // ------------------------------------------------------------------ exactly once

  /** How often the edge is updated. */
  function Emissions(ops: seq<MergeOp>, e: Edge): nat {
    if ops == [] then 0
    else
      var op := ops[|ops| - 1];
      Emissions(ops[..|ops| - 1], e) + (if op.RelationUpdate? && (op.source, op.sink) == e then 1 else 0)
  }

  lemma {:induction false} EmissionsConcat(a: seq<MergeOp>, b: seq<MergeOp>, e: Edge)
    ensures Emissions(a + b, e) == Emissions(a, e) + Emissions(b, e)
  {
    if b == [] {
      assert a + b == a;
    } else {
      EmissionsConcat(a, b[..|b| - 1], e);
      assert (a + b)[..|a + b| - 1] == a + b[..|b| - 1];
    }
  }

  lemma {:induction false} NodesEmitNothing(ops: seq<MergeOp>, e: Edge)
    requires forall op | op in ops :: op.NodeUpsert?
    ensures Emissions(ops, e) == 0
  {
    if ops == [] {
    } else {
      assert ops[|ops| - 1] in ops;
      NodesEmitNothing(ops[..|ops| - 1], e);
    }
  }

  lemma {:induction false} ListedOnce(rel: Relations, edges: seq<Edge>, e: Edge)
    requires NoDuplicates(edges) && forall x | x in edges :: x in rel
    ensures Emissions(Updates(rel, edges), e) == if e in edges then 1 else 0
  {
    if edges == [] {
    } else {
      var n := |edges| - 1;
      assert edges == edges[..n] + [edges[n]];
      LastUpdate(rel, edges);
      ListedOnce(rel, edges[..n], e);
      hide Updates;
    }
  }

  lemma LastUpdate(rel: Relations, edges: seq<Edge>)
    requires edges != [] && forall x | x in edges :: x in rel
    ensures var ops, n := Updates(rel, edges), |edges| - 1;
            ops[..n] == Updates(rel, edges[..n]) && ops[n] == RelationUpdate(edges[n].0, edges[n].1, rel[edges[n]])
  {
  }

  lemma TreeEdgesDiffer(links: set<Edge>, roots: set<Bid>, tree: seq<Edge>)
    requires IsWalk(links, roots, tree)
    ensures NoDuplicates(FlipAll(tree))
  {
    var edges := FlipAll(tree);
    forall i, j | 0 <= i < j < |edges| ensures edges[i] != edges[j] {
      assert tree[i].1 != tree[j].1;
    }
  }

  /**
   Every edge of `rhs` that touches the scope is updated exactly once, unless the base already has it
   with equal weights and the walk did not use it; no other edge is updated.
   */
  lemma MergeIsExact(lhs: Graph, rhs: Graph, seeds: Option<set<Bid>>, nodes: seq<MergeOp>, tree: seq<Edge>,
      rest: seq<Edge>, e: Edge)
    requires IsPlan(lhs, rhs, seeds, nodes, tree, rest) && PlanKnown(rhs, tree, rest)
    ensures Emissions(nodes + Updates(rhs.relations, FlipAll(tree)) + Updates(rhs.relations, rest), e)
         == if e !in rhs.relations || !Touches(e, Scope(rhs, seeds)) then 0
            else if (e.1, e.0) in tree then 1
            else if Present(lhs.relations, e, rhs.relations[e]) then 0
            else 1
    ensures forall op | op in nodes + Updates(rhs.relations, FlipAll(tree)) + Updates(rhs.relations, rest)
        && op.RelationUpdate? ::
              (op.source, op.sink) in rhs.relations && op.weights == rhs.relations[(op.source, op.sink)]
  {
    hide Scope, Touches, Present, NodePart;
    var links := SectionLinks(rhs.relations, Scope(rhs, seeds));
    TreeEdgesDiffer(links, WalkRoots(links), tree);
    TreeEdgesKnown(rhs.relations, Scope(rhs, seeds), tree);
    FlippedMember(tree, e);
    ListedOnce(rhs.relations, FlipAll(tree), e);
    ListedOnce(rhs.relations, rest, e);
    assert forall op | op in nodes :: op.NodeUpsert? by { NodesOnly(lhs.states, rhs.states, Scope(rhs, seeds), nodes); }
    NodesEmitNothing(nodes, e);
    hide SectionLinks, WalkRoots, IsWalk;
    var first, second := Updates(rhs.relations, FlipAll(tree)), Updates(rhs.relations, rest);
    EmissionsConcat(nodes, first, e);
    EmissionsConcat(nodes + first, second, e);
    UpdatesCarry(rhs.relations, FlipAll(tree));
    UpdatesCarry(rhs.relations, rest);
  }

  lemma UpdatesCarry(rel: Relations, edges: seq<Edge>)
    requires forall e | e in edges :: e in rel
    ensures forall op | op in Updates(rel, edges) ::
              op.RelationUpdate? && (op.source, op.sink) in rel && op.weights == rel[(op.source, op.sink)]
  {
    forall op | op in Updates(rel, edges)
      ensures op.RelationUpdate? && (op.source, op.sink) in rel && op.weights == rel[(op.source, op.sink)]
    {
      var i :| 0 <= i < |edges| && Updates(rel, edges)[i] == op;
      assert edges[i] in edges;
    }
  }

  lemma NodesOnly(lhs: States, rhs: States, scope: set<Bid>, nodes: seq<MergeOp>)
    requires NodePart(lhs, rhs, scope, nodes)
    ensures forall op | op in nodes :: op.NodeUpsert?
  {
    forall op | op in nodes ensures op.NodeUpsert? {
      UpsertsMember(rhs, Wanted(lhs, rhs, scope), op);
    }
  }

  lemma FlippedMember(tree: seq<Edge>, e: Edge)
    ensures e in FlipAll(tree) <==> (e.1, e.0) in tree
  {
    if (e.1, e.0) in tree {
      var i :| 0 <= i < |tree| && tree[i] == (e.1, e.0);
      assert FlipAll(tree)[i] == e;
    }
  }

  /**
   The Section edges of the walk come parent first: the sink of each is a node that is nobody's child
   in scope, or the source of an earlier one.
   */
  lemma ParentsComeFirst(lhs: Graph, rhs: Graph, seeds: Option<set<Bid>>, nodes: seq<MergeOp>, tree: seq<Edge>,
      rest: seq<Edge>, i: nat)
    requires IsPlan(lhs, rhs, seeds, nodes, tree, rest) && i < |tree|
    ensures var scope, sink := Scope(rhs, seeds), FlipAll(tree)[i].1;
            || (exists j :: 0 <= j < i && FlipAll(tree)[j].0 == sink)
            || (forall e | e in rhs.relations && e.0 == sink && Section in rhs.relations[e] :: !Touches(e, scope))
  {
    hide Scope, NodePart, IsWalk;
    ParentIsFound(rhs.relations, Scope(rhs, seeds), tree, i);
  }

  lemma ParentIsFound(rel: Relations, scope: set<Bid>, tree: seq<Edge>, i: nat)
    requires IsWalk(SectionLinks(rel, scope), WalkRoots(SectionLinks(rel, scope)), tree) && i < |tree|
    ensures var sink := FlipAll(tree)[i].1;
            || (exists j :: 0 <= j < i && FlipAll(tree)[j].0 == sink)
            || (forall e | e in rel && e.0 == sink && Section in rel[e] :: !Touches(e, scope))
  {
    var sink := tree[i].0;
    hide SectionLinks, Touches, WalkRoots;
    if sink in WalkRoots(SectionLinks(rel, scope)) {
      forall e | e in rel && e.0 == sink && Section in rel[e] ensures !Touches(e, scope) {
        RootIsNoChild(rel, scope, e);
      }
    } else {
      var j :| 0 <= j < i && j < |tree| && tree[j].1 == sink;
      assert FlipAll(tree)[j].0 == sink;
    }
  }

  lemma RootIsNoChild(rel: Relations, scope: set<Bid>, e: Edge)
    requires e in rel && Section in rel[e] && e.0 in WalkRoots(SectionLinks(rel, scope))
    ensures !Touches(e, scope)
  {
    LinkIsEdge(rel, scope, (e.1, e.0));
    SinkOfLink(SectionLinks(rel, scope), (e.1, e.0));
    hide SectionLinks, Touches, Sinks;
  }

  lemma SinkOfLink(links: set<Edge>, l: Edge)
    ensures l in links ==> l.1 in Sinks(links)
  {
  }
}
