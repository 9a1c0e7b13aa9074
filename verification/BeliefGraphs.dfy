/**
 The graph algebra of src/beliefbase/graph.rs: union, intersection and difference of query
 results, all built on one merge of relations that first pulls in every connected node.

 The edge pass depends on the order the other graph stores its edges in, so the merge takes
 that order as an argument and every theorem holds for all orders.
 */
module BeliefGraphs {
  import opened Properties
  import opened Reachability

  datatype Graph = Graph(states: States, relations: Relations)
  {
    /** No edge has an endpoint without a state. */
    ghost predicate OrphanFree() {
      forall e | e in relations :: e.0 in states && e.1 in states
    }

    ghost predicate LoopFree() {
      forall e | e in relations :: e.0 != e.1
    }

    ghost predicate Complete() {
      forall b | b in states :: states[b].IsComplete()
    }
  }

  const EMPTY := Graph(map[], map[])

  // ------------------------------------------------------------------ merging relations

  /** Copy the states of `bids` that are missing. */
  function Fill(states: States, from: States, bids: set<Bid>): States {
    states + map b | b in bids && b in from && b !in states :: from[b]
  }

  function CompleteOf(states: States): States {
    map b | b in states && states[b].IsComplete() :: states[b]
  }

  /** The nodes of `rhs`'s relation graph that the traversal starts from. */
  function Seeds(states: States, rhs: Graph, only: Option<set<Bid>>): set<Bid> {
    set b | b in Endpoints(rhs.relations.Keys) && (if only.Some? then b in only.value else b in states)
  }

  /** Everything in `rhs` connected to a seed, following edges forwards or backwards. */
  ghost function Connected(rhs: Graph, seeds: set<Bid>): set<Bid> {
    set b | b in Endpoints(rhs.relations.Keys)
        && (Reaches(rhs.relations.Keys, seeds, b) || Reaches(Flip(rhs.relations.Keys), seeds, b))
  }

  /** One edge of the second pass: fill its endpoints, then keep it if both have states. */
  function EdgeStep(g: Graph, rhs: Graph, e: Edge): Graph
    requires e in rhs.relations
  {
    if e.0 == e.1 || (e.0 !in g.states && e.1 !in g.states) then g
    else
      var states := Fill(g.states, rhs.states, {e.0, e.1});
      if e.0 in states && e.1 in states
      then Graph(states, g.relations[e := rhs.relations[e]])
      else Graph(states, g.relations)
  }

  function EdgePass(g: Graph, rhs: Graph, order: seq<Edge>): Graph
    requires forall e | e in order :: e in rhs.relations
    decreases |order|
  {
    if order == [] then g
    else EdgePass(EdgeStep(g, rhs, order[0]), rhs, order[1..])
  }

  ghost predicate EdgeOrder(rhs: Graph, order: seq<Edge>) {
    Enumerates(order, rhs.relations.Keys)
  }

  /** The states once every connected node of `rhs` is in. */
  ghost function Reached(states: States, rhs: Graph, only: Option<set<Bid>>): States {
    Fill(states, rhs.states, Connected(rhs, Seeds(states, rhs, only)))
  }

  /** `add_relations_seeded`. */
  ghost function AddRelations(g: Graph, rhs: Graph, only: Option<set<Bid>>, order: seq<Edge>): Graph
    requires EdgeOrder(rhs, order)
  {
    EdgePass(Graph(Reached(g.states, rhs, only), g.relations), rhs, order)
  }

  // ------------------------------------------------------------------ the set operations

  /** `union_mut`: complete nodes of `rhs` win, then its relations are merged. */
  ghost predicate IsUnion(lhs: Graph, rhs: Graph, out: Graph) {
    exists order ::
      EdgeOrder(rhs, order) &&
      out == AddRelations(Graph(lhs.states + CompleteOf(rhs.states), lhs.relations), rhs, None, order)
  }

  /** `union_mut_from`: the traversal starts from the given ids only. */
  ghost predicate IsUnionFrom(lhs: Graph, rhs: Graph, seeds: set<Bid>, out: Graph) {
    exists order ::
      EdgeOrder(rhs, order) &&
      out == AddRelations(Graph(lhs.states + CompleteOf(rhs.states), lhs.relations), rhs, Some(seeds), order)
  }

  /** A Trace node never replaces a complete one. */
  function WithTrace(lhs: States, rhs: States): States {
    lhs + map b | b in rhs && !(b in lhs && !rhs[b].IsComplete() && lhs[b].IsComplete()) :: rhs[b]
  }

  /** `union_mut_with_trace`. */
  ghost predicate IsUnionWithTrace(lhs: Graph, rhs: Graph, out: Graph) {
    exists order ::
      EdgeOrder(rhs, order) &&
      out == AddRelations(Graph(WithTrace(lhs.states, rhs.states), lhs.relations), rhs, None, order)
  }

  function Both(lhs: States, rhs: States): States {
    map b | b in lhs && lhs[b].IsComplete() && b in rhs && rhs[b].IsComplete() :: lhs[b]
  }

  function OnlyLeft(lhs: States, rhs: States): States {
    map b | b in lhs && lhs[b].IsComplete() && !(b in rhs && rhs[b].IsComplete()) :: lhs[b]
  }

  /** The nodes of `kept` with the relations of both operands merged in. */
  ghost predicate IsSelection(kept: States, lhs: Graph, rhs: Graph, out: Graph) {
    exists first, second ::
      EdgeOrder(lhs, first) && EdgeOrder(rhs, second) &&
      out == AddRelations(AddRelations(Graph(kept, map[]), lhs, None, first), rhs, None, second)
  }

  ghost predicate IsIntersection(lhs: Graph, rhs: Graph, out: Graph) {
    IsSelection(Both(lhs.states, rhs.states), lhs, rhs, out)
  }

  ghost predicate IsDifference(lhs: Graph, rhs: Graph, out: Graph) {
    IsSelection(OnlyLeft(lhs.states, rhs.states), lhs, rhs, out)
  }

  ghost predicate IsSymmetricDifference(lhs: Graph, rhs: Graph, out: Graph) {
    exists a, b :: IsDifference(lhs, rhs, a) && IsDifference(rhs, lhs, b) && IsUnion(a, b, out)
  }

  // ------------------------------------------------------------------ what a merge adds

  /** States only grow, from `rhs`; every weight comes from one operand or the other. */
  ghost predicate GrowsFrom(g: Graph, rhs: Graph, out: Graph) {
    && g.states.Keys <= out.states.Keys <= g.states.Keys + rhs.states.Keys
    && (forall b | b in out.states :: out.states[b] == if b in g.states then g.states[b] else rhs.states[b])
    && g.relations.Keys <= out.relations.Keys <= g.relations.Keys + rhs.relations.Keys
    && (forall e | e in out.relations ::
          || (e in g.relations && out.relations[e] == g.relations[e])
          || (e in rhs.relations && out.relations[e] == rhs.relations[e] && e.0 in out.states && e.1 in out.states))
  }

  lemma GrowsTransitive(g: Graph, rhs: Graph, mid: Graph, out: Graph)
    requires GrowsFrom(g, rhs, mid) && GrowsFrom(mid, rhs, out)
    ensures GrowsFrom(g, rhs, out)
  {
  }

  lemma {:induction false} EdgePassGrows(g: Graph, rhs: Graph, order: seq<Edge>)
    requires forall e | e in order :: e in rhs.relations
    ensures GrowsFrom(g, rhs, EdgePass(g, rhs, order))
    decreases |order|
  {
    if order == [] {
    } else {
      var mid := EdgeStep(g, rhs, order[0]);
      assert GrowsFrom(g, rhs, mid);
      EdgePassGrows(mid, rhs, order[1..]);
      GrowsTransitive(g, rhs, mid, EdgePass(mid, rhs, order[1..]));
    }
  }

  /** An edge of the pass that touches a state, is no loop and can have both states is kept. */
  ghost predicate Kept(states: States, rhs: Graph, e: Edge) {
    && e.0 != e.1
    && (e.0 in states || e.1 in states)
    && e.0 in states.Keys + rhs.states.Keys
    && e.1 in states.Keys + rhs.states.Keys
  }

  lemma {:induction false} EdgePassKeeps(g: Graph, rhs: Graph, order: seq<Edge>, e: Edge)
    requires forall f | f in order :: f in rhs.relations
    requires Kept(g.states, rhs, e)
    requires e in order || (e in rhs.relations && e in g.relations && g.relations[e] == rhs.relations[e])
    ensures var out := EdgePass(g, rhs, order); e in out.relations && out.relations[e] == rhs.relations[e]
    decreases |order|
  {
    if order == [] {
    } else {
      assert order == [order[0]] + order[1..];
      EdgePassKeeps(EdgeStep(g, rhs, order[0]), rhs, order[1..], e);
    }
  }

  lemma {:induction false} EdgePassLeaves(g: Graph, rhs: Graph, order: seq<Edge>, e: Edge)
    requires forall f | f in order :: f in rhs.relations
    requires e !in order
    ensures var out := EdgePass(g, rhs, order);
            (e in out.relations <==> e in g.relations) && (e in g.relations ==> out.relations[e] == g.relations[e])
    decreases |order|
  {
    if order == [] {
    } else {
      EdgePassLeaves(EdgeStep(g, rhs, order[0]), rhs, order[1..], e);
    }
  }

  /**
   What a merge adds: every connected node of `rhs` that has a state, no state from outside
   both graphs, and no edge without both endpoints; existing states are left alone.
   */
  lemma MergeBounds(g: Graph, rhs: Graph, only: Option<set<Bid>>, order: seq<Edge>)
    requires EdgeOrder(rhs, order)
    ensures var out := AddRelations(g, rhs, only, order);
            && GrowsFrom(g, rhs, out)
            && (forall b | b in Connected(rhs, Seeds(g.states, rhs, only)) && b in rhs.states :: b in out.states)
            && (g.OrphanFree() ==> out.OrphanFree())
  {
    var reached := Graph(Reached(g.states, rhs, only), g.relations);
    EdgePassGrows(reached, rhs, order);
    assert GrowsFrom(g, rhs, reached);
    GrowsTransitive(g, rhs, reached, EdgePass(reached, rhs, order));
  }

  /**
   Which edges of `rhs` survive: one that lhs lacks is in the result for every storage order
   exactly if it is no loop, both endpoints have a state somewhere, and one of them is
   reached before the edge pass starts.
   */
  lemma EdgeAlwaysKeptIff(g: Graph, rhs: Graph, only: Option<set<Bid>>, e: Edge)
    requires e in rhs.relations && e !in g.relations
    ensures (forall order | EdgeOrder(rhs, order) :: e in AddRelations(g, rhs, only, order).relations)
            <==> Kept(Reached(g.states, rhs, only), rhs, e)
  {
    var states := Reached(g.states, rhs, only);
    if Kept(states, rhs, e) {
      forall order | EdgeOrder(rhs, order) ensures e in AddRelations(g, rhs, only, order).relations {
        EdgePassKeeps(Graph(states, g.relations), rhs, order, e);
      }
    } else {
      var order := OrderFrom(rhs, e);
      var start := Graph(states, g.relations);
      assert EdgeStep(start, rhs, e).relations == g.relations;
      EdgePassLeaves(EdgeStep(start, rhs, e), rhs, order[1..], e);
      assert e !in AddRelations(g, rhs, only, order).relations;
    }
  }

  /** A storage order that starts with a given edge. */
  lemma OrderFrom(rhs: Graph, e: Edge) returns (order: seq<Edge>)
    requires e in rhs.relations
    ensures EdgeOrder(rhs, order) && order != [] && order[0] == e && e !in order[1..]
  {
    var rest := OrderOf(rhs.relations.Keys - {e});
    order := [e] + rest;
    assert order[1..] == rest;
  }

  lemma OrderOf(edges: set<Edge>) returns (order: seq<Edge>)
    ensures Enumerates(order, edges)
  {
    if edges == {} {
      order := [];
    } else {
      var e :| e in edges;
      var rest := OrderOf(edges - {e});
      order := [e] + rest;
    }
  }

  // ------------------------------------------------------------------ what the comment on union promises

  /** The nodes of `lhs` come through a union unchanged. */
  ghost predicate LeftWins(lhs: Graph, out: Graph) {
    forall b | b in lhs.states :: b in out.states && out.states[b] == lhs.states[b]
  }

  /** They do exactly if every complete node of `rhs` that `lhs` has too is the same there. */
  lemma LeftWinsIff(lhs: Graph, rhs: Graph, out: Graph)
    requires IsUnion(lhs, rhs, out)
    ensures LeftWins(lhs, out) <==>
            forall b | b in lhs.states && b in rhs.states && rhs.states[b].IsComplete() ::
              rhs.states[b] == lhs.states[b]
  {
    var merged := Graph(lhs.states + CompleteOf(rhs.states), lhs.relations);
    var order :| EdgeOrder(rhs, order) && out == AddRelations(merged, rhs, None, order);
    MergeBounds(merged, rhs, None, order);
    hide AddRelations, Connected, EdgeOrder;
  }

  /** Two complete versions of one node: the right one comes out. */
  lemma RightNodeWins(a: BeliefNode, b: BeliefNode) returns (out: Graph)
    requires a.IsComplete() && b.IsComplete() && a != b && a.bid == b.bid
    ensures IsUnion(Graph(map[a.bid := a], map[]), Graph(map[a.bid := b], map[]), out)
    ensures !LeftWins(Graph(map[a.bid := a], map[]), out)
  {
    var lhs, rhs := Graph(map[a.bid := a], map[]), Graph(map[a.bid := b], map[]);
    out := UnionExists(lhs, rhs);
    LeftWinsIff(lhs, rhs, out);
    assert a.bid in lhs.states && a.bid in rhs.states;
  }

  lemma UnionExists(lhs: Graph, rhs: Graph) returns (out: Graph)
    ensures IsUnion(lhs, rhs, out)
  {
    var order := OrderOf(rhs.relations.Keys);
    out := AddRelations(Graph(lhs.states + CompleteOf(rhs.states), lhs.relations), rhs, None, order);
  }

  /** The result has the edge with the weights of `rhs`. */
  predicate Carries(out: Graph, rhs: Graph, e: Edge)
    requires e in rhs.relations
  {
    e in out.relations && out.relations[e] == rhs.relations[e]
  }

  /** A merge carries every edge of `rhs` over, for every storage order, exactly if each is kept or already there. */
  lemma AllEdgesCarriedIff(g: Graph, rhs: Graph, only: Option<set<Bid>>)
    ensures (forall order, e | EdgeOrder(rhs, order) && e in rhs.relations ::
               Carries(AddRelations(g, rhs, only, order), rhs, e))
            <==> forall e | e in rhs.relations :: Kept(Reached(g.states, rhs, only), rhs, e) || Carries(g, rhs, e)
  {
    hide Kept, AddRelations, Reached, Carries, EdgeOrder;
    var states := Reached(g.states, rhs, only);
    forall order, e | EdgeOrder(rhs, order) && e in rhs.relations && (Kept(states, rhs, e) || Carries(g, rhs, e))
      ensures Carries(AddRelations(g, rhs, only, order), rhs, e)
    {
      Carried(g, rhs, only, order, e);
    }
    forall e | e in rhs.relations && !Kept(states, rhs, e) && !Carries(g, rhs, e)
      ensures exists order :: EdgeOrder(rhs, order) && !Carries(AddRelations(g, rhs, only, order), rhs, e)
    {
      var order := OrderFrom(rhs, e);
      NotCarried(g, rhs, only, order, e);
    }
  }

  lemma Carried(g: Graph, rhs: Graph, only: Option<set<Bid>>, order: seq<Edge>, e: Edge)
    requires EdgeOrder(rhs, order) && e in rhs.relations
    requires Kept(Reached(g.states, rhs, only), rhs, e) || Carries(g, rhs, e)
    ensures Carries(AddRelations(g, rhs, only, order), rhs, e)
  {
    if Kept(Reached(g.states, rhs, only), rhs, e) {
      EdgePassKeeps(Graph(Reached(g.states, rhs, only), g.relations), rhs, order, e);
    } else {
      MergeBounds(g, rhs, only, order);
    }
  }

  lemma NotCarried(g: Graph, rhs: Graph, only: Option<set<Bid>>, order: seq<Edge>, e: Edge)
    requires EdgeOrder(rhs, order) && order != [] && order[0] == e && e !in order[1..] && e in rhs.relations
    requires !Kept(Reached(g.states, rhs, only), rhs, e) && !Carries(g, rhs, e)
    ensures !Carries(AddRelations(g, rhs, only, order), rhs, e)
  {
    var start := Graph(Reached(g.states, rhs, only), g.relations);
    assert EdgeStep(start, rhs, e).relations == g.relations;
    EdgePassLeaves(EdgeStep(start, rhs, e), rhs, order[1..], e);
  }

  lemma {:induction false} PassOverNothing(rhs: Graph, order: seq<Edge>)
    requires forall e | e in order :: e in rhs.relations
    ensures EdgePass(EMPTY, rhs, order) == EMPTY
    decreases |order|
  {
    if order == [] {
    } else {
      assert EdgeStep(EMPTY, rhs, order[0]) == EMPTY;
      PassOverNothing(rhs, order[1..]);
    }
  }

  /** Uniting nothing with a graph of Trace nodes gives nothing, whatever edges they have. */
  lemma TraceEdgesAreDropped(rhs: Graph) returns (out: Graph)
    requires forall b | b in rhs.states :: !rhs.states[b].IsComplete()
    ensures IsUnion(EMPTY, rhs, out) && out == EMPTY
  {
    out := UnionExists(EMPTY, rhs);
    var merged := Graph(EMPTY.states + CompleteOf(rhs.states), EMPTY.relations);
    assert merged == EMPTY;
    var order :| EdgeOrder(rhs, order) && out == AddRelations(merged, rhs, None, order);
    assert Seeds(map[], rhs, None) == {} && Connected(rhs, {}) == {};
    PassOverNothing(rhs, order);
  }

  // ------------------------------------------------------------------ the nodes of the set operations

  /** One edge of either graph joins the two nodes. */
  predicate Joined(lhs: Graph, rhs: Graph, a: Bid, b: Bid) {
    (a, b) in lhs.relations || (b, a) in lhs.relations || (a, b) in rhs.relations || (b, a) in rhs.relations
  }

  /** A chain of such edges leads from a node of `from` to `b`. */
  ghost predicate Chained(lhs: Graph, rhs: Graph, from: set<Bid>, b: Bid) {
    exists p: seq<Bid> :: IsJoinChain(lhs, rhs, from, p, b)
  }

  ghost predicate IsJoinChain(lhs: Graph, rhs: Graph, from: set<Bid>, p: seq<Bid>, b: Bid) {
    && |p| > 0 && p[0] in from && p[|p| - 1] == b
    && forall i | 0 <= i < |p| - 1 :: Joined(lhs, rhs, p[i], p[i + 1])
  }

  lemma ChainStart(lhs: Graph, rhs: Graph, from: set<Bid>, b: Bid)
    requires b in from
    ensures Chained(lhs, rhs, from, b)
  {
    assert IsJoinChain(lhs, rhs, from, [b], b);
  }

  lemma ChainOn(lhs: Graph, rhs: Graph, from: set<Bid>, a: Bid, b: Bid)
    requires Chained(lhs, rhs, from, a) && Joined(lhs, rhs, a, b)
    ensures Chained(lhs, rhs, from, b)
  {
    var p :| IsJoinChain(lhs, rhs, from, p, a);
    assert IsJoinChain(lhs, rhs, from, p + [b], b);
  }

  /** All states are chained to `from`. */
  ghost predicate AllChained(lhs: Graph, rhs: Graph, from: set<Bid>, states: States) {
    forall b | b in states :: Chained(lhs, rhs, from, b)
  }

  lemma {:induction false} PathChained(lhs: Graph, rhs: Graph, from: set<Bid>, edges: set<Edge>, p: seq<Bid>, n: Bid)
    requires forall e | e in edges :: Joined(lhs, rhs, e.0, e.1)
    requires |p| > 0 && Chained(lhs, rhs, from, p[0]) && p[|p| - 1] == n && IsPath(edges, p)
    ensures Chained(lhs, rhs, from, n)
    decreases |p|
  {
    hide Chained, Joined;
    if |p| == 1 {
    } else {
      var q := p[..|p| - 1];
      PathChained(lhs, rhs, from, edges, q, q[|q| - 1]);
      assert (p[|p| - 2], p[|p| - 2 + 1]) in edges;
      ChainOn(lhs, rhs, from, q[|q| - 1], n);
    }
  }

  /** The traversal stays on chains, whichever operand it runs over. */
  lemma ReachedChained(lhs: Graph, rhs: Graph, from: set<Bid>, states: States, over: Graph)
    requires over == lhs || over == rhs
    requires AllChained(lhs, rhs, from, states)
    ensures AllChained(lhs, rhs, from, Reached(states, over, None))
  {
    var edges, seeds := over.relations.Keys, Seeds(states, over, None);
    forall l | l in Flip(edges) ensures (l.1, l.0) in edges {
    }
    hide Chained;
    forall b | b in Connected(over, seeds) ensures Chained(lhs, rhs, from, b) {
      if p :| Connects(edges, p, seeds, b) {
        PathChained(lhs, rhs, from, edges, p, b);
      } else {
        var p :| Connects(Flip(edges), p, seeds, b);
        PathChained(lhs, rhs, from, Flip(edges), p, b);
      }
    }
  }

  lemma {:induction false} PassChained(lhs: Graph, rhs: Graph, from: set<Bid>, g: Graph, over: Graph, order: seq<Edge>)
    requires over == lhs || over == rhs
    requires AllChained(lhs, rhs, from, g.states) && forall e | e in order :: e in over.relations
    ensures AllChained(lhs, rhs, from, EdgePass(g, over, order).states)
    decreases |order|
  {
    if order == [] {
    } else {
      var e := order[0];
      StepChained(lhs, rhs, from, g, over, e);
      PassChained(lhs, rhs, from, EdgeStep(g, over, e), over, order[1..]);
    }
  }

  lemma StepChained(lhs: Graph, rhs: Graph, from: set<Bid>, g: Graph, over: Graph, e: Edge)
    requires over == lhs || over == rhs
    requires AllChained(lhs, rhs, from, g.states) && e in over.relations
    ensures AllChained(lhs, rhs, from, EdgeStep(g, over, e).states)
  {
    assert (e.0, e.1) == e && Joined(lhs, rhs, e.0, e.1) && Joined(lhs, rhs, e.1, e.0);
    hide Chained, Joined;
    if e.0 in g.states {
      ChainOn(lhs, rhs, from, e.0, e.1);
    }
    if e.1 in g.states {
      ChainOn(lhs, rhs, from, e.1, e.0);
    }
  }

  lemma MergeChained(lhs: Graph, rhs: Graph, from: set<Bid>, g: Graph, over: Graph, order: seq<Edge>)
    requires over == lhs || over == rhs
    requires AllChained(lhs, rhs, from, g.states) && EdgeOrder(over, order)
    ensures AllChained(lhs, rhs, from, AddRelations(g, over, None, order).states)
  {
    ReachedChained(lhs, rhs, from, g.states, over);
    hide AllChained, Reached;
    PassChained(lhs, rhs, from, Graph(Reached(g.states, over, None), g.relations), over, order);
  }

  /** A node a set operation keeps is in the result as it is; any other is chained to one, with an operand's value. */
  ghost predicate NodeAround(kept: States, lhs: Graph, rhs: Graph, out: Graph, b: Bid) {
    && (b in kept ==> b in out.states && out.states[b] == kept[b])
    && (b in out.states && b !in kept ==>
          && Chained(lhs, rhs, kept.Keys, b)
          && ((b in lhs.states && out.states[b] == lhs.states[b])
              || (b in rhs.states && out.states[b] == rhs.states[b])))
  }

  lemma GrownValue(g: Graph, rhs: Graph, out: Graph, b: Bid)
    requires GrowsFrom(g, rhs, out)
    ensures b in g.states ==> b in out.states && out.states[b] == g.states[b]
    ensures b in out.states && b !in g.states ==> b in rhs.states && out.states[b] == rhs.states[b]
  {
  }

  lemma KeptChained(lhs: Graph, rhs: Graph, kept: States)
    ensures AllChained(lhs, rhs, kept.Keys, kept)
  {
    forall b | b in kept ensures Chained(lhs, rhs, kept.Keys, b) {
      ChainStart(lhs, rhs, kept.Keys, b);
    }
  }

  lemma SelectionNode(kept: States, lhs: Graph, rhs: Graph, out: Graph, b: Bid)
    requires IsSelection(kept, lhs, rhs, out)
    ensures NodeAround(kept, lhs, rhs, out, b)
  {
    var first, second :| EdgeOrder(lhs, first) && EdgeOrder(rhs, second) &&
      out == AddRelations(AddRelations(Graph(kept, map[]), lhs, None, first), rhs, None, second);
    hide AddRelations, Chained, Connected, EdgeOrder, GrowsFrom;
    var mid := AddRelations(Graph(kept, map[]), lhs, None, first);
    MergeBounds(Graph(kept, map[]), lhs, None, first);
    MergeBounds(mid, rhs, None, second);
    GrownValue(Graph(kept, map[]), lhs, mid, b);
    GrownValue(mid, rhs, out, b);
    KeptChained(lhs, rhs, kept);
    MergeChained(lhs, rhs, kept.Keys, Graph(kept, map[]), lhs, first);
    MergeChained(lhs, rhs, kept.Keys, mid, rhs, second);
  }

  /** Without edges there are no chains. */
  lemma NoEdgesNoChains(lhs: Graph, rhs: Graph, from: set<Bid>, b: Bid)
    requires lhs.relations == map[] && rhs.relations == map[]
    ensures Chained(lhs, rhs, from, b) ==> b in from
  {
    if p :| IsJoinChain(lhs, rhs, from, p, b) {
      assert |p| > 1 ==> Joined(lhs, rhs, p[0], p[0 + 1]);
    }
  }

  /**
   Intersection: every node complete on both sides is in the result with the left value; any other node of the
   result is joined to such a node by a chain of edges of the operands.
   */
  lemma IntersectionNodes(lhs: Graph, rhs: Graph, out: Graph, b: Bid)
    requires IsIntersection(lhs, rhs, out)
    ensures var both := set n | n in lhs.states && n in rhs.states
                && Trace !in lhs.states[n].kind && Trace !in rhs.states[n].kind;
            && (b in both ==> b in out.states && out.states[b] == lhs.states[b])
            && (b in out.states && b !in both ==>
                  && Chained(lhs, rhs, both, b)
                  && ((b in lhs.states && out.states[b] == lhs.states[b])
                      || (b in rhs.states && out.states[b] == rhs.states[b])))
            && (lhs.relations == map[] == rhs.relations ==> (b in out.states <==> b in both))
  {
    var kept := Both(lhs.states, rhs.states);
    SelectionNode(kept, lhs, rhs, out, b);
    hide IsIntersection, IsSelection, Chained;
    var both := set n | n in lhs.states && n in rhs.states
      && Trace !in lhs.states[n].kind && Trace !in rhs.states[n].kind;
    assert kept.Keys == both;
    if lhs.relations == map[] == rhs.relations {
      NoEdgesNoChains(lhs, rhs, both, b);
    }
  }

  /** Difference: the same around the nodes complete on the left and not complete on the right. */
  lemma DifferenceNodes(lhs: Graph, rhs: Graph, out: Graph, b: Bid)
    requires IsDifference(lhs, rhs, out)
    ensures var left := set n | n in lhs.states && Trace !in lhs.states[n].kind
                && (n in rhs.states ==> Trace in rhs.states[n].kind);
            && (b in left ==> b in out.states && out.states[b] == lhs.states[b])
            && (b in out.states && b !in left ==>
                  && Chained(lhs, rhs, left, b)
                  && ((b in lhs.states && out.states[b] == lhs.states[b])
                      || (b in rhs.states && out.states[b] == rhs.states[b])))
            && (lhs.relations == map[] == rhs.relations ==> (b in out.states <==> b in left))
  {
    var kept := OnlyLeft(lhs.states, rhs.states);
    SelectionNode(kept, lhs, rhs, out, b);
    hide IsDifference, IsSelection, Chained;
    var left := set n | n in lhs.states && Trace !in lhs.states[n].kind
      && (n in rhs.states ==> Trace in rhs.states[n].kind);
    assert kept.Keys == left;
    if lhs.relations == map[] == rhs.relations {
      NoEdgesNoChains(lhs, rhs, left, b);
    }
  }

  /** Symmetric difference: every node complete on exactly one side is in the result with that side's value. */
  lemma SymmetricDifferenceNodes(lhs: Graph, rhs: Graph, out: Graph, b: Bid)
    requires IsSymmetricDifference(lhs, rhs, out)
    ensures b in lhs.states && Trace !in lhs.states[b].kind && (b in rhs.states ==> Trace in rhs.states[b].kind) ==>
              b in out.states && out.states[b] == lhs.states[b]
    ensures b in rhs.states && Trace !in rhs.states[b].kind && (b in lhs.states ==> Trace in lhs.states[b].kind) ==>
              b in out.states && out.states[b] == rhs.states[b]
    ensures lhs.relations == map[] == rhs.relations ==>
              (b in out.states <==>
                 (b in lhs.states && Trace !in lhs.states[b].kind) != (b in rhs.states && Trace !in rhs.states[b].kind))
  {
    var x, y :| IsDifference(lhs, rhs, x) && IsDifference(rhs, lhs, y) && IsUnion(x, y, out);
    DifferenceNodes(lhs, rhs, x, b);
    DifferenceNodes(rhs, lhs, y, b);
    UnionNodes(x, y, out, b);
    hide IsDifference, IsUnion, Chained;
  }

  /**
   Union: a complete right node is in the result as it is, else a left one is; any other node is one of the right
   graph, joined to those by a chain.
   */
  lemma UnionNodes(lhs: Graph, rhs: Graph, out: Graph, b: Bid)
    requires IsUnion(lhs, rhs, out)
    ensures b in rhs.states && Trace !in rhs.states[b].kind ==> b in out.states && out.states[b] == rhs.states[b]
    ensures b in lhs.states && (b in rhs.states ==> Trace in rhs.states[b].kind) ==>
              b in out.states && out.states[b] == lhs.states[b]
    ensures var first := lhs.states.Keys + (set n | n in rhs.states && Trace !in rhs.states[n].kind);
            b in out.states && b !in first ==>
              && b in rhs.states && out.states[b] == rhs.states[b] && Chained(lhs, rhs, first, b)
  {
    UnionGrows(lhs, rhs, out, b);
    hide IsUnion, Chained;
    var first := lhs.states.Keys + (set n | n in rhs.states && Trace !in rhs.states[n].kind);
    assert (lhs.states + CompleteOf(rhs.states)).Keys == first;
  }

  lemma UnionGrows(lhs: Graph, rhs: Graph, out: Graph, b: Bid)
    requires IsUnion(lhs, rhs, out)
    ensures var kept := lhs.states + CompleteOf(rhs.states);
            && (b in kept ==> b in out.states && out.states[b] == kept[b])
            && (b in out.states && b !in kept ==>
                  b in rhs.states && out.states[b] == rhs.states[b] && Chained(lhs, rhs, kept.Keys, b))
  {
    var kept := lhs.states + CompleteOf(rhs.states);
    var order :| EdgeOrder(rhs, order) && out == AddRelations(Graph(kept, lhs.relations), rhs, None, order);
    hide AddRelations, Chained, Connected, EdgeOrder, GrowsFrom, IsUnion;
    MergeBounds(Graph(kept, lhs.relations), rhs, None, order);
    GrownValue(Graph(kept, lhs.relations), rhs, out, b);
    KeptChained(lhs, rhs, kept);
    MergeChained(lhs, rhs, kept.Keys, Graph(kept, lhs.relations), rhs, order);
  }

  /** Union with Trace nodes: all nodes of both, the right one winning unless it is a Trace of a complete left one. */
  lemma UnionWithTraceNodes(lhs: Graph, rhs: Graph, out: Graph, b: Bid)
    requires IsUnionWithTrace(lhs, rhs, out)
    ensures b in out.states <==> b in lhs.states || b in rhs.states
    ensures b in lhs.states && b !in rhs.states ==> out.states[b] == lhs.states[b]
    ensures b in lhs.states && b in rhs.states ==>
              out.states[b] ==
              if Trace !in lhs.states[b].kind && Trace in rhs.states[b].kind then lhs.states[b] else rhs.states[b]
    ensures b in rhs.states && b !in lhs.states ==> out.states[b] == rhs.states[b]
  {
    var kept := WithTrace(lhs.states, rhs.states);
    var order :| EdgeOrder(rhs, order) && out == AddRelations(Graph(kept, lhs.relations), rhs, None, order);
    MergeBounds(Graph(kept, lhs.relations), rhs, None, order);
    hide AddRelations, Connected, EdgeOrder;
  }

  // ------------------------------------------------------------------ no orphaned edges

  /** Every kind of union leaves an orphan-free left operand free of orphans, whatever the right one holds. */
  lemma UnionOrphanFree(lhs: Graph, rhs: Graph, out: Graph)
    requires lhs.OrphanFree()
    requires IsUnion(lhs, rhs, out) || IsUnionWithTrace(lhs, rhs, out)
             || exists seeds :: IsUnionFrom(lhs, rhs, seeds, out)
    ensures out.OrphanFree()
  {
    var merged := Graph(lhs.states + CompleteOf(rhs.states), lhs.relations);
    if seeds :| IsUnionFrom(lhs, rhs, seeds, out) {
      var order :| EdgeOrder(rhs, order) && out == AddRelations(merged, rhs, Some(seeds), order);
      MergeBounds(merged, rhs, Some(seeds), order);
      return;
    }
    if IsUnion(lhs, rhs, out) {
      var order :| EdgeOrder(rhs, order) &&
        out == AddRelations(merged, rhs, None, order);
      MergeBounds(merged, rhs, None, order);
    } else {
      var order :| EdgeOrder(rhs, order) &&
        out == AddRelations(Graph(WithTrace(lhs.states, rhs.states), lhs.relations), rhs, None, order);
      MergeBounds(Graph(WithTrace(lhs.states, rhs.states), lhs.relations), rhs, None, order);
    }
  }

  lemma SelectionOrphanFree(kept: States, lhs: Graph, rhs: Graph, out: Graph)
    requires IsSelection(kept, lhs, rhs, out)
    ensures out.OrphanFree()
  {
    var first, second :| EdgeOrder(lhs, first) && EdgeOrder(rhs, second) &&
      out == AddRelations(AddRelations(Graph(kept, map[]), lhs, None, first), rhs, None, second);
    MergeBounds(Graph(kept, map[]), lhs, None, first);
    MergeBounds(AddRelations(Graph(kept, map[]), lhs, None, first), rhs, None, second);
  }

  /** Intersection, difference and symmetric difference never leave an orphan, whatever they are given. */
  lemma SetOperationsOrphanFree(lhs: Graph, rhs: Graph, out: Graph)
    requires IsIntersection(lhs, rhs, out) || IsDifference(lhs, rhs, out) || IsSymmetricDifference(lhs, rhs, out)
    ensures out.OrphanFree()
  {
    if IsIntersection(lhs, rhs, out) {
      SelectionOrphanFree(Both(lhs.states, rhs.states), lhs, rhs, out);
    } else if IsDifference(lhs, rhs, out) {
      SelectionOrphanFree(OnlyLeft(lhs.states, rhs.states), lhs, rhs, out);
    } else {
      var a, b :| IsDifference(lhs, rhs, a) && IsDifference(rhs, lhs, b) && IsUnion(a, b, out);
      SelectionOrphanFree(OnlyLeft(lhs.states, rhs.states), lhs, rhs, a);
      UnionOrphanFree(a, b, out);
    }
  }

  // ------------------------------------------------------------------ union as map override

  function Override(lhs: Graph, rhs: Graph): Graph {
    Graph(lhs.states + rhs.states, lhs.relations + rhs.relations)
  }

  /** A graph whose nodes are all complete and whose edges are all between them. */
  ghost predicate Closed(g: Graph) {
    g.Complete() && g.OrphanFree() && g.LoopFree()
  }

  lemma MergeWritesAll(g: Graph, rhs: Graph, order: seq<Edge>)
    requires EdgeOrder(rhs, order) && rhs.OrphanFree() && rhs.LoopFree() && rhs.states.Keys <= g.states.Keys
    ensures var out := AddRelations(g, rhs, None, order);
            forall e | e in rhs.relations :: e in out.relations && out.relations[e] == rhs.relations[e]
  {
    hide Connected;
    assert Reached(g.states, rhs, None) == g.states;
    forall e | e in rhs.relations
      ensures var out := EdgePass(g, rhs, order); e in out.relations && out.relations[e] == rhs.relations[e]
    {
      EdgePassKeeps(g, rhs, order, e);
    }
  }

  lemma MergeKeepsAll(g: Graph, rhs: Graph, order: seq<Edge>)
    requires EdgeOrder(rhs, order) && rhs.OrphanFree() && rhs.LoopFree() && rhs.states.Keys <= g.states.Keys
    ensures AddRelations(g, rhs, None, order) == Graph(g.states, g.relations + rhs.relations)
  {
    MergeBounds(g, rhs, None, order);
    MergeWritesAll(g, rhs, order);
    hide AddRelations, EdgeOrder, Connected, Seeds;
    var out := AddRelations(g, rhs, None, order);
    GrownStates(g, rhs, out);
    assert out.relations == g.relations + rhs.relations;
  }

  lemma GrownStates(g: Graph, rhs: Graph, out: Graph)
    requires GrowsFrom(g, rhs, out) && rhs.states.Keys <= g.states.Keys
    ensures out.states == g.states
  {
    assert out.states.Keys == g.states.Keys;
  }

  /** Union with a closed graph is exactly map override: rhs wins, nothing else changes. */
  lemma UnionIsOverride(lhs: Graph, rhs: Graph, out: Graph)
    requires Closed(rhs) && IsUnion(lhs, rhs, out)
    ensures out == Override(lhs, rhs)
  {
    assert CompleteOf(rhs.states) == rhs.states;
    var merged := Graph(lhs.states + rhs.states, lhs.relations);
    var order :| EdgeOrder(rhs, order) && out == AddRelations(merged, rhs, None, order);
    hide AddRelations, EdgeOrder;
    MergeKeepsAll(merged, rhs, order);
  }

  lemma OverrideAssociative(base: Graph, a: Graph, b: Graph)
    ensures Override(Override(base, a), b) == Override(base, Override(a, b))
  {
    assert (base.states + a.states) + b.states == base.states + (a.states + b.states);
    assert (base.relations + a.relations) + b.relations == base.relations + (a.relations + b.relations);
  }

  lemma OverrideIdempotent(a: Graph)
    ensures Override(a, a) == a
  {
    assert a.states + a.states == a.states && a.relations + a.relations == a.relations;
  }

  lemma MapsCommuteIff<K, V>(base: map<K, V>, a: map<K, V>, b: map<K, V>)
    ensures base + a + b == base + b + a <==> forall k | k in a && k in b :: a[k] == b[k]
  {
    if k :| k in a && k in b && a[k] != b[k] {
      assert (base + a + b)[k] != (base + b + a)[k];
    } else {
      assert base + a + b == base + b + a;
    }
  }

  lemma OverrideClosed(a: Graph, b: Graph)
    requires Closed(a) && Closed(b)
    ensures Closed(Override(a, b))
  {
  }

  /** Operands that agree wherever they overlap. */
  ghost predicate Agree(a: Graph, b: Graph) {
    && (forall n | n in a.states && n in b.states :: a.states[n] == b.states[n])
    && (forall e | e in a.relations && e in b.relations :: a.relations[e] == b.relations[e])
  }

  /** Merging closed graphs is idempotent, and associative for any base. */
  lemma UnionLaws(base: Graph, a: Graph, b: Graph, aa: Graph, baseA: Graph, left: Graph, ab: Graph, right: Graph)
    requires Closed(a) && Closed(b)
    requires IsUnion(a, a, aa)
    requires IsUnion(base, a, baseA) && IsUnion(baseA, b, left)
    requires IsUnion(a, b, ab) && IsUnion(base, ab, right)
    ensures aa == a
    ensures left == right
  {
    UnionIsOverride(a, a, aa);
    UnionIsOverride(base, a, baseA);
    UnionIsOverride(baseA, b, left);
    UnionIsOverride(a, b, ab);
    OverrideClosed(a, b);
    UnionIsOverride(base, ab, right);
    hide IsUnion, Closed, Override;
    OverrideIdempotent(a);
    OverrideAssociative(base, a, b);
  }

  /** Two closed graphs merge into any base in either order alike exactly if they agree where they overlap. */
  lemma UnionCommutesIff(base: Graph, a: Graph, b: Graph, baseA: Graph, ab: Graph, baseB: Graph, ba: Graph)
    requires Closed(a) && Closed(b)
    requires IsUnion(base, a, baseA) && IsUnion(baseA, b, ab)
    requires IsUnion(base, b, baseB) && IsUnion(baseB, a, ba)
    ensures ab == ba <==> Agree(a, b)
  {
    UnionIsOverride(base, a, baseA);
    UnionIsOverride(baseA, b, ab);
    UnionIsOverride(base, b, baseB);
    UnionIsOverride(baseB, a, ba);
    hide IsUnion, Closed, Override, Agree;
    OverrideCommutesIff(base, a, b);
  }

  lemma OverrideCommutesIff(base: Graph, a: Graph, b: Graph)
    ensures Override(Override(base, a), b) == Override(Override(base, b), a) <==> Agree(a, b)
  {
    MapsCommuteIff(base.states, a.states, b.states);
    MapsCommuteIff(base.relations, a.relations, b.relations);
  }
}
