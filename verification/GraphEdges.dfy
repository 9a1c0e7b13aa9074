/**
 Which edges come through the graph algebra and which nodes it pulls in along them, written out on nodes, edges and
 weights for a merge of relations, a union, an intersection and a difference.
 */
module GraphEdges {
  import opened Properties
  import opened Reachability
  import opened BeliefGraphs

  /** Every step follows an edge forwards, or every step one backwards. */
  ghost predicate Along(rel: Relations, p: seq<Bid>) {
    && p != []
    && ((forall i | 0 <= i < |p| - 1 :: (p[i], p[i + 1]) in rel)
        || (forall i | 0 <= i < |p| - 1 :: (p[i + 1], p[i]) in rel))
  }

  /** The edge is the same in both, or in neither. */
  ghost predicate SameEdge(a: Relations, b: Relations, e: Edge) {
    (e in a <==> e in b) && (e in a && e in b ==> a[e] == b[e])
  }

  ghost predicate HasEdge(rel: Relations, e: Edge, ws: WeightSet) {
    e in rel && rel[e] == ws
  }

  // ------------------------------------------------------------------ one merge

  /** An edge of `over` that is no loop, with one end among `from` and a state for each end. */
  predicate Fits(from: set<Bid>, over: Graph, e: Edge) {
    && e in over.relations && e.0 != e.1 && (e.0 in from || e.1 in from)
    && (e.0 in from || e.0 in over.states) && (e.1 in from || e.1 in over.states)
  }

  /** The path starts where the traversal does: at a given id it steps on from, or else at any node there is. */
  ghost predicate Starts(states: States, over: Graph, only: Option<set<Bid>>, p: seq<Bid>) {
    && Along(over.relations, p) && p[|p| - 1] in over.states
    && if only.Some? then |p| > 1 && p[0] in only.value else p[0] in states
  }

  lemma ReachedAlong(states: States, over: Graph, only: Option<set<Bid>>, p: seq<Bid>)
    requires Starts(states, over, only, p)
    ensures p[|p| - 1] in Reached(states, over, only)
  {
    var edges, n := over.relations.Keys, |p| - 1;
    if n > 0 {
      var seeds := Seeds(states, over, only);
      EndsOnEdges(over.relations, p);
      if forall i | 0 <= i < n :: (p[i], p[i + 1]) in over.relations {
        assert Connects(edges, p, seeds, p[n]);
      } else {
        forall i | 0 <= i < n ensures (p[i], p[i + 1]) in Flip(edges) {
          assert (p[i + 1], p[i]) in edges;
        }
        assert Connects(Flip(edges), p, seeds, p[n]);
      }
    }
  }

  lemma EndsOnEdges(rel: Relations, p: seq<Bid>)
    requires Along(rel, p) && |p| > 1
    ensures p[0] in Endpoints(rel.Keys) && p[|p| - 1] in Endpoints(rel.Keys)
  {
    var n := |p| - 1;
    assert (p[0], p[0 + 1]) in rel || (p[0 + 1], p[0]) in rel;
    assert (p[n - 1], p[n - 1 + 1]) in rel || (p[n - 1 + 1], p[n - 1]) in rel;
    OnEdge(rel, p[0], p[1]);
    OnEdge(rel, p[n - 1], p[n]);
  }

  lemma OnEdge(rel: Relations, a: Bid, b: Bid)
    requires (a, b) in rel || (b, a) in rel
    ensures a in Endpoints(rel.Keys) && b in Endpoints(rel.Keys)
  {
    var e := if (a, b) in rel then (a, b) else (b, a);
    assert e in rel.Keys;
  }

  /** A loop, or an edge with an end that has a state nowhere, is not touched by the pass. */
  lemma {:induction false} PassSkips(g: Graph, over: Graph, order: seq<Edge>, e: Edge)
    requires forall f | f in order :: f in over.relations
    requires e.0 == e.1 || e.0 !in g.states.Keys + over.states.Keys || e.1 !in g.states.Keys + over.states.Keys
    ensures SameEdge(EdgePass(g, over, order).relations, g.relations, e)
    decreases |order|
  {
    if order == [] {
    } else {
      PassSkips(EdgeStep(g, over, order[0]), over, order[1..], e);
    }
  }

  /** What a merge of the relations of `over` does to one edge and one node. */
  ghost predicate Merged(g: Graph, over: Graph, only: Option<set<Bid>>, out: Graph, e: Edge, p: seq<Bid>) {
    && (Fits(g.states.Keys, over, e) ==> HasEdge(out.relations, e, over.relations[e]))
    && (e !in over.relations || e.0 == e.1 ==> SameEdge(out.relations, g.relations, e))
    && (e in out.relations && !SameEdge(out.relations, g.relations, e) ==>
          e in over.relations && HasEdge(out.relations, e, over.relations[e]) && e.0 in out.states && e.1 in out.states)
    && (e in g.relations ==> e in out.relations)
    && (Starts(g.states, over, only, p) ==> p[|p| - 1] in out.states)
  }

  lemma MergeIs(g: Graph, over: Graph, only: Option<set<Bid>>, order: seq<Edge>, e: Edge, p: seq<Bid>)
    requires EdgeOrder(over, order)
    ensures Merged(g, over, only, AddRelations(g, over, only, order), e, p)
  {
    var start := Graph(Reached(g.states, over, only), g.relations);
    if Starts(g.states, over, only, p) {
      ReachedAlong(g.states, over, only, p);
    }
    EdgePassGrows(start, over, order);
    StartKeeps(g, over, only);
    hide Reached, Starts, EdgeStep, EdgePass;
    PassIs(start, over, order, e);
  }

  lemma PassIs(start: Graph, over: Graph, order: seq<Edge>, e: Edge)
    requires EdgeOrder(over, order)
    ensures var out := EdgePass(start, over, order);
            && (Fits(start.states.Keys, over, e) ==> HasEdge(out.relations, e, over.relations[e]))
            && (e !in over.relations || e.0 == e.1 ==> SameEdge(out.relations, start.relations, e))
  {
    hide EdgeStep, EdgePass;
    if Fits(start.states.Keys, over, e) {
      EdgePassKeeps(start, over, order, e);
    }
    if e !in over.relations {
      EdgePassLeaves(start, over, order, e);
    } else if e.0 == e.1 {
      PassSkips(start, over, order, e);
    }
  }

  lemma StartKeeps(g: Graph, over: Graph, only: Option<set<Bid>>)
    ensures g.states.Keys <= Reached(g.states, over, only).Keys
  {
  }

  // ------------------------------------------------------------------ union

  /** The nodes a union has from the start: those of the left graph and the complete ones of the right. */
  function First(lhs: Graph, rhs: Graph): (from: set<Bid>)
    ensures forall n :: n in from <==> n in lhs.states || (n in rhs.states && Trace !in rhs.states[n].kind)
  {
    lhs.states.Keys + set n | n in rhs.states && Trace !in rhs.states[n].kind
  }

  /**
   What a union that starts with the nodes `from` makes of one edge: a right edge that is no loop, touches such a node
   and has a state for each end is in the result with the right weights; an edge of the left graph alone is unchanged;
   nothing else appears.
   */
  ghost predicate EdgeUnited(from: set<Bid>, lhs: Graph, rhs: Graph, out: Graph, e: Edge) {
    && (Fits(from, rhs, e) ==> HasEdge(out.relations, e, rhs.relations[e]))
    && (e !in rhs.relations || e.0 == e.1 ==> SameEdge(out.relations, lhs.relations, e))
    && (e in out.relations ==>
          || (e in lhs.relations && HasEdge(out.relations, e, lhs.relations[e]))
          || (&& e in rhs.relations && HasEdge(out.relations, e, rhs.relations[e])
              && e.0 in out.states && e.1 in out.states))
    && (e in lhs.relations ==> e in out.relations)
  }

  /**
   Union: a right node to which right edges lead from a node it starts with, all forwards or all backwards, is in the
   result too.
   */
  lemma UnionEdges(lhs: Graph, rhs: Graph, out: Graph, e: Edge, p: seq<Bid>)
    requires IsUnion(lhs, rhs, out)
    ensures EdgeUnited(First(lhs, rhs), lhs, rhs, out, e)
    ensures Along(rhs.relations, p) && p[0] in First(lhs, rhs) && p[|p| - 1] in rhs.states ==> p[|p| - 1] in out.states
  {
    var kept := lhs.states + CompleteOf(rhs.states);
    var order :| EdgeOrder(rhs, order) && out == AddRelations(Graph(kept, lhs.relations), rhs, None, order);
    MergeIs(Graph(kept, lhs.relations), rhs, None, order, e, p);
    assert kept.Keys == First(lhs, rhs);
    hide AddRelations, EdgeOrder, Along, Fits, IsUnion;
  }

  /** From given ids: the same edges, and the nodes are drawn in from those ids. */
  lemma UnionFromEdges(lhs: Graph, rhs: Graph, seeds: set<Bid>, out: Graph, e: Edge, p: seq<Bid>)
    requires IsUnionFrom(lhs, rhs, seeds, out)
    ensures EdgeUnited(First(lhs, rhs), lhs, rhs, out, e)
    ensures |p| > 1 && Along(rhs.relations, p) && p[0] in seeds && p[|p| - 1] in rhs.states ==> p[|p| - 1] in out.states
  {
    var kept := lhs.states + CompleteOf(rhs.states);
    var order :| EdgeOrder(rhs, order) && out == AddRelations(Graph(kept, lhs.relations), rhs, Some(seeds), order);
    MergeIs(Graph(kept, lhs.relations), rhs, Some(seeds), order, e, p);
    assert kept.Keys == First(lhs, rhs);
    hide AddRelations, EdgeOrder, Along, Fits, IsUnionFrom;
  }

  /** With Trace nodes: it starts with every node of both. */
  lemma UnionWithTraceEdges(lhs: Graph, rhs: Graph, out: Graph, e: Edge)
    requires IsUnionWithTrace(lhs, rhs, out)
    ensures EdgeUnited(lhs.states.Keys + rhs.states.Keys, lhs, rhs, out, e)
  {
    var kept := WithTrace(lhs.states, rhs.states);
    var order :| EdgeOrder(rhs, order) && out == AddRelations(Graph(kept, lhs.relations), rhs, None, order);
    MergeIs(Graph(kept, lhs.relations), rhs, None, order, e, []);
    assert kept.Keys == lhs.states.Keys + rhs.states.Keys;
    hide AddRelations, EdgeOrder, Fits, IsUnionWithTrace;
  }

  // ------------------------------------------------------------------ intersection and difference

  /**
   What a set operation makes of one edge and one path: edges of either operand around the kept nodes come through,
   those of both with the right weights, and nothing else does; nodes to which edges of one operand lead from a kept
   node, all forwards or all backwards, come too.
   */
  ghost predicate Around(kept: set<Bid>, lhs: Graph, rhs: Graph, out: Graph, e: Edge, p: seq<Bid>) {
    && (Fits(kept, rhs, e) ==> HasEdge(out.relations, e, rhs.relations[e]))
    && (Fits(kept, lhs, e) ==> e in out.relations)
    && (Fits(kept, lhs, e) && e !in rhs.relations ==> HasEdge(out.relations, e, lhs.relations[e]))
    && (e in out.relations ==>
          && e.0 != e.1
          && ((e in lhs.relations && HasEdge(out.relations, e, lhs.relations[e]))
              || (e in rhs.relations && HasEdge(out.relations, e, rhs.relations[e]))))
    && (p != [] && p[0] in kept && p[|p| - 1] in lhs.states && Along(lhs.relations, p) ==> p[|p| - 1] in out.states)
    && (p != [] && p[0] in kept && p[|p| - 1] in rhs.states && Along(rhs.relations, p) ==> p[|p| - 1] in out.states)
  }

  lemma SelectionIs(kept: States, lhs: Graph, rhs: Graph, out: Graph, e: Edge, p: seq<Bid>)
    requires IsSelection(kept, lhs, rhs, out)
    ensures Around(kept.Keys, lhs, rhs, out, e, p)
  {
    var first, second :| EdgeOrder(lhs, first) && EdgeOrder(rhs, second) &&
      out == AddRelations(AddRelations(Graph(kept, map[]), lhs, None, first), rhs, None, second);
    var mid := AddRelations(Graph(kept, map[]), lhs, None, first);
    MergeIs(Graph(kept, map[]), lhs, None, first, e, p);
    MergeIs(mid, rhs, None, second, e, p);
    MergeBounds(Graph(kept, map[]), lhs, None, first);
    MergeBounds(mid, rhs, None, second);
    hide AddRelations, EdgeOrder, Along, Connected, IsSelection;
    MergedTwice(kept, lhs, rhs, mid, out, e, p);
  }

  lemma MergedTwice(kept: States, lhs: Graph, rhs: Graph, mid: Graph, out: Graph, e: Edge, p: seq<Bid>)
    requires Merged(Graph(kept, map[]), lhs, None, mid, e, p) && Merged(mid, rhs, None, out, e, p)
    requires kept.Keys <= mid.states.Keys <= out.states.Keys
    ensures Around(kept.Keys, lhs, rhs, out, e, p)
  {
    hide Along;
  }

  /** Complete on both sides. */
  function Common(lhs: Graph, rhs: Graph): (kept: set<Bid>)
    ensures forall n :: n in kept <==>
              n in lhs.states && n in rhs.states && Trace !in lhs.states[n].kind && Trace !in rhs.states[n].kind
  {
    set n | n in lhs.states && n in rhs.states && Trace !in lhs.states[n].kind && Trace !in rhs.states[n].kind
  }

  /** Complete on the left and not on the right. */
  function LeftAlone(lhs: Graph, rhs: Graph): (kept: set<Bid>)
    ensures forall n :: n in kept <==>
              n in lhs.states && Trace !in lhs.states[n].kind && (n in rhs.states ==> Trace in rhs.states[n].kind)
  {
    set n | n in lhs.states && Trace !in lhs.states[n].kind && (n in rhs.states ==> Trace in rhs.states[n].kind)
  }

  lemma IntersectionEdges(lhs: Graph, rhs: Graph, out: Graph, e: Edge, p: seq<Bid>)
    requires IsIntersection(lhs, rhs, out)
    ensures Around(Common(lhs, rhs), lhs, rhs, out, e, p)
  {
    hide Around, IsSelection;
    SelectionIs(Both(lhs.states, rhs.states), lhs, rhs, out, e, p);
    assert Both(lhs.states, rhs.states).Keys == Common(lhs, rhs);
  }

  lemma DifferenceEdges(lhs: Graph, rhs: Graph, out: Graph, e: Edge, p: seq<Bid>)
    requires IsDifference(lhs, rhs, out)
    ensures Around(LeftAlone(lhs, rhs), lhs, rhs, out, e, p)
  {
    hide Around, IsSelection;
    SelectionIs(OnlyLeft(lhs.states, rhs.states), lhs, rhs, out, e, p);
    assert OnlyLeft(lhs.states, rhs.states).Keys == LeftAlone(lhs, rhs);
  }

  /**
   Symmetric difference: edges of either graph around a node complete on one side only come through, and where a node
   is complete on the right only, with the left weights.
   */
  lemma SymmetricDifferenceEdges(lhs: Graph, rhs: Graph, out: Graph, e: Edge)
    requires IsSymmetricDifference(lhs, rhs, out)
    ensures Fits(LeftAlone(lhs, rhs), lhs, e) ==> e in out.relations
    ensures Fits(LeftAlone(lhs, rhs), rhs, e) ==> e in out.relations
    ensures Fits(LeftAlone(rhs, lhs), rhs, e) ==> e in out.relations
    ensures Fits(LeftAlone(rhs, lhs), lhs, e) ==> HasEdge(out.relations, e, lhs.relations[e])
    ensures e in out.relations ==> e.0 != e.1 && FromEither(lhs, rhs, out, e)
  {
    var x, y :| IsDifference(lhs, rhs, x) && IsDifference(rhs, lhs, y) && IsUnion(x, y, out);
    hide IsDifference, IsUnion, IsSymmetricDifference, Around, EdgeUnited, Along, Fits, First, LeftAlone;
    DifferenceEdges(lhs, rhs, x, e, []);
    DifferenceEdges(rhs, lhs, y, e, []);
    UnionEdges(x, y, out, e, []);
    if e in y.relations && e.0 != e.1 && (e.0 in LeftAlone(rhs, lhs) || e.1 in LeftAlone(rhs, lhs)) {
      SecondFits(lhs, rhs, x, y, e);
    }
    DifferencesUnited(LeftAlone(lhs, rhs), LeftAlone(rhs, lhs), lhs, rhs, x, y, out, e);
  }

  ghost predicate FromEither(lhs: Graph, rhs: Graph, out: Graph, e: Edge) {
    || (e in lhs.relations && HasEdge(out.relations, e, lhs.relations[e]))
    || (e in rhs.relations && HasEdge(out.relations, e, rhs.relations[e]))
  }

  lemma DifferencesUnited(left: set<Bid>, right: set<Bid>, lhs: Graph, rhs: Graph, x: Graph, y: Graph, out: Graph,
      e: Edge)
    requires Around(left, lhs, rhs, x, e, []) && Around(right, rhs, lhs, y, e, [])
    requires EdgeUnited(First(x, y), x, y, out, e)
    requires e in y.relations && e.0 != e.1 && (e.0 in right || e.1 in right) ==> Fits(First(x, y), y, e)
    ensures Fits(left, lhs, e) ==> e in out.relations
    ensures Fits(left, rhs, e) ==> e in out.relations
    ensures Fits(right, rhs, e) ==> e in out.relations
    ensures Fits(right, lhs, e) ==> HasEdge(out.relations, e, lhs.relations[e])
    ensures e in out.relations ==> e.0 != e.1 && FromEither(lhs, rhs, out, e)
  {
    hide First;
  }

  lemma SecondFits(lhs: Graph, rhs: Graph, x: Graph, y: Graph, e: Edge)
    requires IsDifference(rhs, lhs, y) && e in y.relations && e.0 != e.1
    requires e.0 in LeftAlone(rhs, lhs) || e.1 in LeftAlone(rhs, lhs)
    ensures Fits(First(x, y), y, e)
  {
    SetOperationsOrphanFree(rhs, lhs, y);
    DifferenceNodes(rhs, lhs, y, e.0);
    DifferenceNodes(rhs, lhs, y, e.1);
    hide IsDifference, Chained;
  }
}
