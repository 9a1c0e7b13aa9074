/**
 What a query (src/query.rs) answers, in terms of the store's states and edges alone: which nodes and edges are in
 the result, and what the nodes look like there.
 */
module Answers {
  import opened Properties
  import opened Reachability
  import opened BeliefGraphs
  import opened Expressions

  /** The predicate picks the store's node `b`; lists of ids and paths pick the same when inverted. */
  predicate Picked(base: Graph, env: Lookups, pred: StatePred, invert: bool, b: Bid) {
    b in base.states &&
    match pred
    case AnyState => !invert
    case BidIn(bids) => b in bids
    case SchemaIs(schema) => (base.states[b].schema == Some(schema)) != invert
    case KindWithin(kinds) => (forall kind: BeliefKind :: kind in base.states[b].kind ==> kind in kinds) != invert
    case PathLookup(key) => b in env.resolve(key)
    case NodeMatch(key) => env.matches(key, base.states[b]) != invert
  }

  /** The predicate takes the edge. */
  predicate Taken(base: Graph, pred: RelationPred, invert: bool, e: Edge) {
    e in base.relations &&
    match pred
    case AnyRelation => !invert
    case SinkIn(bids) => (e.1 in bids) != invert
    case SourceIn(bids) => (e.0 in bids) != invert
    case NodeIn(bids) => (e.0 in bids || e.1 in bids) != invert
    case KindIn(kinds) => (exists k: WeightKind :: k in base.relations[e] && k in kinds) != invert
  }

  function Coloured(node: BeliefNode): BeliefNode {
    BeliefNode(node.bid, node.kind + {Trace}, node.title, node.schema, node.id)
  }

  lemma PickedAre(base: Graph, env: Lookups, pred: StatePred, invert: bool, b: Bid)
    ensures b in FilterStates(base, env, pred, invert) <==> Picked(base, env, pred, invert, b)
    ensures b in FilterStates(base, env, pred, invert) ==>
              b in base.states && FilterStates(base, env, pred, invert)[b] == base.states[b]
  {
    if b in base.states && pred.KindWithin? {
      var node := base.states[b];
      assert pred.kinds >= node.kind <==> forall kind: BeliefKind :: kind in node.kind ==> kind in pred.kinds;
    }
  }

  lemma SharedKind(ws: WeightSet, kinds: set<WeightKind>)
    ensures ws.Keys * kinds != {} <==> exists k: WeightKind :: k in ws && k in kinds
  {
    if k :| k in ws && k in kinds {
      assert k in ws.Keys * kinds;
    }
  }

  lemma EndpointIs(edges: set<Edge>, b: Bid)
    ensures b in Endpoints(edges) <==> exists e :: e in edges && (e.0 == b || e.1 == b)
  {
    if e :| e in edges && (e.0 == b || e.1 == b) {
      assert e.0 == b ==> b in (set f | f in edges :: f.0);
      assert e.1 == b ==> b in (set f | f in edges :: f.1);
    }
  }

  lemma FilledNode(states: States, from: States, bids: set<Bid>, b: Bid)
    ensures b in FillTrace(states, from, bids) <==> b in states || (b in bids && b in from)
    ensures b in states ==> FillTrace(states, from, bids)[b] == states[b]
    ensures b in FillTrace(states, from, bids) && b !in states ==> FillTrace(states, from, bids)[b] == Coloured(from[b])
  {
  }

  /**
   A query for states gives the picked nodes as they are, every edge touching one, and the other ends of those
   edges as Trace.
   */
  lemma StateAnswer(base: Graph, env: Lookups, pred: StatePred, invert: bool, out: Graph, b: Bid, e: Edge)
    requires Evaluates(base, env, Full, if invert then StateNotIn(pred) else StateIn(pred), out)
    ensures e in out.relations <==>
            e in base.relations && (Picked(base, env, pred, invert, e.0) || Picked(base, env, pred, invert, e.1))
    ensures e in out.relations ==> out.relations[e] == base.relations[e]
    ensures b in out.states <==>
            || Picked(base, env, pred, invert, b)
            || (b in base.states && exists f :: f in out.relations && (f.0 == b || f.1 == b))
    ensures b in out.states ==>
              b in base.states
              && out.states[b]
                 == if Picked(base, env, pred, invert, b) then base.states[b] else Coloured(base.states[b])
  {
    var selected := FilterStates(base, env, pred, invert);
    PickedAre(base, env, pred, invert, b);
    PickedAre(base, env, pred, invert, e.0);
    PickedAre(base, env, pred, invert, e.1);
    EndpointIs(out.relations.Keys, b);
    FilledNode(selected, base.states, Endpoints(out.relations.Keys), b);
    hide FilterStates, Picked, Endpoints, FillTrace;
  }

  /** As a trace: the picked nodes and the sinks of their edges of the kinds, all as Trace, and those edges. */
  lemma TraceAnswer(base: Graph, env: Lookups, kinds: set<WeightKind>, pred: StatePred, invert: bool, out: Graph,
      b: Bid, e: Edge)
    requires Evaluates(base, env, AsTrace(kinds), if invert then StateNotIn(pred) else StateIn(pred), out)
    ensures e in out.relations <==>
            && e in base.relations && Picked(base, env, pred, invert, e.0)
            && exists k: WeightKind :: k in base.relations[e] && k in kinds
    ensures e in out.relations ==> out.relations[e] == base.relations[e]
    ensures b in out.states <==>
            || Picked(base, env, pred, invert, b)
            || (b in base.states && exists f :: f in out.relations && f.1 == b)
    ensures b in out.states ==> b in base.states && out.states[b] == Coloured(base.states[b])
  {
    var selected := FilterStates(base, env, pred, invert);
    PickedAre(base, env, pred, invert, b);
    PickedAre(base, env, pred, invert, e.0);
    if e in base.relations {
      SharedKind(base.relations[e], kinds);
    }
    hide FilterStates, Picked;
    assert b in AllTrace(selected) ==> AllTrace(selected)[b] == Coloured(base.states[b]);
    FilledNode(AllTrace(selected), base.states, Sinks(out.relations.Keys), b);
    SinkIs(out.relations.Keys, b);
    hide FillTrace, Sinks;
  }

  lemma SinkIs(edges: set<Edge>, b: Bid)
    ensures b in Sinks(edges) <==> exists e :: e in edges && e.1 == b
  {
  }

  /** A query for edges gives the taken edges and their ends as Trace, with either evaluator. */
  lemma EdgeAnswer(base: Graph, env: Lookups, mode: Mode, pred: RelationPred, invert: bool, out: Graph, b: Bid, e: Edge)
    requires Evaluates(base, env, mode, if invert then RelationNotIn(pred) else RelationIn(pred), out)
    ensures e in out.relations <==> Taken(base, pred, invert, e)
    ensures e in out.relations ==> out.relations[e] == base.relations[e]
    ensures b in out.states <==> b in base.states && exists f :: f in out.relations && (f.0 == b || f.1 == b)
    ensures b in out.states ==> out.states[b] == Coloured(base.states[b])
  {
    if e in base.relations && pred.KindIn? {
      SharedKind(base.relations[e], pred.kinds);
    }
    EndpointIs(out.relations.Keys, b);
    FilledNode(map[], base.states, Endpoints(out.relations.Keys), b);
    hide Endpoints, FillTrace;
  }

  predicate CompleteIn(g: Graph, b: Bid) {
    b in g.states && Trace !in g.states[b].kind
  }

  /** A combined query combines the answers of its parts: which nodes that keeps for sure. */
  ghost predicate Combined(op: SetOp, l: Graph, r: Graph, out: Graph, b: Bid) {
    match op
    case Union =>
      && (CompleteIn(r, b) ==> b in out.states && out.states[b] == r.states[b])
      && (b in l.states && !CompleteIn(r, b) ==> b in out.states && out.states[b] == l.states[b])
    case Intersection =>
      && (CompleteIn(l, b) && CompleteIn(r, b) ==> b in out.states && out.states[b] == l.states[b])
      && (l.relations == map[] == r.relations && b in out.states ==> CompleteIn(l, b) && CompleteIn(r, b))
    case Difference =>
      && (CompleteIn(l, b) && !CompleteIn(r, b) ==> b in out.states && out.states[b] == l.states[b])
      && (l.relations == map[] == r.relations && b in out.states ==> CompleteIn(l, b) && !CompleteIn(r, b))
    case SymmetricDifference =>
      && (CompleteIn(l, b) && !CompleteIn(r, b) ==> b in out.states && out.states[b] == l.states[b])
      && (CompleteIn(r, b) && !CompleteIn(l, b) ==> b in out.states && out.states[b] == r.states[b])
      && (l.relations == map[] == r.relations && b in out.states ==> CompleteIn(l, b) != CompleteIn(r, b))
  }

  lemma CombinedAnswer(base: Graph, env: Lookups, mode: Mode, l: Expression, op: SetOp, r: Expression, out: Graph)
    requires Evaluates(base, env, mode, Dyad(l, op, r), out)
    ensures exists x, y ::
              && Evaluates(base, env, mode, l, x) && Evaluates(base, env, mode, r, y)
              && forall b: Bid :: Combined(op, x, y, out, b)
  {
    var x, y :| Evaluates(base, env, mode, l, x) && Evaluates(base, env, mode, r, y) && Combines(op, x, y, out);
    hide Evaluates;
    forall b: Bid ensures Combined(op, x, y, out, b) {
      NodesCombined(op, x, y, out, b);
    }
  }

  lemma NodesCombined(op: SetOp, x: Graph, y: Graph, out: Graph, b: Bid)
    requires Combines(op, x, y, out)
    ensures Combined(op, x, y, out, b)
  {
    hide IsUnion, IsIntersection, IsDifference, IsSymmetricDifference, Chained;
    match op
    case Union => UnionNodes(x, y, out, b);
    case Intersection => IntersectionNodes(x, y, out, b);
    case Difference => DifferenceNodes(x, y, out, b);
    case SymmetricDifference => SymmetricDifferenceNodes(x, y, out, b);
  }
}
