/**
 The query language of src/query.rs and its two evaluators in src/beliefbase/base.rs.

 Path, id, namespace and payload predicates consult structures outside this model: they
 are answered by `Lookups`, about which nothing is assumed.
 */
module Expressions {
  import opened Properties
  import opened Reachability
  import opened BeliefGraphs
  import opened GraphStore

  datatype StatePred =
    | AnyState
    | BidIn(bids: seq<Bid>)
    | SchemaIs(schema: string)
    | KindWithin(kinds: set<BeliefKind>)
    | PathLookup(key: string)      // Path, NetPath, NetPathIn, NetId: resolved to ids
    | NodeMatch(key: string)       // InNamespace, Bref, Payload: decided per node

  datatype RelationPred =
    | AnyRelation
    | SinkIn(bids: seq<Bid>)
    | SourceIn(bids: seq<Bid>)
    | NodeIn(bids: seq<Bid>)
    | KindIn(kinds: set<WeightKind>)

  datatype SetOp = Union | Intersection | Difference | SymmetricDifference

  datatype Expression =
    | StateIn(state: StatePred)
    | StateNotIn(state: StatePred)
    | RelationIn(relation: RelationPred)
    | RelationNotIn(relation: RelationPred)
    | Dyad(lhs: Expression, op: SetOp, rhs: Expression)

  datatype Lookups = Lookups(resolve: string -> set<Bid>, matches: (string, BeliefNode) -> bool)

  // ------------------------------------------------------------------ predicates

  /** `match_state` */
  predicate MatchesState(env: Lookups, pred: StatePred, node: BeliefNode) {
    match pred
    case AnyState => true
    case SchemaIs(schema) => node.schema == Some(schema)
    case KindWithin(kinds) => kinds >= node.kind
    case NodeMatch(key) => env.matches(key, node)
    case BidIn(_) => false
    case PathLookup(_) => false
  }

  /** `match_ref` */
  predicate MatchesRelation(pred: RelationPred, e: Edge, ws: WeightSet) {
    match pred
    case AnyRelation => true
    case SinkIn(bids) => e.1 in bids
    case SourceIn(bids) => e.0 in bids
    case NodeIn(bids) => e.0 in bids || e.1 in bids
    case KindIn(kinds) => ws.Keys * kinds != {}
  }

  function Restrict(states: States, bids: set<Bid>): States {
    map b | b in bids && b in states :: states[b]
  }

  /** `filter_states`: id and path predicates ignore the inversion. */
  function FilterStates(base: Graph, env: Lookups, pred: StatePred, invert: bool): States {
    match pred
    case BidIn(bids) => Restrict(base.states, set b | b in bids)
    case PathLookup(key) => Restrict(base.states, env.resolve(key))
    case _ => map b | b in base.states && MatchesState(env, pred, base.states[b]) != invert :: base.states[b]
  }

  // ------------------------------------------------------------------ selecting

  /** The predicate picks ids rather than deciding node by node. */
  predicate PicksIds(pred: StatePred) {
    pred.BidIn? || pred.PathLookup?
  }

  /** Inverting selects the other states, except that id and path predicates select the same ones again. */
  lemma InversionIff(base: Graph, env: Lookups, pred: StatePred)
    ensures FilterStates(base, env, pred, true).Keys == base.states.Keys - FilterStates(base, env, pred, false).Keys
            <==> (PicksIds(pred) ==> base.states == map[])
  {
    var yes, no := FilterStates(base, env, pred, false), FilterStates(base, env, pred, true);
    if PicksIds(pred) {
      assert yes == no;
      if no.Keys == base.states.Keys - yes.Keys {
        forall b ensures b !in base.states {
          assert b in no <==> b in base.states && b !in yes;
        }
      }
    } else {
      forall b | b in base.states ensures b in no <==> b !in yes {
        assert MatchesState(env, pred, base.states[b]) != true || MatchesState(env, pred, base.states[b]) != false;
      }
    }
  }

  /** Add the missing endpoints as Trace nodes. */
  function FillTrace(states: States, from: States, bids: set<Bid>): States {
    states + map b | b in bids && b in from && b !in states :: from[b].AsTrace()
  }

  function AllTrace(states: States): States {
    map b | b in states :: states[b].AsTrace()
  }

  /** `evaluate_expression` on selected states: their edges in both directions. */
  function SelectStates(base: Graph, selected: States): Graph {
    var edges := map e | e in base.relations && (e.0 in selected || e.1 in selected) :: base.relations[e];
    Graph(FillTrace(selected, base.states, Endpoints(edges.Keys)), edges)
  }

  function Sinks(edges: set<Edge>): set<Bid> {
    set e | e in edges :: e.1
  }

  /** `evaluate_expression_as_trace` on selected states: their outgoing edges of the given kinds. */
  function TraceStates(base: Graph, selected: States, kinds: set<WeightKind>): Graph {
    var edges := map e | e in base.relations && e.0 in selected
        && base.relations[e].Keys * kinds != {} :: base.relations[e];
    Graph(FillTrace(AllTrace(selected), base.states, Sinks(edges.Keys)), edges)
  }

  /** Either evaluator on a relation predicate. */
  function SelectRelations(base: Graph, pred: RelationPred, invert: bool): Graph {
    var edges := map e | e in base.relations
        && MatchesRelation(pred, e, base.relations[e]) != invert :: base.relations[e];
    Graph(FillTrace(map[], base.states, Endpoints(edges.Keys)), edges)
  }

  ghost predicate Combines(op: SetOp, a: Graph, b: Graph, out: Graph) {
    match op
    case Union => IsUnion(a, b, out)
    case Intersection => IsIntersection(a, b, out)
    case Difference => IsDifference(a, b, out)
    case SymmetricDifference => IsSymmetricDifference(a, b, out)
  }

  /** How a query is evaluated: with all relations, or as a trace of some kinds. */
  datatype Mode = Full | AsTrace(kinds: set<WeightKind>)

  function Select(base: Graph, selected: States, mode: Mode): Graph {
    match mode
    case Full => SelectStates(base, selected)
    case AsTrace(kinds) => TraceStates(base, selected, kinds)
  }

  /** `out` is a result of evaluating `expr` over `base`. */
  ghost predicate Evaluates(base: Graph, env: Lookups, mode: Mode, expr: Expression, out: Graph) {
    match expr
    case StateIn(pred) => out == Select(base, FilterStates(base, env, pred, false), mode)
    case StateNotIn(pred) => out == Select(base, FilterStates(base, env, pred, true), mode)
    case RelationIn(pred) => out == SelectRelations(base, pred, false)
    case RelationNotIn(pred) => out == SelectRelations(base, pred, true)
    case Dyad(l, op, r) =>
      exists a, b :: Evaluates(base, env, mode, l, a) && Evaluates(base, env, mode, r, b) && Combines(op, a, b, out)
  }

  /** Evaluation, operator by operator. */
  method Evaluate(base: Graph, env: Lookups, mode: Mode, expr: Expression) returns (g: BeliefGraph)
    ensures fresh(g) && Evaluates(base, env, mode, expr, g.Value())
  {
    match expr
    case StateIn(pred) =>
      g := new BeliefGraph(Select(base, FilterStates(base, env, pred, false), mode));
    case StateNotIn(pred) =>
      g := new BeliefGraph(Select(base, FilterStates(base, env, pred, true), mode));
    case RelationIn(pred) =>
      g := new BeliefGraph(SelectRelations(base, pred, false));
    case RelationNotIn(pred) =>
      g := new BeliefGraph(SelectRelations(base, pred, true));
    case Dyad(l, op, r) =>
      g := Evaluate(base, env, mode, l);
      var right := Evaluate(base, env, mode, r);
      var rhs := Graph(right.states, right.relations);
      ghost var lhs := g.Value();
      match op {
        case Union => g.UnionMut(rhs);
        case Intersection => g.IntersectionMut(rhs);
        case Difference => g.DifferenceMut(rhs);
        case SymmetricDifference => g.SymmetricDifferenceMut(rhs);
      }
      assert Combines(op, lhs, rhs, g.Value());
  }

  // ------------------------------------------------------------------ no orphans

  lemma SelectOrphanFree(base: Graph, selected: States, mode: Mode)
    requires base.OrphanFree() && selected.Keys <= base.states.Keys
    ensures Select(base, selected, mode).OrphanFree()
  {
    var out := Select(base, selected, mode);
    forall e | e in out.relations ensures e.0 in out.states && e.1 in out.states {
      assert e in base.relations;
    }
  }

  lemma FilterWithin(base: Graph, env: Lookups, pred: StatePred, invert: bool)
    ensures FilterStates(base, env, pred, invert).Keys <= base.states.Keys
  {
  }

  /**
   One selection over any store: it has no orphaned edge exactly if no edge it selects was
   orphaned already.
   */
  lemma SelectionOrphanFreeIff(base: Graph, pred: RelationPred, invert: bool)
    ensures SelectRelations(base, pred, invert).OrphanFree() <==>
            forall e | e in base.relations && MatchesRelation(pred, e, base.relations[e]) != invert ::
              e.0 in base.states && e.1 in base.states
  {
    hide MatchesRelation;
    var out := SelectRelations(base, pred, invert);
    assert forall b | b in Endpoints(out.relations.Keys) :: b in out.states <==> b in base.states;
    forall e | e in out.relations
      ensures e.0 in Endpoints(out.relations.Keys) && e.1 in Endpoints(out.relations.Keys)
    {
    }
  }

  /**
   Every query over a store without orphaned edges returns a graph without orphaned edges,
   for either evaluator, whatever the lookups answer and in whatever order edges are stored.
   */
  lemma {:induction false} QueriesOrphanFree(base: Graph, env: Lookups, mode: Mode, expr: Expression, out: Graph)
    requires base.OrphanFree() && Evaluates(base, env, mode, expr, out)
    ensures out.OrphanFree()
  {
    match expr
    case StateIn(pred) =>
      FilterWithin(base, env, pred, false);
      SelectOrphanFree(base, FilterStates(base, env, pred, false), mode);
    case StateNotIn(pred) =>
      FilterWithin(base, env, pred, true);
      SelectOrphanFree(base, FilterStates(base, env, pred, true), mode);
    case RelationIn(pred) => SelectionOrphanFreeIff(base, pred, false);
    case RelationNotIn(pred) => SelectionOrphanFreeIff(base, pred, true);
    case Dyad(l, op, r) =>
      var a, b :| Evaluates(base, env, mode, l, a) && Evaluates(base, env, mode, r, b) && Combines(op, a, b, out);
      QueriesOrphanFree(base, env, mode, l, a);
      if op == Union {
        UnionOrphanFree(a, b, out);
      } else {
        SetOperationsOrphanFree(a, b, out);
      }
  }
}
