/** The `*_mut` methods of src/beliefbase/graph.rs, proved against BeliefGraphs. */
module GraphStore {
  import opened Properties
  import opened Reachability
  import opened BeliefGraphs

  lemma {:induction false} EdgePassAppend(g: Graph, rhs: Graph, order: seq<Edge>, e: Edge)
    requires forall f | f in order + [e] :: f in rhs.relations
    ensures forall f | f in order :: f in rhs.relations
    ensures EdgePass(g, rhs, order + [e]) == EdgeStep(EdgePass(g, rhs, order), rhs, e)
    decreases |order|
  {
    assert forall f | f in order :: f in order + [e];
    if order == [] {
      assert (order + [e])[1..] == [];
    } else {
      assert (order + [e])[1..] == order[1..] + [e];
      assert (order + [e])[0] == order[0];
      assert forall f | f in order[1..] + [e] :: f in order + [e];
      EdgePassAppend(EdgeStep(g, rhs, order[0]), rhs, order[1..], e);
    }
  }

  lemma FlipEndpoints(edges: set<Edge>)
    ensures Endpoints(Flip(edges)) == Endpoints(edges)
  {
    var flipped := Flip(edges);
    forall b | b in Endpoints(edges) ensures b in Endpoints(flipped) {
      var e :| e in edges && (e.0 == b || e.1 == b);
      assert (e.1, e.0) in flipped;
    }
  }

  lemma ReachedAreEndpoints(edges: set<Edge>, seeds: set<Bid>, n: Bid)
    requires seeds <= Endpoints(edges) && Reaches(edges, seeds, n)
    ensures n in Endpoints(edges)
  {
    ClosedHoldsReached(edges, seeds, Endpoints(edges), n);
  }

  /** Two traversals, one per direction, find everything connected to the seeds. */
  lemma TraversalsFindConnected(rhs: Graph, seeds: set<Bid>, forwards: set<Bid>, backwards: set<Bid>)
    requires seeds <= Endpoints(rhs.relations.Keys)
    requires forall n :: n in forwards <==> Reaches(rhs.relations.Keys, seeds, n)
    requires forall n :: n in backwards <==> Reaches(Flip(rhs.relations.Keys), seeds, n)
    ensures forwards + backwards == Connected(rhs, seeds)
  {
    var edges := rhs.relations.Keys;
    FlipEndpoints(edges);
    forall n | n in forwards + backwards ensures n in Endpoints(edges) {
      if n in forwards {
        ReachedAreEndpoints(edges, seeds, n);
      } else {
        ReachedAreEndpoints(Flip(edges), seeds, n);
      }
    }
  }

  lemma FillTwice(states: States, from: States, a: set<Bid>, b: set<Bid>)
    ensures Fill(Fill(states, from, a), from, b) == Fill(states, from, a + b)
  {
  }

  class BeliefGraph {
    var states: States
    var relations: Relations

    ghost function Value(): Graph
      reads this
    {
      Graph(states, relations)
    }

    constructor (g: Graph)
      ensures Value() == g
    {
      states, relations := g.states, g.relations;
    }

    /** `add_relations_seeded`: two traversals of `rhs`, then one pass over its edges. */
    method AddRelations(rhs: Graph, only: Option<set<Bid>>) returns (ghost order: seq<Edge>)
      modifies this
      ensures EdgeOrder(rhs, order)
      ensures Value() == BeliefGraphs.AddRelations(old(Value()), rhs, only, order)
    {
      var edges := rhs.relations.Keys;
      var seeds := Seeds(states, rhs, only);
      var forwards := DepthFirstSearch(edges, seeds);
      states := Fill(states, rhs.states, forwards);
      var backwards := DepthFirstSearch(Flip(edges), seeds);
      states := Fill(states, rhs.states, backwards);
      TraversalsFindConnected(rhs, seeds, forwards, backwards);
      FillTwice(old(states), rhs.states, forwards, backwards);
      hide Connected, Seeds, Fill, Reaches;
      order := EdgeLoop(rhs);
    }

    method EdgeLoop(rhs: Graph) returns (ghost order: seq<Edge>)
      modifies this
      ensures EdgeOrder(rhs, order)
      ensures Value() == EdgePass(old(Value()), rhs, order)
    {
      hide EdgeStep, EdgePass;
      order := [];
      var todo := rhs.relations.Keys;
      EdgePassEmpty(Value(), rhs);
      while todo != {}
        invariant todo <= rhs.relations.Keys
        invariant Enumerates(order, rhs.relations.Keys - todo)
        invariant Value() == EdgePass(old(Value()), rhs, order)
      {
        var e :| e in todo;
        todo := todo - {e};
        EdgePassAppend(old(Value()), rhs, order, e);
        EnumeratesOneMore(order, rhs.relations.Keys - todo - {e}, e);
        assert rhs.relations.Keys - todo == rhs.relations.Keys - todo - {e} + {e};
        order := order + [e];
        var next := EdgeStep(Graph(states, relations), rhs, e);
        states, relations := next.states, next.relations;
      }
    }

    /** `union_mut` */
    method UnionMut(rhs: Graph)
      modifies this
      ensures IsUnion(old(Value()), rhs, Value())
    {
      states := states + CompleteOf(rhs.states);
      ghost var order := AddRelations(rhs, None);
    }

    /** `union_mut_from` */
    method UnionMutFrom(rhs: Graph, seeds: set<Bid>)
      modifies this
      ensures IsUnionFrom(old(Value()), rhs, seeds, Value())
    {
      states := states + CompleteOf(rhs.states);
      ghost var order := AddRelations(rhs, Some(seeds));
    }

    /** `union_mut_with_trace` */
    method UnionMutWithTrace(rhs: Graph)
      modifies this
      ensures IsUnionWithTrace(old(Value()), rhs, Value())
    {
      states := WithTrace(states, rhs.states);
      ghost var order := AddRelations(rhs, None);
    }

    /** Keep the given nodes and merge in the relations of both operands. */
    method SelectMut(kept: States, rhs: Graph)
      modifies this
      ensures IsSelection(kept, old(Value()), rhs, Value())
    {
      var lhs := Graph(states, relations);
      states, relations := kept, map[];
      ghost var first := AddRelations(lhs, None);
      ghost var second := AddRelations(rhs, None);
    }

    /** `intersection_mut` */
    method IntersectionMut(rhs: Graph)
      modifies this
      ensures IsIntersection(old(Value()), rhs, Value())
    {
      SelectMut(Both(states, rhs.states), rhs);
    }

    /** `difference_mut` */
    method DifferenceMut(rhs: Graph)
      modifies this
      ensures IsDifference(old(Value()), rhs, Value())
    {
      SelectMut(OnlyLeft(states, rhs.states), rhs);
    }

    /** `symmetric_difference_mut` */
    method SymmetricDifferenceMut(rhs: Graph)
      modifies this
      ensures IsSymmetricDifference(old(Value()), rhs, Value())
    {
      var other := new BeliefGraph(rhs);
      other.DifferenceMut(Graph(states, relations));
      DifferenceMut(rhs);
      UnionMut(Graph(other.states, other.relations));
    }
  }

  lemma EdgePassEmpty(g: Graph, rhs: Graph)
    ensures EdgePass(g, rhs, []) == g
  {
  }
}
