/**
 The depth-first walk of src/beliefbase/graph.rs (`to_event_stream`) over the Section hierarchy:
 edges run from parent to child, and the walk reports the edge through which each child is found.
 */
module SectionWalks {
  import opened Properties
  import opened Reachability

  /** The tree edges so far and the nodes discovered so far. */
  ghost predicate Walked(edges: set<Edge>, roots: set<Bid>, found: set<Bid>, tree: seq<Edge>) {
    && (forall i | 0 <= i < |tree| :: tree[i] in edges && tree[i].1 !in roots && tree[i].1 in found)
    && (forall i, j | 0 <= i < j < |tree| :: tree[i].1 != tree[j].1)
    && (forall i | 0 <= i < |tree| :: tree[i].0 in roots || FoundBefore(tree, i, tree[i].0))
    && (forall n | n in found :: Reaches(edges, roots, n) && (n in roots || FoundBefore(tree, |tree|, n)))
  }

  /** An earlier tree edge leads to `n`. */
  ghost predicate FoundBefore(tree: seq<Edge>, i: nat, n: Bid) {
    exists j :: 0 <= j < i && j < |tree| && tree[j].1 == n
  }

  /** Every edge out of a discovered node outside `open` leads to a discovered node. */
  ghost predicate ClosedBut(edges: set<Edge>, found: set<Bid>, open: set<Bid>) {
    forall e | e in edges && e.0 in found && e.0 !in open :: e.1 in found
  }

  lemma WalkedAlso(edges: set<Edge>, roots: set<Bid>, found: set<Bid>, tree: seq<Edge>, u: Bid, v: Bid)
    requires Walked(edges, roots, found, tree) && u in found && v !in found && (u, v) in edges
    requires forall e | e in edges :: e.1 !in roots
    ensures Walked(edges, roots, found + {v}, tree + [(u, v)])
  {
    var more := tree + [(u, v)];
    StepReached(edges, roots, u, v);
    assert more[|tree|].1 == v;
    forall i | 0 <= i < |more| ensures more[i].0 in roots || FoundBefore(more, i, more[i].0) {
      if i < |tree| && tree[i].0 !in roots {
        FoundStays(tree, more, i, i, tree[i].0);
      } else if i == |tree| && u !in roots {
        FoundStays(tree, more, |tree|, |tree|, u);
      }
    }
    forall n | n in found && n !in roots ensures FoundBefore(more, |more|, n) {
      FoundStays(tree, more, |tree|, |more|, n);
    }
  }

  lemma FoundStays(tree: seq<Edge>, more: seq<Edge>, i: nat, k: nat, n: Bid)
    requires FoundBefore(tree, i, n) && i <= |tree| && i <= k && tree <= more
    ensures FoundBefore(more, k, n)
  {
    var j :| 0 <= j < i && j < |tree| && tree[j].1 == n;
    assert more[j] == tree[j];
  }

  lemma SuccessorIsEdge(edges: set<Edge>, u: Bid, v: Bid)
    requires v in Successors(edges, u)
    ensures (u, v) in edges && v in Endpoints(edges)
  {
    var e :| e in edges && e.0 == u && e.1 == v;
    assert e == (u, v);
  }

  lemma AllSuccessors(edges: set<Edge>, u: Bid)
    ensures forall e | e in edges && e.0 == u :: e.1 in Successors(edges, u)
  {
  }

  /** Visit a discovered node: report each undiscovered child and visit it. */
  method WalkFrom(edges: set<Edge>, ghost roots: set<Bid>, u: Bid, found: set<Bid>, tree: seq<Edge>,
      ghost open: set<Bid>)
    returns (found': set<Bid>, tree': seq<Edge>)
    requires Walked(edges, roots, found, tree) && u in found && u !in open && open <= found
    requires forall e | e in edges :: e.1 !in roots
    requires ClosedBut(edges, found, open + {u})
    ensures Walked(edges, roots, found', tree') && found <= found'
    ensures ClosedBut(edges, found', open)
    decreases Endpoints(edges) - found
  {
    hide Walked, Successors, Endpoints;
    found', tree' := found, tree;
    var todo := Successors(edges, u);
    AllSuccessors(edges, u);
    while todo != {}
      invariant todo <= Successors(edges, u) && Successors(edges, u) - todo <= found'
      invariant Walked(edges, roots, found', tree') && found <= found'
      invariant ClosedBut(edges, found', open + {u})
    {
      var v :| v in todo;
      todo := todo - {v};
      if v !in found' {
        SuccessorIsEdge(edges, u, v);
        WalkedAlso(edges, roots, found', tree', u, v);
        found', tree' := found' + {v}, tree' + [(u, v)];
        assert v in Endpoints(edges) - found && v !in Endpoints(edges) - found';
        found', tree' := WalkFrom(edges, roots, v, found', tree', open + {u});
      }
    }
  }

  /** The whole walk: `tree` reports each reachable node once, after the edge that found its parent. */
  ghost predicate IsWalk(edges: set<Edge>, roots: set<Bid>, tree: seq<Edge>) {
    && (forall i | 0 <= i < |tree| :: tree[i] in edges && tree[i].1 !in roots)
    && (forall i, j | 0 <= i < j < |tree| :: tree[i].1 != tree[j].1)
    && (forall i | 0 <= i < |tree| :: tree[i].0 in roots || FoundBefore(tree, i, tree[i].0))
    && (forall n | n !in roots :: FoundBefore(tree, |tree|, n) <==> Reaches(edges, roots, n))
  }

  /** `depth_first_search` from the parents that are nobody's child. */
  method SectionWalk(edges: set<Edge>, roots: set<Bid>) returns (tree: seq<Edge>)
    requires forall e | e in edges :: e.1 !in roots
    ensures IsWalk(edges, roots, tree)
  {
    var found: set<Bid> := {};
    tree := [];
    var todo := roots;
    while todo != {}
      invariant todo <= roots && roots - todo <= found
      invariant Walked(edges, roots, found, tree) && ClosedBut(edges, found, {})
    {
      var r :| r in todo;
      todo := todo - {r};
      if r !in found {
        SeedReached(edges, roots, r);
        hide Reaches;
        found, tree := WalkFrom(edges, roots, r, found + {r}, tree, {});
      }
    }
    WalkEnds(edges, roots, found, tree);
  }

  lemma WalkEnds(edges: set<Edge>, roots: set<Bid>, found: set<Bid>, tree: seq<Edge>)
    requires Walked(edges, roots, found, tree) && ClosedBut(edges, found, {}) && roots <= found
    ensures IsWalk(edges, roots, tree)
  {
    forall n | n !in roots ensures FoundBefore(tree, |tree|, n) <==> Reaches(edges, roots, n) {
      if Reaches(edges, roots, n) {
        ClosedHoldsReached(edges, roots, found, n);
      }
    }
  }
}
