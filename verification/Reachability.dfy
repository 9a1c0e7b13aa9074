/** Reachability over directed edges, and the depth-first search that computes it. */
module Reachability {
  import opened Properties

  ghost predicate IsPath(edges: set<Edge>, p: seq<Bid>) {
    forall i | 0 <= i < |p| - 1 :: (p[i], p[i + 1]) in edges
  }

  ghost predicate Connects(edges: set<Edge>, p: seq<Bid>, from: set<Bid>, n: Bid) {
    |p| > 0 && p[0] in from && p[|p| - 1] == n && IsPath(edges, p)
  }

  /** Some path leads from a seed to `n`. */
  ghost predicate Reaches(edges: set<Edge>, seeds: set<Bid>, n: Bid) {
    exists p :: Connects(edges, p, seeds, n)
  }

  function Flip(edges: set<Edge>): set<Edge> {
    set e | e in edges :: (e.1, e.0)
  }

  function Endpoints(edges: set<Edge>): set<Bid> {
    (set e | e in edges :: e.0) + (set e | e in edges :: e.1)
  }

  lemma SeedReached(edges: set<Edge>, seeds: set<Bid>, n: Bid)
    requires n in seeds
    ensures Reaches(edges, seeds, n)
  {
    assert Connects(edges, [n], seeds, n);
  }

  lemma StepReached(edges: set<Edge>, seeds: set<Bid>, a: Bid, b: Bid)
    requires Reaches(edges, seeds, a) && (a, b) in edges
    ensures Reaches(edges, seeds, b)
  {
    var p :| Connects(edges, p, seeds, a);
    assert Connects(edges, p + [b], seeds, b);
  }

  /** A set that holds the seeds and is closed under edges holds every reachable node. */
  lemma {:induction false} ClosedHoldsPath(edges: set<Edge>, seeds: set<Bid>, closed: set<Bid>, p: seq<Bid>, n: Bid)
    requires seeds <= closed && forall e | e in edges && e.0 in closed :: e.1 in closed
    requires Connects(edges, p, seeds, n)
    ensures n in closed
    decreases |p|
  {
    if |p| <= 1 {
    } else {
      var q := p[..|p| - 1];
      assert Connects(edges, q, seeds, q[|q| - 1]);
      ClosedHoldsPath(edges, seeds, closed, q, q[|q| - 1]);
      assert (p[|p| - 2], p[|p| - 1]) in edges;
    }
  }

  lemma ClosedHoldsReached(edges: set<Edge>, seeds: set<Bid>, closed: set<Bid>, n: Bid)
    requires seeds <= closed && forall e | e in edges && e.0 in closed :: e.1 in closed
    requires Reaches(edges, seeds, n)
    ensures n in closed
  {
    var p :| Connects(edges, p, seeds, n);
    ClosedHoldsPath(edges, seeds, closed, p, n);
  }

  function Successors(edges: set<Edge>, n: Bid): set<Bid> {
    set e | e in edges && e.0 == n :: e.1
  }

  /** `depth_first_search` from every seed: the nodes it discovers are exactly the reachable ones. */
  method DepthFirstSearch(edges: set<Edge>, seeds: set<Bid>) returns (explored: set<Bid>)
    ensures forall n :: n in explored <==> Reaches(edges, seeds, n)
  {
    explored := {};
    var stack := SetToSeq(seeds);
    forall n | n in stack ensures Reaches(edges, seeds, n) {
      SeedReached(edges, seeds, n);
    }
    while stack != []
      invariant forall n | n in explored || n in stack :: Reaches(edges, seeds, n)
      invariant forall n | n in seeds :: n in explored || n in stack
      invariant forall e | e in edges && e.0 in explored :: e.1 in explored || e.1 in stack
      invariant explored <= seeds + Endpoints(edges)
      invariant forall n | n in stack :: n in seeds + Endpoints(edges)
      decreases seeds + Endpoints(edges) - explored, |stack|
    {
      var n, rest := stack[|stack| - 1], stack[..|stack| - 1];
      assert stack == rest + [n];
      if n in explored {
        stack := rest;
      } else {
        var next := SetToSeq(Successors(edges, n));
        forall b | b in next ensures Reaches(edges, seeds, b) && b in Endpoints(edges) {
          var e :| e in edges && e.0 == n && e.1 == b;
          StepReached(edges, seeds, n, b);
        }
        forall e | e in edges && e.0 == n ensures e.1 in next {
        }
        explored := explored + {n};
        stack := rest + next;
      }
    }
    forall n | Reaches(edges, seeds, n) ensures n in explored {
      ClosedHoldsReached(edges, seeds, explored, n);
    }
  }

  method SetToSeq(s: set<Bid>) returns (list: seq<Bid>)
    ensures forall x :: x in list <==> x in s
  {
    list := [];
    var todo := s;
    while todo != {}
      invariant todo <= s && forall x :: x in list <==> x in s - todo
    {
      var x :| x in todo;
      todo := todo - {x};
      list := list + [x];
    }
  }
}
