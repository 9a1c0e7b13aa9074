/**
 The viewer's walks over the navigation tree (assets/viewer/navigation.js): the loop that expands
 the ancestors of a node and the recursive renderer with its cycle and depth guards.
 */
module NavViewer {
  import opened Properties
  import opened NavTree
  import opened NavMerge

  const MAX_DEPTH := 50

  /** A node and everything above it; an unknown id is only itself. */
  ghost function Ancestors(roots: seq<Root>, b: Bid): set<Bid>
    decreases if b in All(roots) then |roots| - Owner(roots, b) else 0, if b in All(roots) then RankOf(roots, b) else 0
  {
    if b in All(roots) && All(roots)[b].parent.Some? then
      ParentExists(roots, b);
      {b} + Ancestors(roots, All(roots)[b].parent.value)
    else {b}
  }

  ghost predicate ChainFromTo(nodes: Nodes, path: seq<Bid>, b: Bid, x: Bid) {
    path != [] && path[0] == b && path[|path| - 1] == x && IsParentChain(nodes, path)
  }

  /** The ancestors of a node are exactly the ends of its parent chains. */
  lemma AncestorsAreChains(roots: seq<Root>, b: Bid, x: Bid)
    requires b in All(roots)
    ensures x in Ancestors(roots, b) <==> exists path :: ChainFromTo(All(roots), path, b, x)
  {
    if x in Ancestors(roots, b) {
      var path := ChainTo(roots, b, x);
    }
    if path :| ChainFromTo(All(roots), path, b, x) {
      ChainStays(roots, path);
    }
  }

  lemma {:induction false} ChainTo(roots: seq<Root>, b: Bid, x: Bid) returns (path: seq<Bid>)
    requires b in All(roots) && x in Ancestors(roots, b)
    ensures ChainFromTo(All(roots), path, b, x)
    decreases |roots| - Owner(roots, b), RankOf(roots, b)
  {
    if x == b {
      path := [b];
    } else {
      ParentExists(roots, b);
      var p := All(roots)[b].parent.value;
      assert x in Ancestors(roots, p);
      hide Ancestors;
      var rest := ChainTo(roots, p, x);
      ChainGrows(All(roots), b, rest, x);
      path := [b] + rest;
    }
  }

  lemma ChainGrows(nodes: Nodes, b: Bid, rest: seq<Bid>, x: Bid)
    requires b in nodes && nodes[b].parent.Some? && ChainFromTo(nodes, rest, nodes[b].parent.value, x)
    ensures ChainFromTo(nodes, [b] + rest, b, x)
  {
  }

  lemma {:induction false} ChainStays(roots: seq<Root>, path: seq<Bid>)
    requires path != [] && IsParentChain(All(roots), path)
    ensures path[|path| - 1] in Ancestors(roots, path[0])
  {
    hide All;
    if |path| <= 1 {
    } else {
      assert All(roots)[path[1 - 1]].parent == Some(path[1]);
      ChainStays(roots, path[1..]);
    }
  }

  class Viewer {
    const nodes: Nodes
    ghost const roots: seq<Root>
    var expanded: set<Bid>

    ghost predicate Valid() {
      nodes == All(roots)
    }

    constructor (tree: Tree, ghost roots: seq<Root>)
      requires tree.nodes == All(roots)
      ensures Valid() && nodes == tree.nodes && this.roots == roots && expanded == {}
    {
      nodes := tree.nodes;
      this.roots := roots;
      expanded := {};
    }

    /** The loop has no guard against cycles; it ends because the parent chain climbs. */
    method ExpandAncestors(bid: Bid)
      requires Valid()
      modifies this
      ensures Valid() && expanded == old(expanded) + Ancestors(roots, bid)
    {
      var current := Some(bid);
      while current.Some?
        invariant current.Some? ==> expanded + Ancestors(roots, current.value) == old(expanded) + Ancestors(roots, bid)
        invariant current.None? ==> expanded == old(expanded) + Ancestors(roots, bid)
        decreases current.Some?,
                  if current.Some? && current.value in nodes then |roots| - Owner(roots, current.value) else 0,
                  if current.Some? && current.value in nodes then RankOf(roots, current.value) else 0
      {
        var b := current.value;
        expanded := expanded + {b};
        if b !in nodes { break; }
        current := nodes[b].parent;
        if current.Some? {
          ParentExists(roots, b);
        }
      }
    }
  }

  // ------------------------------------------------------------------ rendering

  datatype Html =
    | Item(bid: Bid, children: seq<Html>)
    | Missing
    | CycleError(bid: Bid)
    | SelfReference
    | TooDeep

  function Budget(depth: nat): nat {
    if depth <= MAX_DEPTH + 1 then MAX_DEPTH + 2 - depth else 0
  }

  function RenderNavNode(nodes: Nodes, bid: Bid, depth: nat, visited: set<Bid>): Html
    decreases Budget(depth), 0
  {
    if bid in visited then CycleError(bid)
    else if depth > MAX_DEPTH then TooDeep
    else if bid !in nodes then Missing
    else Item(bid, RenderChildren(nodes, bid, nodes[bid].children, depth + 1, visited + {bid}))
  }

  function RenderChildren(nodes: Nodes, parent: Bid, kids: seq<Bid>, depth: nat, visited: set<Bid>): (r: seq<Html>)
    ensures |r| == |kids|
    decreases Budget(depth), |kids|
  {
    if kids == [] then []
    else
      var last := kids[|kids| - 1];
      RenderChildren(nodes, parent, kids[..|kids| - 1], depth, visited)
      + [if last == parent then SelfReference else RenderNavNode(nodes, last, depth, visited)]
  }

  lemma {:induction false} RenderedChild(nodes: Nodes, parent: Bid, kids: seq<Bid>, depth: nat, visited: set<Bid>,
      i: nat)
    requires i < |kids|
    ensures RenderChildren(nodes, parent, kids, depth, visited)[i]
         == if kids[i] == parent then SelfReference else RenderNavNode(nodes, kids[i], depth, visited)
  {
    hide RenderNavNode;
    if i == |kids| - 1 {
    } else {
      RenderedChild(nodes, parent, kids[..|kids| - 1], depth, visited, i);
    }
  }

  /** No guard but the depth limit fired anywhere in the page. */
  ghost predicate Faultless(h: Html) {
    match h
    case Item(_, children) => forall i | 0 <= i < |children| :: Faultless(children[i])
    case TooDeep => true
    case _ => false
  }

  ghost predicate Truncated(h: Html) {
    match h
    case Item(_, children) => exists i :: 0 <= i < |children| && Truncated(children[i])
    case TooDeep => true
    case _ => false
  }

  /** Everything visited lies strictly above the node. */
  ghost predicate AllAbove(roots: seq<Root>, visited: set<Bid>, bid: Bid)
    requires bid in All(roots)
  {
    forall v | v in visited :: v in All(roots) && Descends(roots, v, bid)
  }

  lemma ChildBelowVisited(roots: seq<Root>, visited: set<Bid>, bid: Bid, c: Bid)
    requires bid in All(roots) && AllAbove(roots, visited, bid) && c in All(roots)[bid].children
    ensures c in All(roots) && AllAbove(roots, visited + {bid}, c) && c != bid
  {
    ChildExists(roots, bid, c);
    hide All, Owner, RankOf;
  }

  /** What the renderer makes of a node it has not visited. */
  lemma RenderedNode(nodes: Nodes, bid: Bid, depth: nat, visited: set<Bid>)
    requires bid in nodes && bid !in visited
    ensures RenderNavNode(nodes, bid, depth, visited)
         == if depth > MAX_DEPTH then TooDeep
            else Item(bid, RenderChildren(nodes, bid, nodes[bid].children, depth + 1, visited + {bid}))
  {
  }

  lemma TooDeepIsFaultless()
    ensures Faultless(TooDeep)
  {
  }

  lemma FaultlessItem(bid: Bid, page: seq<Html>)
    requires forall i | 0 <= i < |page| :: Faultless(page[i])
    ensures Faultless(Item(bid, page))
  {
  }

  /** Rendering from any node of a merged tree meets no cycle, no self-reference and no missing node. */
  lemma {:induction false} RenderFaultless(roots: seq<Root>, bid: Bid, depth: nat, visited: set<Bid>)
    requires bid in All(roots) && AllAbove(roots, visited, bid)
    ensures Faultless(RenderNavNode(All(roots), bid, depth, visited))
    decreases Budget(depth)
  {
    hide All, AllAbove, RenderChildren, RenderNavNode, Faultless;
    NotAboveItself(roots, visited, bid);
    RenderedNode(All(roots), bid, depth, visited);
    if depth > MAX_DEPTH {
      TooDeepIsFaultless();
    } else {
      var nodes, kids := All(roots), All(roots)[bid].children;
      var page := RenderChildren(nodes, bid, kids, depth + 1, visited + {bid});
      forall i | 0 <= i < |page|
        ensures Faultless(page[i])
      {
        ChildBelowVisited(roots, visited, bid, kids[i]);
        RenderFaultless(roots, kids[i], depth + 1, visited + {bid});
        RenderedChild(nodes, bid, kids, depth + 1, visited + {bid}, i);
      }
      FaultlessItem(bid, page);
    }
  }

  /** Down to depth 50 the page mirrors the tree: an item per node, its children's pages in order inside. */
  lemma PageMirrorsTree(roots: seq<Root>, bid: Bid, depth: nat, visited: set<Bid>)
    requires bid in All(roots) && AllAbove(roots, visited, bid)
    ensures var h, kids := RenderNavNode(All(roots), bid, depth, visited), All(roots)[bid].children;
            if depth > 50 then h == TooDeep
            else
              && h.Item? && h.bid == bid && |h.children| == |kids|
              && forall i | 0 <= i < |kids| ::
                   h.children[i] == RenderNavNode(All(roots), kids[i], depth + 1, visited + {bid})
  {
    NotAboveItself(roots, visited, bid);
    RenderedNode(All(roots), bid, depth, visited);
    if depth <= 50 {
      var nodes, kids := All(roots), All(roots)[bid].children;
      hide All, AllAbove, RenderChildren, RenderNavNode;
      forall i | 0 <= i < |kids|
        ensures RenderChildren(nodes, bid, kids, depth + 1, visited + {bid})[i]
             == RenderNavNode(nodes, kids[i], depth + 1, visited + {bid})
      {
        ChildBelowVisited(roots, visited, bid, kids[i]);
        RenderedChild(nodes, bid, kids, depth + 1, visited + {bid}, i);
      }
    }
  }

  ghost predicate Reaching(nodes: Nodes, path: seq<Bid>, bid: Bid, length: nat) {
    |path| == length > 0 && path[0] == bid && IsChildChain(nodes, path)
  }

  /** A chain of `length` nodes, each a child of the one before, starts at `bid`. */
  ghost predicate HasChain(nodes: Nodes, bid: Bid, length: nat) {
    exists path :: Reaching(nodes, path, bid, length)
  }

  lemma TruncatedItem(bid: Bid, page: seq<Html>)
    ensures Truncated(Item(bid, page)) <==> exists i :: 0 <= i < |page| && Truncated(page[i])
  {
  }

  lemma ChainOfOne(nodes: Nodes, bid: Bid)
    requires bid in nodes
    ensures HasChain(nodes, bid, 1)
  {
    assert Reaching(nodes, [bid], bid, 1);
  }

  /** The depth limit cuts a page exactly when a chain of children longer than the limit hangs below. */
  lemma {:induction false} TruncatedIff(roots: seq<Root>, bid: Bid, depth: nat, visited: set<Bid>)
    requires bid in All(roots) && AllAbove(roots, visited, bid) && depth <= 51
    ensures Truncated(RenderNavNode(All(roots), bid, depth, visited)) <==> HasChain(All(roots), bid, 52 - depth)
    decreases 51 - depth
  {
    hide All, AllAbove, HasChain, RenderChildren, RenderNavNode;
    NotAboveItself(roots, visited, bid);
    RenderedNode(All(roots), bid, depth, visited);
    if depth > MAX_DEPTH {
      ChainOfOne(All(roots), bid);
    } else {
      hide Truncated;
      var nodes, kids := All(roots), All(roots)[bid].children;
      var page := RenderChildren(nodes, bid, kids, depth + 1, visited + {bid});
      forall i | 0 <= i < |page|
        ensures Truncated(page[i]) <==> HasChain(nodes, kids[i], MAX_DEPTH + 1 - depth)
      {
        ChildBelowVisited(roots, visited, bid, kids[i]);
        TruncatedIff(roots, kids[i], depth + 1, visited + {bid});
        RenderedChild(nodes, bid, kids, depth + 1, visited + {bid}, i);
      }
      TruncatedItem(bid, page);
      ChainsThroughKids(nodes, bid, MAX_DEPTH + 1 - depth);
    }
  }

  lemma NotAboveItself(roots: seq<Root>, visited: set<Bid>, bid: Bid)
    requires bid in All(roots) && AllAbove(roots, visited, bid)
    ensures bid !in visited
  {
    hide All;
  }

  lemma ChainsThroughKids(nodes: Nodes, bid: Bid, length: nat)
    requires bid in nodes && length > 0
    ensures HasChain(nodes, bid, length + 1)
            <==> exists i :: 0 <= i < |nodes[bid].children| && HasChain(nodes, nodes[bid].children[i], length)
  {
    if HasChain(nodes, bid, length + 1) {
      ChainDown(nodes, bid, length);
    }
    forall i | 0 <= i < |nodes[bid].children| && HasChain(nodes, nodes[bid].children[i], length)
      ensures HasChain(nodes, bid, length + 1)
    {
      var path :| Reaching(nodes, path, nodes[bid].children[i], length);
      assert Reaching(nodes, [bid] + path, bid, length + 1);
    }
  }

  lemma ChainDown(nodes: Nodes, bid: Bid, length: nat)
    requires bid in nodes && length > 0 && HasChain(nodes, bid, length + 1)
    ensures exists i :: 0 <= i < |nodes[bid].children| && HasChain(nodes, nodes[bid].children[i], length)
  {
    var n := length + 1;
    var path :| Reaching(nodes, path, bid, n);
    assert path[1] in nodes[path[1 - 1]].children;
    var i :| 0 <= i < |nodes[bid].children| && nodes[bid].children[i] == path[1];
    assert Reaching(nodes, path[1..], nodes[bid].children[i], length);
  }
}
