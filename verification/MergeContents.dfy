/**
 What a merge plan contains, written out on states, kinds and edges: which nodes are in scope, which are upserted
 and in what order, which edges are updated, and which Section edges the walk takes.
 */
module MergeContents {
  import opened Properties
  import opened Reachability
  import BeliefStore
  import opened BeliefGraphs
  import opened SectionWalks
  import opened MergePlans

  // ------------------------------------------------------------------ the scope

  /** Without seeds every node; with seeds, the nodes that are seeds or share an edge with one. */
  ghost predicate Near(rhs: Graph, seeds: Option<set<Bid>>, n: Bid) {
    && n in rhs.states
    && (seeds.Some? ==>
          n in seeds.value || exists m: Bid :: m in seeds.value && ((n, m) in rhs.relations || (m, n) in rhs.relations))
  }

  lemma ScopeIs(rhs: Graph, seeds: Option<set<Bid>>, n: Bid)
    ensures n in Scope(rhs, seeds) <==> Near(rhs, seeds, n)
  {
    if seeds.Some? {
      var touched := set e | e in rhs.relations && Touches(e, seeds.value);
      if n in Endpoints(touched) && n !in seeds.value {
        var e :| e in touched && (e.0 == n || e.1 == n);
        var m := if e.0 == n then e.1 else e.0;
        assert e == if e.0 == n then (n, m) else (m, n);
      }
      if m :| m in seeds.value && ((n, m) in rhs.relations || (m, n) in rhs.relations) {
        var e := if (n, m) in rhs.relations then (n, m) else (m, n);
        assert e in touched;
      }
    }
  }

  /** An edge of `rhs` with an end in scope. */
  ghost predicate NearEdge(rhs: Graph, seeds: Option<set<Bid>>, e: Edge) {
    e in rhs.relations && (Near(rhs, seeds, e.0) || Near(rhs, seeds, e.1))
  }

  // ------------------------------------------------------------------ nodes

  /**
   A node is upserted exactly if `rhs` has it, its own id is in scope, and the base lacks that id or holds it as
   Trace.
   */
  lemma PlannedNodes(lhs: Graph, rhs: Graph, seeds: Option<set<Bid>>, ops: seq<MergeOp>, node: BeliefNode)
    requires IsPlanList(lhs, rhs, seeds, ops)
    ensures NodeUpsert(node) in ops <==>
            && (exists b :: b in rhs.states && rhs.states[b] == node)
            && Near(rhs, seeds, node.bid)
            && (node.bid in lhs.states ==> Trace in lhs.states[node.bid].kind)
  {
    var nodes, tree: seq<Edge>, rest :| IsPlan(lhs, rhs, seeds, nodes, tree, rest) && PlanKnown(rhs, tree, rest)
      && ops == nodes + Updates(rhs.relations, FlipAll(tree)) + Updates(rhs.relations, rest);
    UpdatesCarry(rhs.relations, FlipAll(tree));
    UpdatesCarry(rhs.relations, rest);
    UpsertsMember(rhs.states, Wanted(lhs.states, rhs.states, Scope(rhs, seeds)), NodeUpsert(node));
    ScopeIs(rhs, seeds, node.bid);
    hide Scope, Near, Updates, FlipAll, Upserts;
    assert NodeUpsert(node) in ops <==> NodeUpsert(node) in nodes;
  }

  /** The nodes come first, by ascending key. */
  lemma NodesComeFirst(lhs: Graph, rhs: Graph, seeds: Option<set<Bid>>, ops: seq<MergeOp>) returns (keys: seq<Bid>)
    requires IsPlanList(lhs, rhs, seeds, ops)
    ensures |keys| <= |ops| && forall i, j | 0 <= i < j < |keys| :: keys[i] < keys[j]
    ensures forall i | 0 <= i < |keys| :: keys[i] in rhs.states && ops[i] == NodeUpsert(rhs.states[keys[i]])
    ensures forall i | |keys| <= i < |ops| :: ops[i].RelationUpdate?
  {
    var nodes, tree: seq<Edge>, rest :| IsPlan(lhs, rhs, seeds, nodes, tree, rest) && PlanKnown(rhs, tree, rest)
      && ops == nodes + Updates(rhs.relations, FlipAll(tree)) + Updates(rhs.relations, rest);
    NodesAhead(nodes, Updates(rhs.relations, FlipAll(tree)), Updates(rhs.relations, rest), ops);
    hide Scope, Upserts, IsWalk, Remaining, Wanted, Updates;
    keys := UpsertsAscend(rhs.states, Wanted(lhs.states, rhs.states, Scope(rhs, seeds)));
  }

  lemma NodesAhead(nodes: seq<MergeOp>, walked: seq<MergeOp>, others: seq<MergeOp>, ops: seq<MergeOp>)
    requires ops == nodes + walked + others
    requires forall i | 0 <= i < |walked| :: walked[i].RelationUpdate?
    requires forall i | 0 <= i < |others| :: others[i].RelationUpdate?
    ensures |nodes| <= |ops| && forall i | 0 <= i < |nodes| :: ops[i] == nodes[i]
    ensures forall i | |nodes| <= i < |ops| :: ops[i].RelationUpdate?
  {
  }

  lemma {:induction false} UpsertsAscend(rhs: States, wanted: set<Bid>) returns (keys: seq<Bid>)
    requires wanted <= rhs.Keys
    ensures |keys| == |Upserts(rhs, wanted)| && forall i, j | 0 <= i < j < |keys| :: keys[i] < keys[j]
    ensures forall i | 0 <= i < |keys| :: keys[i] in wanted && Upserts(rhs, wanted)[i] == NodeUpsert(rhs[keys[i]])
    decreases wanted
  {
    if wanted == {} {
      keys := [];
    } else {
      var last := BeliefStore.MaxOf(wanted);
      var fewer := wanted - {last};
      var before := UpsertsAscend(rhs, fewer);
      assert Upserts(rhs, wanted) == Upserts(rhs, fewer) + [NodeUpsert(rhs[last])];
      hide Upserts;
      assert forall i | 0 <= i < |before| :: before[i] in fewer;
      keys := before + [last];
    }
  }

  // ------------------------------------------------------------------ edges

  predicate Updating(op: MergeOp, e: Edge) {
    op.RelationUpdate? && op.source == e.0 && op.sink == e.1
  }

  /** The base has the edge with the same kinds and, kind by kind, the same sort key. */
  ghost predicate HasAlready(lhs: Relations, e: Edge, ws: WeightSet) {
    && e in lhs
    && forall k: WeightKind ::
         (k in ws <==> k in lhs[e]) && (k in ws && k in lhs[e] ==> lhs[e][k].sortKey == ws[k].sortKey)
  }

  lemma {:induction false} EmittedOnce(ops: seq<MergeOp>, e: Edge)
    ensures Emissions(ops, e) == 0 <==> forall i | 0 <= i < |ops| :: !Updating(ops[i], e)
    ensures Emissions(ops, e) <= 1 <==>
            forall i, j | 0 <= i < j < |ops| :: !(Updating(ops[i], e) && Updating(ops[j], e))
  {
    if ops != [] {
      var n := |ops| - 1;
      EmittedOnce(ops[..n], e);
      assert forall i | 0 <= i < n :: ops[..n][i] == ops[i];
      hide Emissions;
      assert Emissions(ops, e) == Emissions(ops[..n], e) + (if Updating(ops[n], e) then 1 else 0) by {
        LastEmission(ops, e);
      }
      if Updating(ops[n], e) && Emissions(ops[..n], e) > 0 {
        var i :| 0 <= i < n && Updating(ops[..n][i], e);
        assert Updating(ops[i], e) && Updating(ops[n], e);
      }
    }
  }

  lemma LastEmission(ops: seq<MergeOp>, e: Edge)
    requires ops != []
    ensures var n := |ops| - 1;
            Emissions(ops, e) == Emissions(ops[..n], e) + (if Updating(ops[n], e) then 1 else 0)
  {
  }

  /**
   An edge is updated at most once, with the weights of `rhs`, and only if it has an end in scope. It is updated for
   sure if the base does not have it already; if it does, only as a Section edge.
   */
  lemma PlannedEdges(lhs: Graph, rhs: Graph, seeds: Option<set<Bid>>, ops: seq<MergeOp>, e: Edge)
    requires IsPlanList(lhs, rhs, seeds, ops)
    ensures forall i, j | 0 <= i < j < |ops| :: !(Updating(ops[i], e) && Updating(ops[j], e))
    ensures forall op | op in ops && Updating(op, e) :: NearEdge(rhs, seeds, e) && op.weights == rhs.relations[e]
    ensures NearEdge(rhs, seeds, e) && !HasAlready(lhs.relations, e, rhs.relations[e]) ==>
              exists op :: op in ops && Updating(op, e)
    ensures NearEdge(rhs, seeds, e) && HasAlready(lhs.relations, e, rhs.relations[e]) ==>
              Section in rhs.relations[e] || forall op | op in ops :: !Updating(op, e)
  {
    var nodes, tree: seq<Edge>, rest :| IsPlan(lhs, rhs, seeds, nodes, tree, rest) && PlanKnown(rhs, tree, rest)
      && ops == nodes + Updates(rhs.relations, FlipAll(tree)) + Updates(rhs.relations, rest);
    MergeIsExact(lhs, rhs, seeds, nodes, tree, rest, e);
    TreeIsSection(lhs, rhs, seeds, nodes, tree, rest, e);
    NearTouches(rhs, seeds, e);
    assert e in rhs.relations ==>
        (Present(lhs.relations, e, rhs.relations[e]) <==> HasAlready(lhs.relations, e, rhs.relations[e])) by {
      hide *;
      PresentIs(lhs.relations, e, if e in rhs.relations then rhs.relations[e] else map[]);
    }
    EmittedOnce(ops, e);
    hide IsPlan, PlanKnown, IsPlanList, Updates, FlipAll, Emissions, Scope, Touches, Near, Present, HasAlready;
    assert forall op | op in ops && Updating(op, e) :: (op.source, op.sink) == e;
  }

  lemma PresentIs(lhs: Relations, e: Edge, ws: WeightSet)
    ensures Present(lhs, e, ws) <==> HasAlready(lhs, e, ws)
  {
    if HasAlready(lhs, e, ws) {
      assert lhs[e].Keys == ws.Keys;
    }
  }

  lemma NearTouches(rhs: Graph, seeds: Option<set<Bid>>, e: Edge)
    ensures NearEdge(rhs, seeds, e) <==> e in rhs.relations && Touches(e, Scope(rhs, seeds))
  {
    ScopeIs(rhs, seeds, e.0);
    ScopeIs(rhs, seeds, e.1);
    hide Scope, Near;
  }

  lemma TreeIsSection(lhs: Graph, rhs: Graph, seeds: Option<set<Bid>>, nodes: seq<MergeOp>, tree: seq<Edge>,
      rest: seq<Edge>, e: Edge)
    requires IsPlan(lhs, rhs, seeds, nodes, tree, rest)
    ensures (e.1, e.0) in tree ==> SectionEdge(rhs, seeds, e.0, e.1)
  {
    if (e.1, e.0) in tree {
      LinkIs(rhs, seeds, (e.1, e.0));
    }
  }

  // ------------------------------------------------------------------ the walk

  /** A Section edge from a child to a parent, with an end in scope. */
  ghost predicate SectionEdge(rhs: Graph, seeds: Option<set<Bid>>, child: Bid, parent: Bid) {
    NearEdge(rhs, seeds, (child, parent)) && Section in rhs.relations[(child, parent)]
  }

  /** From a parent that is nobody's child down Section edges, one step at least. */
  ghost predicate Descent(rhs: Graph, seeds: Option<set<Bid>>, p: seq<Bid>) {
    && |p| > 1
    && (exists c: Bid :: SectionEdge(rhs, seeds, c, p[0]))
    && (forall up: Bid :: !SectionEdge(rhs, seeds, p[0], up))
    && forall i | 0 <= i < |p| - 1 :: SectionEdge(rhs, seeds, p[i + 1], p[i])
  }

  lemma LinkIs(rhs: Graph, seeds: Option<set<Bid>>, l: Edge)
    ensures l in SectionLinks(rhs.relations, Scope(rhs, seeds)) <==> SectionEdge(rhs, seeds, l.1, l.0)
  {
    LinkIsEdge(rhs.relations, Scope(rhs, seeds), l);
    NearTouches(rhs, seeds, (l.1, l.0));
    hide Scope, Near, Touches, SectionLinks;
  }

  lemma RootIs(links: set<Edge>, n: Bid)
    ensures n in WalkRoots(links) <==> (exists l :: l in links && l.0 == n) && !exists l :: l in links && l.1 == n
  {
  }

  /** The walk starts exactly at the parents that are nobody's child. */
  lemma TopIs(rhs: Graph, seeds: Option<set<Bid>>, n: Bid)
    ensures n in WalkRoots(SectionLinks(rhs.relations, Scope(rhs, seeds))) <==>
            (exists c: Bid :: SectionEdge(rhs, seeds, c, n)) && forall up: Bid :: !SectionEdge(rhs, seeds, n, up)
  {
    var links := SectionLinks(rhs.relations, Scope(rhs, seeds));
    forall l: Edge {
      LinkIs(rhs, seeds, l);
    }
    RootIs(links, n);
    hide SectionLinks, Scope, SectionEdge, WalkRoots;
    forall c: Bid ensures SectionEdge(rhs, seeds, c, n) <==> (n, c) in links {
      assert (n, c).0 == n && (n, c).1 == c;
    }
    forall up: Bid ensures SectionEdge(rhs, seeds, n, up) <==> (up, n) in links {
      assert (up, n).0 == up && (up, n).1 == n;
    }
    assert (exists l :: l in links && l.0 == n) <==> exists c: Bid :: (n, c) in links by {
      if l :| l in links && l.0 == n {
        assert l == (n, l.1);
      }
    }
    assert (exists l :: l in links && l.1 == n) <==> exists up: Bid :: (up, n) in links by {
      if l :| l in links && l.1 == n {
        assert l == (l.0, n);
      }
    }
  }

  /**
   Every node below such a parent is the source of exactly one walked edge, which is updated whether the base has it
   or not; no other node is.
   */
  lemma WalkCovers(lhs: Graph, rhs: Graph, seeds: Option<set<Bid>>, nodes: seq<MergeOp>, tree: seq<Edge>,
      rest: seq<Edge>, n: Bid)
    requires IsPlan(lhs, rhs, seeds, nodes, tree, rest)
    ensures (exists i :: 0 <= i < |tree| && tree[i].1 == n) <==> exists p :: Descent(rhs, seeds, p) && p[|p| - 1] == n
    ensures forall i, j | 0 <= i < j < |tree| :: tree[i].1 != tree[j].1
  {
    var links := SectionLinks(rhs.relations, Scope(rhs, seeds));
    var roots := WalkRoots(links);
    assert IsWalk(links, roots, tree);
    if i :| 0 <= i < |tree| && tree[i].1 == n {
      assert FoundBefore(tree, |tree|, n) && n !in roots;
      var p :| Connects(links, p, roots, n);
      ConnectsDescends(rhs, seeds, p, n);
    }
    if p :| Descent(rhs, seeds, p) && p[|p| - 1] == n {
      DescentConnects(rhs, seeds, p);
      assert Reaches(links, roots, n);
    }
  }

  lemma ConnectsDescends(rhs: Graph, seeds: Option<set<Bid>>, p: seq<Bid>, n: Bid)
    requires var links := SectionLinks(rhs.relations, Scope(rhs, seeds));
             Connects(links, p, WalkRoots(links), n) && n !in WalkRoots(links)
    ensures Descent(rhs, seeds, p) && p[|p| - 1] == n
  {
    TopIs(rhs, seeds, p[0]);
    hide SectionLinks, WalkRoots, Scope, SectionEdge;
    forall i | 0 <= i < |p| - 1 ensures SectionEdge(rhs, seeds, p[i + 1], p[i]) {
      LinkIs(rhs, seeds, (p[i], p[i + 1]));
    }
  }

  lemma DescentConnects(rhs: Graph, seeds: Option<set<Bid>>, p: seq<Bid>)
    requires Descent(rhs, seeds, p)
    ensures var links, n := SectionLinks(rhs.relations, Scope(rhs, seeds)), p[|p| - 1];
            Connects(links, p, WalkRoots(links), n) && n !in WalkRoots(links)
  {
    var n := |p| - 1;
    TopIs(rhs, seeds, p[0]);
    TopIs(rhs, seeds, p[n]);
    hide SectionLinks, WalkRoots, Scope, SectionEdge;
    forall i | 0 <= i < n ensures (p[i], p[i + 1]) in SectionLinks(rhs.relations, Scope(rhs, seeds)) {
      LinkIs(rhs, seeds, (p[i], p[i + 1]));
    }
    assert SectionEdge(rhs, seeds, p[n - 1 + 1], p[n - 1]);
  }

  /** So such a node has a Section edge updated. */
  lemma ChildIsSent(lhs: Graph, rhs: Graph, seeds: Option<set<Bid>>, ops: seq<MergeOp>, p: seq<Bid>)
    requires IsPlanList(lhs, rhs, seeds, ops) && Descent(rhs, seeds, p)
    ensures var n := p[|p| - 1];
            exists up: Bid, op :: SectionEdge(rhs, seeds, n, up) && op in ops && Updating(op, (n, up))
  {
    var n := p[|p| - 1];
    var nodes, tree: seq<Edge>, rest :| IsPlan(lhs, rhs, seeds, nodes, tree, rest) && PlanKnown(rhs, tree, rest)
      && ops == nodes + Updates(rhs.relations, FlipAll(tree)) + Updates(rhs.relations, rest);
    WalkCovers(lhs, rhs, seeds, nodes, tree, rest, n);
    hide IsPlan, PlanKnown, Updates, FlipAll, Descent, SectionEdge, IsPlanList, Updating;
    var i :| 0 <= i < |tree| && tree[i].1 == n;
    var e := (n, tree[i].0);
    assert tree[i] == (e.1, e.0);
    TreeIsSection(lhs, rhs, seeds, nodes, tree, rest, e);
    TreeIsSent(lhs, rhs, seeds, nodes, tree, rest, ops, e);
  }

  /** No node has two edges updated that the base has already. */
  lemma OneIsResent(lhs: Graph, rhs: Graph, seeds: Option<set<Bid>>, ops: seq<MergeOp>, n: Bid, a: Bid, b: Bid,
      x: MergeOp, y: MergeOp)
    requires IsPlanList(lhs, rhs, seeds, ops) && x in ops && y in ops && Updating(x, (n, a)) && Updating(y, (n, b))
    requires HasAlready(lhs.relations, (n, a), x.weights) && HasAlready(lhs.relations, (n, b), y.weights)
    ensures a == b
  {
    var nodes, tree: seq<Edge>, rest :| IsPlan(lhs, rhs, seeds, nodes, tree, rest) && PlanKnown(rhs, tree, rest)
      && ops == nodes + Updates(rhs.relations, FlipAll(tree)) + Updates(rhs.relations, rest);
    WalkCovers(lhs, rhs, seeds, nodes, tree, rest, n);
    hide IsPlan, PlanKnown, Updates, FlipAll, Descent, HasAlready, IsPlanList;
    SentIsWalked(lhs, rhs, seeds, nodes, tree, rest, ops, x, (n, a));
    SentIsWalked(lhs, rhs, seeds, nodes, tree, rest, ops, y, (n, b));
  }

  lemma TreeIsSent(lhs: Graph, rhs: Graph, seeds: Option<set<Bid>>, nodes: seq<MergeOp>, tree: seq<Edge>,
      rest: seq<Edge>, ops: seq<MergeOp>, e: Edge)
    requires IsPlan(lhs, rhs, seeds, nodes, tree, rest) && PlanKnown(rhs, tree, rest) && (e.1, e.0) in tree
    requires ops == nodes + Updates(rhs.relations, FlipAll(tree)) + Updates(rhs.relations, rest)
    ensures exists op :: op in ops && Updating(op, e)
  {
    MergeIsExact(lhs, rhs, seeds, nodes, tree, rest, e);
    TreeIsSection(lhs, rhs, seeds, nodes, tree, rest, e);
    NearTouches(rhs, seeds, e);
    EmittedOnce(ops, e);
    hide IsPlan, PlanKnown, Updates, FlipAll, Emissions, Scope, Touches, Near, Present, Updating;
    var i :| 0 <= i < |ops| && Updating(ops[i], e);
    assert ops[i] in ops;
  }

  lemma SentIsWalked(lhs: Graph, rhs: Graph, seeds: Option<set<Bid>>, nodes: seq<MergeOp>, tree: seq<Edge>,
      rest: seq<Edge>, ops: seq<MergeOp>, op: MergeOp, e: Edge)
    requires IsPlan(lhs, rhs, seeds, nodes, tree, rest) && PlanKnown(rhs, tree, rest)
    requires ops == nodes + Updates(rhs.relations, FlipAll(tree)) + Updates(rhs.relations, rest)
    requires op in ops && Updating(op, e) && HasAlready(lhs.relations, e, op.weights)
    ensures (e.1, e.0) in tree
  {
    MergeIsExact(lhs, rhs, seeds, nodes, tree, rest, e);
    EmittedOnce(ops, e);
    PresentIs(lhs.relations, e, op.weights);
    hide IsPlan, PlanKnown, Updates, FlipAll, Emissions, Scope, Touches, Present, HasAlready;
    assert (op.source, op.sink) == e;
    var i :| 0 <= i < |ops| && ops[i] == op;
  }
}
