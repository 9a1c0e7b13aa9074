/**
 Merging the networks' navigation trees (src/wasm.rs, `get_nav_tree`) and the viewer code that walks
 the result (assets/viewer/navigation.js). Later networks overwrite nodes of earlier ones, so the
 merged map is no longer a forest of inverse links; both chains still end.
 */
module NavMerge {
  import opened Properties
  import opened NavTree

  /**
   One entry of the path map table: the network it resolves to, if any, whether that id is reserved,
   the ids its own recursive map reaches, and the entries listed for it in the second pass.
   */
  datatype Network = Network(net: Option<Bid>, reserved: bool, reachable: set<Bid>, entries: seq<Entry>)

  datatype Root = Root(net: Bid, entries: seq<Entry>)

  datatype Tree = Tree(nodes: Nodes, roots: seq<Bid>)

  function Final(r: Root): Build {
    Filed(r.net, r.entries, |r.entries|)
  }

  predicate Resolved(n: Network) {
    n.net.Some? && !n.reserved
  }

  /** `b` is found to be a network below another one. */
  ghost predicate IsSubnet(networks: seq<Network>, nets: set<Bid>, b: Bid) {
    exists k :: 0 <= k < |networks| && Discovers(networks[k], nets, b)
  }

  predicate Discovers(n: Network, nets: set<Bid>, b: Bid) {
    Resolved(n) && b in n.reachable && b in nets && b != n.net.value
  }

  /** The networks that become roots, among the first `k`. */
  ghost function RootsOf(networks: seq<Network>, nets: set<Bid>, k: nat): seq<Root>
    requires k <= |networks|
  {
    if k == 0 then []
    else
      var n := networks[k - 1];
      var before := RootsOf(networks, nets, k - 1);
      if Resolved(n) && !IsSubnet(networks, nets, n.net.value) then before + [Root(n.net.value, n.entries)]
      else before
  }

  /** Each root's nodes in turn, later ones overwriting. */
  function Merged(roots: seq<Root>, k: nat): Nodes
    requires k <= |roots|
  {
    if k == 0 then map[] else Merged(roots, k - 1) + Final(roots[k - 1]).nodes
  }

  function All(roots: seq<Root>): Nodes {
    Merged(roots, |roots|)
  }

  /** The network gets a tree of its own: it resolves, is not reserved and lies below no other such network. */
  ghost predicate IsTop(networks: seq<Network>, nets: set<Bid>, k: nat)
    requires k < |networks|
  {
    && networks[k].net.Some? && !networks[k].reserved
    && forall m | 0 <= m < |networks| && networks[m].net.Some? && !networks[m].reserved
         && networks[m].net.value != networks[k].net.value ::
         networks[k].net.value !in networks[m].reachable || networks[k].net.value !in nets
  }

  /** The roots are the top networks among the first `n`, in table order, each with its entries. */
  ghost predicate ListsTops(networks: seq<Network>, nets: set<Bid>, n: nat, roots: seq<Root>, tops: seq<nat>)
    requires n <= |networks|
  {
    && |tops| == |roots|
    && (forall i, j | 0 <= i < j < |tops| :: tops[i] < tops[j])
    && (forall i | 0 <= i < |tops| ::
          tops[i] < n && networks[tops[i]].net.Some?
          && roots[i] == Root(networks[tops[i]].net.value, networks[tops[i]].entries))
    && forall k: nat :: k in tops <==> k < n && IsTop(networks, nets, k)
  }

  lemma {:induction false} RootsAre(networks: seq<Network>, nets: set<Bid>, n: nat) returns (tops: seq<nat>)
    requires n <= |networks|
    ensures ListsTops(networks, nets, n, RootsOf(networks, nets, n), tops)
  {
    hide IsTop, IsSubnet, ListsTops, Resolved;
    if n == 0 {
      tops := [];
      NoTops(networks, nets);
    } else {
      var before := RootsAre(networks, nets, n - 1);
      TopIs(networks, nets, n - 1);
      RootNext(networks, nets, n - 1);
      hide RootsOf;
      if IsTop(networks, nets, n - 1) {
        TopAdded(networks, nets, n - 1, RootsOf(networks, nets, n - 1), before);
        tops := before + [n - 1];
      } else {
        NoTopAdded(networks, nets, n - 1, RootsOf(networks, nets, n - 1), before);
        tops := before;
      }
    }
  }

  lemma NoTops(networks: seq<Network>, nets: set<Bid>)
    ensures ListsTops(networks, nets, 0, RootsOf(networks, nets, 0), [])
  {
  }

  lemma RootNext(networks: seq<Network>, nets: set<Bid>, n: nat)
    requires n < |networks|
    ensures var before, b := RootsOf(networks, nets, n), networks[n];
            RootsOf(networks, nets, n + 1) == (
              if Resolved(b) && !IsSubnet(networks, nets, b.net.value) then before + [Root(b.net.value, b.entries)]
              else before)
  {
    hide IsSubnet;
  }

  lemma TopAdded(networks: seq<Network>, nets: set<Bid>, n: nat, roots: seq<Root>, tops: seq<nat>)
    requires n < |networks| && ListsTops(networks, nets, n, roots, tops)
    requires IsTop(networks, nets, n) && networks[n].net.Some?
    ensures ListsTops(networks, nets, n + 1, roots + [Root(networks[n].net.value, networks[n].entries)], tops + [n])
  {
    hide IsTop;
    forall k: nat ensures k in tops + [n] <==> k < n + 1 && IsTop(networks, nets, k) {
      AppendedMember(tops, n, k);
    }
  }

  lemma NoTopAdded(networks: seq<Network>, nets: set<Bid>, n: nat, roots: seq<Root>, tops: seq<nat>)
    requires n < |networks| && ListsTops(networks, nets, n, roots, tops) && !IsTop(networks, nets, n)
    ensures ListsTops(networks, nets, n + 1, roots, tops)
  {
    hide IsTop;
  }

  lemma TopIs(networks: seq<Network>, nets: set<Bid>, k: nat)
    requires k < |networks|
    ensures IsTop(networks, nets, k) <==> Resolved(networks[k]) && !IsSubnet(networks, nets, networks[k].net.value)
    ensures IsTop(networks, nets, k) ==> networks[k].net.Some?
  {
    if Resolved(networks[k]) {
      var b := networks[k].net.value;
      forall m | 0 <= m < |networks| && networks[m].net.Some? && !networks[m].reserved && networks[m].net.value != b
        ensures b in networks[m].reachable && b in nets ==> Discovers(networks[m], nets, b)
      {
      }
    }
  }

  // ------------------------------------------------------------------ who owns a node

  /** The last of the first `k` roots that has the node. */
  function OwnerAmong(roots: seq<Root>, k: nat, n: Bid): (o: nat)
    requires k <= |roots| && n in Merged(roots, k)
    ensures o < k && n in Final(roots[o]).nodes && Merged(roots, k)[n] == Final(roots[o]).nodes[n]
    ensures forall i | o < i < k :: n !in Final(roots[i]).nodes
  {
    if n in Final(roots[k - 1]).nodes then k - 1 else OwnerAmong(roots, k - 1, n)
  }

  function Owner(roots: seq<Root>, n: Bid): (o: nat)
    requires n in All(roots)
    ensures o < |roots| && n in Final(roots[o]).nodes && All(roots)[n] == Final(roots[o]).nodes[n]
    ensures forall i | o < i < |roots| :: n !in Final(roots[i]).nodes
  {
    OwnerAmong(roots, |roots|, n)
  }

  function RankOf(roots: seq<Root>, n: Bid): nat
    requires n in All(roots)
  {
    Rank(Final(roots[Owner(roots, n)]).inserted, n)
  }

  lemma {:induction false} MergedHas(roots: seq<Root>, k: nat, i: nat, n: Bid)
    requires i < k <= |roots| && n in Final(roots[i]).nodes
    ensures n in Merged(roots, k)
  {
    hide Final;
    if i == k - 1 {
    } else {
      MergedHas(roots, k - 1, i, n);
    }
  }

  /** Neighbours in the owner's own tree are nodes of the merged map, owned there or later. */
  lemma NeighbourOwned(roots: seq<Root>, n: Bid, m: Bid)
    requires n in All(roots) && m in Final(roots[Owner(roots, n)]).nodes
    ensures m in All(roots) && Owner(roots, n) <= Owner(roots, m)
  {
    hide Final;
    MergedHas(roots, |roots|, Owner(roots, n), m);
  }

  /** `p` is later owned than `n`, or filed before it in the same network. */
  predicate Climbs(roots: seq<Root>, n: Bid, p: Bid)
    requires n in All(roots) && p in All(roots)
  {
    var o := Owner(roots, n);
    o < Owner(roots, p) || (o == Owner(roots, p) && RankOf(roots, p) < RankOf(roots, n))
  }

  /** `c` is later owned than `n`, or filed after it in the same network. */
  predicate Descends(roots: seq<Root>, n: Bid, c: Bid)
    requires n in All(roots) && c in All(roots)
  {
    var o := Owner(roots, n);
    o < Owner(roots, c) || (o == Owner(roots, c) && RankOf(roots, n) < RankOf(roots, c))
  }

  lemma OwnForest(r: Root, n: Bid)
    requires n in Final(r).nodes
    ensures ParentKept(r.net, Final(r).nodes, Final(r).inserted, n) && ChildrenKept(Final(r).nodes, n)
    ensures Rank(Final(r).inserted, n) < |Final(r).inserted|
    ensures forall c | c in Final(r).nodes[n].children ::
              c in Final(r).nodes && Final(r).nodes[c].parent == Some(n)
                  && Rank(Final(r).inserted, n) < Rank(Final(r).inserted, c)
  {
    NetworkIsForest(r.net, r.entries, |r.entries|);
    hide Filed;
    var b := Final(r);
    forall c | c in b.nodes[n].children
      ensures c in b.nodes && b.nodes[c].parent == Some(n) && Rank(b.inserted, n) < Rank(b.inserted, c)
    {
      assert ChildrenKept(b.nodes, n);
      assert ParentKept(r.net, b.nodes, b.inserted, c);
    }
  }

  /** Every parent named in the merged map is a node of it, and the climb makes progress. */
  lemma ParentExists(roots: seq<Root>, n: Bid)
    requires n in All(roots) && All(roots)[n].parent.Some?
    ensures All(roots)[n].parent.value in All(roots)
    ensures Climbs(roots, n, All(roots)[n].parent.value)
  {
    var r := roots[Owner(roots, n)];
    OwnForest(r, n);
    hide Final, All;
    NeighbourOwned(roots, n, Final(r).nodes[n].parent.value);
  }

  /** Every child named in the merged map is a node of it, and the descent makes progress. */
  lemma ChildExists(roots: seq<Root>, n: Bid, c: Bid)
    requires n in All(roots) && c in All(roots)[n].children
    ensures c in All(roots)
    ensures Descends(roots, n, c)
  {
    var r := roots[Owner(roots, n)];
    OwnForest(r, n);
    hide Final, All;
    NeighbourOwned(roots, n, c);
  }

  /** A node is among its parent's children exactly when one network owns both. */
  lemma ParentListsChildIff(roots: seq<Root>, n: Bid)
    requires n in All(roots) && All(roots)[n].parent.Some?
    ensures var p := All(roots)[n].parent.value;
            p in All(roots) && (n in All(roots)[p].children <==> Owner(roots, p) == Owner(roots, n))
  {
    var p := All(roots)[n].parent.value;
    ParentExists(roots, n);
    OwnForest(roots[Owner(roots, n)], n);
    OwnForest(roots[Owner(roots, p)], p);
    hide Final, All, ChildrenKept;
  }

  // ------------------------------------------------------------------ no cycles

  ghost predicate IsParentChain(nodes: Nodes, path: seq<Bid>) {
    && (forall i | 0 <= i < |path| :: path[i] in nodes)
    && forall i | 0 < i < |path| :: nodes[path[i - 1]].parent == Some(path[i])
  }

  ghost predicate IsChildChain(nodes: Nodes, path: seq<Bid>) {
    && (forall i | 0 <= i < |path| :: path[i] in nodes)
    && forall i | 0 < i < |path| :: path[i] in nodes[path[i - 1]].children
  }

  /** No chain of parents in the merged map returns to where it started. */
  lemma {:induction false} ParentsAcyclic(roots: seq<Root>, path: seq<Bid>)
    requires |path| > 1 && IsParentChain(All(roots), path)
    ensures Climbs(roots, path[0], path[|path| - 1])
    ensures path[0] != path[|path| - 1]
  {
    hide All, Owner, RankOf;
    assert All(roots)[path[|path| - 2]].parent == Some(path[|path| - 1]);
    ParentExists(roots, path[|path| - 2]);
    if |path| <= 2 {
    } else {
      ParentsAcyclic(roots, path[..|path| - 1]);
    }
  }

  /** No chain of children in the merged map returns to where it started. */
  lemma {:induction false} ChildrenAcyclic(roots: seq<Root>, path: seq<Bid>)
    requires |path| > 1 && IsChildChain(All(roots), path)
    ensures Descends(roots, path[0], path[|path| - 1])
    ensures path[0] != path[|path| - 1]
  {
    hide All, Owner, RankOf;
    ChildExists(roots, path[|path| - 2], path[|path| - 1]);
    if |path| <= 2 {
    } else {
      ChildrenAcyclic(roots, path[..|path| - 1]);
    }
  }

  /** When the second pass lists no more than the first one found, every root is a top. */
  lemma RootsAreTops(networks: seq<Network>, nets: set<Bid>, r: Root)
    requires forall k | 0 <= k < |networks| && Resolved(networks[k]) ::
               networks[k].net.value in nets && forall e | e in networks[k].entries :: e.bid in networks[k].reachable
    requires r in RootsOf(networks, nets, |networks|)
    ensures var roots := RootsOf(networks, nets, |networks|);
            r.net in All(roots) && All(roots)[r.net].parent == None
  {
    hide Final;
    var roots := RootsOf(networks, nets, |networks|);
    var i :| 0 <= i < |roots| && roots[i] == r;
    RootFiled(r);
    MergedHas(roots, |roots|, i, r.net);
    var owner := roots[Owner(roots, r.net)];
    OwnForest(owner, r.net);
    if owner.net != r.net {
      hide Owner, IsSubnet;
      var k := RootOrigin(networks, nets, |networks|, r);
      var m := RootOrigin(networks, nets, |networks|, owner);
      EntryOf(owner, r.net);
      FoundBelow(networks, nets, m, r.net);
    }
  }

  lemma FoundBelow(networks: seq<Network>, nets: set<Bid>, m: nat, b: Bid)
    requires m < |networks| && Discovers(networks[m], nets, b)
    ensures IsSubnet(networks, nets, b)
  {
  }

  lemma RootFiled(r: Root)
    ensures r.net in Final(r).nodes
  {
    NetworkIsForest(r.net, r.entries, |r.entries|);
  }

  lemma EntryOf(r: Root, n: Bid)
    requires n in Final(r).nodes && n != r.net
    ensures exists e :: e in r.entries && e.bid == n
  {
    hide Filed;
    FiledIds(r.net, r.entries, |r.entries|, n);
    var i :| 0 <= i < |r.entries| && Active(r.net, r.entries[i]) && r.entries[i].bid == n;
    assert r.entries[i] in r.entries;
  }

  lemma {:induction false} RootOrigin(networks: seq<Network>, nets: set<Bid>, n: nat, r: Root) returns (k: nat)
    requires n <= |networks| && r in RootsOf(networks, nets, n)
    ensures k < n && Resolved(networks[k]) && networks[k].net == Some(r.net) && networks[k].entries == r.entries
    ensures !IsSubnet(networks, nets, r.net)
  {
    hide IsSubnet;
    if r in RootsOf(networks, nets, n - 1) {
      k := RootOrigin(networks, nets, n - 1, r);
    } else {
      k := n - 1;
    }
  }

  /**
   The inverse does not survive the merge: the second network re-files node 3 without its child,
   which still names 3 as its parent.
   */
  lemma MergeCanDropChild()
    ensures var roots := [Root(1, [Entry(3, [0]), Entry(4, [0, 0])]), Root(2, [Entry(3, [0])])];
            && 3 in All(roots) && 4 in All(roots)
            && All(roots)[4].parent == Some(3) && All(roots)[3].children == []
  {
    var e, f := Entry(3, [0]), Entry(4, [0, 0]);
    var r, s := Root(1, [e, f]), Root(2, [e]);
    assert Filed(1, [e, f], 1) == File(Start(1), 3, 1);
    assert Filed(1, [e, f], 2) == File(Filed(1, [e, f], 1), 4, 2);
    assert Filed(2, [e], 1) == File(Start(2), 3, 1);
    assert Merged([r, s], 0) == map[];
    assert Merged([r, s], 1) == Final(r).nodes;
  }

  // ------------------------------------------------------------------ building the tree

  method PopStack(open: seq<(Bid, nat)>, depth: nat) returns (stack: seq<(Bid, nat)>)
    requires open != []
    ensures stack == PopTo(open, depth)
  {
    stack := open;
    while |stack| > 1 && stack[|stack| - 1].1 >= depth
      invariant stack != [] && PopTo(stack, depth) == PopTo(open, depth)
      decreases |stack|
    {
      stack := stack[..|stack| - 1];
    }
  }

  /** One entry: pop to the parent level, skip repeats, hang the node under the stack's top. */
  method FileEntry(net: Bid, e: Entry, nodes: Nodes, ghost inserted: seq<Bid>, stack: seq<(Bid, nat)>)
    returns (filed: Nodes, ghost listed: seq<Bid>, open: seq<(Bid, nat)>)
    requires StackKnown(Build(nodes, inserted, stack))
    ensures filed == Step(net, Build(nodes, inserted, stack), e).nodes
    ensures open == Step(net, Build(nodes, inserted, stack), e).stack
    ensures listed == Step(net, Build(nodes, inserted, stack), e).inserted
  {
    filed, listed, open := nodes, inserted, stack;
    if e.bid == net { return; }
    var depth := |e.order|;
    if depth > 0 && e.order[depth - 1] == ORDER_MAX {
      return;
    } else if depth > 1 && e.order[depth - 2] == ORDER_MAX {
      depth := depth - 1;
    }
    assert Active(net, e) && FiledDepth(e.order) == Some(depth);
    hide Active, FiledDepth;
    open := PopStack(stack, depth);
    if e.bid in nodes { return; }
    var parent := open[|open| - 1].0;
    filed := filed[e.bid := NavNode(e.bid, Some(parent), [])];
    filed := filed[parent := filed[parent].(children := filed[parent].children + [e.bid])];
    listed, open := inserted + [e.bid], open + [(e.bid, depth)];
  }

  /** One network's pass over its entries. */
  method BuildNetwork(net: Bid, entries: seq<Entry>) returns (nodes: Nodes)
    ensures nodes == Final(Root(net, entries)).nodes
  {
    nodes := map[net := NavNode(net, None, [])];
    ghost var inserted := [net];
    var stack: seq<(Bid, nat)> := [(net, 0)];
    for i := 0 to |entries|
      invariant Build(nodes, inserted, stack) == Filed(net, entries, i)
    {
      hide Step, StackKnown;
      nodes, inserted, stack := FileEntry(net, entries[i], nodes, inserted, stack);
    }
  }

  function Without(children: seq<Bid>, b: Bid): seq<Bid> {
    if children == [] then []
    else Without(children[..|children| - 1],
        b) + (if children[|children| - 1] == b then [] else [children[|children| - 1]])
  }

  /** The two repairs made while merging: a network is not its own child, nor a node its own parent. */
  function Repaired(net: Bid, node: NavNode): NavNode {
    var n := if node.bid == net then node.(children := Without(node.children, net)) else node;
    if n.parent == Some(n.bid) then n.(parent := None) else n
  }

  lemma {:induction false} WithoutAbsent(children: seq<Bid>, b: Bid)
    requires b !in children
    ensures Without(children, b) == children
  {
    if children == [] {
    } else {
      assert children == children[..|children| - 1] + [children[|children| - 1]];
      WithoutAbsent(children[..|children| - 1], b);
    }
  }

  /** Neither repair ever finds anything to repair. */
  lemma RepairsAreIdle(r: Root, n: Bid)
    requires n in Final(r).nodes
    ensures Final(r).nodes[n].bid == n && Repaired(r.net, Final(r).nodes[n]) == Final(r).nodes[n]
  {
    OwnForest(r, n);
    hide Final;
    if r.net in Final(r).nodes[n].children {
      OwnForest(r, r.net);
    } else {
      WithoutAbsent(Final(r).nodes[n].children, r.net);
    }
  }

  method MergeNetwork(global: Nodes, r: Root, nodes: Nodes) returns (merged: Nodes)
    requires nodes == Final(r).nodes
    ensures merged == global + nodes
  {
    hide Final, Repaired, Without;
    merged := global;
    var todo := nodes.Keys;
    while todo != {}
      invariant todo <= nodes.Keys
      invariant merged == global + (nodes - todo)
      decreases |todo|
    {
      var n: Bid :| n in todo;
      RepairsAreIdle(r, n);
      NextMerged(global, nodes, todo, n);
      todo := todo - {n};
      merged := merged[n := Repaired(r.net, nodes[n])];
    }
  }

  lemma NextMerged(global: Nodes, nodes: Nodes, todo: set<Bid>, n: Bid)
    requires n in todo && todo <= nodes.Keys
    ensures (global + (nodes - todo))[n := nodes[n]] == global + (nodes - (todo - {n}))
  {
  }

  /** The ids found to be networks below another one. */
  method FindSubnets(networks: seq<Network>, nets: set<Bid>) returns (subnets: set<Bid>)
    ensures forall b :: b in subnets <==> IsSubnet(networks, nets, b)
  {
    subnets := {};
    for k := 0 to |networks|
      invariant forall b :: b in subnets <==> exists i :: 0 <= i < k && Discovers(networks[i], nets, b)
    {
      if networks[k].net == None { continue; }
      if networks[k].reserved { continue; }
      ghost var before := subnets;
      subnets := subnets + (networks[k].reachable * nets - {networks[k].net.value});
      assert forall b :: b in subnets <==> b in before || Discovers(networks[k], nets, b);
    }
  }

  /** The whole tree: the roots in table order, and every root's nodes merged in that order. */
  method GetNavTree(networks: seq<Network>, nets: set<Bid>) returns (tree: Tree)
    ensures var roots := RootsOf(networks, nets, |networks|);
            && tree.nodes == All(roots)
            && |tree.roots| == |roots|
            && forall i | 0 <= i < |roots| :: tree.roots[i] == roots[i].net
  {
    var subnets := FindSubnets(networks, nets);
    var nodes: Nodes := map[];
    var bids: seq<Bid> := [];
    for k := 0 to |networks|
      invariant var roots := RootsOf(networks, nets, k);
                && nodes == All(roots)
                && |bids| == |roots|
                && forall i | 0 <= i < |roots| :: bids[i] == roots[i].net
    {
      ghost var before := RootsOf(networks, nets, k);
      hide IsSubnet, Final;
      if networks[k].net == None { continue; }
      var net := networks[k].net.value;
      if networks[k].reserved || net in subnets { continue; }
      var own := BuildNetwork(net, networks[k].entries);
      bids := bids + [net];
      nodes := MergeNetwork(nodes, Root(net, networks[k].entries), own);
      AllAppend(before, Root(net, networks[k].entries));
    }
    tree := Tree(nodes, bids);
  }

  lemma {:induction false} MergedPrefix(roots: seq<Root>, r: Root, k: nat)
    requires k <= |roots|
    ensures Merged(roots + [r], k) == Merged(roots, k)
  {
    if k == 0 {
    } else {
      MergedPrefix(roots, r, k - 1);
    }
  }

  lemma AllAppend(roots: seq<Root>, r: Root)
    ensures All(roots + [r]) == All(roots) + Final(r).nodes
  {
    hide Final;
    MergedPrefix(roots, r, |roots|);
  }
}
