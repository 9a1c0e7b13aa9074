/**
 The navigation tree of src/wasm.rs (`get_nav_tree`): one stack pass per network over a list
 of paths with their depths, then a merge in which later networks overwrite nodes of earlier
 ones. Titles and display paths are left out; the path lists are arbitrary.
 */
module NavTree {
  import opened Properties

  const ORDER_MAX := 65535  // u16::MAX, the gateway index

  /** One line of a network's recursive path map. */
  datatype Entry = Entry(bid: Bid, order: seq<nat>)

  datatype NavNode = NavNode(bid: Bid, parent: Option<Bid>, children: seq<Bid>)

  type Nodes = map<Bid, NavNode>

  /** The depth an entry is filed at; gateway aliases are not filed, anchors move up by one. */
  function FiledDepth(order: seq<nat>): Option<nat> {
    var n := |order|;
    if n > 0 && order[n - 1] == ORDER_MAX then None
    else if n > 1 && order[n - 2] == ORDER_MAX then Some(n - 1)
    else Some(n)
  }

  predicate Active(net: Bid, e: Entry) {
    e.bid != net && FiledDepth(e.order).Some?
  }

  // ------------------------------------------------------------------ one network

  /** Nodes so far, the ids in insertion order, and the stack of open ancestors with depths. */
  datatype Build = Build(nodes: Nodes, inserted: seq<Bid>, stack: seq<(Bid, nat)>)

  function Start(net: Bid): Build {
    Build(map[net := NavNode(net, None, [])], [net], [(net, 0)])
  }

  /** Pop entries at least as deep as `depth`; the network itself stays. */
  function PopTo(stack: seq<(Bid, nat)>, depth: nat): (rest: seq<(Bid, nat)>)
    ensures stack != [] ==> rest != [] && rest[0] == stack[0]
    ensures |rest| <= |stack| && rest == stack[..|rest|]
    ensures |rest| > 1 ==> rest[|rest| - 1].1 < depth
    ensures forall i | |rest| <= i < |stack| :: stack[i].1 >= depth
  {
    if |stack| > 1 && stack[|stack| - 1].1 >= depth then PopTo(stack[..|stack| - 1], depth) else stack
  }

  /** The map once `bid` hangs under `parent`. */
  function Attach(nodes: Nodes, parent: Bid, bid: Bid): Nodes
    requires parent in nodes
  {
    var added := nodes[bid := NavNode(bid, Some(parent), [])];
    added[parent := added[parent].(children := added[parent].children + [bid])]
  }

  function File(b: Build, bid: Bid, depth: nat): Build
    requires b.stack != [] && b.stack[|b.stack| - 1].0 in b.nodes
  {
    Build(Attach(b.nodes, b.stack[|b.stack| - 1].0, bid), b.inserted + [bid], b.stack + [(bid, depth)])
  }

  function Step(net: Bid, b: Build, e: Entry): Build
    requires StackKnown(b)
  {
    if !Active(net, e) then b
    else
      var popped := b.(stack := PopTo(b.stack, FiledDepth(e.order).value));
      if e.bid in b.nodes then popped else File(popped, e.bid, FiledDepth(e.order).value)
  }

  /** The stack is never empty and names known nodes. */
  ghost predicate StackKnown(b: Build) {
    b.stack != [] && forall i | 0 <= i < |b.stack| :: b.stack[i].0 in b.nodes
  }

  /** Position of an id in the insertion order. */
  function Rank(inserted: seq<Bid>, n: Bid): (r: nat)
    ensures n in inserted ==> r < |inserted| && inserted[r] == n
    ensures n !in inserted ==> r == |inserted|
  {
    if inserted == [] then 0
    else if inserted[|inserted| - 1] == n && n !in inserted[..|inserted| - 1] then |inserted| - 1
    else if n in inserted then Rank(inserted[..|inserted| - 1], n)
    else |inserted|
  }

  /** Only the network has no parent; every other node is among its parent's children, after it. */
  ghost predicate ParentKept(net: Bid, nodes: Nodes, inserted: seq<Bid>, n: Bid)
    requires n in nodes
  {
    && nodes[n].bid == n
    && (nodes[n].parent.None? <==> n == net)
    && (n != net ==>
          var p := nodes[n].parent.value;
          p in nodes && n in nodes[p].children && Rank(inserted, p) < Rank(inserted, n))
  }

  /** Children are listed once each and name this node as their parent. */
  ghost predicate ChildrenKept(nodes: Nodes, p: Bid)
    requires p in nodes
  {
    && NoDuplicates(nodes[p].children)
    && forall c | c in nodes[p].children :: c in nodes && nodes[c].parent == Some(p)
  }

  /** Children are listed in the order they were filed. */
  ghost predicate ChildrenOrdered(nodes: Nodes, inserted: seq<Bid>, p: Bid)
    requires p in nodes
  {
    var c := nodes[p].children;
    forall i, j | 0 <= i < j < |c| :: Rank(inserted, c[i]) < Rank(inserted, c[j])
  }

  ghost predicate Inserted(nodes: Nodes, inserted: seq<Bid>) {
    NoDuplicates(inserted) && forall n :: n in inserted <==> n in nodes
  }

  /** Parent and children are inverse, parents precede, and every node is filed once. */
  ghost predicate Forest(net: Bid, nodes: Nodes, inserted: seq<Bid>) {
    && net in nodes
    && Inserted(nodes, inserted)
    && (forall n | n in nodes :: ParentKept(net, nodes, inserted, n))
    && (forall p | p in nodes :: ChildrenKept(nodes, p) && ChildrenOrdered(nodes, inserted, p))
  }

  lemma RankAppend(inserted: seq<Bid>, x: Bid, n: Bid)
    requires x !in inserted
    ensures n in inserted ==> Rank(inserted + [x], n) == Rank(inserted, n)
    ensures Rank(inserted + [x], x) == |inserted|
  {
    assert (inserted + [x])[..|inserted|] == inserted;
  }

  lemma FileInserts(nodes: Nodes, inserted: seq<Bid>, after: Nodes, bid: Bid)
    requires Inserted(nodes, inserted) && bid !in nodes && after.Keys == nodes.Keys + {bid}
    ensures Inserted(after, inserted + [bid])
  {
    assert (inserted + [bid])[|inserted|] == bid;
  }

  lemma RankBelow(inserted: seq<Bid>, n: Bid)
    requires n in inserted
    ensures Rank(inserted, n) < |inserted|
  {
  }

  lemma OldKeepsParent(net: Bid, nodes: Nodes, inserted: seq<Bid>, parent: Bid, bid: Bid, n: Bid)
    requires Inserted(nodes, inserted) && parent in nodes && bid !in nodes
    requires n in nodes && ParentKept(net, nodes, inserted, n)
    ensures ParentKept(net, Attach(nodes, parent, bid), inserted + [bid], n)
  {
    hide Rank, NoDuplicates;
    if n != net {
      RankAppend(inserted, bid, n);
      RankAppend(inserted, bid, nodes[n].parent.value);
    }
  }

  lemma NewKeepsParent(net: Bid, nodes: Nodes, inserted: seq<Bid>, parent: Bid, bid: Bid)
    requires Inserted(nodes, inserted) && parent in nodes && bid !in nodes && net in nodes
    ensures ParentKept(net, Attach(nodes, parent, bid), inserted + [bid], bid)
  {
    hide Rank, NoDuplicates;
    RankAppend(inserted, bid, bid);
    RankAppend(inserted, bid, parent);
    RankBelow(inserted, parent);
    assert (nodes[parent].children + [bid])[|nodes[parent].children|] == bid;
  }

  lemma ParentGainsChild(nodes: Nodes, parent: Bid, bid: Bid)
    requires parent in nodes && bid !in nodes && ChildrenKept(nodes, parent)
    ensures ChildrenKept(Attach(nodes, parent, bid), parent)
  {
    assert bid !in nodes[parent].children;
  }

  lemma OthersKeepChildren(nodes: Nodes, parent: Bid, bid: Bid, p: Bid)
    requires parent in nodes && bid !in nodes && p in nodes && p != parent && ChildrenKept(nodes, p)
    ensures ChildrenKept(Attach(nodes, parent, bid), p)
  {
  }

  lemma AttachKeepsOrder(net: Bid, nodes: Nodes, inserted: seq<Bid>, parent: Bid, bid: Bid, p: Bid)
    requires Inserted(nodes, inserted) && parent in nodes && bid !in nodes && (p in nodes || p == bid)
    requires p in nodes ==> ChildrenKept(nodes, p) && ChildrenOrdered(nodes, inserted, p)
    ensures ChildrenOrdered(Attach(nodes, parent, bid), inserted + [bid], p)
  {
    hide Rank, NoDuplicates;
    if p != bid {
      forall c | c in nodes[p].children
        ensures Rank(inserted + [bid], c) == Rank(inserted, c) < |inserted|
      {
        RankAppend(inserted, bid, c);
        RankBelow(inserted, c);
      }
      RankAppend(inserted, bid, bid);
    }
  }

  lemma AttachKeepsForest(net: Bid, nodes: Nodes, inserted: seq<Bid>, parent: Bid, bid: Bid)
    requires Forest(net, nodes, inserted) && parent in nodes && bid !in nodes
    ensures Forest(net, Attach(nodes, parent, bid), inserted + [bid])
  {
    hide ParentKept, ChildrenKept, ChildrenOrdered, Inserted;
    var after := Attach(nodes, parent, bid);
    FileInserts(nodes, inserted, after, bid);
    forall n | n in after
      ensures ParentKept(net, after, inserted + [bid], n)
    {
      if n == bid {
        NewKeepsParent(net, nodes, inserted, parent, bid);
      } else {
        OldKeepsParent(net, nodes, inserted, parent, bid, n);
      }
    }
    forall p | p in after
      ensures ChildrenKept(after, p) && ChildrenOrdered(after, inserted + [bid], p)
    {
      AttachKeepsOrder(net, nodes, inserted, parent, bid, p);
      if p == parent {
        ParentGainsChild(nodes, parent, bid);
      } else if p == bid {
        assert ChildrenKept(after, p) by { LeafKeepsChildren(nodes, parent, bid); }
      } else {
        OthersKeepChildren(nodes, parent, bid, p);
      }
    }
  }

  lemma LeafKeepsChildren(nodes: Nodes, parent: Bid, bid: Bid)
    requires parent in nodes && bid !in nodes
    ensures ChildrenKept(Attach(nodes, parent, bid), bid)
  {
  }

  lemma FileKeepsForest(net: Bid, b: Build, bid: Bid, depth: nat)
    requires Forest(net, b.nodes, b.inserted) && StackKnown(b) && bid !in b.nodes
    ensures Forest(net, File(b, bid, depth).nodes, File(b, bid, depth).inserted)
  {
    hide Forest;
    AttachKeepsForest(net, b.nodes, b.inserted, b.stack[|b.stack| - 1].0, bid);
  }

  lemma StepKeepsForest(net: Bid, b: Build, e: Entry)
    requires Forest(net, b.nodes, b.inserted) && StackKnown(b)
    ensures Forest(net, Step(net, b, e).nodes, Step(net, b, e).inserted)
  {
    hide Forest;
    if Active(net, e) {
      var popped := b.(stack := PopTo(b.stack, FiledDepth(e.order).value));
      if e.bid !in b.nodes {
        FileKeepsForest(net, popped, e.bid, FiledDepth(e.order).value);
      }
    }
  }

  /** The pass over the first `n` of a network's entries. */
  function Filed(net: Bid, entries: seq<Entry>, n: nat): (b: Build)
    requires n <= |entries|
    ensures StackKnown(b)
  {
    if n == 0 then Start(net)
    else
      StepKnown(net, Filed(net, entries, n - 1), entries[n - 1]);
      Step(net, Filed(net, entries, n - 1), entries[n - 1])
  }

  lemma StepKnown(net: Bid, b: Build, e: Entry)
    requires StackKnown(b)
    ensures StackKnown(Step(net, b, e))
  {
  }

  lemma StartIsForest(net: Bid)
    ensures Forest(net, Start(net).nodes, Start(net).inserted)
  {
    assert Rank([net], net) == 0;
  }

  /** Within one network: parent and children are inverse and every non-root is listed exactly once. */
  lemma {:induction false} NetworkIsForest(net: Bid, entries: seq<Entry>, n: nat)
    requires n <= |entries|
    ensures Forest(net, Filed(net, entries, n).nodes, Filed(net, entries, n).inserted)
  {
    hide Forest, Step;
    if n == 0 {
      StartIsForest(net);
    } else {
      NetworkIsForest(net, entries, n - 1);
      StepKeepsForest(net, Filed(net, entries, n - 1), entries[n - 1]);
    }
  }

  // ------------------------------------------------------------------ parents are nearest smaller entries

  function DepthOf(e: Entry): nat {
    match FiledDepth(e.order)
    case Some(d) => d
    case None => 0
  }

  /** Entry `j` makes a node: it is filed and its id was not filed before. */
  ghost predicate Opens(net: Bid, entries: seq<Entry>, j: nat)
    requires j < |entries|
  {
    Active(net, entries[j]) && entries[j].bid !in Filed(net, entries, j).nodes
  }

  /** Entry `i` made a node and every filed entry after it, before `n`, lies deeper. */
  ghost predicate Encloses(net: Bid, entries: seq<Entry>, i: nat, n: nat)
    requires n <= |entries|
  {
    && i < n
    && Opens(net, entries, i)
    && forall k | i < k < n && Active(net, entries[k]) :: DepthOf(entries[i]) < DepthOf(entries[k])
  }

  /** The stack holds the network and above it the entries at the listed positions, in order. */
  ghost predicate Holds(net: Bid, entries: seq<Entry>, n: nat, stack: seq<(Bid, nat)>, live: seq<nat>)
    requires n <= |entries|
  {
    && |stack| == |live| + 1
    && stack[0] == (net, 0)
    && (forall s | 0 <= s < |live| ::
          live[s] < n && stack[s + 1] == (entries[live[s]].bid, DepthOf(entries[live[s]])))
    && forall s, t | 0 <= s < t < |live| :: live[s] < live[t]
  }

  /** The stack above the network lists, outermost first, the entries that enclose position `n`. */
  ghost predicate Mirrors(net: Bid, entries: seq<Entry>, n: nat, stack: seq<(Bid, nat)>, live: seq<nat>)
    requires n <= |entries|
  {
    && Holds(net, entries, n, stack, live)
    && forall i: nat | i < n :: Encloses(net, entries, i, n) <==> i in live
  }

  lemma HoldsPopped(net: Bid, entries: seq<Entry>, n: nat, stack: seq<(Bid, nat)>, live: seq<nat>, k: nat)
    requires n <= |entries| && Holds(net, entries, n, stack, live) && 0 < k <= |stack|
    ensures Holds(net, entries, n, stack[..k], live[..k - 1])
  {
  }

  lemma HoldsPushed(net: Bid, entries: seq<Entry>, n: nat, stack: seq<(Bid, nat)>, live: seq<nat>)
    requires n < |entries| && Holds(net, entries, n, stack, live)
    ensures Holds(net, entries, n + 1, stack, live)
    ensures Holds(net, entries, n + 1, stack + [(entries[n].bid, DepthOf(entries[n]))], live + [n])
  {
  }

  lemma {:induction false} StackMirrors(net: Bid, entries: seq<Entry>, n: nat) returns (live: seq<nat>)
    requires n <= |entries|
    ensures Mirrors(net, entries, n, Filed(net, entries, n).stack, live)
  {
    hide Filed, Mirrors, Opens, PopTo, Active, DepthOf;
    if n == 0 {
      live := [];
      StartMirrors(net, entries);
    } else {
      var before := StackMirrors(net, entries, n - 1);
      var stack := Filed(net, entries, n - 1).stack;
      FiledStack(net, entries, n - 1);
      if !Active(net, entries[n - 1]) {
        live := before;
        IdleMirrors(net, entries, n - 1, stack, before);
      } else {
        live := PopMirrors(net, entries, n - 1, stack, before);
      }
    }
  }

  lemma StartMirrors(net: Bid, entries: seq<Entry>)
    ensures Mirrors(net, entries, 0, Filed(net, entries, 0).stack, [])
  {
  }

  /** The stack after one more entry. */
  lemma FiledStack(net: Bid, entries: seq<Entry>, n: nat)
    requires n < |entries|
    ensures var stack, e := Filed(net, entries, n).stack, entries[n];
            Filed(net, entries, n + 1).stack == (
              if !Active(net, e) then stack
              else if Opens(net, entries, n) then PopTo(stack, DepthOf(e)) + [(e.bid, DepthOf(e))]
              else PopTo(stack, DepthOf(e)))
  {
  }

  lemma IdleMirrors(net: Bid, entries: seq<Entry>, n: nat, stack: seq<(Bid, nat)>, live: seq<nat>)
    requires n < |entries| && Mirrors(net, entries, n, stack, live) && !Active(net, entries[n])
    ensures Mirrors(net, entries, n + 1, stack, live)
  {
    hide Filed;
    forall i: nat | i < n + 1
      ensures Encloses(net, entries, i, n + 1) <==> i in live
    {
      if i < n {
        assert Encloses(net, entries, i, n + 1) <==> Encloses(net, entries, i, n);
      }
    }
  }

  /** What the pops leave, and what a new node adds, still mirrors the enclosing entries. */
  lemma PopMirrors(net: Bid, entries: seq<Entry>, n: nat, stack: seq<(Bid, nat)>, live: seq<nat>)
    returns (after: seq<nat>)
    requires n < |entries| && Mirrors(net, entries, n, stack, live) && Active(net, entries[n])
    ensures var rest := PopTo(stack, DepthOf(entries[n]));
            var kept := live[..|rest| - 1];
            && after == (if Opens(net, entries, n) then kept + [n] else kept)
            && Mirrors(net, entries, n + 1,
                 if Opens(net, entries, n) then rest + [(entries[n].bid, DepthOf(entries[n]))] else rest, after)
  {
    hide Filed, PopTo, Encloses, Active, Opens, Holds, DepthOf;
    var rest := PopTo(stack, DepthOf(entries[n]));
    HoldsSome(net, entries, n, stack, live);
    var kept := live[..|rest| - 1];
    HoldsPopped(net, entries, n, stack, live, |rest|);
    HoldsPushed(net, entries, n, rest, kept);
    after := if Opens(net, entries, n) then kept + [n] else kept;
    forall i: nat | i < n + 1
      ensures Encloses(net, entries, i, n + 1) <==> i in after
    {
      PopKeepsEnclosing(net, entries, n, stack, live, i);
      AppendedMember(kept, n, i);
    }
  }

  lemma HoldsSome(net: Bid, entries: seq<Entry>, n: nat, stack: seq<(Bid, nat)>, live: seq<nat>)
    requires n <= |entries| && Holds(net, entries, n, stack, live)
    ensures |stack| == |live| + 1
  {
  }

  lemma AppendedMember(s: seq<nat>, n: nat, i: nat)
    ensures i in s + [n] <==> i in s || i == n
  {
    assert (s + [n])[|s|] == n;
  }

  lemma PopKeepsEnclosing(net: Bid, entries: seq<Entry>, n: nat, stack: seq<(Bid, nat)>, live: seq<nat>, i: nat)
    requires n < |entries| && Mirrors(net, entries, n, stack, live) && Active(net, entries[n]) && i < n + 1
    ensures var kept := live[..|PopTo(stack, DepthOf(entries[n]))| - 1];
            Encloses(net, entries, i, n + 1) <==> i in kept || (i == n && Opens(net, entries, n))
  {
    hide Filed, PopTo;
    var d := DepthOf(entries[n]);
    var rest := PopTo(stack, d);
    if i < n {
      assert Encloses(net, entries, i, n + 1) <==> i in live && DepthOf(entries[i]) < d by {
        assert Encloses(net, entries, i, n + 1) <==> Encloses(net, entries, i, n) && DepthOf(entries[i]) < d;
      }
      if i in live {
        var s :| 0 <= s < |live| && live[s] == i;
        assert stack[s + 1].1 == DepthOf(entries[i]);
        if s < |rest| - 1 {
          StackDeepens(net, entries, n, stack, live, s, |rest| - 2);
          assert stack[|rest| - 1] == rest[|rest| - 1];
        }
      }
    }
  }

  lemma StackDeepens(net: Bid, entries: seq<Entry>, n: nat, stack: seq<(Bid, nat)>, live: seq<nat>, s: nat, t: nat)
    requires n <= |entries| && Mirrors(net, entries, n, stack, live) && s <= t < |live|
    ensures DepthOf(entries[live[s]]) <= DepthOf(entries[live[t]])
  {
    hide Filed;
    assert Encloses(net, entries, live[s], n) && Encloses(net, entries, live[t], n);
  }

  /** Entry `i` made a node and every filed entry after it, up to and including `j`, lies deeper. */
  ghost predicate Around(net: Bid, entries: seq<Entry>, i: nat, j: nat)
    requires j < |entries|
  {
    Encloses(net, entries, i, j + 1)
  }

  /** Entry `i` is the latest one before `j` that encloses it. */
  ghost predicate IsNearest(net: Bid, entries: seq<Entry>, i: nat, j: nat)
    requires j < |entries|
  {
    && i < j
    && Around(net, entries, i, j)
    && forall k: nat | i < k < j :: !Around(net, entries, k, j)
  }

  /** `p` is the node of the nearest enclosing entry, or the network when nothing encloses `j`. */
  ghost predicate IsParent(net: Bid, entries: seq<Entry>, j: nat, p: Bid)
    requires j < |entries|
  {
    if exists i: nat :: i < j && Around(net, entries, i, j)
    then exists i: nat :: IsNearest(net, entries, i, j) && p == entries[i].bid
    else p == net
  }

  lemma TopIsNearest(net: Bid, entries: seq<Entry>, j: nat)
    requires j < |entries| && Opens(net, entries, j)
    ensures var rest := PopTo(Filed(net, entries, j).stack, DepthOf(entries[j]));
            IsParent(net, entries, j, rest[|rest| - 1].0)
  {
    hide Filed, PopTo, Encloses, IsParent;
    assert Active(net, entries[j]);
    hide Opens, Active;
    var stack := Filed(net, entries, j).stack;
    var live := StackMirrors(net, entries, j);
    assert |stack| == |live| + 1;
    hide Mirrors;
    var rest := PopTo(stack, DepthOf(entries[j]));
    var after := PopMirrors(net, entries, j, stack, live);
    MirrorsNearest(net, entries, j, rest + [(entries[j].bid, DepthOf(entries[j]))], after);
  }

  /** In a mirroring stack the entry just under the top one is its nearest encloser. */
  lemma MirrorsNearest(net: Bid, entries: seq<Entry>, j: nat, stack: seq<(Bid, nat)>, live: seq<nat>)
    requires j < |entries| && Mirrors(net, entries, j + 1, stack, live) && live != [] && live[|live| - 1] == j
    ensures IsParent(net, entries, j, stack[|stack| - 2].0)
  {
    hide Encloses;
    var m := |live| - 2;
    if m < 0 {
      assert live == [j];
      assert stack[|stack| - 2].0 == net;
    } else {
      var i := live[m];
      assert Around(net, entries, i, j);
      forall k: nat | i < k < j
        ensures !Around(net, entries, k, j)
      {
        assert forall s | 0 <= s < |live| :: live[s] != k by {
          assert forall s | 0 <= s < m :: live[s] < live[m];
        }
      }
      assert IsNearest(net, entries, i, j);
    }
  }

  /** What is filed keeps its parent for the rest of the pass. */
  lemma {:induction false} ParentStays(net: Bid, entries: seq<Entry>, m: nat, n: nat, bid: Bid)
    requires m <= n <= |entries| && bid in Filed(net, entries, m).nodes
    ensures bid in Filed(net, entries, n).nodes
    ensures Filed(net, entries, n).nodes[bid].parent == Filed(net, entries, m).nodes[bid].parent
    decreases n
  {
    if m == n {
    } else {
      ParentStays(net, entries, m, n - 1, bid);
    }
  }

  /** Every node made hangs under the nearest enclosing entry, repeats in the list or not. */
  lemma ParentIsNearest(net: Bid, entries: seq<Entry>, j: nat)
    requires j < |entries| && Opens(net, entries, j)
    ensures var nodes := Filed(net, entries, |entries|).nodes;
            && entries[j].bid in nodes
            && nodes[entries[j].bid].parent.Some?
            && IsParent(net, entries, j, nodes[entries[j].bid].parent.value)
  {
    TopIsNearest(net, entries, j);
    hide IsParent;
    ParentStays(net, entries, j + 1, |entries|, entries[j].bid);
  }

  /** No id is filed twice. */
  ghost predicate Distinct(net: Bid, entries: seq<Entry>) {
    forall i, j | 0 <= i < j < |entries| && Active(net, entries[i]) && Active(net, entries[j]) ::
      entries[i].bid != entries[j].bid
  }

  lemma {:induction false} FiledIds(net: Bid, entries: seq<Entry>, n: nat, bid: Bid)
    requires n <= |entries|
    ensures bid in Filed(net, entries, n).nodes
            <==> bid == net || exists i :: 0 <= i < n && Active(net, entries[i]) && entries[i].bid == bid
  {
    hide Filed, Active;
    if n == 0 {
      FiledNone(net, entries, bid);
    } else {
      FiledIds(net, entries, n - 1, bid);
      FiledOne(net, entries, n - 1, bid);
    }
  }

  lemma FiledNone(net: Bid, entries: seq<Entry>, bid: Bid)
    ensures bid in Filed(net, entries, 0).nodes <==> bid == net
  {
  }

  lemma FiledOne(net: Bid, entries: seq<Entry>, n: nat, bid: Bid)
    requires n < |entries|
    ensures bid in Filed(net, entries, n + 1).nodes
            <==> bid in Filed(net, entries, n).nodes || (Active(net, entries[n]) && entries[n].bid == bid)
  {
    hide PopTo;
  }

  /** Without repeats the nearest encloser is the latest earlier entry of strictly smaller depth. */
  lemma NearestIsSmaller(net: Bid, entries: seq<Entry>, i: nat, j: nat)
    requires Distinct(net, entries) && j < |entries| && Opens(net, entries, j)
    ensures IsNearest(net, entries, i, j) <==>
            && i < j
            && Active(net, entries[i]) && DepthOf(entries[i]) < DepthOf(entries[j])
            && forall k | i < k < j && Active(net, entries[k]) :: DepthOf(entries[k]) >= DepthOf(entries[j])
  {
    hide Filed;
    if i < j {
      if IsNearest(net, entries, i, j) {
        SmallerEncloses(net, entries, i, j);
      } else {
        forall k: nat | k < j && Active(net, entries[k]) ensures Opens(net, entries, k) {
          FiledIds(net, entries, k, entries[k].bid);
        }
      }
    }
  }

  /** Among filed entries between an encloser and `j`, a shallower-than-`j` one would enclose `j` too. */
  lemma {:induction false} SmallerEncloses(net: Bid, entries: seq<Entry>, i: nat, j: nat)
    requires Distinct(net, entries) && j < |entries| && Opens(net, entries, j) && IsNearest(net, entries, i, j)
    ensures forall k | i < k < j && Active(net, entries[k]) :: DepthOf(entries[k]) >= DepthOf(entries[j])
  {
    hide Filed;
    var k := j;
    while i + 1 < k
      invariant i < k <= j
      invariant forall m | k <= m < j && Active(net, entries[m]) :: DepthOf(entries[m]) >= DepthOf(entries[j])
    {
      k := k - 1;
      assert !Around(net, entries, k, j);
      if Active(net, entries[k]) {
        FiledIds(net, entries, k, entries[k].bid);
      }
    }
  }

  // ------------------------------------------------------------------ the tree in terms of orders alone

  /** The entry makes a node: it is not the network's own and its path does not end in the gateway index. */
  predicate IsListed(net: Bid, e: Entry) {
    e.bid != net && (e.order != [] ==> e.order[|e.order| - 1] != 65535)
  }

  /** The depth of its path, an anchor of a gateway document counting as deep as the document. */
  function Level(e: Entry): nat {
    if |e.order| > 1 && e.order[|e.order| - 2] == 65535 then |e.order| - 1 else |e.order|
  }

  lemma ListedIsActive(net: Bid, e: Entry)
    ensures IsListed(net, e) <==> Active(net, e)
    ensures IsListed(net, e) ==> DepthOf(e) == Level(e)
  {
  }

  /** The nodes are the network and the ids of its listed entries. */
  lemma NodesAreListed(net: Bid, entries: seq<Entry>, b: Bid)
    ensures b in Filed(net, entries, |entries|).nodes <==>
            b == net || exists e :: e in entries && IsListed(net, e) && e.bid == b
  {
    FiledIds(net, entries, |entries|, b);
    forall e | e in entries {
      ListedIsActive(net, e);
    }
    hide Filed, Active, IsListed;
    if i :| 0 <= i < |entries| && Active(net, entries[i]) && entries[i].bid == b {
      assert entries[i] in entries;
    }
    if e :| e in entries && IsListed(net, e) && e.bid == b {
      var i :| 0 <= i < |entries| && entries[i] == e;
    }
  }

  /** Entry `i` is the latest listed one before `j` of a smaller level. */
  ghost predicate IsLevelParent(net: Bid, entries: seq<Entry>, i: nat, j: nat)
    requires j < |entries|
  {
    && i < j && IsListed(net, entries[i]) && Level(entries[i]) < Level(entries[j])
    && forall k | i < k < j && IsListed(net, entries[k]) :: Level(entries[k]) >= Level(entries[j])
  }

  lemma {:induction false} LatestLower(net: Bid, entries: seq<Entry>, n: nat, j: nat) returns (i: nat)
    requires n <= j < |entries|
    requires exists k :: 0 <= k < n && IsListed(net, entries[k]) && Level(entries[k]) < Level(entries[j])
    requires forall k | n <= k < j && IsListed(net, entries[k]) :: Level(entries[k]) >= Level(entries[j])
    ensures IsLevelParent(net, entries, i, j)
  {
    if IsListed(net, entries[n - 1]) && Level(entries[n - 1]) < Level(entries[j]) {
      i := n - 1;
    } else {
      i := LatestLower(net, entries, n - 1, j);
    }
  }

  /**
   Without repeated ids a listed entry hangs under the latest listed entry before it of a smaller level, or under
   the network when there is none.
   */
  lemma ParentByLevel(net: Bid, entries: seq<Entry>, j: nat)
    requires forall a, b | 0 <= a < b < |entries| && IsListed(net, entries[a]) && IsListed(net, entries[b]) ::
               entries[a].bid != entries[b].bid
    requires j < |entries| && IsListed(net, entries[j])
    ensures var nodes := Filed(net, entries, |entries|).nodes;
            && entries[j].bid in nodes && nodes[entries[j].bid].parent.Some?
            && var p := nodes[entries[j].bid].parent.value;
               || (exists i: nat :: IsLevelParent(net, entries, i, j) && p == entries[i].bid)
               || (p == net && forall k | 0 <= k < j && IsListed(net, entries[k]) ::
                     Level(entries[k]) >= Level(entries[j]))
  {
    forall k | 0 <= k < |entries| {
      ListedIsActive(net, entries[k]);
    }
    FiledIds(net, entries, j, entries[j].bid);
    assert Distinct(net, entries) && Opens(net, entries, j);
    ParentIsNearest(net, entries, j);
    forall i: nat | i < j
      ensures IsNearest(net, entries, i, j) <==> IsLevelParent(net, entries, i, j)
    {
      NearestIsSmaller(net, entries, i, j);
    }
    hide Filed, IsListed, Level, Active, Distinct, Opens, Around;
    if exists k :: 0 <= k < j && IsListed(net, entries[k]) && Level(entries[k]) < Level(entries[j]) {
      var i := LatestLower(net, entries, j, j);
      assert IsNearest(net, entries, i, j);
    }
  }
}
