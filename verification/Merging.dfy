/**
 Applying a merge plan to the store (`merge_graph_mut`, src/beliefbase/base.rs), and the shard
 bookkeeping on top of it (src/wasm.rs, `load_shard` and `unload_shard`).
 */
module Merging {
  import opened Properties
  import opened BeliefStore
  import opened BeliefGraphs
  import opened BeliefBases
  import opened MergePlans

  /** Weights without their sort keys. */
  function Bare(ws: WeightSet): WeightSet {
    map k | k in ws :: ws[k].(sortKey := None)
  }

  /** What an edge carries, sort keys aside; nothing if it is not there. */
  function Unkeyed(rel: Relations, e: Edge): WeightSet {
    if e in rel then Bare(rel[e]) else map[]
  }

  /** The keys under which a wanted node with id `n` is filed. */
  function Holders(rhs: States, keys: set<Bid>, n: Bid): set<Bid>
    requires keys <= rhs.Keys
  {
    set b | b in keys && rhs[b].bid == n
  }

  /** The node written for id `n`: of several with that id, the one under the highest key. */
  ghost function Held(rhs: States, keys: set<Bid>, n: Bid): Option<BeliefNode>
    requires keys <= rhs.Keys
  {
    var holders := Holders(rhs, keys, n);
    if holders == {} then None else Some(rhs[MaxOf(holders)])
  }

  /** The nodes under the given keys, on top of `lhs`. */
  ghost function Overlay(lhs: States, rhs: States, scope: set<Bid>, keys: set<Bid>): States
    requires keys <= rhs.Keys
  {
    lhs + map n | n in scope && Held(rhs, keys, n).Some? :: Held(rhs, keys, n).value
  }

  /** The states of the plan on top of those of the base. */
  ghost function MergedStates(lhs: States, rhs: States, scope: set<Bid>): States {
    Overlay(lhs, rhs, scope, Wanted(lhs, rhs, scope))
  }

  lemma MergeGrows(lhs: States, rhs: States, scope: set<Bid>)
    ensures lhs.Keys <= MergedStates(lhs, rhs, scope).Keys
  {
  }

  /** When every node is filed under its own id, each in scope that the base lacks or holds as Trace is taken. */
  lemma MergeOfWellKeyed(lhs: States, rhs: States, scope: set<Bid>)
    requires WellKeyed(rhs)
    ensures MergedStates(lhs, rhs, scope) == lhs + map b | b in rhs && Upserted(lhs, scope, rhs[b]) :: rhs[b]
  {
    var wanted := Wanted(lhs, rhs, scope);
    forall n: Bid ensures Held(rhs, wanted, n) == if n in wanted then Some(rhs[n]) else None {
      assert Holders(rhs, wanted, n) == if n in wanted then {n} else {};
    }
    hide Held;
  }

  /** One relation update sets the weights of its own edge and no other, sort keys aside, whatever is renumbered. */
  lemma UpdateSetsWeights(st: Store, s: Bid, t: Bid, ws: WeightSet, st': Store, events: seq<BeliefEvent>, e: Edge)
    requires UpdatesRelation(st, s, t, ws, st', events)
    ensures st'.states == st.states && st'.nodes == st.nodes
    ensures Unkeyed(st'.rel, e)
         == if e == (s, t) && s in st.nodes && t in st.nodes then Bare(ws) else Unkeyed(st.rel, e)
  {
    hide Renumbered, ChangeEvents;
    if s in st.nodes && t in st.nodes {
      BareStays(WriteEdge(st.rel, (s, t), ws), st'.rel, map[t := WeightsAt(st.rel, (s, t)).Keys - ws.Keys], e);
      hide Bare;
      BareNothing();
    }
  }

  lemma BareNothing()
    ensures Bare(map[]) == map[]
  {
  }

  lemma BareStays(r: Relations, r': Relations, sinks: SinkKinds, e: Edge)
    requires SameButKeys(r, r', sinks)
    ensures Unkeyed(r', e) == Unkeyed(r, e)
  {
    if e in r {
      forall k | k in r[e] ensures r'[e][k].(sortKey := None) == r[e][k].(sortKey := None) {
      }
    }
  }

  /** One operation of the relation pass. */
  ghost predicate Merges(st: Store, op: MergeOp, st': Store) {
    match op
    case NodeUpsert(_) => st' == st
    case RelationUpdate(s, t, ws) => exists events :: UpdatesRelation(st, s, t, ws, st', events)
  }

  /** `stores[i]` takes operation `i` to `stores[i + 1]`. */
  ghost predicate MergeRun(stores: seq<Store>, ops: seq<MergeOp>) {
    && |stores| == |ops| + 1
    && forall i | 0 <= i < |ops| :: Merges(stores[i], ops[i], stores[i + 1])
  }

  /** Edges already updated by the first `i` operations carry what they do in `rhs`; others what they did. */
  ghost predicate WeightsMerged(before: Relations, nodes: set<Bid>, rhs: Relations, ops: seq<MergeOp>, i: nat,
      now: Relations)
    requires i <= |ops|
  {
    forall e: Edge :: Unkeyed(now, e) ==
      if Emissions(ops[..i], e) > 0 && e.0 in nodes && e.1 in nodes then Unkeyed(rhs, e) else Unkeyed(before, e)
  }

  lemma WeightsNext(before: Relations, nodes: set<Bid>, rhs: Relations, ops: seq<MergeOp>, i: nat, st: Store,
      st': Store)
    requires i < |ops| && WeightsMerged(before, nodes, rhs, ops, i, st.rel) && st.nodes == nodes
    requires Merges(st, ops[i], st')
    requires ops[i].RelationUpdate? ==>
               (ops[i].source, ops[i].sink) in rhs && rhs[(ops[i].source, ops[i].sink)] == ops[i].weights
    ensures WeightsMerged(before, nodes, rhs, ops, i + 1, st'.rel)
    ensures st'.states == st.states && st'.nodes == nodes
  {
    hide UpdatesRelation;
    assert ops[..i + 1][..i] == ops[..i];
    if ops[i].RelationUpdate? {
      var s, t, ws := ops[i].source, ops[i].sink, ops[i].weights;
      var events :| UpdatesRelation(st, s, t, ws, st', events);
      forall e: Edge {
        UpdateSetsWeights(st, s, t, ws, st', events, e);
      }
      UpdateSetsWeights(st, s, t, ws, st', events, (s, t));
    }
  }

  /** After the relation pass the edges updated carry what they do in `rhs`, the others what they did. */
  lemma {:induction false} RunSetsWeights(stores: seq<Store>, rhs: Relations, ops: seq<MergeOp>, i: nat)
    requires MergeRun(stores, ops) && i <= |ops|
    requires forall op | op in ops && op.RelationUpdate? ::
               (op.source, op.sink) in rhs && op.weights == rhs[(op.source, op.sink)]
    ensures stores[i].states == stores[0].states && stores[i].nodes == stores[0].nodes
    ensures WeightsMerged(stores[0].rel, stores[0].nodes, rhs, ops, i, stores[i].rel)
  {
    hide WeightsMerged, Merges;
    if i == 0 {
      NothingMerged(stores[0].rel, stores[0].nodes, rhs, ops);
    } else {
      RunSetsWeights(stores, rhs, ops, i - 1);
      assert ops[i - 1] in ops;
      WeightsNext(stores[0].rel, stores[0].nodes, rhs, ops, i - 1, stores[i - 1], stores[i]);
    }
  }

  /** The states after the node operations of a list. */
  function NodesApplied(states: States, ops: seq<MergeOp>): States {
    if ops == [] then states
    else
      var before := NodesApplied(states, ops[..|ops| - 1]);
      match ops[|ops| - 1]
      case NodeUpsert(node) => before[node.bid := node]
      case RelationUpdate(_, _, _) => before
  }

  /** Some operation of the list finds its node missing or different. */
  predicate Changes(states: States, ops: seq<MergeOp>) {
    ops != [] &&
    var before := NodesApplied(states, ops[..|ops| - 1]);
    (Changes(states, ops[..|ops| - 1])
     || match ops[|ops| - 1]
        case NodeUpsert(node) => node.bid !in before || before[node.bid] != node
        case RelationUpdate(_, _, _) => false)
  }

  /** First pass: write the upserted nodes straight into the states, marking the table dirty once. */
  method ApplyNodes(base: BeliefBase, ops: seq<MergeOp>)
    requires base.Valid()
    modifies base
    ensures base.Valid() && base.rel == old(base.rel) && base.graph == old(base.graph)
    ensures base.states == NodesApplied(old(base.states), ops)
    ensures base.indexDirty <==> old(base.indexDirty) || Changes(old(base.states), ops)
    ensures base.states != old(base.states) ==> base.indexDirty
  {
    var changed := false;
    for i := 0 to |ops|
      invariant base.graph == old(base.graph) && base.rel == old(base.rel)
      invariant base.bidToIndex == old(base.bidToIndex) && base.indexDirty == old(base.indexDirty)
      invariant changed == Changes(old(base.states), ops[..i])
      invariant !changed ==> base.states == old(base.states)
      invariant base.states == NodesApplied(old(base.states), ops[..i])
    {
      hide SlotGraphs.SlotGraph.Represents, IndexSound;
      var op := ops[i];
      assert ops[..i + 1][..i] == ops[..i];
      if op.NodeUpsert? && (op.node.bid !in base.states || base.states[op.node.bid] != op.node) {
        base.states := base.states[op.node.bid := op.node];
        changed := true;
      }
    }
    assert ops[..|ops|] == ops;
    if changed {
      base.indexDirty := true;
    }
  }

  lemma {:induction false} NodesAppliedAfter(states: States, nodes: seq<MergeOp>, rest: seq<MergeOp>)
    requires forall op | op in rest :: op.RelationUpdate?
    ensures NodesApplied(states, nodes + rest) == NodesApplied(states, nodes)
  {
    if rest == [] {
      assert nodes + rest == nodes;
    } else {
      assert rest[|rest| - 1] in rest;
      assert (nodes + rest)[..|nodes + rest| - 1] == nodes + rest[..|rest| - 1];
      NodesAppliedAfter(states, nodes, rest[..|rest| - 1]);
    }
  }

  /** Writing the nodes in key order leaves, for each id, the one with the highest key. */
  lemma {:induction false} UpsertsApplied(lhs: States, rhs: States, scope: set<Bid>, keys: set<Bid>)
    requires keys <= rhs.Keys && forall b | b in keys :: rhs[b].bid in scope
    ensures NodesApplied(lhs, Upserts(rhs, keys)) == Overlay(lhs, rhs, scope, keys)
    decreases keys
  {
    if keys == {} {
      assert Overlay(lhs, rhs, scope, {}) == lhs;
    } else {
      var last := MaxOf(keys);
      var before := Upserts(rhs, keys - {last});
      UpsertsApplied(lhs, rhs, scope, keys - {last});
      assert Upserts(rhs, keys)[..|before|] == before;
      OverlayNext(lhs, rhs, scope, keys);
    }
  }

  lemma OverlayNext(lhs: States, rhs: States, scope: set<Bid>, keys: set<Bid>)
    requires keys != {} && keys <= rhs.Keys && forall b | b in keys :: rhs[b].bid in scope
    ensures var last := MaxOf(keys);
            Overlay(lhs, rhs, scope, keys) == Overlay(lhs, rhs, scope, keys - {last})[rhs[last].bid := rhs[last]]
  {
    hide Held;
    forall n: Bid {
      HeldNext(rhs, keys, n);
    }
  }

  lemma HeldNext(rhs: States, keys: set<Bid>, n: Bid)
    requires keys != {} && keys <= rhs.Keys
    ensures var last := MaxOf(keys);
            Held(rhs, keys, n) == if n == rhs[last].bid then Some(rhs[last]) else Held(rhs, keys - {last}, n)
  {
    var last := MaxOf(keys);
    if n == rhs[last].bid {
      assert last in Holders(rhs, keys, n);
      var top := MaxOf(Holders(rhs, keys, n));
      assert top in keys && last <= top <= last;
    } else {
      assert Holders(rhs, keys, n) == Holders(rhs, keys - {last}, n);
    }
  }

  lemma PlanStates(lhs: States, rhs: States, scope: set<Bid>, nodes: seq<MergeOp>)
    requires NodePart(lhs, rhs, scope, nodes)
    ensures NodesApplied(lhs, nodes) == MergedStates(lhs, rhs, scope)
  {
    UpsertsApplied(lhs, rhs, scope, Wanted(lhs, rhs, scope));
  }

  /** Which edges the merge writes. */
  predicate Written(lhs: Relations, rhs: Relations, scope: set<Bid>, tree: seq<Edge>, e: Edge) {
    e in rhs && Touches(e, scope) && ((e.1, e.0) in tree || !Present(lhs, e, rhs[e]))
  }

  /**
   The store after merging `rhs` is reached from the store with the planned states by the relation updates of
   some plan, sort keys included.
   */
  ghost predicate IsMergeOf(before: Store, rhs: Graph, seeds: Option<set<Bid>>, after: Store) {
    exists ops, stores ::
      && IsPlanList(Graph(before.states, before.rel), rhs, seeds, ops) && MergeRun(stores, ops)
      && stores[0] == Store(after.states, after.nodes, before.rel) && stores[|ops|] == after
  }

  /** Second pass: one `update_relation` per relation operation, its derivatives discarded. */
  method ApplyRelations(base: BeliefBase, ops: seq<MergeOp>) returns (ghost stores: seq<Store>)
    requires base.Valid()
    modifies base
    ensures base.Valid() && MergeRun(stores, ops)
    ensures stores[0] == old(base.View()) && stores[|ops|] == base.View()
  {
    stores := [base.View()];
    for i := 0 to |ops|
      invariant base.Valid() && |stores| == i + 1
      invariant stores[0] == old(base.View()) && stores[i] == base.View()
      invariant MergeRun(stores, ops[..i])
    {
      hide BeliefBase.Valid, UpdatesRelation, MergeRun;
      ghost var before := stores;
      if ops[i].RelationUpdate? {
        var events := base.UpdateRelation(ops[i].source, ops[i].sink, ops[i].weights);
        assert Merges(before[i], ops[i], base.View());
      }
      stores := stores + [base.View()];
      RunOneMore(before, ops, i, base.View());
    }
    assert ops[..|ops|] == ops;
  }

  lemma RunOneMore(stores: seq<Store>, ops: seq<MergeOp>, i: nat, st: Store)
    requires i < |ops| && MergeRun(stores, ops[..i]) && Merges(stores[i], ops[i], st)
    ensures MergeRun(stores + [st], ops[..i + 1])
  {
    hide Merges;
  }

  /**
   `merge_graph_mut`: states as planned, then one relation update after another; so every
   written edge between known nodes carries what it does in `rhs`, sort keys aside, and every other what it did.
   */
  method MergeGraph(base: BeliefBase, rhs: Graph, seeds: Option<set<Bid>>)
    returns (ghost tree: seq<Edge>, ghost ops: seq<MergeOp>, ghost stores: seq<Store>)
    requires base.Valid()
    modifies base
    ensures base.Valid()
    ensures base.states == MergedStates(old(base.states), rhs.states, Scope(rhs, seeds))
    ensures base.View().nodes == old(base.View()).nodes + base.states.Keys
    ensures IsPlanList(Graph(old(base.states), old(base.rel)), rhs, seeds, ops) && MergeRun(stores, ops)
    ensures stores[0] == Store(base.states, base.View().nodes, old(base.rel)) && stores[|ops|] == base.View()
    ensures IsMergeOf(old(base.View()), rhs, seeds, base.View())
    ensures forall e: Edge :: Unkeyed(base.rel, e) ==
              if Written(old(base.rel), rhs.relations, Scope(rhs, seeds), tree, e) && e.0 in base.View().nodes
                  && e.1 in base.View().nodes
              then Unkeyed(rhs.relations, e) else Unkeyed(old(base.rel), e)
  {
    hide IsPlan, PlanKnown, IsPlanList, BeliefBase.Valid, Scope, Emissions, Updates, FlipAll, Touches, Present,
        MergedStates, NodesApplied, MergeRun, Changes;
    var relations := base.ReadRelations();
    ghost var lhs := Graph(base.states, relations);
    var list;
    ghost var nodes, rest;
    list, nodes, tree, rest := ToEventStream(Graph(base.states, relations), rhs, seeds);
    ops := list;
    PlanApplied(lhs, rhs, seeds, nodes, tree, rest, ops);
    MergeGrows(lhs.states, rhs.states, Scope(rhs, seeds));
    if list == [] {
      stores := [base.View()];
      NothingToMerge(base.View());
    } else {
      ApplyNodes(base, list);
      base.IndexSync();
      stores := ApplyRelations(base, list);
    }
    RunSetsWeights(stores, rhs.relations, ops, |ops|);
    assert ops[..|ops|] == ops;
  }

  lemma NothingToMerge(st: Store)
    ensures MergeRun([st], []) && NodesApplied(st.states, []) == st.states
  {
  }

  lemma NothingMerged(before: Relations, nodes: set<Bid>, rhs: Relations, ops: seq<MergeOp>)
    ensures WeightsMerged(before, nodes, rhs, ops, 0, before)
  {
    assert ops[..0] == [];
  }

  /** What the plan's operations amount to. */
  lemma PlanApplied(lhs: Graph, rhs: Graph, seeds: Option<set<Bid>>, nodes: seq<MergeOp>, tree: seq<Edge>,
      rest: seq<Edge>, ops: seq<MergeOp>)
    requires IsPlan(lhs, rhs, seeds, nodes, tree, rest) && PlanKnown(rhs, tree, rest)
    requires ops == nodes + Updates(rhs.relations, FlipAll(tree)) + Updates(rhs.relations, rest)
    ensures NodesApplied(lhs.states, ops) == MergedStates(lhs.states, rhs.states, Scope(rhs, seeds))
    ensures forall e: Edge :: Emissions(ops, e) > 0 <==> Written(lhs.relations, rhs.relations, Scope(rhs, seeds),
        tree, e)
    ensures forall op | op in ops && op.RelationUpdate? ::
              (op.source, op.sink) in rhs.relations && op.weights == rhs.relations[(op.source, op.sink)]
  {
    PlanStates(lhs.states, rhs.states, Scope(rhs, seeds), nodes);
    UpdatesCarry(rhs.relations, FlipAll(tree));
    UpdatesCarry(rhs.relations, rest);
    hide IsPlan, PlanKnown, NodesApplied, Scope, Emissions, Updates, FlipAll, Touches, Present, MergedStates;
    var first, second := Updates(rhs.relations, FlipAll(tree)), Updates(rhs.relations, rest);
    NodesAppliedAfter(lhs.states, nodes, first);
    NodesAppliedAfter(lhs.states, nodes + first, second);
    forall e: Edge
      ensures Emissions(ops, e) > 0 <==> Written(lhs.relations, rhs.relations, Scope(rhs, seeds), tree, e)
    {
      MergeIsExact(lhs, rhs, seeds, nodes, tree, rest, e);
    }
    MergeIsExact(lhs, rhs, seeds, nodes, tree, rest, (0, 0));
  }
}
