/**
 Loading and unloading shards into one store (src/wasm.rs, `load_shard` and `unload_shard`). A shard
 is parsed JSON: nodes under keys that need not be their ids, and edges; a text that does not parse is None.
 */
module Shards {
  import opened Properties
  import opened Reachability
  import opened BeliefStore
  import opened BeliefGraphs
  import opened BeliefBases
  import opened MergePlans
  import opened Merging

  type Loaded = map<string, set<Bid>>

  ghost predicate Covered(loaded: Loaded, b: Bid) {
    exists k :: k in loaded && b in loaded[k]
  }

  /** The ids some loaded shard lists. */
  function Union(loaded: Loaded): (bids: set<Bid>)
    ensures forall b :: b in bids <==> Covered(loaded, b)
  {
    var bids := set k, b | k in loaded && b in loaded[k] :: b;
    assert forall b :: Covered(loaded, b) <==> b in bids;
    bids
  }

  /** The nodes that go when a shard is dropped: those no other loaded shard lists. */
  function Dropped(loaded: Loaded, key: string): set<Bid> {
    if key in loaded then loaded[key] - Union(loaded - {key}) else {}
  }

  lemma UnionWithout(loaded: Loaded, key: string)
    requires key in loaded
    ensures Union(loaded) == Union(loaded - {key}) + loaded[key]
  {
    forall b | b in Union(loaded) ensures b in Union(loaded - {key}) || b in loaded[key] {
      var k :| k in loaded && b in loaded[k];
      assert k != key ==> k in loaded - {key};
    }
    forall b | b in Union(loaded - {key}) ensures b in Union(loaded) {
      var k :| k in loaded - {key} && b in (loaded - {key})[k];
      assert k in loaded;
    }
  }

  lemma UnionWith(loaded: Loaded, key: string, bids: set<Bid>)
    requires key !in loaded
    ensures Union(loaded[key := bids]) == Union(loaded) + bids
  {
    var more := loaded[key := bids];
    assert more - {key} == loaded;
    UnionWithout(more, key);
  }

  /** The nodes are those of the loaded shards and the initial ones that no shard ever listed. */
  ghost predicate Balanced(keys: set<Bid>, loaded: Loaded, initial: set<Bid>, ever: set<Bid>) {
    Union(loaded) <= ever && keys == Union(loaded) + (initial - ever)
  }

  lemma UnloadBalanced(keys: set<Bid>, loaded: Loaded, initial: set<Bid>, ever: set<Bid>, key: string)
    requires Balanced(keys, loaded, initial, ever)
    ensures Balanced(keys - Dropped(loaded, key), loaded - {key}, initial, ever)
  {
    hide Union;
    if key in loaded {
      UnionWithout(loaded, key);
    } else {
      assert loaded - {key} == loaded;
    }
  }

  /** The ids the store gains: keys of the shard that are also the id of one of its nodes. */
  function Gained(states: States): set<Bid> {
    set n | n in states && exists b :: b in states && states[b].bid == n
  }

  /** Loading keeps the balance exactly when every listed id is a node afterwards. */
  lemma LoadBalancedIff(keys: set<Bid>, loaded: Loaded, initial: set<Bid>, ever: set<Bid>, key: string,
      states: States)
    requires Balanced(keys, loaded, initial, ever) && key !in loaded
    ensures Balanced(keys + Gained(states), loaded[key := states.Keys], initial, ever + states.Keys)
            <==> states.Keys <= keys + Gained(states)
  {
    hide Union;
    UnionWith(loaded, key, states.Keys);
    assert Gained(states) <= states.Keys;
    hide Gained;
  }

  lemma GainedByWellKeyed(states: States)
    requires WellKeyed(states)
    ensures Gained(states) == states.Keys
  {
  }

  /** A shard whose nodes are filed under their own ids always keeps it. */
  lemma OwnKeysStayBalanced(keys: set<Bid>, loaded: Loaded, initial: set<Bid>, ever: set<Bid>, key: string,
      states: States)
    requires Balanced(keys, loaded, initial, ever) && key !in loaded && WellKeyed(states)
    ensures Balanced(keys + states.Keys, loaded[key := states.Keys], initial, ever + states.Keys)
  {
    hide Balanced, Gained;
    GainedByWellKeyed(states);
    LoadBalancedIff(keys, loaded, initial, ever, key, states);
  }

  /** A node filed under another id is recorded under its key but never reaches the store. */
  lemma MisfiledUnbalances(key: string, node: BeliefNode)
    requires node.bid != 1
    ensures !Balanced({} + Gained(map[1 := node]), map[][key := {1}], {}, {} + {1})
  {
    var states := map[1 := node];
    assert Gained(states) == {};
    assert states.Keys == {1} && 1 in states.Keys;
    LoadBalancedIff({}, map[], {}, {}, key, states);
  }

  method RemoveUnneeded(inner: BeliefBase, bids: set<Bid>) returns (ghost events: seq<BeliefEvent>)
    requires inner.Valid()
    modifies inner
    ensures inner.Valid() && RemovesNodes(old(inner.View()), bids, inner.View(), events)
  {
    hide RemovesNodes, UpdatesRelation, GenerateEdgeUpdate, BeliefBase.Valid;
    if bids == {} {
      NoNodesRemoved(inner.View(), bids);
      return [];
    }
    var list := SetToSeq(bids);
    assert BidSet(list) == bids;
    var result := inner.ProcessEvent(NodesRemoved(list, Remote));
    events := result.value;
  }

  /**
   Complete nodes of the store stay; otherwise a node the shard lists under `n` and has under some key is taken,
   from the highest key; every other id is as before.
   */
  ghost predicate NodeLoaded(before: States, shard: States, after: States, n: Bid) {
    if n in before && Trace !in before[n].kind then n in after && after[n] == before[n]
    else if n in shard && exists b :: b in shard && shard[b].bid == n then
      n in after && exists b :: b in shard && shard[b].bid == n && after[n] == shard[b]
                      && forall c | c in shard && shard[c].bid == n :: c <= b
    else (n in after <==> n in before) && (n in before ==> after[n] == before[n])
  }

  /** The edge has the same kinds and, sort keys aside, the same weights. */
  ghost predicate AlikeAt(a: Relations, b: Relations, e: Edge) {
    forall k: WeightKind ::
      && (e in a && k in a[e] <==> e in b && k in b[e])
      && (e in a && k in a[e] && e in b && k in b[e] ==> a[e][k].(sortKey := None) == b[e][k].(sortKey := None))
  }

  /**
   An edge of the shard at one of its keys, between nodes of the store, comes out as in the shard, unless it was
   there with equal kinds and sort keys; that one may stay as it was, and every other edge does.
   */
  ghost predicate EdgeLoaded(before: Relations, shard: Graph, nodes: set<Bid>, after: Relations, e: Edge) {
    if e in shard.relations && (e.0 in shard.states || e.1 in shard.states) && e.0 in nodes && e.1 in nodes then
      || AlikeAt(after, shard.relations, e)
      || (&& AlikeAt(after, before, e)
          && e in before
          && forall k: WeightKind ::
               && (k in before[e] <==> k in shard.relations[e])
               && (k in before[e] && k in shard.relations[e] ==>
                     before[e][k].sortKey == shard.relations[e][k].sortKey))
    else AlikeAt(after, before, e)
  }

  /** What a load makes of the store. */
  ghost predicate IsLoaded(before: Store, shard: Graph, after: Store) {
    && after.nodes == before.nodes + after.states.Keys
    && (forall n: Bid :: NodeLoaded(before.states, shard.states, after.states, n))
    && (forall e: Edge :: EdgeLoaded(before.rel, shard, after.nodes, after.rel, e))
    && IsMergeOf(before, shard, None, after)
  }

  lemma MergedNode(lhs: States, rhs: States, n: Bid)
    ensures NodeLoaded(lhs, rhs, MergedStates(lhs, rhs, rhs.Keys), n)
  {
    var wanted := Wanted(lhs, rhs, rhs.Keys);
    var holders := Holders(rhs, wanted, n);
    forall b | b in rhs && rhs[b].bid == n
      ensures b in holders <==> n in rhs && !(n in lhs && Trace !in lhs[n].kind)
    {
    }
    hide Wanted;
    if holders != {} {
      var top := MaxOf(holders);
      assert forall c | c in holders :: c <= top;
    }
  }

  lemma MergedEdge(before: Relations, shard: Graph, nodes: set<Bid>, tree: seq<Edge>, after: Relations, e: Edge)
    requires Unkeyed(after, e) ==
             if Written(before, shard.relations, shard.states.Keys, tree, e) && e.0 in nodes && e.1 in nodes
             then Unkeyed(shard.relations, e) else Unkeyed(before, e)
    ensures EdgeLoaded(before, shard, nodes, after, e)
  {
    UnkeyedAlike(after, shard.relations, e);
    UnkeyedAlike(after, before, e);
    hide Unkeyed, AlikeAt;
    if e in shard.relations && e in before && Present(before, e, shard.relations[e]) {
      assert before[e].Keys == shard.relations[e].Keys;
    }
  }

  lemma UnkeyedAlike(a: Relations, b: Relations, e: Edge)
    ensures Unkeyed(a, e) == Unkeyed(b, e) ==> AlikeAt(a, b, e)
  {
    forall k: WeightKind
      ensures e in a && k in a[e] <==> k in Unkeyed(a, e)
      ensures e in b && k in b[e] <==> k in Unkeyed(b, e)
    {
    }
  }

  method MergeAll(inner: BeliefBase, graph: Graph)
    requires inner.Valid()
    modifies inner
    ensures inner.Valid() && inner.states.Keys == old(inner.states.Keys) + Gained(graph.states)
    ensures IsLoaded(old(inner.View()), graph, inner.View())
  {
    ghost var before := inner.View();
    MergedKeys(inner.states, graph.states);
    forall n: Bid {
      MergedNode(inner.states, graph.states, n);
    }
    hide BeliefBase.Valid, MergedStates, Unkeyed, Written, NodeLoaded, EdgeLoaded, IsMergeOf;
    ghost var tree, ops, stores := MergeGraph(inner, graph, None);
    forall e: Edge {
      MergedEdge(before.rel, graph, inner.View().nodes, tree, inner.rel, e);
    }
  }

  class ShardedBase {
    const inner: BeliefBase
    var loaded: Loaded
    ghost const initial: set<Bid>  // the nodes of the store before any shard
    ghost var ever: set<Bid>       // every id listed by a shard loaded so far

    ghost predicate Valid()
      reads this, inner
    {
      inner.Valid()
    }

    /** The store holds the nodes of the loaded shards and the initial ones no shard ever listed. */
    ghost predicate Even()
      reads this, inner
    {
      Balanced(inner.states.Keys, loaded, initial, ever)
    }

    constructor (inner: BeliefBase)
      requires inner.Valid()
      ensures Valid() && Even() && this.inner == inner && loaded == map[] && initial == inner.states.Keys
    {
      this.inner := inner;
      this.loaded, this.initial, this.ever := map[], inner.states.Keys, {};
    }

    /** `unload_shard`: an unknown key changes nothing, else the nodes no other shard lists are removed. */
    method UnloadShard(key: string) returns (remaining: nat, ghost events: seq<BeliefEvent>)
      requires Valid()
      modifies this, inner
      ensures Valid() && ever == old(ever) && (old(Even()) ==> Even())
      ensures loaded == old(loaded) - {key}
      ensures RemovesNodes(old(inner.View()), Dropped(old(loaded), key), inner.View(), events)
      ensures inner.states.Keys == old(inner.states.Keys) - Dropped(old(loaded), key)
      ensures remaining == |inner.states|
    {
      hide Balanced, BeliefBase.Valid, Dropped, RemovesNodes, Union;
      ghost var st, before := inner.View(), loaded;
      if Balanced(st.states.Keys, before, initial, ever) {
        UnloadBalanced(st.states.Keys, before, initial, ever, key);
      }
      if key !in loaded {
        NothingDropped(before, key, st);
        return |inner.states|, [];
      }
      var bids := loaded[key];
      loaded := loaded - {key};
      events := DropUnneeded(bids, before, key);
      remaining := |inner.states|;
    }

    method DropUnneeded(bids: set<Bid>, ghost before: Loaded, ghost key: string)
      returns (ghost events: seq<BeliefEvent>)
      requires Valid() && key in before && loaded == before - {key} && bids == before[key]
      modifies inner
      ensures inner.Valid() && RemovesNodes(old(inner.View()), Dropped(before, key), inner.View(), events)
      ensures inner.states.Keys == old(inner.states.Keys) - Dropped(before, key)
    {
      hide BeliefBase.Valid, RemovesNodes, Union;
      ghost var st := inner.View();
      events := RemoveUnneeded(inner, bids - Union(loaded));
      RemovedKeys(st, Dropped(before, key), inner.View(), events);
    }

    /**
     `load_shard`: unload the old copy first, leaving `kept`; then parse; a text that does not parse leaves it
     unloaded. The shard is recorded under its keys, and the balance is kept exactly when each is then a node.
     */
    method LoadShard(key: string, parsed: Option<Graph>)
      returns (total: Result<nat>, ghost kept: Store, ghost events: seq<BeliefEvent>)
      requires Valid()
      modifies this, inner
      ensures Valid() && (total.Success? <==> parsed.Some?)
      ensures RemovesNodes(old(inner.View()), Dropped(old(loaded), key), kept, events)
      ensures kept.states.Keys == old(inner.states.Keys) - Dropped(old(loaded), key)
      ensures match parsed
              case None =>
                && loaded == old(loaded) - {key} && inner.View() == kept
                && (old(Even()) ==> Even())
              case Some(g) =>
                && loaded == old(loaded)[key := g.states.Keys] && IsLoaded(kept, g, inner.View())
                && inner.states.Keys == kept.states.Keys + Gained(g.states)
                && total == Success(|inner.states|)
                && (old(Even()) ==> (Even() <==> g.states.Keys <= kept.states.Keys + Gained(g.states)))
    {
      hide BeliefBase.Valid, Dropped, RemovesNodes, Balanced, Gained, IsLoaded;
      if key in loaded {
        var remaining;
        remaining, events := UnloadShard(key);
      } else {
        events := [];
        NothingDropped(loaded, key, inner.View());
      }
      kept := inner.View();
      if parsed.None? {
        total := Failure("malformed shard");
        return;
      }
      Reloaded(old(loaded), key, parsed.value.states.Keys);
      if Even() {
        LoadBalancedIff(inner.states.Keys, loaded, initial, ever, key, parsed.value.states);
      }
      total := AddShard(key, parsed.value);
    }

    /** The part of `load_shard` after parsing. */
    method AddShard(key: string, graph: Graph) returns (total: Result<nat>)
      requires Valid() && key !in loaded
      modifies this, inner
      ensures Valid() && total == Success(|inner.states|)
      ensures loaded == old(loaded)[key := graph.states.Keys] && ever == old(ever) + graph.states.Keys
      ensures inner.states.Keys == old(inner.states.Keys) + Gained(graph.states)
      ensures IsLoaded(old(inner.View()), graph, inner.View())
    {
      hide BeliefBase.Valid, Gained, IsLoaded, Union;
      var bids := graph.states.Keys;
      MergeAll(inner, graph);
      loaded := loaded[key := bids];
      ever := ever + bids;
      total := Success(|inner.states|);
    }
  }

  lemma NothingDropped(loaded: Loaded, key: string, st: Store)
    requires key !in loaded
    ensures Dropped(loaded, key) == {} && loaded - {key} == loaded
    ensures st.states.Keys - Dropped(loaded, key) == st.states.Keys
    ensures RemovesNodes(st, Dropped(loaded, key), st, [])
  {
    NoNodesRemoved(st, {});
  }

  lemma RemovedKeys(st: Store, bids: set<Bid>, st': Store, events: seq<BeliefEvent>)
    requires RemovesNodes(st, bids, st', events)
    ensures st'.states.Keys == st.states.Keys - bids
  {
  }

  lemma Reloaded(loaded: Loaded, key: string, bids: set<Bid>)
    ensures (loaded - {key})[key := bids] == loaded[key := bids]
  {
  }

  lemma MergedKeys(lhs: States, rhs: States)
    ensures MergedStates(lhs, rhs, rhs.Keys).Keys == lhs.Keys + Gained(rhs)
  {
    var wanted := Wanted(lhs, rhs, rhs.Keys);
    forall n | n in Gained(rhs) && n !in lhs ensures Held(rhs, wanted, n).Some? {
      var b :| b in rhs && rhs[b].bid == n;
      assert b in Holders(rhs, wanted, n);
    }
    forall n | Held(rhs, wanted, n).Some? && n in rhs ensures n in Gained(rhs) {
      var b :| b in Holders(rhs, wanted, n);
    }
  }

  /** A node that another loaded shard lists survives dropping one of them. */
  lemma SharedNodeSurvives(loaded: Loaded, key: string, other: string, b: Bid)
    requires other in loaded && other != key && b in loaded[other]
    ensures b !in Dropped(loaded, key)
  {
    assert other in loaded - {key} && b in (loaded - {key})[other];
    assert Covered(loaded - {key}, b);
  }
}
