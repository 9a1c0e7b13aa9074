/**
 Replaying a diff through the store itself (src/beliefbase/base.rs): fresh sort keys and renumbering
 included. Apart from sort keys it ends where plain maps end, as long as the ends of every edge are known.
 */
module DiffStore {
  import opened Properties
  import opened BeliefStore
  import opened BeliefGraphs
  import opened Diffs
  import opened DiffBuild
  import opened DiffReplay
  import Replica

  // ------------------------------------------------------------------ alike but for sort keys

  predicate LikeWeight(a: Weight, b: Weight) {
    a.(sortKey := None) == b.(sortKey := None)
  }

  ghost predicate LikeWeights(a: WeightSet, b: WeightSet) {
    a.Keys == b.Keys && forall k | k in a :: LikeWeight(a[k], b[k])
  }

  /** The same edges, kinds and weights, sort keys aside. */
  ghost predicate Like(a: Relations, b: Relations) {
    a.Keys == b.Keys && forall e | e in a :: LikeWeights(a[e], b[e])
  }

  lemma LikeThrough(a: Relations, b: Relations, c: Relations)
    requires Like(a, b) && Like(b, c)
    ensures Like(a, c)
  {
  }

  lemma RenumberedLike(r: Relations, r': Relations, sinks: SinkKinds)
    requires SameButKeys(r, r', sinks)
    ensures Like(r', r)
  {
    forall e, k | e in r && k in r[e] ensures LikeWeight(r'[e][k], r[e][k]) {
    }
  }

  lemma WriteLike(a: Relations, b: Relations, e: Edge, ws: WeightSet, us: WeightSet)
    requires Like(a, b) && LikeWeights(ws, us)
    ensures Like(WriteEdge(a, e, ws), WriteEdge(b, e, us))
  {
    assert ws == map[] <==> us == map[];
    hide LikeWeights;
  }

  lemma SameWeightsLike(ws: WeightSet)
    ensures LikeWeights(ws, ws)
  {
  }

  lemma WeightsAtLike(a: Relations, b: Relations, e: Edge)
    requires Like(a, b)
    ensures LikeWeights(WeightsAt(a, e), WeightsAt(b, e)) && (e in a <==> e in b)
  {
  }

  lemma ScopedLike(e: Edge, a: WeightSet, b: WeightSet, bids: set<Bid>)
    requires LikeWeights(a, b)
    ensures LikeWeights(ScopedWeights(e, a, bids), ScopedWeights(e, b, bids))
    ensures ScopedWeights(e, a, bids) == map[] <==> ScopedWeights(e, b, bids) == map[]
  {
    forall k | k in a ensures InScope(e, k, a[k], bids) <==> InScope(e, k, b[k], bids) {
      assert a[k].ownedBy == a[k].(sortKey := None).ownedBy == b[k].ownedBy;
    }
    assert ScopedWeights(e, a, bids).Keys == ScopedWeights(e, b, bids).Keys;
  }

  lemma LikeViews(a: Relations, b: Relations, bids: set<Bid>)
    requires Like(a, b)
    ensures Like(View(a, bids), View(b, bids))
  {
    forall e: Edge
      ensures e in View(a, bids) <==> e in View(b, bids)
      ensures e in View(a, bids) ==> LikeWeights(View(a, bids)[e], View(b, bids)[e])
    {
      ViewAt(a, bids, e);
      ViewAt(b, bids, e);
      hide View, ScopedWeights, LikeWeights;
      if e in a {
        ScopedLike(e, a[e], b[e], bids);
      }
    }
    hide View, LikeWeights;
  }

  // ------------------------------------------------------------------ one event

  /** An event of a diff: from outside, and what it writes is an edge of the new view. */
  predicate FromDiff(ev: BeliefEvent, now: Relations) {
    match ev
    case NodeUpdate(_, origin) => origin == Remote
    case NodesRemoved(_, origin) => origin == Remote
    case RelationUpdate(s, t, _, origin) => origin == Remote && (s, t) in now
    case RelationRemoved(_, _, origin) => origin == Remote
    case RelationChange(s, t, _, w, origin) => origin == Remote && (s, t) in now && w.Some?
    case _ => false
  }

  lemma UpdateLike(st: Store, s: Bid, t: Bid, ws: WeightSet, st': Store, events: seq<BeliefEvent>, target: Relations)
    requires UpdatesRelation(st, s, t, ws, st', events) && s in st.nodes && t in st.nodes
    requires Like(WriteEdge(st.rel, (s, t), ws), target)
    ensures Like(st'.rel, target)
  {
    var written := WriteEdge(st.rel, (s, t), ws);
    RenumberedLike(written, st'.rel, map[t := WeightsAt(st.rel, (s, t)).Keys - ws.Keys]);
    LikeThrough(st'.rel, written, target);
  }

  lemma RemoveLike(st: Store, s: Bid, t: Bid, st': Store, events: seq<BeliefEvent>, rel: Relations)
    requires st.Valid() && UpdatesRelation(st, s, t, map[], st', events) && Like(st.rel, rel)
    ensures Like(st'.rel, rel - {(s, t)})
  {
    if s in st.nodes && t in st.nodes {
      SameWeightsLike(map[]);
      WriteLike(st.rel, rel, (s, t), map[], map[]);
      UpdateLike(st, s, t, map[], st', events, rel - {(s, t)});
    } else {
      assert (s, t) !in st.rel && rel - {(s, t)} == rel;
    }
  }

  lemma NodesLike(st: Store, bids: set<Bid>, st': Store, events: seq<BeliefEvent>, rel: Relations)
    requires RemovesNodes(st, bids, st', events) && Like(st.rel, rel)
    ensures Like(st'.rel, WithoutNodes(rel, bids))
  {
    var kept := WithoutNodes(st.rel, bids);
    RenumberedLike(kept, st'.rel, LostSinks(st.rel, bids));
    hide LikeWeights;
    assert Like(kept, WithoutNodes(rel, bids));
    LikeThrough(st'.rel, kept, WithoutNodes(rel, bids));
  }

  /** The store gives a merged weight a key if it has none; plain maps do not. */
  lemma SetLike(ws: WeightSet, us: WeightSet, k: WeightKind, w: Weight, key: SortKey)
    requires LikeWeights(ws, us)
    ensures var merged := if k in ws then ws[k].Merge(w) else w;
            LikeWeights(ws[k := WithKey(merged, key)], SetWeight(us, k, w))
  {
  }

  lemma ChangeLike(st: Store, s: Bid, t: Bid, k: WeightKind, w: Weight, ws: Option<WeightSet>, rel: Relations)
    requires Like(st.rel, rel) && ws == GenerateEdgeUpdate(st, s, t, k, Some(w))
    ensures var target := rel[(s, t) := SetWeight(WeightsAt(rel, (s, t)), k, w)];
            match ws
            case None => Like(st.rel, target)
            case Some(us) => Like(WriteEdge(st.rel, (s, t), us), target)
  {
    var e := (s, t);
    var present, after := WeightsAt(st.rel, e), SetWeight(WeightsAt(rel, e), k, w);
    var key := NextKey(st.rel, t, k);
    hide NextKey;
    WeightsAtLike(st.rel, rel, e);
    SetLike(present, WeightsAt(rel, e), k, w, key);
    var keyed := present[k := WithKey(if k in present then present[k].Merge(w) else w, key)];
    assert after != map[] by {
      assert k in after;
    }
    WriteLike(st.rel, rel, e, keyed, after);
    if ws.None? {
      assert keyed == present && WriteEdge(st.rel, e, keyed) == st.rel;
    }
  }

  /** One event of a diff does to the store what it does to plain maps. */
  lemma StepLike(st: Store, ev: BeliefEvent, st': Store, events: seq<BeliefEvent>, rel: Relations, now: Relations)
    requires st.Valid() && Processes(st, ev, st', events) && FromDiff(ev, now) && Replica.LiveEndpoints(st, ev)
    requires Like(st.rel, rel)
    ensures Like(st'.rel, Patch(rel, ev))
  {
    hide Like, UpdatesRelation, RemovesNodes, GenerateEdgeUpdate, WriteEdge, SetWeight, WithoutNodes, Store.Valid;
    match ev
    case NodeUpdate(_, _) =>
    case NodesRemoved(bids, _) => NodesLike(st, BidSet(bids), st', events, rel);
    case RelationUpdate(s, t, ws, _) =>
      SameWeightsLike(ws);
      WriteLike(st.rel, rel, (s, t), ws, ws);
      UpdateLike(st, s, t, ws, st', events, WriteEdge(rel, (s, t), ws));
    case RelationRemoved(s, t, _) => RemoveLike(st, s, t, st', events, rel);
    case RelationChange(s, t, k, w, _) =>
      var ws := GenerateEdgeUpdate(st, s, t, k, w);
      ChangeLike(st, s, t, k, w.value, ws, rel);
      if ws.Some? {
        UpdateLike(st, s, t, ws.value, st', events[1..], Patch(rel, ev));
      }
  }

  // ------------------------------------------------------------------ whole diffs

  ghost predicate DiffOnly(evs: seq<BeliefEvent>, now: Relations) {
    forall ev | ev in evs :: FromDiff(ev, now)
  }

  lemma {:induction false} RunLike(stores: seq<Store>, evs: seq<BeliefEvent>, derived: seq<seq<BeliefEvent>>,
      now: Relations, n: nat)
    requires Run(stores, evs, derived) && stores[0].Valid() && DiffOnly(evs, now) && n <= |evs|
    requires forall i | 0 <= i < |evs| :: Replica.LiveEndpoints(stores[i], evs[i])
    ensures stores[n].Valid() && Like(stores[n].rel, Patched(stores[0].rel, evs[..n]))
  {
    hide Processes, Patch, Like, Store.Valid, FromDiff;
    if n == 0 {
      assert evs[..0] == [];
      SameLike(stores[0].rel);
    } else {
      RunLike(stores, evs, derived, now, n - 1);
      assert evs[..n][..n - 1] == evs[..n - 1] && evs[n - 1] in evs;
      ProcessingKeepsValid(stores[n - 1], evs[n - 1], stores[n], derived[n - 1]);
      StepLike(stores[n - 1], evs[n - 1], stores[n], derived[n - 1], Patched(stores[0].rel, evs[..n - 1]), now);
    }
  }

  lemma SameLike(rel: Relations)
    ensures Like(rel, rel)
  {
  }

  lemma {:induction false} RunValid(stores: seq<Store>, evs: seq<BeliefEvent>, derived: seq<seq<BeliefEvent>>, n: nat)
    requires Run(stores, evs, derived) && stores[0].Valid() && n <= |evs|
    ensures stores[n].Valid()
  {
    hide Processes, Store.Valid;
    if n == 0 {
    } else {
      RunValid(stores, evs, derived, n - 1);
      ProcessingKeepsValid(stores[n - 1], evs[n - 1], stores[n], derived[n - 1]);
    }
  }

  lemma RelationKeepsNodes(st: Store, ev: BeliefEvent, st': Store, events: seq<BeliefEvent>)
    requires Processes(st, ev, st', events) && !ev.NodesRemoved? && !ev.NodeUpdate?
    ensures st'.nodes == st.nodes
  {
    hide Reindexed, ChangeEvents, GenerateEdgeUpdate;
  }

  /** From the first relation event on the nodes stay. */
  lemma {:induction false} NodesStay(stores: seq<Store>, evs: seq<BeliefEvent>, derived: seq<seq<BeliefEvent>>,
      m: nat, n: nat)
    requires Run(stores, evs, derived) && m <= n <= |evs| && RelationOnly(evs[m..])
    ensures stores[n].nodes == stores[m].nodes
    decreases n
  {
    hide Processes;
    if m == n {
    } else {
      NodesStay(stores, evs, derived, m, n - 1);
      assert evs[m..][n - 1 - m] == evs[n - 1];
      RelationKeepsNodes(stores[n - 1], evs[n - 1], stores[n], derived[n - 1]);
    }
  }

  lemma {:induction false} UpdatesAreNodes(after: States, bids: seq<Bid>, now: Relations)
    requires forall b | b in bids :: b in after
    ensures forall ev | ev in UpdateEvents(after, bids) :: ev.NodeUpdate? && FromDiff(ev, now)
  {
    if bids == [] {
    } else {
      UpdatesAreNodes(after, bids[..|bids| - 1], now);
    }
  }

  lemma {:induction false} DropsFromDiff(edges: seq<Edge>, now: Relations)
    ensures DiffOnly(DropEvents(edges), now)
  {
    if edges == [] {
    } else {
      DropsFromDiff(edges[..|edges| - 1], now);
    }
  }

  lemma {:induction false} AddsFromDiff(now: Relations, edges: seq<Edge>)
    requires forall e | e in edges :: e in now
    ensures DiffOnly(AddEvents(now, edges), now)
  {
    if edges == [] {
    } else {
      assert edges[|edges| - 1] in edges;
      AddsFromDiff(now, edges[..|edges| - 1]);
    }
  }

  lemma {:induction false} WeightsFromDiff(now: Relations, changes: seq<Change>)
    requires forall c: Change | c in changes :: c.0 in now && c.1 in now[c.0]
    ensures DiffOnly(WeightEvents(now, changes), now)
  {
    if changes == [] {
    } else {
      var c: Change := changes[|changes| - 1];
      assert c in changes && (c.0.0, c.0.1) == c.0;
      WeightsFromDiff(now, changes[..|changes| - 1]);
    }
  }

  lemma EventsFromDiff(after: Graph, parsed: set<Bid>, d: Diff)
    requires DiffKnown(after, parsed, d)
    ensures DiffOnly(Events(after, parsed, d), View(after.relations, parsed))
  {
    var now := View(after.relations, parsed);
    UpdatesAreNodes(after.states, d.updated, now);
    DropsFromDiff(d.dropped, now);
    AddsFromDiff(now, d.added);
    WeightsFromDiff(now, d.changed);
    hide View, UpdateEvents, DropEvents, AddEvents, WeightEvents;
  }

  /** Both ends of every edge are known. */
  ghost predicate EndsKnown(rel: Relations, nodes: set<Bid>) {
    forall e | e in rel :: e.0 in nodes && e.1 in nodes
  }

  /** With the ends of the new view's edges known afterwards, every event that writes one names known nodes. */
  lemma EventsAreLive(after: Graph, parsed: set<Bid>, d: Diff, stores: seq<Store>, derived: seq<seq<BeliefEvent>>)
    requires DiffKnown(after, parsed, d) && Run(stores, Events(after, parsed, d), derived)
    requires EndsKnown(View(after.relations, parsed), stores[|stores| - 1].nodes)
    ensures forall i | 0 <= i < |Events(after, parsed, d)| ::
              Replica.LiveEndpoints(stores[i], Events(after, parsed, d)[i])
  {
    var evs, now := Events(after, parsed, d), View(after.relations, parsed);
    var first := RemovedEvents(d.removed) + UpdateEvents(after.states, d.updated);
    var rest := EventParts(after, parsed, d);
    EventsFromDiff(after, parsed, d);
    UpdatesAreNodes(after.states, d.updated, now);
    hide View, Events, UpdateEvents, DiffKnown, Processes;
    assert evs == first + rest && evs[|first|..] == rest;
    forall i | 0 <= i < |evs|
      ensures Replica.LiveEndpoints(stores[i], evs[i])
    {
      assert evs[i] in evs;
      if i < |first| {
        assert evs[i] == first[i] && first[i] in first;
      } else {
        NodesStay(stores, evs, derived, |first|, i);
        NodesStay(stores, evs, derived, |first|, |evs|);
      }
    }
  }

  /** Through the store, whatever is renumbered, a diff leaves what it leaves on plain maps, sort keys aside. */
  lemma StoreReplaysAlike(before: Graph, after: Graph, parsed: set<Bid>, d: Diff, stores: seq<Store>,
      derived: seq<seq<BeliefEvent>>)
    requires DiffKnown(after, parsed, d) && Run(stores, Events(after, parsed, d), derived)
    requires stores[0].Valid() && stores[0].rel == before.relations
    requires EndsKnown(View(after.relations, parsed), stores[|stores| - 1].nodes)
    ensures Like(stores[|stores| - 1].rel, Replayed(before, after, parsed, d))
  {
    var evs := Events(after, parsed, d);
    EventsAreLive(after, parsed, d, stores, derived);
    EventsFromDiff(after, parsed, d);
    hide Like, Events, Processes, Store.Valid, FromDiff, EndsKnown, View;
    RunLike(stores, evs, derived, View(after.relations, parsed), |evs|);
    assert evs[..|evs|] == evs;
  }

  /** The same edges and kinds. */
  ghost predicate SameShape(a: Relations, b: Relations) {
    a.Keys == b.Keys && forall e | e in a :: a[e].Keys == b[e].Keys
  }

  /**
   A diff that replays on plain maps gives the store the edges and kinds of the new view exactly if the
   store knows both ends of each of those edges by then.
   */
  lemma StoreReplayIff(before: Graph, after: Graph, parsed: set<Bid>, d: Diff, stores: seq<Store>,
      derived: seq<seq<BeliefEvent>>)
    requires IsDiff(before, after, parsed, d) && DiffKnown(after, parsed, d)
    requires forall e: Edge :: EdgeReplayable(before, after, parsed, e)
    requires Run(stores, Events(after, parsed, d), derived)
    requires stores[0].Valid() && stores[0].rel == before.relations
    ensures var st := stores[|stores| - 1];
            SameShape(View(st.rel, parsed), View(after.relations, parsed))
            <==> EndsKnown(View(after.relations, parsed), st.nodes)
  {
    var st, now := stores[|stores| - 1], View(after.relations, parsed);
    RunValid(stores, Events(after, parsed, d), derived, |stores| - 1);
    if EndsKnown(now, st.nodes) {
      StoreReplaysAlike(before, after, parsed, d, stores, derived);
      ReplayAgreesIff(before, after, parsed, d);
      hide View, Replayed, EdgeReplayable, IsDiff, DiffKnown, Run, Events;
      LikeViews(st.rel, Replayed(before, after, parsed, d), parsed);
      ShapeThrough(View(st.rel, parsed), View(Replayed(before, after, parsed, d), parsed), now);
    } else {
      ViewWithin(st, parsed);
      hide View;
    }
  }

  lemma ShapeThrough(a: Relations, b: Relations, c: Relations)
    requires Like(a, b) && SameView(b, c)
    ensures SameShape(a, c)
  {
  }

  lemma ViewWithin(st: Store, parsed: set<Bid>)
    requires st.Valid()
    ensures EndsKnown(View(st.rel, parsed), st.nodes)
  {
  }

  // ------------------------------------------------------------------ an edge to an unknown node

  /** The new base has an edge from the parsed node 1 to node 2, which nobody parsed and the store lacks. */
  const UNKNOWN_END: Relations := map[(1, 2) := map[Section := Weight(Some(0), None, {}, map[])]]

  function Plain(b: Bid): BeliefNode {
    BeliefNode(b, {}, "", None, None)
  }

  lemma UnknownEndView()
    ensures View(UNKNOWN_END, {1}) == UNKNOWN_END && View(map[], {1}) == map[]
  {
    var e: Edge := (1, 2);
    assert ScopedWeights(e, UNKNOWN_END[e], {1}) == UNKNOWN_END[e];
    assert Section in UNKNOWN_END[e];
  }

  lemma UnknownEndDiff() returns (d: Diff)
    ensures var before := Graph(map[1 := Plain(1)], map[]);
            var after := Graph(map[1 := Plain(1), 2 := Plain(2)], UNKNOWN_END);
            && d == Diff([], [], [], [(1, 2)], [])
            && IsDiff(before, after, {1}, d) && DiffKnown(after, {1}, d)
            && forall e: Edge :: EdgeReplayable(before, after, {1}, e)
  {
    var before := Graph(map[1 := Plain(1)], map[]);
    var after := Graph(map[1 := Plain(1), 2 := Plain(2)], UNKNOWN_END);
    d := Diff([], [], [], [(1, 2)], []);
    NothingRemoved(before, after, {1});
    UnknownEndView();
    assert {1} + {} == {1};
    hide View, Removed;
    var now := View(after.relations, {1});
    assert now.Keys - View(before.relations, {1}).Keys == {(1, 2)};
  }

  /** The diff reports the edge, the store ignores it. */
  lemma UnknownEndIsLost() returns (d: Diff, stores: seq<Store>, derived: seq<seq<BeliefEvent>>)
    ensures var before := Graph(map[1 := Plain(1)], map[]);
            var after := Graph(map[1 := Plain(1), 2 := Plain(2)], UNKNOWN_END);
            && IsDiff(before, after, {1}, d) && DiffKnown(after, {1}, d)
            && (forall e: Edge :: EdgeReplayable(before, after, {1}, e))
            && Run(stores, Events(after, {1}, d), derived)
            && stores[0] == Store(before.states, {1}, before.relations)
            && !SameShape(View(stores[|stores| - 1].rel, {1}), View(after.relations, {1}))
  {
    var before := Graph(map[1 := Plain(1)], map[]);
    var after := Graph(map[1 := Plain(1), 2 := Plain(2)], UNKNOWN_END);
    d := UnknownEndDiff();
    UnknownEndView();
    hide IsDiff, EdgeReplayable, View;
    var st := Store(before.states, {1}, before.relations);
    var e: Edge := (1, 2);
    var edges: seq<Edge> := [e];
    var ev := RelationUpdate(1, 2, UNKNOWN_END[e], Remote);
    assert edges[..0] == [];
    assert AddEvents(UNKNOWN_END, edges) == [ev];
    assert Events(after, {1}, d) == [ev];
    stores, derived := [st, st], [[]];
    assert e in UNKNOWN_END;
  }
}
