/**
 What each event of the store (src/beliefbase/base.rs, `process_event`) does to states, edges and weights,
 spelled out field by field: the reader needs no other definition than that a step processes the event.
 */
module Effects {
  import opened Properties
  import opened BeliefStore

  // ------------------------------------------------------------------ writing one edge

  /** Nothing is renumbered when no kind is lost. */
  lemma NothingLost(st: Store, s: Bid, t: Bid, ws: WeightSet, st': Store, events: seq<BeliefEvent>)
    requires UpdatesRelation(st, s, t, ws, st', events) && s in st.nodes && t in st.nodes && ws != map[]
    requires (s, t) in st.rel ==> st.rel[(s, t)].Keys <= ws.Keys
    ensures st' == st.(rel := st.rel[(s, t) := ws]) && events == []
  {
    var written := st.rel[(s, t) := ws];
    assert WeightsAt(st.rel, (s, t)).Keys - ws.Keys == {};
    assert SameButKeys(written, st'.rel, map[t := {}]);
    hide Renumbered;
    forall e | e in written ensures st'.rel[e] == written[e] {
      forall k | k in written[e] ensures st'.rel[e][k] == written[e][k] {
        assert !Affected(map[t := {}], e.1, k);
      }
    }
    assert st'.rel == written;
    NothingToTell(written, events);
  }

  lemma NothingToTell(rel: Relations, events: seq<BeliefEvent>)
    requires ChangeEvents(rel, rel, events)
    ensures events == []
  {
    SomeMember(events);
  }

  lemma SomeMember(events: seq<BeliefEvent>)
    ensures events == [] || exists ev :: ev in events
  {
    if events != [] {
      assert events[0] in events;
    }
  }

  /** Weights are kept but for the sort keys of the given kinds into `t`. */
  ghost predicate KeptButKeys(was: Relations, now: Relations, e: Edge, t: Bid, kinds: set<WeightKind>) {
    && e in was && e in now && now[e].Keys == was[e].Keys
    && forall k | k in was[e] ::
         && now[e][k].(sortKey := None) == was[e][k].(sortKey := None)
         && (e.1 != t || k !in kinds ==> now[e][k] == was[e][k])
  }

  /** Writing an edge: the kinds it loses are renumbered at its sink, nothing else is touched. */
  lemma WriteKeeps(st: Store, s: Bid, t: Bid, ws: WeightSet, st': Store, events: seq<BeliefEvent>, e: Edge)
    requires UpdatesRelation(st, s, t, ws, st', events) && s in st.nodes && t in st.nodes
    ensures st'.states == st.states && st'.nodes == st.nodes
    ensures e != (s, t) ==> (e in st'.rel <==> e in st.rel)
    ensures e != (s, t) && e in st.rel ==>
              KeptButKeys(st.rel, st'.rel, e, t, if (s, t) in st.rel then st.rel[(s, t)].Keys - ws.Keys else {})
    ensures (s, t) in st'.rel <==> ws != map[]
    ensures ws != map[] ==> st'.rel[(s, t)] == ws
  {
    var lost := WeightsAt(st.rel, (s, t)).Keys - ws.Keys;
    hide Renumbered, ChangeEvents;
    var written := WriteEdge(st.rel, (s, t), ws);
    assert SameButKeys(written, st'.rel, map[t := lost]);
    if ws != map[] {
      forall k | k in ws ensures st'.rel[(s, t)][k] == ws[k] {
        assert !Affected(map[t := lost], t, k);
      }
    }
    if e != (s, t) && e in st.rel {
      forall k | k in st.rel[e]
        ensures st'.rel[e][k].(sortKey := None) == st.rel[e][k].(sortKey := None)
        ensures e.1 != t || k !in lost ==> st'.rel[e][k] == st.rel[e][k]
      {
        assert Affected(map[t := lost], e.1, k) <==> e.1 == t && k in lost;
      }
    }
  }

  // ------------------------------------------------------------------ changing one weight

  /** The weight `now` is `was` with `w` merged in: paths add up, of any other field the given value wins. */
  ghost predicate IsMerged(was: Weight, w: Weight, now: Weight) {
    && (forall p :: p in now.docPaths <==> p in was.docPaths || p in w.docPaths)
    && now.ownedBy == (if w.ownedBy.Some? then w.ownedBy else was.ownedBy)
    && (forall key :: key in now.rest <==> key in was.rest || key in w.rest)
    && (forall key | key in now.rest :: now.rest[key] == if key in w.rest then w.rest[key] else was.rest[key])
  }

  /** The key given to a weight without one: one more than the largest into the sink, in u16 arithmetic. */
  ghost predicate IsNextKey(rel: Relations, t: Bid, k: WeightKind, key: SortKey) {
    if forall u | (u, t) in rel && k in rel[(u, t)] :: rel[(u, t)][k].sortKey.None? then key == 0
    else exists m: SortKey ::
      && (exists u :: (u, t) in rel && k in rel[(u, t)] && rel[(u, t)][k].sortKey == Some(m))
      && (forall u | (u, t) in rel && k in rel[(u, t)] && rel[(u, t)][k].sortKey.Some? ::
            rel[(u, t)][k].sortKey.value <= m)
      && key == (if m == 65535 then 0 else m + 1)
  }

  lemma NextKeyIs(rel: Relations, t: Bid, k: WeightKind)
    ensures IsNextKey(rel, t, k, NextKey(rel, t, k))
  {
    var keys := KeysInto(rel, t, k);
    forall u | (u, t) in rel && k in rel[(u, t)] && rel[(u, t)][k].sortKey.Some?
      ensures rel[(u, t)][k].sortKey.value in keys
    {
      assert u in Keyed(rel, t, k);
    }
    if keys != {} {
      var m := MaxOf(keys);
      var u :| u in Keyed(rel, t, k) && KeyOf(rel, u, t, k).value == m;
      assert (u, t) in rel && rel[(u, t)][k].sortKey == Some(m);
    } else {
      forall u | (u, t) in rel && k in rel[(u, t)] ensures rel[(u, t)][k].sortKey.None? {
      }
    }
  }

  /** The event told about a change, if there was one. */
  ghost predicate ToldOf(st: Store, s: Bid, t: Bid, st': Store, events: seq<BeliefEvent>)
    requires (s, t) in st'.rel
  {
    events == if st'.rel == st.rel then [] else [RelationUpdate(s, t, st'.rel[(s, t)], Remote)]
  }

  /** A weight given for a kind the edge has is merged in; everything else stays as it is, other kinds and keys too. */
  lemma WeightIsMerged(st: Store, s: Bid, t: Bid, k: WeightKind, w: Weight, st': Store, events: seq<BeliefEvent>)
    requires Processes(st, RelationChange(s, t, k, Some(w), Remote), st', events) && s in st.nodes && t in st.nodes
    requires (s, t) in st.rel && k in st.rel[(s, t)]
    ensures (s, t) in st'.rel && k in st'.rel[(s, t)]
    ensures IsMerged(st.rel[(s, t)][k], w, st'.rel[(s, t)][k])
    ensures st'.rel[(s, t)][k].sortKey.Some?
    ensures var was, now := st.rel[(s, t)][k], st'.rel[(s, t)][k];
            if w.sortKey.Some? then now.sortKey == w.sortKey
            else if was.sortKey.Some? then now.sortKey == was.sortKey
            else IsNextKey(st.rel, t, k, now.sortKey.value)
    ensures st' == st.(rel := st.rel[(s, t) := st.rel[(s, t)][k := st'.rel[(s, t)][k]]])
    ensures ToldOf(st, s, t, st', events)
  {
    MergedStep(st, s, t, k, w, st', events);
    NextKeyIs(st.rel, t, k);
    MergedIs(st.rel[(s, t)][k], w, NextKey(st.rel, t, k));
    hide Processes, NextKey, IsNextKey, IsMerged, WithKey, Weight.Merge;
  }

  lemma MergedStep(st: Store, s: Bid, t: Bid, k: WeightKind, w: Weight, st': Store, events: seq<BeliefEvent>)
    requires Processes(st, RelationChange(s, t, k, Some(w), Remote), st', events) && s in st.nodes && t in st.nodes
    requires (s, t) in st.rel && k in st.rel[(s, t)]
    ensures var now := WithKey(st.rel[(s, t)][k].Merge(w), NextKey(st.rel, t, k));
            st' == st.(rel := st.rel[(s, t) := st.rel[(s, t)][k := now]])
    ensures ToldOf(st, s, t, st', events)
  {
    var was := st.rel[(s, t)][k];
    var now := WithKey(was.Merge(w), NextKey(st.rel, t, k));
    PutBack(st.rel, s, t, k);
    hide NextKey, UpdatesRelation, WithKey, Weight.Merge;
    var ws := GenerateEdgeUpdate(st, s, t, k, Some(w));
    if ws.None? {
      assert now == was;
    } else {
      assert ws.value == st.rel[(s, t)][k := now] && k in ws.value;
      NothingLost(st, s, t, ws.value, st', events[1..]);
      assert st'.rel[(s, t)][k] != was;
    }
  }

  lemma MergedIs(was: Weight, w: Weight, key: SortKey)
    ensures var now := WithKey(was.Merge(w), key);
            && IsMerged(was, w, now)
            && now.sortKey == (
                 if w.sortKey.Some? then w.sortKey else if was.sortKey.Some? then was.sortKey else Some(key))
  {
  }

  lemma PutBack(rel: Relations, s: Bid, t: Bid, k: WeightKind)
    requires (s, t) in rel && k in rel[(s, t)]
    ensures rel[(s, t) := rel[(s, t)][k := rel[(s, t)][k]]] == rel
  {
    assert rel[(s, t)][k := rel[(s, t)][k]] == rel[(s, t)];
  }

  /** A weight given for a kind the edge lacks, or for no edge at all, is added as it is, with a key if it had none. */
  lemma WeightIsAdded(st: Store, s: Bid, t: Bid, k: WeightKind, w: Weight, st': Store, events: seq<BeliefEvent>)
    requires Processes(st, RelationChange(s, t, k, Some(w), Remote), st', events) && s in st.nodes && t in st.nodes
    requires (s, t) in st.rel ==> k !in st.rel[(s, t)]
    ensures (s, t) in st'.rel && k in st'.rel[(s, t)]
    ensures st'.rel[(s, t)][k].sortKey.Some?
    ensures var now := st'.rel[(s, t)][k];
            && now == w.(sortKey := now.sortKey)
            && (if w.sortKey.Some? then now.sortKey == w.sortKey else IsNextKey(st.rel, t, k, now.sortKey.value))
    ensures var present := if (s, t) in st.rel then st.rel[(s, t)] else map[];
            st' == st.(rel := st.rel[(s, t) := present[k := st'.rel[(s, t)][k]]])
    ensures events == [RelationUpdate(s, t, st'.rel[(s, t)], Remote)]
  {
    NextKeyIs(st.rel, t, k);
    hide NextKey, IsNextKey, UpdatesRelation;
    var ws := GenerateEdgeUpdate(st, s, t, k, Some(w)).value;
    assert k in ws;
    NothingLost(st, s, t, ws, st', events[1..]);
  }

  /** Without a weight exactly that kind goes, the edge with its last one; the sink is renumbered for that kind. */
  lemma KindIsRemoved(st: Store, s: Bid, t: Bid, k: WeightKind, st': Store, events: seq<BeliefEvent>, e: Edge)
    requires Processes(st, RelationChange(s, t, k, None, Remote), st', events) && s in st.nodes && t in st.nodes
    requires (s, t) in st.rel && k in st.rel[(s, t)]
    ensures st'.states == st.states && st'.nodes == st.nodes
    ensures (s, t) in st'.rel <==> exists j :: j in st.rel[(s, t)] && j != k
    ensures (s, t) in st'.rel ==>
              && (forall j :: j in st'.rel[(s, t)] <==> j in st.rel[(s, t)] && j != k)
              && forall j | j in st'.rel[(s, t)] :: st'.rel[(s, t)][j] == st.rel[(s, t)][j]
    ensures e != (s, t) ==> (e in st'.rel <==> e in st.rel)
    ensures e != (s, t) && e in st.rel ==> KeptButKeys(st.rel, st'.rel, e, t, {k})
    ensures events != [] && events[0] == RelationUpdate(s, t, st.rel[(s, t)] - {k}, Remote)
  {
    var present := st.rel[(s, t)];
    var ws := GenerateEdgeUpdate(st, s, t, k, None).value;
    assert ws == present - {k} && present.Keys - ws.Keys == {k};
    hide UpdatesRelation;
    WriteKeeps(st, s, t, ws, st', events[1..], e);
    if j :| j in present && j != k {
      assert j in ws;
    }
  }

  /** Removing a kind the edge does not have changes nothing and tells nobody. */
  lemma AbsentKindStays(st: Store, s: Bid, t: Bid, k: WeightKind, st': Store, events: seq<BeliefEvent>)
    requires Processes(st, RelationChange(s, t, k, None, Remote), st', events)
    requires (s, t) in st.rel ==> k !in st.rel[(s, t)]
    ensures st' == st && events == []
  {
  }

  // ------------------------------------------------------------------ the other events

  /** An update replaces the weights of its edge, an empty one removes it. */
  lemma EdgeIsReplaced(st: Store, s: Bid, t: Bid, ws: WeightSet, st': Store, events: seq<BeliefEvent>, e: Edge)
    requires Processes(st, RelationUpdate(s, t, ws, Remote), st', events) && s in st.nodes && t in st.nodes
    ensures st'.states == st.states && st'.nodes == st.nodes
    ensures (s, t) in st'.rel <==> ws != map[]
    ensures ws != map[] ==> st'.rel[(s, t)] == ws
    ensures e != (s, t) ==> (e in st'.rel <==> e in st.rel)
    ensures e != (s, t) && e in st.rel ==>
              KeptButKeys(st.rel, st'.rel, e, t, if (s, t) in st.rel then st.rel[(s, t)].Keys - ws.Keys else {})
  {
    WriteKeeps(st, s, t, ws, st', events, e);
  }

  /** A removal deletes its edge. */
  lemma EdgeIsRemoved(st: Store, s: Bid, t: Bid, st': Store, events: seq<BeliefEvent>, e: Edge)
    requires Processes(st, RelationRemoved(s, t, Remote), st', events) && st.Valid()
    ensures st'.states == st.states && st'.nodes == st.nodes
    ensures e in st'.rel <==> e in st.rel && e != (s, t)
    ensures e in st'.rel ==> KeptButKeys(st.rel, st'.rel, e, t, if (s, t) in st.rel then st.rel[(s, t)].Keys else {})
  {
    if s in st.nodes && t in st.nodes {
      WriteKeeps(st, s, t, map[], st', events, e);
    }
  }

  /** A removal of nodes takes their states and every edge touching one. */
  lemma NodesAreRemoved(st: Store, bids: seq<Bid>, st': Store, events: seq<BeliefEvent>, b: Bid, e: Edge)
    requires Processes(st, NodesRemoved(bids, Remote), st', events)
    ensures b in st'.states <==> b in st.states && b !in bids
    ensures b in st'.states ==> st'.states[b] == st.states[b]
    ensures b in st'.nodes <==> b in st.nodes && b !in bids
    ensures e in st'.rel <==> e in st.rel && e.0 !in bids && e.1 !in bids
    ensures e in st'.rel ==>
              && st'.rel[e].Keys == st.rel[e].Keys
              && forall k | k in st.rel[e] ::
                   && st'.rel[e][k].(sortKey := None) == st.rel[e][k].(sortKey := None)
                   && ((forall u | u in bids && (u, e.1) in st.rel :: k !in st.rel[(u, e.1)]) ==>
                         st'.rel[e][k] == st.rel[e][k])
  {
    var kept, sinks := WithoutNodes(st.rel, BidSet(bids)), LostSinks(st.rel, BidSet(bids));
    hide Renumbered, ChangeEvents;
    assert SameButKeys(kept, st'.rel, sinks);
    if e in st'.rel {
      assert st'.rel[e].Keys == kept[e].Keys;
      forall k | k in st.rel[e]
        ensures st'.rel[e][k].(sortKey := None) == st.rel[e][k].(sortKey := None)
        ensures (forall u | u in bids && (u, e.1) in st.rel :: k !in st.rel[(u, e.1)]) ==>
                  st'.rel[e][k] == st.rel[e][k]
      {
        if Affected(sinks, e.1, k) {
          var f :| f in st.rel && f.0 in BidSet(bids) && f.1 == e.1 && k in st.rel[f];
          assert (f.0, e.1) == f;
        }
      }
    }
  }

  /** A node is filed under its own id, whatever was there. */
  lemma NodeIsFiled(st: Store, node: BeliefNode, st': Store, events: seq<BeliefEvent>, b: Bid)
    requires Processes(st, NodeUpdate(node, Remote), st', events)
    ensures b in st'.states <==> b in st.states || b == node.bid
    ensures b in st'.states ==> st'.states[b] == if b == node.bid then node else st.states[b]
    ensures b in st'.nodes <==> b in st.nodes || b == node.bid
    ensures st'.rel == st.rel && events == []
  {
  }

  /** Events of the store's own making, malformed ones and relation events with an unknown end change nothing. */
  lemma IgnoredEvents(st: Store, ev: BeliefEvent, st': Store, events: seq<BeliefEvent>)
    requires Processes(st, ev, st', events)
    requires || ev.NoStoreEffect? || ev.MalformedNodeUpdate? || ev.origin == Local
             || ((ev.RelationUpdate? || ev.RelationRemoved? || ev.RelationChange?)
                 && (ev.source !in st.nodes || ev.sink !in st.nodes))
    ensures st' == st
  {
  }

  // ------------------------------------------------------------------ what is told

  /** The edge an event is about. */
  predicate About(ev: BeliefEvent, e: Edge) {
    (ev.RelationUpdate? || ev.RelationRemoved? || ev.RelationChange?) && ev.source == e.0 && ev.sink == e.1
  }

  /** An edge between the same ends before and after, with other weights, and an event that says so. */
  ghost predicate Tells(was: Relations, now: Relations, told: BeliefEvent) {
    && told.RelationUpdate? && told.origin == Local
    && (told.source, told.sink) in was && (told.source, told.sink) in now
    && told.weights == now[(told.source, told.sink)] != was[(told.source, told.sink)]
  }

  lemma RenumberingTells(r: Relations, r': Relations, events: seq<BeliefEvent>, e: Edge, told: BeliefEvent)
    requires ChangeEvents(r, r', events)
    ensures e in r && r'[e] != r[e] ==> RelationUpdate(e.0, e.1, r'[e], Local) in events
    ensures told in events ==> Tells(r, r', told)
    ensures r'.Keys == r.Keys
  {
  }

  lemma WriteTells(st: Store, s: Bid, t: Bid, ws: WeightSet, st': Store, events: seq<BeliefEvent>, e: Edge,
      told: BeliefEvent)
    requires UpdatesRelation(st, s, t, ws, st', events)
    ensures e != (s, t) && e in st.rel && e in st'.rel && st'.rel[e] != st.rel[e] ==>
              RelationUpdate(e.0, e.1, st'.rel[e], Local) in events
    ensures told in events ==> Tells(st.rel, st'.rel, told) && (told.source, told.sink) != (s, t)
  {
    if s in st.nodes && t in st.nodes {
      RenumberingTells(WriteEdge(st.rel, (s, t), ws), st'.rel, events, e, told);
      WriteKeeps(st, s, t, ws, st', events, (s, t));
      hide UpdatesRelation, KeptButKeys;
    }
  }

  lemma RemovalTells(st: Store, bids: set<Bid>, st': Store, events: seq<BeliefEvent>, e: Edge, told: BeliefEvent)
    requires RemovesNodes(st, bids, st', events)
    ensures e in st.rel && e in st'.rel && st'.rel[e] != st.rel[e] ==>
              RelationUpdate(e.0, e.1, st'.rel[e], Local) in events
    ensures told in events ==> Tells(st.rel, st'.rel, told)
  {
    RenumberingTells(WithoutNodes(st.rel, bids), st'.rel, events, e, told);
    hide Reindexed, ChangeEvents;
  }

  /**
   Every other surviving edge whose weights change is told, with its new weights and as a Local event; and nothing
   else is told but the update a change resolves to, which comes first.
   */
  lemma ChangesAreTold(st: Store, ev: BeliefEvent, st': Store, events: seq<BeliefEvent>, e: Edge, told: BeliefEvent)
    requires Processes(st, ev, st', events)
    ensures !About(ev, e) && e in st.rel && e in st'.rel && st'.rel[e] != st.rel[e] ==>
              RelationUpdate(e.0, e.1, st'.rel[e], Local) in events
    ensures told in events ==>
              || (Tells(st.rel, st'.rel, told) && !About(ev, (told.source, told.sink)))
              || (&& ev.RelationChange? && told.RelationUpdate? && About(ev, (told.source, told.sink))
                  && told == events[0])
  {
    hide UpdatesRelation, RemovesNodes, GenerateEdgeUpdate, Tells;
    if ev.NoStoreEffect? || ev.MalformedNodeUpdate? || ev.origin == Local {
    } else {
      match ev
      case NodeUpdate(node, _) =>
      case NodesRemoved(bids, _) => RemovalTells(st, BidSet(bids), st', events, e, told);
      case RelationUpdate(s, t, ws, _) => WriteTells(st, s, t, ws, st', events, e, told);
      case RelationRemoved(s, t, _) => WriteTells(st, s, t, map[], st', events, e, told);
      case RelationChange(s, t, k, w, _) =>
        var ws := GenerateEdgeUpdate(st, s, t, k, w);
        if ws.Some? {
          WriteTells(st, s, t, ws.value, st', events[1..], e, told);
          assert events == [events[0]] + events[1..];
        }
    }
  }
}
