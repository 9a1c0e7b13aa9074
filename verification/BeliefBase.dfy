/**
 The mutable store of src/beliefbase/base.rs: states, a slot graph, and a table from ids to
 slots that is rebuilt lazily. Every method is proved against the step relations of
 BeliefStore, and every method leaves the table sound whenever it is not marked dirty.
 */
module BeliefBases {
  import opened Properties
  import opened BeliefStore
  import opened SlotGraphs
  import opened Renumbering

  /** Every entry points at a slot holding its id, and every slot is entered. */
  ghost predicate IndexSound(slots: seq<Bid>, index: map<Bid, nat>) {
    && (forall b | b in index :: index[b] < |slots| && slots[index[b]] == b)
    && (forall b | b in slots :: b in index)
  }

  // ------------------------------------------------------------------ shifting keys

  function Shift(ws: WeightSet, keys: map<WeightKind, SortKey>): WeightSet {
    map k | k in ws :: if k in keys then ws[k].(sortKey := Some(keys[k])) else ws[k]
  }

  /** Edges into the sink's slot carry the shifted keys for the sources of `done`; all else is as before. */
  ghost predicate ShiftedFor(before: SlotGraph, after: SlotGraph, sink: nat, changed: Shifts, done: set<nat>) {
    && after.slots == before.slots
    && after.arcs.Keys == before.arcs.Keys
    && forall p | p in before.arcs ::
         after.arcs[p] == if p.1 == sink && p.0 in done && p.0 in changed
                          then Shift(before.arcs[p], changed[p.0]) else before.arcs[p]
  }

  lemma KeyAtSlots(g: SlotGraph, rel: Relations, a: nat, b: nat, k: WeightKind)
    requires g.Represents(rel) && a < |g.slots| && b < |g.slots|
    ensures KeyOf(rel, g.slots[a], g.slots[b], k) == SlotKey(g, a, b, k)
  {
    assert g.EdgeAt((a, b)) == (g.slots[a], g.slots[b]);
    assert g.Has((a, b));
  }

  ghost function BidsAt(slots: seq<Bid>, order: seq<nat>): seq<Bid>
    requires forall i | 0 <= i < |order| :: order[i] < |slots|
  {
    seq(|order|, i requires 0 <= i < |order| => slots[order[i]])
  }

  lemma SlotOrderInRange(g: SlotGraph, sink: nat, k: WeightKind, order: seq<nat>)
    requires SlotOrder(g, sink, k, order)
    ensures forall i | 0 <= i < |order| :: order[i] < |g.slots|
  {
    forall i | 0 <= i < |order| ensures order[i] < |g.slots| {
      assert order[i] in KeyedSlots(g, sink, k);
    }
  }

  lemma BidsAtComplete(g: SlotGraph, rel: Relations, sink: nat, k: WeightKind, order: seq<nat>, s: Bid)
    requires g.Represents(rel) && sink < |g.slots| && SlotOrder(g, sink, k, order)
    requires forall i | 0 <= i < |order| :: order[i] < |g.slots|
    requires KeyOf(rel, s, g.slots[sink], k).Some?
    ensures s in BidsAt(g.slots, order)
  {
    var t := g.slots[sink];
    assert (s, t) in rel && (s, t).0 in g.slots;
    var a: nat :| a < |g.slots| && g.slots[a] == s;
    KeyAtSlots(g, rel, a, sink, k);
    assert a in KeyedSlots(g, sink, k);
    var i: nat :| i < |order| && order[i] == a;
    assert BidsAt(g.slots, order)[i] == s;
  }

  lemma OrderInBids(g: SlotGraph, rel: Relations, sink: nat, k: WeightKind, order: seq<nat>)
    requires g.Represents(rel) && sink < |g.slots| && SlotOrder(g, sink, k, order)
    requires forall i | 0 <= i < |order| :: order[i] < |g.slots|
    ensures SortedByKey(rel, g.slots[sink], k, BidsAt(g.slots, order))
  {
    hide KeyOf, SlotKey, KeyedSlots, Keyed;
    var bids := BidsAt(g.slots, order);
    var t := g.slots[sink];
    forall i | 0 <= i < |bids| ensures KeyOf(rel, bids[i], t, k) == SlotKey(g, order[i], sink, k) {
      KeyAtSlots(g, rel, order[i], sink, k);
    }
    IncomingMembers(rel, t, k);
    forall s | s in Keyed(rel, t, k) ensures s in bids {
      BidsAtComplete(g, rel, sink, k, order, s);
    }
  }

  /** A shifted weight set differs from the old one in the listed keys only. */
  lemma ShiftKeys(g: SlotGraph, sink: nat, orders: Orders, a: nat, ws: WeightSet)
    requires (a, sink) in g.arcs && g.arcs[(a, sink)] == ws
    requires OrdersOf(g, sink, orders) && a < |g.slots|
    ensures var now := Shift(ws, ShiftsAt(g, sink, orders, a));
            && now.Keys == ws.Keys
            && forall k | k in ws ::
                 if k in orders && ws[k].sortKey.Some?
                 then a in orders[k] && now[k] == ws[k].(sortKey := Some(AsU16(Position(orders[k], a))))
                 else now[k] == ws[k]
  {
    var keys := ShiftsAt(g, sink, orders, a);
    forall k | k in ws && k in orders
      ensures ws[k].sortKey.Some? <==> a in orders[k]
    {
      assert SlotOrder(g, sink, k, orders[k]);
      assert a in KeyedSlots(g, sink, k) <==> SlotKey(g, a, sink, k).Some?;
    }
  }

  lemma ShiftedKeys(before: SlotGraph, after: SlotGraph, rel: Relations, rel': Relations,
                    sink: nat, orders: Orders, changed: Shifts)
    requires before.Represents(rel) && after.Represents(rel') && sink < |before.slots|
    requires OrdersOf(before, sink, orders) && CollectsShifts(before, sink, orders, changed)
    requires ShiftedFor(before, after, sink, changed, changed.Keys)
    ensures SameButKeys(rel, rel', map[before.slots[sink] := orders.Keys])
  {
    SameEdges(before, after, rel, rel');
    hide SlotGraph.Represents, OrdersOf, CollectsShifts, ShiftedFor;
    var t := before.slots[sink];
    forall e | e in rel
      ensures rel'[e].Keys == rel[e].Keys
      ensures forall k | k in rel[e] ::
                if e.1 == t && k in orders && rel[e][k].sortKey.Some?
                then rel'[e][k].sortKey.Some? && rel'[e][k] == rel[e][k].(sortKey := rel'[e][k].sortKey)
                else rel'[e][k] == rel[e][k]
    {
      EdgeKeysShifted(before, after, rel, rel', sink, orders, changed, e);
    }
  }

  /** Once every changed source is shifted, the sink is renumbered. */
  lemma ShiftedIsReindexed(before: SlotGraph, after: SlotGraph, rel: Relations, rel': Relations,
                           sink: nat, orders: Orders, changed: Shifts)
    requires before.Represents(rel) && after.Represents(rel') && sink < |before.slots|
    requires OrdersOf(before, sink, orders) && CollectsShifts(before, sink, orders, changed)
    requires ShiftedFor(before, after, sink, changed, changed.Keys)
    ensures Reindexed(rel, rel', map[before.slots[sink] := orders.Keys])
  {
    ShiftedKeys(before, after, rel, rel', sink, orders, changed);
    SameEdges(before, after, rel, rel');
    hide SlotGraph.Represents, OrdersOf, CollectsShifts, ShiftedFor, Renumbered, SameButKeys;
    var t := before.slots[sink];
    forall k | k in orders ensures Renumbered(rel, rel', t, k) {
      KindRenumbered(before, after, rel, rel', sink, orders, changed, k);
    }
  }

  lemma SameEdges(before: SlotGraph, after: SlotGraph, rel: Relations, rel': Relations)
    requires before.Represents(rel) && after.Represents(rel')
    requires after.slots == before.slots && after.arcs.Keys == before.arcs.Keys
    ensures rel'.Keys == rel.Keys
  {
    forall e: Edge | e in rel || e in rel' ensures e in rel && e in rel' {
      var a: nat :| a < |before.slots| && before.slots[a] == e.0;
      var b: nat :| b < |before.slots| && before.slots[b] == e.1;
      assert before.EdgeAt((a, b)) == e && after.EdgeAt((a, b)) == e && before.Has((a, b)) && after.Has((a, b));
    }
  }

  ghost function SlotsOf(g: SlotGraph, rel: Relations, e: Edge): (p: SlotPair)
    requires g.Represents(rel) && e in rel
    ensures g.Has(p) && p in g.arcs && g.EdgeAt(p) == e && g.arcs[p] == rel[e]
  {
    assert e.0 in g.slots && e.1 in g.slots;
    var a: nat :| a < |g.slots| && g.slots[a] == e.0;
    var b: nat :| b < |g.slots| && g.slots[b] == e.1;
    assert g.EdgeAt((a, b)) == e && g.Has((a, b));
    (a, b)
  }

  /** The weights of one edge after the shift. */
  lemma EdgeShifted(before: SlotGraph, after: SlotGraph, rel: Relations, rel': Relations,
                    sink: nat, orders: Orders, changed: Shifts, e: Edge)
    requires before.Represents(rel) && after.Represents(rel') && sink < |before.slots|
    requires CollectsShifts(before, sink, orders, changed)
    requires ShiftedFor(before, after, sink, changed, changed.Keys)
    requires e in rel && rel'.Keys == rel.Keys
    ensures var p := SlotsOf(before, rel, e);
            if e.1 == before.slots[sink]
            then p.1 == sink && rel'[e] == Shift(rel[e], ShiftsAt(before, sink, orders, p.0))
            else rel'[e] == rel[e]
  {
    hide Shift, ShiftsAt, CollectsShifts, NoDuplicates;
    var p := SlotsOf(before, rel, e);
    SinkOfArc(before, p, sink);
    ArcShifted(before, after, sink, orders, changed, p);
    assert after.EdgeAt(p) == before.EdgeAt(p);
    ArcOfEdge(after, rel', e, p);
  }

  lemma ArcShifted(before: SlotGraph, after: SlotGraph, sink: nat, orders: Orders, changed: Shifts, p: SlotPair)
    requires CollectsShifts(before, sink, orders, changed) && ShiftedFor(before, after, sink, changed, changed.Keys)
    requires p in before.arcs
    ensures after.arcs[p] ==
            if p.1 == sink then Shift(before.arcs[p], ShiftsAt(before, sink, orders, p.0)) else before.arcs[p]
  {
    hide ShiftsAt;
    if p.0 !in changed {
      assert Shift(before.arcs[p], map[]) == before.arcs[p];
    }
  }

  lemma SinkOfArc(g: SlotGraph, p: SlotPair, sink: nat)
    requires g.WellFormed() && g.Has(p) && sink < |g.slots|
    ensures g.EdgeAt(p).1 == g.slots[sink] <==> p.1 == sink
  {
  }

  lemma ArcOfEdge(g: SlotGraph, rel: Relations, e: Edge, p: SlotPair)
    requires g.Represents(rel) && g.Has(p) && g.EdgeAt(p) == e && e in rel
    ensures p in g.arcs && g.arcs[p] == rel[e]
  {
  }

  lemma EdgeKeysShifted(before: SlotGraph, after: SlotGraph, rel: Relations, rel': Relations,
                        sink: nat, orders: Orders, changed: Shifts, e: Edge)
    requires before.Represents(rel) && after.Represents(rel') && sink < |before.slots|
    requires OrdersOf(before, sink, orders) && CollectsShifts(before, sink, orders, changed)
    requires ShiftedFor(before, after, sink, changed, changed.Keys)
    requires e in rel && rel'.Keys == rel.Keys
    ensures rel'[e].Keys == rel[e].Keys
    ensures forall k | k in rel[e] ::
              if e.1 == before.slots[sink] && k in orders && rel[e][k].sortKey.Some?
              then rel'[e][k].sortKey.Some? && rel'[e][k] == rel[e][k].(sortKey := rel'[e][k].sortKey)
              else rel'[e][k] == rel[e][k]
  {
    var p := SlotsOf(before, rel, e);
    EdgeShifted(before, after, rel, rel', sink, orders, changed, e);
    if e.1 == before.slots[sink] {
      ShiftKeys(before, sink, orders, p.0, rel[e]);
    }
  }

  lemma KindRenumbered(before: SlotGraph, after: SlotGraph, rel: Relations, rel': Relations,
                       sink: nat, orders: Orders, changed: Shifts, k: WeightKind)
    requires before.Represents(rel) && after.Represents(rel') && sink < |before.slots|
    requires OrdersOf(before, sink, orders) && CollectsShifts(before, sink, orders, changed)
    requires ShiftedFor(before, after, sink, changed, changed.Keys)
    requires rel'.Keys == rel.Keys && k in orders
    ensures Renumbered(rel, rel', before.slots[sink], k)
  {
    var t, order := before.slots[sink], orders[k];
    SlotOrderInRange(before, sink, k, order);
    OrderInBids(before, rel, sink, k, order);
    var bids := BidsAt(before.slots, order);
    forall i | 0 <= i < |bids| ensures KeyOf(rel', bids[i], t, k) == Some(AsU16(i)) {
      PlacedKey(before, after, rel, rel', sink, orders, changed, k, i);
    }
  }

  lemma PlacedKey(before: SlotGraph, after: SlotGraph, rel: Relations, rel': Relations,
                  sink: nat, orders: Orders, changed: Shifts, k: WeightKind, i: nat)
    requires before.Represents(rel) && after.Represents(rel') && sink < |before.slots|
    requires OrdersOf(before, sink, orders) && CollectsShifts(before, sink, orders, changed)
    requires ShiftedFor(before, after, sink, changed, changed.Keys)
    requires rel'.Keys == rel.Keys && k in orders && i < |orders[k]| && orders[k][i] < |before.slots|
    ensures KeyOf(rel', before.slots[orders[k][i]], before.slots[sink], k) == Some(AsU16(i))
  {
    var a := orders[k][i];
    var e := (before.slots[a], before.slots[sink]);
    assert SlotOrder(before, sink, k, orders[k]);
    KeyAtSlots(before, rel, a, sink, k);
    EdgeShifted(before, after, rel, rel', sink, orders, changed, e);
    SlotsDistinct(before, SlotsOf(before, rel, e), (a, sink));
    ShiftKeys(before, sink, orders, a, before.arcs[(a, sink)]);
    assert Position(orders[k], a) == i;
  }

  // ------------------------------------------------------------------ renumbering sink by sink

  lemma SameButKeysAlso(r: Relations, r1: Relations, r2: Relations, sinks: SinkKinds, t: Bid, kinds: set<WeightKind>)
    requires SameButKeys(r, r1, sinks) && t !in sinks && SameButKeys(r1, r2, map[t := kinds])
    ensures SameButKeys(r, r2, sinks[t := kinds])
  {
  }

  lemma OtherSinksSame(r: Relations, r': Relations, sinks: SinkKinds, t: Bid)
    requires SameButKeys(r, r', sinks) && t !in sinks
    ensures forall x, k :: KeyOf(r, x, t, k) == KeyOf(r', x, t, k)
  {
  }

  /** Renumbering one more sink extends a renumbering. */
  lemma ReindexAlso(r: Relations, r1: Relations, r2: Relations, sinks: SinkKinds, t: Bid, kinds: set<WeightKind>)
    requires Reindexed(r, r1, sinks) && t !in sinks && Reindexed(r1, r2, map[t := kinds])
    ensures Reindexed(r, r2, sinks[t := kinds])
  {
    var all := sinks[t := kinds];
    SameButKeysAlso(r, r1, r2, sinks, t, kinds);
    hide SameButKeys, Renumbered, KeyOf;
    OtherSinksSame(r, r1, sinks, t);
    forall u, k | u in all && k in all[u] ensures Renumbered(r, r2, u, k) {
      if u == t {
        assert t in map[t := kinds];
        assert Renumbered(r1, r2, t, k);
        SameSinkRenumbered(r, r1, r2, r2, t, k);
      } else {
        assert Renumbered(r, r1, u, k);
        OtherSinksSame(r1, r2, map[t := kinds], u);
        SameSinkRenumbered(r, r, r1, r2, u, k);
      }
    }
  }

  /** Renumbering looks only at the keys of its own sink. */
  lemma SameSinkRenumbered(r: Relations, s: Relations, s': Relations, r': Relations, t: Bid, k: WeightKind)
    requires Renumbered(s, s', t, k)
    requires forall x :: KeyOf(r, x, t, k) == KeyOf(s, x, t, k)
    requires forall x :: KeyOf(r', x, t, k) == KeyOf(s', x, t, k)
    ensures Renumbered(r, r', t, k)
  {
    var order :| SortedByKey(s, t, k, order) &&
      forall i | 0 <= i < |order| :: KeyOf(s', order[i], t, k) == Some(AsU16(i));
    IncomingMembers(r, t, k);
    IncomingMembers(s, t, k);
    assert Keyed(r, t, k) == Keyed(s, t, k);
    assert SortedByKey(r, t, k, order);
  }

  lemma ChangeEventsAlso(r: Relations, r1: Relations, r2: Relations, sinks: SinkKinds, t: Bid, kinds: set<WeightKind>,
                         events: seq<BeliefEvent>, more: seq<BeliefEvent>)
    requires SameButKeys(r, r1, sinks) && t !in sinks && SameButKeys(r1, r2, map[t := kinds])
    requires ChangeEvents(r, r1, events) && ChangeEvents(r1, r2, more)
    ensures ChangeEvents(r, r2, events + more)
  {
    forall e | e in r
      ensures e.1 == t ==> r1[e] == r[e]
      ensures e.1 != t ==> r2[e] == r1[e]
    {
      assert e.1 == t ==> forall k | k in r[e] :: r1[e][k] == r[e][k];
      assert e.1 != t ==> forall k | k in r[e] :: r2[e][k] == r1[e][k];
    }
    forall ev | ev in events ensures ev.sink != t && ev.weights == r2[(ev.source, ev.sink)] {
    }
    forall ev | ev in more ensures ev.sink == t {
    }
    forall i, j | 0 <= i < j < |events + more| ensures (events + more)[i] != (events + more)[j] {
      if i < |events| <= j {
        assert (events + more)[i] in events && (events + more)[j] in more;
      }
    }
  }

  lemma NothingReindexed(rel: Relations, sinks: SinkKinds)
    requires forall e, k | e in rel && k in rel[e] :: !Affected(sinks, e.1, k)
    ensures Reindexed(rel, rel, sinks) && ChangeEvents(rel, rel, [])
  {
    forall t, k | t in sinks && k in sinks[t] ensures Renumbered(rel, rel, t, k) {
      IncomingMembers(rel, t, k);
      assert SortedByKey(rel, t, k, []);
    }
  }

  // ------------------------------------------------------------------ one shifted edge

  /** A source with a shift has an edge into the sink, and the shift changes its weights. */
  lemma ShiftChanges(g: SlotGraph, sink: nat, orders: Orders, changed: Shifts, a: nat)
    requires g.WellFormed() && OrdersOf(g, sink, orders) && CollectsShifts(g, sink, orders, changed) && a in changed
    ensures a < |g.slots| && (a, sink) in g.arcs && g.Has((a, sink))
    ensures Shift(g.arcs[(a, sink)], changed[a]) != g.arcs[(a, sink)]
  {
    assert changed[a] != map[];
    var k :| k in changed[a];
    assert SlotOrder(g, sink, k, orders[k]);
    assert a in KeyedSlots(g, sink, k);
    assert Shift(g.arcs[(a, sink)], changed[a])[k].sortKey != g.arcs[(a, sink)][k].sortKey;
  }

  lemma NotYetShifted(before: SlotGraph, g: SlotGraph, start: Relations, rel: Relations,
                      sink: nat, changed: Shifts, done: set<nat>, a: nat)
    requires before.Represents(start) && g.Represents(rel) && ShiftedFor(before, g, sink, changed, done)
    requires a !in done && (a, sink) in before.arcs && before.Has((a, sink))
    ensures g.Has((a, sink)) && g.EdgeAt((a, sink)) in start && g.arcs[(a, sink)] == before.arcs[(a, sink)]
    ensures rel[g.EdgeAt((a, sink))] == start[g.EdgeAt((a, sink))] == before.arcs[(a, sink)]
  {
    var p := (a, sink);
    assert g.EdgeAt(p) == before.EdgeAt(p);
  }

  lemma ShiftedOneMore(before: SlotGraph, g: SlotGraph, sink: nat, changed: Shifts, done: set<nat>, a: nat)
    requires ShiftedFor(before, g, sink, changed, done) && a !in done && a in changed && (a, sink) in before.arcs
    ensures ShiftedFor(before, g.SetArc((a, sink), Shift(before.arcs[(a, sink)], changed[a])), sink, changed,
        done + {a})
  {
  }

  lemma ChangedOneMore(start: Relations, rel: Relations, e: Edge, ws: WeightSet, events: seq<BeliefEvent>)
    requires ChangeEvents(start, rel, events) && e in start && rel[e] == start[e] && ws != start[e]
    ensures ChangeEvents(start, rel[e := ws], events + [RelationUpdate(e.0, e.1, ws, Local)])
  {
    var ev := RelationUpdate(e.0, e.1, ws, Local);
    assert forall x | x in events :: (x.source, x.sink) != e;
    assert ev !in events;
    assert ev in events + [ev];
    forall f | f in start && rel[e := ws][f] != start[f]
      ensures RelationUpdate(f.0, f.1, rel[e := ws][f], Local) in events + [ev]
    {
      if f != e {
        assert RelationUpdate(f.0, f.1, rel[f], Local) in events;
      }
    }
  }

  /** What the write-back loop has done once the sources of `done` are shifted. */
  ghost predicate ShiftedSoFar(before: SlotGraph, g: SlotGraph, start: Relations, rel: Relations,
                               sink: nat, changed: Shifts, done: set<nat>, events: seq<BeliefEvent>)
  {
    && before.Represents(start) && g.Represents(rel)
    && ShiftedFor(before, g, sink, changed, done)
    && ChangeEvents(start, rel, events)
  }

  lemma ShiftStep(before: SlotGraph, g: SlotGraph, start: Relations, rel: Relations,
                  sink: nat, orders: Orders, changed: Shifts, done: set<nat>, events: seq<BeliefEvent>, a: nat)
    requires ShiftedSoFar(before, g, start, rel, sink, changed, done, events)
    requires sink < |before.slots| && a in changed && a !in done
    requires OrdersOf(before, sink, orders) && CollectsShifts(before, sink, orders, changed)
    ensures g.slots == before.slots && a < |g.slots| && (a, sink) in g.arcs && g.Has((a, sink))
    ensures g.SetArc((a, sink), Shift(g.arcs[(a, sink)], changed[a])).slots == g.slots
    ensures var p := (a, sink);
            var ws := Shift(g.arcs[p], changed[a]);
            ShiftedSoFar(before, g.SetArc(p, ws), start, rel[g.EdgeAt(p) := ws], sink, changed, done + {a},
                         events + [RelationUpdate(g.slots[a], g.slots[sink], ws, Local)])
  {
    ShiftChanges(before, sink, orders, changed, a);
    NotYetShifted(before, g, start, rel, sink, changed, done, a);
    var p := (a, sink);
    var ws := Shift(g.arcs[p], changed[a]);
    assert g.EdgeAt(p) == (g.slots[a], g.slots[sink]);
    hide SlotGraph.Represents, ShiftedFor, ChangeEvents, SlotGraph.SetArc, SlotGraph.EdgeAt, Shift, OrdersOf,
        CollectsShifts;
    SetArcRepresents(g, p, ws, rel);
    ShiftedOneMore(before, g, sink, changed, done, a);
    ChangedOneMore(start, rel, g.EdgeAt(p), ws, events);
  }

  lemma ShiftsBegin(g: SlotGraph, rel: Relations, sink: nat, changed: Shifts)
    requires g.Represents(rel)
    ensures ShiftedSoFar(g, g, rel, rel, sink, changed, {}, [])
  {
  }

  lemma ShiftsEnd(before: SlotGraph, g: SlotGraph, start: Relations, rel: Relations,
                  sink: nat, orders: Orders, changed: Shifts, events: seq<BeliefEvent>)
    requires ShiftedSoFar(before, g, start, rel, sink, changed, changed.Keys, events) && sink < |before.slots|
    requires OrdersOf(before, sink, orders) && CollectsShifts(before, sink, orders, changed)
    ensures g.slots == before.slots && g.Represents(rel)
    ensures Reindexed(start, rel, map[g.slots[sink] := orders.Keys]) && ChangeEvents(start, rel, events)
  {
    ShiftedIsReindexed(before, g, start, rel, sink, orders, changed);
  }

  /** Write the shifted keys edge by edge, reporting each edge with its new weights. */
  method ApplyShifts(before: SlotGraph, ghost start: Relations, sink: nat, ghost orders: Orders, changed: Shifts)
    returns (g: SlotGraph, ghost rel: Relations, events: seq<BeliefEvent>)
    requires before.Represents(start) && sink < |before.slots|
    requires OrdersOf(before, sink, orders) && CollectsShifts(before, sink, orders, changed)
    ensures g.slots == before.slots && g.Represents(rel)
    ensures Reindexed(start, rel, map[g.slots[sink] := orders.Keys])
    ensures ChangeEvents(start, rel, events)
  {
    hide ShiftedSoFar, OrdersOf, CollectsShifts, SlotGraph.Represents, Reindexed, ChangeEvents, SlotGraph.SetArc, Shift;
    ShiftsBegin(before, start, sink, changed);
    g, rel, events := before, start, [];
    var todo := changed.Keys;
    assert changed.Keys - todo == {};
    while todo != {}
      invariant todo <= changed.Keys
      invariant ShiftedSoFar(before, g, start, rel, sink, changed, changed.Keys - todo, events)
      invariant g.slots == before.slots
    {
      var a :| a in todo;
      ShiftStep(before, g, start, rel, sink, orders, changed, changed.Keys - todo, events, a);
      assert changed.Keys - (todo - {a}) == (changed.Keys - todo) + {a};
      todo := todo - {a};
      var p := (a, sink);
      var ws := Shift(g.arcs[p], changed[a]);
      rel := rel[g.EdgeAt(p) := ws];
      events := events + [RelationUpdate(g.slots[a], g.slots[sink], ws, Local)];
      g := g.SetArc(p, ws);
    }
    assert changed.Keys - todo == changed.Keys;
    ShiftsEnd(before, g, start, rel, sink, orders, changed, events);
  }

  // ------------------------------------------------------------------ the table of slots

  method IndexSlots(slots: seq<Bid>) returns (index: map<Bid, nat>)
    requires NoDuplicates(slots)
    ensures IndexSound(slots, index)
  {
    index := map[];
    for i := 0 to |slots|
      invariant forall b | b in index :: index[b] < i && slots[index[b]] == b
      invariant forall j | 0 <= j < i :: slots[j] in index
    {
      index := index[slots[i] := i];
    }
  }

  lemma AddNodeIndexed(slots: seq<Bid>, index: map<Bid, nat>, b: Bid)
    requires IndexSound(slots, index) && b !in index
    ensures b !in slots && IndexSound(slots + [b], index[b := |slots|])
    ensures BidSet(slots + [b]) == BidSet(slots) + {b}
  {
  }

  lemma NothingInto(g: SlotGraph, rel: Relations, t: Bid)
    requires g.Represents(rel) && t !in g.slots
    ensures forall e | e in rel :: e.0 != t && e.1 != t
  {
  }

  // ------------------------------------------------------------------ removing nodes

  /** `retain_nodes`: visit the slots from the last to the first, removing the unwanted ones. */
  method RetainNodes(before: SlotGraph, ghost start: Relations, bids: set<Bid>) returns (g: SlotGraph,
      ghost rel: Relations)
    requires before.Represents(start)
    ensures rel == WithoutNodes(start, bids) && g.Represents(rel)
    ensures BidSet(g.slots) == BidSet(before.slots) - bids
  {
    hide WithoutNodes, NoDuplicates;
    g, rel := before, start;
    var i := |g.slots|;
    while i > 0
      invariant 0 <= i <= |g.slots| && g.Represents(rel)
      invariant forall j | i <= j < |g.slots| :: g.slots[j] !in bids
      invariant WithoutNodes(rel, bids) == WithoutNodes(start, bids)
      invariant BidSet(g.slots) - bids == BidSet(before.slots) - bids
    {
      i := i - 1;
      if g.slots[i] in bids {
        RemoveNodeRepresents(g, i, rel);
        RemoveNodeBids(g, i);
        RemovedSlot(g, i, bids);
        RemovedTwice(rel, {g.slots[i]}, bids);
        rel := WithoutNodes(rel, {g.slots[i]});
        g := g.RemoveNode(i);
      }
    }
    NothingLeft(g, rel, bids);
  }

  lemma RemovedSlot(g: SlotGraph, i: nat, bids: set<Bid>)
    requires g.WellFormed() && i < |g.slots| && g.slots[i] in bids
    requires forall j | i < j < |g.slots| :: g.slots[j] !in bids
    ensures |g.RemoveNode(i).slots| == |g.slots| - 1
    ensures forall j | i <= j < |g.slots| - 1 :: g.RemoveNode(i).slots[j] !in bids
    ensures BidSet(g.RemoveNode(i).slots) - bids == BidSet(g.slots) - bids
  {
    RemoveNodeBids(g, i);
  }

  lemma RemovedTwice(rel: Relations, some: set<Bid>, bids: set<Bid>)
    requires some <= bids
    ensures WithoutNodes(WithoutNodes(rel, some), bids) == WithoutNodes(rel, bids)
  {
  }

  lemma NothingLeft(g: SlotGraph, rel: Relations, bids: set<Bid>)
    requires g.Represents(rel) && forall j | 0 <= j < |g.slots| :: g.slots[j] !in bids
    ensures WithoutNodes(rel, bids) == rel && BidSet(g.slots) - bids == BidSet(g.slots)
  {
    forall e | e in rel ensures e.0 !in bids && e.1 !in bids {
      assert e.0 in g.slots && e.1 in g.slots;
    }
  }

  /** Every sink of a removed source, itself removed or not, with the kinds it loses. */
  function AllLostSinks(rel: Relations, bids: set<Bid>): SinkKinds {
    map t | t in (set e | e in rel && e.0 in bids :: e.1) :: LostKinds(rel, bids, t)
  }

  function WithLost(sinkKinds: SinkKinds, t: Bid, kinds: set<WeightKind>): SinkKinds {
    sinkKinds[t := (if t in sinkKinds then sinkKinds[t] else {}) + kinds]
  }

  lemma LostOneMore(seen: Relations, e: Edge, ws: WeightSet, bids: set<Bid>)
    requires e !in seen
    ensures AllLostSinks(seen[e := ws], bids) ==
            if e.0 in bids then WithLost(AllLostSinks(seen, bids), e.1, ws.Keys) else AllLostSinks(seen, bids)
  {
    var more := seen[e := ws];
    var was, now := AllLostSinks(seen, bids), AllLostSinks(more, bids);
    var want := if e.0 in bids then WithLost(was, e.1, ws.Keys) else was;
    assert now.Keys == want.Keys;
    forall t | t in now ensures now[t] == want[t] {
      LostKindsOneMore(seen, e, ws, bids, t);
      if t !in was {
        assert LostKinds(seen, bids, t) == {};
      }
    }
  }

  lemma LostKindsOneMore(seen: Relations, e: Edge, ws: WeightSet, bids: set<Bid>, t: Bid)
    requires e !in seen
    ensures LostKinds(seen[e := ws], bids, t) ==
            LostKinds(seen, bids, t) + if e.0 in bids && e.1 == t then ws.Keys else {}
  {
    var more := seen[e := ws];
    forall k | k in LostKinds(seen, bids, t) ensures k in LostKinds(more, bids, t) {
      var f :| f in seen && f.0 in bids && f.1 == t && k in seen[f];
      assert f in more && k in more[f];
    }
    if e.0 in bids && e.1 == t {
      assert e in more && more[e] == ws;
    }
  }

  lemma SlotsOfArc(g: SlotGraph, rel: Relations, p: SlotPair)
    requires g.Represents(rel) && p in g.arcs
    ensures g.Has(p) && g.EdgeAt(p) in rel && rel[g.EdgeAt(p)] == g.arcs[p] && SlotsOf(g, rel, g.EdgeAt(p)) == p
  {
    SlotsDistinct(g, SlotsOf(g, rel, g.EdgeAt(p)), p);
  }

  /** The edges whose arcs are not waiting in `todo`. */
  ghost function Seen(g: SlotGraph, rel: Relations, todo: set<SlotPair>): Relations
    requires g.Represents(rel)
  {
    map e | e in rel && SlotsOf(g, rel, e) !in todo :: rel[e]
  }

  lemma SeeArc(g: SlotGraph, rel: Relations, todo: set<SlotPair>, p: SlotPair, bids: set<Bid>)
    requires g.Represents(rel) && p in todo && p in g.arcs
    ensures g.Has(p)
    ensures AllLostSinks(Seen(g, rel, todo - {p}), bids) ==
            if g.slots[p.0] in bids
            then WithLost(AllLostSinks(Seen(g, rel, todo), bids), g.slots[p.1], g.arcs[p].Keys)
            else AllLostSinks(Seen(g, rel, todo), bids)
  {
    SeenOneMore(g, rel, todo, p);
    var e := g.EdgeAt(p);
    hide SlotGraph.Represents, AllLostSinks, WithLost, Seen;
    LostOneMore(Seen(g, rel, todo), e, rel[e], bids);
  }

  lemma SeenMembers(g: SlotGraph, rel: Relations, todo: set<SlotPair>)
    requires g.Represents(rel)
    ensures forall e :: e in Seen(g, rel, todo) <==> e in rel && SlotsOf(g, rel, e) !in todo
    ensures forall e | e in Seen(g, rel, todo) :: Seen(g, rel, todo)[e] == rel[e]
  {
  }

  lemma OneMoreEdge(now: Relations, seen: Relations, rel: Relations, e: Edge)
    requires forall f :: f in now <==> f in seen || f == e
    requires now.Keys <= rel.Keys && (forall f | f in now :: now[f] == rel[f])
        && (forall f | f in seen :: seen[f] == rel[f])
    ensures now == seen[e := rel[e]]
  {
  }

  lemma SeenOneMore(g: SlotGraph, rel: Relations, todo: set<SlotPair>, p: SlotPair)
    requires g.Represents(rel) && p in todo && p in g.arcs
    ensures g.Has(p) && g.EdgeAt(p) in rel && rel[g.EdgeAt(p)] == g.arcs[p]
    ensures g.EdgeAt(p) !in Seen(g, rel, todo)
    ensures Seen(g, rel, todo - {p}) == Seen(g, rel, todo)[g.EdgeAt(p) := g.arcs[p]]
  {
    SlotsOfArc(g, rel, p);
    SeenMembers(g, rel, todo);
    SeenMembers(g, rel, todo - {p});
    hide SlotGraph.Represents, Seen, SlotGraph.Has, SlotGraph.EdgeAt, SlotsOf;
    forall f ensures f in Seen(g, rel, todo - {p}) <==> f in Seen(g, rel, todo) || f == g.EdgeAt(p) {
      SeenMore(g, rel, todo, p, f);
    }
    OneMoreEdge(Seen(g, rel, todo - {p}), Seen(g, rel, todo), rel, g.EdgeAt(p));
  }

  lemma SeenMember(g: SlotGraph, rel: Relations, todo: set<SlotPair>, f: Edge)
    requires g.Represents(rel)
    ensures f in Seen(g, rel, todo) <==> f in rel && SlotsOf(g, rel, f) !in todo
  {
    SeenMembers(g, rel, todo);
  }

  lemma SeenMore(g: SlotGraph, rel: Relations, todo: set<SlotPair>, p: SlotPair, f: Edge)
    requires g.Represents(rel) && p in todo && p in g.arcs && g.Has(p)
    ensures f in Seen(g, rel, todo - {p}) <==> f in Seen(g, rel, todo) || f == g.EdgeAt(p)
  {
    SlotsOfArc(g, rel, p);
    SeenMember(g, rel, todo, f);
    SeenMember(g, rel, todo - {p}, f);
    if f in rel {
      SlotsOfEdge(g, rel, f);
    }
    hide *;
  }

  lemma SlotsOfEdge(g: SlotGraph, rel: Relations, f: Edge)
    requires g.Represents(rel) && f in rel
    ensures g.Has(SlotsOf(g, rel, f)) && g.EdgeAt(SlotsOf(g, rel, f)) == f
  {
  }

  lemma SeenEnds(g: SlotGraph, rel: Relations)
    requires g.Represents(rel)
    ensures Seen(g, rel, g.arcs.Keys) == map[] && Seen(g, rel, {}) == rel
  {
  }

  /** The sinks and kinds that lose an edge when `bids` go, read off the graph before it changes. */
  method CollectSinkKinds(g: SlotGraph, ghost rel: Relations, bids: set<Bid>) returns (sinkKinds: SinkKinds)
    requires g.Represents(rel)
    ensures sinkKinds == AllLostSinks(rel, bids)
  {
    SeenEnds(g, rel);
    sinkKinds := map[];
    assert sinkKinds == AllLostSinks(map[], bids);
    hide AllLostSinks, Seen, SlotGraph.Represents, WithLost;
    var todo := g.arcs.Keys;
    while todo != {}
      invariant todo <= g.arcs.Keys
      invariant sinkKinds == AllLostSinks(Seen(g, rel, todo), bids)
    {
      var p :| p in todo;
      SeeArc(g, rel, todo, p, bids);
      todo := todo - {p};
      if g.slots[p.0] in bids {
        sinkKinds := WithLost(sinkKinds, g.slots[p.1], g.arcs[p].Keys);
      }
    }
  }

  /** The sinks already renumbered; those removed themselves need nothing. */
  ghost function DoneSinks(sinkKinds: SinkKinds, bids: set<Bid>, todo: set<Bid>): SinkKinds {
    map t | t in sinkKinds && t !in todo && t !in bids :: sinkKinds[t]
  }

  lemma DoneOneMore(sinkKinds: SinkKinds, bids: set<Bid>, todo: set<Bid>, t: Bid)
    requires t in todo && t in sinkKinds
    ensures t !in DoneSinks(sinkKinds, bids, todo)
    ensures DoneSinks(sinkKinds, bids, todo - {t}) ==
            if t in bids then DoneSinks(sinkKinds, bids, todo) else DoneSinks(sinkKinds, bids, todo)[t := sinkKinds[t]]
  {
  }

  lemma AllSinksDone(rel: Relations, bids: set<Bid>)
    ensures DoneSinks(AllLostSinks(rel, bids), bids, {}) == LostSinks(rel, bids)
  {
  }

  lemma ReindexedChangesAlso(r: Relations, r1: Relations, r2: Relations, sinks: SinkKinds, t: Bid,
      kinds: set<WeightKind>,
                             events: seq<BeliefEvent>, more: seq<BeliefEvent>)
    requires Reindexed(r, r1, sinks) && t !in sinks && Reindexed(r1, r2, map[t := kinds])
    requires ChangeEvents(r, r1, events) && ChangeEvents(r1, r2, more)
    ensures ChangeEvents(r, r2, events + more)
  {
    ChangeEventsAlso(r, r1, r2, sinks, t, kinds, events, more);
  }

  lemma NodesWithout(states: States, slots: set<Bid>, bids: set<Bid>)
    ensures (states - bids).Keys + (slots - bids) == states.Keys + slots - bids
  {
  }

  lemma Removal(st: Store, bids: set<Bid>, st': Store, events: seq<BeliefEvent>)
    requires st' == Store(st.states - bids, st.nodes - bids, st'.rel)
    requires Reindexed(WithoutNodes(st.rel, bids), st'.rel, LostSinks(st.rel, bids))
    requires BeliefStore.ChangeEvents(WithoutNodes(st.rel, bids), st'.rel, events)
    ensures RemovesNodes(st, bids, st', events)
  {
    hide Reindexed, BeliefStore.ChangeEvents, WithoutNodes, LostSinks;
  }

  lemma NoNodesRemoved(st: Store, bids: set<Bid>)
    requires bids == {}
    ensures RemovesNodes(st, bids, st, [])
  {
    assert WithoutNodes(st.rel, bids) == st.rel;
    NothingReindexed(st.rel, LostSinks(st.rel, bids));
  }

  /** Write one arc; empty weights remove it. */
  method WriteArc(before: SlotGraph, ghost start: Relations, p: SlotPair, ws: WeightSet)
    returns (g: SlotGraph, ghost rel: Relations)
    requires before.Represents(start) && before.Has(p)
    ensures g.slots == before.slots && rel == WriteEdge(start, before.EdgeAt(p), ws) && g.Represents(rel)
  {
    g, rel := before, WriteEdge(start, before.EdgeAt(p), ws);
    if ws == map[] {
      RemoveArcRepresents(before, p, start);
      g := before.RemoveArc(p);
    } else {
      SetArcRepresents(before, p, ws, start);
      g := before.SetArc(p, ws);
    }
  }

  lemma WeightsAtSlots(g: SlotGraph, rel: Relations, a: nat, b: nat)
    requires g.Represents(rel) && a < |g.slots| && b < |g.slots|
    ensures g.Has((a, b)) && g.EdgeAt((a, b)) == (g.slots[a], g.slots[b])
    ensures WeightsAt(rel, (g.slots[a], g.slots[b])) == if (a, b) in g.arcs then g.arcs[(a, b)] else map[]
  {
    assert g.Has((a, b)) && g.EdgeAt((a, b)) == (g.slots[a], g.slots[b]);
  }

  lemma PresentWeights(g: SlotGraph, rel: Relations, s: Bid, t: Bid, si: Option<nat>, ti: Option<nat>)
    requires g.Represents(rel)
    requires si.Some? ==> si.value < |g.slots| && g.slots[si.value] == s
    requires ti.Some? ==> ti.value < |g.slots| && g.slots[ti.value] == t
    requires si.None? ==> s !in g.slots
    requires ti.None? ==> t !in g.slots
    ensures WeightsAt(rel, (s, t)) ==
            if si.Some? && ti.Some? && (si.value, ti.value) in g.arcs then g.arcs[(si.value, ti.value)] else map[]
  {
    if si.Some? && ti.Some? {
      assert g.Has((si.value, ti.value)) && g.EdgeAt((si.value, ti.value)) == (s, t);
    }
  }

  // ------------------------------------------------------------------ the next sort key

  /** The largest key of kind `k` into a slot, if there is one. */
  method LargestKey(g: SlotGraph, sink: nat, k: WeightKind) returns (max: Option<SortKey>)
    ensures max.None? ==> forall a | 0 <= a < |g.slots| :: SlotKey(g, a, sink, k).None?
    ensures max.Some? ==> exists a :: 0 <= a < |g.slots| && SlotKey(g, a, sink, k) == max
    ensures max.Some? ==> forall a | 0 <= a < |g.slots|
        && SlotKey(g, a, sink, k).Some? :: SlotKey(g, a, sink, k).value <= max.value
  {
    max := None;
    for a := 0 to |g.slots|
      invariant max.None? ==> forall b | 0 <= b < a :: SlotKey(g, b, sink, k).None?
      invariant max.Some? ==> exists b :: 0 <= b < a && SlotKey(g, b, sink, k) == max
      invariant max.Some? ==> forall b | 0 <= b < a
          && SlotKey(g, b, sink, k).Some? :: SlotKey(g, b, sink, k).value <= max.value
    {
      var key := SlotKey(g, a, sink, k);
      if key.Some? && (max.None? || max.value < key.value) {
        max := key;
      }
    }
  }

  lemma KeyedAtSlots(g: SlotGraph, rel: Relations, sink: nat, k: WeightKind, s: Bid) returns (a: nat)
    requires g.Represents(rel) && sink < |g.slots| && s in Keyed(rel, g.slots[sink], k)
    ensures a < |g.slots| && g.slots[a] == s && SlotKey(g, a, sink, k) == KeyOf(rel, s, g.slots[sink], k)
  {
    IncomingMembers(rel, g.slots[sink], k);
    assert (s, g.slots[sink]) in rel && (s, g.slots[sink]).0 in g.slots;
    a :| a < |g.slots| && g.slots[a] == s;
    KeyAtSlots(g, rel, a, sink, k);
  }

  lemma KeyWithin(g: SlotGraph, rel: Relations, sink: nat, k: WeightKind, x: nat) returns (a: nat)
    requires g.Represents(rel) && sink < |g.slots| && x in KeysInto(rel, g.slots[sink], k)
    ensures a < |g.slots| && SlotKey(g, a, sink, k).Some? && SlotKey(g, a, sink, k).value == x
  {
    var t := g.slots[sink];
    IncomingMembers(rel, t, k);
    hide SlotGraph.Represents, SlotKey, KeyOf, Keyed;
    var s :| s in Keyed(rel, t, k) && KeyOf(rel, s, t, k).value == x;
    a := KeyedAtSlots(g, rel, sink, k, s);
  }

  lemma KeyUsed(g: SlotGraph, rel: Relations, sink: nat, k: WeightKind, a: nat)
    requires g.Represents(rel) && sink < |g.slots| && a < |g.slots| && SlotKey(g, a, sink, k).Some?
    ensures SlotKey(g, a, sink, k).value in KeysInto(rel, g.slots[sink], k)
  {
    var t := g.slots[sink];
    IncomingMembers(rel, t, k);
    KeyAtSlots(g, rel, a, sink, k);
    hide SlotGraph.Represents, SlotKey, KeyOf, Keyed;
    assert g.slots[a] in Keyed(rel, t, k);
  }

  lemma LargestIsNext(g: SlotGraph, rel: Relations, sink: nat, k: WeightKind, max: Option<SortKey>)
    requires g.Represents(rel) && sink < |g.slots|
    requires max.None? ==> forall a | 0 <= a < |g.slots| :: SlotKey(g, a, sink, k).None?
    requires max.Some? ==> exists a :: 0 <= a < |g.slots| && SlotKey(g, a, sink, k) == max
    requires max.Some? ==> forall a | 0 <= a < |g.slots|
        && SlotKey(g, a, sink, k).Some? :: SlotKey(g, a, sink, k).value <= max.value
    ensures NextKey(rel, g.slots[sink], k) == if max.None? then 0 else AsU16(max.value + 1)
  {
    hide SlotGraph.Represents, SlotKey, KeysInto;
    var keys := KeysInto(rel, g.slots[sink], k);
    forall x | x in keys ensures max.Some? && x <= max.value {
      var a := KeyWithin(g, rel, sink, k, x);
    }
    if max.Some? {
      var a :| 0 <= a < |g.slots| && SlotKey(g, a, sink, k) == max;
      KeyUsed(g, rel, sink, k, a);
      assert MaxOf(keys) == max.value;
    }
  }

  lemma NoNextKey(g: SlotGraph, rel: Relations, t: Bid, k: WeightKind)
    requires g.Represents(rel) && t !in g.slots
    ensures NextKey(rel, t, k) == 0
  {
    NothingInto(g, rel, t);
    IncomingMembers(rel, t, k);
    assert Keyed(rel, t, k) == {};
  }

  // ------------------------------------------------------------------ the store

  class BeliefBase {
    var states: States
    var graph: SlotGraph
    var bidToIndex: map<Bid, nat>
    var indexDirty: bool
    ghost var rel: Relations  // the edges the graph represents

    /** The table is sound and covers every state unless it is marked dirty. */
    ghost predicate Valid()
      reads this
    {
      && graph.Represents(rel)
      && (!indexDirty ==> IndexSound(graph.slots, bidToIndex) && states.Keys <= bidToIndex.Keys)
    }

    ghost function View(): Store
      reads this
    {
      Store(states, states.Keys + BidSet(graph.slots), rel)
    }

    /** `new_unbalanced` without an injected API node. */
    constructor FromGraph(states: States, graph: SlotGraph, ghost rel: Relations)
      requires graph.Represents(rel)
      ensures Valid() && !indexDirty
      ensures View() == Store(states, states.Keys + BidSet(graph.slots), rel)
    {
      this.states, this.graph, this.rel := states, graph, rel;
      this.bidToIndex, this.indexDirty := map[], true;
      new;
      IndexSync();
    }

    /** `index_sync(false)`: rebuild the table and give every state a slot. */
    method IndexSync()
      requires Valid()
      modifies this
      ensures Valid() && !indexDirty
      ensures View() == old(View()) && states == old(states) && rel == old(rel)
      ensures !old(indexDirty) ==> graph == old(graph)
    {
      if !indexDirty {
        return;
      }
      var index := IndexSlots(graph.slots);
      var todo := states.Keys;
      while todo != {}
        invariant todo <= states.Keys && states == old(states) && rel == old(rel)
        invariant graph.Represents(rel) && IndexSound(graph.slots, index)
        invariant states.Keys - todo <= index.Keys
        invariant states.Keys + BidSet(graph.slots) == states.Keys + old(BidSet(graph.slots))
      {
        var b :| b in todo;
        todo := todo - {b};
        if b !in index {
          AddNodeIndexed(graph.slots, index, b);
          AddNodeRepresents(graph, b, rel);
          index := index[b := |graph.slots|];
          graph := graph.AddNode(b);
        }
      }
      bidToIndex := index;
      indexDirty := false;
    }

    /** `bid_to_index`: the slot of a known id. */
    method BidToIndex(b: Bid) returns (idx: Option<nat>)
      requires Valid()
      modifies this
      ensures Valid() && !indexDirty && View() == old(View()) && rel == old(rel)
      ensures !old(indexDirty) ==> graph == old(graph)
      ensures idx.Some? <==> b in View().nodes
      ensures idx.Some? ==> idx.value < |graph.slots| && graph.slots[idx.value] == b
      ensures idx.None? ==> b !in graph.slots
    {
      IndexSync();
      idx := if b in bidToIndex then Some(bidToIndex[b]) else None;
      if idx.Some? {
        assert b in graph.slots;
      }
    }

    /** `insert_state` where the merge keys name no other node. */
    method InsertState(node: BeliefNode)
      requires Valid()
      modifies this
      ensures Valid() && View() == BeliefStore.InsertState(old(View()), node)
      ensures indexDirty == (old(indexDirty) || node.bid !in old(states) || old(states)[node.bid] != node)
      ensures graph == old(graph) && bidToIndex == old(bidToIndex)
    {
      if node.bid !in states || states[node.bid] != node {
        states := states[node.bid := node];
        indexDirty := true;
      }
      assert View().nodes == old(View()).nodes + {node.bid};
      assert states == old(states)[node.bid := node];
    }

    /** `reindex_sink_edges`: close the gaps of the given kinds at one sink. */
    method ReindexSinkEdges(sink: Bid, kinds: set<WeightKind>) returns (events: seq<BeliefEvent>)
      requires Valid()
      modifies this
      ensures Valid() && View() == old(View()).(rel := rel)
      ensures Reindexed(old(rel), rel, map[sink := kinds])
      ensures ChangeEvents(old(rel), rel, events)
      ensures sink !in old(View()).nodes ==> rel == old(rel) && events == []
    {
      hide IsSinkShift;
      events := [];
      if kinds == {} {
        NothingReindexed(rel, map[sink := kinds]);
        return;
      }
      var found := BidToIndex(sink);
      if found.None? {
        NothingInto(graph, rel, sink);
        NothingReindexed(rel, map[sink := kinds]);
        return;
      }
      var changed;
      ghost var orders;
      changed, orders := ComputeShifts(graph, found.value, kinds);
      graph, rel, events := ApplyShifts(graph, rel, found.value, orders, changed);
    }

    /** `update_relation`. */
    method UpdateRelation(s: Bid, t: Bid, ws: WeightSet) returns (events: seq<BeliefEvent>)
      requires Valid()
      modifies this
      ensures Valid() && UpdatesRelation(old(View()), s, t, ws, View(), events)
    {
      hide Reindexed, ChangeEvents, SlotGraph.Represents, BidSet, WriteEdge;
      var si := BidToIndex(s);
      var ti := BidToIndex(t);
      if si.None? || ti.None? {
        return [];
      }
      WeightsAtSlots(graph, rel, si.value, ti.value);
      var p := (si.value, ti.value);
      var lost := (if p in graph.arcs then graph.arcs[p].Keys else {}) - ws.Keys;
      ghost var st := old(View());
      assert View() == st && s in st.nodes && t in st.nodes;
      assert lost == WeightsAt(st.rel, (s, t)).Keys - ws.Keys;
      graph, rel := WriteArc(graph, rel, p, ws);
      assert View() == st.(rel := rel);
      assert rel == WriteEdge(st.rel, (s, t), ws);
      events := ReindexSinkEdges(t, lost);
      assert View() == st.(rel := rel);
    }

    /** Renumber every sink of `sinkKinds`; a sink that is gone itself is skipped. */
    method ReindexSinks(sinkKinds: SinkKinds, ghost bids: set<Bid>) returns (events: seq<BeliefEvent>)
      requires Valid() && bids !! View().nodes
      modifies this
      ensures Valid() && View() == old(View()).(rel := rel)
      ensures Reindexed(old(rel), rel, DoneSinks(sinkKinds, bids, {}))
      ensures ChangeEvents(old(rel), rel, events)
    {
      NothingReindexed(rel, map[]);
      ghost var kept, done: SinkKinds := rel, DoneSinks(sinkKinds, bids, sinkKinds.Keys);
      assert done == map[];
      hide Reindexed, ChangeEvents, SlotGraph.Represents, IndexSound, BidSet, DoneSinks;
      events := [];
      var todo := sinkKinds.Keys;
      while todo != {}
        invariant todo <= sinkKinds.Keys && done == DoneSinks(sinkKinds, bids, todo)
        invariant Valid() && View() == old(View()).(rel := rel)
        invariant Reindexed(kept, rel, done) && ChangeEvents(kept, rel, events)
      {
        var t :| t in todo;
        ghost var was := rel;
        var more := ReindexSinkEdges(t, sinkKinds[t]);
        DoneOneMore(sinkKinds, bids, todo, t);
        if t in bids {
          assert events + more == events;
        } else {
          ReindexAlso(kept, was, rel, done, t, sinkKinds[t]);
          ReindexedChangesAlso(kept, was, rel, done, t, sinkKinds[t], events, more);
        }
        todo := todo - {t};
        events := events + more;
        done := DoneSinks(sinkKinds, bids, todo);
      }
    }

    /** `remove_nodes`. */
    method RemoveNodes(bids: set<Bid>) returns (events: seq<BeliefEvent>)
      requires Valid()
      modifies this
      ensures Valid() && RemovesNodes(old(View()), bids, View(), events)
    {
      if bids == {} {
        NoNodesRemoved(View(), bids);
        return [];
      }
      hide Reindexed, ChangeEvents, SlotGraph.Represents, LostSinks, AllLostSinks, WithoutNodes, IndexSound, BidSet,
          DoneSinks, RemovesNodes;
      IndexSync();
      ghost var st, slots := View(), graph.slots;
      var sinkKinds := CollectSinkKinds(graph, rel, bids);
      AllSinksDone(rel, bids);
      states := states - bids;
      graph, rel := RetainNodes(graph, rel, bids);
      indexDirty := true;
      NodesWithout(st.states, BidSet(slots), bids);
      events := ReindexSinks(sinkKinds, bids);
      Removal(st, bids, View(), events);
    }

    /** `generate_edge_update`. */
    method GenerateEdgeUpdate(s: Bid, t: Bid, k: WeightKind, weight: Option<Weight>) returns (ws: Option<WeightSet>)
      requires Valid()
      modifies this
      ensures Valid() && View() == old(View())
      ensures ws == BeliefStore.GenerateEdgeUpdate(View(), s, t, k, weight)
    {
      hide SlotGraph.Represents, NextKey, IndexSound, BidSet;
      var si := BidToIndex(s);
      var ti := BidToIndex(t);
      var present := map[];
      if si.Some? && ti.Some? && (si.value, ti.value) in graph.arcs {
        present := graph.arcs[(si.value, ti.value)];
      }
      PresentWeights(graph, rel, s, t, si, ti);
      if weight.None? {
        return if k in present then Some(present - {k}) else None;
      }
      var merged := if k in present then present[k].Merge(weight.value) else weight.value;
      var changed := k !in present || merged != present[k];
      if merged.sortKey.None? {
        var key: SortKey := 0;
        if ti.Some? {
          var max := LargestKey(graph, ti.value, k);
          LargestIsNext(graph, rel, ti.value, k, max);
          if max.Some? {
            var top: nat := max.value;
            key := AsU16(top + 1);
          }
        } else {
          NoNextKey(graph, rel, t, k);
        }
        merged := merged.(sortKey := Some(key));
        changed := true;
      }
      ws := if changed then Some(present[k := merged]) else None;
    }

    /** `process_event`: the derivatives of an event, or the reason it was not applied. */
    method ProcessEvent(ev: BeliefEvent) returns (derived: Result<seq<BeliefEvent>>)
      requires Valid()
      modifies this
      ensures Valid()
      ensures derived.Failure? <==> ev == MalformedNodeUpdate(Remote)
      ensures Processes(old(View()), ev, View(), if derived.Success? then derived.value else [])
    {
      hide UpdatesRelation, RemovesNodes, BeliefStore.GenerateEdgeUpdate, SlotGraph.Represents;
      var events := [];
      if !ev.NoStoreEffect? && ev.origin == Local {
        return Success([]);
      }
      match ev {
        case NodeUpdate(node, _) =>
          InsertState(node);
        case MalformedNodeUpdate(_) =>
          return Failure("malformed node");
        case NodesRemoved(bids, _) =>
          events := RemoveNodes(set b | b in bids);
        case RelationUpdate(s, t, ws, _) =>
          events := UpdateRelation(s, t, ws);
        case RelationChange(s, t, k, w, origin) =>
          var generated := GenerateEdgeUpdate(s, t, k, w);
          if generated.Some? {
            var reindexed := UpdateRelation(s, t, generated.value);
            events := [RelationUpdate(s, t, generated.value, origin)] + reindexed;
            assert events[1..] == reindexed;
          }
        case RelationRemoved(s, t, _) =>
          events := UpdateRelation(s, t, map[]);
        case NoStoreEffect =>
      }
      derived := Success(events);
    }

    /** `relations()`: the edges between ids. */
    method ReadRelations() returns (relations: Relations)
      requires Valid()
      ensures relations == rel
    {
      relations := map[];
      var todo := graph.arcs.Keys;
      SeenEnds(graph, rel);
      while todo != {}
        invariant todo <= graph.arcs.Keys
        invariant relations == Seen(graph, rel, todo)
      {
        hide SlotGraph.Represents, Seen;
        var p :| p in todo;
        SeenOneMore(graph, rel, todo, p);
        todo := todo - {p};
        relations := relations[(graph.slots[p.0], graph.slots[p.1]) := graph.arcs[p]];
      }
    }
  }
}
