/** The loops of `compute_diff` (src/beliefbase/base.rs), proved to produce exactly the diff. */
module DiffBuild {
  import opened Properties
  import opened Reachability
  import opened BeliefStore
  import opened BeliefGraphs
  import opened Diffs
  import opened DiffEvents

  /** Lists a set once each. */
  method Listed<T(==)>(items: set<T>) returns (order: seq<T>)
    ensures Enumerates(order, items)
  {
    order := [];
    var todo := items;
    while todo != {}
      invariant todo <= items && Enumerates(order, items - todo)
    {
      var x :| x in todo;
      EnumeratesOneMore(order, items - todo, x);
      assert items - (todo - {x}) == items - todo + {x};
      todo := todo - {x};
      order := order + [x];
    }
  }

  /** Phase 5: every kind of every common edge whose weight is not already there. */
  method ListChanges(was: Relations, now: Relations) returns (changed: seq<Change>)
    ensures NoDuplicates(changed) && forall c: Change :: c in changed <==> IsChange(was, now, c)
  {
    changed := [];
    var todo := now.Keys;
    while todo != {}
      invariant todo <= now.Keys && NoDuplicates(changed)
      invariant forall c: Change :: c in changed <==> IsChange(was, now, c) && c.0 !in todo
    {
      var e :| e in todo;
      ghost var before, left := changed, todo;
      if e in was {
        var kinds := now[e].Keys;
        while kinds != {}
          invariant kinds <= now[e].Keys && NoDuplicates(changed)
          invariant forall c: Change ::
                  c in changed <==> c in before || (c.0 == e && c.1 !in kinds && IsChange(was, now, c))
        {
          hide WeightChanged;
          var k :| k in kinds;
          kinds := kinds - {k};
          if WeightChanged(was[e], now[e], k) {
            Append(changed, (e, k));
            changed := changed + [(e, k)];
          }
        }
      }
      todo := todo - {e};
    }
  }

  lemma Append(changes: seq<Change>, c: Change)
    requires NoDuplicates(changes) && c !in changes
    ensures NoDuplicates(changes + [c]) && forall x :: x in changes + [c] <==> x in changes || x == c
  {
    assert (changes + [c])[|changes|] == c;
  }

  /** The events of some diff; two such lists differ in the order within a part only. */
  ghost predicate IsDiffList(before: Graph, after: Graph, parsed: set<Bid>, events: seq<BeliefEvent>) {
    exists d :: IsDiff(before, after, parsed, d) && DiffKnown(after, parsed, d) && events == Events(after, parsed, d)
  }

  lemma DiffBuilt(before: Graph, after: Graph, parsed: set<Bid>, d: Diff)
    requires var was := View(before.relations, parsed + Removed(before, after, parsed));
             var now := View(after.relations, parsed);
             && Enumerates(d.removed, Removed(before, after, parsed))
             && Enumerates(d.updated,
                  set b | b in parsed && b in after.states && NodeChanged(before.states, after.states, b))
             && Enumerates(d.dropped, set e | e in was && e !in now && SinkComplete(before, e))
             && Enumerates(d.added, now.Keys - was.Keys)
             && NoDuplicates(d.changed) && forall c: Change :: c in d.changed <==> IsChange(was, now, c)
    ensures IsDiff(before, after, parsed, d) && DiffKnown(after, parsed, d)
    ensures IsDiffList(before, after, parsed, Events(after, parsed, d))
  {
    hide View, Removed, NodeChanged, SinkComplete, Events;
    assert IsDiff(before, after, parsed, d) && DiffKnown(after, parsed, d);
  }

  /** `compute_diff`: its event list is that of the diff `d`, which is unique up to order within a part. */
  method ComputeDiff(before: Graph, after: Graph, parsed: set<Bid>) returns (events: seq<BeliefEvent>, ghost d: Diff)
    ensures IsDiff(before, after, parsed, d) && DiffKnown(after, parsed, d)
    ensures events == Events(after, parsed, d)
    ensures IsDiffList(before, after, parsed, events)
    ensures forall s, t ::
              RelationRemoved(s, t, Remote) in events <==>
              && EdgeInView(before.relations, parsed + Removed(before, after, parsed), (s, t))
              && !EdgeInView(after.relations, parsed, (s, t))
              && t in before.states && Trace !in before.states[t].kind
  {
    var now := BuildView(after.relations, parsed);
    var content := FindRemoved(before, after.states.Keys, parsed);
    var removed := content - parsed;
    assert removed == Removed(before, after, parsed) by { hide LostLinks, Reaches; }
    hide View, Removed, NodeChanged, SinkComplete, IsDiff, DiffKnown, IsChange, RemovedEvents, UpdateEvents, DropEvents,
        AddEvents, WeightEvents;
    var was := BuildView(before.relations, parsed + removed);
    var removedList := Listed(removed);
    var updated := Listed(set b | b in parsed && b in after.states && NodeChanged(before.states, after.states, b));
    var dropped := Listed(set e | e in was && e !in now && SinkComplete(before, e));
    var added := Listed(now.Keys - was.Keys);
    var changed := ListChanges(was, now);
    d := Diff(removedList, updated, dropped, added, changed);
    DiffBuilt(before, after, parsed, d);
    events := RemovedEvents(removedList) + UpdateEvents(after.states, updated) + DropEvents(dropped)
              + AddEvents(now, added) + WeightEvents(now, changed);
    hide EdgeInView, Events;
    forall s, t {
      LossesReported(before, after, parsed, d, s, t, Remote);
    }
  }

  // ------------------------------------------------------------------ the nodes of a replay

  function PatchedStates(states: States, events: seq<BeliefEvent>): States {
    if events == [] then states
    else
      var s := PatchedStates(states, events[..|events| - 1]);
      match events[|events| - 1]
      case NodesRemoved(bids, _) => s - BidSet(bids)
      case NodeUpdate(node, _) => s[node.bid := node]
      case _ => s
  }

  lemma {:induction false} StatesConcat(states: States, a: seq<BeliefEvent>, b: seq<BeliefEvent>)
    ensures PatchedStates(states, a + b) == PatchedStates(PatchedStates(states, a), b)
  {
    if b == [] {
      assert a + b == a;
    } else {
      assert (a + b)[..|a + b| - 1] == a + b[..|b| - 1];
      StatesConcat(states, a, b[..|b| - 1]);
    }
  }

  lemma StatesRemoved(states: States, bids: seq<Bid>)
    ensures PatchedStates(states, RemovedEvents(bids)) == states - BidSet(bids)
  {
    if bids != [] {
      assert [NodesRemoved(bids, Remote)][..0] == [];
      assert PatchedStates(states, []) == states;
    }
  }

  lemma {:induction false} StatesUpdated(states: States, after: States, bids: seq<Bid>, b: Bid)
    requires WellKeyed(after) && forall x | x in bids :: x in after
    ensures var out := PatchedStates(states, UpdateEvents(after, bids));
            && (b in out <==> b in states || b in bids)
            && (b in out ==> out[b] == if b in bids then after[b] else states[b])
  {
    if bids == [] {
    } else {
      var n := |bids| - 1;
      assert bids == bids[..n] + [bids[n]];
      StatesUpdated(states, after, bids[..n], b);
    }
  }

  lemma {:induction false} StatesKept(states: States, events: seq<BeliefEvent>)
    requires forall ev | ev in events :: !ev.NodesRemoved? && !ev.NodeUpdate?
    ensures PatchedStates(states, events) == states
  {
    if events == [] {
    } else {
      assert events[|events| - 1] in events;
      StatesKept(states, events[..|events| - 1]);
    }
  }

  predicate RelationOnly(events: seq<BeliefEvent>) {
    forall ev | ev in events :: !ev.NodesRemoved? && !ev.NodeUpdate?
  }

  lemma {:induction false} DropsAreRelations(edges: seq<Edge>)
    ensures RelationOnly(DropEvents(edges))
  {
    if edges == [] {
    } else {
      DropsAreRelations(edges[..|edges| - 1]);
    }
  }

  lemma {:induction false} AddsAreRelations(now: Relations, edges: seq<Edge>)
    requires forall e | e in edges :: e in now
    ensures RelationOnly(AddEvents(now, edges))
  {
    if edges == [] {
    } else {
      AddsAreRelations(now, edges[..|edges| - 1]);
    }
  }

  lemma {:induction false} WeightsAreRelations(now: Relations, changes: seq<Change>)
    requires forall c: Change | c in changes :: c.0 in now && c.1 in now[c.0]
    ensures RelationOnly(WeightEvents(now, changes))
  {
    if changes == [] {
    } else {
      WeightsAreRelations(now, changes[..|changes| - 1]);
    }
  }

  /** The states after replaying: removed nodes are gone, reported ones are the new base's. */
  lemma ReplayedStates(before: Graph, after: Graph, parsed: set<Bid>, d: Diff, b: Bid)
    requires WellKeyed(after.states) && DiffKnown(after, parsed, d)
    ensures var out := PatchedStates(before.states, Events(after, parsed, d));
            && (b in out <==> (b in before.states && b !in d.removed) || b in d.updated)
            && (b in out ==> out[b] == if b in d.updated then after.states[b] else before.states[b])
  {
    var rest := EventParts(after, parsed, d);
    StatesRemoved(before.states, d.removed);
    StatesUpdated(before.states - BidSet(d.removed), after.states, d.updated, b);
    hide PatchedStates, Events, RemovedEvents, UpdateEvents, RelationOnly, DiffKnown;
    var a, u := RemovedEvents(d.removed), UpdateEvents(after.states, d.updated);
    StatesConcat(before.states, a + u, rest);
    StatesConcat(before.states, a, u);
    RelationsKeepStates(PatchedStates(before.states, a + u), rest);
  }

  lemma RelationsKeepStates(states: States, events: seq<BeliefEvent>)
    requires RelationOnly(events)
    ensures PatchedStates(states, events) == states
  {
    StatesKept(states, events);
  }

  /** The events after those about nodes. */
  lemma EventParts(after: Graph, parsed: set<Bid>, d: Diff) returns (rest: seq<BeliefEvent>)
    requires DiffKnown(after, parsed, d)
    ensures Events(after, parsed, d) == RemovedEvents(d.removed) + UpdateEvents(after.states, d.updated) + rest
    ensures RelationOnly(rest)
  {
    var now := View(after.relations, parsed);
    var c, f, w := DropEvents(d.dropped), AddEvents(now, d.added), WeightEvents(now, d.changed);
    rest := c + f + w;
    DropsAreRelations(d.dropped);
    AddsAreRelations(now, d.added);
    WeightsAreRelations(now, d.changed);
    hide View, RemovedEvents, UpdateEvents, DropEvents, AddEvents, WeightEvents;
    Associate(RemovedEvents(d.removed) + UpdateEvents(after.states, d.updated), c, f, w);
  }

  lemma Associate(a: seq<BeliefEvent>, c: seq<BeliefEvent>, f: seq<BeliefEvent>, w: seq<BeliefEvent>)
    ensures a + c + f + w == a + (c + f + w)
  {
  }

  /**
   Diffing again re-reports exactly the parsed nodes that the new base itself holds as Trace: only the
   old node is stripped of that colour before comparing.
   */
  lemma SecondDiffNodes(before: Graph, after: Graph, parsed: set<Bid>, d: Diff, rel: Relations, again: Diff, b: Bid)
    requires WellKeyed(after.states) && IsDiff(before, after, parsed, d) && DiffKnown(after, parsed, d)
    requires IsDiff(Graph(PatchedStates(before.states, Events(after, parsed, d)), rel), after, parsed, again)
    ensures b in again.updated <==> b in parsed && b in after.states && Trace in after.states[b].kind
  {
    ReplayedStates(before, after, parsed, d, b);
    if b in Removed(before, after, parsed) {
      RemovedUnknown(before, after, parsed, b);
    }
    hide PatchedStates, View, Removed, Events;
    if b in parsed && b in after.states {
      var node := after.states[b];
      assert node == node.(kind := node.kind - {Trace}) <==> Trace !in node.kind;
    }
  }
}
