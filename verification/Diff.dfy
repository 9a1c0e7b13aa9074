/**
 `compute_diff` of src/beliefbase/base.rs: the events that turn one base's view of the parsed
 nodes into another's, and when replaying them does.
 */
module Diffs {
  import opened Properties
  import opened Reachability
  import opened BeliefStore
  import opened BeliefGraphs

  // ------------------------------------------------------------------ what a diff looks at

  /** A Section weight belongs to its source; any other weight to its owner. */
  predicate InScope(e: Edge, k: WeightKind, w: Weight, bids: set<Bid>) {
    if k == Section then e.0 in bids else w.OwnerOf(e.0, e.1) in bids
  }

  function ScopedWeights(e: Edge, ws: WeightSet, bids: set<Bid>): WeightSet {
    map k | k in ws && InScope(e, k, ws[k], bids) :: ws[k]
  }

  /** The edges with some weight in scope, cut down to those weights. */
  function View(rel: Relations, bids: set<Bid>): Relations {
    map e | e in rel && ScopedWeights(e, rel[e], bids) != map[] :: ScopedWeights(e, rel[e], bids)
  }

  /** The same edges, kinds and sort keys. */
  ghost predicate SameView(a: Relations, b: Relations) {
    a.Keys == b.Keys && forall e | e in a :: SameWeights(a[e], b[e])
  }

  /** Only edges touching the nodes can have a weight in scope, so the program skips the others first. */
  method BuildView(rel: Relations, bids: set<Bid>) returns (view: Relations)
    ensures view == View(rel, bids)
  {
    view := map[];
    var todo := rel.Keys;
    while todo != {}
      invariant todo <= rel.Keys
      invariant view.Keys == View(rel, bids).Keys - todo
      invariant forall e | e in view :: view[e] == View(rel, bids)[e]
    {
      var e :| e in todo;
      todo := todo - {e};
      if e.0 in bids || e.1 in bids {
        var ws := ScopedWeights(e, rel[e], bids);
        if ws != map[] {
          view := view[e := ws];
        }
      } else {
        assert ScopedWeights(e, rel[e], bids) == map[];
      }
    }
  }

  // ------------------------------------------------------------------ removed nodes

  /** Section links, parent to child, between nodes the new base lacks. */
  function LostLinks(rel: Relations, known: set<Bid>): set<Edge> {
    Flip(set e | e in rel && Section in rel[e] && e.0 !in known && e.1 !in known)
  }

  /** A missing node below a missing parsed one, with nothing but missing nodes between. */
  ghost predicate IsRemoved(before: Graph, after: Graph, parsed: set<Bid>, n: Bid) {
    n !in parsed && Reaches(LostLinks(before.relations, after.states.Keys), parsed - after.states.Keys, n)
  }

  ghost function Removed(before: Graph, after: Graph, parsed: set<Bid>): (bids: set<Bid>)
    ensures forall n :: n in bids <==> IsRemoved(before, after, parsed, n)
  {
    var links := LostLinks(before.relations, after.states.Keys);
    var bids := set n | n in Endpoints(links) && IsRemoved(before, after, parsed, n);
    forall n | IsRemoved(before, after, parsed, n) ensures n in bids {
      ReachedIsEndpoint(links, parsed - after.states.Keys, n);
    }
    bids
  }

  lemma ReachedIsEndpoint(links: set<Edge>, seeds: set<Bid>, n: Bid)
    requires Reaches(links, seeds, n) && n !in seeds
    ensures n in Endpoints(links)
  {
    ClosedHoldsReached(links, seeds, seeds + Endpoints(links), n);
  }

  lemma LostLink(rel: Relations, known: set<Bid>, l: Edge)
    ensures l in LostLinks(rel, known) <==>
            (l.1, l.0) in rel && Section in rel[(l.1, l.0)] && l.0 !in known && l.1 !in known
  {
    var edges := set e | e in rel && Section in rel[e] && e.0 !in known && e.1 !in known;
    var e := (l.1, l.0);
    assert e in edges ==> (e.1, e.0) in Flip(edges);
  }

  lemma RemovedUnknown(before: Graph, after: Graph, parsed: set<Bid>, n: Bid)
    requires IsRemoved(before, after, parsed, n)
    ensures n !in after.states
  {
    var links := LostLinks(before.relations, after.states.Keys);
    var seeds := parsed - after.states.Keys;
    forall l: Edge | l in links ensures l.1 !in after.states {
      LostLink(before.relations, after.states.Keys, l);
    }
    hide LostLinks;
    ClosedHoldsReached(links, seeds, seeds + (set l | l in links :: l.1), n);
  }

  /** With every parsed node in the new base the search prunes at its seeds and removes nothing. */
  lemma NothingRemoved(before: Graph, after: Graph, parsed: set<Bid>)
    requires parsed <= after.states.Keys
    ensures Removed(before, after, parsed) == {}
  {
    assert parsed - after.states.Keys == {};
    hide Reaches;
    forall n ensures !IsRemoved(before, after, parsed, n) {
      NoSeeds(LostLinks(before.relations, after.states.Keys), n);
    }
  }

  lemma NoSeeds(links: set<Edge>, n: Bid)
    ensures !Reaches(links, {}, n)
  {
  }

  function Children(rel: Relations, n: Bid): set<Bid> {
    set e | e in rel && e.1 == n && Section in rel[e] :: e.0
  }

  /** The pruned depth-first search over the old hierarchy. */
  method FindRemoved(before: Graph, known: set<Bid>, parsed: set<Bid>) returns (content: set<Bid>)
    ensures forall n :: n in content <==> Reaches(LostLinks(before.relations, known), parsed - known, n)
  {
    var rel := before.relations;
    ghost var links := LostLinks(rel, known);
    ghost var seeds := parsed - known;
    content := {};
    var discovered: set<Bid> := {};
    var stack := SetToSeq(parsed);
    ghost var all := parsed + Endpoints(rel.Keys);
    forall n | n in stack && n !in known ensures Reaches(links, seeds, n) {
      SeedReached(links, seeds, n);
    }
    while stack != []
      invariant content == discovered - known
      invariant forall n | n in discovered || n in stack :: n !in known ==> Reaches(links, seeds, n)
      invariant forall n | n in seeds :: n in content || n in stack
      invariant forall l | l in links && l.0 in content :: l.1 in content || l.1 in stack
      invariant discovered <= all && forall n | n in stack :: n in all
      decreases all - discovered, |stack|
    {
      hide LostLinks, Reaches, Endpoints;
      var n, rest := stack[|stack| - 1], stack[..|stack| - 1];
      assert stack == rest + [n];
      if n in discovered {
        stack := rest;
      } else {
        discovered := discovered + {n};
        if n in known {
          stack := rest;
        } else {
          content := content + {n};
          var next := SetToSeq(Children(rel, n));
          ChildrenReached(rel, known, seeds, n);
          stack := rest + next;
        }
      }
    }
    forall n | Reaches(links, seeds, n) ensures n in content {
      ClosedHoldsReached(links, seeds, content, n);
    }
  }

  lemma ChildrenReached(rel: Relations, known: set<Bid>, seeds: set<Bid>, n: Bid)
    requires n !in known && Reaches(LostLinks(rel, known), seeds, n)
    ensures forall c | c in Children(rel, n) :: c in Endpoints(rel.Keys)
    ensures forall c | c in Children(rel, n) && c !in known :: Reaches(LostLinks(rel, known), seeds, c)
    ensures forall l | l in LostLinks(rel, known) && l.0 == n :: l.1 in Children(rel, n)
  {
    forall c | c in Children(rel, n)
      ensures c in Endpoints(rel.Keys) && (c !in known ==> Reaches(LostLinks(rel, known), seeds, c))
    {
      var e :| e in rel && e.1 == n && Section in rel[e] && e.0 == c;
      assert e == (c, n);
      LostLink(rel, known, (n, c));
      if c !in known {
        StepReached(LostLinks(rel, known), seeds, n, c);
      }
    }
    forall l: Edge | l in LostLinks(rel, known) && l.0 == n ensures l.1 in Children(rel, n) {
      LostLink(rel, known, l);
    }
  }

  // ------------------------------------------------------------------ the events

  /** The state comparison ignores the Trace colour of the old node. */
  predicate NodeChanged(before: States, after: States, b: Bid)
    requires b in after
  {
    b in before ==> after[b] != before[b].(kind := before[b].kind - {Trace})
  }

  /** A lost edge is reported when the old base knows all relations of its sink. */
  predicate SinkComplete(before: Graph, e: Edge) {
    e.1 in before.states && before.states[e.1].IsComplete()
  }

  /** A weight is reported unless the old view has it with the same sort key. */
  predicate WeightChanged(was: WeightSet, now: WeightSet, k: WeightKind)
    requires k in now
  {
    k in was ==> !was[k].SameAs(now[k])
  }

  type Change = (Edge, WeightKind)

  /** The parts of a diff, in order. */
  datatype Diff = Diff(
    removed: seq<Bid>, updated: seq<Bid>, dropped: seq<Edge>, added: seq<Edge>, changed: seq<Change>)

  ghost predicate IsDiff(before: Graph, after: Graph, parsed: set<Bid>, d: Diff) {
    var was := View(before.relations, parsed + Removed(before, after, parsed));
    var now := View(after.relations, parsed);
    && Enumerates(d.removed, Removed(before, after, parsed))
    && Enumerates(d.updated, set b | b in parsed && b in after.states && NodeChanged(before.states, after.states, b))
    && Enumerates(d.dropped, set e | e in was && e !in now && SinkComplete(before, e))
    && Enumerates(d.added, now.Keys - was.Keys)
    && NoDuplicates(d.changed)
    && (forall c: Change :: c in d.changed <==> IsChange(was, now, c))
  }

  ghost predicate IsChange(was: Relations, now: Relations, c: Change) {
    c.0 in was && c.0 in now && c.1 in now[c.0] && WeightChanged(was[c.0], now[c.0], c.1)
  }

  function RemovedEvents(bids: seq<Bid>): seq<BeliefEvent> {
    if bids == [] then [] else [NodesRemoved(bids, Remote)]
  }

  function UpdateEvents(after: States, bids: seq<Bid>): (events: seq<BeliefEvent>)
    requires forall b | b in bids :: b in after
  {
    if bids == [] then []
    else UpdateEvents(after, bids[..|bids| - 1]) + [NodeUpdate(after[bids[|bids| - 1]], Remote)]
  }

  function DropEvents(edges: seq<Edge>): seq<BeliefEvent> {
    if edges == [] then []
    else
      var e := edges[|edges| - 1];
      DropEvents(edges[..|edges| - 1]) + [RelationRemoved(e.0, e.1, Remote)]
  }

  function AddEvents(now: Relations, edges: seq<Edge>): seq<BeliefEvent>
    requires forall e | e in edges :: e in now
  {
    if edges == [] then []
    else
      var e := edges[|edges| - 1];
      AddEvents(now, edges[..|edges| - 1]) + [RelationUpdate(e.0, e.1, now[e], Remote)]
  }

  function WeightEvents(now: Relations, changes: seq<Change>): seq<BeliefEvent>
    requires forall c: Change | c in changes :: c.0 in now && c.1 in now[c.0]
  {
    if changes == [] then []
    else
      var c := changes[|changes| - 1];
      WeightEvents(now, changes[..|changes| - 1]) + [RelationChange(c.0.0, c.0.1, c.1, Some(now[c.0][c.1]), Remote)]
  }

  ghost predicate DiffKnown(after: Graph, parsed: set<Bid>, d: Diff) {
    var now := View(after.relations, parsed);
    && (forall b | b in d.updated :: b in after.states)
    && (forall e | e in d.added :: e in now)
    && (forall c: Change | c in d.changed :: c.0 in now && c.1 in now[c.0])
  }

  /** The event list of a diff. */
  ghost function Events(after: Graph, parsed: set<Bid>, d: Diff): seq<BeliefEvent>
    requires DiffKnown(after, parsed, d)
  {
    var now := View(after.relations, parsed);
    RemovedEvents(d.removed) + UpdateEvents(after.states, d.updated) + DropEvents(d.dropped)
    + AddEvents(now, d.added) + WeightEvents(now, d.changed)
  }

  // ------------------------------------------------------------------ replaying

  /**
   An event on plain maps: no fresh sort keys and no renumbering; a changed weight is merged into the
   one present, as the store does.
   */
  function Patch(rel: Relations, ev: BeliefEvent): Relations {
    match ev
    case NodesRemoved(bids, _) => WithoutNodes(rel, BidSet(bids))
    case RelationUpdate(s, t, ws, _) => WriteEdge(rel, (s, t), ws)
    case RelationRemoved(s, t, _) => rel - {(s, t)}
    case RelationChange(s, t, k, Some(w), _) => rel[(s, t) := SetWeight(WeightsAt(rel, (s, t)), k, w)]
    case _ => rel
  }

  function SetWeight(ws: WeightSet, k: WeightKind, w: Weight): WeightSet {
    ws[k := if k in ws then ws[k].Merge(w) else w]
  }

  function Patched(rel: Relations, events: seq<BeliefEvent>): Relations {
    if events == [] then rel else Patch(Patched(rel, events[..|events| - 1]), events[|events| - 1])
  }

  lemma {:induction false} PatchedConcat(rel: Relations, a: seq<BeliefEvent>, b: seq<BeliefEvent>)
    ensures Patched(rel, a + b) == Patched(Patched(rel, a), b)
  {
    hide Patch;
    if b == [] {
      assert a + b == a;
    } else {
      assert (a + b)[..|a + b| - 1] == a + b[..|b| - 1];
      PatchedConcat(rel, a, b[..|b| - 1]);
    }
  }

  lemma PatchedRemoved(rel: Relations, bids: seq<Bid>)
    ensures Patched(rel, RemovedEvents(bids)) == WithoutNodes(rel, BidSet(bids))
  {
    if bids == [] {
      assert WithoutNodes(rel, {}) == rel;
    } else {
      assert [NodesRemoved(bids, Remote)][..0] == [];
      assert Patched(rel, []) == rel;
    }
  }

  lemma {:induction false} PatchedUpdates(rel: Relations, after: States, bids: seq<Bid>)
    requires forall b | b in bids :: b in after
    ensures Patched(rel, UpdateEvents(after, bids)) == rel
  {
    if bids == [] {
    } else {
      PatchedUpdates(rel, after, bids[..|bids| - 1]);
    }
  }

  lemma {:induction false} PatchedDrops(rel: Relations, edges: seq<Edge>, e: Edge)
    ensures var out := Patched(rel, DropEvents(edges));
            (e in out <==> e in rel && e !in edges) && (e in out ==> out[e] == rel[e])
  {
    if edges == [] {
    } else {
      var n := |edges| - 1;
      assert edges == edges[..n] + [edges[n]];
      PatchedDrops(rel, edges[..n], e);
    }
  }

  lemma AddEventsLast(rel: Relations, now: Relations, edges: seq<Edge>)
    requires edges != [] && forall x | x in edges :: x in now
    ensures var n, e := |edges| - 1, edges[|edges| - 1];
            Patched(rel, AddEvents(now, edges))
            == Patch(Patched(rel, AddEvents(now, edges[..n])), RelationUpdate(e.0, e.1, now[e], Remote))
  {
    hide Patch;
    assert AddEvents(now, edges)[..|AddEvents(now, edges)| - 1] == AddEvents(now, edges[..|edges| - 1]);
  }

  lemma {:induction false} PatchedAdds(rel: Relations, now: Relations, edges: seq<Edge>, e: Edge)
    requires forall x | x in edges :: x in now && now[x] != map[]
    ensures var out := Patched(rel, AddEvents(now, edges));
            if e in edges then e in out && out[e] == now[e]
            else (e in out <==> e in rel) && (e in rel ==> out[e] == rel[e])
  {
    if edges == [] {
    } else {
      var n := |edges| - 1;
      assert edges == edges[..n] + [edges[n]];
      AddEventsLast(rel, now, edges);
      hide Patched, AddEvents;
      PatchedAdds(rel, now, edges[..n], e);
    }
  }

  lemma WeightEventsLast(rel: Relations, now: Relations, changes: seq<Change>)
    requires changes != [] && forall c: Change | c in changes :: c.0 in now && c.1 in now[c.0]
    ensures var n, c := |changes| - 1, changes[|changes| - 1];
            Patched(rel, WeightEvents(now, changes))
            == Patch(Patched(rel, WeightEvents(now, changes[..n])),
                     RelationChange(c.0.0, c.0.1, c.1, Some(now[c.0][c.1]), Remote))
  {
    hide Patch;
    var n := |changes| - 1;
    assert WeightEvents(now, changes)[..|WeightEvents(now, changes)| - 1] == WeightEvents(now, changes[..n]);
  }

  /** Each listed kind of an edge is merged in; kinds not listed stay. */
  lemma {:induction false} PatchedWeights(rel: Relations, now: Relations, changes: seq<Change>, e: Edge, k: WeightKind)
    requires NoDuplicates(changes)
    requires forall c: Change | c in changes :: c.0 in now && c.1 in now[c.0]
    ensures var was, out := WeightsAt(rel, e), WeightsAt(Patched(rel, WeightEvents(now, changes)), e);
            && (k in out <==> k in was || (e, k) in changes)
            && (k in out ==>
                  out[k] == if (e, k) !in changes then was[k]
                            else if k in was then was[k].Merge(now[e][k]) else now[e][k])
  {
    if changes == [] {
    } else {
      var n := |changes| - 1;
      var c: Change := changes[n];
      assert changes == changes[..n] + [c];
      WeightEventsLast(rel, now, changes);
      hide Patched, WeightEvents;
      PatchedWeights(rel, now, changes[..n], e, k);
    }
  }

  /** An edge stays present, and one without a listed kind stays as it is. */
  lemma {:induction false} PatchedEdges(rel: Relations, now: Relations, changes: seq<Change>, e: Edge)
    requires forall c: Change | c in changes :: c.0 in now && c.1 in now[c.0]
    ensures var out := Patched(rel, WeightEvents(now, changes));
            && (e in rel ==> e in out)
            && ((forall k :: (e, k) !in changes) ==> (e in out <==> e in rel) && (e in out ==> out[e] == rel[e]))
  {
    if changes == [] {
    } else {
      var n := |changes| - 1;
      assert changes == changes[..n] + [changes[n]];
      PatchedEdges(rel, now, changes[..n], e);
    }
  }

  // ------------------------------------------------------------------ what replaying leaves

  /** The relations after replaying a diff. */
  ghost function Replayed(before: Graph, after: Graph, parsed: set<Bid>, d: Diff): Relations
    requires DiffKnown(after, parsed, d)
  {
    Patched(before.relations, Events(after, parsed, d))
  }

  lemma ReplayStages(before: Graph, after: Graph, parsed: set<Bid>, d: Diff)
    requires DiffKnown(after, parsed, d)
    ensures Replayed(before, after, parsed, d)
         == Patched(Staged(before, after, parsed, d), WeightEvents(View(after.relations, parsed), d.changed))
  {
    hide Patched, View, RemovedEvents, UpdateEvents, DropEvents, AddEvents, WeightEvents, WithoutNodes;
    var rel := before.relations;
    var now := View(after.relations, parsed);
    var a, b, c, f := RemovedEvents(d.removed), UpdateEvents(after.states, d.updated), DropEvents(d.dropped),
        AddEvents(now, d.added);
    PatchedConcat(rel, a + b + c + f, WeightEvents(now, d.changed));
    PatchedConcat(rel, a + b + c, f);
    PatchedConcat(rel, a + b, c);
    PatchedConcat(rel, a, b);
    PatchedRemoved(rel, d.removed);
    PatchedUpdates(WithoutNodes(rel, BidSet(d.removed)), after.states, d.updated);
  }

  /** The relations just before the weight changes of a diff. */
  ghost function Staged(before: Graph, after: Graph, parsed: set<Bid>, d: Diff): Relations
    requires DiffKnown(after, parsed, d)
  {
    Patched(Patched(WithoutNodes(before.relations, BidSet(d.removed)), DropEvents(d.dropped)),
      AddEvents(View(after.relations, parsed), d.added))
  }

  /** Reported kinds are merged in, the others are as they were. */
  ghost predicate Rewritten(raw: WeightSet, was: WeightSet, now: WeightSet, out: WeightSet) {
    && (forall k :: k in out <==> k in raw || (k in now && WeightChanged(was, now, k)))
    && (forall k | k in out ::
          out[k] == if k in now && WeightChanged(was, now, k)
                    then (if k in raw then raw[k].Merge(now[k]) else now[k])
                    else raw[k])
  }

  predicate Gone(removed: set<Bid>, e: Edge) {
    e.0 in removed || e.1 in removed
  }

  /** One edge after the nodes went, the lost edges went and the new ones came. */
  lemma BeforeChanges(before: Graph, after: Graph, parsed: set<Bid>, d: Diff, e: Edge)
    requires IsDiff(before, after, parsed, d) && DiffKnown(after, parsed, d)
    ensures var removed := Removed(before, after, parsed);
            var was, now := View(before.relations, parsed + removed), View(after.relations, parsed);
            var out := Staged(before, after, parsed, d);
            if e in now && e !in was then e in out && out[e] == now[e]
            else if Gone(removed, e) || (e in was && e !in now && SinkComplete(before, e)) then e !in out
            else (e in out <==> e in before.relations) && (e in out ==> out[e] == before.relations[e])
  {
    var removed := Removed(before, after, parsed);
    var now := View(after.relations, parsed);
    assert BidSet(d.removed) == removed;
    var r1 := WithoutNodes(before.relations, removed);
    hide Removed, Patched, DropEvents, AddEvents, SinkComplete;
    assert forall x | x in d.added :: x in now && now[x] != map[];
    PatchedDrops(r1, d.dropped, e);
    PatchedAdds(Patched(r1, DropEvents(d.dropped)), now, d.added, e);
  }

  /** What a kept edge starts from: nothing, when one of its nodes was removed. */
  function Remaining(before: Relations, removed: set<Bid>, e: Edge): WeightSet {
    if Gone(removed, e) then map[] else WeightsAt(before, e)
  }

  /**
   What replaying leaves of one edge. An edge between removed nodes that both views have is dropped with
   its nodes and comes back with the reported kinds only.
   */
  lemma ReplayedEdge(before: Graph, after: Graph, parsed: set<Bid>, d: Diff, e: Edge)
    requires IsDiff(before, after, parsed, d) && DiffKnown(after, parsed, d)
    ensures var removed := Removed(before, after, parsed);
            var was, now := View(before.relations, parsed + removed), View(after.relations, parsed);
            var out := Replayed(before, after, parsed, d);
            if e in now && e !in was then e in out && out[e] == now[e]
            else if e in now then Rewritten(Remaining(before.relations, removed, e), was[e], now[e], WeightsAt(out, e))
            else if Gone(removed, e) || (e in was && SinkComplete(before, e)) then e !in out
            else (e in out <==> e in before.relations) && (e in out ==> out[e] == before.relations[e])
  {
    BeforeChanges(before, after, parsed, d, e);
    var was, now := View(before.relations, parsed + Removed(before, after, parsed)), View(after.relations, parsed);
    if e in was && e in now {
      assert e in before.relations;
      hide IsDiff, Removed, SinkComplete, Replayed, Gone, Staged, View, DiffKnown, Rewritten;
      ReplayedBoth(before, after, parsed, d, e);
    } else {
      hide IsDiff, Removed, SinkComplete, Replayed, Gone, Staged, View, DiffKnown, Rewritten;
      ReplayedOther(before, after, parsed, d, e);
    }
  }

  lemma ReplayedOther(before: Graph, after: Graph, parsed: set<Bid>, d: Diff, e: Edge)
    requires IsDiff(before, after, parsed, d) && DiffKnown(after, parsed, d)
    requires e !in View(before.relations, parsed + Removed(before, after, parsed))
             || e !in View(after.relations, parsed)
    ensures var out, r3 := Replayed(before, after, parsed, d), Staged(before, after, parsed, d);
            (e in out <==> e in r3) && (e in out ==> out[e] == r3[e])
  {
    ReplayStages(before, after, parsed, d);
    assert forall k :: (e, k) !in d.changed;
    hide IsDiff, Removed, Patched, WeightEvents, Replayed, Staged, NoDuplicates, View;
    PatchedEdges(Staged(before, after, parsed, d), View(after.relations, parsed), d.changed, e);
  }

  lemma ReplayedBoth(before: Graph, after: Graph, parsed: set<Bid>, d: Diff, e: Edge)
    requires IsDiff(before, after, parsed, d) && DiffKnown(after, parsed, d)
    requires e in View(before.relations, parsed + Removed(before, after, parsed)) && e in View(after.relations, parsed)
    ensures var removed := Removed(before, after, parsed);
            var was, now := View(before.relations, parsed + removed), View(after.relations, parsed);
            Rewritten(WeightsAt(Staged(before, after, parsed, d), e), was[e], now[e],
              WeightsAt(Replayed(before, after, parsed, d), e))
  {
    ReplayStages(before, after, parsed, d);
    var was, now := View(before.relations, parsed + Removed(before, after, parsed)), View(after.relations, parsed);
    forall k ensures (e, k) in d.changed <==> k in now[e] && WeightChanged(was[e], now[e], k) {
      assert (e, k) in d.changed <==> IsChange(was, now, (e, k));
    }
    assert NoDuplicates(d.changed);
    var r3 := Staged(before, after, parsed, d);
    hide IsDiff, Removed, Patched, WeightEvents, Replayed, Staged, NoDuplicates, View, Merged, Rewritten, IsChange,
        WeightChanged, WeightsAt;
    WeightsReplayed(r3, now, d.changed, e);
    MergedIsRewritten(WeightsAt(r3, e), was[e], now[e], d.changed, e, WeightsAt(Replayed(before, after, parsed, d), e));
  }

  /** The listed kinds of the edge are merged in. */
  ghost predicate Merged(raw: WeightSet, now: WeightSet, changes: seq<Change>, e: Edge, out: WeightSet) {
    && (forall k :: (e, k) in changes ==> k in now)
    && (forall k :: k in out <==> k in raw || (e, k) in changes)
    && (forall k | k in out ::
          out[k] == if (e, k) !in changes then raw[k] else if k in raw then raw[k].Merge(now[k]) else now[k])
  }

  lemma MergedIsRewritten(raw: WeightSet, was: WeightSet, now: WeightSet, changes: seq<Change>, e: Edge, out: WeightSet)
    requires Merged(raw, now, changes, e, out)
    requires forall k :: (e, k) in changes <==> k in now && WeightChanged(was, now, k)
    ensures Rewritten(raw, was, now, out)
  {
  }

  lemma WeightsReplayed(rel: Relations, now: Relations, changes: seq<Change>, e: Edge)
    requires NoDuplicates(changes) && e in now
    requires forall c: Change | c in changes :: c.0 in now && c.1 in now[c.0]
    ensures Merged(WeightsAt(rel, e), now[e], changes, e, WeightsAt(Patched(rel, WeightEvents(now, changes)), e))
  {
    hide Patched, WeightEvents, NoDuplicates;
    var was, out := WeightsAt(rel, e), WeightsAt(Patched(rel, WeightEvents(now, changes)), e);
    hide WeightsAt;
    forall k
      ensures k in out <==> k in was || (e, k) in changes
      ensures k in out ==>
                out[k] == if (e, k) !in changes then was[k]
                          else if k in was then was[k].Merge(now[e][k]) else now[e][k]
    {
      PatchedWeights(rel, now, changes, e, k);
    }
  }
}
