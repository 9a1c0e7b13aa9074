/**
 Which events a diff (src/beliefbase/base.rs, `compute_diff`) holds, kind by kind, in terms of the two bases'
 states, edges and weights alone.
 */
module DiffEvents {
  import opened Properties
  import opened Reachability
  import opened BeliefStore
  import opened BeliefGraphs
  import opened Diffs

  /** A weight is looked at if it is a Section weight of a listed source, or its owner is listed. */
  predicate InView(rel: Relations, bids: set<Bid>, e: Edge, k: WeightKind) {
    && e in rel && k in rel[e]
    && (if k == Section || rel[e][k].ownedBy == Some("source") then e.0 in bids else e.1 in bids)
  }

  /** Some weight of the edge is looked at. */
  predicate EdgeInView(rel: Relations, bids: set<Bid>, e: Edge) {
    exists k: WeightKind :: InView(rel, bids, e, k)
  }

  lemma ViewShows(rel: Relations, bids: set<Bid>, e: Edge)
    ensures e in View(rel, bids) <==> EdgeInView(rel, bids, e)
    ensures e in View(rel, bids) ==> forall k :: k in View(rel, bids)[e] <==> InView(rel, bids, e, k)
    ensures e in View(rel, bids) ==> forall k | k in View(rel, bids)[e] :: View(rel, bids)[e][k] == rel[e][k]
  {
    if e in rel {
      var ws := ScopedWeights(e, rel[e], bids);
      assert forall k :: k in ws <==> InView(rel, bids, e, k);
      assert ws != map[] <==> exists k :: k in ws;
    }
  }

  /** Each next node is a Section child of the one before, and the new base knows none of them. */
  ghost predicate IsLostChain(before: Graph, after: Graph, p: seq<Bid>) {
    && (forall i | 0 <= i < |p| :: p[i] !in after.states)
    && forall i | 0 <= i < |p| - 1 ::
         (p[i + 1], p[i]) in before.relations && Section in before.relations[(p[i + 1], p[i])]
  }

  ghost predicate LostFrom(before: Graph, after: Graph, parsed: set<Bid>, p: seq<Bid>, n: Bid) {
    |p| > 0 && p[0] in parsed && p[|p| - 1] == n && IsLostChain(before, after, p)
  }

  /** An unparsed node goes when such a chain leads to it from a parsed one. */
  ghost predicate Goes(before: Graph, after: Graph, parsed: set<Bid>, n: Bid) {
    n !in parsed && exists p :: LostFrom(before, after, parsed, p, n)
  }

  lemma RemovedGoes(before: Graph, after: Graph, parsed: set<Bid>, n: Bid)
    ensures n in Removed(before, after, parsed) <==> Goes(before, after, parsed, n)
  {
    var links, seeds := LostLinks(before.relations, after.states.Keys), parsed - after.states.Keys;
    forall l: Edge {
      LostLink(before.relations, after.states.Keys, l);
    }
    hide LostLinks;
    if p :| Connects(links, p, seeds, n) {
      assert forall i | 0 <= i < |p| - 1 :: (p[i], p[i + 1]) in links;
      forall i | 0 <= i < |p| ensures p[i] !in after.states {
        assert i > 0 ==> (p[i - 1], p[i - 1 + 1]) in links;
      }
      assert LostFrom(before, after, parsed, p, n) by { hide IsPath; }
    }
    if p :| LostFrom(before, after, parsed, p, n) {
      assert Connects(links, p, seeds, n);
    }
  }

  // ------------------------------------------------------------------ the members of each part

  lemma {:induction false} UpdateMember(after: States, bids: seq<Bid>, ev: BeliefEvent)
    requires forall b | b in bids :: b in after
    ensures ev in UpdateEvents(after, bids) <==> exists b :: b in bids && ev == NodeUpdate(after[b], Remote)
  {
    if bids == [] {
    } else {
      assert bids == bids[..|bids| - 1] + [bids[|bids| - 1]];
      UpdateMember(after, bids[..|bids| - 1], ev);
    }
  }

  lemma {:induction false} DropMember(edges: seq<Edge>, ev: BeliefEvent)
    ensures ev in DropEvents(edges) <==> exists e :: e in edges && ev == RelationRemoved(e.0, e.1, Remote)
  {
    if edges == [] {
    } else {
      assert edges == edges[..|edges| - 1] + [edges[|edges| - 1]];
      DropMember(edges[..|edges| - 1], ev);
    }
  }

  lemma {:induction false} AddMember(now: Relations, edges: seq<Edge>, ev: BeliefEvent)
    requires forall e | e in edges :: e in now
    ensures ev in AddEvents(now, edges) <==> exists e :: e in edges && ev == RelationUpdate(e.0, e.1, now[e], Remote)
  {
    if edges == [] {
    } else {
      assert edges == edges[..|edges| - 1] + [edges[|edges| - 1]];
      AddMember(now, edges[..|edges| - 1], ev);
    }
  }

  lemma {:induction false} WeightMember(now: Relations, changes: seq<Change>, ev: BeliefEvent)
    requires forall c: Change | c in changes :: c.0 in now && c.1 in now[c.0]
    ensures ev in WeightEvents(now, changes) <==> exists c: Change ::
              c in changes && ev == RelationChange(c.0.0, c.0.1, c.1, Some(now[c.0][c.1]), Remote)
  {
    if changes == [] {
    } else {
      assert changes == changes[..|changes| - 1] + [changes[|changes| - 1]];
      WeightMember(now, changes[..|changes| - 1], ev);
    }
  }

  /** Where an event of a diff comes from. */
  lemma EventMember(after: Graph, parsed: set<Bid>, d: Diff, ev: BeliefEvent)
    requires DiffKnown(after, parsed, d)
    ensures var now := View(after.relations, parsed);
            ev in Events(after, parsed, d) <==>
            match ev
            case NodesRemoved(bids, origin) => bids == d.removed && bids != [] && origin == Remote
            case NodeUpdate(node, origin) => origin == Remote && exists b :: b in d.updated && node == after.states[b]
            case RelationRemoved(s, t, origin) => origin == Remote && (s, t) in d.dropped
            case RelationUpdate(s, t, ws, origin) => origin == Remote && (s, t) in d.added && ws == now[(s, t)]
            case RelationChange(s, t, k, w, origin) =>
              origin == Remote && ((s, t), k) in d.changed && w == Some(now[(s, t)][k])
            case _ => false
  {
    var now := View(after.relations, parsed);
    UpdateMember(after.states, d.updated, ev);
    DropMember(d.dropped, ev);
    AddMember(now, d.added, ev);
    WeightMember(now, d.changed, ev);
    var a, u, c, f, w := RemovedEvents(d.removed), UpdateEvents(after.states, d.updated), DropEvents(d.dropped),
        AddEvents(now, d.added), WeightEvents(now, d.changed);
    assert ev in Events(after, parsed, d) <==> ev in a || ev in u || ev in c || ev in f || ev in w;
    hide View, UpdateEvents, DropEvents, AddEvents, WeightEvents, Events;
    match ev
    case RelationRemoved(s, t, origin) =>
      assert (s, t) in d.dropped ==> ((s, t).0, (s, t).1) == (s, t);
    case RelationUpdate(s, t, ws, origin) =>
      assert (s, t) in d.added ==> ((s, t).0, (s, t).1) == (s, t);
    case RelationChange(s, t, k, weight, origin) =>
      var change: Change := ((s, t), k);
      assert change in d.changed ==> (change.0.0, change.0.1) == (s, t);
    case _ =>
  }

  // ------------------------------------------------------------------ what each kind of event means

  /** At most one event removes nodes: exactly those that go, each listed once. */
  lemma NodesReported(before: Graph, after: Graph, parsed: set<Bid>, d: Diff, bids: seq<Bid>, origin: EventOrigin)
    requires IsDiff(before, after, parsed, d) && DiffKnown(after, parsed, d)
    requires NodesRemoved(bids, origin) in Events(after, parsed, d)
    ensures origin == Remote && NoDuplicates(bids) && bids != []
    ensures forall n :: n in bids <==> Goes(before, after, parsed, n)
  {
    EventMember(after, parsed, d, NodesRemoved(bids, origin));
    forall n: Bid {
      RemovedGoes(before, after, parsed, n);
    }
    hide Goes, Removed, View, Events;
  }

  /** Nodes that go are reported. */
  lemma NodesAreReported(before: Graph, after: Graph, parsed: set<Bid>, d: Diff, n: Bid)
    requires IsDiff(before, after, parsed, d) && DiffKnown(after, parsed, d) && Goes(before, after, parsed, n)
    ensures exists bids :: n in bids && NodesRemoved(bids, Remote) in Events(after, parsed, d)
  {
    EventMember(after, parsed, d, NodesRemoved(d.removed, Remote));
    RemovedGoes(before, after, parsed, n);
    hide Goes, Removed, View, Events;
    assert n in d.removed;
  }

  /** Some field differs; whether the old node is a Trace does not matter. */
  ghost predicate Differs(was: BeliefNode, node: BeliefNode) {
    || node.bid != was.bid || node.title != was.title || node.schema != was.schema || node.id != was.id
    || exists kind: BeliefKind :: (kind in node.kind) != (kind in was.kind && kind != Trace)
  }

  lemma NodeDiffers(before: States, after: States, b: Bid)
    requires b in after && b in before
    ensures NodeChanged(before, after, b) <==> Differs(before[b], after[b])
  {
    var node, was := after[b], before[b];
    if forall kind: BeliefKind :: (kind in node.kind) == (kind in was.kind && kind != Trace) {
      assert node.kind == was.kind - {Trace};
    }
  }

  /** A parsed node of the new base is reported if the old one lacks it or has it otherwise, Trace colour aside. */
  lemma UpdatesReported(before: Graph, after: Graph, parsed: set<Bid>, d: Diff, node: BeliefNode, origin: EventOrigin)
    requires IsDiff(before, after, parsed, d) && DiffKnown(after, parsed, d)
    ensures NodeUpdate(node, origin) in Events(after, parsed, d) <==>
            && origin == Remote
            && exists b :: b in parsed && b in after.states && node == after.states[b]
                 && (b in before.states ==> Differs(before.states[b], node))
  {
    EventMember(after, parsed, d, NodeUpdate(node, origin));
    forall b | b in after.states && b in before.states {
      NodeDiffers(before.states, after.states, b);
    }
    UpdatedAre(before, after, parsed, d);
    hide View, Events, Differs, IsDiff;
  }

  lemma UpdatedAre(before: Graph, after: Graph, parsed: set<Bid>, d: Diff)
    requires IsDiff(before, after, parsed, d)
    ensures forall b :: b in d.updated <==>
              b in parsed && b in after.states && NodeChanged(before.states, after.states, b)
  {
    hide NodeChanged, View, Removed;
  }

  /**
   A lost edge is reported exactly if the old view shows it, the new one does not, and the old base holds its
   sink, not as Trace.
   */
  lemma LossesReported(before: Graph, after: Graph, parsed: set<Bid>, d: Diff, s: Bid, t: Bid, origin: EventOrigin)
    requires IsDiff(before, after, parsed, d) && DiffKnown(after, parsed, d)
    ensures RelationRemoved(s, t, origin) in Events(after, parsed, d) <==>
            && origin == Remote
            && EdgeInView(before.relations, parsed + Removed(before, after, parsed), (s, t))
            && !EdgeInView(after.relations, parsed, (s, t))
            && t in before.states && Trace !in before.states[t].kind
  {
    EventMember(after, parsed, d, RelationRemoved(s, t, origin));
    ViewShows(before.relations, parsed + Removed(before, after, parsed), (s, t));
    ViewShows(after.relations, parsed, (s, t));
    hide Removed, View, Events, InView;
  }

  /** A new edge is reported with its weights in view, exactly if the new view shows it and the old one does not. */
  lemma NewEdgesReported(before: Graph, after: Graph, parsed: set<Bid>, d: Diff, s: Bid, t: Bid, ws: WeightSet,
      origin: EventOrigin)
    requires IsDiff(before, after, parsed, d) && DiffKnown(after, parsed, d)
    ensures RelationUpdate(s, t, ws, origin) in Events(after, parsed, d) <==>
            && origin == Remote
            && EdgeInView(after.relations, parsed, (s, t))
            && !EdgeInView(before.relations, parsed + Removed(before, after, parsed), (s, t))
            && (forall k :: k in ws <==> InView(after.relations, parsed, (s, t), k))
            && forall k | k in ws :: ws[k] == after.relations[(s, t)][k]
  {
    EventMember(after, parsed, d, RelationUpdate(s, t, ws, origin));
    ViewShows(before.relations, parsed + Removed(before, after, parsed), (s, t));
    ViewShows(after.relations, parsed, (s, t));
    hide Removed, Events;
    var now := View(after.relations, parsed);
    hide View;
    if (s, t) in now && (forall k :: k in ws <==> InView(after.relations, parsed, (s, t), k))
        && forall k | k in ws :: ws[k] == after.relations[(s, t)][k] {
      hide InView;
      assert ws == now[(s, t)];
    }
  }

  /** On an edge of both views a weight is reported unless the old view has it with the same sort key. */
  lemma WeightsReported(before: Graph, after: Graph, parsed: set<Bid>, d: Diff, s: Bid, t: Bid, k: WeightKind,
      w: Option<Weight>, origin: EventOrigin)
    requires IsDiff(before, after, parsed, d) && DiffKnown(after, parsed, d)
    ensures var all := parsed + Removed(before, after, parsed);
            RelationChange(s, t, k, w, origin) in Events(after, parsed, d) <==>
            && origin == Remote
            && EdgeInView(before.relations, all, (s, t))
            && InView(after.relations, parsed, (s, t), k) && w == Some(after.relations[(s, t)][k])
            && !(InView(before.relations, all, (s, t), k)
                 && before.relations[(s, t)][k].sortKey == after.relations[(s, t)][k].sortKey)
  {
    EventMember(after, parsed, d, RelationChange(s, t, k, w, origin));
    ViewShows(before.relations, parsed + Removed(before, after, parsed), (s, t));
    ViewShows(after.relations, parsed, (s, t));
    hide Removed, View, Events, InView;
  }

  // ------------------------------------------------------------------ their order

  /** Removed nodes, changed nodes, lost edges, new edges, changed weights. */
  predicate Precedes(a: BeliefEvent, b: BeliefEvent) {
    && (b.NodesRemoved? ==> a.NodesRemoved?)
    && (b.NodeUpdate? ==> a.NodesRemoved? || a.NodeUpdate?)
    && (b.RelationRemoved? ==> a.NodesRemoved? || a.NodeUpdate? || a.RelationRemoved?)
    && (b.RelationUpdate? ==> !a.RelationChange?)
  }

  /** The parts come in that order. */
  lemma EventsInOrder(after: Graph, parsed: set<Bid>, d: Diff, i: nat, j: nat)
    requires DiffKnown(after, parsed, d) && i < j < |Events(after, parsed, d)|
    ensures Precedes(Events(after, parsed, d)[i], Events(after, parsed, d)[j])
  {
    var now := View(after.relations, parsed);
    var a, u, c, f, w := RemovedEvents(d.removed), UpdateEvents(after.states, d.updated), DropEvents(d.dropped),
        AddEvents(now, d.added), WeightEvents(now, d.changed);
    assert Events(after, parsed, d) == a + u + c + f + w;
    forall x | x in u ensures x.NodeUpdate? {
      UpdateMember(after.states, d.updated, x);
    }
    forall x | x in c ensures x.RelationRemoved? {
      DropMember(d.dropped, x);
    }
    forall x | x in f ensures x.RelationUpdate? {
      AddMember(now, d.added, x);
    }
    forall x | x in w ensures x.RelationChange? {
      WeightMember(now, d.changed, x);
    }
    hide View, RemovedEvents, UpdateEvents, DropEvents, AddEvents, WeightEvents, Events, DiffKnown;
    InParts(a, u, c, f, w, i, j);
  }

  lemma InParts(a: seq<BeliefEvent>, u: seq<BeliefEvent>, c: seq<BeliefEvent>, f: seq<BeliefEvent>, w: seq<BeliefEvent>,
      i: nat, j: nat)
    requires forall x | x in a :: x.NodesRemoved?
    requires forall x | x in u :: x.NodeUpdate?
    requires forall x | x in c :: x.RelationRemoved?
    requires forall x | x in f :: x.RelationUpdate?
    requires forall x | x in w :: x.RelationChange?
    requires i < j < |a + u + c + f + w|
    ensures Precedes((a + u + c + f + w)[i], (a + u + c + f + w)[j])
  {
    PartOf(a, u, c, f, w, i);
    PartOf(a, u, c, f, w, j);
  }

  /** The event at a position belongs to the part the position lies in. */
  lemma PartOf(a: seq<BeliefEvent>, u: seq<BeliefEvent>, c: seq<BeliefEvent>, f: seq<BeliefEvent>, w: seq<BeliefEvent>,
      i: nat)
    requires i < |a + u + c + f + w|
    ensures var ev := (a + u + c + f + w)[i];
            if i < |a| then ev in a
            else if i < |a| + |u| then ev in u
            else if i < |a| + |u| + |c| then ev in c
            else if i < |a| + |u| + |c| + |f| then ev in f
            else ev in w
  {
  }
}
