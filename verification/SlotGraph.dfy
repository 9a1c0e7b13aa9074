/**
 The graph storage under the event store: nodes live in numbered slots, edges join slots,
 and removing a node moves the last slot into the hole (petgraph's `Graph`, as
 src/beliefbase/base.rs uses it). `Represents` says which edges between ids it holds.
 */
module SlotGraphs {
  import opened Properties
  import opened BeliefStore

  type SlotPair = (nat, nat)

  datatype SlotGraph = SlotGraph(slots: seq<Bid>, arcs: map<SlotPair, WeightSet>)
  {
    ghost predicate WellFormed() {
      && NoDuplicates(slots)
      && forall p | p in arcs :: p.0 < |slots| && p.1 < |slots|
    }

    ghost predicate Has(p: SlotPair) {
      p.0 < |slots| && p.1 < |slots|
    }

    ghost function EdgeAt(p: SlotPair): Edge
      requires Has(p)
    {
      (slots[p.0], slots[p.1])
    }

    /** The arcs are exactly the edges of `rel`. */
    ghost predicate Represents(rel: Relations) {
      && WellFormed()
      && (forall p | Has(p) :: p in arcs <==> EdgeAt(p) in rel)
      && (forall p | p in arcs :: rel[EdgeAt(p)] == arcs[p])
      && (forall e | e in rel :: e.0 in slots && e.1 in slots)
    }

    function AddNode(b: Bid): SlotGraph {
      this.(slots := slots + [b])
    }

    function SetArc(p: SlotPair, ws: WeightSet): SlotGraph {
      this.(arcs := arcs[p := ws])
    }

    function RemoveArc(p: SlotPair): SlotGraph {
      this.(arcs := arcs - {p})
    }

    /** Where slot `x` ends up when slot `a` is removed. */
    function Moved(a: nat, x: nat): nat {
      if x + 1 == |slots| then a else x
    }

    function RemoveNode(a: nat): SlotGraph
      requires a < |slots|
    {
      var last := |slots| - 1;
      SlotGraph(
        slots[a := slots[last]][..last],
        map p | p in arcs && p.0 != a && p.1 != a :: (Moved(a, p.0), Moved(a, p.1)) := arcs[p])
    }
  }

  lemma SlotsDistinct(g: SlotGraph, p: SlotPair, q: SlotPair)
    requires g.WellFormed() && g.Has(p) && g.Has(q) && g.EdgeAt(p) == g.EdgeAt(q)
    ensures p == q
  {
  }

  lemma AddNodeRepresents(g: SlotGraph, b: Bid, rel: Relations)
    requires g.Represents(rel) && b !in g.slots
    ensures g.AddNode(b).Represents(rel)
  {
    var h := g.AddNode(b);
    assert h.slots[|g.slots|] == b;
    forall p | h.Has(p) ensures p in h.arcs <==> h.EdgeAt(p) in rel {
      if g.Has(p) {
        assert h.EdgeAt(p) == g.EdgeAt(p);
      }
    }
    forall p | p in h.arcs ensures rel[h.EdgeAt(p)] == h.arcs[p] {
      assert h.EdgeAt(p) == g.EdgeAt(p);
    }
  }

  lemma SetArcRepresents(g: SlotGraph, q: SlotPair, ws: WeightSet, rel: Relations)
    requires g.Represents(rel) && g.Has(q)
    ensures g.SetArc(q, ws).Represents(rel[g.EdgeAt(q) := ws])
  {
    hide NoDuplicates;
    var h := g.SetArc(q, ws);
    forall p | h.Has(p)
      ensures h.EdgeAt(p) == g.EdgeAt(p)
      ensures h.EdgeAt(p) == g.EdgeAt(q) ==> p == q
    {
      if h.EdgeAt(p) == g.EdgeAt(q) {
        SlotsDistinct(g, p, q);
      }
    }
  }

  lemma RemoveArcRepresents(g: SlotGraph, q: SlotPair, rel: Relations)
    requires g.Represents(rel) && g.Has(q)
    ensures g.RemoveArc(q).Represents(rel - {g.EdgeAt(q)})
  {
    hide NoDuplicates;
    var h := g.RemoveArc(q);
    forall p | h.Has(p)
      ensures h.EdgeAt(p) == g.EdgeAt(p)
      ensures h.EdgeAt(p) == g.EdgeAt(q) ==> p == q
    {
      if h.EdgeAt(p) == g.EdgeAt(q) {
        SlotsDistinct(g, p, q);
      }
    }
  }

  lemma RemoveNodeBids(g: SlotGraph, a: nat)
    requires g.WellFormed() && a < |g.slots|
    ensures g.RemoveNode(a).WellFormed()
    ensures forall b :: b in g.RemoveNode(a).slots <==> b in g.slots && b != g.slots[a]
  {
    var h := g.RemoveNode(a);
    forall b | b in g.slots && b != g.slots[a] ensures b in h.slots {
      var x: nat :| x < |g.slots| && g.slots[x] == b;
      assert h.slots[g.Moved(a, x)] == b;
    }
    forall b | b in h.slots ensures b in g.slots && b != g.slots[a] {
      var i :| 0 <= i < |h.slots| && h.slots[i] == b;
      assert b == g.slots[if i == a then |g.slots| - 1 else i];
    }
  }

  /** The slot that slot `i` of the shrunk graph had before. */
  ghost function Origin(g: SlotGraph, a: nat, i: nat): nat
    requires a < |g.slots|
  {
    if i == a then |g.slots| - 1 else i
  }

  lemma RemoveNodeArc(g: SlotGraph, a: nat, p: SlotPair)
    requires g.WellFormed() && a < |g.slots| && g.RemoveNode(a).Has(p)
    ensures var q := (Origin(g, a, p.0), Origin(g, a, p.1));
            && g.Has(q) && q.0 != a && q.1 != a
            && g.RemoveNode(a).EdgeAt(p) == g.EdgeAt(q)
            && (p in g.RemoveNode(a).arcs <==> q in g.arcs)
            && (q in g.arcs ==> g.RemoveNode(a).arcs[p] == g.arcs[q])
  {
    RemoveNodeSlots(g, a, p);
    RemoveNodeWeights(g, a, p);
    hide SlotGraph.RemoveNode, NoDuplicates;
  }

  lemma RemoveNodeSlots(g: SlotGraph, a: nat, p: SlotPair)
    requires a < |g.slots| && g.RemoveNode(a).Has(p)
    ensures var q := (Origin(g, a, p.0), Origin(g, a, p.1));
            g.Has(q) && q.0 != a && q.1 != a && g.RemoveNode(a).EdgeAt(p) == g.EdgeAt(q)
  {
  }

  lemma RemoveNodeWeights(g: SlotGraph, a: nat, p: SlotPair)
    requires g.WellFormed() && a < |g.slots| && g.RemoveNode(a).Has(p)
    ensures var q := (Origin(g, a, p.0), Origin(g, a, p.1));
            && (p in g.RemoveNode(a).arcs <==> q in g.arcs)
            && (q in g.arcs ==> g.RemoveNode(a).arcs[p] == g.arcs[q])
  {
    RemoveNodeSlots(g, a, p);
    hide NoDuplicates;
    var q: SlotPair := (Origin(g, a, p.0), Origin(g, a, p.1));
    assert (g.Moved(a, q.0), g.Moved(a, q.1)) == p;
    forall r: SlotPair | r in g.arcs && r.0 != a && r.1 != a && (g.Moved(a, r.0), g.Moved(a, r.1)) == p
      ensures r == q
    {
    }
  }

  lemma RemoveNodeAt(g: SlotGraph, a: nat, rel: Relations, p: SlotPair, e: Edge)
    requires g.Represents(rel) && a < |g.slots|
    requires g.RemoveNode(a).Has(p) && g.RemoveNode(a).EdgeAt(p) == e
    ensures e.0 != g.slots[a] && e.1 != g.slots[a]
    ensures p in g.RemoveNode(a).arcs <==> e in rel
    ensures p in g.RemoveNode(a).arcs ==> rel[e] == g.RemoveNode(a).arcs[p]
  {
    RemoveNodeArc(g, a, p);
    var q := (Origin(g, a, p.0), Origin(g, a, p.1));
    assert g.EdgeAt(q) == e;
  }

  lemma RemoveNodeArcs(g: SlotGraph, a: nat, rel: Relations)
    requires g.Represents(rel) && a < |g.slots|
    ensures var h, want := g.RemoveNode(a), WithoutNodes(rel, {g.slots[a]});
            && (forall p | h.Has(p) :: p in h.arcs <==> h.EdgeAt(p) in want)
            && (forall p | h.Has(p) && p in h.arcs :: want[h.EdgeAt(p)] == h.arcs[p])
  {
    hide SlotGraph.RemoveNode;
    var h := g.RemoveNode(a);
    forall p | h.Has(p)
      ensures p in h.arcs <==> h.EdgeAt(p) in WithoutNodes(rel, {g.slots[a]})
      ensures p in h.arcs ==> WithoutNodes(rel, {g.slots[a]})[h.EdgeAt(p)] == h.arcs[p]
    {
      RemoveNodeAt(g, a, rel, p, h.EdgeAt(p));
    }
  }

  /** Moving the last slot into the hole is a renaming: the surviving ids keep their edges. */
  lemma RemoveNodeRepresents(g: SlotGraph, a: nat, rel: Relations)
    requires g.Represents(rel) && a < |g.slots|
    ensures g.RemoveNode(a).Represents(WithoutNodes(rel, {g.slots[a]}))
  {
    RemoveNodeBids(g, a);
    RemoveNodeArcs(g, a, rel);
  }
}
