/**
 What a query returns and which events evict it, written out on ids, edges and event fields.
 */
module CachedAnswers {
  import opened Properties
  import opened Reachability
  import opened BeliefStore
  import opened BeliefGraphs
  import opened GraphStore
  import opened Expressions
  import opened Balance
  import opened Cached

  /** The event carries the id: of its node, among the nodes it removes, or at an end of its edge. */
  ghost predicate Carries(ev: BeliefEvent, b: Bid) {
    || (exists node, o :: ev == NodeUpdate(node, o) && node.bid == b)
    || (exists bids, o :: ev == NodesRemoved(bids, o) && b in bids)
    || (exists x, ws, o :: ev == RelationUpdate(b, x, ws, o) || ev == RelationUpdate(x, b, ws, o))
    || (exists x, k, w, o :: ev == RelationChange(b, x, k, w, o) || ev == RelationChange(x, b, k, w, o))
    || (exists x, o :: ev == RelationRemoved(b, x, o) || ev == RelationRemoved(x, b, o))
  }

  lemma AffectedIs(events: seq<BeliefEvent>, b: Bid)
    ensures b in AffectedBy(events) <==> exists ev :: ev in events && Carries(ev, b)
  {
    forall ev: BeliefEvent ensures b in Named(ev) <==> Carries(ev, b) {
      NamedIs(ev, b);
    }
    hide Carries, Named;
  }

  lemma NamedIs(ev: BeliefEvent, b: Bid)
    ensures b in Named(ev) <==> Carries(ev, b)
  {
    match ev
    case NodeUpdate(node, o) => assert ev == NodeUpdate(node, o);
    case NodesRemoved(bids, o) => assert ev == NodesRemoved(bids, o);
    case RelationUpdate(s, t, ws, o) => assert ev == RelationUpdate(s, t, ws, o);
    case RelationChange(s, t, k, w, o) => assert ev == RelationChange(s, t, k, w, o);
    case RelationRemoved(s, t, o) => assert ev == RelationRemoved(s, t, o);
    case MalformedNodeUpdate(_) =>
    case NoStoreEffect =>
  }

  /** After a batch of events an entry is still there, and unchanged, exactly if none carries one of its ids. */
  lemma StaysIff(cache: map<Key, CacheEntry>, events: seq<BeliefEvent>, key: Key)
    ensures key in Unaffected(cache, AffectedBy(events)) <==>
            key in cache && forall b | b in cache[key].bids :: forall ev | ev in events :: !Carries(ev, b)
    ensures key in Unaffected(cache, AffectedBy(events)) ==> Unaffected(cache, AffectedBy(events))[key] == cache[key]
  {
    forall b: Bid {
      AffectedIs(events, b);
    }
    hide AffectedBy, Carries;
  }

  /**
   A query that finds no state returns no edge either if it is all-or-none, else the edges it found. One that does
   returns everything found, and every Section edge of the store that leaves a node at which an edge it found ends
   and from which none leads on.
   */
  lemma ResultIs(base: Graph, env: Lookups, q: Query, allOrNone: bool, out: Graph)
    requires base.OrphanFree() && IsResult(base, env, q, allOrNone, out)
    ensures exists found :: Evaluates(base, env, Full, q.seed, found)
              && if found.states == map[]
                 then out.states == map[] && out.relations == if allOrNone then map[] else found.relations
                 else Completes(base, found, out)
  {
    var found :| Evaluates(base, env, Full, q.seed, found)
      && (if found.states == map[] then out == (if allOrNone then EMPTY else found)
          else exists graphs :: Balances(base, graphs) && graphs[0] == found && out == graphs[Calls(graphs)]);
    if found.states != map[] {
      var graphs :| Balances(base, graphs) && graphs[0] == found && out == graphs[Calls(graphs)];
      QueriesOrphanFree(base, env, Full, q.seed, found);
      hide Evaluates;
      RunCompletes(base, graphs);
    }
  }

  ghost predicate Completes(base: Graph, found: Graph, out: Graph) {
    && (forall b | b in found.states :: b in out.states && out.states[b] == found.states[b])
    && (forall e | e in found.relations :: e in out.relations)
    && (forall b | b in out.states && b !in found.states ::
          b in base.states && out.states[b] == base.states[b].(kind := base.states[b].kind + {Trace}))
    && (forall e | e in out.relations && e !in found.relations ::
          e in base.relations && Section in base.relations[e] && out.relations[e] == base.relations[e])
    && forall e | e in base.relations && Section in base.relations[e] && e.0 != e.1
         && (exists f :: f in found.relations && found.relations[f] != map[] && f.1 == e.0)
         && (forall f | f in found.relations && f.0 == e.0 :: found.relations[f] == map[]) ::
         e in out.relations && Section in out.relations[e]
  }

  lemma RunCompletes(base: Graph, graphs: seq<Graph>)
    requires base.OrphanFree() && Balances(base, graphs) && graphs[0].OrphanFree()
    ensures Completes(base, graphs[0], graphs[Calls(graphs)])
  {
    var n := Calls(graphs);
    forall e | e in base.relations && Section in base.relations[e] && e.0 != e.1
        && (exists f :: f in graphs[0].relations && graphs[0].relations[f] != map[] && f.1 == e.0)
        && (forall f | f in graphs[0].relations && f.0 == e.0 :: graphs[0].relations[f] == map[])
      ensures e in graphs[n].relations && Section in graphs[n].relations[e]
    {
      DanglingIsFollowed(base, graphs, e.0, e);
    }
    hide Trail, Settled;
    RunAdds(base, graphs, n);
  }
}
