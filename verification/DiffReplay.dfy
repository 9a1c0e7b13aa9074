/**
 When replaying a diff (src/beliefbase/base.rs, `compute_diff`) makes the old view equal the new one,
 and what a second diff then reports.
 */
module DiffReplay {
  import opened Properties
  import opened Reachability
  import opened BeliefStore
  import opened BeliefGraphs
  import opened Diffs

  /** A weight merged over the present one shows the new sort key and is still owned by a parsed node. */
  predicate TakesOver(e: Edge, k: WeightKind, raw: Weight, w: Weight, parsed: set<Bid>) {
    && (w.sortKey.Some? || raw.sortKey.None?)
    && (k == Section || w.ownedBy.Some? || raw.OwnerOf(e.0, e.1) in parsed)
  }

  /** No kind in scope is lost and every reported weight takes over. */
  ghost predicate KindsReplayable(e: Edge, raw: WeightSet, was: WeightSet, now: WeightSet, parsed: set<Bid>) {
    && was.Keys <= now.Keys
    && forall k | k in now && k in raw && WeightChanged(was, now, k) :: TakesOver(e, k, raw[k], now[k], parsed)
  }

  /** What replaying needs of one edge. */
  ghost predicate EdgeReplayable(before: Graph, after: Graph, parsed: set<Bid>, e: Edge) {
    var removed := Removed(before, after, parsed);
    var was, now := View(before.relations, parsed + removed), View(after.relations, parsed);
    if e !in was then true
    else if e !in now then SinkComplete(before, e) || Gone(removed, e)
    else if Gone(removed, e) then forall k | k in now[e] :: WeightChanged(was[e], now[e], k)
    else KindsReplayable(e, before.relations[e], was[e], now[e], parsed)
  }

  /** Both views agree at one edge. */
  ghost predicate AgreeAt(a: Relations, b: Relations, e: Edge) {
    (e in a <==> e in b) && (e in a && e in b ==> SameWeights(a[e], b[e]))
  }

  lemma SameViewIs(a: Relations, b: Relations)
    ensures SameView(a, b) <==> forall e: Edge :: AgreeAt(a, b, e)
  {
    if forall e: Edge :: AgreeAt(a, b, e) {
      forall e: Edge ensures e in a <==> e in b {
        assert AgreeAt(a, b, e);
      }
      forall e | e in a ensures SameWeights(a[e], b[e]) {
        assert AgreeAt(a, b, e);
      }
    }
  }

  /** What the view shows of one edge. */
  function Shown(rel: Relations, bids: set<Bid>, e: Edge): WeightSet {
    ScopedWeights(e, WeightsAt(rel, e), bids)
  }

  /** The view at one edge, by the edge's weights alone. */
  lemma ViewAt(rel: Relations, bids: set<Bid>, e: Edge)
    ensures e in View(rel, bids) <==> Shown(rel, bids, e) != map[]
    ensures e in View(rel, bids) ==> View(rel, bids)[e] == Shown(rel, bids, e)
  {
  }

  /** Away from the removed nodes both scopes see the same weights. */
  lemma SameScope(e: Edge, ws: WeightSet, parsed: set<Bid>, removed: set<Bid>)
    requires !Gone(removed, e)
    ensures ScopedWeights(e, ws, parsed + removed) == ScopedWeights(e, ws, parsed)
  {
  }

  lemma ScopedTwice(e: Edge, ws: WeightSet, bids: set<Bid>)
    ensures ScopedWeights(e, ScopedWeights(e, ws, bids), bids) == ScopedWeights(e, ws, bids)
  {
  }

  /** A rewritten edge shows the new weights in scope exactly when its kinds are replayable. */
  lemma RewrittenShows(e: Edge, raw: WeightSet, now: WeightSet, out: WeightSet, parsed: set<Bid>)
    requires Rewritten(raw, ScopedWeights(e, raw, parsed), now, out)
    requires now != map[] && forall k | k in now :: InScope(e, k, now[k], parsed)
    ensures ScopedWeights(e, out, parsed) != map[] && SameWeights(ScopedWeights(e, out, parsed), now)
            <==> KindsReplayable(e, raw, ScopedWeights(e, raw, parsed), now, parsed)
  {
    var was, shown := ScopedWeights(e, raw, parsed), ScopedWeights(e, out, parsed);
    forall k
      ensures k in now ==>
                ((k in shown && shown[k].SameAs(now[k]))
                 <==> (k in raw && WeightChanged(was, now, k) ==> TakesOver(e, k, raw[k], now[k], parsed)))
      ensures k !in now ==> (k in shown <==> k in was)
    {
      KindShows(e, raw, now, out, parsed, k);
    }
    hide ScopedWeights, TakesOver, Rewritten, WeightChanged, InScope;
    var key :| key in now;
    if SameWeights(shown, now) {
      forall k | k in was ensures k in now {
        assert k in shown ==> k in now;
      }
    }
    if KindsReplayable(e, raw, was, now, parsed) {
      assert key in shown;
      assert shown.Keys == now.Keys;
    }
  }

  lemma KindShows(e: Edge, raw: WeightSet, now: WeightSet, out: WeightSet, parsed: set<Bid>, k: WeightKind)
    requires Rewritten(raw, ScopedWeights(e, raw, parsed), now, out)
    requires k in now ==> InScope(e, k, now[k], parsed)
    ensures var was, shown := ScopedWeights(e, raw, parsed), ScopedWeights(e, out, parsed);
            && (k in now ==>
                  ((k in shown && shown[k].SameAs(now[k]))
                   <==> (k in raw && WeightChanged(was, now, k) ==> TakesOver(e, k, raw[k], now[k], parsed))))
            && (k !in now ==> (k in shown <==> k in was))
  {
  }

  /** An edge that came back from nothing shows the new weights exactly when all of them were reported. */
  lemma RestoredShows(e: Edge, was: WeightSet, now: WeightSet, out: WeightSet, parsed: set<Bid>)
    requires Rewritten(map[], was, now, out)
    requires now != map[] && forall k | k in now :: InScope(e, k, now[k], parsed)
    ensures ScopedWeights(e, out, parsed) != map[] && SameWeights(ScopedWeights(e, out, parsed), now)
            <==> forall k | k in now :: WeightChanged(was, now, k)
  {
    assert ScopedWeights(e, out, parsed) == out;
    hide ScopedWeights, WeightChanged, InScope;
    var key :| key in now;
    if forall k | k in now :: WeightChanged(was, now, k) {
      assert key in out && out.Keys == now.Keys;
    }
  }

  /** Agreement at an edge of the new view is a matter of what is shown of it. */
  lemma AgreesWhenShown(out: Relations, parsed: set<Bid>, now: Relations, e: Edge)
    requires e in now
    ensures AgreeAt(View(out, parsed), now, e)
            <==> Shown(out, parsed, e) != map[] && SameWeights(Shown(out, parsed, e), now[e])
  {
    ViewAt(out, parsed, e);
    hide View, Shown;
  }

  /** An edge of both views. */
  lemma KeptAgreesIff(before: Graph, after: Graph, parsed: set<Bid>, d: Diff, e: Edge)
    requires IsDiff(before, after, parsed, d) && DiffKnown(after, parsed, d)
    requires e in View(before.relations, parsed + Removed(before, after, parsed)) && e in View(after.relations, parsed)
    ensures AgreeAt(View(Replayed(before, after, parsed, d), parsed), View(after.relations, parsed), e)
            <==> EdgeReplayable(before, after, parsed, e)
  {
    var removed := Removed(before, after, parsed);
    var out := Replayed(before, after, parsed, d);
    var was, now := View(before.relations, parsed + removed)[e], View(after.relations, parsed)[e];
    assert e in before.relations;
    ReplayedEdge(before, after, parsed, d, e);
    NowInScope(after.relations, parsed, e);
    ViewAt(before.relations, parsed + removed, e);
    hide View, Replayed, Removed, IsDiff, DiffKnown, Rewritten, KindsReplayable, AgreeAt, InScope, WeightChanged,
        ScopedWeights;
    AgreesWhenShown(out, parsed, View(after.relations, parsed), e);
    if Gone(removed, e) {
      RestoredShows(e, was, now, WeightsAt(out, e), parsed);
    } else {
      SameScope(e, WeightsAt(before.relations, e), parsed, removed);
      RewrittenShows(e, WeightsAt(before.relations, e), now, WeightsAt(out, e), parsed);
    }
  }

  /** An edge that only one view has, or neither. */
  lemma OtherAgreesIff(before: Graph, after: Graph, parsed: set<Bid>, d: Diff, e: Edge)
    requires IsDiff(before, after, parsed, d) && DiffKnown(after, parsed, d)
    requires e !in View(before.relations, parsed + Removed(before, after, parsed))
             || e !in View(after.relations, parsed)
    ensures AgreeAt(View(Replayed(before, after, parsed, d), parsed), View(after.relations, parsed), e)
            <==> EdgeReplayable(before, after, parsed, e)
  {
    var removed := Removed(before, after, parsed);
    var out := Replayed(before, after, parsed, d);
    ReplayedEdge(before, after, parsed, d, e);
    ViewAt(out, parsed, e);
    ViewAt(before.relations, parsed + removed, e);
    ViewAt(after.relations, parsed, e);
    hide View, Replayed, Removed, IsDiff, DiffKnown, Rewritten, KindsReplayable, SinkComplete;
    if e in View(after.relations, parsed) {
      ScopedTwice(e, WeightsAt(after.relations, e), parsed);
      hide ScopedWeights;
    } else if !Gone(removed, e) {
      SameScope(e, WeightsAt(before.relations, e), parsed, removed);
      hide ScopedWeights;
    } else {
      NothingShown(e, parsed);
      hide ScopedWeights;
    }
  }

  lemma NothingShown(e: Edge, parsed: set<Bid>)
    ensures ScopedWeights(e, map[], parsed) == map[]
  {
  }

  lemma NowInScope(rel: Relations, parsed: set<Bid>, e: Edge)
    requires e in View(rel, parsed)
    ensures View(rel, parsed)[e] != map[]
    ensures forall k | k in View(rel, parsed)[e] :: InScope(e, k, View(rel, parsed)[e][k], parsed)
  {
    AllInScope(e, rel[e], parsed);
  }

  /** One edge: the replayed view agrees with the new one exactly when the edge is replayable. */
  lemma EdgeAgreesIff(before: Graph, after: Graph, parsed: set<Bid>, d: Diff, e: Edge)
    requires IsDiff(before, after, parsed, d) && DiffKnown(after, parsed, d)
    ensures AgreeAt(View(Replayed(before, after, parsed, d), parsed), View(after.relations, parsed), e)
            <==> EdgeReplayable(before, after, parsed, e)
  {
    hide View, Replayed, IsDiff, DiffKnown, AgreeAt, EdgeReplayable, Removed;
    if e in View(before.relations, parsed + Removed(before, after, parsed)) && e in View(after.relations, parsed) {
      KeptAgreesIff(before, after, parsed, d, e);
    } else {
      OtherAgreesIff(before, after, parsed, d, e);
    }
  }

  lemma AllInScope(e: Edge, ws: WeightSet, bids: set<Bid>)
    ensures forall k | k in ScopedWeights(e, ws, bids) :: InScope(e, k, ScopedWeights(e, ws, bids)[k], bids)
  {
  }

  /**
   Round trip: replaying the diff turns the old base's view of the parsed nodes into the new one's if
   and only if every edge is replayable.
   */
  lemma ReplayAgreesIff(before: Graph, after: Graph, parsed: set<Bid>, d: Diff)
    requires IsDiff(before, after, parsed, d) && DiffKnown(after, parsed, d)
    ensures SameView(View(Replayed(before, after, parsed, d), parsed), View(after.relations, parsed))
            <==> forall e: Edge :: EdgeReplayable(before, after, parsed, e)
  {
    hide View, Replayed, EdgeReplayable, AgreeAt, SameView, IsDiff, DiffKnown;
    SameViewIs(View(Replayed(before, after, parsed, d), parsed), View(after.relations, parsed));
    forall e: Edge
      ensures AgreeAt(View(Replayed(before, after, parsed, d), parsed), View(after.relations, parsed), e)
              <==> EdgeReplayable(before, after, parsed, e)
    {
      EdgeAgreesIff(before, after, parsed, d, e);
    }
  }

  // ------------------------------------------------------------------ the second diff

  /** A Section link from an unparsed unknown node that replaying left was there before, away from removed nodes. */
  lemma LinkWasLost(before: Graph, after: Graph, parsed: set<Bid>, d: Diff, l: Edge)
    requires IsDiff(before, after, parsed, d) && DiffKnown(after, parsed, d)
    requires l in LostLinks(Replayed(before, after, parsed, d), after.states.Keys) && l.1 !in parsed
    ensures l in LostLinks(before.relations, after.states.Keys) && l.1 !in Removed(before, after, parsed)
  {
    var e := (l.1, l.0);
    LostLink(Replayed(before, after, parsed, d), after.states.Keys, l);
    ReplayedEdge(before, after, parsed, d, e);
    LostLink(before.relations, after.states.Keys, l);
    var now := View(after.relations, parsed);
    if e in now {
      NowInScope(after.relations, parsed, e);
      assert Section !in now[e];
    }
    hide View, Replayed, Removed, IsDiff, DiffKnown, LostLinks, SinkComplete;
  }

  lemma LinkIsParsed(before: Graph, after: Graph, parsed: set<Bid>, d: Diff, l: Edge)
    requires IsDiff(before, after, parsed, d) && DiffKnown(after, parsed, d)
    requires l in LostLinks(Replayed(before, after, parsed, d), after.states.Keys)
    requires Reaches(LostLinks(before.relations, after.states.Keys), parsed - after.states.Keys, l.0)
    ensures l.1 in parsed
  {
    hide LostLinks, Reaches, Replayed, IsDiff, DiffKnown;
    if l.1 !in parsed {
      LinkWasLost(before, after, parsed, d, l);
      StepReached(LostLinks(before.relations, after.states.Keys), parsed - after.states.Keys, l.0, l.1);
    }
  }

  /** After replaying, no unparsed node is left to remove. */
  lemma NothingLeftToRemove(before: Graph, after: Graph, parsed: set<Bid>, d: Diff, states: States)
    requires IsDiff(before, after, parsed, d) && DiffKnown(after, parsed, d)
    ensures Removed(Graph(states, Replayed(before, after, parsed, d)), after, parsed) == {}
  {
    var known := after.states.Keys;
    var seeds := parsed - known;
    var was, now := LostLinks(before.relations, known), LostLinks(Replayed(before, after, parsed, d), known);
    var stay := set n | n in parsed && Reaches(was, seeds, n);
    forall n | n in seeds ensures n in stay {
      SeedReached(was, seeds, n);
    }
    forall l | l in now && l.0 in stay ensures l.1 in stay {
      LostLink(Replayed(before, after, parsed, d), known, l);
      LinkIsParsed(before, after, parsed, d, l);
    }
    hide Reaches, LostLinks, Replayed, IsDiff, DiffKnown;
    forall n ensures !IsRemoved(Graph(states, Replayed(before, after, parsed, d)), after, parsed, n) {
      if Reaches(now, seeds, n) {
        ClosedHoldsReached(now, seeds, stay, n);
      }
    }
  }

  /** A diff between agreeing views, with nothing to remove, reports no relation. */
  lemma AgreeingViewsAreQuiet(before: Graph, after: Graph, parsed: set<Bid>, d: Diff)
    requires IsDiff(before, after, parsed, d) && Removed(before, after, parsed) == {}
    requires SameView(View(before.relations, parsed), View(after.relations, parsed))
    ensures d.removed == [] && d.dropped == [] && d.added == [] && d.changed == []
  {
    var was, now := View(before.relations, parsed), View(after.relations, parsed);
    assert parsed + {} == parsed;
    hide View, Removed, SinkComplete;
    forall c: Change ensures c !in d.changed {
      NoChange(was, now, c);
    }
    Member(d.removed);
    Member(d.dropped);
    Member(d.added);
    Member(d.changed);
  }

  lemma NoChange(was: Relations, now: Relations, c: Change)
    requires SameView(was, now)
    ensures !IsChange(was, now, c)
  {
  }

  lemma Member<T>(s: seq<T>)
    ensures s == [] || exists x :: x in s
  {
    if s != [] {
      assert s[0] in s;
    }
  }

  /** Diffing again after a replay that agrees reports nothing about relations or removed nodes. */
  lemma SecondDiffIsQuiet(before: Graph, after: Graph, parsed: set<Bid>, d: Diff, states: States, again: Diff)
    requires IsDiff(before, after, parsed, d) && DiffKnown(after, parsed, d)
    requires forall e: Edge :: EdgeReplayable(before, after, parsed, e)
    requires IsDiff(Graph(states, Replayed(before, after, parsed, d)), after, parsed, again)
    ensures again.removed == [] && again.dropped == [] && again.added == [] && again.changed == []
  {
    ReplayAgreesIff(before, after, parsed, d);
    NothingLeftToRemove(before, after, parsed, d, states);
    hide Replayed, EdgeReplayable, SameView, IsDiff, DiffKnown, View, Removed;
    AgreeingViewsAreQuiet(Graph(states, Replayed(before, after, parsed, d)), after, parsed, again);
  }

  // ------------------------------------------------------------------ a diff that does not replay

  /** An edge that loses one kind and keeps another: the diff reports nothing about it. */
  lemma LostKindStays()
    ensures var w := Weight(Some(0), None, {}, map[]);
            var nodes := map[1 := BeliefNode(1, {}, "", None, None), 2 := BeliefNode(2, {}, "", None, None)];
            var before := Graph(nodes, map[(1, 2) := map[Epistemic := w, Pragmatic := w]]);
            var after := Graph(nodes, map[(1, 2) := map[Epistemic := w]]);
            && !EdgeReplayable(before, after, {1, 2}, (1, 2))
            && forall d | IsDiff(before, after, {1, 2}, d) && DiffKnown(after, {1, 2}, d) ::
                 !SameView(View(Replayed(before, after, {1, 2}, d), {1, 2}), View(after.relations, {1, 2}))
  {
    var w := Weight(Some(0), None, {}, map[]);
    var nodes := map[1 := BeliefNode(1, {}, "", None, None), 2 := BeliefNode(2, {}, "", None, None)];
    var e: Edge := (1, 2);
    var before := Graph(nodes, map[e := map[Epistemic := w, Pragmatic := w]]);
    var after := Graph(nodes, map[e := map[Epistemic := w]]);
    NothingRemoved(before, after, {1, 2});
    assert {1, 2} + {} == {1, 2};
    ViewAt(before.relations, {1, 2}, e);
    ViewAt(after.relations, {1, 2}, e);
    hide View, Removed;
    assert Pragmatic in Shown(before.relations, {1, 2}, e) && Pragmatic !in Shown(after.relations, {1, 2}, e);
    assert Epistemic in Shown(after.relations, {1, 2}, e);
    assert !EdgeReplayable(before, after, {1, 2}, e);
    hide EdgeReplayable, Replayed, SameView, IsDiff, DiffKnown;
    forall d | IsDiff(before, after, {1, 2}, d) && DiffKnown(after, {1, 2}, d)
      ensures !SameView(View(Replayed(before, after, {1, 2}, d), {1, 2}), View(after.relations, {1, 2}))
    {
      ReplayAgreesIff(before, after, {1, 2}, d);
    }
  }
}
