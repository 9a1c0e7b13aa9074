/**
 Deleting many edges from the graph library's edge array, where removing an edge moves the last
 one into its place. `trim` (src/beliefbase/base.rs) removes the marked positions from the highest
 down; `retain` (src/beliefbase/graph.rs) from the lowest up.
 */
module EdgeArenas {
  import opened Properties
  import opened BeliefStore
  import opened Replica

  datatype Arc = Arc(source: Bid, sink: Bid, weights: WeightSet)

  /** Both endpoints are retained. */
  predicate Inside(retained: set<Bid>, a: Arc) {
    a.source in retained && a.sink in retained
  }

  /** The edges to keep, in order. */
  function Survivors(arcs: seq<Arc>, keep: Arc -> bool): seq<Arc> {
    if arcs == [] then []
    else
      var last := arcs[|arcs| - 1];
      Survivors(arcs[..|arcs| - 1], keep) + (if keep(last) then [last] else [])
  }

  /** The other edges' positions, ascending. */
  ghost predicate Marks(arcs: seq<Arc>, keep: Arc -> bool, n: nat, marked: seq<nat>)
    requires n <= |arcs|
  {
    && (forall i, j | 0 <= i < j < |marked| :: marked[i] < marked[j])
    && forall p: nat :: p in marked <==> p < n && !keep(arcs[p])
  }

  /** The library's removal: the last edge moves into the hole, a position past the end does nothing. */
  function SwapRemove(arcs: seq<Arc>, i: nat): seq<Arc> {
    if i < |arcs| then arcs[i := arcs[|arcs| - 1]][..|arcs| - 1] else arcs
  }

  lemma SwapRemoveMultiset(arcs: seq<Arc>, i: nat)
    requires i < |arcs|
    ensures multiset(SwapRemove(arcs, i)) + multiset{arcs[i]} == multiset(arcs)
  {
    var last := |arcs| - 1;
    assert arcs == arcs[..last] + [arcs[last]];
    if i < last {
      assert arcs[i := arcs[last]][..last] == arcs[..last][i := arcs[last]];
    } else {
      assert SwapRemove(arcs, i) == arcs[..last];
    }
  }

  /** The edges at the listed positions. */
  function At(arcs: seq<Arc>, positions: seq<nat>): multiset<Arc>
    requires forall i | 0 <= i < |positions| :: positions[i] < |arcs|
  {
    if positions == [] then multiset{}
    else multiset{arcs[positions[|positions| - 1]]} + At(arcs, positions[..|positions| - 1])
  }

  lemma {:induction false} AtFirst(arcs: seq<Arc>, positions: seq<nat>)
    requires positions != [] && forall i | 0 <= i < |positions| :: positions[i] < |arcs|
    ensures At(arcs, positions) == multiset{arcs[positions[0]]} + At(arcs, positions[1..])
  {
    var n := |positions|;
    if n <= 1 {
    } else {
      AtFirst(arcs, positions[..n - 1]);
      assert positions[..n - 1][1..] == positions[1..][..n - 2];
    }
  }

  lemma {:induction false} AtPrefix(arcs: seq<Arc>, n: nat, positions: seq<nat>)
    requires n <= |arcs| && forall i | 0 <= i < |positions| :: positions[i] < n
    ensures At(arcs[..n], positions) == At(arcs, positions)
  {
    if positions == [] {
    } else {
      AtPrefix(arcs, n, positions[..|positions| - 1]);
    }
  }

  lemma Cancel(a: multiset<Arc>, b: multiset<Arc>, x: multiset<Arc>)
    requires a + x == b + x
    ensures a == b
  {
    forall e ensures a[e] == b[e] {
      assert (a + x)[e] == a[e] + x[e];
      assert (b + x)[e] == b[e] + x[e];
    }
  }

  /** One more element on either side of a split of `whole`. */
  lemma Extend(s: multiset<Arc>, m: multiset<Arc>, whole: multiset<Arc>, last: Arc,
    s': multiset<Arc>, m': multiset<Arc>, whole': multiset<Arc>)
    requires s + m == whole && whole' == whole + multiset{last}
    requires (s' == s + multiset{last} && m' == m) || (s' == s && m' == multiset{last} + m)
    ensures s' + m' == whole'
  {
  }

  /** Marked and surviving edges together are all the edges. */
  lemma {:induction false} MarkedAndSurvivors(arcs: seq<Arc>, keep: Arc -> bool, marked: seq<nat>)
    requires Marks(arcs, keep, |arcs|, marked)
    ensures forall i | 0 <= i < |marked| :: marked[i] < |arcs|
    ensures multiset(Survivors(arcs, keep)) + At(arcs, marked) == multiset(arcs)
    decreases |arcs|
  {
    MarksInRange(arcs, keep, marked);
    if arcs == [] {
      assert marked == [];
      return;
    }
    var n := |arcs| - 1;
    var last, rest, ms := arcs[n], arcs[..n], if keep(arcs[n]) then marked else marked[..|marked| - 1];
    if keep(last) {
      SurvivorStep(arcs, keep, marked);
    } else {
      LastMark(arcs, keep, marked);
      MarkedStep(arcs, marked);
    }
    SurvivorsLast(arcs, keep);
    LastMultiset(arcs);
    hide Marks, At, Survivors;
    MarkedAndSurvivors(rest, keep, ms);
    Extend(multiset(Survivors(rest, keep)), At(rest, ms), multiset(rest), last,
      multiset(Survivors(arcs, keep)), At(arcs, marked), multiset(arcs));
  }

  lemma MarksInRange(arcs: seq<Arc>, keep: Arc -> bool, marked: seq<nat>)
    requires Marks(arcs, keep, |arcs|, marked)
    ensures forall i | 0 <= i < |marked| :: marked[i] < |arcs|
  {
    assert forall i | 0 <= i < |marked| :: marked[i] in marked;
  }

  lemma LastMultiset(arcs: seq<Arc>)
    requires arcs != []
    ensures multiset(arcs) == multiset(arcs[..|arcs| - 1]) + multiset{arcs[|arcs| - 1]}
  {
    assert arcs == arcs[..|arcs| - 1] + [arcs[|arcs| - 1]];
  }

  /** When the last edge stays, the marks are those of the edges before it. */
  lemma SurvivorMarks(arcs: seq<Arc>, keep: Arc -> bool, marked: seq<nat>)
    requires arcs != [] && keep(arcs[|arcs| - 1]) && Marks(arcs, keep, |arcs|, marked)
    ensures forall i | 0 <= i < |marked| :: marked[i] < |arcs| - 1
    ensures Marks(arcs[..|arcs| - 1], keep, |arcs| - 1, marked)
  {
    var n := |arcs| - 1;
    forall i | 0 <= i < |marked| ensures marked[i] < n {
      assert marked[i] in marked;
    }
  }

  lemma SurvivorStep(arcs: seq<Arc>, keep: Arc -> bool, marked: seq<nat>)
    requires arcs != [] && keep(arcs[|arcs| - 1])
    requires forall i | 0 <= i < |marked| :: marked[i] < |arcs|
    requires Marks(arcs, keep, |arcs|, marked)
    ensures forall i | 0 <= i < |marked| :: marked[i] < |arcs| - 1
    ensures Marks(arcs[..|arcs| - 1], keep, |arcs| - 1, marked)
    ensures At(arcs, marked) == At(arcs[..|arcs| - 1], marked)
  {
    SurvivorMarks(arcs, keep, marked);
    hide Marks, At;
    AtPrefix(arcs, |arcs| - 1, marked);
  }

  lemma MarkedStep(arcs: seq<Arc>, marked: seq<nat>)
    requires arcs != []
    requires marked != [] && marked[|marked| - 1] == |arcs| - 1
    requires forall i | 0 <= i < |marked| - 1 :: marked[i] < |arcs| - 1
    ensures At(arcs, marked) == multiset{arcs[|arcs| - 1]} + At(arcs[..|arcs| - 1], marked[..|marked| - 1])
  {
    AtPrefix(arcs, |arcs| - 1, marked[..|marked| - 1]);
  }

  lemma SurvivorsLast(arcs: seq<Arc>, keep: Arc -> bool)
    requires arcs != []
    ensures multiset(Survivors(arcs, keep))
         == if keep(arcs[|arcs| - 1]) then multiset(Survivors(arcs[..|arcs| - 1], keep)) + multiset{arcs[|arcs| - 1]}
            else multiset(Survivors(arcs[..|arcs| - 1], keep))
  {
  }

  lemma LastMark(arcs: seq<Arc>, keep: Arc -> bool, marked: seq<nat>)
    requires arcs != [] && !keep(arcs[|arcs| - 1]) && Marks(arcs, keep, |arcs|, marked)
    ensures marked != [] && marked[|marked| - 1] == |arcs| - 1
    ensures forall i | 0 <= i < |marked| - 1 :: marked[i] < |arcs| - 1
    ensures Marks(arcs[..|arcs| - 1], keep, |arcs| - 1, marked[..|marked| - 1])
  {
    var n := |arcs| - 1;
    assert n in marked;
    assert marked[|marked| - 1] in marked;
    var i :| 0 <= i < |marked| && marked[i] == n;
    assert i == |marked| - 1;
    var rest := marked[..|marked| - 1];
    forall p: nat ensures p in rest <==> p < n && !keep(arcs[p]) {
      if p in marked && p != n {
        var j :| 0 <= j < |marked| && marked[j] == p;
        assert rest[j] == p;
      }
    }
  }

  /** The removals one after another: from the highest mark down to mark `k`. */
  function Descending(arcs: seq<Arc>, marked: seq<nat>, k: nat): seq<Arc>
    requires k <= |marked|
    decreases |marked| - k
  {
    if k == |marked| then arcs else SwapRemove(Descending(arcs, marked, k + 1), marked[k])
  }

  /** From the lowest mark up, the first `k`. */
  function Ascending(arcs: seq<Arc>, marked: seq<nat>, k: nat): seq<Arc>
    requires k <= |marked|
  {
    if k == 0 then arcs else SwapRemove(Ascending(arcs, marked, k - 1), marked[k - 1])
  }

  ghost predicate Increasing(arcs: seq<Arc>, marked: seq<nat>) {
    && (forall i, j | 0 <= i < j < |marked| :: marked[i] < marked[j])
    && forall i | 0 <= i < |marked| :: marked[i] < |arcs|
  }

  /** Below the lowest mark removed so far nothing has moved. */
  lemma {:induction false} DescendingKeepsLow(arcs: seq<Arc>, marked: seq<nat>, k: nat)
    requires Increasing(arcs, marked) && k <= |marked|
    ensures var now, low := Descending(arcs, marked, k), if k == |marked| then |arcs| else marked[k];
            && |now| == |arcs| - (|marked| - k)
            && low <= |now| && now[..low] == arcs[..low]
    decreases |marked| - k
  {
    if k == |marked| {
    } else {
      DescendingKeepsLow(arcs, marked, k + 1);
    }
  }

  /** Hence each removal hits its own edge. */
  lemma HoleIsOwn(arcs: seq<Arc>, marked: seq<nat>, k: nat)
    requires Increasing(arcs, marked) && k < |marked|
    ensures var before := Descending(arcs, marked, k + 1);
            marked[k] < |before| && before[marked[k]] == arcs[marked[k]]
  {
    DescendingKeepsLow(arcs, marked, k + 1);
    hide Descending;
    var before := Descending(arcs, marked, k + 1);
    var low := if k + 1 == |marked| then |arcs| else marked[k + 1];
    assert before[marked[k]] == before[..low][marked[k]];
  }

  lemma {:induction false} DescendingRemovesMarked(arcs: seq<Arc>, marked: seq<nat>, k: nat)
    requires Increasing(arcs, marked) && k <= |marked|
    ensures multiset(Descending(arcs, marked, k)) + At(arcs, marked[k..]) == multiset(arcs)
    decreases |marked| - k
  {
    if k == |marked| {
    } else {
      DescendingRemovesMarked(arcs, marked, k + 1);
      HoleIsOwn(arcs, marked, k);
      AtFrom(arcs, marked, k);
      hide At, SwapRemove, Increasing;
      var before := Descending(arcs, marked, k + 1);
      SwapRemoveMultiset(before, marked[k]);
      Recount(multiset(SwapRemove(before, marked[k])), multiset(before), At(arcs, marked[k + 1..]), arcs[marked[k]]);
    }
  }

  lemma AtFrom(arcs: seq<Arc>, marked: seq<nat>, k: nat)
    requires Increasing(arcs, marked) && k < |marked|
    ensures At(arcs, marked[k..]) == multiset{arcs[marked[k]]} + At(arcs, marked[k + 1..])
  {
    AtFirst(arcs, marked[k..]);
    assert marked[k..][1..] == marked[k + 1..];
  }

  lemma Recount(now: multiset<Arc>, before: multiset<Arc>, removed: multiset<Arc>, a: Arc)
    requires now + multiset{a} == before
    ensures now + (multiset{a} + removed) == before + removed
  {
  }

  lemma MarksIncrease(arcs: seq<Arc>, keep: Arc -> bool, marked: seq<nat>)
    requires Marks(arcs, keep, |arcs|, marked)
    ensures Increasing(arcs, marked)
  {
    MarksInRange(arcs, keep, marked);
  }

  /** Removing from the top down leaves the surviving edges and no other, whatever moved. */
  lemma TrimIsExact(arcs: seq<Arc>, keep: Arc -> bool, marked: seq<nat>)
    requires Marks(arcs, keep, |arcs|, marked)
    ensures multiset(Descending(arcs, marked, 0)) == multiset(Survivors(arcs, keep))
  {
    MarksIncrease(arcs, keep, marked);
    hide Marks, At, Survivors, Descending;
    MarkedAndSurvivors(arcs, keep, marked);
    DescendingRemovesMarked(arcs, marked, 0);
    assert marked[0..] == marked;
    Cancel(multiset(Descending(arcs, marked, 0)), multiset(Survivors(arcs, keep)), At(arcs, marked));
  }

  // ------------------------------------------------------------------ from the lowest up

  /** The `k`-th removal (counting from zero) still finds its position inside the shrunken array. */
  ghost predicate Reachable(arcs: seq<Arc>, marked: seq<nat>) {
    marked == [] || marked[|marked| - 1] + |marked| <= |arcs|
  }

  /** While every position is in range, what lies above the highest mark removed so far has not been overwritten. */
  lemma {:induction false} AscendingKeepsHigh(arcs: seq<Arc>, marked: seq<nat>, k: nat)
    requires Increasing(arcs, marked) && k <= |marked| && Reachable(arcs, marked)
    ensures var now := Ascending(arcs, marked, k);
            && |now| == |arcs| - k
            && forall p | 0 <= p < |now| && (k == 0 || marked[k - 1] < p) :: now[p] == arcs[p]
  {
    if k == 0 {
    } else {
      AscendingKeepsHigh(arcs, marked, k - 1);
      MarkStaysLow(arcs, marked, k - 1);
      AscendingNext(arcs, marked, k);
      hide Ascending;
      assert k > 1 ==> marked[k - 2] < marked[k - 1];
    }
  }

  lemma AscendingNext(arcs: seq<Arc>, marked: seq<nat>, k: nat)
    requires 0 < k <= |marked|
    ensures Ascending(arcs, marked, k) == SwapRemove(Ascending(arcs, marked, k - 1), marked[k - 1])
  {
  }

  lemma MarkIsOwn(arcs: seq<Arc>, marked: seq<nat>, k: nat)
    requires Increasing(arcs, marked) && k < |marked| && Reachable(arcs, marked)
    ensures var before := Ascending(arcs, marked, k);
            marked[k] < |before| && before[marked[k]] == arcs[marked[k]]
  {
    AscendingKeepsHigh(arcs, marked, k);
    MarkStaysLow(arcs, marked, k);
    hide Ascending;
    assert k > 0 ==> marked[k - 1] < marked[k];
  }

  /** Hence each removal hits its own edge. */
  lemma {:induction false} AscendingInRange(arcs: seq<Arc>, marked: seq<nat>, k: nat)
    requires Increasing(arcs, marked) && k <= |marked| && Reachable(arcs, marked)
    ensures multiset(Ascending(arcs, marked, k)) + At(arcs, marked[..k]) == multiset(arcs)
  {
    if k == 0 {
    } else {
      AscendingInRange(arcs, marked, k - 1);
      MarkIsOwn(arcs, marked, k - 1);
      AscendingNext(arcs, marked, k);
      AtUpTo(arcs, marked, k);
      hide Ascending, At, SwapRemove, Increasing;
      var before, hole := Ascending(arcs, marked, k - 1), marked[k - 1];
      SwapRemoveMultiset(before, hole);
      Recount(multiset(SwapRemove(before, hole)), multiset(before), At(arcs, marked[..k - 1]), arcs[hole]);
    }
  }

  lemma AtUpTo(arcs: seq<Arc>, marked: seq<nat>, k: nat)
    requires Increasing(arcs, marked) && 0 < k <= |marked|
    ensures At(arcs, marked[..k]) == multiset{arcs[marked[k - 1]]} + At(arcs, marked[..k - 1])
  {
    assert marked[..k][..k - 1] == marked[..k - 1];
  }

  lemma {:induction false} MarkStaysLow(arcs: seq<Arc>, marked: seq<nat>, k: nat)
    requires Increasing(arcs, marked) && k < |marked| && Reachable(arcs, marked)
    ensures marked[k] + |marked| <= |arcs| - (|marked| - 1 - k)
    decreases |marked| - k
  {
    if k + 1 == |marked| {
    } else {
      MarkStaysLow(arcs, marked, k + 1);
    }
  }

  lemma {:induction false} AscendingLength(arcs: seq<Arc>, marked: seq<nat>, k: nat)
    requires k <= |marked|
    ensures |arcs| - k <= |Ascending(arcs, marked, k)| <= |arcs|
  {
    if k == 0 {
    } else {
      AscendingLength(arcs, marked, k - 1);
    }
  }

  /** If the last position is out of range by then, some removal does nothing. */
  lemma {:induction false} AscendingMisses(arcs: seq<Arc>, marked: seq<nat>)
    requires Increasing(arcs, marked) && !Reachable(arcs, marked)
    ensures |Ascending(arcs, marked, |marked|)| > |arcs| - |marked|
  {
    AscendingLength(arcs, marked, |marked| - 1);
  }

  /** `retain` deletes exactly the rejected edges if and only if none of the last |rejected| - 1 edges is rejected. */
  lemma RetainIsExactIff(arcs: seq<Arc>, keep: Arc -> bool, marked: seq<nat>)
    requires Marks(arcs, keep, |arcs|, marked)
    ensures multiset(Ascending(arcs, marked, |marked|)) == multiset(Survivors(arcs, keep)) <==> Reachable(arcs, marked)
  {
    MarksIncrease(arcs, keep, marked);
    hide Marks, At, Survivors, Ascending;
    MarkedAndSurvivors(arcs, keep, marked);
    var kept, now := Survivors(arcs, keep), Ascending(arcs, marked, |marked|);
    if Reachable(arcs, marked) {
      AscendingInRange(arcs, marked, |marked|);
      assert marked[..|marked|] == marked;
      Cancel(multiset(now), multiset(kept), At(arcs, marked));
    } else {
      AscendingMisses(arcs, marked);
      AtSize(arcs, marked);
      assert |multiset(kept)| + |At(arcs, marked)| == |multiset(arcs)|;
    }
  }

  /** Two rejected edges: the first removal moves the second edge to position 0, and position 1 is gone. */
  lemma RetainMisses(x: Arc, y: Arc, keep: Arc -> bool)
    requires !keep(x) && !keep(y)
    ensures Marks([x, y], keep, 2, [0, 1]) && !Reachable([x, y], [0, 1])
    ensures Ascending([x, y], [0, 1], 2) == [y] && Survivors([x, y], keep) == []
  {
    assert [x, y][..1] == [x] && [x][..0] == [];
    assert Survivors([x], keep) == [];
    assert Ascending([x, y], [0, 1], 1) == [y];
  }

  lemma {:induction false} AtSize(arcs: seq<Arc>, positions: seq<nat>)
    requires forall i | 0 <= i < |positions| :: positions[i] < |arcs|
    ensures |At(arcs, positions)| == |positions|
  {
    if positions == [] {
    } else {
      AtSize(arcs, positions[..|positions| - 1]);
    }
  }

  lemma {:induction false} SurvivorMembers(arcs: seq<Arc>, keep: Arc -> bool, a: Arc)
    ensures a in Survivors(arcs, keep) <==> a in arcs && keep(a)
  {
    if arcs == [] {
    } else {
      assert arcs == arcs[..|arcs| - 1] + [arcs[|arcs| - 1]];
      SurvivorMembers(arcs[..|arcs| - 1], keep, a);
    }
  }

  lemma SurvivorsAreMembers(arcs: seq<Arc>, keep: Arc -> bool, after: seq<Arc>)
    requires multiset(after) == multiset(Survivors(arcs, keep))
    ensures forall a :: a in after <==> a in arcs && keep(a)
  {
    forall a ensures a in after <==> a in arcs && keep(a) {
      SurvivorMembers(arcs, keep, a);
      assert a in after <==> a in multiset(after);
      assert a in Survivors(arcs, keep) <==> a in multiset(Survivors(arcs, keep));
    }
  }

  // ------------------------------------------------------------------ what a replica misses

  /** The removals noted while trimming, down to mark `k`. */
  function Removals(arcs: seq<Arc>, marked: seq<nat>, k: nat): seq<BeliefEvent>
    requires k <= |marked| && forall i | 0 <= i < |marked| :: marked[i] < |arcs|
    decreases |marked| - k
  {
    if k == |marked| then []
    else Removals(arcs, marked, k + 1) + [RelationRemoved(arcs[marked[k]].source, arcs[marked[k]].sink, Local)]
  }

  /** The events are removals, of exactly the edges with an endpoint outside the retained set. */
  ghost predicate NamesRemoved(arcs: seq<Arc>, retained: set<Bid>, events: seq<BeliefEvent>) {
    && (forall ev | ev in events ::
          exists a :: a in arcs && !Inside(retained, a) && ev == RelationRemoved(a.source, a.sink, Local))
    && forall a | a in arcs && !Inside(retained, a) :: RelationRemoved(a.source, a.sink, Local) in events
  }

  lemma {:induction false} RemovalsList(arcs: seq<Arc>, marked: seq<nat>, k: nat, ev: BeliefEvent)
    requires k <= |marked| && forall i | 0 <= i < |marked| :: marked[i] < |arcs|
    ensures ev in Removals(arcs, marked, k) <==>
            exists i :: k <= i < |marked| && ev == RelationRemoved(arcs[marked[i]].source, arcs[marked[i]].sink, Local)
    decreases |marked| - k
  {
    if k == |marked| {
    } else {
      RemovalsList(arcs, marked, k + 1, ev);
    }
  }

  lemma RemovalsName(arcs: seq<Arc>, retained: set<Bid>, keep: Arc -> bool, marked: seq<nat>)
    requires Marks(arcs, keep, |arcs|, marked) && forall a :: keep(a) == Inside(retained, a)
    requires forall i | 0 <= i < |marked| :: marked[i] < |arcs|
    ensures NamesRemoved(arcs, retained, Removals(arcs, marked, 0))
  {
    var events := Removals(arcs, marked, 0);
    forall ev | ev in events
      ensures exists a :: a in arcs && !Inside(retained, a) && ev == RelationRemoved(a.source, a.sink, Local)
    {
      RemovalsList(arcs, marked, 0, ev);
      var i :| 0 <= i < |marked| && ev == RelationRemoved(arcs[marked[i]].source, arcs[marked[i]].sink, Local);
      assert marked[i] in marked;
      assert arcs[marked[i]] in arcs;
    }
    forall a | a in arcs && !Inside(retained, a)
      ensures RelationRemoved(a.source, a.sink, Local) in events
    {
      var p: nat :| p < |arcs| && arcs[p] == a;
      assert p in marked;
      RemovalsList(arcs, marked, 0, RelationRemoved(a.source, a.sink, Local));
    }
  }

  /** The array holds the store's edges and no other. */
  ghost predicate Holds(arcs: seq<Arc>, rel: Relations) {
    && (forall e | e in rel :: Arc(e.0, e.1, rel[e]) in arcs)
    && forall a | a in arcs :: (a.source, a.sink) in rel && rel[(a.source, a.sink)] == a.weights
  }

  /** After a trim the array holds the store's edges between retained ids. */
  lemma TrimHolds(arcs: seq<Arc>, rel: Relations, retained: set<Bid>, after: seq<Arc>)
    requires Holds(arcs, rel) && forall a :: a in after <==> a in arcs && Inside(retained, a)
    ensures Holds(after, Live(rel, retained))
  {
  }

  /** A table that agreed before a trim still agrees exactly when the trim had nothing to delete. */
  lemma TrimmedReplicaIff(table: Relations, st: Store, retained: set<Bid>)
    requires Agrees(table, st)
    ensures Agrees(table, st.(rel := Live(st.rel, retained)))
            <==> forall e | e in st.rel :: e.0 in retained && e.1 in retained
  {
    var kept := Live(st.rel, retained);
    if forall e | e in st.rel :: e.0 in retained && e.1 in retained {
      assert kept == st.rel;
    } else {
      var e :| e in st.rel && !(e.0 in retained && e.1 in retained);
      assert e !in kept;
    }
  }

  /** One edge with an endpoint outside the retained set: trimmed from the store, still in the table. */
  lemma TrimmedRowStays(a: BeliefNode, b: BeliefNode, ws: WeightSet, retained: set<Bid>)
    requires a.bid !in retained || b.bid !in retained
    ensures var rel := map[(a.bid, b.bid) := ws];
            var st := Store(map[a.bid := a, b.bid := b], {a.bid, b.bid}, rel);
            && st.OrphanFree() && Holds([Arc(a.bid, b.bid, ws)], rel)
            && Agrees(rel, st) && !Agrees(rel, st.(rel := Live(rel, retained)))
  {
    var rel: Relations := map[(a.bid, b.bid) := ws];
    var st := Store(map[a.bid := a, b.bid := b], {a.bid, b.bid}, rel);
    assert Live(rel, st.nodes) == rel;
    TrimmedReplicaIff(rel, st, retained);
    assert (a.bid, b.bid) in st.rel;
  }

  /** Had the noted removals been sent, the table would agree with the trimmed store. */
  lemma SentRemovalsAgree(table: Relations, st: Store, arcs: seq<Arc>, retained: set<Bid>, events: seq<BeliefEvent>)
    requires Agrees(table, st) && Holds(arcs, st.rel) && NamesRemoved(arcs, retained, events)
    ensures Agrees(AddEvents(table, events), st.(rel := Live(st.rel, retained)))
  {
    var after, kept := AddEvents(table, events), Live(st.rel, retained);
    assert AllRemovals(events) by {
      hide Holds;
    }
    forall e: Edge | e in Live(table, st.nodes)
      ensures RelationRemoved(e.0, e.1, Local) in events <==> e !in kept
    {
      assert e in st.rel && Arc(e.0, e.1, st.rel[e]) in arcs;
    }
    forall e: Edge
      ensures e in Live(after, st.nodes) <==> e in kept
      ensures e in kept ==> after[e] == kept[e]
    {
      RemovalsApplied(table, events, e);
      assert e in kept ==> e in Live(table, st.nodes);
    }
  }

  ghost predicate AllRemovals(events: seq<BeliefEvent>) {
    forall ev | ev in events :: ev.RelationRemoved? && ev.origin == Local
  }

  /** Removals delete exactly the rows they name. */
  lemma {:induction false} RemovalsApplied(table: Relations, events: seq<BeliefEvent>, e: Edge)
    requires AllRemovals(events)
    ensures var after := AddEvents(table, events);
            && (e in after <==> e in table && RelationRemoved(e.0, e.1, Local) !in events)
            && (e in after ==> after[e] == table[e])
    decreases |events|
  {
    if events == [] {
    } else {
      assert events == [events[0]] + events[1..];
      RemovalsApplied(AddEvent(table, events[0]), events[1..], e);
    }
  }

  // ------------------------------------------------------------------ the two loops

  class EdgeArena {
    var arcs: seq<Arc>

    constructor (arcs: seq<Arc>)
      ensures this.arcs == arcs
    {
      this.arcs := arcs;
    }

    method RemoveEdge(i: nat)
      modifies this
      ensures arcs == SwapRemove(old(arcs), i)
    {
      if i < |arcs| {
        arcs := arcs[i := arcs[|arcs| - 1]];
        arcs := arcs[..|arcs| - 1];
      }
    }

    /** The positions of the edges to delete, in array order. */
    method Collect(keep: Arc -> bool) returns (marked: seq<nat>)
      ensures Marks(arcs, keep, |arcs|, marked)
    {
      marked := [];
      for i := 0 to |arcs|
        invariant Marks(arcs, keep, i, marked)
      {
        ghost var before := marked;
        if !keep(arcs[i]) {
          MarkNext(arcs, keep, i, marked);
          marked := marked + [i];
        }
      }
    }

    /**
     Deletes exactly the edges with an endpoint outside the retained set, by default the states.
     The removal of each is noted, but the list never leaves the method.
     */
    method Trim(states: set<Bid>, toRetain: Option<set<Bid>>) returns (ghost unsent: seq<BeliefEvent>)
      modifies this
      ensures var retained := if toRetain.Some? then toRetain.value else states;
              && multiset(arcs) == multiset(Survivors(old(arcs), a => Inside(retained, a)))
              && (forall a :: a in arcs <==> a in old(arcs) && Inside(retained, a))
              && NamesRemoved(old(arcs), retained, unsent)
    {
      var retained := if toRetain.Some? then toRetain.value else states;
      var keep := a => Inside(retained, a);
      var marked := Collect(keep);
      MarksIncrease(arcs, keep, marked);
      TrimIsExact(arcs, keep, marked);
      RemovalsName(arcs, retained, keep, marked);
      var before := arcs;
      var removeEvents: seq<BeliefEvent> := [];
      for k := |marked| downto 0
        invariant arcs == Descending(before, marked, k)
        invariant removeEvents == Removals(before, marked, k)
      {
        var a := before[marked[k]];
        RemoveEdge(marked[k]);
        removeEvents := removeEvents + [RelationRemoved(a.source, a.sink, Local)];
      }
      SurvivorsAreMembers(before, keep, arcs);
      unsent := removeEvents;
    }

    /** Deletes the rejected edges from the lowest position up; exact only under `Reachable`. */
    method Retain(keep: Arc -> bool) returns (ghost marked: seq<nat>)
      modifies this
      ensures Marks(old(arcs), keep, |old(arcs)|, marked) && arcs == Ascending(old(arcs), marked, |marked|)
      ensures multiset(arcs) == multiset(Survivors(old(arcs), keep)) <==> Reachable(old(arcs), marked)
    {
      var positions := Collect(keep);
      marked := positions;
      RetainIsExactIff(arcs, keep, marked);
      for k := 0 to |positions|
        invariant arcs == Ascending(old(arcs), positions, k)
      {
        RemoveEdge(positions[k]);
      }
    }
  }

  lemma MarkNext(arcs: seq<Arc>, keep: Arc -> bool, i: nat, marked: seq<nat>)
    requires i < |arcs| && !keep(arcs[i]) && Marks(arcs, keep, i, marked)
    ensures Marks(arcs, keep, i + 1, marked + [i])
  {
    forall j | 0 <= j < |marked| ensures marked[j] < i {
      assert marked[j] in marked;
    }
    assert (marked + [i])[|marked|] == i;
  }
}
