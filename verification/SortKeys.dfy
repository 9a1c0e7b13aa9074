/**
 Sort keys over whole runs of the event store: each sink's incoming keys of a kind stay
 exactly 0 .. N-1, and edges that survive an event keep their relative order.
 */
module SortKeys {
  import opened Properties
  import opened BeliefStore

  // ------------------------------------------------------------------ counting

  lemma {:induction false} EnumerationSize<T>(order: seq<T>, items: set<T>)
    requires Enumerates(order, items)
    ensures |order| == |items|
    decreases |order|
  {
    if |order| == 0 {
      assert items == {};
    } else {
      var x, rest := order[0], order[1..];
      assert Enumerates(rest, items - {x}) by {
        forall y | y in items - {x} ensures y in rest {
          var i :| 0 <= i < |order| && order[i] == y;
          assert rest[i - 1] == y;
        }
        forall y | y in rest ensures y in items - {x} {
          var i :| 0 <= i < |rest| && rest[i] == y;
          assert order[i + 1] == y;
        }
      }
      EnumerationSize(rest, items - {x});
    }
  }

  /** {0, .., n-1} */
  function Below(n: nat): (s: set<nat>)
    ensures forall i: nat :: i in s <==> i < n
    ensures |s| == n
  {
    if n == 0 then {} else Below(n - 1) + {n - 1}
  }

  lemma {:induction false} SubsetSize<T>(a: set<T>, b: set<T>)
    requires a <= b
    ensures |a| <= |b|
    ensures |a| == |b| ==> a == b
  {
    assert b == a + (b - a);
    if |a| == |b| {
      assert |b - a| == 0;
    }
  }

  // ------------------------------------------------------------------ contiguity

  /** The keys of kind `k` into `t` are present, distinct and below their number. */
  ghost predicate ContiguousAt(rel: Relations, t: Bid, k: WeightKind) {
    && (forall s | s in Incoming(rel, t, k) ::
          KeyOf(rel, s, t, k).Some? && KeyOf(rel, s, t, k).value < |Incoming(rel, t, k)|)
    && (forall s, s' | s in Incoming(rel, t, k) && s' in Incoming(rel, t, k) && s != s' ::
          KeyOf(rel, s, t, k) != KeyOf(rel, s', t, k))
  }

  ghost predicate Contiguous(rel: Relations) {
    forall t, k :: ContiguousAt(rel, t, k)
  }

  function KeysOf(rel: Relations, t: Bid, k: WeightKind, sources: set<Bid>): set<nat>
    requires forall s | s in sources :: KeyOf(rel, s, t, k).Some?
  {
    set s | s in sources :: KeyOf(rel, s, t, k).value
  }

  lemma OneMoreKey(rel: Relations, t: Bid, k: WeightKind, sources: set<Bid>, s: Bid)
    requires s in sources && forall x | x in sources :: KeyOf(rel, x, t, k).Some?
    requires forall x | x in sources && x != s :: KeyOf(rel, x, t, k) != KeyOf(rel, s, t, k)
    ensures KeysOf(rel, t, k, sources) == KeysOf(rel, t, k, sources - {s}) + {KeyOf(rel, s, t, k).value}
    ensures KeyOf(rel, s, t, k).value !in KeysOf(rel, t, k, sources - {s})
  {
    hide KeyOf;
  }

  lemma KeyCount(rel: Relations, t: Bid, k: WeightKind, sources: set<Bid>)
    requires sources <= Incoming(rel, t, k) && ContiguousAt(rel, t, k)
    ensures |KeysOf(rel, t, k, sources)| == |sources|
    decreases sources
  {
    hide KeyOf, Incoming;
    if sources == {} {
      assert KeysOf(rel, t, k, sources) == {};
    } else {
      var s :| s in sources;
      KeyCount(rel, t, k, sources - {s});
      OneMoreKey(rel, t, k, sources, s);
      hide KeysOf, ContiguousAt;
    }
  }

  lemma KeysAreFew(rel: Relations, t: Bid, k: WeightKind)
    requires ContiguousAt(rel, t, k)
    ensures var n := |Incoming(rel, t, k)|;
            |KeysInto(rel, t, k)| == n && KeysInto(rel, t, k) <= Below(n) && KeysInto(rel, t, k) <= Below(SORT_KEYS)
  {
    var sources := Incoming(rel, t, k);
    IncomingMembers(rel, t, k);
    assert Keyed(rel, t, k) == sources;
    KeyCount(rel, t, k, sources);
    hide ContiguousAt, KeyOf, Incoming, Keyed;
    assert KeysOf(rel, t, k, sources) == KeysInto(rel, t, k);
  }

  /** The keys into a contiguous sink are exactly the first N numbers. */
  lemma ContiguousIsInitialSegment(rel: Relations, t: Bid, k: WeightKind)
    requires ContiguousAt(rel, t, k)
    ensures KeysInto(rel, t, k) == Below(|Incoming(rel, t, k)|)
    ensures |Incoming(rel, t, k)| <= SORT_KEYS
  {
    hide Incoming, KeysInto, ContiguousAt;
    KeysAreFew(rel, t, k);
    SubsetSize(KeysInto(rel, t, k), Below(|Incoming(rel, t, k)|));
    SubsetSize(KeysInto(rel, t, k), Below(SORT_KEYS));
  }

  /** The order of incoming edges, as their keys define it. */
  ghost predicate Before(rel: Relations, s: Bid, s': Bid, t: Bid, k: WeightKind) {
    && KeyOf(rel, s, t, k).Some? && KeyOf(rel, s', t, k).Some?
    && KeyOf(rel, s, t, k).value < KeyOf(rel, s', t, k).value
  }

  ghost predicate SameAt(r: Relations, r': Relations, t: Bid, k: WeightKind) {
    && Incoming(r, t, k) == Incoming(r', t, k)
    && forall s | s in Incoming(r, t, k) :: KeyOf(r, s, t, k) == KeyOf(r', s, t, k)
  }

  // ------------------------------------------------------------------ renumbering

  lemma ReindexKeepsIncoming(r: Relations, r': Relations, sinks: SinkKinds, t: Bid, k: WeightKind)
    requires Reindexed(r, r', sinks)
    ensures Incoming(r, t, k) == Incoming(r', t, k)
    ensures !Affected(sinks, t, k) ==> SameAt(r, r', t, k)
  {
    IncomingMembers(r, t, k);
    IncomingMembers(r', t, k);
    forall s | s in Incoming(r, t, k) && !Affected(sinks, t, k)
      ensures KeyOf(r, s, t, k) == KeyOf(r', s, t, k)
    {
      assert k in r[(s, t)];
    }
  }

  /** Renumbering a sink whose weights all carry distinct keys closes every gap, in order. */
  lemma RenumberingCloses(r: Relations, r': Relations, sinks: SinkKinds, t: Bid, k: WeightKind)
    requires Reindexed(r, r', sinks) && Affected(sinks, t, k)
    requires forall s | s in Incoming(r, t, k) :: KeyOf(r, s, t, k).Some?
    requires forall s, s' | s in Incoming(r, t, k) && s' in Incoming(r, t, k) && s != s' ::
               KeyOf(r, s, t, k) != KeyOf(r, s', t, k)
    requires |Incoming(r, t, k)| <= SORT_KEYS
    ensures ContiguousAt(r', t, k)
    ensures forall s, s' | s in Incoming(r, t, k) && s' in Incoming(r, t, k) ::
              Before(r, s, s', t, k) <==> Before(r', s, s', t, k)
  {
    var inc := Incoming(r, t, k);
    ReindexKeepsIncoming(r, r', sinks, t, k);
    AllKeyed(r, t, k);
    assert Renumbered(r, r', t, k);
    var order :| SortedByKey(r, t, k, order) &&
      forall i | 0 <= i < |order| :: KeyOf(r', order[i], t, k) == Some(AsU16(i));
    EnumerationSize(order, inc);
    ClosedGaps(r, r', t, k, order);
  }

  lemma ClosedGaps(r: Relations, r': Relations, t: Bid, k: WeightKind, order: seq<Bid>)
    requires SortedByKey(r, t, k, order) && |order| == |Incoming(r, t, k)| <= SORT_KEYS
    requires forall i | 0 <= i < |order| :: KeyOf(r', order[i], t, k) == Some(AsU16(i))
    requires Incoming(r, t, k) == Incoming(r', t, k) && forall s | s in Incoming(r, t, k) :: s in order
    requires forall s, s' | s in Incoming(r, t, k) && s' in Incoming(r, t, k) && s != s' ::
               KeyOf(r, s, t, k) != KeyOf(r, s', t, k)
    ensures ContiguousAt(r', t, k)
    ensures forall s, s' | s in Incoming(r, t, k) && s' in Incoming(r, t, k) ::
              Before(r, s, s', t, k) <==> Before(r', s, s', t, k)
  {
    hide KeyOf, Before, Incoming, SortedByKey;
    forall s | s in Incoming(r, t, k)
      ensures KeyOf(r', s, t, k).Some? && KeyOf(r', s, t, k).value < |order|
    {
      RenumberedPair(r, r', t, k, order, s, s);
    }
    forall s, s' | s in Incoming(r, t, k) && s' in Incoming(r, t, k)
      ensures Before(r, s, s', t, k) <==> Before(r', s, s', t, k)
      ensures s != s' ==> KeyOf(r', s, t, k) != KeyOf(r', s', t, k)
    {
      RenumberedPair(r, r', t, k, order, s, s');
    }
  }

  lemma RenumberedPair(r: Relations, r': Relations, t: Bid, k: WeightKind, order: seq<Bid>, s: Bid, s': Bid)
    requires SortedByKey(r, t, k, order) && |order| <= SORT_KEYS && s in order && s' in order
    requires forall i | 0 <= i < |order| :: KeyOf(r', order[i], t, k) == Some(AsU16(i))
    requires s != s' ==> KeyOf(r, s, t, k) != KeyOf(r, s', t, k)
    ensures KeyOf(r', s, t, k).Some? && KeyOf(r', s, t, k).value < |order|
    ensures Before(r, s, s', t, k) <==> Before(r', s, s', t, k)
    ensures s != s' ==> KeyOf(r', s, t, k) != KeyOf(r', s', t, k)
  {
    var i, j := Position(order, s), Position(order, s');
    OrderedPair(r, t, k, order, i, j);
  }

  lemma AllKeyed(rel: Relations, t: Bid, k: WeightKind)
    requires forall s | s in Incoming(rel, t, k) :: KeyOf(rel, s, t, k).Some?
    ensures Incoming(rel, t, k) == Keyed(rel, t, k)
  {
    IncomingMembers(rel, t, k);
  }

  lemma OrderedPair(r: Relations, t: Bid, k: WeightKind, order: seq<Bid>, i: nat, j: nat)
    requires SortedByKey(r, t, k, order) && i < |order| && j < |order|
    requires order[i] != order[j] ==> KeyOf(r, order[i], t, k) != KeyOf(r, order[j], t, k)
    ensures Before(r, order[i], order[j], t, k) <==> i < j
  {
    assert order[i] in Keyed(r, t, k) && order[j] in Keyed(r, t, k);
    IncomingMembers(r, t, k);
    if i < j {
      assert KeyOf(r, order[i], t, k).value <= KeyOf(r, order[j], t, k).value;
    } else if j < i {
      assert KeyOf(r, order[j], t, k).value <= KeyOf(r, order[i], t, k).value;
    }
  }

  /** A sink's keys survive dropping some of its edges and then renumbering. */
  lemma DropThenRenumber(r: Relations, written: Relations, r': Relations, sinks: SinkKinds, t: Bid, k: WeightKind)
    requires ContiguousAt(r, t, k) && Reindexed(written, r', sinks)
    requires Incoming(written, t, k) <= Incoming(r, t, k)
    requires forall s | s in Incoming(written, t, k) :: KeyOf(written, s, t, k) == KeyOf(r, s, t, k)
    requires Affected(sinks, t, k) || Incoming(written, t, k) == Incoming(r, t, k)
    ensures ContiguousAt(r', t, k)
    ensures forall s, s' | s in Incoming(r', t, k) && s' in Incoming(r', t, k) ::
              Before(r, s, s', t, k) <==> Before(r', s, s', t, k)
  {
    ContiguousIsInitialSegment(r, t, k);
    ReindexKeepsIncoming(written, r', sinks, t, k);
    SubsetSize(Incoming(written, t, k), Incoming(r, t, k));
    if Affected(sinks, t, k) {
      RenumberingCloses(written, r', sinks, t, k);
    }
  }

  // ------------------------------------------------------------------ inserting

  lemma MaxOfBelow(keys: set<nat>, n: nat)
    requires keys == Below(n) && n > 0
    ensures MaxOf(keys) == n - 1
  {
    assert n - 1 in keys;
  }

  /** The generated key is the number of edges already there, in u16 arithmetic. */
  lemma NextKeyIsCount(rel: Relations, t: Bid, k: WeightKind)
    requires ContiguousAt(rel, t, k)
    ensures var n := |Incoming(rel, t, k)|;
            n <= SORT_KEYS && NextKey(rel, t, k) == if n == SORT_KEYS then 0 else n
  {
    ContiguousIsInitialSegment(rel, t, k);
    NextKeyFrom(rel, t, k, |Incoming(rel, t, k)|);
  }

  lemma NextKeyFrom(rel: Relations, t: Bid, k: WeightKind, n: nat)
    requires KeysInto(rel, t, k) == Below(n) && n <= SORT_KEYS
    ensures NextKey(rel, t, k) == if n == SORT_KEYS then 0 else n
  {
    var keys := KeysInto(rel, t, k);
    if n > 0 {
      assert n - 1 in keys;
      MaxOfBelow(keys, n);
    }
  }

  /** `s` joins the sources of `t` under kind `k` with key `key`. */
  ghost predicate Joins(r: Relations, r': Relations, s: Bid, t: Bid, k: WeightKind, key: SortKey) {
    && s !in Incoming(r, t, k)
    && Incoming(r', t, k) == Incoming(r, t, k) + {s}
    && (forall x | x in Incoming(r, t, k) :: KeyOf(r', x, t, k) == KeyOf(r, x, t, k))
    && KeyOf(r', s, t, k) == Some(key)
  }

  /**
   An insert keeps a sink contiguous exactly while fewer than 65536 edges are there: at the
   limit `w + 1` wraps to a key that is already taken.
   */
  lemma InsertContiguousIff(r: Relations, r': Relations, s: Bid, t: Bid, k: WeightKind)
    requires ContiguousAt(r, t, k) && Joins(r, r', s, t, k, NextKey(r, t, k))
    ensures ContiguousAt(r', t, k) <==> |Incoming(r, t, k)| < SORT_KEYS
  {
    NextKeyIsCount(r, t, k);
    if |Incoming(r, t, k)| == SORT_KEYS {
      assert 0 in KeysInto(r, t, k) by {
        ContiguousIsInitialSegment(r, t, k);
      }
      InsertOverflows(r, r', s, t, k);
    } else {
      InsertFits(r, r', s, t, k);
    }
  }

  lemma InsertOverflows(r: Relations, r': Relations, s: Bid, t: Bid, k: WeightKind)
    requires Joins(r, r', s, t, k, 0) && 0 in KeysInto(r, t, k)
    ensures !ContiguousAt(r', t, k)
  {
    var x :| x in Keyed(r, t, k) && KeyOf(r, x, t, k).value == 0;
    IncomingMembers(r, t, k);
    assert x in Incoming(r, t, k);
    assert KeyOf(r', x, t, k) == KeyOf(r', s, t, k);
  }

  lemma InsertFits(r: Relations, r': Relations, s: Bid, t: Bid, k: WeightKind)
    requires ContiguousAt(r, t, k) && |Incoming(r, t, k)| < SORT_KEYS
    requires Joins(r, r', s, t, k, |Incoming(r, t, k)|)
    ensures ContiguousAt(r', t, k)
  {
    var was, now := Incoming(r, t, k), Incoming(r', t, k);
    assert |now| == |was| + 1;
    forall x | x in now
      ensures KeyOf(r', x, t, k).Some? && KeyOf(r', x, t, k).value < |now|
      ensures x != s ==> KeyOf(r', x, t, k).value < |was|
    {
      assert x == s || x in was;
    }
  }

  // ------------------------------------------------------------------ one event

  /** Events that leave sort keys to the store. */
  ghost predicate StoreKeyed(ev: BeliefEvent) {
    match ev
    case RelationUpdate(_, _, _, origin) => origin == Local
    case RelationChange(_, _, _, w, _) => w.Some? ==> w.value.sortKey.None?
    case _ => true
  }

  /** Room for one more edge wherever the event could add one. */
  ghost predicate HasRoom(st: Store, ev: BeliefEvent) {
    ev.RelationChange? && ev.weight.Some? && ev.origin == Remote && ev.source in st.nodes && ev.sink in st.nodes &&
    ev.source !in Incoming(st.rel, ev.sink, ev.kind)
    ==> |Incoming(st.rel, ev.sink, ev.kind)| < SORT_KEYS
  }

  ghost predicate KeepsOrder(r: Relations, r': Relations) {
    forall s, s', t, k ::
      s in Incoming(r, t, k) && s' in Incoming(r, t, k) &&
      s in Incoming(r', t, k) && s' in Incoming(r', t, k) ==>
      (Before(r, s, s', t, k) <==> Before(r', s, s', t, k))
  }

  /** Sink `t` is contiguous afterwards and its surviving edges are in their old order. */
  ghost predicate SettledAt(r: Relations, r': Relations, t: Bid, k: WeightKind) {
    && ContiguousAt(r', t, k)
    && forall s, s' | s in Incoming(r, t, k) && s' in Incoming(r, t, k) && s in Incoming(r', t, k)
        && s' in Incoming(r', t, k) ::
         Before(r, s, s', t, k) <==> Before(r', s, s', t, k)
  }

  lemma SettledEverywhere(r: Relations, r': Relations)
    requires forall t, k :: SettledAt(r, r', t, k)
    ensures Contiguous(r') && KeepsOrder(r, r')
  {
    hide Before, Incoming, ContiguousAt;
    forall t, k ensures ContiguousAt(r', t, k) {
      assert SettledAt(r, r', t, k);
    }
    forall s, s', t, k | s in Incoming(r, t, k) && s' in Incoming(r, t, k) && s in Incoming(r', t, k)
        && s' in Incoming(r', t, k)
      ensures Before(r, s, s', t, k) <==> Before(r', s, s', t, k)
    {
      assert SettledAt(r, r', t, k);
    }
  }

  /** Writing an edge that only loses kinds. */
  lemma LossKeepsContiguous(st: Store, s: Bid, t: Bid, ws: WeightSet, st': Store, events: seq<BeliefEvent>)
    requires Contiguous(st.rel) && UpdatesRelation(st, s, t, ws, st', events)
    requires ws.Keys <= WeightsAt(st.rel, (s, t)).Keys
    requires forall k | k in ws :: ws[k].sortKey == WeightsAt(st.rel, (s, t))[k].sortKey
    ensures Contiguous(st'.rel) && KeepsOrder(st.rel, st'.rel)
  {
    if s in st.nodes && t in st.nodes {
      var lost := WeightsAt(st.rel, (s, t)).Keys - ws.Keys;
      forall t', k ensures SettledAt(st.rel, st'.rel, t', k) {
        assert ContiguousAt(st.rel, t', k);
        LossAt(st.rel, s, t, ws, st'.rel, t', k);
      }
      SettledEverywhere(st.rel, st'.rel);
    }
  }

  lemma LossAt(r: Relations, s: Bid, t: Bid, ws: WeightSet, r': Relations, t': Bid, k: WeightKind)
    requires ContiguousAt(r, t', k)
    requires ws.Keys <= WeightsAt(r, (s, t)).Keys
    requires forall j | j in ws :: ws[j].sortKey == WeightsAt(r, (s, t))[j].sortKey
    requires Reindexed(WriteEdge(r, (s, t), ws), r', map[t := WeightsAt(r, (s, t)).Keys - ws.Keys])
    ensures SettledAt(r, r', t', k)
  {
    var written := WriteEdge(r, (s, t), ws);
    forall x
      ensures x in Incoming(written, t', k) ==>
                x in Incoming(r, t', k) && KeyOf(written, x, t', k) == KeyOf(r, x, t', k)
      ensures x in Incoming(r, t', k) && x !in Incoming(written, t', k) ==>
                t' == t && k in WeightsAt(r, (s, t)).Keys - ws.Keys
    {
      LossMember(r, s, t, ws, t', k, x);
    }
    hide WriteEdge, Incoming, KeyOf, ContiguousAt, Reindexed, WeightsAt;
    DropThenRenumber(r, written, r', map[t := WeightsAt(r, (s, t)).Keys - ws.Keys], t', k);
  }

  lemma LossMember(r: Relations, s: Bid, t: Bid, ws: WeightSet, t': Bid, k: WeightKind, x: Bid)
    requires ws.Keys <= WeightsAt(r, (s, t)).Keys
    requires forall j | j in ws :: ws[j].sortKey == WeightsAt(r, (s, t))[j].sortKey
    ensures var written := WriteEdge(r, (s, t), ws);
            && (x in Incoming(written, t', k) ==>
                  x in Incoming(r, t', k) && KeyOf(written, x, t', k) == KeyOf(r, x, t', k))
            && (x in Incoming(r, t', k) && x !in Incoming(written, t', k) ==>
                  t' == t && k in WeightsAt(r, (s, t)).Keys - ws.Keys)
  {
    var written := WriteEdge(r, (s, t), ws);
    IncomingMembers(r, t', k);
    IncomingMembers(written, t', k);
    hide Incoming, Keyed;
  }

  lemma RemovalKeepsContiguous(st: Store, bids: set<Bid>, st': Store, events: seq<BeliefEvent>)
    requires Contiguous(st.rel) && RemovesNodes(st, bids, st', events)
    ensures Contiguous(st'.rel) && KeepsOrder(st.rel, st'.rel)
  {
    forall t, k ensures SettledAt(st.rel, st'.rel, t, k) {
      assert ContiguousAt(st.rel, t, k);
      RemovalSettles(st.rel, bids, st'.rel, t, k);
    }
    SettledEverywhere(st.rel, st'.rel);
  }

  lemma RemovalSettles(r: Relations, bids: set<Bid>, r': Relations, t: Bid, k: WeightKind)
    requires ContiguousAt(r, t, k) && Reindexed(WithoutNodes(r, bids), r', LostSinks(r, bids))
    ensures SettledAt(r, r', t, k)
  {
    var kept := WithoutNodes(r, bids);
    IncomingMembers(r, t, k);
    IncomingMembers(kept, t, k);
    if t in bids {
      ReindexKeepsIncoming(kept, r', LostSinks(r, bids), t, k);
      assert Incoming(r', t, k) == {};
    } else {
      RemovalAt(r, bids, t, k);
      DropThenRenumber(r, kept, r', LostSinks(r, bids), t, k);
    }
  }

  lemma RemovalAt(rel: Relations, bids: set<Bid>, t: Bid, k: WeightKind)
    requires t !in bids
    ensures Affected(LostSinks(rel, bids), t, k) || Incoming(WithoutNodes(rel, bids), t, k) == Incoming(rel, t, k)
  {
    var kept := WithoutNodes(rel, bids);
    IncomingMembers(rel, t, k);
    IncomingMembers(kept, t, k);
    if s :| s in Incoming(rel, t, k) && s in bids {
      var e := (s, t);
      assert e in rel && e.0 in bids && e.1 !in bids && e.1 == t && k in rel[e];
    }
  }

  /** `ws` keeps every kind of the edge at its key, and has kind `k`: at `key` where it is new. */
  ghost predicate Gains(rel: Relations, s: Bid, t: Bid, k: WeightKind, ws: WeightSet, key: SortKey) {
    && ws.Keys == WeightsAt(rel, (s, t)).Keys + {k}
    && (forall j | j in ws && HasKind(rel, s, t, j) :: ws[j].sortKey == KeyOf(rel, s, t, j))
    && (!HasKind(rel, s, t, k) ==> ws[k].sortKey == Some(key))
  }

  /** What a RelationChange without a sort key writes. */
  lemma GeneratedWeights(st: Store, s: Bid, t: Bid, k: WeightKind, w: Weight)
    requires w.sortKey.None? && GenerateEdgeUpdate(st, s, t, k, Some(w)).Some?
    requires ContiguousAt(st.rel, t, k)
    ensures Gains(st.rel, s, t, k, GenerateEdgeUpdate(st, s, t, k, Some(w)).value, NextKey(st.rel, t, k))
  {
    if HasKind(st.rel, s, t, k) {
      assert s in Incoming(st.rel, t, k);
    }
  }

  /** Writing an edge that keeps its kinds and gains at most kind `k`. */
  lemma GainAt(rel: Relations, s: Bid, t: Bid, k: WeightKind, ws: WeightSet, key: SortKey, t': Bid, k': WeightKind)
    requires Gains(rel, s, t, k, ws, key)
    ensures var written := WriteEdge(rel, (s, t), ws);
            if t' == t && k' == k && s !in Incoming(rel, t, k)
            then Joins(rel, written, s, t, k, key)
            else SameAt(rel, written, t', k')
  {
    hide Gains, WriteEdge, Incoming, KeyOf;
    var written := WriteEdge(rel, (s, t), ws);
    GainMember(rel, s, t, k, ws, key, t, k, s);
    forall x
      ensures x in Incoming(written, t', k') <==> x in Incoming(rel, t', k') || (x == s && t' == t && k' == k)
      ensures x in Incoming(rel, t', k') ==> KeyOf(written, x, t', k') == KeyOf(rel, x, t', k')
    {
      GainMember(rel, s, t, k, ws, key, t', k', x);
    }
  }

  lemma GainMember(rel: Relations, s: Bid, t: Bid, k: WeightKind, ws: WeightSet, key: SortKey,
      t': Bid, k': WeightKind, x: Bid)
    requires Gains(rel, s, t, k, ws, key)
    ensures var written := WriteEdge(rel, (s, t), ws);
            && (x in Incoming(written, t', k') <==> x in Incoming(rel, t', k') || (x == s && t' == t && k' == k))
            && (x in Incoming(rel, t', k') ==> KeyOf(written, x, t', k') == KeyOf(rel, x, t', k'))
            && (x == s && t' == t && k' == k && x !in Incoming(rel, t, k) ==> KeyOf(written, x, t', k') == Some(key))
  {
    assert k in ws;
    var written := WriteEdge(rel, (s, t), ws);
    IncomingMembers(rel, t', k');
    IncomingMembers(written, t', k');
    hide Incoming, Keyed;
    assert HasKind(written, x, t', k') <==> HasKind(rel, x, t', k') || (x == s && t' == t && k' == k);
  }

  lemma GainKeepsContiguous(st: Store, s: Bid, t: Bid, k: WeightKind, ws: WeightSet, st': Store,
      events: seq<BeliefEvent>)
    requires Contiguous(st.rel) && UpdatesRelation(st, s, t, ws, st', events)
    requires Gains(st.rel, s, t, k, ws, NextKey(st.rel, t, k))
    requires s in st.nodes && t in st.nodes && s !in Incoming(st.rel, t, k) ==> |Incoming(st.rel, t, k)| < SORT_KEYS
    ensures Contiguous(st'.rel) && KeepsOrder(st.rel, st'.rel)
  {
    if s in st.nodes && t in st.nodes {
      assert WeightsAt(st.rel, (s, t)).Keys - ws.Keys == {};
      forall t', k' ensures SettledAt(st.rel, st'.rel, t', k') {
        assert ContiguousAt(st.rel, t', k');
        GainSettles(st.rel, s, t, k, ws, st'.rel, t', k');
      }
      SettledEverywhere(st.rel, st'.rel);
    }
  }

  lemma GainSettles(r: Relations, s: Bid, t: Bid, k: WeightKind, ws: WeightSet, r': Relations, t': Bid, k': WeightKind)
    requires ContiguousAt(r, t', k') && Gains(r, s, t, k, ws, NextKey(r, t, k))
    requires s !in Incoming(r, t, k) ==> |Incoming(r, t, k)| < SORT_KEYS
    requires Reindexed(WriteEdge(r, (s, t), ws), r', map[t := {}])
    ensures SettledAt(r, r', t', k')
  {
    hide Gains, WriteEdge, Incoming, KeyOf, NextKey, Reindexed, Before, ContiguousAt;
    var written := WriteEdge(r, (s, t), ws);
    GainedContiguous(r, s, t, k, ws, t', k');
    ReindexKeepsIncoming(written, r', map[t := {}], t', k');
    assert SameAt(written, r', t', k');
    hide SameAt;
    SameAtSettles(written, r', t', k');
    OldOrderKept(r, written, r', t', k');
  }

  lemma GainedContiguous(r: Relations, s: Bid, t: Bid, k: WeightKind, ws: WeightSet, t': Bid, k': WeightKind)
    requires ContiguousAt(r, t', k') && Gains(r, s, t, k, ws, NextKey(r, t, k))
    requires s !in Incoming(r, t, k) ==> |Incoming(r, t, k)| < SORT_KEYS
    ensures var written := WriteEdge(r, (s, t), ws);
            && ContiguousAt(written, t', k')
            && Incoming(r, t', k') <= Incoming(written, t', k')
            && forall x | x in Incoming(r, t', k') :: KeyOf(written, x, t', k') == KeyOf(r, x, t', k')
  {
    hide Gains, WriteEdge, Incoming, KeyOf, NextKey, ContiguousAt;
    var written := WriteEdge(r, (s, t), ws);
    GainAt(r, s, t, k, ws, NextKey(r, t, k), t', k');
    if t' == t && k' == k && s !in Incoming(r, t, k) {
      InsertContiguousIff(r, written, s, t, k);
    } else {
      SameAtSettles(r, written, t', k');
    }
  }

  lemma SameAtSettles(r: Relations, r': Relations, t: Bid, k: WeightKind)
    requires SameAt(r, r', t, k)
    ensures ContiguousAt(r, t, k) ==> ContiguousAt(r', t, k)
  {
  }

  lemma OldOrderKept(r: Relations, written: Relations, r': Relations, t: Bid, k: WeightKind)
    requires SameAt(written, r', t, k) && Incoming(r, t, k) <= Incoming(written, t, k)
    requires forall x | x in Incoming(r, t, k) :: KeyOf(written, x, t, k) == KeyOf(r, x, t, k)
    ensures forall x, y | x in Incoming(r, t, k) && y in Incoming(r, t, k) ::
              Before(r, x, y, t, k) <==> Before(r', x, y, t, k)
  {
  }

  lemma StepKeepsContiguous(st: Store, ev: BeliefEvent, st': Store, events: seq<BeliefEvent>)
    requires Contiguous(st.rel) && Processes(st, ev, st', events)
    requires StoreKeyed(ev) && HasRoom(st, ev)
    ensures Contiguous(st'.rel) && KeepsOrder(st.rel, st'.rel)
  {
    if !(ev.NoStoreEffect? || ev.MalformedNodeUpdate? || ev.origin == Local) {
      match ev
      case NodeUpdate(node, _) =>
      case NodesRemoved(bids, _) =>
        RemovalKeepsContiguous(st, BidSet(bids), st', events);
      case RelationRemoved(s, t, _) =>
        LossKeepsContiguous(st, s, t, map[], st', events);
      case RelationUpdate(_, _, _, _) =>
      case RelationChange(s, t, k, w, _) =>
        var generated := GenerateEdgeUpdate(st, s, t, k, w);
        if generated.Some? {
          if w.Some? {
            assert ContiguousAt(st.rel, t, k);
            GeneratedWeights(st, s, t, k, w.value);
            GainKeepsContiguous(st, s, t, k, generated.value, st', events[1..]);
          } else {
            LossKeepsContiguous(st, s, t, generated.value, st', events[1..]);
          }
        }
    }
  }

  /** An insert into a full sink wraps its key onto one in use. */
  lemma OverflowBreaksContiguous(st: Store, s: Bid, t: Bid, k: WeightKind, ws: WeightSet, st': Store,
      events: seq<BeliefEvent>)
    requires Contiguous(st.rel) && UpdatesRelation(st, s, t, ws, st', events)
    requires Gains(st.rel, s, t, k, ws, NextKey(st.rel, t, k))
    requires s in st.nodes && t in st.nodes && s !in Incoming(st.rel, t, k) && |Incoming(st.rel, t, k)| >= SORT_KEYS
    ensures !Contiguous(st'.rel)
  {
    assert WeightsAt(st.rel, (s, t)).Keys - ws.Keys == {};
    assert ContiguousAt(st.rel, t, k);
    OverflowAt(st.rel, s, t, k, ws, st'.rel);
    assert !ContiguousAt(st'.rel, t, k);
  }

  lemma OverflowAt(r: Relations, s: Bid, t: Bid, k: WeightKind, ws: WeightSet, r': Relations)
    requires ContiguousAt(r, t, k) && Gains(r, s, t, k, ws, NextKey(r, t, k))
    requires s !in Incoming(r, t, k) && |Incoming(r, t, k)| >= SORT_KEYS
    requires Reindexed(WriteEdge(r, (s, t), ws), r', map[t := {}])
    ensures !ContiguousAt(r', t, k)
  {
    hide Gains, WriteEdge, Incoming, KeyOf, NextKey, Reindexed, ContiguousAt, Joins, SameAt;
    var written := WriteEdge(r, (s, t), ws);
    GainAt(r, s, t, k, ws, NextKey(r, t, k), t, k);
    ReindexKeepsIncoming(written, r', map[t := {}], t, k);
    JoinsThrough(r, written, r', s, t, k, NextKey(r, t, k));
    InsertContiguousIff(r, r', s, t, k);
  }

  lemma JoinsThrough(r: Relations, written: Relations, r': Relations, s: Bid, t: Bid, k: WeightKind, key: SortKey)
    requires Joins(r, written, s, t, k, key) && SameAt(written, r', t, k)
    ensures Joins(r, r', s, t, k, key)
  {
  }

  /** A store-keyed event keeps every sink contiguous exactly when there is room for it. */
  lemma StepContiguousIff(st: Store, ev: BeliefEvent, st': Store, events: seq<BeliefEvent>)
    requires Contiguous(st.rel) && Processes(st, ev, st', events) && StoreKeyed(ev)
    ensures Contiguous(st'.rel) <==> HasRoom(st, ev)
  {
    if HasRoom(st, ev) {
      StepKeepsContiguous(st, ev, st', events);
    } else {
      var (s, t, k, w) := (ev.source, ev.sink, ev.kind, ev.weight);
      assert ContiguousAt(st.rel, t, k);
      IncomingMembers(st.rel, t, k);
      assert GenerateEdgeUpdate(st, s, t, k, w).Some?;
      GeneratedWeights(st, s, t, k, w.value);
      OverflowBreaksContiguous(st, s, t, k, GenerateEdgeUpdate(st, s, t, k, w).value, st', events[1..]);
    }
  }

  // ------------------------------------------------------------------ a full sink

  /** Edges 1 .. n into node 0, with the keys 0 .. n-1. */
  function Ladder(n: nat): Relations
    requires n <= SORT_KEYS
  {
    if n == 0 then map[] else Ladder(n - 1)[(n, 0) := map[Section := Weight(Some(n - 1), None, {}, map[])]]
  }

  lemma {:induction false} LadderRung(n: nat, s: Bid, t: Bid, k: WeightKind)
    requires n <= SORT_KEYS
    ensures HasKind(Ladder(n), s, t, k) <==> 0 < s <= n && t == 0 && k == Section
    ensures 0 < s <= n && t == 0 && k == Section ==> KeyOf(Ladder(n), s, t, k) == Some(s - 1)
    ensures (s, t) in Ladder(n) ==> 0 < s <= n && t == 0
  {
    if n == 0 {
    } else {
      LadderRung(n - 1, s, t, k);
    }
  }

  lemma {:induction false} LadderWidth(n: nat)
    requires n <= SORT_KEYS
    ensures |Incoming(Ladder(n), 0, Section)| == n
  {
    IncomingMembers(Ladder(n), 0, Section);
    forall s: Bid {
      LadderRung(n, s, 0, Section);
    }
    if n == 0 {
      assert Incoming(Ladder(0), 0, Section) == {};
    } else {
      LadderWidth(n - 1);
      IncomingMembers(Ladder(n - 1), 0, Section);
      forall s: Bid {
        LadderRung(n - 1, s, 0, Section);
      }
      hide Incoming, Ladder, KeyOf;
      assert Incoming(Ladder(n), 0, Section) == Incoming(Ladder(n - 1), 0, Section) + {n};
    }
  }

  lemma LadderContiguous(n: nat)
    requires n <= SORT_KEYS
    ensures Contiguous(Ladder(n))
  {
    LadderWidth(n);
    forall t, k ensures ContiguousAt(Ladder(n), t, k) {
      IncomingMembers(Ladder(n), t, k);
      forall s: Bid {
        LadderRung(n, s, t, k);
      }
      hide Incoming, Ladder, KeyOf;
    }
  }

  function LadderStore(n: nat): Store
    requires n <= SORT_KEYS
  {
    var states := map b | b in Below(n + 2) :: BeliefNode(b, {}, "", None, None);
    Store(states, states.Keys, Ladder(n))
  }

  lemma LadderStoreShape(n: nat)
    requires n <= SORT_KEYS
    ensures var st := LadderStore(n);
            && st.OrphanFree() && Contiguous(st.rel) && 0 in st.nodes && n + 1 in st.nodes
            && (n + 1, 0) !in st.rel && n + 1 !in Incoming(st.rel, 0, Section)
            && |Incoming(st.rel, 0, Section)| == n
  {
    LadderContiguous(n);
    LadderWidth(n);
    IncomingMembers(Ladder(n), 0, Section);
    LadderRung(n, n + 1, 0, Section);
    hide Incoming, Contiguous;
    forall e | e in Ladder(n) ensures 0 <= e.0 <= n && e.1 == 0 {
      LadderRung(n, e.0, e.1, Section);
    }
    hide Ladder;
  }

  /** Adding an edge where there is none renumbers nothing. */
  lemma InsertSteps(st: Store, s: Bid, t: Bid, k: WeightKind, w: Weight)
    returns (ev: BeliefEvent, st': Store, events: seq<BeliefEvent>)
    requires s in st.nodes && t in st.nodes && (s, t) !in st.rel
    ensures ev == RelationChange(s, t, k, Some(w), Remote) && Processes(st, ev, st', events)
  {
    hide NextKey;
    ev := RelationChange(s, t, k, Some(w), Remote);
    var ws := GenerateEdgeUpdate(st, s, t, k, Some(w)).value;
    st' := st.(rel := WriteEdge(st.rel, (s, t), ws));
    events := [RelationUpdate(s, t, ws, Remote)];
    assert events[1..] == [];
    hide GenerateEdgeUpdate, Renumbered;
    assert WeightsAt(st.rel, (s, t)).Keys - ws.Keys == {};
    assert UpdatesRelation(st, s, t, ws, st', []);
  }

  /** The 65537th edge into a sink: a contiguous store and the insert after which it is not. */
  lemma FullSinkWraps(n: nat) returns (ev: BeliefEvent, st': Store, events: seq<BeliefEvent>)
    requires n == SORT_KEYS
    ensures LadderStore(n).OrphanFree() && Contiguous(LadderStore(n).rel)
    ensures StoreKeyed(ev) && Processes(LadderStore(n), ev, st', events)
    ensures !Contiguous(st'.rel)
  {
    hide LadderStore, Contiguous, Incoming, Processes;
    LadderStoreShape(n);
    ev, st', events := InsertSteps(LadderStore(n), n + 1, 0, Section, Weight(None, None, {}, map[]));
    assert !HasRoom(LadderStore(n), ev);
    StepContiguousIff(LadderStore(n), ev, st', events);
  }

  // ------------------------------------------------------------------ whole runs

  /**
   Contiguous sort keys over any run of store-keyed events: at the end every sink's keys of
   every kind are exactly 0 .. N-1.
   */
  lemma {:induction false} RunsStayContiguous(stores: seq<Store>, evs: seq<BeliefEvent>,
      derived: seq<seq<BeliefEvent>>, n: nat)
    requires Run(stores, evs, derived) && Contiguous(stores[0].rel)
    requires forall i | 0 <= i < |evs| :: StoreKeyed(evs[i]) && HasRoom(stores[i], evs[i])
    requires n <= |evs|
    ensures Contiguous(stores[n].rel)
    ensures forall t, k :: KeysInto(stores[n].rel, t, k) == Below(|Incoming(stores[n].rel, t, k)|)
  {
    hide Processes, Incoming, KeysInto, ContiguousAt;
    if n == 0 {
    } else {
      RunsStayContiguous(stores, evs, derived, n - 1);
      StepKeepsContiguous(stores[n - 1], evs[n - 1], stores[n], derived[n - 1]);
    }
    forall t, k ensures KeysInto(stores[n].rel, t, k) == Below(|Incoming(stores[n].rel, t, k)|) {
      assert ContiguousAt(stores[n].rel, t, k);
      ContiguousIsInitialSegment(stores[n].rel, t, k);
    }
  }

  /** Two edges present throughout a run end in the order they started in. */
  lemma {:induction false} RunsKeepOrder(stores: seq<Store>, evs: seq<BeliefEvent>, derived: seq<seq<BeliefEvent>>,
                                         n: nat, s: Bid, s': Bid, t: Bid, k: WeightKind)
    requires Run(stores, evs, derived) && Contiguous(stores[0].rel)
    requires forall i | 0 <= i < |evs| :: StoreKeyed(evs[i]) && HasRoom(stores[i], evs[i])
    requires n <= |evs|
    requires forall i | 0 <= i <= n :: s in Incoming(stores[i].rel, t, k) && s' in Incoming(stores[i].rel, t, k)
    ensures Before(stores[0].rel, s, s', t, k) <==> Before(stores[n].rel, s, s', t, k)
  {
    hide Processes, Incoming, Before;
    if n == 0 {
    } else {
      RunsKeepOrder(stores, evs, derived, n - 1, s, s', t, k);
      RunsStayContiguous(stores, evs, derived, n - 1);
      StepKeepsContiguous(stores[n - 1], evs[n - 1], stores[n], derived[n - 1]);
    }
  }
}
