/**
 The renumbering inside `reindex_sink_edges` (src/beliefbase/base.rs:1501-1605), at the
 level of graph slots: sort the keyed sources of a sink, give each its position, and
 collect only the keys that differ.
 */
module Renumbering {
  import opened Properties
  import opened BeliefStore
  import opened SlotGraphs

  function SlotKey(g: SlotGraph, a: nat, b: nat, k: WeightKind): Option<SortKey> {
    if (a, b) in g.arcs && k in g.arcs[(a, b)] then g.arcs[(a, b)][k].sortKey else None
  }

  function KeyedSlots(g: SlotGraph, sink: nat, k: WeightKind): set<nat> {
    set a | 0 <= a < |g.slots| && SlotKey(g, a, sink, k).Some?
  }

  /** `order` lists the keyed source slots of `sink` by ascending key. */
  ghost predicate SlotOrder(g: SlotGraph, sink: nat, k: WeightKind, order: seq<nat>) {
    && Enumerates(order, KeyedSlots(g, sink, k))
    && (forall i | 0 <= i < |order| :: SlotKey(g, order[i], sink, k).Some?)
    && forall i, j | 0 <= i < j < |order| ::
         SlotKey(g, order[i], sink, k).value <= SlotKey(g, order[j], sink, k).value
  }

  type Item = (nat, SortKey)

  ghost predicate Ascending(items: seq<Item>) {
    forall i, j | 0 <= i < j < |items| :: items[i].1 <= items[j].1
  }

  /** Source slots are listed once each. */
  ghost predicate OncePerSource(items: seq<Item>) {
    forall i, j | 0 <= i < j < |items| :: items[i].0 != items[j].0
  }

  /** The items with key `key`, in order. */
  function OfKey(items: seq<Item>, key: SortKey): seq<Item> {
    if items == [] then []
    else
      var last := items[|items| - 1];
      OfKey(items[..|items| - 1], key) + (if last.1 == key then [last] else [])
  }

  lemma {:induction false} OfKeyConcat(a: seq<Item>, b: seq<Item>, key: SortKey)
    ensures OfKey(a + b, key) == OfKey(a, key) + OfKey(b, key)
  {
    if b == [] {
      assert a + b == a;
    } else {
      OfKeyConcat(a, b[..|b| - 1], key);
      assert (a + b)[..|a + b| - 1] == a + b[..|b| - 1];
    }
  }

  lemma {:induction false} OfKeyAbsent(items: seq<Item>, key: SortKey)
    requires forall i | 0 <= i < |items| :: items[i].1 != key
    ensures OfKey(items, key) == []
  {
    if items == [] {
    } else {
      OfKeyAbsent(items[..|items| - 1], key);
    }
  }

  /** Inserted before larger keys only, an item comes last among those of its key. */
  lemma InsertedLast(sorted: seq<Item>, at: nat, x: Item, key: SortKey)
    requires at <= |sorted| && forall i | at <= i < |sorted| :: x.1 < sorted[i].1
    ensures OfKey(sorted[..at] + [x] + sorted[at..], key) == OfKey(sorted, key) + (if x.1 == key then [x] else [])
  {
    var a, b := sorted[..at], sorted[at..];
    assert sorted == a + b;
    OfKeyConcat(a, b, key);
    OfKeyConcat(a, [x], key);
    OfKeyConcat(a + [x], b, key);
    if x.1 == key {
      OfKeyAbsent(b, key);
    }
    assert OfKey([x], key) == if x.1 == key then [x] else [] by {
      assert [x][..0] == [];
    }
  }

  /** `sort_by_key`: stable, so equal keys keep their order of arrival. */
  method SortByKey(items: seq<Item>) returns (sorted: seq<Item>)
    requires OncePerSource(items)
    ensures Ascending(sorted) && OncePerSource(sorted)
    ensures |sorted| == |items| && forall x :: x in sorted <==> x in items
    ensures forall key :: OfKey(sorted, key) == OfKey(items, key)
  {
    sorted := [];
    for n := 0 to |items|
      invariant Ascending(sorted) && OncePerSource(sorted) && |sorted| == n
      invariant forall x :: x in sorted <==> x in items[..n]
      invariant forall key :: OfKey(sorted, key) == OfKey(items[..n], key)
    {
      var at := |sorted|;
      while at > 0 && items[n].1 < sorted[at - 1].1
        invariant 0 <= at <= |sorted|
        invariant forall i | at <= i < |sorted| :: items[n].1 < sorted[i].1
      {
        at := at - 1;
      }
      InsertedInOrder(sorted, at, items[n]);
      NewSource(items, sorted, n);
      InsertedOnce(sorted, at, items[n]);
      StillStable(items, n, sorted, at);
      hide OfKey;
      assert items[..n + 1] == items[..n] + [items[n]];
      sorted := sorted[..at] + [items[n]] + sorted[at..];
    }
    assert items[..|items|] == items;
  }

  lemma StillStable(items: seq<Item>, n: nat, sorted: seq<Item>, at: nat)
    requires n < |items| && at <= |sorted| && forall i | at <= i < |sorted| :: items[n].1 < sorted[i].1
    requires forall key :: OfKey(sorted, key) == OfKey(items[..n], key)
    ensures forall key :: OfKey(sorted[..at] + [items[n]] + sorted[at..], key) == OfKey(items[..n + 1], key)
  {
    forall key: SortKey
      ensures OfKey(sorted[..at] + [items[n]] + sorted[at..], key) == OfKey(items[..n + 1], key)
    {
      InsertedLast(sorted, at, items[n], key);
      assert items[..n + 1][..n] == items[..n];
    }
  }

  lemma InsertedInOrder(sorted: seq<Item>, at: nat, x: Item)
    requires Ascending(sorted) && at <= |sorted|
    requires forall i | at <= i < |sorted| :: x.1 < sorted[i].1
    requires at > 0 ==> sorted[at - 1].1 <= x.1
    ensures Ascending(sorted[..at] + [x] + sorted[at..])
  {
    var after := sorted[..at] + [x] + sorted[at..];
    forall i, j | 0 <= i < j < |after| ensures after[i].1 <= after[j].1 {
      assert at > 0 && i < at ==> sorted[i].1 <= sorted[at - 1].1;
    }
  }

  lemma NewSource(items: seq<Item>, sorted: seq<Item>, n: nat)
    requires OncePerSource(items) && n < |items|
    requires forall x :: x in sorted <==> x in items[..n]
    ensures forall i | 0 <= i < |sorted| :: sorted[i].0 != items[n].0
  {
    forall i | 0 <= i < |sorted| ensures sorted[i].0 != items[n].0 {
      assert sorted[i] in items[..n];
      var j :| 0 <= j < n && items[..n][j] == sorted[i];
      assert items[j].0 != items[n].0;
    }
  }

  lemma InsertedOnce(sorted: seq<Item>, at: nat, x: Item)
    requires OncePerSource(sorted) && at <= |sorted|
    requires forall i | 0 <= i < |sorted| :: sorted[i].0 != x.0
    ensures OncePerSource(sorted[..at] + [x] + sorted[at..])
    ensures forall y :: y in sorted[..at] + [x] + sorted[at..] <==> y in sorted || y == x
  {
    var after := sorted[..at] + [x] + sorted[at..];
    forall y | y in sorted ensures y in after {
      var i :| 0 <= i < |sorted| && sorted[i] == y;
      assert after[if i < at then i else i + 1] == y;
    }
    assert after[at] == x;
  }

  // ------------------------------------------------------------------ which keys move

  type Orders = map<WeightKind, seq<nat>>

  ghost predicate OrdersOf(g: SlotGraph, sink: nat, orders: Orders) {
    forall k | k in orders :: SlotOrder(g, sink, k, orders[k])
  }

  /** The keys that renumbering changes on the edge from slot `a`. */
  ghost function ShiftsAt(g: SlotGraph, sink: nat, orders: Orders, a: nat): map<WeightKind, SortKey> {
    map k | k in orders && a in orders[k] && Some(AsU16(Position(orders[k], a))) != SlotKey(g, a, sink, k) ::
      AsU16(Position(orders[k], a))
  }

  type Shifts = map<nat, map<WeightKind, SortKey>>

  /** `changed` holds exactly the non-empty shifts. */
  ghost predicate CollectsShifts(g: SlotGraph, sink: nat, orders: Orders, changed: Shifts) {
    && (forall a | a in changed :: changed[a] == ShiftsAt(g, sink, orders, a) != map[])
    && (forall a | a !in changed :: ShiftsAt(g, sink, orders, a) == map[])
  }

  /** The keyed edges of one kind into `sink`. */
  method CollectItems(g: SlotGraph, sink: nat, k: WeightKind) returns (items: seq<Item>)
    ensures OncePerSource(items)
    ensures forall i | 0 <= i < |items| :: items[i].0 < |g.slots| && SlotKey(g, items[i].0, sink, k) == Some(items[i].1)
    ensures forall b | 0 <= b < |g.slots| && SlotKey(g, b, sink, k).Some? :: (b, SlotKey(g, b, sink, k).value) in items
  {
    items := [];
    for a := 0 to |g.slots|
      invariant OncePerSource(items)
      invariant forall i | 0 <= i < |items| :: items[i].0 < a && SlotKey(g, items[i].0, sink, k) == Some(items[i].1)
      invariant forall b | 0 <= b < a && SlotKey(g, b, sink, k).Some? :: (b, SlotKey(g, b, sink, k).value) in items
    {
      var key := SlotKey(g, a, sink, k);
      if key.Some? {
        items := items + [(a, key.value)];
        assert items[|items| - 1] == (a, key.value);
      }
    }
  }

  /** Some order by key puts exactly the listed sources at a position other than their key. */
  ghost predicate IsKindShift(g: SlotGraph, sink: nat, k: WeightKind, shifts: map<nat, SortKey>) {
    exists order: seq<nat> ::
      && SlotOrder(g, sink, k, order)
      && (forall a :: a in shifts <==> a in order && Some(AsU16(Position(order, a))) != SlotKey(g, a, sink, k))
      && forall a | a in shifts :: shifts[a] == AsU16(Position(order, a))
  }

  /** One kind: the positions that differ from the current keys. */
  method KindShifts(g: SlotGraph, sink: nat, k: WeightKind)
    returns (shifts: map<nat, SortKey>, ghost order: seq<nat>)
    ensures SlotOrder(g, sink, k, order)
    ensures forall a :: a in shifts <==> a in order && Some(AsU16(Position(order, a))) != SlotKey(g, a, sink, k)
    ensures forall a | a in shifts :: shifts[a] == AsU16(Position(order, a))
    ensures IsKindShift(g, sink, k, shifts)
  {
    var items := CollectItems(g, sink, k);
    var sorted := SortByKey(items);
    order := seq(|sorted|, i requires 0 <= i < |sorted| => sorted[i].0);
    SortedIsSlotOrder(g, sink, k, items, sorted, order);
    shifts := ComparePositions(g, sink, k, sorted, order);
  }

  method ComparePositions(g: SlotGraph, sink: nat, k: WeightKind, sorted: seq<Item>, ghost order: seq<nat>)
    returns (shifts: map<nat, SortKey>)
    requires NoDuplicates(order) && |order| == |sorted|
    requires forall i | 0 <= i < |sorted| ::
            order[i] == sorted[i].0 && SlotKey(g, order[i], sink, k) == Some(sorted[i].1)
    ensures forall a :: a in shifts <==> a in order && Some(AsU16(Position(order, a))) != SlotKey(g, a, sink, k)
    ensures forall a | a in shifts :: shifts[a] == AsU16(Position(order, a))
  {
    hide SlotKey;
    shifts := map[];
    for i := 0 to |sorted|
      invariant forall a | a in shifts :: a in order[..i] && shifts[a] == AsU16(Position(order, a))
      invariant forall a | a in order[..i] :: a in shifts <==> Some(AsU16(Position(order, a))) != SlotKey(g, a, sink, k)
    {
      assert order[i] in order && Position(order, order[i]) == i;
      assert order[..i + 1] == order[..i] + [order[i]];
      if AsU16(i) != sorted[i].1 {
        shifts := shifts[sorted[i].0 := AsU16(i)];
      }
    }
    assert order[..|sorted|] == order;
  }

  lemma SortedIsSlotOrder(g: SlotGraph, sink: nat, k: WeightKind, items: seq<Item>, sorted: seq<Item>, order: seq<nat>)
    requires Ascending(sorted) && OncePerSource(sorted) && forall x :: x in sorted <==> x in items
    requires forall i | 0 <= i < |items| ::
            items[i].0 < |g.slots| && SlotKey(g, items[i].0, sink, k) == Some(items[i].1)
    requires forall b | 0 <= b < |g.slots| && SlotKey(g, b, sink, k).Some? :: (b, SlotKey(g, b, sink, k).value) in items
    requires |order| == |sorted| && forall i | 0 <= i < |sorted| :: order[i] == sorted[i].0
    ensures SlotOrder(g, sink, k, order)
    ensures forall i | 0 <= i < |sorted| :: SlotKey(g, sorted[i].0, sink, k) == Some(sorted[i].1)
  {
    forall i | 0 <= i < |sorted|
      ensures SlotKey(g, sorted[i].0, sink, k) == Some(sorted[i].1) && sorted[i].0 < |g.slots|
    {
      assert sorted[i] in items;
    }
    forall a | a in KeyedSlots(g, sink, k) ensures a in order {
      var x := (a, SlotKey(g, a, sink, k).value);
      assert x in sorted;
      var i :| 0 <= i < |sorted| && sorted[i] == x;
      assert order[i] == a;
    }
  }

  ghost predicate IsSinkShift(g: SlotGraph, sink: nat, kinds: set<WeightKind>, changed: Shifts) {
    exists orders: Orders :: orders.Keys == kinds && OrdersOf(g, sink, orders)
        && CollectsShifts(g, sink, orders, changed)
  }

  /** All affected kinds of a sink. */
  method ComputeShifts(g: SlotGraph, sink: nat, kinds: set<WeightKind>) returns (changed: Shifts, ghost orders: Orders)
    requires g.WellFormed()
    ensures orders.Keys == kinds && OrdersOf(g, sink, orders)
    ensures CollectsShifts(g, sink, orders, changed)
    ensures IsSinkShift(g, sink, kinds, changed)
  {
    changed, orders := map[], map[];
    var todo := kinds;
    while todo != {}
      invariant todo <= kinds && orders.Keys == kinds - todo
      invariant OrdersOf(g, sink, orders) && CollectsShifts(g, sink, orders, changed)
    {
      var k :| k in todo;
      todo := todo - {k};
      ghost var order;
      var shifts;
      hide IsKindShift;
      shifts, order := KindShifts(g, sink, k);
      AddedKind(g, sink, orders, changed, k, order, shifts);
      changed := AddShifts(changed, k, shifts);
      orders := orders[k := order];
    }
  }

  /** `entry(source).or_default().insert(kind, key)` for every shifted key of one kind. */
  function AddShifts(changed: Shifts, k: WeightKind, shifts: map<nat, SortKey>): Shifts {
    map a | a in changed.Keys + shifts.Keys ::
      (if a in changed then changed[a] else map[]) + (if a in shifts then map[k := shifts[a]] else map[])
  }

  lemma ShiftsWith(g: SlotGraph, sink: nat, orders: Orders, k: WeightKind, order: seq<nat>, shifts: map<nat,
      SortKey>, a: nat)
    requires k !in orders
    requires a in shifts <==> a in order && Some(AsU16(Position(order, a))) != SlotKey(g, a, sink, k)
    requires a in shifts ==> shifts[a] == AsU16(Position(order, a))
    ensures ShiftsAt(g, sink, orders[k := order], a) ==
            ShiftsAt(g, sink, orders, a) + (if a in shifts then map[k := shifts[a]] else map[])
    ensures a in shifts ==> ShiftsAt(g, sink, orders[k := order], a) != map[]
  {
    if a in shifts {
      assert k in ShiftsAt(g, sink, orders[k := order], a);
    }
  }

  lemma AddedKind(g: SlotGraph, sink: nat, orders: Orders, changed: Shifts, k: WeightKind, order: seq<nat>,
      shifts: map<nat, SortKey>)
    requires k !in orders && CollectsShifts(g, sink, orders, changed)
    requires forall a :: a in shifts <==> a in order && Some(AsU16(Position(order, a))) != SlotKey(g, a, sink, k)
    requires forall a | a in shifts :: shifts[a] == AsU16(Position(order, a))
    ensures CollectsShifts(g, sink, orders[k := order], AddShifts(changed, k, shifts))
  {
    hide ShiftsAt, SlotKey;
    var now := AddShifts(changed, k, shifts);
    forall a | a in now ensures now[a] == ShiftsAt(g, sink, orders[k := order], a) != map[] {
      ShiftsWith(g, sink, orders, k, order, shifts, a);
      if a !in shifts {
        assert now[a] == changed[a] + map[];
      }
    }
    forall a | a !in now ensures ShiftsAt(g, sink, orders[k := order], a) == map[] {
      ShiftsWith(g, sink, orders, k, order, shifts, a);
    }
  }
}
