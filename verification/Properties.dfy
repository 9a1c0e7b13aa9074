/**
 Identifiers, nodes and edge weights (src/properties.rs) shared by every other module.

 Free-form TOML payloads of nodes are not modelled: node equality in the program only
 zips them (src/properties.rs:953-966), so no decision in the store depends on them.
 */
module Properties {

  datatype Option<+T> = None | Some(value: T)

  datatype Result<+T> = Success(value: T) | Failure(error: string)

  /** A belief id. The program orders ids as UUIDs; only that total order matters here. */
  type Bid = nat

  /** Sort keys are u16. */
  const SORT_KEYS: nat := 0x1_0000

  type SortKey = k: nat | k < SORT_KEYS

  /** `n as u16` */
  function AsU16(n: nat): (k: SortKey)
    ensures n < SORT_KEYS ==> k == n
    ensures n == SORT_KEYS ==> k == 0
  {
    n % 0x1_0000
  }

  datatype WeightKind = Epistemic | Section | Pragmatic

  const ALL_KINDS: set<WeightKind> := {Epistemic, Section, Pragmatic}

  datatype BeliefKind = API | Network | Action | Core | Symbol | Document | External | Trace

  /**
   The payload table of one weight. `ownedBy`, `sortKey` and `docPaths` are the keys the
   program interprets; `rest` holds every other key.
   */
  datatype Weight = Weight(sortKey: Option<SortKey>, ownedBy: Option<string>, docPaths: set<string>,
      rest: map<string, string>)
  {
    /** PartialEq for Weight: only the sort key is compared. */
    predicate SameAs(other: Weight) {
      sortKey == other.sortKey
    }

    /** The endpoint that owns the edge: the source when marked so, otherwise the sink. */
    function OwnerOf(source: Bid, sink: Bid): Bid {
      if ownedBy == Some("source") then source else sink
    }

    /** Key-by-key payload merge: incoming values win, document paths accumulate. */
    function Merge(incoming: Weight): Weight {
      Weight(
        if incoming.sortKey.Some? then incoming.sortKey else sortKey,
        if incoming.ownedBy.Some? then incoming.ownedBy else ownedBy,
        docPaths + incoming.docPaths,
        rest + incoming.rest)
    }
  }

  type WeightSet = map<WeightKind, Weight>

  /** Two weight sets are equal as the program compares them. */
  predicate SameWeights(a: WeightSet, b: WeightSet) {
    a.Keys == b.Keys && forall k | k in a :: a[k].SameAs(b[k])
  }

  datatype BeliefNode = BeliefNode(bid: Bid, kind: set<BeliefKind>, title: string, schema: Option<string>,
      id: Option<string>)
  {
    /** All relations of the node are known (no Trace colour). */
    predicate IsComplete() {
      Trace !in kind
    }

    function AsTrace(): BeliefNode {
      this.(kind := kind + {Trace})
    }
  }

  type States = map<Bid, BeliefNode>

  /** An edge runs from its source (child, provider) to its sink (parent, consumer). */
  type Edge = (Bid, Bid)

  type Relations = map<Edge, WeightSet>

  /** Every state is filed under its own id. */
  ghost predicate WellKeyed(states: States) {
    forall b | b in states :: states[b].bid == b
  }

  ghost predicate NoDuplicates<T>(s: seq<T>) {
    forall i, j | 0 <= i < j < |s| :: s[i] != s[j]
  }

  /** `order` lists the members of `items`, each once. */
  ghost predicate Enumerates<T>(order: seq<T>, items: set<T>) {
    && NoDuplicates(order)
    && (forall x | x in order :: x in items)
    && (forall x | x in items :: x in order)
  }

  /** A position at which `x` is listed. */
  ghost function Position<T>(order: seq<T>, x: T): (i: nat)
    requires x in order
    ensures i < |order| && order[i] == x
  {
    var i: nat :| i < |order| && order[i] == x; i
  }

  lemma EnumeratesOneMore<T>(order: seq<T>, items: set<T>, x: T)
    requires Enumerates(order, items) && x !in items
    ensures Enumerates(order + [x], items + {x})
  {
    assert (order + [x])[|order|] == x;
    forall y | y in items ensures y in order + [x] {
      assert y in order;
    }
  }
}
