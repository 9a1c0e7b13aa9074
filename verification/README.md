# Verified model of the belief store

This project models the core of noet-core in Dafny: the belief store with its event semantics and
sort keys, the lazily rebuilt slot table under it, the graph algebra and query evaluation on top of
it, and the things that must agree with it: the relations replica, the query cache, diffs, merges,
shards, the navigation tree, the path table and the compile-and-commit pipeline. `dafny verify
dfyconfig.toml` checks everything. Nothing here runs the program.

## How to read it

- Every store operation is given twice: as a relation on values (`BeliefStore.dfy`) and as a method
  of a class that updates fields in loops, as the Rust code does (`BeliefBase.dfy`, `GraphStore.dfy`,
  `Cached.dfy`, `Shards.dfy`, `EdgeArena.dfy`). The methods are proved against the relations; the
  theorems over runs are about the relations.
- An edge is a (source, sink) pair with a map from kind to weight. A weight is its sort key, its
  owner mark, its document paths and a rest table; weights compare by sort key alone, as in
  `src/properties.rs:671-677`. Sort keys are u16 and wrap.
- What each operation does is also written out field by field, on states, edges, kinds and weights alone:
  `Effects.dfy` for the store's events, `GraphEdges.dfy` for the set operations, `Answers.dfy` for queries,
  `CachedAnswers.dfy` for the cache, `DiffEvents.dfy` for diffs and `MergeContents.dfy` for merge plans.
- Where the program iterates over a hash map, a graph library's edge list or equal sort keys, the
  order is left open, so a result holds for every order.
- Release semantics: debug assertions are not part of the model. The one at
  `src/beliefbase/base.rs:1405` is stronger than the code needs and fails when the edge already
  exists with another kind.

## What holds only under a condition, and where comments and code differ

- Sort keys stay contiguous exactly while a sink has fewer than 65536 edges of the kind before an
  insert (`SortKeys.StepContiguousIff`); one more edge wraps onto a key in use, as in
  `SortKeys.FullSinkWraps`.
- The replica table agrees with the store after a node appears exactly when no old row joins that node
  to itself or to a live node (`Replica.NodeUpdateAgreesIff`); hence the no-reuse condition on runs.
  `Replica.RevivedRowDisagrees` is a run at whose end the table is wrong.
- The comment on `union` says nodes of the left operand win. They do exactly if each complete node of
  the right one that the left one has too is the same there (`BeliefGraphs.LeftWinsIff`;
  `BeliefGraphs.RightNodeWins` is a pair where one is not). It also says the right one's relations are
  all added; `BeliefGraphs.AllEdgesCarriedIff` says when they are, `BeliefGraphs.EdgeAlwaysKeptIff` which
  ones are, and `BeliefGraphs.TraceEdgesAreDropped` shows graphs that lose all of theirs.
- `StateNotIn` selects the states its predicate does not, except for id and path predicates, which
  select the same states either way unless the store is empty (`Expressions.InversionIff`).
- A cached query for states stays right under every event exactly if no node outside its result can be
  picked by it (`Cached.StaysCurrentIff`): for a list of ids, if every id was present when the entry was
  made; for predicates decided node by node almost never, since a new node may match and is not named in
  the entry (`Cached.SafeToCacheIff` has the condition for each predicate, `Cached.AllStatesGoStale` the
  plainest case). The program caches them all.
- `compute_diff` promises `NodesRemoved` for deleted subtrees; with all parsed nodes in the new base
  it never emits one (`Diffs.NothingRemoved`). `DiffReplay.ReplayAgreesIff` gives the exact condition
  for the round trip, on any two bases: a lost edge has a complete sink or goes with a removed node;
  an edge that both views have keeps every kind in scope, and a merged weight brings its own key and
  owner; an edge of a removed node that both views have is reported with all its kinds.
  `DiffReplay.LostKindStays` is a pair of bases no diff of which replays. Through the store the same
  diffs give the edges and kinds of the new view exactly if the store knows both ends of each edge by
  then (`DiffStore.StoreReplayIff`; `DiffStore.UnknownEndIsLost` loses one); sort keys may be shifted. A
  second diff re-reports parsed nodes the new base holds as Trace, for ever
  (`DiffBuild.SecondDiffNodes`).
- `to_event_stream` says it climbs to the Section roots; its loop adds nothing and the scope is the
  halo (`MergePlans.ComputeScope`).
- `BidGraph::retain` deletes exactly the rejected edges if and only if none of the last
  |rejected| - 1 edges is rejected (`EdgeArenas.RetainIsExactIff`, failing in
  `EdgeArenas.RetainMisses`); it removes from the lowest position up. `trim` removes from the top down
  and is exact. It collects the removal events and drops them: a table that agreed before still agrees
  exactly when nothing was trimmed (`EdgeArenas.TrimmedReplicaIff`, failing in
  `EdgeArenas.TrimmedRowStays`), and would agree had the events been sent
  (`EdgeArenas.SentRemovalsAgree`).
- Merging navigation trees keeps all links valid and both chains finite, but a node is among its
  parent's children only when one network owns both (`NavMerge.ParentListsChildIff`).
- Path enumeration from a network ends exactly when no network reachable from it over directory rows
  lists itself (`NetResolution.EnumerationEndsIff`; `NetResolution.OneRowDoesNotEnd` is a table for
  which it does not). It asks for rows under the network's Bid text while transactions write rows
  under its Bref text, so on a table that path events built it lists nothing
  (`NetResolution.StoredPathsAreNotListed`). Enumerating those tables by the key they are stored under
  gives paths that all resolve back (`NetResolution.StoredRoundTrip`); the code's own enumeration
  equals that one exactly when the network has no row to list
  (`NetResolution.EnumerationIsExpansionIff`; `NetResolution.StoredPathIsMissed` has one).
- Committed, batched and in-flight events are what was sent, in order, exactly as long as no event was
  lost to a failure (`Pipeline.InOrderIff`).
- `commit_generation` is said to rise only when the channel is empty and the compiler idle, after a
  successful commit. It rises after a failed commit too (`Pipeline.FailedCommitCounts`). What was sent
  before the idle signal a rise has observed has always left the channel, and is committed, in order,
  exactly if none of it was lost to a failure (`Pipeline.BumpsAreCovered`). A rise can meet a busy compiler
  and an unread event in the channel from every state from which the counter can rise at all
  (`Pipeline.BusyRiseIff`), and one compile can raise it twice (`Pipeline.OneCompileCountsTwice`).
- `wait_for_idle` promises a parse that began after the call; it can return without one exactly from
  the states of `Pipeline.RiseWithoutWakeIff`, and without the compiler going idle again exactly from
  those of `Pipeline.RiseWithoutIdleIff`. Either way at most four rises come for nothing
  (`Pipeline.RisesNeedWake`, `Pipeline.RisesNeedIdle`), and four can (`Pipeline.FourRises`).
- `wait_for_idle` registers for announcements after it has looked at the counter. It misses a rise
  exactly if the rise is announced in between (`Waiter.MissesIff`), and then sleeps until another one or
  its deadline (`Waiter.MissedNeedsRise`). `Waiter.ReturnsIff` says from which states it can return
  without another rise.
- A shard text that does not parse still unloads the old copy of that shard
  (`Shards.ShardedBase.LoadShard`). One that parses keeps the balance of nodes and shards exactly when
  every key it lists is then a node (`Shards.LoadBalancedIff`): a node filed under another id is
  recorded but never stored (`Shards.MisfiledUnbalances`).

## Model

| member | source | states |
|---|---|---|
| BeliefStore.ProcessingKeepsValid | src/beliefbase/base.rs:1089-1188 | every event keeps edge endpoints known, and keeps a store without orphans free of them |
| SortKeys.ContiguousIsInitialSegment | src/beliefbase/base.rs:1501-1605 | keys that are present, distinct and below their number are exactly 0..N-1, and N is at most 65536 |
| SortKeys.RenumberingCloses | src/beliefbase/base.rs:1519-1605 | renumbering a sink with distinct keys closes every gap and keeps the order of its edges |
| SortKeys.NextKeyIsCount | src/beliefbase/base.rs:1395-1421 | the key generated for a contiguous sink is its number of edges, in u16 arithmetic |
| SortKeys.InsertContiguousIff | src/beliefbase/base.rs:1395-1421 | an insert keeps a sink contiguous exactly if it had fewer than 65536 edges of the kind |
| SortKeys.StepContiguousIff | src/beliefbase/base.rs:1089-1188 | an event that leaves keys to the store keeps every sink contiguous exactly when there is room |
| SortKeys.FullSinkWraps | src/beliefbase/base.rs:1395-1421 | a store with 65536 edges into one sink and the insert after which its keys are not contiguous |
| SortKeys.RunsStayContiguous | src/beliefbase/base.rs:1443-1605 | over whole runs each sink's keys per kind are exactly {0..N-1} |
| SortKeys.RunsKeepOrder | src/beliefbase/base.rs:1519-1605 | edges that survive a run keep their relative order |
| SortKeys.RemovalKeepsContiguous | src/beliefbase/base.rs:1249-1303 | removing any set of nodes keeps contiguity and order at every surviving sink |
| Replica.CatchesUp | src/beliefbase/base.rs:1575-1605 | the change events of a renumbering bring an agreeing table to agree again |
| Replica.StepAgreesIff | src/db.rs:129-187 | table and store agree after one event exactly unless a revived node has old rows |
| Replica.NodeUpdateAgreesIff | src/db.rs:278-313 | exact condition for a node that becomes live |
| Replica.RevivedRowDisagrees | src/db.rs:129-187 | a run: an edge is written, its source removed and brought back, and the table is wrong |
| Replica.RunsAgree | src/db.rs:129-187 | over runs with live endpoints and no reused ids the table equals the store's edges on live nodes |
| SlotGraphs.AddNodeRepresents | src/beliefbase/base.rs:365-436 | a new slot changes no edge between ids |
| SlotGraphs.RemoveNodeArc | src/beliefbase/base.rs:1285-1290 | which arc of the old graph an arc of the shrunk graph is |
| SlotGraphs.RemoveNodeRepresents | src/beliefbase/base.rs:1285-1290 | moving the last slot into the hole keeps exactly the edges away from the removed node |
| Renumbering.SortByKey | src/beliefbase/base.rs:1551-1566 | the sort lists the same items, each source once, by ascending key, equal keys in their order of arrival |
| Renumbering.KindShifts | src/beliefbase/base.rs:1551-1573 | exactly the sources whose position differs from their key get that position |
| Renumbering.ComputeShifts | src/beliefbase/base.rs:1519-1573 | all affected kinds of one sink together |
| BeliefBases.ShiftedIsReindexed | src/beliefbase/base.rs:1575-1605 | writing the shifts back renumbers the sink and touches nothing else |
| BeliefBases.ReindexAlso | src/beliefbase/base.rs:1249-1303 | renumbering sink after sink amounts to renumbering them all |
| BeliefBases.BeliefBase.FromGraph | src/beliefbase/base.rs:292-322 | a new store has a sound table and holds the given states and edges |
| BeliefBases.BeliefBase.IndexSync | src/beliefbase/base.rs:365-436 | the rebuilt table maps each id to a slot holding it, covers every state and changes no content |
| BeliefBases.BeliefBase.BidToIndex | src/beliefbase/base.rs:437-442 | an id has a slot exactly if it is known, and the slot holds it |
| BeliefBases.BeliefBase.InsertState | src/beliefbase/base.rs:1193-1247 | the whole new store; the table is dirty afterwards if it was, or if the node is new or differs |
| BeliefBases.BeliefBase.ReindexSinkEdges | src/beliefbase/base.rs:1519-1605 | the sink is renumbered and one event is returned per changed edge |
| BeliefBases.BeliefBase.UpdateRelation | src/beliefbase/base.rs:1443-1515 | the edge is written and the kinds it loses are renumbered at its sink |
| BeliefBases.CollectSinkKinds | src/beliefbase/base.rs:1257-1276 | the sinks and kinds that lose an edge, read before the graph changes |
| BeliefBases.RetainNodes | src/beliefbase/base.rs:1285-1290 | visiting slots from last to first removes exactly the given nodes |
| BeliefBases.BeliefBase.RemoveNodes | src/beliefbase/base.rs:1249-1303 | states, nodes and edges go, every surviving sink is renumbered, the events say how |
| BeliefBases.LargestKey | src/beliefbase/base.rs:1395-1421 | the largest key of a kind into a sink, if there is one |
| BeliefBases.BeliefBase.GenerateEdgeUpdate | src/beliefbase/base.rs:1305-1437 | the weights a change resolves to, or that it changes nothing |
| BeliefBases.BeliefBase.ProcessEvent | src/beliefbase/base.rs:1089-1188 | every event takes the store through the specified step; only malformed nodes fail |
| BeliefBases.BeliefBase.ReadRelations | src/beliefbase/base.rs:443-456 | the slot graph read back as edges between ids |
| Effects.WeightIsMerged | src/beliefbase/base.rs:1305-1437 | a change merges its weight into the one present: paths add up, a given owner, key or payload entry wins over the old one, everything else stays |
| Effects.WeightIsAdded | src/beliefbase/base.rs:1305-1437 | for a kind the edge lacks the weight is taken as it is, with the largest key into the sink plus one if it had none |
| Effects.KindIsRemoved | src/beliefbase/base.rs:1305-1437 | without a weight exactly that kind goes, the edge with its last one, and only keys of that kind into the sink may move |
| Effects.AbsentKindStays | src/beliefbase/base.rs:1423-1437 | removing a kind the edge does not have changes nothing |
| Effects.EdgeIsReplaced | src/beliefbase/base.rs:1443-1515 | an update replaces the weights of its edge and may move only keys of the lost kinds at its sink |
| Effects.EdgeIsRemoved | src/beliefbase/base.rs:1443-1515 | a removal deletes its edge and no other |
| Effects.NodesAreRemoved | src/beliefbase/base.rs:1249-1303 | exactly the states, nodes and edges of the given ids go; only keys of a kind lost at the sink may move |
| Effects.NodeIsFiled | src/beliefbase/base.rs:1193-1247 | a node is filed under its own id, nothing else changes |
| Effects.IgnoredEvents | src/beliefbase/base.rs:1089-1188 | Local and malformed events and relation events with an unknown end change nothing |
| Effects.ChangesAreTold | src/beliefbase/base.rs:1575-1605 | every other edge whose weights an event changes is told as a Local update, and nothing else is but the update a change resolves to |
| Reachability.DepthFirstSearch | src/beliefbase/graph.rs:434-536 | the search discovers exactly the nodes some path reaches from a seed |
| BeliefGraphs.MergeBounds | src/beliefbase/graph.rs:434-589 | every connected node with a state is added, nothing from outside both graphs, no orphan |
| BeliefGraphs.EdgeAlwaysKeptIff | src/beliefbase/graph.rs:520-569 | exactly which right-hand edges survive for every storage order |
| BeliefGraphs.AllEdgesCarriedIff | src/beliefbase/graph.rs:434-589 | for every storage order all right-hand edges come through exactly if each is kept or already there |
| BeliefGraphs.TraceEdgesAreDropped | src/beliefbase/graph.rs:571-589 | uniting nothing with a graph of Trace nodes drops all its edges |
| BeliefGraphs.LeftWinsIff | src/beliefbase/graph.rs:571-589 | the left nodes come through a union unchanged exactly if no complete right node differs from one |
| BeliefGraphs.RightNodeWins | src/beliefbase/graph.rs:571-589 | two graphs where one does |
| BeliefGraphs.UnionOrphanFree | src/beliefbase/graph.rs:575-632 | each kind of union with any graph leaves an orphan-free graph orphan-free |
| BeliefGraphs.SetOperationsOrphanFree | src/beliefbase/graph.rs:633-700 | intersection and both differences never leave an orphan |
| BeliefGraphs.UnionNodes | src/beliefbase/graph.rs:571-601 | complete right nodes and else left ones come out as they are; any other node is a right one chained to those |
| BeliefGraphs.UnionWithTraceNodes | src/beliefbase/graph.rs:614-632 | every node of both comes out, the right one unless it is the Trace of a complete left one |
| BeliefGraphs.IntersectionNodes | src/beliefbase/graph.rs:633-663 | the nodes complete on both sides come out with the left value; any other is chained to one by edges of the operands; without edges there is none |
| BeliefGraphs.DifferenceNodes | src/beliefbase/graph.rs:664-693 | the same around the nodes complete on the left and not on the right |
| BeliefGraphs.SymmetricDifferenceNodes | src/beliefbase/graph.rs:694-702 | the nodes complete on exactly one side come out with that value; without edges there is no other |
| GraphEdges.UnionEdges | src/beliefbase/graph.rs:571-601 | right edges around the nodes it starts with come out with the right weights, left edges stay, nothing else appears; right nodes below or above come too |
| GraphEdges.UnionFromEdges | src/beliefbase/graph.rs:602-613 | the same edges, with the nodes below or above the given ids |
| GraphEdges.UnionWithTraceEdges | src/beliefbase/graph.rs:614-632 | the same edges around every node of both |
| GraphEdges.IntersectionEdges | src/beliefbase/graph.rs:633-663 | edges of either operand around the nodes complete on both sides come out, shared ones with the right weights, with the nodes below or above; no other edge does |
| GraphEdges.DifferenceEdges | src/beliefbase/graph.rs:664-693 | the same around the nodes complete on the left only |
| GraphEdges.SymmetricDifferenceEdges | src/beliefbase/graph.rs:694-702 | edges around a node complete on one side only come out, on the right side with the left weights; no other edge does |
| BeliefGraphs.UnionIsOverride | src/beliefbase/graph.rs:434-601 | union with a complete, orphan-free, loop-free graph is map override |
| BeliefGraphs.UnionLaws | src/beliefbase/graph.rs:434-601 | such unions are idempotent and associative |
| BeliefGraphs.UnionCommutesIff | src/beliefbase/graph.rs:434-601 | and commute exactly if the operands agree where they overlap |
| GraphStore.TraversalsFindConnected | src/beliefbase/graph.rs:434-536 | one search per direction finds everything connected to the seeds |
| GraphStore.BeliefGraph.AddRelations | src/beliefbase/graph.rs:434-566 | two searches and one edge pass merge the relations |
| GraphStore.BeliefGraph.UnionMut | src/beliefbase/graph.rs:581-601 | the whole new graph is a union of the old one and the operand |
| GraphStore.BeliefGraph.UnionMutFrom | src/beliefbase/graph.rs:602-613 | the same with given seeds |
| GraphStore.BeliefGraph.UnionMutWithTrace | src/beliefbase/graph.rs:614-632 | a Trace node never replaces a complete one |
| GraphStore.BeliefGraph.IntersectionMut | src/beliefbase/graph.rs:633-663 | nodes complete on both sides, with the relations of both merged in |
| GraphStore.BeliefGraph.DifferenceMut | src/beliefbase/graph.rs:664-693 | nodes complete on the left only, with the relations of both merged in |
| GraphStore.BeliefGraph.SymmetricDifferenceMut | src/beliefbase/graph.rs:694-702 | the union of the two differences |
| Expressions.Evaluate | src/beliefbase/base.rs:1961-2185 | both evaluators, operator by operator, give a graph the query may evaluate to |
| Answers.StateAnswer | src/beliefbase/base.rs:2036-2096 | a query for states, predicate by predicate: the picked nodes, every edge touching one, the other ends as Trace |
| Answers.TraceAnswer | src/beliefbase/base.rs:1961-2016 | as a trace: picked nodes and the sinks of their edges of the kinds, all as Trace, and those edges |
| Answers.EdgeAnswer | src/beliefbase/base.rs:2097-2172 | a query for edges, predicate by predicate: the matching edges with both ends as Trace |
| Answers.CombinedAnswer | src/beliefbase/base.rs:2173-2185 | which nodes each operator keeps of the answers of its parts |
| Expressions.QueriesOrphanFree | src/beliefbase/base.rs:1961-2185 | by induction on the query the result is orphan-free, whatever the path lookups return |
| Expressions.InversionIff | src/beliefbase/base.rs:1868-1948 | inverting a predicate selects the other states, except for id and path predicates on a store with states |
| Balance.RunBalance | src/query.rs:616-660 | the loop is a run: each round evaluates the pending sinks, until settled or cut off |
| Balance.AsksIff | src/query.rs:616-660 | the loop asks at all exactly if some edge of the start, of any kind, ends at a node none leads on from; else it changes nothing |
| Balance.DanglingIsFollowed | src/query.rs:616-660 | every Section edge of the store that leaves such a node, loops aside, is in the result |
| Balance.RunAdds | src/query.rs:616-660 | what a run adds: nodes of the store as Trace, Section edges of the store; what was there stays |
| Balance.CutOffAfterEleven | src/query.rs:616-660 | at most eleven evaluations, and exactly eleven when cut off |
| Balance.RoundIsClimb | src/beliefbase/graph.rs:732-788 | on orphan-free graphs a round is a function of graph and query |
| Balance.RoundAddsLeaving | src/beliefbase/base.rs:1968-1993 | a round adds exactly the Section edges leaving the queried ids |
| Balance.SettledIsBalanced | src/query.rs:616-660 | when the loop settles, and the start had such a dangling edge, no Section sink of the result has an outgoing Section edge in the store |
| Balance.BalanceConverges | src/query.rs:616-660 | with Section height at most 9 it settles in at most that height plus two calls, all sinks being roots if the start had a dangling edge |
| Balance.CutOffComesCloser | src/query.rs:616-660 | over acyclic stores of any height each sink a run from a dangling edge leaves is a root or ten levels closer to one |
| Cached.RunsAreEqual | src/query.rs:616-660 | a balance run is determined by its first graph |
| Cached.ResultIsDetermined | src/query.rs:672-780 | a query for states has one result |
| Cached.ResultFrame | src/query.rs:616-660 | a result outside which nothing can be picked depends only on states and edges among its own ids and on no new edge touching them |
| Cached.EventConfined | src/beliefbase/cached.rs:213-242 | everything an event changes is at an id that it or a derivative names |
| Cached.SurvivorIsCurrent | src/beliefbase/cached.rs:147-154 | such an entry, named by no event or derivative, equals a fresh evaluation after the event |
| Cached.StaysCurrentIff | src/beliefbase/cached.rs:263-290 | a query for states stays right under every event exactly if no node outside its result can be picked |
| Cached.SafeToCacheIff | src/beliefbase/cached.rs:263-290 | that condition for each predicate on states: ids all present, or, node by node, nothing new can match |
| Cached.AllStatesGoStale | src/beliefbase/cached.rs:263-290 | a cached query for all states is out of date with the next new node |
| Cached.CachedBeliefSource.EvalQuery | src/beliefbase/cached.rs:263-290 | a hit is answered from the table, a miss evaluated and kept; either way the answer is current if no node outside it can be picked, and so for present ids |
| Cached.CachedBeliefSource.EvictAffected | src/beliefbase/cached.rs:147-154 | an entry stays, unchanged, exactly if none of its ids is affected; no entry appears |
| Cached.CachedBeliefSource.InvalidateForEvents | src/beliefbase/cached.rs:213-242 | the ids of all events are collected before evicting |
| Cached.CachedBeliefSource.Deliver | src/beliefbase/cached.rs:213-242 | an event and its derivatives reach the store and the table, and every entry stays sound |
| CachedAnswers.AffectedIs | src/beliefbase/cached.rs:213-242 | the affected ids: of an updated node, among removed ones, or at either end of a relation event |
| CachedAnswers.StaysIff | src/beliefbase/cached.rs:147-154 | after a batch an entry is there, unchanged, exactly if no event carries one of its ids |
| CachedAnswers.ResultIs | src/query.rs:672-780 | a query that finds nothing returns nothing, or its edges; else everything found, followed from its dangling nodes, with store nodes as Trace and Section edges added |
| Diffs.BuildView | src/beliefbase/base.rs:566-609 | the guarded edge scan yields exactly the edges with a weight in scope |
| Diffs.FindRemoved | src/beliefbase/base.rs:613-635 | the pruned search finds missing nodes below missing parsed nodes with only missing ones between |
| Diffs.NothingRemoved | src/beliefbase/base.rs:617-631 | with every parsed node in the new base nothing is removed |
| Diffs.ReplayedEdge | src/beliefbase/base.rs:636-796 | what replaying leaves of each edge, for any two bases |
| DiffBuild.ListChanges | src/beliefbase/base.rs:774-793 | exactly the kinds of common edges whose weight is not there already |
| DiffBuild.ComputeDiff | src/beliefbase/base.rs:556-796 | the event list: removed nodes, changed nodes, lost edges, new edges, changed weights; a lost edge is in it exactly if the old base has its sink without Trace |
| DiffEvents.NodesReported | src/beliefbase/base.rs:613-645 | a removal lists, once each, exactly the nodes that go: below a missing parsed node by missing nodes only |
| DiffEvents.NodesAreReported | src/beliefbase/base.rs:613-645 | and every such node is in one |
| DiffEvents.UpdatesReported | src/beliefbase/base.rs:646-669 | a node is reported exactly if it is parsed, in the new base, and missing or different in the old one, Trace aside |
| DiffEvents.LossesReported | src/beliefbase/base.rs:725-747 | a lost edge is reported exactly if the old base has its sink without Trace |
| DiffEvents.NewEdgesReported | src/beliefbase/base.rs:748-772 | an edge is reported as new exactly if the new view shows it and the old one does not, with its weights in scope |
| DiffEvents.WeightsReported | src/beliefbase/base.rs:774-793 | a kind of a common edge is reported exactly if the old view lacks it or has another key |
| DiffEvents.EventsInOrder | src/beliefbase/base.rs:636-796 | removed nodes, changed nodes, lost edges, new edges, changed weights, in that order |
| DiffBuild.ReplayedStates | src/beliefbase/base.rs:636-669 | the states after replaying a diff |
| DiffBuild.SecondDiffNodes | src/beliefbase/base.rs:646-669 | diffing again reports exactly the parsed nodes the new base holds as Trace |
| DiffReplay.EdgeAgreesIff | src/beliefbase/base.rs:556-796 | one edge ends as in the new view exactly when it is replayable |
| DiffReplay.ReplayAgreesIff | src/beliefbase/base.rs:556-796 | the replayed view equals the new one if and only if every edge is replayable |
| DiffReplay.LostKindStays | src/beliefbase/base.rs:774-793 | two bases no diff of which replays: an edge loses one kind and keeps another |
| DiffReplay.NothingLeftToRemove | src/beliefbase/base.rs:613-641 | after replaying no unparsed node is left to remove |
| DiffReplay.SecondDiffIsQuiet | src/beliefbase/base.rs:556-796 | a second diff then has no relation event and removes nothing |
| DiffStore.StoreReplaysAlike | src/beliefbase/base.rs:1089-1188 | replayed through the store, renumbering included, a diff leaves what it leaves on plain maps, sort keys aside |
| DiffStore.StoreReplayIff | src/beliefbase/base.rs:556-796 | the store then shows the new view's edges and kinds exactly if it knows both ends of each edge |
| DiffStore.UnknownEndIsLost | src/beliefbase/base.rs:1443-1515 | a diff and a run in which it does not |
| SectionWalks.WalkFrom | src/beliefbase/graph.rs:1031-1052 | visiting a node reports each undiscovered child once and closes what it discovers |
| SectionWalks.SectionWalk | src/beliefbase/graph.rs:1020-1052 | the walk reports each reachable child once, after the edge that found its parent |
| MergePlans.ComputeScope | src/beliefbase/graph.rs:900-972 | the balance loop takes one turn at most and the scope is the halo's nodes with states |
| MergePlans.NodeOps | src/beliefbase/graph.rs:974-996 | exactly the nodes in scope that the base lacks or holds as Trace, by ascending key, whatever key a node is filed under |
| MergePlans.ToEventStream | src/beliefbase/graph.rs:886-1083 | node upserts, then the Section walk, then every other edge that is news |
| MergePlans.MergeIsExact | src/beliefbase/graph.rs:1004-1080 | each edge in scope is emitted exactly once or is already there with equal keys, no other edge is |
| MergePlans.ParentsComeFirst | src/beliefbase/graph.rs:1020-1052 | a walked edge follows the one that found its parent, unless the parent is nobody's child |
| MergeContents.ScopeIs | src/beliefbase/graph.rs:900-972 | without seeds every node is in scope, with seeds those that are seeds or share an edge with one |
| MergeContents.PlannedNodes | src/beliefbase/graph.rs:974-996 | a node is upserted exactly if it is in scope and the base lacks its id or holds it as Trace |
| MergeContents.NodesComeFirst | src/beliefbase/graph.rs:974-1002 | the nodes come before the edges, by ascending key |
| MergeContents.PlannedEdges | src/beliefbase/graph.rs:1004-1080 | each edge at most once, with its weights, only if an end is in scope; for sure if the base does not have it with equal kinds and keys, else only as a Section edge |
| MergeContents.WalkCovers | src/beliefbase/graph.rs:1020-1052 | the walk finds, once each, exactly the nodes below a parent that is nobody's child |
| MergeContents.ChildIsSent | src/beliefbase/graph.rs:1020-1052 | each of them has a Section edge updated |
| MergeContents.OneIsResent | src/beliefbase/graph.rs:1020-1080 | and no two edges the base has already |
| Merging.UpdateSetsWeights | src/beliefbase/base.rs:1443-1515 | one relation update sets the weights of its own edge and of no other, sort keys aside |
| Merging.ApplyNodes | src/beliefbase/base.rs:1759-1783 | the node pass writes the planned states and marks the table dirty exactly if an operation changes a node |
| Merging.PlanApplied | src/beliefbase/base.rs:1753-1795 | which states and edges a plan amounts to; of several nodes with one id the highest key wins |
| Merging.MergeOfWellKeyed | src/beliefbase/base.rs:1759-1771 | with nodes under their own ids each node in scope that the base lacks or holds as Trace is taken |
| Merging.MergeGraph | src/beliefbase/base.rs:1753-1815 | states as planned, then the planned relation updates one after another, keys included; every written edge has the weights of the merged graph, sort keys aside, and every other what it had |
| Shards.UnionWithout | src/wasm.rs:788-798 | dropping a shard leaves the ids of the others |
| Shards.UnloadBalanced | src/wasm.rs:773-823 | unloading keeps the nodes equal to those of loaded shards and never-listed initial ones |
| Shards.LoadBalancedIff | src/wasm.rs:736-742 | loading keeps the same balance exactly when every listed id is then a node |
| Shards.OwnKeysStayBalanced | src/wasm.rs:712-742 | which it is for every shard that files nodes under their own ids |
| Shards.MisfiledUnbalances | src/wasm.rs:712-742 | a shard that breaks it: its node is filed under another id |
| Shards.ShardedBase.UnloadShard | src/wasm.rs:773-823 | the store loses exactly the nodes no other loaded shard lists, with their edges, and is renumbered |
| Shards.ShardedBase.LoadShard | src/wasm.rs:660-752 | the old copy goes first; then its nodes replace missing and Trace ones, its edges between nodes have its kinds and weights or were there with equal keys, all others stay; or a parse failure leaves it unloaded |
| Shards.SharedNodeSurvives | src/wasm.rs:787-798 | a node another loaded shard lists survives unloading one of them |
| EdgeArenas.SwapRemoveMultiset | src/beliefbase/base.rs:1855-1863 | one removal deletes one edge, whatever moves |
| EdgeArenas.TrimIsExact | src/beliefbase/base.rs:1826-1864 | removing the marks from the top down leaves exactly the surviving edges |
| EdgeArenas.EdgeArena.Trim | src/beliefbase/base.rs:1826-1864 | exactly the edges with an endpoint outside the retained set are gone; the unsent events name exactly those |
| EdgeArenas.TrimHolds | src/beliefbase/base.rs:1826-1864 | an array that held a store's edges then holds those between retained ids |
| EdgeArenas.TrimmedReplicaIff | src/beliefbase/base.rs:1855-1864 | a table that agreed before a trim agrees after it exactly when every edge was retained |
| EdgeArenas.TrimmedRowStays | src/beliefbase/base.rs:1855-1864 | one trimmed edge after which the table disagrees |
| EdgeArenas.SentRemovalsAgree | src/beliefbase/base.rs:1855-1864 | had the collected removals been sent, the table would agree with the trimmed store |
| EdgeArenas.RetainIsExactIff | src/beliefbase/graph.rs:142-161 | removing from the bottom up is exact if and only if the last rejected position stays in range |
| EdgeArenas.RetainMisses | src/beliefbase/graph.rs:142-161 | two rejected edges of which one survives |
| EdgeArenas.EdgeArena.Retain | src/beliefbase/graph.rs:142-161 | what the loop leaves, and when that is right |
| NavTree.NetworkIsForest | src/wasm.rs:1531-1621 | in one network parent and children are inverse, parents come first, each node is listed once and in order |
| NavTree.StackMirrors | src/wasm.rs:1577-1620 | the stack holds exactly the entries that enclose the current position |
| NavTree.ParentIsNearest | src/wasm.rs:1577-1620 | every node hangs under the nearest enclosing entry, repeated ids or not |
| NavTree.NearestIsSmaller | src/wasm.rs:1531-1621 | without repeats that is the latest earlier entry of strictly smaller depth |
| NavTree.NodesAreListed | src/wasm.rs:1531-1575 | the nodes are the network and the ids of its entries, gateway aliases and the network itself aside |
| NavTree.ParentByLevel | src/wasm.rs:1531-1621 | without repeats an entry hangs under the latest one before it of a smaller level, anchors counting one level up |
| NavMerge.ParentExists | src/wasm.rs:1622-1637 | in the merged tree every parent exists and the climb makes progress |
| NavMerge.ChildExists | src/wasm.rs:1622-1637 | and every child exists and the descent makes progress |
| NavMerge.ParentsAcyclic | src/wasm.rs:1622-1637 | no chain of parents returns to its start |
| NavMerge.ChildrenAcyclic | src/wasm.rs:1622-1637 | no chain of children returns to its start |
| NavMerge.ParentListsChildIff | src/wasm.rs:1622-1637 | a node is among its parent's children exactly when one network owns both |
| NavMerge.MergeCanDropChild | src/wasm.rs:1622-1637 | two networks after which it is not |
| NavMerge.RootsAreTops | src/wasm.rs:1452-1495 | with subnets excluded every root has no parent |
| NavMerge.RootsAre | src/wasm.rs:1452-1495 | the roots are, in table order, the networks that resolve, are not reserved and lie below no other such one |
| NavMerge.RepairsAreIdle | src/wasm.rs:1625-1635 | neither repair made while merging ever finds anything |
| NavMerge.FileEntry | src/wasm.rs:1531-1621 | one entry: pop, skip repeats, hang under the top of the stack |
| NavMerge.BuildNetwork | src/wasm.rs:1531-1621 | the stack loop builds the specified tree |
| NavMerge.FindSubnets | src/wasm.rs:1452-1481 | exactly the networks below another one |
| NavMerge.GetNavTree | src/wasm.rs:1441-1643 | the roots in table order and their trees merged in that order |
| NavViewer.AncestorsAreChains | assets/viewer/navigation.js:211-219 | the ancestors of a node are the ends of its parent chains |
| NavViewer.Viewer.ExpandAncestors | assets/viewer/navigation.js:211-219 | the unguarded loop ends and adds exactly the ancestors |
| NavViewer.RenderFaultless | assets/viewer/navigation.js:285-368 | rendering meets no cycle, no self-reference and no missing node |
| NavViewer.PageMirrorsTree | assets/viewer/navigation.js:285-368 | down to depth 50 there is an item per node with its children in order, below that a marker |
| NavViewer.TruncatedIff | assets/viewer/navigation.js:285-368 | the depth limit cuts a page exactly when a longer chain of children hangs below |
| NetPaths.CallShrinks | src/db.rs:523-537 | without a self-listing each recursive call leaves fewer networks unprocessed |
| NetPaths.SpliceBlock | src/db.rs:548-562 | replacing one block splices the flat list |
| NetPaths.OffsetAfter | src/db.rs:556-562 | and shifts exactly the positions behind it |
| NetPaths.Splice | src/db.rs:537-563 | the splice with shifted indices is in-place replacement of one row |
| NetPaths.GetAllPaths | src/db.rs:469-566 | the loop yields each row in order, the first one of a non-empty sub-network replaced by its paths |
| NetPaths.ListedRow | src/db.rs:481-508 | a row is listed exactly if it has a path and a target and is no index row, or those are asked for |
| NetPaths.ListedInOrder | src/db.rs:481-508 | rows are listed in table order |
| NetPaths.PathsUnfold | src/db.rs:469-566 | what each row contributes, and which networks count as processed in the call for its own |
| NetResolution.EnumerationEndsIff | src/db.rs:469-566 | calls from a network nest boundedly exactly when no network reachable from it lists itself |
| NetResolution.OneRowDoesNotEnd | src/db.rs:469-566 | a table with one row on which they do not |
| NetResolution.JoinedResolves | src/db.rs:359-376 | a path below a sub-network's directory resolves inside it |
| NetResolution.ListedResolves | src/db.rs:341-379 | every enumerated path resolves back to the id it was listed with |
| NetResolution.RowResolves | src/db.rs:341-358 | a path with a row is that row's target |
| NetResolution.SegmentResolves | src/db.rs:359-376 | otherwise the first segment's target resolves the rest |
| NetResolution.NothingResolves | src/db.rs:341-379 | a path without a row and whose first segment has none is nobody's |
| NetResolution.StoredTable | src/db.rs:244-277 | path events keep paths unique per network and file rows under Bref texts |
| NetResolution.StoredRows | src/db.rs:244-277 | a written path replaces the row of that path in its network, removed paths lose theirs, nothing else changes |
| NetResolution.StoredRoundTrip | src/db.rs:341-379 | on a table path events built, every path enumerated by stored key resolves back to its id |
| NetResolution.EnumerationIsExpansionIff | src/db.rs:481-486 | on such a table the code's enumeration equals that one exactly when the network has no row to list |
| NetResolution.StoredPathIsMissed | src/db.rs:481-486 | one stored path that is not enumerated |
| NetResolution.StoredPathsAreNotListed | src/db.rs:481-486 | on such a table enumeration finds nothing |
| Pipeline.StepInOrder | src/watch.rs:1064-1172 | a step after which nothing is lost keeps what is committed, batched and in flight in sending order |
| Pipeline.StepSettles | src/watch.rs:1064-1172 | every step, failing or not, leaves the latest events in the channel and accounts for the earlier ones |
| Pipeline.RunsSafe | src/watch.rs:870-1048 | in every interleaving, while nothing is lost, committed, batched and in flight is what was sent, in order |
| Pipeline.InOrderIff | src/watch.rs:1064-1172 | in every run that holds exactly when nothing was lost |
| Pipeline.BumpsAreCovered | src/watch.rs:1092-1163 | at every rise, failures included, what was sent before the observed signal has left the channel, and is committed in order exactly if none of it is lost |
| Pipeline.ObservedIsSignal | src/watch.rs:1031-1036 | what a rise observes is a stored idle flag or an idle notification |
| Pipeline.RunsConserve | src/watch.rs:1064-1172 | with failures too each event is in exactly one of channel, batch, database and lost |
| Pipeline.FailedCommitCounts | src/watch.rs:1092-1118 | the counter rises after a failed commit |
| Pipeline.StagingEndsCommits | src/watch.rs:1064-1134 | once an event could not be staged nothing is committed or counted any more, and what is sent stays in the channel |
| Pipeline.OneCompileCountsTwice | src/watch.rs:452-490 | one compile raises the counter twice |
| Pipeline.BusyRiseIff | src/watch.rs:1110-1166 | a rise can meet a busy compiler, and an unread event, exactly from the states in which the transaction task lives |
| Pipeline.RiseWithoutIdleIff | src/watch.rs:452-490 | from which states the counter can rise without the compiler going idle again |
| Pipeline.RiseWithoutWakeIff | src/watch.rs:452-490 | from which states it can rise without a new parse beginning |
| Pipeline.RisesNeedIdle | src/watch.rs:452-490 | more than four rises need the compiler to go idle again |
| Pipeline.RisesNeedWake | src/watch.rs:452-490 | more than four rises need a new parse to begin |
| Pipeline.FourRises | src/watch.rs:452-490 | four need neither |
| Waiter.ReturnsAfterRise | src/watch.rs:472-486 | a waiter that returned has seen the counter above its snapshot |
| Waiter.ReturnsIff | src/watch.rs:472-486 | from which states it can return without another rise |
| Waiter.MissesIff | src/watch.rs:477-483 | it misses a rise exactly if that is announced between its check and its registration |
| Waiter.MissedNeedsRise | src/watch.rs:477-483 | it then sleeps through everything but another rise, which releases it |
| Waiter.RiseIsMissed | src/watch.rs:477-483 | from every beginning a rise can be missed |

## Left out

- Node renaming (`replace_bid`) and updates keyed by another node: they drop Section weights and do not renumber, so the run theorems do not hold across them.
- `PathMapMap`, `AnchorPath`, `pathmap_order` and path events of the store: path lookups are arbitrary functions, and the new edges of a diff come in any order.
- Free-form payloads of nodes, and with them the payload comparison of `compute_diff`.
- SQL evaluation of expressions: its kind predicate is the reverse of the in-memory one (`src/query.rs:326` and `src/query.rs:387-397`).
- Traversal options of `eval_query` and pagination.
- The text of SQL statements, migrations, file times, file watching and the debouncer.
- Titles, display paths and HTML attributes of the navigation tree.
- Insertion into the cache racing an invalidation: miss, evaluation and insertion are one step.
- Locks, broadcast to subscribers and shutdown of the pipeline tasks.
- Renumbering does not say which of two equal sort keys comes first, since the graph library's edge order is open.
- `built_in_test`, `is_balanced` and the error list: reporting only.
- `AnchorPath::join` (`src/paths/path.rs:737-762`) on anchors, dot segments and directories that name a file: the join is a parameter that must put a slash between a one-segment directory and a normalised relative path, and `NetResolution.JoinPathIsPlain` says the branches for those paths do.
- DiffReplay.ReplayAgreesIff: replays on plain maps; `DiffStore` replays through the store, but does not say which sort keys renumbering shifts.
- Cached.SafeToCacheIff: queries by path, whose lookups events change, queries on edges and combined queries are not covered.
- GraphStore.BeliefGraph.UnionMut: nodes are filed under their map keys, where the source files the right operand's under their own ids; the two differ on a graph whose keys are not the ids inside.
- GraphStore.BeliefGraph.UnionMutWithTrace: the same.
- Expressions.Evaluate: the same for queries by id, whose results the source files under the ids inside.
- DiffBuild.ComputeDiff: new edges come in any order, where the source follows the path map, and node payloads are not compared.
- GraphStore.BeliefGraph.UnionMutFrom: an isolated graph node given as a seed is copied by the source; a model graph has no node without a state or an edge.
- GraphStore.BeliefGraph.AddRelations: the same isolated seeds are not in the result.
- BeliefBases.BeliefBase.FromGraph: the API node is not injected and no path map is built.
- BeliefBases.BeliefBase.InsertState: updates keyed by another node, which rename or merge nodes, are not modelled.
- BeliefBases.BeliefBase.ProcessEvent: the same updates, and the path events among the derivatives, are not modelled.
- Cached.CachedBeliefSource.EvalQuery: queries with a neighbour traversal are not modelled.
- NavMerge.FileEntry: the title, display path and kind flags of the node are not modelled.
- NavMerge.BuildNetwork: titles, display paths and kind flags of the entries are not modelled.
- NavMerge.GetNavTree: the same fields of the merged nodes are not modelled.
