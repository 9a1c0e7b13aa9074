/**
 The compile-and-commit pipeline of src/watch.rs as a step system: the compiler task sends events
 and declares itself idle, the transaction task drains the channel into batches, commits them and
 counts completed cycles. Every atomic action of either task is one step; all interleavings count.
 */
module Pipeline {
  import opened Properties

  datatype Compiler =
    | Waiting      // blocked on the work notifier
    | Busy
    | Flagged      // stored compiler_idle = true, has not called notify_one yet

  datatype Txn =
    | Select
    // Branch A: an event was received
    | DrainA | CommitA | CheckIdle
    | CheckEmpty(observed: nat)
    | BumpA(observed: nat)
    // Branch B: the idle permit was taken
    | DrainB(observed: nat) | CommitB(observed: nat) | BumpB(observed: nat)
    | Dead         // an event could not be staged and the transaction task ended

  /**
   `channel` and `batch` hold events on their way; `sent` and `lost` are history. `idleMark` and
   `permitMark` record how many events were sent before the latest idle flag and idle permit.
   */
  datatype State<Event> = State(
    compiler: Compiler, txn: Txn,
    sent: seq<Event>, channel: seq<Event>, batch: seq<Event>, committed: seq<Event>, lost: seq<Event>,
    idle: bool, permit: bool, generation: nat,
    idleMark: nat, permitMark: nat)

  datatype Step<Event> =
    // compiler task
    | Wake | Send(event: Event) | StoreIdle | NotifyIdle
    // transaction task
    | Receive | TryReceive | DrainEnds | CommitSucceeds | CommitFails | StagingFails
    | LoadIdle | LoadEmpty | TakePermit | Bump

  function Start<E>(): State<E> {
    State(Waiting, Select, [], [], [], [], [], false, false, 0, 0, 0)
  }

  predicate Draining(t: Txn) {
    t.DrainA? || t.DrainB?
  }

  predicate Committing(t: Txn) {
    t.CommitA? || t.CommitB?
  }

  predicate Enabled<E>(s: State<E>, step: Step<E>) {
    match step
    case Wake => s.compiler == Waiting
    case Send(_) => s.compiler == Busy
    case StoreIdle => s.compiler == Busy
    case NotifyIdle => s.compiler == Flagged
    case Receive => s.txn == Select && s.channel != []
    case TryReceive => Draining(s.txn) && s.channel != []
    case DrainEnds => Draining(s.txn) && s.channel == []
    case CommitSucceeds => Committing(s.txn)
    case CommitFails => Committing(s.txn)
    case StagingFails => Draining(s.txn) || Committing(s.txn)
    case LoadIdle => s.txn == CheckIdle
    case LoadEmpty => s.txn.CheckEmpty?
    case TakePermit => s.txn == Select && s.permit
    case Bump => s.txn.BumpA? || s.txn.BumpB?
  }

  function AfterCommit(t: Txn): Txn
    requires Committing(t)
  {
    if t.CommitA? then CheckIdle else BumpB(t.observed)
  }

  function Apply<E>(s: State<E>, step: Step<E>): State<E>
    requires Enabled(s, step)
  {
    match step
    case Wake => s.(compiler := Busy, idle := false)
    case Send(e) => s.(sent := s.sent + [e], channel := s.channel + [e])
    case StoreIdle => s.(compiler := Flagged, idle := true, idleMark := |s.sent|)
    case NotifyIdle => s.(compiler := Waiting, permit := true, permitMark := |s.sent|)
    case Receive => s.(txn := DrainA, channel := s.channel[1..], batch := [s.channel[0]])
    case TryReceive => s.(channel := s.channel[1..], batch := s.batch + [s.channel[0]])
    case DrainEnds => s.(txn := if s.txn.DrainA? then CommitA else CommitB(s.txn.observed))
    case CommitSucceeds => s.(txn := AfterCommit(s.txn), committed := s.committed + s.batch, batch := [])
    case CommitFails => s.(txn := AfterCommit(s.txn), lost := s.lost + s.batch, batch := [])
    case StagingFails => s.(txn := Dead, lost := s.lost + s.batch, batch := [])
    case LoadIdle => s.(txn := if s.idle then CheckEmpty(s.idleMark) else Select)
    case LoadEmpty => s.(txn := if s.channel == [] then BumpA(s.txn.observed) else Select)
    case TakePermit => s.(txn := DrainB(s.permitMark), permit := false)
    case Bump => s.(txn := Select, generation := s.generation + 1)
  }

  /** `states` is a run of `steps`. */
  ghost predicate Run<E>(states: seq<State<E>>, steps: seq<Step<E>>) {
    && |states| == |steps| + 1
    && forall i {:trigger steps[i]} | 0 <= i < |steps| ::
         Enabled(states[i], steps[i]) && states[i + 1] == Apply(states[i], steps[i])
  }

  lemma RunStep<E>(states: seq<State<E>>, steps: seq<Step<E>>, i: nat)
    requires Run(states, steps) && i < |steps|
    ensures |states| == |steps| + 1
    ensures Enabled(states[i], steps[i]) && states[i + 1] == Apply(states[i], steps[i])
  {
  }

  ghost predicate NoFailures<E>(steps: seq<Step<E>>) {
    forall i | 0 <= i < |steps| :: steps[i] != CommitFails && steps[i] != StagingFails
  }

  // ------------------------------------------------------------------ nothing lost, nothing repeated

  /** The transaction task holds a batch only while draining or committing. */
  ghost predicate BatchPlaced<E>(s: State<E>) {
    !Draining(s.txn) && !Committing(s.txn) ==> s.batch == []
  }

  /** In flight or committed, in send order. */
  ghost predicate InOrder<E>(s: State<E>) {
    s.committed + s.batch + s.channel == s.sent
  }

  ghost function Total<E>(committed: seq<E>, lost: seq<E>, batch: seq<E>, channel: seq<E>): multiset<E> {
    multiset(committed) + multiset(lost) + multiset(batch) + multiset(channel)
  }

  ghost predicate Conserved<E>(s: State<E>) {
    Total(s.committed, s.lost, s.batch, s.channel) == multiset(s.sent)
  }

  ghost predicate Safe<E>(s: State<E>) {
    BatchPlaced(s) && InOrder(s)
  }

  lemma MoveFirst<E>(a: seq<E>, b: seq<E>, c: seq<E>)
    requires c != []
    ensures a + (b + [c[0]]) + c[1..] == a + b + c
  {
  }

  lemma StepInOrder<E>(s: State<E>, step: Step<E>)
    requires BatchPlaced(s) && InOrder(s) && Enabled(s, step) && s.lost == [] && Apply(s, step).lost == []
    ensures BatchPlaced(Apply(s, step)) && InOrder(Apply(s, step))
  {
    match step
    case Send(e) =>
      assert s.committed + s.batch + (s.channel + [e]) == s.sent + [e];
    case Receive => MoveFirst(s.committed, [], s.channel);
    case TryReceive => MoveFirst(s.committed, s.batch, s.channel);
    case CommitSucceeds => assert s.committed + s.batch + [] + s.channel == s.sent;
    case CommitFails => NothingLost(s);
    case StagingFails => NothingLost(s);
    case _ =>
  }

  lemma NothingLost<E>(s: State<E>)
    requires s.lost + s.batch == []
    ensures s.batch == []
  {
    assert |s.lost + s.batch| == |s.lost| + |s.batch|;
  }

  lemma LostGrows<E>(s: State<E>, step: Step<E>)
    requires Enabled(s, step) && Apply(s, step).lost == []
    ensures s.lost == []
  {
    assert |s.lost + s.batch| == |s.lost| + |s.batch|;
  }

  /** In every interleaving, as long as no batch with events failed, nothing is lost, repeated or reordered. */
  lemma {:induction false} RunsSafe<E>(states: seq<State<E>>, steps: seq<Step<E>>, n: nat)
    requires Run(states, steps) && states[0] == Start() && n <= |steps| && states[n].lost == []
    ensures Safe(states[n])
  {
    hide Apply, Enabled, InOrder, BatchPlaced;
    if n == 0 {
      StartSafe<E>();
    } else {
      RunStep(states, steps, n - 1);
      hide Run;
      LostGrows(states[n - 1], steps[n - 1]);
      RunsSafe(states, steps, n - 1);
      StepInOrder(states[n - 1], steps[n - 1]);
    }
  }

  lemma StartSafe<E>()
    ensures Safe(Start<E>())
  {
  }

  /** Step `i` stores the idle flag with `mark` events sent by then. */
  ghost predicate FlaggedAt<E>(states: seq<State<E>>, steps: seq<Step<E>>, i: nat, mark: nat)
    requires |states| == |steps| + 1
  {
    i < |steps| && steps[i] == StoreIdle && |states[i].sent| == mark
  }

  ghost predicate NotifiedAt<E>(states: seq<State<E>>, steps: seq<Step<E>>, i: nat, mark: nat)
    requires |states| == |steps| + 1
  {
    i < |steps| && steps[i] == NotifyIdle && |states[i].sent| == mark
  }

  ghost predicate IsFlag<E>(states: seq<State<E>>, steps: seq<Step<E>>, n: nat, mark: nat)
    requires |states| == |steps| + 1
  {
    exists i: nat :: i < n && FlaggedAt(states, steps, i, mark)
  }

  ghost predicate IsNotice<E>(states: seq<State<E>>, steps: seq<Step<E>>, n: nat, mark: nat)
    requires |states| == |steps| + 1
  {
    exists i: nat :: i < n && NotifiedAt(states, steps, i, mark)
  }

  /** How many events had been sent at each idle flag, and at each idle notification, of the first `n` steps. */
  ghost function Flags<E>(states: seq<State<E>>, steps: seq<Step<E>>, n: nat): iset<nat>
    requires |states| == |steps| + 1
  {
    iset mark: nat | IsFlag(states, steps, n, mark)
  }

  ghost function Notices<E>(states: seq<State<E>>, steps: seq<Step<E>>, n: nat): iset<nat>
    requires |states| == |steps| + 1
  {
    iset mark: nat | IsNotice(states, steps, n, mark)
  }

  /** What branch A observes is a stored idle flag; what branch B observes is an idle notification. */
  ghost predicate Signals<E>(s: State<E>, flags: iset<nat>, notices: iset<nat>) {
    && (s.idle ==> s.idleMark in flags)
    && (s.permit ==> s.permitMark in notices)
    && (s.txn.CheckEmpty? || s.txn.BumpA? ==> s.txn.observed in flags)
    && (s.txn.DrainB? || s.txn.CommitB? || s.txn.BumpB? ==> s.txn.observed in notices)
  }

  lemma StepSignals<E>(s: State<E>, step: Step<E>, flags: iset<nat>, notices: iset<nat>)
    requires Enabled(s, step) && Signals(s, flags, notices)
    requires step == StoreIdle ==> |s.sent| in flags
    requires step == NotifyIdle ==> |s.sent| in notices
    ensures Signals(Apply(s, step), flags, notices)
  {
  }

  lemma {:induction false} ObservedIsSignal<E>(states: seq<State<E>>, steps: seq<Step<E>>, n: nat)
    requires Run(states, steps) && states[0] == Start() && n <= |steps|
    ensures Signals(states[n], Flags(states, steps, n), Notices(states, steps, n))
  {
    if n == 0 {
    } else {
      ObservedIsSignal(states, steps, n - 1);
      MoreSignals(states, steps, n - 1);
      assert states[n - 1 + 1] == Apply(states[n - 1], steps[n - 1]);
      hide Flags, Notices, Apply;
      StepSignals(states[n - 1], steps[n - 1], Flags(states, steps, n), Notices(states, steps, n));
    }
  }

  lemma MoreSignals<E>(states: seq<State<E>>, steps: seq<Step<E>>, n: nat)
    requires |states| == |steps| + 1 && n < |steps|
    ensures Flags(states, steps, n) <= Flags(states, steps, n + 1)
    ensures Notices(states, steps, n) <= Notices(states, steps, n + 1)
    ensures steps[n] == StoreIdle ==> |states[n].sent| in Flags(states, steps, n + 1)
    ensures steps[n] == NotifyIdle ==> |states[n].sent| in Notices(states, steps, n + 1)
  {
    if steps[n] == StoreIdle {
      assert FlaggedAt(states, steps, n, |states[n].sent|);
    }
    if steps[n] == NotifyIdle {
      assert NotifiedAt(states, steps, n, |states[n].sent|);
    }
  }

  // ------------------------------------------------------------------ failures

  lemma TotalSend<E>(c: seq<E>, l: seq<E>, b: seq<E>, ch: seq<E>, e: E)
    ensures Total(c, l, b, ch + [e]) == Total(c, l, b, ch) + multiset{e}
  {
  }

  lemma TotalReceive<E>(c: seq<E>, l: seq<E>, b: seq<E>, ch: seq<E>)
    requires ch != []
    ensures Total(c, l, b + [ch[0]], ch[1..]) == Total(c, l, b, ch)
  {
    assert ch == [ch[0]] + ch[1..];
  }

  lemma TotalSettle<E>(c: seq<E>, l: seq<E>, b: seq<E>, ch: seq<E>)
    ensures Total(c + b, l, [], ch) == Total(c, l, b, ch)
    ensures Total(c, l + b, [], ch) == Total(c, l, b, ch)
  {
  }

  lemma StepConserves<E>(s: State<E>, step: Step<E>)
    requires Conserved(s) && Enabled(s, step) && BatchPlaced(s)
    ensures Conserved(Apply(s, step)) && BatchPlaced(Apply(s, step))
  {
    hide Total;
    match step
    case Send(e) => TotalSend(s.committed, s.lost, s.batch, s.channel, e);
    case Receive =>
      TotalReceive(s.committed, s.lost, s.batch, s.channel);
      assert [] + [s.channel[0]] == [s.channel[0]];
    case TryReceive => TotalReceive(s.committed, s.lost, s.batch, s.channel);
    case CommitSucceeds => TotalSettle(s.committed, s.lost, s.batch, s.channel);
    case CommitFails => TotalSettle(s.committed, s.lost, s.batch, s.channel);
    case StagingFails => TotalSettle(s.committed, s.lost, s.batch, s.channel);
    case _ =>
  }

  /** With failures too: every sent event is in exactly one of channel, batch, database and lost. */
  lemma {:induction false} RunsConserve<E>(states: seq<State<E>>, steps: seq<Step<E>>, n: nat)
    requires Run(states, steps) && states[0] == Start() && n <= |steps|
    ensures Conserved(states[n]) && BatchPlaced(states[n])
  {
    hide Conserved, BatchPlaced, Apply, Enabled, Start;
    if n == 0 {
      StartConserved<E>();
    } else {
      RunStep(states, steps, n - 1);
      RunsConserve(states, steps, n - 1);
      StepConserves(states[n - 1], steps[n - 1]);
    }
  }

  lemma StartConserved<E>()
    ensures Conserved(Start<E>()) && BatchPlaced(Start<E>())
  {
  }

  /** Committed, batched and in-flight events are what was sent, in order, exactly when none was lost. */
  lemma InOrderIff<E>(states: seq<State<E>>, steps: seq<Step<E>>, n: nat)
    requires Run(states, steps) && states[0] == Start() && n <= |steps|
    ensures InOrder(states[n]) <==> states[n].lost == []
  {
    var s := states[n];
    if s.lost == [] {
      RunsSafe(states, steps, n);
    } else {
      RunsConserve(states, steps, n);
      assert |Total(s.committed, s.lost, s.batch, s.channel)|
          == |s.committed| + |s.lost| + |s.batch| + |s.channel|;
      assert |s.committed + s.batch + s.channel| == |s.committed| + |s.batch| + |s.channel|;
    }
  }

  // ------------------------------------------------------------------ what a rise covers

  /** How many of the sent events have left the channel. */
  function Arrived<E>(s: State<E>): int {
    |s.sent| - |s.channel|
  }

  /** The channel holds the latest events; the earlier ones are committed, lost or in the batch. */
  ghost predicate Settling<E>(s: State<E>) {
    && 0 <= Arrived(s)
    && s.channel == s.sent[Arrived(s)..]
    && multiset(s.committed) + multiset(s.lost) + multiset(s.batch) == multiset(s.sent[..Arrived(s)])
  }

  /** What the transaction task has observed was sent, and from the drain on it has left the channel. */
  ghost predicate ObservedArrived<E>(s: State<E>) {
    && s.idleMark <= |s.sent| && s.permitMark <= |s.sent|
    && match s.txn
       case CheckEmpty(o) => o <= |s.sent|
       case DrainB(o) => o <= |s.sent|
       case BumpA(o) => o <= Arrived(s)
       case CommitB(o) => o <= Arrived(s)
       case BumpB(o) => o <= Arrived(s)
       case _ => true
  }

  lemma SendSettles<E>(s: State<E>, e: E)
    requires Settling(s)
    ensures Settling(s.(sent := s.sent + [e], channel := s.channel + [e]))
  {
    assert (s.sent + [e])[Arrived(s)..] == s.sent[Arrived(s)..] + [e];
    assert (s.sent + [e])[..Arrived(s)] == s.sent[..Arrived(s)];
  }

  lemma TakeSettles<E>(s: State<E>, txn: Txn)
    requires Settling(s) && s.channel != []
    ensures Settling(s.(txn := txn, channel := s.channel[1..], batch := s.batch + [s.channel[0]]))
  {
    var k := Arrived(s);
    assert s.sent[..k + 1] == s.sent[..k] + [s.channel[0]];
    assert s.sent[k + 1..] == s.channel[1..];
  }

  lemma CommitSettles<E>(s: State<E>, t: State<E>)
    requires Settling(s) && t.sent == s.sent && t.channel == s.channel && t.batch == []
    requires || (t.committed == s.committed + s.batch && t.lost == s.lost)
             || (t.committed == s.committed && t.lost == s.lost + s.batch)
    ensures Settling(t)
  {
  }

  lemma StepSettles<E>(s: State<E>, step: Step<E>)
    requires Settling(s) && BatchPlaced(s) && Enabled(s, step)
    ensures Settling(Apply(s, step))
  {
    hide Settling;
    match step
    case Send(e) => SendSettles(s, e);
    case Receive =>
      assert s.batch == [] && [] + [s.channel[0]] == [s.channel[0]];
      TakeSettles(s, DrainA);
    case TryReceive => TakeSettles(s, s.txn);
    case CommitSucceeds => CommitSettles(s, Apply(s, step));
    case CommitFails => CommitSettles(s, Apply(s, step));
    case StagingFails => CommitSettles(s, Apply(s, step));
    case _ => SameSettles(s, Apply(s, step));
  }

  lemma SameSettles<E>(s: State<E>, t: State<E>)
    requires Settling(s) && t.sent == s.sent && t.channel == s.channel && t.batch == s.batch
    requires t.committed == s.committed && t.lost == s.lost
    ensures Settling(t)
  {
  }

  lemma StepArrives<E>(s: State<E>, step: Step<E>)
    requires ObservedArrived(s) && Enabled(s, step)
    ensures ObservedArrived(Apply(s, step))
  {
  }

  /** Until one of the first `k` events is lost, they are committed, batched and in flight in sending order. */
  ghost predicate OrderedUpTo<E>(s: State<E>, k: nat)
    requires k <= |s.sent|
  {
    NoneLost(s, k) ==> s.sent[..k] <= s.committed + s.batch + s.channel
  }

  ghost predicate NoneLost<E>(s: State<E>, k: nat)
    requires k <= |s.sent|
  {
    forall e | e in s.sent[..k] :: e !in s.lost
  }

  lemma SameOrders<E>(s: State<E>, t: State<E>, k: nat)
    requires t.sent == s.sent && t.lost == s.lost && k <= |s.sent| && OrderedUpTo(s, k)
    requires t.committed + t.batch + t.channel == s.committed + s.batch + s.channel
    ensures OrderedUpTo(t, k)
  {
  }

  /** A step that neither sends nor loses leaves every event in its place. */
  lemma PlaceStays<E>(s: State<E>, step: Step<E>, k: nat)
    requires BatchPlaced(s) && Enabled(s, step) && !step.Send? && step != CommitFails && step != StagingFails
    requires k <= |s.sent| && OrderedUpTo(s, k)
    ensures OrderedUpTo(Apply(s, step), k)
  {
    var t := Apply(s, step);
    hide OrderedUpTo;
    match step {
      case Receive => MoveFirst(s.committed, [], s.channel);
      case TryReceive => MoveFirst(s.committed, s.batch, s.channel);
      case CommitSucceeds => assert s.committed + s.batch + [] + s.channel == s.committed + s.batch + s.channel;
      case _ =>
    }
    SameOrders(s, t, k);
  }

  lemma StepOrders<E>(s: State<E>, step: Step<E>, k: nat)
    requires Settling(s) && BatchPlaced(s) && Enabled(s, step)
    requires k <= |Apply(s, step).sent| && forall j: nat | j <= |s.sent| :: OrderedUpTo(s, j)
    ensures OrderedUpTo(Apply(s, step), k)
  {
    var t := Apply(s, step);
    hide Settling, OrderedUpTo, BatchPlaced;
    match step
    case Send(e) => SendOrders(s, e, k);
    case Receive => PlaceStays(s, step, k);
    case TryReceive => PlaceStays(s, step, k);
    case CommitFails => LossOrders(s, t, k);
    case StagingFails => LossOrders(s, t, k);
    case _ => PlaceStays(s, step, k);
  }

  /** With nothing lost so far the new event is the next one. */
  lemma SendOrders<E>(s: State<E>, e: E, k: nat)
    requires Settling(s) && k <= |s.sent| + 1 && forall j: nat | j <= |s.sent| :: OrderedUpTo(s, j)
    ensures OrderedUpTo(s.(sent := s.sent + [e], channel := s.channel + [e]), k)
  {
    var n := |s.sent|;
    var there := s.committed + s.batch + s.channel;
    assert s.committed + s.batch + (s.channel + [e]) == there + [e];
    if k <= n {
      assert (s.sent + [e])[..k] == s.sent[..k];
      assert OrderedUpTo(s, k);
    } else {
      assert s.sent[..n] == s.sent && (s.sent + [e])[..k] == s.sent + [e];
      assert forall x | x in s.sent :: x in s.sent + [e];
      assert OrderedUpTo(s, n);
      PlacedCount(s);
      assert NoneLost(s, n) ==> there == s.sent;
    }
  }

  lemma PlacedCount<E>(s: State<E>)
    requires Settling(s)
    ensures |s.committed| + |s.lost| + |s.batch| + |s.channel| == |s.sent|
  {
    assert |multiset(s.committed) + multiset(s.lost) + multiset(s.batch)| == |multiset(s.sent[..Arrived(s)])|;
  }

  lemma HeadOfBatch<E>(s: State<E>, k: nat)
    requires k <= |s.sent| && s.sent[..k] <= s.committed + s.batch + s.channel && s.batch != []
    ensures |s.committed| < k ==> s.batch[0] in s.sent[..k]
  {
    if |s.committed| < k {
      assert s.sent[..k][|s.committed|] == (s.committed + s.batch + s.channel)[|s.committed|] == s.batch[0];
    }
  }

  /** A batch that is lost held none of the first `k` events, if none of those is lost: they were committed already. */
  lemma LossOrders<E>(s: State<E>, t: State<E>, k: nat)
    requires k <= |s.sent| && OrderedUpTo(s, k)
    requires t.sent == s.sent && t.committed == s.committed && t.channel == s.channel
    requires t.batch == [] && t.lost == s.lost + s.batch
    ensures OrderedUpTo(t, k)
  {
    var there := s.committed + s.batch + s.channel;
    if NoneLost(t, k) {
      assert forall x | x in s.lost :: x in t.lost;
      if s.batch == [] {
        assert s.committed + [] + s.channel == there;
      } else {
        HeadOfBatch(s, k);
        assert (s.lost + s.batch)[|s.lost|] == s.batch[0];
        assert forall i | 0 <= i < k :: s.sent[..k][i] == there[i] == s.committed[i];
      }
    }
  }

  ghost predicate Accounted<E>(s: State<E>) {
    && BatchPlaced(s) && Settling(s) && ObservedArrived(s)
    && forall k: nat | k <= |s.sent| :: OrderedUpTo(s, k)
  }

  lemma StartAccounted<E>()
    ensures Accounted(Start<E>())
  {
  }

  lemma StepAccounted<E>(s: State<E>, step: Step<E>)
    requires Accounted(s) && Enabled(s, step)
    ensures Accounted(Apply(s, step))
  {
    hide Settling, ObservedArrived, OrderedUpTo;
    StepSettles(s, step);
    StepArrives(s, step);
    forall k: nat | k <= |Apply(s, step).sent| ensures OrderedUpTo(Apply(s, step), k) {
      StepOrders(s, step, k);
    }
  }

  /** In every run, failing or not: where the events are and how far the observed signals reach. */
  lemma {:induction false} RunsAccounted<E>(states: seq<State<E>>, steps: seq<Step<E>>, n: nat)
    requires Run(states, steps) && states[0] == Start() && n <= |steps|
    ensures Accounted(states[n])
  {
    hide Accounted, Apply, Enabled, Start;
    if n == 0 {
      StartAccounted<E>();
    } else {
      RunStep(states, steps, n - 1);
      hide Run;
      RunsAccounted(states, steps, n - 1);
      StepAccounted(states[n - 1], steps[n - 1]);
    }
  }

  /** What a counter increment has observed: the events sent before that idle signal. */
  function Observed(t: Txn): nat
    requires t.BumpA? || t.BumpB?
  {
    t.observed
  }

  lemma Included<E>(a: multiset<E>, b: multiset<E>)
    requires a <= b
    ensures |a| <= |b|
  {
    assert b == a + (b - a);
  }

  /** When no value of the first `o` events is lost and they have all arrived, at least `o` are committed. */
  lemma CommittedEnough<E>(s: State<E>, o: nat)
    requires Settling(s) && s.batch == [] && o <= Arrived(s) && NoneLost(s, o)
    ensures o <= |s.committed|
  {
    var first, rest := s.sent[..o], s.sent[o..Arrived(s)];
    assert s.sent[..Arrived(s)] == first + rest;
    assert multiset(s.committed) + multiset(s.lost) == multiset(first) + multiset(rest);
    hide Settling;
    forall e ensures multiset(first)[e] <= multiset(s.committed)[e] {
      assert (multiset(s.committed) + multiset(s.lost))[e] == (multiset(first) + multiset(rest))[e];
      assert e in first ==> e !in multiset(s.lost);
      assert e !in first ==> e !in multiset(first);
    }
    Included(multiset(first), multiset(s.committed));
  }

  /** And the first `o` committed are those events. */
  lemma CommittedUpTo<E>(s: State<E>, o: nat)
    requires Settling(s) && s.batch == [] && o <= Arrived(s) && OrderedUpTo(s, o) && NoneLost(s, o)
    ensures s.sent[..o] <= s.committed
  {
    CommittedEnough(s, o);
    hide Settling;
    assert s.committed + s.batch + s.channel == s.committed + s.channel;
    assert forall i | 0 <= i < o :: s.sent[..o][i] == (s.committed + s.channel)[i] == s.committed[i];
  }

  lemma {:induction false} DistinctOnce<E>(es: seq<E>, e: E)
    requires NoDuplicates(es)
    ensures multiset(es)[e] <= 1
  {
    if es == [] {
    } else {
      var n := |es| - 1;
      assert es == es[..n] + [es[n]];
      DistinctOnce(es[..n], e);
      if e == es[n] {
        assert e !in es[..n];
      }
    }
  }

  /** An event sent once is not both committed and lost. */
  lemma LostIsNotCommitted<E>(s: State<E>, e: E)
    requires Settling(s) && NoDuplicates(s.sent)
    ensures !(e in s.committed && e in s.lost)
  {
    DistinctOnce(s.sent[..Arrived(s)], e);
    assert e in s.committed ==> multiset(s.committed)[e] > 0;
    assert e in s.lost ==> multiset(s.lost)[e] > 0;
  }

  /**
   Every rise, after failed commits too: whatever was sent before the observed idle signal has left the
   channel and is committed or lost; it is committed, and in order, exactly if none of it is lost. Events
   are told apart by their value, so the converse is for distinct ones; tagging them makes them so.
   */
  lemma BumpsAreCovered<E>(states: seq<State<E>>, steps: seq<Step<E>>, n: nat)
    requires Run(states, steps) && states[0] == Start() && n < |steps| && steps[n] == Bump
    ensures var s := states[n];
            var o := Observed(s.txn);
            && o <= Arrived(s) && s.channel == s.sent[Arrived(s)..]
            && multiset(s.committed) + multiset(s.lost) == multiset(s.sent[..Arrived(s)])
            && (NoneLost(s, o) ==> s.sent[..o] <= s.committed)
            && (NoDuplicates(s.sent) ==>
                  && (s.sent[..o] <= s.committed <==> NoneLost(s, o))
                  && ((forall e | e in s.sent[..o] :: e in s.committed) <==> NoneLost(s, o)))
            && (s.lost == [] ==> s.committed <= s.sent)
  {
    var s := states[n];
    RunsAccounted(states, steps, n);
    RunStep(states, steps, n);
    hide Run;
    assert s.batch == [];
    var o := Observed(s.txn);
    assert OrderedUpTo(s, o);
    hide Settling, OrderedUpTo, NoDuplicates;
    RiseCovers(s, o);
  }

  lemma RiseCovers<E>(s: State<E>, o: nat)
    requires Settling(s) && s.batch == [] && o <= Arrived(s) && OrderedUpTo(s, o) && OrderedUpTo(s, |s.sent|)
    ensures s.channel == s.sent[Arrived(s)..]
    ensures multiset(s.committed) + multiset(s.lost) == multiset(s.sent[..Arrived(s)])
    ensures NoneLost(s, o) ==> s.sent[..o] <= s.committed
    ensures NoDuplicates(s.sent) ==>
              && (s.sent[..o] <= s.committed <==> NoneLost(s, o))
              && ((forall e | e in s.sent[..o] :: e in s.committed) <==> NoneLost(s, o))
    ensures s.lost == [] ==> s.committed <= s.sent
  {
    if NoneLost(s, o) {
      CommittedUpTo(s, o);
    }
    if NoDuplicates(s.sent) {
      forall e {
        LostIsNotCommitted(s, e);
      }
    }
    if s.lost == [] {
      assert s.sent[..|s.sent|] == s.sent;
      PlacedCount(s);
      assert s.committed + s.batch + s.channel == s.committed + s.channel;
    }
  }

  // ------------------------------------------------------------------ what the counter does not promise

  /** Takes the steps one after another; None when one is not enabled. */
  ghost function After<E>(s: State<E>, steps: seq<Step<E>>): Option<State<E>>
    decreases |steps|
  {
    if steps == [] then Some(s)
    else if Enabled(s, steps[0]) then After(Apply(s, steps[0]), steps[1..])
    else None
  }

  /** Steps that can be taken one after another are a run. */
  lemma {:induction false} AfterIsRun<E>(s: State<E>, steps: seq<Step<E>>) returns (states: seq<State<E>>)
    requires After(s, steps).Some?
    ensures Run(states, steps) && states[0] == s && After(s, steps) == Some(states[|steps|])
    decreases |steps|
  {
    if steps == [] {
      states := [s];
    } else {
      var rest := AfterIsRun(Apply(s, steps[0]), steps[1..]);
      states := [s] + rest;
    }
  }

  lemma {:induction false} AfterMore<E>(s: State<E>, steps: seq<Step<E>>, step: Step<E>)
    requires After(s, steps).Some? && Enabled(After(s, steps).value, step)
    ensures After(s, steps + [step]) == Some(Apply(After(s, steps).value, step))
    decreases |steps|
  {
    hide Enabled, Apply;
    if steps == [] {
      assert steps + [step] == [step];
      assert After(Apply(s, step), [step][1..]) == Some(Apply(s, step));
    } else {
      AfterMore(Apply(s, steps[0]), steps[1..], step);
      assert (steps + [step])[1..] == steps[1..] + [step];
    }
  }

  /** One more step of a concrete run. */
  lemma Then<E>(s: State<E>, steps: seq<Step<E>>, t: State<E>, step: Step<E>) returns (steps': seq<Step<E>>,
      t': State<E>)
    requires After(s, steps) == Some(t) && Enabled(t, step)
    ensures t' == Apply(t, step) && After(s, steps') == Some(t')
    ensures NoFailures(steps) && step != CommitFails && step != StagingFails ==> NoFailures(steps')
    ensures Wake !in steps && step != Wake ==> Wake !in steps'
    ensures StoreIdle !in steps && step != StoreIdle ==> StoreIdle !in steps'
  {
    steps', t' := steps + [step], Apply(t, step);
    AfterMore(s, steps, step);
  }

  /** One event sent, the idle flag stored, the event received and waiting to be committed. */
  lemma OneBatch() returns (steps: seq<Step<nat>>, end: State<nat>)
    ensures After(Start(), steps) == Some(end)
    ensures end == State(Flagged, CommitA, [7], [], [7], [], [], true, false, 0, 1, 0)
  {
    hide After, NoFailures;
    var start := Start<nat>();
    steps, end := [], start;
    AfterNothing(start);
    steps, end := Then(start, steps, end, Wake);
    steps, end := Then(start, steps, end, Send(7));
    steps, end := Then(start, steps, end, StoreIdle);
    steps, end := Then(start, steps, end, Receive);
    steps, end := Then(start, steps, end, DrainEnds);
  }

  /** One cycle of one event up to the first rise of the counter; the commit succeeds or not. */
  lemma OneCycle(commit: Step<nat>) returns (steps: seq<Step<nat>>, end: State<nat>)
    requires commit == CommitSucceeds || commit == CommitFails
    ensures After(Start(), steps) == Some(end)
    ensures end == State(Flagged, Select, [7], [], [], if commit == CommitFails then [] else [7],
                     if commit == CommitFails then [7] else [], true, false, 1, 1, 0)
  {
    var start := Start<nat>();
    steps, end := OneBatch();
    hide After, NoFailures, Start;
    steps, end := Then(start, steps, end, commit);
    steps, end := Then(start, steps, end, LoadIdle);
    steps, end := Then(start, steps, end, LoadEmpty);
    steps, end := Then(start, steps, end, Bump);
  }

  lemma AfterNothing<E>(s: State<E>)
    ensures After(s, []) == Some(s) && NoFailures<E>([])
  {
  }

  /** The counter rises for a failed commit just as for a successful one. */
  lemma FailedCommitCounts() returns (states: seq<State<nat>>, steps: seq<Step<nat>>)
    ensures Run(states, steps) && states[0] == Start()
    ensures var end := states[|steps|]; end.generation == 1 && end.sent == [7] && end.committed == []
  {
    var end;
    steps, end := OneCycle(CommitFails);
    states := AfterIsRun(Start(), steps);
  }

  /**
   One compile can raise the counter twice. A caller that takes its snapshot after the first rise
   and queues work is released by the second, though the compiler never woke in between.
   */
  lemma OneCompileCountsTwice()
    returns (states: seq<State<nat>>, steps: seq<Step<nat>>, later: seq<State<nat>>, more: seq<Step<nat>>)
    ensures Run(states, steps) && states[0] == Start()
    ensures Run(later, more) && later[0] == states[|steps|] && NoFailures(more) && Wake !in more
    ensures later[|more|].generation == later[0].generation + 1
  {
    var snapshot, end;
    steps, snapshot := OneCycle(CommitSucceeds);
    states := AfterIsRun(Start(), steps);
    more, end := OneMoreRise(snapshot);
    later := AfterIsRun(snapshot, more);
  }

  lemma OneMoreRise(snapshot: State<nat>) returns (more: seq<Step<nat>>, end: State<nat>)
    requires snapshot == State(Flagged, Select, [7], [], [], [7], [], true, false, 1, 1, 0)
    ensures After(snapshot, more) == Some(end) && NoFailures(more) && Wake !in more && end.generation == 2
  {
    hide After, NoFailures;
    more, end := [], snapshot;
    AfterNothing(snapshot);
    more, end := Then(snapshot, more, end, NotifyIdle);
    more, end := Then(snapshot, more, end, TakePermit);
    more, end := Then(snapshot, more, end, DrainEnds);
    more, end := Then(snapshot, more, end, CommitSucceeds);
    more, end := Then(snapshot, more, end, Bump);
  }

  // ------------------------------------------------------------------ how far it may run ahead

  /** The most the counter can still rise before the compiler stores its idle flag again. */
  function Pending<E>(s: State<E>): nat {
    (if s.permit then 1 else 0)
    + (if s.compiler == Flagged then 1 else 0)
    + (if s.txn.DrainB? || s.txn.CommitB? || s.txn.BumpB? || s.txn.BumpA? then 1 else 0)
    + (if s.txn.CheckEmpty? || (s.idle
        && (s.channel != [] || s.txn.DrainA? || s.txn.CommitA? || s.txn.CheckIdle?)) then 1 else 0)
  }

  /** The idle flag is down while the compiler works, so nothing is sent while it is up. */
  predicate FlagFollows<E>(s: State<E>) {
    (s.compiler == Busy ==> !s.idle) && (s.compiler == Flagged ==> s.idle)
  }

  lemma StepPending<E>(s: State<E>, step: Step<E>)
    requires Enabled(s, step) && FlagFollows(s)
    ensures FlagFollows(Apply(s, step))
    ensures step != StoreIdle ==>
              Pending(Apply(s, step)) + (Apply(s, step).generation - s.generation) <= Pending(s)
    ensures Pending(s) <= 4
  {
  }

  lemma {:induction false} PendingFalls<E>(states: seq<State<E>>, steps: seq<Step<E>>, m: nat, n: nat)
    requires Run(states, steps) && states[0] == Start() && m <= n <= |steps|
    requires forall i | m <= i < n :: !steps[i].StoreIdle?
    ensures states[n].generation + Pending(states[n]) <= states[m].generation + Pending(states[m])
    decreases n
  {
    if m == n {
    } else {
      RunStep(states, steps, n - 1);
      FlagsFollow(states, steps, n - 1);
      hide Apply, Enabled, FlagFollows, Pending;
      PendingFalls(states, steps, m, n - 1);
      StepPending(states[n - 1], steps[n - 1]);
    }
  }

  /**
   The counter rises at most four times without the compiler storing its idle flag in between:
   a caller that waits for five rises has seen a compile end after its snapshot.
   */
  lemma RisesNeedIdle<E>(states: seq<State<E>>, steps: seq<Step<E>>, m: nat, n: nat)
    requires Run(states, steps) && states[0] == Start() && m <= n <= |steps|
    requires forall i | m <= i < n :: !steps[i].StoreIdle?
    ensures states[n].generation <= states[m].generation + 4
  {
    FlagsFollow(states, steps, m);
    hide Apply, Enabled, FlagFollows, Pending;
    PendingFalls(states, steps, m, n);
    PendingAtMostFour(states[m]);
  }

  lemma PendingAtMostFour<E>(s: State<E>)
    ensures Pending(s) <= 4
    ensures FlagFollows(s) ==> Unwoken(s) <= 4
  {
  }

  /** The most the counter can still rise before the compiler wakes again. */
  function Unwoken<E>(s: State<E>): nat {
    Pending(s) + if s.compiler == Busy then 2 else 0
  }

  lemma StepUnwoken<E>(s: State<E>, step: Step<E>)
    requires Enabled(s, step) && FlagFollows(s) && step != Wake
    ensures Unwoken(Apply(s, step)) + (Apply(s, step).generation - s.generation) <= Unwoken(s)
  {
  }

  lemma {:induction false} UnwokenFalls<E>(states: seq<State<E>>, steps: seq<Step<E>>, m: nat, n: nat)
    requires Run(states, steps) && states[0] == Start() && m <= n <= |steps|
    requires forall i | m <= i < n :: !steps[i].Wake?
    ensures states[n].generation + Unwoken(states[n]) <= states[m].generation + Unwoken(states[m])
    decreases n
  {
    if m == n {
    } else {
      RunStep(states, steps, n - 1);
      FlagsFollow(states, steps, n - 1);
      hide Apply, Enabled, FlagFollows, Unwoken;
      UnwokenFalls(states, steps, m, n - 1);
      StepUnwoken(states[n - 1], steps[n - 1]);
    }
  }

  /** The counter rises at most four times without the compiler waking in between. */
  lemma RisesNeedWake<E>(states: seq<State<E>>, steps: seq<Step<E>>, m: nat, n: nat)
    requires Run(states, steps) && states[0] == Start() && m <= n <= |steps|
    requires forall i | m <= i < n :: !steps[i].Wake?
    ensures states[n].generation <= states[m].generation + 4
  {
    FlagsFollow(states, steps, m);
    hide Apply, Enabled, FlagFollows, Unwoken;
    UnwokenFalls(states, steps, m, n);
    PendingAtMostFour(states[m]);
  }

  lemma {:induction false} FlagsFollow<E>(states: seq<State<E>>, steps: seq<Step<E>>, n: nat)
    requires Run(states, steps) && states[0] == Start() && n <= |steps|
    ensures FlagFollows(states[n])
  {
    if n == 0 {
    } else {
      FlagsFollow(states, steps, n - 1);
      StepPending(states[n - 1], steps[n - 1]);
    }
  }

  /** Two compiles back to back, with the transaction task about to count the first. */
  lemma TwoCompiles() returns (steps: seq<Step<nat>>, end: State<nat>)
    ensures After(Start(), steps) == Some(end)
    ensures end == State(Flagged, BumpA(1), [7, 8], [8], [], [7], [], true, true, 0, 2, 1)
  {
    var start := Start<nat>();
    steps, end := OneBatch();
    hide After, NoFailures, Start;
    steps, end := Then(start, steps, end, CommitSucceeds);
    steps, end := Then(start, steps, end, LoadIdle);
    steps, end := Then(start, steps, end, LoadEmpty);
    steps, end := Then(start, steps, end, NotifyIdle);
    steps, end := Then(start, steps, end, Wake);
    steps, end := Then(start, steps, end, Send(8));
    steps, end := Then(start, steps, end, StoreIdle);
  }

  /** The bound of four is reached, with the compiler neither storing its flag nor waking. */
  lemma FourRises()
    returns (states: seq<State<nat>>, steps: seq<Step<nat>>, later: seq<State<nat>>, more: seq<Step<nat>>)
    ensures Run(states, steps) && states[0] == Start()
    ensures Run(later, more) && later[0] == states[|steps|] && StoreIdle !in more && Wake !in more
    ensures later[|more|].generation == later[0].generation + 4
  {
    var middle, end;
    steps, middle := TwoCompiles();
    states := AfterIsRun(Start(), steps);
    more, end := FourMoreRises(middle);
    later := AfterIsRun(middle, more);
  }

  lemma FourMoreRises(middle: State<nat>) returns (more: seq<Step<nat>>, end: State<nat>)
    requires middle == State(Flagged, BumpA(1), [7, 8], [8], [], [7], [], true, true, 0, 2, 1)
    ensures After(middle, more) == Some(end) && StoreIdle !in more && Wake !in more && end.generation == 4
  {
    hide After, NoFailures;
    more, end := [], middle;
    AfterNothing(middle);
    more, end := Then(middle, more, end, Bump);
    more, end := Then(middle, more, end, Receive);
    more, end := Then(middle, more, end, DrainEnds);
    more, end := Then(middle, more, end, CommitSucceeds);
    more, end := Then(middle, more, end, LoadIdle);
    more, end := Then(middle, more, end, LoadEmpty);
    more, end := Then(middle, more, end, Bump);
    more, end := Then(middle, more, end, TakePermit);
    more, end := Then(middle, more, end, DrainEnds);
    more, end := Then(middle, more, end, CommitSucceeds);
    more, end := Then(middle, more, end, Bump);
    more, end := Then(middle, more, end, NotifyIdle);
    more, end := Then(middle, more, end, TakePermit);
    more, end := Then(middle, more, end, DrainEnds);
    more, end := Then(middle, more, end, CommitSucceeds);
    more, end := Then(middle, more, end, Bump);
  }

  // ------------------------------------------------------------------ when it can rise

  /** A rise needs no new idle flag from here. */
  predicate CanRise<E>(s: State<E>) {
    && s.txn != Dead
    && (|| s.permit
        || s.compiler == Flagged
        || s.txn.BumpA? || s.txn.BumpB? || s.txn.DrainB? || s.txn.CommitB?
        || (s.txn.CheckEmpty? && (s.channel == [] || s.idle))
        || (s.idle && (s.channel != [] || s.txn.DrainA? || s.txn.CommitA? || s.txn.CheckIdle?)))
  }

  /** A rise needs no new wake from here: the caller's snapshot may be answered by work already under way. */
  predicate CanRiseUnwoken<E>(s: State<E>) {
    CanRise(s) || (s.compiler == Busy && s.txn != Dead)
  }

  /** The step towards the next rise. */
  function Towards<E>(s: State<E>): Step<E>
    requires CanRise(s)
  {
    match s.txn
    case Select => if s.permit then TakePermit else if s.compiler == Flagged then NotifyIdle else Receive
    case DrainA => if s.channel != [] then TryReceive else DrainEnds
    case DrainB(_) => if s.channel != [] then TryReceive else DrainEnds
    case CommitA => CommitSucceeds
    case CommitB(_) => CommitSucceeds
    case CheckIdle => LoadIdle
    case CheckEmpty(_) => LoadEmpty
    case _ => Bump
  }

  /** How far the transaction task is from a rise, apart from the events in the channel. */
  function Distance<E>(s: State<E>): nat {
    match s.txn
    case Select => if s.permit then 3 else 4
    case DrainA => 8
    case CommitA => 7
    case CheckIdle => 6
    case CheckEmpty(_) => 5
    case DrainB(_) => 2
    case CommitB(_) => 1
    case _ => 0
  }

  lemma TowardsProgresses<E>(s: State<E>)
    requires FlagFollows(s) && CanRise(s)
    ensures var step := Towards(s);
            && Enabled(s, step) && step != StoreIdle && step != Wake
            && var t := Apply(s, step);
               if step == Bump then t.generation == s.generation + 1
               else && t.generation == s.generation && FlagFollows(t) && CanRise(t)
                    && (|t.channel| < |s.channel| || (|t.channel| == |s.channel| && Distance(t) < Distance(s)))
  {
  }

  /** Taking the steps raises the counter, and `avoided` is none of them. */
  ghost predicate Raises<E>(s: State<E>, steps: seq<Step<E>>, avoided: Step<E>) {
    avoided !in steps && After(s, steps).Some? && After(s, steps).value.generation > s.generation
  }

  lemma {:induction false} RiseReached<E>(s: State<E>) returns (steps: seq<Step<E>>)
    requires FlagFollows(s) && CanRise(s)
    ensures Raises(s, steps, StoreIdle) && Raises(s, steps, Wake)
    decreases |s.channel|, Distance(s)
  {
    var step := Towards(s);
    TowardsProgresses(s);
    var t := Apply(s, step);
    hide Apply, Enabled, CanRise, Towards;
    var rest := [];
    if step == Bump {
      AfterNothing(t);
    } else {
      rest := RiseReached(t);
    }
    steps := [step] + rest;
    assert steps[1..] == rest;
  }

  lemma StepCannotRise<E>(s: State<E>, step: Step<E>)
    requires FlagFollows(s) && !CanRise(s) && Enabled(s, step) && step != StoreIdle
    ensures var t := Apply(s, step); FlagFollows(t) && !CanRise(t) && t.generation == s.generation
    ensures s.compiler != Busy && step != Wake ==> Apply(s, step).compiler != Busy
  {
  }

  lemma {:induction false} CannotRise<E>(s: State<E>, steps: seq<Step<E>>)
    requires FlagFollows(s) && !CanRise(s) && StoreIdle !in steps && After(s, steps).Some?
    ensures After(s, steps).value.generation == s.generation
    decreases |steps|
  {
    if steps == [] {
    } else {
      assert steps[0] in steps && forall x | x in steps[1..] :: x in steps;
      StepCannotRise(s, steps[0]);
      hide Apply, Enabled, CanRise;
      CannotRise(Apply(s, steps[0]), steps[1..]);
    }
  }

  /** Some continuation in which the compiler stores no idle flag raises the counter, exactly in these states. */
  lemma RiseWithoutIdleIff<E>(s: State<E>)
    requires FlagFollows(s)
    ensures (exists steps :: Raises(s, steps, StoreIdle)) <==> CanRise(s)
  {
    if CanRise(s) {
      var steps := RiseReached(s);
    } else {
      forall steps ensures !Raises(s, steps, StoreIdle) {
        if StoreIdle !in steps && After(s, steps).Some? {
          CannotRise(s, steps);
        }
      }
    }
  }

  lemma DeadStays<E>(s: State<E>, step: Step<E>)
    requires Enabled(s, step) && s.txn == Dead
    ensures Apply(s, step).txn == Dead && Apply(s, step).generation == s.generation
  {
  }

  lemma StepCannotRiseUnwoken<E>(s: State<E>, step: Step<E>)
    requires FlagFollows(s) && !CanRiseUnwoken(s) && Enabled(s, step) && step != Wake
    ensures var t := Apply(s, step); FlagFollows(t) && !CanRiseUnwoken(t) && t.generation == s.generation
  {
    if s.txn == Dead {
      DeadStays(s, step);
    } else {
      StepCannotRise(s, step);
    }
  }

  lemma {:induction false} CannotRiseUnwoken<E>(s: State<E>, steps: seq<Step<E>>)
    requires FlagFollows(s) && !CanRiseUnwoken(s) && Wake !in steps && After(s, steps).Some?
    ensures After(s, steps).value.generation == s.generation
    decreases |steps|
  {
    if steps == [] {
    } else {
      assert steps[0] in steps && forall x | x in steps[1..] :: x in steps;
      StepCannotRiseUnwoken(s, steps[0]);
      hide Apply, Enabled, CanRiseUnwoken;
      CannotRiseUnwoken(Apply(s, steps[0]), steps[1..]);
    }
  }

  lemma BusyReaches<E>(s: State<E>) returns (steps: seq<Step<E>>)
    requires FlagFollows(s) && s.compiler == Busy && s.txn != Dead
    ensures Raises(s, steps, Wake)
  {
    var t := Apply(s, StoreIdle);
    assert FlagFollows(t) && CanRise(t) && t.generation == s.generation && Enabled(s, StoreIdle);
    hide Apply, Enabled, CanRise, FlagFollows;
    var rest := RiseReached(t);
    steps := [StoreIdle] + rest;
    assert steps[1..] == rest;
  }

  /**
   `wait_for_idle` can return without the compiler waking after its snapshot exactly in these states;
   from every other state a rise means a parse that began later.
   */
  lemma RiseWithoutWakeIff<E>(s: State<E>)
    requires FlagFollows(s)
    ensures (exists steps :: Raises(s, steps, Wake)) <==> CanRiseUnwoken(s)
  {
    if CanRise(s) {
      var steps := RiseReached(s);
    } else if CanRiseUnwoken(s) {
      var steps := BusyReaches(s);
    } else {
      forall steps ensures !Raises(s, steps, Wake) {
        if Wake !in steps && After(s, steps).Some? {
          CannotRiseUnwoken(s, steps);
        }
      }
    }
  }

  // ------------------------------------------------------------------ rising while busy

  /** After the steps the counter is about to rise with the compiler busy. */
  ghost predicate MeetsBusy<E>(s: State<E>, steps: seq<Step<E>>) {
    After(s, steps).Some? && var t := After(s, steps).value; Enabled(t, Bump) && t.compiler == Busy
  }

  /** After the steps it is, and the channel holds an event. */
  ghost predicate MeetsUnread<E>(s: State<E>, steps: seq<Step<E>>) {
    MeetsBusy(s, steps) && After(s, steps).value.channel != []
  }

  lemma {:induction false} BumpReached<E>(s: State<E>) returns (steps: seq<Step<E>>)
    requires FlagFollows(s) && CanRise(s)
    ensures After(s, steps).Some? && Enabled(After(s, steps).value, Bump)
    decreases |s.channel|, Distance(s)
  {
    var step := Towards(s);
    TowardsProgresses(s);
    if step == Bump {
      steps := [];
    } else {
      var t := Apply(s, step);
      hide Apply, Enabled, CanRise, Towards;
      var rest := BumpReached(t);
      steps := [step] + rest;
      assert steps[1..] == rest;
    }
  }

  /** Before it rises the compiler can wake and send: neither looks at the transaction task. */
  lemma BusyBeforeRise<E>(s: State<E>, steps: seq<Step<E>>, e: E) returns (longer: seq<Step<E>>)
    requires After(s, steps).Some? && Enabled(After(s, steps).value, Bump)
    ensures MeetsUnread(s, longer)
  {
    hide After;
    longer := steps;
    if After(s, longer).value.compiler == Flagged {
      AfterMore(s, longer, NotifyIdle);
      longer := longer + [NotifyIdle];
    }
    if After(s, longer).value.compiler == Waiting {
      AfterMore(s, longer, Wake);
      longer := longer + [Wake];
    }
    AfterMore(s, longer, Send(e));
    longer := longer + [Send(e)];
  }

  /** From every live state the compiler can be brought to leave a signal. */
  lemma SignalReached<E>(s: State<E>) returns (steps: seq<Step<E>>)
    requires FlagFollows(s) && s.txn != Dead
    ensures After(s, steps).Some? && FlagFollows(After(s, steps).value) && CanRise(After(s, steps).value)
  {
    hide After;
    steps := [];
    AfterNothing(s);
    if !CanRise(s) {
      if s.compiler == Waiting {
        AfterMore(s, steps, Wake);
        steps := steps + [Wake];
      }
      AfterMore(s, steps, StoreIdle);
      steps := steps + [StoreIdle];
    }
  }

  lemma {:induction false} AfterBoth<E>(s: State<E>, a: seq<Step<E>>, b: seq<Step<E>>)
    requires After(s, a).Some?
    ensures After(s, a + b) == After(After(s, a).value, b)
    decreases |a|
  {
    hide Enabled, Apply;
    if a == [] {
      assert a + b == b;
    } else {
      AfterBoth(Apply(s, a[0]), a[1..], b);
      assert (a + b)[1..] == a[1..] + b;
    }
  }

  lemma {:induction false} DeadNeverRises<E>(s: State<E>, steps: seq<Step<E>>)
    requires s.txn == Dead && After(s, steps).Some?
    ensures After(s, steps).value.txn == Dead
    decreases |steps|
  {
    if steps == [] {
    } else {
      DeadStays(s, steps[0]);
      hide Apply, Enabled;
      DeadNeverRises(Apply(s, steps[0]), steps[1..]);
    }
  }

  /** Once an event could not be staged, nothing is committed or counted any more: what is sent stays in the channel. */
  lemma {:induction false} StagingEndsCommits<E>(s: State<E>, steps: seq<Step<E>>)
    requires Enabled(s, StagingFails) && After(Apply(s, StagingFails), steps).Some?
    ensures var t := After(Apply(s, StagingFails), steps).value;
            && t.committed == s.committed && t.generation == s.generation && t.batch == []
            && t.lost == s.lost + s.batch && s.channel <= t.channel
  {
    hide After;
    DeadCommitsNothing(Apply(s, StagingFails), steps);
  }

  lemma {:induction false} DeadCommitsNothing<E>(s: State<E>, steps: seq<Step<E>>)
    requires s.txn == Dead && After(s, steps).Some?
    ensures var t := After(s, steps).value;
            && t.committed == s.committed && t.generation == s.generation && t.batch == s.batch
            && t.lost == s.lost && s.channel <= t.channel
    decreases |steps|
  {
    if steps == [] {
    } else {
      var next := Apply(s, steps[0]);
      DeadStaysPut(s, steps[0]);
      hide Apply, Enabled;
      DeadCommitsNothing(next, steps[1..]);
    }
  }

  lemma DeadStaysPut<E>(s: State<E>, step: Step<E>)
    requires s.txn == Dead && Enabled(s, step)
    ensures var t := Apply(s, step);
            && t.txn == Dead && t.committed == s.committed && t.generation == s.generation && t.batch == s.batch
            && t.lost == s.lost && s.channel <= t.channel
  {
  }

  /**
   The counter is said to rise only with the channel empty and the compiler idle. It can rise with the
   compiler busy, and with an unread event in the channel, from every state in which it can rise at all:
   exactly while the transaction task lives.
   */
  lemma BusyRiseIff<E>(s: State<E>, e: E)
    requires FlagFollows(s)
    ensures (exists steps :: MeetsBusy(s, steps)) <==> s.txn != Dead
    ensures (exists steps :: MeetsUnread(s, steps)) <==> s.txn != Dead
  {
    if s.txn == Dead {
      forall steps ensures !MeetsBusy(s, steps) {
        if After(s, steps).Some? {
          DeadNeverRises(s, steps);
        }
      }
    } else {
      var signal := SignalReached(s);
      var rest := BumpReached(After(s, signal).value);
      AfterBoth(s, signal, rest);
      hide After, CanRise, FlagFollows, Enabled;
      var longer := BusyBeforeRise(s, signal + rest, e);
      assert MeetsBusy(s, longer);
    }
  }
}
