/**
 The waiting side of `wait_for_idle` (src/watch.rs): it compares the counter with its snapshot and, if it
 has not risen, registers for the next announcement. A rise is counted first and announced afterwards, and
 an announcement reaches registered waiters only. All interleavings with the transaction task count.
 */
module Waiter {
  import opened Properties

  datatype Phase =
    | Checking     // about to load the counter
    | Registering  // found no rise, has not created its `notified` future yet
    | Parked
    | Returned

  /** `announcing`: a rise has been counted and its `notify_waiters` is still to come. */
  datatype State = State(generation: nat, announcing: bool, snapshot: nat, phase: Phase)

  datatype Step = Raise | Announce | Check | Register

  predicate Enabled(s: State, step: Step) {
    match step
    case Raise => !s.announcing
    case Announce => s.announcing
    case Check => s.phase == Checking
    case Register => s.phase == Registering
  }

  function Apply(s: State, step: Step): State
    requires Enabled(s, step)
  {
    match step
    case Raise => s.(generation := s.generation + 1, announcing := true)
    case Announce => s.(announcing := false, phase := if s.phase == Parked then Checking else s.phase)
    case Check => s.(phase := if s.generation > s.snapshot then Returned else Registering)
    case Register => s.(phase := Parked)
  }

  /** Takes the steps one after another; None when one is not enabled. */
  ghost function After(s: State, steps: seq<Step>): Option<State>
    decreases |steps|
  {
    if steps == [] then Some(s)
    else if Enabled(s, steps[0]) then After(Apply(s, steps[0]), steps[1..])
    else None
  }

  /** The steps let the waiter return. */
  ghost predicate Releases(s: State, steps: seq<Step>) {
    After(s, steps).Some? && After(s, steps).value.phase == Returned
  }

  // ------------------------------------------------------------------ it returns only after a rise

  /** Just after the snapshot. */
  predicate Begins(s: State) {
    s.phase == Checking && s.snapshot == s.generation
  }

  predicate Honest(s: State) {
    s.snapshot <= s.generation && (s.phase == Returned ==> s.snapshot < s.generation)
  }

  /** Whatever the interleaving, a waiter that returned has seen the counter above its snapshot. */
  lemma {:induction false} ReturnsAfterRise(s: State, steps: seq<Step>)
    requires Honest(s) && After(s, steps).Some?
    ensures Honest(After(s, steps).value) && After(s, steps).value.snapshot == s.snapshot
    decreases |steps|
  {
    if steps == [] {
    } else {
      ReturnsAfterRise(Apply(s, steps[0]), steps[1..]);
    }
  }

  // ------------------------------------------------------------------ when it returns without another rise

  /** What has been counted reaches the waiter: it will look again, or the announcement is still to come. */
  predicate Reached(s: State) {
    s.phase == Returned || (s.generation > s.snapshot && (s.phase == Checking || s.announcing))
  }

  /** The steps by which it then returns. */
  function Release(s: State): seq<Step>
    requires Reached(s)
  {
    match s.phase
    case Returned => []
    case Checking => [Check]
    case Registering => [Register, Announce, Check]
    case Parked => [Announce, Check]
  }

  lemma ReleaseWorks(s: State)
    requires Reached(s)
    ensures Releases(s, Release(s)) && Raise !in Release(s)
  {
    var steps := Release(s);
    if s.phase == Parked {
      assert steps[1..] == [Check] && [Check][1..] == [];
    } else if s.phase == Registering {
      assert steps[1..] == [Announce, Check] && [Announce, Check][1..] == [Check] && [Check][1..] == [];
    }
  }

  lemma StepUnreached(s: State, step: Step)
    requires !Reached(s) && Enabled(s, step) && step != Raise
    ensures !Reached(Apply(s, step))
  {
  }

  lemma {:induction false} StaysUnreached(s: State, steps: seq<Step>)
    requires !Reached(s) && After(s, steps).Some? && Raise !in steps
    ensures !Reached(After(s, steps).value)
    decreases |steps|
  {
    if steps == [] {
    } else {
      assert steps[0] in steps && forall x | x in steps[1..] :: x in steps;
      StepUnreached(s, steps[0]);
      StaysUnreached(Apply(s, steps[0]), steps[1..]);
    }
  }

  /** The waiter can return without another rise exactly from these states. */
  lemma ReturnsIff(s: State)
    ensures (exists steps :: Raise !in steps && Releases(s, steps)) <==> Reached(s)
  {
    if Reached(s) {
      ReleaseWorks(s);
    } else {
      forall steps | Raise !in steps && After(s, steps).Some? ensures !Releases(s, steps) {
        StaysUnreached(s, steps);
      }
    }
  }

  // ------------------------------------------------------------------ a missed announcement

  /** A rise has been counted and announced, and the waiter is on its way to sleep or asleep. */
  predicate Missed(s: State) {
    s.generation > s.snapshot && !s.announcing && (s.phase == Registering || s.phase == Parked)
  }

  /** A waiter comes to miss a rise exactly when it is announced between its check and its registration. */
  lemma MissesIff(s: State, step: Step)
    requires Enabled(s, step) && !Missed(s)
    ensures Missed(Apply(s, step)) <==> step == Announce && s.phase == Registering && s.generation > s.snapshot
  {
  }

  /** It then sleeps through everything but another rise, which releases it. */
  lemma MissedNeedsRise(s: State)
    requires Missed(s)
    ensures !(exists steps :: Raise !in steps && Releases(s, steps))
    ensures Releases(s, if s.phase == Parked then [Raise, Announce, Check] else [Raise, Register, Announce, Check])
  {
    ReturnsIff(s);
    var t := Apply(s, Raise);
    ReleaseWorks(t);
    assert ([Raise] + Release(t))[1..] == Release(t);
    assert [Raise] + Release(t)
        == if s.phase == Parked then [Raise, Announce, Check] else [Raise, Register, Announce, Check];
  }

  /** From every beginning a single rise can be missed. */
  lemma RiseIsMissed(s: State)
    requires Begins(s) && !s.announcing
    ensures After(s, [Check, Raise, Announce, Register]).Some?
    ensures Missed(After(s, [Check, Raise, Announce, Register]).value)
  {
    var steps := [Check, Raise, Announce, Register];
    assert steps[1..] == [Raise, Announce, Register] && steps[1..][1..] == [Announce, Register];
    assert [Announce, Register][1..] == [Register] && [Register][1..] == [];
  }
}
