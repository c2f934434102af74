/**
 * Every simulated rollout as a whole: each step the planner takes, what holds
 * after all of them, and that the run ends where it should.
 */
module WholeRollout {
  import opened Roles
  import opened CoordinationWindow
  import opened RolloutState
  import opened DrainBudget
  import opened Planner
  import opened StepValidator
  import opened StepSafety
  import opened Simulation
  import opened Liveness
  import opened RenamedRollout
  import StepSelection

  /** A step whose counts a rollout can have reached. */
  ghost predicate Issued(r: Rollout, step: UpdateStep) {
    && r.Valid() && Below(step.past, r.initial) && Below(step.next, r.desired)
    && forall i | 0 <= i < r.Size() :: 0 <= step.past[i] && 0 <= step.next[i]
  }

  ghost predicate Follows(r: Rollout, before: UpdateStep, after: UpdateStep) {
    && Issued(r, before) && Issued(r, after)
    && ComputeNextStep(r.State(before.past, before.next)) == Some(after)
  }

  function Start(r: Rollout): UpdateStep
    requires r.Valid()
  {
    UpdateStep(r.initial, Zeros(r.Size()), Ordinary)
  }

  /** A run of the planner on its own output, from nothing issued. */
  ghost predicate IsRun(r: Rollout, steps: seq<UpdateStep>) {
    && r.Valid() && |steps| > 0 && steps[0] == Start(r)
    && Issued(r, steps[0])
    && forall k | 1 <= k < |steps| :: Follows(r, steps[k - 1], steps[k])
  }

  // --- One simulated step ---

  lemma SimulatedBasics(r: Rollout, past: seq<nat>, next: seq<nat>)
    requires r.Bounded(past, next)
    ensures var snapshot := r.Snapshot(past, next);
            && snapshot.oldSpec == past
            && (forall i | 0 <= i < r.Size() :: snapshot.parkedReady[i] == NOT_READY)
            && (forall i | 0 <= i < r.Size() :: snapshot.SurgeCeiling(i) == r.Ceiling(i))
  {}

  lemma NoFallback(r: Rollout, past: seq<nat>, next: seq<nat>)
    requires r.Bounded(past, next) && ComputeNextStep(r.State(past, next)).Some?
    ensures ComputeNextStep(r.State(past, next)).value.kind != UnavailableFallback
  {
    hide ComputeNextStep;
    StepSelection.NoFallbackUnrejected(r.State(past, next));
  }

  lemma SimulatedStepAccepted(r: Rollout, past: seq<nat>, next: seq<nat>, step: UpdateStep)
    requires r.Bounded(past, next) && ComputeNextStep(r.State(past, next)) == Some(step)
    ensures Accepted(r.State(past, next), step)
    ensures |step.past| == |step.next| == r.Size() && Below(step.past, past)
    ensures forall i | 0 <= i < r.Size() :: 0 <= step.past[i] && 0 <= step.next[i]
  {
    hide ComputeNextStep, ValidateUpdateStep, SnapshotFor, OldDrain;
    PlannerStepAccepted(r.State(past, next));
    AcceptedOldDrain(r.State(past, next), step);
  }

  lemma SimulatedSurge(r: Rollout, past: seq<nat>, next: seq<nat>, step: UpdateStep, i: nat)
    requires r.Bounded(past, next) && ComputeNextStep(r.State(past, next)) == Some(step) && i < r.Size()
    ensures |step.next| == r.Size() && 0 <= step.next[i] <= r.desired[i]
    ensures past[i] + step.next[i] <=
            Max(past[i] + next[i], if step.kind == BootstrapSurge then r.Ceiling(i) + 1 else r.Ceiling(i))
  {
    hide ComputeNextStep, ValidateUpdateStep, SnapshotFor;
    SimulatedStepAccepted(r, past, next, step);
    SimulatedBasics(r, past, next);
    AcceptedWithinSurge(r.State(past, next), step.past, step.next, step.kind, i);
  }

  /** One step of a simulation stays within where it came from and where it is going. */
  lemma SimulatedStep(r: Rollout, past: seq<nat>, next: seq<nat>, step: UpdateStep)
    requires r.Bounded(past, next) && ComputeNextStep(r.State(past, next)) == Some(step)
    ensures Issued(r, step)
    ensures Below(step.past, past)
    ensures step.kind != TargetRebalance ==> Below(next, step.next)
    ensures step.past != past || step.next != next
  {
    hide ComputeNextStep, ValidateUpdateStep, SnapshotFor;
    SimulatedStepAccepted(r, past, next, step);
    forall i | 0 <= i < r.Size()
      ensures 0 <= step.next[i] <= r.desired[i]
    {
      SimulatedSurge(r, past, next, step, i);
    }
    StepChanges(r.State(past, next), step);
    if step.kind != TargetRebalance {
      GrowsWithoutOptIn(r.State(past, next), step);
    }
  }

  lemma GrowsWithoutOptIn(state: RolloutState, step: UpdateStep)
    requires Accepted(state, step) && step.kind != TargetRebalance && !state.scaleDownDuringRollout
    ensures Below(state.target.spec, step.next)
  {
    hide ValidateUpdateStep, PrepareRolloutPlan, BoundsForStep, ValidateTargets, OldDrain;
    AcceptedShape(state, step);
    assert !TargetScalesDown(state, step);
  }

  lemma StepChanges(state: RolloutState, step: UpdateStep)
    requires ComputeNextStep(state) == Some(step)
    ensures step.past != state.activeOld.spec || step.next != state.target.spec
  {
    hide ComputeNextStep, PrepareRolloutPlan, ValidateUpdateStep;
    PlannerStepAccepted(state);
    if step.kind == TargetRebalance {
      RebalanceChanges(state, step);
    } else {
      AcceptedChanges(state, step);
    }
  }

  lemma AcceptedChanges(state: RolloutState, step: UpdateStep)
    requires Accepted(state, step) && step.kind != TargetRebalance
    ensures step.past != state.activeOld.spec || step.next != state.target.spec
  {
    hide ValidateUpdateStep, PrepareRolloutPlan, BoundsForStep, BoundGrowing, BoundDrainingSnapshotTargets, OldDrain;
    AcceptedShape(state, step);
    assert PrepareRolloutPlan(state).Changes(step);
  }

  lemma RebalanceIsSurplus(state: RolloutState, step: UpdateStep)
    requires ComputeNextStep(state) == Some(step) && step.kind == TargetRebalance
    ensures state.Valid() && DisjointSurplusStep(SnapshotFor(state)) == Some(step)
  {
    PlanPrepared(state);
    hide PrepareRolloutPlan, DisjointSurplusStep, FurthestOldTargets, FallbackSnapshot, SnapshotFor, BootstrapAllowed,
      BootstrapSnapshot, HardNewReplicaLimits, FurthestNewTargets, DrainsOverSurgeUnschedulableRole, OrdinaryNext,
      PhaseTargets;
  }

  lemma SurplusShape(snapshot: Snapshot, step: UpdateStep)
    requires snapshot.Valid() && DisjointSurplusStep(snapshot) == Some(step)
    ensures DisjointGrowthLimits(snapshot).Some? && step.next != snapshot.state.target.spec
  {
    hide DisjointGrowthLimits, TargetScaleDownMinimum, TargetDrain;
  }

  /** A rebalance takes something from the target, and only where renamed roles hold it back. */
  lemma RebalanceChanges(state: RolloutState, step: UpdateStep)
    requires ComputeNextStep(state) == Some(step) && step.kind == TargetRebalance
    ensures state.Valid() && step.next != state.target.spec && DisjointGrowthLimits(SnapshotFor(state)).Some?
  {
    hide ComputeNextStep, DisjointSurplusStep, SnapshotFor, DisjointGrowthLimits;
    RebalanceIsSurplus(state, step);
    SurplusShape(SnapshotFor(state), step);
  }

  // --- Every run ---

  lemma RunStep(r: Rollout, steps: seq<UpdateStep>, k: nat)
    requires IsRun(r, steps) && 1 <= k < |steps|
    ensures Issued(r, steps[k - 1]) && Issued(r, steps[k])
    ensures Below(steps[k].past, steps[k - 1].past)
    ensures steps[k].kind != TargetRebalance ==> Below(steps[k - 1].next, steps[k].next)
  {
    hide ComputeNextStep;
    assert Follows(r, steps[k - 1], steps[k]);
    SimulatedStep(r, steps[k - 1].past, steps[k - 1].next, steps[k]);
  }

  /** Role i has grown in some bootstrap step up to step k. */
  ghost predicate Borrowed(steps: seq<UpdateStep>, k: nat, i: nat)
    requires k < |steps|
  {
    exists j | 1 <= j <= k ::
      steps[j].kind == BootstrapSurge && i < |steps[j].next| == |steps[j - 1].next| &&
        steps[j].next[i] > steps[j - 1].next[i]
  }

  /**
   * Whole-run surge: even while the old groups of a step are still there, no
   * role exceeds its ceiling by more than one, and only a role that borrowed
   * a bootstrap slot exceeds it at all.
   */
  lemma {:induction false} RunWithinSurge(r: Rollout, steps: seq<UpdateStep>, k: nat, i: nat)
    requires IsRun(r, steps) && k < |steps| && i < r.Size()
    ensures Issued(r, steps[k])
    ensures var before := if k == 0 then steps[0] else steps[k - 1];
            && Issued(r, before)
            && steps[k].past[i] <= before.past[i]
            && before.past[i] + steps[k].next[i] <= r.Ceiling(i) + 1
            && (before.past[i] + steps[k].next[i] > r.Ceiling(i) ==> Borrowed(steps, k, i))
    decreases k
  {
    hide ComputeNextStep, Borrowed;
    if k > 0 {
      RunWithinSurge(r, steps, k - 1, i);
      RunStep(r, steps, k);
      BorrowedLater(steps, k, i);
      var before, after := steps[k - 1], steps[k];
      assert Follows(r, before, after);
      SimulatedSurge(r, before.past, before.next, after, i);
    }
  }

  lemma BorrowedLater(steps: seq<UpdateStep>, k: nat, i: nat)
    requires 1 <= k < |steps| && i < |steps[k].next| == |steps[k - 1].next|
    ensures steps[k].kind == BootstrapSurge && steps[k].next[i] > steps[k - 1].next[i] ==> Borrowed(steps, k, i)
    ensures Borrowed(steps, k - 1, i) ==> Borrowed(steps, k, i)
  {}

  /** The roles the old revision started with are all present, or all gone. */
  ghost predicate AllOrNothing(r: Rollout, past: seq<int>)
    requires r.Valid() && |past| == r.Size()
  {
    || (forall i | 0 <= i < r.Size() && r.initial[i] > 0 :: past[i] > 0)
    || (forall i | 0 <= i < r.Size() :: past[i] == 0)
  }

  lemma CompletenessKept(r: Rollout, past: seq<nat>, step: seq<int>)
    requires r.Valid() && Below(past, r.initial) && AllOrNothing(r, past)
    requires Below(step, past) && forall i | 0 <= i < r.Size() :: 0 <= step[i]
    requires BoundByCompleteness(past, step, Positive(r.initial)) == step
    ensures AllOrNothing(r, step)
  {
    if SomeRequiredStays(past, step, Positive(r.initial)) {
      forall i | 0 <= i < r.Size() && r.initial[i] > 0
        ensures step[i] > 0
      {
        assert BoundByCompleteness(past, step, Positive(r.initial))[i] == step[i];
      }
    } else {
      forall i | 0 <= i < r.Size()
        ensures step[i] == 0
      {
        assert r.initial[i] > 0 ==> Positive(r.initial)[i];
      }
    }
  }

  lemma AcceptedComplete(state: RolloutState, step: UpdateStep)
    requires Accepted(state, step) && !state.AllowsRevisionOutage(state.activeOld.required)
    ensures |step.past| == |state.config|
    ensures BoundByCompleteness(state.activeOld.spec, step.past, state.activeOld.required) == step.past
  {
    hide PrepareRolloutPlan, BoundsForStep, ValidateTargets, BoundByCompleteness;
  }

  /** Whole-run completeness: unless the policy permits an outage, old roles retire together. */
  lemma {:induction false} RunComplete(r: Rollout, steps: seq<UpdateStep>, k: nat)
    requires IsRun(r, steps) && k < |steps|
    requires forall i | 0 <= i < r.Size() && r.initial[i] > 0 && r.desired[i] > 0 ::
             r.config[i].maxUnavailable < r.desired[i]
    ensures Issued(r, steps[k]) && AllOrNothing(r, steps[k].past)
    decreases k
  {
    hide ComputeNextStep, ValidateUpdateStep;
    if k > 0 {
      RunComplete(r, steps, k - 1);
      RunStep(r, steps, k);
      var before, after := steps[k - 1], steps[k];
      assert Follows(r, before, after);
      var state := r.State(before.past, before.next);
      SimulatedStepAccepted(r, before.past, before.next, after);
      assert !state.AllowsRevisionOutage(state.activeOld.required);
      AcceptedComplete(state, after);
      CompletenessKept(r, before.past, after.past);
    }
  }

  lemma SimulatedAvailability(r: Rollout, past: seq<nat>, next: seq<nat>, step: UpdateStep, i: nat)
    requires r.Bounded(past, next) && ComputeNextStep(r.State(past, next)) == Some(step)
    requires i < r.Size() && r.desired[i] > 0
    ensures Issued(r, step)
    ensures step.past[i] + Min(next[i], step.next[i]) >=
            Min(past[i] + next[i], Minus(r.desired[i], r.config[i].maxUnavailable))
  {
    hide ComputeNextStep, ValidateUpdateStep, SnapshotFor;
    var state := r.State(past, next);
    SimulatedStep(r, past, next, step);
    SimulatedStepAccepted(r, past, next, step);
    SimulatedBasics(r, past, next);
    NoFallback(r, past, next);
    AcceptedKeepsReady(state, step.past, step.next, step.kind, i);
  }

  /**
   * Whole-run availability: counting only groups that were there before the
   * step, every live role keeps the smaller of its start and its floor.
   */
  lemma {:induction false} RunAvailable(r: Rollout, steps: seq<UpdateStep>, k: nat, i: nat)
    requires IsRun(r, steps) && k < |steps| && i < r.Size() && r.desired[i] > 0
    ensures Issued(r, steps[k])
    ensures var before := if k == 0 then steps[0] else steps[k - 1];
            && Issued(r, before)
            && steps[k].past[i] + Min(before.next[i], steps[k].next[i]) >=
                 Min(r.initial[i], Minus(r.desired[i], r.config[i].maxUnavailable))
    decreases k
  {
    hide ComputeNextStep;
    if k > 0 {
      RunAvailable(r, steps, k - 1, i);
      assert Follows(r, steps[k - 1], steps[k]);
      SimulatedAvailability(r, steps[k - 1].past, steps[k - 1].next, steps[k], i);
    }
  }

  // --- The simulation loop ---

  /** What is left to do: old groups to drain and target groups to issue. */
  ghost function Remaining(r: Rollout, past: seq<nat>, next: seq<nat>): int {
    Sum(past) + Sum(r.desired) - Sum(next)
  }

  lemma RemainingDecreases(r: Rollout, past: seq<nat>, next: seq<nat>, step: UpdateStep)
    requires r.Bounded(past, next) && ComputeNextStep(r.State(past, next)) == Some(step) && step.kind != TargetRebalance
    ensures Issued(r, step) && Remaining(r, step.past, step.next) < Remaining(r, past, next)
  {
    hide ComputeNextStep;
    SimulatedStep(r, past, next, step);
    SumBelow(step.past, past);
    SumBelow(next, step.next);
  }

  /** Surplus is reclaimed only where a renamed rollout may not start. */
  lemma NoRebalance(r: Rollout, past: seq<nat>, next: seq<nat>, step: UpdateStep)
    requires r.Bounded(past, next) && (r.NotRenamed() || (MayStart(r) && Budgeted(r)))
    requires ComputeNextStep(r.State(past, next)) == Some(step)
    ensures step.kind != TargetRebalance
  {
    hide ComputeNextStep, DisjointGrowthLimits, SnapshotFor, PhaseTargets, Sum;
    if step.kind == TargetRebalance {
      RebalanceChanges(r.State(past, next), step);
      if r.NotRenamed() {
        SimulatedSnapshot(r, past, next);
      } else if Finished(r, past, next) {
        SumZero(past);
        Unheld(r, past, next);
      } else {
        RenamedNeverStuck(r, past, next);
      }
    }
  }

  /** A renamed rollout that may not start never loses an old group, nor gets the role that waits for one. */
  lemma {:induction false} RunHeldBack(r: Rollout, steps: seq<UpdateStep>, k: nat, j: nat)
    requires IsRun(r, steps) && k < |steps| && Renamed(r) && !OldMayStart(r)
    requires j < r.Size() && r.desired[j] > 0 && r.config[j].maxSurge == 0
    ensures |steps[k].next| == r.Size() && steps[k].past == r.initial && steps[k].next[j] == 0
    decreases k
  {
    hide ComputeNextStep, OldMayStart;
    if k > 0 {
      RunHeldBack(r, steps, k - 1, j);
      var before, after := steps[k - 1], steps[k];
      assert Follows(r, before, after);
      NoFallback(r, before.past, before.next);
      StaysHeldBack(r, before.past, before.next, j, after);
    }
  }

  /** Whether a rollout can finish at all. */
  ghost predicate Completes(r: Rollout)
    requires r.Valid()
  {
    r.NotRenamed() || MayStart(r)
  }

  lemma FinishesOnlyIf(r: Rollout, steps: seq<UpdateStep>)
    requires IsRun(r, steps) && !Completes(r)
    ensures steps[|steps| - 1].past != Zeros(r.Size())
  {
    var j :| 0 <= j < r.Size() && r.desired[j] > 0 && r.config[j].maxSurge == 0;
    RunHeldBack(r, steps, |steps| - 1, j);
    SumZero(Zeros(r.Size()));
  }

  /** Two single-group roles are enough: no run of this rollout loses its old group. */
  lemma MayNotComplete(r: Rollout)
    requires r == Rollout([0, 1], [1, 0], [RollingUpdateConfig(0, 1), RollingUpdateConfig(1, 0)])
    ensures Budgeted(r) && !Completes(r)
    ensures forall steps: seq<UpdateStep> | IsRun(r, steps) :: steps[|steps| - 1].past != Zeros(r.Size())
  {
    SumZero(r.initial);
    SumZero(r.desired);
    assert r.initial[1] > 0 && r.desired[0] > 0 && r.config[0].maxSurge == 0;
    hide Sum, IsRun, Completes;
    forall steps: seq<UpdateStep> | IsRun(r, steps)
      ensures steps[|steps| - 1].past != Zeros(r.Size())
    {
      FinishesOnlyIf(r, steps);
    }
  }

  /** Every old role that is to have no groups may release one. */
  ghost predicate Releasable(r: Rollout)
    requires r.Valid()
  {
    forall i | 0 <= i < r.Size() && r.initial[i] > 0 && r.desired[i] == 0 :: r.config[i].maxUnavailable > 0
  }

  lemma ReleasableCompletes(r: Rollout)
    requires r.Valid() && Releasable(r)
    ensures Completes(r)
  {}

  lemma ObservedState(r: Rollout, past: seq<nat>, next: seq<nat>, step: UpdateStep)
    requires r.Bounded(past, next) && Issued(r, step) && Below(step.past, past)
    ensures var state := r.State(past, next);
            r.State(step.past, step.next) == state.(
              activeOld := state.activeOld.ObserveFullyReady(step.past),
              target := state.target.ObserveFullyReady(step.next),
              baseline := if Sum(step.past) == 0 then Zeros(r.Size()) else state.baseline)
  {
    SumBelow(step.past, past);
  }

  lemma RunStarts(r: Rollout)
    requires r.Valid()
    ensures IsRun(r, [Start(r)])
  {}

  lemma RunExtends(r: Rollout, steps: seq<UpdateStep>, step: UpdateStep)
    requires IsRun(r, steps) && Follows(r, steps[|steps| - 1], step)
    ensures IsRun(r, steps + [step])
  {
    hide Follows;
    var longer := steps + [step];
    forall k | 1 <= k < |longer|
      ensures Follows(r, longer[k - 1], longer[k])
    {
      assert k < |steps| ==> Follows(r, steps[k - 1], steps[k]);
    }
  }

  /** One round of the simulation. */
  lemma RunContinues(r: Rollout, steps: seq<UpdateStep>, past: seq<nat>, next: seq<nat>, step: UpdateStep)
    requires IsRun(r, steps) && r.Bounded(past, next) && ComputeNextStep(r.State(past, next)) == Some(step)
    requires steps[|steps| - 1].past == past && steps[|steps| - 1].next == next
    ensures IsRun(r, steps + [step]) && Issued(r, step) && Below(step.past, past)
  {
    hide ComputeNextStep, IsRun;
    SimulatedStep(r, past, next, step);
    RunStepIssued(r, steps);
    RunExtends(r, steps, step);
  }

  lemma RunStepIssued(r: Rollout, steps: seq<UpdateStep>)
    requires IsRun(r, steps)
    ensures |steps| > 0 && Issued(r, steps[|steps| - 1])
  {
    hide ComputeNextStep;
    if |steps| > 1 {
      assert Follows(r, steps[|steps| - 2], steps[|steps| - 1]);
    }
  }

  /**
   * No deadlock: short of its end, every fully Ready state of a rollout that
   * completes at all has an ordinary step or one bootstrap slot.
   */
  lemma StepUnlessFinished(r: Rollout, past: seq<nat>, next: seq<nat>)
    requires r.Bounded(past, next) && Completes(r) && Budgeted(r) && !Finished(r, past, next)
    ensures var step := ComputeNextStep(r.State(past, next));
            step.Some? && (step.value.kind == Ordinary || step.value.kind == BootstrapSurge)
  {
    hide ComputeNextStep, MayStart, Sum;
    if r.NotRenamed() {
      NeverStuck(r, past, next);
    } else {
      RenamedNeverStuck(r, past, next);
    }
  }

  /**
   * Runs the planner to its fixed point. The run ends with nothing old left and
   * everything desired issued exactly if the rollout shares a role or its budgets
   * let it start, and then the iteration cap is never what stops it.
   */
  method ComputeAllSteps(r: Rollout) returns (steps: seq<UpdateStep>)
    requires r.Valid()
    ensures IsRun(r, steps)
    ensures Budgeted(r) ==>
              var last := steps[|steps| - 1];
              && (last.past == Zeros(r.Size()) && last.next == r.desired <==> Completes(r))
              && (Completes(r) ==> |steps| <= Sum(r.initial) + Sum(r.desired) + 1)
    ensures Budgeted(r) && Releasable(r) ==>
              steps[|steps| - 1].past == Zeros(r.Size()) && steps[|steps| - 1].next == r.desired
  {
    hide ComputeNextStep, Completes, Budgeted, IsRun, Finished, Remaining, Releasable;
    var state := r.State(r.initial, Zeros(r.Size()));
    ghost var past: seq<nat>, next: seq<nat> := r.initial, Zeros(r.Size());
    steps := [Start(r)];
    RunStarts(r);
    RemainingAtStart(r);
    var cap := Sum(r.initial) + Sum(r.desired) + 10;
    for round := 0 to cap
      invariant |steps| == round + 1 && IsRun(r, steps)
      invariant steps[round].past == past && steps[round].next == next
      invariant r.Bounded(past, next) && state == r.State(past, next)
      invariant Budgeted(r) && Completes(r) ==> Remaining(r, past, next) + round <= Sum(r.initial) + Sum(r.desired)
    {
      var step := ComputeNextStep(state);
      if step.None? {
        break;
      }
      if Budgeted(r) && Completes(r) {
        StepRemaining(r, past, next, step.value);
      }
      RunContinues(r, steps, past, next, step.value);
      ObservedState(r, past, next, step.value);
      steps := steps + [step.value];
      state := state.(
        activeOld := state.activeOld.ObserveFullyReady(step.value.past),
        target := state.target.ObserveFullyReady(step.value.next),
        baseline := if Sum(step.value.past) == 0 then Zeros(r.Size()) else state.baseline);
      past, next := step.value.past, step.value.next;
    }
    RunEnds(r, steps, past, next);
    if Releasable(r) {
      ReleasableCompletes(r);
    }
  }

  lemma RemainingAtStart(r: Rollout)
    requires r.Valid()
    ensures Remaining(r, r.initial, Zeros(r.Size())) == Sum(r.initial) + Sum(r.desired)
  {
    SumZero(Zeros(r.Size()));
  }

  lemma RunEnds(r: Rollout, steps: seq<UpdateStep>, past: seq<nat>, next: seq<nat>)
    requires IsRun(r, steps) && r.Bounded(past, next)
    requires steps[|steps| - 1].past == past && steps[|steps| - 1].next == next
    requires Budgeted(r) && Completes(r) ==> Remaining(r, past, next) + |steps| <= Sum(r.initial) + Sum(r.desired) + 1
    requires ComputeNextStep(r.State(past, next)).None? || |steps| == Sum(r.initial) + Sum(r.desired) + 11
    ensures Budgeted(r) ==>
              && (past == Zeros(r.Size()) && next == r.desired <==> Completes(r))
              && (Completes(r) ==> |steps| <= Sum(r.initial) + Sum(r.desired) + 1)
  {
    hide ComputeNextStep, Completes, IsRun;
    SumBelow(next, r.desired);
    if Completes(r) {
      if Budgeted(r) {
        if !Finished(r, past, next) {
          StepUnlessFinished(r, past, next);
        }
      }
    } else {
      FinishesOnlyIf(r, steps);
    }
  }

  lemma StepRemaining(r: Rollout, past: seq<nat>, next: seq<nat>, step: UpdateStep)
    requires r.Bounded(past, next) && Completes(r) && Budgeted(r) && ComputeNextStep(r.State(past, next)) == Some(step)
    ensures Issued(r, step) && Remaining(r, step.past, step.next) < Remaining(r, past, next)
  {
    hide ComputeNextStep, MayStart;
    NoRebalance(r, past, next, step);
    RemainingDecreases(r, past, next, step);
  }
}
