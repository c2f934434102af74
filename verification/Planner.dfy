/**
 * One step of a coordinated rollout: growth and drains within all budgets if
 * there are any, else surplus of renamed roles taken back, else a borrowed surge
 * slot, and as a last resort one group less than the floor where Pods do not fit.
 */
module Planner {
  import opened Roles
  import opened CoordinationWindow
  import opened RolloutState
  import opened DrainBudget

  datatype StepKind = Ordinary | BootstrapSurge | UnavailableFallback | TargetRebalance

  /** Proposed Specs for the active old revision (`past`) and the target (`next`). */
  datatype UpdateStep = UpdateStep(past: seq<int>, next: seq<int>, kind: StepKind)

  // --- Growth limits ---

  function PhaseTarget(snapshot: Snapshot, i: nat): nat
    requires snapshot.Valid() && i < snapshot.Size()
  {
    var desired := snapshot.state.desired[i];
    var parked := if snapshot.Disjoint() then 0 else snapshot.parkedReady[i].usable;
    var residual := Minus(desired, parked);
    Max(snapshot.state.target.spec[i], if desired > 0 then Max(1, residual) else residual)
  }

  /** What this candidate has to reach: less where parked revisions serve, but a group of each wanted role. */
  function PhaseTargets(snapshot: Snapshot): (phase: seq<nat>)
    requires snapshot.Valid()
    ensures |phase| == snapshot.Size() && Below(snapshot.state.target.spec, phase)
  {
    seq(snapshot.Size(), i requires 0 <= i < snapshot.Size() => PhaseTarget(snapshot, i))
  }

  function ProjectBudget(count: nat, budget: nat, steps: nat): nat {
    if count == 0 || budget == 0 || steps == 0 then 0
    else
      NonNegativeProduct(count, budget);
      QuotientAtMost(count * budget + steps - 1, steps);
      (count * budget + steps - 1) / steps
  }

  function StepCount(initial: seq<nat>, desired: seq<nat>): nat
    requires |initial| == |desired|
  {
    if |initial| == 0 then 0
    else
      var n := |initial| - 1;
      Max(StepCount(initial[..n], desired[..n]), Max(initial[n], desired[n]))
  }

  /** The surge limit, and while old groups remain the pending-readiness limit with its Ready credit. */
  function PendingGrowthLimit(snapshot: Snapshot, i: nat, progress: Window, steps: nat): (r: (int, nat))
    requires snapshot.Valid() && i < snapshot.Size()
  {
    var state, disjoint := snapshot.state, snapshot.Disjoint();
    var limit := Minus(snapshot.SurgeCeiling(i), snapshot.oldSpec[i]);
    if snapshot.oldSpec[i] == 0 && !disjoint then
      (limit, state.target.ready[i])
    else
      var credit :=
        if disjoint && progress.target > 0 then progress.ReadyCredit(state.desired[i]) else state.target.ready[i];
      var config, replicas := state.config[i], Max(state.initial[i], state.desired[i]);
      (Min(limit, credit + ProjectBudget(replicas, config.maxSurge + config.maxUnavailable, steps)), credit)
  }

  /** Drain progress of removed roles, over the first k roles. */
  function ReleasedWindow(snapshot: Snapshot, k: nat): Window
    requires snapshot.Valid() && k <= snapshot.Size()
  {
    if k == 0 then EMPTY_WINDOW
    else
      var i, before := k - 1, ReleasedWindow(snapshot, k - 1);
      if ReleasesRole(snapshot, i)
      then before.IncludeProgress(snapshot.state.baseline[i],
                                  Max(0, Minus(snapshot.state.baseline[i], snapshot.disjointSpec[i])))
      else before
  }

  predicate ReleasesRole(snapshot: Snapshot, i: nat)
    requires snapshot.Valid() && i < snapshot.Size()
  {
    snapshot.state.desired[i] == 0 && snapshot.Unreplaced(i) > 0
  }

  /** Renamed-role growth: only as fast as the removed roles actually drained. */
  function DisjointGrowthLimits(snapshot: Snapshot): (limits: Option<seq<nat>>)
    requires snapshot.Valid()
    ensures limits.Some? ==> |limits.value| == snapshot.Size()
  {
    var size, state := snapshot.Size(), snapshot.state;
    var progress := ReleasedWindow(snapshot, size);
    var hasOld := exists i | 0 <= i < size :: ReleasesRole(snapshot, i) && snapshot.disjointSpec[i] > 0;
    var hasProgress := exists i | 0 <= i < size ::
      ReleasesRole(snapshot, i) && state.baseline[i] > snapshot.disjointSpec[i];
    if !hasOld || progress.target == 0 then None
    else Some(seq(size, i requires 0 <= i < size =>
      DisjointLimit(state.desired[i], state.config[i].maxSurge, progress, hasProgress)))
  }

  /** A role's share of what has drained, and its surge; once anything has drained, at least one group. */
  function DisjointLimit(desired: nat, maxSurge: nat, progress: Window, hasProgress: bool): nat
    requires progress.target > 0
  {
    var limit := CeilingShare(desired, progress.least, progress.target) + maxSurge;
    if hasProgress && desired > 0 then Max(1, limit) else limit
  }

  /** ceil(replicas * numerator / denominator). */
  function CeilingShare(replicas: nat, numerator: nat, denominator: nat): nat
    requires denominator > 0
  {
    NonNegativeProduct(replicas, numerator);
    QuotientAtMost(replicas * numerator + denominator - 1, denominator);
    (replicas * numerator + denominator - 1) / denominator
  }

  function HardNewReplicaLimit(
    snapshot: Snapshot, released: Option<seq<nat>>, progress: Window, steps: nat, i: nat
  ): nat
    requires snapshot.Valid() && i < snapshot.Size()
    requires released.Some? ==> |released.value| == snapshot.Size()
  {
    var state := snapshot.state;
    var (pending, credit) := PendingGrowthLimit(snapshot, i, progress, steps);
    var limit :=
      if released.None? then pending
      else if progress.target > 0 && progress.least > 0 then Min(pending, Max(released.value[i], credit + 1))
      else if progress.target > 0 then Min(Min(pending, released.value[i]), 1)
      else Min(pending, released.value[i]);
    Max(state.target.spec[i], Min(state.desired[i], limit))
  }

  /** How far each role may grow now, and no less than it has been issued. */
  function HardNewReplicaLimits(snapshot: Snapshot): (limits: seq<nat>)
    requires snapshot.Valid()
    ensures |limits| == snapshot.Size() && Below(snapshot.state.target.spec, limits)
  {
    var state := snapshot.state;
    var released, progress := DisjointGrowthLimits(snapshot), WindowFor(state.desired, state.target.ready);
    var steps := StepCount(state.initial, state.desired);
    seq(snapshot.Size(), i requires 0 <= i < snapshot.Size() =>
        HardNewReplicaLimit(snapshot, released, progress, steps, i))
  }

  function GrowthProposed(phase: seq<nat>, limits: seq<nat>): (proposed: seq<nat>)
    requires |phase| == |limits|
    ensures |proposed| == |phase|
  {
    seq(|phase|, i requires 0 <= i < |phase| => Min(phase[i], limits[i]))
  }

  function FurthestNewTargets(snapshot: Snapshot, phase: seq<nat>, limits: seq<nat>): (targets: seq<nat>)
    requires snapshot.Valid() && |phase| == |limits| == snapshot.Size()
    ensures |targets| == snapshot.Size()
  {
    BoundGrowing(snapshot.state.target.spec, phase, GrowthProposed(phase, limits))
  }

  // --- Target reductions ---

  /** A removed role whose capacity the target has to make up for. */
  predicate NeedsCredit(snapshot: Snapshot, i: nat)
    requires snapshot.Valid() && i < snapshot.Size()
  {
    snapshot.state.desired[i] == 0 && snapshot.state.baseline[i] > 0
  }

  /** Replacement credit a removed role still needs once pending old deletions are done. */
  function NeededCredit(snapshot: Snapshot, progress: Window, i: nat): nat
    requires snapshot.Valid() && i < snapshot.Size()
  {
    var baseline, retained := snapshot.state.baseline[i], snapshot.OldReady(i);
    var floor := Max(0, Minus(baseline, snapshot.state.config[i].maxUnavailable));
    var observed := retained.rawUsable + snapshot.TargetReady(i).rawUsable + progress.ReadyCredit(baseline);
    Max(0, Minus(Min(observed, floor), retained.usable))
  }

  /** The largest fraction of the target that some removed role still needs, over the first k roles. */
  function DisjointReadyFraction(snapshot: Snapshot, progress: Window, k: nat): (r: (nat, nat))
    requires snapshot.Valid() && k <= snapshot.Size()
    ensures r.1 > 0
  {
    if k == 0 || progress.target == 0 then (0, 1)
    else
      var i, before := k - 1, DisjointReadyFraction(snapshot, progress, k - 1);
      if !NeedsCredit(snapshot, i) then before
      else
        var needed, baseline := NeededCredit(snapshot, progress, i), snapshot.state.baseline[i];
        if needed * before.1 > before.0 * baseline then (needed, baseline) else before
  }

  function NeededFraction(snapshot: Snapshot): (r: (nat, nat))
    requires snapshot.Valid()
    ensures r.1 > 0
  {
    DisjointReadyFraction(snapshot, TargetReadyProgress(snapshot.state, snapshot.state.target.rawReady),
                          snapshot.Size())
  }

  function TargetMinimum(snapshot: Snapshot, budgetMinimum: nat, fraction: (nat, nat), i: nat): (minimum: nat)
    requires snapshot.Valid() && i < snapshot.Size() && fraction.1 > 0
    ensures budgetMinimum <= snapshot.state.target.spec[i] ==> minimum <= snapshot.state.target.spec[i]
  {
    var state, target, desired := snapshot.state, snapshot.state.target, snapshot.state.desired[i];
    var required := Min(CeilingShare(desired, fraction.0, fraction.1), target.rawReady[i]);
    var minimum := Max(budgetMinimum, MinimumSpecToPreserveReady(target.spec[i], target.ready[i], required));
    if i >= |state.allUnscheduled| || !state.allUnscheduled[i] || target.rawReady[i] > 0 || target.ready[i] > 0
    then Max(minimum, Min(target.spec[i], desired))
    else minimum
  }

  /** New-side drains also preserve credit already spent on renamed roles, and possible startup work. */
  function TargetScaleDownMinimum(snapshot: Snapshot): (minimum: seq<nat>)
    requires snapshot.Valid()
    ensures |minimum| == snapshot.Size() && Below(minimum, snapshot.state.target.spec)
  {
    var state := snapshot.state;
    var budgetMinimum := TargetDrain(snapshot).MinimumTargets();
    var fraction := NeededFraction(snapshot);
    seq(snapshot.Size(), i requires 0 <= i < snapshot.Size() => TargetMinimum(snapshot, budgetMinimum[i], fraction, i))
  }

  function TargetScaleDownTarget(snapshot: Snapshot, minimum: nat, i: nat): nat
    requires snapshot.Valid() && i < snapshot.Size()
  {
    var state, spec, desired := snapshot.state, snapshot.state.target.spec[i], snapshot.state.desired[i];
    if spec <= desired then spec
    else
      var ceiling :=
        if snapshot.oldSpec[i] > 0
        then Min(spec, Max(0, Minus(desired + state.config[i].maxSurge, snapshot.oldSpec[i])))
        else desired;
      Max(if state.target.required[i] && spec > 0 then Max(1, ceiling) else ceiling, minimum)
  }

  function FurthestTargetScaleDownTargets(snapshot: Snapshot): (targets: seq<nat>)
    requires snapshot.Valid()
    ensures |targets| == snapshot.Size()
  {
    var minimum := TargetScaleDownMinimum(snapshot);
    var targets :=
      seq(snapshot.Size(), i requires 0 <= i < snapshot.Size() => TargetScaleDownTarget(snapshot, minimum[i], i));
    if TargetDrain(snapshot).Preserves(targets) then targets else snapshot.state.target.spec
  }

  predicate TargetScaleDownPreservesAvailability(snapshot: Snapshot, targets: seq<int>)
    requires snapshot.Valid() && |targets| == snapshot.Size()
  {
    var spec, minimum := snapshot.state.target.spec, TargetScaleDownMinimum(snapshot);
    var drainsOnly := seq(snapshot.Size(), i requires 0 <= i < snapshot.Size() => Min(targets[i], spec[i]));
    && (forall i | 0 <= i < snapshot.Size() :: drainsOnly[i] >= minimum[i])
    && TargetDrain(snapshot).Preserves(drainsOnly)
  }

  // --- Recovery ---

  function SurplusTarget(snapshot: Snapshot, limit: nat, minimum: nat, i: nat): nat
    requires snapshot.Valid() && i < snapshot.Size()
  {
    var target := snapshot.state.target;
    var keepReady := MinimumSpecToPreserveReady(target.spec[i], target.ready[i], Min(1, target.ready[i]));
    Min(target.spec[i], Max(Max(limit, Min(1, target.spec[i])), Max(keepReady, minimum)))
  }

  function SurplusTargets(snapshot: Snapshot, limits: seq<nat>, minimum: seq<nat>): (targets: seq<nat>)
    requires snapshot.Valid() && |limits| == |minimum| == snapshot.Size()
    ensures |targets| == snapshot.Size()
  {
    seq(snapshot.Size(), i requires 0 <= i < snapshot.Size() => SurplusTarget(snapshot, limits[i], minimum[i], i))
  }

  /** Takes back groups that renamed roles hold beyond their limits, but never the Ready one a role depends on. */
  function DisjointSurplusStep(snapshot: Snapshot): (step: Option<UpdateStep>)
    requires snapshot.Valid()
    ensures step.Some? ==> |step.value.past| == |step.value.next| == snapshot.Size()
  {
    var state, limits := snapshot.state, DisjointGrowthLimits(snapshot);
    if limits.None? || AllRequiredPresent(state.target.required, state.target.ready) then None
    else if exists i | 0 <= i < snapshot.Size() :: state.desired[i] > 0 && state.baseline[i] > 0 then None
    else
      var next := SurplusTargets(snapshot, limits.value, TargetScaleDownMinimum(snapshot));
      if next == state.target.spec || !TargetDrain(snapshot).Preserves(next) then None
      else Some(UpdateStep(state.activeOld.spec, next, TargetRebalance))
  }

  /** A role borrows a slot for its first group, or where only its ceiling stops a Ready role in a scale-up. */
  predicate Borrows(snapshot: Snapshot, phase: seq<nat>, limits: seq<nat>, i: nat)
    requires snapshot.Valid() && |phase| == |limits| == snapshot.Size() && i < snapshot.Size()
  {
    var state, current := snapshot.state, snapshot.state.target.spec[i];
    var coordinationBlocked :=
      && (state.scaleDownDuringRollout || DemandExceedsBaseline(snapshot))
      && snapshot.oldSpec[i] + current == snapshot.SurgeCeiling(i)
      && state.target.ready[i] >= current;
    && !(DisjointGrowthLimits(snapshot).Some? && snapshot.oldSpec[i] == 0)
    && state.config[i].maxSurge + state.config[i].maxUnavailable > 0
    && phase[i] > current && limits[i] == current
    && (current == 0 || coordinationBlocked)
  }

  function BootstrapConfig(snapshot: Snapshot, phase: seq<nat>, limits: seq<nat>): (config: seq<RollingUpdateConfig>)
    requires snapshot.Valid() && |phase| == |limits| == snapshot.Size()
    ensures |config| == snapshot.Size()
  {
    seq(snapshot.Size(), i requires 0 <= i < snapshot.Size() =>
      var config := snapshot.state.config[i];
      if Borrows(snapshot, phase, limits, i)
      then config.(maxSurge := config.maxSurge + Max(1, Minus(snapshot.oldSpec[i], snapshot.SurgeCeiling(i)) + 1))
      else config)
  }

  predicate BootstrapAllowed(snapshot: Snapshot, phase: seq<nat>, limits: seq<nat>)
    requires snapshot.Valid() && |phase| == |limits| == snapshot.Size()
  {
    exists i | 0 <= i < snapshot.Size() :: Borrows(snapshot, phase, limits, i)
  }

  function BootstrapSnapshot(snapshot: Snapshot, phase: seq<nat>, limits: seq<nat>): (s: Snapshot)
    requires snapshot.Valid() && |phase| == |limits| == snapshot.Size()
    ensures s.Valid() && s.Size() == snapshot.Size()
  {
    snapshot.WithConfig(BootstrapConfig(snapshot, phase, limits))
  }

  /** Each floor above one lowered by one. */
  function FallbackSnapshot(snapshot: Snapshot): (s: Snapshot)
    requires snapshot.Valid()
    ensures s.Valid() && s.Size() == snapshot.Size()
  {
    snapshot.WithConfig(seq(snapshot.Size(), i requires 0 <= i < snapshot.Size() =>
      var config := snapshot.state.config[i];
      if snapshot.AvailabilityFloor(i) > 1 then config.(maxUnavailable := config.maxUnavailable + 1) else config))
  }

  predicate DrainsOverSurgeUnschedulableRole(snapshot: Snapshot, proposed: seq<int>)
    requires snapshot.Valid() && |proposed| == snapshot.Size()
  {
    exists i | 0 <= i < snapshot.Size() ::
      && snapshot.state.unschedulable[i]
      && snapshot.oldSpec[i] + snapshot.state.target.spec[i] > snapshot.SurgeCeiling(i)
      && proposed[i] < snapshot.state.activeOld.spec[i]
  }

  // --- The plan ---

  datatype Plan = Plan(snapshot: Snapshot, phase: seq<nat>, limits: seq<nat>, ordinary: UpdateStep) {
    predicate Valid() {
      && snapshot.Valid()
      && |phase| == |limits| == |ordinary.past| == |ordinary.next| == snapshot.Size()
    }

    predicate Changes(step: UpdateStep)
      requires Valid() && |step.past| == |step.next| == snapshot.Size()
    {
      exists i | 0 <= i < snapshot.Size() ::
        step.past[i] != snapshot.state.activeOld.spec[i] || step.next[i] != snapshot.state.target.spec[i]
    }

    function BootstrapStep(): (step: Option<UpdateStep>)
      requires Valid()
      ensures step.Some? ==> |step.value.past| == |step.value.next| == snapshot.Size()
    {
      if !BootstrapAllowed(snapshot, phase, limits) then None
      else
        var bootstrap := BootstrapSnapshot(snapshot, phase, limits);
        var next := FurthestNewTargets(bootstrap, phase, HardNewReplicaLimits(bootstrap));
        var step := UpdateStep(ordinary.past, next, BootstrapSurge);
        if Changes(step) then Some(step) else None
    }
  }

  /** Growth, except that an opted-in target reduction replaces it when no old drain is possible. */
  function OrdinaryNext(snapshot: Snapshot, past: seq<int>, grown: seq<nat>): (next: seq<int>)
    requires snapshot.Valid() && |past| == |grown| == snapshot.Size()
    ensures |next| == snapshot.Size()
  {
    var state := snapshot.state;
    if state.scaleDownDuringRollout && past == state.activeOld.spec then
      var reduced := FurthestTargetScaleDownTargets(snapshot);
      seq(snapshot.Size(), i requires 0 <= i < snapshot.Size() =>
        if reduced[i] < state.target.spec[i] then reduced[i] else grown[i])
    else
      grown
  }

  function PrepareRolloutPlan(state: RolloutState): (plan: Plan)
    requires state.Valid()
    ensures plan.Valid() && plan.snapshot == SnapshotFor(state)
  {
    var snapshot := SnapshotFor(state);
    var phase, limits := PhaseTargets(snapshot), HardNewReplicaLimits(snapshot);
    var past := FurthestOldTargets(snapshot);
    var grown := FurthestNewTargets(snapshot, phase, limits);
    Plan(snapshot, phase, limits, UpdateStep(past, OrdinaryNext(snapshot, past, grown), Ordinary))
  }

  function ComputeNextStep(state: RolloutState): (step: Option<UpdateStep>)
    ensures step.Some? ==> state.Valid() && |step.value.past| == |step.value.next| == |state.config|
  {
    if !state.Valid() then None
    else
      var plan := PrepareRolloutPlan(state);
      if plan.Changes(plan.ordinary) then Some(plan.ordinary)
      else if DisjointSurplusStep(plan.snapshot).Some? then DisjointSurplusStep(plan.snapshot)
      else if plan.BootstrapStep().Some? then plan.BootstrapStep()
      else
        var past := FurthestOldTargets(FallbackSnapshot(plan.snapshot));
        if DrainsOverSurgeUnschedulableRole(plan.snapshot, past)
        then Some(UpdateStep(past, state.target.spec, UnavailableFallback))
        else None
  }
}
