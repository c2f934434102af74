/**
 * What one accepted step may cost, if the native controllers delete Ready
 * groups first: readiness credit, serving capacity and surge.
 */
module StepSafety {
  import opened Roles
  import opened CoordinationWindow
  import opened RolloutState
  import opened DrainBudget
  import opened Planner
  import opened StepValidator
  import opened Bootstrap

  /** Retained readiness once every removed group is assumed to have been a Ready one. */
  function ReadyAfter(ready: nat, spec: nat, remaining: int): nat {
    Max(0, Minus(ready, Max(0, Minus(spec, remaining))))
  }

  /** The revision after its Spec changes; raw readiness waits for the deletions. */
  function Applied(revision: RevisionState, remaining: seq<nat>): (after: RevisionState)
    requires revision.Valid(|remaining|)
    ensures after.Valid(|remaining|)
  {
    revision.(
      spec := remaining,
      ready := seq(|remaining|, i requires 0 <= i < |remaining| =>
                   ReadyAfter(revision.ready[i], revision.spec[i], remaining[i])))
  }

  /** Retained credit never exceeds what is observed Ready. */
  ghost predicate CreditObserved(revision: RevisionState) {
    |revision.ready| == |revision.rawReady| && Below(revision.ready, revision.rawReady)
  }

  ghost predicate Credible(state: RolloutState) {
    && CreditObserved(state.activeOld) && CreditObserved(state.target)
    && forall k | 0 <= k < |state.parkedOld| :: CreditObserved(state.parkedOld[k])
  }

  lemma RawAtLeastRetained(revision: RevisionState, i: nat)
    requires revision.Valid(|revision.spec|) && CreditObserved(revision) && i < |revision.spec|
    ensures var ready := RoleReadinessAt(revision, i);
            ready.usable <= ready.rawUsable && ready.perRole <= ready.rawPerRole
  {
    if AllRequiredPresent(revision.required, revision.ready) {
      assert AllRequiredPresent(revision.required, revision.rawReady);
    }
  }

  lemma {:induction false} ParkedRawAtLeastRetained(snapshot: Snapshot, parked: seq<RevisionState>, i: nat)
    requires snapshot.Valid() && i < snapshot.Size()
    requires forall k | 0 <= k < |parked| :: parked[k].Valid(snapshot.Size()) && CreditObserved(parked[k])
    requires snapshot.parkedReady[i].usable <= snapshot.parkedReady[i].rawUsable
    requires snapshot.parkedReady[i].perRole <= snapshot.parkedReady[i].rawPerRole
    ensures var ready := IncludeAllParked(snapshot, parked).parkedReady[i];
            ready.usable <= ready.rawUsable && ready.perRole <= ready.rawPerRole
    decreases |parked|
  {
    if |parked| > 0 {
      ParkedRawAtLeastRetained(snapshot, parked[..|parked| - 1], i);
      RawAtLeastRetained(parked[|parked| - 1], i);
    }
  }

  // --- What a preserved budget promises ---

  /** A live role's budget: what is retained was observed. */
  ghost predicate HonestRole(budget: DrainBudget, i: nat)
    requires budget.Valid() && i < budget.Size()
  {
    var role := budget.roles[i];
    && !role.excluded
    && role.replacement.individual + budget.revision.ready[i] <= role.observed.individual
    && role.replacement.serving + role.serving <= role.observed.serving
    && role.serving == RoleReadinessAt(budget.revision, i).usable
  }

  lemma KeepsIndividual(budget: DrainBudget, remaining: seq<nat>, i: nat)
    requires budget.Valid() && |remaining| == budget.Size() && i < budget.Size()
    requires Below(remaining, budget.revision.spec) && budget.Preserves(remaining) && HonestRole(budget, i)
    ensures var role, after := budget.roles[i], Applied(budget.revision, remaining).ready[i];
            role.replacement.individual + after >=
              Min(role.replacement.individual + budget.revision.ready[i], role.floor)
  {
    if remaining[i] < budget.revision.spec[i] {
      assert budget.HasReduction(remaining);
      assert budget.RolePreserved(remaining, i);
    }
  }

  /** A drained revision still serves at least what the budget assumed. */
  lemma UsableAtLeastServing(budget: DrainBudget, remaining: seq<nat>, i: nat)
    requires budget.Valid() && |remaining| == budget.Size() && i < budget.Size()
    requires Below(remaining, budget.revision.spec)
    requires forall j | 0 <= j < budget.Size() :: budget.roles[j].serving == RoleReadinessAt(budget.revision, j).usable
    ensures budget.ServingAfter(remaining, i) <= RoleReadinessAt(Applied(budget.revision, remaining), i).usable
  {
    var after := Applied(budget.revision, remaining);
    if budget.ServingAfter(remaining, i) > 0 {
      assert budget.roles[i].serving > 0;
      forall j | 0 <= j < budget.Size() && after.required[j]
        ensures after.ready[j] > 0
      {
        assert remaining[j] > 0 && budget.ReadyLeft(remaining, j) > 0;
      }
      assert AllRequiredPresent(after.required, after.ready);
    }
  }

  lemma KeepsServing(budget: DrainBudget, remaining: seq<nat>, i: nat)
    requires budget.Valid() && |remaining| == budget.Size() && i < budget.Size() && !budget.allowOutage
    requires Below(remaining, budget.revision.spec) && budget.Preserves(remaining) && HonestRole(budget, i)
    requires forall j | 0 <= j < budget.Size() :: budget.roles[j].serving == RoleReadinessAt(budget.revision, j).usable
    ensures var role, after := budget.roles[i], RoleReadinessAt(Applied(budget.revision, remaining), i).usable;
            role.replacement.serving + after >= Min(role.replacement.serving + role.serving, role.floor)
  {
    if budget.HasReduction(remaining) {
      assert budget.RolePreserved(remaining, i);
      UsableAtLeastServing(budget, remaining, i);
    } else {
      assert remaining == budget.revision.spec;
      assert Applied(budget.revision, remaining) == budget.revision;
    }
  }

  // --- What acceptance promises ---

  /** The snapshot whose floors an accepted step keeps. */
  function FloorSnapshot(state: RolloutState, kind: StepKind): (s: Snapshot)
    requires state.Valid()
    ensures s.Valid() && s.Size() == |state.config|
  {
    if kind == UnavailableFallback then FallbackSnapshot(SnapshotFor(state)) else SnapshotFor(state)
  }

  ghost predicate Accepted(state: RolloutState, step: UpdateStep) {
    state.Valid() && ValidateUpdateStep(state, Some(step)) == Ok(())
  }

  /** Borrowing surge does not change what an old drain must preserve. */
  lemma BootstrapSameDrain(snapshot: Snapshot, phase: seq<nat>, limits: seq<nat>)
    requires snapshot.Valid() && |phase| == |limits| == snapshot.Size()
    ensures OldDrain(BootstrapSnapshot(snapshot, phase, limits)) == OldDrain(snapshot)
  {
    var bootstrap := BootstrapSnapshot(snapshot, phase, limits);
    forall i | 0 <= i < snapshot.Size()
      ensures OldRoleBudget(bootstrap, i) == OldRoleBudget(snapshot, i)
    {
      assert bootstrap.AvailabilityFloor(i) == snapshot.AvailabilityFloor(i);
    }
    assert OldDrain(bootstrap).roles == OldDrain(snapshot).roles;
  }

  lemma BoundsKeepDrain(plan: Plan, step: UpdateStep)
    requires plan.Valid() && |step.past| == |step.next| == plan.snapshot.Size() && BoundsForStep(plan, step).Ok?
    requires step.kind != TargetRebalance
    ensures OldDrain(BoundsForStep(plan, step).value.snapshot) ==
            OldDrain(if step.kind == UnavailableFallback then FallbackSnapshot(plan.snapshot) else plan.snapshot)
  {
    hide HardNewReplicaLimits, FurthestOldTargets;
    if step.kind == BootstrapSurge {
      BootstrapSameDrain(plan.snapshot, plan.phase, plan.limits);
    }
  }

  lemma AcceptedShape(state: RolloutState, step: UpdateStep)
    requires Accepted(state, step) && step.kind != TargetRebalance
    ensures |step.past| == |step.next| == |state.config|
    ensures var plan := PrepareRolloutPlan(state);
            && BoundsForStep(plan, step).Ok?
            && ValidateTargets(plan, step, BoundsForStep(plan, step).value.limits).Ok?
            && OldDrain(BoundsForStep(plan, step).value.snapshot).Preserves(step.past)
    ensures TargetScalesDown(state, step) ==>
              && state.scaleDownDuringRollout
              && step.past == state.activeOld.spec
              && TargetScaleDownPreservesAvailability(SnapshotFor(state), step.next)
  {
    hide PrepareRolloutPlan, BoundsForStep, ValidateTargets, TargetScaleDownPreservesAvailability,
      BoundByCompleteness, OldDrain;
  }

  lemma AcceptedRebalance(state: RolloutState, step: UpdateStep)
    requires Accepted(state, step) && step.kind == TargetRebalance
    ensures |step.past| == |step.next| == |state.config|
    ensures step.past == state.activeOld.spec
    ensures Below(step.next, state.target.spec) && forall i | 0 <= i < |step.next| :: 0 <= step.next[i]
    ensures TargetScaleDownPreservesAvailability(SnapshotFor(state), step.next)
  {
    hide PrepareRolloutPlan, TargetScaleDownPreservesAvailability, BoundByCompleteness, DisjointGrowthLimits,
      TargetScaleDownMinimum, TargetDrain;
  }

  /** An accepted step only drains the old revision, stays non-negative, and keeps the old drain budget. */
  lemma AcceptedOldDrain(state: RolloutState, step: UpdateStep)
    requires Accepted(state, step)
    ensures |step.past| == |step.next| == |state.config|
    ensures Below(step.past, state.activeOld.spec)
    ensures forall i | 0 <= i < |step.past| :: 0 <= step.past[i] && 0 <= step.next[i]
    ensures OldDrain(FloorSnapshot(state, step.kind)).Preserves(step.past)
  {
    hide PrepareRolloutPlan, BoundsForStep, ValidateUpdateStep, BoundGrowing, BoundDrainingSnapshotTargets, OldDrain;
    if step.kind == TargetRebalance {
      AcceptedRebalance(state, step);
      UnchangedPreserved(OldDrain(SnapshotFor(state)));
    } else {
      AcceptedShape(state, step);
      var plan := PrepareRolloutPlan(state);
      BoundsKeepDrain(plan, step);
      OrdinaryNextNonNegative(state);
      forall i | 0 <= i < |step.past|
        ensures 0 <= step.past[i] <= state.activeOld.spec[i] && 0 <= step.next[i]
      {
        assert InRange(plan, step, BoundsForStep(plan, step).value.limits, i);
      }
    }
  }

  lemma UnchangedPreserved(budget: DrainBudget)
    requires budget.Valid()
    ensures budget.Preserves(budget.revision.spec)
  {}

  lemma OrdinaryNextNonNegative(state: RolloutState)
    requires state.Valid()
    ensures var next := PrepareRolloutPlan(state).ordinary.next; forall i | 0 <= i < |next| :: 0 <= next[i]
  {
    hide FurthestTargetScaleDownTargets, FurthestNewTargets, FurthestOldTargets;
  }

  // --- Live roles ---

  /** A role of the target: its floor is its desired count less its unavailability budget. */
  ghost predicate Live(state: RolloutState, i: nat) {
    state.Valid() && i < |state.config| && state.desired[i] > 0
  }

  function LiveFloor(state: RolloutState, kind: StepKind, i: nat): nat
    requires Live(state, i)
  {
    var floor := Max(0, Minus(state.desired[i], state.config[i].maxUnavailable));
    if kind == UnavailableFallback && floor > 1 then floor - 1 else floor
  }

  lemma ParkedCredible(state: RolloutState, i: nat)
    requires state.Valid() && i < |state.config| && Credible(state)
    ensures var ready := SnapshotFor(state).parkedReady[i];
            ready.usable <= ready.rawUsable && ready.perRole <= ready.rawPerRole
  {
    var size, overlaps := |state.config|, RolesOverlap(state.activeOld.required, state.desired);
    var active := Snapshot(
      state, state.activeOld.spec, if overlaps then seq(size, _ => 0) else state.activeOld.spec,
      seq(size, _ => NOT_READY), overlaps, TargetReadyProgress(state, state.target.ready));
    ParkedRawAtLeastRetained(active, state.parkedOld, i);
  }

  lemma OldBudgetHonest(state: RolloutState, kind: StepKind, i: nat)
    requires Live(state, i) && Credible(state)
    ensures var budget := OldDrain(FloorSnapshot(state, kind));
            && HonestRole(budget, i)
            && budget.roles[i].floor == LiveFloor(state, kind, i)
            && budget.roles[i].replacement.individual ==
              SnapshotFor(state).parkedReady[i].perRole + state.target.ready[i]
            && budget.roles[i].replacement.serving ==
                 SnapshotFor(state).parkedReady[i].usable + RoleReadinessAt(state.target, i).usable
  {
    ParkedCredible(state, i);
    RawAtLeastRetained(state.activeOld, i);
    RawAtLeastRetained(state.target, i);
    hide RoleReadinessAt, SnapshotFor;
    var snapshot := FloorSnapshot(state, kind);
    assert OldDrain(snapshot).roles[i] == OldRoleBudget(snapshot, i);
    assert snapshot.Unreplaced(i) == 0;
  }

  lemma TargetBudgetHonest(state: RolloutState, i: nat)
    requires Live(state, i) && Credible(state)
    ensures var budget := TargetDrain(SnapshotFor(state));
            && HonestRole(budget, i)
            && budget.roles[i].floor == LiveFloor(state, Ordinary, i)
            && budget.roles[i].replacement.individual ==
              SnapshotFor(state).parkedReady[i].perRole + state.activeOld.ready[i]
            && budget.roles[i].replacement.serving ==
                 SnapshotFor(state).parkedReady[i].usable + RoleReadinessAt(state.activeOld, i).usable
  {
    ParkedCredible(state, i);
    RawAtLeastRetained(state.activeOld, i);
    RawAtLeastRetained(state.target, i);
    hide RoleReadinessAt, SnapshotFor;
    var snapshot := SnapshotFor(state);
    assert TargetDrain(snapshot).roles[i] == TargetRoleBudget(snapshot, i);
    assert snapshot.Unreplaced(i) == 0;
  }

  // --- One step's cost to a live role ---

  /** Total retained Ready groups of role i across the revisions. */
  ghost function RetainedReady(state: RolloutState, active: RevisionState, target: RevisionState, i: nat): nat
    requires state.Valid() && active.Valid(|state.config|) && target.Valid(|state.config|) && i < |state.config|
  {
    SnapshotFor(state).parkedReady[i].perRole + active.ready[i] + target.ready[i]
  }

  /** Total retained serving capacity of role i: only complete revisions serve. */
  ghost function RetainedServing(state: RolloutState, active: RevisionState, target: RevisionState, i: nat): nat
    requires state.Valid() && active.Valid(|state.config|) && target.Valid(|state.config|) && i < |state.config|
  {
    SnapshotFor(state).parkedReady[i].usable + RoleReadinessAt(active, i).usable + RoleReadinessAt(target, i).usable
  }

  lemma TargetKept(state: RolloutState, past: seq<nat>, next: seq<nat>, kind: StepKind)
    requires Accepted(state, UpdateStep(past, next, kind)) && |next| == |state.config|
    requires !Below(state.target.spec, next)
    ensures past == state.activeOld.spec && TargetScaleDownPreservesAvailability(SnapshotFor(state), next)
  {
    hide ValidateUpdateStep, TargetScaleDownPreservesAvailability;
    if kind == TargetRebalance {
      AcceptedRebalance(state, UpdateStep(past, next, kind));
    } else {
      AcceptedShape(state, UpdateStep(past, next, kind));
    }
  }

  function DrainsOnly(spec: seq<nat>, next: seq<nat>): (drains: seq<nat>)
    requires |spec| == |next|
    ensures |drains| == |spec| && Below(drains, spec)
  {
    seq(|spec|, i requires 0 <= i < |spec| => Min(next[i], spec[i]))
  }

  lemma TargetDrainPreserved(snapshot: Snapshot, next: seq<nat>)
    requires snapshot.Valid() && |next| == snapshot.Size() && TargetScaleDownPreservesAvailability(snapshot, next)
    ensures TargetDrain(snapshot).Preserves(DrainsOnly(snapshot.state.target.spec, next))
    ensures Applied(snapshot.state.target, next).ready ==
            Applied(snapshot.state.target, DrainsOnly(snapshot.state.target.spec, next)).ready
  {
    hide TargetScaleDownMinimum, TargetDrain;
    var drains: seq<int> :=
      seq(snapshot.Size(), i requires 0 <= i < snapshot.Size() => Min(next[i], snapshot.state.target.spec[i]));
    assert drains == DrainsOnly(snapshot.state.target.spec, next);
  }

  lemma GrowthKeepsReady(revision: RevisionState, next: seq<nat>)
    requires revision.Valid(|next|) && Below(revision.spec, next)
    ensures Applied(revision, next).ready == revision.ready
  {}

  /**
   * An accepted step, of any kind, costs a live role at most the readiness
   * above its floor, even if every removed group was Ready.
   */
  lemma AcceptedKeepsReady(state: RolloutState, past: seq<nat>, next: seq<nat>, kind: StepKind, i: nat)
    requires Accepted(state, UpdateStep(past, next, kind)) && |past| == |next| == |state.config|
    requires Live(state, i) && Credible(state)
    ensures RetainedReady(state, Applied(state.activeOld, past), Applied(state.target, next), i)
            >= Min(RetainedReady(state, state.activeOld, state.target, i), LiveFloor(state, kind, i))
  {
    hide ValidateUpdateStep, OldDrain, TargetDrain, TargetScaleDownPreservesAvailability, SnapshotFor;
    if Below(state.target.spec, next) {
      var budget := OldDrain(FloorSnapshot(state, kind));
      AcceptedOldDrain(state, UpdateStep(past, next, kind));
      OldBudgetHonest(state, kind, i);
      KeepsIndividual(budget, past, i);
      GrowthKeepsReady(state.target, next);
    } else {
      var budget, drains := TargetDrain(SnapshotFor(state)), DrainsOnly(state.target.spec, next);
      TargetKept(state, past, next, kind);
      TargetDrainPreserved(SnapshotFor(state), next);
      TargetBudgetHonest(state, i);
      KeepsIndividual(budget, drains, i);
      GrowthKeepsReady(state.activeOld, past);
    }
  }

  lemma ServingMatches(state: RolloutState, kind: StepKind, j: nat)
    requires state.Valid() && j < |state.config|
    ensures OldDrain(FloorSnapshot(state, kind)).roles[j].serving == RoleReadinessAt(state.activeOld, j).usable
    ensures TargetDrain(SnapshotFor(state)).roles[j].serving == RoleReadinessAt(state.target, j).usable
  {}

  /** A step that drains nothing old, or drains a revision whose policy forbids an outage. */
  ghost predicate SparesServing(state: RolloutState, past: seq<nat>) {
    state.Valid() && (past == state.activeOld.spec || !state.AllowsRevisionOutage(state.activeOld.required))
  }

  lemma NoOutage(state: RolloutState, kind: StepKind)
    requires state.Valid() && !state.AllowsRevisionOutage(state.activeOld.required)
    ensures !OldDrain(FloorSnapshot(state, kind)).allowOutage
  {
    hide SnapshotFor;
  }

  lemma SameReadySameUsable(a: RevisionState, b: RevisionState, i: nat)
    requires a.Valid(|a.spec|) && b.Valid(|b.spec|) && |a.spec| == |b.spec| && i < |a.spec|
    requires a.required == b.required && a.ready == b.ready
    ensures RoleReadinessAt(a, i).usable == RoleReadinessAt(b, i).usable
  {}

  /** The same for serving capacity, unless the step drains a revision whose policy permits an outage. */
  lemma AcceptedKeepsServing(state: RolloutState, past: seq<nat>, next: seq<nat>, kind: StepKind, i: nat)
    requires Accepted(state, UpdateStep(past, next, kind)) && |past| == |next| == |state.config|
    requires Live(state, i) && Credible(state) && SparesServing(state, past)
    ensures RetainedServing(state, Applied(state.activeOld, past), Applied(state.target, next), i)
            >= Min(RetainedServing(state, state.activeOld, state.target, i), LiveFloor(state, kind, i))
  {
    hide ValidateUpdateStep, OldDrain, TargetDrain, TargetScaleDownPreservesAvailability, RoleReadinessAt, SnapshotFor;
    forall j | 0 <= j < |state.config| {
      ServingMatches(state, kind, j);
    }
    if Below(state.target.spec, next) {
      GrowthKeepsReady(state.target, next);
      SameReadySameUsable(state.target, Applied(state.target, next), i);
      if past == state.activeOld.spec {
        GrowthKeepsReady(state.activeOld, past);
        SameReadySameUsable(state.activeOld, Applied(state.activeOld, past), i);
      } else {
        AcceptedOldDrain(state, UpdateStep(past, next, kind));
        OldBudgetHonest(state, kind, i);
        NoOutage(state, kind);
        KeepsServing(OldDrain(FloorSnapshot(state, kind)), past, i);
      }
    } else {
      var budget, drains := TargetDrain(SnapshotFor(state)), DrainsOnly(state.target.spec, next);
      TargetKept(state, past, next, kind);
      TargetDrainPreserved(SnapshotFor(state), next);
      TargetBudgetHonest(state, i);
      TargetNeverAllowsOutage(SnapshotFor(state));
      KeepsServing(budget, drains, i);
      GrowthKeepsReady(state.activeOld, past);
      SameReadySameUsable(state.activeOld, Applied(state.activeOld, past), i);
      SameReadySameUsable(Applied(state.target, drains), Applied(state.target, next), i);
    }
  }

  lemma TargetNeverAllowsOutage(snapshot: Snapshot)
    requires snapshot.Valid()
    ensures !TargetDrain(snapshot).allowOutage
  {}

  // --- One step's surge ---

  lemma BoundsWithinSurge(plan: Plan, step: UpdateStep, i: nat)
    requires Prepared(plan) && |step.past| == |step.next| == plan.snapshot.Size() && i < plan.snapshot.Size()
    requires step.kind != TargetRebalance && BoundsForStep(plan, step).Ok?
    ensures var snapshot, spec := plan.snapshot, plan.snapshot.state.target.spec[i];
            var ceiling :=
              if step.kind == BootstrapSurge then Max(snapshot.SurgeCeiling(i), snapshot.oldSpec[i]) + 1
              else snapshot.SurgeCeiling(i);
            BoundsForStep(plan, step).value.limits[i] <=
              Max(spec, Min(snapshot.state.desired[i], Minus(ceiling, snapshot.oldSpec[i])))
  {
    hide HardNewReplicaLimits, FurthestOldTargets, OrdinaryNext, PhaseTargets, BoundGrowing;
    if step.kind == BootstrapSurge {
      BorrowedCeiling(plan.snapshot, plan.phase, plan.limits, i);
      HardLimitWithinSurge(BootstrapSnapshot(plan.snapshot, plan.phase, plan.limits), i);
    } else {
      HardLimitWithinSurge(plan.snapshot, i);
    }
  }

  /**
   * An accepted step takes a role above its surge ceiling only in a bootstrap
   * step, and then by one group; it never adds to a role beyond its desired count.
   */
  lemma AcceptedWithinSurge(state: RolloutState, past: seq<nat>, next: seq<nat>, kind: StepKind, i: nat)
    requires Accepted(state, UpdateStep(past, next, kind)) && |past| == |next| == |state.config| && i < |state.config|
    ensures var snapshot, spec := SnapshotFor(state), state.target.spec[i];
            var ceiling :=
              if kind == BootstrapSurge then Max(snapshot.SurgeCeiling(i), snapshot.oldSpec[i]) + 1
              else snapshot.SurgeCeiling(i);
            && snapshot.oldSpec[i] + next[i] <= Max(snapshot.oldSpec[i] + spec, ceiling)
            && next[i] <= Max(spec, state.desired[i])
  {
    hide ValidateUpdateStep, PrepareRolloutPlan, BoundsForStep, BoundGrowing, BoundDrainingSnapshotTargets, SnapshotFor;
    var step := UpdateStep(past, next, kind);
    if kind == TargetRebalance {
      AcceptedRebalance(state, step);
    } else {
      var plan := PrepareRolloutPlan(state);
      AcceptedShape(state, step);
      PlanPrepared(state);
      BoundsWithinSurge(plan, step, i);
      assert InRange(plan, step, BoundsForStep(plan, step).value.limits, i);
    }
  }
}
