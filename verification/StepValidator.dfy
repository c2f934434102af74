/**
 * The executor's independent judgement of a step before it is applied. It
 * re-derives every bound from the state and trusts nothing in the step.
 */
module StepValidator {
  import opened Roles
  import opened CoordinationWindow
  import opened RolloutState
  import opened DrainBudget
  import opened Planner

  datatype Reason =
    | NoStep
    | WrongLength
    | IncompleteOldRevision
    | RebalanceMismatch
    | RebalanceOverBudget
    | RecoveryNotNeeded
    | BootstrapNotBlocked
    | BootstrapAvailable
    | FallbackMismatch
    | FallbackReleasesNothing
    | OldOutsideWindow
    | NewOutsideWindow
    | OutsideRange
    | BootstrapMarkerWrong
    | NoChange
    | TargetReductionNotAllowed
    | TargetReductionOverBudget
    | OldDrainOverBudget

  datatype Result<+T> = Ok(value: T) | Rejected(reason: Reason)

  datatype Bounds = Bounds(snapshot: Snapshot, limits: seq<nat>)

  function ValidateStructure(state: RolloutState, step: UpdateStep): Result<()>
    requires state.Valid()
  {
    if |step.past| != |state.config| || |step.next| != |state.config| then Rejected(WrongLength)
    else if !state.AllowsRevisionOutage(state.activeOld.required) &&
            BoundByCompleteness(state.activeOld.spec, step.past, state.activeOld.required) != step.past
    then Rejected(IncompleteOldRevision)
    else Ok(())
  }

  /** What a step of some kind is held to; recovery is refused where ordinary progress is possible. */
  function BoundsForStep(plan: Plan, step: UpdateStep): (r: Result<Bounds>)
    requires plan.Valid() && |step.past| == |step.next| == plan.snapshot.Size()
    ensures r.Ok? ==> r.value.snapshot.Valid() && r.value.snapshot.Size() == |r.value.limits| == plan.snapshot.Size()
  {
    var snapshot := plan.snapshot;
    if step.kind == Ordinary then Ok(Bounds(snapshot, plan.limits))
    else if plan.Changes(plan.ordinary) then Rejected(RecoveryNotNeeded)
    else if step.kind == BootstrapSurge then
      if !BootstrapAllowed(snapshot, plan.phase, plan.limits) then Rejected(BootstrapNotBlocked)
      else
        var bootstrap := BootstrapSnapshot(snapshot, plan.phase, plan.limits);
        Ok(Bounds(bootstrap, HardNewReplicaLimits(bootstrap)))
    else if plan.BootstrapStep().Some? then Rejected(BootstrapAvailable)
    else
      var fallback := FallbackSnapshot(snapshot);
      if step.past != FurthestOldTargets(fallback) || step.next != snapshot.state.target.spec
      then Rejected(FallbackMismatch)
      else if !DrainsOverSurgeUnschedulableRole(fallback, step.past) then Rejected(FallbackReleasesNothing)
      else Ok(Bounds(fallback, plan.limits))
  }

  function Growth(plan: Plan, step: UpdateStep): (growth: seq<nat>)
    requires plan.Valid() && |step.next| == plan.snapshot.Size()
    ensures |growth| == plan.snapshot.Size()
  {
    seq(|step.next|, i requires 0 <= i < |step.next| => Max(step.next[i], plan.snapshot.state.target.spec[i]))
  }

  predicate OldInRange(plan: Plan, step: UpdateStep, i: nat)
    requires plan.Valid() && |step.past| == plan.snapshot.Size() && i < plan.snapshot.Size()
  {
    0 <= step.past[i] <= plan.snapshot.state.activeOld.spec[i]
  }

  predicate NewInRange(plan: Plan, step: UpdateStep, limits: seq<nat>, i: nat)
    requires plan.Valid() && |step.next| == |limits| == plan.snapshot.Size() && i < plan.snapshot.Size()
  {
    && Min(plan.snapshot.state.target.spec[i], plan.ordinary.next[i]) <= step.next[i]
    && step.next[i] <= Min(limits[i], plan.phase[i])
  }

  predicate InRange(plan: Plan, step: UpdateStep, limits: seq<nat>, i: nat)
    requires plan.Valid() && |step.past| == |step.next| == |limits| == plan.snapshot.Size() && i < plan.snapshot.Size()
  {
    OldInRange(plan, step, i) && NewInRange(plan, step, limits, i)
  }

  predicate UsesBootstrap(plan: Plan, step: UpdateStep)
    requires plan.Valid() && |step.next| == plan.snapshot.Size()
  {
    exists i | 0 <= i < plan.snapshot.Size() :: step.next[i] > Min(plan.limits[i], plan.phase[i])
  }

  function ValidateTargets(plan: Plan, step: UpdateStep, limits: seq<nat>): Result<()>
    requires plan.Valid() && |step.past| == |step.next| == |limits| == plan.snapshot.Size()
  {
    var snapshot, size := plan.snapshot, plan.snapshot.Size();
    if BoundDrainingSnapshotTargets(snapshot, step.past) != step.past then Rejected(OldOutsideWindow)
    else if BoundGrowing(snapshot.state.target.spec, plan.phase, Growth(plan, step)) != Growth(plan, step)
    then Rejected(NewOutsideWindow)
    else if exists i | 0 <= i < size :: !InRange(plan, step, limits, i) then Rejected(OutsideRange)
    else if (step.kind == BootstrapSurge) != UsesBootstrap(plan, step) then Rejected(BootstrapMarkerWrong)
    else if !plan.Changes(step) then Rejected(NoChange)
    else Ok(())
  }

  predicate TargetScalesDown(state: RolloutState, step: UpdateStep)
    requires state.Valid() && |step.next| == |state.config|
  {
    exists i | 0 <= i < |step.next| :: step.next[i] < state.target.spec[i]
  }

  function ValidateUpdateStep(state: RolloutState, proposal: Option<UpdateStep>): Result<()>
    requires state.Valid()
  {
    if proposal.None? then Rejected(NoStep)
    else
      var step := proposal.value;
      var structure := ValidateStructure(state, step);
      if structure.Rejected? then structure
      else
        var plan := PrepareRolloutPlan(state);
        var snapshot := plan.snapshot;
        if step.kind == TargetRebalance then
          var expected := DisjointSurplusStep(snapshot);
          if expected.None? || step.past != expected.value.past || step.next != expected.value.next
          then Rejected(RebalanceMismatch)
          else if !TargetScaleDownPreservesAvailability(snapshot, step.next) then Rejected(RebalanceOverBudget)
          else Ok(())
        else
          var bounds := BoundsForStep(plan, step);
          if bounds.Rejected? then Rejected(bounds.reason)
          else
            var targets := ValidateTargets(plan, step, bounds.value.limits);
            if targets.Rejected? then targets
            else if TargetScalesDown(state, step) &&
              (!state.scaleDownDuringRollout || step.past != state.activeOld.spec)
            then Rejected(TargetReductionNotAllowed)
            else if TargetScalesDown(state, step) && !TargetScaleDownPreservesAvailability(snapshot, step.next)
            then Rejected(TargetReductionOverBudget)
            else if !OldDrain(bounds.value.snapshot).Preserves(step.past) then Rejected(OldDrainOverBudget)
            else Ok(())
  }

  // --- The planner's steps are accepted ---

  /** Growth is window-bounded: fixed under its own bound and within the proposal. */
  lemma GrownTargetsBounded(snapshot: Snapshot, phase: seq<nat>, limits: seq<nat>)
    requires snapshot.Valid() && |phase| == |limits| == snapshot.Size()
    requires Below(snapshot.state.target.spec, phase) && Below(snapshot.state.target.spec, limits)
    ensures var grown := FurthestNewTargets(snapshot, phase, limits);
            && Below(snapshot.state.target.spec, grown)
            && Below(grown, GrowthProposed(phase, limits))
            && BoundGrowing(snapshot.state.target.spec, phase, grown) == grown
  {
    var proposed := GrowthProposed(phase, limits);
    BoundGrowingEffective(snapshot.state.target.spec, phase, proposed);
    BoundGrowingIdempotent(snapshot.state.target.spec, phase, proposed);
  }

  lemma TargetScaleDownWithinSpec(snapshot: Snapshot)
    requires snapshot.Valid()
    ensures var reduced, spec := FurthestTargetScaleDownTargets(snapshot), snapshot.state.target.spec;
            && Below(reduced, spec)
            && Below(TargetScaleDownMinimum(snapshot), reduced)
            && TargetDrain(snapshot).Preserves(reduced)
            && (forall i | 0 <= i < snapshot.Size() && reduced[i] < spec[i] :: snapshot.state.desired[i] < spec[i])
  {}

  /** A role already past its desired count has no room to grow. */
  lemma NoGrowthPastDesired(snapshot: Snapshot, i: nat)
    requires snapshot.Valid() && i < snapshot.Size() && snapshot.state.desired[i] < snapshot.state.target.spec[i]
    ensures HardNewReplicaLimits(snapshot)[i] == snapshot.state.target.spec[i]
  {}

  /** The ordinary proposal grows exactly like plain growth, and reduces exactly like the target reduction. */
  lemma OrdinaryNextShape(snapshot: Snapshot, past: seq<int>, grown: seq<nat>)
    requires snapshot.Valid() && |past| == |grown| == snapshot.Size()
    requires Below(snapshot.state.target.spec, grown) && Below(grown, HardNewReplicaLimits(snapshot))
    ensures var state, next := snapshot.state, OrdinaryNext(snapshot, past, grown);
            && Below(next, grown)
            && (forall i | 0 <= i < snapshot.Size() :: Max(next[i], state.target.spec[i]) == grown[i])
            && (!Below(state.target.spec, next) ==>
                  && state.scaleDownDuringRollout
                  && past == state.activeOld.spec
                  && TargetScaleDownPreservesAvailability(snapshot, next))
  {
    var state, next := snapshot.state, OrdinaryNext(snapshot, past, grown);
    if state.scaleDownDuringRollout && past == state.activeOld.spec {
      var reduced, spec := FurthestTargetScaleDownTargets(snapshot), state.target.spec;
      TargetScaleDownWithinSpec(snapshot);
      forall i | 0 <= i < snapshot.Size()
        ensures next[i] <= grown[i] && Max(next[i], spec[i]) == grown[i] && Min(next[i], spec[i]) == reduced[i]
      {
        if reduced[i] < spec[i] {
          NoGrowthPastDesired(snapshot, i);
        }
      }
      assert seq(snapshot.Size(), i requires 0 <= i < snapshot.Size() => Min(next[i], spec[i])) == reduced;
    }
  }

  /** What a plan's parts promise, whatever state they were prepared from. */
  ghost predicate Prepared(plan: Plan) {
    && plan.Valid()
    && var spec, grown := plan.snapshot.state.target.spec, FurthestNewTargets(plan.snapshot, plan.phase, plan.limits);
    && plan.phase == PhaseTargets(plan.snapshot)
    && plan.limits == HardNewReplicaLimits(plan.snapshot)
    && plan.ordinary.kind == Ordinary
    && plan.ordinary.past == FurthestOldTargets(plan.snapshot)
    && plan.ordinary.next == OrdinaryNext(plan.snapshot, plan.ordinary.past, grown)
  }

  lemma PlanPrepared(state: RolloutState)
    requires state.Valid()
    ensures Prepared(PrepareRolloutPlan(state))
  {}

  lemma TargetsAccepted(plan: Plan, step: UpdateStep, limits: seq<nat>)
    requires plan.Valid() && |step.past| == |step.next| == |limits| == plan.snapshot.Size()
    requires Coordinated(plan.snapshot, step.past)
    requires BoundGrowing(plan.snapshot.state.target.spec, plan.phase, Growth(plan, step)) == Growth(plan, step)
    requires forall i | 0 <= i < plan.snapshot.Size() :: NewInRange(plan, step, limits, i)
    requires (step.kind == BootstrapSurge) == UsesBootstrap(plan, step)
    requires plan.Changes(step)
    ensures ValidateTargets(plan, step, limits) == Ok(())
  {
    forall i | 0 <= i < plan.snapshot.Size()
      ensures OldInRange(plan, step, i)
    {}
  }

  lemma OrdinaryTargetsAccepted(plan: Plan)
    requires Prepared(plan) && plan.Changes(plan.ordinary)
    ensures ValidateTargets(plan, plan.ordinary, plan.limits) == Ok(())
  {
    hide BoundGrowing, FurthestOldTargets, BoundDrainingSnapshotTargets, CompletedTargets, OrdinaryNext, PhaseTargets,
      HardNewReplicaLimits;
    var grown := FurthestNewTargets(plan.snapshot, plan.phase, plan.limits);
    FurthestOldTargetsSafe(plan.snapshot);
    GrownTargetsBounded(plan.snapshot, plan.phase, plan.limits);
    OrdinaryNextShape(plan.snapshot, plan.ordinary.past, grown);
    assert Growth(plan, plan.ordinary) == grown;
    TargetsAccepted(plan, plan.ordinary, plan.limits);
  }

  lemma OrdinaryBounds(plan: Plan, step: UpdateStep)
    requires plan.Valid() && |step.past| == |step.next| == plan.snapshot.Size() && step.kind == Ordinary
    ensures BoundsForStep(plan, step) == Ok(Bounds(plan.snapshot, plan.limits))
  {}

  /** The parts of acceptance of a step that is not a rebalance. */
  ghost predicate Acceptable(plan: Plan, step: UpdateStep) {
    && plan.Valid() && |step.past| == |step.next| == plan.snapshot.Size() && step.kind != TargetRebalance
    && CompletedTargets(plan.snapshot, step.past) == step.past
    && BoundsForStep(plan, step).Ok?
    && ValidateTargets(plan, step, BoundsForStep(plan, step).value.limits) == Ok(())
    && OldDrain(BoundsForStep(plan, step).value.snapshot).Preserves(step.past)
    && (!Below(plan.snapshot.state.target.spec, step.next) ==> ReductionAcceptable(plan.snapshot, step))
  }

  ghost predicate ReductionAcceptable(snapshot: Snapshot, step: UpdateStep)
    requires snapshot.Valid() && |step.next| == snapshot.Size()
  {
    && snapshot.state.scaleDownDuringRollout
    && step.past == snapshot.state.activeOld.spec
    && TargetScaleDownPreservesAvailability(snapshot, step.next)
  }

  lemma StepAccepted(state: RolloutState, step: UpdateStep)
    requires state.Valid() && Acceptable(PrepareRolloutPlan(state), step)
    ensures ValidateUpdateStep(state, Some(step)) == Ok(())
  {
    hide PrepareRolloutPlan, BoundsForStep, ValidateTargets, BoundByCompleteness,
      TargetScaleDownPreservesAvailability, OldDrain;
  }

  lemma OrdinaryDrain(plan: Plan)
    requires Prepared(plan)
    ensures CompletedTargets(plan.snapshot, plan.ordinary.past) == plan.ordinary.past
    ensures OldDrain(plan.snapshot).Preserves(plan.ordinary.past)
  {
    hide FurthestOldTargets, OldDrain, OrdinaryNext, HardNewReplicaLimits, PhaseTargets, FurthestNewTargets,
      BoundDrainingSnapshotTargets, CompletedTargets;
    FurthestOldTargetsSafe(plan.snapshot);
  }

  lemma OrdinaryReduction(plan: Plan)
    requires Prepared(plan)
    ensures !Below(plan.snapshot.state.target.spec, plan.ordinary.next) ==>
            ReductionAcceptable(plan.snapshot, plan.ordinary)
  {
    hide FurthestOldTargets, OrdinaryNext, HardNewReplicaLimits, PhaseTargets, FurthestNewTargets,
      TargetScaleDownPreservesAvailability, BoundGrowing;
    GrownTargetsBounded(plan.snapshot, plan.phase, plan.limits);
    OrdinaryNextShape(plan.snapshot, plan.ordinary.past, FurthestNewTargets(plan.snapshot, plan.phase, plan.limits));
  }

  lemma OrdinaryStepAccepted(state: RolloutState)
    requires state.Valid()
    requires var plan := PrepareRolloutPlan(state); plan.Changes(plan.ordinary)
    ensures ValidateUpdateStep(state, Some(PrepareRolloutPlan(state).ordinary)) == Ok(())
  {
    hide PrepareRolloutPlan, ValidateTargets, ValidateUpdateStep, OldDrain, CompletedTargets, SnapshotFor,
      BoundsForStep, ReductionAcceptable, FurthestOldTargets, OrdinaryNext, HardNewReplicaLimits, PhaseTargets,
      FurthestNewTargets;
    PlanPrepared(state);
    var plan := PrepareRolloutPlan(state);
    OrdinaryBounds(plan, plan.ordinary);
    OrdinaryTargetsAccepted(plan);
    OrdinaryDrain(plan);
    OrdinaryReduction(plan);
    StepAccepted(state, plan.ordinary);
  }

  lemma RebalanceStepAccepted(state: RolloutState)
    requires state.Valid() && DisjointSurplusStep(SnapshotFor(state)).Some?
    ensures ValidateUpdateStep(state, DisjointSurplusStep(SnapshotFor(state))) == Ok(())
  {
    hide SnapshotFor, DisjointGrowthLimits, TargetScaleDownMinimum, TargetDrain, PrepareRolloutPlan;
    var snapshot := SnapshotFor(state);
    var step := DisjointSurplusStep(snapshot).value;
    UnchangedCoordinated(snapshot);
    assert seq(snapshot.Size(), i requires 0 <= i < snapshot.Size() => Min(step.next[i], state.target.spec[i])) ==
           step.next;
    assert TargetScaleDownPreservesAvailability(snapshot, step.next);
  }

  lemma NoOrdinaryChange(plan: Plan)
    requires plan.Valid() && !plan.Changes(plan.ordinary)
    ensures plan.ordinary.past == plan.snapshot.state.activeOld.spec
    ensures plan.ordinary.next == plan.snapshot.state.target.spec
  {}

  /**
   * Growth that changes something beyond a stuck ordinary plan must exceed an
   * ordinary limit: within the ordinary limits the window would be the same.
   */
  lemma GrowthBeyondStuckLimits(current: seq<nat>, phase: seq<nat>, ordinary: seq<nat>, raised: seq<nat>)
    requires GrowthProposal(current, phase, ordinary) && GrowthProposal(current, phase, raised)
    requires BoundGrowing(current, phase, ordinary) == current
    requires BoundGrowing(current, phase, raised) != current
    ensures exists i | 0 <= i < |phase| :: BoundGrowing(current, phase, raised)[i] > ordinary[i]
  {
    hide MaxProgressWithin, WindowFor;
    var grown := BoundGrowing(current, phase, raised);
    BoundGrowingEffective(current, phase, raised);
    BoundGrowingEffective(current, phase, ordinary);
    if forall i | 0 <= i < |phase| :: grown[i] <= ordinary[i] {
      var v, w := WindowFor(phase, raised), WindowFor(phase, ordinary);
      WindowDescribes(phase, raised);
      WindowDescribes(phase, ordinary);
      var i :| 0 <= i < |phase| && grown[i] != current[i];
      if v.target > 0 {
        var k :| 0 <= k < |phase| && phase[k] == w.target && ordinary[k] == w.least;
        MulMonotone(grown[k], ordinary[k], v.target);
        EdgeMonotone(v, w, phase[i]);
      }
      assert false;
    }
  }

  lemma StuckOrdinaryGrowth(plan: Plan)
    requires Prepared(plan) && !plan.Changes(plan.ordinary)
    ensures FurthestNewTargets(plan.snapshot, plan.phase, plan.limits) == plan.snapshot.state.target.spec
    ensures plan.ordinary.past == plan.snapshot.state.activeOld.spec
    ensures plan.ordinary.next == plan.snapshot.state.target.spec
  {
    hide FurthestOldTargets, OrdinaryNext, HardNewReplicaLimits, PhaseTargets, FurthestNewTargets, BoundGrowing;
    NoOrdinaryChange(plan);
    GrownTargetsBounded(plan.snapshot, plan.phase, plan.limits);
    OrdinaryNextShape(plan.snapshot, plan.ordinary.past, FurthestNewTargets(plan.snapshot, plan.phase, plan.limits));
  }

  /** A bootstrap step drains nothing and takes some role beyond its ordinary limit. */
  lemma BootstrapBeyondOrdinary(plan: Plan)
    requires Prepared(plan) && !plan.Changes(plan.ordinary) && plan.BootstrapStep().Some?
    ensures var step := plan.BootstrapStep().value;
            && step.past == plan.snapshot.state.activeOld.spec
            && Below(plan.snapshot.state.target.spec, step.next)
            && UsesBootstrap(plan, step)
  {
    hide HardNewReplicaLimits, PhaseTargets, FurthestOldTargets, OrdinaryNext, BoundGrowing;
    var spec, step := plan.snapshot.state.target.spec, plan.BootstrapStep().value;
    var bootstrap := BootstrapSnapshot(plan.snapshot, plan.phase, plan.limits);
    var raised := HardNewReplicaLimits(bootstrap);
    StuckOrdinaryGrowth(plan);
    GrownTargetsBounded(bootstrap, plan.phase, raised);
    GrowthBeyondStuckLimits(spec, plan.phase, GrowthProposed(plan.phase, plan.limits),
                            GrowthProposed(plan.phase, raised));
  }

  lemma BootstrapTargetsAccepted(plan: Plan)
    requires Prepared(plan) && !plan.Changes(plan.ordinary) && plan.BootstrapStep().Some?
    ensures var bootstrap := BootstrapSnapshot(plan.snapshot, plan.phase, plan.limits);
            ValidateTargets(plan, plan.BootstrapStep().value, HardNewReplicaLimits(bootstrap)) == Ok(())
  {
    hide HardNewReplicaLimits, PhaseTargets, FurthestOldTargets, OrdinaryNext, BoundGrowing,
      BoundDrainingSnapshotTargets, CompletedTargets;
    var step, bootstrap := plan.BootstrapStep().value, BootstrapSnapshot(plan.snapshot, plan.phase, plan.limits);
    var raised := HardNewReplicaLimits(bootstrap);
    BootstrapBeyondOrdinary(plan);
    StuckOrdinaryGrowth(plan);
    UnchangedCoordinated(plan.snapshot);
    GrownTargetsBounded(bootstrap, plan.phase, raised);
    assert Growth(plan, step) == step.next;
    TargetsAccepted(plan, step, raised);
  }

  lemma BootstrapAcceptable(plan: Plan)
    requires Prepared(plan) && !plan.Changes(plan.ordinary) && plan.BootstrapStep().Some?
    ensures Acceptable(plan, plan.BootstrapStep().value)
  {
    hide ValidateTargets, HardNewReplicaLimits, FurthestNewTargets, OldDrain, CompletedTargets, FurthestOldTargets,
      OrdinaryNext, PhaseTargets, BoundDrainingSnapshotTargets;
    BootstrapBeyondOrdinary(plan);
    BootstrapTargetsAccepted(plan);
    UnchangedCoordinated(plan.snapshot);
  }

  lemma BootstrapStepAccepted(state: RolloutState)
    requires state.Valid()
    requires var plan := PrepareRolloutPlan(state); !plan.Changes(plan.ordinary) && plan.BootstrapStep().Some?
    ensures ValidateUpdateStep(state, PrepareRolloutPlan(state).BootstrapStep()) == Ok(())
  {
    PlanPrepared(state);
    hide PrepareRolloutPlan, Prepared, Acceptable, ValidateUpdateStep, HardNewReplicaLimits, FurthestNewTargets;
    BootstrapAcceptable(PrepareRolloutPlan(state));
    StepAccepted(state, PrepareRolloutPlan(state).BootstrapStep().value);
  }

  /** The fallback relaxes availability only: surge, coordination and completeness are unchanged. */
  lemma FallbackKeepsCoordination(snapshot: Snapshot, targets: seq<int>)
    requires snapshot.Valid() && |targets| == snapshot.Size()
    ensures var fallback := FallbackSnapshot(snapshot);
            && fallback.state.activeOld == snapshot.state.activeOld
            && BoundDrainingSnapshotTargets(fallback, targets) == BoundDrainingSnapshotTargets(snapshot, targets)
            && CompletedTargets(fallback, targets) == CompletedTargets(snapshot, targets)
            && (DrainsOverSurgeUnschedulableRole(fallback, targets) <==>
                DrainsOverSurgeUnschedulableRole(snapshot, targets))
  {
    var fallback, required := FallbackSnapshot(snapshot), snapshot.state.activeOld.required;
    assert forall i | 0 <= i < snapshot.Size() :: fallback.SurgeCeiling(i) == snapshot.SurgeCeiling(i);
    assert DemandExceedsBaseline(fallback) == DemandExceedsBaseline(snapshot);
    assert ExcessVector(fallback) == ExcessVector(snapshot);
    forall i | 0 <= i < snapshot.Size()
      ensures required[i] && snapshot.state.desired[i] > 0 ==>
                (fallback.state.config[i].maxUnavailable >= snapshot.state.desired[i] <==>
                 snapshot.state.config[i].maxUnavailable >= snapshot.state.desired[i])
    {}
    assert fallback.state.AllowsRevisionOutage(required) == snapshot.state.AllowsRevisionOutage(required);
  }

  lemma FallbackAcceptable(plan: Plan)
    requires Prepared(plan) && !plan.Changes(plan.ordinary) && plan.BootstrapStep().None?
    requires DrainsOverSurgeUnschedulableRole(plan.snapshot, FurthestOldTargets(FallbackSnapshot(plan.snapshot)))
    ensures var past := FurthestOldTargets(FallbackSnapshot(plan.snapshot));
            Acceptable(plan, UpdateStep(past, plan.snapshot.state.target.spec, UnavailableFallback))
  {
    hide FurthestOldTargets, FallbackSnapshot, CompletedTargets, BoundDrainingSnapshotTargets, OldDrain,
      ValidateTargets, OrdinaryNext, HardNewReplicaLimits, PhaseTargets, FurthestNewTargets,
      DrainsOverSurgeUnschedulableRole;
    FallbackTargetsAccepted(plan);
    FurthestOldTargetsSafe(FallbackSnapshot(plan.snapshot));
    FallbackKeepsCoordination(plan.snapshot, FurthestOldTargets(FallbackSnapshot(plan.snapshot)));
  }

  lemma FallbackStepAccepted(state: RolloutState)
    requires state.Valid()
    requires var plan := PrepareRolloutPlan(state);
             && !plan.Changes(plan.ordinary) && plan.BootstrapStep().None?
             && DrainsOverSurgeUnschedulableRole(plan.snapshot, FurthestOldTargets(FallbackSnapshot(plan.snapshot)))
    ensures var past := FurthestOldTargets(FallbackSnapshot(PrepareRolloutPlan(state).snapshot));
            ValidateUpdateStep(state, Some(UpdateStep(past, state.target.spec, UnavailableFallback))) == Ok(())
  {
    PlanPrepared(state);
    hide PrepareRolloutPlan, Prepared, Acceptable, ValidateUpdateStep, HardNewReplicaLimits, FurthestNewTargets,
      FurthestOldTargets, FallbackSnapshot, DrainsOverSurgeUnschedulableRole;
    var plan := PrepareRolloutPlan(state);
    FallbackAcceptable(plan);
    var past := FurthestOldTargets(FallbackSnapshot(plan.snapshot));
    StepAccepted(state, UpdateStep(past, state.target.spec, UnavailableFallback));
  }

  lemma FallbackTargetsAccepted(plan: Plan)
    requires Prepared(plan) && !plan.Changes(plan.ordinary)
    requires DrainsOverSurgeUnschedulableRole(plan.snapshot, FurthestOldTargets(FallbackSnapshot(plan.snapshot)))
    ensures var past := FurthestOldTargets(FallbackSnapshot(plan.snapshot));
            ValidateTargets(plan, UpdateStep(past, plan.snapshot.state.target.spec, UnavailableFallback),
                            plan.limits) == Ok(())
  {
    hide FurthestOldTargets, FallbackSnapshot, BoundGrowing, HardNewReplicaLimits, PhaseTargets, OrdinaryNext,
      BoundDrainingSnapshotTargets, CompletedTargets, ValidateTargets, OldDrain;
    var snapshot, fallback := plan.snapshot, FallbackSnapshot(plan.snapshot);
    var past := FurthestOldTargets(fallback);
    var step := UpdateStep(past, snapshot.state.target.spec, UnavailableFallback);
    StuckOrdinaryGrowth(plan);
    FurthestOldTargetsSafe(fallback);
    FallbackKeepsCoordination(snapshot, past);
    GrownTargetsBounded(snapshot, plan.phase, plan.limits);
    assert Growth(plan, step) == snapshot.state.target.spec;
    TargetsAccepted(plan, step, plan.limits);
  }

  /** Planner and validator agree: every step the planner returns, of every kind, is accepted. */
  lemma PlannerStepAccepted(state: RolloutState)
    requires ComputeNextStep(state).Some?
    ensures ValidateUpdateStep(state, ComputeNextStep(state)) == Ok(())
  {
    var plan := PrepareRolloutPlan(state);
    if plan.Changes(plan.ordinary) {
      OrdinaryStepAccepted(state);
    } else if DisjointSurplusStep(plan.snapshot).Some? {
      RebalanceStepAccepted(state);
    } else if plan.BootstrapStep().Some? {
      BootstrapStepAccepted(state);
    } else {
      FallbackStepAccepted(state);
    }
  }
}
