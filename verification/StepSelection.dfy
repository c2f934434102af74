/**
 * Choosing one step among several old revisions. Ordinary progress beats a
 * target reduction, which beats a bootstrap surge; scheduler rejection is
 * consulted only when none of the candidates can move otherwise.
 */
module StepSelection {
  import opened Roles
  import opened CoordinationWindow
  import opened RolloutState
  import opened DrainBudget
  import opened Planner
  import StepValidator

  /** The same state, with other scheduler rejections observed. */
  function Rejected(state: RolloutState, roles: seq<bool>): (after: RolloutState)
    requires state.Valid() && |roles| == |state.config|
    ensures after.Valid()
  {
    state.(unschedulable := roles)
  }

  function Flagged(s: Snapshot, roles: seq<bool>): (flagged: Snapshot)
    requires s.Valid() && |roles| == s.Size()
    ensures flagged.Valid() && flagged.Size() == s.Size()
  {
    s.(state := Rejected(s.state, roles))
  }

  // --- Scheduler rejections reach nothing but the fallback ---

  lemma {:induction false} FlagsParked(s: Snapshot, roles: seq<bool>, parked: seq<RevisionState>)
    requires s.Valid() && |roles| == s.Size() && forall k | 0 <= k < |parked| :: parked[k].Valid(s.Size())
    ensures IncludeAllParked(Flagged(s, roles), parked) == Flagged(IncludeAllParked(s, parked), roles)
    decreases |parked|
  {
    if |parked| > 0 {
      FlagsParked(s, roles, parked[..|parked| - 1]);
    }
  }

  lemma FlagsSnapshot(state: RolloutState, roles: seq<bool>)
    requires state.Valid() && |roles| == |state.config|
    ensures SnapshotFor(Rejected(state, roles)) == Flagged(SnapshotFor(state), roles)
  {
    var size, overlaps := |state.config|, RolesOverlap(state.activeOld.required, state.desired);
    var active := Snapshot(
      state, state.activeOld.spec, if overlaps then seq(size, _ => 0) else state.activeOld.spec,
      seq(size, _ => NOT_READY), overlaps, TargetReadyProgress(state, state.target.ready));
    FlagsParked(active, roles, state.parkedOld);
  }

  lemma FlagsUnreplaced(s: Snapshot, roles: seq<bool>)
    requires s.Valid() && |roles| == s.Size()
    ensures forall i | 0 <= i < s.Size() :: Flagged(s, roles).Unreplaced(i) == s.Unreplaced(i)
    ensures Flagged(s, roles).Disjoint() == s.Disjoint()
  {
    assert forall i | 0 <= i < s.Size() :: Flagged(s, roles).Unreplaced(i) == s.Unreplaced(i);
  }

  lemma FlagsBudgets(s: Snapshot, roles: seq<bool>)
    requires s.Valid() && |roles| == s.Size()
    ensures OldDrain(Flagged(s, roles)) == OldDrain(s) && TargetDrain(Flagged(s, roles)) == TargetDrain(s)
  {
    FlagsUnreplaced(s, roles);
  }

  lemma FlagsOld(s: Snapshot, roles: seq<bool>)
    requires s.Valid() && |roles| == s.Size()
    ensures FurthestOldTargets(Flagged(s, roles)) == FurthestOldTargets(s)
  {
    FlagsBudgets(s, roles);
    assert DemandExceedsBaseline(Flagged(s, roles)) == DemandExceedsBaseline(s);
    assert ExcessVector(Flagged(s, roles)) == ExcessVector(s);
    hide OldDrain, ExcessVector;
  }

  lemma {:induction false} FlagsReleased(s: Snapshot, roles: seq<bool>, k: nat)
    requires s.Valid() && |roles| == s.Size() && k <= s.Size()
    ensures ReleasedWindow(Flagged(s, roles), k) == ReleasedWindow(s, k)
    decreases k
  {
    if k > 0 {
      FlagsReleased(s, roles, k - 1);
      FlagsUnreplaced(s, roles);
    }
  }

  lemma FlagsDisjointGrowth(s: Snapshot, roles: seq<bool>)
    requires s.Valid() && |roles| == s.Size()
    ensures DisjointGrowthLimits(Flagged(s, roles)) == DisjointGrowthLimits(s)
  {
    FlagsUnreplaced(s, roles);
    FlagsReleased(s, roles, s.Size());
    hide ReleasedWindow;
    var flagged := Flagged(s, roles);
    assert forall i | 0 <= i < s.Size() :: ReleasesRole(flagged, i) == ReleasesRole(s, i);
  }

  lemma FlagsPending(s: Snapshot, roles: seq<bool>, progress: Window, steps: nat, i: nat)
    requires s.Valid() && |roles| == s.Size() && i < s.Size()
    ensures PendingGrowthLimit(Flagged(s, roles), i, progress, steps) == PendingGrowthLimit(s, i, progress, steps)
  {
    FlagsUnreplaced(s, roles);
    hide ProjectBudget;
  }

  lemma FlagsPhase(s: Snapshot, roles: seq<bool>)
    requires s.Valid() && |roles| == s.Size()
    ensures PhaseTargets(Flagged(s, roles)) == PhaseTargets(s)
  {
    FlagsUnreplaced(s, roles);
  }

  lemma FlagsLimit(s: Snapshot, roles: seq<bool>, released: Option<seq<nat>>, progress: Window, steps: nat, i: nat)
    requires s.Valid() && |roles| == s.Size() && i < s.Size() && (released.Some? ==> |released.value| == s.Size())
    ensures HardNewReplicaLimit(Flagged(s, roles), released, progress, steps, i) ==
            HardNewReplicaLimit(s, released, progress, steps, i)
  {
    hide PendingGrowthLimit;
    FlagsPending(s, roles, progress, steps, i);
  }

  lemma FlagsGrowth(s: Snapshot, roles: seq<bool>)
    requires s.Valid() && |roles| == s.Size()
    ensures PhaseTargets(Flagged(s, roles)) == PhaseTargets(s)
    ensures HardNewReplicaLimits(Flagged(s, roles)) == HardNewReplicaLimits(s)
  {
    hide DisjointGrowthLimits, StepCount, WindowFor, HardNewReplicaLimit, PhaseTargets;
    FlagsPhase(s, roles);
    FlagsDisjointGrowth(s, roles);
    var state := s.state;
    forall i | 0 <= i < s.Size()
      ensures HardNewReplicaLimits(Flagged(s, roles))[i] == HardNewReplicaLimits(s)[i]
    {
      FlagsLimit(s, roles, DisjointGrowthLimits(s), WindowFor(state.desired, state.target.ready),
                 StepCount(state.initial, state.desired), i);
    }
    assert HardNewReplicaLimits(Flagged(s, roles)) == HardNewReplicaLimits(s);
  }

  lemma {:induction false} FlagsFraction(s: Snapshot, roles: seq<bool>, progress: Window, k: nat)
    requires s.Valid() && |roles| == s.Size() && k <= s.Size()
    ensures DisjointReadyFraction(Flagged(s, roles), progress, k) == DisjointReadyFraction(s, progress, k)
    decreases k
  {
    if k > 0 {
      FlagsFraction(s, roles, progress, k - 1);
    }
  }

  lemma FlagsMinimum(s: Snapshot, roles: seq<bool>)
    requires s.Valid() && |roles| == s.Size()
    ensures TargetScaleDownMinimum(Flagged(s, roles)) == TargetScaleDownMinimum(s)
  {
    FlagsBudgets(s, roles);
    FlagsFraction(s, roles, TargetReadyProgress(s.state, s.state.target.rawReady), s.Size());
    hide TargetDrain, DisjointReadyFraction;
  }

  lemma FlagsReduction(s: Snapshot, roles: seq<bool>)
    requires s.Valid() && |roles| == s.Size()
    ensures FurthestTargetScaleDownTargets(Flagged(s, roles)) == FurthestTargetScaleDownTargets(s)
  {
    var flagged := Flagged(s, roles);
    FlagsBudgets(s, roles);
    FlagsMinimum(s, roles);
    hide TargetDrain, TargetScaleDownMinimum;
    var minimum := TargetScaleDownMinimum(s);
    assert forall i | 0 <= i < s.Size() ::
           TargetScaleDownTarget(flagged, minimum[i], i) == TargetScaleDownTarget(s, minimum[i], i);
    hide TargetScaleDownTarget;
    var targets := seq(s.Size(), i requires 0 <= i < s.Size() => TargetScaleDownTarget(s, minimum[i], i));
    assert targets == seq(s.Size(), i requires 0 <= i < s.Size() => TargetScaleDownTarget(flagged, minimum[i], i));
  }

  lemma FlagsSurplusTargets(s: Snapshot, roles: seq<bool>, limits: seq<nat>, minimum: seq<nat>)
    requires s.Valid() && |roles| == |limits| == |minimum| == s.Size()
    ensures SurplusTargets(Flagged(s, roles), limits, minimum) == SurplusTargets(s, limits, minimum)
  {}

  lemma FlagsSurplus(s: Snapshot, roles: seq<bool>)
    requires s.Valid() && |roles| == s.Size()
    ensures DisjointSurplusStep(Flagged(s, roles)) == DisjointSurplusStep(s)
  {
    hide TargetDrain, TargetScaleDownMinimum, DisjointGrowthLimits, SurplusTargets, AllRequiredPresent;
    FlagsBudgets(s, roles);
    FlagsMinimum(s, roles);
    FlagsDisjointGrowth(s, roles);
    var limits := DisjointGrowthLimits(s);
    if limits.Some? {
      FlagsSurplusTargets(s, roles, limits.value, TargetScaleDownMinimum(s));
    }
  }

  lemma FlagsBorrows(s: Snapshot, roles: seq<bool>, phase: seq<nat>, limits: seq<nat>)
    requires s.Valid() && |roles| == |phase| == |limits| == s.Size()
    ensures forall i | 0 <= i < s.Size() :: Borrows(Flagged(s, roles), phase, limits, i) == Borrows(s, phase, limits, i)
  {
    FlagsDisjointGrowth(s, roles);
    assert DemandExceedsBaseline(Flagged(s, roles)) == DemandExceedsBaseline(s);
    hide DisjointGrowthLimits, DemandExceedsBaseline;
  }

  lemma FlagsBootstrap(s: Snapshot, roles: seq<bool>, phase: seq<nat>, limits: seq<nat>)
    requires s.Valid() && |roles| == |phase| == |limits| == s.Size()
    ensures BootstrapAllowed(Flagged(s, roles), phase, limits) == BootstrapAllowed(s, phase, limits)
    ensures BootstrapSnapshot(Flagged(s, roles), phase, limits) == Flagged(BootstrapSnapshot(s, phase, limits), roles)
  {
    FlagsBorrows(s, roles, phase, limits);
    hide Borrows;
    assert BootstrapConfig(Flagged(s, roles), phase, limits) == BootstrapConfig(s, phase, limits);
  }

  /** The same plan, drawn up with other rejections in sight. */
  ghost predicate SamePlan(plan: Plan, rejected: Plan, roles: seq<bool>) {
    && plan.Valid() && |roles| == plan.snapshot.Size()
    && rejected == plan.(snapshot := Flagged(plan.snapshot, roles))
  }

  lemma FlagsBootstrapStep(plan: Plan, rejected: Plan, roles: seq<bool>)
    requires SamePlan(plan, rejected, roles)
    ensures rejected.BootstrapStep() == plan.BootstrapStep()
    ensures rejected.Changes(rejected.ordinary) == plan.Changes(plan.ordinary)
  {
    FlagsBootstrap(plan.snapshot, roles, plan.phase, plan.limits);
    hide BootstrapAllowed, BootstrapSnapshot, HardNewReplicaLimits;
    FlagsGrowth(BootstrapSnapshot(plan.snapshot, plan.phase, plan.limits), roles);
  }

  lemma FlagsOrdinary(s: Snapshot, roles: seq<bool>, past: seq<int>, grown: seq<nat>)
    requires s.Valid() && |roles| == |past| == |grown| == s.Size()
    ensures OrdinaryNext(Flagged(s, roles), past, grown) == OrdinaryNext(s, past, grown)
  {
    FlagsReduction(s, roles);
    hide FurthestTargetScaleDownTargets;
  }

  /** Only the last resort reads what the scheduler rejected. */
  lemma PlanIgnoresRejections(state: RolloutState, roles: seq<bool>)
    requires state.Valid() && |roles| == |state.config|
    ensures SamePlan(PrepareRolloutPlan(state), PrepareRolloutPlan(Rejected(state, roles)), roles)
  {
    hide SnapshotFor, FurthestOldTargets, PhaseTargets, HardNewReplicaLimits, OrdinaryNext, BoundGrowing;
    var s := SnapshotFor(state);
    FlagsSnapshot(state, roles);
    FlagsOld(s, roles);
    FlagsGrowth(s, roles);
    FlagsOrdinary(s, roles, FurthestOldTargets(s), FurthestNewTargets(s, PhaseTargets(s), HardNewReplicaLimits(s)));
  }

  /** Without rejections the planner never spends the extra unavailable replica. */
  lemma NoFallbackUnrejected(state: RolloutState)
    requires state.Valid() && forall i | 0 <= i < |state.config| :: !state.unschedulable[i]
    ensures ComputeNextStep(state).Some? ==> ComputeNextStep(state).value.kind != UnavailableFallback
  {
    hide SnapshotFor, FurthestOldTargets, PhaseTargets, HardNewReplicaLimits, FurthestTargetScaleDownTargets,
      FallbackSnapshot, FurthestNewTargets, BootstrapAllowed, BootstrapSnapshot, TargetScaleDownMinimum,
      DisjointGrowthLimits;
  }

  /** Nothing but the fallback is left to the planner. */
  ghost predicate OnlyFallback(plan: Plan) {
    plan.Valid() && !plan.Changes(plan.ordinary) && DisjointSurplusStep(plan.snapshot).None? &&
      plan.BootstrapStep().None?
  }

  lemma NoStepLeft(state: RolloutState)
    requires state.Valid() && ComputeNextStep(state).None?
    ensures OnlyFallback(PrepareRolloutPlan(state))
  {
    hide PrepareRolloutPlan, DisjointSurplusStep, FurthestOldTargets, FallbackSnapshot, SnapshotFor, BootstrapAllowed,
      BootstrapSnapshot, HardNewReplicaLimits, FurthestNewTargets, DrainsOverSurgeUnschedulableRole;
  }

  lemma FallbackLeft(state: RolloutState)
    requires state.Valid() && OnlyFallback(PrepareRolloutPlan(state))
    ensures var step := ComputeNextStep(state);
            step.Some? ==> step.value.kind == UnavailableFallback && step.value.next == state.target.spec
  {
    hide PrepareRolloutPlan, DisjointSurplusStep, FurthestOldTargets, FallbackSnapshot, SnapshotFor, BootstrapAllowed,
      BootstrapSnapshot, HardNewReplicaLimits, FurthestNewTargets, DrainsOverSurgeUnschedulableRole;
  }

  /** What rejections add, where nothing else moved, is the fallback and only that. */
  lemma RejectionsAddFallback(state: RolloutState, roles: seq<bool>)
    requires state.Valid() && |roles| == |state.config| && ComputeNextStep(state).None?
    ensures var step := ComputeNextStep(Rejected(state, roles));
            step.Some? ==> step.value.kind == UnavailableFallback && step.value.next == state.target.spec
  {
    hide PrepareRolloutPlan, DisjointSurplusStep, ComputeNextStep, SnapshotFor, BootstrapAllowed, BootstrapSnapshot,
      HardNewReplicaLimits, FurthestNewTargets;
    var plan, rejected := PrepareRolloutPlan(state), PrepareRolloutPlan(Rejected(state, roles));
    NoStepLeft(state);
    PlanIgnoresRejections(state, roles);
    FlagsBootstrapStep(plan, rejected, roles);
    FlagsSurplus(plan.snapshot, roles);
    FallbackLeft(Rejected(state, roles));
  }

  // --- The selection ---

  datatype Selection = Selection(candidate: nat, step: UpdateStep)

  /** Ordinary progress, then a target reduction, then a bootstrap surge. */
  function Preference(state: RolloutState): nat
    requires ComputeNextStep(state).Some?
  {
    var step := ComputeNextStep(state).value;
    if step.kind == BootstrapSurge then 2 else if StepValidator.TargetScalesDown(state, step) then 1 else 0
  }

  /** Candidates as the executor builds them: no rejection observed yet. */
  ghost predicate Fresh(candidates: seq<RolloutState>, size: nat) {
    forall k | 0 <= k < |candidates| ::
      && candidates[k].Valid() && |candidates[k].config| == size
      && forall i | 0 <= i < size :: !candidates[k].unschedulable[i]
  }

  /** The first of the most preferred steps among the first n candidates. */
  ghost predicate Best(candidates: seq<RolloutState>, n: nat, k: nat)
    requires n <= |candidates|
  {
    && k < n && ComputeNextStep(candidates[k]).Some?
    && forall j | 0 <= j < n && ComputeNextStep(candidates[j]).Some? ::
         && Preference(candidates[k]) <= Preference(candidates[j])
         && (Preference(candidates[k]) == Preference(candidates[j]) ==> k <= j)
  }

  ghost predicate NoneMoves(candidates: seq<RolloutState>, n: nat)
    requires n <= |candidates|
  {
    forall j | 0 <= j < n :: ComputeNextStep(candidates[j]).None?
  }

  /** The first candidate that moves once rejections are known. */
  ghost predicate FirstRejected(candidates: seq<RolloutState>, roles: seq<bool>, k: nat)
    requires Fresh(candidates, |roles|)
  {
    && k < |candidates| && ComputeNextStep(Rejected(candidates[k], roles)).Some?
    && forall j | 0 <= j < k :: ComputeNextStep(Rejected(candidates[j], roles)).None?
  }

  method SelectNextStep(candidates: seq<RolloutState>, roles: seq<bool>) returns (selected: Option<Selection>)
    requires Fresh(candidates, |roles|)
    ensures !NoneMoves(candidates, |candidates|) ==>
              && selected.Some? && Best(candidates, |candidates|, selected.value.candidate)
              && Some(selected.value.step) == ComputeNextStep(candidates[selected.value.candidate])
              && selected.value.step.kind != UnavailableFallback
    ensures NoneMoves(candidates, |candidates|) && selected.Some? ==>
              && FirstRejected(candidates, roles, selected.value.candidate)
              && Some(selected.value.step) == ComputeNextStep(Rejected(candidates[selected.value.candidate], roles))
              && selected.value.step.kind == UnavailableFallback
    ensures selected.None? ==>
              NoneMoves(candidates, |candidates|) && forall k | 0 <= k < |candidates| ::
                ComputeNextStep(Rejected(candidates[k], roles)).None?
  {
    hide ComputeNextStep;
    selected := None;
    for i := 0 to |candidates|
      invariant selected.None? ==> NoneMoves(candidates, i)
      invariant selected.Some? ==>
                  && Best(candidates, i, selected.value.candidate) &&
                    Preference(candidates[selected.value.candidate]) > 0
                  && Some(selected.value.step) == ComputeNextStep(candidates[selected.value.candidate])
    {
      var state := candidates[i];
      var step := ComputeNextStep(state);
      if step.None? {
        continue;
      }
      if step.value.kind == BootstrapSurge {
        if selected.None? {
          selected := Some(Selection(i, step.value));
        }
        continue;
      }
      if StepValidator.TargetScalesDown(state, step.value) {
        if selected.None? || selected.value.step.kind == BootstrapSurge {
          selected := Some(Selection(i, step.value));
        }
        continue;
      }
      selected := Some(Selection(i, step.value));
      assert Best(candidates, |candidates|, i);
      break;
    }
    if selected.Some? {
      NoFallbackUnrejected(candidates[selected.value.candidate]);
      return;
    }
    if !(exists i | 0 <= i < |roles| :: roles[i]) {
      forall k | 0 <= k < |candidates|
        ensures ComputeNextStep(Rejected(candidates[k], roles)).None?
      {
        assert roles == candidates[k].unschedulable;
        assert Rejected(candidates[k], roles) == candidates[k];
      }
      return;
    }
    for i := 0 to |candidates|
      invariant forall j | 0 <= j < i :: ComputeNextStep(Rejected(candidates[j], roles)).None?
    {
      var step := ComputeNextStep(Rejected(candidates[i], roles));
      if step.Some? {
        RejectionsAddFallback(candidates[i], roles);
        return Some(Selection(i, step.value));
      }
    }
  }
}
