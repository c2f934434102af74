/**
 * The planner's slice-filling code: each loop computes the vector, the flag or
 * the fraction that the planner's definitions describe role by role.
 */
module PlannerLoops {
  import opened Roles
  import opened CoordinationWindow
  import opened RolloutState
  import opened DrainBudget
  import opened Planner
  import opened ReplacementPace
  import opened StepValidator

  method ReplicaSum(replicas: seq<nat>) returns (sum: nat)
    ensures sum == Sum(replicas)
  {
    sum := 0;
    for i := 0 to |replicas|
      invariant sum == Sum(replicas[..i])
    {
      assert replicas[..i + 1][..i] == replicas[..i];
      sum := sum + replicas[i];
    }
    assert replicas[..|replicas|] == replicas;
  }

  method AllRequiredRolesPresent(required: seq<bool>, replicas: seq<int>) returns (present: bool)
    requires |required| == |replicas|
    ensures present <==> AllRequiredPresent(required, replicas)
  {
    var hasRole := false;
    for i := 0 to |required|
      invariant hasRole <==> exists j | 0 <= j < i :: required[j]
      invariant forall j | 0 <= j < i :: required[j] ==> replicas[j] != 0
    {
      if required[i] && replicas[i] == 0 {
        return false;
      }
      hasRole := hasRole || required[i];
    }
    return hasRole;
  }

  // --- The drain budget ---

  /** Nothing serves once a required role that stays would have no serving group left. */
  method ServingAfter(budget: DrainBudget, remaining: seq<int>) returns (ready: seq<nat>)
    requires budget.Valid() && |remaining| == budget.Size()
    ensures |ready| == budget.Size() && forall i | 0 <= i < |ready| :: ready[i] == budget.ServingAfter(remaining, i)
  {
    ready := Zeros(budget.Size());
    var present := AllRequiredRolesPresent(budget.revision.required, remaining);
    if !present {
      return;
    }
    for i := 0 to budget.Size()
      invariant |ready| == budget.Size() && forall j | 0 <= j < i :: ready[j] == budget.ReadyLeft(remaining, j)
      invariant forall j | 0 <= j < i ::
                !(budget.revision.required[j] && remaining[j] > 0 && budget.ReadyLeft(remaining, j) == 0)
    {
      ready := ready[i := Max(0, budget.roles[i].serving - (budget.revision.spec[i] - remaining[i]))];
      if budget.revision.required[i] && remaining[i] > 0 && ready[i] == 0 {
        assert budget.LosesServing(remaining);
        return Zeros(budget.Size());
      }
    }
  }

  method HasReduction(current: seq<nat>, target: seq<int>) returns (reduced: bool)
    requires |current| == |target|
    ensures reduced <==> exists i | 0 <= i < |current| :: target[i] < current[i]
  {
    for i := 0 to |current|
      invariant forall j | 0 <= j < i :: target[j] >= current[j]
    {
      if target[i] < current[i] {
        return true;
      }
    }
    return false;
  }

  method Preserves(budget: DrainBudget, remaining: seq<int>) returns (preserved: bool)
    requires budget.Valid() && |remaining| == budget.Size()
    ensures preserved <==> budget.Preserves(remaining)
  {
    var reduced := HasReduction(budget.revision.spec, remaining);
    if !reduced {
      return true;
    }
    var serving := ServingAfter(budget, remaining);
    for i := 0 to budget.Size()
      invariant forall j | 0 <= j < i :: budget.RolePreserved(remaining, j)
    {
      var role := budget.roles[i];
      if role.excluded {
        continue;
      }
      var removed := budget.revision.spec[i] - remaining[i];
      if !budget.allowOutage && !(removed == 0 && serving[i] > 0)
         && role.replacement.serving + serving[i] < Min(role.observed.serving, role.floor) {
        assert !budget.RolePreserved(remaining, i);
        return false;
      }
      var individual := Max(0, budget.revision.ready[i] - removed);
      if removed > 0 && role.replacement.individual + individual < Min(role.observed.individual, role.floor) {
        assert !budget.RolePreserved(remaining, i);
        return false;
      }
    }
    return true;
  }

  method MinimumTargets(budget: DrainBudget) returns (targets: seq<nat>)
    requires budget.Valid()
    ensures targets == budget.MinimumTargets()
  {
    targets := Zeros(budget.Size());
    var safe := Preserves(budget, targets);
    if safe {
      return;
    }
    var serving := Zeros(budget.Size());
    for i := 0 to budget.Size()
      invariant |serving| == budget.Size() && forall j | 0 <= j < i :: serving[j] == budget.ServingNeed(j)
      invariant forall j | i <= j < |serving| :: serving[j] == 0
    {
      var role := budget.roles[i];
      if !role.excluded && !budget.allowOutage {
        serving := serving[i := Max(0, Min(role.observed.serving, role.floor) - role.replacement.serving)];
      }
    }
    var total := ReplicaSum(serving);
    var mustServe := total > 0;
    SumZero(serving);
    assert mustServe <==> budget.MustServe();
    for i := 0 to budget.Size()
      invariant |serving| == |targets| == budget.Size()
      invariant forall j | i <= j < |serving| :: serving[j] == budget.ServingNeed(j)
      invariant forall j | 0 <= j < i :: targets[j] == budget.MinimumTarget(j)
    {
      var role := budget.roles[i];
      if mustServe && budget.revision.required[i] && budget.revision.spec[i] > 0 {
        serving := serving[i := Max(1, serving[i])];
      }
      var individual: nat := Max(0, Min(role.observed.individual, role.floor) - role.replacement.individual);
      if role.excluded {
        individual := 0;
      }
      targets := targets[i := Max(
        MinimumSpecToPreserveReady(budget.revision.spec[i], role.serving, serving[i]),
        MinimumSpecToPreserveReady(budget.revision.spec[i], budget.revision.ready[i], individual))];
    }
  }

  method BoundOldTargetsByRevisionCompleteness(
    current: seq<nat>, proposed: seq<int>, required: seq<bool>
  ) returns (bounded: seq<int>)
    requires |current| == |proposed| == |required|
    ensures bounded == BoundByCompleteness(current, proposed, required)
  {
    for i := 0 to |required|
      invariant forall k | 0 <= k < i :: !(required[k] && current[k] > 0 && proposed[k] > 0)
    {
      if required[i] && current[i] > 0 && proposed[i] > 0 {
        assert SomeRequiredStays(current, proposed, required);
        bounded := proposed;
        for j := 0 to |required|
          invariant |bounded| == |proposed|
          invariant forall k | 0 <= k < j ::
                      bounded[k] == if required[k] && current[k] > 0 then Max(1, proposed[k]) else proposed[k]
          invariant forall k | j <= k < |proposed| :: bounded[k] == proposed[k]
        {
          if required[j] && current[j] > 0 {
            bounded := bounded[j := Max(1, bounded[j])];
          }
        }
        return;
      }
    }
    return proposed;
  }

  // --- Growth limits ---

  method TargetReplicasForActiveRevision(snapshot: Snapshot) returns (targets: seq<nat>)
    requires snapshot.Valid()
    ensures targets == PhaseTargets(snapshot)
  {
    targets := Zeros(snapshot.Size());
    var disjoint := AnyUnreplaced(snapshot);
    for i := 0 to snapshot.Size()
      invariant |targets| == snapshot.Size() && forall j | 0 <= j < i :: targets[j] == PhaseTarget(snapshot, j)
    {
      var desired := snapshot.state.desired[i];
      var parked := if disjoint then 0 else snapshot.parkedReady[i].usable;
      var residual := desired - parked;
      if desired > 0 {
        residual := Max(1, residual);
      }
      targets := targets[i := Max(snapshot.state.target.spec[i], residual)];
    }
  }

  method AnyUnreplaced(snapshot: Snapshot) returns (disjoint: bool)
    requires snapshot.Valid()
    ensures disjoint <==> snapshot.Disjoint()
  {
    disjoint := false;
    for i := 0 to snapshot.Size()
      invariant disjoint <==> exists j | 0 <= j < i :: snapshot.Unreplaced(j) > 0
    {
      disjoint := disjoint || snapshot.Unreplaced(i) > 0;
    }
  }

  /** Drain progress of the removed roles, whether any is still present, and whether any has drained. */
  method ReleasedProgress(snapshot: Snapshot) returns (progress: Window, hasOld: bool, hasProgress: bool)
    requires snapshot.Valid()
    ensures progress == ReleasedWindow(snapshot, snapshot.Size())
    ensures hasOld <==> exists i | 0 <= i < snapshot.Size() :: ReleasesRole(snapshot, i) && snapshot.disjointSpec[i] > 0
    ensures hasProgress <==>
              exists i | 0 <= i < snapshot.Size() ::
                ReleasesRole(snapshot, i) && snapshot.state.baseline[i] > snapshot.disjointSpec[i]
  {
    progress, hasOld, hasProgress := EMPTY_WINDOW, false, false;
    hide ReleasesRole;
    for i := 0 to snapshot.Size()
      invariant progress == ReleasedWindow(snapshot, i)
      invariant hasOld <==> exists j | 0 <= j < i :: ReleasesRole(snapshot, j) && snapshot.disjointSpec[j] > 0
      invariant hasProgress <==>
                  exists j | 0 <= j < i ::
                    ReleasesRole(snapshot, j) && snapshot.state.baseline[j] > snapshot.disjointSpec[j]
    {
      if ReleasesRole(snapshot, i) {
        var baseline, spec := snapshot.state.baseline[i], snapshot.disjointSpec[i];
        progress := progress.IncludeProgress(baseline, Max(0, Minus(baseline, spec)));
        hasOld, hasProgress := hasOld || spec > 0, hasProgress || baseline > spec;
      }
    }
  }

  method FindDisjointGrowthLimits(snapshot: Snapshot) returns (result: Option<seq<nat>>)
    requires snapshot.Valid()
    ensures result == DisjointGrowthLimits(snapshot)
    ensures result.Some? <==>
            exists j | 0 <= j < snapshot.Size() :: ReleasesRole(snapshot, j) && snapshot.disjointSpec[j] > 0
    ensures result.Some? ==>
              forall i, j | 0 <= i < snapshot.Size() && 0 <= j < snapshot.Size() && ReleasesRole(snapshot, j) ::
                result.value[i] == 1 || AheadByLessThanOne(snapshot, result.value[i], i, j)
  {
    var state, size := snapshot.state, snapshot.Size();
    DisjointLimitsIff(snapshot);
    var progress, hasOld, hasProgress := ReleasedProgress(snapshot);
    hide ReleasedWindow, ReleasesRole;
    if !hasOld || progress.target == 0 {
      return None;
    }
    var limits := Zeros(size);
    hide CeilingShare;
    for i := 0 to size
      invariant |limits| == size
      invariant forall j | 0 <= j < i ::
                  limits[j] == DisjointLimit(state.desired[j], state.config[j].maxSurge, progress, hasProgress)
    {
      var limit := CeilingShare(state.desired[i], progress.least, progress.target) + state.config[i].maxSurge;
      if hasProgress && state.desired[i] > 0 {
        limit := Max(1, limit);
      }
      limits := limits[i := limit];
    }
    assert limits == DisjointGrowthLimits(snapshot).value;
    hide DisjointGrowthLimits, AheadByLessThanOne;
    forall i, j | 0 <= i < size && 0 <= j < size && ReleasesRole(snapshot, j)
      ensures limits[i] == 1 || AheadByLessThanOne(snapshot, limits[i], i, j)
    {
      DisjointLimitsPace(snapshot, i, j);
    }
    return Some(limits);
  }

  method FindHardNewReplicaLimits(snapshot: Snapshot) returns (limits: seq<nat>)
    requires snapshot.Valid()
    ensures limits == HardNewReplicaLimits(snapshot)
  {
    var state, size := snapshot.state, snapshot.Size();
    limits := Zeros(size);
    var released := FindDisjointGrowthLimits(snapshot);
    var progress, hasTarget := CoordinationWindowForProgress(state.desired, state.target.ready);
    var steps := 0;
    for i := 0 to size
      invariant steps == StepCount(state.initial[..i], state.desired[..i])
    {
      assert state.initial[..i + 1][..i] == state.initial[..i] && state.desired[..i + 1][..i] == state.desired[..i];
      steps := Max(steps, Max(state.initial[i], state.desired[i]));
    }
    assert state.initial[..size] == state.initial && state.desired[..size] == state.desired;
    hide StepCount, DisjointGrowthLimits, WindowFor;
    for i := 0 to size
      invariant |limits| == size
      invariant forall j | 0 <= j < i :: limits[j] == HardNewReplicaLimit(snapshot, released, progress, steps, j)
    {
      var (limit, credit) := PendingGrowthLimit(snapshot, i, progress, steps);
      if released.Some? {
        var replacement := released.value[i];
        if hasTarget && progress.least > 0 {
          replacement := Max(replacement, credit + 1);
        }
        limit := Min(limit, replacement);
        if hasTarget && progress.least == 0 {
          limit := Min(limit, 1);
        }
      }
      limits := limits[i := Max(state.target.spec[i], Min(state.desired[i], limit))];
    }
  }

  // --- Target reductions ---

  method FindDisjointReadyFraction(snapshot: Snapshot) returns (fraction: (nat, nat))
    requires snapshot.Valid()
    ensures fraction == NeededFraction(snapshot)
    ensures fraction.1 > 0
    ensures var progress := TargetReadyProgress(snapshot.state, snapshot.state.target.rawReady);
            progress.target > 0 ==>
              && (forall i | 0 <= i < snapshot.Size() && NeedsCredit(snapshot, i) ::
                    NeededCredit(snapshot, progress, i) * fraction.1 <= fraction.0 * snapshot.state.baseline[i])
              && (fraction == (0, 1) || exists i | 0 <= i < snapshot.Size() ::
                    NeedsCredit(snapshot, i) &&
                      fraction == (NeededCredit(snapshot, progress, i), snapshot.state.baseline[i]))
  {
    var state := snapshot.state;
    var progress := TargetReadyProgress(state, state.target.rawReady);
    fraction := (0, 1);
    if progress.target == 0 {
      return;
    }
    for i := 0 to snapshot.Size()
      invariant fraction == DisjointReadyFraction(snapshot, progress, i)
    {
      var baseline := state.baseline[i];
      if state.desired[i] != 0 || baseline == 0 {
        continue;
      }
      var floor := Max(0, baseline - state.config[i].maxUnavailable);
      var retained := snapshot.OldReady(i);
      var observed := retained.rawUsable + snapshot.TargetReady(i).rawUsable + progress.ReadyCredit(baseline);
      var needed := Max(0, Min(observed, floor) - retained.usable);
      if needed * fraction.1 > fraction.0 * baseline {
        fraction := (needed, baseline);
      }
    }
    hide DisjointReadyFraction, NeededCredit, NeedsCredit;
    FractionAttained(snapshot, progress, snapshot.Size());
    forall i | 0 <= i < snapshot.Size() && NeedsCredit(snapshot, i)
      ensures NeededCredit(snapshot, progress, i) * fraction.1 <= fraction.0 * state.baseline[i]
    {
      FractionCovers(snapshot, progress, snapshot.Size(), i);
    }
  }

  method TargetScaleDownBounds(snapshot: Snapshot) returns (minimum: seq<nat>)
    requires snapshot.Valid()
    ensures minimum == TargetScaleDownMinimum(snapshot)
  {
    var state := snapshot.state;
    minimum := MinimumTargets(TargetDrain(snapshot));
    ghost var budgetMinimum := minimum;
    var fraction := FindDisjointReadyFraction(snapshot);
    hide TargetDrain, DisjointReadyFraction, TargetReadyProgress;
    for i := 0 to snapshot.Size()
      invariant |minimum| == snapshot.Size()
      invariant forall j | i <= j < |minimum| :: minimum[j] == budgetMinimum[j]
      invariant forall j | 0 <= j < i :: minimum[j] == TargetMinimum(snapshot, budgetMinimum[j], fraction, j)
    {
      var target, desired := state.target, state.desired[i];
      var required := Min(CeilingShare(desired, fraction.0, fraction.1), target.rawReady[i]);
      minimum := minimum[i := Max(minimum[i], MinimumSpecToPreserveReady(target.spec[i], target.ready[i], required))];
      if i >= |state.allUnscheduled| || !state.allUnscheduled[i] || target.rawReady[i] > 0 || target.ready[i] > 0 {
        minimum := minimum[i := Max(minimum[i], Min(target.spec[i], desired))];
      }
    }
  }

  method FindScaleDownTarget(snapshot: Snapshot, minimum: nat, i: nat) returns (target: nat)
    requires snapshot.Valid() && i < snapshot.Size() && snapshot.state.target.spec[i] > snapshot.state.desired[i]
    ensures target == TargetScaleDownTarget(snapshot, minimum, i)
  {
    var state, spec, ceiling := snapshot.state, snapshot.state.target.spec[i], snapshot.state.desired[i];
    if snapshot.oldSpec[i] > 0 {
      ceiling := Min(spec, Max(0, state.desired[i] + state.config[i].maxSurge - snapshot.oldSpec[i]));
    }
    if state.target.required[i] && spec > 0 {
      ceiling := Max(1, ceiling);
    }
    return Max(ceiling, minimum);
  }

  method FindFurthestTargetScaleDownTargets(snapshot: Snapshot) returns (targets: seq<nat>)
    requires snapshot.Valid()
    ensures targets == FurthestTargetScaleDownTargets(snapshot)
  {
    var state := snapshot.state;
    targets := state.target.spec;
    var minimum := TargetScaleDownBounds(snapshot);
    hide TargetScaleDownMinimum, TargetDrain;
    for i := 0 to snapshot.Size()
      invariant |targets| == snapshot.Size()
      invariant forall j | i <= j < |targets| :: targets[j] == state.target.spec[j]
      invariant forall j | 0 <= j < i :: targets[j] == TargetScaleDownTarget(snapshot, minimum[j], j)
    {
      if state.target.spec[i] > state.desired[i] {
        var target := FindScaleDownTarget(snapshot, minimum[i], i);
        targets := targets[i := target];
      }
    }
    ReducedTargets(snapshot, minimum, targets);
    hide TargetScaleDownTarget, FurthestTargetScaleDownTargets;
    var safe := Preserves(TargetDrain(snapshot), targets);
    if !safe {
      return state.target.spec;
    }
  }

  lemma ReducedTargets(snapshot: Snapshot, minimum: seq<nat>, targets: seq<nat>)
    requires snapshot.Valid() && minimum == TargetScaleDownMinimum(snapshot) && |targets| == snapshot.Size()
    requires forall i | 0 <= i < snapshot.Size() :: targets[i] == TargetScaleDownTarget(snapshot, minimum[i], i)
    ensures FurthestTargetScaleDownTargets(snapshot) ==
            if TargetDrain(snapshot).Preserves(targets) then targets else snapshot.state.target.spec
  {
    hide TargetScaleDownMinimum, TargetDrain, TargetScaleDownTarget;
    assert targets == seq(snapshot.Size(), i requires 0 <= i < snapshot.Size() =>
                        TargetScaleDownTarget(snapshot, minimum[i], i));
  }

  // --- Snapshots ---

  method IncludeBaseline(
    baseline: seq<nat>, desired: seq<nat>, initial: seq<nat>, spec: seq<nat>
  ) returns (result: seq<nat>)
    requires |baseline| == |desired| == |initial|
    ensures result == IncludeHistoricalBaseline(baseline, desired, initial, spec)
  {
    result := baseline;
    var total := ReplicaSum(spec);
    if total == 0 {
      return;
    }
    var overlaps := false;
    for i := 0 to |initial|
      invariant overlaps <==> exists j | 0 <= j < i :: initial[j] > 0 && desired[j] > 0
    {
      overlaps := overlaps || (initial[i] > 0 && desired[i] > 0);
    }
    for i := 0 to |initial|
      invariant |result| == |baseline|
      invariant forall j | 0 <= j < i ::
                  result[j] == if desired[j] > 0 || !overlaps then Max(baseline[j], initial[j]) else baseline[j]
      invariant forall j | i <= j < |result| :: result[j] == baseline[j]
    {
      if desired[i] > 0 || !overlaps {
        result := result[i := Max(result[i], initial[i])];
      }
    }
  }

  method IncludeParkedRevision(snapshot: Snapshot, revision: RevisionState) returns (result: Snapshot)
    requires snapshot.Valid() && revision.Valid(snapshot.Size())
    ensures result == IncludeParked(snapshot, revision)
  {
    var size, desired := snapshot.Size(), snapshot.state.desired;
    var overlaps := RolesOverlap(revision.required, desired);
    var oldSpec, disjointSpec, parkedReady := snapshot.oldSpec, snapshot.disjointSpec, snapshot.parkedReady;
    for i := 0 to size
      invariant |oldSpec| == |disjointSpec| == |parkedReady| == size
      invariant forall j | 0 <= j < i ::
                  && oldSpec[j] == snapshot.oldSpec[j] + revision.spec[j]
                  && disjointSpec[j] == snapshot.disjointSpec[j] + (if overlaps then 0 else revision.spec[j])
                  && parkedReady[j] == if overlaps && desired[j] == 0 then snapshot.parkedReady[j]
                                       else snapshot.parkedReady[j].Plus(RoleReadinessAt(revision, j))
      invariant forall j | i <= j < size ::
                  oldSpec[j] == snapshot.oldSpec[j] && disjointSpec[j] == snapshot.disjointSpec[j] &&
                    parkedReady[j] == snapshot.parkedReady[j]
    {
      oldSpec := oldSpec[i := oldSpec[i] + revision.spec[i]];
      if !overlaps {
        disjointSpec := disjointSpec[i := disjointSpec[i] + revision.spec[i]];
      } else if desired[i] == 0 {
        continue;
      }
      parkedReady := parkedReady[i := parkedReady[i].Plus(RoleReadinessAt(revision, i))];
    }
    result := snapshot.(oldSpec := oldSpec, disjointSpec := disjointSpec, parkedReady := parkedReady);
  }

  method SnapshotForRolloutState(state: RolloutState) returns (snapshot: Snapshot)
    requires state.Valid()
    ensures snapshot == SnapshotFor(state)
  {
    var size, overlaps := |state.config|, RolesOverlap(state.activeOld.required, state.desired);
    snapshot := Snapshot(
      state, state.activeOld.spec, if overlaps then seq(size, _ => 0) else state.activeOld.spec,
      seq(size, _ => NOT_READY), overlaps, TargetReadyProgress(state, state.target.ready));
    ghost var active, parked := snapshot, state.parkedOld;
    assert SnapshotFor(state) == IncludeAllParked(active, parked);
    hide IncludeParked, IncludeAllParked, TargetReadyProgress, SnapshotFor, RolesOverlap;
    ParkNone(active);
    for k := 0 to |state.parkedOld|
      invariant active.Valid() && active.Size() == size && snapshot == IncludeAllParked(active, parked[..k])
    {
      ParkNext(active, parked, k);
      snapshot := IncludeParkedRevision(snapshot, state.parkedOld[k]);
    }
    assert parked[..|parked|] == parked;
  }

  lemma ParkNone(active: Snapshot)
    requires active.Valid()
    ensures IncludeAllParked(active, []) == active
  {}

  lemma ParkNext(active: Snapshot, parked: seq<RevisionState>, k: nat)
    requires active.Valid() && k < |parked| && forall j | 0 <= j < |parked| :: parked[j].Valid(active.Size())
    ensures IncludeAllParked(active, parked[..k + 1]) == IncludeParked(IncludeAllParked(active, parked[..k]), parked[k])
  {
    assert parked[..k + 1][..k] == parked[..k];
  }

  // --- Recovery ---

  /** Surplus targets of every role; none when a role that is wanted also has a baseline. */
  method SurplusTargets(snapshot: Snapshot, limits: seq<nat>, minimum: seq<nat>) returns (result: Option<seq<nat>>)
    requires snapshot.Valid() && |limits| == |minimum| == snapshot.Size()
    ensures result.None? <==> exists i | 0 <= i < snapshot.Size() ::
            snapshot.state.desired[i] > 0 && snapshot.state.baseline[i] > 0
    ensures result.Some? ==> |result.value| == snapshot.Size()
    ensures result.Some? ==>
              forall i | 0 <= i < snapshot.Size() ::
                result.value[i] == SurplusTarget(snapshot, limits[i], minimum[i], i)
  {
    var state := snapshot.state;
    var next := state.target.spec;
    for i := 0 to snapshot.Size()
      invariant |next| == snapshot.Size()
      invariant forall j | 0 <= j < i :: !(state.desired[j] > 0 && state.baseline[j] > 0)
      invariant forall j | 0 <= j < i :: next[j] == SurplusTarget(snapshot, limits[j], minimum[j], j)
      invariant forall j | i <= j < |next| :: next[j] == state.target.spec[j]
    {
      if state.desired[i] > 0 && state.baseline[i] > 0 {
        return None;
      }
      var target := state.target;
      var keepReady := MinimumSpecToPreserveReady(target.spec[i], target.ready[i], Min(1, target.ready[i]));
      next := next[i := Min(next[i], Max(Max(limits[i], Min(1, target.spec[i])), Max(keepReady, minimum[i])))];
    }
    return Some(next);
  }

  method FindDisjointSurplusStep(snapshot: Snapshot) returns (step: Option<UpdateStep>)
    requires snapshot.Valid()
    ensures step == DisjointSurplusStep(snapshot)
  {
    hide DisjointGrowthLimits, TargetScaleDownMinimum, TargetDrain, SurplusTarget, AllRequiredPresent;
    var state := snapshot.state;
    var limits := FindDisjointGrowthLimits(snapshot);
    var serving := AllRequiredRolesPresent(state.target.required, state.target.ready);
    if limits.None? || serving {
      return None;
    }
    var minimum := TargetScaleDownBounds(snapshot);
    var next := SurplusTargets(snapshot, limits.value, minimum);
    if next.None? {
      return None;
    }
    assert next.value
        == seq(snapshot.Size(), i requires 0 <= i < snapshot.Size() =>
               SurplusTarget(snapshot, limits.value[i], minimum[i], i));
    var safe := Preserves(TargetDrain(snapshot), next.value);
    if next.value == state.target.spec || !safe {
      return None;
    }
    return Some(UpdateStep(state.activeOld.spec, next.value, TargetRebalance));
  }

  method SnapshotWithBootstrapSurge(
    snapshot: Snapshot, phase: seq<nat>, limits: seq<nat>
  ) returns (result: Snapshot, allowed: bool)
    requires snapshot.Valid() && |phase| == |limits| == snapshot.Size()
    ensures result == BootstrapSnapshot(snapshot, phase, limits)
    ensures allowed <==> BootstrapAllowed(snapshot, phase, limits)
  {
    var config := snapshot.state.config;
    allowed := false;
    hide Borrows;
    for i := 0 to snapshot.Size()
      invariant |config| == snapshot.Size()
      invariant allowed <==> exists j | 0 <= j < i :: Borrows(snapshot, phase, limits, j)
      invariant forall j | 0 <= j < i :: config[j] == BootstrapConfig(snapshot, phase, limits)[j]
      invariant forall j | i <= j < |config| :: config[j] == snapshot.state.config[j]
    {
      if Borrows(snapshot, phase, limits, i) {
        var borrowed := Max(1, Minus(snapshot.oldSpec[i], snapshot.SurgeCeiling(i)) + 1);
        config := config[i := config[i].(maxSurge := config[i].maxSurge + borrowed)];
        allowed := true;
      }
    }
    assert config == BootstrapConfig(snapshot, phase, limits);
    result := snapshot.WithConfig(config);
  }

  method SnapshotWithUnavailableFallback(snapshot: Snapshot) returns (result: Snapshot)
    requires snapshot.Valid()
    ensures result == FallbackSnapshot(snapshot)
  {
    var config := snapshot.state.config;
    for i := 0 to snapshot.Size()
      invariant |config| == snapshot.Size() && forall j | i <= j < |config| :: config[j] == snapshot.state.config[j]
      invariant forall j | 0 <= j < i ::
                  var before := snapshot.state.config[j];
                  config[j] ==
                    if snapshot.AvailabilityFloor(j) > 1
                    then before.(maxUnavailable := before.maxUnavailable + 1)
                    else before
    {
      if snapshot.AvailabilityFloor(i) > 1 {
        config := config[i := config[i].(maxUnavailable := config[i].maxUnavailable + 1)];
      }
    }
    assert config == FallbackSnapshot(snapshot).state.config;
    result := snapshot.WithConfig(config);
  }

  // --- Validation ---

  /** Judges targets role by role; the bootstrap marker must say whether any role exceeds its ordinary limit. */
  method CheckTargets(plan: Plan, step: UpdateStep, limits: seq<nat>) returns (result: Result<()>)
    requires plan.Valid() && |step.past| == |step.next| == |limits| == plan.snapshot.Size()
    ensures result == ValidateTargets(plan, step, limits)
  {
    var snapshot, size := plan.snapshot, plan.snapshot.Size();
    if BoundDrainingSnapshotTargets(snapshot, step.past) != step.past {
      return Rejected(OldOutsideWindow);
    }
    var growth := Growth(plan, step);
    if BoundGrowing(snapshot.state.target.spec, plan.phase, growth) != growth {
      return Rejected(NewOutsideWindow);
    }
    hide BoundDrainingSnapshotTargets, BoundGrowing, Growth;
    var usedBootstrap := false;
    for i := 0 to size
      invariant forall j | 0 <= j < i :: InRange(plan, step, limits, j)
      invariant usedBootstrap <==> exists j | 0 <= j < i :: step.next[j] > Min(plan.limits[j], plan.phase[j])
    {
      if step.past[i] < 0 || step.past[i] > snapshot.state.activeOld.spec[i] {
        assert !InRange(plan, step, limits, i);
        return Rejected(OutsideRange);
      }
      var minimum, maximum := Min(snapshot.state.target.spec[i], plan.ordinary.next[i]), Min(limits[i], plan.phase[i]);
      if step.next[i] < minimum || step.next[i] > maximum {
        assert !InRange(plan, step, limits, i);
        return Rejected(OutsideRange);
      }
      usedBootstrap := usedBootstrap || step.next[i] > Min(plan.limits[i], plan.phase[i]);
    }
    hide InRange;
    if (step.kind == BootstrapSurge) != usedBootstrap {
      return Rejected(BootstrapMarkerWrong);
    }
    if !plan.Changes(step) {
      return Rejected(NoChange);
    }
    return Ok(());
  }
}
