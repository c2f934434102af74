/**
 * Roles that the target does not have any more. Their capacity is released only
 * as fast as the target replaces it, and a target reduction never takes back
 * what they have been released for.
 */
module RemovedRoles {
  import opened Roles
  import opened CoordinationWindow
  import opened RolloutState
  import opened DrainBudget
  import opened Planner
  import opened StepSafety
  import opened ReplacementPace
  import opened FurthestDrain
  import opened StepValidator

  ghost predicate Removed(state: RolloutState, i: nat) {
    state.Valid() && i < |state.config| && state.desired[i] == 0
  }

  /** The target requires exactly the roles it wants groups of. */
  ghost predicate RequiresDesired(state: RolloutState) {
    state.Valid() && forall i | 0 <= i < |state.config| :: state.target.required[i] <==> state.desired[i] > 0
  }

  /** Replacement progress of the target, as if it were in the given state. */
  function ProgressOf(state: RolloutState, target: RevisionState): Window
    requires state.Valid() && target.Valid(|state.config|)
  {
    TargetReadyProgress(state.(target := target), target.ready)
  }

  /** Baseline capacity of a removed role that the target has replaced; without a wanted role nothing is owed. */
  function Replaced(state: RolloutState, target: RevisionState, i: nat): nat
    requires Removed(state, i) && target.Valid(|state.config|)
  {
    var progress, baseline := ProgressOf(state, target), state.baseline[i];
    if progress.target == 0 then baseline else progress.ReadyCredit(baseline)
  }

  /** A floor, with one group less for a fallback step. */
  function Eased(floor: nat, kind: StepKind): nat {
    if kind == UnavailableFallback && floor > 1 then floor - 1 else floor
  }

  /** What has to go on serving of a removed role. */
  function RemovedFloor(state: RolloutState, target: RevisionState, i: nat): nat
    requires Removed(state, i) && target.Valid(|state.config|)
  {
    Max(0, state.baseline[i] - Replaced(state, target, i) - state.config[i].maxUnavailable)
  }

  /** Serving capacity of a removed role: revisions that share a role with the target do not supply its baseline. */
  ghost function RemovedServing(state: RolloutState, active: RevisionState, target: RevisionState, i: nat): nat
    requires Removed(state, i) && active.Valid(|state.config|) && target.Valid(|state.config|)
  {
    SnapshotFor(state).parkedReady[i].usable
    + (if RolesOverlap(state.activeOld.required, state.desired) then 0 else RoleReadinessAt(active, i).usable)
    + RoleReadinessAt(target, i).usable
  }

  function Shortfall(floor: nat, serving: nat): nat {
    Max(0, floor - serving)
  }

  // --- Credit as a fraction ---

  /** v's fraction is at most w's. */
  ghost predicate AtMost(v: Window, w: Window) {
    v.target > 0 && w.target > 0 && v.least * w.target <= w.least * v.target
  }

  lemma CappedAtMost(v: Window, w: Window)
    requires AtMost(v, w)
    ensures Min(v.least, v.target) * w.target <= Min(w.least, w.target) * v.target
  {
    if w.least >= w.target {
      MulMonotone(Min(v.least, v.target), v.target, w.target);
    } else {
      MulMonotone(w.least, w.target, v.target);
      if v.least >= v.target {
        MulMonotone(v.target, v.least, w.target);
      }
    }
  }

  lemma QuotientMonotone(b: nat, a: nat, t: nat, c: nat, s: nat)
    requires t > 0 && s > 0 && a * s <= c * t
    ensures b * a / t <= b * c / s
  {
    var q := b * a / t;
    AtMostQuotientIff(q, b * a, t);
    AtMostQuotientIff(q, b * c, s);
    if b > 0 {
      FractionTransitive(q, b, a, t, c, s);
    }
  }

  lemma CreditMonotone(v: Window, w: Window, baseline: nat)
    requires AtMost(v, w)
    ensures v.ReadyCredit(baseline) <= w.ReadyCredit(baseline)
  {
    CappedAtMost(v, w);
    QuotientMonotone(baseline, Min(v.least, v.target), v.target, Min(w.least, w.target), w.target);
  }

  /** A window at or above num/den covers what that fraction of the baseline covers. */
  lemma CreditCovers(w: Window, num: nat, den: nat, needed: nat, baseline: nat)
    requires w.target > 0 && den > 0 && needed <= baseline && baseline > 0
    requires needed * den <= num * baseline && num * w.target <= w.least * den
    ensures needed <= w.ReadyCredit(baseline)
  {
    if w.least >= w.target {
      AtMostQuotientIff(needed, baseline * w.target, w.target);
      MulMonotone(needed, baseline, w.target);
    } else {
      FractionTransitive(needed, baseline, num, den, w.least, w.target);
      AtMostQuotientIff(needed, baseline * w.least, w.target);
    }
  }

  // --- Replacement progress over a step ---

  ghost predicate SomeDesired(state: RolloutState) {
    exists i | 0 <= i < |state.desired| :: state.desired[i] > 0
  }

  lemma ProgressShape(state: RolloutState, target: RevisionState)
    requires state.Valid() && target.Valid(|state.config|)
    ensures var w, progress := WindowFor(state.desired, target.ready), ProgressOf(state, target);
            && progress.target == w.target && (progress.target > 0 <==> SomeDesired(state))
            && progress.least == if AllRequiredPresent(target.required, target.ready) then w.least else 0
  {
    WindowDescribes(state.desired, target.ready);
    hide WindowFor;
  }

  /** Less readiness in every role is no more progress. */
  lemma ProgressBelow(state: RolloutState, less: RevisionState, more: RevisionState)
    requires state.Valid() && less.Valid(|state.config|) && more.Valid(|state.config|) && SomeDesired(state)
    requires less.required == more.required && Below(less.ready, more.ready)
    ensures AtMost(ProgressOf(state, less), ProgressOf(state, more))
  {
    ProgressShape(state, less);
    ProgressShape(state, more);
    WindowDominates(state.desired, less.ready, more.ready);
    hide WindowFor, ProgressOf;
    if AllRequiredPresent(less.required, less.ready) {
      assert AllRequiredPresent(more.required, more.ready);
    }
  }

  lemma KeptShare(spec: nat, ready: nat, required: nat, remaining: nat)
    requires MinimumSpecToPreserveReady(spec, ready, required) <= remaining <= spec
    ensures ReadyAfter(ready, spec, remaining) >= Min(ready, required)
  {}

  /** A target reduction leaves each role its readiness, or its share of what removed roles still need. */
  lemma ReadyKept(snapshot: Snapshot, next: seq<nat>, j: nat)
    requires snapshot.Valid() && |next| == snapshot.Size() && TargetScaleDownPreservesAvailability(snapshot, next)
    requires CreditObserved(snapshot.state.target) && j < snapshot.Size()
    ensures var state, r, after :=
            snapshot.state, NeededFraction(snapshot), Applied(snapshot.state.target, next).ready[j];
            after >= state.target.ready[j] || after >= CeilingShare(state.desired[j], r.0, r.1)
  {
    hide TargetDrain, DisjointReadyFraction, CeilingShare;
    var state, target, r := snapshot.state, snapshot.state.target, NeededFraction(snapshot);
    var remaining := Min(next[j], target.spec[j]);
    var required := Min(CeilingShare(state.desired[j], r.0, r.1), target.rawReady[j]);
    var minimum := TargetScaleDownMinimum(snapshot);
    assert minimum[j] == TargetMinimum(snapshot, TargetDrain(snapshot).MinimumTargets()[j], r, j);
    assert remaining >= minimum[j];
    hide TargetScaleDownMinimum, TargetScaleDownPreservesAvailability, NeededFraction;
    KeptShare(target.spec[j], target.ready[j], required, remaining);
  }

  /** After a target reduction the target has progressed as far as before, or as far as removed roles need. */
  lemma FractionKept(snapshot: Snapshot, next: seq<nat>)
    requires snapshot.Valid() && |next| == snapshot.Size() && TargetScaleDownPreservesAvailability(snapshot, next)
    requires CreditObserved(snapshot.state.target) && RequiresDesired(snapshot.state) && SomeDesired(snapshot.state)
    ensures var state, r := snapshot.state, NeededFraction(snapshot);
            var v, w := ProgressOf(state, state.target), ProgressOf(state, Applied(state.target, next));
            AtMost(v, w) || (w.target > 0 && r.0 * w.target <= w.least * r.1)
  {
    var state, r, after := snapshot.state, NeededFraction(snapshot), Applied(snapshot.state.target, next);
    ProgressShape(state, state.target);
    ProgressShape(state, after);
    hide WindowFor, ProgressOf, NeededFraction, TargetScaleDownPreservesAvailability, CeilingShare, AllRequiredPresent;
    forall j | 0 <= j < snapshot.Size()
      ensures after.ready[j] >= state.target.ready[j] || after.ready[j] >= CeilingShare(state.desired[j], r.0, r.1)
    {
      ReadyKept(snapshot, next, j);
    }
    var v, w := ProgressOf(state, state.target), ProgressOf(state, after);
    if AllRequiredPresent(after.required, after.ready) {
      CompleteKept(state.desired, state.target.ready, after.ready, r);
      CompleteCarries(v, w, WindowFor(state.desired, state.target.ready), WindowFor(state.desired, after.ready), r);
    } else {
      if AllRequiredPresent(state.target.required, state.target.ready) {
        BrokenNeedsNothing(state.desired, after.required, state.target.ready, after.ready, r);
      }
      NothingCarries(v, w, r);
    }
  }

  lemma CompleteCarries(v: Window, w: Window, a: Window, b: Window, r: (nat, nat))
    requires v.target == a.target > 0 && w == b.(denominator := w.denominator) && b.target > 0 && v.least <= a.least
    requires a.least * b.target <= b.least * a.target || r.0 * b.target <= b.least * r.1
    ensures AtMost(v, w) || r.0 * w.target <= w.least * r.1
  {
    MulMonotone(v.least, a.least, b.target);
  }

  lemma NothingCarries(v: Window, w: Window, r: (nat, nat))
    requires v.target > 0 && w.target > 0 && w.least == 0 && (v.least == 0 || r.0 == 0)
    ensures AtMost(v, w) || r.0 * w.target <= w.least * r.1
  {}

  lemma CompleteKept(desired: seq<nat>, before: seq<nat>, after: seq<nat>, r: (nat, nat))
    requires |desired| == |before| == |after| && r.1 > 0 && WindowFor(desired, after).target > 0
    requires forall j | 0 <= j < |desired| :: after[j] >= before[j] || after[j] >= CeilingShare(desired[j], r.0, r.1)
    ensures var v, w := WindowFor(desired, before), WindowFor(desired, after);
            v.least * w.target <= w.least * v.target || r.0 * w.target <= w.least * r.1
  {
    var v, w := WindowFor(desired, before), WindowFor(desired, after);
    WindowDescribes(desired, before);
    WindowDescribes(desired, after);
    hide WindowFor, CeilingShare;
    var k :| 0 <= k < |desired| && desired[k] == w.target && after[k] == w.least;
    LeastKept(before[k], after[k], desired[k], r, v);
  }

  lemma BrokenNeedsNothing(desired: seq<nat>, required: seq<bool>, before: seq<nat>, after: seq<nat>, r: (nat, nat))
    requires |desired| == |required| == |before| == |after| && r.1 > 0
    requires forall j | 0 <= j < |desired| :: after[j] >= before[j] || after[j] >= CeilingShare(desired[j], r.0, r.1)
    requires forall j | 0 <= j < |desired| :: required[j] <==> desired[j] > 0
    requires AllRequiredPresent(required, before) && !AllRequiredPresent(required, after)
    ensures r.0 == 0
  {
    var k :| 0 <= k < |desired| && required[k] && after[k] == 0;
    hide CeilingShare;
    CeilingShareIs(desired[k], r.0, r.1);
    if r.0 > 0 {
      PositiveProduct(desired[k], r.0);
    }
  }

  lemma LeastKept(before: nat, after: nat, desired: nat, r: (nat, nat), v: Window)
    requires desired > 0 && r.1 > 0 && v.target > 0 && v.least * desired <= before * v.target
    requires after >= before || after >= CeilingShare(desired, r.0, r.1)
    ensures v.least * desired <= after * v.target || r.0 * desired <= after * r.1
  {
    if after >= before {
      MulMonotone(before, after, v.target);
    } else {
      CeilingShareIs(desired, r.0, r.1);
      MulMonotone(CeilingShare(desired, r.0, r.1), after, r.1);
    }
  }

  // --- A target reduction ---

  /** What a removed role has outside the target. */
  ghost function OldServing(state: RolloutState, i: nat): nat
    requires Removed(state, i)
  {
    SnapshotFor(state).OldReady(i).usable
  }

  /** The same counting every Ready group, whether or not its revision is complete. */
  ghost function OldReadyGroups(state: RolloutState, i: nat): nat
    requires Removed(state, i)
  {
    SnapshotFor(state).OldReady(i).perRole
  }

  lemma ServingSplits(state: RolloutState, target: RevisionState, i: nat)
    requires Removed(state, i) && target.Valid(|state.config|)
    ensures RemovedServing(state, state.activeOld, target, i) ==
            OldServing(state, i) + RoleReadinessAt(target, i).usable
  {
    hide RoleReadinessAt;
    SnapshotOverlaps(state);
    hide SnapshotFor;
  }

  lemma SnapshotOverlaps(state: RolloutState)
    requires state.Valid()
    ensures SnapshotFor(state).activeOverlaps == RolesOverlap(state.activeOld.required, state.desired)
    ensures SnapshotFor(state).progress == ProgressOf(state, state.target)
  {}

  lemma OldCredible(state: RolloutState, i: nat)
    requires Removed(state, i) && Credible(state)
    ensures SnapshotFor(state).OldReady(i).usable <= SnapshotFor(state).OldReady(i).rawUsable
  {
    ParkedCredible(state, i);
    RawAtLeastRetained(state.activeOld, i);
    hide SnapshotFor, RoleReadinessAt;
  }

  /** If the target keeps as much credit as removed roles need, they lose nothing that is not replaced. */
  lemma NeedCovered(had: nat, hadRaw: nat, t: nat, tRaw: nat, c: nat, cRaw: nat, after: nat, floor: nat)
    requires had <= hadRaw && t <= tRaw && c <= cRaw
    requires after >= Max(0, Minus(Min(hadRaw + tRaw + cRaw, floor), had))
    ensures had + after >= Min(had + t + c, floor)
  {}

  lemma CreditOf(state: RolloutState, target: RevisionState, i: nat)
    requires Removed(state, i) && target.Valid(|state.config|)
    ensures !SomeDesired(state) ==> Replaced(state, target, i) == state.baseline[i]
    ensures SomeDesired(state) ==>
            Replaced(state, target, i) == ProgressOf(state, target).ReadyCredit(state.baseline[i])
  {
    ProgressShape(state, target);
    hide ProgressOf, WindowFor;
  }

  /** Reduction, when the remaining target still covers what removed roles need. */
  lemma CoveredReduction(state: RolloutState, next: seq<nat>, i: nat)
    requires Removed(state, i) && Credible(state) && SomeDesired(state) && state.baseline[i] > 0
    requires |next| == |state.config|
    requires var w, r := ProgressOf(state, Applied(state.target, next)), NeededFraction(SnapshotFor(state));
             w.target > 0 && r.0 * w.target <= w.least * r.1
    ensures OldServing(state, i) + Replaced(state, Applied(state.target, next), i)
         >= Min(OldServing(state, i) + RoleReadinessAt(state.target, i).usable + Replaced(state, state.target, i),
                Max(0, state.baseline[i] - state.config[i].maxUnavailable))
  {
    var snapshot, after, baseline := SnapshotFor(state), Applied(state.target, next), state.baseline[i];
    var raw := state.target.(ready := state.target.rawReady);
    var v, w, x := ProgressOf(state, state.target), ProgressOf(state, after), ProgressOf(state, raw);
    assert x == TargetReadyProgress(state, state.target.rawReady);
    ProgressBelow(state, state.target, raw);
    CreditMonotone(v, x, baseline);
    OldCredible(state, i);
    RawAtLeastRetained(state.target, i);
    CreditOf(state, after, i);
    CreditOf(state, state.target, i);
    FractionCovers(snapshot, x, snapshot.Size(), i);
    var needed, r := NeededCredit(snapshot, x, i), NeededFraction(snapshot);
    hide SnapshotFor, ProgressOf, AtMost, RoleReadinessAt, DisjointReadyFraction;
    CreditCovers(w, r.0, r.1, needed, baseline);
    NeedCovered(OldServing(state, i), snapshot.OldReady(i).rawUsable,
                snapshot.TargetReady(i).usable, snapshot.TargetReady(i).rawUsable,
                v.ReadyCredit(baseline), x.ReadyCredit(baseline), w.ReadyCredit(baseline),
                Max(0, baseline - state.config[i].maxUnavailable));
  }

  lemma CompleteProgress(state: RolloutState, target: RevisionState)
    requires state.Valid() && target.Valid(|state.config|) && SomeDesired(state)
    requires forall i | 0 <= i < |state.config| :: target.required[i] <==> state.desired[i] > 0
    ensures ProgressOf(state, target).least > 0 <==> AllRequiredPresent(target.required, target.ready)
  {
    ProgressShape(state, target);
    WindowDescribes(state.desired, target.ready);
    hide WindowFor, ProgressOf;
  }

  lemma TargetBudgetForRemoved(state: RolloutState, i: nat)
    requires Removed(state, i) && Credible(state)
    ensures var budget := TargetDrain(SnapshotFor(state));
            && HonestRole(budget, i)
            && budget.roles[i].replacement == ReadyCapacity(OldServing(state, i), OldReadyGroups(state, i))
            && (state.target.spec[i] > 0 ==> budget.roles[i].floor == RemovedFloor(state, state.target, i))
  {
    ParkedCredible(state, i);
    RawAtLeastRetained(state.activeOld, i);
    RawAtLeastRetained(state.target, i);
    SnapshotOverlaps(state);
    hide RoleReadinessAt, SnapshotFor;
    var snapshot := SnapshotFor(state);
    assert TargetDrain(snapshot).roles[i] == TargetRoleBudget(snapshot, i);
  }

  /** Reduction, when the target progresses as far as before. */
  lemma SteadyReduction(state: RolloutState, next: seq<nat>, i: nat)
    requires Removed(state, i) && Credible(state) && RequiresDesired(state) && SomeDesired(state)
    requires |next| == |state.config|
    requires TargetScaleDownPreservesAvailability(SnapshotFor(state), next)
    requires AtMost(ProgressOf(state, state.target), ProgressOf(state, Applied(state.target, next)))
    ensures var after := Applied(state.target, next);
            OldServing(state, i) + RoleReadinessAt(after, i).usable
            >= Min(OldServing(state, i) + RoleReadinessAt(state.target, i).usable, RemovedFloor(state, after, i))
  {
    var snapshot, after := SnapshotFor(state), Applied(state.target, next);
    if state.target.spec[i] > 0 {
      var drains := DrainsOnly(state.target.spec, next);
      TargetDrainPreserved(snapshot, next);
      TargetBudgetForRemoved(state, i);
      TargetNeverAllowsOutage(snapshot);
      forall j | 0 <= j < |state.config| {
        ServingMatches(state, Ordinary, j);
      }
      hide SnapshotFor, TargetDrain, TargetScaleDownPreservesAvailability, RoleReadinessAt, ProgressOf, AtMost,
        OldServing, Removed;
      KeepsServing(TargetDrain(snapshot), drains, i);
      SameReadySameUsable(Applied(state.target, drains), after, i);
      SteadyFloor(state, next, i);
    } else {
      UnreducedRole(state, next, i);
    }
  }

  lemma SteadyFloor(state: RolloutState, next: seq<nat>, i: nat)
    requires Removed(state, i) && SomeDesired(state) && |next| == |state.config|
    requires AtMost(ProgressOf(state, state.target), ProgressOf(state, Applied(state.target, next)))
    ensures Replaced(state, state.target, i) <= Replaced(state, Applied(state.target, next), i)
  {
    var after := Applied(state.target, next);
    CreditOf(state, state.target, i);
    CreditOf(state, after, i);
    CreditMonotone(ProgressOf(state, state.target), ProgressOf(state, after), state.baseline[i]);
    hide ProgressOf;
  }

  lemma UnreducedRole(state: RolloutState, next: seq<nat>, i: nat)
    requires Removed(state, i) && RequiresDesired(state) && SomeDesired(state) && |next| == |state.config|
    requires state.target.spec[i] == 0
    requires AtMost(ProgressOf(state, state.target), ProgressOf(state, Applied(state.target, next)))
    ensures RoleReadinessAt(Applied(state.target, next), i).usable >= RoleReadinessAt(state.target, i).usable
  {
    var after := Applied(state.target, next);
    CompleteProgress(state, state.target);
    CompleteProgress(state, after);
    var v, w := ProgressOf(state, state.target), ProgressOf(state, after);
    hide ProgressOf;
    if v.least > 0 {
      PositiveProduct(v.least, w.target);
    }
  }

  lemma StepReplacesNoMore(state: RolloutState, next: seq<nat>, i: nat)
    requires Removed(state, i) && |next| == |state.config|
    ensures Replaced(state, Applied(state.target, next), i) <= Replaced(state, state.target, i)
  {
    var after := Applied(state.target, next);
    CreditOf(state, state.target, i);
    CreditOf(state, after, i);
    if SomeDesired(state) {
      assert Below(after.ready, state.target.ready);
      ProgressBelow(state, after, state.target);
      CreditMonotone(ProgressOf(state, after), ProgressOf(state, state.target), state.baseline[i]);
    }
  }

  /** A target reduction never takes back what removed roles have been released for. */
  lemma ReductionKeepsRemoved(state: RolloutState, next: seq<nat>, i: nat)
    requires Removed(state, i) && Credible(state) && RequiresDesired(state) && |next| == |state.config|
    requires TargetScaleDownPreservesAvailability(SnapshotFor(state), next)
    ensures var after, active := Applied(state.target, next), state.activeOld;
            RemovedServing(state, active, after, i) + Replaced(state, after, i)
            >= Min(RemovedServing(state, active, state.target, i) + Replaced(state, state.target, i),
                   Max(0, state.baseline[i] - state.config[i].maxUnavailable))
  {
    var snapshot, after := SnapshotFor(state), Applied(state.target, next);
    ServingSplits(state, state.target, i);
    ServingSplits(state, after, i);
    CreditOf(state, after, i);
    if SomeDesired(state) && state.baseline[i] > 0 {
      FractionKept(snapshot, next);
      hide SnapshotFor, ProgressOf, AtMost, TargetScaleDownPreservesAvailability, RoleReadinessAt, OldServing,
        RemovedServing, NeededFraction, Replaced;
      if AtMost(ProgressOf(state, state.target), ProgressOf(state, after)) {
        SteadyReduction(state, next, i);
        SteadyFloor(state, next, i);
      } else {
        CoveredReduction(state, next, i);
      }
    }
  }

  // --- An old drain ---

  lemma OldBudgetForRemoved(state: RolloutState, kind: StepKind, i: nat)
    requires Removed(state, i) && Credible(state) && !RolesOverlap(state.activeOld.required, state.desired)
    ensures var budget := OldDrain(FloorSnapshot(state, kind));
            && HonestRole(budget, i) && !budget.allowOutage
            && budget.roles[i].floor == Eased(RemovedFloor(state, state.target, i), kind)
            && var parked, target := SnapshotFor(state).parkedReady[i], RoleReadinessAt(state.target, i);
            budget.roles[i].replacement == ReadyCapacity(parked.usable + target.usable, parked.perRole + target.perRole)
  {
    ParkedCredible(state, i);
    RawAtLeastRetained(state.activeOld, i);
    RawAtLeastRetained(state.target, i);
    SnapshotOverlaps(state);
    hide RoleReadinessAt, SnapshotFor;
    var snapshot := FloorSnapshot(state, kind);
    assert OldDrain(snapshot).roles[i] == OldRoleBudget(snapshot, i);
  }

  /** An old drain leaves a removed role what the target has not replaced, less its unavailability budget. */
  lemma DrainKeepsRemoved(state: RolloutState, past: seq<nat>, next: seq<nat>, kind: StepKind, i: nat)
    requires Accepted(state, UpdateStep(past, next, kind)) && |past| == |next| == |state.config|
    requires Removed(state, i) && Credible(state) && Below(state.target.spec, next)
    ensures var active, target := Applied(state.activeOld, past), Applied(state.target, next);
            && RemovedServing(state, active, target, i)
               >= Min(RemovedServing(state, state.activeOld, state.target, i),
                      Eased(RemovedFloor(state, target, i), kind))
            && Replaced(state, target, i) == Replaced(state, state.target, i)
  {
    hide ValidateUpdateStep, OldDrain, SnapshotFor, ProgressOf, RoleReadinessAt, RolesOverlap;
    var active, target := Applied(state.activeOld, past), Applied(state.target, next);
    GrowthKeepsReady(state.target, next);
    SameReadySameUsable(state.target, target, i);
    SameProgress(state, state.target, target);
    if !RolesOverlap(state.activeOld.required, state.desired) {
      AcceptedOldDrain(state, UpdateStep(past, next, kind));
      OldBudgetForRemoved(state, kind, i);
      forall j | 0 <= j < |state.config| {
        ServingMatches(state, kind, j);
      }
      KeepsServing(OldDrain(FloorSnapshot(state, kind)), past, i);
    }
  }

  lemma SameProgress(state: RolloutState, a: RevisionState, b: RevisionState)
    requires state.Valid() && a.Valid(|state.config|) && b.Valid(|state.config|) && a.required == b.required
    requires a.ready == b.ready
    ensures ProgressOf(state, a) == ProgressOf(state, b)
  {}

  /**
   * No accepted step, of any kind, takes a removed role further below its floor:
   * neither by draining old groups nor by reducing the target that replaced them.
   */
  lemma AcceptedKeepsRemoved(
    state: RolloutState, past: seq<nat>, next: seq<nat>, kind: StepKind, eased: StepKind, i: nat
  )
    requires Accepted(state, UpdateStep(past, next, kind)) && |past| == |next| == |state.config|
    requires Removed(state, i) && Credible(state) && RequiresDesired(state)
    requires kind == UnavailableFallback ==> eased == UnavailableFallback
    ensures var active, target := Applied(state.activeOld, past), Applied(state.target, next);
            Shortfall(Eased(RemovedFloor(state, target, i), eased), RemovedServing(state, active, target, i))
            <= Shortfall(Eased(RemovedFloor(state, state.target, i), eased),
                         RemovedServing(state, state.activeOld, state.target, i))
  {
    hide ValidateUpdateStep, SnapshotFor, RoleReadinessAt, Replaced, TargetScaleDownPreservesAvailability;
    if Below(state.target.spec, next) {
      DrainKeepsRemoved(state, past, next, kind, i);
    } else {
      TargetKept(state, past, next, kind);
      GrowthKeepsReady(state.activeOld, past);
      SameReadySameUsable(state.activeOld, Applied(state.activeOld, past), i);
      ReductionKeepsRemoved(state, next, i);
      StepReplacesNoMore(state, next, i);
    }
  }

  // --- Every Ready group, whether or not its revision serves ---

  ghost function RemovedReady(state: RolloutState, active: RevisionState, target: RevisionState, i: nat): nat
    requires Removed(state, i) && active.Valid(|state.config|) && target.Valid(|state.config|)
  {
    SnapshotFor(state).parkedReady[i].perRole
    + (if RolesOverlap(state.activeOld.required, state.desired) then 0 else active.ready[i])
    + target.ready[i]
  }

  lemma ReadySplits(state: RolloutState, target: RevisionState, i: nat)
    requires Removed(state, i) && target.Valid(|state.config|)
    ensures RemovedReady(state, state.activeOld, target, i) == OldReadyGroups(state, i) + target.ready[i]
  {
    SnapshotOverlaps(state);
    hide SnapshotFor;
  }

  lemma {:induction false} ParkedUsableIsReady(snapshot: Snapshot, parked: seq<RevisionState>, i: nat)
    requires snapshot.Valid() && i < snapshot.Size()
    requires forall k | 0 <= k < |parked| :: parked[k].Valid(snapshot.Size())
    requires snapshot.parkedReady[i].usable <= snapshot.parkedReady[i].perRole
    ensures var ready := IncludeAllParked(snapshot, parked).parkedReady[i]; ready.usable <= ready.perRole
    decreases |parked|
  {
    if |parked| > 0 {
      ParkedUsableIsReady(snapshot, parked[..|parked| - 1], i);
    }
  }

  /** What serves is Ready. */
  lemma ServingIsReady(state: RolloutState, i: nat)
    requires Removed(state, i)
    ensures OldServing(state, i) <= OldReadyGroups(state, i)
  {
    var size, overlaps := |state.config|, RolesOverlap(state.activeOld.required, state.desired);
    var active := Snapshot(
      state, state.activeOld.spec, if overlaps then seq(size, _ => 0) else state.activeOld.spec,
      seq(size, _ => NOT_READY), overlaps, TargetReadyProgress(state, state.target.ready));
    ParkedUsableIsReady(active, state.parkedOld, i);
  }

  /** A reduction that costs no replaced capacity keeps to the target's own drain budget. */
  lemma SteadyReady(state: RolloutState, next: seq<nat>, i: nat)
    requires Removed(state, i) && Credible(state) && |next| == |state.config|
    requires TargetScaleDownPreservesAvailability(SnapshotFor(state), next)
    ensures var before, after := state.target.ready[i], Applied(state.target, next).ready[i];
            OldReadyGroups(state, i) + after >=
              Min(OldReadyGroups(state, i) + before, RemovedFloor(state, state.target, i))
  {
    if state.target.spec[i] > 0 {
      var snapshot, drains := SnapshotFor(state), DrainsOnly(state.target.spec, next);
      TargetDrainPreserved(snapshot, next);
      TargetBudgetForRemoved(state, i);
      hide SnapshotFor, TargetDrain, TargetScaleDownPreservesAvailability, OldServing, OldReadyGroups, Replaced;
      KeepsIndividual(TargetDrain(snapshot), drains, i);
    }
  }

  /** A target reduction takes back no Ready group of a removed role that is still needed. */
  lemma ReductionKeepsReady(state: RolloutState, next: seq<nat>, i: nat)
    requires Removed(state, i) && Credible(state) && RequiresDesired(state) && |next| == |state.config|
    requires TargetScaleDownPreservesAvailability(SnapshotFor(state), next)
    ensures var after, active := Applied(state.target, next), state.activeOld;
            RemovedReady(state, active, after, i) + Replaced(state, after, i)
            >= Min(RemovedReady(state, active, state.target, i) + Replaced(state, state.target, i),
                   Max(0, state.baseline[i] - state.config[i].maxUnavailable))
  {
    var after := Applied(state.target, next);
    ReadySplits(state, state.target, i);
    ReadySplits(state, after, i);
    CreditOf(state, after, i);
    if SomeDesired(state) && state.baseline[i] > 0 {
      SteadyReady(state, next, i);
      ServingIsReady(state, i);
      FractionKept(SnapshotFor(state), next);
      hide SnapshotFor, ProgressOf, AtMost, TargetScaleDownPreservesAvailability, RoleReadinessAt, OldServing,
        OldReadyGroups, RemovedReady, NeededFraction, Replaced;
      if AtMost(ProgressOf(state, state.target), ProgressOf(state, after)) {
        SteadyFloor(state, next, i);
      } else {
        CoveredReduction(state, next, i);
      }
    }
  }

  lemma DrainKeepsReady(state: RolloutState, past: seq<nat>, next: seq<nat>, kind: StepKind, i: nat)
    requires Accepted(state, UpdateStep(past, next, kind)) && |past| == |next| == |state.config|
    requires Removed(state, i) && Credible(state) && Below(state.target.spec, next)
    ensures var active, target := Applied(state.activeOld, past), Applied(state.target, next);
            && RemovedReady(state, active, target, i)
               >= Min(RemovedReady(state, state.activeOld, state.target, i),
                      Eased(RemovedFloor(state, target, i), kind))
            && Replaced(state, target, i) == Replaced(state, state.target, i)
  {
    hide ValidateUpdateStep, OldDrain, SnapshotFor, ProgressOf, RolesOverlap;
    var active, target := Applied(state.activeOld, past), Applied(state.target, next);
    GrowthKeepsReady(state.target, next);
    SameProgress(state, state.target, target);
    if !RolesOverlap(state.activeOld.required, state.desired) {
      AcceptedOldDrain(state, UpdateStep(past, next, kind));
      OldBudgetForRemoved(state, kind, i);
      KeepsIndividual(OldDrain(FloorSnapshot(state, kind)), past, i);
    }
  }

  /** No accepted step takes the Ready groups of a removed role further below its floor either. */
  lemma AcceptedKeepsRemovedReady(
    state: RolloutState, past: seq<nat>, next: seq<nat>, kind: StepKind, eased: StepKind, i: nat
  )
    requires Accepted(state, UpdateStep(past, next, kind)) && |past| == |next| == |state.config|
    requires Removed(state, i) && Credible(state) && RequiresDesired(state)
    requires kind == UnavailableFallback ==> eased == UnavailableFallback
    ensures var active, target := Applied(state.activeOld, past), Applied(state.target, next);
            Shortfall(Eased(RemovedFloor(state, target, i), eased), RemovedReady(state, active, target, i))
            <= Shortfall(Eased(RemovedFloor(state, state.target, i), eased),
                         RemovedReady(state, state.activeOld, state.target, i))
  {
    hide ValidateUpdateStep, SnapshotFor, Replaced, TargetScaleDownPreservesAvailability;
    if Below(state.target.spec, next) {
      DrainKeepsReady(state, past, next, kind, i);
    } else {
      TargetKept(state, past, next, kind);
      GrowthKeepsReady(state.activeOld, past);
      ReductionKeepsReady(state, next, i);
      StepReplacesNoMore(state, next, i);
    }
  }
}
