/**
 * The planner drains as far as its bounds allow: its minimum targets are below
 * every drain the budget permits, and the bounds on them are monotone.
 */
module FurthestDrain {
  import opened Roles
  import opened CoordinationWindow
  import opened RolloutState
  import opened DrainBudget
  import opened Planner

  /** Readiness that a revision's own counts bear out. */
  ghost predicate Borne(budget: DrainBudget) {
    && budget.Valid()
    && forall i | 0 <= i < budget.Size() ::
         budget.roles[i].serving <= budget.revision.spec[i] && budget.revision.ready[i] <= budget.revision.spec[i]
  }

  ghost predicate Remainder(budget: DrainBudget, remaining: seq<int>) {
    && budget.Valid() && |remaining| == budget.Size()
    && Below(remaining, budget.revision.spec)
    && forall i | 0 <= i < |remaining| :: 0 <= remaining[i]
  }

  lemma IndividualNeedKept(budget: DrainBudget, remaining: seq<int>, i: nat)
    requires Borne(budget) && Remainder(budget, remaining) && i < budget.Size()
    requires budget.roles[i].excluded || budget.IndividualPreserved(remaining, i)
    ensures MinimumSpecToPreserveReady(budget.revision.spec[i], budget.revision.ready[i], budget.IndividualNeed(i)) <=
            remaining[i]
  {}

  /** A role that must serve cannot be drained below its need without ending the whole revision's service. */
  lemma ServingNeedKept(budget: DrainBudget, remaining: seq<int>, i: nat, serving: nat)
    requires Borne(budget) && Remainder(budget, remaining) && i < budget.Size()
    requires serving <= budget.ServingAfter(remaining, i) || serving == 0 || remaining[i] == budget.revision.spec[i]
    ensures MinimumSpecToPreserveReady(budget.revision.spec[i], budget.roles[i].serving, serving) <= remaining[i]
  {}

  /** If any role must serve, the remaining revision serves. */
  lemma RemainsServing(budget: DrainBudget, remaining: seq<int>, k: nat)
    requires Remainder(budget, remaining) && k < budget.Size() && budget.ServingNeed(k) > 0
    requires budget.RolePreserved(remaining, k)
    ensures AllRequiredPresent(budget.revision.required, remaining) && !budget.LosesServing(remaining)
  {}

  lemma RoleMinimum(budget: DrainBudget, remaining: seq<int>, i: nat)
    requires Borne(budget) && Remainder(budget, remaining) && i < budget.Size()
    requires forall k | 0 <= k < budget.Size() :: budget.RolePreserved(remaining, k)
    ensures budget.MinimumTarget(i) <= remaining[i]
  {
    assert budget.RolePreserved(remaining, i);
    IndividualNeedKept(budget, remaining, i);
    var serving := if budget.MustServe() && budget.revision.required[i] && budget.revision.spec[i] > 0
                   then Max(1, budget.ServingNeed(i)) else budget.ServingNeed(i);
    if serving > 0 && remaining[i] != budget.revision.spec[i] {
      var k :| 0 <= k < budget.Size() && budget.ServingNeed(k) > 0;
      RemainsServing(budget, remaining, k);
      if budget.ServingNeed(i) == 0 {
        assert budget.revision.required[i] && remaining[i] != 0 ==> budget.ReadyLeft(remaining, i) > 0;
      }
    }
    ServingNeedKept(budget, remaining, i, serving);
  }

  /** The minimum targets are below every drain that keeps the budget. */
  lemma MinimumTargetsLeast(budget: DrainBudget, remaining: seq<int>)
    requires Borne(budget) && Remainder(budget, remaining) && budget.Preserves(remaining)
    ensures Below(budget.MinimumTargets(), remaining)
  {
    if !budget.Preserves(Zeros(budget.Size())) && budget.HasReduction(remaining) {
      forall i | 0 <= i < budget.Size()
        ensures budget.MinimumTarget(i) <= remaining[i]
      {
        RoleMinimum(budget, remaining, i);
      }
    }
  }

  /** Some drain that keeps the budget goes on serving, so every required role can. */
  ghost predicate Sustained(budget: DrainBudget) {
    budget.Valid() && forall i | 0 <= i < budget.Size() && budget.revision.required[i] ::
      budget.revision.spec[i] > 0 && budget.roles[i].serving > 0
  }

  lemma ServingSustained(budget: DrainBudget, remaining: seq<int>, k: nat)
    requires Remainder(budget, remaining) && k < budget.Size() && budget.ServingAfter(remaining, k) > 0
    ensures Sustained(budget) && budget.roles[k].serving > 0
    ensures exists i | 0 <= i < budget.Size() :: budget.revision.required[i]
  {
    forall i | 0 <= i < budget.Size() && budget.revision.required[i]
      ensures budget.revision.spec[i] > 0 && budget.roles[i].serving > 0
    {
      assert remaining[i] > 0 && budget.ReadyLeft(remaining, i) > 0;
    }
  }

  lemma MinimumLeaves(budget: DrainBudget, i: nat)
    requires Borne(budget) && budget.MustServe() && Sustained(budget) && i < budget.Size()
    ensures var minimum, serving := budget.MinimumTarget(i), budget.roles[i].serving;
            var left := Max(0, Minus(serving, Minus(budget.revision.spec[i], minimum)));
            && left >= Min(serving, budget.ServingNeed(i))
            && (budget.revision.required[i] ==> minimum > 0 && left > 0)
            && (serving < budget.ServingNeed(i) ==> minimum == budget.revision.spec[i])
  {}

  /** Where some role must serve, the minimum targets leave a complete revision that does. */
  lemma MinimumServes(budget: DrainBudget, k: nat)
    requires Borne(budget) && budget.MustServe() && Sustained(budget) && !budget.Preserves(Zeros(budget.Size()))
    requires (exists i | 0 <= i < budget.Size() :: budget.revision.required[i]) && k < budget.Size()
    ensures budget.ServingAfter(budget.MinimumTargets(), k) == budget.ReadyLeft(budget.MinimumTargets(), k)
  {
    var minimum := budget.MinimumTargets();
    forall i | 0 <= i < budget.Size() && budget.revision.required[i]
      ensures minimum[i] > 0 && budget.ReadyLeft(minimum, i) > 0
    {
      MinimumLeaves(budget, i);
      assert minimum[i] == budget.MinimumTarget(i);
    }
    assert AllRequiredPresent(budget.revision.required, minimum);
  }

  lemma IndividualMinimum(budget: DrainBudget, i: nat)
    requires Borne(budget) && i < budget.Size() && !budget.roles[i].excluded && !budget.Preserves(Zeros(budget.Size()))
    ensures budget.IndividualPreserved(budget.MinimumTargets(), i)
  {
    assert budget.MinimumTargets()[i] == budget.MinimumTarget(i);
  }

  lemma ServingMinimum(budget: DrainBudget, remaining: seq<int>, i: nat)
    requires Borne(budget) && Remainder(budget, remaining) && budget.Preserves(remaining)
    requires budget.HasReduction(remaining)
    requires i < budget.Size() && !budget.roles[i].excluded && !budget.Preserves(Zeros(budget.Size()))
    ensures budget.ServingPreserved(budget.MinimumTargets(), i)
  {
    if budget.ServingNeed(i) > 0 {
      assert budget.RolePreserved(remaining, i);
      ServingSustained(budget, remaining, i);
      MinimumServes(budget, i);
      MinimumLeaves(budget, i);
      assert budget.MinimumTargets()[i] == budget.MinimumTarget(i);
    }
  }

  /** If any real drain keeps the budget, the minimum targets do. */
  lemma MinimumTargetsPreserve(budget: DrainBudget, remaining: seq<int>)
    requires Borne(budget) && Remainder(budget, remaining) && budget.Preserves(remaining)
    requires budget.HasReduction(remaining)
    ensures budget.Preserves(budget.MinimumTargets())
  {
    if !budget.Preserves(Zeros(budget.Size())) {
      forall i | 0 <= i < budget.Size()
        ensures budget.RolePreserved(budget.MinimumTargets(), i)
      {
        if !budget.roles[i].excluded {
          ServingMinimum(budget, remaining, i);
          IndividualMinimum(budget, i);
        }
      }
    }
  }

  // --- Monotone bounds ---

  /** More progress everywhere gives a window whose least fraction is no smaller. */
  lemma WindowDominates(counts: seq<nat>, less: seq<nat>, more: seq<nat>)
    requires |counts| == |less| && Below(less, more)
    ensures var v, w := WindowFor(counts, less), WindowFor(counts, more);
            && (v.target > 0 <==> w.target > 0) && v.denominator == w.denominator
            && v.least * w.target <= w.least * v.target
  {
    var v, w := WindowFor(counts, less), WindowFor(counts, more);
    WindowDescribes(counts, less);
    WindowDescribes(counts, more);
    hide WindowFor;
    if w.target > 0 {
      var k :| 0 <= k < |counts| && counts[k] == w.target && more[k] == w.least;
      MulMonotone(less[k], more[k], v.target);
    }
  }

  lemma BoundReleasingMonotone(current: seq<nat>, initial: seq<nat>, less: seq<int>, more: seq<int>, excess: seq<nat>)
    requires |current| == |initial| == |less| == |excess| && Below(less, more)
    ensures Below(BoundReleasing(current, initial, less, excess), BoundReleasing(current, initial, more, excess))
  {
    var further, nearer := Drained(initial, less), Drained(initial, more);
    WindowDominates(initial, nearer, further);
    var v, w := WindowFor(initial, nearer), WindowFor(initial, further);
    hide BoundReleasing, WindowFor, MaxProgressWithin;
    forall i | 0 <= i < |current|
      ensures BoundReleasing(current, initial, less, excess)[i] <= BoundReleasing(current, initial, more, excess)[i]
    {
      ReleasingAt(current, initial, less, excess, i);
      ReleasingAt(current, initial, more, excess, i);
      if v.target > 0 {
        EdgeMonotone(v, w, initial[i]);
      }
    }
  }

  lemma CompletedMonotone(snapshot: Snapshot, less: seq<int>, more: seq<int>)
    requires snapshot.Valid() && |less| == snapshot.Size() && Below(less, more)
    ensures Below(CompletedTargets(snapshot, less), CompletedTargets(snapshot, more))
  {}

  lemma CoordinatedMonotone(snapshot: Snapshot, less: seq<int>, more: seq<int>)
    requires snapshot.Valid() && |less| == snapshot.Size() && Below(less, more)
    ensures Below(CoordinatedOldTargets(snapshot, less), CoordinatedOldTargets(snapshot, more))
  {
    hide BoundReleasing, CompletedTargets, ExcessVector;
    var state, excess := snapshot.state, ExcessVector(snapshot);
    var a, b := BoundDrainingSnapshotTargets(snapshot, less), BoundDrainingSnapshotTargets(snapshot, more);
    BoundReleasingMonotone(state.activeOld.spec, state.initial, less, more, excess);
    CompletedMonotone(snapshot, a, b);
    BoundReleasingMonotone(
      state.activeOld.spec, state.initial, CompletedTargets(snapshot, a), CompletedTargets(snapshot, b), excess);
  }

  /** The planner's old drain is below every drain that keeps the budget, the window and completeness. */
  lemma FurthestOldTargetsLeast(snapshot: Snapshot, remaining: seq<int>)
    requires snapshot.Valid() && Borne(OldDrain(snapshot)) && |remaining| == snapshot.Size()
    requires Coordinated(snapshot, remaining) && OldDrain(snapshot).Preserves(remaining)
    ensures Below(FurthestOldTargets(snapshot), remaining)
  {
    hide OldDrain, CoordinatedOldTargets, BoundDrainingSnapshotTargets, CompletedTargets;
    var budget := OldDrain(snapshot);
    var minimum := budget.MinimumTargets();
    CoordinatedOldTargetsCoordinated(snapshot, minimum);
    if budget.HasReduction(remaining) {
      MinimumTargetsPreserve(budget, remaining);
      PreservesUpwardClosed(budget, minimum, CoordinatedOldTargets(snapshot, minimum));
      MinimumTargetsLeast(budget, remaining);
      CoordinatedMonotone(snapshot, minimum, remaining);
      CoordinatedIsFixed(snapshot, remaining);
    }
  }

  lemma CoordinatedIsFixed(snapshot: Snapshot, targets: seq<int>)
    requires snapshot.Valid() && |targets| == snapshot.Size() && Coordinated(snapshot, targets)
    ensures CoordinatedOldTargets(snapshot, targets) == targets
  {
    hide BoundDrainingSnapshotTargets, CompletedTargets;
  }
}
