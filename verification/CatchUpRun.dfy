/**
 * The rollout in which a bootstrap step raises one role by two groups, from its
 * start: two ordinary steps, and then the step in question.
 */
module CatchUpRun {
  import opened Roles
  import opened CoordinationWindow
  import opened RolloutState
  import opened DrainBudget
  import opened Planner
  import opened Simulation
  import opened Liveness
  import opened Bootstrap
  import opened RenamedRollout
  import opened WholeRollout

  // --- Old drains before the target has started ---

  function LiveFloor(r: Rollout, i: nat): nat
    requires r.Valid() && i < r.Size()
  {
    Max(0, r.desired[i] - r.config[i].maxUnavailable)
  }

  ghost predicate UnstartedRole(r: Rollout, past: seq<nat>, next: seq<nat>, role: RoleBudget, i: nat)
    requires r.Valid() && |past| == |next| == r.Size() && i < r.Size()
  {
    && role.serving == past[i] && !role.excluded && role.floor == LiveFloor(r, i)
    && role.observed == ReadyCapacity(past[i], past[i] + next[i]) && role.replacement == ReadyCapacity(0, next[i])
  }

  /** Every role is in both revisions, all old ones are there, and some target role is not. */
  ghost predicate Unstarted(r: Rollout, past: seq<nat>, next: seq<nat>) {
    && r.Bounded(past, next) && r.Size() > 0 && !TargetStarted(r, next)
    && forall i | 0 <= i < r.Size() :: past[i] > 0 && r.desired[i] > r.config[i].maxUnavailable
  }

  ghost predicate UnstartedBudget(r: Rollout, past: seq<nat>, next: seq<nat>, budget: DrainBudget) {
    && Unstarted(r, past, next) && budget.Valid() && budget.Size() == r.Size() && !budget.allowOutage
    && budget.revision == RevisionState(Positive(r.initial), past, past, past)
    && forall i | 0 <= i < r.Size() :: UnstartedRole(r, past, next, budget.roles[i], i)
  }

  lemma UnstartedShared(r: Rollout, past: seq<nat>, next: seq<nat>)
    requires Unstarted(r, past, next)
    ensures r.Overlapping() && r.NotRenamed() && OldComplete(r, past) && Sum(past) > 0
    ensures !AllRequiredPresent(Positive(r.desired), next)
  {
    assert past[0] > 0 && r.initial[0] > 0 && r.desired[0] > 0 && Positive(r.initial)[0];
    SumZero(past);
    var k :| 0 <= k < r.Size() && r.desired[k] > 0 && next[k] == 0;
    assert Positive(r.desired)[k];
  }

  lemma UnstartedRoleIs(r: Rollout, past: seq<nat>, next: seq<nat>, i: nat)
    requires Unstarted(r, past, next) && i < r.Size()
    ensures UnstartedRole(r, past, next, OldRoleBudget(r.Snapshot(past, next), i), i)
  {
    hide SnapshotFor, DisjointGrowthLimits, PhaseTargets, AllRequiredPresent, Sum;
    UnstartedShared(r, past, next);
    SimulatedSnapshot(r, past, next);
    assert r.Snapshot(past, next).parkedReady[i] == NOT_READY;
    assert r.desired[i] > 0;
  }

  lemma UnstartedDrain(r: Rollout, past: seq<nat>, next: seq<nat>)
    requires Unstarted(r, past, next)
    ensures UnstartedBudget(r, past, next, OldDrain(r.Snapshot(past, next)))
  {
    hide SnapshotFor, UnstartedRole;
    var snapshot := r.Snapshot(past, next);
    forall i | 0 <= i < r.Size()
      ensures UnstartedRole(r, past, next, OldDrain(snapshot).roles[i], i)
    {
      UnstartedRoleIs(r, past, next, i);
      assert OldDrain(snapshot).roles[i] == OldRoleBudget(snapshot, i);
    }
  }

  /** Every role keeps its floor, or what it has of it. */
  lemma UnstartedMinimum(r: Rollout, past: seq<nat>, next: seq<nat>, budget: DrainBudget)
    requires UnstartedBudget(r, past, next, budget)
    ensures forall i | 0 <= i < r.Size() :: budget.MinimumTargets()[i] == Min(past[i], LiveFloor(r, i))
  {
    forall i | 0 <= i < r.Size()
      ensures budget.ServingNeed(i) == Min(past[i], LiveFloor(r, i)) > 0
      ensures budget.IndividualNeed(i) <= Min(past[i], LiveFloor(r, i))
      ensures !budget.RolePreserved(Zeros(r.Size()), i)
    {
      assert UnstartedRole(r, past, next, budget.roles[i], i);
    }
    assert budget.ServingNeed(0) > 0 && Zeros(r.Size())[0] < budget.revision.spec[0];
    assert !budget.RolePreserved(Zeros(r.Size()), 0);
    forall i | 0 <= i < r.Size()
      ensures budget.MinimumTarget(i) == Min(past[i], LiveFloor(r, i))
    {
      assert UnstartedRole(r, past, next, budget.roles[i], i);
    }
  }

  lemma UnstartedMinimumPreserves(r: Rollout, past: seq<nat>, next: seq<nat>, budget: DrainBudget)
    requires UnstartedBudget(r, past, next, budget)
    ensures budget.Preserves(budget.MinimumTargets())
  {
    UnstartedMinimum(r, past, next, budget);
    UnstartedShared(r, past, next);
    var minimum := budget.MinimumTargets();
    forall i | 0 <= i < r.Size()
      ensures budget.ReadyLeft(minimum, i) == minimum[i] > 0
    {
      assert UnstartedRole(r, past, next, budget.roles[i], i);
    }
    assert Positive(r.initial)[0];
    assert AllRequiredPresent(budget.revision.required, minimum);
    forall i | 0 <= i < r.Size()
      ensures budget.RolePreserved(minimum, i)
    {
      assert UnstartedRole(r, past, next, budget.roles[i], i);
    }
  }

  /** A simulated step without recovery: the furthest drain and the furthest growth. */
  lemma SimulatedOrdinary(r: Rollout, past: seq<nat>, next: seq<nat>, grown: seq<nat>)
    requires r.Bounded(past, next) && r.NotRenamed() && grown != next
    requires grown == BoundGrowing(next, r.desired, HardNewReplicaLimits(r.Snapshot(past, next)))
    ensures ComputeNextStep(r.State(past, next)) ==
            Some(UpdateStep(FurthestOldTargets(r.Snapshot(past, next)), grown, Ordinary))
  {
    hide HardNewReplicaLimits, PrepareRolloutPlan, FurthestOldTargets, BoundGrowing, SnapshotFor, PhaseTargets;
    var plan := PrepareRolloutPlan(r.State(past, next));
    SimulatedPlan(r, past, next);
    LimitsBetween(r, past, next, plan.snapshot);
    assert plan.ordinary == UpdateStep(FurthestOldTargets(plan.snapshot), grown, Ordinary);
    var i :| 0 <= i < r.Size() && grown[i] != next[i];
    assert plan.ordinary.next[i] != plan.snapshot.state.target.spec[i];
  }

  // --- The rollout before its bootstrap step ---

  ghost predicate Early(r: Rollout, past: seq<nat>, next: seq<nat>) {
    && r == Rollout([3, 2], [3, 4], [RollingUpdateConfig(0, 1), RollingUpdateConfig(4, 0)])
    && ((past == [3, 2] && next == [0, 0]) || (past == [2, 2] && next == [0, 1]))
  }

  lemma EarlyRollout(r: Rollout, past: seq<nat>, next: seq<nat>)
    requires Early(r, past, next)
    ensures Unstarted(r, past, next) && r.NotRenamed() && r.Overlapping() && ScalesUp(r) && Sum(past) > 0
    ensures StepCount(r.initial, r.desired) == 4
    ensures LiveFloor(r, 0) == 2 && LiveFloor(r, 1) == 4
  {
    CatchUpRollout(r, [2, 2], [1, 2]);
    assert next[0] == 0 < r.desired[0];
    hide Sum, StepCount;
    UnstartedShared(r, past, next);
  }

  lemma EarlyLimits(r: Rollout, past: seq<nat>, next: seq<nat>)
    requires Early(r, past, next)
    ensures r.Valid() && HardNewReplicaLimits(r.Snapshot(past, next)) == [3 - past[0], 4]
  {
    hide HardNewReplicaLimits, StepCount, SnapshotFor;
    EarlyRollout(r, past, next);
    assert ProjectBudget(3, 1, 4) == 1 && ProjectBudget(4, 4, 4) == 4;
    OrdinaryLimit(r, past, next, 0);
    OrdinaryLimit(r, past, next, 1);
  }

  lemma EarlyGrowth(current: seq<nat>, counts: seq<nat>, limits: seq<nat>)
    requires counts == [3, 4]
    requires (current == [0, 0] && limits == [0, 4]) || (current == [0, 1] && limits == [1, 4])
    ensures BoundGrowing(current, counts, limits) == [limits[0], limits[0] + 1]
  {
    hide BoundGrowing, WindowFor, MaxProgressWithin;
    var w := Window(limits[0], 3, 3);
    TwoRoles(counts, limits);
    EdgeIs(w, 3, limits[0] + 1);
    EdgeIs(w, 4, limits[0] + 1);
    GrowingTwo(current, counts, limits, w);
  }

  lemma EarlyWindow(current: seq<nat>, initial: seq<nat>, proposed: seq<int>, excess: seq<nat>)
    requires initial == [3, 2] && (current == [3, 2] || current == [2, 2]) && proposed == [2, 2] && excess == [0, 0]
    ensures BoundReleasing(current, initial, proposed, excess) == proposed
  {
    hide BoundReleasing, WindowFor, MaxProgressWithin;
    var w, drained := Window(0, 2, 2), Drained(initial, proposed);
    assert drained == [1, 0];
    TwoRoles(initial, drained);
    EdgeIs(w, 3, 1);
    EdgeIs(w, 2, 1);
    ReleasingAt(current, initial, proposed, excess, 0);
    ReleasingAt(current, initial, proposed, excess, 1);
  }

  lemma EarlyExcess(r: Rollout, past: seq<nat>, next: seq<nat>)
    requires Early(r, past, next)
    ensures r.Valid() && ExcessVector(r.Snapshot(past, next)) == [0, 0]
  {
    hide ExcessVector, SnapshotFor;
    EarlyRollout(r, past, next);
    SimulatedExcess(r, past, next, 0);
    SimulatedExcess(r, past, next, 1);
  }

  lemma KeptTogether(snapshot: Snapshot, proposed: seq<int>)
    requires snapshot.Valid() && |proposed| == snapshot.Size() && forall i | 0 <= i < |proposed| :: proposed[i] > 0
    ensures CompletedTargets(snapshot, proposed) == proposed
  {}

  lemma EarlyVector(r: Rollout, past: seq<nat>, next: seq<nat>, minimum: seq<nat>)
    requires Early(r, past, next) && |minimum| == 2
    requires forall i | 0 <= i < 2 :: minimum[i] == Min(past[i], LiveFloor(r, i))
    ensures minimum == [2, 2]
  {
    assert LiveFloor(r, 0) == 2 && LiveFloor(r, 1) == 4;
    assert minimum[0] == 2 && minimum[1] == 2;
  }

  lemma EarlyMinimum(r: Rollout, past: seq<nat>, next: seq<nat>, budget: DrainBudget)
    requires Early(r, past, next) && UnstartedBudget(r, past, next, budget)
    ensures budget.MinimumTargets() == [2, 2] && budget.Preserves(budget.MinimumTargets())
  {
    assert r.Size() == 2;
    hide Early;
    UnstartedMinimum(r, past, next, budget);
    UnstartedMinimumPreserves(r, past, next, budget);
    hide UnstartedBudget, LiveFloor;
    EarlyVector(r, past, next, budget.MinimumTargets());
  }

  lemma EarlyOldTargets(r: Rollout, past: seq<nat>, next: seq<nat>)
    requires Early(r, past, next)
    ensures r.Valid() && FurthestOldTargets(r.Snapshot(past, next)) == [2, 2]
  {
    hide ExcessVector, OldDrain, CoordinatedOldTargets, SnapshotFor, FurthestOldTargets, UnstartedBudget, Unstarted,
      Sum, StepCount;
    var snapshot := r.Snapshot(past, next);
    EarlyRollout(r, past, next);
    UnstartedDrain(r, past, next);
    EarlyMinimum(r, past, next, OldDrain(snapshot));
    StartTargets(snapshot, OldDrain(snapshot));
    EarlyExcess(r, past, next);
    EarlyCoordinated(snapshot, past, [2, 2]);
  }

  lemma EarlyCoordinated(snapshot: Snapshot, past: seq<nat>, minimum: seq<int>)
    requires snapshot.Valid() && snapshot.state.activeOld.spec == past && snapshot.state.initial == [3, 2]
    requires (past == [3, 2] || past == [2, 2]) && minimum == [2, 2] && ExcessVector(snapshot) == [0, 0]
    ensures CoordinatedOldTargets(snapshot, minimum) == minimum
  {
    hide ExcessVector, BoundReleasing, CompletedTargets;
    EarlyWindow(past, snapshot.state.initial, minimum, [0, 0]);
    KeptTogether(snapshot, minimum);
  }

  // --- The run ---

  lemma EarlyStep(r: Rollout, past: seq<nat>, next: seq<nat>)
    requires Early(r, past, next)
    ensures r.Bounded(past, next)
    ensures ComputeNextStep(r.State(past, next)) == Some(UpdateStep([2, 2], [3 - past[0], 4 - past[0]], Ordinary))
  {
    hide HardNewReplicaLimits, FurthestOldTargets, BoundGrowing, SnapshotFor, ComputeNextStep;
    EarlyRollout(r, past, next);
    EarlyLimits(r, past, next);
    EarlyGrowth(next, r.desired, [3 - past[0], 4]);
    EarlyOldTargets(r, past, next);
    SimulatedOrdinary(r, past, next, [3 - past[0], 4 - past[0]]);
  }

  /** The run up to the state in question. */
  lemma EarlyRun(r: Rollout) returns (steps: seq<UpdateStep>)
    requires Early(r, [3, 2], [0, 0])
    ensures IsRun(r, steps) && |steps| == 3 && steps[2] == UpdateStep([2, 2], [1, 2], Ordinary)
  {
    hide ComputeNextStep, IsRun, Issued;
    RunStarts(r);
    steps := [Start(r)];
    EarlyStep(r, [3, 2], [0, 0]);
    var second := UpdateStep([2, 2], [0, 1], Ordinary);
    RunContinues(r, steps, [3, 2], [0, 0], second);
    steps := steps + [second];
    EarlyStep(r, [2, 2], [0, 1]);
    var third := UpdateStep([2, 2], [1, 2], Ordinary);
    RunContinues(r, steps, [2, 2], [0, 1], third);
    steps := steps + [third];
  }

  /** A run from the start of a rollout to a bootstrap step that raises role 1 by two groups. */
  lemma RunMayRaiseTwo(r: Rollout) returns (steps: seq<UpdateStep>)
    requires Early(r, [3, 2], [0, 0])
    ensures IsRun(r, steps) && |steps| == 4 && steps[3].kind == BootstrapSurge
    ensures |steps[2].next| == |steps[3].next| == 2 && steps[3].next[1] == steps[2].next[1] + 2
  {
    hide ComputeNextStep, IsRun, Issued;
    steps := EarlyRun(r);
    CatchUpRollout(r, [2, 2], [1, 2]);
    BootstrapMayRaiseTwo(r, [2, 2], [1, 2]);
    var last := UpdateStep([2, 2], [2, 4], BootstrapSurge);
    RunContinues(r, steps, [2, 2], [1, 2], last);
    steps := steps + [last];
  }
}
