/**
 * Rollouts whose old and new revisions share no role. Target and old revision
 * wait for each other here: the target grows with what has drained, and old
 * groups drain with what is Ready of the target. Whether such a rollout ever
 * gets going depends on its budgets alone, and once it does it finishes.
 */
module RenamedRollout {
  import opened Roles
  import opened CoordinationWindow
  import opened RolloutState
  import opened DrainBudget
  import opened Planner
  import opened ReplacementPace
  import opened StepValidator
  import opened Simulation
  import opened Liveness

  /** Both revisions have roles, and share none. */
  ghost predicate Renamed(r: Rollout) {
    r.Valid() && !r.NotRenamed()
  }

  /** Some old group may go before the target has any: all of them, or one of a role that keeps another. */
  ghost predicate OldMayStart(r: Rollout)
    requires r.Valid()
  {
    || (forall i | 0 <= i < r.Size() && r.initial[i] > 0 :: r.config[i].maxUnavailable >= r.initial[i])
    || (exists i | 0 <= i < r.Size() :: r.initial[i] > 1 && r.config[i].maxUnavailable > 0)
  }

  /** Every target role may get a first group while all old groups are there. */
  ghost predicate TargetMayStart(r: Rollout)
    requires r.Valid()
  {
    forall i | 0 <= i < r.Size() && r.desired[i] > 0 :: r.config[i].maxSurge > 0
  }

  ghost predicate MayStart(r: Rollout)
    requires r.Valid()
  {
    TargetMayStart(r) || OldMayStart(r)
  }

  // --- What the planner sees ---

  lemma RenamedSnapshot(r: Rollout, past: seq<nat>, next: seq<nat>)
    requires Renamed(r) && r.Bounded(past, next)
    ensures var s := r.Snapshot(past, next);
            && s.oldSpec == past && s.disjointSpec == past && !s.activeOverlaps
            && s.parkedReady == seq(r.Size(), _ => NOT_READY)
            && s.progress == TargetReadyProgress(s.state, next)
            && s.state.baseline == if Sum(past) == 0 then Zeros(r.Size()) else r.initial
  {
    hide Sum, WindowFor;
    var s := r.Snapshot(past, next);
    assert s.disjointSpec == past;
    if Sum(past) > 0 {
      SumBelow(past, r.initial);
      assert s.state.baseline == r.initial;
    }
  }

  /** The target's least-grown fraction. */
  ghost function Growth(r: Rollout, next: seq<nat>): Window
    requires r.Valid() && |next| == r.Size()
  {
    WindowFor(r.desired, next)
  }

  lemma CompleteGrowth(desired: seq<nat>, next: seq<nat>, w: Window)
    requires Below(next, desired) && Describes(w, desired, next) && w.target > 0 && w.least == w.target
    ensures next == desired
  {
    forall i | 0 <= i < |desired|
      ensures next[i] == desired[i]
    {
      if desired[i] > 0 {
        CancelAtMost(desired[i], next[i], w.target);
      }
    }
  }

  lemma SomeGrowth(desired: seq<nat>, next: seq<nat>, w: Window)
    requires |next| == |desired| && Describes(w, desired, next) && w.target > 0
    ensures w.least > 0 <==> forall i | 0 <= i < |desired| && desired[i] > 0 :: next[i] > 0
  {
    if w.least > 0 {
      forall i | 0 <= i < |desired| && desired[i] > 0
        ensures next[i] > 0
      {
        PositiveProduct(w.least, desired[i]);
      }
    }
  }

  lemma GrowthWindow(r: Rollout, next: seq<nat>)
    requires Renamed(r) && Below(next, r.desired)
    ensures var w := Growth(r, next);
            && w.target > 0 && w.least <= w.target && Describes(w, r.desired, next)
            && (w.least == w.target <==> next == r.desired)
            && (w.least > 0 <==> TargetStarted(r, next))
  {
    SumZero(r.desired);
    WindowDescribes(r.desired, next);
    hide WindowFor, Sum;
    var w := Growth(r, next);
    SomeGrowth(r.desired, next, w);
    if w.least == w.target {
      CompleteGrowth(r.desired, next, w);
    }
  }

  lemma RenamedProgress(r: Rollout, past: seq<nat>, next: seq<nat>)
    requires Renamed(r) && r.Bounded(past, next)
    ensures var progress, w := r.Snapshot(past, next).progress, Growth(r, next);
            progress.least == w.least && progress.target == w.target
  {
    RenamedSnapshot(r, past, next);
    GrowthWindow(r, next);
    SumZero(r.desired);
    hide WindowFor, Sum;
    var required := Positive(r.desired);
    if TargetStarted(r, next) {
      var i :| 0 <= i < r.Size() && r.desired[i] > 0;
      assert required[i];
      assert AllRequiredPresent(required, next);
    }
  }

  /** What is left of a count once the least-grown fraction of it is replaced. */
  function Outstanding(count: nat, w: Window): int {
    count - w.ReadyCredit(count)
  }

  lemma UnreplacedIs(s: Snapshot, w: Window, i: nat)
    requires s.Valid() && i < s.Size() && s.progress.target == w.target > 0 && s.progress.least == w.least
    ensures s.Unreplaced(i) == if s.state.desired[i] != 0 then 0 else Outstanding(s.state.baseline[i], w)
  {}

  lemma NothingOutstanding(w: Window)
    requires w.target > 0
    ensures Outstanding(0, w) == 0
  {}

  /** While old groups remain, old roles wait for the target exactly until it is complete. */
  lemma RenamedUnreplaced(r: Rollout, past: seq<nat>, next: seq<nat>, i: nat)
    requires Renamed(r) && r.Bounded(past, next) && i < r.Size()
    ensures var s, w := r.Snapshot(past, next), Growth(r, next);
            && w.target > 0
            && s.Unreplaced(i) == if r.initial[i] == 0 || Sum(past) == 0 then 0 else Outstanding(r.initial[i], w)
  {
    hide SnapshotFor, Sum, WindowFor, Outstanding, TargetReadyProgress;
    RenamedSnapshot(r, past, next);
    RenamedProgress(r, past, next);
    GrowthWindow(r, next);
    UnreplacedIs(r.Snapshot(past, next), Growth(r, next), i);
    NothingOutstanding(Growth(r, next));
    assert r.initial[i] > 0 ==> r.desired[i] == 0;
  }

  lemma PartLeft(count: nat, w: Window)
    requires count > 0 && w.target > 0 && w.least <= w.target
    ensures Outstanding(count, w) > 0 <==> w.least < w.target
    ensures Outstanding(count, w) >= 0
    ensures w.least == 0 ==> Outstanding(count, w) == count
  {
    AtMostQuotientIff(count, count * w.least, w.target);
    AtMostQuotientIff(count + 1, count * w.least, w.target);
    MulMonotone(w.least, w.target, count);
    if w.least < w.target {
      MulStrict(w.least, w.target, count);
    }
  }

  lemma RenamedReleases(r: Rollout, past: seq<nat>, next: seq<nat>, i: nat)
    requires Renamed(r) && r.Bounded(past, next) && i < r.Size() && Sum(past) > 0 && next != r.desired
    ensures ReleasesRole(r.Snapshot(past, next), i) <==> r.initial[i] > 0
    ensures r.initial[i] > 0 ==> r.Snapshot(past, next).Unreplaced(i) > 0
  {
    hide SnapshotFor, Sum, WindowFor, Outstanding;
    RenamedUnreplaced(r, past, next, i);
    GrowthWindow(r, next);
    var w := Growth(r, next);
    if r.initial[i] > 0 {
      PartLeft(r.initial[i], w);
    }
  }

  // --- Growth ---

  lemma ReleasedLimits(s: Snapshot, i: nat, k: nat)
    requires s.Valid() && i < s.Size() && s.state.desired[i] > 0
    requires k < s.Size() && ReleasesRole(s, k) && s.disjointSpec[k] > 0
    ensures var released := DisjointGrowthLimits(s);
            && released.Some?
            && ((exists j | 0 <= j < s.Size() :: ReleasesRole(s, j) && s.state.baseline[j] > s.disjointSpec[j])
                ==> released.value[i] >= 1)
            && (s.disjointSpec == s.state.baseline ==> released.value[i] == s.state.config[i].maxSurge)
  {
    hide ReleasesRole, CeilingShare, ReleasedWindow;
    DisjointLimitsIff(s);
    if s.disjointSpec == s.state.baseline {
      NothingReleased(s);
      var w := ReleasedWindow(s, s.Size());
      CeilingShareIs(s.state.desired[i], w.least, w.target);
    }
  }

  /** Old groups hold target growth back; before any has gone, to the surge budgets. */
  lemma RenamedReleased(r: Rollout, past: seq<nat>, next: seq<nat>, i: nat)
    requires Renamed(r) && r.Bounded(past, next) && i < r.Size() && r.desired[i] > 0
    requires Sum(past) > 0 && next != r.desired
    ensures var released := DisjointGrowthLimits(r.Snapshot(past, next));
            && released.Some?
            && (past != r.initial ==> released.value[i] >= 1)
            && (past == r.initial ==> released.value[i] == r.config[i].maxSurge)
  {
    hide SnapshotFor, WindowFor, ReleasesRole, DisjointGrowthLimits, Sum;
    var s := r.Snapshot(past, next);
    RenamedSnapshot(r, past, next);
    SumZero(past);
    var k :| 0 <= k < r.Size() && past[k] > 0;
    RenamedReleases(r, past, next, k);
    ReleasedLimits(s, i, k);
    if past != r.initial {
      var j :| 0 <= j < r.Size() && past[j] != r.initial[j];
      RenamedReleases(r, past, next, j);
      assert ReleasesRole(s, j) && s.state.baseline[j] > s.disjointSpec[j];
    }
  }

  lemma NothingReleased(s: Snapshot)
    requires s.Valid() && s.disjointSpec == s.state.baseline && DisjointGrowthLimits(s).Some?
    ensures ReleasedWindow(s, s.Size()).least == 0
  {
    ReleasedDescribes(s);
    hide ReleasedWindow, ReleasesRole, CeilingShare;
    var w := ReleasedWindow(s, s.Size());
    var k :| 0 <= k < s.Size() && ReleasedCounts(s)[k] == w.target && ReleasedDrained(s)[k] == w.least;
  }

  lemma RenamedDisjoint(r: Rollout, past: seq<nat>, next: seq<nat>)
    requires Renamed(r) && r.Bounded(past, next) && Sum(past) > 0 && next != r.desired
    ensures r.Snapshot(past, next).Disjoint()
  {
    hide SnapshotFor, Sum;
    SumZero(past);
    var i :| 0 <= i < r.Size() && past[i] > 0;
    RenamedReleases(r, past, next, i);
  }

  /** The growth limit of a role while old groups hold it back. */
  lemma HeldLimit(s: Snapshot, i: nat)
    requires s.Valid() && s.Disjoint() && DisjointGrowthLimits(s).Some? && i < s.Size()
    requires WindowFor(s.state.desired, s.state.target.ready).target > 0
    ensures var state, w, config := s.state, WindowFor(s.state.desired, s.state.target.ready), s.state.config[i];
            var released, credit := DisjointGrowthLimits(s).value[i], w.ReadyCredit(state.desired[i]);
            var batch := ProjectBudget(Max(state.initial[i], state.desired[i]), config.maxSurge + config.maxUnavailable,
                                       StepCount(state.initial, state.desired));
            var pending := Min(Minus(s.SurgeCeiling(i), s.oldSpec[i]), credit + batch);
            HardNewReplicaLimits(s)[i] == Max(state.target.spec[i], Min(state.desired[i],
              if w.least > 0 then Min(pending, Max(released, credit + 1)) else Min(Min(pending, released), 1)))
  {
    hide WindowFor, StepCount, ProjectBudget, DisjointGrowthLimits;
  }

  /** A role with no group, or as many as its Ready credit, is held back only by what has been released. */
  lemma HeldLimitAbove(s: Snapshot, i: nat)
    requires s.Valid() && s.Disjoint() && DisjointGrowthLimits(s).Some? && i < s.Size()
    requires s.state.target.spec[i] < s.state.desired[i] <= s.SurgeCeiling(i) - s.oldSpec[i]
    requires s.state.config[i].maxSurge + s.state.config[i].maxUnavailable > 0
    requires var w := WindowFor(s.state.desired, s.state.target.ready);
             && w.target > 0 && w.ReadyCredit(s.state.desired[i]) == s.state.target.spec[i]
             && (w.least > 0 || (s.state.target.spec[i] == 0 && DisjointGrowthLimits(s).value[i] > 0))
    ensures HardNewReplicaLimits(s)[i] > s.state.target.spec[i]
  {
    hide HardNewReplicaLimits, WindowFor, StepCount, ProjectBudget, DisjointGrowthLimits;
    var state, config := s.state, s.state.config[i];
    HeldLimit(s, i);
    StepCountCovers(state.initial, state.desired, i);
    ProjectBudgetPositive(Max(state.initial[i], state.desired[i]), config.maxSurge + config.maxUnavailable,
                          StepCount(state.initial, state.desired));
  }

  ghost predicate LeastGrown(r: Rollout, next: seq<nat>, m: nat)
    requires r.Valid() && |next| == r.Size() && m < r.Size()
  {
    forall i | 0 <= i < r.Size() && r.desired[i] > 0 :: next[m] * r.desired[i] <= next[i] * r.desired[m]
  }

  lemma LeastGrownCredit(r: Rollout, next: seq<nat>, m: nat)
    requires Renamed(r) && Below(next, r.desired) && m < r.Size() && r.desired[m] > 0 && LeastGrown(r, next, m)
    ensures var w := Growth(r, next);
            w.target > 0 && w.ReadyCredit(r.desired[m]) == next[m] && (w.least == 0 ==> next[m] == 0)
  {
    hide WindowFor;
    GrowthWindow(r, next);
    var w := Growth(r, next);
    var k :| 0 <= k < r.Size() && r.desired[k] == w.target && next[k] == w.least;
    assert next[m] * w.target == w.least * r.desired[m];
    ExactCredit(w, r.desired[m], next[m]);
    if w.least == 0 && next[m] > 0 {
      PositiveProduct(next[m], w.target);
    }
  }

  /** A least-grown role is held back only before the first groups of all roles, by its surge budget. */
  lemma LeastGrownLimit(r: Rollout, past: seq<nat>, next: seq<nat>, m: nat)
    requires Renamed(r) && r.Bounded(past, next) && Budgeted(r) && Sum(past) > 0
    requires m < r.Size() && next[m] < r.desired[m] && LeastGrown(r, next, m)
    requires TargetStarted(r, next) || past != r.initial || r.config[m].maxSurge > 0
    ensures HardNewReplicaLimits(r.Snapshot(past, next))[m] > next[m]
  {
    hide HardNewReplicaLimits, DisjointGrowthLimits, SnapshotFor, WindowFor, Sum, LeastGrown;
    var s := r.Snapshot(past, next);
    RenamedSnapshot(r, past, next);
    GrowthWindow(r, next);
    RenamedDisjoint(r, past, next);
    RenamedReleased(r, past, next, m);
    LeastGrownCredit(r, next, m);
    assert s.SurgeCeiling(m) == r.desired[m] + r.config[m].maxSurge;
    HeldLimitAbove(s, m);
  }

  lemma ExactCredit(w: Window, replicas: nat, q: nat)
    requires w.target > 0 && w.least <= w.target && q * w.target == w.least * replicas
    ensures w.ReadyCredit(replicas) == q
  {
    AtMostQuotientIff(q, replicas * w.least, w.target);
    AtMostQuotientIff(q + 1, replicas * w.least, w.target);
    assert (q + 1) * w.target == q * w.target + w.target;
  }

  lemma RenamedLimitsBetween(r: Rollout, past: seq<nat>, next: seq<nat>)
    requires Renamed(r) && r.Bounded(past, next)
    ensures var limits := HardNewReplicaLimits(r.Snapshot(past, next));
            && GrowthProposal(next, r.desired, limits)
            && GrowthProposed(r.desired, limits) == limits
            && PhaseTargets(r.Snapshot(past, next)) == r.desired
  {
    hide WindowFor, DisjointGrowthLimits, StepCount, PendingGrowthLimit, SnapshotFor, Sum;
    RenamedSnapshot(r, past, next);
    var s := r.Snapshot(past, next);
    assert forall i | 0 <= i < r.Size() :: PhaseTarget(s, i) == r.desired[i];
    forall i | 0 <= i < r.Size()
      ensures next[i] <= HardNewReplicaLimits(s)[i] <= r.desired[i]
    {}
  }

  /** Once old groups have begun to go, or every target role may start without, the target grows. */
  lemma RenamedGrows(r: Rollout, past: seq<nat>, next: seq<nat>)
    requires Renamed(r) && r.Bounded(past, next) && Budgeted(r) && next != r.desired
    requires Sum(past) == 0 || TargetStarted(r, next) || past != r.initial || TargetMayStart(r)
    ensures !GrowthStuck(next, r.desired, HardNewReplicaLimits(r.Snapshot(past, next)))
  {
    hide HardNewReplicaLimits, SnapshotFor, BoundGrowing, Sum;
    var limits := HardNewReplicaLimits(r.Snapshot(past, next));
    if GrowthStuck(next, r.desired, limits) {
      var m := StuckGrowthBlocked(next, r.desired, limits);
      if Sum(past) == 0 {
        UnheldLimit(r, past, next, m);
      } else {
        LeastGrownLimit(r, past, next, m);
      }
    }
  }

  lemma Unheld(r: Rollout, past: seq<nat>, next: seq<nat>)
    requires Renamed(r) && r.Bounded(past, next) && Sum(past) == 0
    ensures !r.Snapshot(past, next).Disjoint() && DisjointGrowthLimits(r.Snapshot(past, next)) == None
  {
    hide SnapshotFor, Sum, WindowFor, ReleasedWindow, Outstanding;
    var s := r.Snapshot(past, next);
    forall j | 0 <= j < r.Size()
      ensures s.Unreplaced(j) == 0 && !ReleasesRole(s, j)
    {
      RenamedUnreplaced(r, past, next, j);
    }
  }

  /** Without old groups nothing holds the target back. */
  lemma UnheldLimit(r: Rollout, past: seq<nat>, next: seq<nat>, i: nat)
    requires Renamed(r) && r.Bounded(past, next) && Sum(past) == 0 && i < r.Size() && r.desired[i] > 0
    ensures HardNewReplicaLimits(r.Snapshot(past, next))[i] == r.desired[i]
  {
    hide HardNewReplicaLimits, SnapshotFor, Sum, WindowFor, StepCount, ProjectBudget;
    var s := r.Snapshot(past, next);
    RenamedSnapshot(r, past, next);
    Unheld(r, past, next);
    SumZero(past);
    UnreleasedLimit(s, i);
    assert s.SurgeCeiling(i) == r.desired[i] + r.config[i].maxSurge;
  }

  // --- Draining ---

  ghost predicate RenamedRole(r: Rollout, past: seq<nat>, next: seq<nat>, role: RoleBudget, i: nat)
    requires r.Valid() && |past| == |next| == r.Size() && i < r.Size()
  {
    var serving, target := if OldComplete(r, past) then past[i] else 0, if TargetStarted(r, next) then next[i] else 0;
    && role.serving == serving && !role.excluded
    && role.observed == ReadyCapacity(serving + target, past[i] + next[i])
    && role.replacement == ReadyCapacity(target, next[i])
  }

  /** The old-side budget of a fully Ready state: no role is excluded, and no outage permitted. */
  ghost predicate RenamedBudget(r: Rollout, past: seq<nat>, next: seq<nat>, budget: DrainBudget) {
    && r.Bounded(past, next) && !r.Overlapping()
    && budget.Valid() && budget.Size() == r.Size() && !budget.allowOutage
    && budget.revision == RevisionState(Positive(r.initial), past, past, past)
    && forall i | 0 <= i < r.Size() :: RenamedRole(r, past, next, budget.roles[i], i)
  }

  lemma UnparkedBudget(s: Snapshot, i: nat)
    requires s.Valid() && i < s.Size() && s.parkedReady[i] == NOT_READY && !s.activeOverlaps
    ensures var role, active, target := OldRoleBudget(s, i), s.ActiveReady(i), s.TargetReady(i);
            && role.serving == active.usable && !role.excluded
            && role.observed ==
              ReadyCapacity(active.rawUsable + target.rawUsable, active.rawPerRole + target.rawPerRole)
            && role.replacement == ReadyCapacity(target.usable, target.perRole)
  {
    hide RoleReadinessAt;
  }

  lemma ReadyRole(required: seq<bool>, counts: seq<nat>, i: nat)
    requires |required| == |counts| && i < |counts|
    ensures var serving := if AllRequiredPresent(required, counts) then counts[i] else 0;
            RoleReadinessAt(RevisionState(required, counts, counts, counts), i) ==
            RoleReadiness(serving, serving, counts[i], counts[i])
  {}

  lemma RenamedRoleBudget(r: Rollout, past: seq<nat>, next: seq<nat>, i: nat)
    requires Renamed(r) && r.Bounded(past, next) && i < r.Size()
    ensures RenamedRole(r, past, next, OldRoleBudget(r.Snapshot(past, next), i), i)
  {
    hide SnapshotFor, Sum, TargetReadyProgress, TargetStarted, AllRequiredPresent, OldRoleBudget, RoleReadinessAt;
    RenamedSnapshot(r, past, next);
    StartedIsPresent(r, next);
    UnparkedBudget(r.Snapshot(past, next), i);
    ReadyRole(Positive(r.initial), past, i);
    ReadyRole(Positive(r.desired), next, i);
  }

  lemma RenamedDrain(r: Rollout, past: seq<nat>, next: seq<nat>)
    requires Renamed(r) && r.Bounded(past, next)
    ensures RenamedBudget(r, past, next, OldDrain(r.Snapshot(past, next)))
    ensures forall i | 0 <= i < r.Size() ::
              OldDrain(r.Snapshot(past, next)).roles[i].floor == r.Snapshot(past, next).AvailabilityFloor(i)
  {
    hide SnapshotFor, Sum, RenamedRole;
    var s := r.Snapshot(past, next);
    forall i | 0 <= i < r.Size()
      ensures RenamedRole(r, past, next, OldDrain(s).roles[i], i)
    {
      RenamedRoleBudget(r, past, next, i);
      assert OldDrain(s).roles[i] == OldRoleBudget(s, i);
    }
  }

  lemma StartedIsPresent(r: Rollout, next: seq<nat>)
    requires Renamed(r) && |next| == r.Size()
    ensures TargetStarted(r, next) <==> AllRequiredPresent(Positive(r.desired), next)
  {
    SumZero(r.desired);
    var i :| 0 <= i < r.Size() && r.desired[i] > 0;
    assert Positive(r.desired)[i];
  }

  lemma FloorlessBudget(r: Rollout, past: seq<nat>, next: seq<nat>, budget: DrainBudget)
    requires RenamedBudget(r, past, next, budget)
    requires forall i | 0 <= i < r.Size() && r.initial[i] > 0 :: budget.roles[i].floor == 0
    ensures budget.Preserves(Zeros(r.Size()))
  {
    forall i | 0 <= i < r.Size()
      ensures budget.RolePreserved(Zeros(r.Size()), i)
    {
      assert RenamedRole(r, past, next, budget.roles[i], i);
    }
  }

  /** Once old roles have no floor left, the whole old revision goes. */
  lemma FloorlessDrains(r: Rollout, past: seq<nat>, next: seq<nat>)
    requires Renamed(r) && r.Bounded(past, next)
    requires forall i | 0 <= i < r.Size() && r.initial[i] > 0 :: r.Snapshot(past, next).AvailabilityFloor(i) == 0
    ensures FurthestOldTargets(r.Snapshot(past, next)) == Zeros(r.Size())
  {
    hide SnapshotFor, Sum, FurthestOldTargets, RenamedRole, OldDrain;
    RenamedDrain(r, past, next);
    FloorlessBudget(r, past, next, OldDrain(r.Snapshot(past, next)));
    WholeRevisionGoes(r.Snapshot(past, next));
  }

  lemma CompleteTargetReleasesOld(r: Rollout, past: seq<nat>)
    requires Renamed(r) && r.Bounded(past, r.desired)
    ensures FurthestOldTargets(r.Snapshot(past, r.desired)) == Zeros(r.Size())
  {
    hide SnapshotFor, Sum, WindowFor, FurthestOldTargets, Outstanding;
    GrowthWindow(r, r.desired);
    var s, w := r.Snapshot(past, r.desired), Growth(r, r.desired);
    forall i | 0 <= i < r.Size() && r.initial[i] > 0
      ensures s.AvailabilityFloor(i) == 0
    {
      RenamedUnreplaced(r, past, r.desired, i);
      PartLeft(r.initial[i], w);
    }
    FloorlessDrains(r, past, r.desired);
  }

  // --- The first old group ---

  /** What has to stay of an old role before the target has started. */
  function StartFloor(r: Rollout, i: nat): nat
    requires r.Valid() && i < r.Size()
  {
    Max(0, r.initial[i] - r.config[i].maxUnavailable)
  }

  lemma StartFloors(r: Rollout, next: seq<nat>, i: nat)
    requires Renamed(r) && r.Bounded(r.initial, next) && !TargetStarted(r, next) && i < r.Size() && r.initial[i] > 0
    ensures r.Snapshot(r.initial, next).AvailabilityFloor(i) == StartFloor(r, i)
  {
    hide SnapshotFor, Sum, WindowFor, Outstanding;
    GrowthWindow(r, next);
    RenamedUnreplaced(r, r.initial, next, i);
    PartLeft(r.initial[i], Growth(r, next));
    SumZero(r.initial);
  }

  /** The old-side budget at the start: its floors are those of a target without credit. */
  ghost predicate StartBudget(r: Rollout, next: seq<nat>, budget: DrainBudget) {
    && RenamedBudget(r, r.initial, next, budget) && OldComplete(r, r.initial)
    && (forall i | 0 <= i < r.Size() && r.initial[i] > 0 :: budget.roles[i].floor == StartFloor(r, i))
    && exists i | 0 <= i < r.Size() && r.initial[i] > 0 :: StartFloor(r, i) > 0
  }

  lemma StartMinimum(r: Rollout, next: seq<nat>, budget: DrainBudget, i: nat)
    requires StartBudget(r, next, budget) && i < r.Size()
    ensures budget.ServingNeed(i) == budget.IndividualNeed(i) == if r.initial[i] > 0 then StartFloor(r, i) else 0
  {
    assert RenamedRole(r, r.initial, next, budget.roles[i], i);
  }

  /** Every role keeps its floor, and its last group, for some role has to go on serving. */
  lemma StartMinimumTargets(r: Rollout, next: seq<nat>, budget: DrainBudget)
    requires StartBudget(r, next, budget)
    ensures !budget.Preserves(Zeros(r.Size()))
    ensures forall i | 0 <= i < r.Size() ::
              budget.MinimumTargets()[i] == if r.initial[i] > 0 then Max(1, StartFloor(r, i)) else 0
  {
    var k :| 0 <= k < r.Size() && r.initial[k] > 0 && StartFloor(r, k) > 0;
    StartMinimum(r, next, budget, k);
    assert budget.MustServe();
    assert RenamedRole(r, r.initial, next, budget.roles[k], k);
    assert !budget.RolePreserved(Zeros(r.Size()), k);
    forall i | 0 <= i < r.Size()
      ensures budget.MinimumTarget(i) == if r.initial[i] > 0 then Max(1, StartFloor(r, i)) else 0
    {
      StartMinimum(r, next, budget, i);
      assert RenamedRole(r, r.initial, next, budget.roles[i], i);
    }
  }

  lemma StartMinimumPreserves(r: Rollout, next: seq<nat>, budget: DrainBudget)
    requires StartBudget(r, next, budget)
    ensures budget.Preserves(budget.MinimumTargets())
  {
    StartMinimumTargets(r, next, budget);
    var minimum := budget.MinimumTargets();
    forall i | 0 <= i < r.Size()
      ensures budget.ReadyLeft(minimum, i) == minimum[i]
    {
      assert RenamedRole(r, r.initial, next, budget.roles[i], i);
    }
    assert AllRequiredPresent(budget.revision.required, minimum);
    forall i | 0 <= i < r.Size()
      ensures budget.RolePreserved(minimum, i)
    {
      assert RenamedRole(r, r.initial, next, budget.roles[i], i);
    }
  }

  lemma StartBudgetIs(r: Rollout, next: seq<nat>)
    requires Renamed(r) && r.Bounded(r.initial, next) && !TargetStarted(r, next)
    requires exists i | 0 <= i < r.Size() && r.initial[i] > 0 :: StartFloor(r, i) > 0
    ensures StartBudget(r, next, OldDrain(r.Snapshot(r.initial, next)))
  {
    hide SnapshotFor, Sum, RenamedRole, OldDrain;
    RenamedDrain(r, r.initial, next);
    SumZero(r.initial);
    forall i | 0 <= i < r.Size() && r.initial[i] > 0
      ensures OldDrain(r.Snapshot(r.initial, next)).roles[i].floor == StartFloor(r, i)
    {
      StartFloors(r, next, i);
    }
    var k :| 0 <= k < r.Size() && r.initial[k] > 0;
    assert Positive(r.initial)[k];
  }

  /** A role with several groups and an unavailability budget gives one up. */
  lemma StartDrains(s: Snapshot, minimum: seq<nat>, i: nat)
    requires s.Valid() && s.state.activeOld.spec == s.state.initial && |minimum| == s.Size()
    requires Below(minimum, s.state.initial) && i < s.Size() && 0 < minimum[i] < s.state.initial[i]
    ensures CoordinatedOldTargets(s, minimum)[i] < s.state.initial[i]
  {
    hide BoundReleasing, CompletedTargets, ExcessVector;
    var initial, excess := s.state.initial, ExcessVector(s);
    BoundReleasingEffective(initial, initial, minimum, excess);
    DrainRoom(initial, initial, minimum, excess, 0, 1, i);
    var windowed := BoundDrainingSnapshotTargets(s, minimum);
    CompletedIsCompletion(s, windowed);
    CompletedBetween(s, windowed);
    var completed := CompletedTargets(s, windowed);
    assert completed[i] < initial[i];
    DrainRoom(initial, initial, completed, excess, 0, 1, i);
  }

  lemma StartTargets(s: Snapshot, budget: DrainBudget)
    requires s.Valid() && budget == OldDrain(s) && budget.Preserves(budget.MinimumTargets())
    ensures FurthestOldTargets(s) == CoordinatedOldTargets(s, budget.MinimumTargets())
    ensures Below(budget.MinimumTargets(), FurthestOldTargets(s))
    ensures Below(FurthestOldTargets(s), s.state.activeOld.spec)
  {
    hide OldDrain;
    CoordinatedOldTargetsCoordinated(s, budget.MinimumTargets());
    PreservesUpwardClosed(budget, budget.MinimumTargets(), CoordinatedOldTargets(s, budget.MinimumTargets()));
  }

  lemma StartMoves(r: Rollout, s: Snapshot, minimum: seq<nat>)
    requires r.Valid() && s.Valid() && s.state.activeOld.spec == s.state.initial == r.initial && |minimum| == s.Size()
    requires forall i | 0 <= i < r.Size() :: minimum[i] == if r.initial[i] > 0 then Max(1, StartFloor(r, i)) else 0
    ensures CoordinatedOldTargets(s, minimum) != r.initial <==>
            exists i | 0 <= i < r.Size() :: r.initial[i] > 1 && r.config[i].maxUnavailable > 0
  {
    hide CoordinatedOldTargets, Coordinated;
    if i :| 0 <= i < r.Size() && r.initial[i] > 1 && r.config[i].maxUnavailable > 0 {
      StartDrains(s, minimum, i);
    } else {
      assert minimum == r.initial;
      CoordinatedOldTargetsCoordinated(s, minimum);
      CoordinatedBelow(s, CoordinatedOldTargets(s, minimum));
    }
  }

  lemma CoordinatedBelow(s: Snapshot, targets: seq<int>)
    requires s.Valid() && |targets| == s.Size() && Coordinated(s, targets)
    ensures Below(targets, s.state.activeOld.spec)
  {}

  lemma StartKeepsFloor(r: Rollout, next: seq<nat>)
    requires Renamed(r) && r.Bounded(r.initial, next) && !TargetStarted(r, next)
    requires exists i | 0 <= i < r.Size() && r.initial[i] > 0 :: StartFloor(r, i) > 0
    ensures FurthestOldTargets(r.Snapshot(r.initial, next)) != r.initial <==>
            exists i | 0 <= i < r.Size() :: r.initial[i] > 1 && r.config[i].maxUnavailable > 0
  {
    hide SnapshotFor, Sum, OldDrain, CoordinatedOldTargets, FurthestOldTargets, StartBudget, StartFloor;
    var s := r.Snapshot(r.initial, next);
    var budget := OldDrain(s);
    StartBudgetIs(r, next);
    StartMinimumTargets(r, next, budget);
    StartMinimumPreserves(r, next, budget);
    StartTargets(s, budget);
    StartMoves(r, s, budget.MinimumTargets());
  }

  /** While the target cannot start, old groups go exactly if one may. */
  lemma StartDrainsIff(r: Rollout, next: seq<nat>)
    requires Renamed(r) && r.Bounded(r.initial, next) && !TargetStarted(r, next)
    ensures FurthestOldTargets(r.Snapshot(r.initial, next)) != r.initial <==> OldMayStart(r)
  {
    hide SnapshotFor, Sum, FurthestOldTargets;
    if exists i | 0 <= i < r.Size() && r.initial[i] > 0 :: StartFloor(r, i) > 0 {
      StartKeepsFloor(r, next);
    } else {
      SumZero(r.initial);
      forall i | 0 <= i < r.Size() && r.initial[i] > 0
        ensures r.Snapshot(r.initial, next).AvailabilityFloor(i) == 0
        ensures r.config[i].maxUnavailable >= r.initial[i]
      {
        StartFloors(r, next, i);
        assert !(StartFloor(r, i) > 0);
      }
      FloorlessDrains(r, r.initial, next);
    }
  }

  // --- The theorem ---

  /** No deadlock: short of its end, a renamed rollout that may start always has an ordinary step. */
  lemma RenamedNeverStuck(r: Rollout, past: seq<nat>, next: seq<nat>)
    requires Renamed(r) && Budgeted(r) && MayStart(r)
    requires r.Bounded(past, next) && !Finished(r, past, next)
    ensures var step := ComputeNextStep(r.State(past, next)); step.Some? && step.value.kind == Ordinary
  {
    hide BoundGrowing, HardNewReplicaLimits, FurthestOldTargets, OrdinaryNext, PhaseTargets, PrepareRolloutPlan,
      SnapshotFor, Sum, OldMayStart;
    PlanPrepared(r.State(past, next));
    var plan := PrepareRolloutPlan(r.State(past, next));
    if !plan.Changes(plan.ordinary) {
      StuckOrdinaryGrowth(plan);
      RenamedLimitsBetween(r, past, next);
      if next == r.desired {
        CompleteTargetReleasesOld(r, past);
      } else {
        if past == r.initial && !TargetStarted(r, next) {
          StartDrainsIff(r, next);
        }
        RenamedGrows(r, past, next);
      }
    }
  }

  // --- Rollouts that may not start ---

  /** Every old group is there, and some target role without surge budget has no group. */
  ghost predicate HeldBack(r: Rollout, past: seq<nat>, next: seq<nat>, j: nat) {
    && Renamed(r) && r.Bounded(past, next) && past == r.initial
    && j < r.Size() && next[j] == 0 < r.desired[j] && r.config[j].maxSurge == 0
  }

  lemma NothingGranted(s: Snapshot, i: nat)
    requires s.Valid() && DisjointGrowthLimits(s).Some? && i < s.Size() && s.state.target.spec[i] == 0
    requires DisjointGrowthLimits(s).value[i] == 0
    requires var w := WindowFor(s.state.desired, s.state.target.ready); w.target > 0 && w.least == 0
    ensures HardNewReplicaLimits(s)[i] == 0
  {
    hide WindowFor, StepCount, DisjointGrowthLimits, PendingGrowthLimit;
  }

  lemma HeldAtZero(r: Rollout, past: seq<nat>, next: seq<nat>, j: nat)
    requires HeldBack(r, past, next, j)
    ensures var s := r.Snapshot(past, next); DisjointGrowthLimits(s).Some? && HardNewReplicaLimits(s)[j] == 0
    ensures Sum(past) > 0 && !TargetStarted(r, next)
  {
    hide HardNewReplicaLimits, DisjointGrowthLimits, SnapshotFor, WindowFor, Sum, StepCount, ProjectBudget;
    var s := r.Snapshot(past, next);
    SumZero(r.initial);
    RenamedReleased(r, past, next, j);
    GrowthWindow(r, next);
    NothingGranted(s, j);
  }

  lemma NothingBorrowed(r: Rollout, past: seq<nat>, next: seq<nat>, j: nat, limits: seq<nat>)
    requires HeldBack(r, past, next, j) && |limits| == r.Size()
    ensures !BootstrapAllowed(r.Snapshot(past, next), r.desired, limits)
  {
    hide HardNewReplicaLimits, DisjointGrowthLimits, SnapshotFor, Sum;
    RenamedSnapshot(r, past, next);
    HeldAtZero(r, past, next, j);
  }

  /** Without a budget to start with, no step touches the old revision or starts the role that waits for it. */
  lemma StaysHeldBack(r: Rollout, past: seq<nat>, next: seq<nat>, j: nat, step: UpdateStep)
    requires HeldBack(r, past, next, j) && !OldMayStart(r)
    requires ComputeNextStep(r.State(past, next)) == Some(step) && step.kind != UnavailableFallback
    ensures step.past == r.initial && step.next[j] == 0
  {
    hide BoundGrowing, HardNewReplicaLimits, FurthestOldTargets, PhaseTargets, PrepareRolloutPlan, SnapshotFor, Sum,
      OldMayStart, DisjointGrowthLimits, TargetScaleDownMinimum, TargetDrain;
    var state := r.State(past, next);
    PlanPrepared(state);
    var plan := PrepareRolloutPlan(state);
    RenamedLimitsBetween(r, past, next);
    HeldAtZero(r, past, next, j);
    StartDrainsIff(r, next);
    NothingBorrowed(r, past, next, j, plan.limits);
    GrownTargetsBounded(plan.snapshot, plan.phase, plan.limits);
  }
}
