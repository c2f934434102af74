/**
 * The bootstrap surge step: what it may take beyond the ordinary limits, and
 * when the roles it unblocks catch up by more than one group.
 */
module Bootstrap {
  import opened Roles
  import opened CoordinationWindow
  import opened RolloutState
  import opened DrainBudget
  import opened Planner
  import opened StepValidator
  import opened Simulation
  import opened Liveness

  /** The surge ceiling a borrowing role works with: one above what is already there. */
  lemma BorrowedCeiling(snapshot: Snapshot, phase: seq<nat>, limits: seq<nat>, i: nat)
    requires snapshot.Valid() && |phase| == |limits| == snapshot.Size() && i < snapshot.Size()
    ensures var bootstrap := BootstrapSnapshot(snapshot, phase, limits);
            bootstrap.SurgeCeiling(i) ==
              if Borrows(snapshot, phase, limits, i) then Max(snapshot.SurgeCeiling(i), snapshot.oldSpec[i]) + 1
                                         else snapshot.SurgeCeiling(i)
  {
    var bootstrap := BootstrapSnapshot(snapshot, phase, limits);
    assert bootstrap.state.config[i].maxSurge ==
           snapshot.state.config[i].maxSurge +
           if Borrows(snapshot, phase, limits, i)
           then Max(1, Minus(snapshot.oldSpec[i], snapshot.SurgeCeiling(i)) + 1) else 0;
  }

  /** A hard limit never exceeds what the surge ceiling leaves, nor what is desired. */
  lemma HardLimitWithinSurge(snapshot: Snapshot, i: nat)
    requires snapshot.Valid() && i < snapshot.Size()
    ensures HardNewReplicaLimits(snapshot)[i] <=
            Max(snapshot.state.target.spec[i],
                Min(snapshot.state.desired[i], Minus(snapshot.SurgeCeiling(i), snapshot.oldSpec[i])))
  {}

  /** Renamed-role limits of a role depend on the configuration only through its own surge. */
  lemma DisjointLimitsLocal(snapshot: Snapshot, config: seq<RollingUpdateConfig>, i: nat)
    requires snapshot.Valid() && |config| == snapshot.Size() && i < snapshot.Size()
    ensures var a, b := DisjointGrowthLimits(snapshot), DisjointGrowthLimits(snapshot.WithConfig(config));
            && (a.Some? <==> b.Some?)
            && (a.Some? && config[i] == snapshot.state.config[i] ==> a.value[i] == b.value[i])
  {
    var other := snapshot.WithConfig(config);
    assert forall j | 0 <= j < snapshot.Size() :: ReleasesRole(other, j) == ReleasesRole(snapshot, j);
    ReleasedWindowLocal(snapshot, config, snapshot.Size());
  }

  lemma {:induction false} ReleasedWindowLocal(snapshot: Snapshot, config: seq<RollingUpdateConfig>, k: nat)
    requires snapshot.Valid() && |config| == snapshot.Size() && k <= snapshot.Size()
    ensures ReleasedWindow(snapshot.WithConfig(config), k) == ReleasedWindow(snapshot, k)
  {
    if k > 0 {
      ReleasedWindowLocal(snapshot, config, k - 1);
      assert ReleasesRole(snapshot.WithConfig(config), k - 1) == ReleasesRole(snapshot, k - 1);
    }
  }

  /** A role that does not borrow keeps its ordinary limit. */
  lemma NonBorrowerLimit(snapshot: Snapshot, phase: seq<nat>, limits: seq<nat>, i: nat)
    requires snapshot.Valid() && |phase| == |limits| == snapshot.Size() && i < snapshot.Size()
    requires !Borrows(snapshot, phase, limits, i)
    ensures HardNewReplicaLimits(BootstrapSnapshot(snapshot, phase, limits))[i] == HardNewReplicaLimits(snapshot)[i]
  {
    var bootstrap := BootstrapSnapshot(snapshot, phase, limits);
    assert bootstrap.state.config[i] == snapshot.state.config[i];
    LimitLocal(snapshot, bootstrap.state.config, i);
  }

  /** A role's hard limit depends on the configuration only through its own entry. */
  lemma PendingLocal(snapshot: Snapshot, config: seq<RollingUpdateConfig>, progress: Window, steps: nat, i: nat)
    requires snapshot.Valid() && |config| == snapshot.Size() && i < snapshot.Size()
    requires config[i] == snapshot.state.config[i]
    ensures PendingGrowthLimit(snapshot.WithConfig(config), i, progress, steps) ==
            PendingGrowthLimit(snapshot, i, progress, steps)
  {
    hide ProjectBudget;
    var other := snapshot.WithConfig(config);
    assert forall j | 0 <= j < snapshot.Size() :: other.Unreplaced(j) == snapshot.Unreplaced(j);
    assert other.Disjoint() == snapshot.Disjoint();
    assert other.SurgeCeiling(i) == snapshot.SurgeCeiling(i);
  }

  lemma LimitLocal(snapshot: Snapshot, config: seq<RollingUpdateConfig>, i: nat)
    requires snapshot.Valid() && |config| == snapshot.Size() && i < snapshot.Size()
    requires config[i] == snapshot.state.config[i]
    ensures HardNewReplicaLimits(snapshot.WithConfig(config))[i] == HardNewReplicaLimits(snapshot)[i]
  {
    hide DisjointGrowthLimits, StepCount, PendingGrowthLimit, WindowFor;
    var state := snapshot.state;
    DisjointLimitsLocal(snapshot, config, i);
    PendingLocal(snapshot, config, WindowFor(state.desired, state.target.ready),
                 StepCount(state.initial, state.desired), i);
  }

  /** A role with nothing issued and no room is stopped by surge, or by the one-group start of renamed roles. */
  lemma BlockedFirstGroup(snapshot: Snapshot, i: nat)
    requires snapshot.Valid() && i < snapshot.Size()
    requires snapshot.state.target.spec[i] == 0 < snapshot.state.desired[i]
    requires snapshot.state.config[i].maxSurge + snapshot.state.config[i].maxUnavailable > 0
    requires HardNewReplicaLimits(snapshot)[i] == 0
    ensures var progress := WindowFor(snapshot.state.desired, snapshot.state.target.ready);
            || snapshot.SurgeCeiling(i) <= snapshot.oldSpec[i]
            || (DisjointGrowthLimits(snapshot).Some? && progress.target > 0 && progress.least == 0)
  {
    var state := snapshot.state;
    WindowDescribes(state.desired, state.target.ready);
    StepCountCovers(state.initial, state.desired, i);
    ProjectBudgetPositive(Max(state.initial[i], state.desired[i]),
                          state.config[i].maxSurge + state.config[i].maxUnavailable,
                          StepCount(state.initial, state.desired));
    hide StepCount, ProjectBudget, DisjointGrowthLimits;
    assert HardNewReplicaLimits(snapshot)[i] ==
           HardNewReplicaLimit(snapshot, DisjointGrowthLimits(snapshot), WindowFor(state.desired, state.target.ready),
                               StepCount(state.initial, state.desired), i);
  }

  /** A borrowing role's limit is at most one group above what it has. */
  lemma BorrowerLimit(snapshot: Snapshot, i: nat)
    requires snapshot.Valid() && i < snapshot.Size()
    requires var phase, limits := PhaseTargets(snapshot), HardNewReplicaLimits(snapshot);
             Borrows(snapshot, phase, limits, i)
    ensures var bootstrap := BootstrapSnapshot(snapshot, PhaseTargets(snapshot), HardNewReplicaLimits(snapshot));
            HardNewReplicaLimits(bootstrap)[i] <= snapshot.state.target.spec[i] + 1
  {
    var phase, limits, state := PhaseTargets(snapshot), HardNewReplicaLimits(snapshot), snapshot.state;
    var bootstrap := BootstrapSnapshot(snapshot, phase, limits);
    BorrowedCeiling(snapshot, phase, limits, i);
    HardLimitWithinSurge(bootstrap, i);
    if state.target.spec[i] == 0 {
      assert state.desired[i] > 0;
      BlockedFirstGroup(snapshot, i);
      if snapshot.SurgeCeiling(i) > snapshot.oldSpec[i] {
        DisjointLimitsLocal(snapshot, bootstrap.state.config, i);
        StartedOneByOne(bootstrap, i);
      }
    }
  }

  lemma StartedOneByOne(snapshot: Snapshot, i: nat)
    requires snapshot.Valid() && i < snapshot.Size() && DisjointGrowthLimits(snapshot).Some?
    requires var progress := WindowFor(snapshot.state.desired, snapshot.state.target.ready);
             progress.target > 0 && progress.least == 0
    ensures HardNewReplicaLimits(snapshot)[i] <= Max(snapshot.state.target.spec[i], 1)
  {}

  /**
   * A bootstrap step drains nothing; a role that leaves its ordinary limit is a
   * borrower and gains exactly one group; at least one role does.
   */
  lemma BootstrapBorrowsOneSlot(plan: Plan)
    requires Prepared(plan) && !plan.Changes(plan.ordinary) && plan.BootstrapStep().Some?
    ensures var step, target := plan.BootstrapStep().value, plan.snapshot.state.target.spec;
            && step.past == plan.snapshot.state.activeOld.spec
            && Below(target, step.next)
            && (forall i | 0 <= i < plan.snapshot.Size() && step.next[i] > Min(plan.limits[i], plan.phase[i]) ::
                  Borrows(plan.snapshot, plan.phase, plan.limits, i) && step.next[i] == target[i] + 1)
            && UsesBootstrap(plan, step)
  {
    hide HardNewReplicaLimits, PhaseTargets, BoundGrowing, Borrows, BootstrapSnapshot, FurthestOldTargets, OrdinaryNext;
    BootstrapBeyondOrdinary(plan);
    var step := plan.BootstrapStep().value;
    forall i | 0 <= i < plan.snapshot.Size() && step.next[i] > Min(plan.limits[i], plan.phase[i])
      ensures Borrows(plan.snapshot, plan.phase, plan.limits, i)
      ensures step.next[i] == plan.snapshot.state.target.spec[i] + 1
    {
      BeyondLimitBorrows(plan, i);
    }
  }

  lemma BeyondLimitBorrows(plan: Plan, i: nat)
    requires Prepared(plan) && plan.BootstrapStep().Some? && i < plan.snapshot.Size()
    requires plan.BootstrapStep().value.next[i] > Min(plan.limits[i], plan.phase[i])
    ensures Borrows(plan.snapshot, plan.phase, plan.limits, i)
    ensures plan.BootstrapStep().value.next[i] == plan.snapshot.state.target.spec[i] + 1
  {
    hide HardNewReplicaLimits, PhaseTargets, BoundGrowing, Borrows, FurthestOldTargets, OrdinaryNext, BootstrapSnapshot;
    var bootstrap := BootstrapSnapshot(plan.snapshot, plan.phase, plan.limits);
    var raised := HardNewReplicaLimits(bootstrap);
    BootstrapKeepsState(plan.snapshot, plan.phase, plan.limits);
    GrownTargetsBounded(bootstrap, plan.phase, raised);
    if Borrows(plan.snapshot, plan.phase, plan.limits, i) {
      BorrowerLimit(plan.snapshot, i);
    } else {
      NonBorrowerLimit(plan.snapshot, plan.phase, plan.limits, i);
    }
  }

  lemma BootstrapKeepsState(snapshot: Snapshot, phase: seq<nat>, limits: seq<nat>)
    requires snapshot.Valid() && |phase| == |limits| == snapshot.Size()
    ensures BootstrapSnapshot(snapshot, phase, limits).state.target == snapshot.state.target
  {}

  // --- Limits with the borrowed slots ---

  /**
   * With renamed roles around, a started role advances only if the lagging readiness
   * and the drained share allow it.
   */
  ghost predicate PaceAllows(snapshot: Snapshot, i: nat)
    requires snapshot.Valid() && i < snapshot.Size()
  {
    var state, current := snapshot.state, snapshot.state.target.spec[i];
    var progress, released := WindowFor(state.desired, state.target.ready), ReleasedWindow(snapshot, snapshot.Size());
    var config, credit := state.config[i], progress.ReadyCredit(state.desired[i]);
    var batch := ProjectBudget(
      Max(state.initial[i], state.desired[i]), config.maxSurge + 1 + config.maxUnavailable,
      StepCount(state.initial, state.desired));
    && credit + batch > current
    && (DisjointGrowthLimits(snapshot).Some? ==>
          && progress.least > 0 && released.target > 0
          && (credit >= current ||
              CeilingShare(state.desired[i], released.least, released.target) + config.maxSurge >= current))
  }

  /** What a borrower may reach: one group more than it has, unless renamed roles hold it back. */
  ghost function BorrowedLimit(snapshot: Snapshot, i: nat): nat
    requires snapshot.Valid() && i < snapshot.Size()
  {
    var current := snapshot.state.target.spec[i];
    if snapshot.Disjoint() && current > 0 && !PaceAllows(snapshot, i) then current else current + 1
  }

  /** What lending to a borrower changes, and what it finds. */
  ghost predicate Lends(snapshot: Snapshot, bootstrap: Snapshot, i: nat) {
    && snapshot.Valid() && bootstrap.Valid() && i < snapshot.Size() == bootstrap.Size()
    && bootstrap == snapshot.WithConfig(bootstrap.state.config) && bootstrap.Disjoint() == snapshot.Disjoint()
    && var config, lent, current := snapshot.state.config[i], bootstrap.state.config[i], snapshot.state.target.spec[i];
    && current < snapshot.state.desired[i]
    && lent.maxUnavailable == config.maxUnavailable && lent.maxSurge >= config.maxSurge + 1
    && bootstrap.SurgeCeiling(i) == Max(snapshot.SurgeCeiling(i), snapshot.oldSpec[i]) + 1
    && (current > 0 ==>
          && lent.maxSurge == config.maxSurge + 1
          && snapshot.oldSpec[i] + current == snapshot.SurgeCeiling(i) && snapshot.state.target.ready[i] >= current)
  }

  lemma BorrowerLent(snapshot: Snapshot, i: nat)
    requires snapshot.Valid() && i < snapshot.Size()
    requires Borrows(snapshot, PhaseTargets(snapshot), HardNewReplicaLimits(snapshot), i)
    ensures Lends(snapshot, BootstrapSnapshot(snapshot, PhaseTargets(snapshot), HardNewReplicaLimits(snapshot)), i)
  {
    var phase, limits := PhaseTargets(snapshot), HardNewReplicaLimits(snapshot);
    var bootstrap := BootstrapSnapshot(snapshot, phase, limits);
    assert snapshot.state.desired[i] > snapshot.state.target.spec[i];
    hide DisjointGrowthLimits, PhaseTargets, HardNewReplicaLimits;
    BorrowedCeiling(snapshot, phase, limits, i);
    assert forall j | 0 <= j < snapshot.Size() :: bootstrap.Unreplaced(j) == snapshot.Unreplaced(j);
  }

  /** Groups a borrower may have pending, with the slot it is lent. */
  ghost function LentBatch(snapshot: Snapshot, bootstrap: Snapshot, i: nat): nat
    requires snapshot.Valid() && bootstrap.Valid() && i < snapshot.Size() == bootstrap.Size()
  {
    var state, lent := snapshot.state, bootstrap.state.config[i];
    ProjectBudget(Max(state.initial[i], state.desired[i]), lent.maxSurge + lent.maxUnavailable,
                  StepCount(state.initial, state.desired))
  }

  lemma LentBatchPositive(snapshot: Snapshot, bootstrap: Snapshot, i: nat)
    requires Lends(snapshot, bootstrap, i)
    ensures LentBatch(snapshot, bootstrap, i) >= 1
  {
    var state, lent := snapshot.state, bootstrap.state.config[i];
    StepCountCovers(state.initial, state.desired, i);
    hide StepCount, ProjectBudget;
    ProjectBudgetPositive(
      Max(state.initial[i], state.desired[i]), lent.maxSurge + lent.maxUnavailable,
      StepCount(state.initial, state.desired));
  }

  /** Surge and, where old or renamed groups remain, the pending batch leave a borrower its slot. */
  lemma BorrowerPending(snapshot: Snapshot, bootstrap: Snapshot, progress: Window, i: nat)
    requires Lends(snapshot, bootstrap, i) && progress.target > 0
    ensures var state, current := snapshot.state, snapshot.state.target.spec[i];
            var credit, pending := progress.ReadyCredit(state.desired[i]),
              PendingGrowthLimit(bootstrap, i, progress, StepCount(state.initial, state.desired));
            && (pending.0 > current <==>
                  !snapshot.Disjoint() || current == 0 || credit + LentBatch(snapshot, bootstrap, i) > current)
            && (snapshot.Disjoint() ==> pending.1 == credit)
  {
    LentBatchPositive(snapshot, bootstrap, i);
    hide ProjectBudget, StepCount;
  }

  /** What the released share leaves a borrower. */
  lemma BorrowerReleased(snapshot: Snapshot, bootstrap: Snapshot, i: nat)
    requires Lends(snapshot, bootstrap, i) && DisjointGrowthLimits(snapshot).Some?
    ensures var raised, released := DisjointGrowthLimits(bootstrap), ReleasedWindow(snapshot, snapshot.Size());
            && raised.Some? && released.target > 0 && snapshot.Disjoint()
            && raised.value[i] ==
              CeilingShare(snapshot.state.desired[i], released.least, released.target)
                + bootstrap.state.config[i].maxSurge
  {
    ReleasedWindowLocal(snapshot, bootstrap.state.config, snapshot.Size());
    assert forall j | 0 <= j < snapshot.Size() :: ReleasesRole(bootstrap, j) == ReleasesRole(snapshot, j);
    var j :| 0 <= j < snapshot.Size() && ReleasesRole(snapshot, j);
    hide ReleasedWindow, CeilingShare;
  }

  /** When a role with something left to do may grow at all. */
  lemma LimitAbove(s: Snapshot, released: Option<seq<nat>>, progress: Window, steps: nat, i: nat)
    requires s.Valid() && i < s.Size() && (released.Some? ==> |released.value| == s.Size())
    requires s.state.desired[i] > s.state.target.spec[i] && progress.target > 0
    ensures var current, pending := s.state.target.spec[i], PendingGrowthLimit(s, i, progress, steps);
            HardNewReplicaLimit(s, released, progress, steps, i) > current <==>
              && pending.0 > current
              && (released.Some? ==>
                    if progress.least > 0 then released.value[i] > current || pending.1 + 1 > current
                    else released.value[i] > current && current == 0)
  {
    hide PendingGrowthLimit;
  }

  lemma LimitAt(s: Snapshot, i: nat)
    requires s.Valid() && i < s.Size()
    ensures HardNewReplicaLimits(s)[i] == HardNewReplicaLimit(
              s, DisjointGrowthLimits(s), WindowFor(s.state.desired, s.state.target.ready),
              StepCount(s.state.initial, s.state.desired), i)
  {
    hide HardNewReplicaLimit;
  }

  lemma LentLimitAbove(snapshot: Snapshot, bootstrap: Snapshot, i: nat)
    requires Lends(snapshot, bootstrap, i)
    ensures HardNewReplicaLimits(bootstrap)[i] > snapshot.state.target.spec[i] <==>
            !(snapshot.Disjoint() && snapshot.state.target.spec[i] > 0 && !PaceAllows(snapshot, i))
  {
    var state := snapshot.state;
    var progress, steps := WindowFor(state.desired, state.target.ready), StepCount(state.initial, state.desired);
    var released := DisjointGrowthLimits(bootstrap);
    WindowDescribes(state.desired, state.target.ready);
    hide WindowFor, StepCount, DisjointGrowthLimits, HardNewReplicaLimit, ProjectBudget, PendingGrowthLimit,
      ReleasedWindow, CeilingShare, HardNewReplicaLimits;
    LimitAt(bootstrap, i);
    DisjointLimitsLocal(snapshot, bootstrap.state.config, i);
    BorrowerPending(snapshot, bootstrap, progress, i);
    if released.Some? {
      BorrowerReleased(snapshot, bootstrap, i);
    }
    LimitAbove(bootstrap, released, progress, steps, i);
  }

  /** The limit of a borrower, from the ordinary plan alone. */
  lemma BorrowedLimitIs(snapshot: Snapshot, i: nat)
    requires snapshot.Valid() && i < snapshot.Size()
    requires Borrows(snapshot, PhaseTargets(snapshot), HardNewReplicaLimits(snapshot), i)
    ensures var bootstrap := BootstrapSnapshot(snapshot, PhaseTargets(snapshot), HardNewReplicaLimits(snapshot));
            HardNewReplicaLimits(bootstrap)[i] == BorrowedLimit(snapshot, i)
  {
    hide Borrows, PhaseTargets, HardNewReplicaLimits, BootstrapSnapshot, Lends, PaceAllows;
    var bootstrap := BootstrapSnapshot(snapshot, PhaseTargets(snapshot), HardNewReplicaLimits(snapshot));
    BootstrapKeepsState(snapshot, PhaseTargets(snapshot), HardNewReplicaLimits(snapshot));
    BorrowerLimit(snapshot, i);
    BorrowerLent(snapshot, i);
    LentLimitAbove(snapshot, bootstrap, i);
  }

  /** Every role's limit with the slots lent, from the ordinary plan alone. */
  ghost function RaisedLimits(plan: Plan): (raised: seq<nat>)
    requires plan.Valid()
    ensures |raised| == plan.snapshot.Size()
  {
    seq(plan.snapshot.Size(), i requires 0 <= i < plan.snapshot.Size() =>
      if Borrows(plan.snapshot, plan.phase, plan.limits, i) then BorrowedLimit(plan.snapshot, i) else plan.limits[i])
  }

  lemma RaisedLimitsAre(plan: Plan)
    requires Prepared(plan)
    ensures HardNewReplicaLimits(BootstrapSnapshot(plan.snapshot, plan.phase, plan.limits)) == RaisedLimits(plan)
  {
    hide HardNewReplicaLimits, PhaseTargets, Borrows, BorrowedLimit, FurthestOldTargets, OrdinaryNext,
      BootstrapSnapshot;
    var raised := HardNewReplicaLimits(BootstrapSnapshot(plan.snapshot, plan.phase, plan.limits));
    forall i | 0 <= i < plan.snapshot.Size()
      ensures raised[i] == RaisedLimits(plan)[i]
    {
      if Borrows(plan.snapshot, plan.phase, plan.limits, i) {
        BorrowedLimitIs(plan.snapshot, i);
      } else {
        NonBorrowerLimit(plan.snapshot, plan.phase, plan.limits, i);
      }
    }
  }

  /** Without renamed roles lending raises exactly the borrowers' limits, each by one. */
  lemma RaisedByOne(plan: Plan, i: nat)
    requires Prepared(plan) && i < plan.snapshot.Size() && !plan.snapshot.Disjoint()
    ensures HardNewReplicaLimits(BootstrapSnapshot(plan.snapshot, plan.phase, plan.limits))[i] ==
            plan.limits[i] + if Borrows(plan.snapshot, plan.phase, plan.limits, i) then 1 else 0
  {
    hide HardNewReplicaLimits, PhaseTargets, FurthestOldTargets, OrdinaryNext, BootstrapSnapshot;
    RaisedLimitsAre(plan);
  }

  /** A role with two ordinary slots free that the lent slots bring within the window. */
  ghost predicate CatchesUp(plan: Plan, i: nat)
    requires plan.Valid() && i < plan.snapshot.Size()
  {
    var current := plan.snapshot.state.target.spec[i];
    && current + 2 <= Min(plan.limits[i], plan.phase[i])
    && WithinOneReplica(WindowFor(plan.phase, GrowthProposed(plan.phase, RaisedLimits(plan))), plan.phase[i],
                        current + 2)
  }

  /** Every role gains at most one group exactly when no role catches up. */
  lemma BootstrapRaisesOneIff(plan: Plan)
    requires Prepared(plan) && !plan.Changes(plan.ordinary) && plan.BootstrapStep().Some?
    ensures var step, target := plan.BootstrapStep().value, plan.snapshot.state.target.spec;
            (forall i | 0 <= i < plan.snapshot.Size() :: step.next[i] <= target[i] + 1) <==>
            (forall i | 0 <= i < plan.snapshot.Size() :: !CatchesUp(plan, i))
  {
    hide CatchesUp, HardNewReplicaLimits, PhaseTargets, BoundGrowing, BootstrapSnapshot, FurthestOldTargets,
      OrdinaryNext;
    forall i | 0 <= i < plan.snapshot.Size()
      ensures plan.BootstrapStep().value.next[i] >= plan.snapshot.state.target.spec[i] + 2 <==> CatchesUp(plan, i)
    {
      CatchesUpIff(plan, i);
    }
  }

  lemma CatchesUpIff(plan: Plan, i: nat)
    requires Prepared(plan) && plan.BootstrapStep().Some? && i < plan.snapshot.Size()
    ensures plan.BootstrapStep().value.next[i] >= plan.snapshot.state.target.spec[i] + 2 <==> CatchesUp(plan, i)
  {
    hide HardNewReplicaLimits, PhaseTargets, Borrows, FurthestOldTargets, OrdinaryNext, BootstrapSnapshot, WindowFor,
      MaxProgressWithin, RaisedLimits;
    var current, bootstrap :=
      plan.snapshot.state.target.spec[i], BootstrapSnapshot(plan.snapshot, plan.phase, plan.limits);
    var raised := HardNewReplicaLimits(bootstrap);
    var proposed := GrowthProposed(plan.phase, raised);
    var w := WindowFor(plan.phase, proposed);
    RaisedLimitsAre(plan);
    BootstrapKeepsState(plan.snapshot, plan.phase, plan.limits);
    WindowDescribes(plan.phase, proposed);
    if w.target > 0 {
      WithinWindowIff(w, plan.phase[i], current + 2);
    }
    if Borrows(plan.snapshot, plan.phase, plan.limits, i) {
      BorrowerLimit(plan.snapshot, i);
      BorrowerAtLimit(plan, i);
    } else {
      NonBorrowerLimit(plan.snapshot, plan.phase, plan.limits, i);
    }
  }

  lemma BorrowerAtLimit(plan: Plan, i: nat)
    requires plan.Valid() && i < plan.snapshot.Size() && Borrows(plan.snapshot, plan.phase, plan.limits, i)
    ensures plan.limits[i] == plan.snapshot.state.target.spec[i]
  {}

  /** Two roles scaled up with opposite budgets, half-way: role 0 is exactly at its ceiling. */
  ghost predicate CatchUp(r: Rollout, past: seq<nat>, next: seq<nat>) {
    && r == Rollout([3, 2], [3, 4], [RollingUpdateConfig(0, 1), RollingUpdateConfig(4, 0)])
    && past == [2, 2] && next == [1, 2]
  }

  lemma CatchUpRollout(r: Rollout, past: seq<nat>, next: seq<nat>)
    requires CatchUp(r, past, next)
    ensures r.Bounded(past, next) && r.Overlapping() && r.NotRenamed()
    ensures Budgeted(r) && ScalesUp(r) && TargetStarted(r, next)
    ensures Sum(past) == 4 && StepCount(r.initial, r.desired) == 4
  {
    assert r.initial[0] > 0 && r.desired[0] > 0;
    assert r.desired[1] > r.initial[1];
    assert [2, 2][..1] == [2] && [3, 2][..1] == [3] && [3, 4][..1] == [3];
    assert Sum([2]) == 2 && StepCount([3], [3]) == 3;
  }

  lemma CatchUpLimits(r: Rollout, past: seq<nat>, next: seq<nat>)
    requires CatchUp(r, past, next)
    ensures HardNewReplicaLimits(r.Snapshot(past, next)) == [1, 4]
  {
    hide HardNewReplicaLimits, StepCount, SnapshotFor;
    CatchUpRollout(r, past, next);
    assert ProjectBudget(3, 1, 4) == 1 && ProjectBudget(4, 4, 4) == 4;
    OrdinaryLimit(r, past, next, 0);
    OrdinaryLimit(r, past, next, 1);
  }

  /** A window over two roles, spelled out. */
  lemma TwoRoles(counts: seq<nat>, progress: seq<nat>)
    requires |counts| == |progress| == 2
    ensures WindowFor(counts, progress)
         == EMPTY_WINDOW.IncludeProgress(counts[0], progress[0]).IncludeProgress(counts[1], progress[1])
  {
    var c, p := counts[..1], progress[..1];
    assert c[0] == counts[0] && p[0] == progress[0] && c[..0] == [] && p[..0] == [];
    assert WindowFor(c, p) == EMPTY_WINDOW.IncludeProgress(c[0], p[0]);
  }

  lemma GrowingTwo(current: seq<nat>, counts: seq<nat>, proposed: seq<nat>, w: Window)
    requires |current| == |counts| == |proposed| == 2 && w == WindowFor(counts, proposed) && w.target > 0
    requires w.denominator > 0
    ensures BoundGrowing(current, counts, proposed)
         == [Max(current[0], Min(proposed[0], MaxProgressWithin(w, counts[0]))),
             Max(current[1], Min(proposed[1], MaxProgressWithin(w, counts[1])))]
  {
    hide WindowFor, MaxProgressWithin;
  }

  lemma CatchUpWindows(current: seq<nat>, counts: seq<nat>, low: seq<nat>, high: seq<nat>)
    requires current == [1, 2] && counts == [3, 4] && low == [1, 4] && high == [2, 4]
    ensures BoundGrowing(current, counts, low) == current
    ensures BoundGrowing(current, counts, high) == high
  {
    hide BoundGrowing, WindowFor, MaxProgressWithin;
    var behind, ahead := Window(1, 3, 3), Window(2, 3, 3);
    TwoRoles(counts, low);
    TwoRoles(counts, high);
    EdgeIs(behind, 3, 2);
    EdgeIs(behind, 4, 2);
    EdgeIs(ahead, 3, 3);
    EdgeIs(ahead, 4, 4);
    GrowingTwo(current, counts, low, behind);
    GrowingTwo(current, counts, high, ahead);
  }

  lemma CatchUpKeepsOld(r: Rollout, past: seq<nat>, next: seq<nat>, budget: DrainBudget)
    requires CatchUp(r, past, next) && SimulatedBudget(r, past, next, budget)
    ensures !budget.Preserves(Zeros(2))
  {
    assert SimulatedRole(r, past, next, budget.roles[1], 1);
    assert Zeros(2)[1] < budget.revision.spec[1];
    assert !budget.IndividualPreserved(Zeros(2), 1);
    assert !budget.RolePreserved(Zeros(2), 1);
  }

  lemma CatchUpShape(r: Rollout, past: seq<nat>, next: seq<nat>, minimum: seq<nat>)
    requires CatchUp(r, past, next) && MinimumShape(r, past, next, minimum)
    ensures minimum == [1, 2]
  {
    assert r.Need(past, next, 0) == 1 && r.Need(past, next, 1) == 2;
    assert minimum[0] == 1 && minimum[1] == 2;
  }

  lemma CatchUpMinimum(r: Rollout, past: seq<nat>, next: seq<nat>, budget: DrainBudget)
    requires CatchUp(r, past, next) && SimulatedBudget(r, past, next, budget)
    ensures budget.MinimumTargets() == [1, 2]
  {
    CatchUpKeepsOld(r, past, next, budget);
    SimulatedMinimumShape(r, past, next, budget);
    hide MinimumShape, SimulatedBudget, CatchUp;
    CatchUpShape(r, past, next, budget.MinimumTargets());
  }

  lemma CatchUpExcess(r: Rollout, past: seq<nat>, next: seq<nat>)
    requires CatchUp(r, past, next)
    ensures ExcessVector(r.Snapshot(past, next)) == [0, 0]
  {
    hide ExcessVector;
    CatchUpRollout(r, past, next);
    SimulatedExcess(r, past, next, 0);
    SimulatedExcess(r, past, next, 1);
  }

  lemma CatchUpDrain(r: Rollout, past: seq<nat>, next: seq<nat>)
    requires CatchUp(r, past, next)
    ensures FurthestOldTargets(r.Snapshot(past, next)) == past
  {
    hide ExcessVector, OldDrain, BoundReleasing;
    var snapshot := r.Snapshot(past, next);
    CatchUpRollout(r, past, next);
    OldDrainSimulated(r, past, next);
    CatchUpMinimum(r, past, next, OldDrain(snapshot));
    CatchUpExcess(r, past, next);
    CatchUpDrainWindow(past, r.initial, [1, 2], [0, 0]);
    assert BoundDrainingSnapshotTargets(snapshot, [1, 2]) == past;
    UnchangedCoordinated(snapshot);
  }

  lemma CatchUpDrainWindow(current: seq<nat>, initial: seq<nat>, proposed: seq<nat>, excess: seq<nat>)
    requires current == [2, 2] && initial == [3, 2] && proposed == [1, 2] && excess == [0, 0]
    ensures BoundReleasing(current, initial, proposed, excess) == current
  {
    hide BoundReleasing, WindowFor, MaxProgressWithin;
    var w := Window(0, 2, 2);
    var drained := Drained(initial, proposed);
    assert drained == [2, 0];
    TwoRoles(initial, drained);
    assert WindowFor(initial, drained) == w;
    EdgeIs(w, 3, 1);
    EdgeIs(w, 2, 1);
    ReleasingAt(current, initial, proposed, excess, 0);
    ReleasingAt(current, initial, proposed, excess, 1);
  }

  lemma CatchUpConfig(r: Rollout, past: seq<nat>, next: seq<nat>)
    requires CatchUp(r, past, next)
    ensures BootstrapAllowed(r.Snapshot(past, next), r.desired, [1, 4])
    ensures BootstrapConfig(r.Snapshot(past, next), r.desired, [1, 4]) ==
            [RollingUpdateConfig(1, 1), RollingUpdateConfig(4, 0)]
  {
    CatchUpRollout(r, past, next);
    SimulatedBorrows(r, past, next, [1, 4], 0);
    SimulatedSnapshot(r, past, next);
    OnlyFirstBorrows(r.Snapshot(past, next), r.desired, [1, 4]);
  }

  lemma OnlyFirstBorrows(snapshot: Snapshot, phase: seq<nat>, limits: seq<nat>)
    requires snapshot.Valid() && snapshot.Size() == 2 == |phase| == |limits|
    requires Borrows(snapshot, phase, limits, 0) && limits[1] != snapshot.state.target.spec[1]
    requires snapshot.state.config == [RollingUpdateConfig(0, 1), RollingUpdateConfig(4, 0)]
    requires snapshot.oldSpec[0] <= snapshot.SurgeCeiling(0)
    ensures BootstrapAllowed(snapshot, phase, limits)
    ensures BootstrapConfig(snapshot, phase, limits) == [RollingUpdateConfig(1, 1), RollingUpdateConfig(4, 0)]
  {
    assert !Borrows(snapshot, phase, limits, 1);
    hide Borrows;
  }

  lemma CatchUpRaised(r: Rollout, past: seq<nat>, next: seq<nat>)
    requires CatchUp(r, past, next)
    ensures HardNewReplicaLimits(BootstrapSnapshot(r.Snapshot(past, next), r.desired, [1, 4])) == [2, 4]
  {
    hide HardNewReplicaLimits, StepCount, BootstrapConfig, SnapshotFor;
    CatchUpRollout(r, past, next);
    CatchUpLimits(r, past, next);
    CatchUpConfig(r, past, next);
    BootstrapResurges(r, past, next);
    var bootstrap := BootstrapSnapshot(r.Snapshot(past, next), r.desired, [1, 4]);
    assert ProjectBudget(3, 2, 4) == 2 && ProjectBudget(4, 4, 4) == 4;
    SimulatedLimit(r, past, next, bootstrap, 0);
    SimulatedLimit(r, past, next, bootstrap, 1);
  }

  lemma CatchUpOrdinary(r: Rollout, past: seq<nat>, next: seq<nat>, plan: Plan)
    requires CatchUp(r, past, next) && Prepared(plan) && plan.snapshot == r.Snapshot(past, next)
    requires plan.phase == r.desired && plan.limits == [1, 4]
    ensures !plan.Changes(plan.ordinary)
    ensures plan.ordinary.past == past
  {
    hide BoundGrowing, HardNewReplicaLimits, FurthestOldTargets, PhaseTargets;
    CatchUpDrain(r, past, next);
    CatchUpWindows(next, r.desired, plan.limits, [2, 4]);
    assert GrowthProposed(r.desired, plan.limits) == plan.limits;
  }

  lemma CatchUpBootstrap(r: Rollout, past: seq<nat>, next: seq<nat>, plan: Plan)
    requires CatchUp(r, past, next) && plan.Valid() && plan.snapshot == r.Snapshot(past, next)
    requires plan.phase == r.desired && plan.limits == [1, 4] && plan.ordinary.past == past
    ensures plan.BootstrapStep() == Some(UpdateStep(past, [2, 4], BootstrapSurge))
  {
    hide BoundGrowing, HardNewReplicaLimits, BootstrapAllowed, BootstrapSnapshot;
    CatchUpConfig(r, past, next);
    CatchUpRaised(r, past, next);
    CatchUpWindows(next, r.desired, plan.limits, [2, 4]);
    BootstrapKeepsState(plan.snapshot, plan.phase, plan.limits);
    assert GrowthProposed([3, 4], [2, 4]) == [2, 4];
    assert plan.Changes(UpdateStep(past, [2, 4], BootstrapSurge)) by {
      assert [2, 4][0] != plan.snapshot.state.target.spec[0];
    }
  }

  /** Not every role gains at most one group: here role 0 borrows one slot and role 1 catches up by two. */
  lemma BootstrapMayRaiseTwo(r: Rollout, past: seq<nat>, next: seq<nat>)
    requires CatchUp(r, past, next)
    ensures r.Valid() && |past| == |next| == r.Size()
    ensures ComputeNextStep(r.State(past, next)) == Some(UpdateStep(past, [2, 4], BootstrapSurge))
    ensures next[1] + 2 == 4
  {
    hide HardNewReplicaLimits, PrepareRolloutPlan;
    var plan := PrepareRolloutPlan(r.State(past, next));
    CatchUpRollout(r, past, next);
    CatchUpLimits(r, past, next);
    SimulatedPlan(r, past, next);
    CatchUpOrdinary(r, past, next, plan);
    CatchUpBootstrap(r, past, next, plan);
  }
}
