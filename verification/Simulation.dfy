/**
 * A whole rollout with immediate readiness: the planner is run on its own
 * output until it has nothing left to do.
 */
module Simulation {
  import opened Roles
  import opened CoordinationWindow
  import opened RolloutState
  import opened DrainBudget
  import opened Planner

  /** What a simulated rollout starts from: old counts, target counts and budgets. */
  datatype Rollout = Rollout(initial: seq<nat>, desired: seq<nat>, config: seq<RollingUpdateConfig>) {
    predicate Valid() {
      |initial| == |desired| == |config|
    }

    function Size(): nat {
      |initial|
    }

    predicate Overlapping()
      requires Valid()
    {
      exists i | 0 <= i < Size() :: initial[i] > 0 && desired[i] > 0
    }

    /** Some role is shared by the two revisions, or one of them is empty. */
    ghost predicate NotRenamed()
      requires Valid()
    {
      Overlapping() || Sum(initial) == 0 || Sum(desired) == 0
    }

    /** Counts a run can reach: nothing above where it started or where it is going. */
    ghost predicate Bounded(past: seq<nat>, next: seq<nat>) {
      Valid() && Below(past, initial) && Below(next, desired)
    }

    function Baseline(past: seq<nat>): (baseline: seq<nat>)
      requires Valid()
      ensures |baseline| == Size()
    {
      // Once old capacity is gone, its baseline is dropped.
      if Sum(past) == 0 then Zeros(Size())
      else IncludeHistoricalBaseline(Zeros(Size()), desired, initial, initial)
    }

    /** The fully Ready state in which `past` old and `next` target replicas are issued. */
    function State(past: seq<nat>, next: seq<nat>): (state: RolloutState)
      requires Valid() && |past| == |next| == Size()
      ensures state.Valid()
    {
      RolloutState(
        RevisionState(Positive(initial), past, past, past),
        initial,
        [],
        RevisionState(Positive(desired), next, next, next),
        desired,
        seq(Size(), _ => false),
        seq(Size(), _ => false),
        Baseline(past),
        config,
        false)
    }

    function Snapshot(past: seq<nat>, next: seq<nat>): (s: Snapshot)
      requires Valid() && |past| == |next| == Size()
      ensures s.Valid() && s.Size() == Size()
    {
      SnapshotFor(State(past, next))
    }

    /** The most groups role i may have under its surge budget. */
    function Ceiling(i: nat): nat
      requires Valid() && i < Size()
    {
      Max(desired[i], initial[i]) + config[i].maxSurge
    }

    /** Old groups role i must keep for its availability floor, given the target's Ready groups. */
    function Need(past: seq<nat>, next: seq<nat>, i: nat): nat
      requires Valid() && |past| == |next| == Size() && i < Size()
    {
      if desired[i] == 0 then 0
      else Max(0, Min(past[i], Minus(Minus(desired[i], config[i].maxUnavailable), next[i])))
    }
  }

  function Positive(replicas: seq<nat>): (required: seq<bool>)
    ensures |required| == |replicas|
  {
    seq(|replicas|, i requires 0 <= i < |replicas| => replicas[i] > 0)
  }

  // --- What the planner sees in a simulated state ---

  lemma SnapshotProgress(state: RolloutState)
    requires state.Valid()
    ensures SnapshotFor(state).progress == TargetReadyProgress(state, state.target.ready)
  {}

  /** A role waits for no replacement credit unless it had a baseline and another role is replacing it. */
  lemma Replaced(s: Snapshot, i: nat)
    requires s.Valid() && i < s.Size()
    requires s.state.desired[i] != 0 || s.progress.target == 0 || s.state.baseline[i] == 0
    ensures s.Unreplaced(i) == 0
  {}

  lemma NothingDesired(state: RolloutState)
    requires state.Valid() && Sum(state.desired) == 0
    ensures TargetReadyProgress(state, state.target.ready).target == 0
  {
    SumZero(state.desired);
    WindowDescribes(state.desired, state.target.ready);
    hide WindowFor, Sum;
  }

  /** Without renamed roles nothing waits for replacement credit. */
  lemma NothingUnreplaced(r: Rollout, past: seq<nat>, next: seq<nat>, i: nat)
    requires r.Bounded(past, next) && r.NotRenamed() && i < r.Size()
    ensures r.Snapshot(past, next).Unreplaced(i) == 0
  {
    hide SnapshotFor, TargetReadyProgress, Sum;
    var state := r.State(past, next);
    SnapshotProgress(state);
    if r.desired[i] == 0 {
      if Sum(r.desired) == 0 {
        NothingDesired(state);
      } else {
        if Sum(r.initial) == 0 {
          SumBelow(past, r.initial);
        }
        assert state.baseline[i] == 0;
      }
    }
    Replaced(r.Snapshot(past, next), i);
  }

  lemma SimulatedSnapshot(r: Rollout, past: seq<nat>, next: seq<nat>)
    requires r.Bounded(past, next) && r.NotRenamed()
    ensures var snapshot := r.Snapshot(past, next);
            && snapshot.oldSpec == past
            && snapshot.parkedReady == seq(r.Size(), _ => NOT_READY)
            && snapshot.activeOverlaps == r.Overlapping()
            && (forall i | 0 <= i < r.Size() :: snapshot.Unreplaced(i) == 0)
            && DisjointGrowthLimits(snapshot) == None
            && PhaseTargets(snapshot) == r.desired
  {
    var snapshot := r.Snapshot(past, next);
    forall i | 0 <= i < r.Size()
      ensures snapshot.Unreplaced(i) == 0 && !ReleasesRole(snapshot, i)
    {
      NothingUnreplaced(r, past, next, i);
    }
    assert forall i | 0 <= i < r.Size() :: PhaseTarget(snapshot, i) == r.desired[i];
  }

  lemma {:induction false} StepCountCovers(initial: seq<nat>, desired: seq<nat>, i: nat)
    requires |initial| == |desired| && i < |initial|
    ensures initial[i] <= StepCount(initial, desired) && desired[i] <= StepCount(initial, desired)
    decreases |initial|
  {
    var n := |initial| - 1;
    if i < n {
      StepCountCovers(initial[..n], desired[..n], i);
    }
  }

  lemma ProjectBudgetPositive(count: nat, budget: nat, steps: nat)
    requires count > 0 && budget > 0 && steps > 0
    ensures ProjectBudget(count, budget, steps) >= 1
  {
    PositiveProduct(count, budget);
    AtMostQuotientIff(1, count * budget + steps - 1, steps);
  }

  /** A snapshot that differs from the simulated one at most in its surge budgets. */
  ghost predicate Resurged(r: Rollout, past: seq<nat>, next: seq<nat>, s: Snapshot)
    requires r.Bounded(past, next) && r.NotRenamed()
  {
    && |s.state.config| == r.Size()
    && s == r.Snapshot(past, next).WithConfig(s.state.config)
    && forall i | 0 <= i < r.Size() ::
         && s.state.config[i].maxUnavailable == r.config[i].maxUnavailable
         && s.state.config[i].maxSurge >= r.config[i].maxSurge
  }

  lemma ResurgedSnapshot(r: Rollout, past: seq<nat>, next: seq<nat>, s: Snapshot)
    requires r.Bounded(past, next) && r.NotRenamed() && Resurged(r, past, next, s)
    ensures s.Valid() && !s.Disjoint() && DisjointGrowthLimits(s) == None
  {
    SimulatedSnapshot(r, past, next);
    var base := r.Snapshot(past, next);
    forall i | 0 <= i < r.Size()
      ensures s.Unreplaced(i) == base.Unreplaced(i) && !ReleasesRole(s, i)
    {}
  }

  /** In a simulated state the growth limit is surge, plus the pending batch while old groups remain. */
  lemma SimulatedLimit(r: Rollout, past: seq<nat>, next: seq<nat>, s: Snapshot, i: nat)
    requires r.Bounded(past, next) && r.NotRenamed() && Resurged(r, past, next, s) && i < r.Size()
    ensures s.Valid()
    ensures var surge := Minus(Max(r.desired[i], r.initial[i]) + s.state.config[i].maxSurge, past[i]);
            var batch :=
              ProjectBudget(Max(r.initial[i], r.desired[i]), s.state.config[i].maxSurge + r.config[i].maxUnavailable,
                                       StepCount(r.initial, r.desired));
            HardNewReplicaLimits(s)[i] ==
              Max(next[i], Min(r.desired[i], if past[i] == 0 then surge else Min(surge, next[i] + batch)))
  {
    hide Resurged, HardNewReplicaLimits, StepCount, ProjectBudget, DisjointGrowthLimits;
    ResurgedSnapshot(r, past, next, s);
    ResurgedState(r, past, next, s);
    UnreleasedLimit(s, i);
  }

  /** The same with the rollout's own surge budgets. */
  lemma OrdinaryLimit(r: Rollout, past: seq<nat>, next: seq<nat>, i: nat)
    requires r.Bounded(past, next) && r.NotRenamed() && i < r.Size()
    ensures var surge, config := Minus(r.Ceiling(i), past[i]), r.config[i];
            var batch := ProjectBudget(Max(r.initial[i], r.desired[i]), config.maxSurge + config.maxUnavailable,
                                       StepCount(r.initial, r.desired));
            HardNewReplicaLimits(r.Snapshot(past, next))[i] ==
              Max(next[i], Min(r.desired[i], if past[i] == 0 then surge else Min(surge, next[i] + batch)))
  {
    hide HardNewReplicaLimits, StepCount, ProjectBudget;
    SimulatedLimit(r, past, next, r.Snapshot(past, next), i);
  }

  lemma ResurgedState(r: Rollout, past: seq<nat>, next: seq<nat>, s: Snapshot)
    requires r.Bounded(past, next) && r.NotRenamed() && Resurged(r, past, next, s)
    ensures s.oldSpec == past && |s.state.config| == r.Size()
    ensures s.state.desired == r.desired && s.state.initial == r.initial && !s.state.scaleDownDuringRollout
    ensures s.state.target.spec == next && s.state.target.ready == next
    ensures forall i | 0 <= i < r.Size() :: s.state.config[i].maxUnavailable == r.config[i].maxUnavailable
  {
    SimulatedSnapshot(r, past, next);
    hide DisjointGrowthLimits, PhaseTargets;
  }

  /** Without renamed roles only surge and the pending batch hold a role back. */
  lemma UnreleasedLimit(s: Snapshot, i: nat)
    requires s.Valid() && !s.Disjoint() && DisjointGrowthLimits(s) == None && i < s.Size()
    ensures var state, surge := s.state, Minus(s.SurgeCeiling(i), s.oldSpec[i]);
            var config, replicas := state.config[i], Max(state.initial[i], state.desired[i]);
            var batch :=
              ProjectBudget(replicas, config.maxSurge + config.maxUnavailable, StepCount(state.initial, state.desired));
            HardNewReplicaLimits(s)[i] == Max(state.target.spec[i],
              Min(state.desired[i], if s.oldSpec[i] == 0 then surge else Min(surge, state.target.ready[i] + batch)))
  {
    hide WindowFor, StepCount, ProjectBudget, DisjointGrowthLimits, PendingGrowthLimit;
    SurgeLimit(s, WindowFor(s.state.desired, s.state.target.ready), StepCount(s.state.initial, s.state.desired), i);
  }

  /** Without renamed roles the pending limit is the surge ceiling, and the pending batch while old groups remain. */
  lemma SurgeLimit(s: Snapshot, progress: Window, steps: nat, i: nat)
    requires s.Valid() && !s.Disjoint() && i < s.Size()
    ensures var surge, ready := Minus(s.SurgeCeiling(i), s.oldSpec[i]), s.state.target.ready[i];
            var config, replicas := s.state.config[i], Max(s.state.initial[i], s.state.desired[i]);
            PendingGrowthLimit(s, i, progress, steps) ==
              (if s.oldSpec[i] == 0 then surge
               else Min(surge, ready + ProjectBudget(replicas, config.maxSurge + config.maxUnavailable, steps)), ready)
  {
    hide ProjectBudget;
  }

  /** A role short of its target is stopped only by its surge ceiling. */
  lemma BlockedAtCeiling(r: Rollout, past: seq<nat>, next: seq<nat>, i: nat)
    requires r.Bounded(past, next) && r.NotRenamed() && i < r.Size()
    requires r.config[i].maxSurge + r.config[i].maxUnavailable > 0
    requires next[i] < r.desired[i]
    requires HardNewReplicaLimits(r.Snapshot(past, next))[i] == next[i]
    ensures past[i] > 0 && past[i] + next[i] >= r.Ceiling(i)
  {
    hide HardNewReplicaLimits, StepCount, ProjectBudget;
    var s := r.Snapshot(past, next);
    SimulatedLimit(r, past, next, s, i);
    StepCountCovers(r.initial, r.desired, i);
    ProjectBudgetPositive(Max(r.initial[i], r.desired[i]), r.config[i].maxSurge + r.config[i].maxUnavailable,
                          StepCount(r.initial, r.desired));
  }

  /** Growth limits stay between what is issued and what is desired. */
  lemma LimitsBetween(r: Rollout, past: seq<nat>, next: seq<nat>, s: Snapshot)
    requires r.Bounded(past, next) && r.NotRenamed() && Resurged(r, past, next, s)
    ensures s.Valid()
    ensures Below(next, HardNewReplicaLimits(s)) && Below(HardNewReplicaLimits(s), r.desired)
    ensures GrowthProposed(r.desired, HardNewReplicaLimits(s)) == HardNewReplicaLimits(s)
  {
    forall i | 0 <= i < r.Size()
      ensures next[i] <= HardNewReplicaLimits(s)[i] <= r.desired[i]
    {
      SimulatedLimit(r, past, next, s, i);
    }
  }
}
