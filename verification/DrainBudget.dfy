/**
 * How far a revision may be reduced: the Ready capacity that must survive, the
 * drain window, and the rule that required roles of a revision retire together.
 */
module DrainBudget {
  import opened Roles
  import opened CoordinationWindow
  import opened RolloutState

  datatype ReadyCapacity = ReadyCapacity(serving: nat, individual: nat)

  /**
   * `serving` is retained serving capacity of the draining revision, `observed`
   * counts every revision before pending deletions, and `replacement` is what
   * the other revisions retain.
   */
  datatype RoleBudget = RoleBudget(
    serving: nat, observed: ReadyCapacity, replacement: ReadyCapacity, floor: nat, excluded: bool)

  datatype DrainBudget = DrainBudget(revision: RevisionState, roles: seq<RoleBudget>, allowOutage: bool) {

    predicate Valid() {
      revision.Valid(|roles|)
    }

    function Size(): nat {
      |roles|
    }

    function ReadyLeft(remaining: seq<int>, i: nat): nat
      requires Valid() && |remaining| == Size() && i < Size()
    {
      Max(0, Minus(roles[i].serving, Minus(revision.spec[i], remaining[i])))
    }

    /** Some required role that stays would have no serving group left. */
    predicate LosesServing(remaining: seq<int>)
      requires Valid() && |remaining| == Size()
    {
      exists i | 0 <= i < Size() :: revision.required[i] && remaining[i] > 0 && ReadyLeft(remaining, i) == 0
    }

    /** Serving capacity of role i after the drain: nothing at all once the revision is incomplete. */
    function ServingAfter(remaining: seq<int>, i: nat): nat
      requires Valid() && |remaining| == Size() && i < Size()
    {
      if !AllRequiredPresent(revision.required, remaining) || LosesServing(remaining) then 0
      else ReadyLeft(remaining, i)
    }

    predicate HasReduction(remaining: seq<int>)
      requires Valid() && |remaining| == Size()
    {
      exists i | 0 <= i < Size() :: remaining[i] < revision.spec[i]
    }

    predicate ServingPreserved(remaining: seq<int>, i: nat)
      requires Valid() && |remaining| == Size() && i < Size()
    {
      || allowOutage
      || (revision.spec[i] == remaining[i] && ServingAfter(remaining, i) > 0)
      || roles[i].replacement.serving + ServingAfter(remaining, i) >= Min(roles[i].observed.serving, roles[i].floor)
    }

    predicate IndividualPreserved(remaining: seq<int>, i: nat)
      requires Valid() && |remaining| == Size() && i < Size()
    {
      var removed := Minus(revision.spec[i], remaining[i]);
      removed > 0 ==>
        roles[i].replacement.individual + Max(0, Minus(revision.ready[i], removed))
        >= Min(roles[i].observed.individual, roles[i].floor)
    }

    predicate RolePreserved(remaining: seq<int>, i: nat)
      requires Valid() && |remaining| == Size() && i < Size()
    {
      roles[i].excluded || (ServingPreserved(remaining, i) && IndividualPreserved(remaining, i))
    }

    /** The budget holds even if deletions hit Ready groups first. */
    predicate Preserves(remaining: seq<int>)
      requires Valid() && |remaining| == Size()
    {
      HasReduction(remaining) ==> forall i | 0 <= i < Size() :: RolePreserved(remaining, i)
    }

    /** Serving groups the role itself must keep for its floor. */
    function ServingNeed(i: nat): nat
      requires Valid() && i < Size()
    {
      if roles[i].excluded || allowOutage then 0
      else Max(0, Minus(Min(roles[i].observed.serving, roles[i].floor), roles[i].replacement.serving))
    }

    function IndividualNeed(i: nat): nat
      requires Valid() && i < Size()
    {
      if roles[i].excluded then 0
      else Max(0, Minus(Min(roles[i].observed.individual, roles[i].floor), roles[i].replacement.individual))
    }

    predicate MustServe()
      requires Valid()
    {
      exists i | 0 <= i < Size() :: ServingNeed(i) > 0
    }

    function MinimumTarget(i: nat): nat
      requires Valid() && i < Size()
    {
      var serving :=
        if MustServe() && revision.required[i] && revision.spec[i] > 0 then Max(1, ServingNeed(i)) else ServingNeed(i);
      Max(MinimumSpecToPreserveReady(revision.spec[i], roles[i].serving, serving),
          MinimumSpecToPreserveReady(revision.spec[i], revision.ready[i], IndividualNeed(i)))
    }

    function MinimumTargets(): (targets: seq<nat>)
      requires Valid()
      ensures |targets| == Size() && Below(targets, revision.spec)
    {
      if Preserves(Zeros(Size())) then Zeros(Size())
      else seq(Size(), i requires 0 <= i < Size() => MinimumTarget(i))
    }
  }

  function Zeros(size: nat): (zeros: seq<nat>)
    ensures |zeros| == size && forall i | 0 <= i < size :: zeros[i] == 0
  {
    seq(size, _ => 0)
  }

  function MinimumSpecToPreserveReady(spec: nat, ready: nat, required: nat): (minimum: nat)
    ensures minimum <= spec
  {
    if required == 0 then 0 else Max(0, Minus(spec, Max(0, Minus(ready, required))))
  }

  function OldRoleBudget(snapshot: Snapshot, i: nat): RoleBudget
    requires snapshot.Valid() && i < snapshot.Size()
  {
    var observed := snapshot.OldReady(i).Plus(snapshot.TargetReady(i));
    var replacement := snapshot.parkedReady[i].Plus(snapshot.TargetReady(i));
    RoleBudget(
      snapshot.ActiveReady(i).usable,
      ReadyCapacity(observed.rawUsable, observed.rawPerRole),
      ReadyCapacity(replacement.usable, replacement.perRole),
      snapshot.AvailabilityFloor(i),
      snapshot.ExcludesActive(i))
  }

  function TargetRoleBudget(snapshot: Snapshot, i: nat): RoleBudget
    requires snapshot.Valid() && i < snapshot.Size()
  {
    var retained := snapshot.OldReady(i);
    var observed := retained.Plus(snapshot.TargetReady(i));
    var floor :=
      if snapshot.state.target.spec[i] == 0
      then Max(0, snapshot.state.desired[i] - snapshot.state.config[i].maxUnavailable)
      else snapshot.AvailabilityFloor(i);
    RoleBudget(
      snapshot.TargetReady(i).usable,
      ReadyCapacity(observed.rawUsable, observed.rawPerRole),
      ReadyCapacity(retained.usable, retained.perRole),
      floor,
      false)
  }

  function OldDrain(snapshot: Snapshot): (budget: DrainBudget)
    requires snapshot.Valid()
    ensures budget.Valid() && budget.Size() == snapshot.Size() && budget.revision == snapshot.state.activeOld
  {
    DrainBudget(
      snapshot.state.activeOld,
      seq(snapshot.Size(), i requires 0 <= i < snapshot.Size() => OldRoleBudget(snapshot, i)),
      snapshot.state.AllowsRevisionOutage(snapshot.state.activeOld.required))
  }

  function TargetDrain(snapshot: Snapshot): (budget: DrainBudget)
    requires snapshot.Valid()
    ensures budget.Valid() && budget.Size() == snapshot.Size() && budget.revision == snapshot.state.target
  {
    DrainBudget(
      snapshot.state.target,
      seq(snapshot.Size(), i requires 0 <= i < snapshot.Size() => TargetRoleBudget(snapshot, i)),
      false)
  }

  // --- Upward closure ---

  /** Keeping more of a revision never serves less. */
  lemma ServingMonotone(budget: DrainBudget, less: seq<int>, more: seq<int>, i: nat)
    requires budget.Valid() && |less| == budget.Size() && i < budget.Size()
    requires Below(less, more) && Below(more, budget.revision.spec)
    requires forall j | 0 <= j < |less| :: 0 <= less[j]
    ensures budget.ServingAfter(less, i) <= budget.ServingAfter(more, i)
  {
    if budget.ServingAfter(less, i) > 0 {
      assert AllRequiredPresent(budget.revision.required, more);
    }
  }

  /**
   * The drain budget is upward closed: whatever keeps at least as much as a
   * safe drain is safe, so window and completeness bounds preserve safety.
   */
  lemma PreservesUpwardClosed(budget: DrainBudget, less: seq<int>, more: seq<int>)
    requires budget.Valid() && |less| == budget.Size()
    requires Below(less, more) && Below(more, budget.revision.spec)
    requires forall j | 0 <= j < |less| :: 0 <= less[j]
    requires budget.Preserves(less)
    ensures budget.Preserves(more)
  {
    if budget.HasReduction(more) {
      var j :| 0 <= j < budget.Size() && more[j] < budget.revision.spec[j];
      assert less[j] < budget.revision.spec[j];
      forall i | 0 <= i < budget.Size()
        ensures budget.RolePreserved(more, i)
      {
        assert budget.RolePreserved(less, i);
        ServingMonotone(budget, less, more, i);
      }
    }
  }

  // --- Bounding an old drain ---

  predicate DemandExceedsBaseline(snapshot: Snapshot)
    requires snapshot.Valid()
  {
    exists i | 0 <= i < snapshot.Size() :: snapshot.state.desired[i] > snapshot.state.baseline[i]
  }

  /** What a wanted role has beyond its ceiling and gives up without waiting for the drain window. */
  function Excess(snapshot: Snapshot, i: nat): nat
    requires snapshot.Valid() && i < snapshot.Size()
  {
    var state := snapshot.state;
    if (state.scaleDownDuringRollout || DemandExceedsBaseline(snapshot)) && state.desired[i] > 0 then
      Max(0, Minus(snapshot.oldSpec[i] + state.target.spec[i], snapshot.SurgeCeiling(i)))
    else
      0
  }

  function ExcessVector(snapshot: Snapshot): (excess: seq<nat>)
    requires snapshot.Valid()
    ensures |excess| == snapshot.Size()
  {
    seq(snapshot.Size(), i requires 0 <= i < snapshot.Size() => Excess(snapshot, i))
  }

  function BoundDrainingSnapshotTargets(snapshot: Snapshot, proposed: seq<int>): (bounded: seq<int>)
    requires snapshot.Valid() && |proposed| == snapshot.Size()
    ensures |bounded| == snapshot.Size()
  {
    var state := snapshot.state;
    BoundReleasing(state.activeOld.spec, state.initial, proposed, ExcessVector(snapshot))
  }

  predicate SomeRequiredStays(current: seq<nat>, proposed: seq<int>, required: seq<bool>)
    requires |current| == |proposed| == |required|
  {
    exists i | 0 <= i < |required| :: required[i] && current[i] > 0 && proposed[i] > 0
  }

  /** While some required role keeps a group, each required role that has one keeps one. */
  function BoundByCompleteness(current: seq<nat>, proposed: seq<int>, required: seq<bool>): (bounded: seq<int>)
    requires |current| == |proposed| == |required|
    ensures |bounded| == |proposed|
  {
    if SomeRequiredStays(current, proposed, required) then
      seq(|proposed|, i requires 0 <= i < |proposed| =>
        if required[i] && current[i] > 0 then Max(1, proposed[i]) else proposed[i])
    else
      proposed
  }

  function CompletedTargets(snapshot: Snapshot, proposed: seq<int>): (bounded: seq<int>)
    requires snapshot.Valid() && |proposed| == snapshot.Size()
    ensures |bounded| == snapshot.Size()
  {
    var active := snapshot.state.activeOld;
    if snapshot.state.AllowsRevisionOutage(active.required) then proposed
    else BoundByCompleteness(active.spec, proposed, active.required)
  }

  /** Window, completeness, and window again: the furthest coordinated form of a proposed drain. */
  function CoordinatedOldTargets(snapshot: Snapshot, proposed: seq<int>): (bounded: seq<int>)
    requires snapshot.Valid() && |proposed| == snapshot.Size()
    ensures |bounded| == snapshot.Size()
  {
    var windowed := BoundDrainingSnapshotTargets(snapshot, proposed);
    BoundDrainingSnapshotTargets(snapshot, CompletedTargets(snapshot, windowed))
  }

  function FurthestOldTargets(snapshot: Snapshot): (targets: seq<int>)
    requires snapshot.Valid()
    ensures |targets| == snapshot.Size()
  {
    var budget := OldDrain(snapshot);
    var targets := CoordinatedOldTargets(snapshot, budget.MinimumTargets());
    if budget.Preserves(targets) then targets else snapshot.state.activeOld.spec
  }

  /** A drain within the coordination window that keeps required roles together. */
  ghost predicate Coordinated(snapshot: Snapshot, targets: seq<int>)
    requires snapshot.Valid() && |targets| == snapshot.Size()
  {
    && Below(targets, snapshot.state.activeOld.spec)
    && (forall i | 0 <= i < |targets| :: 0 <= targets[i])
    && BoundDrainingSnapshotTargets(snapshot, targets) == targets
    && CompletedTargets(snapshot, targets) == targets
  }

  lemma CompletedBetween(snapshot: Snapshot, proposed: seq<int>)
    requires snapshot.Valid() && |proposed| == snapshot.Size()
    requires Below(proposed, snapshot.state.activeOld.spec)
    ensures Below(proposed, CompletedTargets(snapshot, proposed))
    ensures Below(CompletedTargets(snapshot, proposed), snapshot.state.activeOld.spec)
  {}

  lemma CoordinatedOldTargetsCoordinated(snapshot: Snapshot, proposed: seq<nat>)
    requires snapshot.Valid() && |proposed| == snapshot.Size()
    requires Below(proposed, snapshot.state.activeOld.spec)
    ensures Coordinated(snapshot, CoordinatedOldTargets(snapshot, proposed))
    ensures Below(proposed, CoordinatedOldTargets(snapshot, proposed))
  {
    hide BoundReleasing, CompletedTargets, ExcessVector, NoneBehind;
    var state, excess := snapshot.state, ExcessVector(snapshot);
    var windowed := BoundDrainingSnapshotTargets(snapshot, proposed);
    var completed := CompletedTargets(snapshot, windowed);
    BoundReleasingEffective(state.activeOld.spec, state.initial, proposed, excess);
    BoundReleasingIdempotent(state.activeOld.spec, state.initial, proposed, excess);
    CompletedBetween(snapshot, windowed);
    BoundReleasingEffective(state.activeOld.spec, state.initial, completed, excess);
    BoundReleasingIdempotent(state.activeOld.spec, state.initial, completed, excess);
    if completed != windowed {
      CompletedStays(snapshot, windowed, BoundDrainingSnapshotTargets(snapshot, completed));
    }
  }

  /** Completeness that had to act is kept by whatever stays above it. */
  lemma CompletedStays(snapshot: Snapshot, windowed: seq<int>, targets: seq<int>)
    requires snapshot.Valid() && |windowed| == snapshot.Size() && CompletedTargets(snapshot, windowed) != windowed
    requires Below(CompletedTargets(snapshot, windowed), targets) && Below(targets, snapshot.state.activeOld.spec)
    ensures CompletedTargets(snapshot, targets) == targets
  {}

  lemma UnchangedCoordinated(snapshot: Snapshot)
    requires snapshot.Valid()
    ensures Coordinated(snapshot, snapshot.state.activeOld.spec)
  {
    var state, excess := snapshot.state, ExcessVector(snapshot);
    BoundReleasingEffective(state.activeOld.spec, state.initial, state.activeOld.spec, excess);
    assert BoundDrainingSnapshotTargets(snapshot, state.activeOld.spec) == state.activeOld.spec;
    assert CompletedTargets(snapshot, state.activeOld.spec) == state.activeOld.spec;
  }

  /** The planner's old drain is coordinated and within the drain budget. */
  lemma FurthestOldTargetsSafe(snapshot: Snapshot)
    requires snapshot.Valid()
    ensures Coordinated(snapshot, FurthestOldTargets(snapshot))
    ensures OldDrain(snapshot).Preserves(FurthestOldTargets(snapshot))
  {
    CoordinatedOldTargetsCoordinated(snapshot, OldDrain(snapshot).MinimumTargets());
    UnchangedCoordinated(snapshot);
  }
}
