/**
 * Planner input: what was observed about the revisions taking part in a
 * coordinated rollout, and the readiness summaries derived from it.
 */
module RolloutState {
  import opened Roles
  import opened CoordinationWindow

  datatype RollingUpdateConfig = RollingUpdateConfig(maxSurge: nat, maxUnavailable: nat)

  /**
   * One revision's replica groups. `rawReady` includes Ready groups already
   * committed to removal; `ready` is the retained credit and excludes them.
   * `required` says which roles the revision is made of.
   */
  datatype RevisionState = RevisionState(required: seq<bool>, spec: seq<nat>, rawReady: seq<nat>, ready: seq<nat>) {
    predicate Valid(size: nat) {
      |required| == |spec| == |rawReady| == |ready| == size
    }

    function ObserveFullyReady(replicas: seq<nat>): RevisionState {
      RevisionState(required, replicas, replicas, replicas)
    }
  }

  /** What one step is planned from: a step drains `activeOld` and moves `target`, and leaves the rest alone. */
  datatype RolloutState = RolloutState(
    activeOld: RevisionState,
    initial: seq<nat>,
    parkedOld: seq<RevisionState>,
    target: RevisionState,
    desired: seq<nat>,
    unschedulable: seq<bool>,
    allUnscheduled: seq<bool>,
    baseline: seq<nat>,
    config: seq<RollingUpdateConfig>,
    scaleDownDuringRollout: bool)
  {
    predicate Valid() {
      var size := |config|;
      && activeOld.Valid(size) && target.Valid(size)
      && |initial| == |baseline| == |desired| == |unschedulable| == size
      && forall k | 0 <= k < |parkedOld| :: parkedOld[k].Valid(size)
    }

    /** Some role that both revisions need may lose all its groups at once. */
    predicate AllowsRevisionOutage(required: seq<bool>)
      requires |required| == |desired| == |config|
    {
      exists i | 0 <= i < |required| :: required[i] && desired[i] > 0 && config[i].maxUnavailable >= desired[i]
    }
  }

  predicate AllRequiredPresent(required: seq<bool>, replicas: seq<int>)
    requires |required| == |replicas|
  {
    && (exists i | 0 <= i < |required| :: required[i])
    && forall i | 0 <= i < |required| :: required[i] ==> replicas[i] != 0
  }

  predicate RolesOverlap(required: seq<bool>, desired: seq<nat>)
    requires |required| == |desired|
  {
    exists i | 0 <= i < |required| :: required[i] && desired[i] > 0
  }

  /** `usable` counts only revisions with every required role Ready; `perRole` counts every Ready group. */
  datatype RoleReadiness = RoleReadiness(usable: nat, rawUsable: nat, perRole: nat, rawPerRole: nat) {
    function Plus(other: RoleReadiness): RoleReadiness {
      RoleReadiness(usable + other.usable, rawUsable + other.rawUsable, perRole + other.perRole,
                    rawPerRole + other.rawPerRole)
    }
  }

  const NOT_READY := RoleReadiness(0, 0, 0, 0)

  function RoleReadinessAt(revision: RevisionState, i: nat): RoleReadiness
    requires revision.Valid(|revision.spec|) && i < |revision.spec|
  {
    RoleReadiness(
      if AllRequiredPresent(revision.required, revision.ready) then revision.ready[i] else 0,
      if AllRequiredPresent(revision.required, revision.rawReady) then revision.rawReady[i] else 0,
      revision.ready[i],
      revision.rawReady[i])
  }

  /** A state with the sums over its old revisions and the target's progress. */
  datatype Snapshot = Snapshot(
    state: RolloutState,
    oldSpec: seq<nat>,
    disjointSpec: seq<nat>,
    parkedReady: seq<RoleReadiness>,
    activeOverlaps: bool,
    progress: Window)
  {
    predicate Valid() {
      && state.Valid()
      && |oldSpec| == |disjointSpec| == |parkedReady| == |state.config|
    }

    function Size(): nat {
      |state.config|
    }

    function ActiveReady(i: nat): RoleReadiness
      requires Valid() && i < Size()
    {
      RoleReadinessAt(state.activeOld, i)
    }

    function TargetReady(i: nat): RoleReadiness
      requires Valid() && i < Size()
    {
      RoleReadinessAt(state.target, i)
    }

    /** The active revision does not supply the baseline of a removed role it overlaps the target without. */
    predicate ExcludesActive(i: nat)
      requires Valid() && i < Size()
    {
      activeOverlaps && state.desired[i] == 0
    }

    function OldReady(i: nat): RoleReadiness
      requires Valid() && i < Size()
    {
      if ExcludesActive(i) then parkedReady[i] else parkedReady[i].Plus(ActiveReady(i))
    }

    /** Removed-role capacity that target readiness has not yet replaced. */
    function Unreplaced(i: nat): int
      requires Valid() && i < Size()
    {
      if state.desired[i] != 0 || progress.target == 0 then 0
      else Minus(state.baseline[i], progress.ReadyCredit(state.baseline[i]))
    }

    predicate Disjoint()
      requires Valid()
    {
      exists i | 0 <= i < Size() :: Unreplaced(i) > 0
    }

    function SurgeCeiling(i: nat): nat
      requires Valid() && i < Size()
    {
      var base := if state.scaleDownDuringRollout then state.desired[i] else Max(state.desired[i], state.initial[i]);
      base + state.config[i].maxSurge
    }

    function AvailabilityFloor(i: nat): nat
      requires Valid() && i < Size()
    {
      Max(0, Max(state.desired[i], Unreplaced(i)) - state.config[i].maxUnavailable)
    }

    function WithConfig(config: seq<RollingUpdateConfig>): Snapshot {
      this.(state := state.(config := config))
    }
  }

  /** Readiness progress of the target: zero unless every required role is Ready. */
  function TargetReadyProgress(state: RolloutState, ready: seq<nat>): Window
    requires state.Valid() && |ready| == |state.config|
  {
    var w := WindowFor(state.desired, ready);
    if AllRequiredPresent(state.target.required, ready) then w else w.(least := 0)
  }

  function IncludeParked(snapshot: Snapshot, revision: RevisionState): (s: Snapshot)
    requires snapshot.Valid() && revision.Valid(snapshot.Size())
    ensures s.Valid() && s.state == snapshot.state
    ensures s.activeOverlaps == snapshot.activeOverlaps && s.progress == snapshot.progress
  {
    var size, desired := snapshot.Size(), snapshot.state.desired;
    var overlaps := RolesOverlap(revision.required, desired);
    snapshot.(
      oldSpec := seq(size, i requires 0 <= i < size => snapshot.oldSpec[i] + revision.spec[i]),
      disjointSpec := seq(size, i requires 0 <= i < size =>
        snapshot.disjointSpec[i] + if overlaps then 0 else revision.spec[i]),
      parkedReady := seq(size, i requires 0 <= i < size =>
        if overlaps && desired[i] == 0 then snapshot.parkedReady[i]
        else snapshot.parkedReady[i].Plus(RoleReadinessAt(revision, i))))
  }

  function IncludeAllParked(snapshot: Snapshot, parked: seq<RevisionState>): (s: Snapshot)
    requires snapshot.Valid() && forall k | 0 <= k < |parked| :: parked[k].Valid(snapshot.Size())
    ensures s.Valid() && s.state == snapshot.state
    ensures s.activeOverlaps == snapshot.activeOverlaps && s.progress == snapshot.progress
    decreases |parked|
  {
    if |parked| == 0 then snapshot
    else IncludeParked(IncludeAllParked(snapshot, parked[..|parked| - 1]), parked[|parked| - 1])
  }

  function SnapshotFor(state: RolloutState): (s: Snapshot)
    requires state.Valid()
    ensures s.Valid() && s.state == state
  {
    var size := |state.config|;
    var overlaps := RolesOverlap(state.activeOld.required, state.desired);
    var active := Snapshot(
      state,
      state.activeOld.spec,
      if overlaps then seq(size, _ => 0) else state.activeOld.spec,
      seq(size, _ => NOT_READY),
      overlaps,
      TargetReadyProgress(state, state.target.ready));
    IncludeAllParked(active, state.parkedOld)
  }

  /** Shared roles keep all undrained history; removed roles only revisions without target overlap. */
  function IncludeHistoricalBaseline(
    baseline: seq<nat>, desired: seq<nat>, initial: seq<nat>, spec: seq<nat>
  ): (b: seq<nat>)
    requires |baseline| == |desired| == |initial|
    ensures |b| == |baseline|
  {
    if Sum(spec) == 0 then
      baseline
    else
      var overlaps := exists i | 0 <= i < |initial| :: initial[i] > 0 && desired[i] > 0;
      seq(|baseline|, i requires 0 <= i < |baseline| =>
        if desired[i] > 0 || !overlaps then Max(baseline[i], initial[i]) else baseline[i])
  }
}
