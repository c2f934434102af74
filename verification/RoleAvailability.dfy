/**
 * What a step leaves of every role, wanted or removed: counted in Ready groups, or
 * in groups of complete revisions, which are the ones that serve.
 */
module RoleAvailability {
  import opened Roles
  import opened RolloutState
  import opened DrainBudget
  import opened Planner
  import opened StepValidator
  import opened StepSafety
  import opened RemovedRoles

  datatype Measure = ReadyGroups | ServingGroups

  function Amount(readiness: RoleReadiness, measure: Measure): nat {
    if measure.ReadyGroups? then readiness.perRole else readiness.usable
  }

  /** A revision that shares a role with the target does not supply the baseline of the roles it lacks. */
  function Supplied(revision: RevisionState, desired: seq<nat>, i: nat): RoleReadiness
    requires revision.Valid(|desired|) && i < |desired|
  {
    if desired[i] == 0 && RolesOverlap(revision.required, desired) then NOT_READY else RoleReadinessAt(revision, i)
  }

  /** What a role has over all revisions, with the active one and the target in the given states. */
  ghost function RoleCapacity(
    state: RolloutState, active: RevisionState, target: RevisionState, i: nat, measure: Measure
  ): nat
    requires state.Valid() && active.Valid(|state.config|) && target.Valid(|state.config|) && i < |state.config|
  {
    Amount(
      SnapshotFor(state).parkedReady[i].Plus(Supplied(active, state.desired, i)).Plus(RoleReadinessAt(target, i)),
      measure)
  }

  /** What it has to keep: less the unavailability budget, all it is to have, or all the target has not replaced. */
  function RoleFloor(state: RolloutState, target: RevisionState, i: nat): nat
    requires state.Valid() && target.Valid(|state.config|) && i < |state.config|
  {
    if state.desired[i] > 0 then Max(0, state.desired[i] - state.config[i].maxUnavailable)
    else RemovedFloor(state, target, i)
  }

  lemma LiveCapacity(state: RolloutState, active: RevisionState, target: RevisionState, i: nat, measure: Measure)
    requires Live(state, i) && active.Valid(|state.config|) && target.Valid(|state.config|)
    ensures RoleCapacity(state, active, target, i, measure) ==
            if measure.ReadyGroups? then RetainedReady(state, active, target, i)
            else RetainedServing(state, active, target, i)
  {
    hide SnapshotFor;
  }

  lemma RemovedCapacity(state: RolloutState, active: RevisionState, target: RevisionState, i: nat, measure: Measure)
    requires Removed(state, i) && active.Valid(|state.config|) && target.Valid(|state.config|)
    requires active.required == state.activeOld.required
    ensures RoleCapacity(state, active, target, i, measure) ==
            if measure.ReadyGroups? then RemovedReady(state, active, target, i)
            else RemovedServing(state, active, target, i)
  {
    hide SnapshotFor, RolesOverlap, AllRequiredPresent;
  }

  lemma AcceptedKeepsLive(
    state: RolloutState, past: seq<nat>, next: seq<nat>, kind: StepKind, i: nat, measure: Measure
  )
    requires Accepted(state, UpdateStep(past, next, kind)) && |past| == |next| == |state.config|
    requires Live(state, i) && Credible(state) && (measure.ServingGroups? ==> SparesServing(state, past))
    ensures RoleCapacity(state, Applied(state.activeOld, past), Applied(state.target, next), i, measure)
            >= Min(RoleCapacity(state, state.activeOld, state.target, i, measure),
                   Eased(RoleFloor(state, state.target, i), kind))
  {
    hide ValidateUpdateStep, SnapshotFor, RoleCapacity, RetainedReady, RetainedServing, Replaced;
    LiveCapacity(state, state.activeOld, state.target, i, measure);
    LiveCapacity(state, Applied(state.activeOld, past), Applied(state.target, next), i, measure);
    if measure.ReadyGroups? {
      AcceptedKeepsReady(state, past, next, kind, i);
    } else {
      AcceptedKeepsServing(state, past, next, kind, i);
    }
  }

  /**
   * No accepted step of any kind takes any role further below its floor, however the
   * deletions it asks for pick their victims: not in Ready groups, and not in serving
   * ones unless the step drains a revision whose policy permits an outage of a role
   * the target wants.
   */
  lemma AcceptedKeepsRole(
    state: RolloutState, past: seq<nat>, next: seq<nat>, kind: StepKind, eased: StepKind, i: nat, measure: Measure
  )
    requires Accepted(state, UpdateStep(past, next, kind)) && |past| == |next| == |state.config|
    requires i < |state.config| && Credible(state) && (kind == UnavailableFallback ==> eased == UnavailableFallback)
    requires state.desired[i] > 0 && measure.ServingGroups? ==> SparesServing(state, past)
    requires state.desired[i] == 0 ==> RequiresDesired(state)
    ensures var active, target := Applied(state.activeOld, past), Applied(state.target, next);
            Shortfall(Eased(RoleFloor(state, target, i), eased), RoleCapacity(state, active, target, i, measure))
            <= Shortfall(Eased(RoleFloor(state, state.target, i), eased),
                         RoleCapacity(state, state.activeOld, state.target, i, measure))
  {
    hide ValidateUpdateStep, SnapshotFor, RoleCapacity, RemovedReady, RemovedServing, RemovedFloor;
    var active, target := Applied(state.activeOld, past), Applied(state.target, next);
    if state.desired[i] > 0 {
      AcceptedKeepsLive(state, past, next, kind, i, measure);
    } else {
      RemovedCapacity(state, state.activeOld, state.target, i, measure);
      RemovedCapacity(state, active, target, i, measure);
      if measure.ReadyGroups? {
        AcceptedKeepsRemovedReady(state, past, next, kind, eased, i);
      } else {
        AcceptedKeepsRemoved(state, past, next, kind, eased, i);
      }
    }
  }
}
