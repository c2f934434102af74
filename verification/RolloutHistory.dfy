/**
 * Rollouts over real time: several old revisions, any of which the executor may
 * pick as the one to drain, readiness arriving late, and deletions that hit
 * Ready groups first.
 */
module RolloutHistory {
  import opened Roles
  import opened RolloutState
  import opened DrainBudget
  import opened Planner
  import opened StepValidator
  import opened StepSafety

  datatype OldRevision = OldRevision(initial: seq<nat>, revision: RevisionState)

  /** The revisions of one slice, with the desired counts and unavailability budgets held fixed. */
  datatype World = World(history: seq<OldRevision>, target: RevisionState, desired: seq<nat>, unavailable: seq<nat>) {
    predicate Valid() {
      var size := |desired|;
      && |unavailable| == size && target.Valid(size)
      && forall k | 0 <= k < |history| :: |history[k].initial| == size && history[k].revision.Valid(size)
    }

    /** Retained credit is part of what is observed Ready. */
    ghost predicate Credible() {
      CreditObserved(target) && forall k | 0 <= k < |history| :: CreditObserved(history[k].revision)
    }
  }

  /** What else the executor observed when it asked the planner. */
  datatype Observation = Observation(
    surge: seq<nat>, unschedulable: seq<bool>, allUnscheduled: seq<bool>, scaleDownDuringRollout: bool)

  datatype Event =
    | Step(active: Option<nat>, observation: Observation, past: seq<nat>, next: seq<nat>, kind: StepKind)
    | Observe

  ghost predicate AllValid(revisions: seq<RevisionState>, size: nat) {
    forall k | 0 <= k < |revisions| :: revisions[k].Valid(size)
  }

  function Revisions(history: seq<OldRevision>): (revisions: seq<RevisionState>)
    ensures |revisions| == |history| && forall k | 0 <= k < |history| :: revisions[k] == history[k].revision
  {
    seq(|history|, k requires 0 <= k < |history| => history[k].revision)
  }

  /** Everything except one element, in order. */
  function Others<T>(all: seq<T>, active: nat): (others: seq<T>)
    requires active < |all|
    ensures |others| == |all| - 1
    ensures forall k | 0 <= k < |others| :: others[k] == all[if k < active then k else k + 1]
  {
    all[..active] + all[active + 1..]
  }

  /** Baselines of the undrained revisions, folded in order. */
  function HistoricalBaseline(desired: seq<nat>, history: seq<OldRevision>): (baseline: seq<nat>)
    requires forall k | 0 <= k < |history| :: |history[k].initial| == |desired|
    ensures |baseline| == |desired|
  {
    if |history| == 0 then Zeros(|desired|)
    else
      var last := history[|history| - 1];
      IncludeHistoricalBaseline(HistoricalBaseline(desired, history[..|history| - 1]), desired, last.initial,
                                last.revision.spec)
  }

  function EmptyRevision(size: nat): (revision: RevisionState)
    ensures revision.Valid(size)
  {
    RevisionState(seq(size, _ => false), Zeros(size), Zeros(size), Zeros(size))
  }

  /** The candidate the executor picked; with nothing left to drain, an empty one. */
  function Candidate(world: World, active: Option<nat>): (candidate: OldRevision)
    requires world.Valid() && (active.Some? ==> active.value < |world.history|)
    ensures candidate.revision.Valid(|world.desired|) && |candidate.initial| == |world.desired|
  {
    if active.Some? then world.history[active.value]
    else OldRevision(Zeros(|world.desired|), EmptyRevision(|world.desired|))
  }

  function Parked(world: World, active: Option<nat>): (parked: seq<OldRevision>)
    requires world.Valid() && (active.Some? ==> active.value < |world.history|)
    ensures forall k | 0 <= k < |parked| ::
            parked[k].revision.Valid(|world.desired|) && |parked[k].initial| == |world.desired|
  {
    if active.Some? then Others(world.history, active.value) else world.history
  }

  /** The planner input for one candidate; every other old revision is parked. */
  function StateFor(world: World, active: Option<nat>, seen: Observation): (state: RolloutState)
    requires world.Valid() && (active.Some? ==> active.value < |world.history|)
    requires |seen.surge| == |seen.unschedulable| == |world.desired|
    ensures state.Valid()
  {
    var size, candidate, parked := |world.desired|, Candidate(world, active), Parked(world, active);
    RolloutState(
      candidate.revision,
      candidate.initial,
      Revisions(parked),
      world.target,
      world.desired,
      seen.unschedulable,
      seen.allUnscheduled,
      HistoricalBaseline(world.desired, [candidate] + parked),
      seq(size, i requires 0 <= i < size => RollingUpdateConfig(seen.surge[i], world.unavailable[i])),
      seen.scaleDownDuringRollout)
  }

  // --- Events ---

  ghost predicate StepPossible(world: World, event: Event)
    requires event.Step?
  {
    && world.Valid()
    && (event.active.Some? ==> event.active.value < |world.history|)
    && |event.observation.surge| == |event.observation.unschedulable| == |world.desired|
    && |event.past| == |event.next| == |world.desired|
    && Accepted(StateFor(world, event.active, event.observation), UpdateStep(event.past, event.next, event.kind))
  }

  /** The accepted step is issued; credit is given up for every group that may now be deleted. */
  function Issue(world: World, event: Event): (after: World)
    requires world.Valid() && event.Step? && (event.active.Some? ==> event.active.value < |world.history|)
    requires |event.past| == |event.next| == |world.desired|
    ensures after.Valid()
  {
    var target := Applied(world.target, event.next);
    if event.active.None? then world.(target := target)
    else
      var k := event.active.value;
      var drained := world.history[k].(revision := Applied(world.history[k].revision, event.past));
      world.(history := world.history[k := drained], target := target)
  }

  /** Readiness arrives, and deleted groups disappear; credit already given is not lost. */
  ghost predicate ReadinessArrives(before: RevisionState, after: RevisionState) {
    && after.required == before.required && after.spec == before.spec
    && Below(before.ready, after.ready) && Below(after.ready, after.rawReady)
  }

  ghost predicate Observed(before: World, after: World) {
    && before.Valid() && after.Valid()
    && after.desired == before.desired && after.unavailable == before.unavailable
    && |after.history| == |before.history|
    && ReadinessArrives(before.target, after.target)
    && forall k | 0 <= k < |before.history| ::
         after.history[k].initial == before.history[k].initial &&
           ReadinessArrives(before.history[k].revision, after.history[k].revision)
  }

  ghost predicate Happens(before: World, event: Event, after: World) {
    match event
    case Step(_, _, _, _, _) => StepPossible(before, event) && after == Issue(before, event)
    case Observe => Observed(before, after)
  }

  ghost predicate IsHistory(worlds: seq<World>, events: seq<Event>) {
    && |worlds| == |events| + 1
    && worlds[0].Valid() && worlds[0].Credible()
    && forall k | 0 <= k < |events| :: Happens(worlds[k], events[k], worlds[k + 1])
  }

  // --- What every event keeps ---

  lemma ArrivalMonotone(before: RevisionState, after: RevisionState, i: nat)
    requires before.Valid(|before.spec|) && after.Valid(|before.spec|) && i < |before.spec|
    requires ReadinessArrives(before, after)
    ensures RoleReadinessAt(before, i).perRole <= RoleReadinessAt(after, i).perRole
    ensures RoleReadinessAt(before, i).usable <= RoleReadinessAt(after, i).usable
  {
    if AllRequiredPresent(before.required, before.ready) {
      assert AllRequiredPresent(after.required, after.ready);
    }
  }

  lemma EmptyNotReady(size: nat, i: nat)
    requires i < size
    ensures RoleReadinessAt(EmptyRevision(size), i) == NOT_READY
  {}

  lemma EmptyServesNothing(size: nat, past: seq<nat>, i: nat)
    requires |past| == size && i < size
    ensures RoleReadinessAt(Applied(EmptyRevision(size), past), i) == NOT_READY
  {
    assert !AllRequiredPresent(Applied(EmptyRevision(size), past).required, Applied(EmptyRevision(size), past).ready);
  }

  lemma CandidateCredible(world: World, active: Option<nat>, seen: Observation)
    requires world.Valid() && world.Credible() && (active.Some? ==> active.value < |world.history|)
    requires |seen.surge| == |seen.unschedulable| == |world.desired|
    ensures Credible(StateFor(world, active, seen))
  {
    hide HistoricalBaseline;
    var state, parked := StateFor(world, active, seen), Parked(world, active);
    assert forall k | 0 <= k < |parked| :: CreditObserved(parked[k].revision);
  }

  /** The step drains nothing old, or drains a revision that requires no live role with a budget for all its groups. */
  ghost predicate SparesRevision(world: World, event: Event)
    requires event.Step? && StepPossible(world, event)
  {
    var candidate := Candidate(world, event.active).revision;
    || event.past == candidate.spec
    || forall i | 0 <= i < |world.desired| && candidate.required[i] && world.desired[i] > 0 ::
         world.unavailable[i] < world.desired[i]
  }

  lemma SparedIsServing(world: World, event: Event)
    requires event.Step? && StepPossible(world, event) && SparesRevision(world, event)
    ensures SparesServing(StateFor(world, event.active, event.observation), event.past)
  {
    hide HistoricalBaseline, ValidateUpdateStep;
  }

  lemma EventKeepsWorld(before: World, event: Event, after: World)
    requires before.Valid() && before.Credible() && Happens(before, event, after)
    ensures after.Valid() && after.Credible()
    ensures after.desired == before.desired && after.unavailable == before.unavailable
  {
    hide ValidateUpdateStep, StateFor;
  }

  // --- Every history ---

  ghost predicate UsedFallback(events: seq<Event>, k: nat)
    requires k <= |events|
  {
    exists j | 0 <= j < k :: events[j].Step? && events[j].kind == UnavailableFallback
  }

  lemma {:induction false} HistoryKeepsWorld(worlds: seq<World>, events: seq<Event>, k: nat)
    requires IsHistory(worlds, events) && k <= |events|
    ensures worlds[k].Valid() && worlds[k].Credible()
    ensures worlds[k].desired == worlds[0].desired && worlds[k].unavailable == worlds[0].unavailable
    decreases k
  {
    hide Happens;
    if k > 0 {
      HistoryKeepsWorld(worlds, events, k - 1);
      assert Happens(worlds[k - 1], events[k - 1], worlds[k]);
      EventKeepsWorld(worlds[k - 1], events[k - 1], worlds[k]);
    }
  }

  /** No step up to k drains a revision whose policy permits an outage. */
  ghost predicate SparesRevisions(worlds: seq<World>, events: seq<Event>, k: nat)
    requires |worlds| == |events| + 1 && k <= |events|
  {
    forall j | 0 <= j < k && events[j].Step? && StepPossible(worlds[j], events[j]) ::
      SparesRevision(worlds[j], events[j])
  }
}
