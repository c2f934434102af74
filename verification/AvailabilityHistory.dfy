/**
 * Availability over real time. However old revisions are picked, readiness is
 * delayed and Ready groups are deleted first, no event of a history takes any
 * role, wanted or removed, further below its floor.
 */
module AvailabilityHistory {
  import opened Roles
  import opened CoordinationWindow
  import opened RolloutState
  import opened DrainBudget
  import opened Planner
  import opened StepValidator
  import opened StepSafety
  import opened RolloutHistory
  import opened RemovedRoles
  import opened RoleAvailability

  // --- What a role has ---

  function Supply(revisions: seq<RevisionState>, desired: seq<nat>, i: nat): RoleReadiness
    requires AllValid(revisions, |desired|) && i < |desired|
  {
    if |revisions| == 0 then NOT_READY
    else Supply(revisions[..|revisions| - 1], desired, i).Plus(Supplied(revisions[|revisions| - 1], desired, i))
  }

  /** What role i has over all revisions. */
  function WorldCapacity(world: World, i: nat, measure: Measure): nat
    requires world.Valid() && i < |world.desired|
  {
    Amount(Supply(Revisions(world.history), world.desired, i).Plus(RoleReadinessAt(world.target, i)), measure)
  }

  /** The planner input with every old revision parked. */
  function AllParked(world: World): (state: RolloutState)
    requires world.Valid()
    ensures state.Valid() && state.desired == world.desired && |state.config| == |world.desired|
  {
    var size := |world.desired|;
    StateFor(world, None, Observation(Zeros(size), seq(size, _ => false), [], false))
  }

  /** What role i has to keep. */
  function WorldFloor(world: World, i: nat): nat
    requires world.Valid() && i < |world.desired|
  {
    RoleFloor(AllParked(world), world.target, i)
  }

  lemma {:induction false} ParkedIsSupply(snapshot: Snapshot, parked: seq<RevisionState>, i: nat)
    requires snapshot.Valid() && i < snapshot.Size()
    requires AllValid(parked, snapshot.Size()) && snapshot.parkedReady[i] == NOT_READY
    ensures IncludeAllParked(snapshot, parked).parkedReady[i] == Supply(parked, snapshot.state.desired, i)
    decreases |parked|
  {
    hide RoleReadinessAt, RolesOverlap;
    if |parked| > 0 {
      ParkedIsSupply(snapshot, parked[..|parked| - 1], i);
    }
  }

  lemma SnapshotSupply(state: RolloutState, i: nat)
    requires state.Valid() && i < |state.config|
    ensures SnapshotFor(state).parkedReady[i] == Supply(state.parkedOld, state.desired, i)
  {
    var size, overlaps := |state.config|, RolesOverlap(state.activeOld.required, state.desired);
    var active := Snapshot(
      state, state.activeOld.spec, if overlaps then seq(size, _ => 0) else state.activeOld.spec,
      seq(size, _ => NOT_READY), overlaps, TargetReadyProgress(state, state.target.ready));
    ParkedIsSupply(active, state.parkedOld, i);
  }

  lemma SupplyLast(revisions: seq<RevisionState>, desired: seq<nat>, i: nat)
    requires AllValid(revisions, |desired|) && i < |desired| && |revisions| > 0
    ensures var n := |revisions| - 1;
            Supply(revisions, desired, i) == Supply(revisions[..n], desired, i).Plus(Supplied(revisions[n], desired, i))
  {}

  lemma OthersLast(revisions: seq<RevisionState>, active: nat)
    requires active < |revisions| - 1
    ensures var n, others := |revisions| - 1, Others(revisions, active);
            others[..n - 1] == Others(revisions[..n], active) && others[n - 1] == revisions[n]
  {}

  lemma PlusExchange(a: RoleReadiness, b: RoleReadiness, c: RoleReadiness)
    ensures a.Plus(b).Plus(c) == a.Plus(c).Plus(b)
  {}

  lemma {:induction false} SupplyWithout(revisions: seq<RevisionState>, desired: seq<nat>, i: nat, active: nat)
    requires AllValid(revisions, |desired|) && i < |desired| && active < |revisions|
    ensures AllValid(Others(revisions, active), |desired|)
    ensures Supply(revisions, desired, i) ==
            Supply(Others(revisions, active), desired, i).Plus(Supplied(revisions[active], desired, i))
    decreases |revisions|
  {
    hide Supplied, Supply, Others;
    var n, others := |revisions| - 1, Others(revisions, active);
    SupplyLast(revisions, desired, i);
    if active == n {
      assert others == revisions[..n];
    } else {
      SupplyWithout(revisions[..n], desired, i, active);
      OthersLast(revisions, active);
      SupplyLast(others, desired, i);
      PlusExchange(Supply(others[..n - 1], desired, i), Supplied(revisions[active], desired, i),
                   Supplied(revisions[n], desired, i));
    }
  }

  lemma EmptySupplies(desired: seq<nat>, past: seq<nat>, i: nat)
    requires |past| == |desired| && i < |desired|
    ensures Supplied(EmptyRevision(|desired|), desired, i) == NOT_READY
    ensures Supplied(Applied(EmptyRevision(|desired|), past), desired, i) == NOT_READY
  {
    EmptyNotReady(|desired|, i);
    EmptyServesNothing(|desired|, past, i);
    hide RoleReadinessAt;
  }

  /** The planner's view of role i, whichever candidate was picked. */
  lemma CapacitySplits(world: World, active: Option<nat>, seen: Observation, i: nat, measure: Measure)
    requires world.Valid() && (active.Some? ==> active.value < |world.history|)
    requires |seen.surge| == |seen.unschedulable| == |world.desired| && i < |world.desired|
    ensures var state := StateFor(world, active, seen);
            RoleCapacity(state, state.activeOld, state.target, i, measure) == WorldCapacity(world, i, measure)
  {
    hide HistoricalBaseline, RoleReadinessAt, Supply, Supplied, SnapshotFor;
    var state, revisions := StateFor(world, active, seen), Revisions(world.history);
    SnapshotSupply(state, i);
    if active.Some? {
      SupplyWithout(revisions, world.desired, i, active.value);
      assert state.parkedOld == Others(revisions, active.value);
    } else {
      assert state.parkedOld == revisions;
      EmptySupplies(world.desired, world.desired, i);
    }
  }

  lemma CapacitySplitsIssued(world: World, event: Event, i: nat, measure: Measure)
    requires event.Step? && StepPossible(world, event) && i < |world.desired|
    ensures var state := StateFor(world, event.active, event.observation);
            RoleCapacity(state, Applied(state.activeOld, event.past), Applied(state.target, event.next), i, measure) ==
            WorldCapacity(Issue(world, event), i, measure)
  {
    hide HistoricalBaseline, ValidateUpdateStep, RoleReadinessAt, Supply, Supplied, SnapshotFor;
    var state, revisions := StateFor(world, event.active, event.observation), Revisions(world.history);
    SnapshotSupply(state, i);
    if event.active.Some? {
      var k, after := event.active.value, Revisions(Issue(world, event).history);
      SupplyWithout(after, world.desired, i, k);
      assert state.parkedOld == Others(revisions, k);
      assert Others(after, k) == Others(revisions, k);
      assert after[k] == Applied(state.activeOld, event.past);
    } else {
      assert state.parkedOld == revisions;
      EmptySupplies(world.desired, event.past, i);
    }
  }

  // --- The baseline ---

  /**
   * Role i of a revision with groups left counts towards the baseline, unless the
   * revision shares a role with the target.
   */
  ghost predicate Baselines(desired: seq<nat>, revision: OldRevision, i: nat)
    requires |revision.initial| == |desired| && i < |desired| && desired[i] == 0
  {
    Sum(revision.revision.spec) > 0 && !exists j | 0 <= j < |desired| :: revision.initial[j] > 0 && desired[j] > 0
  }

  lemma BaselineNext(desired: seq<nat>, history: seq<OldRevision>, i: nat)
    requires forall k | 0 <= k < |history| :: |history[k].initial| == |desired|
    requires i < |desired| && desired[i] == 0 && |history| > 0
    ensures var n := |history| - 1;
            HistoricalBaseline(desired, history)[i] ==
            Max(HistoricalBaseline(desired, history[..n])[i],
                if Baselines(desired, history[n], i) then history[n].initial[i] else 0)
  {
    hide Sum;
  }

  /** The baseline is the largest of those the given revisions count with. */
  ghost predicate IsBaseline(desired: seq<nat>, history: seq<OldRevision>, i: nat, baseline: nat)
    requires forall k | 0 <= k < |history| :: |history[k].initial| == |desired|
    requires i < |desired| && desired[i] == 0
  {
    && (forall k | 0 <= k < |history| && Baselines(desired, history[k], i) :: history[k].initial[i] <= baseline)
    && (baseline == 0 || exists k | 0 <= k < |history| ::
          Baselines(desired, history[k], i) && history[k].initial[i] == baseline)
  }

  lemma BaselineExtends(desired: seq<nat>, history: seq<OldRevision>, i: nat, before: nat, baseline: nat)
    requires forall k | 0 <= k < |history| :: |history[k].initial| == |desired|
    requires i < |desired| && desired[i] == 0 && |history| > 0
    requires IsBaseline(desired, history[..|history| - 1], i, before)
    requires var last := history[|history| - 1];
             baseline == Max(before, if Baselines(desired, last, i) then last.initial[i] else 0)
    ensures IsBaseline(desired, history, i, baseline)
  {
    hide Baselines;
    var n := |history| - 1;
    forall k | 0 <= k < |history| && Baselines(desired, history[k], i)
      ensures history[k].initial[i] <= baseline
    {
      assert k < n ==> history[..n][k] == history[k];
    }
    if baseline > 0 && baseline == before {
      var k :| 0 <= k < n && Baselines(desired, history[..n][k], i) && history[..n][k].initial[i] == before;
      assert history[k] == history[..n][k];
    } else if baseline > 0 {
      assert Baselines(desired, history[n], i) && history[n].initial[i] == baseline;
    }
  }

  lemma {:induction false} BaselineIs(desired: seq<nat>, history: seq<OldRevision>, i: nat)
    requires forall k | 0 <= k < |history| :: |history[k].initial| == |desired|
    requires i < |desired| && desired[i] == 0
    ensures IsBaseline(desired, history, i, HistoricalBaseline(desired, history)[i])
    decreases |history|
  {
    if |history| > 0 {
      hide HistoricalBaseline, Baselines, IsBaseline;
      var n := |history| - 1;
      BaselineIs(desired, history[..n], i);
      BaselineNext(desired, history, i);
      BaselineExtends(desired, history, i, HistoricalBaseline(desired, history[..n])[i],
                      HistoricalBaseline(desired, history)[i]);
    }
  }

  /** Revisions that go on counting were counted before. */
  ghost predicate Continued(desired: seq<nat>, after: seq<OldRevision>, before: seq<OldRevision>, i: nat)
    requires forall k | 0 <= k < |after| :: |after[k].initial| == |desired|
    requires forall k | 0 <= k < |before| :: |before[k].initial| == |desired|
    requires i < |desired| && desired[i] == 0
  {
    forall k | 0 <= k < |after| && Baselines(desired, after[k], i) ::
      exists j | 0 <= j < |before| :: Baselines(desired, before[j], i) && before[j].initial[i] == after[k].initial[i]
  }

  lemma BaselineShrinks(desired: seq<nat>, after: seq<OldRevision>, before: seq<OldRevision>, i: nat)
    requires forall k | 0 <= k < |after| :: |after[k].initial| == |desired|
    requires forall k | 0 <= k < |before| :: |before[k].initial| == |desired|
    requires i < |desired| && desired[i] == 0 && Continued(desired, after, before, i)
    ensures HistoricalBaseline(desired, after)[i] <= HistoricalBaseline(desired, before)[i]
  {
    BaselineIs(desired, after, i);
    BaselineIs(desired, before, i);
    hide Baselines, HistoricalBaseline;
  }

  lemma EmptyIsNoBaseline(desired: seq<nat>, i: nat)
    requires i < |desired| && desired[i] == 0
    ensures !Baselines(desired, OldRevision(Zeros(|desired|), EmptyRevision(|desired|)), i)
  {
    SumZero(Zeros(|desired|));
  }

  lemma DrainContinues(world: World, event: Event, i: nat)
    requires world.Valid() && event.Step? && (event.active.Some? ==> event.active.value < |world.history|)
    requires |event.past| == |event.next| == |world.desired| && i < |world.desired| && world.desired[i] == 0
    requires event.active.Some? ==> Sum(event.past) <= Sum(world.history[event.active.value].revision.spec)
    ensures var after := Issue(world, event);
            Continued(world.desired, [Candidate(after, None)] + Parked(after, None),
                      [Candidate(world, event.active)] + Parked(world, event.active), i)
  {
    var after := Issue(world, event);
    var now := [Candidate(after, None)] + Parked(after, None);
    var before := [Candidate(world, event.active)] + Parked(world, event.active);
    EmptyIsNoBaseline(world.desired, i);
    hide Sum;
    forall k | 0 <= k < |now| && Baselines(world.desired, now[k], i)
      ensures exists j | 0 <= j < |before| ::
                Baselines(world.desired, before[j], i) && before[j].initial[i] == now[k].initial[i]
    {
      var h := k - 1;
      var j :=
        if event.active.None? || h < event.active.value then k else if h == event.active.value then 0 else h;
      assert Baselines(world.desired, before[j], i) && before[j].initial[i] == now[k].initial[i];
    }
  }

  /** After a step the baseline has not grown, whichever candidate was picked. */
  lemma IssueBaseline(world: World, event: Event, i: nat)
    requires event.Step? && StepPossible(world, event) && i < |world.desired| && world.desired[i] == 0
    ensures AllParked(Issue(world, event)).baseline[i] <= StateFor(world, event.active, event.observation).baseline[i]
  {
    hide HistoricalBaseline, ValidateUpdateStep, Sum, Baselines, Continued, OldDrain, SnapshotFor;
    var state, after := StateFor(world, event.active, event.observation), Issue(world, event);
    if event.active.Some? {
      AcceptedOldDrain(state, UpdateStep(event.past, event.next, event.kind));
      SumBelow(event.past, state.activeOld.spec);
    }
    DrainContinues(world, event, i);
    BaselineShrinks(world.desired, [Candidate(after, None)] + Parked(after, None),
                    [Candidate(world, event.active)] + Parked(world, event.active), i);
  }

  /** Before the step every candidate leads to the same baseline. */
  lemma CandidateBaseline(world: World, active: Option<nat>, seen: Observation, i: nat)
    requires world.Valid() && (active.Some? ==> active.value < |world.history|)
    requires |seen.surge| == |seen.unschedulable| == |world.desired| && i < |world.desired| && world.desired[i] == 0
    ensures StateFor(world, active, seen).baseline[i] <= AllParked(world).baseline[i]
  {
    var now := [Candidate(world, active)] + Parked(world, active);
    var before := [Candidate(world, None)] + Parked(world, None);
    EmptyIsNoBaseline(world.desired, i);
    hide HistoricalBaseline, Sum;
    forall k | 0 <= k < |now| && Baselines(world.desired, now[k], i)
      ensures exists j | 0 <= j < |before| ::
                Baselines(world.desired, before[j], i) && before[j].initial[i] == now[k].initial[i]
    {
      var j :=
        if active.None? then k else if k == 0 then active.value + 1 else if k - 1 < active.value then k else k + 1;
      assert Baselines(world.desired, before[j], i) && before[j].initial[i] == now[k].initial[i];
    }
    BaselineShrinks(world.desired, now, before, i);
  }

  // --- The floor ---

  lemma UnreplacedMonotone(less: nat, more: nat, part: nat, whole: nat)
    requires less <= more && part <= whole && whole > 0
    ensures less - less * part / whole <= more - more * part / whole
  {
    var q, d := less * part / whole, more - less;
    MulMonotone(part, whole, d);
    assert less * part < (q + 1) * whole;
    assert more * part == less * part + d * part;
    assert (q + d + 1) * whole == (q + 1) * whole + d * whole;
    var r := more * part / whole;
    if r > q + d {
      MulMonotone(q + d + 1, r, whole);
      assert false;
    }
  }

  /** Smaller baselines and more target readiness only lower the floor. */
  lemma FloorMonotone(a: RolloutState, b: RolloutState, ta: RevisionState, tb: RevisionState, i: nat)
    requires Removed(a, i) && Removed(b, i) && a.desired == b.desired && a.baseline[i] <= b.baseline[i]
    requires a.config[i].maxUnavailable == b.config[i].maxUnavailable
    requires ta.Valid(|a.config|) && tb.Valid(|b.config|) && ta.required == tb.required && Below(tb.ready, ta.ready)
    ensures RemovedFloor(a, ta, i) <= RemovedFloor(b, tb, i)
  {
    var v, w := ProgressOf(b, tb), ProgressOf(b, ta);
    assert ProgressOf(a, ta) == w;
    CreditOf(a, ta, i);
    CreditOf(b, tb, i);
    if SomeDesired(b) {
      ProgressBelow(b, tb, ta);
      hide ProgressOf, Replaced;
      CreditMonotone(v, w, b.baseline[i]);
      UnreplacedMonotone(a.baseline[i], b.baseline[i], Min(w.least, w.target), w.target);
    }
  }

  // --- One event ---

  /** How far role i is below its floor. */
  function WorldShortfall(world: World, i: nat, measure: Measure, fallback: bool): nat
    requires world.Valid() && i < |world.desired|
  {
    Shortfall(Eased(WorldFloor(world, i), if fallback then UnavailableFallback else Ordinary),
              WorldCapacity(world, i, measure))
  }

  /** The target requires exactly the roles it wants groups of. */
  ghost predicate TargetRequiresDesired(world: World) {
    world.Valid() && forall i | 0 <= i < |world.desired| :: world.target.required[i] <==> world.desired[i] > 0
  }

  /** The floor of a role the target wants is the same for every candidate and at all times. */
  lemma WantedFloor(world: World, active: Option<nat>, seen: Observation, target: RevisionState, i: nat)
    requires world.Valid() && (active.Some? ==> active.value < |world.history|) && target.Valid(|world.desired|)
    requires |seen.surge| == |seen.unschedulable| == |world.desired| && i < |world.desired| && world.desired[i] > 0
    ensures RoleFloor(StateFor(world, active, seen), target, i) == Max(0, Minus(world.desired[i], world.unavailable[i]))
    ensures WorldFloor(world, i) == Max(0, Minus(world.desired[i], world.unavailable[i]))
  {
    hide HistoricalBaseline;
  }

  lemma RemovedFloors(world: World, event: Event, i: nat)
    requires event.Step? && StepPossible(world, event) && i < |world.desired| && world.desired[i] == 0
    ensures var state := StateFor(world, event.active, event.observation);
            && RemovedFloor(state, state.target, i) <= RemovedFloor(AllParked(world), world.target, i)
            && RemovedFloor(AllParked(Issue(world, event)), Issue(world, event).target, i) <=
               RemovedFloor(state, Applied(state.target, event.next), i)
  {
    var state, after := StateFor(world, event.active, event.observation), Issue(world, event);
    CandidateBaseline(world, event.active, event.observation, i);
    IssueBaseline(world, event, i);
    hide HistoricalBaseline, ValidateUpdateStep, RemovedFloor;
    FloorMonotone(state, AllParked(world), world.target, world.target, i);
    FloorMonotone(AllParked(after), state, after.target, after.target, i);
  }

  /** The floor the step was held to lies between those of the worlds around it. */
  lemma StepFloors(world: World, event: Event, i: nat)
    requires event.Step? && StepPossible(world, event) && i < |world.desired|
    ensures var state := StateFor(world, event.active, event.observation);
            && RoleFloor(state, state.target, i) <= WorldFloor(world, i)
            && WorldFloor(Issue(world, event), i) <= RoleFloor(state, Applied(state.target, event.next), i)
  {
    hide HistoricalBaseline, ValidateUpdateStep, RemovedFloor, Removed;
    var state, after := StateFor(world, event.active, event.observation), Issue(world, event);
    if world.desired[i] == 0 {
      RemovedFloors(world, event, i);
    } else {
      hide RoleFloor, WorldFloor;
      WantedFloor(world, event.active, event.observation, state.target, i);
      WantedFloor(world, event.active, event.observation, Applied(state.target, event.next), i);
      WantedFloor(after, event.active, event.observation, after.target, i);
    }
  }

  lemma StepKeepsShortfall(world: World, event: Event, i: nat, measure: Measure, fallback: bool)
    requires event.Step? && StepPossible(world, event) && world.Credible() && i < |world.desired|
    requires event.kind == UnavailableFallback ==> fallback
    requires world.desired[i] > 0 && measure.ServingGroups? ==> SparesRevision(world, event)
    requires world.desired[i] == 0 ==> TargetRequiresDesired(world)
    ensures WorldShortfall(Issue(world, event), i, measure, fallback) <= WorldShortfall(world, i, measure, fallback)
  {
    hide HistoricalBaseline, ValidateUpdateStep, RoleCapacity, WorldCapacity, RoleFloor, WorldFloor, SparesServing;
    var state := StateFor(world, event.active, event.observation);
    StepFloors(world, event, i);
    CandidateCredible(world, event.active, event.observation);
    CapacitySplits(world, event.active, event.observation, i, measure);
    CapacitySplitsIssued(world, event, i, measure);
    if world.desired[i] > 0 && measure.ServingGroups? {
      SparedIsServing(world, event);
    }
    hide SparesRevision;
    AcceptedKeepsRole(state, event.past, event.next, event.kind,
                      if fallback then UnavailableFallback else Ordinary, i, measure);
  }

  lemma {:induction false} SupplyMonotone(
    before: seq<RevisionState>, after: seq<RevisionState>, desired: seq<nat>, i: nat
  )
    requires |before| == |after| && AllValid(before, |desired|) && AllValid(after, |desired|) && i < |desired|
    requires forall k | 0 <= k < |before| :: ReadinessArrives(before[k], after[k])
    ensures Supply(before, desired, i).usable <= Supply(after, desired, i).usable
    ensures Supply(before, desired, i).perRole <= Supply(after, desired, i).perRole
    decreases |before|
  {
    hide RoleReadinessAt, RolesOverlap;
    if |before| > 0 {
      var n := |before| - 1;
      SupplyMonotone(before[..n], after[..n], desired, i);
      ArrivalMonotone(before[n], after[n], i);
    }
  }

  lemma ObservedCapacity(before: World, after: World, i: nat, measure: Measure)
    requires Observed(before, after) && i < |before.desired|
    ensures WorldCapacity(before, i, measure) <= WorldCapacity(after, i, measure)
  {
    SupplyMonotone(Revisions(before.history), Revisions(after.history), before.desired, i);
    ArrivalMonotone(before.target, after.target, i);
    hide Supply, RoleReadinessAt;
  }

  lemma ObservedFloor(before: World, after: World, i: nat)
    requires Observed(before, after) && i < |before.desired|
    ensures WorldFloor(after, i) <= WorldFloor(before, i)
  {
    var seen := Observation(Zeros(|before.desired|), seq(|before.desired|, _ => false), [], false);
    if before.desired[i] == 0 {
      SameBaseline(before, after, i);
      hide HistoricalBaseline, RemovedFloor;
      FloorMonotone(AllParked(after), AllParked(before), after.target, before.target, i);
    } else {
      hide HistoricalBaseline, WorldFloor, RoleFloor;
      WantedFloor(before, None, seen, before.target, i);
      WantedFloor(after, None, seen, after.target, i);
    }
  }

  lemma ObservationKeepsShortfall(before: World, after: World, i: nat, measure: Measure, fallback: bool)
    requires Observed(before, after) && i < |before.desired|
    ensures WorldShortfall(after, i, measure, fallback) <= WorldShortfall(before, i, measure, fallback)
  {
    hide WorldFloor, WorldCapacity;
    ObservedCapacity(before, after, i, measure);
    ObservedFloor(before, after, i);
  }

  lemma SameBaseline(before: World, after: World, i: nat)
    requires Observed(before, after) && i < |before.desired| && before.desired[i] == 0
    ensures AllParked(after).baseline[i] <= AllParked(before).baseline[i]
  {
    var now := [Candidate(after, None)] + Parked(after, None);
    var was := [Candidate(before, None)] + Parked(before, None);
    hide HistoricalBaseline, Sum;
    forall k | 0 <= k < |now| && Baselines(after.desired, now[k], i)
      ensures exists j | 0 <= j < |was| :: Baselines(after.desired, was[j], i) && was[j].initial[i] == now[k].initial[i]
    {
      assert Baselines(after.desired, was[k], i) && was[k].initial[i] == now[k].initial[i];
    }
    BaselineShrinks(after.desired, now, was, i);
  }

  // --- Every history ---

  lemma EventKeepsRequired(before: World, event: Event, after: World)
    requires before.Valid() && Happens(before, event, after) && TargetRequiresDesired(before)
    ensures TargetRequiresDesired(after)
  {
    hide ValidateUpdateStep, StateFor;
  }

  lemma {:induction false} HistoryKeepsRequired(worlds: seq<World>, events: seq<Event>, k: nat)
    requires IsHistory(worlds, events) && k <= |events| && TargetRequiresDesired(worlds[0])
    ensures TargetRequiresDesired(worlds[k])
    decreases k
  {
    hide Happens;
    if k > 0 {
      HistoryKeepsRequired(worlds, events, k - 1);
      assert Happens(worlds[k - 1], events[k - 1], worlds[k]);
      EventKeepsRequired(worlds[k - 1], events[k - 1], worlds[k]);
    }
  }

  /** What a history has to offer a role for the promise to cover it. */
  ghost predicate Covers(worlds: seq<World>, events: seq<Event>, k: nat, i: nat, measure: Measure) {
    && IsHistory(worlds, events) && k <= |events| && i < |worlds[0].desired|
    && (worlds[0].desired[i] > 0 && measure.ServingGroups? ==> SparesRevisions(worlds, events, k))
    && (worlds[0].desired[i] == 0 ==> TargetRequiresDesired(worlds[0]))
  }

  lemma {:induction false} HistoryShortfall(
    worlds: seq<World>, events: seq<Event>, k: nat, i: nat, measure: Measure, fallback: bool
  )
    requires Covers(worlds, events, k, i, measure) && (UsedFallback(events, k) ==> fallback)
    ensures worlds[k].Valid() && worlds[k].desired == worlds[0].desired
    ensures WorldShortfall(worlds[k], i, measure, fallback) <= WorldShortfall(worlds[0], i, measure, fallback)
    decreases k
  {
    hide WorldFloor, WorldCapacity, StepPossible, Issue, Observed;
    HistoryKeepsWorld(worlds, events, k);
    if k > 0 {
      HistoryKeepsWorld(worlds, events, k - 1);
      if worlds[0].desired[i] == 0 {
        HistoryKeepsRequired(worlds, events, k - 1);
      }
      HistoryShortfall(worlds, events, k - 1, i, measure, fallback);
      assert Happens(worlds[k - 1], events[k - 1], worlds[k]);
      hide TargetRequiresDesired, SparesRevision;
      match events[k - 1]
      case Step(_, _, _, _, _) => StepKeepsShortfall(worlds[k - 1], events[k - 1], i, measure, fallback);
      case Observe => ObservationKeepsShortfall(worlds[k - 1], worlds[k], i, measure, fallback);
    }
  }

  /**
   * Whole-history availability. However candidates are picked, readiness is delayed
   * and Ready groups are deleted first, no role is ever further below its floor than
   * at the start, in Ready or in serving groups; all fallback steps together lower a
   * floor above one by one group.
   */
  lemma HistoryKeepsRole(worlds: seq<World>, events: seq<Event>, k: nat, i: nat, measure: Measure)
    requires Covers(worlds, events, k, i, measure)
    ensures worlds[k].Valid() && worlds[k].desired == worlds[0].desired
    ensures var used := UsedFallback(events, k);
            WorldShortfall(worlds[k], i, measure, used) <= WorldShortfall(worlds[0], i, measure, used)
  {
    HistoryShortfall(worlds, events, k, i, measure, UsedFallback(events, k));
  }

  /** The floor of a role the target wants never changes: it keeps the smaller of its start and its floor. */
  lemma HistoryKeepsLive(worlds: seq<World>, events: seq<Event>, k: nat, i: nat, measure: Measure)
    requires Covers(worlds, events, k, i, measure) && worlds[0].desired[i] > 0
    ensures worlds[k].Valid() && i < |worlds[k].desired|
    ensures var floor := Max(0, Minus(worlds[0].desired[i], worlds[0].unavailable[i]));
            WorldCapacity(worlds[k], i, measure) >=
              Min(WorldCapacity(worlds[0], i, measure),
                  if UsedFallback(events, k) && floor > 1 then floor - 1 else floor)
  {
    HistoryKeepsWorld(worlds, events, k);
    HistoryKeepsRole(worlds, events, k, i, measure);
    var seen := Observation(Zeros(|worlds[0].desired|), seq(|worlds[0].desired|, _ => false), [], false);
    hide WorldCapacity, WorldFloor, RoleFloor, IsHistory, UsedFallback;
    WantedFloor(worlds[0], None, seen, worlds[0].target, i);
    WantedFloor(worlds[k], None, seen, worlds[k].target, i);
  }

  /** A role that starts at or above its floor is never taken below it, fallbacks excepted, nor out of service. */
  lemma HistoryMeetsFloor(worlds: seq<World>, events: seq<Event>, k: nat, i: nat, measure: Measure)
    requires Covers(worlds, events, k, i, measure)
    requires WorldCapacity(worlds[0], i, measure) >= WorldFloor(worlds[0], i)
    ensures worlds[k].Valid() && worlds[k].desired == worlds[0].desired
    ensures WorldCapacity(worlds[k], i, measure) + (if UsedFallback(events, k) then 1 else 0) >=
            WorldFloor(worlds[k], i)
    ensures WorldFloor(worlds[k], i) > 0 ==> WorldCapacity(worlds[k], i, measure) > 0
  {
    HistoryKeepsRole(worlds, events, k, i, measure);
    hide WorldCapacity, WorldFloor, IsHistory, UsedFallback;
  }
}
