/**
 * A rollout without renamed roles never gets stuck. The argument compares the
 * least-grown target role, which only its surge ceiling can hold back, with
 * the least-drained old role, which only its availability floor can hold back.
 */
module Liveness {
  import opened Roles
  import opened CoordinationWindow
  import opened RolloutState
  import opened DrainBudget
  import opened Planner
  import opened StepValidator
  import opened Simulation

  // --- The least-grown role ---

  /** Role m is short of its target, at its limit, and least advanced of all. */
  ghost predicate GrowthBlockedAt(next: seq<nat>, desired: seq<nat>, limits: seq<nat>, m: nat) {
    && |next| == |desired| == |limits| && m < |next|
    && next[m] < desired[m]
    && limits[m] == next[m]
    && (forall i | 0 <= i < |next| && desired[i] > 0 :: next[m] * desired[i] <= limits[i] * desired[m])
    && (forall i | 0 <= i < |next| && desired[i] > 0 :: next[m] * desired[i] <= next[i] * desired[m])
  }

  ghost predicate GrowthStuck(next: seq<nat>, desired: seq<nat>, limits: seq<nat>) {
    GrowthProposal(next, desired, limits) && BoundGrowing(next, desired, limits) == next
  }

  lemma GrowingAt(next: seq<nat>, desired: seq<nat>, limits: seq<nat>, i: nat)
    requires GrowthStuck(next, desired, limits) && i < |next| && desired[i] > 0
    ensures var w := WindowFor(desired, limits);
            && w.target > 0 && 0 < w.denominator <= desired[i]
            && next[i] == Max(next[i], Min(limits[i], MaxProgressWithin(w, desired[i])))
            && w.least * desired[i] <= limits[i] * w.target
  {
    WindowDescribes(desired, limits);
    assert BoundGrowing(next, desired, limits)[i] == next[i];
  }

  /** If nothing may grow although something should, some least-advanced role is at its limit. */
  lemma StuckGrowthBlocked(next: seq<nat>, desired: seq<nat>, limits: seq<nat>) returns (m: nat)
    requires GrowthStuck(next, desired, limits) && next != desired
    ensures GrowthBlockedAt(next, desired, limits, m)
  {
    var w := WindowFor(desired, limits);
    WindowDescribes(desired, limits);
    BoundGrowingEffective(next, desired, limits);
    var short :| 0 <= short < |next| && next[short] != desired[short];
    GrowingAt(next, desired, limits, short);
    m :| 0 <= m < |next| && desired[m] == w.target && next[m] == limits[m] == w.least;
    if next[m] == desired[m] {
      KeepsLeast(w, desired[short], desired[short]);
      MulMonotone(limits[short], desired[short], w.target);
      CancelAtMost(desired[short], limits[short], w.target);
      assert false;
    }
  }

  /** A role tied with the least-advanced one has window room, so it too is at its limit. */
  lemma TiedRoleBlocked(next: seq<nat>, desired: seq<nat>, limits: seq<nat>, m: nat, i: nat)
    requires GrowthStuck(next, desired, limits) && GrowthBlockedAt(next, desired, limits, m)
    requires i < |next| && next[i] < desired[i] && next[i] * desired[m] <= next[m] * desired[i]
    ensures limits[i] == next[i]
  {
    var w := WindowFor(desired, limits);
    GrowingAt(next, desired, limits, i);
    GrowingAt(next, desired, limits, m);
    LeastAtBlocked(next, desired, limits, m);
    FractionTransitive(next[i], desired[i], next[m], desired[m], w.least, w.target);
    EdgeAdvances(w, desired[i], next[i]);
  }

  lemma LeastAtBlocked(next: seq<nat>, desired: seq<nat>, limits: seq<nat>, m: nat)
    requires GrowthStuck(next, desired, limits) && GrowthBlockedAt(next, desired, limits, m)
    ensures var w := WindowFor(desired, limits); w.target > 0 && next[m] * w.target == w.least * desired[m]
  {
    var w := WindowFor(desired, limits);
    GrowingAt(next, desired, limits, m);
    WindowDescribes(desired, limits);
    var k :| 0 <= k < |desired| && desired[k] == w.target && limits[k] == w.least;
  }

  /** One replica short in the least-advanced role leaves the window wide open. */
  lemma LastReplicaBlocksAll(next: seq<nat>, desired: seq<nat>, limits: seq<nat>, m: nat, i: nat)
    requires GrowthStuck(next, desired, limits) && GrowthBlockedAt(next, desired, limits, m)
    requires next[m] + 1 == desired[m] && i < |next| && desired[i] > 0
    ensures limits[i] == next[i]
  {
    var w := WindowFor(desired, limits);
    LeastAtBlocked(next, desired, limits, m);
    GrowingAt(next, desired, limits, m);
    GrowingAt(next, desired, limits, i);
    WholeRoleWithin(w, desired[m], desired[i]);
  }

  lemma WholeRoleWithin(w: Window, size: nat, replicas: nat)
    requires w.target > 0 && 0 < w.denominator <= size
    requires (size - 1) * w.target == w.least * size
    ensures MaxProgressWithin(w, replicas) == replicas
  {
    LastReplicaGap(w.target, w.least, w.denominator, size);
    MulMonotone(w.target * w.denominator, w.least * w.denominator + w.target, replicas);
    WithinWindowIff(w, replicas, replicas);
  }

  lemma LastReplicaGap(t: nat, a: nat, d: nat, size: nat)
    requires t > 0 && 0 < d <= size && (size - 1) * t == a * size
    ensures t * d <= a * d + t
  {
    var gap := t - a;
    assert size * gap == t by {
      assert size * gap == size * t - a * size;
      assert (size - 1) * t == size * t - t;
    }
    if gap < 0 {
      MulMonotone(gap, 0, size);
    }
    MulMonotone(d, size, gap);
    assert d * gap == t * d - a * d;
  }

  // --- The least-drained role ---

  /** Every role's proposed drain is at least the fraction a/t of its initial size. */
  ghost predicate DrainsAtLeast(initial: seq<nat>, proposed: seq<int>, a: nat, t: nat) {
    && |initial| == |proposed| && t > 0
    && forall j | 0 <= j < |initial| && initial[j] > 0 :: a * initial[j] <= DrainedFrom(initial[j], proposed[j]) * t
  }

  lemma DrainsAtLeastLower(initial: seq<nat>, less: seq<int>, more: seq<int>, a: nat, t: nat)
    requires DrainsAtLeast(initial, more, a, t) && Below(less, more)
    ensures DrainsAtLeast(initial, less, a, t)
  {
    forall j | 0 <= j < |initial| && initial[j] > 0
      ensures a * initial[j] <= DrainedFrom(initial[j], less[j]) * t
    {
      MulMonotone(DrainedFrom(initial[j], more[j]), DrainedFrom(initial[j], less[j]), t);
    }
  }

  lemma WindowDrainsAtLeast(initial: seq<nat>, proposed: seq<int>, a: nat, t: nat)
    requires DrainsAtLeast(initial, proposed, a, t)
    requires exists j | 0 <= j < |initial| :: initial[j] > 0
    ensures var w := WindowFor(initial, Drained(initial, proposed)); w.target > 0 && a * w.target <= w.least * t
  {
    var drained := Drained(initial, proposed);
    var w := WindowFor(initial, drained);
    WindowDescribes(initial, drained);
    var k :| 0 <= k < |initial| && initial[k] == w.target && drained[k] == w.least;
    assert drained[k] == DrainedFrom(initial[k], proposed[k]);
  }

  /** A role no further drained than everyone's proposal may take one more step. */
  lemma DrainRoom(past: seq<nat>, initial: seq<nat>, proposed: seq<int>, excess: seq<nat>, a: nat, t: nat, i: nat)
    requires DrainProposal(past, initial, proposed, excess) && DrainsAtLeast(initial, proposed, a, t)
    requires i < |past| && 0 < past[i] <= initial[i]
    requires (initial[i] - past[i]) * t <= a * initial[i]
    requires proposed[i] < past[i]
    ensures BoundReleasing(past, initial, proposed, excess)[i] < past[i]
  {
    var w := WindowFor(initial, Drained(initial, proposed));
    WindowDrainsAtLeast(initial, proposed, a, t);
    DrainWindow(initial, proposed, i);
    FractionTransitive(initial[i] - past[i], initial[i], a, t, w.least, w.target);
    EdgeAdvances(w, initial[i], initial[i] - past[i]);
    ReleasingAt(past, initial, proposed, excess, i);
  }

  /** With every proposal one replica of role k short of empty, the window stops nothing. */
  lemma DrainOpen(past: seq<nat>, initial: seq<nat>, proposed: seq<int>, excess: seq<nat>, k: nat)
    requires DrainProposal(past, initial, proposed, excess)
    requires k < |past| && initial[k] > 0 && DrainsAtLeast(initial, proposed, initial[k] - 1, initial[k])
    ensures BoundReleasing(past, initial, proposed, excess) == proposed
  {
    var w := WindowFor(initial, Drained(initial, proposed));
    WindowDrainsAtLeast(initial, proposed, initial[k] - 1, initial[k]);
    forall i | 0 <= i < |past|
      ensures BoundReleasing(past, initial, proposed, excess)[i] == proposed[i]
    {
      ReleasingAt(past, initial, proposed, excess, i);
      DrainWindow(initial, proposed, k);
      WholeRoleReached(w, initial[k], initial[i]);
    }
  }

  lemma WholeRoleReached(w: Window, size: nat, replicas: nat)
    requires w.target > 0 && 0 < w.denominator <= size
    requires (size - 1) * w.target <= w.least * size
    ensures MaxProgressWithin(w, replicas) == replicas
  {
    var v := Window(size - 1, size, w.denominator);
    assert (size - 1) * size == v.least * size;
    WholeRoleWithin(v, size, replicas);
    EdgeMonotone(v, w, replicas);
    WithinWindowIff(w, replicas, MaxProgressWithin(w, replicas));
  }

  /** Role k keeps everything it has, and every proposal drains at least as large a fraction as k already did. */
  ghost predicate DrainBlockedAt(past: seq<nat>, initial: seq<nat>, proposed: seq<int>, k: nat) {
    && |past| == |initial| == |proposed| && k < |past|
    && 0 < past[k] <= initial[k] && proposed[k] == past[k]
    && DrainsAtLeast(initial, proposed, initial[k] - past[k], initial[k])
  }

  /** When even the least-drained role is proposed to go, every role goes. */
  lemma FullDrainCompletes(past: seq<nat>, initial: seq<nat>, proposed: seq<int>, excess: seq<nat>, i: nat)
    requires DrainProposal(past, initial, proposed, excess) && i < |past| && initial[i] > 0
    requires var w := WindowFor(initial, Drained(initial, proposed)); w.least == w.target
    ensures BoundReleasing(past, initial, proposed, excess)[i] == 0
  {
    var w := WindowFor(initial, Drained(initial, proposed));
    DrainWindow(initial, proposed, i);
    CancelAtMost(initial[i], DrainedFrom(initial[i], proposed[i]), w.target);
    KeepsLeast(w, initial[i], initial[i]);
    ReleasingAt(past, initial, proposed, excess, i);
  }

  lemma StuckDrainBlocked(past: seq<nat>, initial: seq<nat>, proposed: seq<int>, excess: seq<nat>) returns (k: nat)
    requires DrainProposal(past, initial, proposed, excess) && Below(past, initial)
    requires BoundReleasing(past, initial, proposed, excess) == past
    requires exists i | 0 <= i < |past| :: past[i] > 0
    ensures DrainBlockedAt(past, initial, proposed, k)
  {
    hide BoundReleasing;
    var drained := Drained(initial, proposed);
    var w := WindowFor(initial, drained);
    var live :| 0 <= live < |past| && past[live] > 0;
    BoundReleasingEffective(past, initial, proposed, excess);
    WindowDescribes(initial, drained);
    k :| 0 <= k < |past| && initial[k] == w.target && past[k] == proposed[k] && drained[k] == w.least;
    assert w.least == initial[k] - past[k];
    if past[k] == 0 {
      FullDrainCompletes(past, initial, proposed, excess, live);
      assert false;
    }
    WindowIsLowerBound(initial, proposed);
  }

  lemma WindowIsLowerBound(initial: seq<nat>, proposed: seq<int>)
    requires |initial| == |proposed|
    ensures var w := WindowFor(initial, Drained(initial, proposed));
            w.target > 0 ==> DrainsAtLeast(initial, proposed, w.least, w.target)
  {
    var drained := Drained(initial, proposed);
    WindowDescribes(initial, drained);
    assert forall j | 0 <= j < |initial| :: drained[j] == DrainedFrom(initial[j], proposed[j]);
  }

  // --- Comparing the two ---

  /** Every budget of a live role allows some progress. */
  ghost predicate Budgeted(r: Rollout)
    requires r.Valid()
  {
    forall i | 0 <= i < r.Size() && r.desired[i] > 0 :: r.config[i].maxSurge + r.config[i].maxUnavailable > 0
  }

  /** A role short of its target and at its limit is at its surge ceiling. */
  ghost predicate CeilingLimits(r: Rollout, past: seq<nat>, next: seq<nat>, limits: seq<nat>)
    requires r.Valid() && |past| == |next| == |limits| == r.Size()
  {
    forall i | 0 <= i < r.Size() && next[i] < r.desired[i] && limits[i] == next[i] ::
      past[i] > 0 && past[i] + next[i] >= r.Ceiling(i)
  }

  /** What the minimum drain targets keep: each floor, and a last group only for the sake of some floor. */
  ghost predicate MinimumShape(r: Rollout, past: seq<nat>, next: seq<nat>, minimum: seq<int>)
    requires r.Valid() && |past| == |next| == r.Size()
  {
    && |minimum| == r.Size()
    && (forall i | 0 <= i < r.Size() :: r.Need(past, next, i) <= minimum[i] <= past[i])
    && (forall i | 0 <= i < r.Size() :: minimum[i] == past[i] > 1 ==> r.Need(past, next, i) == past[i])
    && ((exists i | 0 <= i < r.Size() :: minimum[i] > 0) ==> exists i | 0 <= i < r.Size() :: r.Need(past, next, i) > 0)
  }

  /** Completeness only ever lifts a vanishing role back to its last group. */
  ghost predicate CompletionOf(windowed: seq<int>, completed: seq<int>, past: seq<nat>) {
    && |windowed| == |completed| == |past|
    && Below(windowed, completed) && Below(completed, past)
    && (forall i | 0 <= i < |past| && completed[i] != windowed[i] :: windowed[i] == 0 && completed[i] == 1)
    && (completed != windowed ==> exists i | 0 <= i < |past| :: windowed[i] > 0)
  }

  /** A role at its surge ceiling has drained no larger a fraction than it has grown. */
  lemma CeilingDrainedBehind(initial: nat, desired: nat, past: nat, next: nat, surge: nat)
    requires desired <= initial && past <= initial && past + next >= initial + surge
    ensures (initial - past) * desired <= next * initial
  {
    MulMonotone(initial - past, next, desired);
    MulMonotone(desired, initial, next);
  }

  /** A role at its availability floor has drained at least as large a fraction as it has grown. */
  lemma FloorDrainedAhead(initial: nat, desired: nat, past: nat, next: nat, unavailable: nat)
    requires desired <= initial && past <= initial && past + next + unavailable <= desired
    ensures next * initial <= (initial - past) * desired
  {
    var extra := initial - desired;
    MulMonotone(next + extra, initial - past, desired);
    MulMonotone(next, desired, extra);
    assert (next + extra) * desired == next * desired + extra * desired;
    assert next * initial == next * desired + next * extra;
  }

  /** Draining exactly in step with growth at the floor leaves no unavailability and no surplus. */
  lemma FloorTieIsTight(initial: nat, desired: nat, past: nat, next: nat, unavailable: nat)
    requires desired <= initial && 0 < past <= initial && past + next + unavailable <= desired
    requires (initial - past) * desired <= next * initial
    ensures unavailable == 0 && initial == desired
  {
    var extra := initial - desired;
    MulMonotone(next + unavailable + extra, initial - past, desired);
    assert (next + unavailable + extra) * desired == next * desired + unavailable * desired + extra * desired;
    assert next * initial == next * desired + next * extra;
    NonNegativeProduct(unavailable, desired);
    if extra > 0 {
      MulStrict(next, desired, extra);
      assert false;
    }
    if unavailable > 0 {
      PositiveProduct(unavailable, desired);
      assert false;
    }
  }

  /** a/s <= b/t <= c/u <= d/v: the ends are ordered, and if they are equal so is everything between. */
  lemma ChainOfFractions(a: int, s: int, b: int, t: int, c: int, u: int, d: int, v: int)
    requires s > 0 && t > 0 && u > 0 && v > 0 && a * t <= b * s && b * u <= c * t && c * v <= d * u
    ensures a * v <= d * s
    ensures d * s <= a * v ==> d * u <= c * v && c * t <= b * u
  {
    FractionTransitive(a, s, b, t, c, u);
    FractionTransitive(a, s, c, u, d, v);
    if d * s <= a * v {
      FractionTransitive(d, v, a, s, c, u);
      FractionTransitive(c, u, d, v, a, s);
      FractionTransitive(c, u, a, s, b, t);
    }
  }

  /**
   * Without a scale-up, a least-drained role that keeps several groups for its
   * floor would itself still have surge room: it cannot be what stops the rollout.
   */
  lemma FloorCannotBlock(
    r: Rollout, past: seq<nat>, next: seq<nat>, limits: seq<nat>, m: nat, completed: seq<int>, excess: seq<nat>, k: nat
  )
    requires r.Bounded(past, next) && Budgeted(r)
    requires forall i | 0 <= i < r.Size() && r.desired[i] > 0 :: r.desired[i] <= r.initial[i]
    requires GrowthStuck(next, r.desired, limits) && GrowthBlockedAt(next, r.desired, limits, m)
    requires CeilingLimits(r, past, next, limits)
    requires DrainProposal(past, r.initial, completed, excess) && DrainBlockedAt(past, r.initial, completed, k)
    requires r.Need(past, next, k) == past[k]
    ensures BoundReleasing(past, r.initial, completed, excess)[m] < past[m]
  {
    hide BoundReleasing, BoundGrowing;
    var initial, desired := r.initial, r.desired;
    CeilingDrainedBehind(initial[m], desired[m], past[m], next[m], r.config[m].maxSurge);
    FloorDrainedAhead(initial[k], desired[k], past[k], next[k], r.config[k].maxUnavailable);
    ChainOfFractions(initial[m] - past[m], initial[m], next[m], desired[m], next[k], desired[k],
                     initial[k] - past[k], initial[k]);
    if completed[m] == past[m] {
      // The chain of fractions closes: every link is an equality.
      assert (initial[k] - past[k]) * initial[m] <= (initial[m] - past[m]) * initial[k];
      FloorTieIsTight(initial[k], desired[k], past[k], next[k], r.config[k].maxUnavailable);
      TiedRoleBlocked(next, desired, limits, m, k);
      assert false;
    }
    DrainRoom(past, initial, completed, excess, initial[k] - past[k], initial[k], m);
  }

  /**
   * A least-drained role down to its last group stops nothing either: the drain
   * window is then fully open, and whatever floor keeps that group alive leaves
   * its own role room to grow.
   */
  lemma LastGroupCannotBlock(
    r: Rollout, past: seq<nat>, next: seq<nat>, limits: seq<nat>, m: nat,
    minimum: seq<int>, completed: seq<int>, excess: seq<nat>, k: nat
  )
    requires r.Bounded(past, next) && Budgeted(r)
    requires GrowthStuck(next, r.desired, limits) && GrowthBlockedAt(next, r.desired, limits, m)
    requires CeilingLimits(r, past, next, limits)
    requires MinimumShape(r, past, next, minimum) && |excess| == r.Size()
    requires CompletionOf(BoundReleasing(past, r.initial, minimum, excess), completed, past)
    requires DrainBlockedAt(past, r.initial, completed, k) && past[k] == 1
    ensures BoundReleasing(past, r.initial, completed, excess) != past
  {
    hide BoundReleasing, BoundGrowing, DrainsAtLeast;
    var windowed := BoundReleasing(past, r.initial, minimum, excess);
    BoundReleasingEffective(past, r.initial, minimum, excess);
    DrainOpen(past, r.initial, completed, excess, k);
    if completed == past {
      DrainsAtLeastLower(r.initial, minimum, completed, r.initial[k] - 1, r.initial[k]);
      DrainOpen(past, r.initial, minimum, excess, k);
      var j := KeptForFloor(r, past, next, minimum, k);
      assert past[m] == 1;
      LastReplicaBlocksAll(next, r.desired, limits, m, j);
      assert false;
    }
  }

  /** If nothing at all may drain, some role is exactly at its floor, and so is every role with several groups. */
  lemma KeptForFloor(r: Rollout, past: seq<nat>, next: seq<nat>, minimum: seq<int>, k: nat) returns (j: nat)
    requires r.Bounded(past, next) && MinimumShape(r, past, next, minimum)
    requires CompletionOf(minimum, past, past) && k < r.Size() && past[k] > 0
    ensures j < r.Size() && r.Need(past, next, j) == past[j] > 0
    ensures forall i | 0 <= i < r.Size() && past[i] > 1 :: r.Need(past, next, i) == past[i]
  {
    assert minimum[k] > 0 || minimum != past;
    j :| 0 <= j < r.Size() && r.Need(past, next, j) > 0;
  }

  /** Without a scale-up, stuck growth always leaves an old drain possible. */
  lemma DrainNotStuck(
    r: Rollout, past: seq<nat>, next: seq<nat>, limits: seq<nat>, minimum: seq<int>, completed: seq<int>,
    excess: seq<nat>
  )
    requires r.Bounded(past, next) && Budgeted(r) && next != r.desired
    requires forall i | 0 <= i < r.Size() && r.desired[i] > 0 :: r.desired[i] <= r.initial[i]
    requires GrowthStuck(next, r.desired, limits) && CeilingLimits(r, past, next, limits)
    requires MinimumShape(r, past, next, minimum) && |excess| == r.Size()
    requires CompletionOf(BoundReleasing(past, r.initial, minimum, excess), completed, past)
    ensures BoundReleasing(past, r.initial, completed, excess) != past
  {
    hide BoundReleasing, BoundGrowing;
    var windowed := BoundReleasing(past, r.initial, minimum, excess);
    BoundReleasingEffective(past, r.initial, minimum, excess);
    var m := StuckGrowthBlocked(next, r.desired, limits);
    if BoundReleasing(past, r.initial, completed, excess) == past {
      var k := StuckDrainBlocked(past, r.initial, completed, excess);
      if past[k] == 1 {
        LastGroupCannotBlock(r, past, next, limits, m, minimum, completed, excess, k);
      } else {
        if minimum[k] < past[k] {
          DrainsAtLeastLower(r.initial, minimum, completed, r.initial[k] - past[k], r.initial[k]);
          DrainRoom(past, r.initial, minimum, excess, r.initial[k] - past[k], r.initial[k], k);
        }
        FloorCannotBlock(r, past, next, limits, m, completed, excess, k);
      }
    }
  }

  /** In a scale-up, a role above its ceiling always releases its excess. */
  lemma ExcessReleases(
    r: Rollout, past: seq<nat>, next: seq<nat>, minimum: seq<int>, completed: seq<int>, excess: seq<nat>, m: nat
  )
    requires r.Bounded(past, next) && m < r.Size() && |excess| == r.Size()
    requires next[m] < r.desired[m] && past[m] + next[m] > r.Ceiling(m) && excess[m] > 0
    requires MinimumShape(r, past, next, minimum)
    requires CompletionOf(BoundReleasing(past, r.initial, minimum, excess), completed, past)
    ensures BoundReleasing(past, r.initial, completed, excess) != past
  {
    hide BoundReleasing, WindowFor, MaxProgressWithin, NoneBehind, DrainedWithin;
    BoundReleasingEffective(past, r.initial, minimum, excess);
    BoundReleasingEffective(past, r.initial, completed, excess);
    ReleasingAt(past, r.initial, minimum, excess, m);
    ReleasingAt(past, r.initial, completed, excess, m);
    assert past[m] > 1;
    assert minimum[m] < past[m];
  }

  // --- The drain budget of a simulated state ---

  /** Every role of the target has a group. */
  ghost predicate TargetStarted(r: Rollout, next: seq<nat>)
    requires r.Valid() && |next| == r.Size()
  {
    forall i | 0 <= i < r.Size() && r.desired[i] > 0 :: next[i] > 0
  }

  ghost predicate OldComplete(r: Rollout, past: seq<nat>)
    requires r.Valid() && |past| == r.Size()
  {
    AllRequiredPresent(Positive(r.initial), past)
  }

  ghost predicate SimulatedRole(r: Rollout, past: seq<nat>, next: seq<nat>, role: RoleBudget, i: nat)
    requires r.Valid() && |past| == |next| == r.Size() && i < r.Size()
  {
    var serving := if OldComplete(r, past) then past[i] else 0;
    && role.serving == serving
    && role.replacement == ReadyCapacity(next[i], next[i])
    && role.excluded == (r.desired[i] == 0)
    && (r.desired[i] > 0 ==>
          && role.observed == ReadyCapacity(serving + next[i], past[i] + next[i])
          && role.floor == Max(0, Minus(r.desired[i], r.config[i].maxUnavailable)))
  }

  /** The old-side budget of a fully Ready state whose target has started. */
  ghost predicate SimulatedBudget(r: Rollout, past: seq<nat>, next: seq<nat>, budget: DrainBudget) {
    && r.Bounded(past, next) && TargetStarted(r, next)
    && budget.Valid() && budget.Size() == r.Size()
    && budget.revision == RevisionState(Positive(r.initial), past, past, past)
    && forall i | 0 <= i < r.Size() :: SimulatedRole(r, past, next, budget.roles[i], i)
  }

  lemma OldDrainSimulated(r: Rollout, past: seq<nat>, next: seq<nat>)
    requires r.Bounded(past, next) && r.Overlapping() && TargetStarted(r, next)
    ensures SimulatedBudget(r, past, next, OldDrain(r.Snapshot(past, next)))
  {
    hide SnapshotFor, SimulatedRole;
    var snapshot := r.Snapshot(past, next);
    forall i | 0 <= i < r.Size()
      ensures SimulatedRole(r, past, next, OldDrain(snapshot).roles[i], i)
    {
      OldRoleSimulated(r, past, next, i);
      assert OldDrain(snapshot).roles[i] == OldRoleBudget(snapshot, i);
    }
  }

  lemma OldRoleSimulated(r: Rollout, past: seq<nat>, next: seq<nat>, i: nat)
    requires r.Bounded(past, next) && r.Overlapping() && TargetStarted(r, next) && i < r.Size()
    ensures SimulatedRole(r, past, next, OldRoleBudget(r.Snapshot(past, next), i), i)
  {
    hide SnapshotFor, DisjointGrowthLimits, PhaseTargets;
    SimulatedSnapshot(r, past, next);
    var shared :| 0 <= shared < r.Size() && r.initial[shared] > 0 && r.desired[shared] > 0;
    assert Positive(r.desired)[shared];
    assert AllRequiredPresent(Positive(r.desired), next);
    assert r.Snapshot(past, next).parkedReady[i] == NOT_READY;
  }

  lemma SimulatedNeeds(r: Rollout, past: seq<nat>, next: seq<nat>, budget: DrainBudget, i: nat)
    requires SimulatedBudget(r, past, next, budget) && i < r.Size()
    ensures budget.IndividualNeed(i) == r.Need(past, next, i)
    ensures budget.ServingNeed(i) == if OldComplete(r, past) && !budget.allowOutage then r.Need(past, next, i) else 0
  {
    assert SimulatedRole(r, past, next, budget.roles[i], i);
  }

  lemma SimulatedMinimum(r: Rollout, past: seq<nat>, next: seq<nat>, budget: DrainBudget, i: nat)
    requires SimulatedBudget(r, past, next, budget) && i < r.Size()
    ensures var last := budget.MustServe() && past[i] > 0;
            budget.MinimumTarget(i) == if last then Max(1, r.Need(past, next, i)) else r.Need(past, next, i)
  {
    SimulatedNeeds(r, past, next, budget, i);
    assert SimulatedRole(r, past, next, budget.roles[i], i);
    if budget.MustServe() {
      var j :| 0 <= j < r.Size() && budget.ServingNeed(j) > 0;
      SimulatedNeeds(r, past, next, budget, j);
    }
  }

  lemma SimulatedMinimumShape(r: Rollout, past: seq<nat>, next: seq<nat>, budget: DrainBudget)
    requires SimulatedBudget(r, past, next, budget) && !budget.Preserves(Zeros(r.Size()))
    ensures MinimumShape(r, past, next, budget.MinimumTargets())
  {
    var minimum := budget.MinimumTargets();
    forall i | 0 <= i < r.Size()
      ensures minimum[i] == budget.MinimumTarget(i)
      ensures minimum[i] > r.Need(past, next, i) ==> minimum[i] == 1 && budget.MustServe()
      ensures r.Need(past, next, i) <= minimum[i] <= past[i]
    {
      SimulatedMinimum(r, past, next, budget, i);
    }
    if budget.MustServe() {
      var j :| 0 <= j < r.Size() && budget.ServingNeed(j) > 0;
      SimulatedNeeds(r, past, next, budget, j);
      assert r.Need(past, next, j) > 0;
    }
  }

  /** With the target started, the minimum targets are themselves a safe drain. */
  lemma SimulatedMinimumPreserves(r: Rollout, past: seq<nat>, next: seq<nat>, budget: DrainBudget)
    requires SimulatedBudget(r, past, next, budget)
    ensures budget.Preserves(budget.MinimumTargets())
  {
    if !budget.Preserves(Zeros(r.Size())) {
      forall i | 0 <= i < r.Size()
        ensures budget.RolePreserved(budget.MinimumTargets(), i)
      {
        SimulatedRolePreserved(r, past, next, budget, i);
      }
    }
  }

  lemma SimulatedRolePreserved(r: Rollout, past: seq<nat>, next: seq<nat>, budget: DrainBudget, i: nat)
    requires SimulatedBudget(r, past, next, budget) && !budget.Preserves(Zeros(r.Size())) && i < r.Size()
    ensures budget.RolePreserved(budget.MinimumTargets(), i)
  {
    assert SimulatedRole(r, past, next, budget.roles[i], i);
    assert budget.MinimumTargets()[i] == budget.MinimumTarget(i);
    SimulatedMinimum(r, past, next, budget, i);
    if r.desired[i] > 0 {
      if OldComplete(r, past) && budget.MustServe() {
        ServingKept(r, past, next, budget, i);
      } else {
        SimulatedNeeds(r, past, next, budget, i);
      }
    }
  }

  /** A complete old revision that must serve keeps serving at its minimum targets. */
  lemma ServingKept(r: Rollout, past: seq<nat>, next: seq<nat>, budget: DrainBudget, i: nat)
    requires SimulatedBudget(r, past, next, budget) && !budget.Preserves(Zeros(r.Size())) && i < r.Size()
    requires OldComplete(r, past) && budget.MustServe()
    ensures budget.ServingAfter(budget.MinimumTargets(), i) == budget.MinimumTargets()[i]
  {
    var minimum := budget.MinimumTargets();
    forall j | 0 <= j < r.Size()
      ensures budget.ReadyLeft(minimum, j) == minimum[j]
      ensures Positive(r.initial)[j] ==> minimum[j] > 0
    {
      assert SimulatedRole(r, past, next, budget.roles[j], j);
      SimulatedMinimum(r, past, next, budget, j);
      assert minimum[j] == budget.MinimumTarget(j);
    }
  }

  // --- Old drains ---

  lemma ZeroDrainCoordinated(snapshot: Snapshot)
    requires snapshot.Valid() && Below(snapshot.state.activeOld.spec, snapshot.state.initial)
    ensures CoordinatedOldTargets(snapshot, Zeros(snapshot.Size())) == Zeros(snapshot.Size())
  {
    var state, excess, zeros := snapshot.state, ExcessVector(snapshot), Zeros(snapshot.Size());
    var drained := Drained(state.initial, zeros);
    assert drained == state.initial;
    WindowDescribes(state.initial, drained);
    forall i | 0 <= i < snapshot.Size()
      ensures BoundReleasing(state.activeOld.spec, state.initial, zeros, excess)[i] == 0
    {
      ReleasingAt(state.activeOld.spec, state.initial, zeros, excess, i);
      if state.initial[i] > 0 {
        FullDrainCompletes(state.activeOld.spec, state.initial, zeros, excess, i);
      }
    }
    assert BoundDrainingSnapshotTargets(snapshot, zeros) == zeros;
    assert CompletedTargets(snapshot, zeros) == zeros;
  }

  lemma CompletedIsCompletion(snapshot: Snapshot, windowed: seq<int>)
    requires snapshot.Valid() && |windowed| == snapshot.Size()
    requires Below(windowed, snapshot.state.activeOld.spec)
    requires forall i | 0 <= i < |windowed| :: 0 <= windowed[i]
    ensures CompletionOf(windowed, CompletedTargets(snapshot, windowed), snapshot.state.activeOld.spec)
  {
    CompletedBetween(snapshot, windowed);
  }

  /** With the target started, the planner's old drain is the coordinated form of the minimum targets. */
  lemma OldTargetsCoordinated(r: Rollout, past: seq<nat>, next: seq<nat>)
    requires r.Bounded(past, next) && r.Overlapping() && TargetStarted(r, next)
    ensures var snapshot := r.Snapshot(past, next);
            FurthestOldTargets(snapshot) == CoordinatedOldTargets(snapshot, OldDrain(snapshot).MinimumTargets())
  {
    var snapshot := r.Snapshot(past, next);
    var budget := OldDrain(snapshot);
    OldDrainSimulated(r, past, next);
    SimulatedMinimumPreserves(r, past, next, budget);
    CoordinatedOldTargetsCoordinated(snapshot, budget.MinimumTargets());
    PreservesUpwardClosed(budget, budget.MinimumTargets(), CoordinatedOldTargets(snapshot, budget.MinimumTargets()));
  }

  /** If nothing old has to stay, everything old goes. */
  lemma WholeRevisionGoes(snapshot: Snapshot)
    requires snapshot.Valid() && Below(snapshot.state.activeOld.spec, snapshot.state.initial)
    requires OldDrain(snapshot).Preserves(Zeros(snapshot.Size()))
    ensures FurthestOldTargets(snapshot) == Zeros(snapshot.Size())
  {
    hide OldDrain, CoordinatedOldTargets;
    ZeroDrainCoordinated(snapshot);
  }

  lemma FinishedBudget(r: Rollout, past: seq<nat>, budget: DrainBudget)
    requires SimulatedBudget(r, past, r.desired, budget)
    ensures budget.Preserves(Zeros(r.Size()))
  {
    forall i | 0 <= i < r.Size()
      ensures budget.RolePreserved(Zeros(r.Size()), i)
    {
      assert SimulatedRole(r, past, r.desired, budget.roles[i], i);
    }
  }

  /** A finished target releases the whole old revision. */
  lemma FinishedTargetReleasesOld(r: Rollout, past: seq<nat>)
    requires r.Bounded(past, r.desired) && r.Overlapping()
    ensures FurthestOldTargets(r.Snapshot(past, r.desired)) == Zeros(r.Size())
  {
    hide OldDrain, FurthestOldTargets, SnapshotFor, SimulatedRole;
    OldDrainSimulated(r, past, r.desired);
    FinishedBudget(r, past, OldDrain(r.Snapshot(past, r.desired)));
    WholeRevisionGoes(r.Snapshot(past, r.desired));
  }

  ghost predicate ScalesUp(r: Rollout)
    requires r.Valid()
  {
    exists i | 0 <= i < r.Size() :: r.desired[i] > r.initial[i]
  }

  lemma SimulatedDemand(r: Rollout, past: seq<nat>, next: seq<nat>)
    requires r.Bounded(past, next) && r.Overlapping() && Sum(past) > 0
    ensures DemandExceedsBaseline(r.Snapshot(past, next)) == ScalesUp(r)
  {
    var state := r.State(past, next);
    SumBelow(past, r.initial);
    assert forall i | 0 <= i < r.Size() :: r.desired[i] > 0 ==> state.baseline[i] == r.initial[i];
    if ScalesUp(r) {
      var i :| 0 <= i < r.Size() && r.desired[i] > r.initial[i];
      assert state.desired[i] > state.baseline[i];
    }
  }

  lemma SimulatedExcess(r: Rollout, past: seq<nat>, next: seq<nat>, i: nat)
    requires r.Bounded(past, next) && r.Overlapping() && Sum(past) > 0
    requires ScalesUp(r) && i < r.Size() && r.desired[i] > 0
    ensures ExcessVector(r.Snapshot(past, next))[i] == Max(0, Minus(past[i] + next[i], r.Ceiling(i)))
  {
    SimulatedSnapshot(r, past, next);
    SimulatedDemand(r, past, next);
    assert r.Snapshot(past, next).SurgeCeiling(i) == r.Ceiling(i);
  }

  /**
   * While old groups remain and the started target cannot grow, the old
   * revision drains, unless a scale-up stops exactly at a ceiling.
   */
  lemma OldDrains(r: Rollout, past: seq<nat>, next: seq<nat>, limits: seq<nat>, m: nat)
    requires r.Bounded(past, next) && r.Overlapping() && Budgeted(r) && TargetStarted(r, next) && Sum(past) > 0
    requires GrowthStuck(next, r.desired, limits) && CeilingLimits(r, past, next, limits)
    requires GrowthBlockedAt(next, r.desired, limits, m)
    requires ScalesUp(r) ==> past[m] + next[m] != r.Ceiling(m)
    ensures FurthestOldTargets(r.Snapshot(past, next)) != past
  {
    hide FurthestOldTargets, CoordinatedOldTargets, BoundGrowing;
    var snapshot := r.Snapshot(past, next);
    OldTargetsCoordinated(r, past, next);
    OldDrainSimulated(r, past, next);
    if ScalesUp(r) {
      SimulatedExcess(r, past, next, m);
    }
    DrainsFurther(r, past, next, limits, m, snapshot);
  }

  lemma DrainsFurther(r: Rollout, past: seq<nat>, next: seq<nat>, limits: seq<nat>, m: nat, snapshot: Snapshot)
    requires r.Bounded(past, next) && Budgeted(r) && Sum(past) > 0
    requires GrowthStuck(next, r.desired, limits) && CeilingLimits(r, past, next, limits)
    requires GrowthBlockedAt(next, r.desired, limits, m)
    requires snapshot.Valid() && snapshot.state.activeOld.spec == past && snapshot.state.initial == r.initial
    requires SimulatedBudget(r, past, next, OldDrain(snapshot))
    requires ScalesUp(r) ==> past[m] + next[m] > r.Ceiling(m) && ExcessVector(snapshot)[m] > 0
    ensures CoordinatedOldTargets(snapshot, OldDrain(snapshot).MinimumTargets()) != past
  {
    hide BoundReleasing, BoundGrowing, CompletedTargets, ExcessVector, OldDrain, SimulatedBudget, GrowthStuck,
      GrowthBlockedAt, CeilingLimits;
    var budget, minimum := OldDrain(snapshot), OldDrain(snapshot).MinimumTargets();
    if budget.Preserves(Zeros(r.Size())) {
      ZeroDrainCoordinated(snapshot);
      SumZero(past);
    } else {
      SimulatedMinimumShape(r, past, next, budget);
      MinimumDrains(r, past, next, limits, m, snapshot, minimum);
    }
  }

  lemma MinimumDrains(
    r: Rollout, past: seq<nat>, next: seq<nat>, limits: seq<nat>, m: nat, snapshot: Snapshot, minimum: seq<nat>
  )
    requires r.Bounded(past, next) && Budgeted(r) && |minimum| == snapshot.Size()
    requires GrowthStuck(next, r.desired, limits) && CeilingLimits(r, past, next, limits)
    requires GrowthBlockedAt(next, r.desired, limits, m)
    requires snapshot.Valid() && snapshot.state.activeOld.spec == past && snapshot.state.initial == r.initial
    requires MinimumShape(r, past, next, minimum)
    requires ScalesUp(r) ==> past[m] + next[m] > r.Ceiling(m) && ExcessVector(snapshot)[m] > 0
    ensures CoordinatedOldTargets(snapshot, minimum) != past
  {
    hide BoundReleasing, BoundGrowing, CompletedTargets, ExcessVector, CeilingLimits, CompletionOf;
    var excess := ExcessVector(snapshot);
    BoundReleasingEffective(past, r.initial, minimum, excess);
    var windowed := BoundReleasing(past, r.initial, minimum, excess);
    CompletedIsCompletion(snapshot, windowed);
    if ScalesUp(r) {
      ExcessReleases(r, past, next, minimum, CompletedTargets(snapshot, windowed), excess, m);
    } else {
      DrainNotStuck(r, past, next, limits, minimum, CompletedTargets(snapshot, windowed), excess);
    }
  }

  // --- Bootstrap surge ---

  lemma ProjectBudgetMonotone(count: nat, less: nat, more: nat, steps: nat)
    requires less <= more
    ensures ProjectBudget(count, less, steps) <= ProjectBudget(count, more, steps)
  {
    if count > 0 && less > 0 && steps > 0 {
      var q := (count * less + steps - 1) / steps;
      MulMonotone(less, more, count);
      AtMostQuotientIff(q, count * less + steps - 1, steps);
      AtMostQuotientIff(q, count * more + steps - 1, steps);
    }
  }

  lemma BootstrapResurges(r: Rollout, past: seq<nat>, next: seq<nat>)
    requires r.Bounded(past, next) && r.NotRenamed()
    ensures var snapshot := r.Snapshot(past, next);
            Resurged(r, past, next, BootstrapSnapshot(snapshot, r.desired, HardNewReplicaLimits(snapshot)))
  {}

  /** Borrowing raises no limit below the ordinary one, and a borrower's limit by a whole slot. */
  lemma BootstrapRaises(r: Rollout, past: seq<nat>, next: seq<nat>, i: nat)
    requires r.Bounded(past, next) && r.NotRenamed() && i < r.Size()
    ensures var snapshot := r.Snapshot(past, next);
            var limits := HardNewReplicaLimits(snapshot);
            var raised := HardNewReplicaLimits(BootstrapSnapshot(snapshot, r.desired, limits));
            && limits[i] <= raised[i]
            && (Borrows(snapshot, r.desired, limits, i) ==> raised[i] > next[i])
  {
    var snapshot := r.Snapshot(past, next);
    var limits := HardNewReplicaLimits(snapshot);
    var bootstrap := BootstrapSnapshot(snapshot, r.desired, limits);
    BootstrapResurges(r, past, next);
    SimulatedSnapshot(r, past, next);
    RaisedLimit(r, past, next, bootstrap, i);
    if Borrows(snapshot, r.desired, limits, i) {
      assert snapshot.SurgeCeiling(i) == r.Ceiling(i);
      assert bootstrap.state.config[i].maxSurge == r.config[i].maxSurge + Max(1, Minus(past[i], r.Ceiling(i)) + 1);
    }
  }

  lemma RaisedLimit(r: Rollout, past: seq<nat>, next: seq<nat>, s: Snapshot, i: nat)
    requires r.Bounded(past, next) && r.NotRenamed() && Resurged(r, past, next, s) && i < r.Size()
    ensures s.Valid()
    ensures HardNewReplicaLimits(r.Snapshot(past, next))[i] <= HardNewReplicaLimits(s)[i]
    ensures next[i] < r.desired[i] &&
            Max(r.desired[i], r.initial[i]) + s.state.config[i].maxSurge > past[i] + next[i] ==>
              s.state.config[i].maxSurge + r.config[i].maxUnavailable > 0 ==> HardNewReplicaLimits(s)[i] > next[i]
  {
    hide HardNewReplicaLimits, ProjectBudget, StepCount;
    var count, steps := Max(r.initial[i], r.desired[i]), StepCount(r.initial, r.desired);
    var budget, raised :=
      r.config[i].maxSurge + r.config[i].maxUnavailable, s.state.config[i].maxSurge + r.config[i].maxUnavailable;
    SimulatedLimit(r, past, next, r.Snapshot(past, next), i);
    SimulatedLimit(r, past, next, s, i);
    ProjectBudgetMonotone(count, budget, raised, steps);
    StepCountCovers(r.initial, r.desired, i);
    if count > 0 && raised > 0 {
      ProjectBudgetPositive(count, raised, steps);
    }
  }

  /** No role's limit is a smaller fraction than what role i has issued. */
  ghost predicate LeastIssued(next: seq<nat>, desired: seq<nat>, limits: seq<nat>, i: nat) {
    && |next| == |desired| == |limits| && i < |next|
    && forall j | 0 <= j < |next| && desired[j] > 0 :: next[i] * desired[j] <= limits[j] * desired[i]
  }

  lemma UnstartedLeastIssued(next: seq<nat>, desired: seq<nat>, limits: seq<nat>, i: nat)
    requires |next| == |desired| == |limits| && i < |next| && next[i] == 0
    ensures LeastIssued(next, desired, limits, i)
  {
    forall j | 0 <= j < |next| && desired[j] > 0
      ensures next[i] * desired[j] <= limits[j] * desired[i]
    {
      NonNegativeProduct(limits[j], desired[i]);
    }
  }

  lemma LeastIssuedRaised(next: seq<nat>, desired: seq<nat>, limits: seq<nat>, raised: seq<nat>, i: nat)
    requires LeastIssued(next, desired, limits, i) && Below(limits, raised)
    ensures LeastIssued(next, desired, raised, i)
  {
    forall j | 0 <= j < |next| && desired[j] > 0
      ensures next[i] * desired[j] <= raised[j] * desired[i]
    {
      MulMonotone(limits[j], raised[j], desired[i]);
    }
  }

  /** A borrower no role is behind actually grows. */
  lemma BorrowerGrows(next: seq<nat>, desired: seq<nat>, raised: seq<nat>, i: nat)
    requires GrowthProposal(next, desired, raised) && i < |next| && next[i] < desired[i] && next[i] < raised[i]
    requires LeastIssued(next, desired, raised, i)
    ensures BoundGrowing(next, desired, raised)[i] > next[i]
  {
    var w := WindowFor(desired, raised);
    WindowDescribes(desired, raised);
    var k :| 0 <= k < |next| && desired[k] == w.target && raised[k] == w.least;
    EdgeAdvances(w, desired[i], next[i]);
  }

  lemma SimulatedPlan(r: Rollout, past: seq<nat>, next: seq<nat>)
    requires r.Bounded(past, next) && r.NotRenamed()
    ensures var plan := PrepareRolloutPlan(r.State(past, next));
            && Prepared(plan)
            && plan.snapshot == r.Snapshot(past, next)
            && plan.phase == r.desired
            && plan.limits == HardNewReplicaLimits(plan.snapshot)
            && DisjointSurplusStep(plan.snapshot).None?
  {
    hide HardNewReplicaLimits, FurthestOldTargets, OrdinaryNext, PhaseTargets, FurthestNewTargets;
    SimulatedSnapshot(r, past, next);
  }

  /** A blocked first group, or a least-advanced role exactly at its ceiling in a scale-up, gets its slot. */
  lemma BootstrapMoves(r: Rollout, past: seq<nat>, next: seq<nat>, plan: Plan, i: nat)
    requires r.Bounded(past, next) && r.NotRenamed() && i < r.Size()
    requires plan.Valid() && plan.snapshot == r.Snapshot(past, next) && plan.phase == r.desired
    requires plan.limits == HardNewReplicaLimits(plan.snapshot)
    requires Borrows(plan.snapshot, plan.phase, plan.limits, i)
    requires LeastIssued(next, r.desired, plan.limits, i)
    ensures plan.BootstrapStep().Some?
  {
    hide BoundGrowing, HardNewReplicaLimits;
    var bootstrap := BootstrapSnapshot(plan.snapshot, plan.phase, plan.limits);
    var raised := HardNewReplicaLimits(bootstrap);
    BootstrapResurges(r, past, next);
    LimitsBetween(r, past, next, bootstrap);
    forall j | 0 <= j < r.Size()
      ensures plan.limits[j] <= raised[j] && (j == i ==> raised[j] > next[j])
    {
      BootstrapRaises(r, past, next, j);
    }
    LeastIssuedRaised(next, r.desired, plan.limits, raised, i);
    BorrowerGrows(next, r.desired, raised, i);
  }

  // --- The theorem ---

  lemma UnstartedRoleAtLimit(next: seq<nat>, desired: seq<nat>, limits: seq<nat>, i: nat)
    requires GrowthStuck(next, desired, limits) && i < |next| && next[i] == 0 < desired[i]
    ensures limits[i] == 0
  {
    hide MaxProgressWithin, WindowFor, BoundGrowing;
    GrowingAt(next, desired, limits, i);
    EdgeAdvances(WindowFor(desired, limits), desired[i], 0);
  }

  lemma PreservedWithoutFloor(budget: DrainBudget, remaining: seq<int>)
    requires budget.Valid() && |remaining| == budget.Size()
    requires forall i | 0 <= i < budget.Size() :: budget.roles[i].floor == 0
    ensures budget.Preserves(remaining)
  {
    assert forall i | 0 <= i < budget.Size() :: budget.RolePreserved(remaining, i);
  }

  lemma EmptyTargetReleasesOld(r: Rollout, past: seq<nat>, next: seq<nat>)
    requires r.Bounded(past, next) && Sum(r.desired) == 0
    ensures FurthestOldTargets(r.Snapshot(past, next)) == Zeros(r.Size())
  {
    hide FurthestOldTargets;
    var snapshot := r.Snapshot(past, next);
    SumZero(r.desired);
    SimulatedSnapshot(r, past, next);
    forall i | 0 <= i < r.Size()
      ensures OldDrain(snapshot).roles[i].floor == 0
    {
      assert snapshot.AvailabilityFloor(i) == 0;
    }
    PreservedWithoutFloor(OldDrain(snapshot), Zeros(r.Size()));
    WholeRevisionGoes(snapshot);
  }

  /** What a rollout is for: nothing old left, everything desired issued. */
  ghost predicate Finished(r: Rollout, past: seq<nat>, next: seq<nat>)
    requires r.Valid()
  {
    past == Zeros(r.Size()) && next == r.desired
  }

  lemma SimulatedCeilingLimits(r: Rollout, past: seq<nat>, next: seq<nat>)
    requires r.Bounded(past, next) && r.NotRenamed() && Budgeted(r)
    ensures CeilingLimits(r, past, next, HardNewReplicaLimits(r.Snapshot(past, next)))
  {
    hide HardNewReplicaLimits;
    var limits := HardNewReplicaLimits(r.Snapshot(past, next));
    forall i | 0 <= i < r.Size() && next[i] < r.desired[i] && limits[i] == next[i]
      ensures past[i] > 0 && past[i] + next[i] >= r.Ceiling(i)
    {
      BlockedAtCeiling(r, past, next, i);
    }
  }

  /** Both bootstrap conditions, in terms of counts. */
  lemma SimulatedBorrows(r: Rollout, past: seq<nat>, next: seq<nat>, limits: seq<nat>, i: nat)
    requires r.Bounded(past, next) && r.Overlapping() && Budgeted(r) && Sum(past) > 0 && |limits| == r.Size()
    requires i < r.Size()
    requires next[i] < r.desired[i] && limits[i] == next[i]
    requires next[i] == 0 || (ScalesUp(r) && past[i] + next[i] == r.Ceiling(i))
    ensures Borrows(r.Snapshot(past, next), r.desired, limits, i)
  {
    SimulatedSnapshot(r, past, next);
    SimulatedDemand(r, past, next);
    assert r.Snapshot(past, next).SurgeCeiling(i) == r.Ceiling(i);
  }

  lemma StuckGrowthMoves(r: Rollout, past: seq<nat>, next: seq<nat>, plan: Plan)
    requires r.Bounded(past, next) && r.NotRenamed() && Budgeted(r) && next != r.desired
    requires plan.Valid() && plan.snapshot == r.Snapshot(past, next) && plan.phase == r.desired
    requires plan.limits == HardNewReplicaLimits(plan.snapshot)
    requires GrowthStuck(next, r.desired, plan.limits)
    ensures plan.BootstrapStep().Some? || FurthestOldTargets(plan.snapshot) != past
  {
    hide BoundGrowing, HardNewReplicaLimits, FurthestOldTargets, Borrows, Sum;
    SimulatedCeilingLimits(r, past, next);
    var m := StuckGrowthBlocked(next, r.desired, plan.limits);
    SumZero(past);
    SumZero(r.initial);
    SumZero(r.desired);
    if !TargetStarted(r, next) {
      var i :| 0 <= i < r.Size() && next[i] == 0 < r.desired[i];
      UnstartedRoleAtLimit(next, r.desired, plan.limits, i);
      UnstartedLeastIssued(next, r.desired, plan.limits, i);
      SimulatedBorrows(r, past, next, plan.limits, i);
      BootstrapMoves(r, past, next, plan, i);
    } else if ScalesUp(r) && past[m] + next[m] == r.Ceiling(m) {
      SimulatedBorrows(r, past, next, plan.limits, m);
      BootstrapMoves(r, past, next, plan, m);
    } else {
      OldDrains(r, past, next, plan.limits, m);
    }
  }

  /**
   * No deadlock: short of its end, a fully Ready rollout without renamed roles
   * always has an ordinary step or one bootstrap slot.
   */
  lemma NeverStuck(r: Rollout, past: seq<nat>, next: seq<nat>)
    requires r.Bounded(past, next) && r.NotRenamed() && Budgeted(r)
    requires !Finished(r, past, next)
    ensures var step := ComputeNextStep(r.State(past, next));
            step.Some? && (step.value.kind == Ordinary || step.value.kind == BootstrapSurge)
  {
    hide BoundGrowing, HardNewReplicaLimits, FurthestOldTargets, OrdinaryNext, PhaseTargets, PrepareRolloutPlan;
    var plan := PrepareRolloutPlan(r.State(past, next));
    SimulatedPlan(r, past, next);
    if !plan.Changes(plan.ordinary) {
      StuckOrdinaryGrowth(plan);
      LimitsBetween(r, past, next, plan.snapshot);
      if next != r.desired {
        StuckGrowthMoves(r, past, next, plan);
      } else if Sum(r.desired) == 0 {
        EmptyTargetReleasesOld(r, past, next);
      } else if Sum(r.initial) == 0 {
        SumBelow(past, r.initial);
        SumZero(past);
      } else {
        FinishedTargetReleasesOld(r, past);
      }
    }
  }
}
