/**
 * How renamed roles pace each other: new roles grow with what the removed ones
 * have drained, and the target keeps what the removed ones still need of it.
 */
module ReplacementPace {
  import opened Roles
  import opened CoordinationWindow
  import opened RolloutState
  import opened DrainBudget
  import opened Planner

  /** Baselines of the removed roles that are still being replaced, and nothing for the others. */
  function ReleasedCounts(snapshot: Snapshot): (counts: seq<nat>)
    requires snapshot.Valid()
    ensures |counts| == snapshot.Size()
  {
    seq(snapshot.Size(), i requires 0 <= i < snapshot.Size() =>
      if ReleasesRole(snapshot, i) then snapshot.state.baseline[i] else 0)
  }

  /** What has been drained of each baseline. */
  function ReleasedDrained(snapshot: Snapshot): (drained: seq<nat>)
    requires snapshot.Valid()
    ensures |drained| == snapshot.Size()
  {
    seq(snapshot.Size(), i requires 0 <= i < snapshot.Size() =>
      Max(0, Minus(snapshot.state.baseline[i], snapshot.disjointSpec[i])))
  }

  lemma {:induction false} ReleasedIsWindow(snapshot: Snapshot, k: nat)
    requires snapshot.Valid() && k <= snapshot.Size()
    ensures ReleasedWindow(snapshot, k) == WindowFor(ReleasedCounts(snapshot)[..k], ReleasedDrained(snapshot)[..k])
    decreases k
  {
    if k > 0 {
      var counts, drained := ReleasedCounts(snapshot), ReleasedDrained(snapshot);
      ReleasedIsWindow(snapshot, k - 1);
      assert counts[..k][..k - 1] == counts[..k - 1] && drained[..k][..k - 1] == drained[..k - 1];
      hide ReleasesRole;
    }
  }

  /** The released window holds the least drained fraction of the removed roles, and the smallest of their baselines. */
  lemma ReleasedDescribes(snapshot: Snapshot)
    requires snapshot.Valid()
    ensures Describes(ReleasedWindow(snapshot, snapshot.Size()), ReleasedCounts(snapshot), ReleasedDrained(snapshot))
  {
    var counts, drained := ReleasedCounts(snapshot), ReleasedDrained(snapshot);
    ReleasedIsWindow(snapshot, snapshot.Size());
    assert counts[..snapshot.Size()] == counts && drained[..snapshot.Size()] == drained;
    WindowDescribes(counts, drained);
  }

  lemma ReleasedHasBaseline(snapshot: Snapshot, i: nat)
    requires snapshot.Valid() && i < snapshot.Size() && ReleasesRole(snapshot, i)
    ensures snapshot.state.baseline[i] > 0
  {
    assert snapshot.Unreplaced(i) <= snapshot.state.baseline[i];
  }

  /** Renamed roles are held back exactly while a role they replace is still there. */
  lemma DisjointLimitsIff(snapshot: Snapshot)
    requires snapshot.Valid()
    ensures DisjointGrowthLimits(snapshot).Some? <==>
            exists i | 0 <= i < snapshot.Size() :: ReleasesRole(snapshot, i) && snapshot.disjointSpec[i] > 0
  {
    ReleasedDescribes(snapshot);
    hide ReleasedWindow, ReleasesRole, CeilingShare;
    forall i | 0 <= i < snapshot.Size() && ReleasesRole(snapshot, i)
      ensures ReleasedCounts(snapshot)[i] > 0
    {
      ReleasedHasBaseline(snapshot, i);
    }
  }

  lemma CeilingShareIs(replicas: nat, numerator: nat, denominator: nat)
    requires denominator > 0
    ensures var share := CeilingShare(replicas, numerator, denominator);
            replicas * numerator <= share * denominator < replicas * numerator + denominator
  {
    var a, b := replicas * numerator + denominator - 1, denominator;
    NonNegativeProduct(replicas, numerator);
    assert a == (a / b) * b + a % b;
  }

  lemma DisjointLimitIs(snapshot: Snapshot, i: nat)
    requires snapshot.Valid() && i < snapshot.Size() && DisjointGrowthLimits(snapshot).Some?
    ensures var state, w := snapshot.state, ReleasedWindow(snapshot, snapshot.Size());
            && w.target > 0
            && var limit := DisjointGrowthLimits(snapshot).value[i];
            var reached := CeilingShare(state.desired[i], w.least, w.target) + state.config[i].maxSurge;
            limit == reached || (limit == 1 && reached <= 1)
  {
    hide ReleasedWindow, CeilingShare, ReleasesRole;
  }

  /** Beyond its surge, the limit runs ahead of what role j has drained by less than one group. */
  ghost predicate AheadByLessThanOne(snapshot: Snapshot, limit: nat, i: nat, j: nat)
    requires snapshot.Valid() && i < snapshot.Size() && j < snapshot.Size()
  {
    var state := snapshot.state;
    (Minus(limit, state.config[i].maxSurge) - 1) * state.baseline[j] < state.desired[i] * ReleasedDrained(snapshot)[j]
  }

  /**
   * Beyond its surge, a renamed role runs ahead of what every removed role has
   * drained by less than one group, its first group excepted.
   */
  lemma DisjointLimitsPace(snapshot: Snapshot, i: nat, j: nat)
    requires snapshot.Valid() && i < snapshot.Size() && j < snapshot.Size()
    requires DisjointGrowthLimits(snapshot).Some? && ReleasesRole(snapshot, j)
    ensures var limit := DisjointGrowthLimits(snapshot).value[i];
            limit == 1 || AheadByLessThanOne(snapshot, limit, i, j)
  {
    var state, w := snapshot.state, ReleasedWindow(snapshot, snapshot.Size());
    ReleasedDescribes(snapshot);
    ReleasedHasBaseline(snapshot, j);
    DisjointLimitIs(snapshot, i);
    hide ReleasedWindow, CeilingShare, DisjointGrowthLimits;
    var counts, drained := ReleasedCounts(snapshot), ReleasedDrained(snapshot);
    assert counts[j] == state.baseline[j];
    hide ReleasesRole, ReleasedCounts, ReleasedDrained;
    CeilingShareIs(state.desired[i], w.least, w.target);
    var share := CeilingShare(state.desired[i], w.least, w.target);
    AheadOfDrained(share, state.desired[i], w.least, w.target, drained[j], counts[j]);
    hide Describes;
    var limit := DisjointGrowthLimits(snapshot).value[i];
    if limit != 1 {
      LimitAhead(limit, state.config[i].maxSurge, share, state.desired[i], drained[j], counts[j]);
    }
  }

  /** And it is not held behind the least drained removed role. */
  lemma DisjointLimitsReach(snapshot: Snapshot, i: nat) returns (k: nat)
    requires snapshot.Valid() && i < snapshot.Size() && DisjointGrowthLimits(snapshot).Some?
    ensures k < snapshot.Size() && ReleasesRole(snapshot, k)
    ensures var state := snapshot.state;
            var beyond := Minus(DisjointGrowthLimits(snapshot).value[i], state.config[i].maxSurge);
            state.desired[i] * ReleasedDrained(snapshot)[k] <= beyond * state.baseline[k]
  {
    var state, w := snapshot.state, ReleasedWindow(snapshot, snapshot.Size());
    ReleasedDescribes(snapshot);
    DisjointLimitIs(snapshot, i);
    hide ReleasedWindow, CeilingShare, DisjointGrowthLimits;
    var counts, drained := ReleasedCounts(snapshot), ReleasedDrained(snapshot);
    k :| 0 <= k < |counts| && counts[k] == w.target && drained[k] == w.least;
    assert ReleasesRole(snapshot, k);
    hide ReleasesRole, ReleasedCounts, ReleasedDrained;
    CeilingShareIs(state.desired[i], w.least, w.target);
    var beyond := Minus(DisjointGrowthLimits(snapshot).value[i], state.config[i].maxSurge);
    MulMonotone(CeilingShare(state.desired[i], w.least, w.target), beyond, w.target);
  }

  lemma LimitAhead(limit: nat, surge: nat, share: nat, desired: nat, drained: nat, baseline: nat)
    requires limit == share + surge && baseline > 0 && (share > 0 ==> (share - 1) * baseline < desired * drained)
    ensures (Minus(limit, surge) - 1) * baseline < desired * drained
  {
    NonNegativeProduct(desired, drained);
    assert Minus(limit, surge) == share;
  }

  /** A share just above least/target of the desired count is just above any fraction that is at least that. */
  lemma AheadOfDrained(share: nat, desired: nat, least: nat, target: nat, drained: nat, baseline: nat)
    requires target > 0 && baseline > 0 && least * baseline <= drained * target
    requires share * target < desired * least + target
    ensures (share - 1) * baseline < desired * drained || share == 0
  {
    if share > 0 {
      var s := share - 1;
      assert s * target < desired * least by {
        assert share * target == s * target + target;
      }
      MulStrict(s * target, desired * least, baseline);
      MulMonotone(least * baseline, drained * target, desired);
      assert (s * target) * baseline == (s * baseline) * target;
      assert (desired * least) * baseline == (least * baseline) * desired;
      assert (drained * target) * desired == (desired * drained) * target;
      if s * baseline >= desired * drained {
        MulMonotone(desired * drained, s * baseline, target);
      }
    }
  }

  // --- What the removed roles still need of the target ---

  /** No removed role needs a larger fraction. */
  lemma {:induction false} FractionCovers(snapshot: Snapshot, progress: Window, k: nat, i: nat)
    requires snapshot.Valid() && i < k <= snapshot.Size() && progress.target > 0 && NeedsCredit(snapshot, i)
    ensures var r := DisjointReadyFraction(snapshot, progress, k);
            NeededCredit(snapshot, progress, i) * r.1 <= r.0 * snapshot.state.baseline[i]
    decreases k
  {
    hide NeededCredit;
    var last, before := k - 1, DisjointReadyFraction(snapshot, progress, k - 1);
    if i < last {
      FractionCovers(snapshot, progress, last, i);
      if NeedsCredit(snapshot, last) {
        var needed, baseline := NeededCredit(snapshot, progress, last), snapshot.state.baseline[last];
        if needed * before.1 > before.0 * baseline {
          hide DisjointReadyFraction;
          FractionTransitive(
            NeededCredit(snapshot, progress, i), snapshot.state.baseline[i], before.0, before.1, needed, baseline);
        }
      }
    }
  }

  /** Some removed role needs exactly it, unless none needs any. */
  lemma {:induction false} FractionAttained(snapshot: Snapshot, progress: Window, k: nat)
    requires snapshot.Valid() && k <= snapshot.Size() && progress.target > 0
    ensures var r := DisjointReadyFraction(snapshot, progress, k);
            || r == (0, 1)
            || exists i | 0 <= i < k ::
              NeedsCredit(snapshot, i) && r == (NeededCredit(snapshot, progress, i), snapshot.state.baseline[i])
    decreases k
  {
    hide NeededCredit, NeedsCredit;
    if k > 0 {
      FractionAttained(snapshot, progress, k - 1);
    }
  }
}
