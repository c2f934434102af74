/**
 * The StatefulSet partition of an Ordinal rolling update. Replicas at or above
 * the partition are replaced by the new revision, highest ordinal first.
 */
module RollingPartition {
  import opened Roles

  datatype ReplicaState = ReplicaState(ready: bool, updated: bool) {
    predicate Done() {
      ready && updated
    }

    /** Serving on the previous revision: replacing it costs availability. */
    predicate Serving() {
      ready && !updated
    }
  }

  /** Replicas at the tail that are Ready on the new revision. */
  function ContinuousReady(states: seq<ReplicaState>): (count: nat)
    ensures count <= |states|
    ensures forall i | |states| - count <= i < |states| :: states[i].Done()
    ensures count < |states| ==> !states[|states| - count - 1].Done()
  {
    if |states| == 0 || !states[|states| - 1].Done() then 0 else 1 + ContinuousReady(states[..|states| - 1])
  }

  /** The partition that updates `step` replicas beyond the finished tail. */
  function StepPartition(states: seq<ReplicaState>, step: nat): (partition: nat)
    ensures partition <= |states| - ContinuousReady(states)
  {
    Max(0, |states| - ContinuousReady(states) - step)
  }

  /** Replicas in [lo, hi) with a property. */
  ghost function Among(states: seq<ReplicaState>, lo: nat, hi: nat, p: ReplicaState -> bool): set<nat> {
    set i: nat | lo <= i < hi && i < |states| && p(states[i])
  }

  predicate Unready(state: ReplicaState) {
    !state.ready
  }

  predicate Serving(state: ReplicaState) {
    state.Serving()
  }

  predicate Finished(state: ReplicaState) {
    state.Done()
  }

  ghost function UnreadyBelow(states: seq<ReplicaState>, hi: nat): nat {
    |Among(states, 0, hi, Unready)|
  }

  /** Room for every unready replica below the step partition. */
  ghost function BudgetPartition(states: seq<ReplicaState>, step: nat): nat {
    StepPartition(states, step) + UnreadyBelow(states, StepPartition(states, step))
  }

  /** Lowers a partition past replicas that serve nothing on the previous revision, down to `low`. */
  function Lowered(states: seq<ReplicaState>, low: nat, idx: int, partition: nat): (lowered: nat)
    requires idx < |states|
    decreases idx + 1
  {
    if idx < low || states[idx].Serving() then partition else Lowered(states, low, idx - 1, idx)
  }

  /** The partition before it is kept from moving back. */
  ghost function Unclamped(states: seq<ReplicaState>, step: nat): nat {
    var low, high := StepPartition(states, step), BudgetPartition(states, step);
    Lowered(states, low, Min(high, |states| - 1), high)
  }

  lemma UnreadyNext(states: seq<ReplicaState>, hi: nat)
    requires hi < |states|
    ensures UnreadyBelow(states, hi + 1) == UnreadyBelow(states, hi) + if states[hi].ready then 0 else 1
  {
    assert Among(states, 0, hi + 1, Unready) == Among(states, 0, hi, Unready) + if states[hi].ready then {} else {hi};
  }

  method CalculateContinuousReadyReplicas(states: seq<ReplicaState>) returns (count: nat)
    ensures count == ContinuousReady(states)
  {
    count := 0;
    var idx := |states|;
    while idx > 0
      invariant 0 <= idx <= |states| && count == |states| - idx
      invariant ContinuousReady(states) == count + ContinuousReady(states[..idx])
    {
      assert states[..idx][..idx - 1] == states[..idx - 1];
      if !states[idx - 1].ready || !states[idx - 1].updated {
        break;
      }
      count := count + 1;
      idx := idx - 1;
    }
  }

  /** The next partition: as far down as the step and unready replicas below it permit, and never back up. */
  method RollingUpdatePartition(
    states: seq<ReplicaState>, rollingStep: nat, currentPartition: nat
  ) returns (result: nat)
    ensures result == Min(Unclamped(states, rollingStep), currentPartition)
  {
    var continuous := CalculateContinuousReadyReplicas(states);
    var low: nat := Max(0, |states| - continuous - rollingStep);
    var unavailable := 0;
    for idx := 0 to low
      invariant unavailable == UnreadyBelow(states, idx)
    {
      UnreadyNext(states, idx);
      if !states[idx].ready {
        unavailable := unavailable + 1;
      }
    }
    var partition: nat := low + unavailable;
    var idx := Min(partition, |states| - 1);
    while idx >= low
      invariant low - 1 <= idx < |states| || idx == |states| - 1
      invariant Unclamped(states, rollingStep) == Lowered(states, low, idx, partition)
    {
      if !states[idx].ready || states[idx].updated {
        partition := idx;
      } else {
        break;
      }
      idx := idx - 1;
    }
    return Min(partition, currentPartition);
  }

  // --- What a partition exposes ---

  /** Everything from the lowered partition up to the point it was lowered from serves nothing. */
  lemma {:induction false} LoweredSkips(states: seq<ReplicaState>, low: nat, idx: int, partition: nat)
    requires idx < |states| && idx < partition && low <= partition
    ensures low <= Lowered(states, low, idx, partition) <= partition
    ensures forall i | Lowered(states, low, idx, partition) <= i <= idx && 0 <= i :: !states[i].Serving()
    decreases idx + 1
  {
    if idx >= low && !states[idx].Serving() {
      LoweredSkips(states, low, idx - 1, idx);
    }
  }

  /** The unclamped partition never drops below the step partition, and nothing it was lowered past is serving. */
  lemma UnclampedSkips(states: seq<ReplicaState>, step: nat)
    ensures var p, high := Unclamped(states, step), BudgetPartition(states, step);
            && StepPartition(states, step) <= p <= high
            && forall i | p <= i < |states| && states[i].Serving() :: high <= i
  {
    var low, high := StepPartition(states, step), BudgetPartition(states, step);
    var start := Min(high, |states| - 1);
    if start >= low && !states[start].Serving() {
      LoweredSkips(states, low, start - 1, start);
    }
  }

  lemma SizeUpTo(lo: nat, hi: nat, members: set<nat>)
    requires forall i | i in members :: lo <= i < hi
    ensures |members| <= Max(0, hi - lo)
    decreases hi
  {
    if hi > lo {
      var last := hi - 1;
      SizeUpTo(lo, last, members - {last});
      if last in members {
        assert members == (members - {last}) + {last};
      } else {
        assert members == members - {last};
      }
    } else {
      assert members == {};
    }
  }

  /** Replicas still serving on the previous revision that a partition hands over for replacement. */
  ghost function Exposed(states: seq<ReplicaState>, partition: nat): set<nat> {
    Among(states, partition, |states|, Serving)
  }

  lemma ExposedAboveBudget(states: seq<ReplicaState>, step: nat)
    ensures var high, tail := BudgetPartition(states, step), |states| - ContinuousReady(states);
            Exposed(states, Unclamped(states, step)) == Among(states, high, tail, Serving)
  {
    UnclampedSkips(states, step);
    hide Unclamped, BudgetPartition;
  }

  /** At most the rolling step, less the unready replicas below the step partition, is taken out of service. */
  lemma ExposureBounded(states: seq<ReplicaState>, step: nat)
    ensures |Exposed(states, Unclamped(states, step))| <=
            Max(0, step - UnreadyBelow(states, StepPartition(states, step)))
  {
    ExposedAboveBudget(states, step);
    hide Unclamped, ContinuousReady;
    var high, tail := BudgetPartition(states, step), |states| - ContinuousReady(states);
    SizeUpTo(high, tail, Among(states, high, tail, Serving));
    if StepPartition(states, step) == 0 {
      assert Among(states, 0, 0, Unready) == {};
    }
  }

  // --- Progress ---

  lemma {:induction false} LoweredReaches(states: seq<ReplicaState>, low: nat, idx: int, partition: nat, to: nat)
    requires low <= to <= idx < |states| && forall i | to <= i <= idx :: !states[i].Serving()
    ensures Lowered(states, low, idx, partition) <= to
    decreases idx
  {
    if idx > to {
      LoweredReaches(states, low, idx - 1, idx, to);
    } else if low < to {
      LoweredSkips(states, low, idx - 1, idx);
    }
  }

  /**
   * The highest unfinished replica is handed over exactly when the step leaves room
   * for it or replacing it costs nothing.
   */
  lemma ProgressIff(states: seq<ReplicaState>, step: nat)
    requires ContinuousReady(states) < |states|
    ensures var next := |states| - ContinuousReady(states) - 1;
            Unclamped(states, step) <= next
            <==> step > 0 && (UnreadyBelow(states, StepPartition(states, step)) < step || !states[next].ready)
  {
    var next := |states| - ContinuousReady(states) - 1;
    var low, high := StepPartition(states, step), BudgetPartition(states, step);
    UnclampedSkips(states, step);
    if low == 0 {
      assert Among(states, 0, 0, Unready) == {};
    }
    if step > 0 && !states[next].ready && high > next {
      LoweredReaches(states, low, Min(high, |states| - 1), high, next);
    }
  }

  // --- The whole availability budget ---

  lemma {:induction false} EveryState(states: seq<ReplicaState>, lo: nat, hi: nat)
    requires lo <= hi <= |states|
    ensures |Among(states, lo, hi, Unready)| + |Among(states, lo, hi, Serving)| + |Among(states, lo, hi, Finished)| ==
            hi - lo
    decreases hi
  {
    if hi > lo {
      var last := hi - 1;
      EveryState(states, lo, last);
      LastAmong(states, lo, last, Unready);
      LastAmong(states, lo, last, Serving);
      LastAmong(states, lo, last, Finished);
    } else {
      assert Among(states, lo, hi, Unready) == Among(states, lo, hi, Serving) == Among(states, lo, hi, Finished) == {};
    }
  }

  lemma LastAmong(states: seq<ReplicaState>, lo: nat, hi: nat, p: ReplicaState -> bool)
    requires lo <= hi < |states|
    ensures |Among(states, lo, hi + 1, p)| == |Among(states, lo, hi, p)| + if p(states[hi]) then 1 else 0
  {
    assert Among(states, lo, hi + 1, p) == Among(states, lo, hi, p) + if p(states[hi]) then {hi} else {};
  }

  lemma SplitAt(states: seq<ReplicaState>, lo: nat, mid: nat, hi: nat, p: ReplicaState -> bool)
    requires lo <= mid <= hi
    ensures |Among(states, lo, hi, p)| == |Among(states, lo, mid, p)| + |Among(states, mid, hi, p)|
  {
    assert Among(states, lo, hi, p) == Among(states, lo, mid, p) + Among(states, mid, hi, p);
  }

  /** Replicas that are out of service once everything exposed has been taken down. */
  ghost function OutOfService(states: seq<ReplicaState>, partition: nat): nat {
    UnreadyBelow(states, |states|) + |Exposed(states, partition)|
  }

  /**
   * When a partition takes anything out of service, the total stays within the
   * rolling step exactly when the finished replicas above the budget partition
   * outnumber the unready ones between the step and the budget partition.
   */
  lemma BudgetKeptIff(states: seq<ReplicaState>, step: nat)
    requires Exposed(states, Unclamped(states, step)) != {}
    ensures var low, high, tail :=
            StepPartition(states, step), BudgetPartition(states, step), |states| - ContinuousReady(states);
            OutOfService(states, Unclamped(states, step)) <= step
            <==> (low == 0 || |Among(states, low, high, Unready)| <= |Among(states, high, tail, Finished)|)
  {
    ExposedAboveBudget(states, step);
    var low, high, tail :=
      StepPartition(states, step), BudgetPartition(states, step), |states| - ContinuousReady(states);
    var some :| some in Among(states, high, tail, Serving);
    EveryState(states, high, tail);
    SplitAt(states, 0, low, |states|, Unready);
    SplitAt(states, low, high, |states|, Unready);
    SplitAt(states, high, tail, |states|, Unready);
    assert Among(states, tail, |states|, Unready) == {};
    if low == 0 {
      assert Among(states, 0, 0, Unready) == {};
    }
  }

  /**
   * Unready replicas just above the step partition are not accounted for: a third
   * replica goes while the step allows two.
   */
  lemma BudgetExceeded(states: seq<ReplicaState>)
    requires states ==
             [ReplicaState(false, false), ReplicaState(true, false), ReplicaState(false, false),
              ReplicaState(true, false)]
    ensures Exposed(states, Unclamped(states, 2)) != {} && OutOfService(states, Unclamped(states, 2)) == 3
  {
    assert Among(states, 0, 2, Unready) == {0};
    assert BudgetPartition(states, 2) == 3 && Unclamped(states, 2) == 3;
    assert Exposed(states, 3) == {3};
    assert Among(states, 0, 4, Unready) == {0, 2};
  }
}
