/**
 * Whether a Hash workload may shrink: enough Ready groups must survive the
 * deletions of the scale-down itself, which ReplicaSets direct at leaders that
 * are not Ready before leaders that are.
 */
module HashSurvivors {
  import opened Roles
  import opened RetainedCredit

  /** Native controllers have acknowledged the scale, and exactly their requested leaders are there. */
  ghost predicate Scaled(s: Snapshot) {
    && Acknowledged(s)
    && (forall k | 0 <= k < |Owners(s)| :: |Active(s, Owners(s)[k].uid, |s.groups|)| == Owners(s)[k].target)
    && (s.native.Ordinal? ==> forall i | 0 <= i < |s.groups| && s.groups[i].leaderActive :: InWindow(s, s.groups[i]))
  }

  /** What a controller's status has to count: its active leaders, or all groups for a StatefulSet. */
  ghost function Reported(s: Snapshot, owner: Owner): nat {
    if s.native.Ordinal? then |s.groups| else |Active(s, owner.uid, |s.groups|)|
  }

  /** The same with leaders still to be created, if the controller's status counts what is there. */
  ghost predicate DeletionsDone(s: Snapshot, status: seq<nat>)
    requires |status| == |Owners(s)|
  {
    && Acknowledged(s)
    && (forall k | 0 <= k < |Owners(s)| ::
          var active := |Active(s, Owners(s)[k].uid, |s.groups|)|;
          active == Owners(s)[k].target || (active < Owners(s)[k].target && status[k] == Reported(s, Owners(s)[k])))
    && (s.native.Ordinal? ==> forall i | 0 <= i < |s.groups| && s.groups[i].leaderActive :: InWindow(s, s.groups[i]))
  }

  ghost predicate CountedActive(s: Snapshot, active: map<nat, nat>, n: nat)
    requires n <= |s.groups|
  {
    forall owner: nat :: Get(active, owner) == |Active(s, owner, n)|
  }

  lemma CountedNext(s: Snapshot, active: map<nat, nat>, n: nat)
    requires n < |s.groups| && CountedActive(s, active, n)
    ensures var group := s.groups[n];
            CountedActive(
              s, if group.leaderActive then active[group.owner := Get(active, group.owner) + 1] else active, n + 1)
  {
    hide Active;
    forall owner: nat {
      ActiveNext(s, owner, n);
    }
  }

  /**
   * Whether the scale has been carried out; with `allowMissing`, up to creations.
   * `status` has each controller's replica count.
   */
  method ScalingObserved(s: Snapshot, allowMissing: bool, status: seq<nat>) returns (observed: bool)
    requires |status| == |Owners(s)|
    ensures observed <==> if allowMissing then DeletionsDone(s, status) else Scaled(s)
  {
    var owners, missing, acknowledged := ReplicaTargets(s);
    if !acknowledged {
      return false;
    }
    hide Acknowledged, Owners;
    var active: map<nat, nat> := map[];
    for i := 0 to |s.groups|
      invariant CountedActive(s, active, i)
      invariant s.native.Ordinal? ==> forall j | 0 <= j < i && s.groups[j].leaderActive :: InWindow(s, s.groups[j])
    {
      var group := s.groups[i];
      CountedNext(s, active, i);
      if group.leaderActive {
        active := active[group.owner := Get(active, group.owner) + 1];
        if s.native.Ordinal? && !InWindow(s, group) {
          return false;
        }
      }
    }
    hide Active;
    for k := 0 to |owners|
      invariant forall j | 0 <= j < k ::
                  var count := |Active(s, owners[j].uid, |s.groups|)|;
                  count == owners[j].target || (allowMissing && count < owners[j].target)
    {
      var count := Get(active, owners[k].uid);
      assert count == |Active(s, owners[k].uid, |s.groups|)|;
      if count > owners[k].target || (!allowMissing && count < owners[k].target) {
        return false;
      }
    }
    for k := 0 to |owners|
      invariant forall j | 0 <= j < k ::
                  |Active(s, owners[j].uid, |s.groups|)| < owners[j].target ==> status[j] == Reported(s, owners[j])
    {
      var count := Get(active, owners[k].uid);
      assert count == |Active(s, owners[k].uid, |s.groups|)|;
      if count < owners[k].target && status[k] != (if s.native.Ordinal? then |s.groups| else count) {
        return false;
      }
    }
    return true;
  }

  /** Once deletions are done, controllers may delete no group of theirs; a StatefulSet none with an active leader. */
  lemma NothingLeftToDelete(s: Snapshot, status: seq<nat>, victims: set<nat>, i: nat)
    requires |status| == |Owners(s)| && DeletionsDone(s, status) && Permitted(s, victims) && i in victims
    ensures if s.native.Hash? then forall k | 0 <= k < |Owners(s)| :: Owners(s)[k].uid != s.groups[i].owner
            else !s.groups[i].leaderActive
  {
    hide Acknowledged, Owners, Active;
    if s.native.Hash? {
      forall k | 0 <= k < |Owners(s)|
        ensures Owners(s)[k].uid != s.groups[i].owner
      {
        var taken := victims * Owned(s, Owners(s)[k].uid);
        assert |taken| == 0;
        assert i !in taken;
      }
    }
  }

  predicate Lagging(group: Group) {
    !group.terminating && group.leaderActive && !group.leaderReady
  }

  /** Leaders a ReplicaSet deletes before any Ready one, among the first n groups. */
  ghost function LaggingAmong(s: Snapshot, n: nat): set<nat>
    requires n <= |s.groups|
  {
    set i | 0 <= i < n && Lagging(s.groups[i])
  }

  ghost function LaggingLeaders(s: Snapshot): set<nat> {
    LaggingAmong(s, |s.groups|)
  }

  ghost function NonEmptySets(sets: seq<ReplicaSet>, n: nat): set<nat>
    requires n <= |sets|
  {
    set i | 0 <= i < n && sets[i].replicas > 0
  }

  ghost predicate SurvivorsReady(s: Snapshot, sets: seq<ReplicaSet>, replicas: nat, target: nat) {
    || Retained(s) >= replicas
    || (&& Retained(s) >= target && Scaled(s) && |NonEmptySets(sets, |sets|)| == 1
        && Retained(s) - Max(0, replicas - target - |LaggingLeaders(s)|) >= target)
  }

  method CountNonEmpty(sets: seq<ReplicaSet>) returns (count: nat)
    ensures count == |NonEmptySets(sets, |sets|)|
  {
    count := 0;
    for i := 0 to |sets|
      invariant count == |NonEmptySets(sets, i)|
    {
      assert NonEmptySets(sets, i + 1) == NonEmptySets(sets, i) + if sets[i].replicas > 0 then {i} else {};
      if sets[i].replicas > 0 {
        count := count + 1;
      }
    }
  }

  method CountLagging(s: Snapshot) returns (count: nat)
    ensures count == |LaggingLeaders(s)|
  {
    count := 0;
    for i := 0 to |s.groups|
      invariant count == |LaggingAmong(s, i)|
    {
      assert LaggingAmong(s, i + 1) == LaggingAmong(s, i) + if Lagging(s.groups[i]) then {i} else {};
      if Lagging(s.groups[i]) {
        count := count + 1;
      }
    }
  }

  /** Whether enough Ready groups survive a scale-down from `replicas` to `target`. */
  method HashSurvivorsReady(s: Snapshot, replicas: nat, target: nat) returns (ready: bool)
    requires s.native.Hash?
    ensures ready <==> SurvivorsReady(s, s.native.sets, replicas, target)
  {
    hide Retained, Scaled, NonEmptySets, LaggingLeaders;
    var availability := ComputeAvailability(s);
    var committed := availability.retained;
    if committed >= replicas {
      return true;
    }
    var observed := ScalingObserved(s, false, seq(|Owners(s)|, _ => 0));
    if committed < target || !observed {
      return false;
    }
    var activeSets := CountNonEmpty(s.native.sets);
    if activeSets != 1 {
      return false;
    }
    var lagging := CountLagging(s);
    return committed - Max(0, replicas - target - lagging) >= target;
  }

  // --- The scale-down is safe ---

  /** A ReplicaSet deletes a Ready leader only once none of its own leaders lags. */
  ghost predicate LaggingFirst(s: Snapshot, victims: set<nat>) {
    forall i, j | i in victims && j in LaggingLeaders(s) - victims ::
      i < |s.groups| && s.groups[i].owner == s.groups[j].owner ==> !s.groups[i].leaderReady
  }

  /** Victims are active leaders. */
  ghost predicate ActiveLeaders(s: Snapshot, victims: set<nat>) {
    forall i | i in victims :: i < |s.groups| && s.groups[i].leaderActive
  }

  /** A group is Ready only with a Ready leader, and every group belongs to a ReplicaSet in the snapshot. */
  ghost predicate Coherent(s: Snapshot) {
    && (forall i | 0 <= i < |s.groups| && s.groups[i].Eligible() :: s.groups[i].leaderReady)
    && forall i | 0 <= i < |s.groups| :: exists k | 0 <= k < |Owners(s)| :: Owners(s)[k].uid == s.groups[i].owner
  }

  lemma OwnerNonEmpty(s: Snapshot, i: nat) returns (k: nat)
    requires s.native.Hash? && Scaled(s) && Coherent(s) && i < |s.groups| && s.groups[i].leaderActive
    ensures k < |s.native.sets| && s.native.sets[k].uid == s.groups[i].owner
    ensures k in NonEmptySets(s.native.sets, |s.native.sets|)
  {
    k :| 0 <= k < |Owners(s)| && Owners(s)[k].uid == s.groups[i].owner;
    assert i in Active(s, Owners(s)[k].uid, |s.groups|);
  }

  /** With one non-empty ReplicaSet every active leader is its own. */
  lemma OneOwner(s: Snapshot, i: nat, j: nat)
    requires s.native.Hash? && Scaled(s) && Coherent(s) && |NonEmptySets(s.native.sets, |s.native.sets|)| == 1
    requires i < |s.groups| && j < |s.groups| && s.groups[i].leaderActive && s.groups[j].leaderActive
    ensures s.groups[i].owner == s.groups[j].owner
  {
    var a := OwnerNonEmpty(s, i);
    var b := OwnerNonEmpty(s, j);
    var sets := NonEmptySets(s.native.sets, |s.native.sets|);
    if a != b {
      SubsetSize({a, b}, sets);
    }
  }

  lemma FewReadyVictims(s: Snapshot, ready: set<nat>, victims: set<nat>)
    requires s.native.Hash? && Scaled(s) && Coherent(s) && |NonEmptySets(s.native.sets, |s.native.sets|)| == 1
    requires LaggingFirst(s, victims) && ActiveLeaders(s, victims)
    requires forall i | i in ready :: i < |s.groups| && s.groups[i].leaderReady
    ensures |ready * victims| <= Max(0, |victims| - |LaggingLeaders(s)|)
  {
    hide Scaled, Coherent, NonEmptySets;
    var lagging, taken := LaggingLeaders(s), ready * victims;
    if taken != {} {
      var i :| i in taken;
      forall j | j in lagging
        ensures j in victims && j !in taken
      {
        OneOwner(s, i, j);
      }
      SubsetSize(taken + lagging, victims);
    }
  }

  lemma ReadyLost(s: Snapshot, pending: set<nat>, victims: set<nat>)
    ensures |Survivors(s, pending + victims)| == |Survivors(s, pending)| - |Survivors(s, pending) * victims|
  {
    var before := Survivors(s, pending);
    SizeLess(before, victims);
    assert Survivors(s, pending + victims) == before - victims;
  }

  /**
   * Once the check succeeds, shrinking to the target leaves at least that many
   * eligible Ready groups, whichever victims pending and new deletions pick.
   */
  lemma ShrinkKeepsTarget(s: Snapshot, replicas: nat, target: nat, pending: set<nat>, victims: set<nat>)
    requires s.native.Hash? && Distinct(Owners(s)) && Coherent(s) && target <= replicas
    requires SurvivorsReady(s, s.native.sets, replicas, target)
    requires Permitted(s, pending) && |victims| <= replicas - target && LaggingFirst(s, victims)
    requires ActiveLeaders(s, victims)
    ensures |Survivors(s, pending + victims)| >= target
  {
    hide Owners, Distinct, Permitted, Retained, Scaled, LaggingFirst, NonEmptySets, LaggingLeaders;
    CreditSurvives(s, pending);
    ReadyLost(s, pending, victims);
    if Retained(s) >= replicas {
      SubsetSize(Survivors(s, pending) * victims, victims);
    } else {
      FewReadyVictims(s, Survivors(s, pending), victims);
    }
  }
}
