/**
 * Ready capacity that survives the scale-downs native controllers have accepted
 * but not finished. A ReplicaSet picks its victims dynamically, so each one
 * reserves as many Ready groups as it still has leaders to delete.
 */
module RetainedCredit {
  import opened Roles

  /** One observed replica group, with the UID of the controller that owns its leader. */
  datatype Group = Group(
    owner: nat, leaderActive: bool, leaderReady: bool, ready: bool, terminating: bool, exhausted: bool,
    workersObserved: bool,
    ordinal: int, child: nat, coherent: bool
  ) {
    /** Ready capacity that nothing has yet marked for removal. */
    predicate Eligible() {
      ready && !terminating && !exhausted && workersObserved
    }
  }

  datatype ReplicaSet = ReplicaSet(uid: nat, replicas: nat, deleting: bool, observed: bool)

  /** A Deployment or StatefulSet; `current` says it is not being deleted and has observed its generation. */
  datatype Workload = Workload(uid: nat, replicas: nat, current: bool, start: int)

  datatype Native =
    | Hash(deployment: Option<Workload>, sets: seq<ReplicaSet>)
    | Ordinal(statefulSet: Option<Workload>)

  /** `current` says the workload itself is not being deleted and has observed its generation. */
  datatype Snapshot = Snapshot(replicas: nat, current: bool, native: Native, groups: seq<Group>)

  /** A controller of leader Pods and the number of leaders it is to keep. */
  datatype Owner = Owner(uid: nat, target: nat)

  function TargetOf(replicaSet: ReplicaSet): Owner {
    Owner(replicaSet.uid, if replicaSet.deleting then 0 else replicaSet.replicas)
  }

  function TargetsOf(sets: seq<ReplicaSet>): (targets: seq<Owner>)
    ensures |targets| == |sets|
  {
    seq(|sets|, i requires 0 <= i < |sets| => TargetOf(sets[i]))
  }

  /** Who deletes leaders, and down to how many; nothing when the native workload is missing. */
  function Owners(s: Snapshot): seq<Owner> {
    match s.native
    case Hash(deployment, sets) => if deployment.None? then [] else TargetsOf(sets)
    case Ordinal(statefulSet) => if statefulSet.None? then [] else [Owner(statefulSet.value.uid, s.replicas)]
  }

  ghost function TargetSum(owners: seq<Owner>): nat {
    if |owners| == 0 then 0 else TargetSum(owners[..|owners| - 1]) + owners[|owners| - 1].target
  }

  predicate Follows(workload: Option<Workload>, replicas: nat) {
    workload.Some? && workload.value.current && workload.value.replicas == replicas
  }

  /** Every controller in the chain has acknowledged the scale, and their targets add up to it. */
  ghost predicate Acknowledged(s: Snapshot) {
    && s.current
    && match s.native
       case Hash(deployment, sets) =>
         && Follows(deployment, s.replicas)
         && (forall i | 0 <= i < |sets| :: sets[i].observed)
         && TargetSum(TargetsOf(sets)) == s.replicas
       case Ordinal(statefulSet) => Follows(statefulSet, s.replicas)
  }

  function Start(s: Snapshot): int {
    if s.native.Ordinal? && s.native.statefulSet.Some? then s.native.statefulSet.value.start else 0
  }

  predicate InWindow(s: Snapshot, group: Group) {
    Start(s) <= group.ordinal < Start(s) + s.replicas
  }

  method ReplicaTargets(s: Snapshot) returns (owners: seq<Owner>, missing: bool, acknowledged: bool)
    ensures owners == Owners(s)
    ensures missing == if s.native.Hash? then s.native.deployment.None? else s.native.statefulSet.None?
    ensures acknowledged <==> Acknowledged(s)
  {
    acknowledged := s.current;
    owners, missing := [], false;
    match s.native
    case Hash(deployment, sets) =>
      if deployment.None? {
        return [], true, false;
      }
      acknowledged := acknowledged && Follows(deployment, s.replicas);
      var issued := 0;
      for i := 0 to |sets|
        invariant owners == TargetsOf(sets)[..i] && issued == TargetSum(TargetsOf(sets)[..i])
        invariant acknowledged <==> s.current && Follows(deployment, s.replicas) && forall j | 0 <= j < i ::
                  sets[j].observed
      {
        assert TargetsOf(sets)[..i + 1] == TargetsOf(sets)[..i] + [TargetOf(sets[i])];
        var target := if sets[i].deleting then 0 else sets[i].replicas;
        owners := owners + [Owner(sets[i].uid, target)];
        issued := issued + target;
        acknowledged := acknowledged && sets[i].observed;
      }
      assert TargetsOf(sets)[..|sets|] == TargetsOf(sets);
      acknowledged := acknowledged && issued == s.replicas;
    case Ordinal(statefulSet) =>
      if statefulSet.None? {
        return [], true, false;
      }
      acknowledged := acknowledged && Follows(statefulSet, s.replicas);
      owners := [Owner(statefulSet.value.uid, s.replicas)];
  }

  // --- Credit ---

  /** Leaders a controller still counts, among the first n groups. */
  ghost function Active(s: Snapshot, owner: nat, n: nat): set<nat>
    requires n <= |s.groups|
  {
    set i | 0 <= i < n && s.groups[i].owner == owner && s.groups[i].leaderActive
  }

  /** Whether a Ready group earns credit before any reservation. */
  ghost predicate Creditable(s: Snapshot, group: Group) {
    Acknowledged(s) && group.Eligible() && (s.native.Hash? || InWindow(s, group))
  }

  ghost function Credited(s: Snapshot, owner: nat, n: nat): set<nat>
    requires n <= |s.groups|
  {
    set i | 0 <= i < n && s.groups[i].owner == owner && Creditable(s, s.groups[i])
  }

  ghost function ReadyGroups(s: Snapshot, n: nat): set<nat>
    requires n <= |s.groups|
  {
    set i | 0 <= i < n && s.groups[i].ready
  }

  /** Leaders a controller has yet to delete. */
  ghost function Excess(s: Snapshot, owner: Owner): nat {
    Max(0, |Active(s, owner.uid, |s.groups|)| - owner.target)
  }

  ghost function Credit(s: Snapshot, owner: Owner): nat {
    var ready := |Credited(s, owner.uid, |s.groups|)|;
    if s.native.Hash? then Max(0, ready - Excess(s, owner)) else ready
  }

  ghost function TotalCredit(s: Snapshot, owners: seq<Owner>): nat {
    if |owners| == 0 then 0 else TotalCredit(s, owners[..|owners| - 1]) + Credit(s, owners[|owners| - 1])
  }

  /** Ready capacity after accepted scale-downs. */
  ghost function Retained(s: Snapshot): nat {
    Min(s.replicas, TotalCredit(s, Owners(s)))
  }

  function Get(counts: map<nat, nat>, uid: nat): nat {
    if uid in counts then counts[uid] else 0
  }

  lemma ActiveNext(s: Snapshot, owner: nat, n: nat)
    requires n < |s.groups|
    ensures |Active(s, owner, n + 1)|
         == |Active(s, owner, n)| + if s.groups[n].owner == owner && s.groups[n].leaderActive then 1 else 0
  {
    assert Active(s, owner, n + 1)
        == Active(s, owner, n) + if s.groups[n].owner == owner && s.groups[n].leaderActive then {n} else {};
  }

  lemma CreditedNext(s: Snapshot, owner: nat, n: nat)
    requires n < |s.groups|
    ensures |Credited(s, owner, n + 1)|
         == |Credited(s, owner, n)| + if s.groups[n].owner == owner && Creditable(s, s.groups[n]) then 1 else 0
  {
    hide Creditable;
    assert Credited(s, owner, n + 1)
        == Credited(s, owner, n) + if s.groups[n].owner == owner && Creditable(s, s.groups[n]) then {n} else {};
  }

  lemma ReadyNext(s: Snapshot, n: nat)
    requires n < |s.groups|
    ensures |ReadyGroups(s, n + 1)| == |ReadyGroups(s, n)| + if s.groups[n].ready then 1 else 0
  {
    assert ReadyGroups(s, n + 1) == ReadyGroups(s, n) + if s.groups[n].ready then {n} else {};
  }

  ghost predicate Counted(s: Snapshot, active: map<nat, nat>, ready: map<nat, nat>, n: nat)
    requires n <= |s.groups|
  {
    forall owner: nat :: Get(active, owner) == |Active(s, owner, n)| && Get(ready, owner) == |Credited(s, owner, n)|
  }

  datatype Availability = Availability(ready: nat, retained: nat)

  /** Observed readiness, and the part of it that accepted scale-downs cannot take. */
  method ComputeAvailability(s: Snapshot) returns (result: Availability)
    ensures (s.native.Hash? && s.native.deployment.None?) || (s.native.Ordinal? && s.native.statefulSet.None?) ==>
            result == Availability(0, 0)
    ensures (s.native.Hash? && s.native.deployment.Some?) || (s.native.Ordinal? && s.native.statefulSet.Some?) ==>
              result.ready == |ReadyGroups(s, |s.groups|)|
    ensures result.retained == Retained(s)
  {
    var owners, missing, acknowledged := ReplicaTargets(s);
    if missing {
      return Availability(0, 0);
    }
    hide Acknowledged, Owners;
    var active: map<nat, nat>, ready: map<nat, nat> := map[], map[];
    var readyReplicas := 0;
    for i := 0 to |s.groups|
      invariant Counted(s, active, ready, i) && readyReplicas == |ReadyGroups(s, i)|
    {
      var group := s.groups[i];
      ghost var before, credited := active, ready;
      ReadyNext(s, i);
      if group.leaderActive {
        active := active[group.owner := Get(active, group.owner) + 1];
      }
      if group.ready {
        readyReplicas := readyReplicas + 1;
        if acknowledged && !group.terminating && !group.exhausted && group.workersObserved
           && (s.native.Hash? || InWindow(s, group)) {
          ready := ready[group.owner := Get(ready, group.owner) + 1];
        }
      }
      CountedNext(s, before, credited, active, ready, i);
    }
    var retained := 0;
    for i := 0 to |owners|
      invariant retained == TotalCredit(s, owners[..i])
    {
      assert owners[..i + 1][..i] == owners[..i];
      var credit := Get(ready, owners[i].uid);
      if s.native.Hash? {
        credit := Max(0, credit - Max(0, Get(active, owners[i].uid) - owners[i].target));
      }
      retained := retained + credit;
    }
    assert owners[..|owners|] == owners;
    return Availability(readyReplicas, Min(s.replicas, retained));
  }

  lemma CountedNext(
    s: Snapshot, active: map<nat, nat>, ready: map<nat, nat>, active': map<nat, nat>, ready': map<nat, nat>, n: nat
  )
    requires n < |s.groups| && Counted(s, active, ready, n)
    requires var group := s.groups[n];
             && active' == (if group.leaderActive then active[group.owner := Get(active, group.owner) + 1] else active)
             && ready' == (if Creditable(s, group) then ready[group.owner := Get(ready, group.owner) + 1] else ready)
    ensures Counted(s, active', ready', n + 1)
  {
    hide Active, Credited, Creditable;
    forall owner: nat
      ensures Get(active', owner) == |Active(s, owner, n + 1)| && Get(ready', owner) == |Credited(s, owner, n + 1)|
    {
      ActiveNext(s, owner, n);
      CreditedNext(s, owner, n);
    }
  }

  // --- What the credit is worth ---

  ghost function Owned(s: Snapshot, owner: nat): set<nat> {
    set i | 0 <= i < |s.groups| && s.groups[i].owner == owner
  }

  /**
   * Groups the native controllers may still delete: each ReplicaSet its excess, a
   * StatefulSet what lies outside its window.
   */
  ghost predicate Permitted(s: Snapshot, victims: set<nat>) {
    && (forall i | i in victims :: i < |s.groups|)
    && if s.native.Hash? then
         forall k | 0 <= k < |Owners(s)| :: |victims * Owned(s, Owners(s)[k].uid)| <= Excess(s, Owners(s)[k])
       else
         forall i | i in victims :: !InWindow(s, s.groups[i])
  }

  ghost predicate Distinct(owners: seq<Owner>) {
    forall i, j | 0 <= i < j < |owners| :: owners[i].uid != owners[j].uid
  }

  /** Eligible Ready groups that are not deleted. */
  ghost function Survivors(s: Snapshot, victims: set<nat>): set<nat> {
    set i | 0 <= i < |s.groups| && s.groups[i].Eligible() && i !in victims
  }

  /** Credited groups of the given controllers that are not deleted. */
  ghost function Kept(s: Snapshot, owners: seq<Owner>, victims: set<nat>): set<nat> {
    if |owners| == 0 then {}
    else
      var n := |owners| - 1;
      Kept(s, owners[..n], victims) + (Credited(s, owners[n].uid, |s.groups|) - victims)
  }

  lemma {:induction false} KeptOwned(s: Snapshot, owners: seq<Owner>, victims: set<nat>, i: nat)
    requires i in Kept(s, owners, victims)
    ensures i in Survivors(s, victims) && exists k | 0 <= k < |owners| :: owners[k].uid == s.groups[i].owner
    decreases |owners|
  {
    var n := |owners| - 1;
    if i in Kept(s, owners[..n], victims) {
      KeptOwned(s, owners[..n], victims, i);
      var k :| 0 <= k < n && owners[..n][k].uid == s.groups[i].owner;
      assert owners[k].uid == s.groups[i].owner;
    }
  }

  lemma KeptApart(s: Snapshot, owners: seq<Owner>, victims: set<nat>)
    requires Distinct(owners) && |owners| > 0
    ensures var n := |owners| - 1;
            Distinct(owners[..n]) && Kept(s, owners[..n], victims) !! Credited(s, owners[n].uid, |s.groups|)
  {
    var n := |owners| - 1;
    hide Kept;
    forall i | i in Kept(s, owners[..n], victims)
      ensures i !in Credited(s, owners[n].uid, |s.groups|)
    {
      KeptOwned(s, owners[..n], victims, i);
    }
  }

  lemma SizeLess(a: set<nat>, b: set<nat>)
    ensures |a - b| == |a| - |a * b|
  {
    assert a == (a - b) + (a * b);
  }

  lemma KeptSize(s: Snapshot, owners: seq<Owner>, victims: set<nat>)
    requires Distinct(owners) && |owners| > 0
    ensures var n := |owners| - 1;
            Distinct(owners[..n]) &&
              |Kept(s, owners, victims)| ==
                |Kept(s, owners[..n], victims)| + |Credited(s, owners[n].uid, |s.groups|) - victims|
  {
    KeptApart(s, owners, victims);
    hide Credited, Distinct;
  }

  /** What one controller may still delete. */
  ghost predicate PermittedFor(s: Snapshot, owner: Owner, victims: set<nat>) {
    && (s.native.Hash? ==> |victims * Owned(s, owner.uid)| <= Excess(s, owner))
    && (s.native.Ordinal? ==> forall i | i in victims :: i < |s.groups| && !InWindow(s, s.groups[i]))
  }

  lemma OwnerSurvives(s: Snapshot, owner: Owner, victims: set<nat>)
    requires PermittedFor(s, owner, victims)
    ensures |Credited(s, owner.uid, |s.groups|) - victims| >= Credit(s, owner)
  {
    var credited := Credited(s, owner.uid, |s.groups|);
    SizeLess(credited, victims);
    if s.native.Hash? {
      SubsetSize(credited * victims, victims * Owned(s, owner.uid));
    } else {
      assert credited * victims == {};
    }
  }

  lemma {:induction false} KeptAtLeast(s: Snapshot, owners: seq<Owner>, victims: set<nat>)
    requires Distinct(owners) && forall k | 0 <= k < |owners| :: PermittedFor(s, owners[k], victims)
    ensures |Kept(s, owners, victims)| >= TotalCredit(s, owners)
    decreases |owners|
  {
    if |owners| > 0 {
      var n := |owners| - 1;
      hide Credit, Credited, Distinct, PermittedFor, Kept;
      KeptSize(s, owners, victims);
      KeptAtLeast(s, owners[..n], victims);
      OwnerSurvives(s, owners[n], victims);
    }
  }

  /** However the native controllers choose among what they may delete, the credited groups survive. */
  lemma CreditSurvives(s: Snapshot, victims: set<nat>)
    requires Distinct(Owners(s)) && Permitted(s, victims)
    ensures |Survivors(s, victims)| >= Retained(s)
  {
    hide Owners, Excess, Owned, Credit, InWindow;
    assert forall k | 0 <= k < |Owners(s)| :: PermittedFor(s, Owners(s)[k], victims);
    KeptAtLeast(s, Owners(s), victims);
    forall i | i in Kept(s, Owners(s), victims)
      ensures i in Survivors(s, victims)
    {
      KeptOwned(s, Owners(s), victims, i);
    }
    SubsetSize(Kept(s, Owners(s), victims), Survivors(s, victims));
  }

  // --- The worst choice ---

  /** Every ReplicaSet deletes exactly its excess, from its active leaders. */
  ghost predicate Chosen(s: Snapshot, owners: seq<Owner>, victims: set<nat>) {
    && (forall i | i in victims :: i < |s.groups| && s.groups[i].leaderActive)
    && forall k | 0 <= k < |owners| :: |victims * Owned(s, owners[k].uid)| == Excess(s, owners[k])
  }

  lemma {:induction false} SubsetOfSize(all: set<nat>, n: nat) returns (some: set<nat>)
    requires n <= |all|
    ensures some <= all && |some| == n
    decreases n
  {
    if n == 0 {
      some := {};
    } else {
      var x :| x in all;
      some := SubsetOfSize(all - {x}, n - 1);
      some := some + {x};
    }
  }

  /** A set of the given size that takes as many preferred elements as it can. */
  lemma Prefer(all: set<nat>, preferred: set<nat>, n: nat) returns (some: set<nat>)
    requires preferred <= all && n <= |all|
    ensures some <= all && |some| == n && |preferred - some| == Max(0, |preferred| - n)
  {
    if n <= |preferred| {
      some := SubsetOfSize(preferred, n);
      assert preferred == (preferred - some) + some;
    } else {
      assert all == preferred + (all - preferred);
      var rest := SubsetOfSize(all - preferred, n - |preferred|);
      some := preferred + rest;
      assert preferred - some == {};
    }
  }

  /** The leaders of eligible groups are active. */
  ghost predicate Observed(s: Snapshot) {
    forall i | 0 <= i < |s.groups| && s.groups[i].Eligible() :: s.groups[i].leaderActive
  }

  lemma WorstForOwner(s: Snapshot, owner: Owner) returns (victims: set<nat>)
    requires s.native.Hash? && Observed(s)
    ensures victims <= Active(s, owner.uid, |s.groups|) && |victims| == Excess(s, owner)
    ensures |Credited(s, owner.uid, |s.groups|) - victims| == Credit(s, owner)
  {
    var active, credited := Active(s, owner.uid, |s.groups|), Credited(s, owner.uid, |s.groups|);
    assert credited <= active;
    victims := Prefer(active, credited, Excess(s, owner));
  }

  lemma {:induction false} KeptIgnores(s: Snapshot, owners: seq<Owner>, victims: set<nat>, more: set<nat>)
    requires forall k | 0 <= k < |owners| :: more * Owned(s, owners[k].uid) == {}
    ensures Kept(s, owners, victims + more) == Kept(s, owners, victims)
    decreases |owners|
  {
    if |owners| > 0 {
      var n := |owners| - 1;
      KeptIgnores(s, owners[..n], victims, more);
      var credited := Credited(s, owners[n].uid, |s.groups|);
      forall i | i in credited
        ensures i !in more
      {
        assert i !in more * Owned(s, owners[n].uid);
      }
      assert credited - (victims + more) == credited - victims;
    }
  }

  ghost predicate OwnedBy(s: Snapshot, owners: seq<Owner>, victims: set<nat>) {
    forall i | i in victims :: i < |s.groups| && exists k | 0 <= k < |owners| :: owners[k].uid == s.groups[i].owner
  }

  lemma {:induction false} WorstVictims(s: Snapshot, owners: seq<Owner>) returns (victims: set<nat>)
    requires s.native.Hash? && Observed(s) && Distinct(owners)
    ensures Chosen(s, owners, victims) && |Kept(s, owners, victims)| == TotalCredit(s, owners)
    ensures OwnedBy(s, owners, victims)
    decreases |owners|
  {
    if |owners| == 0 {
      victims := {};
    } else {
      var n := |owners| - 1;
      var earlier := WorstVictims(s, owners[..n]);
      var mine := WorstForOwner(s, owners[n]);
      victims := earlier + mine;
      JoinVictims(s, owners, earlier, mine);
    }
  }

  lemma Apart(s: Snapshot, owners: seq<Owner>, last: Owner, earlier: set<nat>, mine: set<nat>)
    requires Distinct(owners + [last]) && OwnedBy(s, owners, earlier) && mine <= Active(s, last.uid, |s.groups|)
    ensures (earlier + mine) * Owned(s, last.uid) == mine
    ensures forall k | 0 <= k < |owners| :: mine * Owned(s, owners[k].uid) == {}
              && (earlier + mine) * Owned(s, owners[k].uid) == earlier * Owned(s, owners[k].uid)
  {
    var all := owners + [last];
    forall i | i in earlier
      ensures i !in Owned(s, last.uid)
    {
      var k :| 0 <= k < |owners| && owners[k].uid == s.groups[i].owner;
      assert all[k].uid != all[|owners|].uid;
    }
    assert mine <= Owned(s, last.uid);
    forall k | 0 <= k < |owners|
      ensures mine * Owned(s, owners[k].uid) == {}
      ensures (earlier + mine) * Owned(s, owners[k].uid) == earlier * Owned(s, owners[k].uid)
    {
      assert all[k].uid != all[|owners|].uid;
    }
  }

  lemma JoinOwned(s: Snapshot, owners: seq<Owner>, last: Owner, earlier: set<nat>, mine: set<nat>)
    requires OwnedBy(s, owners, earlier) && mine <= Active(s, last.uid, |s.groups|)
    ensures OwnedBy(s, owners + [last], earlier + mine)
  {
    var all := owners + [last];
    forall i | i in earlier + mine
      ensures exists k | 0 <= k < |all| :: all[k].uid == s.groups[i].owner
    {
      if i in earlier {
        var k :| 0 <= k < |owners| && owners[k].uid == s.groups[i].owner;
        assert all[k].uid == s.groups[i].owner;
      } else {
        assert all[|owners|].uid == s.groups[i].owner;
      }
    }
  }

  lemma JoinVictims(s: Snapshot, owners: seq<Owner>, earlier: set<nat>, mine: set<nat>)
    requires s.native.Hash? && |owners| > 0 && Distinct(owners)
    requires var n := |owners| - 1;
             && Chosen(s, owners[..n], earlier) && |Kept(s, owners[..n], earlier)| == TotalCredit(s, owners[..n])
             && OwnedBy(s, owners[..n], earlier)
             && mine <= Active(s, owners[n].uid, |s.groups|) && |mine| == Excess(s, owners[n])
             && |Credited(s, owners[n].uid, |s.groups|) - mine| == Credit(s, owners[n])
    ensures Chosen(s, owners, earlier + mine) && |Kept(s, owners, earlier + mine)| == TotalCredit(s, owners)
    ensures OwnedBy(s, owners, earlier + mine)
  {
    hide Owned, Active, Credited, OwnedBy, Chosen, Distinct, Excess, Credit, Kept;
    var n := |owners| - 1;
    var before, last, victims := owners[..n], owners[n], earlier + mine;
    assert owners == before + [last];
    Apart(s, before, last, earlier, mine);
    JoinOwned(s, before, last, earlier, mine);
    KeptSize(s, owners, victims);
    KeptIgnores(s, before, earlier, mine);
    ChosenJoins(s, before, last, earlier, mine);
    CreditedLess(s, last.uid, earlier, mine);
  }

  lemma CreditedLess(s: Snapshot, owner: nat, earlier: set<nat>, mine: set<nat>)
    requires (earlier + mine) * Owned(s, owner) == mine
    ensures Credited(s, owner, |s.groups|) - (earlier + mine) == Credited(s, owner, |s.groups|) - mine
  {
    forall i | i in Credited(s, owner, |s.groups|)
      ensures i in earlier + mine <==> i in mine
    {
      assert i in Owned(s, owner);
      assert i in (earlier + mine) * Owned(s, owner) <==> i in earlier + mine;
    }
  }

  lemma ChosenJoins(s: Snapshot, owners: seq<Owner>, last: Owner, earlier: set<nat>, mine: set<nat>)
    requires Chosen(s, owners, earlier) && mine <= Active(s, last.uid, |s.groups|) && |mine| == Excess(s, last)
    requires (earlier + mine) * Owned(s, last.uid) == mine
    requires forall k | 0 <= k < |owners| ::
             (earlier + mine) * Owned(s, owners[k].uid) == earlier * Owned(s, owners[k].uid)
    ensures Chosen(s, owners + [last], earlier + mine)
  {
    hide Excess, Owned;
  }

  /** Every eligible group belongs to a controller in the snapshot. */
  ghost predicate Scoped(s: Snapshot) {
    forall i | 0 <= i < |s.groups| && s.groups[i].Eligible() ::
      exists k | 0 <= k < |Owners(s)| :: Owners(s)[k].uid == s.groups[i].owner
  }

  lemma {:induction false} KeptAll(s: Snapshot, owners: seq<Owner>, victims: set<nat>, k: nat, i: nat)
    requires k < |owners| && i in Credited(s, owners[k].uid, |s.groups|) && i !in victims
    ensures i in Kept(s, owners, victims)
    decreases |owners|
  {
    if k < |owners| - 1 {
      KeptAll(s, owners[..|owners| - 1], victims, k, i);
    }
  }

  lemma SurvivorsAreKept(s: Snapshot, victims: set<nat>)
    requires s.native.Hash? && Acknowledged(s) && Scoped(s)
    ensures Survivors(s, victims) == Kept(s, Owners(s), victims)
  {
    hide Owners, Kept, Acknowledged;
    forall i | i in Survivors(s, victims)
      ensures i in Kept(s, Owners(s), victims)
    {
      var k :| 0 <= k < |Owners(s)| && Owners(s)[k].uid == s.groups[i].owner;
      KeptAll(s, Owners(s), victims, k, i);
    }
    forall i | i in Kept(s, Owners(s), victims)
      ensures i in Survivors(s, victims)
    {
      KeptOwned(s, Owners(s), victims, i);
    }
  }

  lemma {:induction false} CreditWithinTargets(s: Snapshot, owners: seq<Owner>)
    requires s.native.Hash? && Observed(s)
    ensures TotalCredit(s, owners) <= TargetSum(owners)
    decreases |owners|
  {
    if |owners| > 0 {
      var n := |owners| - 1;
      CreditWithinTargets(s, owners[..n]);
      SubsetSize(Credited(s, owners[n].uid, |s.groups|), Active(s, owners[n].uid, |s.groups|));
    }
  }

  /** Once acknowledged, the credit needs no capping: it never exceeds the replicas asked for. */
  lemma CreditWithinReplicas(s: Snapshot)
    requires s.native.Hash? && Observed(s)
    ensures Retained(s) == TotalCredit(s, Owners(s))
  {
    if Acknowledged(s) {
      CreditWithinTargets(s, Owners(s));
    } else {
      NoCredit(s, Owners(s));
    }
  }

  lemma {:induction false} NoCredit(s: Snapshot, owners: seq<Owner>)
    requires !Acknowledged(s)
    ensures TotalCredit(s, owners) == 0
    decreases |owners|
  {
    hide Acknowledged;
    if |owners| > 0 {
      NoCredit(s, owners[..|owners| - 1]);
      assert Credited(s, owners[|owners| - 1].uid, |s.groups|) == {};
    }
  }

  /** The credit is exactly what the worst choice of victims leaves. */
  lemma RetainedIsWorstCase(s: Snapshot, n: nat)
    requires s.native.Hash? && Acknowledged(s) && Distinct(Owners(s)) && Observed(s) && Scoped(s)
    ensures n <= Retained(s) <==> forall victims | Chosen(s, Owners(s), victims) :: |Survivors(s, victims)| >= n
  {
    hide Owners, Acknowledged, Distinct, Observed, Scoped, Excess, Owned, Kept, TotalCredit, Survivors;
    CreditWithinReplicas(s);
    forall victims | Chosen(s, Owners(s), victims)
      ensures |Survivors(s, victims)| >= Retained(s)
    {
      CreditSurvives(s, victims);
    }
    var worst := WorstVictims(s, Owners(s));
    SurvivorsAreKept(s, worst);
  }

  // --- Each child's own view ---

  /**
   * Only groups coherently labelled with one of the children look Ready; every leader
   * still counts as a possible victim.
   */
  function Mask(group: Group, children: set<nat>): Group {
    group.(ready := group.ready && group.coherent && group.child in children)
  }

  function Masked(s: Snapshot, children: set<nat>): (view: Snapshot)
    ensures |view.groups| == |s.groups|
  {
    s.(groups := seq(|s.groups|, i requires 0 <= i < |s.groups| => Mask(s.groups[i], children)))
  }

  ghost function SurvivorsOf(s: Snapshot, child: nat, victims: set<nat>): set<nat> {
    set i | i in Survivors(s, victims) && s.groups[i].coherent && s.groups[i].child == child
  }

  lemma SameVictims(s: Snapshot, children: set<nat>)
    ensures var view := Masked(s, children);
            && Owners(view) == Owners(s) && (Acknowledged(view) <==> Acknowledged(s))
            && (forall owner: nat :: Active(view, owner, |view.groups|) == Active(s, owner, |s.groups|))
            && (forall owner: nat :: Owned(view, owner) == Owned(s, owner))
  {}

  lemma MaskPermits(s: Snapshot, child: nat, victims: set<nat>)
    requires Permitted(s, victims)
    ensures Permitted(Masked(s, {child}), victims)
  {
    SameVictims(s, {child});
    hide Owners, Acknowledged, Active, Owned;
  }

  lemma MaskSurvivors(s: Snapshot, child: nat, victims: set<nat>)
    ensures Survivors(Masked(s, {child}), victims) == SurvivorsOf(s, child, victims)
  {}

  /** However victims are chosen, as many of a child's eligible groups survive as its own view credits. */
  lemma ChildCreditSurvives(s: Snapshot, child: nat, victims: set<nat>)
    requires Distinct(Owners(s)) && Permitted(s, victims)
    ensures |SurvivorsOf(s, child, victims)| >= Retained(Masked(s, {child}))
  {
    SameVictims(s, {child});
    hide Masked, Owners, Distinct, Permitted, Survivors, SurvivorsOf, Retained;
    MaskPermits(s, child, victims);
    CreditSurvives(Masked(s, {child}), victims);
    MaskSurvivors(s, child, victims);
  }

  ghost function Seen(s: Snapshot, children: set<nat>, owner: nat): set<nat> {
    Credited(Masked(s, children), owner, |s.groups|)
  }

  lemma CreditsJoin(s: Snapshot, children: set<nat>, child: nat, owner: Owner)
    requires s.native.Hash? && child !in children
    ensures Credit(Masked(s, children), owner) + Credit(Masked(s, {child}), owner) <=
            Credit(Masked(s, children + {child}), owner)
  {
    SameVictims(s, children);
    SameVictims(s, {child});
    SameVictims(s, children + {child});
    var some, one, both :=
      Seen(s, children, owner.uid), Seen(s, {child}, owner.uid), Seen(s, children + {child}, owner.uid);
    SeenJoins(s, children, child, owner.uid);
    assert |both| == |some| + |one|;
  }

  lemma SeenJoins(s: Snapshot, children: set<nat>, child: nat, owner: nat)
    requires s.native.Hash? && child !in children
    ensures Seen(s, children + {child}, owner) == Seen(s, children, owner) + Seen(s, {child}, owner)
    ensures Seen(s, children, owner) !! Seen(s, {child}, owner)
  {
    SameVictims(s, children);
    SameVictims(s, {child});
    SameVictims(s, children + {child});
    hide Acknowledged;
  }

  lemma {:induction false} TotalsJoin(s: Snapshot, children: set<nat>, child: nat, owners: seq<Owner>)
    requires s.native.Hash? && child !in children
    ensures TotalCredit(Masked(s, children), owners) + TotalCredit(Masked(s, {child}), owners)
         <= TotalCredit(Masked(s, children + {child}), owners)
    decreases |owners|
  {
    if |owners| > 0 {
      hide Credit, Masked;
      TotalsJoin(s, children, child, owners[..|owners| - 1]);
      CreditsJoin(s, children, child, owners[|owners| - 1]);
    }
  }

  lemma {:induction false} MaskLowers(s: Snapshot, children: set<nat>, owners: seq<Owner>)
    requires s.native.Hash?
    ensures TotalCredit(Masked(s, children), owners) <= TotalCredit(s, owners)
    decreases |owners|
  {
    if |owners| > 0 {
      var n := |owners| - 1;
      MaskLowers(s, children, owners[..n]);
      SameVictims(s, children);
      hide Acknowledged, Owners;
      SubsetSize(Seen(s, children, owners[n].uid), Credited(s, owners[n].uid, |s.groups|));
    }
  }

  ghost function ChildCredits(s: Snapshot, children: seq<nat>): nat {
    if |children| == 0 then 0
    else ChildCredits(s, children[..|children| - 1]) + Retained(Masked(s, {children[|children| - 1]}))
  }

  ghost function Names(children: seq<nat>): set<nat> {
    set c | c in children
  }

  lemma LastName(children: seq<nat>)
    requires |children| > 0 && Unrepeated(children)
    ensures var n := |children| - 1;
            && Unrepeated(children[..n]) && children[n] !in Names(children[..n])
            && Names(children) == Names(children[..n]) + {children[n]}
  {
    assert children == children[..|children| - 1] + [children[|children| - 1]];
  }

  lemma {:induction false} CreditsAddUp(s: Snapshot, children: seq<nat>)
    requires s.native.Hash? && Observed(s) && Unrepeated(children)
    ensures ChildCredits(s, children) <= TotalCredit(Masked(s, Names(children)), Owners(s))
    decreases |children|
  {
    hide TotalCredit, Masked, Owners, Names, Unrepeated, Observed, Retained;
    if |children| > 0 {
      var n := |children| - 1;
      LastName(children);
      CreditsAddUp(s, children[..n]);
      TotalsJoin(s, Names(children[..n]), children[n], Owners(s));
      ChildUncapped(s, children[n]);
    }
  }

  lemma ChildUncapped(s: Snapshot, child: nat)
    requires s.native.Hash? && Observed(s)
    ensures Retained(Masked(s, {child})) == TotalCredit(Masked(s, {child}), Owners(s))
  {
    SameVictims(s, {child});
    CreditWithinReplicas(Masked(s, {child}));
  }

  /** The children of one workload never claim more between them than the workload retains. */
  lemma ChildrenShareCredit(s: Snapshot, children: seq<nat>)
    requires s.native.Hash? && Observed(s) && Unrepeated(children)
    ensures ChildCredits(s, children) <= Retained(s)
  {
    hide TotalCredit, Masked, Owners, ChildCredits;
    CreditsAddUp(s, children);
    MaskLowers(s, Names(children), Owners(s));
    CreditWithinReplicas(s);
  }
}
