/**
 * Admission of gated Hash leaders, and tear-down of groups whose restart budget
 * is exhausted. Each decision looks at one Pod and ranks it, by age, among its
 * peers in a Pod list that may be shared by many decisions.
 */
module GateAdmission {
  import opened Roles

  /** A Pod of the workload. Names are numbered in name order, and revision 0 is an absent revision. */
  datatype Pod = Pod(
    name: nat, created: nat, revision: nat, group: nat, leader: bool, exhausted: bool, deleting: bool, gated: bool
  )

  ghost predicate Named(pods: seq<Pod>) {
    forall i, j | 0 <= i < j < |pods| :: pods[i].name != pods[j].name
  }

  ghost function All(pods: seq<Pod>): set<Pod> {
    set p | p in pods
  }

  ghost predicate NamedSet(pods: set<Pod>) {
    forall p, q | p in pods && q in pods && p != q :: p.name != q.name
  }

  /** Older first; leaders of a preferred revision come before all others. */
  predicate Before(preferred: nat, p: Pod, q: Pod) {
    if preferred != 0 && (p.revision == preferred) != (q.revision == preferred) then p.revision == preferred
    else p.created < q.created || (p.created == q.created && p.name < q.name)
  }

  /** Peers that come before a Pod. */
  ghost function Rank(preferred: nat, peers: set<Pod>, pod: Pod): nat {
    |Earlier(preferred, peers, pod)|
  }

  ghost function Earlier(preferred: nat, peers: set<Pod>, pod: Pod): set<Pod> {
    set q | q in peers && Before(preferred, q, pod)
  }

  ghost predicate Sorted(preferred: nat, pods: seq<Pod>) {
    forall i, j | 0 <= i < j < |pods| :: Before(preferred, pods[i], pods[j])
  }

  // --- Sorting and ranking ---

  /** Puts one Pod in its place. */
  function Insert(preferred: nat, sorted: seq<Pod>, pod: Pod): seq<Pod> {
    if |sorted| == 0 || Before(preferred, pod, sorted[0]) then [pod] + sorted
    else [sorted[0]] + Insert(preferred, sorted[1..], pod)
  }

  lemma {:induction false} InsertSorted(preferred: nat, sorted: seq<Pod>, pod: Pod)
    requires Sorted(preferred, sorted) && forall i | 0 <= i < |sorted| :: sorted[i].name != pod.name
    ensures Sorted(preferred, Insert(preferred, sorted, pod))
    ensures All(Insert(preferred, sorted, pod)) == All(sorted) + {pod}
    ensures |Insert(preferred, sorted, pod)| == |sorted| + 1
    decreases |sorted|
  {
    if |sorted| > 0 && !Before(preferred, pod, sorted[0]) {
      InsertSorted(preferred, sorted[1..], pod);
      var rest := Insert(preferred, sorted[1..], pod);
      assert All(rest) == All(sorted[1..]) + {pod};
      assert sorted == [sorted[0]] + sorted[1..];
      forall j | 0 <= j < |rest|
        ensures Before(preferred, sorted[0], rest[j])
      {
        assert rest[j] in All(rest);
      }
    }
  }

  method Sort(preferred: nat, pods: seq<Pod>) returns (sorted: seq<Pod>)
    requires Named(pods)
    ensures Sorted(preferred, sorted) && All(sorted) == All(pods) && |sorted| == |pods|
  {
    sorted := [];
    for i := 0 to |pods|
      invariant Sorted(preferred, sorted) && All(sorted) == All(pods[..i]) && |sorted| == i
    {
      forall k | 0 <= k < |sorted|
        ensures sorted[k].name != pods[i].name
      {
        assert sorted[k] in All(pods[..i]);
      }
      InsertSorted(preferred, sorted, pods[i]);
      assert pods[..i + 1] == pods[..i] + [pods[i]];
      sorted := Insert(preferred, sorted, pods[i]);
    }
    assert pods[..|pods|] == pods;
  }

  lemma {:induction false} PrefixSize(pods: seq<Pod>, i: nat)
    requires i <= |pods| && forall a, b | 0 <= a < b < |pods| :: pods[a] != pods[b]
    ensures |All(pods[..i])| == i
    decreases i
  {
    if i > 0 {
      PrefixSize(pods, i - 1);
      assert pods[..i] == pods[..i - 1] + [pods[i - 1]];
      assert All(pods[..i]) == All(pods[..i - 1]) + {pods[i - 1]};
    }
  }

  /** A Pod's position among its sorted peers is its rank. */
  lemma PositionIsRank(preferred: nat, sorted: seq<Pod>, i: nat)
    requires Sorted(preferred, sorted) && i < |sorted|
    ensures Rank(preferred, All(sorted), sorted[i]) == i
  {
    PrefixSize(sorted, i);
    assert Earlier(preferred, All(sorted), sorted[i]) == All(sorted[..i]) by {
      forall q | q in All(sorted)
        ensures Before(preferred, q, sorted[i]) <==> q in All(sorted[..i])
      {
        var k :| 0 <= k < |sorted| && sorted[k] == q;
        if k < i {
          assert sorted[..i][k] == q;
        }
        if q in sorted[..i] {
          var j :| 0 <= j < i && sorted[..i][j] == q;
        }
      }
    }
  }

  /** The rank of the peer with a Pod's name, if there is one. */
  method RankOf(preferred: nat, peers: seq<Pod>, name: nat) returns (rank: Option<nat>)
    requires Named(peers)
    ensures rank.None? <==> forall q | q in peers :: q.name != name
    ensures rank.Some? ==> exists q | q in peers && q.name == name :: rank.value == Rank(preferred, All(peers), q)
  {
    var sorted := Sort(preferred, peers);
    for i := 0 to |sorted|
      invariant forall k | 0 <= k < i :: sorted[k].name != name
    {
      if sorted[i].name == name {
        PositionIsRank(preferred, sorted, i);
        assert sorted[i] in All(peers);
        return Some(i);
      }
    }
    forall q | q in peers
      ensures q.name != name
    {
      assert q in All(sorted);
    }
    return None;
  }

  // --- How many ranks lie below a bound ---

  ghost function Foremost(preferred: nat, peers: set<Pod>, bound: nat): set<Pod> {
    set p | p in peers && Rank(preferred, peers, p) < bound
  }

  lemma {:induction false} Latest(preferred: nat, peers: set<Pod>) returns (last: Pod)
    requires NamedSet(peers) && peers != {}
    ensures last in peers && forall q | q in peers && q != last :: Before(preferred, q, last)
    decreases |peers|
  {
    var p :| p in peers;
    var rest := peers - {p};
    if rest == {} {
      assert peers == {p};
      last := p;
    } else {
      var q := Latest(preferred, rest);
      assert p.name != q.name;
      last := if Before(preferred, p, q) then q else p;
      forall r | r in peers && r != last
        ensures Before(preferred, r, last)
      {
        assert r == p || r == q || Before(preferred, r, q);
      }
    }
  }

  lemma WithoutLatest(preferred: nat, peers: set<Pod>, last: Pod, p: Pod)
    requires last in peers && p in peers - {last} && forall q | q in peers && q != last :: Before(preferred, q, last)
    ensures Rank(preferred, peers, p) == Rank(preferred, peers - {last}, p)
  {
    assert !Before(preferred, last, p);
    assert Earlier(preferred, peers, p) == Earlier(preferred, peers - {last}, p);
  }

  /** Exactly as many peers rank below a bound as the bound allows. */
  lemma {:induction false} RanksFill(preferred: nat, peers: set<Pod>, bound: nat)
    requires NamedSet(peers)
    ensures |Foremost(preferred, peers, bound)| == Min(|peers|, bound)
    decreases |peers|
  {
    if peers != {} {
      var last := Latest(preferred, peers);
      var rest := peers - {last};
      RanksFill(preferred, rest, bound);
      forall p | p in rest
        ensures Rank(preferred, peers, p) == Rank(preferred, rest, p)
      {
        WithoutLatest(preferred, peers, last, p);
      }
      assert Earlier(preferred, peers, last) == rest;
      assert Foremost(preferred, peers, bound) == Foremost(preferred, rest, bound) +
             if |rest| < bound then {last} else {};
    }
  }

  // --- Admission ---

  predicate OnRevision(pod: Pod, revision: nat) {
    pod.leader && pod.revision == revision
  }

  predicate Waiting(pod: Pod) {
    !pod.exhausted && !pod.deleting && pod.gated
  }

  predicate Running(pod: Pod) {
    !pod.exhausted && !pod.deleting && !pod.gated
  }

  /** Gated leaders of a revision that wait for a slot. */
  ghost function WaitingOn(pods: seq<Pod>, revision: nat): set<Pod> {
    set p | p in pods && OnRevision(p, revision) && Waiting(p)
  }

  ghost function RunningOn(pods: seq<Pod>, revision: nat): set<Pod> {
    set p | p in pods && OnRevision(p, revision) && Running(p)
  }

  ghost function ExhaustedOn(pods: seq<Pod>, revision: nat): set<Pod> {
    set p | p in pods && OnRevision(p, revision) && p.exhausted
  }

  /** Gated leaders of every revision that still hold or may take capacity. */
  ghost function Gated(pods: seq<Pod>): set<Pod> {
    set p | p in pods && p.leader && !p.deleting && p.gated
  }

  predicate Live(pod: Pod) {
    pod.leader && !pod.deleting && !pod.exhausted
  }

  /** Groups with no live leader whose budget remains. */
  ghost function TearingDown(pods: seq<Pod>): set<nat> {
    (set p | p in pods :: p.group) - (set p | p in pods && Live(p) :: p.group)
  }

  ghost function Exhausted(pods: seq<Pod>): set<Pod> {
    set p | p in pods && p.leader && p.exhausted
  }

  /** Groups that each hold back one gated leader. */
  ghost function Blocking(pods: seq<Pod>, immediate: bool): nat {
    if immediate then |Exhausted(pods)| else |TearingDown(pods)|
  }

  predicate Outdated(pod: Pod, desired: nat) {
    desired != 0 && pod.revision != 0 && pod.revision != desired
  }

  ghost function Slots(pods: seq<Pod>, revision: nat, replicas: nat): nat {
    Max(0, replicas - |RunningOn(pods, revision)| - |ExhaustedOn(pods, revision)|)
  }

  /** Whether a gated leader is admitted on the evidence of one Pod list. */
  ghost predicate Admits(pods: seq<Pod>, pod: Pod, replicas: nat, desired: nat, immediate: bool) {
    && !Outdated(pod, desired)
    && pod in Foremost(0, WaitingOn(pods, pod.revision), Slots(pods, pod.revision, replicas))
    && (Blocking(pods, immediate) > 0 ==>
        pod in Foremost(desired, Gated(pods), Max(0, |Gated(pods)| - Blocking(pods, immediate))))
  }

  /** The leaders of a revision admitted by any number of decisions over the same list. */
  ghost function Admitted(pods: seq<Pod>, revision: nat, replicas: nat, desired: nat, immediate: bool): set<Pod> {
    set p | p in pods && p.revision == revision && Admits(pods, p, replicas, desired, immediate)
  }

  /**
   * However many leaders are judged by one stale list, the revision never outgrows
   * its slots or the groups being removed.
   */
  lemma AdmissionBounded(pods: seq<Pod>, revision: nat, replicas: nat, desired: nat, immediate: bool)
    requires Named(pods)
    ensures var admitted := Admitted(pods, revision, replicas, desired, immediate);
            && |admitted| <= Slots(pods, revision, replicas)
            && (Blocking(pods, immediate) > 0 ==> |admitted| <= Max(0, |Gated(pods)| - Blocking(pods, immediate)))
  {
    hide Rank, Blocking, Slots;
    var admitted := Admitted(pods, revision, replicas, desired, immediate);
    var slots, blocking := Slots(pods, revision, replicas), Blocking(pods, immediate);
    RanksFill(0, WaitingOn(pods, revision), slots);
    SubsetSize(admitted, Foremost(0, WaitingOn(pods, revision), slots));
    if blocking > 0 {
      var free := Max(0, |Gated(pods)| - blocking);
      RanksFill(desired, Gated(pods), free);
      SubsetSize(admitted, Foremost(desired, Gated(pods), free));
    }
  }

  /**
   * Among leaders of the preferred revision, the two rankings agree on Pods that are
   * waiting, unless exhausted leaders are gated too.
   */
  lemma SameRank(pods: seq<Pod>, desired: nat, pod: Pod)
    requires desired != 0 && pod in WaitingOn(pods, desired)
    requires forall p | p in Gated(pods) && p.revision == desired :: !p.exhausted
    ensures Rank(desired, Gated(pods), pod) == Rank(0, WaitingOn(pods, desired), pod)
  {
    assert Earlier(desired, Gated(pods), pod) == Earlier(0, WaitingOn(pods, desired), pod);
  }

  /** Waiting leaders of a revision that the groups being removed leave room for. */
  ghost function Unblocked(pods: seq<Pod>, revision: nat, desired: nat, immediate: bool): set<Pod> {
    WaitingOn(pods, revision) * Foremost(desired, Gated(pods), Max(0, |Gated(pods)| - Blocking(pods, immediate)))
  }

  /** A set of peers that holds every peer older than a member is a foremost set. */
  lemma OlderClosed(peers: set<Pod>, chosen: set<Pod>)
    requires NamedSet(peers) && chosen <= peers
    requires forall p, q | p in chosen && q in peers && Before(0, q, p) :: q in chosen
    ensures chosen == Foremost(0, peers, |chosen|)
  {
    forall p | p in peers
      ensures p in chosen <==> Rank(0, peers, p) < |chosen|
    {
      var older := Earlier(0, peers, p);
      if p in chosen {
        SubsetSize(older + {p}, chosen);
      } else {
        SubsetSize(chosen, older);
      }
    }
  }

  lemma RankMonotone(preferred: nat, peers: set<Pod>, p: Pod, q: Pod)
    requires Before(preferred, q, p)
    ensures Rank(preferred, peers, q) <= Rank(preferred, peers, p)
  {
    SubsetSize(Earlier(preferred, peers, q), Earlier(preferred, peers, p));
  }

  lemma UnblockedIsForemost(pods: seq<Pod>, revision: nat, desired: nat, immediate: bool)
    requires Named(pods)
    ensures var chosen := Unblocked(pods, revision, desired, immediate);
            chosen == Foremost(0, WaitingOn(pods, revision), |chosen|)
  {
    hide Blocking, Rank;
    var waiting, chosen := WaitingOn(pods, revision), Unblocked(pods, revision, desired, immediate);
    forall p, q | p in chosen && q in waiting && Before(0, q, p)
      ensures q in chosen
    {
      RankMonotone(desired, Gated(pods), p, q);
    }
    OlderClosed(waiting, chosen);
  }

  lemma AdmitsByAge(pods: seq<Pod>, revision: nat, replicas: nat, desired: nat, immediate: bool, p: Pod)
    requires Named(pods) && p in WaitingOn(pods, revision) && (desired == 0 || revision == 0 || revision == desired)
    ensures var slots, unblocked := Slots(pods, revision, replicas), |Unblocked(pods, revision, desired, immediate)|;
            Admits(pods, p, replicas, desired, immediate) <==>
            Rank(0, WaitingOn(pods, revision), p) <
              if Blocking(pods, immediate) > 0 then Min(slots, unblocked) else slots
  {
    hide Rank, Blocking, Slots;
    var waiting, unblocked := WaitingOn(pods, revision), Unblocked(pods, revision, desired, immediate);
    UnblockedIsForemost(pods, revision, desired, immediate);
    assert p in unblocked <==> p in Foremost(0, waiting, |unblocked|);
    assert p.revision == revision && p in Gated(pods);
  }

  lemma AdmittedWait(pods: seq<Pod>, revision: nat, replicas: nat, desired: nat, immediate: bool)
    ensures Admitted(pods, revision, replicas, desired, immediate) ==
            set p | p in WaitingOn(pods, revision) && Admits(pods, p, replicas, desired, immediate)
  {
    hide Rank, Blocking, Slots;
  }

  /**
   * Exactly which leaders of a revision are admitted: none of an outdated one,
   * and otherwise the oldest waiting ones, as many as slots and removals allow.
   */
  lemma AdmissionExact(pods: seq<Pod>, revision: nat, replicas: nat, desired: nat, immediate: bool)
    requires Named(pods)
    ensures var waiting, admitted := WaitingOn(pods, revision), Admitted(pods, revision, replicas, desired, immediate);
            var slots, unblocked := Slots(pods, revision, replicas), |Unblocked(pods, revision, desired, immediate)|;
            var bound := if Blocking(pods, immediate) > 0 then Min(slots, unblocked) else slots;
            if desired != 0 && revision != 0 && revision != desired then admitted == {}
            else admitted == Foremost(0, waiting, bound) && |admitted| == Min(|waiting|, bound)
  {
    hide Rank, Blocking, Slots;
    var waiting, slots := WaitingOn(pods, revision), Slots(pods, revision, replicas);
    var unblocked := Unblocked(pods, revision, desired, immediate);
    var bound := if Blocking(pods, immediate) > 0 then Min(slots, |unblocked|) else slots;
    AdmittedWait(pods, revision, replicas, desired, immediate);
    RanksFill(0, waiting, bound);
    if desired == 0 || revision == 0 || revision == desired {
      forall p | p in waiting
        ensures Admits(pods, p, replicas, desired, immediate) <==> Rank(0, waiting, p) < bound
      {
        AdmitsByAge(pods, revision, replicas, desired, immediate, p);
      }
      hide Admits, Admitted, WaitingOn;
      assert Admitted(pods, revision, replicas, desired, immediate) == Foremost(0, waiting, bound);
    }
  }

  /**
   * For the desired revision removals leave room for all gated leaders but that many,
   * if none of its own is exhausted.
   */
  lemma UnblockedCount(pods: seq<Pod>, desired: nat, immediate: bool)
    requires Named(pods) && desired != 0
    requires forall p | p in Gated(pods) && p.revision == desired :: !p.exhausted
    ensures |Unblocked(pods, desired, desired, immediate)|
         == Min(|WaitingOn(pods, desired)|, Max(0, |Gated(pods)| - Blocking(pods, immediate)))
  {
    hide Rank, Blocking;
    var waiting, free := WaitingOn(pods, desired), Max(0, |Gated(pods)| - Blocking(pods, immediate));
    forall p | p in waiting
      ensures Rank(desired, Gated(pods), p) == Rank(0, waiting, p)
    {
      SameRank(pods, desired, p);
    }
    assert Unblocked(pods, desired, desired, immediate) == Foremost(0, waiting, free);
    RanksFill(0, waiting, free);
  }

  /** The groups of the given Pods that have no live leader left. */
  method CountTearingDown(pods: seq<Pod>) returns (count: nat)
    ensures count == |TearingDown(pods)|
  {
    var alive: map<nat, bool> := map[];
    for i := 0 to |pods|
      invariant alive.Keys == set p | p in pods[..i] :: p.group
      invariant forall g | g in alive :: alive[g] <==> g in set p | p in pods[..i] && Live(p) :: p.group
    {
      var p := pods[i];
      assert pods[..i + 1] == pods[..i] + [p];
      var wasAlive := p.group in alive && alive[p.group];
      alive := alive[p.group := wasAlive || Live(p)];
    }
    assert pods[..|pods|] == pods;
    var torn := set g | g in alive && !alive[g];
    assert torn == TearingDown(pods);
    return |torn|;
  }

  lemma Fresh(pods: seq<Pod>, i: nat)
    requires Named(pods) && i < |pods|
    ensures pods[..i + 1] == pods[..i] + [pods[i]] && forall q | q in pods[..i] :: q.name != pods[i].name
  {}

  lemma MoreWaiting(pods: seq<Pod>, p: Pod, revision: nat)
    requires forall q | q in pods :: q.name != p.name
    ensures WaitingOn(pods + [p], revision) == WaitingOn(pods, revision) +
            if OnRevision(p, revision) && Waiting(p) then {p} else {}
    ensures forall q | q in WaitingOn(pods, revision) :: q.name != p.name
  {}

  lemma MoreRunning(pods: seq<Pod>, p: Pod, revision: nat)
    requires forall q | q in pods :: q.name != p.name
    ensures RunningOn(pods + [p], revision) == RunningOn(pods, revision) +
            if OnRevision(p, revision) && Running(p) then {p} else {}
    ensures forall q | q in RunningOn(pods, revision) :: q.name != p.name
  {}

  lemma MoreExhausted(pods: seq<Pod>, p: Pod, revision: nat)
    requires forall q | q in pods :: q.name != p.name
    ensures ExhaustedOn(pods + [p], revision) == ExhaustedOn(pods, revision) +
            if OnRevision(p, revision) && p.exhausted then {p} else {}
    ensures forall q | q in ExhaustedOn(pods, revision) :: q.name != p.name
  {}

  /** A list of Pods with distinct names, and the set of them. */
  ghost predicate Lists(list: seq<Pod>, members: set<Pod>) {
    Named(list) && All(list) == members && |list| == |members|
  }

  lemma Append(list: seq<Pod>, p: Pod, members: set<Pod>)
    requires Lists(list, members) && forall q | q in members :: q.name != p.name
    ensures Lists(list + [p], members + {p})
  {
    forall k | 0 <= k < |list|
      ensures list[k].name != p.name
    {
      assert list[k] in All(list);
    }
  }

  /** What the given Pods hold on a revision. */
  ghost predicate Tallied(pods: seq<Pod>, revision: nat, admitted: nat, exhausted: seq<Pod>, waiting: seq<Pod>) {
    && admitted == |RunningOn(pods, revision)|
    && Lists(exhausted, ExhaustedOn(pods, revision))
    && Lists(waiting, WaitingOn(pods, revision))
  }

  lemma TallyOne(pods: seq<Pod>, p: Pod, revision: nat, admitted: nat, exhausted: seq<Pod>, waiting: seq<Pod>)
    requires Tallied(pods, revision, admitted, exhausted, waiting) && forall q | q in pods :: q.name != p.name
    ensures var mine := OnRevision(p, revision);
            Tallied(pods + [p], revision, admitted + (if mine && Running(p) then 1 else 0),
              if mine && p.exhausted then exhausted + [p] else exhausted,
              if mine && Waiting(p) then waiting + [p] else waiting)
  {
    hide WaitingOn, ExhaustedOn, RunningOn, Lists;
    MoreWaiting(pods, p, revision);
    MoreRunning(pods, p, revision);
    MoreExhausted(pods, p, revision);
    if OnRevision(p, revision) {
      if p.exhausted {
        Append(exhausted, p, ExhaustedOn(pods, revision));
      } else if Waiting(p) {
        Append(waiting, p, WaitingOn(pods, revision));
      }
    }
  }

  /** What one pass over the list finds on a revision. */
  method Census(pods: seq<Pod>, revision: nat) returns (admitted: nat, exhausted: seq<Pod>, waiting: seq<Pod>)
    requires Named(pods)
    ensures Tallied(pods, revision, admitted, exhausted, waiting)
  {
    admitted, exhausted, waiting := 0, [], [];
    NoneYet(revision);
    hide Tallied, Named;
    for i := 0 to |pods|
      invariant Tallied(pods[..i], revision, admitted, exhausted, waiting)
    {
      var p := pods[i];
      Fresh(pods, i);
      TallyOne(pods[..i], p, revision, admitted, exhausted, waiting);
      if OnRevision(p, revision) {
        if p.exhausted {
          exhausted := exhausted + [p];
        } else if !p.deleting {
          if p.gated {
            waiting := waiting + [p];
          } else {
            admitted := admitted + 1;
          }
        }
      }
    }
    assert pods[..|pods|] == pods;
  }

  lemma NoneYet(revision: nat)
    ensures Tallied([], revision, 0, [], [])
  {
    assert All([]) == WaitingOn([], revision) == ExhaustedOn([], revision) == RunningOn([], revision) == {};
  }

  lemma MoreGated(pods: seq<Pod>, p: Pod)
    requires forall q | q in pods :: q.name != p.name
    ensures Gated(pods + [p]) == Gated(pods) + if p.leader && !p.deleting && p.gated then {p} else {}
    ensures forall q | q in Gated(pods) :: q.name != p.name
  {}

  method ListGated(pods: seq<Pod>) returns (gated: seq<Pod>)
    requires Named(pods)
    ensures Lists(gated, Gated(pods))
  {
    gated := [];
    assert Gated([]) == All([]) == {};
    for i := 0 to |pods|
      invariant Lists(gated, Gated(pods[..i]))
    {
      var p := pods[i];
      Fresh(pods, i);
      MoreGated(pods[..i], p);
      if p.leader && !p.deleting && p.gated {
        Append(gated, p, Gated(pods[..i]));
        gated := gated + [p];
      }
    }
    assert pods[..|pods|] == pods;
  }

  lemma AlsoExhausted(pods: seq<Pod>, p: Pod)
    requires forall q | q in pods :: q.name != p.name
    ensures |Exhausted(pods + [p])| == |Exhausted(pods)| + if p.leader && p.exhausted then 1 else 0
  {
    assert Exhausted(pods + [p]) == Exhausted(pods) + if p.leader && p.exhausted then {p} else {};
  }

  method CountExhausted(pods: seq<Pod>) returns (count: nat)
    requires Named(pods)
    ensures count == |Exhausted(pods)|
  {
    count := 0;
    for i := 0 to |pods|
      invariant count == |Exhausted(pods[..i])|
    {
      Fresh(pods, i);
      AlsoExhausted(pods[..i], pods[i]);
      if pods[i].leader && pods[i].exhausted {
        count := count + 1;
      }
    }
    assert pods[..|pods|] == pods;
  }

  lemma SameName(peers: seq<Pod>, p: Pod, q: Pod)
    requires Named(peers) && p in peers && q in peers && p.name == q.name
    ensures p == q
  {}

  /** Whether the gate of one leader may be lifted. */
  method AdmitGated(pods: seq<Pod>, pod: Pod, replicas: nat, desired: nat, immediate: bool) returns (admit: bool)
    requires Named(pods)
    ensures pod in pods ==> (admit <==> Admits(pods, pod, replicas, desired, immediate))
    ensures (forall q | q in pods :: q.name != pod.name) ==> !admit
  {
    if Outdated(pod, desired) {
      return false;
    }
    var admitted, exhausted, waiting := Census(pods, pod.revision);
    var rank := RankOf(0, waiting, pod.name);
    RankedAmong(pods, pod, 0, waiting, WaitingOn(pods, pod.revision), rank);
    if rank.None? || admitted + |exhausted| + rank.value >= replicas {
      return false;
    }
    var blocking := 0;
    if immediate {
      blocking := CountExhausted(pods);
    } else {
      blocking := CountTearingDown(pods);
    }
    if blocking > 0 {
      var gated := ListGated(pods);
      rank := RankOf(desired, gated, pod.name);
      RankedAmong(pods, pod, desired, gated, Gated(pods), rank);
      if rank.None? || rank.value >= |gated| - blocking {
        return false;
      }
    }
    return true;
  }

  /** Looking a Pod of the list up by name among some of them finds that Pod. */
  lemma RankedAmong(pods: seq<Pod>, pod: Pod, preferred: nat, list: seq<Pod>, members: set<Pod>, rank: Option<nat>)
    requires Named(pods) && Lists(list, members) && members <= All(pods)
    requires rank.None? <==> forall q | q in list :: q.name != pod.name
    requires rank.Some? ==> exists q | q in list && q.name == pod.name :: rank.value == Rank(preferred, All(list), q)
    ensures pod in pods ==>
            (rank.Some? <==> pod in members) && (rank.Some? ==> rank.value == Rank(preferred, members, pod))
    ensures (forall q | q in pods :: q.name != pod.name) ==> rank.None?
  {
    hide Rank, Named;
    forall q | q in list
      ensures q in pods && q in members
    {
      assert q in All(list);
    }
    if pod in pods && rank.Some? {
      var q :| q in list && q.name == pod.name && rank.value == Rank(preferred, All(list), q);
      SameName(pods, pod, q);
    }
    if pod in pods && pod in members {
      assert pod in All(list);
    }
  }

  // --- Exhausted groups ---

  /**
   * Groups that hold a replica slot without counting exhausted ones: each exhausted
   * leader accounts for one gated replacement.
   */
  ghost function ActiveGroups(pods: seq<Pod>, revision: nat): nat {
    |RunningOn(pods, revision)| + Max(0, |WaitingOn(pods, revision)| - |ExhaustedOn(pods, revision)|)
  }

  ghost function AllowedExhausted(pods: seq<Pod>, revision: nat, replicas: nat): nat {
    Max(0, replicas - ActiveGroups(pods, revision))
  }

  /** Whether a leader's group is to be torn down. */
  ghost predicate TearsDown(pods: seq<Pod>, leader: Pod, replicas: nat, desired: nat) {
    || (desired != 0 && desired != leader.revision)
    || if leader in ExhaustedOn(pods, leader.revision)
       then leader !in Foremost(0, ExhaustedOn(pods, leader.revision),
                                AllowedExhausted(pods, leader.revision, replicas))
       else replicas <= ActiveGroups(pods, leader.revision)
  }

  method TeardownRequested(pods: seq<Pod>, leader: Pod, replicas: nat, desired: nat) returns (teardown: bool)
    requires Named(pods)
    ensures leader in pods ==> (teardown <==> TearsDown(pods, leader, replicas, desired))
  {
    if desired != 0 && desired != leader.revision {
      return true;
    }
    var admitted, exhausted, waiting := Census(pods, leader.revision);
    var active := admitted + Max(0, |waiting| - |exhausted|);
    var rank := RankOf(0, exhausted, leader.name);
    RankedAmong(pods, leader, 0, exhausted, ExhaustedOn(pods, leader.revision), rank);
    if rank.Some? {
      return rank.value >= Max(0, replicas - active);
    }
    return replicas <= active;
  }

  /** The exhausted leaders of a revision that one list would retain. */
  ghost function RetainedExhausted(pods: seq<Pod>, revision: nat, replicas: nat, desired: nat): set<Pod> {
    set p | p in ExhaustedOn(pods, revision) && !TearsDown(pods, p, replicas, desired)
  }

  /**
   * Judging every exhausted group by one list retains exactly as many as there are
   * slots for, unless the revision is being replaced.
   */
  lemma ExhaustedRetained(pods: seq<Pod>, revision: nat, replicas: nat, desired: nat)
    requires Named(pods)
    ensures |RetainedExhausted(pods, revision, replicas, desired)| ==
            if desired != 0 && desired != revision then 0
            else Min(|ExhaustedOn(pods, revision)|, AllowedExhausted(pods, revision, replicas))
  {
    hide Rank, AllowedExhausted, ActiveGroups;
    var retained := RetainedExhausted(pods, revision, replicas, desired);
    if desired != 0 && desired != revision {
      assert retained == {};
    } else {
      assert retained == Foremost(0, ExhaustedOn(pods, revision), AllowedExhausted(pods, revision, replicas));
      RanksFill(0, ExhaustedOn(pods, revision), AllowedExhausted(pods, revision, replicas));
    }
  }
}
