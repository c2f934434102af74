/**
 * Assigning groups under a saved plan: each child's Ready floor is reserved
 * first, then eligible groups are preferred for every remaining place.
 */
module SubRoleFloors {
  import opened Roles
  import opened SubRoleAssignment

  function Select(groups: seq<Group>, p: Group -> bool): (chosen: seq<Group>)
    ensures |chosen| <= |groups|
  {
    if |groups| == 0 then [] else (if p(groups[0]) then [groups[0]] else []) + Select(groups[1..], p)
  }

  predicate Ready(group: Group) {
    group.eligible
  }

  predicate Unready(group: Group) {
    !group.eligible
  }

  function Outside(a: Assignment): Group -> bool {
    (group: Group) => group.uid !in a
  }

  /** UIDs of the groups that are retained Ready capacity. */
  ghost function EligibleUids(groups: seq<Group>): set<nat> {
    set k | 0 <= k < |groups| && groups[k].eligible :: groups[k].uid
  }

  predicate Within(counts: seq<nat>, a: Assignment) {
    forall child | 0 <= child < |counts| :: |Members(a, child)| <= counts[child]
  }

  /** What is left of the counts once an assignment is charged against them. */
  function Deduct(counts: seq<nat>, a: Assignment): (left: seq<nat>)
    requires Within(counts, a)
    ensures |left| == |counts|
  {
    seq(|counts|, child requires 0 <= child < |counts| => counts[child] - |Members(a, child)|)
  }

  /** The eligible groups: the floors are reserved, then every remaining place is offered to those left over. */
  function Serve(ready: seq<Group>, counts: seq<nat>, floor: seq<nat>): (served: Option<Assignment>)
    requires Distinct(ready) && Below(floor, counts)
    ensures served.Some? ==> Feasible(ready, counts, served.value)
  {
    var reserved := Sticky(ready, floor);
    StickyMeets(ready, floor);
    if |reserved| != Sum(floor) then None
    else
      var others := Select(ready, Outside(reserved));
      RestCount(ready, reserved);
      var spare := Sticky(others, Deduct(counts, reserved));
      StickyMeets(others, Deduct(counts, reserved));
      MergeFeasible(ready, counts, reserved, others, spare);
      Some(reserved + spare)
  }

  function ReadyFor(groups: seq<Group>, counts: seq<nat>, floor: seq<nat>): (result: Option<Assignment>)
    requires Distinct(groups) && Below(floor, counts)
  {
    var ready, unready := Select(groups, Ready), Select(groups, Unready);
    SelectUids(groups, Ready);
    var served := Serve(ready, counts, floor);
    if served.None? then None else Some(served.value + Sticky(unready, Deduct(counts, served.value)))
  }

  // --- Selecting groups ---

  lemma {:induction false} SelectKeeps(groups: seq<Group>, p: Group -> bool)
    requires Distinct(groups)
    ensures var chosen := Select(groups, p);
            && Distinct(chosen)
            && (forall k | 0 <= k < |chosen| :: chosen[k] in groups && p(chosen[k]))
            && (forall g | g in groups && p(g) :: g in chosen)
    decreases |groups|
  {
    if |groups| > 0 {
      var first, rest := groups[0], Select(groups[1..], p);
      SelectKeeps(groups[1..], p);
      assert groups == [first] + groups[1..];
      if p(first) {
        FirstSelected(groups, rest);
      }
    }
  }

  lemma FirstSelected(groups: seq<Group>, rest: seq<Group>)
    requires Distinct(groups) && |groups| > 0 && Distinct(rest) && forall k | 0 <= k < |rest| :: rest[k] in groups[1..]
    ensures Distinct([groups[0]] + rest)
  {
    forall j | 0 <= j < |rest|
      ensures rest[j].uid != groups[0].uid
    {
      var k :| 0 <= k < |groups[1..]| && groups[1..][k] == rest[j];
      assert groups[k + 1] == rest[j];
    }
  }

  lemma {:induction false} SelectPartition(groups: seq<Group>, p: Group -> bool, q: Group -> bool)
    requires forall g :: p(g) == !q(g)
    ensures |Select(groups, p)| + |Select(groups, q)| == |groups|
    decreases |groups|
  {
    if |groups| > 0 {
      SelectPartition(groups[1..], p, q);
    }
  }

  lemma SelectUids(groups: seq<Group>, p: Group -> bool)
    requires Distinct(groups)
    ensures Distinct(Select(groups, p)) && Uids(Select(groups, p)) <= Uids(groups)
    ensures Uids(Select(groups, p)) == set k | 0 <= k < |groups| && p(groups[k]) :: groups[k].uid
  {
    SelectKeeps(groups, p);
    var chosen := Select(groups, p);
    forall u | u in Uids(chosen)
      ensures u in set k | 0 <= k < |groups| && p(groups[k]) :: groups[k].uid
    {
      var j :| 0 <= j < |chosen| && chosen[j].uid == u;
      var k :| 0 <= k < |groups| && groups[k] == chosen[j];
    }
    forall k | 0 <= k < |groups| && p(groups[k])
      ensures groups[k].uid in Uids(chosen)
    {
      assert groups[k] in chosen;
    }
  }

  lemma RestUids(groups: seq<Group>, a: Assignment)
    requires Distinct(groups)
    ensures Distinct(Select(groups, Outside(a))) && Uids(Select(groups, Outside(a))) == Uids(groups) - a.Keys
  {
    SelectUids(groups, Outside(a));
    hide Select;
  }

  /** The groups an assignment leaves over. */
  lemma RestCount(groups: seq<Group>, a: Assignment)
    requires Distinct(groups) && a.Keys <= Uids(groups)
    ensures var rest := Select(groups, Outside(a));
            Distinct(rest) && |rest| == |groups| - |a| && Uids(rest) == Uids(groups) - a.Keys
  {
    hide Select, Uids, Distinct;
    RestUids(groups, a);
    UidCount(groups);
    UidCount(Select(groups, Outside(a)));
    assert Uids(groups) == (Uids(groups) - a.Keys) + a.Keys;
  }

  lemma ReadinessDisjoint(groups: seq<Group>)
    requires Distinct(groups)
    ensures Uids(Select(groups, Ready)) !! Uids(Select(groups, Unready))
    ensures Uids(Select(groups, Ready)) == EligibleUids(groups)
  {
    SelectUids(groups, Ready);
    SelectUids(groups, Unready);
    hide Select, Uids;
    forall u | u in Uids(Select(groups, Ready)) && u in Uids(Select(groups, Unready))
      ensures false
    {
      var j :| 0 <= j < |groups| && Ready(groups[j]) && groups[j].uid == u;
    }
  }

  /** The eligible groups and the others, apart. */
  ghost predicate Split(groups: seq<Group>, ready: seq<Group>, unready: seq<Group>) {
    && Uids(ready) == EligibleUids(groups)
    && Uids(ready) !! Uids(unready)
    && Uids(ready) <= Uids(groups)
    && Uids(unready) <= Uids(groups)
  }

  lemma SplitByReadiness(groups: seq<Group>, ready: seq<Group>, unready: seq<Group>)
    requires Distinct(groups) && ready == Select(groups, Ready) && unready == Select(groups, Unready)
    ensures Distinct(ready) && Distinct(unready) && Split(groups, ready, unready)
    ensures |ready| + |unready| == |groups| && |EligibleUids(groups)| == |ready|
  {
    SelectUids(groups, Ready);
    SelectUids(groups, Unready);
    SelectPartition(groups, Ready, Unready);
    hide Select, Uids, EligibleUids;
    ReadinessDisjoint(groups);
    UidCount(ready);
  }

  // --- Charging places ---

  ghost function MemberCounts(a: Assignment, children: nat): (counts: seq<nat>)
    ensures |counts| == children
  {
    seq(children, child requires 0 <= child < children => |Members(a, child)|)
  }

  ghost function MembersBelow(a: Assignment, children: nat): set<nat> {
    set u | u in a && a[u] < children
  }

  lemma {:induction false} CountBelow(a: Assignment, children: nat)
    ensures |MembersBelow(a, children)| == Sum(MemberCounts(a, children))
  {
    if children > 0 {
      CountBelow(a, children - 1);
      var counts := MemberCounts(a, children);
      assert counts[..children - 1] == MemberCounts(a, children - 1);
      assert MembersBelow(a, children) == MembersBelow(a, children - 1) + Members(a, children - 1);
      assert MembersBelow(a, children - 1) !! Members(a, children - 1);
    }
  }

  /** An assignment is exactly as large as its children together. */
  lemma TotalMembers(a: Assignment, children: nat)
    requires forall u | u in a :: a[u] < children
    ensures |a| == Sum(MemberCounts(a, children))
  {
    CountBelow(a, children);
    assert MembersBelow(a, children) == a.Keys;
  }

  lemma {:induction false} SumDifference(total: seq<nat>, part: seq<nat>, left: seq<nat>)
    requires |total| == |part| == |left| && forall i | 0 <= i < |total| :: part[i] + left[i] == total[i]
    ensures Sum(part) + Sum(left) == Sum(total)
    decreases |total|
  {
    if |total| > 0 {
      var n := |total| - 1;
      SumDifference(total[..n], part[..n], left[..n]);
    }
  }

  lemma DeductSum(counts: seq<nat>, a: Assignment)
    requires Within(counts, a) && forall u | u in a :: a[u] < |counts|
    ensures Sum(Deduct(counts, a)) + |a| == Sum(counts)
  {
    TotalMembers(a, |counts|);
    SumDifference(counts, MemberCounts(a, |counts|), Deduct(counts, a));
  }

  /** Adding an assignment of other groups within what is left stays feasible. */
  lemma MergeFeasible(groups: seq<Group>, counts: seq<nat>, a: Assignment, others: seq<Group>, b: Assignment)
    requires Feasible(groups, counts, a) && Feasible(others, Deduct(counts, a), b)
    requires Uids(others) <= Uids(groups) && a.Keys !! b.Keys
    ensures Feasible(groups, counts, a + b)
    ensures |a + b| == |a| + |b|
    ensures forall child | 0 <= child < |counts| :: |Members(a, child)| <= |Members(a + b, child)|
  {
    MergeSize(a, b);
    forall child | 0 <= child < |counts|
      ensures |Members(a + b, child)| == |Members(a, child)| + |Members(b, child)| <= counts[child]
    {
      Merge(a, b, child);
      assert Deduct(counts, a)[child] == counts[child] - |Members(a, child)|;
    }
  }

  lemma ExactFloors(groups: seq<Group>, floor: seq<nat>, a: Assignment)
    requires Feasible(groups, floor, a) && |a| == Sum(floor)
    ensures forall child | 0 <= child < |floor| :: |Members(a, child)| == floor[child]
  {
    TotalMembers(a, |floor|);
    SumBelow(MemberCounts(a, |floor|), floor);
    assert MemberCounts(a, |floor|) == floor;
  }

  // --- What the plan achieves ---

  /** Eligible groups placed: the floors first, then as many further places as they can fill. */
  ghost predicate Served(ready: seq<Group>, counts: seq<nat>, floor: seq<nat>, served: Assignment) {
    && |floor| == |counts|
    && Feasible(ready, counts, served) && |served| == Min(|ready|, Sum(counts))
    && forall child | 0 <= child < |counts| :: |Members(served, child)| >= floor[child]
  }

  lemma ServeMeets(ready: seq<Group>, counts: seq<nat>, floor: seq<nat>)
    requires Distinct(ready) && Below(floor, counts)
    ensures Serve(ready, counts, floor).None? <==> |ready| < Sum(floor)
    ensures Serve(ready, counts, floor).Some? ==> Served(ready, counts, floor, Serve(ready, counts, floor).value)
  {
    hide Uids, Members, Kept, Select, KeepsLabels, Sticky, Distinct, Served, Feasible, Outside;
    StickyMeets(ready, floor);
    if |Sticky(ready, floor)| == Sum(floor) {
      RestServed(ready, counts, floor);
    }
  }

  /** The floors reserved, the rest fills what is left of the counts. */
  lemma RestServed(ready: seq<Group>, counts: seq<nat>, floor: seq<nat>)
    requires Distinct(ready) && Below(floor, counts) && |Sticky(ready, floor)| == Sum(floor)
    ensures Serve(ready, counts, floor).Some? && Served(ready, counts, floor, Serve(ready, counts, floor).value)
  {
    hide Uids, Members, Kept, Select, KeepsLabels, Sticky, Distinct;
    var reserved := Sticky(ready, floor);
    StickyMeets(ready, floor);
    SumBelow(floor, counts);
    ExactFloors(ready, floor, reserved);
    RestCount(ready, reserved);
    DeductSum(counts, reserved);
    var others := Select(ready, Outside(reserved));
    StickyMeets(others, Deduct(counts, reserved));
    MergeFeasible(ready, counts, reserved, others, Sticky(others, Deduct(counts, reserved)));
  }

  /** What an assignment with saved floors achieves. */
  ghost predicate FloorsMet(groups: seq<Group>, counts: seq<nat>, floor: seq<nat>, a: Assignment) {
    && |floor| == |counts|
    && Feasible(groups, counts, a) && |a| == Min(|groups|, Sum(counts))
    && |a.Keys * EligibleUids(groups)| == Min(|EligibleUids(groups)|, Sum(counts))
    && forall child | 0 <= child < |counts| :: |Members(a, child) * EligibleUids(groups)| >= floor[child]
  }

  lemma FillFeasible(
    groups: seq<Group>, counts: seq<nat>, served: Assignment, filled: Assignment, ready: seq<Group>,
    unready: seq<Group>
  )
    requires Split(groups, ready, unready)
    requires Feasible(ready, counts, served) && Feasible(unready, Deduct(counts, served), filled)
    ensures Feasible(groups, counts, served + filled) && |served + filled| == |served| + |filled|
  {
    hide Uids, Members, Deduct;
    assert Feasible(groups, counts, served);
    assert served.Keys !! filled.Keys;
    MergeFeasible(groups, counts, served, unready, filled);
  }

  lemma ServedAreEligible(served: Assignment, filled: Assignment, eligible: set<nat>)
    requires served.Keys <= eligible && filled.Keys !! eligible
    ensures (served + filled).Keys * eligible == served.Keys
  {}

  lemma ServedStay(served: Assignment, filled: Assignment, eligible: set<nat>, child: nat)
    requires served.Keys <= eligible && filled.Keys !! eligible
    ensures Members(served, child) <= Members(served + filled, child) * eligible
  {}

  lemma FillKeepsFloors(counts: seq<nat>, floor: seq<nat>, served: Assignment, filled: Assignment, eligible: set<nat>)
    requires |floor| == |counts| && served.Keys <= eligible && filled.Keys !! eligible
    requires forall child | 0 <= child < |counts| :: |Members(served, child)| >= floor[child]
    ensures |(served + filled).Keys * eligible| == |served|
    ensures forall child | 0 <= child < |counts| :: |Members(served + filled, child) * eligible| >= floor[child]
  {
    ServedAreEligible(served, filled, eligible);
    forall child | 0 <= child < |counts|
      ensures |Members(served + filled, child) * eligible| >= floor[child]
    {
      ServedStay(served, filled, eligible, child);
      SubsetSize(Members(served, child), Members(served + filled, child) * eligible);
    }
  }

  /** The unready groups are assigned outside the eligible ones. */
  lemma FillOutside(
    groups: seq<Group>, counts: seq<nat>, left: seq<nat>, served: Assignment, filled: Assignment, ready: seq<Group>,
    unready: seq<Group>
  )
    requires Split(groups, ready, unready)
    requires Feasible(ready, counts, served) && Feasible(unready, left, filled)
    ensures served.Keys <= EligibleUids(groups) && filled.Keys !! EligibleUids(groups)
  {
    hide Uids, EligibleUids, Members;
  }

  lemma FillTotal(served: nat, filled: nat, ready: nat, unready: nat, room: nat)
    requires served == Min(ready, room) && filled == Min(unready, room - served)
    ensures served + filled == Min(ready + unready, room)
  {}

  lemma FillCounts(
    groups: seq<Group>, counts: seq<nat>, floor: seq<nat>, served: Assignment, filled: Assignment,
    ready: seq<Group>, unready: seq<Group>
  )
    requires Split(groups, ready, unready) && |groups| == |ready| + |unready|
    requires Served(ready, counts, floor, served) && Feasible(unready, Deduct(counts, served), filled)
    requires |filled| == Min(|unready|, Sum(counts) - |served|)
    ensures Feasible(groups, counts, served + filled) && |served + filled| == Min(|groups|, Sum(counts))
  {
    FillTotal(|served|, |filled|, |ready|, |unready|, Sum(counts));
    hide Uids, EligibleUids, Members, Deduct, Sum, Feasible, Split, Min;
    FillFeasible(groups, counts, served, filled, ready, unready);
  }

  lemma FloorsReached(
    groups: seq<Group>, counts: seq<nat>, floor: seq<nat>, served: Assignment, filled: Assignment,
    ready: seq<Group>, unready: seq<Group>
  )
    requires Split(groups, ready, unready) && |groups| == |ready| + |unready| && |EligibleUids(groups)| == |ready|
    requires Served(ready, counts, floor, served) && Feasible(unready, Deduct(counts, served), filled)
    requires |filled| == Min(|unready|, Sum(counts) - |served|)
    ensures FloorsMet(groups, counts, floor, served + filled)
  {
    var left := Deduct(counts, served);
    hide Uids, EligibleUids, Members, Deduct, Sum, Feasible, Split, Min;
    FillCounts(groups, counts, floor, served, filled, ready, unready);
    FillOutside(groups, counts, left, served, filled, ready, unready);
    FillKeepsFloors(counts, floor, served, filled, EligibleUids(groups));
  }

  /** There is no assignment exactly when too few groups are eligible; otherwise every floor is met. */
  lemma ReadyMeets(groups: seq<Group>, counts: seq<nat>, floor: seq<nat>)
    requires Distinct(groups) && Below(floor, counts)
    ensures ReadyFor(groups, counts, floor).None? <==> |EligibleUids(groups)| < Sum(floor)
    ensures ReadyFor(groups, counts, floor).Some? ==>
            FloorsMet(groups, counts, floor, ReadyFor(groups, counts, floor).value)
  {
    hide Uids, Members, Kept, Select, KeepsLabels, Sticky, Serve;
    var ready, unready := Select(groups, Ready), Select(groups, Unready);
    SplitByReadiness(groups, ready, unready);
    ServeMeets(ready, counts, floor);
    var served := Serve(ready, counts, floor);
    if served.Some? {
      DeductSum(counts, served.value);
      StickyMeets(unready, Deduct(counts, served.value));
      FloorsReached(groups, counts, floor, served.value, Sticky(unready, Deduct(counts, served.value)), ready, unready);
    }
  }

  method SplitReady(groups: seq<Group>) returns (ready: seq<Group>, unready: seq<Group>)
    ensures ready == Select(groups, Ready) && unready == Select(groups, Unready)
  {
    ready, unready := [], [];
    for i := 0 to |groups|
      invariant Select(groups, Ready) == ready + Select(groups[i..], Ready)
      invariant Select(groups, Unready) == unready + Select(groups[i..], Unready)
    {
      assert groups[i..][1..] == groups[i + 1..];
      if groups[i].eligible {
        ready := ready + [groups[i]];
      } else {
        unready := unready + [groups[i]];
      }
    }
    assert groups[|groups|..] == [];
  }

  /** Reserves each Ready floor, then prefers eligible groups for every remaining place. */
  method ReadyAssignments(groups: seq<Group>, counts: seq<nat>, floor: seq<nat>) returns (result: Option<Assignment>)
    requires Distinct(groups) && Below(floor, counts)
    ensures result == ReadyFor(groups, counts, floor)
    ensures result.None? <==> |EligibleUids(groups)| < Sum(floor)
    ensures result.Some? ==> FloorsMet(groups, counts, floor, result.value)
  {
    ReadyMeets(groups, counts, floor);
    hide Uids, Members, Kept, KeepsLabels, Sticky, Select, Distinct, FloorsMet, EligibleUids;
    var ready, unready := SplitReady(groups);
    SplitByReadiness(groups, ready, unready);
    var assignments := StickyAssignments(ready, floor);
    if |assignments| != Sum(floor) {
      return None;
    }
    RestCount(ready, assignments);
    var others := Select(ready, Outside(assignments));
    var spare := StickyAssignments(others, Deduct(counts, assignments));
    MergeFeasible(ready, counts, assignments, others, spare);
    assignments := assignments + spare;
    var filled := StickyAssignments(unready, Deduct(counts, assignments));
    return Some(assignments + filled);
  }
}
