/**
 * Around the sub-role transfer: starting and reading a plan, repairing labels,
 * and publishing the counts once every survivor carries its label.
 */
module SubRolePlan {
  import opened Roles
  import opened SubRoleAssignment
  import opened SubRoleFloors
  import opened SubRoleStability
  import opened SubRoleTransfer

  /**
   * An observed group. It is active unless its leader is going or gone, coherent
   * if all its Pods agree with the leader's label, and blank without one.
   */
  datatype Member = Member(group: Group, active: bool, coherent: bool, blank: bool)

  /** A saved plan: the counts to reach, and Ready floors by label. */
  datatype Plan = Plan(counts: seq<nat>, readyFloor: map<nat, nat>)

  function CountOf(counts: seq<nat>, child: nat): nat {
    if child < |counts| then counts[child] else 0
  }

  predicate CountsReady(member: Member) {
    member.active && member.coherent && member.group.eligible
  }

  /** Retained Ready groups of a label. */
  function ReadyMembers(members: seq<Member>, child: nat): nat {
    if |members| == 0 then 0
    else
      var last := members[|members| - 1];
      ReadyMembers(members[..|members| - 1], child) + (if CountsReady(last) && last.group.child == child then 1 else 0)
  }

  function Reduction(issued: seq<nat>, pending: seq<nat>, child: nat): nat {
    Max(0, CountOf(issued, child) - CountOf(pending, child))
  }

  // --- Starting a plan ---

  /** Counts Ready groups by label, then gives up one for each group a child is reduced by. */
  method StartPlan(observed: Option<seq<Member>>, issued: seq<nat>, pending: seq<nat>) returns (plan: Plan)
    ensures plan.counts == pending
    ensures observed.None? ==> plan.readyFloor == map[]
    ensures observed.Some? ==> Starts(observed.value, issued, pending, plan)
  {
    var floor: map<nat, nat> := map[];
    if observed.Some? {
      var members := observed.value;
      for i := 0 to |members|
        invariant forall child: nat :: child in floor <==> ReadyMembers(members[..i], child) > 0
        invariant forall child | child in floor :: floor[child] == ReadyMembers(members[..i], child)
      {
        assert members[..i + 1][..i] == members[..i];
        var name := members[i].group.child;
        if CountsReady(members[i]) {
          floor := floor[name := (if name in floor then floor[name] else 0) + 1];
        }
      }
      assert members[..|members|] == members;
      var names := floor.Keys;
      while names != {}
        invariant names <= floor.Keys
        invariant forall child: nat :: child in floor <==> ReadyMembers(members, child) > 0
        invariant forall child | child in names :: floor[child] == ReadyMembers(members, child)
        invariant forall child | child in floor.Keys - names ::
                    floor[child] == Max(0, ReadyMembers(members, child) - Reduction(issued, pending, child))
        decreases names
      {
        var name :| name in names;
        floor := floor[name := Max(0, floor[name] - Reduction(issued, pending, name))];
        names := names - {name};
      }
    }
    plan := Plan(pending, floor);
  }

  /** Every label with Ready groups has a floor: what it has, less its reduction. */
  ghost predicate Starts(members: seq<Member>, issued: seq<nat>, pending: seq<nat>, plan: Plan) {
    && plan.counts == pending
    && (forall child: nat :: child in plan.readyFloor <==> ReadyMembers(members, child) > 0)
    && forall child | child in plan.readyFloor ::
         plan.readyFloor[child] == Max(0, ReadyMembers(members, child) - Reduction(issued, pending, child))
  }

  /** What reading a saved plan back insists on. */
  ghost predicate Readable(plan: Plan) {
    forall child | child in plan.readyFloor :: plan.readyFloor[child] <= CountOf(plan.counts, child)
  }

  method ReadPlan(plan: Plan) returns (readable: bool)
    ensures readable <==> Readable(plan)
  {
    var names := plan.readyFloor.Keys;
    while names != {}
      invariant names <= plan.readyFloor.Keys
      invariant forall child | child in plan.readyFloor.Keys - names ::
                  plan.readyFloor[child] <= CountOf(plan.counts, child)
      decreases names
    {
      var name :| name in names;
      if plan.readyFloor[name] > CountOf(plan.counts, name) {
        return false;
      }
      names := names - {name};
    }
    return true;
  }

  /** A started plan can be read back exactly when no label has more Ready groups than it was issued or is to have. */
  lemma StartedReadableIff(members: seq<Member>, issued: seq<nat>, pending: seq<nat>, plan: Plan)
    requires Starts(members, issued, pending, plan)
    ensures Readable(plan) <==>
            forall child: nat :: ReadyMembers(members, child) <= Max(CountOf(issued, child), CountOf(pending, child))
  {
    hide ReadyMembers;
    forall child: nat
      ensures ReadyMembers(members, child) <= Max(CountOf(issued, child), CountOf(pending, child)) <==>
              (child in plan.readyFloor ==> plan.readyFloor[child] <= CountOf(plan.counts, child))
    {
      if child !in plan.readyFloor {
        assert !(ReadyMembers(members, child) > 0);
      }
    }
  }

  /** The floors of a readable plan as a vector over its children. */
  function Floors(plan: Plan): (floor: seq<nat>)
    ensures |floor| == |plan.counts|
  {
    seq(|plan.counts|, child requires 0 <= child < |plan.counts| =>
      if child in plan.readyFloor then plan.readyFloor[child] else 0)
  }

  /** A readable plan meets what assigning by floors needs, and loses no floor by being read as a vector. */
  lemma ReadableFloors(plan: Plan, child: nat)
    requires Readable(plan)
    ensures Below(Floors(plan), plan.counts)
    ensures FloorOf(Some(Floors(plan)), child) == if child in plan.readyFloor then plan.readyFloor[child] else 0
  {}

  // --- A reduction of N loses at most N Ready groups ---

  /** Groups that are active and coherently labelled. */
  function Steady(groups: seq<Group>): (members: seq<Member>)
    ensures |members| == |groups|
  {
    seq(|groups|, k requires 0 <= k < |groups| => Member(groups[k], true, true, false))
  }

  lemma {:induction false} SteadyReady(groups: seq<Group>, child: nat)
    ensures ReadyMembers(Steady(groups), child) == ReadyLabelled(groups, child)
    decreases |groups|
  {
    if |groups| > 0 {
      var n := |groups| - 1;
      SteadyReady(groups[..n], child);
      assert Steady(groups)[..n] == Steady(groups[..n]);
      assert groups == groups[..n] + [groups[n]];
      ReadyLabelledAppend(groups[..n], groups[n], child);
    }
  }

  lemma ReadyLabelledFirst(groups: seq<Group>, child: nat)
    requires |groups| > 0
    ensures ReadyLabelled(groups, child) ==
            ReadyLabelled(groups[1..], child) + (if groups[0].eligible && groups[0].child == child then 1 else 0)
  {
    var rest := Select(groups[1..], Ready);
    assert Select(groups, Ready) == if groups[0].eligible then [groups[0]] + rest else rest;
    assert ([groups[0]] + rest)[1..] == rest;
  }

  lemma {:induction false} ReadyLabelledAppend(groups: seq<Group>, last: Group, child: nat)
    ensures ReadyLabelled(groups + [last], child) == ReadyLabelled(groups, child) + ReadyLabelled([last], child)
    ensures ReadyLabelled([last], child) == if last.eligible && last.child == child then 1 else 0
    decreases |groups|
  {
    ReadyLabelledFirst([last], child);
    if |groups| == 0 {
      assert groups + [last] == [last];
    } else {
      ReadyLabelledAppend(groups[1..], last, child);
      ReadyLabelledFirst(groups, child);
      ReadyLabelledFirst(groups + [last], child);
      assert (groups + [last])[1..] == groups[1..] + [last];
    }
  }

  lemma {:induction false} ReadyMembersAppend(a: seq<Member>, b: seq<Member>, child: nat)
    ensures ReadyMembers(a + b, child) == ReadyMembers(a, child) + ReadyMembers(b, child)
    decreases |b|
  {
    if |b| == 0 {
      assert a + b == a;
    } else {
      assert (a + b)[..|a + b| - 1] == a + b[..|b| - 1];
      ReadyMembersAppend(a, b[..|b| - 1], child);
    }
  }

  /** Ready groups labelled with a child and assigned to it. */
  lemma {:induction false} SettledReady(groups: seq<Group>, a: Assignment, child: nat)
    requires Settled(groups, a)
    ensures |Members(a, child) * EligibleUids(groups)| <= ReadyLabelled(groups, child)
    decreases |groups|
  {
    if |groups| > 0 {
      var first, rest := groups[0], groups[1..];
      assert Settled(rest, a);
      SettledReady(rest, a, child);
      ReadyLabelledFirst(groups, child);
      var mine, before := Members(a, child) * EligibleUids(groups), Members(a, child) * EligibleUids(rest);
      hide ReadyLabelled, Settled;
      if first.eligible && first.child == child {
        EligibleFirst(groups);
        SubsetSize(mine, before + {first.uid});
      } else {
        EligibleFirst(groups);
        SubsetSize(mine, before);
      }
    } else {
      assert Members(a, child) * EligibleUids(groups) == {};
    }
  }

  lemma EligibleFirst(groups: seq<Group>)
    requires |groups| > 0
    ensures EligibleUids(groups) == EligibleUids(groups[1..]) + if groups[0].eligible then {groups[0].uid} else {}
  {
    assert groups == [groups[0]] + groups[1..];
  }

  /** Survivors that carry the labels of a plan meet its floors by themselves. */
  lemma SettledMeetsFloors(prefix: seq<Group>, target: seq<nat>, floor: seq<nat>, child: nat)
    requires Distinct(prefix) && Below(floor, target) && ReadyFor(prefix, target, floor).Some? && child < |target|
    requires Settled(prefix, ReadyFor(prefix, target, floor).value)
    ensures ReadyLabelled(prefix, child) >= floor[child]
  {
    hide ReadyFor, Settled, ReadyLabelled, Members, EligibleUids, Feasible;
    ReadyMeets(prefix, target, floor);
    SettledReady(prefix, ReadyFor(prefix, target, floor).value, child);
  }

  /**
   * A reduction of N loses at most N Ready groups: from the start of a plan to the
   * end of its transfer, when the labels of all other groups are cleared and only
   * the survivors are left, a child loses at most what the plan takes from it.
   */
  lemma PlanBudgetKept(prefix: seq<Group>, others: seq<Group>, issued: seq<nat>, plan: Plan, passes: nat, child: nat)
    requires Starts(Steady(prefix) + Steady(others), issued, plan.counts, plan) && Readable(plan)
    requires Planned(prefix, plan.counts, Floors(plan))
    requires passes >= Mislabelled(prefix, Placed(prefix, plan.counts, Floors(plan)))
    ensures ReadyLabelled(AfterPasses(prefix, plan.counts, Floors(plan), passes), child)
            + Reduction(issued, plan.counts, child)
            >= ReadyLabelled(prefix, child) + ReadyLabelled(others, child)
  {
    hide AfterPasses, ReadyMembers, ReadyLabelled, Settled, Mislabelled, ReadyFor, Distinct;
    var floor := Floors(plan);
    StartedFloor(prefix, others, issued, plan, child);
    TransferFinishes(prefix, plan.counts, floor, passes);
    if child < |plan.counts| {
      SettledMeetsFloors(AfterPasses(prefix, plan.counts, floor, passes), plan.counts, floor, child);
    }
  }

  /** What a readable plan saved: no less than there was, less the reduction. */
  lemma StartedFloor(prefix: seq<Group>, others: seq<Group>, issued: seq<nat>, plan: Plan, child: nat)
    requires Starts(Steady(prefix) + Steady(others), issued, plan.counts, plan) && Readable(plan)
    ensures FloorOf(Some(Floors(plan)), child) + Reduction(issued, plan.counts, child)
            >= ReadyLabelled(prefix, child) + ReadyLabelled(others, child)
  {
    hide ReadyMembers, ReadyLabelled, Reduction;
    ReadyMembersAppend(Steady(prefix), Steady(others), child);
    SteadyReady(prefix, child);
    SteadyReady(others, child);
    ReadableFloors(plan, child);
  }

  /** Until then, with the labels of all other groups still in place, it has no less at any point. */
  lemma PlanFloorKept(prefix: seq<Group>, others: seq<Group>, issued: seq<nat>, plan: Plan, passes: nat, child: nat)
    requires Starts(Steady(prefix) + Steady(others), issued, plan.counts, plan) && Readable(plan)
    requires Planned(prefix, plan.counts, Floors(plan))
    ensures var after := AfterPasses(prefix, plan.counts, Floors(plan), passes);
            ReadyLabelled(after, child) + ReadyLabelled(others, child) + Reduction(issued, plan.counts, child)
            >= ReadyLabelled(prefix, child) + ReadyLabelled(others, child)
  {
    hide AfterPasses, ReadyMembers, Planned, ReadyLabelled, Reduction;
    StartedFloor(prefix, others, issued, plan, child);
    TransferRun(prefix, others, plan.counts, Floors(plan), passes);
  }

  // --- Repairing labels ---

  function GroupsOf(members: seq<Member>): (groups: seq<Group>)
    ensures |groups| == |members| && forall k | 0 <= k < |members| :: groups[k] == members[k].group
  {
    seq(|members|, k requires 0 <= k < |members| => members[k].group)
  }

  /** Mixed labels, or a survivor without one. */
  predicate NeedsRepair(member: Member, a: Assignment) {
    !member.coherent || (member.group.uid in a && member.blank)
  }

  /** All Pods of the group carry its assignment; without one they carry no label, which `outside` stands for. */
  function Written(member: Member, a: Assignment, outside: nat): Member {
    var group := member.group;
    if group.uid in a then Member(group.(child := a[group.uid]), member.active, true, false)
    else Member(group.(child := outside), member.active, true, true)
  }

  function Repaired(members: seq<Member>, a: Assignment, outside: nat): (after: seq<Member>)
    ensures |after| == |members|
  {
    seq(|members|, k requires 0 <= k < |members| =>
      if NeedsRepair(members[k], a) then Written(members[k], a, outside) else members[k])
  }

  ghost predicate RepairNeeded(members: seq<Member>, a: Assignment) {
    exists k | 0 <= k < |members| :: NeedsRepair(members[k], a)
  }

  /** The survivors: the ordinals from `lo` up to `hi`. */
  function Survivors(members: seq<Member>, lo: nat, hi: nat): (groups: seq<Group>)
    requires lo <= hi <= |members|
    ensures |groups| == hi - lo && forall k | lo <= k < hi :: groups[k - lo] == members[k].group
  {
    GroupsOf(members[lo..hi])
  }

  /** The first k groups, those to fix labelled with their assignment. */
  function Corrected(groups: seq<Group>, a: Assignment, fix: seq<bool>, k: nat): (after: seq<Group>)
    requires |fix| == |groups| && forall j | 0 <= j < |groups| :: groups[j].uid in a
    ensures |after| == |groups|
  {
    seq(|groups|, j requires 0 <= j < |groups| =>
      if j < k && fix[j] then groups[j].(child := a[groups[j].uid]) else groups[j])
  }

  lemma {:induction false} CorrectedSticky(groups: seq<Group>, target: seq<nat>, fix: seq<bool>, k: nat)
    requires Distinct(groups) && |fix| == |groups| && k <= |groups|
    requires forall j | 0 <= j < |groups| :: groups[j].uid in Sticky(groups, target)
    ensures Sticky(Corrected(groups, Sticky(groups, target), fix, k), target) == Sticky(groups, target)
    decreases k
  {
    hide Sticky;
    var a := Sticky(groups, target);
    var after := Corrected(groups, a, fix, k);
    if k == 0 {
      assert after == groups;
    } else {
      var before := Corrected(groups, a, fix, k - 1);
      CorrectedSticky(groups, target, fix, k - 1);
      if fix[k - 1] {
        StickyStable(before, target, k - 1);
        assert after == Relabel(before, k - 1, a[groups[k - 1].uid]);
      } else {
        assert after == before;
      }
    }
  }

  lemma SurvivorsPlaced(prefix: seq<Group>, target: seq<nat>)
    requires Distinct(prefix) && |prefix| <= Sum(target)
    ensures forall k | 0 <= k < |prefix| :: prefix[k].uid in Sticky(prefix, target)
  {
    hide Sticky;
    forall k | 0 <= k < |prefix|
      ensures prefix[k].uid in Sticky(prefix, target)
    {
      AllAssigned(prefix, target, None, k);
    }
  }

  lemma SurvivorsDistinct(members: seq<Member>, lo: nat, hi: nat)
    requires lo <= hi <= |members| && Distinct(GroupsOf(members))
    ensures Distinct(Survivors(members, lo, hi))
  {
    var prefix, groups := Survivors(members, lo, hi), GroupsOf(members);
    forall i, j | 0 <= i < j < |prefix|
      ensures prefix[i].uid != prefix[j].uid
    {
      assert prefix[i] == groups[lo + i] && prefix[j] == groups[lo + j];
    }
  }

  lemma RepairedSurvivors(members: seq<Member>, lo: nat, hi: nat, a: Assignment, outside: nat) returns (fix: seq<bool>)
    requires lo <= hi <= |members| && forall k | lo <= k < hi :: members[k].group.uid in a
    ensures |fix| == hi - lo
    ensures Survivors(Repaired(members, a, outside), lo, hi) == Corrected(Survivors(members, lo, hi), a, fix, hi - lo)
  {
    var prefix, after := Survivors(members, lo, hi), Repaired(members, a, outside);
    fix := seq(hi - lo, k requires 0 <= k < hi - lo => NeedsRepair(members[lo + k], a));
    var corrected := Corrected(prefix, a, fix, hi - lo);
    hide Survivors, NeedsRepair;
    forall k | 0 <= k < hi - lo
      ensures Survivors(after, lo, hi)[k] == corrected[k]
    {
      assert Survivors(after, lo, hi)[k] == after[lo + k].group && prefix[k] == members[lo + k].group;
      assert fix[k] == NeedsRepair(members[lo + k], a);
    }
    assert Survivors(after, lo, hi) == corrected;
  }

  lemma NothingLeft(members: seq<Member>, a: Assignment, outside: nat)
    ensures !RepairNeeded(Repaired(members, a, outside), a)
  {}

  /** One repair is enough: the survivors are assigned as before, and nothing is left to repair. */
  lemma RepairSettles(members: seq<Member>, lo: nat, hi: nat, target: seq<nat>)
    requires lo <= hi <= |members| && Distinct(GroupsOf(members)) && hi - lo <= Sum(target)
    ensures var a := Sticky(Survivors(members, lo, hi), target);
            var after := Repaired(members, a, |target|);
            Sticky(Survivors(after, lo, hi), target) == a && !RepairNeeded(after, a)
  {
    hide Sticky, RepairNeeded, Repaired, Corrected, Distinct, Survivors, GroupsOf, Sum;
    var prefix := Survivors(members, lo, hi);
    var a := Sticky(prefix, target);
    SurvivorsDistinct(members, lo, hi);
    SurvivorsPlaced(prefix, target);
    forall k | lo <= k < hi
      ensures members[k].group.uid in a
    {
      assert prefix[k - lo] == members[k].group;
    }
    var fix := RepairedSurvivors(members, lo, hi, a, |target|);
    CorrectedSticky(prefix, target, fix, |prefix|);
    NothingLeft(members, a, |target|);
  }

  method RepairLabels(members: seq<Member>, a: Assignment, outside: nat) returns (after: seq<Member>, labelled: bool)
    ensures after == Repaired(members, a, outside)
    ensures labelled <==> RepairNeeded(members, a)
  {
    after, labelled := [], false;
    for k := 0 to |members|
      invariant |after| == k && forall j | 0 <= j < k :: after[j] == Repaired(members, a, outside)[j]
      invariant labelled <==> exists j | 0 <= j < k :: NeedsRepair(members[j], a)
    {
      if !members[k].coherent || (members[k].group.uid in a && members[k].blank) {
        after := after + [Written(members[k], a, outside)];
        labelled := true;
      } else {
        after := after + [members[k]];
      }
    }
    assert after == Repaired(members, a, outside);
  }

  /** A label that is missing names no child. */
  ghost predicate BlankOutside(members: seq<Member>, children: nat) {
    forall k | 0 <= k < |members| && members[k].blank :: members[k].group.child >= children
  }

  /** A repair takes no Ready group from any child. */
  lemma {:induction false} RepairKeepsReady(members: seq<Member>, a: Assignment, children: nat, child: nat)
    requires BlankOutside(members, children) && child < children
    ensures ReadyMembers(Repaired(members, a, children), child) >= ReadyMembers(members, child)
    decreases |members|
  {
    if |members| > 0 {
      var n := |members| - 1;
      RepairKeepsReady(members[..n], a, children, child);
      assert Repaired(members, a, children)[..n] == Repaired(members[..n], a, children);
    }
  }

  // --- Publishing ---

  /** Labels are cleared from every group without an assignment. */
  function Cleared(members: seq<Member>, a: Assignment, outside: nat): (after: seq<Member>)
    ensures |after| == |members|
  {
    seq(|members|, k requires 0 <= k < |members| =>
      if members[k].group.uid in a then members[k] else Written(members[k], a, outside))
  }

  ghost predicate LabelledAsAssigned(groups: seq<Group>, a: Assignment, child: nat) {
    forall k | 0 <= k < |groups| && groups[k].child == child :: groups[k].uid in Members(a, child)
  }

  lemma {:induction false} LabelledAtMost(groups: seq<Group>, a: Assignment, child: nat)
    requires Distinct(groups) && LabelledAsAssigned(groups, a, child)
    ensures Labelled(groups, child) <= |Members(a, child) * Uids(groups)|
    decreases |groups|
  {
    hide Members;
    if |groups| > 0 {
      var rest, members := groups[1..], Members(a, child);
      FirstUid(groups);
      LabelledAtMost(rest, a, child);
      if groups[0].child == child {
        assert members * Uids(groups) == (members * Uids(rest)) + {groups[0].uid};
      } else {
        SubsetSize(members * Uids(rest), members * Uids(groups));
      }
    }
  }

  lemma SettledStays(members: seq<Member>, prefix: seq<Group>, a: Assignment, k: nat)
    requires k < |members| && members[k].group.uid in a && a.Keys <= Uids(prefix) && Settled(prefix, a)
    requires forall j | 0 <= j < |prefix| :: exists i | 0 <= i < |members| :: members[i].group == prefix[j]
    requires Distinct(GroupsOf(members))
    ensures a[members[k].group.uid] == members[k].group.child
  {
    var uid := members[k].group.uid;
    var j :| 0 <= j < |prefix| && prefix[j].uid == uid;
    var i :| 0 <= i < |members| && members[i].group == prefix[j];
    var groups := GroupsOf(members);
    assert groups[i].uid == groups[k].uid;
    assert i == k;
  }

  /** Once published, no child carries more groups than it is to have. */
  lemma PublishedWithinTarget(members: seq<Member>, prefix: seq<Group>, target: seq<nat>, a: Assignment, child: nat)
    requires Distinct(GroupsOf(members)) && Settled(prefix, a) && Feasible(prefix, target, a) && child < |target|
    requires forall j | 0 <= j < |prefix| :: exists i | 0 <= i < |members| :: members[i].group == prefix[j]
    ensures Labelled(GroupsOf(Cleared(members, a, |target|)), child) <= target[child]
  {
    var after := GroupsOf(Cleared(members, a, |target|));
    forall k | 0 <= k < |after| && after[k].child == child
      ensures after[k].uid in Members(a, child)
    {
      SettledStays(members, prefix, a, k);
    }
    forall i, j | 0 <= i < j < |after|
      ensures after[i].uid != after[j].uid
    {
      assert GroupsOf(members)[i].uid == after[i].uid && GroupsOf(members)[j].uid == after[j].uid;
    }
    hide Members, Uids, Labelled, Cleared;
    LabelledAtMost(after, a, child);
    SubsetSize(Members(a, child) * Uids(after), Members(a, child));
  }

  lemma AssignedFeasible(prefix: seq<Group>, target: seq<nat>, floor: Option<seq<nat>>)
    requires Distinct(prefix) && (floor.Some? ==> Below(floor.value, target)) && Assigned(prefix, target, floor).Some?
    ensures Feasible(prefix, target, Assigned(prefix, target, floor).value)
  {
    hide Sticky, ReadyFor, Feasible;
    if floor.Some? {
      ReadyMeets(prefix, target, floor.value);
    } else {
      StickyMeets(prefix, target);
    }
  }

  lemma {:induction false} ReadyLabelledConcat(a: seq<Group>, b: seq<Group>, child: nat)
    ensures ReadyLabelled(a + b, child) == ReadyLabelled(a, child) + ReadyLabelled(b, child)
    decreases |b|
  {
    if |b| == 0 {
      assert a + b == a;
    } else {
      var n := |b| - 1;
      ReadyLabelledConcat(a, b[..n], child);
      ReadyLabelledAppend(a + b[..n], b[n], child);
      ReadyLabelledAppend(b[..n], b[n], child);
      assert a + b == (a + b[..n]) + [b[n]] && b == b[..n] + [b[n]];
    }
  }

  /** Clearing leaves every assigned survivor as it is. */
  lemma ClearedKeepsReady(members: seq<Member>, lo: nat, hi: nat, a: Assignment, outside: nat, child: nat)
    requires lo <= hi <= |members| && Settled(Survivors(members, lo, hi), a)
    ensures ReadyLabelled(GroupsOf(Cleared(members, a, outside)), child) >=
            ReadyLabelled(Survivors(members, lo, hi), child)
  {
    var prefix, after := Survivors(members, lo, hi), GroupsOf(Cleared(members, a, outside));
    forall k | 0 <= k < hi - lo
      ensures after[lo..hi][k] == prefix[k]
    {
      assert prefix[k] == members[lo + k].group;
    }
    assert after[lo..hi] == prefix;
    hide ReadyLabelled, Cleared, Settled;
    assert after == after[..lo] + after[lo..hi] + after[hi..];
    ReadyLabelledConcat(after[..lo] + after[lo..hi], after[hi..], child);
    ReadyLabelledConcat(after[..lo], after[lo..hi], child);
  }

  /** At publication every child has its floor, by the survivors alone. */
  lemma PublishedMeetsFloors(members: seq<Member>, lo: nat, hi: nat, target: seq<nat>, floor: seq<nat>, child: nat)
    requires lo <= hi <= |members| && Distinct(Survivors(members, lo, hi)) && Below(floor, target) && child < |target|
    requires ReadyFor(Survivors(members, lo, hi), target, floor).Some?
    requires Settled(Survivors(members, lo, hi), ReadyFor(Survivors(members, lo, hi), target, floor).value)
    ensures var a := ReadyFor(Survivors(members, lo, hi), target, floor).value;
            ReadyLabelled(GroupsOf(Cleared(members, a, |target|)), child) >= floor[child]
  {
    hide ReadyFor, Settled, ReadyLabelled, Cleared, Distinct, Survivors;
    var prefix := Survivors(members, lo, hi);
    SettledMeetsFloors(prefix, target, floor, child);
    ClearedKeepsReady(members, lo, hi, ReadyFor(prefix, target, floor).value, |target|, child);
  }

  // --- A plan that has been started can be read ---

  /** No leader outside the survivors is active, as observed deletions ensure. */
  ghost predicate ActiveInside(members: seq<Member>, lo: nat, hi: nat) {
    forall k | 0 <= k < |members| && members[k].active :: lo <= k < hi
  }

  lemma {:induction false} ReadyAmongLabelled(members: seq<Member>, child: nat)
    ensures ReadyMembers(members, child) <= ReadyLabelled(GroupsOf(members), child)
    ensures (forall k | 0 <= k < |members| :: !members[k].active) ==> ReadyMembers(members, child) == 0
    decreases |members|
  {
    if |members| > 0 {
      var n := |members| - 1;
      ReadyAmongLabelled(members[..n], child);
      ReadyLabelledAppend(GroupsOf(members[..n]), members[n].group, child);
      assert GroupsOf(members) == GroupsOf(members[..n]) + [members[n].group];
    }
  }

  lemma {:induction false} ReadyAtMostLabelled(groups: seq<Group>, child: nat)
    ensures ReadyLabelled(groups, child) <= Labelled(groups, child)
    decreases |groups|
  {
    if |groups| > 0 {
      ReadyAtMostLabelled(groups[1..], child);
      ReadyLabelledFirst(groups, child);
    }
  }

  lemma SettledWithinCounts(prefix: seq<Group>, counts: seq<nat>, a: Assignment, child: nat)
    requires Distinct(prefix) && Feasible(prefix, counts, a) && Settled(prefix, a)
    ensures Labelled(prefix, child) <= CountOf(counts, child)
  {
    assert LabelledAsAssigned(prefix, a, child);
    hide Labelled;
    LabelledAtMost(prefix, a, child);
    SubsetSize(Members(a, child) * Uids(prefix), Members(a, child));
    if child >= |counts| {
      assert Members(a, child) == {};
    }
  }

  lemma SettledWithinIssued(members: seq<Member>, lo: nat, hi: nat, issued: seq<nat>, child: nat)
    requires lo <= hi <= |members| && Distinct(GroupsOf(members)) && ActiveInside(members, lo, hi)
    requires Settled(Survivors(members, lo, hi), Sticky(Survivors(members, lo, hi), issued))
    ensures ReadyMembers(members, child) <= CountOf(issued, child)
  {
    hide Sticky, ReadyMembers, Settled, Feasible, Labelled, ReadyLabelled, CountOf, Distinct;
    var prefix := Survivors(members, lo, hi);
    SurvivorsDistinct(members, lo, hi);
    StickyMeets(prefix, issued);
    SettledWithinCounts(prefix, issued, Sticky(prefix, issued), child);
    ReadyAmongLabelled(members[lo..hi], child);
    ReadyAtMostLabelled(prefix, child);
    ReadyAmongLabelled(members[..lo], child);
    ReadyAmongLabelled(members[hi..], child);
    ReadyMembersAppend(members[..lo] + members[lo..hi], members[hi..], child);
    ReadyMembersAppend(members[..lo], members[lo..hi], child);
    assert members == members[..lo] + members[lo..hi] + members[hi..];
  }

  /**
   * A plan started once every active group carries its issued assignment can be read
   * back: under Ordinal identity the survivors are the window, under Hash identity
   * they are all active groups.
   */
  lemma StartedReadable(
    members: seq<Member>, lo: nat, hi: nat, issued: seq<nat>, pending: seq<nat>, plan: Plan
  )
    requires lo <= hi <= |members| && Distinct(GroupsOf(members)) && ActiveInside(members, lo, hi)
    requires Settled(Survivors(members, lo, hi), Sticky(Survivors(members, lo, hi), issued))
    requires Starts(members, issued, pending, plan)
    ensures Readable(plan)
  {
    hide Sticky, ReadyMembers, Settled, Distinct, Readable, Starts;
    forall child: nat
      ensures ReadyMembers(members, child) <= Max(CountOf(issued, child), CountOf(pending, child))
    {
      SettledWithinIssued(members, lo, hi, issued, child);
    }
    StartedReadableIff(members, issued, pending, plan);
  }

  // --- One pass ---

  datatype Outcome =
    | Repairing(repaired: seq<Member>)
    | Transferring(transfer: Transfer)
    | Published(cleared: seq<Member>, issued: Option<seq<nat>>)

  /** The move keeps every floor over all groups. */
  ghost predicate FloorsKeptBy(members: seq<Member>, lo: nat, hi: nat, floor: Option<seq<nat>>, move: Transfer)
    requires lo <= hi <= |members| && move.Move?
  {
    var prefix := Survivors(members, lo, hi);
    && move.index < |prefix|
    && KeepsFloors(prefix, Relabel(prefix, move.index, move.child), GroupsOf(members[..lo] + members[hi..]), floor)
  }

  lemma PublishedLabels(members: seq<Member>, lo: nat, hi: nat, target: seq<nat>, floor: Option<seq<nat>>)
    requires lo <= hi <= |members| && Distinct(GroupsOf(members)) && Distinct(Survivors(members, lo, hi))
    requires floor.Some? ==> Below(floor.value, target)
    requires var prefix := Survivors(members, lo, hi);
             && Assigned(prefix, target, floor).Some?
             && FirstMislabelled(prefix, Assigned(prefix, target, floor).value) == |prefix|
    ensures var prefix := Survivors(members, lo, hi);
            var a := Assigned(prefix, target, floor).value;
            && Settled(prefix, a)
            && forall child | 0 <= child < |target| ::
                 Labelled(GroupsOf(Cleared(members, a, |target|)), child) <= target[child]
  {
    var prefix := Survivors(members, lo, hi);
    var a := Assigned(prefix, target, floor).value;
    AssignedFeasible(prefix, target, floor);
    NoneMislabelled(prefix, a);
    hide Assigned, Feasible, Settled, Labelled, Distinct;
    forall j | 0 <= j < |prefix|
      ensures exists i | 0 <= i < |members| :: members[i].group == prefix[j]
    {
      assert members[lo + j].group == prefix[j];
    }
    forall child | 0 <= child < |target|
      ensures Labelled(GroupsOf(Cleared(members, a, |target|)), child) <= target[child]
    {
      PublishedWithinTarget(members, prefix, target, a, child);
    }
  }

  /**
   * One whole pass: removal clears every label; otherwise labels are repaired,
   * then survivors are moved one at a time, and only when all of them carry
   * their assignment is every other label cleared and the target published.
   */
  method SyncAssignments(
    members: seq<Member>, lo: nat, hi: nat, target: seq<nat>, floor: Option<seq<nat>>,
    pending: bool, complete: bool, survivorsReady: bool, removing: bool
  ) returns (outcome: Outcome)
    requires lo <= hi <= |members| && Distinct(GroupsOf(members)) && hi - lo <= Sum(target)
    requires floor.Some? ==> pending && Below(floor.value, target)
    ensures removing ==>
              && outcome.Published? && outcome.issued == None && |outcome.cleared| == |members|
              && forall k | 0 <= k < |members| :: outcome.cleared[k].blank && outcome.cleared[k].coherent
    ensures var a := Sticky(Survivors(members, lo, hi), target);
            && (outcome.Repairing? <==> !removing && RepairNeeded(members, a))
            && (outcome.Repairing? ==> outcome.repaired == Repaired(members, a, |target|))
    ensures outcome.Transferring? ==>
              && outcome.transfer != BlockedTransfer && outcome.transfer != Done
              && (outcome.transfer.Move? ==> FloorsKeptBy(members, lo, hi, floor, outcome.transfer))
    ensures outcome.Published? && !removing ==>
              && outcome.issued == Some(target) && Distinct(Survivors(members, lo, hi))
              && Assigned(Survivors(members, lo, hi), target, floor).Some?
              && Settled(Survivors(members, lo, hi), Assigned(Survivors(members, lo, hi), target, floor).value)
              && (forall child | 0 <= child < |target| :: Labelled(GroupsOf(outcome.cleared), child) <= target[child])
              && (floor.Some? ==> forall child | 0 <= child < |target| ::
                    ReadyLabelled(GroupsOf(outcome.cleared), child) >= floor.value[child])
  {
    var prefix, others := Survivors(members, lo, hi), GroupsOf(members[..lo] + members[hi..]);
    SurvivorsDistinct(members, lo, hi);
    if removing {
      return Published(Cleared(members, map[], |target|), None);
    }
    hide Sticky, ReadyFor, Labelled, Feasible, KeepsLabels, Settled, Repaired, RepairNeeded, Distinct, Cleared,
      FirstMislabelled, KeepsFloors, Relabel, EligibleUids, ReadyLabelled;
    var a := StickyAssignments(prefix, target);
    var repaired, labelled := RepairLabels(members, a, |target|);
    if labelled {
      return Repairing(repaired);
    }
    var transfer := NextTransfer(prefix, others, target, floor, pending, complete, survivorsReady);
    if transfer != Done {
      return Transferring(transfer);
    }
    var placed := a;
    if floor.Some? {
      var ready := ReadyAssignments(prefix, target, floor.value);
      placed := ready.value;
    }
    PublishedLabels(members, lo, hi, target, floor);
    if floor.Some? {
      forall child | 0 <= child < |target|
        ensures ReadyLabelled(GroupsOf(Cleared(members, placed, |target|)), child) >= floor.value[child]
      {
        PublishedMeetsFloors(members, lo, hi, target, floor.value, child);
      }
    }
    return Published(Cleared(members, placed, |target|), Some(target));
  }

  /**
   * A request for new counts, with none pending. It waits until a pass leaves nothing
   * to do; then an increase is issued at once, and anything less starts a plan, which
   * can always be read back. `deletionsObserved` says that no leader outside the
   * survivors is active, `settled` that native controllers have caught up.
   */
  method RequestCounts(
    members: seq<Member>, lo: nat, hi: nat, issued: seq<nat>, requested: seq<nat>,
    complete: bool, survivorsReady: bool, deletionsObserved: bool, settled: bool
  ) returns (plan: Option<Plan>, counts: seq<nat>)
    requires lo <= hi <= |members| && Distinct(GroupsOf(members)) && hi - lo <= Sum(issued) && |requested| == |issued|
    requires deletionsObserved ==> ActiveInside(members, lo, hi)
    ensures plan.Some? ==>
              && counts == issued && !Below(issued, requested)
              && Starts(members, issued, requested, plan.value) && Readable(plan.value)
    ensures plan.None? ==> counts == issued || (counts == requested && Below(issued, requested))
  {
    counts, plan := issued, None;
    if !deletionsObserved {
      return;
    }
    hide Sticky, Settled, Starts, Readable, Distinct, ActiveInside, Labelled, ReadyLabelled;
    var outcome := SyncAssignments(members, lo, hi, issued, None, false, complete, survivorsReady, false);
    if !outcome.Published? || !settled {
      return;
    }
    var decreasing := false;
    for i := 0 to |issued|
      invariant decreasing <==> exists j | 0 <= j < i :: requested[j] < issued[j]
    {
      decreasing := decreasing || requested[i] < issued[i];
    }
    if decreasing {
      var started := StartPlan(Some(members), issued, requested);
      StartedReadable(members, lo, hi, issued, requested, started);
      plan := Some(started);
    } else {
      counts := requested;
    }
  }
}
