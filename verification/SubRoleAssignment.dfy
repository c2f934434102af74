/**
 * Assigning the groups of one workload to its child roles. Child roles are
 * numbered in name order, so a count per child is a vector; a label outside
 * that range names no current child.
 */
module SubRoleAssignment {
  import opened Roles

  /** A replica group: its leader's UID, the child it is labelled with, and whether it is retained Ready capacity. */
  datatype Group = Group(uid: nat, child: nat, eligible: bool)

  type Assignment = map<nat, nat>

  ghost predicate Distinct(groups: seq<Group>) {
    forall i, j | 0 <= i < j < |groups| :: groups[i].uid != groups[j].uid
  }

  ghost function Uids(groups: seq<Group>): set<nat> {
    set k | 0 <= k < |groups| :: groups[k].uid
  }

  /** The groups assigned to one child. */
  function Members(a: Assignment, child: nat): set<nat> {
    set u | u in a && a[u] == child
  }

  /** Groups labelled with a child. */
  function Labelled(groups: seq<Group>, child: nat): nat {
    if |groups| == 0 then 0 else (if groups[0].child == child then 1 else 0) + Labelled(groups[1..], child)
  }

  /** Groups labelled with a child and assigned to it. */
  function Kept(groups: seq<Group>, a: Assignment, child: nat): nat {
    if |groups| == 0 then 0
    else
      var first := groups[0];
      (if first.child == child && first.uid in a && a[first.uid] == child then 1 else 0) + Kept(groups[1..], a, child)
  }

  /** At most `target` groups per child, drawn from the given groups. */
  ghost predicate Feasible(groups: seq<Group>, target: seq<nat>, a: Assignment) {
    && a.Keys <= Uids(groups)
    && (forall u | u in a :: a[u] < |target|)
    && forall child | 0 <= child < |target| :: |Members(a, child)| <= target[child]
  }

  /** Every child keeps as many of its labelled groups as its target admits. */
  ghost predicate KeepsLabels(groups: seq<Group>, target: seq<nat>, a: Assignment) {
    forall child | 0 <= child < |target| :: Kept(groups, a, child) >= Min(Labelled(groups, child), target[child])
  }

  // --- The assignment ---

  /** One pass in order: the labels kept, the UIDs passed over, and the places still open. */
  datatype Pass = Pass(kept: Assignment, queue: seq<nat>, open: seq<nat>)

  predicate HasRoom(open: seq<nat>, child: nat) {
    child < |open| && open[child] > 0
  }

  function Take(open: seq<nat>, child: nat): (left: seq<nat>)
    requires HasRoom(open, child)
    ensures |left| == |open|
  {
    open[child := open[child] - 1]
  }

  function KeepLabels(groups: seq<Group>, target: seq<nat>): (pass: Pass)
    ensures |pass.open| == |target|
  {
    if |groups| == 0 then Pass(map[], [], target)
    else
      var first := groups[0];
      if HasRoom(target, first.child) then
        var rest := KeepLabels(groups[1..], Take(target, first.child));
        Pass(map[first.uid := first.child] + rest.kept, rest.queue, rest.open)
      else
        var rest := KeepLabels(groups[1..], target);
        Pass(rest.kept, [first.uid] + rest.queue, rest.open)
  }

  /** The open places from a child onwards, in name order. */
  function Places(open: seq<nat>, child: nat): seq<nat>
    requires child <= |open|
    decreases |open| - child
  {
    if child == |open| then [] else seq(open[child], _ => child) + Places(open, child + 1)
  }

  /** The r-th UID passed over takes the r-th open place. */
  function Fill(queue: seq<nat>, places: seq<nat>): Assignment {
    if |queue| == 0 || |places| == 0 then map[] else map[queue[0] := places[0]] + Fill(queue[1..], places[1..])
  }

  /** Labels stay where there is room for them; the groups left over take the open places child by child. */
  function Sticky(groups: seq<Group>, target: seq<nat>): Assignment {
    var pass := KeepLabels(groups, target);
    pass.kept + Fill(pass.queue, Places(pass.open, 0))
  }

  lemma NextPlace(open: seq<nat>, child: nat)
    requires HasRoom(open, child)
    ensures Places(open, child) == [child] + Places(Take(open, child), child)
  {
    LaterPlaces(open, child, child + 1);
  }

  lemma {:induction false} LaterPlaces(open: seq<nat>, child: nat, start: nat)
    requires HasRoom(open, child) && child < start <= |open|
    ensures Places(open, start) == Places(Take(open, child), start)
    decreases |open| - start
  {
    if start < |open| {
      LaterPlaces(open, child, start + 1);
    }
  }

  /** What a scan has kept and queued, and what it has yet to scan. */
  ghost function Resumed(a: Assignment, unassigned: seq<nat>, groups: seq<Group>, remaining: seq<nat>): Pass {
    var rest := KeepLabels(groups, remaining);
    Pass(a + rest.kept, unassigned + rest.queue, rest.open)
  }

  lemma ScanOne(a: Assignment, unassigned: seq<nat>, groups: seq<Group>, i: nat, remaining: seq<nat>)
    requires i < |groups|
    ensures var group := groups[i];
            Resumed(a, unassigned, groups[i..], remaining) ==
            if HasRoom(remaining, group.child)
            then Resumed(a[group.uid := group.child], unassigned, groups[i + 1..], Take(remaining, group.child))
            else Resumed(a, unassigned + [group.uid], groups[i + 1..], remaining)
  {
    assert groups[i..][1..] == groups[i + 1..];
  }

  lemma FillOne(a: Assignment, unassigned: seq<nat>, remaining: seq<nat>, child: nat)
    requires |unassigned| > 0 && HasRoom(remaining, child)
    ensures a + Fill(unassigned, Places(remaining, child)) ==
            a[unassigned[0] := child] + Fill(unassigned[1..], Places(Take(remaining, child), child))
  {
    NextPlace(remaining, child);
    hide Places;
  }

  method StickyAssignments(groups: seq<Group>, target: seq<nat>) returns (a: Assignment)
    requires Distinct(groups)
    ensures a == Sticky(groups, target)
    ensures Feasible(groups, target, a) && |a| == Min(|groups|, Sum(target))
    ensures KeepsLabels(groups, target, a)
  {
    hide Resumed, KeepLabels, Places, Fill, Members, Uids, Kept, Labelled;
    var remaining := target;
    var unassigned: seq<nat> := [];
    a := map[];
    ScanAll(groups, target);
    for i := 0 to |groups|
      invariant |remaining| == |target|
      invariant KeepLabels(groups, target) == Resumed(a, unassigned, groups[i..], remaining)
    {
      var group := groups[i];
      ScanOne(a, unassigned, groups, i, remaining);
      if !HasRoom(remaining, group.child) {
        unassigned := unassigned + [group.uid];
      } else {
        a := a[group.uid := group.child];
        remaining := Take(remaining, group.child);
      }
    }
    ScanDone(a, unassigned, groups[|groups|..], remaining);
    for child := 0 to |remaining|
      invariant |remaining| == |target|
      invariant Sticky(groups, target) == a + Fill(unassigned, Places(remaining, child))
    {
      while remaining[child] > 0 && |unassigned| > 0
        invariant |remaining| == |target|
        invariant Sticky(groups, target) == a + Fill(unassigned, Places(remaining, child))
        decreases |unassigned|
      {
        FillOne(a, unassigned, remaining, child);
        a := a[unassigned[0] := child];
        remaining := Take(remaining, child);
        unassigned := unassigned[1..];
      }
      FillNext(unassigned, remaining, child);
    }
    FillDone(a, unassigned, remaining);
    StickyMeets(groups, target);
  }

  lemma ScanAll(groups: seq<Group>, target: seq<nat>)
    ensures KeepLabels(groups, target) == Resumed(map[], [], groups[0..], target)
  {
    assert groups[0..] == groups;
  }

  lemma ScanDone(a: Assignment, unassigned: seq<nat>, groups: seq<Group>, remaining: seq<nat>)
    requires groups == []
    ensures Resumed(a, unassigned, groups, remaining) == Pass(a, unassigned, remaining)
  {}

  lemma FillNext(unassigned: seq<nat>, remaining: seq<nat>, child: nat)
    requires child < |remaining| && (remaining[child] == 0 || unassigned == [])
    ensures Fill(unassigned, Places(remaining, child)) == Fill(unassigned, Places(remaining, child + 1))
  {
    if remaining[child] == 0 {
      assert Places(remaining, child) == Places(remaining, child + 1);
    }
  }

  lemma FillDone(a: Assignment, unassigned: seq<nat>, remaining: seq<nat>)
    ensures a + Fill(unassigned, Places(remaining, |remaining|)) == a
  {}

  // --- What it achieves ---

  lemma FirstUid(groups: seq<Group>)
    requires Distinct(groups) && |groups| > 0
    ensures Uids(groups) == {groups[0].uid} + Uids(groups[1..])
    ensures groups[0].uid !in Uids(groups[1..]) && Distinct(groups[1..])
  {
    forall u | u in Uids(groups)
      ensures u in {groups[0].uid} + Uids(groups[1..])
    {
      var k :| 0 <= k < |groups| && groups[k].uid == u;
      if k > 0 {
        assert groups[1..][k - 1].uid == u;
      }
    }
  }

  lemma {:induction false} UidCount(groups: seq<Group>)
    requires Distinct(groups)
    ensures |Uids(groups)| == |groups|
    decreases |groups|
  {
    if |groups| > 0 {
      FirstUid(groups);
      UidCount(groups[1..]);
    }
  }

  lemma MergeSize(a: Assignment, b: Assignment)
    requires a.Keys !! b.Keys
    ensures |a + b| == |a| + |b|
  {
    assert (a + b).Keys == a.Keys + b.Keys;
  }

  lemma Merge(a: Assignment, b: Assignment, child: nat)
    requires a.Keys !! b.Keys
    ensures |Members(a + b, child)| == |Members(a, child)| + |Members(b, child)|
  {
    var mine, theirs, all := Members(a, child), Members(b, child), Members(a + b, child);
    assert mine !! theirs;
    forall u
      ensures u in all <==> u in mine + theirs
    {
      if u in a {
        assert u !in b;
      }
    }
    assert all == mine + theirs;
  }

  lemma OneMember(uid: nat, child: nat, other: nat)
    ensures |Members(map[uid := child], other)| == if child == other then 1 else 0
  {
    assert Members(map[uid := child], other) == if child == other then {uid} else {};
  }

  lemma {:induction false} SumTake(open: seq<nat>, child: nat)
    requires HasRoom(open, child)
    ensures Sum(Take(open, child)) == Sum(open) - 1
    decreases |open|
  {
    var n := |open| - 1;
    var left := Take(open, child);
    if child == n {
      assert left[..n] == open[..n];
    } else {
      SumTake(open[..n], child);
      assert left[..n] == Take(open[..n], child);
    }
  }

  ghost function Queued(queue: seq<nat>): set<nat> {
    set u | u in queue
  }

  lemma FirstQueued(queue: seq<nat>)
    requires Unrepeated(queue) && |queue| > 0
    ensures Queued(queue) == {queue[0]} + Queued(queue[1..]) && queue[0] !in Queued(queue[1..])
    ensures Unrepeated(queue[1..])
  {
    forall u | u in Queued(queue)
      ensures u in {queue[0]} + Queued(queue[1..])
    {
      var k :| 0 <= k < |queue| && queue[k] == u;
      if k > 0 {
        assert queue[1..][k - 1] == u;
      }
    }
  }

  lemma Prepend(uid: nat, queue: seq<nat>)
    requires Unrepeated(queue) && uid !in Queued(queue)
    ensures Unrepeated([uid] + queue) && Queued([uid] + queue) == {uid} + Queued(queue)
  {
    forall j | 0 < j < 1 + |queue|
      ensures ([uid] + queue)[j] != uid
    {
      assert ([uid] + queue)[j] == queue[j - 1] && queue[j - 1] in queue;
    }
  }

  /** Every group is kept or queued, once. */
  ghost predicate Accounted(groups: seq<Group>, kept: Assignment, queue: seq<nat>) {
    && kept.Keys + Queued(queue) <= Uids(groups)
    && kept.Keys !! Queued(queue)
    && Unrepeated(queue)
    && |kept| + |queue| == |groups|
  }

  /** Every place is taken or open. */
  ghost predicate Balanced(kept: Assignment, open: seq<nat>, target: seq<nat>) {
    && |open| == |target|
    && |kept| + Sum(open) == Sum(target)
    && (forall u | u in kept :: kept[u] < |target|)
    && forall child | 0 <= child < |target| :: |Members(kept, child)| + open[child] == target[child]
  }

  lemma {:induction false} PassAccounted(groups: seq<Group>, target: seq<nat>)
    requires Distinct(groups)
    ensures var pass := KeepLabels(groups, target);
            Accounted(groups, pass.kept, pass.queue) && Balanced(pass.kept, pass.open, target)
    decreases |groups|
  {
    hide Members, Uids, Queued;
    if |groups| == 0 {
      NothingKept(groups, target);
    } else {
      var first := groups[0];
      FirstUid(groups);
      if HasRoom(target, first.child) {
        var left := Take(target, first.child);
        PassAccounted(groups[1..], left);
        var rest := KeepLabels(groups[1..], left);
        KeepFirst(groups, rest.kept, rest.queue);
        TakeFirst(first.uid, first.child, rest.kept, rest.open, target);
      } else {
        PassAccounted(groups[1..], target);
        var rest := KeepLabels(groups[1..], target);
        QueueFirst(groups, rest.kept, rest.queue);
      }
    }
  }

  lemma NothingKept(groups: seq<Group>, target: seq<nat>)
    requires |groups| == 0
    ensures Accounted(groups, map[], []) && Balanced(map[], target, target)
  {
    assert forall child: nat :: Members(map[], child) == {};
  }

  lemma KeepFirst(groups: seq<Group>, kept: Assignment, queue: seq<nat>)
    requires Distinct(groups) && |groups| > 0 && Accounted(groups[1..], kept, queue)
    ensures Accounted(groups, map[groups[0].uid := groups[0].child] + kept, queue)
    ensures groups[0].uid !in kept
  {
    FirstUid(groups);
    hide Distinct, Uids, Queued, Unrepeated;
    MergeSize(map[groups[0].uid := groups[0].child], kept);
  }

  lemma QueueFirst(groups: seq<Group>, kept: Assignment, queue: seq<nat>)
    requires Distinct(groups) && |groups| > 0 && Accounted(groups[1..], kept, queue)
    ensures Accounted(groups, kept, [groups[0].uid] + queue)
  {
    FirstUid(groups);
    hide Distinct, Uids, Queued, Unrepeated;
    Prepend(groups[0].uid, queue);
  }

  lemma TakeFirst(uid: nat, child: nat, kept: Assignment, open: seq<nat>, target: seq<nat>)
    requires HasRoom(target, child) && Balanced(kept, open, Take(target, child)) && uid !in kept
    ensures Balanced(map[uid := child] + kept, open, target)
  {
    var one := map[uid := child];
    SumTake(target, child);
    MergeSize(one, kept);
    hide Members;
    forall other | 0 <= other < |target|
      ensures |Members(one + kept, other)| + open[other] == target[other]
    {
      Merge(one, kept, other);
      OneMember(uid, child, other);
    }
  }

  lemma {:induction false} PlacesTotal(open: seq<nat>, child: nat)
    requires child <= |open|
    ensures |Places(open, child)| + Sum(open[..child]) == Sum(open)
    decreases |open| - child
  {
    if child < |open| {
      PlacesTotal(open, child + 1);
      assert open[..child + 1][..child] == open[..child];
    } else {
      assert open[..child] == open;
    }
  }

  lemma {:induction false} Repeated(count: nat, value: nat, other: nat)
    ensures multiset(seq(count, _ => value))[other] == if value == other then count else 0
    decreases count
  {
    if count > 0 {
      Repeated(count - 1, value, other);
      assert seq(count, _ => value) == seq(count - 1, _ => value) + [value];
    }
  }

  lemma {:induction false} PlacesEach(open: seq<nat>, start: nat, child: nat)
    requires start <= |open|
    ensures multiset(Places(open, start))[child] == if start <= child < |open| then open[child] else 0
    decreases |open| - start
  {
    if start < |open| {
      PlacesEach(open, start + 1, child);
      Repeated(open[start], start, child);
      assert multiset(Places(open, start)) ==
             multiset(seq(open[start], _ => start)) + multiset(Places(open, start + 1));
    }
  }

  lemma {:induction false} FillSize(queue: seq<nat>, places: seq<nat>)
    requires Unrepeated(queue)
    ensures Fill(queue, places).Keys <= Queued(queue)
    ensures |Fill(queue, places)| == Min(|queue|, |places|)
    decreases |queue|
  {
    if |queue| > 0 && |places| > 0 {
      FirstQueued(queue);
      FillSize(queue[1..], places[1..]);
      hide Queued, Unrepeated;
      MergeSize(map[queue[0] := places[0]], Fill(queue[1..], places[1..]));
    }
  }

  lemma FillFirst(queue: seq<nat>, places: seq<nat>)
    requires |queue| > 0 && |places| > 0
    ensures Fill(queue, places) == map[queue[0] := places[0]] + Fill(queue[1..], places[1..])
  {}

  lemma CountFirst(places: seq<nat>, child: nat)
    requires |places| > 0
    ensures multiset(places)[child] == multiset(places[1..])[child] + if places[0] == child then 1 else 0
  {
    assert places == [places[0]] + places[1..];
  }

  lemma {:induction false} FillWithin(queue: seq<nat>, places: seq<nat>, child: nat)
    requires Unrepeated(queue)
    ensures |Members(Fill(queue, places), child)| <= multiset(places)[child]
    decreases |queue|
  {
    if |queue| == 0 || |places| == 0 {
      assert Members(map[], child) == {};
    } else {
      FirstQueued(queue);
      FillFirst(queue, places);
      CountFirst(places, child);
      hide Members, Fill, Queued, Unrepeated;
      FillWithin(queue[1..], places[1..], child);
      FillSize(queue[1..], places[1..]);
      Merge(map[queue[0] := places[0]], Fill(queue[1..], places[1..]), child);
      OneMember(queue[0], places[0], child);
    }
  }

  lemma {:induction false} FillPlaces(queue: seq<nat>, places: seq<nat>, uid: nat)
    requires uid in Fill(queue, places)
    ensures Fill(queue, places)[uid] in places
    decreases |queue|
  {
    var rest := Fill(queue[1..], places[1..]);
    if uid in rest {
      FillPlaces(queue[1..], places[1..], uid);
    }
  }

  lemma {:induction false} KeptGrows(groups: seq<Group>, a: Assignment, b: Assignment, child: nat)
    requires forall u | u in a :: u in b && b[u] == a[u]
    ensures Kept(groups, a, child) <= Kept(groups, b, child)
    decreases |groups|
  {
    if |groups| > 0 {
      KeptGrows(groups[1..], a, b, child);
    }
  }

  function After(target: seq<nat>, child: nat): seq<nat> {
    if HasRoom(target, child) then Take(target, child) else target
  }

  function Pushed(first: Group, room: bool, rest: Pass): Pass {
    if room then Pass(map[first.uid := first.child] + rest.kept, rest.queue, rest.open)
    else Pass(rest.kept, [first.uid] + rest.queue, rest.open)
  }

  /** A pass is its first group and the pass over the rest. */
  lemma FirstOf(groups: seq<Group>, target: seq<nat>) returns (rest: Pass)
    requires Distinct(groups) && |groups| > 0
    ensures rest == KeepLabels(groups[1..], After(target, groups[0].child)) && Distinct(groups[1..])
    ensures KeepLabels(groups, target) == Pushed(groups[0], HasRoom(target, groups[0].child), rest)
    ensures groups[0].uid !in rest.kept && groups[0].uid !in rest.queue
  {
    rest := KeepLabels(groups[1..], After(target, groups[0].child));
    FirstUid(groups);
    PassAccounted(groups[1..], After(target, groups[0].child));
    hide Distinct, Uids, Members, Balanced;
    assert groups[0].uid !in Queued(rest.queue);
  }

  lemma {:induction false} PassKeeps(groups: seq<Group>, target: seq<nat>, child: nat)
    requires Distinct(groups) && child < |target|
    ensures Kept(groups, KeepLabels(groups, target).kept, child) >= Min(Labelled(groups, child), target[child])
    decreases |groups|
  {
    if |groups| > 0 {
      var first, left := groups[0], After(target, groups[0].child);
      var rest := FirstOf(groups, target);
      hide KeepLabels, Distinct;
      PassKeeps(groups[1..], left, child);
      KeptGrows(groups[1..], rest.kept, Pushed(first, HasRoom(target, first.child), rest).kept, child);
    }
  }

  /** As many groups as there are places, none over target, and no child gives up a label it has room for. */
  lemma StickyMeets(groups: seq<Group>, target: seq<nat>)
    requires Distinct(groups)
    ensures Feasible(groups, target, Sticky(groups, target))
    ensures |Sticky(groups, target)| == Min(|groups|, Sum(target))
    ensures KeepsLabels(groups, target, Sticky(groups, target))
  {
    hide KeepLabels, Places, Fill, Members, Uids, Kept, Labelled;
    PassAccounted(groups, target);
    var pass := KeepLabels(groups, target);
    var filled := Fill(pass.queue, Places(pass.open, 0));
    FillMeets(pass.kept, pass.queue, pass.open, target);
    forall child | 0 <= child < |target|
      ensures Kept(groups, pass.kept + filled, child) >= Min(Labelled(groups, child), target[child])
    {
      PassKeeps(groups, target, child);
      KeptGrows(groups, pass.kept, pass.kept + filled, child);
    }
  }

  /** Filling the open places in order completes a balanced pass. */
  lemma FillMeets(kept: Assignment, queue: seq<nat>, open: seq<nat>, target: seq<nat>)
    requires Balanced(kept, open, target) && kept.Keys !! Queued(queue)
    requires Unrepeated(queue)
    ensures var filled := Fill(queue, Places(open, 0));
            && filled.Keys <= Queued(queue) && |kept + filled| == |kept| + Min(|queue|, Sum(open))
            && (forall u | u in kept + filled :: (kept + filled)[u] < |target|)
            && forall child | 0 <= child < |target| :: |Members(kept + filled, child)| <= target[child]
  {
    hide Places, Fill, Members, Queued;
    var places := Places(open, 0);
    var filled := Fill(queue, places);
    FillSize(queue, places);
    PlacesTotal(open, 0);
    MergeSize(kept, filled);
    forall child | 0 <= child < |target|
      ensures |Members(kept + filled, child)| <= target[child]
    {
      Merge(kept, filled, child);
      FillWithin(queue, places, child);
      PlacesEach(open, 0, child);
    }
    forall u | u in filled
      ensures filled[u] < |target|
    {
      FillPlaces(queue, places, u);
      PlacesEach(open, 0, filled[u]);
    }
  }

  // --- Keeping the most labels ---

  lemma FirstMember(members: set<nat>, uid: nat, rest: set<nat>)
    requires uid !in rest
    ensures |members * ({uid} + rest)| == |members * rest| + if uid in members then 1 else 0
  {
    assert members * ({uid} + rest) == members * rest + if uid in members then {uid} else {};
  }

  lemma {:induction false} KeptAreMembers(groups: seq<Group>, a: Assignment, child: nat)
    requires Distinct(groups)
    ensures Kept(groups, a, child) <= |Members(a, child) * Uids(groups)|
    decreases |groups|
  {
    if |groups| > 0 {
      FirstUid(groups);
      hide Distinct, Uids;
      KeptAreMembers(groups[1..], a, child);
      FirstMember(Members(a, child), groups[0].uid, Uids(groups[1..]));
    }
  }

  lemma KeptAtMost(groups: seq<Group>, a: Assignment, child: nat)
    requires Distinct(groups)
    ensures Kept(groups, a, child) <= Labelled(groups, child)
    ensures Kept(groups, a, child) <= |Members(a, child)|
  {
    KeptWithinLabelled(groups, a, child);
    KeptAreMembers(groups, a, child);
    SubsetSize(Members(a, child) * Uids(groups), Members(a, child));
  }

  /** No feasible assignment keeps more of any child's labels than the sticky one. */
  lemma StickyKeepsMost(groups: seq<Group>, target: seq<nat>, other: Assignment, child: nat)
    requires Distinct(groups) && Feasible(groups, target, other) && child < |target|
    ensures Kept(groups, other, child) <= Kept(groups, Sticky(groups, target), child)
  {
    StickyMeets(groups, target);
    KeptAtMost(groups, other, child);
  }

  lemma {:induction false} KeptAll(groups: seq<Group>, a: Assignment, k: nat)
    requires k < |groups| && Kept(groups, a, groups[k].child) >= Labelled(groups, groups[k].child)
    ensures groups[k].uid in a && a[groups[k].uid] == groups[k].child
    decreases |groups|
  {
    KeptWithinLabelled(groups[1..], a, groups[k].child);
    if k > 0 {
      KeptAll(groups[1..], a, k - 1);
    }
  }

  lemma {:induction false} KeptWithinLabelled(groups: seq<Group>, a: Assignment, child: nat)
    ensures Kept(groups, a, child) <= Labelled(groups, child)
    decreases |groups|
  {
    if |groups| > 0 {
      KeptWithinLabelled(groups[1..], a, child);
    }
  }

  /** A child with room for all its labelled groups keeps every one of them. */
  lemma RoomKeepsAll(groups: seq<Group>, target: seq<nat>, k: nat)
    requires Distinct(groups) && k < |groups| && groups[k].child < |target|
    requires Labelled(groups, groups[k].child) <= target[groups[k].child]
    ensures groups[k].uid in Sticky(groups, target) && Sticky(groups, target)[groups[k].uid] == groups[k].child
  {
    StickyMeets(groups, target);
    KeptAll(groups, Sticky(groups, target), k);
  }
}
