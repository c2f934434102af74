/**
 * Relabelling the first mislabelled group with its assignment leaves the whole
 * assignment unchanged, so passes that move one group at a time agree on where
 * every group belongs.
 */
module SubRoleStability {
  import opened Roles
  import opened SubRoleAssignment
  import opened SubRoleFloors

  function Relabel(groups: seq<Group>, k: nat, child: nat): (after: seq<Group>)
    requires k < |groups|
    ensures |after| == |groups|
  {
    groups[k := groups[k].(child := child)]
  }

  lemma RelabelDistinct(groups: seq<Group>, k: nat, child: nat)
    requires k < |groups| && Distinct(groups)
    ensures Distinct(Relabel(groups, k, child)) && Uids(Relabel(groups, k, child)) == Uids(groups)
    ensures EligibleUids(Relabel(groups, k, child)) == EligibleUids(groups)
  {
    var after := Relabel(groups, k, child);
    assert forall i | 0 <= i < |groups| :: after[i].uid == groups[i].uid && after[i].eligible == groups[i].eligible;
  }

  function Drop<T>(s: seq<T>, q: nat): seq<T>
    requires q < |s|
  {
    s[..q] + s[q + 1..]
  }

  // --- One sticky pass ---

  /** A place open at the end was open all along, and one fewer of it changes nothing else. */
  lemma {:induction false} Slack(groups: seq<Group>, target: seq<nat>, child: nat)
    requires HasRoom(KeepLabels(groups, target).open, child)
    ensures HasRoom(target, child)
    ensures var pass := KeepLabels(groups, target);
            KeepLabels(groups, Take(target, child)) == Pass(pass.kept, pass.queue, Take(pass.open, child))
    decreases |groups|
  {
    if |groups| > 0 {
      var first := groups[0];
      if HasRoom(target, first.child) {
        var left := Take(target, first.child);
        Slack(groups[1..], left, child);
        assert Take(left, child) == Take(Take(target, child), first.child);
      } else {
        Slack(groups[1..], target, child);
      }
    }
  }

  /** Giving a queued group a label that still has room moves it from the queue to the kept labels. */
  ghost predicate Moved(pass: Pass, after: Pass, uid: nat, child: nat, q: nat) {
    && HasRoom(pass.open, child) && q < |pass.queue| && pass.queue[q] == uid
    && after == Pass(map[uid := child] + pass.kept, Drop(pass.queue, q), Take(pass.open, child))
  }

  lemma PushMoved(first: Group, room: bool, pass: Pass, after: Pass, uid: nat, child: nat, q: nat)
    requires Moved(pass, after, uid, child, q) && uid != first.uid
    ensures Moved(Pushed(first, room, pass), Pushed(first, room, after), uid, child, if room then q else q + 1)
  {
    if !room {
      assert Drop([first.uid] + pass.queue, q + 1) == [first.uid] + Drop(pass.queue, q);
    }
  }

  lemma {:induction false} KeepRelabelled(groups: seq<Group>, target: seq<nat>, k: nat, child: nat) returns (q: nat)
    requires Distinct(groups) && k < |groups|
    requires var pass := KeepLabels(groups, target); groups[k].uid in pass.queue && HasRoom(pass.open, child)
    ensures Moved(KeepLabels(groups, target), KeepLabels(Relabel(groups, k, child), target), groups[k].uid, child, q)
    decreases |groups|
  {
    var first, tail := groups[0], groups[1..];
    var rest := FirstOf(groups, target);
    RelabelDistinct(groups, k, child);
    var changed := FirstOf(Relabel(groups, k, child), target);
    var left := After(target, first.child);
    hide KeepLabels, Uids;
    if k == 0 {
      Slack(tail, target, child);
      assert Relabel(groups, 0, child)[1..] == tail;
      assert Drop([first.uid] + rest.queue, 0) == rest.queue;
      q := 0;
    } else {
      assert groups[k] == tail[k - 1];
      assert Relabel(groups, k, child)[1..] == Relabel(tail, k - 1, child);
      q := KeepRelabelled(tail, left, k - 1, child);
      var room := HasRoom(target, first.child);
      hide Moved, Pushed, After, Relabel;
      PushMoved(first, room, rest, changed, groups[k].uid, child, q);
      q := if room then q else q + 1;
    }
  }

  lemma {:induction false} FillAt(queue: seq<nat>, places: seq<nat>, q: nat)
    requires Unrepeated(queue) && q < |queue|
    ensures queue[q] in Fill(queue, places) <==> q < |places|
    ensures q < |places| ==> Fill(queue, places)[queue[q]] == places[q]
    decreases |queue|
  {
    if |places| > 0 {
      FirstQueued(queue);
      FillSize(queue[1..], places[1..]);
      if q > 0 {
        FillAt(queue[1..], places[1..], q - 1);
      }
    }
  }

  lemma {:induction false} FillWithout(queue: seq<nat>, places: seq<nat>, q: nat)
    requires Unrepeated(queue) && q < |queue| && q < |places|
    ensures Fill(queue, places) == map[queue[q] := places[q]] + Fill(Drop(queue, q), Drop(places, q))
    decreases |queue|
  {
    FirstQueued(queue);
    FillFirst(queue, places);
    if q == 0 {
      assert Drop(queue, 0) == queue[1..] && Drop(places, 0) == places[1..];
    } else {
      var rest, left := Drop(queue[1..], q - 1), Drop(places[1..], q - 1);
      assert Drop(queue, q) == [queue[0]] + rest && Drop(places, q) == [places[0]] + left;
      assert queue[q] == queue[1..][q - 1] && queue[q] in Queued(queue[1..]);
      FillFirst(Drop(queue, q), Drop(places, q));
      assert Drop(queue, q)[1..] == rest && Drop(places, q)[1..] == left;
      hide Fill, Queued, Unrepeated, Drop;
      FillWithout(queue[1..], places[1..], q - 1);
      Reorder(queue[0], places[0], queue[q], places[q], Fill(rest, left));
    }
  }

  lemma Reorder(u: nat, a: nat, v: nat, b: nat, rest: Assignment)
    requires u != v
    ensures map[u := a] + (map[v := b] + rest) == map[v := b] + (map[u := a] + rest)
  {}

  lemma {:induction false} PlacesWithout(open: seq<nat>, start: nat, q: nat)
    requires start <= |open| && q < |Places(open, start)|
    ensures var child := Places(open, start)[q];
            && start <= child && HasRoom(open, child)
            && Places(Take(open, child), start) == Drop(Places(open, start), q)
    decreases |open| - start
  {
    var places, later := Places(open, start), Places(open, start + 1);
    if q < open[start] {
      assert places[q] == start;
      LaterPlaces(open, start, start + 1);
    } else {
      PlacesWithout(open, start + 1, q - open[start]);
      assert places[q] == later[q - open[start]];
      assert Drop(places, q) == seq(open[start], _ => start) + Drop(later, q - open[start]);
    }
  }

  lemma MoveToKept(kept: Assignment, filled: Assignment, uid: nat, child: nat)
    requires uid !in kept && uid !in filled
    ensures (map[uid := child] + kept) + filled == kept + (map[uid := child] + filled)
  {}

  lemma {:induction false} KeptIsLabel(groups: seq<Group>, target: seq<nat>, k: nat)
    requires Distinct(groups) && k < |groups|
    ensures var pass := KeepLabels(groups, target); var group := groups[k];
            if group.uid in pass.kept then pass.kept[group.uid] == group.child
            else group.uid in pass.queue && !HasRoom(pass.open, group.child)
    decreases |groups|
  {
    var first, tail := groups[0], groups[1..];
    var left := After(target, first.child);
    var rest := FirstOf(groups, target);
    hide KeepLabels;
    if k > 0 {
      assert groups[k] == tail[k - 1];
      KeptIsLabel(tail, left, k - 1);
    } else if !HasRoom(target, first.child) && HasRoom(rest.open, first.child) {
      Slack(tail, left, first.child);
    }
  }

  /** Relabelling any assigned group with its assignment leaves the sticky assignment unchanged. */
  lemma StickyStable(groups: seq<Group>, target: seq<nat>, k: nat)
    requires Distinct(groups) && k < |groups| && groups[k].uid in Sticky(groups, target)
    ensures var a := Sticky(groups, target); Sticky(Relabel(groups, k, a[groups[k].uid]), target) == a
  {
    hide KeepLabels, Places, Fill, Distinct, Uids, Members;
    var pass, uid := KeepLabels(groups, target), groups[k].uid;
    var places := Places(pass.open, 0);
    var filled := Fill(pass.queue, places);
    PassAccounted(groups, target);
    KeptIsLabel(groups, target, k);
    FillSize(pass.queue, places);
    if uid in pass.kept {
      assert Relabel(groups, k, groups[k].child) == groups;
    } else {
      var i :| 0 <= i < |pass.queue| && pass.queue[i] == uid;
      FillAt(pass.queue, places, i);
      var child := places[i];
      PlacesWithout(pass.open, 0, i);
      var q := KeepRelabelled(groups, target, k, child);
      assert q == i;
      FillWithout(pass.queue, places, q);
      var rest := Fill(Drop(pass.queue, q), Drop(places, q));
      DropKeepsOut(pass.queue, places, q);
      MoveToKept(pass.kept, rest, uid, child);
    }
  }

  lemma DropKeepsOut(queue: seq<nat>, places: seq<nat>, q: nat)
    requires Unrepeated(queue) && q < |queue| && q < |places|
    ensures queue[q] !in Fill(Drop(queue, q), Drop(places, q))
  {
    FillSize(Drop(queue, q), Drop(places, q));
  }

  // --- Selecting before and after ---

  ghost predicate IgnoresLabel(p: Group -> bool) {
    forall g: Group, child: nat :: p(g) == p(g.(child := child))
  }

  /** A selection that ignores labels keeps its order, and sees the same relabelling. */
  lemma {:induction false} SelectRelabel(groups: seq<Group>, p: Group -> bool, k: nat, child: nat) returns (j: nat)
    requires k < |groups| && IgnoresLabel(p) && p(groups[k])
    ensures var chosen := Select(groups, p);
            && j < |chosen| && chosen[j] == groups[k] && chosen[..j] == Select(groups[..k], p)
            && Select(Relabel(groups, k, child), p) == Relabel(chosen, j, child)
    decreases |groups|
  {
    var first, tail := groups[0], groups[1..];
    if k == 0 {
      assert Relabel(groups, 0, child)[1..] == tail;
      j := 0;
    } else {
      j := SelectRelabel(tail, p, k - 1, child);
      assert groups[k] == tail[k - 1] && groups[..k][1..] == tail[..k - 1];
      assert Relabel(groups, k, child)[1..] == Relabel(tail, k - 1, child);
      if p(first) {
        assert ([first] + Select(tail, p))[..j + 1] == [first] + Select(tail, p)[..j];
        j := j + 1;
      }
    }
  }

  lemma {:induction false} SelectSkips(groups: seq<Group>, p: Group -> bool, k: nat, child: nat)
    requires k < |groups| && IgnoresLabel(p) && !p(groups[k])
    ensures Select(Relabel(groups, k, child), p) == Select(groups, p)
    decreases |groups|
  {
    var tail := groups[1..];
    if k == 0 {
      assert Relabel(groups, 0, child)[1..] == tail;
    } else {
      SelectSkips(tail, p, k - 1, child);
      assert Relabel(groups, k, child)[1..] == Relabel(tail, k - 1, child);
    }
  }

  lemma {:induction false} SelectAgrees(groups: seq<Group>, p: Group -> bool, q: Group -> bool)
    requires forall i | 0 <= i < |groups| :: p(groups[i]) == q(groups[i])
    ensures Select(groups, p) == Select(groups, q)
    decreases |groups|
  {
    if |groups| > 0 {
      SelectAgrees(groups[1..], p, q);
    }
  }

  // --- Floors that labels already meet ---

  /** The groups one pass leaves over, in order. */
  function Passed(groups: seq<Group>, target: seq<nat>): seq<Group> {
    if |groups| == 0 then []
    else if HasRoom(target, groups[0].child) then Passed(groups[1..], Take(target, groups[0].child))
    else [groups[0]] + Passed(groups[1..], target)
  }

  lemma {:induction false} PassedOutside(groups: seq<Group>, target: seq<nat>)
    requires Distinct(groups)
    ensures Select(groups, Outside(KeepLabels(groups, target).kept)) == Passed(groups, target)
    decreases |groups|
  {
    if |groups| > 0 {
      var first, tail := groups[0], groups[1..];
      var rest := FirstOf(groups, target);
      PassedOutside(tail, After(target, first.child));
      FirstUid(groups);
      SelectAgrees(tail, Outside(rest.kept), Outside(KeepLabels(groups, target).kept));
    }
  }

  ghost predicate Adds(counts: seq<nat>, floor: seq<nat>, spare: seq<nat>) {
    |counts| == |floor| == |spare| && forall i | 0 <= i < |counts| :: counts[i] == floor[i] + spare[i]
  }

  /** Two passes, one over what the other left, that together make a third. */
  ghost predicate Combined(whole: Pass, first: Pass, second: Pass) {
    && whole.kept == first.kept + second.kept
    && whole.queue == second.queue
    && Adds(whole.open, first.open, second.open)
  }

  lemma CombineSpare(group: Group, whole: Pass, first: Pass, second: Pass)
    requires Combined(whole, first, second) && group.uid !in first.kept
    ensures Combined(Pushed(group, true, whole), Pushed(group, false, first), Pushed(group, true, second))
  {
    var one := map[group.uid := group.child];
    assert one + (first.kept + second.kept) == first.kept + (one + second.kept);
  }

  lemma PassFirst(groups: seq<Group>, target: seq<nat>)
    requires |groups| > 0
    ensures KeepLabels(groups, target)
         == Pushed(groups[0], HasRoom(target, groups[0].child), KeepLabels(groups[1..], After(target, groups[0].child)))
  {}

  /** Scanning for the floors and then for the spare places is scanning for both at once. */
  lemma {:induction false} TwoPasses(groups: seq<Group>, counts: seq<nat>, floor: seq<nat>, spare: seq<nat>)
    requires Distinct(groups) && Adds(counts, floor, spare)
    ensures Combined(KeepLabels(groups, counts), KeepLabels(groups, floor), KeepLabels(Passed(groups, floor), spare))
    decreases |groups|
  {
    if |groups| > 0 {
      var group, tail := groups[0], groups[1..];
      var child := group.child;
      var first := FirstOf(groups, floor);
      PassFirst(groups, counts);
      hide KeepLabels, Distinct;
      TwoPasses(tail, After(counts, child), After(floor, child),
                if HasRoom(floor, child) then spare else After(spare, child));
      if !HasRoom(floor, child) {
        var later := Passed(tail, floor);
        PassFirst([group] + later, spare);
        assert ([group] + later)[1..] == later;
        if HasRoom(counts, child) {
          CombineSpare(group, KeepLabels(tail, Take(counts, child)), first, KeepLabels(later, Take(spare, child)));
        }
      }
    }
  }

  /** Labels alone meet every floor. */
  ghost predicate LabelsMeet(groups: seq<Group>, floor: seq<nat>) {
    forall child | 0 <= child < |floor| :: Labelled(groups, child) >= floor[child]
  }

  lemma NothingOpen(groups: seq<Group>, floor: seq<nat>)
    requires Distinct(groups) && LabelsMeet(groups, floor)
    ensures var pass := KeepLabels(groups, floor);
            && (forall child | 0 <= child < |floor| :: pass.open[child] == 0)
            && Places(pass.open, 0) == [] && |pass.kept| == Sum(floor)
  {
    hide KeepLabels, Members, Uids, Kept, Labelled;
    var pass := KeepLabels(groups, floor);
    PassAccounted(groups, floor);
    forall child | 0 <= child < |floor|
      ensures pass.open[child] == 0
    {
      PassKeeps(groups, floor, child);
      KeptAtMost(groups, pass.kept, child);
    }
    SumZero(pass.open);
    PlacesTotal(pass.open, 0);
  }

  /** When labels meet every floor, reserving them first makes no difference. */
  lemma ServeIsSticky(ready: seq<Group>, counts: seq<nat>, floor: seq<nat>)
    requires Distinct(ready) && Below(floor, counts) && LabelsMeet(ready, floor)
    ensures Serve(ready, counts, floor) == Some(Sticky(ready, counts))
  {
    var first := KeepLabels(ready, floor);
    var reserved := Sticky(ready, floor);
    NothingOpen(ready, floor);
    assert reserved == first.kept + map[] == first.kept;
    StickyMeets(ready, floor);
    ExactFloors(ready, floor, reserved);
    PassedOutside(ready, floor);
    var spare := Deduct(counts, reserved);
    assert Adds(counts, floor, spare);
    TwoPasses(ready, counts, floor, spare);
    CombinedFill(KeepLabels(ready, counts), first, KeepLabels(Passed(ready, floor), spare));
  }

  lemma CombinedFill(whole: Pass, first: Pass, second: Pass)
    requires Combined(whole, first, second) && forall i | 0 <= i < |first.open| :: first.open[i] == 0
    ensures whole.kept + Fill(whole.queue, Places(whole.open, 0))
         == first.kept + (second.kept + Fill(second.queue, Places(second.open, 0)))
  {
    assert whole.open == second.open;
  }

  // --- The first mislabelled group ---

  /** Every group is labelled with its assignment. */
  ghost predicate Settled(groups: seq<Group>, a: Assignment) {
    forall i | 0 <= i < |groups| :: groups[i].uid in a && a[groups[i].uid] == groups[i].child
  }

  lemma {:induction false} OpenAtLeast(groups: seq<Group>, target: seq<nat>, child: nat)
    requires child < |target|
    ensures KeepLabels(groups, target).open[child] + Labelled(groups, child) >= target[child]
    decreases |groups|
  {
    if |groups| > 0 {
      PassFirst(groups, target);
      OpenAtLeast(groups[1..], After(target, groups[0].child), child);
    }
  }

  lemma {:induction false} QueueHead(groups: seq<Group>, target: seq<nat>, j: nat) returns (i: nat)
    requires Distinct(groups) && j < |groups| && groups[j].uid in KeepLabels(groups, target).queue
    ensures i <= j && KeepLabels(groups, target).queue[0] == groups[i].uid
    decreases |groups|
  {
    var rest := FirstOf(groups, target);
    if HasRoom(target, groups[0].child) {
      i := QueueHead(groups[1..], After(target, groups[0].child), j - 1);
      i := i + 1;
    } else {
      i := 0;
    }
  }

  /** While a floor lacks labels, the first group passed over is reserved for it. */
  lemma FirstPassedIsReserved(ready: seq<Group>, floor: seq<nat>, j: nat, child: nat) returns (i: nat)
    requires Distinct(ready) && j < |ready| && ready[j].uid !in Sticky(ready, floor)
    requires child < |floor| && Labelled(ready, child) < floor[child]
    ensures i < j && ready[i].uid in Sticky(ready, floor) && Sticky(ready, floor)[ready[i].uid] != ready[i].child
  {
    hide KeepLabels, Distinct, Members, Labelled, Places, Fill, Balanced, Uids;
    var pass := KeepLabels(ready, floor);
    PassAccounted(ready, floor);
    KeptIsLabel(ready, floor, j);
    OpenAtLeast(ready, floor, child);
    i := QueueHead(ready, floor, j);
    KeptIsLabel(ready, floor, i);
    HeadIsPlaced(pass, child);
  }

  lemma HeadIsPlaced(pass: Pass, child: nat)
    requires Unrepeated(pass.queue) && |pass.queue| > 0 && HasRoom(pass.open, child)
    ensures var filled := Fill(pass.queue, Places(pass.open, 0));
            pass.queue[0] in filled && HasRoom(pass.open, filled[pass.queue[0]])
  {
    hide Places, Fill;
    SumZero(pass.open);
    PlacesTotal(pass.open, 0);
    FillAt(pass.queue, Places(pass.open, 0), 0);
    PlacesWithout(pass.open, 0, 0);
  }

  /** When the first mislabelled group is not reserved, labels already meet every floor. */
  lemma LabelsMeetFirst(ready: seq<Group>, floor: seq<nat>, j: nat)
    requires Distinct(ready) && j < |ready| && ready[j].uid !in Sticky(ready, floor)
    requires forall i | 0 <= i < j && ready[i].uid in Sticky(ready, floor) ::
             Sticky(ready, floor)[ready[i].uid] == ready[i].child
    ensures LabelsMeet(ready, floor)
  {
    forall child | 0 <= child < |floor|
      ensures Labelled(ready, child) >= floor[child]
    {
      if Labelled(ready, child) < floor[child] {
        var i := FirstPassedIsReserved(ready, floor, j, child);
      }
    }
  }

  lemma {:induction false} RelabelCounts(groups: seq<Group>, k: nat, child: nat, other: nat)
    requires k < |groups|
    ensures Labelled(Relabel(groups, k, child), other) + (if groups[k].child == other then 1 else 0)
         == Labelled(groups, other) + if child == other then 1 else 0
    decreases |groups|
  {
    var tail := groups[1..];
    if k == 0 {
      assert Relabel(groups, 0, child)[1..] == tail;
    } else {
      RelabelCounts(tail, k - 1, child, other);
      assert Relabel(groups, k, child)[1..] == Relabel(tail, k - 1, child);
    }
  }

  /** A mislabelled group's label is over its target, or names no child. */
  lemma MovesFromSurplus(groups: seq<Group>, target: seq<nat>, k: nat)
    requires Distinct(groups) && k < |groups| && groups[k].child < |target|
    requires groups[k].uid in Sticky(groups, target) ==> Sticky(groups, target)[groups[k].uid] != groups[k].child
    ensures Labelled(groups, groups[k].child) > target[groups[k].child]
  {
    if Labelled(groups, groups[k].child) <= target[groups[k].child] {
      RoomKeepsAll(groups, target, k);
    }
  }

  /** Eligible groups: relabelling the first mislabelled one changes nothing. */
  lemma ServeStable(ready: seq<Group>, counts: seq<nat>, floor: seq<nat>, j: nat)
    requires Distinct(ready) && Below(floor, counts) && j < |ready| && Serve(ready, counts, floor).Some?
    requires var a := Serve(ready, counts, floor).value;
             && ready[j].uid in a && a[ready[j].uid] != ready[j].child
             && forall i | 0 <= i < j && ready[i].uid in a :: a[ready[i].uid] == ready[i].child
    ensures var a := Serve(ready, counts, floor).value; var after := Relabel(ready, j, a[ready[j].uid]);
            Distinct(after) && Serve(after, counts, floor) == Some(a)
  {
    hide Sticky, Labelled, Uids, Members, Distinct;
    var a, uid := Serve(ready, counts, floor).value, ready[j].uid;
    var reserved, after := Sticky(ready, floor), Relabel(ready, j, a[uid]);
    ReservedStay(ready, counts, floor);
    RelabelDistinct(ready, j, a[uid]);
    if uid in reserved {
      StickyStable(ready, floor, j);
      SelectSkips(ready, Outside(reserved), j, a[uid]);
    } else {
      LabelsMeetFirst(ready, floor, j);
      ServeIsSticky(ready, counts, floor);
      StillMeet(ready, counts, floor, j, a[uid]);
      ServeIsSticky(after, counts, floor);
      StickyStable(ready, counts, j);
    }
  }

  lemma StillMeet(ready: seq<Group>, counts: seq<nat>, floor: seq<nat>, j: nat, child: nat)
    requires Distinct(ready) && j < |ready| && Below(floor, counts) && LabelsMeet(ready, floor)
    requires ready[j].uid in Sticky(ready, counts) && Sticky(ready, counts)[ready[j].uid] != ready[j].child
    ensures LabelsMeet(Relabel(ready, j, child), floor)
  {
    hide Sticky, Labelled;
    if ready[j].child < |floor| {
      MovesFromSurplus(ready, counts, j);
    }
    forall other | 0 <= other < |floor|
      ensures Labelled(Relabel(ready, j, child), other) >= floor[other]
    {
      RelabelCounts(ready, j, child, other);
    }
  }

  /** What is reserved for a floor stays reserved. */
  lemma ReservedStay(ready: seq<Group>, counts: seq<nat>, floor: seq<nat>)
    requires Distinct(ready) && Below(floor, counts) && Serve(ready, counts, floor).Some?
    ensures var reserved, a := Sticky(ready, floor), Serve(ready, counts, floor).value;
            forall u | u in reserved :: u in a && a[u] == reserved[u]
  {
    hide Sticky, Members;
    var reserved := Sticky(ready, floor);
    StickyMeets(ready, floor);
    RestCount(ready, reserved);
    StickyMeets(Select(ready, Outside(reserved)), Deduct(counts, reserved));
  }

  // --- The whole assignment ---

  /** Where the plan places an eligible group is where serving does; the rest are filled. */
  ghost predicate Agrees(a: Assignment, b: Assignment, uid: nat) {
    (uid in a <==> uid in b) && (uid in a ==> a[uid] == b[uid])
  }

  lemma StagesAgree(groups: seq<Group>, counts: seq<nat>, floor: seq<nat>, k: nat)
    requires Distinct(groups) && Below(floor, counts) && k < |groups| && ReadyFor(groups, counts, floor).Some?
    ensures var a := ReadyFor(groups, counts, floor).value;
            var ready, unready := Select(groups, Ready), Select(groups, Unready);
            && Distinct(ready) && Distinct(unready) && Serve(ready, counts, floor).Some?
            && var served := Serve(ready, counts, floor).value;
            && Within(counts, served)
            && Agrees(a, if groups[k].eligible then served else Sticky(unready, Deduct(counts, served)), groups[k].uid)
  {
    hide Sticky, Serve, Members, Select, Uids, Distinct;
    var ready, unready := Select(groups, Ready), Select(groups, Unready);
    OneSide(groups, k);
    var served := Serve(ready, counts, floor).value;
    StickyMeets(unready, Deduct(counts, served));
  }

  lemma OneSide(groups: seq<Group>, k: nat)
    requires Distinct(groups) && k < |groups|
    ensures var ready, unready := Select(groups, Ready), Select(groups, Unready);
            && Distinct(ready) && Distinct(unready)
            && if groups[k].eligible then groups[k].uid !in Uids(unready) else groups[k].uid !in Uids(ready)
  {
    SelectUids(groups, Ready);
    SelectUids(groups, Unready);
    ReadinessDisjoint(groups);
    hide Select;
    var ready, unready := Select(groups, Ready), Select(groups, Unready);
    assert groups[k].uid in if groups[k].eligible then Uids(ready) else Uids(unready);
  }

  /** The groups before k are labelled with their assignments. */
  ghost predicate SettledBefore(groups: seq<Group>, a: Assignment, k: nat)
    requires k <= |groups|
  {
    forall i | 0 <= i < k && groups[i].uid in a :: a[groups[i].uid] == groups[i].child
  }

  lemma EarlierServed(groups: seq<Group>, counts: seq<nat>, floor: seq<nat>, k: nat, j: nat)
    requires Distinct(groups) && Below(floor, counts) && k < |groups| && ReadyFor(groups, counts, floor).Some?
    requires SettledBefore(groups, ReadyFor(groups, counts, floor).value, k)
    requires var ready := Select(groups, Ready);
             j < |ready| && ready[..j] == Select(groups[..k], Ready) && Distinct(ready) &&
               Serve(ready, counts, floor).Some?
    ensures SettledBefore(Select(groups, Ready), Serve(Select(groups, Ready), counts, floor).value, j)
  {
    hide Serve, Sticky;
    var ready := Select(groups, Ready);
    var served := Serve(ready, counts, floor).value;
    SelectKeeps(groups[..k], Ready);
    hide Select;
    forall i | 0 <= i < j && ready[i].uid in served
      ensures served[ready[i].uid] == ready[i].child
    {
      assert ready[..j][i] in groups[..k] && Ready(ready[..j][i]);
      var m :| 0 <= m < k && groups[..k][m] == ready[i];
      StagesAgree(groups, counts, floor, m);
    }
  }

  /** Relabelling the first mislabelled group with its assignment leaves every assignment as it was. */
  lemma ReadyStable(groups: seq<Group>, counts: seq<nat>, floor: seq<nat>, k: nat)
    requires Distinct(groups) && Below(floor, counts) && k < |groups| && ReadyFor(groups, counts, floor).Some?
    requires var a := ReadyFor(groups, counts, floor).value;
             && groups[k].uid in a && a[groups[k].uid] != groups[k].child && SettledBefore(groups, a, k)
    ensures var a := ReadyFor(groups, counts, floor).value; var after := Relabel(groups, k, a[groups[k].uid]);
            Distinct(after) && ReadyFor(after, counts, floor) == Some(a)
  {
    hide Serve, Sticky, Uids, Members, Distinct, Select;
    var a := ReadyFor(groups, counts, floor).value;
    var child := a[groups[k].uid];
    var ready, unready := Select(groups, Ready), Select(groups, Unready);
    StagesAgree(groups, counts, floor, k);
    RelabelDistinct(groups, k, child);
    var served := Serve(ready, counts, floor).value;
    if groups[k].eligible {
      var j := SelectRelabel(groups, Ready, k, child);
      EarlierServed(groups, counts, floor, k, j);
      ServeStable(ready, counts, floor, j);
      SelectSkips(groups, Unready, k, child);
    } else {
      var j := SelectRelabel(groups, Unready, k, child);
      SelectSkips(groups, Ready, k, child);
      StickyStable(unready, Deduct(counts, served), j);
    }
  }
}
