/**
 * The Ordinal transfer: once every group's labels are coherent, each pass moves
 * at most one surviving group to the child a saved plan assigns it, and a donor
 * child must not fall below its Ready floor.
 */
module SubRoleTransfer {
  import opened Roles
  import opened SubRoleAssignment
  import opened SubRoleFloors
  import opened SubRoleStability

  /** Retained Ready groups carrying a label. */
  function ReadyLabelled(groups: seq<Group>, child: nat): nat {
    Labelled(Select(groups, Ready), child)
  }

  /** A child's saved floor; a label that names no child has none. */
  function FloorOf(floor: Option<seq<nat>>, child: nat): nat {
    if floor.Some? && child < |floor.value| then floor.value[child] else 0
  }

  /** Where a pass would put the survivors: by the saved plan, or by keeping labels. */
  function Assigned(prefix: seq<Group>, target: seq<nat>, floor: Option<seq<nat>>): Option<Assignment>
    requires Distinct(prefix) && (floor.Some? ==> Below(floor.value, target))
  {
    if floor.Some? then ReadyFor(prefix, target, floor.value) else Some(Sticky(prefix, target))
  }

  predicate Labels(group: Group, a: Assignment) {
    group.uid in a && a[group.uid] == group.child
  }

  function FirstMislabelled(groups: seq<Group>, a: Assignment): (k: nat)
    ensures k <= |groups| && (k < |groups| ==> !Labels(groups[k], a))
    ensures forall i | 0 <= i < k :: Labels(groups[i], a)
  {
    if |groups| == 0 || !Labels(groups[0], a) then 0 else 1 + FirstMislabelled(groups[1..], a)
  }

  // --- Donors ---

  lemma {:induction false} LabelledSome(groups: seq<Group>, k: nat)
    requires k < |groups|
    ensures Labelled(groups, groups[k].child) > 0
    decreases |groups|
  {
    if k > 0 {
      LabelledSome(groups[1..], k - 1);
    }
  }

  lemma AllAssigned(prefix: seq<Group>, target: seq<nat>, floor: Option<seq<nat>>, k: nat)
    requires Distinct(prefix) && (floor.Some? ==> Below(floor.value, target))
    requires |prefix| <= Sum(target) && k < |prefix| && Assigned(prefix, target, floor).Some?
    ensures prefix[k].uid in Assigned(prefix, target, floor).value
  {
    hide Sticky, ReadyFor, Members;
    var a := Assigned(prefix, target, floor).value;
    if floor.Some? {
      ReadyMeets(prefix, target, floor.value);
    } else {
      StickyMeets(prefix, target);
    }
    UidCount(prefix);
    assert Uids(prefix) == a.Keys + (Uids(prefix) - a.Keys);
  }

  /** An eligible group that has to move leaves a child holding more Ready groups than its floor. */
  lemma DonorCanSpare(prefix: seq<Group>, target: seq<nat>, floor: Option<seq<nat>>, k: nat)
    requires Distinct(prefix) && (floor.Some? ==> Below(floor.value, target))
    requires k < |prefix| && prefix[k].eligible && Assigned(prefix, target, floor).Some?
    requires !Labels(prefix[k], Assigned(prefix, target, floor).value)
    ensures ReadyLabelled(prefix, prefix[k].child) > FloorOf(floor, prefix[k].child)
  {
    hide Sticky, Serve, ReadyFor, Uids, Members, Labelled, Distinct;
    var ready, child := Select(prefix, Ready), prefix[k].child;
    var j := SelectRelabel(prefix, Ready, k, child);
    LabelledSome(ready, j);
    if floor.Some? && child < |floor.value| && Labelled(ready, child) <= floor.value[child] {
      StagesAgree(prefix, target, floor.value, k);
      RoomKeepsAll(ready, floor.value, j);
      ReservedStay(ready, target, floor.value);
    }
  }

  // --- One move ---

  lemma ReadyAfterMove(groups: seq<Group>, k: nat, child: nat, other: nat)
    requires k < |groups|
    ensures ReadyLabelled(Relabel(groups, k, child), other)
         == ReadyLabelled(groups, other)
          + (if groups[k].eligible && child == other then 1 else 0)
          - (if groups[k].eligible && groups[k].child == other then 1 else 0)
  {
    hide Labelled, Relabel;
    if groups[k].eligible {
      var j := SelectRelabel(groups, Ready, k, child);
      RelabelCounts(Select(groups, Ready), j, child, other);
    } else {
      SelectSkips(groups, Ready, k, child);
    }
  }

  /** No child ends below the lesser of its floor and what it had. */
  ghost predicate KeepsFloors(before: seq<Group>, after: seq<Group>, others: seq<Group>, floor: Option<seq<nat>>) {
    forall child: nat ::
      ReadyLabelled(after, child) + ReadyLabelled(others, child)
      >= Min(ReadyLabelled(before, child) + ReadyLabelled(others, child), FloorOf(floor, child))
  }

  lemma MoveKeepsFloors(
    prefix: seq<Group>, others: seq<Group>, target: seq<nat>, floor: Option<seq<nat>>, k: nat, child: nat
  )
    requires Distinct(prefix) && (floor.Some? ==> Below(floor.value, target))
    requires k < |prefix| && Assigned(prefix, target, floor).Some?
    requires !Labels(prefix[k], Assigned(prefix, target, floor).value)
    ensures KeepsFloors(prefix, Relabel(prefix, k, child), others, floor)
  {
    hide ReadyLabelled, Relabel, Assigned, Distinct, FloorOf;
    if prefix[k].eligible {
      DonorCanSpare(prefix, target, floor, k);
    }
    forall other: nat
      ensures ReadyLabelled(Relabel(prefix, k, child), other) + ReadyLabelled(others, other)
           >= Min(ReadyLabelled(prefix, other) + ReadyLabelled(others, other), FloorOf(floor, other))
    {
      ReadyAfterMove(prefix, k, child, other);
    }
  }

  /** What a pass over coherent labels decides. */
  datatype Transfer =
    | Move(index: nat, child: nat)
    | BlockedTransfer
    | Wait
    | Done

  /**
   * Moves the first survivor whose label is not its assignment. The wait for a
   * donor that cannot spare a Ready group is never reached, and no move takes a
   * child below its floor.
   */
  method NextTransfer(
    prefix: seq<Group>, others: seq<Group>, target: seq<nat>, floor: Option<seq<nat>>,
    pending: bool, complete: bool, survivorsReady: bool
  ) returns (transfer: Transfer)
    requires Distinct(prefix) && |prefix| <= Sum(target) && (floor.Some? ==> Below(floor.value, target))
    ensures transfer != BlockedTransfer
    ensures transfer.Move? ==>
              && Assigned(prefix, target, floor).Some?
              && var a := Assigned(prefix, target, floor).value;
              && transfer.index == FirstMislabelled(prefix, a) < |prefix|
              && prefix[transfer.index].uid in a && transfer.child == a[prefix[transfer.index].uid]
              && KeepsFloors(prefix, Relabel(prefix, transfer.index, transfer.child), others, floor)
    ensures transfer == Done && (prefix != [] || pending) ==>
              Assigned(prefix, target, floor).Some? &&
                FirstMislabelled(prefix, Assigned(prefix, target, floor).value) == |prefix|
    ensures complete && (if floor.Some? then Sum(floor.value) <= |EligibleUids(prefix)| else survivorsReady) ==>
            transfer != Wait
  {
    var assignments: Option<Assignment>;
    var canAssign := complete && survivorsReady;
    if floor.Some? {
      assignments := ReadyAssignments(prefix, target, floor.value);
      canAssign := complete && assignments.Some?;
    } else {
      var sticky := StickyAssignments(prefix, target);
      assignments := Some(sticky);
    }
    hide Sticky, ReadyFor, Distinct, Uids, FloorOf, ReadyLabelled;
    if pending && !canAssign {
      return Wait;
    }
    var blocked := false;
    for k := 0 to |prefix|
      invariant !blocked && (k > 0 ==> assignments.Some?)
      invariant assignments.Some? ==> forall i | 0 <= i < k :: Labels(prefix[i], assignments.value)
    {
      if assignments.Some? && Labels(prefix[k], assignments.value) {
        continue;
      }
      if !canAssign {
        return Wait;
      }
      FirstIs(prefix, assignments.value, k);
      AllAssigned(prefix, target, floor, k);
      MoveKeepsFloors(prefix, others, target, floor, k, assignments.value[prefix[k].uid]);
      if prefix[k].eligible {
        DonorCanSpare(prefix, target, floor, k);
        if ReadyLabelled(prefix, prefix[k].child) + ReadyLabelled(others, prefix[k].child) <=
          FloorOf(floor, prefix[k].child) {
          blocked := true;
          continue;
        }
      }
      return Move(k, assignments.value[prefix[k].uid]);
    }
    if blocked {
      return BlockedTransfer;
    }
    if assignments.Some? {
      FirstIs(prefix, assignments.value, |prefix|);
    }
    return Done;
  }

  lemma FirstIs(groups: seq<Group>, a: Assignment, k: nat)
    requires k <= |groups| && (k < |groups| ==> !Labels(groups[k], a))
    requires forall i | 0 <= i < k :: Labels(groups[i], a)
    ensures FirstMislabelled(groups, a) == k
  {}

  // --- Whole transfers ---

  /** Survivors that a saved plan can place. */
  ghost predicate Planned(prefix: seq<Group>, target: seq<nat>, floor: seq<nat>) {
    && Distinct(prefix) && |prefix| <= Sum(target) && Below(floor, target)
    && ReadyFor(prefix, target, floor).Some?
  }

  ghost function Placed(prefix: seq<Group>, target: seq<nat>, floor: seq<nat>): Assignment
    requires Planned(prefix, target, floor)
  {
    ReadyFor(prefix, target, floor).value
  }

  /** The survivors after one pass: the first mislabelled one carries its assignment. */
  ghost function AfterPass(prefix: seq<Group>, target: seq<nat>, floor: seq<nat>): (after: seq<Group>)
    requires Planned(prefix, target, floor)
    ensures Planned(after, target, floor) && Placed(after, target, floor) == Placed(prefix, target, floor)
  {
    var a := Placed(prefix, target, floor);
    var k := FirstMislabelled(prefix, a);
    MoveKeepsPlan(prefix, target, floor);
    if k < |prefix| then Relabel(prefix, k, a[prefix[k].uid]) else prefix
  }

  lemma MoveKeepsPlan(prefix: seq<Group>, target: seq<nat>, floor: seq<nat>)
    requires Planned(prefix, target, floor)
    ensures var a := Placed(prefix, target, floor); var k := FirstMislabelled(prefix, a);
            k < |prefix| ==>
              && prefix[k].uid in a
              && var after := Relabel(prefix, k, a[prefix[k].uid]);
              && Planned(after, target, floor) && Placed(after, target, floor) == a
  {
    hide ReadyFor, Distinct;
    var k := FirstMislabelled(prefix, Placed(prefix, target, floor));
    if k < |prefix| {
      AllAssigned(prefix, target, Some(floor), k);
      ReadyStable(prefix, target, floor, k);
    }
  }

  ghost function AfterPasses(prefix: seq<Group>, target: seq<nat>, floor: seq<nat>, passes: nat): (after: seq<Group>)
    requires Planned(prefix, target, floor)
    ensures Planned(after, target, floor) && Placed(after, target, floor) == Placed(prefix, target, floor)
  {
    if passes == 0 then prefix else AfterPass(AfterPasses(prefix, target, floor, passes - 1), target, floor)
  }

  /** Survivors whose label is not their assignment. */
  function Mislabelled(groups: seq<Group>, a: Assignment): nat {
    if |groups| == 0 then 0 else (if Labels(groups[0], a) then 0 else 1) + Mislabelled(groups[1..], a)
  }

  lemma {:induction false} MoveCorrectsOne(groups: seq<Group>, a: Assignment, k: nat)
    requires k < |groups| && groups[k].uid in a && !Labels(groups[k], a)
    ensures Mislabelled(Relabel(groups, k, a[groups[k].uid]), a) == Mislabelled(groups, a) - 1
    decreases |groups|
  {
    var child := a[groups[k].uid];
    if k == 0 {
      assert Relabel(groups, 0, child)[1..] == groups[1..];
    } else {
      MoveCorrectsOne(groups[1..], a, k - 1);
      assert Relabel(groups, k, child)[1..] == Relabel(groups[1..], k - 1, child);
    }
  }

  lemma {:induction false} NoneMislabelled(groups: seq<Group>, a: Assignment)
    ensures Mislabelled(groups, a) == 0 <==> Settled(groups, a)
    ensures Mislabelled(groups, a) == 0 <==> FirstMislabelled(groups, a) == |groups|
    decreases |groups|
  {
    if |groups| > 0 {
      NoneMislabelled(groups[1..], a);
      assert groups == [groups[0]] + groups[1..];
    }
  }

  lemma PassProgress(prefix: seq<Group>, others: seq<Group>, target: seq<nat>, floor: seq<nat>)
    requires Planned(prefix, target, floor)
    ensures var a, after := Placed(prefix, target, floor), AfterPass(prefix, target, floor);
            && Mislabelled(after, a) == Max(0, Mislabelled(prefix, a) - 1)
            && KeepsFloors(prefix, after, others, Some(floor))
            && EligibleUids(after) == EligibleUids(prefix)
  {
    hide ReadyFor, Distinct, ReadyLabelled, Mislabelled, Relabel, EligibleUids, FloorOf;
    var a := Placed(prefix, target, floor);
    var k := FirstMislabelled(prefix, a);
    NoneMislabelled(prefix, a);
    if k < |prefix| {
      AllAssigned(prefix, target, Some(floor), k);
      MoveCorrectsOne(prefix, a, k);
      MoveKeepsFloors(prefix, others, target, Some(floor), k, a[prefix[k].uid]);
      RelabelDistinct(prefix, k, a[prefix[k].uid]);
    }
  }

  /**
   * With membership and readiness steady, passes agree on one assignment, each
   * corrects one label while any is wrong, and at no point is a child below the
   * lesser of its floor and what it began with.
   */
  lemma {:induction false} TransferRun(
    prefix: seq<Group>, others: seq<Group>, target: seq<nat>, floor: seq<nat>, passes: nat
  )
    requires Planned(prefix, target, floor)
    ensures var a, after := Placed(prefix, target, floor), AfterPasses(prefix, target, floor, passes);
            && Mislabelled(after, a) == Max(0, Mislabelled(prefix, a) - passes)
            && KeepsFloors(prefix, after, others, Some(floor))
            && EligibleUids(after) == EligibleUids(prefix)
    decreases passes
  {
    hide ReadyFor, Distinct, ReadyLabelled, Mislabelled, AfterPass, EligibleUids, FloorOf;
    if passes > 0 {
      TransferRun(prefix, others, target, floor, passes - 1);
      PassProgress(AfterPasses(prefix, target, floor, passes - 1), others, target, floor);
    }
  }

  /** A transfer finishes after exactly as many passes as there are labels to change. */
  lemma TransferFinishes(prefix: seq<Group>, target: seq<nat>, floor: seq<nat>, passes: nat)
    requires Planned(prefix, target, floor)
    ensures var a := Placed(prefix, target, floor);
            Settled(AfterPasses(prefix, target, floor, passes), a) <==> passes >= Mislabelled(prefix, a)
  {
    hide ReadyFor, Distinct, Mislabelled, AfterPasses, Settled;
    TransferRun(prefix, [], target, floor, passes);
    NoneMislabelled(AfterPasses(prefix, target, floor, passes), Placed(prefix, target, floor));
  }
}
