/**
 * The deletion-cost override on a leader Pod. Preferring a group for deletion
 * replaces the Pod's cost and saves the previous one on the same Pod; withdrawing
 * the preference restores it. Meanwhile the scheduling gate may be lifted and
 * others may edit the cost.
 */
module DeletionCost {
  import opened Roles

  /** The cost that prefers a group for deletion, and the native cost of a leader that is still gated. */
  const OVERRIDE := "-2147483648"
  const GATED_COST := "-100"

  /** What the backup records for an absent cost and for the native cost of a gated leader. */
  const ABSENT := "none"
  const NATIVE := "gated"

  /** A leader Pod's cost annotation, its saved cost and its replacement gate. */
  datatype Pod = Pod(cost: Option<string>, saved: Option<string>, gated: bool) {
    function Backup(): string {
      if cost.None? then ABSENT
      else if cost.value == GATED_COST && gated then NATIVE
      else cost.value
    }

    function Restored(): Option<string>
      requires saved.Some?
    {
      if saved.value == ABSENT then None
      else if saved.value == NATIVE then (if gated then Some(GATED_COST) else None)
      else saved
    }

    function Prefer(): Pod {
      Pod(Some(OVERRIDE), if saved.Some? && cost == Some(OVERRIDE) then saved else Some(Backup()), gated)
    }

    function Withdraw(): Pod {
      if saved.None? then this
      else Pod(if cost == Some(OVERRIDE) then Restored() else cost, None, gated)
    }

    /** Admission removes the gate, and the native cost that came with it. */
    function Lift(): Pod {
      if !gated then this
      else Pod(if cost == Some(GATED_COST) then None else cost, saved, false)
    }
  }

  /** One event in a Pod's life; a retry is the same event again, and a lost write is no event. */
  datatype Event = Prefer | Withdraw | Lift | Edit(cost: Option<string>)

  function Apply(pod: Pod, event: Event): Pod {
    match event
    case Prefer => pod.Prefer()
    case Withdraw => pod.Withdraw()
    case Lift => pod.Lift()
    case Edit(cost) => pod.(cost := cost)
  }

  function Run(pod: Pod, events: seq<Event>): Pod {
    if |events| == 0 then pod else Apply(Run(pod, events[..|events| - 1]), events[|events| - 1])
  }

  /** The same life without any preference. */
  function Unpreferred(events: seq<Event>): seq<Event> {
    if |events| == 0 then []
    else
      var n := |events| - 1;
      Unpreferred(events[..n]) + if events[n].Prefer? || events[n].Withdraw? then [] else [events[n]]
  }

  /** The object whose annotations the controllers rewrite. */
  class LeaderPod {
    var cost: Option<string>
    var saved: Option<string>
    var gated: bool

    ghost function State(): Pod
      reads this
    {
      Pod(cost, saved, gated)
    }

    constructor (pod: Pod)
      ensures State() == pod
    {
      cost, saved, gated := pod.cost, pod.saved, pod.gated;
    }

    method PreferDeletion(prefer: bool) returns (changed: bool)
      modifies this
      ensures State() == if prefer then old(State()).Prefer() else old(State()).Withdraw()
      ensures changed <==> State() != old(State())
    {
      var pod := Pod(cost, saved, gated);
      if prefer {
        var previous := saved;
        if saved.None? || cost != Some(OVERRIDE) {
          previous := cost;
          if cost.None? {
            previous := Some(ABSENT);
          } else if cost.value == GATED_COST && gated {
            previous := Some(NATIVE);
          }
        }
        cost, saved := Some(OVERRIDE), previous;
      } else if saved.Some? {
        var previous := saved.value;
        saved := None;
        if cost == Some(OVERRIDE) {
          if previous == ABSENT {
            cost := None;
          } else if previous == NATIVE {
            cost := None;
            if gated {
              cost := Some(GATED_COST);
            }
          } else {
            cost := Some(previous);
          }
        }
      }
      changed := cost != pod.cost || saved != pod.saved;
    }

    method Admit()
      requires gated
      modifies this
      ensures State() == old(State()).Lift()
    {
      gated := false;
      if cost == Some(GATED_COST) {
        cost := None;
      }
    }
  }

  // --- The override undoes itself ---

  /** Text that the backup can hold without being taken for something else. */
  predicate Reserved(cost: string) {
    cost == OVERRIDE || cost == ABSENT || cost == NATIVE
  }

  predicate Ordinary(cost: Option<string>) {
    cost.Some? ==> !Reserved(cost.value)
  }

  ghost predicate OrdinaryEdits(events: seq<Event>) {
    forall i | 0 <= i < |events| && events[i].Edit? :: Ordinary(events[i].cost)
  }

  /** The Pod agrees with its unpreferred counterpart, once any override in force is put back. */
  ghost predicate Shadows(pod: Pod, plain: Pod) {
    && pod.gated == plain.gated && plain.saved.None? && Ordinary(plain.cost)
    && if pod.saved.Some? && pod.cost == Some(OVERRIDE) then
         && pod.saved.value != OVERRIDE && pod.Restored() == plain.cost
         && (pod.saved.value == GATED_COST ==> !pod.gated)
       else pod.cost == plain.cost
  }

  lemma TextsDiffer()
    ensures GATED_COST != OVERRIDE && GATED_COST != ABSENT && GATED_COST != NATIVE
    ensures ABSENT != OVERRIDE && NATIVE != OVERRIDE && ABSENT != NATIVE
  {
    assert GATED_COST[0] != ABSENT[0];
  }

  lemma StepShadows(pod: Pod, plain: Pod, event: Event)
    requires Shadows(pod, plain) && (event.Edit? ==> Ordinary(event.cost))
    ensures Shadows(Apply(pod, event), if event.Prefer? || event.Withdraw? then plain else Apply(plain, event))
  {
    TextsDiffer();
  }

  lemma NothingYet(pod: Pod, events: seq<Event>)
    requires pod.saved.None? && Ordinary(pod.cost) && |events| == 0
    ensures Shadows(Run(pod, events), Run(pod, Unpreferred(events)))
  {}

  lemma EditsBefore(events: seq<Event>)
    requires |events| > 0 && OrdinaryEdits(events)
    ensures var n := |events| - 1; OrdinaryEdits(events[..n]) && (events[n].Edit? ==> Ordinary(events[n].cost))
  {
    hide Ordinary;
  }

  lemma {:induction false} RunShadows(pod: Pod, events: seq<Event>)
    requires pod.saved.None? && Ordinary(pod.cost) && OrdinaryEdits(events)
    ensures Shadows(Run(pod, events), Run(pod, Unpreferred(events)))
    decreases |events|
  {
    hide Shadows, Apply, Run, Unpreferred, Ordinary, OrdinaryEdits;
    if |events| == 0 {
      NothingYet(pod, events);
    } else {
      var n := |events| - 1;
      EditsBefore(events);
      RunShadows(pod, events[..n]);
      StepShadows(Run(pod, events[..n]), Run(pod, Unpreferred(events[..n])), events[n]);
      RunLast(pod, events);
      RunOne(pod, Unpreferred(events[..n]), events[n]);
      UnpreferredLast(events);
    }
  }

  lemma RunLast(pod: Pod, events: seq<Event>)
    requires |events| > 0
    ensures Run(pod, events) == Apply(Run(pod, events[..|events| - 1]), events[|events| - 1])
  {}

  lemma UnpreferredLast(events: seq<Event>)
    requires |events| > 0
    ensures var n := |events| - 1;
            Unpreferred(events) ==
            if events[n].Prefer? || events[n].Withdraw? then Unpreferred(events[..n])
            else Unpreferred(events[..n]) + [events[n]]
  {}

  lemma RunOne(pod: Pod, events: seq<Event>, event: Event)
    ensures Run(pod, events + [event]) == Apply(Run(pod, events), event)
  {
    assert (events + [event])[..|events|] == events;
  }

  /** Whether a last withdrawal leaves the Pod as if no preference had ever been set. */
  ghost predicate Undone(pod: Pod, events: seq<Event>) {
    Run(pod, events + [Withdraw]) == Run(pod, Unpreferred(events))
  }

  lemma OverrideUndone(pod: Pod, events: seq<Event>)
    requires pod.saved.None? && Ordinary(pod.cost) && OrdinaryEdits(events)
    ensures Undone(pod, events)
  {
    RunShadows(pod, events);
    RunOne(pod, events, Withdraw);
  }

  ghost predicate EditsOnly(events: seq<Event>, cost: string) {
    forall i | 0 <= i < |events| && events[i].Edit? :: events[i].cost == Some(cost)
  }

  /** Editing the cost to some text is safe in every run exactly when that text is not reserved. */
  lemma EditSafeIff(cost: string)
    ensures (forall pod: Pod, events | pod.saved.None? && Ordinary(pod.cost) && EditsOnly(events, cost) ::
             Undone(pod, events))
       <==> !Reserved(cost)
  {
    if Reserved(cost) {
      ReservedIsLost(cost);
    } else {
      forall pod: Pod, events | pod.saved.None? && Ordinary(pod.cost) && EditsOnly(events, cost)
        ensures Undone(pod, events)
      {
        OverrideUndone(pod, events);
      }
    }
  }

  lemma UnpreferredEdit(edit: Event)
    requires edit.Edit?
    ensures Unpreferred([Prefer, edit]) == [edit] && Unpreferred([edit, Prefer]) == [edit]
  {
    assert [Prefer, edit][..1] == [Prefer] && [Prefer][..0] == [];
    assert [edit, Prefer][..1] == [edit] && [edit][..0] == [];
    assert Unpreferred([Prefer]) == [] && Unpreferred([edit]) == [edit];
  }

  lemma OverrideWithdrawn(pod: Pod)
    requires pod == Pod(None, None, false)
    ensures Apply(Apply(Apply(pod, Prefer), Edit(Some(OVERRIDE))), Withdraw) == pod
  {
    assert Apply(Apply(pod, Prefer), Edit(Some(OVERRIDE))) == Pod(Some(OVERRIDE), Some(ABSENT), false);
  }

  lemma SentinelWithdrawn(pod: Pod, cost: string)
    requires pod == Pod(None, None, false) && (cost == ABSENT || cost == NATIVE)
    ensures Apply(Apply(Apply(pod, Edit(Some(cost))), Prefer), Withdraw) == pod
  {
    assert Apply(Apply(pod, Edit(Some(cost))), Prefer) == Pod(Some(OVERRIDE), Some(cost), false);
  }

  /** A reserved text, set while the override is in force or before it, does not come back. */
  lemma ReservedIsLost(cost: string)
    requires Reserved(cost)
    ensures var edit := Edit(Some(cost));
            var events := if cost == OVERRIDE then [Prefer, edit] else [edit, Prefer];
            EditsOnly(events, cost) && !Undone(Pod(None, None, false), events)
  {
    hide Run, Unpreferred, Apply;
    var pod, edit := Pod(None, None, false), Edit(Some(cost));
    UnpreferredEdit(edit);
    RunThree(pod, edit, Withdraw, Withdraw);
    EditApplied(pod, Some(cost));
    if cost == OVERRIDE {
      RunThree(pod, Prefer, edit, Withdraw);
      OverrideWithdrawn(pod);
    } else {
      RunThree(pod, edit, Prefer, Withdraw);
      SentinelWithdrawn(pod, cost);
    }
  }

  lemma EditApplied(pod: Pod, cost: Option<string>)
    ensures Apply(pod, Edit(cost)).cost == cost
  {}

  lemma RunThree(pod: Pod, first: Event, second: Event, third: Event)
    ensures Run(pod, [first]) == Apply(pod, first)
    ensures Run(pod, [first, second] + [third]) == Apply(Apply(Apply(pod, first), second), third)
  {
    hide Apply;
    RunOne(pod, [], first);
    assert [] + [first] == [first];
    RunOne(pod, [first], second);
    assert [first] + [second] == [first, second];
    RunOne(pod, [first, second], third);
  }
}
