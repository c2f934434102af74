/**
 * The write ledger: conditional mutations are remembered until the informer
 * has evidence of their outcome, whatever the reply to them was.
 */
module WriteLedger {

  datatype Receipt = NoReceipt | Issued(id: nat) | Foreign(value: nat)

  /**
   * One state of an API object. `writer` names the mutation that produced the
   * state; it is bookkeeping of the model that no controller reads.
   */
  datatype Object =
    | Gone
    | Live(uid: nat, version: nat, owner: nat, slice: nat, receipt: Receipt, terminating: bool, writer: Receipt)

  /** How an API call ended, as far as the caller can tell. */
  datatype Reply = Accepted | Conflict | AlreadyExists | Rejected | Unknown {
    /** The request definitely did not change the object. */
    predicate Refused() {
      Conflict? || AlreadyExists? || Rejected?
    }
  }

  datatype Outcome = Done | Waiting | Failed

  /** A mutation the informer has not accounted for; `retry` while its reply is unknown. */
  datatype Pending = Pending(
    id: nat, owner: nat, parent: nat, slice: nat, uid: nat, deleted: bool, baseVersion: nat, retry: bool)
  {
    function Receipt(): Receipt {
      if deleted then NoReceipt else Issued(id)
    }

    /** The object this write was made against is over, as far as the informer shows. */
    predicate Departed(view: Object) {
      view.Gone? || view.uid != uid || view.terminating
    }

    predicate ReceiptObserved(view: Object) {
      view.Live? && !deleted && !view.terminating && view.uid == uid && view.receipt == Receipt()
    }

    /** The version the write was conditioned on has passed. */
    predicate Obsolete(view: Object) {
      retry && view.Live? && view.uid == uid && view.version != baseVersion
    }

    /** The informer's view decides the outcome of this write. */
    predicate Resolved(view: Object) {
      Departed(view) || ReceiptObserved(view) || Obsolete(view)
    }

    predicate Matches(other: Pending) {
      Receipt() == other.Receipt() && uid == other.uid
    }
  }

  /** Unaccounted writes by object key, and the UIDs taken over by this process with their parents. */
  datatype Ledger = Ledger(writes: map<nat, Pending>, initialized: map<nat, nat>) {

    /** Drops a resolved write, and records what its evidence says about takeover. */
    function Settle(key: nat, written: Pending, view: Object): Ledger
      requires written.Resolved(view)
    {
      if key !in writes || !writes[key].Matches(written) then
        this
      else
        Ledger(
          writes - {key},
          if written.ReceiptObserved(view) then initialized[view.uid := written.parent]
          else if written.Departed(view) then initialized - {written.uid}
          else initialized)
    }

    /** A replay was accepted, so there is nothing left to repeat. */
    function ReplayAccepted(key: nat, written: Pending): Ledger {
      if key in writes && writes[key].Receipt() == written.Receipt()
      then this.(writes := writes[key := writes[key].(retry := false)])
      else this
    }

    function Check(key: nat, written: Pending, view: Object, replay: Reply): Ledger {
      if written.Resolved(view) then Settle(key, written, view)
      else if written.retry && replay.Accepted? then ReplayAccepted(key, written)
      else this
    }

    /** Records a write before it is sent, then what its reply says. */
    function Record(key: nat, written: Pending, reply: Reply): Ledger {
      if reply.Refused() then this.(writes := writes - {key})
      else this.(writes := writes[key := written.(retry := reply.Unknown?)])
    }

    function Forget(parent: nat): Ledger {
      Ledger(
        map key | key in writes && writes[key].parent != parent :: writes[key],
        map uid | uid in initialized && initialized[uid] != parent :: initialized[uid])
    }

    /** The writes a slice is waiting for; no slice means every slice of the owner. */
    predicate InSlice(key: nat, owner: nat, slice: int) {
      key in writes && writes[key].owner == owner && (slice < 0 || writes[key].slice == slice)
    }

    ghost predicate SliceClear(owner: nat, slice: int) {
      forall key | key in writes :: !InSlice(key, owner, slice)
    }
  }

  /** Of a slice's writes at the start, `rest` is left to look at; the others are resolved and gone. */
  ghost predicate Pared(
    start: Ledger, writes: map<nat, Pending>, rest: set<nat>, owner: nat, slice: int, views: map<nat, Object>
  ) {
    && (forall key | key in writes :: key in start.writes && writes[key] == start.writes[key])
    && (forall key | key in rest :: key in writes && start.InSlice(key, owner, slice))
    && (forall key | key in writes && start.InSlice(key, owner, slice) :: key in rest)
    && (forall key | key in start.writes && key !in writes ::
          key in views && start.writes[key].Resolved(views[key]) && start.InSlice(key, owner, slice))
  }

  lemma ParedNext(
    start: Ledger, writes: map<nat, Pending>, rest: set<nat>, owner: nat, slice: int, views: map<nat, Object>, key: nat
  )
    requires Pared(start, writes, rest, owner, slice, views)
    requires key in rest && key in views && start.writes[key].Resolved(views[key])
    ensures Pared(start, writes - {key}, rest - {key}, owner, slice, views)
  {}

  /** The ledger as the controller keeps it, updated in place. */
  class PendingWrites {
    var writes: map<nat, Pending>
    var initialized: map<nat, nat>

    function Contents(): Ledger
      reads this
    {
      Ledger(writes, initialized)
    }

    constructor ()
      ensures Contents() == Ledger(map[], map[])
    {
      writes, initialized := map[], map[];
    }

    /**
     * Looks for evidence of one write in the informer's view; without any, an
     * ambiguous write is replayed unchanged.
     */
    method CheckWrite(key: nat, written: Pending, view: Object, replay: Reply) returns (outcome: Outcome)
      modifies this
      ensures Contents() == old(Contents()).Check(key, written, view, replay)
      ensures outcome == Done <==> written.Resolved(view)
      ensures outcome == Failed ==> written.retry && (replay.Rejected? || replay.Unknown?)
      ensures outcome == Done && key in writes ==>
              old(key in writes && !writes[key].Matches(written)) && writes == old(writes)
    {
      var seen := view.Gone? || view.uid != written.uid || view.terminating;
      var receiptObserved := view.Live? && !written.deleted && !view.terminating && view.uid == written.uid &&
                             view.receipt == written.Receipt();
      seen := seen || receiptObserved;
      var obsolete := written.retry && view.Live? && view.uid == written.uid && view.version != written.baseVersion;
      if seen || obsolete {
        if key in writes && writes[key].Matches(written) {
          writes := writes - {key};
          if receiptObserved {
            initialized := initialized[view.uid := written.parent];
          } else if seen {
            initialized := initialized - {written.uid};
          }
        }
        return Done;
      }
      if written.retry {
        if replay.Rejected? || replay.Unknown? {
          return Failed;
        }
        if replay.Accepted? && key in writes && writes[key].Receipt() == written.Receipt() {
          writes := writes[key := writes[key].(retry := false)];
        }
      }
      return Waiting;
    }

    /**
     * Sends a conditional mutation, once any earlier write to the same object
     * is accounted for. The write is recorded before it is sent.
     */
    method Mutate(
      key: nat, written: Pending, view: Object, replay: Reply, reply: Reply
    ) returns (sent: bool, outcome: Outcome)
      requires !written.retry
      modifies this
      ensures sent <==> old(key !in writes || writes[key].Resolved(view))
      ensures !sent ==> Contents() == old(Contents().Check(key, writes[key], view, replay)) && outcome != Done
      ensures sent ==>
                Contents() == old(if key in writes then Contents().Settle(key, writes[key], view) else Contents())
                                .Record(key, written, reply)
      ensures sent ==> (outcome == Done <==> reply.Accepted?)
    {
      if key in writes {
        outcome := CheckWrite(key, writes[key], view, replay);
        if outcome != Done {
          return false, outcome;
        }
      }
      writes := writes[key := written];
      if reply.Refused() {
        writes := writes - {key};
      } else if reply.Unknown? {
        writes := writes[key := written.(retry := true)];
      }
      return true, if reply.Accepted? then Done else Failed;
    }

    /**
     * Accounts for all writes of a slice before any of its objects changes:
     * success means none of them is left, and nothing else was touched.
     */
    method Observed(
      owner: nat, slice: int, views: map<nat, Object>, replays: map<nat, Reply>
    ) returns (outcome: Outcome)
      requires forall key | key in writes :: key in views && key in replays
      modifies this
      ensures outcome == Done ==> Contents().SliceClear(owner, slice)
      ensures outcome == Done ==> forall key | old(key in writes) && key !in writes ::
              old(writes[key].Resolved(views[key]))
      ensures forall key | key in writes ::
                old(key in writes) &&
                  (writes[key] == old(writes[key]) || writes[key] == old(writes[key]).(retry := false))
      ensures forall key | old(key in writes) && !old(Contents().InSlice(key, owner, slice)) ::
              key in writes && writes[key] == old(writes[key])
    {
      ghost var start := Contents();
      var rest := set key | key in writes && writes[key].owner == owner && (slice < 0 || writes[key].slice == slice);
      while rest != {}
        invariant Pared(start, writes, rest, owner, slice, views)
        decreases |rest|
      {
        var key :| key in rest;
        ghost var before := writes;
        outcome := CheckWrite(key, writes[key], views[key], replays[key]);
        if outcome != Done {
          assert writes == before || writes == before[key := before[key].(retry := false)];
          return;
        }
        assert writes == before - {key};
        ParedNext(start, before, rest, owner, slice, views, key);
        rest := rest - {key};
      }
      outcome := Done;
    }

    /**
     * Takes over a slice after a restart: every listed object not yet taken
     * over is rewritten, so that requests left by an earlier process are
     * outdated. Success means that nothing was left to rewrite or observe.
     */
    method PrepareSlice(
      owner: nat, slice: nat, listed: seq<(nat, Object)>, receipts: seq<Pending>, replies: seq<Reply>,
      views: map<nat, Object>, replays: map<nat, Reply>
    ) returns (outcome: Outcome)
      requires |listed| == |receipts| == |replies| && forall k | 0 <= k < |receipts| :: !receipts[k].retry
      requires forall k | 0 <= k < |listed| :: listed[k].0 in views && listed[k].0 in replays
      requires forall key | key in writes :: key in views && key in replays
      modifies this
      ensures outcome == Done ==> Contents().SliceClear(owner, slice)
      ensures outcome == Done ==> forall k | 0 <= k < |listed| ::
                listed[k].1.Live? && !listed[k].1.terminating ==> listed[k].1.uid in initialized
    {
      outcome := Observed(owner, slice, views, replays);
      if outcome != Done {
        return;
      }
      var wrote := false;
      for k := 0 to |listed|
        invariant !wrote ==> Contents().SliceClear(owner, slice)
        invariant !wrote ==> forall j | 0 <= j < k ::
                    listed[j].1.Live? && !listed[j].1.terminating ==> listed[j].1.uid in initialized
      {
        var (key, state) := listed[k];
        if state.Gone? || state.uid in initialized || state.terminating {
          continue;
        }
        var sent, result := Mutate(key, receipts[k], views[key], replays[key], replies[k]);
        if result != Done {
          return result;
        }
        wrote := true;
      }
      outcome := if wrote then Waiting else Done;
    }

    /** A parent that is gone can authorize nothing; its entries are released. */
    method Forget(parent: nat)
      modifies this
      ensures Contents() == old(Contents()).Forget(parent)
    {
      writes := map key | key in writes && writes[key].parent != parent :: writes[key];
      initialized := map uid | uid in initialized && initialized[uid] != parent :: initialized[uid];
    }
  }
}
