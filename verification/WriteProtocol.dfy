/**
 * The write ledger against an adversarial API: every interleaving of sends,
 * late deliveries, lost replies, replays, writes by others, informer lag and
 * controller restarts.
 */
module WriteProtocol {
  import opened WriteLedger

  /** A conditional mutation, and the state of the object it is conditioned on. */
  datatype Request = Request(key: nat, at: nat, uid: nat, base: nat, deletes: bool, owner: nat, slice: nat, epoch: nat)

  /**
   * `objects` keeps each object's whole history, the last state being current;
   * `seen` is how far the informer has got. A request's id is its index in
   * `requests`; `flight` holds the ids of copies not yet processed. `epoch`
   * counts controller processes, and `epochClock` is the version clock when
   * the present one started. `dropped` are the ids released because their
   * parent is gone.
   */
  datatype Cluster = Cluster(
    objects: seq<seq<Object>>, seen: seq<nat>, clock: nat, nextUid: nat,
    requests: seq<Request>, flight: multiset<nat>, epoch: nat, epochClock: nat, ledger: Ledger, dropped: set<nat>)
  {
    ghost predicate Sized() {
      && |seen| == |objects|
      && forall key | 0 <= key < |objects| :: seen[key] < |objects[key]|
    }

    function Current(key: nat): Object
      requires key < |objects| && |objects[key]| > 0
    {
      objects[key][|objects[key]| - 1]
    }

    /** What the informer shows. */
    function View(key: nat): Object
      requires key < |objects| && key < |seen| && seen[key] < |objects[key]|
    {
      objects[key][seen[key]]
    }

    /** The server would apply the request now. */
    predicate Applies(id: nat)
      requires id < |requests| && requests[id].key < |objects| && |objects[requests[id].key]| > 0
    {
      var request, now := requests[id], Current(requests[id].key);
      now.Live? && now.uid == request.uid && now.version == request.base
    }

    /** State `index` of `key` was written by request `id`. */
    ghost predicate WrittenAt(id: nat, key: nat, index: nat) {
      key < |objects| && index < |objects[key]| && objects[key][index].Live? && objects[key][index].writer == Issued(id)
    }

    /** The request has taken effect: it produced the state right after the one it was conditioned on. */
    ghost predicate Committed(id: nat)
      requires id < |requests|
    {
      WrittenAt(id, requests[id].key, requests[id].at + 1)
    }

    ghost predicate Tracks(id: nat, key: nat) {
      key in ledger.writes && ledger.writes[key].id == id
    }

    function Append(key: nat, state: Object): Cluster
      requires key < |objects|
    {
      this.(objects := objects[key := objects[key] + [state]], clock := clock + 1)
    }

    /** The server applies a request that applies: a new version with its receipt, or a deletion mark. */
    function Commit(id: nat): Cluster
      requires id < |requests| && requests[id].key < |objects| && |objects[requests[id].key]| > 0 && Applies(id)
    {
      var request, now := requests[id], Current(requests[id].key);
      Append(request.key, now.(
        version := clock + 1,
        receipt := if request.deletes then now.receipt else Issued(id),
        terminating := now.terminating || request.deletes,
        writer := Issued(id)))
    }
  }

  datatype Step =
    | External(key: nat, state: Object)
    | Deliver(id: nat)
    | Watch(key: nat, index: nat)
    | Create(key: nat, state: Object, parent: nat)
    | Mutate(key: nat, at: nat, deletes: bool, parent: nat, reply: Reply)
    | Check(key: nat, replay: Reply)
    | Forget(parent: nat)
    | Restart(seen: seq<nat>)

  // --- The steps ---

  /** Others never invent one of our receipts; they may repeat one that has taken effect. */
  ghost predicate HonestReceipt(c: Cluster, receipt: Receipt) {
    receipt.Issued? ==> receipt.id < |c.requests| && c.Committed(receipt.id)
  }

  /** A write by anyone else: an update, a deletion mark, a removal, or a creation under a new UID. */
  ghost predicate ExternalPossible(c: Cluster, key: nat, state: Object) {
    && key < |c.objects| && |c.objects[key]| > 0
    && var now := c.Current(key);
    && (state.Gone? ==> now.Live?)
    && (state.Live? ==>
          && state.version == c.clock + 1 && state.writer.NoReceipt? && HonestReceipt(c, state.receipt)
          && (if now.Live? then state.uid == now.uid && (now.terminating ==> state.terminating)
              else state.uid == c.nextUid && !state.terminating))
  }

  function Register(c: Cluster, state: Object): Cluster {
    if state.Live? && state.uid == c.nextUid then c.(nextUid := c.nextUid + 1) else c
  }

  ghost predicate MutatePossible(c: Cluster, key: nat, at: nat, reply: Reply) {
    && c.Sized() && key < |c.objects| && at <= c.seen[key] && c.objects[key][at].Live?
    && key !in c.ledger.writes
    && (reply.Accepted? ==> c.Current(key).Live? && c.Current(key).uid == c.objects[key][at].uid
                            && c.Current(key).version == c.objects[key][at].version)
  }

  /** The next request, against a state this informer has shown. */
  function NewRequest(c: Cluster, key: nat, at: nat, deletes: bool): Request
    requires key < |c.objects| && at < |c.objects[key]| && c.objects[key][at].Live?
  {
    var base := c.objects[key][at];
    Request(key, at, base.uid, base.version, deletes, base.owner, base.slice, c.epoch)
  }

  function PendingFor(id: nat, request: Request, parent: nat): Pending {
    Pending(id, request.owner, parent, request.slice, request.uid, request.deletes, request.base, false)
  }

  ghost predicate CheckPossible(c: Cluster, key: nat, replay: Reply) {
    && c.Sized() && key < |c.objects| && key in c.ledger.writes
    && var written := c.ledger.writes[key];
    && written.id < |c.requests| && c.requests[written.id].key == key
    && (!written.Resolved(c.View(key)) && written.retry && replay.Accepted? ==> c.Applies(written.id))
  }

  ghost predicate Next(c: Cluster, step: Step, d: Cluster) {
    match step
    case External(key, state) =>
      ExternalPossible(c, key, state) && d == Register(c, state).Append(key, state)
    case Deliver(id) =>
      && id in c.flight && id < |c.requests| && c.requests[id].key < |c.objects| && |c.objects[c.requests[id].key]| > 0
      && var arrived := c.(flight := c.flight - multiset{id});
      d == if arrived.Applies(id) then arrived.Commit(id) else arrived
    case Watch(key, index) =>
      && c.Sized() && key < |c.objects| && c.seen[key] < index < |c.objects[key]|
      && d == c.(seen := c.seen[key := index])
    case Create(key, state, parent) =>
      && ExternalPossible(c, key, state) && state.Live? && c.Current(key).Gone?
      && d == Register(c, state).Append(key, state).(
                ledger := c.ledger.(initialized := c.ledger.initialized[state.uid := parent]))
    case Mutate(key, at, deletes, parent, reply) =>
      && MutatePossible(c, key, at, reply)
      && var id, request := |c.requests|, NewRequest(c, key, at, deletes);
      var sent := c.(
        requests := c.requests + [request],
        flight := if reply.Unknown? then c.flight + multiset{id} else c.flight,
        ledger := c.ledger.Record(key, PendingFor(id, request, parent), reply));
      d == if reply.Accepted? then sent.Commit(id) else sent
    case Check(key, replay) =>
      && CheckPossible(c, key, replay)
      && var written := c.ledger.writes[key];
      var checked := c.(ledger := c.ledger.Check(key, written, c.View(key), replay));
      d == if written.Resolved(c.View(key)) || !written.retry then checked
           else if replay.Accepted? then checked.Commit(written.id)
           else if replay.Unknown? then checked.(flight := c.flight + multiset{written.id})
           else checked
    case Forget(parent) =>
      && d == c.(
                ledger := c.ledger.Forget(parent),
                dropped := c.dropped + set key | key in c.ledger.writes && c.ledger.writes[key].parent == parent ::
                  c.ledger.writes[key].id)
    case Restart(seen) =>
      && |seen| == |c.objects| && (forall key | 0 <= key < |seen| :: seen[key] < |c.objects[key]|)
      && d == c.(seen := seen, epoch := c.epoch + 1, epochClock := c.clock, ledger := Ledger(map[], map[]))
  }

  ghost predicate Init(c: Cluster) {
    && c.Sized()
    && (forall key | 0 <= key < |c.objects| :: c.objects[key] == [Gone])
    && c.requests == [] && c.flight == multiset{} && c.ledger == Ledger(map[], map[]) && c.dropped == {}
    && c.epochClock <= c.clock
  }

  // --- What every step keeps ---

  /** Every version and UID has been handed out. */
  ghost predicate Stamped(c: Cluster) {
    forall key, i | 0 <= key < |c.objects| && 0 <= i < |c.objects[key]| && c.objects[key][i].Live? ::
      c.objects[key][i].version <= c.clock && c.objects[key][i].uid < c.nextUid
  }

  ghost predicate Ascending(c: Cluster) {
    forall key, i, j | 0 <= key < |c.objects| && 0 <= i < j < |c.objects[key]| && c.objects[key][i].Live? &&
      c.objects[key][j].Live? ::
      c.objects[key][i].version < c.objects[key][j].version
  }

  ghost predicate Uninterrupted(c: Cluster) {
    forall key, i, j, k | 0 <= key < |c.objects| && 0 <= i < j < k < |c.objects[key]| &&
      SameObject(c.objects[key][i], c.objects[key][k]) ::
      SameObject(c.objects[key][i], c.objects[key][j])
  }

  ghost predicate Apart(c: Cluster) {
    forall key, other, i, j | 0 <= key < |c.objects| && 0 <= other < |c.objects| && 0 <= i < |c.objects[key]| &&
      0 <= j < |c.objects[other]|
      && SameObject(c.objects[key][i], c.objects[other][j]) :: key == other
  }

  /** Versions only grow, and a UID is used once, without interruption, by one object. */
  ghost predicate Histories(c: Cluster) {
    && c.Sized() && c.epochClock <= c.clock
    && Stamped(c) && Ascending(c) && Uninterrupted(c) && Apart(c)
  }

  predicate SameObject(a: Object, b: Object) {
    a.Live? && b.Live? && a.uid == b.uid
  }

  /** A request is conditioned on a real state, which its own process had seen. */
  ghost predicate SoundRequest(c: Cluster, id: nat)
    requires id < |c.requests|
  {
    var request := c.requests[id];
    && request.key < |c.objects| && request.key < |c.seen| && request.at < |c.objects[request.key]|
    && var base := c.objects[request.key][request.at];
    && base.Live? && base.uid == request.uid && base.version == request.base
    && request.epoch <= c.epoch
    && (request.epoch == c.epoch ==> request.at <= c.seen[request.key])
    && (request.epoch < c.epoch ==> request.base <= c.epochClock)
  }

  ghost predicate Requests(c: Cluster) {
    && (forall id | 0 <= id < |c.requests| :: SoundRequest(c, id))
    && (forall id | id in c.flight :: id < |c.requests|)
  }

  /** A request only ever takes effect right after the state it was conditioned on. */
  ghost predicate Writers(c: Cluster) {
    forall key: nat, index: nat, id: nat | c.WrittenAt(id, key, index) ::
      && id < |c.requests| && c.requests[id].key == key && index == c.requests[id].at + 1
      && (c.requests[id].epoch == c.epoch ==> c.objects[key][index].version > c.epochClock)
  }

  /** A receipt is proof that its request took effect, no later than where it shows. */
  ghost predicate Receipts(c: Cluster) {
    forall key, index | 0 <= key < |c.objects| && 0 <= index < |c.objects[key]| :: SoundReceipt(c, key, index)
  }

  ghost predicate SoundReceipt(c: Cluster, key: nat, index: nat)
    requires key < |c.objects| && index < |c.objects[key]|
  {
    var state := c.objects[key][index];
    state.Live? && state.receipt.Issued? ==>
      && state.receipt.id < |c.requests| && c.Committed(state.receipt.id)
      && (c.requests[state.receipt.id].key == key ==> c.requests[state.receipt.id].at + 1 <= index)
  }

  ghost predicate ApiSound(c: Cluster) {
    Histories(c) && Requests(c) && Writers(c) && Receipts(c)
  }

  lemma InitSound(c: Cluster)
    requires Init(c)
    ensures ApiSound(c)
  {}

  /** A request that applies is conditioned on the very last state. */
  lemma AppliesToLast(c: Cluster, id: nat)
    requires ApiSound(c) && id < |c.requests| && c.requests[id].key < |c.objects| && c.Applies(id)
    ensures c.requests[id].at == |c.objects[c.requests[id].key]| - 1
  {
    assert SoundRequest(c, id);
  }

  /** What may be appended to an object: the next version of it, or a new object, honestly marked. */
  ghost predicate Appendable(c: Cluster, key: nat, state: Object)
    requires ApiSound(c)
  {
    && key < |c.objects|
    && var now := c.Current(key);
    && (state.Live? ==>
          && state.version == c.clock + 1 && state.uid < c.nextUid
          && (now.Live? ==> state.uid == now.uid)
          && (now.Gone? ==> forall other, i | 0 <= other < |c.objects| && 0 <= i < |c.objects[other]| ::
              !SameObject(c.objects[other][i], state))
          && (state.writer.Issued? ==>
                state.writer.id < |c.requests| && c.requests[state.writer.id].key == key
                && c.requests[state.writer.id].at + 1 == |c.objects[key]|)
          && (state.receipt.Issued? ==>
                || state.receipt == state.writer
                || (state.receipt.id < |c.requests| && c.Committed(state.receipt.id))))
  }

  lemma AppendKeepsApart(c: Cluster, key: nat, state: Object)
    requires ApiSound(c) && Appendable(c, key, state)
    ensures Apart(c.Append(key, state))
  {
    var d := c.Append(key, state);
    var last := |c.objects[key]|;
    hide Stamped, Ascending, Uninterrupted, Writers, Receipts, Requests;
    forall other, j | 0 <= other < |c.objects| && 0 <= j < |c.objects[other]| && SameObject(state, c.objects[other][j])
      ensures key == other
    {
      if c.Current(key).Live? {
        assert SameObject(c.objects[key][last - 1], c.objects[other][j]);
      }
    }
  }

  lemma AppendKeepsUninterrupted(c: Cluster, key: nat, state: Object)
    requires ApiSound(c) && Appendable(c, key, state)
    ensures Uninterrupted(c.Append(key, state))
  {
    var d := c.Append(key, state);
    var last := |c.objects[key]|;
    hide Stamped, Ascending, Apart, Writers, Receipts, Requests;
    forall i, j | 0 <= i < j < last && SameObject(d.objects[key][i], d.objects[key][last])
      ensures SameObject(d.objects[key][i], d.objects[key][j])
    {
      assert SameObject(c.objects[key][i], c.objects[key][last - 1]);
    }
  }

  lemma AppendKeepsHistories(c: Cluster, key: nat, state: Object)
    requires ApiSound(c) && Appendable(c, key, state)
    ensures Histories(c.Append(key, state))
  {
    AppendKeepsApart(c, key, state);
    AppendKeepsUninterrupted(c, key, state);
    hide Uninterrupted, Apart, Writers, Receipts, Requests;
  }

  lemma AppendKeepsRecords(c: Cluster, key: nat, state: Object)
    requires ApiSound(c) && Appendable(c, key, state)
    ensures Requests(c.Append(key, state)) && Writers(c.Append(key, state)) && Receipts(c.Append(key, state))
    ensures forall id | 0 <= id < |c.requests| ::
              c.Append(key, state).Committed(id) <==> c.Committed(id) || (state.Live? && state.writer == Issued(id))
  {
    var d := c.Append(key, state);
    forall id | 0 <= id < |c.requests|
      ensures SoundRequest(d, id)
      ensures d.Committed(id) <==> c.Committed(id) || (state.Live? && state.writer == Issued(id))
    {
      assert SoundRequest(c, id);
    }
    forall other: nat, index: nat, id: nat | d.WrittenAt(id, other, index)
      ensures id < |d.requests| && d.requests[id].key == other && index == d.requests[id].at + 1
      ensures d.requests[id].epoch == d.epoch ==> d.objects[other][index].version > d.epochClock
    {
      if other != key || index < |c.objects[key]| {
        assert c.WrittenAt(id, other, index);
      }
    }
    forall other, index | 0 <= other < |d.objects| && 0 <= index < |d.objects[other]|
      ensures SoundReceipt(d, other, index)
    {
      if other != key || index < |c.objects[key]| {
        assert SoundReceipt(c, other, index);
      } else if state.Live? && state.receipt.Issued? && state.receipt != state.writer {
        assert SoundRequest(c, state.receipt.id);
      }
    }
  }

  /** The request that takes effect is the only one whose status changes. */
  lemma CommitSound(c: Cluster, id: nat)
    requires ApiSound(c) && id < |c.requests| && c.requests[id].key < |c.objects| && c.Applies(id)
    ensures ApiSound(c.Commit(id))
    ensures forall other | 0 <= other < |c.requests| :: c.Commit(id).Committed(other) <==>
            c.Committed(other) || other == id
  {
    var key, now := c.requests[id].key, c.Current(c.requests[id].key);
    AppliesToLast(c, id);
    assert SoundReceipt(c, key, |c.objects[key]| - 1);
    var state := now.(
      version := c.clock + 1, receipt := if c.requests[id].deletes then now.receipt else Issued(id),
      terminating := now.terminating || c.requests[id].deletes, writer := Issued(id));
    AppendKeepsHistories(c, key, state);
    AppendKeepsRecords(c, key, state);
    assert c.Commit(id) == c.Append(key, state);
  }

  /** Handing out a UID changes nothing that is recorded. */
  lemma RegisterSound(c: Cluster, key: nat, state: Object)
    requires ApiSound(c) && ExternalPossible(c, key, state)
    ensures var registered := Register(c, state);
            && ApiSound(registered) && Appendable(registered, key, state)
            && forall id | 0 <= id < |c.requests| :: registered.Committed(id) <==> c.Committed(id)
  {
    var registered := Register(c, state);
    hide Uninterrupted, Ascending, Apart;
    forall id | 0 <= id < |c.requests|
      ensures SoundRequest(registered, id)
    {
      assert SoundRequest(c, id);
    }
    forall other, index | 0 <= other < |c.objects| && 0 <= index < |c.objects[other]|
      ensures SoundReceipt(registered, other, index)
    {
      assert SoundReceipt(c, other, index);
    }
    forall other: nat, index: nat, id: nat | registered.WrittenAt(id, other, index)
      ensures c.WrittenAt(id, other, index)
    {}
    SameHistories(c, registered);
  }

  lemma SameHistories(c: Cluster, d: Cluster)
    requires Histories(c) && d.objects == c.objects && d.seen == c.seen && d.nextUid >= c.nextUid
    requires d.clock >= c.clock && d.epochClock == c.epochClock
    ensures Histories(d)
  {}

  lemma ExternalSound(c: Cluster, key: nat, state: Object)
    requires ApiSound(c) && ExternalPossible(c, key, state)
    ensures ApiSound(Register(c, state).Append(key, state))
    ensures forall id | 0 <= id < |c.requests| :: Register(c, state).Append(key, state).Committed(id) <==>
            c.Committed(id)
  {
    RegisterSound(c, key, state);
    hide Histories, Writers, Receipts, Requests, Appendable;
    AppendKeepsHistories(Register(c, state), key, state);
    AppendKeepsRecords(Register(c, state), key, state);
  }

  /** Sending adds a request that has not taken effect, and changes nothing else. */
  lemma SendSound(c: Cluster, request: Request, flight: multiset<nat>, ledger: Ledger)
    requires ApiSound(c) && request.key < |c.objects| && request.at <= c.seen[request.key] && request.epoch == c.epoch
    requires var base := c.objects[request.key][request.at];
             base.Live? && base.uid == request.uid && base.version == request.base
    requires forall id | id in flight :: id <= |c.requests|
    ensures var d := c.(requests := c.requests + [request], flight := flight, ledger := ledger);
            && ApiSound(d)
            && !d.Committed(|c.requests|)
            && forall id | 0 <= id < |c.requests| :: d.Committed(id) <==> c.Committed(id)
  {
    var d := c.(requests := c.requests + [request], flight := flight, ledger := ledger);
    forall id | 0 <= id < |d.requests|
      ensures SoundRequest(d, id)
    {
      assert id < |c.requests| ==> SoundRequest(c, id);
    }
    forall key: nat, index: nat, id: nat | d.WrittenAt(id, key, index)
      ensures c.WrittenAt(id, key, index)
    {}
    forall key, index | 0 <= key < |c.objects| && 0 <= index < |c.objects[key]|
      ensures SoundReceipt(d, key, index)
    {
      assert SoundReceipt(c, key, index);
    }
  }

  /** Changes that leave objects and requests alone keep the API sound. */
  lemma ControllerSound(c: Cluster, d: Cluster)
    requires ApiSound(c)
    requires d == c.(flight := d.flight, ledger := d.ledger, dropped := d.dropped, seen := d.seen)
    requires d.Sized() && (forall id | id in d.flight :: id < |c.requests|)
    requires forall key | 0 <= key < |c.seen| :: c.seen[key] <= d.seen[key]
    ensures ApiSound(d)
    ensures forall id | 0 <= id < |c.requests| :: d.Committed(id) <==> c.Committed(id)
  {
    forall id | 0 <= id < |c.requests|
      ensures SoundRequest(d, id)
    {
      assert SoundRequest(c, id);
    }
    forall key: nat, index: nat, id: nat | d.WrittenAt(id, key, index)
      ensures c.WrittenAt(id, key, index)
    {}
    forall key, index | 0 <= key < |c.objects| && 0 <= index < |c.objects[key]|
      ensures SoundReceipt(d, key, index)
    {
      assert SoundReceipt(c, key, index);
    }
  }

  lemma RestartSound(c: Cluster, seen: seq<nat>, d: Cluster)
    requires ApiSound(c) && Next(c, Restart(seen), d)
    ensures ApiSound(d)
    ensures forall id | 0 <= id < |c.requests| :: d.Committed(id) <==> c.Committed(id)
  {
    forall id | 0 <= id < |c.requests|
      ensures SoundRequest(d, id)
    {
      assert SoundRequest(c, id);
    }
    forall key: nat, index: nat, id: nat | d.WrittenAt(id, key, index)
      ensures c.WrittenAt(id, key, index) && c.requests[id].epoch < d.epoch
    {
      assert c.WrittenAt(id, key, index);
      assert SoundRequest(c, id);
    }
    forall key, index | 0 <= key < |c.objects| && 0 <= index < |c.objects[key]|
      ensures SoundReceipt(d, key, index)
    {
      assert SoundReceipt(c, key, index);
    }
  }

  // --- The ledger against the API ---

  /** A ledger entry describes a request of this process against its own object. */
  ghost predicate SoundEntry(c: Cluster, key: nat)
    requires key in c.ledger.writes
  {
    var written := c.ledger.writes[key];
    && key < |c.objects| && written.id < |c.requests|
    && var request := c.requests[written.id];
    && request.key == key && request.epoch == c.epoch
    && written.uid == request.uid && written.baseVersion == request.base && written.deleted == request.deletes
    && written.owner == request.owner && written.slice == request.slice
  }

  ghost predicate Tracked(c: Cluster, id: nat)
    requires id < |c.requests|
  {
    c.Tracks(id, c.requests[id].key)
  }

  /** The informer is past the state the request was conditioned on. */
  ghost predicate Passed(c: Cluster, id: nat)
    requires id < |c.requests|
  {
    c.requests[id].key < |c.seen| && c.seen[c.requests[id].key] > c.requests[id].at
  }

  /** The request has not taken effect and no copy of it is under way. */
  ghost predicate Inert(c: Cluster, id: nat)
    requires id < |c.requests|
  {
    id !in c.flight && !c.Committed(id)
  }

  /** The object was already being deleted when the request was made. */
  ghost predicate OnTerminating(c: Cluster, id: nat)
    requires id < |c.requests|
  {
    var request := c.requests[id];
    request.key < |c.objects| && request.at < |c.objects[request.key]| && c.objects[request.key][request.at].Live?
    && c.objects[request.key][request.at].terminating
  }

  /** The ledger's duty to a request of this process. */
  ghost predicate Accounted(c: Cluster, id: nat)
    requires id < |c.requests|
  {
    c.requests[id].epoch == c.epoch && id !in c.dropped && !OnTerminating(c, id) ==>
      Passed(c, id) || Inert(c, id) || Tracked(c, id)
  }

  /** The base of the request is no longer current, so it can never apply again. */
  ghost predicate Superseded(c: Cluster, id: nat)
    requires id < |c.requests|
  {
    c.requests[id].key < |c.objects| && |c.objects[c.requests[id].key]| > c.requests[id].at + 1
  }

  /** No request of an earlier process against a taken-over UID can still apply. */
  ghost predicate Fenced(c: Cluster) {
    forall uid, id | uid in c.ledger.initialized && 0 <= id < |c.requests| && c.requests[id].epoch < c.epoch &&
      c.requests[id].uid == uid ::
      Superseded(c, id)
  }

  ghost predicate Inv(c: Cluster) {
    && ApiSound(c)
    && (forall key | key in c.ledger.writes :: SoundEntry(c, key))
    && (forall id | 0 <= id < |c.requests| :: Accounted(c, id))
    && (forall id | id in c.dropped :: id < |c.requests|)
    && Fenced(c)
  }

  /** Evidence in the informer's view means the informer is past the base. */
  lemma ResolvedPassed(c: Cluster, key: nat)
    requires Inv(c) && key in c.ledger.writes && key < |c.objects| && c.ledger.writes[key].Resolved(c.View(key))
    requires !OnTerminating(c, c.ledger.writes[key].id)
    ensures Passed(c, c.ledger.writes[key].id)
  {
    assert SoundEntry(c, key);
    assert SoundRequest(c, c.ledger.writes[key].id);
    assert SoundReceipt(c, key, c.seen[key]);
  }

  /** An observed receipt proves a write of this process, which outdates every earlier process. */
  lemma ReceiptFences(c: Cluster, key: nat, id: nat)
    requires Inv(c) && key in c.ledger.writes && key < |c.objects| && c.ledger.writes[key].ReceiptObserved(c.View(key))
    requires id < |c.requests| && c.requests[id].epoch < c.epoch && c.requests[id].uid == c.View(key).uid
    ensures Superseded(c, id)
  {
    var own := c.ledger.writes[key].id;
    assert SoundEntry(c, key);
    assert SoundRequest(c, own);
    assert SoundRequest(c, id);
    assert SoundReceipt(c, key, c.seen[key]);
    assert SameObject(c.objects[key][c.seen[key]], c.objects[c.requests[id].key][c.requests[id].at]);
    assert c.WrittenAt(own, key, c.requests[own].at + 1);
  }

  // --- Preservation ---

  /** Histories only grow, and each request is where it was. */
  ghost predicate Extends(c: Cluster, d: Cluster) {
    && |d.objects| == |c.objects| && d.seen == c.seen && d.epoch == c.epoch && c.requests <= d.requests
    && forall key | 0 <= key < |c.objects| :: c.objects[key] <= d.objects[key]
  }

  /** What appending one state leaves alone: every entry, base and superseded request. */
  lemma ExtendsKeeps(c: Cluster, d: Cluster, id: nat)
    requires Requests(c) && Extends(c, d) && id < |c.requests|
    ensures OnTerminating(d, id) == OnTerminating(c, id)
    ensures Passed(d, id) == Passed(c, id)
    ensures Superseded(c, id) ==> Superseded(d, id)
  {
    assert SoundRequest(c, id);
  }

  lemma EntriesKept(c: Cluster, d: Cluster)
    requires Extends(c, d) && forall key | key in c.ledger.writes :: SoundEntry(c, key)
    requires forall key | key in d.ledger.writes ::
               key in c.ledger.writes && d.ledger.writes[key].(retry := false) == c.ledger.writes[key].(retry := false)
    ensures forall key | key in d.ledger.writes :: SoundEntry(d, key)
  {
    forall key | key in d.ledger.writes
      ensures SoundEntry(d, key)
    {
      assert SoundEntry(c, key);
    }
  }

  lemma UidKnown(c: Cluster, id: nat)
    requires ApiSound(c) && id < |c.requests|
    ensures c.requests[id].uid < c.nextUid
  {
    assert SoundRequest(c, id);
  }

  /** Appending a state by someone else, or creating an object, keeps every duty. */
  lemma ExternalKeeps(c: Cluster, step: Step, d: Cluster)
    requires Inv(c) && Next(c, step, d) && (step.External? || step.Create?)
    ensures Inv(d)
  {
    ExternalSound(c, step.key, step.state);
    hide Histories, Writers, Receipts;
    var e := Register(c, step.state).Append(step.key, step.state);
    if step.Create? {
      ControllerSound(e, d);
    }
    assert Extends(c, d);
    EntriesKept(c, d);
    forall id | 0 <= id < |c.requests|
      ensures Accounted(d, id)
      ensures c.requests[id].uid < c.nextUid && (Superseded(c, id) ==> Superseded(d, id))
    {
      assert Accounted(c, id);
      UidKnown(c, id);
      ExtendsKeeps(c, d, id);
    }
  }

  lemma DeliverKeeps(c: Cluster, id: nat, d: Cluster)
    requires Inv(c) && Next(c, Deliver(id), d)
    ensures Inv(d)
  {
    assert c.Sized();
    hide Histories, Writers, Receipts;
    var arrived := c.(flight := c.flight - multiset{id});
    ControllerSound(c, arrived);
    if arrived.Applies(id) {
      CommitSound(arrived, id);
    }
    assert Extends(c, d);
    EntriesKept(c, d);
    forall other | 0 <= other < |c.requests|
      ensures Accounted(d, other) && (Superseded(c, other) ==> Superseded(d, other))
    {
      assert Accounted(c, other);
      ExtendsKeeps(c, d, other);
    }
  }

  lemma WatchKeeps(c: Cluster, key: nat, index: nat, d: Cluster)
    requires Inv(c) && Next(c, Watch(key, index), d)
    ensures Inv(d)
  {
    ControllerSound(c, d);
    forall other | other in d.ledger.writes
      ensures SoundEntry(d, other)
    {
      assert SoundEntry(c, other);
    }
    forall id | 0 <= id < |c.requests|
      ensures Accounted(d, id) && (Superseded(c, id) ==> Superseded(d, id))
    {
      assert SoundRequest(c, id) && Accounted(c, id);
    }
  }

  lemma MutateSound(c: Cluster, step: Step, d: Cluster)
    requires Inv(c) && Next(c, step, d) && step.Mutate?
    ensures ApiSound(d) && Extends(c, d) && d.requests == c.requests + [NewRequest(c, step.key, step.at, step.deletes)]
    ensures forall id | 0 <= id < |c.requests| :: d.Committed(id) <==> c.Committed(id)
    ensures d.Committed(|c.requests|) <==> step.reply.Accepted?
  {
    hide Histories, Writers, Receipts;
    var id, request := |c.requests|, NewRequest(c, step.key, step.at, step.deletes);
    var sent := c.(
      requests := c.requests + [request],
      flight := if step.reply.Unknown? then c.flight + multiset{id} else c.flight,
      ledger := c.ledger.Record(step.key, PendingFor(id, request, step.parent), step.reply));
    SendSound(c, request, sent.flight, sent.ledger);
    if step.reply.Accepted? {
      CommitSound(sent, id);
    }
  }

  lemma MutateKeepsEntries(c: Cluster, step: Step, d: Cluster)
    requires Inv(c) && Next(c, step, d) && step.Mutate?
    ensures forall key | key in d.ledger.writes :: SoundEntry(d, key)
  {
    hide Histories, Writers, Receipts, Requests, Accounted, Fenced;
    MutateSound(c, step, d);
    EntriesKept(c, d.(ledger := c.ledger));
    forall key | key in d.ledger.writes
      ensures SoundEntry(d, key)
    {
      assert key != step.key ==> SoundEntry(d.(ledger := c.ledger), key);
    }
  }

  lemma MutateKeepsAccounts(c: Cluster, step: Step, d: Cluster)
    requires Inv(c) && Next(c, step, d) && step.Mutate?
    ensures forall id | 0 <= id < |d.requests| :: Accounted(d, id)
    ensures Fenced(d)
  {
    hide Histories, Writers, Receipts;
    var id := |c.requests|;
    MutateSound(c, step, d);
    forall other | 0 <= other < |d.requests|
      ensures Accounted(d, other)
      ensures other < id && Superseded(c, other) ==> Superseded(d, other)
    {
      if other < id {
        assert Accounted(c, other);
        ExtendsKeeps(c, d, other);
      }
    }
  }

  lemma MutateKeeps(c: Cluster, step: Step, d: Cluster)
    requires Inv(c) && Next(c, step, d) && step.Mutate?
    ensures Inv(d)
  {
    MutateSound(c, step, d);
    MutateKeepsEntries(c, step, d);
    MutateKeepsAccounts(c, step, d);
    hide ApiSound, SoundEntry, Accounted, Fenced;
  }

  lemma CheckSound(c: Cluster, key: nat, replay: Reply, d: Cluster)
    requires Inv(c) && Next(c, Check(key, replay), d)
    ensures ApiSound(d) && Extends(c, d)
    ensures forall id | 0 <= id < |c.requests| && id != c.ledger.writes[key].id :: d.Committed(id) <==> c.Committed(id)
  {
    hide Histories, Writers, Receipts;
    var written := c.ledger.writes[key];
    assert SoundEntry(c, key);
    var checked := c.(ledger := d.ledger, flight := d.flight);
    ControllerSound(c, checked);
    if !written.Resolved(c.View(key)) && written.retry && replay.Accepted? {
      CommitSound(checked, written.id);
    }
  }

  lemma CheckKeeps(c: Cluster, key: nat, replay: Reply, d: Cluster)
    requires Inv(c) && Next(c, Check(key, replay), d)
    ensures Inv(d)
  {
    CheckSound(c, key, replay, d);
    hide Histories, Writers, Receipts;
    assert SoundEntry(c, key);
    EntriesKept(c, d);
    forall id | 0 <= id < |c.requests|
      ensures Accounted(d, id)
    {
      CheckAccounts(c, key, replay, d, id);
    }
    CheckFences(c, key, replay, d);
  }

  lemma CheckAccounts(c: Cluster, key: nat, replay: Reply, d: Cluster, id: nat)
    requires Inv(c) && Next(c, Check(key, replay), d) && Extends(c, d) && id < |c.requests|
    requires id != c.ledger.writes[key].id ==> (d.Committed(id) <==> c.Committed(id))
    ensures Accounted(d, id)
  {
    hide Histories, Writers, Receipts, Fenced;
    var written := c.ledger.writes[key];
    assert Accounted(c, id);
    ExtendsKeeps(c, d, id);
    if written.Resolved(c.View(key)) && written.id == id && !OnTerminating(c, id) {
      ResolvedPassed(c, key);
    }
  }

  lemma CheckFences(c: Cluster, key: nat, replay: Reply, d: Cluster)
    requires Inv(c) && Next(c, Check(key, replay), d) && Extends(c, d)
    ensures Fenced(d)
  {
    hide Histories, Writers, Receipts;
    forall uid, id | uid in d.ledger.initialized && 0 <= id < |d.requests| && d.requests[id].epoch < d.epoch &&
      d.requests[id].uid == uid
      ensures Superseded(d, id)
    {
      if uid !in c.ledger.initialized {
        ReceiptFences(c, key, id);
      }
      ExtendsKeeps(c, d, id);
    }
  }

  lemma ForgetKeeps(c: Cluster, parent: nat, d: Cluster)
    requires Inv(c) && Next(c, Forget(parent), d)
    ensures Inv(d)
  {
    ControllerSound(c, d);
    forall key | key in d.ledger.writes
      ensures SoundEntry(d, key)
    {
      assert SoundEntry(c, key);
    }
    forall id | 0 <= id < |c.requests|
      ensures Accounted(d, id) && (Superseded(c, id) ==> Superseded(d, id))
    {
      assert SoundRequest(c, id) && Accounted(c, id);
    }
  }

  lemma RestartKeeps(c: Cluster, seen: seq<nat>, d: Cluster)
    requires Inv(c) && Next(c, Restart(seen), d)
    ensures Inv(d)
  {
    RestartSound(c, seen, d);
    forall id | 0 <= id < |c.requests|
      ensures Accounted(d, id)
    {
      assert SoundRequest(c, id);
    }
  }

  lemma StepKeeps(c: Cluster, step: Step, d: Cluster)
    requires Inv(c) && Next(c, step, d)
    ensures Inv(d)
  {
    hide Next, Inv;
    match step
    case External(_, _) => ExternalKeeps(c, step, d);
    case Deliver(id) => DeliverKeeps(c, id, d);
    case Watch(key, index) => WatchKeeps(c, key, index, d);
    case Create(_, _, _) => ExternalKeeps(c, step, d);
    case Mutate(_, _, _, _, _) => MutateKeeps(c, step, d);
    case Check(key, replay) => CheckKeeps(c, key, replay, d);
    case Forget(parent) => ForgetKeeps(c, parent, d);
    case Restart(seen) => RestartKeeps(c, seen, d);
  }

  // --- Every run ---

  /** Consecutive states, each the result of one step. */
  ghost predicate Continues(run: seq<Cluster>, steps: seq<Step>) {
    |run| == |steps| + 1 && forall k | 0 <= k < |steps| :: Next(run[k], steps[k], run[k + 1])
  }

  ghost predicate IsRun(run: seq<Cluster>, steps: seq<Step>) {
    Continues(run, steps) && Init(run[0])
  }

  lemma {:induction false} ContinuationKeeps(run: seq<Cluster>, steps: seq<Step>, k: nat)
    requires Continues(run, steps) && Inv(run[0]) && k < |run|
    ensures Inv(run[k])
    decreases k
  {
    hide Next, Inv;
    if k > 0 {
      ContinuationKeeps(run, steps, k - 1);
      assert Next(run[k - 1], steps[k - 1], run[k]);
      StepKeeps(run[k - 1], steps[k - 1], run[k]);
    }
  }

  lemma RunKeeps(run: seq<Cluster>, steps: seq<Step>, k: nat)
    requires IsRun(run, steps) && k < |run|
    ensures Inv(run[0]) && Inv(run[k])
  {
    InitInv(run[0]);
    ContinuationKeeps(run, steps, k);
  }

  lemma InitInv(c: Cluster)
    requires Init(c)
    ensures Inv(c)
  {
    InitSound(c);
  }

  /** At most once: whatever is replayed, duplicated or delayed, one request writes at most one state of one object. */
  lemma CommitsAtMostOnce(
    run: seq<Cluster>, steps: seq<Step>, k: nat, id: nat, key: nat, index: nat, otherKey: nat, otherIndex: nat
  )
    requires IsRun(run, steps) && k < |run|
    requires run[k].WrittenAt(id, key, index) && run[k].WrittenAt(id, otherKey, otherIndex)
    ensures key == otherKey && index == otherIndex
  {
    RunKeeps(run, steps, k);
  }

  /** Nothing further can happen to the request: its base is gone, or no copy of it exists and none will. */
  ghost predicate Settled(c: Cluster, id: nat)
    requires id < |c.requests|
  {
    Superseded(c, id) || (id !in c.flight && !Tracked(c, id))
  }

  lemma SupersededNeverApplies(c: Cluster, id: nat)
    requires ApiSound(c) && id < |c.requests| && c.requests[id].key < |c.objects| && Superseded(c, id)
    ensures !c.Applies(id)
  {
    if c.Applies(id) {
      AppliesToLast(c, id);
    }
  }

  lemma ExternalSettles(c: Cluster, step: Step, d: Cluster, id: nat)
    requires Inv(c) && Next(c, step, d) && (step.External? || step.Create?) && id < |c.requests| && Settled(c, id)
    ensures id < |d.requests| && Settled(d, id) && d.requests[id] == c.requests[id]
    ensures d.Committed(id) <==> c.Committed(id)
  {
    assert SoundRequest(c, id);
    ExternalSound(c, step.key, step.state);
    hide Histories, Writers, Receipts, Requests, Fenced;
  }

  lemma ControllerSettles(c: Cluster, step: Step, d: Cluster, id: nat)
    requires Inv(c) && Next(c, step, d) && (step.Watch? || step.Forget?) && id < |c.requests| && Settled(c, id)
    ensures id < |d.requests| && Settled(d, id) && d.requests[id] == c.requests[id]
    ensures d.Committed(id) <==> c.Committed(id)
  {
    ControllerSound(c, d);
    hide Histories, Writers, Receipts, Requests, Fenced;
  }

  lemma RestartSettles(c: Cluster, seen: seq<nat>, d: Cluster, id: nat)
    requires Inv(c) && Next(c, Restart(seen), d) && id < |c.requests| && Settled(c, id)
    ensures id < |d.requests| && Settled(d, id) && d.requests[id] == c.requests[id]
    ensures d.Committed(id) <==> c.Committed(id)
  {
    RestartSound(c, seen, d);
    hide Histories, Writers, Receipts, Requests, Fenced;
  }

  lemma SettledStep(c: Cluster, step: Step, d: Cluster, id: nat)
    requires Inv(c) && Next(c, step, d) && id < |c.requests| && Settled(c, id)
    ensures id < |d.requests| && Settled(d, id)
    ensures d.requests[id] == c.requests[id]
    ensures d.Committed(id) <==> c.Committed(id)
  {
    hide Next, Inv, Settled;
    match step
    case External(_, _) => ExternalSettles(c, step, d, id);
    case Create(_, _, _) => ExternalSettles(c, step, d, id);
    case Deliver(other) => DeliverSettles(c, other, d, id);
    case Mutate(_, _, _, _, _) => MutateSettles(c, step, d, id);
    case Check(key, replay) => CheckSettles(c, key, replay, d, id);
    case Watch(_, _) => ControllerSettles(c, step, d, id);
    case Forget(_) => ControllerSettles(c, step, d, id);
    case Restart(seen) => RestartSettles(c, seen, d, id);
  }

  lemma DeliverSettles(c: Cluster, other: nat, d: Cluster, id: nat)
    requires Inv(c) && Next(c, Deliver(other), d) && id < |c.requests| && Settled(c, id)
    ensures id < |d.requests| && Settled(d, id) && d.requests[id] == c.requests[id]
    ensures d.Committed(id) <==> c.Committed(id)
  {
    assert c.Sized();
    if Superseded(c, id) {
      SupersededNeverApplies(c, id);
    }
    hide Histories, Writers, Receipts;
    var arrived := c.(flight := c.flight - multiset{other});
    ControllerSound(c, arrived);
    if arrived.Applies(other) {
      CommitSound(arrived, other);
    }
  }

  lemma MutateSettles(c: Cluster, step: Step, d: Cluster, id: nat)
    requires Inv(c) && Next(c, step, d) && step.Mutate? && id < |c.requests| && Settled(c, id)
    ensures id < |d.requests| && Settled(d, id) && d.requests[id] == c.requests[id]
    ensures d.Committed(id) <==> c.Committed(id)
  {
    hide Histories, Writers, Receipts;
    var added, request := |c.requests|, NewRequest(c, step.key, step.at, step.deletes);
    var sent := c.(
      requests := c.requests + [request],
      flight := if step.reply.Unknown? then c.flight + multiset{added} else c.flight,
      ledger := c.ledger.Record(step.key, PendingFor(added, request, step.parent), step.reply));
    SendSound(c, request, sent.flight, sent.ledger);
    if step.reply.Accepted? {
      CommitSound(sent, added);
    }
  }

  lemma CheckSettles(c: Cluster, key: nat, replay: Reply, d: Cluster, id: nat)
    requires Inv(c) && Next(c, Check(key, replay), d) && id < |c.requests| && Settled(c, id)
    ensures id < |d.requests| && Settled(d, id) && d.requests[id] == c.requests[id]
    ensures d.Committed(id) <==> c.Committed(id)
  {
    hide Histories, Writers, Receipts;
    assert SoundEntry(c, key);
    CheckSound(c, key, replay, d);
    if c.ledger.writes[key].id == id {
      SupersededNeverApplies(c, id);
      var checked := c.(ledger := d.ledger, flight := d.flight);
      ControllerSound(c, checked);
    }
  }

  /** From the moment a request is settled, whether it has taken effect never changes. */
  lemma {:induction false} SettledForever(run: seq<Cluster>, steps: seq<Step>, start: nat, end: nat, id: nat)
    requires Continues(run, steps) && Inv(run[0]) && start <= end < |run|
    requires id < |run[start].requests| && Settled(run[start], id)
    ensures id < |run[end].requests| && Settled(run[end], id)
    ensures run[end].Committed(id) <==> run[start].Committed(id)
    decreases end
  {
    hide Next, Inv, Settled;
    if start < end {
      SettledForever(run, steps, start, end - 1, id);
      ContinuationKeeps(run, steps, end - 1);
      assert Next(run[end - 1], steps[end - 1], run[end]);
      SettledStep(run[end - 1], steps[end - 1], run[end], id);
    }
  }

  /** The informer already shows the request's effect, or something later. */
  ghost predicate Contained(c: Cluster, id: nat)
    requires id < |c.requests|
  {
    c.Committed(id) && c.requests[id].key < |c.seen| && c.requests[id].at + 1 <= c.seen[c.requests[id].key]
  }

  /** Requests and object histories only ever get longer. */
  ghost predicate Grows(c: Cluster, d: Cluster) {
    && |d.objects| == |c.objects| && c.requests <= d.requests
    && forall key | 0 <= key < |c.objects| :: c.objects[key] <= d.objects[key]
  }

  lemma StepGrows(c: Cluster, step: Step, d: Cluster)
    requires Next(c, step, d)
    ensures Grows(c, d)
  {}

  lemma {:induction false} ContinuationGrows(run: seq<Cluster>, steps: seq<Step>, start: nat, end: nat)
    requires Continues(run, steps) && start <= end < |run|
    ensures Grows(run[start], run[end])
    decreases end
  {
    hide Next;
    if start < end {
      ContinuationGrows(run, steps, start, end - 1);
      assert Next(run[end - 1], steps[end - 1], run[end]);
      StepGrows(run[end - 1], steps[end - 1], run[end]);
    }
  }

  /** The base is being deleted and is the object's current state. */
  ghost predicate Escapable(c: Cluster, key: nat, at: nat) {
    && key < |c.objects| && at < |c.objects[key]| && c.objects[key][at].Live?
    && c.objects[key][at].terminating && at + 1 == |c.objects[key]|
  }

  /** The first step sends a mutation of this process against state `at` of `key`. */
  ghost predicate Sends(steps: seq<Step>, key: nat, at: nat) {
    |steps| > 0 && steps[0].Mutate? && steps[0].key == key && steps[0].at == at
  }

  /** At `now` the ledger no longer waits for the request, though its parent is there and its process alive. */
  ghost predicate Released(c: Cluster, id: nat, epoch: nat) {
    id < |c.requests| && c.epoch == epoch && !Tracked(c, id) && id !in c.dropped
  }

  /** A base that was already superseded when the request was sent never lets it take effect. */
  lemma StaleSendSettled(c: Cluster, step: Step, d: Cluster)
    requires Inv(c) && Next(c, step, d) && step.Mutate? && step.at + 1 < |c.objects[step.key]|
    ensures |c.requests| < |d.requests| && Settled(d, |c.requests|) && !d.Committed(|c.requests|)
  {
    var id, request := |c.requests|, NewRequest(c, step.key, step.at, step.deletes);
    var flight := if step.reply.Unknown? then c.flight + multiset{id} else c.flight;
    SendSound(c, request, flight, c.ledger.Record(step.key, PendingFor(id, request, step.parent), step.reply));
  }

  lemma SentRequest(run: seq<Cluster>, steps: seq<Step>, key: nat, at: nat, k: nat)
    requires Continues(run, steps) && Inv(run[0]) && Sends(steps, key, at) && 0 < k < |run|
    ensures var c, id := run[0], |run[0].requests|;
            && key < |c.objects| && at < |c.objects[key]| && c.objects[key][at].Live?
            && id < |run[k].requests| && run[k].requests[id] == NewRequest(c, key, at, steps[0].deletes)
            && (OnTerminating(run[k], id) <==> c.objects[key][at].terminating)
  {
    assert Next(run[0], steps[0], run[1]);
    ContinuationGrows(run, steps, 1, k);
    ContinuationGrows(run, steps, 0, k);
    hide Inv, Continues;
  }

  /** A released request whose base was not being deleted is contained or settled. */
  lemma ReleasedSettles(c: Cluster, id: nat)
    requires Inv(c) && id < |c.requests| && Released(c, id, c.requests[id].epoch) && !OnTerminating(c, id)
    ensures Contained(c, id) || (Settled(c, id) && !c.Committed(id))
  {
    assert Accounted(c, id) && SoundRequest(c, id);
  }

  /**
   * Barrier soundness. Unless the object was being deleted and current when the
   * mutation was sent, a mutation the ledger no longer waits for is contained in
   * the informer's view, or will not take effect in any future.
   */
  lemma ReleasedSound(run: seq<Cluster>, steps: seq<Step>, key: nat, at: nat, now: nat, later: nat)
    requires Continues(run, steps) && Inv(run[0]) && Sends(steps, key, at) && 0 < now <= later < |run|
    requires Released(run[now], |run[0].requests|, run[0].epoch) && !Escapable(run[0], key, at)
    ensures |run[0].requests| < |run[later].requests|
    ensures Contained(run[now], |run[0].requests|) || !run[later].Committed(|run[0].requests|)
  {
    var id := |run[0].requests|;
    SentRequest(run, steps, key, at, now);
    ContinuationKeeps(run, steps, now);
    hide Inv, Continues, Next, Settled, Released, OnTerminating, Contained;
    if run[0].objects[key][at].terminating {
      assert Next(run[0], steps[0], run[1]);
      StaleSendSettled(run[0], steps[0], run[1]);
      SettledForever(run, steps, 1, later, id);
    } else {
      ReleasedSettles(run[now], id);
      if !Contained(run[now], id) {
        SettledForever(run, steps, now, later, id);
      } else {
        ContinuationGrows(run, steps, now, later);
      }
    }
  }

  lemma ClearUntracked(c: Cluster, id: nat, owner: nat, slice: int)
    requires Inv(c) && id < |c.requests| && c.ledger.SliceClear(owner, slice)
    requires c.requests[id].owner == owner && (slice < 0 || c.requests[id].slice == slice)
    ensures !Tracked(c, id)
  {
    hide ApiSound, Accounted, Fenced;
  }

  /** The same at a slice's barrier: no write of the slice is pending. */
  lemma BarrierSound(run: seq<Cluster>, steps: seq<Step>, sent: nat, now: nat, later: nat, owner: nat, slice: int)
    requires IsRun(run, steps) && sent < now <= later < |run| && steps[sent].Mutate?
    requires var id := |run[sent].requests|;
             && id < |run[now].requests| && id !in run[now].dropped && run[now].epoch == run[sent].epoch
             && run[now].requests[id].owner == owner && (slice < 0 || run[now].requests[id].slice == slice)
    requires run[now].ledger.SliceClear(owner, slice) && !Escapable(run[sent], steps[sent].key, steps[sent].at)
    ensures var id := |run[sent].requests|;
            id < |run[later].requests| && (Contained(run[now], id) || !run[later].Committed(id))
  {
    var id := |run[sent].requests|;
    RunKeeps(run, steps, sent);
    RunKeeps(run, steps, now);
    assert Continues(run[sent..], steps[sent..]);
    ClearUntracked(run[now], id, owner, slice);
    hide Inv, Next, Continues, IsRun, Contained, Escapable, Tracked;
    ReleasedSound(run[sent..], steps[sent..], steps[sent].key, steps[sent].at, now - sent, later - sent);
  }

  /** A continuation that sends a mutation, releases it unseen, and in which it takes effect nevertheless. */
  ghost predicate Escapes(c: Cluster, key: nat, at: nat, run: seq<Cluster>, steps: seq<Step>, now: nat, later: nat) {
    && Continues(run, steps) && run[0] == c && Sends(steps, key, at) && 0 < now <= later < |run|
    && Released(run[now], |c.requests|, c.epoch) && !Contained(run[now], |c.requests|)
    && |c.requests| < |run[later].requests| && run[later].Committed(|c.requests|)
  }

  /**
   * A mutation can escape the barrier exactly when its object is being deleted and it
   * was sent against the current state.
   */
  lemma EscapesIff(c: Cluster, key: nat, at: nat)
    requires Inv(c) && key < |c.objects| && at <= c.seen[key] && c.objects[key][at].Live? && key !in c.ledger.writes
    ensures (exists run, steps, now: nat, later: nat :: Escapes(c, key, at, run, steps, now, later)) <==>
            Escapable(c, key, at)
  {
    if Escapable(c, key, at) {
      var run, steps := TerminatingBaseEscapes(c, key, at);
    }
    hide Inv, Escapable;
    forall run, steps, now: nat, later: nat | Escapes(c, key, at, run, steps, now, later)
      ensures Escapable(c, key, at)
    {
      if !Escapable(c, key, at) {
        ReleasedSound(run, steps, key, at, now, later);
      }
    }
  }

  /** The mutation is taken for settled at once, while its request can still apply. */
  lemma EscapeSent(c: Cluster, key: nat, at: nat) returns (sent: Cluster)
    requires Inv(c) && key < |c.objects| && at <= c.seen[key] && key !in c.ledger.writes && Escapable(c, key, at)
    ensures var id := |c.requests|;
            && Next(c, Mutate(key, at, false, 0, Unknown), sent) && sent.Sized() && Escapable(sent, key, at)
            && sent.requests == c.requests + [NewRequest(c, key, at, false)] && !sent.Committed(id) && id in sent.flight
            && sent.objects == c.objects && sent.seen == c.seen && sent.epoch == c.epoch && sent.dropped == c.dropped
            && Tracked(sent, id) && sent.ledger.writes[key].Departed(sent.View(key))
  {
    var id, request := |c.requests|, NewRequest(c, key, at, false);
    sent := c.(
      requests := c.requests + [request],
      flight := c.flight + multiset{id},
      ledger := c.ledger.Record(key, PendingFor(id, request, 0), Unknown));
    SendSound(c, request, sent.flight, sent.ledger);
    hide Histories, Writers, Receipts, Requests, Fenced, Accounted;
  }

  lemma EscapeChecked(sent: Cluster, key: nat, id: nat) returns (checked: Cluster)
    requires sent.Sized() && id < |sent.requests| && sent.requests[id].key == key < |sent.objects| && Tracked(sent, id)
    requires sent.ledger.writes[key].Departed(sent.View(key))
    ensures Next(sent, Check(key, Conflict), checked)
    ensures checked == sent.(ledger := checked.ledger) && !Tracked(checked, id)
  {
    checked := sent.(ledger := sent.ledger.Check(key, sent.ledger.writes[key], sent.View(key), Conflict));
  }

  lemma EscapeDelivered(c: Cluster, key: nat, at: nat, id: nat) returns (delivered: Cluster)
    requires id < |c.requests| && id in c.flight && Escapable(c, key, at)
    requires c.requests[id] == NewRequest(c, key, at, c.requests[id].deletes).(epoch := c.requests[id].epoch)
    ensures Next(c, Deliver(id), delivered)
    ensures id < |delivered.requests| && delivered.Committed(id)
  {
    delivered := c.(flight := c.flight - multiset{id}).Commit(id);
  }

  lemma TerminatingBaseEscapes(c: Cluster, key: nat, at: nat) returns (run: seq<Cluster>, steps: seq<Step>)
    requires Inv(c) && key < |c.objects| && at <= c.seen[key] && key !in c.ledger.writes && Escapable(c, key, at)
    ensures Escapes(c, key, at, run, steps, 2, 3)
  {
    var id := |c.requests|;
    var sent := EscapeSent(c, key, at);
    var checked := EscapeChecked(sent, key, id);
    hide Next;
    var delivered := EscapeDelivered(checked, key, at, id);
    assert id !in c.dropped;
    hide Inv, Escapable;
    run := [c, sent, checked, delivered];
    steps := [Mutate(key, at, false, 0, Unknown), Check(key, Conflict), Deliver(|c.requests|)];
  }

  /** What a successful slice preparation has established: nothing pending, and every listed live object taken over. */
  ghost predicate SlicePrepared(c: Cluster, owner: nat, slice: nat) {
    && c.Sized() && c.ledger.SliceClear(owner, slice)
    && forall key | 0 <= key < |c.objects| ::
         var view := c.View(key);
         view.Live? && !view.terminating && view.owner == owner && view.slice == slice ==>
           view.uid in c.ledger.initialized
  }

  /**
   * Takeover fencing. Once a slice is prepared, no request an earlier process
   * left in flight against one of its live objects can ever take effect.
   */
  lemma TakeoverFences(
    run: seq<Cluster>, steps: seq<Step>, now: nat, later: nat, owner: nat, slice: nat, key: nat, id: nat
  )
    requires IsRun(run, steps) && now <= later < |run| && SlicePrepared(run[now], owner, slice)
    requires key < |run[now].objects|
    requires var view := run[now].View(key);
             view.Live? && !view.terminating && view.owner == owner && view.slice == slice
    requires id < |run[now].requests|
    requires run[now].requests[id].epoch < run[now].epoch && run[now].requests[id].uid == run[now].View(key).uid
    ensures id < |run[later].requests|
    ensures run[later].Committed(id) <==> run[now].Committed(id)
  {
    RunKeeps(run, steps, now);
    assert Superseded(run[now], id);
    SettledForever(run, steps, now, later, id);
  }
}
