/** Exact dead-lettering over whole runs of a command queue: the delivery count
    of a command is the number of lost deliveries since it was created or last
    requeued, and nothing but a requeue brings a dead command back. */
module DeadLetters {
  import opened Identifiers
  import opened Commands
  import opened QueueSpec
  import opened QueueInvariants
  import opened QueueTheorems

  /** The entry filed under `id`, claimed or waiting. */
  function Look(q: Queue, id: Id): Option<Item> {
    var k := Slot(q.claimed, id);
    var i := First(q.waiting, WithId(id));
    if k < |q.claimed| then Some(q.claimed[k].item)
    else if i < |q.waiting| then Some(q.waiting[i])
    else None
  }

  ghost predicate Has(q: Queue, x: Item) {
    || (exists i :: 0 <= i < |q.waiting| && q.waiting[i] == x)
    || (exists k :: 0 <= k < |q.claimed| && q.claimed[k].item == x)
  }

  lemma LookFinds(q: Queue, x: Item)
    requires Apart(q) && Has(q, x)
    ensures Look(q, x.id) == Some(x)
  {
  }

  lemma LookHas(q: Queue, id: Id)
    ensures Look(q, id).Some? ==> Has(q, Look(q, id).value) && Look(q, id).value.id == id
    ensures Look(q, id).None? ==> forall x :: Has(q, x) ==> x.id != id
  {
  }

  /** The step loses a delivery of command `id`: a counted release, or the
      takeover of its expired claim by an eligible worker. */
  predicate LosesDelivery(t: Turn, op: QueueOp, id: Id) {
    match op
    case Releasing(released, token, options, _) => released == id && Holds(t.q, id, token) && !options.Plain()
    case Claiming(worker, _, wall) =>
      var k := Slot(t.q.claimed, id);
      k < |t.q.claimed| && t.q.claimed[k].expiresAt <= t.g.Tick(wall).last && Eligible(worker, t.q.claimed[k].item.payload)
    case _ => false
  }

  predicate Revives(t: Turn, op: QueueOp, id: Id) {
    op.Requeuing? && op.id == id && First(t.q.waiting, DeadWith(id)) < |t.q.waiting|
  }

  /** Lost deliveries of `id` since it was created or last requeued. */
  function LostDeliveries(t: Turn, limit: int, ops: seq<QueueOp>, id: Id): nat
    decreases |ops|
  {
    if ops == [] then 0
    else
      var before := ops[..|ops| - 1];
      var s, op := Run(t, limit, before), ops[|ops| - 1];
      if Look(s.q, id).None? || Revives(s, op, id) then 0
      else LostDeliveries(t, limit, before, id) + if LosesDelivery(s, op, id) then 1 else 0
  }

  // --------------------------------------------- how one step changes a count

  /** `after` is what became of entry `before` of the same command when `lost`
      deliveries were counted; a command whose id was issued does not appear anew. */
  predicate Follows(before: Option<Item>, after: Option<Item>, lost: nat, issued: bool) {
    after.Some? ==>
      (if before.None? then !issued && after.value.deliveryCount == 0
       else after.value.deliveryCount == before.value.deliveryCount + lost)
  }

  lemma FirstIs(w: seq<Item>, query: Query, i: nat)
    requires IsFirst(w, query, i)
    ensures First(w, query) == i
  {
  }

  lemma SlotIs(claimed: seq<Lease>, id: Id, k: nat)
    requires k <= |claimed|
    requires k < |claimed| ==> claimed[k].item.id == id
    requires forall j | 0 <= j < k :: claimed[j].item.id != id
    ensures Slot(claimed, id) == k
  {
  }

  lemma RequeuedLook(q: Queue, k: nat, x: Item, id: Id)
    requires Apart(q) && k < |q.claimed| && SameTag(x, q.claimed[k].item)
    ensures Look(Requeued(q, k, x), id) == if id == x.id then Some(x) else Look(q, id)
  {
    if id == x.id {
      RequeuedOwnLook(q, k, x);
    } else {
      RequeuedOtherLook(q, k, x, id);
    }
  }

  lemma RequeuedOwnLook(q: Queue, k: nat, x: Item)
    requires Apart(q) && k < |q.claimed| && SameTag(x, q.claimed[k].item)
    ensures Look(Requeued(q, k, x), x.id) == Some(x)
  {
    RequeuedSlot(q, k, x, x.id);
    SlotIs(q.claimed, x.id, k);
    FirstIs(q.waiting + [x], WithId(x.id), |q.waiting|);
  }

  lemma RequeuedOtherLook(q: Queue, k: nat, x: Item, id: Id)
    requires Apart(q) && k < |q.claimed| && SameTag(x, q.claimed[k].item) && id != x.id
    ensures Look(Requeued(q, k, x), id) == Look(q, id)
  {
    RequeuedSlot(q, k, x, id);
    AppendedFirst(q.waiting, x, id);
  }

  /** Where another item is found after one more was added. */
  lemma AppendedFirst(w: seq<Item>, x: Item, id: Id)
    requires x.id != id
    ensures var i := First(w, WithId(id)); First(w + [x], WithId(id)) == if i < |w| then i else i + 1
  {
    var i := First(w, WithId(id));
    FirstIs(w + [x], WithId(id), if i < |w| then i else i + 1);
  }

  /** Where a claim is found after claim `k` moved back. */
  lemma RequeuedSlot(q: Queue, k: nat, x: Item, id: Id)
    requires Apart(q) && k < |q.claimed| && SameTag(x, q.claimed[k].item)
    ensures
      var s, s' := Slot(q.claimed, id), Slot(Requeued(q, k, x).claimed, id);
      if s < k then s' == s else if s == k then s' == |q.claimed| - 1 else s' == s - 1
  {
    var s, claimed := Slot(q.claimed, id), RemoveAt(q.claimed, k);
    SlotIs(claimed, id, if s < k then s else if s == k then |claimed| else s - 1);
  }

  /** 1 when the claim filed under `id` is at or after index `k` and expired for the worker. */
  function Loss(q: Queue, k: nat, worker: Worker, date: int, id: Id): nat {
    var s := Slot(q.claimed, id);
    if k <= s < |q.claimed| && Expired(q.claimed[s], worker, date) then 1 else 0
  }

  lemma RequeuedLoss(q: Queue, k: nat, x: Item, worker: Worker, date: int, id: Id)
    requires Apart(q) && k < |q.claimed| && SameTag(x, q.claimed[k].item)
    ensures Loss(Requeued(q, k, x), k, worker, date, id) == if id == x.id then 0 else Loss(q, k, worker, date, id)
  {
    RequeuedSlot(q, k, x, id);
    var s, claimed := Slot(q.claimed, id), RemoveAt(q.claimed, k);
    if id == x.id {
      SlotIs(q.claimed, id, k);
    } else if k < s < |q.claimed| {
      assert claimed[s - 1] == q.claimed[s];
    }
  }

  /** What moving an expired claim back does to every entry. */
  lemma MovedBack(q: Queue, k: nat, x: Item, worker: Worker, date: int, id: Id)
    requires Apart(q) && k < |q.claimed| && SameTag(x, q.claimed[k].item) && Expired(q.claimed[k], worker, date)
    ensures
      var q' := Requeued(q, k, x);
      if id == x.id
      then && Look(q, id) == Some(q.claimed[k].item) && Look(q', id) == Some(x)
           && Loss(q, k, worker, date, id) == 1 && Loss(q', k, worker, date, id) == 0
      else Look(q', id) == Look(q, id) && Loss(q', k, worker, date, id) == Loss(q, k, worker, date, id)
  {
    RequeuedLook(q, k, x, id);
    RequeuedLoss(q, k, x, worker, date, id);
    SlotIs(q.claimed, x.id, k);
  }

  lemma LossFurther(q: Queue, k: nat, worker: Worker, date: int, id: Id)
    requires k < |q.claimed| && !Expired(q.claimed[k], worker, date)
    ensures Loss(q, k, worker, date, id) == Loss(q, k + 1, worker, date, id)
  {
  }

  /** `y` is command `x` after one more lost delivery, noted at some time in the
      span: counted, with its error, and dead from the limit on. */
  predicate Lost(x: Item, y: Item, error: StoredError, limit: int, from: int, to: int) {
    && SameTag(x, y) && y.deliveryCount == x.deliveryCount + 1 && y.lastError == Some(error) && y.reapedAt == x.reapedAt
    && (if x.deliveryCount + 1 >= limit then y.deadAt.Some? && from < y.deadAt.value <= to else y.deadAt == x.deadAt)
  }

  /** What the take-over of an expired claim makes of its command: the error of
      an earlier release stays, otherwise the lost lease is noted. */
  predicate TakenBack(x: Item, y: Item, limit: int, from: int, to: int) {
    Lost(x, y, if x.lastError.Some? then x.lastError.value else LEASE_EXPIRED, limit, from, to) && y.runAt == x.runAt
  }

  lemma OverdueSound(t: Turn, limit: int, k: nat, error: StoredError, wall: int)
    requires Sound(t, limit) && k < |t.q.claimed|
    ensures
      var x := t.q.claimed[k].item;
      var d := CountFailure(x, error, limit, t.g, wall);
      && Lost(x, d.item, error, limit, t.g.last, d.g.last) && d.item.runAt == x.runAt
      && t.g.AtMost(d.g) && Sound(Turn(Requeued(t.q, k, d.item), d.g), limit)
  {
    FailureOk(t.q.claimed[k], error, limit, t.g, wall);
    MoveBackSound(t, limit, k, CountFailure(t.q.claimed[k].item, error, limit, t.g, wall));
  }

  lemma {:induction false} ReclaimLook(t: Turn, k: nat, worker: Worker, date: int, limit: int, wall: int, id: Id)
    requires Sound(t, limit) && k <= |t.q.claimed|
    ensures
      var before, r := Look(t.q, id), Reclaim(t, k, worker, date, limit, wall);
      && t.g.AtMost(r.g)
      && if Loss(t.q, k, worker, date, id) == 0 then before == Look(r.q, id)
         else before.Some? && Look(r.q, id).Some? && TakenBack(before.value, Look(r.q, id).value, limit, t.g.last, r.g.last)
    decreases |t.q.claimed| - k
  {
    if k < |t.q.claimed| {
      var c := t.q.claimed[k];
      if !Expired(c, worker, date) {
        ReclaimLook(t, k + 1, worker, date, limit, wall, id);
        LossFurther(t.q, k, worker, date, id);
      } else {
        var error := if c.item.lastError.Some? then c.item.lastError.value else LEASE_EXPIRED;
        var d := CountFailure(c.item, error, limit, t.g, wall);
        OverdueSound(t, limit, k, error, wall);
        MovedBack(t.q, k, d.item, worker, date, id);
        ReclaimLook(Turn(Requeued(t.q, k, d.item), d.g), k, worker, date, limit, wall, id);
      }
    }
  }

  lemma TakenLook(t: Turn, i: nat, worker: Worker, leaseMs: int, wall: int, id: Id)
    requires Apart(t.q) && i < |t.q.waiting|
    ensures Look(Taken(t, i, worker, leaseMs, wall).t.q, id) == Look(t.q, id)
  {
    var claimed' := Taken(t, i, worker, leaseMs, wall).t.q.claimed;
    var c := claimed'[|t.q.claimed|];
    if id == c.item.id {
      TakenOwnLook(t.q, i, c);
    } else {
      TakenOtherLook(t.q, i, c, id);
    }
  }

  lemma TakenOwnLook(q: Queue, i: nat, c: Lease)
    requires Apart(q) && i < |q.waiting| && c.item == q.waiting[i]
    ensures Look(q, c.item.id) == Some(c.item)
    ensures Look(Queue(RemoveAt(q.waiting, i), q.claimed + [c]), c.item.id) == Some(c.item)
  {
    SlotIs(q.claimed, c.item.id, |q.claimed|);
    AppendedSlot(q.claimed, c, c.item.id);
    FirstIs(q.waiting, WithId(c.item.id), i);
  }

  lemma TakenOtherLook(q: Queue, i: nat, c: Lease, id: Id)
    requires i < |q.waiting| && c.item == q.waiting[i] && id != c.item.id
    ensures Look(Queue(RemoveAt(q.waiting, i), q.claimed + [c]), id) == Look(q, id)
  {
    AppendedSlot(q.claimed, c, id);
    RemovedFirst(q.waiting, i, id);
  }

  /** Where a claim is found after one more was added. */
  lemma AppendedSlot(claimed: seq<Lease>, c: Lease, id: Id)
    ensures
      var s := Slot(claimed, id);
      Slot(claimed + [c], id) == if s < |claimed| || c.item.id == id then s else s + 1
  {
    var s := Slot(claimed, id);
    SlotIs(claimed + [c], id, if s < |claimed| || c.item.id == id then s else s + 1);
  }

  /** Where another item is found after item `i` was removed. */
  lemma RemovedFirst(w: seq<Item>, i: nat, id: Id)
    requires i < |w| && w[i].id != id
    ensures var j := First(w, WithId(id)); First(RemoveAt(w, i), WithId(id)) == if j < i then j else j - 1
  {
    var j := First(w, WithId(id));
    FirstIs(RemoveAt(w, i), WithId(id), if j < i then j else j - 1);
  }

  lemma ClaimFollows(t: Turn, limit: int, op: QueueOp, id: Id)
    requires Sound(t, limit) && op.Claiming?
    ensures Follows(Look(t.q, id), Look(Step(t, limit, op).q, id), if LosesDelivery(t, op, id) then 1 else 0, t.g.HasIssued(id))
    ensures Look(t.q, id).None? <==> Look(Step(t, limit, op).q, id).None?
  {
    var g := t.g.Tick(op.wall);
    LaterSound(t, g, limit);
    ReclaimLook(Turn(t.q, g), 0, op.worker, g.last, limit, op.wall, id);
    TakenOverSound(t, limit, op.worker, op.wall);
    var r := TakenOver(t, op.worker, limit, op.wall);
    var i := Pick(r.q.waiting, op.worker, r.g.last);
    if i < |r.q.waiting| {
      TakenLook(r, i, op.worker, op.leaseMs, op.wall, id);
    }
  }

  lemma PushFollows(t: Turn, limit: int, prefix: string, command: Command, runAt: Option<int>, wall: int, id: Id)
    requires Sound(t, limit)
    requires Sound(Push(t, prefix, command, runAt, wall), limit)
    ensures Follows(Look(t.q, id), Look(Push(t, prefix, command, runAt, wall).q, id), 0, t.g.HasIssued(id))
    ensures t.g.HasIssued(id) ==> Look(Push(t, prefix, command, runAt, wall).q, id) == Look(t.q, id)
  {
    var q' := Push(t, prefix, command, runAt, wall).q;
    var x := NewItem(t.g, prefix, command, runAt, wall);
    LookHas(t.q, id);
    assert forall i | 0 <= i < |t.q.waiting| :: q'.waiting[i] == t.q.waiting[i];
    if Look(t.q, id).Some? {
      assert Has(q', Look(t.q, id).value);
      LookFinds(q', Look(t.q, id).value);
    } else if id == x.id {
      assert q'.waiting[|t.q.waiting|] == x;
      LookFinds(q', x);
    } else {
      assert First(q'.waiting, WithId(id)) == |q'.waiting|;
    }
  }

  lemma RewriteFollows(t: Turn, limit: int, i: nat, x: Item, g: Source, id: Id)
    requires Sound(t, limit) && i < |t.q.waiting| && x.id == t.q.waiting[i].id
    requires Sound(Turn(t.q.(waiting := t.q.waiting[i := x]), g), limit)
    ensures
      var after := Look(t.q.(waiting := t.q.waiting[i := x]), id);
      if id == x.id then after == Some(x) else after == Look(t.q, id)
  {
    var q' := t.q.(waiting := t.q.waiting[i := x]);
    if id == x.id {
      assert q'.waiting[i] == x;
      LookFinds(q', x);
    } else {
      var j := First(t.q.waiting, WithId(id));
      FirstIs(q'.waiting, WithId(id), j);
    }
  }

  lemma EnqueueFollows(t: Turn, limit: int, command: Command, runAt: Option<int>, wall: int, id: Id)
    requires Sound(t, limit) && command.ContinueRun?
    ensures Follows(Look(t.q, id), Look(EnqueueContinue(t, command, runAt, wall).q, id), 0, t.g.HasIssued(id))
  {
    EnqueueSound(t, limit, command, runAt, wall);
    var i := First(t.q.waiting, LiveFor(command.runId));
    if i == |t.q.waiting| {
      PushFollows(t, limit, "continue", command, runAt, wall, id);
    } else {
      var x := t.q.waiting[i];
      RewriteFollows(t, limit, i, x.(payload := command, runAt := Earliest(x.runAt, runAt)), t.g, id);
      LookFinds(t.q, x);
    }
  }

  lemma ReleaseFollows(t: Turn, limit: int, op: QueueOp, id: Id)
    requires Sound(t, limit) && op.Releasing?
    ensures Follows(Look(t.q, id), Look(Step(t, limit, op).q, id), if LosesDelivery(t, op, id) then 1 else 0, t.g.HasIssued(id))
  {
    if Holds(t.q, op.id, op.token) {
      var k := Slot(t.q.claimed, op.id);
      RequeuedLook(t.q, k, ReleasedItem(t.q.claimed[k].item, op.options, limit, t.g, op.wall).item, id);
    }
  }

  lemma DropFollows(t: Turn, limit: int, q': Queue, id: Id)
    requires Sound(t, limit) && Sound(t.(q := q'), limit)
    requires forall x :: x in q'.waiting ==> x in t.q.waiting
    requires forall c :: c in q'.claimed ==> c in t.q.claimed
    ensures Follows(Look(t.q, id), Look(q', id), 0, t.g.HasIssued(id))
    ensures Look(q', id).Some? ==> Look(q', id) == Look(t.q, id)
  {
    LookHas(q', id);
    if Look(q', id).Some? {
      var x := Look(q', id).value;
      if exists k :: 0 <= k < |q'.claimed| && q'.claimed[k].item == x {
        var k :| 0 <= k < |q'.claimed| && q'.claimed[k].item == x;
        assert q'.claimed[k] in q'.claimed;
        var j :| 0 <= j < |t.q.claimed| && t.q.claimed[j] == q'.claimed[k];
      } else {
        var i :| 0 <= i < |q'.waiting| && q'.waiting[i] == x;
        assert x in q'.waiting;
      }
      LookFinds(t.q, x);
    }
  }

  lemma HeartbeatLook(t: Turn, id: Id, token: Id, leaseMs: int, wall: int, other: Id)
    ensures Look(Heartbeat(t, id, token, leaseMs, wall).q, other) == Look(t.q, other)
  {
    if Holds(t.q, id, token) {
      var q' := Heartbeat(t, id, token, leaseMs, wall).q;
      SlotIs(q'.claimed, other, Slot(t.q.claimed, other));
    }
  }

  lemma ReapFollows(t: Turn, limit: int, id: Id, wall: int, other: Id)
    requires Sound(t, limit)
    ensures Follows(Look(t.q, other), Look(MarkReaped(t, id, wall).q, other), 0, t.g.HasIssued(other))
  {
    MarkReapedSound(t, limit, id, wall);
    var i := First(t.q.waiting, UnreapedDead(id));
    if i < |t.q.waiting| {
      var g := t.g.Tick(wall);
      RewriteFollows(t, limit, i, t.q.waiting[i].(reapedAt := Some(g.last)), g, other);
      LookFinds(t.q, t.q.waiting[i]);
    }
  }

  lemma RequeueFollows(t: Turn, limit: int, id: Id, other: Id)
    requires Sound(t, limit)
    ensures
      var after := Look(RequeueDead(t.q, id), other);
      if Revives(t, Requeuing(id), other) then after.Some? && after.value.deliveryCount == 0
      else after == Look(t.q, other)
  {
    RequeueDeadSound(t, limit, id);
    var i := First(t.q.waiting, DeadWith(id));
    if i < |t.q.waiting| {
      RewriteFollows(t, limit, i, Revived(t.q.waiting[i]), t.g, other);
    }
  }

  /** Adding a command or letting time pass changes no count. */
  lemma AdditionFollows(t: Turn, limit: int, op: QueueOp, id: Id)
    requires Sound(t, limit) && (op.Elapse? || op.Enqueuing? || op.Dispatching?)
    ensures Follows(Look(t.q, id), Look(Step(t, limit, op).q, id), 0, t.g.HasIssued(id))
  {
    StepSound(t, limit, op);
    match op
    case Enqueuing(command, runAt, wall) =>
      if command.ContinueRun? { EnqueueFollows(t, limit, command, runAt, wall, id); }
    case Dispatching(command, runAt, wall) =>
      if !command.ContinueRun? && !AttemptCommandExists(t.q, command.attemptId) {
        var prefix := if command.ActivityAttempt? then "activity-command" else "task-command";
        PushFollows(t, limit, prefix, command, runAt, wall, id);
      }
    case _ =>
  }

  /** Removing commands changes no count of those that stay. */
  lemma RemovalFollows(t: Turn, limit: int, op: QueueOp, id: Id)
    requires Sound(t, limit) && (op.Acking? || op.Sweeping? || op.DroppingRuns? || op.DroppingWaiting?)
    ensures Follows(Look(t.q, id), Look(Step(t, limit, op).q, id), 0, t.g.HasIssued(id))
    ensures Look(Step(t, limit, op).q, id).Some? ==> Look(Step(t, limit, op).q, id) == Look(t.q, id)
  {
    StepSound(t, limit, op);
    match op {
      case Sweeping(date) => SparedMembers(t.q.waiting, DeadBefore(date));
      case DroppingRuns(runs) =>
        SparedMembers(t.q.waiting, OfRuns(runs));
        SparedClaimsMembers(t.q.claimed, runs);
      case DroppingWaiting(runId) => SparedMembers(t.q.waiting, OfRuns({runId}));
      case _ =>
    }
    DropFollows(t, limit, Step(t, limit, op).q, id);
  }

  /** One step resets a count, counts one lost delivery, or leaves it. */
  lemma StepFollows(t: Turn, limit: int, op: QueueOp, id: Id)
    requires Sound(t, limit)
    ensures
      var before, after := Look(t.q, id), Look(Step(t, limit, op).q, id);
      if Revives(t, op, id) then after.Some? && after.value.deliveryCount == 0
      else Follows(before, after, if LosesDelivery(t, op, id) then 1 else 0, t.g.HasIssued(id))
  {
    match op
    case Claiming(_, _, _) => ClaimFollows(t, limit, op, id);
    case Releasing(_, _, _, _) => ReleaseFollows(t, limit, op, id);
    case Beating(beaten, token, leaseMs, wall) => HeartbeatLook(t, beaten, token, leaseMs, wall, id);
    case Reaping(reaped, wall) => ReapFollows(t, limit, reaped, wall, id);
    case Requeuing(requeued) => RequeueFollows(t, limit, requeued, id);
    case Acking(_, _) => RemovalFollows(t, limit, op, id);
    case Sweeping(_) => RemovalFollows(t, limit, op, id);
    case DroppingRuns(_) => RemovalFollows(t, limit, op, id);
    case DroppingWaiting(_) => RemovalFollows(t, limit, op, id);
    case _ => AdditionFollows(t, limit, op, id);
  }

  /** Exact and bounded dead-lettering, over every run from the empty queue. */
  lemma {:induction false} DeadLetteringIsExact(g: Source, limit: int, ops: seq<QueueOp>, id: Id)
    ensures
      var t := Run(Turn(EMPTY, g), limit, ops);
      Look(t.q, id).Some? ==>
        var x, lost := Look(t.q, id).value, LostDeliveries(Turn(EMPTY, g), limit, ops, id);
        && x.deliveryCount == lost <= Threshold(limit)
        && (x.deadAt.Some? <==> lost == Threshold(limit))
        && (Slot(t.q.claimed, id) < |t.q.claimed| ==> x.deadAt.None?)
    decreases |ops|
  {
    var start := Turn(EMPTY, g);
    RunSound(start, limit, ops);
    var t := Run(start, limit, ops);
    LookHas(t.q, id);
    if ops != [] {
      var before := ops[..|ops| - 1];
      DeadLetteringIsExact(g, limit, before, id);
      RunSound(start, limit, before);
      StepFollows(Run(start, limit, before), limit, ops[|ops| - 1], id);
    }
  }

  /** One step leaves a dead command dead and unclaimed, or removes it, unless it revives it. */
  lemma DeadStays(t: Turn, limit: int, op: QueueOp, id: Id)
    requires Sound(t, limit) && t.g.HasIssued(id) && !Revives(t, op, id) && DeadOrGone(t.q, id)
    ensures DeadOrGone(Step(t, limit, op).q, id)
  {
    StepSound(t, limit, op);
    StepFollows(t, limit, op, id);
    LookHas(t.q, id);
    LookHas(Step(t, limit, op).q, id);
  }

  predicate DeadOrGone(q: Queue, id: Id) {
    Look(q, id).None? || (Look(q, id).value.deadAt.Some? && Slot(q.claimed, id) == |q.claimed|)
  }

  /** No step of the run revives the command. */
  predicate Unrevived(t: Turn, limit: int, ops: seq<QueueOp>, id: Id)
    decreases |ops|
  {
    ops == [] ||
    (Unrevived(t, limit, ops[..|ops| - 1], id) && !Revives(Run(t, limit, ops[..|ops| - 1]), ops[|ops| - 1], id))
  }

  /** A dead command is not claimed and stays dead, over every run that does
      not requeue it; once removed it does not come back. */
  lemma {:induction false} DeadUntilRequeued(t: Turn, limit: int, ops: seq<QueueOp>, id: Id)
    requires Sound(t, limit) && t.g.HasIssued(id) && DeadOrGone(t.q, id) && Unrevived(t, limit, ops, id)
    ensures DeadOrGone(Run(t, limit, ops).q, id) && Run(t, limit, ops).g.HasIssued(id)
    decreases |ops|
  {
    if ops != [] {
      var before := ops[..|ops| - 1];
      DeadUntilRequeued(t, limit, before, id);
      RunSound(t, limit, before);
      DeadStays(Run(t, limit, before), limit, ops[|ops| - 1], id);
      StepAdvances(Run(t, limit, before), limit, ops[|ops| - 1]);
    }
  }
}
