/** What every step of a command queue keeps: each command is in exactly one
    place, lease tokens are never shared, and dead-lettering is exact. */
module QueueInvariants {
  import opened Identifiers
  import opened Commands
  import opened QueueSpec

  /** The effective dead-letter threshold: a limit below one behaves as one. */
  function Threshold(limit: int): nat {
    if limit < 1 then 1 else limit
  }

  /** Two entries that must never both be held: same command id, same creation
      stamp, or two commands for one attempt. */
  predicate Clash(x: Item, y: Item) {
    || x.id == y.id
    || x.createdAt == y.createdAt
    || (!x.payload.ContinueRun? && NamesAttempt(y, x.payload.attemptId))
  }

  predicate SameTag(x: Item, y: Item) {
    x.id == y.id && x.createdAt == y.createdAt && x.payload == y.payload
  }

  ghost predicate Apart(q: Queue) {
    && (forall i, j | 0 <= i < j < |q.waiting| :: !Clash(q.waiting[i], q.waiting[j]))
    && (forall i, j | 0 <= i < j < |q.claimed| :: !Clash(q.claimed[i].item, q.claimed[j].item))
    && (forall i, j | 0 <= i < |q.waiting| && 0 <= j < |q.claimed| :: !Clash(q.waiting[i], q.claimed[j].item))
  }

  ghost predicate TokensApart(claimed: seq<Lease>) {
    forall i, j | 0 <= i < j < |claimed| :: claimed[i].token != claimed[j].token
  }

  predicate WaitingOk(x: Item, g: Source, limit: int) {
    && g.HasIssued(x.id)
    && x.createdAt <= g.last
    && x.deliveryCount <= Threshold(limit)
    && (x.deadAt.Some? <==> x.deliveryCount == Threshold(limit))
  }

  predicate ClaimOk(c: Lease, g: Source, limit: int) {
    && g.HasIssued(c.item.id)
    && g.HasIssued(c.token)
    && c.item.createdAt <= g.last
    && c.item.deliveryCount < Threshold(limit)
    && c.item.deadAt.None?
  }

  ghost predicate Sound(t: Turn, limit: int) {
    && (forall i | 0 <= i < |t.q.waiting| :: WaitingOk(t.q.waiting[i], t.g, limit))
    && (forall k | 0 <= k < |t.q.claimed| :: ClaimOk(t.q.claimed[k], t.g, limit))
    && Apart(t.q)
    && TokensApart(t.q.claimed)
  }

  // ------------------------------------------------------------ primitives

  lemma LaterSound(t: Turn, g: Source, limit: int)
    requires Sound(t, limit) && t.g.AtMost(g)
    ensures Sound(t.(g := g), limit)
  {
  }

  lemma PushSound(t: Turn, limit: int, prefix: string, command: Command, runAt: Option<int>, wall: int)
    requires Sound(t, limit)
    requires command.ContinueRun? || !AttemptCommandExists(t.q, command.attemptId)
    ensures Sound(Push(t, prefix, command, runAt, wall), limit)
  {
  }

  /** Rewriting waiting item `i` in place keeps soundness when the new item is
      healthy and is the same command (or a continue command of the same item). */
  lemma RewriteSound(t: Turn, limit: int, i: nat, x: Item)
    requires Sound(t, limit) && i < |t.q.waiting| && WaitingOk(x, t.g, limit)
    requires x.id == t.q.waiting[i].id && x.createdAt == t.q.waiting[i].createdAt
    requires x.payload == t.q.waiting[i].payload || x.payload.ContinueRun?
    ensures Sound(t.(q := t.q.(waiting := t.q.waiting[i := x])), limit)
  {
  }

  lemma MoveBackSound(t: Turn, limit: int, k: nat, d: Delivery)
    requires Sound(t, limit) && k < |t.q.claimed|
    requires SameTag(d.item, t.q.claimed[k].item) && t.g.AtMost(d.g) && WaitingOk(d.item, d.g, limit)
    ensures Sound(Turn(Requeued(t.q, k, d.item), d.g), limit)
  {
  }

  lemma FailureOk(c: Lease, error: StoredError, limit: int, g: Source, wall: int)
    requires ClaimOk(c, g, limit)
    ensures
      var d := CountFailure(c.item, error, limit, g, wall);
      SameTag(d.item, c.item) && g.AtMost(d.g) && WaitingOk(d.item, d.g, limit)
  {
  }

  lemma {:induction false} ReclaimSound(t: Turn, k: nat, worker: Worker, date: int, limit: int, wall: int)
    requires Sound(t, limit) && k <= |t.q.claimed|
    ensures
      var r := Reclaim(t, k, worker, date, limit, wall);
      Sound(r, limit) && t.g.AtMost(r.g)
    decreases |t.q.claimed| - k
  {
    if k < |t.q.claimed| {
      var c := t.q.claimed[k];
      if !Expired(c, worker, date) {
        ReclaimSound(t, k + 1, worker, date, limit, wall);
      } else {
        var error := if c.item.lastError.Some? then c.item.lastError.value else LEASE_EXPIRED;
        FailureOk(c, error, limit, t.g, wall);
        var d := CountFailure(c.item, error, limit, t.g, wall);
        MoveBackSound(t, limit, k, d);
        ReclaimSound(Turn(Requeued(t.q, k, d.item), d.g), k, worker, date, limit, wall);
      }
    }
  }

  /** Moving a waiting item among the claims keeps all items apart. */
  lemma TakenApart(q: Queue, i: nat, c: Lease)
    requires Apart(q) && i < |q.waiting| && c.item == q.waiting[i]
    ensures Apart(Queue(RemoveAt(q.waiting, i), q.claimed + [c]))
  {
    var w := RemoveAt(q.waiting, i);
    assert forall k | 0 <= k < |w| :: w[k] == if k < i then q.waiting[k] else q.waiting[k + 1];
  }

  lemma TakenSound(t: Turn, limit: int, i: nat, worker: Worker, leaseMs: int, wall: int)
    requires Sound(t, limit) && i < |t.q.waiting| && t.q.waiting[i].deadAt.None?
    ensures Sound(Taken(t, i, worker, leaseMs, wall).t, limit)
  {
    var claimed := Taken(t, i, worker, leaseMs, wall).t.q.claimed;
    TakenApart(t.q, i, claimed[|t.q.claimed|]);
  }

  lemma TakenOverSound(t: Turn, limit: int, worker: Worker, wall: int)
    requires Sound(t, limit)
    ensures
      var r := TakenOver(t, worker, limit, wall);
      Sound(r, limit) && t.g.AtMost(r.g)
  {
    var g := t.g.Tick(wall);
    LaterSound(t, g, limit);
    ReclaimSound(Turn(t.q, g), 0, worker, g.last, limit, wall);
    var r := Reclaim(Turn(t.q, g), 0, worker, g.last, limit, wall);
    LaterSound(r, r.g.Tick(wall), limit);
  }

  lemma ClaimSound(t: Turn, limit: int, worker: Worker, leaseMs: int, wall: int)
    requires Sound(t, limit)
    ensures Sound(Claim(t, worker, leaseMs, limit, wall).t, limit)
  {
    TakenOverSound(t, limit, worker, wall);
    var r := TakenOver(t, worker, limit, wall);
    var i := Pick(r.q.waiting, worker, r.g.last);
    if i < |r.q.waiting| {
      TakenSound(r, limit, i, worker, leaseMs, wall);
    }
  }

  lemma {:induction false} SparedApart(w: seq<Item>, claimed: seq<Lease>, doomed: Doomed)
    requires Apart(Queue(w, claimed))
    ensures Apart(Queue(Spared(w, doomed), claimed))
  {
    if w != [] {
      var n := |w| - 1;
      SparedApart(w[..n], claimed, doomed);
      SparedMembers(w[..n], doomed);
      forall x | x in Spared(w[..n], doomed)
        ensures !Clash(x, w[n])
      {
        var i :| 0 <= i < n && w[i] == x;
      }
    }
  }

  lemma {:induction false} SparedClaimsApart(w: seq<Item>, claimed: seq<Lease>, runs: set<Id>)
    requires Apart(Queue(w, claimed)) && TokensApart(claimed)
    ensures Apart(Queue(w, SparedClaims(claimed, runs))) && TokensApart(SparedClaims(claimed, runs))
  {
    if claimed != [] {
      var n := |claimed| - 1;
      SparedClaimsApart(w, claimed[..n], runs);
      SparedClaimsMembers(claimed[..n], runs);
      forall c | c in SparedClaims(claimed[..n], runs)
        ensures !Clash(c.item, claimed[n].item) && c.token != claimed[n].token
      {
        var i :| 0 <= i < n && claimed[i] == c;
      }
    }
  }

  lemma SparedSound(t: Turn, limit: int, doomed: Doomed)
    requires Sound(t, limit)
    ensures Sound(t.(q := t.q.(waiting := Spared(t.q.waiting, doomed))), limit)
  {
    SparedApart(t.q.waiting, t.q.claimed, doomed);
    SparedMembers(t.q.waiting, doomed);
    var w := Spared(t.q.waiting, doomed);
    forall i | 0 <= i < |w|
      ensures WaitingOk(w[i], t.g, limit)
    {
      assert w[i] in t.q.waiting;
    }
  }

  lemma DropRunsSound(t: Turn, limit: int, runs: set<Id>)
    requires Sound(t, limit)
    ensures Sound(t.(q := DropRuns(t.q, runs)), limit)
  {
    SparedSound(t, limit, OfRuns(runs));
    var w := Spared(t.q.waiting, OfRuns(runs));
    SparedClaimsApart(w, t.q.claimed, runs);
    SparedClaimsMembers(t.q.claimed, runs);
    var kept := SparedClaims(t.q.claimed, runs);
    forall k | 0 <= k < |kept|
      ensures ClaimOk(kept[k], t.g, limit)
    {
      assert kept[k] in t.q.claimed;
    }
  }

  lemma ReleaseSound(t: Turn, limit: int, id: Id, token: Id, options: ReleaseOptions, wall: int)
    requires Sound(t, limit)
    ensures Sound(Release(t, id, token, options, limit, wall), limit)
  {
    if Holds(t.q, id, token) {
      var k := Slot(t.q.claimed, id);
      var c := t.q.claimed[k];
      if !options.Plain() {
        FailureOk(c, if options.error.Some? then options.error.value else NO_IMPLEMENTATION, limit, t.g, wall);
      }
      MoveBackSound(t, limit, k, ReleasedItem(c.item, options, limit, t.g, wall));
    }
  }

  lemma EnqueueSound(t: Turn, limit: int, command: Command, runAt: Option<int>, wall: int)
    requires Sound(t, limit) && command.ContinueRun?
    ensures Sound(EnqueueContinue(t, command, runAt, wall), limit)
  {
    var i := First(t.q.waiting, LiveFor(command.runId));
    if i == |t.q.waiting| {
      PushSound(t, limit, "continue", command, runAt, wall);
    } else {
      var x := t.q.waiting[i];
      RewriteSound(t, limit, i, x.(payload := command, runAt := Earliest(x.runAt, runAt)));
    }
  }

  lemma AckSound(t: Turn, limit: int, id: Id, token: Id)
    requires Sound(t, limit)
    ensures Sound(t.(q := Ack(t.q, id, token)), limit)
  {
  }

  lemma HeartbeatSound(t: Turn, limit: int, id: Id, token: Id, leaseMs: int, wall: int)
    requires Sound(t, limit)
    ensures Sound(Heartbeat(t, id, token, leaseMs, wall), limit)
  {
  }

  lemma MarkReapedSound(t: Turn, limit: int, id: Id, wall: int)
    requires Sound(t, limit)
    ensures Sound(MarkReaped(t, id, wall), limit)
  {
    var i := First(t.q.waiting, UnreapedDead(id));
    if i < |t.q.waiting| {
      var g := t.g.Tick(wall);
      LaterSound(t, g, limit);
      RewriteSound(t.(g := g), limit, i, t.q.waiting[i].(reapedAt := Some(g.last)));
    }
  }

  lemma RequeueDeadSound(t: Turn, limit: int, id: Id)
    requires Sound(t, limit)
    ensures Sound(t.(q := RequeueDead(t.q, id)), limit)
  {
    var i := First(t.q.waiting, DeadWith(id));
    if i < |t.q.waiting| {
      RewriteSound(t, limit, i, Revived(t.q.waiting[i]));
    }
  }

  lemma DispatchSound(t: Turn, limit: int, command: Command, runAt: Option<int>, wall: int)
    requires Sound(t, limit) && !command.ContinueRun?
    ensures Sound(Dispatch(t, command, runAt, wall), limit)
  {
    if !AttemptCommandExists(t.q, command.attemptId) {
      var prefix := if command.ActivityAttempt? then "activity-command" else "task-command";
      PushSound(t, limit, prefix, command, runAt, wall);
    }
  }

  predicate Handles(op: QueueOp) {
    op.Claiming? || op.Acking? || op.Releasing? || op.Beating? || op.Requeuing?
  }

  lemma HandlingSound(t: Turn, limit: int, op: QueueOp)
    requires Sound(t, limit) && Handles(op)
    ensures Sound(Step(t, limit, op), limit)
  {
    match op
    case Claiming(worker, leaseMs, wall) => ClaimSound(t, limit, worker, leaseMs, wall);
    case Acking(id, token) => AckSound(t, limit, id, token);
    case Releasing(id, token, options, wall) => ReleaseSound(t, limit, id, token, options, wall);
    case Beating(id, token, leaseMs, wall) => HeartbeatSound(t, limit, id, token, leaseMs, wall);
    case Requeuing(id) => RequeueDeadSound(t, limit, id);
  }

  /** Every step keeps a queue sound. */
  lemma StepSound(t: Turn, limit: int, op: QueueOp)
    requires Sound(t, limit)
    ensures Sound(Step(t, limit, op), limit)
  {
    match op
    case Elapse(to) => if t.g.AtMost(to) { LaterSound(t, to, limit); }
    case Enqueuing(command, runAt, wall) =>
      if command.ContinueRun? { EnqueueSound(t, limit, command, runAt, wall); }
    case Dispatching(command, runAt, wall) =>
      if !command.ContinueRun? { DispatchSound(t, limit, command, runAt, wall); }
    case Reaping(id, wall) => MarkReapedSound(t, limit, id, wall);
    case Sweeping(date) => SparedSound(t, limit, DeadBefore(date));
    case DroppingRuns(runs) => DropRunsSound(t, limit, runs);
    case DroppingWaiting(runId) => SparedSound(t, limit, OfRuns({runId}));
    case _ => HandlingSound(t, limit, op);
  }

  lemma {:induction false} RunSound(t: Turn, limit: int, ops: seq<QueueOp>)
    requires Sound(t, limit)
    ensures Sound(Run(t, limit, ops), limit)
  {
    if ops != [] {
      RunSound(t, limit, ops[..|ops| - 1]);
      StepSound(Run(t, limit, ops[..|ops| - 1]), limit, ops[|ops| - 1]);
    }
  }
}
