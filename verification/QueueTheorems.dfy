/** Properties of whole runs of a command queue: conservation of commands,
    fencing by lease tokens, no lost wake-up, and exact delivery counts. */
module QueueTheorems {
  import opened Identifiers
  import opened Commands
  import opened QueueSpec
  import opened QueueInvariants

  // ----------------------------------------------------------- conservation

  /** What makes a command itself, wherever it is filed. */
  datatype Tag = Tag(id: Id, payload: Command, createdAt: int)

  function TagOf(x: Item): Tag {
    Tag(x.id, x.payload, x.createdAt)
  }

  function Tags(w: seq<Item>): seq<Tag> {
    seq(|w|, i requires 0 <= i < |w| => TagOf(w[i]))
  }

  function ClaimTags(claimed: seq<Lease>): seq<Tag> {
    seq(|claimed|, i requires 0 <= i < |claimed| => TagOf(claimed[i].item))
  }

  /** Every command the queue holds, waiting or claimed. */
  function Held(q: Queue): multiset<Tag> {
    multiset(Tags(q.waiting)) + multiset(ClaimTags(q.claimed))
  }

  lemma RemoveAtMultiset<T>(s: seq<T>, i: nat)
    requires i < |s|
    ensures multiset(s) == multiset(RemoveAt(s, i)) + multiset{s[i]}
  {
    assert s == s[..i] + [s[i]] + s[i + 1..];
  }

  lemma RequeuedHeld(q: Queue, k: nat, x: Item)
    requires k < |q.claimed| && SameTag(x, q.claimed[k].item)
    ensures Held(Requeued(q, k, x)) == Held(q)
  {
    var q' := Requeued(q, k, x);
    assert Tags(q'.waiting) == Tags(q.waiting) + [TagOf(x)];
    RemoveAtMultiset(ClaimTags(q.claimed), k);
    assert ClaimTags(q'.claimed) == RemoveAt(ClaimTags(q.claimed), k);
  }

  lemma {:induction false} ReclaimHeld(t: Turn, k: nat, worker: Worker, date: int, limit: int, wall: int)
    requires k <= |t.q.claimed|
    ensures Held(Reclaim(t, k, worker, date, limit, wall).q) == Held(t.q)
    decreases |t.q.claimed| - k
  {
    if k < |t.q.claimed| {
      var c := t.q.claimed[k];
      if !Expired(c, worker, date) {
        ReclaimHeld(t, k + 1, worker, date, limit, wall);
      } else {
        var error := if c.item.lastError.Some? then c.item.lastError.value else LEASE_EXPIRED;
        var d := CountFailure(c.item, error, limit, t.g, wall);
        RequeuedHeld(t.q, k, d.item);
        ReclaimHeld(Turn(Requeued(t.q, k, d.item), d.g), k, worker, date, limit, wall);
      }
    }
  }

  lemma TakenHeld(t: Turn, i: nat, worker: Worker, leaseMs: int, wall: int)
    requires i < |t.q.waiting|
    ensures Held(Taken(t, i, worker, leaseMs, wall).t.q) == Held(t.q)
  {
    var q' := Taken(t, i, worker, leaseMs, wall).t.q;
    assert ClaimTags(q'.claimed) == ClaimTags(t.q.claimed) + [TagOf(t.q.waiting[i])];
    RemoveAtMultiset(Tags(t.q.waiting), i);
    assert Tags(q'.waiting) == RemoveAt(Tags(t.q.waiting), i);
  }

  lemma ClaimConserves(t: Turn, limit: int, op: QueueOp)
    requires op.Claiming?
    ensures Held(Step(t, limit, op).q) == Held(t.q)
  {
    var g := t.g.Tick(op.wall);
    ReclaimHeld(Turn(t.q, g), 0, op.worker, g.last, limit, op.wall);
    var r := TakenOver(t, op.worker, limit, op.wall);
    var i := Pick(r.q.waiting, op.worker, r.g.last);
    if i < |r.q.waiting| {
      TakenHeld(r, i, op.worker, op.leaseMs, op.wall);
    }
  }

  lemma ReleaseConserves(t: Turn, limit: int, op: QueueOp)
    requires op.Releasing?
    ensures Held(Step(t, limit, op).q) == Held(t.q)
  {
    if Holds(t.q, op.id, op.token) {
      var k := Slot(t.q.claimed, op.id);
      RequeuedHeld(t.q, k, ReleasedItem(t.q.claimed[k].item, op.options, limit, t.g, op.wall).item);
    }
  }

  lemma RewritesConserve(t: Turn, limit: int, op: QueueOp)
    requires op.Beating? || op.Reaping? || op.Requeuing?
    ensures Held(Step(t, limit, op).q) == Held(t.q)
  {
    var q' := Step(t, limit, op).q;
    if op.Beating? {
      assert ClaimTags(q'.claimed) == ClaimTags(t.q.claimed);
    } else {
      assert Tags(q'.waiting) == Tags(t.q.waiting);
    }
  }

  /** Polling, releasing, heart-beating, reaping and requeueing only move commands. */
  lemma MovesConserve(t: Turn, limit: int, op: QueueOp)
    requires op.Claiming? || op.Releasing? || op.Beating? || op.Reaping? || op.Requeuing?
    ensures Held(Step(t, limit, op).q) == Held(t.q)
  {
    match op
    case Claiming(_, _, _) => ClaimConserves(t, limit, op);
    case Releasing(_, _, _, _) => ReleaseConserves(t, limit, op);
    case _ => RewritesConserve(t, limit, op);
  }

  /** An accepted ack removes exactly the acknowledged command, a stale one nothing. */
  lemma AckConserves(q: Queue, id: Id, token: Id)
    ensures
      var k := Slot(q.claimed, id);
      Held(q) == Held(Ack(q, id, token))
                 + if Holds(q, id, token) then multiset{TagOf(q.claimed[k].item)} else multiset{}
  {
    if Holds(q, id, token) {
      var k := Slot(q.claimed, id);
      RemoveAtMultiset(ClaimTags(q.claimed), k);
      assert ClaimTags(RemoveAt(q.claimed, k)) == RemoveAt(ClaimTags(q.claimed), k);
    }
  }

  // ---------------------------------------------------------------- fencing

  ghost predicate Live(q: Queue, token: Id) {
    exists k :: 0 <= k < |q.claimed| && q.claimed[k].token == token
  }

  lemma {:induction false} ReclaimKeepsClaims(t: Turn, k: nat, worker: Worker, date: int, limit: int, wall: int)
    requires k <= |t.q.claimed|
    ensures
      var r := Reclaim(t, k, worker, date, limit, wall);
      && t.g.AtMost(r.g)
      && (forall c :: c in r.q.claimed <==>
           c in t.q.claimed[..k] || (c in t.q.claimed[k..] && !Expired(c, worker, date)))
    decreases |t.q.claimed| - k
  {
    var claimed := t.q.claimed;
    if k < |claimed| {
      var c := claimed[k];
      assert claimed[k..] == [c] + claimed[k + 1..];
      if !Expired(c, worker, date) {
        ReclaimKeepsClaims(t, k + 1, worker, date, limit, wall);
        assert claimed[..k + 1] == claimed[..k] + [c];
      } else {
        var error := if c.item.lastError.Some? then c.item.lastError.value else LEASE_EXPIRED;
        var d := CountFailure(c.item, error, limit, t.g, wall);
        var q' := Requeued(t.q, k, d.item);
        assert q'.claimed[..k] == claimed[..k] && q'.claimed[k..] == claimed[k + 1..];
        ReclaimKeepsClaims(Turn(q', d.g), k, worker, date, limit, wall);
      }
    } else {
      assert claimed[..k] == claimed;
    }
  }

  /** A poll keeps exactly the claims that are not expired for the worker, and
      files at most one more, under a token issued by this poll. */
  lemma ClaimKeepsClaims(t: Turn, worker: Worker, leaseMs: int, limit: int, wall: int)
    ensures
      var r := Claim(t, worker, leaseMs, limit, wall);
      && t.g.AtMost(r.t.g)
      && (forall c :: c in r.t.q.claimed <==>
           || (c in t.q.claimed && !(c.expiresAt <= t.g.Tick(wall).last && Eligible(worker, c.item.payload)))
           || (r.grant.Some? && c == r.t.q.claimed[|r.t.q.claimed| - 1]))
      && (r.grant.Some? ==>
           && r.t.q.claimed[|r.t.q.claimed| - 1].token == r.grant.value.token
           && r.t.q.claimed[|r.t.q.claimed| - 1].item.id == r.grant.value.id
           && r.grant.value.token.Issued? && t.g.nextId <= r.grant.value.token.number < r.t.g.nextId)
  {
    var g := t.g.Tick(wall);
    ReclaimKeepsClaims(Turn(t.q, g), 0, worker, g.last, limit, wall);
    var kept := TakenOver(t, worker, limit, wall).q.claimed;
    var r := Claim(t, worker, leaseMs, limit, wall);
    if r.grant.Some? {
      assert r.t.q.claimed == kept + [r.t.q.claimed[|kept|]];
    }
  }

  /** Ids only grow and the clock never goes back. */
  lemma StepAdvances(t: Turn, limit: int, op: QueueOp)
    ensures t.g.AtMost(Step(t, limit, op).g)
  {
    if op.Claiming? {
      ClaimKeepsClaims(t, op.worker, op.leaseMs, limit, op.wall);
    }
  }

  lemma StaleTokenStays(t: Turn, limit: int, op: QueueOp, token: Id)
    requires t.g.HasIssued(token) && !Live(t.q, token)
    ensures !Live(Step(t, limit, op).q, token)
    ensures Step(t, limit, op).g.HasIssued(token)
  {
    StepAdvances(t, limit, op);
    var q' := Step(t, limit, op).q;
    if op.Claiming? {
      ClaimKeepsClaims(t, op.worker, op.leaseMs, limit, op.wall);
    } else if op.DroppingRuns? {
      SparedClaimsMembers(t.q.claimed, op.runs);
    }
    forall k | 0 <= k < |q'.claimed|
      ensures q'.claimed[k].token != token
    {
      var c := q'.claimed[k];
      assert c in q'.claimed;
      if c in t.q.claimed {
        var j :| 0 <= j < |t.q.claimed| && t.q.claimed[j] == c;
      }
    }
  }

  lemma {:induction false} StaleTokenForever(t: Turn, limit: int, rest: seq<QueueOp>, token: Id)
    requires t.g.HasIssued(token) && !Live(t.q, token)
    ensures !Live(Run(t, limit, rest).q, token) && Run(t, limit, rest).g.HasIssued(token)
  {
    if rest != [] {
      StaleTokenForever(t, limit, rest[..|rest| - 1], token);
      StaleTokenStays(Run(t, limit, rest[..|rest| - 1]), limit, rest[|rest| - 1], token);
    }
  }

  /** A token that stopped being live never acks, heart-beats or releases anything again. */
  lemma LeaseFencing(t: Turn, limit: int, rest: seq<QueueOp>, token: Id, id: Id, op: QueueOp)
    requires t.g.HasIssued(token) && !Live(t.q, token)
    requires (op.Acking? || op.Releasing? || op.Beating?) && op.id == id && op.token == token
    ensures Step(Run(t, limit, rest), limit, op) == Run(t, limit, rest)
  {
    StaleTokenForever(t, limit, rest, token);
    assert !Holds(Run(t, limit, rest).q, id, token);
  }

  /** An accepted ack or release and a takeover each end the life of the token. */
  lemma TokenSpent(t: Turn, limit: int, op: QueueOp, id: Id, token: Id)
    requires Sound(t, limit) && Holds(t.q, id, token)
    requires
      || (op.Acking? && op.id == id && op.token == token)
      || (op.Releasing? && op.id == id && op.token == token)
      || (op.Claiming? && Expired(t.q.claimed[Slot(t.q.claimed, id)], op.worker, t.g.Tick(op.wall).last))
    ensures !Live(Step(t, limit, op).q, token)
  {
    if op.Claiming? {
      ClaimKeepsClaims(t, op.worker, op.leaseMs, limit, op.wall);
      var q' := Step(t, limit, op).q;
      forall k | 0 <= k < |q'.claimed|
        ensures q'.claimed[k].token != token
      {
        assert q'.claimed[k] in q'.claimed;
      }
    }
  }

  // ---------------------------------------------------------- no lost wake-up

  predicate DueBy(runAt: Option<int>, asked: Option<int>) {
    runAt.None? || (asked.Some? && runAt.value <= asked.value)
  }

  predicate Wakes(x: Item, runId: Id, asked: Option<int>) {
    x.deadAt.None? && x.payload.runId == runId && DueBy(x.runAt, asked)
  }

  /** A live waiting command will wake the run no later than asked. */
  ghost predicate Awake(q: Queue, runId: Id, asked: Option<int>) {
    exists i :: 0 <= i < |q.waiting| && Wakes(q.waiting[i], runId, asked)
  }

  /** The step hands a command of the run to a worker or deletes the run's commands. */
  predicate Disturbs(t: Turn, limit: int, op: QueueOp, runId: Id) {
    match op
    case Claiming(worker, leaseMs, wall) =>
      var grant := Claim(t, worker, leaseMs, limit, wall).grant;
      grant.Some? && grant.value.command.runId == runId
    case DroppingRuns(runs) => runId in runs
    case DroppingWaiting(dropped) => dropped == runId
    case _ => false
  }

  predicate Undisturbed(t: Turn, limit: int, ops: seq<QueueOp>, runId: Id)
    decreases |ops|
  {
    ops == [] ||
    (Undisturbed(t, limit, ops[..|ops| - 1], runId) &&
     !Disturbs(Run(t, limit, ops[..|ops| - 1]), limit, ops[|ops| - 1], runId))
  }

  lemma EnqueueWakes(t: Turn, command: Command, runAt: Option<int>, wall: int)
    ensures Awake(EnqueueContinue(t, command, runAt, wall).q, command.runId, runAt)
  {
    var w := t.q.waiting;
    var i := First(w, LiveFor(command.runId));
    assert Wakes(EnqueueContinue(t, command, runAt, wall).q.waiting[i], command.runId, runAt);
  }

  lemma {:induction false} ReclaimAppends(t: Turn, k: nat, worker: Worker, date: int, limit: int, wall: int)
    requires k <= |t.q.claimed|
    ensures t.q.waiting <= Reclaim(t, k, worker, date, limit, wall).q.waiting
    decreases |t.q.claimed| - k
  {
    if k < |t.q.claimed| {
      var c := t.q.claimed[k];
      if !Expired(c, worker, date) {
        ReclaimAppends(t, k + 1, worker, date, limit, wall);
      } else {
        var error := if c.item.lastError.Some? then c.item.lastError.value else LEASE_EXPIRED;
        var d := CountFailure(c.item, error, limit, t.g, wall);
        ReclaimAppends(Turn(Requeued(t.q, k, d.item), d.g), k, worker, date, limit, wall);
      }
    }
  }

  lemma ClaimKeepsAwake(t: Turn, limit: int, worker: Worker, leaseMs: int, wall: int, runId: Id, asked: Option<int>)
    requires Awake(t.q, runId, asked) && !Disturbs(t, limit, Claiming(worker, leaseMs, wall), runId)
    ensures Awake(Claim(t, worker, leaseMs, limit, wall).t.q, runId, asked)
  {
    var i :| 0 <= i < |t.q.waiting| && Wakes(t.q.waiting[i], runId, asked);
    var g := t.g.Tick(wall);
    ReclaimAppends(Turn(t.q, g), 0, worker, g.last, limit, wall);
    var r := TakenOver(t, worker, limit, wall);
    assert r.q.waiting[i] == t.q.waiting[i];
    var p := Pick(r.q.waiting, worker, r.g.last);
    if p < |r.q.waiting| {
      assert p != i;
      var w' := Taken(r, p, worker, leaseMs, wall).t.q.waiting;
      assert w'[if i < p then i else i - 1] == t.q.waiting[i];
    }
  }

  lemma SparedKeepsAwake(w: seq<Item>, doomed: Doomed, runId: Id, asked: Option<int>, i: nat)
    requires i < |w| && Wakes(w[i], runId, asked) && !IsDoomed(doomed, w[i])
    ensures exists j :: 0 <= j < |Spared(w, doomed)| && Wakes(Spared(w, doomed)[j], runId, asked)
  {
    SparedMembers(w, doomed);
    assert w[i] in Spared(w, doomed);
    var j :| 0 <= j < |Spared(w, doomed)| && Spared(w, doomed)[j] == w[i];
  }

  lemma StepKeepsAwake(t: Turn, limit: int, op: QueueOp, runId: Id, asked: Option<int>)
    requires Awake(t.q, runId, asked) && !Disturbs(t, limit, op, runId)
    ensures Awake(Step(t, limit, op).q, runId, asked)
  {
    var w, q' := t.q.waiting, Step(t, limit, op).q;
    var i :| 0 <= i < |w| && Wakes(w[i], runId, asked);
    match op
    case Claiming(worker, leaseMs, wall) => ClaimKeepsAwake(t, limit, worker, leaseMs, wall, runId, asked);
    case Enqueuing(command, runAt, wall) =>
      if command.ContinueRun? && First(w, LiveFor(command.runId)) == |w| {
        assert q'.waiting[i] == w[i];
      } else {
        assert Wakes(q'.waiting[i], runId, asked);
      }
    case Dispatching(_, _, _) => assert q'.waiting[i] == w[i];
    case Releasing(id, token, _, _) => assert q'.waiting[i] == w[i];
    case Sweeping(date) => SparedKeepsAwake(w, DeadBefore(date), runId, asked, i);
    case DroppingRuns(runs) => SparedKeepsAwake(w, OfRuns(runs), runId, asked, i);
    case DroppingWaiting(dropped) => SparedKeepsAwake(w, OfRuns({dropped}), runId, asked, i);
    case _ => assert q'.waiting[i] == w[i];
  }

  /** No lost wake-up: after an enqueue for a run, and until one of the run's
      commands is handed out or the run is deleted, a live waiting command for
      the run is due no later than asked, whatever else happens to the queue. */
  lemma {:induction false} NoLostWakeUp(t: Turn, limit: int, command: Command, runAt: Option<int>, wall: int, rest: seq<QueueOp>)
    requires Undisturbed(EnqueueContinue(t, command, runAt, wall), limit, rest, command.runId)
    ensures Awake(Run(EnqueueContinue(t, command, runAt, wall), limit, rest).q, command.runId, runAt)
    decreases |rest|
  {
    if rest == [] {
      EnqueueWakes(t, command, runAt, wall);
    } else {
      var before := rest[..|rest| - 1];
      NoLostWakeUp(t, limit, command, runAt, wall, before);
      StepKeepsAwake(Run(EnqueueContinue(t, command, runAt, wall), limit, before), limit, rest[|rest| - 1], command.runId, runAt);
    }
  }
}
