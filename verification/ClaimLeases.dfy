/** A claimed command stays with its claimer until its lease runs out, over
    whole runs of a queue. */
module ClaimLeases {
  import opened Identifiers
  import opened Commands
  import opened QueueSpec
  import opened QueueInvariants
  import opened QueueTheorems

  /** The claimer itself does nothing with the claim, and the run stays. */
  predicate SparesClaim(op: QueueOp, c: Lease) {
    && !((op.Acking? || op.Releasing? || op.Beating?) && op.token == c.token)
    && !(op.DroppingRuns? && c.item.payload.runId in op.runs)
  }

  /** The claim of another token is at another index. */
  lemma OtherClaim(q: Queue, c: Lease, id: Id, token: Id)
    requires c in q.claimed && Holds(q, id, token) && token != c.token
    ensures c in RemoveAt(q.claimed, Slot(q.claimed, id))
  {
    var k, j := Slot(q.claimed, id), IndexOf(q.claimed, c);
    assert RemoveAt(q.claimed, k)[if j < k then j else j - 1] == c;
  }

  ghost function IndexOf(claimed: seq<Lease>, c: Lease): (j: nat)
    requires c in claimed
    ensures j < |claimed| && claimed[j] == c
  {
    var j :| 0 <= j < |claimed| && claimed[j] == c;
    j
  }

  lemma BeatKeepsOthers(t: Turn, id: Id, token: Id, leaseMs: int, wall: int, c: Lease)
    requires c in t.q.claimed && token != c.token
    ensures c in Heartbeat(t, id, token, leaseMs, wall).q.claimed
  {
    if Holds(t.q, id, token) {
      var j := IndexOf(t.q.claimed, c);
      assert Heartbeat(t, id, token, leaseMs, wall).q.claimed[j] == c;
    }
  }

  lemma ClaimStays(t: Turn, limit: int, op: QueueOp, c: Lease)
    requires c in t.q.claimed && SparesClaim(op, c) && Step(t, limit, op).g.last < c.expiresAt
    ensures c in Step(t, limit, op).q.claimed
  {
    match op
    case Claiming(worker, leaseMs, wall) => PollSpares(t, limit, op, c);
    case Acking(id, token) => if Holds(t.q, id, token) { OtherClaim(t.q, c, id, token); }
    case Releasing(id, token, _, _) => if Holds(t.q, id, token) { OtherClaim(t.q, c, id, token); }
    case Beating(id, token, leaseMs, wall) => BeatKeepsOthers(t, id, token, leaseMs, wall, c);
    case DroppingRuns(runs) => SparedClaimsMembers(t.q.claimed, runs);
    case _ =>
  }

  lemma PollSpares(t: Turn, limit: int, op: QueueOp, c: Lease)
    requires c in t.q.claimed && op.Claiming? && Step(t, limit, op).g.last < c.expiresAt
    ensures c in Step(t, limit, op).q.claimed
  {
    ClaimKeepsClaims(t, op.worker, op.leaseMs, limit, op.wall);
    PollReadsClockFirst(t, limit, op);
  }

  lemma PollReadsClockFirst(t: Turn, limit: int, op: QueueOp)
    requires op.Claiming?
    ensures t.g.Tick(op.wall).last <= Step(t, limit, op).g.last
  {
    var g := t.g.Tick(op.wall);
    ReclaimKeepsClaims(Turn(t.q, g), 0, op.worker, g.last, limit, op.wall);
  }

  /** Mutual exclusion: until the clock reaches its expiry a claim stays as it
      is, whatever other workers do. */
  lemma {:induction false} ClaimHeldUntilExpiry(t: Turn, limit: int, ops: seq<QueueOp>, c: Lease)
    requires c in t.q.claimed && forall i | 0 <= i < |ops| :: SparesClaim(ops[i], c)
    requires Run(t, limit, ops).g.last < c.expiresAt
    ensures c in Run(t, limit, ops).q.claimed
    decreases |ops|
  {
    if ops != [] {
      var before := ops[..|ops| - 1];
      StepAdvances(Run(t, limit, before), limit, ops[|ops| - 1]);
      ClaimHeldUntilExpiry(t, limit, before, c);
      ClaimStays(Run(t, limit, before), limit, ops[|ops| - 1], c);
    }
  }

  /** The claim outlasts the run if its claimer leaves it alone and the clock stays before the date. */
  ghost predicate HeldBefore(t: Turn, limit: int, ops: seq<QueueOp>, c: Lease, date: int) {
    (forall i | 0 <= i < |ops| :: SparesClaim(ops[i], c)) && Run(t, limit, ops).g.last < date ==> c in Run(t, limit, ops).q.claimed
  }

  /** A granted command is claimed, alive, under a token that was never handed
      out, and nobody else gets it for the length of the lease. */
  lemma GrantedClaimHeld(t: Turn, limit: int, op: QueueOp, grant: Grant, t': Turn, ops: seq<QueueOp>)
    requires op.Claiming? && t' == Step(t, limit, op)
    requires Claim(t, op.worker, op.leaseMs, limit, op.wall).grant == Some(grant)
    ensures !t.g.HasIssued(grant.token) && t'.g.HasIssued(grant.token)
    ensures
      exists c :: c in t'.q.claimed && c.token == grant.token && c.item.deadAt == None
        && c.item.id == grant.id && c.item.payload == grant.command && HeldBefore(t', limit, ops, c, t'.g.last + op.leaseMs)
  {
    ClaimKeepsClaims(t, op.worker, op.leaseMs, limit, op.wall);
    var c := t'.q.claimed[|t'.q.claimed| - 1];
    if (forall i | 0 <= i < |ops| :: SparesClaim(ops[i], c)) && Run(t', limit, ops).g.last < t'.g.last + op.leaseMs {
      ClaimHeldUntilExpiry(t', limit, ops, c);
    }
    assert c in t'.q.claimed && HeldBefore(t', limit, ops, c, t'.g.last + op.leaseMs);
  }

  /** So is a command whose claimer sent a heartbeat, from the heartbeat on. */
  lemma BeatenClaimHeld(t: Turn, limit: int, op: QueueOp, t': Turn, ops: seq<QueueOp>)
    requires op.Beating? && t' == Step(t, limit, op) && Holds(t.q, op.id, op.token)
    ensures
      exists c :: c in t'.q.claimed && c.token == op.token && c.item == t.q.claimed[Slot(t.q.claimed, op.id)].item
        && HeldBefore(t', limit, ops, c, t'.g.last + op.leaseMs)
  {
    var c := t'.q.claimed[Slot(t.q.claimed, op.id)];
    if (forall i | 0 <= i < |ops| :: SparesClaim(ops[i], c)) && Run(t', limit, ops).g.last < t'.g.last + op.leaseMs {
      ClaimHeldUntilExpiry(t', limit, ops, c);
    }
    assert c in t'.q.claimed && HeldBefore(t', limit, ops, c, t'.g.last + op.leaseMs);
  }
}
