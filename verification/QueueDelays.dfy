/** A command waits for the time it was given, over whole runs. */
module QueueDelays {
  import opened Identifiers
  import opened Commands
  import opened QueueSpec
  import opened QueueInvariants
  import opened QueueTheorems
  import opened QueueClaims
  import opened DeadLetters
  import opened QueueCourses

  /** Nobody has claimed the command, and if it is still there it is due at that time. */
  predicate Rests(q: Queue, id: Id, due: int) {
    Unclaimed(q, id) && (Look(q, id).Some? ==> Look(q, id).value.runAt == Some(due))
  }

  /** Where no claim has the id, no slot does. */
  lemma NoSlot(claimed: seq<Lease>, id: Id)
    requires forall c :: c in claimed ==> c.item.id != id
    ensures Slot(claimed, id) == |claimed|
  {
    forall k | 0 <= k < |claimed|
      ensures claimed[k].item.id != id
    {
      assert claimed[k] in claimed;
    }
  }

  lemma NoClaim(claimed: seq<Lease>, id: Id)
    requires Slot(claimed, id) == |claimed|
    ensures forall c :: c in claimed ==> c.item.id != id
  {
    forall c | c in claimed
      ensures c.item.id != id
    {
      var k :| 0 <= k < |claimed| && claimed[k] == c;
    }
  }

  /** Only a poll that grants a command claims it. */
  lemma PollLeavesUnclaimed(t: Turn, limit: int, op: QueueOp, id: Id)
    requires Unclaimed(t.q, id) && op.Claiming?
    requires var grant := Claim(t, op.worker, op.leaseMs, limit, op.wall).grant; grant.Some? ==> grant.value.id != id
    ensures Unclaimed(Step(t, limit, op).q, id)
  {
    NoClaim(t.q.claimed, id);
    ClaimKeepsClaims(t, op.worker, op.leaseMs, limit, op.wall);
    NoSlot(Step(t, limit, op).q.claimed, id);
  }

  lemma OthersLeaveUnclaimed(t: Turn, limit: int, op: QueueOp, id: Id)
    requires Unclaimed(t.q, id) && !op.Claiming?
    ensures Unclaimed(Step(t, limit, op).q, id)
  {
    NoClaim(t.q.claimed, id);
    ClaimsOnlyShrink(t, limit, op);
    forall c | c in Step(t, limit, op).q.claimed
      ensures c.item.id != id
    {
      var d :| d in t.q.claimed && d.item == c.item;
    }
    NoSlot(Step(t, limit, op).q.claimed, id);
  }

  lemma ClaimsOnlyShrink(t: Turn, limit: int, op: QueueOp)
    requires !op.Claiming?
    ensures forall c :: c in Step(t, limit, op).q.claimed ==> exists d :: d in t.q.claimed && d.item == c.item
  {
    if op.DroppingRuns? {
      SparedClaimsMembers(t.q.claimed, op.runs);
    }
  }

  /** A poll before the due time grants another command or none. */
  lemma PollRests(t: Turn, limit: int, op: QueueOp, id: Id, due: int)
    requires Sound(t, limit) && Rests(t.q, id, due) && op.Claiming? && Step(t, limit, op).g.last < due
    ensures Unclaimed(Step(t, limit, op).q, id)
  {
    if Look(t.q, id).Some? {
      NotYetDue(t, limit, First(t.q.waiting, WithId(id)), op.worker, op.leaseMs, op.wall);
    } else {
      OtherAddsNone(t, limit, op, id);
      GrantIsNext(t, op.worker, op.leaseMs, limit, op.wall);
      NobodyNext(t, limit, op, id);
    }
    PollLeavesUnclaimed(t, limit, op, id);
  }

  lemma NobodyNext(t: Turn, limit: int, op: QueueOp, id: Id)
    requires op.Claiming? && Look(Step(t, limit, op).q, id).None?
    ensures var grant := Claim(t, op.worker, op.leaseMs, limit, op.wall).grant; grant.Some? ==> grant.value.id != id
  {
    ClaimKeepsClaims(t, op.worker, op.leaseMs, limit, op.wall);
    var claimed := Step(t, limit, op).q.claimed;
    NoClaim(claimed, id);
    if Claim(t, op.worker, op.leaseMs, limit, op.wall).grant.Some? {
      assert claimed[|claimed| - 1] in claimed;
    }
  }

  /** A step that neither merges into a resting command nor revives it leaves it at rest. */
  lemma StepRests(t: Turn, limit: int, op: QueueOp, id: Id, due: int)
    requires Sound(t, limit) && t.g.HasIssued(id) && Rests(t.q, id, due)
    requires !Merges(t, op, id) && !Revives(t, op, id) && Step(t, limit, op).g.last < due
    ensures Rests(Step(t, limit, op).q, id, due)
  {
    if op.Claiming? {
      PollRests(t, limit, op, id, due);
    } else {
      OthersLeaveUnclaimed(t, limit, op, id);
    }
    if Look(t.q, id).Some? {
      CommandTurns(t, limit, op, id);
    } else {
      StepFollows(t, limit, op, id);
    }
  }

  /** No step of the run merges into the command or revives it. */
  predicate LeftAlone(t: Turn, limit: int, ops: seq<QueueOp>, id: Id)
    decreases |ops|
  {
    ops == [] ||
    var before, op := ops[..|ops| - 1], ops[|ops| - 1];
    LeftAlone(t, limit, before, id) && !Merges(Run(t, limit, before), op, id) && !Revives(Run(t, limit, before), op, id)
  }

  /** In a queue that takes no continuations there are no merges. */
  lemma {:induction false} UnmergedIsLeftAlone(t: Turn, limit: int, ops: seq<QueueOp>, id: Id)
    requires (forall i | 0 <= i < |ops| :: !ops[i].Enqueuing?) && Unrevived(t, limit, ops, id)
    ensures LeftAlone(t, limit, ops, id)
    decreases |ops|
  {
    if ops != [] {
      UnmergedIsLeftAlone(t, limit, ops[..|ops| - 1], id);
    }
  }

  /** Until the clock reaches its due time a waiting command is claimed by
      nobody, over every run that neither merges into it nor revives it. */
  lemma {:induction false} RestsUntilDue(t: Turn, limit: int, ops: seq<QueueOp>, id: Id, due: int)
    requires Sound(t, limit) && t.g.HasIssued(id) && Rests(t.q, id, due)
    requires LeftAlone(t, limit, ops, id) && Run(t, limit, ops).g.last < due
    ensures Rests(Run(t, limit, ops).q, id, due) && t.g.AtMost(Run(t, limit, ops).g)
    decreases |ops|
  {
    if ops != [] {
      var before := ops[..|ops| - 1];
      StepAdvances(Run(t, limit, before), limit, ops[|ops| - 1]);
      RestsUntilDue(t, limit, before, id, due);
      RunSound(t, limit, before);
      StepRests(Run(t, limit, before), limit, ops[|ops| - 1], id, due);
    }
  }

  /** A new command waits for the time it was given: it is filed, and claimed by
      nobody before that time, over every run that leaves it alone. */
  lemma FiledWaits(t: Turn, limit: int, op: QueueOp, t': Turn, ops: seq<QueueOp>)
    requires Sound(t, limit) && Files(t, op) && op.runAt.Some? && t' == Step(t, limit, op)
    requires LeftAlone(t', limit, ops, FiledId(t, op)) && Run(t', limit, ops).g.last < op.runAt.value
    ensures Look(t'.q, FiledId(t, op)).Some? && AsAsked(Look(t'.q, FiledId(t, op)).value, op.command, op.runAt)
    ensures Rests(Run(t', limit, ops).q, FiledId(t, op), op.runAt.value)
  {
    Filed(t, limit, op);
    StepSound(t, limit, op);
    RestsUntilDue(t', limit, ops, FiledId(t, op), op.runAt.value);
  }

  /** A command merged into a waiting one is due at the earlier of the two times
      and waits for it; it waits for none only if one of them was none. */
  lemma MergedWaits(t: Turn, limit: int, op: QueueOp, id: Id, t': Turn, ops: seq<QueueOp>)
    requires Sound(t, limit) && Merges(t, op, id) && t' == Step(t, limit, op)
    ensures Look(t.q, id).Some? && Look(t'.q, id).Some? && Look(t'.q, id).value.payload == op.command
    ensures Sooner(Look(t'.q, id).value.runAt, Look(t.q, id).value.runAt, op.runAt)
    ensures
      var due := Look(t'.q, id).value.runAt;
      due.Some? && LeftAlone(t', limit, ops, id) && Run(t', limit, ops).g.last < due.value
      ==> Rests(Run(t', limit, ops).q, id, due.value)
  {
    var x := t.q.waiting[First(t.q.waiting, LiveFor(op.command.runId))];
    LookFinds(t.q, x);
    CommandTurns(t, limit, op, id);
    StepSound(t, limit, op);
    WaitingIsUnclaimed(t, limit, x);
    OthersLeaveUnclaimed(t, limit, op, id);
    var due := Look(t'.q, id).value.runAt;
    if due.Some? && LeftAlone(t', limit, ops, id) && Run(t', limit, ops).g.last < due.value {
      RestsUntilDue(t', limit, ops, id, due.value);
    }
  }

  lemma WaitingIsUnclaimed(t: Turn, limit: int, x: Item)
    requires Sound(t, limit) && x in t.q.waiting
    ensures Unclaimed(t.q, x.id)
  {
    var i :| 0 <= i < |t.q.waiting| && t.q.waiting[i] == x;
    forall k | 0 <= k < |t.q.claimed|
      ensures t.q.claimed[k].item.id != x.id
    {
      assert !Clash(t.q.waiting[i], t.q.claimed[k].item);
    }
  }

  /** When a claimed command is due again if it is released now. */
  function DueAgain(q: Queue, id: Id, options: ReleaseOptions, wall: int): int {
    var k := Slot(q.claimed, id);
    if k < |q.claimed| then wall + ReleaseDelay(q.claimed[k].item, options) else wall
  }

  lemma ReleasedRests(t: Turn, limit: int, id: Id, token: Id, options: ReleaseOptions, wall: int)
    requires Sound(t, limit) && Holds(t.q, id, token)
    ensures
      var t' := Release(t, id, token, options, limit, wall);
      Sound(t', limit) && t'.g.HasIssued(id) && Rests(t'.q, id, DueAgain(t.q, id, options, wall))
  {
    ReleaseSound(t, limit, id, token, options, wall);
    CommandTurns(t, limit, Releasing(id, token, options, wall), id);
    var t' := Release(t, id, token, options, limit, wall);
    WaitingIsUnclaimed(t', limit, t'.q.waiting[|t.q.waiting|]);
  }

  /** A released command is claimed by nobody before its back-off is over,
      over every run that leaves it alone. */
  lemma ReleasedWaits(t: Turn, limit: int, id: Id, token: Id, options: ReleaseOptions, wall: int, t': Turn, ops: seq<QueueOp>)
    requires Sound(t, limit) && Holds(t.q, id, token) && t' == Release(t, id, token, options, limit, wall)
    requires LeftAlone(t', limit, ops, id) && Run(t', limit, ops).g.last < DueAgain(t.q, id, options, wall)
    ensures Rests(Run(t', limit, ops).q, id, DueAgain(t.q, id, options, wall))
  {
    ReleasedRests(t, limit, id, token, options, wall);
    RestsUntilDue(t', limit, ops, id, DueAgain(t.q, id, options, wall));
  }
}
