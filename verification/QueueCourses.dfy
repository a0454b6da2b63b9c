/** What one step makes of one command, field by field: how it enters the
    queue, what changes it, and what removes it. */
module QueueCourses {
  import opened Identifiers
  import opened Commands
  import opened QueueSpec
  import opened QueueInvariants
  import opened QueueTheorems
  import opened QueueClaims
  import opened DeadLetters

  // ------------------------------------------------- what a step may do to it

  predicate Unclaimed(q: Queue, id: Id) {
    Slot(q.claimed, id) == |q.claimed|
  }

  /** The step merges its command into this one, the first live one of the run. */
  predicate Merges(t: Turn, op: QueueOp, id: Id) {
    && op.Enqueuing? && op.command.ContinueRun?
    && var i := First(t.q.waiting, LiveFor(op.command.runId));
       i < |t.q.waiting| && t.q.waiting[i].id == id
  }

  predicate Releases(t: Turn, op: QueueOp, id: Id) {
    op.Releasing? && op.id == id && Holds(t.q, id, op.token)
  }

  /** The poll takes over the command's expired claim. */
  predicate TakesBack(t: Turn, op: QueueOp, id: Id) {
    op.Claiming? && LosesDelivery(t, op, id)
  }

  predicate Reaps(t: Turn, op: QueueOp, id: Id) {
    op.Reaping? && op.id == id && First(t.q.waiting, UnreapedDead(id)) < |t.q.waiting|
  }

  /** The step removes command `x` from the queue. */
  predicate Removes(t: Turn, op: QueueOp, x: Item) {
    match op
    case Acking(id, token) => id == x.id && Holds(t.q, id, token)
    case Sweeping(date) => Unclaimed(t.q, x.id) && x.deadAt.Some? && x.deadAt.value < date
    case DroppingRuns(runs) => x.payload.runId in runs
    case DroppingWaiting(runId) => Unclaimed(t.q, x.id) && x.payload.runId == runId
    case _ => false
  }

  /** The earlier of two due times, where none means at once. */
  predicate Sooner(due: Option<int>, a: Option<int>, b: Option<int>) {
    if a.None? || b.None? then due.None?
    else due.Some? && due.value <= a.value && due.value <= b.value && (due == a || due == b)
  }

  /** What a step makes of command `x` if it stays. */
  predicate Becomes(t: Turn, limit: int, op: QueueOp, x: Item, y: Item) {
    var now := Step(t, limit, op).g.last;
    && y.id == x.id && y.createdAt == x.createdAt
    && if Merges(t, op, x.id) then y == x.(payload := op.command, runAt := y.runAt) && Sooner(y.runAt, x.runAt, op.runAt)
       else if Releases(t, op, x.id) then
         && y.runAt == Some(op.wall + ReleaseDelay(x, op.options))
         && if op.options.Plain() then y == x.(runAt := y.runAt)
            else Lost(x, y, if op.options.error.Some? then op.options.error.value else NO_IMPLEMENTATION, limit, t.g.last, now)
       else if TakesBack(t, op, x.id) then TakenBack(x, y, limit, t.g.last, now)
       else if Revives(t, op, x.id) then
         && y.payload == x.payload && y.runAt == None && y.deliveryCount == 0
         && y.lastError == None && y.deadAt == None && y.reapedAt == None
       else if Reaps(t, op, x.id) then
         y == x.(reapedAt := y.reapedAt) && y.reapedAt.Some? && t.g.last < y.reapedAt.value <= now
       else y == x
  }

  /** What became of a command: gone if the step removes it, otherwise still there. */
  predicate Turns(t: Turn, limit: int, op: QueueOp, id: Id)
    requires Look(t.q, id).Some?
  {
    var x, after := Look(t.q, id).value, Look(Step(t, limit, op).q, id);
    if Removes(t, op, x) then after.None? else after.Some? && Becomes(t, limit, op, x, after.value)
  }

  // ------------------------------------------------------------ kind by kind

  lemma EnqueueTurns(t: Turn, limit: int, op: QueueOp, id: Id)
    requires Sound(t, limit) && t.g.HasIssued(id) && Look(t.q, id).Some? && op.Enqueuing?
    ensures Turns(t, limit, op, id)
  {
    if op.command.ContinueRun? {
      StepSound(t, limit, op);
      LookHas(t.q, id);
      var i := First(t.q.waiting, LiveFor(op.command.runId));
      if i == |t.q.waiting| {
        PushFollows(t, limit, "continue", op.command, op.runAt, op.wall, id);
      } else {
        var x := t.q.waiting[i];
        RewriteFollows(t, limit, i, x.(payload := op.command, runAt := Earliest(x.runAt, op.runAt)), t.g, id);
        LookFinds(t.q, x);
      }
    }
  }

  lemma DispatchTurns(t: Turn, limit: int, op: QueueOp, id: Id)
    requires Sound(t, limit) && t.g.HasIssued(id) && Look(t.q, id).Some? && op.Dispatching?
    ensures Turns(t, limit, op, id)
  {
    StepSound(t, limit, op);
    LookHas(t.q, id);
    if !op.command.ContinueRun? && !AttemptCommandExists(t.q, op.command.attemptId) {
      PushFollows(t, limit, if op.command.ActivityAttempt? then "activity-command" else "task-command", op.command, op.runAt, op.wall, id);
    }
  }

  lemma PollTurns(t: Turn, limit: int, op: QueueOp, id: Id)
    requires Sound(t, limit) && Look(t.q, id).Some? && op.Claiming?
    ensures Turns(t, limit, op, id)
  {
    var g := t.g.Tick(op.wall);
    LaterSound(t, g, limit);
    ReclaimLook(Turn(t.q, g), 0, op.worker, g.last, limit, op.wall, id);
    TakenOverSound(t, limit, op.worker, op.wall);
    LookHas(t.q, id);
    var r := TakenOver(t, op.worker, limit, op.wall);
    var i := Pick(r.q.waiting, op.worker, r.g.last);
    if i < |r.q.waiting| {
      TakenLook(r, i, op.worker, op.leaseMs, op.wall, id);
    }
  }

  /** What the release of a command makes of it. */
  lemma ReleasedBecomes(x: Item, options: ReleaseOptions, limit: int, g: Source, wall: int)
    ensures
      var d := ReleasedItem(x, options, limit, g, wall);
      var error := if options.error.Some? then options.error.value else NO_IMPLEMENTATION;
      && SameTag(x, d.item) && d.item.runAt == Some(wall + ReleaseDelay(x, options))
      && if options.Plain() then d.item == x.(runAt := d.item.runAt) else Lost(x, d.item, error, limit, g.last, d.g.last)
  {
  }

  lemma ReleaseTurns(t: Turn, limit: int, op: QueueOp, id: Id)
    requires Sound(t, limit) && Look(t.q, id).Some? && op.Releasing?
    ensures Turns(t, limit, op, id)
  {
    LookHas(t.q, id);
    if Holds(t.q, op.id, op.token) {
      var k := Slot(t.q.claimed, op.id);
      ReleasedBecomes(t.q.claimed[k].item, op.options, limit, t.g, op.wall);
      RequeuedLook(t.q, k, ReleasedItem(t.q.claimed[k].item, op.options, limit, t.g, op.wall).item, id);
    }
  }

  /** Reaping and requeueing rewrite one dead waiting command, or nothing. */
  lemma RewriteLook(t: Turn, limit: int, op: QueueOp, i: nat, id: Id)
    requires Sound(t, limit) && (op.Reaping? || op.Requeuing?)
    requires i == First(t.q.waiting, if op.Reaping? then UnreapedDead(op.id) else DeadWith(op.id))
    ensures
      var t' := Step(t, limit, op);
      if i < |t.q.waiting| && op.id == id
      then |t'.q.waiting| == |t.q.waiting| && Look(t.q, id) == Some(t.q.waiting[i]) && Look(t'.q, id) == Some(t'.q.waiting[i])
      else Look(t'.q, id) == Look(t.q, id)
  {
    StepSound(t, limit, op);
    if i < |t.q.waiting| {
      var t' := Step(t, limit, op);
      RewriteFollows(t, limit, i, t'.q.waiting[i], t'.g, id);
      LookFinds(t.q, t.q.waiting[i]);
    }
  }

  lemma ReapTurns(t: Turn, limit: int, op: QueueOp, id: Id)
    requires Sound(t, limit) && Look(t.q, id).Some? && op.Reaping?
    ensures Turns(t, limit, op, id)
  {
    LookHas(t.q, id);
    RewriteLook(t, limit, op, First(t.q.waiting, UnreapedDead(op.id)), id);
  }

  lemma RequeueTurns(t: Turn, limit: int, op: QueueOp, id: Id)
    requires Sound(t, limit) && Look(t.q, id).Some? && op.Requeuing?
    ensures Turns(t, limit, op, id)
  {
    LookHas(t.q, id);
    RewriteLook(t, limit, op, First(t.q.waiting, DeadWith(op.id)), id);
  }

  /** An entry that no step removed is still found. */
  lemma StillThere(q: Queue, q': Queue, id: Id)
    requires Apart(q') && Look(q, id).Some?
    requires Unclaimed(q, id) ==> Look(q, id).value in q'.waiting
    requires !Unclaimed(q, id) ==> q.claimed[Slot(q.claimed, id)] in q'.claimed
    ensures Look(q', id) == Look(q, id)
  {
    var x := Look(q, id).value;
    if Unclaimed(q, id) {
      var i :| 0 <= i < |q'.waiting| && q'.waiting[i] == x;
    } else {
      var k :| 0 <= k < |q'.claimed| && q'.claimed[k] == q.claimed[Slot(q.claimed, id)];
    }
    assert Has(q', x);
    LookFinds(q', x);
  }

  lemma AckTurns(t: Turn, limit: int, op: QueueOp, id: Id)
    requires Sound(t, limit) && Look(t.q, id).Some? && op.Acking?
    ensures Turns(t, limit, op, id)
  {
    StepSound(t, limit, op);
    LookHas(t.q, id);
    if Holds(t.q, op.id, op.token) {
      var k := Slot(t.q.claimed, op.id);
      if op.id == id {
        AckedGone(t, limit, op.token, id);
      } else {
        var s := Slot(t.q.claimed, id);
        if s < |t.q.claimed| {
          assert RemoveAt(t.q.claimed, k)[if s < k then s else s - 1] == t.q.claimed[s];
        }
        StillThere(t.q, Step(t, limit, op).q, id);
      }
    }
  }

  lemma AckedGone(t: Turn, limit: int, token: Id, id: Id)
    requires Sound(t, limit) && Holds(t.q, id, token)
    ensures Look(Ack(t.q, id, token), id).None?
  {
    var k, q' := Slot(t.q.claimed, id), Ack(t.q, id, token);
    forall j | 0 <= j < |q'.claimed|
      ensures q'.claimed[j].item.id != id
    {
      var i := if j < k then j else j + 1;
      assert q'.claimed[j] == t.q.claimed[i];
      assert if i < k then !Clash(t.q.claimed[i].item, t.q.claimed[k].item) else !Clash(t.q.claimed[k].item, t.q.claimed[i].item);
    }
    forall j | 0 <= j < |q'.waiting|
      ensures q'.waiting[j].id != id
    {
      assert !Clash(t.q.waiting[j], t.q.claimed[k].item);
    }
  }

  predicate Clears(op: QueueOp) {
    op.Sweeping? || op.DroppingRuns? || op.DroppingWaiting?
  }

  lemma Cleared(t: Turn, limit: int, op: QueueOp)
    requires Clears(op)
    ensures
      var q' := Step(t, limit, op).q;
      && (forall x :: x in q'.waiting <==>
           x in t.q.waiting && (match op
                                case Sweeping(date) => x.deadAt.None? || date <= x.deadAt.value
                                case DroppingRuns(runs) => x.payload.runId !in runs
                                case _ => x.payload.runId != op.runId))
      && (forall c :: c in q'.claimed <==> c in t.q.claimed && !(op.DroppingRuns? && c.item.payload.runId in op.runs))
  {
    match op
    case Sweeping(date) => SparedMembers(t.q.waiting, DeadBefore(date));
    case DroppingRuns(runs) =>
      SparedMembers(t.q.waiting, OfRuns(runs));
      SparedClaimsMembers(t.q.claimed, runs);
    case DroppingWaiting(runId) => SparedMembers(t.q.waiting, OfRuns({runId}));
  }

  lemma ClearTurns(t: Turn, limit: int, op: QueueOp, id: Id)
    requires Sound(t, limit) && Look(t.q, id).Some? && Clears(op)
    ensures Turns(t, limit, op, id)
  {
    StepSound(t, limit, op);
    Cleared(t, limit, op);
    LookHas(t.q, id);
    if Removes(t, op, Look(t.q, id).value) {
      ClearedIsGone(t, limit, op, id);
    } else {
      StillThere(t.q, Step(t, limit, op).q, id);
    }
  }

  lemma ClearedIsGone(t: Turn, limit: int, op: QueueOp, id: Id)
    requires Sound(t, limit) && Look(t.q, id).Some? && Clears(op) && Removes(t, op, Look(t.q, id).value)
    ensures Look(Step(t, limit, op).q, id).None?
  {
    RemovalFollows(t, limit, op, id);
    Cleared(t, limit, op);
    LookHas(Step(t, limit, op).q, id);
  }

  // ----------------------------------------------------------- new commands

  /** The step files a new command: a continuation of a run without a live
      waiting one, or the only command of an attempt. */
  predicate Files(t: Turn, op: QueueOp) {
    match op
    case Enqueuing(command, _, _) =>
      command.ContinueRun? && forall x | x in t.q.waiting && x.deadAt.None? :: x.payload.runId != command.runId
    case Dispatching(command, _, _) =>
      && !command.ContinueRun?
      && (forall x | x in t.q.waiting :: x.payload.ContinueRun? || x.payload.attemptId != command.attemptId)
      && (forall c | c in t.q.claimed :: c.item.payload.ContinueRun? || c.item.payload.attemptId != command.attemptId)
    case _ => false
  }

  function FiledId(t: Turn, op: QueueOp): Id
    requires op.Enqueuing? || op.Dispatching?
  {
    t.g.Fresh(match op.command
              case ContinueRun(_, _) => "continue"
              case ActivityAttempt(_, _, _, _, _) => "activity-command"
              case TaskAttempt(_, _, _, _, _) => "task-command")
  }

  /** The command as it was asked for: alive, undelivered and due when asked. */
  predicate AsAsked(x: Item, command: Command, runAt: Option<int>) {
    && x.payload == command && x.runAt == runAt && x.deliveryCount == 0
    && x.lastError == None && x.deadAt == None && x.reapedAt == None
  }

  /** Filing is pushing, and nothing else pushes. */
  lemma FilesIsPush(t: Turn, limit: int, op: QueueOp)
    requires op.Enqueuing? || op.Dispatching?
    ensures
      var t' := Step(t, limit, op);
      if Files(t, op)
      then && t'.g == t.g.Take().Tick(op.wall) && t'.q.claimed == t.q.claimed && |t'.q.waiting| == |t.q.waiting| + 1
           && var x := t'.q.waiting[|t.q.waiting|];
              && t'.q.waiting == t.q.waiting + [x]
              && x.id == FiledId(t, op) && AsAsked(x, op.command, op.runAt) && x.createdAt == t.g.Tick(op.wall).last
      else t'.g == t.g && t'.q.claimed == t.q.claimed && |t'.q.waiting| == |t.q.waiting|
  {
    if op.Enqueuing? {
      var i := First(t.q.waiting, LiveFor(op.command.runId));
      if i < |t.q.waiting| {
        assert t.q.waiting[i] in t.q.waiting;
      } else {
        assert forall x :: x in t.q.waiting ==> !Matches(LiveFor(op.command.runId), x);
      }
    } else if op.command.ContinueRun? {
    } else if AttemptCommandExists(t.q, op.command.attemptId) {
      if i :| 0 <= i < |t.q.waiting| && NamesAttempt(t.q.waiting[i], op.command.attemptId) {
        assert t.q.waiting[i] in t.q.waiting;
      } else {
        var k :| 0 <= k < |t.q.claimed| && NamesAttempt(t.q.claimed[k].item, op.command.attemptId);
        assert t.q.claimed[k] in t.q.claimed;
      }
    } else {
      assert forall x | x in t.q.waiting :: !NamesAttempt(x, op.command.attemptId);
      assert forall c | c in t.q.claimed :: !NamesAttempt(c.item, op.command.attemptId);
    }
  }

  /** A filed command is there as asked, waiting under the next id. */
  lemma Filed(t: Turn, limit: int, op: QueueOp)
    requires Sound(t, limit) && Files(t, op)
    ensures
      var t', id := Step(t, limit, op), FiledId(t, op);
      && Look(t.q, id).None? && Look(t'.q, id).Some? && AsAsked(Look(t'.q, id).value, op.command, op.runAt)
      && Unclaimed(t'.q, id) && t'.g.HasIssued(id)
  {
    FilesIsPush(t, limit, op);
    StepSound(t, limit, op);
    var t', id := Step(t, limit, op), FiledId(t, op);
    LookHas(t.q, id);
    LookFinds(t'.q, t'.q.waiting[|t.q.waiting|]);
  }

  lemma MergeAddsNone(t: Turn, limit: int, op: QueueOp, id: Id)
    requires Sound(t, limit) && Look(t.q, id).None? && (op.Enqueuing? || op.Dispatching?) && !Files(t, op)
    ensures Look(Step(t, limit, op).q, id).None?
  {
    FilesIsPush(t, limit, op);
    StepSound(t, limit, op);
    if op.Enqueuing? && op.command.ContinueRun? {
      var i := First(t.q.waiting, LiveFor(op.command.runId));
      var x := t.q.waiting[i];
      RewriteFollows(t, limit, i, x.(payload := op.command, runAt := Earliest(x.runAt, op.runAt)), t.g, id);
      LookFinds(t.q, x);
    }
  }

  lemma OtherAddsNone(t: Turn, limit: int, op: QueueOp, id: Id)
    requires Sound(t, limit) && Look(t.q, id).None? && !op.Enqueuing? && !op.Dispatching?
    ensures Look(Step(t, limit, op).q, id).None?
  {
    match op
    case Elapse(_) =>
    case Claiming(_, _, _) => ClaimFollows(t, limit, op, id);
    case Releasing(_, _, _, _) =>
      if Holds(t.q, op.id, op.token) {
        var k := Slot(t.q.claimed, op.id);
        LookHas(t.q, id);
        RequeuedLook(t.q, k, ReleasedItem(t.q.claimed[k].item, op.options, limit, t.g, op.wall).item, id);
      }
    case Beating(beaten, token, leaseMs, wall) => HeartbeatLook(t, beaten, token, leaseMs, wall, id);
    case Reaping(_, _) => RewriteLook(t, limit, op, First(t.q.waiting, UnreapedDead(op.id)), id);
    case Requeuing(_) => RewriteLook(t, limit, op, First(t.q.waiting, DeadWith(op.id)), id);
    case _ => RemovalFollows(t, limit, op, id);
  }

  /** No command enters the queue another way. */
  lemma OnlyFiled(t: Turn, limit: int, op: QueueOp, id: Id)
    requires Sound(t, limit) && Look(t.q, id).None? && Look(Step(t, limit, op).q, id).Some?
    ensures Files(t, op) && id == FiledId(t, op)
  {
    if !op.Enqueuing? && !op.Dispatching? {
      OtherAddsNone(t, limit, op, id);
    } else if !Files(t, op) {
      MergeAddsNone(t, limit, op, id);
    } else {
      FilesIsPush(t, limit, op);
      var q, q' := t.q, Step(t, limit, op).q;
      LookHas(q, id);
      LookHas(q', id);
      assert forall i | 0 <= i < |q.waiting| :: q'.waiting[i] == q.waiting[i] && Has(q, q.waiting[i]);
    }
  }

  /** One step removes a command exactly when it says so, and otherwise changes
      of it exactly what it says. */
  lemma CommandTurns(t: Turn, limit: int, op: QueueOp, id: Id)
    requires Sound(t, limit) && t.g.HasIssued(id) && Look(t.q, id).Some?
    ensures Turns(t, limit, op, id)
  {
    match op
    case Elapse(_) => LookHas(t.q, id);
    case Enqueuing(_, _, _) => EnqueueTurns(t, limit, op, id);
    case Dispatching(_, _, _) => DispatchTurns(t, limit, op, id);
    case Claiming(_, _, _) => PollTurns(t, limit, op, id);
    case Acking(_, _) => AckTurns(t, limit, op, id);
    case Releasing(_, _, _, _) => ReleaseTurns(t, limit, op, id);
    case Beating(beaten, token, leaseMs, wall) =>
      LookHas(t.q, id);
      HeartbeatLook(t, beaten, token, leaseMs, wall, id);
    case Reaping(_, _) => ReapTurns(t, limit, op, id);
    case Requeuing(_) => RequeueTurns(t, limit, op, id);
    case _ => ClearTurns(t, limit, op, id);
  }

  /** No step of the run removes the command. */
  predicate Unremoved(t: Turn, limit: int, ops: seq<QueueOp>, id: Id)
    decreases |ops|
  {
    ops == [] ||
    var before := ops[..|ops| - 1];
    var s := Run(t, limit, before);
    Unremoved(t, limit, before, id) && (Look(s.q, id).Some? ==> !Removes(s, ops[|ops| - 1], Look(s.q, id).value))
  }

  /** No command is lost: it stays, waiting or claimed, until an accepted ack, a
      deletion of its run or a sweep of the dead removes it. */
  lemma {:induction false} StaysUntilRemoved(t: Turn, limit: int, ops: seq<QueueOp>, id: Id)
    requires Sound(t, limit) && t.g.HasIssued(id) && Look(t.q, id).Some? && Unremoved(t, limit, ops, id)
    ensures t.g.AtMost(Run(t, limit, ops).g) && Look(Run(t, limit, ops).q, id).Some?
    ensures Look(Run(t, limit, ops).q, id).value.createdAt == Look(t.q, id).value.createdAt
    decreases |ops|
  {
    if ops != [] {
      var before, op := ops[..|ops| - 1], ops[|ops| - 1];
      StaysUntilRemoved(t, limit, before, id);
      RunSound(t, limit, before);
      StepAdvances(Run(t, limit, before), limit, op);
      CommandTurns(Run(t, limit, before), limit, op, id);
    }
  }
}
