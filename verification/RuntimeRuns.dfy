/** Theorems about what lasts over whole runs of the runtime. */
module RuntimeRuns {
  import opened Identifiers
  import opened Commands
  import opened StoreSpec
  import opened StoreHistory
  import opened StoreAttempts
  import opened RunLeases
  import opened RuntimeSpec
  import opened RuntimeProjections
  import opened RuntimeTheorems
  import Q = QueueSpec
  import QI = QueueInvariants
  import QT = QueueTheorems
  import DL = DeadLetters
  import opened StoreTransitions
  import SI = StoreIdempotency

  lemma {:induction false} ExecuteAppend(st: State, limit: int, a: seq<Op>, b: seq<Op>)
    ensures Execute(st, limit, a + b) == Execute(Execute(st, limit, a), limit, b)
    decreases |b|
  {
    if b == [] {
      assert a + b == a;
    } else {
      ExecuteAppend(st, limit, a, b[..|b| - 1]);
      assert (a + b)[..|a + b| - 1] == a + b[..|b| - 1];
    }
  }

  /** Once an attempt completed it is the same row for as long as it exists, and
      its child is completed with the same output and still points at it. */
  lemma CompletedAttemptForever(limit: int, before: seq<Op>, after: seq<Op>, id: Id)
    requires DisciplinedRun(INITIAL, limit, before + after)
    requires
      var mid := Execute(INITIAL, limit, before);
      id in mid.s.attempts && mid.s.attempts[id].status.Completed?
    ensures
      var mid, end := Execute(INITIAL, limit, before), Execute(INITIAL, limit, before + after);
      id in end.s.attempts ==>
        && end.s.attempts[id] == mid.s.attempts[id]
        && end.s.attempts[id].child in end.s.children
        && var child := end.s.children[end.s.attempts[id].child];
           child.status.Completed? && child.output == mid.s.attempts[id].output && child.currentAttemptId == Some(id)
  {
    var mid, end := Execute(INITIAL, limit, before), Execute(INITIAL, limit, before + after);
    ExecuteAppend(INITIAL, limit, before, after);
    RunProjects(INITIAL, limit, before);
    RunProjects(mid, limit, after);
    AttemptIdsAlwaysIssued(StoreTurn(EMPTY_STORE, START), StoreTrace(INITIAL, limit, before));
    SettledAttemptForever(StoreTurn(mid.s, mid.g), StoreTrace(mid, limit, after), id);
    AttemptFencing(limit, before + after);
    if id in end.s.attempts {
      assert Owned(end.s, id) && Crowned(end.s, id);
    }
  }

  /** No lost wake-up in the whole runtime, whatever the store, the other queue
      and other workers do in between. */
  lemma RuntimeNeverLosesWakeUp(st: State, limit: int, command: Command, runAt: Option<int>, wall: int, rest: seq<Op>)
    requires command.ContinueRun?
    requires
      var woken := Step(st, limit, OnContinues(Q.Enqueuing(command, runAt, wall)));
      QT.Undisturbed(Q.Turn(woken.continues, woken.g), limit, ContinueTrace(woken, limit, rest), command.runId)
    ensures
      var woken := Step(st, limit, OnContinues(Q.Enqueuing(command, runAt, wall)));
      QT.Awake(Execute(woken, limit, rest).continues, command.runId, runAt)
  {
    var woken := Step(st, limit, OnContinues(Q.Enqueuing(command, runAt, wall)));
    RunProjects(woken, limit, rest);
    QT.NoLostWakeUp(Q.Turn(st.continues, st.g), limit, command, runAt, wall, ContinueTrace(woken, limit, rest));
  }

  /** A workflow run that was started stays due for its first continuation
      until a worker takes it or the run is deleted. */
  lemma StartedRunIsContinued(st: State, limit: int, input: CreateRunInput, startAt: Option<int>, wall: int, rest: seq<Op>)
    requires Judge(st.s, input).Admitted?
    requires
      var started := Step(st, limit, StartWorkflowRun(input, startAt, wall));
      QT.Undisturbed(Q.Turn(started.continues, started.g), limit, ContinueTrace(started, limit, rest), NewRunId(st.g))
    ensures
      var started := Step(st, limit, StartWorkflowRun(input, startAt, wall));
      && NewRunId(st.g) in started.s.runs
      && QT.Awake(Execute(started, limit, rest).continues, NewRunId(st.g), startAt)
  {
    var started := Step(st, limit, StartWorkflowRun(input, startAt, wall));
    var t := CreateRun(StoreTurn(st.s, st.g), input, wall);
    StartEnqueues(st, limit, input, startAt, wall);
    RunProjects(started, limit, rest);
    QT.NoLostWakeUp(Q.Turn(st.continues, t.g), limit, ContinueRun(NewRunId(st.g), input.workflowName), startAt, wall,
                    ContinueTrace(started, limit, rest));
  }

  lemma StartEnqueues(st: State, limit: int, input: CreateRunInput, startAt: Option<int>, wall: int)
    requires Judge(st.s, input).Admitted?
    ensures
      var started, t := Step(st, limit, StartWorkflowRun(input, startAt, wall)), CreateRun(StoreTurn(st.s, st.g), input, wall);
      var command := ContinueRun(NewRunId(st.g), input.workflowName);
      && NewRunId(st.g) in started.s.runs
      && Q.Turn(started.continues, started.g) == Q.EnqueueContinue(Q.Turn(st.continues, t.g), command, startAt, wall)
  {
  }

  /** A terminal run is the same row in every later state that still has it. */
  lemma RuntimeTerminalRunForever(limit: int, before: seq<Op>, after: seq<Op>, id: Id)
    requires
      var mid := Execute(INITIAL, limit, before);
      id in mid.s.runs && TerminalRun(mid.s.runs[id].status)
    ensures
      var mid, end := Execute(INITIAL, limit, before), Execute(INITIAL, limit, before + after);
      id in end.s.runs ==> end.s.runs[id] == mid.s.runs[id]
  {
    var mid := Execute(INITIAL, limit, before);
    ExecuteAppend(INITIAL, limit, before, after);
    ReachableStatesSound(limit, before);
    RunProjects(mid, limit, after);
    TerminalRunForever(StoreTurn(mid.s, mid.g), StoreTrace(mid, limit, after), id);
  }

  /** A terminal node is the same row for as long as it stays stored. */
  lemma RuntimeTerminalNodeForever(st: State, limit: int, ops: seq<Op>, at: NodeRef)
    requires NodeStays(StoreTurn(st.s, st.g), StoreTrace(st, limit, ops), at)
    requires at in st.s.nodes && TerminalNode(st.s.nodes[at].status)
    ensures at in Execute(st, limit, ops).s.nodes && Execute(st, limit, ops).s.nodes[at] == st.s.nodes[at]
  {
    RunProjects(st, limit, ops);
    TerminalNodeForever(StoreTurn(st.s, st.g), StoreTrace(st, limit, ops), at);
  }

  /** And so is a terminal child. */
  lemma RuntimeTerminalChildForever(st: State, limit: int, ops: seq<Op>, at: ChildRef)
    requires ChildStays(StoreTurn(st.s, st.g), StoreTrace(st, limit, ops), at)
    requires at in st.s.children && TerminalNode(st.s.children[at].status)
    ensures at in Execute(st, limit, ops).s.children && Execute(st, limit, ops).s.children[at] == st.s.children[at]
  {
    RunProjects(st, limit, ops);
    TerminalChildForever(StoreTurn(st.s, st.g), StoreTrace(st, limit, ops), at);
  }

  lemma StaleContinueToken(st: State, limit: int, rest: seq<Op>, token: Id, o: Q.QueueOp)
    requires st.g.HasIssued(token) && Presents(o, token) && !QT.Live(st.continues, token)
    ensures Step(Execute(st, limit, rest), limit, OnContinues(o)) == Execute(st, limit, rest)
  {
    RunProjects(st, limit, rest);
    QT.LeaseFencing(Q.Turn(st.continues, st.g), limit, ContinueTrace(st, limit, rest), token, o.id, o);
  }

  lemma StaleCommandToken(st: State, limit: int, rest: seq<Op>, token: Id, o: Q.QueueOp)
    requires st.g.HasIssued(token) && Presents(o, token) && !QT.Live(st.commands, token)
    ensures Step(Execute(st, limit, rest), limit, OnCommands(o)) == Execute(st, limit, rest)
  {
    RunProjects(st, limit, rest);
    QT.LeaseFencing(Q.Turn(st.commands, st.g), limit, CommandTrace(st, limit, rest), token, o.id, o);
  }

  lemma StaleLeaseToken(st: State, limit: int, rest: seq<Op>, token: Id, o: StoreOp)
    requires st.g.HasIssued(token) && PresentsLease(o, token) && !LeaseLive(st.s, token)
    ensures Step(Execute(st, limit, rest), limit, OnStore(o)) == Execute(st, limit, rest)
  {
    RunProjects(st, limit, rest);
    LeaseTokenFencing(StoreTurn(st.s, st.g), StoreTrace(st, limit, rest), token, o.runId,
                      if o.RenewingLease? then o.leaseMs else 0, if o.RenewingLease? then o.wall else 0);
  }

  /** A token that was handed out and no longer holds a claim or a run lease
      never holds one again, so every later call that presents it leaves the
      whole runtime as it was. */
  lemma StaleTokensPowerless(st: State, limit: int, rest: seq<Op>, token: Id, op: Op)
    requires st.g.HasIssued(token)
    requires
      || (op.OnContinues? && Presents(op.queue, token) && !QT.Live(st.continues, token))
      || (op.OnCommands? && Presents(op.queue, token) && !QT.Live(st.commands, token))
      || (op.OnStore? && PresentsLease(op.store, token) && !LeaseLive(st.s, token))
    ensures Step(Execute(st, limit, rest), limit, op) == Execute(st, limit, rest)
  {
    match op
    case OnContinues(o) => StaleContinueToken(st, limit, rest, token, o);
    case OnCommands(o) => StaleCommandToken(st, limit, rest, token, o);
    case OnStore(o) => StaleLeaseToken(st, limit, rest, token, o);
    case _ =>
  }

  predicate Presents(o: Q.QueueOp, token: Id) {
    (o.Acking? || o.Releasing? || o.Beating?) && o.token == token
  }

  predicate PresentsLease(o: StoreOp, token: Id) {
    (o.RenewingLease? || o.ReleasingLease?) && o.token == token
  }

  /** Dead-lettering is exact in both queues of the runtime. */
  lemma RuntimeDeadLettersExactly(limit: int, ops: seq<Op>, id: Id)
    ensures
      var st, empty := Execute(INITIAL, limit, ops), Q.Turn(Q.EMPTY, START);
      && (DL.Look(st.continues, id).Some? ==>
            var lost := DL.LostDeliveries(empty, limit, ContinueTrace(INITIAL, limit, ops), id);
            && DL.Look(st.continues, id).value.deliveryCount == lost <= QI.Threshold(limit)
            && (DL.Look(st.continues, id).value.deadAt.Some? <==> lost == QI.Threshold(limit)))
      && (DL.Look(st.commands, id).Some? ==>
            var lost := DL.LostDeliveries(empty, limit, CommandTrace(INITIAL, limit, ops), id);
            && DL.Look(st.commands, id).value.deliveryCount == lost <= QI.Threshold(limit)
            && (DL.Look(st.commands, id).value.deadAt.Some? <==> lost == QI.Threshold(limit)))
  {
    RunProjects(INITIAL, limit, ops);
    DL.DeadLetteringIsExact(START, limit, ContinueTrace(INITIAL, limit, ops), id);
    DL.DeadLetteringIsExact(START, limit, CommandTrace(INITIAL, limit, ops), id);
  }

  /** A dead command of either queue is not claimed and stays dead, over every
      run of the runtime in which nobody requeues it. */
  lemma RuntimeDeadUntilRequeued(limit: int, before: seq<Op>, after: seq<Op>, id: Id)
    requires Execute(INITIAL, limit, before).g.HasIssued(id)
    ensures
      var mid, end := Execute(INITIAL, limit, before), Execute(INITIAL, limit, before + after);
      && (DL.DeadOrGone(mid.continues, id)
          && DL.Unrevived(Q.Turn(mid.continues, mid.g), limit, ContinueTrace(mid, limit, after), id)
          ==> DL.DeadOrGone(end.continues, id))
      && (DL.DeadOrGone(mid.commands, id)
          && DL.Unrevived(Q.Turn(mid.commands, mid.g), limit, CommandTrace(mid, limit, after), id)
          ==> DL.DeadOrGone(end.commands, id))
  {
    var mid := Execute(INITIAL, limit, before);
    ExecuteAppend(INITIAL, limit, before, after);
    ReachableStatesSound(limit, before);
    RunProjects(mid, limit, after);
    var continues, commands := Q.Turn(mid.continues, mid.g), Q.Turn(mid.commands, mid.g);
    if DL.DeadOrGone(mid.continues, id) && DL.Unrevived(continues, limit, ContinueTrace(mid, limit, after), id) {
      DL.DeadUntilRequeued(continues, limit, ContinueTrace(mid, limit, after), id);
    }
    if DL.DeadOrGone(mid.commands, id) && DL.Unrevived(commands, limit, CommandTrace(mid, limit, after), id) {
      DL.DeadUntilRequeued(commands, limit, CommandTrace(mid, limit, after), id);
    }
  }

  // ------------------------------------------------- what the store promises

  /** Until the clock reaches its expiry a run lease stays with its token,
      whatever the rest of the runtime does. */
  lemma RuntimeLeaseHeldUntilExpiry(st: State, limit: int, ops: seq<Op>, runId: Id, token: Id)
    requires HoldsLease(st.s, runId, token) && forall i | 0 <= i < |StoreTrace(st, limit, ops)| :: Spares(StoreTrace(st, limit, ops)[i], runId, token)
    requires Execute(st, limit, ops).g.last < st.s.leases[runId].expiresAt
    ensures runId in Execute(st, limit, ops).s.leases && Execute(st, limit, ops).s.leases[runId] == st.s.leases[runId]
  {
    RunProjects(st, limit, ops);
    LeaseHeldUntilExpiry(StoreTurn(st.s, st.g), StoreTrace(st, limit, ops), runId, token);
  }

  /** A request for a run, repeated at any later time, gets the same run as long
      as that run exists, and changes nothing. */
  lemma RuntimeCreationIsIdempotent(limit: int, before: seq<Op>, input: CreateRunInput, wall: int, after: seq<Op>, wall': int)
    requires input.idempotencyKey.Some? && Judge(Execute(INITIAL, limit, before).s, input).Admitted?
    ensures
      var id, created := NewRunId(Execute(INITIAL, limit, before).g), OnStore(CreatingRun(input, wall));
      var later := Execute(INITIAL, limit, before + [created] + after);
      id in later.s.runs ==>
        && CreateOutcome(StoreTurn(later.s, later.g), input) == Returned(id)
        && Step(later, limit, OnStore(CreatingRun(input, wall'))) == later
  {
    var op := OnStore(CreatingRun(input, wall));
    var mid := Execute(INITIAL, limit, before + [op]);
    assert (before + [op])[..|before|] == before;
    ExecuteAppend(INITIAL, limit, before + [op], after);
    RunProjects(INITIAL, limit, before);
    RunProjects(INITIAL, limit, before + [op]);
    RunProjects(mid, limit, after);
    SI.CreationIsIdempotent(START, StoreTrace(INITIAL, limit, before), input, wall, StoreTrace(mid, limit, after), wall');
  }

  lemma OtherStepsKeepStatuses(st: State, limit: int, op: Op)
    requires !op.OnStore?
    ensures forall at :: at in st.s.nodes && at in Step(st, limit, op).s.nodes ==> Step(st, limit, op).s.nodes[at] == st.s.nodes[at]
    ensures forall at :: at in st.s.children && at in Step(st, limit, op).s.children ==>
              Step(st, limit, op).s.children[at] == st.s.children[at]
  {
  }

  /** From every reachable state every step moves nodes and children along the table. */
  lemma RuntimeStatusesAlwaysLegal(limit: int, ops: seq<Op>, op: Op)
    ensures
      var st := Execute(INITIAL, limit, ops);
      var s, s' := st.s, Step(st, limit, op).s;
      && (forall at :: at in s.nodes && at in s'.nodes ==> Legal(s.nodes[at].status, s'.nodes[at].status))
      && (forall at :: at in s.children && at in s'.children ==> Legal(s.children[at].status, s'.children[at].status))
  {
    var st := Execute(INITIAL, limit, ops);
    if op.OnStore? {
      RunProjects(INITIAL, limit, ops);
      StatusesAlwaysLegal(START, StoreTrace(INITIAL, limit, ops), op.store);
    } else {
      OtherStepsKeepStatuses(st, limit, op);
    }
  }
}
