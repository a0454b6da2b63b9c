/** What the rows and commands of the runtime say about the calls that were
    made, over whole runs of the runtime. */
module RuntimeCourses {
  import opened Identifiers
  import opened Commands
  import opened StoreSpec
  import opened RuntimeSpec
  import opened RuntimeProjections
  import opened RuntimeTheorems
  import RR = RuntimeRuns
  import SH = StoreHistory
  import SC = StoreCourses
  import Q = QueueSpec
  import QI = QueueInvariants
  import DL = DeadLetters
  import QC = QueueCourses
  import QD = QueueDelays
  import CL = ClaimLeases

  // --------------------------------------------------------------- attempts

  /** The run of the runtime holds an accepted settlement of the attempt. */
  predicate AcceptedCall(limit: int, ops: seq<Op>, id: Id, settlement: Settlement)
    decreases |ops|
  {
    ops != [] &&
    var n := |ops| - 1;
    || AcceptedCall(limit, ops[..n], id, settlement)
    || (ops[n].OnStore? && SC.Settles(Execute(INITIAL, limit, ops[..n]).s, ops[n].store, id) && ops[n].store.settlement == settlement)
  }

  lemma {:induction false} AcceptedAppend(t: StoreTurn, a: seq<StoreOp>, b: seq<StoreOp>, id: Id, settlement: Settlement)
    ensures SC.Accepted(t, a + b, id, settlement)
       <==> SC.Accepted(t, a, id, settlement) || SC.Accepted(StoreRun(t, a), b, id, settlement)
    decreases |b|
  {
    if b == [] {
      assert a + b == a;
    } else {
      var n := |b| - 1;
      assert (a + b)[..|a + b| - 1] == a + b[..n];
      AcceptedAppend(t, a, b[..n], id, settlement);
      SH.StoreRunAppend(t, a, b[..n]);
    }
  }

  lemma AcceptedOne(t: StoreTurn, op: StoreOp, id: Id, settlement: Settlement)
    ensures SC.Accepted(t, [op], id, settlement) <==> SC.Settles(t.s, op, id) && op.settlement == settlement
  {
    assert [op][..0] == [] && StoreRun(t, []) == t;
    assert !SC.Accepted(t, [], id, settlement);
  }

  lemma StepAccepts(st: State, limit: int, op: Op, id: Id, settlement: Settlement)
    ensures SC.Accepted(StoreTurn(st.s, st.g), StoreOps(st, limit, op), id, settlement)
       <==> op.OnStore? && SC.Settles(st.s, op.store, id) && op.store.settlement == settlement
  {
    var t, later := StoreTurn(st.s, st.g), Elapsing(Step(st, limit, op).g);
    AcceptedOne(t, later, id, settlement);
    if !Callable(op) {
    } else if op.OnStore? {
      AcceptedOne(t, op.store, id, settlement);
    } else if op.StartWorkflowRun? {
      var creating := CreatingRun(op.request, op.wall);
      AcceptedAppend(t, [creating], [later], id, settlement);
      AcceptedOne(t, creating, id, settlement);
      AcceptedOne(StoreRun(t, [creating]), later, id, settlement);
    } else if Doomed(st, op) != {} {
      AcceptedOne(t, Deleting(Doomed(st, op)), id, settlement);
    }
  }

  lemma {:induction false} AcceptedProjects(limit: int, ops: seq<Op>, id: Id, settlement: Settlement)
    ensures AcceptedCall(limit, ops, id, settlement)
       <==> SC.Accepted(StoreTurn(EMPTY_STORE, START), StoreTrace(INITIAL, limit, ops), id, settlement)
    decreases |ops|
  {
    if ops != [] {
      var before := ops[..|ops| - 1];
      AcceptedProjects(limit, before, id, settlement);
      RunProjects(INITIAL, limit, before);
      var mid := Execute(INITIAL, limit, before);
      AcceptedAppend(StoreTurn(EMPTY_STORE, START), StoreTrace(INITIAL, limit, before), StoreOps(mid, limit, ops[|ops| - 1]), id, settlement);
      StepAccepts(mid, limit, ops[|ops| - 1], id, settlement);
    }
  }

  ghost function AcceptedCalls(limit: int, ops: seq<Op>, id: Id): iset<Settlement> {
    iset settlement | AcceptedCall(limit, ops, id, settlement)
  }

  /** Over every run of the runtime: a stored attempt is completed with an
      output, or failed or timed out with an error, if and only if the run holds
      the accepted call that says so, and started if and only if it holds none. */
  lemma RuntimeAttemptsTellTheRun(limit: int, ops: seq<Op>, id: Id)
    requires id in Execute(INITIAL, limit, ops).s.attempts
    ensures SC.Tells(Execute(INITIAL, limit, ops).s.attempts[id], AcceptedCalls(limit, ops, id))
  {
    RunProjects(INITIAL, limit, ops);
    var start, trace := StoreTurn(EMPTY_STORE, START), StoreTrace(INITIAL, limit, ops);
    SC.AttemptsTellTheRun(START, trace, id);
    forall settlement
      ensures settlement in AcceptedCalls(limit, ops, id) <==> settlement in SC.Settlements(start, trace, id)
    {
      AcceptedProjects(limit, ops, id, settlement);
    }
    assert AcceptedCalls(limit, ops, id) == SC.Settlements(start, trace, id);
  }

  /** Every stored node and child of the runtime stands where the calls since
      its creation left it. */
  lemma RuntimeNodesTellTheRun(limit: int, ops: seq<Op>, node: NodeRef, child: ChildRef)
    ensures
      var s, start, trace := Execute(INITIAL, limit, ops).s, StoreTurn(EMPTY_STORE, START), StoreTrace(INITIAL, limit, ops);
      && (node in s.nodes ==> SC.NodeStands(s.nodes[node]) == SC.NodeCourse(start, trace, node))
      && (child in s.children ==> SC.ChildStands(s.children[child]) == SC.ChildCourse(start, trace, child))
  {
    RunProjects(INITIAL, limit, ops);
    var s, trace := Execute(INITIAL, limit, ops).s, StoreTrace(INITIAL, limit, ops);
    if node in s.nodes {
      SC.NodesTellTheRun(START, trace, node);
    }
    if child in s.children {
      SC.ChildrenTellTheRun(START, trace, child);
    }
  }

  // ------------------------------------------------- commands that must wait

  lemma {:induction false} CommandsNeverMerge(st: State, limit: int, ops: seq<Op>)
    ensures forall i | 0 <= i < |CommandTrace(st, limit, ops)| :: !CommandTrace(st, limit, ops)[i].Enqueuing?
  {
    if ops != [] {
      CommandsNeverMerge(st, limit, ops[..|ops| - 1]);
      StepNeverMerges(Execute(st, limit, ops[..|ops| - 1]), limit, ops[|ops| - 1]);
    }
  }

  lemma StepNeverMerges(st: State, limit: int, op: Op)
    ensures forall i | 0 <= i < |CommandOps(st, limit, op)| :: !CommandOps(st, limit, op)[i].Enqueuing?
  {
  }

  lemma UnrevivedIsLeftAlone(st: State, limit: int, ops: seq<Op>, id: Id)
    requires DL.Unrevived(Q.Turn(st.commands, st.g), limit, CommandTrace(st, limit, ops), id)
    ensures QD.LeftAlone(Q.Turn(st.commands, st.g), limit, CommandTrace(st, limit, ops), id)
  {
    CommandsNeverMerge(st, limit, ops);
    QD.UnmergedIsLeftAlone(Q.Turn(st.commands, st.g), limit, CommandTrace(st, limit, ops), id);
  }

  lemma ReleaseIsStep(st: State, limit: int, id: Id, token: Id, options: Q.ReleaseOptions, wall: int)
    ensures
      var st' := Step(st, limit, OnCommands(Q.Releasing(id, token, options, wall)));
      Q.Turn(st'.commands, st'.g) == Q.Release(Q.Turn(st.commands, st.g), id, token, options, limit, wall)
  {
  }

  /** A released attempt command is claimed by nobody before its back-off is
      over, whatever the runtime does, unless it is dead and somebody requeues it. */
  lemma ReleasedCommandWaits(limit: int, before: seq<Op>, mid: State, id: Id, token: Id, options: Q.ReleaseOptions, wall: int,
                             released: State, after: seq<Op>)
    requires mid == Execute(INITIAL, limit, before) && Q.Holds(mid.commands, id, token)
    requires released == Step(mid, limit, OnCommands(Q.Releasing(id, token, options, wall)))
    requires DL.Unrevived(Q.Turn(released.commands, released.g), limit, CommandTrace(released, limit, after), id)
    requires Execute(released, limit, after).g.last < QD.DueAgain(mid.commands, id, options, wall)
    ensures QD.Rests(Execute(released, limit, after).commands, id, QD.DueAgain(mid.commands, id, options, wall))
  {
    ReachableStatesSound(limit, before);
    ReleaseIsStep(mid, limit, id, token, options, wall);
    RunProjects(released, limit, after);
    UnrevivedIsLeftAlone(released, limit, after, id);
    QD.ReleasedWaits(Q.Turn(mid.commands, mid.g), limit, id, token, options, wall, Q.Turn(released.commands, released.g),
                     CommandTrace(released, limit, after));
  }

  /** A dispatched attempt is filed as asked, if it has no command yet, and
      claimed by nobody before its time, whatever the runtime does, unless it is
      dead and somebody requeues it. */
  lemma DispatchedCommandWaits(limit: int, before: seq<Op>, mid: State, o: Q.QueueOp, dispatched: State, after: seq<Op>)
    requires mid == Execute(INITIAL, limit, before) && o.Dispatching? && QC.Files(Q.Turn(mid.commands, mid.g), o) && o.runAt.Some?
    requires dispatched == Step(mid, limit, OnCommands(o))
    requires
      var id := QC.FiledId(Q.Turn(mid.commands, mid.g), o);
      DL.Unrevived(Q.Turn(dispatched.commands, dispatched.g), limit, CommandTrace(dispatched, limit, after), id)
    requires Execute(dispatched, limit, after).g.last < o.runAt.value
    ensures
      var id := QC.FiledId(Q.Turn(mid.commands, mid.g), o);
      && DL.Look(dispatched.commands, id).Some? && QC.AsAsked(DL.Look(dispatched.commands, id).value, o.command, o.runAt)
      && QD.Rests(Execute(dispatched, limit, after).commands, id, o.runAt.value)
  {
    var t, id := Q.Turn(mid.commands, mid.g), QC.FiledId(Q.Turn(mid.commands, mid.g), o);
    ReachableStatesSound(limit, before);
    RunProjects(dispatched, limit, after);
    UnrevivedIsLeftAlone(dispatched, limit, after, id);
    QD.FiledWaits(t, limit, o, Q.Turn(dispatched.commands, dispatched.g), CommandTrace(dispatched, limit, after));
  }

  /** A new continuation is filed as asked, and claimed by nobody before its
      time, whatever the runtime does, unless another is merged into it or it is
      dead and somebody requeues it. */
  lemma EnqueuedContinueWaits(limit: int, before: seq<Op>, mid: State, o: Q.QueueOp, enqueued: State, after: seq<Op>)
    requires mid == Execute(INITIAL, limit, before) && o.Enqueuing? && QC.Files(Q.Turn(mid.continues, mid.g), o) && o.runAt.Some?
    requires enqueued == Step(mid, limit, OnContinues(o))
    requires
      var id := QC.FiledId(Q.Turn(mid.continues, mid.g), o);
      QD.LeftAlone(Q.Turn(enqueued.continues, enqueued.g), limit, ContinueTrace(enqueued, limit, after), id)
    requires Execute(enqueued, limit, after).g.last < o.runAt.value
    ensures
      var id := QC.FiledId(Q.Turn(mid.continues, mid.g), o);
      && DL.Look(enqueued.continues, id).Some? && QC.AsAsked(DL.Look(enqueued.continues, id).value, o.command, o.runAt)
      && QD.Rests(Execute(enqueued, limit, after).continues, id, o.runAt.value)
  {
    ReachableStatesSound(limit, before);
    RunProjects(enqueued, limit, after);
    QD.FiledWaits(Q.Turn(mid.continues, mid.g), limit, o, Q.Turn(enqueued.continues, enqueued.g), ContinueTrace(enqueued, limit, after));
  }

  /** Starting a run is enqueueing its first continuation once the run is stored. */
  lemma StartFiles(limit: int, before: seq<Op>, mid: State, input: CreateRunInput, startAt: int, wall: int, started: State)
    requires mid == Execute(INITIAL, limit, before) && Judge(mid.s, input).Admitted?
    requires forall x | x in mid.continues.waiting && x.deadAt.None? :: x.payload.runId != NewRunId(mid.g)
    requires started == Step(mid, limit, StartWorkflowRun(input, Some(startAt), wall))
    ensures
      var t := Q.Turn(mid.continues, CreateRun(StoreTurn(mid.s, mid.g), input, wall).g);
      var o := Q.Enqueuing(ContinueRun(NewRunId(mid.g), input.workflowName), Some(startAt), wall);
      && QI.Sound(t, limit) && QC.Files(t, o) && QC.FiledId(t, o) == mid.g.Take().Fresh("continue")
      && Q.Turn(started.continues, started.g) == Q.Step(t, limit, o)
  {
    ReachableStatesSound(limit, before);
    QI.LaterSound(Q.Turn(mid.continues, mid.g), CreateRun(StoreTurn(mid.s, mid.g), input, wall).g, limit);
    RR.StartEnqueues(mid, limit, input, Some(startAt), wall);
  }

  /** A started workflow run is continued by nobody before the time it was given,
      unless a continuation of it was waiting before it existed, or one is merged
      into its own later, or its own is dead and somebody requeues it. */
  lemma StartedRunWaits(limit: int, before: seq<Op>, mid: State, input: CreateRunInput, startAt: int, wall: int, started: State, id: Id, after: seq<Op>)
    requires mid == Execute(INITIAL, limit, before) && Judge(mid.s, input).Admitted?
    requires forall x | x in mid.continues.waiting && x.deadAt.None? :: x.payload.runId != NewRunId(mid.g)
    requires started == Step(mid, limit, StartWorkflowRun(input, Some(startAt), wall)) && id == mid.g.Take().Fresh("continue")
    requires QD.LeftAlone(Q.Turn(started.continues, started.g), limit, ContinueTrace(started, limit, after), id)
    requires Execute(started, limit, after).g.last < startAt
    ensures
      && DL.Look(started.continues, id).Some?
      && QC.AsAsked(DL.Look(started.continues, id).value, ContinueRun(NewRunId(mid.g), input.workflowName), Some(startAt))
      && QD.Rests(Execute(started, limit, after).continues, id, startAt)
  {
    StartFiles(limit, before, mid, input, startAt, wall, started);
    RunProjects(started, limit, after);
    QD.FiledWaits(Q.Turn(mid.continues, CreateRun(StoreTurn(mid.s, mid.g), input, wall).g), limit,
                  Q.Enqueuing(ContinueRun(NewRunId(mid.g), input.workflowName), Some(startAt), wall),
                  Q.Turn(started.continues, started.g), ContinueTrace(started, limit, after));
  }

  // ---------------------------------------------------------- claims that last

  /** Until the clock reaches its expiry a claim in either queue stays as it is,
      whatever the runtime does, as long as its claimer leaves it alone and its
      run is not deleted. */
  lemma RuntimeClaimHeld(st: State, limit: int, ops: seq<Op>, c: Q.Lease)
    requires Execute(st, limit, ops).g.last < c.expiresAt
    ensures c in st.continues.claimed
            && (forall i | 0 <= i < |ContinueTrace(st, limit, ops)| :: CL.SparesClaim(ContinueTrace(st, limit, ops)[i], c))
            ==> c in Execute(st, limit, ops).continues.claimed
    ensures c in st.commands.claimed
            && (forall i | 0 <= i < |CommandTrace(st, limit, ops)| :: CL.SparesClaim(CommandTrace(st, limit, ops)[i], c))
            ==> c in Execute(st, limit, ops).commands.claimed
  {
    RunProjects(st, limit, ops);
    if c in st.continues.claimed && forall i | 0 <= i < |ContinueTrace(st, limit, ops)| :: CL.SparesClaim(ContinueTrace(st, limit, ops)[i], c) {
      CL.ClaimHeldUntilExpiry(Q.Turn(st.continues, st.g), limit, ContinueTrace(st, limit, ops), c);
    }
    if c in st.commands.claimed && forall i | 0 <= i < |CommandTrace(st, limit, ops)| :: CL.SparesClaim(CommandTrace(st, limit, ops)[i], c) {
      CL.ClaimHeldUntilExpiry(Q.Turn(st.commands, st.g), limit, CommandTrace(st, limit, ops), c);
    }
  }
}
