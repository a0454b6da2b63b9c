/** The whole runtime as one state machine: the store and both command queues
    over one id counter and one clock. Every API call is one atomic step. */
module RuntimeSpec {
  import opened Identifiers
  import opened Commands
  import opened StoreSpec
  import opened RunFamilies
  import Q = QueueSpec

  datatype State = State(s: Store, g: Source, continues: Q.Queue, commands: Q.Queue)

  const INITIAL := State(EMPTY_STORE, START, Q.EMPTY, Q.EMPTY)

  datatype Op =
    | OnStore(store: StoreOp)
    | OnContinues(queue: Q.QueueOp)
    | OnCommands(queue: Q.QueueOp)
    | DeleteRun(id: Id)
    | Prune(roots: set<Id>, olderThan: int)
    | MarkReaped(id: Id, wall: int)
    | RequeueDead(id: Id)
    | StartWorkflowRun(request: CreateRunInput, startAt: Option<int>, wall: int)

  /** The calls a client can make: deletion only through the pruner, and each
      executor only its own operations. */
  predicate Callable(op: Op) {
    match op
    case OnStore(o) => !o.Elapsing? && !o.Deleting?
    case OnContinues(o) =>
      || (o.Enqueuing? && o.command.ContinueRun?)
      || (o.Claiming? && o.worker.Coordinator?)
      || o.Acking? || o.Releasing?
    case OnCommands(o) =>
      || (o.Dispatching? && !o.command.ContinueRun?)
      || (o.Claiming? && o.worker.Executor?)
      || o.Acking? || o.Releasing? || o.Beating? || o.DroppingWaiting?
    case _ => true
  }

  function DeleteTrees(st: State, doomed: set<Id>): State {
    if doomed == {} then st
    else st.(s := DeleteRuns(st.s, doomed),
             continues := Q.DropRuns(st.continues, doomed),
             commands := Q.DropRuns(st.commands, doomed))
  }

  /** The runs a deletion of `id` would take along. */
  function FamilyOf(s: Store, id: Id): set<Id> {
    Family(s.runs, ParentsAndRoots, {id})
  }

  /** A root run whose whole family is terminal may be deleted. */
  predicate Deletable(s: Store, id: Id) {
    && id in s.runs
    && s.runs[id].parentRunId.None?
    && forall member :: member in FamilyOf(s, id) ==> member in s.runs && TerminalRun(s.runs[member].status)
  }

  function PrunedFamily(s: Store, roots: set<Id>): set<Id> {
    Family(s.runs, Parents, roots)
  }

  /** What pruning may select: old terminal runs without a parent. */
  predicate Prunable(s: Store, roots: set<Id>, olderThan: int) {
    forall id :: id in roots ==>
      id in s.runs && s.runs[id].parentRunId.None? && TerminalRun(s.runs[id].status) && s.runs[id].updatedAt < olderThan
  }

  function SweepDead(st: State, olderThan: int): State {
    st.(continues := Q.SweepDead(st.continues, olderThan), commands := Q.SweepDead(st.commands, olderThan))
  }

  function OnContinuesTurn(st: State, t: Q.Turn): State {
    st.(continues := t.q, g := t.g)
  }

  function OnCommandsTurn(st: State, t: Q.Turn): State {
    st.(commands := t.q, g := t.g)
  }

  function ContinueCommand(s: Store, id: Id): Command
    requires id in s.runs
  {
    ContinueRun(id, s.runs[id].workflowName)
  }

  function Started(st: State, input: CreateRunInput, startAt: Option<int>, wall: int): State {
    if !Judge(st.s, input).Admitted? then st
    else
      var t := CreateRun(StoreTurn(st.s, st.g), input, wall);
      var command := ContinueCommand(t.s, NewRunId(st.g));
      OnContinuesTurn(st.(s := t.s), Q.EnqueueContinue(Q.Turn(st.continues, t.g), command, startAt, wall))
  }

  function Step(st: State, limit: int, op: Op): State {
    if !Callable(op) then st
    else
      match op
      case OnStore(o) =>
        var t := StoreStep(StoreTurn(st.s, st.g), o);
        st.(s := t.s, g := t.g)
      case OnContinues(o) => OnContinuesTurn(st, Q.Step(Q.Turn(st.continues, st.g), limit, o))
      case OnCommands(o) => OnCommandsTurn(st, Q.Step(Q.Turn(st.commands, st.g), limit, o))
      case DeleteRun(id) => if Deletable(st.s, id) then DeleteTrees(st, FamilyOf(st.s, id)) else st
      case Prune(roots, olderThan) =>
        if Prunable(st.s, roots, olderThan)
        then SweepDead(DeleteTrees(st, PrunedFamily(st.s, roots)), olderThan) else st
      case MarkReaped(id, wall) =>
        if Q.First(st.continues.waiting, Q.UnreapedDead(id)) < |st.continues.waiting|
        then OnContinuesTurn(st, Q.MarkReaped(Q.Turn(st.continues, st.g), id, wall))
        else OnCommandsTurn(st, Q.MarkReaped(Q.Turn(st.commands, st.g), id, wall))
      case RequeueDead(id) =>
        if Q.First(st.continues.waiting, Q.DeadWith(id)) < |st.continues.waiting|
        then st.(continues := Q.RequeueDead(st.continues, id))
        else st.(commands := Q.RequeueDead(st.commands, id))
      case StartWorkflowRun(input, startAt, wall) => Started(st, input, startAt, wall)
  }

  function Execute(st: State, limit: int, ops: seq<Op>): State {
    if ops == [] then st else Step(Execute(st, limit, ops[..|ops| - 1]), limit, ops[|ops| - 1])
  }

  // ------------------------------------------ what a step is for each component

  /** The deletion a step performs, empty for all other steps. */
  function Doomed(st: State, op: Op): set<Id> {
    if op.DeleteRun? && Deletable(st.s, op.id) then FamilyOf(st.s, op.id)
    else if op.Prune? && Prunable(st.s, op.roots, op.olderThan) then PrunedFamily(st.s, op.roots)
    else {}
  }

  function StoreOps(st: State, limit: int, op: Op): seq<StoreOp> {
    var later := [Elapsing(Step(st, limit, op).g)];
    if !Callable(op) then []
    else if op.OnStore? then [op.store]
    else if op.StartWorkflowRun? then [CreatingRun(op.request, op.wall)] + later
    else if Doomed(st, op) != {} then [Deleting(Doomed(st, op))]
    else later
  }

  function ContinueOps(st: State, limit: int, op: Op): seq<Q.QueueOp> {
    var later := [Q.Elapse(Step(st, limit, op).g)];
    if !Callable(op) then []
    else
      match op
      case OnContinues(o) => [o]
      case StartWorkflowRun(input, startAt, wall) =>
        if !Judge(st.s, input).Admitted? then []
        else
          var t := CreateRun(StoreTurn(st.s, st.g), input, wall);
          [Q.Elapse(t.g), Q.Enqueuing(ContinueCommand(t.s, NewRunId(st.g)), startAt, wall)]
      case MarkReaped(id, wall) =>
        if Q.First(st.continues.waiting, Q.UnreapedDead(id)) < |st.continues.waiting|
        then [Q.Reaping(id, wall)] else later
      case RequeueDead(id) => [Q.Requeuing(id)]
      case DeleteRun(_) => if Doomed(st, op) == {} then [] else [Q.DroppingRuns(Doomed(st, op))]
      case Prune(roots, olderThan) =>
        if !Prunable(st.s, roots, olderThan) then []
        else (if Doomed(st, op) == {} then [] else [Q.DroppingRuns(Doomed(st, op))]) + [Q.Sweeping(olderThan)]
      case _ => later
  }

  function CommandOps(st: State, limit: int, op: Op): seq<Q.QueueOp> {
    var later := [Q.Elapse(Step(st, limit, op).g)];
    if !Callable(op) then []
    else
      match op
      case OnCommands(o) => [o]
      case MarkReaped(id, wall) =>
        if Q.First(st.continues.waiting, Q.UnreapedDead(id)) < |st.continues.waiting|
        then later else [Q.Reaping(id, wall)]
      case RequeueDead(id) =>
        if Q.First(st.continues.waiting, Q.DeadWith(id)) < |st.continues.waiting| then [] else [Q.Requeuing(id)]
      case DeleteRun(_) => if Doomed(st, op) == {} then [] else [Q.DroppingRuns(Doomed(st, op))]
      case Prune(roots, olderThan) =>
        if !Prunable(st.s, roots, olderThan) then []
        else (if Doomed(st, op) == {} then [] else [Q.DroppingRuns(Doomed(st, op))]) + [Q.Sweeping(olderThan)]
      case _ => later
  }

  function StoreTrace(st: State, limit: int, ops: seq<Op>): seq<StoreOp> {
    if ops == [] then []
    else
      var before := ops[..|ops| - 1];
      StoreTrace(st, limit, before) + StoreOps(Execute(st, limit, before), limit, ops[|ops| - 1])
  }

  function ContinueTrace(st: State, limit: int, ops: seq<Op>): seq<Q.QueueOp> {
    if ops == [] then []
    else
      var before := ops[..|ops| - 1];
      ContinueTrace(st, limit, before) + ContinueOps(Execute(st, limit, before), limit, ops[|ops| - 1])
  }

  function CommandTrace(st: State, limit: int, ops: seq<Op>): seq<Q.QueueOp> {
    if ops == [] then []
    else
      var before := ops[..|ops| - 1];
      CommandTrace(st, limit, before) + CommandOps(Execute(st, limit, before), limit, ops[|ops| - 1])
  }
}
