/** The workflow store: run, node, child and attempt rows, the three run
    indexes and the run leases, with every mutator as a function on values.
    A mutator that throws in the source returns the store it was given. */
module StoreSpec {
  import opened Identifiers
  import opened Commands

  datatype RunStatus = Queued | Running | Waiting | Cancelling | Completed | Failed | Cancelled

  datatype NodeStatus = Pending | Running | Waiting | Cancelling | Completed | Failed | Cancelled

  datatype AttemptStatus = Started | Completed | Failed | TimedOut

  function RunTransitions(from: RunStatus): set<RunStatus> {
    match from
    case Queued => {RunStatus.Running, RunStatus.Cancelling, RunStatus.Cancelled, RunStatus.Failed, RunStatus.Completed}
    case Running => {RunStatus.Waiting, RunStatus.Cancelling, RunStatus.Cancelled, RunStatus.Failed, RunStatus.Completed}
    case Waiting => {RunStatus.Running, RunStatus.Cancelling, RunStatus.Cancelled, RunStatus.Failed, RunStatus.Completed}
    case Cancelling => {RunStatus.Cancelled, RunStatus.Failed, RunStatus.Completed}
    case _ => {}
  }

  function NodeTransitions(from: NodeStatus): set<NodeStatus> {
    match from
    case Pending =>
      {NodeStatus.Running, NodeStatus.Waiting, NodeStatus.Cancelling, NodeStatus.Cancelled, NodeStatus.Failed, NodeStatus.Completed}
    case Running => {NodeStatus.Waiting, NodeStatus.Cancelling, NodeStatus.Cancelled, NodeStatus.Failed, NodeStatus.Completed}
    case Waiting => {NodeStatus.Running, NodeStatus.Cancelling, NodeStatus.Cancelled, NodeStatus.Failed, NodeStatus.Completed}
    case Cancelling => {NodeStatus.Cancelled, NodeStatus.Failed, NodeStatus.Completed}
    case _ => {}
  }

  predicate TerminalRun(status: RunStatus) {
    status.Completed? || status.Failed? || status.Cancelled?
  }

  predicate TerminalNode(status: NodeStatus) {
    status.Completed? || status.Failed? || status.Cancelled?
  }

  /** The terminal predicates and the transition tables agree: terminal is exactly "nowhere to go". */
  lemma TerminalIsSink(run: RunStatus, node: NodeStatus)
    ensures TerminalRun(run) <==> RunTransitions(run) == {}
    ensures TerminalNode(node) <==> NodeTransitions(node) == {}
  {
    assert run.Queued? || run.Running? || run.Waiting? ==> RunStatus.Failed in RunTransitions(run);
    assert run.Cancelling? ==> RunStatus.Failed in RunTransitions(run);
    assert !TerminalNode(node) ==> NodeStatus.Failed in NodeTransitions(node);
  }

  datatype UniqueScope = All | Active

  datatype Unique = Unique(key: Value, scope: UniqueScope, join: bool)

  datatype RunKind = Workflow | Task

  datatype Run = Run(
    kind: RunKind,
    name: string,
    workflowName: string,
    taskName: Option<string>,
    status: RunStatus,
    input: Value,
    output: Option<Value>,
    error: Option<StoredError>,
    parentRunId: Option<Id>,
    parentNodeName: Option<string>,
    rootRunId: Id,
    idempotencyKey: Option<Value>,
    unique: Option<Unique>,
    version: nat,
    updatedAt: int)

  datatype CreateRunInput = CreateRunInput(
    kind: Option<RunKind>,
    name: Option<string>,
    workflowName: string,
    taskName: Option<string>,
    input: Value,
    parentRunId: Option<Id>,
    parentNodeName: Option<string>,
    rootRunId: Option<Id>,
    idempotencyKey: Option<Value>,
    unique: Option<Unique>)

  datatype NodeRef = NodeRef(runId: Id, name: string)

  datatype Node = Node(
    kind: string,
    status: NodeStatus,
    input: Option<Value>,
    output: Option<Value>,
    error: Option<StoredError>,
    selectedCase: Option<string>,
    version: nat)

  datatype ChildRef = ChildRef(node: NodeRef, key: string)

  datatype Child = Child(
    kind: string,
    status: NodeStatus,
    ordinal: int,
    itemKey: Option<string>,
    item: Option<Value>,
    output: Option<Value>,
    error: Option<StoredError>,
    childRunId: Option<Id>,
    currentAttemptId: Option<Id>,
    attemptCount: nat,
    version: nat)

  datatype ChildSpec = ChildSpec(key: string, kind: string, ordinal: int, itemKey: Option<string>, item: Option<Value>)

  datatype Attempt = Attempt(
    child: ChildRef,
    status: AttemptStatus,
    leaseToken: Id,
    number: nat,
    input: Value,
    idempotencyKey: Option<Value>,
    output: Option<Value>,
    error: Option<StoredError>)

  datatype RunLease = RunLease(token: Id, version: nat, expiresAt: int)

  datatype Store = Store(
    runs: map<Id, Run>,
    nodes: map<NodeRef, Node>,
    children: map<ChildRef, Child>,
    attempts: map<Id, Attempt>,
    idempotency: map<Value, Id>,
    activeUnique: map<Value, Id>,
    allUnique: map<Value, Id>,
    leases: map<Id, RunLease>)

  const EMPTY_STORE := Store(map[], map[], map[], map[], map[], map[], map[], map[])

  datatype StoreTurn = StoreTurn(s: Store, g: Source)

  // ------------------------------------------------------------------ runs

  predicate MatchesInput(id: Id, run: Run, input: CreateRunInput) {
    && run.kind == (if input.kind.Some? then input.kind.value else Workflow)
    && run.name == RunnableName(input)
    && run.workflowName == input.workflowName
    && run.taskName == input.taskName
    && run.parentRunId == input.parentRunId
    && run.parentNodeName == input.parentNodeName
    && run.rootRunId == (if input.rootRunId.Some? then input.rootRunId.value else id)
    && run.input == input.input
  }

  function RunnableName(input: CreateRunInput): string {
    if input.name.Some? then input.name.value
    else if input.taskName.Some? then input.taskName.value
    else input.workflowName
  }

  /** What a create request meets: nothing, a run it joins, or a conflict that throws. */
  datatype Verdict = Admitted | Joins(id: Id) | Conflicts

  function UniqueIndex(s: Store, scope: UniqueScope): map<Value, Id> {
    if scope.All? then s.allUnique else s.activeUnique
  }

  function Judge(s: Store, input: CreateRunInput): Verdict {
    if input.idempotencyKey.Some? && input.idempotencyKey.value in s.idempotency then
      var id := s.idempotency[input.idempotencyKey.value];
      if id in s.runs && MatchesInput(id, s.runs[id], input) then Joins(id) else Conflicts
    else if input.unique.Some? then
      var unique := input.unique.value;
      var index := UniqueIndex(s, unique.scope);
      if unique.key in index && index[unique.key] in s.runs
      then if unique.join then Joins(index[unique.key]) else Conflicts
      else Admitted
    else Admitted
  }

  function NewRun(id: Id, input: CreateRunInput, date: int): Run {
    Run(if input.kind.Some? then input.kind.value else Workflow,
        RunnableName(input), input.workflowName, input.taskName,
        RunStatus.Queued, input.input, None, None, input.parentRunId, input.parentNodeName,
        if input.rootRunId.Some? then input.rootRunId.value else id,
        input.idempotencyKey, input.unique, 1, date)
  }

  function NewRunId(g: Source): Id {
    g.Fresh("run")
  }

  function InsertRun(s: Store, id: Id, input: CreateRunInput, date: int): Store {
    s.(runs := s.runs[id := NewRun(id, input, date)],
       idempotency := if input.idempotencyKey.Some? then s.idempotency[input.idempotencyKey.value := id] else s.idempotency,
       activeUnique := if input.unique.Some? && input.unique.value.scope.Active?
                       then s.activeUnique[input.unique.value.key := id] else s.activeUnique,
       allUnique := if input.unique.Some? && input.unique.value.scope.All?
                    then s.allUnique[input.unique.value.key := id] else s.allUnique)
  }

  function CreateRun(t: StoreTurn, input: CreateRunInput, wall: int): StoreTurn {
    if Judge(t.s, input).Admitted?
    then StoreTurn(InsertRun(t.s, NewRunId(t.g), input, t.g.Tick(wall).last), t.g.Tick(wall).Take())
    else t
  }

  datatype RunChange =
    | MarkRunning
    | MarkWaiting
    | Complete(output: Value)
    | Fail(error: StoredError)
    | RequestCancellation
    | Cancel

  predicate RunChangeApplies(change: RunChange, status: RunStatus) {
    match change
    case MarkRunning => RunStatus.Running in RunTransitions(status)
    case MarkWaiting => RunStatus.Waiting in RunTransitions(status)
    case RequestCancellation => !TerminalRun(status) && !status.Cancelling?
    case _ => !TerminalRun(status)
  }

  function ChangedRun(run: Run, change: RunChange, date: int): Run {
    var bumped := run.(version := run.version + 1, updatedAt := date);
    match change
    case MarkRunning => bumped.(status := RunStatus.Running)
    case MarkWaiting => bumped.(status := RunStatus.Waiting)
    case Complete(output) => bumped.(status := RunStatus.Completed, output := Some(output))
    case Fail(error) => bumped.(status := RunStatus.Failed, error := Some(error))
    case RequestCancellation => bumped.(status := RunStatus.Cancelling)
    case Cancel => bumped.(status := RunStatus.Cancelled)
  }

  /** The active keys once `run` no longer occupies one: its key goes if it is the holder. */
  function ReleasedKeys(s: Store, id: Id, run: Run): map<Value, Id> {
    if run.unique.Some? && run.unique.value.scope.Active?
       && run.unique.value.key in s.activeUnique && s.activeUnique[run.unique.value.key] == id
    then s.activeUnique - {run.unique.value.key}
    else s.activeUnique
  }

  function ChangeRun(t: StoreTurn, id: Id, change: RunChange, wall: int): StoreTurn {
    if id !in t.s.runs || !RunChangeApplies(change, t.s.runs[id].status) then t
    else
      var run := ChangedRun(t.s.runs[id], change, t.g.Tick(wall).last);
      StoreTurn(t.s.(runs := t.s.runs[id := run],
                     activeUnique := if TerminalRun(run.status) then ReleasedKeys(t.s, id, run) else t.s.activeUnique),
                t.g.Tick(wall))
  }

  // ----------------------------------------------------------------- nodes

  function CreateNode(s: Store, at: NodeRef, kind: string): Store {
    if at in s.nodes then s
    else s.(nodes := s.nodes[at := Node(kind, NodeStatus.Pending, None, None, None, None, 1)])
  }

  datatype NodeChange =
    | SetInput(input: Value)
    | SelectCase(caseKey: string)
    | CompleteNode(output: Value)
    | FailNode(error: StoredError)
    | CancelNode
    | WaitNode

  predicate NodeChangeApplies(change: NodeChange, node: Node) {
    && !TerminalNode(node.status)
    && (change.SelectCase? ==> node.selectedCase.None?)
    && (change.WaitNode? ==> !node.status.Waiting?)
  }

  function ChangedNode(node: Node, change: NodeChange): Node {
    var bumped := node.(version := node.version + 1);
    match change
    case SetInput(input) => bumped.(input := Some(input))
    case SelectCase(caseKey) => bumped.(selectedCase := Some(caseKey))
    case CompleteNode(output) => bumped.(status := NodeStatus.Completed, output := Some(output))
    case FailNode(error) => bumped.(status := NodeStatus.Failed, error := Some(error))
    case CancelNode => bumped.(status := NodeStatus.Cancelled)
    case WaitNode => bumped.(status := NodeStatus.Waiting)
  }

  function ChangeNode(s: Store, at: NodeRef, change: NodeChange): Store {
    if at in s.nodes && NodeChangeApplies(change, s.nodes[at])
    then s.(nodes := s.nodes[at := ChangedNode(s.nodes[at], change)])
    else s
  }

  function CancelledNode(node: Node): Node {
    if TerminalNode(node.status) then node else node.(status := NodeStatus.Cancelled, version := node.version + 1)
  }

  function CancelledChild(child: Child): Child {
    if TerminalNode(child.status) then child else child.(status := NodeStatus.Cancelled, version := child.version + 1)
  }

  /** Cancels every non-terminal node and child of a run. */
  function CancelRunNodes(s: Store, runId: Id): Store {
    s.(nodes := map at | at in s.nodes :: if at.runId == runId then CancelledNode(s.nodes[at]) else s.nodes[at],
       children := map at | at in s.children ::
                     if at.node.runId == runId then CancelledChild(s.children[at]) else s.children[at])
  }

  // -------------------------------------------------------------- children

  function NewChild(spec: ChildSpec): Child {
    Child(spec.kind, NodeStatus.Pending, spec.ordinal, spec.itemKey, spec.item, None, None, None, None, 0, 1)
  }

  function InsertChildren(children: map<ChildRef, Child>, at: NodeRef, specs: seq<ChildSpec>): map<ChildRef, Child> {
    if specs == [] then children
    else
      var n := |specs| - 1;
      InsertChildren(children, at, specs[..n])[ChildRef(at, specs[n].key) := NewChild(specs[n])]
  }

  predicate HasChildren(s: Store, at: NodeRef) {
    exists c :: c in s.children && c.node == at
  }

  /** Creates the child set of a node once; a later call never changes it. */
  function EnsureChildren(s: Store, at: NodeRef, specs: seq<ChildSpec>): Store {
    if at !in s.nodes || HasChildren(s, at) then s
    else s.(children := InsertChildren(s.children, at, specs))
  }

  datatype ChildRunParams = ChildRunParams(
    child: ChildRef,
    kind: RunKind,
    name: string,
    input: Value,
    rootRunId: Id,
    idempotencyKey: Option<Value>)

  function ChildRunInput(p: ChildRunParams): CreateRunInput {
    CreateRunInput(Some(p.kind), Some(p.name), p.name, if p.kind.Task? then Some(p.name) else None, p.input,
                   Some(p.child.node.runId), Some(p.child.node.name), Some(p.rootRunId), p.idempotencyKey, None)
  }

  /** Links a child to a run of its own, created or joined by idempotency key. */
  function EnsureChildRun(t: StoreTurn, p: ChildRunParams, wall: int): StoreTurn {
    if p.child !in t.s.children then t
    else
      var child := t.s.children[p.child];
      var verdict := Judge(t.s, ChildRunInput(p));
      if child.childRunId.Some? || TerminalNode(child.status) || verdict.Conflicts? then t
      else
        var t' := CreateRun(t, ChildRunInput(p), wall);
        var id := if verdict.Joins? then verdict.id else NewRunId(t.g);
        t'.(s := t'.s.(children := t'.s.children[p.child := LinkedChild(child, id)]))
  }

  function LinkedChild(child: Child, id: Id): Child {
    child.(childRunId := Some(id), status := NodeStatus.Running, version := child.version + 1)
  }

  datatype ChildChange = CompleteChild(output: Value) | FailChild(error: StoredError)

  function ChangedChild(child: Child, change: ChildChange): Child {
    var bumped := child.(version := child.version + 1);
    match change
    case CompleteChild(output) => bumped.(status := NodeStatus.Completed, output := Some(output))
    case FailChild(error) => bumped.(status := NodeStatus.Failed, error := Some(error))
  }

  function ChangeChild(s: Store, at: ChildRef, change: ChildChange): Store {
    if at in s.children && !TerminalNode(s.children[at].status)
    then s.(children := s.children[at := ChangedChild(s.children[at], change)])
    else s
  }

  // -------------------------------------------------------------- attempts

  function NewAttemptId(g: Source): Id {
    g.Fresh("attempt")
  }

  function StartedChild(child: Child, attemptId: Id): Child {
    child.(status := NodeStatus.Running, currentAttemptId := Some(attemptId),
           attemptCount := child.attemptCount + 1, version := child.version + 1)
  }

  /** Starting an attempt also moves its node to running, or bumps one that runs already. */
  function NudgedNodes(nodes: map<NodeRef, Node>, at: NodeRef): map<NodeRef, Node> {
    if at in nodes && (nodes[at].status.Running? || NodeStatus.Running in NodeTransitions(nodes[at].status))
    then nodes[at := nodes[at].(status := NodeStatus.Running, version := nodes[at].version + 1)]
    else nodes
  }

  function StartAttempt(t: StoreTurn, at: ChildRef, input: Value, key: Option<Value>): StoreTurn
    requires at in t.s.children
  {
    var child, id := t.s.children[at], NewAttemptId(t.g);
    var attempt := Attempt(at, AttemptStatus.Started, t.g.Take().Fresh("attempt-lease"), child.attemptCount + 1, input, key, None, None);
    StoreTurn(t.s.(attempts := t.s.attempts[id := attempt],
                   children := t.s.children[at := StartedChild(child, id)],
                   nodes := NudgedNodes(t.s.nodes, at.node)),
              t.g.Take().Take())
  }

  function CreateAttempt(t: StoreTurn, at: ChildRef, input: Value, key: Option<Value>): StoreTurn {
    if at !in t.s.children || TerminalNode(t.s.children[at].status) then t else StartAttempt(t, at, input, key)
  }

  /** Starts the first attempt only; with attempts present it changes nothing. */
  function EnsureAttempt(t: StoreTurn, at: ChildRef, input: Value, key: Option<Value>): StoreTurn {
    if at in t.s.children && t.s.children[at].attemptCount == 0 then CreateAttempt(t, at, input, key) else t
  }

  datatype Settlement = Succeed(output: Value) | GiveUp(error: StoredError) | TimeOut(error: StoredError)

  /** Only the started current attempt of a live child, under its own lease token, may settle. */
  predicate Fenced(s: Store, attemptId: Id, token: Id) {
    && attemptId in s.attempts
    && s.attempts[attemptId].leaseToken == token
    && s.attempts[attemptId].status.Started?
    && s.attempts[attemptId].child in s.children
    && !TerminalNode(s.children[s.attempts[attemptId].child].status)
    && s.children[s.attempts[attemptId].child].currentAttemptId == Some(attemptId)
  }

  function SettledAttempt(attempt: Attempt, settlement: Settlement): Attempt {
    match settlement
    case Succeed(output) => attempt.(status := AttemptStatus.Completed, output := Some(output))
    case GiveUp(error) => attempt.(status := AttemptStatus.Failed, error := Some(error))
    case TimeOut(error) => attempt.(status := AttemptStatus.TimedOut, error := Some(error))
  }

  function SettleAttempt(s: Store, attemptId: Id, token: Id, settlement: Settlement): Store {
    if !Fenced(s, attemptId, token) then s
    else
      var attempt := s.attempts[attemptId];
      s.(attempts := s.attempts[attemptId := SettledAttempt(attempt, settlement)],
         children := if settlement.Succeed?
                     then s.children[attempt.child := ChangedChild(s.children[attempt.child], CompleteChild(settlement.output))]
                     else s.children)
  }

  // ---------------------------------------------------------------- leases

  function AcquireLease(t: StoreTurn, runId: Id, leaseMs: int, wall: int): StoreTurn {
    var g := t.g.Tick(wall);
    if (runId in t.s.leases && t.s.leases[runId].expiresAt > g.last) || runId !in t.s.runs then t.(g := g)
    else
      StoreTurn(t.s.(leases := t.s.leases[runId := RunLease(g.Fresh("run-lease"), t.s.runs[runId].version, g.last + leaseMs)]),
                g.Take())
  }

  predicate HoldsLease(s: Store, runId: Id, token: Id) {
    runId in s.leases && s.leases[runId].token == token
  }

  function RenewLease(t: StoreTurn, runId: Id, token: Id, leaseMs: int, wall: int): StoreTurn {
    if !HoldsLease(t.s, runId, token) then t
    else
      var g := t.g.Tick(wall);
      StoreTurn(t.s.(leases := t.s.leases[runId := t.s.leases[runId].(expiresAt := g.last + leaseMs)]), g)
  }

  function ReleaseLease(s: Store, runId: Id, token: Id): Store {
    if HoldsLease(s, runId, token) then s.(leases := s.leases - {runId}) else s
  }

  // -------------------------------------------------------------- deletion

  /** A child row goes with its own run and with the run it links to. */
  predicate ChildDoomed(at: ChildRef, child: Child, doomed: set<Id>) {
    at.node.runId in doomed || (child.childRunId.Some? && child.childRunId.value in doomed)
  }

  function Surviving(index: map<Value, Id>, doomed: set<Id>): map<Value, Id> {
    map key | key in index && index[key] !in doomed :: index[key]
  }

  function DeleteRuns(s: Store, doomed: set<Id>): Store {
    Store(s.runs - doomed,
          map at | at in s.nodes && at.runId !in doomed :: s.nodes[at],
          map at | at in s.children && !ChildDoomed(at, s.children[at], doomed) :: s.children[at],
          map id | id in s.attempts && s.attempts[id].child.node.runId !in doomed :: s.attempts[id],
          Surviving(s.idempotency, doomed),
          Surviving(s.activeUnique, doomed),
          Surviving(s.allUnique, doomed),
          s.leases - doomed)
  }

  // ------------------------------------------------- what a caller gets back

  datatype Outcome<+T> = Returned(value: T) | Thrown

  function CreateOutcome(t: StoreTurn, input: CreateRunInput): Outcome<Id> {
    match Judge(t.s, input)
    case Admitted => Returned(NewRunId(t.g))
    case Joins(id) => Returned(id)
    case Conflicts => Thrown
  }

  predicate SpecMatches(s: Store, at: NodeRef, spec: ChildSpec) {
    var c := ChildRef(at, spec.key);
    && c in s.children
    && s.children[c].kind == spec.kind && s.children[c].ordinal == spec.ordinal
    && s.children[c].itemKey == spec.itemKey && s.children[c].item == spec.item
  }

  function ChildrenOf(s: Store, at: NodeRef): set<ChildRef> {
    set c | c in s.children && c.node == at
  }

  /** True when the children were created, false when the same set was there already. */
  function ChildrenOutcome(s: Store, at: NodeRef, specs: seq<ChildSpec>): Outcome<bool> {
    if at !in s.nodes then Thrown
    else if !HasChildren(s, at) then Returned(true)
    else if |ChildrenOf(s, at)| == |specs| && forall i | 0 <= i < |specs| :: SpecMatches(s, at, specs[i])
    then Returned(false)
    else Thrown
  }

  predicate LinkMatches(s: Store, id: Id, p: ChildRunParams) {
    && id in s.runs && s.runs[id].kind == p.kind && s.runs[id].name == p.name
    && s.runs[id].input == p.input && s.runs[id].idempotencyKey == p.idempotencyKey
  }

  function ChildRunOutcome(t: StoreTurn, p: ChildRunParams): Outcome<Id> {
    if p.child !in t.s.children then Thrown
    else
      var child := t.s.children[p.child];
      if child.childRunId.Some? then
        if LinkMatches(t.s, child.childRunId.value, p) then Returned(child.childRunId.value) else Thrown
      else if TerminalNode(child.status) then Thrown
      else CreateOutcome(t, ChildRunInput(p))
  }

  // ------------------------------------------------- the transition system

  datatype StoreOp =
    | Elapsing(to: Source)
    | CreatingRun(request: CreateRunInput, wall: int)
    | ChangingRun(id: Id, runChange: RunChange, wall: int)
    | CreatingNode(node: NodeRef, kind: string)
    | ChangingNode(node: NodeRef, nodeChange: NodeChange)
    | CancellingNodes(runId: Id)
    | EnsuringChildren(node: NodeRef, specs: seq<ChildSpec>)
    | EnsuringChildRun(params: ChildRunParams, wall: int)
    | ChangingChild(child: ChildRef, childChange: ChildChange)
    | CreatingAttempt(child: ChildRef, input: Value, key: Option<Value>)
    | EnsuringAttempt(child: ChildRef, input: Value, key: Option<Value>)
    | SettlingAttempt(id: Id, token: Id, settlement: Settlement)
    | AcquiringLease(runId: Id, leaseMs: int, wall: int)
    | RenewingLease(runId: Id, token: Id, leaseMs: int, wall: int)
    | ReleasingLease(runId: Id, token: Id)
    | Deleting(doomed: set<Id>)

  /** One atomic step of the store; `Elapsing` is any step of the rest of the
      runtime, which may only draw ids and advance the clock. */
  function StoreStep(t: StoreTurn, op: StoreOp): StoreTurn {
    match op
    case Elapsing(to) => if t.g.AtMost(to) then t.(g := to) else t
    case CreatingRun(input, wall) => CreateRun(t, input, wall)
    case ChangingRun(id, change, wall) => ChangeRun(t, id, change, wall)
    case CreatingNode(at, kind) => t.(s := CreateNode(t.s, at, kind))
    case ChangingNode(at, change) => t.(s := ChangeNode(t.s, at, change))
    case CancellingNodes(runId) => t.(s := CancelRunNodes(t.s, runId))
    case EnsuringChildren(at, specs) => t.(s := EnsureChildren(t.s, at, specs))
    case EnsuringChildRun(params, wall) => EnsureChildRun(t, params, wall)
    case ChangingChild(at, change) => t.(s := ChangeChild(t.s, at, change))
    case CreatingAttempt(at, input, key) => CreateAttempt(t, at, input, key)
    case EnsuringAttempt(at, input, key) => EnsureAttempt(t, at, input, key)
    case SettlingAttempt(id, token, settlement) => t.(s := SettleAttempt(t.s, id, token, settlement))
    case AcquiringLease(runId, leaseMs, wall) => AcquireLease(t, runId, leaseMs, wall)
    case RenewingLease(runId, token, leaseMs, wall) => RenewLease(t, runId, token, leaseMs, wall)
    case ReleasingLease(runId, token) => t.(s := ReleaseLease(t.s, runId, token))
    case Deleting(doomed) => t.(s := DeleteRuns(t.s, doomed))
  }

  function StoreRun(t: StoreTurn, ops: seq<StoreOp>): StoreTurn {
    if ops == [] then t else StoreStep(StoreRun(t, ops[..|ops| - 1]), ops[|ops| - 1])
  }
}
