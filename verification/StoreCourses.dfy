/** What the rows of the store say about the calls that were made: over every
    run each attempt, node and child shows exactly what was done to it. */
module StoreCourses {
  import opened Identifiers
  import opened Commands
  import opened StoreSpec
  import opened StoreIndexes
  import opened StoreHistory
  import opened StoreAttempts
  import opened StoreTransitions

  // --------------------------------------------------------------- attempts

  /** The call settles the attempt: it presents the attempt's own token while
      the attempt is started and the current one of a child that is not over. */
  predicate Settles(s: Store, op: StoreOp, id: Id) {
    && op.SettlingAttempt? && op.id == id && id in s.attempts
    && var a := s.attempts[id];
       && a.leaseToken == op.token && a.status == AttemptStatus.Started && a.child in s.children
       && var child := s.children[a.child];
          && child.currentAttemptId == Some(id)
          && child.status !in {NodeStatus.Completed, NodeStatus.Failed, NodeStatus.Cancelled}
  }

  /** What an attempt looks like once it is settled this way. */
  predicate Shown(a: Attempt, settlement: Settlement) {
    match settlement
    case Succeed(output) => a.status == AttemptStatus.Completed && a.output == Some(output) && a.error == None
    case GiveUp(error) => a.status == AttemptStatus.Failed && a.error == Some(error) && a.output == None
    case TimeOut(error) => a.status == AttemptStatus.TimedOut && a.error == Some(error) && a.output == None
  }

  /** The run holds an accepted settlement of the attempt. */
  predicate Accepted(t: StoreTurn, ops: seq<StoreOp>, id: Id, settlement: Settlement)
    decreases |ops|
  {
    ops != [] &&
    var n := |ops| - 1;
    || Accepted(t, ops[..n], id, settlement)
    || (Settles(StoreRun(t, ops[..n]).s, ops[n], id) && ops[n].settlement == settlement)
  }

  predicate Unsettled(a: Attempt) {
    a.status == AttemptStatus.Started && a.output == None && a.error == None
  }

  lemma OtherStepsKeepAttempts(t: StoreTurn, op: StoreOp)
    requires !op.CreatingAttempt? && !op.EnsuringAttempt? && !op.SettlingAttempt? && !op.Deleting?
    ensures StoreStep(t, op).s.attempts == t.s.attempts
  {
  }

  /** One step settles an attempt or leaves it as it is, and a new one has a new id. */
  lemma AttemptStep(t: StoreTurn, op: StoreOp, id: Id)
    requires AttemptIdsIssued(t) && id in StoreStep(t, op).s.attempts
    ensures
      var after := StoreStep(t, op).s.attempts[id];
      if id !in t.s.attempts then Unsettled(after) && !t.g.HasIssued(id)
      else if !Settles(t.s, op, id) then after == t.s.attempts[id]
      else Unsettled(t.s.attempts[id]) ==> Shown(after, op.settlement)
  {
    if !op.CreatingAttempt? && !op.EnsuringAttempt? && !op.SettlingAttempt? && !op.Deleting? {
      OtherStepsKeepAttempts(t, op);
    }
  }

  lemma {:induction false} AcceptedWasIssued(t: StoreTurn, ops: seq<StoreOp>, id: Id, settlement: Settlement)
    requires AttemptIdsIssued(t) && Accepted(t, ops, id, settlement)
    ensures StoreRun(t, ops).g.HasIssued(id)
    decreases |ops|
  {
    var n := |ops| - 1;
    AttemptIdsAlwaysIssued(t, ops[..n]);
    StepAdvancesSource(StoreRun(t, ops[..n]), ops[n]);
    if Accepted(t, ops[..n], id, settlement) {
      AcceptedWasIssued(t, ops[..n], id, settlement);
    }
  }

  /** The attempt shows the one settlement the run holds of it, or none. */
  ghost predicate ShowsSettlement(a: Attempt, t: StoreTurn, ops: seq<StoreOp>, id: Id) {
    || (Unsettled(a) && forall settlement :: !Accepted(t, ops, id, settlement))
    || exists settlement :: Shown(a, settlement) && forall other :: Accepted(t, ops, id, other) <==> other == settlement
  }

  lemma {:induction false} AttemptsShowSettlements(g: Source, ops: seq<StoreOp>, id: Id)
    requires id in StoreRun(StoreTurn(EMPTY_STORE, g), ops).s.attempts
    ensures ShowsSettlement(StoreRun(StoreTurn(EMPTY_STORE, g), ops).s.attempts[id], StoreTurn(EMPTY_STORE, g), ops, id)
    decreases |ops|
  {
    var start, n := StoreTurn(EMPTY_STORE, g), |ops| - 1;
    var t := StoreRun(start, ops[..n]);
    AttemptIdsAlwaysIssued(start, ops[..n]);
    AttemptStep(t, ops[n], id);
    if id !in t.s.attempts {
      forall settlement
        ensures !Accepted(start, ops, id, settlement)
      {
        if Accepted(start, ops[..n], id, settlement) {
          AcceptedWasIssued(start, ops[..n], id, settlement);
        }
      }
    } else {
      AttemptsShowSettlements(g, ops[..n], id);
      OneSettlement(t.s.attempts[id], StoreStep(t, ops[n]).s.attempts[id], start, ops, id);
    }
  }

  lemma OneSettlement(before: Attempt, after: Attempt, start: StoreTurn, ops: seq<StoreOp>, id: Id)
    requires ops != [] && ShowsSettlement(before, start, ops[..|ops| - 1], id)
    requires
      var t, op := StoreRun(start, ops[..|ops| - 1]), ops[|ops| - 1];
      && id in t.s.attempts && before == t.s.attempts[id]
      && (if Settles(t.s, op, id) then Unsettled(before) ==> Shown(after, op.settlement) else after == before)
    ensures ShowsSettlement(after, start, ops, id)
  {
    var t, op := StoreRun(start, ops[..|ops| - 1]), ops[|ops| - 1];
    if Settles(t.s, op, id) {
      assert Unsettled(before);
      assert forall other :: Accepted(start, ops, id, other) <==> other == op.settlement;
    } else {
      assert forall other :: Accepted(start, ops, id, other) <==> Accepted(start, ops[..|ops| - 1], id, other);
    }
  }

  ghost function Settlements(t: StoreTurn, ops: seq<StoreOp>, id: Id): iset<Settlement> {
    iset settlement | Accepted(t, ops, id, settlement)
  }

  /** The attempt is completed with an output, or failed or timed out with an
      error, if and only if just that settlement was made, and started if none was. */
  ghost predicate Tells(a: Attempt, made: iset<Settlement>) {
    && (forall o :: a.status == AttemptStatus.Completed && a.output == Some(o) <==> Succeed(o) in made)
    && (forall e :: a.status == AttemptStatus.Failed && a.error == Some(e) <==> GiveUp(e) in made)
    && (forall e :: a.status == AttemptStatus.TimedOut && a.error == Some(e) <==> TimeOut(e) in made)
    && (a.status == AttemptStatus.Started <==> made == iset{})
    && (a.output.Some? ==> a.status == AttemptStatus.Completed)
    && (a.error.Some? ==> a.status in {AttemptStatus.Failed, AttemptStatus.TimedOut})
    && forall x, y :: x in made && y in made ==> x == y
  }

  /** Over every run a stored attempt tells which accepted settlement of it the
      run holds, if any. */
  lemma AttemptsTellTheRun(g: Source, ops: seq<StoreOp>, id: Id)
    requires id in StoreRun(StoreTurn(EMPTY_STORE, g), ops).s.attempts
    ensures
      var t := StoreTurn(EMPTY_STORE, g);
      Tells(StoreRun(t, ops).s.attempts[id], Settlements(t, ops, id))
  {
    AttemptsShowSettlements(g, ops, id);
    var start := StoreTurn(EMPTY_STORE, g);
    var a := StoreRun(start, ops).s.attempts[id];
    if settlement :| Shown(a, settlement) && forall other :: Accepted(start, ops, id, other) <==> other == settlement {
      assert settlement in Settlements(start, ops, id);
    } else {
      assert Settlements(start, ops, id) == iset{};
    }
  }

  /** A settlement touches the attempt and, if it is a success, its child: every
      other row stays, and a failed or timed-out attempt leaves its child alone. */
  lemma SettlementTouches(t: StoreTurn, op: StoreOp, id: Id)
    requires op.SettlingAttempt? && op.id == id
    ensures
      var s, s' := t.s, StoreStep(t, op).s;
      if !Settles(s, op, id) then s' == s
      else
        && s'.attempts == s.attempts[id := s'.attempts[id]]
        && s' == s.(attempts := s'.attempts, children := s'.children)
        && var at := s.attempts[id].child;
           if op.settlement.Succeed?
           then s'.children == s.children[at := s.children[at].(status := NodeStatus.Completed,
                                                               output := Some(op.settlement.output),
                                                               version := s.children[at].version + 1)]
           else s'.children == s.children
  {
  }

  /** A new attempt carries the input and key it was asked for, under the next
      number of its child and a token of its own, and is the child's current one. */
  lemma NewAttemptCarries(t: StoreTurn, op: StoreOp, id: Id)
    requires AttemptIdsIssued(t) && id in StoreStep(t, op).s.attempts && id !in t.s.attempts
    ensures
      && Starts(t.s, op) && id == t.g.Fresh("attempt")
      && var a, s' := StoreStep(t, op).s.attempts[id], StoreStep(t, op).s;
         && a.child == op.child && a.input == op.input && a.idempotencyKey == op.key && Unsettled(a)
         && a.number == t.s.children[op.child].attemptCount + 1
         && a.leaseToken.Issued? && a.leaseToken != id && t.g.nextId <= a.leaseToken.number < StoreStep(t, op).g.nextId
         && s'.children[op.child].currentAttemptId == Some(id) && s'.children[op.child].attemptCount == a.number
  {
    if !op.CreatingAttempt? && !op.EnsuringAttempt? && !op.SettlingAttempt? && !op.Deleting? {
      OtherStepsKeepAttempts(t, op);
    }
  }

  /** The call starts an attempt: of a child that is not over, and, when it only
      makes sure that there is one, of a child without any. */
  predicate Starts(s: Store, op: StoreOp) {
    && (op.CreatingAttempt? || op.EnsuringAttempt?)
    && op.child in s.children
    && s.children[op.child].status !in {NodeStatus.Completed, NodeStatus.Failed, NodeStatus.Cancelled}
    && (op.EnsuringAttempt? ==> s.children[op.child].attemptCount == 0)
  }

  /** Every such call does start one. */
  lemma StartsIsEnough(t: StoreTurn, op: StoreOp)
    requires Starts(t.s, op)
    ensures t.g.Fresh("attempt") in StoreStep(t, op).s.attempts
  {
  }

  // ------------------------------------------------------ nodes and children

  /** Where a node or child stands: its status, and what it came to. */
  datatype Course = Course(status: NodeStatus, output: Option<Value>, error: Option<StoredError>) {
    predicate Over() {
      status in {NodeStatus.Completed, NodeStatus.Failed, NodeStatus.Cancelled}
    }

    /** The first verdict is final. */
    function Then(next: Course): Course {
      if Over() then this else next
    }

    function Done(result: Value): Course {
      Then(Course(NodeStatus.Completed, Some(result), error))
    }

    function Broken(reason: StoredError): Course {
      Then(Course(NodeStatus.Failed, output, Some(reason)))
    }

    function Moving(to: NodeStatus): Course {
      Then(this.(status := to))
    }
  }

  const FRESH := Course(NodeStatus.Pending, None, None)

  function NextNode(was: Course, s: Store, op: StoreOp, at: NodeRef): Course {
    match op
    case ChangingNode(node, CompleteNode(output)) => if node == at then was.Done(output) else was
    case ChangingNode(node, FailNode(error)) => if node == at then was.Broken(error) else was
    case ChangingNode(node, CancelNode) => if node == at then was.Moving(NodeStatus.Cancelled) else was
    case ChangingNode(node, WaitNode) => if node == at then was.Moving(NodeStatus.Waiting) else was
    case CancellingNodes(runId) => if at.runId == runId then was.Moving(NodeStatus.Cancelled) else was
    case CreatingAttempt(child, _, _) => if child.node == at && Starts(s, op) then was.Moving(NodeStatus.Running) else was
    case EnsuringAttempt(child, _, _) => if child.node == at && Starts(s, op) then was.Moving(NodeStatus.Running) else was
    case _ => was
  }

  /** What the calls of a run make of a node, from its creation on. */
  function NodeCourse(t: StoreTurn, ops: seq<StoreOp>, at: NodeRef): Course
    decreases |ops|
  {
    if ops == [] then FRESH
    else
      var s := StoreRun(t, ops[..|ops| - 1]).s;
      if at !in s.nodes then FRESH else NextNode(NodeCourse(t, ops[..|ops| - 1], at), s, ops[|ops| - 1], at)
  }

  function NextChild(was: Course, s: Store, op: StoreOp, at: ChildRef): Course {
    match op
    case ChangingChild(child, CompleteChild(output)) => if child == at then was.Done(output) else was
    case ChangingChild(child, FailChild(error)) => if child == at then was.Broken(error) else was
    case CancellingNodes(runId) => if at.node.runId == runId then was.Moving(NodeStatus.Cancelled) else was
    case CreatingAttempt(child, _, _) => if child == at && Starts(s, op) then was.Moving(NodeStatus.Running) else was
    case EnsuringAttempt(child, _, _) => if child == at && Starts(s, op) then was.Moving(NodeStatus.Running) else was
    case SettlingAttempt(id, _, Succeed(output)) =>
      if id in s.attempts && s.attempts[id].child == at && Settles(s, op, id) then was.Done(output) else was
    case EnsuringChildRun(p, _) => if p.child == at && Links(s, p) then was.Moving(NodeStatus.Running) else was
    case _ => was
  }

  /** What the calls of a run make of a child, from its creation on. */
  function ChildCourse(t: StoreTurn, ops: seq<StoreOp>, at: ChildRef): Course
    decreases |ops|
  {
    if ops == [] then FRESH
    else
      var s := StoreRun(t, ops[..|ops| - 1]).s;
      if at !in s.children then FRESH else NextChild(ChildCourse(t, ops[..|ops| - 1], at), s, ops[|ops| - 1], at)
  }

  /** The call links a child that has no run yet to one. */
  predicate Links(s: Store, p: ChildRunParams) {
    p.child in s.children && s.children[p.child].childRunId.None? && !Judge(s, ChildRunInput(p)).Conflicts?
  }

  function NodeStands(n: Node): Course {
    Course(n.status, n.output, n.error)
  }

  function ChildStands(c: Child): Course {
    Course(c.status, c.output, c.error)
  }

  lemma OtherStepsKeepNodes(t: StoreTurn, op: StoreOp)
    requires !op.CreatingNode? && !op.ChangingNode? && !op.CancellingNodes? && !op.CreatingAttempt? && !op.EnsuringAttempt? && !op.Deleting?
    ensures StoreStep(t, op).s.nodes == t.s.nodes
  {
  }

  lemma ChangeStep(t: StoreTurn, op: StoreOp, at: NodeRef)
    requires at in t.s.nodes && op.ChangingNode? && t.s.nodes[at].status != NodeStatus.Cancelling
    ensures NodeStands(ChangeNode(t.s, op.node, op.nodeChange).nodes[at]) == NextNode(NodeStands(t.s.nodes[at]), t.s, op, at)
  {
  }

  lemma NodeStep(t: StoreTurn, op: StoreOp, at: NodeRef)
    requires at in t.s.nodes && at in StoreStep(t, op).s.nodes && t.s.nodes[at].status != NodeStatus.Cancelling
    ensures NodeStands(StoreStep(t, op).s.nodes[at]) == NextNode(NodeStands(t.s.nodes[at]), t.s, op, at)
  {
    if op.CreatingAttempt? || op.EnsuringAttempt? {
      StartStep(t, op, at);
    } else if op.ChangingNode? {
      ChangeStep(t, op, at);
    } else if !op.CreatingNode? && !op.CancellingNodes? && !op.Deleting? {
      OtherStepsKeepNodes(t, op);
    }
  }

  lemma StartStep(t: StoreTurn, op: StoreOp, at: NodeRef)
    requires at in t.s.nodes && at in StoreStep(t, op).s.nodes && t.s.nodes[at].status != NodeStatus.Cancelling
    requires op.CreatingAttempt? || op.EnsuringAttempt?
    ensures NodeStands(StoreStep(t, op).s.nodes[at]) == NextNode(NodeStands(t.s.nodes[at]), t.s, op, at)
  {
    if !TerminalNode(t.s.nodes[at].status) {
      LiveRuns(t.s.nodes[at].status);
    }
    if Starts(t.s, op) {
      assert StoreStep(t, op).s.nodes == NudgedNodes(t.s.nodes, op.child.node);
    } else {
      assert StoreStep(t, op) == t;
    }
  }

  lemma LiveRuns(status: NodeStatus)
    requires !TerminalNode(status) && status != NodeStatus.Cancelling
    ensures status == NodeStatus.Running || NodeStatus.Running in NodeTransitions(status)
  {
  }

  lemma NewNode(t: StoreTurn, op: StoreOp, at: NodeRef)
    requires at !in t.s.nodes && at in StoreStep(t, op).s.nodes
    ensures
      var n := StoreStep(t, op).s.nodes[at];
      NodeStands(n) == FRESH && n.version == 1 && n.input == None && n.selectedCase == None
      && op.CreatingNode? && op.node == at && n.kind == op.kind
  {
  }

  lemma OtherStepsKeepChildren(t: StoreTurn, op: StoreOp)
    requires !op.EnsuringChildren? && !op.EnsuringChildRun? && !op.ChangingChild? && !op.CancellingNodes?
    requires !op.CreatingAttempt? && !op.EnsuringAttempt? && !op.SettlingAttempt? && !op.Deleting?
    ensures StoreStep(t, op).s.children == t.s.children
  {
  }

  lemma ChildChangeStep(s: Store, child: ChildRef, change: ChildChange, at: ChildRef)
    requires at in s.children
    ensures at in ChangeChild(s, child, change).children
    ensures ChildStands(ChangeChild(s, child, change).children[at])
         == NextChild(ChildStands(s.children[at]), s, ChangingChild(child, change), at)
  {
  }

  lemma ChildSettleStep(t: StoreTurn, op: StoreOp, at: ChildRef)
    requires at in t.s.children && op.SettlingAttempt?
    ensures at in StoreStep(t, op).s.children
    ensures ChildStands(StoreStep(t, op).s.children[at]) == NextChild(ChildStands(t.s.children[at]), t.s, op, at)
  {
    SettlementTouches(t, op, op.id);
  }

  lemma ChildStartStep(t: StoreTurn, op: StoreOp, at: ChildRef)
    requires at in t.s.children && (op.CreatingAttempt? || op.EnsuringAttempt?)
    ensures at in StoreStep(t, op).s.children
    ensures ChildStands(StoreStep(t, op).s.children[at]) == NextChild(ChildStands(t.s.children[at]), t.s, op, at)
  {
    if Starts(t.s, op) {
      assert StoreStep(t, op).s == StartAttempt(t, op.child, op.input, op.key).s;
    } else {
      assert StoreStep(t, op) == t;
    }
  }

  lemma ChildStep(t: StoreTurn, op: StoreOp, at: ChildRef)
    requires at in t.s.children && at in StoreStep(t, op).s.children
    ensures ChildStands(StoreStep(t, op).s.children[at]) == NextChild(ChildStands(t.s.children[at]), t.s, op, at)
  {
    if op.EnsuringChildren? {
      InsertedChildren(t.s.children, op.node, op.specs, at);
    } else if op.ChangingChild? {
      ChildChangeStep(t.s, op.child, op.childChange, at);
    } else if op.SettlingAttempt? {
      ChildSettleStep(t, op, at);
    } else if op.CreatingAttempt? || op.EnsuringAttempt? {
      ChildStartStep(t, op, at);
    } else if !op.EnsuringChildRun? && !op.CancellingNodes? && !op.Deleting? {
      OtherStepsKeepChildren(t, op);
    }
  }

  /** Over every run a stored node stands where the calls since its creation
      left it: the first verdict decides, before that the last move. */
  lemma {:induction false} NodesTellTheRun(g: Source, ops: seq<StoreOp>, at: NodeRef)
    requires at in StoreRun(StoreTurn(EMPTY_STORE, g), ops).s.nodes
    ensures NodeStands(StoreRun(StoreTurn(EMPTY_STORE, g), ops).s.nodes[at]) == NodeCourse(StoreTurn(EMPTY_STORE, g), ops, at)
    decreases |ops|
  {
    var start, n := StoreTurn(EMPTY_STORE, g), |ops| - 1;
    var t := StoreRun(start, ops[..n]);
    if at in t.s.nodes {
      NodesTellTheRun(g, ops[..n], at);
      NeverCancelling(g, ops[..n]);
      NodeStep(t, ops[n], at);
    } else {
      NewNode(t, ops[n], at);
    }
  }

  /** And so does a stored child. */
  lemma {:induction false} ChildrenTellTheRun(g: Source, ops: seq<StoreOp>, at: ChildRef)
    requires at in StoreRun(StoreTurn(EMPTY_STORE, g), ops).s.children
    ensures ChildStands(StoreRun(StoreTurn(EMPTY_STORE, g), ops).s.children[at]) == ChildCourse(StoreTurn(EMPTY_STORE, g), ops, at)
    decreases |ops|
  {
    var start, n := StoreTurn(EMPTY_STORE, g), |ops| - 1;
    var t := StoreRun(start, ops[..n]);
    if at in t.s.children {
      ChildrenTellTheRun(g, ops[..n], at);
      ChildStep(t, ops[n], at);
    } else {
      NewChildCarries(t, ops[n], at);
    }
  }

  /** A new child row carries what one of the asked children says. */
  lemma NewChildCarries(t: StoreTurn, op: StoreOp, at: ChildRef)
    requires at !in t.s.children && at in StoreStep(t, op).s.children
    ensures
      var c := StoreStep(t, op).s.children[at];
      && op.EnsuringChildren? && op.node == at.node && ChildStands(c) == FRESH && c.version == 1
      && c.attemptCount == 0 && c.currentAttemptId == None && c.childRunId == None
      && exists i :: 0 <= i < |op.specs| && op.specs[i].key == at.key && c.kind == op.specs[i].kind
                     && c.ordinal == op.specs[i].ordinal && c.itemKey == op.specs[i].itemKey && c.item == op.specs[i].item
  {
    if op.EnsuringChildren? {
      InsertedFromSpec(t.s.children, op.node, op.specs, at);
    }
  }

  /** A stored node without children gets all the asked ones and no others; a
      node with children, or none stored, keeps what there is. */
  lemma ChildrenMade(t: StoreTurn, op: StoreOp)
    requires op.EnsuringChildren?
    ensures
      var s, s' := t.s, StoreStep(t, op).s;
      if op.node in s.nodes && forall c :: c in s.children ==> c.node != op.node
      then forall c :: c in s'.children <==> c in s.children || (c.node == op.node && exists i :: 0 <= i < |op.specs| && op.specs[i].key == c.key)
      else s' == s
  {
    forall c
      ensures c in InsertChildren(t.s.children, op.node, op.specs).Keys
         <==> c in t.s.children || (c.node == op.node && exists i :: 0 <= i < |op.specs| && op.specs[i].key == c.key)
    {
      InsertedKeys(t.s.children, op.node, op.specs, c);
    }
  }

  lemma {:induction false} InsertedKeys(children: map<ChildRef, Child>, node: NodeRef, specs: seq<ChildSpec>, c: ChildRef)
    ensures c in InsertChildren(children, node, specs)
       <==> c in children || (c.node == node && exists i :: 0 <= i < |specs| && specs[i].key == c.key)
  {
    if specs != [] {
      var n := |specs| - 1;
      InsertedKeys(children, node, specs[..n], c);
      assert forall i | 0 <= i < n :: specs[..n][i] == specs[i];
    }
  }

  lemma {:induction false} InsertedFromSpec(children: map<ChildRef, Child>, node: NodeRef, specs: seq<ChildSpec>, at: ChildRef)
    requires at !in children && at in InsertChildren(children, node, specs)
    ensures at.node == node
    ensures exists i :: 0 <= i < |specs| && specs[i].key == at.key && InsertChildren(children, node, specs)[at] == NewChild(specs[i])
  {
    var n := |specs| - 1;
    if at.node == node && specs[n].key == at.key {
      assert InsertChildren(children, node, specs)[at] == NewChild(specs[n]);
    } else {
      InsertedFromSpec(children, node, specs[..n], at);
      var i :| 0 <= i < n && specs[..n][i].key == at.key && InsertChildren(children, node, specs[..n])[at] == NewChild(specs[..n][i]);
      assert specs[i] == specs[..n][i];
    }
  }

  // -------------------------------------------------------- what rows carry

  /** A step sets the input of a node only by its own call, selects a case only
      once and only by its own call, and keeps the kind. */
  lemma NodeKeeps(t: StoreTurn, op: StoreOp, at: NodeRef)
    requires at in t.s.nodes && at in StoreStep(t, op).s.nodes
    ensures
      var n, n' := t.s.nodes[at], StoreStep(t, op).s.nodes[at];
      if op.ChangingNode? && op.node == at && !NodeStands(n).Over() then KeepsRest(n, op.nodeChange, n')
      else n'.kind == n.kind && n'.input == n.input && n'.selectedCase == n.selectedCase
  {
    if op.ChangingNode? {
      NodeChangeKeeps(t.s, op.node, op.nodeChange, at);
    } else if op.CreatingAttempt? || op.EnsuringAttempt? {
      NodeStartKeeps(t, op, at);
    } else if op.CancellingNodes? {
      assert StoreStep(t, op).s.nodes[at] == t.s.nodes[at] || StoreStep(t, op).s.nodes[at] == CancelledNode(t.s.nodes[at]);
    } else if op.CreatingNode? || op.Deleting? {
      assert StoreStep(t, op).s.nodes[at] == t.s.nodes[at];
    } else {
      OtherStepsKeepNodes(t, op);
    }
  }

  predicate KeepsRest(n: Node, change: NodeChange, n': Node) {
    && n'.kind == n.kind
    && n'.input == (if change.SetInput? then Some(change.input) else n.input)
    && n'.selectedCase == (if change.SelectCase? && n.selectedCase == None then Some(change.caseKey) else n.selectedCase)
  }

  lemma ChangedNodeKeeps(n: Node, change: NodeChange)
    requires NodeChangeApplies(change, n)
    ensures KeepsRest(n, change, ChangedNode(n, change))
  {
  }

  lemma NodeChangeKeeps(s: Store, node: NodeRef, change: NodeChange, at: NodeRef)
    requires at in s.nodes
    ensures
      var n, n' := s.nodes[at], ChangeNode(s, node, change).nodes[at];
      if node == at && !NodeStands(n).Over() then KeepsRest(n, change, n')
      else n'.kind == n.kind && n'.input == n.input && n'.selectedCase == n.selectedCase
  {
    if node in s.nodes && NodeChangeApplies(change, s.nodes[node]) {
      ChangedNodeKeeps(s.nodes[node], change);
      assert ChangeNode(s, node, change).nodes == s.nodes[node := ChangedNode(s.nodes[node], change)];
    }
  }

  lemma NodeStartKeeps(t: StoreTurn, op: StoreOp, at: NodeRef)
    requires at in t.s.nodes && (op.CreatingAttempt? || op.EnsuringAttempt?)
    ensures
      var n, n' := t.s.nodes[at], StoreStep(t, op).s.nodes[at];
      n'.kind == n.kind && n'.input == n.input && n'.selectedCase == n.selectedCase
  {
    if Starts(t.s, op) {
      assert StoreStep(t, op).s == StartAttempt(t, op.child, op.input, op.key).s;
    } else {
      assert StoreStep(t, op) == t;
    }
  }

  /** A step keeps what a child row says about its task, points it at a new
      attempt only by starting one, and at a run only by linking it. */
  lemma ChildKeeps(t: StoreTurn, op: StoreOp, at: ChildRef)
    requires at in t.s.children && at in StoreStep(t, op).s.children
    ensures
      var c, c' := t.s.children[at], StoreStep(t, op).s.children[at];
      var starts, links := Starts(t.s, op) && op.child == at, op.EnsuringChildRun? && LinksTo(t, op, at);
      && c'.kind == c.kind && c'.ordinal == c.ordinal && c'.itemKey == c.itemKey && c'.item == c.item
      && c'.attemptCount == (if starts then c.attemptCount + 1 else c.attemptCount)
      && c'.currentAttemptId == (if starts then Some(t.g.Fresh("attempt")) else c.currentAttemptId)
      && (if links then c'.childRunId.Some? else c'.childRunId == c.childRunId)
  {
    if op.EnsuringChildren? {
      InsertedChildren(t.s.children, op.node, op.specs, at);
    } else if op.ChangingChild? {
      ChildChangeKeeps(t.s, op.child, op.childChange, at);
    } else if op.SettlingAttempt? {
      SettlementTouches(t, op, op.id);
    } else if op.CreatingAttempt? || op.EnsuringAttempt? {
      ChildStartKeeps(t, op, at);
    } else if op.EnsuringChildRun? {
      ChildLinkKeeps(t, op.params, op.wall, at);
    } else if op.CancellingNodes? {
      assert StoreStep(t, op).s.children[at] == t.s.children[at] || StoreStep(t, op).s.children[at] == CancelledChild(t.s.children[at]);
    } else if op.Deleting? {
      assert StoreStep(t, op).s.children[at] == t.s.children[at];
    } else {
      OtherStepsKeepChildren(t, op);
    }
  }

  lemma CreateKeepsChildren(t: StoreTurn, input: CreateRunInput, wall: int)
    ensures CreateRun(t, input, wall).s.children == t.s.children
  {
  }

  lemma ChildLinkKeeps(t: StoreTurn, p: ChildRunParams, wall: int, at: ChildRef)
    requires at in t.s.children
    ensures at in EnsureChildRun(t, p, wall).s.children
    ensures
      var c, c' := t.s.children[at], EnsureChildRun(t, p, wall).s.children[at];
      && SameTask(c, c') && SamePointer(c, c')
      && if p.child == at && Links(t.s, p) && !ChildStands(c).Over() then c'.childRunId.Some? else c'.childRunId == c.childRunId
  {
    CreateKeepsChildren(t, ChildRunInput(p), wall);
    if p.child in t.s.children {
      var child, t' := t.s.children[p.child], EnsureChildRun(t, p, wall);
      if Links(t.s, p) && !TerminalNode(child.status) {
        var verdict := Judge(t.s, ChildRunInput(p));
        assert t'.s.children == t.s.children[p.child := LinkedChild(child, if verdict.Joins? then verdict.id else NewRunId(t.g))];
      } else {
        assert t' == t;
      }
    }
  }

  predicate LinksTo(t: StoreTurn, op: StoreOp, at: ChildRef)
    requires op.EnsuringChildRun? && at in t.s.children
  {
    op.params.child == at && Links(t.s, op.params) && !ChildStands(t.s.children[at]).Over()
  }

  predicate SameTask(a: Child, b: Child) {
    a.kind == b.kind && a.ordinal == b.ordinal && a.itemKey == b.itemKey && a.item == b.item
  }

  lemma ChangeKeepsTask(c: Child, change: ChildChange)
    ensures SameTask(c, ChangedChild(c, change)) && SamePointer(c, ChangedChild(c, change))
    ensures ChangedChild(c, change).childRunId == c.childRunId
  {
  }

  lemma ChildChangeKeeps(s: Store, child: ChildRef, change: ChildChange, at: ChildRef)
    requires at in s.children
    ensures
      var c, c' := s.children[at], ChangeChild(s, child, change).children[at];
      SameTask(c, c') && SamePointer(c, c') && c'.childRunId == c.childRunId
  {
    ChangeKeepsTask(s.children[at], change);
    if child in s.children && !TerminalNode(s.children[child].status) {
      assert ChangeChild(s, child, change).children == s.children[child := ChangedChild(s.children[child], change)];
    }
  }

  lemma ChildStartKeeps(t: StoreTurn, op: StoreOp, at: ChildRef)
    requires at in t.s.children && (op.CreatingAttempt? || op.EnsuringAttempt?)
    ensures
      var c, c' := t.s.children[at], StoreStep(t, op).s.children[at];
      var starts := Starts(t.s, op) && op.child == at;
      && SameTask(c, c') && c'.childRunId == c.childRunId
      && c'.attemptCount == (if starts then c.attemptCount + 1 else c.attemptCount)
      && c'.currentAttemptId == (if starts then Some(t.g.Fresh("attempt")) else c.currentAttemptId)
  {
    if Starts(t.s, op) {
      assert StoreStep(t, op).s == StartAttempt(t, op.child, op.input, op.key).s;
    } else {
      assert StoreStep(t, op) == t;
    }
  }

  /** A linked child points at a run that does its task: a new one, queued under
      the child's run and the root it was given, or the stored one with its key. */
  lemma LinkedRunCarries(t: StoreTurn, op: StoreOp)
    requires op.EnsuringChildRun? && op.params.child in t.s.children && LinksTo(t, op, op.params.child)
    requires IndexesExact(t.s) && RunIdsIssued(t)
    ensures
      var p, t' := op.params, StoreStep(t, op);
      p.child in t'.s.children && t'.s.children[p.child].childRunId.Some? &&
      var id := t'.s.children[p.child].childRunId.value;
      && id in t'.s.runs && DoesTask(t'.s.runs[id], p)
      && (if id in t.s.runs then t'.s.runs == t.s.runs && p.idempotencyKey.Some?
          else id == t.g.Fresh("run") && t'.s.runs == t.s.runs[id := t'.s.runs[id]] && IsFresh(t'.s.runs[id]))
  {
    var p := op.params;
    assert Exact(t.s.runs, Index(ByIdempotencyKey, t.s), ByIdempotencyKey);
    if Judge(t.s, ChildRunInput(p)).Joins? {
      assert Occupies(ByIdempotencyKey, t.s.runs[Judge(t.s, ChildRunInput(p)).id]) == p.idempotencyKey;
    }
  }

  predicate DoesTask(run: Run, p: ChildRunParams) {
    && run.kind == p.kind && run.name == p.name && run.workflowName == p.name
    && run.taskName == (if p.kind == RunKind.Task then Some(p.name) else None)
    && run.input == p.input && run.idempotencyKey == p.idempotencyKey
    && run.parentRunId == Some(p.child.node.runId) && run.parentNodeName == Some(p.child.node.name)
    && run.rootRunId == p.rootRunId
  }

  predicate IsFresh(run: Run) {
    run.status == RunStatus.Queued && run.version == 1 && run.output == None && run.error == None
  }

  /** An admitted request stores one run, queued, as it was asked for: a
      workflow by default, named after its task or else its workflow, and its
      own root unless it has one. Any other request stores none. */
  lemma CreatedRunCarries(t: StoreTurn, op: StoreOp)
    requires op.CreatingRun?
    ensures
      var t', id, asked := StoreStep(t, op), t.g.Fresh("run"), op.request;
      if Judge(t.s, asked) != Admitted then t' == t && (CreateOutcome(t, asked) == Thrown <==> Judge(t.s, asked) == Conflicts)
      else
        && CreateOutcome(t, asked) == Returned(id) && id in t'.s.runs && t'.s.runs == t.s.runs[id := t'.s.runs[id]]
        && var run := t'.s.runs[id];
           && IsFresh(run) && t.g.last < run.updatedAt && op.wall <= run.updatedAt
           && run.kind == (if asked.kind == None then Workflow else asked.kind.value)
           && (asked.name.Some? ==> run.name == asked.name.value)
           && (asked.name.None? && asked.taskName.Some? ==> run.name == asked.taskName.value)
           && (asked.name.None? && asked.taskName.None? ==> run.name == asked.workflowName)
           && run.workflowName == asked.workflowName && run.taskName == asked.taskName && run.input == asked.input
           && run.parentRunId == asked.parentRunId && run.parentNodeName == asked.parentNodeName
           && run.rootRunId == (if asked.rootRunId == None then id else asked.rootRunId.value)
           && run.idempotencyKey == asked.idempotencyKey && run.unique == asked.unique
  {
  }
}
