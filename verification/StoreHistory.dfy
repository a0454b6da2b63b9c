/** How rows change over time: every update bumps the version by one, terminal
    rows never change again, and deleted run and attempt ids never return. */
module StoreHistory {
  import opened Identifiers
  import opened StoreSpec
  import opened StoreIndexes

  /** One step leaves a run alone, or moves it along the transition table with
      one version bump; who it is, and whose child, never changes. */
  predicate RunEvolves(before: Run, after: Run) {
    after == before ||
    (&& after.version == before.version + 1
     && after.status in RunTransitions(before.status)
     && after.parentRunId == before.parentRunId && after.rootRunId == before.rootRunId
     && after.idempotencyKey == before.idempotencyKey && after.unique == before.unique
     && after.input == before.input && after.name == before.name && after.kind == before.kind
     && after.workflowName == before.workflowName && after.taskName == before.taskName
     && after.parentNodeName == before.parentNodeName)
  }

  /** A node keeps its kind and, once selected, its case. */
  predicate NodeEvolves(before: Node, after: Node) {
    after == before ||
    (&& after.version == before.version + 1 && !TerminalNode(before.status) && after.kind == before.kind
     && (before.selectedCase.Some? ==> after.selectedCase == before.selectedCase))
  }

  predicate ChildEvolves(before: Child, after: Child) {
    after == before ||
    (&& after.version == before.version + 1 && !TerminalNode(before.status)
     && after.kind == before.kind && after.ordinal == before.ordinal && after.item == before.item && after.itemKey == before.itemKey
     && before.attemptCount <= after.attemptCount <= before.attemptCount + 1
     && (before.childRunId.Some? ==> after.childRunId == before.childRunId))
  }

  predicate AttemptEvolves(before: Attempt, after: Attempt) {
    after == before ||
    (&& before.status.Started? && !after.status.Started?
     && after.child == before.child && after.number == before.number && after.leaseToken == before.leaseToken
     && after.input == before.input && after.idempotencyKey == before.idempotencyKey)
  }

  ghost predicate AttemptIdsIssued(t: StoreTurn) {
    forall id :: id in t.s.attempts ==> t.g.HasIssued(id)
  }

  predicate IsNew(child: Child) {
    child.status.Pending? && child.attemptCount == 0 && child.currentAttemptId.None? && child.childRunId.None?
  }

  lemma {:induction false} InsertedChildren(children: map<ChildRef, Child>, at: NodeRef, specs: seq<ChildSpec>, c: ChildRef)
    ensures
      var r := InsertChildren(children, at, specs);
      if c in r then (c in children && r[c] == children[c]) || (c.node == at && IsNew(r[c])) else c !in children
  {
    if specs != [] {
      InsertedChildren(children, at, specs[..|specs| - 1], c);
    }
  }

  lemma StepAdvancesSource(t: StoreTurn, op: StoreOp)
    ensures t.g.AtMost(StoreStep(t, op).g)
  {
  }

  lemma RunsEvolve(t: StoreTurn, op: StoreOp, id: Id)
    requires t.g.HasIssued(id)
    ensures id in StoreStep(t, op).s.runs ==> id in t.s.runs && RunEvolves(t.s.runs[id], StoreStep(t, op).s.runs[id])
  {
    if !TouchesRuns(op) {
      OtherStepsKeepRuns(t, op);
    }
  }

  lemma AttemptsEvolve(t: StoreTurn, op: StoreOp, id: Id)
    requires t.g.HasIssued(id)
    ensures id in StoreStep(t, op).s.attempts ==>
              id in t.s.attempts && AttemptEvolves(t.s.attempts[id], StoreStep(t, op).s.attempts[id])
  {
  }

  lemma NodesEvolve(t: StoreTurn, op: StoreOp, at: NodeRef)
    requires at in t.s.nodes && at in StoreStep(t, op).s.nodes
    ensures NodeEvolves(t.s.nodes[at], StoreStep(t, op).s.nodes[at])
  {
  }

  lemma ChildrenEvolve(t: StoreTurn, op: StoreOp, at: ChildRef)
    requires at in t.s.children && at in StoreStep(t, op).s.children
    ensures ChildEvolves(t.s.children[at], StoreStep(t, op).s.children[at])
  {
    if op.EnsuringChildren? {
      InsertedChildren(t.s.children, op.node, op.specs, at);
    }
  }

  // -------------------------------------------------------------- whole runs

  lemma {:induction false} StoreRunAppend(t: StoreTurn, a: seq<StoreOp>, b: seq<StoreOp>)
    ensures StoreRun(t, a + b) == StoreRun(StoreRun(t, a), b)
    decreases |b|
  {
    if b == [] {
      assert a + b == a;
    } else {
      StoreRunAppend(t, a, b[..|b| - 1]);
      assert (a + b)[..|a + b| - 1] == a + b[..|b| - 1];
    }
  }

  lemma {:induction false} SourceAdvances(t: StoreTurn, ops: seq<StoreOp>)
    ensures t.g.AtMost(StoreRun(t, ops).g)
  {
    if ops != [] {
      SourceAdvances(t, ops[..|ops| - 1]);
      StepAdvancesSource(StoreRun(t, ops[..|ops| - 1]), ops[|ops| - 1]);
    }
  }

  /** A terminal run is the same row for as long as it exists, and a deleted
      run never comes back. */
  lemma {:induction false} TerminalRunForever(t: StoreTurn, ops: seq<StoreOp>, id: Id)
    requires t.g.HasIssued(id)
    requires id in t.s.runs ==> TerminalRun(t.s.runs[id].status)
    ensures
      var r := StoreRun(t, ops);
      id in r.s.runs ==> id in t.s.runs && r.s.runs[id] == t.s.runs[id]
  {
    if ops != [] {
      var before := ops[..|ops| - 1];
      TerminalRunForever(t, before, id);
      SourceAdvances(t, before);
      RunsEvolve(StoreRun(t, before), ops[|ops| - 1], id);
    }
  }

  /** A settled attempt is the same row for as long as it exists, and a deleted
      attempt never comes back. */
  lemma {:induction false} SettledAttemptForever(t: StoreTurn, ops: seq<StoreOp>, id: Id)
    requires t.g.HasIssued(id)
    requires id in t.s.attempts ==> !t.s.attempts[id].status.Started?
    ensures
      var r := StoreRun(t, ops);
      id in r.s.attempts ==> id in t.s.attempts && r.s.attempts[id] == t.s.attempts[id]
  {
    if ops != [] {
      var before := ops[..|ops| - 1];
      SettledAttemptForever(t, before, id);
      SourceAdvances(t, before);
      AttemptsEvolve(StoreRun(t, before), ops[|ops| - 1], id);
    }
  }

  /** The node row is present after every step of the run. */
  predicate NodeStays(t: StoreTurn, ops: seq<StoreOp>, at: NodeRef)
    decreases |ops|
  {
    at in StoreRun(t, ops).s.nodes && (ops != [] ==> NodeStays(t, ops[..|ops| - 1], at))
  }

  predicate ChildStays(t: StoreTurn, ops: seq<StoreOp>, at: ChildRef)
    decreases |ops|
  {
    at in StoreRun(t, ops).s.children && (ops != [] ==> ChildStays(t, ops[..|ops| - 1], at))
  }

  lemma {:induction false} TerminalNodeForever(t: StoreTurn, ops: seq<StoreOp>, at: NodeRef)
    requires NodeStays(t, ops, at) && at in t.s.nodes && TerminalNode(t.s.nodes[at].status)
    ensures StoreRun(t, ops).s.nodes[at] == t.s.nodes[at]
  {
    if ops != [] {
      TerminalNodeForever(t, ops[..|ops| - 1], at);
      NodesEvolve(StoreRun(t, ops[..|ops| - 1]), ops[|ops| - 1], at);
    }
  }

  lemma {:induction false} TerminalChildForever(t: StoreTurn, ops: seq<StoreOp>, at: ChildRef)
    requires ChildStays(t, ops, at) && at in t.s.children && TerminalNode(t.s.children[at].status)
    ensures StoreRun(t, ops).s.children[at] == t.s.children[at]
  {
    if ops != [] {
      TerminalChildForever(t, ops[..|ops| - 1], at);
      ChildrenEvolve(StoreRun(t, ops[..|ops| - 1]), ops[|ops| - 1], at);
    }
  }
}
