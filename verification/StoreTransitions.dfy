/** The store's guards, written case by case, against the declared transition
    tables: a change takes effect exactly when the table allows it, and every
    status a reachable store goes through is a legal one. */
module StoreTransitions {
  import opened Identifiers
  import opened StoreSpec
  import opened StoreHistory

  // ------------------------------------------------------------------ runs

  function Aim(change: RunChange): RunStatus {
    match change
    case MarkRunning => RunStatus.Running
    case MarkWaiting => RunStatus.Waiting
    case Complete(_) => RunStatus.Completed
    case Fail(_) => RunStatus.Failed
    case RequestCancellation => RunStatus.Cancelling
    case Cancel => RunStatus.Cancelled
  }

  lemma RunGuardIsTable(change: RunChange, status: RunStatus)
    ensures RunChangeApplies(change, status) <==> Aim(change) in RunTransitions(status)
  {
  }

  /** A run change takes effect if and only if the table allows its target,
      sets the output or the error it brings and no other, and otherwise leaves
      the whole turn alone. */
  lemma RunChangesFollowTable(t: StoreTurn, id: Id, change: RunChange, wall: int)
    requires id in t.s.runs
    ensures
      var t', before := ChangeRun(t, id, change, wall), t.s.runs[id];
      if Aim(change) in RunTransitions(before.status)
      then t'.s.runs == t.s.runs[id := t'.s.runs[id]] && ReachesAim(before, change, t'.s.runs[id], t.g)
      else t' == t
  {
    RunGuardIsTable(change, t.s.runs[id].status);
  }

  predicate ReachesAim(before: Run, change: RunChange, after: Run, g: Source) {
    && after.status == Aim(change) && after.version == before.version + 1 && after.updatedAt > g.last
    && after.output == (if change.Complete? then Some(change.output) else before.output)
    && after.error == (if change.Fail? then Some(change.error) else before.error)
  }

  // ------------------------------------------------------ nodes and children

  ghost predicate NoneCancelling(s: Store) {
    && (forall at :: at in s.nodes ==> !s.nodes[at].status.Cancelling?)
    && (forall at :: at in s.children ==> !s.children[at].status.Cancelling?)
  }

  predicate Legal(before: NodeStatus, after: NodeStatus) {
    after == before || after in NodeTransitions(before)
  }

  /** All a step does to a status: nothing, or away from a status that is not
      terminal to one that is neither pending nor cancelling. */
  predicate Moved(before: NodeStatus, after: NodeStatus) {
    after == before || (!TerminalNode(before) && !after.Pending? && !after.Cancelling?)
  }

  lemma MovedIsLegal(before: NodeStatus, after: NodeStatus)
    requires Moved(before, after) && !before.Cancelling?
    ensures Legal(before, after) && !after.Cancelling?
  {
  }

  lemma NodesMove(t: StoreTurn, op: StoreOp, at: NodeRef)
    requires at in t.s.nodes && at in StoreStep(t, op).s.nodes
    ensures Moved(t.s.nodes[at].status, StoreStep(t, op).s.nodes[at].status)
  {
  }

  lemma ChildrenMove(t: StoreTurn, op: StoreOp, at: ChildRef)
    requires at in t.s.children && at in StoreStep(t, op).s.children
    ensures Moved(t.s.children[at].status, StoreStep(t, op).s.children[at].status)
  {
    if op.EnsuringChildren? {
      InsertedChildren(t.s.children, op.node, op.specs, at);
    }
  }

  lemma StepNodesLegal(t: StoreTurn, op: StoreOp, at: NodeRef)
    requires at in t.s.nodes && at in StoreStep(t, op).s.nodes && !t.s.nodes[at].status.Cancelling?
    ensures
      var before, after := t.s.nodes[at].status, StoreStep(t, op).s.nodes[at].status;
      Legal(before, after) && !after.Cancelling?
  {
    NodesMove(t, op, at);
    MovedIsLegal(t.s.nodes[at].status, StoreStep(t, op).s.nodes[at].status);
  }

  lemma StepChildrenLegal(t: StoreTurn, op: StoreOp, at: ChildRef)
    requires at in t.s.children && at in StoreStep(t, op).s.children && !t.s.children[at].status.Cancelling?
    ensures
      var before, after := t.s.children[at].status, StoreStep(t, op).s.children[at].status;
      Legal(before, after) && !after.Cancelling?
  {
    ChildrenMove(t, op, at);
    MovedIsLegal(t.s.children[at].status, StoreStep(t, op).s.children[at].status);
  }

  lemma NewNodePending(t: StoreTurn, op: StoreOp, at: NodeRef)
    requires at !in t.s.nodes && at in StoreStep(t, op).s.nodes
    ensures StoreStep(t, op).s.nodes[at].status.Pending?
  {
  }

  lemma NewChildPending(t: StoreTurn, op: StoreOp, at: ChildRef)
    requires at !in t.s.children && at in StoreStep(t, op).s.children
    ensures StoreStep(t, op).s.children[at].status.Pending?
  {
    if op.EnsuringChildren? {
      InsertedChildren(t.s.children, op.node, op.specs, at);
    }
  }

  lemma StepKeepsNoneCancelling(t: StoreTurn, op: StoreOp)
    requires NoneCancelling(t.s)
    ensures NoneCancelling(StoreStep(t, op).s)
  {
    var s' := StoreStep(t, op).s;
    forall at | at in s'.nodes
      ensures !s'.nodes[at].status.Cancelling?
    {
      if at in t.s.nodes {
        StepNodesLegal(t, op, at);
      } else {
        NewNodePending(t, op, at);
      }
    }
    forall at | at in s'.children
      ensures !s'.children[at].status.Cancelling?
    {
      if at in t.s.children {
        StepChildrenLegal(t, op, at);
      } else {
        NewChildPending(t, op, at);
      }
    }
  }

  lemma {:induction false} NeverCancelling(g: Source, ops: seq<StoreOp>)
    ensures NoneCancelling(StoreRun(StoreTurn(EMPTY_STORE, g), ops).s)
    decreases |ops|
  {
    if ops != [] {
      NeverCancelling(g, ops[..|ops| - 1]);
      StepKeepsNoneCancelling(StoreRun(StoreTurn(EMPTY_STORE, g), ops[..|ops| - 1]), ops[|ops| - 1]);
    }
  }

  /** In every reachable store every step moves nodes and children along the
      table, although the guards of `waitNode` and of attempt creation are not
      written in its terms. */
  lemma StatusesAlwaysLegal(g: Source, ops: seq<StoreOp>, op: StoreOp)
    ensures
      var t := StoreRun(StoreTurn(EMPTY_STORE, g), ops);
      var s, s' := t.s, StoreStep(t, op).s;
      && (forall at :: at in s.nodes && at in s'.nodes ==> Legal(s.nodes[at].status, s'.nodes[at].status))
      && (forall at :: at in s.children && at in s'.children ==> Legal(s.children[at].status, s'.children[at].status))
  {
    var t := StoreRun(StoreTurn(EMPTY_STORE, g), ops);
    var s, s' := t.s, StoreStep(t, op).s;
    NeverCancelling(g, ops);
    forall at | at in s.nodes && at in s'.nodes
      ensures Legal(s.nodes[at].status, s'.nodes[at].status)
    {
      StepNodesLegal(t, op, at);
    }
    forall at | at in s.children && at in s'.children
      ensures Legal(s.children[at].status, s'.children[at].status)
    {
      StepChildrenLegal(t, op, at);
    }
  }

  /** The one gap the tables would show: a node that was cancelling could go
      back to waiting, but no store step ever makes a node cancelling. */
  lemma WaitingAgainstTable(s: Store, at: NodeRef)
    requires at in s.nodes && !TerminalNode(s.nodes[at].status)
    ensures Legal(s.nodes[at].status, ChangeNode(s, at, WaitNode).nodes[at].status) <==> !s.nodes[at].status.Cancelling?
  {
    var status := s.nodes[at].status;
    assert ChangeNode(s, at, WaitNode).nodes[at].status.Waiting?;
    if !status.Cancelling? {
      MovedIsLegal(status, NodeStatus.Waiting);
    } else {
      assert !Legal(status, NodeStatus.Waiting);
    }
  }
}
