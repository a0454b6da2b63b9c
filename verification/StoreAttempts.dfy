/** Attempt accounting: the attempts of a child are numbered 1..attemptCount,
    the last one is current, and a completed attempt completes its child. One
    step can break this: a deletion that takes a child row along because of the
    run it links to, while the attempts of that row stay. */
module StoreAttempts {
  import opened Identifiers
  import opened Commands
  import opened StoreSpec
  import opened StoreIndexes
  import opened StoreHistory

  ghost predicate HasNumber(s: Store, at: ChildRef, n: int) {
    exists id :: id in s.attempts && s.attempts[id].child == at && s.attempts[id].number == n
  }

  /** Each attempt belongs to a stored child and carries one of its numbers. */
  predicate Owned(s: Store, id: Id)
    requires id in s.attempts
  {
    var a := s.attempts[id];
    a.child in s.children && 1 <= a.number <= s.children[a.child].attemptCount
  }

  /** A completed attempt is the current one of a completed child with the same output. */
  predicate Crowned(s: Store, id: Id)
    requires id in s.attempts && Owned(s, id)
  {
    var a := s.attempts[id];
    var child := s.children[a.child];
    a.status.Completed? ==> child.status.Completed? && child.output == a.output && child.currentAttemptId == Some(id)
  }

  /** The current attempt is the last numbered one; there is none before the first. */
  predicate PointsAtLast(s: Store, at: ChildRef)
    requires at in s.children
  {
    var child := s.children[at];
    if child.attemptCount == 0 then child.currentAttemptId.None?
    else
      && child.currentAttemptId.Some? && child.currentAttemptId.value in s.attempts
      && s.attempts[child.currentAttemptId.value].child == at
      && s.attempts[child.currentAttemptId.value].number == child.attemptCount
  }

  ghost predicate AttemptsOwned(s: Store) {
    forall id :: id in s.attempts ==> Owned(s, id) && Crowned(s, id)
  }

  predicate SameSlot(a: Attempt, b: Attempt) {
    a.child == b.child && a.number == b.number
  }

  ghost predicate NumbersApart(s: Store) {
    forall a, b :: a in s.attempts && b in s.attempts && SameSlot(s.attempts[a], s.attempts[b]) ==> a == b
  }

  ghost predicate NumbersFull(s: Store) {
    forall at, n :: at in s.children && 1 <= n <= s.children[at].attemptCount ==> HasNumber(s, at, n)
  }

  ghost predicate PointersSound(s: Store) {
    forall at :: at in s.children ==> PointsAtLast(s, at)
  }

  /** Each child's attempts are numbered exactly 1..attemptCount, the last is
      current, and a completed attempt has completed its child. */
  ghost predicate AttemptsSound(s: Store) {
    AttemptsOwned(s) && NumbersApart(s) && NumbersFull(s) && PointersSound(s)
  }

  /** At most one attempt of a child is ever completed. */
  lemma OneCompletedAttempt(s: Store, a: Id, b: Id)
    requires AttemptsSound(s) && a in s.attempts && b in s.attempts
    requires s.attempts[a].child == s.attempts[b].child
    requires s.attempts[a].status.Completed? && s.attempts[b].status.Completed?
    ensures a == b
  {
    assert Crowned(s, a) && Crowned(s, b);
  }

  /** A child row that goes because of the run it links to has no attempts left behind. */
  ghost predicate NoOrphans(s: Store, doomed: set<Id>) {
    forall at :: at in s.children && ChildDoomed(at, s.children[at], doomed) && at.node.runId !in doomed
      ==> s.children[at].attemptCount == 0
  }

  ghost predicate KeepsSlots(s: Store, s': Store) {
    forall id :: id in s.attempts ==> id in s'.attempts && SameSlot(s'.attempts[id], s.attempts[id])
  }

  lemma KeepsNumbers(s: Store, s': Store)
    requires AttemptsSound(s) && KeepsSlots(s, s')
    ensures forall at, n :: at in s.children && 1 <= n <= s.children[at].attemptCount ==> HasNumber(s', at, n)
  {
    forall at, n | at in s.children && 1 <= n <= s.children[at].attemptCount
      ensures HasNumber(s', at, n)
    {
      assert HasNumber(s, at, n);
      var id :| id in s.attempts && s.attempts[id].child == at && s.attempts[id].number == n;
      assert id in s'.attempts;
    }
  }

  lemma StartKeepsOwned(t: StoreTurn, at: ChildRef, input: Value, key: Option<Value>)
    requires AttemptsSound(t.s) && AttemptIdsIssued(t)
    requires at in t.s.children && !TerminalNode(t.s.children[at].status)
    ensures AttemptsOwned(StartAttempt(t, at, input, key).s)
  {
    var s, s', id := t.s, StartAttempt(t, at, input, key).s, NewAttemptId(t.g);
    forall other | other in s'.attempts
      ensures Owned(s', other) && Crowned(s', other)
    {
      assert other != id ==> Owned(s, other) && Crowned(s, other);
    }
  }

  lemma StartKeepsNumbers(t: StoreTurn, at: ChildRef, input: Value, key: Option<Value>)
    requires AttemptsSound(t.s) && AttemptIdsIssued(t) && at in t.s.children
    ensures NumbersFull(StartAttempt(t, at, input, key).s) && NumbersApart(StartAttempt(t, at, input, key).s)
  {
    var s, s', id := t.s, StartAttempt(t, at, input, key).s, NewAttemptId(t.g);
    KeepsNumbers(s, s');
    assert HasNumber(s', at, s'.children[at].attemptCount) by {
      assert SameSlot(s'.attempts[id], s'.attempts[id]);
    }
    forall a, b | a in s'.attempts && b in s'.attempts && SameSlot(s'.attempts[a], s'.attempts[b])
      ensures a == b
    {
      assert a != id ==> Owned(s, a);
      assert b != id ==> Owned(s, b);
    }
  }

  lemma StartKeepsPointers(t: StoreTurn, at: ChildRef, input: Value, key: Option<Value>)
    requires AttemptsSound(t.s) && AttemptIdsIssued(t) && at in t.s.children
    ensures PointersSound(StartAttempt(t, at, input, key).s)
  {
    var s' := StartAttempt(t, at, input, key).s;
    forall c | c in s'.children
      ensures PointsAtLast(s', c)
    {
      assert PointsAtLast(t.s, c);
    }
  }

  lemma StartKeepsSound(t: StoreTurn, at: ChildRef, input: Value, key: Option<Value>)
    requires AttemptsSound(t.s) && AttemptIdsIssued(t)
    requires at in t.s.children && !TerminalNode(t.s.children[at].status)
    ensures AttemptsSound(StartAttempt(t, at, input, key).s)
  {
    StartKeepsOwned(t, at, input, key);
    StartKeepsNumbers(t, at, input, key);
    StartKeepsPointers(t, at, input, key);
  }

  /** Rewriting children without touching their attempt fields, and completing
      only children without a completed attempt, keeps the accounting. */
  ghost predicate SameAccounting(s: Store, s': Store) {
    && s'.attempts == s.attempts
    && s'.children.Keys == s.children.Keys
    && forall at :: at in s.children ==>
         && s'.children[at].attemptCount == s.children[at].attemptCount
         && s'.children[at].currentAttemptId == s.children[at].currentAttemptId
         && (TerminalNode(s.children[at].status) ==> s'.children[at] == s.children[at])
  }

  lemma SameAccountingKeepsSound(s: Store, s': Store)
    requires AttemptsSound(s) && SameAccounting(s, s')
    ensures AttemptsSound(s')
  {
    KeepsNumbers(s, s');
    forall id | id in s'.attempts
      ensures Owned(s', id) && Crowned(s', id)
    {
      assert Owned(s, id) && Crowned(s, id);
    }
    forall at | at in s'.children
      ensures PointsAtLast(s', at)
    {
      assert PointsAtLast(s, at);
    }
  }

  lemma SettleKeepsOwned(s: Store, id: Id, token: Id, settlement: Settlement)
    requires AttemptsSound(s) && Fenced(s, id, token)
    ensures AttemptsOwned(SettleAttempt(s, id, token, settlement))
  {
    var s' := SettleAttempt(s, id, token, settlement);
    forall other | other in s'.attempts
      ensures Owned(s', other) && Crowned(s', other)
    {
      assert Owned(s, other) && Crowned(s, other);
    }
  }

  lemma SettleKeepsSound(s: Store, id: Id, token: Id, settlement: Settlement)
    requires AttemptsSound(s)
    ensures AttemptsSound(SettleAttempt(s, id, token, settlement))
  {
    if Fenced(s, id, token) {
      SettleKeepsOwned(s, id, token, settlement);
      SlotsKeepSound(s, SettleAttempt(s, id, token, settlement));
    }
  }

  /** The three accounting facts that do not mention outputs survive any
      rewrite that keeps the slots and the attempt fields of children. */
  lemma SlotsKeepSound(s: Store, s': Store)
    requires AttemptsSound(s) && KeepsSlots(s, s')
    requires s'.attempts.Keys == s.attempts.Keys && s'.children.Keys == s.children.Keys
    requires forall at :: at in s.children ==> SamePointer(s.children[at], s'.children[at])
    ensures NumbersApart(s') && NumbersFull(s') && PointersSound(s')
  {
    KeepsNumbers(s, s');
    forall at | at in s'.children
      ensures PointsAtLast(s', at)
    {
      assert PointsAtLast(s, at);
    }
  }

  predicate SamePointer(a: Child, b: Child) {
    a.attemptCount == b.attemptCount && a.currentAttemptId == b.currentAttemptId
  }

  lemma EnsureChildrenKeepsSound(s: Store, at: NodeRef, specs: seq<ChildSpec>)
    requires AttemptsSound(s)
    ensures AttemptsSound(EnsureChildren(s, at, specs))
  {
    var s' := EnsureChildren(s, at, specs);
    if at in s.nodes && !HasChildren(s, at) {
      forall c: ChildRef
        ensures if c in s'.children then (c in s.children && s'.children[c] == s.children[c]) || IsNew(s'.children[c])
                else c !in s.children
      {
        InsertedChildren(s.children, at, specs, c);
      }
      forall c | c in s.children
        ensures c in s'.children && s'.children[c] == s.children[c]
      {
        InsertedChildren(s.children, at, specs, c);
      }
      KeepsNumbers(s, s');
      forall id | id in s'.attempts
        ensures Owned(s', id) && Crowned(s', id)
      {
        assert Owned(s, id) && Crowned(s, id);
      }
      forall c | c in s'.children
        ensures PointsAtLast(s', c)
      {
        assert c in s.children ==> PointsAtLast(s, c);
      }
    }
  }

  /** A deletion keeps the accounting exactly when it orphans no attempt. */
  lemma DeleteKeepsSoundIff(s: Store, doomed: set<Id>)
    requires AttemptsSound(s)
    ensures AttemptsSound(DeleteRuns(s, doomed)) <==> NoOrphans(s, doomed)
  {
    var s' := DeleteRuns(s, doomed);
    if NoOrphans(s, doomed) {
      forall id | id in s'.attempts
        ensures Owned(s', id) && Crowned(s', id)
      {
        assert Owned(s, id) && Crowned(s, id);
        assert s.children[s.attempts[id].child].attemptCount > 0;
      }
      forall at | at in s'.children
        ensures PointsAtLast(s', at)
      {
        assert PointsAtLast(s, at);
      }
      forall at, n | at in s'.children && 1 <= n <= s'.children[at].attemptCount
        ensures HasNumber(s', at, n)
      {
        assert HasNumber(s, at, n);
        var id :| id in s.attempts && s.attempts[id].child == at && s.attempts[id].number == n;
        assert id in s'.attempts;
      }
    } else {
      var at :| at in s.children && ChildDoomed(at, s.children[at], doomed) && at.node.runId !in doomed
                && s.children[at].attemptCount > 0;
      assert PointsAtLast(s, at);
      var id := s.children[at].currentAttemptId.value;
      assert id in s'.attempts && !Owned(s', id);
    }
  }

  predicate TouchesChildren(op: StoreOp) {
    op.CreatingAttempt? || op.EnsuringAttempt? || op.SettlingAttempt? || op.EnsuringChildren? || op.Deleting?
    || op.CancellingNodes? || op.EnsuringChildRun? || op.ChangingChild?
  }

  lemma OtherStepsKeepChildren(t: StoreTurn, op: StoreOp)
    requires !TouchesChildren(op)
    ensures StoreStep(t, op).s.children == t.s.children && StoreStep(t, op).s.attempts == t.s.attempts
  {
  }

  lemma OtherStepsSameAccounting(t: StoreTurn, op: StoreOp)
    requires !op.CreatingAttempt? && !op.EnsuringAttempt? && !op.SettlingAttempt? && !op.EnsuringChildren? && !op.Deleting?
    ensures SameAccounting(t.s, StoreStep(t, op).s)
    ensures t.g.AtMost(StoreStep(t, op).g)
  {
    StepAdvancesSource(t, op);
    if !TouchesChildren(op) {
      OtherStepsKeepChildren(t, op);
    }
  }

  lemma StartingKeepsSound(t: StoreTurn, op: StoreOp)
    requires AttemptsSound(t.s) && AttemptIdsIssued(t) && (op.CreatingAttempt? || op.EnsuringAttempt?)
    ensures AttemptIdsIssued(StoreStep(t, op)) && AttemptsSound(StoreStep(t, op).s)
  {
    if op.child in t.s.children && !TerminalNode(t.s.children[op.child].status) {
      StartKeepsSound(t, op.child, op.input, op.key);
    }
  }

  /** Which steps keep attempt accounting: all of them, except a deletion that orphans an attempt. */
  lemma StepKeepsAttemptsIff(t: StoreTurn, op: StoreOp)
    requires AttemptsSound(t.s) && AttemptIdsIssued(t)
    ensures AttemptIdsIssued(StoreStep(t, op))
    ensures AttemptsSound(StoreStep(t, op).s) <==> (op.Deleting? ==> NoOrphans(t.s, op.doomed))
  {
    match op
    case CreatingAttempt(_, _, _) => StartingKeepsSound(t, op);
    case EnsuringAttempt(_, _, _) => StartingKeepsSound(t, op);
    case SettlingAttempt(id, token, settlement) => SettleKeepsSound(t.s, id, token, settlement);
    case EnsuringChildren(at, specs) => EnsureChildrenKeepsSound(t.s, at, specs);
    case Deleting(doomed) => DeleteKeepsSoundIff(t.s, doomed);
    case _ =>
      OtherStepsSameAccounting(t, op);
      SameAccountingKeepsSound(t.s, StoreStep(t, op).s);
  }

  lemma {:induction false} AttemptIdsAlwaysIssued(t: StoreTurn, ops: seq<StoreOp>)
    requires AttemptIdsIssued(t)
    ensures AttemptIdsIssued(StoreRun(t, ops))
  {
    if ops != [] {
      AttemptIdsAlwaysIssued(t, ops[..|ops| - 1]);
      StepIssuesAttemptIds(StoreRun(t, ops[..|ops| - 1]), ops[|ops| - 1]);
    }
  }

  lemma StepIssuesAttemptIds(t: StoreTurn, op: StoreOp)
    requires AttemptIdsIssued(t)
    ensures AttemptIdsIssued(StoreStep(t, op))
  {
    if !(op.CreatingAttempt? || op.EnsuringAttempt? || op.SettlingAttempt? || op.EnsuringChildren? || op.Deleting?) {
      OtherStepsSameAccounting(t, op);
    }
  }

  // ----------------------------------------------------------- family links

  /** A linked child run exists and is a run of the child's own run. */
  ghost predicate LinksSound(s: Store) {
    forall at :: at in s.children && s.children[at].childRunId.Some? ==>
      && s.children[at].childRunId.value in s.runs
      && s.runs[s.children[at].childRunId.value].parentRunId == Some(at.node.runId)
  }

  lemma ChildRunKeepsLinks(t: StoreTurn, p: ChildRunParams, wall: int)
    requires LinksSound(t.s) && RunIdsIssued(t)
    ensures LinksSound(EnsureChildRun(t, p, wall).s)
  {
  }

  lemma StepKeepsLinks(t: StoreTurn, op: StoreOp)
    requires LinksSound(t.s) && RunIdsIssued(t)
    ensures LinksSound(StoreStep(t, op).s)
  {
    match op
    case EnsuringChildRun(p, wall) => ChildRunKeepsLinks(t, p, wall);
    case Deleting(doomed) =>
    case EnsuringChildren(at, specs) =>
      forall c | c in StoreStep(t, op).s.children && StoreStep(t, op).s.children[c].childRunId.Some?
        ensures c in t.s.children && t.s.children[c].childRunId == StoreStep(t, op).s.children[c].childRunId
      {
        InsertedChildren(t.s.children, at, specs, c);
      }
    case _ => OtherStepsKeepLinks(t, op);
  }

  lemma OtherStepsKeepLinks(t: StoreTurn, op: StoreOp)
    requires LinksSound(t.s) && RunIdsIssued(t)
    requires !op.EnsuringChildRun? && !op.Deleting? && !op.EnsuringChildren?
    ensures LinksSound(StoreStep(t, op).s)
  {
    var s' := StoreStep(t, op).s;
    forall at | at in s'.children && s'.children[at].childRunId.Some?
      ensures at in t.s.children && t.s.children[at].childRunId == s'.children[at].childRunId
    {
    }
    forall id | id in t.s.runs
      ensures id in s'.runs && s'.runs[id].parentRunId == t.s.runs[id].parentRunId
    {
    }
  }
}
