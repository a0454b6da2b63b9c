/** The properties of whole runs of the runtime. */
module RuntimeTheorems {
  import opened Identifiers
  import opened StoreSpec
  import opened RunFamilies
  import opened StoreIndexes
  import opened StoreHistory
  import opened StoreAttempts
  import opened RunLeases
  import opened RuntimeSpec
  import opened RuntimeProjections
  import Q = QueueSpec
  import QI = QueueInvariants

  ghost predicate StateSound(st: State, limit: int) {
    && IndexesExact(st.s)
    && RunIdsIssued(StoreTurn(st.s, st.g))
    && LinksSound(st.s)
    && LeasesSound(StoreTurn(st.s, st.g))
    && QI.Sound(Q.Turn(st.continues, st.g), limit)
    && QI.Sound(Q.Turn(st.commands, st.g), limit)
  }

  lemma {:induction false} LinksAlwaysSound(g: Source, ops: seq<StoreOp>)
    ensures LinksSound(StoreRun(StoreTurn(EMPTY_STORE, g), ops).s)
  {
    if ops != [] {
      LinksAlwaysSound(g, ops[..|ops| - 1]);
      IndexesAlwaysExact(g, ops[..|ops| - 1]);
      StepKeepsLinks(StoreRun(StoreTurn(EMPTY_STORE, g), ops[..|ops| - 1]), ops[|ops| - 1]);
    }
  }

  /** In every reachable state: exact indexes, every command in one place, exact
      dead-lettering, unshared tokens, linked child runs that exist. */
  lemma ReachableStatesSound(limit: int, ops: seq<Op>)
    ensures StateSound(Execute(INITIAL, limit, ops), limit)
  {
    RunProjects(INITIAL, limit, ops);
    var trace := StoreTrace(INITIAL, limit, ops);
    IndexesAlwaysExact(START, trace);
    LinksAlwaysSound(START, trace);
    LeasesAlwaysSound(START, trace);
    QI.RunSound(Q.Turn(Q.EMPTY, START), limit, ContinueTrace(INITIAL, limit, ops));
    QI.RunSound(Q.Turn(Q.EMPTY, START), limit, CommandTrace(INITIAL, limit, ops));
  }

  // --------------------------------------------------------------- deletion

  /** A child row belongs to one of the runs, or is linked to one. */
  predicate Names(at: ChildRef, linked: Option<Id>, runs: set<Id>) {
    at.node.runId in runs || (linked.Some? && linked.value in runs)
  }

  /** Whatever names a deleted run is gone from every table, index and queue. */
  ghost predicate NamesNone(st: State, doomed: set<Id>) {
    && st.s.runs.Keys !! doomed
    && st.s.leases.Keys !! doomed
    && (forall at :: at in st.s.nodes ==> at.runId !in doomed)
    && (forall at :: at in st.s.children ==> !Names(at, st.s.children[at].childRunId, doomed))
    && (forall id :: id in st.s.attempts ==> st.s.attempts[id].child.node.runId !in doomed)
    && (forall kind, key :: key in Index(kind, st.s) ==> Index(kind, st.s)[key] !in doomed)
    && (forall x :: x in st.continues.waiting || x in st.commands.waiting ==> x.payload.runId !in doomed)
    && (forall c :: c in st.continues.claimed || c in st.commands.claimed ==> c.item.payload.runId !in doomed)
  }

  /** Every row that does not name a deleted run is as before. */
  ghost predicate RowsKept(st: State, st': State, doomed: set<Id>) {
    && (forall id :: id in st.s.runs && id !in doomed ==> id in st'.s.runs && st'.s.runs[id] == st.s.runs[id])
    && (forall id :: id in st.s.leases && id !in doomed ==> id in st'.s.leases && st'.s.leases[id] == st.s.leases[id])
    && (forall at :: at in st.s.nodes && at.runId !in doomed ==> at in st'.s.nodes && st'.s.nodes[at] == st.s.nodes[at])
    && (forall at :: at in st.s.children && !Names(at, st.s.children[at].childRunId, doomed) ==>
          at in st'.s.children && st'.s.children[at] == st.s.children[at])
    && (forall id :: id in st.s.attempts && st.s.attempts[id].child.node.runId !in doomed ==>
          id in st'.s.attempts && st'.s.attempts[id] == st.s.attempts[id])
  }

  /** A queue holds exactly what it held of other runs, but for the items that
      were dead before a date, if there is one. */
  ghost predicate QueueKept(q: Q.Queue, q': Q.Queue, doomed: set<Id>, sweep: Option<int>) {
    && (forall x :: x in q'.waiting <==>
          x in q.waiting && x.payload.runId !in doomed && !(sweep.Some? && x.deadAt.Some? && x.deadAt.value < sweep.value))
    && (forall c :: c in q'.claimed <==> c in q.claimed && c.item.payload.runId !in doomed)
  }

  ghost predicate OthersKept(st: State, st': State, doomed: set<Id>, sweep: Option<int>) {
    RowsKept(st, st', doomed) && QueueKept(st.continues, st'.continues, doomed, sweep)
    && QueueKept(st.commands, st'.commands, doomed, sweep)
  }

  lemma DeleteTreesExact(st: State, doomed: set<Id>)
    requires doomed != {}
    ensures NamesNone(DeleteTrees(st, doomed), doomed)
    ensures OthersKept(st, DeleteTrees(st, doomed), doomed, None)
  {
    Q.SparedMembers(st.continues.waiting, Q.OfRuns(doomed));
    Q.SparedMembers(st.commands.waiting, Q.OfRuns(doomed));
    Q.SparedClaimsMembers(st.continues.claimed, doomed);
    Q.SparedClaimsMembers(st.commands.claimed, doomed);
    var s' := DeleteTrees(st, doomed).s;
    forall kind, key | key in Index(kind, s')
      ensures Index(kind, s')[key] !in doomed
    {
      assert Index(kind, s') == Surviving(Index(kind, st.s), doomed);
    }
  }

  /** The set is the family of its seeds: every other member has its parent in
      it, or its root if roots count, no run outside has, and no smaller set
      with the seeds is closed this way. */
  ghost predicate IsFamily(runs: map<Id, Run>, seeds: set<Id>, family: set<Id>, rootsCount: bool) {
    && seeds <= family
    && (forall r :: r in runs && r !in family ==> !HasAbove(runs[r], family, rootsCount))
    && (forall member :: member in family && member !in seeds ==> member in runs && HasAbove(runs[member], family, rootsCount))
    && (forall other: set<Id> :: seeds <= other && (forall r :: r in runs && HasAbove(runs[r], other, rootsCount) ==> r in other)
          ==> family <= other)
  }

  predicate HasAbove(run: Run, family: set<Id>, rootsCount: bool) {
    (run.parentRunId.Some? && run.parentRunId.value in family) || (rootsCount && run.rootRunId in family)
  }

  lemma FamilyIsFamily(runs: map<Id, Run>, edges: Edges, seeds: set<Id>)
    ensures IsFamily(runs, seeds, Family(runs, edges, seeds), edges == ParentsAndRoots)
  {
    var family := Family(runs, edges, seeds);
    forall r | r in runs && r !in family
      ensures !HasAbove(runs[r], family, edges == ParentsAndRoots)
    {
      assert !FamilyEdge(runs[r], edges, family);
    }
    forall member | member in family && member !in seeds
      ensures member in runs && HasAbove(runs[member], family, edges == ParentsAndRoots)
    {
      MemberJoins(runs, edges, seeds, family, member);
    }
    forall other: set<Id> | seeds <= other && forall r :: r in runs && HasAbove(runs[r], other, edges == ParentsAndRoots) ==> r in other
      ensures family <= other
    {
      assert forall r :: r in runs && FamilyEdge(runs[r], edges, other) ==> HasAbove(runs[r], other, edges == ParentsAndRoots);
      assert Closed(runs, edges, other);
    }
  }

  /** A run may be deleted if it is stored, has no parent, and all of its family is terminal. */
  ghost predicate MayDelete(s: Store, id: Id, family: set<Id>) {
    && id in s.runs && s.runs[id].parentRunId == None
    && forall member :: member in family ==>
         member in s.runs && s.runs[member].status in {RunStatus.Completed, RunStatus.Failed, RunStatus.Cancelled}
  }

  /** Deleting a run removes exactly its family, the least set closed under
      parents and roots, all of it terminal, together with everything naming a
      member; nothing else changes and no survivor is left with a deleted
      parent or root. A refused deletion changes nothing. */
  lemma DeleteRunExact(st: State, limit: int, id: Id)
    ensures
      var st', family := Step(st, limit, DeleteRun(id)), FamilyOf(st.s, id);
      && IsFamily(st.s.runs, {id}, family, true)
      && if !MayDelete(st.s, id, family) then st' == st
         else
           && st'.s.runs.Keys == st.s.runs.Keys - family
           && NamesNone(st', family) && OthersKept(st, st', family, None)
           && forall r :: r in st'.s.runs ==> !HasAbove(st'.s.runs[r], family, true)
  {
    var family := FamilyOf(st.s, id);
    FamilyIsFamily(st.s.runs, ParentsAndRoots, {id});
    if Deletable(st.s, id) {
      assert id in family;
      DeleteTreesExact(st, family);
      forall r | r in st.s.runs && r !in family
        ensures !FamilyEdge(st.s.runs[r], ParentsAndRoots, family)
      {
      }
    }
  }

  /** A sweep after a deletion takes exactly the items dead before the date. */
  lemma SweepKeeps(q: Q.Queue, mid: Q.Queue, doomed: set<Id>, olderThan: int)
    requires QueueKept(q, mid, doomed, None)
    ensures QueueKept(q, Q.SweepDead(mid, olderThan), doomed, Some(olderThan))
  {
    Q.SparedMembers(mid.waiting, Q.DeadBefore(olderThan));
  }

  /** What pruning may select: terminal runs without a parent, last updated before the date. */
  predicate OldRoot(run: Run, olderThan: int) {
    && run.parentRunId == None && run.updatedAt < olderThan
    && run.status in {RunStatus.Completed, RunStatus.Failed, RunStatus.Cancelled}
  }

  lemma PruneKeepsOthers(st: State, roots: set<Id>, olderThan: int)
    ensures
      var family := PrunedFamily(st.s, roots);
      var st' := SweepDead(DeleteTrees(st, family), olderThan);
      NamesNone(st', family) && OthersKept(st, st', family, Some(olderThan))
  {
    var family := PrunedFamily(st.s, roots);
    if family == {} {
      assert DeleteTrees(st, family) == st;
    } else {
      DeleteTreesExact(st, family);
    }
    var mid := DeleteTrees(st, family);
    SweepKeeps(st.continues, mid.continues, family, olderThan);
    SweepKeeps(st.commands, mid.commands, family, olderThan);
  }

  /** All of them are old terminal roots. */
  ghost predicate OldRoots(s: Store, roots: set<Id>, olderThan: int) {
    forall id :: id in roots ==> id in s.runs && OldRoot(s.runs[id], olderThan)
  }

  lemma PruneAccepted(st: State, limit: int, roots: set<Id>, olderThan: int)
    ensures Step(st, limit, Prune(roots, olderThan))
         == if OldRoots(st.s, roots, olderThan) then SweepDead(DeleteTrees(st, PrunedFamily(st.s, roots)), olderThan) else st
  {
    assert Prunable(st.s, roots, olderThan) <==> OldRoots(st.s, roots, olderThan);
  }

  /** Pruning removes the selected roots with all their descendants and sweeps
      the waiting items that were dead before the date, if all selected are old
      terminal roots; nothing else changes, and no survivor is left with a
      deleted parent. */
  lemma PruneExact(st: State, limit: int, roots: set<Id>, olderThan: int)
    ensures
      var st', family := Step(st, limit, Prune(roots, olderThan)), PrunedFamily(st.s, roots);
      if !OldRoots(st.s, roots, olderThan) then st' == st
      else
        && IsFamily(st.s.runs, roots, family, false) && family <= st.s.runs.Keys
        && st'.s.runs.Keys == st.s.runs.Keys - family
        && NamesNone(st', family)
        && OthersKept(st, st', family, Some(olderThan))
        && forall r :: r in st'.s.runs ==> !HasAbove(st'.s.runs[r], family, false)
  {
    var family := PrunedFamily(st.s, roots);
    FamilyIsFamily(st.s.runs, Parents, roots);
    PruneKeepsOthers(st, roots, olderThan);
    PruneAccepted(st, limit, roots, olderThan);
    if OldRoots(st.s, roots, olderThan) {
      assert roots <= st.s.runs.Keys;
    }
  }

  // --------------------------------------------------------------- attempts

  /** Every member of a least family is a seed or is joined by an edge into it. */
  lemma MemberJoins(runs: map<Id, Run>, edges: Edges, seeds: set<Id>, family: set<Id>, id: Id)
    requires IsLeastFamily(runs, edges, seeds, family) && id in family && id !in seeds
    ensures id in runs && FamilyEdge(runs[id], edges, family)
  {
    if !(id in runs && FamilyEdge(runs[id], edges, family)) {
      var other := family - {id};
      forall r | r in runs && FamilyEdge(runs[r], edges, other)
        ensures r in other
      {
        assert FamilyEdge(runs[r], edges, family);
      }
      assert Closed(runs, edges, other);
      assert false;
    }
  }

  /** Every run with a parent has it stored, under the same root. */
  ghost predicate FamiliesConsistent(s: Store) {
    forall id :: id in s.runs && s.runs[id].parentRunId.Some? ==>
      && s.runs[id].parentRunId.value in s.runs
      && s.runs[s.runs[id].parentRunId.value].rootRunId == s.runs[id].rootRunId
  }

  /** A child row that a deletion takes along belongs to a deleted run. */
  lemma DoomedChildHasDoomedRun(st: State, op: Op, at: ChildRef)
    requires LinksSound(st.s)
    requires op.DeleteRun? ==> FamiliesConsistent(st.s)
    requires at in st.s.children && ChildDoomed(at, st.s.children[at], Doomed(st, op))
    ensures at.node.runId in Doomed(st, op)
  {
    var family := Doomed(st, op);
    if at.node.runId !in family {
      var linked := st.s.children[at].childRunId.value;
      if op.DeleteRun? {
        MemberJoins(st.s.runs, ParentsAndRoots, {op.id}, family, linked);
      } else {
        MemberJoins(st.s.runs, Parents, op.roots, family, linked);
      }
    }
  }

  /** Pruning never orphans an attempt; deleting a run never does in a store with consistent families. */
  lemma DeletionOrphansNone(st: State, op: Op)
    requires LinksSound(st.s)
    requires op.DeleteRun? ==> FamiliesConsistent(st.s)
    ensures NoOrphans(st.s, Doomed(st, op))
  {
    forall at | at in st.s.children && ChildDoomed(at, st.s.children[at], Doomed(st, op))
      ensures at.node.runId in Doomed(st, op)
    {
      DoomedChildHasDoomedRun(st, op, at);
    }
  }

  /** Steps that delete nothing keep attempt accounting. */
  lemma UndeletingStepKeepsAttempts(st: State, limit: int, op: Op)
    requires AttemptsSound(st.s) && AttemptIdsIssued(StoreTurn(st.s, st.g)) && Doomed(st, op) == {}
    ensures AttemptsSound(Step(st, limit, op).s)
  {
    var t := StoreTurn(st.s, st.g);
    if op.OnStore? && Callable(op) {
      StepKeepsAttemptsIff(t, op.store);
    } else if op.StartWorkflowRun? {
      StepKeepsAttemptsIff(t, CreatingRun(op.request, op.wall));
    }
  }

  /** A step that deletes rows keeps attempt accounting iff the rows orphan no attempt. */
  lemma DeletingStepKeepsAttemptsIff(st: State, limit: int, op: Op)
    requires AttemptsSound(st.s) && AttemptIdsIssued(StoreTurn(st.s, st.g)) && Doomed(st, op) != {}
    ensures AttemptsSound(Step(st, limit, op).s) <==> NoOrphans(st.s, Doomed(st, op))
  {
    DeletingStepRows(st, limit, op);
    DeleteKeepsSoundIff(st.s, Doomed(st, op));
  }

  lemma DeletingStepRows(st: State, limit: int, op: Op)
    requires Doomed(st, op) != {}
    ensures Step(st, limit, op).s == DeleteRuns(st.s, Doomed(st, op))
  {
  }

  /** Attempt accounting breaks at exactly one kind of step: the deletion of a
      run whose family contains the linked run of a child with attempts, but
      not the child's own run. */
  lemma StepKeepsAttemptsIffNoOrphans(st: State, limit: int, op: Op)
    requires AttemptsSound(st.s) && AttemptIdsIssued(StoreTurn(st.s, st.g)) && LinksSound(st.s)
    ensures AttemptsSound(Step(st, limit, op).s) <==>
            !(op.DeleteRun? && Deletable(st.s, op.id) && !NoOrphans(st.s, FamilyOf(st.s, op.id)))
  {
    if Doomed(st, op) == {} {
      UndeletingStepKeepsAttempts(st, limit, op);
      assert op.DeleteRun? && Deletable(st.s, op.id) ==> op.id in FamilyOf(st.s, op.id);
    } else {
      DeletingStepKeepsAttemptsIff(st, limit, op);
      if !op.DeleteRun? {
        DeletionOrphansNone(st, op);
      }
    }
  }

  predicate ConsistentRequest(s: Store, input: CreateRunInput) {
    input.parentRunId.Some? ==>
      input.parentRunId.value in s.runs && input.rootRunId == Some(s.runs[input.parentRunId.value].rootRunId)
  }

  /** The caller passes a stored parent together with that parent's root, as the coordinator does. */
  predicate Disciplined(st: State, op: Op) {
    match op
    case OnStore(CreatingRun(input, _)) => ConsistentRequest(st.s, input)
    case OnStore(EnsuringChildRun(p, _)) => ConsistentRequest(st.s, ChildRunInput(p))
    case StartWorkflowRun(input, _, _) => ConsistentRequest(st.s, input)
    case _ => true
  }

  predicate DisciplinedRun(st: State, limit: int, ops: seq<Op>)
    decreases |ops|
  {
    ops == [] || (DisciplinedRun(st, limit, ops[..|ops| - 1]) &&
                  Disciplined(Execute(st, limit, ops[..|ops| - 1]), ops[|ops| - 1]))
  }

  lemma CreateKeepsFamilies(t: StoreTurn, input: CreateRunInput, wall: int)
    requires FamiliesConsistent(t.s) && RunIdsIssued(t) && ConsistentRequest(t.s, input)
    ensures FamiliesConsistent(CreateRun(t, input, wall).s)
  {
  }

  lemma DeleteKeepsFamilies(s: Store, doomed: set<Id>)
    requires FamiliesConsistent(s) && Closed(s.runs, Parents, doomed)
    ensures FamiliesConsistent(DeleteRuns(s, doomed))
  {
    forall id | id in s.runs && id !in doomed
      ensures !FamilyEdge(s.runs[id], Parents, doomed)
    {
    }
  }

  lemma OtherStepsKeepFamilies(t: StoreTurn, op: StoreOp)
    requires FamiliesConsistent(t.s) && RunIdsIssued(t)
    requires !op.CreatingRun? && !op.EnsuringChildRun? && !op.Deleting?
    ensures FamiliesConsistent(StoreStep(t, op).s)
  {
    var s' := StoreStep(t, op).s;
    if !op.ChangingRun? {
      OtherStepsKeepRuns(t, op);
    }
    assert s'.runs.Keys == t.s.runs.Keys;
    forall id | id in t.s.runs
      ensures s'.runs[id].parentRunId == t.s.runs[id].parentRunId && s'.runs[id].rootRunId == t.s.runs[id].rootRunId
    {
    }
  }

  lemma DoomedClosed(st: State, op: Op)
    ensures Closed(st.s.runs, Parents, Doomed(st, op))
  {
    var family := Doomed(st, op);
    forall id | id in st.s.runs && FamilyEdge(st.s.runs[id], Parents, family)
      ensures id in family
    {
      assert FamilyEdge(st.s.runs[id], ParentsAndRoots, family);
    }
  }

  lemma StepKeepsFamilies(st: State, limit: int, op: Op)
    requires FamiliesConsistent(st.s) && RunIdsIssued(StoreTurn(st.s, st.g)) && Disciplined(st, op)
    ensures FamiliesConsistent(Step(st, limit, op).s)
  {
    var t := StoreTurn(st.s, st.g);
    match op
    case OnStore(o) =>
      if Callable(op) {
        match o
        case CreatingRun(input, wall) => CreateKeepsFamilies(t, input, wall);
        case EnsuringChildRun(p, wall) =>
          CreateKeepsFamilies(t, ChildRunInput(p), wall);
        case _ => OtherStepsKeepFamilies(t, o);
      }
    case StartWorkflowRun(input, _, wall) => CreateKeepsFamilies(t, input, wall);
    case _ =>
      DoomedClosed(st, op);
      DeleteKeepsFamilies(st.s, Doomed(st, op));
  }

  /** Attempt fencing over whole runs: with disciplined callers the attempts of
      every child are numbered 1..attemptCount with the last one current, at
      most one is ever completed, and a completed attempt has completed its child. */
  lemma {:induction false} AttemptFencing(limit: int, ops: seq<Op>)
    requires DisciplinedRun(INITIAL, limit, ops)
    ensures
      var st := Execute(INITIAL, limit, ops);
      AttemptsSound(st.s) && FamiliesConsistent(st.s)
  {
    if ops != [] {
      var before := ops[..|ops| - 1];
      AttemptFencing(limit, before);
      ReachableStatesSound(limit, before);
      RunProjects(INITIAL, limit, before);
      AttemptIdsAlwaysIssued(StoreTurn(EMPTY_STORE, START), StoreTrace(INITIAL, limit, before));
      var mid, op := Execute(INITIAL, limit, before), ops[|ops| - 1];
      StepKeepsAttemptsIffNoOrphans(mid, limit, op);
      DeletionOrphansNone(mid, op);
      StepKeepsFamilies(mid, limit, op);
    }
  }
}
