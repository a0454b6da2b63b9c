/** The three run indexes always equal what a full scan of the runs computes,
    whatever is created, finished, cancelled, pruned or deleted. */
module StoreIndexes {
  import opened Identifiers
  import opened Commands
  import opened StoreSpec

  /** The key under which a run occupies an index, if it does. */
  datatype IndexKind = ByIdempotencyKey | ByActiveKey | ByAllKey

  function Occupies(kind: IndexKind, run: Run): Option<Value> {
    match kind
    case ByIdempotencyKey => run.idempotencyKey
    case ByActiveKey =>
      if run.unique.Some? && run.unique.value.scope.Active? && !TerminalRun(run.status)
      then Some(run.unique.value.key) else None
    case ByAllKey =>
      if run.unique.Some? && run.unique.value.scope.All? then Some(run.unique.value.key) else None
  }

  function Index(kind: IndexKind, s: Store): map<Value, Id> {
    match kind
    case ByIdempotencyKey => s.idempotency
    case ByActiveKey => s.activeUnique
    case ByAllKey => s.allUnique
  }

  /** The index maps exactly the occupied keys, each to the run occupying it. */
  ghost predicate Exact(runs: map<Id, Run>, index: map<Value, Id>, kind: IndexKind) {
    && (forall key :: key in index ==> index[key] in runs && Occupies(kind, runs[index[key]]) == Some(key))
    && (forall id :: id in runs && Occupies(kind, runs[id]).Some? ==>
          Occupies(kind, runs[id]).value in index && index[Occupies(kind, runs[id]).value] == id)
  }

  ghost predicate IndexesExact(s: Store) {
    forall kind :: Exact(s.runs, Index(kind, s), kind)
  }

  ghost predicate RunIdsIssued(t: StoreTurn) {
    forall id :: id in t.s.runs ==> t.g.HasIssued(id)
  }

  /** No two runs share an idempotency key, an active key, or an all-scope key. */
  lemma KeysAreUnique(s: Store, kind: IndexKind, a: Id, b: Id)
    requires IndexesExact(s) && a in s.runs && b in s.runs
    requires Occupies(kind, s.runs[a]).Some? && Occupies(kind, s.runs[a]) == Occupies(kind, s.runs[b])
    ensures a == b
  {
    assert Exact(s.runs, Index(kind, s), kind);
  }

  lemma ExactAfterInsert(runs: map<Id, Run>, index: map<Value, Id>, kind: IndexKind, id: Id, run: Run, index': map<Value, Id>)
    requires Exact(runs, index, kind) && id !in runs
    requires Occupies(kind, run).Some? ==> Occupies(kind, run).value !in index && index' == index[Occupies(kind, run).value := id]
    requires Occupies(kind, run).None? ==> index' == index
    ensures Exact(runs[id := run], index', kind)
  {
  }

  lemma CreateKeepsIndexes(t: StoreTurn, input: CreateRunInput, wall: int)
    requires IndexesExact(t.s) && RunIdsIssued(t)
    ensures IndexesExact(CreateRun(t, input, wall).s) && RunIdsIssued(CreateRun(t, input, wall))
    ensures t.g.AtMost(CreateRun(t, input, wall).g)
  {
    if Judge(t.s, input).Admitted? {
      var id := NewRunId(t.g);
      var run := NewRun(id, input, t.g.Tick(wall).last);
      var s' := CreateRun(t, input, wall).s;
      forall kind
        ensures Exact(s'.runs, Index(kind, s'), kind)
      {
        assert Exact(t.s.runs, Index(kind, t.s), kind);
        ExactAfterInsert(t.s.runs, Index(kind, t.s), kind, id, run, Index(kind, s'));
      }
    }
  }

  /** A run that keeps its key keeps the index exact, and one that gives it up
      does if the key leaves the index. */
  lemma ExactAfterUpdate(runs: map<Id, Run>, index: map<Value, Id>, kind: IndexKind, id: Id, run: Run, index': map<Value, Id>)
    requires Exact(runs, index, kind) && id in runs
    requires
      || (Occupies(kind, run) == Occupies(kind, runs[id]) && index' == index)
      || (Occupies(kind, run).None? && Occupies(kind, runs[id]).Some? && index' == index - {Occupies(kind, runs[id]).value})
    ensures Exact(runs[id := run], index', kind)
  {
    var runs' := runs[id := run];
    forall key | key in index'
      ensures index'[key] in runs' && Occupies(kind, runs'[index'[key]]) == Some(key)
    {
      assert index[key] in runs && Occupies(kind, runs[index[key]]) == Some(key);
    }
    forall other | other in runs' && Occupies(kind, runs'[other]).Some?
      ensures Occupies(kind, runs'[other]).value in index' && index'[Occupies(kind, runs'[other]).value] == other
    {
      assert Occupies(kind, runs[other]).Some?;
    }
  }

  lemma ChangeKeepsIndex(t: StoreTurn, id: Id, change: RunChange, wall: int, kind: IndexKind)
    requires Exact(t.s.runs, Index(kind, t.s), kind) && id in t.s.runs && RunChangeApplies(change, t.s.runs[id].status)
    ensures var s' := ChangeRun(t, id, change, wall).s; Exact(s'.runs, Index(kind, s'), kind)
  {
    var s' := ChangeRun(t, id, change, wall).s;
    assert !TerminalRun(t.s.runs[id].status);
    if kind == ByActiveKey && Occupies(kind, t.s.runs[id]).Some? {
      var key := Occupies(kind, t.s.runs[id]).value;
      assert key in t.s.activeUnique && t.s.activeUnique[key] == id;
    }
    ExactAfterUpdate(t.s.runs, Index(kind, t.s), kind, id, s'.runs[id], Index(kind, s'));
  }

  lemma ChangeKeepsIndexes(t: StoreTurn, id: Id, change: RunChange, wall: int)
    requires IndexesExact(t.s) && RunIdsIssued(t)
    ensures IndexesExact(ChangeRun(t, id, change, wall).s) && RunIdsIssued(ChangeRun(t, id, change, wall))
  {
    if id in t.s.runs && RunChangeApplies(change, t.s.runs[id].status) {
      forall kind
        ensures Exact(ChangeRun(t, id, change, wall).s.runs, Index(kind, ChangeRun(t, id, change, wall).s), kind)
      {
        assert Exact(t.s.runs, Index(kind, t.s), kind);
        ChangeKeepsIndex(t, id, change, wall, kind);
      }
    }
  }

  lemma DeleteKeepsIndexes(s: Store, doomed: set<Id>)
    requires IndexesExact(s)
    ensures IndexesExact(DeleteRuns(s, doomed))
  {
    var s' := DeleteRuns(s, doomed);
    forall kind
      ensures Exact(s'.runs, Index(kind, s'), kind)
    {
      assert Exact(s.runs, Index(kind, s), kind);
      assert Index(kind, s') == Surviving(Index(kind, s), doomed);
    }
  }

  ghost predicate SameRuns(a: Store, b: Store) {
    a.runs == b.runs && a.idempotency == b.idempotency && a.activeUnique == b.activeUnique && a.allUnique == b.allUnique
  }

  lemma SameRunsExact(a: Store, b: Store)
    requires IndexesExact(a) && SameRuns(a, b)
    ensures IndexesExact(b)
  {
    forall kind
      ensures Exact(b.runs, Index(kind, b), kind)
    {
      assert Exact(a.runs, Index(kind, a), kind);
    }
  }

  predicate TouchesRuns(op: StoreOp) {
    op.CreatingRun? || op.EnsuringChildRun? || op.ChangingRun? || op.Deleting?
  }

  lemma OtherStepsKeepRuns(t: StoreTurn, op: StoreOp)
    requires !TouchesRuns(op)
    ensures SameRuns(t.s, StoreStep(t, op).s) && t.g.AtMost(StoreStep(t, op).g)
  {
  }

  lemma ChildRunKeepsIndexes(t: StoreTurn, p: ChildRunParams, wall: int)
    requires IndexesExact(t.s) && RunIdsIssued(t)
    ensures IndexesExact(EnsureChildRun(t, p, wall).s) && RunIdsIssued(EnsureChildRun(t, p, wall))
  {
    CreateKeepsIndexes(t, ChildRunInput(p), wall);
    var t' := CreateRun(t, ChildRunInput(p), wall);
    var r := EnsureChildRun(t, p, wall);
    if r != t {
      assert SameRuns(t'.s, r.s);
      SameRunsExact(t'.s, r.s);
    }
  }

  lemma StepKeepsIndexes(t: StoreTurn, op: StoreOp)
    requires IndexesExact(t.s) && RunIdsIssued(t)
    ensures IndexesExact(StoreStep(t, op).s) && RunIdsIssued(StoreStep(t, op))
  {
    match op
    case CreatingRun(input, wall) => CreateKeepsIndexes(t, input, wall);
    case EnsuringChildRun(params, wall) => ChildRunKeepsIndexes(t, params, wall);
    case ChangingRun(id, change, wall) => ChangeKeepsIndexes(t, id, change, wall);
    case Deleting(doomed) => DeleteKeepsIndexes(t.s, doomed);
    case _ =>
      OtherStepsKeepRuns(t, op);
      SameRunsExact(t.s, StoreStep(t, op).s);
  }

  /** In every reachable store the indexes are exact. */
  lemma {:induction false} IndexesAlwaysExact(g: Source, ops: seq<StoreOp>)
    ensures
      var t := StoreRun(StoreTurn(EMPTY_STORE, g), ops);
      IndexesExact(t.s) && RunIdsIssued(t)
  {
    if ops == [] {
      forall kind
        ensures Exact(EMPTY_STORE.runs, Index(kind, EMPTY_STORE), kind)
      {
      }
    } else {
      IndexesAlwaysExact(g, ops[..|ops| - 1]);
      StepKeepsIndexes(StoreRun(StoreTurn(EMPTY_STORE, g), ops[..|ops| - 1]), ops[|ops| - 1]);
    }
  }

  // ------------------------------------------------------- create requests

  /** Both runs are the same but for their keys. */
  predicate SameButKeys(a: Run, b: Run) {
    a.(idempotencyKey := b.idempotencyKey, unique := b.unique) == b
  }

  /** A run matches a request if and only if the request, made in its place,
      would have made the same run, keys aside. */
  lemma MatchingMeans(id: Id, made: CreateRunInput, date: int, asked: CreateRunInput)
    ensures MatchesInput(id, NewRun(id, made, date), asked) <==> SameButKeys(NewRun(id, made, date), NewRun(id, asked, date))
  {
  }

  predicate HoldsKey(run: Run, input: CreateRunInput) {
    input.idempotencyKey.Some? && run.idempotencyKey == input.idempotencyKey
  }

  /** The run stands in the way of a unique request: same key, same scope, and
      in the active scope not yet over. */
  predicate Rivals(run: Run, input: CreateRunInput) {
    && input.unique.Some? && run.unique.Some?
    && run.unique.value.key == input.unique.value.key && run.unique.value.scope == input.unique.value.scope
    && (input.unique.value.scope == Active ==> run.status !in {RunStatus.Completed, RunStatus.Failed, RunStatus.Cancelled})
  }

  /** What a create request meets, found by a scan of the runs: it joins the
      holder of its idempotency key if that matches and conflicts with it if
      not; failing a holder it joins its rival if it asks to and conflicts if
      not; and it is admitted if and only if there is neither. */
  lemma JudgedByScan(s: Store, input: CreateRunInput)
    requires IndexesExact(s)
    ensures forall id :: id in s.runs && HoldsKey(s.runs[id], input) ==>
              Judge(s, input) == if MatchesInput(id, s.runs[id], input) then Joins(id) else Conflicts
    ensures forall id :: id in s.runs && Rivals(s.runs[id], input) ==>
              (exists other :: other in s.runs && HoldsKey(s.runs[other], input))
              || Judge(s, input) == if input.unique.value.join then Joins(id) else Conflicts
    ensures Judge(s, input) == Admitted <==>
              forall id :: id in s.runs ==> !HoldsKey(s.runs[id], input) && !Rivals(s.runs[id], input)
  {
    assert Exact(s.runs, Index(ByIdempotencyKey, s), ByIdempotencyKey);
    assert Exact(s.runs, Index(ByActiveKey, s), ByActiveKey);
    assert Exact(s.runs, Index(ByAllKey, s), ByAllKey);
    forall id | id in s.runs && HoldsKey(s.runs[id], input)
      ensures Judge(s, input) == if MatchesInput(id, s.runs[id], input) then Joins(id) else Conflicts
    {
      assert Occupies(ByIdempotencyKey, s.runs[id]) == input.idempotencyKey;
    }
    forall id | id in s.runs && Rivals(s.runs[id], input)
      ensures (exists other :: other in s.runs && HoldsKey(s.runs[other], input))
              || Judge(s, input) == if input.unique.value.join then Joins(id) else Conflicts
    {
      RivalIsIndexed(s, input, id);
    }
    if Judge(s, input) != Admitted {
      NotAdmitted(s, input);
    }
  }

  function ScopeKind(scope: UniqueScope): IndexKind {
    if scope == All then ByAllKey else ByActiveKey
  }

  lemma RivalIsIndexed(s: Store, input: CreateRunInput, id: Id)
    requires IndexesExact(s) && id in s.runs && Rivals(s.runs[id], input)
    ensures (exists other :: other in s.runs && HoldsKey(s.runs[other], input))
            || Judge(s, input) == if input.unique.value.join then Joins(id) else Conflicts
  {
    var kind := ScopeKind(input.unique.value.scope);
    assert Exact(s.runs, Index(kind, s), kind);
    assert Exact(s.runs, Index(ByIdempotencyKey, s), ByIdempotencyKey);
    assert Occupies(kind, s.runs[id]) == Some(input.unique.value.key);
    if input.idempotencyKey.Some? && input.idempotencyKey.value in s.idempotency {
      assert HoldsKey(s.runs[s.idempotency[input.idempotencyKey.value]], input);
    }
  }

  lemma NotAdmitted(s: Store, input: CreateRunInput)
    requires IndexesExact(s) && Judge(s, input) != Admitted
    ensures exists id :: id in s.runs && (HoldsKey(s.runs[id], input) || Rivals(s.runs[id], input))
  {
    assert Exact(s.runs, Index(ByIdempotencyKey, s), ByIdempotencyKey);
    if input.idempotencyKey.Some? && input.idempotencyKey.value in s.idempotency {
      assert HoldsKey(s.runs[s.idempotency[input.idempotencyKey.value]], input);
    } else {
      var kind := ScopeKind(input.unique.value.scope);
      assert Exact(s.runs, Index(kind, s), kind);
      var id := Index(kind, s)[input.unique.value.key];
      assert Occupies(kind, s.runs[id]) == Some(input.unique.value.key);
      assert Rivals(s.runs[id], input);
    }
  }
}
