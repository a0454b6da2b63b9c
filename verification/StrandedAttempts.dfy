/** A run in which an undisciplined caller breaks attempt accounting. */
module StrandedAttempts {
  import opened Identifiers
  import opened Commands
  import opened StoreSpec
  import opened RunFamilies
  import opened StoreAttempts
  import opened RuntimeSpec

  const PLAIN := CreateRunInput(None, None, "w", None, "null", None, None, None, None, None)
  const ROOT := Issued("run", 1)
  const OWNER := Issued("run", 2)
  const ATTEMPT := Issued("attempt", 3)
  const LINKED := Issued("run", 5)
  const CHILD := ChildRef(NodeRef(OWNER, "n"), "k")

  /** Two unrelated runs; a child of the second has an attempt, and links to a
      child run that is filed under the first run as its root. */
  function SetupStep(n: nat): Op {
    if n == 0 then OnStore(CreatingRun(PLAIN, 0))
    else if n == 1 then OnStore(CreatingRun(PLAIN, 0))
    else if n == 2 then OnStore(CreatingNode(CHILD.node, "activity"))
    else if n == 3 then OnStore(EnsuringChildren(CHILD.node, [ChildSpec("k", "activity", 0, None, None)]))
    else if n == 4 then OnStore(CreatingAttempt(CHILD, "null", None))
    else if n == 5 then OnStore(EnsuringChildRun(ChildRunParams(CHILD, Workflow, "w", "null", ROOT, None), 0))
    else if n == 6 then OnStore(ChangingRun(ROOT, Complete("null"), 0))
    else OnStore(ChangingRun(LINKED, Complete("null"), 0))
  }

  function Setup(n: nat): (ops: seq<Op>)
    ensures |ops| == n
  {
    if n == 0 then [] else Setup(n - 1) + [SetupStep(n - 1)]
  }

  lemma ExecuteOneMore(st: State, limit: int, ops: seq<Op>, op: Op)
    ensures Execute(st, limit, ops + [op]) == Step(Execute(st, limit, ops), limit, op)
  {
    assert (ops + [op])[..|ops + [op]| - 1] == ops;
  }

  function After(limit: int, n: nat): State {
    Execute(INITIAL, limit, Setup(n))
  }

  lemma NextSetupStep(limit: int, n: nat)
    ensures After(limit, n + 1) == Step(After(limit, n), limit, SetupStep(n))
  {
    ExecuteOneMore(INITIAL, limit, Setup(n), SetupStep(n));
  }

  /** The two roots are stored and nothing else is. */
  lemma TwoRootsCreated(limit: int)
    ensures
      var st := After(limit, 2);
      && st.s.runs == map[ROOT := NewRun(ROOT, PLAIN, 1), OWNER := NewRun(OWNER, PLAIN, 2)]
      && st.s.nodes == map[] && st.s.children == map[] && st.s.attempts == map[] && st.s.idempotency == map[]
      && st.g == Source(3, 2)
  {
    NextSetupStep(limit, 0);
    NextSetupStep(limit, 1);
  }

  /** The first child of an empty table, as a step. */
  lemma CreatesChild(st: State, limit: int, at: NodeRef, spec: ChildSpec)
    requires st.s.children == map[] && at in st.s.nodes
    ensures
      var st' := Step(st, limit, OnStore(EnsuringChildren(at, [spec])));
      st' == st.(s := st.s.(children := map[ChildRef(at, spec.key) := NewChild(spec)]))
  {
    assert [spec][..0] == [];
    assert InsertChildren(map[], at, [spec][..0]) == map[];
    assert !HasChildren(st.s, at);
  }

  lemma ChildReady(limit: int)
    ensures
      var before, st := After(limit, 2), After(limit, 4);
      && st.s.runs == before.s.runs && st.s.idempotency == map[] && st.s.attempts == map[]
      && st.s.children == map[CHILD := NewChild(ChildSpec("k", "activity", 0, None, None))]
      && st.g == Source(3, 2)
  {
    TwoRootsCreated(limit);
    NextSetupStep(limit, 2);
    NextSetupStep(limit, 3);
    CreatesChild(After(limit, 3), limit, CHILD.node, ChildSpec("k", "activity", 0, None, None));
  }

  /** The first attempt of a pending child, as a step. */
  lemma StartsAttempt(st: State, limit: int, at: ChildRef, input: Value)
    requires at in st.s.children && st.s.children[at].status.Pending?
    ensures
      var st' := Step(st, limit, OnStore(CreatingAttempt(at, input, None)));
      var id := NewAttemptId(st.g);
      && st'.s.runs == st.s.runs && st'.s.idempotency == st.s.idempotency
      && st'.s.children.Keys == st.s.children.Keys && st'.s.children[at].status.Running?
      && st'.s.children[at].childRunId == st.s.children[at].childRunId
      && st'.s.attempts.Keys == st.s.attempts.Keys + {id} && st'.s.attempts[id].child == at
      && st'.g == st.g.Take().Take()
  {
  }

  lemma FirstAttempt(st: State, limit: int)
    requires st.s.children == map[CHILD := NewChild(ChildSpec("k", "activity", 0, None, None))]
    requires st.s.attempts == map[] && st.g == Source(3, 2)
    ensures
      var st' := Step(st, limit, SetupStep(4));
      && st'.s.runs == st.s.runs && st'.s.idempotency == st.s.idempotency
      && st'.s.children.Keys == {CHILD} && st'.s.children[CHILD].status.Running? && st'.s.children[CHILD].childRunId.None?
      && st'.s.attempts.Keys == {ATTEMPT} && st'.s.attempts[ATTEMPT].child == CHILD
      && st'.g == Source(5, 2)
  {
    StartsAttempt(st, limit, CHILD, "null");
  }

  lemma AttemptStarted(limit: int)
    ensures
      var before, st := After(limit, 2), After(limit, 5);
      && st.s.runs == before.s.runs && st.s.idempotency == map[]
      && st.s.children.Keys == {CHILD} && st.s.children[CHILD].status.Running? && st.s.children[CHILD].childRunId.None?
      && st.s.attempts.Keys == {ATTEMPT} && st.s.attempts[ATTEMPT].child == CHILD
      && st.g == Source(5, 2)
  {
    ChildReady(limit);
    NextSetupStep(limit, 4);
    FirstAttempt(After(limit, 4), limit);
  }

  /** The first child run of a running child, without an idempotency key, as a step. */
  lemma LinksRun(st: State, limit: int, p: ChildRunParams, wall: int)
    requires p.child in st.s.children && st.s.children[p.child].status.Running? && st.s.children[p.child].childRunId.None?
    requires p.idempotencyKey.None?
    ensures
      var st' := Step(st, limit, OnStore(EnsuringChildRun(p, wall)));
      var g := st.g.Tick(wall);
      var id := g.Fresh("run");
      && st'.s.runs == st.s.runs[id := NewRun(id, ChildRunInput(p), g.last)]
      && st'.s.children.Keys == st.s.children.Keys && st'.s.children[p.child].childRunId == Some(id)
      && st'.s.attempts == st.s.attempts
  {
  }

  lemma ChildRunLinked(limit: int)
    ensures
      var before, st := After(limit, 5), After(limit, 6);
      && st.s.runs == before.s.runs[LINKED := NewRun(LINKED, ChildRunInput(ChildRunParams(CHILD, Workflow, "w", "null", ROOT, None)), 3)]
      && st.s.children.Keys == {CHILD} && st.s.children[CHILD].childRunId == Some(LINKED)
      && st.s.attempts == before.s.attempts
  {
    AttemptStarted(limit);
    NextSetupStep(limit, 5);
    LinksRun(After(limit, 5), limit, ChildRunParams(CHILD, Workflow, "w", "null", ROOT, None), 0);
  }

  lemma CompletesRun(st: State, limit: int, id: Id, output: Value, wall: int)
    requires id in st.s.runs && !TerminalRun(st.s.runs[id].status)
    ensures
      var run, st' := st.s.runs[id], Step(st, limit, OnStore(ChangingRun(id, Complete(output), wall)));
      && st'.s.runs.Keys == st.s.runs.Keys
      && (forall other :: other in st.s.runs && other != id ==> st'.s.runs[other] == st.s.runs[other])
      && st'.s.runs[id].status.Completed?
      && st'.s.runs[id].parentRunId == run.parentRunId && st'.s.runs[id].rootRunId == run.rootRunId
      && st'.s.children == st.s.children && st'.s.attempts == st.s.attempts
  {
  }

  /** A root, a run filed under it, and another run whose child links to that
      run while owning an attempt. */
  predicate Tangled(s: Store) {
    && s.runs.Keys == {ROOT, OWNER, LINKED}
    && s.runs[ROOT].parentRunId.None? && s.runs[ROOT].rootRunId == ROOT
    && s.runs[LINKED].parentRunId == Some(OWNER) && s.runs[LINKED].rootRunId == ROOT
    && s.runs[OWNER].parentRunId.None? && s.runs[OWNER].rootRunId == OWNER
    && CHILD in s.children && s.children[CHILD].childRunId == Some(LINKED)
    && ATTEMPT in s.attempts && s.attempts[ATTEMPT].child == CHILD
  }

  lemma TangleReached(limit: int)
    ensures
      var st := After(limit, 6);
      Tangled(st.s) && st.s.runs[ROOT].status.Queued? && st.s.runs[LINKED].status.Queued?
  {
    TwoRootsCreated(limit);
    AttemptStarted(limit);
    ChildRunLinked(limit);
  }

  lemma CompletingKeepsTangle(st: State, limit: int, id: Id)
    requires Tangled(st.s) && id in st.s.runs && !TerminalRun(st.s.runs[id].status)
    ensures
      var st' := Step(st, limit, OnStore(ChangingRun(id, Complete("null"), 0)));
      && Tangled(st'.s) && st'.s.runs[id].status.Completed?
      && forall other :: other in st.s.runs && other != id ==> st'.s.runs[other] == st.s.runs[other]
  {
    CompletesRun(st, limit, id, "null", 0);
  }

  lemma RootCompletes(limit: int)
    ensures
      var st := After(limit, 7);
      Tangled(st.s) && st.s.runs[ROOT].status.Completed? && st.s.runs[LINKED].status.Queued?
  {
    TangleReached(limit);
    NextSetupStep(limit, 6);
    CompletingKeepsTangle(After(limit, 6), limit, ROOT);
  }

  lemma SetupTangles(limit: int)
    ensures
      var st := After(limit, 8);
      Tangled(st.s) && st.s.runs[ROOT].status.Completed? && st.s.runs[LINKED].status.Completed?
  {
    RootCompletes(limit);
    NextSetupStep(limit, 7);
    CompletingKeepsTangle(After(limit, 7), limit, LINKED);
  }

  lemma TangledDeletionStrands(st: State, limit: int)
    requires Tangled(st.s) && st.s.runs[ROOT].status.Completed? && st.s.runs[LINKED].status.Completed?
    ensures
      var s' := Step(st, limit, DeleteRun(ROOT)).s;
      ATTEMPT in s'.attempts && CHILD !in s'.children && OWNER in s'.runs && !AttemptsSound(s')
  {
    var family := {ROOT, LINKED};
    assert IsLeastFamily(st.s.runs, ParentsAndRoots, {ROOT}, family);
    LeastFamilyUnique(st.s.runs, ParentsAndRoots, {ROOT}, FamilyOf(st.s, ROOT), family);
    var s' := Step(st, limit, DeleteRun(ROOT)).s;
    assert s' == DeleteRuns(st.s, family);
    assert ATTEMPT in s'.attempts && !Owned(s', ATTEMPT);
  }

  /** Without discipline attempt accounting can break: deleting the first run
      takes the child row of the second along and strands its attempt. */
  lemma UndisciplinedDeletionStrandsAttempt(limit: int)
    ensures
      var s := Execute(INITIAL, limit, Setup(8) + [DeleteRun(ROOT)]).s;
      ATTEMPT in s.attempts && CHILD !in s.children && OWNER in s.runs && !AttemptsSound(s)
  {
    SetupTangles(limit);
    ExecuteOneMore(INITIAL, limit, Setup(8), DeleteRun(ROOT));
    TangledDeletionStrands(After(limit, 8), limit);
  }
}
