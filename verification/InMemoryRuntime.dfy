/** The mutable runtime: tables, indexes and leases updated in place, and the
    two command queues. Every method is proved to perform exactly one step of
    RuntimeSpec and to return what that step promises its caller. */
module InMemoryRuntimes {
  import opened Identifiers
  import opened Commands
  import opened StoreSpec
  import opened RunFamilies
  import opened RuntimeSpec
  import opened CommandQueues
  import Q = QueueSpec

  /** The terminal roots one prune may select. */
  function PruneCandidates(runs: map<Id, Run>, statuses: set<RunStatus>, olderThan: int): set<Id> {
    set id | id in runs && runs[id].parentRunId.None? && TerminalRun(runs[id].status)
             && runs[id].status in statuses && runs[id].updatedAt < olderThan
  }

  /** The oldest candidates, as many as the batch allows. */
  ghost predicate IsOldestBatch(runs: map<Id, Run>, candidates: set<Id>, batchSize: int, roots: set<Id>) {
    && roots <= candidates && candidates <= runs.Keys
    && (|roots| == batchSize || (roots == candidates && |roots| <= batchSize) || (batchSize < 1 && roots == {}))
    && forall a, b :: a in roots && b in candidates - roots ==> runs[a].updatedAt <= runs[b].updatedAt
  }

  /** The roots are terminal runs without a parent, in one of the statuses and
      last updated before the date, as many as the batch allows; one like them
      is left out only if the batch is full of runs updated no later. */
  ghost predicate PicksOldest(runs: map<Id, Run>, statuses: set<RunStatus>, olderThan: int, batchSize: int, roots: set<Id>) {
    && (forall id :: id in roots ==> id in runs && IsOld(runs[id], statuses, olderThan))
    && (roots == {} || |roots| <= batchSize)
    && (forall id :: id in runs && IsOld(runs[id], statuses, olderThan) && id !in roots ==>
          |roots| >= batchSize && forall root :: root in roots ==> runs[root].updatedAt <= runs[id].updatedAt)
  }

  predicate IsOld(run: Run, statuses: set<RunStatus>, olderThan: int) {
    && run.parentRunId == None && run.updatedAt < olderThan && run.status in statuses
    && run.status in {RunStatus.Completed, RunStatus.Failed, RunStatus.Cancelled}
  }

  lemma OldestBatchPicks(runs: map<Id, Run>, statuses: set<RunStatus>, olderThan: int, batchSize: int, roots: set<Id>)
    requires IsOldestBatch(runs, PruneCandidates(runs, statuses, olderThan), batchSize, roots)
    ensures PicksOldest(runs, statuses, olderThan, batchSize, roots)
  {
    var candidates := PruneCandidates(runs, statuses, olderThan);
    assert forall id :: id in candidates <==> id in runs && IsOld(runs[id], statuses, olderThan);
    forall id | id in candidates && id !in roots
      ensures |roots| >= batchSize && forall root :: root in roots ==> runs[root].updatedAt <= runs[id].updatedAt
    {
      assert id in candidates - roots;
    }
  }

  /** Ensuring an attempt is creating one for a child that has none. */
  lemma EnsureIsCreateOnce(st: State, limit: int, at: ChildRef, input: Value, key: Option<Value>)
    ensures
      Step(st, limit, OnStore(EnsuringAttempt(at, input, key)))
      == if at in st.s.children && st.s.children[at].attemptCount == 0
         then Step(st, limit, OnStore(CreatingAttempt(at, input, key))) else st
  {
  }

  class InMemoryRuntime {
    const maxDeliveries: int
    const continues: CommandQueue
    const commands: CommandQueue
    var g: Source
    var runs: map<Id, Run>
    var nodes: map<NodeRef, Node>
    var children: map<ChildRef, Child>
    var attempts: map<Id, Attempt>
    var runIdempotencyKeys: map<Value, Id>
    var activeUniqueRunKeys: map<Value, Id>
    var allUniqueRunKeys: map<Value, Id>
    var runLeases: map<Id, RunLease>

    function Tables(): Store
      reads this
    {
      Store(runs, nodes, children, attempts, runIdempotencyKeys, activeUniqueRunKeys, allUniqueRunKeys, runLeases)
    }

    function Content(): State
      reads this, continues, commands
    {
      State(Tables(), g, continues.Content(), commands.Content())
    }

    constructor (maxDeliveries: int)
      ensures this.maxDeliveries == maxDeliveries && continues != commands
      ensures fresh(continues) && fresh(commands)
      ensures Content() == INITIAL
    {
      this.maxDeliveries := maxDeliveries;
      continues := new CommandQueue();
      commands := new CommandQueue();
      g := START;
      runs, nodes, children, attempts := map[], map[], map[], map[];
      runIdempotencyKeys, activeUniqueRunKeys, allUniqueRunKeys, runLeases := map[], map[], map[], map[];
    }

    // ---------------------------------------------------------------- runs

    /** The run a request meets, if any: one it joins, or one it conflicts with. */
    method FindExisting(input: CreateRunInput) returns (verdict: Verdict)
      ensures verdict == Judge(Tables(), input)
    {
      if input.idempotencyKey.Some? {
        var key := input.idempotencyKey.value;
        if key in runIdempotencyKeys {
          var existing := runIdempotencyKeys[key];
          if existing in runs && MatchesInput(existing, runs[existing], input) {
            return Joins(existing);
          }
          return Conflicts;
        }
      }
      if input.unique.Some? {
        var unique := input.unique.value;
        var uniqueKeys := if unique.scope.All? then allUniqueRunKeys else activeUniqueRunKeys;
        if unique.key in uniqueKeys && uniqueKeys[unique.key] in runs {
          if unique.join {
            return Joins(uniqueKeys[unique.key]);
          }
          return Conflicts;
        }
      }
      return Admitted;
    }

    /** Stores a new run under all its keys. */
    method StoreNewRun(id: Id, input: CreateRunInput)
      modifies this`runs, this`runIdempotencyKeys, this`activeUniqueRunKeys, this`allUniqueRunKeys
      ensures Tables() == InsertRun(old(Tables()), id, input, g.last)
    {
      runs := runs[id := NewRun(id, input, g.last)];
      if input.idempotencyKey.Some? {
        runIdempotencyKeys := runIdempotencyKeys[input.idempotencyKey.value := id];
      }
      if input.unique.Some? {
        if input.unique.value.scope.All? {
          allUniqueRunKeys := allUniqueRunKeys[input.unique.value.key := id];
        } else {
          activeUniqueRunKeys := activeUniqueRunKeys[input.unique.value.key := id];
        }
      }
    }

    method CreateRun(input: CreateRunInput, wall: int) returns (r: Outcome<Id>)
      modifies this
      ensures Content() == Step(old(Content()), maxDeliveries, OnStore(CreatingRun(input, wall)))
      ensures r == old(CreateOutcome(StoreTurn(Tables(), g), input))
    {
      var verdict := FindExisting(input);
      if verdict.Joins? {
        return Returned(verdict.id);
      }
      if verdict.Conflicts? {
        return Thrown;
      }
      g := g.Tick(wall);
      var id := g.Fresh("run");
      StoreNewRun(id, input);
      g := g.Take();
      return Returned(id);
    }

    /** Mark running or waiting, complete, fail, request cancellation, cancel. */
    method ChangeRun(id: Id, change: RunChange, wall: int)
      modifies this
      ensures Content() == Step(old(Content()), maxDeliveries, OnStore(ChangingRun(id, change, wall)))
    {
      if id !in runs || !RunChangeApplies(change, runs[id].status) {
        return;
      }
      g := g.Tick(wall);
      var updated := ChangedRun(runs[id], change, g.last);
      runs := runs[id := updated];
      if TerminalRun(updated.status) {
        ReleaseActiveUniqueKey(id, updated);
      }
    }

    method ReleaseActiveUniqueKey(id: Id, run: Run)
      modifies this`activeUniqueRunKeys
      ensures activeUniqueRunKeys == ReleasedKeys(old(Tables()), id, run)
    {
      if run.unique.Some? && run.unique.value.scope.Active? {
        var key := run.unique.value.key;
        if key in activeUniqueRunKeys && activeUniqueRunKeys[key] == id {
          activeUniqueRunKeys := activeUniqueRunKeys - {key};
        }
      }
    }

    // --------------------------------------------------------------- nodes

    method CreateNode(at: NodeRef, kind: string)
      modifies this
      ensures Content() == Step(old(Content()), maxDeliveries, OnStore(CreatingNode(at, kind)))
    {
      if at in nodes {
        return;
      }
      nodes := nodes[at := Node(kind, NodeStatus.Pending, None, None, None, None, 1)];
    }

    /** Set input, select case, complete, fail, cancel, wait. Setting the input
        of a missing node and selecting a second case throw. */
    method ChangeNode(at: NodeRef, change: NodeChange) returns (r: Outcome<()>)
      modifies this
      ensures Content() == Step(old(Content()), maxDeliveries, OnStore(ChangingNode(at, change)))
      ensures r.Thrown? <==>
              || (change.SetInput? && at !in old(nodes))
              || (change.SelectCase? && at in old(nodes) && !TerminalNode(old(nodes)[at].status)
                  && old(nodes)[at].selectedCase.Some? && old(nodes)[at].selectedCase.value != change.caseKey)
    {
      if at !in nodes {
        return if change.SetInput? then Thrown else Returned(());
      }
      var node := nodes[at];
      if TerminalNode(node.status) || (change.WaitNode? && node.status.Waiting?) {
        return Returned(());
      }
      if change.SelectCase? && node.selectedCase.Some? {
        return if node.selectedCase.value == change.caseKey then Returned(()) else Thrown;
      }
      nodes := nodes[at := ChangedNode(node, change)];
      return Returned(());
    }

    method CancelNodesOf(runId: Id)
      modifies this`nodes
      ensures nodes == CancelRunNodes(old(Tables()), runId).nodes
    {
      var todo := nodes.Keys;
      while todo != {}
        invariant todo <= nodes.Keys == old(nodes).Keys
        invariant forall at :: at in nodes ==>
          nodes[at] == if at in todo || at.runId != runId then old(nodes)[at] else CancelledNode(old(nodes)[at])
        decreases todo
      {
        var at :| at in todo;
        todo := todo - {at};
        if at.runId == runId && !TerminalNode(nodes[at].status) {
          nodes := nodes[at := CancelledNode(nodes[at])];
        }
      }
    }

    method CancelChildrenOf(runId: Id)
      modifies this`children
      ensures children == CancelRunNodes(old(Tables()), runId).children
    {
      var todo := children.Keys;
      while todo != {}
        invariant todo <= children.Keys == old(children).Keys
        invariant forall at :: at in children ==>
          children[at] == if at in todo || at.node.runId != runId then old(children)[at] else CancelledChild(old(children)[at])
        decreases todo
      {
        var at :| at in todo;
        todo := todo - {at};
        if at.node.runId == runId && !TerminalNode(children[at].status) {
          children := children[at := CancelledChild(children[at])];
        }
      }
    }

    method CancelNonTerminalRunNodes(runId: Id)
      modifies this
      ensures Content() == Step(old(Content()), maxDeliveries, OnStore(CancellingNodes(runId)))
    {
      CancelNodesOf(runId);
      CancelChildrenOf(runId);
    }

    // ------------------------------------------------------------ children

    method EnsureNodeChildren(at: NodeRef, specs: seq<ChildSpec>) returns (r: Outcome<bool>)
      modifies this
      ensures Content() == Step(old(Content()), maxDeliveries, OnStore(EnsuringChildren(at, specs)))
      ensures r == old(ChildrenOutcome(Tables(), at, specs))
    {
      if at !in nodes {
        return Thrown;
      }
      var existing := set c | c in children && c.node == at;
      assert existing == ChildrenOf(Tables(), at);
      if existing != {} {
        assert HasChildren(Tables(), at) by {
          var c :| c in existing;
          assert c in children;
        }
        var matches := |existing| == |specs|;
        var i := 0;
        while matches && i < |specs|
          invariant i <= |specs|
          invariant matches <==> |existing| == |specs| && forall j | 0 <= j < i :: SpecMatches(Tables(), at, specs[j])
          decreases |specs| - i
        {
          matches := SpecMatches(Tables(), at, specs[i]);
          i := i + 1;
        }
        return if matches then Returned(false) else Thrown;
      }
      assert !HasChildren(Tables(), at) by {
        assert forall c :: c in children && c.node == at ==> c in existing;
      }
      for i := 0 to |specs|
        invariant children == InsertChildren(old(children), at, specs[..i])
        invariant Content() == old(Content()).(s := old(Tables()).(children := children))
      {
        assert specs[..i + 1][..i] == specs[..i];
        children := children[ChildRef(at, specs[i].key) := NewChild(specs[i])];
      }
      assert specs[..|specs|] == specs;
      return Returned(true);
    }

    method EnsureChildRun(p: ChildRunParams, wall: int) returns (r: Outcome<Id>)
      modifies this
      ensures Content() == Step(old(Content()), maxDeliveries, OnStore(EnsuringChildRun(p, wall)))
      ensures r == old(ChildRunOutcome(StoreTurn(Tables(), g), p))
    {
      if p.child !in children {
        return Thrown;
      }
      var child := children[p.child];
      if child.childRunId.Some? {
        return if LinkMatches(Tables(), child.childRunId.value, p) then Returned(child.childRunId.value) else Thrown;
      }
      if TerminalNode(child.status) {
        return Thrown;
      }
      r := CreateRun(ChildRunInput(p), wall);
      if r.Returned? {
        children := children[p.child := LinkedChild(child, r.value)];
      }
    }

    /** Complete or fail a child. */
    method ChangeNodeChild(at: ChildRef, change: ChildChange)
      modifies this
      ensures Content() == Step(old(Content()), maxDeliveries, OnStore(ChangingChild(at, change)))
    {
      if at !in children || TerminalNode(children[at].status) {
        return;
      }
      children := children[at := ChangedChild(children[at], change)];
    }

    // ------------------------------------------------------------ attempts

    method CreateChildAttempt(at: ChildRef, input: Value, key: Option<Value>) returns (id: Id)
      requires at in children
      modifies this
      ensures
        var t := old(StartAttempt(StoreTurn(Tables(), g), at, input, key));
        Content() == old(Content()).(s := t.s, g := t.g)
      ensures id == old(NewAttemptId(g))
    {
      var child := children[at];
      id := g.Fresh("attempt");
      g := g.Take();
      var token := g.Fresh("attempt-lease");
      g := g.Take();
      attempts := attempts[id := Attempt(at, AttemptStatus.Started, token, child.attemptCount + 1, input, key, None, None)];
      children := children[at := StartedChild(child, id)];
      if at.node in nodes {
        var node := nodes[at.node];
        if node.status.Running? || NodeStatus.Running in NodeTransitions(node.status) {
          nodes := nodes[at.node := node.(status := NodeStatus.Running, version := node.version + 1)];
        }
      }
    }

    method CreateAttempt(at: ChildRef, input: Value, key: Option<Value>) returns (r: Outcome<Id>)
      modifies this
      ensures Content() == Step(old(Content()), maxDeliveries, OnStore(CreatingAttempt(at, input, key)))
      ensures r == if at in old(children) && !TerminalNode(old(children)[at].status)
                   then Returned(old(NewAttemptId(g))) else Thrown
    {
      if at !in children || TerminalNode(children[at].status) {
        return Thrown;
      }
      var id := CreateChildAttempt(at, input, key);
      return Returned(id);
    }

    /** The attempt is the current one, or, when the pointer dangles, one with
        the highest number; a child that counts attempts but has none throws. */
    method EnsureChildAttempt(at: ChildRef, input: Value, key: Option<Value>) returns (r: Outcome<Id>)
      modifies this
      ensures Content() == Step(old(Content()), maxDeliveries, OnStore(EnsuringAttempt(at, input, key)))
      ensures at !in old(children) ==> r.Thrown?
      ensures at in old(children) && old(children)[at].attemptCount == 0 ==>
        r == if TerminalNode(old(children)[at].status) then Thrown else Returned(old(NewAttemptId(g)))
      ensures at in old(children) && old(children)[at].attemptCount > 0 ==>
        && var current := old(children)[at].currentAttemptId;
           if current.Some? && current.value in old(attempts) then r == Returned(current.value)
           else if r.Returned? then
             && r.value in old(attempts) && old(attempts)[r.value].child == at
             && forall id :: id in old(attempts) && old(attempts)[id].child == at ==>
                  old(attempts)[id].number <= old(attempts)[r.value].number
           else forall id :: id in old(attempts) ==> old(attempts)[id].child != at
    {
      EnsureIsCreateOnce(Content(), maxDeliveries, at, input, key);
      if at !in children {
        r := Thrown;
      } else if children[at].attemptCount == 0 {
        r := CreateAttempt(at, input, key);
      } else {
        r := CurrentAttemptOf(at);
      }
    }

    /** The attempt the child refers to, or else its highest-numbered one. */
    method CurrentAttemptOf(at: ChildRef) returns (r: Outcome<Id>)
      requires at in children
      ensures
        var current := children[at].currentAttemptId;
        if current.Some? && current.value in attempts then r == Returned(current.value)
        else if r.Returned? then
          && r.value in attempts && attempts[r.value].child == at
          && forall id :: id in attempts && attempts[id].child == at ==> attempts[id].number <= attempts[r.value].number
        else forall id :: id in attempts ==> attempts[id].child != at
    {
      if children[at].currentAttemptId.Some? && children[at].currentAttemptId.value in attempts {
        return Returned(children[at].currentAttemptId.value);
      }
      r := LastAttemptOf(at);
    }

    /** The attempt of a child with the highest number, if it has one. */
    method LastAttemptOf(at: ChildRef) returns (r: Outcome<Id>)
      ensures r.Thrown? ==> forall id :: id in attempts ==> attempts[id].child != at
      ensures r.Returned? ==>
        && r.value in attempts && attempts[r.value].child == at
        && forall id :: id in attempts && attempts[id].child == at ==> attempts[id].number <= attempts[r.value].number
    {
      r := Thrown;
      var todo := attempts.Keys;
      while todo != {}
        invariant todo <= attempts.Keys
        invariant r.Thrown? ==> forall id :: id in attempts && id !in todo ==> attempts[id].child != at
        invariant r.Returned? ==>
          && r.value in attempts && attempts[r.value].child == at
          && forall id :: id in attempts && id !in todo && attempts[id].child == at ==>
               attempts[id].number <= attempts[r.value].number
        decreases todo
      {
        var id :| id in todo;
        todo := todo - {id};
        if attempts[id].child == at && (r.Thrown? || attempts[r.value].number < attempts[id].number) {
          r := Returned(id);
        }
      }
    }

    /** Complete, fail or time out the current attempt; `false` when fenced off. */
    method SettleCurrentAttempt(attemptId: Id, token: Id, settlement: Settlement) returns (settled: bool)
      modifies this
      ensures Content() == Step(old(Content()), maxDeliveries, OnStore(SettlingAttempt(attemptId, token, settlement)))
      ensures settled == old(Fenced(Tables(), attemptId, token))
    {
      if attemptId !in attempts || attempts[attemptId].leaseToken != token || !attempts[attemptId].status.Started? {
        return false;
      }
      var attempt := attempts[attemptId];
      if attempt.child !in children || TerminalNode(children[attempt.child].status)
         || children[attempt.child].currentAttemptId != Some(attemptId)
      {
        return false;
      }
      attempts := attempts[attemptId := SettledAttempt(attempt, settlement)];
      if settlement.Succeed? {
        children := children[attempt.child := ChangedChild(children[attempt.child], CompleteChild(settlement.output))];
      }
      return true;
    }

    // -------------------------------------------------------------- leases

    method AcquireRunLease(runId: Id, leaseMs: int, wall: int) returns (token: Option<Id>)
      modifies this`runLeases, this`g
      ensures Content() == Step(old(Content()), maxDeliveries, OnStore(AcquiringLease(runId, leaseMs, wall)))
      ensures token.Some? ==> HoldsLease(Tables(), runId, token.value)
      ensures token.None? <==> old((runId in runLeases && runLeases[runId].expiresAt > g.Tick(wall).last) || runId !in runs)
    {
      token := TakeLease(runId, leaseMs, wall);
    }

    method TakeLease(runId: Id, leaseMs: int, wall: int) returns (token: Option<Id>)
      modifies this`runLeases, this`g
      ensures StoreTurn(Tables(), g) == AcquireLease(old(StoreTurn(Tables(), g)), runId, leaseMs, wall)
      ensures token.Some? ==> HoldsLease(Tables(), runId, token.value)
      ensures token.None? <==> old((runId in runLeases && runLeases[runId].expiresAt > g.Tick(wall).last) || runId !in runs)
    {
      g := g.Tick(wall);
      if runId in runLeases && runLeases[runId].expiresAt > g.last {
        return None;
      }
      if runId !in runs {
        return None;
      }
      token := Some(g.Fresh("run-lease"));
      StoreLease(runId, token.value, leaseMs);
    }

    method StoreLease(runId: Id, token: Id, leaseMs: int)
      requires runId in runs
      modifies this`runLeases, this`g
      ensures runLeases == old(runLeases)[runId := RunLease(token, runs[runId].version, old(g).last + leaseMs)]
      ensures g == old(g).Take()
    {
      runLeases := runLeases[runId := RunLease(token, runs[runId].version, g.last + leaseMs)];
      g := g.Take();
    }

    method RenewRunLease(runId: Id, token: Id, leaseMs: int, wall: int) returns (renewed: bool)
      modifies this
      ensures Content() == Step(old(Content()), maxDeliveries, OnStore(RenewingLease(runId, token, leaseMs, wall)))
      ensures renewed == old(HoldsLease(Tables(), runId, token))
    {
      if runId !in runLeases || runLeases[runId].token != token {
        return false;
      }
      g := g.Tick(wall);
      runLeases := runLeases[runId := runLeases[runId].(expiresAt := g.last + leaseMs)];
      return true;
    }

    method ReleaseRunLease(runId: Id, token: Id)
      modifies this
      ensures Content() == Step(old(Content()), maxDeliveries, OnStore(ReleasingLease(runId, token)))
    {
      if runId in runLeases && runLeases[runId].token == token {
        runLeases := runLeases - {runId};
      }
    }

    // ------------------------------------------------------------ deletion

    /** Drops the entries of one index that point at a deleted run. */
    method ReleaseIndex(index: map<Value, Id>, doomed: set<Id>) returns (kept: map<Value, Id>)
      ensures kept == Surviving(index, doomed)
    {
      kept := index;
      var todo := index.Keys;
      while todo != {}
        invariant todo <= kept.Keys <= index.Keys
        invariant forall key :: key in index ==> (key in kept <==> key in todo || index[key] !in doomed)
        invariant forall key :: key in kept ==> kept[key] == index[key]
        decreases todo
      {
        var key :| key in todo;
        todo := todo - {key};
        if index[key] in doomed {
          kept := kept - {key};
        }
      }
    }

    method DeleteRunRows(doomed: set<Id>)
      modifies this`runs, this`runLeases, this`runIdempotencyKeys, this`activeUniqueRunKeys, this`allUniqueRunKeys
      ensures runs == old(runs) - doomed && runLeases == old(runLeases) - doomed
      ensures runIdempotencyKeys == Surviving(old(runIdempotencyKeys), doomed)
      ensures activeUniqueRunKeys == Surviving(old(activeUniqueRunKeys), doomed)
      ensures allUniqueRunKeys == Surviving(old(allUniqueRunKeys), doomed)
    {
      runs := runs - doomed;
      runLeases := runLeases - doomed;
      runIdempotencyKeys := ReleaseIndex(runIdempotencyKeys, doomed);
      activeUniqueRunKeys := ReleaseIndex(activeUniqueRunKeys, doomed);
      allUniqueRunKeys := ReleaseIndex(allUniqueRunKeys, doomed);
    }

    method DeleteRows(doomed: set<Id>)
      modifies this
      ensures Tables() == DeleteRuns(old(Tables()), doomed) && g == old(g)
    {
      DeleteRunRows(doomed);
      nodes := map at | at in nodes && at.runId !in doomed :: nodes[at];
      attempts := map id | id in attempts && attempts[id].child.node.runId !in doomed :: attempts[id];
      children := map at | at in children && !ChildDoomed(at, children[at], doomed) :: children[at];
    }

    method DeleteRunTrees(doomed: set<Id>)
      requires continues != commands
      modifies this, continues, commands
      ensures Content() == DeleteTrees(old(Content()), doomed)
    {
      if doomed == {} {
        return;
      }
      DeleteRows(doomed);
      continues.DeleteForRuns(doomed);
      commands.DeleteForRuns(doomed);
    }

    method DeleteRun(id: Id) returns (r: Outcome<bool>)
      requires continues != commands
      modifies this, continues, commands
      ensures Content() == Step(old(Content()), maxDeliveries, Op.DeleteRun(id))
      ensures r == old(if id !in runs then Returned(false)
                       else if Deletable(Tables(), id) then Returned(true) else Thrown)
    {
      if id !in runs {
        return Returned(false);
      }
      if runs[id].parentRunId.Some? {
        return Thrown;
      }
      var family := CollectFamily(runs, ParentsAndRoots, {id});
      var todo := family;
      while todo != {}
        invariant todo <= family
        invariant forall member :: member in family && member !in todo ==> member in runs && TerminalRun(runs[member].status)
        decreases todo
      {
        var member :| member in todo;
        if member !in runs || !TerminalRun(runs[member].status) {
          return Thrown;
        }
        todo := todo - {member};
      }
      assert id in family;
      DeleteRunTrees(family);
      return Returned(true);
    }

    /** Selects the oldest candidates one by one. */
    method SelectOldest(candidates: set<Id>, batchSize: int) returns (selected: set<Id>)
      requires candidates <= runs.Keys
      ensures IsOldestBatch(runs, candidates, batchSize, selected)
    {
      selected := {};
      while |selected| < batchSize && selected != candidates
        invariant selected <= candidates
        invariant |selected| <= batchSize || selected == {}
        invariant forall a, b :: a in selected && b in candidates - selected ==> runs[a].updatedAt <= runs[b].updatedAt
        decreases |candidates| - |selected|
      {
        SubsetSizes(selected, candidates);
        assert candidates - selected != {};
        var oldest := OldestOf(candidates - selected);
        selected := selected + {oldest};
        SubsetSizes(selected, candidates);
      }
    }

    /** Deletes the trees of the oldest candidates, then sweeps dead commands. */
    method PruneTerminalRuns(statuses: set<RunStatus>, olderThan: int, batchSize: int)
      returns (deleted: nat, ghost roots: set<Id>)
      requires continues != commands
      modifies this, continues, commands
      ensures PicksOldest(old(runs), statuses, olderThan, batchSize, roots)
      ensures deleted == |roots|
      ensures Content() == Step(old(Content()), maxDeliveries, Prune(roots, olderThan))
    {
      var candidates := PruneCandidates(runs, statuses, olderThan);
      var selected := SelectOldest(candidates, batchSize);
      OldestBatchPicks(runs, statuses, olderThan, batchSize, selected);
      var family := CollectFamily(runs, Parents, selected);
      DeleteRunTrees(family);
      continues.SweepDead(olderThan);
      commands.SweepDead(olderThan);
      deleted, roots := |selected|, selected;
      assert Prunable(old(Tables()), roots, olderThan);
    }

    method OldestOf(ids: set<Id>) returns (oldest: Id)
      requires ids != {} && ids <= runs.Keys
      ensures oldest in ids && forall id :: id in ids ==> runs[oldest].updatedAt <= runs[id].updatedAt
    {
      oldest :| oldest in ids;
      var todo := ids - {oldest};
      while todo != {}
        invariant todo <= ids && oldest in ids
        invariant forall id :: id in ids && id !in todo ==> runs[oldest].updatedAt <= runs[id].updatedAt
        decreases todo
      {
        var id :| id in todo;
        todo := todo - {id};
        if runs[id].updatedAt < runs[oldest].updatedAt {
          oldest := id;
        }
      }
    }

    // ------------------------------------------------------- dead commands

    method MarkDeadCommandReaped(id: Id, wall: int)
      requires continues != commands
      modifies this, continues, commands
      ensures Content() == Step(old(Content()), maxDeliveries, MarkReaped(id, wall))
    {
      var marked;
      g, marked := continues.MarkReaped(id, g, wall);
      if !marked {
        g, marked := commands.MarkReaped(id, g, wall);
      }
    }

    method RequeueDeadCommand(id: Id)
      requires continues != commands
      modifies continues, commands
      ensures Content() == Step(old(Content()), maxDeliveries, Op.RequeueDead(id))
    {
      var found := continues.RequeueDead(id);
      if !found {
        found := commands.RequeueDead(id);
      }
    }

    // ----------------------------------------------------------- executors

    method Enqueue(command: Command, runAt: Option<int>, wall: int)
      requires continues != commands && command.ContinueRun?
      modifies this, continues
      ensures Content() == Step(old(Content()), maxDeliveries, OnContinues(Q.Enqueuing(command, runAt, wall)))
    {
      g := continues.EnqueueContinue(command, runAt, g, wall);
    }

    method ClaimContinue(workflowNames: seq<string>, leaseMs: int, wall: int) returns (grant: Option<Q.Grant>)
      requires continues != commands
      modifies this, continues
      ensures Content() == Step(old(Content()), maxDeliveries, OnContinues(Q.Claiming(Coordinator(workflowNames), leaseMs, wall)))
      ensures grant == old(Q.Claim(Q.Turn(continues.Content(), g), Coordinator(workflowNames), leaseMs, maxDeliveries, wall)).grant
    {
      g, grant := continues.Claim(Coordinator(workflowNames), leaseMs, maxDeliveries, g, wall);
    }

    method AckContinue(id: Id, token: Id) returns (ok: bool)
      requires continues != commands
      modifies continues
      ensures Content() == Step(old(Content()), maxDeliveries, OnContinues(Q.Acking(id, token)))
      ensures ok == old(Q.Holds(continues.Content(), id, token))
    {
      ok := continues.Ack(id, token);
    }

    method ReleaseContinue(id: Id, token: Id, options: Q.ReleaseOptions, wall: int)
      requires continues != commands
      modifies this, continues
      ensures Content() == Step(old(Content()), maxDeliveries, OnContinues(Q.Releasing(id, token, options, wall)))
    {
      g := continues.Release(id, token, options, maxDeliveries, g, wall);
    }

    method DispatchAttempt(command: Command, runAt: Option<int>, wall: int)
      requires continues != commands && !command.ContinueRun?
      modifies this, commands
      ensures Content() == Step(old(Content()), maxDeliveries, OnCommands(Q.Dispatching(command, runAt, wall)))
    {
      g := commands.Dispatch(command, runAt, g, wall);
    }

    method ClaimAttempt(worker: Worker, leaseMs: int, wall: int) returns (grant: Option<Q.Grant>)
      requires continues != commands && worker.Executor?
      modifies this, commands
      ensures Content() == Step(old(Content()), maxDeliveries, OnCommands(Q.Claiming(worker, leaseMs, wall)))
      ensures grant == old(Q.Claim(Q.Turn(commands.Content(), g), worker, leaseMs, maxDeliveries, wall)).grant
    {
      g, grant := commands.Claim(worker, leaseMs, maxDeliveries, g, wall);
    }

    /** Tells the status of the command's run, `Queued` when it is gone; `None` is the lost-lease error. */
    method HeartbeatAttempt(id: Id, token: Id, runId: Id, leaseMs: int, wall: int) returns (status: Option<RunStatus>)
      requires continues != commands
      modifies this, commands
      ensures Content() == Step(old(Content()), maxDeliveries, OnCommands(Q.Beating(id, token, leaseMs, wall)))
      ensures status == old(if !Q.Holds(commands.Content(), id, token) then None
                            else Some(if runId in runs then runs[runId].status else RunStatus.Queued))
    {
      var ok;
      g, ok := commands.Heartbeat(id, token, leaseMs, g, wall);
      if !ok {
        return None;
      }
      status := Some(if runId in runs then runs[runId].status else RunStatus.Queued);
    }

    method AckAttempt(id: Id, token: Id) returns (ok: bool)
      requires continues != commands
      modifies commands
      ensures Content() == Step(old(Content()), maxDeliveries, OnCommands(Q.Acking(id, token)))
      ensures ok == old(Q.Holds(commands.Content(), id, token))
    {
      ok := commands.Ack(id, token);
    }

    method ReleaseAttempt(id: Id, token: Id, options: Q.ReleaseOptions, wall: int)
      requires continues != commands
      modifies this, commands
      ensures Content() == Step(old(Content()), maxDeliveries, OnCommands(Q.Releasing(id, token, options, wall)))
    {
      g := commands.Release(id, token, options, maxDeliveries, g, wall);
    }

    method DeleteUnclaimed(runId: Id) returns (deleted: nat)
      requires continues != commands
      modifies commands
      ensures Content() == Step(old(Content()), maxDeliveries, OnCommands(Q.DroppingWaiting(runId)))
      ensures deleted == |old(commands.waiting)| - |commands.waiting|
    {
      deleted := commands.DeleteUnclaimed(runId);
    }

    method StartWorkflowRun(input: CreateRunInput, startAt: Option<int>, wall: int) returns (r: Outcome<Id>)
      requires continues != commands
      modifies this, continues
      ensures Content() == Step(old(Content()), maxDeliveries, Op.StartWorkflowRun(input, startAt, wall))
      ensures r == old(CreateOutcome(StoreTurn(Tables(), g), input))
    {
      var created := Judge(Tables(), input).Admitted?;
      r := CreateRun(input, wall);
      if created {
        Enqueue(ContinueRun(r.value, runs[r.value].workflowName), startAt, wall);
      }
    }
  }
}
