/** Every run of the whole runtime is, for the store and for each queue, a run
    of that component alone: the other components only draw ids and advance the
    clock. So everything proved about a component holds inside the runtime. */
module RuntimeProjections {
  import opened Identifiers
  import opened StoreSpec
  import opened StoreHistory
  import opened RuntimeSpec
  import Q = QueueSpec
  import QT = QueueTheorems

  lemma {:induction false} QueueRunAppend(t: Q.Turn, limit: int, a: seq<Q.QueueOp>, b: seq<Q.QueueOp>)
    ensures Q.Run(t, limit, a + b) == Q.Run(Q.Run(t, limit, a), limit, b)
    decreases |b|
  {
    if b == [] {
      assert a + b == a;
    } else {
      QueueRunAppend(t, limit, a, b[..|b| - 1]);
      assert (a + b)[..|a + b| - 1] == a + b[..|b| - 1];
    }
  }

  lemma StoreRunOne(t: StoreTurn, op: StoreOp)
    ensures StoreRun(t, [op]) == StoreStep(t, op)
  {
    assert [op][..0] == [] && StoreRun(t, []) == t;
  }

  lemma QueueRunOne(t: Q.Turn, limit: int, op: Q.QueueOp)
    ensures Q.Run(t, limit, [op]) == Q.Step(t, limit, op)
  {
    assert [op][..0] == [] && Q.Run(t, limit, []) == t;
  }

  lemma QueueRunTwo(t: Q.Turn, limit: int, a: Q.QueueOp, b: Q.QueueOp)
    ensures Q.Run(t, limit, [a, b]) == Q.Step(Q.Step(t, limit, a), limit, b)
  {
    assert [a, b] == [a] + [b];
    QueueRunAppend(t, limit, [a], [b]);
    QueueRunOne(t, limit, a);
    QueueRunOne(Q.Step(t, limit, a), limit, b);
  }

  lemma StepAdvances(st: State, limit: int, op: Op)
    ensures st.g.AtMost(Step(st, limit, op).g)
  {
    match op
    case OnStore(o) => StepAdvancesSource(StoreTurn(st.s, st.g), o);
    case OnContinues(o) => QT.StepAdvances(Q.Turn(st.continues, st.g), limit, o);
    case OnCommands(o) => QT.StepAdvances(Q.Turn(st.commands, st.g), limit, o);
    case _ =>
  }

  lemma StoreProjects(st: State, limit: int, op: Op)
    ensures StoreRun(StoreTurn(st.s, st.g), StoreOps(st, limit, op)) ==
              StoreTurn(Step(st, limit, op).s, Step(st, limit, op).g)
  {
    StepAdvances(st, limit, op);
    var t, later := StoreTurn(st.s, st.g), Elapsing(Step(st, limit, op).g);
    StoreRunOne(t, later);
    if op.OnStore? {
      StoreRunOne(t, op.store);
    } else if op.StartWorkflowRun? {
      StoreRunAppend(t, [CreatingRun(op.request, op.wall)], [later]);
      StoreRunOne(t, CreatingRun(op.request, op.wall));
      StoreRunOne(CreateRun(t, op.request, op.wall), later);
    } else if Doomed(st, op) != {} {
      StoreRunOne(t, Deleting(Doomed(st, op)));
    }
  }

  lemma QueueRunDrops(t: Q.Turn, limit: int, doomed: set<Id>, date: int)
    ensures Q.Run(t, limit, [Q.DroppingRuns(doomed), Q.Sweeping(date)]) == t.(q := Q.SweepDead(Q.DropRuns(t.q, doomed), date))
    ensures Q.Run(t, limit, [] + [Q.Sweeping(date)]) == t.(q := Q.SweepDead(t.q, date))
    ensures Q.Run(t, limit, [Q.DroppingRuns(doomed)]) == t.(q := Q.DropRuns(t.q, doomed))
  {
    QueueRunTwo(t, limit, Q.DroppingRuns(doomed), Q.Sweeping(date));
    QueueRunOne(t, limit, Q.Sweeping(date));
    QueueRunOne(t, limit, Q.DroppingRuns(doomed));
    assert [] + [Q.Sweeping(date)] == [Q.Sweeping(date)];
  }

  lemma ContinuesProject(st: State, limit: int, op: Op)
    ensures Q.Run(Q.Turn(st.continues, st.g), limit, ContinueOps(st, limit, op)) ==
              Q.Turn(Step(st, limit, op).continues, Step(st, limit, op).g)
  {
    StepAdvances(st, limit, op);
    var t := Q.Turn(st.continues, st.g);
    QueueRunOne(t, limit, Q.Elapse(Step(st, limit, op).g));
    match op
    case OnContinues(o) => QueueRunOne(t, limit, o);
    case StartWorkflowRun(input, startAt, wall) =>
      if Judge(st.s, input).Admitted? {
        var created := CreateRun(StoreTurn(st.s, st.g), input, wall);
        QueueRunTwo(t, limit, Q.Elapse(created.g), Q.Enqueuing(ContinueCommand(created.s, NewRunId(st.g)), startAt, wall));
      }
    case MarkReaped(id, wall) => QueueRunOne(t, limit, Q.Reaping(id, wall));
    case RequeueDead(id) => QueueRunOne(t, limit, Q.Requeuing(id));
    case DeleteRun(_) => QueueRunDrops(t, limit, Doomed(st, op), 0);
    case Prune(_, olderThan) => QueueRunDrops(t, limit, Doomed(st, op), olderThan);
      assert [Q.DroppingRuns(Doomed(st, op))] + [Q.Sweeping(olderThan)] == [Q.DroppingRuns(Doomed(st, op)), Q.Sweeping(olderThan)];
    case _ =>
  }

  lemma CommandsProject(st: State, limit: int, op: Op)
    ensures Q.Run(Q.Turn(st.commands, st.g), limit, CommandOps(st, limit, op)) ==
              Q.Turn(Step(st, limit, op).commands, Step(st, limit, op).g)
  {
    StepAdvances(st, limit, op);
    var t := Q.Turn(st.commands, st.g);
    QueueRunOne(t, limit, Q.Elapse(Step(st, limit, op).g));
    match op
    case OnCommands(o) => QueueRunOne(t, limit, o);
    case MarkReaped(id, wall) => QueueRunOne(t, limit, Q.Reaping(id, wall));
    case RequeueDead(id) => QueueRunOne(t, limit, Q.Requeuing(id));
    case DeleteRun(_) => QueueRunDrops(t, limit, Doomed(st, op), 0);
    case Prune(_, olderThan) => QueueRunDrops(t, limit, Doomed(st, op), olderThan);
      assert [Q.DroppingRuns(Doomed(st, op))] + [Q.Sweeping(olderThan)] == [Q.DroppingRuns(Doomed(st, op)), Q.Sweeping(olderThan)];
    case _ =>
  }

  /** Whole runs project onto whole runs of each component. */
  lemma {:induction false} RunProjects(st: State, limit: int, ops: seq<Op>)
    ensures
      var r := Execute(st, limit, ops);
      && StoreRun(StoreTurn(st.s, st.g), StoreTrace(st, limit, ops)) == StoreTurn(r.s, r.g)
      && Q.Run(Q.Turn(st.continues, st.g), limit, ContinueTrace(st, limit, ops)) == Q.Turn(r.continues, r.g)
      && Q.Run(Q.Turn(st.commands, st.g), limit, CommandTrace(st, limit, ops)) == Q.Turn(r.commands, r.g)
  {
    if ops != [] {
      var before, op := ops[..|ops| - 1], ops[|ops| - 1];
      RunProjects(st, limit, before);
      var mid := Execute(st, limit, before);
      StoreProjects(mid, limit, op);
      ContinuesProject(mid, limit, op);
      CommandsProject(mid, limit, op);
      StoreRunAppend(StoreTurn(st.s, st.g), StoreTrace(st, limit, before), StoreOps(mid, limit, op));
      QueueRunAppend(Q.Turn(st.continues, st.g), limit, ContinueTrace(st, limit, before), ContinueOps(mid, limit, op));
      QueueRunAppend(Q.Turn(st.commands, st.g), limit, CommandTrace(st, limit, before), CommandOps(mid, limit, op));
    }
  }
}
