/** The `latest` strategy of the operation queue, cut at its awaits: a step is
    everything that runs between two suspensions, and steps interleave freely. */
module LatestQueues {
  import opened Identifiers

  datatype Settlement = Ran | Superseded(winner: nat)

  /** What can happen next: a submission, the running task finishing, the
      draining loop resuming after it, or somebody waiting for idleness. */
  datatype Event = Submitting | Finishing | Resuming | Waiting(waiter: nat)

  /** Tasks start in the order of their submission, each at most once. */
  ghost predicate Increasing(ops: seq<nat>) {
    forall i, j :: 0 <= i < j < |ops| ==> ops[i] < ops[j]
  }

  lemma StartedNext(ops: seq<nat>, op: nat)
    requires Increasing(ops) && forall earlier :: earlier in ops ==> earlier < op
    ensures Increasing(ops + [op])
  {
    assert forall i :: 0 <= i < |ops| ==> ops[i] in ops;
  }

  ghost predicate Pending(op: nat, running: Option<nat>, waiting: Option<nat>) {
    running == Some(op) || waiting == Some(op)
  }

  /** The account of all submissions: each is settled or pending and never
      both, what ran was started, what was superseded was not and gave way to
      a later one, the waiting operation is the newest, and the newest is
      never superseded. */
  ghost predicate Ledger(submitted: nat, settled: map<nat, Settlement>, started: seq<nat>,
                         running: Option<nat>, waiting: Option<nat>)
  {
    && (forall op: nat :: op < submitted <==> op in settled || Pending(op, running, waiting))
    && (forall op: nat :: Pending(op, running, waiting) ==> op !in settled)
    && (forall op :: op in settled && settled[op].Superseded? ==> op < settled[op].winner < submitted && op !in started)
    && (forall op :: op in settled && settled[op].Ran? ==> op in started)
    && (forall op :: op in started ==> op < submitted)
    && Increasing(started)
    && (running.Some? ==> running != waiting && running.value in started)
    && (waiting.Some? ==> waiting.value == submitted - 1 && waiting.value !in started)
    && (submitted > 0 ==> Pending(submitted - 1, running, waiting) || settled[submitted - 1].Ran?)
  }

  /** A submission to a busy queue keeps the account. */
  lemma LedgerWaits(submitted: nat, settled: map<nat, Settlement>, started: seq<nat>, running: Option<nat>, waiting: Option<nat>)
    requires Ledger(submitted, settled, started, running, waiting)
    ensures Ledger(submitted + 1, if waiting.Some? then settled[waiting.value := Superseded(submitted)] else settled,
                   started, running, Some(submitted))
  {
    var after := if waiting.Some? then settled[waiting.value := Superseded(submitted)] else settled;
    assert forall op: nat :: Pending(op, running, Some(submitted)) <==> running == Some(op) || op == submitted;
    assert forall op: nat :: op in after <==> op in settled || waiting == Some(op);
    assert forall op: nat :: Pending(op, running, waiting) <==> running == Some(op) || waiting == Some(op);
  }

  /** A submission to an idle queue keeps the account. */
  lemma LedgerStarts(submitted: nat, settled: map<nat, Settlement>, started: seq<nat>)
    requires Ledger(submitted, settled, started, None, None)
    ensures Ledger(submitted + 1, settled, started + [submitted], Some(submitted), None)
  {
    StartedNext(started, submitted);
    assert forall op: nat :: Pending(op, Some(submitted), None) <==> op == submitted;
  }

  class OperationQueue {
    var count: int
    var runningLatest: bool
    var latestOperation: Option<nat>
    var idleWaiters: set<nat>

    /** Operations are identified by the order of their submission. */
    var submitted: nat

    /** The task in progress, if any. */
    var running: Option<nat>

    /** All tasks ever started, how each operation ended, and the released waiters. */
    ghost var started: seq<nat>
    ghost var settled: map<nat, Settlement>
    ghost var released: set<nat>

    ghost predicate Valid()
      reads this
    {
      && count == (if running.Some? then 1 else 0) + (if latestOperation.Some? then 1 else 0)
      && (running.Some? || latestOperation.Some? ==> runningLatest)
      && (idleWaiters != {} ==> count > 0)
      && Ledger(submitted, settled, started, running, latestOperation)
    }

    /** At most one task is in progress: a started operation that has not
        settled is the running one. */
    lemma OneTaskInProgress(op: nat)
      requires Valid()
      ensures op in started && op !in settled <==> running == Some(op)
    {
    }

    constructor ()
      ensures Valid() && submitted == 0 && settled == map[] && released == {} && !runningLatest
    {
      count, runningLatest, latestOperation, idleWaiters := 0, false, None, {};
      submitted, running, started, settled, released := 0, None, [], map[], {};
    }

    /** What no step undoes: a settlement is final and given once, started
        tasks stay started, released waiters stay released. */
    twostate predicate Keeps()
      reads this
    {
      && old(submitted) <= submitted
      && old(started) <= started
      && old(released) <= released
      && forall op :: op in old(settled) ==> op in settled && settled[op] == old(settled[op])
    }

    method FinishOperation()
      modifies this`count, this`idleWaiters, this`released
      ensures count == old(count) - 1
      ensures if count > 0 then idleWaiters == old(idleWaiters) && released == old(released)
              else idleWaiters == {} && released == old(released) + old(idleWaiters)
    {
      count := count - 1;
      if count > 0 {
        return;
      }
      released := released + idleWaiters;
      idleWaiters := {};
    }

    /** The newest operation takes the single waiting place; whoever held it
        is superseded and no longer counted. */
    method TakeWaitingPlace(op: nat)
      requires latestOperation.Some? ==> count > 1
      modifies this`count, this`settled, this`latestOperation, this`idleWaiters, this`released
      ensures latestOperation == Some(op)
      ensures count == if old(latestOperation).Some? then old(count) - 1 else old(count)
      ensures settled == if old(latestOperation).Some? then old(settled)[old(latestOperation).value := Superseded(op)] else old(settled)
      ensures released == old(released) && idleWaiters == old(idleWaiters)
    {
      if latestOperation.Some? {
        settled := settled[latestOperation.value := Superseded(op)];
        FinishOperation();
      }
      latestOperation := Some(op);
    }

    /** A submission starts at once when the queue is idle; otherwise it takes
        the single waiting place and supersedes whoever held it. */
    method Submit() returns (op: nat)
      requires Valid()
      modifies this
      ensures Valid() && Keeps() && op == old(submitted) && submitted == op + 1
      ensures settled == if old(latestOperation).Some? then old(settled)[old(latestOperation).value := Superseded(op)] else old(settled)
      ensures running == if old(runningLatest) then old(running) else Some(op)
      ensures latestOperation == if old(runningLatest) then Some(op) else None
      ensures started == if old(runningLatest) then old(started) else old(started) + [op]
      ensures released == old(released) && idleWaiters == old(idleWaiters) && runningLatest
    {
      op := submitted;
      count := count + 1;
      submitted := submitted + 1;
      if runningLatest {
        LedgerWaits(op, settled, started, running, latestOperation);
        TakeWaitingPlace(op);
        return;
      }
      runningLatest := true;
      running := Some(op);
      LedgerStarts(op, settled, started);
      started := started + [op];
    }

    /** The running task resolves or rejects; its operation settles with it. */
    method Finish()
      requires Valid() && running.Some?
      modifies this
      ensures Valid() && Keeps() && running.None? && runningLatest == old(runningLatest)
      ensures settled == old(settled)[old(running).value := Ran]
      ensures latestOperation == old(latestOperation) && started == old(started) && submitted == old(submitted)
      ensures if old(latestOperation).Some? then released == old(released) && idleWaiters == old(idleWaiters)
              else count == 0 && released == old(released) + old(idleWaiters) && idleWaiters == {}
    {
      settled := settled[running.value := Ran];
      running := None;
      FinishOperation();
    }

    /** The draining loop goes on: it starts the waiting operation or stops. */
    method Resume()
      requires Valid() && runningLatest && running.None?
      modifies this
      ensures Valid() && Keeps() && settled == old(settled) && submitted == old(submitted) && latestOperation.None?
      ensures running == old(latestOperation) && runningLatest == old(latestOperation).Some?
      ensures started == if old(latestOperation).Some? then old(started) + [old(latestOperation).value] else old(started)
      ensures released == old(released) && idleWaiters == old(idleWaiters)
    {
      if latestOperation.Some? {
        running := latestOperation;
        StartedNext(started, latestOperation.value);
        started := started + [latestOperation.value];
        latestOperation := None;
      } else {
        runningLatest := false;
      }
    }

    /** Waits for idleness; `true` when the queue is idle already. */
    method WaitIdle(waiter: nat) returns (idle: bool)
      requires Valid()
      modifies this`idleWaiters
      ensures Valid() && Keeps() && (idle <==> count == 0)
      ensures idleWaiters == if idle then old(idleWaiters) else old(idleWaiters) + {waiter}
    {
      idle := count <= 0;
      if !idle {
        idleWaiters := idleWaiters + {waiter};
      }
    }

    /** Any interleaving of submissions, task ends, loop resumptions and waits. */
    method Interleave(events: seq<Event>)
      requires Valid()
      modifies this
      ensures Valid() && Keeps()
    {
      for i := 0 to |events|
        invariant Valid() && Keeps()
      {
        match events[i]
        case Submitting =>
          var _ := Submit();
        case Finishing =>
          if running.Some? {
            Finish();
          }
        case Resuming =>
          if runningLatest && running.None? {
            Resume();
          }
        case Waiting(waiter) =>
          var _ := WaitIdle(waiter);
      }
    }

    /** Left alone, the queue finishes and resumes until nothing is pending;
        then every operation has settled, the last one by running, the
        counter is zero and nobody waits. */
    method Drain()
      requires Valid()
      modifies this
      ensures Valid() && Keeps() && submitted == old(submitted)
      ensures !runningLatest && count == 0 && idleWaiters == {}
      ensures forall op: nat :: op < submitted <==> op in settled
      ensures submitted > 0 ==> settled[submitted - 1].Ran?
      ensures released == old(released) + old(idleWaiters)
    {
      while runningLatest
        invariant Valid() && Keeps() && submitted == old(submitted)
        invariant released + idleWaiters == old(released) + old(idleWaiters)
        decreases count, running.None?, runningLatest
      {
        if running.Some? {
          Finish();
        }
        Resume();
      }
    }
  }
}
