/** The mutable command queue: a waiting array spliced and pushed in place and
    an insertion-ordered claim map. Every method is proved against QueueSpec.
    The id counter and clock are passed through as a `Source`. */
module CommandQueues {
  import opened Identifiers
  import opened Commands
  import opened QueueSpec

  lemma RemoveMiddle<T>(a: seq<T>, x: T, b: seq<T>)
    ensures RemoveAt(a + [x] + b, |a|) == a + b
  {
    assert (a + [x] + b)[..|a|] == a && (a + [x] + b)[|a| + 1..] == b;
  }

  lemma SparedStep(was: seq<Item>, i: nat, tail: seq<Item>, doomed: Doomed)
    requires i < |was|
    ensures Spared(was[..i + 1], doomed) + tail ==
              Spared(was[..i], doomed) + if IsDoomed(doomed, was[i]) then tail else [was[i]] + tail
  {
    assert was[..i + 1][..i] == was[..i] && was[..i + 1] != [];
  }

  /** One claim further through the deletion loop: dropped or kept. */
  lemma SparedClaimsStep(was: seq<Lease>, i: nat, runs: set<Id>)
    requires i < |was|
    ensures
      var kept, next := SparedClaims(was[..i], runs), SparedClaims(was[..i + 1], runs);
      && (kept + was[i..])[|kept|] == was[i]
      && (if was[i].item.payload.runId in runs
          then next == kept && RemoveAt(kept + was[i..], |kept|) == next + was[i + 1..]
          else next == kept + [was[i]] && kept + was[i..] == next + was[i + 1..])
  {
    assert was[..i + 1][..i] == was[..i] && was[..i + 1] != [];
    var kept := SparedClaims(was[..i], runs);
    assert kept + was[i..] == kept + [was[i]] + was[i + 1..];
    RemoveMiddle(kept, was[i], was[i + 1..]);
  }

  class CommandQueue {
    var waiting: seq<Item>
    var claimed: seq<Lease>

    function Content(): Queue
      reads this
    {
      Queue(waiting, claimed)
    }

    constructor ()
      ensures Content() == EMPTY
    {
      waiting, claimed := [], [];
    }

    /** `findIndex`: the first matching item, or the length. */
    method FindIndex(query: Query) returns (index: nat)
      ensures index == First(waiting, query)
    {
      index := 0;
      while index < |waiting| && !Matches(query, waiting[index])
        invariant index <= |waiting|
        invariant forall j | 0 <= j < index :: !Matches(query, waiting[j])
      {
        index := index + 1;
      }
      assert IsFirst(waiting, query, index);
      var first := First(waiting, query);
      assert first < |waiting| ==> Matches(query, waiting[first]);
    }

    method FindClaim(id: Id) returns (k: nat)
      ensures k == Slot(claimed, id)
    {
      k := 0;
      while k < |claimed| && claimed[k].item.id != id
        invariant k <= |claimed|
        invariant forall j | 0 <= j < k :: claimed[j].item.id != id
      {
        k := k + 1;
      }
    }

    method EnqueueContinue(command: Command, runAt: Option<int>, g: Source, wall: int) returns (g': Source)
      modifies this
      ensures Turn(Content(), g') == QueueSpec.EnqueueContinue(Turn(old(Content()), g), command, runAt, wall)
    {
      g' := g;
      var index := FindIndex(LiveFor(command.runId));
      if index == |waiting| {
        waiting := waiting + [NewItem(g, "continue", command, runAt, wall)];
        g' := g.Take().Tick(wall);
        return;
      }
      var existing := waiting[index];
      waiting := waiting[index := existing.(payload := command, runAt := Earliest(existing.runAt, runAt))];
    }

    method Exists(attemptId: Id) returns (found: bool)
      ensures found == AttemptCommandExists(Content(), attemptId)
    {
      found := false;
      for i := 0 to |waiting|
        invariant !found
        invariant forall j | 0 <= j < i :: !NamesAttempt(waiting[j], attemptId)
      {
        if NamesAttempt(waiting[i], attemptId) {
          return true;
        }
      }
      for k := 0 to |claimed|
        invariant !found
        invariant forall j | 0 <= j < k :: !NamesAttempt(claimed[j].item, attemptId)
      {
        if NamesAttempt(claimed[k].item, attemptId) {
          return true;
        }
      }
    }

    method Dispatch(command: Command, runAt: Option<int>, g: Source, wall: int) returns (g': Source)
      requires !command.ContinueRun?
      modifies this
      ensures Turn(Content(), g') == QueueSpec.Dispatch(Turn(old(Content()), g), command, runAt, wall)
    {
      g' := g;
      var exists' := Exists(command.attemptId);
      if exists' {
        return;
      }
      var prefix := if command.ActivityAttempt? then "activity-command" else "task-command";
      waiting := waiting + [NewItem(g, prefix, command, runAt, wall)];
      g' := g.Take().Tick(wall);
    }

    /** Takes over the expired claims the polling worker is eligible to redeliver. */
    method ReclaimExpiredLeases(worker: Worker, limit: int, g: Source, wall: int) returns (g': Source)
      modifies this
      ensures
        Turn(Content(), g') ==
          Reclaim(Turn(old(Content()), g.Tick(wall)), 0, worker, g.Tick(wall).last, limit, wall)
    {
      g' := g.Tick(wall);
      var date := g'.last;
      var k := 0;
      while k < |claimed|
        invariant k <= |claimed|
        invariant
          Reclaim(Turn(Content(), g'), k, worker, date, limit, wall) ==
            Reclaim(Turn(old(Content()), g.Tick(wall)), 0, worker, date, limit, wall)
        decreases |claimed| - k
      {
        var c := claimed[k];
        if c.expiresAt > date || !Eligible(worker, c.item.payload) {
          k := k + 1;
        } else {
          var error := if c.item.lastError.Some? then c.item.lastError.value else LEASE_EXPIRED;
          var d := CountFailure(c.item, error, limit, g', wall);
          claimed := RemoveAt(claimed, k);
          waiting := waiting + [d.item];
          g' := d.g;
        }
      }
    }

    /** The index a poll claims: the first claimable item, and for execution
        workers the one no other claimable item comes before. */
    method Select(worker: Worker, date: int) returns (index: nat)
      ensures index == Pick(waiting, worker, date)
    {
      var query := ClaimableBy(worker, date);
      index := FindIndex(query);
      if index == |waiting| || worker.Coordinator? {
        if worker.Executor? {
          assert forall k | 0 <= k < |waiting| :: !Matches(query, waiting[k]);
        }
        return;
      }
      for candidate := index + 1 to |waiting|
        invariant index < candidate
        invariant IsBest(waiting[..candidate], query, index)
      {
        assert waiting[..candidate + 1] == waiting[..candidate] + [waiting[candidate]];
        if Matches(query, waiting[candidate]) && Before(waiting[candidate], waiting[index]) {
          index := candidate;
        }
      }
      assert waiting[..|waiting|] == waiting;
      assert Matches(query, waiting[index]);
      BestUnique(waiting, query, index, BestUpTo(waiting, query, |waiting|));
    }

    method Claim(worker: Worker, leaseMs: int, limit: int, g: Source, wall: int)
      returns (g': Source, grant: Option<Grant>)
      modifies this
      ensures
        var spec := QueueSpec.Claim(Turn(old(Content()), g), worker, leaseMs, limit, wall);
        Turn(Content(), g') == spec.t && grant == spec.grant
    {
      g' := ReclaimExpiredLeases(worker, limit, g, wall);
      g' := g'.Tick(wall);
      var index := Select(worker, g'.last);
      if index == |waiting| {
        return g', None;
      }
      g', grant := Take(index, worker, leaseMs, g', wall);
    }

    /** Moves a waiting item into the claim map under a fresh lease. */
    method Take(index: nat, worker: Worker, leaseMs: int, g: Source, wall: int)
      returns (g': Source, grant: Option<Grant>)
      requires index < |waiting|
      modifies this
      ensures
        var spec := Taken(Turn(old(Content()), g), index, worker, leaseMs, wall);
        Turn(Content(), g') == spec.t && grant == spec.grant
    {
      var x := waiting[index];
      waiting := RemoveAt(waiting, index);
      var token := g.Fresh(if worker.Coordinator? then "continue-lease" else "attempt-claim-lease");
      g' := g.Take();
      if worker.Executor? {
        g' := g'.Tick(wall);
      }
      claimed := claimed + [Lease(x, token, g'.last + leaseMs)];
      grant := Some(Grant(x.id, x.payload, token));
    }

    /** `ok == false` is the stale-ack error. */
    method Ack(id: Id, token: Id) returns (ok: bool)
      modifies this
      ensures ok == old(Holds(Content(), id, token))
      ensures Content() == QueueSpec.Ack(old(Content()), id, token)
    {
      var k := FindClaim(id);
      ok := k < |claimed| && claimed[k].token == token;
      if ok {
        claimed := RemoveAt(claimed, k);
      }
    }

    method Release(id: Id, token: Id, options: ReleaseOptions, limit: int, g: Source, wall: int)
      returns (g': Source)
      modifies this
      ensures Turn(Content(), g') == QueueSpec.Release(Turn(old(Content()), g), id, token, options, limit, wall)
    {
      g' := g;
      var k := FindClaim(id);
      if k == |claimed| || claimed[k].token != token {
        return;
      }
      var d := ReleasedItem(claimed[k].item, options, limit, g, wall);
      claimed := RemoveAt(claimed, k);
      waiting := waiting + [d.item];
      g' := d.g;
    }

    /** `ok == false` is the lost-lease error. */
    method Heartbeat(id: Id, token: Id, leaseMs: int, g: Source, wall: int) returns (g': Source, ok: bool)
      modifies this
      ensures ok == old(Holds(Content(), id, token))
      ensures Turn(Content(), g') == QueueSpec.Heartbeat(Turn(old(Content()), g), id, token, leaseMs, wall)
    {
      g' := g;
      var k := FindClaim(id);
      ok := k < |claimed| && claimed[k].token == token;
      if ok {
        g' := g.Tick(wall);
        claimed := claimed[k := claimed[k].(expiresAt := g'.last + leaseMs)];
      }
    }

    method MarkReaped(id: Id, g: Source, wall: int) returns (g': Source, marked: bool)
      modifies this
      ensures marked == old(First(waiting, UnreapedDead(id)) < |waiting|)
      ensures Turn(Content(), g') == QueueSpec.MarkReaped(Turn(old(Content()), g), id, wall)
    {
      g' := g;
      var index := FindIndex(UnreapedDead(id));
      marked := index < |waiting|;
      if marked {
        g' := g.Tick(wall);
        waiting := waiting[index := waiting[index].(reapedAt := Some(g'.last))];
      }
    }

    method RequeueDead(id: Id) returns (found: bool)
      modifies this
      ensures found == old(First(waiting, DeadWith(id)) < |waiting|)
      ensures Content() == QueueSpec.RequeueDead(old(Content()), id)
    {
      var index := FindIndex(DeadWith(id));
      found := index < |waiting|;
      if found {
        waiting := waiting[index := Revived(waiting[index])];
      }
    }

    /** Splices doomed items out of the waiting array, from its end. */
    method SpliceDoomed(doomed: Doomed) returns (deleted: nat)
      modifies this
      ensures Content() == Queue(Spared(old(waiting), doomed), old(claimed))
      ensures deleted == |old(waiting)| - |waiting|
    {
      ghost var was := waiting;
      ghost var tail := [];
      var index := |waiting|;
      deleted := 0;
      assert was[..index] == was;
      while index > 0
        invariant 0 <= index <= |was|
        invariant claimed == old(claimed)
        invariant waiting == was[..index] + tail
        invariant Spared(was[..index], doomed) + tail == Spared(was, doomed)
        invariant deleted == |was| - |waiting|
      {
        index := index - 1;
        var x := waiting[index];
        assert was[..index + 1] == was[..index] + [x];
        SparedStep(was, index, tail, doomed);
        if IsDoomed(doomed, x) {
          RemoveMiddle(was[..index], x, tail);
          waiting := RemoveAt(waiting, index);
          deleted := deleted + 1;
        } else {
          assert waiting == was[..index] + ([x] + tail);
          tail := [x] + tail;
        }
      }
    }

    method DeleteClaims(runs: set<Id>)
      modifies this
      ensures Content() == Queue(old(waiting), SparedClaims(old(claimed), runs))
    {
      var i, k := 0, 0;
      ghost var was := claimed;
      while k < |claimed|
        invariant i <= |was| && k <= |claimed| && waiting == old(waiting)
        invariant claimed == SparedClaims(was[..i], runs) + was[i..]
        invariant k == |SparedClaims(was[..i], runs)|
        decreases |was| - i
      {
        SparedClaimsStep(was, i, runs);
        if claimed[k].item.payload.runId in runs {
          claimed := RemoveAt(claimed, k);
        } else {
          k := k + 1;
        }
        i := i + 1;
      }
      assert was[..i] == was;
    }

    method DeleteForRuns(runs: set<Id>)
      modifies this
      ensures Content() == DropRuns(old(Content()), runs)
    {
      var _ := SpliceDoomed(OfRuns(runs));
      DeleteClaims(runs);
    }

    method DeleteUnclaimed(runId: Id) returns (deleted: nat)
      modifies this
      ensures Content() == DropWaiting(old(Content()), runId)
      ensures deleted == |old(waiting)| - |waiting|
    {
      deleted := SpliceDoomed(OfRuns({runId}));
    }

    method SweepDead(date: int)
      modifies this
      ensures Content() == QueueSpec.SweepDead(old(Content()), date)
    {
      var _ := SpliceDoomed(DeadBefore(date));
    }
  }
}
