/** What a poll hands out, and how long a released command waits. */
module QueueClaims {
  import opened Identifiers
  import opened Commands
  import opened QueueSpec
  import opened QueueInvariants
  import opened QueueTheorems

  /** The worker declared what the command needs: the workflow, for an activity
      the activity too unless it takes all, for a task just the task. */
  predicate Declared(worker: Worker, command: Command) {
    && (worker.Executor? ==> !command.ContinueRun?)
    && (worker.Executor? && command.TaskAttempt? ==> command.taskName in worker.taskNames)
    && (worker.Coordinator? || command.ActivityAttempt? ==> command.workflowName in worker.workflowNames)
    && (worker.Executor? && command.ActivityAttempt? ==>
          worker.activityNames == None || command.activityName in worker.activityNames.value)
  }

  /** The worker may have the item now: it is alive, declared, and due. */
  predicate MayHave(worker: Worker, date: int, x: Item) {
    x.deadAt == None && Declared(worker, x.payload) && (x.runAt == None || x.runAt.value <= date)
  }

  /** `x` was due before `y`, or at the same time and created no later; what has
      no due time is due from its creation on. */
  predicate NotAfter(x: Item, y: Item) {
    var a := if x.runAt == None then x.createdAt else x.runAt.value;
    var b := if y.runAt == None then y.createdAt else y.runAt.value;
    a < b || (a == b && x.createdAt <= y.createdAt)
  }

  /** The item a poll must take: coordinators the first they may have,
      execution workers the one due first of all they may have. */
  ghost predicate IsNext(w: seq<Item>, worker: Worker, date: int, i: nat) {
    && i < |w| && MayHave(worker, date, w[i])
    && (if worker.Coordinator?
        then forall k | 0 <= k < i :: !MayHave(worker, date, w[k])
        else forall k | 0 <= k < |w| && MayHave(worker, date, w[k]) :: NotAfter(w[i], w[k]))
  }

  lemma MayHaveIsMatch(worker: Worker, date: int, x: Item)
    ensures Matches(ClaimableBy(worker, date), x) <==> MayHave(worker, date, x)
  {
  }

  lemma PickIsNext(w: seq<Item>, worker: Worker, date: int)
    ensures
      var i := Pick(w, worker, date);
      if i == |w| then forall k | 0 <= k < |w| :: !MayHave(worker, date, w[k]) else IsNext(w, worker, date, i)
  {
    var i, query := Pick(w, worker, date), ClaimableBy(worker, date);
    forall k | 0 <= k < |w|
      ensures Matches(query, w[k]) <==> MayHave(worker, date, w[k])
    {
      MayHaveIsMatch(worker, date, w[k]);
    }
    if i < |w| && worker.Executor? {
      assert w[..|w|] == w;
      assert IsBest(w, query, i);
      forall k | 0 <= k < |w| && MayHave(worker, date, w[k])
        ensures NotAfter(w[i], w[k])
      {
        assert !Before(w[k], w[i]);
      }
    }
  }

  /** The poll takes waiting item `i`, moves it among the claims under a token of
      its own and hands it out; an execution worker's lease starts at a time of its own. */
  ghost predicate Hands(r: Turn, c: Claimed, worker: Worker, leaseMs: int, i: nat) {
    && IsNext(r.q.waiting, worker, r.g.last, i) && c.grant.Some?
    && c.grant.value.id == r.q.waiting[i].id && c.grant.value.command == r.q.waiting[i].payload
    && c.t.q.waiting == r.q.waiting[..i] + r.q.waiting[i + 1..]
    && c.t.q.claimed == r.q.claimed + [Lease(r.q.waiting[i], c.grant.value.token, c.t.g.last + leaseMs)]
    && c.grant.value.token == r.g.Fresh(if worker.Coordinator? then "continue-lease" else "attempt-claim-lease")
    && (if worker.Coordinator? then c.t.g.last == r.g.last else r.g.last < c.t.g.last)
  }

  lemma TakenHands(r: Turn, i: nat, worker: Worker, leaseMs: int, wall: int)
    requires IsNext(r.q.waiting, worker, r.g.last, i)
    ensures Hands(r, Taken(r, i, worker, leaseMs, wall), worker, leaseMs, i)
  {
  }

  /** A poll grants nothing if and only if the worker may have nothing, once it
      took over what had expired; otherwise it moves exactly the next item. */
  lemma GrantIsNext(t: Turn, worker: Worker, leaseMs: int, limit: int, wall: int)
    ensures
      var r, c := TakenOver(t, worker, limit, wall), Claim(t, worker, leaseMs, limit, wall);
      if c.grant.None?
      then c.t == r && forall k | 0 <= k < |r.q.waiting| :: !MayHave(worker, r.g.last, r.q.waiting[k])
      else exists i: nat :: Hands(r, c, worker, leaseMs, i)
    ensures t.g.Tick(wall).last < TakenOver(t, worker, limit, wall).g.last
  {
    var r, g := TakenOver(t, worker, limit, wall), t.g.Tick(wall);
    ReclaimKeepsClaims(Turn(t.q, g), 0, worker, g.last, limit, wall);
    PickIsNext(r.q.waiting, worker, r.g.last);
    var i := Pick(r.q.waiting, worker, r.g.last);
    if i < |r.q.waiting| {
      TakenHands(r, i, worker, leaseMs, wall);
    }
  }

  /** Back-off starts at 50 ms, or at a second for commands nobody can execute,
      and doubles with every lost delivery up to five minutes. */
  lemma BackoffDoubles(n: nat, unroutable: bool)
    ensures Backoff(0, false) == 50 && Backoff(0, true) == 1000
    ensures Backoff(n, unroutable) <= Backoff(n + 1, unroutable) <= 300000
    ensures Backoff(n + 1, unroutable) == 300000 || Backoff(n + 1, unroutable) == 2 * Backoff(n, unroutable)
    ensures Backoff(n, false) <= Backoff(n, true)
  {
    Pow2Positive(n);
    assert Pow2(n + 1) == 2 * Pow2(n);
  }

  lemma {:induction false} Pow2Positive(n: nat)
    ensures Pow2(n) >= 1
  {
    if n > 0 {
      Pow2Positive(n - 1);
    }
  }

  function ReleaseDelay(x: Item, options: ReleaseOptions): int {
    if options.Plain() then 50 else Backoff(x.deliveryCount + 1, options.unroutable)
  }

  /** A waiting item is not granted before it is due. */
  lemma NotYetDue(t: Turn, limit: int, n: nat, worker: Worker, leaseMs: int, wall: int)
    requires Sound(t, limit) && n < |t.q.waiting| && t.q.waiting[n].runAt.Some?
    requires TakenOver(t, worker, limit, wall).g.last < t.q.waiting[n].runAt.value
    ensures
      var grant := Claim(t, worker, leaseMs, limit, wall).grant;
      grant.Some? ==> grant.value.id != t.q.waiting[n].id
  {
    var g := t.g.Tick(wall);
    ReclaimAppends(Turn(t.q, g), 0, worker, g.last, limit, wall);
    TakenOverSound(t, limit, worker, wall);
    var r := TakenOver(t, worker, limit, wall);
    assert r.q.waiting[n] == t.q.waiting[n];
    GrantIsNext(t, worker, leaseMs, limit, wall);
    NotNext(r, limit, worker, n);
  }

  /** What is not claimable is not next, under any index with its id. */
  lemma NotNext(r: Turn, limit: int, worker: Worker, n: nat)
    requires Sound(r, limit) && n < |r.q.waiting| && !MayHave(worker, r.g.last, r.q.waiting[n])
    ensures forall i: nat | IsNext(r.q.waiting, worker, r.g.last, i) :: r.q.waiting[i].id != r.q.waiting[n].id
  {
    forall i: nat | IsNext(r.q.waiting, worker, r.g.last, i)
      ensures r.q.waiting[i].id != r.q.waiting[n].id
    {
      assert i < n ==> !Clash(r.q.waiting[i], r.q.waiting[n]);
      assert n < i ==> !Clash(r.q.waiting[n], r.q.waiting[i]);
    }
  }
}
