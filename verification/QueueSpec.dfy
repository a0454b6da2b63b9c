/** What every command-queue operation computes, as functions on values.
    A queue is its waiting items in array order and its claimed items in the
    insertion order of the claim map. */
module QueueSpec {
  import opened Identifiers
  import opened Commands

  datatype Item = Item(
    id: Id,
    payload: Command,
    runAt: Option<int>,
    deliveryCount: nat,
    lastError: Option<StoredError>,
    deadAt: Option<int>,
    reapedAt: Option<int>,
    createdAt: int)

  datatype Lease = Lease(item: Item, token: Id, expiresAt: int)

  datatype Queue = Queue(waiting: seq<Item>, claimed: seq<Lease>)

  /** A queue together with the id counter and clock it draws on. */
  datatype Turn = Turn(q: Queue, g: Source)

  datatype Grant = Grant(id: Id, command: Command, token: Id)

  datatype ReleaseOptions = ReleaseOptions(error: Option<StoredError>, unroutable: bool) {
    /** A release that is expected to succeed on redelivery and is not counted. */
    predicate Plain() {
      error.None? && !unroutable
    }
  }

  const EMPTY := Queue([], [])
  const RELEASE_BACKOFF_MS := 50
  const UNROUTABLE_BACKOFF_MS := 1000
  const MAX_ERROR_BACKOFF_MS := 300000
  const LEASE_EXPIRED: StoredError := "Workflow command lease expired without release"
  const NO_IMPLEMENTATION: StoredError := "No implementation can execute this workflow command"

  function RemoveAt<T>(s: seq<T>, i: nat): (r: seq<T>)
    requires i < |s|
    ensures |r| == |s| - 1
    ensures forall j | 0 <= j < |r| :: r[j] == s[if j < i then j else j + 1]
  {
    s[..i] + s[i + 1..]
  }

  // -------------------------------------------------------------- searches

  datatype Query =
    | LiveFor(runId: Id)
    | WithId(id: Id)
    | DeadWith(id: Id)
    | UnreapedDead(id: Id)
    | ClaimableBy(worker: Worker, date: int)

  predicate Matches(query: Query, x: Item) {
    match query
    case LiveFor(runId) => x.deadAt.None? && x.payload.runId == runId
    case WithId(id) => x.id == id
    case DeadWith(id) => x.id == id && x.deadAt.Some?
    case UnreapedDead(id) => x.id == id && x.deadAt.Some? && x.reapedAt.None?
    case ClaimableBy(worker, date) =>
      x.deadAt.None? && Eligible(worker, x.payload) && (x.runAt.None? || x.runAt.value <= date)
  }

  /** `i` is the first match, or the length when nothing matches. */
  ghost predicate IsFirst(w: seq<Item>, query: Query, i: nat) {
    && i <= |w|
    && (i < |w| ==> Matches(query, w[i]))
    && forall j | 0 <= j < i :: !Matches(query, w[j])
  }

  function First(w: seq<Item>, query: Query): (i: nat)
    ensures IsFirst(w, query, i)
  {
    if w == [] || Matches(query, w[0]) then 0
    else
      var rest := First(w[1..], query);
      assert forall j | 0 < j < |w| :: w[j] == w[1..][j - 1];
      1 + rest
  }

  function Due(x: Item): int {
    if x.runAt.Some? then x.runAt.value else x.createdAt
  }

  /** The claim order of attempt commands: due time, then creation time. */
  predicate Before(x: Item, y: Item) {
    Due(x) < Due(y) || (Due(x) == Due(y) && x.createdAt < y.createdAt)
  }

  /** `b` is a match no other match comes before, and the first such. */
  ghost predicate IsBest(w: seq<Item>, query: Query, b: nat) {
    && b < |w|
    && Matches(query, w[b])
    && (forall k | 0 <= k < |w| && Matches(query, w[k]) :: !Before(w[k], w[b]))
    && (forall k | 0 <= k < b && Matches(query, w[k]) :: Before(w[b], w[k]))
  }

  /** The best match among the first `n` items, or `|w|` when there is none. */
  function BestUpTo(w: seq<Item>, query: Query, n: nat): (b: nat)
    requires n <= |w|
    ensures b <= |w|
    ensures b == |w| <==> forall k | 0 <= k < n :: !Matches(query, w[k])
    ensures b < |w| ==> b < n && IsBest(w[..n], query, b)
  {
    if n == 0 then |w|
    else
      var b := BestUpTo(w, query, n - 1);
      assert forall k | 0 <= k < n - 1 :: w[..n][k] == w[..n - 1][k];
      if Matches(query, w[n - 1]) && (b == |w| || Before(w[n - 1], w[b])) then n - 1 else b
  }

  lemma BestUnique(w: seq<Item>, query: Query, b: nat, b': nat)
    requires IsBest(w, query, b) && IsBest(w, query, b')
    ensures b == b'
  {
  }

  /** Which waiting item a worker gets: coordinators take the first match,
      execution workers the best one. */
  function Pick(w: seq<Item>, worker: Worker, date: int): (i: nat)
    ensures i <= |w|
    ensures i < |w| ==> Matches(ClaimableBy(worker, date), w[i])
    ensures i == |w| <==> forall k | 0 <= k < |w| :: !Matches(ClaimableBy(worker, date), w[k])
  {
    var query := ClaimableBy(worker, date);
    if worker.Coordinator? then First(w, query)
    else
      assert w[..|w|] == w;
      BestUpTo(w, query, |w|)
  }

  /** Index of the claim filed under `id`, or the length. */
  function Slot(claimed: seq<Lease>, id: Id): (k: nat)
    ensures k <= |claimed|
    ensures k < |claimed| ==> claimed[k].item.id == id
    ensures forall j | 0 <= j < k :: claimed[j].item.id != id
  {
    if claimed == [] || claimed[0].item.id == id then 0
    else
      assert forall j | 0 < j < |claimed| :: claimed[j] == claimed[1..][j - 1];
      1 + Slot(claimed[1..], id)
  }

  /** Does the claim map hold `id` under this very lease token? */
  predicate Holds(q: Queue, id: Id, token: Id) {
    var k := Slot(q.claimed, id);
    k < |q.claimed| && q.claimed[k].token == token
  }

  predicate NamesAttempt(x: Item, attemptId: Id) {
    !x.payload.ContinueRun? && x.payload.attemptId == attemptId
  }

  predicate AttemptCommandExists(q: Queue, attemptId: Id) {
    || (exists i | 0 <= i < |q.waiting| :: NamesAttempt(q.waiting[i], attemptId))
    || (exists k | 0 <= k < |q.claimed| :: NamesAttempt(q.claimed[k].item, attemptId))
  }

  // ------------------------------------------------------------ operations

  function NewItem(g: Source, prefix: string, command: Command, runAt: Option<int>, wall: int): Item {
    Item(g.Fresh(prefix), command, runAt, 0, None, None, None, g.Tick(wall).last)
  }

  function Push(t: Turn, prefix: string, command: Command, runAt: Option<int>, wall: int): Turn {
    Turn(t.q.(waiting := t.q.waiting + [NewItem(t.g, prefix, command, runAt, wall)]), t.g.Take().Tick(wall))
  }

  function Earliest(left: Option<int>, right: Option<int>): Option<int> {
    if left.None? || right.None? then None
    else if left.value <= right.value then left else right
  }

  function EnqueueContinue(t: Turn, command: Command, runAt: Option<int>, wall: int): Turn {
    var w := t.q.waiting;
    var i := First(w, LiveFor(command.runId));
    if i == |w| then Push(t, "continue", command, runAt, wall)
    else t.(q := t.q.(waiting := w[i := w[i].(payload := command, runAt := Earliest(w[i].runAt, runAt))]))
  }

  function Dispatch(t: Turn, command: Command, runAt: Option<int>, wall: int): Turn
    requires !command.ContinueRun?
  {
    if AttemptCommandExists(t.q, command.attemptId) then t
    else Push(t, if command.ActivityAttempt? then "activity-command" else "task-command", command, runAt, wall)
  }

  datatype Delivery = Delivery(item: Item, g: Source)

  /** Counts a lost delivery and dead-letters the item at the limit. */
  function CountFailure(x: Item, error: StoredError, limit: int, g: Source, wall: int): Delivery {
    var counted := x.(deliveryCount := x.deliveryCount + 1, lastError := Some(error));
    if x.deliveryCount + 1 >= limit
    then Delivery(counted.(deadAt := Some(g.Tick(wall).last)), g.Tick(wall))
    else Delivery(counted, g)
  }

  function Pow2(n: nat): nat {
    if n == 0 then 1 else 2 * Pow2(n - 1)
  }

  function Backoff(deliveries: nat, unroutable: bool): int {
    var delay := Pow2(deliveries) * (if unroutable then UNROUTABLE_BACKOFF_MS else RELEASE_BACKOFF_MS);
    if delay <= MAX_ERROR_BACKOFF_MS then delay else MAX_ERROR_BACKOFF_MS
  }

  function ReleasedItem(x: Item, options: ReleaseOptions, limit: int, g: Source, wall: int): Delivery {
    if options.Plain() then Delivery(x.(runAt := Some(wall + RELEASE_BACKOFF_MS)), g)
    else
      var error := if options.error.Some? then options.error.value else NO_IMPLEMENTATION;
      var d := CountFailure(x, error, limit, g, wall);
      d.(item := d.item.(runAt := Some(wall + Backoff(d.item.deliveryCount, options.unroutable))))
  }

  /** Moves claim `k` back to the end of the waiting items, as `x`. */
  function Requeued(q: Queue, k: nat, x: Item): Queue
    requires k < |q.claimed|
  {
    Queue(q.waiting + [x], RemoveAt(q.claimed, k))
  }

  predicate Expired(c: Lease, worker: Worker, date: int) {
    c.expiresAt <= date && Eligible(worker, c.item.payload)
  }

  /** Takes over every expired claim from index `k` on that the worker may redeliver. */
  function Reclaim(t: Turn, k: nat, worker: Worker, date: int, limit: int, wall: int): Turn
    requires k <= |t.q.claimed|
    decreases |t.q.claimed| - k
  {
    if k == |t.q.claimed| then t
    else
      var c := t.q.claimed[k];
      if !Expired(c, worker, date) then Reclaim(t, k + 1, worker, date, limit, wall)
      else
        var error := if c.item.lastError.Some? then c.item.lastError.value else LEASE_EXPIRED;
        var d := CountFailure(c.item, error, limit, t.g, wall);
        Reclaim(Turn(Requeued(t.q, k, d.item), d.g), k, worker, date, limit, wall)
  }

  datatype Claimed = Claimed(t: Turn, grant: Option<Grant>)

  /** Files waiting item `i` as claimed under a fresh token. */
  function Taken(t: Turn, i: nat, worker: Worker, leaseMs: int, wall: int): Claimed
    requires i < |t.q.waiting|
  {
    var x := t.q.waiting[i];
    var token := t.g.Fresh(if worker.Coordinator? then "continue-lease" else "attempt-claim-lease");
    var g := if worker.Coordinator? then t.g.Take() else t.g.Take().Tick(wall);
    Claimed(Turn(Queue(RemoveAt(t.q.waiting, i), t.q.claimed + [Lease(x, token, g.last + leaseMs)]), g),
            Some(Grant(x.id, x.payload, token)))
  }

  function TakenOver(t: Turn, worker: Worker, limit: int, wall: int): Turn {
    var g := t.g.Tick(wall);
    var r := Reclaim(Turn(t.q, g), 0, worker, g.last, limit, wall);
    r.(g := r.g.Tick(wall))
  }

  /** One poll of a worker: take over expired claims, then claim one due item. */
  function Claim(t: Turn, worker: Worker, leaseMs: int, limit: int, wall: int): Claimed {
    var r := TakenOver(t, worker, limit, wall);
    var i := Pick(r.q.waiting, worker, r.g.last);
    if i == |r.q.waiting| then Claimed(r, None) else Taken(r, i, worker, leaseMs, wall)
  }

  function Ack(q: Queue, id: Id, token: Id): Queue {
    if Holds(q, id, token) then q.(claimed := RemoveAt(q.claimed, Slot(q.claimed, id))) else q
  }

  function Release(t: Turn, id: Id, token: Id, options: ReleaseOptions, limit: int, wall: int): Turn {
    if !Holds(t.q, id, token) then t
    else
      var k := Slot(t.q.claimed, id);
      var d := ReleasedItem(t.q.claimed[k].item, options, limit, t.g, wall);
      Turn(Requeued(t.q, k, d.item), d.g)
  }

  function Heartbeat(t: Turn, id: Id, token: Id, leaseMs: int, wall: int): Turn {
    if !Holds(t.q, id, token) then t
    else
      var k := Slot(t.q.claimed, id);
      var g := t.g.Tick(wall);
      Turn(t.q.(claimed := t.q.claimed[k := t.q.claimed[k].(expiresAt := g.last + leaseMs)]), g)
  }

  function MarkReaped(t: Turn, id: Id, wall: int): Turn {
    var w := t.q.waiting;
    var i := First(w, UnreapedDead(id));
    if i == |w| then t
    else
      var g := t.g.Tick(wall);
      Turn(t.q.(waiting := w[i := w[i].(reapedAt := Some(g.last))]), g)
  }

  function Revived(x: Item): Item {
    Item(x.id, x.payload, None, 0, None, None, None, x.createdAt)
  }

  function RequeueDead(q: Queue, id: Id): Queue {
    var i := First(q.waiting, DeadWith(id));
    if i == |q.waiting| then q else q.(waiting := q.waiting[i := Revived(q.waiting[i])])
  }

  datatype Doomed = OfRuns(runs: set<Id>) | DeadBefore(date: int)

  predicate IsDoomed(doomed: Doomed, x: Item) {
    match doomed
    case OfRuns(runs) => x.payload.runId in runs
    case DeadBefore(date) => x.deadAt.Some? && x.deadAt.value < date
  }

  /** The items that survive a deletion, in order. */
  function Spared(w: seq<Item>, doomed: Doomed): seq<Item> {
    if w == [] then []
    else
      var n := |w| - 1;
      Spared(w[..n], doomed) + if IsDoomed(doomed, w[n]) then [] else [w[n]]
  }

  function SparedClaims(claimed: seq<Lease>, runs: set<Id>): seq<Lease> {
    if claimed == [] then []
    else
      var n := |claimed| - 1;
      SparedClaims(claimed[..n], runs) + if claimed[n].item.payload.runId in runs then [] else [claimed[n]]
  }

  lemma {:induction false} SparedMembers(w: seq<Item>, doomed: Doomed)
    ensures forall x :: x in Spared(w, doomed) <==> x in w && !IsDoomed(doomed, x)
  {
    if w != [] {
      SparedMembers(w[..|w| - 1], doomed);
      assert w == w[..|w| - 1] + [w[|w| - 1]];
    }
  }

  lemma {:induction false} SparedClaimsMembers(claimed: seq<Lease>, runs: set<Id>)
    ensures forall c :: c in SparedClaims(claimed, runs) <==> c in claimed && c.item.payload.runId !in runs
  {
    if claimed != [] {
      SparedClaimsMembers(claimed[..|claimed| - 1], runs);
      assert claimed == claimed[..|claimed| - 1] + [claimed[|claimed| - 1]];
    }
  }

  function DropRuns(q: Queue, runs: set<Id>): Queue {
    Queue(Spared(q.waiting, OfRuns(runs)), SparedClaims(q.claimed, runs))
  }

  function DropWaiting(q: Queue, runId: Id): Queue {
    q.(waiting := Spared(q.waiting, OfRuns({runId})))
  }

  function SweepDead(q: Queue, date: int): Queue {
    q.(waiting := Spared(q.waiting, DeadBefore(date)))
  }

  // ------------------------------------------------- the transition system

  datatype QueueOp =
    | Elapse(to: Source)
    | Enqueuing(command: Command, runAt: Option<int>, wall: int)
    | Dispatching(command: Command, runAt: Option<int>, wall: int)
    | Claiming(worker: Worker, leaseMs: int, wall: int)
    | Acking(id: Id, token: Id)
    | Releasing(id: Id, token: Id, options: ReleaseOptions, wall: int)
    | Beating(id: Id, token: Id, leaseMs: int, wall: int)
    | Reaping(id: Id, wall: int)
    | Requeuing(id: Id)
    | Sweeping(date: int)
    | DroppingRuns(runs: set<Id>)
    | DroppingWaiting(runId: Id)

  /** One atomic step of a queue; `Elapse` is any step of the rest of the
      runtime, which may only draw ids and advance the clock. */
  function Step(t: Turn, limit: int, op: QueueOp): Turn {
    match op
    case Elapse(to) => if t.g.AtMost(to) then t.(g := to) else t
    case Enqueuing(command, runAt, wall) =>
      if command.ContinueRun? then EnqueueContinue(t, command, runAt, wall) else t
    case Dispatching(command, runAt, wall) =>
      if command.ContinueRun? then t else Dispatch(t, command, runAt, wall)
    case Claiming(worker, leaseMs, wall) => Claim(t, worker, leaseMs, limit, wall).t
    case Acking(id, token) => t.(q := Ack(t.q, id, token))
    case Releasing(id, token, options, wall) => Release(t, id, token, options, limit, wall)
    case Beating(id, token, leaseMs, wall) => Heartbeat(t, id, token, leaseMs, wall)
    case Reaping(id, wall) => MarkReaped(t, id, wall)
    case Requeuing(id) => t.(q := RequeueDead(t.q, id))
    case Sweeping(date) => t.(q := SweepDead(t.q, date))
    case DroppingRuns(runs) => t.(q := DropRuns(t.q, runs))
    case DroppingWaiting(runId) => t.(q := DropWaiting(t.q, runId))
  }

  function Run(t: Turn, limit: int, ops: seq<QueueOp>): Turn {
    if ops == [] then t else Step(Run(t, limit, ops[..|ops| - 1]), limit, ops[|ops| - 1])
  }
}
