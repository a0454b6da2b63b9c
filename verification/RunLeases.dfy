/** Run leases: one holder at a time, and a token that was released, replaced
    or deleted never holds or renews anything again. */
module RunLeases {
  import opened Identifiers
  import opened StoreSpec
  import opened StoreHistory

  ghost predicate LeaseLive(s: Store, token: Id) {
    exists runId :: runId in s.leases && s.leases[runId].token == token
  }

  /** No token is shared between runs, and all tokens were issued. */
  ghost predicate LeasesSound(t: StoreTurn) {
    && (forall runId :: runId in t.s.leases ==> t.g.HasIssued(t.s.leases[runId].token))
    && (forall a, b :: a in t.s.leases && b in t.s.leases && t.s.leases[a].token == t.s.leases[b].token ==> a == b)
  }

  predicate TouchesLeases(op: StoreOp) {
    op.AcquiringLease? || op.RenewingLease? || op.ReleasingLease? || op.Deleting?
  }

  lemma OtherStepsKeepLeases(t: StoreTurn, op: StoreOp)
    requires !TouchesLeases(op)
    ensures StoreStep(t, op).s.leases == t.s.leases && t.g.AtMost(StoreStep(t, op).g)
  {
  }

  lemma StepKeepsLeasesSound(t: StoreTurn, op: StoreOp)
    requires LeasesSound(t)
    ensures LeasesSound(StoreStep(t, op))
  {
    if !TouchesLeases(op) {
      OtherStepsKeepLeases(t, op);
    }
  }

  lemma {:induction false} LeasesAlwaysSound(g: Source, ops: seq<StoreOp>)
    ensures LeasesSound(StoreRun(StoreTurn(EMPTY_STORE, g), ops))
  {
    if ops != [] {
      LeasesAlwaysSound(g, ops[..|ops| - 1]);
      StepKeepsLeasesSound(StoreRun(StoreTurn(EMPTY_STORE, g), ops[..|ops| - 1]), ops[|ops| - 1]);
    }
  }

  /** Neither the holder of the token nor a deletion touches the lease. */
  predicate Spares(op: StoreOp, runId: Id, token: Id) {
    && !((op.RenewingLease? || op.ReleasingLease?) && op.token == token)
    && !(op.Deleting? && runId in op.doomed)
  }

  lemma StepKeepsLease(t: StoreTurn, op: StoreOp, runId: Id, token: Id)
    requires HoldsLease(t.s, runId, token) && Spares(op, runId, token)
    requires StoreStep(t, op).g.last < t.s.leases[runId].expiresAt
    ensures runId in StoreStep(t, op).s.leases && StoreStep(t, op).s.leases[runId] == t.s.leases[runId]
  {
    if !TouchesLeases(op) {
      OtherStepsKeepLeases(t, op);
    }
  }

  /** Mutual exclusion over whole runs: until the clock reaches its expiry a
      lease stays with its token whatever others do. */
  lemma {:induction false} LeaseHeldUntilExpiry(t: StoreTurn, ops: seq<StoreOp>, runId: Id, token: Id)
    requires HoldsLease(t.s, runId, token) && forall i | 0 <= i < |ops| :: Spares(ops[i], runId, token)
    requires StoreRun(t, ops).g.last < t.s.leases[runId].expiresAt
    ensures runId in StoreRun(t, ops).s.leases && StoreRun(t, ops).s.leases[runId] == t.s.leases[runId]
    decreases |ops|
  {
    if ops != [] {
      var before := ops[..|ops| - 1];
      StepAdvancesSource(StoreRun(t, before), ops[|ops| - 1]);
      LeaseHeldUntilExpiry(t, before, runId, token);
      StepKeepsLease(StoreRun(t, before), ops[|ops| - 1], runId, token);
    }
  }

  /** The lease outlasts the run of steps if its holder leaves it alone and the clock stays before the date. */
  ghost predicate LeaseHeldBefore(t: StoreTurn, ops: seq<StoreOp>, runId: Id, date: int) {
    runId in t.s.leases &&
    ((forall i | 0 <= i < |ops| :: Spares(ops[i], runId, t.s.leases[runId].token)) && StoreRun(t, ops).g.last < date
     ==> runId in StoreRun(t, ops).s.leases && StoreRun(t, ops).s.leases[runId] == t.s.leases[runId])
  }

  /** A lease is granted if and only if the run is stored and no lease of it is
      unexpired; it lasts `leaseMs` under a token never handed out before. */
  lemma AcquiredLeaseHeld(t: StoreTurn, op: StoreOp, t': StoreTurn, ops: seq<StoreOp>)
    requires op.AcquiringLease? && t' == StoreStep(t, op)
    ensures
      if op.runId in t.s.runs && (op.runId in t.s.leases ==> t.s.leases[op.runId].expiresAt <= t.g.Tick(op.wall).last)
      then && LeaseHeldBefore(t', ops, op.runId, t.g.Tick(op.wall).last + op.leaseMs)
           && !t.g.HasIssued(t'.s.leases[op.runId].token) && t'.g.HasIssued(t'.s.leases[op.runId].token)
           && t'.s.leases[op.runId].version == t.s.runs[op.runId].version
           && t'.s.leases - {op.runId} == t.s.leases - {op.runId}
      else t'.s == t.s
  {
    if op.runId in t.s.runs && (op.runId in t.s.leases ==> t.s.leases[op.runId].expiresAt <= t.g.Tick(op.wall).last) {
      LeaseLasts(t', ops, op.runId, t.g.Tick(op.wall).last + op.leaseMs);
    }
  }

  /** A renewed lease lasts `leaseMs` from the renewal on, under its old token. */
  lemma RenewedLeaseHeld(t: StoreTurn, op: StoreOp, t': StoreTurn, ops: seq<StoreOp>)
    requires op.RenewingLease? && t' == StoreStep(t, op)
    ensures
      if HoldsLease(t.s, op.runId, op.token)
      then && LeaseHeldBefore(t', ops, op.runId, t.g.Tick(op.wall).last + op.leaseMs)
           && t'.s.leases[op.runId].token == op.token && t'.s.leases[op.runId].version == t.s.leases[op.runId].version
           && t'.s.leases - {op.runId} == t.s.leases - {op.runId}
      else t' == t
  {
    if HoldsLease(t.s, op.runId, op.token) {
      LeaseLasts(t', ops, op.runId, t.g.Tick(op.wall).last + op.leaseMs);
    }
  }

  lemma LeaseLasts(t: StoreTurn, ops: seq<StoreOp>, runId: Id, date: int)
    requires runId in t.s.leases && t.s.leases[runId].expiresAt == date
    ensures LeaseHeldBefore(t, ops, runId, date)
  {
    var token := t.s.leases[runId].token;
    if (forall i | 0 <= i < |ops| :: Spares(ops[i], runId, token)) && StoreRun(t, ops).g.last < date {
      LeaseHeldUntilExpiry(t, ops, runId, token);
    }
  }

  /** Releasing a lease, or acquiring it anew after it expired, ends its token. */
  lemma LeaseTokenSpent(t: StoreTurn, op: StoreOp, runId: Id, token: Id)
    requires LeasesSound(t) && HoldsLease(t.s, runId, token) && runId in t.s.runs
    requires (op == ReleasingLease(runId, token)) ||
             (op.AcquiringLease? && op.runId == runId && t.s.leases[runId].expiresAt <= t.g.Tick(op.wall).last)
    ensures !LeaseLive(StoreStep(t, op).s, token)
  {
  }

  lemma StaleLeaseStays(t: StoreTurn, op: StoreOp, token: Id)
    requires t.g.HasIssued(token) && !LeaseLive(t.s, token)
    ensures !LeaseLive(StoreStep(t, op).s, token)
  {
    if !TouchesLeases(op) {
      OtherStepsKeepLeases(t, op);
    }
  }

  /** A token without a lease never renews or releases anything, in any later store. */
  lemma {:induction false} LeaseTokenFencing(t: StoreTurn, ops: seq<StoreOp>, token: Id, runId: Id, leaseMs: int, wall: int)
    requires t.g.HasIssued(token) && !LeaseLive(t.s, token)
    ensures
      var r := StoreRun(t, ops);
      !LeaseLive(r.s, token) && RenewLease(r, runId, token, leaseMs, wall) == r && ReleaseLease(r.s, runId, token) == r.s
  {
    if ops != [] {
      var before := ops[..|ops| - 1];
      LeaseTokenFencing(t, before, token, runId, leaseMs, wall);
      SourceAdvances(t, before);
      StaleLeaseStays(StoreRun(t, before), ops[|ops| - 1], token);
    }
    assert !HoldsLease(StoreRun(t, ops).s, runId, token);
  }
}
