# Neemata: verified models of the workflow runtime and its neighbours

This project models, in Dafny, the parts of the repository whose correctness
depends on state and interleaving, and proves what they promise over every
input, every run and every reachable state.

**The durable workflow runtime** (`packages/workflows/src/runtime/in-memory.ts`).
Every store and executor call mutates its maps without suspending, so one call
is one atomic step and a run of the system is a sequence of such steps by
arbitrary workers.

- `Identifiers`, `Commands`: the id counter, the strictly increasing clock,
  composite keys, commands and who may claim them.
- `QueueSpec`: a command queue as a value, one function per operation, and the
  step function over all of them. `QueueInvariants` proves its inductive
  invariant, `QueueTheorems` conservation, lease fencing and the absence of lost
  wake-ups, `QueueClaims` what a poll may grant, `DeadLetters` exact
  dead-lettering, `QueueCourses` what a step makes of one command field by
  field, `QueueDelays` that nothing is claimed before it is due, `ClaimLeases`
  that a claim lasts as long as its lease, `QueueOrder` that nothing overtakes.
  `CommandQueue` is the mutable queue: a sequence field that is spliced and
  pushed, with a claim map beside it; each method equals its specification
  function.
- `StoreSpec`: runs, nodes, children, attempts, the three key indexes and run
  leases. `StoreIndexes`, `StoreHistory`, `StoreTransitions`,
  `StoreIdempotency`, `StoreAttempts`, `RunLeases` and `RunFamilies` prove what
  the store keeps, `StoreCourses` what its rows say about the calls that were
  made.
- `RuntimeSpec` joins the store and both queues over one counter and one clock.
  `RuntimeProjections` shows that each component of a run of the whole is a run
  of that component alone, so `RuntimeTheorems`, `RuntimeRuns` and
  `RuntimeCourses` state the results for whole runs. `StrandedAttempts` is a
  concrete run that breaks attempt accounting. `InMemoryRuntime` is the mutable
  runtime, every method of which is one step of that machine.

**Flow control.** `StreamSignals` says what follows from the signals a stream
hears, `StreamStates` what holds of its state, and `ServerStream` is the
credit-driven, re-entrant byte pump with its sink callbacks; `RpcWindow` models
the window and half-window refills of the client.

**Dependency injection.** `Scopes` (memoised effective scopes), `Containers`
(the recursive resolver over dependencies, aliases and parents),
`ContainerRoutes` (which container answers a request), `Disposal` (the
depth-first disposal order).

**Smaller cores.** `ExecutionPools` (which worker claims which command),
`BinaryFrames`, `JsonTrees` and `JsonRpcCodec` (blobs inside JSON calls),
`LatestQueue` (the `latest` operation queue, cut at its awaits).

## What the code does not promise

Six properties one would expect do not hold as the code stands. Each is
modelled as it is, with the exact condition under which the property holds.

- *Attempt numbering.* A child whose linked run was created with the
  `rootRunId` of an unrelated family loses its row, but not its attempts, when
  that family is deleted. `UndisciplinedDeletionStrandsAttempt` is such a run;
  `StepKeepsAttemptsIffNoOrphans` shows that this deletion is the only step that
  breaks the accounting; `AttemptFencing` proves it for callers that pass a
  stored parent together with its root, as the coordinator does.
- *Nothing before the first grant.* The stream holds a source error back until
  the first grant, but `destroy(error)` signals its error at once
  (`AbortBeforeFirstGrant`). `BeforeTheFirstGrant` shows that this is the only
  exception: an ungranted stream has signalled something if and only if an abort
  came before every destroy and every grant that could open it.
- *Node transitions.* `waitNode` refuses terminal and waiting nodes only, so it
  would take a cancelling node back to waiting, which the transition table does
  not allow (`WaitingAgainstTable`); no store call makes a node cancelling, so in
  reachable stores every change is legal (`StatusesAlwaysLegal`).
- *Provisions above.* What a container provides is used in the containers below
  it (`ProvidedIsUsed`), except for plain values and transient injectables: a
  container that does not provide those itself never asks its parent
  (`ProvidedAboveSeenIff`).
- *A delivery bound below one.* With `maxDeliveries < 1` a command still gets one
  delivery; the threshold is the larger of the bound and 1.
- *JSON calls with blobs.* A plain text that starts with the stream marker does
  not survive in a call that also carries a blob (`MarkedTextIsLost`);
  `RoundTrip` gives the exact condition.

Pruning, unlike `deleteRun`, takes the descendants of a terminal root along
whatever their status; `PruneExact` says what is removed.

## Conventions

- A record key is a tuple of its parts. The composite texts of the source are
  injective for run ids and node names without a colon (`ChildKeyInjective`);
  `NodeKeyClash` shows the clash otherwise.
- The wall clock is a parameter of each call that stores or compares a
  timestamp. Steps whose timestamps the model does not keep do not read the
  clock; a run in which they do is a run of the model with larger wall readings.
- Ghost fields (`events`, `books`, `settled`, ...) record history
  that the program does not store.

## Model

| member | source | states |
|---|---|---|
| `Identifiers.RenderInjective` | packages/workflows/src/runtime/in-memory.ts:127-128 | two issued ids with the same text are the same id, whatever their prefixes |
| `Identifiers.TickIsLeast` | packages/workflows/src/runtime/in-memory.ts:129-134 | a clock reading is the least time that is past the last reading and not behind the wall |
| `Identifiers.NodeKeyInjective` | packages/workflows/src/runtime/in-memory.ts:165 | node keys are equal exactly when run and node are, if run ids have no colon |
| `Identifiers.ChildKeyInjective` | packages/workflows/src/runtime/in-memory.ts:166-167 | child keys are equal exactly when all parts are, if run ids and node names have no colon; the child key itself is free |
| `Identifiers.NodeKeyClash` | packages/workflows/src/runtime/in-memory.ts:165 | without that restriction two different nodes share one key |
| `QueueSpec.BestUnique` | packages/workflows/src/runtime/in-memory.ts:1454-1492 | the claimable item that no other comes before, first among ties, is unique |
| `QueueInvariants.StepSound` | packages/workflows/src/runtime/in-memory.ts:1454-1837 | every queue operation keeps the invariant: ids, creation times, lease tokens and attempt commands are distinct across queue and claims, a queued item is dead iff its count is at the threshold, a claimed one is never dead |
| `QueueInvariants.RunSound` | packages/workflows/src/runtime/in-memory.ts:1454-1837 | the invariant holds over every run |
| `QueueInvariants.ReclaimSound` | packages/workflows/src/runtime/in-memory.ts:1599-1619 | taking over any number of expired claims keeps the invariant |
| `QueueTheorems.MovesConserve` | packages/workflows/src/runtime/in-memory.ts:1454-1659 | claim with take-over, release, heartbeat, reaping and requeueing keep the multiset of commands in queue and claims |
| `QueueTheorems.AckConserves` | packages/workflows/src/runtime/in-memory.ts:1707-1712 | an accepted ack removes exactly the acknowledged command, a stale one nothing |
| `QueueTheorems.ClaimKeepsClaims` | packages/workflows/src/runtime/in-memory.ts:1678-1706 | a poll keeps exactly the claims that are not expired for the worker and adds at most the granted one, under a token issued by that poll |
| `QueueTheorems.TokenSpent` | packages/workflows/src/runtime/in-memory.ts:1678-1721 | ack, release and take-over each end the token's claim |
| `QueueTheorems.StaleTokenForever` | packages/workflows/src/runtime/in-memory.ts:1678-1721 | an issued token without a claim never gets one again, over every run |
| `QueueTheorems.LeaseFencing` | packages/workflows/src/runtime/in-memory.ts:1707-1721 | a stale token can never again ack, release or heartbeat anything |
| `QueueTheorems.EnqueueWakes` | packages/workflows/src/runtime/in-memory.ts:1511-1541 | after an enqueue a live queued command of the run is due no later than asked |
| `QueueTheorems.NoLostWakeUp` | packages/workflows/src/runtime/in-memory.ts:1511-1541 | such a command stays until one of the run's commands is claimed or the run is dropped, over every run, whatever happens to older commands |
| `QueueClaims.GrantIsNext` | packages/workflows/src/runtime/in-memory.ts:1454-1492 | a poll grants nothing iff the worker may have nothing once it took over what had expired; otherwise it moves exactly one command, alive, of its kind and due: the first for coordinators, for execution workers the one due first and created first, under a token and an expiry of its own |
| `QueueClaims.BackoffDoubles` | packages/workflows/src/runtime/in-memory.ts:1555-1592 | back-off starts at 50 ms, or at one second for commands nobody can execute, and doubles with each lost delivery up to five minutes |
| `QueueDelays.ReleasedWaits` | packages/workflows/src/runtime/in-memory.ts:1555-1592 | a released command is claimed by nobody before its back-off is over, over every run that neither merges into it nor revives it |
| `QueueDelays.RestsUntilDue` | packages/workflows/src/runtime/in-memory.ts:1454-1619 | until the clock reaches its due time a waiting command is claimed by nobody, over every such run |
| `QueueDelays.FiledWaits` | packages/workflows/src/runtime/in-memory.ts:1500-1541 | a new command is filed as asked, and claimed by nobody before the time it was given, over every such run |
| `QueueDelays.MergedWaits` | packages/workflows/src/runtime/in-memory.ts:1511-1541 | a command merged into a waiting one is due at the earlier of the two times, none only if one of them was none, and is claimed by nobody before that |
| `QueueCourses.CommandTurns` | packages/workflows/src/runtime/in-memory.ts:1454-1837 | one step removes a command iff it is acked under its token, swept when dead, or dropped with its run; otherwise it changes of it exactly what merging, releasing, taking over, reviving or reaping is for, field by field, and nothing else |
| `QueueCourses.Filed` | packages/workflows/src/runtime/in-memory.ts:1500-1541 | an enqueue for a run without a live waiting continuation, and a dispatch for an attempt without a command, file one: alive, undelivered, due when asked, under the next id |
| `QueueCourses.OnlyFiled` | packages/workflows/src/runtime/in-memory.ts:1454-1837 | no command enters a queue another way |
| `QueueCourses.StaysUntilRemoved` | packages/workflows/src/runtime/in-memory.ts:1454-1837 | no command is lost: over every run that does not remove it, it stays, waiting or claimed |
| `QueueOrder.StepKeepsOrder` | packages/workflows/src/runtime/in-memory.ts:1454-1659 | of two waiting commands the one ahead stays ahead, and what is new or comes back goes behind all that wait |
| `ClaimLeases.ClaimHeldUntilExpiry` | packages/workflows/src/runtime/in-memory.ts:1678-1806 | until the clock reaches its expiry a claim stays as it is, over every run in which its claimer leaves it alone and its run is not dropped |
| `ClaimLeases.GrantedClaimHeld` | packages/workflows/src/runtime/in-memory.ts:1678-1795 | a granted command is claimed under a token never handed out before, and nobody else gets it for the length of the lease |
| `ClaimLeases.BeatenClaimHeld` | packages/workflows/src/runtime/in-memory.ts:1796-1806 | an accepted heartbeat keeps the claim for the length of the lease from then on |
| `DeadLetters.StepFollows` | packages/workflows/src/runtime/in-memory.ts:1544-1659 | one step resets a command's count, adds one for a lost delivery, or leaves it, and brings back no command that is gone |
| `DeadLetters.DeadLetteringIsExact` | packages/workflows/src/runtime/in-memory.ts:1544-1619 | over every run the count equals the error or unroutable releases and take-overs since creation or the last requeue, is bounded, the command is dead iff it reaches the threshold, and a claimed one is alive |
| `DeadLetters.DeadUntilRequeued` | packages/workflows/src/runtime/in-memory.ts:1646-1659 | over every run that does not requeue it a dead command stays dead and unclaimed, and once removed it does not come back |
| `CommandQueues.CommandQueue.FindIndex` | packages/workflows/src/runtime/in-memory.ts:1454-1460 | the first matching index, by a loop |
| `CommandQueues.CommandQueue.EnqueueContinue` | packages/workflows/src/runtime/in-memory.ts:1511-1541 | merges into a live queued command of the run with the earlier due time, or pushes a new one |
| `CommandQueues.CommandQueue.Exists` | packages/workflows/src/runtime/in-memory.ts:1665-1669 | true iff an attempt command names the attempt, queued or claimed |
| `CommandQueues.CommandQueue.Dispatch` | packages/workflows/src/runtime/in-memory.ts:1751-1768 | pushes an attempt command unless its attempt has one |
| `CommandQueues.CommandQueue.ReclaimExpiredLeases` | packages/workflows/src/runtime/in-memory.ts:1599-1619 | the in-place loop moves back exactly what the specification moves |
| `CommandQueues.CommandQueue.Select` | packages/workflows/src/runtime/in-memory.ts:1454-1492 | the loop finds the specified item: first claimable, or the best one for execution workers |
| `CommandQueues.CommandQueue.Claim` | packages/workflows/src/runtime/in-memory.ts:1678-1706 | one poll: take-over, selection, splice, fresh lease |
| `CommandQueues.CommandQueue.Take` | packages/workflows/src/runtime/in-memory.ts:1678-1706 | splices the selected item out and files it under a fresh token and expiry |
| `CommandQueues.CommandQueue.Ack` | packages/workflows/src/runtime/in-memory.ts:1707-1712 | removes the claim iff the token matches |
| `CommandQueues.CommandQueue.Release` | packages/workflows/src/runtime/in-memory.ts:1555-1592 | moves the claim back with its count, delay and dead mark, iff the token matches |
| `CommandQueues.CommandQueue.Heartbeat` | packages/workflows/src/runtime/in-memory.ts:1796-1806 | extends the expiry iff the token matches |
| `CommandQueues.CommandQueue.MarkReaped` | packages/workflows/src/runtime/in-memory.ts:588-602 | stamps the first unreaped dead item of the id |
| `CommandQueues.CommandQueue.RequeueDead` | packages/workflows/src/runtime/in-memory.ts:1646-1659 | revives the dead item of the id |
| `CommandQueues.CommandQueue.SpliceDoomed` | packages/workflows/src/runtime/in-memory.ts:1421-1428 | the backward splice loop leaves exactly the spared items in order |
| `CommandQueues.CommandQueue.DeleteClaims` | packages/workflows/src/runtime/in-memory.ts:1429-1436 | leaves exactly the claims of other runs in order |
| `CommandQueues.CommandQueue.SweepDead` | packages/workflows/src/runtime/in-memory.ts:1437-1452 | removes exactly the items dead before the date |
| `CommandQueues.CommandQueue.DeleteUnclaimed` | packages/workflows/src/runtime/in-memory.ts:1822-1836 | removes exactly the run's waiting commands and counts them |
| `StoreSpec.TerminalIsSink` | packages/workflows/src/runtime/transitions.ts:16-41 | the terminal statuses are exactly those without an outgoing transition |
| `StoreIndexes.KeysAreUnique` | packages/workflows/src/runtime/in-memory.ts:364-437 | with exact indexes no two runs hold the same key of a kind |
| `StoreIndexes.StepKeepsIndexes` | packages/workflows/src/runtime/in-memory.ts:259-265 | every store step keeps each index equal to the one a full scan of the runs would compute |
| `StoreIndexes.IndexesAlwaysExact` | packages/workflows/src/runtime/in-memory.ts:364-437 | the three indexes are exact in every reachable store |
| `StoreIndexes.JudgedByScan` | packages/workflows/src/runtime/in-memory.ts:317-400 | what a create request meets, by a scan of the runs: it joins the holder of its idempotency key if that matches and conflicts with it otherwise; failing that it joins or conflicts with the run that has its unique key in its scope; it is admitted iff there is neither |
| `StoreIndexes.MatchingMeans` | packages/workflows/src/runtime/in-memory.ts:317-325 | a run matches a request iff the request would have made the same run, keys aside |
| `StoreHistory.RunsEvolve` | packages/workflows/src/runtime/in-memory.ts:896-993 | a step leaves a run or moves it along a legal transition with its version up by one and its identity kept |
| `StoreHistory.NodesEvolve` | packages/workflows/src/runtime/in-memory.ts:756-895 | a step leaves a node or, if it was not terminal, bumps its version by one; a selected case stays selected |
| `StoreHistory.ChildrenEvolve` | packages/workflows/src/runtime/in-memory.ts:1042-1247 | the same for a child, which keeps its kind, ordinal, item and item key; its attempt count grows by at most one and a linked run stays linked |
| `StoreHistory.AttemptsEvolve` | packages/workflows/src/runtime/in-memory.ts:807-861 | an attempt settles at most once and keeps child, number, token, input and key |
| `StoreHistory.TerminalRunForever` | packages/workflows/src/runtime/in-memory.ts:926-993 | a terminal run stays the same row until deleted, over every run |
| `StoreHistory.TerminalNodeForever` | packages/workflows/src/runtime/in-memory.ts:862-895 | the same for nodes |
| `StoreHistory.TerminalChildForever` | packages/workflows/src/runtime/in-memory.ts:1197-1230 | the same for children |
| `StoreHistory.SettledAttemptForever` | packages/workflows/src/runtime/in-memory.ts:807-861 | a settled attempt never changes again |
| `StoreTransitions.RunChangesFollowTable` | packages/workflows/src/runtime/in-memory.ts:896-993 | a run change takes effect iff the transition table allows its target, with exactly the output or error it brings; otherwise nothing changes |
| `StoreTransitions.StatusesAlwaysLegal` | packages/workflows/src/runtime/transitions.ts:26-41 | in every reachable store each step moves nodes and children along the table |
| `StoreTransitions.NeverCancelling` | packages/workflows/src/runtime/in-memory.ts:738-1247 | no node or child of a reachable store is cancelling |
| `StoreTransitions.WaitingAgainstTable` | packages/workflows/src/runtime/in-memory.ts:1231-1247 | waiting is legal for a node that can change iff it is not cancelling |
| `StoreIdempotency.MatchesForever` | packages/workflows/src/runtime/in-memory.ts:317-325 | a run keeps matching the request it was made from |
| `StoreIdempotency.CreationIsIdempotent` | packages/workflows/src/runtime/in-memory.ts:364-437 | the same request at any later time gets the same run while it exists, and changes nothing |
| `StoreIdempotency.ChildrenEnsuredAgain` | packages/workflows/src/runtime/in-memory.ts:1042-1095 | a node whose children were just created takes another call for them iff it asks for exactly the same ones, in any order |
| `StoreIdempotency.ChildRunEnsuredAgain` | packages/workflows/src/runtime/in-memory.ts:1096-1152 | a child just linked to a new run takes another call to link it iff it asks for the same task, input and key |
| `StoreAttempts.OneCompletedAttempt` | packages/workflows/src/runtime/in-memory.ts:807-833 | at most one attempt of a child is completed |
| `StoreAttempts.StartKeepsSound` | packages/workflows/src/runtime/in-memory.ts:1258-1310 | starting an attempt keeps the numbering 1..attemptCount and the pointer to the last one |
| `StoreAttempts.SettleKeepsSound` | packages/workflows/src/runtime/in-memory.ts:1314-1335 | settling through the fence keeps attempt accounting |
| `StoreAttempts.DeleteKeepsSoundIff` | packages/workflows/src/runtime/in-memory.ts:1386-1419 | a deletion keeps attempt accounting iff it orphans no attempt |
| `StoreAttempts.StepKeepsAttemptsIff` | packages/workflows/src/runtime/in-memory.ts:790-861 | every other store step keeps it |
| `StoreAttempts.StepKeepsLinks` | packages/workflows/src/runtime/in-memory.ts:1096-1152 | a linked child run exists and has the child's run as parent |
| `StoreCourses.AttemptsTellTheRun` | packages/workflows/src/runtime/in-memory.ts:807-861 | over every run of the store: a stored attempt is completed with an output, or failed or timed out with an error, iff the run holds the accepted settlement that says so, of which there is at most one, and started iff it holds none |
| `StoreCourses.SettlementTouches` | packages/workflows/src/runtime/in-memory.ts:807-861 | an accepted settlement changes the attempt and, if it is a success, completes its child with that output; a failed or timed-out one leaves the child row alone; a refused one changes nothing |
| `StoreCourses.NewAttemptCarries` | packages/workflows/src/runtime/in-memory.ts:1258-1310 | a new attempt has the input and key it was asked for, the next number of its child and a token of its own, and is its current one |
| `StoreCourses.NodesTellTheRun` | packages/workflows/src/runtime/in-memory.ts:738-895 | over every run a stored node stands where the calls since its creation left it: the first verdict decides, before that the last move |
| `StoreCourses.ChildrenTellTheRun` | packages/workflows/src/runtime/in-memory.ts:1042-1335 | the same for children, which settlements, cancellations, attempts and linked runs move too |
| `StoreCourses.NodeKeeps` | packages/workflows/src/runtime/in-memory.ts:756-895 | a step keeps the kind of a node and changes its input or selected case only by that call, the case only once |
| `StoreCourses.ChildKeeps` | packages/workflows/src/runtime/in-memory.ts:1042-1335 | a step keeps what a child says of its task, points it at a new attempt only by starting one, and at a run only by linking it |
| `StoreCourses.NewChildCarries` | packages/workflows/src/runtime/in-memory.ts:1077-1095 | a new child row is one of the asked children, pending and without attempts |
| `StoreCourses.ChildrenMade` | packages/workflows/src/runtime/in-memory.ts:1042-1095 | a stored node without children gets all the asked ones and no others; otherwise nothing changes |
| `StoreCourses.LinkedRunCarries` | packages/workflows/src/runtime/in-memory.ts:1096-1152 | a linked child points at a run that does its task under its own run and the given root: a new queued one, or the stored one with its key |
| `StoreCourses.CreatedRunCarries` | packages/workflows/src/runtime/in-memory.ts:401-437 | an admitted request stores one queued run as it was asked for, with the defaults for kind, name and root; any other request stores none |
| `RunFamilies.CollectFamily` | packages/workflows/src/runtime/in-memory.ts:1356-1385 | the fixpoint loop terminates with the least closed family of its seeds |
| `RunFamilies.LeastFamilyUnique` | packages/workflows/src/runtime/in-memory.ts:1356-1385 | the least closed family is unique |
| `RunLeases.LeasesAlwaysSound` | packages/workflows/src/runtime/in-memory.ts:607-638 | run lease tokens are issued and pairwise distinct in every reachable store |
| `RunLeases.LeaseHeldUntilExpiry` | packages/workflows/src/runtime/in-memory.ts:607-638 | until the clock reaches its expiry a lease stays with its token, over every run in which its holder does not renew or release it and its run is not deleted |
| `RunLeases.AcquiredLeaseHeld` | packages/workflows/src/runtime/in-memory.ts:607-623 | a lease is granted iff the run is stored and no lease of it is unexpired; it then carries the version of the run and a token never handed out before, and lasts the time asked for |
| `RunLeases.RenewedLeaseHeld` | packages/workflows/src/runtime/in-memory.ts:624-633 | a renewed lease keeps its token and lasts the time asked for from the renewal on |
| `RunLeases.LeaseTokenSpent` | packages/workflows/src/runtime/in-memory.ts:607-638 | release and take-over end a lease token |
| `RunLeases.LeaseTokenFencing` | packages/workflows/src/runtime/in-memory.ts:624-638 | a spent lease token never renews or releases anything again |
| `RuntimeProjections.RunProjects` | packages/workflows/src/runtime/in-memory.ts:439-1837 | the store and both queues of a run of the runtime are runs of their own machines |
| `RuntimeTheorems.ReachableStatesSound` | packages/workflows/src/runtime/in-memory.ts:439-1837 | in every reachable state the indexes are exact, links and leases sound, and both queue invariants hold |
| `RuntimeTheorems.DeleteTreesExact` | packages/workflows/src/runtime/in-memory.ts:1386-1436 | after deleting a set of runs no row, index entry, lease or command names one of them, and all others are unchanged |
| `RuntimeTheorems.DeleteRunExact` | packages/workflows/src/runtime/in-memory.ts:506-527 | a deletion is accepted iff the run is stored, has no parent and all of its family is terminal; it then removes exactly the family, the least set closed under parents and roots, and everything naming a member; a refused one changes nothing |
| `RuntimeTheorems.PruneExact` | packages/workflows/src/runtime/in-memory.ts:478-505 | pruning takes old terminal roots only; it removes exactly them and their descendants and, of the rest, exactly the waiting items dead before the date |
| `RuntimeTheorems.DeletionOrphansNone` | packages/workflows/src/runtime/in-memory.ts:1356-1401 | with consistent families no deletion orphans an attempt; pruning never does |
| `RuntimeTheorems.StepKeepsAttemptsIffNoOrphans` | packages/workflows/src/runtime/in-memory.ts:506-527 | the deletion of a family that holds a child's linked run but not its own run is the only step that breaks attempt accounting |
| `RuntimeTheorems.StepKeepsFamilies` | packages/workflows/src/runtime/in-memory.ts:364-437 | steps of disciplined callers keep every run in its parent's family |
| `RuntimeTheorems.AttemptFencing` | packages/workflows/src/runtime/in-memory.ts:1154-1335 | over every disciplined run attempts are numbered 1..attemptCount, the pointer is the last one, and a completed attempt means a completed child with its output that points at it |
| `RuntimeRuns.CompletedAttemptForever` | packages/workflows/src/runtime/in-memory.ts:807-833 | a completed attempt and its child's verdict last as long as the attempt exists |
| `RuntimeRuns.RuntimeTerminalRunForever` | packages/workflows/src/runtime/in-memory.ts:926-993 | a terminal run is the same row in every later state that still has it |
| `RuntimeRuns.RuntimeTerminalNodeForever` | packages/workflows/src/runtime/in-memory.ts:862-895 | a terminal node is the same row as long as it stays stored, over every run of the runtime |
| `RuntimeRuns.RuntimeTerminalChildForever` | packages/workflows/src/runtime/in-memory.ts:1197-1230 | the same for children |
| `RuntimeRuns.RuntimeLeaseHeldUntilExpiry` | packages/workflows/src/runtime/in-memory.ts:607-638 | until its expiry a run lease stays with its token over every run of the runtime that spares it |
| `RuntimeRuns.RuntimeCreationIsIdempotent` | packages/workflows/src/runtime/in-memory.ts:364-437 | a request repeated at any later time of the runtime gets the same run while it exists, and changes nothing |
| `RuntimeRuns.RuntimeStatusesAlwaysLegal` | packages/workflows/src/runtime/transitions.ts:26-41 | from every reachable state of the runtime every step moves nodes and children along the table |
| `RuntimeRuns.StaleTokensPowerless` | packages/workflows/src/runtime/in-memory.ts:607-638 | a spent token of a claim or run lease leaves the whole runtime unchanged whenever it is presented again |
| `RuntimeRuns.RuntimeNeverLosesWakeUp` | packages/workflows/src/runtime/in-memory.ts:1515-1541 | no lost wake-up, with store, other queue and other workers interleaved |
| `RuntimeRuns.StartedRunIsContinued` | packages/workflows/src/runtime/in-memory.ts:1843-1858 | a started workflow run stays due until a worker takes it or it is deleted |
| `RuntimeRuns.RuntimeDeadLettersExactly` | packages/workflows/src/runtime/in-memory.ts:1544-1619 | dead-lettering is exact in both queues over every run of the runtime |
| `RuntimeRuns.RuntimeDeadUntilRequeued` | packages/workflows/src/runtime/in-memory.ts:1646-1659 | a dead command of either queue stays dead and unclaimed over every run of the runtime that does not requeue it |
| `RuntimeCourses.ReleasedCommandWaits` | packages/workflows/src/runtime/in-memory.ts:1813-1821 | a released attempt command is claimed by nobody before its back-off is over, over every run of the runtime in which it is not revived |
| `RuntimeCourses.DispatchedCommandWaits` | packages/workflows/src/runtime/in-memory.ts:1751-1768 | a dispatched attempt without a command gets one as asked, claimed by nobody before its time, over every run of the runtime in which it is not revived |
| `RuntimeCourses.EnqueuedContinueWaits` | packages/workflows/src/runtime/in-memory.ts:1511-1541 | a new continuation is filed as asked and claimed by nobody before its time, over every run of the runtime that neither merges into it nor revives it |
| `RuntimeCourses.StartedRunWaits` | packages/workflows/src/runtime/in-memory.ts:1843-1858 | a started workflow run gets a continuation of its workflow, claimed by nobody before its start time, over every such run |
| `RuntimeCourses.RuntimeAttemptsTellTheRun` | packages/workflows/src/runtime/in-memory.ts:807-861 | over every run of the runtime a stored attempt is completed, failed or timed out with just what the accepted settlement of the run says, and started iff there is none |
| `RuntimeCourses.RuntimeNodesTellTheRun` | packages/workflows/src/runtime/in-memory.ts:738-1335 | over every run of the runtime nodes and children stand where the calls since their creation left them |
| `RuntimeCourses.RuntimeClaimHeld` | packages/workflows/src/runtime/in-memory.ts:1678-1806 | until its expiry a claim of either queue stays as it is over every run of the runtime that spares it |
| `StrandedAttempts.UndisciplinedDeletionStrandsAttempt` | packages/workflows/src/runtime/in-memory.ts:1386-1401 | a nine-step run after which an attempt has no child |
| `InMemoryRuntimes.InMemoryRuntime.constructor` | packages/workflows/src/runtime/in-memory.ts:122-164 | the runtime starts empty with two distinct queues |
| `InMemoryRuntimes.InMemoryRuntime.FindExisting` | packages/workflows/src/runtime/in-memory.ts:364-400 | the lookups find the run a request joins or conflicts with, exactly as the indexes say |
| `InMemoryRuntimes.InMemoryRuntime.CreateRun` | packages/workflows/src/runtime/in-memory.ts:364-437 | refines run creation: existing, conflicting or duplicate requests change nothing and get that outcome, a new run enters all its indexes |
| `InMemoryRuntimes.InMemoryRuntime.ChangeRun` | packages/workflows/src/runtime/in-memory.ts:896-993 | refines the six run changes: only legal ones take effect, and a terminal one gives the active key back iff the run holds it |
| `InMemoryRuntimes.InMemoryRuntime.CreateNode` | packages/workflows/src/runtime/in-memory.ts:738-755 | creates a node once; a second call changes nothing |
| `InMemoryRuntimes.InMemoryRuntime.ChangeNode` | packages/workflows/src/runtime/in-memory.ts:756-895 | the node changes and exactly when they throw |
| `InMemoryRuntimes.InMemoryRuntime.CancelNonTerminalRunNodes` | packages/workflows/src/runtime/in-memory.ts:1010-1041 | the two loops cancel exactly the run's non-terminal nodes and children |
| `InMemoryRuntimes.InMemoryRuntime.EnsureNodeChildren` | packages/workflows/src/runtime/in-memory.ts:1042-1095 | children are created once; later calls must match them in full |
| `InMemoryRuntimes.InMemoryRuntime.EnsureChildRun` | packages/workflows/src/runtime/in-memory.ts:1096-1152 | creates and links a child run once, or refuses |
| `InMemoryRuntimes.InMemoryRuntime.ChangeNodeChild` | packages/workflows/src/runtime/in-memory.ts:1197-1230 | completes or fails a child that is not terminal |
| `InMemoryRuntimes.InMemoryRuntime.CreateAttempt` | packages/workflows/src/runtime/in-memory.ts:790-806 | a new attempt, or an error for a missing or terminal child |
| `InMemoryRuntimes.InMemoryRuntime.CreateChildAttempt` | packages/workflows/src/runtime/in-memory.ts:1258-1310 | writes the attempt, points the child at it and nudges the node |
| `InMemoryRuntimes.InMemoryRuntime.EnsureChildAttempt` | packages/workflows/src/runtime/in-memory.ts:1154-1196 | the current attempt, the highest-numbered one, or a new one |
| `InMemoryRuntimes.InMemoryRuntime.SettleCurrentAttempt` | packages/workflows/src/runtime/in-memory.ts:807-861 | settles iff the fence lets the token through |
| `InMemoryRuntimes.InMemoryRuntime.AcquireRunLease` | packages/workflows/src/runtime/in-memory.ts:607-623 | granted iff the run exists and no unexpired lease does |
| `InMemoryRuntimes.InMemoryRuntime.RenewRunLease` | packages/workflows/src/runtime/in-memory.ts:624-633 | renewed iff the token holds |
| `InMemoryRuntimes.InMemoryRuntime.ReleaseRunLease` | packages/workflows/src/runtime/in-memory.ts:634-638 | released iff the token holds |
| `InMemoryRuntimes.InMemoryRuntime.DeleteRunTrees` | packages/workflows/src/runtime/in-memory.ts:1386-1419 | refines tree deletion across rows, indexes, leases and both queues |
| `InMemoryRuntimes.InMemoryRuntime.DeleteRun` | packages/workflows/src/runtime/in-memory.ts:506-527 | false for a missing run, an error for a child run or a live family, otherwise the family goes |
| `InMemoryRuntimes.InMemoryRuntime.SelectOldest` | packages/workflows/src/runtime/in-memory.ts:478-505 | the batch holds the least recently updated candidates, as many as allowed |
| `InMemoryRuntimes.InMemoryRuntime.PruneTerminalRuns` | packages/workflows/src/runtime/in-memory.ts:478-505 | prunes the least recently updated terminal roots of the given statuses and age, as many as the batch allows, with their descendants, and sweeps dead commands |
| `InMemoryRuntimes.InMemoryRuntime.MarkDeadCommandReaped` | packages/workflows/src/runtime/in-memory.ts:588-602 | stamps the command in the queue that holds it dead, continuations first |
| `InMemoryRuntimes.InMemoryRuntime.RequeueDeadCommand` | packages/workflows/src/runtime/in-memory.ts:603-606 | revives the command in the queue that holds it dead, continuations first |
| `InMemoryRuntimes.InMemoryRuntime.Enqueue` | packages/workflows/src/runtime/in-memory.ts:1672-1677 | refines the enqueue step of the wake-up theorems |
| `InMemoryRuntimes.InMemoryRuntime.ClaimContinue` | packages/workflows/src/runtime/in-memory.ts:1678-1706 | refines the coordinator's poll, with the granted command and token |
| `InMemoryRuntimes.InMemoryRuntime.AckContinue` | packages/workflows/src/runtime/in-memory.ts:1707-1712 | accepted iff the token holds |
| `InMemoryRuntimes.InMemoryRuntime.ReleaseContinue` | packages/workflows/src/runtime/in-memory.ts:1713-1721 | refines the release step that dead-lettering counts |
| `InMemoryRuntimes.InMemoryRuntime.DispatchAttempt` | packages/workflows/src/runtime/in-memory.ts:1751-1768 | refines the dispatch step: at most one command per attempt |
| `InMemoryRuntimes.InMemoryRuntime.ClaimAttempt` | packages/workflows/src/runtime/in-memory.ts:1769-1795 | refines the execution worker's poll, with the granted command and token |
| `InMemoryRuntimes.InMemoryRuntime.HeartbeatAttempt` | packages/workflows/src/runtime/in-memory.ts:1796-1806 | the run's status iff the token holds, `queued` when the run is gone |
| `InMemoryRuntimes.InMemoryRuntime.AckAttempt` | packages/workflows/src/runtime/in-memory.ts:1807-1812 | accepted iff the token holds |
| `InMemoryRuntimes.InMemoryRuntime.ReleaseAttempt` | packages/workflows/src/runtime/in-memory.ts:1813-1821 | refines the release step that dead-lettering counts |
| `InMemoryRuntimes.InMemoryRuntime.DeleteUnclaimed` | packages/workflows/src/runtime/in-memory.ts:1822-1836 | removes and counts the run's waiting attempt commands |
| `InMemoryRuntimes.InMemoryRuntime.StartWorkflowRun` | packages/workflows/src/runtime/in-memory.ts:1843-1858 | creates the run and enqueues its first continuation, or returns the existing run |
| `StreamSignals.OpeningMeans` | packages/protocol/src/server/stream.ts:113-144 | a stream opens iff a positive grant within the cap comes before every destroy and abort; it aborts before opening iff an abort comes before every destroy and every such grant |
| `StreamSignals.HeldMeans` | packages/protocol/src/server/stream.ts:94-125 | the error held back is the last one the source failed with before anything decided the opening |
| `StreamSignals.ClosingMeans` | packages/protocol/src/server/stream.ts:94-144 | which signal closes a stream: the first destroy, abort or source failure after it opened |
| `StreamStates.ClosingShows` | packages/protocol/src/server/stream.ts:94-150 | a stream that opened cleanly and did not end is finished iff a signal closed it, and then its last event is the error of that abort or failure, or no error for a plain destroy; one that opened with an error held back signals just that; one that never opened is finished iff something decided, with the error of an abort |
| `StreamStates.BeforeTheFirstGrant` | packages/protocol/src/server/stream.ts:94-144 | an ungranted stream has signalled something iff an abort came first, decided by the signals alone |
| `StreamStates.EmittedIsGrantedPrefix` | packages/protocol/src/server/stream.ts:152-193 | between steps an unfinished stream has emitted exactly the first min(credited, arrived) bytes of its source |
| `StreamStates.UndisturbedLife` | packages/protocol/src/server/stream.ts:113-193 | for a stream nobody destroys, whose source does not fail and whose grants stay within the cap, the emitted bytes are the first min(granted, arrived) and the end is signalled iff the source has ended and all bytes are paid for |
| `StreamStates.PassesUnopened` | packages/protocol/src/server/stream.ts:113-193 | until a stream is granted it makes no callback, so it hears the signals of its turns and nothing else, and one of them opens it |
| `StreamStates.QuietlyFine` | packages/protocol/src/server/stream.ts:94-150 | destroys, aborts and source failures keep every invariant and emit no chunk |
| `StreamStates.GrantFine` | packages/protocol/src/server/stream.ts:113-125 | a grant keeps every invariant: it is credited unless it comes too late, is not positive, exceeds the cap or meets a held-back error |
| `StreamStates.DeliveredFine` | packages/protocol/src/server/stream.ts:176-188 | cutting a chunk to the credits, emitting it and buffering the rest conserves bytes and credits |
| `ServerStreams.ProtocolServerStream.Grant` | packages/protocol/src/server/stream.ts:113-125 | refused iff the cap would be exceeded; otherwise credited, or signals the held-back error, and the pump runs until settled; what the callbacks said is heard in order |
| `ServerStreams.ProtocolServerStream.Pump` | packages/protocol/src/server/stream.ts:152-193 | keeps byte and credit conservation through every re-entrant callback, one per chunk, and ends settled |
| `ServerStreams.ProtocolServerStream.Next` | packages/protocol/src/server/stream.ts:156-174 | reads only with credit to spend, and signals the end exactly when source and buffer are drained |
| `ServerStreams.ProtocolServerStream.Deliver` | packages/protocol/src/server/stream.ts:176-188 | emits what the credits pay for and buffers the rest, nothing lost |
| `ServerStreams.ProtocolServerStream.Fail` | packages/protocol/src/server/stream.ts:137-144 | one error, and only on an unfinished stream |
| `ServerStreams.ProtocolServerStream.EndStream` | packages/protocol/src/server/stream.ts:146-150 | the end, after every source byte |
| `ServerStreams.ProtocolServerStream.Destroy` | packages/protocol/src/server/stream.ts:127-135 | finishes without a signal; nothing is ever signalled after it |
| `ServerStreams.ProtocolServerStream.Abort` | packages/protocol/src/server/stream.ts:127-144 | signals the error, before the first grant too, and leaves the stream ungranted if it was |
| `ServerStreams.ProtocolServerStream.SourceFailed` | packages/protocol/src/server/stream.ts:94-101 | held back before the first grant, signalled after it |
| `ServerStreams.ProtocolServerStream.Arrive` | packages/protocol/src/server/stream.ts:89 | more source bytes, then the pump; before the first grant nothing is signalled |
| `ServerStreams.ProtocolServerStream.EndSource` | packages/protocol/src/server/stream.ts:90-93 | the end of the source, then the pump; before the first grant nothing is signalled |
| `ServerStreams.ProtocolServerStream.Drive` | packages/protocol/src/server/stream.ts:89-193 | for every sequence of signals with arbitrary re-entrant callbacks: the states in between, each turn hearing its signal and one callback per chunk it emitted; all the laws above, closing included; and from an ungranted stream, opening and early abort decided by the signals of the turns alone |
| `ServerStreams.GrantThenArrival` | packages/protocol/src/server/stream.ts:113-193 | a grant and an arrival on a new stream emit exactly the granted prefix |
| `ServerStreams.AbortBeforeFirstGrant` | packages/protocol/src/server/stream.ts:127-144 | aborting a new stream signals an error although nothing was granted, whatever the callbacks would do |
| `RpcWindows.TotalClosedForm` | packages/client/src/layers/rpc.ts:324-341 | after n pulls with window W the total credit is W + R * floor((n-1)/R), where R is half the window rounded up |
| `RpcWindows.WindowLead` | packages/client/src/layers/rpc.ts:324-341 | the consumer never starves and the producer's lead stays between floor(W/2) + 1 and W |
| `RpcWindows.GrantNeverRefused` | packages/protocol/src/server/stream.ts:10-15 | no refill ever exceeds the window, hence the credit cap |
| `RpcWindows.RpcStreamCredit.Pull` | packages/client/src/layers/rpc.ts:328-341 | the closure variables follow the closed form; a pull without connection changes nothing |
| `Scopes.EffectiveIsMaximum` | packages/core/src/injectables.ts:189-220 | the effective scope is the maximum over everything reachable, transients counting as global, and is attained |
| `Scopes.EffectiveByCases` | packages/core/src/injectables.ts:189-220 | an injectable is call-scoped iff it reaches a call-scoped one, and global iff all it reaches is global or transient |
| `Scopes.FactoryScopeCoversDependencies` | packages/core/src/injectables.ts:295-333 | a non-transient factory's scope is at least that of all it depends on |
| `Scopes.OverwriteKeepsEffective` | packages/core/src/injectables.ts:295-333 | overwriting the declared scope with the effective one leaves the effective scope as it was |
| `Scopes.InjectableRegistry.GetEffectiveScope` | packages/core/src/injectables.ts:200-220 | the memoised loop returns the effective scope and keeps every cache entry exact |
| `Scopes.InjectableRegistry.CreateFactory` | packages/core/src/injectables.ts:295-333 | refused iff some dependency needs a stricter scope than declared; the cache stays exact through the overwrite |
| `Containers.CycleIsReal` | packages/core/src/container.ts:550-561 | a chain that meets its own member is a simple cycle of dependency and alias edges |
| `Containers.ChainExtends` | packages/core/src/container.ts:460-474 | following an edge extends the chain without repetition and shrinks the set of unvisited injectables |
| `Containers.RefusalIsReal` | packages/core/src/container.ts:346-370 | every refusal names a real cause, in the asking container or above it, and is about an injectable the asked one leads to |
| `Containers.ContainerTree.Resolve` | packages/core/src/container.ts:346-458 | terminates; nothing else could have come of it: the route through aliases and parents fixes a refusal, a value, an instance, the lack of one, or a creation that its dependencies' own trials decide; an error is a real obstacle where the request started, and a missing injectable or too strict a scope is only reported if no ancestor of the place provides or holds it; a delivered instance is where aliases lead, held by an ancestor, with its dependant recorded; what was created had its dependencies, and nothing not transient is created below an ancestor that provides or holds it |
| `Containers.TrialsAgree` | packages/core/src/container.ts:346-515 | a request has one justified trial only: the containers and the outcome it ends in are a function of the containers it meets |
| `ContainerRoutes.RouteIsRight` | packages/core/src/container.ts:372-398 | a request goes to the first container on the way up that does not ask its parent, unless one on the way is being disposed |
| `ContainerRoutes.AnswerComesTo` | packages/core/src/container.ts:400-515 | what comes of a request there: the instance it holds, the lack of one, too strict a scope, or a creation that fails with the first failing dependency, then with the factory, and otherwise delivers |
| `ContainerRoutes.HeldIsReused` | packages/core/src/container.ts:387-416 | what the topmost holder on the way has is reused, and no instance appears anywhere |
| `ContainerRoutes.ProvidedIsUsed` | packages/core/src/container.ts:372-398 | what the nearest provider on the way provides is used: its value, or its alias resolved in its place |
| `ContainerRoutes.ProvidedAboveSeenIff` | packages/core/src/container.ts:372-398 | a value that a proper ancestor provides is seen from below iff the injectable is neither a plain value itself nor transient |
| `Containers.NotDelegated` | packages/core/src/container.ts:387-398 | a container keeps a request iff the injectable is transient, or no proper ancestor provides or holds it and no strictly looser parent could host it |
| `Containers.ContainerTree.ResolveRoot` | packages/core/src/container.ts:225-230 | the public entry: all of this with an empty chain, and failure only over what stood in the way before |
| `Containers.ContainerTree.ResolveAlias` | packages/core/src/container.ts:372-379 | the same through a provision alias, which adds itself to the chain |
| `Containers.ContainerTree.ResolveAbove` | packages/core/src/container.ts:387-398 | the same through the parent, with the same chain |
| `Containers.ResolvedByCreating` | packages/core/src/container.ts:400-458 | recording the dependant and creating the instance is all a resolution promises |
| `Containers.ContainerTree.ResolveDependencies` | packages/core/src/container.ts:321-345 | tries every dependency in order, each trial justified in the containers the one before it left; reports the first failure, and succeeds iff all were delivered |
| `Containers.ContainerTree.ResolveHere` | packages/core/src/container.ts:400-474 | reuses the instance, reports its absence or too strict a scope, or creates it, recording the dependant in each case |
| `Containers.ContainerTree.Create` | packages/core/src/container.ts:460-515 | an instance is created and filed iff every dependency's trial delivered and the factory does not throw; otherwise the first failure is the outcome, an obstacle to this factory from the start |
| `Containers.GrowthKeepsDelivered` | packages/core/src/container.ts:346-458 | what was delivered stays delivered while containers grow |
| `Containers.ContainerTree.DisposalOrder` | packages/core/src/container.ts:667-695 | lists exactly the injectables with instances, in order iff the recorded edges are acyclic |
| `Disposal.GetDisposalOrder` | packages/core/src/container.ts:667-695 | each instance holder once, and every dependant before its dependency if and only if the recorded graph is acyclic |
| `Disposal.DisposalWalk.Visit` | packages/core/src/container.ts:667-690 | the depth-first visit keeps result, visited set and order |
| `Disposal.OrderedMeansAcyclic` | packages/core/src/container.ts:667-695 | an ordered list excludes every cycle |
| `ExecutionPools.ClaimNames` | packages/workflows/src/neem/runtime.ts:198-343 | names are claimed iff distinct and not taken |
| `ExecutionPools.ClaimNext` | packages/workflows/src/neem/runtime.ts:198-343 | one turn of the loop fails only if this pool clashes with itself or an earlier one |
| `ExecutionPools.ClaimSelections` | packages/workflows/src/neem/runtime.ts:198-343 | succeeds iff names are unique, selections disjoint and at most one pool catches all |
| `ExecutionPools.AcceptablePoolsPartition` | packages/workflows/src/neem/runtime.ts:198-343 | acceptable pools partition the registered names: complete, disjoint, no extras |
| `ExecutionPools.PoolsKeepOwn` | packages/workflows/src/neem/runtime.ts:325-343 | a resolved pool has a name iff its configured pool selects it, or that pool has no selectors and the name is registered and selected by no pool |
| `ExecutionPools.NormalizeExecutionWorkerPools` | packages/workflows/src/neem/runtime.ts:198-343 | resolves iff the configuration is acceptable; then every pool keeps its name and has exactly the names it selects, or, without selectors, those registered and selected by no pool, which makes a partition of activities and of tasks |
| `ExecutionPools.RoutedToExactlyOnePool` | packages/workflows/src/runtime/in-memory.ts:1769-1779 | every registered attempt command is accepted by exactly one pool's claim predicate |
| `BinaryFrames.DecodeEncoded` | packages/protocol/src/common/binary.ts:20-46 | decoding undoes encoding modulo 2^32, whatever follows |
| `BinaryFrames.EncodeDecoded` | packages/protocol/src/common/binary.ts:20-46 | every four bytes are the encoding of what they decode to |
| `BinaryFrames.Concat` | packages/protocol/src/common/binary.ts:53-66 | the two loops write the buffers one after the other |
| `BinaryFrames.SplitJoined` | packages/protocol/src/json/server.ts:51-56 | a frame splits where it was joined iff its first part is shorter than 2^32 bytes |
| `BinaryFrames.JoinSplit` | packages/protocol/src/json/server.ts:51-70 | a frame not cut short is the join of its parts |
| `JsonTrees.DeserializeSerialized` | packages/protocol/src/json/common.ts:4-21 | a serialized stream id carries the marker and parses back |
| `JsonTrees.ReviveSubstituted` | packages/protocol/src/json/server.ts:72-82 | reviving gives the same tree with its leaves revived iff no other text carries the marker |
| `JsonTrees.SubstituteInjective` | packages/protocol/src/json/client.ts:47-55 | different leaves give different trees |
| `JsonTrees.SubstituteKeepsRest` | packages/protocol/src/json/client.ts:47-55 | the tree is the same wherever it holds no blob |
| `JsonTrees.SubstituteInOrder` | packages/protocol/src/json/client.ts:47-55 | the leaves take the places of the blobs in order |
| `JsonRpcCodecs.IssuedIdsDistinct` | packages/client/src/layers/streams.ts:78-86 | two ids of one call are equal iff they are a multiple of 2^32 - 1 apart |
| `JsonRpcCodecs.FilledFindsAll` | packages/protocol/src/json/client.ts:47-55 | every blob finds its metadata under its id iff blobs that share an id agree |
| `JsonRpcCodecs.FrameRoundTrip` | packages/protocol/src/json/server.ts:27-82 | for any stream table, whenever the text form carries the two trees of the frame: the exact condition under which the peer sees each blob as its own stream and all else unchanged |
| `JsonRpcCodecs.ExpectedMeans` | packages/protocol/src/json/server.ts:72-82 | what the peer should see, and what is written, differ from the call in its blobs only |
| `JsonRpcCodecs.RoundTrip` | packages/protocol/src/json/client.ts:36-76 | client to server for any ids, whenever the text form carries the call: iff there is no blob, or no marked text and consistent ids |
| `JsonRpcCodecs.WireIsPlain` | packages/protocol/src/json/client.ts:47-66 | what a client writes holds no blob: the text form is only asked to carry plain data |
| `JsonRpcCodecs.CallsCanBeCarried` | packages/protocol/src/json/client.ts:30-34 | for every call there is a text form that carries it, so no round trip is vacuous |
| `JsonRpcCodecs.CounterRoundTrip` | packages/protocol/src/json/client.ts:36-76 | the same with ids from the stream counter: iff there is no blob or no marked text |
| `JsonRpcCodecs.UndefinedRoundTrip` | packages/protocol/src/json/client.ts:57-75 | a call without payload decodes to none |
| `JsonRpcCodecs.MarkedTextIsLost` | packages/protocol/src/json/server.ts:72-82 | a marked text beside a blob is not preserved, with a text form that shows it |
| `JsonRpcCodecs.ClientEncoder.Replacer` | packages/protocol/src/json/client.ts:47-55 | a blob becomes a marked text and a table entry, anything else stays |
| `JsonRpcCodecs.ClientEncoder.Walk` | packages/protocol/src/json/client.ts:47-59 | the walk tags every blob with the next id and records its metadata |
| `JsonRpcCodecs.ClientEncoder.EncodeRpc` | packages/protocol/src/json/client.ts:36-76 | the bytes written are the specified frame |
| `JsonRpcCodecs.EncodeFrame` | packages/protocol/src/json/server.ts:27-45 | length, stream table if any, payload if any |
| `LatestQueues.LedgerWaits` | packages/common/src/operation-queue.ts:68-83 | a submission to a busy queue keeps the account of all operations |
| `LatestQueues.LedgerStarts` | packages/common/src/operation-queue.ts:85-89 | a submission to an idle queue keeps it |
| `LatestQueues.OperationQueue.OneTaskInProgress` | packages/common/src/operation-queue.ts:91-111 | a started operation that has not settled is the running one |
| `LatestQueues.OperationQueue.FinishOperation` | packages/common/src/operation-queue.ts:113-119 | counts down and releases all waiters exactly at zero |
| `LatestQueues.OperationQueue.Submit` | packages/common/src/operation-queue.ts:68-89 | starts at once or takes the waiting place, superseding its holder |
| `LatestQueues.OperationQueue.Finish` | packages/common/src/operation-queue.ts:103-111 | settles the running operation; waiters go exactly when nothing is pending |
| `LatestQueues.OperationQueue.Resume` | packages/common/src/operation-queue.ts:91-101 | starts the waiting operation or stops |
| `LatestQueues.OperationQueue.WaitIdle` | packages/common/src/operation-queue.ts:47-53 | returns at once iff nothing is pending |
| `LatestQueues.OperationQueue.Interleave` | packages/common/src/operation-queue.ts:47-119 | every interleaving keeps the account; settlements are final |
| `LatestQueues.OperationQueue.Drain` | packages/common/src/operation-queue.ts:91-119 | left alone, every operation settles, the last one by running, and every waiter is released |

## Left out

- The Postgres adapter, worker loops, coordinator continuation, scheduler and
  `startTaskRun`: built on the calls modelled here.
- Wake listeners, `inspect`, list, summary and detail views, tags, canonical
  JSON of values (a `Value` is compared as a whole): these only observe the state.
- Rows returned by store calls, beyond ids, outcomes and whether a call throws.
- Timestamps of nodes, children and attempts.
- The wall clock is read once per call, as one parameter; readings within one
  call still increase strictly.
- The tie-break by id text in the claim and prune orders: creation and update
  times are distinct readings, so it is never reached.
- InMemoryRuntimes.InMemoryRuntime.DeleteRunTrees: rows are removed from the maps by comprehension rather than one key at a time; the two queues and the indexes are spliced by loops.
- ServerStreams.ProtocolServerStream.Drive: the readable source is its ready chunks, none of them empty; exceptions thrown by a sink callback, and callbacks made from within `end` and `error`, are not modelled.
- Containers.ContainerTree.Resolve: models sequential resolution; shared in-flight promises, `initialize`, observers and disposal of transient handles are not modelled.
- JsonRpcCodecs.RoundTrip: JSON text is abstract: the text form must carry the payload as it is and the stream table entry by entry, whatever the order of its keys, and the table's text is taken to be shorter than 2^32 bytes (`SplitJoined` is exact about that limit). A number is its canonical text; `toJSON` of values other than server blobs is not modelled.
- LatestQueues.OperationQueue.Interleave: the result or error a task settles with is not modelled; the `serial` strategy is left out.
- MessagePack, HTTP and WebSocket hosts, the client's reconnect loop, the object
  pool, Redis pub/sub, metrics, build tooling and CLI.
