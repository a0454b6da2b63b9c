/** Normalisation of execution worker pools: which pool serves which activity
    and task. When it succeeds every registered name belongs to exactly one pool. */
module ExecutionPools {
  import opened Identifiers
  import opened Commands

  const DEFAULT_EXECUTION_POOL_NAME := "execution"

  /** The two namespaces that pools divide among themselves. */
  datatype Namespace = Activities | Tasks

  datatype Pool = Pool(name: string, activityNames: Option<seq<string>>, taskNames: Option<seq<string>>) {

    function Selector(ns: Namespace): Option<seq<string>> {
      if ns.Activities? then activityNames else taskNames
    }

    /** The names the pool selects itself. */
    function Selects(ns: Namespace): seq<string> {
      if Selector(ns).Some? then Selector(ns).value else []
    }

    /** A pool without selectors takes whatever is left. */
    predicate CatchesAll() {
      activityNames.None? && taskNames.None?
    }
  }

  datatype Config = Shared(activityNames: Option<seq<string>>, taskNames: Option<seq<string>>) | Named(pools: seq<Pool>)

  function PoolsOf(config: Config): seq<Pool> {
    match config
    case Shared(activities, tasks) => [Pool(DEFAULT_EXECUTION_POOL_NAME, activities, tasks)]
    case Named(pools) => pools
  }

  /** What is registered: implementations, and what they refer to. */
  datatype Registry = Registry(
    workflowNames: seq<string>,
    childWorkflowNames: seq<string>,
    activityNames: seq<string>,
    taskNames: seq<string>,
    usedTaskNames: seq<string>)
  {
    function Names(ns: Namespace): seq<string> {
      if ns.Activities? then activityNames else taskNames
    }
  }

  datatype ResolvedPool = ResolvedPool(name: string, activityNames: seq<string>, taskNames: seq<string>) {
    function Names(ns: Namespace): seq<string> {
      if ns.Activities? then activityNames else taskNames
    }
  }

  datatype Outcome = Resolved(pools: seq<ResolvedPool>) | Refused

  // ----------------------------------------------------- what is acceptable

  predicate Distinct(names: seq<string>) {
    forall i, j | 0 <= i < j < |names| :: names[i] != names[j]
  }

  function NameSet(names: seq<string>): set<string> {
    set name | name in names
  }

  /** Everything the first `n` pools select. */
  function Selected(pools: seq<Pool>, ns: Namespace, n: nat): set<string>
    requires n <= |pools|
  {
    if n == 0 then {} else Selected(pools, ns, n - 1) + NameSet(pools[n - 1].Selects(ns))
  }

  /** Pool names are given and unique, at most one pool catches all, and no name
      is selected twice, by one pool or by two. */
  ghost predicate WellSplit(pools: seq<Pool>) {
    && pools != []
    && (forall i | 0 <= i < |pools| :: pools[i].name != "" && Distinct(pools[i].Selects(Activities)) && Distinct(pools[i].Selects(Tasks)))
    && (forall i, j | 0 <= i < j < |pools| :: Compatible(pools[i], pools[j]))
  }

  predicate Compatible(a: Pool, b: Pool) {
    && a.name != b.name
    && !(a.CatchesAll() && b.CatchesAll())
    && NameSet(a.Selects(Activities)) !! NameSet(b.Selects(Activities))
    && NameSet(a.Selects(Tasks)) !! NameSet(b.Selects(Tasks))
  }

  /** Everything referred to is implemented. */
  predicate Complete(registry: Registry) {
    && (forall i | 0 <= i < |registry.childWorkflowNames| :: registry.childWorkflowNames[i] in registry.workflowNames)
    && (forall i | 0 <= i < |registry.usedTaskNames| :: registry.usedTaskNames[i] in registry.taskNames)
  }

  /** The pools select registered names only, and all of them unless a pool catches the rest. */
  ghost predicate Covers(pools: seq<Pool>, registry: Registry, ns: Namespace) {
    && Selected(pools, ns, |pools|) <= NameSet(registry.Names(ns))
    && ((exists i :: 0 <= i < |pools| && pools[i].CatchesAll()) || NameSet(registry.Names(ns)) <= Selected(pools, ns, |pools|))
  }

  ghost predicate Acceptable(pools: seq<Pool>, registry: Registry) {
    WellSplit(pools) && Complete(registry) && Covers(pools, registry, Activities) && Covers(pools, registry, Tasks)
  }

  lemma {:induction false} SelectedMember(pools: seq<Pool>, ns: Namespace, n: nat)
    requires n <= |pools|
    ensures forall name :: name in Selected(pools, ns, n) <==> exists i :: 0 <= i < n && name in pools[i].Selects(ns)
  {
    if n > 0 {
      SelectedMember(pools, ns, n - 1);
      forall name | name in Selected(pools, ns, n)
        ensures exists i :: 0 <= i < n && name in pools[i].Selects(ns)
      {
        if name !in pools[n - 1].Selects(ns) {
          assert name in Selected(pools, ns, n - 1);
          var i :| 0 <= i < n - 1 && name in pools[i].Selects(ns);
        }
      }
    }
  }

  // -------------------------------------------------------------- the method

  /** Claims each name for a pool; fails on a name that has an owner already. */
  method ClaimNames(claimed: map<string, string>, names: seq<string>, owner: string)
    returns (result: map<string, string>, ok: bool)
    ensures ok <==> Distinct(names) && NameSet(names) !! claimed.Keys
    ensures ok ==> result.Keys == claimed.Keys + NameSet(names)
  {
    result := claimed;
    for i := 0 to |names|
      invariant Distinct(names[..i]) && NameSet(names[..i]) !! claimed.Keys
      invariant result.Keys == claimed.Keys + NameSet(names[..i])
    {
      assert NameSet(names[..i + 1]) == NameSet(names[..i]) + {names[i]};
      if names[i] in result {
        if names[i] in claimed {
          assert names[i] in NameSet(names);
        } else {
          var j :| 0 <= j < i && names[j] == names[i];
        }
        return result, false;
      }
      result := result[names[i] := owner];
    }
    assert names[..|names|] == names;
    ok := true;
  }

  /** Claims both selections of one pool. */
  method ClaimPool(pool: Pool, activities: map<string, string>, tasks: map<string, string>)
    returns (activities': map<string, string>, tasks': map<string, string>, ok: bool)
    ensures ok <==> && Distinct(pool.Selects(Activities)) && NameSet(pool.Selects(Activities)) !! activities.Keys
                    && Distinct(pool.Selects(Tasks)) && NameSet(pool.Selects(Tasks)) !! tasks.Keys
    ensures ok ==> activities'.Keys == activities.Keys + NameSet(pool.Selects(Activities))
    ensures ok ==> tasks'.Keys == tasks.Keys + NameSet(pool.Selects(Tasks))
  {
    tasks' := tasks;
    activities', ok := ClaimNames(activities, pool.Selects(Activities), pool.name);
    if ok {
      tasks', ok := ClaimNames(tasks, pool.Selects(Tasks), pool.name);
    }
  }

  /** The first loop: checks names and selectors, and finds the catch-all pool. */
  method ClaimSelections(pools: seq<Pool>)
    returns (ok: bool, activities: set<string>, tasks: set<string>, catchAll: Option<string>)
    requires pools != []
    ensures ok <==> WellSplit(pools)
    ensures ok ==> activities == Selected(pools, Activities, |pools|) && tasks == Selected(pools, Tasks, |pools|)
    ensures ok ==> forall i | 0 <= i < |pools| :: pools[i].CatchesAll() <==> catchAll == Some(pools[i].name)
    ensures ok ==> (catchAll.Some? <==> exists i :: 0 <= i < |pools| && pools[i].CatchesAll())
  {
    var names: set<string> := {};
    var claimedActivities: map<string, string>, claimedTasks: map<string, string> := map[], map[];
    activities, tasks, catchAll := {}, {}, None;
    for n := 0 to |pools|
      invariant SoFar(pools, n, names, claimedActivities.Keys, claimedTasks.Keys, catchAll)
    {
      names, claimedActivities, claimedTasks, catchAll, ok := ClaimNext(pools, n, names, claimedActivities, claimedTasks, catchAll);
      if !ok {
        return;
      }
    }
    assert pools[..|pools|] == pools;
    return true, claimedActivities.Keys, claimedTasks.Keys, catchAll;
  }

  /** What the loop has gathered from the first `n` pools, none of which clash. */
  ghost predicate SoFar(pools: seq<Pool>, n: nat, names: set<string>, activities: set<string>, tasks: set<string>, catchAll: Option<string>)
    requires n <= |pools|
  {
    && (forall name :: name in names <==> exists i :: 0 <= i < n && pools[i].name == name)
    && activities == Selected(pools, Activities, n) && tasks == Selected(pools, Tasks, n)
    && SplitSoFar(pools, n) && Caught(pools, n, catchAll)
  }

  /** One turn of the loop; fails iff this pool clashes with itself or an earlier one. */
  method ClaimNext(pools: seq<Pool>, n: nat, names: set<string>, activities: map<string, string>, tasks: map<string, string>,
                   catchAll: Option<string>)
    returns (names': set<string>, activities': map<string, string>, tasks': map<string, string>, catchAll': Option<string>, ok: bool)
    requires n < |pools| && SoFar(pools, n, names, activities.Keys, tasks.Keys, catchAll)
    ensures ok ==> SoFar(pools, n + 1, names', activities'.Keys, tasks'.Keys, catchAll')
    ensures !ok ==> !WellSplit(pools)
  {
    var pool := pools[n];
    names', activities', tasks', catchAll', ok := names, activities, tasks, catchAll, false;
    if pool.name == "" || pool.name in names {
      NameMeansIllSplit(pools, n);
      return;
    }
    names' := names + {pool.name};
    NextCaught(pools, n, catchAll);
    if pool.CatchesAll() {
      if catchAll.Some? {
        SecondCatchAllMeansIllSplit(pools, n);
        return;
      }
      catchAll' := Some(pool.name);
    } else {
      activities', tasks', ok := ClaimPool(pool, activities, tasks);
      if !ok {
        SelectionMeansIllSplit(pools, n);
        return;
      }
    }
    NextSoFar(pools, n, names, activities.Keys, tasks.Keys, catchAll, catchAll');
    ok := true;
  }

  /** A pool that clashes with nothing extends what was gathered. */
  lemma NextSoFar(pools: seq<Pool>, n: nat, names: set<string>, activities: set<string>, tasks: set<string>,
                  catchAll: Option<string>, catchAll': Option<string>)
    requires n < |pools| && SoFar(pools, n, names, activities, tasks, catchAll) && Caught(pools, n + 1, catchAll')
    requires pools[n].name != "" && pools[n].name !in names && !(pools[n].CatchesAll() && catchAll.Some?)
    requires Distinct(pools[n].Selects(Activities)) && NameSet(pools[n].Selects(Activities)) !! activities
    requires Distinct(pools[n].Selects(Tasks)) && NameSet(pools[n].Selects(Tasks)) !! tasks
    ensures SoFar(pools, n + 1, names + {pools[n].name}, activities + NameSet(pools[n].Selects(Activities)),
                  tasks + NameSet(pools[n].Selects(Tasks)), catchAll')
  {
    NextPoolFits(pools, n);
  }

  /** `catchAll` names the one pool among the first `n` that catches all, if any. */
  ghost predicate Caught(pools: seq<Pool>, n: nat, catchAll: Option<string>)
    requires n <= |pools|
  {
    && (forall i | 0 <= i < n :: pools[i].CatchesAll() <==> catchAll == Some(pools[i].name))
    && (catchAll.Some? <==> exists i :: 0 <= i < n && pools[i].CatchesAll())
  }

  lemma NextCaught(pools: seq<Pool>, n: nat, catchAll: Option<string>)
    requires n < |pools| && Caught(pools, n, catchAll)
    requires forall i | 0 <= i < n :: pools[i].name != pools[n].name
    ensures !pools[n].CatchesAll() ==> Caught(pools, n + 1, catchAll)
    ensures pools[n].CatchesAll() && catchAll.None? ==> Caught(pools, n + 1, Some(pools[n].name))
  {
  }

  lemma SelectionMeansIllSplit(pools: seq<Pool>, n: nat)
    requires n < |pools|
    requires !(forall ns :: Distinct(pools[n].Selects(ns)) && NameSet(pools[n].Selects(ns)) !! Selected(pools, ns, n))
    ensures !WellSplit(pools)
  {
    var ns :| !(Distinct(pools[n].Selects(ns)) && NameSet(pools[n].Selects(ns)) !! Selected(pools, ns, n));
    ClashMeansIllSplit(pools, n, ns);
  }

  lemma NameMeansIllSplit(pools: seq<Pool>, n: nat)
    requires n < |pools| && (pools[n].name == "" || exists i :: 0 <= i < n && pools[i].name == pools[n].name)
    ensures !WellSplit(pools)
  {
    if pools[n].name != "" {
      var i :| 0 <= i < n && pools[i].name == pools[n].name;
      assert !Compatible(pools[i], pools[n]);
    }
  }

  lemma SecondCatchAllMeansIllSplit(pools: seq<Pool>, n: nat)
    requires n < |pools| && pools[n].CatchesAll() && exists i :: 0 <= i < n && pools[i].CatchesAll()
    ensures !WellSplit(pools)
  {
    var i :| 0 <= i < n && pools[i].CatchesAll();
    assert !Compatible(pools[i], pools[n]);
  }

  lemma ClashMeansIllSplit(pools: seq<Pool>, n: nat, ns: Namespace)
    requires n < |pools|
    requires !Distinct(pools[n].Selects(ns)) || !(NameSet(pools[n].Selects(ns)) !! Selected(pools, ns, n))
    ensures !WellSplit(pools)
  {
    SelectedMember(pools, ns, n);
    if Distinct(pools[n].Selects(ns)) {
      var name :| name in NameSet(pools[n].Selects(ns)) && name in Selected(pools, ns, n);
      var i :| 0 <= i < n && name in pools[i].Selects(ns);
      assert name in NameSet(pools[i].Selects(ns)) * NameSet(pools[n].Selects(ns));
      assert !Compatible(pools[i], pools[n]);
    }
  }

  ghost predicate SplitSoFar(pools: seq<Pool>, n: nat)
    requires n <= |pools|
  {
    n > 0 ==> WellSplit(pools[..n])
  }

  lemma NextPoolFits(pools: seq<Pool>, n: nat)
    requires n < |pools| && SplitSoFar(pools, n) && pools[n].name != ""
    requires forall i | 0 <= i < n :: pools[i].name != pools[n].name && !(pools[i].CatchesAll() && pools[n].CatchesAll())
    requires forall ns :: Distinct(pools[n].Selects(ns)) && NameSet(pools[n].Selects(ns)) !! Selected(pools, ns, n)
    ensures SplitSoFar(pools, n + 1)
  {
    SelectedMember(pools, Activities, n);
    SelectedMember(pools, Tasks, n);
    var p := pools[..n + 1];
    assert Distinct(pools[n].Selects(Activities)) && Distinct(pools[n].Selects(Tasks));
    forall i, j | 0 <= i < j < |p|
      ensures Compatible(p[i], p[j])
    {
      if j < n {
        assert Compatible(pools[..n][i], pools[..n][j]);
      } else {
        assert NameSet(pools[n].Selects(Activities)) !! Selected(pools, Activities, n);
        assert NameSet(pools[n].Selects(Tasks)) !! Selected(pools, Tasks, n);
        assert NameSet(p[i].Selects(Activities)) <= Selected(pools, Activities, n);
        assert NameSet(p[i].Selects(Tasks)) <= Selected(pools, Tasks, n);
      }
    }
    forall i | 0 <= i < |p|
      ensures p[i].name != "" && Distinct(p[i].Selects(Activities)) && Distinct(p[i].Selects(Tasks))
    {
      assert i < n ==> pools[..n][i] == p[i];
    }
  }

  function Unclaimed(registered: seq<string>, claimed: set<string>): (r: seq<string>)
    ensures NameSet(r) == NameSet(registered) - claimed
  {
    if registered == [] then []
    else
      var rest := Unclaimed(registered[1..], claimed);
      assert NameSet(registered) == {registered[0]} + NameSet(registered[1..]);
      if registered[0] in claimed then rest
      else
        assert NameSet([registered[0]] + rest) == {registered[0]} + NameSet(rest);
        [registered[0]] + rest
  }

  /** What a pool serves: its selection, or what is left when it catches all. */
  function Serves(pool: Pool, registry: Registry, ns: Namespace, claimed: set<string>): seq<string> {
    if pool.Selector(ns).Some? then pool.Selector(ns).value
    else if pool.CatchesAll() then Unclaimed(registry.Names(ns), claimed)
    else []
  }

  function ResolvePool(pools: seq<Pool>, registry: Registry, i: nat): ResolvedPool
    requires i < |pools|
  {
    ResolvedPool(pools[i].name,
                 Serves(pools[i], registry, Activities, Selected(pools, Activities, |pools|)),
                 Serves(pools[i], registry, Tasks, Selected(pools, Tasks, |pools|)))
  }

  /** Every registered name is served by exactly one pool, and nothing else is served. */
  ghost predicate Partitions(resolved: seq<ResolvedPool>, registry: Registry, ns: Namespace) {
    && (forall name :: name in registry.Names(ns) ==> exists i :: 0 <= i < |resolved| && name in resolved[i].Names(ns))
    && (forall i, j, name :: 0 <= i < j < |resolved| && name in resolved[i].Names(ns) ==> name !in resolved[j].Names(ns))
    && (forall i, name :: 0 <= i < |resolved| && name in resolved[i].Names(ns) ==> name in registry.Names(ns))
  }

  lemma PoolServes(pools: seq<Pool>, registry: Registry, ns: Namespace, i: nat, name: string)
    requires i < |pools|
    ensures name in ResolvePool(pools, registry, i).Names(ns) <==>
            name in pools[i].Selects(ns) ||
            (pools[i].CatchesAll() && name in registry.Names(ns) && name !in Selected(pools, ns, |pools|))
  {
    var claimed := Selected(pools, ns, |pools|);
    assert name in Unclaimed(registry.Names(ns), claimed) <==> name in NameSet(Unclaimed(registry.Names(ns), claimed));
  }

  lemma AcceptablePoolsPartition(pools: seq<Pool>, registry: Registry, ns: Namespace, resolved: seq<ResolvedPool>)
    requires Acceptable(pools, registry) && |resolved| == |pools|
    requires forall i | 0 <= i < |pools| :: resolved[i] == ResolvePool(pools, registry, i)
    ensures Partitions(resolved, registry, ns)
  {
    var claimed := Selected(pools, ns, |pools|);
    SelectedMember(pools, ns, |pools|);
    assert Covers(pools, registry, ns);
    forall name | name in registry.Names(ns)
      ensures exists i :: 0 <= i < |resolved| && name in resolved[i].Names(ns)
    {
      if name in claimed {
        var i :| 0 <= i < |pools| && name in pools[i].Selects(ns);
        PoolServes(pools, registry, ns, i, name);
      } else {
        assert name in NameSet(registry.Names(ns));
        var i :| 0 <= i < |pools| && pools[i].CatchesAll();
        PoolServes(pools, registry, ns, i, name);
      }
    }
    forall i, j, name | 0 <= i < j < |resolved| && name in resolved[i].Names(ns)
      ensures name !in resolved[j].Names(ns)
    {
      PoolServes(pools, registry, ns, i, name);
      PoolServes(pools, registry, ns, j, name);
      assert Compatible(pools[i], pools[j]);
      assert NameSet(pools[i].Selects(ns)) !! NameSet(pools[j].Selects(ns));
      assert name in NameSet(pools[i].Selects(ns)) ==> name !in NameSet(pools[j].Selects(ns));
    }
    forall i, name | 0 <= i < |resolved| && name in resolved[i].Names(ns)
      ensures name in registry.Names(ns)
    {
      PoolServes(pools, registry, ns, i, name);
      assert name in claimed || name in registry.Names(ns);
      assert name in claimed ==> name in NameSet(registry.Names(ns));
    }
  }

  /** Each pool serves its own selection; one without selectors serves what is
      registered and selected by no pool. */
  ghost predicate KeepsOwn(pools: seq<Pool>, registry: Registry, resolved: seq<ResolvedPool>) {
    && |resolved| == |pools|
    && forall i | 0 <= i < |pools| ::
         && resolved[i].name == pools[i].name
         && (forall name :: name in resolved[i].activityNames <==>
              || (pools[i].activityNames.Some? && name in pools[i].activityNames.value)
              || (pools[i].activityNames.None? && pools[i].taskNames.None? && name in registry.activityNames
                  && forall other :: other in pools && other.activityNames.Some? ==> name !in other.activityNames.value))
         && (forall name :: name in resolved[i].taskNames <==>
              || (pools[i].taskNames.Some? && name in pools[i].taskNames.value)
              || (pools[i].activityNames.None? && pools[i].taskNames.None? && name in registry.taskNames
                  && forall other :: other in pools && other.taskNames.Some? ==> name !in other.taskNames.value))
  }

  lemma PoolsKeepOwn(pools: seq<Pool>, registry: Registry, resolved: seq<ResolvedPool>)
    requires |resolved| == |pools| && forall i | 0 <= i < |pools| :: resolved[i] == ResolvePool(pools, registry, i)
    ensures KeepsOwn(pools, registry, resolved)
  {
    SelectedMember(pools, Activities, |pools|);
    SelectedMember(pools, Tasks, |pools|);
    forall i, name | 0 <= i < |pools|
      ensures name in resolved[i].activityNames <==>
              || (pools[i].activityNames.Some? && name in pools[i].activityNames.value)
              || (pools[i].activityNames.None? && pools[i].taskNames.None? && name in registry.activityNames
                  && forall other :: other in pools && other.activityNames.Some? ==> name !in other.activityNames.value)
    {
      PoolServes(pools, registry, Activities, i, name);
      SelectedByNone(pools, Activities, name);
    }
    forall i, name | 0 <= i < |pools|
      ensures name in resolved[i].taskNames <==>
              || (pools[i].taskNames.Some? && name in pools[i].taskNames.value)
              || (pools[i].activityNames.None? && pools[i].taskNames.None? && name in registry.taskNames
                  && forall other :: other in pools && other.taskNames.Some? ==> name !in other.taskNames.value)
    {
      PoolServes(pools, registry, Tasks, i, name);
      SelectedByNone(pools, Tasks, name);
    }
  }

  lemma SelectedByNone(pools: seq<Pool>, ns: Namespace, name: string)
    ensures name !in Selected(pools, ns, |pools|) <==> forall other :: other in pools ==> name !in other.Selects(ns)
  {
    SelectedMember(pools, ns, |pools|);
    forall i | 0 <= i < |pools|
      ensures pools[i] in pools
    {
    }
    if forall other :: other in pools ==> name !in other.Selects(ns) {
      assert forall i | 0 <= i < |pools| :: name !in pools[i].Selects(ns);
    }
  }

  /** All names occur in the set. */
  method AllIn(names: seq<string>, known: set<string>) returns (r: bool)
    ensures r <==> forall i | 0 <= i < |names| :: names[i] in known
  {
    for i := 0 to |names|
      invariant forall j | 0 <= j < i :: names[j] in known
    {
      if names[i] !in known {
        return false;
      }
    }
    return true;
  }

  lemma UsedAreServed(registry: Registry, resolved: seq<ResolvedPool>)
    requires Complete(registry) && Partitions(resolved, registry, Tasks)
    ensures forall name :: name in registry.childWorkflowNames ==> name in registry.workflowNames
    ensures forall name :: name in registry.usedTaskNames ==> exists i :: 0 <= i < |resolved| && name in resolved[i].taskNames
  {
    forall name | name in registry.usedTaskNames
      ensures exists i :: 0 <= i < |resolved| && name in resolved[i].taskNames
    {
      assert name in registry.Names(Tasks);
      var i :| 0 <= i < |resolved| && name in resolved[i].Names(Tasks);
      assert name in resolved[i].taskNames;
    }
  }

  /** The final map: every pool with the names it serves. */
  method ResolvePools(pools: seq<Pool>, registry: Registry, activities: set<string>, tasks: set<string>, catchAll: Option<string>)
    returns (resolved: seq<ResolvedPool>)
    requires activities == Selected(pools, Activities, |pools|) && tasks == Selected(pools, Tasks, |pools|)
    requires forall i | 0 <= i < |pools| :: pools[i].CatchesAll() <==> catchAll == Some(pools[i].name)
    ensures |resolved| == |pools| && forall i | 0 <= i < |pools| :: resolved[i] == ResolvePool(pools, registry, i)
  {
    resolved := [];
    for i := 0 to |pools|
      invariant |resolved| == i
      invariant forall j | 0 <= j < i :: resolved[j] == ResolvePool(pools, registry, j)
    {
      var pool := pools[i];
      var isCatchAll := catchAll == Some(pool.name);
      var served := if pool.activityNames.Some? then pool.activityNames.value
                    else if isCatchAll then Unclaimed(registry.activityNames, activities) else [];
      var servedTasks := if pool.taskNames.Some? then pool.taskNames.value
                         else if isCatchAll then Unclaimed(registry.taskNames, tasks) else [];
      resolved := resolved + [ResolvedPool(pool.name, served, servedTasks)];
    }
  }

  /** Succeeds exactly on acceptable configurations, and then the pools
      partition the registered activities and the registered tasks. */
  method NormalizeExecutionWorkerPools(config: Config, registry: Registry) returns (r: Outcome)
    ensures r.Resolved? <==> Acceptable(PoolsOf(config), registry)
    ensures r.Resolved? ==>
      && KeepsOwn(PoolsOf(config), registry, r.pools)
      && Partitions(r.pools, registry, Activities) && Partitions(r.pools, registry, Tasks)
      && (forall name :: name in registry.childWorkflowNames ==> name in registry.workflowNames)
      && (forall name :: name in registry.usedTaskNames ==> exists i :: 0 <= i < |r.pools| && name in r.pools[i].taskNames)
  {
    var pools := PoolsOf(config);
    if pools == [] {
      return Refused;
    }
    var ok, activities, tasks, catchAll := ClaimSelections(pools);
    if !ok {
      return Refused;
    }
    var registeredActivities, registeredTasks := NameSet(registry.activityNames), NameSet(registry.taskNames);
    var children := AllIn(registry.childWorkflowNames, NameSet(registry.workflowNames));
    var used := AllIn(registry.usedTaskNames, registeredTasks);
    if !children || !used {
      return Refused;
    }
    if !(activities <= registeredActivities) || !(tasks <= registeredTasks) {
      return Refused;
    }
    if catchAll.None? && (!(registeredActivities <= activities) || !(registeredTasks <= tasks)) {
      return Refused;
    }
    var resolved := ResolvePools(pools, registry, activities, tasks, catchAll);
    PoolsKeepOwn(pools, registry, resolved);
    AcceptablePoolsPartition(pools, registry, Activities, resolved);
    AcceptablePoolsPartition(pools, registry, Tasks, resolved);
    UsedAreServed(registry, resolved);
    return Resolved(resolved);
  }

  /** The claim a worker of a pool polls with. */
  function WorkerOf(pool: ResolvedPool, workflowNames: seq<string>): Worker {
    Executor(workflowNames, Some(pool.activityNames), pool.taskNames)
  }

  predicate Registered(command: Command, registry: Registry) {
    match command
    case ContinueRun(_, _) => false
    case ActivityAttempt(_, workflow, activity, _, _) => workflow in registry.workflowNames && activity in registry.activityNames
    case TaskAttempt(_, _, task, _, _) => task in registry.taskNames
  }

  /** Every registered attempt command is claimable by the workers of exactly one pool. */
  lemma RoutedToExactlyOnePool(resolved: seq<ResolvedPool>, registry: Registry, command: Command)
    requires Partitions(resolved, registry, Activities) && Partitions(resolved, registry, Tasks)
    requires Registered(command, registry)
    ensures exists i :: 0 <= i < |resolved| && Eligible(WorkerOf(resolved[i], registry.workflowNames), command)
    ensures forall i, j | 0 <= i < j < |resolved| ::
              !(Eligible(WorkerOf(resolved[i], registry.workflowNames), command) && Eligible(WorkerOf(resolved[j], registry.workflowNames), command))
  {
    var ns := if command.ActivityAttempt? then Activities else Tasks;
    var name := if command.ActivityAttempt? then command.activityName else command.taskName;
    assert name in registry.Names(ns) && Partitions(resolved, registry, ns);
    var i :| 0 <= i < |resolved| && name in resolved[i].Names(ns);
    assert Eligible(WorkerOf(resolved[i], registry.workflowNames), command);
    forall i | 0 <= i < |resolved|
      ensures Eligible(WorkerOf(resolved[i], registry.workflowNames), command) <==> name in resolved[i].Names(ns)
    {
    }
  }
}
