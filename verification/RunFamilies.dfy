/** Which runs a deletion takes along: the least set closed under the family
    edges, computed by growing a set until a whole pass over the runs adds nothing. */
module RunFamilies {
  import opened Identifiers
  import opened StoreSpec

  /** Pruning follows parents only; deleting a run also follows root references. */
  datatype Edges = Parents | ParentsAndRoots

  predicate FamilyEdge(run: Run, edges: Edges, family: set<Id>) {
    || (run.parentRunId.Some? && run.parentRunId.value in family)
    || (edges.ParentsAndRoots? && run.rootRunId in family)
  }

  ghost predicate Closed(runs: map<Id, Run>, edges: Edges, family: set<Id>) {
    forall id :: id in runs && FamilyEdge(runs[id], edges, family) ==> id in family
  }

  /** `family` is the least closed set containing `seeds`. */
  ghost predicate IsLeastFamily(runs: map<Id, Run>, edges: Edges, seeds: set<Id>, family: set<Id>) {
    && seeds <= family
    && Closed(runs, edges, family)
    && (forall other: set<Id> :: seeds <= other && Closed(runs, edges, other) ==> family <= other)
  }

  lemma LeastFamilyUnique(runs: map<Id, Run>, edges: Edges, seeds: set<Id>, a: set<Id>, b: set<Id>)
    requires IsLeastFamily(runs, edges, seeds, a) && IsLeastFamily(runs, edges, seeds, b)
    ensures a == b
  {
    assert a <= b && b <= a;
  }

  /** The family as a function: add everything one edge away, until nothing is. */
  function Family(runs: map<Id, Run>, edges: Edges, seeds: set<Id>): (family: set<Id>)
    ensures IsLeastFamily(runs, edges, seeds, family)
    ensures family <= seeds + runs.Keys
    decreases runs.Keys - seeds
  {
    var grown := seeds + set id | id in runs && FamilyEdge(runs[id], edges, seeds);
    if grown == seeds then seeds
    else
      assert !(grown <= seeds);
      Family(runs, edges, grown)
  }

  /** The two collection loops of the source: whole passes over the runs, in
      any order, until a pass leaves the size of the set unchanged. */
  method CollectFamily(runs: map<Id, Run>, edges: Edges, seeds: set<Id>) returns (family: set<Id>)
    ensures family == Family(runs, edges, seeds)
  {
    family := seeds;
    var checkedSize := -1;
    while checkedSize != |family|
      invariant seeds <= family <= seeds + runs.Keys
      invariant forall other: set<Id> :: seeds <= other && Closed(runs, edges, other) ==> family <= other
      invariant checkedSize == |family| ==> Closed(runs, edges, family)
      decreases |seeds + runs.Keys| - |family|, if checkedSize == |family| then 0 else 1
    {
      checkedSize := |family|;
      ghost var before := family;
      var unvisited := runs.Keys;
      while unvisited != {}
        invariant unvisited <= runs.Keys
        invariant before <= family <= seeds + runs.Keys
        invariant forall other: set<Id> :: seeds <= other && Closed(runs, edges, other) ==> family <= other
        invariant forall id :: id in runs && id !in unvisited && FamilyEdge(runs[id], edges, before) ==> id in family
        decreases unvisited
      {
        var id :| id in unvisited;
        unvisited := unvisited - {id};
        if FamilyEdge(runs[id], edges, family) {
          family := family + {id};
        }
      }
      SubsetSizes(before, family);
      SubsetSizes(family, seeds + runs.Keys);
    }
    LeastFamilyUnique(runs, edges, seeds, family, Family(runs, edges, seeds));
  }

  lemma {:induction false} SubsetSizes<T>(a: set<T>, b: set<T>)
    requires a <= b
    ensures |a| <= |b|
    ensures |a| == |b| ==> a == b
    decreases b
  {
    if x :| x in a {
      SubsetSizes(a - {x}, b - {x});
      assert a == a - {x} + {x} && b == b - {x} + {x};
    } else {
      assert a == {};
    }
  }
}
