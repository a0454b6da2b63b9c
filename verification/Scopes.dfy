/** Injectables and their effective scopes: the strictest position among an
    injectable and everything it reaches, memoised while injectables are made. */
module Scopes {
  import opened Identifiers

  datatype Scope = Global | Connection | Call | Transient

  datatype Kind = Lazy | Value | Factory

  datatype Dependency = Dependency(target: nat, optional: bool)

  /** An injectable, identified by its index in creation order. */
  datatype Injectable = Injectable(kind: Kind, scope: Scope, dependencies: seq<Dependency>)

  /** Dependencies are frozen at creation, so they only name earlier injectables. */
  ghost predicate WellFounded(all: seq<Injectable>) {
    forall r, k | 0 <= r < |all| && 0 <= k < |all[r].dependencies| :: all[r].dependencies[k].target < r
  }

  /** A scope's place in the ordering. Transient is a lifetime, not a place. */
  function Place(scope: Scope): nat
    requires !scope.Transient?
  {
    match scope
    case Global => 1
    case Connection => 2
    case Call => 3
  }

  function Stricter(a: Scope, b: Scope): (s: Scope)
    requires !a.Transient? && !b.Transient?
    ensures !s.Transient? && (s == a || s == b) && Place(a) <= Place(s) && Place(b) <= Place(s)
  {
    if Place(b) > Place(a) then b else a
  }

  /** The position an injectable contributes by itself: none if transient. */
  function OwnPosition(i: Injectable): (s: Scope)
    ensures !s.Transient?
  {
    if i.scope.Transient? then Global else i.scope
  }

  /** The strictest position among `r` and what its first `n` dependencies need. */
  function EffectiveUpTo(all: seq<Injectable>, r: nat, n: nat): (s: Scope)
    requires WellFounded(all) && r < |all| && n <= |all[r].dependencies|
    ensures !s.Transient?
    decreases r, n
  {
    if n == 0 then OwnPosition(all[r])
    else Stricter(EffectiveUpTo(all, r, n - 1), Effective(all, all[r].dependencies[n - 1].target))
  }

  function Effective(all: seq<Injectable>, r: nat): (s: Scope)
    requires WellFounded(all) && r < |all|
    ensures !s.Transient?
    decreases r, |all[r].dependencies| + 1
  {
    EffectiveUpTo(all, r, |all[r].dependencies|)
  }

  // ----------------------------------------------- what the effective scope means

  /** `b` is `a` or a direct or indirect dependency of it. */
  ghost predicate Reaches(all: seq<Injectable>, a: nat, b: nat)
    requires WellFounded(all) && a < |all|
    decreases a
  {
    a == b || exists k :: 0 <= k < |all[a].dependencies| && Reaches(all, all[a].dependencies[k].target, b)
  }

  lemma {:induction false} CoversUpTo(all: seq<Injectable>, r: nat, n: nat, k: nat)
    requires WellFounded(all) && r < |all| && k < n <= |all[r].dependencies|
    ensures Place(OwnPosition(all[r])) <= Place(EffectiveUpTo(all, r, n))
    ensures Place(Effective(all, all[r].dependencies[k].target)) <= Place(EffectiveUpTo(all, r, n))
  {
    if k < n - 1 {
      CoversUpTo(all, r, n - 1, k);
    } else {
      OwnCovered(all, r, n - 1);
    }
  }

  lemma {:induction false} OwnCovered(all: seq<Injectable>, r: nat, n: nat)
    requires WellFounded(all) && r < |all| && n <= |all[r].dependencies|
    ensures Place(OwnPosition(all[r])) <= Place(EffectiveUpTo(all, r, n))
  {
    if n > 0 {
      OwnCovered(all, r, n - 1);
    }
  }

  lemma {:induction false} ReachableBelow(all: seq<Injectable>, a: nat, b: nat)
    requires WellFounded(all) && a < |all| && Reaches(all, a, b)
    ensures b < |all| && Place(OwnPosition(all[b])) <= Place(Effective(all, a))
    decreases a
  {
    var n := |all[a].dependencies|;
    if a == b {
      OwnCovered(all, a, n);
    } else {
      var k :| 0 <= k < n && Reaches(all, all[a].dependencies[k].target, b);
      ReachableBelow(all, all[a].dependencies[k].target, b);
      CoversUpTo(all, a, n, k);
    }
  }

  /** Some reachable injectable has exactly the effective position. */
  lemma {:induction false} Attained(all: seq<Injectable>, a: nat, n: nat) returns (b: nat)
    requires WellFounded(all) && a < |all| && n <= |all[a].dependencies|
    ensures Reaches(all, a, b) && b < |all| && OwnPosition(all[b]) == EffectiveUpTo(all, a, n)
    decreases a, n
  {
    if n == 0 {
      return a;
    }
    var target := all[a].dependencies[n - 1].target;
    if EffectiveUpTo(all, a, n) == EffectiveUpTo(all, a, n - 1) {
      b := Attained(all, a, n - 1);
    } else {
      b := Attained(all, target, |all[target].dependencies|);
    }
  }

  /** The effective scope is the maximum position over everything reachable. */
  lemma EffectiveIsMaximum(all: seq<Injectable>, a: nat)
    requires WellFounded(all) && a < |all|
    ensures forall b: nat :: Reaches(all, a, b) ==> b < |all| && Place(OwnPosition(all[b])) <= Place(Effective(all, a))
    ensures exists b: nat :: Reaches(all, a, b) && b < |all| && OwnPosition(all[b]) == Effective(all, a)
  {
    forall b: nat | Reaches(all, a, b)
      ensures b < |all| && Place(OwnPosition(all[b])) <= Place(Effective(all, a))
    {
      ReachableBelow(all, a, b);
    }
    var b := Attained(all, a, |all[a].dependencies|);
  }

  /** In so many words: an injectable is call-scoped iff it reaches a call-scoped
      one, and global iff all it reaches is global or transient. */
  lemma EffectiveByCases(all: seq<Injectable>, a: nat)
    requires WellFounded(all) && a < |all|
    ensures Effective(all, a) == Call <==> exists b: nat :: Reaches(all, a, b) && b < |all| && all[b].scope == Call
    ensures Effective(all, a) == Global <==>
              forall b: nat :: Reaches(all, a, b) ==> b < |all| && (all[b].scope == Global || all[b].scope == Transient)
  {
    EffectiveIsMaximum(all, a);
    var b: nat :| Reaches(all, a, b) && b < |all| && OwnPosition(all[b]) == Effective(all, a);
    if Effective(all, a) == Call {
      assert all[b].scope == Call;
    } else if Effective(all, a) == Connection {
      assert all[b].scope == Connection;
    }
  }

  // ------------------------------------------------------- creation and the cache

  /** A non-transient factory carries its effective scope as its scope. */
  ghost predicate Tight(all: seq<Injectable>)
    requires WellFounded(all)
  {
    forall r | 0 <= r < |all| && all[r].kind.Factory? && !all[r].scope.Transient? :: all[r].scope == Effective(all, r)
  }

  /** So its scope is at least as strict as everything it depends on. */
  lemma FactoryScopeCoversDependencies(all: seq<Injectable>, r: nat, b: nat)
    requires WellFounded(all) && Tight(all) && r < |all|
    requires all[r].kind.Factory? && !all[r].scope.Transient? && Reaches(all, r, b)
    ensures b < |all| && Place(OwnPosition(all[b])) <= Place(all[r].scope)
  {
    ReachableBelow(all, r, b);
  }

  /** Effective scopes look at earlier injectables only. */
  lemma {:induction false} SamePrefix(a: seq<Injectable>, b: seq<Injectable>, r: nat, n: nat)
    requires WellFounded(a) && WellFounded(b) && r < |a| && r < |b|
    requires a[..r + 1] == b[..r + 1] && n <= |a[r].dependencies|
    ensures a[r] == b[r] && EffectiveUpTo(a, r, n) == EffectiveUpTo(b, r, n)
    decreases r, n
  {
    assert a[r] == a[..r + 1][r] && b[r] == b[..r + 1][r];
    if n > 0 {
      SamePrefix(a, b, r, n - 1);
      var d := a[r].dependencies[n - 1].target;
      assert a[..d + 1] == a[..r + 1][..d + 1] && b[..d + 1] == b[..r + 1][..d + 1];
      assert a[d] == a[..d + 1][d];
      SamePrefix(a, b, d, |a[d].dependencies|);
    }
  }

  /** Overwriting the declared scope with the effective one does not change it. */
  lemma {:induction false} OverwriteKeepsEffective(a: seq<Injectable>, r: nat, n: nat, m: nat, b: seq<Injectable>)
    requires WellFounded(a) && r < |a| && m <= n == |a[r].dependencies| && !a[r].scope.Transient?
    requires b == a[r := a[r].(scope := Effective(a, r))] && WellFounded(b)
    ensures EffectiveUpTo(b, r, m) == Effective(a, r)
    decreases m
  {
    if m > 0 {
      OverwriteKeepsEffective(a, r, n, m - 1, b);
      var d := a[r].dependencies[m - 1].target;
      CoversUpTo(a, r, n, m - 1);
      assert a[..d + 1] == b[..d + 1];
      SamePrefix(a, b, d, |a[d].dependencies|);
      assert Place(Effective(b, d)) <= Place(Effective(a, r));
    }
  }

  class InjectableRegistry {
    var all: seq<Injectable>
    var effectiveScopeCache: map<nat, Scope>

    ghost predicate CacheExact()
      reads this
      requires WellFounded(all)
    {
      forall r :: r in effectiveScopeCache ==> r < |all| && effectiveScopeCache[r] == Effective(all, r)
    }

    ghost predicate Valid()
      reads this
    {
      WellFounded(all) && Tight(all) && CacheExact()
    }

    constructor ()
      ensures Valid() && all == []
    {
      all, effectiveScopeCache := [], map[];
    }

    /** Cached or computed by a loop over the dependencies; fills the cache. */
    method GetEffectiveScope(r: nat) returns (scope: Scope)
      requires WellFounded(all) && CacheExact() && r < |all|
      modifies this`effectiveScopeCache
      ensures scope == Effective(all, r)
      ensures CacheExact() && old(effectiveScopeCache.Keys) <= effectiveScopeCache.Keys
      decreases r
    {
      if r in effectiveScopeCache {
        return effectiveScopeCache[r];
      }
      scope := OwnPosition(all[r]);
      var dependencies := all[r].dependencies;
      for k := 0 to |dependencies|
        invariant scope == EffectiveUpTo(all, r, k)
        invariant CacheExact() && old(effectiveScopeCache.Keys) <= effectiveScopeCache.Keys
      {
        var dependencyScope := GetEffectiveScope(dependencies[k].target);
        if Place(dependencyScope) > Place(scope) {
          scope := dependencyScope;
        }
      }
      effectiveScopeCache := effectiveScopeCache[r := scope];
    }

    /** Lazy and value injectables, which depend on nothing. */
    method CreateLeaf(kind: Kind, scope: Scope) returns (r: nat)
      requires Valid() && !kind.Factory?
      modifies this
      ensures Valid() && r == old(|all|) && all == old(all) + [Injectable(kind, if kind.Value? then Global else scope, [])]
    {
      r := |all|;
      Extend(Injectable(kind, if kind.Value? then Global else scope, []));
    }

    /** Appends an injectable that needs no scope resolution. */
    method Extend(i: Injectable)
      requires Valid() && (i.kind.Factory? ==> i.scope.Transient?)
      requires forall k | 0 <= k < |i.dependencies| :: i.dependencies[k].target < |all|
      modifies this`all
      ensures Valid() && all == old(all) + [i]
    {
      ghost var was := all;
      all := all + [i];
      forall r | 0 <= r < |was|
        ensures Effective(all, r) == Effective(was, r)
      {
        assert was[..r + 1] == all[..r + 1];
        SamePrefix(was, all, r, |was[r].dependencies|);
      }
    }

    /** A factory: its dependencies are frozen, and unless it is transient its
        scope becomes the effective one; a declared scope looser than that is refused. */
    method CreateFactory(declared: Option<Scope>, dependencies: seq<Dependency>) returns (r: Option<nat>)
      requires Valid()
      requires forall k | 0 <= k < |dependencies| :: dependencies[k].target < |all|
      modifies this
      ensures Valid() && old(all) <= all
      ensures r.None? ==> all == old(all)
      ensures r.Some? ==>
        && r.value == old(|all|) && |all| == old(|all|) + 1
        && all[r.value].kind.Factory? && all[r.value].dependencies == dependencies
        && (declared == Some(Transient) <==> all[r.value].scope.Transient?)
        && (declared.Some? ==> all[r.value].scope == declared.value)
      ensures r.None? <==> declared.Some? && !declared.value.Transient?
                           && exists k :: 0 <= k < |dependencies|
                                          && Place(Effective(old(all), dependencies[k].target)) > Place(declared.value)
    {
      ghost var was := all;
      var scope := if declared.Some? then declared.value else Global;
      var i := Injectable(Factory, scope, dependencies);
      if scope.Transient? {
        Extend(i);
        return Some(|all| - 1);
      }
      var id := |all|;
      all := all + [i];
      ghost var extended := all;
      PrefixKept(was, extended);
      var actual := GetEffectiveScope(id);
      DependenciesDecide(was, extended, id);
      OwnCovered(extended, id, |dependencies|);
      if declared.Some? && Place(actual) > Place(declared.value) {
        all := all[..id];
        effectiveScopeCache := effectiveScopeCache - {id};
        assert all == was;
        return None;
      }
      all := all[id := i.(scope := actual)];
      PrefixKept(was, all);
      OverwriteKeepsEffective(extended, id, |dependencies|, |dependencies|, all);
      return Some(id);
    }
  }

  lemma PrefixKept(a: seq<Injectable>, b: seq<Injectable>)
    requires WellFounded(a) && WellFounded(b) && a <= b
    ensures forall r | 0 <= r < |a| :: a[r] == b[r] && Effective(a, r) == Effective(b, r)
  {
    forall r | 0 <= r < |a|
      ensures a[r] == b[r] && Effective(a, r) == Effective(b, r)
    {
      assert a[..r + 1] == b[..r + 1];
      SamePrefix(a, b, r, |a[r].dependencies|);
    }
  }

  /** The effective scope of a new injectable exceeds its own position exactly
      when the one of some dependency does. */
  lemma {:induction false} DecidedUpTo(all: seq<Injectable>, r: nat, n: nat)
    requires WellFounded(all) && r < |all| && n <= |all[r].dependencies|
    ensures Place(EffectiveUpTo(all, r, n)) > Place(OwnPosition(all[r])) <==>
            exists k :: 0 <= k < n && Place(Effective(all, all[r].dependencies[k].target)) > Place(OwnPosition(all[r]))
  {
    if n > 0 {
      DecidedUpTo(all, r, n - 1);
      OwnCovered(all, r, n - 1);
      if Place(Effective(all, all[r].dependencies[n - 1].target)) > Place(OwnPosition(all[r])) {
        assert n - 1 < n;
      }
    }
  }

  lemma DependenciesDecide(was: seq<Injectable>, all: seq<Injectable>, r: nat)
    requires WellFounded(was) && WellFounded(all) && was <= all && r == |was| < |all|
    ensures Place(Effective(all, r)) > Place(OwnPosition(all[r])) <==>
            exists k :: 0 <= k < |all[r].dependencies|
                        && Place(Effective(was, all[r].dependencies[k].target)) > Place(OwnPosition(all[r]))
  {
    PrefixKept(was, all);
    DecidedUpTo(all, r, |all[r].dependencies|);
  }
}
