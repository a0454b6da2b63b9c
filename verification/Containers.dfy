/** The dependency-injection container: resolution through provisions, parent
    containers and dependency contexts, one request at a time. */
module Containers {
  import opened Identifiers
  import opened Scopes
  import Disposal

  datatype Provision = ProvidedValue | Alias(target: nat)

  /** One container of the tree. `instances` counts the handles kept per injectable. */
  datatype Container = Container(
    scope: Scope,
    parent: Option<nat>,
    provisions: map<nat, Provision>,
    instances: map<nat, nat>,
    dependants: map<nat, set<nat>>,
    disposing: bool)

  datatype Request = Request(dependant: Option<nat>, optional: bool, chain: seq<nat>)

  datatype ResolutionError =
    | DisposingContainer
    | Circular(cycle: seq<nat>)
    | ScopeViolation(dependant: nat, injectable: nat)
    | NoInstance(injectable: nat)
    | TooStrict(injectable: nat)
    | CreationFailed(injectable: nat)

  /** Where a successful resolution ended: the plain value that `source` has in
      container `at`, or an instance of `target` created or found there. */
  datatype Resolution =
    | GotValue(at: nat, source: nat)
    | GotInstance(at: nat, target: nat)
    | GotNothing
    | Failed(error: ResolutionError)

  predicate Repeats(chain: seq<nat>) {
    exists i, j :: 0 <= i < j < |chain| && chain[i] == chain[j]
  }

  // ---------------------------------------------------------------- the tree

  ghost predicate WiredContainer(all: seq<Injectable>, k: Container, c: nat) {
    && !k.scope.Transient?
    && (k.parent.Some? ==> k.parent.value < c)
    && (forall x :: x in k.provisions && k.provisions[x].Alias? ==> k.provisions[x].target < |all|)
  }

  ghost predicate Wired(all: seq<Injectable>, cs: seq<Container>) {
    WellFounded(all) && forall c | 0 <= c < |cs| :: WiredContainer(all, cs[c], c)
  }

  /** Can a container of this scope host the injectable? */
  predicate Satisfies(all: seq<Injectable>, scope: Scope, r: nat)
    requires WellFounded(all) && r < |all| && !scope.Transient?
  {
    Place(Effective(all, r)) <= Place(scope)
  }

  ghost predicate Hosted(all: seq<Injectable>, k: Container, r: nat)
    requires WellFounded(all) && !k.scope.Transient? && r in k.instances
  {
    && r < |all| && Satisfies(all, k.scope, r)
    && (!all[r].scope.Transient? ==> k.instances[r] == 1)
  }

  /** The parent is strictly looser and could host the injectable itself. */
  predicate ParentHosts(all: seq<Injectable>, cs: seq<Container>, c: nat, r: nat)
    requires WellFounded(all) && r < |all| && c < |cs|
    requires forall k | 0 <= k < |cs| :: !cs[k].scope.Transient? && (cs[k].parent.Some? ==> cs[k].parent.value < k)
  {
    cs[c].parent.Some? &&
    var above := cs[cs[c].parent.value];
    Satisfies(all, above.scope, r) && Place(above.scope) < Place(cs[c].scope)
  }

  /** Instances only live where their effective scope fits, non-transient ones
      once per container and never below a looser parent that could host them. */
  ghost predicate Valid(all: seq<Injectable>, cs: seq<Container>) {
    && Wired(all, cs)
    && (forall c, r :: 0 <= c < |cs| && r in cs[c].instances ==> Hosted(all, cs[c], r))
    && (forall c, r :: 0 <= c < |cs| && r in cs[c].instances && !all[r].scope.Transient? ==> !ParentHosts(all, cs, c, r))
  }

  /** Does container `c` or an ancestor provide or hold `r`? */
  predicate Contains(cs: seq<Container>, c: nat, r: nat)
    requires c < |cs| && forall k | 0 <= k < |cs| && cs[k].parent.Some? :: cs[k].parent.value < k
  {
    || r in cs[c].provisions
    || r in cs[c].instances
    || (cs[c].parent.Some? && Contains(cs, cs[c].parent.value, r))
  }

  ghost predicate IsAncestor(all: seq<Injectable>, cs: seq<Container>, a: nat, c: nat)
    requires Wired(all, cs) && c < |cs|
    decreases c
  {
    a == c || (cs[c].parent.Some? && IsAncestor(all, cs, a, cs[c].parent.value))
  }

  /** The container itself provides or holds the injectable. */
  predicate Offers(k: Container, r: nat) {
    r in k.provisions || r in k.instances
  }

  /** No proper ancestor of `c` provides or holds the injectable. */
  ghost predicate NoneAbove(all: seq<Injectable>, cs: seq<Container>, c: nat, r: nat)
    requires Wired(all, cs) && c < |cs|
  {
    forall a | 0 <= a < |cs| && a != c && IsAncestor(all, cs, a, c) :: !Offers(cs[a], r)
  }

  lemma {:induction false} AncestorsComeFirst(all: seq<Injectable>, cs: seq<Container>, a: nat, c: nat)
    requires Wired(all, cs) && c < |cs| && IsAncestor(all, cs, a, c)
    ensures a <= c
    decreases c
  {
    assert WiredContainer(all, cs[c], c);
    if a != c {
      AncestorsComeFirst(all, cs, a, cs[c].parent.value);
    }
  }

  /** The walk up the parents finds what some ancestor, or the container itself, offers. */
  lemma {:induction false} ContainsMeans(all: seq<Injectable>, cs: seq<Container>, c: nat, r: nat)
    requires Wired(all, cs) && c < |cs|
    requires forall k | 0 <= k < |cs| && cs[k].parent.Some? :: cs[k].parent.value < k
    ensures Contains(cs, c, r) <==> exists a :: 0 <= a < |cs| && IsAncestor(all, cs, a, c) && Offers(cs[a], r)
    decreases c
  {
    assert IsAncestor(all, cs, c, c);
    if cs[c].parent.Some? {
      ContainsMeans(all, cs, cs[c].parent.value, r);
      assert forall a: nat :: IsAncestor(all, cs, a, cs[c].parent.value) ==> IsAncestor(all, cs, a, c);
    }
  }

  lemma NoneAboveMeans(all: seq<Injectable>, cs: seq<Container>, c: nat, r: nat)
    requires Wired(all, cs) && c < |cs|
    requires forall k | 0 <= k < |cs| && cs[k].parent.Some? :: cs[k].parent.value < k
    ensures NoneAbove(all, cs, c, r) <==> !(cs[c].parent.Some? && Contains(cs, cs[c].parent.value, r))
  {
    if cs[c].parent.Some? {
      var above := cs[c].parent.value;
      ContainsMeans(all, cs, above, r);
      forall a: nat | a < |cs|
        ensures a != c && IsAncestor(all, cs, a, c) <==> IsAncestor(all, cs, a, above)
      {
        if IsAncestor(all, cs, a, above) {
          AncestorsComeFirst(all, cs, a, above);
        }
      }
    }
  }

  /** `y` is a declared dependency of `x`. */
  ghost predicate Declares(all: seq<Injectable>, x: nat, y: nat) {
    x < |all| && exists k :: 0 <= k < |all[x].dependencies| && all[x].dependencies[k].target == y
  }

  /** `y` is a declared dependency of `x`, or some container provides `y` for `x`. */
  ghost predicate Edge(all: seq<Injectable>, cs: seq<Container>, x: nat, y: nat) {
    Declares(all, x, y) || exists c :: 0 <= c < |cs| && x in cs[c].provisions && cs[c].provisions[x] == Alias(y)
  }

  ghost predicate IsPath(all: seq<Injectable>, cs: seq<Container>, p: seq<nat>) {
    forall i | 0 <= i < |p| - 1 :: Edge(all, cs, p[i], p[i + 1])
  }

  /** A closed path of real edges that repeats nothing but its first injectable. */
  ghost predicate IsRealCycle(all: seq<Injectable>, cs: seq<Container>, p: seq<nat>) {
    |p| >= 2 && p[0] == p[|p| - 1] && IsPath(all, cs, p) && !Repeats(p[..|p| - 1])
  }

  /** A request as the resolver makes it: the chain is a path without
      repetition that leads to the injectable. */
  ghost predicate Sane(all: seq<Injectable>, cs: seq<Container>, c: nat, r: nat, request: Request) {
    && c < |cs| && r < |all|
    && !Repeats(request.chain)
    && (forall i | 0 <= i < |request.chain| :: request.chain[i] < |all|)
    && IsPath(all, cs, request.chain + [r])
    && (request.dependant.Some? ==> request.dependant.value < |all|)
  }

  /** Injectables the chain has not passed through yet. */
  ghost function Unvisited(all: seq<Injectable>, chain: seq<nat>): set<nat> {
    set r: nat | r < |all| && r !in chain
  }

  lemma ChainExtends(all: seq<Injectable>, cs: seq<Container>, c: nat, r: nat, request: Request, next: Request, y: nat)
    requires Sane(all, cs, c, r, request) && r !in request.chain && Edge(all, cs, r, y) && y < |all|
    requires next.chain == request.chain + [r] && (next.dependant == request.dependant || next.dependant == Some(r))
    ensures Sane(all, cs, c, y, next)
    ensures Unvisited(all, next.chain) < Unvisited(all, request.chain)
  {
    assert r in Unvisited(all, request.chain) && r !in Unvisited(all, next.chain);
    var p := next.chain + [y];
    forall i | 0 <= i < |p| - 1
      ensures Edge(all, cs, p[i], p[i + 1])
    {
      if i < |request.chain| {
        assert (request.chain + [r])[i] == p[i] && (request.chain + [r])[i + 1] == p[i + 1];
      }
    }
  }

  /** A path may be entered anywhere. */
  lemma PathSuffix(all: seq<Injectable>, cs: seq<Container>, p: seq<nat>, i: nat)
    requires IsPath(all, cs, p) && i <= |p|
    ensures IsPath(all, cs, p[i..])
  {
    var q := p[i..];
    forall j | 0 <= j < |q| - 1
      ensures Edge(all, cs, q[j], q[j + 1])
    {
      assert q[j] == p[i + j] && q[j + 1] == p[i + j + 1];
    }
  }

  lemma NoRepeatsSuffix(chain: seq<nat>, i: nat)
    requires !Repeats(chain) && i <= |chain|
    ensures !Repeats(chain[i..])
  {
    assert forall j | 0 <= j < |chain| - i :: chain[i..][j] == chain[i + j];
  }

  lemma CycleIsReal(all: seq<Injectable>, cs: seq<Container>, c: nat, r: nat, request: Request)
    requires Sane(all, cs, c, r, request) && r in request.chain
    ensures IsRealCycle(all, cs, request.chain[Disposal.Position(request.chain, r)..] + [r])
  {
    var i := Disposal.Position(request.chain, r);
    var chain := request.chain;
    PathSuffix(all, cs, chain + [r], i);
    NoRepeatsSuffix(chain, i);
    assert (chain + [r])[i..] == chain[i..] + [r];
    assert (chain[i..] + [r])[..|chain| - i] == chain[i..];
  }

  // ------------------------------------------------------------- how it grows

  ghost predicate GrowsAt(before: Container, after: Container) {
    && after.scope == before.scope && after.parent == before.parent
    && after.provisions == before.provisions && after.disposing == before.disposing
    && before.instances.Keys <= after.instances.Keys
    && forall x :: x in before.dependants ==> x in after.dependants && before.dependants[x] <= after.dependants[x]
  }

  /** The wiring stays, and instances and recorded dependants are only added. */
  ghost predicate Grows(before: seq<Container>, after: seq<Container>) {
    |before| == |after| && forall c | 0 <= c < |before| :: GrowsAt(before[c], after[c])
  }

  /** No injectable of the chain gains or loses an instance. */
  ghost predicate SameFor(before: seq<Container>, after: seq<Container>, chain: seq<nat>) {
    |before| == |after| && forall c, x :: 0 <= c < |before| && x in chain ==> (x in before[c].instances <==> x in after[c].instances)
  }

  lemma SameForShorter(before: seq<Container>, after: seq<Container>, chain: seq<nat>, r: nat)
    requires SameFor(before, after, chain + [r])
    ensures SameFor(before, after, chain)
    ensures forall c | 0 <= c < |before| :: r in before[c].instances <==> r in after[c].instances
  {
    assert r in chain + [r];
    assert forall x :: x in chain ==> x in chain + [r];
  }

  lemma GrowthKeepsEdges(all: seq<Injectable>, before: seq<Container>, after: seq<Container>, x: nat, y: nat)
    requires Grows(before, after)
    ensures Edge(all, before, x, y) <==> Edge(all, after, x, y)
  {
    if exists c :: 0 <= c < |after| && x in after[c].provisions && after[c].provisions[x] == Alias(y) {
      var c :| 0 <= c < |after| && x in after[c].provisions && after[c].provisions[x] == Alias(y);
      assert GrowsAt(before[c], after[c]);
    }
    if exists c :: 0 <= c < |before| && x in before[c].provisions && before[c].provisions[x] == Alias(y) {
      var c :| 0 <= c < |before| && x in before[c].provisions && before[c].provisions[x] == Alias(y);
      assert GrowsAt(before[c], after[c]);
    }
  }

  lemma GrowthKeepsPaths(all: seq<Injectable>, before: seq<Container>, after: seq<Container>, p: seq<nat>)
    requires Grows(before, after)
    ensures IsPath(all, before, p) <==> IsPath(all, after, p)
  {
    forall i | 0 <= i < |p| - 1
      ensures Edge(all, before, p[i], p[i + 1]) <==> Edge(all, after, p[i], p[i + 1])
    {
      GrowthKeepsEdges(all, before, after, p[i], p[i + 1]);
    }
  }

  lemma {:induction false} GrowthKeepsAncestors(all: seq<Injectable>, before: seq<Container>, after: seq<Container>, a: nat, c: nat)
    requires Wired(all, before) && Wired(all, after) && Grows(before, after) && c < |before|
    ensures IsAncestor(all, before, a, c) <==> IsAncestor(all, after, a, c)
    decreases c
  {
    assert GrowsAt(before[c], after[c]);
    if before[c].parent.Some? {
      GrowthKeepsAncestors(all, before, after, a, before[c].parent.value);
    }
  }

  /** Dependency and alias edges lead from `x` to `y`, which may be `x` itself. */
  ghost predicate Reached(all: seq<Injectable>, cs: seq<Container>, x: nat, y: nat) {
    exists p :: |p| > 0 && IsPath(all, cs, p) && p[0] == x && p[|p| - 1] == y
  }

  lemma ReachedSelf(all: seq<Injectable>, cs: seq<Container>, x: nat)
    ensures Reached(all, cs, x, x)
  {
    assert IsPath(all, cs, [x]) && [x][0] == x;
  }

  lemma ReachedOn(all: seq<Injectable>, cs: seq<Container>, x: nat, y: nat, z: nat)
    requires Edge(all, cs, x, y) && Reached(all, cs, y, z)
    ensures Reached(all, cs, x, z)
  {
    var p :| |p| > 0 && IsPath(all, cs, p) && p[0] == y && p[|p| - 1] == z;
    var q := [x] + p;
    forall i | 0 <= i < |q| - 1
      ensures Edge(all, cs, q[i], q[i + 1])
    {
      assert i > 0 ==> Edge(all, cs, p[i - 1], p[i]);
    }
    assert IsPath(all, cs, q) && q[0] == x && q[|q| - 1] == z;
  }

  lemma GrowthKeepsReached(all: seq<Injectable>, before: seq<Container>, after: seq<Container>, x: nat, y: nat)
    requires Grows(before, after)
    ensures Reached(all, before, x, y) <==> Reached(all, after, x, y)
  {
    forall p: seq<nat>
      ensures IsPath(all, before, p) <==> IsPath(all, after, p)
    {
      GrowthKeepsPaths(all, before, after, p);
    }
  }

  /** The injectable an error is about. */
  function Subject(e: ResolutionError): Option<nat> {
    match e
    case DisposingContainer => None
    case Circular(cycle) => if cycle == [] then None else Some(cycle[0])
    case ScopeViolation(_, r) => Some(r)
    case NoInstance(r) => Some(r)
    case TooStrict(r) => Some(r)
    case CreationFailed(r) => Some(r)
  }

  /** Every error names a real obstacle, in the asking container or above it,
      and is about an injectable that the asked one leads to. */
  ghost predicate ErrorIsReal(all: seq<Injectable>, throwing: set<nat>, cs: seq<Container>, c: nat, r: nat, e: ResolutionError)
    requires Wired(all, cs) && c < |cs|
  {
    IsObstacle(all, throwing, cs, c, e) && (Subject(e).Some? ==> Reached(all, cs, r, Subject(e).value))
  }

  ghost predicate IsObstacle(all: seq<Injectable>, throwing: set<nat>, cs: seq<Container>, c: nat, e: ResolutionError)
    requires Wired(all, cs) && c < |cs|
  {
    match e
    case Circular(cycle) => IsRealCycle(all, cs, cycle)
    case ScopeViolation(d, r) => d < |all| && r < |all| && Place(Effective(all, d)) < Place(Effective(all, r))
    case CreationFailed(r) => r in throwing
    case _ => exists a :: 0 <= a < |cs| && IsAncestor(all, cs, a, c) && Obstructs(all, cs, a, e)
  }

  /** The container itself stands in the way: it is being disposed, or it is
      the end of the way for an injectable that cannot be had there and that it
      does not offer itself, nor, unless that is transient, any ancestor. */
  ghost predicate Obstructs(all: seq<Injectable>, cs: seq<Container>, a: nat, e: ResolutionError)
    requires Wired(all, cs) && a < |cs|
  {
    match e
    case DisposingContainer => cs[a].disposing
    case NoInstance(r) => r < |all| && all[r].kind.Lazy? && NotToBeHad(all, cs, a, r)
    case TooStrict(r) =>
      r < |all| && all[r].kind.Factory? && NotToBeHad(all, cs, a, r) && !cs[a].scope.Transient? && !Satisfies(all, cs[a].scope, r)
    case _ => false
  }

  ghost predicate NotToBeHad(all: seq<Injectable>, cs: seq<Container>, a: nat, r: nat)
    requires Wired(all, cs) && a < |cs| && r < |all|
  {
    r !in cs[a].provisions && (!all[r].scope.Transient? ==> r !in cs[a].instances && NoneAbove(all, cs, a, r))
  }

  lemma GrowthKeepsNoneAbove(all: seq<Injectable>, before: seq<Container>, after: seq<Container>, c: nat, r: nat)
    requires Wired(all, before) && Wired(all, after) && Grows(before, after) && c < |before| && NoneAbove(all, after, c, r)
    ensures NoneAbove(all, before, c, r)
  {
    forall a | 0 <= a < |before| && a != c && IsAncestor(all, before, a, c)
      ensures !Offers(before[a], r)
    {
      GrowthKeepsAncestors(all, before, after, a, c);
      assert GrowsAt(before[a], after[a]);
    }
  }

  /** Recording dependants changes no offer. */
  lemma UnchangedNoneAbove(all: seq<Injectable>, before: seq<Container>, after: seq<Container>, c: nat, r: nat)
    requires Wired(all, before) && Wired(all, after) && Grows(before, after) && c < |before|
    requires forall k | 0 <= k < |before| :: after[k].instances == before[k].instances
    ensures NoneAbove(all, before, c, r) <==> NoneAbove(all, after, c, r)
  {
    forall a: nat | a < |before|
      ensures IsAncestor(all, before, a, c) <==> IsAncestor(all, after, a, c)
      ensures Offers(before[a], r) <==> Offers(after[a], r)
    {
      GrowthKeepsAncestors(all, before, after, a, c);
      assert GrowsAt(before[a], after[a]);
    }
  }

  lemma GrowthKeepsObstructs(all: seq<Injectable>, before: seq<Container>, after: seq<Container>, a: nat, e: ResolutionError)
    requires Wired(all, before) && Wired(all, after) && Grows(before, after) && a < |before| && Obstructs(all, after, a, e)
    ensures Obstructs(all, before, a, e)
  {
    assert GrowsAt(before[a], after[a]);
    if (e.NoInstance? || e.TooStrict?) && !all[e.injectable].scope.Transient? {
      GrowthKeepsNoneAbove(all, before, after, a, e.injectable);
    }
  }

  lemma GrowthKeepsObstacles(all: seq<Injectable>, throwing: set<nat>, before: seq<Container>, after: seq<Container>, c: nat, e: ResolutionError)
    requires Wired(all, before) && Wired(all, after) && Grows(before, after) && c < |before| && IsObstacle(all, throwing, after, c, e)
    ensures IsObstacle(all, throwing, before, c, e)
  {
    match e
    case Circular(cycle) => GrowthKeepsPaths(all, before, after, cycle);
    case ScopeViolation(_, _) =>
    case CreationFailed(_) =>
    case _ =>
      var a :| 0 <= a < |after| && IsAncestor(all, after, a, c) && Obstructs(all, after, a, e);
      GrowthKeepsAncestors(all, before, after, a, c);
      GrowthKeepsObstructs(all, before, after, a, e);
  }

  /** What stands in the way of a request stood in its way before the containers grew. */
  lemma GrowthKeepsErrors(all: seq<Injectable>, throwing: set<nat>, before: seq<Container>, after: seq<Container>, c: nat, r: nat, e: ResolutionError)
    requires Wired(all, before) && Wired(all, after) && Grows(before, after) && c < |before| && ErrorIsReal(all, throwing, after, c, r, e)
    ensures ErrorIsReal(all, throwing, before, c, r, e)
  {
    GrowthKeepsObstacles(all, throwing, before, after, c, e);
    if Subject(e).Some? {
      GrowthKeepsReached(all, before, after, r, Subject(e).value);
    }
  }

  /** What stands in the parent's way stands in the child's. */
  lemma ParentErrors(all: seq<Injectable>, throwing: set<nat>, cs: seq<Container>, c: nat, r: nat, e: ResolutionError)
    requires Wired(all, cs) && c < |cs| && cs[c].parent.Some?
    requires ErrorIsReal(all, throwing, cs, cs[c].parent.value, r, e)
    ensures ErrorIsReal(all, throwing, cs, c, r, e)
  {
    if !e.Circular? && !e.ScopeViolation? && !e.CreationFailed? {
      var a :| 0 <= a < |cs| && IsAncestor(all, cs, a, cs[c].parent.value) && Obstructs(all, cs, a, e);
      assert IsAncestor(all, cs, a, c);
    }
  }

  /** What stands in the way of the next injectable stands in the way of this one. */
  lemma NextErrors(all: seq<Injectable>, throwing: set<nat>, cs: seq<Container>, c: nat, r: nat, y: nat, e: ResolutionError)
    requires Wired(all, cs) && c < |cs| && Edge(all, cs, r, y) && ErrorIsReal(all, throwing, cs, c, y, e)
    ensures ErrorIsReal(all, throwing, cs, c, r, e)
  {
    if Subject(e).Some? {
      ReachedOn(all, cs, r, y, Subject(e).value);
    }
  }

  ghost predicate AliasPath(cs: seq<Container>, p: seq<nat>) {
    |p| > 0 && forall i | 0 <= i < |p| - 1 :: AliasEdge(cs, p[i], p[i + 1])
  }

  ghost predicate AliasEdge(cs: seq<Container>, x: nat, y: nat) {
    exists c :: 0 <= c < |cs| && x in cs[c].provisions && cs[c].provisions[x] == Alias(y)
  }

  /** Provision aliases lead from `x` to `y`, which may be `x` itself. */
  ghost predicate Leads(cs: seq<Container>, x: nat, y: nat) {
    exists p :: AliasPath(cs, p) && p[0] == x && p[|p| - 1] == y
  }

  lemma LeadsSelf(cs: seq<Container>, x: nat)
    ensures Leads(cs, x, x)
  {
    assert AliasPath(cs, [x]) && [x][0] == x;
  }

  lemma LeadsOn(cs: seq<Container>, x: nat, y: nat, z: nat)
    requires AliasEdge(cs, x, y) && Leads(cs, y, z)
    ensures Leads(cs, x, z)
  {
    var p :| AliasPath(cs, p) && p[0] == y && p[|p| - 1] == z;
    var q := [x] + p;
    forall i | 0 <= i < |q| - 1
      ensures AliasEdge(cs, q[i], q[i + 1])
    {
      assert i > 0 ==> AliasEdge(cs, p[i - 1], p[i]);
    }
    assert AliasPath(cs, q) && q[0] == x && q[|q| - 1] == z;
  }

  lemma GrowthKeepsLeads(before: seq<Container>, after: seq<Container>, x: nat, y: nat)
    requires Grows(before, after) && Leads(before, x, y)
    ensures Leads(after, x, y)
  {
    var p :| AliasPath(before, p) && p[0] == x && p[|p| - 1] == y;
    forall i | 0 <= i < |p| - 1
      ensures AliasEdge(after, p[i], p[i + 1])
    {
      assert AliasEdge(before, p[i], p[i + 1]);
      var c :| 0 <= c < |before| && p[i] in before[c].provisions && before[c].provisions[p[i]] == Alias(p[i + 1]);
      assert GrowsAt(before[c], after[c]);
    }
    assert AliasPath(after, p);
  }

  /** Provided with a value, or a value itself and not provided otherwise. */
  predicate IsPlainValue(all: seq<Injectable>, here: Container, r: nat)
    requires r < |all|
  {
    if r in here.provisions then here.provisions[r].ProvidedValue? else all[r].kind.Value?
  }

  /** What a resolution leaves behind: an instance it names is where aliases
      lead, is held by an ancestor of the asking container, needs no stricter
      scope than the dependant, and has the dependant recorded against it; a
      value is one that aliases lead to, in such an ancestor; nothing is only
      returned for an optional request. */
  ghost predicate Delivered(all: seq<Injectable>, cs: seq<Container>, c: nat, r: nat,
                            dependant: Option<nat>, optional: bool, outcome: Resolution)
    requires Wired(all, cs) && c < |cs|
  {
    match outcome
    case GotInstance(at, target) =>
      && at < |cs| && target < |all| && IsAncestor(all, cs, at, c) && Leads(cs, r, target)
      && (!all[target].scope.Transient? ==> target in cs[at].instances)
      && (dependant.Some? ==>
            && target in cs[at].dependants && dependant.value in cs[at].dependants[target]
            && dependant.value < |all|
            && Place(Effective(all, target)) <= Place(Effective(all, dependant.value)))
    case GotNothing => optional
    case GotValue(at, source) =>
      at < |cs| && source < |all| && IsAncestor(all, cs, at, c) && Leads(cs, r, source) && IsPlainValue(all, cs[at], source)
    case Failed(_) => false
  }

  lemma GrowthKeepsDelivered(all: seq<Injectable>, before: seq<Container>, after: seq<Container>,
                             c: nat, r: nat, dependant: Option<nat>, optional: bool, outcome: Resolution)
    requires Wired(all, before) && Wired(all, after) && Grows(before, after) && c < |before|
    requires Delivered(all, before, c, r, dependant, optional, outcome)
    ensures Delivered(all, after, c, r, dependant, optional, outcome)
  {
    match outcome
    case GotInstance(at, target) =>
      GrowthKeepsAncestors(all, before, after, at, c);
      GrowthKeepsLeads(before, after, r, target);
      assert GrowsAt(before[at], after[at]);
    case GotValue(at, source) =>
      GrowthKeepsAncestors(all, before, after, at, c);
      GrowthKeepsLeads(before, after, r, source);
      assert GrowsAt(before[at], after[at]);
    case _ =>
  }

  /** Dependency `i` of `r` was delivered to container `c`. */
  ghost predicate Met(all: seq<Injectable>, cs: seq<Container>, c: nat, r: nat, i: nat)
    requires Wired(all, cs) && c < |cs| && r < |all| && i < |all[r].dependencies|
  {
    var d := all[r].dependencies[i];
    exists outcome: Resolution :: Delivered(all, cs, c, d.target, Some(r), d.optional, outcome)
  }

  ghost predicate AllMet(all: seq<Injectable>, cs: seq<Container>, c: nat, r: nat)
    requires Wired(all, cs) && c < |cs| && r < |all|
  {
    forall i | 0 <= i < |all[r].dependencies| :: Met(all, cs, c, r, i)
  }

  lemma GrowthKeepsMet(all: seq<Injectable>, before: seq<Container>, after: seq<Container>, c: nat, r: nat, i: nat)
    requires Wired(all, before) && Wired(all, after) && Grows(before, after) && c < |before|
    requires r < |all| && i < |all[r].dependencies| && Met(all, before, c, r, i)
    ensures Met(all, after, c, r, i)
  {
    var d := all[r].dependencies[i];
    var outcome: Resolution :| Delivered(all, before, c, d.target, Some(r), d.optional, outcome);
    GrowthKeepsDelivered(all, before, after, c, d.target, Some(r), d.optional, outcome);
  }

  /** Whatever was created between two states had all its dependencies delivered. */
  ghost predicate NewAreMet(all: seq<Injectable>, before: seq<Container>, after: seq<Container>)
    requires Wired(all, after) && |before| == |after|
  {
    forall c, r :: 0 <= c < |after| && r in after[c].instances && r !in before[c].instances ==>
      r < |all| && AllMet(all, after, c, r)
  }

  lemma NewAreMetInTurn(all: seq<Injectable>, a: seq<Container>, b: seq<Container>, c: seq<Container>)
    requires Wired(all, b) && Wired(all, c) && |a| == |b| && Grows(b, c)
    requires NewAreMet(all, a, b) && NewAreMet(all, b, c)
    ensures NewAreMet(all, a, c)
  {
    forall k, r | 0 <= k < |c| && r in c[k].instances && r !in a[k].instances
      ensures r < |all| && AllMet(all, c, k, r)
    {
      if r in b[k].instances {
        assert AllMet(all, b, k, r);
        forall i | 0 <= i < |all[r].dependencies|
          ensures Met(all, c, k, r, i)
        {
          GrowthKeepsMet(all, b, c, k, r, i);
        }
      }
    }
  }

  /** A non-transient instance that appeared between two states is in a
      container no proper ancestor of which provided or held the injectable. */
  ghost predicate NewAreFirst(all: seq<Injectable>, before: seq<Container>, after: seq<Container>)
    requires Wired(all, before) && |before| == |after|
  {
    forall c, r :: 0 <= c < |after| && r in after[c].instances && r !in before[c].instances ==> IsFirst(all, before, c, r)
  }

  ghost predicate IsFirst(all: seq<Injectable>, cs: seq<Container>, c: nat, r: nat)
    requires Wired(all, cs) && c < |cs|
  {
    r < |all| && (!all[r].scope.Transient? ==> NoneAbove(all, cs, c, r))
  }

  lemma NewAreFirstInTurn(all: seq<Injectable>, a: seq<Container>, b: seq<Container>, c: seq<Container>)
    requires Wired(all, a) && Wired(all, b) && |b| == |c| && Grows(a, b)
    requires NewAreFirst(all, a, b) && NewAreFirst(all, b, c)
    ensures NewAreFirst(all, a, c)
  {
    forall k, r | 0 <= k < |c| && r in c[k].instances && r !in a[k].instances
      ensures IsFirst(all, a, k, r)
    {
      if r !in b[k].instances {
        assert IsFirst(all, b, k, r);
        if !all[r].scope.Transient? {
          GrowthKeepsNoneAbove(all, a, b, k, r);
        }
      }
    }
  }

  /** The checks every request passes first. */
  function Refusal(all: seq<Injectable>, here: Container, r: nat, request: Request): Option<ResolutionError>
    requires WellFounded(all) && r < |all| && (request.dependant.Some? ==> request.dependant.value < |all|)
  {
    if here.disposing then Some(DisposingContainer)
    else if r in request.chain then Some(Circular(request.chain[Disposal.Position(request.chain, r)..] + [r]))
    else if request.dependant.Some? && Place(Effective(all, request.dependant.value)) < Place(Effective(all, r))
    then Some(ScopeViolation(request.dependant.value, r))
    else None
  }

  lemma CircularIsReal(all: seq<Injectable>, throwing: set<nat>, cs: seq<Container>, c: nat, r: nat, request: Request)
    requires Wired(all, cs) && Sane(all, cs, c, r, request) && r in request.chain
    ensures ErrorIsReal(all, throwing, cs, c, r, Circular(request.chain[Disposal.Position(request.chain, r)..] + [r]))
  {
    var i := Disposal.Position(request.chain, r);
    CycleIsReal(all, cs, c, r, request);
    ReachedSelf(all, cs, r);
    assert (request.chain[i..] + [r])[0] == r;
  }

  lemma RefusalIsReal(all: seq<Injectable>, throwing: set<nat>, cs: seq<Container>, c: nat, r: nat, request: Request)
    requires Wired(all, cs) && Sane(all, cs, c, r, request) && Refusal(all, cs[c], r, request).Some?
    ensures ErrorIsReal(all, throwing, cs, c, r, Refusal(all, cs[c], r, request).value)
  {
    if cs[c].disposing {
      assert IsAncestor(all, cs, c, c) && Obstructs(all, cs, c, DisposingContainer);
    } else if r in request.chain {
      CircularIsReal(all, throwing, cs, c, r, request);
    } else {
      ReachedSelf(all, cs, r);
    }
  }

  /** Does container `c` pass the request on to its parent? */
  predicate Delegates(all: seq<Injectable>, cs: seq<Container>, c: nat, r: nat)
    requires WellFounded(all) && r < |all| && c < |cs|
    requires forall k | 0 <= k < |cs| :: !cs[k].scope.Transient? && (cs[k].parent.Some? ==> cs[k].parent.value < k)
  {
    !all[r].scope.Transient? && cs[c].parent.Some?
    && (Contains(cs, cs[c].parent.value, r) || ParentHosts(all, cs, c, r))
  }

  /** Where aliases and parents lead a request: to the plain value of which
      injectable in which container, or for an instance, which container has to
      have it, of what, and along which chain. */
  datatype Route = Refused(error: ResolutionError) | ToValue(at: nat, source: nat) | ToHost(at: nat, target: nat, chain: seq<nat>)

  ghost function Routed(all: seq<Injectable>, cs: seq<Container>, c: nat, r: nat, request: Request): (route: Route)
    requires Wired(all, cs) && Sane(all, cs, c, r, request)
    ensures route.ToHost? ==> route.at < |cs| && route.target < |all| && IsAncestor(all, cs, route.at, c)
    decreases Unvisited(all, request.chain), c
  {
    assert forall k | 0 <= k < |cs| :: WiredContainer(all, cs[k], k);
    var refusal := Refusal(all, cs[c], r, request);
    if refusal.Some? then Refused(refusal.value)
    else if IsPlainValue(all, cs[c], r) then ToValue(c, r)
    else if r in cs[c].provisions then
      var next := request.(chain := request.chain + [r]);
      ChainExtends(all, cs, c, r, request, next, cs[c].provisions[r].target);
      Routed(all, cs, c, cs[c].provisions[r].target, next)
    else if Delegates(all, cs, c, r) then Routed(all, cs, cs[c].parent.value, r, request)
    else ToHost(c, r, request.chain)
  }

  /** The first dependency that failed, or the length. */
  function FirstFailure(attempted: seq<Resolution>): (k: nat)
    ensures k <= |attempted| && (k < |attempted| ==> attempted[k].Failed?)
    ensures forall j | 0 <= j < k :: !attempted[j].Failed?
  {
    if attempted == [] || attempted[0].Failed? then 0
    else
      assert forall j | 0 < j < |attempted| :: attempted[j] == attempted[1..][j - 1];
      1 + FirstFailure(attempted[1..])
  }

  /** An instance is created if and only if every dependency was delivered and
      the factory does not throw; otherwise the first failure is the outcome. */
  function Creation(throwing: set<nat>, at: nat, target: nat, attempted: seq<Resolution>): Resolution {
    var k := FirstFailure(attempted);
    if k < |attempted| then attempted[k]
    else if target in throwing then Failed(CreationFailed(target))
    else GotInstance(at, target)
  }

  function FirstError(attempted: seq<Resolution>): Option<ResolutionError> {
    var k := FirstFailure(attempted);
    if k < |attempted| then Some(attempted[k].error) else None
  }

  /** What the first dependencies of `r` came to, in container `c`, if they did not fail. */
  ghost predicate Attempted(all: seq<Injectable>, cs: seq<Container>, c: nat, r: nat, attempted: seq<Resolution>)
    requires Wired(all, cs) && c < |cs| && r < |all|
  {
    && |attempted| <= |all[r].dependencies|
    && forall i | 0 <= i < |attempted| && !attempted[i].Failed? ::
         Delivered(all, cs, c, all[r].dependencies[i].target, Some(r), all[r].dependencies[i].optional, attempted[i])
  }

  lemma GrowthKeepsAttempted(all: seq<Injectable>, before: seq<Container>, after: seq<Container>, c: nat, r: nat,
                             attempted: seq<Resolution>)
    requires Wired(all, before) && Wired(all, after) && Grows(before, after) && c < |before| && r < |all|
    requires Attempted(all, before, c, r, attempted)
    ensures Attempted(all, after, c, r, attempted)
  {
    forall i | 0 <= i < |attempted| && !attempted[i].Failed?
      ensures Delivered(all, after, c, all[r].dependencies[i].target, Some(r), all[r].dependencies[i].optional, attempted[i])
    {
      GrowthKeepsDelivered(all, before, after, c, all[r].dependencies[i].target, Some(r), all[r].dependencies[i].optional, attempted[i]);
    }
  }

  /** One more dependency attempted, the earlier ones kept. */
  lemma AttemptedOneMore(all: seq<Injectable>, before: seq<Container>, after: seq<Container>, c: nat, r: nat,
                         attempted: seq<Resolution>, outcome: Resolution)
    requires Wired(all, before) && Wired(all, after) && Grows(before, after) && c < |before| && r < |all|
    requires Attempted(all, before, c, r, attempted) && |attempted| < |all[r].dependencies|
    requires var d := all[r].dependencies[|attempted|]; outcome.Failed? || Delivered(all, after, c, d.target, Some(r), d.optional, outcome)
    ensures Attempted(all, after, c, r, attempted + [outcome])
  {
    GrowthKeepsAttempted(all, before, after, c, r, attempted);
  }

  lemma FirstFailureOneMore(attempted: seq<Resolution>, outcome: Resolution)
    ensures
      var k := FirstFailure(attempted);
      FirstFailure(attempted + [outcome]) == if k == |attempted| && !outcome.Failed? then k + 1 else k
  {
    var more := attempted + [outcome];
    assert forall j | 0 <= j < |attempted| :: more[j] == attempted[j];
    assert more[|attempted|] == outcome;
  }

  lemma FirstErrorOneMore(attempted: seq<Resolution>, outcome: Resolution)
    ensures
      var first := FirstError(attempted);
      FirstError(attempted + [outcome]) == if first.None? && outcome.Failed? then Some(outcome.error) else first
  {
    FirstFailureOneMore(attempted, outcome);
  }

  /** If no dependency failed, all are met. */
  lemma AttemptsDecide(all: seq<Injectable>, cs: seq<Container>, c: nat, r: nat, attempted: seq<Resolution>)
    requires Wired(all, cs) && c < |cs| && r < |all| && Attempted(all, cs, c, r, attempted)
    requires |attempted| == |all[r].dependencies| && FirstError(attempted).None?
    ensures AllMet(all, cs, c, r)
  {
    forall i | 0 <= i < |all[r].dependencies|
      ensures Met(all, cs, c, r, i)
    {
      assert !attempted[i].Failed?;
    }
  }

  /** What a resolution comes to: an error is a real one where it started, and
      anything else is delivered where it ended. */
  ghost predicate Ends(all: seq<Injectable>, throwing: set<nat>, before: seq<Container>, after: seq<Container>, c: nat, r: nat,
                       dependant: Option<nat>, optional: bool, outcome: Resolution)
    requires Wired(all, before) && Wired(all, after) && c < |before| == |after|
  {
    if outcome.Failed? then ErrorIsReal(all, throwing, before, c, r, outcome.error)
    else Delivered(all, after, c, r, dependant, optional, outcome)
  }

  lemma ParentDelivers(all: seq<Injectable>, throwing: set<nat>, before: seq<Container>, after: seq<Container>, c: nat, r: nat,
                       request: Request, outcome: Resolution)
    requires Wired(all, before) && Wired(all, after) && c < |before| == |after|
    requires before[c].parent.Some? && after[c].parent == before[c].parent
    requires Ends(all, throwing, before, after, before[c].parent.value, r, request.dependant, request.optional, outcome)
    ensures Ends(all, throwing, before, after, c, r, request.dependant, request.optional, outcome)
  {
    if outcome.Failed? {
      ParentErrors(all, throwing, before, c, r, outcome.error);
    }
  }

  lemma AliasDelivers(all: seq<Injectable>, throwing: set<nat>, before: seq<Container>, after: seq<Container>, c: nat, r: nat, target: nat,
                      request: Request, outcome: Resolution)
    requires Wired(all, before) && Wired(all, after) && c < |before| == |after| && AliasEdge(before, r, target) && AliasEdge(after, r, target)
    requires Ends(all, throwing, before, after, c, target, request.dependant, request.optional, outcome)
    ensures Ends(all, throwing, before, after, c, r, request.dependant, request.optional, outcome)
  {
    match outcome
    case GotValue(_, source) => LeadsOn(after, r, target, source);
    case GotInstance(_, host) => LeadsOn(after, r, target, host);
    case Failed(e) => NextErrors(all, throwing, before, c, r, target, e);
    case GotNothing =>
  }

  /** Filing an instance whose dependencies are delivered. */
  lemma KeptAreMet(all: seq<Injectable>, a: seq<Container>, b: seq<Container>, c: seq<Container>, k: nat, r: nat)
    requires Wired(all, b) && Wired(all, c) && |a| == |b| && Grows(b, c) && k < |b| && r < |all|
    requires NewAreMet(all, a, b) && AllMet(all, b, k, r)
    requires forall i, x :: 0 <= i < |b| && x in c[i].instances && x !in b[i].instances ==> i == k && x == r
    ensures NewAreMet(all, a, c) && AllMet(all, c, k, r)
  {
    forall i | 0 <= i < |all[r].dependencies|
      ensures Met(all, c, k, r, i)
    {
      GrowthKeepsMet(all, b, c, k, r, i);
    }
    NewAreMetInTurn(all, a, b, c);
  }

  /** The containers once a dependant of `r`, if any, is recorded in `c`. */
  function Recorded(cs: seq<Container>, c: nat, r: nat, dependant: Option<nat>): seq<Container>
    requires c < |cs|
  {
    if dependant.None? then cs
    else
      var known := if r in cs[c].dependants then cs[c].dependants[r] else {};
      cs[c := cs[c].(dependants := cs[c].dependants[r := known + {dependant.value}])]
  }

  lemma RecordedFine(all: seq<Injectable>, cs: seq<Container>, c: nat, r: nat, dependant: Option<nat>)
    requires Valid(all, cs) && c < |cs|
    ensures
      var after := Recorded(cs, c, r, dependant);
      && Valid(all, after) && Grows(cs, after)
      && (forall k | 0 <= k < |cs| :: after[k].instances == cs[k].instances)
      && (dependant.Some? ==> r in after[c].dependants && dependant.value in after[c].dependants[r])
  {
    var after := Recorded(cs, c, r, dependant);
    forall i | 0 <= i < |after|
      ensures WiredContainer(all, after[i], i) && forall x :: x in after[i].instances ==> Hosted(all, after[i], x)
    {
      assert WiredContainer(all, cs[i], i);
    }
  }

  /** The containers once a new instance of `r` is filed in `c`, which transients
      are only if they have a dispose hook. */
  function Kept(all: seq<Injectable>, disposable: set<nat>, cs: seq<Container>, c: nat, r: nat): seq<Container>
    requires c < |cs| && r < |all|
  {
    if all[r].scope.Transient? && r !in disposable then cs
    else
      var handles := if r in cs[c].instances then cs[c].instances[r] else 0;
      cs[c := cs[c].(instances := cs[c].instances[r := handles + 1])]
  }

  lemma KeptValid(all: seq<Injectable>, disposable: set<nat>, cs: seq<Container>, c: nat, r: nat)
    requires Valid(all, cs) && c < |cs| && r < |all| && WiredContainer(all, cs[c], c) && Satisfies(all, cs[c].scope, r)
    requires !all[r].scope.Transient? ==> r !in cs[c].instances && !ParentHosts(all, cs, c, r)
    ensures Valid(all, Kept(all, disposable, cs, c, r))
  {
    var after := Kept(all, disposable, cs, c, r);
    forall i | 0 <= i < |after|
      ensures WiredContainer(all, after[i], i) && forall x :: x in after[i].instances ==> Hosted(all, after[i], x)
    {
      assert WiredContainer(all, cs[i], i);
      assert forall x :: x in cs[i].instances ==> Hosted(all, cs[i], x);
    }
  }

  lemma KeptGrows(all: seq<Injectable>, disposable: set<nat>, cs: seq<Container>, c: nat, r: nat)
    requires c < |cs| && r < |all|
    ensures
      var after := Kept(all, disposable, cs, c, r);
      && Grows(cs, after) && (!all[r].scope.Transient? ==> r in after[c].instances)
      && (forall k, x :: 0 <= k < |cs| && (k != c || x != r) ==> (x in after[k].instances <==> x in cs[k].instances))
  {
  }

  // ----------------------------------------------------------------- trials

  /** One resolution as it was carried out: the containers it met and left, what
      it came to, and the trials of the dependencies it went through. */
  datatype Trial = Trial(before: seq<Container>, after: seq<Container>, outcome: Resolution, trials: seq<Trial>)

  function Outcomes(trials: seq<Trial>): (outcomes: seq<Resolution>)
    ensures |outcomes| == |trials|
  {
    seq(|trials|, i requires 0 <= i < |trials| => trials[i].outcome)
  }

  /** The containers the last of the trials left. */
  function Reaching(start: seq<Container>, trials: seq<Trial>): seq<Container> {
    if trials == [] then start else trials[|trials| - 1].after
  }

  /** Nothing else could have come of this request: the route that aliases and
      parents fix leads to a refusal, a value, an instance that is there, the
      lack of one, or a creation; and a creation comes to what the trials of
      the dependencies, each of which leaves no choice either, make it. */
  ghost predicate Justified(all: seq<Injectable>, throwing: set<nat>, disposable: set<nat>, c: nat, r: nat, request: Request, t: Trial)
    decreases t
  {
    && Wired(all, t.before) && Sane(all, t.before, c, r, request)
    && match Routed(all, t.before, c, r, request)
       case Refused(error) => t == Trial(t.before, t.before, Failed(error), [])
       case ToValue(at, source) => t == Trial(t.before, t.before, GotValue(at, source), [])
       case ToHost(at, target, chain) =>
         assert WiredContainer(all, t.before[at], at);
         var recorded := Recorded(t.before, at, target, request.dependant);
         if !all[target].scope.Transient? && target in t.before[at].instances
         then t == Trial(t.before, recorded, GotInstance(at, target), [])
         else if all[target].kind.Lazy?
         then t == Trial(t.before, recorded, if request.optional then GotNothing else Failed(NoInstance(target)), [])
         else if !Satisfies(all, t.before[at].scope, target)
         then t == Trial(t.before, recorded, Failed(TooStrict(target)), [])
         else
           && |t.trials| == |all[target].dependencies|
           && Tries(all, throwing, disposable, at, target, chain, recorded, t.trials)
           && t.outcome == Creation(throwing, at, target, Outcomes(t.trials))
           && t.after == Finished(all, disposable, Reaching(recorded, t.trials), at, target, t.outcome)
  }

  /** The containers after a creation, with the instance filed if there is one. */
  function Finished(all: seq<Injectable>, disposable: set<nat>, ready: seq<Container>, at: nat, target: nat, outcome: Resolution): seq<Container> {
    if outcome.GotInstance? && at < |ready| && target < |all| then Kept(all, disposable, ready, at, target) else ready
  }

  /** Trials of the first dependencies of `target` in container `at`, one after the other. */
  ghost predicate Tries(all: seq<Injectable>, throwing: set<nat>, disposable: set<nat>, at: nat, target: nat, chain: seq<nat>,
                        start: seq<Container>, trials: seq<Trial>)
    decreases trials
  {
    trials == [] ||
    var n := |trials| - 1;
    && Tries(all, throwing, disposable, at, target, chain, start, trials[..n])
    && trials[n].before == Reaching(start, trials[..n])
    && target < |all| && n < |all[target].dependencies|
    && Justified(all, throwing, disposable, at, all[target].dependencies[n].target, Asking(all, target, chain, n), trials[n])
  }

  /** The request that `target`, reached along a chain, makes for its dependency `i`. */
  function Asking(all: seq<Injectable>, target: nat, chain: seq<nat>, i: nat): Request
    requires target < |all| && i < |all[target].dependencies|
  {
    Request(Some(target), all[target].dependencies[i].optional, chain + [target])
  }

  lemma TriesOneMore(all: seq<Injectable>, throwing: set<nat>, disposable: set<nat>, at: nat, target: nat, chain: seq<nat>,
                     start: seq<Container>, trials: seq<Trial>, t: Trial)
    requires Tries(all, throwing, disposable, at, target, chain, start, trials)
    requires target < |all| && |trials| < |all[target].dependencies| && t.before == Reaching(start, trials)
    requires Justified(all, throwing, disposable, at, all[target].dependencies[|trials|].target, Asking(all, target, chain, |trials|), t)
    ensures Tries(all, throwing, disposable, at, target, chain, start, trials + [t])
  {
    assert (trials + [t])[..|trials|] == trials;
  }

  lemma OutcomesOneMore(start: seq<Container>, trials: seq<Trial>, t: Trial)
    ensures Outcomes(trials + [t]) == Outcomes(trials) + [t.outcome] && Reaching(start, trials + [t]) == t.after
  {
  }

  /** A request has one trial only: the containers and the outcome it ends in
      are a function of the containers it meets. */
  lemma {:induction false} TrialsAgree(all: seq<Injectable>, throwing: set<nat>, disposable: set<nat>, c: nat, r: nat, request: Request,
                                       s: Trial, t: Trial)
    requires Justified(all, throwing, disposable, c, r, request, s) && Justified(all, throwing, disposable, c, r, request, t)
    requires s.before == t.before
    ensures s == t
    decreases s
  {
    var route := Routed(all, s.before, c, r, request);
    if route.ToHost? && |s.trials| == |t.trials| == |all[route.target].dependencies| && s.trials != [] && t.trials != [] {
      var recorded := Recorded(s.before, route.at, route.target, request.dependant);
      TriesAgree(all, throwing, disposable, route.at, route.target, route.chain, recorded, s.trials, t.trials);
    }
  }

  lemma {:induction false} TriesAgree(all: seq<Injectable>, throwing: set<nat>, disposable: set<nat>, at: nat, target: nat, chain: seq<nat>,
                                      start: seq<Container>, a: seq<Trial>, b: seq<Trial>)
    requires Tries(all, throwing, disposable, at, target, chain, start, a) && Tries(all, throwing, disposable, at, target, chain, start, b)
    requires |a| == |b|
    ensures a == b
    decreases a
  {
    if a != [] {
      var n := |a| - 1;
      TriesAgree(all, throwing, disposable, at, target, chain, start, a[..n], b[..n]);
      TrialsAgree(all, throwing, disposable, at, all[target].dependencies[n].target, Asking(all, target, chain, n), a[n], b[n]);
      assert a == a[..n] + [a[n]] && b == b[..n] + [b[n]];
    }
  }

  /** All that a resolution promises: the tree stays valid and only grows, no
      injectable on its way gains an instance, the outcome is delivered and
      nothing else could have come of it, and whatever was created had its
      dependencies. */
  ghost predicate Resolved(all: seq<Injectable>, throwing: set<nat>, disposable: set<nat>, c: nat, r: nat, request: Request, t: Trial) {
    && Justified(all, throwing, disposable, c, r, request, t)
    && Valid(all, t.after) && Grows(t.before, t.after) && SameFor(t.before, t.after, request.chain)
    && Ends(all, throwing, t.before, t.after, c, r, request.dependant, request.optional, t.outcome)
    && NewAreMet(all, t.before, t.after) && NewAreFirst(all, t.before, t.after)
  }

  /** A request that ends in its container, which records the dependant. */
  ghost predicate EndsHere(all: seq<Injectable>, cs: seq<Container>, c: nat, r: nat, request: Request) {
    && Valid(all, cs) && Sane(all, cs, c, r, request) && r !in request.chain
    && !all[r].kind.Value? && r !in cs[c].provisions
    && Refusal(all, cs[c], r, request).None? && !Delegates(all, cs, c, r)
  }

  /** An instance found, none to be had, or a scope that is too strict. */
  lemma ResolvedWithoutCreating(all: seq<Injectable>, throwing: set<nat>, disposable: set<nat>, before: seq<Container>, c: nat, r: nat,
                                request: Request, outcome: Resolution)
    requires EndsHere(all, before, c, r, request) && WiredContainer(all, before[c], c)
    requires
      if !all[r].scope.Transient? && r in before[c].instances then outcome == GotInstance(c, r)
      else if all[r].kind.Lazy? then outcome == if request.optional then GotNothing else Failed(NoInstance(r))
      else !Satisfies(all, before[c].scope, r) && outcome == Failed(TooStrict(r))
    ensures Resolved(all, throwing, disposable, c, r, request, Trial(before, Recorded(before, c, r, request.dependant), outcome, []))
  {
    var after := Recorded(before, c, r, request.dependant);
    RecordedFine(all, before, c, r, request.dependant);
    LeadsSelf(after, r);
    ReachedSelf(all, before, r);
    NotDelegated(all, before, c, r);
    assert GrowsAt(before[c], after[c]) && IsAncestor(all, after, c, c) && IsAncestor(all, before, c, c);
    if outcome.Failed? {
      assert Obstructs(all, before, c, outcome.error);
    }
  }

  /** A request that is not passed on meets no offer above, and no parent that could host. */
  lemma NotDelegated(all: seq<Injectable>, cs: seq<Container>, c: nat, r: nat)
    requires Wired(all, cs) && c < |cs| && r < |all|
    requires forall k | 0 <= k < |cs| :: WiredContainer(all, cs[k], k)
    ensures !Delegates(all, cs, c, r) <==> all[r].scope.Transient? || (NoneAbove(all, cs, c, r) && !ParentHosts(all, cs, c, r))
  {
    NoneAboveMeans(all, cs, c, r);
  }

  /** What creating promises to the container that owns the resolution. */
  ghost predicate Created(all: seq<Injectable>, throwing: set<nat>, disposable: set<nat>, c: nat, r: nat, chain: seq<nat>, t: Trial) {
    && c < |t.before| == |t.after| && r < |all|
    && Wired(all, t.before) && Valid(all, t.after) && Grows(t.before, t.after) && SameFor(t.before, t.after, chain)
    && NewAreMet(all, t.before, t.after) && NewAreFirst(all, t.before, t.after)
    && |t.trials| == |all[r].dependencies| && Tries(all, throwing, disposable, c, r, chain, t.before, t.trials)
    && t.outcome == Creation(throwing, c, r, Outcomes(t.trials))
    && t.after == Finished(all, disposable, Reaching(t.before, t.trials), c, r, t.outcome)
    && (t.outcome.Failed? ==> ErrorIsReal(all, throwing, t.before, c, r, t.outcome.error))
    && (t.outcome.GotInstance? && !all[r].scope.Transient? ==> r in t.after[c].instances)
  }

  /** Filing the instance completes its creation. */
  lemma KeptFine(all: seq<Injectable>, throwing: set<nat>, disposable: set<nat>, c: nat, r: nat, chain: seq<nat>,
                 before: seq<Container>, ready: seq<Container>, trials: seq<Trial>)
    requires |before| == |ready| && c < |ready| && r < |all| && r !in chain && r !in throwing
    requires Wired(all, before) && Valid(all, ready) && Grows(before, ready) && SameFor(before, ready, chain)
    requires NewAreMet(all, before, ready) && NewAreFirst(all, before, ready)
    requires |trials| == |all[r].dependencies| && Tries(all, throwing, disposable, c, r, chain, before, trials)
    requires Reaching(before, trials) == ready && FirstFailure(Outcomes(trials)) == |trials| && AllMet(all, ready, c, r)
    requires WiredContainer(all, ready[c], c) && Satisfies(all, ready[c].scope, r)
    requires !all[r].scope.Transient? ==> r !in ready[c].instances && !ParentHosts(all, ready, c, r) && NoneAbove(all, before, c, r)
    ensures Created(all, throwing, disposable, c, r, chain, Trial(before, Kept(all, disposable, ready, c, r), GotInstance(c, r), trials))
  {
    var after := Kept(all, disposable, ready, c, r);
    KeptValid(all, disposable, ready, c, r);
    KeptGrows(all, disposable, ready, c, r);
    GrowsInTurn(before, ready, after);
    KeptAreMet(all, before, ready, after, c, r);
  }

  lemma ResolvedByCreating(all: seq<Injectable>, throwing: set<nat>, disposable: set<nat>, before: seq<Container>, c: nat, r: nat,
                           request: Request, t: Trial)
    requires EndsHere(all, before, c, r, request) && WiredContainer(all, before[c], c)
    requires !(!all[r].scope.Transient? && r in before[c].instances) && all[r].kind.Factory? && Satisfies(all, before[c].scope, r)
    requires t.before == Recorded(before, c, r, request.dependant) && Created(all, throwing, disposable, c, r, request.chain, t)
    ensures Resolved(all, throwing, disposable, c, r, request, t.(before := before))
  {
    RecordedFine(all, before, c, r, request.dependant);
    LeadsSelf(t.after, r);
    GrowsInTurn(before, t.before, t.after);
    NewAreFirstInTurn(all, before, t.before, t.after);
    if t.outcome.Failed? {
      GrowthKeepsErrors(all, throwing, before, t.before, c, r, t.outcome.error);
    }
    assert GrowsAt(t.before[c], t.after[c]) && IsAncestor(all, t.after, c, c);
  }

  lemma GrowsInTurn(a: seq<Container>, b: seq<Container>, c: seq<Container>)
    requires Grows(a, b) && Grows(b, c)
    ensures Grows(a, c)
  {
    forall k | 0 <= k < |a|
      ensures GrowsAt(a[k], c[k])
    {
      assert GrowsAt(a[k], b[k]) && GrowsAt(b[k], c[k]);
    }
  }

  /** The containers only grew, nothing on the way gained an instance, and what is new has its dependencies. */
  ghost predicate Extends(all: seq<Injectable>, chain: seq<nat>, start: seq<Container>, now: seq<Container>) {
    && Wired(all, start) && Valid(all, now) && Grows(start, now) && SameFor(start, now, chain)
    && NewAreMet(all, start, now) && NewAreFirst(all, start, now)
  }

  lemma ExtendsInTurn(all: seq<Injectable>, chain: seq<nat>, a: seq<Container>, b: seq<Container>, c: seq<Container>)
    requires Extends(all, chain, a, b) && Extends(all, chain, b, c)
    ensures Extends(all, chain, a, c)
  {
    GrowsInTurn(a, b, c);
    NewAreMetInTurn(all, a, b, c);
    NewAreFirstInTurn(all, a, b, c);
  }

  /** What the trials of the first dependencies of `r` came to, with the first
      failure so far, which stood in the way from the start. */
  ghost predicate Tried(all: seq<Injectable>, throwing: set<nat>, disposable: set<nat>, c: nat, r: nat, chain: seq<nat>,
                        start: seq<Container>, now: seq<Container>, trials: seq<Trial>, failure: Option<ResolutionError>)
  {
    && Wired(all, start) && Wired(all, now) && c < |now| == |start| && r < |all|
    && Tries(all, throwing, disposable, c, r, chain, start, trials) && Reaching(start, trials) == now
    && Attempted(all, now, c, r, Outcomes(trials)) && failure == FirstError(Outcomes(trials))
    && (failure.Some? ==> ErrorIsReal(all, throwing, start, c, r, failure.value))
  }

  lemma TriedOneMore(all: seq<Injectable>, throwing: set<nat>, disposable: set<nat>, c: nat, r: nat, chain: seq<nat>,
                     start: seq<Container>, trials: seq<Trial>, failure: Option<ResolutionError>, t: Trial)
    requires Tried(all, throwing, disposable, c, r, chain, start, t.before, trials, failure) && |trials| < |all[r].dependencies|
    requires Grows(start, t.before)
    requires Resolved(all, throwing, disposable, c, all[r].dependencies[|trials|].target, Asking(all, r, chain, |trials|), t)
    ensures Tried(all, throwing, disposable, c, r, chain, start, t.after, trials + [t],
                  if failure.None? && t.outcome.Failed? then Some(t.outcome.error) else failure)
  {
    AttemptedOneMore(all, t.before, t.after, c, r, Outcomes(trials), t.outcome);
    FirstErrorOneMore(Outcomes(trials), t.outcome);
    TriesOneMore(all, throwing, disposable, c, r, chain, start, trials, t);
    OutcomesOneMore(start, trials, t);
    if t.outcome.Failed? {
      DependencyErrors(all, throwing, start, t.before, c, r, |trials|, t.outcome.error);
    }
  }

  /** What stands in the way of a dependency stood in the dependant's way from the start. */
  lemma DependencyErrors(all: seq<Injectable>, throwing: set<nat>, start: seq<Container>, now: seq<Container>, c: nat, r: nat, i: nat, e: ResolutionError)
    requires Wired(all, start) && Wired(all, now) && Grows(start, now) && c < |start| && r < |all| && i < |all[r].dependencies|
    requires ErrorIsReal(all, throwing, now, c, all[r].dependencies[i].target, e)
    ensures ErrorIsReal(all, throwing, start, c, r, e)
  {
    assert Declares(all, r, all[r].dependencies[i].target);
    NextErrors(all, throwing, now, c, r, all[r].dependencies[i].target, e);
    GrowthKeepsErrors(all, throwing, start, now, c, r, e);
  }

  class ContainerTree {
    /** The injectables, which factories throw, and which have a dispose hook. */
    const all: seq<Injectable>
    const throwing: set<nat>
    const disposable: set<nat>
    var containers: seq<Container>

    constructor (all: seq<Injectable>, throwing: set<nat>, disposable: set<nat>, containers: seq<Container>)
      ensures this.all == all && this.throwing == throwing && this.disposable == disposable && this.containers == containers
    {
      this.all, this.throwing, this.disposable, this.containers := all, throwing, disposable, containers;
    }

    method RecordDependant(c: nat, r: nat, dependant: Option<nat>)
      requires c < |containers|
      modifies this
      ensures containers == Recorded(old(containers), c, r, dependant)
    {
      if dependant.Some? {
        var k := containers[c];
        var known := if r in k.dependants then k.dependants[r] else {};
        containers := containers[c := k.(dependants := k.dependants[r := known + {dependant.value}])];
      }
    }

    /** Files a new instance; transients without a dispose hook are not kept. */
    method KeepInstance(c: nat, r: nat)
      requires c < |containers| && r < |all|
      modifies this
      ensures containers == Kept(all, disposable, old(containers), c, r)
    {
      if all[r].scope.Transient? && r !in disposable {
        return;
      }
      var k := containers[c];
      var handles := if r in k.instances then k.instances[r] else 0;
      containers := containers[c := k.(instances := k.instances[r := handles + 1])];
    }

    /** One resolution request, sequentially: every branch of the resolver. */
    method Resolve(c: nat, r: nat, request: Request) returns (outcome: Resolution, ghost trial: Trial)
      requires Valid(all, containers) && Sane(all, containers, c, r, request)
      modifies this
      ensures trial.before == old(containers) && trial.after == containers && trial.outcome == outcome
      ensures Resolved(all, throwing, disposable, c, r, request, trial)
      decreases Unvisited(all, request.chain), c, 4
    {
      var refusal := Refusal(all, containers[c], r, request);
      if refusal.Some? {
        RefusalIsReal(all, throwing, containers, c, r, request);
        outcome := Failed(refusal.value);
        trial := Trial(containers, containers, outcome, []);
      } else if IsPlainValue(all, containers[c], r) {
        LeadsSelf(containers, r);
        assert IsAncestor(all, containers, c, c);
        outcome := GotValue(c, r);
        trial := Trial(containers, containers, outcome, []);
      } else if r in containers[c].provisions {
        outcome, trial := ResolveAlias(c, r, request);
      } else if Delegates(all, containers, c, r) {
        outcome, trial := ResolveAbove(c, r, request);
      } else {
        outcome, trial := ResolveHere(c, r, request);
      }
    }

    /** A provided injectable: resolution goes on under the target. */
    method ResolveAlias(c: nat, r: nat, request: Request) returns (outcome: Resolution, ghost trial: Trial)
      requires Valid(all, containers) && Sane(all, containers, c, r, request) && r !in request.chain
      requires r in containers[c].provisions && containers[c].provisions[r].Alias?
      requires Refusal(all, containers[c], r, request).None?
      modifies this
      ensures trial.before == old(containers) && trial.after == containers && trial.outcome == outcome
      ensures Resolved(all, throwing, disposable, c, r, request, trial)
      decreases Unvisited(all, request.chain), c, 3
    {
      var target := containers[c].provisions[r].target;
      var next := request.(chain := request.chain + [r]);
      assert WiredContainer(all, containers[c], c);
      ChainExtends(all, containers, c, r, request, next, target);
      ghost var here := containers[c];
      outcome, trial := Resolve(c, target, next);
      assert GrowsAt(here, containers[c]);
      assert AliasEdge(old(containers), r, target) && AliasEdge(containers, r, target);
      AliasDelivers(all, throwing, old(containers), containers, c, r, target, request, outcome);
      SameForShorter(old(containers), containers, request.chain, r);
    }

    /** The parent already has the injectable, or is looser and can host it. */
    method ResolveAbove(c: nat, r: nat, request: Request) returns (outcome: Resolution, ghost trial: Trial)
      requires Valid(all, containers) && Sane(all, containers, c, r, request)
      requires Refusal(all, containers[c], r, request).None? && !all[r].kind.Value? && r !in containers[c].provisions
      requires Delegates(all, containers, c, r)
      modifies this
      ensures trial.before == old(containers) && trial.after == containers && trial.outcome == outcome
      ensures Resolved(all, throwing, disposable, c, r, request, trial)
      decreases Unvisited(all, request.chain), c, 3
    {
      ghost var here := containers[c];
      assert WiredContainer(all, here, c);
      outcome, trial := Resolve(containers[c].parent.value, r, request);
      assert GrowsAt(here, containers[c]);
      ParentDelivers(all, throwing, old(containers), containers, c, r, request, outcome);
    }

    /** The container owns the resolution: it records the dependant even on a
        hit, then returns the instance, the absence, or a new instance. */
    method ResolveHere(c: nat, r: nat, request: Request) returns (outcome: Resolution, ghost trial: Trial)
      requires EndsHere(all, containers, c, r, request)
      modifies this
      ensures trial.before == old(containers) && trial.after == containers && trial.outcome == outcome
      ensures Resolved(all, throwing, disposable, c, r, request, trial)
      decreases Unvisited(all, request.chain), c, 3
    {
      assert WiredContainer(all, containers[c], c);
      RecordedFine(all, containers, c, r, request.dependant);
      RecordDependant(c, r, request.dependant);
      GrowthKeepsPaths(all, old(containers), containers, request.chain + [r]);
      if !all[r].scope.Transient? && r in containers[c].instances {
        outcome := GotInstance(c, r);
      } else if all[r].kind.Lazy? {
        outcome := if request.optional then GotNothing else Failed(NoInstance(r));
      } else if !Satisfies(all, containers[c].scope, r) {
        outcome := Failed(TooStrict(r));
      } else {
        NotDelegated(all, old(containers), c, r);
        UnchangedNoneAbove(all, old(containers), containers, c, r);
        outcome, trial := Create(c, r, request);
        ResolvedByCreating(all, throwing, disposable, old(containers), c, r, request, trial);
        trial := trial.(before := old(containers));
        return;
      }
      trial := Trial(old(containers), containers, outcome, []);
      ResolvedWithoutCreating(all, throwing, disposable, old(containers), c, r, request, outcome);
    }

    /** Creates and files an instance once all its dependencies are delivered. */
    method Create(c: nat, r: nat, request: Request) returns (outcome: Resolution, ghost trial: Trial)
      requires Valid(all, containers) && Sane(all, containers, c, r, request) && r !in request.chain
      requires WiredContainer(all, containers[c], c) && Satisfies(all, containers[c].scope, r)
      requires !all[r].scope.Transient? ==>
                 r !in containers[c].instances && !ParentHosts(all, containers, c, r) && NoneAbove(all, containers, c, r)
      modifies this
      ensures trial.before == old(containers) && trial.after == containers && trial.outcome == outcome
      ensures Created(all, throwing, disposable, c, r, request.chain, trial)
      decreases Unvisited(all, request.chain), c, 2
    {
      var failure;
      ghost var trials;
      failure, trials := ResolveDependencies(c, r, request);
      SameForShorter(old(containers), containers, request.chain, r);
      assert GrowsAt(old(containers)[c], containers[c]);
      if failure.Some? {
        outcome := Failed(failure.value);
      } else if r in throwing {
        ReachedSelf(all, old(containers), r);
        outcome := Failed(CreationFailed(r));
      } else {
        KeptFine(all, throwing, disposable, c, r, request.chain, old(containers), containers, trials);
        KeepInstance(c, r);
        outcome := GotInstance(c, r);
      }
      trial := Trial(old(containers), containers, outcome, trials);
    }

    /** Resolves one dependency, with the factory as its dependant. */
    method ResolveDependency(c: nat, r: nat, request: Request, i: nat) returns (outcome: Resolution, ghost trial: Trial)
      requires Valid(all, containers) && Sane(all, containers, c, r, request) && r !in request.chain
      requires i < |all[r].dependencies|
      modifies this
      ensures trial.before == old(containers) && trial.after == containers && trial.outcome == outcome
      ensures Sane(all, containers, c, r, request)
      ensures Resolved(all, throwing, disposable, c, all[r].dependencies[i].target, Asking(all, r, request.chain, i), trial)
      decreases Unvisited(all, request.chain), c, 0
    {
      var next := Asking(all, r, request.chain, i);
      var target := all[r].dependencies[i].target;
      assert Declares(all, r, target);
      ChainExtends(all, containers, c, r, request, next, target);
      outcome, trial := Resolve(c, target, next);
      GrowthKeepsPaths(all, old(containers), containers, request.chain + [r]);
    }

    /** Resolves every dependency of a factory in declaration order, all of
        them even when one fails, and reports the first failure. */
    method ResolveDependencies(c: nat, r: nat, request: Request)
      returns (failure: Option<ResolutionError>, ghost trials: seq<Trial>)
      requires Valid(all, containers) && Sane(all, containers, c, r, request) && r !in request.chain
      modifies this
      ensures Valid(all, containers) && Grows(old(containers), containers)
      ensures SameFor(old(containers), containers, request.chain + [r])
      ensures |trials| == |all[r].dependencies| && Reaching(old(containers), trials) == containers
      ensures Tries(all, throwing, disposable, c, r, request.chain, old(containers), trials)
      ensures failure == FirstError(Outcomes(trials))
      ensures failure.Some? ==> ErrorIsReal(all, throwing, old(containers), c, r, failure.value)
      ensures failure.None? ==> AllMet(all, containers, c, r)
      ensures NewAreMet(all, old(containers), containers) && NewAreFirst(all, old(containers), containers)
      decreases Unvisited(all, request.chain), c, 1
    {
      failure, trials := None, [];
      for i := 0 to |all[r].dependencies|
        invariant |trials| == i && Sane(all, containers, c, r, request)
        invariant Extends(all, request.chain + [r], old(containers), containers)
        invariant Tried(all, throwing, disposable, c, r, request.chain, old(containers), containers, trials, failure)
      {
        ghost var before := containers;
        var outcome;
        ghost var trial;
        outcome, trial := ResolveDependency(c, r, request, i);
        ExtendsInTurn(all, request.chain + [r], old(containers), before, containers);
        TriedOneMore(all, throwing, disposable, c, r, request.chain, old(containers), trials, failure, trial);
        trials := trials + [trial];
        if failure.None? && outcome.Failed? {
          failure := Some(outcome.error);
        }
      }
      if failure.None? {
        AttemptsDecide(all, containers, c, r, Outcomes(trials));
      }
    }

    /** The public entry: a request with an empty chain. What it comes to is the
        only thing that can come of it, and it fails only if something that the
        injectable leads to stands in the way. */
    method ResolveRoot(c: nat, r: nat) returns (outcome: Resolution, ghost trial: Trial)
      requires Valid(all, containers) && c < |containers| && r < |all|
      modifies this
      ensures trial.before == old(containers) && trial.after == containers && trial.outcome == outcome
      ensures Resolved(all, throwing, disposable, c, r, Request(None, false, []), trial)
      ensures outcome.Failed? ==> ErrorIsReal(all, throwing, old(containers), c, r, outcome.error)
    {
      outcome, trial := Resolve(c, r, Request(None, false, []));
    }

    /** What `c` recorded, as the input of its disposal. */
    function RecordedAt(c: nat): Disposal.Recorded
      reads this
      requires c < |containers|
    {
      Disposal.Recorded(containers[c].instances.Keys, containers[c].dependants)
    }

    /** The instances of `c` in the order in which it disposes them. */
    method DisposalOrder(c: nat) returns (order: seq<nat>)
      requires c < |containers|
      ensures Disposal.NoRepeats(order) && Disposal.Elements(order) == containers[c].instances.Keys
      ensures RecordedAt(c).Ordered(order) <==> RecordedAt(c).Acyclic()
    {
      order := Disposal.GetDisposalOrder(RecordedAt(c));
    }
  }
}
