/** Which container answers a request: what an ancestor holds or provides is
    used, and nothing is created or missed below it. */
module ContainerRoutes {
  import opened Identifiers
  import opened Scopes
  import opened Containers

  /** The parent is strictly looser and could host an instance. */
  ghost predicate LooserHost(all: seq<Injectable>, cs: seq<Container>, c: nat, r: nat)
    requires Wired(all, cs) && c < |cs| && r < |all|
  {
    cs[c].parent.Some? &&
    var above := cs[c].parent.value;
    assert WiredContainer(all, cs[c], c) && WiredContainer(all, cs[above], above);
    Place(Effective(all, r)) <= Place(cs[above].scope) < Place(cs[c].scope)
  }

  /** The container leaves a request to its parent: it does not provide the
      injectable, which is neither a plain value nor transient, and an ancestor
      provides or holds it or the parent is a looser host. */
  ghost predicate AsksParent(all: seq<Injectable>, cs: seq<Container>, c: nat, r: nat)
    requires Wired(all, cs) && c < |cs| && r < |all|
  {
    && r !in cs[c].provisions && !all[r].kind.Value? && !all[r].scope.Transient?
    && (!NoneAbove(all, cs, c, r) || LooserHost(all, cs, c, r))
  }

  /** `j` lies on the way from `c` up to its ancestor `k`, ends included. */
  ghost predicate OnTheWay(all: seq<Injectable>, cs: seq<Container>, k: nat, j: nat, c: nat)
    requires Wired(all, cs) && c < |cs|
  {
    j < |cs| && IsAncestor(all, cs, j, c) && IsAncestor(all, cs, k, j)
  }

  /** Container `k` answers what `c` is asked for: it is the first on the way up that does not ask its parent. */
  ghost predicate Answers(all: seq<Injectable>, cs: seq<Container>, k: nat, c: nat, r: nat)
    requires Wired(all, cs) && c < |cs| && r < |all|
  {
    && k < |cs| && IsAncestor(all, cs, k, c) && !AsksParent(all, cs, k, r)
    && forall j: nat | j != k && OnTheWay(all, cs, k, j, c) :: AsksParent(all, cs, j, r)
  }

  /** No container on the way is being disposed. */
  ghost predicate Clear(all: seq<Injectable>, cs: seq<Container>, k: nat, c: nat)
    requires Wired(all, cs) && c < |cs|
  {
    forall j: nat | OnTheWay(all, cs, k, j, c) :: !cs[j].disposing
  }

  /** The request does not repeat its chain and asks for nothing stricter than its dependant. */
  predicate Proper(all: seq<Injectable>, r: nat, request: Request)
    requires WellFounded(all) && r < |all| && (request.dependant.Some? ==> request.dependant.value < |all|)
  {
    r !in request.chain && (request.dependant.Some? ==> Place(Effective(all, r)) <= Place(Effective(all, request.dependant.value)))
  }

  lemma AsksIsDelegating(all: seq<Injectable>, cs: seq<Container>, c: nat, r: nat)
    requires Wired(all, cs) && c < |cs| && r < |all|
    requires forall k | 0 <= k < |cs| :: WiredContainer(all, cs[k], k)
    ensures AsksParent(all, cs, c, r) <==> r !in cs[c].provisions && !all[r].kind.Value? && Delegates(all, cs, c, r)
  {
    NotDelegated(all, cs, c, r);
    assert WiredContainer(all, cs[c], c);
  }

  /** Who is asked for `c` is asked for its parent. */
  lemma AnswersAbove(all: seq<Injectable>, cs: seq<Container>, k: nat, c: nat, r: nat)
    requires Wired(all, cs) && c < |cs| && r < |all| && Answers(all, cs, k, c, r) && k != c
    ensures cs[c].parent.Some? && cs[c].parent.value < c && AsksParent(all, cs, c, r)
    ensures Answers(all, cs, k, cs[c].parent.value, r)
    ensures Clear(all, cs, k, c) <==> !cs[c].disposing && Clear(all, cs, k, cs[c].parent.value)
  {
    assert WiredContainer(all, cs[c], c);
    assert IsAncestor(all, cs, c, c) && OnTheWay(all, cs, k, c, c);
    var above := cs[c].parent.value;
    forall j: nat
      ensures OnTheWay(all, cs, k, j, c) <==> j == c || OnTheWay(all, cs, k, j, above)
    {
    }
  }

  /** A proper request is answered by that container, or refused because one on
      the way is being disposed. */
  lemma {:induction false} RouteIsRight(all: seq<Injectable>, cs: seq<Container>, c: nat, r: nat, request: Request, k: nat)
    requires Wired(all, cs) && Sane(all, cs, c, r, request) && Proper(all, r, request) && Answers(all, cs, k, c, r)
    ensures Sane(all, cs, k, r, request)
    ensures Routed(all, cs, c, r, request) == if Clear(all, cs, k, c) then Routed(all, cs, k, r, request) else Refused(DisposingContainer)
    decreases c
  {
    assert forall i | 0 <= i < |cs| :: WiredContainer(all, cs[i], i);
    assert IsAncestor(all, cs, c, c) && IsAncestor(all, cs, k, k);
    if c != k {
      AnswersAbove(all, cs, k, c, r);
      AsksIsDelegating(all, cs, c, r);
      if !cs[c].disposing {
        RouteIsRight(all, cs, cs[c].parent.value, r, request, k);
      }
    } else if cs[c].disposing {
      assert OnTheWay(all, cs, k, c, c);
    } else {
      forall j: nat | OnTheWay(all, cs, k, j, c)
        ensures j == c
      {
        AncestorsComeFirst(all, cs, j, c);
        AncestorsComeFirst(all, cs, k, j);
      }
    }
  }

  /** Some container answers. */
  lemma {:induction false} SomeoneAnswers(all: seq<Injectable>, cs: seq<Container>, c: nat, r: nat) returns (k: nat)
    requires Wired(all, cs) && c < |cs| && r < |all|
    ensures Answers(all, cs, k, c, r)
    decreases c
  {
    assert WiredContainer(all, cs[c], c);
    assert IsAncestor(all, cs, c, c);
    if AsksParent(all, cs, c, r) {
      assert cs[c].parent.Some? by {
        if cs[c].parent.None? {
          assert NoneAbove(all, cs, c, r);
        }
      }
      k := SomeoneAnswers(all, cs, cs[c].parent.value, r);
      forall j: nat | j != k && OnTheWay(all, cs, k, j, c)
        ensures AsksParent(all, cs, j, r)
      {
        if j != c {
          assert OnTheWay(all, cs, k, j, cs[c].parent.value);
        }
      }
    } else {
      k := c;
      forall j: nat | OnTheWay(all, cs, k, j, c)
        ensures j == c
      {
        AncestorsComeFirst(all, cs, j, c);
        AncestorsComeFirst(all, cs, k, j);
      }
    }
  }

  // ------------------------------------------------------- what comes of it

  /** The first failure of a dependency fails the creation, then a factory that
      throws; otherwise the instance is created. */
  ghost predicate ComesOf(throwing: set<nat>, k: nat, r: nat, trials: seq<Trial>, outcome: Resolution) {
    || (exists i :: 0 <= i < |trials| && trials[i].outcome.Failed? && outcome == trials[i].outcome
               && forall j | 0 <= j < i :: !trials[j].outcome.Failed?)
    || ((forall i | 0 <= i < |trials| :: !trials[i].outcome.Failed?)
        && outcome == if r in throwing then Failed(CreationFailed(r)) else GotInstance(k, r))
  }

  lemma CreationComesOf(throwing: set<nat>, k: nat, r: nat, trials: seq<Trial>)
    ensures ComesOf(throwing, k, r, trials, Creation(throwing, k, r, Outcomes(trials)))
  {
    var i := FirstFailure(Outcomes(trials));
    assert forall j | 0 <= j < |trials| :: Outcomes(trials)[j] == trials[j].outcome;
    if i < |trials| {
      assert trials[i].outcome.Failed?;
    }
  }

  /** A request that `k` answers and that `k` does not provide for comes to the
      instance `k` holds, the lack of one, too strict a scope, or a creation in `k`. */
  lemma AnswerComesTo(all: seq<Injectable>, throwing: set<nat>, disposable: set<nat>, c: nat, r: nat, request: Request, t: Trial, k: nat)
    requires Justified(all, throwing, disposable, c, r, request, t) && Proper(all, r, request)
    requires Answers(all, t.before, k, c, r) && Clear(all, t.before, k, c)
    requires !all[r].kind.Value? && r !in t.before[k].provisions && !t.before[k].scope.Transient?
    ensures
      if !all[r].scope.Transient? && r in t.before[k].instances then t.outcome == GotInstance(k, r) && t.trials == []
      else if all[r].kind.Lazy? then t.outcome == (if request.optional then GotNothing else Failed(NoInstance(r))) && t.trials == []
      else if Place(Effective(all, r)) > Place(t.before[k].scope) then t.outcome == Failed(TooStrict(r)) && t.trials == []
      else && |t.trials| == |all[r].dependencies|
           && ComesOf(throwing, k, r, t.trials, t.outcome)
           && Tries(all, throwing, disposable, k, r, request.chain, Recorded(t.before, k, r, request.dependant), t.trials)
  {
    assert forall i | 0 <= i < |t.before| :: WiredContainer(all, t.before[i], i);
    RouteIsRight(all, t.before, c, r, request, k);
    AsksIsDelegating(all, t.before, k, r);
    assert OnTheWay(all, t.before, k, k, c) by {
      assert IsAncestor(all, t.before, k, k);
    }
    assert Routed(all, t.before, k, r, request) == ToHost(k, r, request.chain);
    CreationComesOf(throwing, k, r, t.trials);
  }

  /** What the topmost holder on the way has is reused, and no instance appears. */
  lemma HeldIsReused(all: seq<Injectable>, throwing: set<nat>, disposable: set<nat>, c: nat, r: nat, request: Request, t: Trial, h: nat)
    requires Justified(all, throwing, disposable, c, r, request, t) && Valid(all, t.before) && Proper(all, r, request)
    requires !all[r].kind.Value? && !all[r].scope.Transient?
    requires h < |t.before| && IsAncestor(all, t.before, h, c) && Clear(all, t.before, h, c)
    requires r in t.before[h].instances && NoneAbove(all, t.before, h, r)
    requires forall j: nat | OnTheWay(all, t.before, h, j, c) :: r !in t.before[j].provisions
    ensures t.outcome == GotInstance(h, r)
    ensures |t.after| == |t.before| && forall k | 0 <= k < |t.before| :: t.after[k].instances == t.before[k].instances
  {
    assert WiredContainer(all, t.before[h], h);
    HolderAnswers(all, t.before, c, r, h);
    assert IsAncestor(all, t.before, h, h) && OnTheWay(all, t.before, h, h, c);
    AnswerComesTo(all, throwing, disposable, c, r, request, t, h);
    RouteIsRight(all, t.before, c, r, request, h);
    AsksIsDelegating(all, t.before, h, r);
  }

  lemma HolderAnswers(all: seq<Injectable>, cs: seq<Container>, c: nat, r: nat, h: nat)
    requires Valid(all, cs) && c < |cs| && r < |all| && !all[r].kind.Value? && !all[r].scope.Transient?
    requires h < |cs| && IsAncestor(all, cs, h, c) && r in cs[h].instances && NoneAbove(all, cs, h, r)
    requires forall j: nat | OnTheWay(all, cs, h, j, c) :: r !in cs[j].provisions
    ensures Answers(all, cs, h, c, r)
  {
    assert WiredContainer(all, cs[h], h);
    assert !ParentHosts(all, cs, h, r);
    forall j: nat | j != h && OnTheWay(all, cs, h, j, c)
      ensures AsksParent(all, cs, j, r)
    {
      assert Offers(cs[h], r);
    }
  }

  /** What the nearest provider on the way provides is used: its value is the
      outcome, and its alias is resolved there in its place. */
  lemma ProvidedIsUsed(all: seq<Injectable>, throwing: set<nat>, disposable: set<nat>, c: nat, r: nat, request: Request, t: Trial, k: nat)
    requires Justified(all, throwing, disposable, c, r, request, t) && Proper(all, r, request)
    requires k < |t.before| && IsAncestor(all, t.before, k, c) && Clear(all, t.before, k, c)
    requires k == c || (!all[r].kind.Value? && !all[r].scope.Transient?)
    requires r in t.before[k].provisions && forall j: nat | j != k && OnTheWay(all, t.before, k, j, c) :: r !in t.before[j].provisions
    ensures
      match t.before[k].provisions[r]
      case ProvidedValue => t.outcome == GotValue(k, r) && t.after == t.before
      case Alias(target) => Justified(all, throwing, disposable, k, target, request.(chain := request.chain + [r]), t)
  {
    var cs := t.before;
    assert forall i | 0 <= i < |cs| :: WiredContainer(all, cs[i], i);
    forall j: nat | j != k && OnTheWay(all, cs, k, j, c)
      ensures AsksParent(all, cs, j, r)
    {
      AncestorsComeFirst(all, cs, j, c);
      AncestorsComeFirst(all, cs, k, j);
      assert Offers(cs[k], r);
    }
    RouteIsRight(all, cs, c, r, request, k);
    assert IsAncestor(all, cs, k, k) && OnTheWay(all, cs, k, k, c);
    if cs[k].provisions[r].Alias? {
      ChainExtends(all, cs, k, r, request, request.(chain := request.chain + [r]), cs[k].provisions[r].target);
    }
  }

  lemma AnswersItself(all: seq<Injectable>, cs: seq<Container>, c: nat, r: nat)
    requires Wired(all, cs) && c < |cs| && r < |all| && !AsksParent(all, cs, c, r) && !cs[c].disposing
    ensures Answers(all, cs, c, c, r) && Clear(all, cs, c, c)
  {
    assert IsAncestor(all, cs, c, c);
    forall j: nat | OnTheWay(all, cs, c, j, c)
      ensures j == c
    {
      AncestorsComeFirst(all, cs, j, c);
      AncestorsComeFirst(all, cs, c, j);
    }
  }

  /** A value that a proper ancestor provides is seen from below if and only if
      the injectable is neither a plain value itself nor transient: for those the
      asking container never looks up. */
  lemma ProvidedAboveSeenIff(all: seq<Injectable>, throwing: set<nat>, disposable: set<nat>, c: nat, r: nat, request: Request, t: Trial, k: nat)
    requires Justified(all, throwing, disposable, c, r, request, t) && Proper(all, r, request)
    requires k < |t.before| && k != c && IsAncestor(all, t.before, k, c) && Clear(all, t.before, k, c)
    requires r in t.before[k].provisions && t.before[k].provisions[r].ProvidedValue?
    requires forall j: nat | j != k && OnTheWay(all, t.before, k, j, c) :: r !in t.before[j].provisions
    ensures t.outcome == GotValue(k, r) <==> !all[r].kind.Value? && !all[r].scope.Transient?
  {
    var cs := t.before;
    if !all[r].kind.Value? && !all[r].scope.Transient? {
      ProvidedIsUsed(all, throwing, disposable, c, r, request, t, k);
    } else {
      assert WiredContainer(all, cs[c], c);
      assert IsAncestor(all, cs, c, c) && OnTheWay(all, cs, k, c, c);
      AnswersItself(all, cs, c, r);
      if !all[r].kind.Value? {
        AnswerComesTo(all, throwing, disposable, c, r, request, t, c);
      }
    }
  }
}
