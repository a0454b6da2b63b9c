/** Disposal order of a container: a depth-first walk over the recorded
    dependants, which lists every instance once and is a topological order
    exactly when the recorded dependants have no cycle. */
module Disposal {

  /** `instances` hold an instance here; `dependants[x]` were resolved against `x`. */
  datatype Recorded = Recorded(instances: set<nat>, dependants: map<nat, set<nat>>) {

    /** `y` must be disposed before `x`. */
    predicate Before(y: nat, x: nat) {
      x in instances && y in instances && x in dependants && y in dependants[x]
    }

    /** A closed walk along the recorded dependants. */
    predicate IsCycle(p: seq<nat>) {
      |p| >= 2 && p[0] == p[|p| - 1] && IsWalk(p)
    }

    predicate IsWalk(p: seq<nat>) {
      forall i | 0 <= i < |p| - 1 :: Before(p[i + 1], p[i])
    }

    ghost predicate Acyclic() {
      forall p :: !IsCycle(p)
    }

    /** Everything that must go before a listed injectable is listed before it. */
    ghost predicate Ordered(order: seq<nat>) {
      forall i, y | 0 <= i < |order| && Before(y, order[i]) :: y in order[..i]
    }
  }

  predicate NoRepeats(s: seq<nat>) {
    forall i, j | 0 <= i < j < |s| :: s[i] != s[j]
  }

  function Elements(s: seq<nat>): set<nat> {
    set x | x in s
  }

  function Position(s: seq<nat>, x: nat): (i: nat)
    requires x in s
    ensures i < |s| && s[i] == x
  {
    if s[0] == x then 0 else 1 + Position(s[1..], x)
  }

  /** Along a walk in an ordered listing positions go down, so no walk closes. */
  lemma {:induction false} WalkGoesDown(r: Recorded, order: seq<nat>, p: seq<nat>, n: nat)
    requires NoRepeats(order) && Elements(order) == r.instances && r.Ordered(order)
    requires r.IsWalk(p) && n < |p| && p[0] in order
    ensures p[n] in order && Position(order, p[n]) + n <= Position(order, p[0])
  {
    if n > 0 {
      WalkGoesDown(r, order, p, n - 1);
      var i := Position(order, p[n - 1]);
      assert r.Before(p[n], order[i]);
      var j :| 0 <= j < i && order[..i][j] == p[n];
      assert p[n] in order;
      assert Position(order, p[n]) == j;
    }
  }

  lemma OrderedMeansAcyclic(r: Recorded, order: seq<nat>)
    requires NoRepeats(order) && Elements(order) == r.instances && r.Ordered(order)
    ensures r.Acyclic()
  {
    forall p | r.IsCycle(p)
      ensures false
    {
      assert r.Before(p[1], p[0]);
      WalkGoesDown(r, order, p, |p| - 1);
    }
  }

  /** A dependant already on the stack closes a cycle. */
  lemma StackCloses(r: Recorded, stack: seq<nat>, i: nat)
    requires r.IsWalk(stack) && i < |stack| && r.Before(stack[i], stack[|stack| - 1])
    ensures !r.Acyclic()
  {
    var p := stack[i..] + [stack[i]];
    assert r.IsCycle(p);
  }

  class DisposalWalk {
    const recorded: Recorded
    var visited: set<nat>
    var result: seq<nat>

    /** Visited injectables are the listed ones and the ones still on the stack. */
    ghost predicate Valid(stack: seq<nat>)
      reads this
    {
      && visited <= recorded.instances
      && NoRepeats(result)
      && Elements(result) !! Elements(stack)
      && visited == Elements(result) + Elements(stack)
      && (recorded.Acyclic() ==> recorded.Ordered(result))
    }

    constructor (recorded: Recorded)
      ensures this.recorded == recorded && visited == {} && result == [] && Valid([])
    {
      this.recorded := recorded;
      visited, result := {}, [];
    }

    method Visit(x: nat, ghost stack: seq<nat>)
      requires Valid(stack) && x in recorded.instances && recorded.IsWalk(stack + [x])
      modifies this
      ensures Valid(stack) && old(visited) <= visited && x in visited && old(result) <= result
      decreases recorded.instances - visited
    {
      if x in visited {
        return;
      }
      visited := visited + {x};
      ghost var deeper := stack + [x];
      assert Elements(deeper) == Elements(stack) + {x};
      if x in recorded.dependants {
        var todo := recorded.dependants[x];
        while todo != {}
          invariant todo <= recorded.dependants[x]
          invariant Valid(deeper) && old(visited) + {x} <= visited && old(result) <= result
          invariant forall y | y in recorded.dependants[x] - todo && y in recorded.instances :: y in visited
          decreases todo
        {
          var y :| y in todo;
          todo := todo - {y};
          if y in recorded.instances {
            assert recorded.Before(y, x);
            assert recorded.IsWalk(deeper + [y]);
            Visit(y, deeper);
          }
        }
      }
      if recorded.Acyclic() {
        forall y | recorded.Before(y, x)
          ensures y in result
        {
          if y !in result {
            var i :| 0 <= i < |deeper| && deeper[i] == y;
            StackCloses(recorded, deeper, i);
          }
        }
      }
      AppendKeepsOrder(recorded, result, x);
      result := result + [x];
    }
  }

  lemma AppendKeepsOrder(r: Recorded, result: seq<nat>, x: nat)
    ensures r.Ordered(result) && (forall y | r.Before(y, x) :: y in result) ==> r.Ordered(result + [x])
    ensures Elements(result + [x]) == Elements(result) + {x}
    ensures NoRepeats(result) && x !in result ==> NoRepeats(result + [x])
  {
    forall i | 0 <= i < |result|
      ensures (result + [x])[..i] == result[..i]
    {
    }
    assert (result + [x])[..|result|] == result;
  }

  /** The order in which a container disposes its instances. */
  method GetDisposalOrder(recorded: Recorded) returns (order: seq<nat>)
    ensures NoRepeats(order) && Elements(order) == recorded.instances
    ensures recorded.Ordered(order) <==> recorded.Acyclic()
  {
    var walk := new DisposalWalk(recorded);
    var todo := recorded.instances;
    while todo != {}
      invariant todo <= recorded.instances
      invariant walk.recorded == recorded && fresh(walk) && walk.Valid([])
      invariant recorded.instances - todo <= walk.visited
      decreases todo
    {
      var x :| x in todo;
      todo := todo - {x};
      walk.Visit(x, []);
    }
    order := walk.result;
    assert Elements([]) == {};
    if recorded.Ordered(order) {
      OrderedMeansAcyclic(recorded, order);
    }
  }
}
