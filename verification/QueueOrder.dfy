/** Waiting commands keep their order: what is added goes to the back. */
module QueueOrder {
  import opened Identifiers
  import opened Commands
  import opened QueueSpec
  import opened QueueInvariants
  import opened QueueTheorems
  import opened DeadLetters

  /** Where the command waits, or the length. */
  function Pos(w: seq<Item>, id: Id): nat {
    First(w, WithId(id))
  }

  ghost predicate IdsApart(w: seq<Item>) {
    forall i, j | 0 <= i < j < |w| :: w[i].id != w[j].id
  }

  /** Of two commands that still wait, the one ahead stays ahead, of a newcomer too. */
  predicate InOrder(w: seq<Item>, w': seq<Item>, a: Id, b: Id) {
    Pos(w, a) < Pos(w, b) && Pos(w', a) < |w'| && Pos(w', b) < |w'| ==> Pos(w', a) < Pos(w', b)
  }

  lemma SoundIdsApart(t: Turn, limit: int)
    requires Sound(t, limit)
    ensures IdsApart(t.q.waiting)
  {
    forall i, j | 0 <= i < j < |t.q.waiting|
      ensures t.q.waiting[i].id != t.q.waiting[j].id
    {
      assert !Clash(t.q.waiting[i], t.q.waiting[j]);
    }
  }

  lemma PosIs(w: seq<Item>, id: Id, i: nat)
    requires IsFirst(w, WithId(id), i)
    ensures Pos(w, id) == i
  {
  }

  /** What stands at the same place has the same position. */
  lemma SameIds(w: seq<Item>, w': seq<Item>, a: Id, b: Id)
    requires |w| == |w'| && forall i | 0 <= i < |w| :: w[i].id == w'[i].id
    ensures InOrder(w, w', a, b)
  {
    PosIs(w', a, Pos(w, a));
    PosIs(w', b, Pos(w, b));
  }

  lemma PrefixPos(w: seq<Item>, w': seq<Item>, id: Id)
    requires w <= w'
    ensures if Pos(w, id) < |w| then Pos(w', id) == Pos(w, id) else Pos(w', id) >= |w|
  {
    if Pos(w, id) < |w| {
      PosIs(w', id, Pos(w, id));
    }
  }

  lemma AppendedInOrder(w: seq<Item>, w': seq<Item>, a: Id, b: Id)
    requires w <= w'
    ensures InOrder(w, w', a, b)
  {
    PrefixPos(w, w', a);
    PrefixPos(w, w', b);
  }

  lemma RemovedPos(w: seq<Item>, i: nat, id: Id)
    requires IdsApart(w) && i < |w|
    ensures
      var w' := RemoveAt(w, i);
      Pos(w', id) < |w'| ==> Pos(w, id) == if Pos(w', id) < i then Pos(w', id) else Pos(w', id) + 1
  {
    var w' := RemoveAt(w, i);
    var j := Pos(w', id);
    if j < |w'| {
      var k := if j < i then j else j + 1;
      assert w'[j] == w[k];
      PosIs(w, id, k);
    }
  }

  lemma RemovedInOrder(w: seq<Item>, i: nat, a: Id, b: Id)
    requires IdsApart(w) && i < |w|
    ensures InOrder(w, RemoveAt(w, i), a, b)
  {
    RemovedPos(w, i, a);
    RemovedPos(w, i, b);
  }

  lemma {:induction false} SparedInOrder(w: seq<Item>, doomed: Doomed, a: Id, b: Id)
    requires IdsApart(w)
    ensures InOrder(w, Spared(w, doomed), a, b)
  {
    if w != [] {
      var n := |w| - 1;
      var kept, w' := Spared(w[..n], doomed), Spared(w, doomed);
      SparedInOrder(w[..n], doomed, a, b);
      SparedMembers(w[..n], doomed);
      PrefixPos(w[..n], w, a);
      PrefixPos(w[..n], w, b);
      PrefixPos(kept, w', a);
      PrefixPos(kept, w', b);
      SparedIds(w, doomed, a);
      SparedIds(w, doomed, b);
    }
  }

  /** A spared command was there before, and is spared where it was. */
  lemma SparedIds(w: seq<Item>, doomed: Doomed, id: Id)
    requires IdsApart(w) && w != []
    ensures
      var n := |w| - 1;
      Pos(Spared(w[..n], doomed), id) < |Spared(w[..n], doomed)| ==> Pos(w[..n], id) < n && w[n].id != id
  {
    var n := |w| - 1;
    var kept := Spared(w[..n], doomed);
    SparedMembers(w[..n], doomed);
    if Pos(kept, id) < |kept| {
      var x := kept[Pos(kept, id)];
      assert x in w[..n];
      var i :| 0 <= i < n && w[..n][i] == x;
      assert w[i].id == id;
    }
  }

  lemma PollInOrder(t: Turn, limit: int, op: QueueOp, a: Id, b: Id)
    requires Sound(t, limit) && op.Claiming?
    ensures InOrder(t.q.waiting, Step(t, limit, op).q.waiting, a, b)
  {
    var g := t.g.Tick(op.wall);
    ReclaimAppends(Turn(t.q, g), 0, op.worker, g.last, limit, op.wall);
    TakenOverSound(t, limit, op.worker, op.wall);
    var r := TakenOver(t, op.worker, limit, op.wall);
    SoundIdsApart(r, limit);
    PrefixPos(t.q.waiting, r.q.waiting, a);
    PrefixPos(t.q.waiting, r.q.waiting, b);
    var i := Pick(r.q.waiting, op.worker, r.g.last);
    if i < |r.q.waiting| {
      RemovedPos(r.q.waiting, i, a);
      RemovedPos(r.q.waiting, i, b);
    }
  }

  /** First come, first in line: no step overtakes, and what comes back goes behind all that wait. */
  lemma StepKeepsOrder(t: Turn, limit: int, op: QueueOp, a: Id, b: Id)
    requires Sound(t, limit)
    ensures InOrder(t.q.waiting, Step(t, limit, op).q.waiting, a, b)
  {
    SoundIdsApart(t, limit);
    var w, w' := t.q.waiting, Step(t, limit, op).q.waiting;
    match op
    case Claiming(_, _, _) => PollInOrder(t, limit, op, a, b);
    case Enqueuing(_, _, _) => if w <= w' { AppendedInOrder(w, w', a, b); } else { SameIds(w, w', a, b); }
    case Dispatching(_, _, _) => AppendedInOrder(w, w', a, b);
    case Releasing(_, _, _, _) => AppendedInOrder(w, w', a, b);
    case Sweeping(date) => SparedInOrder(w, DeadBefore(date), a, b);
    case DroppingRuns(runs) => SparedInOrder(w, OfRuns(runs), a, b);
    case DroppingWaiting(runId) => SparedInOrder(w, OfRuns({runId}), a, b);
    case _ => SameIds(w, w', a, b);
  }
}
