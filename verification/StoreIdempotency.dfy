/** Creating a run is idempotent under its key for as long as the run exists. */
module StoreIdempotency {
  import opened Identifiers
  import opened StoreSpec
  import opened StoreIndexes
  import opened StoreHistory
  import opened StoreCourses

  /** A run made from a request matches it. */
  lemma NewRunMatches(id: Id, input: CreateRunInput, date: int)
    ensures MatchesInput(id, NewRun(id, input, date), input) && NewRun(id, input, date).idempotencyKey == input.idempotencyKey
  {
  }

  /** Whatever happens to a run, it keeps matching the request it was made from. */
  lemma {:induction false} MatchesForever(t: StoreTurn, ops: seq<StoreOp>, id: Id, input: CreateRunInput)
    requires t.g.HasIssued(id) && id in t.s.runs
    requires MatchesInput(id, t.s.runs[id], input) && t.s.runs[id].idempotencyKey == input.idempotencyKey
    ensures
      var r := StoreRun(t, ops);
      id in r.s.runs ==> MatchesInput(id, r.s.runs[id], input) && r.s.runs[id].idempotencyKey == input.idempotencyKey
    decreases |ops|
  {
    if ops != [] {
      var before := ops[..|ops| - 1];
      MatchesForever(t, before, id, input);
      SourceAdvances(t, before);
      RunsEvolve(StoreRun(t, before), ops[|ops| - 1], id);
    }
  }

  /** The same request, repeated at any later time, gets the same run as long
      as that run exists, and changes nothing. */
  lemma CreationIsIdempotent(g: Source, before: seq<StoreOp>, input: CreateRunInput, wall: int, after: seq<StoreOp>, wall': int)
    requires input.idempotencyKey.Some?
    requires Judge(StoreRun(StoreTurn(EMPTY_STORE, g), before).s, input).Admitted?
    ensures
      var t := StoreRun(StoreTurn(EMPTY_STORE, g), before);
      var later := StoreRun(StoreRun(StoreTurn(EMPTY_STORE, g), before + [CreatingRun(input, wall)]), after);
      NewRunId(t.g) in later.s.runs ==>
        CreateOutcome(later, input) == Returned(NewRunId(t.g)) && CreateRun(later, input, wall') == later
  {
    var start := StoreTurn(EMPTY_STORE, g);
    var t, id := StoreRun(start, before), NewRunId(StoreRun(start, before).g);
    var ops := before + [CreatingRun(input, wall)];
    assert ops[..|ops| - 1] == before;
    var created := StoreRun(start, ops);
    assert created == CreateRun(t, input, wall);
    NewRunMatches(id, input, t.g.Tick(wall).last);
    MatchesForever(created, after, id, input);
    StoreRunAppend(start, ops, after);
    IndexesAlwaysExact(g, ops + after);
    var later := StoreRun(created, after);
    if id in later.s.runs {
      assert Exact(later.s.runs, Index(ByIdempotencyKey, later.s), ByIdempotencyKey);
      assert Occupies(ByIdempotencyKey, later.s.runs[id]) == input.idempotencyKey;
    }
  }

  // ------------------------------------------------- children and child runs

  ghost predicate DistinctKeys(specs: seq<ChildSpec>) {
    forall i, j :: 0 <= i < j < |specs| ==> specs[i].key != specs[j].key
  }

  lemma {:induction false} InsertedRows(children: map<ChildRef, Child>, at: NodeRef, specs: seq<ChildSpec>, c: ChildRef)
    requires DistinctKeys(specs)
    ensures forall i :: 0 <= i < |specs| && c == ChildRef(at, specs[i].key) ==>
              c in InsertChildren(children, at, specs) && InsertChildren(children, at, specs)[c] == NewChild(specs[i])
    ensures (forall i :: 0 <= i < |specs| ==> c != ChildRef(at, specs[i].key)) ==>
              (c in InsertChildren(children, at, specs) <==> c in children)
  {
    if specs != [] {
      var n := |specs| - 1;
      assert forall i | 0 <= i < n :: specs[..n][i] == specs[i];
      InsertedRows(children, at, specs[..n], c);
    }
  }

  lemma KeysOf(at: NodeRef, specs: seq<ChildSpec>)
    requires DistinctKeys(specs)
    ensures |set i | 0 <= i < |specs| :: ChildRef(at, specs[i].key)| == |specs|
  {
    if specs != [] {
      var n := |specs| - 1;
      KeysOf(at, specs[..n]);
      var before := set i | 0 <= i < n :: ChildRef(at, specs[..n][i].key);
      var all := set i | 0 <= i < |specs| :: ChildRef(at, specs[i].key);
      assert all == before + {ChildRef(at, specs[n].key)};
    }
  }

  /** A node whose children were just created takes another call for its
      children if and only if that asks for exactly the same ones, in any order. */
  lemma ChildrenEnsuredAgain(s: Store, at: NodeRef, specs: seq<ChildSpec>, again: seq<ChildSpec>)
    requires at in s.nodes && !HasChildren(s, at) && specs != [] && DistinctKeys(specs)
    ensures ChildrenOutcome(s, at, specs) == Returned(true)
    ensures
      var s' := EnsureChildren(s, at, specs);
      ChildrenOutcome(s', at, again) == if |again| == |specs| && forall i | 0 <= i < |again| :: again[i] in specs then Returned(false) else Thrown
  {
    var s' := EnsureChildren(s, at, specs);
    CreatedChildren(s, at, specs);
    assert HasChildren(s', at) by {
      InsertedRows(s.children, at, specs, ChildRef(at, specs[0].key));
      assert ChildRef(at, specs[0].key) in s'.children;
    }
    forall i | 0 <= i < |again|
      ensures SpecMatches(s', at, again[i]) <==> again[i] in specs
    {
      MatchesIfAsked(s, at, specs, again[i]);
    }
  }

  lemma CreatedChildren(s: Store, at: NodeRef, specs: seq<ChildSpec>)
    requires at in s.nodes && !HasChildren(s, at) && DistinctKeys(specs)
    ensures |ChildrenOf(EnsureChildren(s, at, specs), at)| == |specs|
  {
    var made := set i | 0 <= i < |specs| :: ChildRef(at, specs[i].key);
    forall c: ChildRef
      ensures c in ChildrenOf(EnsureChildren(s, at, specs), at) <==> c in made
    {
      InsertedRows(s.children, at, specs, c);
      InsertedKeys(s.children, at, specs, c);
    }
    assert ChildrenOf(EnsureChildren(s, at, specs), at) == made;
    KeysOf(at, specs);
  }

  lemma MatchesIfAsked(s: Store, at: NodeRef, specs: seq<ChildSpec>, spec: ChildSpec)
    requires at in s.nodes && !HasChildren(s, at) && DistinctKeys(specs)
    ensures SpecMatches(EnsureChildren(s, at, specs), at, spec) <==> spec in specs
  {
    var c := ChildRef(at, spec.key);
    InsertedRows(s.children, at, specs, c);
    InsertedKeys(s.children, at, specs, c);
    if SpecMatches(EnsureChildren(s, at, specs), at, spec) {
      assert c !in s.children;
      var i :| 0 <= i < |specs| && specs[i].key == spec.key;
      assert specs[i] == spec;
    }
  }

  /** A child that was just linked to a new run takes another call to link it if
      and only if that asks for the same task, input and key. */
  lemma ChildRunEnsuredAgain(t: StoreTurn, p: ChildRunParams, wall: int, again: ChildRunParams)
    requires IndexesExact(t.s) && RunIdsIssued(t) && again.child == p.child && p.child in t.s.children
    requires t.s.children[p.child].childRunId.None? && !TerminalNode(t.s.children[p.child].status) && Judge(t.s, ChildRunInput(p)).Admitted?
    ensures ChildRunOutcome(t, p) == Returned(NewRunId(t.g))
    ensures ChildRunOutcome(EnsureChildRun(t, p, wall), again)
         == if again.kind == p.kind && again.name == p.name && again.input == p.input && again.idempotencyKey == p.idempotencyKey
            then Returned(NewRunId(t.g)) else Thrown
  {
  }
}
