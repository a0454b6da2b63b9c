/** The credit-driven pump for server-to-client blob downloads, with sink
    callbacks that may call back into the stream while it is pumping. */
module ServerStreams {
  import opened Identifiers
  import opened StreamSignals
  import opened StreamStates

  class ProtocolServerStream {
    var credits: int
    var granted: bool
    var buffered: Option<Bytes>
    var pendingError: Option<string>
    var sourceEnded: bool
    var finished: bool
    var pumping: bool

    /** The chunks the source has ready to be read. */
    var source: seq<Bytes>

    /** Everything handed to the sink, and the account of all that was heard,
        from outside and from within callbacks. */
    ghost var events: seq<SinkEvent>
    ghost var books: Books

    ghost function Now(): View
      reads this
    {
      View(credits, granted, buffered, pendingError, sourceEnded, finished, pumping, source, events, books)
    }

    ghost predicate Valid()
      reads this
    {
      Now().Fine()
    }

    constructor ()
      ensures Now() == View(0, false, None, None, false, false, false, [], [], BLANK)
      ensures Valid() && Now().Settled()
    {
      credits, granted, buffered, pendingError := 0, false, None, None;
      sourceEnded, finished, pumping, source := false, false, false, [];
      events, books := [], BLANK;
    }

    method Emit(e: SinkEvent)
      modifies this`events
      ensures events == old(events) + [e]
    {
      events := events + [e];
    }

    method Fail(error: string)
      modifies this`finished, this`buffered, this`pendingError, this`events
      ensures Now() == old(Now()).Failed(error)
    {
      if finished {
        return;
      }
      finished := true;
      buffered := None;
      pendingError := None;
      Emit(Error(error));
    }

    method EndStream()
      requires Valid() && granted && !finished && sourceEnded && buffered.None? && source == []
      modifies this`finished, this`events
      ensures Valid() && finished && events == old(events) + [End] && Chunks(events) == old(Chunks(events))
    {
      EndedFine(Now());
      finished := true;
      Emit(End);
    }

    /** Some nonempty run of ready chunks: one chunk, or all of them joined. */
    method Read() returns (chunk: Bytes)
      requires source != [] && forall i | 0 <= i < |source| :: source[i] != []
      modifies this`source
      ensures chunk != [] && chunk + Flatten(source) == old(Flatten(source)) && |source| < old(|source|)
      ensures forall i | 0 <= i < |source| :: source[i] != []
    {
      var k :| 1 <= k <= |source|;
      chunk := Flatten(source[..k]);
      assert source[..k][0] != [];
      FlattenAppend(source[..k], source[k..]);
      assert source == source[..k] + source[k..];
      source := source[k..];
    }

    /** What one sink callback does to the stream while it is pumping. */
    method Reenter(signals: seq<Signal>)
      requires Valid() && pumping
      modifies this
      ensures Valid() && Later(old(Now()), Now())
      ensures books.heard == old(books).heard + signals && Chunks(events) == old(Chunks(events))
      decreases 0, 5
    {
      ghost var start := Now();
      for i := 0 to |signals|
        invariant Valid() && pumping && Later(start, Now())
        invariant books.heard == start.books.heard + signals[..i] && Chunks(events) == Chunks(start.events)
      {
        ghost var before := Now();
        ApplyWithin(signals[i]);
        LaterInTurn(start, before, Now());
        assert signals[..i + 1] == signals[..i] + [signals[i]];
      }
      assert signals[..|signals|] == signals;
    }

    /** One signal from within a sink callback, which makes no further callback. */
    method ApplyWithin(signal: Signal)
      requires Valid() && pumping
      modifies this
      ensures Valid() && Later(old(Now()), Now())
      ensures books.heard == old(books).heard + [signal] && Chunks(events) == old(Chunks(events))
      decreases 0, 4
    {
      ghost var start := Now();
      Apply(signal, []);
      HearsPlainly(start, Now(), signal);
    }

    /** The head of the pump loop: the buffered remainder or a fresh read, if
        there is credit for it; otherwise signals the end when it is due. */
    method Next() returns (chunk: Option<Bytes>)
      requires Valid() && granted && !finished
      modifies this`buffered, this`source, this`finished, this`events
      ensures if chunk.Some? then Now().Carries(chunk.value) else Valid()
      ensures old(events) <= events && Chunks(events) == old(Chunks(events))
      ensures chunk.Some? ==> !finished && buffered.None? && credits > 0 && chunk != Some([]) && events == old(events)
      ensures chunk.Some? && old(buffered).Some? ==> chunk == old(buffered) && source == old(source)
      ensures chunk.Some? && old(buffered).None? ==> |source| < old(|source|)
      ensures chunk.None? ==> source == old(source) && buffered == old(buffered)
      ensures chunk.None? && !finished ==> Now().AtRest()
    {
      if buffered.Some? {
        if credits <= 0 {
          return None;
        }
        var remainder := TakeBuffered();
        chunk := Some(remainder);
      } else if credits <= 0 || source == [] {
        EndIfDrained();
        return None;
      } else {
        var read := ReadSource();
        chunk := Some(read);
      }
    }

    /** With nothing to read or no credit to read with, the end may be due. */
    method EndIfDrained()
      requires Valid() && granted && !finished && buffered.None? && (credits <= 0 || source == [])
      modifies this`finished, this`events
      ensures Valid() && old(events) <= events && Chunks(events) == old(Chunks(events))
      ensures finished || Now().AtRest()
    {
      if sourceEnded && source == [] {
        EndStream();
      }
    }

    /** Takes the buffered remainder up again. */
    method TakeBuffered() returns (chunk: Bytes)
      requires Valid() && !finished && buffered.Some?
      modifies this`buffered
      ensures Now().Carries(chunk) && buffered.None? && chunk != [] && Some(chunk) == old(buffered)
    {
      TakenFine(Now());
      chunk := buffered.value;
      buffered := None;
    }

    /** Reads off the source. */
    method ReadSource() returns (chunk: Bytes)
      requires Valid() && !finished && buffered.None? && source != []
      modifies this`source
      ensures Now().Carries(chunk) && chunk != [] && |source| < old(|source|)
    {
      ghost var before := Now();
      chunk := Read();
      ReadFine(before, chunk, source);
    }

    /** The rest of the loop body: emit what the credits pay for, buffer the remainder. */
    method Deliver(chunk: Bytes)
      requires Now().Carries(chunk) && granted && !finished && buffered.None? && credits > 0
      modifies this`buffered, this`credits, this`events
      ensures Valid() && Now() == Delivered(old(Now()), chunk, if |chunk| > old(credits) then old(credits) else |chunk|)
      ensures Later(old(Now()), Now()) && Chunks(events) == old(Chunks(events)) + 1
    {
      var size := if |chunk| > credits then credits else |chunk|;
      DeliveredFine(Now(), chunk, size);
      if size < |chunk| {
        buffered := Some(chunk[size..]);
      }
      credits := credits - size;
      Emit(Chunk(chunk[..size]));
    }

    function BufferSize(): nat
      reads this
    {
      if buffered.None? then 0 else 1 + |buffered.value|
    }

    /** Emits the next chunk, or is `done` when there is none to be paid for. */
    method EmitNext() returns (done: bool)
      requires Valid() && pumping && granted && !finished
      modifies this`buffered, this`source, this`finished, this`events, this`credits
      ensures Valid() && Later(old(Now()), Now())
      ensures done && !finished ==> Now().AtRest()
      ensures done ==> Chunks(events) == old(Chunks(events)) && source == old(source) && buffered == old(buffered)
      ensures !done ==> Chunks(events) == old(Chunks(events)) + 1
      ensures !done ==> |source| < old(|source|) || (source == old(source) && BufferSize() < old(BufferSize()))
    {
      var chunk := Next();
      done := chunk.None?;
      if chunk.Some? {
        Deliver(chunk.value);
      }
    }

    /** One turn of the pump loop; `done` when it returns from the loop. */
    method PumpOnce(script: seq<seq<Signal>>) returns (rest: seq<seq<Signal>>, done: bool)
      requires Valid() && pumping && granted && !finished
      modifies this
      ensures Valid() && Later(old(Now()), Now())
      ensures done && !finished ==> Now().AtRest()
      ensures done ==> rest == script && books == old(books) && Chunks(events) == old(Chunks(events))
      ensures done ==> source == old(source) && buffered == old(buffered)
      ensures !done ==> Chunks(events) == old(Chunks(events)) + 1
      ensures !done && script != [] ==> rest == script[1..] && books.heard == old(books).heard + script[0]
      ensures !done && script == [] ==> rest == script && books == old(books)
      ensures !done && script == [] ==> |source| < old(|source|) || (source == old(source) && BufferSize() < old(BufferSize()))
      decreases 0, 7
    {
      ghost var start := Now();
      rest := script;
      done := EmitNext();
      if !done {
        ghost var before := Now();
        rest := CallBack(script);
        LaterInTurn(start, before, Now());
      }
    }

    /** The sink callback of one chunk: the next entry of the script, if any. */
    method CallBack(script: seq<seq<Signal>>) returns (rest: seq<seq<Signal>>)
      requires Valid() && pumping
      modifies this
      ensures Valid() && Later(old(Now()), Now()) && Chunks(events) == old(Chunks(events))
      ensures script != [] ==> rest == script[1..] && books.heard == old(books).heard + script[0]
      ensures script == [] ==> rest == script && unchanged(this)
      decreases 0, 6
    {
      rest := script;
      if script != [] {
        rest := script[1..];
        Reenter(script[0]);
      }
    }

    /** Turns the pump until the stream is finished or at rest. */
    method PumpAll(callbacks: seq<seq<Signal>>)
      requires Valid() && pumping && granted
      modifies this
      ensures Valid() && Later(old(Now()), Now()) && Hears(old(Now()), Now(), [], callbacks)
      ensures !finished ==> Now().AtRest()
      decreases 0, 8
    {
      ghost var start := Now();
      NoCallbackYet(callbacks, start);
      var script, done := callbacks, false;
      ghost var spent: nat := 0;
      while !finished && !done
        invariant Valid() && pumping && granted && Later(start, Now())
        invariant CalledBack(callbacks, spent, start, Now()) && script == callbacks[spent..]
        invariant done && !finished ==> Now().AtRest()
        decreases |script|, |source|, BufferSize(), if done then 0 else 1
      {
        ghost var before := Now();
        script, done := PumpOnce(script);
        LaterInTurn(start, before, Now());
        if !done {
          spent := OneCallbackMore(callbacks, spent, start, before, Now());
        }
      }
      CalledBackHears(callbacks, spent, start, Now());
    }

    method Pump(callbacks: seq<seq<Signal>>)
      requires Valid()
      modifies this
      ensures Valid() && Later(old(Now()), Now()) && Hears(old(Now()), Now(), [], callbacks)
      ensures old(pumping || finished || !granted) ==> unchanged(this)
      ensures !old(pumping) ==> Now().Settled()
      decreases if pumping then 0 else 1, 0
    {
      if pumping || finished || !granted {
        NoCallbackYet(callbacks, Now());
        CalledBackHears(callbacks, 0, Now(), Now());
        return;
      }
      PumpingFine(Now(), true);
      pumping := true;
      PumpAll(callbacks);
      PumpingFine(Now(), false);
      pumping := false;
    }

    /** `false` is the protocol violation of granting beyond the cap. */
    method Grant(size: int, callbacks: seq<seq<Signal>>) returns (ok: bool)
      requires Valid()
      modifies this
      ensures Valid() && Later(old(Now()), Now()) && Hears(old(Now()), Now(), [Granting(size)], callbacks)
      ensures ok <==> old(finished) || size <= 0 || old(credits) + size <= MAX_STREAM_CREDITS
      ensures old(finished) || size <= 0 || !ok || old(pendingError).Some? || old(pumping) ==>
        Now() == Primed(old(Now()), Granting(size))
      ensures Primed(old(Now()), Granting(size)).books.Continues(old(books)) && books.Continues(Primed(old(Now()), Granting(size)).books)
      ensures old(Now()).Settled() ==> Now().Settled()
      decreases if pumping then 0 else 1, 2
    {
      ghost var start := Now();
      GrantFine(start, size);
      ok := finished || size <= 0 || credits + size <= MAX_STREAM_CREDITS;
      var run := Credit(size);
      if run {
        PumpPrimed(start, Granting(size), callbacks);
      } else {
        HearsAlone(start, Now(), Granting(size), callbacks);
      }
    }

    /** Everything a grant does before the pump; `run` when the pump is due. */
    method Credit(size: int) returns (run: bool)
      modifies this
      ensures Now() == Primed(old(Now()), Granting(size))
      ensures run <==> !old(finished) && 0 < size && old(credits) + size <= MAX_STREAM_CREDITS && old(pendingError).None?
    {
      if finished || size <= 0 || credits + size > MAX_STREAM_CREDITS {
        books := books.Noted(Granting(size), false);
        return false;
      }
      granted := true;
      if pendingError.Some? {
        Fail(pendingError.value);
        books := books.Noted(Granting(size), false);
        return false;
      }
      credits := credits + size;
      books := books.Noted(Granting(size), true);
      return true;
    }

    /** Runs the pump on what a signal left for it. */
    method PumpPrimed(ghost start: View, signal: Signal, callbacks: seq<seq<Signal>>)
      requires Valid() && Now() == Primed(start, signal) && Later(start, Now())
      requires books.heard == start.books.heard + [signal] && events == start.events
      modifies this
      ensures Valid() && Later(start, Now()) && Hears(start, Now(), [signal], callbacks)
      ensures books.Continues(old(books))
      ensures old(pumping || finished || !granted) ==> unchanged(this)
      ensures !old(pumping) ==> Now().Settled()
      decreases if pumping then 0 else 1, 1
    {
      ghost var before := Now();
      Pump(callbacks);
      LaterInTurn(start, before, Now());
      HearsInTurn(start, before, Now(), signal, callbacks);
    }

    method Destroy()
      requires Valid()
      modifies this
      ensures Now() == Quietly(old(Now()), Destroying)
    {
      finished := true;
      buffered := None;
      books := books.Noted(Destroying, false);
    }

    method SourceFailed(error: string)
      requires Valid()
      modifies this
      ensures Now() == Quietly(old(Now()), FailingSource(error))
    {
      if !granted && !finished {
        pendingError := Some(error);
      } else {
        Fail(error);
      }
      books := books.Noted(FailingSource(error), false);
    }

    /** `destroy(error)`: signals the error, even before the first grant. */
    method Abort(error: string)
      requires Valid()
      modifies this
      ensures Now() == Quietly(old(Now()), Aborting(error))
    {
      Fail(error);
      books := books.Noted(Aborting(error), false);
    }

    /** More bytes from the source, which keeps no empty chunk, and the pump. */
    method Arrive(chunk: Bytes, callbacks: seq<seq<Signal>>)
      requires Valid() && !sourceEnded
      modifies this
      ensures Valid() && Later(old(Now()), Now()) && Hears(old(Now()), Now(), [Arriving(chunk)], callbacks)
      ensures old(pumping || finished || !granted) ==> Now() == Primed(old(Now()), Arriving(chunk))
      ensures old(Now()).Settled() ==> Now().Settled()
      decreases if pumping then 0 else 1, 2
    {
      ghost var start := Now();
      ArrivalFine(start, chunk);
      if chunk != [] {
        source := source + [chunk];
      }
      books := books.Noted(Arriving(chunk), false);
      PumpPrimed(start, Arriving(chunk), callbacks);
    }

    method EndSource(callbacks: seq<seq<Signal>>)
      requires Valid()
      modifies this
      ensures Valid() && Later(old(Now()), Now()) && Hears(old(Now()), Now(), [EndingSource], callbacks)
      ensures old(pumping || finished || !granted) ==> Now() == Primed(old(Now()), EndingSource)
      ensures old(Now()).Settled() ==> Now().Settled()
      decreases if pumping then 0 else 1, 2
    {
      ghost var start := Now();
      EndFine(start);
      MarkEnded();
      PumpPrimed(start, EndingSource, callbacks);
    }

    method MarkEnded()
      modifies this`sourceEnded, this`books
      ensures Now() == Primed(old(Now()), EndingSource)
    {
      sourceEnded := true;
      books := books.Noted(EndingSource, false);
    }

    /** A signal that starts no pump. */
    method ApplyQuietly(signal: Signal)
      requires Valid() && Quiet(Now(), signal)
      modifies this
      ensures Now() == Quietly(old(Now()), signal)
    {
      match signal
      case Destroying => Destroy();
      case Aborting(error) => Abort(error);
      case FailingSource(error) => SourceFailed(error);
      case Arriving(_) => books := books.Noted(signal, false);
    }

    /** One signal from outside, at top level or from within a sink callback. */
    method Apply(signal: Signal, callbacks: seq<seq<Signal>>)
      requires Valid()
      modifies this
      ensures Valid() && Later(old(Now()), Now()) && Hears(old(Now()), Now(), [signal], callbacks)
      ensures old(pumping) ==> Chunks(events) == old(Chunks(events))
      ensures !old(granted) && !Opens(signal) ==> !granted
      ensures old(Now()).Settled() ==> Now().Settled()
      decreases if pumping then 0 else 1, 3
    {
      ghost var start := Now();
      if Stops(signal) || (signal.Arriving? && sourceEnded) {
        QuietlyFine(start, signal);
        ApplyQuietly(signal);
        HearsAlone(start, Now(), signal, callbacks);
      } else if signal.Granting? {
        GrantFine(start, signal.size);
        var _ := Grant(signal.size, callbacks);
      } else if signal.Arriving? {
        Arrive(signal.chunk, callbacks);
      } else {
        EndSource(callbacks);
      }
    }

    /** Any sequence of grants, arrivals, ends, failures and destroys, with any
        re-entrant sink callbacks: `views` are the states in between. */
    method Drive(turns: seq<Turn>) returns (ghost views: seq<View>)
      requires Valid() && Now().Settled()
      modifies this
      ensures Valid() && Now().Settled() && Later(old(Now()), Now())
      ensures Passes(turns, views) && views[0] == old(Now()) && views[|turns|] == Now()
      ensures Shows(Now())
      ensures !old(granted) ==> DecidedBy(old(books).heard + Signals(turns), Now())
    {
      views := [Now()];
      ghost var start := Now();
      for i := 0 to |turns|
        invariant Valid() && Now().Settled() && Later(start, Now())
        invariant Passes(turns[..i], views) && views[0] == start && views[i] == Now()
      {
        ghost var before := Now();
        Take(turns[i]);
        LaterInTurn(start, before, Now());
        PassesOneMore(turns, i, views, Now());
        views := views + [Now()];
      }
      assert turns[..|turns|] == turns;
      PassesShow(turns, views);
    }

    /** One turn between which the stream is settled. */
    method Take(turn: Turn)
      requires Valid() && Now().Settled()
      modifies this
      ensures Valid() && Now().Settled() && Takes(turn, old(Now()), Now())
    {
      Apply(turn.signal, turn.callbacks);
    }
  }

  /** Two turns without callbacks, from a new stream: the first bytes are the granted ones. */
  method GrantThenArrival(size: int, chunk: Bytes) returns (s: ProtocolServerStream)
    requires 0 < size <= MAX_STREAM_CREDITS
    ensures fresh(s) && s.Valid() && s.books.accepted == size && s.books.arrived == chunk && !s.finished
    ensures Emitted(s.events) == chunk[..Lesser(size, |chunk|)]
  {
    s := new ProtocolServerStream();
    var turns := [Turn(Granting(size), []), Turn(Arriving(chunk), [])];
    ghost var views := s.Drive(turns);
    GrantAndArrival(size, chunk);
    TwoPlainTurns(Granting(size), Arriving(chunk), views);
    UndisturbedLife(s.Now());
  }

  lemma TwoPlainTurns(first: Signal, second: Signal, views: seq<View>)
    requires Passes([Turn(first, []), Turn(second, [])], views) && views[0].books.heard == []
    ensures views[2].books.heard == [first, second]
  {
    var turns := [Turn(first, []), Turn(second, [])];
    HeardPlainly(turns, views);
    assert turns[..1] == [Turn(first, [])] && turns[..1][..0] == [];
    assert Signals(turns[..1]) == [first];
  }

  lemma GrantAndArrival(size: int, chunk: Bytes)
    requires 0 < size <= MAX_STREAM_CREDITS
    ensures
      var heard := [Granting(size), Arriving(chunk)];
      Offered(heard) == size && Arrivals(heard) == chunk && !Stopped(heard) && EndingSource !in heard
  {
    var heard := [Granting(size), Arriving(chunk)];
    assert heard[..1] == [Granting(size)] && heard[..1][..0] == [];
    assert Offered(heard[..1]) == size && Arrivals(heard[..1]) == [];
  }

  /** The one way to hear from a stream before its first grant. */
  method AbortBeforeFirstGrant(error: string, callbacks: seq<seq<Signal>>) returns (s: ProtocolServerStream)
    ensures fresh(s) && s.Valid() && s.books.heard == [Aborting(error)]
    ensures !s.granted && s.events == [Error(error)]
  {
    s := new ProtocolServerStream();
    var turns := [Turn(Aborting(error), callbacks)];
    ghost var views := s.Drive(turns);
    assert turns[..0] == [] && Signals(turns) == [Aborting(error)] && [] + Signals(turns) == Signals(turns);
    assert [Aborting(error)][..0] == [];
    assert OpeningOf([Aborting(error)]) == Aborted(error);
    OpeningMeans([Aborting(error)]);
  }
}
