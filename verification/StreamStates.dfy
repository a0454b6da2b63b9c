/** The state of a server stream as a value: what holds of it at all times, and
    the transitions in which the pump has no part. */
module StreamStates {
  import opened Identifiers
  import opened StreamSignals

  /** The fields of a stream, the chunks its source has ready, everything handed
      to the sink, and the account of all that was heard. */
  datatype View = View(
    credits: int,
    granted: bool,
    buffered: Option<Bytes>,
    pendingError: Option<string>,
    sourceEnded: bool,
    finished: bool,
    pumping: bool,
    source: seq<Bytes>,
    events: seq<SinkEvent>,
    books: Books)
  {
    function Remainder(): Bytes {
      if buffered.Some? then buffered.value else []
    }

    /** What holds of the signals given so far, finished or not. */
    predicate Lawful() {
      && 0 <= credits <= MAX_STREAM_CREDITS
      && Ordered(events)
      && (!granted ==> credits == 0 && books.accepted == 0 && buffered.None? && !pumping)
      && (EndsWith(events, End) ==> finished && sourceEnded && Emitted(events) == books.arrived)
      && (finished ==> Emitted(events) <= books.arrived && |Emitted(events)| <= books.accepted)
    }

    /** Byte conservation while unfinished, with `chunk` on its way to the sink. */
    predicate Conserved(chunk: Bytes) {
      && OnlyChunks(events)
      && Emitted(events) + chunk + Remainder() + Flatten(source) == books.arrived
      && |Emitted(events)| + credits == books.accepted
      && (pendingError.Some? ==> !granted)
      && buffered != Some([]) && (forall i | 0 <= i < |source| :: source[i] != [])
    }

    /** The stream agrees with its books, and the books with what was heard. */
    ghost predicate Accounted() {
      books.ended == sourceEnded && Balanced(books, granted, finished, pendingError, events) && books.Exact()
    }

    ghost predicate Fine() {
      Lawful() && (!finished ==> Conserved([])) && Accounted()
    }

    /** A chunk is on its way from the source to the sink. */
    ghost predicate Carries(chunk: Bytes) {
      Lawful() && Accounted() && Conserved(chunk)
    }

    /** Nothing that could be emitted or signalled is held back. */
    predicate Settled() {
      !pumping && (!finished && granted ==> AtRest())
    }

    predicate AtRest() {
      && (credits == 0 || (buffered.None? && source == []))
      && !(sourceEnded && buffered.None? && source == [])
    }

    function Failed(error: string): View {
      if finished then this
      else this.(finished := true, buffered := None, pendingError := None, events := events + [Error(error)])
    }

    function Noted(signal: Signal): View {
      this.(books := books.Noted(signal, false))
    }
  }

  // ------------------------------------------------------------- transitions

  /** What a signal does that starts no pump: it destroys, fails, holds an error
      back, or comes from a source that has ended already. */
  function Quietly(v: View, signal: Signal): View {
    match signal
    case Destroying => v.(finished := true, buffered := None).Noted(signal)
    case Aborting(error) => v.Failed(error).Noted(signal)
    case FailingSource(error) =>
      (if !v.granted && !v.finished then v.(pendingError := Some(error)) else v.Failed(error)).Noted(signal)
    case _ => v.Noted(signal)
  }

  predicate Quiet(v: View, signal: Signal) {
    Stops(signal) || (signal.Arriving? && v.sourceEnded)
  }

  /** What a grant, an arrival or the end of the source does before the pump runs. */
  function Primed(v: View, signal: Signal): View {
    match signal
    case Granting(size) =>
      if v.finished || size <= 0 || v.credits + size > MAX_STREAM_CREDITS then v.Noted(signal)
      else if v.pendingError.Some? then v.Failed(v.pendingError.value).(granted := true).Noted(signal)
      else v.(granted := true, credits := v.credits + size, books := v.books.Noted(signal, true))
    case Arriving(chunk) => v.(source := if chunk == [] then v.source else v.source + [chunk]).Noted(signal)
    case EndingSource => v.(sourceEnded := true).Noted(signal)
    case _ => v
  }

  lemma FailedSound(v: View, error: string)
    requires v.Lawful() && (!v.finished ==> v.Conserved([]))
    ensures v.Failed(error).Lawful() && v.Failed(error).finished
    ensures Chunks(v.Failed(error).events) == Chunks(v.events)
  {
    if !v.finished {
      SignalLast(v.events, Error(error));
      EmittedOneMore(v.events, Error(error));
    }
  }

  lemma DestroyFine(v: View)
    requires v.Fine()
    ensures var v' := Quietly(v, Destroying); v'.Fine() && Later(v, v') && v'.events == v.events
  {
    NotedExactly(v.books, Destroying, false);
    DestroyNoted(v.books, v.granted, v.finished, v.pendingError, v.events);
  }

  /** Noting a signal that neither grants nor delivers leaves the bytes alone. */
  lemma NotedLawful(v: View, signal: Signal)
    requires v.Lawful() && !signal.Arriving?
    ensures v.Noted(signal).Lawful() && (v.Conserved([]) ==> v.Noted(signal).Conserved([]))
  {
  }

  lemma FailedLater(v: View, error: string, signal: Signal)
    requires !signal.Arriving?
    ensures Later(v, v.Failed(error).Noted(signal))
  {
  }

  /** The signal makes the stream fail with the error, if it is not finished. */
  predicate Errs(v: View, signal: Signal, error: string) {
    signal == Aborting(error) || (signal == FailingSource(error) && (v.granted || v.finished))
  }

  lemma ErrorFine(v: View, signal: Signal, error: string)
    requires v.Fine() && !v.finished && Errs(v, signal, error)
    ensures var v' := v.Failed(error).Noted(signal); v'.Fine() && Later(v, v') && Chunks(v'.events) == Chunks(v.events)
  {
    NotedExactly(v.books, signal, false);
    ErrorNoted(v.books, v.granted, v.finished, v.pendingError, v.events, signal);
    FailedSound(v, error);
    NotedLawful(v.Failed(error), signal);
    FailedLater(v, error, signal);
  }

  lemma LateErrorFine(v: View, signal: Signal, error: string)
    requires v.Fine() && v.finished && Errs(v, signal, error)
    ensures var v' := v.Noted(signal); v'.Fine() && Later(v, v') && v'.events == v.events
  {
    NotedExactly(v.books, signal, false);
    ErrorNoted(v.books, v.granted, v.finished, v.pendingError, v.events, signal);
    NotedLawful(v, signal);
  }

  lemma AbortFine(v: View, error: string)
    requires v.Fine()
    ensures var v' := Quietly(v, Aborting(error)); v'.Fine() && Later(v, v') && Chunks(v'.events) == Chunks(v.events)
  {
    if v.finished {
      LateErrorFine(v, Aborting(error), error);
    } else {
      ErrorFine(v, Aborting(error), error);
    }
  }

  lemma HeldBackFine(v: View, error: string)
    requires v.Fine() && !v.granted && !v.finished
    ensures var v' := Quietly(v, FailingSource(error)); v'.Fine() && Later(v, v') && v'.events == v.events
  {
    NotedExactly(v.books, FailingSource(error), false);
    ErrorHeldBack(v.books, v.pendingError, v.events, error);
  }

  lemma SourceFailureFine(v: View, error: string)
    requires v.Fine()
    ensures var v' := Quietly(v, FailingSource(error)); v'.Fine() && Later(v, v') && Chunks(v'.events) == Chunks(v.events)
  {
    if v.finished {
      LateErrorFine(v, FailingSource(error), error);
    } else if v.granted {
      ErrorFine(v, FailingSource(error), error);
    } else {
      HeldBackFine(v, error);
    }
  }

  lemma LateArrivalFine(v: View, chunk: Bytes)
    requires v.Fine() && v.sourceEnded
    ensures var v' := Quietly(v, Arriving(chunk)); v'.Fine() && Later(v, v') && v'.events == v.events
  {
    NotedExactly(v.books, Arriving(chunk), false);
    SourceNoted(v.books, v.granted, v.finished, v.pendingError, v.events, Arriving(chunk));
  }

  /** Quiet signals keep everything in order and emit no chunk. */
  lemma QuietlyFine(v: View, signal: Signal)
    requires v.Fine() && Quiet(v, signal)
    ensures
      var v' := Quietly(v, signal);
      v'.Fine() && Later(v, v') && Chunks(v'.events) == Chunks(v.events) && (v.Settled() ==> v'.Settled())
  {
    match signal
    case Destroying => DestroyFine(v);
    case Aborting(error) => AbortFine(v, error);
    case FailingSource(error) => SourceFailureFine(v, error);
    case Arriving(chunk) => LateArrivalFine(v, chunk);
  }

  lemma CreditFine(v: View, size: int)
    requires v.Fine() && !v.finished && 0 < size && v.credits + size <= MAX_STREAM_CREDITS && v.pendingError.None?
    ensures var v' := Primed(v, Granting(size)); v'.Fine() && Later(v, v') && v'.events == v.events
  {
    NotedExactly(v.books, Granting(size), true);
    GrantTaken(v.books, v.granted, v.events, size);
  }

  lemma GrantFine(v: View, size: int)
    requires v.Fine()
    ensures var v' := Primed(v, Granting(size)); v'.Fine() && Later(v, v') && Chunks(v'.events) == Chunks(v.events)
  {
    var signal := Granting(size);
    NotedExactly(v.books, signal, false);
    if v.finished || size <= 0 || v.credits + size > MAX_STREAM_CREDITS {
      GrantPassedOver(v.books, v.granted, v.finished, v.pendingError, v.events, size, v.credits);
    } else if v.pendingError.Some? {
      FailedSound(v, v.pendingError.value);
      GrantMeetsError(v.books, v.granted, v.pendingError.value, v.events, size);
    } else {
      CreditFine(v, size);
    }
  }

  lemma ArrivalConserves(v: View, chunk: Bytes)
    requires v.Conserved([]) && !v.books.ended
    ensures Primed(v, Arriving(chunk)).Conserved([])
  {
    ChunkArrives(Emitted(v.events), v.Remainder(), v.source, chunk);
  }

  lemma ChunkArrives(emitted: Bytes, remainder: Bytes, source: seq<Bytes>, chunk: Bytes)
    ensures emitted + [] + remainder + Flatten(if chunk == [] then source else source + [chunk])
         == emitted + [] + remainder + Flatten(source) + chunk
  {
    if chunk != [] {
      OneChunkMore(source, chunk);
      Regroup(emitted, [], remainder, Flatten(source), chunk);
    }
  }

  lemma ArrivalFine(v: View, chunk: Bytes)
    requires v.Fine() && !v.sourceEnded
    ensures var v' := Primed(v, Arriving(chunk)); v'.Fine() && Later(v, v') && v'.events == v.events
  {
    NotedExactly(v.books, Arriving(chunk), false);
    SourceNoted(v.books, v.granted, v.finished, v.pendingError, v.events, Arriving(chunk));
    if !v.finished {
      ArrivalConserves(v, chunk);
    }
  }

  lemma EndFine(v: View)
    requires v.Fine()
    ensures var v' := Primed(v, EndingSource); v'.Fine() && Later(v, v') && v'.events == v.events
  {
    NotedExactly(v.books, EndingSource, false);
    SourceNoted(v.books, v.granted, v.finished, v.pendingError, v.events, EndingSource);
  }

  // ---------------------------------------------------------------- the pump

  /** The end is due when source and buffer are drained. */
  lemma EndedFine(v: View)
    requires v.Fine() && v.granted && !v.finished && v.sourceEnded && v.buffered.None? && v.source == []
    ensures var v' := v.(finished := true, events := v.events + [End]); v'.Fine() && Chunks(v'.events) == Chunks(v.events)
  {
    SignalLast(v.events, End);
    EmittedOneMore(v.events, End);
  }

  /** The buffered remainder is taken up. */
  lemma TakenFine(v: View)
    requires v.Fine() && !v.finished && v.buffered.Some?
    ensures var v' := v.(buffered := None); v'.Carries(v.buffered.value)
  {
    TakeUp(Emitted(v.events), v.buffered.value, Flatten(v.source));
  }

  /** Bytes are read off the source. */
  lemma ReadFine(v: View, chunk: Bytes, source: seq<Bytes>)
    requires v.Fine() && !v.finished && v.buffered.None? && chunk + Flatten(source) == Flatten(v.source)
    requires forall i | 0 <= i < |source| :: source[i] != []
    ensures var v' := v.(source := source); v'.Carries(chunk)
  {
    ReadOff(Emitted(v.events), chunk, Flatten(source));
  }

  /** The pump starts and stops. */
  lemma PumpingFine(v: View, pumping: bool)
    requires v.Fine() && v.granted
    ensures v.(pumping := pumping).Fine()
  {
  }

  /** The state after a chunk was cut to size, emitted and its rest buffered. */
  function Delivered(v: View, chunk: Bytes, size: nat): View
    requires size <= |chunk|
  {
    v.(credits := v.credits - size, buffered := if size < |chunk| then Some(chunk[size..]) else None,
       events := v.events + [Chunk(chunk[..size])])
  }

  lemma DeliveredFine(v: View, chunk: Bytes, size: nat)
    requires v.Carries(chunk) && v.granted && !v.finished && v.buffered.None?
    requires size <= |chunk| && size <= v.credits
    ensures var v' := Delivered(v, chunk, size); v'.Fine() && Later(v, v') && Chunks(v'.events) == Chunks(v.events) + 1
  {
    var v' := Delivered(v, chunk, size);
    Cut(Emitted(v.events), chunk, size, Flatten(v.source));
    EmittedOneMore(v.events, Chunk(chunk[..size]));
    assert v'.Remainder() == chunk[size..];
    assert Ordered(v'.events);
  }

  // ---------------------------------------------------------------- progress

  /** What is emitted stays emitted, and nothing follows the end, an error or a destroy. */
  predicate Later(a: View, b: View) {
    && a.events <= b.events && b.books.Continues(a.books)
    && (a.finished ==> b.finished && b.events == a.events && b.books.accepted == a.books.accepted)
    && (a.granted ==> b.granted)
    && b.pumping == a.pumping
  }

  lemma LaterInTurn(a: View, b: View, c: View)
    requires Later(a, b) && Later(b, c)
    ensures Later(a, c)
  {
  }

  /** What was heard in between: the signals, then what the callbacks said, one
      callback for each chunk emitted. */
  predicate Hears(a: View, b: View, signals: seq<Signal>, callbacks: seq<seq<Signal>>) {
    b.books.heard == a.books.heard + signals + Said(callbacks[..Spent(callbacks, Chunks(b.events) - Chunks(a.events))])
  }

  /** A step that emits nothing makes no callback. */
  lemma HearsAlone(a: View, b: View, signal: Signal, callbacks: seq<seq<Signal>>)
    requires b.books.heard == a.books.heard + [signal] && Chunks(b.events) == Chunks(a.events)
    ensures Hears(a, b, [signal], callbacks)
  {
    assert callbacks[..0] == [];
    assert a.books.heard + [signal] + [] == a.books.heard + [signal];
  }

  lemma HearsInTurn(a: View, b: View, c: View, signal: Signal, callbacks: seq<seq<Signal>>)
    requires b.books.heard == a.books.heard + [signal] && b.events == a.events && Hears(b, c, [], callbacks)
    ensures Hears(a, c, [signal], callbacks)
  {
    assert a.books.heard + [signal] + [] == a.books.heard + [signal];
  }

  /** `spent` callbacks were made since `a`, one for each chunk. */
  predicate CalledBack(callbacks: seq<seq<Signal>>, spent: nat, a: View, b: View) {
    && Chunks(a.events) <= Chunks(b.events) && spent == Spent(callbacks, Chunks(b.events) - Chunks(a.events))
    && b.books.heard == a.books.heard + Said(callbacks[..spent])
  }

  lemma NoCallbackYet(callbacks: seq<seq<Signal>>, a: View)
    ensures CalledBack(callbacks, 0, a, a) && callbacks[0..] == callbacks
  {
    assert callbacks[..0] == [];
    assert a.books.heard + [] == a.books.heard;
  }

  lemma OneCallbackMore(callbacks: seq<seq<Signal>>, spent: nat, a: View, b: View, c: View) returns (spent': nat)
    requires CalledBack(callbacks, spent, a, b) && Chunks(c.events) == Chunks(b.events) + 1
    requires c.books.heard == b.books.heard + if spent < |callbacks| then callbacks[spent] else []
    ensures CalledBack(callbacks, spent', a, c)
    ensures callbacks[spent'..] == if spent < |callbacks| then callbacks[spent..][1..] else callbacks[spent..]
  {
    spent' := spent;
    if spent < |callbacks| {
      SaidOneMore(callbacks, spent);
      spent' := spent + 1;
    }
  }

  lemma CalledBackHears(callbacks: seq<seq<Signal>>, spent: nat, a: View, b: View)
    requires CalledBack(callbacks, spent, a, b)
    ensures Hears(a, b, [], callbacks)
  {
    assert a.books.heard + [] == a.books.heard;
  }

  /** One turn: the signal and one callback for each chunk it emitted were
      heard, and only a signal that opens the stream gets it granted. */
  ghost predicate Takes(turn: Turn, a: View, b: View) {
    && Later(a, b) && Hears(a, b, [turn.signal], turn.callbacks) && b.Fine()
    && (!a.granted && !Opens(turn.signal) ==> !b.granted)
  }

  /** The states a stream went through, turn by turn. */
  ghost predicate Passes(turns: seq<Turn>, views: seq<View>) {
    && |views| == |turns| + 1
    && (if turns == [] then views[0].Fine()
        else
          var n := |turns| - 1;
          Passes(turns[..n], views[..n + 1]) && Takes(turns[n], views[n], views[n + 1]))
  }

  lemma PassesOneMore(turns: seq<Turn>, i: nat, views: seq<View>, v: View)
    requires i < |turns| && Passes(turns[..i], views) && Takes(turns[i], views[i], v)
    ensures Passes(turns[..i + 1], views + [v])
  {
    assert turns[..i + 1][..i] == turns[..i] && (views + [v])[..i + 1] == views;
  }

  /** The signals of the turns alone. */
  function Signals(turns: seq<Turn>): (signals: seq<Signal>)
    ensures |signals| == |turns|
  {
    if turns == [] then [] else Signals(turns[..|turns| - 1]) + [turns[|turns| - 1].signal]
  }

  /** As long as a stream is not granted no callback is made, so it has heard
      the signals of its turns and nothing else; and it is those that open it. */
  ghost predicate Unopened(earlier: seq<Signal>, signals: seq<Signal>, v: View) {
    if v.granted then OpeningOf(earlier + signals).Opened? else v.books.heard == earlier + signals
  }

  /** An ungranted stream has emitted nothing, so a step that leaves it so makes no callback. */
  lemma UngrantedHearsAlone(b: View, c: View, signal: Signal, callbacks: seq<seq<Signal>>)
    requires b.Fine() && c.Fine() && Hears(b, c, [signal], callbacks) && !b.granted && !c.granted
    ensures c.books.heard == b.books.heard + [signal]
  {
    assert Chunks(b.events) == 0 && Chunks(c.events) == 0;
    assert callbacks[..0] == [] && Said([]) == [];
  }

  /** A step that gets the stream granted does so by its signal. */
  lemma GrantedBySignal(b: View, c: View, turn: Turn)
    requires b.Fine() && Takes(turn, b, c) && !b.granted && c.granted
    ensures OpeningOf(b.books.heard + [turn.signal]).Opened?
  {
    var said := Said(turn.callbacks[..Spent(turn.callbacks, Chunks(c.events) - Chunks(b.events))]);
    assert c.books.heard == b.books.heard + [turn.signal] + said;
    OpensBySignal(b.books.heard, turn.signal, said);
  }

  lemma OpensBySignal(heard: seq<Signal>, signal: Signal, said: seq<Signal>)
    requires Opens(signal) && !OpeningOf(heard).Opened? && OpeningOf(heard + [signal] + said).Opened?
    ensures OpeningOf(heard + [signal]).Opened?
  {
    assert heard + [signal] + said == heard + ([signal] + said);
    OpeningOneMore(heard, signal);
    OpeningSticks(heard, [signal] + said);
  }

  lemma UnopenedStep(earlier: seq<Signal>, signals: seq<Signal>, b: View, c: View, turn: Turn)
    requires b.Fine() && Takes(turn, b, c) && Unopened(earlier, signals, b)
    ensures Unopened(earlier, signals + [turn.signal], c)
  {
    assert earlier + (signals + [turn.signal]) == earlier + signals + [turn.signal];
    if b.granted {
      OpeningOneMore(earlier + signals, turn.signal);
    } else if c.granted {
      GrantedBySignal(b, c, turn);
    } else {
      UngrantedHearsAlone(b, c, turn.signal, turn.callbacks);
    }
  }

  lemma {:induction false} PassesUnopened(turns: seq<Turn>, views: seq<View>)
    requires Passes(turns, views) && !views[0].granted
    ensures Unopened(views[0].books.heard, Signals(turns), views[|turns|]) && views[|turns|].Fine()
  {
    if turns != [] {
      var n := |turns| - 1;
      PassesUnopened(turns[..n], views[..n + 1]);
      UnopenedStep(views[0].books.heard, Signals(turns[..n]), views[n], views[n + 1], turns[n]);
    } else {
      assert views[0].books.heard + [] == views[0].books.heard;
    }
  }

  // ------------------------------------------------------- what a life shows

  function Lesser(a: int, b: int): int {
    if a <= b then a else b
  }

  /** Between steps an unfinished stream has emitted exactly the first bytes
      the source delivered, as many as were credited. */
  lemma EmittedIsGrantedPrefix(v: View)
    requires v.Fine() && v.Settled() && !v.finished
    ensures
      var arrivals := Arrivals(v.books.heard);
      Emitted(v.events) == arrivals[..Lesser(Credited(v.books.heard, v.books.credited), |arrivals|)]
  {
    if v.granted && v.credits > 0 {
      assert Emitted(v.events) == v.books.arrived;
    } else {
      assert Emitted(v.events) == v.books.arrived[..|Emitted(v.events)|];
    }
  }

  /** Which signals open a stream, and when one is signalled an error before
      it opens: exactly when an abort comes first. */
  lemma BeforeTheFirstGrant(v: View)
    requires v.Fine()
    ensures v.granted <==> OpensEarly(v.books.heard)
    ensures !v.granted ==> (v.events != [] <==> AbortsEarly(v.books.heard))
  {
    OpeningMeans(v.books.heard);
  }

  /** The whole life of a stream that nobody destroys and whose source does
      not fail, as a function of what it heard: unless the grants add up
      beyond the cap, it has emitted the first min(granted, arrived) bytes,
      and it has ended if and only if the source has and all bytes are paid for. */
  lemma UndisturbedLife(v: View)
    requires v.Fine() && v.Settled() && !Stopped(v.books.heard) && Offered(v.books.heard) <= MAX_STREAM_CREDITS
    ensures
      var arrivals, offered := Arrivals(v.books.heard), Offered(v.books.heard);
      && Emitted(v.events) == arrivals[..Lesser(offered, |arrivals|)]
      && (EndsWith(v.events, End) <==> EndingSource in v.books.heard && 0 < offered && |arrivals| <= offered)
      && (v.finished <==> EndsWith(v.events, End))
  {
    if v.finished {
      assert EndsWith(v.events, End);
      OpenedMeansOffered(v.books.heard);
      assert v.books.arrived[..|v.books.arrived|] == v.books.arrived;
    } else {
      EmittedIsGrantedPrefix(v);
      if EndingSource in v.books.heard && 0 < v.books.offered && |v.books.arrived| <= v.books.offered {
        assert Emitted(v.events) == v.books.arrived;
        NothingLeft(v);
      }
    }
  }

  lemma NothingLeft(v: View)
    requires !v.finished && v.Conserved([]) && Emitted(v.events) == v.books.arrived
    ensures v.buffered.None? && v.source == []
  {
    assert |v.Remainder()| == 0 && |Flatten(v.source)| == 0;
  }

  /** How an open stream is over, by what it heard. If it opened with an error
      held back, that is all it signalled. If not, and unless it ended, it is
      finished if and only if a signal stopped it after it opened, and the first
      one to do so tells what it signalled last: the error of an abort or of the
      source, or no error for a plain destroy. One that never opened is finished
      if and only if something was decided, with the error of an abort that did. */
  ghost predicate ShowsClosing(v: View) {
    var heard := v.books.heard;
    && (forall error :: OpensWithError(heard, error) ==> v.events == [Error(error)])
    && (OpensCleanly(heard) && !EndsWith(v.events, End) ==>
          && (v.finished <==> exists k: nat :: Closes(heard, k))
          && forall k: nat | Closes(heard, k) ::
               match heard[k]
               case Aborting(error) => EndsWith(v.events, Error(error))
               case FailingSource(error) => EndsWith(v.events, Error(error))
               case _ => OnlyChunks(v.events))
    && (!v.finished ==> OnlyChunks(v.events))
    && Ordered(v.events)
    && (!v.granted ==>
          && (v.finished <==> exists i :: 0 <= i < |heard| && Decides(heard[i]))
          && forall i | 0 <= i < |heard| && heard[i].Aborting? && (forall j | 0 <= j < i :: !Decides(heard[j])) ::
               v.events == [Error(heard[i].error)])
  }

  lemma ClosingShows(v: View)
    requires v.Fine()
    ensures ShowsClosing(v)
  {
    var heard := v.books.heard;
    forall error | OpensWithError(heard, error)
      ensures v.events == [Error(error)]
    {
      HeldMeans(heard, error);
    }
    OpeningDecided(heard);
    CleanMeans(heard);
    ClosingMeans(heard);
    assert forall k: nat | Closes(heard, k) :: ClosingOf(heard) == Some(heard[k]);
    assert OpensCleanly(heard) && !EndsWith(v.events, End) ==> ClosedBy(v.books.closing, v.finished, v.events);
    if k: nat :| Closes(heard, k) {
      assert ClosingOf(heard) == Some(heard[k]) && Stops(heard[k]);
    }
  }

  /** All of this about a stream between two steps. */
  ghost predicate Shows(v: View) {
    var heard, arrivals := v.books.heard, Arrivals(v.books.heard);
    && v.books.Exact()
    && (!v.finished ==> v.books.accepted >= 0 && Emitted(v.events) == arrivals[..Lesser(v.books.accepted, |arrivals|)])
    && (EndsWith(v.events, End) ==> Emitted(v.events) == arrivals && EndingSource in heard)
    && (v.granted <==> OpensEarly(heard))
    && (!v.granted ==> (v.events != [] <==> AbortsEarly(heard)))
    && ShowsClosing(v)
    && (!Stopped(heard) && Offered(heard) <= MAX_STREAM_CREDITS ==>
          && Emitted(v.events) == arrivals[..Lesser(Offered(heard), |arrivals|)]
          && (EndsWith(v.events, End) <==> EndingSource in heard && 0 < Offered(heard) && |arrivals| <= Offered(heard)))
  }

  lemma LifeShows(v: View)
    requires v.Fine() && v.Settled()
    ensures Shows(v)
  {
    BeforeTheFirstGrant(v);
    ClosingShows(v);
    if !v.finished {
      EmittedIsGrantedPrefix(v);
    }
    if !Stopped(v.books.heard) && Offered(v.books.heard) <= MAX_STREAM_CREDITS {
      UndisturbedLife(v);
    }
  }

  /** How a stream that was not granted at first stands, decided by the signals
      of its turns alone: granted if and only if they open it; otherwise it heard
      just them, and has signalled something if and only if they abort it first. */
  ghost predicate DecidedBy(signals: seq<Signal>, v: View) {
    && (v.granted <==> OpensEarly(signals))
    && (!v.granted ==> v.books.heard == signals && (v.events != [] <==> AbortsEarly(signals)))
  }

  lemma OpeningDecides(earlier: seq<Signal>, signals: seq<Signal>, v: View)
    requires v.Fine() && Unopened(earlier, signals, v)
    ensures DecidedBy(earlier + signals, v)
  {
    OpeningMeans(earlier + signals);
    BeforeTheFirstGrant(v);
  }

  /** What the states a stream went through show in the end. */
  lemma PassesShow(turns: seq<Turn>, views: seq<View>)
    requires Passes(turns, views) && views[|turns|].Settled()
    ensures Shows(views[|turns|])
    ensures !views[0].granted ==> DecidedBy(views[0].books.heard + Signals(turns), views[|turns|])
  {
    LifeShows(views[|turns|]);
    if !views[0].granted {
      PassesUnopened(turns, views);
      OpeningDecides(views[0].books.heard, Signals(turns), views[|turns|]);
    }
  }

  lemma OneLast(earlier: seq<Signal>, signals: seq<Signal>, signal: Signal)
    ensures earlier + (signals + [signal]) == earlier + signals + [signal]
  {
  }

  lemma HearsPlainly(a: View, b: View, signal: Signal)
    requires Hears(a, b, [signal], [])
    ensures b.books.heard == a.books.heard + [signal]
  {
    assert Said([]) == [];
  }

  /** Turns without callbacks are heard as they are. */
  lemma {:induction false} HeardPlainly(turns: seq<Turn>, views: seq<View>)
    requires Passes(turns, views) && forall i | 0 <= i < |turns| :: turns[i].callbacks == []
    ensures views[|turns|].books.heard == views[0].books.heard + Signals(turns)
  {
    if turns == [] {
      assert views[0].books.heard + [] == views[0].books.heard;
    } else {
      var n := |turns| - 1;
      HeardPlainly(turns[..n], views[..n + 1]);
      HearsPlainly(views[n], views[n + 1], turns[n].signal);
      OneLast(views[0].books.heard, Signals(turns[..n]), turns[n].signal);
    }
  }
}
