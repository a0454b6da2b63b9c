/** What a server stream hears and what it tells its sink, as plain sequences:
    the reference against which the pump is proved. */
module StreamSignals {
  import opened Identifiers

  type Byte = bv8
  type Bytes = seq<Byte>

  const MAX_STREAM_CREDITS := 0xFFFF_FFFF

  datatype SinkEvent = Chunk(bytes: Bytes) | End | Error(error: string)

  /** What the outside does to a stream: the consumer grants or destroys, the
      source delivers a chunk, ends or fails. */
  datatype Signal =
    | Granting(size: int)
    | Destroying
    | Aborting(error: string)
    | Arriving(chunk: Bytes)
    | EndingSource
    | FailingSource(error: string)

  /** One signal from outside and what each sink callback it triggers does in turn. */
  datatype Turn = Turn(signal: Signal, callbacks: seq<seq<Signal>>)

  // ------------------------------------------------------------------ bytes

  function Flatten(chunks: seq<Bytes>): Bytes {
    if chunks == [] then [] else chunks[0] + Flatten(chunks[1..])
  }

  lemma {:induction false} FlattenAppend(a: seq<Bytes>, b: seq<Bytes>)
    ensures Flatten(a + b) == Flatten(a) + Flatten(b)
  {
    if a == [] {
      assert a + b == b;
    } else {
      FlattenAppend(a[1..], b);
      assert (a + b)[1..] == a[1..] + b;
    }
  }

  lemma OneChunkMore(chunks: seq<Bytes>, chunk: Bytes)
    ensures Flatten(chunks + [chunk]) == Flatten(chunks) + chunk
  {
    FlattenAppend(chunks, [chunk]);
    assert Flatten([chunk]) == chunk + Flatten([]);
  }

  lemma Regroup(emitted: Bytes, chunk: Bytes, remainder: Bytes, unread: Bytes, more: Bytes)
    ensures emitted + chunk + remainder + (unread + more) == emitted + chunk + remainder + unread + more
  {
  }

  lemma ReadOff(emitted: Bytes, chunk: Bytes, unread: Bytes)
    ensures emitted + chunk + [] + unread == emitted + [] + [] + (chunk + unread)
  {
  }

  lemma TakeUp(emitted: Bytes, chunk: Bytes, unread: Bytes)
    ensures emitted + chunk + [] + unread == emitted + [] + chunk + unread
  {
  }

  lemma Cut(emitted: Bytes, chunk: Bytes, size: nat, unread: Bytes)
    requires size <= |chunk|
    ensures (emitted + chunk[..size]) + [] + chunk[size..] + unread == emitted + chunk + [] + unread
  {
    assert chunk == chunk[..size] + chunk[size..];
  }

  // ----------------------------------------------------------------- events

  /** All bytes handed to the sink, in order. */
  function Emitted(events: seq<SinkEvent>): Bytes {
    if events == [] then []
    else Emitted(events[..|events| - 1]) + if events[|events| - 1].Chunk? then events[|events| - 1].bytes else []
  }

  lemma EmittedOneMore(events: seq<SinkEvent>, e: SinkEvent)
    ensures Emitted(events + [e]) == Emitted(events) + if e.Chunk? then e.bytes else []
  {
    assert (events + [e])[..|events + [e]| - 1] == events;
  }

  /** Only the last signal can be an end or an error. */
  predicate Ordered(events: seq<SinkEvent>) {
    forall i | 0 <= i < |events| - 1 :: events[i].Chunk?
  }

  predicate EndsWith(events: seq<SinkEvent>, e: SinkEvent) {
    events != [] && events[|events| - 1] == e
  }

  lemma SignalLast(events: seq<SinkEvent>, e: SinkEvent)
    requires OnlyChunks(events)
    ensures Ordered(events + [e]) && EndsWith(events + [e], e)
  {
  }

  /** How many chunks an ordered listing holds, each of which calls back once. */
  function Chunks(events: seq<SinkEvent>): nat {
    if events == [] || events[|events| - 1].Chunk? then |events| else |events| - 1
  }

  // ---------------------------------------------------------------- signals

  /** The total of all positive grants. */
  function Offered(heard: seq<Signal>): nat {
    if heard == [] then 0
    else
      var last := heard[|heard| - 1];
      Offered(heard[..|heard| - 1]) + if last.Granting? && last.size > 0 then last.size else 0
  }

  /** The total of the grants marked as credited. */
  function Credited(heard: seq<Signal>, credited: seq<bool>): int
    requires |heard| == |credited|
  {
    if heard == [] then 0
    else
      var n := |heard| - 1;
      Credited(heard[..n], credited[..n]) + if credited[n] && heard[n].Granting? then heard[n].size else 0
  }

  /** Everything the source delivered before it ended. */
  function Arrivals(heard: seq<Signal>): Bytes {
    if heard == [] then []
    else
      var before, last := heard[..|heard| - 1], heard[|heard| - 1];
      Arrivals(before) + if last.Arriving? && EndingSource !in before then last.chunk else []
  }

  /** Somebody destroyed the stream, or its source failed. */
  predicate Stopped(heard: seq<Signal>) {
    exists i | 0 <= i < |heard| :: Stops(heard[i])
  }

  predicate Stops(signal: Signal) {
    signal.Destroying? || signal.Aborting? || signal.FailingSource?
  }

  /** The start of a stream's life: waiting for the first grant, perhaps with a
      source error held back; opened by it; or over before it. */
  datatype Opening = Waiting(held: Option<string>) | Opened(held: Option<string>) | Aborted(error: string) | Destroyed

  function OpeningOf(heard: seq<Signal>): Opening {
    if heard == [] then Waiting(None)
    else
      var before := OpeningOf(heard[..|heard| - 1]);
      if before.Waiting? then Hear(before, heard[|heard| - 1]) else before
  }

  function Hear(waiting: Opening, signal: Signal): Opening
    requires waiting.Waiting?
  {
    match signal
    case Granting(_) => if Opens(signal) then Opened(waiting.held) else waiting
    case Destroying => Destroyed
    case Aborting(error) => Aborted(error)
    case FailingSource(error) => Waiting(Some(error))
    case _ => waiting
  }

  lemma OpeningOneMore(heard: seq<Signal>, signal: Signal)
    ensures OpeningOf(heard + [signal]) == if OpeningOf(heard).Waiting? then Hear(OpeningOf(heard), signal) else OpeningOf(heard)
  {
    assert (heard + [signal])[..|heard + [signal]| - 1] == heard;
  }

  /** A stream that opened, aborted or was destroyed stays so. */
  lemma {:induction false} OpeningSticks(heard: seq<Signal>, more: seq<Signal>)
    ensures !OpeningOf(heard).Waiting? ==> OpeningOf(heard + more) == OpeningOf(heard)
    decreases |more|
  {
    if more == [] {
      assert heard + more == heard;
    } else {
      var n := |more| - 1;
      OpeningSticks(heard, more[..n]);
      assert heard + more == heard + more[..n] + [more[n]];
      OpeningOneMore(heard + more[..n], more[n]);
    }
  }

  /** A first grant is accepted when it is positive and within the cap. */
  predicate Opens(signal: Signal) {
    signal.Granting? && 0 < signal.size <= MAX_STREAM_CREDITS
  }

  /** Some abort comes before every destroy and every grant that opens. */
  ghost predicate AbortsEarly(heard: seq<Signal>) {
    exists i :: 0 <= i < |heard| && heard[i].Aborting?
                && forall j | 0 <= j < i :: !heard[j].Destroying? && !Opens(heard[j])
  }

  /** Some grant that opens comes before every destroy and every abort. */
  ghost predicate OpensEarly(heard: seq<Signal>) {
    exists i :: 0 <= i < |heard| && Opens(heard[i])
                && forall j | 0 <= j < i :: !heard[j].Destroying? && !heard[j].Aborting?
  }

  predicate Decides(signal: Signal) {
    Opens(signal) || signal.Destroying? || signal.Aborting?
  }

  /** The first signal that decides the opening, decides it. */
  lemma {:induction false} OpeningDecided(heard: seq<Signal>)
    ensures OpeningOf(heard).Waiting? <==> forall i | 0 <= i < |heard| :: !Decides(heard[i])
    ensures forall i | 0 <= i < |heard| && Decides(heard[i]) && (forall j | 0 <= j < i :: !Decides(heard[j])) ::
              && (OpeningOf(heard).Opened? <==> Opens(heard[i]))
              && (OpeningOf(heard).Aborted? <==> heard[i].Aborting?)
              && (heard[i].Aborting? ==> OpeningOf(heard) == Aborted(heard[i].error))
  {
    if heard != [] {
      var before := heard[..|heard| - 1];
      OpeningDecided(before);
      assert forall i | 0 <= i < |before| :: before[i] == heard[i];
    }
  }

  lemma {:induction false} FirstDecision(heard: seq<Signal>, n: nat) returns (i: nat)
    requires n < |heard| && Decides(heard[n])
    ensures i <= n && Decides(heard[i]) && forall j | 0 <= j < i :: !Decides(heard[j])
    decreases n
  {
    i := n;
    if j :| 0 <= j < n && Decides(heard[j]) {
      i := FirstDecision(heard, j);
    }
  }

  /** When a stream opens, and when it aborts before it opens. */
  lemma OpeningMeans(heard: seq<Signal>)
    ensures OpeningOf(heard).Aborted? <==> AbortsEarly(heard)
    ensures OpeningOf(heard).Opened? <==> OpensEarly(heard)
  {
    OpeningDecided(heard);
    if n :| 0 <= n < |heard| && Decides(heard[n]) {
      var i := FirstDecision(heard, n);
      assert forall j | 0 <= j < i :: !Decides(heard[j]);
      DecisionIsFirst(heard, i);
    } else {
      assert forall i | 0 <= i < |heard| :: !Decides(heard[i]);
    }
  }

  lemma DecisionIsFirst(heard: seq<Signal>, i: nat)
    requires i < |heard| && Decides(heard[i]) && forall j | 0 <= j < i :: !Decides(heard[j])
    ensures AbortsEarly(heard) <==> heard[i].Aborting?
    ensures OpensEarly(heard) <==> Opens(heard[i])
  {
    forall k | 0 <= k < |heard| && k != i && Decides(heard[k])
      ensures k > i
    {
    }
  }

  /** The stream opens with nothing held back: the grant that opens it comes
      before every destroy, abort and failure of the source. */
  ghost predicate OpensCleanly(heard: seq<Signal>) {
    exists i :: 0 <= i < |heard| && Opens(heard[i]) && forall j | 0 <= j < i :: !Stops(heard[j])
  }

  /** The last failure of the source is this one. */
  ghost predicate FailedLast(heard: seq<Signal>, error: string) {
    exists k :: 0 <= k < |heard| && heard[k] == FailingSource(error) && forall j | k < j < |heard| :: !heard[j].FailingSource?
  }

  /** Signal `i` is the first to decide the opening, and opens the stream. */
  predicate OpensAt(heard: seq<Signal>, i: nat) {
    i < |heard| && Opens(heard[i]) && forall j | 0 <= j < i :: !Decides(heard[j])
  }

  /** The stream opens with this error held back, the last the source failed with before. */
  ghost predicate OpensWithError(heard: seq<Signal>, error: string) {
    exists i: nat :: OpensAt(heard, i) && FailedLast(heard[..i], error)
  }

  /** A stream that opens cleanly does so by the first signal that opens or stops. */
  lemma {:induction false} CleanMeans(heard: seq<Signal>)
    ensures OpeningOf(heard) == Waiting(None) <==> forall i | 0 <= i < |heard| :: !Opens(heard[i]) && !Stops(heard[i])
    ensures OpeningOf(heard) == Opened(None) <==> OpensCleanly(heard)
  {
    if heard != [] {
      var n := |heard| - 1;
      CleanMeans(heard[..n]);
      assert forall i | 0 <= i < n :: heard[..n][i] == heard[i];
      if OpensCleanly(heard[..n]) {
        var i :| 0 <= i < n && Opens(heard[..n][i]) && forall j | 0 <= j < i :: !Stops(heard[..n][j]);
        assert Opens(heard[i]) && forall j | 0 <= j < i :: !Stops(heard[j]);
      } else if OpensCleanly(heard) {
        var i :| 0 <= i < |heard| && Opens(heard[i]) && forall j | 0 <= j < i :: !Stops(heard[j]);
        assert i == n;
        assert forall j | 0 <= j < n :: !Opens(heard[..n][j]);
      }
    }
  }

  lemma FailedLastOneMore(heard: seq<Signal>, signal: Signal, error: string)
    ensures FailedLast(heard + [signal], error)
       <==> if signal.FailingSource? then signal.error == error else FailedLast(heard, error)
  {
    var more := heard + [signal];
    assert more[|heard|] == signal && forall j | 0 <= j < |heard| :: more[j] == heard[j];
    if FailedLast(heard, error) && !signal.FailingSource? {
      var k :| 0 <= k < |heard| && heard[k] == FailingSource(error) && forall j | k < j < |heard| :: !heard[j].FailingSource?;
      assert more[k] == FailingSource(error);
    }
  }

  lemma OpensWithErrorOneMore(heard: seq<Signal>, signal: Signal, error: string)
    ensures OpensWithError(heard + [signal], error)
       <==> OpensWithError(heard, error) || (OpensAt(heard + [signal], |heard|) && FailedLast(heard, error))
  {
    var more := heard + [signal];
    assert forall j | 0 <= j < |heard| :: more[j] == heard[j] && more[..j] == heard[..j];
    assert more[..|heard|] == heard;
    if i: nat :| OpensAt(heard, i) && FailedLast(heard[..i], error) {
      assert OpensAt(more, i) && more[..i] == heard[..i];
    }
    if i: nat :| OpensAt(more, i) && FailedLast(more[..i], error) {
      if i < |heard| {
        assert OpensAt(heard, i) && more[..i] == heard[..i];
      }
    }
  }

  /** The error held back is the last one the source failed with before anything decides. */
  lemma {:induction false} HeldMeans(heard: seq<Signal>, error: string)
    ensures OpeningOf(heard) == Waiting(Some(error)) <==> (forall j | 0 <= j < |heard| :: !Decides(heard[j])) && FailedLast(heard, error)
    ensures OpeningOf(heard) == Opened(Some(error)) <==> OpensWithError(heard, error)
  {
    if heard != [] {
      var n := |heard| - 1;
      var before := heard[..n];
      HeldMeans(before, error);
      assert heard == before + [heard[n]] && forall i | 0 <= i < n :: before[i] == heard[i];
      OpeningDecided(before);
      FailedLastOneMore(before, heard[n], error);
      OpensWithErrorOneMore(before, heard[n], error);
    }
  }

  /** The first signal to stop the stream after it opened. */
  function ClosingOf(heard: seq<Signal>): Option<Signal> {
    if heard == [] then None
    else
      var n := |heard| - 1;
      var before := ClosingOf(heard[..n]);
      if before.None? && OpeningOf(heard[..n]).Opened? && Stops(heard[n]) then Some(heard[n]) else before
  }

  /** The signal stops an open stream, and no earlier one did. */
  ghost predicate Closes(heard: seq<Signal>, k: nat) {
    k < |heard| && Stops(heard[k]) && OpensEarly(heard[..k]) && forall j: nat | j < k && Stops(heard[j]) :: !OpensEarly(heard[..j])
  }

  /** No signal stopped the stream after it opened. */
  ghost predicate Unclosed(heard: seq<Signal>) {
    forall j: nat | j < |heard| && Stops(heard[j]) :: !OpensEarly(heard[..j])
  }

  lemma ClosesOneMore(heard: seq<Signal>, signal: Signal)
    ensures Unclosed(heard + [signal]) <==> Unclosed(heard) && !(Stops(signal) && OpensEarly(heard))
    ensures forall k: nat | k < |heard| :: Closes(heard + [signal], k) <==> Closes(heard, k)
    ensures Closes(heard + [signal], |heard|) <==> Stops(signal) && OpensEarly(heard) && Unclosed(heard)
  {
    var more := heard + [signal];
    assert more[|heard|] == signal && more[..|heard|] == heard;
    assert forall j: nat | j < |heard| :: more[j] == heard[j] && more[..j] == heard[..j];
  }

  /** Which signal closes a stream. */
  lemma {:induction false} ClosingMeans(heard: seq<Signal>)
    ensures ClosingOf(heard).None? <==> Unclosed(heard)
    ensures forall k: nat | Closes(heard, k) :: ClosingOf(heard) == Some(heard[k])
    ensures ClosingOf(heard).Some? ==> exists k: nat :: Closes(heard, k)
  {
    if heard != [] {
      var n := |heard| - 1;
      var before := heard[..n];
      ClosingMeans(before);
      OpeningMeans(before);
      ClosesOneMore(before, heard[n]);
      assert heard == before + [heard[n]];
      assert forall k: nat | Closes(heard, k) && k < n :: Closes(before, k);
      if k: nat :| Closes(before, k) {
        assert Closes(heard, k);
      }
    }
  }

  // ---------------------------------------------------------------- account

  /** What the opening says about the stream. */
  predicate Agrees(opening: Opening, granted: bool, finished: bool, pendingError: Option<string>, events: seq<SinkEvent>) {
    match opening
    case Waiting(held) => !granted && !finished && events == [] && pendingError == held
    case Opened(held) =>
      granted && (held.Some? ==> finished && events == [Error(held.value)]) && (!finished ==> pendingError.None?)
    case Aborted(error) => !granted && finished && events == [Error(error)]
    case Destroyed => !granted && finished && events == []
  }

  /** The running account of a stream: what it heard, which grants were
      credited, and the totals that follow from both. */
  datatype Books = Books(heard: seq<Signal>, credited: seq<bool>, offered: nat, accepted: int, arrived: Bytes,
                         ended: bool, stopped: bool, opening: Opening, closing: Option<Signal>)
  {
    /** The totals are those of the signals. */
    ghost predicate Exact() {
      && |credited| == |heard|
      && offered == Offered(heard) && accepted == Credited(heard, credited) && arrived == Arrivals(heard)
      && (ended <==> EndingSource in heard) && (stopped <==> Stopped(heard))
      && opening == OpeningOf(heard) && closing == ClosingOf(heard)
    }

    /** One more signal, and whether it was a grant that was credited. */
    function Noted(signal: Signal, took: bool): Books {
      Books(heard + [signal], credited + [took],
            if signal.Granting? && signal.size > 0 then offered + signal.size else offered,
            if took && signal.Granting? then accepted + signal.size else accepted,
            if signal.Arriving? && !ended then arrived + signal.chunk else arrived,
            ended || signal == EndingSource,
            stopped || Stops(signal),
            if opening.Waiting? then Hear(opening, signal) else opening,
            if closing.None? && opening.Opened? && Stops(signal) then Some(signal) else closing)
    }

    /** Nothing that was written changes. */
    predicate Continues(earlier: Books) {
      && earlier.heard <= heard && earlier.credited <= credited
      && earlier.accepted <= accepted && earlier.arrived <= arrived
      && (earlier.ended ==> ended && arrived == earlier.arrived)
    }
  }

  const BLANK := Books([], [], 0, 0, [], false, false, Waiting(None), None)

  lemma NotedExactly(books: Books, signal: Signal, took: bool)
    requires books.Exact()
    ensures books.Noted(signal, took).Exact()
  {
    TotalsOneMore(books.heard, books.credited, signal, took);
    StoppedOneMore(books.heard, signal);
  }

  lemma TotalsOneMore(heard: seq<Signal>, credited: seq<bool>, signal: Signal, took: bool)
    requires |heard| == |credited|
    ensures Offered(heard + [signal]) == if signal.Granting? && signal.size > 0 then Offered(heard) + signal.size else Offered(heard)
    ensures Credited(heard + [signal], credited + [took])
         == if took && signal.Granting? then Credited(heard, credited) + signal.size else Credited(heard, credited)
    ensures Arrivals(heard + [signal])
         == if signal.Arriving? && EndingSource !in heard then Arrivals(heard) + signal.chunk else Arrivals(heard)
    ensures OpeningOf(heard + [signal])
         == if OpeningOf(heard).Waiting? then Hear(OpeningOf(heard), signal) else OpeningOf(heard)
    ensures ClosingOf(heard + [signal])
         == if ClosingOf(heard).None? && OpeningOf(heard).Opened? && Stops(signal) then Some(signal) else ClosingOf(heard)
  {
    var more, marks := heard + [signal], credited + [took];
    assert more[..|more| - 1] == heard && marks[..|more| - 1] == credited;
    assert Arrivals(heard) + [] == Arrivals(heard);
  }

  lemma StoppedOneMore(heard: seq<Signal>, signal: Signal)
    ensures Stopped(heard + [signal]) <==> Stopped(heard) || Stops(signal)
  {
    var more := heard + [signal];
    assert forall i | 0 <= i < |heard| :: more[i] == heard[i];
    assert more[|heard|] == signal;
    if Stopped(heard) {
      var i :| 0 <= i < |heard| && Stops(heard[i]);
      assert Stops(more[i]);
    }
  }

  predicate OnlyChunks(events: seq<SinkEvent>) {
    forall i | 0 <= i < |events| :: events[i].Chunk?
  }

  /** How an open stream is closed: by the error of an abort or of its source,
      which it signals, or by a destroy, which it does not. */
  predicate ClosedBy(closing: Option<Signal>, finished: bool, events: seq<SinkEvent>) {
    match closing
    case None => !finished
    case Some(Aborting(error)) => finished && EndsWith(events, Error(error))
    case Some(FailingSource(error)) => finished && EndsWith(events, Error(error))
    case Some(_) => finished && OnlyChunks(events)
  }

  /** The stream agrees with its books: credits stay within the offers, the
      opening is what the first signals make it, it is finished for a reason
      and closed as the first signal to stop it says,
      and a positive grant is passed over only at the cap. */
  predicate Balanced(books: Books, granted: bool, finished: bool, pendingError: Option<string>, events: seq<SinkEvent>) {
    && 0 <= books.accepted <= books.offered
    && Agrees(books.opening, granted, finished, pendingError, events)
    && (finished ==> EndsWith(events, End) || books.stopped)
    && (books.opening.Waiting? && books.opening.held.Some? ==> books.stopped)
    && (!finished && books.offered <= MAX_STREAM_CREDITS ==> books.accepted == books.offered)
    && (books.opening == Opened(None) && !EndsWith(events, End) ==> ClosedBy(books.closing, finished, events))
    && (!books.opening.Opened? ==> books.closing.None?)
  }

  lemma GrantPassedOver(books: Books, granted: bool, finished: bool, held: Option<string>, events: seq<SinkEvent>, size: int, credits: int)
    requires Balanced(books, granted, finished, held, events)
    requires finished || size <= 0 || (credits + size > MAX_STREAM_CREDITS && credits <= books.accepted && (!granted ==> credits == 0))
    ensures Balanced(books.Noted(Granting(size), false), granted, finished, held, events)
  {
  }

  lemma GrantTaken(books: Books, granted: bool, events: seq<SinkEvent>, size: int)
    requires Balanced(books, granted, false, None, events) && 0 < size && (!granted ==> size <= MAX_STREAM_CREDITS)
    ensures Balanced(books.Noted(Granting(size), true), true, false, None, events)
  {
  }

  lemma GrantMeetsError(books: Books, granted: bool, error: string, events: seq<SinkEvent>, size: int)
    requires Balanced(books, granted, false, Some(error), events) && Opens(Granting(size))
    ensures Balanced(books.Noted(Granting(size), false), true, true, None, [Error(error)]) && events == []
  {
  }

  lemma DestroyNoted(books: Books, granted: bool, finished: bool, held: Option<string>, events: seq<SinkEvent>)
    requires Balanced(books, granted, finished, held, events) && (!finished ==> OnlyChunks(events))
    ensures Balanced(books.Noted(Destroying, false), granted, true, held, events)
  {
  }

  /** An abort, or a failure of the source after the first grant. */
  lemma ErrorNoted(books: Books, granted: bool, finished: bool, held: Option<string>, events: seq<SinkEvent>, signal: Signal)
    requires Balanced(books, granted, finished, held, events) && (!finished ==> OnlyChunks(events))
    requires signal.Aborting? || (signal.FailingSource? && (granted || finished))
    ensures Balanced(books.Noted(signal, false), granted, true,
                     if finished then held else None, if finished then events else events + [Error(signal.error)])
  {
    if !finished {
      SignalLast(events, Error(signal.error));
    }
  }

  lemma ErrorHeldBack(books: Books, held: Option<string>, events: seq<SinkEvent>, error: string)
    requires Balanced(books, false, false, held, events)
    ensures Balanced(books.Noted(FailingSource(error), false), false, false, Some(error), events)
  {
  }

  lemma SourceNoted(books: Books, granted: bool, finished: bool, held: Option<string>, events: seq<SinkEvent>, signal: Signal)
    requires Balanced(books, granted, finished, held, events) && (signal.Arriving? || signal.EndingSource?)
    ensures Balanced(books.Noted(signal, false), granted, finished, held, events)
  {
  }

  /** A stream that opened was offered something. */
  lemma {:induction false} OpenedMeansOffered(heard: seq<Signal>)
    ensures OpeningOf(heard).Opened? ==> Offered(heard) > 0
  {
    if heard != [] {
      OpenedMeansOffered(heard[..|heard| - 1]);
    }
  }

  // ------------------------------------------------------- turns and scripts

  /** What the callbacks say, one after the other. */
  function Said(callbacks: seq<seq<Signal>>): seq<Signal> {
    if callbacks == [] then [] else Said(callbacks[..|callbacks| - 1]) + callbacks[|callbacks| - 1]
  }

  lemma SaidOneMore(callbacks: seq<seq<Signal>>, n: nat)
    requires n < |callbacks|
    ensures Said(callbacks[..n + 1]) == Said(callbacks[..n]) + callbacks[n]
  {
    assert callbacks[..n + 1][..n] == callbacks[..n];
  }

  /** How many callbacks a number of new chunks makes. */
  function Spent(callbacks: seq<seq<Signal>>, chunks: int): (n: nat)
    ensures n <= |callbacks|
  {
    if chunks <= 0 then 0 else if chunks <= |callbacks| then chunks else |callbacks|
  }
}
