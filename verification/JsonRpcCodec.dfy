/** The JSON codec of RPC messages: the stream table, the frames both peers
    write, the decoder they share, and what a round trip preserves. */
module JsonRpcCodecs {
  import opened Identifiers
  import opened BinaryFrames
  import opened JsonTrees

  // ----------------------------------------------------------- stream ids

  /** Stream ids count from 0 to 2^32 - 2 and start again. */
  const MAX_UINT32: nat := 0xffff_ffff

  function StreamIdAt(counter: nat): nat {
    if counter >= MAX_UINT32 then 0 else counter
  }

  /** The next `n` ids the counter hands out. */
  function IssuedIds(counter: nat, n: nat): (ids: seq<nat>)
    ensures |ids| == n
    decreases n
  {
    if n == 0 then [] else [StreamIdAt(counter)] + IssuedIds(StreamIdAt(counter) + 1, n - 1)
  }

  function CounterAfter(counter: nat, n: nat): nat
    decreases n
  {
    if n == 0 then counter else CounterAfter(StreamIdAt(counter) + 1, n - 1)
  }

  lemma {:induction false} IssuedIdsClosedForm(counter: nat, n: nat, k: nat)
    requires counter <= MAX_UINT32 && k < n
    ensures IssuedIds(counter, n)[k] == (counter + k) % MAX_UINT32
    decreases n
  {
    if k > 0 {
      IssuedIdsClosedForm(StreamIdAt(counter) + 1, n - 1, k - 1);
    }
  }

  lemma {:induction false} IssuedIdsSplit(counter: nat, m: nat, n: nat)
    ensures IssuedIds(counter, m + n) == IssuedIds(counter, m) + IssuedIds(CounterAfter(counter, m), n)
    ensures CounterAfter(counter, m + n) == CounterAfter(CounterAfter(counter, m), n)
    decreases m
  {
    if m > 0 {
      IssuedIdsSplit(StreamIdAt(counter) + 1, m - 1, n);
    }
  }

  // ---------------------------------------------------- the stream table

  const NO_STREAMS := Record([], [])

  /** Assigns a property: in place when the key is there, at the end otherwise. */
  function Put(keys: seq<string>, items: seq<Tree>, key: string, item: Tree): (table: Tree)
    requires |keys| == |items|
    ensures table.Record? && |table.keys| == |table.items|
  {
    if keys == [] then Record([key], [item])
    else if keys[0] == key then Record(keys, [item] + items[1..])
    else
      var rest := Put(keys[1..], items[1..], key, item);
      Record([keys[0]] + rest.keys, [items[0]] + rest.items)
  }

  predicate IsTable(table: Tree) {
    table.Record? && |table.keys| == |table.items|
  }

  /** The table after each id was given its metadata, in order. */
  function Filled(table: Tree, ids: seq<nat>, metadata: seq<Tree>): (filled: Tree)
    requires IsTable(table) && |ids| == |metadata|
    ensures IsTable(filled)
    decreases |ids|
  {
    if ids == [] then table
    else Filled(Put(table.keys, table.items, Decimal(ids[0]), metadata[0]), ids[1..], metadata[1..])
  }

  lemma {:induction false} PutFinds(keys: seq<string>, items: seq<Tree>, key: string, item: Tree, sought: string)
    requires |keys| == |items|
    ensures var table := Put(keys, items, key, item);
            Find(table.keys, table.items, sought) == if sought == key then Some(item) else Find(keys, items, sought)
  {
    if keys != [] && keys[0] != key {
      PutFinds(keys[1..], items[1..], key, item, sought);
    }
  }

  lemma {:induction false} PutKeys(keys: seq<string>, items: seq<Tree>, key: string, item: Tree)
    requires |keys| == |items| && Distinct(keys)
    ensures Distinct(Put(keys, items, key, item).keys)
    ensures forall other :: other in Put(keys, items, key, item).keys <==> other in keys || other == key
  {
    if keys != [] && keys[0] != key {
      PutKeys(keys[1..], items[1..], key, item);
      assert keys == [keys[0]] + keys[1..];
      assert keys[0] !in keys[1..];
    }
  }

  lemma {:induction false} PutItems(keys: seq<string>, items: seq<Tree>, key: string, item: Tree)
    requires |keys| == |items| && SendableAll(items) && BlobsOf(items) == [] && Plain(item)
    ensures var put := Put(keys, items, key, item).items; SendableAll(put) && BlobsOf(put) == []
  {
    var put := Put(keys, items, key, item).items;
    PlainItems(put);
    if keys != [] {
      PlainItems(items);
      if keys[0] == key {
        assert put[1..] == items[1..];
      } else {
        PutItems(keys[1..], items[1..], key, item);
        assert put[1..] == Put(keys[1..], items[1..], key, item).items;
      }
    }
  }

  lemma PutPlain(keys: seq<string>, items: seq<Tree>, key: string, item: Tree)
    requires |keys| == |items| && Plain(Record(keys, items)) && Plain(item)
    ensures Plain(Put(keys, items, key, item)) && key in Put(keys, items, key, item).keys
  {
    PutKeys(keys, items, key, item);
    PutItems(keys, items, key, item);
  }

  /** Plain items are a plain head and plain items after it. */
  lemma PlainItems(items: seq<Tree>)
    requires items != []
    ensures SendableAll(items) && BlobsOf(items) == []
       <==> Plain(items[0]) && SendableAll(items[1..]) && BlobsOf(items[1..]) == []
  {
  }

  lemma {:induction false} FilledPlain(table: Tree, ids: seq<nat>, metadata: seq<Tree>)
    requires IsTable(table) && Plain(table) && |ids| == |metadata|
    requires forall k | 0 <= k < |metadata| :: Plain(metadata[k])
    ensures Plain(Filled(table, ids, metadata))
    ensures Filled(table, ids, metadata).keys == [] <==> table.keys == [] && ids == []
    decreases |ids|
  {
    if ids != [] {
      PutPlain(table.keys, table.items, Decimal(ids[0]), metadata[0]);
      FilledPlain(Put(table.keys, table.items, Decimal(ids[0]), metadata[0]), ids[1..], metadata[1..]);
    }
  }

  lemma {:induction false} FilledSplit(table: Tree, ids: seq<nat>, metadata: seq<Tree>, n: nat)
    requires IsTable(table) && |ids| == |metadata| && n <= |ids|
    ensures Filled(table, ids, metadata) == Filled(Filled(table, ids[..n], metadata[..n]), ids[n..], metadata[n..])
    decreases |ids|
  {
    if n == 0 {
      assert ids[n..] == ids && metadata[n..] == metadata;
    } else {
      var first := Put(table.keys, table.items, Decimal(ids[0]), metadata[0]);
      FilledSplit(first, ids[1..], metadata[1..], n - 1);
      assert ids[1..][..n - 1] == ids[..n][1..] && metadata[1..][..n - 1] == metadata[..n][1..];
      assert ids[1..][n - 1..] == ids[n..] && metadata[1..][n - 1..] == metadata[n..];
    }
  }

  /** Blobs that share an id have the same metadata. */
  ghost predicate Consistent(ids: seq<nat>, metadata: seq<Tree>)
    requires |ids| == |metadata|
  {
    forall i, j :: 0 <= i < |ids| && 0 <= j < |ids| && ids[i] == ids[j] ==> metadata[i] == metadata[j]
  }

  lemma {:induction false} FilledElsewhere(table: Tree, ids: seq<nat>, metadata: seq<Tree>, id: nat)
    requires IsTable(table) && |ids| == |metadata| && id !in ids
    ensures Property(Filled(table, ids, metadata), Some(id)) == Property(table, Some(id))
    decreases |ids|
  {
    if ids != [] {
      DecimalInjective(id, ids[0]);
      PutFinds(table.keys, table.items, Decimal(ids[0]), metadata[0], Decimal(id));
      FilledElsewhere(Put(table.keys, table.items, Decimal(ids[0]), metadata[0]), ids[1..], metadata[1..], id);
    }
  }

  lemma {:induction false} FilledFinds(table: Tree, ids: seq<nat>, metadata: seq<Tree>, k: nat)
    requires IsTable(table) && |ids| == |metadata| && k < |ids| && Consistent(ids, metadata)
    ensures Property(Filled(table, ids, metadata), Some(ids[k])) == Some(metadata[k])
    decreases |ids|
  {
    var first := Put(table.keys, table.items, Decimal(ids[0]), metadata[0]);
    if ids[k] in ids[1..] {
      var j :| 0 <= j < |ids[1..]| && ids[1..][j] == ids[k];
      assert ids[j + 1] == ids[k];
      FilledFinds(first, ids[1..], metadata[1..], j);
    } else {
      FilledElsewhere(first, ids[1..], metadata[1..], ids[k]);
      assert k == 0;
      PutFinds(table.keys, table.items, Decimal(ids[0]), metadata[0], Decimal(ids[0]));
    }
  }

  /** Every blob finds its own metadata under its id, if and only if blobs
      that share an id agree. */
  lemma FilledFindsAll(ids: seq<nat>, metadata: seq<Tree>)
    requires |ids| == |metadata|
    ensures (forall k | 0 <= k < |ids| :: Property(Filled(NO_STREAMS, ids, metadata), Some(ids[k])) == Some(metadata[k]))
       <==> Consistent(ids, metadata)
  {
    if Consistent(ids, metadata) {
      forall k | 0 <= k < |ids|
        ensures Property(Filled(NO_STREAMS, ids, metadata), Some(ids[k])) == Some(metadata[k])
      {
        FilledFinds(NO_STREAMS, ids, metadata, k);
      }
    }
  }

  // --------------------------------------------------------------- leaves

  function MarkedTexts(ids: seq<nat>): (leaves: seq<Tree>)
    ensures |leaves| == |ids|
    ensures forall k | 0 <= k < |ids| :: leaves[k] == Text(SerializeStreamId(ids[k]))
  {
    seq(|ids|, k requires 0 <= k < |ids| => Text(SerializeStreamId(ids[k])))
  }

  function References(ids: seq<nat>, metadata: seq<Tree>): (leaves: seq<Tree>)
    requires |ids| == |metadata|
    ensures |leaves| == |ids|
    ensures forall k | 0 <= k < |ids| :: leaves[k] == Stream(Some(ids[k]), Some(metadata[k]))
  {
    seq(|ids|, k requires 0 <= k < |ids| => Stream(Some(ids[k]), Some(metadata[k])))
  }

  /** What goes on the wire: each blob is the marked text of its id. */
  function Tagged(tree: Tree, ids: seq<nat>): Tree
    requires |ids| == |Blobs(tree)|
  {
    Substitute(tree, MarkedTexts(ids))
  }

  /** What the peer should see: each blob is a reference with its own id and metadata. */
  function Expected(tree: Tree, ids: seq<nat>): Tree
    requires |ids| == |Blobs(tree)|
  {
    Substitute(tree, References(ids, Blobs(tree)))
  }

  lemma ReviveTagged(tree: Tree, ids: seq<nat>, streams: Tree)
    requires Sendable(tree) && |ids| == |Blobs(tree)|
    ensures Revive(Tagged(tree, ids), streams) == Expected(tree, ids)
       <==> Clean(tree) && forall k | 0 <= k < |ids| :: Property(streams, Some(ids[k])) == Some(Blobs(tree)[k])
  {
    var before, after := MarkedTexts(ids), References(ids, Blobs(tree));
    forall k | 0 <= k < |ids|
      ensures Revive(before[k], streams) == after[k] <==> Property(streams, Some(ids[k])) == Some(Blobs(tree)[k])
    {
      DeserializeSerialized(ids[k]);
    }
    ReviveSubstituted(tree, before, after, streams);
  }

  // ------------------------------------------------------ frames, decoder

  /** JSON text, in both directions. Parsing need not undo printing everywhere:
      a round trip only depends on the two trees that its frame carries. */
  datatype TextForm = TextForm(stringify: Tree -> seq<byte>, parse: seq<byte> -> Option<Tree>) {
    /** The tree survives as text. */
    predicate Carries(tree: Tree) {
      stringify(tree) != [] && parse(stringify(tree)) == Some(tree)
    }

    /** The entries of the table survive, in whatever order. */
    ghost predicate CarriesTable(table: Tree) {
      && stringify(table) != [] && parse(stringify(table)).Some? && !parse(stringify(table)).value.Null?
      && forall id :: Property(parse(stringify(table)).value, id) == Property(table, id)
    }
  }

  /** For any two trees there is such a text. */
  lemma TextFormFor(tree: Tree, table: Tree) returns (texts: TextForm)
    requires !table.Null?
    ensures texts.Carries(tree) && texts.CarriesTable(table) && |texts.stringify(table)| < UINT32
  {
    texts := TextForm(t => if t == tree then [0] else [1], text => if text == [0] then Some(tree) else Some(table));
    assert tree != table ==> texts.parse(texts.stringify(table)) == Some(table);
  }

  datatype Failure = RangeError | SyntaxError | TypeError

  datatype Decoded = Value(payload: Option<Tree>) | Failed(failure: Failure)

  /** The streams part is empty when no stream was added; an undefined payload
      leaves no bytes. */
  function Frame(texts: TextForm, payload: Option<Tree>, streams: Tree): seq<byte>
    requires IsTable(streams)
  {
    Join(if streams.keys == [] then [] else texts.stringify(streams),
         if payload.None? then [] else texts.stringify(payload.value))
  }

  /** Decoding on either side: a short buffer is out of range, a part that does
      not parse is a syntax error, and texts are revived only when the declared
      streams length is not zero. */
  function DecodeRpc(texts: TextForm, buffer: seq<byte>): Decoded {
    var parts := Split(buffer);
    if parts.None? then Failed(RangeError)
    else
      var (streamsLength, streamsPart, payloadPart) := parts.value;
      var streams := if streamsLength > 0 then texts.parse(streamsPart) else Some(NO_STREAMS);
      if streams.None? then Failed(SyntaxError)
      else if payloadPart == [] then Value(None)
      else
        var payload := texts.parse(payloadPart);
        if payload.None? then Failed(SyntaxError)
        else if streamsLength == 0 then Value(payload)
        else if streams.value == Null && !Clean(payload.value) then Failed(TypeError)
        else Value(Some(Revive(payload.value, streams.value)))
  }

  /** Decoding is out of range if and only if the length is cut short. */
  lemma OutOfRange(texts: TextForm, buffer: seq<byte>)
    ensures DecodeRpc(texts, buffer) == Failed(RangeError) <==> |buffer| < 4
  {
  }

  /** What the peer should see differs from the call in its blobs only, each of
      which is a stream reference. */
  lemma ExpectedMeans(tree: Tree, ids: seq<nat>)
    requires |ids| == |Blobs(tree)|
    ensures SameButBlobs(tree, Expected(tree, ids)) && SameButBlobs(tree, Tagged(tree, ids))
  {
    SubstituteKeepsRest(tree, References(ids, Blobs(tree)));
    SubstituteKeepsRest(tree, MarkedTexts(ids));
  }

  /** What the client puts on the wire for a payload whose blobs get these ids. */
  function ClientFrame(texts: TextForm, data: Option<Tree>, ids: seq<nat>): seq<byte>
    requires |ids| == if data.Some? then |Blobs(data.value)| else 0
  {
    if data.None? then Frame(texts, None, NO_STREAMS)
    else Frame(texts, Some(Tagged(data.value, ids)), Filled(NO_STREAMS, ids, Blobs(data.value)))
  }

  /** A call without payload decodes to none. */
  lemma UndefinedRoundTrip(texts: TextForm)
    ensures DecodeRpc(texts, ClientFrame(texts, None, [])) == Value(None)
  {
    SplitJoined([], []);
  }

  lemma {:induction false} BlobsPlain(tree: Tree)
    requires Sendable(tree)
    ensures forall k | 0 <= k < |Blobs(tree)| :: Plain(Blobs(tree)[k])
    decreases tree
  {
    match tree
    case List(items) => BlobsOfPlain(items);
    case Record(_, items) => BlobsOfPlain(items);
    case _ =>
  }

  lemma {:induction false} BlobsOfPlain(items: seq<Tree>)
    requires SendableAll(items)
    ensures forall k | 0 <= k < |BlobsOf(items)| :: Plain(BlobsOf(items)[k])
    decreases items
  {
    if items != [] {
      BlobsPlain(items[0]);
      BlobsOfPlain(items[1..]);
    }
  }

  /** Whatever stream table travels with a tree, the peer sees each blob as a
      reference to its own stream and all else unchanged, if and only if the
      tree has no blob and the table is empty, or no plain text carries the
      marker and the table, not empty, holds each blob's metadata under its id. */
  lemma FrameRoundTrip(texts: TextForm, tree: Tree, ids: seq<nat>, streams: Tree)
    requires Sendable(tree) && |ids| == |Blobs(tree)| && IsTable(streams)
    requires texts.Carries(Tagged(tree, ids))
    requires streams.keys != [] ==> texts.CarriesTable(streams) && |texts.stringify(streams)| < UINT32
    ensures DecodeRpc(texts, Frame(texts, Some(Tagged(tree, ids)), streams)) == Value(Some(Expected(tree, ids)))
       <==> if streams.keys == [] then Blobs(tree) == []
            else Clean(tree) && forall k | 0 <= k < |ids| :: Property(streams, Some(ids[k])) == Some(Blobs(tree)[k])
  {
    var before, after := MarkedTexts(ids), References(ids, Blobs(tree));
    if streams.keys == [] {
      SplitJoined([], texts.stringify(Tagged(tree, ids)));
      if ids != [] {
        assert before[0] != after[0];
        if Substitute(tree, before) == Substitute(tree, after) {
          SubstituteInjective(tree, before, after);
          assert false;
        }
      }
    } else {
      SplitJoined(texts.stringify(streams), texts.stringify(Tagged(tree, ids)));
      ReviveTagged(tree, ids, texts.parse(texts.stringify(streams)).value);
    }
  }

  /** What a client writes is plain data: no blob is left in the payload or the table. */
  lemma WireIsPlain(tree: Tree, ids: seq<nat>)
    requires Sendable(tree) && |ids| == |Blobs(tree)|
    ensures Plain(Tagged(tree, ids)) && Plain(Filled(NO_STREAMS, ids, Blobs(tree)))
  {
    SubstituteWithPlain(tree, MarkedTexts(ids));
    BlobsPlain(tree);
    FilledPlain(NO_STREAMS, ids, Blobs(tree));
  }

  /** The text form carries what a client writes for a call. */
  ghost predicate CarriesCall(texts: TextForm, tree: Tree, ids: seq<nat>)
    requires |ids| == |Blobs(tree)|
  {
    && texts.Carries(Tagged(tree, ids))
    && (Blobs(tree) != [] ==>
          var table := Filled(NO_STREAMS, ids, Blobs(tree));
          texts.CarriesTable(table) && |texts.stringify(table)| < UINT32)
  }

  /** Client to server: decoding what was encoded gives back the same tree with
      each blob turned into a reference to its own stream, if and only if there
      is no blob at all, or no plain text carries the marker and blobs that
      share an id agree on their metadata. */
  lemma RoundTrip(texts: TextForm, tree: Tree, ids: seq<nat>)
    requires Sendable(tree) && |ids| == |Blobs(tree)| && CarriesCall(texts, tree, ids)
    ensures DecodeRpc(texts, ClientFrame(texts, Some(tree), ids)) == Value(Some(Expected(tree, ids)))
       <==> Blobs(tree) == [] || (Clean(tree) && Consistent(ids, Blobs(tree)))
  {
    BlobsPlain(tree);
    FilledPlain(NO_STREAMS, ids, Blobs(tree));
    FilledFindsAll(ids, Blobs(tree));
    FrameRoundTrip(texts, tree, ids, Filled(NO_STREAMS, ids, Blobs(tree)));
  }

  /** The ids of one call clash only when it carries 2^32 - 1 blobs or more. */
  lemma IssuedIdsDistinct(counter: nat, n: nat, i: nat, j: nat)
    requires counter <= MAX_UINT32 && i < j < n
    ensures IssuedIds(counter, n)[i] == IssuedIds(counter, n)[j] <==> (j - i) % MAX_UINT32 == 0
  {
    IssuedIdsClosedForm(counter, n, i);
    IssuedIdsClosedForm(counter, n, j);
    SameRemainder(counter + i, counter + j);
  }

  lemma Remainder(n: nat, quotient: nat, remainder: nat)
    requires n == MAX_UINT32 * quotient + remainder && remainder < MAX_UINT32
    ensures n % MAX_UINT32 == remainder
  {
  }

  /** Two numbers leave the same remainder iff their distance leaves none. */
  lemma SameRemainder(a: nat, b: nat)
    requires a <= b
    ensures a % MAX_UINT32 == b % MAX_UINT32 <==> (b - a) % MAX_UINT32 == 0
  {
    var m := MAX_UINT32;
    var apart := b / m - a / m;
    if b % m >= a % m {
      Remainder(b - a, apart, b % m - a % m);
    } else {
      Remainder(b - a, apart - 1, m + b % m - a % m);
    }
  }

  lemma IssuedIdsConsistent(counter: nat, metadata: seq<Tree>)
    requires counter <= MAX_UINT32 && |metadata| <= MAX_UINT32
    ensures Consistent(IssuedIds(counter, |metadata|), metadata)
  {
    var n := |metadata|;
    var ids := IssuedIds(counter, n);
    forall i, j | 0 <= i < n && 0 <= j < n && ids[i] == ids[j]
      ensures i == j
    {
      if i < j {
        IssuedIdsDistinct(counter, n, i, j);
      } else if j < i {
        IssuedIdsDistinct(counter, n, j, i);
      }
    }
  }

  /** With ids from the stream counter, a call of fewer than 2^32 blobs comes
      through if and only if it has no blob or no plain text with the marker. */
  lemma CounterRoundTrip(texts: TextForm, tree: Tree, counter: nat)
    requires Sendable(tree) && counter <= MAX_UINT32 && |Blobs(tree)| <= MAX_UINT32
    requires CarriesCall(texts, tree, IssuedIds(counter, |Blobs(tree)|))
    ensures DecodeRpc(texts, ClientFrame(texts, Some(tree), IssuedIds(counter, |Blobs(tree)|)))
            == Value(Some(Expected(tree, IssuedIds(counter, |Blobs(tree)|))))
       <==> Blobs(tree) == [] || Clean(tree)
  {
    IssuedIdsConsistent(counter, Blobs(tree));
    RoundTrip(texts, tree, IssuedIds(counter, |Blobs(tree)|));
  }

  /** A text that looks like a stream id, next to a blob. */
  const AMBIGUOUS: seq<Tree> := [Text(SerializeStreamId(7)), Blob(Null)]

  lemma AmbiguousItems()
    ensures SendableAll(AMBIGUOUS) && BlobsOf(AMBIGUOUS) == [Null] && !CleanAll(AMBIGUOUS)
  {
    assert AMBIGUOUS[1..] == [Blob(Null)];
    assert AMBIGUOUS[1..][1..] == [];
    DeserializeSerialized(7);
  }

  /** A plain text that looks like a stream id does not survive beside a blob,
      and there are text forms to show it. */
  lemma MarkedTextIsLost() returns (texts: TextForm)
    ensures Sendable(List(AMBIGUOUS)) && Blobs(List(AMBIGUOUS)) == [Null] && CarriesCall(texts, List(AMBIGUOUS), [0])
    ensures DecodeRpc(texts, ClientFrame(texts, Some(List(AMBIGUOUS)), [0])) != Value(Some(Expected(List(AMBIGUOUS), [0])))
  {
    AmbiguousItems();
    texts := TextFormFor(Tagged(List(AMBIGUOUS), [0]), Filled(NO_STREAMS, [0], [Null]));
    RoundTrip(texts, List(AMBIGUOUS), [0]);
  }

  /** Every call has a text form that carries it. */
  lemma CallsCanBeCarried(tree: Tree, ids: seq<nat>) returns (texts: TextForm)
    requires |ids| == |Blobs(tree)|
    ensures CarriesCall(texts, tree, ids)
  {
    texts := TextFormFor(Tagged(tree, ids), Filled(NO_STREAMS, ids, Blobs(tree)));
  }

  // -------------------------------------------------------------- encoders

  /** A counter and a table after blobs with these metadata were added to earlier ones. */
  ghost predicate Added(metadata: seq<Tree>, counter: nat, table: Tree, counter': nat, table': Tree)
    requires IsTable(table)
  {
    && counter' == CounterAfter(counter, |metadata|)
    && table' == Filled(table, IssuedIds(counter, |metadata|), metadata)
  }

  /** Items with their blobs tagged by the next ids of the counter. */
  ghost function TaggedFrom(items: seq<Tree>, counter: nat): seq<Tree> {
    SubstituteAll(items, MarkedTexts(IssuedIds(counter, |BlobsOf(items)|)))
  }

  /** One client call being encoded: the replacer's closure variables and the
      counter of the stream layer. */
  class ClientEncoder {
    var streamId: nat
    var streams: Tree
    var hasStreams: bool

    ghost predicate Valid()
      reads this
    {
      IsTable(streams) && (hasStreams <==> streams.keys != [])
    }

    constructor (counter: nat)
      ensures Valid() && streamId == counter && streams == NO_STREAMS
    {
      streamId, streams, hasStreams := counter, NO_STREAMS, false;
    }

    method GetStreamId() returns (id: nat)
      modifies this`streamId
      ensures id == StreamIdAt(old(streamId)) && streamId == id + 1
    {
      if streamId >= MAX_UINT32 {
        streamId := 0;
      }
      id := streamId;
      streamId := streamId + 1;
    }

    method Replacer(value: Tree) returns (replaced: Tree)
      requires Valid()
      modifies this
      ensures Valid()
      ensures !value.Blob? ==> replaced == value && streams == old(streams) && streamId == old(streamId)
      ensures value.Blob? ==>
        && Added([value.metadata], old(streamId), old(streams), streamId, streams)
        && replaced == Text(SerializeStreamId(StreamIdAt(old(streamId))))
    {
      replaced := value;
      if value.Blob? {
        hasStreams := true;
        var id := GetStreamId();
        streams := Put(streams.keys, streams.items, Decimal(id), value.metadata);
        replaced := Text(SerializeStreamId(id));
      }
    }

    /** The walk of `JSON.stringify`, which passes every value to the replacer. */
    method Walk(tree: Tree) returns (written: Tree)
      requires Valid()
      modifies this
      ensures Valid() && Added(Blobs(tree), old(streamId), old(streams), streamId, streams)
      ensures written == Tagged(tree, IssuedIds(old(streamId), |Blobs(tree)|))
      decreases tree
    {
      written := Replacer(tree);
      match tree
      case List(items) =>
        var inner := WalkAll(items);
        written := List(inner);
      case Record(keys, items) =>
        var inner := WalkAll(items);
        written := Record(keys, inner);
      case _ =>
    }

    method WalkAll(items: seq<Tree>) returns (written: seq<Tree>)
      requires Valid()
      modifies this
      ensures Valid() && Added(BlobsOf(items), old(streamId), old(streams), streamId, streams)
      ensures written == TaggedFrom(items, old(streamId))
      decreases items
    {
      if items == [] {
        return [];
      }
      var first := Walk(items[0]);
      ghost var counter, table := streamId, streams;
      var rest := WalkAll(items[1..]);
      written := [first] + rest;
      AddedInTurn(Blobs(items[0]), BlobsOf(items[1..]), old(streamId), old(streams), counter, table, streamId, streams);
      TaggedInTurn(items, old(streamId));
    }

    /** Encodes one call: the walk first, then the frame of what it gathered. */
    method EncodeRpc(texts: TextForm, data: Option<Tree>) returns (view: array<byte>)
      requires Valid() && streams == NO_STREAMS
      modifies this
      ensures fresh(view) && Valid()
      ensures var n := if data.Some? then |Blobs(data.value)| else 0;
              view[..] == ClientFrame(texts, data, IssuedIds(old(streamId), n)) && streamId == CounterAfter(old(streamId), n)
    {
      var payload: Option<Tree> := None;
      if data.Some? {
        var written := Walk(data.value);
        payload := Some(written);
      }
      view := EncodeFrame(texts, payload, hasStreams, streams);
    }
  }

  /** Adding two groups of blobs in turn is adding them at once. */
  lemma FilledInTurn(table: Tree, ids: seq<nat>, here: seq<Tree>, ids': seq<nat>, there: seq<Tree>)
    requires IsTable(table) && |ids| == |here| && |ids'| == |there|
    ensures Filled(table, ids + ids', here + there) == Filled(Filled(table, ids, here), ids', there)
  {
    FilledSplit(table, ids + ids', here + there, |here|);
    assert (ids + ids')[..|ids|] == ids && (ids + ids')[|ids|..] == ids';
    assert (here + there)[..|here|] == here && (here + there)[|here|..] == there;
  }

  lemma MarkedTextsInTurn(ids: seq<nat>, ids': seq<nat>)
    ensures MarkedTexts(ids + ids')[..|ids|] == MarkedTexts(ids)
    ensures MarkedTexts(ids + ids')[|ids|..] == MarkedTexts(ids')
  {
  }

  lemma AddedInTurn(here: seq<Tree>, there: seq<Tree>, counter: nat, table: Tree, counter': nat, table': Tree, counter'': nat, table'': Tree)
    requires IsTable(table) && IsTable(table')
    requires Added(here, counter, table, counter', table') && Added(there, counter', table', counter'', table'')
    ensures Added(here + there, counter, table, counter'', table'')
  {
    IssuedIdsSplit(counter, |here|, |there|);
    FilledInTurn(table, IssuedIds(counter, |here|), here, IssuedIds(counter', |there|), there);
  }

  lemma TaggedInTurn(items: seq<Tree>, counter: nat)
    requires items != []
    ensures
      var n := |Blobs(items[0])|;
      TaggedFrom(items, counter)
      == [Tagged(items[0], IssuedIds(counter, n))] + TaggedFrom(items[1..], CounterAfter(counter, n))
  {
    var n, m := |Blobs(items[0])|, |BlobsOf(items[1..])|;
    IssuedIdsSplit(counter, n, m);
    MarkedTextsInTurn(IssuedIds(counter, n), IssuedIds(CounterAfter(counter, n), m));
  }

  /** Length, streams and payload, one after the other. */
  lemma FrameBuffers(buffers: seq<seq<byte>>)
    requires 1 <= |buffers| <= 3
    ensures |buffers| == 1 ==> Flatten(buffers) == buffers[0]
    ensures |buffers| == 2 ==> Flatten(buffers) == buffers[0] + buffers[1]
    ensures |buffers| == 3 ==> Flatten(buffers) == buffers[0] + buffers[1] + buffers[2]
  {
    var all := buffers[..|buffers|];
    assert all == buffers;
    for i := 0 to |buffers|
      invariant i > 0 ==> Flatten(buffers[..1]) == buffers[0]
      invariant i > 1 ==> Flatten(buffers[..2]) == buffers[0] + buffers[1]
      invariant i > 2 ==> Flatten(buffers[..3]) == buffers[0] + buffers[1] + buffers[2]
    {
      FlattenGrows(buffers, i);
      assert buffers[..0] == [];
    }
  }

  /** The frame both encoders assemble: a length, the stream table if there is
      a stream, the payload if there is one. On the server the blobs of the
      payload are marked texts already and the table comes with the call. */
  method EncodeFrame(texts: TextForm, payload: Option<Tree>, hasStreams: bool, streams: Tree) returns (view: array<byte>)
    requires IsTable(streams) && (hasStreams <==> streams.keys != [])
    ensures fresh(view) && view[..] == Frame(texts, payload, streams)
  {
    var buffers: seq<seq<byte>> := [];
    if hasStreams {
      var encoded := texts.stringify(streams);
      buffers := buffers + [EncodeNumber(|encoded|), encoded];
    } else {
      buffers := buffers + [EncodeNumber(0)];
    }
    if payload.Some? {
      buffers := buffers + [texts.stringify(payload.value)];
    }
    FrameBuffers(buffers);
    view := Concat(buffers);
  }
}
