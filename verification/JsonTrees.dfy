/** JSON values with blob leaves, as the RPC codec rewrites them: blobs turn
    into marked texts on the way out, marked texts into stream references on
    the way in. */
module JsonTrees {
  import opened Identifiers

  /** `Blob` is what a caller puts in, `Stream` what the peer gets out. An id
      of `None` stands for NaN, metadata of `None` for `undefined`. A number is
      its canonical text. */
  datatype Tree =
    | Null
    | Bool(truth: bool)
    | Number(literal: string)
    | Text(text: string)
    | List(items: seq<Tree>)
    | Record(keys: seq<string>, items: seq<Tree>)
    | Blob(metadata: Tree)
    | Stream(id: Option<int>, found: Option<Tree>)

  // ------------------------------------------------------- stream markers

  const MARKER: string := "%neemata:stream:%\U{c}"

  function SerializeStreamId(id: nat): string {
    MARKER + Decimal(id)
  }

  predicate IsStreamText(text: string) {
    |MARKER| <= |text| && text[..|MARKER|] == MARKER
  }

  function DeserializeStreamId(text: string): Option<int>
    requires IsStreamText(text)
  {
    ParseInt(text[|MARKER|..])
  }

  predicate Blank(c: char) {
    || '\U{9}' <= c <= '\U{d}' || c in " \U{A0}\U{1680}\U{2028}\U{2029}\U{202F}\U{205F}\U{3000}\U{FEFF}"
    || '\U{2000}' <= c <= '\U{200A}'
  }

  function SkipBlanks(text: string): string {
    if text != [] && Blank(text[0]) then SkipBlanks(text[1..]) else text
  }

  /** The value of a digit of the radix, which is 10 or 16. */
  function DigitOf(c: char, hex: bool): Option<nat> {
    if '0' <= c <= '9' then Some((c - '0') as nat)
    else if hex && 'a' <= c <= 'f' then Some(10 + (c - 'a') as nat)
    else if hex && 'A' <= c <= 'F' then Some(10 + (c - 'A') as nat)
    else None
  }

  /** The longest prefix made of digits, as digit values. */
  function DigitRun(text: string, hex: bool): seq<nat> {
    if text == [] || DigitOf(text[0], hex).None? then []
    else [DigitOf(text[0], hex).value] + DigitRun(text[1..], hex)
  }

  function Weigh(digits: seq<nat>, radix: nat): nat {
    if digits == [] then 0
    else Weigh(digits[..|digits| - 1], radix) * radix + digits[|digits| - 1]
  }

  /** `Number.parseInt` without a radix: blanks, a sign, an optional `0x`, then
      as many digits as there are; NaN when there is none. */
  function ParseInt(text: string): Option<int> {
    var body := SkipBlanks(text);
    var signed := body != [] && body[0] in "+-";
    var rest := if signed then body[1..] else body;
    var hex := |rest| >= 2 && rest[0] == '0' && rest[1] in "xX";
    var digits := DigitRun(if hex then rest[2..] else rest, hex);
    if digits == [] then None
    else
      var magnitude: int := Weigh(digits, if hex then 16 else 10);
      Some(if signed && body[0] == '-' then -magnitude else magnitude)
  }

  lemma {:induction false} DecimalRun(text: string)
    requires AllDigits(text)
    ensures |DigitRun(text, false)| == |text|
    ensures forall i | 0 <= i < |text| :: DigitRun(text, false)[i] == DigitValue(text[i])
  {
    if text != [] {
      DecimalRun(text[1..]);
    }
  }

  lemma {:induction false} WeighDigits(text: string, digits: seq<nat>)
    requires AllDigits(text) && |digits| == |text|
    requires forall i | 0 <= i < |text| :: digits[i] == DigitValue(text[i])
    ensures Weigh(digits, 10) == ParseDigits(text)
  {
    if text != [] {
      WeighDigits(text[..|text| - 1], digits[..|text| - 1]);
    }
  }

  /** Reading a serialized stream id gives the id back. */
  lemma DeserializeSerialized(id: nat)
    ensures IsStreamText(SerializeStreamId(id))
    ensures DeserializeStreamId(SerializeStreamId(id)) == Some(id)
  {
    var text := Decimal(id);
    assert SerializeStreamId(id)[..|MARKER|] == MARKER;
    assert SerializeStreamId(id)[|MARKER|..] == text;
    assert '0' <= text[0] <= '9';
    assert SkipBlanks(text) == text;
    DecimalRun(text);
    WeighDigits(text, DigitRun(text, false));
    ParseDecimal(id);
  }

  lemma DecimalInjective(a: nat, b: nat)
    ensures Decimal(a) == Decimal(b) <==> a == b
  {
    ParseDecimal(a);
    ParseDecimal(b);
  }

  // ----------------------------------------------------------- the leaves

  /** Metadata of the blobs of a tree, in the order the replacer meets them. */
  function Blobs(tree: Tree): seq<Tree> {
    match tree
    case List(items) => BlobsOf(items)
    case Record(_, items) => BlobsOf(items)
    case Blob(metadata) => [metadata]
    case _ => []
  }

  function BlobsOf(items: seq<Tree>): seq<Tree> {
    if items == [] then [] else Blobs(items[0]) + BlobsOf(items[1..])
  }

  /** What a caller may encode: objects with distinct keys, no stream
      references, and blobs whose metadata are plain data. */
  predicate Sendable(tree: Tree) {
    match tree
    case List(items) => SendableAll(items)
    case Record(keys, items) => Distinct(keys) && |keys| == |items| && SendableAll(items)
    case Blob(metadata) => Sendable(metadata) && Blobs(metadata) == []
    case Stream(_, _) => false
    case _ => true
  }

  predicate SendableAll(items: seq<Tree>) {
    items == [] || (Sendable(items[0]) && SendableAll(items[1..]))
  }

  /** Data that JSON text can carry. */
  predicate Plain(tree: Tree) {
    Sendable(tree) && Blobs(tree) == []
  }

  predicate Distinct(keys: seq<string>) {
    forall i, j :: 0 <= i < j < |keys| ==> keys[i] != keys[j]
  }

  /** No text of the tree starts with the stream marker. */
  predicate Clean(tree: Tree) {
    match tree
    case Text(text) => !IsStreamText(text)
    case List(items) => CleanAll(items)
    case Record(_, items) => CleanAll(items)
    case _ => true
  }

  predicate CleanAll(items: seq<Tree>) {
    items == [] || (Clean(items[0]) && CleanAll(items[1..]))
  }

  /** The tree with its k-th blob replaced by the k-th leaf. */
  function Substitute(tree: Tree, leaves: seq<Tree>): Tree
    requires |leaves| == |Blobs(tree)|
  {
    match tree
    case List(items) => List(SubstituteAll(items, leaves))
    case Record(keys, items) => Record(keys, SubstituteAll(items, leaves))
    case Blob(_) => leaves[0]
    case _ => tree
  }

  function SubstituteAll(items: seq<Tree>, leaves: seq<Tree>): (result: seq<Tree>)
    requires |leaves| == |BlobsOf(items)|
    ensures |result| == |items|
  {
    if items == [] then []
    else
      var n := |Blobs(items[0])|;
      [Substitute(items[0], leaves[..n])] + SubstituteAll(items[1..], leaves[n..])
  }

  /** The reviver: a marked text becomes a reference to the stream it names,
      with whatever the stream table holds under that id. */
  function Revive(tree: Tree, streams: Tree): Tree {
    match tree
    case Text(text) => if IsStreamText(text) then Reference(DeserializeStreamId(text), streams) else tree
    case List(items) => List(ReviveAll(items, streams))
    case Record(keys, items) => Record(keys, ReviveAll(items, streams))
    case _ => tree
  }

  function ReviveAll(items: seq<Tree>, streams: Tree): (result: seq<Tree>)
    ensures |result| == |items|
  {
    if items == [] then [] else [Revive(items[0], streams)] + ReviveAll(items[1..], streams)
  }

  function Reference(id: Option<int>, streams: Tree): Tree {
    Stream(id, Property(streams, id))
  }

  /** Property access by number, on any JSON value but `null`. */
  function Property(value: Tree, id: Option<int>): Option<Tree> {
    match value
    case Record(keys, items) => if |keys| == |items| then Find(keys, items, PropertyName(id)) else None
    case List(items) => if id.Some? && 0 <= id.value < |items| then Some(items[id.value]) else None
    case Text(text) => if id.Some? && 0 <= id.value < |text| then Some(Text([text[id.value]])) else None
    case _ => None
  }

  function PropertyName(id: Option<int>): string {
    if id.None? then "NaN" else if id.value < 0 then "-" + Decimal(-id.value) else Decimal(id.value)
  }

  function Find(keys: seq<string>, items: seq<Tree>, key: string): Option<Tree>
    requires |keys| == |items|
  {
    if keys == [] then None
    else if keys[0] == key then Some(items[0])
    else Find(keys[1..], items[1..], key)
  }

  // ------------------------------------------------- the rewriting, proved

  lemma {:induction false} SubstituteWithPlain(tree: Tree, leaves: seq<Tree>)
    requires Sendable(tree) && |leaves| == |Blobs(tree)|
    requires forall k | 0 <= k < |leaves| :: Plain(leaves[k])
    ensures Plain(Substitute(tree, leaves))
    decreases tree
  {
    match tree
    case List(items) => SubstituteAllWithPlain(items, leaves);
    case Record(_, items) => SubstituteAllWithPlain(items, leaves);
    case _ =>
  }

  lemma {:induction false} SubstituteAllWithPlain(items: seq<Tree>, leaves: seq<Tree>)
    requires SendableAll(items) && |leaves| == |BlobsOf(items)|
    requires forall k | 0 <= k < |leaves| :: Plain(leaves[k])
    ensures SendableAll(SubstituteAll(items, leaves)) && BlobsOf(SubstituteAll(items, leaves)) == []
    decreases items
  {
    if items != [] {
      var n := |Blobs(items[0])|;
      SubstituteWithPlain(items[0], leaves[..n]);
      SubstituteAllWithPlain(items[1..], leaves[n..]);
      assert SubstituteAll(items, leaves)[1..] == SubstituteAll(items[1..], leaves[n..]);
    }
  }

  lemma {:induction false} NothingToSubstitute(tree: Tree)
    requires Blobs(tree) == []
    ensures Substitute(tree, []) == tree
    decreases tree
  {
    match tree
    case List(items) => NothingToSubstituteAll(items);
    case Record(_, items) => NothingToSubstituteAll(items);
    case _ =>
  }

  lemma {:induction false} NothingToSubstituteAll(items: seq<Tree>)
    requires BlobsOf(items) == []
    ensures SubstituteAll(items, []) == items
    decreases items
  {
    if items != [] {
      NothingToSubstitute(items[0]);
      NothingToSubstituteAll(items[1..]);
    }
  }

  /** Both trees are the same wherever the first one holds no blob. */
  ghost predicate SameButBlobs(tree: Tree, other: Tree) {
    match tree
    case List(items) => other.List? && |other.items| == |items| && forall i | 0 <= i < |items| :: SameButBlobs(items[i], other.items[i])
    case Record(keys, items) =>
      other.Record? && other.keys == keys && |other.items| == |items| && forall i | 0 <= i < |items| :: SameButBlobs(items[i], other.items[i])
    case Blob(_) => true
    case _ => other == tree
  }

  /** Substitution changes blobs only. */
  lemma {:induction false} SubstituteKeepsRest(tree: Tree, leaves: seq<Tree>)
    requires |leaves| == |Blobs(tree)|
    ensures SameButBlobs(tree, Substitute(tree, leaves))
    decreases tree
  {
    match tree
    case List(items) => SubstituteAllKeepsRest(items, leaves);
    case Record(_, items) => SubstituteAllKeepsRest(items, leaves);
    case _ =>
  }

  lemma {:induction false} SubstituteAllKeepsRest(items: seq<Tree>, leaves: seq<Tree>)
    requires |leaves| == |BlobsOf(items)|
    ensures forall i | 0 <= i < |items| :: SameButBlobs(items[i], SubstituteAll(items, leaves)[i])
    decreases items
  {
    if items != [] {
      var n := |Blobs(items[0])|;
      SubstituteKeepsRest(items[0], leaves[..n]);
      SubstituteAllKeepsRest(items[1..], leaves[n..]);
      assert SubstituteAll(items, leaves)[1..] == SubstituteAll(items[1..], leaves[n..]);
    }
  }

  function AsBlobs(metadata: seq<Tree>): (leaves: seq<Tree>)
    ensures |leaves| == |metadata|
  {
    seq(|metadata|, k requires 0 <= k < |metadata| => Blob(metadata[k]))
  }

  /** The leaves are put in the place of the blobs in order: given blobs as
      leaves, those are the blobs of the result, and its own give the tree itself. */
  lemma {:induction false} SubstituteInOrder(tree: Tree, metadata: seq<Tree>)
    requires |metadata| == |Blobs(tree)|
    ensures Blobs(Substitute(tree, AsBlobs(metadata))) == metadata
    ensures metadata == Blobs(tree) ==> Substitute(tree, AsBlobs(metadata)) == tree
    decreases tree
  {
    match tree
    case List(items) => SubstituteAllInOrder(items, metadata);
    case Record(_, items) => SubstituteAllInOrder(items, metadata);
    case _ =>
  }

  lemma {:induction false} SubstituteAllInOrder(items: seq<Tree>, metadata: seq<Tree>)
    requires |metadata| == |BlobsOf(items)|
    ensures BlobsOf(SubstituteAll(items, AsBlobs(metadata))) == metadata
    ensures metadata == BlobsOf(items) ==> SubstituteAll(items, AsBlobs(metadata)) == items
    decreases items
  {
    if items != [] {
      var n := |Blobs(items[0])|;
      SubstituteInOrder(items[0], metadata[..n]);
      SubstituteAllInOrder(items[1..], metadata[n..]);
      assert AsBlobs(metadata)[..n] == AsBlobs(metadata[..n]) && AsBlobs(metadata)[n..] == AsBlobs(metadata[n..]);
      assert SubstituteAll(items, AsBlobs(metadata))[1..] == SubstituteAll(items[1..], AsBlobs(metadata[n..]));
      assert metadata == metadata[..n] + metadata[n..];
    }
  }

  /** Different leaves give different trees. */
  lemma {:induction false} SubstituteInjective(tree: Tree, one: seq<Tree>, other: seq<Tree>)
    requires |one| == |other| == |Blobs(tree)| && Substitute(tree, one) == Substitute(tree, other)
    ensures one == other
    decreases tree
  {
    match tree
    case List(items) => SubstituteAllInjective(items, one, other);
    case Record(_, items) => SubstituteAllInjective(items, one, other);
    case _ =>
  }

  lemma {:induction false} SubstituteAllInjective(items: seq<Tree>, one: seq<Tree>, other: seq<Tree>)
    requires |one| == |other| == |BlobsOf(items)| && SubstituteAll(items, one) == SubstituteAll(items, other)
    ensures one == other
    decreases items
  {
    if items != [] {
      var n := |Blobs(items[0])|;
      assert SubstituteAll(items, one)[0] == Substitute(items[0], one[..n]);
      assert SubstituteAll(items, other)[0] == Substitute(items[0], other[..n]);
      assert SubstituteAll(items, one)[1..] == SubstituteAll(items[1..], one[n..]);
      assert SubstituteAll(items, other)[1..] == SubstituteAll(items[1..], other[n..]);
      SubstituteInjective(items[0], one[..n], other[..n]);
      SubstituteAllInjective(items[1..], one[n..], other[n..]);
      assert one == one[..n] + one[n..] && other == other[..n] + other[n..];
    }
  }

  ghost predicate LeavesRevived(before: seq<Tree>, after: seq<Tree>, streams: Tree)
    requires |before| == |after|
  {
    forall k | 0 <= k < |before| :: Revive(before[k], streams) == after[k]
  }

  /** Reviving a tree gives the same tree with its leaves revived, if and only
      if no other text carries the marker. */
  lemma {:induction false} ReviveSubstituted(tree: Tree, before: seq<Tree>, after: seq<Tree>, streams: Tree)
    requires Sendable(tree) && |before| == |after| == |Blobs(tree)|
    ensures Revive(Substitute(tree, before), streams) == Substitute(tree, after)
       <==> Clean(tree) && LeavesRevived(before, after, streams)
    decreases tree
  {
    match tree
    case List(items) => ReviveSubstitutedAll(items, before, after, streams);
    case Record(_, items) => ReviveSubstitutedAll(items, before, after, streams);
    case _ =>
  }

  lemma {:induction false} ReviveSubstitutedAll(items: seq<Tree>, before: seq<Tree>, after: seq<Tree>, streams: Tree)
    requires SendableAll(items) && |before| == |after| == |BlobsOf(items)|
    ensures ReviveAll(SubstituteAll(items, before), streams) == SubstituteAll(items, after)
       <==> CleanAll(items) && LeavesRevived(before, after, streams)
    decreases items
  {
    if items != [] {
      var n := |Blobs(items[0])|;
      ReviveSubstituted(items[0], before[..n], after[..n], streams);
      ReviveSubstitutedAll(items[1..], before[n..], after[n..], streams);
      LeavesRevivedSplit(before, after, streams, n);
      var x, xs := Revive(Substitute(items[0], before[..n]), streams), ReviveAll(SubstituteAll(items[1..], before[n..]), streams);
      var y, ys := Substitute(items[0], after[..n]), SubstituteAll(items[1..], after[n..]);
      assert SubstituteAll(items, before)[1..] == SubstituteAll(items[1..], before[n..]);
      assert ReviveAll(SubstituteAll(items, before), streams) == [x] + xs;
      assert SubstituteAll(items, after) == [y] + ys;
      assert [x] + xs == [y] + ys <==> x == y && xs == ys by {
        if [x] + xs == [y] + ys {
          assert ([x] + xs)[0] == ([y] + ys)[0] && ([x] + xs)[1..] == ([y] + ys)[1..];
        }
      }
    }
  }

  lemma LeavesRevivedSplit(before: seq<Tree>, after: seq<Tree>, streams: Tree, n: nat)
    requires |before| == |after| && n <= |before|
    ensures LeavesRevived(before, after, streams)
       <==> LeavesRevived(before[..n], after[..n], streams) && LeavesRevived(before[n..], after[n..], streams)
  {
    assert forall k | 0 <= k < |before| :: k >= n ==> before[k] == before[n..][k - n] && after[k] == after[n..][k - n];
    assert forall k | 0 <= k < n :: before[k] == before[..n][k] && after[k] == after[..n][k];
    if LeavesRevived(before[..n], after[..n], streams) && LeavesRevived(before[n..], after[n..], streams) {
      forall k | 0 <= k < |before| ensures Revive(before[k], streams) == after[k] {
        if k < n {
          assert Revive(before[..n][k], streams) == after[..n][k];
        } else {
          assert Revive(before[n..][k - n], streams) == after[n..][k - n];
        }
      }
    }
  }
}
