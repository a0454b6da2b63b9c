/** Identifiers, the id counter and the strictly increasing clock of the
    in-memory workflow runtime, and the texts built from identifiers. */
module Identifiers {

  datatype Option<+T> = None | Some(value: T)

  /** `Issued(p, n)` stands for the text `p-n` built by the id counter;
      `Foreign` is any text a caller passes that the counter never builds. */
  datatype Id = Issued(prefix: string, number: nat) | Foreign(text: string)

  /** The two closure variables every step draws on: the id counter and the
      last timestamp handed out. */
  datatype Source = Source(nextId: nat, last: int) {

    function Fresh(prefix: string): Id {
      Issued(prefix, nextId)
    }

    function Take(): Source {
      Source(nextId + 1, last)
    }

    /** One reading of the clock: never behind the wall, always past the last reading. */
    function Tick(wall: int): Source {
      Source(nextId, if wall >= last + 1 then wall else last + 1)
    }

    /** True iff this source handed out `id` already. */
    predicate HasIssued(id: Id) {
      id.Issued? && id.number < nextId
    }

    /** True iff `later` can be reached from this source. */
    predicate AtMost(later: Source) {
      nextId <= later.nextId && last <= later.last
    }
  }

  const START := Source(1, 0)

  /** A reading of the clock is the least time that is past the last reading
      and not behind the wall. */
  lemma TickIsLeast(g: Source, wall: int, time: int)
    ensures g.last < g.Tick(wall).last && wall <= g.Tick(wall).last && g.Tick(wall).nextId == g.nextId
    ensures g.last < time && wall <= time ==> g.Tick(wall).last <= time
  {
  }

  // ---------------------------------------------------------------- texts

  function Digit(d: nat): (c: char)
    requires d < 10
    ensures '0' <= c <= '9'
  {
    '0' + d as char
  }

  function DigitValue(c: char): nat
    requires '0' <= c <= '9'
  {
    (c - '0') as nat
  }

  /** Decimal text of a natural number, without leading zeros. */
  function Decimal(n: nat): (text: string)
    ensures text != [] && AllDigits(text)
  {
    if n < 10 then [Digit(n)] else Decimal(n / 10) + [Digit(n % 10)]
  }

  predicate AllDigits(text: string) {
    forall i | 0 <= i < |text| :: '0' <= text[i] <= '9'
  }

  /** The number a text of digits denotes; 0 for the empty text. */
  function ParseDigits(text: string): nat
    requires AllDigits(text)
  {
    if text == [] then 0
    else 10 * ParseDigits(text[..|text| - 1]) + DigitValue(text[|text| - 1])
  }

  lemma {:induction false} ParseDecimal(n: nat)
    ensures ParseDigits(Decimal(n)) == n
  {
    if n >= 10 {
      ParseDecimal(n / 10);
      var text := Decimal(n);
      assert text[..|text| - 1] == Decimal(n / 10);
    }
  }

  function Render(id: Id): string {
    match id
    case Issued(prefix, n) => prefix + "-" + Decimal(n)
    case Foreign(text) => text
  }

  /** Two issued ids with the same text are the same id: the text after the last
      dash is the number, so the counter alone keeps ids of all prefixes apart. */
  lemma RenderInjective(a: Id, b: Id)
    requires a.Issued? && b.Issued? && Render(a) == Render(b)
    ensures a == b
  {
    var x, y := Decimal(a.number), Decimal(b.number);
    var text := Render(a);
    assert text == a.prefix + ("-" + x) && text == b.prefix + ("-" + y);
    assert text[|a.prefix|] == '-' && text[|b.prefix|] == '-';
    assert text[|a.prefix| + 1..] == x && text[|b.prefix| + 1..] == y;
    assert |x| == |y|;
    assert a.prefix == text[..|a.prefix|] && b.prefix == text[..|b.prefix|];
    ParseDecimal(a.number);
    ParseDecimal(b.number);
  }

  // ------------------------------------------------------- composite keys

  predicate NoColon(text: string) {
    ':' !in text
  }

  function NodeKeyText(runId: string, nodeName: string): string {
    runId + ":" + nodeName
  }

  function ChildKeyText(runId: string, nodeName: string, key: string): string {
    runId + ":" + nodeName + ":" + key
  }

  lemma ColonSplit(a: string, rest: string, b: string, rest': string)
    requires NoColon(a) && NoColon(b)
    requires a + ":" + rest == b + ":" + rest'
    ensures a == b && rest == rest'
  {
    var text := a + ":" + rest;
    assert text[|a|] == ':' && text[|b|] == ':';
    assert |a| == |b|;
    assert a == text[..|a|] && b == text[..|b|];
    assert rest == text[|a| + 1..] && rest' == text[|b| + 1..];
  }

  lemma NodeKeyInjective(r: string, n: string, r': string, n': string)
    requires NoColon(r) && NoColon(r')
    ensures NodeKeyText(r, n) == NodeKeyText(r', n') <==> (r == r' && n == n')
  {
    if NodeKeyText(r, n) == NodeKeyText(r', n') {
      ColonSplit(r, n, r', n');
    }
  }

  /** The child key may hold any text; only run ids and node names must be free of colons. */
  lemma ChildKeyInjective(r: string, n: string, k: string, r': string, n': string, k': string)
    requires NoColon(r) && NoColon(r') && NoColon(n) && NoColon(n')
    ensures ChildKeyText(r, n, k) == ChildKeyText(r', n', k') <==> (r == r' && n == n' && k == k')
  {
    if ChildKeyText(r, n, k) == ChildKeyText(r', n', k') {
      assert ChildKeyText(r, n, k) == r + ":" + (n + ":" + k);
      assert ChildKeyText(r', n', k') == r' + ":" + (n' + ":" + k');
      ColonSplit(r, n + ":" + k, r', n' + ":" + k');
      ColonSplit(n, k, n', k');
    }
  }

  /** Without the restriction two different nodes share one key text. */
  lemma NodeKeyClash()
    ensures NodeKeyText("a:b", "c") == NodeKeyText("a", "b:c")
  {
    assert NodeKeyText("a:b", "c") == "a:b:c";
    assert NodeKeyText("a", "b:c") == "a:b:c";
  }
}
