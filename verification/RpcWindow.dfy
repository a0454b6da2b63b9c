/** Credit accounting of client RPC streams: the first pull grants the window,
    then every ceil(window/2)-th pull grants a refill of that size. */
module RpcWindows {
  import opened Identifiers
  import opened StreamSignals

  const DEFAULT_RPC_STREAM_WINDOW := 16

  /** `None` is the range error. */
  function ResolveWindow(value: Option<int>): (window: Option<int>)
    ensures window.Some? <==> value.None? || 1 <= value.value <= MAX_STREAM_CREDITS
    ensures window.Some? ==> 1 <= window.value <= MAX_STREAM_CREDITS
  {
    var window := if value.Some? then value.value else DEFAULT_RPC_STREAM_WINDOW;
    if window < 1 || window > MAX_STREAM_CREDITS then None else Some(window)
  }

  function Refill(window: nat): nat {
    (window + 1) / 2
  }

  /** The closure variables of a stream and the credit of the last pull. */
  datatype Puller = Puller(initial: bool, left: int, size: nat)

  function Fresh(window: nat): Puller {
    Puller(true, Refill(window), 0)
  }

  function Pulled(window: nat, p: Puller): Puller {
    if p.initial then Puller(false, p.left, window)
    else if p.left - 1 > 0 then Puller(false, p.left - 1, 0)
    else Puller(false, Refill(window), Refill(window))
  }

  function After(window: nat, pulls: nat): Puller {
    if pulls == 0 then Fresh(window) else Pulled(window, After(window, pulls - 1))
  }

  /** All credit granted by the first `pulls` pulls. */
  function Total(window: nat, pulls: nat): nat {
    if pulls == 0 then 0 else Total(window, pulls - 1) + After(window, pulls).size
  }

  lemma DivStep(n: nat, r: nat)
    requires r > 0
    ensures (n + 1) % r == (if n % r == r - 1 then 0 else n % r + 1)
    ensures (n + 1) / r == (if n % r == r - 1 then n / r + 1 else n / r)
  {
    var q, m := n / r, n % r;
    assert n == r * q + m;
    if m == r - 1 {
      assert n + 1 == r * (q + 1);
      DivMod(n + 1, r, q + 1, 0);
    } else {
      DivMod(n + 1, r, q, m + 1);
    }
  }

  lemma DivMod(n: nat, r: nat, q: nat, m: nat)
    requires r > 0 && n == r * q + m && m < r
    ensures n / r == q && n % r == m
  {
    var d := q - n / r;
    Euclid(n, r);
    assert r * d == n % r - m by {
      assert r * d == r * q - r * (n / r);
    }
    if d >= 1 {
      AtLeast(r, d);
    } else if d <= -1 {
      AtLeast(r, -d);
    }
  }

  lemma Euclid(n: nat, r: nat)
    requires r > 0
    ensures n == r * (n / r) + n % r && 0 <= n % r < r
  {
  }

  lemma AtLeast(r: nat, d: nat)
    requires d >= 1
    ensures r * d >= r
  {
  }

  /** The state and the total credit after n >= 1 pulls, in closed form. */
  lemma {:induction false} TotalClosedForm(window: nat, n: nat)
    requires window >= 1 && n >= 1
    ensures
      var half := (window + 1) / 2;
      && !After(window, n).initial && After(window, n).left == half - (n - 1) % half
      && Total(window, n) == window + half * ((n - 1) / half)
  {
    var r := Refill(window);
    if n == 1 {
      assert After(window, 0) == Fresh(window) && Total(window, 0) == 0;
      DivMod(0, r, 0, 0);
    } else {
      TotalClosedForm(window, n - 1);
      DivStep(n - 2, r);
      var q := (n - 2) / r;
      assert r * (q + 1) == r * q + r;
    }
  }

  /** The consumer never starves, and the producer's lead over the chunks
      consumed before the n-th pull stays between half a window and a window. */
  lemma WindowLead(window: nat, n: nat)
    requires window >= 1 && n >= 1
    ensures Total(window, n) >= n
    ensures window / 2 + 1 <= Total(window, n) - (n - 1) <= window
  {
    TotalClosedForm(window, n);
    var r := Refill(window);
    assert n - 1 == r * ((n - 1) / r) + (n - 1) % r;
  }

  /** With at least n-1 chunks sent by the n-th pull, the server holds at most a
      window of credit afterwards, so it never refuses the grant. */
  lemma GrantNeverRefused(window: nat, n: nat, sent: nat)
    requires 1 <= window <= MAX_STREAM_CREDITS && n >= 1
    requires n - 1 <= sent <= Total(window, n - 1)
    ensures
      var credits := Total(window, n - 1) - sent;
      0 <= credits && credits + After(window, n).size <= window <= MAX_STREAM_CREDITS
  {
    WindowLead(window, n);
  }

  class RpcStreamCredit {
    const window: nat
    var initialCreditGrant: bool
    var pullsUntilRefill: int
    ghost var pulls: nat
    ghost var granted: nat

    ghost predicate Valid()
      reads this
    {
      && window >= 1
      && initialCreditGrant == After(window, pulls).initial
      && pullsUntilRefill == After(window, pulls).left
      && granted == Total(window, pulls)
    }

    constructor (window: nat)
      requires window >= 1
      ensures Valid() && this.window == window && pulls == 0
    {
      this.window := window;
      initialCreditGrant, pullsUntilRefill := true, Refill(window);
      pulls, granted := 0, 0;
    }

    /** The credit message a pull sends, if any. */
    method Pull(connected: bool) returns (size: Option<nat>)
      requires Valid()
      modifies this
      ensures Valid()
      ensures !connected ==> size.None? && unchanged(this)
      ensures connected ==> pulls == old(pulls) + 1
      ensures granted == old(granted) + if size.Some? then size.value else 0
      ensures connected && size.None? ==> After(window, pulls).size == 0
    {
      if !connected {
        return None;
      }
      pulls := pulls + 1;
      if initialCreditGrant {
        initialCreditGrant := false;
        size := Some(window);
      } else {
        pullsUntilRefill := pullsUntilRefill - 1;
        if pullsUntilRefill > 0 {
          return None;
        }
        pullsUntilRefill := Refill(window);
        size := Some(Refill(window));
      }
      granted := granted + size.value;
    }
  }
}
