/** Rounding to multiples, as the scheduler does it on counts of items. */
module Rounding {

  type Pos = n: nat | n > 0 witness 1

  function Min(a: int, b: int): int { if a <= b then a else b }
  function Max(a: int, b: int): int { if a >= b then a else b }

  function RoundUp(n: nat, m: Pos): nat { (n + m - 1) / m * m }
  function RoundDown(n: nat, m: Pos): nat { n / m * m }

  ghost predicate Multiple(n: int, m: Pos) {
    exists q: int :: n == q * m
  }

  lemma Ordered(p: int, q: int, m: Pos)
    requires p <= q
    ensures p * m <= q * m
  {
    assert (q - p) * m >= 0;
  }

  lemma SpreadOut(p: int, q: int, m: Pos)
    requires p < q
    ensures p * m + m <= q * m
  {
    assert (q - p - 1) * m >= 0;
  }

  /** The next multiple after one multiple is m away. */
  lemma MultiplesApart(a: int, b: int, m: Pos)
    requires Multiple(a, m) && Multiple(b, m) && a < b
    ensures a + m <= b
  {
    var p: int :| a == p * m;
    var q: int :| b == q * m;
    if p < q {
      SpreadOut(p, q, m);
    } else {
      Ordered(q, p, m);
    }
  }

  lemma Quotient(n: nat, m: Pos)
    ensures n / m * m <= n < n / m * m + m
  {
  }

  lemma RoundsDown(n: nat, m: Pos)
    ensures Multiple(RoundDown(n, m), m)
    ensures RoundDown(n, m) <= n < RoundDown(n, m) + m
  {
    Quotient(n, m);
  }

  lemma RoundsUp(n: nat, m: Pos)
    ensures Multiple(RoundUp(n, m), m)
    ensures n <= RoundUp(n, m) < n + m
  {
    Quotient(n + m - 1, m);
  }

  /** Rounding up never passes a multiple. */
  lemma RoundsUpTo(n: nat, k: nat, m: Pos)
    requires n <= k && Multiple(k, m)
    ensures RoundUp(n, m) <= k
  {
    RoundsUp(n, m);
    if RoundUp(n, m) > k {
      MultiplesApart(k, RoundUp(n, m), m);
    }
  }

  /** Rounding down never passes a multiple. */
  lemma RoundsDownTo(n: nat, k: nat, m: Pos)
    requires k <= n && Multiple(k, m)
    ensures k <= RoundDown(n, m)
  {
    RoundsDown(n, m);
    if RoundDown(n, m) < k {
      MultiplesApart(RoundDown(n, m), k, m);
    }
  }

  lemma MultipleSum(a: int, b: int, m: Pos)
    requires Multiple(a, m) && Multiple(b, m)
    ensures Multiple(a + b, m) && Multiple(a - b, m)
  {
    var p: int :| a == p * m;
    var q: int :| b == q * m;
    assert a + b == (p + q) * m && a - b == (p - q) * m;
  }

  lemma MultipleOfItself(m: Pos)
    ensures Multiple(m, m) && Multiple(0, m)
  {
    assert m == 1 * m && 0 == 0 * m;
  }

  lemma MultipleMin(a: int, b: int, m: Pos)
    requires Multiple(a, m) && Multiple(b, m)
    ensures Multiple(Min(a, b), m)
  {
  }

  /** A positive multiple is at least m. */
  lemma PositiveMultiple(k: int, m: Pos)
    requires Multiple(k, m) && k > 0
    ensures k >= m
  {
    MultipleOfItself(m);
    MultiplesApart(0, k, m);
  }

  /** Halving a request of more than one multiple and rounding up makes it smaller. */
  lemma HalvingFalls(n: nat, request: nat, m: Pos)
    requires m < n <= request && Multiple(request, m)
    ensures 0 < RoundUp(n / 2, m) < request
    ensures Multiple(RoundUp(n / 2, m), m)
  {
    RoundsUp(n / 2, m);
    MultipleOfItself(m);
    MultiplesApart(m, request, m);
    MultipleSum(request, m, m);
    if n / 2 <= request - m {
      RoundsUpTo(n / 2, request - m, m);
    }
  }
}
