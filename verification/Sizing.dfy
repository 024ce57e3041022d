/** How large the buffers are made. */
module Sizing {
  import opened Results
  import opened Rounding
  import opened Executor
  import opened Rates
  import opened Network

  // ---- Whole pages ----

  function Gcd(a: Pos, b: nat): Pos
    decreases b
  {
    if b == 0 then a else Gcd(b, a % b)
  }

  lemma {:induction false} Bezout(a: Pos, b: nat) returns (x: int, y: int)
    ensures a * x + b * y == Gcd(a, b)
    ensures Multiple(a, Gcd(a, b)) && Multiple(b, Gcd(a, b))
    decreases b
  {
    if b == 0 {
      x, y := 1, 0;
      MultipleOfItself(a);
    } else {
      var g, r, q := Gcd(a, b), a % b, a / b;
      var u, v := Bezout(b, r);
      x, y := v, u - q * v;
      BezoutStep(a, b, q, r, u, v, g);
      MultipleComb(q, b, r, g, a);
    }
  }

  lemma BezoutStep(a: int, b: int, q: int, r: int, u: int, v: int, g: int)
    requires a == q * b + r && b * u + r * v == g
    ensures a * v + b * (u - q * v) == g
  {
    assert a * v == (q * b) * v + r * v;
    assert b * (u - q * v) == b * u - b * (q * v);
    assert (q * b) * v == b * (q * v);
  }

  lemma MultipleComb(q: int, b: int, r: int, g: Pos, a: int)
    requires a == q * b + r && Multiple(b, g) && Multiple(r, g)
    ensures Multiple(a, g)
  {
    var m: int :| b == m * g;
    var n: int :| r == n * g;
    assert q * (m * g) == (q * m) * g;
    assert a == (q * m + n) * g;
  }

  /** `minimum_buffer_items` */
  function MinimumBufferItems(typeSize: Pos, pageSize: Pos): nat {
    pageSize / Gcd(typeSize, pageSize)
  }

  lemma Cancel(a: int, b: int, g: Pos)
    requires a * g == b * g
    ensures a == b
  {
    if a < b {
      SpreadOut(a, b, g);
    } else if b < a {
      SpreadOut(b, a, g);
    }
  }

  /** A number of items fills whole pages exactly if it is a multiple of that. */
  lemma FillsPages(typeSize: Pos, pageSize: Pos, k: nat)
    ensures MinimumBufferItems(typeSize, pageSize) > 0
    ensures Multiple(k * typeSize, pageSize) <==> Multiple(k, MinimumBufferItems(typeSize, pageSize))
  {
    var g := Gcd(typeSize, pageSize);
    var x, y := Bezout(typeSize, pageSize);
    var t: int :| typeSize == t * g;
    var p: int :| pageSize == p * g;
    PagesOfItems(pageSize, p, g);
    var m := MinimumBufferItems(typeSize, pageSize);
    Coprime(typeSize, pageSize, t, m, x, y, g);
    if Multiple(k, m) {
      ItemsToPages(k, typeSize, pageSize, t, m, g);
    }
    if Multiple(k * typeSize, pageSize) {
      PagesToItems(k, typeSize, pageSize, t, m, x, y, g);
    }
  }

  lemma Coprime(a: int, b: int, t: int, m: int, x: int, y: int, g: Pos)
    requires a == t * g && b == m * g && a * x + b * y == g
    ensures t * x + m * y == 1
  {
    assert (t * g) * x == (t * x) * g && (m * g) * y == (m * y) * g;
    assert (t * x + m * y) * g == 1 * g;
    Cancel(t * x + m * y, 1, g);
  }

  lemma ItemsToPages(k: int, a: int, b: Pos, t: int, m: Pos, g: Pos)
    requires a == t * g && b == m * g && Multiple(k, m)
    ensures Multiple(k * a, b)
  {
    var q: int :| k == q * m;
    assert (q * m) * (t * g) == (q * t) * (m * g);
    assert k * a == (q * t) * b;
  }

  lemma PagesToItems(k: int, a: int, b: Pos, t: int, m: Pos, x: int, y: int, g: Pos)
    requires a == t * g && b == m * g && t * x + m * y == 1 && Multiple(k * a, b)
    ensures Multiple(k, m)
  {
    var j: int :| k * a == j * b;
    assert k * (t * g) == (k * t) * g && j * (m * g) == (j * m) * g;
    Cancel(k * t, j * m, g);
    assert k * (t * x + m * y) == (k * t) * x + k * (m * y);
    assert (j * m) * x == (j * x) * m && k * (m * y) == (k * y) * m;
    assert k == (j * x + k * y) * m;
  }

  lemma PagesOfItems(pageSize: Pos, p: int, g: Pos)
    requires pageSize == p * g
    ensures pageSize / g == p && p > 0
  {
    if p <= 0 {
      Ordered(p, 0, g);
    }
    assert Multiple(pageSize, g);
    WholeQuotient(pageSize, g);
    Cancel(pageSize / g, p, g);
  }

  /** Rounds the request up to whole pages: no smaller buffer of whole pages would do. */
  method AllocateBuffer(nitems: nat, sizeofItem: Pos, granularity: Pos) returns (bufsize: nat)
    ensures nitems <= bufsize && Multiple(bufsize * sizeofItem, granularity)
    ensures forall k: nat :: nitems <= k && Multiple(k * sizeofItem, granularity) ==> bufsize <= k
  {
    var minNitems := MinimumBufferItems(sizeofItem, granularity);
    FillsPages(sizeofItem, granularity, 0);
    bufsize := nitems;
    if nitems % minNitems != 0 {
      bufsize := (nitems / minNitems + 1) * minNitems;
    }
    WholePages(nitems, minNitems, bufsize);
    FillsPages(sizeofItem, granularity, bufsize);
    forall k: nat | nitems <= k && Multiple(k * sizeofItem, granularity)
      ensures bufsize <= k
    {
      FillsPages(sizeofItem, granularity, k);
      if k < bufsize {
        MultiplesApart(k, bufsize, minNitems);
      }
    }
  }

  lemma WholePages(n: nat, m: Pos, r: nat)
    requires r == if n % m != 0 then (n / m + 1) * m else n
    ensures n <= r < n + m && Multiple(r, m)
  {
    Quotient(n, m);
    assert n == n / m * m + n % m;
  }

  // ---- Room for writer and readers ----

  const FIXED_BUFFER_SIZE: nat := 32768

  /** What may come out of `static_cast<int>(2*(decimation*multiple+history))`, whose three roundings
      are the division, the product and the sum. */
  ghost predicate MayDemand(rate: real, multiple: Pos, history: nat, n: int)
    requires rate > 0.0
  {
    exists decimation, product, sum ::
      Rounded(rate, multiple, history, decimation, product, sum) && n == (2.0 * sum).Floor
  }

  ghost predicate Rounded(rate: real, multiple: Pos, history: nat, decimation: real, product: real, sum: real)
    requires rate > 0.0
  {
    Near(decimation, 1.0 / rate) && Near(product, decimation * multiple as real) && Near(sum, product + history as real)
  }

  /** What a buffer holds if no limit is set: twice 32 KB, or two output multiples. */
  function DefaultItems(itemSize: Pos, multiple: Pos): nat { Max(65536 / itemSize, 2 * multiple) }

  /** The largest whole number of output multiples up to a limit. */
  ghost predicate MostMultiples(n: nat, multiple: Pos, limit: nat) {
    n <= limit && Multiple(n, multiple) && forall k: nat :: k <= limit && Multiple(k, multiple) ==> k <= n
  }

  /** The items of a buffer before its readers are asked: a maximum set by the user wins over a
      minimum, and either of them makes it a whole number of output multiples. */
  ghost predicate BaseOk(base: nat, itemSize: Pos, multiple: Pos, maxBuffer: int, minBuffer: int) {
    if maxBuffer > 0 then MostMultiples(base, multiple, Min(DefaultItems(itemSize, multiple), maxBuffer))
    else if minBuffer > 0 then MostMultiples(base, multiple, Max(DefaultItems(itemSize, multiple), minBuffer))
    else base == DefaultItems(itemSize, multiple)
  }

  /** The base, or the largest demand of a reader if that is more; None exactly if a maximum leaves
      no room for one output multiple. */
  method CountItems(itemSize: Pos, multiple: Pos, maxBuffer: int, minBuffer: int, demands: seq<int>)
    returns (r: Option<nat>, ghost base: nat)
    ensures r.None? <==> 0 < maxBuffer < multiple
    ensures BaseOk(base, itemSize, multiple, maxBuffer, minBuffer)
    ensures r.Some? ==> base <= r.value && forall d :: d in demands ==> d <= r.value
    ensures r.Some? ==> r.value == base || r.value in demands
  {
    var nitems := BaseItems(itemSize, multiple, maxBuffer, minBuffer);
    base := nitems;
    LeavesNothing(itemSize, multiple, maxBuffer, base);
    if maxBuffer > 0 && nitems < 1 {
      return None, base;
    }
    for i := 0 to |demands|
      invariant base <= nitems && (nitems == base || nitems in demands)
      invariant forall k :: 0 <= k < i ==> demands[k] <= nitems
    {
      nitems := Max(nitems, demands[i]);
    }
    r := Some(nitems);
  }

  method BaseItems(itemSize: Pos, multiple: Pos, maxBuffer: int, minBuffer: int) returns (nitems: nat)
    ensures BaseOk(nitems, itemSize, multiple, maxBuffer, minBuffer)
  {
    nitems := FIXED_BUFFER_SIZE * 2 / itemSize;
    if nitems < 2 * multiple {
      nitems := 2 * multiple;
    }
    if maxBuffer > 0 {
      nitems := Min(nitems, maxBuffer);
      MultiplesOff(nitems, multiple);
      nitems := nitems - nitems % multiple;
    } else if minBuffer > 0 {
      nitems := Max(nitems, minBuffer);
      MultiplesOff(nitems, multiple);
      nitems := nitems - nitems % multiple;
    }
  }

  lemma MultiplesOff(n: nat, m: Pos)
    ensures 0 <= n - n % m && MostMultiples(n - n % m, m, n)
  {
    RemainderOff(n, m);
    RoundsDown(n, m);
    forall k: nat | k <= n && Multiple(k, m)
      ensures k <= RoundDown(n, m)
    {
      RoundsDownTo(n, k, m);
    }
  }

  lemma LeavesNothing(itemSize: Pos, multiple: Pos, maxBuffer: int, base: nat)
    requires maxBuffer > 0 ==> MostMultiples(base, multiple, Min(DefaultItems(itemSize, multiple), maxBuffer))
    ensures maxBuffer > 0 ==> (base < 1 <==> maxBuffer < multiple)
  {
    if maxBuffer > 0 {
      MultipleOfItself(multiple);
      if base > 0 {
        PositiveMultiple(base, multiple);
      }
    }
  }

  /** Without a maximum there is always room for two output multiples, as the scheduler wants it. */
  lemma TwoMultiples(base: nat, itemSize: Pos, multiple: Pos, maxBuffer: int, minBuffer: int)
    requires maxBuffer <= 0 && BaseOk(base, itemSize, multiple, maxBuffer, minBuffer)
    ensures 2 * multiple <= base
  {
    if minBuffer > 0 {
      DoubleMultiple(multiple);
      assert 2 * multiple <= Max(DefaultItems(itemSize, multiple), minBuffer);
    }
  }

  lemma RemainderOff(n: nat, m: Pos)
    ensures n - n % m == RoundDown(n, m)
    ensures RoundDown(n, m) <= n
  {
    Quotient(n, m);
    assert n == n / m * m + n % m;
  }

  lemma DoubleMultiple(m: Pos)
    ensures Multiple(2 * m, m)
  {
  }

  /** The relative rate of a block; a decimating one is itself rounded. */
  ghost predicate IsRate(r: Rate, rate: real) {
    match r
    case Sync => rate == 1.0
    case Decimator(factor) => Near(rate, 1.0 / factor as real)
    case Interpolator(factor) => rate == factor as real
  }

  /** The demand of a rated block is twice what one output multiple and the history need, or one item
      less if it is rounded below. */
  lemma DemandIsEnough(r: Rate, history: Pos, multiple: Pos, rate: real, n: int)
    requires Whole(r, multiple) && IsRate(r, rate) && rate > 0.0 && MayDemand(rate, multiple, history, n)
    requires Needs(r, history, multiple) < INT_MAX
    ensures n == 2 * (Needs(r, history, multiple) + 1) || n + 1 == 2 * (Needs(r, history, multiple) + 1)
  {
    var decimation, product, sum :|
      Rounded(rate, multiple, history, decimation, product, sum) && n == (2.0 * sum).Floor;
    var u, p := ExactRate(r, history, multiple, rate);
    RoundedSum(rate, multiple, history, decimation, product, sum, u, p);
    TwiceFloor(sum, Needs(r, history, multiple) + 1, p + history as real);
  }

  lemma RoundedSum(rate: real, multiple: Pos, history: nat, decimation: real, product: real, sum: real, u: real,
                   p: real)
    requires u > 0.0 && p >= 0.0 && u * multiple as real == p && rate > 0.0 && Near(rate, 1.0 / u)
    requires Rounded(rate, multiple, history, decimation, product, sum)
    ensures var t := p + history as real; t - t * 0.0000000000000045 <= sum <= t + t * 0.0000000000000045
  {
    InverseNear(rate, u);
    ProductNear(decimation, 1.0 / rate, u, multiple as real, product, p);
    SumNear(product, p, history as real, sum);
  }

  /** What the decimation and its product would be without rounding. */
  lemma ExactRate(r: Rate, history: Pos, multiple: Pos, rate: real) returns (u: real, p: real)
    requires Whole(r, multiple) && IsRate(r, rate) && rate > 0.0
    ensures u > 0.0 && p >= 0.0 && u * multiple as real == p && Near(rate, 1.0 / u)
    ensures (Needs(r, history, multiple) + 1) as real == p + history as real
  {
    match r {
      case Sync =>
        u, p := 1.0, multiple as real;
      case Decimator(factor) =>
        u, p := factor as real, (multiple * factor) as real;
      case Interpolator(factor) =>
        WholeQuotient(multiple, factor);
        u := 1.0 / factor as real;
        p := (multiple / factor) as real;
        assert multiple as real == (multiple / factor * factor) as real == p * factor as real;
        CancelFactor(p, factor as real);
        InverseTwice(factor as real);
    }
  }

  lemma InverseNear(rate: real, u: real)
    requires u > 0.0 && rate > 0.0 && Near(rate, 1.0 / u)
    ensures u - u * 0.0000000000000011 <= 1.0 / rate <= u + u * 0.0000000000000011
  {
    var v, w := 1.0 / rate, 1.0 / u;
    assert v > 0.0 && rate * v == 1.0 && w * u == 1.0 && w > 0.0;
    var a := v * u;
    assert a > 0.0;
    // rate * v * u == u, and rate lies close to w.
    assert rate * a == u by { assert rate * (v * u) == (rate * v) * u; }
    assert w * a == v by { assert w * (v * u) == v * (w * u); }
    assert (rate - (w - w * 0.000000000000001)) * a >= 0.0;
    assert ((w + w * 0.000000000000001) - rate) * a >= 0.0;
    assert (w * 0.000000000000001) * a == v * 0.000000000000001;
  }

  lemma ProductNear(decimation: real, v: real, u: real, m: real, product: real, p: real)
    requires u > 0.0 && m >= 0.0 && p == u * m
    requires u - u * 0.0000000000000011 <= v <= u + u * 0.0000000000000011 && Near(decimation, v)
    requires Near(product, decimation * m)
    ensures p - p * 0.0000000000000034 <= product <= p + p * 0.0000000000000034
  {
    assert u - u * 0.0000000000000022 <= decimation <= u + u * 0.0000000000000022;
    var q := decimation * m;
    assert p >= 0.0;
    assert (decimation - (u - u * 0.0000000000000022)) * m >= 0.0;
    assert ((u + u * 0.0000000000000022) - decimation) * m >= 0.0;
    assert (u * 0.0000000000000022) * m == p * 0.0000000000000022;
  }

  lemma SumNear(product: real, p: real, h: real, sum: real)
    requires p >= 0.0 && h >= 0.0 && Near(sum, product + h)
    requires p - p * 0.0000000000000034 <= product <= p + p * 0.0000000000000034
    ensures (p + h) - (p + h) * 0.0000000000000045 <= sum <= (p + h) + (p + h) * 0.0000000000000045
  {
  }

  lemma TwiceFloor(sum: real, k: nat, t: real)
    requires k <= INT_MAX && t == k as real
    requires t - t * 0.0000000000000045 <= sum <= t + t * 0.0000000000000045
    ensures (2.0 * sum).Floor == 2 * k || (2.0 * sum).Floor + 1 == 2 * k
  {
    assert k as real <= 2147483647.0;
  }

  ghost predicate AsksFor(n: Node, rate: real, demand: int) {
    IsRate(n.rate, rate) && rate > 0.0 && MayDemand(rate, n.block.multiple, n.history, demand)
  }

  /** Each buffer as large as its writer's limits and its readers' demands make it. */
  ghost predicate SizedBySetup(net: Net, f: nat)
    requires |net.input| == |net.nodes| && |net.size| == |net.writer| && f < |net.writer| && net.writer[f] < |net.nodes|
  {
    && (exists base: nat, itemSize: Pos, minBuffer: int ::
          BaseOk(base, itemSize, net.MultipleOf(net.writer[f]), -1, minBuffer) && base <= net.size[f])
    && forall d :: 0 <= d < |net.nodes| && net.input[d] == f ==>
         exists rate: real, demand: int :: AsksFor(net.nodes[d], rate, demand) && demand <= net.size[f]
  }

  /** The graphs that the scheduler's theorems are about: a graph of fixed-rate blocks is one of them
      as soon as its buffers are sized by the setup, without a maximum set by the user. */
  lemma SetupMakesValid(net: Net)
    requires |net.input| == |net.nodes| && |net.size| == |net.writer|
    requires forall b :: 0 <= b < |net.nodes| ==>
               net.NodeOk(b) && net.input[b] < |net.writer| && net.Enough(b) < INT_MAX
    requires forall f :: 0 <= f < |net.writer| ==> net.writer[f] < |net.nodes| && net.size[f] <= INT_MAX
    requires forall b :: 0 <= b < |net.nodes| && net.input[b] >= 0 ==> net.writer[net.input[b]] < b
    requires forall b :: 0 <= b < |net.nodes| ==> net.input[b] >= 0 || net.Outs(b) != {}
    requires forall f :: 0 <= f < |net.writer| ==> SizedBySetup(net, f)
    ensures net.Valid()
  {
    forall f | 0 <= f < |net.writer|
      ensures 2 * net.MultipleOf(net.writer[f]) <= net.size[f]
    {
      assert SizedBySetup(net, f);
      var base: nat, itemSize: Pos, minBuffer: int :|
        BaseOk(base, itemSize, net.MultipleOf(net.writer[f]), -1, minBuffer) && base <= net.size[f];
      TwoMultiples(base, itemSize, net.MultipleOf(net.writer[f]), -1, minBuffer);
    }
    forall b | 0 <= b < |net.nodes| && net.input[b] >= 0
      ensures 2 * net.Enough(b) + 1 <= net.size[net.input[b]]
    {
      assert SizedBySetup(net, net.input[b]) && net.NodeOk(b);
      var n := net.nodes[b];
      var rate: real, demand: int :| AsksFor(n, rate, demand) && demand <= net.size[net.input[b]];
      DemandIsEnough(n.rate, n.history, n.block.multiple, rate, demand);
    }
  }

  lemma InverseTwice(x: real)
    requires x > 0.0
    ensures 1.0 / x > 0.0 && 1.0 / (1.0 / x) == x
  {
    var y := 1.0 / x;
    assert y * x == 1.0;
    assert x == 1.0 / y;
  }

  lemma CancelFactor(q: real, x: real)
    requires x > 0.0
    ensures (1.0 / x) * (q * x) == q
  {
    var y := 1.0 / x;
    assert y * x == 1.0;
    assert y * (q * x) == q * (y * x);
  }
}
