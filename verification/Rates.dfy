/** Blocks whose rate of output to input is fixed: 1:1, decimating and interpolating ones. */
module Rates {
  import opened Rounding
  import opened Executor

  datatype Rate = Sync | Decimator(factor: Pos) | Interpolator(factor: Pos)

  /** `fixed_rate_noutput_to_ninput`, which is also what forecast asks of every input. */
  function Needs(r: Rate, history: Pos, n: nat): nat {
    match r
    case Sync => n + history - 1
    case Decimator(factor) => n * factor + history - 1
    case Interpolator(factor) => n / factor + history - 1
  }

  /** `fixed_rate_ninput_to_noutput` */
  function Makes(r: Rate, history: Pos, m: nat): nat {
    match r
    case Sync => Max(0, m - history + 1)
    case Decimator(factor) => Max(0, m - history + 1) / factor
    case Interpolator(factor) => Max(0, m - history + 1) * factor
  }

  /** What general_work consumes on every input when work returns n. */
  function Uses(r: Rate, n: nat): nat {
    match r
    case Sync => n
    case Decimator(factor) => n * factor
    case Interpolator(factor) => n / factor
  }

  /** An interpolator's constructor makes its factor the output multiple. */
  ghost predicate Whole(r: Rate, n: int) { r.Interpolator? ==> Multiple(n, r.factor) }

  function RatedBlock(r: Rate, history: Pos, multiple: Pos, multipleSet: bool, maxNoutput: nat,
                      estimate: nat -> nat): Block
  {
    Block(multiple, multipleSet, true, estimate, 0, maxNoutput,
          (n: nat, k: nat) => Needs(r, history, n), (m: nat) => Makes(r, history, m))
  }

  lemma Divides(x: nat, d: Pos, n: nat)
    ensures n <= x / d <==> n * d <= x
  {
    Quotient(x, d);
    if n <= x / d {
      Ordered(n, x / d, d);
    } else {
      SpreadOut(x / d, n, d);
    }
  }

  lemma WholeQuotient(n: nat, d: Pos)
    requires Multiple(n, d)
    ensures n / d * d == n
  {
    Quotient(n, d);
    RoundsDown(n, d);
    if n / d * d < n {
      MultiplesApart(n / d * d, n, d);
    }
  }

  lemma ScaleIff(p: nat, q: nat, d: Pos)
    ensures p * d <= q * d <==> p <= q
  {
    if p <= q {
      Ordered(p, q, d);
    } else {
      SpreadOut(q, p, d);
    }
  }

  /** The two conversions fit together: what a block can make of its input is the largest
      request whose forecast that input meets. */
  lemma NeedsMakes(r: Rate, history: Pos, n: nat, m: nat)
    requires n > 0 && Whole(r, n)
    ensures n <= Makes(r, history, m) <==> Needs(r, history, n) <= m
  {
    var x := Max(0, m - history + 1);
    match r {
      case Sync =>
      case Decimator(factor) =>
        Divides(x, factor, n);
        SpreadOut(0, n, factor);
      case Interpolator(factor) =>
        WholeQuotient(n, factor);
        ScaleIff(n / factor, x, factor);
    }
  }

  /** A call uses what it asked for up to the history, which stays. */
  lemma UsesLeaveHistory(r: Rate, history: Pos, n: nat)
    ensures Uses(r, n) + history - 1 == Needs(r, history, n)
  {
  }

  lemma NeedsGrow(r: Rate, history: Pos, m: nat, n: nat)
    requires m <= n
    ensures Needs(r, history, m) <= Needs(r, history, n)
  {
    match r {
      case Sync =>
      case Decimator(factor) => Ordered(m, n, factor);
      case Interpolator(factor) =>
        Divides(n, factor, m / factor);
        Quotient(m, factor);
    }
  }

  // ---- The estimate ----

  /** What becomes of `(int)(items * relative_rate())` in doubles: 1:1 and interpolating rates are
      whole numbers and come out exactly; a decimating one is a rounded fraction, so that the
      estimate can be one too low where the exact product is a whole number. */
  ghost predicate Estimates(r: Rate, estimate: nat -> nat) { forall x: nat :: EstimatedAt(r, x, estimate(x)) }

  ghost predicate EstimatedAt(r: Rate, x: nat, y: nat) {
    match r
    case Sync => y == x
    case Decimator(factor) => y == x / factor || (factor > 1 && x > 0 && x % factor == 0 && y + 1 == x / factor)
    case Interpolator(factor) => y == x * factor
  }

  /** Equal up to rounding. A double is good to one part in nine thousand million million. */
  ghost predicate Near(a: real, b: real) { b - b * 0.000000000000001 <= a <= b + b * 0.000000000000001 }

  const MANY: nat := 100_000_000_000_000

  /** Two roundings, of the rate and of the product, make such an estimate for up to a hundred million
      million items. (One divided by one is not rounded at all.) */
  lemma RoundedProduct(x: nat, d: Pos, q: real, y: real)
    requires x <= MANY && Near(q, 1.0 / d as real) && Near(y, x as real * q)
    ensures y >= 0.0 && (y.Floor == x / d || (x > 0 && x % d == 0 && y.Floor + 1 == x / d))
  {
    var e := PartOf(d);
    var p := x as real * e;
    NearTwice(x as real, e, q, y);
    Fraction(x, d, e, p);
    SmallSlack(x as real, e, p);
    FloorNear(x / d, x % d == 0, e, p, y);
    if x > 0 && x % d == 0 {
      Quotient(x, d);
    }
  }

  lemma PartOf(d: Pos) returns (e: real)
    ensures e == 1.0 / d as real && 0.0 < e <= 1.0 && e * d as real == 1.0
  {
    e := 1.0 / d as real;
  }

  lemma FloorNear(k: nat, whole: bool, e: real, p: real, y: real)
    requires 0.0 < e && 0.0 <= p * 0.0000000000000021 < e <= 1.0
    requires p - p * 0.0000000000000021 <= y <= p + p * 0.0000000000000021
    requires if whole then p == k as real else k as real + e <= p <= k as real + 1.0 - e
    ensures y >= 0.0 && (y.Floor == k || (whole && k > 0 && y.Floor + 1 == k))
  {
  }

  lemma NearTwice(x: real, e: real, q: real, y: real)
    requires x >= 0.0 && e >= 0.0 && Near(q, e) && Near(y, x * q)
    ensures x * e - x * e * 0.0000000000000021 <= y <= x * e + x * e * 0.0000000000000021
  {
    var p := x * e;
    assert p >= 0.0;
    assert x * (q - (e - e * 0.000000000000001)) >= 0.0;
    assert x * ((e + e * 0.000000000000001) - q) >= 0.0;
    assert x * (e * 0.000000000000001) == p * 0.000000000000001;
    assert p - p * 0.000000000000001 <= x * q <= p + p * 0.000000000000001;
  }

  /** The exact quotient is a whole number, or at least one part in d away from any. */
  lemma Fraction(x: nat, d: Pos, e: real, p: real)
    requires e > 0.0 && e * d as real == 1.0 && p == x as real * e
    ensures x % d == 0 ==> p == (x / d) as real
    ensures x % d > 0 ==> (x / d) as real + e <= p <= (x / d) as real + 1.0 - e
  {
    var k, r := x / d, x % d;
    assert x as real == k as real * d as real + r as real by {
      assert x == k * d + r;
      assert (k * d) as real == k as real * d as real;
    }
    assert p == k as real + r as real * e by {
      assert (k as real * d as real) * e == k as real * (d as real * e);
    }
    if r > 0 {
      assert (r as real - 1.0) * e >= 0.0;
      assert (d as real - 1.0 - r as real) * e >= 0.0;
    }
  }

  /** What rounding can add or take is less than that part, and less than one. */
  lemma SmallSlack(x: real, e: real, p: real)
    requires 0.0 <= x <= MANY as real && 0.0 < e <= 1.0 && p == x * e
    ensures 0.0 <= p * 0.0000000000000021 < e
  {
    assert (MANY as real - x) * e >= 0.0;
    assert p <= MANY as real * e == 100000000000000.0 * e;
  }

  /** A decimating estimate falls short of n exactly where there is not enough for n, or just enough
      and the estimate rounded below. */
  lemma EstimateBelow(x: nat, d: Pos, n: nat, y: nat)
    requires EstimatedAt(Decimator(d), x, y)
    ensures x < n * d ==> y < n || n == 0
    ensures x > n * d ==> y >= n
  {
    Quotient(x, d);
    Divides(x, d, n);
    if x % d == 0 {
      assert x == x / d * d;
      ScaleIff(x / d, n, d);
    }
  }

  // ---- When a block with one input is starved ----

  /** The unaligned branch rounds up, but never when it ends at one alignment or less. */
  lemma AlignedWithin(b: Block, n: nat, al: Align)
    requires AlignOk(b, al) && Aligned(b, n, al).items <= b.multiple
    ensures Aligned(b, n, al).items <= n
  {
    RoundsDown(n, b.multiple);
    RoundsUp(n, b.multiple);
    MultipleOfItself(b.multiple);
    if n <= b.multiple {
      RoundsUpTo(n, b.multiple, b.multiple);
    } else {
      MultiplesApart(b.multiple, RoundUp(n, b.multiple), b.multiple);
    }
  }

  /** The least output a block makes in one call. */
  function Least(b: Block): Pos { if b.multipleSet then b.multiple else 1 }

  lemma CappedOfRated(b: Block, maxAvail: nat, last: nat, cap: nat, al: Align)
    requires b.fixedRate && Askable(b, last, al)
    ensures Least(b) <= Capped(b, maxAvail, last, cap)
    ensures Least(b) <= b.convert(maxAvail) ==> Capped(b, maxAvail, last, cap) <= b.convert(maxAvail)
  {
    PositiveMultiple(last, b.multiple);
    var all := RoundDown(b.convert(maxAvail), b.multiple);
    RoundsDown(b.convert(maxAvail), b.multiple);
    RoundedToNothing(b.convert(maxAvail), b.multiple);
    if all > 0 {
      PositiveMultiple(all, b.multiple);
    }
  }

  lemma LastPass(b: Block, ins: seq<Input>, maxAvail: nat, request: nat, cap: nat, al: Align) returns (n: nat)
    requires b.fixedRate && Askable(b, request, al)
    ensures Settle(b, ins, maxAvail, request, cap, al).asked == Aligned(b, n, al)
    ensures Least(b) <= n && (Least(b) <= b.convert(maxAvail) ==> n <= b.convert(maxAvail))
    ensures 0 < Settle(b, ins, maxAvail, request, cap, al).asked.items
  {
    SettleEnds(b, ins, maxAvail, request, cap, al);
    var last: nat, lastCap: nat :|
      Askable(b, last, al) &&
      Settle(b, ins, maxAvail, request, cap, al).asked == Aligned(b, Capped(b, maxAvail, last, lastCap), al);
    n := Capped(b, maxAvail, last, lastCap);
    CappedOfRated(b, maxAvail, last, lastCap, al);
  }

  ghost predicate Wholesome(r: Rate, b: Block) { r.Interpolator? ==> b.multipleSet && Whole(r, b.multiple) }

  lemma ShortIsReal(r: Rate, history: Pos, b: Block, al: Align, items: nat, n: nat, avail: nat)
    requires Wholesome(r, b) && AlignOk(b, al) && 0 < items <= b.multiple && items == Aligned(b, n, al).items
    requires Least(b) <= n && (Least(b) <= Makes(r, history, avail) ==> n <= Makes(r, history, avail))
    requires Needs(r, history, items) > avail
    ensures Makes(r, history, avail) < Least(b)
  {
    AlignedWithin(b, n, al);
    NeedsMakes(r, history, items, avail);
  }

  lemma CallIsEnough(r: Rate, history: Pos, b: Block, al: Align, items: nat, n: nat, avail: nat)
    requires Wholesome(r, b) && 0 < items && items == Aligned(b, n, al).items && Least(b) <= n
    requires Needs(r, history, items) <= avail
    ensures Least(b) <= Makes(r, history, avail)
  {
    NeedsGrow(r, history, Least(b), items);
    NeedsMakes(r, history, Least(b), avail);
  }

  /** A rated block with one input and room on its outputs runs exactly if its input suffices for
      its least output: one output multiple if one was set, a single item if not. */
  lemma OneInputRuns(r: Rate, history: Pos, b: Block, al: Align, ins: seq<Input>, request: nat)
    requires b == RatedBlock(r, history, b.multiple, b.multipleSet, b.maxNoutput, b.estimate) && Wholesome(r, b)
    requires Askable(b, request, al) && |ins| == 1
    ensures Try(b, al, ins, request).Run? <==> Least(b) <= Makes(r, history, ins[0].avail)
  {
    var avail := ins[0].avail;
    assert ins[..0] == [] && MostAvail(ins) == avail;
    SettleEnds(b, ins, avail, request, CapOf(b), al);
    var s := Settle(b, ins, avail, request, CapOf(b), al);
    var n := LastPass(b, ins, avail, request, CapOf(b), al);
    assert b.forecast(s.asked.items, 0) == Needs(r, history, s.asked.items);
    if s.Short? {
      ShortIsReal(r, history, b, al, s.asked.items, n, avail);
    } else {
      CallIsEnough(r, history, b, al, s.asked.items, n, avail);
    }
  }

  /** What becomes of a request to a rated block whose one input can hold enough for it. */
  lemma TryRated(r: Rate, history: Pos, b: Block, al: Align, ins: seq<Input>, request: nat)
    requires b == RatedBlock(r, history, b.multiple, b.multipleSet, b.maxNoutput, b.estimate) && Wholesome(r, b)
    requires Askable(b, request, al) && |ins| == 1
    requires Needs(r, history, b.multiple) <= ins[0].maxPossible
    ensures match Try(b, al, ins, request)
            case Run(a) => 0 <= a.items <= request && Needs(r, history, a.items) <= ins[0].avail
                           && AlignOk(b, AfterWork(a))
            case Starved(align) => align == al && !ins[0].done && ins[0].avail < Needs(r, history, b.multiple)
            case Finished => ins[0].done && Makes(r, history, ins[0].avail) < Least(b)
            case _ => false
  {
    var d := Try(b, al, ins, request);
    TryMeans(b, al, ins, request);
    TryFromAlign(b, al, ins, request);
    OneInputRuns(r, history, b, al, ins, request);
    if d.Run? {
      assert b.forecast(d.asked.items, 0) == Needs(r, history, d.asked.items);
    } else {
      var i: nat, items: nat :| i < |ins| && items <= b.multiple && b.forecast(items, i) > ins[i].avail
                                && (d == Finished <==> ins[i].done || b.forecast(items, i) > ins[i].maxPossible);
      NeedsGrow(r, history, items, b.multiple);
    }
  }

  // ---- How much a block is asked for ----

  /** Items that a block could be asked for: whole output multiples that every output can take, that
      the maximum allows, and that the input suffices for. */
  ghost predicate Possible(r: Rate, history: Pos, b: Block, avail: nat, outs: seq<Output>, n: nat) {
    && (forall o :: o in outs ==> Takes(b, o, n))
    && (n <= b.maxNoutput || n <= b.multiple)
    && Needs(r, history, n) <= avail
  }

  lemma CappedTo(b: Block, maxAvail: nat, request: nat, cap: nat, all: nat)
    requires b.fixedRate && b.multipleSet && all == RoundDown(b.convert(maxAvail), b.multiple) && 0 < all
    ensures Capped(b, maxAvail, request, cap) == Min(Min(all, request), RaisedCap(b, cap))
  {
  }

  /** With a multiple set, a pass asks for what it comes to, and stops there if the input suffices. */
  lemma OnePass(b: Block, al: Align, i: Input, request: nat, n: nat)
    requires b.multipleSet && Askable(b, request, al) && n == Capped(b, i.avail, request, CapOf(b))
    requires b.forecast(n, 0) <= i.avail
    ensures Try(b, al, [i], request) == Run(Asked(n, al, 0, -1))
  {
    assert [i][..0] == [] && MostAvail([i]) == i.avail;
    SettleStops(b, [i], i.avail, request, CapOf(b), al, Asked(n, al, 0, -1), 1);
  }

  lemma MultiplesToMake(r: Rate, history: Pos, multiple: Pos, avail: nat, all: nat, n: nat)
    requires Whole(r, multiple) && Multiple(n, multiple) && 0 < n
    requires all == RoundDown(Makes(r, history, avail), multiple)
    ensures n <= all <==> Needs(r, history, n) <= avail
  {
    RoundsDown(Makes(r, history, avail), multiple);
    if n <= Makes(r, history, avail) {
      RoundsDownTo(Makes(r, history, avail), n, multiple);
    }
    WholeToo(r, multiple, n);
    NeedsMakes(r, history, n, avail);
  }

  lemma WholeToo(r: Rate, multiple: Pos, n: nat)
    requires Whole(r, multiple) && Multiple(n, multiple)
    ensures Whole(r, n)
  {
    if r.Interpolator? {
      var p: int :| multiple == p * r.factor;
      var q: int :| n == q * multiple;
      assert n == (q * p) * r.factor;
    }
  }

  lemma RaisedIsMultiple(b: Block)
    requires b.fixedRate
    ensures Multiple(RaisedCap(b, CapOf(b)), b.multiple) && 0 < RaisedCap(b, CapOf(b))
    ensures forall n: nat :: Multiple(n, b.multiple) ==>
              (n <= RaisedCap(b, CapOf(b)) <==> n <= b.maxNoutput || n <= b.multiple)
  {
    RoundsDown(b.maxNoutput, b.multiple);
    MultipleOfItself(b.multiple);
    forall n: nat | Multiple(n, b.multiple) && n <= b.maxNoutput
      ensures n <= CapOf(b)
    {
      RoundsDownTo(b.maxNoutput, n, b.multiple);
    }
  }

  /** What a request for so many items comes to. */
  lemma RequestComesTo(r: Rate, history: Pos, b: Block, al: Align, i: Input, request: nat, all: nat, n: nat)
    requires b == RatedBlock(r, history, b.multiple, true, b.maxNoutput, b.estimate) && Whole(r, b.multiple)
    requires Askable(b, request, al) && all == RoundDown(Makes(r, history, i.avail), b.multiple) && 0 < all
    requires n == Min(Min(all, request), RaisedCap(b, CapOf(b)))
    ensures Try(b, al, [i], request) == Run(Asked(n, al, 0, -1))
    ensures Multiple(n, b.multiple) && 0 < n && Needs(r, history, n) <= i.avail
  {
    CappedTo(b, i.avail, request, CapOf(b), all);
    RoundsDown(Makes(r, history, i.avail), b.multiple);
    RaisedIsMultiple(b);
    MultipleMin(all, request, b.multiple);
    MultipleMin(Min(all, request), RaisedCap(b, CapOf(b)), b.multiple);
    MultiplesToMake(r, history, b.multiple, i.avail, all, n);
    assert b.forecast(n, 0) == Needs(r, history, n);
    OnePass(b, al, i, request, n);
  }

  /** A rated block with an output multiple, one input and some outputs is called exactly if there is
      something that it could be asked for, and then it is asked for the most. */
  lemma MostIsAsked(r: Rate, history: Pos, b: Block, al: Align, i: Input, outs: seq<Output>)
    requires b == RatedBlock(r, history, b.multiple, true, b.maxNoutput, b.estimate) && Whole(r, b.multiple)
    requires AlignOk(b, al) && outs != []
    ensures Decide(b, al, [i], outs).Run? <==> exists n: nat :: Possible(r, history, b, i.avail, outs, n)
    ensures var d := Decide(b, al, [i], outs);
            d.Run? ==> d.asked.items >= 0 && Possible(r, history, b, i.avail, outs, d.asked.items)
    ensures var d := Decide(b, al, [i], outs);
            d.Run? ==> forall n: nat :: Possible(r, history, b, i.avail, outs, n) ==> n <= d.asked.items
  {
    var d := Decide(b, al, [i], outs);
    MinRoomFits(b, outs);
    if d.Run? {
      AskedIsPossible(r, history, b, al, i, outs, MinRoom(b, outs).items);
    }
    forall n: nat | Possible(r, history, b, i.avail, outs, n)
      ensures d.Run? && n <= d.asked.items
    {
      MinRoomIsMost(b, outs, n);
      AskedIsMost(r, history, b, al, i, outs, MinRoom(b, outs).items, n);
    }
  }

  lemma AskedIsPossible(r: Rate, history: Pos, b: Block, al: Align, i: Input, outs: seq<Output>, room: nat)
    requires b == RatedBlock(r, history, b.multiple, true, b.maxNoutput, b.estimate) && Whole(r, b.multiple)
    requires outs != [] && MinRoom(b, outs) == Room(room) && Askable(b, room, al)
    requires Try(b, al, [i], room).Run?
    ensures var a := Try(b, al, [i], room).asked; a.items >= 0 && Possible(r, history, b, i.avail, outs, a.items)
  {
    var all := RoundDown(Makes(r, history, i.avail), b.multiple);
    OneInputRuns(r, history, b, al, [i], room);
    RoundedToNothing(Makes(r, history, i.avail), b.multiple);
    RequestComesTo(r, history, b, al, i, room, all, Min(Min(all, room), RaisedCap(b, CapOf(b))));
    RaisedIsMultiple(b);
    MinRoomTaken(b, outs);
    var n := Min(Min(all, room), RaisedCap(b, CapOf(b)));
    forall o | o in outs
      ensures Takes(b, o, n)
    {
      TakesLess(b, o, room, n);
    }
  }

  lemma AskedIsMost(r: Rate, history: Pos, b: Block, al: Align, i: Input, outs: seq<Output>, room: nat, n: nat)
    requires b == RatedBlock(r, history, b.multiple, true, b.maxNoutput, b.estimate) && Whole(r, b.multiple)
    requires outs != [] && Askable(b, room, al) && n <= room && Possible(r, history, b, i.avail, outs, n)
    ensures Try(b, al, [i], room).Run? && n <= Try(b, al, [i], room).asked.items
  {
    assert Takes(b, outs[0], n);
    var all := RoundDown(Makes(r, history, i.avail), b.multiple);
    MultiplesToMake(r, history, b.multiple, i.avail, all, n);
    RaisedIsMultiple(b);
    RequestComesTo(r, history, b, al, i, room, all, Min(Min(all, room), RaisedCap(b, CapOf(b))));
  }
}
