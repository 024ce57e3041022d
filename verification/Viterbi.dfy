/** Maximum-likelihood decoding over the trellis, without any storage bound: the cost of a
    path, the dynamic programme that finds the cheapest one, and the proof that it does. */
module ViterbiTheory {
  import opened Trellis

  /** A walk through the trellis: where it starts and the dibits it reads. */
  datatype Path = Path(start: State, dibits: seq<Dibit>) {
    function End(): State { EndState(start, dibits) }
  }

  function Fabs(x: real): real { if x < 0.0 then -x else x }

  /** The bipolar level sent for a symbol: -7, -5, ..., 5, 7. */
  function Level(y: Symbol): int { 2 * y - 7 }

  function Dist(x: real, y: Symbol): (r: real)
    ensures r >= 0.0
  {
    Fabs(x - Level(y) as real)
  }

  /** How far the received samples lie from the levels that a path would have sent. */
  function PathCost(p: Path, xs: seq<real>): real
    requires |p.dibits| == |xs|
    decreases |xs|
  {
    if xs == [] then 0.0
    else
      var m := |xs| - 1;
      var q := Path(p.start, p.dibits[..m]);
      PathCost(q, xs[..m]) + Dist(xs[m], Sym(q.End(), p.dibits[m]))
  }

  ghost predicate Fits(p: Path, xs: seq<real>, n: State) {
    |p.dibits| == |xs| && p.End() == n
  }

  /** The only state from which input k leads to n. */
  function Pred(n: State, k: Dibit): State {
    4 * Xor(X2(k), S(n)) + 2 * Xor(U(n), X1(k)) + T(n)
  }

  lemma PredInvertsNext(p: State, n: State, k: Dibit)
    ensures Next(p, k) == n <==> p == Pred(n, k)
  {
    NextBits(p, k);
    PredBits(n, k);
    SameBits(Next(p, k), n);
    SameBits(p, Pred(n, k));
  }

  lemma PredBits(n: State, k: Dibit)
    ensures S(Pred(n, k)) == Xor(X2(k), S(n))
    ensures T(Pred(n, k)) == Xor(U(n), X1(k))
    ensures U(Pred(n, k)) == T(n)
  {
    StateBits(Xor(X2(k), S(n)), Xor(U(n), X1(k)), T(n), Pred(n, k));
  }

  /** The symbol on the way into n depends on n and on the low input bit only: the state it
      comes from cancels the high bit. */
  lemma SymInto(n: State, k: Dibit)
    ensures Sym(Pred(n, k), k) == 4 * S(n) + 2 * X1(k) + T(n)
  {
    PredBits(n, k);
  }

  lemma SameBits(p: State, q: State)
    ensures p == q <==> S(p) == S(q) && T(p) == T(q) && U(p) == U(q)
  {
  }

  // ---- The first minimum of a list ----

  ghost predicate IsFirstMin(fs: seq<real>, r: nat) {
    && r < |fs|
    && (forall i :: 0 <= i < |fs| ==> fs[r] <= fs[i])
    && (forall i :: 0 <= i < r ==> fs[r] < fs[i])
  }

  function FirstMin(fs: seq<real>): (r: nat)
    requires fs != []
    ensures IsFirstMin(fs, r)
  {
    if |fs| == 1 then 0
    else
      var m := |fs| - 1;
      var r := FirstMin(fs[..m]);
      assert forall i :: 0 <= i < m ==> fs[..m][i] == fs[i];
      if fs[m] < fs[r] then m else r
  }

  lemma FirstMinUnique(fs: seq<real>, r: nat, q: nat)
    requires IsFirstMin(fs, r) && IsFirstMin(fs, q)
    ensures r == q
  {
    assert fs[r] <= fs[q] && fs[q] <= fs[r];
  }

  lemma FirstMinStep(fs: seq<real>, r: nat, k: nat)
    requires k < |fs| && IsFirstMin(fs[..k], r)
    ensures IsFirstMin(fs[..k + 1], if fs[k] < fs[r] then k else r)
  {
    var q := if fs[k] < fs[r] then k else r;
    forall i | 0 <= i < k
      ensures fs[q] <= fs[i] && (i < q ==> fs[q] < fs[i])
    {
      assert fs[..k][r] <= fs[..k][i] && (i < r ==> fs[..k][r] < fs[..k][i]);
    }
  }

  // ---- The dynamic programme ----

  function Branch(xs: seq<real>, n: State, k: Dibit): real
    requires xs != []
    decreases |xs|, 0
  {
    var m := |xs| - 1;
    Metric(xs[..m], Pred(n, k)) + Dist(xs[m], Sym(Pred(n, k), k))
  }

  function Branches(xs: seq<real>, n: State): (fs: seq<real>)
    requires xs != []
    ensures |fs| == 4
    decreases |xs|, 1
  {
    [Branch(xs, n, 0), Branch(xs, n, 1), Branch(xs, n, 2), Branch(xs, n, 3)]
  }

  /** The input that the cheapest way into n ends with; ties go to the smallest. */
  function Choice(xs: seq<real>, n: State): Dibit
    requires xs != []
    decreases |xs|, 2
  {
    FirstMin(Branches(xs, n))
  }

  /** The exact cost of the cheapest way into n. */
  function Metric(xs: seq<real>, n: State): real
    decreases |xs|, 3
  {
    if xs == [] then 0.0 else Branch(xs, n, Choice(xs, n))
  }

  function Survivor(xs: seq<real>, n: State): (p: Path)
    ensures |p.dibits| == |xs|
  {
    if xs == [] then Path(n, [])
    else
      var k := Choice(xs, n);
      var p := Survivor(xs[..|xs| - 1], Pred(n, k));
      Path(p.start, p.dibits + [k])
  }

  lemma BranchesAt(xs: seq<real>, n: State, k: Dibit)
    requires xs != []
    ensures Branches(xs, n)[k] == Branch(xs, n, k)
  {
    match k {
      case 0 =>
      case 1 =>
      case 2 =>
      case 3 =>
    }
  }

  lemma MetricIsLeast(xs: seq<real>, n: State, k: Dibit)
    requires xs != []
    ensures Metric(xs, n) <= Branch(xs, n, k)
    ensures k < Choice(xs, n) ==> Metric(xs, n) < Branch(xs, n, k)
  {
    BranchesAt(xs, n, k);
    BranchesAt(xs, n, Choice(xs, n));
  }

  /** The survivor of n is a path into n, and its cost is n's metric. */
  lemma {:induction false} SurvivorCost(xs: seq<real>, n: State)
    ensures Fits(Survivor(xs, n), xs, n)
    ensures PathCost(Survivor(xs, n), xs) == Metric(xs, n)
  {
    if xs != [] {
      var m := |xs| - 1;
      var k := Choice(xs, n);
      var q := Survivor(xs[..m], Pred(n, k));
      SurvivorCost(xs[..m], Pred(n, k));
      PredInvertsNext(Pred(n, k), n, k);
      assert (q.dibits + [k])[..m] == q.dibits;
    }
  }

  /** No path into n, from any start state, is cheaper than n's metric. */
  lemma {:induction false} MetricBound(xs: seq<real>, n: State, p: Path)
    requires Fits(p, xs, n)
    ensures Metric(xs, n) <= PathCost(p, xs)
  {
    if xs != [] {
      var m := |xs| - 1;
      var k := p.dibits[m];
      var q := Path(p.start, p.dibits[..m]);
      PredInvertsNext(q.End(), n, k);
      MetricBound(xs[..m], Pred(n, k), q);
      MetricIsLeast(xs, n, k);
    }
  }

  // ---- The best state and the decoded dibit ----

  const TB_LEN: nat := 32

  function Metrics(xs: seq<real>): (fs: seq<real>)
    ensures |fs| == 8
    ensures forall i: State :: fs[i] == Metric(xs, i)
  {
    seq(8, (i: nat) requires i < 8 => Metric(xs, i))
  }

  function Best(xs: seq<real>): State { FirstMin(Metrics(xs)) }

  /** What one decode call returns when xs are all the samples since the reset. */
  function Decoded(xs: seq<real>): Dibit
    requires xs != []
  {
    if |xs| < TB_LEN then 0 else Survivor(xs, Best(xs)).dibits[|xs| - TB_LEN]
  }

  /** The best state's survivor is globally cheapest: over all eight start states, all end
      states and all dibit sequences of that length. */
  lemma BestIsGlobal(xs: seq<real>, p: Path)
    requires |p.dibits| == |xs|
    ensures PathCost(Survivor(xs, Best(xs)), xs) <= PathCost(p, xs)
  {
    SurvivorCost(xs, Best(xs));
    MetricBound(xs, p.End(), p);
    assert Metrics(xs)[Best(xs)] <= Metrics(xs)[p.End()];
  }
}

/** The decoder as it is built: two alternating rows of metrics that are pulled back
    towards zero, and one 64-bit shift register of dibits for each state. */
module SingleViterbi {
  import opened Trellis
  import opened ViterbiTheory

  const WAS_SENT: seq<int> := [
    -7, -3, -7, -3, -7, -3, -7, -3,
    -5, -1, -5, -1, -5, -1, -5, -1,
    1, 5, 1, 5, 1, 5, 1, 5,
    3, 7, 3, 7, 3, 7, 3, 7]

  const TRANSITION_TABLE: seq<nat> := [
    0, 2, 4, 6,
    2, 0, 6, 4,
    1, 3, 5, 7,
    3, 1, 7, 5,
    4, 6, 0, 2,
    6, 4, 2, 0,
    5, 7, 1, 3,
    7, 5, 3, 1]

  /** The decoder's tables invert the encoder's: entry 4n+k names the state that input k
      takes to n and the level sent on that step. */
  lemma TablesInvertEncoder(n: State, k: Dibit)
    ensures TRANSITION_TABLE[4 * n + k] == Pred(n, k)
    ensures Next(Pred(n, k), k) == n
    ensures WAS_SENT[4 * n + k] == Level(Sym(Pred(n, k), k))
  {
    PredInvertsNext(Pred(n, k), n, k);
    TransitionTable(n, k);
    SentTable(n, k);
    SymInto(n, k);
  }

  lemma TransitionTableLow(n: State, k: Dibit)
    requires n < 4
    ensures TRANSITION_TABLE[4 * n + k] == Pred(n, k)
  {
    match n {
      case 0 => assert forall e: Dibit :: TRANSITION_TABLE[0 + e] == Pred(0, e);
      case 1 => assert forall e: Dibit :: TRANSITION_TABLE[4 + e] == Pred(1, e);
      case 2 => assert forall e: Dibit :: TRANSITION_TABLE[8 + e] == Pred(2, e);
      case 3 => assert forall e: Dibit :: TRANSITION_TABLE[12 + e] == Pred(3, e);
    }
  }

  lemma TransitionTableHigh(n: State, k: Dibit)
    requires n >= 4
    ensures TRANSITION_TABLE[4 * n + k] == Pred(n, k)
  {
    match n {
      case 4 => assert forall e: Dibit :: TRANSITION_TABLE[16 + e] == Pred(4, e);
      case 5 => assert forall e: Dibit :: TRANSITION_TABLE[20 + e] == Pred(5, e);
      case 6 => assert forall e: Dibit :: TRANSITION_TABLE[24 + e] == Pred(6, e);
      case 7 => assert forall e: Dibit :: TRANSITION_TABLE[28 + e] == Pred(7, e);
    }
  }

  lemma TransitionTable(n: State, k: Dibit)
    ensures TRANSITION_TABLE[4 * n + k] == Pred(n, k)
  {
    if n < 4 {
      TransitionTableLow(n, k);
    } else {
      TransitionTableHigh(n, k);
    }
  }

  function Sent(n: State, k: Dibit): int { 8 * S(n) + 4 * X1(k) + 2 * T(n) - 7 }

  lemma SentTable(n: State, k: Dibit)
    ensures WAS_SENT[4 * n + k] == Sent(n, k)
  {
    match n {
      case 0 => assert forall e: Dibit :: WAS_SENT[0 + e] == Sent(0, e);
      case 1 => assert forall e: Dibit :: WAS_SENT[4 + e] == Sent(1, e);
      case 2 => assert forall e: Dibit :: WAS_SENT[8 + e] == Sent(2, e);
      case 3 => assert forall e: Dibit :: WAS_SENT[12 + e] == Sent(3, e);
      case 4 => assert forall e: Dibit :: WAS_SENT[16 + e] == Sent(4, e);
      case 5 => assert forall e: Dibit :: WAS_SENT[20 + e] == Sent(5, e);
      case 6 => assert forall e: Dibit :: WAS_SENT[24 + e] == Sent(6, e);
      case 7 => assert forall e: Dibit :: WAS_SENT[28 + e] == Sent(7, e);
    }
  }

  // ---- The traceback register ----

  /** `(k << 62) | (t >> 2)` on a 64-bit word: the operands share no bit, so the or is a sum. */
  function Push(t: nat, k: Dibit): nat { k * 0x4000_0000_0000_0000 + t / 4 }

  /** The register of a state whose survivor reads ds. */
  function Window(ds: seq<Dibit>): nat {
    if ds == [] then 0 else Push(Window(ds[..|ds| - 1]), ds[|ds| - 1])
  }

  function Pow4(j: nat): (r: nat)
    ensures r >= 1
  {
    if j == 0 then 1 else 4 * Pow4(j - 1)
  }

  function ShiftDown(t: nat, j: nat): nat { if j == 0 then t else ShiftDown(t / 4, j - 1) }

  lemma {:induction false} ShiftDownPush(k: Dibit, m: nat, b: nat, j: nat)
    requires j <= m
    ensures ShiftDown(k * Pow4(m) + b, j) == k * Pow4(m - j) + ShiftDown(b, j)
  {
    if j > 0 {
      var q := k * Pow4(m - 1);
      assert k * Pow4(m) == 4 * q;
      assert (4 * q + b) / 4 == q + b / 4;
      ShiftDownPush(k, m - 1, b / 4, j - 1);
    }
  }

  lemma {:induction false} ShiftDownSmall(t: nat, j: nat)
    requires t < Pow4(j)
    ensures ShiftDown(t, j) == 0
  {
    if j > 0 {
      ShiftDownSmall(t / 4, j - 1);
    }
  }

  /** Place 31 of the register, read with k in place j counted from the low end. */
  lemma PushPlace(t: nat, k: Dibit, j: nat)
    requires j <= 31 && t < Pow4(32)
    ensures ShiftDown(Push(t, k), j) % 4 == if j == 31 then k else ShiftDown(t, j + 1) % 4
  {
    Pow4Values();
    ShiftDownPush(k, 31, t / 4, j);
    if j == 31 {
      ShiftDownSmall(t / 4, 31);
    } else {
      LowPlace(k * Pow4(30 - j), ShiftDown(t / 4, j));
    }
  }

  lemma LowPlace(q: nat, b: nat)
    ensures (4 * q + b) % 4 == b % 4
  {
  }

  lemma Pow4Values()
    ensures Pow4(31) == 0x4000_0000_0000_0000
  {
    assert Pow4(8) == 0x1_0000;
    assert Pow4(16) == 0x1_0000_0000;
    assert Pow4(24) == 0x1_0000_0000_0000;
  }

  /** The register never leaves 64 bits, and its place j holds the dibit that was pushed
      31-j pushes before the last one: the low place holds the one 31 pushes ago. */
  lemma {:induction false} WindowPlace(ds: seq<Dibit>, j: nat)
    requires j <= 31
    ensures Window(ds) < Pow4(32)
    ensures ShiftDown(Window(ds), j) % 4 ==
            if |ds| + j < 32 then 0 else ds[|ds| + j - 32]
  {
    if ds == [] {
      ShiftDownSmall(0, j);
    } else {
      var m := |ds| - 1;
      Pow4Values();
      WindowPlace(ds[..m], if j < 31 then j + 1 else 0);
      PushPlace(Window(ds[..m]), ds[m], j);
    }
  }

  lemma LowPlaceIsDecoded(xs: seq<real>, best: State)
    requires xs != [] && best == Best(xs)
    ensures Window(Survivor(xs, best).dibits) % 4 == Decoded(xs)
  {
    WindowPlace(Survivor(xs, best).dibits, 0);
  }

  // ---- The decoder ----

  const METRIC_LIMIT: real := 10000.0

  class Decoder {
    const pathMetrics: array2<real>
    const traceback: array2<nat>
    var phase: nat
    /** Every sample since the last reset. */
    ghost var heard: seq<real>
    /** The total subtracted from the metrics so far. */
    ghost var offset: real

    ghost predicate Shape() {
      && pathMetrics.Length0 == 2 && pathMetrics.Length1 == 8
      && traceback.Length0 == 2 && traceback.Length1 == 8
    }

    /** Row `row` holds the metrics and registers of xs, less `off`. */
    ghost predicate Holds(row: nat, n: nat, xs: seq<real>, off: real)
      requires Shape() && row < 2 && n < 8
      reads pathMetrics, traceback
    {
      && pathMetrics[row, n] == Metric(xs, n) - off
      && traceback[row, n] == Window(Survivor(xs, n).dibits)
    }

    ghost predicate Valid()
      reads this, pathMetrics, traceback
    {
      && Shape()
      && phase < 2
      && forall n :: 0 <= n < 8 ==> Holds(phase, n, heard, offset)
    }

    constructor ()
      ensures Valid() && heard == []
      ensures fresh(pathMetrics) && fresh(traceback)
    {
      pathMetrics := new real[2, 8];
      traceback := new nat[2, 8];
      new;
      Reset();
    }

    method Reset()
      requires Shape()
      modifies this, pathMetrics, traceback
      ensures Valid() && heard == []
    {
      for i := 0 to 2
        invariant forall r, n :: 0 <= r < i && 0 <= n < 8 ==> pathMetrics[r, n] == 0.0 && traceback[r, n] == 0
      {
        for j := 0 to 8
          invariant forall r, n :: 0 <= r < i && 0 <= n < 8 ==> pathMetrics[r, n] == 0.0 && traceback[r, n] == 0
          invariant forall n :: 0 <= n < j ==> pathMetrics[i, n] == 0.0 && traceback[i, n] == 0
        {
          pathMetrics[i, j] := 0.0;
          traceback[i, j] := 0;
        }
      }
      phase := 0;
      heard := [];
      offset := 0.0;
    }

    /** The table entry for input k into n: where it comes from and the level sent. */
    static method Entry(n: State, k: Dibit) returns (from: State, level: real)
      ensures from == Pred(n, k)
      ensures level == Level(Sym(from, k)) as real
    {
      TablesInvertEncoder(n, k);
      from, level := TRANSITION_TABLE[4 * n + k], WAS_SENT[4 * n + k] as real;
    }

    /** The cost of reaching n by input k, on the stored metrics. */
    method Candidate(input: real, n: State, k: Dibit) returns (cost: real)
      requires Valid()
      ensures cost == Branch(heard + [input], n, k) - offset
    {
      var from, level := Entry(n, k);
      assert (heard + [input])[..|heard|] == heard;
      assert Holds(phase, from, heard, offset);
      cost := Fabs(input - level) + pathMetrics[phase, from];
    }

    method Decode(input: real) returns (out: Dibit)
      requires Valid()
      modifies this, pathMetrics, traceback
      ensures Valid()
      ensures heard == old(heard) + [input]
      ensures out == Decoded(heard)
    {
      ghost var xs := heard + [input];
      AdvanceAll(input, 1 - phase, xs);
      var bestState, bestMetric := BestState(1 - phase, xs);
      ghost var newOffset := offset;
      if bestMetric > METRIC_LIMIT {
        newOffset := offset + bestMetric;
        PullBack(1 - phase, bestMetric, xs, newOffset);
      }
      phase := 1 - phase;
      heard := xs;
      offset := newOffset;
      assert Holds(phase, bestState, heard, offset);
      LowPlaceIsDecoded(xs, bestState);
      out := traceback[phase, bestState] % 4;
    }

    /** Fills the other row, one next state at a time. */
    method AdvanceAll(input: real, row: nat, ghost xs: seq<real>)
      requires Valid() && row == 1 - phase && xs == heard + [input]
      modifies pathMetrics, traceback
      ensures Valid()
      ensures forall n :: 0 <= n < 8 ==> Holds(row, n, xs, offset)
    {
      for nextState: int := 0 to 8
        invariant Valid()
        invariant forall n :: 0 <= n < nextState ==> Holds(row, n, xs, offset)
      {
        var minSymb, minMetric := SmallestInput(input, nextState);
        UpdateState(nextState, minSymb, minMetric, row, xs);
      }
    }

    /** The inner comparison loop: strict comparison keeps the first of equal candidates. */
    method SmallestInput(input: real, n: State) returns (minSymb: Dibit, minMetric: real)
      requires Valid()
      ensures minSymb == Choice(heard + [input], n)
      ensures minMetric == Metric(heard + [input], n) - offset
    {
      ghost var xs := heard + [input];
      ghost var fs := Branches(xs, n);
      minSymb := 0;
      BranchesAt(xs, n, 0);
      minMetric := Candidate(input, n, 0);
      for symbolSent: int := 1 to 4
        invariant minSymb < symbolSent && minMetric == fs[minSymb] - offset
        invariant IsFirstMin(fs[..symbolSent], minSymb)
      {
        BranchesAt(xs, n, symbolSent);
        FirstMinStep(fs, minSymb, symbolSent);
        var metric := Candidate(input, n, symbolSent);
        if metric < minMetric {
          minMetric, minSymb := metric, symbolSent;
        }
      }
      assert fs[..4] == fs;
      FirstMinUnique(fs, minSymb, FirstMin(fs));
    }

    method UpdateState(n: State, k: Dibit, metric: real, row: nat, ghost xs: seq<real>)
      requires Valid() && row == 1 - phase && |xs| > 0 && xs[..|xs| - 1] == heard
      requires k == Choice(xs, n) && metric == Metric(xs, n) - offset
      modifies pathMetrics, traceback
      ensures Valid() && Holds(row, n, xs, offset)
      ensures forall i :: 0 <= i < 8 && old(Holds(row, i, xs, offset)) ==> Holds(row, i, xs, offset)
    {
      var from, _ := Entry(n, k);
      assert Holds(phase, from, heard, offset);
      ghost var ds := Survivor(heard, from).dibits;
      assert (ds + [k])[..|ds|] == ds;
      pathMetrics[row, n] := metric;
      traceback[row, n] := Push(traceback[phase, from], k);
      forall i | 0 <= i < 8
        ensures Holds(phase, i, heard, offset)
      {
        assert old(Holds(phase, i, heard, offset));
      }
    }

    method BestState(row: nat, ghost xs: seq<real>) returns (bestState: State, bestMetric: real)
      requires Shape() && row < 2
      requires forall n :: 0 <= n < 8 ==> Holds(row, n, xs, offset)
      ensures bestState == Best(xs) && bestMetric == pathMetrics[row, bestState]
    {
      ghost var fs := Metrics(xs);
      assert Holds(row, 0, xs, offset);
      bestState, bestMetric := 0, pathMetrics[row, 0];
      for state := 1 to 8
        invariant bestState < state && bestMetric == pathMetrics[row, bestState] == fs[bestState] - offset
        invariant IsFirstMin(fs[..state], bestState)
      {
        assert Holds(row, state, xs, offset);
        FirstMinStep(fs, bestState, state);
        if pathMetrics[row, state] < bestMetric {
          bestState, bestMetric := state, pathMetrics[row, state];
        }
      }
      assert fs[..8] == fs;
      FirstMinUnique(fs, bestState, FirstMin(fs));
    }

    method PullBack(row: nat, amount: real, ghost xs: seq<real>, ghost newOffset: real)
      requires Shape() && row < 2 && newOffset == offset + amount
      requires forall n :: 0 <= n < 8 ==> Holds(row, n, xs, offset)
      modifies pathMetrics
      ensures forall n :: 0 <= n < 8 ==> Holds(row, n, xs, newOffset)
    {
      for state := 0 to 8
        invariant forall n :: 0 <= n < 8 ==>
                    pathMetrics[row, n] == old(pathMetrics[row, n]) - if n < state then amount else 0.0
      {
        pathMetrics[row, state] := pathMetrics[row, state] - amount;
      }
      forall n | 0 <= n < 8
        ensures Holds(row, n, xs, newOffset)
      {
        assert old(Holds(row, n, xs, offset));
      }
    }
  }
}
