/** What the decoder recovers of an encoder's input when the samples are noisy. */
module Recovery {
  import opened Trellis
  import opened ViterbiTheory

  function Abs(x: int): nat { if x < 0 then -x else x }

  /** The symbol a path sends at step i. */
  function SymAt(p: Path, i: nat): Symbol
    requires i < |p.dibits|
  {
    Sym(StateAt(p, i), p.dibits[i])
  }

  function StateAt(p: Path, i: nat): State
    requires i <= |p.dibits|
  {
    EndState(p.start, p.dibits[..i])
  }

  lemma StateStep(p: Path, i: nat)
    requires i < |p.dibits|
    ensures StateAt(p, i + 1) == Next(StateAt(p, i), p.dibits[i])
  {
    EndStateStep(p.start, p.dibits, i);
  }

  function GapAt(p: Path, q: Path, i: nat): nat
    requires i < |p.dibits| && i < |q.dibits|
  {
    Abs(SymAt(p, i) - SymAt(q, i))
  }

  /** The summed difference of the symbols two paths send in their first n steps. */
  function Gap(p: Path, q: Path, n: nat): nat
    requires n <= |p.dibits| && n <= |q.dibits|
  {
    if n == 0 then 0 else Gap(p, q, n - 1) + GapAt(p, q, n - 1)
  }

  lemma {:induction false} GapMonotone(p: Path, q: Path, m: nat, n: nat)
    requires m <= n <= |p.dibits| && n <= |q.dibits|
    ensures Gap(p, q, m) <= Gap(p, q, n)
  {
    if m < n {
      GapMonotone(p, q, m, n - 1);
      assert Gap(p, q, n) == Gap(p, q, n - 1) + GapAt(p, q, n - 1);
    }
  }

  lemma PrefixGap(p: Path, q: Path, m: nat, n: nat)
    requires n <= m <= |p.dibits| && m <= |q.dibits|
    ensures Gap(Path(p.start, p.dibits[..m]), Path(q.start, q.dibits[..m]), n) == Gap(p, q, n)
  {
    if n > 0 {
      PrefixGap(p, q, m, n - 1);
      assert p.dibits[..m][..n - 1] == p.dibits[..n - 1];
      assert q.dibits[..m][..n - 1] == q.dibits[..n - 1];
    }
  }

  /** Two paths that are both near the same samples are near each other: levels are twice
      as far apart as symbols. */
  lemma {:induction false} Triangle(p: Path, q: Path, xs: seq<real>)
    requires |p.dibits| == |q.dibits| == |xs|
    ensures 2.0 * Gap(p, q, |xs|) as real <= PathCost(p, xs) + PathCost(q, xs)
    decreases |xs|
  {
    if xs != [] {
      var m := |xs| - 1;
      var p', q' := Path(p.start, p.dibits[..m]), Path(q.start, q.dibits[..m]);
      Triangle(p', q', xs[..m]);
      PrefixGap(p, q, m, m);
      NearTwoLevels(xs[m], SymAt(p, m), SymAt(q, m));
    }
  }

  lemma NearTwoLevels(x: real, y: Symbol, z: Symbol)
    ensures 2.0 * Abs(y - z) as real <= Dist(x, y) + Dist(x, z)
  {
    var a, b := Level(y) as real, Level(z) as real;
    assert a - b == 2.0 * (y - z) as real;
  }

  // ---- Free distance: what a wrong dibit costs ----

  /** What a symbol remembers of the steps before: its high bit is the input's high bit added
      to the previous symbol's, its low bit is the previous input's low bit added to the low
      bit of the symbol before that. */
  lemma Memory(s: State, d0: Dibit, d1: Dibit, d2: Dibit)
    ensures
      var s1 := Next(s, d0);
      && Sym(s1, d1) / 4 == Xor(X2(d1), Sym(s, d0) / 4)
      && Sym(s1, d1) / 2 % 2 == X1(d1)
      && Sym(Next(s1, d1), d2) % 2 == Xor(Sym(s, d0) % 2, X1(d1))
  {
    SymBits(s, d0);
    SymBits(Next(s, d0), d1);
    SymBits(Next(Next(s, d0), d1), d2);
    NextBits(s, d0);
    NextBits(Next(s, d0), d1);
  }

  lemma SymBits(s: State, d: Dibit)
    ensures Sym(s, d) / 4 == Xor(X2(d), S(s))
    ensures Sym(s, d) / 2 % 2 == X1(d)
    ensures Sym(s, d) % 2 == U(s)
  {
  }

  /** How far apart two symbols can be whose high, middle and low bits differ as told. */
  ghost predicate GapRule(gap: nat, high: bool, middle: bool, low: bool) {
    && (gap == 0 ==> !high && !middle && !low)
    && (gap == 1 ==> low && (high ==> middle))
  }

  lemma GapRuleHolds(y: Symbol, z: Symbol)
    ensures GapRule(Abs(y - z), y / 4 != z / 4, y / 2 % 2 != z / 2 % 2, y % 2 != z % 2)
  {
  }

  /** Wherever two paths differ in a dibit other than the first, they send symbols at least 2
      apart in sum over the step before, that step and the step after. For the first dibit
      there is no step before; its low bit is paid for by the two steps after it. */
  lemma WrongDibitCosts(p: Path, q: Path, i: nat)
    requires i + 2 < |p.dibits| && |p.dibits| == |q.dibits|
    requires p.dibits[i + 1] != q.dibits[i + 1] || X1(p.dibits[i]) != X1(q.dibits[i])
    ensures GapAt(p, q, i) + GapAt(p, q, i + 1) + GapAt(p, q, i + 2) >= 2
  {
    SentInThree(p, i, StateAt(p, i), p.dibits[i], p.dibits[i + 1], p.dibits[i + 2]);
    SentInThree(q, i, StateAt(q, i), q.dibits[i], q.dibits[i + 1], q.dibits[i + 2]);
    ThreeSteps(StateAt(p, i), p.dibits[i], p.dibits[i + 1], p.dibits[i + 2],
               StateAt(q, i), q.dibits[i], q.dibits[i + 1], q.dibits[i + 2]);
  }

  lemma SentInThree(p: Path, i: nat, a: State, d0: Dibit, d1: Dibit, d2: Dibit)
    requires i + 2 < |p.dibits| && a == StateAt(p, i)
    requires d0 == p.dibits[i] && d1 == p.dibits[i + 1] && d2 == p.dibits[i + 2]
    ensures SymAt(p, i) == Sym(a, d0) && SymAt(p, i + 1) == Sym(Next(a, d0), d1)
    ensures SymAt(p, i + 2) == Sym(Next(Next(a, d0), d1), d2)
  {
    StateStep(p, i);
    StateStep(p, i + 1);
  }

  lemma ThreeSteps(a: State, d0: Dibit, d1: Dibit, d2: Dibit, b: State, e0: Dibit, e1: Dibit, e2: Dibit)
    requires d1 != e1 || X1(d0) != X1(e0)
    ensures
      var a1, b1 := Next(a, d0), Next(b, e0);
      Abs(Sym(a, d0) - Sym(b, e0)) + Abs(Sym(a1, d1) - Sym(b1, e1))
        + Abs(Sym(Next(a1, d1), d2) - Sym(Next(b1, e1), e2)) >= 2
  {
    var a1, b1 := Next(a, d0), Next(b, e0);
    Memory(a, d0, d1, d2);
    Memory(b, e0, e1, e2);
    SymBits(a, d0);
    SymBits(b, e0);
    ThreeSymbols(X2(d1), Sym(a, d0), Sym(a1, d1), Sym(Next(a1, d1), d2),
                 X2(e1), Sym(b, e0), Sym(b1, e1), Sym(Next(b1, e1), e2));
  }

  lemma ThreeSymbols(h: Bit, y0: Symbol, y1: Symbol, y2: Symbol, g: Bit, z0: Symbol, z1: Symbol, z2: Symbol)
    requires y1 / 4 == Xor(h, y0 / 4) && y2 % 2 == Xor(y0 % 2, y1 / 2 % 2)
    requires z1 / 4 == Xor(g, z0 / 4) && z2 % 2 == Xor(z0 % 2, z1 / 2 % 2)
    requires h != g || y1 / 2 % 2 != z1 / 2 % 2 || y0 / 2 % 2 != z0 / 2 % 2
    ensures Abs(y0 - z0) + Abs(y1 - z1) + Abs(y2 - z2) >= 2
  {
    GapRuleHolds(y0, z0);
    GapRuleHolds(y1, z1);
    GapRuleHolds(y2, z2);
    ErrorPattern(
      Abs(y0 - z0), y0 / 4 != z0 / 4, y0 / 2 % 2 != z0 / 2 % 2, y0 % 2 != z0 % 2,
      Abs(y1 - z1), y1 / 4 != z1 / 4, y1 / 2 % 2 != z1 / 2 % 2, y1 % 2 != z1 % 2,
      Abs(y2 - z2), y2 % 2 != z2 % 2, h != g);
  }

  lemma ErrorPattern(
    gap0: nat, high0: bool, middle0: bool, low0: bool,
    gap1: nat, high1: bool, middle1: bool, low1: bool,
    gap2: nat, low2: bool, input: bool)
    requires GapRule(gap0, high0, middle0, low0) && GapRule(gap1, high1, middle1, low1)
    requires low2 ==> gap2 >= 1
    requires high1 == (input != high0) && low2 == (low0 != middle1)
    requires input || middle1 || middle0
    ensures gap0 + gap1 + gap2 >= 2
  {
  }

  lemma WindowGap(p: Path, q: Path, i: nat)
    requires |p.dibits| == |q.dibits| && i + 3 <= |p.dibits|
    ensures GapAt(p, q, i) + GapAt(p, q, i + 1) + GapAt(p, q, i + 2) <= Gap(p, q, |p.dibits|)
  {
    GapMonotone(p, q, i + 3, |p.dibits|);
    assert Gap(p, q, i + 3) == Gap(p, q, i + 2) + GapAt(p, q, i + 2);
    assert Gap(p, q, i + 2) == Gap(p, q, i + 1) + GapAt(p, q, i + 1);
  }

  lemma CheapWindow(sent: Path, p: Path, xs: seq<real>, i: nat)
    requires |sent.dibits| == |p.dibits| == |xs| && i + 3 <= |xs|
    requires PathCost(sent, xs) < 2.0 && PathCost(p, xs) < 2.0
    ensures GapAt(sent, p, i) + GapAt(sent, p, i + 1) + GapAt(sent, p, i + 2) < 2
  {
    Triangle(sent, p, xs);
    WindowGap(sent, p, i);
  }

  /** Noise of total size below 2 cannot make a rival as good as the path that was sent,
      unless the rival agrees with it everywhere but at the very ends. */
  lemma CheapRivalAgrees(sent: Path, p: Path, xs: seq<real>, i: nat)
    requires |sent.dibits| == |p.dibits| == |xs|
    requires PathCost(sent, xs) < 2.0 && PathCost(p, xs) < 2.0
    requires i + 2 < |xs|
    ensures p.dibits[i + 1] == sent.dibits[i + 1]
    ensures X1(p.dibits[i]) == X1(sent.dibits[i])
  {
    if sent.dibits[i + 1] != p.dibits[i + 1] || X1(sent.dibits[i]) != X1(p.dibits[i]) {
      CheapWindow(sent, p, xs, i);
      WrongDibitCosts(sent, p, i);
    }
  }

  lemma EqualStart(xs: seq<real>, n: State, k: Dibit)
    requires |xs| == 1 && k >= 2
    ensures Branch(xs, n, k) == Branch(xs, n, k - 2)
  {
    SymInto(n, k);
    SymInto(n, k - 2);
  }

  /** All start metrics are equal, so a survivor's first step is always won by an input with
      high bit 0: the input with high bit 1 offers the same symbol and comes later. */
  lemma {:induction false} FirstDibitIsLow(xs: seq<real>, n: State)
    requires xs != []
    ensures Survivor(xs, n).dibits[0] < 2
  {
    var k := Choice(xs, n);
    if |xs| > 1 {
      FirstDibitIsLow(xs[..|xs| - 1], Pred(n, k));
    } else if k >= 2 {
      MetricIsLeast(xs, n, k - 2);
      EqualStart(xs, n, k);
    }
  }

  /** Whatever state the encoder starts in, if the noise on all samples so far adds up to less
      than 2, then call n of the decoder returns the dibit sent 31 calls earlier; of the very
      first dibit it returns only the low bit, and before that it returns zeros. */
  lemma NoisyRecovery(start: State, ds: seq<Dibit>, xs: seq<real>)
    requires |ds| == |xs| > 0
    requires PathCost(Path(start, ds), xs) < 2.0
    ensures Decoded(xs) ==
            if |xs| < TB_LEN then 0
            else if |xs| == TB_LEN then X1(ds[0])
            else ds[|xs| - TB_LEN]
  {
    if |xs| >= TB_LEN {
      BestSurvivorAgrees(Path(start, ds), xs, Best(xs), |xs| - TB_LEN);
    }
  }

  lemma BestSurvivorAgrees(sent: Path, xs: seq<real>, best: State, j: nat)
    requires |sent.dibits| == |xs| && j + 2 < |xs| && best == Best(xs) && PathCost(sent, xs) < 2.0
    ensures Survivor(xs, best).dibits[j] == if j == 0 then X1(sent.dibits[0]) else sent.dibits[j]
  {
    BestIsGlobal(xs, sent);
    CheapSurvivorAgrees(sent, xs, best, j);
  }

  lemma CheapSurvivorAgrees(sent: Path, xs: seq<real>, n: State, j: nat)
    requires |sent.dibits| == |xs| && j + 2 < |xs|
    requires PathCost(sent, xs) < 2.0 && PathCost(Survivor(xs, n), xs) < 2.0
    ensures Survivor(xs, n).dibits[j] == if j == 0 then X1(sent.dibits[0]) else sent.dibits[j]
  {
    if j > 0 {
      CheapRivalAgrees(sent, Survivor(xs, n), xs, j - 1);
    } else {
      CheapRivalAgrees(sent, Survivor(xs, n), xs, 0);
      FirstDibitIsLow(xs, n);
      LowDibit(Survivor(xs, n).dibits[0]);
    }
  }

  /** The levels an encoder's symbols are sent as. */
  function Levels(ys: seq<Symbol>): (xs: seq<real>)
    ensures |xs| == |ys|
  {
    seq(|ys|, i requires 0 <= i < |ys| => Level(ys[i]) as real)
  }

  lemma {:induction false} CleanCost(start: State, ds: seq<Dibit>)
    ensures PathCost(Path(start, ds), Levels(Symbols(start, ds))) == 0.0
  {
    if ds != [] {
      var m := |ds| - 1;
      CleanCost(start, ds[..m]);
      assert Levels(Symbols(start, ds))[..m] == Levels(Symbols(start, ds[..m]));
    }
  }

  lemma CleanFirstDibit(start: State, ds: seq<Dibit>, xs: seq<real>)
    requires |ds| == TB_LEN && xs == Levels(Symbols(start, ds))
    ensures Decoded(xs) == X1(ds[0])
  {
    CleanCost(start, ds);
    NoisyRecovery(start, ds, xs);
  }

  /** Without noise, the first dibit comes back exactly when its high bit is 0. */
  lemma FirstDibitRecovered(start: State, ds: seq<Dibit>)
    requires |ds| == TB_LEN
    ensures Decoded(Levels(Symbols(start, ds))) == ds[0] <==> ds[0] < 2
  {
    CleanFirstDibit(start, ds, Levels(Symbols(start, ds)));
    LowDibit(ds[0]);
  }

  lemma LowDibit(d: Dibit)
    ensures d < 2 <==> X1(d) == d
  {
  }
}
