/** The eight-state, rate 2/3 trellis code of the ATSC transmitter: its two tables, the
    bit-level definition they were generated from, and the encoder built on them. */
module Trellis {

  /** Two input bits, high bit first. */
  type Dibit = d: nat | d < 4
  type State = s: nat | s < 8
  type Symbol = y: nat | y < 8

  const NEXT_STATE: seq<nat> := [
    0, 1, 4, 5,
    2, 3, 6, 7,
    1, 0, 5, 4,
    3, 2, 7, 6,
    4, 5, 0, 1,
    6, 7, 2, 3,
    5, 4, 1, 0,
    7, 6, 3, 2]

  const OUT_SYMBOL: seq<nat> := [
    0, 2, 4, 6,
    1, 3, 5, 7,
    0, 2, 4, 6,
    1, 3, 5, 7,
    4, 6, 0, 2,
    5, 7, 1, 3,
    4, 6, 0, 2,
    5, 7, 1, 3]

  // ---- The generator's bit expressions ----

  type Bit = b: nat | b < 2

  function Xor(a: Bit, b: Bit): Bit { if a == b then 0 else 1 }

  /** Input bits x2 (high) and x1 (low); state bits s, t, u from high to low. */
  function X2(d: Dibit): Bit { d / 2 }
  function X1(d: Dibit): Bit { d % 2 }
  function S(s: State): Bit { s / 4 }
  function T(s: State): Bit { s / 2 % 2 }
  function U(s: State): Bit { s % 2 }

  lemma StateBits(a: Bit, b: Bit, c: Bit, s: State)
    requires s == 4 * a + 2 * b + c
    ensures S(s) == a && T(s) == b && U(s) == c
  {
    assert s / 2 == 2 * a + b;
  }

  /** One step of the shift register: the new s is x2 xor s, the new t is u, the new u is t xor x1. */
  function Next(s: State, d: Dibit): State {
    4 * Xor(X2(d), S(s)) + 2 * U(s) + Xor(T(s), X1(d))
  }

  /** The three output bits: z2 = x2 xor s, z1 = x1, z0 = u. */
  function Sym(s: State, d: Dibit): Symbol {
    4 * Xor(X2(d), S(s)) + 2 * X1(d) + U(s)
  }

  /** Both tables hold the generator's shift-register equations, entry by entry. */
  lemma TablesMatchGenerator(s: State, d: Dibit)
    ensures OUT_SYMBOL[4 * s + d] == Sym(s, d)
    ensures NEXT_STATE[4 * s + d] == Next(s, d)
  {
    SymbolTable(s, d);
    StateTable(s, d);
  }

  lemma SymbolTableLow(s: State, d: Dibit)
    requires s < 4
    ensures OUT_SYMBOL[4 * s + d] == Sym(s, d)
  {
    match s {
      case 0 => assert forall e: Dibit :: OUT_SYMBOL[0 + e] == Sym(0, e);
      case 1 => assert forall e: Dibit :: OUT_SYMBOL[4 + e] == Sym(1, e);
      case 2 => assert forall e: Dibit :: OUT_SYMBOL[8 + e] == Sym(2, e);
      case 3 => assert forall e: Dibit :: OUT_SYMBOL[12 + e] == Sym(3, e);
    }
  }

  lemma SymbolTableHigh(s: State, d: Dibit)
    requires s >= 4
    ensures OUT_SYMBOL[4 * s + d] == Sym(s, d)
  {
    match s {
      case 4 => assert forall e: Dibit :: OUT_SYMBOL[16 + e] == Sym(4, e);
      case 5 => assert forall e: Dibit :: OUT_SYMBOL[20 + e] == Sym(5, e);
      case 6 => assert forall e: Dibit :: OUT_SYMBOL[24 + e] == Sym(6, e);
      case 7 => assert forall e: Dibit :: OUT_SYMBOL[28 + e] == Sym(7, e);
    }
  }

  lemma SymbolTable(s: State, d: Dibit)
    ensures OUT_SYMBOL[4 * s + d] == Sym(s, d)
  {
    if s < 4 {
      SymbolTableLow(s, d);
    } else {
      SymbolTableHigh(s, d);
    }
  }

  lemma StateTableLow(s: State, d: Dibit)
    requires s < 4
    ensures NEXT_STATE[4 * s + d] == Next(s, d)
  {
    match s {
      case 0 => assert forall e: Dibit :: NEXT_STATE[0 + e] == Next(0, e);
      case 1 => assert forall e: Dibit :: NEXT_STATE[4 + e] == Next(1, e);
      case 2 => assert forall e: Dibit :: NEXT_STATE[8 + e] == Next(2, e);
      case 3 => assert forall e: Dibit :: NEXT_STATE[12 + e] == Next(3, e);
    }
  }

  lemma StateTableHigh(s: State, d: Dibit)
    requires s >= 4
    ensures NEXT_STATE[4 * s + d] == Next(s, d)
  {
    match s {
      case 4 => assert forall e: Dibit :: NEXT_STATE[16 + e] == Next(4, e);
      case 5 => assert forall e: Dibit :: NEXT_STATE[20 + e] == Next(5, e);
      case 6 => assert forall e: Dibit :: NEXT_STATE[24 + e] == Next(6, e);
      case 7 => assert forall e: Dibit :: NEXT_STATE[28 + e] == Next(7, e);
    }
  }

  lemma StateTable(s: State, d: Dibit)
    ensures NEXT_STATE[4 * s + d] == Next(s, d)
  {
    if s < 4 {
      StateTableLow(s, d);
    } else {
      StateTableHigh(s, d);
    }
  }

  lemma NextBits(s: State, d: Dibit)
    ensures S(Next(s, d)) == Xor(X2(d), S(s))
    ensures T(Next(s, d)) == U(s)
    ensures U(Next(s, d)) == Xor(T(s), X1(d))
  {
    StateBits(Xor(X2(d), S(s)), U(s), Xor(T(s), X1(d)), Next(s, d));
  }

  // ---- Paths through the trellis ----

  function EndState(start: State, ds: seq<Dibit>): State {
    if ds == [] then start
    else Next(EndState(start, ds[..|ds| - 1]), ds[|ds| - 1])
  }

  function Symbols(start: State, ds: seq<Dibit>): (ys: seq<Symbol>)
    ensures |ys| == |ds|
  {
    if ds == [] then []
    else Symbols(start, ds[..|ds| - 1]) + [Sym(EndState(start, ds[..|ds| - 1]), ds[|ds| - 1])]
  }

  lemma {:induction false} SymbolsAt(start: State, ds: seq<Dibit>, i: nat)
    requires i < |ds|
    ensures Symbols(start, ds)[i] == Sym(EndState(start, ds[..i]), ds[i])
  {
    if i < |ds| - 1 {
      SymbolsAt(start, ds[..|ds| - 1], i);
      assert ds[..|ds| - 1][..i] == ds[..i];
    }
  }

  lemma EndStateStep(start: State, ds: seq<Dibit>, i: nat)
    requires i < |ds|
    ensures EndState(start, ds[..i + 1]) == Next(EndState(start, ds[..i]), ds[i])
  {
    assert ds[..i + 1][..i] == ds[..i];
  }

  /** Encoding in two runs is encoding in one: the state carries everything over. */
  lemma {:induction false} SymbolsConcat(start: State, ds: seq<Dibit>, es: seq<Dibit>)
    ensures EndState(start, ds + es) == EndState(EndState(start, ds), es)
    ensures Symbols(start, ds + es) == Symbols(start, ds) + Symbols(EndState(start, ds), es)
  {
    if es == [] {
      assert ds + es == ds;
    } else {
      var m := |es| - 1;
      assert (ds + es)[..|ds| + m] == ds + es[..m];
      SymbolsConcat(start, ds, es[..m]);
    }
  }

  // ---- The encoder ----

  class BasicEncoder {
    var state: State

    constructor ()
      ensures state == 0
    {
      state := 0;
    }

    method Reset()
      modifies this
      ensures state == 0
    {
      state := 0;
    }

    method Encode(input: Dibit) returns (symbol: Symbol)
      modifies this
      ensures symbol == Sym(old(state), input)
      ensures state == Next(old(state), input)
    {
      var index := 4 * state + input;
      TablesMatchGenerator(state, input);
      state := NEXT_STATE[index];
      symbol := OUT_SYMBOL[index];
    }
  }
}
