/** A transmitter and a receiver joined by a noisy channel: what comes out, and when. */
module Link {
  import opened Trellis
  import opened ViterbiTheory
  import opened Recovery
  import opened TrellisMux
  import opened Codec

  type Block = b: seq<Byte> | |b| == 2484 witness seq(2484, _ => 0)
  type Samples = x: seq<real> | |x| == 9984 witness seq(9984, _ => 0.0)

  /** The coders' states before block n of a stream that starts after a reset. */
  function StatesBefore(blocks: seq<Block>, n: nat): States
    requires n <= |blocks|
  {
    if n == 0 then seq(12, _ => 0) else StatesAfter(StatesBefore(blocks, n - 1), blocks[n - 1])
  }

  /** The dibits coder e takes from the first n blocks. */
  function Stream(blocks: seq<Block>, e: Coder, n: nat): (ds: seq<Dibit>)
    requires n <= |blocks|
    ensures |ds| == GROUPS * n
  {
    if n == 0 then [] else Stream(blocks, e, n - 1) + CoderDibits(blocks[n - 1], e)
  }

  /** The samples coder e gets from the first n received blocks. */
  function Heard(rx: seq<Samples>, e: Coder, n: nat): (xs: seq<real>)
    requires n <= |rx|
    ensures |xs| == GROUPS * n
  {
    if n == 0 then [] else Heard(rx, e, n - 1) + CoderSamples(rx[n - 1], e)
  }

  lemma {:induction false} StatesFollowStream(blocks: seq<Block>, e: Coder, n: nat)
    requires n <= |blocks|
    ensures StatesBefore(blocks, n)[e] == EndState(0, Stream(blocks, e, n))
  {
    if n > 0 {
      StatesFollowStream(blocks, e, n - 1);
      SymbolsConcat(0, Stream(blocks, e, n - 1), CoderDibits(blocks[n - 1], e));
    }
  }

  // ---- Prefixes ----

  lemma {:induction false} CostOfPrefix(p: Path, xs: seq<real>, m: nat)
    requires |p.dibits| == |xs| && m <= |xs|
    ensures PathCost(Path(p.start, p.dibits[..m]), xs[..m]) <= PathCost(p, xs)
    decreases |xs|
  {
    if m == |xs| {
      assert xs[..m] == xs && p.dibits[..m] == p.dibits;
    } else {
      var k := |xs| - 1;
      CostOfPrefix(Path(p.start, p.dibits[..k]), xs[..k], m);
      assert xs[..k][..m] == xs[..m] && p.dibits[..k][..m] == p.dibits[..m];
    }
  }

  lemma {:induction false} StreamPart(blocks: seq<Block>, e: Coder, n: nat, k: nat, g: nat)
    requires k < n <= |blocks| && g < GROUPS
    ensures Stream(blocks, e, n)[GROUPS * k + g] == CoderDibits(blocks[k], e)[g]
  {
    if k < n - 1 {
      StreamPart(blocks, e, n - 1, k, g);
    }
  }

  lemma {:induction false} HeardPrefix(rx: seq<Samples>, e: Coder, m: nat, n: nat)
    requires m <= n <= |rx|
    ensures Heard(rx, e, n)[..GROUPS * m] == Heard(rx, e, m)
  {
    if m < n {
      HeardPrefix(rx, e, m, n - 1);
      assert Heard(rx, e, n)[..GROUPS * m] == Heard(rx, e, n - 1)[..GROUPS * m];
    }
  }

  // ---- Delivery ----

  /** All the noise that coder e's samples carry adds up to less than 2. */
  ghost predicate Quiet(blocks: seq<Block>, rx: seq<Samples>, e: Coder)
    requires |blocks| == |rx|
  {
    PathCost(Path(0, Stream(blocks, e, |blocks|)), Heard(rx, e, |rx|)) < 2.0
  }

  /** What is due at sample i of a coder that was sent ds: the dibit of 828 samples before,
      the first of them without its high bit. */
  function Late(ds: seq<Dibit>, i: nat): Dibit
    requires i < GROUPS + |ds|
  {
    if i < GROUPS then 0 else if i == GROUPS then X1(ds[0]) else ds[i - GROUPS]
  }

  lemma PrefixDecoded(ds: seq<Dibit>, all: seq<real>, m: nat, xs: seq<real>, i: nat)
    requires |ds| == |all| && 0 < m <= |all| && PathCost(Path(0, ds), all) < 2.0 && xs == all[..m]
    requires i == m + FIFO_SIZE - 1
    ensures Decoded(xs) == Late(ds, i)
  {
    CostOfPrefix(Path(0, ds), all, m);
    NoisyRecovery(0, ds[..m], xs);
    LateDibit(ds, m, i);
  }

  lemma LateDibit(ds: seq<Dibit>, m: nat, i: nat)
    requires 0 < m <= |ds| && i == m + FIFO_SIZE - 1
    ensures Late(ds, i) == if m < TB_LEN then 0 else if m == TB_LEN then X1(ds[..m][0]) else ds[..m][m - TB_LEN]
  {
  }

  lemma PrefixOfPrefix(all: seq<real>, xs: seq<real>, m: nat)
    requires m <= |xs| <= |all| && xs == all[..|xs|]
    ensures xs[..m] == all[..m]
  {
  }

  /** A coder that has heard ds with little noise puts out each dibit 828 samples later. */
  lemma DibitReceived(ds: seq<Dibit>, all: seq<real>, xs: seq<real>, i: nat)
    requires |ds| == |all| && PathCost(Path(0, ds), all) < 2.0
    requires i < |xs| <= |all| && xs == all[..|xs|]
    ensures Received(xs, i) == Late(ds, i)
  {
    if i >= FIFO_SIZE {
      var m := i - FIFO_SIZE + 1;
      PrefixOfPrefix(all, xs, m);
      PrefixDecoded(ds, all, m, xs[..m], i);
    }
  }

  /** Dibit j of the byte that is due: all of it, but of the very first dibit the low bit only. */
  function Arriving(blocks: seq<Block>, n: nat, e: Coder, c: nat, j: nat): Dibit
    requires 0 < n <= |blocks| && c < SEGMENT_SIZE && j < 4
  {
    var d := DibitOf(blocks[n - 1][Homes(e)[c]], 6 - 2 * j);
    if n == 1 && c == 0 && j == 0 then X1(d) else d
  }

  lemma ArrivingDibit(blocks: seq<Block>, n: nat, e: Coder, c: nat, j: nat)
    requires 0 < n <= |blocks| && c < SEGMENT_SIZE && j < 4
    ensures CoderDibits(blocks[n - 1], e)[4 * c + j] == DibitOf(blocks[n - 1][Homes(e)[c]], 6 - 2 * j)
  {
    var g := 4 * c + j;
    assert g / 4 == c && g % 4 == j;
    var ds := CoderDibits(blocks[n - 1], e);
    assert ds[g] == DibitOf(blocks[n - 1][ByteIndex(e, g)], Shift(g));
  }

  lemma ArrivingLate(blocks: seq<Block>, n: nat, e: Coder, c: nat, j: nat, i: nat)
    requires n < |blocks| && c < SEGMENT_SIZE && j < 4 && i == GROUPS * n + 4 * c + j
    ensures i < GROUPS * |blocks|
    ensures Late(Stream(blocks, e, |blocks|), i) == if n == 0 then 0 else Arriving(blocks, n, e, c, j)
  {
    if n > 0 {
      StreamPart(blocks, e, |blocks|, n - 1, 4 * c + j);
      ArrivingDibit(blocks, n, e, c, j);
    }
  }

  lemma SampleArrives(blocks: seq<Block>, rx: seq<Samples>, n: nat, e: Coder, c: nat, j: nat, xs: seq<real>, i: nat)
    requires n < |blocks| == |rx| && c < SEGMENT_SIZE && j < 4 && Quiet(blocks, rx, e)
    requires i == GROUPS * n + 4 * c + j && xs == Heard(rx, e, n + 1)
    ensures i < |xs| && Received(xs, i) == if n == 0 then 0 else Arriving(blocks, n, e, c, j)
  {
    HeardPrefix(rx, e, n + 1, |rx|);
    DibitReceived(Stream(blocks, e, |blocks|), Heard(rx, e, |rx|), xs, i);
    ArrivingLate(blocks, n, e, c, j, i);
  }

  lemma DibitArrives(blocks: seq<Block>, rx: seq<Samples>, n: nat, e: Coder, c: nat, j: nat, xs: seq<real>, past: nat)
    requires n < |blocks| == |rx| && c < SEGMENT_SIZE && j < 4 && Quiet(blocks, rx, e)
    requires xs == Heard(rx, e, n + 1) && past == GROUPS * n
    ensures ChunkDibits(xs, past, c)[j] == if n == 0 then 0 else Arriving(blocks, n, e, c, j)
  {
    var i := past + 4 * c + j;
    SampleArrives(blocks, rx, n, e, c, j, xs, i);
    ChunkDibit(xs, past, c, j, i);
  }

  /** The byte that decode call n puts into byte HomeByte(c, e) of its output. */
  lemma ByteDelivered(blocks: seq<Block>, rx: seq<Samples>, n: nat, e: Coder, c: nat)
    requires n < |blocks| == |rx| && c < SEGMENT_SIZE && Quiet(blocks, rx, e)
    ensures BlockByte(Heard(rx, e, n), CoderSamples(rx[n], e), c) ==
            if n == 0 then 0
            else if n == 1 && c == 0 then blocks[0][Homes(e)[0]] % 128
            else blocks[n - 1][Homes(e)[c]]
  {
    var xs := Heard(rx, e, n + 1);
    assert xs == Heard(rx, e, n) + CoderSamples(rx[n], e);
    var past := GROUPS * n;
    var ds := ChunkDibits(xs, past, c);
    DibitArrives(blocks, rx, n, e, c, 0, xs, past);
    DibitArrives(blocks, rx, n, e, c, 1, xs, past);
    DibitArrives(blocks, rx, n, e, c, 2, xs, past);
    DibitArrives(blocks, rx, n, e, c, 3, xs, past);
    assert ReceivedByte(xs, past, c) == Packed(ds[0], ds[1], ds[2], ds[3]);
    if n > 0 {
      PackArriving(blocks, n, e, c);
    }
  }

  lemma PackArriving(blocks: seq<Block>, n: nat, e: Coder, c: nat)
    requires 0 < n <= |blocks| && c < SEGMENT_SIZE
    ensures Packed(Arriving(blocks, n, e, c, 0), Arriving(blocks, n, e, c, 1),
                   Arriving(blocks, n, e, c, 2), Arriving(blocks, n, e, c, 3)) ==
            var b := blocks[n - 1][Homes(e)[c]]; if n == 1 && c == 0 then b % 128 else b
  {
    var b := blocks[n - 1][Homes(e)[c]];
    PackedAgain(b);
    TopBit(b);
  }

  lemma TopBit(b: Byte)
    ensures 64 * X1(DibitOf(b, 6)) + b % 64 == b % 128
    ensures 64 * DibitOf(b, 6) + b % 64 == b
  {
  }

  lemma EveryByteHasAHome(b: nat)
    requires b < BLOCK_BYTES
    ensures exists e: Coder :: Homes(e)[b / 12] == b
  {
    var t := Turn(4 * (b / 12) / 69);
    var e := Seat(t, b % 12);
    SeatRank(e, t);
    SeatsDistinct(t);
    assert Homes(e)[b / 12] == b;
  }

  /** What decode call n returns when blocks were sent: nothing but zeros at first, and then the
      block before, in which only the very first byte of each coder lacks its top bit. */
  function Delivered(blocks: seq<Block>, n: nat): Block
    requires n < |blocks|
  {
    if n == 0 then seq(BLOCK_BYTES, _ => 0)
    else if n == 1 then
      seq(BLOCK_BYTES, b requires 0 <= b < BLOCK_BYTES => if b < 12 then blocks[0][b] % 128 else blocks[0][b])
    else blocks[n - 1]
  }

  lemma LinkDelivers(blocks: seq<Block>, rx: seq<Samples>, n: nat, out: Block)
    requires n < |blocks| == |rx|
    requires forall e: Coder :: Quiet(blocks, rx, e)
    requires forall e: Coder :: BytesOf(out, e, Heard(rx, e, n), CoderSamples(rx[n], e))
    ensures out == Delivered(blocks, n)
  {
    forall b | 0 <= b < BLOCK_BYTES
      ensures out[b] == Delivered(blocks, n)[b]
    {
      EveryByteHasAHome(b);
      var e: Coder :| Homes(e)[b / 12] == b;
      ByteDelivered(blocks, rx, n, e, b / 12);
    }
  }

  /** The first block comes through unharmed exactly if no coder's first byte has its top bit set. */
  lemma FirstBlockIntact(blocks: seq<Block>)
    requires 2 <= |blocks|
    ensures Delivered(blocks, 1) == blocks[0] <==> forall b :: 0 <= b < 12 ==> blocks[0][b] < 128
  {
    var out := Delivered(blocks, 1);
    if forall b :: 0 <= b < 12 ==> blocks[0][b] < 128 {
      assert out == blocks[0];
    } else {
      var b :| 0 <= b < 12 && blocks[0][b] >= 128;
      assert out[b] != blocks[0][b];
    }
  }

  // ---- A clean channel ----

  /** Block n as sent: the levels of its symbols. */
  function Sent(blocks: seq<Block>, n: nat): Samples
    requires n < |blocks|
  {
    Levels(Encoded(StatesBefore(blocks, n), blocks[n]))
  }

  /** Nothing is added on the way, so far. */
  ghost predicate Clean(blocks: seq<Block>, rx: seq<Samples>) {
    |rx| <= |blocks| && forall n :: 0 <= n < |rx| ==> rx[n] == Sent(blocks, n)
  }

  lemma CleanLonger(blocks: seq<Block>, rx: seq<Samples>, samples: Samples)
    requires Clean(blocks, rx) && |rx| < |blocks| && samples == Sent(blocks, |rx|)
    ensures Clean(blocks, rx + [samples])
  {
    var longer := rx + [samples];
    forall n | 0 <= n < |longer| ensures longer[n] == Sent(blocks, n) {
      if n == |rx| {
        assert longer[n] == samples;
      } else {
        assert longer[n] == rx[n];
      }
    }
  }

  lemma CleanSamples(blocks: seq<Block>, n: nat, e: Coder)
    requires n < |blocks|
    ensures CoderSamples(Sent(blocks, n), e) ==
            Levels(Symbols(StatesBefore(blocks, n)[e], CoderDibits(blocks[n], e)))
  {
    var ss := StatesBefore(blocks, n);
    var xs := CoderSamples(Sent(blocks, n), e);
    forall g | 0 <= g < GROUPS
      ensures xs[g] == Level(Symbols(ss[e], CoderDibits(blocks[n], e))[g]) as real
    {
      EncodedAtSymbolIndex(ss, blocks[n], e, g);
    }
  }

  lemma LevelsConcat(a: seq<Symbol>, b: seq<Symbol>)
    ensures Levels(a + b) == Levels(a) + Levels(b)
  {
  }

  lemma CleanHeardStep(blocks: seq<Block>, rx: seq<Samples>, e: Coder, n: nat, past: seq<Symbol>)
    requires n < |rx| && Clean(blocks, rx) && Heard(rx, e, n) == Levels(past)
    ensures Heard(rx, e, n + 1) ==
            Levels(past + Symbols(StatesBefore(blocks, n)[e], CoderDibits(blocks[n], e)))
  {
    CleanSamples(blocks, n, e);
    LevelsConcat(past, Symbols(StatesBefore(blocks, n)[e], CoderDibits(blocks[n], e)));
  }

  lemma CleanSymbolsStep(blocks: seq<Block>, e: Coder, n: nat)
    requires n < |blocks|
    ensures Symbols(0, Stream(blocks, e, n + 1)) ==
            Symbols(0, Stream(blocks, e, n)) + Symbols(StatesBefore(blocks, n)[e], CoderDibits(blocks[n], e))
  {
    StatesFollowStream(blocks, e, n);
    SymbolsConcat(0, Stream(blocks, e, n), CoderDibits(blocks[n], e));
  }

  lemma {:induction false} CleanHeard(blocks: seq<Block>, rx: seq<Samples>, e: Coder, n: nat)
    requires n <= |rx| && Clean(blocks, rx)
    ensures Heard(rx, e, n) == Levels(Symbols(0, Stream(blocks, e, n)))
  {
    if n > 0 {
      var k, past := n - 1, Symbols(0, Stream(blocks, e, n - 1));
      CleanHeard(blocks, rx, e, k);
      CleanHeardStep(blocks, rx, e, k, past);
      CleanSymbolsStep(blocks, e, k);
      assert Heard(rx, e, k + 1) == Levels(Symbols(0, Stream(blocks, e, k + 1)));
    } else {
      assert Levels([]) == [];
    }
  }

  lemma CleanIsQuiet(blocks: seq<Block>, rx: seq<Samples>, e: Coder)
    requires Clean(blocks, rx) && |rx| == |blocks|
    ensures Quiet(blocks, rx, e)
  {
    CleanHeard(blocks, rx, e, |rx|);
    CleanCost(0, Stream(blocks, e, |blocks|));
  }

  method SendBlock(enc: TrellisEncoder, blocks: seq<Block>, n: nat, ghost after: nat) returns (samples: Samples)
    requires n < |blocks| && enc.Valid() && after == n + 1
    requires enc.CoderStates() == StatesBefore(blocks, n)
    modifies enc.enc
    ensures enc.CoderStates() == StatesBefore(blocks, after)
    ensures samples == Sent(blocks, n)
  {
    var symbols := new Symbol[BLOCK_SYMBOLS](_ => 0);
    enc.EncodeHelper(symbols, blocks[n]);
    samples := Levels(symbols[..]);
  }

  /** The sender: what the encoder makes of the blocks, one call a block. */
  method Transmit(blocks: seq<Block>) returns (rx: seq<Samples>)
    ensures Clean(blocks, rx) && |rx| == |blocks|
  {
    var enc := new TrellisEncoder();
    rx := [];
    for n := 0 to |blocks|
      invariant enc.Valid() && fresh(enc.enc)
      invariant enc.CoderStates() == StatesBefore(blocks, n)
      invariant |rx| == n && Clean(blocks, rx)
    {
      var samples := SendBlock(enc, blocks, n, n + 1);
      CleanLonger(blocks, rx, samples);
      rx := rx + [samples];
    }
  }

  method ReceiveBlock(dec: ViterbiDecoder, rx: seq<Samples>,
                      ghost blocks: seq<Block>, n: nat, ghost after: nat) returns (out: Block)
    requires dec.Valid()
    requires n < |blocks| == |rx| && after == n + 1
    requires forall e: Coder :: Quiet(blocks, rx, e)
    requires forall e: Coder :: dec.Heard(e) == Heard(rx, e, n)
    modifies dec.AllParts()
    ensures dec.Valid()
    ensures forall e: Coder :: dec.Heard(e) == Heard(rx, e, after)
    ensures out == Delivered(blocks, n)
  {
    var bytes := new Byte[BLOCK_BYTES](_ => 0);
    dec.DecodeHelper(bytes, rx[n]);
    out := bytes[..];
    LinkDelivers(blocks, rx, n, out);
  }

  /** The receiver, on samples with little noise: each decode call gives the block of the call before. */
  method Receive(rx: seq<Samples>, ghost blocks: seq<Block>) returns (outs: seq<Block>)
    requires |blocks| == |rx| && forall e: Coder :: Quiet(blocks, rx, e)
    ensures |outs| == |rx|
    ensures forall n :: 0 <= n < |rx| ==> outs[n] == Delivered(blocks, n)
  {
    var dec := new ViterbiDecoder();
    outs := [];
    for n := 0 to |rx|
      invariant dec.Valid() && fresh(dec.AllParts())
      invariant forall e: Coder :: dec.Heard(e) == Heard(rx, e, n)
      invariant |outs| == n && forall k :: 0 <= k < n ==> outs[k] == Delivered(blocks, k)
    {
      var out := ReceiveBlock(dec, rx, blocks, n, n + 1);
      outs := outs + [out];
    }
  }

  /** Encoder and decoder back to back. */
  method Loopback(blocks: seq<Block>) returns (outs: seq<Block>)
    ensures |outs| == |blocks|
    ensures forall n :: 0 <= n < |blocks| ==> outs[n] == Delivered(blocks, n)
  {
    var rx := Transmit(blocks);
    forall e: Coder ensures Quiet(blocks, rx, e) {
      CleanIsQuiet(blocks, rx, e);
    }
    outs := Receive(rx, blocks);
  }
}
