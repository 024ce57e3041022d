/** The delay line that pads each decoder's latency up to a whole number of segments. */
module InterleaverFifo {

  class Fifo {
    const size: nat
    const buf: array<nat>
    var position: nat
    /** Everything stuffed in since the last reset. */
    ghost var fed: seq<nat>

    ghost predicate Valid()
      reads this, buf
    {
      && buf.Length == size
      && position <= size && (size > 0 ==> position < size)
      && buf[position..] + buf[..position] == Pending(size, fed)
    }

    constructor (size: nat)
      ensures Valid() && fed == [] && this.size == size
      ensures fresh(buf)
    {
      this.size := size;
      position := 0;
      buf := new nat[size](_ => 0);
      fed := [];
    }

    method Reset()
      requires buf.Length == size
      modifies this, buf
      ensures Valid() && fed == []
    {
      position := 0;
      for i := 0 to size
        invariant position == 0
        invariant forall j :: 0 <= j < i ==> buf[j] == 0
      {
        buf[i] := 0;
      }
      fed := [];
    }

    /** The oldest symbol comes out as the new one goes in: a pure delay of `size` symbols. */
    method Stuff(input: nat) returns (oldest: nat)
      requires Valid()
      modifies this, buf
      ensures Valid() && fed == old(fed) + [input]
      ensures oldest == Delayed(size, fed)
    {
      ghost var before := Pending(size, fed);
      PendingStep(size, fed, input);
      fed := fed + [input];
      if size == 0 {
        return input;
      }
      oldest := buf[position];
      assert oldest == before[0];
      ghost var tail := buf[position + 1..] + buf[..position];
      assert before[1..] == tail;
      buf[position] := input;
      assert buf[position + 1..] + buf[..position + 1] == tail + [input];
      position := position + 1;
      if position >= size {
        position := 0;
        assert buf[0..] + buf[..0] == buf[..size];
      }
    }
  }

  /** What a delay line of `size` zeros still holds after `fed` went in, oldest first. */
  function Pending(size: nat, fed: seq<nat>): (r: seq<nat>)
    ensures |r| == size
  {
    (seq(size, _ => 0) + fed)[|fed|..]
  }

  /** What came out when the last symbol of `fed` went in. */
  function Delayed(size: nat, fed: seq<nat>): nat
    requires fed != []
  {
    if |fed| <= size then 0 else fed[|fed| - 1 - size]
  }

  lemma PendingStep(size: nat, fed: seq<nat>, x: nat)
    ensures Pending(size, fed + [x]) == (Pending(size, fed) + [x])[1..]
    ensures size > 0 ==> Pending(size, fed)[0] == Delayed(size, fed + [x])
    ensures size == 0 ==> x == Delayed(size, fed + [x])
  {
  }
}

/** Twelve Viterbi decoders and delay lines behind the multiplexer, and what comes out of one call. */
module Codec {
  import opened Trellis
  import opened ViterbiTheory
  import opened Recovery
  import opened TrellisMux
  import SingleViterbi
  import InterleaverFifo

  /** 832 - 4 - (32 - 1) */
  const FIFO_SIZE: nat := 797

  /** The samples a block gives to coder e. */
  function CoderSamples(block: seq<real>, e: Coder): (xs: seq<real>)
    requires |block| == BLOCK_SYMBOLS
    ensures |xs| == GROUPS
  {
    seq(GROUPS, g requires 0 <= g < GROUPS => SampleAt(block, e, g))
  }

  function SampleAt(block: seq<real>, e: Coder, g: nat): real
    requires |block| == BLOCK_SYMBOLS && g < GROUPS
  {
    SymbolInRange(e, g);
    block[SymbolIndex(e, g)]
  }

  lemma SymbolInRange(e: Coder, g: nat)
    requires g < GROUPS
    ensures SymbolIndex(e, g) < BLOCK_SYMBOLS
  {
    GroupPosition(g, Rank(e, Turn(g / 69)));
  }

  /** What coder e of the receiver puts out for its i-th sample, when it has heard xs. */
  function Received(xs: seq<real>, i: nat): Dibit
    requires i < |xs|
  {
    if i < FIFO_SIZE then 0 else Decoded(xs[..i - FIFO_SIZE + 1])
  }

  /** A byte put together from four dibits, high bits first. */
  function Packed(a: Dibit, b: Dibit, c: Dibit, d: Dibit): Byte { 64 * a + 16 * b + 4 * c + d }

  /** The high dibit of a byte is the first, and the four make up the byte. */
  lemma PackedAgain(b: Byte)
    ensures 64 * DibitOf(b, 6) + 16 * DibitOf(b, 4) + 4 * DibitOf(b, 2) + DibitOf(b, 0) == b
    ensures Packed(DibitOf(b, 6), DibitOf(b, 4), DibitOf(b, 2), DibitOf(b, 0)) == b
  {
    var q := b / 4;
    var p := q / 4;
    assert b / 16 == p && b / 64 == p / 4;
  }

  lemma PackedDibits(a: Dibit, b: Dibit, c: Dibit, d: Dibit, p: Byte)
    requires p == Packed(a, b, c, d)
    ensures DibitOf(p, 6) == a && DibitOf(p, 4) == b && DibitOf(p, 2) == c && DibitOf(p, 0) == d
  {
    assert p / 64 == a;
    assert p / 16 == 4 * a + b;
    assert p / 4 == 16 * a + 4 * b + c;
  }

  /** `(byte & ~(0x03 << shift)) | (dibit << shift)` */
  function Patch(b: Byte, shift: nat, d: Dibit): Byte
    requires shift in {0, 2, 4, 6}
  {
    Packed(if shift == 6 then d else DibitOf(b, 6), if shift == 4 then d else DibitOf(b, 4),
           if shift == 2 then d else DibitOf(b, 2), if shift == 0 then d else DibitOf(b, 0))
  }

  /** A byte into which the first n of four dibits have been patched, from zero. */
  function Partly(ds: seq<Dibit>, n: nat): Byte
    requires |ds| == 4 && n <= 4
  {
    Packed(if n > 0 then ds[0] else 0, if n > 1 then ds[1] else 0,
           if n > 2 then ds[2] else 0, if n > 3 then ds[3] else 0)
  }

  lemma PatchPacked(a: Dibit, b: Dibit, c: Dibit, d: Dibit, x: Dibit, p: Byte)
    requires p == Packed(a, b, c, d)
    ensures Patch(p, 6, x) == Packed(x, b, c, d)
    ensures Patch(p, 4, x) == Packed(a, x, c, d)
    ensures Patch(p, 2, x) == Packed(a, b, x, d)
    ensures Patch(p, 0, x) == Packed(a, b, c, x)
  {
    PackedDibits(a, b, c, d, p);
  }

  lemma PatchPartly(ds: seq<Dibit>, n: nat)
    requires |ds| == 4 && n < 4
    ensures Patch(Partly(ds, n), 6 - 2 * n, ds[n]) == Partly(ds, n + 1)
  {
    PatchPacked(if n > 0 then ds[0] else 0, if n > 1 then ds[1] else 0, if n > 2 then ds[2] else 0, 0,
                ds[n], Partly(ds, n));
  }

  /** The four dibits of coder e's byte in chunk c, when its samples before this block were
      `past` in number and xs are all its samples up to the end of the block. */
  function ChunkDibits(xs: seq<real>, past: nat, c: nat): (ds: seq<Dibit>)
    requires past + GROUPS <= |xs| && c < SEGMENT_SIZE
    ensures |ds| == 4
  {
    [Received(xs, past + 4 * c), Received(xs, past + 4 * c + 1),
     Received(xs, past + 4 * c + 2), Received(xs, past + 4 * c + 3)]
  }

  /** What the receiver writes into byte HomeByte(c, e) of its output block. */
  function ReceivedByte(xs: seq<real>, past: nat, c: nat): Byte
    requires past + GROUPS <= |xs| && c < SEGMENT_SIZE
  {
    Partly(ChunkDibits(xs, past, c), 4)
  }

  function BlockByte(before: seq<real>, samples: seq<real>, c: nat): Byte
    requires |samples| == GROUPS && c < SEGMENT_SIZE
  {
    ReceivedByte(before + samples, |before|, c)
  }

  // ---- The receiver ----

  class ViterbiDecoder {
    const viterbi: seq<SingleViterbi.Decoder>
    const fifo: seq<InterleaverFifo.Fifo>
    /** The generated tables of the multiplexer. */
    const whichSyms: seq<seq<nat>>
    const whichDibits: seq<seq<nat>>

    static ghost function CoderParts(v: SingleViterbi.Decoder, f: InterleaverFifo.Fifo): set<object> {
      {v, v.pathMetrics, v.traceback, f, f.buf}
    }

    ghost function Parts(e: Coder): set<object>
      requires |viterbi| == 12 && |fifo| == 12
    {
      CoderParts(viterbi[e], fifo[e])
    }

    ghost predicate Wired() {
      && |viterbi| == 12 && |fifo| == 12 && |whichSyms| == 12 && |whichDibits| == 12
      && (forall e: Coder, f: Coder :: e != f ==> Parts(e) !! Parts(f))
      && (forall e: Coder :: whichSyms[e] == SymbolPlaces(e) && whichDibits[e] == DibitPlaces(e))
    }

    /** Coder e works, and its delay line was fed what its decoder returned. */
    ghost predicate CoderValid(e: Coder)
      requires Wired()
      reads Parts(e)
    {
      && viterbi[e].Valid() && fifo[e].Valid() && fifo[e].size == FIFO_SIZE
      && fifo[e].fed == DecodedAll(viterbi[e].heard)
    }

    /** A decoder and a delay line as they are built. */
    static ghost predicate Built(v: SingleViterbi.Decoder, f: InterleaverFifo.Fifo)
      reads CoderParts(v, f)
    {
      v.Valid() && v.heard == [] && f.Valid() && f.fed == [] && f.size == FIFO_SIZE
    }

    static method BuildCoders() returns (vs: seq<SingleViterbi.Decoder>, fs: seq<InterleaverFifo.Fifo>)
      ensures |vs| == |fs| == 12
      ensures forall j :: 0 <= j < 12 ==> Built(vs[j], fs[j]) && fresh(CoderParts(vs[j], fs[j]))
      ensures forall j, k :: 0 <= j < k < 12 ==> CoderParts(vs[j], fs[j]) !! CoderParts(vs[k], fs[k])
    {
      vs, fs := [], [];
      for i := 0 to NCODERS
        invariant |vs| == |fs| == i
        invariant forall j :: 0 <= j < i ==> Built(vs[j], fs[j]) && fresh(CoderParts(vs[j], fs[j]))
        invariant forall j, k :: 0 <= j < k < i ==> CoderParts(vs[j], fs[j]) !! CoderParts(vs[k], fs[k])
      {
        var v := new SingleViterbi.Decoder();
        var f := new InterleaverFifo.Fifo(FIFO_SIZE);
        vs, fs := vs + [v], fs + [f];
      }
    }

    constructor ()
      ensures Valid() && fresh(AllParts())
      ensures forall e: Coder :: Heard(e) == []
    {
      var t, _ := BuildDecodeStructures();
      whichSyms, whichDibits := t.syms, t.dibits;
      var vs, fs := BuildCoders();
      viterbi, fifo := vs, fs;
      new;
      forall e: Coder ensures CoderValid(e) && Heard(e) == [] {
        assert Built(viterbi[e], fifo[e]);
      }
    }

    ghost function AllParts(): set<object>
      requires |viterbi| == 12 && |fifo| == 12
    {
      set e: Coder, o | o in Parts(e) :: o
    }

    ghost predicate Valid()
      reads if |viterbi| == 12 && |fifo| == 12 then AllParts() else {}
    {
      Wired() && forall e: Coder :: CoderValid(e)
    }

    /** All samples coder e has had since the reset. */
    ghost function Heard(e: Coder): seq<real>
      requires Wired()
      reads viterbi[e]
    {
      viterbi[e].heard
    }

    ghost function AllHeard(): (hs: seq<seq<real>>)
      requires Wired()
      reads viterbi
      ensures |hs| == 12 && forall e: Coder :: hs[e] == Heard(e)
    {
      seq(12, e requires 0 <= e < 12 reads viterbi => Heard(e))
    }

    /** Every symbol goes through its own coder, and every dibit that comes out is patched into
        its own place: afterwards each byte is what its coder received, 828 samples late. */
    method DecodeHelper(out: array<Byte>, symbolsIn: seq<real>)
      requires Valid() && out.Length == BLOCK_BYTES && |symbolsIn| == BLOCK_SYMBOLS
      requires out !in AllParts()
      modifies out, AllParts()
      ensures Valid()
      ensures forall e: Coder :: Heard(e) == old(AllHeard())[e] + CoderSamples(symbolsIn, e)
      ensures forall e: Coder :: BytesOf(out[..], e, old(AllHeard())[e], CoderSamples(symbolsIn, e))
    {
      ghost var before := AllHeard();
      for i := 0 to BLOCK_BYTES
        modifies out
        invariant forall b :: 0 <= b < i ==> out[b] == 0
      {
        out[i] := 0;
      }
      forall e: Coder ensures Blank(out[..], e) {
      }
      for encoder: int := 0 to NCODERS
        invariant Wired() && forall e: Coder :: CoderValid(e)
        invariant forall e: Coder ::
                    Heard(e) == if e < encoder then before[e] + CoderSamples(symbolsIn, e) else before[e]
        invariant forall e: Coder :: e < encoder ==> BytesOf(out[..], e, before[e], CoderSamples(symbolsIn, e))
        invariant forall e: Coder :: e >= encoder ==> Blank(out[..], e)
      {
        ghost var was := out[..];
        ghost var now := encoder;
        DecodeCoder(encoder, out, symbolsIn);
        OtherBytes(now, was, out[..]);
        forall e: Coder | e != now
          ensures CoderValid(e)
          ensures Heard(e) == if e < encoder then before[e] + CoderSamples(symbolsIn, e) else before[e]
        {
          assert Parts(e) !! Parts(now);
        }
      }
    }

    method DecodeCoder(e: Coder, out: array<Byte>, symbolsIn: seq<real>)
      requires Wired() && CoderValid(e) && out.Length == BLOCK_BYTES && |symbolsIn| == BLOCK_SYMBOLS
      requires out !in Parts(e) && Blank(out[..], e)
      modifies out, Parts(e)
      ensures CoderValid(e)
      ensures Heard(e) == old(Heard(e)) + CoderSamples(symbolsIn, e)
      ensures BytesOf(out[..], e, old(Heard(e)), CoderSamples(symbolsIn, e))
      ensures forall b :: 0 <= b < BLOCK_BYTES && b !in Homes(e) ==> out[b] == old(out[b])
    {
      ghost var past := |Heard(e)|;
      ghost var samples := CoderSamples(symbolsIn, e);
      ghost var xs := Heard(e) + samples;
      ghost var i := past;
      for g := 0 to GROUPS
        invariant i == past + g && CoderValid(e) && Heard(e) == xs[..i]
        invariant Placed(out[..], Homes(e), WantedDibits(xs, past), g)
        invariant forall b :: 0 <= b < BLOCK_BYTES && b !in Homes(e) ==> out[b] == old(out[b])
      {
        DecodeSymbol(e, out, symbolsIn, g, xs, past, i, g + 1);
        i := i + 1;
      }
      assert xs[..i] == xs;
      BytesFromPlaced(out[..], e, Heard(e)[..past], samples);
    }

    method DecodeSymbol(e: Coder, out: array<Byte>, symbolsIn: seq<real>, g: nat,
                        ghost xs: seq<real>, ghost past: nat, ghost i: nat, ghost after: nat)
      requires Wired() && CoderValid(e) && out.Length == BLOCK_BYTES && |symbolsIn| == BLOCK_SYMBOLS
      requires out !in Parts(e) && g < GROUPS && after == g + 1
      requires |xs| == past + GROUPS && xs[past..] == CoderSamples(symbolsIn, e)
      requires i == past + g && Heard(e) == xs[..i]
      requires Placed(out[..], Homes(e), WantedDibits(xs, past), g)
      modifies out, Parts(e)
      ensures CoderValid(e) && Heard(e) == xs[..i + 1]
      ensures Placed(out[..], Homes(e), WantedDibits(xs, past), after)
      ensures forall b :: 0 <= b < BLOCK_BYTES && b !in Homes(e) ==> out[b] == old(out[b])
    {
      TableEntries(e, g);
      var symbol := symbolsIn[whichSyms[e][g]];
      assert symbol == xs[past..][g] == xs[i];
      ghost var want := WantedDibits(xs, past);
      WantedDibit(xs, past, g, i, want);
      DecodeAndPut(e, symbol, out, whichDibits[e][g], xs, i, Homes(e), want, g, after);
    }

    method DecodeAndPut(e: Coder, symbol: real, out: array<Byte>, dbwhere: nat, ghost xs: seq<real>, ghost i: nat,
                        ghost homes: seq<nat>, ghost want: seq<seq<Dibit>>, ghost g: nat, ghost after: nat)
      requires Wired() && CoderValid(e) && i < |xs| && Heard(e) == xs[..i] && symbol == xs[i]
      requires out !in Parts(e)
      requires out.Length == BLOCK_BYTES && g < GROUPS && after == g + 1 && Ascending(homes)
      requires |want| == SEGMENT_SIZE && forall c :: 0 <= c < SEGMENT_SIZE ==> |want[c]| == 4
      requires Placed(out[..], homes, want, g)
      requires dbwhere == 8 * homes[g / 4] + Shift(g) && Received(xs, i) == want[g / 4][g % 4]
      modifies out, Parts(e)
      ensures CoderValid(e) && Heard(e) == xs[..i + 1]
      ensures Placed(out[..], homes, want, after)
      ensures forall b :: 0 <= b < BLOCK_BYTES && b !in homes ==> out[b] == old(out[b])
    {
      var dibit := DecodeSample(e, symbol, xs, i);
      PutDibit(out, dbwhere, dibit, homes, want, g, after);
    }

    /** `out[i] = (out[i] & ~(0x03 << shift)) | (dibit << shift)` */
    static method PutDibit(out: array<Byte>, dbwhere: nat, dibit: Dibit, ghost homes: seq<nat>,
                           ghost want: seq<seq<Dibit>>, ghost g: nat, ghost after: nat)
      requires out.Length == BLOCK_BYTES && g < GROUPS && after == g + 1 && Ascending(homes)
      requires |want| == SEGMENT_SIZE && forall c :: 0 <= c < SEGMENT_SIZE ==> |want[c]| == 4
      requires Placed(out[..], homes, want, g)
      requires dbwhere == 8 * homes[g / 4] + Shift(g) && dibit == want[g / 4][g % 4]
      modifies out
      ensures Placed(out[..], homes, want, after)
      ensures forall b :: 0 <= b < BLOCK_BYTES && b !in homes ==> out[b] == old(out[b])
    {
      var dbindex, shift := dbwhere / 8, dbwhere % 8;
      ghost var c := g / 4;
      DibitPlace(g, c, homes[c], dbwhere);
      PatchPartly(want[c], g % 4);
      assert out[..][homes[c]] == Partly(want[c], Done(c, g));
      out[dbindex] := Patch(out[dbindex], shift, dibit);
      forall d | 0 <= d < SEGMENT_SIZE
        ensures out[..][homes[d]] == Partly(want[d], Done(d, after))
      {
        assert old(out[..])[homes[d]] == Partly(want[d], Done(d, g));
      }
    }

    /** One sample through coder e: decode, then delay. */
    method DecodeSample(e: Coder, symbol: real, ghost xs: seq<real>, ghost i: nat) returns (dibit: Dibit)
      requires Wired() && CoderValid(e) && i < |xs| && Heard(e) == xs[..i] && symbol == xs[i]
      modifies Parts(e)
      ensures CoderValid(e) && Heard(e) == xs[..i + 1]
      ensures dibit == Received(xs, i)
    {
      assert xs[..i] + [xs[i]] == xs[..i + 1];
      DecodedAllStep(xs, i);
      var decoded := viterbi[e].Decode(symbol);
      var delayed := fifo[e].Stuff(decoded);
      DelayedIsReceived(xs, i);
      dibit := delayed;
    }
  }

  lemma TableEntries(e: Coder, g: nat)
    requires g < GROUPS
    ensures SymbolPlaces(e)[g] == SymbolIndex(e, g) < BLOCK_SYMBOLS
    ensures DibitPlaces(e)[g] == 8 * Homes(e)[g / 4] + Shift(g)
  {
    SymbolInRange(e, g);
    var places := DibitPlaces(e);
    assert places[g] == 8 * ByteIndex(e, g) + Shift(g);
  }

  lemma DibitPlace(g: nat, c: nat, home: nat, dbwhere: nat)
    requires c == g / 4 && dbwhere == 8 * home + Shift(g)
    ensures dbwhere / 8 == home && dbwhere % 8 == Shift(g)
    ensures Shift(g) == 6 - 2 * (g % 4) && Done(c, g) == g % 4 && Done(c, g + 1) == g % 4 + 1
    ensures forall d: nat :: d != c ==> Done(d, g + 1) == Done(d, g)
  {
  }

  /** How many dibits of chunk c are in place when a coder has done g of its dibits. */
  function Done(c: int, g: int): nat { if g <= 4 * c then 0 else if g >= 4 * c + 4 then 4 else g - 4 * c }

  ghost predicate Ascending(homes: seq<nat>) {
    && |homes| == SEGMENT_SIZE
    && (forall c :: 0 <= c < SEGMENT_SIZE ==> homes[c] < BLOCK_BYTES)
    && (forall c, d :: 0 <= c < d < SEGMENT_SIZE ==> homes[c] < homes[d])
  }

  /** Coder e's bytes of a block, chunk by chunk. */
  function Homes(e: Coder): (r: seq<nat>)
    ensures Ascending(r)
  {
    seq(SEGMENT_SIZE, c requires 0 <= c < SEGMENT_SIZE => HomeByte(c, e))
  }

  lemma HomesDisjoint(e: Coder, f: Coder, c: nat)
    requires e != f && c < SEGMENT_SIZE
    ensures Homes(e)[c] !in Homes(f)
  {
    forall d | 0 <= d < SEGMENT_SIZE
      ensures Homes(f)[d] != Homes(e)[c]
    {
      if d == c {
        SeatRank(e, Turn(4 * c / 69));
        SeatRank(f, Turn(4 * c / 69));
      }
    }
  }

  ghost predicate Blank(out: seq<Byte>, e: Coder)
    requires |out| == BLOCK_BYTES
  {
    forall c :: 0 <= c < SEGMENT_SIZE ==> out[Homes(e)[c]] == 0
  }

  /** Coder e's bytes of the output are what it received. */
  ghost predicate BytesOf(out: seq<Byte>, e: Coder, before: seq<real>, samples: seq<real>)
    requires |out| == BLOCK_BYTES && |samples| == GROUPS
  {
    forall c :: 0 <= c < SEGMENT_SIZE ==> out[Homes(e)[c]] == BlockByte(before, samples, c)
  }

  function WantedDibits(xs: seq<real>, past: nat): (want: seq<seq<Dibit>>)
    requires past + GROUPS <= |xs|
    ensures |want| == SEGMENT_SIZE
    ensures forall c :: 0 <= c < SEGMENT_SIZE ==> |want[c]| == 4
  {
    seq(SEGMENT_SIZE, c requires 0 <= c < SEGMENT_SIZE => ChunkDibits(xs, past, c))
  }

  lemma WantedDibit(xs: seq<real>, past: nat, g: nat, i: nat, want: seq<seq<Dibit>>)
    requires past + GROUPS <= |xs| && g < GROUPS && i == past + g && want == WantedDibits(xs, past)
    ensures want[g / 4][g % 4] == Received(xs, i)
  {
    var c, j := g / 4, g % 4;
    assert want[c] == ChunkDibits(xs, past, c);
    ChunkDibit(xs, past, c, j, i);
  }

  lemma ChunkDibit(xs: seq<real>, past: nat, c: nat, j: nat, i: nat)
    requires past + GROUPS <= |xs| && c < SEGMENT_SIZE && j < 4 && i == past + 4 * c + j
    ensures ChunkDibits(xs, past, c)[j] == Received(xs, i)
  {
    match j {
      case 0 =>
      case 1 =>
      case 2 =>
      case 3 =>
    }
  }

  /** The first g dibits are in their places, and the places of the others hold zeros. */
  ghost predicate Placed(out: seq<Byte>, homes: seq<nat>, want: seq<seq<Dibit>>, g: nat)
    requires |out| == BLOCK_BYTES && Ascending(homes)
    requires |want| == SEGMENT_SIZE && forall c :: 0 <= c < SEGMENT_SIZE ==> |want[c]| == 4
  {
    forall c :: 0 <= c < SEGMENT_SIZE ==> out[homes[c]] == Partly(want[c], Done(c, g))
  }

  lemma BytesFromPlaced(out: seq<Byte>, e: Coder, before: seq<real>, samples: seq<real>)
    requires |out| == BLOCK_BYTES && |samples| == GROUPS
    requires Placed(out, Homes(e), WantedDibits(before + samples, |before|), GROUPS)
    ensures BytesOf(out, e, before, samples)
  {
  }

  lemma OtherBytes(e: Coder, was: seq<Byte>, now: seq<Byte>)
    requires |was| == |now| == BLOCK_BYTES
    requires forall b :: 0 <= b < BLOCK_BYTES && b !in Homes(e) ==> now[b] == was[b]
    ensures forall f: Coder :: f != e && Blank(was, f) ==> Blank(now, f)
    ensures forall f: Coder, before, samples | |samples| == GROUPS ::
              f != e && BytesOf(was, f, before, samples) ==> BytesOf(now, f, before, samples)
  {
    forall f: Coder, c | f != e && 0 <= c < SEGMENT_SIZE
      ensures now[Homes(f)[c]] == was[Homes(f)[c]]
    {
      HomesDisjoint(f, e, c);
    }
  }

  function DecodedAll(xs: seq<real>): (ds: seq<nat>)
    ensures |ds| == |xs|
  {
    seq(|xs|, i requires 0 <= i < |xs| => Decoded(xs[..i + 1]))
  }

  lemma DecodedAllStep(xs: seq<real>, i: nat)
    requires i < |xs|
    ensures DecodedAll(xs[..i]) + [Decoded(xs[..i + 1])] == DecodedAll(xs[..i + 1])
  {
    forall j | 0 <= j < i
      ensures DecodedAll(xs[..i])[j] == DecodedAll(xs[..i + 1])[j]
    {
      assert xs[..i][..j + 1] == xs[..i + 1][..j + 1];
    }
    assert xs[..i + 1][..i + 1] == xs[..i + 1];
  }

  lemma DelayedIsReceived(xs: seq<real>, i: nat)
    requires i < |xs|
    ensures InterleaverFifo.Delayed(FIFO_SIZE, DecodedAll(xs[..i + 1])) == Received(xs, i)
  {
    if i >= FIFO_SIZE {
      var j := i - FIFO_SIZE;
      assert xs[..i + 1][..j + 1] == xs[..j + 1];
    }
  }
}
