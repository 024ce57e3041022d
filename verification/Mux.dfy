/** The twelve-way multiplexer around the trellis code: which coder sees which dibit of which
    byte, and at which place of the output its symbol comes out. */
module TrellisMux {
  import opened Trellis

  const NCODERS: nat := 12
  const SEGMENT_SIZE: nat := 207
  const DIBITS_PER_BYTE: nat := 4
  const ENCODER_SEG_BUMP: nat := 4
  const BLOCK_BYTES: nat := 2484
  const BLOCK_SYMBOLS: nat := 9984

  /** Groups of twelve symbols, one for each coder: 69 in each of the twelve segments. */
  const GROUPS: nat := 828

  type Byte = b: nat | b < 256
  type Coder = e: nat | e < 12

  const SYNC: seq<Symbol> := [6, 1, 1, 6]

  // ---- The closed form ----

  /** The coder that takes the first symbol of each group of segment q. */
  function Turn(q: nat): Coder { 4 * (q % 3) }

  /** Where group g starts in the output: after g groups and the syncs of g/69 + 1 segments. */
  function GroupStart(g: nat): nat { 12 * g + 4 * (g / 69 + 1) }

  /** The place of coder e in a rotation that starts with coder t. */
  function Rank(e: Coder, t: Coder): Coder { if e < t then e + 12 - t else e - t }

  /** The coder in place i of a rotation that starts with coder t. */
  function Seat(t: Coder, i: nat): Coder
    requires i <= 12
  {
    if t + i < 12 then t + i else t + i - 12
  }

  lemma SeatsDistinct(t: Coder)
    ensures forall i, j {:trigger Seat(t, i), Seat(t, j)} ::
              0 <= i < 12 && 0 <= j < 12 && Seat(t, i) == Seat(t, j) ==> i == j
  {
  }

  lemma SeatRank(e: Coder, t: Coder)
    ensures Seat(t, Rank(e, t)) == e
  {
  }

  lemma NextSeat(t: Coder, i: nat)
    requires i < 12
    ensures Seat(t, i + 1) == if Seat(t, i) + 1 >= 12 then 0 else Seat(t, i) + 1
  {
  }

  function SymbolIndex(e: Coder, g: nat): nat { GroupStart(g) + Rank(e, Turn(g / 69)) }

  /** The byte that coder e holds during a chunk of four groups: bytes are handed out in the
      rotation that holds where the chunk starts. */
  function HomeByte(chunk: nat, e: Coder): nat { 12 * chunk + Rank(e, Turn(4 * chunk / 69)) }

  function HomeBytes(chunk: nat): (r: seq<nat>)
    ensures |r| == 12
  {
    seq(12, e requires 0 <= e < 12 => HomeByte(chunk, e))
  }

  function ByteIndex(e: Coder, g: nat): nat { HomeByte(g / 4, e) }

  function Shift(g: nat): nat { 6 - 2 * (g % 4) }

  /** `0x03 & (byte >> shift)` */
  function DibitOf(b: Byte, shift: nat): Dibit
    requires shift in {0, 2, 4, 6}
  {
    match shift {
      case 6 => b / 64
      case 4 => b / 16 % 4
      case 2 => b / 4 % 4
      case 0 => b % 4
    }
  }

  /** The dibits one block gives to coder e, in coding order. */
  function CoderDibits(input: seq<Byte>, e: Coder): (ds: seq<Dibit>)
    requires |input| == BLOCK_BYTES
    ensures |ds| == GROUPS
  {
    seq(GROUPS, g requires 0 <= g < GROUPS => DibitOf(input[ByteIndex(e, g)], Shift(g)))
  }

  type DibitTable = ds: seq<seq<Dibit>> | |ds| == 12 && forall e :: 0 <= e < 12 ==> |ds[e]| == 828
    witness seq(12, _ => seq(828, _ => 0))

  /** The whole block, dealt out to the twelve coders. */
  function Dealt(input: seq<Byte>): (ds: DibitTable)
    requires |input| == BLOCK_BYTES
    ensures forall e: Coder :: ds[e] == CoderDibits(input, e)
  {
    seq(12, e requires 0 <= e < 12 => CoderDibits(input, e))
  }

  /** Coders' states before a block. */
  type States = ss: seq<State> | |ss| == 12 witness seq(12, _ => 0)

  /** Symbol k of an encoded block: sync at the head of each segment, and behind it group by
      group one symbol of each coder, starting four coders later in each segment. */
  function EncodedAt(ss: States, input: seq<Byte>, k: nat): Symbol
    requires |input| == BLOCK_BYTES && k < BLOCK_SYMBOLS
  {
    var q, r := k / 832, k % 832;
    if r < 4 then SYNC[r]
    else
      var e := Seat(Turn(q), (r - 4) % 12);
      Symbols(ss[e], Dealt(input)[e])[69 * q + (r - 4) / 12]
  }

  function Encoded(ss: States, input: seq<Byte>): (ys: seq<Symbol>)
    requires |input| == BLOCK_BYTES
    ensures |ys| == BLOCK_SYMBOLS
  {
    seq(BLOCK_SYMBOLS, k requires 0 <= k < BLOCK_SYMBOLS => EncodedAt(ss, input, k))
  }

  function StatesAfter(ss: States, input: seq<Byte>): States
    requires |input| == BLOCK_BYTES
  {
    seq(12, e requires 0 <= e < 12 => EndState(ss[e], Dealt(input)[e]))
  }

  /** Each of the twelve segments of an encoded block starts with the four symbols 6, 1, 1, 6. */
  lemma SyncsInPlace(ss: States, input: seq<Byte>, q: nat)
    requires |input| == BLOCK_BYTES && q < 12
    ensures Encoded(ss, input)[832 * q..832 * q + 4] == [6, 1, 1, 6]
  {
    var got := Encoded(ss, input)[832 * q..832 * q + 4];
    forall j | 0 <= j < 4
      ensures got[j] == SYNC[j]
    {
      assert (832 * q + j) / 832 == q && (832 * q + j) % 832 == j;
    }
  }

  lemma GroupPosition(g: nat, i: nat)
    requires g < GROUPS && i < 12
    ensures GroupStart(g) + i < BLOCK_SYMBOLS
    ensures (GroupStart(g) + i) / 832 == g / 69
    ensures (GroupStart(g) + i) % 832 == 4 + 12 * (g % 69) + i
  {
    var q, r := g / 69, g % 69;
    assert GroupStart(g) + i == 832 * q + (4 + 12 * r + i);
  }

  /** In group g, the i-th symbol belongs to coder Turn+i. */
  lemma EncodedInGroup(ss: States, input: seq<Byte>, g: nat, i: nat)
    requires |input| == BLOCK_BYTES && g < GROUPS && i < 12
    ensures GroupStart(g) + i < BLOCK_SYMBOLS
    ensures var e := Seat(Turn(g / 69), i);
            EncodedAt(ss, input, GroupStart(g) + i) == Symbols(ss[e], Dealt(input)[e])[g]
  {
    GroupPosition(g, i);
    assert (12 * (g % 69) + i) % 12 == i;
    assert (12 * (g % 69) + i) / 12 == g % 69;
  }

  /** Read back at its own places, an encoded block holds each coder's symbols in order. */
  lemma EncodedAtSymbolIndex(ss: States, input: seq<Byte>, e: Coder, g: nat)
    requires |input| == BLOCK_BYTES && g < GROUPS
    ensures SymbolIndex(e, g) < BLOCK_SYMBOLS
    ensures Encoded(ss, input)[SymbolIndex(e, g)] == Symbols(ss[e], CoderDibits(input, e))[g]
  {
    var i := Rank(e, Turn(g / 69));
    SeatRank(e, Turn(g / 69));
    EncodedInGroup(ss, input, g, i);
  }

  /** Every dibit of every byte goes to exactly one coder at exactly one time. */
  lemma EachDibitOnce(b: nat, shift: nat)
    requires b < BLOCK_BYTES && shift in {0, 2, 4, 6}
    ensures exists e: Coder, g: nat {:trigger ByteIndex(e, g)} | g < GROUPS ::
              && ByteIndex(e, g) == b && Shift(g) == shift
              && forall f: Coder, h: nat {:trigger ByteIndex(f, h)} ::
                   h < GROUPS && ByteIndex(f, h) == b && Shift(h) == shift ==> f == e && h == g
  {
    var c := b / 12;
    var g := 4 * c + (6 - shift) / 2;
    var t := Turn(4 * c / 69);
    var e := Seat(t, b % 12);
    assert g / 4 == c;
    assert Rank(e, t) == b % 12;
    forall f: Coder, h: nat {:trigger ByteIndex(f, h)} | h < GROUPS && ByteIndex(f, h) == b && Shift(h) == shift
      ensures f == e && h == g
    {
      assert h / 4 == c;
      assert Rank(f, t) == b % 12;
    }
    assert ByteIndex(e, g) == b;
  }

  // ---- Walking through the groups ----

  /** Whose turn it is after `segs` segment syncs. */
  function TurnAfter(segs: nat): Coder {
    if segs == 0 then 8 else (TurnAfter(segs - 1) + ENCODER_SEG_BUMP) % NCODERS
  }

  lemma {:induction false} TurnAfterSync(q: nat)
    ensures TurnAfter(q + 1) == Turn(q)
  {
    if q > 0 {
      TurnAfterSync(q - 1);
      match (q - 1) % 3 {
        case 0 => assert q % 3 == 1;
        case 1 => assert q % 3 == 2;
        case 2 => assert q % 3 == 0;
      }
    }
  }

  /** Before group g, after `segs` syncs: how far the output is, where the next sync is due, and
      whose turn it is; `bumped` says that the turn of the coming segment was taken early. */
  ghost predicate Cursor(g: int, segs: nat, out: int, nextOutSeg: int, encoder: int, bumped: bool) {
    && out == 12 * g + 4 * segs
    && nextOutSeg == 832 * segs
    && 69 * segs - 69 < g <= 69 * segs
    && (bumped ==> g == 69 * segs)
    && encoder == TurnAfter(if bumped then segs + 1 else segs)
  }

  lemma CursorTurn(g: nat, segs: nat, encoder: nat, bumped: bool)
    requires 69 * segs - 69 < g <= 69 * segs && (bumped <==> g == 69 * segs)
    requires encoder == TurnAfter(if bumped then segs + 1 else segs)
    ensures encoder == Turn(g / 69)
  {
    var q := if bumped then segs else segs - 1;
    TurnAfterSync(q);
    assert g / 69 == q;
  }

  lemma SyncPlace(segs: nat, out: nat)
    requires out == 832 * segs
    ensures out % 832 == 0
  {
  }

  lemma GroupPlace(g: nat, segs: nat, chunk: nat, shift: int)
    requires 69 * segs - 69 <= g < 69 * segs && chunk < SEGMENT_SIZE
    requires 2 * (g - 4 * chunk) == 6 - shift && 0 <= shift <= 6
    ensures g < GROUPS && g / 4 == chunk && shift == Shift(g)
    ensures 12 * g + 4 * segs == GroupStart(g) && TurnAfter(segs) == Turn(g / 69)
  {
    TurnAfterSync(segs - 1);
    assert g / 69 == segs - 1;
    assert g == 4 * chunk + (6 - shift) / 2;
  }

  // ---- The encoder ----

  class TrellisEncoder {
    const enc: seq<BasicEncoder>

    ghost predicate Valid() {
      |enc| == 12 && forall i, j :: 0 <= i < j < 12 ==> enc[i] != enc[j]
    }

    ghost function CoderStates(): States
      requires Valid()
      reads enc
    {
      seq(12, i requires 0 <= i < 12 reads enc => enc[i].state)
    }

    constructor ()
      ensures Valid() && CoderStates() == seq(12, _ => 0)
      ensures forall i :: 0 <= i < 12 ==> fresh(enc[i])
    {
      var es: seq<BasicEncoder> := [];
      for i := 0 to 12
        invariant |es| == i
        invariant forall j :: 0 <= j < i ==> fresh(es[j]) && es[j].state == 0
        invariant forall j, k :: 0 <= j < k < i ==> es[j] != es[k]
      {
        var e := new BasicEncoder();
        es := es + [e];
      }
      enc := es;
    }

    method Reset()
      requires Valid()
      modifies enc
      ensures CoderStates() == seq(12, _ => 0)
    {
      for i := 0 to 12
        invariant forall j :: 0 <= j < i ==> enc[j].state == 0
      {
        enc[i].Reset();
      }
    }

    /** Coder e has taken `done` of its dibits. */
    ghost predicate Progress(ss: States, ds: DibitTable, e: Coder, done: nat)
      requires Valid() && done <= GROUPS
      reads enc[e]
    {
      enc[e].state == EndState(ss[e], ds[e][..done])
    }

    method EncodeHelper(output: array<Symbol>, input: seq<Byte>)
      requires Valid() && output.Length == BLOCK_SYMBOLS && |input| == BLOCK_BYTES
      modifies output, enc
      ensures output[..] == Encoded(old(CoderStates()), input)
      ensures forall q :: 0 <= q < 12 ==> output[832 * q..832 * q + 4] == [6, 1, 1, 6]
      ensures CoderStates() == StatesAfter(old(CoderStates()), input)
    {
      ghost var ss, ds := CoderStates(), Dealt(input);
      ghost var want := Encoded(ss, input);
      var encoder: nat := NCODERS - ENCODER_SEG_BUMP;
      var out, nextOutSeg := 0, 0;
      forall e: Coder ensures Progress(ss, ds, e, 0) {
      }
      ghost var segs := 0;
      for chunk: int := 0 to SEGMENT_SIZE
        invariant Cursor(4 * chunk, segs, out, nextOutSeg, encoder, false)
        invariant out <= BLOCK_SYMBOLS && output[..out] == want[..out]
        invariant forall e: Coder :: Progress(ss, ds, e, 4 * chunk)
      {
        out, nextOutSeg, encoder, segs := EncodeChunk(output, input, chunk, out, nextOutSeg, encoder,
                                                      ss, want, segs, 4 * chunk + 4);
      }
      // The source's own closing assertions.
      TurnAfterSync(11);
      assert out == BLOCK_SYMBOLS && encoder == NCODERS - ENCODER_SEG_BUMP;
      forall e: Coder ensures CoderStates()[e] == StatesAfter(ss, input)[e] {
        assert ds[e][..GROUPS] == ds[e];
        assert Progress(ss, ds, e, GROUPS);
      }
      forall q | 0 <= q < 12 ensures output[832 * q..832 * q + 4] == [6, 1, 1, 6] {
        SyncsInPlace(ss, input, q);
        assert output[832 * q..832 * q + 4] == want[832 * q..832 * q + 4];
      }
    }

    method EncodeChunk(output: array<Symbol>, input: seq<Byte>, chunk: nat, at: nat, dueAt: nat, turn: nat,
                       ghost ss: States, ghost want: seq<Symbol>, ghost before: nat, ghost after: nat)
      returns (out: nat, nextOutSeg: nat, encoder: nat, ghost segs: nat)
      requires Valid() && output.Length == BLOCK_SYMBOLS && |input| == BLOCK_BYTES && chunk < SEGMENT_SIZE
      requires want == Encoded(ss, input) && after == 4 * chunk + 4
      requires Cursor(4 * chunk, before, at, dueAt, turn, false) && at <= BLOCK_SYMBOLS && output[..at] == want[..at]
      requires forall e: Coder :: Progress(ss, Dealt(input), e, 4 * chunk)
      modifies output, enc
      ensures Cursor(after, segs, out, nextOutSeg, encoder, false)
      ensures out <= BLOCK_SYMBOLS && output[..out] == want[..out]
      ensures forall e: Coder :: Progress(ss, Dealt(input), e, after)
    {
      encoder := turn;
      var trellisBuffer := new Byte[NCODERS](_ => 0);
      var skipEncoderBump := false;
      if at >= dueAt {
        encoder := (encoder + ENCODER_SEG_BUMP) % NCODERS;
        skipEncoderBump := true;
      }
      CursorTurn(4 * chunk, before, encoder, skipEncoderBump);
      encoder := LoadChunk(trellisBuffer, input, chunk, encoder);
      out, nextOutSeg, encoder, segs := EncodeShifts(output, trellisBuffer, at, dueAt, encoder, skipEncoderBump,
                                                     ss, input, chunk, want, before, 4 * chunk, after);
    }

    method EncodeShifts(output: array<Symbol>, trellisBuffer: array<Byte>, at: nat, dueAt: nat, turn: nat,
                        bumped: bool, ghost ss: States, ghost input: seq<Byte>, ghost chunk: nat,
                        ghost want: seq<Symbol>, ghost before: nat, ghost first: nat, ghost after: nat)
      returns (out: nat, nextOutSeg: nat, encoder: nat, ghost segs: nat)
      requires Valid() && output.Length == BLOCK_SYMBOLS && |input| == BLOCK_BYTES && chunk < SEGMENT_SIZE
      requires trellisBuffer.Length == 12 && output as object != trellisBuffer as object
      requires want == Encoded(ss, input) && first == 4 * chunk && after == first + 4
      requires Cursor(first, before, at, dueAt, turn, bumped) && at <= BLOCK_SYMBOLS && output[..at] == want[..at]
      requires forall e: Coder :: trellisBuffer[e] == Loaded(input, chunk, e)
      requires forall e: Coder :: Progress(ss, Dealt(input), e, first)
      modifies output, enc
      ensures Cursor(after, segs, out, nextOutSeg, encoder, false)
      ensures out <= BLOCK_SYMBOLS && output[..out] == want[..out]
      ensures forall e: Coder :: Progress(ss, Dealt(input), e, after)
    {
      out, nextOutSeg, encoder, segs := at, dueAt, turn, before;
      var skipEncoderBump := bumped;
      var shift := 6;
      ghost var g := first;
      while shift >= 0
        invariant -2 <= shift <= 6 && 2 * (g - first) == 6 - shift && (shift < 6 ==> !skipEncoderBump)
        invariant Cursor(g, segs, out, nextOutSeg, encoder, skipEncoderBump)
        invariant out <= BLOCK_SYMBOLS && output[..out] == want[..out]
        invariant forall e: Coder :: trellisBuffer[e] == Loaded(input, chunk, e)
        invariant forall e: Coder :: Progress(ss, Dealt(input), e, g)
      {
        out, nextOutSeg, encoder, segs :=
          EncodeShift(output, trellisBuffer, shift, out, nextOutSeg, encoder, skipEncoderBump,
                      ss, input, chunk, want, segs, g, g + 1);
        skipEncoderBump := false;
        g := g + 1;
        shift := shift - 2;
      }
    }

    /** One shift of the chunk's bytes: a segment sync if one is due, and the group of twelve symbols. */
    method EncodeShift(output: array<Symbol>, trellisBuffer: array<Byte>, shift: int, at: nat, dueAt: nat, turn: nat,
                       skipEncoderBump: bool, ghost ss: States, ghost input: seq<Byte>, ghost chunk: nat,
                       ghost want: seq<Symbol>, ghost before: nat, ghost g: nat, ghost after: nat)
      returns (out: nat, nextOutSeg: nat, encoder: nat, ghost segs: nat)
      requires Valid() && output.Length == BLOCK_SYMBOLS && |input| == BLOCK_BYTES && chunk < SEGMENT_SIZE
      requires trellisBuffer.Length == 12 && output as object != trellisBuffer as object
      requires 0 <= shift <= 6 && 2 * (g - 4 * chunk) == 6 - shift && after == g + 1
      requires want == Encoded(ss, input)
      requires Cursor(g, before, at, dueAt, turn, skipEncoderBump)
      requires at <= BLOCK_SYMBOLS && output[..at] == want[..at]
      requires forall e: Coder :: trellisBuffer[e] == Loaded(input, chunk, e)
      requires forall e: Coder :: Progress(ss, Dealt(input), e, g)
      modifies output, enc
      ensures Cursor(after, segs, out, nextOutSeg, encoder, false)
      ensures out <= BLOCK_SYMBOLS && output[..out] == want[..out]
      ensures forall e: Coder :: Progress(ss, Dealt(input), e, after)
    {
      out, nextOutSeg, encoder, segs :=
        StartGroup(output, at, dueAt, turn, skipEncoderBump, ss, input, want, g, before);
      GroupPlace(g, segs, chunk, shift);
      GroupWanted(ss, input, g);
      LoadedDibits(input, chunk, g);
      out := EncodeGroup(output, out, trellisBuffer, encoder, shift, ss, Dealt(input), want, g, after);
    }

    /** Sends the segment sync if it is due, and then moves the turn unless it moved early. */
    method StartGroup(output: array<Symbol>, at: nat, dueAt: nat, turn: nat, skipEncoderBump: bool,
                      ghost ss: States, ghost input: seq<Byte>, ghost want: seq<Symbol>, ghost g: nat,
                      ghost before: nat)
      returns (out: nat, nextOutSeg: nat, encoder: nat, ghost segs: nat)
      requires output.Length == BLOCK_SYMBOLS && |input| == BLOCK_BYTES && want == Encoded(ss, input)
      requires Cursor(g, before, at, dueAt, turn, skipEncoderBump) && g < GROUPS
      requires at <= BLOCK_SYMBOLS && output[..at] == want[..at]
      modifies output
      ensures 69 * segs - 69 <= g < 69 * segs
      ensures out == 12 * g + 4 * segs && nextOutSeg == 832 * segs && encoder == TurnAfter(segs)
      ensures out <= BLOCK_SYMBOLS && output[..out] == want[..out]
    {
      out, nextOutSeg, encoder, segs := at, dueAt, turn, before;
      if out >= nextOutSeg {
        SyncPlace(segs, out);
        out := PutSync(output, out, ss, input, want);
        nextOutSeg := out + SEGMENT_SIZE * DIBITS_PER_BYTE;
        if !skipEncoderBump {
          encoder := (encoder + ENCODER_SEG_BUMP) % NCODERS;
        }
        segs := segs + 1;
      }
    }

    /** The byte coder e holds during a chunk. */
    static function Loaded(input: seq<Byte>, chunk: nat, e: Coder): Byte
      requires |input| == BLOCK_BYTES && chunk < SEGMENT_SIZE
    {
      input[HomeByte(chunk, e)]
    }

    static lemma LoadedDibits(input: seq<Byte>, chunk: nat, g: nat)
      requires |input| == BLOCK_BYTES && chunk < SEGMENT_SIZE && g / 4 == chunk
      ensures g < GROUPS
      ensures forall e: Coder :: DibitOf(Loaded(input, chunk, e), Shift(g)) == Dealt(input)[e][g]
    {
    }

    /** The twelve symbols of group g, in the order they go out. */
    static function GroupSymbols(ss: States, ds: DibitTable, g: nat): (ys: seq<Symbol>)
      requires g < GROUPS
      ensures |ys| == 12
    {
      seq(12, i requires 0 <= i < 12 => var e := Seat(Turn(g / 69), i); Symbols(ss[e], ds[e])[g])
    }

    static lemma GroupWanted(ss: States, input: seq<Byte>, g: nat)
      requires |input| == BLOCK_BYTES && g < GROUPS
      ensures GroupStart(g) + 12 <= BLOCK_SYMBOLS
      ensures Encoded(ss, input)[GroupStart(g)..GroupStart(g) + 12] == GroupSymbols(ss, Dealt(input), g)
    {
      GroupPosition(g, 11);
      var got := Encoded(ss, input)[GroupStart(g)..GroupStart(g) + 12];
      forall i | 0 <= i < 12
        ensures got[i] == GroupSymbols(ss, Dealt(input), g)[i]
      {
        EncodedInGroup(ss, input, g, i);
      }
    }

    method LoadChunk(trellisBuffer: array<Byte>, input: seq<Byte>, chunk: nat, start: nat) returns (encoder: nat)
      requires trellisBuffer.Length == 12 && |input| == BLOCK_BYTES && chunk < SEGMENT_SIZE
      requires start == Turn(4 * chunk / 69)
      modifies trellisBuffer
      ensures encoder == start
      ensures forall e: Coder :: trellisBuffer[e] == Loaded(input, chunk, e)
    {
      encoder := start;
      for i := 0 to 12
        invariant encoder == (start + i) % 12
        invariant forall e: Coder :: Rank(e, start) < i ==> trellisBuffer[e] == input[12 * chunk + Rank(e, start)]
      {
        trellisBuffer[encoder] := input[12 * chunk + i];
        encoder := encoder + 1;
        if encoder >= NCODERS {
          encoder := 0;
        }
      }
    }

    method PutSync(output: array<Symbol>, at: nat, ghost ss: States, ghost input: seq<Byte>, ghost want: seq<Symbol>)
      returns (out: nat)
      requires output.Length == BLOCK_SYMBOLS && |input| == BLOCK_BYTES && want == Encoded(ss, input)
      requires at % 832 == 0 && at < BLOCK_SYMBOLS && output[..at] == want[..at]
      modifies output
      ensures out == at + 4 && output[..out] == want[..out]
    {
      for j := 0 to 4
        invariant output[..at + j] == want[..at + j]
      {
        assert (at + j) % 832 == j;
        output[at + j] := SYNC[j];
      }
      out := at + 4;
    }

    /** In the group that ends at `after`, the first i seats have had their turn. */
    ghost predicate SeatsDone(ss: States, ds: DibitTable, start: Coder, i: int, g: nat, after: nat)
      requires Valid() && g <= GROUPS && after <= GROUPS
      reads enc
    {
      forall j {:trigger Seat(start, j)} :: 0 <= j < 12 ==> Progress(ss, ds, Seat(start, j), if j < i then after else g)
    }

    method EncodeGroup(output: array<Symbol>, at: nat, trellisBuffer: array<Byte>, start: Coder, shift: nat,
                       ghost ss: States, ghost ds: DibitTable, ghost want: seq<Symbol>, ghost g: nat, ghost after: nat)
      returns (out: nat)
      requires Valid() && output.Length == BLOCK_SYMBOLS && trellisBuffer.Length == 12
      requires output as object != trellisBuffer as object
      requires g < GROUPS && start == Turn(g / 69) && after == g + 1 && shift in {0, 2, 4, 6}
      requires forall e: Coder :: DibitOf(trellisBuffer[e], shift) == ds[e][g]
      requires |want| == BLOCK_SYMBOLS && at + 12 <= BLOCK_SYMBOLS
      requires want[at..at + 12] == GroupSymbols(ss, ds, g)
      requires output[..at] == want[..at]
      requires forall e: Coder :: Progress(ss, ds, e, g)
      modifies output, enc
      ensures out == at + 12 && output[..out] == want[..out]
      ensures forall e: Coder :: Progress(ss, ds, e, after)
    {
      out := at;
      var encoder: nat := start;
      ghost var group := GroupSymbols(ss, ds, g);
      for i := 0 to 12
        invariant out == at + i && encoder == Seat(start, i)
        invariant output[..out] == want[..out]
        invariant SeatsDone(ss, ds, start, i, g, after)
      {
        assert want[at..at + 12][i] == group[i];
        NextSeat(start, i);
        var symbol := EncodeSeat(start, i, encoder, DibitOf(trellisBuffer[encoder], shift), ss, ds, g, after);
        output[out] := symbol;
        out := out + 1;
        encoder := encoder + 1;
        if encoder >= NCODERS {
          encoder := 0;
        }
      }
      forall e: Coder ensures Progress(ss, ds, e, after) {
        SeatRank(e, start);
      }
    }

    method EncodeSeat(ghost start: Coder, ghost i: nat, e: Coder, dibit: Dibit, ghost ss: States, ghost ds: DibitTable,
                      ghost g: nat, ghost after: nat) returns (symbol: Symbol)
      requires Valid() && g < GROUPS && after == g + 1 && i < 12 && e == Seat(start, i)
      requires SeatsDone(ss, ds, start, i, g, after) && dibit == ds[e][g]
      modifies enc[e]
      ensures SeatsDone(ss, ds, start, i + 1, g, after)
      ensures symbol == Symbols(ss[e], ds[e])[g]
    {
      SymbolsAt(ss[e], ds[e], g);
      EndStateStep(ss[e], ds[e], g);
      assert Progress(ss, ds, e, g);
      symbol := enc[e].Encode(dibit);
      forall j {:trigger Seat(start, j)} | 0 <= j < 12
        ensures Progress(ss, ds, Seat(start, j), if j < i + 1 then after else g)
      {
        SeatsDistinct(start);
        if j != i {
          assert old(Progress(ss, ds, Seat(start, j), if j < i then after else g));
        }
      }
    }
  }

  // ---- The generator of the decoder's tables ----

  /** Where coder e's symbols arrive, and where its dibits belong: byte number and shift in one word. */
  function SymbolPlaces(e: Coder): (r: seq<nat>)
    ensures |r| == GROUPS
  {
    seq(GROUPS, g requires 0 <= g < GROUPS => SymbolIndex(e, g))
  }

  function DibitPlaces(e: Coder): (r: seq<nat>)
    ensures |r| == GROUPS
  {
    seq(GROUPS, g requires 0 <= g < GROUPS => 8 * ByteIndex(e, g) + Shift(g))
  }

  datatype Tables = Tables(syms: seq<seq<nat>>, dibits: seq<seq<nat>>)

  /** Each coder's two tables are filled up to group n. */
  ghost predicate Filled(t: Tables, e: Coder, n: nat)
    requires n <= GROUPS
  {
    && |t.syms| == 12 && |t.dibits| == 12
    && t.syms[e] == SymbolPlaces(e)[..n]
    && t.dibits[e] == DibitPlaces(e)[..n]
  }

  ghost predicate AllFilled(t: Tables, n: nat)
    requires n <= GROUPS
  {
    forall e: Coder :: Filled(t, e, n)
  }

  /** The generator walks through a block exactly as the encoder does, noting places instead of
      sending symbols. */
  method BuildDecodeStructures() returns (t: Tables, syncIndices: seq<nat>)
    ensures |t.syms| == 12 && |t.dibits| == 12
    ensures forall e: Coder :: t.syms[e] == SymbolPlaces(e) && t.dibits[e] == DibitPlaces(e)
    ensures syncIndices == seq(12, q => 832 * q)
  {
    var encoder: nat := NCODERS - ENCODER_SEG_BUMP;
    var symp, nextSymSeg := 0, 0;
    t := Tables(seq(12, _ => []), seq(12, _ => []));
    syncIndices := [];
    for chunk: int := 0 to SEGMENT_SIZE
      invariant Cursor(4 * chunk, |syncIndices|, symp, nextSymSeg, encoder, false)
      invariant forall q :: 0 <= q < |syncIndices| ==> syncIndices[q] == 832 * q
      invariant AllFilled(t, 4 * chunk)
    {
      t, syncIndices, symp, nextSymSeg, encoder :=
        NoteChunk(t, syncIndices, chunk, symp, nextSymSeg, encoder, 4 * chunk + 4);
    }
    assert Filled(t, 0, GROUPS);
    forall e: Coder ensures t.syms[e] == SymbolPlaces(e) && t.dibits[e] == DibitPlaces(e) {
      assert Filled(t, e, GROUPS);
    }
  }

  ghost predicate SyncsNoted(syncs: seq<nat>) {
    forall q :: 0 <= q < |syncs| ==> syncs[q] == 832 * q
  }

  method NoteChunk(t0: Tables, syncs0: seq<nat>, chunk: nat, at: nat, dueAt: nat, turn: nat, ghost after: nat)
    returns (t: Tables, syncs: seq<nat>, symp: nat, nextSymSeg: nat, encoder: nat)
    requires chunk < SEGMENT_SIZE && after == 4 * chunk + 4
    requires Cursor(4 * chunk, |syncs0|, at, dueAt, turn, false)
    requires SyncsNoted(syncs0)
    requires AllFilled(t0, 4 * chunk)
    ensures Cursor(after, |syncs|, symp, nextSymSeg, encoder, false)
    ensures SyncsNoted(syncs)
    ensures AllFilled(t, after)
  {
    var skipEncoderBump, wheredata;
    encoder, skipEncoderBump, wheredata := NoteLoad(chunk, at, dueAt, turn, |syncs0|);
    t, syncs, symp, nextSymSeg, encoder :=
      NoteShifts(t0, wheredata, syncs0, chunk, at, dueAt, encoder, skipEncoderBump, 4 * chunk, after);
  }

  method NoteShifts(t0: Tables, wheredata: seq<nat>, syncs0: seq<nat>, chunk: nat, at: nat, dueAt: nat,
                    turn: nat, bumped: bool, ghost first: nat, ghost after: nat)
    returns (t: Tables, syncs: seq<nat>, symp: nat, nextSymSeg: nat, encoder: nat)
    requires chunk < SEGMENT_SIZE && first == 4 * chunk && after == first + 4
    requires Cursor(first, |syncs0|, at, dueAt, turn, bumped)
    requires wheredata == HomeBytes(chunk)
    requires SyncsNoted(syncs0)
    requires AllFilled(t0, first)
    ensures Cursor(after, |syncs|, symp, nextSymSeg, encoder, false)
    ensures SyncsNoted(syncs)
    ensures AllFilled(t, after)
  {
    t, syncs, symp, nextSymSeg, encoder := t0, syncs0, at, dueAt, turn;
    var skipEncoderBump := bumped;
    var shift := 6;
    ghost var g := first;
    while shift >= 0
      invariant -2 <= shift <= 6 && 2 * (g - first) == 6 - shift && (shift < 6 ==> !skipEncoderBump)
      invariant Cursor(g, |syncs|, symp, nextSymSeg, encoder, skipEncoderBump)
      invariant SyncsNoted(syncs)
      invariant AllFilled(t, g)
    {
      t, syncs, symp, nextSymSeg, encoder :=
        NoteShift(t, wheredata, syncs, chunk, shift, symp, nextSymSeg, encoder, skipEncoderBump, g, g + 1);
      skipEncoderBump := false;
      g := g + 1;
      shift := shift - 2;
    }
  }

  method NoteLoad(chunk: nat, symp: nat, nextSymSeg: nat, turn: nat, ghost segs: nat)
    returns (encoder: nat, skipEncoderBump: bool, wheredata: seq<nat>)
    requires Cursor(4 * chunk, segs, symp, nextSymSeg, turn, false)
    ensures skipEncoderBump == (4 * chunk == 69 * segs)
    ensures Cursor(4 * chunk, segs, symp, nextSymSeg, encoder, skipEncoderBump)
    ensures wheredata == HomeBytes(chunk)
  {
    encoder, skipEncoderBump := turn, false;
    if symp >= nextSymSeg {
      encoder := (encoder + ENCODER_SEG_BUMP) % NCODERS;
      skipEncoderBump := true;
    }
    CursorTurn(4 * chunk, segs, encoder, skipEncoderBump);
    wheredata := NoteBytes(chunk, encoder);
  }

  method NoteShift(t0: Tables, wheredata: seq<nat>, syncs0: seq<nat>, chunk: nat, shift: int, at: nat, dueAt: nat,
                   turn: nat, skipEncoderBump: bool, ghost g: nat, ghost after: nat)
    returns (t: Tables, syncs: seq<nat>, symp: nat, nextSymSeg: nat, encoder: nat)
    requires chunk < SEGMENT_SIZE && 0 <= shift <= 6 && 2 * (g - 4 * chunk) == 6 - shift && after == g + 1
    requires Cursor(g, |syncs0|, at, dueAt, turn, skipEncoderBump)
    requires wheredata == HomeBytes(chunk)
    requires SyncsNoted(syncs0)
    requires AllFilled(t0, g)
    ensures Cursor(after, |syncs|, symp, nextSymSeg, encoder, false)
    ensures SyncsNoted(syncs)
    ensures AllFilled(t, after)
  {
    syncs, symp, nextSymSeg, encoder := NoteSync(syncs0, at, dueAt, turn, skipEncoderBump, g);
    GroupPlace(g, |syncs|, chunk, shift);
    t, symp := NoteGroup(t0, wheredata, encoder, shift, symp, g, after);
  }

  method NoteSync(syncs0: seq<nat>, at: nat, dueAt: nat, turn: nat, skipEncoderBump: bool, ghost g: nat)
    returns (syncs: seq<nat>, symp: nat, nextSymSeg: nat, encoder: nat)
    requires Cursor(g, |syncs0|, at, dueAt, turn, skipEncoderBump)
    requires SyncsNoted(syncs0)
    ensures 69 * |syncs| - 69 <= g < 69 * |syncs|
    ensures symp == 12 * g + 4 * |syncs| && nextSymSeg == 832 * |syncs| && encoder == TurnAfter(|syncs|)
    ensures SyncsNoted(syncs)
  {
    syncs, symp, nextSymSeg, encoder := syncs0, at, dueAt, turn;
    if symp >= nextSymSeg {
      syncs := syncs + [symp];
      symp := symp + 4;
      nextSymSeg := symp + SEGMENT_SIZE * DIBITS_PER_BYTE;
      if !skipEncoderBump {
        encoder := (encoder + ENCODER_SEG_BUMP) % NCODERS;
      }
    }
  }

  method NoteBytes(chunk: nat, start: nat) returns (wheredata: seq<nat>)
    requires start < 12 && start == Turn(4 * chunk / 69)
    ensures wheredata == HomeBytes(chunk)
  {
    wheredata := seq(12, _ => 0);
    var encoder: nat := start;
    for i := 0 to 12
      invariant |wheredata| == 12 && encoder == Seat(start, i)
      invariant forall j {:trigger Seat(start, j)} :: 0 <= j < i ==> wheredata[Seat(start, j)] == 12 * chunk + j
    {
      NextSeat(start, i);
      SeatsDistinct(start);
      wheredata := wheredata[encoder := chunk * NCODERS + i];
      encoder := encoder + 1;
      if encoder >= NCODERS {
        encoder := 0;
      }
    }
    forall e: Coder ensures wheredata[e] == HomeBytes(chunk)[e] {
      SeatRank(e, start);
    }
  }

  method NoteGroup(t0: Tables, wheredata: seq<nat>, start: Coder, shift: nat, at: nat, ghost g: nat, ghost after: nat)
    returns (t: Tables, symp: nat)
    requires |wheredata| == 12 && g < GROUPS && after == g + 1
    requires start == Turn(g / 69) && shift == Shift(g) && at == GroupStart(g)
    requires forall e: Coder :: wheredata[e] == ByteIndex(e, g)
    requires AllFilled(t0, g)
    ensures symp == at + 12
    ensures AllFilled(t, after)
  {
    t, symp := t0, at;
    var encoder: nat := start;
    assert Filled(t, 0, g);
    for i := 0 to 12
      invariant symp == at + i && encoder == Seat(start, i)
      invariant SeatsNoted(t, start, i, g, after)
    {
      NextSeat(start, i);
      NoteSeat(t, start, i, encoder, g, after);
      t := Noted(t, encoder, symp, 8 * wheredata[encoder] + shift);
      symp := symp + 1;
      encoder := encoder + 1;
      if encoder >= NCODERS {
        encoder := 0;
      }
    }
    AllSeatsNoted(t, start, g, after);
  }

  lemma AllSeatsNoted(t: Tables, start: Coder, g: nat, after: nat)
    requires g <= GROUPS && after <= GROUPS && SeatsNoted(t, start, 12, g, after)
    ensures AllFilled(t, after)
  {
    forall e: Coder ensures Filled(t, e, after) {
      SeatRank(e, start);
      assert Filled(t, Seat(start, Rank(e, start)), after);
    }
  }

  function Noted(t: Tables, e: Coder, symp: nat, place: nat): Tables
    requires |t.syms| == 12 && |t.dibits| == 12
  {
    Tables(t.syms[e := t.syms[e] + [symp]], t.dibits[e := t.dibits[e] + [place]])
  }

  /** In the current group, the first i seats of the rotation have been noted. */
  ghost predicate SeatsNoted(t: Tables, start: Coder, i: nat, g: nat, after: nat)
    requires g <= GROUPS && after <= GROUPS
  {
    && |t.syms| == 12 && |t.dibits| == 12
    && forall j {:trigger Seat(start, j)} :: 0 <= j < 12 ==> Filled(t, Seat(start, j), if j < i then after else g)
  }

  lemma NoteSeat(t: Tables, start: Coder, i: nat, e: Coder, g: nat, after: nat)
    requires g < GROUPS && after == g + 1 && i < 12 && e == Seat(start, i) && SeatsNoted(t, start, i, g, after)
    ensures SeatsNoted(Noted(t, e, SymbolIndex(e, g), 8 * ByteIndex(e, g) + Shift(g)), start, i + 1, g, after)
  {
    var n := Noted(t, e, SymbolIndex(e, g), 8 * ByteIndex(e, g) + Shift(g));
    forall j {:trigger Seat(start, j)} | 0 <= j < 12
      ensures Filled(n, Seat(start, j), if j < i + 1 then after else g)
    {
      SeatsDistinct(start);
      assert Filled(t, Seat(start, j), if j < i then after else g);
      if j == i {
        OneMore(t.syms[e], SymbolPlaces(e), g);
        OneMore(t.dibits[e], DibitPlaces(e), g);
      }
    }
  }

  lemma OneMore(s: seq<nat>, all: seq<nat>, g: nat)
    requires g < |all| && s == all[..g]
    ensures s + [all[g]] == all[..g + 1]
  {
  }
}
