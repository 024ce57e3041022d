/** One scheduling decision: how many items a block is asked for, or why it is not run. */
module Executor {
  import opened Rounding

  /** What a block tells the scheduler about itself. */
  datatype Block = Block(
    multiple: Pos,                     // output_multiple(), which is also alignment()
    multipleSet: bool,                 // set by set_output_multiple, not by set_alignment
    fixedRate: bool,
    estimate: nat -> nat,              // items -> (int)(items * relative_rate()), as the machine rounds it
    minNoutput: nat,
    maxNoutput: nat,
    forecast: (nat, nat) -> int,       // items asked for, input number -> items required
    convert: nat -> nat)               // fixed_rate_ninput_to_noutput

  /** The one piece of a block's state that decisions change. */
  datatype Align = Align(unaligned: nat, isUnaligned: bool)

  datatype Input = Input(avail: nat, done: bool, maxPossible: nat)
  datatype Output = Output(space: nat, bufsize: nat, done: bool)

  /** The largest value of a C++ int. */
  const INT_MAX: nat := 0x7fff_ffff

  // ---- Space on the outputs ----

  datatype Room = Room(items: nat) | Full | FullAndDone | TooSmall

  function LeastNoutput(b: Block): Pos { if b.minNoutput == 0 then 1 else b.minNoutput }

  function RoomOn(b: Block, o: Output): Room {
    var best := RoundDown(o.bufsize / 2, b.multiple);
    var n := Min(RoundDown(o.space, b.multiple), best);
    if best < LeastNoutput(b) then TooSmall
    else if n >= LeastNoutput(b) then Room(n)
    else if o.done then FullAndDone
    else Full
  }

  /** The first output without room decides; otherwise the least room counts. */
  function MinRoom(b: Block, outs: seq<Output>): Room
    requires outs != []
  {
    var r := RoomOn(b, outs[0]);
    if !r.Room? || |outs| == 1 then r
    else
      match MinRoom(b, outs[1..])
      case Room(n) => Room(Min(r.items, n))
      case rest => rest
  }

  lemma RoomOnFits(b: Block, o: Output)
    ensures RoomOn(b, o).Room? ==> 0 < RoomOn(b, o).items <= o.space && Multiple(RoomOn(b, o).items, b.multiple)
  {
    RoundsDown(o.space, b.multiple);
    RoundsDown(o.bufsize / 2, b.multiple);
  }

  /** A whole number of output multiples that an output can take: no more than there is space, no more
      than half of its buffer, and no less than the block wants at least. */
  ghost predicate Takes(b: Block, o: Output, n: nat) {
    Multiple(n, b.multiple) && 0 < n && b.minNoutput <= n <= o.space && 2 * n <= o.bufsize
  }

  lemma WithinRounded(b: Block, o: Output, n: nat)
    requires Multiple(n, b.multiple) && 2 * n <= o.bufsize
    ensures n <= RoundDown(o.bufsize / 2, b.multiple) && (n <= o.space ==> n <= RoundDown(o.space, b.multiple))
  {
    RoundsDownTo(o.bufsize / 2, n, b.multiple);
    if n <= o.space {
      RoundsDownTo(o.space, n, b.multiple);
    }
  }

  /** The room on an output is the most that it can take, and there is none exactly if it can take
      nothing. */
  lemma RoomOnIsMost(b: Block, o: Output)
    ensures RoomOn(b, o).Room? <==> exists n: nat :: Takes(b, o, n)
    ensures RoomOn(b, o).Room? ==> Takes(b, o, RoomOn(b, o).items)
    ensures forall n: nat :: Takes(b, o, n) ==> RoomOn(b, o).Room? && n <= RoomOn(b, o).items
    ensures RoomOn(b, o) == FullAndDone ==> o.done
    ensures RoomOn(b, o) == Full ==> !o.done
  {
    RoomOnFits(b, o);
    RoundsDown(o.bufsize / 2, b.multiple);
    forall n: nat | Takes(b, o, n)
      ensures RoomOn(b, o).Room? && n <= RoomOn(b, o).items
    {
      WithinRounded(b, o, n);
    }
    if RoomOn(b, o).Room? {
      assert Takes(b, o, RoomOn(b, o).items);
    }
  }

  /** A buffer is too small exactly if it could take nothing even when it is empty. */
  lemma TooSmallForAll(b: Block, o: Output)
    ensures RoomOn(b, o) == TooSmall <==> forall n: nat :: !Takes(b, Output(o.bufsize, o.bufsize, o.done), n)
  {
    var empty, best := Output(o.bufsize, o.bufsize, o.done), RoundDown(o.bufsize / 2, b.multiple);
    RoundsDown(o.bufsize / 2, b.multiple);
    if best >= LeastNoutput(b) {
      assert Takes(b, empty, best);
    }
    forall n: nat | Takes(b, empty, n)
      ensures n <= best
    {
      WithinRounded(b, empty, n);
    }
  }

  /** What is found on several outputs, every one of them can take. */
  lemma {:induction false} MinRoomTaken(b: Block, outs: seq<Output>)
    requires outs != [] && MinRoom(b, outs).Room?
    ensures forall o :: o in outs ==> Takes(b, o, MinRoom(b, outs).items)
  {
    RoomOnIsMost(b, outs[0]);
    assert outs == [outs[0]] + outs[1..];
    if |outs| > 1 {
      MinRoomTaken(b, outs[1..]);
      var first, rest := RoomOn(b, outs[0]).items, MinRoom(b, outs[1..]).items;
      assert Takes(b, outs[0], first) && Takes(b, outs[1], rest) by {
        assert outs[1] == outs[1..][0];
      }
      MultipleMin(first, rest, b.multiple);
      forall o | o in outs
        ensures Takes(b, o, Min(first, rest))
      {
        TakesLess(b, o, if o == outs[0] then first else rest, Min(first, rest));
      }
    }
  }

  lemma RoomIsMost(b: Block, o: Output, n: nat)
    requires Takes(b, o, n)
    ensures RoomOn(b, o).Room? && n <= RoomOn(b, o).items
  {
    RoomOnIsMost(b, o);
  }

  /** There is room on several outputs exactly if all of them can take some number, and it is the most
      that all can take. */
  lemma {:induction false} MinRoomIsMost(b: Block, outs: seq<Output>, n: nat)
    requires outs != [] && forall o :: o in outs ==> Takes(b, o, n)
    ensures MinRoom(b, outs).Room? && n <= MinRoom(b, outs).items
  {
    assert outs[0] in outs && Takes(b, outs[0], n);
    RoomIsMost(b, outs[0], n);
    if |outs| > 1 {
      MinRoomIsMost(b, outs[1..], n);
    }
  }

  lemma TakesLess(b: Block, o: Output, n: nat, k: nat)
    requires Takes(b, o, n) && Multiple(k, b.multiple) && 0 < k <= n && b.minNoutput <= k
    ensures Takes(b, o, k)
  {
  }

  /** A positive multiple that fits on every output, or else the trouble of one of them. */
  lemma {:induction false} MinRoomFits(b: Block, outs: seq<Output>)
    requires outs != []
    ensures var r := MinRoom(b, outs);
            if r.Room? then
              && 0 < r.items && Multiple(r.items, b.multiple)
              && forall o :: o in outs ==> RoomOn(b, o).Room? && r.items <= o.space
            else exists o :: o in outs && RoomOn(b, o) == r
  {
    RoomOnFits(b, outs[0]);
    if |outs| > 1 && RoomOn(b, outs[0]).Room? {
      MinRoomFits(b, outs[1..]);
      assert outs == [outs[0]] + outs[1..];
    }
  }

  /** The same, with the least room so far carried along. */
  function RoomFrom(b: Block, outs: seq<Output>, i: nat, least: nat): Room
    requires i <= |outs|
    decreases |outs| - i
  {
    if i == |outs| then Room(least)
    else
      var r := RoomOn(b, outs[i]);
      if r.Room? then RoomFrom(b, outs, i + 1, Min(least, r.items)) else r
  }

  lemma {:induction false} RoomFromIsMin(b: Block, outs: seq<Output>, i: nat, least: nat)
    requires i < |outs|
    ensures var r := MinRoom(b, outs[i..]);
            RoomFrom(b, outs, i, least) == if r.Room? then Room(Min(least, r.items)) else r
    decreases |outs| - i
  {
    var r := RoomOn(b, outs[i]);
    if i + 1 < |outs| && r.Room? {
      RoomFromIsMin(b, outs, i + 1, Min(least, r.items));
      assert outs[i..][1..] == outs[i + 1..];
    }
  }

  lemma {:induction false} RoomBelow(b: Block, outs: seq<Output>, most: nat)
    requires outs != [] && forall o :: o in outs ==> o.bufsize <= most
    ensures MinRoom(b, outs).Room? ==> MinRoom(b, outs).items <= most
  {
    RoundsDown(outs[0].bufsize / 2, b.multiple);
    if |outs| > 1 && RoomOn(b, outs[0]).Room? {
      RoomBelow(b, outs[1..], most);
    }
  }

  // ---- One pass through try_again ----

  ghost predicate AlignOk(b: Block, al: Align) { al.unaligned <= b.multiple && (al.isUnaligned <==> al.unaligned != 0) }

  /** The request after the fixed-rate step and the cap on it. */
  function Capped(b: Block, maxAvail: nat, request: nat, cap: nat): nat {
    var all := if b.multipleSet then RoundDown(b.convert(maxAvail), b.multiple) else b.convert(maxAvail);
    Min(if b.fixedRate && 0 < all <= request then all else request, RaisedCap(b, cap))
  }

  function RaisedCap(b: Block, cap: nat): nat { if b.fixedRate then Max(b.multiple, cap) else cap }

  /** What is put to forecast: the items asked for; the block's alignment fields while it works;
      how many will be missing to alignment afterwards; and which branch was taken. */
  datatype Asked = Asked(items: int, align: Align, next: nat, branch: int)

  function Aligned(b: Block, n: nat, al: Align): Asked {
    if b.multipleSet then Asked(n, al, 0, -1)
    else if al.isUnaligned then
      if n >= al.unaligned then Asked(RoundUp(n, b.multiple) - (b.multiple - al.unaligned), al, 0, 0)
      else Asked(n, al, al.unaligned - n, 0)
    else if n < b.multiple then Asked(n, Align(b.multiple - n, true), b.multiple - n, 1)
    else Asked(RoundDown(n, b.multiple), Align(al.unaligned, false), 0, 2)
  }

  /** What one pass asks for never exceeds what it was allowed on entry, although the unaligned
      branch rounds up; and the alignment fields stay in the range their setter demands. */
  lemma AlignedFits(b: Block, n: nat, request: nat, al: Align)
    requires AlignOk(b, al) && n <= request && Multiple(request, b.multiple)
    ensures var a := Aligned(b, n, al);
            && 0 <= a.items <= request && (0 < a.items <==> 0 < n)
            && a.next <= b.multiple && AlignOk(b, a.align)
            && (a.branch == 1 ==> a.items < b.multiple) && (a.branch != 1 ==> a.align == al)
  {
    RoundsUp(n, b.multiple);
    RoundsUpTo(n, request, b.multiple);
    RoundsDown(n, b.multiple);
    if n >= b.multiple {
      MultipleOfItself(b.multiple);
      RoundsDownTo(n, b.multiple, b.multiple);
    }
    if n > 0 {
      PositiveMultiple(RoundUp(n, b.multiple), b.multiple);
    }
  }

  /** A call and the items it leaves missing add up to whole multiples, counting from what was
      missing before. */
  lemma AlignedKeepsStep(b: Block, n: nat, al: Align)
    requires !b.multipleSet && AlignOk(b, al)
    ensures var a := Aligned(b, n, al);
            Multiple(a.items + (if a.align.isUnaligned then a.next else a.align.unaligned) - al.unaligned, b.multiple)
  {
    RoundsUp(n, b.multiple);
    RoundsDown(n, b.multiple);
    MultipleOfItself(b.multiple);
    if al.isUnaligned && n >= al.unaligned {
      MultipleSum(RoundUp(n, b.multiple), b.multiple, b.multiple);
    }
  }

  /** It stays within one alignment of what there is room and input for: below it while the block is
      aligned, and on either side while it is not, by no more than what is missing. */
  lemma AlignedNear(b: Block, n: nat, al: Align)
    requires !b.multipleSet && AlignOk(b, al)
    ensures var items := Aligned(b, n, al).items;
            if !al.isUnaligned && b.multiple <= n then n - b.multiple < items <= n
            else if al.isUnaligned && al.unaligned <= n then
              n - (b.multiple - al.unaligned) <= items < n + al.unaligned
            else items == n
  {
    RoundsUp(n, b.multiple);
    RoundsDown(n, b.multiple);
  }

  // ---- The retry loop ----

  /** The first input with too little for this request. */
  function FirstShort(b: Block, items: nat, ins: seq<Input>, i: nat): (r: nat)
    requires i <= |ins|
    ensures i <= r <= |ins|
    ensures forall k :: i <= k < r ==> b.forecast(items, k) <= ins[k].avail
    ensures r < |ins| ==> b.forecast(items, r) > ins[r].avail
    decreases |ins| - i
  {
    if i == |ins| || b.forecast(items, i) > ins[i].avail then i else FirstShort(b, items, ins, i + 1)
  }

  datatype Settled = Call(asked: Asked) | Short(which: nat, asked: Asked)

  ghost predicate Askable(b: Block, request: nat, al: Align) {
    AlignOk(b, al) && 0 < request && Multiple(request, b.multiple)
  }

  /** Ask, and while some input is short halve the request, down to one output multiple. */
  function Settle(b: Block, ins: seq<Input>, maxAvail: nat, request: nat, cap: nat, al: Align): Settled
    requires Askable(b, request, al)
    decreases request
  {
    var n := Capped(b, maxAvail, request, cap);
    AlignedFits(b, n, request, al);
    var a := Aligned(b, n, al);
    var i := FirstShort(b, a.items, ins, 0);
    if i == |ins| then Call(a)
    else if a.items > b.multiple then
      HalvingFalls(a.items, request, b.multiple);
      Settle(b, ins, maxAvail, RoundUp(a.items / 2, b.multiple), RaisedCap(b, cap), a.align)
    else Short(i, a)
  }

  /** One turn of the loop that is the last, and one that is not. */
  lemma SettleStops(b: Block, ins: seq<Input>, maxAvail: nat, request: nat, cap: nat, al: Align, a: Asked, i: nat)
    requires Askable(b, request, al)
    requires a == Aligned(b, Capped(b, maxAvail, request, cap), al) && i == FirstShort(b, a.items, ins, 0)
    requires i == |ins| || a.items <= b.multiple
    ensures Settle(b, ins, maxAvail, request, cap, al) == if i == |ins| then Call(a) else Short(i, a)
  {
  }

  lemma SettleGoesOn(b: Block, ins: seq<Input>, maxAvail: nat, request: nat, cap: nat, al: Align, a: Asked, half: nat)
    requires Askable(b, request, al)
    requires a == Aligned(b, Capped(b, maxAvail, request, cap), al)
    requires FirstShort(b, a.items, ins, 0) < |ins| && a.items > b.multiple && half == RoundUp(a.items / 2, b.multiple)
    ensures half < request && Askable(b, half, a.align)
    ensures Settle(b, ins, maxAvail, request, cap, al) == Settle(b, ins, maxAvail, half, RaisedCap(b, cap), a.align)
  {
    AlignedFits(b, Capped(b, maxAvail, request, cap), request, al);
    HalvingFalls(a.items, request, b.multiple);
  }

  /** How it ends: with a request that fits and whose forecast every input meets, or short of
      input after asking for at most one output multiple. The last pass starts with the
      alignment that the loop was entered with: a pass that made the block unaligned is never
      repeated. */
  lemma {:induction false} SettleEnds(b: Block, ins: seq<Input>, maxAvail: nat, request: nat, cap: nat, al: Align)
    requires Askable(b, request, al)
    ensures var s := Settle(b, ins, maxAvail, request, cap, al);
            && 0 <= s.asked.items <= request && (0 < s.asked.items <==> 0 < RaisedCap(b, cap))
            && s.asked.next <= b.multiple && AlignOk(b, s.asked.align)
            && match s
               case Call(a) => forall k :: 0 <= k < |ins| ==> b.forecast(a.items, k) <= ins[k].avail
               case Short(i, a) => i < |ins| && a.items <= b.multiple && b.forecast(a.items, i) > ins[i].avail
    ensures exists last: nat, lastCap: nat ::
              && Askable(b, last, al) && (0 < lastCap <==> 0 < RaisedCap(b, cap))
              && Settle(b, ins, maxAvail, request, cap, al).asked == Aligned(b, Capped(b, maxAvail, last, lastCap), al)
    decreases request
  {
    var n := Capped(b, maxAvail, request, cap);
    AlignedFits(b, n, request, al);
    var a := Aligned(b, n, al);
    if FirstShort(b, a.items, ins, 0) < |ins| && a.items > b.multiple {
      HalvingFalls(a.items, request, b.multiple);
      SettleEnds(b, ins, maxAvail, RoundUp(a.items / 2, b.multiple), RaisedCap(b, cap), a.align);
    }
  }

  /** Some input has too little for n items. */
  ghost predicate TooMuch(b: Block, ins: seq<Input>, n: nat) {
    exists k :: 0 <= k < |ins| && b.forecast(n, k) > ins[k].avail
  }

  lemma HalfOf(n: nat, m: Pos)
    requires m < n
    ensures RoundUp(n / 2, m) <= n <= 2 * RoundUp(n / 2, m) + 1
  {
    RoundsUp(n / 2, m);
    MultipleOfItself(m);
    if n / 2 <= m {
      RoundsUpTo(n / 2, m, m);
    }
  }

  /** Halving does not give up more than it must: a block of any rate that is called for less than it
      could have had room for is called for at least half of what was too much. */
  lemma {:induction false} NotMuchLess(b: Block, ins: seq<Input>, maxAvail: nat, request: nat, cap: nat, al: Align)
    requires Askable(b, request, al) && b.multipleSet && !b.fixedRate
    ensures var s := Settle(b, ins, maxAvail, request, cap, al);
            s.Call? && s.asked.items != Min(request, cap) ==>
              exists n: nat :: n <= request && n <= 2 * s.asked.items + 1 && TooMuch(b, ins, n)
    decreases request
  {
    var n := Min(request, cap);
    var a := Asked(n, al, 0, -1);
    assert a == Aligned(b, Capped(b, maxAvail, request, cap), al);
    var i := FirstShort(b, n, ins, 0);
    if i == |ins| || n <= b.multiple {
      SettleStops(b, ins, maxAvail, request, cap, al, a, i);
    } else {
      var half := RoundUp(n / 2, b.multiple);
      SettleGoesOn(b, ins, maxAvail, request, cap, al, a, half);
      HalfOf(n, b.multiple);
      NotMuchLess(b, ins, maxAvail, half, RaisedCap(b, cap), al);
      assert TooMuch(b, ins, n);
    }
  }

  // ---- One decision ----

  datatype Decision =
    | Run(asked: Asked)          // call the block for so many items
    | Starved(align: Align)      // blocked on input
    | Jammed                     // blocked on output
    | Finished
    | Unfit                      // "Buffer too small for min_noutput_items"

  function MostAvail(ins: seq<Input>): nat {
    if ins == [] then 0 else Max(MostAvail(ins[..|ins| - 1]), ins[|ins| - 1].avail)
  }

  function CapOf(b: Block): nat { RoundDown(b.maxNoutput, b.multiple) }

  /** The shared tail: retry, then decide what a shortage means. */
  function Try(b: Block, al: Align, ins: seq<Input>, request: nat): Decision
    requires Askable(b, request, al)
  {
    SettleEnds(b, ins, MostAvail(ins), request, CapOf(b), al);
    match Settle(b, ins, MostAvail(ins), request, CapOf(b), al)
    case Call(a) => Run(a)
    case Short(i, a) =>
      if ins[i].done || b.forecast(a.items, i) > ins[i].maxPossible then Finished
      else Starved(if a.branch == 1 then Align(0, false) else a.align)
  }

  function DecideSource(b: Block, al: Align, room: Room): Decision {
    match room
    case Room(n) =>
      var items := Min(n, CapOf(b));
      if items == 0 then Jammed else Run(Asked(items, al, 0, -1))
    case Full => Jammed
    case FullAndDone => Finished
    case TooSmall => Unfit
  }

  function DecideRegular(b: Block, al: Align, ins: seq<Input>, room: Room): Decision
    requires AlignOk(b, al) && (room.Room? ==> 0 < room.items && Multiple(room.items, b.multiple))
  {
    match room
    case Room(n) => Try(b, al, ins, n)
    case Full => Jammed
    case FullAndDone => Finished
    case TooSmall => Unfit
  }

  function SinkRequest(b: Block, ins: seq<Input>): nat
  {
    Min(RoundDown(b.estimate(MostAvail(ins)), b.multiple), CapOf(b))
  }

  lemma SinkRequestMultiple(b: Block, ins: seq<Input>)
    ensures Multiple(SinkRequest(b, ins), b.multiple)
  {
    RoundsDown(b.estimate(MostAvail(ins)), b.multiple);
    RoundsDown(b.maxNoutput, b.multiple);
  }

  function DecideSink(b: Block, al: Align, ins: seq<Input>): Decision
    requires AlignOk(b, al)
  {
    SinkRequestMultiple(b, ins);
    if exists i :: 0 <= i < |ins| && ins[i].avail < b.multiple && ins[i].done then Finished
    else if SinkRequest(b, ins) == 0 then Starved(al)
    else Try(b, al, ins, SinkRequest(b, ins))
  }

  function Decide(b: Block, al: Align, ins: seq<Input>, outs: seq<Output>): Decision
    requires AlignOk(b, al) && (ins != [] || outs != [])
  {
    if outs == [] then DecideSink(b, al, ins)
    else
      MinRoomFits(b, outs);
      if ins == [] then DecideSource(b, al, MinRoom(b, outs)) else DecideRegular(b, al, ins, MinRoom(b, outs))
  }

  // ---- What a decision means ----

  lemma TryMeans(b: Block, al: Align, ins: seq<Input>, request: nat)
    requires Askable(b, request, al)
    ensures var d := Try(b, al, ins, request);
            && (d.Run? ==>
                  && 0 <= d.asked.items <= request && d.asked.next <= b.multiple && AlignOk(b, d.asked.align)
                  && (0 < d.asked.items <==> 0 < RaisedCap(b, CapOf(b)))
                  && forall k :: 0 <= k < |ins| ==> b.forecast(d.asked.items, k) <= ins[k].avail)
            && (d.Starved? || d == Finished || d.Run?)
            && (!d.Run? ==> exists i: nat, items: nat | i < |ins| && items <= b.multiple ::
                  && b.forecast(items, i) > ins[i].avail
                  && (d == Finished <==> ins[i].done || b.forecast(items, i) > ins[i].maxPossible))
            && (d.Starved? ==> AlignOk(b, d.align))
  {
    SettleEnds(b, ins, MostAvail(ins), request, CapOf(b), al);
  }

  lemma CapPositive(b: Block)
    ensures 0 < RaisedCap(b, CapOf(b)) <==> b.fixedRate || b.multiple <= b.maxNoutput
  {
    RoundedToNothing(b.maxNoutput, b.multiple);
  }

  /** Whenever a block with inputs and outputs is called, the request fits into the space of
      every output and every input meets its forecast. The request is for at least one item
      unless max_noutput_items is below the output multiple and the rate is not fixed. */
  lemma RequestIsSafe(b: Block, al: Align, ins: seq<Input>, outs: seq<Output>, a: Asked)
    requires AlignOk(b, al) && ins != [] && outs != []
    requires Decide(b, al, ins, outs) == Run(a)
    ensures 0 <= a.items && (0 < a.items <==> b.fixedRate || b.multiple <= b.maxNoutput)
    ensures forall o :: o in outs ==> a.items <= o.space
    ensures forall k :: 0 <= k < |ins| ==> b.forecast(a.items, k) <= ins[k].avail
  {
    MinRoomFits(b, outs);
    CapPositive(b);
    TryMeans(b, al, ins, MinRoom(b, outs).items);
  }

  lemma {:induction false} SettleWithin(b: Block, ins: seq<Input>, maxAvail: nat, request: nat, cap: nat, al: Align)
    requires Askable(b, request, al) && Multiple(cap, b.multiple)
    ensures Settle(b, ins, maxAvail, request, cap, al).asked.items <= RaisedCap(b, cap)
    decreases request
  {
    var n := Capped(b, maxAvail, request, cap);
    AlignedFits(b, n, request, al);
    var a := Aligned(b, n, al);
    MultipleOfItself(b.multiple);
    AlignedFits(b, n, RaisedCap(b, cap), al);
    if FirstShort(b, a.items, ins, 0) < |ins| && a.items > b.multiple {
      HalvingFalls(a.items, request, b.multiple);
      SettleWithin(b, ins, maxAvail, RoundUp(a.items / 2, b.multiple), RaisedCap(b, cap), a.align);
    }
  }

  /** No block is ever called for more than max_noutput_items, unless its rate is fixed and it is for one
      output multiple; nor for more than half of any output's buffer. */
  lemma RequestIsBounded(b: Block, al: Align, ins: seq<Input>, outs: seq<Output>, a: Asked)
    requires AlignOk(b, al) && (ins != [] || outs != []) && Decide(b, al, ins, outs) == Run(a)
    ensures a.items <= b.maxNoutput || (b.fixedRate && ins != [] && a.items <= b.multiple)
    ensures forall o :: o in outs ==> a.items <= o.space && 2 * a.items <= o.bufsize
  {
    RoundsDown(b.maxNoutput, b.multiple);
    if outs == [] {
      SinkRequestMultiple(b, ins);
      TryIsBounded(b, al, ins, SinkRequest(b, ins), a);
    } else {
      MinRoomFits(b, outs);
      MinRoomTaken(b, outs);
      if ins != [] {
        TryIsBounded(b, al, ins, MinRoom(b, outs).items, a);
      }
    }
  }

  /** A source is called whenever there is something that all its outputs can take and its maximum
      allows, and for no less than the most of it. */
  lemma SourceAsksForMost(b: Block, al: Align, outs: seq<Output>, n: nat)
    requires AlignOk(b, al) && outs != [] && n <= b.maxNoutput && forall o :: o in outs ==> Takes(b, o, n)
    ensures var d := Decide(b, al, [], outs); d.Run? && n <= d.asked.items
  {
    MinRoomFits(b, outs);
    MinRoomIsMost(b, outs, n);
    assert Takes(b, outs[0], n);
    RoundsDownTo(b.maxNoutput, n, b.multiple);
  }

  lemma TryIsBounded(b: Block, al: Align, ins: seq<Input>, request: nat, a: Asked)
    requires Askable(b, request, al) && Try(b, al, ins, request) == Run(a)
    ensures a.items <= request && (a.items <= b.maxNoutput || (b.fixedRate && a.items <= b.multiple))
  {
    RoundsDown(b.maxNoutput, b.multiple);
    TryMeans(b, al, ins, request);
    SettleWithin(b, ins, MostAvail(ins), request, CapOf(b), al);
  }

  ghost predicate ForecastGrows(b: Block) {
    forall m: nat, n: nat, k: nat :: m <= n ==> b.forecast(m, k) <= b.forecast(n, k)
  }

  /** Input for one whole output multiple on every input is always enough to run. */
  lemma EnoughInputRuns(b: Block, al: Align, ins: seq<Input>, request: nat)
    requires Askable(b, request, al) && ForecastGrows(b)
    requires forall k :: 0 <= k < |ins| ==> b.forecast(b.multiple, k) <= ins[k].avail
    ensures Try(b, al, ins, request).Run?
  {
    TryMeans(b, al, ins, request);
  }

  /** A sink is left waiting on a finished input exactly if there is a whole output multiple of
      items, so that it does not finish, but the rate makes less than one multiple of them. */
  lemma SinkStuck(b: Block, al: Align, ins: seq<Input>, i: Input)
    requires AlignOk(b, al) && ins == [i] && i.done && b.multiple <= b.maxNoutput
    ensures DecideSink(b, al, ins).Starved? <==> b.multiple <= i.avail && b.estimate(i.avail) < b.multiple
  {
    assert ins[..0] == [];
    assert MostAvail(ins) == i.avail;
    CommonMultipleZero(b.estimate(i.avail), b.maxNoutput, b.multiple);
    SinkRequestMultiple(b, ins);
    if i.avail < b.multiple {
      assert ins[0].avail < b.multiple && ins[0].done;
    } else if SinkRequest(b, ins) > 0 {
      TryMeans(b, al, ins, SinkRequest(b, ins));
    }
  }

  lemma CommonMultipleZero(n: nat, k: nat, m: Pos)
    requires m <= k
    ensures Min(RoundDown(n, m), RoundDown(k, m)) == 0 <==> n < m
  {
    RoundedToNothing(n, m);
    RoundedToNothing(k, m);
  }

  lemma RoundedToNothing(n: nat, m: Pos)
    ensures RoundDown(n, m) == 0 <==> n < m
  {
    RoundsDown(n, m);
    MultipleOfItself(m);
    if n >= m {
      RoundsDownTo(n, m, m);
    } else if RoundDown(n, m) > 0 {
      PositiveMultiple(RoundDown(n, m), m);
    }
  }

  // ---- Alignment over whole runs ----

  /** What general_work comes to: WORK_DONE (or tags that could not be moved downstream); output counts
      given by calls of produce; or one number of items for every output. */
  datatype Work = WorkDone | CalledProduce(some: bool) | Produced(n: int)

  datatype State = READY | READY_NO_OUTPUT | BLKD_IN | BLKD_OUT | DONE | THROWN

  /** The alignment fields after the work call. */
  function AfterWork(a: Asked): Align {
    if a.align.isUnaligned then Align(a.next, a.next != 0) else a.align
  }

  function StateAfter(w: Work): State {
    match w
    case WorkDone => DONE
    case CalledProduce(some) => if some then READY else READY_NO_OUTPUT
    case Produced(n) => if n > 0 then READY else READY_NO_OUTPUT
  }

  /** What each state says: whether the block was called and gave something, has ended, or what it is
      blocked on. */
  ghost predicate Returned(s: State, d: Decision, work: int -> Work) {
    match s
    case READY =>
      d.Run? && (match work(d.asked.items)
                 case Produced(n) => n > 0
                 case CalledProduce(some) => some
                 case WorkDone => false)
    case READY_NO_OUTPUT =>
      d.Run? && (match work(d.asked.items)
                 case Produced(n) => n <= 0
                 case CalledProduce(some) => !some
                 case WorkDone => false)
    case DONE => d.Finished? || (d.Run? && work(d.asked.items) == WorkDone)
    case BLKD_IN => d.Starved?
    case BLKD_OUT => d.Jammed?
    case THROWN => d.Unfit?
  }

  datatype Outcome = Outcome(state: State, align: Align)

  function Ending(d: Decision, al: Align, work: int -> Work): Outcome {
    match d
    case Run(a) => Outcome(StateAfter(work(a.items)), AfterWork(a))
    case Starved(align) => Outcome(BLKD_IN, align)
    case Jammed => Outcome(BLKD_OUT, al)
    case Finished => Outcome(DONE, al)
    case Unfit => Outcome(THROWN, al)
  }

  function Iterate(b: Block, al: Align, ins: seq<Input>, outs: seq<Output>, work: int -> Work): Outcome
    requires AlignOk(b, al) && (ins != [] || outs != [])
  {
    Ending(Decide(b, al, ins, outs), al, work)
  }

  lemma TryFromAlign(b: Block, al: Align, ins: seq<Input>, request: nat)
    requires Askable(b, request, al)
    ensures var d := Try(b, al, ins, request);
            && (d.Run? ==> d.asked.items >= 0 && exists n: nat :: d.asked == Aligned(b, n, al))
            && (d.Starved? ==> d.align == al)
  {
    SettleEnds(b, ins, MostAvail(ins), request, CapOf(b), al);
    var s := Settle(b, ins, MostAvail(ins), request, CapOf(b), al);
    var last: nat, lastCap: nat :|
      Askable(b, last, al) && s.asked == Aligned(b, Capped(b, MostAvail(ins), last, lastCap), al);
    AlignedFits(b, Capped(b, MostAvail(ins), last, lastCap), last, al);
  }

  /** A blocked block is left with the alignment it had; a called one works on one aligned pass. */
  lemma DecisionInRange(b: Block, al: Align, ins: seq<Input>, outs: seq<Output>)
    requires AlignOk(b, al) && (ins != [] || outs != [])
    ensures var d := Decide(b, al, ins, outs);
            && (d.Run? ==> 0 <= d.asked.items)
            && (d.Starved? ==> d.align == al)
            && (d.Run? && ins != [] ==> exists n: nat :: d.asked == Aligned(b, n, al))
            && (d.Run? && ins == [] ==> Multiple(d.asked.items, b.multiple) && d.asked.align == al)
  {
    if outs == [] {
      SinkRequestMultiple(b, ins);
      if SinkRequest(b, ins) > 0 {
        TryFromAlign(b, al, ins, SinkRequest(b, ins));
      }
    } else {
      MinRoomFits(b, outs);
      RoundsDown(b.maxNoutput, b.multiple);
      if ins != [] && MinRoom(b, outs).Room? {
        TryFromAlign(b, al, ins, MinRoom(b, outs).items);
      }
    }
  }

  /** What a block finds on its buffers at one iteration. */
  datatype Env = Env(ins: seq<Input>, outs: seq<Output>)

  /** A block that returns what it was asked for. */
  function AsAsked(n: int): Work { Produced(n) }

  datatype Progress = Progress(align: Align, written: nat, done: bool)

  /** A block that always returns what it was asked for, run through a history of iterations. */
  function Progressed(b: Block, envs: seq<Env>): (p: Progress)
    requires forall e :: e in envs ==> e.ins != [] || e.outs != []
    ensures AlignOk(b, p.align)
  {
    if envs == [] then Progress(Align(0, false), 0, false)
    else
      var p := Progressed(b, envs[..|envs| - 1]);
      var e := envs[|envs| - 1];
      if p.done then p else Progressing(b, p, e)
  }

  function Progressing(b: Block, p: Progress, e: Env): (q: Progress)
    requires AlignOk(b, p.align) && (e.ins != [] || e.outs != [])
    ensures AlignOk(b, q.align)
  {
    DecisionInRange(b, p.align, e.ins, e.outs);
    var d := Decide(b, p.align, e.ins, e.outs);
    var o := Iterate(b, p.align, e.ins, e.outs, AsAsked);
    IterateAlignOk(b, p.align, e);
    Progress(o.align, p.written + (if d.Run? then d.asked.items else 0), o.state == DONE || o.state == THROWN)
  }

  lemma IterateAlignOk(b: Block, al: Align, e: Env)
    requires AlignOk(b, al) && (e.ins != [] || e.outs != [])
    ensures AlignOk(b, Iterate(b, al, e.ins, e.outs, AsAsked).align)
  {
    DecisionInRange(b, al, e.ins, e.outs);
    var d := Decide(b, al, e.ins, e.outs);
    if d.Run? && e.ins != [] {
      var n: nat :| d.asked == Aligned(b, n, al);
      RoundsUp(n, b.multiple);
      MultipleOfItself(b.multiple);
      AlignedFits(b, n, RoundUp(n, b.multiple), al);
    }
  }

  /** Through every history of retries, blocked returns and calls: until it is done, what a block
      has written and what it still lacks to alignment add up to whole alignments, and it calls
      itself unaligned exactly while something is lacking. */
  lemma {:induction false} AlignmentKept(b: Block, envs: seq<Env>, source: bool)
    requires !b.multipleSet
    requires forall e :: e in envs ==> (e.ins != [] || e.outs != []) && (source <==> e.ins == [])
    ensures var p := Progressed(b, envs);
            && Multiple(p.written + p.align.unaligned, b.multiple)
            && (p.align.isUnaligned <==> p.align.unaligned != 0)
            && (source ==> p.align == Align(0, false))
  {
    if envs == [] {
      MultipleOfItself(b.multiple);
    } else {
      AlignmentKept(b, envs[..|envs| - 1], source);
      var p := Progressed(b, envs[..|envs| - 1]);
      if !p.done {
        AlignmentStep(b, p, envs[|envs| - 1]);
      }
    }
  }

  lemma AlignmentStep(b: Block, p: Progress, e: Env)
    requires !b.multipleSet && AlignOk(b, p.align) && (e.ins != [] || e.outs != [])
    requires Multiple(p.written + p.align.unaligned, b.multiple) && (e.ins == [] ==> p.align == Align(0, false))
    ensures var q := Progressing(b, p, e);
            && Multiple(q.written + q.align.unaligned, b.multiple)
            && (e.ins == [] ==> q.align == Align(0, false))
  {
    DecisionInRange(b, p.align, e.ins, e.outs);
    var d := Decide(b, p.align, e.ins, e.outs);
    if d.Run? {
      var q := Progressing(b, p, e);
      if e.ins != [] {
        var n: nat :| d.asked == Aligned(b, n, p.align);
        AlignedKeepsStep(b, n, p.align);
      }
      MultipleSum(p.written + p.align.unaligned, d.asked.items + q.align.unaligned - p.align.unaligned, b.multiple);
      assert p.written + p.align.unaligned + (d.asked.items + q.align.unaligned - p.align.unaligned)
          == q.written + q.align.unaligned;
    }
  }

  // ---- The executor ----

  class BlockExecutor {
    const b: Block
    var unaligned: int
    var isUnaligned: bool
    var done: bool

    ghost predicate Valid()
      reads this
    {
      0 <= unaligned && AlignOk(b, Al())
    }

    function Al(): Align
      requires 0 <= unaligned
      reads this
    {
      Align(unaligned, isUnaligned)
    }

    constructor (b: Block)
      ensures Valid() && this.b == b && !done && Al() == Align(0, false)
    {
      this.b := b;
      unaligned, isUnaligned, done := 0, false, false;
    }

    /** The setter throws outside this range. */
    method SetUnaligned(na: int)
      requires 0 <= na <= b.multiple
      modifies `unaligned
      ensures unaligned == na
    {
      unaligned := na;
    }

    method MinAvailableSpace(outs: seq<Output>) returns (room: Room)
      requires outs != [] && forall o :: o in outs ==> o.bufsize <= INT_MAX
      ensures room == MinRoom(b, outs)
    {
      var minSpace: nat := INT_MAX;
      var i := 0;
      RoomFromIsMin(b, outs, 0, INT_MAX);
      RoomBelow(b, outs, INT_MAX);
      assert outs[0..] == outs;
      while i < |outs|
        invariant 0 <= i <= |outs|
        invariant MinRoom(b, outs) == RoomFrom(b, outs, i, minSpace)
      {
        var availN := RoundDown(outs[i].space, b.multiple);
        var bestN := RoundDown(outs[i].bufsize / 2, b.multiple);
        if bestN < LeastNoutput(b) {
          return TooSmall;
        }
        var n := Min(availN, bestN);
        if n < LeastNoutput(b) {
          return if outs[i].done then FullAndDone else Full;
        }
        minSpace := Min(minSpace, n);
        i := i + 1;
      }
      room := Room(minSpace);
    }

    /** The input that keeps the request from being met, or the number of inputs. */
    method FindShort(ins: seq<Input>, items: nat) returns (i: nat)
      ensures i == FirstShort(b, items, ins, 0)
    {
      i := 0;
      while i < |ins| && b.forecast(items, i) <= ins[i].avail
        invariant i <= |ins| && FirstShort(b, items, ins, i) == FirstShort(b, items, ins, 0)
      {
        i := i + 1;
      }
    }

    /** The body of the retry loop up to the call of forecast. */
    method AskFor(maxAvail: nat, request: nat, limit: nat)
      returns (noutput: nat, maxNoutput: nat, newAlignment: nat, alignmentState: int)
      requires Valid() && Askable(b, request, Al())
      modifies `unaligned, `isUnaligned
      ensures Valid() && maxNoutput == RaisedCap(b, limit)
      ensures Asked(noutput, Al(), newAlignment, alignmentState) ==
              Aligned(b, Capped(b, maxAvail, request, limit), old(Al()))
    {
      noutput, maxNoutput, newAlignment, alignmentState := request, limit, 0, -1;
      if b.fixedRate {
        var reqd := b.convert(maxAvail);
        if b.multipleSet {
          reqd := RoundDown(reqd, b.multiple);
        }
        if reqd > 0 && reqd <= noutput {
          noutput := reqd;
        }
        maxNoutput := Max(b.multiple, maxNoutput);
      }
      noutput := Min(noutput, maxNoutput);
      AlignedFits(b, noutput, request, Al());
      if !b.multipleSet {
        if isUnaligned {
          if noutput >= unaligned {
            noutput := RoundUp(noutput, b.multiple) - (b.multiple - unaligned);
            newAlignment := 0;
          } else {
            newAlignment := unaligned - noutput;
          }
          alignmentState := 0;
        } else if noutput < b.multiple {
          newAlignment := b.multiple - noutput;
          SetUnaligned(newAlignment);
          isUnaligned := true;
          alignmentState := 1;
        } else {
          noutput := RoundDown(noutput, b.multiple);
          isUnaligned := false;
          alignmentState := 2;
        }
      }
    }

    method TryAgain(ins: seq<Input>, maxAvail: nat, request: nat, limit: nat) returns (s: Settled)
      requires Valid() && Askable(b, request, Al())
      modifies `unaligned, `isUnaligned
      ensures Valid() && s == Settle(b, ins, maxAvail, request, limit, old(Al())) && s.asked.align == Al()
    {
      var noutput, maxNoutput := request, limit;
      while true
        invariant Valid() && Askable(b, noutput, Al())
        invariant Settle(b, ins, maxAvail, noutput, maxNoutput, Al()) ==
                  Settle(b, ins, maxAvail, request, limit, old(Al()))
        decreases noutput
      {
        var items, newAlignment, alignmentState;
        ghost var cap, al := maxNoutput, Al();
        items, maxNoutput, newAlignment, alignmentState := AskFor(maxAvail, noutput, maxNoutput);
        var i := FindShort(ins, items);
        ghost var a := Asked(items, Al(), newAlignment, alignmentState);
        if i == |ins| || items <= b.multiple {
          SettleStops(b, ins, maxAvail, noutput, cap, al, a, i);
          return if i == |ins| then Call(Asked(items, Al(), newAlignment, alignmentState))
                 else Short(i, Asked(items, Al(), newAlignment, alignmentState));
        }
        var half := RoundUp(items / 2, b.multiple);
        SettleGoesOn(b, ins, maxAvail, noutput, cap, al, a, half);
        noutput := half;
      }
    }

    /** Looks at every input in turn; a sink stops at the first finished one with less than an
        output multiple left. */
    method LookAtInputs(ins: seq<Input>, sink: bool) returns (maxAvail: nat, finished: bool)
      ensures finished <==> sink && exists i :: 0 <= i < |ins| && ins[i].avail < b.multiple && ins[i].done
      ensures !finished ==> maxAvail == MostAvail(ins)
    {
      maxAvail := 0;
      for i := 0 to |ins|
        invariant maxAvail == MostAvail(ins[..i])
        invariant sink ==> forall k :: 0 <= k < i ==> !(ins[k].avail < b.multiple && ins[k].done)
      {
        assert ins[..i + 1][..i] == ins[..i];
        if sink && ins[i].avail < b.multiple && ins[i].done {
          return maxAvail, true;
        }
        maxAvail := Max(maxAvail, ins[i].avail);
      }
      assert ins[..|ins|] == ins;
      finished := false;
    }

    method CallWork(items: int, newAlignment: nat, work: int -> Work) returns (s: State)
      requires Valid() && newAlignment <= b.multiple
      modifies `unaligned, `isUnaligned
      ensures Valid() && s == StateAfter(work(items))
      ensures s == READY <==> match work(items)
                              case Produced(n) => n > 0
                              case CalledProduce(some) => some
                              case WorkDone => false
      ensures s == DONE <==> work(items) == WorkDone
      ensures s == READY || s == DONE || s == READY_NO_OUTPUT
      ensures Al() == if old(isUnaligned) then Align(newAlignment, newAlignment != 0) else old(Al())
    {
      if isUnaligned {
        SetUnaligned(newAlignment);
        isUnaligned := unaligned != 0;
      }
      s := StateAfter(work(items));
    }

    /** try_again and what follows it. */
    method TryToRun(ins: seq<Input>, maxAvail: nat, request: nat, work: int -> Work) returns (s: State)
      requires Valid() && Askable(b, request, Al()) && maxAvail == MostAvail(ins)
      modifies this
      ensures Valid() && done == old(done)
      ensures var o := Ending(Try(b, old(Al()), ins, request), old(Al()), work);
              s == o.state && (s != DONE ==> Al() == o.align)
    {
      SettleEnds(b, ins, maxAvail, request, CapOf(b), Al());
      TryMeans(b, Al(), ins, request);
      var settled := TryAgain(ins, maxAvail, request, CapOf(b));
      match settled {
        case Call(a) =>
          s := CallWork(a.items, a.next, work);
        case Short(i, a) =>
          if ins[i].done || b.forecast(a.items, i) > ins[i].maxPossible {
            return DONE;
          }
          if a.branch == 1 {
            SetUnaligned(0);
            isUnaligned := false;
          }
          s := BLKD_IN;
      }
    }

    /** One iteration of the block's thread, up to the marking of its buffers as done. */
    method RunOneIteration(ins: seq<Input>, outs: seq<Output>, work: int -> Work) returns (s: State)
      requires Valid() && !done && (ins != [] || outs != []) && forall o :: o in outs ==> o.bufsize <= INT_MAX
      modifies this
      ensures Valid() && s == Iterate(b, old(Al()), ins, outs, work).state
      ensures done <==> s == DONE
      ensures Returned(s, Decide(b, old(Al()), ins, outs), work)
      ensures s != DONE ==> Al() == Iterate(b, old(Al()), ins, outs, work).align
    {
      if ins == [] {
        s := RunSource(outs, work);
      } else if outs == [] {
        s := RunSink(ins, work);
      } else {
        s := RunRegular(ins, outs, work);
      }
      done := s == DONE;
    }

    method RunSource(outs: seq<Output>, work: int -> Work) returns (s: State)
      requires Valid() && outs != [] && forall o :: o in outs ==> o.bufsize <= INT_MAX
      modifies this
      ensures Valid() && done == old(done) && s == Iterate(b, old(Al()), [], outs, work).state
      ensures s != DONE ==> Al() == Iterate(b, old(Al()), [], outs, work).align
    {
      var room := MinAvailableSpace(outs);
      match room {
        case TooSmall => s := THROWN;
        case FullAndDone => s := DONE;
        case Full => s := BLKD_OUT;
        case Room(n) =>
          var noutput := Min(n, CapOf(b));
          if noutput == 0 {
            s := BLKD_OUT;
          } else {
            s := CallWork(noutput, 0, work);
          }
      }
    }

    method RunSink(ins: seq<Input>, work: int -> Work) returns (s: State)
      requires Valid() && ins != []
      modifies this
      ensures Valid() && done == old(done) && s == Iterate(b, old(Al()), ins, [], work).state
      ensures s != DONE ==> Al() == Iterate(b, old(Al()), ins, [], work).align
    {
      var maxAvail, finished := LookAtInputs(ins, true);
      if finished {
        return DONE;
      }
      SinkRequestMultiple(b, ins);
      var noutput := Min(RoundDown(b.estimate(maxAvail), b.multiple), CapOf(b));
      if noutput == 0 {
        return BLKD_IN;
      }
      s := TryToRun(ins, maxAvail, noutput, work);
    }

    method RunRegular(ins: seq<Input>, outs: seq<Output>, work: int -> Work) returns (s: State)
      requires Valid() && ins != [] && outs != [] && forall o :: o in outs ==> o.bufsize <= INT_MAX
      modifies this
      ensures Valid() && done == old(done) && s == Iterate(b, old(Al()), ins, outs, work).state
      ensures s != DONE ==> Al() == Iterate(b, old(Al()), ins, outs, work).align
    {
      var maxAvail, _ := LookAtInputs(ins, false);
      var room := MinAvailableSpace(outs);
      MinRoomFits(b, outs);
      match room {
        case TooSmall => s := THROWN;
        case FullAndDone => s := DONE;
        case Full => s := BLKD_OUT;
        case Room(n) => s := TryToRun(ins, maxAvail, n, work);
      }
    }
  }
}
