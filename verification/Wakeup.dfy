/** What every step of the threads keeps: no buffer overflows, no wake-up is lost. */
module Wakeup {
  import opened Rounding
  import opened Executor
  import opened Rates
  import opened Network

  // ---- Who still has to tell whom ----

  /** The writer has changed buffer f and has not yet told its reader d. */
  ghost predicate Owes(w: Thread, f: nat, d: nat) {
    match w.pc
    case Produce(todo, r) => f !in todo
    case MarkDone(outs, inn) => f !in outs
    case Notify(down, up, last) => d in down
    case _ => false
  }

  /** A reader has changed its input buffer and has not yet told the writer. */
  ghost predicate OwesUp(d: Thread) {
    match d.pc
    case Produce(todo, r) => true
    case MarkDone(outs, inn) => !inn
    case Notify(down, up, last) => up
    case _ => false
  }

  /** The writer has marked f as done. */
  ghost predicate WriterMarked(w: Thread, f: nat) {
    match w.pc
    case MarkDone(outs, inn) => f !in outs
    case Notify(down, up, last) => last
    case Exited => true
    case _ => false
  }

  /** A reader has marked its input as done. */
  ghost predicate ReaderMarked(d: Thread) {
    match d.pc
    case MarkDone(outs, inn) => !inn
    case Notify(down, up, last) => last
    case Exited => true
    case _ => false
  }

  /** Between the look at its input and acting on it. */
  ghost predicate Knows(pc: Pc) { pc.LookOut? || pc.Deciding? || pc.WaitIn? }

  // ---- The invariant ----

  /** Every reader of f has room for n more items before it. */
  ghost predicate Fits(net: Net, s: World, f: nat, n: int)
    requires net.Valid() && Shaped(net, s) && f < |net.writer|
  {
    forall d :: 0 <= d < |net.nodes| && net.input[d] == f ==> Unread(net, s, d) + n < net.size[f]
  }

  ghost predicate FitsOn(net: Net, s: World, fs: set<nat>, n: int)
    requires net.Valid() && Shaped(net, s)
  {
    forall f :: f in fs && f < |net.writer| ==> Fits(net, s, f, n)
  }

  /** What makes a thread wait for input: too little for one output multiple, or in a sink just
      enough for it when the estimate is rounded below; and if its input was finished, then only a
      sink for which the rate makes less than one multiple of what is there. */
  ghost predicate TooLittle(net: Net, b: nat, saw: Input)
    requires net.Valid() && b < |net.nodes|
  {
    && saw.avail <= net.Enough(b) && (net.Outs(b) != {} ==> saw.avail < net.Enough(b))
    && (saw.done ==>
          && net.Outs(b) == {} && net.MultipleOf(b) <= saw.avail
          && net.nodes[b].block.estimate(saw.avail) < net.MultipleOf(b))
  }

  /** The thread's own view is sound: its snapshots are still lower bounds. */
  ghost predicate Sound(net: Net, s: World, b: nat)
    requires net.Valid() && Shaped(net, s) && b < |net.nodes|
  {
    var me := s.threads[b];
    && AlignOk(net.nodes[b].block, me.align)
    && (net.input[b] >= 0 ==> 0 <= Unread(net, s, b) < net.size[net.input[b]])
    && (net.input[b] >= 0 && Knows(me.pc) ==>
          me.saw.avail <= Unread(net, s, b) && me.saw.maxPossible == net.size[net.input[b]] - 1)
    && PcSound(net, s, b)
  }

  ghost predicate PcSound(net: Net, s: World, b: nat)
    requires net.Valid() && Shaped(net, s) && b < |net.nodes|
  {
    var me := s.threads[b];
    match me.pc
    case LookIn => net.input[b] >= 0
    case LookOut(todo, least) =>
      && todo <= net.Outs(b) && net.Outs(b) != {} && 0 < least
      && (if todo == net.Outs(b) then least == INT_MAX else Multiple(least, net.MultipleOf(b)))
      && FitsOn(net, s, net.Outs(b) - todo, least)
    case Deciding(room) =>
      && (net.Outs(b) != {} ==> 0 < room && Multiple(room, net.MultipleOf(b)))
      && FitsOn(net, s, net.Outs(b), room)
    case Working(items) =>
      && (net.input[b] >= 0 ==> Needs(net.nodes[b].rate, net.nodes[b].history, items) <= Unread(net, s, b))
      && FitsOn(net, s, net.Outs(b), items)
    case Produce(todo, r) => todo <= net.Outs(b) && FitsOn(net, s, todo, r) && r > 0
    case MarkDone(outs, inn) => outs <= net.Outs(b) && (inn ==> net.input[b] >= 0)
    case Notify(down, up, last) => down <= net.Downstream(b) && (up ==> net.input[b] >= 0)
    case WaitIn => net.input[b] >= 0 && TooLittle(net, b, me.saw)
    case WaitOut(f, seen) =>
      && f in net.Outs(b) && |seen| == |net.nodes|
      && exists d :: 0 <= d < |net.nodes| && net.input[d] == f
           && s.bufs[f].written - seen[d] + net.MultipleOf(b) >= net.size[f]
    case _ => true
  }

  /** No lost wake-up on the input: as long as a thread that has looked is not told otherwise, its
      input is as it saw it, or the writer still owes it a notification. */
  ghost predicate InputKnown(net: Net, s: World, b: nat)
    requires net.Valid() && Shaped(net, s) && b < |net.nodes| && net.input[b] >= 0
  {
    var me, f := s.threads[b], net.input[b];
    var w := s.threads[net.writer[f]];
    Knows(me.pc) ==>
      && (me.saw.done ==> s.bufs[f].done)
      && (!me.inFlag ==>
            || Owes(w, f, b)
            || (Unread(net, s, b) == me.saw.avail && (WriterMarked(w, f) ==> me.saw.done)))
  }

  /** No lost wake-up on an output: as long as a thread that waits for room is not told otherwise,
      every reader is where it was seen and has not ended, or still owes it a notification. */
  ghost predicate OutputKnown(net: Net, s: World, b: nat)
    requires net.Valid() && Shaped(net, s) && b < |net.nodes|
  {
    var me := s.threads[b];
    me.pc.WaitOut? && !me.outFlag && |me.pc.seen| == |net.nodes| ==>
      forall d :: 0 <= d < |net.nodes| && net.input[d] == me.pc.f ==>
        OwesUp(s.threads[d]) || (s.threads[d].read == me.pc.seen[d] && !ReaderMarked(s.threads[d]))
  }

  /** A buffer is done exactly if its writer or one of its readers has marked it. */
  ghost predicate DoneKnown(net: Net, s: World, f: nat)
    requires net.Valid() && Shaped(net, s) && f < |net.writer|
  {
    s.bufs[f].done <==>
      || WriterMarked(s.threads[net.writer[f]], f)
      || exists d :: 0 <= d < |net.nodes| && net.input[d] == f && ReaderMarked(s.threads[d])
  }

  ghost predicate Inv(net: Net, s: World)
    requires net.Valid()
  {
    Shaped(net, s) && AllSound(net, s) && InputsKnown(net, s) && OutputsKnown(net, s) && AllDoneKnown(net, s)
  }

  ghost predicate AllSound(net: Net, s: World)
    requires net.Valid() && Shaped(net, s)
  {
    forall b :: 0 <= b < |net.nodes| ==> Sound(net, s, b)
  }

  ghost predicate InputsKnown(net: Net, s: World)
    requires net.Valid() && Shaped(net, s)
  {
    forall b :: 0 <= b < |net.nodes| && net.input[b] >= 0 ==> InputKnown(net, s, b)
  }

  ghost predicate OutputsKnown(net: Net, s: World)
    requires net.Valid() && Shaped(net, s)
  {
    forall b :: 0 <= b < |net.nodes| ==> OutputKnown(net, s, b)
  }

  ghost predicate AllDoneKnown(net: Net, s: World)
    requires net.Valid() && Shaped(net, s)
  {
    forall f :: 0 <= f < |net.writer| ==> DoneKnown(net, s, f)
  }

  lemma InitInv(net: Net, s: World)
    requires net.Valid() && Init(net, s)
    ensures Inv(net, s)
  {
    forall b | 0 <= b < |net.nodes|
      ensures Sound(net, s, b)
    {
      if net.input[b] >= 0 {
        assert Unread(net, s, b) == net.nodes[b].history - 1;
        HistoryFits(net, b);
      }
    }
  }

  lemma HistoryFits(net: Net, b: nat)
    requires net.Valid() && b < |net.nodes| && net.input[b] >= 0
    ensures net.nodes[b].history - 1 <= net.Enough(b) < net.size[net.input[b]]
  {
    NeedsGrow(net.nodes[b].rate, net.nodes[b].history, 0, net.MultipleOf(b));
  }

  // ---- What a decision means for the thread ----

  /** A thread's decision is safe: a call finds room and input, a blocked thread is short of input,
      and it ends only on a finished input with too little left for its least output. */
  ghost predicate DecisionSafe(net: Net, s: World, b: nat)
    requires net.Valid() && Shaped(net, s) && b < |net.nodes| && s.threads[b].pc.Deciding?
    requires Decidable(net, s, b)
  {
    var me, n := s.threads[b], net.nodes[b];
    match DecisionOf(net, s, b)
    case Run(a) =>
      && 0 <= a.items && AlignOk(n.block, AfterWork(a))
      && (net.input[b] >= 0 ==> Needs(n.rate, n.history, a.items) <= me.saw.avail)
      && (net.Outs(b) != {} ==> a.items <= me.pc.room)
    case Starved(align) => align == me.align && net.input[b] >= 0 && TooLittle(net, b, me.saw)
    case Finished =>
      && net.input[b] >= 0 && me.saw.done
      && if net.Outs(b) == {} then
           me.saw.avail < net.MultipleOf(b) || Makes(n.rate, n.history, me.saw.avail) < Least(n.block)
         else Makes(n.rate, n.history, me.saw.avail) < Least(n.block)
    case _ => false
  }

  lemma DecisionIsSafe(net: Net, s: World, b: nat)
    requires net.Valid() && Shaped(net, s) && b < |net.nodes| && s.threads[b].pc.Deciding?
    requires Sound(net, s, b)
    ensures Decidable(net, s, b) && DecisionSafe(net, s, b)
  {
    var me, n := s.threads[b], net.nodes[b];
    RoundedToNothing(n.block.maxNoutput, n.block.multiple);
    if net.input[b] >= 0 {
      if net.Outs(b) == {} {
        SinkDecision(net, b, me.align, me.saw);
      } else {
        TryRated(n.rate, n.history, n.block, me.align, [me.saw], me.pc.room);
      }
    }
  }

  lemma SinkDecision(net: Net, b: nat, al: Align, saw: Input)
    requires net.Valid() && b < |net.nodes| && net.input[b] >= 0 && net.Outs(b) == {}
    requires AlignOk(net.nodes[b].block, al) && net.Enough(b) <= saw.maxPossible
    ensures var n := net.nodes[b];
            match DecideSink(n.block, al, [saw])
            case Run(a) => 0 <= a.items && AlignOk(n.block, AfterWork(a))
                           && Needs(n.rate, n.history, a.items) <= saw.avail
            case Starved(align) => align == al && TooLittle(net, b, saw)
            case Finished => saw.done && (saw.avail < n.block.multiple
                                          || Makes(n.rate, n.history, saw.avail) < Least(n.block))
            case _ => false
  {
    var n, ins := net.nodes[b], [saw];
    SinkRequestMultiple(n.block, ins);
    assert ins[..0] == [] && MostAvail(ins) == saw.avail;
    CommonMultipleZero(n.block.estimate(saw.avail), n.block.maxNoutput, n.block.multiple);
    if saw.done && saw.avail < n.block.multiple {
      assert ins[0].avail < n.block.multiple && ins[0].done;
    } else if SinkRequest(n.block, ins) > 0 {
      TryRated(n.rate, n.history, n.block, al, ins, SinkRequest(n.block, ins));
    } else if net.Enough(b) < saw.avail {
      EstimateEnough(n.rate, n.history, n.block, saw.avail);
    }
  }

  /** More input than one output multiple needs is never rounded away by the rate. */
  lemma EstimateEnough(r: Rate, history: Pos, b: Block, avail: nat)
    requires Estimates(r, b.estimate) && Needs(r, history, b.multiple) < avail
             && (r.Interpolator? ==> Whole(r, b.multiple))
    ensures b.multiple <= b.estimate(avail)
  {
    assert EstimatedAt(r, avail, b.estimate(avail));
    match r {
      case Sync =>
      case Decimator(factor) => EstimateBelow(avail, factor, b.multiple, b.estimate(avail));
      case Interpolator(factor) =>
        WholeQuotient(b.multiple, factor);
        Ordered(b.multiple / factor, avail, factor);
    }
  }
}
