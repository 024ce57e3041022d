/** Every step of every thread keeps the invariant. */
module Preservation {
  import opened Rounding
  import opened Executor
  import opened Rates
  import opened Network
  import opened Wakeup

  /** Two stages of thread b owe the same to its neighbours. */
  ghost predicate SameDebts(net: Net, b: nat, me: Thread, next: Thread)
    requires net.Valid() && b < |net.nodes|
  {
    && (forall d: nat, f: nat :: f < |net.writer| && net.writer[f] == b && d < |net.nodes| && net.input[d] == f ==>
          (Owes(me, f, d) <==> Owes(next, f, d)))
    && (forall f: nat :: f < |net.writer| && net.writer[f] == b ==> (WriterMarked(me, f) <==> WriterMarked(next, f)))
    && (net.input[b] >= 0 ==> (OwesUp(me) <==> OwesUp(next)) && (ReaderMarked(me) <==> ReaderMarked(next)))
  }

  /** Reading more and marking buffers never takes away room that was there. */
  lemma FitsStill(net: Net, s: World, t: World, fs: set<nat>, n: int)
    requires net.Valid() && Shaped(net, s) && Shaped(net, t) && FitsOn(net, s, fs, n)
    requires forall d :: 0 <= d < |net.nodes| ==> t.threads[d].read >= s.threads[d].read
    requires forall f :: 0 <= f < |net.writer| ==> t.bufs[f].written == s.bufs[f].written
    ensures FitsOn(net, t, fs, n)
  {
    forall f | f in fs && f < |net.writer|
      ensures Fits(net, t, f, n)
    {
      assert Fits(net, s, f, n);
    }
  }

  lemma SoundStill(net: Net, s: World, t: World, c: nat)
    requires net.Valid() && Shaped(net, s) && Shaped(net, t) && c < |net.nodes| && Sound(net, s, c)
    requires t.threads[c] == s.threads[c].(inFlag := t.threads[c].inFlag, outFlag := t.threads[c].outFlag)
    requires forall d :: 0 <= d < |net.nodes| ==> t.threads[d].read >= s.threads[d].read
    requires forall f :: 0 <= f < |net.writer| ==> t.bufs[f].written == s.bufs[f].written
    ensures Sound(net, t, c)
  {
    match s.threads[c].pc {
      case LookOut(todo, least) => FitsStill(net, s, t, net.Outs(c) - todo, least);
      case Deciding(room) => FitsStill(net, s, t, net.Outs(c), room);
      case Working(items) => FitsStill(net, s, t, net.Outs(c), items);
      case Produce(todo, r) => FitsStill(net, s, t, todo, r);
      case _ =>
    }
  }

  lemma OthersSound(net: Net, s: World, t: World, b: nat, next: Thread)
    requires net.Valid() && Inv(net, s) && b < |net.nodes| && t == Set(s, b, next) && next.read >= s.threads[b].read
    ensures forall c :: 0 <= c < |net.nodes| && c != b ==> Sound(net, t, c)
  {
    forall c | 0 <= c < |net.nodes| && c != b
      ensures Sound(net, t, c)
    {
      assert Sound(net, s, c);
      SoundStill(net, s, t, c);
    }
  }

  /** What keeps a thread's knowledge of its input good: the writer has not moved, or it owes the
      thread a notification, or has given it. */
  lemma InputStill(net: Net, s: World, t: World, c: nat)
    requires net.Valid() && Shaped(net, s) && Shaped(net, t) && c < |net.nodes| && net.input[c] >= 0
    requires InputKnown(net, s, c)
    requires var me, me' := s.threads[c], t.threads[c];
             me'.pc == me.pc && me'.saw == me.saw && me'.read == me.read && (me.inFlag ==> me'.inFlag)
    requires var f := net.input[c];
             var w, w' := s.threads[net.writer[f]], t.threads[net.writer[f]];
             && (s.bufs[f].done ==> t.bufs[f].done)
             && (t.threads[c].inFlag || Owes(w', f, c) ||
                 (!Owes(w, f, c) && t.bufs[f].written == s.bufs[f].written
                  && (WriterMarked(w', f) ==> WriterMarked(w, f))))
    ensures InputKnown(net, t, c)
  {
  }

  /** The same for the readers of an output. */
  lemma OutputStill(net: Net, s: World, t: World, c: nat)
    requires net.Valid() && Shaped(net, s) && Shaped(net, t) && c < |net.nodes| && OutputKnown(net, s, c)
    requires t.threads[c].pc == s.threads[c].pc && (s.threads[c].outFlag ==> t.threads[c].outFlag)
    requires forall d :: 0 <= d < |net.nodes| && s.threads[c].pc.WaitOut? && net.input[d] == s.threads[c].pc.f ==>
               || t.threads[c].outFlag || OwesUp(t.threads[d])
               || (!OwesUp(s.threads[d]) && t.threads[d].read == s.threads[d].read
                   && (ReaderMarked(t.threads[d]) ==> ReaderMarked(s.threads[d])))
    ensures OutputKnown(net, t, c)
  {
  }

  lemma DoneStill(net: Net, s: World, t: World, f: nat)
    requires net.Valid() && Shaped(net, s) && Shaped(net, t) && f < |net.writer| && DoneKnown(net, s, f)
    requires t.bufs[f].done == s.bufs[f].done
    requires WriterMarked(t.threads[net.writer[f]], f) <==> WriterMarked(s.threads[net.writer[f]], f)
    requires forall d :: 0 <= d < |net.nodes| && net.input[d] == f ==>
               (ReaderMarked(t.threads[d]) <==> ReaderMarked(s.threads[d]))
    ensures DoneKnown(net, t, f)
  {
  }

  lemma AllDone(net: Net, s: World, t: World, b: nat, next: Thread)
    requires net.Valid() && Inv(net, s) && Shaped(net, t) && b < |net.nodes| && t.threads == Set(s, b, next).threads
    requires forall f :: 0 <= f < |net.writer| ==> t.bufs[f].done == s.bufs[f].done
    requires forall f: nat :: f < |net.writer| && net.writer[f] == b ==>
               (WriterMarked(next, f) <==> WriterMarked(s.threads[b], f))
    requires net.input[b] >= 0 ==> (ReaderMarked(next) <==> ReaderMarked(s.threads[b]))
    ensures AllDoneKnown(net, t)
  {
    forall f | 0 <= f < |net.writer|
      ensures DoneKnown(net, t, f)
    {
      DoneStill(net, s, t, f);
    }
  }

  /** The other threads' knowledge of their outputs: b tells its writer, or has told it, or there is
      nothing to tell. */
  lemma OtherOutputs(net: Net, s: World, t: World, b: nat, next: Thread)
    requires net.Valid() && Inv(net, s) && Shaped(net, t) && b < |net.nodes| && t.threads == Set(s, b, next).threads
    requires net.input[b] >= 0 ==>
               || s.threads[net.writer[net.input[b]]].outFlag || OwesUp(next)
               || (!OwesUp(s.threads[b]) && next.read == s.threads[b].read
                   && (ReaderMarked(next) ==> ReaderMarked(s.threads[b])))
    ensures forall c :: 0 <= c < |net.nodes| && c != b ==> OutputKnown(net, t, c)
  {
    forall c | 0 <= c < |net.nodes| && c != b
      ensures OutputKnown(net, t, c)
    {
      assert Sound(net, s, c);
      OutputStill(net, s, t, c);
    }
  }

  /** Their knowledge of their inputs: the same. */
  lemma OtherInputs(net: Net, s: World, t: World, b: nat, next: Thread)
    requires net.Valid() && Inv(net, s) && b < |net.nodes| && t == Set(s, b, next)
    requires forall f: nat, d: nat :: f < |net.writer| && net.writer[f] == b && d < |net.nodes| && net.input[d] == f ==>
               || s.threads[d].inFlag || Owes(next, f, d)
               || (!Owes(s.threads[b], f, d) && (WriterMarked(next, f) ==> WriterMarked(s.threads[b], f)))
    ensures forall c :: 0 <= c < |net.nodes| && net.input[c] >= 0 && c != b ==> InputKnown(net, t, c)
  {
    forall c | 0 <= c < |net.nodes| && net.input[c] >= 0 && c != b
      ensures InputKnown(net, t, c)
    {
      InputStill(net, s, t, c);
    }
  }

  /** A step that changes only the thread itself, and neither its read position nor its debts. */
  lemma QuietStep(net: Net, s: World, t: World, b: nat, next: Thread)
    requires net.Valid() && Inv(net, s) && b < |net.nodes| && t == Set(s, b, next)
    requires next.read == s.threads[b].read && SameDebts(net, b, s.threads[b], next)
    requires Sound(net, t, b) && OutputKnown(net, t, b) && (net.input[b] >= 0 ==> InputKnown(net, t, b))
    ensures Inv(net, t)
  {
    OthersSound(net, s, t, b, next);
    OtherInputs(net, s, t, b, next);
    OtherOutputs(net, s, t, b, next);
    AllDone(net, s, t, b, next);
  }

  // ---- Steps that no neighbour notices ----

  /** A stage in which thread b owes nothing and has marked nothing. */
  ghost predicate DebtFree(net: Net, b: nat, x: Thread)
    requires |net.input| == |net.nodes| && b < |net.nodes|
  {
    match x.pc
    case Produce(todo, r) => false
    case MarkDone(outs, inn) => outs == net.Outs(b) && (inn <==> net.input[b] >= 0)
    case Notify(down, up, last) => false
    case Exited => false
    case _ => true
  }

  lemma OwesNothing(net: Net, b: nat, x: Thread, f: nat, d: nat)
    requires net.Valid() && b < |net.nodes| && DebtFree(net, b, x)
    ensures f < |net.writer| && net.writer[f] == b ==> !Owes(x, f, d) && !WriterMarked(x, f)
    ensures net.input[b] >= 0 ==> !OwesUp(x) && !ReaderMarked(x)
  {
    assert f < |net.writer| && net.writer[f] == b ==> f in net.Outs(b);
  }

  lemma FreeDebts(net: Net, b: nat, me: Thread, next: Thread)
    requires net.Valid() && b < |net.nodes| && DebtFree(net, b, me) && DebtFree(net, b, next)
    ensures SameDebts(net, b, me, next)
  {
    forall f: nat, d: nat
      ensures f < |net.writer| && net.writer[f] == b ==> !Owes(me, f, d) && !WriterMarked(me, f)
      ensures f < |net.writer| && net.writer[f] == b ==> !Owes(next, f, d) && !WriterMarked(next, f)
    {
      OwesNothing(net, b, me, f, d);
      OwesNothing(net, b, next, f, d);
    }
    OwesNothing(net, b, me, 0, 0);
    OwesNothing(net, b, next, 0, 0);
  }

  lemma FreeStep(net: Net, s: World, t: World, b: nat, next: Thread)
    requires net.Valid() && Inv(net, s) && b < |net.nodes| && t == Set(s, b, next)
    requires next.read == s.threads[b].read && DebtFree(net, b, s.threads[b]) && DebtFree(net, b, next)
    requires Sound(net, t, b) && OutputKnown(net, t, b) && (net.input[b] >= 0 ==> InputKnown(net, t, b))
    ensures Inv(net, t)
  {
    FreeDebts(net, b, s.threads[b], next);
    QuietStep(net, s, t, b, next);
  }

  lemma StartStep(net: Net, s: World, t: World, b: nat)
    requires net.Valid() && Inv(net, s) && b < |net.nodes| && s.threads[b].pc.Start? && Step(net, s, t, b)
    ensures Inv(net, t)
  {
    var next := t.threads[b];
    assert Sound(net, s, b);
    if net.input[b] < 0 {
      assert FitsOn(net, t, net.Outs(b) - net.Outs(b), INT_MAX);
    } else {
      assert InputKnown(net, t, b);
    }
    FreeStep(net, s, t, b, next);
  }

  lemma LookInStep(net: Net, s: World, t: World, b: nat)
    requires net.Valid() && Inv(net, s) && b < |net.nodes| && s.threads[b].pc.LookIn? && Step(net, s, t, b)
    ensures Inv(net, t)
  {
    var f := net.input[b];
    assert Sound(net, s, b) && DoneKnown(net, s, f);
    assert FitsOn(net, t, {}, 0);
    assert net.Outs(b) - net.Outs(b) == {};
    FreeStep(net, s, t, b, t.threads[b]);
  }

  lemma WakeStep(net: Net, s: World, t: World, b: nat)
    requires net.Valid() && Inv(net, s) && b < |net.nodes| && Step(net, s, t, b)
    requires s.threads[b].pc.WaitIn? || s.threads[b].pc.WaitOut?
    ensures Inv(net, t)
  {
    assert Sound(net, s, b);
    FreeStep(net, s, t, b, t.threads[b]);
  }

  lemma LookedAllStep(net: Net, s: World, t: World, b: nat)
    requires net.Valid() && Inv(net, s) && b < |net.nodes| && Step(net, s, t, b)
    requires s.threads[b].pc.LookOut? && s.threads[b].pc.todo == {}
    ensures Inv(net, t)
  {
    assert Sound(net, s, b);
    assert net.Outs(b) - {} == net.Outs(b);
    if net.input[b] >= 0 {
      assert InputKnown(net, s, b);
    }
    FreeStep(net, s, t, b, t.threads[b]);
  }

  lemma RunFits(net: Net, s: World, b: nat, items: nat, room: nat)
    requires net.Valid() && Shaped(net, s) && FitsOn(net, s, net.Outs(b), room) && items <= room
    ensures FitsOn(net, s, net.Outs(b), items)
  {
    forall f | f in net.Outs(b) && f < |net.writer|
      ensures Fits(net, s, f, items)
    {
      assert Fits(net, s, f, room);
    }
  }

  lemma DecideStep(net: Net, s: World, t: World, b: nat)
    requires net.Valid() && Inv(net, s) && b < |net.nodes| && s.threads[b].pc.Deciding? && Step(net, s, t, b)
    ensures Inv(net, t)
  {
    assert Sound(net, s, b);
    DecisionIsSafe(net, s, b);
    DecidedSound(net, s, t, b);
    DecidedKnown(net, s, t, b);
    FreeStep(net, s, t, b, t.threads[b]);
  }

  lemma DecidedSound(net: Net, s: World, t: World, b: nat)
    requires net.Valid() && Shaped(net, s) && b < |net.nodes| && s.threads[b].pc.Deciding? && Sound(net, s, b)
    requires Decidable(net, s, b) && DecisionSafe(net, s, b) && t == Set(s, b, Decided(net, s, b))
    ensures Sound(net, t, b) && DebtFree(net, b, t.threads[b]) && t.threads[b].read == s.threads[b].read
  {
    var d := DecisionOf(net, s, b);
    if d.Run? && net.Outs(b) != {} {
      RunFits(net, t, b, d.asked.items, s.threads[b].pc.room);
    }
  }

  lemma DecidedKnown(net: Net, s: World, t: World, b: nat)
    requires net.Valid() && Inv(net, s) && b < |net.nodes| && s.threads[b].pc.Deciding?
    requires Decidable(net, s, b) && DecisionSafe(net, s, b) && t == Set(s, b, Decided(net, s, b))
    ensures OutputKnown(net, t, b) && (net.input[b] >= 0 ==> InputKnown(net, t, b))
  {
    if net.input[b] >= 0 {
      assert InputKnown(net, s, b);
    }
  }

  lemma QuitStep(net: Net, s: World, t: World, b: nat)
    requires net.Valid() && Inv(net, s) && b < |net.nodes| && s.threads[b].pc.Working?
    requires t == Set(s, b, s.threads[b].(pc := MarkDone(net.Outs(b), net.input[b] >= 0)))
    ensures Inv(net, t)
  {
    assert Sound(net, s, b);
    FreeStep(net, s, t, b, t.threads[b]);
  }

  lemma ToldAllStep(net: Net, s: World, t: World, b: nat)
    requires net.Valid() && Inv(net, s) && b < |net.nodes| && Step(net, s, t, b)
    requires s.threads[b].pc.Notify? && s.threads[b].pc.down == {} && !s.threads[b].pc.up
    ensures Inv(net, t)
  {
    assert Sound(net, s, b);
    QuietStep(net, s, t, b, t.threads[b]);
  }

  /** Who has dealt with all its outputs owes a notification to all that read them. */
  lemma DownstreamOwed(net: Net, b: nat, me: Thread, next: Thread)
    requires net.Valid() && b < |net.nodes|
    requires (me.pc.Produce? && me.pc.todo == {}) || me.pc == MarkDone({}, false)
    requires next.pc == Notify(net.Downstream(b), net.input[b] >= 0, me.pc.MarkDone?)
    ensures SameDebts(net, b, me, next)
  {
  }

  lemma ProducedAllStep(net: Net, s: World, t: World, b: nat)
    requires net.Valid() && Inv(net, s) && b < |net.nodes| && Step(net, s, t, b)
    requires s.threads[b].pc.Produce? && s.threads[b].pc.todo == {}
    ensures Inv(net, t)
  {
    assert Sound(net, s, b);
    DownstreamOwed(net, b, s.threads[b], t.threads[b]);
    QuietStep(net, s, t, b, t.threads[b]);
  }

  lemma MarkedAllStep(net: Net, s: World, t: World, b: nat)
    requires net.Valid() && Inv(net, s) && b < |net.nodes| && Step(net, s, t, b)
    requires s.threads[b].pc.MarkDone? && s.threads[b].pc.outs == {} && !s.threads[b].pc.inn
    ensures Inv(net, t)
  {
    assert Sound(net, s, b);
    DownstreamOwed(net, b, s.threads[b], t.threads[b]);
    QuietStep(net, s, t, b, t.threads[b]);
  }

  // ---- Looking at one output ----

  /** What a thread learns when an output has no room: one reader stands in the way. */
  lemma FullMeansTight(net: Net, s: World, b: nat, f: nat, sp: nat)
    requires net.Valid() && Shaped(net, s) && b < |net.nodes| && f in net.Outs(b) && f < |net.writer|
    requires sp < net.size[f] && IsSpace(net, s, f, sp)
    ensures var r := RoomOn(net.nodes[b].block, Output(sp, net.size[f], s.bufs[f].done));
            && r != TooSmall
            && (r.Room? ==> 0 < r.items <= sp && Multiple(r.items, net.MultipleOf(b)))
            && (!r.Room? ==> InTheWay(net, s, f, net.MultipleOf(b)))
  {
    var m, o := net.MultipleOf(b), Output(sp, net.size[f], s.bufs[f].done);
    assert net.NodeOk(b) && 2 * m <= net.size[f];
    RoomOnFits(net.nodes[b].block, o);
    RoomForOne(net.nodes[b].block, o);
    if sp < m {
      Tight(net, s, f, sp, m);
    }
  }

  /** A buffer of two output multiples has room exactly if there is space for one. */
  lemma RoomForOne(b: Block, o: Output)
    requires LeastNoutput(b) == 1 && 2 * b.multiple <= o.bufsize
    ensures RoomOn(b, o) != TooSmall && (RoomOn(b, o).Room? <==> b.multiple <= o.space)
  {
    RoundedToNothing(o.space, b.multiple);
    RoundedToNothing(o.bufsize / 2, b.multiple);
  }

  /** Some reader of f leaves no room for one output multiple. */
  ghost predicate InTheWay(net: Net, s: World, f: nat, m: nat)
    requires net.Valid() && Shaped(net, s) && f < |net.writer|
  {
    exists d :: 0 <= d < |net.nodes| && net.input[d] == f && s.bufs[f].written - Reads(s)[d] + m >= net.size[f]
  }

  lemma Tight(net: Net, s: World, f: nat, sp: nat, m: nat)
    requires net.Valid() && Shaped(net, s) && f < |net.writer| && sp < net.size[f] && IsSpace(net, s, f, sp)
    requires sp < m < net.size[f]
    ensures InTheWay(net, s, f, m)
  {
    var d :| 0 <= d < |net.nodes| && net.input[d] == f && Unread(net, s, d) + sp == net.size[f] - 1;
    assert Reads(s)[d] == s.threads[d].read;
  }

  lemma LookedFits(net: Net, s: World, b: nat, todo: set<nat>, least: nat, f: nat, sp: nat, n: nat)
    requires net.Valid() && Shaped(net, s) && b < |net.nodes| && f in todo && f < |net.writer|
    requires FitsOn(net, s, net.Outs(b) - todo, least) && IsSpace(net, s, f, sp) && n <= sp
    ensures FitsOn(net, s, net.Outs(b) - (todo - {f}), Min(least, n))
  {
    forall g | g in net.Outs(b) - (todo - {f}) && g < |net.writer|
      ensures Fits(net, s, g, Min(least, n))
    {
      if g != f {
        assert g in net.Outs(b) - todo;
        assert Fits(net, s, g, least);
      }
    }
  }

  lemma LookOutStep(net: Net, s: World, t: World, b: nat, f: nat, sp: nat)
    requires net.Valid() && Inv(net, s) && b < |net.nodes| && s.threads[b].pc.LookOut?
    requires f in s.threads[b].pc.todo && f < |net.writer| && sp < net.size[f] && IsSpace(net, s, f, sp)
    requires t == Set(s, b, s.threads[b].(pc := Looked(net, s, b, f, sp)))
    ensures Inv(net, t)
  {
    LookedSound(net, s, t, b, f, sp);
    LookedOutput(net, s, t, b, f, sp);
    if net.input[b] >= 0 {
      assert InputKnown(net, s, b);
    }
    FreeStep(net, s, t, b, t.threads[b]);
  }

  lemma LookedOutput(net: Net, s: World, t: World, b: nat, f: nat, sp: nat)
    requires net.Valid() && Inv(net, s) && b < |net.nodes| && s.threads[b].pc.LookOut? && f < |net.writer|
    requires t == Set(s, b, s.threads[b].(pc := Looked(net, s, b, f, sp)))
    ensures OutputKnown(net, t, b)
  {
    assert DoneKnown(net, s, f);
  }

  lemma LookedSound(net: Net, s: World, t: World, b: nat, f: nat, sp: nat)
    requires net.Valid() && Inv(net, s) && b < |net.nodes| && s.threads[b].pc.LookOut?
    requires f in s.threads[b].pc.todo && f < |net.writer| && sp < net.size[f] && IsSpace(net, s, f, sp)
    requires t == Set(s, b, s.threads[b].(pc := Looked(net, s, b, f, sp)))
    ensures Sound(net, t, b) && DebtFree(net, b, t.threads[b])
  {
    assert Sound(net, s, b);
    FullMeansTight(net, s, b, f, sp);
    if t.threads[b].pc.LookOut? {
      RoomSound(net, s, t, b, f, sp);
    }
  }

  /** An output with room: its room counts from now on. */
  lemma RoomSound(net: Net, s: World, t: World, b: nat, f: nat, sp: nat)
    requires net.Valid() && Shaped(net, s) && b < |net.nodes| && s.threads[b].pc.LookOut? && Sound(net, s, b)
    requires f in s.threads[b].pc.todo && f < |net.writer| && sp < net.size[f] && IsSpace(net, s, f, sp)
    requires t == Set(s, b, s.threads[b].(pc := Looked(net, s, b, f, sp))) && t.threads[b].pc.LookOut?
    ensures PcSound(net, t, b)
  {
    var me := s.threads[b];
    var r := RoomOn(net.nodes[b].block, Output(sp, net.size[f], s.bufs[f].done));
    FullMeansTight(net, s, b, f, sp);
    LookedFits(net, t, b, me.pc.todo, me.pc.least, f, sp, r.items);
    assert f in net.Outs(b) && f !in me.pc.todo - {f};
    if me.pc.todo == net.Outs(b) {
      assert Min(me.pc.least, r.items) == r.items;
    } else {
      MultipleMin(me.pc.least, r.items, net.MultipleOf(b));
    }
  }

  // ---- Steps that neighbours notice ----

  /** general_work has returned r: its input is consumed, and the writer will be told. */
  lemma ConsumeStep(net: Net, s: World, t: World, b: nat, r: nat)
    requires net.Valid() && Inv(net, s) && b < |net.nodes| && s.threads[b].pc.Working? && r <= s.threads[b].pc.items
    requires t == Set(s, b, Consumed(net, b, s.threads[b], r).(pc := if r > 0 then Produce(net.Outs(b), r)
                                                                      else Notify({}, net.input[b] >= 0, false)))
    ensures Inv(net, t)
  {
    var n := net.nodes[b];
    assert Sound(net, s, b);
    if net.input[b] >= 0 {
      NeedsGrow(n.rate, n.history, r, s.threads[b].pc.items);
      UsesLeaveHistory(n.rate, n.history, r);
    }
    RunFits(net, t, b, r, s.threads[b].pc.items);
    ConsumeKeeps(net, s, t, b, t.threads[b]);
  }

  lemma ConsumeKeeps(net: Net, s: World, t: World, b: nat, next: Thread)
    requires net.Valid() && Inv(net, s) && b < |net.nodes| && s.threads[b].pc.Working? && t == Set(s, b, next)
    requires next.read >= s.threads[b].read && Sound(net, t, b)
    requires next.pc == Produce(net.Outs(b), if next.pc.Produce? then next.pc.r else 0)
             || next.pc == Notify({}, net.input[b] >= 0, false)
    ensures Inv(net, t)
  {
    OthersSound(net, s, t, b, next);
    OtherInputs(net, s, t, b, next);
    OtherOutputs(net, s, t, b, next);
    AllDone(net, s, t, b, next);
  }

  /** One output's write pointer moves: its readers see more, and will be told. */
  lemma WriteStep(net: Net, s: World, t: World, b: nat, f: nat)
    requires net.Valid() && Inv(net, s) && b < |net.nodes| && s.threads[b].pc.Produce?
    requires f in s.threads[b].pc.todo && f < |net.writer|
    requires var me := s.threads[b];
             t == Set(SetBuf(s, f, s.bufs[f].(written := s.bufs[f].written + me.pc.r)), b,
                      me.(pc := Produce(me.pc.todo - {f}, me.pc.r)))
    ensures Inv(net, t)
  {
    assert Sound(net, s, b);
    assert Fits(net, s, f, s.threads[b].pc.r);
    forall c | 0 <= c < |net.nodes|
      ensures Sound(net, t, c)
    {
      assert Sound(net, s, c);
      if c == b {
        WriteFits(net, s, t, b, f);
      } else {
        WriteSound(net, s, t, b, f, c);
      }
    }
    WriteKnown(net, s, t, b, f);
  }

  lemma WriteFits(net: Net, s: World, t: World, b: nat, f: nat)
    requires net.Valid() && Shaped(net, s) && b < |net.nodes| && s.threads[b].pc.Produce?
    requires f in s.threads[b].pc.todo && f < |net.writer|
    requires FitsOn(net, s, s.threads[b].pc.todo, s.threads[b].pc.r)
    requires var me := s.threads[b];
             t == Set(SetBuf(s, f, s.bufs[f].(written := s.bufs[f].written + me.pc.r)), b,
                      me.(pc := Produce(me.pc.todo - {f}, me.pc.r)))
    ensures FitsOn(net, t, s.threads[b].pc.todo - {f}, s.threads[b].pc.r)
  {
    forall g | g in s.threads[b].pc.todo - {f} && g < |net.writer|
      ensures Fits(net, t, g, s.threads[b].pc.r)
    {
      assert Fits(net, s, g, s.threads[b].pc.r);
    }
  }

  lemma WriteSound(net: Net, s: World, t: World, b: nat, f: nat, c: nat)
    requires net.Valid() && Inv(net, s) && b < |net.nodes| && s.threads[b].pc.Produce?
    requires f in net.Outs(b) && f < |net.writer| && Fits(net, s, f, s.threads[b].pc.r) && c < |net.nodes| && c != b
    requires var me := s.threads[b];
             t == Set(SetBuf(s, f, s.bufs[f].(written := s.bufs[f].written + me.pc.r)), b,
                      me.(pc := Produce(me.pc.todo - {f}, me.pc.r)))
    ensures Sound(net, t, c)
  {
    assert Sound(net, s, c);
    SameFits(net, s, t, f, c);
  }

  /** The room on another thread's outputs does not depend on buffer f. */
  lemma SameFits(net: Net, s: World, t: World, f: nat, c: nat)
    requires net.Valid() && Shaped(net, s) && Shaped(net, t) && f < |net.writer| && net.writer[f] != c
             && c < |net.nodes|
    requires forall d :: 0 <= d < |net.nodes| ==> t.threads[d].read == s.threads[d].read
    requires forall g :: 0 <= g < |net.writer| && g != f ==> t.bufs[g].written == s.bufs[g].written
    ensures forall fs, n {:trigger FitsOn(net, t, fs, n)} :: fs <= net.Outs(c) && FitsOn(net, s, fs, n) ==>
              FitsOn(net, t, fs, n)
  {
    forall fs, n | fs <= net.Outs(c) && FitsOn(net, s, fs, n)
      ensures FitsOn(net, t, fs, n)
    {
      forall g | g in fs && g < |net.writer|
        ensures Fits(net, t, g, n)
      {
        assert Fits(net, s, g, n);
      }
    }
  }

  lemma WriteKnown(net: Net, s: World, t: World, b: nat, f: nat)
    requires net.Valid() && Inv(net, s) && b < |net.nodes| && s.threads[b].pc.Produce?
    requires f in net.Outs(b) && f < |net.writer|
    requires var me := s.threads[b];
             t == Set(SetBuf(s, f, s.bufs[f].(written := s.bufs[f].written + me.pc.r)), b,
                      me.(pc := Produce(me.pc.todo - {f}, me.pc.r)))
    ensures InputsKnown(net, t) && OutputsKnown(net, t) && AllDoneKnown(net, t)
  {
    forall c | 0 <= c < |net.nodes| && net.input[c] >= 0
      ensures InputKnown(net, t, c)
    {
      if c != b {
        InputStill(net, s, t, c);
      }
    }
    OtherOutputs(net, s, t, b, t.threads[b]);
    AllDone(net, s, t, b, t.threads[b]);
  }

  lemma MarkingSound(net: Net, s: World, t: World, b: nat, f: nat, next: Thread)
    requires net.Valid() && Inv(net, s) && b < |net.nodes| && s.threads[b].pc.MarkDone? && f < |net.writer|
    requires next == s.threads[b].(pc := next.pc) && next.pc.MarkDone?
    requires next.pc.outs <= s.threads[b].pc.outs && (next.pc.inn ==> s.threads[b].pc.inn)
    requires t == Set(SetBuf(s, f, s.bufs[f].(done := true)), b, next)
    ensures AllSound(net, t)
  {
    forall c | 0 <= c < |net.nodes|
      ensures Sound(net, t, c)
    {
      assert Sound(net, s, c);
      if c != b {
        SoundStill(net, s, t, c);
      }
    }
  }

  /** The writer marks a buffer as done. */
  lemma MarkOutKeeps(net: Net, s: World, t: World, b: nat, f: nat, next: Thread)
    requires net.Valid() && Inv(net, s) && b < |net.nodes| && s.threads[b].pc.MarkDone? && f < |net.writer|
    requires f in s.threads[b].pc.outs && net.writer[f] == b
    requires next == s.threads[b].(pc := MarkDone(s.threads[b].pc.outs - {f}, s.threads[b].pc.inn))
    requires t == Set(SetBuf(s, f, s.bufs[f].(done := true)), b, next)
    ensures Inv(net, t)
  {
    MarkingSound(net, s, t, b, f, next);
    MarkingInputs(net, s, t, b, f, next);
    OtherOutputs(net, s, t, b, next);
    MarkOutDone(net, s, t, b, f, next);
  }

  /** Whoever has looked at a buffer that is now marked by its writer will be told. */
  lemma MarkingInputs(net: Net, s: World, t: World, b: nat, f: nat, next: Thread)
    requires net.Valid() && Inv(net, s) && b < |net.nodes| && s.threads[b].pc.MarkDone? && f < |net.writer|
    requires next == s.threads[b].(pc := next.pc) && next.pc.MarkDone?
    requires next.pc.outs == s.threads[b].pc.outs - {f} && (f in s.threads[b].pc.outs ==> net.writer[f] == b)
    requires t == Set(SetBuf(s, f, s.bufs[f].(done := true)), b, next)
    ensures InputsKnown(net, t)
  {
    forall c | 0 <= c < |net.nodes| && net.input[c] >= 0
      ensures InputKnown(net, t, c)
    {
      if c != b {
        InputStill(net, s, t, c);
      }
    }
  }

  lemma MarkOutDone(net: Net, s: World, t: World, b: nat, f: nat, next: Thread)
    requires net.Valid() && Inv(net, s) && b < |net.nodes| && s.threads[b].pc.MarkDone? && f < |net.writer|
    requires f in s.threads[b].pc.outs && net.writer[f] == b
    requires next == s.threads[b].(pc := MarkDone(s.threads[b].pc.outs - {f}, s.threads[b].pc.inn))
    requires t == Set(SetBuf(s, f, s.bufs[f].(done := true)), b, next)
    ensures AllDoneKnown(net, t)
  {
    forall g | 0 <= g < |net.writer|
      ensures DoneKnown(net, t, g)
    {
      if g != f {
        DoneStill(net, s, t, g);
      }
    }
  }

  /** A reader marks its input as done. */
  lemma MarkInKeeps(net: Net, s: World, t: World, b: nat, f: nat, next: Thread)
    requires net.Valid() && Inv(net, s) && b < |net.nodes| && f < |net.writer| && net.input[b] == f
    requires s.threads[b].pc == MarkDone({}, true) && next == s.threads[b].(pc := MarkDone({}, false))
    requires t == Set(SetBuf(s, f, s.bufs[f].(done := true)), b, next)
    ensures Inv(net, t)
  {
    MarkingSound(net, s, t, b, f, next);
    MarkingInputs(net, s, t, b, f, next);
    OtherOutputs(net, s, t, b, next);
    MarkInDone(net, s, t, b, f, next);
  }

  lemma MarkInDone(net: Net, s: World, t: World, b: nat, f: nat, next: Thread)
    requires net.Valid() && Inv(net, s) && b < |net.nodes| && f < |net.writer| && net.input[b] == f
    requires s.threads[b].pc == MarkDone({}, true) && next == s.threads[b].(pc := MarkDone({}, false))
    requires t == Set(SetBuf(s, f, s.bufs[f].(done := true)), b, next)
    ensures AllDoneKnown(net, t)
  {
    assert ReaderMarked(t.threads[b]);
    forall g | 0 <= g < |net.writer|
      ensures DoneKnown(net, t, g)
    {
      if g != f {
        DoneStill(net, s, t, g);
      }
    }
  }

  // ---- Telling a neighbour ----

  /** Raising a flag spoils nothing. */
  lemma FlagRaised(net: Net, s: World, t: World, d: nat, told: Thread)
    requires net.Valid() && Inv(net, s) && d < |net.nodes| && t == Set(s, d, told)
    requires told == s.threads[d].(inFlag := true) || told == s.threads[d].(outFlag := true)
    ensures Inv(net, t)
  {
    OthersSound(net, s, t, d, told);
    assert Sound(net, s, d);
    SoundStill(net, s, t, d);
    FlagKnown(net, s, t, d, told);
    AllDone(net, s, t, d, told);
  }

  lemma FlagKnown(net: Net, s: World, t: World, d: nat, told: Thread)
    requires net.Valid() && Inv(net, s) && d < |net.nodes| && t == Set(s, d, told)
    requires told == s.threads[d].(inFlag := true) || told == s.threads[d].(outFlag := true)
    ensures InputsKnown(net, t) && OutputsKnown(net, t)
  {
    forall c | 0 <= c < |net.nodes| && net.input[c] >= 0
      ensures InputKnown(net, t, c)
    {
      InputStill(net, s, t, c);
    }
    forall c | 0 <= c < |net.nodes|
      ensures OutputKnown(net, t, c)
    {
      OutputStill(net, s, t, c);
    }
  }

  /** Once a reader's flag is up, its writer owes it nothing more. */
  lemma PaidDown(net: Net, s: World, t: World, b: nat, d: nat, next: Thread)
    requires net.Valid() && Inv(net, s) && b < |net.nodes| && d < |net.nodes| && d != b && s.threads[b].pc.Notify?
    requires s.threads[d].inFlag && next == s.threads[b].(pc := s.threads[b].pc.(down := s.threads[b].pc.down - {d}))
    requires t == Set(s, b, next)
    ensures Inv(net, t)
  {
    PaidSound(net, s, t, b, next);
    OtherInputs(net, s, t, b, next);
    OtherOutputs(net, s, t, b, next);
    AllDone(net, s, t, b, next);
  }

  lemma PaidSound(net: Net, s: World, t: World, b: nat, next: Thread)
    requires net.Valid() && Inv(net, s) && b < |net.nodes| && s.threads[b].pc.Notify? && t == Set(s, b, next)
    requires next == s.threads[b].(pc := next.pc) && next.pc.Notify?
    requires next.pc.down <= s.threads[b].pc.down && (next.pc.up ==> s.threads[b].pc.up)
    ensures AllSound(net, t)
  {
    OthersSound(net, s, t, b, next);
    assert Sound(net, s, b);
  }

  lemma PaidUp(net: Net, s: World, t: World, b: nat, next: Thread)
    requires net.Valid() && Inv(net, s) && b < |net.nodes| && s.threads[b].pc.Notify? && net.input[b] >= 0
    requires s.threads[net.writer[net.input[b]]].outFlag && next == s.threads[b].(pc := s.threads[b].pc.(up := false))
    requires t == Set(s, b, next)
    ensures Inv(net, t)
  {
    PaidSound(net, s, t, b, next);
    OtherInputs(net, s, t, b, next);
    OtherOutputs(net, s, t, b, next);
    AllDone(net, s, t, b, next);
  }

  // ---- All steps, all runs ----

  lemma StepKeepsInv(net: Net, s: World, t: World, b: nat)
    requires net.Valid() && Inv(net, s) && b < |net.nodes| && Step(net, s, t, b)
    ensures Inv(net, t)
  {
    match s.threads[b].pc {
      case Start => StartStep(net, s, t, b);
      case LookIn => LookInStep(net, s, t, b);
      case LookOut(todo, least) => LookStep(net, s, t, b);
      case Deciding(room) => DecideStep(net, s, t, b);
      case Working(items) => WorkStep(net, s, t, b);
      case Produce(todo, r) => ProduceStep(net, s, t, b);
      case MarkDone(outs, inn) => MarkStep(net, s, t, b);
      case Notify(down, up, last) => NotifyStep(net, s, t, b);
      case WaitIn => WakeStep(net, s, t, b);
      case WaitOut(f, seen) => WakeStep(net, s, t, b);
      case Exited =>
    }
  }

  lemma LookStep(net: Net, s: World, t: World, b: nat)
    requires net.Valid() && Inv(net, s) && b < |net.nodes| && s.threads[b].pc.LookOut? && Step(net, s, t, b)
    ensures Inv(net, t)
  {
    var me := s.threads[b];
    if me.pc.todo == {} {
      LookedAllStep(net, s, t, b);
    } else {
      var f, sp :| f in me.pc.todo && f < |net.writer| && sp < net.size[f] && IsSpace(net, s, f, sp)
                   && t == Set(s, b, me.(pc := Looked(net, s, b, f, sp)));
      LookOutStep(net, s, t, b, f, sp);
    }
  }

  lemma WorkStep(net: Net, s: World, t: World, b: nat)
    requires net.Valid() && Inv(net, s) && b < |net.nodes| && s.threads[b].pc.Working? && Step(net, s, t, b)
    ensures Inv(net, t)
  {
    var me := s.threads[b];
    if net.nodes[b].quits && t == Set(s, b, me.(pc := MarkDone(net.Outs(b), net.input[b] >= 0))) {
      QuitStep(net, s, t, b);
    } else {
      var r: nat :| r <= me.pc.items &&
                    t == Set(s, b, Consumed(net, b, me, r).(pc :=
                           if r > 0 then Produce(net.Outs(b), r) else Notify({}, net.input[b] >= 0, false)));
      ConsumeStep(net, s, t, b, r);
    }
  }

  lemma ProduceStep(net: Net, s: World, t: World, b: nat)
    requires net.Valid() && Inv(net, s) && b < |net.nodes| && s.threads[b].pc.Produce? && Step(net, s, t, b)
    ensures Inv(net, t)
  {
    var me := s.threads[b];
    if me.pc.todo == {} {
      ProducedAllStep(net, s, t, b);
    } else {
      var f := OneWritten(net, s, t, b);
      WriteStep(net, s, t, b, f);
    }
  }

  lemma OneWritten(net: Net, s: World, t: World, b: nat) returns (f: nat)
    requires net.Valid() && Shaped(net, s) && b < |net.nodes| && s.threads[b].pc.Produce? && Step(net, s, t, b)
    requires s.threads[b].pc.todo != {}
    ensures f in s.threads[b].pc.todo && f < |net.writer|
    ensures var me := s.threads[b];
            t == Set(SetBuf(s, f, s.bufs[f].(written := s.bufs[f].written + me.pc.r)), b,
                     me.(pc := Produce(me.pc.todo - {f}, me.pc.r)))
  {
    var me := s.threads[b];
    f :| f in me.pc.todo && f < |net.writer|
         && t == Set(SetBuf(s, f, s.bufs[f].(written := s.bufs[f].written + me.pc.r)), b,
                     me.(pc := Produce(me.pc.todo - {f}, me.pc.r)));
  }

  lemma MarkStep(net: Net, s: World, t: World, b: nat)
    requires net.Valid() && Inv(net, s) && b < |net.nodes| && s.threads[b].pc.MarkDone? && Step(net, s, t, b)
    ensures Inv(net, t)
  {
    var me := s.threads[b];
    if me.pc.outs != {} {
      var f :| f in me.pc.outs && f < |net.writer|
               && t == Set(SetBuf(s, f, s.bufs[f].(done := true)), b, me.(pc := MarkDone(me.pc.outs - {f}, me.pc.inn)));
      assert Sound(net, s, b);
      MarkOutKeeps(net, s, t, b, f, t.threads[b]);
    } else if me.pc.inn {
      MarkInKeeps(net, s, t, b, net.input[b], t.threads[b]);
    } else {
      MarkedAllStep(net, s, t, b);
    }
  }

  lemma NotifyStep(net: Net, s: World, t: World, b: nat)
    requires net.Valid() && Inv(net, s) && b < |net.nodes| && s.threads[b].pc.Notify? && Step(net, s, t, b)
    ensures Inv(net, t)
  {
    var me := s.threads[b];
    if me.pc.down != {} {
      var d :| d in me.pc.down && d < |net.nodes| && d != b
               && t == Set(Set(s, d, s.threads[d].(inFlag := true)), b,
                           me.(pc := Notify(me.pc.down - {d}, me.pc.up, me.pc.last)));
      var told := Set(s, d, s.threads[d].(inFlag := true));
      FlagRaised(net, s, told, d, told.threads[d]);
      PaidDown(net, told, t, b, d, t.threads[b]);
    } else if me.pc.up {
      var w := net.writer[net.input[b]];
      var told := Set(s, w, s.threads[w].(outFlag := true));
      FlagRaised(net, s, told, w, told.threads[w]);
      PaidUp(net, told, t, b, t.threads[b]);
    } else {
      ToldAllStep(net, s, t, b);
    }
  }

  /** In every state of every interleaving: no reader's buffer is overrun or read ahead of, every
      snapshot a thread acts on is still a lower bound, and no wake-up is lost. */
  lemma {:induction false} TraceKeepsInv(net: Net, run: seq<World>, i: nat)
    requires net.Valid() && Trace(net, run) && i < |run|
    ensures Inv(net, run[i])
  {
    if i == 0 {
      InitInv(net, run[0]);
    } else {
      TraceKeepsInv(net, run, i - 1);
      var b := OneStep(net, run, i);
      StepKeepsInv(net, run[i - 1], run[i], b);
    }
  }
}
