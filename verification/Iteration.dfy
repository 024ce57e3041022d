/** A thread of the network does what the executor and the thread's loop do with what it has seen. */
module Iteration {
  import opened Rounding
  import opened Executor
  import opened Rates
  import opened ThreadBody
  import opened Network

  /** What the executor is given: the input as it was seen, if there is one. */
  function Seen(net: Net, b: nat, saw: Input): seq<Input>
    requires net.Valid() && b < |net.nodes|
  {
    if net.input[b] >= 0 then [saw] else []
  }

  /** The outputs in the order in which the thread has looked at them. */
  ghost predicate Looks(net: Net, b: nat, outs: seq<Output>)
    requires net.Valid() && b < |net.nodes|
  {
    (outs == [] <==> net.Outs(b) == {}) && forall o :: o in outs ==> o.bufsize <= INT_MAX
  }

  function RoomSeen(net: Net, b: nat, outs: seq<Output>): Room
    requires net.Valid() && b < |net.nodes|
  {
    if outs == [] then Room(0) else RoomFrom(net.nodes[b].block, outs, 0, INT_MAX)
  }

  /** Looking at one output after the other and carrying the least room along, as a thread does, finds
      what the executor finds. */
  lemma RoomSeenIsMin(net: Net, b: nat, outs: seq<Output>)
    requires net.Valid() && b < |net.nodes| && Looks(net, b, outs) && outs != []
    ensures RoomSeen(net, b, outs) == MinRoom(net.nodes[b].block, outs)
  {
    RoomFromIsMin(net.nodes[b].block, outs, 0, INT_MAX);
    RoomBelow(net.nodes[b].block, outs, INT_MAX);
    assert outs[0..] == outs;
  }

  /** The thread decides as the executor does on the same input and outputs. */
  lemma SameDecision(net: Net, s: World, b: nat, outs: seq<Output>)
    requires net.Valid() && Shaped(net, s) && b < |net.nodes| && s.threads[b].pc.Deciding?
    requires Decidable(net, s, b) && Looks(net, b, outs) && RoomSeen(net, b, outs) == Room(s.threads[b].pc.room)
    ensures Decide(net.nodes[b].block, s.threads[b].align, Seen(net, b, s.threads[b].saw), outs) ==
            DecisionOf(net, s, b)
  {
    if outs != [] {
      RoomSeenIsMin(net, b, outs);
    }
    assert net.input[b] >= 0 || net.Outs(b) != {};
  }

  /** And then it stands where the thread's loop stands after the state that the iteration returns, whatever
      the block does: at work, on items of which it returns r; or marking its buffers as done before it
      tells of it; or telling or waiting already. */
  lemma SameState(net: Net, s: World, b: nat, outs: seq<Output>, r: int)
    requires net.Valid() && Shaped(net, s) && b < |net.nodes| && s.threads[b].pc.Deciding?
    requires Decidable(net, s, b) && Looks(net, b, outs) && RoomSeen(net, b, outs) == Room(s.threads[b].pc.room)
    ensures var me := s.threads[b];
      var o := Iterate(net.nodes[b].block, me.align, Seen(net, b, me.saw), outs, (n: int) => Produced(r));
      var next := Decided(net, s, b);
      match next.pc
      case Working(items) =>
        && o.state == (if r > 0 then READY else READY_NO_OUTPUT) && o.align == next.align
      case MarkDone(done, inn) =>
        && o.state == DONE && done == net.Outs(b) && (inn <==> net.input[b] >= 0)
      case pc => pc == Reaction(net, b, o.state, 0, Reads(s)) && o.align == next.align
  {
    SameDecision(net, s, b, outs);
    SameEnding(net, b, s.threads[b], DecisionOf(net, s, b), Reads(s), r);
  }

  lemma SameEnding(net: Net, b: nat, me: Thread, d: Executor.Decision, seen: seq<int>, r: int)
    requires net.Valid() && b < |net.nodes|
    ensures var o, next := Ending(d, me.align, (n: int) => Produced(r)), Acted(net, b, me, d, seen);
      match next.pc
      case Working(items) =>
        && o.state == (if r > 0 then READY else READY_NO_OUTPUT) && o.align == next.align
      case MarkDone(done, inn) =>
        && o.state == DONE && done == net.Outs(b) && (inn <==> net.input[b] >= 0)
      case pc => pc == Reaction(net, b, o.state, 0, seen) && o.align == next.align
  {
  }

  /** A thread whose look finds an output without room stands where the loop stands as well. */
  lemma SameWhileLooking(net: Net, s: World, b: nat, f: nat, sp: nat, outs: seq<Output>, r: int)
    requires net.Valid() && Shaped(net, s) && b < |net.nodes| && s.threads[b].pc.LookOut? && f < |net.writer|
    requires AlignOk(net.nodes[b].block, s.threads[b].align) && Looks(net, b, outs) && outs != []
    requires outs[|outs| - 1] == Output(sp, net.size[f], s.bufs[f].done)
    requires forall i :: 0 <= i < |outs| - 1 ==> RoomOn(net.nodes[b].block, outs[i]).Room?
    requires !Looked(net, s, b, f, sp).LookOut?
    ensures var o := Iterate(net.nodes[b].block, s.threads[b].align, Seen(net, b, s.threads[b].saw), outs,
                             (n: int) => Produced(r));
      match Looked(net, s, b, f, sp)
      case MarkDone(done, inn) =>
        o.state == DONE && done == net.Outs(b) && (inn <==> net.input[b] >= 0)
      case pc => pc == Reaction(net, b, o.state, f, Reads(s)) && o.align == s.threads[b].align
  {
    LastDecides(net.nodes[b].block, outs);
  }

  lemma {:induction false} LastDecides(b: Block, outs: seq<Output>)
    requires outs != [] && !RoomOn(b, outs[|outs| - 1]).Room?
    requires forall i :: 0 <= i < |outs| - 1 ==> RoomOn(b, outs[i]).Room?
    ensures MinRoom(b, outs) == RoomOn(b, outs[|outs| - 1])
  {
    if |outs| > 1 {
      assert forall i :: 0 <= i < |outs| - 2 ==> outs[1..][i] == outs[i + 1];
      LastDecides(b, outs[1..]);
    }
  }

  /** Exactly the blocks that read an output of b. */
  ghost predicate ReadersOf(net: Net, b: nat, down: set<nat>)
    requires |net.input| == |net.nodes|
  {
    && (forall d: nat, f: nat ::
          f < |net.writer| && net.writer[f] == b && d < |net.nodes| && net.input[d] == f ==> d in down)
    && forall d: nat :: d in down ==>
         d < |net.nodes| && 0 <= net.input[d] < |net.writer| && net.writer[net.input[d]] == b
  }

  /** After work that gave something, every reader of every output is to be told, and the writer; after work
      that gave nothing the writer only; and before it ends a thread tells all of them. */
  lemma WhoIsTold(net: Net, s: World, t: World, b: nat)
    requires net.Valid() && Shaped(net, s) && b < |net.nodes| && Step(net, s, t, b) && Shaped(net, t)
    ensures s.threads[b].pc.Produce? && s.threads[b].pc.todo == {} && s.threads[b].pc.r > 0 ==>
              && t.threads[b].pc.Notify? && !t.threads[b].pc.last && (t.threads[b].pc.up <==> net.input[b] >= 0)
              && ReadersOf(net, b, t.threads[b].pc.down)
    ensures s.threads[b].pc.Working? && t.threads[b].pc.Notify? ==>
              t.threads[b].pc.down == {} && !t.threads[b].pc.last && (t.threads[b].pc.up <==> net.input[b] >= 0)
    ensures s.threads[b].pc.MarkDone? && t.threads[b].pc.Notify? ==>
              && t.threads[b].pc.last && (t.threads[b].pc.up <==> net.input[b] >= 0)
              && ReadersOf(net, b, t.threads[b].pc.down)
  {
    if s.threads[b].pc.Working? {
      ToldOfNothing(net, s, t, b);
    } else if s.threads[b].pc.MarkDone? {
      ToldOfTheEnd(net, s, t, b);
    } else if s.threads[b].pc.Produce? && s.threads[b].pc.todo == {} && s.threads[b].pc.r > 0 {
      ToldOfItems(net, s, t, b);
    }
  }

  lemma ToldOfItems(net: Net, s: World, t: World, b: nat)
    requires net.Valid() && Shaped(net, s) && b < |net.nodes| && Step(net, s, t, b)
    requires s.threads[b].pc.Produce? && s.threads[b].pc.todo == {} && s.threads[b].pc.r > 0
    ensures t.threads[b].pc == Notify(net.Downstream(b), net.input[b] >= 0, false)
  {
  }

  lemma ToldOfNothing(net: Net, s: World, t: World, b: nat)
    requires net.Valid() && Shaped(net, s) && b < |net.nodes| && Step(net, s, t, b) && s.threads[b].pc.Working?
    ensures t.threads[b].pc.Notify? ==> t.threads[b].pc == Notify({}, net.input[b] >= 0, false)
  {
  }

  lemma ToldOfTheEnd(net: Net, s: World, t: World, b: nat)
    requires net.Valid() && Shaped(net, s) && b < |net.nodes| && Step(net, s, t, b) && s.threads[b].pc.MarkDone?
    ensures t.threads[b].pc.Notify? ==> t.threads[b].pc == Notify(net.Downstream(b), net.input[b] >= 0, true)
  {
  }
}
