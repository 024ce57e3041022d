/** No run ends with threads asleep, save for one kind of sink. */
module Deadlock {
  import opened Rounding
  import opened Executor
  import opened Rates
  import opened Network
  import opened Wakeup
  import opened Preservation

  /** A writer that waits for room has a reader with more than enough to run; so that reader waits
      for room itself. */
  lemma FullestReaderWaitsToo(net: Net, s: World, b: nat) returns (d: nat)
    requires net.Valid() && Inv(net, s) && Quiet(net, s) && b < |net.nodes| && s.threads[b].pc.WaitOut?
    ensures b < d < |net.nodes| && s.threads[d].pc.WaitOut?
  {
    var me := s.threads[b];
    var f := me.pc.f;
    assert Sound(net, s, b) && OutputKnown(net, s, b);
    d :| 0 <= d < |net.nodes| && net.input[d] == f
         && s.bufs[f].written - me.pc.seen[d] + net.MultipleOf(b) >= net.size[f];
    assert s.threads[d].pc.Exited? || Asleep(s.threads[d]);
    FullReaderWaits(net, s, b, d);
  }

  /** A reader that leaves no room for one output multiple has enough to run. */
  lemma FullReaderWaits(net: Net, s: World, b: nat, d: nat)
    requires net.Valid() && Inv(net, s) && b < |net.nodes| && s.threads[b].pc.WaitOut? && Asleep(s.threads[b])
    requires d < |net.nodes| && net.input[d] == s.threads[b].pc.f && s.threads[b].pc.f in net.Outs(b)
    requires |s.threads[b].pc.seen| == |net.nodes|
    requires s.bufs[net.input[d]].written - s.threads[b].pc.seen[d] + net.MultipleOf(b) >= net.size[net.input[d]]
    requires s.threads[d].pc.Exited? || Asleep(s.threads[d])
    ensures b < d && s.threads[d].pc.WaitOut?
  {
    assert OutputKnown(net, s, b) && InputKnown(net, s, d) && Sound(net, s, d);
  }

  /** And so on down to a sink, which has no outputs. */
  lemma {:induction false} NobodyWaitsForRoom(net: Net, s: World, b: nat)
    requires net.Valid() && Inv(net, s) && Quiet(net, s) && b < |net.nodes|
    ensures !s.threads[b].pc.WaitOut?
    decreases |net.nodes| - b
  {
    if s.threads[b].pc.WaitOut? {
      var d := FullestReaderWaitsToo(net, s, b);
      NobodyWaitsForRoom(net, s, d);
    }
  }

  /** A thread that still waits for input has seen that input finished. */
  lemma {:induction false} WaitersSawTheEnd(net: Net, s: World, b: nat)
    requires net.Valid() && Inv(net, s) && Quiet(net, s) && b < |net.nodes| && !s.threads[b].pc.Exited?
    ensures s.threads[b].pc.WaitIn? && s.threads[b].saw.done && net.input[b] >= 0
    ensures Unread(net, s, b) == s.threads[b].saw.avail && s.bufs[net.input[b]].done
    decreases b
  {
    NobodyWaitsForRoom(net, s, b);
    assert Sound(net, s, b) && InputKnown(net, s, b);
    var w := net.writer[net.input[b]];
    assert net.input[b] in net.Outs(w) && Sound(net, s, w);
    if !s.threads[w].pc.Exited? {
      WaitersSawTheEnd(net, s, w);
    }
  }

  /** In a quiet state, a thread that has not ended is a decimating sink whose input is finished
      and holds at least one output multiple of items, but not enough for one item of its own. */
  lemma QuietMeansStuckSink(net: Net, run: seq<World>, i: nat, b: nat)
    requires net.Valid() && Trace(net, run) && i < |run| && Quiet(net, run[i])
    requires b < |net.nodes| && !run[i].threads[b].pc.Exited?
    ensures net.input[b] >= 0 && net.Outs(b) == {} && run[i].bufs[net.input[b]].done
    ensures var unread := Unread(net, run[i], b);
            && net.MultipleOf(b) <= unread <= net.Enough(b)
            && net.nodes[b].block.estimate(unread) < net.MultipleOf(b)
    ensures net.nodes[b].rate.Decimator? && net.nodes[b].rate.factor > 1
  {
    TraceKeepsInv(net, run, i);
    WaitersSawTheEnd(net, run[i], b);
    assert Sound(net, run[i], b);
    var r, unread := net.nodes[b].rate, run[i].threads[b].saw.avail;
    assert net.NodeOk(b);
    if !r.Decimator? || r.factor == 1 {
      assert EstimatedAt(r, unread, net.nodes[b].block.estimate(unread));
      OthersDoNotShrink(r, unread, net.nodes[b].block.estimate(unread));
    }
  }

  lemma OthersDoNotShrink(r: Rate, x: nat, y: nat)
    requires EstimatedAt(r, x, y) && (r.Decimator? ==> r.factor == 1)
    ensures y >= x
  {
    if r.Interpolator? {
      assert (r.factor - 1) * x >= 0;
    }
  }
}
