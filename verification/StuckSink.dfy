/** No sink is left asleep for ever but those that can stick. */
module StuckSink {
  import opened Rounding
  import opened Executor
  import opened Rates
  import opened Network
  import opened Wakeup
  import opened Preservation
  import opened Deadlock
  import opened Drain

  /** What a block keeps of its input as history. */
  ghost predicate HistoryStays(net: Net, s: World, b: nat)
    requires net.Valid() && Shaped(net, s) && b < |net.nodes| && net.input[b] >= 0
  {
    net.nodes[b].history - 1 <= Unread(net, s, b)
  }

  lemma StepKeepsHistory(net: Net, s: World, t: World, b: nat, c: nat)
    requires net.Valid() && Inv(net, s) && b < |net.nodes| && Step(net, s, t, b) && Shaped(net, t)
    requires c < |net.nodes| && net.input[c] >= 0 && HistoryStays(net, s, c)
    ensures HistoryStays(net, t, c)
  {
    WrittenGrows(net, s, t, b, net.input[c]);
    if c != b {
      OthersSame(net, s, t, b, c);
    } else {
      OwnKeepsHistory(net, s, t, b);
    }
  }

  lemma WrittenGrows(net: Net, s: World, t: World, b: nat, f: nat)
    requires net.Valid() && Inv(net, s) && b < |net.nodes| && Step(net, s, t, b) && f < |net.writer|
    ensures |t.bufs| == |s.bufs| && t.bufs[f].written >= s.bufs[f].written
  {
    WrittenSame(net, s, t, b, f);
  }

  lemma OwnKeepsHistory(net: Net, s: World, t: World, b: nat)
    requires net.Valid() && Inv(net, s) && b < |net.nodes| && Step(net, s, t, b) && Shaped(net, t)
    requires net.input[b] >= 0 && HistoryStays(net, s, b)
    requires t.bufs[net.input[b]].written >= s.bufs[net.input[b]].written
    ensures HistoryStays(net, t, b)
  {
    if s.threads[b].pc.Working? {
      WorkKeepsHistory(net, s, t, b);
    } else if s.threads[b].pc.Produce? {
      ProduceReads(net, s, t, b);
    } else {
      ReadSame(net, s, t, b);
    }
  }

  lemma ProduceReads(net: Net, s: World, t: World, b: nat)
    requires net.Valid() && Shaped(net, s) && b < |net.nodes| && Step(net, s, t, b) && Shaped(net, t)
    requires s.threads[b].pc.Produce?
    ensures t.threads[b].read == s.threads[b].read
  {
  }

  lemma WorkKeepsHistory(net: Net, s: World, t: World, b: nat)
    requires net.Valid() && Inv(net, s) && b < |net.nodes| && Step(net, s, t, b) && Shaped(net, t)
    requires net.input[b] >= 0 && HistoryStays(net, s, b) && s.threads[b].pc.Working?
    requires t.bufs[net.input[b]].written >= s.bufs[net.input[b]].written
    ensures HistoryStays(net, t, b)
  {
    var me, n := s.threads[b], net.nodes[b];
    assert Sound(net, s, b);
    if r: nat :| r <= me.pc.items &&
                 t == Set(s, b, Consumed(net, b, me, r).(pc := if r > 0 then Produce(net.Outs(b), r)
                                                               else Notify({}, net.input[b] >= 0, false)))
    {
      UsesLeaveHistory(n.rate, n.history, r);
      NeedsGrow(n.rate, n.history, r, me.pc.items);
      assert t.threads[b].read == me.read + Uses(n.rate, r);
    } else {
      assert t.threads[b].read == me.read;
    }
  }

  lemma {:induction false} TraceKeepsHistory(net: Net, run: seq<World>, i: nat, c: nat)
    requires net.Valid() && Trace(net, run) && i < |run| && c < |net.nodes| && net.input[c] >= 0
    ensures HistoryStays(net, run[i], c)
  {
    if i > 0 {
      TraceKeepsHistory(net, run, i - 1, c);
      TraceKeepsInv(net, run, i - 1);
      var b := OneStep(net, run, i);
      StepKeepsHistory(net, run[i - 1], run[i], b, c);
    }
  }

  /** In a quiet state, a thread that has not ended is a sink that can stick. */
  lemma OnlyTheseStick(net: Net, run: seq<World>, i: nat, b: nat)
    requires net.Valid() && Trace(net, run) && i < |run| && Quiet(net, run[i])
    requires b < |net.nodes| && !run[i].threads[b].pc.Exited?
    ensures net.input[b] >= 0 && net.Outs(b) == {} && CanStick(net.nodes[b])
  {
    QuietMeansStuckSink(net, run, i, b);
    TraceKeepsHistory(net, run, i, b);
    var n := net.nodes[b];
    var unread := Unread(net, run[i], b);
    assert net.NodeOk(b) && EstimatedAt(n.rate, unread, n.block.estimate(unread));
    EstimateBelow(unread, n.rate.factor, n.block.multiple, n.block.estimate(unread));
  }

  /** If no sink can stick, every state in which nobody can move is one in which all threads have ended. */
  lemma NoDeadlock(net: Net, run: seq<World>, i: nat)
    requires net.Valid() && Trace(net, run) && i < |run| && Quiet(net, run[i])
    requires forall b :: 0 <= b < |net.nodes| && net.Outs(b) == {} ==> !CanStick(net.nodes[b])
    ensures forall b :: 0 <= b < |net.nodes| ==> run[i].threads[b].pc.Exited?
  {
    forall b | 0 <= b < |net.nodes|
      ensures run[i].threads[b].pc.Exited?
    {
      if !run[i].threads[b].pc.Exited? {
        OnlyTheseStick(net, run, i, b);
      }
    }
  }
}
