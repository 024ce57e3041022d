/** Runs of the threads, step by step. */
module Runs {
  import opened Rounding
  import opened Executor
  import opened Rates
  import opened Network

  /** A state at the end of some run. */
  ghost predicate Reached(net: Net, s: World)
    requires net.Valid()
  {
    Shaped(net, s) && exists run :: Trace(net, run) && run[|run| - 1] == s
  }

  lemma TraceLonger(net: Net, run: seq<World>, t: World)
    requires net.Valid() && Trace(net, run) && Shaped(net, t) && Next(net, run[|run| - 1], t)
    ensures Trace(net, run + [t])
  {
    var more := run + [t];
    forall i | 0 <= i < |more| - 1
      ensures NextAt(net, more, i)
    {
      assert i < |run| - 1 ==> NextAt(net, run, i);
    }
  }

  /** A set of states that holds all initial ones and that no step leaves. */
  ghost predicate Closed(net: Net, reach: iset<World>)
    requires net.Valid()
  {
    && (forall s :: s in reach ==> Shaped(net, s))
    && (forall s :: Init(net, s) ==> s in reach)
    && forall s, t :: s in reach && Next(net, s, t) && Shaped(net, t) ==> t in reach
  }

  /** The reachable states are one such set, so that what is in all of them is reachable. */
  lemma ReachedClosed(net: Net) returns (reach: iset<World>)
    requires net.Valid()
    ensures Closed(net, reach) && forall s :: s in reach <==> Reached(net, s)
  {
    reach := iset s | Reached(net, s);
    forall s | Init(net, s)
      ensures s in reach
    {
      InitReached(net, s);
    }
    forall s, t | s in reach && Next(net, s, t) && Shaped(net, t)
      ensures t in reach
    {
      NextReached(net, s, t);
    }
  }

  lemma InitReached(net: Net, s: World)
    requires net.Valid() && Init(net, s)
    ensures Reached(net, s)
  {
    assert Trace(net, [s]) && [s][|[s]| - 1] == s;
  }

  lemma NextReached(net: Net, s: World, t: World)
    requires net.Valid() && Reached(net, s) && Next(net, s, t) && Shaped(net, t)
    ensures Reached(net, t)
  {
    var run :| Trace(net, run) && run[|run| - 1] == s;
    TraceLonger(net, run, t);
    assert (run + [t])[|run + [t]| - 1] == t;
  }

  lemma ReachedNext(net: Net, reach: iset<World>, s: World, t: World, b: nat)
    requires net.Valid() && Closed(net, reach) && s in reach && Shaped(net, t) && b < |net.nodes| && Step(net, s, t, b)
    ensures t in reach
  {
    assert Next(net, s, t);
  }

  /** A step that changes only the thread that takes it. */
  lemma ReachedSet(net: Net, reach: iset<World>, s: World, b: nat, next: Thread)
    requires net.Valid() && Closed(net, reach) && s in reach && b < |net.nodes| && Step(net, s, Set(s, b, next), b)
    ensures Set(s, b, next) in reach
  {
    ReachedNext(net, reach, s, Set(s, b, next), b);
  }

  // ---- One step each ----

  lemma Clears(net: Net, reach: iset<World>, s: World, b: nat)
    requires net.Valid() && Closed(net, reach) && s in reach && b < |net.nodes| && s.threads[b].pc == Start
    ensures Set(s, b, s.threads[b].(inFlag := false, outFlag := false,
                       pc := if net.input[b] >= 0 then LookIn else LookOut(net.Outs(b), INT_MAX))) in reach
  {
    ReachedSet(net, reach, s, b, s.threads[b].(inFlag := false, outFlag := false,
                       pc := if net.input[b] >= 0 then LookIn else LookOut(net.Outs(b), INT_MAX)));
  }

  /** Looks at the input of a sink. */
  lemma LooksIn(net: Net, reach: iset<World>, s: World, b: nat)
    requires net.Valid() && Closed(net, reach) && s in reach && b < |net.nodes| && s.threads[b].pc == LookIn
    requires net.input[b] >= 0 && net.Outs(b) == {} && Unread(net, s, b) >= 0
    ensures Set(s, b, s.threads[b].(
              saw := Input(Unread(net, s, b), s.bufs[net.input[b]].done, net.size[net.input[b]] - 1),
              pc := Deciding(0))) in reach
  {
    ReachedSet(net, reach, s, b, s.threads[b].(
      saw := Input(Unread(net, s, b), s.bufs[net.input[b]].done, net.size[net.input[b]] - 1), pc := Deciding(0)));
  }

  lemma LooksOut(net: Net, reach: iset<World>, s: World, b: nat, f: nat, sp: nat)
    requires net.Valid() && Closed(net, reach) && s in reach && b < |net.nodes| && s.threads[b].pc.LookOut?
    requires f in s.threads[b].pc.todo && f < |net.writer| && sp < net.size[f] && IsSpace(net, s, f, sp)
    ensures Set(s, b, s.threads[b].(pc := Looked(net, s, b, f, sp))) in reach
  {
    ReachedSet(net, reach, s, b, s.threads[b].(pc := Looked(net, s, b, f, sp)));
  }

  lemma HasLooked(net: Net, reach: iset<World>, s: World, b: nat)
    requires net.Valid() && Closed(net, reach) && s in reach && b < |net.nodes| && s.threads[b].pc.LookOut?
             && s.threads[b].pc.todo == {}
    ensures Set(s, b, s.threads[b].(pc := Deciding(s.threads[b].pc.least))) in reach
  {
    ReachedSet(net, reach, s, b, s.threads[b].(pc := Deciding(s.threads[b].pc.least)));
  }

  lemma Decides(net: Net, reach: iset<World>, s: World, b: nat)
    requires net.Valid() && Closed(net, reach) && s in reach && b < |net.nodes| && s.threads[b].pc.Deciding?
             && Decidable(net, s, b)
    ensures Set(s, b, Decided(net, s, b)) in reach
  {
    ReachedSet(net, reach, s, b, Decided(net, s, b));
  }

  lemma Works(net: Net, reach: iset<World>, s: World, b: nat, r: nat)
    requires net.Valid() && Closed(net, reach) && s in reach && b < |net.nodes| && s.threads[b].pc.Working?
             && 0 < r <= s.threads[b].pc.items
    ensures Set(s, b, Consumed(net, b, s.threads[b], r).(pc := Produce(net.Outs(b), r))) in reach
  {
    ReachedSet(net, reach, s, b, Consumed(net, b, s.threads[b], r).(pc := Produce(net.Outs(b), r)));
  }

  lemma Quits(net: Net, reach: iset<World>, s: World, b: nat)
    requires net.Valid() && Closed(net, reach) && s in reach && b < |net.nodes| && s.threads[b].pc.Working?
             && net.nodes[b].quits
    ensures Set(s, b, s.threads[b].(pc := MarkDone(net.Outs(b), net.input[b] >= 0))) in reach
  {
    ReachedSet(net, reach, s, b, s.threads[b].(pc := MarkDone(net.Outs(b), net.input[b] >= 0)));
  }

  lemma Publishes(net: Net, reach: iset<World>, s: World, b: nat, f: nat)
    requires net.Valid() && Closed(net, reach) && s in reach && b < |net.nodes| && s.threads[b].pc.Produce?
    requires f in s.threads[b].pc.todo && f < |net.writer|
    ensures var pc := s.threads[b].pc;
            Set(SetBuf(s, f, s.bufs[f].(written := s.bufs[f].written + pc.r)), b,
                             s.threads[b].(pc := Produce(pc.todo - {f}, pc.r))) in reach
  {
    var pc := s.threads[b].pc;
    var t := Set(SetBuf(s, f, s.bufs[f].(written := s.bufs[f].written + pc.r)), b,
                 s.threads[b].(pc := Produce(pc.todo - {f}, pc.r)));
    ReachedNext(net, reach, s, t, b);
  }

  lemma HasPublished(net: Net, reach: iset<World>, s: World, b: nat)
    requires net.Valid() && Closed(net, reach) && s in reach && b < |net.nodes| && s.threads[b].pc.Produce?
             && s.threads[b].pc.todo == {} && s.threads[b].pc.r > 0
    ensures Set(s, b, s.threads[b].(pc := Notify(net.Downstream(b), net.input[b] >= 0, false))) in reach
  {
    ReachedSet(net, reach, s, b, s.threads[b].(pc := Notify(net.Downstream(b), net.input[b] >= 0, false)));
  }

  lemma MarksOut(net: Net, reach: iset<World>, s: World, b: nat, f: nat)
    requires net.Valid() && Closed(net, reach) && s in reach && b < |net.nodes| && s.threads[b].pc.MarkDone?
    requires f in s.threads[b].pc.outs && f < |net.writer|
    ensures var pc := s.threads[b].pc;
            Set(SetBuf(s, f, s.bufs[f].(done := true)), b,
                s.threads[b].(pc := MarkDone(pc.outs - {f}, pc.inn))) in reach
  {
    var pc := s.threads[b].pc;
    var t := Set(SetBuf(s, f, s.bufs[f].(done := true)), b, s.threads[b].(pc := MarkDone(pc.outs - {f}, pc.inn)));
    ReachedNext(net, reach, s, t, b);
  }

  lemma MarksIn(net: Net, reach: iset<World>, s: World, b: nat)
    requires net.Valid() && Closed(net, reach) && s in reach && b < |net.nodes|
             && s.threads[b].pc == MarkDone({}, true) && net.input[b] >= 0
    ensures Set(SetBuf(s, net.input[b], s.bufs[net.input[b]].(done := true)), b,
                             s.threads[b].(pc := MarkDone({}, false))) in reach
  {
    var f := net.input[b];
    var t := Set(SetBuf(s, f, s.bufs[f].(done := true)), b, s.threads[b].(pc := MarkDone({}, false)));
    ReachedNext(net, reach, s, t, b);
  }

  lemma HasMarked(net: Net, reach: iset<World>, s: World, b: nat)
    requires net.Valid() && Closed(net, reach) && s in reach && b < |net.nodes|
             && s.threads[b].pc == MarkDone({}, false)
    ensures Set(s, b, s.threads[b].(pc := Notify(net.Downstream(b), net.input[b] >= 0, true))) in reach
  {
    ReachedSet(net, reach, s, b, s.threads[b].(pc := Notify(net.Downstream(b), net.input[b] >= 0, true)));
  }

  lemma TellsDown(net: Net, reach: iset<World>, s: World, b: nat, d: nat)
    requires net.Valid() && Closed(net, reach) && s in reach && b < |net.nodes| && s.threads[b].pc.Notify?
    requires d in s.threads[b].pc.down && d < |net.nodes| && d != b
    ensures var pc := s.threads[b].pc;
            Set(Set(s, d, s.threads[d].(inFlag := true)), b,
                s.threads[b].(pc := Notify(pc.down - {d}, pc.up, pc.last))) in reach
  {
    var pc := s.threads[b].pc;
    var t := Set(Set(s, d, s.threads[d].(inFlag := true)), b,
                 s.threads[b].(pc := Notify(pc.down - {d}, pc.up, pc.last)));
    ReachedNext(net, reach, s, t, b);
  }

  lemma TellsUp(net: Net, reach: iset<World>, s: World, b: nat)
    requires net.Valid() && Closed(net, reach) && s in reach && b < |net.nodes| && s.threads[b].pc.Notify?
    requires s.threads[b].pc.down == {} && s.threads[b].pc.up && net.input[b] >= 0
    ensures var w := net.writer[net.input[b]];
            Set(Set(s, w, s.threads[w].(outFlag := true)), b,
                s.threads[b].(pc := Notify({}, false, s.threads[b].pc.last))) in reach
  {
    var w := net.writer[net.input[b]];
    var t := Set(Set(s, w, s.threads[w].(outFlag := true)), b,
                 s.threads[b].(pc := Notify({}, false, s.threads[b].pc.last)));
    ReachedNext(net, reach, s, t, b);
  }

  lemma HasTold(net: Net, reach: iset<World>, s: World, b: nat)
    requires net.Valid() && Closed(net, reach) && s in reach && b < |net.nodes| && s.threads[b].pc.Notify?
    requires s.threads[b].pc.down == {} && !s.threads[b].pc.up
    ensures Set(s, b, s.threads[b].(pc := if s.threads[b].pc.last then Exited else Start)) in reach
  {
    ReachedSet(net, reach, s, b, s.threads[b].(pc := if s.threads[b].pc.last then Exited else Start));
  }
}
