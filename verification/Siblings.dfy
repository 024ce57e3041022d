/** A reader of a shared buffer that ends by itself cuts its siblings off from a writer that lives. */
module Siblings {
  import opened Rounding
  import opened Executor
  import opened Rates
  import opened Network
  import opened Runs

  /** A source; a sink that may end at any time; and beside it a sink that takes two items at once. */
  function Trio(): Net {
    Net([Node(Sync, 1, RatedBlock(Sync, 1, 1, false, 8, x => x), false),
         Node(Sync, 1, RatedBlock(Sync, 1, 1, false, 8, x => x), true),
         Node(Sync, 1, RatedBlock(Sync, 1, 2, true, 8, x => x), false)],
        [-1, 0, 0], [0], [8])
  }

  ghost predicate IsTrio(net: Net) {
    && net.Valid() && |net.nodes| == 3 && net.input == [-1, 0, 0] && net.writer == [0] && net.size == [8]
    && net.nodes[0].block == RatedBlock(Sync, 1, 1, false, 8, x => x)
    && net.nodes[1].block == RatedBlock(Sync, 1, 1, false, 8, x => x)
    && net.nodes[2].block == RatedBlock(Sync, 1, 2, true, 8, x => x)
    && (forall b :: 0 <= b < 3 ==> net.nodes[b].rate == Sync && net.nodes[b].history == 1)
    && !net.nodes[0].quits && net.nodes[1].quits && !net.nodes[2].quits
    && net.Outs(0) == {0} && net.Outs(1) == {} && net.Outs(2) == {}
    && net.Downstream(0) == {1, 2} && net.Downstream(1) == {} && net.Downstream(2) == {} && net.Readers(0) == {1, 2}
  }

  lemma TrioIsOne(net: Net)
    requires net == Trio()
    ensures IsTrio(net)
  {
    TrioWires(net);
    assert net.NodeOk(0) && net.NodeOk(1) && net.NodeOk(2);
  }

  lemma TrioWires(net: Net)
    requires |net.nodes| == 3 && net.input == [-1, 0, 0] && net.writer == [0]
    ensures net.Outs(0) == {0} && net.Outs(1) == {} && net.Outs(2) == {}
    ensures net.Downstream(0) == {1, 2} && net.Downstream(1) == {} && net.Downstream(2) == {}
            && net.Readers(0) == {1, 2}
  {
    assert net.Outs(0) == {0};
    assert net.Outs(1) == {};
    assert net.Outs(2) == {};
    assert net.Downstream(0) == {1, 2};
    assert net.Downstream(1) == {};
    assert net.Downstream(2) == {};
    assert net.Readers(0) == {1, 2};
  }

  const NOTHING := Input(0, false, 0)
  const PLAIN := Align(0, false)

  /** Program counters of the three, what they have been told, how much is written, whether the
      buffer is marked, and what the sinks saw. */
  datatype Moment = Moment(src: Pc, one: Pc, two: Pc, told: bool, oneTold: bool, twoTold: bool, buf: Buf,
                           align: Align, oneSaw: Input, twoSaw: Input)

  function At(m: Moment): World {
    World([Thread(m.src, PLAIN, false, m.told, 0, NOTHING),
           Thread(m.one, m.align, m.oneTold, false, 0, m.oneSaw),
           Thread(m.two, PLAIN, m.twoTold, false, 0, m.twoSaw)], [m.buf])
  }

  const FIRST := Moment(Start, Start, Start, false, false, false, Buf(0, false), PLAIN, NOTHING, NOTHING)

  lemma Room(b: Block, w: nat, done: bool)
    requires b.multiple == 1 && b.minNoutput == 0 && w <= 3
    ensures RoomOn(b, Output(7 - w, 8, done)) == Executor.Room(4)
  {
    assert RoundDown(7 - w, 1) == 7 - w && RoundDown(4, 1) == 4;
  }

  /** The source goes through an iteration and writes one item. */
  lemma SourceWrites(net: Net, reach: iset<World>, m: Moment)
    requires IsTrio(net) && Closed(net, reach) && At(m) in reach && m.src == Start && 0 <= m.buf.written <= 3
    ensures At(m.(src := Produce({}, 1), told := false, buf := m.buf.(written := m.buf.written + 1))) in reach
  {
    var s := At(m);
    Clears(net, reach, s, 0);
    var m1 := m.(src := LookOut({0}, INT_MAX), told := false);
    assert At(m1) == Set(s, 0, s.threads[0].(inFlag := false, outFlag := false, pc := LookOut({0}, INT_MAX)));
    SourceLooks(net, reach, m1);
    var m2 := m1.(src := Working(4));
    Works(net, reach, At(m2), 0, 1);
    var m3 := m1.(src := Produce({0}, 1));
    assert At(m3) == Set(At(m2), 0, Consumed(net, 0, At(m2).threads[0], 1).(pc := Produce({0}, 1)));
    SourcePublishes(net, reach, m3);
  }

  lemma SourceLooks(net: Net, reach: iset<World>, m: Moment)
    requires IsTrio(net) && Closed(net, reach) && At(m) in reach && m.src == LookOut({0}, INT_MAX)
             && 0 <= m.buf.written <= 3
    ensures At(m.(src := Working(4))) in reach
  {
    var s, w := At(m), m.buf.written;
    SpaceLeft(net, m);
    Room(net.nodes[0].block, w, m.buf.done);
    LooksOut(net, reach, s, 0, 0, 7 - w);
    assert {0} - {0} == {};
    var m1 := m.(src := LookOut({}, 4));
    assert At(m1) == Set(s, 0, s.threads[0].(pc := LookOut({}, 4)));
    SourceHasLooked(net, reach, m1);
  }

  lemma SpaceLeft(net: Net, m: Moment)
    requires IsTrio(net) && 0 <= m.buf.written <= 3
    ensures IsSpace(net, At(m), 0, 7 - m.buf.written)
  {
    assert Unread(net, At(m), 1) == m.buf.written && Unread(net, At(m), 2) == m.buf.written;
  }

  lemma SourceHasLooked(net: Net, reach: iset<World>, m: Moment)
    requires IsTrio(net) && Closed(net, reach) && At(m) in reach && m.src == LookOut({}, 4)
    ensures At(m.(src := Working(4))) in reach
  {
    HasLooked(net, reach, At(m), 0);
    var m1 := m.(src := Deciding(4));
    assert At(m1) == Set(At(m), 0, At(m).threads[0].(pc := Deciding(4)));
    SourceDecides(net, reach, m1);
  }

  lemma SourceDecides(net: Net, reach: iset<World>, m: Moment)
    requires IsTrio(net) && Closed(net, reach) && At(m) in reach && m.src == Deciding(4)
    ensures At(m.(src := Working(4))) in reach
  {
    var s := At(m);
    assert RoundDown(8, 1) == 8;
    assert Multiple(4, 1) by { assert 4 == 4 * 1; }
    assert DecideSource(net.nodes[0].block, PLAIN, Executor.Room(4)) == Run(Asked(4, PLAIN, 0, -1));
    Decides(net, reach, s, 0);
    assert At(m.(src := Working(4))) == Set(s, 0, Decided(net, s, 0));
  }

  lemma SourcePublishes(net: Net, reach: iset<World>, m: Moment)
    requires IsTrio(net) && Closed(net, reach) && At(m) in reach && m.src == Produce({0}, 1)
    ensures At(m.(src := Produce({}, 1), buf := m.buf.(written := m.buf.written + 1))) in reach
  {
    var s := At(m);
    Publishes(net, reach, s, 0, 0);
    assert {0} - {0} == {};
    var m1 := m.(src := Produce({}, 1), buf := m.buf.(written := m.buf.written + 1));
    assert At(m1) == Set(SetBuf(s, 0, s.bufs[0].(written := s.bufs[0].written + 1)), 0,
                         s.threads[0].(pc := Produce({}, 1)));
  }

  /** The source tells both sinks and begins again. */
  lemma SourceTells(net: Net, reach: iset<World>, m: Moment)
    requires IsTrio(net) && Closed(net, reach) && At(m) in reach && m.src == Produce({}, 1)
    ensures At(m.(src := Start, oneTold := true, twoTold := true)) in reach
  {
    var s := At(m);
    HasPublished(net, reach, s, 0);
    var m1 := m.(src := Notify({1, 2}, false, false));
    assert At(m1) == Set(s, 0, s.threads[0].(pc := Notify({1, 2}, false, false)));
    TellsDown(net, reach, At(m1), 0, 1);
    assert {1, 2} - {1} == {2} && {2} - {2} == {};
    var m2 := m.(src := Notify({2}, false, false), oneTold := true);
    assert At(m2) == Set(Set(At(m1), 1, At(m1).threads[1].(inFlag := true)), 0,
                         At(m1).threads[0].(pc := Notify({2}, false, false)));
    SourceTellsTwo(net, reach, m2);
  }

  lemma SourceTellsTwo(net: Net, reach: iset<World>, m: Moment)
    requires IsTrio(net) && Closed(net, reach) && At(m) in reach && m.src == Notify({2}, false, false)
    ensures At(m.(src := Start, twoTold := true)) in reach
  {
    var s := At(m);
    TellsDown(net, reach, s, 0, 2);
    assert {2} - {2} == {};
    var m1 := m.(src := Notify({}, false, false), twoTold := true);
    assert At(m1) == Set(Set(s, 2, s.threads[2].(inFlag := true)), 0, s.threads[0].(pc := Notify({}, false, false)));
    HasTold(net, reach, At(m1), 0);
    assert At(m1.(src := Start)) == Set(At(m1), 0, At(m1).threads[0].(pc := Start));
  }

  /** The first sink looks, is called, and ends; on its way it marks the buffer that both share. */
  lemma OneQuits(net: Net, reach: iset<World>, m: Moment) returns (al: Align)
    requires IsTrio(net) && Closed(net, reach) && At(m) in reach && m.one == Start && m.align == PLAIN
             && m.buf == Buf(1, false)
    ensures At(m.(one := MarkDone({}, false), oneTold := false, buf := Buf(1, true), align := al,
                  oneSaw := Input(1, false, 7))) in reach
  {
    var s := At(m);
    Clears(net, reach, s, 1);
    var m1 := m.(one := LookIn, oneTold := false);
    assert At(m1) == Set(s, 1, s.threads[1].(inFlag := false, outFlag := false, pc := LookIn));
    assert Unread(net, At(m1), 1) == 1;
    LooksIn(net, reach, At(m1), 1);
    var m2 := m1.(one := Deciding(0), oneSaw := Input(1, false, 7));
    assert At(m2) == Set(At(m1), 1, At(m1).threads[1].(saw := Input(1, false, 7), pc := Deciding(0)));
    var n;
    n, al := OneDecides(net, reach, m2);
    OneMarks(net, reach, m2.(one := Working(n), align := al));
  }

  lemma OneDecides(net: Net, reach: iset<World>, m: Moment) returns (n: nat, al: Align)
    requires IsTrio(net) && Closed(net, reach) && At(m) in reach && m.one == Deciding(0) && m.align == PLAIN
    requires m.oneSaw == Input(1, false, 7)
    ensures At(m.(one := Working(n), align := al)) in reach
  {
    var s := At(m);
    var b := net.nodes[1].block;
    var a := OneRuns(b);
    Decides(net, reach, s, 1);
    n, al := Max(0, a.items), AfterWork(a);
    assert At(m.(one := Working(n), align := al)) == Set(s, 1, Decided(net, s, 1));
  }

  lemma OneRuns(b: Block) returns (a: Asked)
    requires b == RatedBlock(Sync, 1, 1, false, 8, x => x)
    ensures DecideSink(b, PLAIN, [Input(1, false, 7)]) == Run(a)
  {
    var ins := [Input(1, false, 7)];
    assert ins[..0] == [] && MostAvail(ins) == 1;
    assert RoundDown(1, 1) == 1 && RoundDown(8, 1) == 8;
    SinkRequestMultiple(b, ins);
    assert SinkRequest(b, ins) == 1;
    assert b.forecast(1, 0) == 1;
    EnoughInputRuns(b, PLAIN, ins, 1);
    a := Try(b, PLAIN, ins, 1).asked;
  }

  lemma OneMarks(net: Net, reach: iset<World>, m: Moment)
    requires IsTrio(net) && Closed(net, reach) && At(m) in reach && m.one.Working?
    ensures At(m.(one := MarkDone({}, false), buf := m.buf.(done := true))) in reach
  {
    var s := At(m);
    Quits(net, reach, s, 1);
    var m1 := m.(one := MarkDone({}, true));
    assert At(m1) == Set(s, 1, s.threads[1].(pc := MarkDone({}, true)));
    MarksIn(net, reach, At(m1), 1);
    assert At(m1.(one := MarkDone({}, false), buf := m.buf.(done := true))) ==
           Set(SetBuf(At(m1), 0, At(m1).bufs[0].(done := true)), 1, At(m1).threads[1].(pc := MarkDone({}, false)));
  }

  /** The second sink finds one item, too little for it, and the buffer marked; so it ends. */
  lemma TwoEnds(net: Net, reach: iset<World>, m: Moment)
    requires IsTrio(net) && Closed(net, reach) && At(m) in reach && m.two == Start && m.buf == Buf(1, true)
    ensures At(m.(two := Exited, twoTold := false, told := true, twoSaw := Input(1, true, 7))) in reach
  {
    var s := At(m);
    Clears(net, reach, s, 2);
    var m1 := m.(two := LookIn, twoTold := false);
    assert At(m1) == Set(s, 2, s.threads[2].(inFlag := false, outFlag := false, pc := LookIn));
    assert Unread(net, At(m1), 2) == 1;
    LooksIn(net, reach, At(m1), 2);
    var m2 := m1.(two := Deciding(0), twoSaw := Input(1, true, 7));
    assert At(m2) == Set(At(m1), 2, At(m1).threads[2].(saw := Input(1, true, 7), pc := Deciding(0)));
    TwoDecides(net, reach, m2);
    TwoMarks(net, reach, m2.(two := MarkDone({}, true)));
    TwoTells(net, reach, m2.(two := Notify({}, true, true)));
  }

  lemma TwoDecides(net: Net, reach: iset<World>, m: Moment)
    requires IsTrio(net) && Closed(net, reach) && At(m) in reach && m.two == Deciding(0)
             && m.twoSaw == Input(1, true, 7)
    ensures At(m.(two := MarkDone({}, true))) in reach
  {
    var s := At(m);
    var ins := [Input(1, true, 7)];
    assert ins[0].avail < 2 && ins[0].done;
    Decides(net, reach, s, 2);
    assert At(m.(two := MarkDone({}, true))) == Set(s, 2, Decided(net, s, 2));
  }

  lemma TwoMarks(net: Net, reach: iset<World>, m: Moment)
    requires IsTrio(net) && Closed(net, reach) && At(m) in reach && m.two == MarkDone({}, true) && m.buf.done
    ensures At(m.(two := Notify({}, true, true))) in reach
  {
    var s := At(m);
    MarksIn(net, reach, s, 2);
    var m1 := m.(two := MarkDone({}, false));
    assert At(m1) == Set(SetBuf(s, 0, s.bufs[0].(done := true)), 2, s.threads[2].(pc := MarkDone({}, false)));
    HasMarked(net, reach, At(m1), 2);
    assert At(m.(two := Notify({}, true, true))) == Set(At(m1), 2, At(m1).threads[2].(pc := Notify({}, true, true)));
  }

  lemma TwoTells(net: Net, reach: iset<World>, m: Moment)
    requires IsTrio(net) && Closed(net, reach) && At(m) in reach && m.two == Notify({}, true, true)
    ensures At(m.(two := Exited, told := true)) in reach
  {
    var s := At(m);
    TellsUp(net, reach, s, 2);
    var m1 := m.(two := Notify({}, false, true), told := true);
    assert At(m1) == Set(Set(s, 0, s.threads[0].(outFlag := true)), 2, s.threads[2].(pc := Notify({}, false, true)));
    HasTold(net, reach, At(m1), 2);
    assert At(m1.(two := Exited)) == Set(At(m1), 2, At(m1).threads[2].(pc := Exited));
  }

  /** All of it, one after the other. */
  lemma AllHappens(net: Net, reach: iset<World>) returns (m: Moment)
    requires IsTrio(net) && Closed(net, reach) && At(FIRST) in reach
    ensures At(m) in reach && m.src == Produce({}, 1) && m.two == Exited && m.buf.written == 2
  {
    SourceWrites(net, reach, FIRST);
    m := FIRST.(src := Produce({}, 1), buf := Buf(1, false));
    var al := OneQuits(net, reach, m);
    m := m.(one := MarkDone({}, false), buf := Buf(1, true), align := al, oneSaw := Input(1, false, 7));
    TwoEnds(net, reach, m);
    m := m.(two := Exited, told := true, twoSaw := Input(1, true, 7));
    SourceTells(net, reach, m);
    m := m.(src := Start, oneTold := true, twoTold := true);
    SourceWrites(net, reach, m);
    m := m.(src := Produce({}, 1), told := false, buf := Buf(2, true));
  }

  /** A run after which the second sink, which cannot end by itself, has ended and read nothing, while
      the source lives and has written as much as the sink takes at once. */
  lemma SiblingCutOff() returns (net: Net, s: World)
    ensures net == Trio() && net.Valid() && Reached(net, s) && CutOff(net, s)
  {
    net := Trio();
    TrioIsOne(net);
    s := Happens(net);
  }

  ghost predicate CutOff(net: Net, s: World)
    requires net.Valid() && Shaped(net, s)
  {
    && |net.nodes| == 3 && net.input == [-1, 0, 0] && !net.nodes[2].quits
    && s.threads[2].pc == Exited && s.threads[0].pc == Produce({}, 1)
    && Unread(net, s, 2) == net.MultipleOf(2) && s.threads[2].read == 0
  }

  lemma Happens(net: Net) returns (s: World)
    requires IsTrio(net)
    ensures Reached(net, s) && CutOff(net, s)
  {
    var reach := ReachedClosed(net);
    assert Init(net, At(FIRST));
    var m := AllHappens(net, reach);
    s := At(m);
  }
}
