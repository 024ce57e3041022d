/** Each sink that can stick is left asleep for ever by some run of some graph. */
module SleepingSink {
  import opened Rounding
  import opened Executor
  import opened Rates
  import opened Network
  import opened Runs

  /** A source that may end at any time, and the sink behind it. */
  ghost predicate Pair(net: Net, sink: Node, size: nat) {
    && |net.nodes| == 2 && net.nodes[1] == sink && net.input == [-1, 0] && net.writer == [0] && net.size == [size]
    && net.nodes[0] == Node(Sync, 1, RatedBlock(Sync, 1, 1, false, size, x => x), true)
    && net.Outs(0) == {0} && net.Outs(1) == {} && net.Downstream(0) == {1} && net.Readers(0) == {1}
    && net.Valid()
  }

  lemma MakePair(sink: Node, size: nat) returns (net: Net)
    requires sink.block == RatedBlock(sink.rate, sink.history, sink.block.multiple, sink.block.multipleSet,
                                      sink.block.maxNoutput, sink.block.estimate)
    requires Estimates(sink.rate, sink.block.estimate)
    requires Wholesome(sink.rate, sink.block) && sink.block.multiple <= sink.block.maxNoutput
    requires size == 2 * (Needs(sink.rate, sink.history, sink.block.multiple) + 1) <= INT_MAX
    ensures Pair(net, sink, size)
  {
    net := Net([Node(Sync, 1, RatedBlock(Sync, 1, 1, false, size, x => x), true), sink], [-1, 0], [0], [size]);
    assert net.Outs(0) == {0};
    assert net.Outs(1) == {};
    assert net.Readers(0) == {1};
    assert net.Downstream(0) == {1};
    assert net.NodeOk(0) && net.NodeOk(1);
  }

  const NOTHING := Input(0, false, 0)

  function Stage(sink: Node, src: Pc, snk: Pc, told: bool, buf: Buf, saw: Input): World {
    World([Thread(src, Align(0, false), false, false, 0, NOTHING),
           Thread(snk, Align(0, false), told, false, 1 - sink.history, saw)], [buf])
  }

  lemma PairBegins(net: Net, reach: iset<World>, sink: Node, size: nat)
    requires Pair(net, sink, size) && Closed(net, reach)
    ensures Stage(sink, Start, Start, false, Buf(0, false), NOTHING) in reach
  {
    assert Init(net, Stage(sink, Start, Start, false, Buf(0, false), NOTHING));
  }

  /** The source's way from the start of an iteration into its work. */
  lemma SourceToWork(net: Net, reach: iset<World>, sink: Node, size: nat, told: bool, w: nat) returns (n: nat)
    requires Pair(net, sink, size) && Closed(net, reach) && 2 * (w + sink.history) <= size
    requires Stage(sink, Start, Start, told, Buf(w, false), NOTHING) in reach
    ensures 2 * n >= size - 1
    ensures Stage(sink, Working(n), Start, told, Buf(w, false), NOTHING) in reach
  {
    var s := Stage(sink, Start, Start, told, Buf(w, false), NOTHING);
    Clears(net, reach, s, 0);
    var s1 := Stage(sink, LookOut({0}, INT_MAX), Start, told, Buf(w, false), NOTHING);
    assert Set(s, 0, s.threads[0].(inFlag := false, outFlag := false, pc := LookOut({0}, INT_MAX))) == s1;
    n := SourceLooks(net, reach, sink, size, told, w);
    SourceDecides(net, reach, sink, size, told, w, n);
  }

  lemma SourceLooks(net: Net, reach: iset<World>, sink: Node, size: nat, told: bool, w: nat) returns (n: nat)
    requires Pair(net, sink, size) && Closed(net, reach) && 2 * (w + sink.history) <= size
    requires Stage(sink, LookOut({0}, INT_MAX), Start, told, Buf(w, false), NOTHING) in reach
    ensures 2 * n >= size - 1 && 0 < n <= size
    ensures Stage(sink, Deciding(n), Start, told, Buf(w, false), NOTHING) in reach
  {
    var s := Stage(sink, LookOut({0}, INT_MAX), Start, told, Buf(w, false), NOTHING);
    var sp := size - w - sink.history;
    assert Unread(net, s, 1) == w + sink.history - 1;
    assert IsSpace(net, s, 0, sp);
    n := HalfRoom(net.nodes[0].block, sp, size);
    LooksOut(net, reach, s, 0, 0, sp);
    assert {0} - {0} == {};
    var s1 := Stage(sink, LookOut({}, n), Start, told, Buf(w, false), NOTHING);
    assert Set(s, 0, s.threads[0].(pc := LookOut({}, n))) == s1;
    HasLooked(net, reach, s1, 0);
    assert Set(s1, 0, s1.threads[0].(pc := Deciding(n))) ==
           Stage(sink, Deciding(n), Start, told, Buf(w, false), NOTHING);
  }

  lemma HalfRoom(b: Block, sp: nat, size: nat) returns (n: nat)
    requires b.multiple == 1 && b.minNoutput == 0 && 2 * sp >= size - 1 && 0 < sp < size <= INT_MAX && size > 1
    ensures RoomOn(b, Output(sp, size, false)) == Room(n) && Min(INT_MAX, n) == n
    ensures 2 * n >= size - 1 && 0 < n <= size
  {
    RoundingByOne(sp);
    RoundingByOne(size / 2);
    n := Min(sp, size / 2);
  }

  lemma RoundingByOne(n: nat)
    ensures RoundDown(n, 1) == n && Multiple(n, 1)
  {
    assert n == n * 1;
  }

  lemma SourceDecides(net: Net, reach: iset<World>, sink: Node, size: nat, told: bool, w: nat, n: nat)
    requires Pair(net, sink, size) && Closed(net, reach) && 0 < n <= size
    requires Stage(sink, Deciding(n), Start, told, Buf(w, false), NOTHING) in reach
    ensures Stage(sink, Working(n), Start, told, Buf(w, false), NOTHING) in reach
  {
    var s := Stage(sink, Deciding(n), Start, told, Buf(w, false), NOTHING);
    RoundingByOne(size);
    RoundingByOne(n);
    assert DecideSource(net.nodes[0].block, Align(0, false), Room(n)) == Run(Asked(n, Align(0, false), 0, -1));
    Decides(net, reach, s, 0);
    assert Set(s, 0, Decided(net, s, 0)) == Stage(sink, Working(n), Start, told, Buf(w, false), NOTHING);
  }

  /** The source writes k items and begins again. */
  lemma SourceWrites(net: Net, reach: iset<World>, sink: Node, size: nat, n: nat, k: nat)
    requires Pair(net, sink, size) && Closed(net, reach) && 0 < k <= n
    requires Stage(sink, Working(n), Start, false, Buf(0, false), NOTHING) in reach
    ensures Stage(sink, Start, Start, true, Buf(k, false), NOTHING) in reach
  {
    var s := Stage(sink, Working(n), Start, false, Buf(0, false), NOTHING);
    Works(net, reach, s, 0, k);
    var s1 := Stage(sink, Produce({0}, k), Start, false, Buf(0, false), NOTHING);
    assert Set(s, 0, s.threads[0].(pc := Produce({0}, k))) == s1;
    Publishes(net, reach, s1, 0, 0);
    assert {0} - {0} == {};
    var s2 := Stage(sink, Produce({}, k), Start, false, Buf(k, false), NOTHING);
    assert Set(SetBuf(s1, 0, s1.bufs[0].(written := k)), 0, s1.threads[0].(pc := Produce({}, k))) == s2;
    HasPublished(net, reach, s2, 0);
    assert Set(s2, 0, s2.threads[0].(pc := Notify({1}, false, false))) ==
           Stage(sink, Notify({1}, false, false), Start, false, Buf(k, false), NOTHING);
    SourceTells(net, reach, sink, size, false, false, Buf(k, false));
  }

  lemma SourceTells(net: Net, reach: iset<World>, sink: Node, size: nat, last: bool, told: bool, buf: Buf)
    requires Pair(net, sink, size) && Closed(net, reach)
             && Stage(sink, Notify({1}, false, last), Start, told, buf, NOTHING) in reach
    ensures Stage(sink, if last then Exited else Start, Start, true, buf, NOTHING) in reach
  {
    var s := Stage(sink, Notify({1}, false, last), Start, told, buf, NOTHING);
    TellsDown(net, reach, s, 0, 1);
    assert {1} - {1} == {};
    var s1 := Stage(sink, Notify({}, false, last), Start, true, buf, NOTHING);
    assert Set(Set(s, 1, s.threads[1].(inFlag := true)), 0, s.threads[0].(pc := Notify({}, false, last))) == s1;
    HasTold(net, reach, s1, 0);
    assert Set(s1, 0, s1.threads[0].(pc := if last then Exited else Start)) ==
           Stage(sink, if last then Exited else Start, Start, true, buf, NOTHING);
  }

  /** And then it ends. */
  lemma SourceEnds(net: Net, reach: iset<World>, sink: Node, size: nat, n: nat, told: bool, w: nat)
    requires Pair(net, sink, size) && Closed(net, reach)
    requires Stage(sink, Working(n), Start, told, Buf(w, false), NOTHING) in reach
    ensures Stage(sink, Exited, Start, true, Buf(w, true), NOTHING) in reach
  {
    var s := Stage(sink, Working(n), Start, told, Buf(w, false), NOTHING);
    Quits(net, reach, s, 0);
    var s1 := Stage(sink, MarkDone({0}, false), Start, told, Buf(w, false), NOTHING);
    assert Set(s, 0, s.threads[0].(pc := MarkDone({0}, false))) == s1;
    MarksOut(net, reach, s1, 0, 0);
    assert {0} - {0} == {};
    var s2 := Stage(sink, MarkDone({}, false), Start, told, Buf(w, true), NOTHING);
    assert Set(SetBuf(s1, 0, s1.bufs[0].(done := true)), 0, s1.threads[0].(pc := MarkDone({}, false))) == s2;
    HasMarked(net, reach, s2, 0);
    assert Set(s2, 0, s2.threads[0].(pc := Notify({1}, false, true))) ==
           Stage(sink, Notify({1}, false, true), Start, told, Buf(w, true), NOTHING);
    SourceTells(net, reach, sink, size, true, told, Buf(w, true));
  }

  /** The sink looks at what is left, and goes to sleep over it. */
  lemma SinkSleeps(net: Net, reach: iset<World>, sink: Node, size: nat, w: nat)
    requires Pair(net, sink, size) && Closed(net, reach)
    requires sink.block.multiple <= w + sink.history - 1
             && sink.block.estimate(w + sink.history - 1) < sink.block.multiple
    requires Stage(sink, Exited, Start, true, Buf(w, true), NOTHING) in reach
    ensures Stage(sink, Exited, WaitIn, false, Buf(w, true), Input(w + sink.history - 1, true, size - 1)) in reach
  {
    var s := Stage(sink, Exited, Start, true, Buf(w, true), NOTHING);
    Clears(net, reach, s, 1);
    var s1 := Stage(sink, Exited, LookIn, false, Buf(w, true), NOTHING);
    assert Set(s, 1, s.threads[1].(inFlag := false, outFlag := false, pc := LookIn)) == s1;
    assert Unread(net, s1, 1) == w + sink.history - 1;
    LooksIn(net, reach, s1, 1);
    var saw := Input(w + sink.history - 1, true, size - 1);
    assert Set(s1, 1, s1.threads[1].(saw := saw, pc := Deciding(0))) ==
           Stage(sink, Exited, Deciding(0), false, Buf(w, true), saw);
    SinkDecides(net, reach, sink, size, w, saw);
  }

  lemma SinkDecides(net: Net, reach: iset<World>, sink: Node, size: nat, w: nat, saw: Input)
    requires Pair(net, sink, size) && Closed(net, reach) && saw.done
    requires sink.block.multiple <= saw.avail && sink.block.estimate(saw.avail) < sink.block.multiple
    requires Stage(sink, Exited, Deciding(0), false, Buf(w, true), saw) in reach
    ensures Stage(sink, Exited, WaitIn, false, Buf(w, true), saw) in reach
  {
    var s := Stage(sink, Exited, Deciding(0), false, Buf(w, true), saw);
    assert net.NodeOk(1);
    SinkStuck(sink.block, Align(0, false), [saw], saw);
    DecisionInRange(sink.block, Align(0, false), [saw], []);
    Decides(net, reach, s, 1);
    assert Set(s, 1, Decided(net, s, 1)) == Stage(sink, Exited, WaitIn, false, Buf(w, true), saw);
  }

  /** For every sink that can stick there is a graph, as the sizing would make it, and a run of it
      that goes no further and in which the sink has not ended. */
  lemma SinkNeverEnds(sink: Node) returns (net: Net, s: World)
    requires sink.block == RatedBlock(sink.rate, sink.history, sink.block.multiple, sink.block.multipleSet,
                                      sink.block.maxNoutput, sink.block.estimate)
    requires Estimates(sink.rate, sink.block.estimate)
    requires sink.block.multiple <= sink.block.maxNoutput && CanStick(sink)
    requires 2 * (Needs(sink.rate, sink.history, sink.block.multiple) + 1) <= INT_MAX
    ensures net.Valid() && |net.nodes| == 2 && net.nodes[1] == sink
    ensures Reached(net, s) && Shaped(net, s) && Quiet(net, s) && s.threads[1].pc == WaitIn
  {
    var size := 2 * (Needs(sink.rate, sink.history, sink.block.multiple) + 1);
    net := MakePair(sink, size);
    var w := HowMany(sink, size);
    var reach := ReachedClosed(net);
    SourceLeaves(net, reach, sink, size, w);
    SinkSleeps(net, reach, sink, size, w);
    s := Stage(sink, Exited, WaitIn, false, Buf(w, true), Input(w + sink.history - 1, true, size - 1));
    QuietAtLast(net, sink, size, s);
  }

  /** With the history, at least one output multiple of items, of which the rate makes less than one. */
  lemma HowMany(sink: Node, size: nat) returns (w: nat)
    requires CanStick(sink) && size == 2 * (Needs(sink.rate, sink.history, sink.block.multiple) + 1)
    requires Estimates(sink.rate, sink.block.estimate)
    ensures sink.block.multiple <= w + sink.history - 1
            && sink.block.estimate(w + sink.history - 1) < sink.block.multiple
    ensures 2 * (w + sink.history) <= size
  {
    var h: nat, m: nat, f: nat := sink.history, sink.block.multiple, sink.rate.factor;
    SpreadOut(1, f, m);
    w := if m >= h then m - h + 1 else 0;
    var u := w + h - 1;
    assert EstimatedAt(sink.rate, u, sink.block.estimate(u));
    EstimateBelow(u, f, m, sink.block.estimate(u));
  }

  lemma SourceLeaves(net: Net, reach: iset<World>, sink: Node, size: nat, w: nat)
    requires Pair(net, sink, size) && Closed(net, reach) && 2 * (w + sink.history) <= size
    ensures Stage(sink, Exited, Start, true, Buf(w, true), NOTHING) in reach
  {
    PairBegins(net, reach, sink, size);
    var n := SourceToWork(net, reach, sink, size, false, 0);
    if w > 0 {
      SourceWrites(net, reach, sink, size, n, w);
      n := SourceToWork(net, reach, sink, size, true, w);
      SourceEnds(net, reach, sink, size, n, true, w);
    } else {
      SourceEnds(net, reach, sink, size, n, false, w);
    }
  }

  lemma QuietAtLast(net: Net, sink: Node, size: nat, s: World)
    requires Pair(net, sink, size) && |s.threads| == 2 && |s.bufs| == 1
    requires s.threads[0].pc == Exited && s.threads[1].pc == WaitIn && !s.threads[1].inFlag
    ensures Shaped(net, s) && Quiet(net, s)
  {
    assert Asleep(s.threads[1]);
  }
}
