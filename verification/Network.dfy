/** The running flat graph: one thread a block, bounded buffers between them, and the protocol
    by which the threads put each other to sleep and wake each other up. */
module Network {
  import opened Rounding
  import opened Executor
  import opened Rates
  import opened ThreadBody

  /** A block of fixed rate. Only a block that `quits` may end by itself. */
  datatype Node = Node(rate: Rate, history: Pos, block: Block, quits: bool)

  /** Blocks and buffers by number. Each block has at most one input and any number of outputs;
      each buffer has one writer and any number of readers. */
  datatype Net = Net(nodes: seq<Node>, input: seq<int>, writer: seq<nat>, size: seq<nat>) {
    ghost predicate HasInput(b: nat)
      requires |input| == |nodes|
    {
      b < |nodes| && input[b] >= 0
    }

    function Outs(b: nat): set<nat> { set f | 0 <= f < |writer| && writer[f] == b }

    function Readers(f: nat): set<nat>
      requires |input| == |nodes|
    {
      set d | 0 <= d < |nodes| && input[d] == f
    }

    function Downstream(b: nat): set<nat>
      requires |input| == |nodes|
    {
      set d | 0 <= d < |nodes| && input[d] >= 0 && input[d] < |writer| && writer[input[d]] == b
    }

    ghost predicate NodeOk(b: nat)
      requires b < |nodes|
    {
      var n := nodes[b];
      && n.block == RatedBlock(n.rate, n.history, n.block.multiple, n.block.multipleSet, n.block.maxNoutput,
                               n.block.estimate)
      && Estimates(n.rate, n.block.estimate)
      && Wholesome(n.rate, n.block)
      && n.block.multiple <= n.block.maxNoutput
    }

    /** Numbered so that writers come before readers, and buffers as large as the sizing makes them. */
    ghost predicate Valid() {
      && |input| == |nodes| && |size| == |writer|
      && (forall b :: 0 <= b < |nodes| ==> NodeOk(b) && input[b] < |writer|)
      && (forall f :: 0 <= f < |writer| ==> writer[f] < |nodes|)
      && (forall b :: 0 <= b < |nodes| && input[b] >= 0 ==> writer[input[b]] < b)
      && (forall b :: 0 <= b < |nodes| ==> input[b] >= 0 || Outs(b) != {})
      && (forall f :: 0 <= f < |writer| ==> 2 * MultipleOf(writer[f]) <= size[f] <= INT_MAX)
      && (forall b :: 0 <= b < |nodes| && input[b] >= 0 ==> 2 * Enough(b) + 1 <= size[input[b]])
    }

    function MultipleOf(b: nat): Pos
      requires b < |nodes|
    {
      nodes[b].block.multiple
    }

    /** Input for one output multiple. */
    function Enough(b: nat): nat
      requires b < |nodes|
    {
      Needs(nodes[b].rate, nodes[b].history, nodes[b].block.multiple)
    }
  }

  /** Where a thread stands between two steps that others can see. */
  datatype Pc =
    | Start                                        // about to clear its changed flags
    | LookIn                                       // about to look at its input
    | LookOut(todo: set<nat>, least: nat)          // looking at its outputs, with the least room so far
    | Deciding(room: nat)
    | Working(items: nat)                          // in general_work
    | Produce(todo: set<nat>, r: nat)              // advancing its write pointers
    | MarkDone(outs: set<nat>, inn: bool)          // marking its buffers as done
    | Notify(down: set<nat>, up: bool, last: bool)
    | WaitIn
    | WaitOut(f: nat, seen: seq<int>)              // on buffer f, with its readers where they were seen
    | Exited

  datatype Thread = Thread(pc: Pc, align: Align, inFlag: bool, outFlag: bool, read: int, saw: Input)
  datatype Buf = Buf(written: int, done: bool)
  datatype World = World(threads: seq<Thread>, bufs: seq<Buf>)

  // ---- Steps ----

  ghost predicate Shaped(net: Net, s: World) { |s.threads| == |net.nodes| && |s.bufs| == |net.writer| }

  function Set(s: World, b: nat, x: Thread): World
    requires b < |s.threads|
  {
    s.(threads := s.threads[b := x])
  }

  function SetBuf(s: World, f: nat, x: Buf): World
    requires f < |s.bufs|
  {
    s.(bufs := s.bufs[f := x])
  }

  /** Items that reader d has not consumed yet. */
  function Unread(net: Net, s: World, d: nat): int
    requires net.Valid() && Shaped(net, s) && net.HasInput(d)
  {
    s.bufs[net.input[d]].written - s.threads[d].read
  }

  /** `space_available`: the fullest reader decides. */
  ghost predicate IsSpace(net: Net, s: World, f: nat, sp: nat)
    requires net.Valid() && Shaped(net, s) && f < |net.writer|
  {
    && (forall d :: 0 <= d < |net.nodes| && net.input[d] == f ==> Unread(net, s, d) + sp < net.size[f])
    && ((sp == net.size[f] - 1 && net.Readers(f) == {}) ||
        exists d :: 0 <= d < |net.nodes| && net.input[d] == f && Unread(net, s, d) + sp == net.size[f] - 1)
  }

  function Reads(s: World): (r: seq<int>)
    ensures |r| == |s.threads|
  {
    seq(|s.threads|, d requires 0 <= d < |s.threads| => s.threads[d].read)
  }

  /** Where a thread stands when its iteration has returned a state: f is the output without room. */
  function Reaction(net: Net, b: nat, state: State, f: nat, seen: seq<int>): Pc
    requires net.Valid() && b < |net.nodes|
  {
    match Switch(state)
    case Tell(down, up, again) => Notify(if down then net.Downstream(b) else {}, up && net.input[b] >= 0, !again)
    case AwaitInput => WaitIn
    case AwaitOutput => WaitOut(f, seen)
    case Thrown => Exited
  }

  /** The state for a decision on which the block is not called. */
  function StateFor(d: Executor.Decision, al: Align): State { Ending(d, al, AsAsked).state }

  /** After looking at output f. */
  function Looked(net: Net, s: World, b: nat, f: nat, sp: nat): Pc
    requires net.Valid() && Shaped(net, s) && b < |net.nodes| && f < |net.writer| && s.threads[b].pc.LookOut?
  {
    var pc := s.threads[b].pc;
    match RoomOn(net.nodes[b].block, Output(sp, net.size[f], s.bufs[f].done))
    case Room(n) => LookOut(pc.todo - {f}, Min(pc.least, n))
    case Full => WaitOut(f, Reads(s))
    case FullAndDone => MarkDone(net.Outs(b), net.input[b] >= 0)
    case TooSmall => Exited
  }

  ghost predicate Decidable(net: Net, s: World, b: nat)
    requires net.Valid() && Shaped(net, s) && b < |net.nodes| && s.threads[b].pc.Deciding?
  {
    var me := s.threads[b];
    var block := net.nodes[b].block;
    && AlignOk(block, me.align)
    && (net.Outs(b) != {} ==> 0 < me.pc.room && Multiple(me.pc.room, block.multiple))
  }

  function DecisionOf(net: Net, s: World, b: nat): Executor.Decision
    requires net.Valid() && Shaped(net, s) && b < |net.nodes| && s.threads[b].pc.Deciding?
    requires Decidable(net, s, b)
  {
    var me := s.threads[b];
    var block := net.nodes[b].block;
    if net.input[b] < 0 then DecideSource(block, me.align, Room(me.pc.room))
    else if net.Outs(b) == {} then DecideSink(block, me.align, [me.saw])
    else DecideRegular(block, me.align, [me.saw], Room(me.pc.room))
  }

  /** What follows from a decision: work, or marking the buffers as done, or the loop's reaction. */
  function Acted(net: Net, b: nat, me: Thread, d: Executor.Decision, seen: seq<int>): Thread
    requires net.Valid() && b < |net.nodes|
  {
    match d
    case Run(a) => me.(pc := Working(Max(0, a.items)), align := AfterWork(a))
    case Finished => me.(pc := MarkDone(net.Outs(b), net.input[b] >= 0))
    case d => me.(pc := Reaction(net, b, StateFor(d, me.align), 0, seen), align := Ending(d, me.align, AsAsked).align)
  }

  function Decided(net: Net, s: World, b: nat): Thread
    requires net.Valid() && Shaped(net, s) && b < |net.nodes| && s.threads[b].pc.Deciding?
    requires Decidable(net, s, b)
  {
    Acted(net, b, s.threads[b], DecisionOf(net, s, b), Reads(s))
  }

  function Consumed(net: Net, b: nat, me: Thread, r: nat): Thread
    requires net.Valid() && b < |net.nodes|
  {
    if net.input[b] >= 0 then me.(read := me.read + Uses(net.nodes[b].rate, r)) else me
  }

  /** One atomic step of thread b. */
  ghost predicate Step(net: Net, s: World, t: World, b: nat)
    requires net.Valid() && Shaped(net, s) && b < |net.nodes|
  {
    var me := s.threads[b];
    match me.pc
    case Start =>
      t == Set(s, b, me.(inFlag := false, outFlag := false,
                         pc := if net.input[b] >= 0 then LookIn else LookOut(net.Outs(b), INT_MAX)))
    case LookIn =>
      && net.input[b] >= 0 && Unread(net, s, b) >= 0
      && t == Set(s, b, me.(saw := Input(Unread(net, s, b), s.bufs[net.input[b]].done, net.size[net.input[b]] - 1),
                            pc := if net.Outs(b) == {} then Deciding(0) else LookOut(net.Outs(b), INT_MAX)))
    case LookOut(todo, least) =>
      if todo == {} then t == Set(s, b, me.(pc := Deciding(least)))
      else exists f, sp | f in todo && f < |net.writer| && sp < net.size[f] && IsSpace(net, s, f, sp) ::
             t == Set(s, b, me.(pc := Looked(net, s, b, f, sp)))
    case Deciding(room) =>
      Decidable(net, s, b) && t == Set(s, b, Decided(net, s, b))
    case Working(items) =>
      || (exists r: nat | r <= items ::
            t == Set(s, b, Consumed(net, b, me, r).(pc := if r > 0 then Produce(net.Outs(b), r)
                                                          else Reaction(net, b, StateAfter(Produced(r)), 0, []))))
      || (net.nodes[b].quits && t == Set(s, b, me.(pc := MarkDone(net.Outs(b), net.input[b] >= 0))))
    case Produce(todo, r) =>
      if todo == {} then t == Set(s, b, me.(pc := Reaction(net, b, StateAfter(Produced(r)), 0, [])))
      else exists f | f in todo && f < |net.writer| ::
             t == Set(SetBuf(s, f, s.bufs[f].(written := s.bufs[f].written + r)), b, me.(pc := Produce(todo - {f}, r)))
    case MarkDone(outs, inn) =>
      if outs != {} then
        exists f | f in outs && f < |net.writer| ::
          t == Set(SetBuf(s, f, s.bufs[f].(done := true)), b, me.(pc := MarkDone(outs - {f}, inn)))
      else if inn then
        && net.input[b] >= 0
        && t == Set(SetBuf(s, net.input[b], s.bufs[net.input[b]].(done := true)), b, me.(pc := MarkDone({}, false)))
      else t == Set(s, b, me.(pc := Reaction(net, b, StateAfter(WorkDone), 0, [])))
    case Notify(down, up, last) =>
      if down != {} then
        exists d | d in down && d < |net.nodes| && d != b ::
          t == Set(Set(s, d, s.threads[d].(inFlag := true)), b, me.(pc := Notify(down - {d}, up, last)))
      else if up then
        && net.input[b] >= 0
        && var w := net.writer[net.input[b]];
           t == Set(Set(s, w, s.threads[w].(outFlag := true)), b, me.(pc := Notify({}, false, last)))
      else t == Set(s, b, me.(pc := if last then Exited else Start))
    case WaitIn =>
      me.inFlag && t == Set(s, b, me.(pc := Start))
    case WaitOut(f, seen) =>
      me.outFlag && t == Set(s, b, me.(pc := Start))
    case Exited => false
  }

  ghost predicate Init(net: Net, s: World)
    requires net.Valid()
  {
    && Shaped(net, s)
    && (forall b :: 0 <= b < |net.nodes| ==>
          && s.threads[b].pc == Start && s.threads[b].align == Align(0, false)
          && s.threads[b].read == 1 - net.nodes[b].history)
    && (forall f :: 0 <= f < |net.writer| ==> s.bufs[f] == Buf(0, false))
  }

  ghost predicate Next(net: Net, s: World, t: World)
    requires net.Valid() && Shaped(net, s)
  {
    exists b: nat {:trigger Step(net, s, t, b)} :: b < |net.nodes| && Step(net, s, t, b)
  }

  ghost predicate NextAt(net: Net, run: seq<World>, i: nat)
    requires net.Valid() && i + 1 < |run| && Shaped(net, run[i])
  {
    Next(net, run[i], run[i + 1])
  }

  /** Any interleaving of the threads' steps. */
  ghost predicate Trace(net: Net, run: seq<World>)
    requires net.Valid()
  {
    && run != [] && Init(net, run[0])
    && (forall i :: 0 <= i < |run| ==> Shaped(net, run[i]))
    && (forall i :: 0 <= i < |run| - 1 ==> NextAt(net, run, i))
  }

  /** The step that led to a state of a run. */
  lemma OneStep(net: Net, run: seq<World>, i: nat) returns (b: nat)
    requires net.Valid() && Trace(net, run) && 0 < i < |run|
    ensures Shaped(net, run[i - 1]) && Shaped(net, run[i]) && b < |net.nodes| && Step(net, run[i - 1], run[i], b)
  {
    assert NextAt(net, run, i - 1);
    b :| b < |net.nodes| && Step(net, run[i - 1], run[i], b);
  }

  ghost predicate Asleep(x: Thread) { (x.pc.WaitIn? && !x.inFlag) || (x.pc.WaitOut? && !x.outFlag) }

  /** Nobody can move: every thread has ended or sleeps with nothing to wake it. */
  ghost predicate Quiet(net: Net, s: World)
    requires net.Valid() && Shaped(net, s)
  {
    forall b :: 0 <= b < |net.nodes| ==> s.threads[b].pc.Exited? || Asleep(s.threads[b])
  }

  /** A decimating sink whose history is not longer than the input for one of its output multiples;
      or one longer, if the estimate for just that input is rounded below. */
  predicate CanStick(n: Node) {
    n.rate.Decimator? && n.rate.factor > 1 &&
    var enough := n.block.multiple * n.rate.factor;
    n.history <= enough || (n.history == enough + 1 && n.block.estimate(enough) < n.block.multiple)
  }
}
