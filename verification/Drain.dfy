/** What is left unread when everything has ended. */
module Drain {
  import opened Rounding
  import opened Executor
  import opened Rates
  import opened Network
  import opened Wakeup
  import opened Preservation
  import opened Deadlock

  /** A thread that has decided to end. */
  ghost predicate Ending(x: Thread) {
    match x.pc
    case MarkDone(outs, inn) => true
    case Notify(down, up, last) => last
    case Exited => true
    case _ => false
  }

  /** Too little for the block's least output; or, in a sink, for one output multiple of items. */
  ghost predicate Leftover(net: Net, b: nat, avail: int)
    requires net.Valid() && b < |net.nodes|
  {
    var n := net.nodes[b];
    && 0 <= avail
    && (Makes(n.rate, n.history, avail) < Least(n.block) || (net.Outs(b) == {} && avail < n.block.multiple))
  }

  /** A thread ends only after its writer has marked its input, so nothing more arrives; and then
      all that it leaves is a leftover. */
  ghost predicate Drained(net: Net, s: World, b: nat)
    requires net.Valid() && Shaped(net, s) && b < |net.nodes| && net.input[b] >= 0
  {
    var me, f := s.threads[b], net.input[b];
    var w := s.threads[net.writer[f]];
    && (Ending(me) ==> WriterMarked(w, f) && Leftover(net, b, Unread(net, s, b)))
    && (Knows(me.pc) && me.saw.done ==> WriterMarked(w, f) && Unread(net, s, b) == me.saw.avail)
  }

  /** A thread that ends although its writer lives: by itself, or because an output of its own was
      marked from below, or because a sibling marked the input that they share. */
  ghost predicate Early(net: Net, s: World, d: nat)
    requires net.Valid() && Shaped(net, s) && d < |net.nodes| && net.input[d] >= 0
  {
    Ending(s.threads[d]) && !WriterMarked(s.threads[net.writer[net.input[d]]], net.input[d])
  }

  /** Blocks that read, with all that they lead to, none of which may end by itself. */
  ghost predicate Enduring(net: Net, group: set<nat>)
    requires net.Valid()
  {
    forall b :: b in group ==>
      b < |net.nodes| && net.input[b] >= 0 && !net.nodes[b].quits && net.Downstream(b) <= group
  }

  /** None of the group's siblings from outside ends early. */
  ghost predicate Patient(net: Net, s: World, group: set<nat>)
    requires net.Valid() && Shaped(net, s) && Enduring(net, group)
  {
    forall b, d: nat :: b in group && d < |net.nodes| && net.input[d] == net.input[b] && d !in group ==>
      !Early(net, s, d)
  }

  ghost predicate AllDrained(net: Net, s: World, group: set<nat>)
    requires net.Valid() && Shaped(net, s) && Enduring(net, group)
  {
    forall b :: b in group ==> Drained(net, s, b)
  }

  ghost predicate Draining(net: Net, s: World, group: set<nat>)
    requires net.Valid()
  {
    Inv(net, s) && Enduring(net, group) && AllDrained(net, s, group)
  }

  /** Whether a reader of a buffer belongs to the group or is patient, it has not marked the buffer
      before the writer has. */
  lemma DoneByWriter(net: Net, s: World, group: set<nat>, f: nat)
    requires net.Valid() && Draining(net, s, group)
    requires f < |net.writer| && s.bufs[f].done
    requires forall d: nat :: d < |net.nodes| && net.input[d] == f ==> d in group || !Early(net, s, d)
    ensures WriterMarked(s.threads[net.writer[f]], f)
  {
    assert DoneKnown(net, s, f);
    assert forall d :: d in group ==> Drained(net, s, d);
  }

  /** A step touches the other threads' flags only, and moves only the writer's own pointers. */
  lemma OthersSame(net: Net, s: World, t: World, b: nat, c: nat)
    requires net.Valid() && Shaped(net, s) && b < |net.nodes| && Step(net, s, t, b) && c < |net.nodes| && c != b
    ensures FlagsOnly(s, t, c)
  {
    var pc := s.threads[b].pc;
    if pc.Notify? {
      NotifyingOthers(net, s, t, b, c);
    } else if pc.Produce? || pc.MarkDone? {
      WritingOthers(net, s, t, b, c);
    }
  }

  ghost predicate FlagsOnly(s: World, t: World, c: nat) {
    && |t.threads| == |s.threads| && c < |s.threads|
    && t.threads[c] == s.threads[c].(inFlag := t.threads[c].inFlag, outFlag := t.threads[c].outFlag)
  }

  lemma NotifyingOthers(net: Net, s: World, t: World, b: nat, c: nat)
    requires net.Valid() && Shaped(net, s) && b < |net.nodes| && s.threads[b].pc.Notify? && Step(net, s, t, b)
    requires c < |net.nodes| && c != b
    ensures FlagsOnly(s, t, c)
  {
  }

  lemma WritingOthers(net: Net, s: World, t: World, b: nat, c: nat)
    requires net.Valid() && Shaped(net, s) && b < |net.nodes| && Step(net, s, t, b)
    requires s.threads[b].pc.Produce? || s.threads[b].pc.MarkDone?
    requires c < |net.nodes| && c != b
    ensures FlagsOnly(s, t, c)
  {
  }

  lemma WrittenSame(net: Net, s: World, t: World, b: nat, f: nat)
    requires net.Valid() && Inv(net, s) && b < |net.nodes| && Step(net, s, t, b) && f < |net.writer|
    ensures |t.bufs| == |s.bufs|
    ensures net.writer[f] != b || !s.threads[b].pc.Produce? ==> t.bufs[f].written == s.bufs[f].written
  {
    assert Sound(net, s, b);
  }

  lemma OwnMarkStays(net: Net, s: World, t: World, b: nat, f: nat)
    requires net.Valid() && Inv(net, s) && b < |net.nodes| && Step(net, s, t, b) && f < |net.writer|
    requires WriterMarked(s.threads[b], f)
    ensures |t.threads| == |s.threads| && WriterMarked(t.threads[b], f)
  {
  }

  /** Marks stay, and a writer that has marked a buffer writes no more to it. */
  lemma MarkedStays(net: Net, s: World, t: World, b: nat, f: nat)
    requires net.Valid() && Inv(net, s) && b < |net.nodes| && Step(net, s, t, b) && f < |net.writer|
    requires WriterMarked(s.threads[net.writer[f]], f)
    ensures Shaped(net, t) && WriterMarked(t.threads[net.writer[f]], f) && t.bufs[f].written == s.bufs[f].written
  {
    WrittenSame(net, s, t, b, f);
    if net.writer[f] == b {
      OwnMarkStays(net, s, t, b, f);
    } else {
      OthersSame(net, s, t, b, net.writer[f]);
    }
  }

  lemma OthersDrained(net: Net, s: World, t: World, group: set<nat>, b: nat, c: nat)
    requires net.Valid() && Draining(net, s, group) && b < |net.nodes| && Step(net, s, t, b) && Shaped(net, t)
    requires c in group && c != b
    ensures Drained(net, t, c)
  {
    var f := net.input[c];
    assert Drained(net, s, c);
    if WriterMarked(s.threads[net.writer[f]], f) {
      MarkedStays(net, s, t, b, f);
    }
    OthersSame(net, s, t, b, c);
    StillDrained(net, s, t, c, f);
  }

  lemma StillDrained(net: Net, s: World, t: World, c: nat, f: nat)
    requires net.Valid() && Shaped(net, s) && Shaped(net, t) && c < |net.nodes| && f == net.input[c]
    requires Drained(net, s, c) && FlagsOnly(s, t, c)
    requires WriterMarked(s.threads[net.writer[f]], f) ==>
               WriterMarked(t.threads[net.writer[f]], f) && t.bufs[f].written == s.bufs[f].written
    ensures Drained(net, t, c)
  {
  }

  // ---- The thread that moves ----

  /** Nobody sees one of its own outputs done before it has marked it itself. */
  lemma LookOneDrained(net: Net, s: World, t: World, group: set<nat>, b: nat, f: nat, sp: nat)
    requires net.Valid() && Draining(net, s, group) && b in group
    requires s.threads[b].pc.LookOut? && f in net.Outs(b) && f < |net.writer| && sp < net.size[f]
             && IsSpace(net, s, f, sp)
    requires t == Set(s, b, s.threads[b].(pc := Looked(net, s, b, f, sp)))
    ensures Drained(net, t, b)
  {
    FullMeansTight(net, s, b, f, sp);
    if s.bufs[f].done {
      DoneByWriter(net, s, group, f);
    } else {
      assert Drained(net, s, b);
    }
  }

  lemma LookDrained(net: Net, s: World, t: World, group: set<nat>, b: nat)
    requires net.Valid() && Draining(net, s, group) && b in group
    requires s.threads[b].pc.LookOut? && Step(net, s, t, b)
    ensures Shaped(net, t) && Drained(net, t, b)
  {
    var me := s.threads[b];
    assert Sound(net, s, b) && Drained(net, s, b);
    if me.pc.todo != {} {
      var f, sp :| f in me.pc.todo && f < |net.writer| && sp < net.size[f] && IsSpace(net, s, f, sp)
                   && t == Set(s, b, me.(pc := Looked(net, s, b, f, sp)));
      LookOneDrained(net, s, t, group, b, f, sp);
    }
  }

  lemma DecideDrained(net: Net, s: World, t: World, group: set<nat>, b: nat)
    requires net.Valid() && Draining(net, s, group) && b in group
    requires s.threads[b].pc.Deciding? && Step(net, s, t, b)
    ensures Shaped(net, t) && Drained(net, t, b)
  {
    assert Sound(net, s, b) && Drained(net, s, b);
    DecisionIsSafe(net, s, b);
  }

  lemma EndingDrained(net: Net, s: World, t: World, group: set<nat>, b: nat)
    requires net.Valid() && Draining(net, s, group) && b in group
    requires Ending(s.threads[b]) && Step(net, s, t, b) && Shaped(net, t)
    ensures Drained(net, t, b)
  {
    assert Drained(net, s, b);
    MarkedStays(net, s, t, b, net.input[b]);
    EndingReads(net, s, t, b);
  }

  lemma EndingReads(net: Net, s: World, t: World, b: nat)
    requires net.Valid() && Inv(net, s) && b < |net.nodes|
    requires Ending(s.threads[b]) && Step(net, s, t, b) && Shaped(net, t)
    ensures t.threads[b].read == s.threads[b].read && !Knows(t.threads[b].pc)
  {
  }

  lemma OtherwiseDrained(net: Net, s: World, t: World, group: set<nat>, b: nat)
    requires net.Valid() && Draining(net, s, group) && b in group && Patient(net, s, group)
    requires !Ending(s.threads[b]) && !s.threads[b].pc.LookOut? && !s.threads[b].pc.Deciding?
    requires Step(net, s, t, b) && Shaped(net, t)
    ensures Drained(net, t, b)
  {
    if s.threads[b].pc.LookIn? {
      LookInDrained(net, s, t, group, b);
    } else {
      NotEndingYet(net, s, t, b);
    }
  }

  lemma LookInDrained(net: Net, s: World, t: World, group: set<nat>, b: nat)
    requires net.Valid() && Draining(net, s, group) && b in group && Patient(net, s, group)
    requires s.threads[b].pc.LookIn? && Step(net, s, t, b) && Shaped(net, t)
    ensures Drained(net, t, b)
  {
    if s.bufs[net.input[b]].done {
      DoneByWriter(net, s, group, net.input[b]);
    }
  }

  lemma NotEndingYet(net: Net, s: World, t: World, b: nat)
    requires net.Valid() && Shaped(net, s) && b < |net.nodes| && net.input[b] >= 0 && !net.nodes[b].quits
    requires Step(net, s, t, b) && !Ending(s.threads[b]) && !s.threads[b].pc.LookIn?
    requires !s.threads[b].pc.LookOut? && !s.threads[b].pc.Deciding?
    ensures b < |t.threads| && !Ending(t.threads[b]) && !Knows(t.threads[b].pc)
  {
  }

  lemma StepDrains(net: Net, s: World, t: World, group: set<nat>, b: nat)
    requires net.Valid() && Draining(net, s, group) && Patient(net, s, group)
    requires b < |net.nodes| && Step(net, s, t, b) && Inv(net, t)
    ensures Draining(net, t, group)
  {
    forall c | c in group
      ensures Drained(net, t, c)
    {
      if c != b {
        OthersDrained(net, s, t, group, b, c);
      } else {
        OwnDrained(net, s, t, group, b);
      }
    }
  }

  lemma OwnDrained(net: Net, s: World, t: World, group: set<nat>, b: nat)
    requires net.Valid() && Draining(net, s, group) && Patient(net, s, group)
    requires b in group && Step(net, s, t, b) && Shaped(net, t)
    ensures Drained(net, t, b)
  {
    if s.threads[b].pc.LookOut? {
      LookDrained(net, s, t, group, b);
    } else if s.threads[b].pc.Deciding? {
      DecideDrained(net, s, t, group, b);
    } else if Ending(s.threads[b]) {
      EndingDrained(net, s, t, group, b);
    } else {
      OtherwiseDrained(net, s, t, group, b);
    }
  }

  /** Take any blocks that do not end by themselves, with all that they lead to. As long as no sibling
      from outside ends early, in every state of every run a thread of theirs that ends leaves unread
      no more than a leftover, and nothing is written to its input any more. */
  lemma {:induction false} TraceDrains(net: Net, run: seq<World>, i: nat, group: set<nat>)
    requires net.Valid() && Trace(net, run) && i < |run| && Enduring(net, group)
    requires forall j :: 0 <= j < i ==> Patient(net, run[j], group)
    ensures Draining(net, run[i], group)
  {
    TraceKeepsInv(net, run, i);
    if i > 0 {
      TraceDrains(net, run, i - 1, group);
      var b := OneStep(net, run, i);
      StepDrains(net, run[i - 1], run[i], group, b);
    }
  }

  /** No reader of a shared buffer ends while its writer lives. */
  ghost predicate SharersWait(net: Net, s: World)
    requires net.Valid() && Shaped(net, s)
  {
    forall b: nat, d: nat ::
      b < |net.nodes| && d < |net.nodes| && b != d && net.input[b] == net.input[d] && net.input[d] >= 0 ==>
        !Early(net, s, d)
  }

  lemma SharersArePatient(net: Net, s: World, group: set<nat>)
    requires net.Valid() && Shaped(net, s) && Enduring(net, group) && SharersWait(net, s)
    ensures Patient(net, s, group)
  {
  }

  /** All blocks that read. */
  function Reading(net: Net): set<nat>
    requires net.Valid()
  {
    set b | 0 <= b < |net.nodes| && net.input[b] >= 0
  }

  // ---- 1:1 networks ----

  /** Every block of a group is 1:1, without history, and set no output multiple. */
  ghost predicate OneToOne(net: Net, group: set<nat>)
    requires net.Valid() && Enduring(net, group)
  {
    forall b :: b in group ==>
      var n := net.nodes[b];
      n.rate == Sync && n.history == 1 && !n.block.multipleSet && (net.Outs(b) == {} ==> n.block.multiple == 1)
  }

  /** What a 1:1 block has written to an output, or is about to write, is what it has read. */
  ghost predicate Even(net: Net, s: World, f: nat)
    requires net.Valid() && Shaped(net, s) && f < |net.writer|
  {
    var me := s.threads[net.writer[f]];
    me.read == s.bufs[f].written + (if me.pc.Produce? && f in me.pc.todo then me.pc.r else 0)
  }

  lemma StepKeepsEven(net: Net, s: World, t: World, group: set<nat>, b: nat, f: nat)
    requires net.Valid() && Inv(net, s) && Enduring(net, group) && OneToOne(net, group) && b < |net.nodes|
             && Step(net, s, t, b) && Shaped(net, t)
    requires f < |net.writer| && net.writer[f] in group && Even(net, s, f)
    ensures Even(net, t, f)
  {
    if net.writer[f] != b {
      OthersSame(net, s, t, b, net.writer[f]);
      WrittenSame(net, s, t, b, f);
    } else {
      OwnKeepsEven(net, s, t, group, b, f);
    }
  }

  lemma OwnKeepsEven(net: Net, s: World, t: World, group: set<nat>, b: nat, f: nat)
    requires net.Valid() && Inv(net, s) && Enduring(net, group) && OneToOne(net, group) && b < |net.nodes|
             && Step(net, s, t, b) && Shaped(net, t)
    requires f < |net.writer| && net.writer[f] == b && b in group && Even(net, s, f)
    ensures Even(net, t, f)
  {
    if s.threads[b].pc.Working? {
      WrittenSame(net, s, t, b, f);
      WorkEven(net, s, t, group, b, f);
    } else if s.threads[b].pc.Produce? {
      ProduceEven(net, s, t, b, f);
    } else {
      WrittenSame(net, s, t, b, f);
      ReadSame(net, s, t, b);
    }
  }

  /** Only working moves the read pointer, or brings a thread to write. */
  ghost predicate ReadKept(s: World, t: World, b: nat) {
    b < |s.threads| && b < |t.threads| && t.threads[b].read == s.threads[b].read && !t.threads[b].pc.Produce?
  }

  lemma ReadSame(net: Net, s: World, t: World, b: nat)
    requires net.Valid() && Shaped(net, s) && b < |net.nodes| && Step(net, s, t, b) && Shaped(net, t)
    requires !s.threads[b].pc.Working? && !s.threads[b].pc.Produce?
    ensures ReadKept(s, t, b)
  {
    var pc := s.threads[b].pc;
    if pc.Deciding? {
      DecidingReads(net, s, t, b);
    } else if pc.LookOut? {
      LookingReads(net, s, t, b);
    } else if pc.MarkDone? {
      MarkingReads(net, s, t, b);
    } else if pc.Notify? {
      NotifyingReads(net, s, t, b);
    }
  }

  lemma DecidingReads(net: Net, s: World, t: World, b: nat)
    requires net.Valid() && Shaped(net, s) && b < |net.nodes| && s.threads[b].pc.Deciding? && Step(net, s, t, b)
    ensures ReadKept(s, t, b)
  {
    assert t.threads[b] == Decided(net, s, b);
  }

  lemma LookingReads(net: Net, s: World, t: World, b: nat)
    requires net.Valid() && Shaped(net, s) && b < |net.nodes| && s.threads[b].pc.LookOut? && Step(net, s, t, b)
    ensures ReadKept(s, t, b)
  {
  }

  lemma MarkingReads(net: Net, s: World, t: World, b: nat)
    requires net.Valid() && Shaped(net, s) && b < |net.nodes| && s.threads[b].pc.MarkDone? && Step(net, s, t, b)
    ensures ReadKept(s, t, b)
  {
  }

  lemma NotifyingReads(net: Net, s: World, t: World, b: nat)
    requires net.Valid() && Shaped(net, s) && b < |net.nodes| && s.threads[b].pc.Notify? && Step(net, s, t, b)
    ensures ReadKept(s, t, b)
  {
  }

  lemma WorkEven(net: Net, s: World, t: World, group: set<nat>, b: nat, f: nat)
    requires net.Valid() && Enduring(net, group) && OneToOne(net, group) && Shaped(net, s) && b < |net.nodes|
             && Step(net, s, t, b) && Shaped(net, t)
    requires f < |net.writer| && net.writer[f] == b && b in group && Even(net, s, f)
    requires s.threads[b].pc.Working? && t.bufs[f].written == s.bufs[f].written
    ensures Even(net, t, f)
  {
    assert f in net.Outs(b);
  }

  lemma ProduceEven(net: Net, s: World, t: World, b: nat, f: nat)
    requires net.Valid() && Shaped(net, s) && b < |net.nodes| && Step(net, s, t, b) && Shaped(net, t)
    requires f < |net.writer| && net.writer[f] == b && net.input[b] >= 0 && Even(net, s, f)
    requires s.threads[b].pc.Produce?
    ensures Even(net, t, f)
  {
  }

  ghost predicate KeptEven(net: Net, s: World, group: set<nat>, f: nat)
    requires net.Valid()
  {
    && Inv(net, s) && Enduring(net, group) && OneToOne(net, group)
    && f < |net.writer| && net.writer[f] in group && Even(net, s, f)
  }

  lemma NextKeepsEven(net: Net, s: World, t: World, group: set<nat>, b: nat, f: nat)
    requires net.Valid() && KeptEven(net, s, group, f) && b < |net.nodes| && Step(net, s, t, b) && Inv(net, t)
    ensures KeptEven(net, t, group, f)
  {
    StepKeepsEven(net, s, t, group, b, f);
  }

  lemma {:induction false} TraceKeepsEven(net: Net, run: seq<World>, i: nat, group: set<nat>, f: nat)
    requires net.Valid() && Trace(net, run) && i < |run| && Enduring(net, group) && OneToOne(net, group)
    requires f < |net.writer| && net.writer[f] in group
    ensures KeptEven(net, run[i], group, f)
  {
    TraceKeepsInv(net, run, i);
    if i > 0 {
      TraceKeepsEven(net, run, i - 1, group, f);
      var b := OneStep(net, run, i);
      NextKeepsEven(net, run[i - 1], run[i], group, b, f);
    }
  }

  /** End of stream loses nothing: if a run can go no further, 1:1 blocks that do not end by
      themselves, with all that they lead to, have ended and have read all that was written to them,
      and have written exactly as much to each output; unless a sibling of theirs ended early. */
  lemma NothingLost(net: Net, run: seq<World>, i: nat, group: set<nat>, b: nat)
    requires net.Valid() && Trace(net, run) && i < |run| && Quiet(net, run[i])
    requires Enduring(net, group) && OneToOne(net, group) && b in group
    requires forall j :: 0 <= j < i ==> Patient(net, run[j], group)
    ensures run[i].threads[b].pc.Exited? && Unread(net, run[i], b) == 0
    ensures forall f :: 0 <= f < |net.writer| && net.writer[f] == b ==>
              run[i].bufs[f].written == run[i].bufs[net.input[b]].written
  {
    if !run[i].threads[b].pc.Exited? {
      QuietMeansStuckSink(net, run, i, b);
    }
    TraceDrains(net, run, i, group);
    assert Drained(net, run[i], b);
    forall f | 0 <= f < |net.writer| && net.writer[f] == b
      ensures run[i].bufs[f].written == run[i].bufs[net.input[b]].written
    {
      TraceKeepsEven(net, run, i, group, f);
    }
  }

  /** In particular where only sources end by themselves, or where in all of the run no reader of a
      shared buffer ends before its writer. */
  lemma NothingLostAtAll(net: Net, run: seq<World>, i: nat, group: set<nat>, b: nat)
    requires net.Valid() && Trace(net, run) && i < |run| && Quiet(net, run[i])
    requires Enduring(net, group) && OneToOne(net, group) && b in group
    requires group == Reading(net) || forall j :: 0 <= j < i ==> SharersWait(net, run[j])
    ensures run[i].threads[b].pc.Exited? && Unread(net, run[i], b) == 0
    ensures forall f :: 0 <= f < |net.writer| && net.writer[f] == b ==>
              run[i].bufs[f].written == run[i].bufs[net.input[b]].written
  {
    forall j | 0 <= j < i
      ensures Patient(net, run[j], group)
    {
      if group != Reading(net) {
        SharersArePatient(net, run[j], group);
      }
    }
    NothingLost(net, run, i, group, b);
  }
}
