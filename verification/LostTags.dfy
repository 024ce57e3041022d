/** Two runs in which a tag is lost: a block that consumes twice in one call, and a second reader. */
module LostTags {
  import opened Buffers
  import opened Tags

  /** One more step of a run. */
  lemma Longer(parent: seq<nat>, run: seq<State>, steps: seq<Step>, x: Step, s: State, next: State)
    returns (run': seq<State>, steps': seq<Step>)
    requires Tree(parent) && Run(parent, run, steps) && s == run[|steps|] && |s| == |parent| && Enabled(parent, s, x)
    requires next == s[Mover(x) := Changed(parent, s, x)]
    ensures Run(parent, run', steps') && |steps'| == |steps| + 1 && run'[|steps'|] == next
    ensures OncePerCall(parent, run, steps) && (x.Consume? ==> s[x.b].phase.Idle?) ==> OncePerCall(parent, run', steps')
  {
    run', steps' := run + [next], steps + [x];
    forall i | 0 <= i < |steps'|
      ensures StepAt(parent, run', steps', i)
    {
      assert i < |steps| ==> StepAt(parent, run, steps, i);
    }
    if OncePerCall(parent, run, steps) && (x.Consume? ==> s[x.b].phase.Idle?) {
      forall i, b: nat | 0 <= i < |steps'| && b < |parent|
        ensures OnceAt(parent, run', steps', i, b)
      {
        assert i < |steps| ==> OnceAt(parent, run, steps, i, b);
      }
    }
  }

  /** Every block consumes once in each work call. */
  ghost predicate OncePerCall(parent: seq<nat>, run: seq<State>, steps: seq<Step>)
    requires Tree(parent) && Run(parent, run, steps)
  {
    forall i, b: nat :: 0 <= i < |steps| && b < |parent| ==> OnceAt(parent, run, steps, i, b)
  }

  lemma OneTag(t: Tag, m: nat)
    ensures Pruned([t], m) == if t.offset < m then [] else [t]
    ensures forall start: nat :: InRange([t], start, m) == if start <= t.offset < m then [t] else []
  {
    assert [t][1..] == [];
    assert Pruned([], m) == [];
  }

  function Source(t: Tag, tags: seq<Tag>, n: nat, lastMin: nat): Block { Block(tags, [t], n, lastMin, 0, Idle) }

  function Reader(log: seq<Tag>, written: nat, read: nat, phase: Phase): Block {
    Block(log, log, written, 0, read, phase)
  }

  lemma Starts(parent: seq<nat>, t: Tag, n: nat) returns (run: seq<State>, steps: seq<Step>)
    requires Tree(parent)
    ensures Run(parent, run, steps) && OncePerCall(parent, run, steps)
    ensures run[|steps|] == seq(|parent|, _ => FRESH)[0 := Source(t, [t], n, 0)]
  {
    var s := seq(|parent|, _ => FRESH);
    run, steps := [s], [];
    assert [] + [t] == [t];
    run, steps := Longer(parent, run, steps, SourceTag(t), s, s[0 := Source(t, [t], 0, 0)]);
    var s1 := s[0 := Source(t, [t], 0, 0)];
    run, steps := Longer(parent, run, steps, SourceProduce(n), s1, s1[0 := Source(t, [t], n, 0)]);
    assert s1[0 := Source(t, [t], n, 0)] == s[0 := Source(t, [t], n, 0)];
  }

  // ---- Two consumptions in one call ----

  const PAIR: seq<nat> := [0, 0]

  /** For every tag: a block that is its buffer's only reader consumes past the tag, then consumes again
      in the same call; the writer looks after each, and the second look loses the tag. */
  lemma TwoMovesLoseTags(t: Tag) returns (run: seq<State>, steps: seq<Step>)
    ensures Tree(PAIR) && Run(PAIR, run, steps) && |run[|steps|]| == 2
    ensures var s := run[|steps|];
            Count(s[0].log, t) == 1 && t.offset < s[1].written && Count(s[1].log, t) == 0
  {
    var k := t.offset;
    run, steps := Starts(PAIR, t, k + 2);
    run, steps := FirstMove(t, run, steps);
    run, steps := SecondMove(t, run, steps);
  }

  lemma FirstMove(t: Tag, run0: seq<State>, steps0: seq<Step>) returns (run: seq<State>, steps: seq<Step>)
    requires Run(PAIR, run0, steps0)
    requires run0[|steps0|] == seq(2, _ => FRESH)[0 := Source(t, [t], t.offset + 2, 0)]
    ensures Run(PAIR, run, steps)
    ensures run[|steps|] == [Source(t, [t], t.offset + 2, t.offset + 1), Reader([], 0, t.offset + 1, Moved(0))]
  {
    var k := t.offset;
    OneTag(t, 0);
    var s0 := [Source(t, [t], k + 2, 0), FRESH];
    assert seq(2, _ => FRESH)[0 := Source(t, [t], k + 2, 0)] == s0;
    var s1 := [Source(t, [t], k + 2, 0), Reader([], 0, k + 1, Moved(0))];
    run, steps := Longer(PAIR, run0, steps0, Consume(1, k + 1), s0, s1);
    assert Reads(PAIR, 1, 0);
    run, steps := Longer(PAIR, run, steps, Look(0, k + 1), s1, [Source(t, [t], k + 2, k + 1), s1[1]]);
  }

  lemma SecondMove(t: Tag, run0: seq<State>, steps0: seq<Step>) returns (run: seq<State>, steps: seq<Step>)
    requires Run(PAIR, run0, steps0)
    requires run0[|steps0|] == [Source(t, [t], t.offset + 2, t.offset + 1), Reader([], 0, t.offset + 1, Moved(0))]
    ensures Run(PAIR, run, steps)
    ensures run[|steps|] == [Source(t, [], t.offset + 2, t.offset + 2), Reader([], t.offset + 2, t.offset + 2, Idle)]
  {
    var k := t.offset;
    OneTag(t, k + 1);
    var s0 := [Source(t, [t], k + 2, k + 1), Reader([], 0, k + 1, Moved(0))];
    var s1 := [Source(t, [t], k + 2, k + 1), Reader([], 0, k + 2, Moved(0))];
    run, steps := Longer(PAIR, run0, steps0, Consume(1, 1), s0, s1);
    var s2 := [Source(t, [], k + 2, k + 2), Reader([], 0, k + 2, Moved(0))];
    assert Reads(PAIR, 1, 0);
    run, steps := Longer(PAIR, run, steps, Look(0, k + 2), s1, s2);
    var s3 := [Source(t, [], k + 2, k + 2), Reader([], 0, k + 2, Adding([], k + 2))];
    run, steps := Longer(PAIR, run, steps, Collect(1), s2, s3);
    run, steps := Longer(PAIR, run, steps, Produce(1), s3,
                         [Source(t, [], k + 2, k + 2), Reader([], k + 2, k + 2, Idle)]);
  }

  // ---- Two readers ----

  const FORK: seq<nat> := [0, 0, 0]

  /** For every tag: one reader has consumed past it and not yet collected it, while the other goes
      through a call and into the next; the writer looks after each. Every block consumes once a call. */
  lemma TwoReadersLoseTags(t: Tag) returns (run: seq<State>, steps: seq<Step>)
    ensures Tree(FORK) && Run(FORK, run, steps) && OncePerCall(FORK, run, steps) && |run[|steps|]| == 3
    ensures var s := run[|steps|];
            Count(s[0].log, t) == 1 && t.offset < s[1].written && Count(s[1].log, t) == 0
  {
    run, steps := Starts(FORK, t, t.offset + 3);
    run, steps := OtherCall(t, run, steps);
    run, steps := OtherCallsAgain(t, run, steps);
    run, steps := LateCollection(t, run, steps);
  }

  lemma OtherCall(t: Tag, run0: seq<State>, steps0: seq<Step>) returns (run: seq<State>, steps: seq<Step>)
    requires Run(FORK, run0, steps0) && OncePerCall(FORK, run0, steps0)
    requires run0[|steps0|] == seq(3, _ => FRESH)[0 := Source(t, [t], t.offset + 3, 0)]
    ensures Run(FORK, run, steps) && OncePerCall(FORK, run, steps)
    ensures run[|steps|] == [Source(t, [t], t.offset + 3, 0), Reader([], 0, t.offset + 2, Moved(0)),
                             Reader([t], t.offset + 1, t.offset + 1, Idle)]
  {
    var k := t.offset;
    var a := Source(t, [t], k + 3, 0);
    OneTag(t, k + 1);
    var s0 := [a, FRESH, FRESH];
    assert seq(3, _ => FRESH)[0 := a] == s0;
    var b := Reader([], 0, k + 2, Moved(0));
    run, steps := Longer(FORK, run0, steps0, Consume(1, k + 2), s0, [a, b, FRESH]);
    run, steps := Longer(FORK, run, steps, Consume(2, k + 1), [a, b, FRESH], [a, b, Reader([], 0, k + 1, Moved(0))]);
    run, steps := Longer(FORK, run, steps, Collect(2), [a, b, Reader([], 0, k + 1, Moved(0))],
                         [a, b, Reader([], 0, k + 1, Adding([t], k + 1))]);
    assert [t][1..] == [] && [] + [t] == [t];
    run, steps := Longer(FORK, run, steps, AddOne(2), [a, b, Reader([], 0, k + 1, Adding([t], k + 1))],
                         [a, b, Reader([t], 0, k + 1, Adding([], k + 1))]);
    run, steps := Longer(FORK, run, steps, Produce(2), [a, b, Reader([t], 0, k + 1, Adding([], k + 1))],
                         [a, b, Reader([t], k + 1, k + 1, Idle)]);
  }

  lemma OtherCallsAgain(t: Tag, run0: seq<State>, steps0: seq<Step>) returns (run: seq<State>, steps: seq<Step>)
    requires Run(FORK, run0, steps0) && OncePerCall(FORK, run0, steps0)
    requires run0[|steps0|] == [Source(t, [t], t.offset + 3, 0), Reader([], 0, t.offset + 2, Moved(0)),
                                Reader([t], t.offset + 1, t.offset + 1, Idle)]
    ensures Run(FORK, run, steps) && OncePerCall(FORK, run, steps)
    ensures run[|steps|] == [Source(t, [], t.offset + 3, t.offset + 2), Reader([], 0, t.offset + 2, Moved(0)),
                             Reader([t], t.offset + 1, t.offset + 2, Moved(t.offset + 1))]
  {
    var k := t.offset;
    OneTag(t, 0);
    OneTag(t, k + 1);
    assert Reads(FORK, 1, 0) && Reads(FORK, 2, 0);
    var a0, a1, b := Source(t, [t], k + 3, 0), Source(t, [t], k + 3, k + 1), Reader([], 0, k + 2, Moved(0));
    var c0, c1 := Reader([t], k + 1, k + 1, Idle), Reader([t], k + 1, k + 2, Moved(k + 1));
    run, steps := Longer(FORK, run0, steps0, Look(0, k + 1), [a0, b, c0], [a1, b, c0]);
    run, steps := Longer(FORK, run, steps, Consume(2, 1), [a1, b, c0], [a1, b, c1]);
    run, steps := Longer(FORK, run, steps, Look(0, k + 2), [a1, b, c1], [Source(t, [], k + 3, k + 2), b, c1]);
  }

  lemma LateCollection(t: Tag, run0: seq<State>, steps0: seq<Step>) returns (run: seq<State>, steps: seq<Step>)
    requires Run(FORK, run0, steps0) && OncePerCall(FORK, run0, steps0)
    requires run0[|steps0|] == [Source(t, [], t.offset + 3, t.offset + 2), Reader([], 0, t.offset + 2, Moved(0)),
                                Reader([t], t.offset + 1, t.offset + 2, Moved(t.offset + 1))]
    ensures Run(FORK, run, steps) && OncePerCall(FORK, run, steps)
    ensures |run[|steps|]| == 3 && run[|steps|][0] == Source(t, [], t.offset + 3, t.offset + 2)
    ensures run[|steps|][1] == Reader([], t.offset + 2, t.offset + 2, Idle)
  {
    var k := t.offset;
    var a, c := Source(t, [], k + 3, k + 2), Reader([t], k + 1, k + 2, Moved(k + 1));
    var s0 := [a, Reader([], 0, k + 2, Moved(0)), c];
    var s1 := [a, Reader([], 0, k + 2, Adding([], k + 2)), c];
    run, steps := Longer(FORK, run0, steps0, Collect(1), s0, s1);
    run, steps := Longer(FORK, run, steps, Produce(1), s1, [a, Reader([], k + 2, k + 2, Idle), c]);
  }
}
