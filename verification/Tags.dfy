/** Tags on their way down a tree of 1:1 blocks, while the writers prune behind the readers. */
module Tags {
  import opened Buffers

  /** Where a block stands between consuming its input and producing: it has consumed but not yet
      collected the tags of its window; or it is adding them to its output, n items to produce. */
  datatype Phase = Idle | Moved(start: nat) | Adding(rest: seq<Tag>, n: nat)

  /** A block, how far it has read, and the buffer that it writes. The log holds every tag ever added. */
  datatype Block = Block(tags: seq<Tag>, log: seq<Tag>, written: nat, lastMin: nat, read: nat, phase: Phase) {
    /** Tags from here on are still to be collected. */
    function Low(): nat { if phase.Moved? then phase.start else read }

    function Add(t: Tag): Block { this.(tags := tags + [t], log := log + [t]) }

    /** What `space_available` does to the tags, when the slowest reader is at m. */
    function Looked(m: nat): Block { if m != lastMin then this.(tags := Pruned(tags, lastMin), lastMin := m) else this }
  }

  /** Each block but the source reads what an earlier one writes; any number may read the same. */
  ghost predicate Tree(parent: seq<nat>) {
    |parent| > 0 && forall b :: 0 < b < |parent| ==> parent[b] < b
  }

  type State = seq<Block>

  datatype Step =
    | SourceTag(t: Tag)
    | SourceProduce(n: nat)
    | Look(j: nat, m: nat)       // the writer of buffer j asks for its space; its slowest reader is at m
    | Consume(b: nat, n: nat)    // may come more than once in a work call
    | Collect(b: nat)
    | AddOne(b: nat)
    | Produce(b: nat)

  ghost predicate Reads(parent: seq<nat>, b: nat, j: nat) { 0 < b < |parent| && parent[b] == j }

  ghost predicate IsLeast(parent: seq<nat>, s: State, j: nat, m: nat)
    requires |s| == |parent|
  {
    && (exists b: nat :: Reads(parent, b, j) && s[b].read == m)
    && forall b: nat :: Reads(parent, b, j) ==> m <= s[b].read
  }

  ghost predicate Enabled(parent: seq<nat>, s: State, x: Step)
    requires Tree(parent) && |s| == |parent|
  {
    match x
    case SourceTag(t) => t.offset >= s[0].written
    case SourceProduce(n) => true
    case Look(j, m) => j < |s| && IsLeast(parent, s, j, m)
    case Consume(b, n) => 0 < b < |s| && !s[b].phase.Adding? && 0 < n && s[b].read + n <= s[parent[b]].written
    case Collect(b) => 0 < b < |s| && s[b].phase.Moved? && s[b].phase.start <= s[b].read
    case AddOne(b) => 0 < b < |s| && s[b].phase.Adding? && s[b].phase.rest != []
    case Produce(b) => 0 < b < |s| && s[b].phase.Adding? && s[b].phase.rest == []
  }

  /** The one block that a step changes. */
  function Mover(x: Step): nat {
    match x
    case SourceTag(t) => 0
    case SourceProduce(n) => 0
    case Look(j, m) => j
    case Consume(b, n) => b
    case Collect(b) => b
    case AddOne(b) => b
    case Produce(b) => b
  }

  function Changed(parent: seq<nat>, s: State, x: Step): Block
    requires Tree(parent) && |s| == |parent| && Enabled(parent, s, x)
  {
    var h := s[Mover(x)];
    match x
    case SourceTag(t) => h.Add(t)
    case SourceProduce(n) => h.(written := h.written + n)
    case Look(j, m) => h.Looked(m)
    case Consume(b, n) => h.(read := h.read + n, phase := Moved(h.Low()))
    case Collect(b) => h.(phase := Adding(InRange(s[parent[b]].tags, h.phase.start, h.read), h.read - h.phase.start))
    case AddOne(b) => h.(phase := Adding(h.phase.rest[1..], h.phase.n)).Add(h.phase.rest[0])
    case Produce(b) => h.(phase := Idle, written := h.written + h.phase.n)
  }

  const FRESH := Block([], [], 0, 0, 0, Idle)

  ghost predicate StepAt(parent: seq<nat>, run: seq<State>, steps: seq<Step>, i: nat)
    requires Tree(parent) && i < |steps| && |run| == |steps| + 1
  {
    && |run[i]| == |parent| && Enabled(parent, run[i], steps[i])
    && run[i + 1] == run[i][Mover(steps[i]) := Changed(parent, run[i], steps[i])]
  }

  /** Any interleaving of the blocks. */
  ghost predicate Run(parent: seq<nat>, run: seq<State>, steps: seq<Step>)
    requires Tree(parent)
  {
    && |run| == |steps| + 1
    && run[0] == seq(|parent|, _ => FRESH)
    && forall i :: 0 <= i < |steps| ==> StepAt(parent, run, steps, i)
  }

  lemma {:induction false} RunShape(parent: seq<nat>, run: seq<State>, steps: seq<Step>, k: nat)
    requires Tree(parent) && Run(parent, run, steps) && k < |run|
    ensures |run[k]| == |parent|
  {
    if k > 0 {
      RunShape(parent, run, steps, k - 1);
      assert StepAt(parent, run, steps, k - 1);
    }
  }

  // ---- Counting ----

  function Count(tags: seq<Tag>, t: Tag): nat { multiset(tags)[t] }

  lemma {:induction false} CountPruned(tags: seq<Tag>, maxTime: nat, t: Tag)
    ensures Count(Pruned(tags, maxTime), t) == if t.offset >= maxTime then Count(tags, t) else 0
  {
    if tags != [] {
      CountPruned(tags[1..], maxTime, t);
      assert tags == [tags[0]] + tags[1..];
    }
  }

  lemma {:induction false} CountInRange(tags: seq<Tag>, start: nat, end: nat, t: Tag)
    ensures Count(InRange(tags, start, end), t) == if start <= t.offset < end then Count(tags, t) else 0
  {
    if tags != [] {
      CountInRange(tags[1..], start, end, t);
      assert tags == [tags[0]] + tags[1..];
    }
  }

  // ---- When a tag is lost ----

  /** Block b reads the buffer whose writer looks; the tag is there; b has yet to collect it; and it
      lies below where the slowest reader was when the writer last saw it move. */
  ghost predicate Loses(parent: seq<nat>, s: State, x: Step, b: nat, t: Tag)
    requires Tree(parent) && |s| == |parent|
  {
    0 < b < |parent| && x.Look? && x.j == parent[b] && x.m != s[x.j].lastMin
    && t in s[x.j].tags && s[b].Low() <= t.offset < s[x.j].lastMin
  }

  /** A look removes a tag that a reader has yet to collect exactly then. */
  lemma LookLoses(parent: seq<nat>, s: State, j: nat, m: nat, b: nat, t: Tag)
    requires Tree(parent) && |s| == |parent| && Enabled(parent, s, Look(j, m))
    requires Reads(parent, b, j) && t in s[j].tags && s[b].Low() <= t.offset
    ensures t !in Changed(parent, s, Look(j, m)).tags <==> Loses(parent, s, Look(j, m), b, t)
    ensures t !in Changed(parent, s, Look(j, m)).tags <==> m != s[j].lastMin && t.offset < s[j].lastMin
  {
  }

  // ---- What every step keeps of one tag ----

  /** Between the writer g of a buffer and a reader h of it, as far as tag t is concerned, which may
      have been lost on this way. As long as it has not, it is there until h has collected it; and h
      has put into its own buffer, or is about to put, what there was of it below its window. */
  ghost predicate HopOk(g: Block, h: Block, t: Tag, lost: bool) {
    && h.read <= g.written && g.lastMin <= h.read && PhaseOk(h)
    && (if lost then Count(g.tags, t) == 0 && t.offset < g.written
        else t.offset >= h.Low() ==> Count(g.tags, t) == Count(g.log, t))
    && Count(h.log, t) + (if h.phase.Adding? then Count(h.phase.rest, t) else 0)
       == if !lost && t.offset < h.Low() then Count(g.log, t) else 0
  }

  ghost predicate PhaseOk(h: Block) {
    match h.phase
    case Idle => h.written == h.read
    case Moved(start) => start <= h.read && h.written == start
    case Adding(rest, n) => h.written + n == h.read && forall x: Tag :: x in rest ==> h.written <= x.offset < h.read
  }

  ghost predicate HopAt(parent: seq<nat>, s: State, t: Tag, lost: set<nat>, b: nat)
    requires Tree(parent) && |s| == |parent| && 0 < b < |parent|
  {
    HopOk(s[parent[b]], s[b], t, b in lost)
  }

  ghost predicate AllOk(parent: seq<nat>, s: State, t: Tag, lost: set<nat>)
    requires Tree(parent)
  {
    |s| == |parent| && forall b :: 0 < b < |parent| ==> HopAt(parent, s, t, lost, b)
  }

  lemma WriterAdds(g: Block, h: Block, t: Tag, lost: bool, x: Tag)
    requires HopOk(g, h, t, lost) && x.offset >= g.written
    ensures HopOk(g.Add(x), h, t, lost)
  {
  }

  lemma WriterLooks(g: Block, h: Block, t: Tag, lost: bool, m: nat)
    requires HopOk(g, h, t, lost) && m <= h.read
    ensures HopOk(g.Looked(m), h, t, lost || (m != g.lastMin && t in g.tags && h.Low() <= t.offset < g.lastMin))
  {
    CountPruned(g.tags, g.lastMin, t);
  }

  lemma ReaderConsumes(g: Block, h: Block, t: Tag, lost: bool, n: nat)
    requires HopOk(g, h, t, lost) && !h.phase.Adding? && h.read + n <= g.written
    ensures HopOk(g, h.(read := h.read + n, phase := Moved(h.Low())), t, lost)
  {
  }

  lemma ReaderCollects(g: Block, h: Block, t: Tag, lost: bool)
    requires HopOk(g, h, t, lost) && h.phase.Moved?
    ensures HopOk(g, h.(phase := Adding(InRange(g.tags, h.phase.start, h.read), h.read - h.phase.start)), t, lost)
  {
    CountInRange(g.tags, h.phase.start, h.read, t);
  }

  lemma ReaderAdds(g: Block, h: Block, t: Tag, lost: bool)
    requires HopOk(g, h, t, lost) && h.phase.Adding? && h.phase.rest != []
    ensures HopOk(g, h.(phase := Adding(h.phase.rest[1..], h.phase.n)).Add(h.phase.rest[0]), t, lost)
    ensures h.phase.rest[0].offset >= h.written
  {
    assert h.phase.rest == [h.phase.rest[0]] + h.phase.rest[1..];
  }

  /** A step of the block that reads. */
  lemma ReaderMoves(parent: seq<nat>, s: State, x: Step, t: Tag, lost: set<nat>, b: nat)
    requires Tree(parent) && AllOk(parent, s, t, lost) && Enabled(parent, s, x) && 0 < b < |parent| && Mover(x) == b
    ensures HopOk(s[parent[b]], Changed(parent, s, x), t, b in lost)
  {
    var g, h := s[parent[b]], s[b];
    assert HopAt(parent, s, t, lost, b);
    match x {
      case Look(j, m) =>
      case Consume(c, n) => ReaderConsumes(g, h, t, b in lost, n);
      case Collect(c) => ReaderCollects(g, h, t, b in lost);
      case AddOne(c) => ReaderAdds(g, h, t, b in lost);
      case Produce(c) =>
    }
  }

  /** A step of the block that writes. */
  lemma WriterMoves(parent: seq<nat>, s: State, x: Step, t: Tag, lost: set<nat>, b: nat)
    requires Tree(parent) && AllOk(parent, s, t, lost) && Enabled(parent, s, x) && 0 < b < |parent|
             && Mover(x) == parent[b]
    ensures HopOk(Changed(parent, s, x), s[b], t, b in lost || Loses(parent, s, x, b, t))
  {
    var j := parent[b];
    var g, h := s[j], s[b];
    assert HopAt(parent, s, t, lost, b);
    match x {
      case SourceTag(u) => WriterAdds(g, h, t, b in lost, u);
      case SourceProduce(n) =>
      case Look(i, m) =>
        assert Reads(parent, b, j);
        WriterLooks(g, h, t, b in lost, m);
      case Consume(c, n) =>
      case Collect(c) =>
      case AddOne(c) =>
        assert HopAt(parent, s, t, lost, j);
        ReaderAdds(s[parent[j]], g, t, j in lost);
        WriterAdds(g, h, t, b in lost, g.phase.rest[0]);
      case Produce(c) =>
    }
  }

  ghost function LostBy(parent: seq<nat>, s: State, x: Step, t: Tag): set<nat>
    requires Tree(parent) && |s| == |parent|
  {
    set b | 0 < b < |parent| && Loses(parent, s, x, b, t)
  }

  lemma StepKeeps(parent: seq<nat>, s: State, x: Step, t: Tag, lost: set<nat>)
    requires Tree(parent) && AllOk(parent, s, t, lost) && Enabled(parent, s, x)
    ensures AllOk(parent, s[Mover(x) := Changed(parent, s, x)], t, lost + LostBy(parent, s, x, t))
  {
    var s' := s[Mover(x) := Changed(parent, s, x)];
    forall b | 0 < b < |parent|
      ensures HopAt(parent, s', t, lost + LostBy(parent, s, x, t), b)
    {
      assert HopAt(parent, s, t, lost, b);
      if Mover(x) == b {
        ReaderMoves(parent, s, x, t, lost, b);
      } else if Mover(x) == parent[b] {
        WriterMoves(parent, s, x, t, lost, b);
      }
    }
  }

  /** The blocks for which some look in the first k steps has lost the tag. */
  ghost function Lost(parent: seq<nat>, run: seq<State>, steps: seq<Step>, k: nat, t: Tag): set<nat>
    requires Tree(parent) && Run(parent, run, steps) && k <= |steps|
  {
    if k == 0 then {}
    else
      RunShape(parent, run, steps, k - 1);
      Lost(parent, run, steps, k - 1, t) + LostBy(parent, run[k - 1], steps[k - 1], t)
  }

  /** In every interleaving, each tag is where it should be, but for those that a look has lost. */
  lemma {:induction false} RunKeeps(parent: seq<nat>, run: seq<State>, steps: seq<Step>, k: nat, t: Tag)
    requires Tree(parent) && Run(parent, run, steps) && k <= |steps|
    ensures AllOk(parent, run[k], t, Lost(parent, run, steps, k, t))
  {
    if k == 0 {
      forall b | 0 < b < |parent|
        ensures HopAt(parent, run[0], t, {}, b)
      {
        assert run[0][b] == FRESH && run[0][parent[b]] == FRESH;
      }
    } else {
      RunKeeps(parent, run, steps, k - 1, t);
      assert StepAt(parent, run, steps, k - 1);
      StepKeeps(parent, run[k - 1], steps[k - 1], t, Lost(parent, run, steps, k - 1, t));
    }
  }

  // ---- What arrives ----

  /** A look has lost the tag for a block, or for one on the way to it. */
  ghost predicate LostOnTheWay(parent: seq<nat>, lost: set<nat>, b: nat)
    requires Tree(parent) && b < |parent|
  {
    b > 0 && (b in lost || LostOnTheWay(parent, lost, parent[b]))
  }

  /** Once item k is published in a buffer anywhere in the tree, a tag that the source put on item k is
      in that buffer's log exactly as often, on the same item; or not at all, exactly if a look has
      lost it on the way. */
  lemma {:induction false} ExactlyOnce(parent: seq<nat>, run: seq<State>, steps: seq<Step>, k: nat, b: nat, t: Tag)
    requires Tree(parent) && Run(parent, run, steps) && k <= |steps| && b < |parent| == |run[k]|
    requires t.offset < run[k][b].written
    ensures Count(run[k][b].log, t) ==
            if LostOnTheWay(parent, Lost(parent, run, steps, k, t), b) then 0 else Count(run[k][0].log, t)
    decreases b
  {
    if b > 0 {
      var lost := Lost(parent, run, steps, k, t);
      RunKeeps(parent, run, steps, k, t);
      assert HopAt(parent, run[k], t, lost, b);
      NotInRest(run[k][b], t);
      ExactlyOnce(parent, run, steps, k, parent[b], t);
    }
  }

  lemma NotInRest(h: Block, t: Tag)
    requires PhaseOk(h) && t.offset < h.written
    ensures h.phase.Adding? ==> Count(h.phase.rest, t) == 0
    ensures t.offset < h.Low()
  {
  }

  /** And as long as a reader has not collected it, and it was not lost for it, it is in the buffer too. */
  lemma NotPrunedTooEarly(parent: seq<nat>, run: seq<State>, steps: seq<Step>, k: nat, b: nat, t: Tag)
    requires Tree(parent) && Run(parent, run, steps) && k <= |steps| && 0 < b < |parent| == |run[k]|
    requires b !in Lost(parent, run, steps, k, t) && run[k][b].Low() <= t.offset
    ensures Count(run[k][parent[b]].tags, t) == Count(run[k][parent[b]].log, t)
  {
    RunKeeps(parent, run, steps, k, t);
    assert HopAt(parent, run[k], t, Lost(parent, run, steps, k, t), b);
  }

  // ---- Where nothing can be lost ----

  /** The only reader of its buffer, consuming once in each work call. */
  ghost predicate Careful(parent: seq<nat>, run: seq<State>, steps: seq<Step>, b: nat)
    requires Tree(parent) && Run(parent, run, steps) && 0 < b < |parent|
  {
    && (forall d :: Reads(parent, d, parent[b]) ==> d == b)
    && forall i :: 0 <= i < |steps| ==> OnceAt(parent, run, steps, i, b)
  }

  ghost predicate OnceAt(parent: seq<nat>, run: seq<State>, steps: seq<Step>, i: nat, b: nat)
    requires Tree(parent) && |run| == |steps| + 1 && i < |steps| && b < |parent|
  {
    steps[i].Consume? && steps[i].b == b && b < |run[i]| ==> run[i][b].phase.Idle?
  }

  /** While a window is open, the last minimum is before it or at its end, so that looking again prunes
      nothing of it. */
  ghost predicate Ahead(g: Block, h: Block) {
    g.lastMin <= h.Low() || (h.phase.Moved? && g.lastMin == h.read)
  }

  lemma AheadStays(parent: seq<nat>, s: State, x: Step, t: Tag, lost: set<nat>, b: nat)
    requires Tree(parent) && AllOk(parent, s, t, lost) && Enabled(parent, s, x) && 0 < b < |parent|
    requires (forall d :: Reads(parent, d, parent[b]) ==> d == b) && Ahead(s[parent[b]], s[b])
    requires x.Consume? && x.b == b ==> s[b].phase.Idle?
    ensures var s' := s[Mover(x) := Changed(parent, s, x)]; Ahead(s'[parent[b]], s'[b])
    ensures b !in LostBy(parent, s, x, t)
  {
    assert HopAt(parent, s, t, lost, b);
    if x.Look? && x.j == parent[b] {
      assert s[b].read == x.m;
    }
  }

  /** A careful block never loses a tag. */
  lemma {:induction false} CarefulLosesNothing(parent: seq<nat>, run: seq<State>, steps: seq<Step>, k: nat, b: nat,
                                               t: Tag)
    requires Tree(parent) && Run(parent, run, steps) && k <= |steps| && 0 < b < |parent|
             && Careful(parent, run, steps, b)
    ensures |run[k]| == |parent| && b !in Lost(parent, run, steps, k, t) && Ahead(run[k][parent[b]], run[k][b])
  {
    if k > 0 {
      CarefulLosesNothing(parent, run, steps, k - 1, b, t);
      RunKeeps(parent, run, steps, k - 1, t);
      assert StepAt(parent, run, steps, k - 1) && OnceAt(parent, run, steps, k - 1, b);
      AheadStays(parent, run[k - 1], steps[k - 1], t, Lost(parent, run, steps, k - 1, t), b);
    }
  }

  lemma {:induction false} CarefulWay(parent: seq<nat>, run: seq<State>, steps: seq<Step>, k: nat, b: nat, t: Tag)
    requires Tree(parent) && Run(parent, run, steps) && k <= |steps| && b < |parent|
    requires forall c :: 0 < c < |parent| ==> Careful(parent, run, steps, c)
    ensures !LostOnTheWay(parent, Lost(parent, run, steps, k, t), b)
    decreases b
  {
    if b > 0 {
      CarefulLosesNothing(parent, run, steps, k, b, t);
      CarefulWay(parent, run, steps, k, parent[b], t);
    }
  }

  /** In a chain whose blocks consume once in each call, every tag arrives exactly once. */
  lemma ChainLosesNothing(parent: seq<nat>, run: seq<State>, steps: seq<Step>, k: nat, b: nat, t: Tag)
    requires Tree(parent) && Run(parent, run, steps) && k <= |steps| && b < |parent| == |run[k]|
    requires forall c :: 0 < c < |parent| ==> Careful(parent, run, steps, c)
    requires t.offset < run[k][b].written
    ensures Count(run[k][b].log, t) == Count(run[k][0].log, t)
  {
    CarefulWay(parent, run, steps, k, b, t);
    ExactlyOnce(parent, run, steps, k, b, t);
  }
}
