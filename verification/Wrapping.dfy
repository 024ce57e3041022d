/** Putting blocks, anywhere in a hierarchy, into one more hierarchical block. */
module Wrapping {

  import opened Results
  import opened Hierarchy

  // ---- One more level ----

  /** The blocks to be put together, and what the new block's inputs and outputs stand for. */
  datatype Cut = Cut(group: seq<Block>, ins: seq<Endpoint>, outs: seq<Endpoint>, id: nat)

  function Place(endps: seq<Endpoint>, e: Endpoint): (i: nat)
    requires e in endps
    ensures i < |endps| && endps[i] == e
  {
    if endps[0] == e then 0 else 1 + Place(endps[1..], e)
  }

  predicate Inner(e: Edge, cut: Cut) { e.src.block in cut.group && e.dst.block in cut.group }

  function InnerEdges(edges: seq<Edge>, cut: Cut): (r: seq<Edge>)
    ensures forall e :: e in r <==> e in edges && Inner(e, cut)
  {
    if edges == [] then []
    else
      var n := |edges| - 1;
      assert edges == edges[..n] + [edges[n]];
      InnerEdges(edges[..n], cut) + if Inner(edges[n], cut) then [edges[n]] else []
  }

  /** The new block: the edges between the blocks of the group, and a port for each of the endpoints. */
  function Shell(h: Block, cut: Cut): Block
    requires h.Hier?
  {
    Hier(cut.id, InnerEdges(h.edges, cut),
         seq(|cut.ins|, i requires 0 <= i < |cut.ins| => Fan([cut.ins[i]])),
         seq(|cut.outs|, o requires 0 <= o < |cut.outs| => Some(cut.outs[o])),
         cut.group)
  }

  function MovedDst(e: Endpoint, cut: Cut, w: Block): Endpoint {
    if e.block in cut.group && e in cut.ins then Endpoint(w, Place(cut.ins, e)) else e
  }

  function MovedSrc(e: Endpoint, cut: Cut, w: Block): Endpoint {
    if e.block in cut.group && e in cut.outs then Endpoint(w, Place(cut.outs, e)) else e
  }

  function Moved(e: Edge, cut: Cut, w: Block): Edge { Edge(MovedSrc(e.src, cut, w), MovedDst(e.dst, cut, w)) }

  function OuterEdges(edges: seq<Edge>, cut: Cut, w: Block): (r: seq<Edge>)
    ensures forall e :: e in r <==> exists x :: x in edges && !Inner(x, cut) && e == Moved(x, cut, w)
  {
    if edges == [] then []
    else
      var n := |edges| - 1;
      assert edges == edges[..n] + [edges[n]];
      OuterEdges(edges[..n], cut, w) + if Inner(edges[n], cut) then [] else [Moved(edges[n], cut, w)]
  }

  function OuterInputs(inputs: seq<Fan>, cut: Cut, w: Block): (r: seq<Fan>)
    ensures |r| == |inputs|
    ensures forall i :: 0 <= i < |r| ==> r[i] == Fan(AllMoved(inputs[i].to, cut, w))
  {
    seq(|inputs|, i requires 0 <= i < |inputs| => Fan(AllMoved(inputs[i].to, cut, w)))
  }

  function AllMoved(endps: seq<Endpoint>, cut: Cut, w: Block): (r: seq<Endpoint>)
    ensures |r| == |endps| && forall i :: 0 <= i < |r| ==> r[i] == MovedDst(endps[i], cut, w)
  {
    seq(|endps|, i requires 0 <= i < |endps| => MovedDst(endps[i], cut, w))
  }

  function OuterOutput(o: Option<Endpoint>, cut: Cut, w: Block): Option<Endpoint> {
    match o
    case None => None
    case Some(e) => Some(MovedSrc(e, cut, w))
  }

  function OuterOutputs(outputs: seq<Option<Endpoint>>, cut: Cut, w: Block): (r: seq<Option<Endpoint>>)
    ensures |r| == |outputs| && forall i :: 0 <= i < |r| ==> r[i] == OuterOutput(outputs[i], cut, w)
  {
    seq(|outputs|, i requires 0 <= i < |outputs| => OuterOutput(outputs[i], cut, w))
  }

  function Others(blocks: seq<Block>, cut: Cut): (r: seq<Block>)
    ensures forall b :: b in r <==> b in blocks && b !in cut.group
  {
    if blocks == [] then []
    else
      var n := |blocks| - 1;
      assert blocks == blocks[..n] + [blocks[n]];
      Others(blocks[..n], cut) + if blocks[n] in cut.group then [] else [blocks[n]]
  }

  /** h with the blocks of the group put into the new block. */
  function Grouped(h: Block, cut: Cut): Block
    requires h.Hier?
  {
    var w := Shell(h, cut);
    Hier(h.id, OuterEdges(h.edges, cut, w), OuterInputs(h.inputs, cut, w), OuterOutputs(h.outputs, cut, w),
         Others(h.singles, cut) + [w])
  }

  /** The group are children of h, the new block's ports are theirs, and every port of theirs that
      h uses from outside the group is among them. */
  ghost predicate Covers(h: Block, cut: Cut)
    requires h.Hier?
  {
    && (forall b :: b in cut.group ==> Child(h, b))
    && (forall e :: e in cut.ins || e in cut.outs ==> e.block in cut.group)
    && (forall e :: e in h.edges && !Inner(e, cut) ==> SrcCovered(e.src, cut) && DstCovered(e.dst, cut))
    && (forall i, x :: 0 <= i < |h.inputs| && x in h.inputs[i].to ==> DstCovered(x, cut))
    && (forall i :: 0 <= i < |h.outputs| && h.outputs[i].Some? ==> SrcCovered(h.outputs[i].value, cut))
  }

  predicate SrcCovered(e: Endpoint, cut: Cut) { e.block in cut.group ==> e in cut.outs }

  predicate DstCovered(e: Endpoint, cut: Cut) { e.block in cut.group ==> e in cut.ins }

  // ---- Ports ----

  lemma {:induction false} ResolvedNonempty(e: Endpoint, isInput: bool)
    requires ResolveEndpoint(e, isInput).Ok?
    ensures ResolveEndpoint(e, isInput).value != []
    decreases e.block
  {
    if e.block.Hier? && !isInput {
      ResolvedNonempty(e.block.outputs[e.port].value, false);
    }
  }

  /** Two endpoints lead to the same leaves. */
  ghost predicate SameEnd(a: Endpoint, b: Endpoint, isInput: bool) {
    ResolveEndpoint(a, isInput) == ResolveEndpoint(b, isInput)
  }

  /** Every port of g leads where that port of h does. */
  ghost predicate SamePorts(h: Block, g: Block) {
    forall port, isInput :: SameEnd(Endpoint(g, port), Endpoint(h, port), isInput)
  }

  lemma ShellInput(w: Block, port: nat, e: Endpoint)
    requires w.Hier? && port < |w.inputs| && w.inputs[port] == Fan([e])
    ensures SameEnd(Endpoint(w, port), e, true)
  {
    var one := [e];
    assert w.inputs[port] < w && w.inputs[port].to == one;
    assert ResolveAll(w, one[1..]) == Ok([]);
    var r := ResolveEndpoint(e, true);
    assert ResolveAll(w, one) == if r.Ok? then Ok(r.value + []) else Err;
    assert ResolveEndpoint(Endpoint(w, port), true) == ResolvePort(w, port, true);
    if r.Ok? {
      ResolvedNonempty(e, true);
      assert r.value + [] == r.value;
    }
  }

  lemma ShellResolves(h: Block, cut: Cut, e: Endpoint)
    requires h.Hier?
    ensures SameEnd(MovedDst(e, cut, Shell(h, cut)), e, true)
    ensures SameEnd(MovedSrc(e, cut, Shell(h, cut)), e, false)
  {
    var w := Shell(h, cut);
    if e.block in cut.group && e in cut.ins {
      ShellInput(w, Place(cut.ins, e), e);
    }
    if e.block in cut.group && e in cut.outs {
      assert ResolveEndpoint(Endpoint(w, Place(cut.outs, e)), false) == ResolvePort(w, Place(cut.outs, e), false);
    }
  }

  lemma {:induction false} AllSame(h: Block, g: Block, a: seq<Endpoint>, b: seq<Endpoint>)
    requires (forall e :: e in a ==> e.block < h) && forall e :: e in b ==> e.block < g
    requires |a| == |b| && forall i :: 0 <= i < |a| ==> SameEnd(a[i], b[i], true)
    ensures ResolveAll(g, b) == ResolveAll(h, a)
    decreases |a|
  {
    if a != [] {
      assert SameEnd(a[0], b[0], true);
      forall i | 0 <= i < |a| - 1
        ensures SameEnd(a[1..][i], b[1..][i], true)
      {
        assert SameEnd(a[i + 1], b[i + 1], true);
      }
      AllSame(h, g, a[1..], b[1..]);
    }
  }

  /** The fans and the outputs of two hierarchical blocks lead to the same leaves, one by one. */
  ghost predicate SameInside(h: Block, g: Block) {
    && h.Hier? && g.Hier? && |g.inputs| == |h.inputs| && |g.outputs| == |h.outputs|
    && (forall i :: 0 <= i < |h.inputs| ==> SameFan(h.inputs[i], g.inputs[i]))
    && (forall i :: 0 <= i < |h.outputs| ==> SameOutput(h.outputs[i], g.outputs[i]))
  }

  ghost predicate SameFan(a: Fan, b: Fan) {
    |a.to| == |b.to| && forall i :: 0 <= i < |a.to| ==> SameEnd(a.to[i], b.to[i], true)
  }

  ghost predicate SameOutput(a: Option<Endpoint>, b: Option<Endpoint>) {
    (a.None? && b.None?) || (a.Some? && b.Some? && SameEnd(a.value, b.value, false))
  }

  lemma SameInsideOut(h: Block, g: Block)
    requires SameInside(h, g)
    ensures SamePorts(h, g)
  {
    forall port, isInput
      ensures SameEnd(Endpoint(g, port), Endpoint(h, port), isInput)
    {
      if isInput && 0 <= port < |h.inputs| {
        assert SameFan(h.inputs[port], g.inputs[port]);
        assert h.inputs[port] < h && g.inputs[port] < g;
        AllSame(h, g, h.inputs[port].to, g.inputs[port].to);
      }
      if !isInput && 0 <= port < |h.outputs| {
        assert SameOutput(h.outputs[port], g.outputs[port]);
      }
      assert ResolvePort(g, port, isInput) == ResolvePort(h, port, isInput);
    }
  }

  lemma SameInsideWired(h: Block, g: Block)
    requires SameInside(h, g)
    ensures OwnWired(g) <==> OwnWired(h)
  {
    forall i | 0 <= i < |h.inputs|
      ensures g.inputs[i].to != [] <==> h.inputs[i].to != []
    {
      assert SameFan(h.inputs[i], g.inputs[i]);
    }
    forall i | 0 <= i < |h.outputs|
      ensures g.outputs[i].Some? <==> h.outputs[i].Some?
    {
      assert SameOutput(h.outputs[i], g.outputs[i]);
    }
  }

  lemma GroupedInside(h: Block, cut: Cut)
    requires h.Hier?
    ensures SameInside(h, Grouped(h, cut))
  {
    var w, g := Shell(h, cut), Grouped(h, cut);
    forall i | 0 <= i < |h.inputs|
      ensures SameFan(h.inputs[i], g.inputs[i])
    {
      forall k | 0 <= k < |h.inputs[i].to|
        ensures SameEnd(h.inputs[i].to[k], g.inputs[i].to[k], true)
      {
        ShellResolves(h, cut, h.inputs[i].to[k]);
      }
    }
    forall i | 0 <= i < |h.outputs|
      ensures SameOutput(h.outputs[i], g.outputs[i])
    {
      if h.outputs[i].Some? {
        ShellResolves(h, cut, h.outputs[i].value);
      }
    }
  }

  // ---- Edges ----

  ghost predicate SameEdge(e: Edge, f: Edge) { SameEnd(e.src, f.src, false) && SameEnd(e.dst, f.dst, true) }

  ghost predicate AllOfThem(edges: seq<Edge>) { forall e :: e in edges ==> Resolves(e) }

  lemma OneMore(edges: seq<Edge>, e: Edge)
    ensures AllOfThem(edges + [e]) <==> AllOfThem(edges) && Resolves(e)
    ensures EdgesFlat(edges + [e]) == EdgesFlat(edges) + EdgeFlat(e)
  {
    var all := edges + [e];
    assert all[|edges|] == e && all[..|edges|] == edges;
    forall x | x in edges
      ensures x in all
    {
    }
  }

  lemma SameEdgeAlike(e: Edge, f: Edge)
    requires SameEdge(e, f)
    ensures EdgeFlat(f) == EdgeFlat(e) && (Resolves(f) <==> Resolves(e))
  {
  }

  ghost predicate SameEdges(es: seq<Edge>, fs: seq<Edge>) {
    |es| == |fs| && forall i :: 0 <= i < |es| ==> SameEdge(es[i], fs[i])
  }

  lemma SameEdgesLess(es: seq<Edge>, fs: seq<Edge>, n: nat)
    requires SameEdges(es, fs) && |es| == n + 1
    ensures SameEdges(es[..n], fs[..n]) && SameEdge(es[n], fs[n])
  {
    forall i | 0 <= i < n
      ensures SameEdge(es[..n][i], fs[..n][i])
    {
      assert SameEdge(es[i], fs[i]);
    }
  }

  lemma {:induction false} EdgesSame(es: seq<Edge>, fs: seq<Edge>)
    requires SameEdges(es, fs)
    ensures EdgesAlike(es, fs)
  {
    if es != [] {
      var n := |es| - 1;
      SameEdgesLess(es, fs, n);
      EdgesSame(es[..n], fs[..n]);
      assert es == es[..n] + [es[n]] && fs == fs[..n] + [fs[n]];
      AlikeMore(es[..n], fs[..n], es[n], fs[n]);
    }
  }

  ghost predicate EdgesAlike(es: seq<Edge>, fs: seq<Edge>) {
    EdgesFlat(fs) == EdgesFlat(es) && (AllOfThem(fs) <==> AllOfThem(es))
  }

  lemma AlikeMore(es: seq<Edge>, fs: seq<Edge>, e: Edge, f: Edge)
    requires EdgesAlike(es, fs) && SameEdge(e, f)
    ensures EdgesAlike(es + [e], fs + [f])
  {
    SameEdgeAlike(e, f);
    OneMore(es, e);
    OneMore(fs, f);
  }

  lemma MovedSame(h: Block, cut: Cut, e: Edge)
    requires h.Hier?
    ensures SameEdge(e, Moved(e, cut, Shell(h, cut)))
  {
    ShellResolves(h, cut, e.src);
    ShellResolves(h, cut, e.dst);
  }

  /** The edges inside the new block and those left outside are the edges of h. */
  lemma {:induction false} EdgesCut(edges: seq<Edge>, h: Block, cut: Cut)
    requires h.Hier?
    ensures CutsTo(edges, InnerEdges(edges, cut), OuterEdges(edges, cut, Shell(h, cut)))
  {
    if edges != [] {
      var n := |edges| - 1;
      EdgesCut(edges[..n], h, cut);
      assert edges == edges[..n] + [edges[n]];
      MovedSame(h, cut, edges[n]);
      CutOne(edges[..n], edges[n], cut, Shell(h, cut));
    } else {
      NothingCut();
    }
  }

  lemma CutOne(edges: seq<Edge>, e: Edge, cut: Cut, w: Block)
    requires CutsTo(edges, InnerEdges(edges, cut), OuterEdges(edges, cut, w)) && SameEdge(e, Moved(e, cut, w))
    ensures CutsTo(edges + [e], InnerEdges(edges + [e], cut), OuterEdges(edges + [e], cut, w))
  {
    OneEdgeMore(edges, e, cut, w);
    CutMore(edges, InnerEdges(edges, cut), OuterEdges(edges, cut, w), e, Moved(e, cut, w));
  }

  lemma OneEdgeMore(edges: seq<Edge>, e: Edge, cut: Cut, w: Block)
    ensures InnerEdges(edges + [e], cut) == InnerEdges(edges, cut) + if Inner(e, cut) then [e] else []
    ensures OuterEdges(edges + [e], cut, w) ==
            OuterEdges(edges, cut, w) + if Inner(e, cut) then [] else [Moved(e, cut, w)]
  {
    assert (edges + [e])[..|edges|] == edges;
  }

  lemma CutMore(edges: seq<Edge>, inner: seq<Edge>, outer: seq<Edge>, e: Edge, f: Edge)
    requires CutsTo(edges, inner, outer) && SameEdge(e, f)
    ensures CutsTo(edges + [e], inner + [e], outer + []) && CutsTo(edges + [e], inner + [], outer + [f])
  {
    assert inner + [] == inner && outer + [] == outer;
    CutInner(edges, inner, outer, e);
    CutOuter(edges, inner, outer, e, f);
  }

  lemma NothingCut()
    ensures CutsTo([], [], [])
  {
  }

  /** Two lists of edges make, together, what one list makes. */
  ghost predicate CutsTo(edges: seq<Edge>, inner: seq<Edge>, outer: seq<Edge>) {
    && multiset(EdgesFlat(edges)) == multiset(EdgesFlat(inner)) + multiset(EdgesFlat(outer))
    && (AllOfThem(edges) <==> AllOfThem(inner) && AllOfThem(outer))
  }

  lemma CutInner(edges: seq<Edge>, inner: seq<Edge>, outer: seq<Edge>, e: Edge)
    requires CutsTo(edges, inner, outer)
    ensures CutsTo(edges + [e], inner + [e], outer)
  {
    OneMore(edges, e);
    OneMore(inner, e);
  }

  lemma CutOuter(edges: seq<Edge>, inner: seq<Edge>, outer: seq<Edge>, e: Edge, f: Edge)
    requires CutsTo(edges, inner, outer) && SameEdge(e, f)
    ensures CutsTo(edges + [e], inner, outer + [f])
  {
    SameEdgeAlike(e, f);
    OneMore(edges, e);
    OneMore(outer, f);
  }

  // ---- Blocks ----

  ghost predicate Distinct(blocks: seq<Block>) { forall i, j :: 0 <= i < j < |blocks| ==> blocks[i] != blocks[j] }

  lemma {:induction false} AddedDistinct(r: seq<Block>, endps: seq<Endpoint>)
    requires Distinct(r)
    ensures Distinct(AddBlocks(r, endps))
  {
    if endps != [] {
      AddedDistinct(r, endps[..|endps| - 1]);
    }
  }

  lemma {:induction false} EdgesDistinct(edges: seq<Edge>)
    ensures Distinct(EdgeBlocks(edges))
  {
    if edges != [] {
      var n := |edges| - 1;
      EdgesDistinct(edges[..n]);
      assert Distinct(AddUnique(EdgeBlocks(edges[..n]), edges[n].src.block));
    }
  }

  lemma {:induction false} SinglesDistinct(r: seq<Block>, singles: seq<Block>)
    requires Distinct(r)
    ensures Distinct(SingleBlocks(r, singles))
  {
    if singles != [] {
      SinglesDistinct(r, singles[..|singles| - 1]);
    }
  }

  lemma {:induction false} InputsDistinct(r: seq<Block>, inputs: seq<Fan>)
    requires Distinct(r)
    ensures Distinct(InputBlocks(r, inputs))
  {
    if inputs != [] {
      var n := |inputs| - 1;
      InputsDistinct(r, inputs[..n]);
      AddedDistinct(InputBlocks(r, inputs[..n]), inputs[n].to);
    }
  }

  lemma {:induction false} OutputsDistinct(r: seq<Block>, outputs: seq<Option<Endpoint>>)
    requires Distinct(r)
    ensures Distinct(OutputBlocks(r, outputs))
  {
    if outputs != [] {
      OutputsDistinct(r, outputs[..|outputs| - 1]);
    }
  }

  lemma UsedDistinct(h: Block)
    requires h.Hier?
    ensures Distinct(Used(h))
  {
    EdgesDistinct(h.edges);
    SinglesDistinct(EdgeBlocks(h.edges), h.singles);
    var r := SingleBlocks(EdgeBlocks(h.edges), h.singles);
    InputsDistinct(r, h.inputs);
    OutputsDistinct(InputBlocks(r, h.inputs), h.outputs);
  }

  /** The flat edges of a list of blocks, where each has those that f gives it. */
  function Gather(f: Block -> seq<Edge>, blocks: seq<Block>): seq<Edge> {
    if blocks == [] then [] else Gather(f, blocks[..|blocks| - 1]) + f(blocks[|blocks| - 1])
  }

  lemma {:induction false} KidsGather(h: Block, blocks: seq<Block>)
    requires Within(h, blocks)
    ensures KidsFlat(h, blocks) == Gather(FlatOf, blocks)
  {
    if blocks != [] {
      KidsGather(h, blocks[..|blocks| - 1]);
    }
  }

  lemma GatherMore(f: Block -> seq<Edge>, blocks: seq<Block>, b: Block)
    ensures Gather(f, blocks + [b]) == Gather(f, blocks) + f(b)
  {
    assert (blocks + [b])[..|blocks|] == blocks;
  }

  lemma {:induction false} GatherJoin(f: Block -> seq<Edge>, a: seq<Block>, b: seq<Block>)
    ensures Gather(f, a + b) == Gather(f, a) + Gather(f, b)
    decreases |b|
  {
    if b == [] {
      assert a + b == a;
    } else {
      var n := |b| - 1;
      GatherJoin(f, a, b[..n]);
      assert a + b == (a + b[..n]) + [b[n]] && b == b[..n] + [b[n]];
      GatherMore(f, a + b[..n], b[n]);
      GatherMore(f, b[..n], b[n]);
      Associative(Gather(f, a), Gather(f, b[..n]), f(b[n]));
    }
  }

  lemma Associative(a: seq<Edge>, b: seq<Edge>, c: seq<Edge>)
    ensures a + b + c == a + (b + c)
  {
  }

  /** Without regard to order, one block can be taken out of the list. */
  lemma TakenOut(f: Block -> seq<Edge>, blocks: seq<Block>, i: nat)
    requires i < |blocks|
    ensures multiset(Gather(f, blocks)) ==
            multiset(Gather(f, blocks[..i] + blocks[i + 1..])) + multiset(f(blocks[i]))
  {
    var before, after := blocks[..i], blocks[i + 1..];
    assert blocks == before + [blocks[i]] + after;
    GatherJoin(f, before + [blocks[i]], after);
    GatherMore(f, before, blocks[i]);
    GatherJoin(f, before, after);
  }

  ghost predicate SameMembers(a: seq<Block>, b: seq<Block>) { forall x :: x in a <==> x in b }

  lemma TakenOutMembers(a: seq<Block>, i: nat, r: seq<Block>)
    requires Distinct(a) && i < |a| && r == a[..i] + a[i + 1..]
    ensures Distinct(r)
    ensures forall x :: x in r <==> x in a && x != a[i]
  {
    forall x
      ensures x in r <==> x in a && x != a[i]
    {
      if x in a && x != a[i] {
        var k :| 0 <= k < |a| && a[k] == x;
        assert if k < i then r[k] == x else r[k - 1] == x;
      }
      if x in r {
        var k :| 0 <= k < |r| && r[k] == x;
        assert if k < i then a[k] == x else a[k + 1] == x;
      }
    }
  }

  lemma Somebody(b: seq<Block>)
    ensures b != [] ==> exists x :: x in b
  {
    if b != [] {
      assert b[0] in b;
    }
  }

  lemma {:induction false} OrderAside(f: Block -> seq<Edge>, a: seq<Block>, b: seq<Block>)
    requires Distinct(a) && Distinct(b) && SameMembers(a, b)
    ensures multiset(Gather(f, a)) == multiset(Gather(f, b))
    decreases |a|
  {
    if a == [] {
      Somebody(b);
    } else {
      var n := |a| - 1;
      assert a[n] in a;
      var i :| 0 <= i < |b| && b[i] == a[n];
      var rest := b[..i] + b[i + 1..];
      assert a[..n] + a[n + 1..] == a[..n];
      TakenOutMembers(a, n, a[..n]);
      TakenOutMembers(b, i, rest);
      OrderAside(f, a[..n], rest);
      TakenOut(f, b, i);
    }
  }

  function Chosen(blocks: seq<Block>, cut: Cut): (r: seq<Block>)
    ensures forall b :: b in r <==> b in blocks && b in cut.group
  {
    if blocks == [] then []
    else
      var n := |blocks| - 1;
      assert blocks == blocks[..n] + [blocks[n]];
      Chosen(blocks[..n], cut) + if blocks[n] in cut.group then [blocks[n]] else []
  }

  lemma {:induction false} CutInTwo(f: Block -> seq<Edge>, blocks: seq<Block>, cut: Cut)
    ensures InTwo(f, blocks, Chosen(blocks, cut), Others(blocks, cut))
  {
    if blocks != [] {
      var n := |blocks| - 1;
      CutInTwo(f, blocks[..n], cut);
      assert blocks == blocks[..n] + [blocks[n]];
      InTwoMore(f, blocks[..n], Chosen(blocks[..n], cut), Others(blocks[..n], cut), blocks[n]);
    }
  }

  ghost predicate InTwo(f: Block -> seq<Edge>, blocks: seq<Block>, a: seq<Block>, b: seq<Block>) {
    multiset(Gather(f, blocks)) == multiset(Gather(f, a)) + multiset(Gather(f, b))
  }

  lemma InTwoMore(f: Block -> seq<Edge>, blocks: seq<Block>, a: seq<Block>, b: seq<Block>, c: Block)
    requires InTwo(f, blocks, a, b)
    ensures InTwo(f, blocks + [c], a + [c], b + []) && InTwo(f, blocks + [c], a + [], b + [c])
  {
    assert a + [] == a && b + [] == b;
    GatherMore(f, blocks, c);
    GatherMore(f, a, c);
    GatherMore(f, b, c);
  }

  lemma {:induction false} CutDistinct(blocks: seq<Block>, cut: Cut)
    requires Distinct(blocks)
    ensures Distinct(Chosen(blocks, cut)) && Distinct(Others(blocks, cut))
  {
    if blocks != [] {
      var n := |blocks| - 1;
      CutDistinct(blocks[..n], cut);
      assert forall i :: 0 <= i < n ==> blocks[..n][i] != blocks[n];
      assert blocks[n] !in blocks[..n];
    }
  }

  // ---- Grouping, where it happens ----

  /** g holds the flat edges of h, and flattens where h does. */
  ghost predicate Alike(h: Block, g: Block) {
    multiset(FlatOf(g)) == multiset(FlatOf(h)) && (Good(g) <==> Good(h))
  }

  lemma ShellHolds(h: Block, cut: Cut, b: Block)
    requires h.Hier? && Covers(h, cut)
    ensures Child(Shell(h, cut), b) <==> b in cut.group
  {
    var w := Shell(h, cut);
    if i, x :| 0 <= i < |w.inputs| && x in w.inputs[i].to && b == x.block {
      assert x == cut.ins[i];
    }
    if i :| 0 <= i < |w.outputs| && w.outputs[i].Some? && b == w.outputs[i].value.block {
      assert w.outputs[i].value == cut.outs[i];
    }
  }

  lemma MovedBlocks(e: Endpoint, cut: Cut, w: Block)
    ensures e.block !in cut.group ==> MovedSrc(e, cut, w) == e && MovedDst(e, cut, w) == e
    ensures SrcCovered(e, cut) && e.block in cut.group ==> MovedSrc(e, cut, w).block == w
    ensures DstCovered(e, cut) && e.block in cut.group ==> MovedDst(e, cut, w).block == w
  {
  }

  lemma StillHolds(h: Block, cut: Cut, b: Block)
    requires h.Hier? && Child(h, b) && b !in cut.group
    ensures Child(Grouped(h, cut), b)
  {
    var w, g := Shell(h, cut), Grouped(h, cut);
    if e :| e in h.edges && (b == e.src.block || b == e.dst.block) {
      assert Moved(e, cut, w) in g.edges;
    } else if i, x :| 0 <= i < |h.inputs| && x in h.inputs[i].to && b == x.block {
      var k :| 0 <= k < |h.inputs[i].to| && h.inputs[i].to[k] == x;
      assert g.inputs[i].to[k] == x;
      assert x in g.inputs[i].to;
    } else if i :| 0 <= i < |h.outputs| && h.outputs[i].Some? && b == h.outputs[i].value.block {
      assert g.outputs[i] == h.outputs[i];
    } else {
      assert b in Others(h.singles, cut);
      assert b in g.singles;
    }
  }

  lemma HoldsOnly(h: Block, cut: Cut, b: Block)
    requires h.Hier? && Covers(h, cut) && Child(Grouped(h, cut), b)
    ensures b == Shell(h, cut) || (Child(h, b) && b !in cut.group)
  {
    var w, g := Shell(h, cut), Grouped(h, cut);
    if e :| e in g.edges && (b == e.src.block || b == e.dst.block) {
      var x :| x in h.edges && !Inner(x, cut) && e == Moved(x, cut, w);
      MovedBlocks(x.src, cut, w);
      MovedBlocks(x.dst, cut, w);
    } else if i, x :| 0 <= i < |g.inputs| && x in g.inputs[i].to && b == x.block {
      var k :| 0 <= k < |g.inputs[i].to| && g.inputs[i].to[k] == x;
      var y := h.inputs[i].to[k];
      assert y in h.inputs[i].to;
      MovedBlocks(y, cut, w);
    } else if i :| 0 <= i < |g.outputs| && g.outputs[i].Some? && b == g.outputs[i].value.block {
      MovedBlocks(h.outputs[i].value, cut, w);
    } else {
      assert b in g.singles;
      assert b == w || b in Others(h.singles, cut);
    }
  }

  lemma GroupedHolds(h: Block, cut: Cut, b: Block)
    requires h.Hier? && Covers(h, cut)
    ensures Child(Grouped(h, cut), b) <==> b == Shell(h, cut) || (Child(h, b) && b !in cut.group)
  {
    var w, g := Shell(h, cut), Grouped(h, cut);
    assert g.singles[|g.singles| - 1] == w;
    assert w in g.singles;
    if Child(h, b) && b !in cut.group {
      StillHolds(h, cut, b);
    }
    if Child(g, b) {
      HoldsOnly(h, cut, b);
    }
  }

  lemma GroupedResolve(h: Block, cut: Cut)
    requires h.Hier?
    ensures OwnResolve(h) <==> OwnResolve(Shell(h, cut)) && OwnResolve(Grouped(h, cut))
  {
    EdgesCut(h.edges, h, cut);
    OwnIsAll(h);
    OwnIsAll(Shell(h, cut));
    OwnIsAll(Grouped(h, cut));
  }

  lemma OwnIsAll(h: Block)
    requires h.Hier?
    ensures OwnResolve(h) <==> AllOfThem(h.edges)
  {
  }

  lemma GroupedGood(h: Block, cut: Cut)
    requires h.Hier? && Covers(h, cut)
    ensures Good(Grouped(h, cut)) <==> Good(h)
  {
    var w, g := Shell(h, cut), Grouped(h, cut);
    GroupedResolve(h, cut);
    GroupedInside(h, cut);
    SameInsideWired(h, g);
    forall b
      ensures Child(w, b) <==> b in cut.group
      ensures Child(g, b) <==> b == w || (Child(h, b) && b !in cut.group)
    {
      ShellHolds(h, cut, b);
      GroupedHolds(h, cut, b);
    }
    GoodAgree(h, w, g, cut.group);
  }

  lemma GoodSplit(h: Block)
    requires h.Hier?
    ensures Good(h) <==> OwnResolve(h) && OwnWired(h) && ChildrenGood(h)
  {
    AllSplit(h);
  }

  ghost predicate ChildrenGood(h: Block) { forall c :: Child(h, c) ==> Good(c) }

  lemma GoodAgree(h: Block, w: Block, g: Block, group: seq<Block>)
    requires h.Hier? && w.Hier? && g.Hier? && OwnWired(w) && (OwnWired(g) <==> OwnWired(h))
    requires OwnResolve(h) <==> OwnResolve(w) && OwnResolve(g)
    requires forall b :: b in group ==> Child(h, b)
    requires forall b :: Child(w, b) <==> b in group
    requires forall b :: Child(g, b) <==> b == w || (Child(h, b) && b !in group)
    ensures Good(g) <==> Good(h)
  {
    GoodSplit(h);
    GoodSplit(w);
    GoodSplit(g);
    assert Child(g, w);
  }

  lemma FlatParts(h: Block)
    requires h.Hier?
    ensures FlatOf(h) == EdgesFlat(h.edges) + Gather(FlatOf, Used(h))
  {
    KidsGather(h, Used(h));
  }

  lemma GroupedFlat(h: Block, cut: Cut)
    requires h.Hier? && Covers(h, cut) && !Child(h, Shell(h, cut))
    ensures multiset(FlatOf(Grouped(h, cut))) == multiset(FlatOf(h))
  {
    var w, g, kids := Shell(h, cut), Grouped(h, cut), Used(h);
    FlatParts(h);
    FlatParts(w);
    FlatParts(g);
    EdgesCut(h.edges, h, cut);
    CutInTwo(FlatOf, kids, cut);
    InShell(h, cut);
    InGrouped(h, cut);
  }

  lemma InShell(h: Block, cut: Cut)
    requires h.Hier? && Covers(h, cut)
    ensures multiset(Gather(FlatOf, Used(Shell(h, cut)))) == multiset(Gather(FlatOf, Chosen(Used(h), cut)))
  {
    UsedDistinct(Shell(h, cut));
    UsedDistinct(h);
    CutDistinct(Used(h), cut);
    forall b: Block
      ensures b in Used(Shell(h, cut)) <==> b in Chosen(Used(h), cut)
    {
      ShellHolds(h, cut, b);
    }
    OrderAside(FlatOf, Used(Shell(h, cut)), Chosen(Used(h), cut));
  }

  lemma InGrouped(h: Block, cut: Cut)
    requires h.Hier? && Covers(h, cut) && !Child(h, Shell(h, cut))
    ensures multiset(Gather(FlatOf, Used(Grouped(h, cut)))) ==
            multiset(Gather(FlatOf, Others(Used(h), cut))) + multiset(FlatOf(Shell(h, cut)))
  {
    var w, g, rest := Shell(h, cut), Grouped(h, cut), Others(Used(h), cut);
    UsedDistinct(g);
    UsedDistinct(h);
    CutDistinct(Used(h), cut);
    forall b: Block
      ensures b in Used(g) <==> b in rest + [w]
    {
      GroupedHolds(h, cut, b);
    }
    OrderAside(FlatOf, Used(g), rest + [w]);
    GatherMore(FlatOf, rest, w);
  }

  // ---- Replacing a child by one that is alike ----

  function SubBlock(b: Block, c: Block, w: Block): Block { if b == c then w else b }

  function Sub(e: Endpoint, c: Block, w: Block): Endpoint { Endpoint(SubBlock(e.block, c, w), e.port) }

  function SubBlocks(blocks: seq<Block>, c: Block, w: Block): (r: seq<Block>)
    ensures |r| == |blocks| && forall i :: 0 <= i < |r| ==> r[i] == SubBlock(blocks[i], c, w)
  {
    seq(|blocks|, i requires 0 <= i < |blocks| => SubBlock(blocks[i], c, w))
  }

  function SubAll(endps: seq<Endpoint>, c: Block, w: Block): (r: seq<Endpoint>)
    ensures |r| == |endps| && forall i :: 0 <= i < |r| ==> r[i] == Sub(endps[i], c, w)
  {
    seq(|endps|, i requires 0 <= i < |endps| => Sub(endps[i], c, w))
  }

  function SubEdge(e: Edge, c: Block, w: Block): Edge { Edge(Sub(e.src, c, w), Sub(e.dst, c, w)) }

  function SubEdges(edges: seq<Edge>, c: Block, w: Block): (r: seq<Edge>)
    ensures |r| == |edges| && forall i :: 0 <= i < |r| ==> r[i] == SubEdge(edges[i], c, w)
  {
    seq(|edges|, i requires 0 <= i < |edges| => SubEdge(edges[i], c, w))
  }

  function SubInputs(inputs: seq<Fan>, c: Block, w: Block): (r: seq<Fan>)
    ensures |r| == |inputs| && forall i :: 0 <= i < |r| ==> r[i] == Fan(SubAll(inputs[i].to, c, w))
  {
    seq(|inputs|, i requires 0 <= i < |inputs| => Fan(SubAll(inputs[i].to, c, w)))
  }

  function SubOutput(o: Option<Endpoint>, c: Block, w: Block): Option<Endpoint> {
    match o
    case None => None
    case Some(e) => Some(Sub(e, c, w))
  }

  function SubOutputs(outputs: seq<Option<Endpoint>>, c: Block, w: Block): (r: seq<Option<Endpoint>>)
    ensures |r| == |outputs| && forall i :: 0 <= i < |r| ==> r[i] == SubOutput(outputs[i], c, w)
  {
    seq(|outputs|, i requires 0 <= i < |outputs| => SubOutput(outputs[i], c, w))
  }

  /** h with its child c replaced by w. */
  function Rewired(h: Block, c: Block, w: Block): Block
    requires h.Hier?
  {
    Hier(h.id, SubEdges(h.edges, c, w), SubInputs(h.inputs, c, w), SubOutputs(h.outputs, c, w),
         SubBlocks(h.singles, c, w))
  }

  lemma SubSame(e: Endpoint, b: Block, b2: Block, isInput: bool)
    requires SamePorts(b, b2)
    ensures SameEnd(e, Sub(e, b, b2), isInput)
  {
    assert e == Endpoint(e.block, e.port);
    assert SameEnd(Endpoint(b2, e.port), Endpoint(b, e.port), isInput);
  }

  lemma RewiredInside(h: Block, b: Block, b2: Block)
    requires h.Hier? && SamePorts(b, b2)
    ensures SameInside(h, Rewired(h, b, b2))
  {
    var g := Rewired(h, b, b2);
    forall i | 0 <= i < |h.inputs|
      ensures SameFan(h.inputs[i], g.inputs[i])
    {
      forall k | 0 <= k < |h.inputs[i].to|
        ensures SameEnd(h.inputs[i].to[k], g.inputs[i].to[k], true)
      {
        SubSame(h.inputs[i].to[k], b, b2, true);
      }
    }
    forall i | 0 <= i < |h.outputs|
      ensures SameOutput(h.outputs[i], g.outputs[i])
    {
      if h.outputs[i].Some? {
        SubSame(h.outputs[i].value, b, b2, false);
      }
    }
  }

  lemma RewiredEdges(edges: seq<Edge>, b: Block, b2: Block)
    requires SamePorts(b, b2)
    ensures EdgesFlat(SubEdges(edges, b, b2)) == EdgesFlat(edges)
    ensures AllOfThem(SubEdges(edges, b, b2)) <==> AllOfThem(edges)
  {
    forall i | 0 <= i < |edges|
      ensures SameEdge(edges[i], SubEdges(edges, b, b2)[i])
    {
      SubSame(edges[i].src, b, b2, false);
      SubSame(edges[i].dst, b, b2, true);
    }
    EdgesSame(edges, SubEdges(edges, b, b2));
  }

  lemma UniqueSame(r: seq<Block>, x: Block, b: Block, b2: Block)
    requires b2 !in r && b2 != x
    ensures AddUnique(SubBlocks(r, b, b2), SubBlock(x, b, b2)) == SubBlocks(AddUnique(r, x), b, b2)
    ensures b2 !in AddUnique(r, x)
  {
    var s := SubBlocks(r, b, b2);
    if x in r {
      var i :| 0 <= i < |r| && r[i] == x;
      assert s[i] == SubBlock(x, b, b2);
    } else {
      assert SubBlock(x, b, b2) !in s;
    }
  }

  lemma {:induction false} BlocksSame(r: seq<Block>, endps: seq<Endpoint>, b: Block, b2: Block)
    requires b2 !in r && forall e :: e in endps ==> e.block != b2
    ensures AddBlocks(SubBlocks(r, b, b2), SubAll(endps, b, b2)) == SubBlocks(AddBlocks(r, endps), b, b2)
    ensures b2 !in AddBlocks(r, endps)
  {
    if endps != [] {
      var n := |endps| - 1;
      BlocksSame(r, endps[..n], b, b2);
      BlocksSplit(r, endps, n);
      BlocksSplit(SubBlocks(r, b, b2), SubAll(endps, b, b2), n);
      assert SubAll(endps, b, b2)[..n] == SubAll(endps[..n], b, b2);
      UniqueSame(AddBlocks(r, endps[..n]), endps[n].block, b, b2);
    }
  }

  lemma BlocksSplit(r: seq<Block>, endps: seq<Endpoint>, n: nat)
    requires |endps| == n + 1
    ensures AddBlocks(r, endps) == AddUnique(AddBlocks(r, endps[..n]), endps[n].block)
  {
  }

  lemma {:induction false} EdgeBlocksSame(edges: seq<Edge>, b: Block, b2: Block)
    requires forall e :: e in edges ==> e.src.block != b2 && e.dst.block != b2
    ensures EdgeBlocks(SubEdges(edges, b, b2)) == SubBlocks(EdgeBlocks(edges), b, b2)
    ensures b2 !in EdgeBlocks(edges)
  {
    if edges != [] {
      var n := |edges| - 1;
      EdgeBlocksSame(edges[..n], b, b2);
      assert SubEdges(edges, b, b2)[..n] == SubEdges(edges[..n], b, b2);
      var r := EdgeBlocks(edges[..n]);
      UniqueSame(r, edges[n].src.block, b, b2);
      UniqueSame(AddUnique(r, edges[n].src.block), edges[n].dst.block, b, b2);
    }
  }

  lemma {:induction false} SinglesSame(r: seq<Block>, singles: seq<Block>, b: Block, b2: Block)
    requires b2 !in r && b2 !in singles
    ensures SingleBlocks(SubBlocks(r, b, b2), SubBlocks(singles, b, b2)) == SubBlocks(SingleBlocks(r, singles), b, b2)
    ensures b2 !in SingleBlocks(r, singles)
  {
    if singles != [] {
      var n := |singles| - 1;
      SinglesSame(r, singles[..n], b, b2);
      assert SubBlocks(singles, b, b2)[..n] == SubBlocks(singles[..n], b, b2);
      UniqueSame(SingleBlocks(r, singles[..n]), singles[n], b, b2);
    }
  }

  lemma {:induction false} InputsSame(r: seq<Block>, inputs: seq<Fan>, b: Block, b2: Block)
    requires b2 !in r && forall i, x :: 0 <= i < |inputs| && x in inputs[i].to ==> x.block != b2
    ensures InputBlocks(SubBlocks(r, b, b2), SubInputs(inputs, b, b2)) == SubBlocks(InputBlocks(r, inputs), b, b2)
    ensures b2 !in InputBlocks(r, inputs)
  {
    if inputs != [] {
      var n := |inputs| - 1;
      InputsSame(r, inputs[..n], b, b2);
      assert SubInputs(inputs, b, b2)[..n] == SubInputs(inputs[..n], b, b2);
      BlocksSame(InputBlocks(r, inputs[..n]), inputs[n].to, b, b2);
    }
  }

  lemma {:induction false} OutputsSame(r: seq<Block>, outputs: seq<Option<Endpoint>>, b: Block, b2: Block)
    requires b2 !in r && forall i :: 0 <= i < |outputs| && outputs[i].Some? ==> outputs[i].value.block != b2
    ensures OutputBlocks(SubBlocks(r, b, b2), SubOutputs(outputs, b, b2)) == SubBlocks(OutputBlocks(r, outputs), b, b2)
    ensures b2 !in OutputBlocks(r, outputs)
  {
    if outputs != [] {
      var n := |outputs| - 1;
      OutputsSame(r, outputs[..n], b, b2);
      OutputsSplit(r, outputs, n);
      OutputsSplit(SubBlocks(r, b, b2), SubOutputs(outputs, b, b2), n);
      assert SubOutputs(outputs, b, b2)[..n] == SubOutputs(outputs[..n], b, b2);
      OneOutputSame(OutputBlocks(r, outputs[..n]), outputs[n], b, b2);
    }
  }

  function AddOutput(r: seq<Block>, o: Option<Endpoint>): seq<Block> {
    if o.Some? then AddUnique(r, o.value.block) else r
  }

  lemma OutputsSplit(r: seq<Block>, outputs: seq<Option<Endpoint>>, n: nat)
    requires |outputs| == n + 1
    ensures OutputBlocks(r, outputs) == AddOutput(OutputBlocks(r, outputs[..n]), outputs[n])
  {
  }

  lemma OneOutputSame(r: seq<Block>, o: Option<Endpoint>, b: Block, b2: Block)
    requires b2 !in r && (o.Some? ==> o.value.block != b2)
    ensures AddOutput(SubBlocks(r, b, b2), SubOutput(o, b, b2)) == SubBlocks(AddOutput(r, o), b, b2)
    ensures b2 !in AddOutput(r, o)
  {
    if o.Some? {
      UniqueSame(r, o.value.block, b, b2);
    }
  }

  lemma UsedSame(h: Block, b: Block, b2: Block)
    requires h.Hier? && !Child(h, b2)
    ensures Used(Rewired(h, b, b2)) == SubBlocks(Used(h), b, b2)
  {
    var edges := EdgeBlocks(h.edges);
    var singles := SingleBlocks(edges, h.singles);
    var inputs := InputBlocks(singles, h.inputs);
    EdgeBlocksSame(h.edges, b, b2);
    SinglesSame(edges, h.singles, b, b2);
    InputsSame(singles, h.inputs, b, b2);
    OutputsSame(inputs, h.outputs, b, b2);
  }

  lemma {:induction false} GatherSame(f: Block -> seq<Edge>, blocks: seq<Block>, b: Block, b2: Block)
    requires multiset(f(b2)) == multiset(f(b))
    ensures multiset(Gather(f, SubBlocks(blocks, b, b2))) == multiset(Gather(f, blocks))
  {
    if blocks != [] {
      var n := |blocks| - 1;
      assert SubBlocks(blocks, b, b2)[..n] == SubBlocks(blocks[..n], b, b2);
      GatherSame(f, blocks[..n], b, b2);
    }
  }

  lemma RewiredGood(h: Block, g: Block, kids: seq<Block>, b: Block, b2: Block)
    requires h.Hier? && g.Hier? && kids == Used(h) && Used(g) == SubBlocks(kids, b, b2) && Alike(b, b2)
    requires (OwnResolve(g) <==> OwnResolve(h)) && (OwnWired(g) <==> OwnWired(h))
    ensures Good(g) <==> Good(h)
  {
    GoodParts(h, kids);
    GoodParts(g, Used(g));
    KidsGood(kids, b, b2);
  }

  lemma KidsGood(kids: seq<Block>, b: Block, b2: Block)
    requires Alike(b, b2)
    ensures (forall k :: 0 <= k < |kids| ==> Good(SubBlocks(kids, b, b2)[k])) <==>
            forall k :: 0 <= k < |kids| ==> Good(kids[k])
  {
    assert forall k :: 0 <= k < |kids| ==> (Good(SubBlocks(kids, b, b2)[k]) <==> Good(kids[k]));
  }

  /** Where a block's child is replaced by one that is alike, the block stays alike. */
  lemma Congruent(h: Block, b: Block, b2: Block)
    requires h.Hier? && SamePorts(b, b2) && Alike(b, b2) && !Child(h, b2)
    ensures Alike(h, Rewired(h, b, b2)) && SamePorts(h, Rewired(h, b, b2))
  {
    var g := Rewired(h, b, b2);
    RewiredInside(h, b, b2);
    SameInsideOut(h, g);
    SameInsideWired(h, g);
    RewiredEdges(h.edges, b, b2);
    assert OwnResolve(g) <==> AllOfThem(g.edges);
    UsedSame(h, b, b2);
    FlatParts(h);
    FlatParts(g);
    GatherSame(FlatOf, Used(h), b, b2);
    RewiredGood(h, g, Used(h), b, b2);
  }

  // ---- Anywhere in the tree ----

  /** A way down: each block a child of the one before. */
  ghost predicate Way(path: seq<Block>) {
    path != [] && (|path| > 1 ==> path[0].Hier? && Child(path[0], path[1]) && Way(path[1..]))
  }

  function Last(path: seq<Block>): Block
    requires path != []
  {
    path[|path| - 1]
  }

  /** The first block of the way, with w in the place of the last one. */
  ghost function RewiredAt(path: seq<Block>, w: Block): Block
    requires Way(path)
  {
    if |path| == 1 then w else Rewired(path[0], path[1], RewiredAt(path[1..], w))
  }

  lemma SubChild(h: Block, c: Block, w: Block, b: Block)
    requires h.Hier? && Child(h, b)
    ensures Child(Rewired(h, c, w), SubBlock(b, c, w))
  {
    var g := Rewired(h, c, w);
    if e :| e in h.edges && (b == e.src.block || b == e.dst.block) {
      var i :| 0 <= i < |h.edges| && h.edges[i] == e;
      assert g.edges[i] in g.edges;
    } else if i, x :| 0 <= i < |h.inputs| && x in h.inputs[i].to && b == x.block {
      var k :| 0 <= k < |h.inputs[i].to| && h.inputs[i].to[k] == x;
      assert g.inputs[i].to[k] in g.inputs[i].to;
    } else if i :| 0 <= i < |h.outputs| && h.outputs[i].Some? && b == h.outputs[i].value.block {
      assert g.outputs[i].Some?;
    } else {
      var i :| 0 <= i < |h.singles| && h.singles[i] == b;
      assert g.singles[i] in g.singles;
    }
  }

  lemma DeepIsUnder(root: Block, c: Block, b: Block)
    requires Child(root, c) && Under(c, b)
    ensures Under(root, b)
  {
    ChildIsSmaller(root, c);
  }

  lemma {:induction false} HoldsNew(path: seq<Block>, g: Block, w: Block)
    requires Way(path) && Under(g, w)
    ensures Under(RewiredAt(path, g), w)
  {
    if |path| > 1 {
      HoldsNew(path[1..], g, w);
      var b2 := RewiredAt(path[1..], g);
      SubChild(path[0], path[1], b2, path[1]);
      DeepIsUnder(RewiredAt(path, g), b2, w);
    }
  }

  /** What holds the new block is not there yet. */
  lemma NewToIt(path: seq<Block>, g: Block, w: Block)
    requires Way(path) && |path| > 1 && Under(g, w) && !Under(path[0], w)
    ensures !Child(path[0], RewiredAt(path[1..], g)) && !Under(path[1], w)
  {
    var b2 := RewiredAt(path[1..], g);
    HoldsNew(path[1..], g, w);
    if Child(path[0], b2) {
      DeepIsUnder(path[0], b2, w);
    }
    if Under(path[1], w) {
      DeepIsUnder(path[0], path[1], w);
    }
  }

  /** Every rewired block on the way leads each of its ports where it led before, and is alike. */
  lemma {:induction false} RewiredAlike(path: seq<Block>, g: Block, w: Block)
    requires Way(path) && Under(g, w) && !Under(path[0], w)
    requires SamePorts(Last(path), g) && Alike(Last(path), g)
    ensures SamePorts(path[0], RewiredAt(path, g)) && Alike(path[0], RewiredAt(path, g))
    decreases |path|
  {
    if |path| > 1 {
      NewToIt(path, g, w);
      RewiredAlike(path[1..], g, w);
      Congruent(path[0], path[1], RewiredAt(path[1..], g));
    }
  }

  lemma {:induction false} WayDown(path: seq<Block>, b: Block)
    requires Way(path) && Under(Last(path), b)
    ensures Under(path[0], b)
    decreases |path|
  {
    if |path| > 1 {
      WayDown(path[1..], b);
      DeepIsUnder(path[0], path[1], b);
    }
  }

  // ---- Proper, order aside ----

  /** Each edge once, and each input with one driver. */
  ghost predicate OneDriver(m: multiset<Edge>) {
    (forall e :: e in m ==> m[e] == 1) && forall e, f :: e in m && f in m && e.dst == f.dst ==> e == f
  }

  lemma OnceOnly(es: seq<Edge>, i: nat, j: nat)
    requires i < j < |es| && es[i] == es[j]
    ensures multiset(es)[es[i]] > 1
  {
    assert es == es[..j] + [es[j]] + es[j + 1..];
    assert es[..j][i] in es[..j];
  }

  lemma {:induction false} TwiceThere(es: seq<Edge>, e: Edge) returns (i: nat, j: nat)
    requires multiset(es)[e] > 1
    ensures i < j < |es| && es[i] == e && es[j] == e
  {
    var n := |es| - 1;
    assert es == es[..n] + [es[n]];
    if es[n] == e {
      assert e in multiset(es[..n]);
      i :| 0 <= i < n && es[i] == e;
      j := n;
    } else {
      i, j := TwiceThere(es[..n], e);
    }
  }

  lemma ProperIsOneDriver(es: seq<Edge>)
    ensures Proper(es) <==> (forall e :: e in es ==> FitsAt([e], 0)) && OneDriver(multiset(es))
  {
    if Proper(es) {
      forall e | e in es
        ensures FitsAt([e], 0) && multiset(es)[e] == 1
      {
        var i :| 0 <= i < |es| && es[i] == e;
        assert FitsAt(es, i);
        if multiset(es)[e] > 1 {
          var a, b := TwiceThere(es, e);
        }
      }
      forall e, f | e in multiset(es) && f in multiset(es) && e.dst == f.dst
        ensures e == f
      {
        var i :| 0 <= i < |es| && es[i] == e;
        var j :| 0 <= j < |es| && es[j] == f;
      }
    }
    if (forall e :: e in es ==> FitsAt([e], 0)) && OneDriver(multiset(es)) {
      forall i | 0 <= i < |es|
        ensures FitsAt(es, i)
      {
        assert es[i] in es && FitsAt([es[i]], 0);
      }
      forall i, j | 0 <= i < j < |es|
        ensures es[i].dst != es[j].dst
      {
        assert es[i] in multiset(es) && es[j] in multiset(es);
        if es[i] == es[j] {
          OnceOnly(es, i, j);
        }
      }
    }
  }

  lemma ProperAside(es: seq<Edge>, fs: seq<Edge>)
    requires multiset(es) == multiset(fs)
    ensures Proper(es) <==> Proper(fs)
    ensures forall e :: e in es <==> e in fs
  {
    assert forall e :: e in es <==> e in multiset(es);
    assert forall e :: e in fs <==> e in multiset(fs);
    ProperIsOneDriver(es);
    ProperIsOneDriver(fs);
  }

  lemma JoinsSame(root: Block, g: Block)
    requires forall e :: e in FlatOf(g) <==> e in FlatOf(root)
    ensures forall s, d :: Joins(g, s, d) <==> Joins(root, s, d)
  {
    forall s, d
      ensures Joins(g, s, d) <==> Joins(root, s, d)
    {
      FlatIsJoins(g, s, d);
      FlatIsJoins(root, s, d);
      assert Edge(s, d) in FlatOf(g) <==> Edge(s, d) in FlatOf(root);
    }
  }

  /** Signal paths join the same leaf ports in both trees. */
  ghost predicate SamePaths(root: Block, g: Block) {
    forall s: Endpoint, d: Endpoint :: s.block.Leaf? && d.block.Leaf? ==>
      (Connected(g, s, d) <==> Connected(root, s, d))
  }

  lemma PathsSame(root: Block, g: Block)
    requires AllResolve(root) && AllResolve(g) && forall s, d :: Joins(g, s, d) <==> Joins(root, s, d)
    ensures SamePaths(root, g)
  {
    forall s: Endpoint, d: Endpoint | s.block.Leaf? && d.block.Leaf?
      ensures Connected(g, s, d) <==> Connected(root, s, d)
    {
      JoinsIsConnected(root, s, d);
      JoinsIsConnected(g, s, d);
    }
  }

  /** Putting a group of blocks, anywhere in the tree, into one more, new, hierarchical block changes
      nothing: flattening succeeds on the one tree exactly if it does on the other, the flat edges are
      the same, every port of the tree leads where it did, and signal paths join the same leaf ports. */
  lemma WrappingKeepsEdges(path: seq<Block>, cut: Cut)
    requires Way(path) && Last(path).Hier? && Covers(Last(path), cut)
    requires !Under(path[0], Shell(Last(path), cut))
    ensures var root, g := path[0], RewiredAt(path, Grouped(Last(path), cut));
      && (AllResolve(g) && AllWired(g) <==> AllResolve(root) && AllWired(root))
      && (Proper(FlatOf(g)) <==> Proper(FlatOf(root)))
      && multiset(FlatOf(g)) == multiset(FlatOf(root))
      && SamePorts(root, g)
      && (forall s, d :: Joins(g, s, d) <==> Joins(root, s, d))
      && (Good(root) ==> SamePaths(root, g))
  {
    var h, root := Last(path), path[0];
    var w, g := Shell(h, cut), Grouped(h, cut);
    GroupedHolds(h, cut, w);
    DeepIsUnder(g, w, w);
    if Child(h, w) {
      DeepIsUnder(h, w, w);
      WayDown(path, w);
    }
    GroupedInside(h, cut);
    SameInsideOut(h, g);
    GroupedFlat(h, cut);
    GroupedGood(h, cut);
    RewiredAlike(path, g, w);
    ProperAside(FlatOf(RewiredAt(path, g)), FlatOf(root));
    JoinsSame(root, RewiredAt(path, g));
    if Good(root) {
      PathsSame(root, RewiredAt(path, g));
    }
  }

  // ---- Any group can be put together ----

  function Theirs(endps: seq<Endpoint>, group: seq<Block>): (r: seq<Endpoint>)
    ensures forall e :: e in r <==> e in endps && e.block in group
  {
    if endps == [] then []
    else
      var n := |endps| - 1;
      assert endps == endps[..n] + [endps[n]];
      Theirs(endps[..n], group) + if endps[n].block in group then [endps[n]] else []
  }

  function AllFanned(inputs: seq<Fan>): (r: seq<Endpoint>)
    ensures forall i, x :: 0 <= i < |inputs| && x in inputs[i].to ==> x in r
  {
    if inputs == [] then []
    else
      var n := |inputs| - 1;
      assert forall i :: 0 <= i < n ==> inputs[..n][i] == inputs[i];
      AllFanned(inputs[..n]) + inputs[n].to
  }

  function AllOutputs(outputs: seq<Option<Endpoint>>): (r: seq<Endpoint>)
    ensures forall i :: 0 <= i < |outputs| && outputs[i].Some? ==> outputs[i].value in r
  {
    if outputs == [] then []
    else
      var n := |outputs| - 1;
      assert forall i :: 0 <= i < n ==> outputs[..n][i] == outputs[i];
      AllOutputs(outputs[..n]) + if outputs[n].Some? then [outputs[n].value] else []
  }

  /** A new block with every port of the group that h uses at all. */
  function FullCut(h: Block, group: seq<Block>, id: nat): Cut
    requires h.Hier?
  {
    Cut(group,
        Theirs(seq(|h.edges|, i requires 0 <= i < |h.edges| => h.edges[i].dst) + AllFanned(h.inputs), group),
        Theirs(seq(|h.edges|, i requires 0 <= i < |h.edges| => h.edges[i].src) + AllOutputs(h.outputs), group),
        id)
  }

  lemma FullCutCovers(h: Block, group: seq<Block>, id: nat)
    requires h.Hier? && forall b :: b in group ==> Child(h, b)
    ensures Covers(h, FullCut(h, group, id))
  {
    var cut := FullCut(h, group, id);
    var srcs := seq(|h.edges|, i requires 0 <= i < |h.edges| => h.edges[i].src);
    var dsts := seq(|h.edges|, i requires 0 <= i < |h.edges| => h.edges[i].dst);
    forall e | e in h.edges
      ensures SrcCovered(e.src, cut) && DstCovered(e.dst, cut)
    {
      var i :| 0 <= i < |h.edges| && h.edges[i] == e;
      assert srcs[i] == e.src && dsts[i] == e.dst;
    }
  }

  function Larger(a: nat, b: nat): (r: nat)
    ensures r >= a && r >= b
  {
    if a < b then b else a
  }

  /** A number that no block of the tree has. */
  lemma {:induction false} NewId(root: Block) returns (id: nat)
    ensures forall b :: Under(root, b) ==> b.id < id
    decreases root, |if root.Hier? then Used(root) else []| + 1
  {
    id := root.id + 1;
    if root.Hier? {
      var more := NewIds(root, Used(root));
      id := Larger(id, more);
      forall b | Under(root, b)
        ensures b.id < id
      {
        if b != root {
          var c :| Child(root, c) && c < root && Under(c, b);
          assert c in Used(root);
        }
      }
    }
  }

  lemma {:induction false} NewIds(root: Block, blocks: seq<Block>) returns (id: nat)
    requires Within(root, blocks)
    ensures forall c, b :: c in blocks && Under(c, b) ==> b.id < id
    decreases root, |blocks|
  {
    if blocks == [] {
      id := 0;
    } else {
      var n := |blocks| - 1;
      var before := NewIds(root, blocks[..n]);
      var last := NewId(blocks[n]);
      id := Larger(before, last);
      assert blocks == blocks[..n] + [blocks[n]];
    }
  }

  /** So any children of any block in the tree can be put together without changing anything. */
  lemma AnyGroup(path: seq<Block>, group: seq<Block>) returns (cut: Cut)
    requires Way(path) && Last(path).Hier? && forall b :: b in group ==> Child(Last(path), b)
    ensures cut.group == group && Covers(Last(path), cut) && !Under(path[0], Shell(Last(path), cut))
    ensures var root, g := path[0], RewiredAt(path, Grouped(Last(path), cut));
      (Good(g) <==> Good(root)) && multiset(FlatOf(g)) == multiset(FlatOf(root)) && (Good(root) ==> SamePaths(root, g))
  {
    var id := NewId(path[0]);
    cut := FullCut(Last(path), group, id);
    FullCutCovers(Last(path), group, id);
    WrappingKeepsEdges(path, cut);
  }
}
