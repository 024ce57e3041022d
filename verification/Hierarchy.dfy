/** Compiling a hierarchy of blocks to a flat graph of its leaves. */
module Hierarchy {

  import opened Results
  import opened Rounding

  /** Item sizes; a signature without any is refused when it is made. */
  type Sizes = s: seq<nat> | s != [] witness [1]

  /** The ports on one side of a leaf: how many there may be (-1: any number), and their item sizes. */
  datatype Signature = Signature(maxStreams: int, sizes: Sizes)

  /** A hierarchical block holds edges between its children, the children's ports behind each of
      its own inputs, the one child port behind each of its outputs, and single blocks. */
  datatype Block =
    | Leaf(id: nat, ins: Signature, outs: Signature)
    | Hier(id: nat, edges: seq<Edge>, inputs: seq<Fan>, outputs: seq<Option<Endpoint>>, singles: seq<Block>)

  datatype Endpoint = Endpoint(block: Block, port: int)
  datatype Edge = Edge(src: Endpoint, dst: Endpoint)
  datatype Fan = Fan(to: seq<Endpoint>)

  // ---- Resolving ----

  function ResolveEndpoint(e: Endpoint, isInput: bool): Result<seq<Endpoint>>
    decreases e.block, 2
  {
    match e.block
    case Leaf(_, _, _) => Ok([e])
    case Hier(_, _, _, _, _) => ResolvePort(e.block, e.port, isInput)
  }

  function ResolvePort(h: Block, port: int, isInput: bool): Result<seq<Endpoint>>
    requires h.Hier?
    decreases h, 1
  {
    if isInput then
      if port < 0 || port >= |h.inputs| || h.inputs[port].to == [] then Err
      else
        assert h.inputs[port] < h;
        var r := ResolveAll(h, h.inputs[port].to);
        if r.Ok? && r.value == [] then Err else r
    else
      if port < 0 || port >= |h.outputs| || h.outputs[port].None? then Err
      else ResolveEndpoint(h.outputs[port].value, false)
  }

  /** The inputs behind a list of endpoints of h's children. */
  function ResolveAll(h: Block, endps: seq<Endpoint>): Result<seq<Endpoint>>
    requires forall e :: e in endps ==> e.block < h
    decreases h, 0, |endps|
  {
    if endps == [] then Ok([])
    else
      var first := ResolveEndpoint(endps[0], true);
      var rest := ResolveAll(h, endps[1..]);
      if first.Ok? && rest.Ok? then Ok(first.value + rest.value) else Err
  }

  // ---- Signal paths ----

  /** One step of a signal down into a hierarchical block's input, and up out of one of its outputs. */
  ghost predicate InStep(a: Endpoint, b: Endpoint) {
    a.block.Hier? && 0 <= a.port < |a.block.inputs| && b in a.block.inputs[a.port].to
  }

  ghost predicate OutStep(a: Endpoint, b: Endpoint) {
    b.block.Hier? && 0 <= b.port < |b.block.outputs| && b.block.outputs[b.port] == Some(a)
  }

  ghost predicate Child(h: Block, c: Block) {
    h.Hier? &&
    ( (exists e :: e in h.edges && (c == e.src.block || c == e.dst.block))
      || (exists i, x :: 0 <= i < |h.inputs| && x in h.inputs[i].to && c == x.block)
      || (exists i :: 0 <= i < |h.outputs| && h.outputs[i].Some? && c == h.outputs[i].value.block)
      || c in h.singles)
  }

  lemma ChildIsSmaller(h: Block, c: Block)
    requires Child(h, c)
    ensures c < h
  {
    if i, x :| 0 <= i < |h.inputs| && x in h.inputs[i].to && c == x.block {
      assert h.inputs[i] < h;
    }
  }

  /** h lies in the hierarchy of root. */
  ghost predicate Under(root: Block, h: Block)
    decreases root
  {
    h == root || exists c :: Child(root, c) && c < root && Under(c, h)
  }

  /** A port as signals see it: going out of a block, or into one. */
  datatype Node = Out(e: Endpoint) | In(e: Endpoint)

  ghost predicate Flows(root: Block, a: Node, b: Node) {
    if a.Out? && b.Out? then OutStep(a.e, b.e) && Under(root, b.e.block)
    else if a.Out? then exists h :: Wires(root, h, a.e, b.e)
    else b.In? && InStep(a.e, b.e)
  }

  ghost predicate Wires(root: Block, h: Block, a: Endpoint, b: Endpoint) {
    Under(root, h) && h.Hier? && Edge(a, b) in h.edges
  }

  ghost predicate Path(root: Block, p: seq<Node>) {
    forall i :: 0 <= i < |p| - 1 ==> FlowsAt(root, p, i)
  }

  ghost predicate FlowsAt(root: Block, p: seq<Node>, i: nat)
    requires i + 1 < |p|
  {
    Flows(root, p[i], p[i + 1])
  }

  /** A signal path from output s to input d. */
  ghost predicate Connected(root: Block, s: Endpoint, d: Endpoint) {
    exists p :: |p| > 0 && p[0] == Out(s) && p[|p| - 1] == In(d) && Path(root, p)
  }

  lemma {:induction false} UnderChild(root: Block, h: Block, c: Block)
    requires Under(root, h) && Child(h, c)
    ensures Under(root, c)
    decreases root
  {
    ChildIsSmaller(h, c);
    if h == root {
      assert Under(c, c);
    } else {
      var b :| Child(root, b) && b < root && Under(b, h);
      UnderChild(b, h, c);
    }
  }

  lemma HeadOrRest(endps: seq<Endpoint>, e: Endpoint)
    requires endps != []
    ensures e in endps <==> e == endps[0] || e in endps[1..]
  {
    assert endps == [endps[0]] + endps[1..];
  }

  /** What resolving a list finds is what resolving its members finds. */
  lemma {:induction false} ResolvesOf(h: Block, endps: seq<Endpoint>)
    requires forall e :: e in endps ==> e.block < h
    ensures ResolveAll(h, endps).Ok? <==> forall e :: e in endps ==> ResolveEndpoint(e, true).Ok?
    decreases |endps|
  {
    if endps != [] {
      ResolvesOf(h, endps[1..]);
      assert ResolveAll(h, endps).Ok? <==> ResolveEndpoint(endps[0], true).Ok? && ResolveAll(h, endps[1..]).Ok?;
      forall e: Endpoint
        ensures e in endps <==> e == endps[0] || e in endps[1..]
      {
        HeadOrRest(endps, e);
      }
    }
  }

  ghost predicate Behind(endps: seq<Endpoint>, d: Endpoint) {
    exists e :: e in endps && ResolveEndpoint(e, true).Ok? && d in ResolveEndpoint(e, true).value
  }

  lemma {:induction false} ResolvesTo(h: Block, endps: seq<Endpoint>, d: Endpoint)
    requires (forall e :: e in endps ==> e.block < h) && ResolveAll(h, endps).Ok?
    ensures d in ResolveAll(h, endps).value <==> Behind(endps, d)
    decreases |endps|
  {
    if endps != [] {
      var first, rest := ResolveEndpoint(endps[0], true), ResolveAll(h, endps[1..]);
      ResolvesTo(h, endps[1..], d);
      assert ResolveAll(h, endps).value == first.value + rest.value;
      if d in first.value {
        assert endps[0] in endps;
      }
      if Behind(endps, d) {
        var e :| e in endps && ResolveEndpoint(e, true).Ok? && d in ResolveEndpoint(e, true).value;
        HeadOrRest(endps, e);
      }
    }
  }

  lemma PortsOf(h: Block, port: int)
    requires h.Hier? && 0 <= port < |h.inputs| && ResolvePort(h, port, true).Ok?
    ensures forall x :: x in h.inputs[port].to ==> x.block < h && ResolveEndpoint(x, true).Ok?
    ensures forall d :: d in ResolvePort(h, port, true).value <==> Behind(h.inputs[port].to, d)
  {
    assert h.inputs[port] < h;
    ResolvesOf(h, h.inputs[port].to);
    forall d: Endpoint
      ensures d in ResolvePort(h, port, true).value <==> Behind(h.inputs[port].to, d)
    {
      ResolvesTo(h, h.inputs[port].to, d);
    }
  }

  lemma PathCons(root: Block, n: Node, q: seq<Node>)
    requires Path(root, q) && q != [] && Flows(root, n, q[0])
    ensures Path(root, [n] + q)
  {
    var p := [n] + q;
    forall i | 0 <= i < |p| - 1
      ensures FlowsAt(root, p, i)
    {
      if i > 0 {
        assert FlowsAt(root, q, i - 1);
      }
    }
  }

  lemma PathJoin(root: Block, p: seq<Node>, q: seq<Node>)
    requires Path(root, p) && Path(root, q) && p != [] && q != [] && Flows(root, p[|p| - 1], q[0])
    ensures Path(root, p + q)
  {
    forall i | 0 <= i < |p + q| - 1
      ensures FlowsAt(root, p + q, i)
    {
      if i < |p| - 1 {
        assert FlowsAt(root, p, i);
      } else if i >= |p| {
        assert FlowsAt(root, q, i - |p|);
      }
    }
  }

  lemma PathPart(root: Block, p: seq<Node>, i: nat, j: nat)
    requires Path(root, p) && i <= j <= |p|
    ensures Path(root, p[i..j])
  {
    forall k | 0 <= k < j - i - 1
      ensures FlowsAt(root, p[i..j], k)
    {
      assert FlowsAt(root, p, i + k);
    }
  }

  lemma {:induction false} DownPath(root: Block, e: Endpoint, d: Endpoint) returns (p: seq<Node>)
    requires ResolveEndpoint(e, true).Ok? && d in ResolveEndpoint(e, true).value
    ensures |p| > 0 && p[0] == In(e) && p[|p| - 1] == In(d) && Path(root, p) && d.block.Leaf?
    decreases e.block
  {
    if e.block.Leaf? {
      p := [In(e)];
    } else {
      PortsOf(e.block, e.port);
      assert Behind(e.block.inputs[e.port].to, d);
      var x :| x in e.block.inputs[e.port].to && ResolveEndpoint(x, true).Ok? && d in ResolveEndpoint(x, true).value;
      var q := DownPath(root, x, d);
      PathCons(root, In(e), q);
      p := [In(e)] + q;
    }
  }

  lemma {:induction false} UpPath(root: Block, s: Endpoint, e: Endpoint) returns (p: seq<Node>)
    requires ResolveEndpoint(e, false).Ok? && s in ResolveEndpoint(e, false).value && Under(root, e.block)
    ensures |p| > 0 && p[0] == Out(s) && p[|p| - 1] == Out(e) && Path(root, p) && s.block.Leaf?
    decreases e.block
  {
    if e.block.Leaf? {
      p := [Out(e)];
    } else {
      var x := e.block.outputs[e.port].value;
      assert Child(e.block, x.block);
      UnderChild(root, e.block, x.block);
      var q := UpPath(root, s, x);
      PathJoin(root, q, [Out(e)]);
      p := q + [Out(e)];
    }
  }

  /** A signal that goes down ends at one of the resolved inputs. */
  lemma {:induction false} DownIsResolved(root: Block, p: seq<Node>, e: Endpoint, d: Endpoint)
    requires Path(root, p) && |p| > 0 && p[0] == In(e) && p[|p| - 1] == In(d) && d.block.Leaf?
    requires ResolveEndpoint(e, true).Ok?
    ensures d in ResolveEndpoint(e, true).value
    decreases |p|
  {
    if |p| > 1 {
      assert FlowsAt(root, p, 0);
      var x := p[1].e;
      PortsOf(e.block, e.port);
      PathPart(root, p, 1, |p|);
      assert p[1..|p|] == p[1..];
      DownIsResolved(root, p[1..], x, d);
      assert Behind(e.block.inputs[e.port].to, d);
    }
  }

  /** A signal that has only come up so far comes from the resolved output. */
  lemma {:induction false} UpIsResolved(root: Block, p: seq<Node>, s: Endpoint, e: Endpoint)
    requires Path(root, p) && |p| > 0 && p[0] == Out(s) && p[|p| - 1] == Out(e) && s.block.Leaf?
    requires ResolveEndpoint(e, false).Ok?
    ensures s in ResolveEndpoint(e, false).value
    decreases |p|
  {
    if |p| > 1 {
      var n := |p| - 1;
      assert FlowsAt(root, p, n - 1);
      PathPart(root, p, 0, n);
      assert p[0..n] == p[..n];
      UpIsResolved(root, p[..n], s, p[n - 1].e);
    }
  }

  // ---- Flat edges ----

  /** An edge of h, resolved at both ends. */
  ghost predicate Made(h: Block, e: Edge, s: Endpoint, d: Endpoint) {
    && h.Hier? && e in h.edges
    && ResolveEndpoint(e.src, false).Ok? && s in ResolveEndpoint(e.src, false).value
    && ResolveEndpoint(e.dst, true).Ok? && d in ResolveEndpoint(e.dst, true).value
  }

  ghost predicate Joins(root: Block, s: Endpoint, d: Endpoint) {
    exists h, e :: Under(root, h) && Made(h, e, s, d)
  }

  ghost predicate OwnResolve(h: Block) {
    h.Hier? ==> forall e :: e in h.edges ==> Resolves(e)
  }

  predicate Resolves(e: Edge) { ResolveEndpoint(e.src, false).Ok? && ResolveEndpoint(e.dst, true).Ok? }

  /** Every port of a hierarchical block is connected inside. */
  ghost predicate OwnWired(h: Block) {
    h.Hier? ==>
      && (forall i :: 0 <= i < |h.inputs| ==> h.inputs[i].to != [])
      && forall i :: 0 <= i < |h.outputs| ==> h.outputs[i].Some?
  }

  ghost predicate AllResolve(root: Block) { forall h :: Under(root, h) ==> OwnResolve(h) }

  ghost predicate AllWired(root: Block) { forall h :: Under(root, h) ==> OwnWired(h) }

  /** Where everything can be resolved, the resolved edges are exactly the leaf-to-leaf signal paths. */
  lemma JoinsIsConnected(root: Block, s: Endpoint, d: Endpoint)
    requires AllResolve(root) && s.block.Leaf? && d.block.Leaf?
    ensures Joins(root, s, d) <==> Connected(root, s, d)
  {
    if Joins(root, s, d) {
      JoinsConnects(root, s, d);
    }
    if Connected(root, s, d) {
      ConnectedJoins(root, s, d);
    }
  }

  lemma JoinsConnects(root: Block, s: Endpoint, d: Endpoint)
    requires Joins(root, s, d)
    ensures Connected(root, s, d)
  {
    var h, e :| Under(root, h) && Made(h, e, s, d);
    assert Child(h, e.src.block);
    UnderChild(root, h, e.src.block);
    var p := UpPath(root, s, e.src);
    var q := DownPath(root, e.dst, d);
    assert e == Edge(e.src, e.dst);
    assert Wires(root, h, e.src, e.dst);
    PathJoin(root, p, q);
    assert (p + q)[0] == Out(s) && (p + q)[|p + q| - 1] == In(d);
  }

  lemma {:induction false} Crossing(root: Block, p: seq<Node>) returns (k: nat)
    requires Path(root, p) && |p| > 0 && p[0].Out? && p[|p| - 1].In?
    ensures k + 1 < |p| && p[k].Out? && p[k + 1].In?
    decreases |p|
  {
    var n := |p| - 1;
    if p[n - 1].Out? {
      k := n - 1;
    } else {
      PathPart(root, p, 0, n);
      assert p[0..n] == p[..n];
      k := Crossing(root, p[..n]);
    }
  }

  lemma ConnectedJoins(root: Block, s: Endpoint, d: Endpoint)
    requires AllResolve(root) && s.block.Leaf? && d.block.Leaf? && Connected(root, s, d)
    ensures Joins(root, s, d)
  {
    var p: seq<Node> :| |p| > 0 && p[0] == Out(s) && p[|p| - 1] == In(d) && Path(root, p);
    var k := Crossing(root, p);
    assert FlowsAt(root, p, k);
    var a: Endpoint := p[k].e;
    var b: Endpoint := p[k + 1].e;
    var h :| Wires(root, h, a, b);
    assert OwnResolve(h) && Edge(a, b) in h.edges;
    assert Resolves(Edge(a, b));
    PathPart(root, p, 0, k + 1);
    UpIsResolved(root, p[0..k + 1], s, a);
    PathPart(root, p, k + 1, |p|);
    DownIsResolved(root, p[k + 1..|p|], b, d);
    assert Made(h, Edge(a, b), s, d);
  }

  // ---- Flattening ----

  lemma JoinsSplit(h: Block, s: Endpoint, d: Endpoint)
    ensures Joins(h, s, d) <==> (exists e :: Made(h, e, s, d)) || exists c :: Child(h, c) && Joins(c, s, d)
  {
    if Joins(h, s, d) {
      var b, e :| Under(h, b) && Made(b, e, s, d);
      if b != h {
        var c :| Child(h, c) && c < h && Under(c, b);
        assert Joins(c, s, d);
      }
    }
    if c :| Child(h, c) && Joins(c, s, d) {
      ChildIsSmaller(h, c);
      var b, e :| Under(c, b) && Made(b, e, s, d);
      assert Under(h, b);
    }
    if e :| Made(h, e, s, d) {
      assert Under(h, h);
    }
  }

  lemma AllSplit(h: Block)
    ensures AllResolve(h) <==> OwnResolve(h) && forall c :: Child(h, c) ==> AllResolve(c)
    ensures AllWired(h) <==> OwnWired(h) && forall c :: Child(h, c) ==> AllWired(c)
  {
    assert Under(h, h);
    forall c, b | Child(h, c) && Under(c, b)
      ensures Under(h, b)
    {
      ChildIsSmaller(h, c);
    }
    forall b | Under(h, b) && b != h
      ensures exists c :: Child(h, c) && Under(c, b)
    {
    }
  }

  // ---- The flat edges, in the order in which they are connected ----

  function Row(s: Endpoint, dsts: seq<Endpoint>): (r: seq<Edge>)
    ensures |r| == |dsts|
  {
    seq(|dsts|, j requires 0 <= j < |dsts| => Edge(s, dsts[j]))
  }

  function Product(srcs: seq<Endpoint>, dsts: seq<Endpoint>): seq<Edge> {
    if srcs == [] then [] else Product(srcs[..|srcs| - 1], dsts) + Row(srcs[|srcs| - 1], dsts)
  }

  function EdgeFlat(e: Edge): seq<Edge> {
    var srcEndps, dstEndps := ResolveEndpoint(e.src, false), ResolveEndpoint(e.dst, true);
    if srcEndps.Ok? && dstEndps.Ok? then Product(srcEndps.value, dstEndps.value) else []
  }

  function EdgesFlat(es: seq<Edge>): seq<Edge> {
    if es == [] then [] else EdgesFlat(es[..|es| - 1]) + EdgeFlat(es[|es| - 1])
  }

  /** All leaf-to-leaf edges of h and of what lies in it. */
  function FlatOf(h: Block): seq<Edge>
    decreases h, 1
  {
    if h.Leaf? then [] else EdgesFlat(h.edges) + KidsFlat(h, Used(h))
  }

  ghost predicate Within(h: Block, blocks: seq<Block>) { forall k :: 0 <= k < |blocks| ==> blocks[k] < h }

  function KidsFlat(h: Block, blocks: seq<Block>): seq<Edge>
    requires Within(h, blocks)
    decreases h, 0, |blocks|
  {
    if blocks == [] then [] else KidsFlat(h, blocks[..|blocks| - 1]) + FlatOf(blocks[|blocks| - 1])
  }

  function AddUnique(r: seq<Block>, c: Block): (q: seq<Block>)
    ensures forall b :: b in q <==> b in r || b == c
  {
    if c in r then r else r + [c]
  }

  function AddBlocks(r: seq<Block>, endps: seq<Endpoint>): (q: seq<Block>)
    ensures forall b :: b in q <==> b in r || exists x :: x in endps && b == x.block
  {
    if endps == [] then r
    else
      var n := |endps| - 1;
      assert endps == endps[..n] + [endps[n]];
      AddUnique(AddBlocks(r, endps[..n]), endps[n].block)
  }

  function EdgeBlocks(es: seq<Edge>): (q: seq<Block>)
    ensures forall b :: b in q <==> exists e :: e in es && (b == e.src.block || b == e.dst.block)
  {
    if es == [] then []
    else
      var n := |es| - 1;
      assert es == es[..n] + [es[n]];
      AddUnique(AddUnique(EdgeBlocks(es[..n]), es[n].src.block), es[n].dst.block)
  }

  function SingleBlocks(r: seq<Block>, singles: seq<Block>): (q: seq<Block>)
    ensures forall b :: b in q <==> b in r || b in singles
  {
    if singles == [] then r
    else
      var n := |singles| - 1;
      assert singles == singles[..n] + [singles[n]];
      AddUnique(SingleBlocks(r, singles[..n]), singles[n])
  }

  function InputBlocks(r: seq<Block>, inputs: seq<Fan>): (q: seq<Block>)
    ensures forall b :: b in q <==> b in r || exists i, x :: 0 <= i < |inputs| && x in inputs[i].to && b == x.block
  {
    if inputs == [] then r
    else
      var n := |inputs| - 1;
      assert forall i :: 0 <= i < n ==> inputs[..n][i] == inputs[i];
      AddBlocks(InputBlocks(r, inputs[..n]), inputs[n].to)
  }

  function OutputBlocks(r: seq<Block>, outputs: seq<Option<Endpoint>>): (q: seq<Block>)
    ensures forall b :: b in q <==>
              b in r || exists i :: 0 <= i < |outputs| && outputs[i].Some? && b == outputs[i].value.block
  {
    if outputs == [] then r
    else
      var n := |outputs| - 1;
      assert forall i :: 0 <= i < n ==> outputs[..n][i] == outputs[i];
      var before := OutputBlocks(r, outputs[..n]);
      if outputs[n].Some? then AddUnique(before, outputs[n].value.block) else before
  }

  /** The blocks that h uses, once each. */
  function Used(h: Block): (r: seq<Block>)
    requires h.Hier?
    ensures forall b :: b in r <==> Child(h, b)
    ensures Within(h, r)
  {
    var r := OutputBlocks(InputBlocks(SingleBlocks(EdgeBlocks(h.edges), h.singles), h.inputs), h.outputs);
    assert Within(h, r) by {
      forall k | 0 <= k < |r|
        ensures r[k] < h
      {
        ChildIsSmaller(h, r[k]);
      }
    }
    r
  }

  // ---- What they are ----

  lemma {:induction false} InProduct(srcs: seq<Endpoint>, dsts: seq<Endpoint>, s: Endpoint, d: Endpoint)
    ensures Edge(s, d) in Product(srcs, dsts) <==> s in srcs && d in dsts
  {
    if srcs != [] {
      var n := |srcs| - 1;
      InProduct(srcs[..n], dsts, s, d);
      assert srcs == srcs[..n] + [srcs[n]];
      var row := Row(srcs[n], dsts);
      assert Edge(s, d) in row <==> s == srcs[n] && d in dsts by {
        if s == srcs[n] && d in dsts {
          var j :| 0 <= j < |dsts| && dsts[j] == d;
          assert row[j] == Edge(s, d);
        }
      }
    }
  }

  ghost predicate MadeOf(e: Edge, s: Endpoint, d: Endpoint) {
    && ResolveEndpoint(e.src, false).Ok? && s in ResolveEndpoint(e.src, false).value
    && ResolveEndpoint(e.dst, true).Ok? && d in ResolveEndpoint(e.dst, true).value
  }

  lemma InEdgeFlat(e: Edge, s: Endpoint, d: Endpoint)
    ensures Edge(s, d) in EdgeFlat(e) <==> MadeOf(e, s, d)
  {
    var srcEndps, dstEndps := ResolveEndpoint(e.src, false), ResolveEndpoint(e.dst, true);
    if srcEndps.Ok? && dstEndps.Ok? {
      InProduct(srcEndps.value, dstEndps.value, s, d);
    }
  }

  lemma {:induction false} InEdgesFlat(es: seq<Edge>, s: Endpoint, d: Endpoint)
    ensures Edge(s, d) in EdgesFlat(es) <==> exists e :: e in es && MadeOf(e, s, d)
  {
    if es != [] {
      var n := |es| - 1;
      InEdgesFlat(es[..n], s, d);
      assert es == es[..n] + [es[n]];
      InEdgeFlat(es[n], s, d);
    }
  }

  /** They are the resolved edges of all hierarchical blocks. */
  lemma {:induction false} FlatIsJoins(h: Block, s: Endpoint, d: Endpoint)
    ensures Edge(s, d) in FlatOf(h) <==> Joins(h, s, d)
    decreases h, 1
  {
    JoinsSplit(h, s, d);
    if h.Hier? {
      InEdgesFlat(h.edges, s, d);
      assert (exists e :: e in h.edges && MadeOf(e, s, d)) <==> exists e :: Made(h, e, s, d) by {
        assert forall e :: Made(h, e, s, d) <==> e in h.edges && MadeOf(e, s, d);
      }
      KidsAreJoins(h, Used(h), s, d);
      JoinsKids(h, Used(h), s, d);
    }
  }

  ghost predicate JoinsAny(blocks: seq<Block>, s: Endpoint, d: Endpoint) {
    exists k :: 0 <= k < |blocks| && Joins(blocks[k], s, d)
  }

  lemma JoinsMore(blocks: seq<Block>, n: nat, s: Endpoint, d: Endpoint)
    requires |blocks| == n + 1
    ensures JoinsAny(blocks, s, d) <==> JoinsAny(blocks[..n], s, d) || Joins(blocks[n], s, d)
  {
    if k :| 0 <= k < |blocks| && Joins(blocks[k], s, d) {
      assert k < n ==> blocks[..n][k] == blocks[k];
    }
    if k :| 0 <= k < n && Joins(blocks[..n][k], s, d) {
      assert blocks[k] == blocks[..n][k];
    }
  }

  lemma JoinsKids(h: Block, kids: seq<Block>, s: Endpoint, d: Endpoint)
    requires h.Hier? && kids == Used(h)
    ensures JoinsAny(kids, s, d) <==> exists c :: Child(h, c) && Joins(c, s, d)
  {
    if k :| 0 <= k < |kids| && Joins(kids[k], s, d) {
      assert kids[k] in kids;
    }
    if c :| Child(h, c) && Joins(c, s, d) {
      assert c in kids;
    }
  }

  lemma {:induction false} KidsAreJoins(h: Block, blocks: seq<Block>, s: Endpoint, d: Endpoint)
    requires Within(h, blocks)
    ensures Edge(s, d) in KidsFlat(h, blocks) <==> JoinsAny(blocks, s, d)
    decreases h, 0, |blocks|
  {
    if blocks != [] {
      var n := |blocks| - 1;
      KidsAreJoins(h, blocks[..n], s, d);
      FlatIsJoins(blocks[n], s, d);
      JoinsMore(blocks, n, s, d);
    }
  }

  // ---- Prefixes ----

  /** What connect demands of the ports: that they exist, and that the sizes listed for them are equal;
      for ports beyond a list the last size counts. */
  ghost predicate Fitting(src: Endpoint, dst: Endpoint)
    requires src.block.Leaf? && dst.block.Leaf?
  {
    var outs, ins := src.block.outs, dst.block.ins;
    && 0 <= src.port && 0 <= dst.port
    && (outs.maxStreams == -1 || src.port < outs.maxStreams) && (ins.maxStreams == -1 || dst.port < ins.maxStreams)
    && (if src.port < |outs.sizes| then outs.sizes[src.port] else outs.sizes[|outs.sizes| - 1]) ==
       (if dst.port < |ins.sizes| then ins.sizes[dst.port] else ins.sizes[|ins.sizes| - 1])
  }

  /** Two listed ports of different sizes. */
  ghost predicate Mismatch(src: Endpoint, dst: Endpoint) {
    && src.block.Leaf? && dst.block.Leaf?
    && 0 <= src.port < |src.block.outs.sizes| && 0 <= dst.port < |dst.block.ins.sizes|
    && src.block.outs.sizes[src.port] != dst.block.ins.sizes[dst.port]
  }

  ghost predicate FitsAt(es: seq<Edge>, i: nat)
    requires i < |es|
  {
    es[i].src.block.Leaf? && es[i].dst.block.Leaf? && Fitting(es[i].src, es[i].dst)
  }

  /** A flat graph as it may be: fitting leaf ports, and each input with at most one driver. */
  ghost predicate Proper(es: seq<Edge>) {
    && (forall i :: 0 <= i < |es| ==> FitsAt(es, i))
    && forall i, j :: 0 <= i < j < |es| ==> es[i].dst != es[j].dst
  }

  lemma ProperPrefix(a: seq<Edge>, b: seq<Edge>)
    requires a <= b && Proper(b)
    ensures Proper(a)
  {
    forall i | 0 <= i < |a|
      ensures FitsAt(a, i)
    {
      assert a[i] == b[i] && FitsAt(b, i);
    }
    forall i, j | 0 <= i < j < |a|
      ensures a[i].dst != a[j].dst
    {
      assert a[i] == b[i] && a[j] == b[j];
    }
  }

  /** What cannot be connected now cannot be connected later. */
  lemma NotProper(before: seq<Edge>, part: seq<Edge>, all: seq<Edge>)
    requires part <= all && !Proper(before + part)
    ensures !Proper(before + all)
  {
    assert before + part <= before + all;
    if Proper(before + all) {
      ProperPrefix(before + part, before + all);
    }
  }

  lemma ProperOneMore(es: seq<Edge>, e: Edge)
    requires Proper(es) && e.src.block.Leaf? && e.dst.block.Leaf?
    ensures Proper(es + [e]) <==> Fitting(e.src, e.dst) && forall x :: x in es ==> x.dst != e.dst
  {
    var all := es + [e];
    if Fitting(e.src, e.dst) && forall x :: x in es ==> x.dst != e.dst {
      forall i | 0 <= i < |all|
        ensures FitsAt(all, i)
      {
        assert i < |es| ==> FitsAt(es, i);
      }
    }
    if Proper(all) {
      assert FitsAt(all, |es|);
      forall x | x in es
        ensures x.dst != e.dst
      {
        var i :| 0 <= i < |es| && es[i] == x;
        assert all[i].dst != all[|es|].dst;
      }
    }
  }

  lemma RowMore(s: Endpoint, dsts: seq<Endpoint>, j: nat)
    requires j < |dsts|
    ensures Row(s, dsts[..j + 1]) == Row(s, dsts[..j]) + [Edge(s, dsts[j])]
    ensures Row(s, dsts[..j + 1]) <= Row(s, dsts)
  {
  }

  lemma Longer(a: seq<Edge>, b: seq<Edge>, ab: seq<Edge>, all: seq<Edge>)
    requires ab == a + b && ab <= all
    ensures a <= all
  {
    assert forall i :: 0 <= i < |a| ==> a[i] == ab[i] == all[i];
  }

  lemma ProductNext(srcs: seq<Endpoint>, dsts: seq<Endpoint>, i: nat)
    requires i < |srcs|
    ensures Product(srcs[..i + 1], dsts) == Product(srcs[..i], dsts) + Row(srcs[i], dsts)
  {
    assert srcs[..i + 1][..i] == srcs[..i];
  }

  lemma {:induction false} ProductPrefix(srcs: seq<Endpoint>, dsts: seq<Endpoint>, i: nat)
    requires i <= |srcs|
    ensures Product(srcs[..i], dsts) <= Product(srcs, dsts)
    decreases |srcs| - i
  {
    if i < |srcs| {
      ProductPrefix(srcs, dsts, i + 1);
      ProductNext(srcs, dsts, i);
      Longer(Product(srcs[..i], dsts), Row(srcs[i], dsts), Product(srcs[..i + 1], dsts), Product(srcs, dsts));
    } else {
      assert srcs[..i] == srcs;
    }
  }

  lemma EdgesNext(es: seq<Edge>, i: nat)
    requires i < |es|
    ensures EdgesFlat(es[..i + 1]) == EdgesFlat(es[..i]) + EdgeFlat(es[i])
  {
    assert es[..i + 1][..i] == es[..i];
  }

  lemma {:induction false} EdgesPrefix(es: seq<Edge>, i: nat)
    requires i <= |es|
    ensures EdgesFlat(es[..i]) <= EdgesFlat(es)
    decreases |es| - i
  {
    if i < |es| {
      EdgesPrefix(es, i + 1);
      EdgesNext(es, i);
      Longer(EdgesFlat(es[..i]), EdgeFlat(es[i]), EdgesFlat(es[..i + 1]), EdgesFlat(es));
    } else {
      assert es[..i] == es;
    }
  }

  lemma KidsNext(h: Block, blocks: seq<Block>, i: nat)
    requires Within(h, blocks) && i < |blocks|
    ensures KidsFlat(h, blocks[..i + 1]) == KidsFlat(h, blocks[..i]) + FlatOf(blocks[i])
  {
    assert blocks[..i + 1][..i] == blocks[..i];
  }

  lemma {:induction false} KidsPrefix(h: Block, blocks: seq<Block>, i: nat)
    requires Within(h, blocks) && i <= |blocks|
    ensures KidsFlat(h, blocks[..i]) <= KidsFlat(h, blocks)
    decreases |blocks| - i
  {
    if i < |blocks| {
      KidsPrefix(h, blocks, i + 1);
      KidsNext(h, blocks, i);
      Longer(KidsFlat(h, blocks[..i]), FlatOf(blocks[i]), KidsFlat(h, blocks[..i + 1]), KidsFlat(h, blocks));
    } else {
      assert blocks[..i] == blocks;
    }
  }

  // ---- The code ----

  /** `sizeof_stream_item` */
  function ItemSize(sig: Signature, port: nat): (size: nat)
    ensures port < |sig.sizes| ==> size == sig.sizes[port]
    ensures port >= |sig.sizes| ==> size == sig.sizes[|sig.sizes| - 1]
  {
    sig.sizes[Min(port, |sig.sizes| - 1)]
  }

  method CheckValidPort(sig: Signature, port: int) returns (ok: bool)
    ensures ok <==> 0 <= port && (sig.maxStreams == -1 || port < sig.maxStreams)
  {
    if port < 0 {
      return false;
    }
    ok := !(sig.maxStreams != -1 && port >= sig.maxStreams);
  }

  /** The flat graph under construction. */
  class FlatGraph {
    var edges: seq<Edge>

    constructor ()
      ensures edges == []
    {
      edges := [];
    }

    /** Fails, and leaves everything as it was, exactly where the graph would be improper. */
    method Connect(src: Endpoint, dst: Endpoint) returns (ok: bool)
      requires Proper(edges) && src.block.Leaf? && dst.block.Leaf?
      modifies this
      ensures ok <==> Proper(old(edges) + [Edge(src, dst)])
      ensures edges == if ok then old(edges) + [Edge(src, dst)] else old(edges)
      ensures ok ==> Fitting(src, dst)
      ensures Mismatch(src, dst) ==> !ok
    {
      ProperOneMore(edges, Edge(src, dst));
      ok := CheckValidPort(src.block.outs, src.port);
      if ok {
        ok := CheckValidPort(dst.block.ins, dst.port);
      }
      if ok {
        ok := DstNotUsed(dst);
        ok := ok && ItemSize(src.block.outs, src.port) == ItemSize(dst.block.ins, dst.port);
      }
      if ok {
        edges := edges + [Edge(src, dst)];
      }
    }

    method DstNotUsed(dst: Endpoint) returns (ok: bool)
      ensures ok <==> forall e :: e in edges ==> e.dst != dst
    {
      ok := true;
      for i := 0 to |edges|
        invariant ok <==> forall e :: e in edges[..i] ==> e.dst != dst
      {
        assert edges[..i + 1] == edges[..i] + [edges[i]];
        if edges[i].dst == dst {
          ok := false;
        }
      }
      assert edges[..|edges|] == edges;
    }
  }

  lemma MadeFromLeaves(h: Block, e: Edge, s: Endpoint, d: Endpoint)
    requires Made(h, e, s, d)
    ensures s.block.Leaf? && d.block.Leaf?
  {
    var p := UpPath(e.src.block, s, e.src);
    var q := DownPath(h, e.dst, d);
  }

  lemma ResolvedLeaves(e: Endpoint, isInput: bool)
    requires ResolveEndpoint(e, isInput).Ok?
    ensures forall d :: d in ResolveEndpoint(e, isInput).value ==> d.block.Leaf?
  {
    forall d | d in ResolveEndpoint(e, isInput).value
      ensures d.block.Leaf?
    {
      if isInput {
        var p := DownPath(e.block, e, d);
      } else {
        var p := UpPath(e.block, d, e);
      }
    }
  }

  /** Connects one source to every destination, or fails, exactly if that would make the graph improper. */
  method ConnectRow(g: FlatGraph, s: Endpoint, dsts: seq<Endpoint>) returns (ok: bool)
    requires Proper(g.edges) && s.block.Leaf? && forall d :: d in dsts ==> d.block.Leaf?
    modifies g
    ensures ok <==> Proper(old(g.edges) + Row(s, dsts))
    ensures ok ==> g.edges == old(g.edges) + Row(s, dsts)
  {
    for j := 0 to |dsts|
      invariant Proper(g.edges) && g.edges == old(g.edges) + Row(s, dsts[..j])
    {
      RowMore(s, dsts, j);
      ok := g.Connect(s, dsts[j]);
      assert old(g.edges) + Row(s, dsts[..j]) + [Edge(s, dsts[j])] == old(g.edges) + Row(s, dsts[..j + 1]);
      if !ok {
        NotProper(old(g.edges), Row(s, dsts[..j + 1]), Row(s, dsts));
        return;
      }
    }
    assert dsts[..|dsts|] == dsts;
    ok := true;
  }

  /** Connects every source to every destination. */
  method ConnectAll(g: FlatGraph, srcs: seq<Endpoint>, dsts: seq<Endpoint>) returns (ok: bool)
    requires Proper(g.edges) && (forall s :: s in srcs ==> s.block.Leaf?) && (forall d :: d in dsts ==> d.block.Leaf?)
    modifies g
    ensures ok <==> Proper(old(g.edges) + Product(srcs, dsts))
    ensures ok ==> g.edges == old(g.edges) + Product(srcs, dsts)
  {
    for i := 0 to |srcs|
      invariant Proper(g.edges) && g.edges == old(g.edges) + Product(srcs[..i], dsts)
    {
      ProductNext(srcs, dsts, i);
      ProductPrefix(srcs, dsts, i + 1);
      ok := ConnectRow(g, srcs[i], dsts);
      assert old(g.edges) + Product(srcs[..i], dsts) + Row(srcs[i], dsts) ==
             old(g.edges) + Product(srcs[..i + 1], dsts);
      if !ok {
        NotProper(old(g.edges), Product(srcs[..i + 1], dsts), Product(srcs, dsts));
        return;
      }
    }
    assert srcs[..|srcs|] == srcs;
    ok := true;
  }

  method FlattenEdge(e: Edge, g: FlatGraph) returns (ok: bool)
    requires Proper(g.edges)
    modifies g
    ensures ok <==> Resolves(e) && Proper(old(g.edges) + EdgeFlat(e))
    ensures ok ==> g.edges == old(g.edges) + EdgeFlat(e)
  {
    var srcEndps, dstEndps := ResolveEndpoint(e.src, false), ResolveEndpoint(e.dst, true);
    if srcEndps.Err? || dstEndps.Err? {
      return false;
    }
    ResolvedLeaves(e.src, false);
    ResolvedLeaves(e.dst, true);
    ok := ConnectAll(g, srcEndps.value, dstEndps.value);
  }

  /** h's own edges, resolved. */
  method FlattenEdges(edges: seq<Edge>, g: FlatGraph) returns (ok: bool)
    requires Proper(g.edges)
    modifies g
    ensures ok <==> (forall e :: e in edges ==> Resolves(e)) && Proper(old(g.edges) + EdgesFlat(edges))
    ensures ok ==> g.edges == old(g.edges) + EdgesFlat(edges)
  {
    ghost var before := g.edges;
    for i := 0 to |edges|
      invariant EdgesDone(before, edges, i, g.edges)
    {
      ok := FlattenNextEdge(edges, i, g, before);
      if !ok {
        return;
      }
    }
    assert edges[..|edges|] == edges;
    ok := true;
  }

  /** The first i edges have been added. */
  ghost predicate EdgesDone(before: seq<Edge>, edges: seq<Edge>, i: nat, now: seq<Edge>)
    requires i <= |edges|
  {
    Proper(now) && now == before + EdgesFlat(edges[..i]) && forall k :: 0 <= k < i ==> Resolves(edges[k])
  }

  method FlattenNextEdge(edges: seq<Edge>, i: nat, g: FlatGraph, ghost before: seq<Edge>) returns (ok: bool)
    requires i < |edges| && EdgesDone(before, edges, i, g.edges)
    modifies g
    ensures ok ==> EdgesDone(before, edges, i + 1, g.edges)
    ensures !ok ==> !((forall e :: e in edges ==> Resolves(e)) && Proper(before + EdgesFlat(edges)))
  {
    assert edges[i] in edges;
    OneEdge(before, edges, i);
    ok := FlattenEdge(edges[i], g);
  }

  lemma OneEdge(before: seq<Edge>, edges: seq<Edge>, i: nat)
    requires i < |edges|
    ensures before + EdgesFlat(edges[..i]) + EdgeFlat(edges[i]) == before + EdgesFlat(edges[..i + 1])
    ensures !Proper(before + EdgesFlat(edges[..i]) + EdgeFlat(edges[i])) ==> !Proper(before + EdgesFlat(edges))
  {
    EdgesNext(edges, i);
    EdgesPrefix(edges, i + 1);
    assert before + EdgesFlat(edges[..i]) + EdgeFlat(edges[i]) == before + EdgesFlat(edges[..i + 1]);
    if !Proper(before + EdgesFlat(edges[..i + 1])) {
      NotProper(before, EdgesFlat(edges[..i + 1]), EdgesFlat(edges));
    }
  }

  /** Everything in h can be resolved and is connected, and what comes out of it fits what is there. */
  ghost predicate Flattens(h: Block, before: seq<Edge>) { Good(h) && Proper(before + FlatOf(h)) }

  ghost predicate Good(h: Block) { AllResolve(h) && AllWired(h) }

  /** The same of the first i blocks of a list, whose flat edges are given. */
  ghost predicate KidsFlatten(blocks: seq<Block>, i: nat, all: seq<Edge>)
    requires i <= |blocks|
  {
    (forall k :: 0 <= k < i ==> Good(blocks[k])) && Proper(all)
  }

  /** Adds h's edges, resolved to leaves, to the flat graph, and then those of the hierarchical
      blocks within it. */
  method FlattenAux(h: Block, g: FlatGraph) returns (ok: bool)
    requires h.Hier? && Proper(g.edges)
    modifies g
    ensures ok <==> Flattens(h, old(g.edges))
    ensures ok ==> g.edges == old(g.edges) + FlatOf(h)
    decreases h, 2
  {
    Parts(h, old(g.edges), Used(h));
    ok := FlattenEdges(h.edges, g);
    if !ok {
      return;
    }
    var wired := PortsWired(h);
    if !wired {
      return false;
    }
    ok := FlattenKids(h, g, Used(h));
  }

  lemma Parts(h: Block, before: seq<Edge>, kids: seq<Block>)
    requires h.Hier? && kids == Used(h)
    ensures before + EdgesFlat(h.edges) + KidsFlat(h, kids) == before + FlatOf(h)
    ensures Flattens(h, before) ==> OwnResolve(h) && Proper(before + EdgesFlat(h.edges)) && OwnWired(h)
    ensures OwnResolve(h) && OwnWired(h) ==>
              (Flattens(h, before) <==> KidsFlatten(kids, |kids|, before + EdgesFlat(h.edges) + KidsFlat(h, kids)))
  {
    GoodParts(h, kids);
    Onward(before, EdgesFlat(h.edges), KidsFlat(h, kids), FlatOf(h));
  }

  lemma GoodParts(h: Block, kids: seq<Block>)
    requires h.Hier? && kids == Used(h)
    ensures Good(h) <==> OwnResolve(h) && OwnWired(h) && forall k :: 0 <= k < |kids| ==> Good(kids[k])
  {
    AllSplit(h);
    forall c | Child(h, c)
      ensures exists k :: 0 <= k < |kids| && kids[k] == c
    {
      assert c in kids;
    }
  }

  method PortsWired(h: Block) returns (ok: bool)
    requires h.Hier?
    ensures ok <==> OwnWired(h)
  {
    ok := true;
    for i := 0 to |h.inputs|
      invariant ok <==> forall k :: 0 <= k < i ==> h.inputs[k].to != []
    {
      ok := ok && h.inputs[i].to != [];
    }
    for i := 0 to |h.outputs|
      invariant ok <==>
                && (forall k :: 0 <= k < |h.inputs| ==> h.inputs[k].to != [])
                && forall k :: 0 <= k < i ==> h.outputs[k].Some?
    {
      ok := ok && h.outputs[i].Some?;
    }
  }

  /** The children, one after the other. */
  method FlattenKids(h: Block, g: FlatGraph, blocks: seq<Block>) returns (ok: bool)
    requires Proper(g.edges) && Within(h, blocks)
    modifies g
    ensures ok <==> KidsFlatten(blocks, |blocks|, old(g.edges) + KidsFlat(h, blocks))
    ensures ok ==> g.edges == old(g.edges) + KidsFlat(h, blocks)
    decreases h, 1
  {
    assert g.edges + [] == g.edges;
    ghost var before := g.edges;
    for i := 0 to |blocks|
      invariant KidsDone(before, KidsFlat(h, blocks[..i]), blocks, i, g.edges)
    {
      ok := FlattenNextKid(h, g, blocks, i, before);
      if !ok {
        return;
      }
    }
    assert blocks[..|blocks|] == blocks;
    ok := true;
  }

  /** The first i blocks have been flattened, and their flat edges added. */
  ghost predicate KidsDone(before: seq<Edge>, flat: seq<Edge>, blocks: seq<Block>, i: nat, now: seq<Edge>)
    requires i <= |blocks|
  {
    now == before + flat && KidsFlatten(blocks, i, now)
  }

  method FlattenNextKid(h: Block, g: FlatGraph, blocks: seq<Block>, i: nat, ghost before: seq<Edge>) returns (ok: bool)
    requires Within(h, blocks) && i < |blocks| && KidsDone(before, KidsFlat(h, blocks[..i]), blocks, i, g.edges)
    modifies g
    ensures ok ==> KidsDone(before, KidsFlat(h, blocks[..i + 1]), blocks, i + 1, g.edges)
    ensures !ok ==> !KidsFlatten(blocks, |blocks|, before + KidsFlat(h, blocks))
    decreases h, 0
  {
    KidsNext(h, blocks, i);
    KidsPrefix(h, blocks, i + 1);
    NextKid(before, blocks, i, KidsFlat(h, blocks[..i]), FlatOf(blocks[i]), KidsFlat(h, blocks[..i + 1]),
            KidsFlat(h, blocks));
    ok := FlattenKid(blocks[i], g);
  }

  lemma NextKid(before: seq<Edge>, blocks: seq<Block>, i: nat, a: seq<Edge>, b: seq<Edge>, ab: seq<Edge>,
                all: seq<Edge>)
    requires i < |blocks| && ab == a + b && ab <= all && b == FlatOf(blocks[i]) && KidsFlatten(blocks, i, before + a)
    ensures before + a + b == before + ab
    ensures Flattens(blocks[i], before + a) <==> KidsFlatten(blocks, i + 1, before + ab)
    ensures KidsFlatten(blocks, |blocks|, before + all) ==> KidsFlatten(blocks, i + 1, before + ab)
  {
    Onward(before, a, b, ab);
    if !Proper(before + ab) {
      NotProper(before, ab, all);
    }
  }

  lemma Onward(before: seq<Edge>, a: seq<Edge>, b: seq<Edge>, ab: seq<Edge>)
    requires ab == a + b
    ensures before + a + b == before + ab
    ensures Proper(before + ab) ==> Proper(before + a)
  {
    assert before + a + b == before + ab;
    if !Proper(before + a) {
      NotProper(before, a, ab);
    }
  }

  method FlattenKid(c: Block, g: FlatGraph) returns (ok: bool)
    requires Proper(g.edges)
    modifies g
    ensures ok <==> Flattens(c, old(g.edges))
    ensures ok ==> g.edges == old(g.edges) + FlatOf(c)
    decreases c, 3
  {
    if c.Hier? {
      ok := FlattenAux(c, g);
    } else {
      assert g.edges + [] == g.edges;
      ok := true;
    }
  }

  /** Flattening preserves meaning. It succeeds exactly if everything can be resolved, every port is
      connected, and no leaf input is reached twice or by items of another size; and then the flat
      edges are exactly the pairs of a leaf's output and a leaf's input that a signal path joins. */
  method Flatten(root: Block) returns (ok: bool, edges: seq<Edge>)
    requires root.Hier?
    ensures ok <==> AllResolve(root) && AllWired(root) && Proper(FlatOf(root))
    ensures ok ==> edges == FlatOf(root)
    ensures ok ==> forall s, d :: Edge(s, d) in edges <==> s.block.Leaf? && d.block.Leaf? && Connected(root, s, d)
    ensures ok ==> forall e :: e in edges ==> e.src.block.Leaf? && e.dst.block.Leaf? && Fitting(e.src, e.dst)
    ensures (exists s, d :: Connected(root, s, d) && Mismatch(s, d)) ==> !ok
  {
    var g := new FlatGraph();
    ok := FlattenAux(root, g);
    edges := g.edges;
    assert [] + FlatOf(root) == FlatOf(root);
    if ok {
      ProperFits(edges);
      FlatIsConnected(root);
    }
  }

  lemma ProperFits(es: seq<Edge>)
    requires Proper(es)
    ensures forall e :: e in es ==> e.src.block.Leaf? && e.dst.block.Leaf? && Fitting(e.src, e.dst)
  {
    forall e | e in es
      ensures e.src.block.Leaf? && e.dst.block.Leaf? && Fitting(e.src, e.dst)
    {
      var i :| 0 <= i < |es| && es[i] == e;
      assert FitsAt(es, i);
    }
  }

  lemma FlatIsConnected(root: Block)
    requires AllResolve(root)
    ensures forall s, d :: Edge(s, d) in FlatOf(root) <==> s.block.Leaf? && d.block.Leaf? && Connected(root, s, d)
  {
    forall s, d
      ensures Edge(s, d) in FlatOf(root) <==> s.block.Leaf? && d.block.Leaf? && Connected(root, s, d)
    {
      FlatIsJoins(root, s, d);
      if Joins(root, s, d) {
        var h, e :| Under(root, h) && Made(h, e, s, d);
        MadeFromLeaves(h, e, s, d);
      }
      if s.block.Leaf? && d.block.Leaf? {
        JoinsIsConnected(root, s, d);
      }
    }
  }
}
