/** Splitting the flat graph into connected parts and putting each in topological order. */
module Flowgraph {

  import opened Results

  datatype Edge = Edge(src: nat, dst: nat)
  datatype Color = White | Grey | Black

  predicate NoDup(s: seq<nat>) { forall i, j :: 0 <= i < j < |s| ==> s[i] != s[j] }

  /** A loop through edges among the given blocks. */
  ghost predicate Cycle(edges: seq<Edge>, blocks: seq<nat>, p: seq<nat>) {
    && |p| >= 2 && p[0] == p[|p| - 1]
    && (forall i :: 0 <= i < |p| ==> p[i] in blocks)
    && forall i :: 0 <= i < |p| - 1 ==> Arc(edges, p, i)
  }

  ghost predicate Arc(edges: seq<Edge>, p: seq<nat>, i: nat)
    requires i + 1 < |p|
  {
    Edge(p[i], p[i + 1]) in edges
  }

  ghost predicate HasCycle(edges: seq<Edge>, blocks: seq<nat>) { exists p :: Cycle(edges, blocks, p) }

  /** Every edge goes forward. */
  ghost predicate Ordered(edges: seq<Edge>, order: seq<nat>) {
    forall i, j :: 0 <= i < |order| && 0 <= j < |order| && Edge(order[i], order[j]) in edges ==> i < j
  }

  ghost predicate SameBlocks(a: seq<nat>, b: seq<nat>) { NoDup(a) && forall x :: x in a <==> x in b }

  /** An order leaves no room for a loop. */
  lemma {:induction false} ForwardAlong(edges: seq<Edge>, order: seq<nat>, p: seq<nat>, i: nat, at: nat)
    returns (end: nat)
    requires Ordered(edges, order) && Cycle(edges, order, p) && i < |p| && at < |order| && order[at] == p[i]
    ensures at <= end < |order| && order[end] == p[|p| - 1] && (i < |p| - 1 ==> at < end)
    decreases |p| - i
  {
    if i == |p| - 1 {
      end := at;
    } else {
      var next :| 0 <= next < |order| && order[next] == p[i + 1];
      assert Arc(edges, p, i);
      end := ForwardAlong(edges, order, p, i + 1, next);
    }
  }

  lemma OrderMeansNoCycle(edges: seq<Edge>, order: seq<nat>)
    requires Ordered(edges, order) && NoDup(order)
    ensures !HasCycle(edges, order)
  {
    forall p | Cycle(edges, order, p)
      ensures false
    {
      var at :| 0 <= at < |order| && order[at] == p[0];
      var end := ForwardAlong(edges, order, p, 0, at);
    }
  }

  // ---- Unique, sorted vectors ----

  function Insert(s: seq<nat>, x: nat): seq<nat> {
    if s == [] || x < s[0] then [x] + s else if x == s[0] then s else [s[0]] + Insert(s[1..], x)
  }

  ghost predicate Ascending(s: seq<nat>) { forall i, j :: 0 <= i < j < |s| ==> s[i] < s[j] }

  lemma {:induction false} InsertKeeps(s: seq<nat>, x: nat)
    requires Ascending(s)
    ensures Ascending(Insert(s, x)) && forall y :: y in Insert(s, x) <==> y == x || y in s
  {
    if s != [] && x > s[0] {
      InsertKeeps(s[1..], x);
      HeadFirst(s[0], s[1..]);
      HeadBefore(s[0], Insert(s[1..], x));
      assert s == [s[0]] + s[1..];
    } else if s == [] || x < s[0] {
      HeadBefore(x, s);
    }
  }

  lemma HeadFirst(h: nat, t: seq<nat>)
    requires Ascending([h] + t)
    ensures Ascending(t) && forall y :: y in t ==> h < y
  {
    forall i | 0 <= i < |t|
      ensures h < t[i]
    {
      assert ([h] + t)[0] < ([h] + t)[i + 1];
    }
    forall i, j | 0 <= i < j < |t|
      ensures t[i] < t[j]
    {
      assert ([h] + t)[i + 1] < ([h] + t)[j + 1];
    }
  }

  lemma HeadBefore(h: nat, t: seq<nat>)
    requires Ascending(t) && (t == [] || h < t[0])
    ensures Ascending([h] + t)
  {
    forall j | 0 <= j < |t|
      ensures h < t[j]
    {
      assert t[0] <= t[j];
    }
  }

  /** `unique_vector` */
  method UniqueVector(v: seq<nat>) returns (r: seq<nat>)
    ensures Ascending(r) && SameBlocks(r, v)
  {
    r := [];
    for i := 0 to |v|
      invariant Ascending(r) && forall x :: x in r <==> x in v[..i]
    {
      InsertKeeps(r, v[i]);
      r := Insert(r, v[i]);
    }
  }

  // ---- Used ports ----

  const IO_INFINITE := -1

  ghost predicate Contiguous(ports: seq<nat>) { forall i :: 0 <= i < |ports| ==> ports[i] == i }

  lemma {:induction false} AscendingAtLeast(ports: seq<nat>, i: nat)
    requires Ascending(ports) && i < |ports|
    ensures ports[i] >= i && ports[|ports| - 1] >= ports[i] + (|ports| - 1 - i)
    decreases |ports| - i
  {
    if i < |ports| - 1 {
      AscendingAtLeast(ports, i + 1);
      assert ports[i] < ports[i + 1];
    }
    UpTo(ports, i);
  }

  lemma {:induction false} UpTo(ports: seq<nat>, i: nat)
    requires Ascending(ports) && i < |ports|
    ensures ports[i] >= i
  {
    if i > 0 {
      UpTo(ports, i - 1);
      assert ports[i - 1] < ports[i];
    }
  }

  /** The last of the sorted ports tells whether one is missing. */
  lemma LastTells(ports: seq<nat>)
    requires Ascending(ports) && ports != []
    ensures ports[|ports| - 1] + 1 == |ports| <==> Contiguous(ports)
  {
    if ports[|ports| - 1] + 1 == |ports| {
      forall i | 0 <= i < |ports|
        ensures ports[i] == i
      {
        AscendingAtLeast(ports, i);
      }
    }
  }

  /** Whether a block's used ports on one side, sorted, are as many as its signature allows, and
      are the first ones without a gap. */
  method CheckContiguity(usedPorts: seq<nat>, minPorts: nat, maxPorts: int) returns (ok: bool)
    requires Ascending(usedPorts) && maxPorts >= IO_INFINITE
    ensures ok <==>
              && minPorts <= |usedPorts| && (maxPorts == IO_INFINITE || |usedPorts| <= maxPorts)
              && Contiguous(usedPorts)
  {
    var nports := |usedPorts|;
    if nports == 0 && minPorts == 0 {
      return true;
    }
    if nports < minPorts {
      return false;
    }
    if nports > maxPorts && maxPorts != IO_INFINITE {
      return false;
    }
    LastTells(usedPorts);
    if usedPorts[nports - 1] + 1 != nports {
      for i := 0 to nports
        invariant forall k :: 0 <= k < i ==> usedPorts[k] == k
      {
        if usedPorts[i] != i {
          return false;
        }
      }
    }
    ok := true;
  }

  // ---- The state of the depth-first search ----

  ghost predicate Closed(edges: seq<Edge>, blocks: seq<nat>) {
    forall u, v :: u in blocks && Edge(u, v) in edges ==> v in blocks
  }

  ghost function Whites(color: map<nat, Color>, blocks: seq<nat>): set<nat> {
    set x | x in blocks && x in color && color[x] == White
  }

  /** Finished blocks are black, and all that a finished block leads to was finished before it;
      the grey ones are the path that the search has taken. */
  ghost predicate Searching(edges: seq<Edge>, color: map<nat, Color>, blocks: seq<nat>, output: seq<nat>,
                            path: seq<nat>) {
    && (forall x :: x in blocks ==> x in color)
    && (forall x :: x in output ==> x in blocks) && NoDup(output)
    && (forall x :: x in blocks ==> (color[x] == Black <==> x in output) && (color[x] == Grey <==> x in path))
    && (forall x :: x in path ==> x in blocks) && NoDup(path)
    && (forall i :: 0 <= i < |path| - 1 ==> Arc(edges, path, i))
    && Finished(edges, output)
  }

  lemma StartBlock(edges: seq<Edge>, color: map<nat, Color>, blocks: seq<nat>, output: seq<nat>, path: seq<nat>, b: nat)
    requires Searching(edges, color, blocks, output, path) && b in blocks && color[b] == White
    requires path == [] || Edge(path[|path| - 1], b) in edges
    ensures Searching(edges, color[b := Grey], blocks, output, path + [b])
    ensures Whites(color[b := Grey], blocks) == Whites(color, blocks) - {b}
  {
    ExtendPath(edges, path, b);
  }

  lemma LastIsNew(s: seq<nat>, b: nat)
    requires NoDup(s + [b])
    ensures NoDup(s) && b !in s && forall x :: x in s + [b] <==> x in s || x == b
  {
    forall i, j | 0 <= i < j < |s|
      ensures s[i] != s[j]
    {
      assert (s + [b])[i] != (s + [b])[j];
    }
    forall i | 0 <= i < |s|
      ensures s[i] != b
    {
      assert (s + [b])[i] != (s + [b])[|s|];
    }
  }

  lemma NoDupConcat(a: seq<nat>, b: seq<nat>)
    requires NoDup(a) && NoDup(b) && forall x :: x in a ==> x !in b
    ensures NoDup(a + b)
  {
    forall i, j | 0 <= i < j < |a + b|
      ensures (a + b)[i] != (a + b)[j]
    {
      if i < |a| <= j {
        assert a[i] in a && b[j - |a|] in b;
      }
    }
  }

  lemma FinishBlock(edges: seq<Edge>, color: map<nat, Color>, blocks: seq<nat>, output: seq<nat>, path: seq<nat>,
                    b: nat)
    requires Searching(edges, color, blocks, output, path + [b])
    requires forall v :: Edge(b, v) in edges ==> v in output
    ensures Searching(edges, color[b := Black], blocks, output + [b], path)
    ensures Whites(color[b := Black], blocks) <= Whites(color, blocks)
  {
    var here := path + [b];
    assert here[|path|] == b;
    assert b in here;
    LastIsNew(path, b);
    forall i | 0 <= i < |path| - 1
      ensures Arc(edges, path, i)
    {
      assert Arc(edges, here, i);
    }
    forall i, v | 0 <= i < |output + [b]| && Edge((output + [b])[i], v) in edges
      ensures v in (output + [b])[..i]
    {
      if i < |output| {
        assert v in output[..i];
        assert (output + [b])[..i] == output[..i];
      } else {
        assert (output + [b])[..i] == output;
      }
    }
  }

  /** No edge leads to it. */
  ghost predicate IsSource(edges: seq<Edge>, block: nat) { forall e :: e in edges ==> e.dst != block }

  class Graph {
    var edges: seq<Edge>
    /** The colour field of each block. */
    var color: map<nat, Color>

    constructor (edges: seq<Edge>)
      ensures this.edges == edges
    {
      this.edges, color := edges, map[];
    }

    method CalcUsedBlocks() returns (r: seq<nat>)
      ensures NoDup(r) && forall x :: x in r <==> exists e :: e in edges && (x == e.src || x == e.dst)
    {
      var tmp := [];
      for i := 0 to |edges|
        invariant forall x :: x in tmp <==> exists e :: e in edges[..i] && (x == e.src || x == e.dst)
      {
        tmp := tmp + [edges[i].src, edges[i].dst];
        assert edges[..i + 1] == edges[..i] + [edges[i]];
      }
      assert edges[..|edges|] == edges;
      r := UniqueVector(tmp);
    }

    method CalcDownstreamBlocks(block: nat) returns (r: seq<nat>)
      ensures NoDup(r) && forall x :: x in r <==> Edge(block, x) in edges
    {
      var tmp := [];
      for i := 0 to |edges|
        invariant forall x :: x in tmp <==> Edge(block, x) in edges[..i]
      {
        if edges[i].src == block {
          tmp := tmp + [edges[i].dst];
        }
        assert edges[..i + 1] == edges[..i] + [edges[i]];
      }
      assert edges[..|edges|] == edges;
      r := UniqueVector(tmp);
    }

    method CalcAdjacentBlocks(block: nat) returns (r: seq<nat>)
      ensures NoDup(r) && forall x :: x in r <==> Joined(edges, block, x)
    {
      var tmp := [];
      for i := 0 to |edges|
        invariant forall x :: x in tmp <==> Joined(edges[..i], block, x)
      {
        if edges[i].src == block {
          tmp := tmp + [edges[i].dst];
        }
        if edges[i].dst == block {
          tmp := tmp + [edges[i].src];
        }
        assert edges[..i + 1] == edges[..i] + [edges[i]];
      }
      assert edges[..|edges|] == edges;
      r := UniqueVector(tmp);
    }

    // ---- Topological order ----

    method TopologicalDfsVisit(block: nat, output: seq<nat>, ghost blocks: seq<nat>, ghost path: seq<nat>)
      returns (r: Result<seq<nat>>)
      requires Closed(edges, blocks) && Searching(edges, color, blocks, output, path)
      requires block in blocks && color[block] == White
      requires path == [] || Edge(path[|path| - 1], block) in edges
      modifies this`color
      ensures r.Ok? ==> Searching(edges, color, blocks, r.value, path) && output <= r.value && block in r.value
      ensures r.Ok? ==> Whites(color, blocks) <= Whites(old(color), blocks)
      ensures r.Err? ==> HasCycle(edges, blocks)
      decreases |Whites(color, blocks)|
    {
      var out := output;
      color := color[block := Grey];
      ghost var here := path + [block];
      StartBlock(edges, old(color), blocks, output, path, block);
      var next := CalcDownstreamBlocks(block);
      for i := 0 to |next|
        invariant Searching(edges, color, blocks, out, here) && output <= out
        invariant Whites(color, blocks) <= Whites(old(color), blocks) - {block}
        invariant forall k :: 0 <= k < i ==> next[k] in out
      {
        var b := next[i];
        assert Edge(block, b) in edges && here[|here| - 1] == block;
        match color[b] {
          case White =>
            SmallerSet(Whites(color, blocks), Whites(old(color), blocks), block);
            var v := TopologicalDfsVisit(b, out, blocks, here);
            if v.Err? {
              return Err;
            }
            out := v.value;
          case Grey =>
            ClosesLoop(edges, blocks, here, b);
            return Err;
          case Black =>
        }
      }
      FinishBlock(edges, color, blocks, out, path, block);
      color := color[block := Black];
      out := out + [block];
      r := Ok(out);
    }

    method SourceP(block: nat) returns (yes: bool)
      ensures yes <==> IsSource(edges, block)
    {
      yes := true;
      for i := 0 to |edges|
        invariant yes <==> forall e :: e in edges[..i] ==> e.dst != block
      {
        assert edges[..i + 1] == edges[..i] + [edges[i]];
        if edges[i].dst == block {
          yes := false;
        }
      }
      assert edges[..|edges|] == edges;
    }

    /** The same blocks, every source before every other block. */
    method SortSourcesFirst(blocks: seq<nat>) returns (r: seq<nat>)
      requires NoDup(blocks)
      ensures SameBlocks(r, blocks)
      ensures forall i, j :: 0 <= i < j < |r| && IsSource(edges, r[j]) ==> IsSource(edges, r[i])
    {
      var sources, nonsources := [], [];
      for i := 0 to |blocks|
        invariant forall x :: x in blocks[..i] <==> x in sources || x in nonsources
        invariant NoDup(sources) && NoDup(nonsources) && forall x :: x in sources ==> x !in nonsources
        invariant forall k :: 0 <= k < |sources| ==> IsSource(edges, sources[k])
        invariant forall k :: 0 <= k < |nonsources| ==> !IsSource(edges, nonsources[k])
      {
        assert blocks[..i + 1] == blocks[..i] + [blocks[i]];
        assert blocks[i] !in blocks[..i];
        var source := SourceP(blocks[i]);
        if source {
          sources := sources + [blocks[i]];
        } else {
          nonsources := nonsources + [blocks[i]];
        }
      }
      assert blocks[..|blocks|] == blocks;
      r := sources + nonsources;
      NoDupConcat(sources, nonsources);
    }

    /** Sorts a part of the graph that no edge leaves: its blocks in an order in which every edge
        goes forward; or fails, exactly if there is a loop in it. */
    method TopologicalSort(blocks: seq<nat>) returns (r: Result<seq<nat>>)
      requires NoDup(blocks) && Closed(edges, blocks)
      modifies this`color
      ensures r.Ok? ==> SameBlocks(r.value, blocks) && Ordered(edges, r.value)
      ensures r.Err? <==> HasCycle(edges, blocks)
    {
      var tmp := SortSourcesFirst(blocks);
      for i := 0 to |tmp|
        invariant forall k :: 0 <= k < i ==> tmp[k] in color && color[tmp[k]] == White
      {
        color := color[tmp[i] := White];
      }
      assert forall x :: x in blocks ==> x in tmp;
      var output := [];
      for i := 0 to |tmp|
        invariant Searching(edges, color, blocks, output, [])
        invariant forall k :: 0 <= k < i ==> tmp[k] in output
      {
        if color[tmp[i]] == White {
          var v := TopologicalDfsVisit(tmp[i], output, blocks, []);
          if v.Err? {
            return Err;
          }
          output := v.value;
        }
      }
      r := Ok(Reverse(output));
      ReverseOrders(edges, output);
      SameBlocksCycle(edges, r.value, blocks);
      OrderMeansNoCycle(edges, r.value);
    }

    // ---- Connected parts ----

    /** Recursively marks all blocks reachable along edges in either direction. */
    method ReachableDfsVisit(block: nat, ghost blocks: seq<nat>)
      requires JoinedClosed(edges, blocks) && block in blocks
      requires forall x :: x in blocks ==> x in color && color[x] != Grey
      requires color[block] == White
      modifies this`color
      ensures forall x :: x in blocks ==> x in color && color[x] != Grey
      ensures Whites(color, blocks) <= Whites(old(color), blocks) - {block}
      ensures forall x :: x in blocks && x in Whites(old(color), blocks) - Whites(color, blocks) ==>
                Linked(edges, block, x) && forall y :: Joined(edges, x, y) ==> y !in Whites(color, blocks)
      decreases |Whites(color, blocks)|
    {
      color := color[block := Black];
      LinkedToItself(edges, block);
      assert Whites(color, blocks) == Whites(old(color), blocks) - {block};
      var adjacent := CalcAdjacentBlocks(block);
      for i := 0 to |adjacent|
        invariant forall x :: x in blocks ==> x in color && color[x] != Grey
        invariant Whites(color, blocks) <= Whites(old(color), blocks) - {block}
        invariant forall x :: x in blocks && x in Whites(old(color), blocks) - Whites(color, blocks) ==>
                    Linked(edges, block, x)
        invariant forall x, y ::
          (x in blocks && x != block && x in Whites(old(color), blocks) - Whites(color, blocks)
           && Joined(edges, x, y)) ==>
            y !in Whites(color, blocks)
        invariant forall k :: 0 <= k < i ==> adjacent[k] !in Whites(color, blocks)
      {
        var b := adjacent[i];
        if color[b] == White {
          SmallerSet(Whites(color, blocks), Whites(old(color), blocks), block);
          ghost var before := color;
          ReachableDfsVisit(b, blocks);
          LinkedThrough(edges, block, b, Whites(before, blocks) - Whites(color, blocks));
        }
      }
    }

    method CalcReachableBlocks(block: nat, blocks: seq<nat>) returns (r: seq<nat>)
      requires JoinedClosed(edges, blocks) && NoDup(blocks) && block in blocks
      modifies this`color
      ensures NoDup(r) && block in r && (forall x :: x in r ==> x in blocks)
      ensures JoinedClosed(edges, r) && forall x :: x in r ==> Linked(edges, block, x)
    {
      for i := 0 to |blocks|
        invariant forall k :: 0 <= k < i ==> blocks[k] in color && color[blocks[k]] == White
      {
        color := color[blocks[i] := White];
      }
      ReachableDfsVisit(block, blocks);
      r := [];
      for i := 0 to |blocks|
        invariant NoDup(r) && forall x :: x in r <==> x in blocks[..i] && color[x] == Black
      {
        assert blocks[..i + 1] == blocks[..i] + [blocks[i]];
        assert blocks[i] !in blocks[..i];
        if color[blocks[i]] == Black {
          r := r + [blocks[i]];
        }
      }
      assert blocks[..|blocks|] == blocks;
      assert forall x :: x in blocks ==> (x in r <==> x !in Whites(color, blocks));
    }

    /** Splits the used blocks into connected parts, each in topological order; fails exactly if
        the edges contain a loop. */
    method Partition() returns (r: Result<seq<seq<nat>>>)
      modifies this`color
      ensures r.Ok? ==> IsPartition(edges, r.value)
      ensures r.Err? <==> exists p :: AnyCycle(edges, p)
    {
      var parts: seq<seq<nat>> := [];
      var blocks := CalcUsedBlocks();
      ghost var used := blocks;
      UsedIsClosed(edges, used);
      while |blocks| > 0
        invariant NoDup(blocks) && JoinedClosed(edges, blocks) && PartsOk(edges, parts)
        invariant forall x :: x in used <==> x in blocks || InParts(parts, x)
        invariant forall x :: x in blocks ==> !InParts(parts, x)
        decreases |blocks|
      {
        var graph := CalcReachableBlocks(blocks[0], blocks);
        assert Closed(edges, graph);
        var sorted := TopologicalSort(graph);
        if sorted.Err? {
          LoopAnywhere(edges, graph);
          return Err;
        }
        PartFits(edges, parts, graph, sorted.value, blocks[0]);
        parts := parts + [sorted.value];
        blocks := Erase(blocks, graph);
      }
      r := Ok(parts);
      NoLoopAnywhere(edges, parts);
      PartsCover(edges, parts, used);
    }

    /** Erases the blocks of one part from the list, one by one. */
    method Erase(blocks: seq<nat>, graph: seq<nat>) returns (r: seq<nat>)
      requires NoDup(blocks) && NoDup(graph) && forall x :: x in graph ==> x in blocks
      requires JoinedClosed(edges, blocks) && JoinedClosed(edges, graph)
      ensures NoDup(r) && JoinedClosed(edges, r) && |r| + |graph| == |blocks|
      ensures forall x :: x in r <==> x in blocks && x !in graph
    {
      r := blocks;
      for i := 0 to |graph|
        invariant NoDup(r) && |r| + i == |blocks|
        invariant forall x :: x in r <==> x in blocks && x !in graph[..i]
      {
        assert graph[..i + 1] == graph[..i] + [graph[i]];
        assert graph[i] !in graph[..i];
        r := EraseOne(r, graph[i]);
      }
      assert graph[..|graph|] == graph;
    }
  }

  lemma SmallerSet(a: set<nat>, b: set<nat>, x: nat)
    requires a <= b - {x} && x in b
    ensures |a| < |b|
  {
    assert b == (b - {x}) + {x};
    SubsetSize(a, b - {x});
  }

  lemma {:induction false} SubsetSize(a: set<nat>, b: set<nat>)
    requires a <= b
    ensures |a| <= |b|
  {
    if a != {} {
      var x :| x in a;
      SubsetSize(a - {x}, b - {x});
    }
  }

  ghost predicate Finished(edges: seq<Edge>, output: seq<nat>) {
    forall i, v :: 0 <= i < |output| && Edge(output[i], v) in edges ==> v in output[..i]
  }

  lemma ExtendPath(edges: seq<Edge>, path: seq<nat>, b: nat)
    requires forall i :: 0 <= i < |path| - 1 ==> Arc(edges, path, i)
    requires path == [] || Edge(path[|path| - 1], b) in edges
    ensures forall i :: 0 <= i < |path + [b]| - 1 ==> Arc(edges, path + [b], i)
  {
    forall i | 0 <= i < |path + [b]| - 1
      ensures Arc(edges, path + [b], i)
    {
      if i < |path| - 1 {
        assert Arc(edges, path, i);
      }
    }
  }

  /** An edge back to a block on the path closes a loop. */
  lemma ClosesLoop(edges: seq<Edge>, blocks: seq<nat>, path: seq<nat>, b: nat)
    requires forall i :: 0 <= i < |path| - 1 ==> Arc(edges, path, i)
    requires forall x :: x in path ==> x in blocks
    requires b in path && Edge(path[|path| - 1], b) in edges
    ensures HasCycle(edges, blocks)
  {
    var k :| 0 <= k < |path| && path[k] == b;
    ExtendPath(edges, path, b);
    var longer := path + [b];
    var p := longer[k..];
    forall i | 0 <= i < |p| - 1
      ensures Arc(edges, p, i)
    {
      assert Arc(edges, longer, k + i);
    }
    assert Cycle(edges, blocks, p);
  }

  /** Joined by an edge in either direction. */
  ghost predicate Joined(edges: seq<Edge>, a: nat, b: nat) { Edge(a, b) in edges || Edge(b, a) in edges }

  function Reverse(s: seq<nat>): (r: seq<nat>)
    ensures |r| == |s| && forall i :: 0 <= i < |s| ==> r[i] == s[|s| - 1 - i]
  {
    seq(|s|, i requires 0 <= i < |s| => s[|s| - 1 - i])
  }

  /** The order in which blocks are finished, read backwards, is a topological one. */
  lemma ReverseOrders(edges: seq<Edge>, output: seq<nat>)
    requires Finished(edges, output) && NoDup(output)
    ensures Ordered(edges, Reverse(output)) && SameBlocks(Reverse(output), output)
  {
    var r, n := Reverse(output), |output|;
    forall i, j | 0 <= i < n && 0 <= j < n && Edge(r[i], r[j]) in edges
      ensures i < j
    {
      assert output[n - 1 - j] in output[..n - 1 - i];
      var k :| 0 <= k < n - 1 - i && output[k] == output[n - 1 - j];
    }
    forall x | x in output
      ensures x in r
    {
      var k :| 0 <= k < n && output[k] == x;
      assert r[n - 1 - k] == x;
    }
  }

  lemma SameBlocksCycle(edges: seq<Edge>, a: seq<nat>, b: seq<nat>)
    requires forall x :: x in a <==> x in b
    ensures HasCycle(edges, a) <==> HasCycle(edges, b)
  {
    if HasCycle(edges, a) {
      var p :| Cycle(edges, a, p);
      assert Cycle(edges, b, p);
    }
    if HasCycle(edges, b) {
      var p :| Cycle(edges, b, p);
      assert Cycle(edges, a, p);
    }
  }

  // ---- Connection ----

  ghost predicate JoinedClosed(edges: seq<Edge>, blocks: seq<nat>) {
    forall u, v :: u in blocks && Joined(edges, u, v) ==> v in blocks
  }

  ghost predicate Walk(edges: seq<Edge>, p: seq<nat>) {
    forall i :: 0 <= i < |p| - 1 ==> StepOf(edges, p, i)
  }

  ghost predicate StepOf(edges: seq<Edge>, p: seq<nat>, i: nat)
    requires i + 1 < |p|
  {
    Joined(edges, p[i], p[i + 1])
  }

  /** Connected through edges in either direction. */
  ghost predicate Linked(edges: seq<Edge>, a: nat, b: nat) {
    exists p :: |p| > 0 && p[0] == a && p[|p| - 1] == b && Walk(edges, p)
  }

  lemma LinkedToItself(edges: seq<Edge>, a: nat)
    ensures Linked(edges, a, a)
  {
    var p := [a];
    assert Walk(edges, p) && p[0] == a && p[|p| - 1] == a;
  }

  lemma LinkedLonger(edges: seq<Edge>, a: nat, b: nat, x: nat)
    requires Joined(edges, a, b) && Linked(edges, b, x)
    ensures Linked(edges, a, x)
  {
    var p :| |p| > 0 && p[0] == b && p[|p| - 1] == x && Walk(edges, p);
    var q := [a] + p;
    forall i | 0 <= i < |q| - 1
      ensures StepOf(edges, q, i)
    {
      if i > 0 {
        assert StepOf(edges, p, i - 1);
      }
    }
    assert Walk(edges, q) && q[0] == a && q[|q| - 1] == x;
  }

  lemma LinkedThrough(edges: seq<Edge>, a: nat, b: nat, xs: set<nat>)
    requires Joined(edges, a, b) && forall x :: x in xs ==> Linked(edges, b, x)
    ensures forall x :: x in xs ==> Linked(edges, a, x)
  {
    forall x | x in xs
      ensures Linked(edges, a, x)
    {
      LinkedLonger(edges, a, b, x);
    }
  }

  method EraseOne(blocks: seq<nat>, b: nat) returns (r: seq<nat>)
    requires NoDup(blocks) && b in blocks
    ensures NoDup(r) && |r| + 1 == |blocks| && forall x :: x in r <==> x in blocks && x != b
  {
    var i := 0;
    while blocks[i] != b
      invariant i < |blocks| && b !in blocks[..i]
      decreases |blocks| - i
    {
      i := i + 1;
    }
    r := blocks[..i] + blocks[i + 1..];
    assert blocks == blocks[..i] + [b] + blocks[i + 1..];
  }

  // ---- The parts ----

  ghost predicate AnyCycle(edges: seq<Edge>, p: seq<nat>) {
    |p| >= 2 && p[0] == p[|p| - 1] && forall i :: 0 <= i < |p| - 1 ==> Arc(edges, p, i)
  }

  ghost predicate InParts(parts: seq<seq<nat>>, x: nat) { exists i :: 0 <= i < |parts| && x in parts[i] }

  ghost predicate Used(edges: seq<Edge>, x: nat) { exists e :: e in edges && (x == e.src || x == e.dst) }

  /** One connected part: every two of its blocks are linked, no edge leaves it, and its order
      puts the source of every edge before its destination. */
  ghost predicate PartOk(edges: seq<Edge>, part: seq<nat>) {
    && part != [] && NoDup(part) && JoinedClosed(edges, part) && Ordered(edges, part)
    && forall x, y :: x in part && y in part ==> Linked(edges, x, y)
  }

  ghost predicate PartsOk(edges: seq<Edge>, parts: seq<seq<nat>>) {
    && (forall i :: 0 <= i < |parts| ==> PartOk(edges, parts[i]))
    && forall i, j, x :: 0 <= i < |parts| && 0 <= j < |parts| && x in parts[i] && x in parts[j] ==> i == j
  }

  /** Disjoint connected parts that hold exactly the used blocks. */
  ghost predicate IsPartition(edges: seq<Edge>, parts: seq<seq<nat>>) {
    PartsOk(edges, parts) && forall x :: Used(edges, x) <==> InParts(parts, x)
  }

  lemma PartsCover(edges: seq<Edge>, parts: seq<seq<nat>>, used: seq<nat>)
    requires PartsOk(edges, parts) && (forall x :: x in used <==> InParts(parts, x))
    requires forall x :: x in used <==> exists e :: e in edges && (x == e.src || x == e.dst)
    ensures IsPartition(edges, parts)
  {
  }

  lemma UsedIsClosed(edges: seq<Edge>, used: seq<nat>)
    requires forall x :: x in used <==> exists e :: e in edges && (x == e.src || x == e.dst)
    ensures JoinedClosed(edges, used)
  {
    forall u, v | u in used && Joined(edges, u, v)
      ensures v in used
    {
      var e := if Edge(u, v) in edges then Edge(u, v) else Edge(v, u);
      assert e in edges && (v == e.src || v == e.dst);
    }
  }

  lemma LoopAnywhere(edges: seq<Edge>, blocks: seq<nat>)
    requires HasCycle(edges, blocks)
    ensures exists p :: AnyCycle(edges, p)
  {
    var p :| Cycle(edges, blocks, p);
    assert AnyCycle(edges, p);
  }

  /** A loop stays within one part. */
  lemma {:induction false} LoopInPart(edges: seq<Edge>, part: seq<nat>, p: seq<nat>, k: nat)
    requires AnyCycle(edges, p) && JoinedClosed(edges, part) && p[0] in part && k < |p|
    ensures p[k] in part
  {
    if k > 0 {
      LoopInPart(edges, part, p, k - 1);
      assert Arc(edges, p, k - 1);
      assert Joined(edges, p[k - 1], p[k]);
    }
  }

  lemma NoLoopAnywhere(edges: seq<Edge>, parts: seq<seq<nat>>)
    requires PartsOk(edges, parts) && forall x :: Used(edges, x) ==> InParts(parts, x)
    ensures !exists p :: AnyCycle(edges, p)
  {
    forall p | AnyCycle(edges, p)
      ensures false
    {
      assert Arc(edges, p, 0);
      assert Used(edges, p[0]);
      var i :| 0 <= i < |parts| && p[0] in parts[i];
      forall k | 0 <= k < |p|
        ensures p[k] in parts[i]
      {
        LoopInPart(edges, parts[i], p, k);
      }
      OrderMeansNoCycle(edges, parts[i]);
      assert Cycle(edges, parts[i], p);
    }
  }

  lemma PartFits(edges: seq<Edge>, parts: seq<seq<nat>>, graph: seq<nat>, order: seq<nat>, b: nat)
    requires PartsOk(edges, parts) && JoinedClosed(edges, graph) && SameBlocks(order, graph) && Ordered(edges, order)
    requires b in graph && (forall x :: x in graph ==> Linked(edges, b, x) && !InParts(parts, x))
    ensures PartsOk(edges, parts + [order])
    ensures forall x :: InParts(parts + [order], x) <==> InParts(parts, x) || x in graph
  {
    forall x, y | x in order && y in order
      ensures Linked(edges, x, y)
    {
      LinkedBack(edges, b, x);
      LinkedOn(edges, x, b, y);
    }
    var more := parts + [order];
    forall x
      ensures InParts(more, x) <==> InParts(parts, x) || x in graph
    {
      if InParts(parts, x) {
        var i :| 0 <= i < |parts| && x in parts[i];
        assert x in more[i];
      }
      if x in graph {
        assert x in more[|parts|];
      }
    }
  }

  lemma {:induction false} LinkedBack(edges: seq<Edge>, a: nat, b: nat)
    requires Linked(edges, a, b)
    ensures Linked(edges, b, a)
  {
    var p :| |p| > 0 && p[0] == a && p[|p| - 1] == b && Walk(edges, p);
    var q := Reverse(p);
    forall i | 0 <= i < |q| - 1
      ensures StepOf(edges, q, i)
    {
      assert StepOf(edges, p, |p| - 2 - i);
    }
    assert Walk(edges, q) && q[0] == b && q[|q| - 1] == a;
  }

  lemma LinkedOn(edges: seq<Edge>, a: nat, b: nat, c: nat)
    requires Linked(edges, a, b) && Linked(edges, b, c)
    ensures Linked(edges, a, c)
  {
    var p :| |p| > 0 && p[0] == a && p[|p| - 1] == b && Walk(edges, p);
    var q :| |q| > 0 && q[0] == b && q[|q| - 1] == c && Walk(edges, q);
    var r := p + q[1..];
    forall i | 0 <= i < |r| - 1
      ensures StepOf(edges, r, i)
    {
      if i < |p| - 1 {
        assert StepOf(edges, p, i);
      } else {
        assert StepOf(edges, q, i - (|p| - 1));
      }
    }
    assert Walk(edges, r) && r[0] == a && r[|r| - 1] == c;
  }
}
