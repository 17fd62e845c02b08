/** Basic blocks and instruction-level dominance. */
module Cfg {
  import opened Bytecode
  import opened Control
  import opened Digraph
  import RPO = ReversePostorder
  import opened DominatorTree
  import opened Sequences
  import opened ImmediateDominators

  // ----- The instruction graph -----

  /** The members of `s` that index one of the first `n` instructions. */
  function Within(s: seq<int>, n: nat): (r: seq<nat>)
    ensures forall x: nat :: x in r <==> x in s && x < n
  {
    if s == [] then []
    else (if 0 <= s[0] < n then [s[0]] else []) + Within(s[1..], n)
  }

  /** Instructions and their successors; targets past the end are dropped. */
  function FlowGraph(chunk: Chunk): Graph {
    seq(|chunk.code|, i requires 0 <= i < |chunk.code| => Within(Successors(chunk, i), |chunk.code|))
  }

  /** Paths of the graph are the runs of control. */
  lemma PathsAreRuns(chunk: Chunk, p: seq<nat>)
    ensures IsPath(FlowGraph(chunk), p) <==> IsRun(chunk, p)
  {
    forall u: nat, v: nat | u < |chunk.code| && v < |chunk.code|
      ensures v in FlowGraph(chunk)[u] <==> Sends(chunk, u, v)
    {
      SuccessorsAreSent(chunk, u, v);
    }
    hide FlowGraph, Sends;
    assert |FlowGraph(chunk)| == |chunk.code| by {
      GraphSize(chunk);
    }
  }

  lemma GraphSize(chunk: Chunk)
    ensures |FlowGraph(chunk)| == |chunk.code|
  {
  }

  lemma ReachableIffCanRun(chunk: Chunk, v: nat)
    ensures Reachable(FlowGraph(chunk), v) <==> CanRun(chunk, v)
  {
    hide FlowGraph, IsPath, IsRun;
    forall p
      ensures PathTo(FlowGraph(chunk), p, v) <==> RunsTo(chunk, p, v)
    {
      PathsAreRuns(chunk, p);
    }
  }

  lemma DominatesIffMustPass(chunk: Chunk, c: nat, v: nat)
    ensures Dominates(FlowGraph(chunk), c, v) <==> MustPass(chunk, c, v)
  {
    hide FlowGraph, IsPath, IsRun;
    forall p
      ensures PathTo(FlowGraph(chunk), p, v) <==> RunsTo(chunk, p, v)
    {
      PathsAreRuns(chunk, p);
    }
  }

  // ----- Basic blocks -----

  /** One past the last instruction of block `b`. */
  function End(starts: seq<nat>, n: nat, b: nat): nat {
    if b + 1 < |starts| then starts[b + 1] else n
  }

  /** The blocks cut `0..n` into consecutive nonempty ranges. */
  ghost predicate Partition(n: nat, starts: seq<nat>, blockOf: seq<nat>) {
    && |starts| > 0
    && starts[0] == 0
    && |blockOf| == n
    && (forall b, d :: 0 <= b < d < |starts| ==> starts[b] < starts[d])
    && (forall b :: 0 <= b < |starts| ==> starts[b] < n)
    && (forall i :: 0 <= i < n ==> Placed(n, starts, blockOf, i))
  }

  ghost predicate Placed(n: nat, starts: seq<nat>, blockOf: seq<nat>, i: nat)
    requires i < |blockOf|
  {
    InBlock(n, starts, i, blockOf[i])
  }

  ghost predicate InBlock(n: nat, starts: seq<nat>, i: nat, b: nat) {
    b < |starts| && starts[b] <= i < End(starts, n, b)
  }

  /** Control falls through inside a block and enters one only at its start. */
  ghost predicate Straightened(ig: Graph, starts: seq<nat>, blockOf: seq<nat>) {
    && |blockOf| == |ig|
    && (forall i, t :: 0 <= i < |ig| && t in ig[i] ==> t < |ig|)
    && (forall i :: 0 <= i < |ig| ==> Leaves(ig, starts, blockOf, i))
  }

  ghost predicate Leaves(ig: Graph, starts: seq<nat>, blockOf: seq<nat>, i: nat)
    requires i < |ig| == |blockOf|
  {
    if i + 1 < End(starts, |ig|, blockOf[i]) then ig[i] == [i + 1]
    else forall t :: t in ig[i] ==> t in starts
  }

  /** The block edges are the edges of the blocks' last instructions. */
  ghost predicate Lifts(ig: Graph, starts: seq<nat>, bg: Graph) {
    && |bg| == |starts|
    && (forall b: nat, d: nat :: b < |bg| ==> (d in bg[b] <==> BlockEdge(ig, starts, b, d)))
  }

  ghost predicate BlockEdge(ig: Graph, starts: seq<nat>, b: nat, d: nat) {
    && b < |starts| && d < |starts|
    && 0 < End(starts, |ig|, b) <= |ig|
    && starts[d] in ig[End(starts, |ig|, b) - 1]
  }

  ghost predicate Blocks(ig: Graph, starts: seq<nat>, blockOf: seq<nat>, bg: Graph) {
    && Partition(|ig|, starts, blockOf)
    && Straightened(ig, starts, blockOf)
    && Lifts(ig, starts, bg)
  }

  lemma LastOfBlock(n: nat, starts: seq<nat>, blockOf: seq<nat>, b: nat)
    requires Partition(n, starts, blockOf) && b < |starts|
    ensures 0 < End(starts, n, b) <= n && blockOf[End(starts, n, b) - 1] == b
  {
    var last := End(starts, n, b) - 1;
    SameBlock(n, starts, blockOf, last, b);
  }

  lemma SameBlock(n: nat, starts: seq<nat>, blockOf: seq<nat>, i: nat, b: nat)
    requires Partition(n, starts, blockOf) && i < n && InBlock(n, starts, i, b)
    ensures blockOf[i] == b
  {
    assert Placed(n, starts, blockOf, i);
  }

  // ----- Paths correspond -----

  /** A block path, read as an instruction path ending at `t`: it runs whole
      blocks and then the last block up to `t`. */
  lemma LiftPath(ig: Graph, starts: seq<nat>, blockOf: seq<nat>, bg: Graph, q: seq<nat>, t: nat)
    returns (p: seq<nat>)
    requires Blocks(ig, starts, blockOf, bg) && t < |ig| && PathTo(bg, q, blockOf[t])
    ensures PathTo(ig, p, t)
    ensures forall i :: i in p ==>
              i < |ig| && (blockOf[i] in q[..|q| - 1] || (blockOf[i] == blockOf[t] && i <= t))
    decreases |q|, t
  {
    var b := blockOf[t];
    assert Placed(|ig|, starts, blockOf, t);
    if t > starts[b] {
      SameBlock(|ig|, starts, blockOf, t - 1, b);
      p := LiftPath(ig, starts, blockOf, bg, q, t - 1);
      assert Leaves(ig, starts, blockOf, t - 1);
      PathExtends(ig, p, t - 1, t);
      p := p + [t];
    } else if |q| == 1 {
      p := [0];
    } else {
      PathShrinks(bg, q);
      var q', b' := q[..|q| - 1], q[|q| - 2];
      assert BlockEdge(ig, starts, b', b);
      LastOfBlock(|ig|, starts, blockOf, b');
      var last := End(starts, |ig|, b') - 1;
      p := LiftPath(ig, starts, blockOf, bg, q', last);
      assert q' == q'[..|q'| - 1] + [b'];
      PathExtends(ig, p, last, t);
      p := p + [t];
    }
  }

  /** An instruction path to `t`, read as a block path: it passed every
      instruction of the earlier blocks, and its own block up to `t`. */
  lemma ProjectPath(ig: Graph, starts: seq<nat>, blockOf: seq<nat>, bg: Graph, p: seq<nat>)
    returns (q: seq<nat>)
    requires Blocks(ig, starts, blockOf, bg) && IsPath(ig, p)
    ensures PathTo(bg, q, blockOf[p[|p| - 1]])
    ensures forall i :: 0 <= i < |ig| && blockOf[i] in q && blockOf[i] != blockOf[p[|p| - 1]] ==> i in p
    ensures PassedUpTo(starts, blockOf, p)
    decreases |p|
  {
    var t := p[|p| - 1];
    if |p| == 1 {
      q := [0];
      SameBlock(|ig|, starts, blockOf, 0, 0);
    } else {
      PathShrinks(ig, p);
      var p', s := p[..|p| - 1], p[|p| - 2];
      assert p == p' + [t];
      q := ProjectPath(ig, starts, blockOf, bg, p');
      assert Placed(|ig|, starts, blockOf, s) && Leaves(ig, starts, blockOf, s);
      if s + 1 < End(starts, |ig|, blockOf[s]) {
        SameBlock(|ig|, starts, blockOf, t, blockOf[s]);
      } else {
        var d :| 0 <= d < |starts| && starts[d] == t;
        SameBlock(|ig|, starts, blockOf, t, d);
        WholeBlock(ig, starts, blockOf, p', s);
        assert BlockEdge(ig, starts, blockOf[s], d);
        PathExtends(bg, q, blockOf[s], d);
        q := q + [d];
      }
    }
  }

  /** The path passed every instruction of its last block up to its end. */
  ghost predicate PassedUpTo(starts: seq<nat>, blockOf: seq<nat>, p: seq<nat>)
    requires |p| > 0 && p[|p| - 1] < |blockOf| && blockOf[p[|p| - 1]] < |starts|
  {
    forall i :: starts[blockOf[p[|p| - 1]]] <= i <= p[|p| - 1] ==> i in p
  }

  lemma WholeBlock(ig: Graph, starts: seq<nat>, blockOf: seq<nat>, p: seq<nat>, s: nat)
    requires Partition(|ig|, starts, blockOf) && |p| > 0 && p[|p| - 1] == s < |ig|
    requires blockOf[s] < |starts| && PassedUpTo(starts, blockOf, p)
    requires s + 1 >= End(starts, |ig|, blockOf[s])
    ensures forall i :: 0 <= i < |ig| && blockOf[i] == blockOf[s] ==> i in p
  {
    forall i | 0 <= i < |ig| && blockOf[i] == blockOf[s]
      ensures i in p
    {
      assert Placed(|ig|, starts, blockOf, i);
    }
  }

  lemma ReachabilityTransfers(ig: Graph, starts: seq<nat>, blockOf: seq<nat>, bg: Graph, t: nat)
    requires Blocks(ig, starts, blockOf, bg) && t < |ig|
    ensures Reachable(ig, t) <==> Reachable(bg, blockOf[t])
  {
    if Reachable(ig, t) {
      var p :| PathTo(ig, p, t);
      var q := ProjectPath(ig, starts, blockOf, bg, p);
    }
    if Reachable(bg, blockOf[t]) {
      var q :| PathTo(bg, q, blockOf[t]);
      var p := LiftPath(ig, starts, blockOf, bg, q, t);
    }
  }

  lemma DominanceAcrossBlocks(ig: Graph, starts: seq<nat>, blockOf: seq<nat>, bg: Graph, c: nat, t: nat)
    requires Blocks(ig, starts, blockOf, bg) && c < |ig| && t < |ig| && blockOf[c] != blockOf[t]
    ensures Dominates(ig, c, t) <==> Dominates(bg, blockOf[c], blockOf[t])
  {
    if Dominates(bg, blockOf[c], blockOf[t]) {
      forall p | PathTo(ig, p, t)
        ensures c in p
      {
        var q := ProjectPath(ig, starts, blockOf, bg, p);
      }
    }
    if Dominates(ig, c, t) {
      forall q | PathTo(bg, q, blockOf[t])
        ensures blockOf[c] in q
      {
        var p := LiftPath(ig, starts, blockOf, bg, q, t);
      }
    }
  }

  lemma DominanceInsideBlock(ig: Graph, starts: seq<nat>, blockOf: seq<nat>, bg: Graph, c: nat, t: nat)
    requires Blocks(ig, starts, blockOf, bg) && c < |ig| && t < |ig| && blockOf[c] == blockOf[t]
    requires Reachable(ig, t)
    ensures Dominates(ig, c, t) <==> c <= t
  {
    assert Placed(|ig|, starts, blockOf, c);
    if c <= t {
      forall p | PathTo(ig, p, t)
        ensures c in p
      {
        var q := ProjectPath(ig, starts, blockOf, bg, p);
      }
    } else {
      ReachabilityTransfers(ig, starts, blockOf, bg, t);
      var q0 :| PathTo(bg, q0, blockOf[t]);
      var q := FirstVisit(bg, q0, blockOf[t]);
      var p := LiftPath(ig, starts, blockOf, bg, q, t);
      assert c !in p;
    }
  }

  /** A path can be cut at its first visit to its end. */
  lemma {:induction false} FirstVisit(g: Graph, q: seq<nat>, v: nat) returns (r: seq<nat>)
    requires PathTo(g, q, v)
    ensures PathTo(g, r, v) && v !in r[..|r| - 1]
    decreases |q|
  {
    if v in q[..|q| - 1] {
      var k :| 0 <= k < |q| - 1 && q[k] == v;
      assert PathTo(g, q[..k + 1], v);
      r := FirstVisit(g, q[..k + 1], v);
    } else {
      r := q;
    }
  }

  // ----- Cutting the code into blocks -----

  ghost predicate MarksAfter(chunk: Chunk, leaders: seq<bool>, i: nat)
    requires i < |chunk.code| == |leaders|
  {
    BranchesOrTerminates(chunk.code[i]) ==>
      && (i + 1 < |leaders| ==> leaders[i + 1])
      && (forall t :: t in Successors(chunk, i) && 0 <= t < |leaders| ==> leaders[t])
  }

  ghost predicate Leaders(chunk: Chunk, leaders: seq<bool>, n: nat) {
    && |leaders| == |chunk.code| > 0
    && n <= |leaders|
    && leaders[0]
    && (forall i :: 0 <= i < n ==> MarksAfter(chunk, leaders, i))
  }

  lemma MarkingMore(chunk: Chunk, leaders: seq<bool>, n: nat, k: nat)
    requires Leaders(chunk, leaders, n) && k < |leaders|
    ensures Leaders(chunk, leaders[k := true], n)
  {
    var leaders' := leaders[k := true];
    forall i | 0 <= i < n
      ensures MarksAfter(chunk, leaders', i)
    {
      assert MarksAfter(chunk, leaders, i);
    }
  }

  method FindLeaders(chunk: Chunk) returns (leaders: seq<bool>)
    requires |chunk.code| > 0
    ensures Leaders(chunk, leaders, |chunk.code|)
  {
    var n := |chunk.code|;
    leaders := seq(n, _ => false);
    leaders := leaders[0 := true];
    for index := 0 to n
      invariant Leaders(chunk, leaders, index)
    {
      if BranchesOrTerminates(chunk.code[index]) {
        if index + 1 < n {
          MarkingMore(chunk, leaders, index, index + 1);
          leaders := leaders[index + 1 := true];
        }
        var edges := Successors(chunk, index);
        for e := 0 to |edges|
          invariant Leaders(chunk, leaders, index)
          invariant index + 1 < n ==> leaders[index + 1]
          invariant forall j :: 0 <= j < e && 0 <= edges[j] < n ==> leaders[edges[j]]
        {
          if 0 <= edges[e] < n {
            MarkingMore(chunk, leaders, index, edges[e]);
            leaders := leaders[edges[e] := true];
          }
        }
      }
      assert MarksAfter(chunk, leaders, index);
    }
  }

  method CollectStarts(leaders: seq<bool>) returns (starts: seq<nat>)
    requires |leaders| > 0 && leaders[0]
    ensures |starts| > 0 && starts[0] == 0
    ensures forall b, d :: 0 <= b < d < |starts| ==> starts[b] < starts[d]
    ensures forall i: nat :: i in starts <==> i < |leaders| && leaders[i]
  {
    starts := [];
    for index := 0 to |leaders|
      invariant index > 0 ==> |starts| > 0 && starts[0] == 0
      invariant forall b, d :: 0 <= b < d < |starts| ==> starts[b] < starts[d]
      invariant forall b :: 0 <= b < |starts| ==> starts[b] < index
      invariant forall i: nat :: i in starts <==> i < index && leaders[i]
    {
      if leaders[index] {
        starts := starts + [index];
      }
    }
  }

  method AssignBlocks(n: nat, starts: seq<nat>) returns (blockOf: seq<nat>)
    requires |starts| > 0 && starts[0] == 0
    requires forall b, d :: 0 <= b < d < |starts| ==> starts[b] < starts[d]
    requires forall b :: 0 <= b < |starts| ==> starts[b] < n
    ensures Partition(n, starts, blockOf)
  {
    blockOf := seq(n, _ => 0);
    for block := 0 to |starts|
      invariant |blockOf| == n
      invariant forall i :: 0 <= i < (if block < |starts| then starts[block] else n) ==> Placed(n, starts, blockOf, i)
    {
      var start, end := starts[block], End(starts, n, block);
      ghost var before := blockOf;
      blockOf := blockOf[..start] + seq(end - start, _ => block) + blockOf[end..];
      forall i | 0 <= i < end
        ensures Placed(n, starts, blockOf, i)
      {
        if i < start {
          assert Placed(n, starts, before, i) && blockOf[i] == before[i];
        } else {
          assert blockOf[i] == block;
        }
      }
    }
  }

  lemma BlocksAreStraight(chunk: Chunk, leaders: seq<bool>, starts: seq<nat>, blockOf: seq<nat>)
    requires Leaders(chunk, leaders, |chunk.code|)
    requires forall i: nat :: i in starts <==> i < |leaders| && leaders[i]
    requires Partition(|chunk.code|, starts, blockOf)
    ensures Straightened(FlowGraph(chunk), starts, blockOf)
  {
    var n, ig := |chunk.code|, FlowGraph(chunk);
    forall i | 0 <= i < n
      ensures Leaves(ig, starts, blockOf, i)
    {
      assert MarksAfter(chunk, leaders, i) && Placed(n, starts, blockOf, i);
      if i + 1 < End(starts, n, blockOf[i]) {
        assert i + 1 !in starts;
        assert Within([i + 1], n) == [i + 1] + Within([], n);
      } else if !BranchesOrTerminates(chunk.code[i]) {
        assert blockOf[i] + 1 < |starts| ==> starts[blockOf[i] + 1] in starts;
      }
    }
  }

  // ----- Block edges -----

  ghost predicate Mirror(outgoing: Graph, incoming: Graph) {
    && |incoming| == |outgoing|
    && (forall u: nat, v: nat :: v < |incoming| ==> (u in incoming[v] <==> RPO.Edge(outgoing, u, v)))
  }

  /** The edges of the first `n` blocks are in place and the rest have none. */
  ghost predicate LiftsTo(ig: Graph, starts: seq<nat>, outgoing: Graph, n: nat) {
    && |outgoing| == |starts|
    && (forall b: nat, d: nat :: b < n <= |outgoing| ==> (d in outgoing[b] <==> BlockEdge(ig, starts, b, d)))
    && (forall b :: n <= b < |outgoing| ==> outgoing[b] == [])
  }

  lemma EdgeIsBlockEdge(ig: Graph, starts: seq<nat>, blockOf: seq<nat>, b: nat, edge: nat)
    requires Partition(|ig|, starts, blockOf) && Straightened(ig, starts, blockOf) && b < |starts|
    requires 0 < End(starts, |ig|, b) <= |ig| && edge in ig[End(starts, |ig|, b) - 1]
    ensures edge < |ig| && BlockEdge(ig, starts, b, blockOf[edge])
  {
    LastOfBlock(|ig|, starts, blockOf, b);
    assert Leaves(ig, starts, blockOf, End(starts, |ig|, b) - 1);
    var d :| 0 <= d < |starts| && starts[d] == edge;
    SameBlock(|ig|, starts, blockOf, edge, d);
  }

  lemma BlockEdgeIsEdge(ig: Graph, starts: seq<nat>, blockOf: seq<nat>, b: nat, d: nat)
    requires Partition(|ig|, starts, blockOf) && BlockEdge(ig, starts, b, d)
    ensures starts[d] in ig[End(starts, |ig|, b) - 1] && starts[d] < |ig| && blockOf[starts[d]] == d
  {
    SameBlock(|ig|, starts, blockOf, starts[d], d);
  }

  lemma PushMirrors(outgoing: Graph, incoming: Graph, b: nat, d: nat)
    requires Mirror(outgoing, incoming) && b < |outgoing| && d < |outgoing|
    ensures Mirror(outgoing[b := outgoing[b] + [d]], incoming[d := incoming[d] + [b]])
  {
    var outgoing', incoming' := outgoing[b := outgoing[b] + [d]], incoming[d := incoming[d] + [b]];
    forall u: nat, v: nat | v < |incoming'|
      ensures u in incoming'[v] <==> RPO.Edge(outgoing', u, v)
    {
      assert u in incoming[v] <==> RPO.Edge(outgoing, u, v);
    }
  }

  ghost predicate EachOnce(g: Graph) {
    forall b :: 0 <= b < |g| ==> Distinct(g[b])
  }

  lemma PushOnce(g: Graph, b: nat, d: nat)
    requires EachOnce(g) && b < |g| && d !in g[b]
    ensures EachOnce(g[b := g[b] + [d]])
  {
  }

  /** Edge number `j` leads into block `d`. */
  ghost predicate Leads(edges: seq<int>, blockOf: seq<nat>, j: nat, d: nat) {
    j < |edges| && 0 <= edges[j] < |blockOf| && blockOf[edges[j]] == d
  }

  /** Adds the distinct target blocks of one block, in edge order. */
  method AddTargets(edges: seq<int>, blockOf: seq<nat>, block: nat, out: Graph, in_: Graph)
    returns (outgoing: Graph, incoming: Graph)
    requires Mirror(out, in_) && EachOnce(out) && EachOnce(in_) && block < |out| && out[block] == []
    requires forall i :: 0 <= i < |blockOf| ==> blockOf[i] < |out|
    ensures Mirror(outgoing, incoming) && |outgoing| == |out| && outgoing == out[block := outgoing[block]]
    ensures forall d: nat :: d in outgoing[block] <==> exists j: nat :: Leads(edges, blockOf, j, d)
    ensures EachOnce(outgoing) && EachOnce(incoming)
  {
    outgoing, incoming := out, in_;
    for e := 0 to |edges|
      invariant Mirror(outgoing, incoming) && |outgoing| == |out| && outgoing == out[block := outgoing[block]]
      invariant forall d: nat :: d in outgoing[block] ==> exists j: nat :: Leads(edges, blockOf, j, d)
      invariant forall j: nat, d: nat :: j < e && Leads(edges, blockOf, j, d) ==> d in outgoing[block]
      invariant EachOnce(outgoing) && EachOnce(incoming)
    {
      if 0 <= edges[e] < |blockOf| {
        var target := blockOf[edges[e]];
        assert Leads(edges, blockOf, e, target);
        if target !in outgoing[block] {
          PushMirrors(outgoing, incoming, block, target);
          assert block !in incoming[target];
          PushOnce(outgoing, block, target);
          PushOnce(incoming, target, block);
          outgoing := outgoing[block := outgoing[block] + [target]];
          incoming := incoming[target := incoming[target] + [block]];
        }
      }
    }
  }

  lemma FlowEdges(chunk: Chunk, i: nat)
    requires i < |chunk.code|
    ensures |FlowGraph(chunk)| == |chunk.code|
    ensures forall x: nat :: x in FlowGraph(chunk)[i] <==> x in Successors(chunk, i) && x < |chunk.code|
  {
  }

  lemma PartitionSize(n: nat, starts: seq<nat>, blockOf: seq<nat>)
    requires Partition(n, starts, blockOf)
    ensures |blockOf| == n
  {
  }

  lemma TargetsAreBlockEdges(
    chunk: Chunk, starts: seq<nat>, blockOf: seq<nat>, block: nat, edges: seq<int>, d: nat)
    requires Partition(|chunk.code|, starts, blockOf) && Straightened(FlowGraph(chunk), starts, blockOf)
    requires block < |starts| && 0 < End(starts, |chunk.code|, block) <= |chunk.code|
    requires edges == Successors(chunk, End(starts, |chunk.code|, block) - 1)
    ensures (exists j: nat :: Leads(edges, blockOf, j, d)) <==> BlockEdge(FlowGraph(chunk), starts, block, d)
  {
    var ig := FlowGraph(chunk);
    var last := End(starts, |chunk.code|, block) - 1;
    FlowEdges(chunk, last);
    hide FlowGraph, Successors, Partition, Straightened;
    if j: nat :| Leads(edges, blockOf, j, d) {
      PartitionSize(|chunk.code|, starts, blockOf);
      assert edges[j] in ig[last];
      EdgeIsBlockEdge(ig, starts, blockOf, block, edges[j]);
    }
    if BlockEdge(ig, starts, block, d) {
      BlockEdgeIsEdge(ig, starts, blockOf, block, d);
      var j :| 0 <= j < |edges| && edges[j] == starts[d];
      assert Leads(edges, blockOf, j, d);
    }
  }

  method ConnectBlocks(chunk: Chunk, starts: seq<nat>, blockOf: seq<nat>)
    returns (outgoing: Graph, incoming: Graph)
    requires Partition(|chunk.code|, starts, blockOf) && Straightened(FlowGraph(chunk), starts, blockOf)
    ensures Lifts(FlowGraph(chunk), starts, outgoing) && Mirror(outgoing, incoming)
    ensures EachOnce(outgoing) && EachOnce(incoming)
  {
    outgoing := seq(|starts|, _ => []);
    incoming := seq(|starts|, _ => []);
    forall i | 0 <= i < |blockOf|
      ensures blockOf[i] < |starts|
    {
      assert Placed(|chunk.code|, starts, blockOf, i);
    }
    for block := 0 to |starts|
      invariant LiftsTo(FlowGraph(chunk), starts, outgoing, block) && Mirror(outgoing, incoming)
      invariant EachOnce(outgoing) && EachOnce(incoming)
    {
      LastOfBlock(|chunk.code|, starts, blockOf, block);
      var edges := Successors(chunk, End(starts, |chunk.code|, block) - 1);
      forall d: nat {
        TargetsAreBlockEdges(chunk, starts, blockOf, block, edges, d);
      }
      outgoing, incoming := AddTargets(edges, blockOf, block, outgoing, incoming);
    }
  }

  // ----- The dominator index -----

  datatype Dominators = Dominators(blockOf: seq<nat>, immediate: Forest)

  /** The index describes this chunk: its blocks, and for each of them
      exactly the dominators as ancestors. */
  ghost predicate Describes(d: Dominators, chunk: Chunk) {
    exists starts, outgoing, rank ::
      Blocks(FlowGraph(chunk), starts, d.blockOf, outgoing) && Exact(outgoing, d.immediate, rank)
  }

  /** Some run of control from the entry gets to `i`. */
  predicate IsReachable(d: Dominators, ghost chunk: Chunk, i: nat)
    requires Describes(d, chunk) && i < |chunk.code|
    ensures IsReachable(d, chunk, i) <==> CanRun(chunk, i)
  {
    BlockFacts(d, chunk, i);
    ReachableIffCanRun(chunk, i);
    d.immediate[d.blockOf[i]].Some?
  }

  lemma BlockFacts(d: Dominators, chunk: Chunk, i: nat)
    requires Describes(d, chunk) && i < |chunk.code|
    ensures i < |d.blockOf| && d.blockOf[i] < |d.immediate|
    ensures d.immediate[d.blockOf[i]].Some? <==> Reachable(FlowGraph(chunk), i)
  {
    var starts, outgoing, rank :|
      Blocks(FlowGraph(chunk), starts, d.blockOf, outgoing) && Exact(outgoing, d.immediate, rank);
    assert Placed(|chunk.code|, starts, d.blockOf, i);
    ReachabilityTransfers(FlowGraph(chunk), starts, d.blockOf, outgoing, i);
    assert IsSet(d.immediate, d.blockOf[i]) <==> d.immediate[d.blockOf[i]].Some?;
  }

  /** Climbs from the target's block; for a reachable target the answer is
      exactly whether every run of control to it passes the candidate. */
  method QueryDominates(d: Dominators, ghost chunk: Chunk, candidate: nat, target: nat) returns (r: bool)
    requires Describes(d, chunk) && candidate < |chunk.code| && target < |chunk.code|
    ensures CanRun(chunk, target) ==> (r <==> MustPass(chunk, candidate, target))
    ensures !CanRun(chunk, target) ==>
              (r <==> d.blockOf[candidate] == d.blockOf[target] && candidate <= target)
  {
    hide FlowGraph, CanRun, MustPass;
    ReachableIffCanRun(chunk, target);
    DominatesIffMustPass(chunk, candidate, target);
    ghost var ig := FlowGraph(chunk);
    ghost var starts, outgoing, rank :|
      Blocks(ig, starts, d.blockOf, outgoing) && Exact(outgoing, d.immediate, rank);
    BlockFacts(d, chunk, candidate);
    BlockFacts(d, chunk, target);
    var candidateBlock: nat, targetBlock: nat := d.blockOf[candidate], d.blockOf[target];
    if candidateBlock == targetBlock {
      if Reachable(ig, target) {
        DominanceInsideBlock(ig, starts, d.blockOf, outgoing, candidate, target);
      }
      return candidate <= target;
    }
    DominanceAcrossBlocks(ig, starts, d.blockOf, outgoing, candidate, target);
    ghost var bottom := targetBlock;
    while d.immediate[targetBlock].Some?
      invariant targetBlock < |d.immediate| && candidateBlock != targetBlock
      invariant IsSet(d.immediate, bottom) <==> IsSet(d.immediate, targetBlock)
      invariant IsSet(d.immediate, bottom) ==>
                  (Above(d.immediate, rank, candidateBlock, bottom) <==>
                   Above(d.immediate, rank, candidateBlock, targetBlock))
      decreases rank[targetBlock]
    {
      var parent := d.immediate[targetBlock].value;
      if parent == targetBlock {
        return false;
      }
      if parent == candidateBlock {
        return true;
      }
      targetBlock := parent;
    }
    return false;
  }

  const UNRANKED: nat := 0xFFFF_FFFF_FFFF_FFFF

  method RankOrder(n: nat, order: seq<nat>) returns (rank: seq<nat>)
    requires Distinct(order) && forall v :: v in order ==> v < n
    ensures |rank| == n
    ensures forall k :: 0 <= k < |order| ==> order[k] < |rank| && rank[order[k]] == k
  {
    rank := seq(n, _ => UNRANKED);
    for position := 0 to |order|
      invariant |rank| == n
      invariant forall k :: 0 <= k < position ==> order[k] < |rank| && rank[order[k]] == k
    {
      assert order[position] in order;
      rank := rank[order[position] := position];
    }
  }

  /** Leaders, blocks, block edges, reverse postorder, then the iteration. */
  method NewDominators(chunk: Chunk) returns (d: Dominators)
    requires |chunk.code| > 0
    ensures Describes(d, chunk)
    ensures forall i: nat :: i < |chunk.code| ==> (IsReachable(d, chunk, i) <==> CanRun(chunk, i))
  {
    var n := |chunk.code|;
    var leaders := FindLeaders(chunk);
    var starts := CollectStarts(leaders);
    assert forall b :: 0 <= b < |starts| ==> starts[b] in starts;
    var blockOf := AssignBlocks(n, starts);
    BlocksAreStraight(chunk, leaders, starts, blockOf);
    var outgoing, incoming := ConnectBlocks(chunk, starts, blockOf);
    assert Closed(outgoing) by {
      assert forall b: nat, d: nat :: b < |outgoing| && d in outgoing[b] ==> BlockEdge(FlowGraph(chunk), starts, b, d);
    }
    var order := RPO.Compute(outgoing);
    var rank := RankOrder(|outgoing|, order);
    var immediate := ImmediateDominators.Compute(Flow(outgoing, incoming, order, rank));
    d := Dominators(blockOf, immediate);
    assert Blocks(FlowGraph(chunk), starts, blockOf, outgoing);
  }
}
