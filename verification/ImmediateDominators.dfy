/** The iteration that refines the `immediate` vector to a fixpoint, one pass
    over the reverse postorder at a time. */
module ImmediateDominators {
  import opened Digraph
  import opened ReversePostorder
  import opened DominatorTree
  import opened Wrappers

  /** The block graph as the iteration sees it. */
  datatype Flow = Flow(outgoing: Graph, incoming: Graph, order: seq<nat>, rank: Rank) {
    ghost predicate Valid() {
      && Closed(outgoing)
      && |incoming| == |rank| == |outgoing|
      && (forall u: nat, v: nat :: v < |incoming| ==> (u in incoming[v] <==> Edge(outgoing, u, v)))
      && IsReversePostorder(outgoing, order)
      && (forall k :: 0 <= k < |order| ==> order[k] < |rank| && rank[order[k]] == k)
    }
  }

  // ----- What every state of the iteration satisfies -----

  ghost predicate Sane(c: Flow, imm: Forest) {
    && Tree(imm, c.rank)
    && |c.incoming| == |imm|
    && (forall v: nat :: IsSet(imm, v) ==> Ranked(c, v))
  }

  /** `v` is in the order, at the place its rank says. */
  ghost predicate Ranked(c: Flow, v: nat) {
    v < |c.rank| && c.rank[v] < |c.order| && c.order[c.rank[v]] == v
  }

  /** A strict dominator of a vertex dominates the vertex's current parent. */
  ghost predicate Local(c: Flow, imm: Forest) {
    forall v: nat, x: nat :: 0 < v && IsSet(imm, v) && x != v && Dominates(c.outgoing, x, v) ==>
      Dominates(c.outgoing, x, imm[v].value)
  }

  /** No common ancestor of a vertex's predecessors lies below its current parent. */
  ghost predicate Bounded(c: Flow, imm: Forest)
    requires Sane(c, imm)
  {
    forall b: nat, a: nat :: 0 < b && IsSet(imm, b) && Common(imm, c.rank, c.incoming[b], a) ==>
      IsSet(imm, a) && c.rank[a] <= c.rank[imm[b].value]
  }

  /** The parent of `b` is an ancestor of its lower-ranked predecessors. */
  ghost predicate Forward(c: Flow, imm: Forest, b: nat)
    requires Sane(c, imm) && IsSet(imm, b)
  {
    forall f: nat :: f in c.incoming[b] && IsSet(imm, f) && c.rank[f] < c.rank[b] ==>
      Above(imm, c.rank, imm[b].value, f)
  }

  /** The parent of `b` is an ancestor of all its predecessors. */
  ghost predicate Settled(c: Flow, imm: Forest, b: nat)
    requires Sane(c, imm)
  {
    b == 0 || (IsSet(imm, b) && Common(imm, c.rank, c.incoming[b], imm[b].value))
  }

  ghost predicate Full(c: Flow, imm: Forest, n: nat) {
    n <= |c.order| && forall k :: 0 <= k < n ==> IsSet(imm, c.order[k])
  }

  ghost predicate Bare(imm: Forest) {
    forall v: nat :: IsSet(imm, v) ==> v == 0
  }

  /** The state between passes. */
  ghost predicate Between(c: Flow, imm: Forest) {
    && c.Valid()
    && Sane(c, imm)
    && Local(c, imm)
    && Bounded(c, imm)
    && (Bare(imm) || Full(c, imm, |c.order|))
    && (forall b: nat :: 0 < b && IsSet(imm, b) ==> Forward(c, imm, b))
  }

  /** During this pass `x` moved, if at all, to one of its new ancestors. */
  ghost predicate Moved(c: Flow, from: Forest, imm: Forest, x: nat)
    requires Sane(c, from) && Sane(c, imm)
  {
    x > 0 && IsSet(from, x) ==>
      IsSet(imm, x) && IsSet(imm, from[x].value) && Above(imm, c.rank, imm[x].value, from[x].value)
  }

  /** The state after the first `i` entries of the order were processed, the
      pass having started from `from`. */
  ghost predicate During(c: Flow, from: Forest, imm: Forest, i: nat) {
    && Between(c, from)
    && Sane(c, imm)
    && Local(c, imm)
    && Bounded(c, imm)
    && 1 <= i <= |c.order|
    && Full(c, imm, i)
    && (forall k :: i <= k < |c.order| ==> imm[c.order[k]] == from[c.order[k]])
    && (forall k :: 0 < k < i ==> Forward(c, imm, c.order[k]))
    && (forall k :: 0 <= k < i ==> Moved(c, from, imm, c.order[k]))
  }

  // ----- Ranks and the order -----

  lemma RankOf(c: Flow, v: nat)
    requires c.Valid() && v in c.order
    ensures Ranked(c, v) && (v != 0 ==> c.rank[v] > 0)
  {
  }

  lemma SaneRanksDiffer(c: Flow, imm: Forest)
    requires Sane(c, imm)
    ensures RanksDiffer(imm, c.rank)
  {
    forall u: nat, v: nat | IsSet(imm, u) && IsSet(imm, v) && c.rank[u] == c.rank[v]
      ensures u == v
    {
      assert Ranked(c, u) && Ranked(c, v);
    }
  }

  lemma EarlierPredecessor(c: Flow, imm: Forest, i: nat) returns (f: nat)
    requires c.Valid() && Sane(c, imm) && 0 < i < |c.order| && Full(c, imm, i)
    ensures IsSet(imm, f) && f in c.incoming[c.order[i]] && c.rank[f] < i && c.order[c.rank[f]] == f
  {
    assert HasEarlierPredecessor(c.outgoing, c.order, i);
    var j :| 0 <= j < i && Edge(c.outgoing, c.order[j], c.order[i]);
    f := c.order[j];
  }

  // ----- Moves go up -----

  /** Within one pass, an ancestor that `x` kept and that ranks no higher than
      an old ancestor `z` of `x` is an ancestor of `z` too. */
  lemma {:induction false} KeptAncestor(c: Flow, from: Forest, imm: Forest, i: nat, x: nat, z: nat, a: nat)
    requires During(c, from, imm, i)
    requires IsSet(from, x) && c.rank[x] < i && IsSet(imm, x) && IsSet(imm, z) && IsSet(imm, a)
    requires Above(from, c.rank, z, x) && Above(imm, c.rank, a, x) && c.rank[a] <= c.rank[z]
    ensures Above(imm, c.rank, a, z)
    decreases c.rank[x]
  {
    if x != z {
      AboveRank(from, c.rank, z, x);
      RankOf(c, x);
      assert Moved(c, from, imm, c.order[c.rank[x]]);
      var x' := from[x].value;
      assert Above(imm, c.rank, a, imm[x].value);
      AboveTransitive(imm, c.rank, a, imm[x].value, x');
      KeptAncestor(c, from, imm, i, x', z, a);
    }
  }

  lemma MovesUp(c: Flow, from: Forest, imm: Forest, i: nat, z: nat)
    requires During(c, from, imm, i) && 0 < i < |c.order|
    requires Nearest(imm, c.rank, c.incoming[c.order[i]], z)
    requires IsSet(imm, c.order[i])
    ensures c.order[i] != 0 && Above(imm, c.rank, z, imm[c.order[i]].value)
  {
    var b := c.order[i];
    RankOf(c, b);
    assert from[b] == imm[b];
    assert IsSet(from, b);
    var w := imm[b].value;
    assert Full(c, from, |c.order|);
    var f := EarlierPredecessor(c, from, i);
    assert IsSet(imm, f) by { assert f == c.order[c.rank[f]]; }
    assert c.rank[z] <= c.rank[w];
    assert Forward(c, from, b);
    assert Above(from, c.rank, w, f);
    assert Above(imm, c.rank, z, f);
    KeptAncestor(c, from, imm, i, f, w, z);
  }

  /** Whatever dominates every predecessor dominates their nearest common ancestor. */
  lemma NearestDominated(c: Flow, imm: Forest, us: seq<nat>, u: nat, z: nat, x: nat)
    requires c.Valid() && Sane(c, imm) && Local(c, imm) && Nearest(imm, c.rank, us, z)
    requires u in us && IsSet(imm, u)
    requires forall u :: u in us && IsSet(imm, u) ==> Dominates(c.outgoing, x, u)
    ensures Dominates(c.outgoing, x, z)
  {
    if !Dominates(c.outgoing, x, z) {
      forall u | u in us && IsSet(imm, u)
        ensures Above(imm, c.rank, x, u)
      {
        DominatorOnTheWay(c, imm, x, u, z);
      }
      assert Common(imm, c.rank, us, x);
      DominatorOnTheWay(c, imm, x, u, z);
      AboveRank(imm, c.rank, x, z);
      AboveRank(imm, c.rank, z, x);
      assert false;
    }
  }

  lemma {:induction false} DominatorOnTheWay(c: Flow, imm: Forest, x: nat, v: nat, z: nat)
    requires Sane(c, imm) && Local(c, imm) && IsSet(imm, v) && Above(imm, c.rank, z, v)
    requires Dominates(c.outgoing, x, v)
    ensures Dominates(c.outgoing, x, z) ||
            (x != z && Above(imm, c.rank, x, v) && IsSet(imm, x) && Above(imm, c.rank, z, x))
    decreases c.rank[v]
  {
    if z != v && x != v {
      DominatorOnTheWay(c, imm, x, imm[v].value, z);
    }
  }

  lemma StrictDominatorOfPredecessors(c: Flow, b: nat, x: nat)
    requires c.Valid() && b < |c.incoming| && x != b && Dominates(c.outgoing, x, b)
    ensures forall u :: u in c.incoming[b] ==> Dominates(c.outgoing, x, u)
  {
    forall u | u in c.incoming[b]
      ensures Dominates(c.outgoing, x, u)
    {
      assert Edge(c.outgoing, u, b);
      DominatesPredecessor(c.outgoing, x, u, b);
    }
  }

  // ----- One step of a pass -----

  lemma StepIsSane(c: Flow, imm: Forest, i: nat, z: nat)
    requires c.Valid() && Sane(c, imm) && 0 < i < |c.order| && Full(c, imm, i)
    requires Nearest(imm, c.rank, c.incoming[c.order[i]], z)
    ensures c.order[i] != 0 && c.rank[c.order[i]] == i && c.rank[z] < i
    ensures Sane(c, imm[c.order[i] := Some(z)])
  {
    var f := EarlierPredecessor(c, imm, i);
    AboveRank(imm, c.rank, z, f);
    RankOf(c, c.order[i]);
    var imm' := imm[c.order[i] := Some(z)];
    assert forall v: nat :: IsSet(imm', v) <==> IsSet(imm, v) || v == c.order[i];
  }

  lemma StepIsLocal(c: Flow, from: Forest, imm: Forest, i: nat, z: nat)
    requires During(c, from, imm, i) && 0 < i < |c.order|
    requires Nearest(imm, c.rank, c.incoming[c.order[i]], z)
    ensures Local(c, imm[c.order[i] := Some(z)])
  {
    var b := c.order[i];
    var f := EarlierPredecessor(c, imm, i);
    forall x: nat | x != b && Dominates(c.outgoing, x, b)
      ensures Dominates(c.outgoing, x, z)
    {
      StrictDominatorOfPredecessors(c, b, x);
      NearestDominated(c, imm, c.incoming[b], f, z, x);
    }
  }

  /** The step takes ancestors away and never adds one. */
  lemma StepShrinks(c: Flow, from: Forest, imm: Forest, i: nat, z: nat, a: nat, u: nat)
    requires During(c, from, imm, i) && 0 < i < |c.order|
    requires Nearest(imm, c.rank, c.incoming[c.order[i]], z)
    requires Sane(c, imm[c.order[i] := Some(z)])
    requires IsSet(imm, u) && Above(imm[c.order[i] := Some(z)], c.rank, a, u)
    ensures Above(imm, c.rank, a, u)
  {
    var b := c.order[i];
    RankOf(c, b);
    if IsSet(imm, b) {
      MovesUp(c, from, imm, i, z);
      UpdateShrinks(imm, c.rank, b, z, a, u);
    } else {
      UpdateFresh(imm, c.rank, b, z, a, u);
    }
  }

  /** Fewer ancestors mean fewer common ancestors, so the bound survives. */
  lemma StepIsBounded(c: Flow, from: Forest, imm: Forest, i: nat, z: nat)
    requires During(c, from, imm, i) && 0 < i < |c.order|
    requires Nearest(imm, c.rank, c.incoming[c.order[i]], z)
    requires Sane(c, imm[c.order[i] := Some(z)])
    ensures Bounded(c, imm[c.order[i] := Some(z)])
  {
    var imm' := imm[c.order[i] := Some(z)];
    forall v: nat, a: nat | 0 < v && IsSet(imm', v) && Common(imm', c.rank, c.incoming[v], a)
      ensures IsSet(imm', a) && c.rank[a] <= c.rank[imm'[v].value]
    {
      CommonShrinks(c, from, imm, i, z, c.incoming[v], a);
      StepBoundedAt(c, imm, c.order[i], z, v, a);
    }
  }

  lemma StepBoundedAt(c: Flow, imm: Forest, b: nat, z: nat, v: nat, a: nat)
    requires Sane(c, imm) && Bounded(c, imm) && b < |imm| && Nearest(imm, c.rank, c.incoming[b], z)
    requires 0 < v && IsSet(imm[b := Some(z)], v) && Common(imm, c.rank, c.incoming[v], a)
    ensures IsSet(imm, a) && c.rank[a] <= c.rank[imm[b := Some(z)][v].value]
  {
    if v == b {
      NearestRank(imm, c.rank, c.incoming[b], z, a);
    } else {
      assert IsSet(imm, v);
    }
  }

  lemma CommonShrinks(c: Flow, from: Forest, imm: Forest, i: nat, z: nat, us: seq<nat>, a: nat)
    requires During(c, from, imm, i) && 0 < i < |c.order|
    requires Nearest(imm, c.rank, c.incoming[c.order[i]], z)
    requires Sane(c, imm[c.order[i] := Some(z)]) && Common(imm[c.order[i] := Some(z)], c.rank, us, a)
    ensures Common(imm, c.rank, us, a)
  {
    forall u | u in us && IsSet(imm, u)
      ensures Above(imm, c.rank, a, u)
    {
      assert IsSet(imm[c.order[i] := Some(z)], u);
      StepShrinks(c, from, imm, i, z, a, u);
    }
  }

  /** Chains of vertices already processed in this pass are untouched. */
  lemma StepKeepsProcessed(c: Flow, from: Forest, imm: Forest, i: nat, z: nat, k: nat)
    requires During(c, from, imm, i) && 0 < i < |c.order|
    requires Nearest(imm, c.rank, c.incoming[c.order[i]], z)
    requires c.rank[c.order[i]] == i && Sane(c, imm[c.order[i] := Some(z)])
    requires 0 < k < i
    ensures Forward(c, imm[c.order[i] := Some(z)], c.order[k])
    ensures Moved(c, from, imm[c.order[i] := Some(z)], c.order[k])
  {
    var b, x := c.order[i], c.order[k];
    assert x != b && Forward(c, imm, x) && Moved(c, from, imm, x);
    forall f: nat | f in c.incoming[x] && IsSet(imm, f) && c.rank[f] < c.rank[x]
      ensures Above(imm[b := Some(z)], c.rank, imm[x].value, f)
    {
      UpdateFrame(imm, c.rank, b, z, imm[x].value, f);
    }
    if IsSet(from, x) {
      RankOf(c, x);
      UpdateFrame(imm, c.rank, b, z, imm[x].value, from[x].value);
    }
  }

  lemma StepPlaces(c: Flow, from: Forest, imm: Forest, i: nat, z: nat)
    requires During(c, from, imm, i) && 0 < i < |c.order|
    requires Nearest(imm, c.rank, c.incoming[c.order[i]], z)
    requires c.order[i] != 0 && c.rank[c.order[i]] == i && Sane(c, imm[c.order[i] := Some(z)])
    ensures Forward(c, imm[c.order[i] := Some(z)], c.order[i])
    ensures Moved(c, from, imm[c.order[i] := Some(z)], c.order[i])
  {
    var b := c.order[i];
    forall f: nat | f in c.incoming[b] && IsSet(imm[b := Some(z)], f) && c.rank[f] < c.rank[b]
      ensures Above(imm[b := Some(z)], c.rank, z, f)
    {
      UpdateFrame(imm, c.rank, b, z, z, f);
    }
    if IsSet(from, b) {
      assert from[b] == imm[b];
      MovesUp(c, from, imm, i, z);
      UpdateFrame(imm, c.rank, b, z, z, imm[b].value);
    }
  }

  lemma Step(c: Flow, from: Forest, imm: Forest, i: nat, z: nat)
    requires During(c, from, imm, i) && 0 < i < |c.order|
    requires Nearest(imm, c.rank, c.incoming[c.order[i]], z)
    ensures During(c, from, imm[c.order[i] := Some(z)], i + 1)
    ensures imm[c.order[i]] != Some(z) ==> Weight(c, imm[c.order[i] := Some(z)]) < Weight(c, imm)
  {
    hide Sane, Local, Bounded, Forward, Moved, Weight, Nearest;
    SaneStep(c, from, imm, i);
    var b := c.order[i];
    var imm' := imm[b := Some(z)];
    StepIsSane(c, imm, i, z);
    StepIsLocal(c, from, imm, i, z);
    StepIsBounded(c, from, imm, i, z);
    StepPlaces(c, from, imm, i, z);
    forall k | 0 < k < i
      ensures Forward(c, imm', c.order[k]) && Moved(c, from, imm', c.order[k])
    {
      StepKeepsProcessed(c, from, imm, i, z, k);
    }
    StepFrame(c, from, imm, i, z);
    RootStays(c, from, imm');
    if imm[b] != Some(z) {
      WeightDrops(c, from, imm, i, z);
    }
  }

  lemma SaneStep(c: Flow, from: Forest, imm: Forest, i: nat)
    requires During(c, from, imm, i)
    ensures |imm| == |from| && forall k :: 0 <= k < |c.order| ==> c.order[k] < |imm|
  {
  }

  lemma StepFrame(c: Flow, from: Forest, imm: Forest, i: nat, z: nat)
    requires During(c, from, imm, i) && 0 < i < |c.order|
    ensures Full(c, imm[c.order[i] := Some(z)], i + 1)
    ensures forall k :: i + 1 <= k < |c.order| ==> imm[c.order[i] := Some(z)][c.order[k]] == from[c.order[k]]
    ensures c.order[0] == 0
  {
  }

  lemma RootStays(c: Flow, from: Forest, imm: Forest)
    requires Sane(c, from) && Sane(c, imm)
    ensures Moved(c, from, imm, 0)
  {
  }

  // ----- Termination -----

  /** The rank of the parent, or the number of ranked vertices while unset. */
  ghost function EntryWeight(c: Flow, e: Option<nat>): nat {
    if e.Some? && e.value < |c.rank| then c.rank[e.value] else |c.order|
  }

  ghost function WeightTo(c: Flow, imm: Forest, n: nat): nat
    requires n <= |imm|
  {
    if n == 0 then 0 else EntryWeight(c, imm[n - 1]) + WeightTo(c, imm, n - 1)
  }

  ghost function Weight(c: Flow, imm: Forest): nat {
    WeightTo(c, imm, |imm|)
  }

  lemma {:induction false} WeightUpdate(c: Flow, imm: Forest, b: nat, e: Option<nat>, n: nat)
    requires b < |imm| && n <= |imm|
    ensures WeightTo(c, imm[b := e], n) ==
            WeightTo(c, imm, n) + if b < n then EntryWeight(c, e) - EntryWeight(c, imm[b]) else 0
  {
    if n > 0 {
      WeightUpdate(c, imm, b, e, n - 1);
    }
  }

  lemma WeightDrops(c: Flow, from: Forest, imm: Forest, i: nat, z: nat)
    requires During(c, from, imm, i) && 0 < i < |c.order|
    requires Nearest(imm, c.rank, c.incoming[c.order[i]], z) && imm[c.order[i]] != Some(z)
    ensures Weight(c, imm[c.order[i] := Some(z)]) < Weight(c, imm)
  {
    var b := c.order[i];
    RankOf(c, z);
    WeightUpdate(c, imm, b, Some(z), |imm|);
    if IsSet(imm, b) {
      MovesUp(c, from, imm, i, z);
      AboveRank(imm, c.rank, z, imm[b].value);
    }
  }

  // ----- The fixpoint is the dominator tree -----

  lemma {:induction false} AncestorsDominate(c: Flow, imm: Forest, p: seq<nat>, a: nat)
    requires Between(c, imm) && Full(c, imm, |c.order|)
    requires AllSettled(c, imm, |c.order|)
    requires IsPath(c.outgoing, p) && IsSet(imm, p[|p| - 1]) && Above(imm, c.rank, a, p[|p| - 1])
    ensures a in p
    decreases |p|
  {
    var v := p[|p| - 1];
    if a != v {
      var p', u := p[..|p| - 1], p[|p| - 2];
      assert |p| > 1;
      PathShrinks(c.outgoing, p);
      assert u in c.order;
      RankOf(c, u);
      RankOf(c, v);
      assert Settled(c, imm, c.order[c.rank[v]]);
      assert Edge(c.outgoing, u, v);
      assert u in c.incoming[v];
      AboveTransitive(imm, c.rank, a, imm[v].value, u);
      AncestorsDominate(c, imm, p', a);
    }
  }

  lemma {:induction false} DominatorsAreAncestors(c: Flow, imm: Forest, v: nat, a: nat)
    requires c.Valid() && Sane(c, imm) && Local(c, imm) && IsSet(imm, v) && Dominates(c.outgoing, a, v)
    ensures Above(imm, c.rank, a, v)
    decreases c.rank[v]
  {
    if v == 0 {
      assert PathTo(c.outgoing, [0], 0);
    } else if a != v {
      DominatorsAreAncestors(c, imm, imm[v].value, a);
    }
  }

  /** Exactly the reachable vertices have a parent, and the ancestors of each
      are exactly its dominators. */
  ghost predicate Exact(g: Graph, imm: Forest, rank: Rank) {
    && |imm| == |g|
    && Tree(imm, rank)
    && (forall v: nat :: v < |g| ==> (IsSet(imm, v) <==> Reachable(g, v)))
    && (forall v: nat, a: nat :: IsSet(imm, v) ==> (Above(imm, rank, a, v) <==> Dominates(g, a, v)))
  }

  lemma FixpointIsExact(c: Flow, imm: Forest)
    requires Between(c, imm) && Full(c, imm, |c.order|)
    requires AllSettled(c, imm, |c.order|)
    ensures Exact(c.outgoing, imm, c.rank)
  {
    forall v: nat | v < |c.outgoing|
      ensures IsSet(imm, v) <==> Reachable(c.outgoing, v)
    {
      if Reachable(c.outgoing, v) {
        RankOf(c, v);
      }
    }
    forall v: nat, a: nat | IsSet(imm, v)
      ensures Above(imm, c.rank, a, v) <==> Dominates(c.outgoing, a, v)
    {
      if Above(imm, c.rank, a, v) {
        forall p | PathTo(c.outgoing, p, v)
          ensures a in p
        {
          AncestorsDominate(c, imm, p, a);
        }
      }
      if Dominates(c.outgoing, a, v) {
        DominatorsAreAncestors(c, imm, v, a);
      }
    }
  }

  // ----- The iteration -----

  /** The guard that skips a block with no set predecessor never fires. */
  lemma PredecessorsReady(c: Flow, imm: Forest, i: nat)
    requires c.Valid() && Sane(c, imm) && 0 < i < |c.order| && Full(c, imm, i)
    ensures c.order[i] < |imm| && RanksDiffer(imm, c.rank)
    ensures forall u :: u in c.incoming[c.order[i]] ==> u < |imm|
    ensures exists u :: u in c.incoming[c.order[i]] && IsSet(imm, u)
  {
    SaneRanksDiffer(c, imm);
    assert forall u :: u in c.incoming[c.order[i]] ==> Edge(c.outgoing, u, c.order[i]);
    var f := EarlierPredecessor(c, imm, i);
  }

  ghost predicate AllSettled(c: Flow, imm: Forest, n: nat)
    requires Sane(c, imm) && n <= |c.order|
  {
    forall k :: 0 <= k < n ==> Settled(c, imm, c.order[k])
  }

  /** Recomputes the parent of the `i`th block from its predecessors. */
  method Refine(c: Flow, ghost from: Forest, imm: Forest, i: nat) returns (refined: Forest, moved: bool)
    requires During(c, from, imm, i) && 0 < i < |c.order|
    ensures During(c, from, refined, i + 1)
    ensures moved ==> Weight(c, refined) < Weight(c, imm)
    ensures !moved ==> refined == imm
    ensures !moved && AllSettled(c, imm, i) ==> AllSettled(c, imm, i + 1)
  {
    PredecessorsReady(c, imm, i);
    var block := c.order[i];
    var dominator := NearestOf(imm, c.rank, c.incoming[block]);
    Step(c, from, imm, i, dominator.value);
    refined, moved := imm, false;
    if imm[block] != dominator {
      refined, moved := imm[block := dominator], true;
    } else {
      assert imm[block := dominator] == imm;
      assert Settled(c, imm, block);
    }
  }

  method Pass(c: Flow, from: Forest) returns (imm: Forest, changed: bool)
    requires Between(c, from)
    ensures Between(c, imm) && Full(c, imm, |c.order|) && Weight(c, imm) <= Weight(c, from)
    ensures changed ==> Weight(c, imm) < Weight(c, from)
    ensures !changed ==> AllSettled(c, imm, |c.order|)
  {
    imm, changed := from, false;
    PassStarts(c, from);
    var i := 1;
    while i < |c.order|
      invariant During(c, from, imm, i)
      invariant Weight(c, imm) <= Weight(c, from)
      invariant changed ==> Weight(c, imm) < Weight(c, from)
      invariant !changed ==> AllSettled(c, imm, i)
    {
      var moved;
      imm, moved := Refine(c, from, imm, i);
      if moved {
        changed := true;
      }
      i := i + 1;
    }
    PassDone(c, from, imm);
  }

  lemma PassStarts(c: Flow, from: Forest)
    requires Between(c, from)
    ensures During(c, from, from, 1) && AllSettled(c, from, 1)
  {
    RankOf(c, 0);
  }

  lemma PassDone(c: Flow, from: Forest, imm: Forest)
    requires During(c, from, imm, |c.order|)
    ensures Between(c, imm)
  {
    forall b: nat | 0 < b && IsSet(imm, b)
      ensures Forward(c, imm, b)
    {
      RankOf(c, b);
      assert Forward(c, imm, c.order[c.rank[b]]);
    }
  }

  lemma IterationStarts(c: Flow, imm: Forest)
    requires c.Valid() && |imm| == |c.rank| && imm[0] == Some(0)
    requires forall v :: 0 < v < |imm| ==> imm[v].None?
    ensures Between(c, imm)
  {
    RankOf(c, 0);
  }

  /** Passes until nothing changes. */
  method Compute(c: Flow) returns (imm: Forest)
    requires c.Valid()
    ensures Exact(c.outgoing, imm, c.rank)
  {
    imm := seq(|c.outgoing|, _ => None);
    imm := imm[0 := Some(0)];
    IterationStarts(c, imm);
    var changed := true;
    while changed
      invariant Between(c, imm)
      invariant !changed ==> Full(c, imm, |c.order|)
      invariant !changed ==> AllSettled(c, imm, |c.order|)
      decreases Weight(c, imm), changed
    {
      imm, changed := Pass(c, imm);
    }
    FixpointIsExact(c, imm);
  }
}
