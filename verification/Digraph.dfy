/** Finite directed graphs given by successor lists, rooted at vertex 0, with
    reachability and dominance defined by quantifying over all rooted paths. */
module Digraph {

  type Graph = seq<seq<nat>>

  ghost predicate Closed(g: Graph) {
    && |g| > 0
    && forall v, w :: 0 <= v < |g| && w in g[v] ==> w < |g|
  }

  ghost predicate IsPath(g: Graph, p: seq<nat>) {
    && |p| > 0
    && p[0] == 0
    && (forall k :: 0 <= k < |p| ==> p[k] < |g|)
    && (forall j, k :: 0 <= j < k < |p| && k == j + 1 ==> p[k] in g[p[j]])
  }

  ghost predicate PathTo(g: Graph, p: seq<nat>, v: nat) {
    IsPath(g, p) && p[|p| - 1] == v
  }

  ghost predicate Reachable(g: Graph, v: nat) {
    exists p :: PathTo(g, p, v)
  }

  /** Every rooted path to `v` passes through `d`. */
  ghost predicate Dominates(g: Graph, d: nat, v: nat) {
    forall p :: PathTo(g, p, v) ==> d in p
  }

  lemma RootIsReachable(g: Graph)
    requires |g| > 0
    ensures Reachable(g, 0)
  {
    assert PathTo(g, [0], 0);
  }

  lemma PathExtends(g: Graph, p: seq<nat>, u: nat, v: nat)
    requires PathTo(g, p, u) && v in g[u] && v < |g|
    ensures PathTo(g, p + [v], v)
  {
  }

  lemma EdgeKeepsReachable(g: Graph, u: nat, v: nat)
    requires Reachable(g, u) && u < |g| && v in g[u] && v < |g|
    ensures Reachable(g, v)
  {
    var p :| PathTo(g, p, u);
    PathExtends(g, p, u, v);
  }

  lemma PathShrinks(g: Graph, p: seq<nat>)
    requires IsPath(g, p) && |p| > 1
    ensures PathTo(g, p[..|p| - 1], p[|p| - 2])
    ensures p[|p| - 1] in g[p[|p| - 2]]
  {
  }

  /** A closed vertex set holding the root holds everything reachable. */
  lemma {:induction false} ClosedSetCoversPath(g: Graph, s: set<nat>, p: seq<nat>)
    requires IsPath(g, p) && 0 in s
    requires forall v, w :: v in s && v < |g| && w in g[v] ==> w in s
    ensures p[|p| - 1] in s
    decreases |p|
  {
    if |p| > 1 {
      PathShrinks(g, p);
      ClosedSetCoversPath(g, s, p[..|p| - 1]);
    }
  }

  /** A strict dominator of `v` dominates every predecessor of `v`. */
  lemma DominatesPredecessor(g: Graph, d: nat, u: nat, v: nat)
    requires u < |g| && v < |g| && v in g[u] && d != v
    requires Dominates(g, d, v)
    ensures Dominates(g, d, u)
  {
    forall p | PathTo(g, p, u)
      ensures d in p
    {
      PathExtends(g, p, u, v);
      assert d in p + [v];
    }
  }
}
