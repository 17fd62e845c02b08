/** The forest stored in the `immediate` vector while it is being computed:
    every set vertex other than the root points at a set vertex of lower rank. */
module DominatorTree {
  import opened Wrappers

  type Forest = seq<Option<nat>>
  type Rank = seq<nat>

  ghost predicate Tree(imm: Forest, rank: Rank) {
    && |imm| == |rank|
    && |imm| > 0
    && imm[0] == Some(0)
    && (forall v {:trigger imm[v].value} :: 0 < v < |imm| && imm[v].Some? ==>
          imm[v].value < |imm| && imm[imm[v].value].Some? && rank[imm[v].value] < rank[v])
  }

  ghost predicate IsSet(imm: Forest, v: nat) {
    v < |imm| && imm[v].Some?
  }

  ghost predicate RanksDiffer(imm: Forest, rank: Rank) {
    && |imm| == |rank|
    && (forall u: nat, v: nat :: IsSet(imm, u) && IsSet(imm, v) && rank[u] == rank[v] ==> u == v)
  }

  /** `a` is `v` or an ancestor of `v`. */
  ghost predicate Above(imm: Forest, rank: Rank, a: nat, v: nat)
    requires Tree(imm, rank) && IsSet(imm, v)
    decreases rank[v]
  {
    a == v || (v != 0 && Above(imm, rank, a, imm[v].value))
  }

  lemma {:induction false} AboveRank(imm: Forest, rank: Rank, a: nat, v: nat)
    requires Tree(imm, rank) && IsSet(imm, v) && Above(imm, rank, a, v)
    ensures IsSet(imm, a) && rank[a] <= rank[v] && (rank[a] == rank[v] ==> a == v)
    decreases rank[v]
  {
    if a != v {
      AboveRank(imm, rank, a, imm[v].value);
    }
  }

  lemma {:induction false} AboveTransitive(imm: Forest, rank: Rank, a: nat, b: nat, v: nat)
    requires Tree(imm, rank) && IsSet(imm, v) && Above(imm, rank, b, v)
    requires IsSet(imm, b) && Above(imm, rank, a, b)
    ensures Above(imm, rank, a, v)
    decreases rank[v]
  {
    if b != v {
      AboveTransitive(imm, rank, a, b, imm[v].value);
    }
  }

  lemma {:induction false} AncestorsAreLinear(imm: Forest, rank: Rank, a: nat, b: nat, v: nat)
    requires Tree(imm, rank) && IsSet(imm, v) && Above(imm, rank, a, v) && Above(imm, rank, b, v)
    requires IsSet(imm, a) && IsSet(imm, b) && rank[a] <= rank[b]
    ensures Above(imm, rank, a, b)
    decreases rank[v]
  {
    if b != v {
      AboveRank(imm, rank, b, v);
      AncestorsAreLinear(imm, rank, a, b, imm[v].value);
    }
  }

  lemma {:induction false} RootAbove(imm: Forest, rank: Rank, v: nat)
    requires Tree(imm, rank) && IsSet(imm, v)
    ensures Above(imm, rank, 0, v)
    decreases rank[v]
  {
    if v != 0 {
      RootAbove(imm, rank, imm[v].value);
    }
  }

  // ----- Updating one entry -----

  /** Ancestors of vertices ranked below the updated one do not change. */
  lemma {:induction false} UpdateFrame(imm: Forest, rank: Rank, b: nat, y: nat, a: nat, v: nat)
    requires Tree(imm, rank) && b < |imm| && Tree(imm[b := Some(y)], rank)
    requires IsSet(imm, v) && rank[v] < rank[b]
    ensures Above(imm[b := Some(y)], rank, a, v) <==> Above(imm, rank, a, v)
    decreases rank[v]
  {
    if v != 0 {
      UpdateFrame(imm, rank, b, y, a, imm[v].value);
    }
  }

  /** Setting an unset entry leaves every chain as it was. */
  lemma {:induction false} UpdateFresh(imm: Forest, rank: Rank, b: nat, y: nat, a: nat, v: nat)
    requires Tree(imm, rank) && b < |imm| && imm[b].None? && Tree(imm[b := Some(y)], rank)
    requires IsSet(imm, v)
    ensures Above(imm[b := Some(y)], rank, a, v) <==> Above(imm, rank, a, v)
    decreases rank[v]
  {
    if v != 0 {
      UpdateFresh(imm, rank, b, y, a, imm[v].value);
    }
  }

  /** Moving an entry up its own chain can only remove ancestors. */
  lemma {:induction false} UpdateShrinks(imm: Forest, rank: Rank, b: nat, y: nat, a: nat, v: nat)
    requires Tree(imm, rank) && 0 < b && IsSet(imm, b) && Tree(imm[b := Some(y)], rank)
    requires IsSet(imm, y) && Above(imm, rank, y, imm[b].value)
    requires IsSet(imm, v) && Above(imm[b := Some(y)], rank, a, v)
    ensures Above(imm, rank, a, v)
    decreases rank[v]
  {
    var imm' := imm[b := Some(y)];
    if a != v {
      if v == b {
        AboveRank(imm, rank, y, imm[b].value);
        UpdateShrinks(imm, rank, b, y, a, y);
        AboveTransitive(imm, rank, a, y, imm[b].value);
      } else {
        UpdateShrinks(imm, rank, b, y, a, imm[v].value);
      }
    }
  }

  // ----- Nearest common ancestors -----

  ghost predicate Common(imm: Forest, rank: Rank, us: seq<nat>, a: nat)
    requires Tree(imm, rank)
  {
    forall u :: u in us && IsSet(imm, u) ==> Above(imm, rank, a, u)
  }

  /** `z` is the nearest common ancestor of the set members of `us`. */
  ghost predicate Nearest(imm: Forest, rank: Rank, us: seq<nat>, z: nat)
    requires Tree(imm, rank)
  {
    && IsSet(imm, z)
    && Common(imm, rank, us, z)
    && (forall a: nat :: Common(imm, rank, us, a) ==> Above(imm, rank, a, z))
  }

  lemma NearestRank(imm: Forest, rank: Rank, us: seq<nat>, z: nat, a: nat)
    requires Tree(imm, rank) && Nearest(imm, rank, us, z) && Common(imm, rank, us, a)
    ensures IsSet(imm, a) && rank[a] <= rank[z]
  {
    AboveRank(imm, rank, a, z);
  }

  /** Every common ancestor of `l` and `r` is an ancestor of `v`. */
  ghost predicate KeepsCommon(imm: Forest, rank: Rank, l: nat, r: nat, v: nat)
    requires Tree(imm, rank) && IsSet(imm, l) && IsSet(imm, r) && IsSet(imm, v)
  {
    forall a: nat :: Above(imm, rank, a, l) && Above(imm, rank, a, r) ==> Above(imm, rank, a, v)
  }

  /** The two-finger walk: the higher-ranked side climbs until both meet. */
  method Intersect(imm: Forest, rank: Rank, l: nat, r: nat) returns (left: nat)
    requires Tree(imm, rank) && RanksDiffer(imm, rank) && IsSet(imm, l) && IsSet(imm, r)
    ensures IsSet(imm, left) && Above(imm, rank, left, l) && Above(imm, rank, left, r)
    ensures KeepsCommon(imm, rank, l, r, left)
  {
    left := l;
    var right := r;
    while left != right
      invariant IsSet(imm, left) && IsSet(imm, right)
      invariant Above(imm, rank, left, l) && Above(imm, rank, right, r)
      invariant KeepsCommon(imm, rank, l, r, left) && KeepsCommon(imm, rank, l, r, right)
      decreases rank[left] + rank[right]
    {
      assert rank[left] != rank[right];
      ghost var before := rank[left] + rank[right];
      while rank[left] > rank[right]
        invariant IsSet(imm, left) && Above(imm, rank, left, l)
        invariant KeepsCommon(imm, rank, l, r, left)
        invariant rank[left] + rank[right] <= before
        invariant rank[left] > rank[right] || rank[left] + rank[right] < before || rank[right] > rank[left]
        decreases rank[left]
      {
        Climb(imm, rank, l, r, left, right);
        AboveTransitive(imm, rank, imm[left].value, left, l);
        left := imm[left].value;
      }
      while rank[right] > rank[left]
        invariant IsSet(imm, right) && Above(imm, rank, right, r)
        invariant KeepsCommon(imm, rank, l, r, right)
        invariant rank[left] + rank[right] <= before
        invariant rank[right] > rank[left] || rank[left] + rank[right] < before
        decreases rank[right]
      {
        Climb(imm, rank, l, r, right, left);
        AboveTransitive(imm, rank, imm[right].value, right, r);
        right := imm[right].value;
      }
    }
  }

  /** Climbing one step from the higher-ranked side loses no common ancestor. */
  lemma Climb(imm: Forest, rank: Rank, l: nat, r: nat, u: nat, w: nat)
    requires Tree(imm, rank) && IsSet(imm, l) && IsSet(imm, r) && IsSet(imm, u) && IsSet(imm, w)
    requires rank[u] > rank[w]
    requires KeepsCommon(imm, rank, l, r, u) && KeepsCommon(imm, rank, l, r, w)
    ensures u != 0 && KeepsCommon(imm, rank, l, r, imm[u].value)
    ensures Above(imm, rank, imm[u].value, u)
  {
    RootAbove(imm, rank, w);
    AboveRank(imm, rank, 0, w);
    forall a: nat | Above(imm, rank, a, l) && Above(imm, rank, a, r)
      ensures Above(imm, rank, a, imm[u].value)
    {
      ClimbOne(imm, rank, a, u, w);
    }
  }

  lemma ClimbOne(imm: Forest, rank: Rank, a: nat, u: nat, w: nat)
    requires Tree(imm, rank) && IsSet(imm, u) && IsSet(imm, w) && u != 0
    requires rank[u] > rank[w] && Above(imm, rank, a, u) && Above(imm, rank, a, w)
    ensures Above(imm, rank, a, imm[u].value)
  {
    AboveRank(imm, rank, a, w);
  }

  /** The nearest common ancestor of the predecessors that are already set. */
  method NearestOf(imm: Forest, rank: Rank, us: seq<nat>) returns (z: Option<nat>)
    requires Tree(imm, rank) && RanksDiffer(imm, rank)
    requires forall u :: u in us ==> u < |imm|
    ensures z.None? <==> forall u :: u in us ==> !IsSet(imm, u)
    ensures z.Some? ==> Nearest(imm, rank, us, z.value)
  {
    z := None;
    var i := 0;
    while i < |us|
      invariant 0 <= i <= |us|
      invariant z.None? <==> forall u :: u in us[..i] ==> !IsSet(imm, u)
      invariant z.Some? ==> Nearest(imm, rank, us[..i], z.value)
    {
      var u := us[i];
      assert u in us;
      assert us[..i + 1] == us[..i] + [u];
      assert u in us[..i + 1];
      if imm[u].Some? {
        if z.None? {
          z := Some(u);
          assert Common(imm, rank, us[..i + 1], u);
        } else {
          var y := Intersect(imm, rank, z.value, u);
          NearestExtends(imm, rank, us[..i], z.value, u, y);
          z := Some(y);
        }
      } else if z.Some? {
        assert forall a: nat :: Common(imm, rank, us[..i + 1], a) <==> Common(imm, rank, us[..i], a);
      }
      i := i + 1;
    }
    assert us[..i] == us;
  }

  lemma NearestExtends(imm: Forest, rank: Rank, us: seq<nat>, z: nat, u: nat, y: nat)
    requires Tree(imm, rank) && Nearest(imm, rank, us, z) && IsSet(imm, u) && IsSet(imm, y)
    requires Above(imm, rank, y, z) && Above(imm, rank, y, u)
    requires KeepsCommon(imm, rank, z, u, y)
    ensures Nearest(imm, rank, us + [u], y)
  {
    forall w | w in us + [u] && IsSet(imm, w)
      ensures Above(imm, rank, y, w)
    {
      if w in us {
        AboveTransitive(imm, rank, y, z, w);
      }
    }
    forall a: nat | Common(imm, rank, us + [u], a)
      ensures Above(imm, rank, a, y)
    {
      assert u in us + [u];
      assert Common(imm, rank, us, a);
    }
  }
}
