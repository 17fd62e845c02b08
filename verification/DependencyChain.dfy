/** Why a package is locked: a breadth-first search from the roots that
    remembers where each package was first met. */
module DependencyChain {
  import opened Wrappers
  import opened Lockfile
  import opened Sequences

  ghost predicate Chain(m: Packages, roots: seq<Name>, p: seq<Name>, target: Name) {
    Walk(m, p) && p[0] in roots && p[|p| - 1] == target
  }

  ghost predicate Shortest(m: Packages, roots: seq<Name>, p: seq<Name>, target: Name) {
    Chain(m, roots, p, target) && forall q :: Chain(m, roots, q, target) ==> |p| <= |q|
  }

  // ----- The search tree -----

  /** The predecessor of `x` in the tree, one level up; none for a root. */
  ghost predicate Parented(
    m: Packages, roots: seq<Name>, previous: map<Name, Option<Name>>, dist: map<Name, nat>, x: Name)
    requires x in previous && x in dist
  {
    match previous[x]
    case None => x in roots && dist[x] == 0
    case Some(y) => y in previous && y in dist && DependsOn(m, y, x) && dist[x] == dist[y] + 1
  }

  ghost predicate SearchTree(m: Packages, roots: seq<Name>, previous: map<Name, Option<Name>>, dist: map<Name, nat>) {
    && dist.Keys == previous.Keys
    && (forall x :: x in previous ==> Parented(m, roots, previous, dist, x))
    && (forall x :: x in roots ==> x in dist && dist[x] == 0)
  }

  /** Each dependency of `x` was met, at most one level further down. */
  ghost predicate Expanded(m: Packages, dist: map<Name, nat>, x: Name)
    requires x in dist
  {
    x in m && forall y :: y in m[x] ==> y in dist && dist[y] <= dist[x] + 1
  }

  /** The queue holds two adjacent levels, the nearer first. */
  ghost predicate Levelled(dist: map<Name, nat>, queue: seq<Name>, level: nat) {
    && (forall x :: x in queue ==> x in dist && level <= dist[x])
    && (forall x :: x in dist ==> dist[x] <= level + 1)
    && (forall i, j :: 0 <= i < j < |queue| && queue[i] in dist && queue[j] in dist ==>
         queue[i] != queue[j] && dist[queue[i]] <= dist[queue[j]])
  }

  /** What was met and is not waiting has been expanded and is not the target. */
  ghost predicate Processed(m: Packages, dist: map<Name, nat>, queue: seq<Name>, target: Name) {
    forall x :: x in dist && x !in queue ==> Expanded(m, dist, x) && x != target
  }

  lemma {:induction false} TreeReaches(
    m: Packages, roots: seq<Name>, previous: map<Name, Option<Name>>, dist: map<Name, nat>, x: Name)
    returns (p: seq<Name>)
    requires SearchTree(m, roots, previous, dist) && x in previous
    ensures Chain(m, roots, p, x) && |p| == dist[x] + 1
    decreases dist[x]
  {
    assert Parented(m, roots, previous, dist, x);
    match previous[x] {
      case None => p := [x];
      case Some(y) =>
        p := TreeReaches(m, roots, previous, dist, y);
        WalkExtends(m, p, x);
        p := p + [x];
    }
  }

  lemma RootDistance(
    m: Packages, roots: seq<Name>, previous: map<Name, Option<Name>>, dist: map<Name, nat>, x: Name)
    requires SearchTree(m, roots, previous, dist) && x in roots
    ensures x in dist && dist[x] == 0
  {
  }

  lemma WalkShrinks(m: Packages, p: seq<Name>)
    requires Walk(m, p) && |p| > 1
    ensures Walk(m, p[..|p| - 1]) && DependsOn(m, p[|p| - 2], p[|p| - 1])
  {
  }

  /** Levels are distances: if everything nearer than `limit` was expanded, no
      chain gets anywhere faster than the tree. */
  lemma {:induction false} NoShortcut(
    m: Packages, roots: seq<Name>, previous: map<Name, Option<Name>>, dist: map<Name, nat>, limit: nat, p: seq<Name>)
    requires SearchTree(m, roots, previous, dist)
    requires forall x :: x in dist && dist[x] < limit ==> Expanded(m, dist, x)
    requires |p| > 0 && Walk(m, p) && p[0] in roots && |p| - 1 <= limit
    ensures p[|p| - 1] in dist && dist[p[|p| - 1]] <= |p| - 1
    decreases |p|
  {
    hide SearchTree, Walk;
    if |p| == 1 {
      RootDistance(m, roots, previous, dist, p[0]);
    } else {
      WalkShrinks(m, p);
      NoShortcut(m, roots, previous, dist, limit, p[..|p| - 1]);
      assert Expanded(m, dist, p[|p| - 2]);
    }
  }

  // ----- The search -----

  method Start(ghost m: Packages, roots: seq<Name>, ghost target: Name)
    returns (previous: map<Name, Option<Name>>, pending: seq<Name>, ghost dist: map<Name, nat>)
    ensures SearchTree(m, roots, previous, dist) && Processed(m, dist, pending, target)
    ensures Levelled(dist, pending, 0) && forall x :: x in dist ==> x in pending
  {
    previous, pending, dist := map[], [], map[];
    for k := 0 to |roots|
      invariant previous.Keys == dist.Keys && Distinct(pending)
      invariant forall x :: x in previous ==> previous[x] == None && x in roots && dist[x] == 0
      invariant forall x :: x in previous <==> x in pending
      invariant forall i :: 0 <= i < k ==> roots[i] in previous
    {
      if roots[k] !in previous {
        pending := pending + [roots[k]];
      }
      previous, dist := previous[roots[k] := None], dist[roots[k] := 0];
    }
  }

  /** Meets the dependencies of `source` that were not met before. */
  method Expand(
    m: Packages, ghost roots: seq<Name>, source: Name,
    prev: map<Name, Option<Name>>, queue: seq<Name>, ghost far: map<Name, nat>)
    returns (previous: map<Name, Option<Name>>, pending: seq<Name>, ghost dist: map<Name, nat>)
    requires SearchTree(m, roots, prev, far) && source in prev && source in m
    requires Levelled(far, queue, far[source])
    ensures SearchTree(m, roots, previous, dist) && Levelled(dist, pending, far[source])
    ensures forall x :: x in far ==> x in dist && dist[x] == far[x]
    ensures source in dist && Expanded(m, dist, source)
    ensures forall x :: x in pending <==> x in queue || (x in dist && x !in far)
  {
    hide SearchTree, Levelled;
    previous, pending, dist := prev, queue, far;
    TreeKeys(m, roots, previous, dist);
    for k := 0 to |m[source]|
      invariant SearchTree(m, roots, previous, dist) && Levelled(dist, pending, far[source])
      invariant dist.Keys == previous.Keys && forall x :: x in far ==> x in dist && dist[x] == far[x]
      invariant forall x :: x in pending <==> x in queue || (x in dist && x !in far)
      invariant forall i :: 0 <= i < k ==> m[source][i] in dist
    {
      var dependency := m[source][k];
      if dependency !in previous {
        MeetKeepsTree(m, roots, previous, dist, source, dependency);
        MeetKeepsLevels(dist, pending, source, dependency);
        previous := previous[dependency := Some(source)];
        dist := dist[dependency := far[source] + 1];
        pending := pending + [dependency];
      }
    }
    LevelBounds(dist, pending, far[source]);
  }

  lemma TreeKeys(m: Packages, roots: seq<Name>, previous: map<Name, Option<Name>>, dist: map<Name, nat>)
    requires SearchTree(m, roots, previous, dist)
    ensures dist.Keys == previous.Keys
  {
  }

  lemma LevelBounds(dist: map<Name, nat>, queue: seq<Name>, level: nat)
    requires Levelled(dist, queue, level)
    ensures forall x :: x in dist ==> dist[x] <= level + 1
  {
  }

  lemma MeetKeepsTree(
    m: Packages, roots: seq<Name>, previous: map<Name, Option<Name>>, dist: map<Name, nat>, source: Name, x: Name)
    requires SearchTree(m, roots, previous, dist) && source in dist
    requires x !in previous && DependsOn(m, source, x)
    ensures SearchTree(m, roots, previous[x := Some(source)], dist[x := dist[source] + 1])
  {
    var previous', dist' := previous[x := Some(source)], dist[x := dist[source] + 1];
    forall y | y in previous'
      ensures Parented(m, roots, previous', dist', y)
    {
      if y != x {
        assert Parented(m, roots, previous, dist, y);
      }
    }
  }

  lemma MeetKeepsLevels(dist: map<Name, nat>, pending: seq<Name>, source: Name, x: Name)
    requires source in dist && Levelled(dist, pending, dist[source]) && x !in dist
    ensures Levelled(dist[x := dist[source] + 1], pending + [x], dist[source])
  {
    assert forall i :: 0 <= i < |pending| ==> pending[i] in pending;
  }

  lemma PopLevel(dist: map<Name, nat>, queue: seq<Name>, level: nat)
    requires Levelled(dist, queue, level) && queue != []
    ensures queue[0] in dist && Levelled(dist, queue[1..], dist[queue[0]])
    ensures queue[0] !in queue[1..] && forall x :: x in dist && dist[x] < dist[queue[0]] ==> x !in queue
  {
    assert queue[0] in queue;
    assert queue == [queue[0]] + queue[1..];
    forall x | x in queue
      ensures dist[queue[0]] <= dist[x]
    {
      var i :| 0 <= i < |queue| && queue[i] == x;
    }
  }

  /** Follows the recorded predecessors back to a root. */
  method Rebuild(
    m: Packages, ghost roots: seq<Name>, previous: map<Name, Option<Name>>, ghost dist: map<Name, nat>, target: Name)
    returns (chain: seq<Name>)
    requires SearchTree(m, roots, previous, dist) && target in previous
    ensures Chain(m, roots, chain, target) && |chain| == dist[target] + 1
  {
    chain := [target];
    while previous[chain[0]].Some?
      invariant |chain| > 0 && chain[0] in previous && Walk(m, chain) && chain[|chain| - 1] == target
      invariant |chain| + dist[chain[0]] == dist[target] + 1
      decreases dist[chain[0]]
    {
      assert Parented(m, roots, previous, dist, chain[0]);
      chain := [previous[chain[0]].value] + chain;
    }
    assert Parented(m, roots, previous, dist, chain[0]);
  }

  /** Another package is not locked, and no chain to the target is shorter than
      the one to it. */
  ghost predicate StopsShort(m: Packages, roots: seq<Name>, target: Name) {
    exists x, q ::
      x !in m && x != target && Chain(m, roots, q, x) && forall p :: Chain(m, roots, p, target) ==> |q| <= |p|
  }

  /** Whatever is nearer than the end of the chain is locked. */
  ghost predicate LockedOnTheWay(m: Packages, roots: seq<Name>, chain: seq<Name>) {
    forall x, q :: Chain(m, roots, q, x) && |q| < |chain| ==> x in m
  }

  /** A shortest chain of dependencies from a root to the target. None means
      there is no chain, or a package at least as near is not locked. */
  method ChainFrom(roots: seq<Name>, target: Name, m: Packages) returns (r: Option<seq<Name>>)
    ensures r.Some? ==> Shortest(m, roots, r.value, target) && LockedOnTheWay(m, roots, r.value)
    ensures r.None? ==> !ReachableFrom(m, roots, target) || StopsShort(m, roots, target)
  {
    hide ReachableFrom, StopsShort, LockedOnTheWay;
    ghost var dist: map<Name, nat>;
    var previous, pending;
    previous, pending, dist := Start(m, roots, target);
    ghost var level, done := 0, {};
    while pending != []
      invariant SearchTree(m, roots, previous, dist) && Levelled(dist, pending, level)
      invariant Processed(m, dist, pending, target)
      invariant forall x :: x in done <==> x in dist && x !in pending
      decreases m.Keys - done
    {
      var source := pending[0];
      PopLevel(dist, pending, level);
      if source == target {
        var chain := Rebuild(m, roots, previous, dist, target);
        RebuiltIsShortest(m, roots, previous, dist, pending, target, chain);
        return Some(chain);
      }
      if source !in m {
        UnlockedStops(m, roots, previous, dist, pending, target);
        return None;
      }
      ghost var far, queue := dist, pending;
      level := dist[source];
      previous, pending, dist := Expand(m, roots, source, previous, pending[1..], dist);
      ExpandKeeps(m, source, far, queue, dist, pending, target);
      done := done + {source};
    }
    NothingLeft(m, roots, previous, dist, target);
    r := None;
  }

  lemma ExpandKeeps(
    m: Packages, source: Name, far: map<Name, nat>, queue: seq<Name>, dist: map<Name, nat>, pending: seq<Name>,
    target: Name)
    requires queue != [] && queue[0] == source && source != target && source in far
    requires Processed(m, far, queue, target)
    requires forall x :: x in far ==> x in dist && dist[x] == far[x]
    requires forall x :: x in pending <==> x in queue[1..] || (x in dist && x !in far)
    requires source in dist && Expanded(m, dist, source)
    ensures Processed(m, dist, pending, target)
  {
    forall x | x in dist && x !in pending
      ensures Expanded(m, dist, x) && x != target
    {
      if x != source {
        assert x in far && x !in queue by {
          assert queue == [source] + queue[1..];
        }
        assert Expanded(m, far, x);
      }
    }
  }

  lemma UnlockedStops(
    m: Packages, roots: seq<Name>, previous: map<Name, Option<Name>>, dist: map<Name, nat>, pending: seq<Name>,
    target: Name)
    requires SearchTree(m, roots, previous, dist) && Processed(m, dist, pending, target)
    requires pending != [] && pending[0] in dist && pending[0] !in m && pending[0] != target
    requires forall x :: x in dist && dist[x] < dist[pending[0]] ==> x !in pending
    ensures StopsShort(m, roots, target)
  {
    var source := pending[0];
    var q := TreeReaches(m, roots, previous, dist, source);
    forall p | Chain(m, roots, p, target)
      ensures |q| <= |p|
    {
      if |p| < |q| {
        NoShortcut(m, roots, previous, dist, dist[source], p);
      }
    }
  }

  lemma RebuiltIsShortest(
    m: Packages, roots: seq<Name>, previous: map<Name, Option<Name>>, dist: map<Name, nat>, pending: seq<Name>,
    target: Name, chain: seq<Name>)
    requires SearchTree(m, roots, previous, dist) && Processed(m, dist, pending, target) && target in dist
    requires forall x :: x in dist && dist[x] < dist[target] ==> x !in pending
    requires Chain(m, roots, chain, target) && |chain| == dist[target] + 1
    ensures Shortest(m, roots, chain, target) && LockedOnTheWay(m, roots, chain)
  {
    forall x, q | Chain(m, roots, q, x) && |q| < |chain|
      ensures x in m && x != target
    {
      NoShortcut(m, roots, previous, dist, dist[target], q);
      assert Expanded(m, dist, x);
    }
  }

  /** An empty queue means everything reachable was met, and the target was not. */
  lemma NothingLeft(
    m: Packages, roots: seq<Name>, previous: map<Name, Option<Name>>, dist: map<Name, nat>, target: Name)
    requires SearchTree(m, roots, previous, dist) && Processed(m, dist, [], target)
    ensures !ReachableFrom(m, roots, target)
  {
    forall p | Walk(m, p) && p[0] in roots && p[|p| - 1] == target
      ensures false
    {
      NoShortcut(m, roots, previous, dist, |p| - 1, p);
    }
  }

  lemma EitherRoots(m: Packages, a: seq<Name>, b: seq<Name>, x: Name)
    ensures ReachableFrom(m, a + b, x) <==> ReachableFrom(m, a, x) || ReachableFrom(m, b, x)
  {
    assert forall y :: y in a + b <==> y in a || y in b;
  }

  lemma ReachableIsLocked(lock: LockFile, roots: seq<Name>, x: Name)
    requires AllLocked(lock) && ReachableFrom(PackageMap(lock.packages), roots, x)
    requires forall y :: y in roots ==> y in Roots(lock)
    ensures x in PackageMap(lock.packages)
  {
    var m := PackageMap(lock.packages);
    LockedIsClosed(lock);
    var p :| Walk(m, p) && p[0] in roots && p[|p| - 1] == x;
    if |p| > 1 {
      assert DependsOn(m, p[|p| - 2], p[|p| - 1]);
    }
  }

  /** With everything locked, nothing reachable is missing. */
  lemma NothingMissing(lock: LockFile, roots: seq<Name>, target: Name)
    requires AllLocked(lock) && forall y :: y in roots ==> y in Roots(lock)
    ensures !StopsShort(PackageMap(lock.packages), roots, target)
  {
    var m := PackageMap(lock.packages);
    forall x, q | Chain(m, roots, q, x)
      ensures x in m
    {
      ReachableIsLocked(lock, roots, x);
    }
  }

  /** Runtime roots are tried before development roots; the flag says the chain
      starts at a development root. */
  method ChainTo(lock: LockFile, target: Name) returns (r: Option<(seq<Name>, bool)>)
    ensures r.Some? ==>
      Shortest(PackageMap(lock.packages), if r.value.1 then lock.development else lock.runtime, r.value.0, target)
    ensures AllLocked(lock) ==> (r.Some? <==> ReachableFrom(PackageMap(lock.packages), Roots(lock), target))
    ensures AllLocked(lock) && r.Some? ==>
      (r.value.1 <==> !ReachableFrom(PackageMap(lock.packages), lock.runtime, target))
    ensures AllLocked(lock) && AllReachable(lock) && target in PackageMap(lock.packages) ==> r.Some?
  {
    hide ReachableFrom, AllLocked, Shortest, StopsShort, LockedOnTheWay;
    var m := BuildMap(lock.packages);
    if AllLocked(lock) {
      NothingMissing(lock, lock.runtime, target);
      NothingMissing(lock, lock.development, target);
    }
    EitherRoots(m, lock.runtime, lock.development, target);
    var chain := ChainFrom(lock.runtime, target, m);
    if chain.Some? {
      ShortestReaches(m, lock.runtime, chain.value, target);
      return Some((chain.value, false));
    }
    chain := ChainFrom(lock.development, target, m);
    if chain.Some? {
      ShortestReaches(m, lock.development, chain.value, target);
      return Some((chain.value, true));
    }
    return None;
  }

  lemma ShortestReaches(m: Packages, roots: seq<Name>, p: seq<Name>, target: Name)
    requires Shortest(m, roots, p, target)
    ensures ReachableFrom(m, roots, target)
  {
  }
}
