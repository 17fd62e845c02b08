/** The reference check of a lockfile: everything named is locked, the graph
    has no cycle, and every package is reachable from the roots. */
module Lockfile {
  import opened Sequences

  type Name = string

  datatype LockedPackage = LockedPackage(source: Name, dependencies: seq<Name>)

  datatype LockFile = LockFile(runtime: seq<Name>, development: seq<Name>, packages: seq<LockedPackage>)

  datatype Error =
    | MissingReference(name: Name)
    | DependencyCycle(name: Name)
    | UnreachablePackage(name: Name)

  datatype Validity = Valid | Invalid(error: Error)

  type Packages = map<Name, seq<Name>>

  /** Packages by source; a later entry replaces an earlier one. */
  function PackageMap(packages: seq<LockedPackage>): Packages {
    if packages == [] then map[]
    else
      var last := packages[|packages| - 1];
      PackageMap(packages[..|packages| - 1])[last.source := last.dependencies]
  }

  // ----- The dependency graph -----

  predicate DependsOn(m: Packages, x: Name, y: Name) {
    x in m && y in m[x]
  }

  ghost predicate Walk(m: Packages, p: seq<Name>) {
    && |p| > 0
    && (forall j, k :: 0 <= j < k < |p| && k == j + 1 ==> DependsOn(m, p[j], p[k]))
  }

  ghost predicate WalkBetween(m: Packages, p: seq<Name>, x: Name, y: Name) {
    Walk(m, p) && p[0] == x && p[|p| - 1] == y
  }

  /** `y` is a dependency of `x`, or of one of its dependencies, and so on. */
  ghost predicate Needs(m: Packages, x: Name, y: Name) {
    exists p :: WalkBetween(m, p, x, y) && |p| > 1
  }

  ghost predicate ReachableFrom(m: Packages, roots: seq<Name>, x: Name) {
    exists p :: Walk(m, p) && p[0] in roots && p[|p| - 1] == x
  }

  lemma WalkExtends(m: Packages, p: seq<Name>, x: Name)
    requires Walk(m, p) && DependsOn(m, p[|p| - 1], x)
    ensures Walk(m, p + [x])
  {
  }

  lemma NeedsStep(m: Packages, x: Name, y: Name, z: Name)
    requires (x == y || Needs(m, x, y)) && DependsOn(m, y, z)
    ensures Needs(m, x, z)
  {
    if x == y {
      assert WalkBetween(m, [x, z], x, z);
    } else {
      var p :| WalkBetween(m, p, x, y) && |p| > 1;
      WalkExtends(m, p, z);
      assert WalkBetween(m, p + [z], x, z);
    }
  }

  lemma ReachableStep(m: Packages, roots: seq<Name>, x: Name, y: Name)
    requires ReachableFrom(m, roots, x) && DependsOn(m, x, y)
    ensures ReachableFrom(m, roots, y)
  {
    var p :| Walk(m, p) && p[0] in roots && p[|p| - 1] == x;
    WalkExtends(m, p, y);
    assert (p + [y])[0] in roots;
  }

  lemma ReachableRoot(m: Packages, roots: seq<Name>, x: Name)
    requires x in roots
    ensures ReachableFrom(m, roots, x)
  {
    assert Walk(m, [x]);
  }

  /** A set holding the roots and closed under dependencies holds everything reachable. */
  lemma {:induction false} ClosedCovers(m: Packages, roots: seq<Name>, s: set<Name>, p: seq<Name>)
    requires Walk(m, p) && p[0] in roots
    requires forall x :: x in roots ==> x in s
    requires forall x, y :: x in s && DependsOn(m, x, y) ==> y in s
    ensures p[|p| - 1] in s
    decreases |p|
  {
    if |p| > 1 {
      ClosedCovers(m, roots, s, p[..|p| - 1]);
    }
  }

  // ----- Completion order rules out cycles -----

  /** Every package comes after all its dependencies. */
  ghost predicate Ordered(m: Packages, done: seq<Name>) {
    forall k, y :: 0 <= k < |done| && DependsOn(m, done[k], y) ==> y in done[..k]
  }

  lemma {:induction false} OrderedDecreases(m: Packages, done: seq<Name>, p: seq<Name>, k: nat) returns (j: nat)
    requires Ordered(m, done) && Walk(m, p) && k < |done| && done[k] == p[0]
    ensures j <= k && done[j] == p[|p| - 1] && (|p| > 1 ==> j < k)
    decreases |p|
  {
    if |p| == 1 {
      j := k;
    } else {
      assert DependsOn(m, p[0], p[1]);
      var i :| 0 <= i < k && done[..k][i] == p[1];
      j := OrderedDecreases(m, done, p[1..], i);
    }
  }

  lemma OrderedIsAcyclic(m: Packages, done: seq<Name>, x: Name)
    requires Ordered(m, done) && Distinct(done) && x in done
    ensures !Needs(m, x, x)
  {
    if Needs(m, x, x) {
      var p :| WalkBetween(m, p, x, x) && |p| > 1;
      var k :| 0 <= k < |done| && done[k] == x;
      var j := OrderedDecreases(m, done, p, k);
    }
  }

  // ----- What the check decides -----

  function Roots(lock: LockFile): (roots: seq<Name>)
    ensures forall x :: x in roots <==> x in lock.runtime || x in lock.development
  {
    lock.runtime + lock.development
  }

  ghost predicate Mentioned(lock: LockFile, x: Name) {
    || x in lock.runtime || x in lock.development
    || exists k :: 0 <= k < |lock.packages| && x in lock.packages[k].dependencies
  }

  ghost predicate AllLocked(lock: LockFile) {
    forall x :: Mentioned(lock, x) ==> x in PackageMap(lock.packages)
  }

  /** No package needed by the roots needs itself. */
  ghost predicate Acyclic(lock: LockFile) {
    var m := PackageMap(lock.packages);
    forall x :: ReachableFrom(m, Roots(lock), x) ==> !Needs(m, x, x)
  }

  ghost predicate AllReachable(lock: LockFile) {
    var m := PackageMap(lock.packages);
    forall x :: x in m ==> ReachableFrom(m, Roots(lock), x)
  }

  /** The last entry for `x` is number `k`, and its dependencies are the locked ones. */
  ghost predicate LastEntry(packages: seq<LockedPackage>, k: nat, x: Name)
    requires k < |packages|
  {
    && packages[k].source == x && (forall j :: k < j < |packages| ==> packages[j].source != x)
    && x in PackageMap(packages) && packages[k].dependencies == PackageMap(packages)[x]
  }

  lemma {:induction false} MapEntries(packages: seq<LockedPackage>, x: Name)
    ensures x in PackageMap(packages) <==> exists k :: 0 <= k < |packages| && packages[k].source == x
    ensures x in PackageMap(packages) ==> exists k :: 0 <= k < |packages| && LastEntry(packages, k, x)
  {
    if packages != [] {
      var init, last := packages[..|packages| - 1], packages[|packages| - 1];
      MapEntries(init, x);
      if x == last.source {
        assert LastEntry(packages, |packages| - 1, x);
      } else if x in PackageMap(init) {
        var k :| 0 <= k < |init| && LastEntry(init, k, x);
        assert forall j :: k <= j < |init| ==> packages[j] == init[j];
        assert LastEntry(packages, k, x);
      } else {
        assert forall k :: 0 <= k < |packages| - 1 ==> packages[k] == init[k];
      }
    }
  }

  lemma LockedIsClosed(lock: LockFile)
    requires AllLocked(lock)
    ensures var m := PackageMap(lock.packages);
            (forall x :: x in Roots(lock) ==> x in m) && (forall x, y :: DependsOn(m, x, y) ==> y in m)
  {
    var m := PackageMap(lock.packages);
    forall x | x in Roots(lock)
      ensures x in m
    {
      assert Mentioned(lock, x);
    }
    forall x, y | DependsOn(m, x, y)
      ensures y in m
    {
      MapEntries(lock.packages, x);
      assert Mentioned(lock, y);
    }
  }

  // ----- The search -----

  datatype Frame = Visit(name: Name) | Finish(name: Name)

  /** The open package whose dependencies lie at height `j`, if any. */
  function Owner(stack: seq<Frame>, j: nat): int
    requires j <= |stack|
  {
    if j == 0 then -1 else if stack[j - 1].Finish? then j - 1 else Owner(stack, j - 1)
  }

  lemma {:induction false} OwnerIs(stack: seq<Frame>, j: nat)
    requires j <= |stack|
    ensures -1 <= Owner(stack, j) < j
    ensures Owner(stack, j) >= 0 ==> stack[Owner(stack, j)].Finish?
    ensures forall i :: Owner(stack, j) < i < j ==> stack[i].Visit?
  {
    if j > 0 && !stack[j - 1].Finish? {
      OwnerIs(stack, j - 1);
    }
  }

  lemma {:induction false} OwnerPrefix(stack: seq<Frame>, more: seq<Frame>, j: nat)
    requires j <= |stack|
    ensures Owner(stack + more, j) == Owner(stack, j)
  {
    if j > 0 {
      assert (stack + more)[j - 1] == stack[j - 1];
      OwnerPrefix(stack, more, j - 1);
    }
  }

  /** Each frame is a root or a dependency of the open package below it. */
  ghost predicate LinkedAt(m: Packages, roots: seq<Name>, stack: seq<Frame>, j: nat)
    requires j < |stack|
  {
    OwnerIs(stack, j);
    var o := Owner(stack, j);
    if o < 0 then stack[j].name in roots else DependsOn(m, stack[o].name, stack[j].name)
  }

  ghost predicate Linked(m: Packages, roots: seq<Name>, stack: seq<Frame>) {
    forall j :: 0 <= j < |stack| ==> LinkedAt(m, roots, stack, j)
  }

  /** Whatever lies above an open package is needed by it. */
  lemma {:induction false} AboveIsNeeded(m: Packages, roots: seq<Name>, stack: seq<Frame>, i: nat, j: nat)
    requires Linked(m, roots, stack) && i < j < |stack| && stack[i].Finish?
    ensures Needs(m, stack[i].name, stack[j].name)
    decreases j
  {
    OwnerIs(stack, j);
    assert LinkedAt(m, roots, stack, j);
    var o := Owner(stack, j);
    assert o >= i;
    if o > i {
      AboveIsNeeded(m, roots, stack, i, o);
    }
    NeedsStep(m, stack[i].name, stack[o].name, stack[j].name);
  }

  ghost predicate OpenOnce(stack: seq<Frame>) {
    forall i, j :: 0 <= i < j < |stack| && stack[i].Finish? && stack[j].Finish? ==> stack[i].name != stack[j].name
  }

  ghost predicate OnStack(stack: seq<Frame>, i: int, x: Name) {
    exists j :: i < j < |stack| && 0 <= j && stack[j].name == x
  }

  /** What an open package needs next is done or lies above it. */
  ghost predicate CoveredAt(m: Packages, stack: seq<Frame>, done: seq<Name>, i: nat)
    requires i < |stack|
  {
    stack[i].Finish? ==> forall y :: DependsOn(m, stack[i].name, y) ==> y in done || OnStack(stack, i, y)
  }

  ghost predicate Covered(m: Packages, roots: seq<Name>, stack: seq<Frame>, done: seq<Name>) {
    && (forall x :: x in roots ==> x in done || OnStack(stack, -1, x))
    && (forall i :: 0 <= i < |stack| ==> CoveredAt(m, stack, done, i))
  }

  ghost predicate SearchInv(
    m: Packages, roots: seq<Name>, stack: seq<Frame>, active: set<Name>, complete: set<Name>, done: seq<Name>)
  {
    && Linked(m, roots, stack)
    && OpenOnce(stack)
    && Covered(m, roots, stack, done)
    && Ordered(m, done)
    && Distinct(done)
    && (forall x :: x in complete <==> x in done)
    && (forall x :: x in active <==> Finish(x) in stack)
    && (forall x :: x in done ==> x !in active && ReachableFrom(m, roots, x))
    && (forall j :: 0 <= j < |stack| ==> ReachableFrom(m, roots, stack[j].name))
  }

  lemma LinkedPrefix(m: Packages, roots: seq<Name>, rest: seq<Frame>, f: Frame)
    requires Linked(m, roots, rest + [f])
    ensures Linked(m, roots, rest)
  {
    forall j | 0 <= j < |rest|
      ensures LinkedAt(m, roots, rest, j)
    {
      assert LinkedAt(m, roots, rest + [f], j);
      OwnerPrefix(rest, [f], j);
      OwnerIs(rest, j);
    }
  }

  lemma CoveredPopped(m: Packages, roots: seq<Name>, rest: seq<Frame>, f: Frame, done: seq<Name>, done': seq<Name>)
    requires Covered(m, roots, rest + [f], done) && f.name in done' && forall x :: x in done ==> x in done'
    ensures Covered(m, roots, rest, done')
  {
    var stack := rest + [f];
    forall x | x in roots
      ensures x in done' || OnStack(rest, -1, x)
    {
      if x !in done' {
        var j :| -1 < j < |stack| && stack[j].name == x;
        assert rest[j] == stack[j];
      }
    }
    forall i | 0 <= i < |rest|
      ensures CoveredAt(m, rest, done', i)
    {
      assert CoveredAt(m, stack, done, i) && stack[i] == rest[i];
      forall y | rest[i].Finish? && DependsOn(m, rest[i].name, y)
        ensures y in done' || OnStack(rest, i, y)
      {
        if y !in done' {
          var j :| i < j < |stack| && stack[j].name == y;
          assert rest[j] == stack[j];
        }
      }
    }
  }

  /** A package whose dependencies are all done is done. */
  lemma FinishStep(
    m: Packages, roots: seq<Name>, rest: seq<Frame>, x: Name, active: set<Name>, complete: set<Name>, done: seq<Name>)
    requires SearchInv(m, roots, rest + [Finish(x)], active, complete, done)
    ensures SearchInv(m, roots, rest, active - {x}, complete + {x}, done + [x])
    ensures x in active
  {
    var stack := rest + [Finish(x)];
    assert stack[|rest|] == Finish(x);
    LinkedPrefix(m, roots, rest, Finish(x));
    CoveredPopped(m, roots, rest, Finish(x), done, done + [x]);
    assert CoveredAt(m, stack, done, |rest|);
    OrderedAppends(m, done, x);
    assert forall i :: 0 <= i < |rest| ==> rest[i] == stack[i] && rest[i] != Finish(x);
  }

  lemma OrderedAppends(m: Packages, done: seq<Name>, x: Name)
    requires Ordered(m, done) && forall y :: DependsOn(m, x, y) ==> y in done
    ensures Ordered(m, done + [x])
  {
    var done' := done + [x];
    forall k, y | 0 <= k < |done'| && DependsOn(m, done'[k], y)
      ensures y in done'[..k]
    {
      if k < |done| {
        assert done'[..k] == done[..k];
      } else {
        assert done'[..k] == done;
      }
    }
  }

  lemma SkipStep(
    m: Packages, roots: seq<Name>, rest: seq<Frame>, x: Name, active: set<Name>, complete: set<Name>, done: seq<Name>)
    requires SearchInv(m, roots, rest + [Visit(x)], active, complete, done) && x in complete
    ensures SearchInv(m, roots, rest, active, complete, done)
  {
    var stack := rest + [Visit(x)];
    LinkedPrefix(m, roots, rest, Visit(x));
    CoveredPopped(m, roots, rest, Visit(x), done, done);
    assert forall i :: 0 <= i < |rest| ==> rest[i] == stack[i];
  }

  /** Meeting an open package again closes a real cycle. */
  lemma CycleFound(
    m: Packages, roots: seq<Name>, rest: seq<Frame>, x: Name, active: set<Name>, complete: set<Name>, done: seq<Name>)
    requires SearchInv(m, roots, rest + [Visit(x)], active, complete, done) && x in active
    ensures Needs(m, x, x) && ReachableFrom(m, roots, x)
  {
    var stack := rest + [Visit(x)];
    assert stack[|rest|] == Visit(x);
    var i :| 0 <= i < |stack| && stack[i] == Finish(x);
    AboveIsNeeded(m, roots, stack, i, |rest|);
  }

  /** The frames pushed for a package's dependencies. */
  ghost predicate Pushed(m: Packages, x: Name, pushed: seq<Frame>) {
    && x in m
    && (forall k :: 0 <= k < |pushed| ==> pushed[k].Visit? && pushed[k].name in m[x])
    && (forall y :: y in m[x] ==> Visit(y) in pushed)
  }

  lemma EnterStep(
    m: Packages, roots: seq<Name>, rest: seq<Frame>, x: Name,
    active: set<Name>, complete: set<Name>, done: seq<Name>, pushed: seq<Frame>)
    requires SearchInv(m, roots, rest + [Visit(x)], active, complete, done)
    requires x !in complete && x !in active && Pushed(m, x, pushed)
    ensures SearchInv(m, roots, rest + [Finish(x)] + pushed, active + {x}, complete, done)
  {
    EnterLinked(m, roots, rest, x, pushed);
    EnterCovered(m, roots, rest, x, done, pushed);
    EnterActive(rest, x, active, pushed);
    EnterReachable(m, roots, rest, x, pushed);
    hide Linked, OpenOnce, Covered, Ordered, ReachableFrom, Pushed;
  }

  lemma EnterReachable(m: Packages, roots: seq<Name>, rest: seq<Frame>, x: Name, pushed: seq<Frame>)
    requires Pushed(m, x, pushed)
    requires var stack := rest + [Visit(x)]; forall j :: 0 <= j < |stack| ==> ReachableFrom(m, roots, stack[j].name)
    ensures var stack := rest + [Finish(x)] + pushed;
            forall j :: 0 <= j < |stack| ==> ReachableFrom(m, roots, stack[j].name)
  {
    hide ReachableFrom;
    var n, stack, stack' := |rest|, rest + [Visit(x)], rest + [Finish(x)] + pushed;
    assert ReachableFrom(m, roots, stack[n].name);
    forall j | 0 <= j < |stack'|
      ensures ReachableFrom(m, roots, stack'[j].name)
    {
      if j <= n {
        assert stack'[j].name == stack[j].name;
      } else {
        assert stack'[j] == pushed[j - n - 1];
        ReachableStep(m, roots, x, stack'[j].name);
      }
    }
  }

  lemma EnterActive(rest: seq<Frame>, x: Name, active: set<Name>, pushed: seq<Frame>)
    requires forall y :: y in active <==> Finish(y) in rest + [Visit(x)]
    requires OpenOnce(rest + [Visit(x)]) && x !in active
    requires forall k :: 0 <= k < |pushed| ==> pushed[k].Visit?
    ensures forall y :: y in active + {x} <==> Finish(y) in rest + [Finish(x)] + pushed
    ensures OpenOnce(rest + [Finish(x)] + pushed)
  {
    var n, stack, stack' := |rest|, rest + [Visit(x)], rest + [Finish(x)] + pushed;
    assert forall i :: 0 <= i < n ==> stack'[i] == stack[i] == rest[i] && rest[i] in stack;
    assert forall i :: n < i < |stack'| ==> stack'[i] == pushed[i - n - 1] && stack'[i].Visit?;
    forall y
      ensures y in active + {x} <==> Finish(y) in stack'
    {
      if Finish(y) in rest {
        assert Finish(y) in stack;
      }
      assert Finish(y) in stack' <==> Finish(y) in rest || y == x;
    }
  }

  lemma EnterLinked(m: Packages, roots: seq<Name>, rest: seq<Frame>, x: Name, pushed: seq<Frame>)
    requires Linked(m, roots, rest + [Visit(x)]) && Pushed(m, x, pushed)
    ensures Linked(m, roots, rest + [Finish(x)] + pushed)
  {
    var n, stack, stack' := |rest|, rest + [Visit(x)], rest + [Finish(x)] + pushed;
    forall j | 0 <= j < |stack'|
      ensures LinkedAt(m, roots, stack', j)
    {
      OwnerIs(stack', j);
      if j <= n {
        assert LinkedAt(m, roots, stack, j);
        OwnerIs(stack, j);
        OwnerPrefix(rest, [Visit(x)], j);
        OwnerPrefix(rest, [Finish(x)] + pushed, j);
        assert stack' == rest + ([Finish(x)] + pushed);
      } else {
        assert stack'[n] == Finish(x) && stack'[j] == pushed[j - n - 1];
        OwnerAbove(stack', n, j);
      }
    }
  }

  lemma {:induction false} OwnerAbove(stack: seq<Frame>, n: nat, j: nat)
    requires n < j <= |stack| && stack[n].Finish? && forall i :: n < i < j ==> stack[i].Visit?
    ensures Owner(stack, j) == n
  {
    if j > n + 1 {
      OwnerAbove(stack, n, j - 1);
    }
  }

  lemma EnterCovered(m: Packages, roots: seq<Name>, rest: seq<Frame>, x: Name, done: seq<Name>, pushed: seq<Frame>)
    requires Covered(m, roots, rest + [Visit(x)], done) && Pushed(m, x, pushed)
    ensures Covered(m, roots, rest + [Finish(x)] + pushed, done)
  {
    var n, stack, stack' := |rest|, rest + [Visit(x)], rest + [Finish(x)] + pushed;
    assert forall i :: 0 <= i <= n ==> stack'[i].name == stack[i].name;
    forall y, i | OnStack(stack, i, y)
      ensures OnStack(stack', i, y)
    {
      var j :| i < j < |stack| && 0 <= j && stack[j].name == y;
      assert stack'[j].name == y;
    }
    forall i | 0 <= i < |stack'|
      ensures CoveredAt(m, stack', done, i)
    {
      if i < n {
        assert CoveredAt(m, stack, done, i) && stack[i] == stack'[i];
      } else if i == n {
        forall y | DependsOn(m, x, y)
          ensures OnStack(stack', n, y)
        {
          var k :| 0 <= k < |pushed| && pushed[k] == Visit(y);
          assert stack'[n + 1 + k] == pushed[k];
        }
      } else {
        assert stack'[i] == pushed[i - n - 1];
      }
    }
  }

  // ----- The check -----

  /** Dependencies are pushed from the last to the first, so the first is visited first. */
  method PushAll(m: Packages, x: Name) returns (pushed: seq<Frame>)
    requires x in m
    ensures Pushed(m, x, pushed)
  {
    pushed := [];
    var k := |m[x]|;
    while k > 0
      invariant 0 <= k <= |m[x]|
      invariant forall i :: 0 <= i < |pushed| ==> pushed[i].Visit? && pushed[i].name in m[x]
      invariant forall i :: k <= i < |m[x]| ==> Visit(m[x][i]) in pushed
    {
      k := k - 1;
      pushed := pushed + [Visit(m[x][k])];
    }
  }

  method PushRoots(roots: seq<Name>) returns (stack: seq<Frame>)
    ensures |stack| == |roots| && forall k :: 0 <= k < |roots| ==> stack[k] == Visit(roots[|roots| - 1 - k])
  {
    stack := [];
    for k := 0 to |roots|
      invariant |stack| == k && forall i :: 0 <= i < k ==> stack[i] == Visit(roots[k - 1 - i])
    {
      stack := [Visit(roots[k])] + stack;
    }
  }

  lemma SearchStarts(m: Packages, roots: seq<Name>, stack: seq<Frame>)
    requires |stack| == |roots| && forall k :: 0 <= k < |roots| ==> stack[k] == Visit(roots[|roots| - 1 - k])
    ensures SearchInv(m, roots, stack, {}, {}, [])
  {
    forall j | 0 <= j < |stack|
      ensures LinkedAt(m, roots, stack, j) && ReachableFrom(m, roots, stack[j].name)
    {
      OwnerIs(stack, j);
      ReachableRoot(m, roots, stack[j].name);
    }
    forall x | x in roots
      ensures OnStack(stack, -1, x)
    {
      var k :| 0 <= k < |roots| && roots[k] == x;
      assert stack[|roots| - 1 - k].name == x;
    }
  }

  /** When the stack is empty, exactly the reachable packages are done. */
  lemma SearchDone(m: Packages, roots: seq<Name>, active: set<Name>, complete: set<Name>, done: seq<Name>)
    requires SearchInv(m, roots, [], active, complete, done)
    ensures forall x :: x in complete <==> ReachableFrom(m, roots, x)
    ensures forall x :: x in complete ==> !Needs(m, x, x)
  {
    forall x, y | x in complete && DependsOn(m, x, y)
      ensures y in complete
    {
      var k :| 0 <= k < |done| && done[k] == x;
      assert y in done[..k];
    }
    forall x | ReachableFrom(m, roots, x)
      ensures x in complete
    {
      var p :| Walk(m, p) && p[0] in roots && p[|p| - 1] == x;
      assert forall r :: r in roots ==> r in done || OnStack([], -1, r);
      ClosedCovers(m, roots, complete, p);
    }
    forall x | x in complete
      ensures !Needs(m, x, x)
    {
      OrderedIsAcyclic(m, done, x);
    }
  }

  /** The depth-first search with open and finished packages. */
  method Search(m: Packages, roots: seq<Name>) returns (cycle: seq<Name>, complete: set<Name>)
    requires (forall x :: x in roots ==> x in m) && (forall x, y :: DependsOn(m, x, y) ==> y in m)
    ensures |cycle| <= 1
    ensures cycle != [] ==> Needs(m, cycle[0], cycle[0]) && ReachableFrom(m, roots, cycle[0])
    ensures cycle == [] ==> forall x :: x in complete <==> ReachableFrom(m, roots, x)
    ensures cycle == [] ==> forall x :: x in complete ==> !Needs(m, x, x)
  {
    hide SearchInv, Needs, ReachableFrom;
    var active: set<Name> := {};
    complete := {};
    ghost var done: seq<Name> := [];
    var pending := PushRoots(roots);
    SearchStarts(m, roots, pending);
    while pending != []
      invariant SearchInv(m, roots, pending, active, complete, done)
      invariant forall j :: 0 <= j < |pending| ==> pending[j].name in m
      decreases m.Keys - active - complete, |pending|
    {
      var frame, rest := pending[|pending| - 1], pending[..|pending| - 1];
      var name := frame.name;
      assert pending == rest + [frame];
      ghost var unentered := m.Keys - active - complete;
      if frame.Finish? {
        FinishStep(m, roots, rest, name, active, complete, done);
        active, complete, done := active - {name}, complete + {name}, done + [name];
        assert m.Keys - active - complete == unentered;
        pending := rest;
      } else if name in complete {
        SkipStep(m, roots, rest, name, active, complete, done);
        pending := rest;
      } else if name in active {
        CycleFound(m, roots, rest, name, active, complete, done);
        return [name], complete;
      } else {
        var pushed := PushAll(m, name);
        EnterStep(m, roots, rest, name, active, complete, done, pushed);
        active := active + {name};
        assert name in unentered && m.Keys - active - complete == unentered - {name};
        EnteredNames(m, rest, name, pushed);
        pending := rest + [Finish(name)] + pushed;
      }
    }
    SearchDone(m, roots, active, complete, done);
    cycle := [];
  }

  lemma EnteredNames(m: Packages, rest: seq<Frame>, x: Name, pushed: seq<Frame>)
    requires Pushed(m, x, pushed) && (forall x, y :: DependsOn(m, x, y) ==> y in m)
    requires forall j :: 0 <= j < |rest| ==> rest[j].name in m
    ensures var stack := rest + [Finish(x)] + pushed; forall j :: 0 <= j < |stack| ==> stack[j].name in m
  {
    forall k | 0 <= k < |pushed|
      ensures pushed[k].name in m
    {
      assert DependsOn(m, x, pushed[k].name);
    }
  }

  /** The first of the names that is not locked. */
  ghost predicate FirstMissing(m: Packages, names: seq<Name>, x: Name) {
    x !in m && exists k :: 0 <= k < |names| && names[k] == x && forall i :: 0 <= i < k ==> names[i] in m
  }

  method FindMissing(m: Packages, names: seq<Name>) returns (missing: seq<Name>)
    ensures |missing| <= 1
    ensures missing == [] <==> forall x :: x in names ==> x in m
    ensures missing != [] ==> FirstMissing(m, names, missing[0])
  {
    for k := 0 to |names|
      invariant forall i :: 0 <= i < k ==> names[i] in m
    {
      if names[k] !in m {
        return [names[k]];
      }
    }
    return [];
  }

  /** The first unlocked name: among the runtime roots, then the development
      roots, then the dependencies, package by package. */
  ghost predicate FirstUnlocked(lock: LockFile, m: Packages, x: Name) {
    || FirstMissing(m, lock.runtime + lock.development, x)
    || ((forall y :: y in lock.runtime || y in lock.development ==> y in m) &&
        exists k :: 0 <= k < |lock.packages| && FirstUnlockedIn(lock.packages, m, k, x))
  }

  ghost predicate FirstUnlockedIn(packages: seq<LockedPackage>, m: Packages, k: nat, x: Name)
    requires k < |packages|
  {
    && FirstMissing(m, packages[k].dependencies, x)
    && forall i, y :: 0 <= i < k && y in packages[i].dependencies ==> y in m
  }

  method FindUnlocked(lock: LockFile, m: Packages) returns (missing: seq<Name>)
    requires m == PackageMap(lock.packages)
    ensures missing == [] <==> AllLocked(lock)
    ensures missing != [] ==> FirstUnlocked(lock, m, missing[0])
  {
    missing := FindMissing(m, Roots(lock));
    if missing != [] {
      assert Mentioned(lock, missing[0]);
      return;
    }
    for k := 0 to |lock.packages|
      invariant forall i, x :: 0 <= i < k && x in lock.packages[i].dependencies ==> x in m
    {
      missing := FindMissing(m, lock.packages[k].dependencies);
      if missing != [] {
        assert Mentioned(lock, missing[0]) && FirstUnlockedIn(lock.packages, m, k, missing[0]);
        return;
      }
    }
    missing := [];
  }

  // ----- The order of names -----

  /** The order of the sorted map: by the first character that differs. */
  predicate Before(a: Name, b: Name) {
    b != "" && (a == "" || a[0] < b[0] || (a[0] == b[0] && Before(a[1..], b[1..])))
  }

  lemma {:induction false} BeforeIsTotal(a: Name, b: Name)
    ensures a == b || Before(a, b) || Before(b, a)
    ensures !(Before(a, b) && (a == b || Before(b, a)))
  {
    if a != "" && b != "" && a[0] == b[0] {
      BeforeIsTotal(a[1..], b[1..]);
      assert a == [a[0]] + a[1..] && b == [b[0]] + b[1..];
    }
  }

  lemma {:induction false} BeforeChains(a: Name, b: Name, c: Name)
    requires Before(a, b) && Before(b, c)
    ensures Before(a, c)
  {
    if a != "" && a[0] == b[0] == c[0] {
      BeforeChains(a[1..], b[1..], c[1..]);
    }
  }

  /** The first locked name, in that order, that is not complete. */
  method FindIncomplete(packages: seq<LockedPackage>, complete: set<Name>) returns (found: seq<Name>)
    ensures |found| <= 1
    ensures found == [] <==> forall x :: x in PackageMap(packages) ==> x in complete
    ensures found != [] ==>
              && found[0] in PackageMap(packages) && found[0] !in complete
              && forall x :: x in PackageMap(packages) && x !in complete ==> x == found[0] || Before(found[0], x)
  {
    hide Before, PackageMap;
    found := [];
    for k := 0 to |packages|
      invariant |found| <= 1
      invariant found != [] ==> found[0] !in complete && exists i :: 0 <= i < k && packages[i].source == found[0]
      invariant forall i :: 0 <= i < k && packages[i].source !in complete ==>
                  found != [] && (packages[i].source == found[0] || Before(found[0], packages[i].source))
    {
      var source := packages[k].source;
      if source !in complete {
        if found == [] || Before(source, found[0]) {
          forall x | found != [] && Before(found[0], x)
            ensures Before(source, x)
          {
            BeforeChains(source, found[0], x);
          }
          found := [source];
        } else {
          BeforeIsTotal(source, found[0]);
        }
      }
    }
    forall x: Name {
      MapEntries(packages, x);
    }
  }

  method BuildMap(packages: seq<LockedPackage>) returns (m: Packages)
    ensures m == PackageMap(packages)
  {
    m := map[];
    for k := 0 to |packages|
      invariant m == PackageMap(packages[..k])
    {
      assert packages[..k + 1][..k] == packages[..k];
      m := m[packages[k].source := packages[k].dependencies];
    }
    assert packages[..|packages|] == packages;
  }

  /** Nothing locked but unreachable comes before `x`. */
  ghost predicate FirstUnreachable(m: Packages, roots: seq<Name>, x: Name) {
    && !ReachableFrom(m, roots, x)
    && forall y :: y in m && !ReachableFrom(m, roots, y) ==> y == x || Before(x, y)
  }

  /** Accepts exactly the lockfiles that name only locked packages, have no
      dependency cycle and lock nothing unreachable; each refusal names a
      witness, in that order of precedence. */
  method ValidateReferences(lock: LockFile) returns (r: Validity)
    ensures r.Valid? <==> AllLocked(lock) && Acyclic(lock) && AllReachable(lock)
    ensures r.Invalid? && r.error.MissingReference? ==>
              FirstUnlocked(lock, PackageMap(lock.packages), r.error.name)
    ensures r.Invalid? && r.error.DependencyCycle? ==>
              AllLocked(lock) && Needs(PackageMap(lock.packages), r.error.name, r.error.name)
    ensures r.Invalid? && r.error.UnreachablePackage? ==>
              && AllLocked(lock) && Acyclic(lock) && r.error.name in PackageMap(lock.packages)
              && FirstUnreachable(PackageMap(lock.packages), Roots(lock), r.error.name)
  {
    hide Needs, ReachableFrom, Before, FirstUnlocked;
    var m := BuildMap(lock.packages);
    var missing := FindUnlocked(lock, m);
    if missing != [] {
      return Invalid(MissingReference(missing[0]));
    }
    LockedIsClosed(lock);
    var cycle, complete := Search(m, Roots(lock));
    if cycle != [] {
      return Invalid(DependencyCycle(cycle[0]));
    }
    var unreachable := FindIncomplete(lock.packages, complete);
    if unreachable != [] {
      return Invalid(UnreachablePackage(unreachable[0]));
    }
    return Valid;
  }
}
