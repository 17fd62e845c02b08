/** The explicit-stack depth-first search that orders the basic blocks. */
module ReversePostorder {
  import opened Sequences
  import opened Digraph

  /** A frame of the work stack: a block to enter, or one whose successors are done. */
  datatype Frame = Enter(block: nat) | Exit(block: nat)

  /** What the immediate-dominator iteration needs of the order: exactly the
      reachable vertices, once each, root first, and every other vertex after
      at least one of its predecessors. */
  ghost predicate IsReversePostorder(g: Graph, order: seq<nat>) {
    && |order| > 0
    && order[0] == 0
    && Distinct(order)
    && (forall v: nat :: v in order <==> v < |g| && Reachable(g, v))
    && (forall i :: 0 < i < |order| ==> HasEarlierPredecessor(g, order, i))
  }

  ghost predicate HasEarlierPredecessor(g: Graph, order: seq<nat>, i: nat)
    requires i < |order|
  {
    exists j :: 0 <= j < i && Edge(g, order[j], order[i])
  }

  // ----- Invariants of the search -----

  /** `v` was entered: it is still open or already finished. */
  ghost predicate Entered(work: seq<Frame>, post: seq<nat>, v: nat) {
    Exit(v) in work || v in post
  }

  ghost predicate MarksEntered(g: Graph, visited: seq<bool>, work: seq<Frame>, post: seq<nat>) {
    && |visited| == |g|
    && (forall v: nat :: v < |g| ==> (visited[v] <==> Entered(work, post, v)))
    && (forall v: nat :: Entered(work, post, v) ==> v < |g| && Reachable(g, v))
  }

  /** An open block below height `j` has an edge to `v`. */
  ghost predicate OpenPredecessor(g: Graph, work: seq<Frame>, j: nat, v: nat)
    requires j <= |work|
  {
    exists i :: 0 <= i < j && work[i].Exit? && Edge(g, work[i].block, v)
  }

  predicate Edge(g: Graph, u: nat, v: nat) {
    u < |g| && v in g[u]
  }

  /** Each frame's block is the root or a successor of an open block deeper in the stack. */
  ghost predicate Rooted(g: Graph, work: seq<Frame>) {
    forall j :: 0 <= j < |work| ==> RootedAt(g, work, j)
  }

  ghost predicate RootedAt(g: Graph, work: seq<Frame>, j: nat)
    requires j < |work|
  {
    work[j].block < |g| && (j == 0 == work[j].block || OpenPredecessor(g, work, j, work[j].block))
  }

  ghost predicate OnceEach(work: seq<Frame>, post: seq<nat>) {
    && Distinct(post)
    && (forall i, j :: 0 <= i < j < |work| && work[i].Exit? && work[j].Exit? ==> work[i] != work[j])
    && (forall v :: v in post ==> Exit(v) !in work)
  }

  /** A successor of a finished block is entered. */
  ghost predicate FinishedCovered(g: Graph, work: seq<Frame>, post: seq<nat>) {
    forall v, w :: v in post && Edge(g, v, w) ==> Entered(work, post, w)
  }

  /** A successor of an open block is entered or waits above it. */
  ghost predicate OpenCovered(g: Graph, work: seq<Frame>, post: seq<nat>) {
    forall i, w :: 0 <= i < |work| && work[i].Exit? && Edge(g, work[i].block, w) ==>
      Entered(work, post, w) || Enter(w) in work[i + 1..]
  }

  ghost predicate RootLast(work: seq<Frame>, post: seq<nat>) {
    if |work| == 0 then |post| > 0 && post[|post| - 1] == 0
    else work[0].block == 0 && 0 !in post && (work[0].Enter? ==> |work| == 1)
  }

  /** The block at `k` finished before one of its predecessors, which is open or finished later. */
  ghost predicate LeftEarly(g: Graph, work: seq<Frame>, post: seq<nat>, k: nat)
    requires k < |post|
  {
    || post[k] == 0
    || OpenPredecessor(g, work, |work|, post[k])
    || (exists j :: k < j < |post| && Edge(g, post[j], post[k]))
  }

  ghost predicate AllLeftEarly(g: Graph, work: seq<Frame>, post: seq<nat>) {
    forall k :: 0 <= k < |post| ==> LeftEarly(g, work, post, k)
  }

  ghost predicate SearchInv(g: Graph, visited: seq<bool>, work: seq<Frame>, post: seq<nat>) {
    && MarksEntered(g, visited, work, post)
    && Rooted(g, work)
    && OnceEach(work, post)
    && FinishedCovered(g, work, post)
    && OpenCovered(g, work, post)
    && RootLast(work, post)
    && AllLeftEarly(g, work, post)
  }

  function Unvisited(visited: seq<bool>): nat {
    if visited == [] then 0 else (if visited[0] then 0 else 1) + Unvisited(visited[1..])
  }

  lemma {:induction false} VisitingShrinks(visited: seq<bool>, v: nat)
    requires v < |visited| && !visited[v]
    ensures Unvisited(visited[v := true]) < Unvisited(visited)
  {
    if v == 0 {
      assert visited[0 := true][1..] == visited[1..];
    } else {
      assert visited[v := true][1..] == visited[1..][v - 1 := true];
      VisitingShrinks(visited[1..], v - 1);
    }
  }

  // ----- The stack only loses its top -----

  lemma RootedPrefix(g: Graph, rest: seq<Frame>, top: seq<Frame>)
    requires Rooted(g, rest + top)
    ensures Rooted(g, rest)
  {
    var work := rest + top;
    forall j | 0 <= j < |rest|
      ensures RootedAt(g, rest, j)
    {
      assert RootedAt(g, work, j) && rest[j] == work[j];
      if !(j == 0 == rest[j].block) {
        var i :| 0 <= i < j && work[i].Exit? && Edge(g, work[i].block, work[j].block);
        assert rest[i] == work[i];
      }
    }
  }

  lemma LeftEarlyPopped(g: Graph, rest: seq<Frame>, f: Frame, post: seq<nat>, k: nat)
    requires k < |post| && LeftEarly(g, rest + [f], post, k)
    ensures LeftEarly(g, rest, post, k) || (f.Exit? && Edge(g, f.block, post[k]))
  {
    var work := rest + [f];
    if OpenPredecessor(g, work, |work|, post[k]) {
      var i :| 0 <= i < |work| && work[i].Exit? && Edge(g, work[i].block, post[k]);
      if i < |rest| {
        assert rest[i] == work[i];
      }
    }
  }

  lemma OpenCoveredPopped(g: Graph, rest: seq<Frame>, f: Frame, post: seq<nat>, post': seq<nat>)
    requires OpenCovered(g, rest + [f], post)
    requires forall v: nat :: Entered(rest + [f], post, v) ==> Entered(rest, post', v)
    requires f.Enter? ==> Entered(rest, post', f.block)
    ensures OpenCovered(g, rest, post')
  {
    var work := rest + [f];
    forall i, w | 0 <= i < |rest| && rest[i].Exit? && Edge(g, rest[i].block, w)
      ensures Entered(rest, post', w) || Enter(w) in rest[i + 1..]
    {
      assert work[i] == rest[i];
      assert work[i + 1..] == rest[i + 1..] + [f];
      if !Entered(work, post, w) {
        assert Enter(w) in work[i + 1..];
      }
    }
  }

  // ----- A block is finished -----

  lemma ExitStep(g: Graph, visited: seq<bool>, rest: seq<Frame>, b: nat, post: seq<nat>)
    requires SearchInv(g, visited, rest + [Exit(b)], post)
    ensures SearchInv(g, visited, rest, post + [b])
  {
    var work, post' := rest + [Exit(b)], post + [b];
    forall v: nat
      ensures Entered(work, post, v) <==> Entered(rest, post', v)
    {
    }
    RootedPrefix(g, rest, [Exit(b)]);
    OpenCoveredPopped(g, rest, Exit(b), post, post');
    ExitOnce(rest, b, post);
    ExitCovered(g, rest, b, post);
    ExitLeftEarly(g, rest, b, post);
    ExitRootLast(rest, b, post);
  }

  lemma ExitRootLast(rest: seq<Frame>, b: nat, post: seq<nat>)
    requires RootLast(rest + [Exit(b)], post) && OnceEach(rest + [Exit(b)], post)
    ensures RootLast(rest, post + [b])
  {
    var work := rest + [Exit(b)];
    if |rest| > 0 {
      assert work[0] == rest[0] && work[|rest|] == Exit(b);
    } else {
      assert work[0] == Exit(b);
    }
  }

  lemma ExitOnce(rest: seq<Frame>, b: nat, post: seq<nat>)
    requires OnceEach(rest + [Exit(b)], post)
    ensures OnceEach(rest, post + [b])
  {
    var work := rest + [Exit(b)];
    assert work[|rest|] == Exit(b);
    forall i | 0 <= i < |rest|
      ensures rest[i] == work[i] && rest[i] != Exit(b)
    {
    }
  }

  lemma ExitCovered(g: Graph, rest: seq<Frame>, b: nat, post: seq<nat>)
    requires OpenCovered(g, rest + [Exit(b)], post) && FinishedCovered(g, rest + [Exit(b)], post)
    requires forall v: nat :: Entered(rest + [Exit(b)], post, v) ==> Entered(rest, post + [b], v)
    ensures FinishedCovered(g, rest, post + [b])
  {
    var work := rest + [Exit(b)];
    forall w | Edge(g, b, w)
      ensures Entered(work, post, w)
    {
      assert work[|rest|] == Exit(b) && work[|rest| + 1..] == [];
    }
  }

  lemma ExitLeftEarly(g: Graph, rest: seq<Frame>, b: nat, post: seq<nat>)
    requires AllLeftEarly(g, rest + [Exit(b)], post) && Rooted(g, rest + [Exit(b)])
    ensures AllLeftEarly(g, rest, post + [b])
  {
    var work, post' := rest + [Exit(b)], post + [b];
    forall k | 0 <= k < |post'|
      ensures LeftEarly(g, rest, post', k)
    {
      if k < |post| {
        assert post'[k] == post[k] && post'[|post|] == b;
        LeftEarlyPopped(g, rest, Exit(b), post, k);
        if post[k] != 0 && LeftEarly(g, rest, post, k) && !OpenPredecessor(g, rest, |rest|, post[k]) {
          var j :| k < j < |post| && Edge(g, post[j], post[k]);
          assert post'[j] == post[j];
        }
      } else if b != 0 {
        assert RootedAt(g, work, |rest|) && work[|rest|] == Exit(b);
        var i :| 0 <= i < |rest| && work[i].Exit? && Edge(g, work[i].block, b);
        assert rest[i] == work[i];
      }
    }
  }

  // ----- A waiting block was entered meanwhile -----

  lemma SkipStep(g: Graph, visited: seq<bool>, rest: seq<Frame>, b: nat, post: seq<nat>)
    requires SearchInv(g, visited, rest + [Enter(b)], post)
    requires b < |visited| && visited[b]
    ensures SearchInv(g, visited, rest, post)
  {
    var work := rest + [Enter(b)];
    forall v: nat
      ensures Entered(work, post, v) <==> Entered(rest, post, v)
    {
    }
    assert Entered(work, post, b);
    RootedPrefix(g, rest, [Enter(b)]);
    OpenCoveredPopped(g, rest, Enter(b), post, post);
    assert OnceEach(rest, post) by {
      assert forall i :: 0 <= i < |rest| ==> rest[i] == work[i];
    }
    assert AllLeftEarly(g, rest, post) by {
      forall k | 0 <= k < |post|
        ensures LeftEarly(g, rest, post, k)
      {
        LeftEarlyPopped(g, rest, Enter(b), post, k);
      }
    }
    assert RootLast(rest, post) by {
      assert |rest| > 0 ==> work[0] == rest[0];
      assert work[|rest|] == Enter(b);
    }
  }

  // ----- A block is entered -----

  /** The successors pushed when `b` is entered: those not visited yet, all of them. */
  ghost predicate Pushes(g: Graph, visited: seq<bool>, b: nat, pushed: seq<Frame>) {
    && b < |g| == |visited|
    && (forall f :: f in pushed ==> f.Enter? && f.block in g[b])
    && (forall w :: w in g[b] && w < |g| && !visited[w] ==> Enter(w) in pushed)
  }

  lemma EnterStep(g: Graph, visited: seq<bool>, rest: seq<Frame>, b: nat, post: seq<nat>, pushed: seq<Frame>)
    requires Closed(g) && SearchInv(g, visited, rest + [Enter(b)], post)
    requires b < |visited| && !visited[b] && Pushes(g, visited[b := true], b, pushed)
    ensures SearchInv(g, visited[b := true], rest + [Exit(b)] + pushed, post)
  {
    var work, work' := rest + [Enter(b)], rest + [Exit(b)] + pushed;
    assert !Entered(work, post, b);
    forall v: nat
      ensures Entered(work', post, v) <==> Entered(work, post, v) || v == b
    {
      if Exit(v) in work' {
        assert Exit(v) in rest || v == b || Exit(v) in pushed;
      }
    }
    EnteredReachable(g, rest, b, post);
    RootedEntered(g, rest, b, pushed);
    EnterOnce(rest, b, post, pushed);
    EnterCovered(g, rest, b, post, visited[b := true], pushed);
    assert AllLeftEarly(g, work', post) by {
      EnterLeftEarly(g, rest, b, post, pushed);
    }
    assert RootLast(work', post) by {
      assert |rest| > 0 ==> work[0] == rest[0] == work'[0];
      assert |rest| == 0 ==> work[0] == Enter(b) && work'[0] == Exit(b);
    }
  }

  lemma EnteredReachable(g: Graph, rest: seq<Frame>, b: nat, post: seq<nat>)
    requires Closed(g) && Rooted(g, rest + [Enter(b)])
    requires forall v: nat :: Entered(rest + [Enter(b)], post, v) ==> v < |g| && Reachable(g, v)
    ensures b < |g| && Reachable(g, b)
  {
    var work := rest + [Enter(b)];
    assert RootedAt(g, work, |rest|) && work[|rest|] == Enter(b);
    if |rest| == 0 == b {
      RootIsReachable(g);
    } else {
      var i :| 0 <= i < |rest| && work[i].Exit? && Edge(g, work[i].block, b);
      assert work[i] in work;
      assert Entered(work, post, work[i].block);
      EdgeKeepsReachable(g, work[i].block, b);
    }
  }

  lemma EnterOnce(rest: seq<Frame>, b: nat, post: seq<nat>, pushed: seq<Frame>)
    requires OnceEach(rest + [Enter(b)], post) && !Entered(rest + [Enter(b)], post, b)
    requires forall f :: f in pushed ==> f.Enter?
    ensures OnceEach(rest + [Exit(b)] + pushed, post)
  {
    var work, work' := rest + [Enter(b)], rest + [Exit(b)] + pushed;
    assert forall i :: |rest| < i < |work'| ==> work'[i] == pushed[i - |rest| - 1] && work'[i] in pushed;
    forall i | 0 <= i < |work'| && work'[i].Exit?
      ensures i <= |rest| && (i < |rest| ==> work'[i] == work[i] && work[i] != Exit(b))
    {
      if i < |rest| {
        assert work[i] in work;
      }
    }
    assert forall f :: f in work' ==> f in work || f == Exit(b) || f in pushed;
  }

  lemma EnterCovered(g: Graph, rest: seq<Frame>, b: nat, post: seq<nat>, visited: seq<bool>, pushed: seq<Frame>)
    requires Closed(g) && OpenCovered(g, rest + [Enter(b)], post) && FinishedCovered(g, rest + [Enter(b)], post)
    requires Pushes(g, visited, b, pushed)
    requires forall v: nat ::
               Entered(rest + [Exit(b)] + pushed, post, v) <==> Entered(rest + [Enter(b)], post, v) || v == b
    requires forall v: nat :: v < |g| && visited[v] ==> Entered(rest + [Exit(b)] + pushed, post, v)
    ensures OpenCovered(g, rest + [Exit(b)] + pushed, post) && FinishedCovered(g, rest + [Exit(b)] + pushed, post)
  {
    var n := |rest|;
    var work, work' := rest + [Enter(b)], rest + [Exit(b)] + pushed;
    assert forall i :: n < i < |work'| ==> work'[i] == pushed[i - n - 1] && work'[i] in pushed;
    hide Entered;
    forall i, w | 0 <= i < |work'| && work'[i].Exit? && Edge(g, work'[i].block, w)
      ensures Entered(work', post, w) || Enter(w) in work'[i + 1..]
    {
      if i < n {
        assert work[i] == work'[i];
        assert work[i + 1..] == rest[i + 1..] + [Enter(b)];
        assert work'[i + 1..] == rest[i + 1..] + [Exit(b)] + pushed;
      } else {
        assert work'[n + 1..] == pushed;
      }
    }
  }

  lemma EnterLeftEarly(g: Graph, rest: seq<Frame>, b: nat, post: seq<nat>, pushed: seq<Frame>)
    requires AllLeftEarly(g, rest + [Enter(b)], post)
    ensures AllLeftEarly(g, rest + [Exit(b)] + pushed, post)
  {
    var work, work' := rest + [Enter(b)], rest + [Exit(b)] + pushed;
    forall k | 0 <= k < |post|
      ensures LeftEarly(g, work', post, k)
    {
      assert LeftEarly(g, work, post, k);
      if OpenPredecessor(g, work, |work|, post[k]) {
        var i :| 0 <= i < |work| && work[i].Exit? && Edge(g, work[i].block, post[k]);
        assert work'[i] == work[i];
      }
    }
  }

  lemma RootedEntered(g: Graph, rest: seq<Frame>, b: nat, pushed: seq<Frame>)
    requires Closed(g) && Rooted(g, rest + [Enter(b)]) && b < |g|
    requires forall f :: f in pushed ==> f.Enter? && f.block in g[b]
    ensures Rooted(g, rest + [Exit(b)] + pushed)
  {
    var n, work, work' := |rest|, rest + [Enter(b)], rest + [Exit(b)] + pushed;
    assert work'[n] == Exit(b);
    forall j | 0 <= j < |work'|
      ensures RootedAt(g, work', j)
    {
      if j <= n {
        assert RootedAt(g, work, j) && work[j].block == work'[j].block;
        if !(j == 0 == work[j].block) {
          var i :| 0 <= i < j && work[i].Exit? && Edge(g, work[i].block, work[j].block);
          assert work'[i] == work[i];
        }
      } else {
        assert work'[j] == pushed[j - n - 1];
        assert Edge(g, b, work'[j].block);
      }
    }
  }

  lemma SearchDone(g: Graph, visited: seq<bool>, post: seq<nat>, order: seq<nat>)
    requires Closed(g) && SearchInv(g, visited, [], post)
    requires |order| == |post| && forall k :: 0 <= k < |order| ==> order[k] == post[|post| - 1 - k]
    ensures IsReversePostorder(g, order)
  {
    var s := set v | v in post;
    forall v, w | v in s && v < |g| && w in g[v]
      ensures w in s
    {
      assert Edge(g, v, w);
      assert Entered([], post, w);
    }
    forall v: nat
      ensures v in order <==> v < |g| && Reachable(g, v)
    {
      if v in order {
        assert Entered([], post, v);
      }
      if v < |g| && Reachable(g, v) {
        var p :| PathTo(g, p, v);
        ClosedSetCoversPath(g, s, p);
        var k :| 0 <= k < |post| && post[k] == v;
        assert order[|post| - 1 - k] == v;
      }
    }
    forall i | 0 < i < |order|
      ensures HasEarlierPredecessor(g, order, i)
    {
      var k := |post| - 1 - i;
      assert post[k] != 0;
      assert LeftEarly(g, [], post, k);
      var j :| k < j < |post| && Edge(g, post[j], post[k]);
      assert order[|post| - 1 - j] == post[j];
    }
  }

  // ----- The search -----

  /** Depth-first search with an explicit stack, then the reversed postorder. */
  method Compute(outgoing: Graph) returns (order: seq<nat>)
    requires Closed(outgoing)
    ensures IsReversePostorder(outgoing, order)
  {
    var visited := seq(|outgoing|, _ => false);
    var post: seq<nat> := [];
    var work := [Enter(0)];
    while |work| > 0
      invariant SearchInv(outgoing, visited, work, post)
      decreases Unvisited(visited), |work|
    {
      var frame, rest := work[|work| - 1], work[..|work| - 1];
      assert work == rest + [frame] && RootedAt(outgoing, work, |rest|);
      var block := frame.block;
      if frame.Exit? {
        ExitStep(outgoing, visited, rest, block, post);
        work, post := rest, post + [block];
      } else if visited[block] {
        SkipStep(outgoing, visited, rest, block, post);
        work := rest;
      } else {
        var pushed := PushUnvisited(outgoing, visited[block := true], block);
        EnterStep(outgoing, visited, rest, block, post, pushed);
        VisitingShrinks(visited, block);
        visited := visited[block := true];
        work := rest + [Exit(block)] + pushed;
      }
    }
    order := Reverse(post);
    SearchDone(outgoing, visited, post, order);
  }

  /** The frames for the unvisited successors, pushed from the last to the first. */
  method PushUnvisited(outgoing: Graph, visited: seq<bool>, block: nat) returns (pushed: seq<Frame>)
    requires Closed(outgoing) && block < |outgoing| == |visited|
    ensures Pushes(outgoing, visited, block, pushed)
  {
    pushed := [];
    var successors := outgoing[block];
    var k := |successors|;
    while k > 0
      invariant 0 <= k <= |successors|
      invariant forall f :: f in pushed ==> f.Enter? && f.block in successors
      invariant forall i :: k <= i < |successors| && successors[i] < |visited| && !visited[successors[i]] ==>
                  Enter(successors[i]) in pushed
    {
      k := k - 1;
      assert successors[k] in successors;
      if !visited[successors[k]] {
        pushed := pushed + [Enter(successors[k])];
      }
    }
  }

  method Reverse(s: seq<nat>) returns (r: seq<nat>)
    ensures |r| == |s| && forall k :: 0 <= k < |r| ==> r[k] == s[|s| - 1 - k]
  {
    r := [];
    for i := 0 to |s|
      invariant |r| == i && forall k :: 0 <= k < i ==> r[k] == s[i - 1 - k]
    {
      r := [s[i]] + r;
    }
  }
}
