/** Looking a lint up agrees with searching all scopes, and what a scope
    forbids stays forbidden inside it. */
module LintLookup {
  import opened Wrappers
  import opened LintScopes

  // ----- Nesting -----

  /** Everything collected either encloses the span or ends before it. */
  ghost predicate Ready(scopes: seq<Scope>, parent: Option<nat>, span: Span)
    requires Linked(scopes) && Before(parent, |scopes|)
  {
    && span.start <= span.end
    && forall i :: 0 <= i < |scopes| ==>
         if OnChain(scopes, parent, i) then Within(span, scopes[i].span) else scopes[i].span.end <= span.start
  }

  /** Scopes in preorder: each is inside its ancestors and after all others. */
  ghost predicate Nested(scopes: seq<Scope>) {
    Linked(scopes) && forall j :: 0 <= j < |scopes| ==> Ready(scopes[..j], scopes[j].parent, scopes[j].span)
  }

  /** The tree is properly nested: children lie in their parent, in order. */
  ghost predicate Proper(node: Node)
    decreases node
  {
    && node.span.start <= node.span.end
    && (forall i :: 0 <= i < |node.children| ==> Proper(node.children[i]) && Within(node.children[i].span, node.span))
    && InOrder(node.children)
  }

  ghost predicate InOrder(nodes: seq<Node>) {
    forall i, j :: 0 <= i < j < |nodes| ==> nodes[i].span.end <= nodes[j].span.start
  }

  lemma PairNested(scopes: seq<Scope>, i: nat, j: nat)
    requires Nested(scopes) && i < j < |scopes|
    ensures if OnChain(scopes, scopes[j].parent, i) then Within(scopes[j].span, scopes[i].span)
            else scopes[i].span.end <= scopes[j].span.start
    ensures scopes[i].span.start <= scopes[i].span.end
    ensures scopes[i].span.start <= scopes[j].span.start
  {
    assert Ready(scopes[..j], scopes[j].parent, scopes[j].span);
    assert Ready(scopes[..i], scopes[i].parent, scopes[i].span);
    ChainExtends(scopes[..j], scopes, scopes[j].parent, i);
    assert scopes[..j][i] == scopes[i];
  }

  /** A span that starts later is ready for the scopes of an earlier node too. */
  lemma ReadyLater(scopes: seq<Scope>, more: seq<Scope>, parent: Option<nat>, span: Span)
    requires Linked(scopes) && Linked(more) && scopes <= more && Before(parent, |scopes|)
    requires Ready(scopes, parent, span)
    requires forall j :: |scopes| <= j < |more| ==> more[j].span.end <= span.start
    ensures Ready(more, parent, span)
  {
    forall i | 0 <= i < |more|
      ensures if OnChain(more, parent, i) then Within(span, more[i].span) else more[i].span.end <= span.start
    {
      ChainExtends(scopes, more, parent, i);
      if OnChain(scopes, parent, i) {
        ChainBelow(scopes, parent, i);
      }
    }
  }

  lemma ReadyInside(scopes: seq<Scope>, parent: Option<nat>, outer: Span, inner: Span)
    requires Linked(scopes) && Before(parent, |scopes|) && Ready(scopes, parent, outer)
    requires Within(inner, outer) && inner.start <= inner.end
    ensures Ready(scopes, parent, inner)
  {
  }

  lemma ReadyUnder(scopes: seq<Scope>, scope: Scope, inner: Span)
    requires Linked(scopes) && Before(scope.parent, |scopes|) && Ready(scopes, scope.parent, scope.span)
    requires Within(inner, scope.span) && inner.start <= inner.end
    ensures Linked(scopes + [scope]) && Ready(scopes + [scope], Some(|scopes|), inner)
  {
    var more := scopes + [scope];
    forall i | 0 <= i < |more|
      ensures if OnChain(more, Some(|scopes|), i) then Within(inner, more[i].span) else more[i].span.end <= inner.start
    {
      ChainExtends(scopes, more, scope.parent, i);
    }
  }

  lemma NestedExtends(scopes: seq<Scope>, scope: Scope)
    requires Nested(scopes) && Before(scope.parent, |scopes|) && Ready(scopes, scope.parent, scope.span)
    ensures Nested(scopes + [scope])
  {
    var more := scopes + [scope];
    forall j | 0 <= j < |more|
      ensures Ready(more[..j], more[j].parent, more[j].span)
    {
      assert more[..j] == scopes[..j];
      if j == |scopes| {
        assert scopes[..j] == scopes;
      }
    }
  }

  lemma {:induction false} NodeNests(scopes: seq<Scope>, parent: Option<nat>, node: Node)
    requires Nested(scopes) && Before(parent, |scopes|) && Ready(scopes, parent, node.span) && Proper(node)
    ensures Nested(Collected(scopes, parent, node))
    ensures forall j :: |scopes| <= j < |Collected(scopes, parent, node)| ==>
              Collected(scopes, parent, node)[j].span.end <= node.span.end
    decreases node, 0
  {
    hide AddedAll;
    var settings := AddedAll(scopes, parent, node.attributes);
    if settings == [] {
      forall i | 0 <= i < |node.children|
        ensures Ready(scopes, parent, node.children[i].span)
      {
        assert Proper(node.children[i]);
        ReadyInside(scopes, parent, node.span, node.children[i].span);
      }
      NodesNest(scopes, parent, node.children, node.span.end);
    } else {
      var scope := Scope(node.span, parent, settings);
      NestedExtends(scopes, scope);
      forall i | 0 <= i < |node.children|
        ensures Ready(scopes + [scope], Some(|scopes|), node.children[i].span)
      {
        assert Proper(node.children[i]);
        ReadyUnder(scopes, scope, node.children[i].span);
      }
      NodesNest(scopes + [scope], Some(|scopes|), node.children, node.span.end);
    }
  }

  lemma {:induction false} NodesNest(scopes: seq<Scope>, parent: Option<nat>, nodes: seq<Node>, end: nat)
    requires Nested(scopes) && Before(parent, |scopes|) && InOrder(nodes)
    requires forall i :: 0 <= i < |nodes| ==>
               Ready(scopes, parent, nodes[i].span) && Proper(nodes[i]) && nodes[i].span.end <= end
    ensures Nested(CollectedAll(scopes, parent, nodes))
    ensures forall j :: |scopes| <= j < |CollectedAll(scopes, parent, nodes)| ==>
              CollectedAll(scopes, parent, nodes)[j].span.end <= end
    decreases nodes, 1
  {
    hide Ready, Nested, Proper;
    if nodes != [] {
      NestedIsLinked(scopes);
      var more := Collected(scopes, parent, nodes[0]);
      NodeNests(scopes, parent, nodes[0]);
      forall i | 0 <= i < |nodes[1..]|
        ensures Ready(more, parent, nodes[1..][i].span)
      {
        ReadyLater(scopes, more, parent, nodes[1..][i].span);
      }
      NodesNest(more, parent, nodes[1..], end);
    }
  }

  lemma NestedIsLinked(scopes: seq<Scope>)
    requires Nested(scopes)
    ensures Linked(scopes)
  {
  }

  /** A properly nested program gives properly nested scopes in preorder. */
  lemma CollectionIsNested(program: Node, fileAttributes: seq<Setting>)
    requires Proper(program)
    ensures Nested(AllScopes(program, fileAttributes))
  {
    var settings := AddedAll([], None, fileAttributes);
    var scope := Scope(program.span, None, settings);
    assert Nested([]);
    if settings == [] {
      NodeNests([], None, program);
    } else {
      NestedExtends([], scope);
      assert [] + [scope] == [scope];
      ReadyUnder([], scope, program.span);
      NodeNests([scope], Some(0), program);
    }
  }

  // ----- Lookup -----

  /** The last scope in the list that contains the span. */
  function LastContaining(scopes: seq<Scope>, span: Span): (r: Option<nat>)
    ensures r.Some? ==> r.value < |scopes| && Within(span, scopes[r.value].span)
    ensures forall i :: Height(r) <= i < |scopes| ==> !Within(span, scopes[i].span)
  {
    if scopes == [] then None
    else if Within(span, scopes[|scopes| - 1].span) then Some(|scopes| - 1)
    else LastContaining(scopes[..|scopes| - 1], span)
  }

  /** Searches every scope, the last first, for one that contains the span and
      mentions the code; parent links play no part. */
  function Searched(scopes: seq<Scope>, code: string, span: Span): Option<Control> {
    if scopes == [] then None
    else
      var last := scopes[|scopes| - 1];
      if Within(span, last.span) && LastFor(last.settings, code).Some? then LastFor(last.settings, code)
      else Searched(scopes[..|scopes| - 1], code, span)
  }

  method PartitionPoint(scopes: seq<Scope>, offset: nat) returns (k: nat)
    requires Nested(scopes)
    ensures k <= |scopes|
    ensures forall i :: 0 <= i < k ==> scopes[i].span.start <= offset
    ensures forall i :: k <= i < |scopes| ==> offset < scopes[i].span.start
  {
    hide Nested;
    var low, high := 0, |scopes|;
    while low < high
      invariant 0 <= low <= high <= |scopes|
      invariant forall i :: 0 <= i < low ==> scopes[i].span.start <= offset
      invariant forall i :: high <= i < |scopes| ==> offset < scopes[i].span.start
    {
      var middle := (low + high) / 2;
      StartsAscend(scopes);
      if scopes[middle].span.start <= offset {
        low := middle + 1;
      } else {
        high := middle;
      }
    }
    k := low;
  }

  lemma StartsAscend(scopes: seq<Scope>)
    requires Nested(scopes)
    ensures forall i, j :: 0 <= i < j < |scopes| ==> scopes[i].span.start <= scopes[j].span.start
  {
    hide Nested;
    NestedIsLinked(scopes);
    forall i, j | 0 <= i < j < |scopes|
      ensures scopes[i].span.start <= scopes[j].span.start
    {
      PairNested(scopes, i, j);
    }
  }

  /** The last scope that starts early enough lies in the last that contains
      the span, so climbing from it arrives there. */
  lemma ContainingIsAbove(scopes: seq<Scope>, span: Span, j: nat)
    requires Nested(scopes) && span.start <= span.end && j < |scopes| && scopes[j].span.start <= span.start
    requires forall i :: j < i < |scopes| ==> span.start < scopes[i].span.start
    requires LastContaining(scopes, span).Some?
    ensures OnChain(scopes, Some(j), LastContaining(scopes, span).value)
  {
    var c := LastContaining(scopes, span).value;
    if c < j {
      PairNested(scopes, c, j);
      assert Ready(scopes[..j], scopes[j].parent, scopes[j].span);
      assert !Within(span, scopes[j].span);
    }
  }

  lemma PrefixNests(scopes: seq<Scope>, n: nat)
    requires Nested(scopes) && n <= |scopes|
    ensures Nested(scopes[..n])
  {
    var init := scopes[..n];
    forall j | 0 <= j < |init|
      ensures Ready(init[..j], init[j].parent, init[j].span)
    {
      assert init[..j] == scopes[..j];
    }
  }

  /** Around a scope that contains a nonempty span, the next one is its parent. */
  lemma NextIsParent(scopes: seq<Scope>, span: Span, c: nat)
    requires Nested(scopes) && c < |scopes| && span.start < span.end && Within(span, scopes[c].span)
    ensures LastContaining(scopes[..c], span) == scopes[c].parent
  {
    var init, parent := scopes[..c], scopes[c].parent;
    assert Ready(init, parent, scopes[c].span);
    forall i | Height(parent) <= i < c
      ensures !Within(span, init[i].span)
    {
      if OnChain(init, parent, i) {
        ChainBelow(init, parent, i);
      }
    }
    if parent.Some? {
      assert OnChain(init, parent, parent.value);
      assert Within(span, init[parent.value].span);
    }
  }

  lemma {:induction false} SearchClimbs(scopes: seq<Scope>, code: string, span: Span)
    requires Nested(scopes) && span.start < span.end
    ensures Linked(scopes) && Searched(scopes, code, span) == ChainSetting(scopes, code, LastContaining(scopes, span))
    decreases |scopes|
  {
    hide Nested;
    NestedIsLinked(scopes);
    if scopes != [] {
      var c := |scopes| - 1;
      var init := scopes[..c];
      PrefixNests(scopes, c);
      SearchClimbs(init, code, span);
      if Within(span, scopes[c].span) {
        NextIsParent(scopes, span, c);
        ChainSettingExtends(init, scopes, code, scopes[c].parent);
      } else {
        ChainSettingExtends(init, scopes, code, LastContaining(init, span));
      }
    }
  }

  method Get(scopes: seq<Scope>, code: string, span: Span) returns (r: Option<Control>)
    requires Nested(scopes) && span.start <= span.end
    ensures r == ChainSetting(scopes, code, LastContaining(scopes, span))
    ensures span.start < span.end ==> r == Searched(scopes, code, span)
  {
    hide Nested, LastContaining, Searched;
    NestedIsLinked(scopes);
    ghost var last := LastContaining(scopes, span);
    if span.start < span.end {
      SearchClimbs(scopes, code, span);
    }
    var k := PartitionPoint(scopes, span.start);
    var index: Option<nat> := if k == 0 then None else Some(k - 1);
    if last.Some? {
      ContainingIsAbove(scopes, span, k - 1);
    }
    while index.Some?
      invariant Before(index, |scopes|)
      invariant last.Some? ==> OnChain(scopes, index, last.value)
      decreases Height(index)
    {
      if Within(span, scopes[index.value].span) {
        assert last == index by {
          if last.Some? {
            ChainBelow(scopes, index, last.value);
          }
        }
        r := FindSetting(scopes, code, index);
        return;
      }
      index := scopes[index.value].parent;
    }
    assert last.None?;
    r := None;
  }

  // ----- Empty spans -----

  /** The scope the full search stops at. */
  function SearchedScope(scopes: seq<Scope>, code: string, span: Span): (r: Option<nat>)
    ensures r.Some? ==> r.value < |scopes| && Mentions(scopes[r.value], code, span)
    ensures forall i :: Height(r) <= i < |scopes| ==> !Mentions(scopes[i], code, span)
  {
    if scopes == [] then None
    else if Mentions(scopes[|scopes| - 1], code, span) then Some(|scopes| - 1)
    else SearchedScope(scopes[..|scopes| - 1], code, span)
  }

  predicate Mentions(scope: Scope, code: string, span: Span) {
    Within(span, scope.span) && LastFor(scope.settings, code).Some?
  }

  /** The scope climbing stops at. */
  function ClimbedScope(scopes: seq<Scope>, code: string, index: Option<nat>): (r: Option<nat>)
    requires Linked(scopes) && Before(index, |scopes|)
    ensures r.Some? ==> r.value < |scopes| && OnChain(scopes, index, r.value)
    ensures r.Some? ==> LastFor(scopes[r.value].settings, code).Some?
    ensures ChainSetting(scopes, code, index) == if r.Some? then LastFor(scopes[r.value].settings, code) else None
    decreases Height(index)
  {
    if index.None? then None
    else if LastFor(scopes[index.value].settings, code).Some? then index
    else ClimbedScope(scopes, code, scopes[index.value].parent)
  }

  lemma {:induction false} ClimbedIsNearest(scopes: seq<Scope>, code: string, index: Option<nat>, i: nat)
    requires Linked(scopes) && Before(index, |scopes|) && OnChain(scopes, index, i) && i < |scopes|
    requires LastFor(scopes[i].settings, code).Some?
    ensures ClimbedScope(scopes, code, index).Some? && i <= ClimbedScope(scopes, code, index).value
    decreases Height(index)
  {
    ChainBelow(scopes, index, i);
    if LastFor(scopes[index.value].settings, code).None? {
      ClimbedIsNearest(scopes, code, scopes[index.value].parent, i);
    }
  }

  lemma ChainContains(scopes: seq<Scope>, span: Span, i: nat)
    requires Nested(scopes) && span.start <= span.end
    requires OnChain(scopes, LastContaining(scopes, span), i)
    ensures i < |scopes| && Within(span, scopes[i].span)
  {
    var c := LastContaining(scopes, span).value;
    ChainBelow(scopes, Some(c), i);
    if i < c {
      PairNested(scopes, i, c);
    }
  }

  /** A scope on the way up mentions the code after `k`. */
  ghost predicate Shadowed(scopes: seq<Scope>, code: string, span: Span, k: nat)
    requires Linked(scopes)
  {
    exists m: nat ::
      k < m < |scopes| && OnChain(scopes, LastContaining(scopes, span), m) && Mentions(scopes[m], code, span)
  }

  /** Climbing and the full search stop at the same scope exactly if every scope
      off the way up that contains the span and mentions the code comes before
      one on it that does. */
  lemma SearchAgreesIff(scopes: seq<Scope>, code: string, span: Span)
    requires Nested(scopes) && span.start <= span.end
    ensures var last := LastContaining(scopes, span);
            ClimbedScope(scopes, code, last) == SearchedScope(scopes, code, span) <==>
            forall k: nat :: k < |scopes| && Mentions(scopes[k], code, span) && !OnChain(scopes, last, k) ==>
              Shadowed(scopes, code, span, k)
  {
    hide Nested, LastFor, SearchedScope, LastContaining, ClimbedScope, OnChain;
    NestedIsLinked(scopes);
    FoundOnChain(scopes, code, span);
    var found, last := SearchedScope(scopes, code, span), LastContaining(scopes, span);
    if ClimbedScope(scopes, code, last) == found {
      forall k: nat | k < |scopes| && Mentions(scopes[k], code, span) && !OnChain(scopes, last, k)
        ensures Shadowed(scopes, code, span, k)
      {
        assert k < found.value;
      }
    } else {
      assert Mentions(scopes[found.value], code, span) && !Shadowed(scopes, code, span, found.value);
    }
  }

  lemma FoundOnChain(scopes: seq<Scope>, code: string, span: Span)
    requires Nested(scopes) && span.start <= span.end
    ensures var found, last := SearchedScope(scopes, code, span), LastContaining(scopes, span);
            ClimbedScope(scopes, code, last) == found <==> (found.Some? ==> OnChain(scopes, last, found.value))
  {
    hide Nested, LastFor, SearchedScope, LastContaining, ClimbedScope, OnChain;
    NestedIsLinked(scopes);
    var found, last := SearchedScope(scopes, code, span), LastContaining(scopes, span);
    var climbed := ClimbedScope(scopes, code, last);
    if climbed.Some? {
      ChainContains(scopes, span, climbed.value);
      assert Mentions(scopes[climbed.value], code, span);
    }
    if found.Some? && OnChain(scopes, last, found.value) {
      ClimbedIsNearest(scopes, code, last, found.value);
    }
  }

  /** They can only part for an empty span where one scope ends and another starts. */
  lemma DisagreementIsEmpty(scopes: seq<Scope>, code: string, span: Span)
    requires Nested(scopes) && span.start <= span.end
    requires ClimbedScope(scopes, code, LastContaining(scopes, span)) != SearchedScope(scopes, code, span)
    ensures var found, last := SearchedScope(scopes, code, span), LastContaining(scopes, span);
            && found.Some? && last.Some? && found.value < last.value
            && span.start == span.end == scopes[found.value].span.end == scopes[last.value].span.start
  {
    FoundOnChain(scopes, code, span);
    var found, last := SearchedScope(scopes, code, span), LastContaining(scopes, span);
    assert Mentions(scopes[found.value], code, span);
    PairNested(scopes, found.value, last.value);
  }

  function Adjacent(): seq<Scope> {
    [Scope(Span(0, 1), None, [Setting("a", Forbid)]), Scope(Span(1, 2), None, [Setting("b", Deny)])]
  }

  lemma AdjacentNests()
    ensures Nested(Adjacent())
  {
    var first, second := Adjacent()[0], Adjacent()[1];
    assert Nested([]);
    NestedExtends([], first);
    assert [] + [first] == [first];
    NestedExtends([first], second);
    assert [first] + [second] == Adjacent();
  }

  /** Two adjacent scopes and the empty span between them: the first forbids
      the lint and contains the span, but the lookup climbs from the second. */
  lemma EmptySpanCanDisagree()
    ensures Nested(Adjacent())
    ensures Searched(Adjacent(), "a", Span(1, 1)) == Some(Forbid)
    ensures ChainSetting(Adjacent(), "a", LastContaining(Adjacent(), Span(1, 1))) == None
  {
    hide Nested;
    AdjacentNests();
    NestedIsLinked(Adjacent());
    var scopes, span := Adjacent(), Span(1, 1);
    assert scopes[..1] == [scopes[0]];
    assert Searched([scopes[0]], "a", span) == Some(Forbid);
    assert LastContaining(scopes, span) == Some(1);
  }

  // ----- Forbidding -----

  /** What is in force from above forbids nothing these settings mention, and a
      forbidding setting is the last of its code. */
  ghost predicate Obeys(scopes: seq<Scope>, parent: Option<nat>, settings: seq<Setting>)
    requires Linked(scopes) && Before(parent, |scopes|)
  {
    && (forall code :: ChainSetting(scopes, code, parent) == Some(Forbid) ==> LastFor(settings, code) == None)
    && (forall s :: s in settings && s.control == Forbid ==> LastFor(settings, s.code) == Some(Forbid))
  }

  ghost predicate Obedient(scopes: seq<Scope>) {
    Linked(scopes) && forall j :: 0 <= j < |scopes| ==> Obeys(scopes[..j], scopes[j].parent, scopes[j].settings)
  }

  lemma {:induction false} AddedObeys(scopes: seq<Scope>, parent: Option<nat>, attributes: seq<Setting>)
    requires Linked(scopes) && Before(parent, |scopes|)
    ensures Obeys(scopes, parent, AddedAll(scopes, parent, attributes))
  {
    if attributes != [] {
      var n := |attributes| - 1;
      AddedObeys(scopes, parent, attributes[..n]);
      AddKeeps(scopes, parent, AddedAll(scopes, parent, attributes[..n]), attributes[n]);
    }
  }

  lemma AddKeeps(scopes: seq<Scope>, parent: Option<nat>, settings: seq<Setting>, s: Setting)
    requires Linked(scopes) && Before(parent, |scopes|) && Obeys(scopes, parent, settings)
    ensures Obeys(scopes, parent, Added(scopes, parent, settings, s))
  {
    var more := settings + [s];
    assert more[..|settings|] == settings;
    assert LastFor(more, s.code) == Some(s.control);
    assert forall code :: code != s.code ==> LastFor(more, code) == LastFor(settings, code);
  }

  lemma ObedientExtends(scopes: seq<Scope>, scope: Scope)
    requires Obedient(scopes) && Before(scope.parent, |scopes|) && Obeys(scopes, scope.parent, scope.settings)
    ensures Obedient(scopes + [scope])
  {
    var more := scopes + [scope];
    forall j | 0 <= j < |more|
      ensures Obeys(more[..j], more[j].parent, more[j].settings)
    {
      assert more[..j] == scopes[..j];
      if j == |scopes| {
        assert scopes[..j] == scopes;
      }
    }
  }

  lemma {:induction false} NodeObeys(scopes: seq<Scope>, parent: Option<nat>, node: Node)
    requires Obedient(scopes) && Before(parent, |scopes|)
    ensures Obedient(Collected(scopes, parent, node))
    decreases node, 0
  {
    hide AddedAll;
    var settings := AddedAll(scopes, parent, node.attributes);
    if settings == [] {
      NodesObey(scopes, parent, node.children);
    } else {
      AddedObeys(scopes, parent, node.attributes);
      ObedientExtends(scopes, Scope(node.span, parent, settings));
      NodesObey(scopes + [Scope(node.span, parent, settings)], Some(|scopes|), node.children);
    }
  }

  lemma {:induction false} NodesObey(scopes: seq<Scope>, parent: Option<nat>, nodes: seq<Node>)
    requires Obedient(scopes) && Before(parent, |scopes|)
    ensures Obedient(CollectedAll(scopes, parent, nodes))
    decreases nodes, 1
  {
    if nodes != [] {
      NodeObeys(scopes, parent, nodes[0]);
      NodesObey(Collected(scopes, parent, nodes[0]), parent, nodes[1..]);
    }
  }

  lemma CollectionObeys(program: Node, fileAttributes: seq<Setting>)
    ensures Obedient(AllScopes(program, fileAttributes))
  {
    var settings := AddedAll([], None, fileAttributes);
    assert Obedient([]);
    if settings == [] {
      NodeObeys([], None, program);
    } else {
      AddedObeys([], None, fileAttributes);
      ObedientExtends([], Scope(program.span, None, settings));
      assert [] + [Scope(program.span, None, settings)] == [Scope(program.span, None, settings)];
      NodeObeys([Scope(program.span, None, settings)], Some(0), program);
    }
  }

  /** No scope below a forbidding one mentions the code again. */
  lemma {:induction false} ForbiddenBelow(scopes: seq<Scope>, code: string, index: Option<nat>, i: nat)
    requires Obedient(scopes) && Before(index, |scopes|) && OnChain(scopes, index, i)
    requires i < |scopes| && Setting(code, Forbid) in scopes[i].settings
    ensures ChainSetting(scopes, code, index) == Some(Forbid)
    decreases Height(index)
  {
    var j := index.value;
    assert Obeys(scopes[..j], scopes[j].parent, scopes[j].settings);
    if j != i {
      ForbiddenBelow(scopes, code, scopes[j].parent, i);
      ChainSettingExtends(scopes[..j], scopes, code, scopes[j].parent);
    }
  }

  /** Every scope that contains a nonempty span is on the way up from the last. */
  lemma ContainingAreOnChain(scopes: seq<Scope>, span: Span, i: nat)
    requires Nested(scopes) && span.start < span.end && i < |scopes| && Within(span, scopes[i].span)
    ensures OnChain(scopes, LastContaining(scopes, span), i)
  {
    var c := LastContaining(scopes, span).value;
    if i < c {
      PairNested(scopes, i, c);
    }
  }

  ghost predicate Forbids(scope: Scope, code: string) {
    Setting(code, Forbid) in scope.settings
  }

  lemma {:induction false} LastIsThere(settings: seq<Setting>, code: string)
    requires LastFor(settings, code).Some?
    ensures Setting(code, LastFor(settings, code).value) in settings
  {
    if settings[|settings| - 1].code != code {
      LastIsThere(settings[..|settings| - 1], code);
    }
  }

  /** Forbidding is sticky: a span is looked up as Forbid exactly if a scope on
      the way up forbids the lint, whatever attributes stand between; for a
      nonempty span, exactly if some scope that contains it does. */
  lemma ForbidIsSticky(program: Node, fileAttributes: seq<Setting>, code: string, span: Span)
    requires Proper(program) && span.start <= span.end
    ensures var scopes := AllScopes(program, fileAttributes);
            var last := LastContaining(scopes, span);
            && (ChainSetting(scopes, code, last) == Some(Forbid) <==>
                exists k: nat :: k < |scopes| && OnChain(scopes, last, k) && Forbids(scopes[k], code))
            && (span.start < span.end ==>
                (ChainSetting(scopes, code, last) == Some(Forbid) <==>
                 exists k: nat :: k < |scopes| && Within(span, scopes[k].span) && Forbids(scopes[k], code)))
  {
    hide AllScopes, Nested, Obedient, LastFor, ChainSetting, LastContaining, OnChain;
    var scopes := AllScopes(program, fileAttributes);
    CollectionIsNested(program, fileAttributes);
    CollectionObeys(program, fileAttributes);
    var last := LastContaining(scopes, span);
    var climbed := ClimbedScope(scopes, code, last);
    if climbed.Some? {
      LastIsThere(scopes[climbed.value].settings, code);
      ChainContains(scopes, span, climbed.value);
    }
    forall k: nat | k < |scopes| && Forbids(scopes[k], code)
      ensures OnChain(scopes, last, k) ==> ChainSetting(scopes, code, last) == Some(Forbid)
      ensures span.start < span.end && Within(span, scopes[k].span) ==> OnChain(scopes, last, k)
    {
      if OnChain(scopes, last, k) {
        ForbiddenBelow(scopes, code, last, k);
      }
      if span.start < span.end && Within(span, scopes[k].span) {
        ContainingAreOnChain(scopes, span, k);
      }
    }
  }
}
