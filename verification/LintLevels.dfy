/** The level a lint has at a span, read off the tree, and that collecting and
    looking up finds it. */
module LintLevels {
  import opened Wrappers
  import opened LintScopes
  import opened LintLookup

  // ----- The level, on the tree -----

  /** The attributes of the nodes that contain the span, the outermost first. */
  function Enclosing(node: Node, span: Span): seq<Setting>
    decreases node
  {
    if Within(span, node.span) then node.attributes + EnclosingAmong(node.children, span) else []
  }

  function EnclosingAmong(nodes: seq<Node>, span: Span): seq<Setting>
    decreases nodes
  {
    if nodes == [] then []
    else if Within(span, nodes[0].span) then Enclosing(nodes[0], span)
    else EnclosingAmong(nodes[1..], span)
  }

  /** `control` is what the last attribute for the code says. */
  ghost predicate SaysLast(attributes: seq<Setting>, code: string, control: Control) {
    exists k :: 0 <= k < |attributes| && LastAt(attributes, code, control, k)
  }

  ghost predicate LastAt(attributes: seq<Setting>, code: string, control: Control, k: nat)
    requires k < |attributes|
  {
    attributes[k] == Setting(code, control) && forall j :: k < j < |attributes| ==> attributes[j].code != code
  }

  ghost predicate Silent(attributes: seq<Setting>, code: string) {
    forall k :: 0 <= k < |attributes| ==> attributes[k].code != code
  }

  /** Forbid if any attribute in force forbids the code, otherwise what the last
      one says, and nothing if there is none. */
  ghost predicate HasLevel(attributes: seq<Setting>, code: string, level: Option<Control>) {
    if Setting(code, Forbid) in attributes then level == Some(Forbid)
    else match level
      case Some(control) => SaysLast(attributes, code, control)
      case None => Silent(attributes, code)
  }

  /** What is in force at a span: the file's attributes and those of the nodes
      around it. */
  function InForce(program: Node, fileAttributes: seq<Setting>, span: Span): seq<Setting> {
    if Within(span, program.span) then fileAttributes + Enclosing(program, span) else []
  }

  // ----- Levels grow with attributes -----

  lemma LevelAppends(attributes: seq<Setting>, s: Setting, code: string, level: Option<Control>)
    requires HasLevel(attributes, code, level)
    ensures s.code != code || level == Some(Forbid) ==> HasLevel(attributes + [s], code, level)
    ensures s.code == code && level != Some(Forbid) ==> HasLevel(attributes + [s], code, Some(s.control))
  {
    var more := attributes + [s];
    assert forall k :: 0 <= k < |attributes| ==> more[k] == attributes[k];
    if level == Some(Forbid) {
      assert Setting(code, Forbid) in attributes;
      assert Setting(code, Forbid) in more;
    } else if s.code == code {
      assert more[|attributes|] == Setting(code, s.control);
      assert LastAt(more, code, s.control, |attributes|);
    } else if level.Some? {
      var k :| 0 <= k < |attributes| && LastAt(attributes, code, level.value, k);
      assert LastAt(more, code, level.value, k);
    }
  }

  /** The level inside a scope with these settings under that parent. */
  function Nearest(scopes: seq<Scope>, parent: Option<nat>, settings: seq<Setting>, code: string): Option<Control>
    requires Linked(scopes) && Before(parent, |scopes|)
  {
    var own := LastFor(settings, code);
    if own.Some? then own else ChainSetting(scopes, code, parent)
  }

  lemma LastForAppends(settings: seq<Setting>, s: Setting, code: string)
    ensures LastFor(settings + [s], code) == if s.code == code then Some(s.control) else LastFor(settings, code)
  {
    assert (settings + [s])[..|settings|] == settings;
  }

  /** Collecting the attributes of a node carries the level on. */
  lemma {:induction false} AddingLevels(
    scopes: seq<Scope>, parent: Option<nat>, outer: seq<Setting>, attributes: seq<Setting>, code: string)
    requires Linked(scopes) && Before(parent, |scopes|) && HasLevel(outer, code, ChainSetting(scopes, code, parent))
    ensures HasLevel(outer + attributes, code, Nearest(scopes, parent, AddedAll(scopes, parent, attributes), code))
  {
    hide HasLevel, ChainSetting, LastFor;
    if attributes == [] {
      assert outer + attributes == outer;
      NothingSet(code);
    } else {
      var n := |attributes| - 1;
      var init, s := attributes[..n], attributes[n];
      AddingLevels(scopes, parent, outer, init, code);
      var settings := AddedAll(scopes, parent, init);
      LevelAppends(outer + init, s, code, Nearest(scopes, parent, settings, code));
      LastForAppends(settings, s, code);
      assert outer + init + [s] == outer + attributes;
    }
  }

  lemma NothingSet(code: string)
    ensures LastFor([], code) == None
  {
  }

  // ----- Where the last containing scope is -----

  lemma {:induction false} ScopesStayWithin(scopes: seq<Scope>, parent: Option<nat>, node: Node, j: nat)
    requires Linked(scopes) && Before(parent, |scopes|) && Proper(node)
    requires |scopes| <= j < |Collected(scopes, parent, node)|
    ensures Within(Collected(scopes, parent, node)[j].span, node.span)
    decreases node, 0
  {
    hide AddedAll;
    var settings := AddedAll(scopes, parent, node.attributes);
    if settings == [] {
      AllScopesStayWithin(scopes, parent, node.children, node.span, j);
    } else {
      var more := scopes + [Scope(node.span, parent, settings)];
      if j > |scopes| {
        AllScopesStayWithin(more, Some(|scopes|), node.children, node.span, j);
      }
    }
  }

  lemma {:induction false} AllScopesStayWithin(
    scopes: seq<Scope>, parent: Option<nat>, nodes: seq<Node>, span: Span, j: nat)
    requires Linked(scopes) && Before(parent, |scopes|)
    requires forall i :: 0 <= i < |nodes| ==> Proper(nodes[i]) && Within(nodes[i].span, span)
    requires |scopes| <= j < |CollectedAll(scopes, parent, nodes)|
    ensures Within(CollectedAll(scopes, parent, nodes)[j].span, span)
    decreases nodes, 1
  {
    if nodes != [] {
      var more := Collected(scopes, parent, nodes[0]);
      if j < |more| {
        ScopesStayWithin(scopes, parent, nodes[0], j);
      } else {
        AllScopesStayWithin(more, parent, nodes[1..], span, j);
      }
    }
  }

  lemma LastContainingIs(scopes: seq<Scope>, span: Span, last: Option<nat>)
    requires last.Some? ==> last.value < |scopes| && Within(span, scopes[last.value].span)
    requires forall i :: Height(last) <= i < |scopes| ==> !Within(span, scopes[i].span)
    ensures LastContaining(scopes, span) == last
  {
    hide LastContaining;
  }

  /** Scopes added that do not contain the span change nothing for it. */
  lemma LookupExtends(scopes: seq<Scope>, more: seq<Scope>, code: string, span: Span)
    requires Linked(scopes) && Linked(more) && scopes <= more
    requires forall i :: |scopes| <= i < |more| ==> !Within(span, more[i].span)
    ensures LastContaining(more, span) == LastContaining(scopes, span)
    ensures ChainSetting(more, code, LastContaining(more, span)) ==
            ChainSetting(scopes, code, LastContaining(scopes, span))
  {
    hide LastContaining;
    LastContainingIs(more, span, LastContaining(scopes, span));
    ChainSettingExtends(scopes, more, code, LastContaining(scopes, span));
  }

  lemma ParentIsLast(scopes: seq<Scope>, parent: Option<nat>, outer: Span, span: Span)
    requires Linked(scopes) && Before(parent, |scopes|) && Ready(scopes, parent, outer)
    requires Within(span, outer) && span.start < span.end
    ensures LastContaining(scopes, span) == parent
  {
    hide LastContaining;
    forall i | Height(parent) <= i < |scopes|
      ensures !Within(span, scopes[i].span)
    {
      if OnChain(scopes, parent, i) {
        ChainBelow(scopes, parent, i);
      }
    }
    if parent.Some? {
      assert OnChain(scopes, parent, parent.value);
    }
    LastContainingIs(scopes, span, parent);
  }

  // ----- Lookup over the tree -----

  ghost predicate FoundLevel(scopes: seq<Scope>, code: string, span: Span, attributes: seq<Setting>)
    requires Linked(scopes)
  {
    HasLevel(attributes, code, ChainSetting(scopes, code, LastContaining(scopes, span)))
  }

  lemma {:induction false} NodeLevel(
    scopes: seq<Scope>, parent: Option<nat>, node: Node, outer: seq<Setting>, code: string, span: Span)
    requires Nested(scopes) && Before(parent, |scopes|) && Ready(scopes, parent, node.span) && Proper(node)
    requires HasLevel(outer, code, ChainSetting(scopes, code, parent))
    requires span.start < span.end && Within(span, node.span)
    ensures FoundLevel(Collected(scopes, parent, node), code, span, outer + Enclosing(node, span))
    decreases node, 0
  {
    hide AddedAll, HasLevel, FoundLevel;
    AddingLevels(scopes, parent, outer, node.attributes, code);
    var settings := AddedAll(scopes, parent, node.attributes);
    assert outer + (node.attributes + EnclosingAmong(node.children, span))
        == (outer + node.attributes) + EnclosingAmong(node.children, span);
    forall i | 0 <= i < |node.children|
      ensures Ready(scopes, parent, node.children[i].span)
    {
      assert Proper(node.children[i]);
      ReadyInside(scopes, parent, node.span, node.children[i].span);
    }
    if settings == [] {
      ParentIsLast(scopes, parent, node.span, span);
      NodesLevel(scopes, parent, node.children, outer + node.attributes, code, span);
    } else {
      var scope := Scope(node.span, parent, settings);
      var more := scopes + [scope];
      NestedExtends(scopes, scope);
      forall i | 0 <= i < |node.children|
        ensures Ready(more, Some(|scopes|), node.children[i].span)
      {
        assert Proper(node.children[i]);
        ReadyUnder(scopes, scope, node.children[i].span);
      }
      ReadyUnder(scopes, scope, span);
      ParentIsLast(more, Some(|scopes|), span, span);
      ChainSettingExtends(scopes, more, code, parent);
      NodesLevel(more, Some(|scopes|), node.children, outer + node.attributes, code, span);
    }
  }

  lemma {:induction false} NodesLevel(
    scopes: seq<Scope>, parent: Option<nat>, nodes: seq<Node>, outer: seq<Setting>, code: string, span: Span)
    requires Nested(scopes) && Before(parent, |scopes|) && InOrder(nodes)
    requires forall i :: 0 <= i < |nodes| ==> Ready(scopes, parent, nodes[i].span) && Proper(nodes[i])
    requires HasLevel(outer, code, ChainSetting(scopes, code, parent))
    requires span.start < span.end && LastContaining(scopes, span) == parent
    ensures FoundLevel(CollectedAll(scopes, parent, nodes), code, span, outer + EnclosingAmong(nodes, span))
    decreases nodes, 1
  {
    hide HasLevel, Ready, Proper, LastContaining, ChainSetting;
    NestedIsLinked(scopes);
    if nodes == [] {
      assert outer + [] == outer;
    } else {
      var node, rest := nodes[0], nodes[1..];
      var more := Collected(scopes, parent, node);
      NodeNests(scopes, parent, node);
      NestedIsLinked(more);
      forall i | 0 <= i < |rest|
        ensures Ready(more, parent, rest[i].span)
      {
        ReadyLater(scopes, more, parent, rest[i].span);
      }
      ChainSettingExtends(scopes, more, code, parent);
      if Within(span, node.span) {
        NodeLevel(scopes, parent, node, outer, code, span);
        var all := CollectedAll(more, parent, rest);
        forall j | |more| <= j < |all|
          ensures !Within(span, all[j].span)
        {
          LaterMisses(more, parent, rest, span, j);
        }
        LookupExtends(more, all, code, span);
      } else {
        forall j | |scopes| <= j < |more|
          ensures !Within(span, more[j].span)
        {
          ScopesStayWithin(scopes, parent, node, j);
        }
        LookupExtends(scopes, more, code, span);
        NodesLevel(more, parent, rest, outer, code, span);
      }
    }
  }

  /** Nodes that start at or after the end of the span give no scope around it. */
  lemma LaterMisses(scopes: seq<Scope>, parent: Option<nat>, nodes: seq<Node>, span: Span, j: nat)
    requires Linked(scopes) && Before(parent, |scopes|) && span.start < span.end && InOrder(nodes)
    requires forall i :: 0 <= i < |nodes| ==> Proper(nodes[i]) && span.end <= nodes[i].span.start
    requires |scopes| <= j < |CollectedAll(scopes, parent, nodes)|
    ensures !Within(span, CollectedAll(scopes, parent, nodes)[j].span)
  {
    if nodes != [] {
      var around := Span(nodes[0].span.start, nodes[|nodes| - 1].span.end);
      forall i | 0 <= i < |nodes|
        ensures Within(nodes[i].span, around)
      {
        assert Proper(nodes[i]) && Proper(nodes[0]) && Proper(nodes[|nodes| - 1]);
      }
      AllScopesStayWithin(scopes, parent, nodes, around, j);
    }
  }

  /** The level found for a nonempty span is the one the program gives it. */
  lemma LookupIsLevel(program: Node, fileAttributes: seq<Setting>, code: string, span: Span)
    requires Proper(program) && span.start < span.end
    ensures FoundLevel(AllScopes(program, fileAttributes), code, span, InForce(program, fileAttributes, span))
  {
    hide LastContaining, AddedAll, Collected;
    AddingLevels([], None, [], fileAttributes, code);
    var settings := AddedAll([], None, fileAttributes);
    var scope := Scope(program.span, None, settings);
    var scopes, parent := if settings == [] then [] else [scope], if settings == [] then None else Some(0);
    RootReady(program, scope);
    assert [] + fileAttributes == fileAttributes;
    if Within(span, program.span) {
      NodeLevel(scopes, parent, program, fileAttributes, code, span);
    } else {
      var all := Collected(scopes, parent, program);
      forall j | 0 <= j < |all|
        ensures !Within(span, all[j].span)
      {
        if j >= |scopes| {
          ScopesStayWithin(scopes, parent, program, j);
        }
      }
      LastContainingIs(all, span, None);
    }
  }

  lemma RootReady(program: Node, scope: Scope)
    requires Proper(program) && scope.span == program.span && scope.parent == None
    ensures Nested([]) && Ready([], None, program.span)
    ensures Nested([scope]) && Ready([scope], Some(0), program.span)
  {
    NestedExtends([], scope);
    ReadyUnder([], scope, program.span);
    assert [] + [scope] == [scope];
  }

  /** Collects the scopes of a program and looks one span up. */
  method LevelAt(program: Node, fileAttributes: seq<Setting>, code: string, span: Span) returns (r: Option<Control>)
    requires Proper(program) && span.start <= span.end
    ensures r == ChainSetting(AllScopes(program, fileAttributes), code,
                              LastContaining(AllScopes(program, fileAttributes), span))
    ensures span.start < span.end ==> HasLevel(InForce(program, fileAttributes, span), code, r)
  {
    var scopes := Collect(program, fileAttributes);
    CollectionIsNested(program, fileAttributes);
    if span.start < span.end {
      LookupIsLevel(program, fileAttributes, code, span);
    }
    r := Get(scopes, code, span);
  }
}
