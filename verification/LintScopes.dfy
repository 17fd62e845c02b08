/** Lint attributes by scope: the scopes of a tree are listed in preorder with
    parent links, and a span is looked up by binary search and climbing. */
module LintScopes {
  import opened Wrappers

  datatype Control = Allow | Warn | Deny | Forbid

  datatype Setting = Setting(code: string, control: Control)

  datatype Span = Span(start: nat, end: nat)

  datatype Scope = Scope(span: Span, parent: Option<nat>, settings: seq<Setting>)

  /** A syntax node with the lint attributes written on it. */
  datatype Node = Node(span: Span, attributes: seq<Setting>, children: seq<Node>)

  predicate Within(inner: Span, outer: Span) {
    outer.start <= inner.start && inner.end <= outer.end
  }

  /** The last setting for the code. */
  function LastFor(settings: seq<Setting>, code: string): Option<Control> {
    if settings == [] then None
    else if settings[|settings| - 1].code == code then Some(settings[|settings| - 1].control)
    else LastFor(settings[..|settings| - 1], code)
  }

  // ----- Parent chains -----

  ghost predicate Before(index: Option<nat>, n: nat) {
    index.Some? ==> index.value < n
  }

  predicate Linked(scopes: seq<Scope>) {
    forall j :: 0 <= j < |scopes| ==> scopes[j].parent.Some? ==> scopes[j].parent.value < j
  }

  function Height(index: Option<nat>): nat {
    if index.Some? then index.value + 1 else 0
  }

  /** `i` is met on the way from `index` to the top. */
  ghost predicate OnChain(scopes: seq<Scope>, index: Option<nat>, i: nat)
    requires Linked(scopes) && Before(index, |scopes|)
    decreases Height(index)
  {
    index.Some? && (index.value == i || OnChain(scopes, scopes[index.value].parent, i))
  }

  /** The setting of the nearest scope up the chain that mentions the code. */
  function ChainSetting(scopes: seq<Scope>, code: string, index: Option<nat>): Option<Control>
    requires Linked(scopes) && Before(index, |scopes|)
    decreases Height(index)
  {
    if index.None? then None
    else
      var found := LastFor(scopes[index.value].settings, code);
      if found.Some? then found else ChainSetting(scopes, code, scopes[index.value].parent)
  }

  lemma {:induction false} ChainBelow(scopes: seq<Scope>, index: Option<nat>, i: nat)
    requires Linked(scopes) && Before(index, |scopes|) && OnChain(scopes, index, i)
    ensures i <= index.value
    decreases Height(index)
  {
    if index.value != i {
      ChainBelow(scopes, scopes[index.value].parent, i);
    }
  }

  lemma {:induction false} ChainExtends(scopes: seq<Scope>, more: seq<Scope>, index: Option<nat>, i: nat)
    requires Linked(scopes) && Linked(more) && scopes <= more && Before(index, |scopes|)
    ensures OnChain(more, index, i) == OnChain(scopes, index, i)
    decreases Height(index)
  {
    if index.Some? {
      ChainExtends(scopes, more, scopes[index.value].parent, i);
    }
  }

  lemma {:induction false} ChainSettingExtends(scopes: seq<Scope>, more: seq<Scope>, code: string, index: Option<nat>)
    requires Linked(scopes) && Linked(more) && scopes <= more && Before(index, |scopes|)
    ensures ChainSetting(more, code, index) == ChainSetting(scopes, code, index)
    decreases Height(index)
  {
    if index.Some? {
      ChainSettingExtends(scopes, more, code, scopes[index.value].parent);
    }
  }

  // ----- Collection -----

  /** A forbidden code takes no further setting. */
  function Added(scopes: seq<Scope>, parent: Option<nat>, settings: seq<Setting>, s: Setting): seq<Setting>
    requires Linked(scopes) && Before(parent, |scopes|)
  {
    var own := LastFor(settings, s.code);
    var previous := if own.Some? then own else ChainSetting(scopes, s.code, parent);
    if previous == Some(Forbid) then settings else settings + [s]
  }

  function AddedAll(scopes: seq<Scope>, parent: Option<nat>, attributes: seq<Setting>): seq<Setting>
    requires Linked(scopes) && Before(parent, |scopes|)
  {
    if attributes == [] then []
    else
      var n := |attributes| - 1;
      Added(scopes, parent, AddedAll(scopes, parent, attributes[..n]), attributes[n])
  }

  /** The scopes after a node and all below it, in preorder. */
  function Collected(scopes: seq<Scope>, parent: Option<nat>, node: Node): (r: seq<Scope>)
    requires Linked(scopes) && Before(parent, |scopes|)
    ensures Linked(r) && scopes <= r
    decreases node
  {
    var settings := AddedAll(scopes, parent, node.attributes);
    if settings == [] then CollectedAll(scopes, parent, node.children)
    else CollectedAll(scopes + [Scope(node.span, parent, settings)], Some(|scopes|), node.children)
  }

  function CollectedAll(scopes: seq<Scope>, parent: Option<nat>, nodes: seq<Node>): (r: seq<Scope>)
    requires Linked(scopes) && Before(parent, |scopes|)
    ensures Linked(r) && scopes <= r
    decreases nodes
  {
    if nodes == [] then scopes
    else CollectedAll(Collected(scopes, parent, nodes[0]), parent, nodes[1..])
  }

  /** File attributes make a scope of the whole program, above all others. */
  function AllScopes(program: Node, fileAttributes: seq<Setting>): (r: seq<Scope>)
    ensures Linked(r)
  {
    var settings := AddedAll([], None, fileAttributes);
    if settings == [] then Collected([], None, program)
    else Collected([Scope(program.span, None, settings)], Some(0), program)
  }

  // ----- Collection with an explicit stack -----

  datatype Todo = Enter(node: Node) | ExitScope(parent: Option<nat>)

  function Pushed(rest: seq<Todo>, nodes: seq<Node>): seq<Todo> {
    if nodes == [] then rest else Pushed(rest, nodes[1..]) + [Enter(nodes[0])]
  }

  ghost predicate Exits(stack: seq<Todo>, n: nat) {
    forall i :: 0 <= i < |stack| && stack[i].ExitScope? ==> Before(stack[i].parent, n)
  }

  /** The scopes once everything on the stack is done. */
  ghost function Finished(scopes: seq<Scope>, parent: Option<nat>, stack: seq<Todo>): seq<Scope>
    requires Linked(scopes) && Before(parent, |scopes|) && Exits(stack, |scopes|)
    decreases |stack|
  {
    if stack == [] then scopes
    else
      var rest := stack[..|stack| - 1];
      match stack[|stack| - 1]
      case Enter(node) => Finished(Collected(scopes, parent, node), parent, rest)
      case ExitScope(previous) => Finished(scopes, previous, rest)
  }

  lemma {:induction false} PushedExits(rest: seq<Todo>, nodes: seq<Node>, n: nat)
    requires Exits(rest, n)
    ensures Exits(Pushed(rest, nodes), n)
  {
    if nodes != [] {
      PushedExits(rest, nodes[1..], n);
    }
  }

  lemma {:induction false} FinishPushed(scopes: seq<Scope>, parent: Option<nat>, rest: seq<Todo>, nodes: seq<Node>)
    requires Linked(scopes) && Before(parent, |scopes|) && Exits(rest, |scopes|)
    ensures Exits(Pushed(rest, nodes), |scopes|)
    ensures Finished(scopes, parent, Pushed(rest, nodes)) == Finished(CollectedAll(scopes, parent, nodes), parent, rest)
    decreases |nodes|
  {
    PushedExits(rest, nodes, |scopes|);
    if nodes != [] {
      var below := Pushed(rest, nodes[1..]);
      assert Pushed(rest, nodes)[..|Pushed(rest, nodes)| - 1] == below;
      FinishPushed(Collected(scopes, parent, nodes[0]), parent, rest, nodes[1..]);
    }
  }

  function Count(node: Node): (n: nat)
    ensures n > 0
    decreases node
  {
    1 + CountAll(node.children)
  }

  function CountAll(nodes: seq<Node>): nat
    decreases nodes
  {
    if nodes == [] then 0 else Count(nodes[0]) + CountAll(nodes[1..])
  }

  /** What is left to do; an exit is less than any node. */
  function Left(stack: seq<Todo>): nat {
    if stack == [] then 0
    else
      Left(stack[..|stack| - 1]) +
      match stack[|stack| - 1]
      case Enter(node) => 2 * Count(node)
      case ExitScope(_) => 1
  }

  lemma {:induction false} LeftPushed(rest: seq<Todo>, nodes: seq<Node>)
    ensures Left(Pushed(rest, nodes)) == Left(rest) + 2 * CountAll(nodes)
  {
    if nodes != [] {
      LeftPushed(rest, nodes[1..]);
      var all := Pushed(rest, nodes);
      assert all[..|all| - 1] == Pushed(rest, nodes[1..]);
    }
  }

  lemma LeftTop(rest: seq<Todo>, top: Todo)
    ensures Left(rest + [top]) == Left(rest) + if top.Enter? then 2 * Count(top.node) else 1
  {
    assert (rest + [top])[..|rest|] == rest;
  }

  /** Climbs the parent links to the nearest scope that mentions the code. */
  method FindSetting(scopes: seq<Scope>, code: string, start: Option<nat>) returns (r: Option<Control>)
    requires Linked(scopes) && Before(start, |scopes|)
    ensures r == ChainSetting(scopes, code, start)
  {
    var index := start;
    while index.Some?
      invariant Before(index, |scopes|)
      invariant ChainSetting(scopes, code, index) == ChainSetting(scopes, code, start)
      decreases Height(index)
    {
      var found := LastFor(scopes[index.value].settings, code);
      if found.Some? {
        return found;
      }
      index := scopes[index.value].parent;
    }
    return None;
  }

  method CollectAttribute(scopes: seq<Scope>, s: Setting, parent: Option<nat>, settings: seq<Setting>)
    returns (r: seq<Setting>)
    requires Linked(scopes) && Before(parent, |scopes|)
    ensures r == Added(scopes, parent, settings, s)
  {
    var previous := LastFor(settings, s.code);
    if previous.None? {
      previous := FindSetting(scopes, s.code, parent);
    }
    if previous == Some(Forbid) {
      return settings;
    }
    return settings + [s];
  }

  method CollectAttributes(scopes: seq<Scope>, attributes: seq<Setting>, parent: Option<nat>)
    returns (settings: seq<Setting>)
    requires Linked(scopes) && Before(parent, |scopes|)
    ensures settings == AddedAll(scopes, parent, attributes)
  {
    settings := [];
    for k := 0 to |attributes|
      invariant settings == AddedAll(scopes, parent, attributes[..k])
    {
      assert attributes[..k + 1][..k] == attributes[..k];
      settings := CollectAttribute(scopes, attributes[k], parent, settings);
    }
    assert attributes[..|attributes|] == attributes;
  }

  /** The explicit stack visits the scopes in the order the recursion does. */
  method Collect(program: Node, fileAttributes: seq<Setting>) returns (scopes: seq<Scope>)
    ensures scopes == AllScopes(program, fileAttributes)
  {
    scopes := [];
    var parent: Option<nat> := None;
    var settings := CollectAttributes(scopes, fileAttributes, None);
    if settings != [] {
      scopes, parent := [Scope(program.span, None, settings)], Some(0);
    }
    var stack := [Enter(program)];
    LeftTop([], Enter(program));
    while stack != []
      invariant Linked(scopes) && Before(parent, |scopes|) && Exits(stack, |scopes|)
      invariant Finished(scopes, parent, stack) == AllScopes(program, fileAttributes)
      decreases Left(stack)
    {
      var rest, top := stack[..|stack| - 1], stack[|stack| - 1];
      assert stack == rest + [top];
      LeftTop(rest, top);
      match top {
        case ExitScope(previous) => stack, parent := rest, previous;
        case Enter(node) =>
          scopes, parent, stack := EnterNode(scopes, parent, rest, node);
      }
    }
  }

  method EnterNode(scopes: seq<Scope>, parent: Option<nat>, rest: seq<Todo>, node: Node)
    returns (scopes': seq<Scope>, parent': Option<nat>, stack: seq<Todo>)
    requires Linked(scopes) && Before(parent, |scopes|) && Exits(rest, |scopes|)
    ensures Linked(scopes') && Before(parent', |scopes'|) && Exits(stack, |scopes'|)
    ensures Finished(scopes', parent', stack) == Finished(Collected(scopes, parent, node), parent, rest)
    ensures Left(stack) < Left(rest) + 2 * Count(node)
  {
    hide Left;
    scopes', parent', stack := scopes, parent, rest;
    var settings := CollectAttributes(scopes, node.attributes, parent);
    if settings != [] {
      stack := rest + [ExitScope(parent)];
      LeftTop(rest, ExitScope(parent));
      scopes', parent' := scopes + [Scope(node.span, parent, settings)], Some(|scopes|);
      ghost var all := CollectedAll(scopes', parent', node.children);
      assert stack[..|stack| - 1] == rest;
      assert Finished(all, parent', stack) == Finished(all, parent, rest);
    }
    FinishPushed(scopes', parent', stack, node.children);
    LeftPushed(stack, node.children);
    stack := Pushed(stack, node.children);
  }
}
