/** What a run of the print machine writes. */
module PrintedLayout {
  import opened Wrappers
  import opened Documents
  import opened Layout
  import opened PrintMachine

  // ----- What a run writes -----

  ghost predicate CommandResolves(c: Command, items: seq<Item>) {
    match c
    case Print(indentation, mode, d) => Resolves(d, mode, indentation, items)
    case BlankLineIfMultiline(indentation, line) => exists crossed :: items == Ended(line, crossed, indentation)
  }

  /** The commands resolve, from the top of the stack down, to the items. */
  ghost predicate StackResolves(commands: seq<Command>, items: seq<Item>) {
    if commands == [] then items == []
    else
      exists first, rest ::
        && CommandResolves(commands[|commands| - 1], first)
        && StackResolves(commands[..|commands| - 1], rest)
        && items == first + rest
  }

  lemma EmptyStack()
    ensures StackResolves([], [])
  {
  }

  lemma StackPushed(rest: seq<Command>, top: Command, first: seq<Item>, items: seq<Item>)
    requires CommandResolves(top, first) && StackResolves(rest, items)
    ensures StackResolves(rest + [top], first + items)
  {
    var all := rest + [top];
    assert all[..|all| - 1] == rest && all[|all| - 1] == top;
  }

  lemma StackPopped(rest: seq<Command>, top: Command, items: seq<Item>) returns (first: seq<Item>, more: seq<Item>)
    requires StackResolves(rest + [top], items)
    ensures CommandResolves(top, first) && StackResolves(rest, more) && items == first + more
  {
    var all := rest + [top];
    assert all[..|all| - 1] == rest && all[|all| - 1] == top;
    first, more :| CommandResolves(top, first) && StackResolves(rest, more) && items == first + more;
  }

  /** A pushed list resolves in its own order, before what lies below it. */
  lemma {:induction false} PushedResolves(
    rest: seq<Command>, indentation: Indentation, mode: Mode, ds: seq<Document>, items: seq<Item>)
    returns (first: seq<Item>, more: seq<Item>)
    requires StackResolves(Pushed(rest, indentation, mode, ds), items)
    ensures ResolvesAll(ds, mode, indentation, first) && StackResolves(rest, more) && items == first + more
    decreases |ds|
  {
    hide StackResolves, Resolves;
    if ds == [] {
      first, more := [], items;
    } else {
      var top, below := StackPopped(Pushed(rest, indentation, mode, ds[1..]), Print(indentation, mode, ds[0]), items);
      var tail;
      tail, more := PushedResolves(rest, indentation, mode, ds[1..], below);
      first := top + tail;
      assert top + (tail + more) == first + more;
    }
  }

  /** Suffixes resolve in the order they came up. */
  ghost predicate QueueResolves(commands: seq<Command>, items: seq<Item>) {
    StackResolves(Reversed(commands), items)
  }

  lemma {:induction false} ReversedResolves(rest: seq<Command>, commands: seq<Command>, items: seq<Item>)
    returns (first: seq<Item>, more: seq<Item>)
    requires StackResolves(rest + Reversed(commands), items)
    ensures QueueResolves(commands, first) && StackResolves(rest, more) && items == first + more
    decreases |commands|
  {
    hide StackResolves, CommandResolves;
    if commands == [] {
      assert rest + [] == rest;
      EmptyStack();
      first, more := [], items;
    } else {
      var below, top := Reversed(commands[1..]), commands[0];
      assert Reversed(commands) == below + [top];
      hide Reversed;
      assert rest + (below + [top]) == (rest + below) + [top];
      var own, middle := StackPopped(rest + below, top, items);
      var tail;
      tail, more := ReversedResolves(rest, commands[1..], middle);
      StackPushed(below, top, own, tail);
      first := own + tail;
      assert own + (tail + more) == first + more;
    }
  }

  lemma {:induction false} ReversedSplits(a: seq<Command>, b: seq<Command>)
    ensures Reversed(a + b) == Reversed(b) + Reversed(a)
  {
    if a == [] {
      assert a + b == b;
    } else {
      assert (a + b)[1..] == a[1..] + b;
      ReversedSplits(a[1..], b);
    }
  }

  /** A suffix queued last resolves last. */
  lemma QueuedResolves(commands: seq<Command>, last: Command, items: seq<Item>)
    returns (before: seq<Item>, after: seq<Item>)
    requires QueueResolves(commands + [last], items)
    ensures QueueResolves(commands, before) && CommandResolves(last, after) && items == before + after
  {
    ReversedSplits(commands, [last]);
    assert Reversed([last]) == [last];
    assert StackResolves([last] + Reversed(commands), items);
    before, after := ReversedResolves([last], commands, items);
    assert [last] == [] + [last];
    var only, none := StackPopped([], last, after);
    assert only + none == only;
  }

  /** What a state has written, and will write if its commands and its pending
      suffixes resolve to these items. */
  ghost function Outcome(s: State, stream: seq<Item>, pending: seq<Item>): seq<Item> {
    s.written + Laid(stream, pending)
  }

  lemma GroupResolves(
    s: State, indentation: Indentation, mode: Mode, group: Document, fits: Fits, stream: seq<Item>)
    returns (asked: Option<bool>, first: seq<Item>, more: seq<Item>)
    requires group.Group? && (group.breakMode == Force <==> MustBreak(group))
    requires StackResolves(PushGroup(s, indentation, mode, group, fits).commands, stream)
    ensures Resolves(group, mode, indentation, first) && StackResolves(s.commands, more)
    ensures PushGroup(s, indentation, mode, group, fits).written == s.written + Asking(asked)
    ensures Asking(asked) + stream == first + more
  {
    hide StackResolves, Resolves, ResolvesAll, Pushed, MustBreak;
    var s' := PushGroup(s, indentation, mode, group, fits);
    var chosen;
    asked, chosen := GroupChooses(s, indentation, mode, group, fits);
    var body;
    if s'.commands == Pushed(s.commands, indentation, chosen, group.contents) {
      body, more := PushedResolves(s.commands, indentation, chosen, group.contents, stream);
    } else {
      body, more := StackPopped(s.commands, Print(indentation, chosen, Array(group.contents)), stream);
      ArrayResolves(group.contents, chosen, indentation, body);
    }
    first := Asking(asked) + body;
    ChosenResolves(group, mode, asked, chosen, indentation, body);
    assert Asking(asked) + (body + more) == first + more;
  }

  /** What is pushed for a group: its contents in the mode it chose. */
  lemma GroupChooses(s: State, indentation: Indentation, mode: Mode, group: Document, fits: Fits)
    returns (asked: Option<bool>, chosen: Mode)
    requires group.Group? && (group.breakMode == Force <==> MustBreak(group))
    ensures MayChoose(group, mode, asked, chosen)
    ensures var s' := PushGroup(s, indentation, mode, group, fits);
            && s'.written == s.written + Asking(asked) && s'.suffixes == s.suffixes
            && (s'.commands == Pushed(s.commands, indentation, chosen, group.contents) ||
                s'.commands == s.commands + [Print(indentation, chosen, Array(group.contents))])
  {
    hide Pushed, MustBreak;
    var shouldBreak := group.breakMode == Force || (group.breakMode == Parent && mode == Break);
    asked := None;
    chosen := if shouldBreak then Break else Flat;
    if group.breakMode == Never {
      chosen := Flat;
    } else if mode == Flat && !s.remeasure && group.breakMode != Independent {
    } else if !shouldBreak {
      asked := Some(fits(s.(remeasure := false), group));
      chosen := if asked.value then Flat else Break;
    }
  }

  lemma ArrayResolves(ds: seq<Document>, mode: Mode, indentation: Indentation, items: seq<Item>)
    ensures Resolves(Array(ds), mode, indentation, items) == ResolvesAll(ds, mode, indentation, items)
  {
  }

  lemma ChosenResolves(
    group: Document, mode: Mode, asked: Option<bool>, chosen: Mode, indentation: Indentation, body: seq<Item>)
    requires group.Group? && MayChoose(group, mode, asked, chosen)
    requires ResolvesAll(group.contents, chosen, indentation, body)
    ensures Resolves(group, mode, indentation, Asking(asked) + body)
  {
  }

  lemma LineResolves(
    s: State, indentation: Indentation, mode: Mode, line: Document, stream: seq<Item>, pending: seq<Item>)
    returns (first: seq<Item>, more: seq<Item>, waiting: seq<Item>)
    requires line.Line?
    requires var s' := PrintLine(s, indentation, mode, line);
             StackResolves(s'.commands, stream) && QueueResolves(s'.suffixes, pending)
    ensures Resolves(line, mode, indentation, first) && StackResolves(s.commands, more)
    ensures QueueResolves(s.suffixes, waiting)
    ensures Outcome(PrintLine(s, indentation, mode, line), stream, pending) == Outcome(s, first + more, waiting)
  {
    hide StackResolves, Reversed, Laid;
    if mode == Flat && !line.hard {
      first, more, waiting := if line.soft then [] else [Space], stream, pending;
      assert first + more == if line.soft then stream else [Space] + stream;
      WrittenNow(s.written, Space, stream, pending);
    } else if s.suffixes == [] {
      EmptyQueue(pending);
      first, more, waiting := [NewLine(indentation)], stream, pending;
      WrittenNow(s.written, NewLine(indentation), stream, []);
    } else {
      var again := s.commands + [Print(indentation, mode, line)];
      var below;
      waiting, below := ReversedResolves(again, s.suffixes, stream);
      first, more := StackPopped(s.commands, Print(indentation, mode, line), below);
      EmptyQueue(pending);
      FlushedNow(waiting, NewLine(indentation), more);
      assert stream == waiting + [NewLine(indentation)] + more;
    }
  }

  lemma WrittenNow(written: seq<Item>, item: Item, stream: seq<Item>, pending: seq<Item>)
    requires !item.Suffix? && (item.NewLine? ==> pending == [])
    ensures written + Laid([item] + stream, pending) == written + [item] + Laid(stream, pending)
  {
    assert ([item] + stream)[1..] == stream;
  }

  lemma FlushedNow(waiting: seq<Item>, line: Item, more: seq<Item>)
    requires line.NewLine?
    ensures Laid(waiting + [line] + more, []) == Laid([line] + more, waiting)
  {
    LaidAcrossBreak(waiting, [], line, more);
    assert ([line] + more)[1..] == more;
  }

  lemma EmptyQueue(pending: seq<Item>)
    requires QueueResolves([], pending)
    ensures pending == []
  {
  }

  lemma BlankResolves(
    rest: seq<Command>, indentation: Indentation, mode: Mode, c: Document, line: nat, stream: seq<Item>)
    returns (first: seq<Item>, more: seq<Item>)
    requires StackResolves(rest + [BlankLineIfMultiline(indentation, line), Print(indentation, mode, c)], stream)
    ensures Resolves(BlankLineAfterIfMultiline(c), mode, indentation, first)
    ensures StackResolves(rest, more) && [Begin(line)] + stream == first + more
  {
    hide StackResolves;
    var check, top := BlankLineIfMultiline(indentation, line), Print(indentation, mode, c);
    assert rest + [check, top] == rest + [check] + [top];
    var body, below := StackPopped(rest + [check], top, stream);
    var extra;
    extra, more := StackPopped(rest, check, below);
    var crossed :| extra == Ended(line, crossed, indentation);
    first := [Begin(line)] + body + extra;
    assert [Begin(line)] + (body + (extra + more)) == first + more;
  }

  lemma SuffixResolves(
    s: State, indentation: Indentation, mode: Mode, ds: seq<Document>, stream: seq<Item>, pending: seq<Item>)
    returns (first: seq<Item>, waiting: seq<Item>)
    requires QueueResolves(s.suffixes + [Print(indentation, mode, Array(ds))], pending)
    ensures Resolves(LineSuffix(ds), mode, indentation, first) && QueueResolves(s.suffixes, waiting)
    ensures Laid(first + stream, waiting) == Laid(stream, pending)
  {
    hide StackResolves, QueueResolves;
    var body;
    waiting, body := QueuedResolves(s.suffixes, Print(indentation, mode, Array(ds)), pending);
    first := [Suffix(body)];
    assert (first + stream)[1..] == stream;
  }

  lemma HandleResolves(
    s: State, indentation: Indentation, mode: Mode, d: Document, fits: Fits, stream: seq<Item>, pending: seq<Item>)
    returns (first: seq<Item>, more: seq<Item>, waiting: seq<Item>)
    requires d.Group? ==> (d.breakMode == Force <==> MustBreak(d))
    requires var s' := Handle(s, indentation, mode, d, fits);
             StackResolves(s'.commands, stream) && QueueResolves(s'.suffixes, pending)
    ensures Resolves(d, mode, indentation, first) && StackResolves(s.commands, more)
    ensures QueueResolves(s.suffixes, waiting)
    ensures Outcome(Handle(s, indentation, mode, d, fits), stream, pending) == Outcome(s, first + more, waiting)
  {
    hide StackResolves, QueueResolves, Laid, Pushed, PushGroup, PrintLine, MustBreak;
    more, waiting := stream, pending;
    match d {
      case String(text) =>
        first := [Text(text)];
        WrittenNow(s.written, Text(text), stream, pending);
      case Array(ds) => first, more := PushedResolves(s.commands, indentation, mode, ds, stream);
      case Indent(ds) => first, more := PushedResolves(s.commands, Nest(indentation), mode, ds, stream);
      case IndentIfBreak(ds) =>
        first, more :=
          PushedResolves(s.commands, if mode == Break then Nest(indentation) else indentation, mode, ds, stream);
      case BlankLineAfterIfMultiline(c) =>
        first, more := BlankResolves(s.commands, indentation, mode, c, Lines(s.written), stream);
        WrittenNow(s.written, Begin(Lines(s.written)), stream, pending);
      case Group(_, _, _) =>
        var asked;
        asked, first, more := GroupResolves(s, indentation, mode, d, fits, stream);
        GroupKeepsSuffixes(s, indentation, mode, d, fits);
        AskedNow(s.written, asked, stream, pending);
      case Line(_, _) => first, more, waiting := LineResolves(s, indentation, mode, d, stream, pending);
      case LineSuffix(ds) => first, waiting := SuffixResolves(s, indentation, mode, ds, stream, pending);
      case IfBreak(b, f) =>
        first, more := StackPopped(s.commands, Print(indentation, mode, if mode == Break then b else f), stream);
      case BreakParent =>
        first := [];
        assert first + stream == stream;
    }
  }

  lemma GroupKeepsSuffixes(s: State, indentation: Indentation, mode: Mode, group: Document, fits: Fits)
    requires group.Group?
    ensures PushGroup(s, indentation, mode, group, fits).suffixes == s.suffixes
  {
  }

  lemma AskedNow(written: seq<Item>, asked: Option<bool>, stream: seq<Item>, pending: seq<Item>)
    ensures written + Laid(Asking(asked) + stream, pending) == written + Asking(asked) + Laid(stream, pending)
  {
    if asked.Some? {
      WrittenNow(written, Asked(asked.value), stream, pending);
    } else {
      assert Asking(asked) + stream == stream;
    }
  }

  // ----- Marks left by propagation do not change what is printed -----

  ghost predicate Marked(ds: seq<Document>, ds': seq<Document>) {
    && |ds'| == |ds|
    && forall i :: 0 <= i < |ds| ==> ds'[i] == ds[i] || ds'[i] == Propagate(ds[i]).0
  }

  lemma {:induction false} PropagateAllMarks(ds: seq<Document>)
    ensures Marked(ds, PropagateAll(ds).0)
  {
    if ds != [] {
      PropagateAllMarks(ds[..|ds| - 1]);
    }
  }

  lemma {:induction false} PropagatedResolves(d: Document, mode: Mode, indentation: Indentation, items: seq<Item>)
    requires Resolves(Propagate(d).0, mode, indentation, items)
    ensures Resolves(d, mode, indentation, items)
    decreases Size(d), 1
  {
    hide ResolvesAll, MustBreak;
    match d {
      case Array(ds) =>
        PropagateAllMarks(ds);
        MarkedResolves(ds, PropagateAll(ds).0, mode, indentation, items);
      case Indent(ds) =>
        PropagateAllMarks(ds);
        MarkedResolves(ds, PropagateAll(ds).0, mode, Nest(indentation), items);
      case IndentIfBreak(ds) =>
        PropagateAllMarks(ds);
        MarkedResolves(
          ds, PropagateAll(ds).0, mode, if mode == Break then Nest(indentation) else indentation, items);
      case BlankLineAfterIfMultiline(c) =>
        var lines, body, crossed :|
          && Resolves(Propagate(c).0, mode, indentation, body)
          && items == [Begin(lines)] + body + Ended(lines, crossed, indentation);
        PropagatedResolves(c, mode, indentation, body);
      case Group(ds, b, _) => PropagatedGroupResolves(d, mode, indentation, items);
      case IfBreak(b, _) =>
        if mode == Break {
          PropagatedResolves(b, mode, indentation, items);
        }
      case _ =>
    }
  }

  lemma {:induction false} PropagatedGroupResolves(
    d: Document, mode: Mode, indentation: Indentation, items: seq<Item>)
    requires d.Group? && Resolves(Propagate(d).0, mode, indentation, items)
    ensures Resolves(d, mode, indentation, items)
    decreases Size(d), 0
  {
    hide ResolvesAll, MustBreak;
    if d.breakMode != Never {
      PropagateIsExact(d);
      PropagateAllMarks(d.contents);
      var d', ds' := Propagate(d).0, PropagateAll(d.contents).0;
      var asked, chosen, body :|
        && MayChoose(d', mode, asked, chosen)
        && ResolvesAll(ds', chosen, indentation, body)
        && items == Asking(asked) + body;
      MarkedResolves(d.contents, ds', chosen, indentation, body);
      assert MayChoose(d, mode, asked, chosen);
    }
  }

  lemma {:induction false} MarkedResolves(
    ds: seq<Document>, ds': seq<Document>, mode: Mode, indentation: Indentation, items: seq<Item>)
    requires Marked(ds, ds') && ResolvesAll(ds', mode, indentation, items)
    ensures ResolvesAll(ds, mode, indentation, items)
    decreases SizeAll(ds), 2
  {
    hide Resolves, Propagate;
    if ds != [] {
      var first, rest :|
        && Resolves(ds'[0], mode, indentation, first)
        && ResolvesAll(ds'[1..], mode, indentation, rest)
        && items == first + rest;
      if ds'[0] != ds[0] {
        PropagatedResolves(ds[0], mode, indentation, first);
      }
      MarkedResolves(ds[1..], ds'[1..], mode, indentation, rest);
    }
  }

  /** A group reaches the printer marked as forced exactly if it must break. */
  lemma MarksAreExact(d: Document)
    requires d.Group?
    ensures var g := Propagate(d).0; g.Group? && (g.breakMode == Force <==> MustBreak(g))
  {
    PropagateIsExact(d);
  }

  // ----- The whole run -----

  lemma StepResolves(s: State, fits: Fits, stream: seq<Item>, pending: seq<Item>)
    returns (before: seq<Item>, waiting: seq<Item>)
    requires s.commands != []
    requires StackResolves(Step(s, fits).commands, stream) && QueueResolves(Step(s, fits).suffixes, pending)
    ensures StackResolves(s.commands, before) && QueueResolves(s.suffixes, waiting)
    ensures Outcome(Step(s, fits), stream, pending) == Outcome(s, before, waiting)
  {
    hide StackResolves, QueueResolves, Laid, Handle, Flush, Propagate, Lines;
    var rest, top := s.commands[..|s.commands| - 1], s.commands[|s.commands| - 1];
    assert s.commands == rest + [top];
    match top {
      case Print(indentation, mode, d) =>
        var d', s0 := Propagate(d).0, s.(commands := rest);
        var s' := Handle(s0, indentation, mode, d', fits);
        var flushed, held := FlushResolves(s', stream, pending);
        assert d'.Group? ==> (d'.breakMode == Force <==> MustBreak(d')) by {
          ForcedIfMust(d);
        }
        var first, more;
        first, more, waiting := HandleResolves(s0, indentation, mode, d', fits, flushed, held);
        PropagatedResolves(d, mode, indentation, first);
        StackPushed(rest, top, first, more);
        before := first + more;
      case BlankLineIfMultiline(indentation, startingLine) =>
        var crossed := Lines(s.written) > startingLine;
        before := CheckResolves(s, rest, top, stream, crossed);
        waiting := pending;
        WrittenNow(s.written, End(startingLine, crossed), stream, pending);
    }
  }

  lemma ForcedIfMust(d: Document)
    ensures var g := Propagate(d).0; g.Group? ==> (g.breakMode == Force <==> MustBreak(g))
  {
    if d.Group? {
      MarksAreExact(d);
    }
  }

  lemma FlushResolves(s: State, stream: seq<Item>, pending: seq<Item>) returns (before: seq<Item>, waiting: seq<Item>)
    requires StackResolves(Flush(s).commands, stream) && QueueResolves(Flush(s).suffixes, pending)
    ensures StackResolves(s.commands, before) && QueueResolves(s.suffixes, waiting)
    ensures Outcome(Flush(s), stream, pending) == Outcome(s, before, waiting)
  {
    hide StackResolves;
    before, waiting := stream, pending;
    if s.commands == [] && s.suffixes != [] {
      EmptyQueue(pending);
      EmptyStack();
      before, waiting := [], stream;
    }
  }

  lemma CheckResolves(s: State, rest: seq<Command>, top: Command, stream: seq<Item>, crossed: bool)
    returns (before: seq<Item>)
    requires s.commands == rest + [top] && top.BlankLineIfMultiline?
    requires StackResolves(if crossed then rest + [Print(top.indentation, Break, Line(true, false))] else rest, stream)
    ensures StackResolves(s.commands, before) && before == [End(top.startingLine, crossed)] + stream
  {
    hide StackResolves;
    var end := End(top.startingLine, crossed);
    before := [end] + stream;
    var own := Ended(top.startingLine, crossed, top.indentation);
    assert CommandResolves(top, own);
    if crossed {
      var first, more := StackPopped(rest, Print(top.indentation, Break, Line(true, false)), stream);
      StackPushed(rest, top, own, more);
      assert first == [NewLine(top.indentation)] && own == [end] + first;
      assert own + more == [end] + (first + more);
    } else {
      assert own == [end];
      StackPushed(rest, top, own, stream);
    }
  }

  lemma {:induction false} SomeItems(d: Document, mode: Mode, indentation: Indentation) returns (items: seq<Item>)
    ensures Resolves(d, mode, indentation, items)
    decreases Size(d), 0
  {
    hide ResolvesAll, MustBreak;
    match d {
      case String(text) => items := [Text(text)];
      case Array(ds) => items := SomeList(ds, mode, indentation);
      case Indent(ds) => items := SomeList(ds, mode, Nest(indentation));
      case IndentIfBreak(ds) =>
        items := SomeList(ds, mode, if mode == Break then Nest(indentation) else indentation);
      case BlankLineAfterIfMultiline(c) =>
        var body := SomeItems(c, mode, indentation);
        items := [Begin(0)] + body + Ended(0, false, indentation);
      case Group(ds, b, _) =>
        var settled := b == Never || MustBreak(d) || (b == Parent && mode == Break);
        var chosen := if b == Never then Flat else Break;
        var asked := if settled then None else Some(false);
        var body := SomeList(ds, chosen, indentation);
        items := Asking(asked) + body;
        assert MayChoose(d, mode, asked, chosen);
      case Line(hard, soft) =>
        items := if mode == Break || hard then [NewLine(indentation)] else if soft then [] else [Space];
      case LineSuffix(ds) =>
        var body := SomeList(ds, mode, indentation);
        items := [Suffix(body)];
      case IfBreak(b, f) => items := SomeItems(if mode == Break then b else f, mode, indentation);
      case BreakParent => items := [];
    }
  }

  lemma {:induction false} SomeList(ds: seq<Document>, mode: Mode, indentation: Indentation) returns (items: seq<Item>)
    ensures ResolvesAll(ds, mode, indentation, items)
    decreases SizeAll(ds), 1
  {
    items := [];
    if ds != [] {
      var first := SomeItems(ds[0], mode, indentation);
      var rest := SomeList(ds[1..], mode, indentation);
      items := first + rest;
    }
  }

  lemma {:induction false} SomeStack(commands: seq<Command>) returns (items: seq<Item>)
    ensures StackResolves(commands, items)
  {
    hide StackResolves, Resolves;
    EmptyStack();
    items := [];
    if commands != [] {
      var rest, top := commands[..|commands| - 1], commands[|commands| - 1];
      var more := SomeStack(rest);
      var first := [];
      if top.Print? {
        first := SomeItems(top.document, top.mode, top.indentation);
      } else {
        first := Ended(top.startingLine, false, top.indentation);
      }
      assert commands == rest + [top];
      StackPushed(rest, top, first, more);
      items := first + more;
    }
  }

  lemma ResolvedQueue(commands: seq<Command>, items: seq<Item>)
    requires StackResolves(Reversed(commands), items)
    ensures QueueResolves(commands, items)
  {
  }

  /** Whatever the fit measure answers, a run writes the layout of its commands
      as they resolve, less the suffixes still pending when it stops. */
  lemma {:induction false} RunLaysOut(s: State, fits: Fits)
    returns (stream: seq<Item>, pending: seq<Item>, lost: seq<Item>)
    ensures StackResolves(s.commands, stream) && QueueResolves(s.suffixes, pending)
    ensures QueueResolves(Run(s, fits).suffixes, lost)
    ensures Run(s, fits).written + Laid(lost, []) == s.written + Laid(stream, pending)
    decreases Measure(s), |s.suffixes|
  {
    hide StackResolves, QueueResolves, Step, Measure;
    if s.commands == [] {
      EmptyStack();
      lost := SomeStack(Reversed(s.suffixes));
      assert QueueResolves(s.suffixes, lost) by {
        ResolvedQueue(s.suffixes, lost);
      }
      stream, pending := [], lost;
    } else {
      StepProgresses(s, fits);
      var next, waiting;
      next, waiting, lost := RunLaysOut(Step(s, fits), fits);
      stream, pending := StepResolves(s, fits, next, waiting);
    }
  }
}
