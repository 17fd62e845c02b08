/** The printer as a stack machine over commands, whatever the answers of the
    fit measure: it stops, and it writes the layout of its document. */
module PrintMachine {
  import opened Documents
  import opened Layout

  datatype Command =
    | Print(indentation: Indentation, mode: Mode, document: Document)
    | BlankLineIfMultiline(indentation: Indentation, startingLine: nat)

  /** `written` is the output so far as items; the last command is on top. */
  datatype State = State(written: seq<Item>, commands: seq<Command>, suffixes: seq<Command>, remeasure: bool)

  type Fits = (State, Document) -> bool

  function Pushed(rest: seq<Command>, indentation: Indentation, mode: Mode, ds: seq<Document>): seq<Command> {
    if ds == [] then rest else Pushed(rest, indentation, mode, ds[1..]) + [Print(indentation, mode, ds[0])]
  }

  function Reversed(commands: seq<Command>): seq<Command> {
    if commands == [] then [] else Reversed(commands[1..]) + [commands[0]]
  }

  function Write(s: State, item: Item): State {
    s.(written := s.written + [item])
  }

  function PushAll(s: State, indentation: Indentation, mode: Mode, ds: seq<Document>): State {
    s.(commands := Pushed(s.commands, indentation, mode, ds))
  }

  function PushGroup(s: State, indentation: Indentation, mode: Mode, group: Document, fits: Fits): State
    requires group.Group?
  {
    var shouldBreak := group.breakMode == Force || (group.breakMode == Parent && mode == Break);
    if group.breakMode == Never then PushAll(s, indentation, Flat, group.contents)
    else if mode == Flat && !s.remeasure && group.breakMode != Independent then
      PushAll(s, indentation, if shouldBreak then Break else mode, group.contents)
    else
      var s' := s.(remeasure := false);
      if shouldBreak then s'.(commands := s.commands + [Print(indentation, Break, Array(group.contents))])
      else
        var answer := fits(s', group);
        Write(s', Asked(answer)).(
          commands := s.commands + [Print(indentation, if answer then Flat else Break, Array(group.contents))])
  }

  function PrintLine(s: State, indentation: Indentation, mode: Mode, line: Document): State
    requires line.Line?
  {
    if mode == Flat && !line.hard then
      if line.soft then s else Write(s, Space)
    else
      var s' := s.(remeasure := s.remeasure || mode == Flat);
      if s.suffixes != [] then
        s'.(commands := s.commands + [Print(indentation, mode, line)] + Reversed(s.suffixes), suffixes := [])
      else Write(s', NewLine(indentation))
  }

  function Handle(s: State, indentation: Indentation, mode: Mode, d: Document, fits: Fits): State {
    match d
    case String(text) => Write(s, Text(text))
    case Array(ds) => PushAll(s, indentation, mode, ds)
    case Indent(ds) => PushAll(s, Nest(indentation), mode, ds)
    case IndentIfBreak(ds) => PushAll(s, if mode == Break then Nest(indentation) else indentation, mode, ds)
    case BlankLineAfterIfMultiline(c) =>
      Write(s, Begin(Lines(s.written))).(
        commands := s.commands + [BlankLineIfMultiline(indentation, Lines(s.written)), Print(indentation, mode, c)])
    case Group(_, _, _) => PushGroup(s, indentation, mode, d, fits)
    case Line(_, _) => PrintLine(s, indentation, mode, d)
    case LineSuffix(ds) => s.(suffixes := s.suffixes + [Print(indentation, mode, Array(ds))])
    case IfBreak(b, f) => s.(commands := s.commands + [Print(indentation, mode, if mode == Break then b else f)])
    case BreakParent => s
  }

  /** With nothing left to do, the pending suffixes are. */
  function Flush(s: State): State {
    if s.commands == [] && s.suffixes != [] then s.(commands := Reversed(s.suffixes), suffixes := []) else s
  }

  function Step(s: State, fits: Fits): State
    requires s.commands != []
  {
    var rest, top := s.commands[..|s.commands| - 1], s.commands[|s.commands| - 1];
    match top
    case Print(indentation, mode, d) =>
      Flush(Handle(s.(commands := rest), indentation, mode, Propagate(d).0, fits))
    case BlankLineIfMultiline(indentation, startingLine) =>
      var crossed := Lines(s.written) > startingLine;
      Write(s, End(startingLine, crossed)).(
        commands := if crossed then rest + [Print(indentation, Break, Line(true, false))] else rest)
  }

  // ----- Termination -----

  function Cost(c: Command): nat {
    match c
    case Print(_, _, d) => Size(d)
    case BlankLineIfMultiline(_, _) => 2
  }

  function Work(commands: seq<Command>): nat {
    if commands == [] then 0 else Cost(commands[0]) + Work(commands[1..])
  }

  function Measure(s: State): nat {
    Work(s.commands) + Work(s.suffixes)
  }

  lemma {:induction false} WorkSplits(a: seq<Command>, b: seq<Command>)
    ensures Work(a + b) == Work(a) + Work(b)
  {
    if a == [] {
      assert a + b == b;
    } else {
      assert (a + b)[1..] == a[1..] + b;
      WorkSplits(a[1..], b);
    }
  }

  lemma WorkTop(rest: seq<Command>, top: Command)
    ensures Work(rest + [top]) == Work(rest) + Cost(top)
  {
    WorkSplits(rest, [top]);
  }

  lemma {:induction false} ReversedWork(commands: seq<Command>)
    ensures Work(Reversed(commands)) == Work(commands)
  {
    if commands != [] {
      ReversedWork(commands[1..]);
      WorkSplits(Reversed(commands[1..]), [commands[0]]);
    }
  }

  lemma {:induction false} PushedWork(rest: seq<Command>, indentation: Indentation, mode: Mode, ds: seq<Document>)
    ensures Work(Pushed(rest, indentation, mode, ds)) == Work(rest) + SizeAll(ds)
  {
    if ds != [] {
      PushedWork(rest, indentation, mode, ds[1..]);
      WorkSplits(Pushed(rest, indentation, mode, ds[1..]), [Print(indentation, mode, ds[0])]);
    }
  }

  ghost predicate Less(s': State, s: State) {
    Measure(s') < Measure(s) || (Measure(s') == Measure(s) && |s'.suffixes| < |s.suffixes|)
  }

  lemma HandleProgresses(s: State, rest: seq<Command>, indentation: Indentation, mode: Mode, d: Document, fits: Fits)
    requires s.commands == rest + [Print(indentation, mode, d)]
    ensures Less(Handle(s.(commands := rest), indentation, mode, d, fits), s)
  {
    hide Pushed, PushGroup, PrintLine, Lines, SizeAll, Work;
    WorkTop(rest, Print(indentation, mode, d));
    match d {
      case String(_) =>
      case Array(ds) => PushedWork(rest, indentation, mode, ds);
      case Indent(ds) => PushedWork(rest, Nest(indentation), mode, ds);
      case IndentIfBreak(ds) =>
        PushedWork(rest, if mode == Break then Nest(indentation) else indentation, mode, ds);
      case BlankLineAfterIfMultiline(c) =>
        var check, body := BlankLineIfMultiline(indentation, Lines(s.written)), Print(indentation, mode, c);
        WorkTop(rest + [check], body);
        WorkTop(rest, check);
        assert rest + [check, body] == rest + [check] + [body];
      case Group(ds, _, _) => GroupProgresses(s.(commands := rest), indentation, mode, d, fits);
      case Line(_, _) => LineProgresses(s.(commands := rest), indentation, mode, d);
      case LineSuffix(ds) => WorkTop(s.suffixes, Print(indentation, mode, Array(ds)));
      case IfBreak(b, f) => WorkTop(rest, Print(indentation, mode, if mode == Break then b else f));
      case BreakParent =>
    }
  }

  lemma GroupProgresses(s: State, indentation: Indentation, mode: Mode, group: Document, fits: Fits)
    requires group.Group?
    ensures Measure(PushGroup(s, indentation, mode, group, fits)) < Measure(s) + Size(group)
  {
    forall m: Mode
      ensures Work(Pushed(s.commands, indentation, m, group.contents)) == Work(s.commands) + SizeAll(group.contents)
      ensures Work(s.commands + [Print(indentation, m, Array(group.contents))])
           == Work(s.commands) + 1 + SizeAll(group.contents)
    {
      PushedWork(s.commands, indentation, m, group.contents);
      WorkSplits(s.commands, [Print(indentation, m, Array(group.contents))]);
    }
  }

  lemma LineProgresses(s: State, indentation: Indentation, mode: Mode, line: Document)
    requires line.Line?
    ensures var s' := PrintLine(s, indentation, mode, line);
      || Measure(s') < Measure(s) + Size(line)
      || (Measure(s') == Measure(s) + Size(line) && |s'.suffixes| < |s.suffixes|)
  {
    WorkSplits(s.commands, [Print(indentation, mode, line)]);
    WorkSplits(s.commands + [Print(indentation, mode, line)], Reversed(s.suffixes));
    ReversedWork(s.suffixes);
  }

  lemma FlushProgresses(s': State, s: State)
    requires Less(s', s)
    ensures Less(Flush(s'), s)
  {
    ReversedWork(s'.suffixes);
  }

  /** Every step leaves less to print, or as much with fewer suffixes pending. */
  lemma StepProgresses(s: State, fits: Fits)
    requires s.commands != []
    ensures Less(Step(s, fits), s)
  {
    hide Handle, Flush, Propagate, Lines, Work;
    var rest, top := s.commands[..|s.commands| - 1], s.commands[|s.commands| - 1];
    assert s.commands == rest + [top];
    match top {
      case Print(indentation, mode, d) =>
        var s0 := s.(commands := rest + [Print(indentation, mode, Propagate(d).0)]);
        assert Measure(s0) == Measure(s) by {
          WorkTop(rest, top);
          WorkTop(rest, Print(indentation, mode, Propagate(d).0));
          PropagateKeepsSize(d);
        }
        HandleProgresses(s0, rest, indentation, mode, Propagate(d).0, fits);
        FlushProgresses(Handle(s.(commands := rest), indentation, mode, Propagate(d).0, fits), s);
      case BlankLineIfMultiline(indentation, _) =>
        WorkTop(rest, top);
        WorkTop(rest, Print(indentation, Break, Line(true, false)));
    }
  }

  function Run(s: State, fits: Fits): State
    decreases Measure(s), |s.suffixes|
  {
    if s.commands == [] then s
    else
      StepProgresses(s, fits);
      Run(Step(s, fits), fits)
  }
}
