/** The document printer: a buffer, a column, a line count and two command
    stacks, updated in place. */
module Printer {
  import opened Documents
  import opened Layout
  import opened PrintMachine
  import opened PrintedInk
  import PrintedInFull

  /** The fit measure, from the column, the commands left and the group. */
  type GroupFits = (nat, seq<Command>, Document) -> bool

  function IndentWidth(tabWidth: nat, indentation: Indentation): nat
    decreases indentation
  {
    match indentation
    case Root => 0
    case Indented => tabWidth
    case Combined(nested) => IndentWidths(tabWidth, nested)
  }

  function IndentWidths(tabWidth: nat, nested: seq<Indentation>): nat
    decreases nested
  {
    if nested == [] then 0 else IndentWidth(tabWidth, nested[0]) + IndentWidths(tabWidth, nested[1..])
  }

  /** How far one character of indentation moves the column. */
  function BlankWidth(settings: Settings): nat {
    if settings.useTabs then settings.tabWidth else 1
  }

  /** The width reported for an indentation is that of the blanks written for it. */
  lemma {:induction false} PrefixWidth(settings: Settings, indentation: Indentation)
    ensures IndentWidth(settings.tabWidth, indentation) == |Prefix(settings, indentation)| * BlankWidth(settings)
    decreases indentation
  {
    if indentation.Combined? {
      PrefixesWidth(settings, indentation.nested);
    }
  }

  lemma {:induction false} PrefixesWidth(settings: Settings, nested: seq<Indentation>)
    ensures IndentWidths(settings.tabWidth, nested) == |Prefixes(settings, nested)| * BlankWidth(settings)
    decreases nested
  {
    if nested != [] {
      PrefixWidth(settings, nested[0]);
      PrefixesWidth(settings, nested[1..]);
      Distributes(|Prefix(settings, nested[0])|, |Prefixes(settings, nested[1..])|, BlankWidth(settings));
      assert |Prefixes(settings, nested)| == |Prefix(settings, nested[0])| + |Prefixes(settings, nested[1..])|;
      hide Prefix, Prefixes, IndentWidth, BlankWidth;
    }
  }

  lemma Distributes(a: nat, b: nat, w: nat)
    ensures (a + b) * w == a * w + b * w
  {
  }

  /** The column reached: the indentation of the last line break and the widths
      written since. */
  function Column(tabWidth: nat, width: string -> nat, written: seq<Item>): nat {
    if written == [] then 0
    else
      var before := Column(tabWidth, width, written[..|written| - 1]);
      match written[|written| - 1]
      case Text(text) => before + width(text)
      case Space => before + 1
      case NewLine(indentation) => IndentWidth(tabWidth, indentation)
      case _ => before
  }

  /** A display width that adds up, with spaces and tabs as wide as the settings say. */
  ghost predicate Measures(width: string -> nat, tabWidth: nat) {
    && width("") == 0 && width(" ") == 1 && width("\t") == tabWidth
    && forall a, b :: width(a + b) == width(a) + width(b)
  }

  lemma {:induction false} RepeatedWidth(width: string -> nat, tabWidth: nat, c: char, n: nat)
    requires Measures(width, tabWidth)
    ensures width(Repeated(c, n)) == n * width([c])
  {
    if n == 0 {
      assert Repeated(c, n) == "";
    } else {
      RepeatedWidth(width, tabWidth, c, n - 1);
      assert Repeated(c, n) == Repeated(c, n - 1) + [c];
    }
  }

  lemma PrefixMeasures(settings: Settings, width: string -> nat, indentation: Indentation)
    requires Measures(width, settings.tabWidth)
    ensures width(Prefix(settings, indentation)) == IndentWidth(settings.tabWidth, indentation)
  {
    var depth := Depth(indentation);
    PrefixIsDepth(settings, indentation);
    PrefixWidth(settings, indentation);
    hide Prefix, IndentWidth, Depth;
    RepeatedWidth(width, settings.tabWidth, if settings.useTabs then '\t' else ' ', |Blanks(settings, depth)|);
  }

  /** The column is the width of the last line: of what follows the last line
      break in the text, its indentation included. */
  lemma {:induction false} ColumnIsLineWidth(
    settings: Settings, width: string -> nat, before: seq<Item>, indentation: Indentation, since: seq<Item>)
    returns (line: string)
    requires Measures(width, settings.tabWidth) && OneLine(since)
    ensures var written := before + [NewLine(indentation)] + since;
            && Rendered(settings, written) == Trimmed(Rendered(settings, before)) + settings.newLine + line
            && Column(settings.tabWidth, width, written) == width(line)
  {
    hide Prefix, IndentWidth, Trimmed;
    var written := before + [NewLine(indentation)] + since;
    if since == [] {
      assert written[..|written| - 1] == before;
      line := Prefix(settings, indentation);
      PrefixMeasures(settings, width, indentation);
    } else {
      var init, last := since[..|since| - 1], since[|since| - 1];
      assert written[..|written| - 1] == before + [NewLine(indentation)] + init;
      var start := ColumnIsLineWidth(settings, width, before, indentation, init);
      line := start + match last
        case Text(text) => text
        case Space => " "
        case _ => "";
    }
  }

  // ----- Items that print nothing -----

  predicate Silent(item: Item) {
    item.Begin? || item.End? || item.Asked?
  }

  lemma SilentText(settings: Settings, written: seq<Item>, item: Item)
    requires Silent(item)
    ensures Rendered(settings, written + [item]) == Rendered(settings, written)
  {
    assert (written + [item])[..|written|] == written;
  }

  lemma SilentColumn(tabWidth: nat, width: string -> nat, written: seq<Item>, item: Item)
    requires Silent(item)
    ensures Column(tabWidth, width, written + [item]) == Column(tabWidth, width, written)
  {
    assert (written + [item])[..|written|] == written;
  }

  lemma SilentLines(written: seq<Item>, item: Item)
    requires Silent(item)
    ensures Lines(written + [item]) == Lines(written)
  {
    assert (written + [item])[..|written|] == written;
  }

  class Printer {
    const settings: Settings
    const width: string -> nat
    const groupFits: GroupFits
    var out: string
    var position: nat
    var commands: seq<Command>
    var lineSuffix: seq<Command>
    var line: nat
    ghost var written: seq<Item>

    /** The buffer is the text, the column and the line count of what was written. */
    ghost predicate Valid()
      reads this
    {
      && out == Rendered(settings, written)
      && position == Column(settings.tabWidth, width, written)
      && line == Lines(written)
    }

    ghost function Value(remeasure: bool): State
      reads this
    {
      State(written, commands, lineSuffix, remeasure)
    }

    ghost function Fit(): Fits {
      (s: State, group: Document) => groupFits(Column(settings.tabWidth, width, s.written), s.commands, group)
    }

    constructor (document: Document, settings: Settings, width: string -> nat, groupFits: GroupFits)
      ensures Valid() && Value(false) == PrintedInFull.Start(document)
      ensures this.settings == settings
    {
      this.settings, this.width, this.groupFits := settings, width, groupFits;
      out, position, line := "", 0, 0;
      commands, lineSuffix := [Print(Root, Break, document)], [];
      written := [];
    }

    /** Notes in the history an item that prints nothing. */
    ghost method Note(item: Item)
      requires Valid() && Silent(item)
      modifies `written
      ensures Valid() && written == old(written) + [item]
    {
      hide Rendered, Column, Lines;
      SilentText(settings, written, item);
      SilentColumn(settings.tabWidth, width, written, item);
      SilentLines(written, item);
      written := written + [item];
    }

    method HandleString(text: string)
      requires Valid()
      modifies `out, `position, `line, `written
      ensures Valid() && written == old(written) + [Text(text)]
    {
      hide Prefix, IndentWidth, Trimmed, Newlines;
      written := written + [Text(text)];
      assert written[..|written| - 1] == old(written);
      out := out + text;
      position := position + width(text);
      line := line + Newlines(text);
    }

    method TrimTrailingWhitespace()
      modifies `out
      ensures out == Trimmed(old(out)) && IsTrimmed(out, old(out))
    {
      TrimmedIsExact(out);
      while out != "" && Blank(out[|out| - 1])
        invariant Trimmed(out) == Trimmed(old(out))
        decreases |out|
      {
        out := out[..|out| - 1];
      }
    }

    method AddIndentation(indentation: Indentation) returns (column: nat)
      modifies `out
      ensures out == old(out) + Prefix(settings, indentation)
      ensures column == IndentWidth(settings.tabWidth, indentation)
      ensures out == old(out) + Blanks(settings, Depth(indentation))
      ensures column == (|out| - |old(out)|) * BlankWidth(settings)
    {
      PrefixIsDepth(settings, indentation);
      PrefixWidth(settings, indentation);
      hide Prefix, IndentWidth;
      out := out + Prefix(settings, indentation);
      column := IndentWidth(settings.tabWidth, indentation);
    }

    method HandleGroup(indentation: Indentation, mode: Mode, group: Document, remeasure: bool) returns (r: bool)
      requires Valid() && group.Group?
      modifies `commands, `written
      ensures Valid() && Value(r) == PushGroup(old(Value(remeasure)), indentation, mode, group, Fit())
    {
      hide Rendered, Column, Lines, Pushed;
      var shouldBreak := match group.breakMode
        case Force => true
        case Parent => mode == Break
        case _ => false;
      if group.breakMode == Never {
        commands := Pushed(commands, indentation, Flat, group.contents);
        return remeasure;
      }
      if mode == Flat && !remeasure && group.breakMode != Independent {
        commands := Pushed(commands, indentation, if shouldBreak then Break else mode, group.contents);
        return remeasure;
      }
      var chosen := Break;
      if !shouldBreak {
        var answer := groupFits(position, commands, group);
        Note(Asked(answer));
        chosen := if answer then Flat else Break;
      }
      commands := commands + [Print(indentation, chosen, Array(group.contents))];
      return false;
    }

    method BreakLine(indentation: Indentation)
      requires Valid()
      modifies `out, `position, `line, `written
      ensures Valid() && written == old(written) + [NewLine(indentation)]
    {
      hide Prefix, IndentWidth, Trimmed, Newlines;
      written := written + [NewLine(indentation)];
      assert written[..|written| - 1] == old(written);
      TrimTrailingWhitespace();
      out := out + settings.newLine;
      position := AddIndentation(indentation);
      line := line + 1;
    }

    method HandleLine(indentation: Indentation, mode: Mode, document: Document, remeasure: bool) returns (r: bool)
      requires Valid() && document.Line?
      modifies this
      ensures Valid() && Value(r) == PrintLine(old(Value(remeasure)), indentation, mode, document)
    {
      r := remeasure;
      if mode == Flat {
        if !document.hard {
          if !document.soft {
            written := written + [Space];
            assert written[..|written| - 1] == old(written);
            out, position := out + " ", position + 1;
          }
          return;
        }
        r := true;
      }
      if lineSuffix != [] {
        commands := commands + [Print(indentation, mode, document)] + Reversed(lineSuffix);
        lineSuffix := [];
        return;
      }
      BreakLine(indentation);
    }

    /** One turn of the loop that is not a blank-line check. */
    method HandleDocument(indentation: Indentation, mode: Mode, document: Document, remeasure: bool) returns (r: bool)
      requires Valid()
      modifies this
      ensures Valid() && Value(r) == Handle(old(Value(remeasure)), indentation, mode, document, Fit())
    {
      hide Rendered, Column, Lines, Reversed, Pushed;
      r := remeasure;
      match document {
        case String(text) => HandleString(text);
        case Array(ds) => commands := Pushed(commands, indentation, mode, ds);
        case Indent(ds) => commands := Pushed(commands, Nest(indentation), mode, ds);
        case IndentIfBreak(ds) =>
          commands := Pushed(commands, if mode == Break then Nest(indentation) else indentation, mode, ds);
        case BlankLineAfterIfMultiline(c) =>
          Note(Begin(line));
          commands := commands + [BlankLineIfMultiline(indentation, line)];
          commands := commands + [Print(indentation, mode, c)];
          assert commands ==
            old(commands) + [BlankLineIfMultiline(indentation, line), Print(indentation, mode, c)];
        case Group(_, _, _) => r := HandleGroup(indentation, mode, document, remeasure);
        case Line(_, _) => r := HandleLine(indentation, mode, document, remeasure);
        case LineSuffix(ds) => lineSuffix := lineSuffix + [Print(indentation, mode, Array(ds))];
        case IfBreak(b, f) => commands := commands + [Print(indentation, mode, if mode == Break then b else f)];
        case BreakParent =>
      }
    }

    method Advance(remeasure: bool) returns (r: bool)
      requires Valid() && commands != []
      modifies this
      ensures Valid() && Value(r) == Step(old(Value(remeasure)), Fit())
    {
      hide Rendered, Column, Lines, Reversed, Handle;
      r := remeasure;
      var command := commands[|commands| - 1];
      commands := commands[..|commands| - 1];
      match command {
        case BlankLineIfMultiline(indentation, startingLine) =>
          Note(End(startingLine, line > startingLine));
          if line > startingLine {
            commands := commands + [Print(indentation, Break, Line(true, false))];
          }
        case Print(indentation, mode, d) =>
          r := HandleDocument(indentation, mode, Propagate(d).0, remeasure);
          if commands == [] && lineSuffix != [] {
            commands, lineSuffix := Reversed(lineSuffix), [];
          }
      }
    }

    /** Runs the commands to the end, for any fit measure. */
    method Build() returns (text: string)
      requires Valid()
      modifies this
      ensures text == Rendered(settings, Run(old(Value(false)), Fit()).written)
    {
      hide Step, Measure, Rendered, Column, Lines;
      var remeasure := false;
      while commands != []
        invariant Valid()
        invariant Run(Value(remeasure), Fit()) == Run(old(Value(false)), Fit())
        decreases Measure(Value(remeasure)), |lineSuffix|
      {
        StepProgresses(Value(remeasure), Fit());
        remeasure := Advance(remeasure);
      }
      text := out;
    }
  }

  /** The text of a document that ends in a hard line, where neither it nor a
      suffix ends in a blank-line check, or that has no suffix, is its layout. It
      differs from the document's strings only in white space, and in order only
      by line suffixes. */
  method PrintDocument(document: Document, settings: Settings, width: string -> nat, groupFits: GroupFits)
    returns (text: string)
    ensures PrintedInFull.PrintsInFull(document) ==>
      exists items ::
        && Resolves(document, Break, Root, items)
        && Truthful(Laid(items, []))
        && text == Rendered(settings, Laid(items, []))
        && Visible(text) == Content(settings, Laid(items, []))
    ensures PrintedInFull.PrintsInFull(document) && Settled(document) && Ink(settings.newLine) == "" ==>
      && multiset(Ink(text)) == multiset(DocumentInk(document))
      && (HasNoSuffix(document) ==> Ink(text) == DocumentInk(document))
  {
    hide Resolves, Rendered, Laid, Run, Truthful, Settled, Ink, DocumentInk, HasNoSuffix;
    var printer := new Printer(document, settings, width, groupFits);
    text := printer.Build();
    if PrintedInFull.PrintsInFull(document) {
      PrintedInFull.PrintingConserves(document, printer.Fit());
      var items :|
        && Resolves(document, Break, Root, items)
        && Run(PrintedInFull.Start(document), printer.Fit()).written == Laid(items, [])
        && Truthful(Laid(items, []));
      RenderedKeepsContent(settings, Laid(items, []));
      if Settled(document) && Ink(settings.newLine) == "" {
        TextKeepsInk(document, settings, items);
      }
    }
  }
}
