/** What printing a document means: the items it resolves to once every group
    has chosen a mode, the order they are written in, and the text they give. */
module Layout {
  import opened Wrappers
  import opened Documents

  datatype Mode = Break | Flat

  datatype Indentation = Root | Indented | Combined(nested: seq<Indentation>)

  datatype Item =
    | Text(text: string)
    | Space
    | NewLine(indentation: Indentation)
    | Suffix(contents: seq<Item>)
    | Begin(lines: nat)
    | End(lines: nat, crossed: bool)
    | Asked(fits: bool)

  // `Begin`, `End` and `Asked` print nothing. The first two stand around a
  // document that is followed by a blank line if it crossed a line, and carry
  // the number of lines at its start and the answer at its end. `Asked` stands
  // before a group whose fit was measured, and carries the answer.

  function Nest(indentation: Indentation): Indentation {
    Combined([Indented, indentation])
  }

  // ----- Resolving a document -----

  /** A group marked never-break stays flat; one that must break, or that
      follows a broken parent, breaks. Any other obeys the fit measure when it is
      asked; it need not be asked inside a flat parent, and then stays flat. */
  ghost predicate MayChoose(group: Document, outer: Mode, asked: Option<bool>, chosen: Mode)
    requires group.Group?
  {
    if group.breakMode == Never then asked == None && chosen == Flat
    else if MustBreak(group) || (group.breakMode == Parent && outer == Break) then asked == None && chosen == Break
    else match asked
      case Some(fits) => chosen == if fits then Flat else Break
      case None => outer == Flat && chosen == Flat && group.breakMode != Independent
  }

  function Asking(asked: Option<bool>): seq<Item> {
    if asked.Some? then [Asked(asked.value)] else []
  }

  /** `items` is the document in document order, with the chosen branches. */
  ghost predicate Resolves(d: Document, mode: Mode, indentation: Indentation, items: seq<Item>)
    decreases Size(d), 0
  {
    match d
    case String(text) => items == [Text(text)]
    case Array(ds) => ResolvesAll(ds, mode, indentation, items)
    case Indent(ds) => ResolvesAll(ds, mode, Nest(indentation), items)
    case IndentIfBreak(ds) => ResolvesAll(ds, mode, if mode == Break then Nest(indentation) else indentation, items)
    case BlankLineAfterIfMultiline(c) =>
      exists lines, body, crossed ::
        Resolves(c, mode, indentation, body) && items == [Begin(lines)] + body + Ended(lines, crossed, indentation)
    case Group(ds, _, _) =>
      exists asked, chosen, body ::
        && MayChoose(d, mode, asked, chosen)
        && ResolvesAll(ds, chosen, indentation, body)
        && items == Asking(asked) + body
    case Line(hard, soft) =>
      items == if mode == Break || hard then [NewLine(indentation)] else if soft then [] else [Space]
    case LineSuffix(ds) => exists body :: ResolvesAll(ds, mode, indentation, body) && items == [Suffix(body)]
    case IfBreak(b, f) => Resolves(if mode == Break then b else f, mode, indentation, items)
    case BreakParent => items == []
  }

  /** The end of such a document, with its blank line if it crossed a line. */
  function Ended(lines: nat, crossed: bool, indentation: Indentation): seq<Item> {
    [End(lines, crossed)] + if crossed then [NewLine(indentation)] else []
  }

  ghost predicate ResolvesAll(ds: seq<Document>, mode: Mode, indentation: Indentation, items: seq<Item>)
    decreases SizeAll(ds), 1
  {
    if ds == [] then items == []
    else
      exists first, rest ::
        && Resolves(ds[0], mode, indentation, first)
        && ResolvesAll(ds[1..], mode, indentation, rest)
        && items == first + rest
  }

  // ----- The order of writing -----

  function Weight(items: seq<Item>): nat
    decreases items
  {
    if items == [] then 0
    else
      (match items[0]
       case Suffix(contents) => 1 + Weight(contents)
       case _ => 1)
      + Weight(items[1..])
  }

  lemma {:induction false} WeightSplits(a: seq<Item>, b: seq<Item>)
    ensures Weight(a + b) == Weight(a) + Weight(b)
  {
    if a == [] {
      assert a + b == b;
    } else {
      assert (a + b)[1..] == a[1..] + b;
      WeightSplits(a[1..], b);
    }
  }

  /** Each line is its own items, then the suffixes that came up on it, laid out
      the same way, then the line break. `pending` holds the suffixes so far. */
  function Laid(items: seq<Item>, pending: seq<Item>): seq<Item>
    decreases Weight(items) + Weight(pending), |pending|
  {
    if items == [] then
      if pending == [] then [] else Laid(pending, [])
    else
      match items[0]
      case NewLine(_) => Laid([], pending) + [items[0]] + Laid(items[1..], [])
      case Suffix(contents) =>
        WeightSplits(pending, contents);
        Laid(items[1..], pending + contents)
      case _ => [items[0]] + Laid(items[1..], pending)
  }

  lemma {:induction false} LaidAcrossBreak(items: seq<Item>, pending: seq<Item>, line: Item, rest: seq<Item>)
    requires line.NewLine?
    ensures Laid(items + [line] + rest, pending) == Laid(items, pending) + [line] + Laid(rest, [])
    decreases Weight(items) + Weight(pending), |pending|
  {
    var all := items + [line] + rest;
    if items == [] {
      assert all == [line] + rest;
    } else {
      assert all[0] == items[0] && all[1..] == items[1..] + [line] + rest;
      match items[0] {
        case NewLine(_) => LaidAcrossBreak(items[1..], [], line, rest);
        case Suffix(contents) =>
          WeightSplits(pending, contents);
          LaidAcrossBreak(items[1..], pending + contents, line, rest);
        case _ => LaidAcrossBreak(items[1..], pending, line, rest);
      }
    }
  }

  /** The items of a line that are not suffixes, in document order. */
  function Plain(items: seq<Item>): seq<Item> {
    if items == [] then []
    else if items[0].Suffix? then Plain(items[1..])
    else [items[0]] + Plain(items[1..])
  }

  /** The contents of the suffixes among the items, in document order. */
  function Attached(items: seq<Item>): seq<Item> {
    if items == [] then []
    else if items[0].Suffix? then items[0].contents + Attached(items[1..])
    else Attached(items[1..])
  }

  ghost predicate OneLine(items: seq<Item>) {
    forall i :: 0 <= i < |items| ==> !items[i].NewLine?
  }

  /** A line break is written after the items that precede it on its line and
      after everything their suffixes hold; the lines after it are laid out on
      their own. */
  lemma SuffixesMoveToLineEnd(line: seq<Item>, end: Item, rest: seq<Item>)
    requires OneLine(line) && end.NewLine?
    ensures Laid(line + [end] + rest, []) == Plain(line) + Laid(Attached(line), []) + [end] + Laid(rest, [])
  {
    LaidAcrossBreak(line, [], end, rest);
    LaidLine(line, []);
    assert [] + Attached(line) == Attached(line);
  }

  /** A last line without a break ends with its suffixes all the same. */
  lemma {:induction false} LaidLine(line: seq<Item>, pending: seq<Item>)
    requires OneLine(line)
    ensures Laid(line, pending) == Plain(line) + Laid(pending + Attached(line), [])
    decreases |line|
  {
    if line == [] {
      assert pending + Attached(line) == pending;
    } else if line[0].Suffix? {
      LaidLine(line[1..], pending + line[0].contents);
      assert pending + line[0].contents + Attached(line[1..]) == pending + Attached(line);
    } else {
      LaidLine(line[1..], pending);
    }
  }

  /** Everything to be written, however deep in suffixes, with multiplicity. */
  ghost function Leaves(items: seq<Item>): multiset<Item>
    decreases items
  {
    if items == [] then multiset{}
    else (if items[0].Suffix? then Leaves(items[0].contents) else multiset{items[0]}) + Leaves(items[1..])
  }

  lemma {:induction false} LeavesSplit(a: seq<Item>, b: seq<Item>)
    ensures Leaves(a + b) == Leaves(a) + Leaves(b)
  {
    if a == [] {
      assert a + b == b;
    } else {
      assert (a + b)[1..] == a[1..] + b;
      LeavesSplit(a[1..], b);
    }
  }

  /** Nothing is written twice and nothing is left out. */
  lemma {:induction false} LaidKeepsLeaves(items: seq<Item>, pending: seq<Item>)
    ensures multiset(Laid(items, pending)) == Leaves(items) + Leaves(pending)
    decreases Weight(items) + Weight(pending), |pending|
  {
    if items == [] {
      if pending != [] {
        LaidKeepsLeaves(pending, []);
      }
    } else {
      match items[0] {
        case NewLine(_) =>
          LaidKeepsLeaves([], pending);
          LaidKeepsLeaves(items[1..], []);
        case Suffix(contents) =>
          WeightSplits(pending, contents);
          LeavesSplit(pending, contents);
          LaidKeepsLeaves(items[1..], pending + contents);
        case _ => LaidKeepsLeaves(items[1..], pending);
      }
    }
  }

  // ----- The text written -----

  datatype Settings = Settings(useTabs: bool, tabWidth: nat, newLine: string)

  predicate Blank(c: char) {
    c == ' ' || c == '\t'
  }

  function Trimmed(s: string): string {
    if s != "" && Blank(s[|s| - 1]) then Trimmed(s[..|s| - 1]) else s
  }

  function Repeated(c: char, n: nat): string {
    seq(n, _ => c)
  }

  function Prefix(settings: Settings, indentation: Indentation): string
    decreases indentation
  {
    match indentation
    case Root => ""
    case Indented => if settings.useTabs then "\t" else Repeated(' ', settings.tabWidth)
    case Combined(nested) => Prefixes(settings, nested)
  }

  function Prefixes(settings: Settings, nested: seq<Indentation>): string
    decreases nested
  {
    if nested == [] then "" else Prefix(settings, nested[0]) + Prefixes(settings, nested[1..])
  }

  /** The text of what was written; a line break first trims the line it ends. */
  function Rendered(settings: Settings, written: seq<Item>): string {
    if written == [] then ""
    else
      var before, last := Rendered(settings, written[..|written| - 1]), written[|written| - 1];
      match last
      case Text(text) => before + text
      case Space => before + " "
      case NewLine(indentation) => Trimmed(before) + settings.newLine + Prefix(settings, indentation)
      case _ => before
  }

  function Visible(s: string): string {
    if s == "" then "" else if Blank(s[0]) then Visible(s[1..]) else [s[0]] + Visible(s[1..])
  }

  /** What the items say, less spaces and tabs. */
  function Content(settings: Settings, written: seq<Item>): string {
    if written == [] then ""
    else
      var before, last := Content(settings, written[..|written| - 1]), written[|written| - 1];
      match last
      case Text(text) => before + Visible(text)
      case NewLine(_) => before + Visible(settings.newLine)
      case _ => before
  }

  lemma {:induction false} VisibleSplits(a: string, b: string)
    ensures Visible(a + b) == Visible(a) + Visible(b)
  {
    if a == "" {
      assert a + b == b;
    } else {
      assert (a + b)[1..] == a[1..] + b;
      VisibleSplits(a[1..], b);
    }
  }

  lemma {:induction false} TrimmedKeepsVisible(s: string)
    ensures Visible(Trimmed(s)) == Visible(s)
  {
    if s != "" && Blank(s[|s| - 1]) {
      TrimmedKeepsVisible(s[..|s| - 1]);
      assert s == s[..|s| - 1] + [s[|s| - 1]];
      VisibleSplits(s[..|s| - 1], [s[|s| - 1]]);
    }
  }

  lemma {:induction false} BlanksAreInvisible(s: string)
    requires forall i :: 0 <= i < |s| ==> Blank(s[i])
    ensures Visible(s) == ""
  {
    if s != "" {
      BlanksAreInvisible(s[1..]);
    }
  }

  lemma {:induction false} PrefixIsBlank(settings: Settings, indentation: Indentation)
    ensures forall i :: 0 <= i < |Prefix(settings, indentation)| ==> Blank(Prefix(settings, indentation)[i])
    decreases indentation
  {
    if indentation.Combined? {
      PrefixesAreBlank(settings, indentation.nested);
    }
  }

  lemma {:induction false} PrefixesAreBlank(settings: Settings, nested: seq<Indentation>)
    ensures forall i :: 0 <= i < |Prefixes(settings, nested)| ==> Blank(Prefixes(settings, nested)[i])
    decreases nested
  {
    if nested != [] {
      PrefixIsBlank(settings, nested[0]);
      PrefixesAreBlank(settings, nested[1..]);
    }
  }

  /** The text says what the items say: only spaces and tabs are added or trimmed. */
  lemma {:induction false} RenderedKeepsContent(settings: Settings, written: seq<Item>)
    ensures Visible(Rendered(settings, written)) == Content(settings, written)
  {
    if written != [] {
      var init, last := written[..|written| - 1], written[|written| - 1];
      var before := Rendered(settings, init);
      RenderedKeepsContent(settings, init);
      match last {
        case Text(text) => VisibleSplits(before, text);
        case Space => VisibleSplits(before, " ");
        case NewLine(indentation) =>
          VisibleSplits(Trimmed(before) + settings.newLine, Prefix(settings, indentation));
          VisibleSplits(Trimmed(before), settings.newLine);
          TrimmedKeepsVisible(before);
          PrefixIsBlank(settings, indentation);
          BlanksAreInvisible(Prefix(settings, indentation));
        case _ =>
      }
    }
  }

  // ----- The lines written -----

  /** `t` is `s` without the spaces and tabs at its end. */
  ghost predicate IsTrimmed(t: string, s: string) {
    && t <= s
    && (forall i :: |t| <= i < |s| ==> s[i] == ' ' || s[i] == '\t')
    && (t != "" ==> t[|t| - 1] != ' ' && t[|t| - 1] != '\t')
  }

  lemma {:induction false} TrimmedIsExact(s: string)
    ensures IsTrimmed(Trimmed(s), s)
  {
    if s != "" && Blank(s[|s| - 1]) {
      TrimmedIsExact(s[..|s| - 1]);
    }
  }

  lemma {:induction false} TrimKeepsSolid(start: string, s: string)
    requires start <= s && start != "" && !Blank(start[|start| - 1])
    ensures start <= Trimmed(s)
  {
    if s != "" && Blank(s[|s| - 1]) {
      TrimKeepsSolid(start, s[..|s| - 1]);
    }
  }

  /** Whatever is written later, a line that a break ended stays in the text, and
      it is what had been written, less the spaces and tabs at its end. */
  lemma {:induction false} EndedLineStays(settings: Settings, written: seq<Item>, i: nat) returns (line: string)
    requires settings.newLine != "" && !Blank(settings.newLine[|settings.newLine| - 1])
    requires i < |written| && written[i].NewLine?
    ensures IsTrimmed(line, Rendered(settings, written[..i]))
    ensures line + settings.newLine <= Rendered(settings, written)
  {
    hide Prefix, Trimmed, IsTrimmed;
    var init, last := written[..|written| - 1], written[|written| - 1];
    var before := Rendered(settings, init);
    if i == |written| - 1 {
      TrimmedIsExact(before);
      line := Trimmed(before);
    } else {
      line := EndedLineStays(settings, init, i);
      assert init[..i] == written[..i];
      TrimKeepsSolid(line + settings.newLine, before);
    }
  }

  /** How deep an indentation is. */
  function Depth(indentation: Indentation): nat
    decreases indentation
  {
    match indentation
    case Root => 0
    case Indented => 1
    case Combined(nested) => DepthAll(nested)
  }

  function DepthAll(nested: seq<Indentation>): nat
    decreases nested
  {
    if nested == [] then 0 else Depth(nested[0]) + DepthAll(nested[1..])
  }

  lemma NestDeepens(indentation: Indentation)
    ensures Depth(Nest(indentation)) == Depth(indentation) + 1
  {
    var nested := [Indented, indentation];
    assert nested[0] == Indented && nested[1..] == [indentation];
    assert DepthAll(nested) == Depth(Indented) + DepthAll([indentation]);
    assert [indentation][1..] == [];
    assert DepthAll([indentation]) == Depth(indentation) + DepthAll([]);
  }

  /** The characters of one level of indentation, and how many. */
  function Blanks(settings: Settings, depth: nat): string {
    if settings.useTabs then Repeated('\t', depth) else Repeated(' ', depth * settings.tabWidth)
  }

  lemma BlanksJoin(settings: Settings, m: nat, n: nat)
    ensures Blanks(settings, m) + Blanks(settings, n) == Blanks(settings, m + n)
  {
    assert (m + n) * settings.tabWidth == m * settings.tabWidth + n * settings.tabWidth;
  }

  /** A line starts with its depth in tabs, or in tab widths of spaces. */
  lemma {:induction false} PrefixIsDepth(settings: Settings, indentation: Indentation)
    ensures Prefix(settings, indentation) == Blanks(settings, Depth(indentation))
    decreases indentation
  {
    if indentation.Combined? {
      PrefixesAreDepth(settings, indentation.nested);
    }
  }

  lemma {:induction false} PrefixesAreDepth(settings: Settings, nested: seq<Indentation>)
    ensures Prefixes(settings, nested) == Blanks(settings, DepthAll(nested))
    decreases nested
  {
    if nested != [] {
      PrefixIsDepth(settings, nested[0]);
      PrefixesAreDepth(settings, nested[1..]);
      BlanksJoin(settings, Depth(nested[0]), DepthAll(nested[1..]));
    }
  }

  // ----- Blank lines -----

  function Newlines(text: string): nat {
    if text == "" then 0 else Newlines(text[..|text| - 1]) + if text[|text| - 1] == '\n' then 1 else 0
  }

  /** The line breaks written so far. */
  function Lines(written: seq<Item>): nat {
    if written == [] then 0
    else
      Lines(written[..|written| - 1]) +
      match written[|written| - 1]
      case Text(text) => Newlines(text)
      case NewLine(_) => 1
      case _ => 0
  }

  ghost predicate CrossesLine(items: seq<Item>) {
    exists i :: 0 <= i < |items| && (items[i].NewLine? || (items[i].Text? && '\n' in items[i].text))
  }

  /** The numbers and answers in what was written are right. */
  ghost predicate Truthful(written: seq<Item>) {
    written == [] ||
    (var before := written[..|written| - 1];
     && Truthful(before)
     && match written[|written| - 1]
        case Begin(lines) => lines == Lines(before)
        case End(lines, crossed) => crossed <==> Lines(before) > lines
        case _ => true)
  }

  lemma {:induction false} NewlinesIffPresent(text: string)
    ensures Newlines(text) > 0 <==> '\n' in text
  {
    if text != "" {
      NewlinesIffPresent(text[..|text| - 1]);
      assert text == text[..|text| - 1] + [text[|text| - 1]];
    }
  }

  lemma {:induction false} LinesGrow(before: seq<Item>, since: seq<Item>)
    ensures Lines(before + since) >= Lines(before)
    ensures Lines(before + since) > Lines(before) <==> CrossesLine(since)
  {
    if since == [] {
      assert before + since == before;
    } else {
      var init, last := since[..|since| - 1], since[|since| - 1];
      LinesGrow(before, init);
      assert (before + since)[..|before + since| - 1] == before + init;
      assert forall i :: 0 <= i < |init| ==> init[i] == since[i];
      if last.Text? {
        NewlinesIffPresent(last.text);
      }
    }
  }

  lemma {:induction false} TruthAt(written: seq<Item>, i: nat)
    requires Truthful(written) && i < |written|
    ensures written[i].Begin? ==> written[i].lines == Lines(written[..i])
    ensures written[i].End? ==> (written[i].crossed <==> Lines(written[..i]) > written[i].lines)
  {
    if i < |written| - 1 {
      var init := written[..|written| - 1];
      TruthAt(init, i);
      assert init[..i] == written[..i];
    }
  }

  /** The blank line after a document is there exactly if what was written from
      its beginning to its end crossed a line boundary. */
  lemma BlankLineIffMultiline(written: seq<Item>, i: nat, j: nat)
    requires Truthful(written) && i < j < |written|
    requires written[i].Begin? && written[j].End? && written[i].lines == written[j].lines
    ensures written[j].crossed <==> CrossesLine(written[i + 1..j])
  {
    TruthAt(written, i);
    TruthAt(written, j);
    var since := written[i + 1..j];
    assert written[..j] == written[..i] + ([written[i]] + since);
    LinesGrow(written[..i], [written[i]] + since);
    CrossesAfter(written[i], since);
  }

  lemma CrossesAfter(mark: Item, since: seq<Item>)
    requires mark.Begin?
    ensures CrossesLine([mark] + since) <==> CrossesLine(since)
  {
    var all := [mark] + since;
    assert forall k :: 0 <= k < |since| ==> all[k + 1] == since[k];
    assert forall k :: 1 <= k < |all| ==> all[k] == since[k - 1];
  }
}
