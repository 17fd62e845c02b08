/** Printing changes only white space: the ink of the text is the ink of the
    document. */
module PrintedInk {
  import opened Documents
  import opened Layout

  predicate IsSpace(c: char) {
    c == ' ' || c == '\t' || c == '\n' || c == '\r'
  }

  /** A text less its white space. */
  function Ink(s: string): string {
    if s == "" then "" else if IsSpace(s[0]) then Ink(s[1..]) else [s[0]] + Ink(s[1..])
  }

  lemma {:induction false} InkSplits(a: string, b: string)
    ensures Ink(a + b) == Ink(a) + Ink(b)
  {
    if a == "" {
      assert a + b == b;
    } else {
      assert (a + b)[1..] == a[1..] + b;
      InkSplits(a[1..], b);
    }
  }

  lemma {:induction false} BlanksHaveNoInk(s: string)
    requires forall i :: 0 <= i < |s| ==> Blank(s[i])
    ensures Ink(s) == ""
  {
    if s != "" {
      BlanksHaveNoInk(s[1..]);
    }
  }

  lemma TrimmedKeepsInk(s: string)
    ensures Ink(Trimmed(s)) == Ink(s)
  {
    hide Trimmed, Ink;
    TrimmedIsExact(s);
    var t := Trimmed(s);
    assert s == t + s[|t|..];
    InkSplits(t, s[|t|..]);
    BlanksHaveNoInk(s[|t|..]);
  }

  // ----- The ink of a document -----

  /** The strings of a document in order, less white space; of a choice, the
      side for a broken group. */
  function DocumentInk(d: Document): string
    decreases d
  {
    match d
    case String(text) => Ink(text)
    case Array(ds) => DocumentsInk(ds)
    case Indent(ds) => DocumentsInk(ds)
    case IndentIfBreak(ds) => DocumentsInk(ds)
    case BlankLineAfterIfMultiline(c) => DocumentInk(c)
    case Group(ds, _, _) => DocumentsInk(ds)
    case Line(_, _) => ""
    case LineSuffix(ds) => DocumentsInk(ds)
    case IfBreak(b, _) => DocumentInk(b)
    case BreakParent => ""
  }

  function DocumentsInk(ds: seq<Document>): string
    decreases ds
  {
    if ds == [] then "" else DocumentInk(ds[0]) + DocumentsInk(ds[1..])
  }

  /** Both sides of every choice have the same ink. */
  ghost predicate Settled(d: Document)
    decreases d
  {
    match d
    case Array(ds) => AllSettled(ds)
    case Indent(ds) => AllSettled(ds)
    case IndentIfBreak(ds) => AllSettled(ds)
    case BlankLineAfterIfMultiline(c) => Settled(c)
    case Group(ds, _, _) => AllSettled(ds)
    case LineSuffix(ds) => AllSettled(ds)
    case IfBreak(b, f) => Settled(b) && Settled(f) && DocumentInk(b) == DocumentInk(f)
    case _ => true
  }

  ghost predicate AllSettled(ds: seq<Document>)
    decreases ds
  {
    forall i :: 0 <= i < |ds| ==> Settled(ds[i])
  }

  // ----- The ink of items -----

  /** The ink of items in document order, suffixes included. */
  function ItemsInk(items: seq<Item>): string
    decreases items
  {
    if items == [] then ""
    else
      (match items[0]
       case Text(text) => Ink(text)
       case Suffix(contents) => ItemsInk(contents)
       case _ => "")
      + ItemsInk(items[1..])
  }

  lemma {:induction false} ItemsInkSplits(a: seq<Item>, b: seq<Item>)
    ensures ItemsInk(a + b) == ItemsInk(a) + ItemsInk(b)
    decreases |a|
  {
    hide Ink;
    if a == [] {
      assert a + b == b;
    } else {
      assert (a + b)[1..] == a[1..] + b;
      ItemsInkSplits(a[1..], b);
    }
  }

  lemma InkOfOne(item: Item)
    ensures ItemsInk([item]) ==
              match item
              case Text(text) => Ink(text)
              case Suffix(contents) => ItemsInk(contents)
              case _ => ""
  {
    assert ItemsInk([]) == "";
    assert [item][1..] == [];
  }

  /** Whatever is chosen, a settled document resolves to its own ink. */
  lemma {:induction false} ResolvedInk(d: Document, mode: Mode, indentation: Indentation, items: seq<Item>)
    requires Settled(d) && Resolves(d, mode, indentation, items)
    ensures ItemsInk(items) == DocumentInk(d)
    decreases Size(d), 0
  {
    hide ResolvesAll, MayChoose, Ink, ItemsInk;
    match d {
      case String(text) => InkOfOne(Text(text));
      case Array(ds) => ResolvedListInk(ds, mode, indentation, items);
      case Indent(ds) => ResolvedListInk(ds, mode, Nest(indentation), items);
      case IndentIfBreak(ds) =>
        ResolvedListInk(ds, mode, if mode == Break then Nest(indentation) else indentation, items);
      case BlankLineAfterIfMultiline(c) =>
        var lines, body, crossed :|
          Resolves(c, mode, indentation, body) && items == [Begin(lines)] + body + Ended(lines, crossed, indentation);
        ResolvedInk(c, mode, indentation, body);
        EndedInk(lines, body, crossed, indentation);
      case Group(ds, _, _) =>
        var asked, chosen, body :|
          && MayChoose(d, mode, asked, chosen)
          && ResolvesAll(ds, chosen, indentation, body)
          && items == Asking(asked) + body;
        ResolvedListInk(ds, chosen, indentation, body);
        ItemsInkSplits(Asking(asked), body);
        NoInk();
        if asked.Some? {
          InkOfOne(Asked(asked.value));
        }
      case Line(_, _) =>
        NoInk();
        InkOfOne(Space);
        InkOfOne(NewLine(indentation));
      case LineSuffix(ds) =>
        var body :| ResolvesAll(ds, mode, indentation, body) && items == [Suffix(body)];
        ResolvedListInk(ds, mode, indentation, body);
        InkOfOne(Suffix(body));
      case IfBreak(b, f) => ResolvedInk(if mode == Break then b else f, mode, indentation, items);
      case BreakParent => NoInk();
    }
  }

  lemma NoInk()
    ensures ItemsInk([]) == ""
  {
  }

  lemma EndedInk(lines: nat, body: seq<Item>, crossed: bool, indentation: Indentation)
    ensures ItemsInk([Begin(lines)] + body + Ended(lines, crossed, indentation)) == ItemsInk(body)
  {
    hide ItemsInk;
    var end, blank := [End(lines, crossed)], if crossed then [NewLine(indentation)] else [];
    ItemsInkSplits([Begin(lines)] + body, end + blank);
    ItemsInkSplits([Begin(lines)], body);
    ItemsInkSplits(end, blank);
    InkOfOne(Begin(lines));
    InkOfOne(End(lines, crossed));
    InkOfOne(NewLine(indentation));
    NoInk();
  }

  lemma {:induction false} ResolvedListInk(
    ds: seq<Document>, mode: Mode, indentation: Indentation, items: seq<Item>)
    requires AllSettled(ds) && ResolvesAll(ds, mode, indentation, items)
    ensures ItemsInk(items) == DocumentsInk(ds)
    decreases SizeAll(ds), 1
  {
    hide Resolves, Settled, ItemsInk, Ink;
    if ds == [] {
      NoInk();
    } else {
      var first, rest :|
        && Resolves(ds[0], mode, indentation, first)
        && ResolvesAll(ds[1..], mode, indentation, rest)
        && items == first + rest;
      ResolvedInk(ds[0], mode, indentation, first);
      ResolvedListInk(ds[1..], mode, indentation, rest);
      ItemsInkSplits(first, rest);
    }
  }

  // ----- The ink of what is written -----

  /** The layout moves ink only with suffixes, and loses none. */
  lemma {:induction false} LaidInk(items: seq<Item>, pending: seq<Item>)
    ensures multiset(ItemsInk(Laid(items, pending))) == multiset(ItemsInk(items)) + multiset(ItemsInk(pending))
    decreases Weight(items) + Weight(pending), |pending|
  {
    hide Ink, ItemsInk;
    NoInk();
    if items == [] {
      if pending != [] {
        LaidInk(pending, []);
      }
    } else {
      var item, rest := items[0], items[1..];
      FirstInk(items);
      match item {
        case NewLine(_) =>
          LaidInk([], pending);
          LaidInk(rest, []);
          LaidBreakInk(Laid([], pending), item, Laid(rest, []));
        case Suffix(contents) =>
          WeightSplits(pending, contents);
          ItemsInkSplits(pending, contents);
          LaidInk(rest, pending + contents);
        case _ =>
          LaidInk(rest, pending);
          FirstInk(Laid(items, pending));
      }
    }
  }

  lemma FirstInk(items: seq<Item>)
    requires items != []
    ensures ItemsInk(items) == ItemsInk([items[0]]) + ItemsInk(items[1..])
    ensures items[0].Suffix? ==> ItemsInk([items[0]]) == ItemsInk(items[0].contents)
    ensures items[0].NewLine? ==> ItemsInk([items[0]]) == ""
  {
    assert items == [items[0]] + items[1..];
    ItemsInkSplits([items[0]], items[1..]);
    InkOfOne(items[0]);
  }

  lemma LaidBreakInk(a: seq<Item>, line: Item, b: seq<Item>)
    requires line.NewLine?
    ensures ItemsInk(a + [line] + b) == ItemsInk(a) + ItemsInk(b)
  {
    hide ItemsInk;
    ItemsInkSplits(a + [line], b);
    ItemsInkSplits(a, [line]);
    InkOfOne(line);
  }

  ghost predicate Unsuffixed(items: seq<Item>) {
    forall i :: 0 <= i < |items| ==> !items[i].Suffix?
  }

  lemma {:induction false} LaidAsIs(items: seq<Item>)
    requires Unsuffixed(items)
    ensures Laid(items, []) == items
  {
    if items != [] {
      assert items == [items[0]] + items[1..];
      LaidAsIs(items[1..]);
    }
  }

  lemma {:induction false} ResolvedUnsuffixed(
    d: Document, mode: Mode, indentation: Indentation, items: seq<Item>)
    requires HasNoSuffix(d) && Resolves(d, mode, indentation, items)
    ensures Unsuffixed(items)
    decreases Size(d), 0
  {
    hide ResolvesAll, MayChoose;
    match d {
      case Array(ds) => ListUnsuffixed(ds, mode, indentation, items);
      case Indent(ds) => ListUnsuffixed(ds, mode, Nest(indentation), items);
      case IndentIfBreak(ds) =>
        ListUnsuffixed(ds, mode, if mode == Break then Nest(indentation) else indentation, items);
      case BlankLineAfterIfMultiline(c) =>
        var lines, body, crossed :|
          Resolves(c, mode, indentation, body) && items == [Begin(lines)] + body + Ended(lines, crossed, indentation);
        ResolvedUnsuffixed(c, mode, indentation, body);
      case Group(ds, _, _) =>
        var asked, chosen, body :|
          && MayChoose(d, mode, asked, chosen)
          && ResolvesAll(ds, chosen, indentation, body)
          && items == Asking(asked) + body;
        ListUnsuffixed(ds, chosen, indentation, body);
      case IfBreak(b, f) => ResolvedUnsuffixed(if mode == Break then b else f, mode, indentation, items);
      case _ =>
    }
  }

  lemma {:induction false} ListUnsuffixed(
    ds: seq<Document>, mode: Mode, indentation: Indentation, items: seq<Item>)
    requires (forall i :: 0 <= i < |ds| ==> HasNoSuffix(ds[i])) && ResolvesAll(ds, mode, indentation, items)
    ensures Unsuffixed(items)
    decreases SizeAll(ds), 1
  {
    hide Resolves, HasNoSuffix;
    if ds != [] {
      var first, rest :|
        && Resolves(ds[0], mode, indentation, first)
        && ResolvesAll(ds[1..], mode, indentation, rest)
        && items == first + rest;
      ResolvedUnsuffixed(ds[0], mode, indentation, first);
      ListUnsuffixed(ds[1..], mode, indentation, rest);
    }
  }

  lemma {:induction false} RenderedInk(settings: Settings, written: seq<Item>)
    requires Ink(settings.newLine) == "" && Unsuffixed(written)
    ensures Ink(Rendered(settings, written)) == ItemsInk(written)
  {
    hide Ink, ItemsInk, Trimmed, Prefix;
    if written == [] {
      NoInk();
      assert Ink("") == "" by {
        BlanksHaveNoInk("");
      }
    } else {
      var init, last := written[..|written| - 1], written[|written| - 1];
      var before := Rendered(settings, init);
      RenderedInk(settings, init);
      assert written == init + [last];
      ItemsInkSplits(init, [last]);
      InkOfOne(last);
      WrittenInk(settings, before, last);
    }
  }

  lemma WrittenInk(settings: Settings, before: string, item: Item)
    requires Ink(settings.newLine) == ""
    ensures item.Text? ==> Ink(before + item.text) == Ink(before) + Ink(item.text)
    ensures Ink(before + " ") == Ink(before)
    ensures item.NewLine? ==>
              Ink(Trimmed(before) + settings.newLine + Prefix(settings, item.indentation)) == Ink(before)
  {
    InkSplits(before, " ");
    BlanksHaveNoInk(" ");
    hide Ink, Trimmed, Prefix;
    if item.Text? {
      InkSplits(before, item.text);
    } else if item.NewLine? {
      var prefix := Prefix(settings, item.indentation);
      InkSplits(Trimmed(before) + settings.newLine, prefix);
      InkSplits(Trimmed(before), settings.newLine);
      TrimmedKeepsInk(before);
      PrefixIsBlank(settings, item.indentation);
      BlanksHaveNoInk(prefix);
    }
  }

  lemma {:induction false} LaidUnsuffixed(items: seq<Item>, pending: seq<Item>)
    ensures Unsuffixed(Laid(items, pending))
    decreases Weight(items) + Weight(pending), |pending|
  {
    if items == [] {
      if pending != [] {
        LaidUnsuffixed(pending, []);
      }
    } else {
      match items[0] {
        case NewLine(_) =>
          LaidUnsuffixed([], pending);
          LaidUnsuffixed(items[1..], []);
        case Suffix(contents) =>
          WeightSplits(pending, contents);
          LaidUnsuffixed(items[1..], pending + contents);
        case _ => LaidUnsuffixed(items[1..], pending);
      }
    }
  }

  /** The text of a settled document has the document's ink: every character of
      it, and in the same order if no line suffix moves any. */
  lemma TextKeepsInk(d: Document, settings: Settings, items: seq<Item>)
    requires Settled(d) && Ink(settings.newLine) == "" && Resolves(d, Break, Root, items)
    ensures var ink := Ink(Rendered(settings, Laid(items, [])));
            && multiset(ink) == multiset(DocumentInk(d))
            && (HasNoSuffix(d) ==> ink == DocumentInk(d))
  {
    hide Resolves, Settled, HasNoSuffix, Laid, Rendered, ItemsInk, Ink, DocumentInk;
    ResolvedInk(d, Break, Root, items);
    LaidUnsuffixed(items, []);
    RenderedInk(settings, Laid(items, []));
    LaidInk(items, []);
    NoInk();
    assert multiset(ItemsInk([])) == multiset{};
    if HasNoSuffix(d) {
      ResolvedUnsuffixed(d, Break, Root, items);
      LaidAsIs(items);
    }
  }
}
