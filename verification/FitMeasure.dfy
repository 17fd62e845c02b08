/** What the answers of the fit measure do to what is printed. */
module FitMeasure {
  import opened Wrappers
  import opened Documents
  import opened Layout
  import opened PrintMachine
  import opened PrintedLayout
  import opened PrintedInFull
  import opened PrintedInk

  // ----- Answers in what is written -----

  /** Every answer among the items, however deep, is `fits`. */
  ghost predicate AllAnswer(items: seq<Item>, fits: bool) {
    Asked(!fits) !in Leaves(items)
  }

  ghost predicate Unbroken(items: seq<Item>) {
    forall indentation :: NewLine(indentation) !in Leaves(items)
  }

  lemma AnswersSplit(a: seq<Item>, b: seq<Item>, fits: bool)
    requires AllAnswer(a + b, fits)
    ensures AllAnswer(a, fits) && AllAnswer(b, fits)
  {
    LeavesSplit(a, b);
  }

  lemma UnbrokenJoins(a: seq<Item>, b: seq<Item>)
    requires Unbroken(a) && Unbroken(b)
    ensures Unbroken(a + b)
  {
    LeavesSplit(a, b);
  }

  // ----- A measure that always says yes -----

  /** Nothing in the document breaks a line of its own accord: no hard line, no
      group that must break, no blank line after a part. */
  ghost predicate Quiet(d: Document)
    decreases d
  {
    match d
    case Array(ds) => QuietAll(ds)
    case Indent(ds) => QuietAll(ds)
    case IndentIfBreak(ds) => QuietAll(ds)
    case BlankLineAfterIfMultiline(_) => false
    case Group(ds, _, _) => !MustBreak(d) && QuietAll(ds)
    case Line(hard, _) => !hard
    case LineSuffix(ds) => QuietAll(ds)
    case IfBreak(b, f) => Quiet(b) && Quiet(f)
    case _ => true
  }

  ghost predicate QuietAll(ds: seq<Document>)
    decreases ds
  {
    forall i :: 0 <= i < |ds| ==> Quiet(ds[i])
  }

  /** A quiet document inside a flat group stays on its line if every measured
      group fits. */
  lemma {:induction false} FlatIsUnbroken(d: Document, indentation: Indentation, items: seq<Item>)
    requires Quiet(d) && Resolves(d, Flat, indentation, items) && AllAnswer(items, true)
    ensures Unbroken(items)
    decreases Size(d), 1
  {
    hide ResolvesAll, MustBreak, Leaves;
    match d {
      case String(text) => LeafAlone(Text(text));
      case Array(ds) => FlatListIsUnbroken(ds, indentation, items);
      case Indent(ds) => FlatListIsUnbroken(ds, Nest(indentation), items);
      case IndentIfBreak(ds) => FlatListIsUnbroken(ds, indentation, items);
      case Group(ds, _, _) => FlatGroupIsUnbroken(d, Flat, indentation, items);
      case Line(_, _) =>
        LeafAlone(Space);
        NoLeaves();
      case LineSuffix(ds) =>
        var body :| ResolvesAll(ds, Flat, indentation, body) && items == [Suffix(body)];
        SuffixLeaves(body);
        FlatListIsUnbroken(ds, indentation, body);
      case IfBreak(_, f) => FlatIsUnbroken(f, indentation, items);
      case BreakParent => NoLeaves();
    }
  }

  /** A group that is asked, or follows a flat parent, is flat if the answer is yes. */
  lemma {:induction false} FlatGroupIsUnbroken(d: Document, mode: Mode, indentation: Indentation, items: seq<Item>)
    requires d.Group? && Quiet(d) && (d.breakMode == Parent ==> mode == Flat)
    requires Resolves(d, mode, indentation, items) && AllAnswer(items, true)
    ensures Unbroken(items)
    decreases Size(d), 0
  {
    hide ResolvesAll, MustBreak, Leaves;
    var asked, chosen, body :|
      && MayChoose(d, mode, asked, chosen)
      && ResolvesAll(d.contents, chosen, indentation, body)
      && items == Asking(asked) + body;
    AnswersSplit(Asking(asked), body, true);
    if asked.Some? {
      LeafAlone(Asked(asked.value));
    } else {
      NoLeaves();
    }
    assert chosen == Flat;
    FlatListIsUnbroken(d.contents, indentation, body);
    UnbrokenJoins(Asking(asked), body);
  }

  lemma {:induction false} FlatListIsUnbroken(ds: seq<Document>, indentation: Indentation, items: seq<Item>)
    requires QuietAll(ds) && ResolvesAll(ds, Flat, indentation, items) && AllAnswer(items, true)
    ensures Unbroken(items)
    decreases SizeAll(ds), 2
  {
    hide Resolves, Leaves, Quiet;
    if ds == [] {
      NoLeaves();
    } else {
      var first, rest :|
        && Resolves(ds[0], Flat, indentation, first)
        && ResolvesAll(ds[1..], Flat, indentation, rest)
        && items == first + rest;
      AnswersSplit(first, rest, true);
      FlatIsUnbroken(ds[0], indentation, first);
      FlatListIsUnbroken(ds[1..], indentation, rest);
      UnbrokenJoins(first, rest);
    }
  }

  lemma LeafAlone(item: Item)
    requires !item.Suffix?
    ensures Leaves([item]) == multiset{item}
  {
  }

  lemma NoLeaves()
    ensures Leaves([]) == multiset{}
  {
  }

  lemma SuffixLeaves(body: seq<Item>)
    ensures Leaves([Suffix(body)]) == Leaves(body)
  {
  }

  // ----- A measure that always says no -----

  /** The lines that stand directly in a list. */
  function DirectLines(ds: seq<Document>): nat {
    if ds == [] then 0 else DirectLines(ds[1..]) + if ds[0].Line? then 1 else 0
  }

  lemma {:induction false} BrokenLines(ds: seq<Document>, indentation: Indentation, items: seq<Item>)
    requires ResolvesAll(ds, Break, indentation, items)
    ensures Leaves(items)[NewLine(indentation)] >= DirectLines(ds)
    decreases |ds|
  {
    hide Leaves;
    if ds != [] {
      var first, rest :|
        && Resolves(ds[0], Break, indentation, first)
        && ResolvesAll(ds[1..], Break, indentation, rest)
        && items == first + rest;
      BrokenLines(ds[1..], indentation, rest);
      LeavesSplit(first, rest);
      if ds[0].Line? {
        LeafAlone(NewLine(indentation));
      }
    }
  }

  /** A group that is free to choose in a broken parent, or measured on its own,
      breaks all its lines if the answer is no. */
  lemma WideGroupBreaks(d: Document, mode: Mode, indentation: Indentation, items: seq<Item>)
    requires d.Group? && d.breakMode != Never && (mode == Break || d.breakMode == Independent)
    requires Resolves(d, mode, indentation, items) && AllAnswer(items, false)
    ensures Leaves(items)[NewLine(indentation)] >= DirectLines(d.contents)
  {
    hide ResolvesAll, MustBreak, Leaves;
    var asked, chosen, body :|
      && MayChoose(d, mode, asked, chosen)
      && ResolvesAll(d.contents, chosen, indentation, body)
      && items == Asking(asked) + body;
    AnswersSplit(Asking(asked), body, false);
    LeavesSplit(Asking(asked), body);
    if asked.Some? {
      LeafAlone(Asked(asked.value));
    }
    BrokenLines(d.contents, indentation, body);
  }

  // ----- What a run asks -----

  function Steps(s: State, fits: Fits, n: nat): State {
    if n == 0 then s
    else
      var before := Steps(s, fits, n - 1);
      if before.commands == [] then before else Step(before, fits)
  }

  /** The command on top prints a group that is not to stay flat, for which a
      mode is chosen afresh: in a broken parent, if it is measured on its own, or
      after a hard line in a flat parent. */
  ghost predicate ChoosesAfresh(s: State) {
    && s.commands != [] && TopGroup(s)
    && Top(s).breakMode != Never
    && (TopMode(s) == Break || Top(s).breakMode == Independent || s.remeasure)
  }

  ghost predicate TopGroup(s: State)
    requires s.commands != []
  {
    s.commands[|s.commands| - 1].Print? && s.commands[|s.commands| - 1].document.Group?
  }

  /** The group on top, with its breaks propagated. */
  ghost function Top(s: State): (d: Document)
    requires s.commands != [] && TopGroup(s)
    ensures d.Group?
  {
    Propagate(s.commands[|s.commands| - 1].document).0
  }

  ghost function TopMode(s: State): Mode
    requires s.commands != [] && TopGroup(s)
  {
    s.commands[|s.commands| - 1].mode
  }

  /** What the fit measure says about the group on top. */
  ghost function Answer(s: State, fits: Fits): bool
    requires s.commands != [] && TopGroup(s)
  {
    fits(s.(commands := s.commands[..|s.commands| - 1], remeasure := false), Top(s))
  }

  /** A mode is chosen afresh for a group that is free to choose. */
  ghost predicate Asks(s: State) {
    ChoosesAfresh(s) && !MustBreak(Top(s)) && !(Top(s).breakMode == Parent && TopMode(s) == Break)
  }

  /** The measure is asked exactly there, and its answer is what is noted. */
  lemma AskedIff(s: State, fits: Fits)
    requires s.commands != []
    ensures Asks(s) ==> Step(s, fits).written == s.written + [Asked(Answer(s, fits))]
    ensures !Asks(s) ==> WritesNoAnswer(s.written, Step(s, fits).written)
  {
    hide Pushed, Reversed, Lines, Propagate, MustBreak;
    var rest, top := s.commands[..|s.commands| - 1], s.commands[|s.commands| - 1];
    if top.Print? {
      if top.document.Group? {
        MarksAreExact(top.document);
        GroupAsks(s.(commands := rest), top.indentation, top.mode, Top(s), fits);
      } else {
        KindStays(top.document);
        OthersDoNotAsk(s.(commands := rest), top.indentation, top.mode, Propagate(top.document).0, fits);
      }
      hide Handle;
    } else {
      assert Step(s, fits).written == s.written + [End(top.startingLine, Lines(s.written) > top.startingLine)];
    }
  }

  ghost predicate WritesNoAnswer(before: seq<Item>, after: seq<Item>) {
    after == before || exists item: Item :: !item.Asked? && after == before + [item]
  }

  lemma KindStays(d: Document)
    ensures Propagate(d).0.Group? <==> d.Group?
  {
  }

  lemma GroupAsks(s: State, indentation: Indentation, mode: Mode, group: Document, fits: Fits)
    requires group.Group?
    ensures var afresh := group.breakMode != Never && (mode == Break || group.breakMode == Independent || s.remeasure);
            var settled := group.breakMode == Force || (group.breakMode == Parent && mode == Break);
            Handle(s, indentation, mode, group, fits).written ==
            s.written + if afresh && !settled then [Asked(fits(s.(remeasure := false), group))] else []
  {
    hide Pushed;
  }

  lemma OthersDoNotAsk(s: State, indentation: Indentation, mode: Mode, d: Document, fits: Fits)
    requires !d.Group?
    ensures WritesNoAnswer(s.written, Handle(s, indentation, mode, d, fits).written)
  {
    hide Pushed, Reversed, Lines;
    var s' := Handle(s, indentation, mode, d, fits);
    assert s'.written != s.written ==> s'.written == s.written + [s'.written[|s.written|]];
  }

  /** Every answer in what a run wrote was given by the measure, for the group
      that was on top when that much was written. */
  lemma {:induction false} AnswersAreMeasured(s: State, fits: Fits, n: nat, i: nat) returns (m: nat)
    requires |s.written| <= i < |Steps(s, fits, n).written| && Steps(s, fits, n).written[i].Asked?
    ensures m < n && ChoosesAfresh(Steps(s, fits, m))
    ensures Steps(s, fits, m).written == Steps(s, fits, n).written[..i]
    ensures Steps(s, fits, n).written[i].fits == Answer(Steps(s, fits, m), fits)
  {
    hide Step, ChoosesAfresh, Answer, MustBreak;
    assert n > 0;
    var before, after := Steps(s, fits, n - 1), Steps(s, fits, n);
    if before.commands == [] {
      m := AnswersAreMeasured(s, fits, n - 1, i);
    } else {
      AskedIff(before, fits);
      if i < |before.written| {
        assert after.written[i] == before.written[i] && after.written[..i] == before.written[..i];
        m := AnswersAreMeasured(s, fits, n - 1, i);
      } else {
        m := n - 1;
        assert after.written[..i] == before.written;
      }
    }
  }

  lemma {:induction false} StepsShift(s: State, fits: Fits, n: nat)
    requires s.commands != []
    ensures Steps(s, fits, n + 1) == Steps(Step(s, fits), fits, n)
  {
    hide Step;
    if n > 0 {
      StepsShift(s, fits, n - 1);
    }
  }

  /** A whole run is so many steps. */
  lemma {:induction false} RunIsSteps(s: State, fits: Fits) returns (n: nat)
    ensures Steps(s, fits, n) == Run(s, fits) && Run(s, fits).commands == []
    decreases Measure(s), |s.suffixes|
  {
    hide Step, Measure;
    n := 0;
    if s.commands != [] {
      StepProgresses(s, fits);
      n := RunIsSteps(Step(s, fits), fits);
      StepsShift(s, fits, n);
      n := n + 1;
    }
  }

  /** A hard line is met in a flat group. */
  ghost predicate MeetsFlatHardLine(s: State) {
    && s.commands != []
    && var top := s.commands[|s.commands| - 1];
       top.Print? && top.mode == Flat && top.document.Line? && top.document.hard
  }

  lemma StepRemeasures(s: State, fits: Fits)
    requires s.commands != []
    ensures Step(s, fits).remeasure <==> MeetsFlatHardLine(s) || (s.remeasure && !ChoosesAfresh(s))
  {
    hide Pushed, Reversed, Lines, Propagate;
    var rest, top := s.commands[..|s.commands| - 1], s.commands[|s.commands| - 1];
    if top.Print? {
      LineStays(top.document);
      KindStays(top.document);
      HandleRemeasures(s.(commands := rest), top.indentation, top.mode, Propagate(top.document).0, fits);
      hide Handle;
    }
  }

  lemma LineStays(d: Document)
    ensures Propagate(d).0.Line? <==> d.Line?
    ensures d.Line? ==> Propagate(d).0 == d
  {
  }

  lemma HandleRemeasures(s: State, indentation: Indentation, mode: Mode, d: Document, fits: Fits)
    ensures var hard := d.Line? && d.hard && mode == Flat;
            var afresh := d.Group? && d.breakMode != Never &&
                          (mode == Break || d.breakMode == Independent || s.remeasure);
            Handle(s, indentation, mode, d, fits).remeasure <==> hard || (s.remeasure && !afresh)
  {
    hide Pushed, Reversed, Lines;
  }

  ghost predicate NoneAfresh(s: State, fits: Fits, from: nat, to: nat) {
    forall k: nat :: from <= k < to ==> !ChoosesAfresh(Steps(s, fits, k))
  }

  /** Step `m` met a hard line in a flat group, and no group chose afresh since. */
  ghost predicate DueSince(s: State, fits: Fits, m: nat, n: nat) {
    m < n && MeetsFlatHardLine(Steps(s, fits, m)) && NoneAfresh(s, fits, m + 1, n)
  }

  /** Measuring afresh inside a flat parent is due exactly from a hard line met in
      a flat group until the next group that chooses afresh. */
  lemma {:induction false} RemeasureIff(s: State, fits: Fits, n: nat)
    requires !s.remeasure
    ensures Steps(s, fits, n).remeasure <==> exists m: nat :: DueSince(s, fits, m, n)
  {
    hide Step, MeetsFlatHardLine, ChoosesAfresh;
    if n > 0 {
      RemeasureIff(s, fits, n - 1);
      var before := Steps(s, fits, n - 1);
      if before.commands != [] {
        StepRemeasures(before, fits);
      } else {
        EmptyMeetsNothing(before);
      }
      forall m: nat
        ensures DueSince(s, fits, m, n) <==>
                (m == n - 1 && MeetsFlatHardLine(before)) || (DueSince(s, fits, m, n - 1) && !ChoosesAfresh(before))
      {
      }
      assert MeetsFlatHardLine(before) ==> DueSince(s, fits, n - 1, n);
      if before.remeasure && !ChoosesAfresh(before) {
        var m: nat :| DueSince(s, fits, m, n - 1);
        assert DueSince(s, fits, m, n);
      }
    }
  }

  lemma EmptyMeetsNothing(s: State)
    requires s.commands == []
    ensures !MeetsFlatHardLine(s) && !ChoosesAfresh(s)
  {
  }

  ghost predicate Constant(fits: Fits, answer: bool) {
    forall s, d :: fits(s, d) == answer
  }

  ghost predicate OnlyAnswers(written: seq<Item>, answer: bool) {
    Asked(!answer) !in written
  }

  lemma StepAnswers(s: State, fits: Fits, answer: bool)
    requires s.commands != [] && Constant(fits, answer) && OnlyAnswers(s.written, answer)
    ensures OnlyAnswers(Step(s, fits).written, answer)
  {
    hide Pushed, Reversed, Propagate, Lines;
    var rest, top := s.commands[..|s.commands| - 1], s.commands[|s.commands| - 1];
    if top.Print? {
      HandleAnswers(s.(commands := rest), top.indentation, top.mode, Propagate(top.document).0, fits, answer);
      hide Handle;
    }
  }

  lemma HandleAnswers(
    s: State, indentation: Indentation, mode: Mode, d: Document, fits: Fits, answer: bool)
    requires Constant(fits, answer) && OnlyAnswers(s.written, answer)
    ensures OnlyAnswers(Handle(s, indentation, mode, d, fits).written, answer)
  {
    hide Pushed, Reversed, Lines;
  }

  lemma {:induction false} RunAnswers(s: State, fits: Fits, answer: bool)
    requires Constant(fits, answer) && OnlyAnswers(s.written, answer)
    ensures OnlyAnswers(Run(s, fits).written, answer)
    decreases Measure(s), |s.suffixes|
  {
    hide Step, Measure, Constant, OnlyAnswers;
    if s.commands != [] {
      StepAnswers(s, fits, answer);
      StepProgresses(s, fits);
      RunAnswers(Step(s, fits), fits, answer);
    }
  }

  /** With a constant measure the whole document resolves with that answer, and
      its leaves are what is written. */
  lemma PrintedWith(d: Document, fits: Fits, answer: bool) returns (items: seq<Item>)
    requires PrintsInFull(d) && Constant(fits, answer)
    ensures Resolves(d, Break, Root, items) && AllAnswer(items, answer)
    ensures multiset(Run(Start(d), fits).written) == Leaves(items)
  {
    hide Run, Resolves, Laid, Leaves, Truthful, Constant, PrintsInFull;
    PrintingConserves(d, fits);
    RunAnswers(Start(d), fits, answer);
    var written := Run(Start(d), fits).written;
    items :| Resolves(d, Break, Root, items) && written == Laid(items, []) && Truthful(written);
    LaidKeepsLeaves(items, []);
    NoLeaves();
    assert multiset(written) == Leaves(items);
    assert Asked(!answer) !in multiset(written);
  }

  lemma {:induction false} QuietIsPlain(d: Document)
    requires Quiet(d)
    ensures EndsPlain(d) && SuffixesEndPlain(d)
    decreases d
  {
    match d {
      case Array(ds) => QuietListIsPlain(ds);
      case Indent(ds) => QuietListIsPlain(ds);
      case IndentIfBreak(ds) => QuietListIsPlain(ds);
      case Group(ds, _, _) => QuietListIsPlain(ds);
      case LineSuffix(ds) => QuietListIsPlain(ds);
      case IfBreak(b, f) =>
        QuietIsPlain(b);
        QuietIsPlain(f);
      case _ =>
    }
  }

  lemma {:induction false} QuietListIsPlain(ds: seq<Document>)
    requires QuietAll(ds)
    ensures forall i :: 0 <= i < |ds| ==> EndsPlain(ds[i]) && SuffixesEndPlain(ds[i])
    decreases ds
  {
    forall i | 0 <= i < |ds|
      ensures EndsPlain(ds[i]) && SuffixesEndPlain(ds[i])
    {
      QuietIsPlain(ds[i]);
    }
  }

  /** With a measure that always says yes, a quiet group is printed on one line. */
  lemma FittingGroupIsOneLine(group: Document, fits: Fits)
    requires group.Group? && group.breakMode != Parent && Quiet(group) && Constant(fits, true)
    ensures forall indentation :: NewLine(indentation) !in Run(Start(group), fits).written
  {
    hide Run, Quiet, Leaves, Resolves, Constant;
    QuietIsPlain(group);
    var items := PrintedWith(group, fits, true);
    FlatGroupIsUnbroken(group, Break, Root, items);
    var written := Run(Start(group), fits).written;
    forall indentation
      ensures NewLine(indentation) !in written
    {
      assert NewLine(indentation) !in multiset(written);
    }
  }

  /** With one that always says no, every line standing directly in the group is
      printed as a line break. */
  lemma WideGroupIsBroken(group: Document, fits: Fits)
    requires group.Group? && group.breakMode != Never && PrintsInFull(group) && Constant(fits, false)
    ensures multiset(Run(Start(group), fits).written)[NewLine(Root)] >= DirectLines(group.contents)
  {
    hide Run, Leaves, Resolves, Constant, PrintsInFull;
    var items := PrintedWith(group, fits, false);
    WideGroupBreaks(group, Break, Root, items);
  }

  // ----- Whole documents under a constant measure -----

  /** A document on one line. */
  function FlatText(d: Document): string
    decreases d
  {
    match d
    case String(text) => text
    case Array(ds) => FlatTexts(ds)
    case Indent(ds) => FlatTexts(ds)
    case IndentIfBreak(ds) => FlatTexts(ds)
    case BlankLineAfterIfMultiline(c) => FlatText(c)
    case Group(ds, _, _) => FlatTexts(ds)
    case Line(_, soft) => if soft then "" else " "
    case LineSuffix(ds) => FlatTexts(ds)
    case IfBreak(_, f) => FlatText(f)
    case BreakParent => ""
  }

  function FlatTexts(ds: seq<Document>): string
    decreases ds
  {
    if ds == [] then "" else FlatText(ds[0]) + FlatTexts(ds[1..])
  }

  lemma {:induction false} RenderedJoins(settings: Settings, a: seq<Item>, b: seq<Item>)
    requires OneLine(b)
    ensures Rendered(settings, a + b) == Rendered(settings, a) + Rendered(settings, b)
  {
    hide Trimmed, Prefix;
    if b == [] {
      assert a + b == a;
    } else {
      assert (a + b)[..|a + b| - 1] == a + b[..|b| - 1];
      RenderedJoins(settings, a, b[..|b| - 1]);
    }
  }

  lemma RenderedOne(settings: Settings, item: Item)
    requires !item.NewLine?
    ensures Rendered(settings, [item]) ==
              match item
              case Text(text) => text
              case Space => " "
              case _ => ""
  {
    assert Rendered(settings, []) == "" && [item][..0] == [];
  }

  ghost predicate ReadsFlat(settings: Settings, items: seq<Item>, text: string) {
    OneLine(items) && Rendered(settings, items) == text
  }

  lemma FlatJoins(settings: Settings, a: seq<Item>, b: seq<Item>, s: string, t: string)
    requires ReadsFlat(settings, a, s) && ReadsFlat(settings, b, t)
    ensures ReadsFlat(settings, a + b, s + t)
  {
    hide Rendered;
    RenderedJoins(settings, a, b);
  }

  lemma {:induction false} FlatReads(d: Document, settings: Settings, indentation: Indentation, items: seq<Item>)
    requires Quiet(d) && HasNoSuffix(d) && Resolves(d, Flat, indentation, items) && AllAnswer(items, true)
    ensures ReadsFlat(settings, items, FlatText(d))
    decreases Size(d), 1
  {
    hide ResolvesAll, MustBreak, Leaves, Rendered;
    match d {
      case String(text) => RenderedOne(settings, Text(text));
      case Array(ds) => FlatListReads(ds, settings, indentation, items);
      case Indent(ds) => FlatListReads(ds, settings, Nest(indentation), items);
      case IndentIfBreak(ds) => FlatListReads(ds, settings, indentation, items);
      case Group(ds, _, _) => FlatGroupReads(d, settings, Flat, indentation, items);
      case Line(_, _) =>
        RenderedOne(settings, Space);
        NothingReads(settings);
      case IfBreak(_, f) => FlatReads(f, settings, indentation, items);
      case BreakParent => NothingReads(settings);
    }
  }

  lemma NothingReads(settings: Settings)
    ensures ReadsFlat(settings, [], "")
  {
  }

  lemma {:induction false} FlatGroupReads(
    d: Document, settings: Settings, mode: Mode, indentation: Indentation, items: seq<Item>)
    requires d.Group? && Quiet(d) && HasNoSuffix(d) && (d.breakMode == Parent ==> mode == Flat)
    requires Resolves(d, mode, indentation, items) && AllAnswer(items, true)
    ensures ReadsFlat(settings, items, FlatText(d))
    decreases Size(d), 0
  {
    hide ResolvesAll, MustBreak, Leaves, Rendered;
    var asked, chosen, body :|
      && MayChoose(d, mode, asked, chosen)
      && ResolvesAll(d.contents, chosen, indentation, body)
      && items == Asking(asked) + body;
    AnswersSplit(Asking(asked), body, true);
    if asked.Some? {
      LeafAlone(Asked(asked.value));
      RenderedOne(settings, Asked(asked.value));
    } else {
      NothingReads(settings);
    }
    FlatListReads(d.contents, settings, indentation, body);
    FlatJoins(settings, Asking(asked), body, "", FlatTexts(d.contents));
  }

  lemma {:induction false} FlatListReads(
    ds: seq<Document>, settings: Settings, indentation: Indentation, items: seq<Item>)
    requires QuietAll(ds) && (forall i :: 0 <= i < |ds| ==> HasNoSuffix(ds[i]))
    requires ResolvesAll(ds, Flat, indentation, items) && AllAnswer(items, true)
    ensures ReadsFlat(settings, items, FlatTexts(ds))
    decreases SizeAll(ds), 2
  {
    hide Resolves, Leaves, Quiet, HasNoSuffix, Rendered;
    if ds == [] {
      NothingReads(settings);
    } else {
      var first, rest :|
        && Resolves(ds[0], Flat, indentation, first)
        && ResolvesAll(ds[1..], Flat, indentation, rest)
        && items == first + rest;
      AnswersSplit(first, rest, true);
      FlatReads(ds[0], settings, indentation, first);
      FlatListReads(ds[1..], settings, indentation, rest);
      FlatJoins(settings, first, rest, FlatText(ds[0]), FlatTexts(ds[1..]));
    }
  }

  /** Without suffixes what is written is what the document resolves to. */
  lemma PrintedAsResolved(d: Document, fits: Fits, answer: bool) returns (items: seq<Item>)
    requires HasNoSuffix(d) && Constant(fits, answer)
    ensures Resolves(d, Break, Root, items) && AllAnswer(items, answer) && Run(Start(d), fits).written == items
  {
    hide Run, Resolves, Laid, Leaves, Constant, HasNoSuffix, Truthful;
    PrintingConserves(d, fits);
    RunAnswers(Start(d), fits, answer);
    var written := Run(Start(d), fits).written;
    items :| Resolves(d, Break, Root, items) && written == Laid(items, []) && Truthful(written);
    ResolvedUnsuffixed(d, Break, Root, items);
    LaidAsIs(items);
    LaidKeepsLeaves(items, []);
    NoLeaves();
    assert Asked(!answer) !in multiset(written);
  }

  /** With a measure that always says yes, the text of a quiet group is the group
      on one line. */
  lemma FittingGroupReads(group: Document, settings: Settings, fits: Fits)
    requires group.Group? && group.breakMode != Parent && Quiet(group) && HasNoSuffix(group) && Constant(fits, true)
    ensures Rendered(settings, Run(Start(group), fits).written) == FlatText(group)
  {
    hide Run, Resolves, Quiet, Leaves, Constant, HasNoSuffix, Rendered;
    var items := PrintedAsResolved(group, fits, true);
    FlatGroupReads(group, settings, Break, Root, items);
  }

  /** The indentation `depth` levels deep. */
  function Deep(depth: nat): Indentation {
    if depth == 0 then Root else Nest(Deep(depth - 1))
  }

  lemma {:induction false} DeepIsDeep(depth: nat)
    ensures Depth(Deep(depth)) == depth
  {
    if depth > 0 {
      DeepIsDeep(depth - 1);
      NestDeepens(Deep(depth - 1));
    }
  }

  /** A document with every line broken, each at the depth it stands at. */
  function BrokenItems(d: Document, depth: nat): seq<Item>
    decreases d
  {
    match d
    case String(text) => [Text(text)]
    case Array(ds) => BrokenLists(ds, depth)
    case Indent(ds) => BrokenLists(ds, depth + 1)
    case IndentIfBreak(ds) => BrokenLists(ds, depth + 1)
    case BlankLineAfterIfMultiline(c) => BrokenItems(c, depth)
    case Group(ds, _, _) => BrokenLists(ds, depth)
    case Line(_, _) => [NewLine(Deep(depth))]
    case LineSuffix(ds) => BrokenLists(ds, depth)
    case IfBreak(b, _) => BrokenItems(b, depth)
    case BreakParent => []
  }

  function BrokenLists(ds: seq<Document>, depth: nat): seq<Item>
    decreases ds
  {
    if ds == [] then [] else BrokenItems(ds[0], depth) + BrokenLists(ds[1..], depth)
  }

  /** No group is marked never-break, and no blank line follows a part. */
  ghost predicate Loose(d: Document)
    decreases d
  {
    match d
    case Array(ds) => AllLoose(ds)
    case Indent(ds) => AllLoose(ds)
    case IndentIfBreak(ds) => AllLoose(ds)
    case BlankLineAfterIfMultiline(_) => false
    case Group(ds, b, _) => b != Never && AllLoose(ds)
    case IfBreak(b, _) => Loose(b)
    case _ => true
  }

  ghost predicate AllLoose(ds: seq<Document>)
    decreases ds
  {
    forall i :: 0 <= i < |ds| ==> Loose(ds[i])
  }

  /** The items less the noted answers. */
  function Heard(items: seq<Item>): seq<Item> {
    if items == [] then []
    else if items[0].Asked? then Heard(items[1..])
    else [items[0]] + Heard(items[1..])
  }

  lemma {:induction false} HeardSplits(a: seq<Item>, b: seq<Item>)
    ensures Heard(a + b) == Heard(a) + Heard(b)
  {
    if a == [] {
      assert a + b == b;
    } else {
      assert (a + b)[1..] == a[1..] + b;
      HeardSplits(a[1..], b);
    }
  }

  lemma HeardOne(item: Item)
    ensures Heard([item]) == if item.Asked? then [] else [item]
  {
    assert Heard([]) == [] && [item][1..] == [];
  }

  lemma {:induction false} BrokenHeard(d: Document, depth: nat, items: seq<Item>)
    requires Loose(d) && HasNoSuffix(d) && Resolves(d, Break, Deep(depth), items) && AllAnswer(items, false)
    ensures Heard(items) == BrokenItems(d, depth)
    decreases Size(d), 1
  {
    hide ResolvesAll, MustBreak, Leaves, Heard;
    match d {
      case String(text) => HeardOne(Text(text));
      case Array(ds) => BrokenListHeard(ds, depth, items);
      case Indent(ds) => BrokenListHeard(ds, depth + 1, items);
      case IndentIfBreak(ds) => BrokenListHeard(ds, depth + 1, items);
      case Group(ds, _, _) =>
        var asked, chosen, body :|
          && MayChoose(d, Break, asked, chosen)
          && ResolvesAll(ds, chosen, Deep(depth), body)
          && items == Asking(asked) + body;
        AnswersSplit(Asking(asked), body, false);
        HeardSplits(Asking(asked), body);
        if asked.Some? {
          LeafAlone(Asked(asked.value));
          HeardOne(Asked(asked.value));
        } else {
          NothingHeard();
        }
        BrokenListHeard(ds, depth, body);
      case Line(_, _) => HeardOne(NewLine(Deep(depth)));
      case IfBreak(b, _) => BrokenHeard(b, depth, items);
      case BreakParent => NothingHeard();
    }
  }

  lemma NothingHeard()
    ensures Heard([]) == []
  {
  }

  lemma {:induction false} BrokenListHeard(ds: seq<Document>, depth: nat, items: seq<Item>)
    requires AllLoose(ds) && (forall i :: 0 <= i < |ds| ==> HasNoSuffix(ds[i]))
    requires ResolvesAll(ds, Break, Deep(depth), items) && AllAnswer(items, false)
    ensures Heard(items) == BrokenLists(ds, depth)
    decreases SizeAll(ds), 2
  {
    hide Resolves, Leaves, Loose, HasNoSuffix, Heard;
    if ds == [] {
      NothingHeard();
    } else {
      var first, rest :|
        && Resolves(ds[0], Break, Deep(depth), first)
        && ResolvesAll(ds[1..], Break, Deep(depth), rest)
        && items == first + rest;
      AnswersSplit(first, rest, false);
      BrokenHeard(ds[0], depth, first);
      BrokenListHeard(ds[1..], depth, rest);
      HeardSplits(first, rest);
    }
  }

  /** With a measure that always says no, a loose document is written with every
      line broken at its depth. */
  lemma WideDocumentBreaks(d: Document, fits: Fits)
    requires Loose(d) && HasNoSuffix(d) && Constant(fits, false)
    ensures Heard(Run(Start(d), fits).written) == BrokenItems(d, 0)
  {
    hide Run, Resolves, Loose, Leaves, Constant, HasNoSuffix, Heard;
    var items := PrintedAsResolved(d, fits, false);
    BrokenHeard(d, 0, items);
  }
}
