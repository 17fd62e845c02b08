/** When a document is printed in full. */
module PrintedInFull {
  import opened Documents
  import opened Layout
  import opened PrintMachine
  import opened PrintedLayout

  function Start(d: Document): State {
    State([], [Print(Root, Break, d)], [], false)
  }

  // ----- When a suffix is lost -----

  /** The only command left is a check that stays silent, with a suffix pending. */
  ghost predicate Loses(s: State) {
    && |s.commands| == 1 && s.commands[0].BlankLineIfMultiline?
    && Lines(s.written) <= s.commands[0].startingLine && s.suffixes != []
  }

  ghost predicate MeetsLoss(s: State, fits: Fits)
    decreases Measure(s), |s.suffixes|
  {
    s.commands != [] && (Loses(s) || (StepProgresses(s, fits); MeetsLoss(Step(s, fits), fits)))
  }

  /** A step empties the stack with a suffix pending exactly where one is lost. */
  lemma StepLoses(s: State, fits: Fits)
    requires s.commands != []
    ensures Loses(s) <==> Step(s, fits).commands == [] && Step(s, fits).suffixes != []
  {
    hide Handle, Propagate, Lines;
    var rest, top := s.commands[..|s.commands| - 1], s.commands[|s.commands| - 1];
    if top.Print? {
      FlushLeavesNothing(Handle(s.(commands := rest), top.indentation, top.mode, Propagate(top.document).0, fits));
    }
  }

  lemma FlushLeavesNothing(s: State)
    ensures Flush(s).commands == [] ==> Flush(s).suffixes == []
  {
    if s.suffixes != [] {
      assert Reversed(s.suffixes) != [];
    }
  }

  /** Exactly when suffixes are left over: the run meets a last check that stays
      silent while a suffix is pending. */
  lemma {:induction false} LossIff(s: State, fits: Fits)
    requires s.commands != []
    ensures Run(s, fits).suffixes != [] <==> MeetsLoss(s, fits)
    decreases Measure(s), |s.suffixes|
  {
    hide Step, Measure, Loses;
    StepLoses(s, fits);
    StepProgresses(s, fits);
    var next := Step(s, fits);
    if next.commands != [] {
      LossIff(next, fits);
    }
  }

  // ----- Documents that end in a hard line -----

  ghost predicate AllChecks(commands: seq<Command>) {
    forall i :: 0 <= i < |commands| ==> commands[i].BlankLineIfMultiline?
  }

  /** Below the first print command there are only checks, and it ends hard. */
  ghost predicate Anchored(commands: seq<Command>) {
    exists k :: 0 <= k < |commands| && AnchoredAt(commands, k)
  }

  ghost predicate AnchoredAt(commands: seq<Command>, k: nat)
    requires k < |commands|
  {
    AllChecks(commands[..k]) && commands[k].Print? && EndsHard(commands[k].document)
  }

  ghost predicate EndsDry(s: State) {
    Anchored(s.commands) || (AllChecks(s.commands) && s.suffixes == [])
  }

  lemma AnchorStays(rest: seq<Command>, commands: seq<Command>)
    requires Anchored(rest) && rest <= commands
    ensures Anchored(commands)
  {
    var k :| 0 <= k < |rest| && AnchoredAt(rest, k);
    assert commands[..k] == rest[..k];
    assert AnchoredAt(commands, k);
  }

  lemma AnchorLaid(rest: seq<Command>, commands: seq<Command>)
    requires AllChecks(rest) && rest <= commands && |rest| < |commands|
    requires commands[|rest|].Print? && EndsHard(commands[|rest|].document)
    ensures Anchored(commands)
  {
    assert commands[..|rest|] == rest;
    assert AnchoredAt(commands, |rest|);
  }

  lemma AnchorPopped(rest: seq<Command>, top: Command)
    requires Anchored(rest + [top])
    ensures Anchored(rest) || (AllChecks(rest) && top.Print? && EndsHard(top.document))
  {
    var all := rest + [top];
    var k :| 0 <= k < |all| && AnchoredAt(all, k);
    assert all[..k] == rest[..k];
    if k < |rest| {
      assert AnchoredAt(rest, k);
    } else {
      assert rest[..k] == rest;
    }
  }

  lemma {:induction false} PushedExtends(rest: seq<Command>, indentation: Indentation, mode: Mode, ds: seq<Document>)
    ensures var commands := Pushed(rest, indentation, mode, ds);
            && rest <= commands && (ds == [] ==> commands == rest)
            && (ds != [] ==> |rest| < |commands| && commands[|rest|] == Print(indentation, mode, ds[|ds| - 1]))
  {
    if ds != [] {
      PushedExtends(rest, indentation, mode, ds[1..]);
    }
  }

  lemma HandleExtends(s: State, indentation: Indentation, mode: Mode, d: Document, fits: Fits)
    ensures var s' := Handle(s, indentation, mode, d, fits);
            && s.commands <= s'.commands
            && (EndsHard(d) && !d.BlankLineAfterIfMultiline? ==>
                  || (s' == s.(written := s'.written, remeasure := s'.remeasure) && s.suffixes == [])
                  || (|s.commands| < |s'.commands| && s'.commands[|s.commands|].Print? &&
                      EndsHard(s'.commands[|s.commands|].document)))
  {
    hide Pushed, Reversed, Lines;
    match d {
      case Array(ds) => PushedExtends(s.commands, indentation, mode, ds);
      case Indent(ds) => PushedExtends(s.commands, Nest(indentation), mode, ds);
      case IndentIfBreak(ds) =>
        PushedExtends(s.commands, if mode == Break then Nest(indentation) else indentation, mode, ds);
      case Group(ds, _, _) =>
        PushedExtends(s.commands, indentation, Flat, ds);
        PushedExtends(s.commands, indentation, Break, ds);
      case _ =>
    }
  }

  lemma HandleEndsDry(s: State, indentation: Indentation, mode: Mode, d: Document, fits: Fits)
    requires EndsHard(d) && AllChecks(s.commands)
    ensures EndsDry(Handle(s, indentation, mode, d, fits))
  {
    var s' := Handle(s, indentation, mode, d, fits);
    if d.BlankLineAfterIfMultiline? {
      hide Anchored, Lines;
      AnchorLaid(s'.commands[..|s.commands| + 1], s'.commands);
    } else {
      HandleExtends(s, indentation, mode, d, fits);
      hide Handle, Anchored, EndsHard;
      if s'.commands != s.commands {
        AnchorLaid(s.commands, s'.commands);
      }
    }
  }

  lemma StepEndsDry(s: State, fits: Fits)
    requires s.commands != [] && EndsDry(s)
    ensures EndsDry(Step(s, fits))
  {
    hide Handle, Propagate, Lines, Anchored, EndsHard;
    var rest, top := s.commands[..|s.commands| - 1], s.commands[|s.commands| - 1];
    assert s.commands == rest + [top];
    if Anchored(s.commands) {
      AnchorPopped(rest, top);
    }
    match top {
      case Print(indentation, mode, d) =>
        var s0, d' := s.(commands := rest), Propagate(d).0;
        HandleExtends(s0, indentation, mode, d', fits);
        PropagateKeepsEnd(d);
        if AllChecks(rest) && EndsHard(d') {
          HandleEndsDry(s0, indentation, mode, d', fits);
        }
        if Anchored(rest) {
          AnchorStays(rest, Handle(s0, indentation, mode, d', fits).commands);
          NotEmpty(rest);
        }
      case BlankLineIfMultiline(indentation, _) =>
        if Anchored(rest) {
          AnchorStays(rest, Step(s, fits).commands);
        } else {
          var line := Print(indentation, Break, Line(true, false));
          assert EndsHard(line.document) by {
            HardLineEndsHard();
          }
          AnchorLaid(rest, rest + [line]);
        }
    }
  }

  lemma HardLineEndsHard()
    ensures EndsHard(Line(true, false))
  {
  }

  lemma NotEmpty(commands: seq<Command>)
    requires Anchored(commands)
    ensures commands != []
  {
  }

  lemma {:induction false} RunEndsDry(s: State, fits: Fits)
    requires EndsDry(s)
    ensures Run(s, fits).suffixes == []
    decreases Measure(s), |s.suffixes|
  {
    hide Step, Measure, Anchored;
    if s.commands == [] {
      if Anchored([]) {
        NotEmpty([]);
      }
    } else {
      StepEndsDry(s, fits);
      StepProgresses(s, fits);
      RunEndsDry(Step(s, fits), fits);
    }
  }

  // ----- Documents that do not end in a check -----

  /** Whatever is below, the bottom command does not end in a check, and neither
      does anything that is or will become a pending suffix. */
  ghost predicate Grounded(s: State) {
    && (s.commands == [] ==> s.suffixes == [])
    && (s.commands != [] ==> s.commands[0].Print? && EndsPlain(s.commands[0].document))
    && (forall i :: 0 <= i < |s.commands| && s.commands[i].Print? ==> SuffixesEndPlain(s.commands[i].document))
    && SuffixesGrounded(s.suffixes)
  }

  ghost predicate SuffixesGrounded(suffixes: seq<Command>) {
    forall i :: 0 <= i < |suffixes| ==>
      suffixes[i].Print? && EndsPlain(suffixes[i].document) && SuffixesEndPlain(suffixes[i].document)
  }

  ghost predicate AllSuffixesPlain(commands: seq<Command>) {
    forall i :: 0 <= i < |commands| && commands[i].Print? ==> SuffixesEndPlain(commands[i].document)
  }

  lemma {:induction false} PushedPlain(rest: seq<Command>, indentation: Indentation, mode: Mode, ds: seq<Document>)
    requires AllSuffixesPlain(rest) && forall i :: 0 <= i < |ds| ==> SuffixesEndPlain(ds[i])
    ensures AllSuffixesPlain(Pushed(rest, indentation, mode, ds))
  {
    if ds != [] {
      PushedPlain(rest, indentation, mode, ds[1..]);
    }
  }

  lemma {:induction false} ReversedGrounded(suffixes: seq<Command>)
    requires SuffixesGrounded(suffixes)
    ensures |Reversed(suffixes)| == |suffixes| && SuffixesGrounded(Reversed(suffixes))
  {
    if suffixes != [] {
      ReversedGrounded(suffixes[1..]);
    }
  }

  /** What is below stays, and if nothing is, something comes there that does not
      end in a check, or nothing at all. */
  ghost predicate StaysGrounded(s: State, s': State) {
    && AllSuffixesPlain(s'.commands) && SuffixesGrounded(s'.suffixes) && s.commands <= s'.commands
    && (s.commands == [] && s'.commands != [] ==> s'.commands[0].Print? && EndsPlain(s'.commands[0].document))
  }

  ghost predicate ListPlain(ds: seq<Document>) {
    forall i :: 0 <= i < |ds| ==> SuffixesEndPlain(ds[i])
  }

  lemma ListGrounds(s: State, indentation: Indentation, mode: Mode, ds: seq<Document>)
    requires AllSuffixesPlain(s.commands) && SuffixesGrounded(s.suffixes) && ListPlain(ds)
    requires s.commands == [] && ds != [] ==> EndsPlain(ds[|ds| - 1])
    ensures StaysGrounded(s, PushAll(s, indentation, mode, ds))
  {
    PushedExtends(s.commands, indentation, mode, ds);
    PushedPlain(s.commands, indentation, mode, ds);
    hide Pushed, SuffixesEndPlain, EndsPlain;
  }

  lemma GroupGrounds(s: State, indentation: Indentation, mode: Mode, group: Document, fits: Fits)
    requires AllSuffixesPlain(s.commands) && SuffixesGrounded(s.suffixes)
    requires group.Group? && SuffixesEndPlain(group) && (s.commands == [] ==> EndsPlain(group))
    ensures StaysGrounded(s, PushGroup(s, indentation, mode, group, fits))
  {
    ListGrounds(s, indentation, Flat, group.contents);
    ListGrounds(s, indentation, Break, group.contents);
    assert SuffixesEndPlain(Array(group.contents)) && EndsPlain(Array(group.contents)) == EndsPlain(group);
    hide Pushed, SuffixesEndPlain, EndsPlain;
  }

  lemma LineGrounds(s: State, indentation: Indentation, mode: Mode, line: Document)
    requires AllSuffixesPlain(s.commands) && SuffixesGrounded(s.suffixes) && line.Line?
    ensures StaysGrounded(s, PrintLine(s, indentation, mode, line))
  {
    ReversedGrounded(s.suffixes);
    hide Reversed;
  }

  lemma HandleGrounds(s: State, indentation: Indentation, mode: Mode, d: Document, fits: Fits)
    requires SuffixesEndPlain(d) && AllSuffixesPlain(s.commands) && SuffixesGrounded(s.suffixes)
    requires s.commands == [] ==> EndsPlain(d)
    ensures StaysGrounded(s, Handle(s, indentation, mode, d, fits))
  {
    hide Lines, PushAll, PushGroup, PrintLine;
    match d {
      case String(text) =>
      case Array(ds) => ListGrounds(s, indentation, mode, ds);
      case Indent(ds) => ListGrounds(s, Nest(indentation), mode, ds);
      case IndentIfBreak(ds) =>
        ListGrounds(s, if mode == Break then Nest(indentation) else indentation, mode, ds);
      case BlankLineAfterIfMultiline(_) =>
      case Group(_, _, _) => GroupGrounds(s, indentation, mode, d, fits);
      case Line(_, _) => LineGrounds(s, indentation, mode, d);
      case LineSuffix(ds) => assert EndsPlain(Array(ds)) && SuffixesEndPlain(Array(ds));
      case IfBreak(_, _) =>
      case BreakParent =>
    }
  }

  lemma StepGrounds(s: State, fits: Fits)
    requires s.commands != [] && Grounded(s)
    ensures Grounded(Step(s, fits))
  {
    hide Handle, Propagate, Lines, EndsPlain, SuffixesEndPlain;
    var rest, top := s.commands[..|s.commands| - 1], s.commands[|s.commands| - 1];
    match top {
      case Print(indentation, mode, d) =>
        var s0, d' := s.(commands := rest), Propagate(d).0;
        PropagateKeepsPlain(d);
        HandleGrounds(s0, indentation, mode, d', fits);
        var s' := Handle(s0, indentation, mode, d', fits);
        ReversedGrounded(s'.suffixes);
      case BlankLineIfMultiline(_, _) => assert SuffixesEndPlain(Line(true, false)) by { LineIsPlain(); }
    }
  }

  lemma LineIsPlain()
    ensures SuffixesEndPlain(Line(true, false))
  {
  }

  lemma {:induction false} GroundedRunsDry(s: State, fits: Fits)
    requires Grounded(s)
    ensures Run(s, fits).suffixes == []
    decreases Measure(s), |s.suffixes|
  {
    hide Step, Measure;
    if s.commands != [] {
      StepGrounds(s, fits);
      StepProgresses(s, fits);
      GroundedRunsDry(Step(s, fits), fits);
    }
  }

  // ----- Documents without suffixes -----

  ghost predicate Bare(commands: seq<Command>) {
    forall i :: 0 <= i < |commands| && commands[i].Print? ==> HasNoSuffix(commands[i].document)
  }

  lemma {:induction false} PushedBare(rest: seq<Command>, indentation: Indentation, mode: Mode, ds: seq<Document>)
    requires Bare(rest) && forall i :: 0 <= i < |ds| ==> HasNoSuffix(ds[i])
    ensures Bare(Pushed(rest, indentation, mode, ds))
  {
    if ds != [] {
      PushedBare(rest, indentation, mode, ds[1..]);
    }
  }

  lemma HandleStaysBare(s: State, indentation: Indentation, mode: Mode, d: Document, fits: Fits)
    requires Bare(s.commands) && s.suffixes == [] && HasNoSuffix(d)
    ensures var s' := Handle(s, indentation, mode, d, fits);
            Bare(s'.commands) && s'.suffixes == []
  {
    hide Pushed, Reversed, Lines;
    match d {
      case Array(ds) => PushedBare(s.commands, indentation, mode, ds);
      case Indent(ds) => PushedBare(s.commands, Nest(indentation), mode, ds);
      case IndentIfBreak(ds) =>
        PushedBare(s.commands, if mode == Break then Nest(indentation) else indentation, mode, ds);
      case Group(ds, _, _) =>
        PushedBare(s.commands, indentation, Flat, ds);
        PushedBare(s.commands, indentation, Break, ds);
        assert HasNoSuffix(Array(ds));
      case _ =>
    }
  }

  lemma StepStaysBare(s: State, fits: Fits)
    requires s.commands != [] && Bare(s.commands) && s.suffixes == []
    ensures Bare(Step(s, fits).commands) && Step(s, fits).suffixes == []
  {
    hide Handle, Propagate, Lines;
    var rest, top := s.commands[..|s.commands| - 1], s.commands[|s.commands| - 1];
    if top.Print? {
      PropagateAddsNoSuffix(top.document);
      HandleStaysBare(s.(commands := rest), top.indentation, top.mode, Propagate(top.document).0, fits);
    }
  }

  lemma {:induction false} BareRunsDry(s: State, fits: Fits)
    requires Bare(s.commands) && s.suffixes == []
    ensures Run(s, fits).suffixes == []
    decreases Measure(s), |s.suffixes|
  {
    hide Step, Measure;
    if s.commands != [] {
      StepStaysBare(s, fits);
      StepProgresses(s, fits);
      BareRunsDry(Step(s, fits), fits);
    }
  }

  // ----- Conservation -----

  /** Seen from the document alone: it ends in a hard line, or neither it nor any
      of its suffixes ends in a check, or it has no suffix. */
  ghost predicate PrintsInFull(d: Document) {
    EndsHard(d) || (EndsPlain(d) && SuffixesEndPlain(d)) || HasNoSuffix(d)
  }

  lemma NothingIsLost(d: Document, fits: Fits)
    requires PrintsInFull(d)
    ensures Run(Start(d), fits).suffixes == []
  {
    var s := Start(d);
    if EndsHard(d) {
      assert AnchoredAt(s.commands, 0);
      RunEndsDry(s, fits);
    } else if HasNoSuffix(d) {
      BareRunsDry(s, fits);
    } else {
      GroundedRunsDry(s, fits);
    }
  }

  lemma {:induction false} RunIsTruthful(s: State, fits: Fits)
    requires Truthful(s.written)
    ensures Truthful(Run(s, fits).written)
    decreases Measure(s), |s.suffixes|
  {
    hide Step, Measure, Truthful;
    if s.commands != [] {
      StepIsTruthful(s, fits);
      StepProgresses(s, fits);
      RunIsTruthful(Step(s, fits), fits);
    }
  }

  lemma StepIsTruthful(s: State, fits: Fits)
    requires s.commands != [] && Truthful(s.written)
    ensures Truthful(Step(s, fits).written)
  {
    hide Handle, Propagate, Lines, Truthful;
    var rest, top := s.commands[..|s.commands| - 1], s.commands[|s.commands| - 1];
    match top {
      case Print(indentation, mode, d) =>
        HandleIsTruthful(s.(commands := rest), indentation, mode, Propagate(d).0, fits);
      case BlankLineIfMultiline(_, startingLine) =>
        TruthGrows(s.written, End(startingLine, Lines(s.written) > startingLine));
    }
  }

  lemma HandleIsTruthful(s: State, indentation: Indentation, mode: Mode, d: Document, fits: Fits)
    requires Truthful(s.written)
    ensures Truthful(Handle(s, indentation, mode, d, fits).written)
  {
    hide Pushed, Reversed, Lines, Truthful;
    match d {
      case String(text) => TruthGrows(s.written, Text(text));
      case BlankLineAfterIfMultiline(_) => TruthGrows(s.written, Begin(Lines(s.written)));
      case Group(_, _, _) =>
        TruthGrows(s.written, Asked(true));
        TruthGrows(s.written, Asked(false));
      case Line(_, _) =>
        TruthGrows(s.written, Space);
        TruthGrows(s.written, NewLine(indentation));
      case _ =>
    }
  }

  lemma TruthGrows(written: seq<Item>, item: Item)
    requires Truthful(written)
    requires item.Begin? ==> item.lines == Lines(written)
    requires item.End? ==> (item.crossed <==> Lines(written) > item.lines)
    ensures Truthful(written + [item])
  {
    assert (written + [item])[..|written|] == written;
  }

  /** The document resolves to items whose layout, with the right answers about
      blank lines, is all that was written. */
  ghost predicate Conserved(d: Document, written: seq<Item>) {
    exists items :: Resolves(d, Break, Root, items) && written == Laid(items, []) && Truthful(written)
  }

  /** If no suffix is left over the document is printed in full: each leaf of the
      chosen branches once, in order but for suffixes, which end their line. */
  lemma DryRunConserves(d: Document, fits: Fits)
    requires Run(Start(d), fits).suffixes == []
    ensures Conserved(d, Run(Start(d), fits).written)
  {
    hide Run, Laid, StackResolves, QueueResolves, Resolves;
    var s := Start(d);
    var top := Print(Root, Break, d);
    var stream, pending, lost := RunLaysOut(s, fits);
    RunIsTruthful(s, fits);
    EmptyQueue(lost);
    EmptyQueue(pending);
    assert [] + [top] == [top];
    var first, more := StackPopped([], top, stream);
    EmptyStackItems(more);
    assert stream == first;
    NothingLaid();
    var written := Run(s, fits).written;
    assert written == written + [] == [] + Laid(first, []) == Laid(first, []);
  }

  lemma PrintingConserves(d: Document, fits: Fits)
    requires PrintsInFull(d)
    ensures Conserved(d, Run(Start(d), fits).written)
  {
    NothingIsLost(d, fits);
    DryRunConserves(d, fits);
  }

  lemma EmptyStackItems(items: seq<Item>)
    requires StackResolves([], items)
    ensures items == []
  {
  }

  lemma NothingLaid()
    ensures Laid([], []) == []
  {
  }

  function Lossy(): Document {
    BlankLineAfterIfMultiline(LineSuffix([String("x")]))
  }

  function LossyStack(): seq<Command> {
    [BlankLineIfMultiline(Root, 0), Print(Root, Break, LineSuffix([String("x")]))]
  }

  lemma LossyBegins(fits: Fits)
    ensures Step(Start(Lossy()), fits) == State([Begin(0)], LossyStack(), [], false)
  {
    hide PushAll, PushGroup, PrintLine, Reversed;
    assert Lines([]) == 0;
  }

  lemma LossyDefers(fits: Fits)
    ensures Step(State([Begin(0)], LossyStack(), [], false), fits) == Silent()
  {
    hide PushAll, PushGroup, PrintLine, Reversed, Lines;
    assert LossyStack()[..1] == [BlankLineIfMultiline(Root, 0)];
  }

  lemma LossyEnds(fits: Fits)
    ensures Step(Silent(), fits) == Silent().(commands := [], written := [Begin(0), End(0, false)])
  {
    hide Handle, Flush;
    OneMark();
    hide Lines;
  }

  lemma OneMark()
    ensures Lines([Begin(0)]) == 0
  {
    assert [Begin(0)][..0] == [];
  }

  /** The last check, with the suffix pending. */
  function Silent(): State {
    State([Begin(0)], [BlankLineIfMultiline(Root, 0)], [Print(Root, Break, Array([String("x")]))], false)
  }

  /** Such a loss: the check that ends this document stops the run before the
      pending suffix is printed. */
  lemma SuffixCanBeLost(fits: Fits)
    ensures Run(Start(Lossy()), fits).written == [Begin(0), End(0, false)]
    ensures !Conserved(Lossy(), [Begin(0), End(0, false)]) && MeetsLoss(Start(Lossy()), fits)
  {
    LossyBegins(fits);
    LossyDefers(fits);
    LossyEnds(fits);
    hide Step, Conserved, MeetsLoss;
    var s0 := Start(Lossy());
    var s1 := Step(s0, fits);
    assert Run(Step(Silent(), fits), fits) == Step(Silent(), fits);
    assert Run(Silent(), fits) == Step(Silent(), fits);
    assert Run(s1, fits) == Run(Silent(), fits);
    LossIff(s0, fits);
    LossIsNoLayout([Begin(0), End(0, false)]);
  }

  lemma LossIsNoLayout(written: seq<Item>)
    requires Text("x") !in written
    ensures !Conserved(Lossy(), written)
  {
    hide Resolves, Laid, Truthful;
    assert multiset(written)[Text("x")] == 0;
    forall items | Resolves(Lossy(), Break, Root, items)
      ensures Laid(items, []) != written
    {
      LossShows(items);
      LaidKeepsLeaves(items, []);
    }
  }

  lemma LossShows(items: seq<Item>)
    requires Resolves(Lossy(), Break, Root, items)
    ensures Leaves(items)[Text("x")] > 0
  {
    var suffix := LineSuffix([String("x")]);
    var lines, body, crossed :|
      Resolves(suffix, Break, Root, body) && items == [Begin(lines)] + body + Ended(lines, crossed, Root);
    LossResolves(body);
    LeavesSplit([Begin(lines)] + body, Ended(lines, crossed, Root));
    LeavesSplit([Begin(lines)], body);
  }

  lemma LossResolves(items: seq<Item>)
    requires Resolves(LineSuffix([String("x")]), Break, Root, items)
    ensures Leaves(items)[Text("x")] > 0
  {
    var ds := [String("x")];
    var body :| ResolvesAll(ds, Break, Root, body) && items == [Suffix(body)];
    var first, rest :|
      Resolves(ds[0], Break, Root, first) && ResolvesAll(ds[1..], Break, Root, rest) && body == first + rest;
    assert body == [Text("x")] + rest;
    assert Leaves(body)[Text("x")] > 0;
  }
}
