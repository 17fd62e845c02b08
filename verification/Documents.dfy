/** The formatter's layout documents and the breaks they force. */
module Documents {

  datatype BreakMode = Auto | Force | Never | Parent | Independent

  datatype Document =
    | String(text: string)
    | Array(documents: seq<Document>)
    | Indent(documents: seq<Document>)
    | IndentIfBreak(documents: seq<Document>)
    | BlankLineAfterIfMultiline(document: Document)
    | Group(contents: seq<Document>, breakMode: BreakMode, measureTail: bool)
    | Line(hard: bool, soft: bool)
    | LineSuffix(documents: seq<Document>)
    | IfBreak(breakContents: Document, flatContent: Document)
    | BreakParent

  /** The work a document is for the printer. */
  function Size(d: Document): (n: nat)
    ensures n > 0
    decreases d
  {
    match d
    case String(_) => 1
    case Array(ds) => 1 + SizeAll(ds)
    case Indent(ds) => 1 + SizeAll(ds)
    case IndentIfBreak(ds) => 1 + SizeAll(ds)
    case BlankLineAfterIfMultiline(c) => 3 + Size(c)
    case Group(ds, _, _) => 2 + SizeAll(ds)
    case Line(_, _) => 1
    case LineSuffix(ds) => 2 + SizeAll(ds)
    case IfBreak(b, f) => 1 + Size(b) + Size(f)
    case BreakParent => 1
  }

  function SizeAll(ds: seq<Document>): nat
    decreases ds
  {
    if ds == [] then 0 else Size(ds[0]) + SizeAll(ds[1..])
  }

  /** The document holds a break parent or a forced group that no group marked
      never-break shields. Only the broken side of a choice counts, and a line
      suffix forces nothing. */
  ghost predicate MustBreak(d: Document)
    decreases d
  {
    match d
    case Array(ds) => AnyMustBreak(ds)
    case Indent(ds) => AnyMustBreak(ds)
    case IndentIfBreak(ds) => AnyMustBreak(ds)
    case BlankLineAfterIfMultiline(c) => MustBreak(c)
    case Group(ds, b, _) => b != Never && (b == Force || AnyMustBreak(ds))
    case IfBreak(b, _) => MustBreak(b)
    case BreakParent => true
    case _ => false
  }

  ghost predicate AnyMustBreak(ds: seq<Document>)
    decreases ds
  {
    exists i :: 0 <= i < |ds| && MustBreak(ds[i])
  }

  /** Marks groups that must break as forced, and says whether the document
      must break. A list is searched from its end and only as far as needed. */
  function Propagate(d: Document): (r: (Document, bool))
    decreases d
  {
    match d
    case BreakParent => (d, true)
    case Group(ds, b, t) =>
      if b == Never then (d, false)
      else
        var (ds', any) := PropagateAll(ds);
        (Group(ds', if b == Force || any then Force else b, t), b == Force || any)
    case IfBreak(b, f) =>
      var (b', any) := Propagate(b);
      (IfBreak(b', f), any)
    case Array(ds) => var (ds', any) := PropagateAll(ds); (Array(ds'), any)
    case Indent(ds) => var (ds', any) := PropagateAll(ds); (Indent(ds'), any)
    case IndentIfBreak(ds) => var (ds', any) := PropagateAll(ds); (IndentIfBreak(ds'), any)
    case BlankLineAfterIfMultiline(c) => var (c', any) := Propagate(c); (BlankLineAfterIfMultiline(c'), any)
    case _ => (d, false)
  }

  function PropagateAll(ds: seq<Document>): (r: (seq<Document>, bool))
    ensures |r.0| == |ds|
    decreases ds
  {
    if ds == [] then ([], false)
    else
      var n := |ds| - 1;
      var (last, must) := Propagate(ds[n]);
      if must then (ds[..n] + [last], true)
      else
        var (init, any) := PropagateAll(ds[..n]);
        (init + [last], any)
  }

  /** Propagation decides exactly whether the document must break, and neither
      its early stop nor the marks it leaves change any later answer. */
  lemma {:induction false} PropagateIsExact(d: Document)
    ensures Propagate(d).1 == MustBreak(d)
    ensures MustBreak(Propagate(d).0) == MustBreak(d)
    decreases d
  {
    match d {
      case Array(ds) => PropagateAllIsExact(ds);
      case Indent(ds) => PropagateAllIsExact(ds);
      case IndentIfBreak(ds) => PropagateAllIsExact(ds);
      case BlankLineAfterIfMultiline(c) => PropagateIsExact(c);
      case Group(ds, b, _) => PropagateAllIsExact(ds);
      case IfBreak(b, _) => PropagateIsExact(b);
      case _ =>
    }
  }

  lemma {:induction false} PropagateAllIsExact(ds: seq<Document>)
    ensures PropagateAll(ds).1 == AnyMustBreak(ds)
    ensures AnyMustBreak(PropagateAll(ds).0) == AnyMustBreak(ds)
    ensures forall i :: 0 <= i < |ds| ==> MustBreak(PropagateAll(ds).0[i]) == MustBreak(ds[i])
    decreases ds
  {
    if ds != [] {
      var n := |ds| - 1;
      PropagateIsExact(ds[n]);
      PropagateAllIsExact(ds[..n]);
      AnySplits(ds);
      AnySplits(PropagateAll(ds).0);
      assert PropagateAll(ds).0[..n] == if MustBreak(ds[n]) then ds[..n] else PropagateAll(ds[..n]).0;
    }
  }

  lemma AnySplits(ds: seq<Document>)
    requires ds != []
    ensures AnyMustBreak(ds) <==> AnyMustBreak(ds[..|ds| - 1]) || MustBreak(ds[|ds| - 1])
  {
    var init := ds[..|ds| - 1];
    if AnyMustBreak(init) {
      var i :| 0 <= i < |init| && MustBreak(init[i]);
      assert MustBreak(ds[i]);
    }
    assert forall i :: 0 <= i < |init| ==> init[i] == ds[i];
  }

  lemma {:induction false} SizeAllSplits(a: seq<Document>, b: seq<Document>)
    ensures SizeAll(a + b) == SizeAll(a) + SizeAll(b)
  {
    if a == [] {
      assert a + b == b;
    } else {
      assert (a + b)[1..] == a[1..] + b;
      SizeAllSplits(a[1..], b);
    }
  }

  lemma {:induction false} PropagateKeepsSize(d: Document)
    ensures Size(Propagate(d).0) == Size(d)
    decreases d
  {
    match d {
      case Array(ds) => PropagateAllKeepsSize(ds);
      case Indent(ds) => PropagateAllKeepsSize(ds);
      case IndentIfBreak(ds) => PropagateAllKeepsSize(ds);
      case BlankLineAfterIfMultiline(c) => PropagateKeepsSize(c);
      case Group(ds, b, _) => PropagateAllKeepsSize(ds);
      case IfBreak(b, _) => PropagateKeepsSize(b);
      case _ =>
    }
  }

  lemma {:induction false} PropagateAllKeepsSize(ds: seq<Document>)
    ensures SizeAll(PropagateAll(ds).0) == SizeAll(ds)
    decreases ds
  {
    if ds != [] {
      var n := |ds| - 1;
      PropagateKeepsSize(ds[n]);
      PropagateAllKeepsSize(ds[..n]);
      assert ds == ds[..n] + [ds[n]];
      SizeAllSplits(ds[..n], [ds[n]]);
      var (last, must) := Propagate(ds[n]);
      SizeAllSplits(ds[..n], [last]);
      SizeAllSplits(PropagateAll(ds[..n]).0, [last]);
    }
  }

  /** The last thing the document prints is a hard line, whatever is chosen. */
  ghost predicate EndsHard(d: Document)
    decreases d
  {
    match d
    case Array(ds) => ds != [] && EndsHard(ds[|ds| - 1])
    case Indent(ds) => ds != [] && EndsHard(ds[|ds| - 1])
    case IndentIfBreak(ds) => ds != [] && EndsHard(ds[|ds| - 1])
    case BlankLineAfterIfMultiline(c) => EndsHard(c)
    case Group(ds, _, _) => ds != [] && EndsHard(ds[|ds| - 1])
    case Line(hard, _) => hard
    case IfBreak(b, f) => EndsHard(b) && EndsHard(f)
    case _ => false
  }

  lemma {:induction false} PropagateKeepsEnd(d: Document)
    ensures EndsHard(Propagate(d).0) == EndsHard(d)
    decreases d
  {
    match d {
      case Array(ds) => PropagateAllKeepsEnd(ds);
      case Indent(ds) => PropagateAllKeepsEnd(ds);
      case IndentIfBreak(ds) => PropagateAllKeepsEnd(ds);
      case BlankLineAfterIfMultiline(c) => PropagateKeepsEnd(c);
      case Group(ds, b, _) => PropagateAllKeepsEnd(ds);
      case IfBreak(b, _) => PropagateKeepsEnd(b);
      case _ =>
    }
  }

  lemma {:induction false} PropagateAllKeepsEnd(ds: seq<Document>)
    ensures ds != [] ==> EndsHard(PropagateAll(ds).0[|ds| - 1]) == EndsHard(ds[|ds| - 1])
    decreases ds
  {
    if ds != [] {
      PropagateKeepsEnd(ds[|ds| - 1]);
    }
  }

  // ----- Ends that are not checks -----

  /** The document does not end in a part that is followed by a blank line if it
      crossed a line, whatever is chosen. */
  ghost predicate EndsPlain(d: Document)
    decreases d
  {
    match d
    case Array(ds) => ds == [] || EndsPlain(ds[|ds| - 1])
    case Indent(ds) => ds == [] || EndsPlain(ds[|ds| - 1])
    case IndentIfBreak(ds) => ds == [] || EndsPlain(ds[|ds| - 1])
    case BlankLineAfterIfMultiline(_) => false
    case Group(ds, _, _) => ds == [] || EndsPlain(ds[|ds| - 1])
    case IfBreak(b, f) => EndsPlain(b) && EndsPlain(f)
    case _ => true
  }

  /** No line suffix anywhere in the document ends in such a part. */
  ghost predicate SuffixesEndPlain(d: Document)
    decreases d
  {
    match d
    case Array(ds) => forall i :: 0 <= i < |ds| ==> SuffixesEndPlain(ds[i])
    case Indent(ds) => forall i :: 0 <= i < |ds| ==> SuffixesEndPlain(ds[i])
    case IndentIfBreak(ds) => forall i :: 0 <= i < |ds| ==> SuffixesEndPlain(ds[i])
    case BlankLineAfterIfMultiline(c) => SuffixesEndPlain(c)
    case Group(ds, _, _) => forall i :: 0 <= i < |ds| ==> SuffixesEndPlain(ds[i])
    case LineSuffix(ds) =>
      (ds == [] || EndsPlain(ds[|ds| - 1])) && forall i :: 0 <= i < |ds| ==> SuffixesEndPlain(ds[i])
    case IfBreak(b, f) => SuffixesEndPlain(b) && SuffixesEndPlain(f)
    case _ => true
  }

  ghost predicate HasNoSuffix(d: Document)
    decreases d
  {
    match d
    case Array(ds) => forall i :: 0 <= i < |ds| ==> HasNoSuffix(ds[i])
    case Indent(ds) => forall i :: 0 <= i < |ds| ==> HasNoSuffix(ds[i])
    case IndentIfBreak(ds) => forall i :: 0 <= i < |ds| ==> HasNoSuffix(ds[i])
    case BlankLineAfterIfMultiline(c) => HasNoSuffix(c)
    case Group(ds, _, _) => forall i :: 0 <= i < |ds| ==> HasNoSuffix(ds[i])
    case LineSuffix(_) => false
    case IfBreak(b, f) => HasNoSuffix(b) && HasNoSuffix(f)
    case _ => true
  }

  lemma {:induction false} PropagateAddsNoSuffix(d: Document)
    requires HasNoSuffix(d)
    ensures HasNoSuffix(Propagate(d).0)
    decreases d
  {
    match d {
      case Array(ds) => PropagateAllAddsNoSuffix(ds);
      case Indent(ds) => PropagateAllAddsNoSuffix(ds);
      case IndentIfBreak(ds) => PropagateAllAddsNoSuffix(ds);
      case BlankLineAfterIfMultiline(c) => PropagateAddsNoSuffix(c);
      case Group(ds, _, _) => PropagateAllAddsNoSuffix(ds);
      case IfBreak(b, _) => PropagateAddsNoSuffix(b);
      case _ =>
    }
  }

  lemma {:induction false} PropagateAllAddsNoSuffix(ds: seq<Document>)
    requires forall i :: 0 <= i < |ds| ==> HasNoSuffix(ds[i])
    ensures forall i :: 0 <= i < |ds| ==> HasNoSuffix(PropagateAll(ds).0[i])
    decreases ds
  {
    if ds != [] {
      PropagateAddsNoSuffix(ds[|ds| - 1]);
      PropagateAllAddsNoSuffix(ds[..|ds| - 1]);
    }
  }

  lemma {:induction false} PropagateKeepsPlain(d: Document)
    ensures EndsPlain(Propagate(d).0) == EndsPlain(d)
    ensures SuffixesEndPlain(Propagate(d).0) == SuffixesEndPlain(d)
    decreases d
  {
    match d {
      case Array(ds) => PropagateAllKeepsPlain(ds);
      case Indent(ds) => PropagateAllKeepsPlain(ds);
      case IndentIfBreak(ds) => PropagateAllKeepsPlain(ds);
      case BlankLineAfterIfMultiline(c) => PropagateKeepsPlain(c);
      case Group(ds, _, _) => PropagateAllKeepsPlain(ds);
      case IfBreak(b, _) => PropagateKeepsPlain(b);
      case _ =>
    }
  }

  lemma {:induction false} PropagateAllKeepsPlain(ds: seq<Document>)
    ensures var ds' := PropagateAll(ds).0;
            forall i :: 0 <= i < |ds| ==>
              EndsPlain(ds'[i]) == EndsPlain(ds[i]) && SuffixesEndPlain(ds'[i]) == SuffixesEndPlain(ds[i])
    decreases ds
  {
    if ds != [] {
      PropagateKeepsPlain(ds[|ds| - 1]);
      PropagateAllKeepsPlain(ds[..|ds| - 1]);
    }
  }
}
