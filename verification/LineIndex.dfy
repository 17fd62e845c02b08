/** Byte offsets and UTF-16 positions of a text, as the language server
    exchanges them. */
module LineIndex {
  import opened Utf8

  const MAX_U32: nat := 0xFFFF_FFFF
  const NEWLINE: Byte := 10
  const RETURN: Byte := 13

  datatype Position = Position(line: nat, character: nat)

  datatype LineIndex = LineIndex(bytes: seq<Byte>, starts: seq<nat>)

  function Saturated(n: nat): nat {
    if n <= MAX_U32 then n else MAX_U32
  }

  function Min(a: nat, b: nat): nat {
    if a <= b then a else b
  }

  ghost predicate Ascending(starts: seq<nat>) {
    forall i, j :: 0 <= i < j < |starts| ==> starts[i] < starts[j]
  }

  /** A line starts at the beginning and after each newline, nowhere else. */
  ghost predicate Indexed(ix: LineIndex) {
    && |ix.starts| > 0 && ix.starts[0] == 0 && Ascending(ix.starts)
    && (forall l :: 0 < l < |ix.starts| ==> 0 < ix.starts[l] <= |ix.bytes| && ix.bytes[ix.starts[l] - 1] == NEWLINE)
    && (forall p :: 0 <= p < |ix.bytes| && ix.bytes[p] == NEWLINE ==> p + 1 in ix.starts)
  }

  ghost predicate Indexes(ix: LineIndex, text: string) {
    Indexed(ix) && ix.bytes == Encode(text)
  }

  method NewIndex(bytes: seq<Byte>) returns (ix: LineIndex)
    ensures Indexed(ix) && ix.bytes == bytes
  {
    var starts: seq<nat> := [0];
    for k := 0 to |bytes|
      invariant |starts| > 0 && starts[0] == 0 && Ascending(starts) && starts[|starts| - 1] <= k
      invariant forall l :: 0 < l < |starts| ==> 0 < starts[l] <= k && bytes[starts[l] - 1] == NEWLINE
      invariant forall p :: 0 <= p < k && bytes[p] == NEWLINE ==> p + 1 in starts
    {
      if bytes[k] == NEWLINE {
        starts := starts + [k + 1];
      }
    }
    ix := LineIndex(bytes, starts);
  }

  /** The last line that starts at or before the offset. */
  function LineAt(starts: seq<nat>, o: nat): (l: nat)
    requires |starts| > 0 && starts[0] == 0
    ensures l < |starts| && starts[l] <= o
    ensures l + 1 < |starts| ==> o < starts[l + 1]
  {
    if starts[|starts| - 1] <= o then |starts| - 1 else LineAt(starts[..|starts| - 1], o)
  }

  /** The end of a line without its terminator. */
  function LineEnd(ix: LineIndex, l: nat): (e: nat)
    requires Indexed(ix) && l < |ix.starts|
    ensures ix.starts[l] <= e <= |ix.bytes|
    ensures l + 1 < |ix.starts| ==> e < ix.starts[l + 1]
  {
    if l + 1 == |ix.starts| then |ix.bytes|
    else
      var end := ix.starts[l + 1] - 1;
      if end > 0 && ix.bytes[end - 1] == RETURN then end - 1 else end
  }

  /** Between the end of a line and the next start lies exactly its terminator, a
      newline or a carriage return and a newline, and all of it; the last line
      ends with the text. */
  lemma LineEndIsExact(ix: LineIndex, l: nat)
    requires Indexed(ix) && l < |ix.starts|
    ensures l + 1 == |ix.starts| ==> LineEnd(ix, l) == |ix.bytes|
    ensures l + 1 < |ix.starts| ==>
      var end, next := LineEnd(ix, l), ix.starts[l + 1];
      && (ix.bytes[end..next] == [NEWLINE] || ix.bytes[end..next] == [RETURN, NEWLINE])
      && (ix.bytes[end..next] == [NEWLINE] ==> end == ix.starts[l] || ix.bytes[end - 1] != RETURN)
  {
  }

  function Newlines(bytes: seq<Byte>): nat {
    if bytes == [] then 0
    else Newlines(bytes[..|bytes| - 1]) + if bytes[|bytes| - 1] == NEWLINE then 1 else 0
  }

  lemma {:induction false} LineCounts(ix: LineIndex, o: nat)
    requires Indexed(ix) && o <= |ix.bytes|
    ensures LineAt(ix.starts, o) == Newlines(ix.bytes[..o])
  {
    hide LineAt, Indexed;
    if o == 0 {
      FirstLine(ix);
    } else {
      LineCounts(ix, o - 1);
      assert ix.bytes[..o][..o - 1] == ix.bytes[..o - 1] && ix.bytes[..o][o - 1] == ix.bytes[o - 1];
      LineSteps(ix, o);
    }
  }

  lemma FirstLine(ix: LineIndex)
    requires Indexed(ix)
    ensures LineAt(ix.starts, 0) == 0
  {
    hide LineAt;
    LinesAscend(ix, 0, LineAt(ix.starts, 0));
  }

  lemma LineSteps(ix: LineIndex, o: nat)
    requires Indexed(ix) && 0 < o <= |ix.bytes|
    ensures LineAt(ix.starts, o) == LineAt(ix.starts, o - 1) + if ix.bytes[o - 1] == NEWLINE then 1 else 0
  {
    hide LineAt;
    var l := LineAt(ix.starts, o - 1);
    if ix.bytes[o - 1] == NEWLINE {
      var k :| 0 <= k < |ix.starts| && ix.starts[k] == o;
      LinesAscend(ix, k, l);
      LinesAscend(ix, l + 1, k);
      LineAtIs(ix, o, l + 1);
    } else {
      LineAtIs(ix, o, l);
    }
  }

  function Clamped(bytes: seq<Byte>, o: nat): (c: nat)
    requires o <= |bytes|
    ensures c <= o && IsBoundary(bytes, c)
    ensures forall b :: c < b <= o ==> !IsBoundary(bytes, b)
  {
    if o > 0 && !IsBoundary(bytes, o) then Clamped(bytes, o - 1) else o
  }

  /** Where an offset lies once it is inside its line and not inside a character. */
  function Settled(ix: LineIndex, o: nat): nat
    requires Indexed(ix)
  {
    var c := Clamped(ix.bytes, Min(o, |ix.bytes|));
    Min(c, LineEnd(ix, LineAt(ix.starts, c)))
  }

  function PositionAt(ix: LineIndex, o: nat): Position
    requires Indexed(ix)
  {
    var c := Clamped(ix.bytes, Min(o, |ix.bytes|));
    var l := LineAt(ix.starts, c);
    Position(Saturated(l), Saturated(UnitsOf(ix.bytes[ix.starts[l]..Min(c, LineEnd(ix, l))])))
  }

  /** Goes on by whole characters until the units are used up or the end is met. */
  function Walked(bytes: seq<Byte>, at: nat, end: nat, remaining: nat): nat
    requires end <= |bytes|
    decreases end - at
  {
    if at >= end || remaining == 0 then at
    else
      Walked(bytes, at + Length(bytes[at]), end,
             if remaining < Units(bytes[at]) then 0 else remaining - Units(bytes[at]))
  }

  function OffsetAt(ix: LineIndex, p: Position): nat
    requires Indexed(ix)
  {
    if p.line >= |ix.starts| then |ix.bytes|
    else
      var end := LineEnd(ix, p.line);
      Min(Walked(ix.bytes, ix.starts[p.line], end, p.character), end)
  }

  // ----- Characters -----

  lemma CharacterShape(before: seq<Byte>, c: char, after: seq<Byte>)
    requires after != [] ==> !Continues(after[0])
    ensures var bytes, a := before + Encoded(c) + after, |before|;
            && Length(bytes[a]) == |Encoded(c)| && IsBoundary(bytes, a + |Encoded(c)|)
            && (forall o :: a < o < a + |Encoded(c)| ==> !IsBoundary(bytes, o))
            && UnitsOf(bytes[a..a + |Encoded(c)|]) == Units(bytes[a])
  {
    hide UnitsOf;
    var bytes, a := before + Encoded(c) + after, |before|;
    assert bytes[a..a + |Encoded(c)|] == Encoded(c);
    EncodedUnits(c);
    assert forall o :: a < o < a + |Encoded(c)| ==> bytes[o] == Encoded(c)[o - a];
  }

  lemma StartsWithLead(text: string)
    ensures Encode(text) != [] ==> !Continues(Encode(text)[0])
  {
  }

  /** A boundary before the end starts a character, and the next boundary ends it. */
  lemma FirstCharacter(text: string)
    requires Encode(text) != []
    ensures text != "" && Encode(text) == Encoded(text[0]) + Encode(text[1..])
  {
  }

  lemma CharacterAt(text: string, a: nat)
    requires a < |Encode(text)| && IsBoundary(Encode(text), a)
    ensures var bytes := Encode(text); var next := a + Length(bytes[a]);
            && next <= |bytes| && IsBoundary(bytes, next)
            && (forall o :: a < o < next ==> !IsBoundary(bytes, o))
            && UnitsOf(bytes[a..next]) == Units(bytes[a])
  {
    hide Encoded, UnitsOf, IsBoundary, Encode;
    var bytes := Encode(text);
    var k := BoundaryEndsPrefix(text, a);
    var rest := text[k..];
    FirstCharacter(rest);
    var before, after := Encode(text[..k]), Encode(rest[1..]);
    assert bytes == bytes[..a] + bytes[a..] == before + Encoded(rest[0]) + after;
    StartsWithLead(rest[1..]);
    CharacterShape(before, rest[0], after);
  }

  lemma StartIsBoundary(ix: LineIndex, text: string, l: nat)
    requires Indexes(ix, text) && l < |ix.starts|
    ensures IsBoundary(ix.bytes, ix.starts[l])
  {
    if l > 0 {
      CharacterAt(text, ix.starts[l] - 1);
    }
  }

  lemma EndIsBoundary(ix: LineIndex, l: nat)
    requires Indexed(ix) && l < |ix.starts|
    ensures IsBoundary(ix.bytes, LineEnd(ix, l))
  {
  }

  lemma NoUnits()
    ensures UnitsOf([]) == 0
  {
  }

  /** Walking the units between two boundaries arrives at the second. */
  lemma {:induction false} WalkArrives(text: string, a: nat, o: nat, end: nat)
    requires a <= o <= end <= |Encode(text)| && IsBoundary(Encode(text), a) && IsBoundary(Encode(text), o)
    ensures Walked(Encode(text), a, end, UnitsOf(Encode(text)[a..o])) == o
    decreases o - a
  {
    hide Encode, UnitsOf, IsBoundary;
    var bytes := Encode(text);
    if a == o {
      NoUnits();
    } else {
      CharacterAt(text, a);
      var next := a + Length(bytes[a]);
      assert next <= o;
      assert bytes[a..o] == bytes[a..next] + bytes[next..o];
      UnitsSplit(bytes[a..next], bytes[next..o]);
      WalkArrives(text, next, o, end);
    }
  }

  lemma LinesAscend(ix: LineIndex, l: nat, m: nat)
    requires Indexed(ix) && m < |ix.starts|
    ensures l < m ==> l + 1 < |ix.starts| && ix.starts[l + 1] <= ix.starts[m]
  {
  }

  lemma LineAtIs(ix: LineIndex, o: nat, l: nat)
    requires Indexed(ix) && l < |ix.starts| && ix.starts[l] <= o && (l + 1 < |ix.starts| ==> o < ix.starts[l + 1])
    ensures LineAt(ix.starts, o) == l
  {
    var m := LineAt(ix.starts, o);
    LinesAscend(ix, m, l);
    LinesAscend(ix, l, m);
  }

  // ----- Positions and offsets -----

  /** Every line and every column of the text fits in 32 bits. */
  ghost predicate Addressable(ix: LineIndex)
    requires Indexed(ix)
  {
    && |ix.starts| <= MAX_U32 + 1
    && forall l :: 0 <= l < |ix.starts| ==> UnitsOf(ix.bytes[ix.starts[l]..LineEnd(ix, l)]) <= MAX_U32
  }

  lemma UnitsAscend(bytes: seq<Byte>, start: nat, a: nat, b: nat)
    requires start <= a <= b <= |bytes|
    ensures UnitsOf(bytes[start..a]) <= UnitsOf(bytes[start..b])
  {
    assert bytes[start..b] == bytes[start..a] + bytes[a..b];
    UnitsSplit(bytes[start..a], bytes[a..b]);
  }

  lemma ColumnFits(ix: LineIndex, l: nat, o: nat)
    requires Indexed(ix) && Addressable(ix) && l < |ix.starts| && ix.starts[l] <= o <= LineEnd(ix, l)
    ensures l <= MAX_U32 && UnitsOf(ix.bytes[ix.starts[l]..o]) <= MAX_U32
  {
    UnitsAscend(ix.bytes, ix.starts[l], o, LineEnd(ix, l));
  }

  /** An offset comes back as the boundary at or before it, or as the end of its
      line if it lies in the terminator. */
  lemma OffsetOfPosition(ix: LineIndex, text: string, o: nat)
    requires Indexes(ix, text) && Addressable(ix)
    ensures OffsetAt(ix, PositionAt(ix, o)) == Settled(ix, o)
  {
    hide UnitsOf, IsBoundary, Walked, LineEnd, Encode, Addressable, Ascending, Clamped, LineAt;
    var c := Clamped(ix.bytes, Min(o, |ix.bytes|));
    var l := LineAt(ix.starts, c);
    var start, end := ix.starts[l], LineEnd(ix, l);
    StartIsBoundary(ix, text, l);
    EndIsBoundary(ix, l);
    ColumnFits(ix, l, Min(c, end));
    WalkArrives(text, start, Min(c, end), end);
  }

  /** The column is the UTF-16 length of the characters before it on its line. */
  lemma ColumnCountsUtf16(ix: LineIndex, text: string, o: nat) returns (i: nat, j: nat)
    requires Indexes(ix, text)
    ensures i <= j <= |text| && |Encode(text[..j])| == Settled(ix, o)
    ensures |Encode(text[..i])| == ix.starts[LineAt(ix.starts, Settled(ix, o))]
    ensures PositionAt(ix, o).character == Saturated(|EncodeUtf16(text[i..j])|)
  {
    hide UnitsOf, LineEnd, Ascending, Clamped, LineAt, Encode, IsBoundary;
    var c := Clamped(ix.bytes, Min(o, |ix.bytes|));
    var l := LineAt(ix.starts, c);
    var start, end := ix.starts[l], Min(c, LineEnd(ix, l));
    StartIsBoundary(ix, text, l);
    EndIsBoundary(ix, l);
    LineAtIs(ix, end, l);
    i, j := SliceIsText(text, start, end);
    UnitsAreUtf16(text[i..j]);
  }

  /** The line is the number of newlines before the offset. */
  lemma LineCountsNewlines(ix: LineIndex, o: nat)
    requires Indexed(ix)
    ensures PositionAt(ix, o).line == Saturated(Newlines(ix.bytes[..Settled(ix, o)]))
  {
    hide LineAt, Clamped, UnitsOf, Newlines;
    var c := Clamped(ix.bytes, Min(o, |ix.bytes|));
    var l := LineAt(ix.starts, c);
    LineAtIs(ix, Settled(ix, o), l);
    LineCounts(ix, Settled(ix, o));
  }

  /** What a position of an existing line means: the first boundary of the line
      with at least as many units before it, or the end of the line. */
  ghost predicate Means(ix: LineIndex, p: Position, o: nat)
    requires Indexed(ix) && p.line < |ix.starts|
  {
    var start, end := ix.starts[p.line], LineEnd(ix, p.line);
    && start <= o <= end && IsBoundary(ix.bytes, o)
    && (UnitsOf(ix.bytes[start..o]) >= p.character || o == end)
    && forall b :: start <= b < o && IsBoundary(ix.bytes, b) ==> UnitsOf(ix.bytes[start..b]) < p.character
  }

  lemma OffsetIsFirst(ix: LineIndex, text: string, p: Position)
    requires Indexes(ix, text) && p.line < |ix.starts|
    ensures Means(ix, p, OffsetAt(ix, p))
  {
    StartIsBoundary(ix, text, p.line);
    EndIsBoundary(ix, p.line);
    hide IsBoundary, UnitsOf, Walked, LineEnd, Encode;
    WalkIsFirst(text, ix.starts[p.line], LineEnd(ix, p.line), p.character);
  }

  lemma {:induction false} WalkIsFirst(text: string, a: nat, end: nat, remaining: nat)
    requires a <= end <= |Encode(text)| && IsBoundary(Encode(text), a) && IsBoundary(Encode(text), end)
    ensures var bytes := Encode(text);
            var o := Walked(bytes, a, end, remaining);
            && a <= o <= end && IsBoundary(bytes, o)
            && (UnitsOf(bytes[a..o]) >= remaining || o == end)
            && forall b :: a <= b < o && IsBoundary(bytes, b) ==> UnitsOf(bytes[a..b]) < remaining
    decreases end - a
  {
    hide Encode, UnitsOf, IsBoundary;
    var bytes := Encode(text);
    NoUnits();
    if a < end && remaining > 0 {
      CharacterAt(text, a);
      var next, units := a + Length(bytes[a]), Units(bytes[a]);
      assert next <= end;
      var left := if remaining < units then 0 else remaining - units;
      WalkIsFirst(text, next, end, left);
      var o := Walked(bytes, next, end, left);
      UnitsFrom(bytes, a, next, o);
      forall b | a <= b < o && IsBoundary(bytes, b)
        ensures UnitsOf(bytes[a..b]) < remaining
      {
        if b == a {
          assert bytes[a..b] == [];
        } else {
          assert next <= b;
          UnitsFrom(bytes, a, next, b);
        }
      }
    }
  }

  lemma UnitsFrom(bytes: seq<Byte>, a: nat, b: nat, c: nat)
    requires a <= b <= c <= |bytes|
    ensures UnitsOf(bytes[a..c]) == UnitsOf(bytes[a..b]) + UnitsOf(bytes[b..c])
  {
    assert bytes[a..c] == bytes[a..b] + bytes[b..c];
    UnitsSplit(bytes[a..b], bytes[b..c]);
  }

  /** A boundary not past the end of its line comes back unchanged. */
  lemma BoundaryRoundTrip(ix: LineIndex, text: string, o: nat)
    requires Indexes(ix, text) && Addressable(ix) && o <= |ix.bytes| && IsBoundary(ix.bytes, o)
    requires o <= LineEnd(ix, LineAt(ix.starts, o))
    ensures OffsetAt(ix, PositionAt(ix, o)) == o
  {
    OffsetOfPosition(ix, text, o);
  }

  /** The position names a character boundary of an existing line. */
  ghost predicate Exact(ix: LineIndex, p: Position)
    requires Indexed(ix)
  {
    p.line < |ix.starts| && exists o :: ExactAt(ix, p, o)
  }

  ghost predicate ExactAt(ix: LineIndex, p: Position, o: nat)
    requires Indexed(ix) && p.line < |ix.starts|
  {
    && ix.starts[p.line] <= o <= LineEnd(ix, p.line) && IsBoundary(ix.bytes, o)
    && UnitsOf(ix.bytes[ix.starts[p.line]..o]) == p.character
  }

  lemma PositionRoundTrip(ix: LineIndex, text: string, p: Position)
    requires Indexes(ix, text) && Addressable(ix) && Exact(ix, p)
    ensures PositionAt(ix, OffsetAt(ix, p)) == p
  {
    hide UnitsOf, IsBoundary, Walked, LineEnd, Encode, Addressable, Ascending, Clamped, LineAt;
    var o :| ExactAt(ix, p, o);
    StartIsBoundary(ix, text, p.line);
    EndIsBoundary(ix, p.line);
    WalkArrives(text, ix.starts[p.line], o, LineEnd(ix, p.line));
    assert OffsetAt(ix, p) == o;
    ClampsToItself(ix.bytes, o);
    LineAtIs(ix, o, p.line);
    ColumnFits(ix, p.line, o);
  }

  ghost predicate NotAfter(p: Position, q: Position) {
    p.line < q.line || (p.line == q.line && p.character <= q.character)
  }

  lemma ClampsToItself(bytes: seq<Byte>, o: nat)
    requires o <= |bytes| && IsBoundary(bytes, o)
    ensures Clamped(bytes, o) == o
  {
  }

  lemma ClampAscends(bytes: seq<Byte>, a: nat, b: nat)
    requires a <= b <= |bytes|
    ensures Clamped(bytes, a) <= Clamped(bytes, b)
  {
    hide IsBoundary, Clamped;
    assert IsBoundary(bytes, Clamped(bytes, a));
  }

  /** A later offset never has an earlier position. */
  lemma PositionsAscend(ix: LineIndex, a: nat, b: nat)
    requires Indexed(ix) && |ix.starts| <= MAX_U32 + 1 && a <= b
    ensures NotAfter(PositionAt(ix, a), PositionAt(ix, b))
  {
    hide UnitsOf, IsBoundary, LineEnd, Clamped, LineAt, Ascending;
    ClampAscends(ix.bytes, Min(a, |ix.bytes|), Min(b, |ix.bytes|));
    var c, d := Clamped(ix.bytes, Min(a, |ix.bytes|)), Clamped(ix.bytes, Min(b, |ix.bytes|));
    var l, m := LineAt(ix.starts, c), LineAt(ix.starts, d);
    LinesAscend(ix, m, l);
    if l == m {
      UnitsAscend(ix.bytes, ix.starts[l], Min(c, LineEnd(ix, l)), Min(d, LineEnd(ix, l)));
    }
  }

  // ----- The loops -----

  method ClampToBoundary(bytes: seq<Byte>, offset: nat) returns (r: nat)
    ensures r == Clamped(bytes, Min(offset, |bytes|))
  {
    r := Min(offset, |bytes|);
    while r > 0 && !IsBoundary(bytes, r)
      invariant r <= |bytes| && Clamped(bytes, r) == Clamped(bytes, Min(offset, |bytes|))
    {
      r := r - 1;
    }
  }

  method FindLine(ix: LineIndex, offset: nat) returns (l: nat)
    requires Indexed(ix)
    ensures l == LineAt(ix.starts, offset)
  {
    var low, high := 0, |ix.starts|;
    while low < high
      invariant low <= high <= |ix.starts|
      invariant forall i :: 0 <= i < low ==> ix.starts[i] <= offset
      invariant forall i :: high <= i < |ix.starts| ==> offset < ix.starts[i]
    {
      var middle := (low + high) / 2;
      if ix.starts[middle] <= offset {
        low := middle + 1;
      } else {
        high := middle;
      }
    }
    l := low - 1;
    LineAtIs(ix, offset, l);
  }

  method PositionOf(ix: LineIndex, offset: nat) returns (p: Position)
    requires Indexed(ix)
    ensures p == PositionAt(ix, offset)
    ensures p.line == Saturated(Newlines(ix.bytes[..Settled(ix, offset)]))
  {
    LineCountsNewlines(ix, offset);
    hide Newlines, UnitsOf;
    var clamped := ClampToBoundary(ix.bytes, offset);
    var line := FindLine(ix, clamped);
    var end := Min(clamped, LineEnd(ix, line));
    p := Position(Saturated(line), Saturated(UnitsOf(ix.bytes[ix.starts[line]..end])));
  }

  method OffsetOf(ix: LineIndex, p: Position) returns (r: nat)
    requires Indexed(ix)
    ensures r == OffsetAt(ix, p)
    ensures p.line >= |ix.starts| ==> r == |ix.bytes|
    ensures p.line < |ix.starts| ==> forall text :: Indexes(ix, text) ==> Means(ix, p, r)
  {
    hide Means, Indexes;
    forall text | p.line < |ix.starts| && Indexes(ix, text)
      ensures Means(ix, p, OffsetAt(ix, p))
    {
      OffsetIsFirst(ix, text, p);
    }
    if p.line >= |ix.starts| {
      return |ix.bytes|;
    }
    var end := LineEnd(ix, p.line);
    var at, remaining := ix.starts[p.line], p.character;
    while at < end && remaining != 0
      invariant Walked(ix.bytes, at, end, remaining) == Walked(ix.bytes, ix.starts[p.line], end, p.character)
      decreases end - at
    {
      var units := Units(ix.bytes[at]);
      remaining := if remaining < units then 0 else remaining - units;
      at := at + Length(ix.bytes[at]);
    }
    r := Min(at, end);
  }
}
