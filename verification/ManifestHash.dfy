/** The byte stream that is fed to the manifest hash, and why it pins down the
    manifest. */
module ManifestHash {
  import opened Wrappers
  import opened Utf8

  /** The UTF-8 bytes of a string. */
  type Text = seq<Byte>

  type Entry = (Text, Text)

  /** The parts of a manifest that decide a resolution. Maps are given by their
      entries in key order, sources by their identity. */
  datatype Manifest = Manifest(
    whim: Option<Text>,
    autoload: seq<Entry>,
    runtime: seq<Entry>,
    conflicts: seq<Entry>,
    development: seq<Entry>,
    overrides: seq<Entry>)

  predicate IsAscii(s: string) {
    forall i :: 0 <= i < |s| ==> s[i] as int < 0x80
  }

  function Ascii(s: string): (t: Text)
    requires IsAscii(s)
    ensures |t| == |s| && forall i :: 0 <= i < |s| ==> t[i] == s[i] as int
  {
    seq(|s|, i requires 0 <= i < |s| => s[i] as int)
  }

  /** What introduces a stream or a section. */
  type Marker = s: string | IsAscii(s) && |s| < 32

  const ROOT_MANIFEST: Marker := "root-manifest-v1"
  const CONSUMED_MANIFEST: Marker := "consumed-manifest-v1"
  const REQUIREMENTS: Marker := "requirements"
  const AUTOLOAD: Marker := "autoload"
  const RUNTIME: Marker := "runtime"
  const CONFLICTS: Marker := "conflicts"
  const DEVELOPMENT: Marker := "development"
  const OVERRIDES: Marker := "overrides"

  // ----- The stream -----

  /** The low `k` bytes of `n`, least first. */
  function LittleEndian(n: nat, k: nat): (b: seq<Byte>)
    ensures |b| == k
  {
    if k == 0 then [] else [n % 256] + LittleEndian(n / 256, k - 1)
  }

  function Framed(t: Text): seq<Byte> {
    LittleEndian(|t|, 8) + t
  }

  function Optional(t: Option<Text>): seq<Byte> {
    if t.Some? then [1] + Framed(t.value) else [0]
  }

  function Entries(entries: seq<Entry>): seq<Byte> {
    if entries == [] then [] else Framed(entries[0].0) + Framed(entries[0].1) + Entries(entries[1..])
  }

  /** A marker and the entries of its section. */
  function Section(marker: Marker, entries: seq<Entry>): seq<Byte> {
    Framed(Ascii(marker)) + Entries(entries)
  }

  function Common(m: Manifest): seq<Byte> {
    Framed(Ascii(REQUIREMENTS)) + (Optional(m.whim) + (Section(AUTOLOAD, m.autoload) +
    (Section(RUNTIME, m.runtime) + Section(CONFLICTS, m.conflicts))))
  }

  function RootStream(m: Manifest): seq<Byte> {
    Framed(Ascii(ROOT_MANIFEST)) +
    (Common(m) + (Section(DEVELOPMENT, m.development) + Section(OVERRIDES, m.overrides)))
  }

  function ConsumedStream(m: Manifest): seq<Byte> {
    Framed(Ascii(CONSUMED_MANIFEST)) + Common(m)
  }

  // ----- Feeding it -----

  class Hasher {
    var fed: seq<Byte>

    constructor ()
      ensures fed == []
    {
      fed := [];
    }

    method Update(bytes: seq<Byte>)
      modifies this
      ensures fed == old(fed) + bytes
    {
      fed := fed + bytes;
    }

    method HashText(t: Text)
      modifies this
      ensures fed == old(fed) + Framed(t)
    {
      Update(LittleEndian(|t|, 8));
      Update(t);
    }

    method HashOptional(t: Option<Text>)
      modifies this
      ensures fed == old(fed) + Optional(t)
    {
      if t.Some? {
        Update([1]);
        HashText(t.value);
      } else {
        Update([0]);
      }
    }

    method HashEntries(entries: seq<Entry>)
      modifies this
      ensures fed == old(fed) + Entries(entries)
    {
      hide Framed;
      for k := 0 to |entries|
        invariant fed + Entries(entries[k..]) == old(fed) + Entries(entries)
      {
        ghost var before := fed;
        HashText(entries[k].0);
        HashText(entries[k].1);
        assert entries[k..][1..] == entries[k + 1..];
        assert fed + Entries(entries[k + 1..]) == before + Entries(entries[k..]);
      }
      assert entries[|entries|..] == [];
    }

    method HashCommon(m: Manifest)
      modifies this
      ensures fed == old(fed) + Common(m)
    {
      hide Framed, Optional, Entries;
      HashText(Ascii(REQUIREMENTS));
      HashOptional(m.whim);
      HashText(Ascii(AUTOLOAD));
      HashEntries(m.autoload);
      HashText(Ascii(RUNTIME));
      HashEntries(m.runtime);
      HashText(Ascii(CONFLICTS));
      HashEntries(m.conflicts);
    }
  }

  method ResolutionStream(m: Manifest) returns (stream: seq<Byte>)
    ensures stream == RootStream(m)
    ensures Valid(m) ==> ReadRoot(stream) == Some(m)
  {
    hide Common, Framed, Entries, Valid, ReadRoot;
    assert Valid(m) ==> ReadRoot(RootStream(m)) == Some(m) by {
      if Valid(m) {
        RootReadsBack(m);
      }
    }
    var hasher := new Hasher();
    hasher.HashText(Ascii(ROOT_MANIFEST));
    hasher.HashCommon(m);
    hasher.HashText(Ascii(DEVELOPMENT));
    hasher.HashEntries(m.development);
    hasher.HashText(Ascii(OVERRIDES));
    hasher.HashEntries(m.overrides);
    return hasher.fed;
  }

  method ConsumedResolutionStream(m: Manifest) returns (stream: seq<Byte>)
    ensures stream == ConsumedStream(m)
    ensures Valid(m) ==> ReadConsumed(stream) == Some(m.(development := [], overrides := []))
  {
    hide Common, Framed, Valid, ReadConsumed;
    assert Valid(m) ==> ReadConsumed(ConsumedStream(m)) == Some(Consumed(m)) by {
      if Valid(m) {
        ConsumedReadsBack(m);
      }
    }
    var hasher := new Hasher();
    hasher.HashText(Ascii(CONSUMED_MANIFEST));
    hasher.HashCommon(m);
    return hasher.fed;
  }

  // ----- Reading it back -----

  /** The number whose bytes these are, the least first. */
  function Number(bytes: seq<Byte>): nat {
    if bytes == [] then 0 else bytes[0] + 256 * Number(bytes[1..])
  }

  function Bound(k: nat): nat {
    if k == 0 then 1 else 256 * Bound(k - 1)
  }

  lemma {:induction false} NumberReads(n: nat, k: nat)
    requires n < Bound(k)
    ensures Number(LittleEndian(n, k)) == n
  {
    if k > 0 {
      NumberReads(n / 256, k - 1);
      assert LittleEndian(n, k)[1..] == LittleEndian(n / 256, k - 1);
    }
  }

  ghost predicate Short(t: Text) {
    |t| < Bound(8)
  }

  /** The text in front and what follows it. */
  function ReadText(b: seq<Byte>): (r: Option<(Text, seq<Byte>)>)
    ensures r.Some? ==> |r.value.1| < |b|
  {
    if |b| < 8 || |b| - 8 < Number(b[..8]) then None
    else
      var end := 8 + Number(b[..8]);
      Some((b[8..end], b[end..]))
  }

  function ReadOptional(b: seq<Byte>): Option<(Option<Text>, seq<Byte>)> {
    if b == [] || b[0] > 1 then None
    else if b[0] == 0 then Some((None, b[1..]))
    else
      var (t, rest) :- ReadText(b[1..]);
      Some((Some(t), rest))
  }

  /** What follows the marker. */
  function ReadMarker(marker: Marker, b: seq<Byte>): Option<seq<Byte>> {
    var (t, rest) :- ReadText(b);
    if t == Ascii(marker) then Some(rest) else None
  }

  /** The entries up to the marker or the end, and what follows them. */
  function ReadEntries(marker: Marker, b: seq<Byte>): Option<(seq<Entry>, seq<Byte>)>
    decreases |b|
  {
    if b == [] then Some(([], []))
    else
      var (key, afterKey) :- ReadText(b);
      if key == Ascii(marker) then Some(([], b))
      else
        var (value, afterValue) :- ReadText(afterKey);
        var (entries, rest) :- ReadEntries(marker, afterValue);
        Some(([(key, value)] + entries, rest))
  }

  /** The entries of a section, which ends at the marker of the next. */
  function ReadSection(marker: Marker, next: Marker, b: seq<Byte>): Option<(seq<Entry>, seq<Byte>)> {
    var rest :- ReadMarker(marker, b);
    ReadEntries(next, rest)
  }

  /** The data both streams hold, and what follows it. */
  function ReadCommon(b: seq<Byte>): Option<(Manifest, seq<Byte>)> {
    var b1 :- ReadMarker(REQUIREMENTS, b);
    var (whim, b2) :- ReadOptional(b1);
    var (autoload, b3) :- ReadSection(AUTOLOAD, RUNTIME, b2);
    var (runtime, b4) :- ReadSection(RUNTIME, CONFLICTS, b3);
    var (conflicts, rest) :- ReadSection(CONFLICTS, DEVELOPMENT, b4);
    Some((Manifest(whim, autoload, runtime, conflicts, [], []), rest))
  }

  function ReadRoot(b: seq<Byte>): Option<Manifest> {
    var b1 :- ReadMarker(ROOT_MANIFEST, b);
    var (m, b2) :- ReadCommon(b1);
    var (development, b3) :- ReadSection(DEVELOPMENT, OVERRIDES, b2);
    var (overrides, rest) :- ReadSection(OVERRIDES, OVERRIDES, b3);
    if rest == [] then Some(m.(development := development, overrides := overrides)) else None
  }

  function ReadConsumed(b: seq<Byte>): Option<Manifest> {
    var b1 :- ReadMarker(CONSUMED_MANIFEST, b);
    var (m, rest) :- ReadCommon(b1);
    if rest == [] then Some(m) else None
  }

  // ----- Each part is read back -----

  /** A frame ends where its length says. */
  lemma TextReads(t: Text, x: seq<Byte>)
    requires Short(t)
    ensures ReadText(Framed(t) + x) == Some((t, x))
  {
    hide Bound, LittleEndian, Number;
    var b := Framed(t) + x;
    assert b[..8] == LittleEndian(|t|, 8);
    NumberReads(|t|, 8);
    assert b[8..8 + |t|] == t && b[8 + |t|..] == x;
  }

  lemma OptionalReads(t: Option<Text>, x: seq<Byte>)
    requires t.Some? ==> Short(t.value)
    ensures ReadOptional(Optional(t) + x) == Some((t, x))
  {
    hide Framed, ReadText, Short;
    var b := Optional(t) + x;
    if t.Some? {
      assert b[1..] == Framed(t.value) + x;
      TextReads(t.value, x);
    } else {
      assert b[1..] == x;
    }
  }

  lemma MarkerReads(marker: Marker, x: seq<Byte>)
    ensures ReadMarker(marker, Framed(Ascii(marker)) + x) == Some(x)
  {
    hide Framed, ReadText;
    MarkerIsShort(marker);
    TextReads(Ascii(marker), x);
  }

  lemma MarkerIsShort(marker: Marker)
    ensures Short(Ascii(marker))
  {
    assert Bound(2) == 65536;
    BoundGrows(2, 8);
  }

  lemma {:induction false} BoundGrows(j: nat, k: nat)
    requires j <= k
    ensures Bound(j) <= Bound(k)
    decreases k
  {
    if j < k {
      BoundGrows(j, k - 1);
    }
  }

  /** Nothing follows, or the frame of the marker does. */
  ghost predicate Closes(marker: Marker, x: seq<Byte>) {
    x == [] || exists rest :: x == Framed(Ascii(marker)) + rest
  }

  ghost predicate Avoids(entries: seq<Entry>, marker: Marker) {
    forall i :: 0 <= i < |entries| ==> Short(entries[i].0) && Short(entries[i].1) && entries[i].0 != Ascii(marker)
  }

  lemma FrameIsNotEmpty(t: Text)
    ensures |Framed(t)| >= 8
  {
  }

  lemma FirstEntry(entries: seq<Entry>, x: seq<Byte>)
    requires entries != []
    ensures Entries(entries) + x == Framed(entries[0].0) + (Framed(entries[0].1) + (Entries(entries[1..]) + x))
  {
  }

  /** A list of entries is read back if no key is the marker that closes it. */
  lemma {:induction false} EntriesRead(marker: Marker, entries: seq<Entry>, x: seq<Byte>)
    requires Avoids(entries, marker) && Closes(marker, x)
    ensures ReadEntries(marker, Entries(entries) + x) == Some((entries, x))
  {
    hide Framed, ReadText, Short;
    if entries == [] {
      assert Entries(entries) + x == x;
      if x != [] {
        var rest :| x == Framed(Ascii(marker)) + rest;
        MarkerIsShort(marker);
        TextReads(Ascii(marker), rest);
      }
    } else {
      FirstEntry(entries, x);
      FrameIsNotEmpty(entries[0].0);
      var after := Entries(entries[1..]) + x;
      TextReads(entries[0].0, Framed(entries[0].1) + after);
      TextReads(entries[0].1, after);
      EntriesRead(marker, entries[1..], x);
      assert entries == [entries[0]] + entries[1..];
    }
  }

  lemma SectionReads(marker: Marker, next: Marker, entries: seq<Entry>, x: seq<Byte>)
    requires Avoids(entries, next) && Closes(next, x)
    ensures ReadSection(marker, next, Section(marker, entries) + x) == Some((entries, x))
  {
    hide Framed, Entries, ReadMarker, ReadEntries, Avoids, Closes;
    assert Section(marker, entries) + x == Framed(Ascii(marker)) + (Entries(entries) + x);
    MarkerReads(marker, Entries(entries) + x);
    EntriesRead(next, entries, x);
  }

  lemma SectionCloses(marker: Marker, entries: seq<Entry>, x: seq<Byte>)
    ensures Closes(marker, Section(marker, entries) + x)
  {
    assert Section(marker, entries) + x == Framed(Ascii(marker)) + (Entries(entries) + x);
  }

  // ----- Valid manifests -----

  /** Prefixes end in a backslash, as the manifest check demands. */
  ghost predicate Prefixes(entries: seq<Entry>) {
    forall i :: 0 <= i < |entries| ==>
      && Short(entries[i].0) && Short(entries[i].1)
      && entries[i].0 != [] && entries[i].0[|entries[i].0| - 1] == '\\' as int
  }

  /** Sources are named by identities, and these start with `git+`. */
  ghost predicate Identities(entries: seq<Entry>) {
    forall i :: 0 <= i < |entries| ==>
      Short(entries[i].0) && Short(entries[i].1) && Ascii("git+") <= entries[i].0
  }

  ghost predicate Valid(m: Manifest) {
    && (m.whim.Some? ==> Short(m.whim.value))
    && Prefixes(m.autoload) && Identities(m.runtime) && Identities(m.conflicts)
    && Identities(m.development) && Identities(m.overrides)
  }

  lemma PrefixesAvoid(entries: seq<Entry>, marker: Marker)
    requires Prefixes(entries) && marker != "" && marker[|marker| - 1] != '\\'
    ensures Avoids(entries, marker)
  {
  }

  lemma IdentitiesAvoid(entries: seq<Entry>, marker: Marker)
    requires Identities(entries) && marker != "" && marker[0] != 'g'
    ensures Avoids(entries, marker)
  {
  }

  // ----- Whole streams -----

  function AfterWhim(m: Manifest, x: seq<Byte>): seq<Byte> {
    Section(AUTOLOAD, m.autoload) + (Section(RUNTIME, m.runtime) + (Section(CONFLICTS, m.conflicts) + x))
  }

  lemma CommonIs(m: Manifest, x: seq<Byte>)
    ensures Common(m) + x == Framed(Ascii(REQUIREMENTS)) + (Optional(m.whim) + AfterWhim(m, x))
  {
    hide Section, Framed, Optional;
  }

  /** What a consumer of the package depends on. */
  function Consumed(m: Manifest): Manifest {
    m.(development := [], overrides := [])
  }

  lemma CommonReads(m: Manifest, x: seq<Byte>)
    requires Valid(m) && Closes(DEVELOPMENT, x)
    ensures ReadCommon(Common(m) + x) == Some((Consumed(m), x))
  {
    CommonIs(m, x);
    PrefixesAvoid(m.autoload, RUNTIME);
    IdentitiesAvoid(m.runtime, CONFLICTS);
    IdentitiesAvoid(m.conflicts, DEVELOPMENT);
    hide Common, Section, Framed, Optional, Closes, Prefixes, Identities, Avoids;
    hide ReadMarker, ReadOptional, ReadSection;
    var conflicts := Section(CONFLICTS, m.conflicts) + x;
    var runtime := Section(RUNTIME, m.runtime) + conflicts;
    var autoload := Section(AUTOLOAD, m.autoload) + runtime;
    MarkerReads(REQUIREMENTS, Optional(m.whim) + autoload);
    OptionalReads(m.whim, autoload);
    SectionCloses(RUNTIME, m.runtime, conflicts);
    SectionReads(AUTOLOAD, RUNTIME, m.autoload, runtime);
    SectionCloses(CONFLICTS, m.conflicts, x);
    SectionReads(RUNTIME, CONFLICTS, m.runtime, conflicts);
    SectionReads(CONFLICTS, DEVELOPMENT, m.conflicts, x);
  }

  lemma NothingCloses(marker: Marker)
    ensures Closes(marker, [])
  {
  }

  /** A valid manifest can be read back from what is fed to the root hash. */
  lemma RootReadsBack(m: Manifest)
    requires Valid(m)
    ensures ReadRoot(RootStream(m)) == Some(m)
  {
    IdentitiesAvoid(m.development, OVERRIDES);
    IdentitiesAvoid(m.overrides, OVERRIDES);
    hide Common, Section, Framed, Closes, Valid, Avoids, ReadMarker, ReadSection, ReadCommon;
    var overrides := Section(OVERRIDES, m.overrides);
    var rest := Section(DEVELOPMENT, m.development) + overrides;
    assert overrides + [] == overrides;
    MarkerReads(ROOT_MANIFEST, Common(m) + rest);
    SectionCloses(DEVELOPMENT, m.development, overrides);
    CommonReads(m, rest);
    SectionCloses(OVERRIDES, m.overrides, []);
    SectionReads(DEVELOPMENT, OVERRIDES, m.development, overrides);
    NothingCloses(OVERRIDES);
    SectionReads(OVERRIDES, OVERRIDES, m.overrides, []);
  }

  /** And what a consumer depends on, from what is fed to the consumed hash. */
  lemma ConsumedReadsBack(m: Manifest)
    requires Valid(m)
    ensures ReadConsumed(ConsumedStream(m)) == Some(Consumed(m))
  {
    hide Common, Framed, Closes, Valid, ReadMarker, ReadCommon;
    assert Common(m) + [] == Common(m);
    MarkerReads(CONSUMED_MANIFEST, Common(m));
    NothingCloses(DEVELOPMENT);
    CommonReads(m, []);
  }

  /** Two valid manifests feed the root hash alike exactly if they are alike. */
  lemma RootStreamIsUnique(m: Manifest, n: Manifest)
    requires Valid(m) && Valid(n)
    ensures RootStream(m) == RootStream(n) <==> m == n
  {
    RootReadsBack(m);
    RootReadsBack(n);
  }

  /** The consumed hash sees exactly what a consumer of the package depends on. */
  lemma ConsumedStreamIsUnique(m: Manifest, n: Manifest)
    requires Valid(m) && Valid(n)
    ensures ConsumedStream(m) == ConsumedStream(n) <==>
              m.whim == n.whim && m.autoload == n.autoload && m.runtime == n.runtime && m.conflicts == n.conflicts
  {
    hide Valid, ReadConsumed;
    ConsumedReadsBack(m);
    ConsumedReadsBack(n);
  }

  /** A root stream is never a consumed one. */
  lemma StreamsAreApart(m: Manifest, n: Manifest)
    ensures RootStream(m) != ConsumedStream(n)
  {
    hide Common, Section, Framed, ReadText;
    var x := Common(m) + (Section(DEVELOPMENT, m.development) + Section(OVERRIDES, m.overrides));
    MarkerIsShort(ROOT_MANIFEST);
    MarkerIsShort(CONSUMED_MANIFEST);
    TextReads(Ascii(ROOT_MANIFEST), x);
    TextReads(Ascii(CONSUMED_MANIFEST), Common(n));
  }
}
