/** UTF-8 text as bytes, and its length in UTF-16 code units. */
module Utf8 {

  type Byte = x: int | 0 <= x < 256

  function Encoded(c: char): (b: seq<Byte>)
    ensures 1 <= |b| <= 4
    ensures !Continues(b[0]) && |b| == Length(b[0])
    ensures forall i :: 1 <= i < |b| ==> Continues(b[i])
    ensures forall i :: 0 <= i < |b| && b[i] < 0x80 ==> b == [b[i]]
  {
    var n := c as int;
    if n < 0x80 then [n]
    else if n < 0x800 then [0xC0 + n / 64, 0x80 + n % 64]
    else if n < 0x10000 then [0xE0 + n / 4096, 0x80 + n / 64 % 64, 0x80 + n % 64]
    else [0xF0 + n / 262144, 0x80 + n / 4096 % 64, 0x80 + n / 64 % 64, 0x80 + n % 64]
  }

  function Encode(s: string): seq<Byte> {
    if s == "" then [] else Encoded(s[0]) + Encode(s[1..])
  }

  /** The code point whose encoding this is. */
  function Decoded(b: seq<int>): int
    requires 1 <= |b| <= 4
  {
    match |b|
    case 1 => b[0]
    case 2 => (b[0] - 0xC0) * 64 + (b[1] - 0x80)
    case 3 => (b[0] - 0xE0) * 4096 + (b[1] - 0x80) * 64 + (b[2] - 0x80)
    case _ => (b[0] - 0xF0) * 262144 + (b[1] - 0x80) * 4096 + (b[2] - 0x80) * 64 + (b[3] - 0x80)
  }

  lemma DecodesBack(c: char)
    ensures Decoded(Encoded(c)) == c as int
  {
    var n := c as int;
    assert n / 64 / 64 == n / 4096 && n / 64 / 64 / 64 == n / 262144;
  }

  // ----- UTF-16 -----

  type Unit = x: int | 0 <= x < 0x10000

  /** One unit, or a pair of surrogates. */
  function EncodedUtf16(c: char): (u: seq<Unit>)
    ensures 1 <= |u| <= 2
  {
    var n := c as int;
    if n < 0x10000 then [n] else [0xD800 + (n - 0x10000) / 0x400, 0xDC00 + (n - 0x10000) % 0x400]
  }

  function EncodeUtf16(s: string): seq<Unit> {
    if s == "" then [] else EncodedUtf16(s[0]) + EncodeUtf16(s[1..])
  }

  /** The code point these units stand for; surrogates only come in pairs. */
  function DecodedUtf16(u: seq<int>): int
    requires 1 <= |u| <= 2
  {
    if |u| == 1 then u[0] else 0x10000 + (u[0] - 0xD800) * 0x400 + (u[1] - 0xDC00)
  }

  lemma Utf16DecodesBack(c: char)
    ensures DecodedUtf16(EncodedUtf16(c)) == c as int
    ensures var u := EncodedUtf16(c);
            if |u| == 1 then !(0xD800 <= u[0] < 0xE000) else 0xD800 <= u[0] < 0xDC00 <= u[1] < 0xE000
  {
  }

  // ----- Reading bytes -----

  predicate Continues(b: Byte) {
    0x80 <= b < 0xC0
  }

  /** The bytes of the character that starts with this byte. */
  function Length(b: Byte): nat {
    if b < 0x80 then 1 else if b < 0xE0 then 2 else if b < 0xF0 then 3 else 4
  }

  /** The code units of the character that starts with this byte. */
  function Units(b: Byte): nat {
    if b < 0xF0 then 1 else 2
  }

  function UnitsOf(bytes: seq<Byte>): nat {
    if bytes == [] then 0
    else (if Continues(bytes[0]) then 0 else Units(bytes[0])) + UnitsOf(bytes[1..])
  }

  predicate IsBoundary(bytes: seq<Byte>, o: nat) {
    o == 0 || o == |bytes| || (o < |bytes| && !Continues(bytes[o]))
  }

  // ----- Facts -----

  lemma {:induction false} UnitsSplit(a: seq<Byte>, b: seq<Byte>)
    ensures UnitsOf(a + b) == UnitsOf(a) + UnitsOf(b)
  {
    if a == [] {
      assert a + b == b;
    } else {
      assert (a + b)[1..] == a[1..] + b;
      UnitsSplit(a[1..], b);
    }
  }

  lemma {:induction false} ContinuationsAreFree(b: seq<Byte>)
    requires forall i :: 0 <= i < |b| ==> Continues(b[i])
    ensures UnitsOf(b) == 0
  {
    if b != [] {
      ContinuationsAreFree(b[1..]);
    }
  }

  lemma EncodedUnits(c: char)
    ensures UnitsOf(Encoded(c)) == Units(Encoded(c)[0]) == |EncodedUtf16(c)|
  {
    ContinuationsAreFree(Encoded(c)[1..]);
  }

  /** Counting units byte by byte gives the UTF-16 length of the text. */
  lemma {:induction false} UnitsAreUtf16(s: string)
    ensures UnitsOf(Encode(s)) == |EncodeUtf16(s)|
  {
    if s != "" {
      UnitsAreUtf16(s[1..]);
      EncodedUnits(s[0]);
      UnitsSplit(Encoded(s[0]), Encode(s[1..]));
    }
  }

  /** The boundaries of an encoded text are the ends of its prefixes. */
  lemma {:induction false} BoundaryEndsPrefix(s: string, o: nat) returns (k: nat)
    requires o <= |Encode(s)| && IsBoundary(Encode(s), o)
    ensures k <= |s| && Encode(s)[..o] == Encode(s[..k]) && Encode(s)[o..] == Encode(s[k..])
  {
    if o == 0 {
      k := 0;
      assert s[0..] == s;
    } else {
      var first, rest := Encoded(s[0]), Encode(s[1..]);
      assert Encode(s) == first + rest;
      assert |first| <= o;
      assert o < |Encode(s)| ==> Encode(s)[o] == rest[o - |first|];
      var j := BoundaryEndsPrefix(s[1..], o - |first|);
      k := j + 1;
      assert s[..k][1..] == s[1..][..j] && s[k..] == s[1..][j..];
      assert Encode(s)[..o] == first + rest[..o - |first|];
      assert Encode(s)[o..] == rest[o - |first|..];
    }
  }

  /** Between two boundaries of an encoded text lies an encoded part of it. */
  lemma SliceIsText(s: string, a: nat, b: nat) returns (i: nat, j: nat)
    requires a <= b <= |Encode(s)| && IsBoundary(Encode(s), a) && IsBoundary(Encode(s), b)
    ensures i <= j <= |s| && |Encode(s[..i])| == a && |Encode(s[..j])| == b
    ensures Encode(s)[a..b] == Encode(s[i..j])
  {
    hide Encode;
    j := BoundaryEndsPrefix(s, b);
    var prefix := s[..j];
    assert Encode(prefix) == Encode(s)[..b];
    i := BoundaryEndsPrefix(prefix, a);
    assert prefix[..i] == s[..i] && prefix[i..] == s[i..j];
    assert Encode(s)[a..b] == Encode(prefix)[a..];
  }
}
