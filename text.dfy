/** The parts of Python's `str` that the program relies on: `strip()`, `split(sep)`,
    `upper()` inside a comparison, `str(n)` and `int(s)` for integers, and the shape
    of the six-character keys cut from `uuid4().hex`. */
module Text {
  import opened Wrappers

  /** The characters for which Python's `str.isspace()` holds: exactly those `str.strip()` removes. */
  const SpaceChars: set<char> :=
    {' ', '\t', '\n', '\U{0B}', '\U{0C}', '\r', '\U{1C}', '\U{1D}', '\U{1E}', '\U{1F}', '\U{85}', '\U{A0}', '\U{1680}', '\U{2000}', '\U{2001}', '\U{2002}', '\U{2003}', '\U{2004}', '\U{2005}', '\U{2006}', '\U{2007}', '\U{2008}', '\U{2009}', '\U{200A}', '\U{2028}', '\U{2029}', '\U{202F}', '\U{205F}', '\U{3000}'}

  predicate IsSpace(c: char) {
    c in SpaceChars
  }

  /** How many white-space characters `s` starts with. */
  function LeadingSpaces(s: string): (n: nat)
    ensures n <= |s|
    ensures n < |s| ==> !IsSpace(s[n])
  {
    if s != [] && IsSpace(s[0]) then 1 + LeadingSpaces(s[1..]) else 0
  }

  /** What `LeadingSpaces` counts is white space. */
  lemma {:induction false} LeadingSpacesAreSpace(s: string)
    ensures forall i :: 0 <= i < LeadingSpaces(s) ==> IsSpace(s[i])
  {
    if s != [] && IsSpace(s[0]) {
      LeadingSpacesAreSpace(s[1..]);
      forall i | 1 <= i < LeadingSpaces(s) ensures IsSpace(s[i]) {
        assert s[i] == s[1..][i - 1];
      }
    }
  }

  /** How long `s` is once its trailing white space is dropped. */
  function KeptLength(s: string): (n: nat)
    ensures n <= |s|
    ensures n > 0 ==> !IsSpace(s[n - 1])
  {
    if s != [] && IsSpace(s[|s| - 1]) then KeptLength(s[..|s| - 1]) else |s|
  }

  /** What `KeptLength` leaves out is white space. */
  lemma {:induction false} TrailingSpacesAreSpace(s: string)
    ensures forall i :: KeptLength(s) <= i < |s| ==> IsSpace(s[i])
  {
    if s != [] && IsSpace(s[|s| - 1]) {
      TrailingSpacesAreSpace(s[..|s| - 1]);
      forall i | KeptLength(s) <= i < |s| - 1 ensures IsSpace(s[i]) {
        assert s[i] == s[..|s| - 1][i];
      }
    }
  }

  /** `s.strip()`: the leading white space dropped, then the trailing white space. */
  function Strip(s: string): (r: string)
    ensures |r| <= |s|
    ensures r == [] || (!IsSpace(r[0]) && !IsSpace(r[|r| - 1]))
  {
    var t := s[LeadingSpaces(s)..];
    t[..KeptLength(t)]
  }

  /** What `Strip` keeps is one slice of its input, and what it drops is white space. */
  lemma StripSlice(s: string) returns (i: nat, j: nat)
    ensures i <= j <= |s| && Strip(s) == s[i..j]
    ensures forall k :: 0 <= k < i ==> IsSpace(s[k])
    ensures forall k :: j <= k < |s| ==> IsSpace(s[k])
  {
    i := LeadingSpaces(s);
    var t := s[i..];
    j := i + KeptLength(t);
    LeadingSpacesAreSpace(s);
    TrailingSpacesAreSpace(t);
    assert t[..KeptLength(t)] == s[i..j];
    forall k | j <= k < |s| ensures IsSpace(s[k]) {
      assert s[k] == t[k - i];
    }
  }

  /** A string without white space strips to itself. */
  lemma StripNoSpace(s: string)
    requires forall k :: 0 <= k < |s| ==> !IsSpace(s[k])
    ensures LeadingSpaces(s) == 0 && KeptLength(s) == |s| && Strip(s) == s
  {
    assert s == [] || !IsSpace(s[0]);
    assert s == [] || !IsSpace(s[|s| - 1]);
    assert s[0..] == s && s[..|s|] == s;
  }

  /** Stripping twice removes nothing more than stripping once. */
  lemma StripIdempotent(s: string)
    ensures Strip(Strip(s)) == Strip(s)
  {
    var r := Strip(s);
    assert r == [] || !IsSpace(r[0]);
    assert LeadingSpaces(r) == 0;
    assert r[0..] == r;
    assert r == [] || !IsSpace(r[|r| - 1]);
    assert KeptLength(r) == |r|;
    assert r[..|r|] == r;
  }

  /** A line strips to nothing exactly when it is all white space. */
  lemma StripEmptyIffBlank(s: string)
    ensures Strip(s) == [] <==> forall k :: 0 <= k < |s| ==> IsSpace(s[k])
  {
    var i, j := StripSlice(s);
    if Strip(s) != [] {
      assert s[i] == Strip(s)[0];
    }
  }

  /** `sep` occurs in `s` at position `i`. */
  predicate OccursAt(s: string, sep: string, i: nat) {
    i + |sep| <= |s| && s[i..i + |sep|] == sep
  }

  /** The leftmost occurrence of `sep` in `s` at or after `from`, as `str.find` finds it. */
  function FindFrom(s: string, sep: string, from: nat): (r: Option<nat>)
    requires from <= |s|
    ensures r.Some? ==> from <= r.value && OccursAt(s, sep, r.value)
    ensures forall i: nat :: from <= i && (r.None? || i < r.value) ==> !OccursAt(s, sep, i)
    decreases |s| - from
  {
    if OccursAt(s, sep, from) then Some(from)
    else if from == |s| then None
    else FindFrom(s, sep, from + 1)
  }

  /** `s.split(sep)` for a non-empty separator: cut at every occurrence, scanning left to right. */
  function Split(s: string, sep: string): (parts: seq<string>)
    requires sep != []
    ensures |parts| >= 1
    decreases |s|
  {
    match FindFrom(s, sep, 0)
    case None => [s]
    case Some(i) => [s[..i]] + Split(s[i + |sep|..], sep)
  }

  /** `sep.join(parts)`. */
  function Join(parts: seq<string>, sep: string): string
    requires |parts| >= 1
  {
    if |parts| == 1 then parts[0] else parts[0] + sep + Join(parts[1..], sep)
  }

  lemma JoinCons(first: string, rest: seq<string>, sep: string)
    requires |rest| >= 1
    ensures Join([first] + rest, sep) == first + sep + Join(rest, sep)
  {
    assert ([first] + rest)[1..] == rest;
  }

  /** One cut of `Split`: the part before the leftmost separator, then the split of what follows it. */
  lemma SplitStep(s: string, sep: string, i: nat)
    requires sep != [] && FindFrom(s, sep, 0) == Some(i)
    ensures i + |sep| <= |s|
    ensures Split(s, sep) == [s[..i]] + Split(s[i + |sep|..], sep)
    ensures s == s[..i] + sep + s[i + |sep|..]
  {
    assert OccursAt(s, sep, i);
    assert s == s[..i] + s[i..i + |sep|] + s[i + |sep|..];
  }

  /** Splitting loses nothing: joining the parts with the separator gives the line back. */
  lemma {:induction false} SplitJoin(s: string, sep: string)
    requires sep != []
    ensures Join(Split(s, sep), sep) == s
    decreases |s|
  {
    match FindFrom(s, sep, 0)
    case None =>
    case Some(i) =>
      SplitStep(s, sep, i);
      var rest := s[i + |sep|..];
      SplitJoin(rest, sep);
      JoinCons(s[..i], Split(rest, sep), sep);
  }

  /** No part of a split contains the separator. */
  lemma {:induction false} SplitPartsFree(s: string, sep: string)
    requires sep != []
    ensures forall p, i: nat :: p in Split(s, sep) ==> !OccursAt(p, sep, i)
    decreases |s|
  {
    match FindFrom(s, sep, 0)
    case None =>
    case Some(i) =>
      SplitStep(s, sep, i);
      var rest := s[i + |sep|..];
      SplitPartsFree(rest, sep);
      forall j: nat | OccursAt(s[..i], sep, j) ensures false {
        assert s[j..j + |sep|] == s[..i][j..j + |sep|];
        assert OccursAt(s, sep, j);
      }
  }

  /** A line made of two fields around a one-character separator that neither field contains
      splits into exactly those two fields. */
  lemma SplitTwoFields(a: string, b: string, d: char)
    requires d !in a && d !in b
    ensures Split(a + [d] + b, [d]) == [a, b]
  {
    var s := a + [d] + b;
    assert OccursAt(s, [d], |a|) by { assert s[|a|..|a| + 1] == [d]; }
    forall i: nat | i < |a| ensures !OccursAt(s, [d], i) {
      assert s[i..i + 1] == [a[i]];
    }
    assert FindFrom(s, [d], 0) == Some(|a|);
    SplitStep(s, [d], |a|);
    assert s[..|a|] == a && s[|a| + 1..] == b;
    forall i: nat | i < |b| ensures !OccursAt(b, [d], i) {
      assert b[i..i + 1] == [b[i]];
    }
    assert FindFrom(b, [d], 0) == None;
  }

  /** `c.upper()` for an ASCII letter; any other character is left as it is. */
  function AsciiUpper(c: char): char {
    if 'a' <= c <= 'z' then (c as int - 32) as char else c
  }

  /** `s.upper()` on ASCII letters. */
  function Upper(s: string): (r: string)
    ensures |r| == |s|
    ensures forall i :: 0 <= i < |s| ==> r[i] == AsciiUpper(s[i])
  {
    if s == [] then [] else [AsciiUpper(s[0])] + Upper(s[1..])
  }

  lemma AsciiUpperIs(c: char, lower: char)
    requires 'a' <= lower <= 'z'
    ensures AsciiUpper(c) == AsciiUpper(lower) <==> c == lower || c == AsciiUpper(lower)
  {
  }

  lemma UpperFour(s: string)
    requires |s| == 4
    ensures Upper(s) == [AsciiUpper(s[0]), AsciiUpper(s[1]), AsciiUpper(s[2]), AsciiUpper(s[3])]
  {
  }

  /** `s` is "auto" written in any mix of lower- and upper-case letters. */
  predicate SpellsAuto(s: string) {
    && |s| == 4
    && (s[0] == 'a' || s[0] == 'A') && (s[1] == 'u' || s[1] == 'U')
    && (s[2] == 't' || s[2] == 'T') && (s[3] == 'o' || s[3] == 'O')
  }

  /** `s.upper() == "AUTO"` holds exactly for the sixteen spellings of "auto" in either case. */
  lemma UpperIsAuto(s: string)
    ensures Upper(s) == "AUTO" <==> SpellsAuto(s)
  {
    if |s| == 4 {
      UpperFour(s);
      AsciiUpperIs(s[0], 'a');
      AsciiUpperIs(s[1], 'u');
      AsciiUpperIs(s[2], 't');
      AsciiUpperIs(s[3], 'o');
    } else {
      assert |Upper(s)| != |"AUTO"|;
    }
  }

  predicate IsDigit(c: char) {
    '0' <= c <= '9'
  }

  function DigitChar(d: nat): (c: char)
    requires d < 10
    ensures IsDigit(c) && c as int - '0' as int == d
  {
    ('0' as int + d) as char
  }

  function DigitValue(c: char): nat
    requires IsDigit(c)
  {
    c as int - '0' as int
  }

  /** `str(n)` for a natural number: its decimal digits, the most significant first. */
  function NatToString(n: nat): (r: string)
    ensures |r| >= 1 && forall i :: 0 <= i < |r| ==> IsDigit(r[i])
    decreases n
  {
    if n < 10 then [DigitChar(n)] else NatToString(n / 10) + [DigitChar(n % 10)]
  }

  /** `str(i)` for an integer. */
  function IntToString(i: int): string {
    if i < 0 then "-" + NatToString(-i) else NatToString(i)
  }

  /** The number a string of decimal digits denotes. */
  function DigitsValue(s: string): nat
    requires forall i :: 0 <= i < |s| ==> IsDigit(s[i])
  {
    if s == [] then 0 else DigitsValue(s[..|s| - 1]) * 10 + DigitValue(s[|s| - 1])
  }

  lemma {:induction false} NatToStringValue(n: nat)
    ensures DigitsValue(NatToString(n)) == n
    decreases n
  {
    if n >= 10 {
      NatToStringValue(n / 10);
      var r := NatToString(n);
      assert r[..|r| - 1] == NatToString(n / 10);
    }
  }

  /** The digits of a Python integer literal: digits, with single underscores allowed between two digits. */
  predicate IsDigitGroups(s: string) {
    && |s| > 0
    && IsDigit(s[0]) && IsDigit(s[|s| - 1])
    && (forall i :: 0 <= i < |s| ==> IsDigit(s[i]) || s[i] == '_')
    && (forall i :: 0 <= i < |s| - 1 ==> s[i] == '_' ==> s[i + 1] != '_')
  }

  function RemoveUnderscores(s: string): (r: string)
    requires forall i :: 0 <= i < |s| ==> IsDigit(s[i]) || s[i] == '_'
    ensures forall i :: 0 <= i < |r| ==> IsDigit(r[i])
    ensures (forall i :: 0 <= i < |s| ==> IsDigit(s[i])) ==> r == s
  {
    if s == [] then [] else (if s[0] == '_' then [] else [s[0]]) + RemoveUnderscores(s[1..])
  }

  /** The value of an unsigned Python integer literal in base 10, if `body` is one. */
  function ParseDigits(body: string): Option<nat> {
    if IsDigitGroups(body) then Some(DigitsValue(RemoveUnderscores(body))) else None
  }

  /** `int(s)` on a string, in base 10: surrounding white space is ignored, one sign is allowed,
      and `None` stands for the `ValueError` Python raises on anything else. */
  function ParseInt(s: string): Option<int> {
    ParseSigned(Strip(s))
  }

  /** `int` of a string whose surrounding white space is already gone: an optional sign, then digits. */
  function ParseSigned(t: string): Option<int> {
    if t == [] then None
    else if t[0] == '-' then
      match ParseDigits(t[1..])
      case Some(n) => Some(-(n as int))
      case None => None
    else if t[0] == '+' then
      match ParseDigits(t[1..])
      case Some(n) => Some(n)
      case None => None
    else
      match ParseDigits(t)
      case Some(n) => Some(n)
      case None => None
  }

  lemma ParseDigitsPlain(d: string)
    requires |d| >= 1 && forall k :: 0 <= k < |d| ==> IsDigit(d[k])
    ensures ParseDigits(d) == Some(DigitsValue(d))
  {
    assert IsDigitGroups(d);
    assert RemoveUnderscores(d) == d;
  }

  /** A string of digits strips to itself. */
  lemma DigitsStripToThemselves(d: string)
    requires forall k :: 0 <= k < |d| ==> IsDigit(d[k])
    ensures LeadingSpaces(d) == 0 && KeptLength(d) == |d| && Strip(d) == d
  {
    assert forall k :: 0 <= k < |d| ==> !IsSpace(d[k]) by {
      forall k | 0 <= k < |d| ensures !IsSpace(d[k]) {
        assert IsDigit(d[k]);
      }
    }
    StripNoSpace(d);
  }

  /** An unsigned literal is read as its digits. */
  lemma ParseSignedUnsigned(t: string, v: nat)
    requires |t| >= 1 && t[0] != '-' && t[0] != '+' && ParseDigits(t) == Some(v)
    ensures ParseSigned(t) == Some(v)
  {
  }

  /** A literal with a minus sign is read as the negated value of the digits after it. */
  lemma ParseSignedMinus(t: string, v: nat)
    requires |t| >= 1 && t[0] == '-' && ParseDigits(t[1..]) == Some(v)
    ensures ParseSigned(t) == Some(-(v as int))
  {
  }

  /** `int(d)` for a string of digits is the value its digits parse to. */
  lemma ParseIntDigits(d: string, v: nat)
    requires |d| >= 1 && forall k :: 0 <= k < |d| ==> IsDigit(d[k])
    requires ParseDigits(d) == Some(v)
    ensures ParseInt(d) == Some(v)
  {
    DigitsStripToThemselves(d);
    assert IsDigit(d[0]);
    ParseSignedUnsigned(d, v);
  }

  /** `int("-" + d)` for a string of digits is the negated value its digits parse to. */
  lemma ParseIntNegated(d: string, v: nat)
    requires |d| >= 1 && forall k :: 0 <= k < |d| ==> IsDigit(d[k])
    requires ParseDigits(d) == Some(v)
    ensures ParseInt("-" + d) == Some(-(v as int))
  {
    var t := "-" + d;
    assert forall k :: 0 <= k < |t| ==> !IsSpace(t[k]) by {
      forall k | 0 <= k < |t| ensures !IsSpace(t[k]) {
        if k > 0 {
          assert t[k] == d[k - 1] && IsDigit(d[k - 1]);
        }
      }
    }
    StripNoSpace(t);
    assert t[1..] == d;
    ParseSignedMinus(t, v);
  }

  /** `int(str(i)) == i`. */
  lemma IntStringRoundTrip(i: int)
    ensures ParseInt(IntToString(i)) == Some(i)
  {
    var n: nat := if i < 0 then -i else i;
    var d := NatToString(n);
    NatToStringValue(n);
    ParseDigitsPlain(d);
    if i < 0 {
      ParseIntNegated(d, n);
    } else {
      ParseIntDigits(d, n);
    }
  }

  /** Distinct integers print differently. */
  lemma IntToStringInjective(i: int, j: int)
    ensures IntToString(i) == IntToString(j) ==> i == j
  {
    IntStringRoundTrip(i);
    IntStringRoundTrip(j);
  }

  /** `uuid4().hex[:6]`: six lower-case hexadecimal digits. */
  predicate IsGeneratedKey(k: string) {
    |k| == 6 && forall i :: 0 <= i < 6 ==> IsDigit(k[i]) || 'a' <= k[i] <= 'f'
  }
}
