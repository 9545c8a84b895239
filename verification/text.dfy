/**
 * The string operations the application relies on: lower-casing
 * (`toLowerCase`), substring search (`includes`), whitespace trimming
 * (`trim`) and decimal rendering and parsing of indices
 * (`toString` / `parseInt`).
 *
 * Lower-casing is restricted to ASCII letters and trimming to a fixed
 * whitespace set; full Unicode case mapping is not modelled.
 */
module Text {

  /** Lower-case one character; only 'A'..'Z' change. */
  function LowerChar(c: char): (r: char)
    ensures !('A' <= r <= 'Z')
    ensures !('A' <= c <= 'Z') ==> r == c
  {
    if 'A' <= c <= 'Z' then (c as int + 32) as char else c
  }

  function Lower(s: string): (r: string)
    ensures |r| == |s|
    ensures forall i :: 0 <= i < |s| ==> r[i] == LowerChar(s[i])
  {
    seq(|s|, i requires 0 <= i < |s| => LowerChar(s[i]))
  }

  /** `hay.includes(needle)`: `needle` is a prefix of some suffix of `hay`. */
  predicate Contains(hay: string, needle: string)
  {
    needle <= hay || (hay != [] && Contains(hay[1..], needle))
  }

  lemma EmptyIsContained(hay: string)
    ensures Contains(hay, "")
  {
  }

  /** An occurrence of `needle` at position `i` of `hay` makes `Contains` hold. */
  lemma {:induction false} ContainsAt(hay: string, needle: string, i: nat)
    requires i + |needle| <= |hay| && hay[i..][..|needle|] == needle
    ensures Contains(hay, needle)
  {
    if i > 0 {
      assert hay[1..][i - 1..] == hay[i..];
      ContainsAt(hay[1..], needle, i - 1);
    }
  }

  /** Conversely, when `Contains` holds there is a position where `needle` occurs. */
  lemma {:induction false} ContainsWitness(hay: string, needle: string) returns (i: nat)
    requires Contains(hay, needle)
    ensures i + |needle| <= |hay| && hay[i..][..|needle|] == needle
  {
    if needle <= hay {
      i := 0;
    } else {
      var j := ContainsWitness(hay[1..], needle);
      assert hay[1..][j..] == hay[j + 1..];
      i := j + 1;
    }
  }

  /**
   * The case-insensitive match shared by the server's note search and the
   * dashboard's filter: the lower-cased query occurs in the lower-cased
   * title, the lower-cased content or some lower-cased tag.
   */
  predicate MatchesQuery(title: string, content: string, tags: seq<string>, query: string)
  {
    var q := Lower(query);
    Contains(Lower(title), q) || Contains(Lower(content), q) ||
    exists i :: 0 <= i < |tags| && Contains(Lower(tags[i]), q)
  }

  /** An empty query is a substring of everything, so it matches every note. */
  lemma EmptyQueryMatches(title: string, content: string, tags: seq<string>)
    ensures MatchesQuery(title, content, tags, "")
  {
    assert Lower("") == "";
    EmptyIsContained(Lower(title));
  }

  // ---------------------------------------------------------------- trim

  /** The whitespace `trim` removes (a fixed subset of the Unicode set). */
  predicate IsSpace(c: char)
  {
    c == ' ' || c == '\t' || c == '\n' || c == '\r' || c == '\U{B}' || c == '\U{C}' ||
    c == '\U{A0}' || c == '\U{FEFF}' || c == '\U{2028}' || c == '\U{2029}'
  }

  /** Number of whitespace characters at the start of `s`. */
  function LeadingSpaces(s: string): (n: nat)
    ensures n <= |s|
    ensures forall k :: 0 <= k < n ==> IsSpace(s[k])
    ensures n < |s| ==> !IsSpace(s[n])
  {
    if s == [] || !IsSpace(s[0]) then 0 else 1 + LeadingSpaces(s[1..])
  }

  /** Number of whitespace characters at the end of `s`. */
  function TrailingSpaces(s: string): (n: nat)
    ensures n <= |s|
    ensures forall k :: |s| - n <= k < |s| ==> IsSpace(s[k])
    ensures n < |s| ==> !IsSpace(s[|s| - n - 1])
  {
    if s == [] || !IsSpace(s[|s| - 1]) then 0 else 1 + TrailingSpaces(s[..|s| - 1])
  }

  /** `s.trim()`: the slice of `s` between its leading and trailing whitespace. */
  function Trim(s: string): (r: string)
    ensures |r| <= |s|
    ensures r == s[LeadingSpaces(s)..|s| - TrailingSpaces(s[LeadingSpaces(s)..])]
    ensures r != [] ==> !IsSpace(r[0]) && !IsSpace(r[|r| - 1])
  {
    var t := s[LeadingSpaces(s)..];
    t[..|t| - TrailingSpaces(t)]
  }

  /** Trimming only removes whitespace: a string without any is its own trim. */
  lemma TrimKeepsNonSpace(s: string)
    requires forall k :: 0 <= k < |s| ==> !IsSpace(s[k])
    ensures Trim(s) == s
  {
  }

  /** A string made only of whitespace trims to the empty string. */
  lemma TrimAllSpace(s: string)
    requires forall k :: 0 <= k < |s| ==> IsSpace(s[k])
    ensures Trim(s) == ""
  {
  }

  // --------------------------------------------------------------- UTF-16

  /**
   * JavaScript strings are sequences of UTF-16 code units, and `length`,
   * `substring` and `slice` count those. A character here is a Unicode
   * scalar value; `Utf16` gives the code units JavaScript sees.
   */
  type CodeUnit = x: int | 0 <= x < 0x1_0000

  predicate IsHighSurrogate(u: CodeUnit) { 0xD800 <= u < 0xDC00 }

  predicate IsLowSurrogate(u: CodeUnit) { 0xDC00 <= u < 0xE000 }

  /** The code units of one character: itself below U+10000, else a surrogate pair. */
  function CharUnits(c: char): (u: seq<CodeUnit>)
    ensures c as int < 0x1_0000 ==> u == [c as int]
    ensures c as int >= 0x1_0000 ==> |u| == 2 && IsHighSurrogate(u[0]) && IsLowSurrogate(u[1])
  {
    if c as int < 0x1_0000 then [c as int]
    else
      var v := c as int - 0x1_0000;
      [0xD800 + v / 0x400, 0xDC00 + v % 0x400]
  }

  function Utf16(s: string): (u: seq<CodeUnit>)
    ensures |s| <= |u| <= 2 * |s|
  {
    if s == [] then [] else CharUnits(s[0]) + Utf16(s[1..])
  }

  /** Encoding distributes over concatenation. */
  lemma {:induction false} Utf16Append(a: string, b: string)
    ensures Utf16(a + b) == Utf16(a) + Utf16(b)
  {
    if a != [] {
      assert (a + b)[0] == a[0];
      assert (a + b)[1..] == a[1..] + b;
      Utf16Append(a[1..], b);
      calc {
        Utf16(a + b);
        CharUnits(a[0]) + Utf16(a[1..] + b);
        CharUnits(a[0]) + (Utf16(a[1..]) + Utf16(b));
        (CharUnits(a[0]) + Utf16(a[1..])) + Utf16(b);
      }
    } else {
      assert a + b == b;
    }
  }

  /** The character a well-formed unit sequence starts with; a lone surrogate reads as U+FFFD. */
  function Utf16Decode(u: seq<CodeUnit>): (s: string)
    ensures |s| <= |u|
  {
    if u == [] then []
    else if |u| >= 2 && IsHighSurrogate(u[0]) && IsLowSurrogate(u[1]) then
      var hi: int, lo: int := u[0], u[1];
      [(0x1_0000 + (hi - 0xD800) * 0x400 + (lo - 0xDC00)) as char] + Utf16Decode(u[2..])
    else if 0xD800 <= u[0] < 0xE000 then ['\U{FFFD}'] + Utf16Decode(u[1..])
    else [u[0] as char] + Utf16Decode(u[1..])
  }

  /** Decoding the code units of a string gives the string back. */
  lemma {:induction false} Utf16RoundTrip(s: string)
    ensures Utf16Decode(Utf16(s)) == s
  {
    if s != [] {
      var c := s[0];
      var u := Utf16(s);
      assert u == CharUnits(c) + Utf16(s[1..]);
      Utf16RoundTrip(s[1..]);
      if c as int < 0x1_0000 {
        assert u[1..] == Utf16(s[1..]);
      } else {
        var v := c as int - 0x1_0000;
        assert v / 0x400 * 0x400 + v % 0x400 == v;
        assert u[2..] == Utf16(s[1..]);
      }
    }
  }

  /** A slice never has more code units than the whole. */
  lemma Utf16SliceShorter(s: string, i: nat, j: nat)
    requires i <= j <= |s|
    ensures |Utf16(s[i..j])| <= |Utf16(s)|
  {
    assert s == s[..i] + s[i..j] + s[j..];
    Utf16Append(s[..i] + s[i..j], s[j..]);
    Utf16Append(s[..i], s[i..j]);
  }

  /** `trim()` never lengthens a string, counted in code units as `length` counts. */
  lemma TrimShortens(s: string)
    ensures |Utf16(Trim(s))| <= |Utf16(s)|
  {
    var a := LeadingSpaces(s);
    var b := TrailingSpaces(s[a..]);
    var t := Trim(s);
    assert t == s[a..|s| - b];
    Utf16SliceShorter(s, a, |s| - b);
  }

  // ------------------------------------------------------------- decimal

  predicate IsDigit(c: char) { '0' <= c <= '9' }

  predicate AllDigits(s: string) { forall k :: 0 <= k < |s| ==> IsDigit(s[k]) }

  function DigitChar(d: nat): (c: char)
    requires d < 10
    ensures IsDigit(c) && c as int - '0' as int == d
  {
    ('0' as int + d) as char
  }

  /** `n.toString()` for a non-negative integer. */
  function NatToDecimal(n: nat): (r: string)
    ensures |r| >= 1 && AllDigits(r)
    ensures |r| > 1 ==> r[0] != '0'
  {
    if n < 10 then [DigitChar(n)] else NatToDecimal(n / 10) + [DigitChar(n % 10)]
  }

  /** `parseInt(s)` on a string made only of decimal digits. */
  function DecimalValue(s: string): nat
    requires AllDigits(s)
  {
    if s == [] then 0 else 10 * DecimalValue(s[..|s| - 1]) + (s[|s| - 1] as int - '0' as int)
  }

  /** Rendering an index as a decimal string and parsing it back gives the index. */
  lemma {:induction false} DecimalRoundTrip(n: nat)
    ensures DecimalValue(NatToDecimal(n)) == n
  {
    if n >= 10 {
      var r := NatToDecimal(n);
      assert r[..|r| - 1] == NatToDecimal(n / 10);
      DecimalRoundTrip(n / 10);
    }
  }
}
