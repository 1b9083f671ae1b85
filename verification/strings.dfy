/**
 * The JavaScript string operations the pages rely on: `split` on a
 * one-character separator, `trim`, decimal rendering of a non-negative
 * integer (`toString`) and `padStart`.
 */
module Strings {

  // ---------------------------------------------------------------------------
  // split / join on a single-character separator
  // ---------------------------------------------------------------------------

  /** `s.split(sep)`: the maximal separator-free pieces, empty pieces included;
      the empty string splits into one empty piece. */
  function Split(s: string, sep: char): (parts: seq<string>)
    ensures |parts| >= 1
    ensures forall i :: 0 <= i < |parts| ==> sep !in parts[i]
    decreases |s|
  {
    if |s| == 0 then [""]
    else if s[0] == sep then [""] + Split(s[1..], sep)
    else
      var rest := Split(s[1..], sep);
      [[s[0]] + rest[0]] + rest[1..]
  }

  /** `parts.join(sep)`. */
  function Join(parts: seq<string>, sep: char): string
    decreases |parts|
  {
    if |parts| == 0 then ""
    else if |parts| == 1 then parts[0]
    else parts[0] + [sep] + Join(parts[1..], sep)
  }

  /** Number of occurrences of `c` in `s`. */
  function Count(s: string, c: char): nat
    decreases |s|
  {
    if |s| == 0 then 0
    else (if s[0] == c then 1 else 0) + Count(s[1..], c)
  }

  /** Splitting and joining again gives back the original text. */
  lemma {:induction false} JoinSplit(s: string, sep: char)
    ensures Join(Split(s, sep), sep) == s
    decreases |s|
  {
    if |s| == 0 {
    } else if s[0] == sep {
      JoinSplit(s[1..], sep);
      var rest := Split(s[1..], sep);
      assert Split(s, sep) == [""] + rest;
      assert ([""] + rest)[1..] == rest;
      assert s == [sep] + s[1..];
    } else {
      JoinSplit(s[1..], sep);
      var rest := Split(s[1..], sep);
      var parts := [[s[0]] + rest[0]] + rest[1..];
      assert Split(s, sep) == parts;
      if |rest| == 1 {
        assert s == [s[0]] + s[1..];
      } else {
        assert parts[1..] == rest[1..];
        assert Join(rest, sep) == rest[0] + [sep] + Join(rest[1..], sep);
        assert s == [s[0]] + s[1..];
      }
    }
  }

  /** A non-empty list of separator-free pieces survives joining and splitting. */
  lemma {:induction false} SplitJoin(parts: seq<string>, sep: char)
    requires |parts| >= 1
    requires forall i :: 0 <= i < |parts| ==> sep !in parts[i]
    ensures Split(Join(parts, sep), sep) == parts
    decreases |parts|, |parts[0]|
  {
    if |parts| == 1 {
      SplitPiece(parts[0], sep);
    } else if |parts[0]| == 0 {
      var tail := parts[1..];
      SplitJoin(tail, sep);
      assert Join(parts, sep) == [sep] + Join(tail, sep);
      assert ([sep] + Join(tail, sep))[1..] == Join(tail, sep);
      assert parts == [""] + tail;
    } else {
      var p := parts[0];
      var shorter := [p[1..]] + parts[1..];
      SplitJoin(shorter, sep);
      var j := Join(parts, sep);
      assert j == p + [sep] + Join(parts[1..], sep);
      assert Join(shorter, sep) == p[1..] + [sep] + Join(parts[1..], sep);
      assert j[0] == p[0];
      assert j[1..] == Join(shorter, sep);
      var rest := Split(j[1..], sep);
      assert rest == shorter;
      assert [p[0]] + p[1..] == p;
      assert parts == [p] + parts[1..];
    }
  }

  /** A text without the separator is one piece. */
  lemma {:induction false} SplitPiece(s: string, sep: char)
    requires sep !in s
    ensures Split(s, sep) == [s]
    decreases |s|
  {
    if |s| > 0 {
      assert s[0] in s;
      assert forall c :: c in s[1..] ==> c in s;
      SplitPiece(s[1..], sep);
      assert [s[0]] + s[1..] == s;
    }
  }

  /** `s.split(sep).length` is one more than the number of separators. */
  lemma {:induction false} SplitLength(s: string, sep: char)
    ensures |Split(s, sep)| == Count(s, sep) + 1
    decreases |s|
  {
    if |s| > 0 {
      SplitLength(s[1..], sep);
    }
  }

  // ---------------------------------------------------------------------------
  // trim
  // ---------------------------------------------------------------------------

  /** The characters `String.prototype.trim` removes: ECMAScript WhiteSpace
      (tab, vertical tab, form feed, space, no-break space, the byte-order
      mark and the other space separators) and LineTerminator. */
  predicate IsWhitespace(c: char) {
    || c == '\t' || c == '\n' || c == '\U{000B}' || c == '\U{000C}' || c == '\r' || c == ' '
    || c == '\U{00A0}' || c == '\U{1680}' || ('\U{2000}' <= c <= '\U{200A}')
    || c == '\U{2028}' || c == '\U{2029}' || c == '\U{202F}' || c == '\U{205F}'
    || c == '\U{3000}' || c == '\U{FEFF}'
  }

  /** Neither end of `s` is whitespace. */
  predicate IsTrimmed(s: string) {
    s == [] || (!IsWhitespace(s[0]) && !IsWhitespace(s[|s| - 1]))
  }

  /** How many whitespace characters `s` starts with. */
  function LeadingBlanks(s: string): (n: nat)
    ensures n <= |s|
    ensures forall i :: 0 <= i < n ==> IsWhitespace(s[i])
    ensures n < |s| ==> !IsWhitespace(s[n])
    decreases |s|
  {
    if |s| > 0 && IsWhitespace(s[0]) then
      var m := LeadingBlanks(s[1..]);
      assert forall i :: 1 <= i < m + 1 ==> s[i] == s[1..][i - 1];
      1 + m
    else 0
  }

  /** How many whitespace characters `s` ends with. */
  function TrailingBlanks(s: string): (n: nat)
    ensures n <= |s|
    ensures forall i :: |s| - n <= i < |s| ==> IsWhitespace(s[i])
    ensures n < |s| ==> !IsWhitespace(s[|s| - 1 - n])
    decreases |s|
  {
    if |s| > 0 && IsWhitespace(s[|s| - 1]) then
      var m := TrailingBlanks(s[..|s| - 1]);
      assert forall i :: |s| - 1 - m <= i < |s| - 1 ==> s[i] == s[..|s| - 1][i];
      1 + m
    else 0
  }

  /** `s.trim()`: the part of `s` between its leading and its trailing
      whitespace. It is empty exactly when `s` is all whitespace. */
  function Trim(s: string): (r: string)
    ensures IsTrimmed(r)
    ensures var k := LeadingBlanks(s); k + |r| <= |s| && r == s[k..k + |r|]
    ensures forall i :: LeadingBlanks(s) + |r| <= i < |s| ==> IsWhitespace(s[i])
    ensures r == [] <==> forall i :: 0 <= i < |s| ==> IsWhitespace(s[i])
  {
    var k := LeadingBlanks(s);
    var t := s[k..];
    var e := TrailingBlanks(t);
    TrimEmptyIffBlank(s, k, e);
    TrailingBlanksOfRest(s, k, e);
    if e < |t| then
      assert t[0] == s[k] && t[|t| - 1 - e] == s[|s| - 1 - e];
      s[k..|s| - e]
    else
      s[k..k]
  }

  /** The slice between the leading and the trailing blanks is empty exactly
      when every character is blank. */
  lemma TrimEmptyIffBlank(s: string, k: nat, e: nat)
    requires k == LeadingBlanks(s) && e == TrailingBlanks(s[k..])
    ensures e == |s| - k <==> forall i :: 0 <= i < |s| ==> IsWhitespace(s[i])
  {
    var t := s[k..];
    assert k < |s| ==> t[0] == s[k];
  }

  /** The trailing blanks of the text after the leading blanks are the
      trailing blanks of the whole text. */
  lemma TrailingBlanksOfRest(s: string, k: nat, e: nat)
    requires k <= |s| && e == TrailingBlanks(s[k..])
    ensures forall i :: |s| - e <= i < |s| ==> IsWhitespace(s[i])
  {
    var t := s[k..];
    forall i | |s| - e <= i < |s| ensures IsWhitespace(s[i]) {
      assert s[i] == t[i - k];
    }
  }

  /** Trimming changes nothing in a trimmed text. */
  lemma TrimOfTrimmed(s: string)
    requires IsTrimmed(s)
    ensures Trim(s) == s
  {
  }

  /** Trimming keeps only characters of the original text. */
  lemma TrimKeepsCharacters(s: string, c: char)
    ensures c !in s ==> c !in Trim(s)
  {
    var r := Trim(s);
    var k := LeadingBlanks(s);
    if c !in s {
      forall i | 0 <= i < |r| ensures r[i] != c {
        assert r[i] == s[k + i] && s[k + i] in s;
      }
    }
  }

  // ---------------------------------------------------------------------------
  // decimal rendering and padStart
  // ---------------------------------------------------------------------------

  predicate IsDigit(c: char) {
    '0' <= c <= '9'
  }

  predicate AllDigits(s: string) {
    forall i :: 0 <= i < |s| ==> IsDigit(s[i])
  }

  function DigitChar(d: nat): (c: char)
    requires d < 10
    ensures IsDigit(c)
  {
    "0123456789"[d]
  }

  function DigitValue(c: char): (d: nat)
    requires IsDigit(c)
    ensures d < 10
  {
    (c as int - '0' as int) as nat
  }

  /** The number a string of decimal digits denotes. */
  function DigitsValue(s: string): nat
    requires AllDigits(s)
    decreases |s|
  {
    if s == [] then 0 else 10 * DigitsValue(s[..|s| - 1]) + DigitValue(s[|s| - 1])
  }

  /** `n.toString()` for a non-negative integer: decimal digits, no leading zero. */
  function Decimal(n: nat): (r: string)
    ensures |r| >= 1 && AllDigits(r)
    ensures r[0] == '0' ==> n == 0
    decreases n
  {
    if n < 10 then [DigitChar(n)] else Decimal(n / 10) + [DigitChar(n % 10)]
  }

  /** Reading `Decimal(n)` back yields `n`. */
  lemma {:induction false} DecimalValue(n: nat)
    ensures DigitsValue(Decimal(n)) == n
    decreases n
  {
    if n >= 10 {
      DecimalValue(n / 10);
      var r := Decimal(n);
      assert r[..|r| - 1] == Decimal(n / 10);
    }
  }

  /** `s.padStart(width, fill)` with a one-character fill. */
  function PadStart(s: string, width: nat, fill: char): (r: string)
    ensures |r| == if |s| >= width then |s| else width
    ensures r[|r| - |s|..] == s
    ensures forall i :: 0 <= i < |r| - |s| ==> r[i] == fill
  {
    if |s| >= width then s else seq(width - |s|, _ => fill) + s
  }
}
