/** The few pieces of Python's string handling the sequencer relies on:
    `str(n)` / f-string formatting of an int, `int(text)` on an entry's text,
    `str.lower()`, and `os.path.join` (POSIX flavour). */
module Text {
  import opened Wrappers

  predicate IsDigit(c: char) { '0' <= c <= '9' }

  function DigitValue(c: char): (d: nat)
    requires IsDigit(c)
    ensures d < 10
  {
    c as int - '0' as int
  }

  function DigitChar(d: nat): (c: char)
    requires d < 10
    ensures IsDigit(c) && DigitValue(c) == d
  {
    ('0' as int + d) as char
  }

  predicate AllDigits(s: string) { forall k :: 0 <= k < |s| ==> IsDigit(s[k]) }

  /** Decimal digits of a natural number, most significant first, no leading zeros. */
  function NatToDecimal(n: nat): (s: string)
    ensures |s| > 0 && AllDigits(s)
    ensures n < 10 ==> |s| == 1
    decreases n
  {
    if n < 10 then [DigitChar(n)] else NatToDecimal(n / 10) + [DigitChar(n % 10)]
  }

  /** `str(n)` / `f"{n}"` for a Python int. */
  function IntToDecimal(n: int): (s: string)
    ensures |s| > 0
    ensures n >= 0 ==> AllDigits(s)
    ensures n < 0 ==> s[0] == '-' && AllDigits(s[1..])
  {
    if n < 0 then "-" + NatToDecimal(-n) else NatToDecimal(n)
  }

  /** The value of a string of decimal digits (empty string is 0). */
  function DigitsValue(s: string): nat
    requires AllDigits(s)
  {
    if s == [] then 0 else DigitsValue(s[..|s| - 1]) * 10 + DigitValue(s[|s| - 1])
  }

  lemma {:induction false} NatToDecimalValue(n: nat)
    ensures DigitsValue(NatToDecimal(n)) == n
    decreases n
  {
    if n >= 10 {
      var s := NatToDecimal(n);
      assert s[..|s| - 1] == NatToDecimal(n / 10);
      NatToDecimalValue(n / 10);
    }
  }

  /** The whitespace `int()` strips: the characters for which Python's `str.isspace`
      holds (tab to carriage return, the four separators U+001C to U+001F, space, and
      the Unicode spaces and line separators). */
  predicate IsSpace(c: char)
  {
    || ('\t' <= c <= '\r') || ('\U{001C}' <= c <= ' ')
    || c == '\U{0085}' || c == '\U{00A0}' || c == '\U{1680}'
    || ('\U{2000}' <= c <= '\U{200A}') || c == '\U{2028}' || c == '\U{2029}'
    || c == '\U{202F}' || c == '\U{205F}' || c == '\U{3000}'
  }

  function StripLeft(s: string): (r: string)
    ensures |r| <= |s| && r == s[|s| - |r|..]
    ensures r != [] ==> !IsSpace(r[0])
  {
    if s != [] && IsSpace(s[0]) then StripLeft(s[1..]) else s
  }

  function StripRight(s: string): (r: string)
    ensures |r| <= |s| && r == s[..|r|]
    ensures r != [] ==> !IsSpace(r[|r| - 1])
  {
    if s != [] && IsSpace(s[|s| - 1]) then StripRight(s[..|s| - 1]) else s
  }

  /** The digits part of an `int()` literal: digits, single underscores between digits. */
  predicate IsDigitRun(s: string)
  {
    && |s| > 0 && IsDigit(s[0]) && IsDigit(s[|s| - 1])
    && (forall k :: 0 <= k < |s| ==> IsDigit(s[k]) || s[k] == '_')
    && (forall k :: 0 <= k < |s| - 1 ==> !(s[k] == '_' && s[k + 1] == '_'))
  }

  function DropUnderscores(s: string): (r: string)
    requires forall k :: 0 <= k < |s| ==> IsDigit(s[k]) || s[k] == '_'
    ensures AllDigits(r) && |r| <= |s|
    ensures AllDigits(s) ==> r == s
  {
    if s == [] then []
    else if s[0] == '_' then DropUnderscores(s[1..])
    else [s[0]] + DropUnderscores(s[1..])
  }

  /** The text `int()` looks at: surrounding whitespace removed. */
  function Trim(text: string): string
  {
    StripRight(StripLeft(text))
  }

  /** Length of an optional leading sign. */
  function SignLength(t: string): (n: nat)
    requires t != []
    ensures n <= 1
  {
    if t[0] == '-' || t[0] == '+' then 1 else 0
  }

  /** The unsigned digits after the sign, with their underscores dropped. */
  function ParseBody(body: string): (r: Option<nat>)
    ensures r.Some? <==> IsDigitRun(body)
  {
    if IsDigitRun(body) then Some(DigitsValue(DropUnderscores(body))) else None
  }

  /** Python's `int(text)` in base 10: surrounding whitespace, an optional sign,
      then digits; `None` where Python raises `ValueError`. */
  function ParseInt(text: string): Option<int>
  {
    var t := Trim(text);
    if t == [] then None
    else
      match ParseBody(t[SignLength(t)..])
      case None => None
      case Some(v) => Some(if t[0] == '-' then -(v as int) else v as int)
  }

  /** Unfolds `ParseInt` on text that is already trimmed and has a readable body. */
  lemma ParseTrimmed(t: string, v: nat)
    requires t != [] && Trim(t) == t && ParseBody(t[SignLength(t)..]) == Some(v)
    ensures ParseInt(t) == Some(if t[0] == '-' then -(v as int) else v as int)
  {
  }

  /** `int(text)` followed by `if x <= 0: raise ValueError`, as the BPM and bar-count
      entries are read: the positive integer, or `None` where either step fails. */
  function ParsePositive(text: string): (r: Option<int>)
    ensures r.Some? <==> ParseInt(text).Some? && ParseInt(text).value > 0
    ensures r.Some? ==> r.value == ParseInt(text).value
  {
    match ParseInt(text)
    case Some(b) => if b > 0 then Some(b) else None
    case None => None
  }

  lemma NoSpaceTrim(s: string)
    requires |s| > 0 && !IsSpace(s[0]) && !IsSpace(s[|s| - 1])
    ensures Trim(s) == s
  {
    assert StripLeft(s) == s;
  }

  /** Only text holding a digit can be read as an int. */
  lemma ParseIntHasDigit(text: string)
    requires ParseInt(text).Some?
    ensures exists k :: 0 <= k < |text| && IsDigit(text[k])
  {
    var l := StripLeft(text);
    var t := StripRight(l);
    var skip := SignLength(t);
    assert IsDigit(t[skip..][0]);
    assert t[skip] == l[skip] == text[|text| - |l| + skip];
  }

  /** A non-empty digit string is a readable body, with no space at either end. */
  lemma DigitsBody(d: string)
    requires |d| > 0 && AllDigits(d)
    ensures ParseBody(d) == Some(DigitsValue(d))
    ensures !IsSpace(d[0]) && !IsSpace(d[|d| - 1])
  {
    assert IsDigit(d[0]) && IsDigit(d[|d| - 1]);
    assert IsDigitRun(d);
  }

  /** `int()` reads a non-empty digit string as its value. */
  lemma ParseUnsigned(d: string)
    requires |d| > 0 && AllDigits(d)
    ensures ParseInt(d) == Some(DigitsValue(d) as int)
  {
    DigitsBody(d);
    NoSpaceTrim(d);
    assert d[SignLength(d)..] == d;
    ParseTrimmed(d, DigitsValue(d));
  }

  /** `int()` reads a minus sign and a non-empty digit string as the negated value. */
  lemma ParseNegative(s: string)
    requires |s| > 1 && s[0] == '-' && AllDigits(s[1..])
    ensures ParseInt(s) == Some(-(DigitsValue(s[1..]) as int))
  {
    var d := s[1..];
    DigitsBody(d);
    assert s[|s| - 1] == d[|d| - 1];
    NoSpaceTrim(s);
    ParseTrimmed(s, DigitsValue(d));
  }

  /** `int(str(n)) == n`: the decimal text the model prints is what `int()` reads back. */
  lemma IntToDecimalRoundTrip(n: int)
    ensures ParseInt(IntToDecimal(n)) == Some(n)
  {
    var m: nat := if n < 0 then -n else n;
    NatToDecimalValue(m);
    if n < 0 {
      assert IntToDecimal(n)[1..] == NatToDecimal(m);
      ParseNegative(IntToDecimal(n));
    } else {
      ParseUnsigned(NatToDecimal(m));
    }
  }

  function LowerChar(c: char): char
  {
    if 'A' <= c <= 'Z' then (c as int + 32) as char else c
  }

  /** `str.lower()` on ASCII letters. */
  function ToLower(s: string): (r: string)
    ensures |r| == |s|
    ensures forall k :: 0 <= k < |s| ==> r[k] == LowerChar(s[k])
  {
    seq(|s|, k requires 0 <= k < |s| => LowerChar(s[k]))
  }

  lemma ToLowerAppend(a: string, b: string)
    ensures ToLower(a + b) == ToLower(a) + ToLower(b)
  {
  }

  /** A string with no upper-case ASCII letter is its own lower case. */
  lemma ToLowerUnchanged(s: string)
    requires forall k :: 0 <= k < |s| ==> !('A' <= s[k] <= 'Z')
    ensures ToLower(s) == s
  {
  }

  /** `os.path.join(path, b)` on POSIX: an absolute `b` replaces the path; otherwise a
      separator is inserted unless the path is empty or already ends with one. */
  function Join(path: string, b: string): string
  {
    if |b| > 0 && b[0] == '/' then b
    else if path == [] || path[|path| - 1] == '/' then path + b
    else path + "/" + b
  }

  function Join3(a: string, b: string, c: string): string
  {
    Join(Join(a, b), c)
  }

  /** A non-empty path component with no separator, as folder and file names are. */
  predicate Plain(s: string) { |s| > 0 && forall k :: 0 <= k < |s| ==> s[k] != '/' }

  lemma Join3Plain(a: string, b: string, c: string)
    requires Plain(a) && Plain(b) && Plain(c)
    ensures Join3(a, b, c) == a + "/" + b + "/" + c
  {
    assert Join(a, b) == a + "/" + b;
    var ab := a + "/" + b;
    assert ab[|ab| - 1] == b[|b| - 1];
  }

  /** `s.endswith(suffix)`. */
  predicate EndsWith(s: string, suffix: string)
  {
    |suffix| <= |s| && s[|s| - |suffix|..] == suffix
  }
}
