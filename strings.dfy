/** Text helpers standing in for the Python string built-ins the core uses:
    `str.strip`, `str(n)`, `int(s)`, `', '.join`, `s.lower() == 'true'` and `s.split('@')[0]`. */
module Strings {
  import opened Wrappers

  /** The characters for which Python's `str.isspace` is true. */
  predicate IsWhitespace(c: char) {
    ('\t' <= c <= '\r') || ('\U{1c}' <= c <= ' ') || c == '\U{85}' || c == '\U{a0}'
    || c == '\U{1680}' || ('\U{2000}' <= c <= '\U{200a}') || c == '\U{2028}' || c == '\U{2029}'
    || c == '\U{202f}' || c == '\U{205f}' || c == '\U{3000}'
  }

  /** `s` with leading whitespace removed (`str.lstrip()`). */
  function TrimStart(s: string): (r: string)
    ensures |r| <= |s| && forall i :: 0 <= i < |r| ==> r[i] == s[|s| - |r| + i]
    ensures r == [] || !IsWhitespace(r[0])
    ensures forall i :: 0 <= i < |s| - |r| ==> IsWhitespace(s[i])
  {
    if s != [] && IsWhitespace(s[0]) then TrimStart(s[1..]) else s
  }

  /** `s` with trailing whitespace removed (`str.rstrip()`). */
  function TrimEnd(s: string): (r: string)
    ensures |r| <= |s| && forall i :: 0 <= i < |r| ==> r[i] == s[i]
    ensures r == [] || !IsWhitespace(r[|r| - 1])
    ensures forall i :: |r| <= i < |s| ==> IsWhitespace(s[i])
  {
    if s != [] && IsWhitespace(s[|s| - 1]) then TrimEnd(s[..|s| - 1]) else s
  }

  /** `s.strip()`: the longest middle part of `s` with no whitespace at either end. */
  function Strip(s: string): (r: string)
  {
    TrimEnd(TrimStart(s))
  }

  /** What `strip` removes is whitespace and what it keeps is one contiguous slice of `s`. */
  lemma StripSlice(s: string) returns (i: nat, j: nat)
    ensures i <= j <= |s| && Strip(s) == s[i..j]
    ensures forall k :: 0 <= k < i ==> IsWhitespace(s[k])
    ensures forall k :: j <= k < |s| ==> IsWhitespace(s[k])
  {
    var t := TrimStart(s);
    var r := TrimEnd(t);
    TrimStartIsSuffix(s);
    TrimEndIsPrefix(t);
    i := |s| - |t|;
    j := i + |r|;
    assert s[i..][..|r|] == s[i..j];
    WhitespaceAfterShift(s, i, |r|);
  }

  lemma WhitespaceAfterShift(s: string, i: nat, from: nat)
    requires i + from <= |s|
    requires forall k :: from <= k < |s[i..]| ==> IsWhitespace(s[i..][k])
    ensures forall k :: i + from <= k < |s| ==> IsWhitespace(s[k])
  {
    forall k | i + from <= k < |s| ensures IsWhitespace(s[k]) {
      assert s[k] == s[i..][k - i];
    }
  }

  lemma TrimStartIsSuffix(s: string)
    ensures TrimStart(s) == s[|s| - |TrimStart(s)|..]
  {
    var r := TrimStart(s);
    assert forall k :: 0 <= k < |r| ==> r[k] == s[|s| - |r|..][k];
  }

  lemma TrimEndIsPrefix(s: string)
    ensures TrimEnd(s) == s[..|TrimEnd(s)|]
  {
    var r := TrimEnd(s);
    assert forall k :: 0 <= k < |r| ==> r[k] == s[..|r|][k];
  }

  /** A string without whitespace at either end is its own strip. */
  lemma StripNoop(s: string)
    requires s == [] || (!IsWhitespace(s[0]) && !IsWhitespace(s[|s| - 1]))
    ensures Strip(s) == s
  {
  }

  /** Stripping twice is stripping once. */
  lemma StripIdempotent(s: string)
    ensures Strip(Strip(s)) == Strip(s)
  {
    StripNoop(Strip(s));
  }

  predicate IsDigit(c: char) { '0' <= c <= '9' }

  predicate AllDigits(s: string) { forall i :: 0 <= i < |s| ==> IsDigit(s[i]) }

  function DigitChar(d: nat): (c: char)
    requires d < 10
    ensures IsDigit(c)
  {
    ('0' as int + d) as char
  }

  /** The value of a digit string read in base 10. */
  function DigitsValue(s: string): nat
    requires AllDigits(s)
  {
    if s == [] then 0 else DigitsValue(s[..|s| - 1]) * 10 + (s[|s| - 1] as int - '0' as int)
  }

  /** `str(n)` for a natural number: its decimal digits, no leading zeros. */
  function NatToString(n: nat): (s: string)
    ensures |s| >= 1 && AllDigits(s)
    ensures |s| > 1 ==> s[0] != '0'
    ensures DigitsValue(s) == n
  {
    if n < 10 then [DigitChar(n)]
    else
      var init := NatToString(n / 10);
      var s := init + [DigitChar(n % 10)];
      assert s[..|s| - 1] == init;
      s
  }

  /** `str(i)` for any integer. */
  function IntToString(i: int): (s: string)
    ensures |s| >= 1
    ensures i >= 0 ==> s == NatToString(i)
    ensures i < 0 ==> s[0] == '-' && s[1..] == NatToString(-i)
  {
    if i < 0 then "-" + NatToString(-i) else NatToString(i)
  }

  /** `int(s)` for the forms the model admits: surrounding whitespace, an optional sign and
      one or more ASCII digits. `None` stands for the `ValueError` Python raises otherwise. */
  function ParseInt(s: string): (r: Option<int>)
    ensures r.Some? ==> Strip(s) != []
  {
    var t := Strip(s);
    if t == [] then None
    else if t[0] == '-' && |t| > 1 && AllDigits(t[1..]) then Some(0 - DigitsValue(t[1..]))
    else if t[0] == '+' && |t| > 1 && AllDigits(t[1..]) then Some(DigitsValue(t[1..]))
    else if AllDigits(t) then Some(DigitsValue(t))
    else None
  }

  lemma DigitNotWhitespace(c: char)
    requires IsDigit(c)
    ensures !IsWhitespace(c) && c != '-' && c != '+'
  {
  }

  /** A digit string is read back as its value. */
  lemma ParseDigits(d: string)
    requires |d| >= 1 && AllDigits(d)
    ensures ParseInt(d) == Some(DigitsValue(d))
  {
    DigitNotWhitespace(d[0]);
    DigitNotWhitespace(d[|d| - 1]);
    StripNoop(d);
  }

  /** Rendering an integer and reading it back gives the integer. */
  lemma ParseIntToString(i: int)
    ensures ParseInt(IntToString(i)) == Some(i)
  {
    var s := IntToString(i);
    if i >= 0 {
      ParseDigits(s);
    } else {
      var d := NatToString(-i);
      assert s == "-" + d;
      DigitNotWhitespace(d[|d| - 1]);
      assert s[|s| - 1] == d[|d| - 1];
      StripNoop(s);
      assert s[1..] == d;
    }
  }

  /** A string with a character other than a sign, digit or surrounding whitespace is not an integer. */
  lemma ParseIntRejectsLetters(s: string, k: nat)
    requires k < |s| && !IsDigit(s[k]) && !IsWhitespace(s[k]) && s[k] != '-' && s[k] != '+'
    ensures ParseInt(s) == None
  {
    var i, j := StripSlice(s);
    var t := Strip(s);
    assert i <= k < j;
    assert t[k - i] == s[k];
    assert !AllDigits(t);
    if k - i > 0 {
      assert t[1..][k - i - 1] == s[k];
      assert !AllDigits(t[1..]);
    }
  }

  /** `', '.join(parts)`. */
  function Join(parts: seq<string>, sep: string): (r: string)
    ensures parts == [] ==> r == []
    ensures |parts| == 1 ==> r == parts[0]
  {
    if parts == [] then []
    else if |parts| == 1 then parts[0]
    else Join(parts[..|parts| - 1], sep) + sep + parts[|parts| - 1]
  }

  /** The sum of the lengths of `parts`. */
  function TotalLength(parts: seq<string>): nat {
    if parts == [] then 0 else TotalLength(parts[..|parts| - 1]) + |parts[|parts| - 1]|
  }

  /** A join starts with the first part, ends with the last one, and is as long as all the
      parts together plus one separator between each two neighbours. */
  lemma {:induction false} JoinShape(parts: seq<string>, sep: string)
    requires parts != []
    ensures parts[0] <= Join(parts, sep)
    ensures var r := Join(parts, sep); var last := parts[|parts| - 1];
      |last| <= |r| && r[|r| - |last|..] == last
    ensures |Join(parts, sep)| == TotalLength(parts) + (|parts| - 1) * |sep|
  {
    if |parts| > 1 {
      var init := parts[..|parts| - 1];
      JoinShape(init, sep);
      assert init[0] == parts[0];
      var j := Join(init, sep);
      assert Join(parts, sep) == j + sep + parts[|parts| - 1];
      assert parts[0] <= j + sep + parts[|parts| - 1] by {
        assert parts[0] <= j;
      }
      assert TotalLength(parts) == TotalLength(init) + |parts[|parts| - 1]|;
    }
  }

  /** ASCII lower-casing of one character. */
  function LowerChar(c: char): char {
    if 'A' <= c <= 'Z' then (c as int + 32) as char else c
  }

  /** `value.lower() == 'true'`. Only ASCII capitals lower-case to the letters of "true",
      so ASCII lower-casing decides this comparison exactly. */
  predicate IsTrueFlag(value: string) {
    |value| == 4 && forall i :: 0 <= i < 4 ==> LowerChar(value[i]) == "true"[i]
  }

  /** A query parameter counts when present and non-empty (Python truthiness). */
  predicate Given(param: Option<string>) {
    param.Some? && param.value != ""
  }

  /** A flag parameter is on when present and equal to "true" ignoring case. */
  predicate FlagOn(param: Option<string>) {
    param.Some? && IsTrueFlag(param.value)
  }

  /** The index of the first `c` in `s`, or `|s|` when there is none. */
  function IndexOf(s: string, c: char): (k: nat)
    ensures k <= |s|
    ensures k < |s| ==> s[k] == c
    ensures forall i :: 0 <= i < k ==> s[i] != c
  {
    if s == [] then 0
    else if s[0] == c then 0
    else 1 + IndexOf(s[1..], c)
  }

  /** `s.split(c)[0]`: everything before the first `c` (all of `s` if there is none). */
  function BeforeFirst(s: string, c: char): (r: string)
    ensures c !in r
    ensures r <= s
    ensures c !in s ==> r == s
  {
    s[..IndexOf(s, c)]
  }
}
