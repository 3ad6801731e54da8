/**
  The pieces of Python's `str` behaviour the two programs rely on: the
  whitespace class of `\s` and `str.isspace`, ASCII decimal digits, prefix
  tests, and `int(s)` on a string in base 10 together with its inverse,
  `str(n)`.
*/
module Strings {
  import opened Wrappers

  /** The characters `str.isspace()` accepts, which is also the set `\s`
      matches in a `str` pattern. */
  predicate IsSpace(c: char) {
    c == ' ' || ('\t' <= c <= '\r') || ('\U{1c}' <= c <= '\U{1f}')
    || c == '\U{85}' || c == '\U{a0}' || c == '\U{1680}'
    || ('\U{2000}' <= c <= '\U{200a}') || c == '\U{2028}' || c == '\U{2029}'
    || c == '\U{202f}' || c == '\U{205f}' || c == '\U{3000}'
  }

  predicate IsDigit(c: char) {
    '0' <= c <= '9'
  }

  predicate AllDigits(s: string) {
    forall i :: 0 <= i < |s| ==> IsDigit(s[i])
  }

  predicate StartsWith(s: string, prefix: string) {
    |prefix| <= |s| && s[..|prefix|] == prefix
  }

  function DigitValue(c: char): (d: nat)
    requires IsDigit(c)
    ensures d < 10
  {
    c as int - '0' as int
  }

  function DigitChar(d: nat): (c: char)
    requires d < 10
    ensures IsDigit(c) && DigitValue(c) == d
  {
    ('0' as int + d) as char
  }

  /** The number a run of decimal digits denotes, most significant first. */
  function DigitsValue(ds: string): nat
    requires AllDigits(ds)
    decreases |ds|
  {
    if ds == [] then 0
    else DigitsValue(ds[..|ds| - 1]) * 10 + DigitValue(ds[|ds| - 1])
  }

  /** `str(n)` for a natural number: no sign, no leading zero. */
  function NatToString(n: nat): (s: string)
    ensures |s| > 0 && AllDigits(s)
    ensures |s| > 1 ==> s[0] != '0'
    decreases n
  {
    if n < 10 then [DigitChar(n)] else NatToString(n / 10) + [DigitChar(n % 10)]
  }

  /** `str(i)` for any integer. */
  function IntToString(i: int): (s: string)
    ensures |s| > 0
  {
    if i < 0 then "-" + NatToString(-i) else NatToString(i)
  }

  lemma {:induction false} NatToStringValue(n: nat)
    ensures DigitsValue(NatToString(n)) == n
    decreases n
  {
    var s := NatToString(n);
    if n >= 10 {
      NatToStringValue(n / 10);
      assert s[..|s| - 1] == NatToString(n / 10);
    }
  }

  /** The index of the first character of `s` at or after `i` that is not
      whitespace (|s| if there is none): where `\s*` stops. */
  function SkipSpaces(s: string, i: nat): (j: nat)
    requires i <= |s|
    ensures i <= j <= |s|
    ensures forall k :: i <= k < j ==> IsSpace(s[k])
    ensures j < |s| ==> !IsSpace(s[j])
    decreases |s| - i
  {
    if i == |s| || !IsSpace(s[i]) then i else SkipSpaces(s, i + 1)
  }

  /** The end of the longest run of decimal digits starting at `i`: where
      a greedy `[0-9]+` stops. */
  function DigitRun(s: string, i: nat): (j: nat)
    requires i <= |s|
    ensures i <= j <= |s|
    ensures AllDigits(s[i..j])
    ensures j < |s| ==> !IsDigit(s[j])
    decreases |s| - i
  {
    if i == |s| || !IsDigit(s[i]) then i else DigitRun(s, i + 1)
  }

  /** The end of `s[lo..]` once trailing whitespace is cut off: where
      `str.rstrip()` stops. */
  function TrimEnd(s: string, lo: nat, j: nat): (b: nat)
    requires lo <= j <= |s|
    ensures lo <= b <= j
    ensures forall k :: b <= k < j ==> IsSpace(s[k])
    ensures b > lo ==> !IsSpace(s[b - 1])
    decreases j
  {
    if j == lo || !IsSpace(s[j - 1]) then j else TrimEnd(s, lo, j - 1)
  }

  /** `s.strip()` with no argument: whitespace removed from both ends. */
  function Strip(s: string): (t: string)
    ensures t == [] || (!IsSpace(t[0]) && !IsSpace(t[|t| - 1]))
  {
    var a := SkipSpaces(s, 0);
    s[a..TrimEnd(s, a, |s|)]
  }

  /** `Strip` drops exactly the whitespace at either end. */
  lemma StripBounds(s: string)
    ensures var a := SkipSpaces(s, 0); var b := TrimEnd(s, a, |s|);
      && Strip(s) == s[a..b]
      && (forall k :: 0 <= k < a ==> IsSpace(s[k]))
      && (forall k :: b <= k < |s| ==> IsSpace(s[k]))
  {
  }

  /** The body Python's `int()` accepts between the optional sign and the
      trailing whitespace: decimal digits, with single underscores allowed
      between two digits. */
  predicate DigitGroups(b: string) {
    && |b| > 0
    && IsDigit(b[0]) && IsDigit(b[|b| - 1])
    && (forall k :: 0 <= k < |b| ==> IsDigit(b[k]) || b[k] == '_')
    && (forall k :: 0 <= k < |b| - 1 ==> !(b[k] == '_' && b[k + 1] == '_'))
  }

  /** The digits of a digit-group body, underscores dropped. */
  function DropUnderscores(b: string): (ds: string)
    requires forall k :: 0 <= k < |b| ==> IsDigit(b[k]) || b[k] == '_'
    ensures AllDigits(ds) && |ds| <= |b|
    ensures AllDigits(b) ==> ds == b
    decreases |b|
  {
    if b == [] then []
    else if b[0] == '_' then DropUnderscores(b[1..])
    else [b[0]] + DropUnderscores(b[1..])
  }

  /** Python's `int(s)` for a `str` in base 10: `None` where it raises
      `ValueError`. Leading and trailing whitespace, one sign and
      underscores between digits are accepted. */
  function ParseInt(s: string): Option<int> {
    var t := Strip(s);
    if t == [] then None
    else
      var negative := t[0] == '-';
      var body := if t[0] == '-' || t[0] == '+' then t[1..] else t;
      if !DigitGroups(body) then None
      else
        var v: int := DigitsValue(DropUnderscores(body));
        Some(if negative then -v else v)
  }

  lemma ParseIntString(n: int)
    ensures ParseInt(IntToString(n)) == Some(n)
  {
    var s := IntToString(n);
    var m := if n < 0 then -n else n;
    NatToStringValue(m);
    assert !IsSpace(s[0]) && !IsSpace(s[|s| - 1]);
    assert Strip(s) == s;
    var body := if s[0] == '-' then s[1..] else s;
    assert body == NatToString(m);
  }

  /** A string holding a letter or any other character that is not a digit,
      sign, underscore or whitespace is rejected by `int()`. */
  lemma ParseIntRejects(s: string, k: nat)
    requires k < |s|
    requires !IsDigit(s[k]) && !IsSpace(s[k]) && s[k] !in "+-_"
    ensures ParseInt(s) == None
  {
    StripBounds(s);
    var a := SkipSpaces(s, 0);
    var b := TrimEnd(s, a, |s|);
    var t := Strip(s);
    assert a <= k < b;
    assert t[k - a] == s[k];
    var body := if t[0] == '-' || t[0] == '+' then t[1..] else t;
    var off := if t[0] == '-' || t[0] == '+' then 1 else 0;
    if k - a >= off {
      assert body[k - a - off] == s[k];
    }
  }
}
