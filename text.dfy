/**
 * Character classes and the two conversions of text to numbers the tool relies on:
 * Python's `int(text)` on a decimal string and `text.split("\t")[0]`.
 */
module Text {
  import opened Wrappers

  predicate IsDigit(c: char) {
    '0' <= c <= '9'
  }

  predicate AllDigits(s: string) {
    forall i :: 0 <= i < |s| ==> IsDigit(s[i])
  }

  /** The characters `str.isspace` accepts, which `int()` strips from both ends. */
  predicate IsSpace(c: char) {
    c == ' ' || '\t' <= c <= '\r' || '\U{1c}' <= c <= '\U{1f}' || c == '\U{85}' || c == '\U{a0}'
    || c == '\U{1680}' || '\U{2000}' <= c <= '\U{200a}' || c == '\U{2028}' || c == '\U{2029}'
    || c == '\U{202f}' || c == '\U{205f}' || c == '\U{3000}'
  }

  predicate AllSpace(s: string) {
    forall i :: 0 <= i < |s| ==> IsSpace(s[i])
  }

  function DigitValue(c: char): nat
    requires IsDigit(c)
  {
    (c as int) - ('0' as int)
  }

  function DigitChar(d: nat): (c: char)
    requires d < 10
    ensures IsDigit(c) && DigitValue(c) == d
  {
    ('0' as int + d) as char
  }

  /** The value of a string of decimal digits, most significant first. */
  function DecimalValue(s: string): nat
    requires AllDigits(s)
  {
    if s == [] then 0 else DecimalValue(s[..|s| - 1]) * 10 + DigitValue(s[|s| - 1])
  }

  /** `str(n)` for a natural number: its decimal digits without leading zeros. */
  function ShowNat(n: nat): (s: string)
    ensures |s| > 0 && AllDigits(s)
    ensures DecimalValue(s) == n
    ensures n > 0 ==> s[0] != '0'
  {
    if n < 10 then
      [DigitChar(n)]
    else
      var prefix := ShowNat(n / 10);
      assert (prefix + [DigitChar(n % 10)])[..|prefix|] == prefix;
      prefix + [DigitChar(n % 10)]
  }

  /** `s.lstrip()`. */
  function TrimLeft(s: string): string {
    if s != [] && IsSpace(s[0]) then TrimLeft(s[1..]) else s
  }

  /** `s.rstrip()`. */
  function TrimRight(s: string): string {
    if s != [] && IsSpace(s[|s| - 1]) then TrimRight(s[..|s| - 1]) else s
  }

  /** `s.strip()`. */
  function Strip(s: string): string {
    TrimRight(TrimLeft(s))
  }

  /**
   * `int(s)` for base 10: surrounding white space, an optional sign and at least
   * one decimal digit; anything else raises ValueError, here None.
   */
  function ParseInt(s: string): Option<int> {
    var t := Strip(s);
    if t == [] then None
    else if t[0] == '-' && |t| > 1 && AllDigits(t[1..]) then Some(0 - DecimalValue(t[1..]))
    else if t[0] == '+' && |t| > 1 && AllDigits(t[1..]) then Some(DecimalValue(t[1..]))
    else if AllDigits(t) then Some(DecimalValue(t))
    else None
  }

  /** `s.split("\t")[0]`: everything before the first tab, or all of `s` if it has none. */
  function FirstField(s: string): (r: string)
    ensures |r| <= |s| && r == s[..|r|]
    ensures '\t' !in r
    ensures |r| == |s| || s[|r|] == '\t'
  {
    if s == [] || s[0] == '\t' then [] else [s[0]] + FirstField(s[1..])
  }

  /** `s.startswith(prefix)`. */
  predicate StartsWith(s: string, prefix: string) {
    |prefix| <= |s| && s[..|prefix|] == prefix
  }

  lemma {:induction false} TrimLeftStops(pre: string, rest: string)
    requires AllSpace(pre)
    requires rest == [] || !IsSpace(rest[0])
    ensures TrimLeft(pre + rest) == rest
  {
    if pre != [] {
      assert (pre + rest)[1..] == pre[1..] + rest;
      TrimLeftStops(pre[1..], rest);
    }
  }

  lemma {:induction false} TrimRightStops(rest: string, post: string)
    requires AllSpace(post)
    requires rest == [] || !IsSpace(rest[|rest| - 1])
    ensures TrimRight(rest + post) == rest
  {
    if post != [] {
      var s := rest + post;
      assert s[|s| - 1] == post[|post| - 1];
      assert s[..|s| - 1] == rest + post[..|post| - 1];
      TrimRightStops(rest, post[..|post| - 1]);
    } else {
      assert rest + post == rest;
    }
  }

  lemma StripAroundDigits(pre: string, digits: string, post: string)
    requires AllSpace(pre) && AllSpace(post)
    requires |digits| > 0 && AllDigits(digits)
    ensures Strip(pre + digits + post) == digits
  {
    assert pre + digits + post == pre + (digits + post);
    TrimLeftStops(pre, digits + post);
    TrimRightStops(digits, post);
  }

  /** `int()` reads back what `str()` wrote, whatever white space surrounds it. */
  lemma ParseShowNat(n: nat, pre: string, post: string)
    requires AllSpace(pre) && AllSpace(post)
    ensures ParseInt(pre + ShowNat(n) + post) == Some(n)
  {
    StripAroundDigits(pre, ShowNat(n), post);
  }

  /** The first tab-delimited field of "<digits>\t<rest>" is the digits. */
  lemma FirstFieldOfDigits(digits: string, rest: string)
    requires AllDigits(digits)
    ensures FirstField(digits + "\t" + rest) == digits
  {
    var s := digits + "\t" + rest;
    assert s[|digits|] == '\t';
    assert s[..|digits|] == digits;
  }
}
