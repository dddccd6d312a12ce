/**
 * Python's `int(s)` on a string and `str(n)` on an integer. `int` accepts
 * surrounding whitespace, an optional sign and ASCII decimal digits with
 * single underscores between them (`" -1_000 "` is `-1000`); anything else
 * raises `ValueError`, which is `None` here.
 */
module PyInt {
  import opened Wrappers
  import opened PyText

  predicate IsDigit(c: char) {
    '0' <= c <= '9'
  }

  function DigitValue(c: char): (d: nat)
    requires IsDigit(c)
    ensures d < 10
  {
    (c as int) - ('0' as int)
  }

  function DigitChar(d: nat): (c: char)
    requires d < 10
    ensures IsDigit(c) && DigitValue(c) == d
  {
    (('0' as int) + d) as char
  }

  /** The value of a string of decimal digits, most significant first. */
  function DigitsValue(s: string): nat
    requires forall k :: 0 <= k < |s| ==> IsDigit(s[k])
  {
    if |s| == 0 then 0 else DigitsValue(s[..|s| - 1]) * 10 + DigitValue(s[|s| - 1])
  }

  /** Digits with single underscores between them: `1_000` yes, `_1`, `1_`, `1__0` no. */
  predicate IsDigitGroup(s: string) {
    && |s| > 0
    && IsDigit(s[0]) && IsDigit(s[|s| - 1])
    && (forall k :: 0 <= k < |s| ==> IsDigit(s[k]) || s[k] == '_')
    && (forall j, k :: 0 <= j < |s| && 0 <= k < |s| && k == j + 1 ==> !(s[j] == '_' && s[k] == '_'))
  }

  function RemoveUnderscores(s: string): string {
    if |s| == 0 then ""
    else if s[0] == '_' then RemoveUnderscores(s[1..])
    else [s[0]] + RemoveUnderscores(s[1..])
  }

  lemma {:induction false} RemoveUnderscoresDigits(s: string)
    requires forall k :: 0 <= k < |s| ==> IsDigit(s[k]) || s[k] == '_'
    ensures forall k :: 0 <= k < |RemoveUnderscores(s)| ==> IsDigit(RemoveUnderscores(s)[k])
    decreases |s|
  {
    if |s| > 0 {
      RemoveUnderscoresDigits(s[1..]);
    }
  }

  lemma {:induction false} RemoveUnderscoresOfDigits(s: string)
    requires forall k :: 0 <= k < |s| ==> IsDigit(s[k])
    ensures RemoveUnderscores(s) == s
    decreases |s|
  {
    if |s| > 0 {
      RemoveUnderscoresOfDigits(s[1..]);
      assert [s[0]] + s[1..] == s;
    }
  }

  /** The text of an integer literal, sign included, once whitespace is stripped. */
  predicate IsIntLiteral(t: string) {
    if |t| > 0 && (t[0] == '+' || t[0] == '-') then IsDigitGroup(t[1..]) else IsDigitGroup(t)
  }

  function LiteralValue(t: string): int
    requires IsIntLiteral(t)
  {
    var signed := |t| > 0 && (t[0] == '+' || t[0] == '-');
    var body := if signed then t[1..] else t;
    RemoveUnderscoresDigits(body);
    var n: int := DigitsValue(RemoveUnderscores(body));
    if signed && t[0] == '-' then -n else n
  }

  /** `int(s)`: `None` where Python raises `ValueError`. */
  function ParseInt(s: string): (r: Option<int>)
    ensures r.Some? <==> IsIntLiteral(Strip(s))
  {
    var t := Strip(s);
    if IsIntLiteral(t) then Some(LiteralValue(t)) else None
  }

  /** `str(n)` for a natural number: no sign, no leading zero. */
  function NatToString(n: nat): (s: string)
    ensures |s| > 0 && forall k :: 0 <= k < |s| ==> IsDigit(s[k])
    ensures n == 0 <==> s == "0"
    ensures s[0] == '0' ==> s == "0"
  {
    if n < 10 then [DigitChar(n)] else NatToString(n / 10) + [DigitChar(n % 10)]
  }

  /** `str(n)`. */
  function IntToString(n: int): (s: string)
    ensures |s| > 0 && (n < 0 <==> s[0] == '-')
    ensures forall k :: 0 <= k < |s| ==> IsDigit(s[k]) || (k == 0 && s[k] == '-')
  {
    if n < 0 then "-" + NatToString(-n) else NatToString(n)
  }

  /** Reading back the digits `str` writes gives the number. */
  lemma {:induction false} NatToStringValue(n: nat)
    ensures DigitsValue(NatToString(n)) == n
    decreases n
  {
    if n >= 10 {
      NatToStringValue(n / 10);
      var s := NatToString(n);
      assert s[..|s| - 1] == NatToString(n / 10);
    }
  }

  lemma NatToStringInjective(m: nat, n: nat)
    requires NatToString(m) == NatToString(n)
    ensures m == n
  {
    NatToStringValue(m);
    NatToStringValue(n);
  }

  lemma DigitsAreGroup(s: string)
    requires |s| > 0 && forall k :: 0 <= k < |s| ==> IsDigit(s[k])
    ensures IsDigitGroup(s)
  {
  }

  /** `int(str(n)) == n` for every integer. */
  lemma IntRoundTrip(n: int)
    ensures ParseInt(IntToString(n)) == Some(n)
  {
    var s := IntToString(n);
    var m: nat := if n < 0 then -n else n;
    var digits := NatToString(m);
    assert s == if n < 0 then "-" + digits else digits;
    assert !IsSpace(s[0]) && !IsSpace(s[|s| - 1]);
    TrimUntouched(s, IsSpace);
    DigitsAreGroup(digits);
    if n < 0 {
      assert s[1..] == digits;
    }
    RemoveUnderscoresOfDigits(digits);
    NatToStringValue(m);
  }

  /** A string with no decimal digit in it is never accepted by `int()`. */
  lemma ParseIntNeedsADigit(s: string)
    requires forall k :: 0 <= k < |s| ==> !IsDigit(s[k])
    ensures ParseInt(s) == None
  {
    var i := StripShape(s);
  }
}
