/**
 * The two input validators: a Russian mobile number as digits, and anything
 * Python's `int()` accepts.
 */
module Validation {
  import opened PyText
  import opened PyInt

  /**
   * `check_phone`: ten characters starting with `9`, or eleven starting with
   * `79` or `89`. Only the length and the prefix are looked at.
   */
  function CheckPhone(phone: string): (ok: bool)
    ensures ok <==> (|phone| == 10 && phone[0] == '9') || (|phone| == 11 && (phone[..2] == "79" || phone[..2] == "89"))
  {
    var length := |phone|;
    !(|| (length != 10 && length != 11)
      || (length == 11 && phone[..2] != "79" && phone[..2] != "89")
      || (length == 10 && phone[0] != '9'))
  }

  /** Every length other than 10 and 11 is rejected. */
  lemma CheckPhoneLength(phone: string)
    requires CheckPhone(phone)
    ensures |phone| == 10 || |phone| == 11
  {
  }

  /** The characters after the prefix are not checked: callers must keep only the digits first. */
  lemma CheckPhoneIgnoresTail()
    ensures CheckPhone("9---------")
    ensures CheckPhone("79abcdefghi")
  {
    assert "79abcdefghi"[..2] == "79";
  }

  /** `check_integer`: `int(value)` does not raise. */
  function CheckInteger(value: string): (ok: bool)
    ensures ok <==> IsIntLiteral(Strip(value))
  {
    ParseInt(value).Some?
  }

  /** A negative number is accepted. */
  lemma CheckIntegerAcceptsSign()
    ensures CheckInteger("-5")
  {
    TrimUntouched("-5", IsSpace);
    assert "-5"[1..] == "5";
    assert IsDigitGroup("5");
  }

  /** Surrounding whitespace is accepted. */
  lemma CheckIntegerAcceptsSpace()
    ensures CheckInteger(" 7 ")
  {
    var s := " 7 ";
    assert IsSpace(s[0]) && s[1..] == "7 ";
    assert TrimLeft(s, IsSpace) == TrimLeft("7 ", IsSpace) == "7 ";
    var t := "7 ";
    assert IsSpace(t[1]) && t[..1] == "7";
    assert TrimRight(t, IsSpace) == TrimRight("7", IsSpace) == "7";
    assert Strip(s) == "7";
    assert IsDigitGroup("7");
  }

  /** A string without a decimal digit is rejected: a false result, not an exception. */
  lemma CheckIntegerNeedsADigit(value: string)
    requires forall k :: 0 <= k < |value| ==> !IsDigit(value[k])
    ensures !CheckInteger(value)
  {
    ParseIntNeedsADigit(value);
  }

  /** What `str` writes for an integer is accepted. */
  lemma CheckIntegerOfInt(n: int)
    ensures CheckInteger(IntToString(n))
  {
    IntRoundTrip(n);
  }
}
