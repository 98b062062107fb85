/** The three conversions between text and integers that the script relies on:
    Python's `int(s)` for bit indices and clock values, `str(n)` for header
    names, and `int(s, 2)` for signal values. */
module Numerals {
  import opened Common
  import opened Bits

  predicate IsDigit(c: char)
  {
    '0' <= c <= '9'
  }

  predicate AllDigits(s: string)
  {
    forall i :: 0 <= i < |s| ==> IsDigit(s[i])
  }

  function DigitValue(c: char): nat
    requires IsDigit(c)
  {
    c as int - '0' as int
  }

  function DigitChar(d: nat): (c: char)
    requires d < 10
    ensures IsDigit(c) && DigitValue(c) == d
  {
    ('0' as int + d) as char
  }

  /** The value of a string of decimal digits, most significant first. */
  function DigitsValue(s: string): nat
    requires AllDigits(s)
  {
    if |s| == 0 then 0 else DigitsValue(s[..|s| - 1]) * 10 + DigitValue(s[|s| - 1])
  }

  /** Python's `int(s)` for a string without white space: an optional sign
      followed by one or more decimal digits; anything else raises. */
  function ParseInt(s: string): Option<int>
  {
    if |s| > 0 && (s[0] == '-' || s[0] == '+') then
      if |s| > 1 && AllDigits(s[1..]) then
        var magnitude: int := DigitsValue(s[1..]);
        Some(if s[0] == '-' then -magnitude else magnitude)
      else None
    else if |s| > 0 && AllDigits(s) then Some(DigitsValue(s) as int)
    else None
  }

  /** Python's `str(n)` for a non-negative n. */
  function NatToString(n: nat): (s: string)
    ensures |s| > 0 && AllDigits(s)
  {
    if n < 10 then [DigitChar(n)] else NatToString(n / 10) + [DigitChar(n % 10)]
  }

  /** Python's `str(n)`. */
  function IntToString(n: int): string
  {
    if n < 0 then "-" + NatToString(-n) else NatToString(n)
  }

  lemma {:induction false} NatToStringValue(n: nat)
    ensures DigitsValue(NatToString(n)) == n
  {
    if n >= 10 {
      NatToStringValue(n / 10);
      var s := NatToString(n);
      assert s[..|s| - 1] == NatToString(n / 10);
    }
  }

  /** `int(str(n)) == n`: the header text of a bit index reads back as that index. */
  lemma ParseIntOfString(n: int)
    ensures ParseInt(IntToString(n)) == Some(n)
  {
    if n < 0 {
      NatToStringValue(-n);
      assert IntToString(n)[1..] == NatToString(-n);
    } else {
      NatToStringValue(n);
    }
  }

  /** `str(n)` is made of digits and a leading minus sign only. */
  lemma IntToStringCharacters(n: int)
    ensures |IntToString(n)| > 0
    ensures forall i :: 0 <= i < |IntToString(n)| ==> IsDigit(IntToString(n)[i]) || IntToString(n)[i] == '-'
  {
  }

  predicate IsBinaryDigit(c: char)
  {
    c == '0' || c == '1'
  }

  /** Python's `int(s, 2)` for a string of 0 and 1 characters, most significant
      first; the empty string and any other character raise. */
  function ParseBinary(s: string): Option<nat>
  {
    if |s| == 0 || !IsBinaryDigit(s[|s| - 1]) then None
    else if |s| == 1 then Some(if s[0] == '1' then 1 else 0)
    else match ParseBinary(s[..|s| - 1])
      case None => None
      case Some(high) => Some(2 * high + (if s[|s| - 1] == '1' then 1 else 0))
  }

  /** A string reads in base 2 exactly when it is non-empty and made of 0 and
      1 only, and its value then fits in |s| bits. */
  lemma {:induction false} ParseBinaryMeaning(s: string)
    ensures ParseBinary(s).Some? <==> |s| > 0 && forall i :: 0 <= i < |s| ==> IsBinaryDigit(s[i])
    ensures ParseBinary(s).Some? ==> ParseBinary(s).value < Pow2(|s|)
  {
    if |s| > 1 {
      var init := s[..|s| - 1];
      ParseBinaryMeaning(init);
      assert forall i :: 0 <= i < |init| ==> init[i] == s[i];
    }
  }

  /** Bit i of the value of a binary string is its i-th character counted
      from the right. */
  lemma {:induction false} BitOfBinary(s: string, i: nat)
    requires ParseBinary(s).Some? && i < |s|
    ensures Bit(ParseBinary(s).value, i) == (if s[|s| - 1 - i] == '1' then 1 else 0)
  {
    var v := ParseBinary(s).value;
    if |s| > 1 {
      var high := ParseBinary(s[..|s| - 1]).value;
      assert v == 2 * high + (if s[|s| - 1] == '1' then 1 else 0);
      if i > 0 {
        BitOfBinary(s[..|s| - 1], i - 1);
        assert v / 2 == high;
        assert Bit(v, i) == Bit(high, i - 1);
      }
    }
  }
}
