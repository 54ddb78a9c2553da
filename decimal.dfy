/** Go's `%d` verb on a signed integer, and the decimal reading that shows
    it loses nothing. */
module Decimal {
  import opened Wrappers

  predicate IsDigit(c: char) {
    '0' <= c <= '9'
  }

  function DigitValue(c: char): (d: nat)
    requires IsDigit(c)
    ensures d < 10
  {
    (c as int) - ('0' as int)
  }

  function DigitChar(d: nat): (c: char)
    requires d < 10
    ensures IsDigit(c) && DigitValue(c) == d
  {
    (('0' as int) + d) as char
  }

  /** The value of a non-empty string of decimal digits; None for anything else. */
  function ParseNat(s: string): Option<nat>
  {
    if |s| == 0 || !IsDigit(s[|s| - 1]) then None
    else if |s| == 1 then Some(DigitValue(s[0]))
    else
      match ParseNat(s[..|s| - 1])
      case None => None
      case Some(v) => Some(10 * v + DigitValue(s[|s| - 1]))
  }

  /** The value of an optional minus sign followed by decimal digits. */
  function ParseInt(s: string): Option<int>
  {
    if |s| > 0 && s[0] == '-' then
      match ParseNat(s[1..])
      case None => None
      case Some(v) => Some(-(v as int))
    else
      match ParseNat(s)
      case None => None
      case Some(v) => Some(v as int)
  }

  /** Appending a digit to a numeral multiplies its value by ten and adds the digit. */
  lemma ParseNatSnoc(s: string, c: char)
    requires ParseNat(s).Some? && IsDigit(c)
    ensures ParseNat(s + [c]) == Some(10 * ParseNat(s).value + DigitValue(c))
  {
    var t := s + [c];
    assert t[..|t| - 1] == s;
  }

  /** The digits of a natural number, most significant first, without leading zeros. */
  function NatToDecimal(n: nat): (s: string)
    ensures |s| > 0 && IsDigit(s[0])
    ensures s[0] == '0' <==> n == 0
    ensures s[0] == '0' ==> |s| == 1
    decreases n
  {
    if n < 10 then [DigitChar(n)] else NatToDecimal(n / 10) + [DigitChar(n % 10)]
  }

  /** Reading the digits back gives the number. */
  lemma {:induction false} NatToDecimalParses(n: nat)
    ensures ParseNat(NatToDecimal(n)) == Some(n)
    decreases n
  {
    if n >= 10 {
      NatToDecimalParses(n / 10);
      ParseNatSnoc(NatToDecimal(n / 10), DigitChar(n % 10));
    }
  }

  /** A numeral as `%d` spells it: decimal digits only, and no leading zero
      unless the numeral is `0` itself. */
  predicate Numeral(s: string)
  {
    && |s| > 0
    && (forall k :: 0 <= k < |s| ==> IsDigit(s[k]))
    && (s[0] == '0' ==> |s| == 1)
  }

  /** The digits of every natural number form a numeral. */
  lemma {:induction false} NatToDecimalNumeral(n: nat)
    ensures Numeral(NatToDecimal(n))
    decreases n
  {
    if n >= 10 {
      NatToDecimalNumeral(n / 10);
    }
  }

  lemma DigitCharOfValue(c: char)
    requires IsDigit(c)
    ensures DigitChar(DigitValue(c)) == c
  {
  }

  /** A numeral is the only one with its value: the digits of `n` are the
      only numeral that reads as `n`. */
  lemma {:induction false} NumeralUnique(s: string, n: nat)
    requires Numeral(s) && ParseNat(s) == Some(n)
    ensures s == NatToDecimal(n)
    decreases |s|
  {
    var last := s[|s| - 1];
    if |s| == 1 {
      DigitCharOfValue(s[0]);
    } else {
      var t := s[..|s| - 1];
      assert t[0] == s[0];
      var m := ParseNat(t).value;
      NumeralUnique(t, m);
      assert m != 0;
      assert n == 10 * m + DigitValue(last);
      assert n / 10 == m && n % 10 == DigitValue(last);
      DigitCharOfValue(last);
      assert s == t + [last];
    }
  }

  /** `fmt.Sprintf("%d", i)`: a minus sign for negative values, then the digits. */
  function IntToDecimal(i: int): (s: string)
    ensures |s| > 0 && (s[0] == '-' || IsDigit(s[0]))
    ensures s[0] == '-' <==> i < 0
  {
    if i < 0 then "-" + NatToDecimal(-i) else NatToDecimal(i)
  }

  /** A minus sign before a numeral reads as its negation. */
  lemma ParseIntNegative(t: string)
    requires ParseNat(t).Some?
    ensures ParseInt("-" + t) == Some(-(ParseNat(t).value as int))
  {
    assert ("-" + t)[1..] == t;
  }

  /** Reading the text back gives the integer: `%d` loses nothing, and in
      particular never clamps or drops the sign. */
  lemma IntToDecimalParses(i: int)
    ensures ParseInt(IntToDecimal(i)) == Some(i)
  {
    if i < 0 {
      NatToDecimalParses(-i);
      ParseIntNegative(NatToDecimal(-i));
    } else {
      NatToDecimalParses(i);
    }
  }

  /** The text `%d` prints for an integer: a numeral, or a minus sign
      followed by a numeral other than `0`. */
  predicate Canonical(s: string)
  {
    || Numeral(s)
    || (|s| >= 2 && s[0] == '-' && s[1] != '0' && Numeral(s[1..]))
  }

  /** `%d` text is canonical: no leading zeros, no `-0`. */
  lemma IntToDecimalCanonical(i: int)
    ensures Canonical(IntToDecimal(i))
  {
    if i < 0 {
      NatToDecimalNumeral(-i);
      assert IntToDecimal(i)[1..] == NatToDecimal(-i);
    } else {
      NatToDecimalNumeral(i);
    }
  }

  /** The `%d` text of `i` is the only canonical text that reads as `i`, so
      together with `IntToDecimalParses` it fixes the spelling exactly. */
  lemma CanonicalUnique(s: string, i: int)
    requires Canonical(s) && ParseInt(s) == Some(i)
    ensures s == IntToDecimal(i)
  {
    if s[0] == '-' {
      var v := ParseNat(s[1..]).value;
      NumeralUnique(s[1..], v);
      assert v != 0;
      assert s == "-" + s[1..];
    } else {
      NumeralUnique(s, i);
    }
  }
}
