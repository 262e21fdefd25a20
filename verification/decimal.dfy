/**
 Decimal text of integers, as Python's f-string interpolation `f'{n}'` writes it:
 the shortest digit string, a leading '-' for negative values, and no leading zeros.
 The parsers are the inverses used to state that the rendering loses nothing.
 */
module Decimal {

  import opened Wrappers

  predicate IsDigit(c: char) {
    '0' <= c <= '9'
  }

  /** A non-empty string of decimal digits. */
  predicate IsDigits(s: string) {
    |s| > 0 && forall i :: 0 <= i < |s| ==> IsDigit(s[i])
  }

  /** Digits without a redundant leading zero: what `str` produces for a natural number. */
  predicate IsCanonical(s: string) {
    IsDigits(s) && (s[0] == '0' ==> s == "0")
  }

  function DigitValue(c: char): (d: nat)
    requires IsDigit(c)
    ensures d < 10
  {
    (c as int) - ('0' as int)
  }

  function DigitChar(d: nat): (c: char)
    requires d < 10
    ensures IsDigit(c) && DigitValue(c) == d
  {
    (('0' as int) + d) as char
  }

  /** `str(n)` for a natural number. */
  function NatToString(n: nat): (s: string)
    ensures IsCanonical(s)
    ensures s[0] == '0' <==> n == 0
    ensures |s| == 1 <==> n < 10
    decreases n
  {
    if n < 10 then [DigitChar(n)]
    else NatToString(n / 10) + [DigitChar(n % 10)]
  }

  /** The value of a string of decimal digits (the empty string reads as 0). */
  function ParseNat(s: string): nat
    requires forall i :: 0 <= i < |s| ==> IsDigit(s[i])
    decreases |s|
  {
    if |s| == 0 then 0
    else ParseNat(s[..|s| - 1]) * 10 + DigitValue(s[|s| - 1])
  }

  /** `str(n)` for any integer. */
  function IntToString(n: int): (s: string)
    ensures |s| > 0
    ensures s[0] == '-' <==> n < 0
  {
    if n < 0 then "-" + NatToString(-n) else NatToString(n)
  }

  /** Reads back what `IntToString` writes; anything else is `None`. */
  function ParseInt(s: string): Option<int> {
    if |s| > 0 && s[0] == '-' then
      var digits := s[1..];
      if IsCanonical(digits) && digits != "0" then Some(0 - ParseNat(digits) as int) else None
    else if IsCanonical(s) then Some(ParseNat(s) as int)
    else None
  }

  /** Reading the decimal text of `n` gives back `n`. */
  lemma {:induction false} ParseNatToString(n: nat)
    ensures ParseNat(NatToString(n)) == n
    decreases n
  {
    var s := NatToString(n);
    if n < 10 {
      assert s[..|s| - 1] == [];
    } else {
      var p := NatToString(n / 10);
      assert s == p + [DigitChar(n % 10)];
      assert s[..|s| - 1] == p;
      ParseNatToString(n / 10);
    }
  }

  /** A digit string without a leading zero reads as a positive value. */
  lemma {:induction false} ParseNatPositive(s: string)
    requires IsDigits(s) && s[0] != '0'
    ensures ParseNat(s) > 0
    decreases |s|
  {
    if |s| > 1 {
      var p := s[..|s| - 1];
      assert p[0] == s[0];
      ParseNatPositive(p);
    } else {
      assert s[..|s| - 1] == [];
    }
  }

  /** Every canonical digit string is the decimal text of the value it reads as. */
  lemma {:induction false} NatToStringParse(s: string)
    requires IsCanonical(s)
    ensures NatToString(ParseNat(s)) == s
    decreases |s|
  {
    var last := s[|s| - 1];
    var d := DigitValue(last);
    var p := s[..|s| - 1];
    assert DigitChar(d) == last;
    if |s| == 1 {
      assert p == [];
      assert ParseNat(s) == d;
      assert [DigitChar(d)] == s;
    } else {
      assert p[0] == s[0] && s[0] != '0';
      ParseNatPositive(p);
      NatToStringParse(p);
      var n := ParseNat(s);
      assert n == ParseNat(p) * 10 + d;
      assert n / 10 == ParseNat(p) && n % 10 == d;
      assert s == p + [last];
    }
  }

  /** The decimal text of distinct naturals differs. */
  lemma NatToStringInjective(m: nat, n: nat)
    requires NatToString(m) == NatToString(n)
    ensures m == n
  {
    ParseNatToString(m);
    ParseNatToString(n);
  }

  /** Reading the decimal text of any integer gives it back. */
  lemma ParseIntToString(n: int)
    ensures ParseInt(IntToString(n)) == Some(n)
  {
    var s := IntToString(n);
    if n < 0 {
      assert s[1..] == NatToString(-n);
      ParseNatToString(-n);
    } else {
      ParseNatToString(n);
    }
  }

  /** `ParseInt` accepts exactly the texts `IntToString` writes. */
  lemma ParseIntSound(s: string, n: int)
    requires ParseInt(s) == Some(n)
    ensures IntToString(n) == s
  {
    if |s| > 0 && s[0] == '-' {
      var digits := s[1..];
      NatToStringParse(digits);
      ParseNatPositive(digits);
      assert s == "-" + digits;
    } else {
      NatToStringParse(s);
    }
  }
}
