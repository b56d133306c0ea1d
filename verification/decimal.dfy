/** Decimal rendering and parsing of integers as the Go standard library does
    it: `strconv.Itoa` / `fmt.Sprintf("%d")`, `fmt.Sprintf("%02d")` and
    `strconv.Atoi` (without its 64-bit range check). */
module Decimal {
  import opened Basics

  predicate IsDigit(c: char) { '0' <= c <= '9' }

  predicate AllDigits(s: string) { forall k :: 0 <= k < |s| ==> IsDigit(s[k]) }

  function DigitValue(c: char): (d: nat)
    requires IsDigit(c)
    ensures d < 10
  {
    (c as int) - ('0' as int)
  }

  function DigitChar(d: nat): (c: char)
    requires d < 10
    ensures IsDigit(c) && DigitValue(c) == d
  {
    (('0' as int) + d) as char
  }

  /** The digits of `n`, most significant first, without leading zeros. */
  function NatToString(n: nat): (s: string)
    ensures |s| >= 1 && AllDigits(s)
    ensures n < 10 <==> |s| == 1
    decreases n
  {
    if n < 10 then [DigitChar(n)] else NatToString(n / 10) + [DigitChar(n % 10)]
  }

  /** `strconv.Itoa(i)`, also `fmt.Sprintf("%d", i)`. */
  function IntToString(i: int): (s: string)
    ensures |s| >= 1
    ensures i >= 0 ==> AllDigits(s)
    ensures i < 0 ==> s[0] == '-' && AllDigits(s[1..])
  {
    if i < 0 then "-" + NatToString(-i) else NatToString(i)
  }

  /** `fmt.Sprintf("%02d", i)`: at least two characters, zero-padded; the
      minus sign of a negative number already fills the width. */
  function Pad2(i: int): (s: string)
    ensures |s| >= 2
    ensures 0 <= i < 10 ==> s == ['0', DigitChar(i)]
    ensures (i < 0 || i >= 10) ==> s == IntToString(i)
  {
    if 0 <= i < 10 then "0" + NatToString(i) else IntToString(i)
  }

  /** The value of a string of decimal digits, read left to right. */
  function DigitsValue(s: string): nat
    requires AllDigits(s)
    decreases |s|
  {
    if |s| == 0 then 0 else 10 * DigitsValue(s[..|s|-1]) + DigitValue(s[|s|-1])
  }

  /** `strconv.Atoi`: an optional '+' or '-' followed by one or more decimal
      digits; any other string is a syntax error (None). */
  function Atoi(s: string): (r: Option<int>)
    ensures |s| == 0 ==> r == None
  {
    if |s| > 0 && (s[0] == '+' || s[0] == '-') then
      var digits := s[1..];
      if |digits| > 0 && AllDigits(digits) then
        var v: int := DigitsValue(digits);
        Some(if s[0] == '-' then -v else v)
      else None
    else if |s| > 0 && AllDigits(s) then Some(DigitsValue(s))
    else None
  }

  /** A string Atoi accepts contains only a sign and digits: in particular
      every string that holds a non-digit, non-sign character is refused. */
  lemma AtoiRefusesForeign(s: string, k: nat)
    requires k < |s| && !IsDigit(s[k]) && s[k] != '+' && s[k] != '-'
    ensures Atoi(s) == None
  {
    if |s| > 0 && (s[0] == '+' || s[0] == '-') {
      assert k > 0;
      assert s[1..][k-1] == s[k];
    }
  }

  lemma {:induction false} NatToStringValue(n: nat)
    ensures DigitsValue(NatToString(n)) == n
    decreases n
  {
    if n >= 10 {
      NatToStringValue(n / 10);
      var s := NatToString(n);
      assert s[..|s|-1] == NatToString(n / 10);
    }
  }

  /** Parsing undoes rendering, for every integer. */
  lemma AtoiIntToString(i: int)
    ensures Atoi(IntToString(i)) == Some(i)
  {
    var s := IntToString(i);
    if i < 0 {
      NatToStringValue(-i);
      assert s[0] == '-';
      assert s[1..] == NatToString(-i);
    } else {
      NatToStringValue(i);
      assert IsDigit(s[0]);
    }
  }

  /** Rendering is injective, so distinct numbers get distinct labels. */
  lemma IntToStringInjective(i: int, j: int)
    requires IntToString(i) == IntToString(j)
    ensures i == j
  {
    AtoiIntToString(i);
    AtoiIntToString(j);
  }

  /** Parsing the zero-padded rendering gives the number back: leading zeros
      are accepted by Atoi. */
  lemma AtoiPad2(i: int)
    ensures Atoi(Pad2(i)) == Some(i)
  {
    if 0 <= i < 10 {
      var s := Pad2(i);
      assert s[..|s|-1] == "0";
      assert DigitsValue("0") == 10 * DigitsValue("") + 0;
    } else {
      AtoiIntToString(i);
    }
  }
}
