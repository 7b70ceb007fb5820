/**
 * Decimal integer text, as the arithmetic cards use it:
 *  - ParseInt is Python's int() on the typed answer, restricted to an
 *    optional sign followed by ASCII decimal digits (None where int() raises);
 *  - Show is Python's str() of an int, used to write the prompts of the
 *    generated cards.
 */
module Decimal {

  datatype Option<+T> = None | Some(value: T)

  predicate IsDigit(c: char) {
    '0' <= c <= '9'
  }

  predicate AllDigits(s: string) {
    forall i :: 0 <= i < |s| ==> IsDigit(s[i])
  }

  function DigitValue(c: char): (d: nat)
    requires IsDigit(c)
    ensures d < 10
  {
    c as int - '0' as int
  }

  function DigitChar(d: nat): (c: char)
    requires d < 10
    ensures IsDigit(c) && DigitValue(c) == d
  {
    ('0' as int + d) as char
  }

  /** The value of a string of decimal digits, most significant digit first. */
  function DigitsValue(s: string): nat
    requires AllDigits(s)
  {
    if s == [] then 0 else 10 * DigitsValue(s[..|s| - 1]) + DigitValue(s[|s| - 1])
  }

  /** One or more digits; leading zeros are accepted, as int("007") == 7. */
  function ParseNat(s: string): (r: Option<int>)
    ensures r.Some? ==> r.value >= 0
  {
    if s != [] && AllDigits(s) then Some(DigitsValue(s)) else None
  }

  /** An optional '+' or '-' followed by one or more digits. */
  function ParseInt(s: string): Option<int>
  {
    if s != [] && (s[0] == '+' || s[0] == '-') then
      match ParseNat(s[1..])
      case None => None
      case Some(n) => Some(if s[0] == '-' then -n else n)
    else
      ParseNat(s)
  }

  /** Digits of n without leading zeros. */
  function ShowNat(n: nat): (s: string)
    ensures s != [] && AllDigits(s)
  {
    if n < 10 then [DigitChar(n)] else ShowNat(n / 10) + [DigitChar(n % 10)]
  }

  /** str(n): a minus sign for a negative number, then its digits. */
  function Show(n: int): string
  {
    if n < 0 then "-" + ShowNat(-n) else ShowNat(n)
  }

  lemma {:induction false} DigitsValueOfShowNat(n: nat)
    ensures DigitsValue(ShowNat(n)) == n
  {
    if n >= 10 {
      var s := ShowNat(n);
      assert s[..|s| - 1] == ShowNat(n / 10);
      DigitsValueOfShowNat(n / 10);
    }
  }

  /** The text of a positive number does not start with '0'. */
  lemma {:induction false} ShowNatNoLeadingZero(n: nat)
    ensures n > 0 ==> ShowNat(n)[0] != '0'
  {
    if n >= 10 {
      ShowNatNoLeadingZero(n / 10);
    }
  }

  /** A run of zeros has the value 0. */
  lemma {:induction false} ZerosValue(z: nat)
    ensures AllDigits(seq(z, _ => '0')) && DigitsValue(seq(z, _ => '0')) == 0
  {
    if z > 0 {
      assert seq(z, _ => '0')[..z - 1] == seq(z - 1, _ => '0');
      ZerosValue(z - 1);
    }
  }

  /** Zeros in front of a string of digits do not change its value. */
  lemma {:induction false} LeadingZerosValue(z: nat, s: string)
    requires AllDigits(s)
    ensures AllDigits(seq(z, _ => '0') + s) && DigitsValue(seq(z, _ => '0') + s) == DigitsValue(s)
  {
    var t := seq(z, _ => '0') + s;
    if s == [] {
      assert t == seq(z, _ => '0');
      ZerosValue(z);
    } else {
      assert t[..|t| - 1] == seq(z, _ => '0') + s[..|s| - 1];
      LeadingZerosValue(z, s[..|s| - 1]);
    }
  }

  /** Typed leading zeros are accepted: int("007") == 7. */
  lemma ParseLeadingZeros(z: nat, n: nat)
    ensures ParseInt(seq(z, _ => '0') + Show(n)) == Some(n)
  {
    LeadingZerosValue(z, ShowNat(n));
    DigitsValueOfShowNat(n);
  }

  /** Reading back the text of a number gives the number. */
  lemma ParseShow(n: int)
    ensures ParseInt(Show(n)) == Some(n)
  {
    if n < 0 {
      var s := Show(n);
      assert s[1..] == ShowNat(-n);
      DigitsValueOfShowNat(-n);
    } else {
      DigitsValueOfShowNat(n);
    }
  }

  /** A '+' sign in front of the digits of a non-negative number is accepted. */
  lemma ParsePlusShow(n: nat)
    ensures ParseInt("+" + Show(n)) == Some(n)
  {
    assert ("+" + Show(n))[1..] == ShowNat(n);
    DigitsValueOfShowNat(n);
  }

  /** Text holding a character that is neither a digit nor a leading sign is rejected. */
  lemma ParseRejectsNonDigit(s: string, k: nat)
    requires k < |s| && !IsDigit(s[k])
    requires k == 0 ==> s[k] != '+' && s[k] != '-'
    ensures ParseInt(s) == None
  {
  }

  /** A sign alone, or nothing at all, is rejected. */
  lemma ParseRejectsNoDigits(s: string)
    requires s == [] || s == "+" || s == "-"
    ensures ParseInt(s) == None
  {
  }
}
