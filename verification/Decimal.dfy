/** Decimal text of integers: strconv.Itoa and strconv.FormatUint with base 10. */
module Decimal {

  function DigitChar(d: nat): char
    requires d < 10
  {
    "0123456789"[d]
  }

  function NatText(n: nat): (s: string)
    ensures s != ""
    ensures forall i :: 0 <= i < |s| ==> '0' <= s[i] <= '9'
  {
    if n < 10 then [DigitChar(n)] else NatText(n / 10) + [DigitChar(n % 10)]
  }

  function IntText(n: int): string {
    if n < 0 then "-" + NatText(-n) else NatText(n)
  }

  /** Different numbers have different texts. */
  lemma {:induction false} NatTextInjective(m: nat, n: nat)
    requires NatText(m) == NatText(n)
    ensures m == n
    decreases m
  {
    var s, t := NatText(m), NatText(n);
    assert |s| == 1 <==> m < 10;
    assert |t| == 1 <==> n < 10;
    assert s[|s| - 1] == DigitChar(m % 10) && t[|t| - 1] == DigitChar(n % 10);
    SameDigit(m % 10, n % 10);
    if m >= 10 && n >= 10 {
      assert s[..|s| - 1] == NatText(m / 10) && t[..|t| - 1] == NatText(n / 10);
      NatTextInjective(m / 10, n / 10);
    }
  }

  lemma {:induction false} SameDigit(a: nat, b: nat)
    requires a < 10 && b < 10 && DigitChar(a) == DigitChar(b)
    ensures a == b
  {
  }

  /** The number that a text of digits stands for. */
  function Digits(s: string): nat {
    if s == "" || !AllDigits(s) then 0
    else Digits(s[..|s| - 1]) * 10 + (s[|s| - 1] as int - '0' as int)
  }

  predicate AllDigits(s: string) { forall i :: 0 <= i < |s| ==> '0' <= s[i] <= '9' }

  /** The text of a number stands for that number. */
  lemma {:induction false} DigitsInvert(n: nat)
    ensures Digits(NatText(n)) == n
  {
    DigitValue(n % 10);
    if n < 10 {
      assert [DigitChar(n)][..0] == "";
    } else {
      DigitsInvert(n / 10);
      var s := NatText(n);
      assert s[..|s| - 1] == NatText(n / 10) && s[|s| - 1] == DigitChar(n % 10);
    }
  }

  lemma {:induction false} DigitValue(d: nat)
    requires d < 10
    ensures DigitChar(d) as int == '0' as int + d
  {
  }

  lemma {:induction false} DigitsOnly(n: nat)
    ensures NatText(n)[0] != '-' && NatText(n)[0] != '+'
    ensures n > 0 ==> NatText(n) != "0"
  {
    DigitsInvert(n);
    assert NatText(n)[0] >= '0';
    assert Digits("0") == Digits("") * 10 + 0;
  }
}
