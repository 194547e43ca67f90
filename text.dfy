/**
 * The two string builtins the configuration validators rely on: `str.upper`
 * and `str` applied to an integer.
 */
module Text {

  /** Upper-casing of one character; only the ASCII letters a-z change. */
  function UpperChar(c: char): char {
    if 'a' <= c <= 'z' then (c as int - 32) as char else c
  }

  /** `s.upper()` */
  function Upper(s: string): string {
    seq(|s|, i requires 0 <= i < |s| => UpperChar(s[i]))
  }

  /** A string without lower-case letters is its own upper case. */
  lemma {:induction false} UpperFixed(s: string)
    requires forall i :: 0 <= i < |s| ==> !('a' <= s[i] <= 'z')
    ensures Upper(s) == s
  {
  }

  function DigitChar(d: nat): char
    requires d < 10
  {
    "0123456789"[d]
  }

  /** The decimal digits of `n`, most significant first, without leading zeros. */
  function NatToDecimal(n: nat): (r: string)
    ensures forall i :: 0 <= i < |r| ==> '0' <= r[i] <= '9'
    decreases n
  {
    if n < 10 then [DigitChar(n)] else NatToDecimal(n / 10) + [DigitChar(n % 10)]
  }

  /** `str(n)` for an int: a minus sign, then the digits of the magnitude. */
  function IntToDecimal(n: int): string {
    if n < 0 then "-" + NatToDecimal(-n) else NatToDecimal(n)
  }

  /** Only a one-digit number prints as a single character. */
  lemma {:induction false} NatToDecimalLength(n: nat)
    ensures |NatToDecimal(n)| >= 1
    ensures |NatToDecimal(n)| == 1 <==> n < 10
    decreases n
  {
    if n >= 10 {
      NatToDecimalLength(n / 10);
    }
  }

  /** `str(n)` is one character exactly for 0..9, and that character is the digit. */
  lemma {:induction false} IntToDecimalSingle(n: int)
    ensures |IntToDecimal(n)| == 1 <==> 0 <= n < 10
    ensures 0 <= n < 10 ==> IntToDecimal(n) == [DigitChar(n)]
  {
    if n < 0 {
      NatToDecimalLength(-n);
    } else {
      NatToDecimalLength(n);
    }
  }
}
