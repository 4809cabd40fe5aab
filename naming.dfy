/** The stand-in function name `'sub_%x' % funcaddr` that the white- and
    blacklists are matched against. */
module Naming {

  const HexDigits: string := "0123456789abcdef"

  predicate IsHexDigit(c: char)
  {
    c in HexDigits
  }

  /** The value of one lowercase hexadecimal digit. */
  function DigitValue(c: char): (d: nat)
    requires IsHexDigit(c)
    ensures d < 16 && HexDigits[d] == c
  {
    if c == '0' then 0 else if c == '1' then 1 else if c == '2' then 2 else if c == '3' then 3
    else if c == '4' then 4 else if c == '5' then 5 else if c == '6' then 6 else if c == '7' then 7
    else if c == '8' then 8 else if c == '9' then 9 else if c == 'a' then 10 else if c == 'b' then 11
    else if c == 'c' then 12 else if c == 'd' then 13 else if c == 'e' then 14 else 15
  }

  /** `%x` on a natural number: lowercase hexadecimal digits without leading
      zeros ("0" for zero). */
  function Hex(n: nat): (s: string)
    ensures |s| >= 1
    ensures forall i :: 0 <= i < |s| ==> IsHexDigit(s[i])
    ensures |s| > 1 ==> s[0] != '0'
  {
    if n < 16 then [HexDigits[n]] else Hex(n / 16) + [HexDigits[n % 16]]
  }

  /** The number a string of hexadecimal digits denotes. */
  function HexValue(s: string): nat
    requires forall i :: 0 <= i < |s| ==> IsHexDigit(s[i])
  {
    if s == [] then 0 else 16 * HexValue(s[..|s| - 1]) + DigitValue(s[|s| - 1])
  }

  /** Each digit reads back as its own value. */
  lemma DigitValueOfDigit(k: nat)
    requires k < 16
    ensures DigitValue(HexDigits[k]) == k
  {
  }

  /** Reading the digits back gives the number. */
  lemma {:induction false} HexRoundTrip(n: nat)
    ensures HexValue(Hex(n)) == n
  {
    DigitValueOfDigit(n % 16);
    if n >= 16 {
      var init := Hex(n / 16);
      HexRoundTrip(n / 16);
      var s := init + [HexDigits[n % 16]];
      assert s[..|s| - 1] == init;
      assert HexValue(s) == 16 * HexValue(init) + DigitValue(HexDigits[n % 16]);
    }
  }

  /** The name under which the lists see the function at `addr`. */
  function FunctionName(addr: nat): string
  {
    "sub_" + Hex(addr)
  }

  /** Different addresses get different names. */
  lemma NamesAreDistinct(a: nat, b: nat)
    requires FunctionName(a) == FunctionName(b)
    ensures a == b
  {
    assert Hex(a) == FunctionName(a)[4..] && Hex(b) == FunctionName(b)[4..];
    HexRoundTrip(a);
    HexRoundTrip(b);
  }
}
