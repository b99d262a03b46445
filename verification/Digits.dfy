/** Hexadecimal numbers as text. */
module Digits {

  function Digit(d: nat): char
    requires d < 16
  {
    if d < 10 then '0' + d as char else 'a' + (d - 10) as char
  }

  predicate IsDigit(c: char) {
    '0' <= c <= '9' || 'a' <= c <= 'f'
  }

  predicate AreDigits(s: string) {
    forall k :: 0 <= k < |s| ==> IsDigit(s[k])
  }

  function DigitValue(c: char): nat {
    if '0' <= c <= '9' then (c - '0') as nat
    else if 'a' <= c <= 'f' then (c - 'a') as nat + 10
    else 0
  }

  /** `%0<width>x`. */
  function Hex(n: nat, width: nat): string
    decreases n, width
  {
    if n < 16 && width <= 1 then [Digit(n)]
    else Hex(n / 16, if width == 0 then 0 else width - 1) + [Digit(n % 16)]
  }

  function HexValue(s: string): nat {
    if s == "" then 0 else 16 * HexValue(s[..|s| - 1]) + DigitValue(s[|s| - 1])
  }

  lemma {:induction false} HexIsDigits(n: nat, width: nat)
    ensures |Hex(n, width)| >= 1 && AreDigits(Hex(n, width))
    ensures HexValue(Hex(n, width)) == n
    decreases n, width
  {
    assert IsDigit(Digit(n % 16)) && DigitValue(Digit(n % 16)) == n % 16;
    if !(n < 16 && width <= 1) {
      var front := Hex(n / 16, if width == 0 then 0 else width - 1);
      HexIsDigits(n / 16, if width == 0 then 0 else width - 1);
      assert Hex(n, width) == front + [Digit(n % 16)];
      assert (front + [Digit(n % 16)])[..|front|] == front;
    }
  }

  function Power(width: nat): nat {
    if width == 0 then 1 else 16 * Power(width - 1)
  }

  /** The number is padded with zeros to the width; if it needs more digits, it has no zero in
      front. */
  lemma {:induction false} HexWidth(n: nat, width: nat)
    requires 0 < width
    ensures n < Power(width) ==> |Hex(n, width)| == width
    ensures Power(width) <= n ==> |Hex(n, width)| > width && Hex(n, width)[0] != '0'
    decreases n, width
  {
    if n < 16 && width <= 1 {
    } else if width == 1 {
      if n / 16 < 16 {
        assert Hex(n / 16, 0) == [Digit(n / 16)];
      } else {
        HexWidthZero(n / 16);
      }
    } else {
      HexWidth(n / 16, width - 1);
    }
  }

  lemma {:induction false} HexWidthZero(n: nat)
    requires 0 < n
    ensures |Hex(n, 0)| > 0 && Hex(n, 0)[0] != '0'
  {
    if n >= 16 { HexWidthZero(n / 16); }
  }
}
