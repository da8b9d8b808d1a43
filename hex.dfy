/**
 * Lowercase hexadecimal text as Python's `hexdigest()` writes it and
 * `int(text, 16)` reads it: most significant digit first.
 */
module Hex {

  predicate IsHexDigit(c: char) {
    ('0' <= c <= '9') || ('a' <= c <= 'f')
  }

  predicate AllHex(s: string) {
    forall k :: 0 <= k < |s| ==> IsHexDigit(s[k])
  }

  function DigitValue(c: char): (v: nat)
    requires IsHexDigit(c)
    ensures v < 16
  {
    if c <= '9' then c as int - '0' as int else c as int - 'a' as int + 10
  }

  function DigitChar(v: nat): (c: char)
    requires v < 16
    ensures IsHexDigit(c) && DigitValue(c) == v
  {
    if v < 10 then ('0' as int + v) as char else ('a' as int + v - 10) as char
  }

  lemma DigitCharOfValue(c: char)
    requires IsHexDigit(c)
    ensures DigitChar(DigitValue(c)) == c
  {
  }

  function Pow16(n: nat): (p: nat)
    ensures p >= 1
  {
    if n == 0 then 1 else 16 * Pow16(n - 1)
  }

  /** `int(s, 16)` on a string of lowercase hex digits. */
  function HexValue(s: string): (v: nat)
    requires AllHex(s)
    ensures v < Pow16(|s|)
    decreases |s|
  {
    if |s| == 0 then 0 else HexValue(s[..|s| - 1]) * 16 + DigitValue(s[|s| - 1])
  }

  /** The `width`-digit lowercase hex representation of `n`, most significant first. */
  function ToHex(n: nat, width: nat): (s: string)
    ensures |s| == width && AllHex(s)
    decreases width
  {
    if width == 0 then "" else ToHex(n / 16, width - 1) + [DigitChar(n % 16)]
  }

  /** Reading a hex string as an integer and writing it back gives the same text. */
  lemma {:induction false} ToHexOfHexValue(s: string)
    requires AllHex(s)
    ensures ToHex(HexValue(s), |s|) == s
    decreases |s|
  {
    if |s| > 0 {
      var init, last := s[..|s| - 1], s[|s| - 1];
      var v := HexValue(init) * 16 + DigitValue(last);
      assert v / 16 == HexValue(init) && v % 16 == DigitValue(last);
      ToHexOfHexValue(init);
      DigitCharOfValue(last);
      assert init + [last] == s;
    }
  }

  /** Every integer below 16^width is read back from its width-digit representation. */
  lemma {:induction false} HexValueOfToHex(n: nat, width: nat)
    requires n < Pow16(width)
    ensures HexValue(ToHex(n, width)) == n
    decreases width
  {
    if width > 0 {
      var s := ToHex(n, width);
      var init := ToHex(n / 16, width - 1);
      assert s[..|s| - 1] == init;
      HexValueOfToHex(n / 16, width - 1);
    }
  }
}
