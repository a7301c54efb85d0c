/**
 * Hexadecimal digits as Rust reads and writes them: `u16::from_str_radix(_, 16)`
 * accepts the digits 0-9, a-f and A-F; `{:X}` writes upper-case digits and
 * `{:0N X}` pads with zeros to N digits.
 */
module Hex {

  predicate IsHexDigit(c: char) {
    '0' <= c <= '9' || 'a' <= c <= 'f' || 'A' <= c <= 'F'
  }

  predicate AllHex(s: string) {
    forall i :: 0 <= i < |s| ==> IsHexDigit(s[i])
  }

  /** The value of one hex digit, either case. */
  function DigitValue(c: char): (d: nat)
    requires IsHexDigit(c)
    ensures d < 16
  {
    if '0' <= c <= '9' then c as int - '0' as int
    else if 'a' <= c <= 'f' then c as int - 'a' as int + 10
    else c as int - 'A' as int + 10
  }

  /** The value of a string of hex digits, most significant digit first. */
  function HexValue(s: string): nat
    requires AllHex(s)
  {
    if s == [] then 0 else HexValue(s[..|s| - 1]) * 16 + DigitValue(s[|s| - 1])
  }

  /** The lower-case digit of a value below 16. */
  function LowerDigit(d: nat): (c: char)
    requires d < 16
    ensures IsHexDigit(c) && DigitValue(c) == d
    ensures c != 'h' && c != 'x' && !('A' <= c <= 'Z')
  {
    if d < 10 then ('0' as int + d) as char else ('a' as int + d - 10) as char
  }

  /** The upper-case digit of a value below 16, as `{:X}` writes it. */
  function UpperDigit(d: nat): (c: char)
    requires d < 16
    ensures IsHexDigit(c) && DigitValue(c) == d
    ensures !('a' <= c <= 'z')
  {
    if d < 10 then ('0' as int + d) as char else ('A' as int + d - 10) as char
  }

  /** The shortest lower-case hex spelling of `n` (the way `{:x}` writes it). */
  function ToHex(n: nat): (s: string)
    ensures |s| >= 1 && AllHex(s)
    ensures forall i :: 0 <= i < |s| ==> s[i] != 'h' && s[i] != 'x' 
  {
    if n < 16 then [LowerDigit(n)] else ToHex(n / 16) + [LowerDigit(n % 16)]
  }

  /** Reading back the spelling `ToHex` gives yields the number. */
  lemma {:induction false} ToHexValue(n: nat)
    ensures HexValue(ToHex(n)) == n
  {
    var s := ToHex(n);
    if n >= 16 {
      ToHexValue(n / 16);
      assert s[..|s| - 1] == ToHex(n / 16);
    }
  }

  /** 16 to the power `width`: the number of values `width` hex digits can write. */
  function Pow16(width: nat): nat
  {
    if width == 0 then 1 else 16 * Pow16(width - 1)
  }

  /** No lower-case letter: the digits `{:X}` writes. */
  predicate UpperCase(s: string) {
    forall i :: 0 <= i < |s| ==> !('a' <= s[i] <= 'z')
  }

  /** The bounds of the two widths the memory dump uses. */
  lemma Pow16Widths()
    ensures Pow16(2) == 0x100 && Pow16(5) == 0x10_0000
  {
    assert Pow16(1) == 16;
    assert Pow16(3) == 0x1000;
    assert Pow16(4) == 0x1_0000;
  }

  /** `n` in exactly `width` upper-case digits, zero-padded: `{:0width$X}`. */
  function UpperHex(n: nat, width: nat): (s: string)
    requires n < Pow16(width)
    ensures |s| == width && AllHex(s)
    ensures UpperCase(s)
  {
    if width == 0 then "" else UpperHex(n / 16, width - 1) + [UpperDigit(n % 16)]
  }

  /** The padded spelling reads back as the number it was written from. */
  lemma {:induction false} UpperHexValue(n: nat, width: nat)
    requires n < Pow16(width)
    ensures HexValue(UpperHex(n, width)) == n
  {
    if width > 0 {
      var s := UpperHex(n, width);
      UpperHexValue(n / 16, width - 1);
      assert s[..|s| - 1] == UpperHex(n / 16, width - 1);
    }
  }
}
