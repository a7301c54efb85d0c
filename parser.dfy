/**
 * Operand text parsing of `src/parser.rs`: hex immediates written `0x…` or
 * `…h`, and the address between the brackets of a memory operand.  The pest
 * grammar that produces operand nodes is not part of this model; an operand
 * node is the `Operand` datatype below, holding the rule it matched and its text.
 */
module Parser {
  import opened Common
  import opened Hex

  /** An operand node: the grammar rule it matched and the text it spans. */
  datatype Operand =
    | Reg16(name: string)
    | Reg8(name: string)
    | Imm(text: string)
    | Mem16(text: string)
    | Mem8(text: string)
    | Indirect16(text: string)
    | Other(text: string)
  {
    /** `Pair::as_str`: the matched text. */
    function AsStr(): string {
      if Reg16? || Reg8? then name else text
    }
  }

  const InvalidHex := "Invalid hex number"
  const NotHexFormat := "imm is not a valid hex format"
  const NotImm := "Tried to parse something else imm"
  const NoBrackets := "Failed to parse memory address: No valid number found between brackets"

  predicate StartsWith0x(s: string) {
    |s| >= 2 && s[0] == '0' && s[1] == 'x'
  }

  predicate EndsWithH(s: string) {
    |s| >= 1 && s[|s| - 1] == 'h'
  }

  /** The digits `from_str_radix` reads: the text without one leading '+'. */
  function Unsigned(s: string): string {
    if |s| > 0 && s[0] == '+' then s[1..] else s
  }

  /** One or more hex digits whose value fits in 16 bits. */
  predicate U16Digits(d: string) {
    |d| > 0 && AllHex(d) && HexValue(d) <= 0xFFFF
  }

  /**
   * `u16::from_str_radix(s, 16)`: an optional leading '+', then one or more
   * hex digits whose value fits in 16 bits.  Leading zeros are allowed.
   */
  function FromStrRadix16(s: string): (r: Option<u16>)
    ensures r.Some? <==> U16Digits(Unsigned(s))
    ensures r.Some? ==> r.value == HexValue(Unsigned(s))
    ensures r.Some? && AllHex(s) ==> r.value == HexValue(s)
  {
    if s == [] then None
    else
      var digits := if s[0] == '+' then s[1..] else s;
      if digits != [] && AllHex(digits) && HexValue(digits) <= 0xFFFF then Some(HexValue(digits)) else None
  }

  /** The digits of an immediate: the text after `0x`, or before `h`, without a leading '+'. */
  function ImmDigits(s: string): string
    requires StartsWith0x(s) || EndsWithH(s)
  {
    Unsigned(if StartsWith0x(s) then s[2..] else s[..|s| - 1])
  }

  /** `_imm_to_num`: the value of an immediate written `0x…` or `…h`. */
  function ImmToNum(s: string): (r: Result<u16>)
    ensures r == Err(NotHexFormat) <==> !StartsWith0x(s) && !EndsWithH(s)
    ensures r.Err? ==> r.msg == InvalidHex || r.msg == NotHexFormat
  {
    if StartsWith0x(s) then
      match FromStrRadix16(s[2..])
      case Some(v) => Ok(v)
      case None => Err(InvalidHex)
    else if EndsWithH(s) then
      match FromStrRadix16(s[..|s| - 1])
      case Some(v) => Ok(v)
      case None => Err(InvalidHex)
    else
      Err(NotHexFormat)
  }

  /**
   * An immediate in either hex form parses exactly when its digits (after an
   * optional '+') are one or more hex digits worth at most 0xFFFF, and its
   * value is then the value of those digits.
   */
  lemma ImmToNumReadsDigits(s: string)
    ensures ImmToNum(s).Ok? <==> (StartsWith0x(s) || EndsWithH(s)) && U16Digits(ImmDigits(s))
    ensures ImmToNum(s).Ok? ==> ImmToNum(s).value == HexValue(ImmDigits(s))
  {
  }

  /** Every 16-bit value written `0x` + hex digits parses back to itself. */
  lemma PrefixFormRoundTrip(n: u16)
    ensures ImmToNum("0x" + ToHex(n)) == Ok(n)
  {
    var s := "0x" + ToHex(n);
    assert s[2..] == ToHex(n);
    ToHexValue(n);
  }

  /** Every 16-bit value written hex digits + `h` parses back to itself. */
  lemma SuffixFormRoundTrip(n: u16)
    ensures ImmToNum(ToHex(n) + "h") == Ok(n)
  {
    var s := ToHex(n) + "h";
    assert !StartsWith0x(s) by {
      if |ToHex(n)| >= 2 {
        assert s[1] == ToHex(n)[1];
      } else {
        assert s[1] == 'h';
      }
    }
    assert s[..|s| - 1] == ToHex(n);
    ToHexValue(n);
  }

  /** A well-formed hex body whose value exceeds 0xFFFF is "Invalid hex number", in either form. */
  lemma TooLargeIsInvalid(digits: string)
    requires |digits| > 0 && AllHex(digits) && HexValue(digits) > 0xFFFF
    ensures ImmToNum("0x" + digits) == Err(InvalidHex)
    ensures ImmToNum(digits + "h") == Err(InvalidHex)
  {
    assert ("0x" + digits)[2..] == digits;
    var t := digits + "h";
    assert t[..|digits|] == digits;
    assert !StartsWith0x(t) by {
      if |digits| >= 2 {
        assert t[1] == digits[1] && IsHexDigit(digits[1]);
      }
    }
  }

  /** A string of decimal digits (no `0x` prefix, no `h` suffix) is rejected as not hex. */
  lemma DecimalRejected(s: string)
    requires |s| > 0 && forall i :: 0 <= i < |s| ==> '0' <= s[i] <= '9'
    ensures ImmToNum(s) == Err(NotHexFormat)
  {
  }

  /** The parser's unit-test cases. */
  lemma ImmToNumExamples()
    ensures ImmToNum("0x1a3") == Ok(0x1a3)
    ensures ImmToNum("123h") == Ok(0x123)
    ensures ImmToNum("0abch") == Ok(0xabc)
    ensures ImmToNum("045h") == Ok(0x45)
    ensures ImmToNum("0xghi") == Err(InvalidHex)
    ensures ImmToNum("1234") == Err(NotHexFormat)
  {
    assert "0x1a3"[2..] == "1a3";
    HexValueOf3('1', 'a', '3');
    assert "123h"[..3] == "123";
    HexValueOf3('1', '2', '3');
    HexValueOf3('0', 'a', 'b');
    HexValueSnoc("0ab", 'c');
    assert "0abch"[..4] == "0ab" + ['c'];
    assert "045h"[..3] == "045";
    HexValueOf3('0', '4', '5');
    assert "0xghi"[2..] == "ghi" && !IsHexDigit('g');
  }

  /** Appending a digit multiplies the value by 16 and adds the digit. */
  lemma HexValueSnoc(s: string, c: char)
    requires AllHex(s) && IsHexDigit(c)
    ensures AllHex(s + [c]) && HexValue(s + [c]) == HexValue(s) * 16 + DigitValue(c)
  {
    assert (s + [c])[..|s|] == s;
  }

  /** The value of a three-digit hex string, digit by digit. */
  lemma HexValueOf3(c0: char, c1: char, c2: char)
    requires IsHexDigit(c0) && IsHexDigit(c1) && IsHexDigit(c2)
    ensures AllHex([c0, c1, c2])
    ensures HexValue([c0, c1, c2]) == DigitValue(c0) * 256 + DigitValue(c1) * 16 + DigitValue(c2)
  {
    HexValueSnoc([], c0);
    assert [] + [c0] == [c0];
    HexValueSnoc([c0], c1);
    assert [c0] + [c1] == [c0, c1];
    HexValueSnoc([c0, c1], c2);
    assert [c0, c1] + [c2] == [c0, c1, c2];
  }

  /** `imm_to_num`: only an `imm` node is parsed. */
  function ImmOperandToNum(op: Operand): (r: Result<u16>)
    ensures !op.Imm? ==> r == Err(NotImm)
    ensures op.Imm? ==> r == ImmToNum(op.text)
  {
    if !op.Imm? then Err(NotImm) else ImmToNum(op.AsStr())
  }

  /** `str::find`: the index of the first occurrence of `c`. */
  function Find(s: string, c: char): (r: Option<nat>)
    ensures r.Some? ==> r.value < |s| && s[r.value] == c && c !in s[..r.value]
    ensures r.None? ==> c !in s
  {
    if s == [] then None
    else if s[0] == c then Some(0)
    else match Find(s[1..], c)
      case Some(i) => Some(i + 1)
      case None => None
  }

  /** The first '[' comes before the first ']'. */
  predicate HasBrackets(s: string) {
    Find(s, '[').Some? && Find(s, ']').Some? && Find(s, '[').value < Find(s, ']').value
  }

  /** The text strictly between the first '[' and the first ']'. */
  function BracketBody(s: string): string
    requires HasBrackets(s)
  {
    s[Find(s, '[').value + 1 .. Find(s, ']').value]
  }

  /**
   * `mem_to_num` unwraps the parse of the bracket body, so a caller must not
   * hand it brackets around something that is not a 16-bit hex immediate.
   */
  predicate MemToNumDefined(s: string) {
    HasBrackets(s) ==> ImmToNum(BracketBody(s)).Ok?
  }

  /** `mem_to_num`: the address written between the first '[' and the first ']'. */
  function MemToNum(s: string): (r: Result<u16>)
    requires MemToNumDefined(s)
    ensures r.Ok? <==> HasBrackets(s)
    ensures r.Ok? ==> Ok(r.value) == ImmToNum(BracketBody(s))
    ensures r.Err? ==> r.msg == NoBrackets
  {
    match (Find(s, '['), Find(s, ']'))
    case (Some(start), Some(end)) =>
      if start < end then Ok(ImmToNum(s[start + 1..end]).value) else Err(NoBrackets)
    case _ => Err(NoBrackets)
  }

  /**
   * An address written `prefix [imm] suffix`, with no bracket before it and
   * no ']' inside it, is the value of the immediate.
   */
  lemma MemToNumOfBracketed(prefix: string, imm: string, suffix: string)
    requires '[' !in prefix && ']' !in prefix && ']' !in imm
    requires ImmToNum(imm).Ok?
    ensures MemToNumDefined(prefix + "[" + imm + "]" + suffix)
    ensures MemToNum(prefix + "[" + imm + "]" + suffix) == ImmToNum(imm)
  {
    var s := prefix + "[" + imm + "]" + suffix;
    var open, close := |prefix|, |prefix| + 1 + |imm|;
    assert s[..open] == prefix;
    FindIsFirst(s, '[', open);
    assert s[..close] == prefix + "[" + imm;
    assert ']' !in s[..close] by {
      forall i | 0 <= i < close
        ensures s[i] != ']'
      {
        if i < open { assert s[i] == prefix[i]; }
        else if i > open { assert s[i] == imm[i - open - 1]; }
      }
    }
    FindIsFirst(s, ']', close);
    assert s[open + 1 .. close] == imm;
  }

  /** A position holding `c` with no `c` before it is what `Find` returns. */
  lemma FindIsFirst(s: string, c: char, k: nat)
    requires k < |s| && s[k] == c && c !in s[..k]
    ensures Find(s, c) == Some(k)
  {
    assert s[..k + 1][k] == c;
  }

  /** The immediate of the `word ptr` test. */
  lemma WordPtrImmediate()
    ensures ImmToNum("0x1234") == Ok(0x1234)
  {
    HexValueOf3('1', '2', '3');
    HexValueSnoc("123", '4');
    assert "123" + ['4'] == "1234";
    assert "0x1234"[2..] == "1234";
  }

  /** The text of the `word ptr` test, as prefix, bracketed immediate and empty suffix. */
  lemma WordPtrText()
    ensures "word ptr " + "[" + "0x1234" + "]" + "" == "word ptr [0x1234]"
  {
    assert "word ptr " + "[" == "word ptr [";
    assert "word ptr [" + "0x1234" == "word ptr [0x1234";
    assert "word ptr [0x1234" + "]" == "word ptr [0x1234]";
  }

  /** The parser's unit test `word ptr [0x1234]`. */
  lemma MemToNumWordPtrExample()
    ensures MemToNumDefined("word ptr [0x1234]") && MemToNum("word ptr [0x1234]") == Ok(0x1234)
  {
    WordPtrImmediate();
    WordPtrText();
    MemToNumOfBracketed("word ptr ", "0x1234", "");
  }

  /** The immediate of the `byte ptr` test. */
  lemma BytePtrImmediate()
    ensures ImmToNum("12h") == Ok(0x12)
  {
    HexValueSnoc([], '1');
    assert [] + ['1'] == "1";
    HexValueSnoc("1", '2');
    assert "1" + ['2'] == "12";
    assert "12h"[..|"12h"| - 1] == "12";
  }

  /** The text of the `byte ptr` test, as prefix, bracketed immediate and empty suffix. */
  lemma BytePtrText()
    ensures "byte ptr " + "[" + "12h" + "]" + "" == "byte ptr [12h]"
  {
    assert "byte ptr " + "[" == "byte ptr [";
    assert "byte ptr [" + "12h" == "byte ptr [12h";
    assert "byte ptr [12h" + "]" == "byte ptr [12h]";
  }

  /** The parser's unit test `byte ptr [12h]`. */
  lemma MemToNumBytePtrExample()
    ensures MemToNumDefined("byte ptr [12h]") && MemToNum("byte ptr [12h]") == Ok(0x12)
  {
    BytePtrImmediate();
    BytePtrText();
    MemToNumOfBracketed("byte ptr ", "12h", "");
  }

  /** Without both brackets in order there is no address. */
  lemma MemToNumWithoutBrackets(s: string)
    requires '[' !in s || ']' !in s
    ensures MemToNumDefined(s) && MemToNum(s) == Err(NoBrackets)
  {
  }
}
