/**
 * The two canonical 8086 encoding tables of `src/assembler.rs`: the REG field
 * code of a register name, and the R/M field code of a (base, index) pair used
 * when MOD selects memory addressing.
 */
module Assembler {
  import opened Common

  /** `register_table`: the 3-bit REG code of a register name. */
  function RegisterTable(reg: string): (r: Result<u8>)
    ensures r.Ok? <==> reg in Reg16Names || reg in Reg8Names
    ensures r.Ok? ==> r.value < 8
    ensures r.Err? ==> r.msg == reg + " is not in the register_table"
  {
    match reg
    case "ax" | "al" => Ok(0)
    case "cx" | "cl" => Ok(1)
    case "dx" | "dl" => Ok(2)
    case "bx" | "bl" => Ok(3)
    case "sp" | "ah" => Ok(4)
    case "bp" | "ch" => Ok(5)
    case "si" | "dh" => Ok(6)
    case "di" | "bh" => Ok(7)
    case _ => Err(reg + " is not in the register_table")
  }

  /** The code each register name receives, written as the 8086 REG table. */
  lemma RegisterTableCodes()
    ensures RegisterTable("ax") == Ok(0) && RegisterTable("al") == Ok(0)
    ensures RegisterTable("cx") == Ok(1) && RegisterTable("cl") == Ok(1)
    ensures RegisterTable("dx") == Ok(2) && RegisterTable("dl") == Ok(2)
    ensures RegisterTable("bx") == Ok(3) && RegisterTable("bl") == Ok(3)
    ensures RegisterTable("sp") == Ok(4) && RegisterTable("ah") == Ok(4)
    ensures RegisterTable("bp") == Ok(5) && RegisterTable("ch") == Ok(5)
    ensures RegisterTable("si") == Ok(6) && RegisterTable("dh") == Ok(6)
    ensures RegisterTable("di") == Ok(7) && RegisterTable("bh") == Ok(7)
  {
  }

  /** Two different 16-bit registers never share a code, nor do two 8-bit ones. */
  lemma RegisterTableInjective(a: string, b: string)
    requires (a in Reg16Names && b in Reg16Names) || (a in Reg8Names && b in Reg8Names)
    requires RegisterTable(a) == RegisterTable(b)
    ensures a == b
  {
  }

  /** Every code 0..7 names exactly one 16-bit register and exactly one 8-bit register. */
  lemma RegisterTableOnto(code: u8)
    requires code < 8
    ensures exists n :: n in Reg16Names && RegisterTable(n) == Ok(code)
    ensures exists n :: n in Reg8Names && RegisterTable(n) == Ok(code)
  {
    var names16 := ["ax", "cx", "dx", "bx", "sp", "bp", "si", "di"];
    var names8 := ["al", "cl", "dl", "bl", "ah", "ch", "dh", "bh"];
    assert names16[code] in Reg16Names && RegisterTable(names16[code]) == Ok(code);
    assert names8[code] in Reg8Names && RegisterTable(names8[code]) == Ok(code);
  }

  /** The 16-bit register with REG code `code`. */
  function RegisterName16(code: nat): (n: string)
    requires code < 8
    ensures n in Reg16Names && RegisterTable(n) == Ok(code)
  {
    ["ax", "cx", "dx", "bx", "sp", "bp", "si", "di"][code]
  }

  /** The 8-bit register with REG code `code`. */
  function RegisterName8(code: nat): (n: string)
    requires code < 8
    ensures n in Reg8Names && RegisterTable(n) == Ok(code)
  {
    ["al", "cl", "dl", "bl", "ah", "ch", "dh", "bh"][code]
  }

  /** Looking a register's code up and naming the code gives the register back. */
  lemma RegisterNameOfCode(n: string)
    ensures n in Reg16Names ==> RegisterName16(RegisterTable(n).value) == n
    ensures n in Reg8Names ==> RegisterName8(RegisterTable(n).value) == n
  {
    if n in Reg16Names {
      RegisterTableInjective(n, RegisterName16(RegisterTable(n).value));
    }
    if n in Reg8Names {
      RegisterTableInjective(n, RegisterName8(RegisterTable(n).value));
    }
  }

  /** The ModR/M byte: MOD in bits 7-6, REG in bits 5-3, R/M in bits 2-0. */
  function ModRM(md: nat, reg: nat, rm: nat): (b: u8)
    requires md < 4 && reg < 8 && rm < 8
    ensures b / 64 == md && (b / 8) % 8 == reg && b % 8 == rm
  {
    var low := reg * 8 + rm;
    assert low < 64;
    assert (md * 64 + low) / 64 == md;
    assert (md * 64 + low) / 8 == md * 8 + reg;
    md * 64 + low
  }

  /** Rust's `{:?}` rendering of an `Option<&str>`, used in the table's error text. */
  function DebugOption(o: Option<string>): string {
    match o
    case None => "None"
    case Some(s) => "Some(\"" + s + "\")"
  }

  /**
   * `base_index_table`, as written: the R/M code of a (base, index) pair.  The
   * fourth entry spells its index "fi", so the pair (bp, di) is not accepted.
   */
  function BaseIndexTable(base: Option<string>, index: Option<string>): (r: Result<u8>)
    ensures r.Ok? ==> r.value < 8
    ensures r.Err? ==> r.msg == DebugOption(base) + " " + DebugOption(index) + " is not in the base index table"
  {
    match (base, index)
    case (Some("bx"), Some("si")) => Ok(0)
    case (Some("bx"), Some("di")) => Ok(1)
    case (Some("bp"), Some("si")) => Ok(2)
    case (Some("bp"), Some("fi")) => Ok(3)
    case (None, Some("si")) => Ok(4)
    case (None, Some("di")) => Ok(5)
    case (Some("bp"), None) => Ok(6)
    case (Some("bx"), None) => Ok(7)
    case _ => Err(DebugOption(base) + " " + DebugOption(index) + " is not in the base index table")
  }

  /** The eight pairs the written table accepts, with their codes. */
  lemma BaseIndexTableCodes()
    ensures BaseIndexTable(Some("bx"), Some("si")) == Ok(0)
    ensures BaseIndexTable(Some("bx"), Some("di")) == Ok(1)
    ensures BaseIndexTable(Some("bp"), Some("si")) == Ok(2)
    ensures BaseIndexTable(Some("bp"), Some("fi")) == Ok(3)
    ensures BaseIndexTable(None, Some("si")) == Ok(4)
    ensures BaseIndexTable(None, Some("di")) == Ok(5)
    ensures BaseIndexTable(Some("bp"), None) == Ok(6)
    ensures BaseIndexTable(Some("bx"), None) == Ok(7)
  {
  }

  /** The written table accepts a pair exactly when it is one of its eight entries. */
  lemma BaseIndexTableAccepts(base: Option<string>, index: Option<string>)
    ensures BaseIndexTable(base, index).Ok? <==>
      (base, index) in {(Some("bx"), Some("si")), (Some("bx"), Some("di")),
                        (Some("bp"), Some("si")), (Some("bp"), Some("fi")),
                        (None, Some("si")), (None, Some("di")),
                        (Some("bp"), None), (Some("bx"), None)}
  {
  }

  /** Distinct accepted pairs receive distinct codes. */
  lemma BaseIndexTableInjective(b1: Option<string>, i1: Option<string>, b2: Option<string>, i2: Option<string>)
    requires BaseIndexTable(b1, i1).Ok? && BaseIndexTable(b2, i2).Ok?
    requires BaseIndexTable(b1, i1) == BaseIndexTable(b2, i2)
    ensures b1 == b2 && i1 == i2
  {
  }

  /**
   * The misspelt entry: (bp, di), which the 8086 R/M table encodes as 3, is an
   * error, and (bp, "fi") is accepted in its place; (None, None) is an error too.
   */
  lemma BaseIndexTableRejectsBpDi()
    ensures BaseIndexTable(Some("bp"), Some("di")).Err?
    ensures BaseIndexTable(Some("bp"), Some("fi")) == Ok(3)
    ensures BaseIndexTable(None, None).Err?
  {
  }

  /** The base/index table of the 8086 R/M field, with (bp, di) spelt correctly. */
  function BaseIndexTableIntended(base: Option<string>, index: Option<string>): (r: Result<u8>)
    ensures r.Ok? ==> r.value < 8
    ensures !(base == Some("bp") && index in {Some("di"), Some("fi")}) ==> r == BaseIndexTable(base, index)
  {
    match (base, index)
    case (Some("bx"), Some("si")) => Ok(0)
    case (Some("bx"), Some("di")) => Ok(1)
    case (Some("bp"), Some("si")) => Ok(2)
    case (Some("bp"), Some("di")) => Ok(3)
    case (None, Some("si")) => Ok(4)
    case (None, Some("di")) => Ok(5)
    case (Some("bp"), None) => Ok(6)
    case (Some("bx"), None) => Ok(7)
    case _ => Err(DebugOption(base) + " " + DebugOption(index) + " is not in the base index table")
  }

  /**
   * The corrected table covers the 8086 addressing pairs exactly: it accepts a
   * pair iff the base is bx, bp or absent, the index is si, di or absent, and
   * not both are absent (eight pairs), and every code 0..7 is reached.
   */
  lemma BaseIndexTableIntendedBijective(base: Option<string>, index: Option<string>, code: u8)
    requires code < 8
    ensures BaseIndexTableIntended(base, index).Ok? <==>
      base in {None, Some("bx"), Some("bp")} && index in {None, Some("si"), Some("di")} &&
      (base == None ==> index != None)
    ensures exists b, i :: BaseIndexTableIntended(b, i) == Ok(code)
  {
    var bases := [Some("bx"), Some("bx"), Some("bp"), Some("bp"), None, None, Some("bp"), Some("bx")];
    var indexes := [Some("si"), Some("di"), Some("si"), Some("di"), Some("si"), Some("di"), None, None];
    assert BaseIndexTableIntended(bases[code], indexes[code]) == Ok(code);
  }
}
