/**
 * The INC instruction of `src/inc.rs`: its own copies of the encoding tables,
 * the one- and two-byte register encodings, and the handler that adds one to
 * a register.
 */
module Inc {
  import opened Common
  import Assembler
  import opened Parser
  import opened Cpu

  /** The copy of `register_table` in `src/inc.rs`. */
  function RegisterTable(reg: string): (r: Result<u8>)
    ensures r.Ok? <==> reg in Reg16Names || reg in Reg8Names
  {
    match reg
    case "ax" | "al" => Ok(0)
    case "cx" | "cl" => Ok(1)
    case "dx" | "dl" => Ok(2)
    case "bx" | "bl" => Ok(3)
    case "sp" | "ah" => Ok(4)
    case "bp" | "ch" => Ok(5)
    case "si" | "dh" => Ok(6)
    case "di" | "bh" => Ok(7)
    case _ => Err(reg + " is not in the register_table")
  }

  /** The copy agrees with the assembler's table on every name, error text included. */
  lemma RegisterTableAgrees(reg: string)
    ensures RegisterTable(reg) == Assembler.RegisterTable(reg)
  {
  }

  /** The copy of `base_index_table` in `src/inc.rs`: only (bx, si) is filled in. */
  function BaseIndexTable(base: Option<string>, index: Option<string>): (r: Result<u8>)
    ensures r.Ok? <==> base == Some("bx") && index == Some("si")
    ensures r.Ok? ==> r.value == 0
    ensures r.Err? ==> r.msg == Assembler.DebugOption(base) + " " + Assembler.DebugOption(index) + " is not in the base index table"
  {
    match (base, index)
    case (Some("bx"), Some("si")) => Ok(0)
    case _ => Err(Assembler.DebugOption(base) + " " + Assembler.DebugOption(index) + " is not in the base index table")
  }

  /** Whatever the partial copy accepts, the assembler's table accepts with the same code. */
  lemma BaseIndexTableIsRestriction(base: Option<string>, index: Option<string>)
    ensures BaseIndexTable(base, index).Ok? ==> Assembler.BaseIndexTable(base, index) == BaseIndexTable(base, index)
    ensures BaseIndexTable(base, index).Err? && Assembler.BaseIndexTable(base, index).Err? ==>
      BaseIndexTable(base, index) == Assembler.BaseIndexTable(base, index)
  {
  }

  /** `assemble_inc` handles register operands only; any other operand is unimplemented. */
  predicate AssembleIncDefined(op: Operand) {
    (op.Reg16? || op.Reg8?) && RegisterTable(op.name).Ok?
  }

  /**
   * `assemble_inc`: a 16-bit register is the single byte 01000 followed by its
   * code (0x40 | code); an 8-bit register is FE (opcode 1111111, W = 0)
   * followed by a register-mode ModR/M byte with REG 000 and the register in R/M.
   */
  function AssembleInc(op: Operand): (code: seq<u8>)
    requires AssembleIncDefined(op)
    ensures op.Reg16? ==> |code| == 1 && code[0] / 8 == 0x08 && Ok(code[0] % 8) == RegisterTable(op.name)
    ensures op.Reg8? ==>
      |code| == 2 && code[0] == 0xFE && code[1] / 64 == 3 && (code[1] / 8) % 8 == 0 &&
      Ok(code[1] % 8) == RegisterTable(op.name)
  {
    var reg := RegisterTable(op.name).value;
    if op.Reg16? then
      [reg + 0x40]
    else
      // 1111111 W=0: INC r/m8
      [0xFE, Assembler.ModRM(3, 0, reg)]
  }

  /** Reading an INC encoding back: the register it increments, or None for any other byte string. */
  function DecodeInc(code: seq<u8>): Option<Operand> {
    if |code| == 1 && code[0] / 8 == 0x08 then
      Some(Reg16(Assembler.RegisterName16(code[0] % 8)))
    else if |code| == 2 && code[0] == 0xFE && code[1] / 64 == 3 && (code[1] / 8) % 8 == 0 then
      Some(Reg8(Assembler.RegisterName8(code[1] % 8)))
    else
      None
  }

  /** Every register operand of the grammar decodes back from its encoding. */
  lemma {:induction false} DecodeAssembleInc(op: Operand)
    requires (op.Reg16? && op.name in Reg16Names) || (op.Reg8? && op.name in Reg8Names)
    ensures AssembleIncDefined(op) && DecodeInc(AssembleInc(op)) == Some(op)
  {
    RegisterTableAgrees(op.name);
    Assembler.RegisterNameOfCode(op.name);
  }

  /** The unit tests: `inc di` is 47 and `inc dl` is FE C2. */
  lemma AssembleIncExamples()
    ensures AssembleIncDefined(Reg16("di")) && AssembleInc(Reg16("di")) == [0x47]
    ensures AssembleIncDefined(Reg8("dl")) && AssembleInc(Reg8("dl")) == [0xFE, 0xC2]
  {
    assert RegisterTable("di") == Ok(7);
    assert RegisterTable("dl") == Ok(2);
    assert Assembler.ModRM(3, 0, 2) == 0xC2;
  }

  /**
   * The operands the handler runs without panicking: a register of the
   * operand's width whose value is below its maximum, since `v + 1` is not
   * checked for overflow.  `inc mem16` is unimplemented and panics.
   */
  predicate IncSupported(regs: map<string, u16>, op: Operand) {
    match op
    case Reg16(n) => n in Reg16Names && n in regs && regs[n] < 0xFFFF
    case Reg8(n) => n in Reg8Names && n in regs && regs[n] < 0xFF
    case Mem16(_) => false
    case _ => true
  }

  /** The registers after the INC handler: the named register is one larger; anything else is left as it was. */
  function IncSpec(regs: map<string, u16>, op: Operand): (regs': map<string, u16>)
    requires IncSupported(regs, op)
    ensures regs'.Keys == regs.Keys
    ensures (op.Reg16? || op.Reg8?) ==> regs'[op.name] == regs[op.name] + 1
    ensures forall n :: n in regs && !((op.Reg16? || op.Reg8?) && n == op.name) ==> regs'[n] == regs[n]
  {
    if op.Reg16? || op.Reg8? then regs[op.name := regs[op.name] + 1] else regs
  }

  /** On a register operand, the new register map is the old one with that register one larger. */
  lemma IncSpecOfRegister(regs: map<string, u16>, op: Operand)
    requires IncSupported(regs, op) && (op.Reg16? || op.Reg8?)
    ensures IncSpec(regs, op) == regs[op.name := regs[op.name] + 1]
  {
  }

  /** The body both register arms share: read the register and store it back one larger. */
  method IncRegister(cpu: CpuContext, first: Operand)
    requires cpu.Valid() && IncSupported(cpu.regs, first) && (first.Reg16? || first.Reg8?)
    modifies cpu`regs
    ensures cpu.Valid()
    ensures cpu.regs == IncSpec(old(cpu.regs), first)
  {
    var n := first.name;
    if first.Reg16? {
      WidthsDisjoint(n);
    }
    IncSpecOfRegister(cpu.regs, first);
    var v := cpu.Register(n);
    cpu.SetRegister(n, v + 1);
  }

  /** The INC handler (`define_handler_one!(inc, …)`). */
  method HandleInc(cpu: CpuContext, first: Operand)
    requires cpu.Valid() && IncSupported(cpu.regs, first)
    modifies cpu`regs
    ensures cpu.Valid()
    ensures cpu.regs == IncSpec(old(cpu.regs), first)
    ensures cpu.flag == old(cpu.flag)
  {
    match first
    case Reg16(_) =>
      var _ := AssembleInc(first);
      IncRegister(cpu, first);
    case Reg8(_) =>
      var _ := AssembleInc(first);
      IncRegister(cpu, first);
    case _ =>
  }

  /**
   * The register the handler increments is the one its encoding names: the
   * bytes `assemble_inc` produces for the operand decode to that operand.
   */
  lemma IncMatchesEncoding(regs: map<string, u16>, op: Operand)
    requires IncSupported(regs, op) && (op.Reg16? || op.Reg8?)
    ensures AssembleIncDefined(op)
    ensures DecodeInc(AssembleInc(op)) == Some(op)
    ensures IncSpec(regs, op)[op.name] == regs[op.name] + 1
  {
    DecodeAssembleInc(op);
  }

  /** Two increments of di from the boot state leave 2 in di and si still at 0. */
  method IncTwiceFromBoot() returns (di: u16, si: u16)
    ensures di == 2 && si == 0
  {
    var cpu := new CpuContext.Boot();
    HandleInc(cpu, Reg16("di"));
    HandleInc(cpu, Reg16("di"));
    di, si := cpu.Register("di"), cpu.Register("si");
  }
}
