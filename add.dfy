/**
 * The ADD instruction of `src/add.rs`: the 16-bit and 8-bit adders with their
 * overflow and carry rules, the byte encoder for the register and immediate
 * forms, and the handler that updates a register or a memory word.
 */
module Add {
  import opened Common
  import opened Assembler
  import opened Parser
  import opened Cpu
  import opened Mem

  /** A word read as a two's-complement number. */
  function Signed16(x: u16): int {
    if x >= 0x8000 then x - 0x1_0000 else x
  }

  /** A byte read as a two's-complement number. */
  function Signed8(x: u8): int {
    if x >= 0x80 then x - 0x100 else x
  }

  /**
   * The overflow rule of `do_add16`: two operands with the same sign bit whose
   * truncated sum has the other sign bit.
   */
  predicate Overflow16(l: u16, r: u16) {
    var sum := (l + r) % 0x1_0000;
    (l < 0x8000 && r < 0x8000 && sum >= 0x8000) || (l >= 0x8000 && r >= 0x8000 && sum < 0x8000)
  }

  /** Overflow is set exactly when the truncated sum, read as signed, is not the signed sum. */
  lemma Overflow16IsSignedOverflow(l: u16, r: u16)
    ensures Overflow16(l, r) <==> Signed16((l + r) % 0x1_0000) != Signed16(l) + Signed16(r)
    ensures Overflow16(l, r) <==> !(-0x8000 <= Signed16(l) + Signed16(r) < 0x8000)
  {
  }

  /**
   * The carry rule of `do_add16` as written: in the untruncated sum, bit 16
   * (0x10000) is set and bit 15 (0x8000) is clear.
   */
  predicate Carry16(l: u16, r: u16) {
    var r32 := l + r;
    (r32 / 0x8000) % 2 == 0 && (r32 / 0x1_0000) % 2 == 1
  }

  /**
   * The written carry rule sets CF only for a carry out of bit 15 whose truncated
   * sum is below 0x8000; a carry out with a truncated sum of 0x8000 or more,
   * such as 0xFFFF + 0xFFFF, leaves CF clear.
   */
  lemma Carry16Characterised(l: u16, r: u16)
    ensures Carry16(l, r) <==> l + r >= 0x1_0000 && (l + r) % 0x1_0000 < 0x8000
    ensures Carry16(l, r) ==> (l + r) % 0x1_0000 != l + r
  {
    var r32 := l + r;
    if r32 >= 0x1_0000 {
      assert r32 / 0x1_0000 == 1;
      assert r32 / 0x8000 == 2 + (r32 - 0x1_0000) / 0x8000;
    } else {
      assert r32 / 0x1_0000 == 0;
    }
  }

  lemma Carry16MissesWideCarry()
    ensures 0xFFFF + 0xFFFF >= 0x1_0000 && !Carry16(0xFFFF, 0xFFFF)
  {
    Carry16Characterised(0xFFFF, 0xFFFF);
  }

  /**
   * The carry rule the comment above the test describes, a carry out of the
   * most significant bit: bit 16 of the untruncated sum, `(r32 & 0x10000) != 0`.
   */
  predicate Carry16Intended(l: u16, r: u16) {
    ((l + r) / 0x1_0000) % 2 == 1
  }

  /**
   * The intended carry is exactly the carry out of a 16-bit addition: the
   * truncated sum plus 0x10000 times the carry is the full sum.  It agrees with
   * the written rule wherever that rule sets CF, and also covers 0xFFFF + 0xFFFF.
   */
  lemma {:induction false} Carry16IntendedIsCarryOut(l: u16, r: u16)
    ensures Carry16Intended(l, r) <==> l + r >= 0x1_0000
    ensures l + r == (l + r) % 0x1_0000 + (if Carry16Intended(l, r) then 0x1_0000 else 0)
    ensures Carry16(l, r) ==> Carry16Intended(l, r)
    ensures Carry16Intended(0xFFFF, 0xFFFF)
  {
    Carry16Characterised(l, r);
    var r32 := l + r;
    if r32 >= 0x1_0000 {
      assert r32 / 0x1_0000 == 1;
    } else {
      assert r32 / 0x1_0000 == 0;
    }
    assert (0xFFFF + 0xFFFF) / 0x1_0000 == 1;
  }

  /** The flag word after `do_add16`: OF and CF written, every other bit kept. */
  function FlagsAfterAdd16(f: u16, l: u16, r: u16): (g: u16)
    ensures FlagBit(g, OF) == Overflow16(l, r) && FlagBit(g, CF) == Carry16(l, r)
    ensures ClearedBit(ClearedBit(g, OF), CF) == ClearedBit(ClearedBit(f, OF), CF)
  {
    var g1 := WithFlag(f, OF, Overflow16(l, r));
    WithFlagKeepsOther(g1, CF, OF, Carry16(l, r));
    var g := WithFlag(g1, CF, Carry16(l, r));
    ClearedOfCleared(g1, f);
    ClearedOfCleared(g, g1);
    g
  }

  /** Clearing one flag of two words that agree once the other flag is cleared keeps them in agreement. */
  lemma ClearedOfCleared(g: u16, f: u16)
    requires ClearedBit(g, OF) == ClearedBit(f, OF) || ClearedBit(g, CF) == ClearedBit(f, CF)
    ensures ClearedBit(ClearedBit(g, OF), CF) == ClearedBit(ClearedBit(f, OF), CF)
  {
    if ClearedBit(g, CF) == ClearedBit(f, CF) {
      ClearCommutes(g);
      ClearCommutes(f);
    }
  }

  /** Clearing CF and OF in either order gives the same word. */
  lemma ClearCommutes(f: u16)
    ensures ClearedBit(ClearedBit(f, OF), CF) == ClearedBit(ClearedBit(f, CF), OF)
  {
    var a := ClearedBit(f, OF);
    var b := ClearedBit(f, CF);
    WithFlagKeepsOther(f, OF, CF, false);
    WithFlagKeepsOther(f, CF, OF, false);
    assert a == WithFlag(f, OF, false) && b == WithFlag(f, CF, false);
  }

  /**
   * `do_add16`: the sum truncated to 16 bits; OF and CF are written by the
   * rules above and nothing else in the CPU changes.
   */
  method DoAdd16(cpu: CpuContext, l: u16, r: u16) returns (sum: u16)
    modifies cpu`flag
    ensures sum == (l + r) % 0x1_0000
    ensures cpu.flag == FlagsAfterAdd16(old(cpu.flag), l, r)
    ensures cpu.GetOF() == Overflow16(l, r) && cpu.GetCF() == Carry16(l, r)
  {
    var r32: u32 := r + l;
    sum := r32 % 0x1_0000;
    if l < 0x8000 && r < 0x8000 && sum >= 0x8000 {
      cpu.SetOF();
    } else if l >= 0x8000 && r >= 0x8000 && sum < 0x8000 {
      cpu.SetOF();
    } else {
      cpu.ResetOF();
    }
    if (r32 / 0x8000) % 2 == 0 && (r32 / 0x1_0000) % 2 == 1 {
      cpu.SetCF();
    } else {
      cpu.ResetCF();
    }
  }

  /** The unit tests of the adder: overflow on 0x7FFF + 0x7FFF and 0x7FFF + 1, carry without overflow on 0xFFFF + 1, neither on 1 + 1. */
  method AddFlagTests() returns (of1: bool, of2: bool, cf2: bool, of3: bool, of4: bool, cf4: bool)
    ensures of1 && !of2 && cf2 && of3 && !of4 && !cf4
  {
    AdderTestCases();
    var cpu := new CpuContext.Boot();
    var _ := DoAdd16(cpu, 0xFFFF / 2, 0xFFFF / 2);
    of1 := cpu.GetOF();
    var _ := DoAdd16(cpu, 0xFFFF, 1);
    of2, cf2 := cpu.GetOF(), cpu.GetCF();
    var _ := DoAdd16(cpu, 0x7FFF, 1);
    of3 := cpu.GetOF();
    var _ := DoAdd16(cpu, 1, 1);
    of4, cf4 := cpu.GetOF(), cpu.GetCF();
  }

  /** The flag rules on the unit tests' operands. */
  lemma AdderTestCases()
    ensures Overflow16(0x7FFF, 0x7FFF)
    ensures !Overflow16(0xFFFF, 1) && Carry16(0xFFFF, 1)
    ensures Overflow16(0x7FFF, 1)
    ensures !Overflow16(1, 1) && !Carry16(1, 1)
  {
    Carry16Characterised(0xFFFF, 1);
    Carry16Characterised(1, 1);
  }

  /** The overflow rule of `_do_add8`, on sign bit 0x80. */
  predicate Overflow8(l: u8, r: u8) {
    var sum := (l + r) % 0x100;
    (l < 0x80 && r < 0x80 && sum >= 0x80) || (l >= 0x80 && r >= 0x80 && sum < 0x80)
  }

  lemma Overflow8IsSignedOverflow(l: u8, r: u8)
    ensures Overflow8(l, r) <==> Signed8((l + r) % 0x100) != Signed8(l) + Signed8(r)
  {
  }

  /**
   * The carry test of `_do_add8` as written: bit 7 of the sum clear and
   * `sum & 0x100` equal to 1.  The masked value is 0 or 0x100, never 1.
   */
  predicate Carry8(l: u8, r: u8) {
    var r32 := l + r;
    (r32 / 0x80) % 2 == 0 && ((r32 / 0x100) % 2) * 0x100 == 1
  }

  lemma Carry8NeverSet(l: u8, r: u8)
    ensures !Carry8(l, r)
  {
  }

  /** The evidently intended 8-bit carry: bit 8 of the untruncated sum, `(r32 & 0x100) != 0`. */
  predicate Carry8Intended(l: u8, r: u8) {
    ((l + r) / 0x100) % 2 == 1
  }

  /**
   * The intended 8-bit carry is exactly the carry out of an 8-bit addition,
   * and 0xFF + 0x01 sets it while the written test stays false.
   */
  lemma {:induction false} Carry8IntendedIsCarryOut(l: u8, r: u8)
    ensures Carry8Intended(l, r) <==> l + r >= 0x100
    ensures l + r == (l + r) % 0x100 + (if Carry8Intended(l, r) then 0x100 else 0)
    ensures Carry8Intended(0xFF, 0x01) && !Carry8(0xFF, 0x01)
  {
    var r32 := l + r;
    if r32 >= 0x100 {
      assert r32 / 0x100 == 1;
    } else {
      assert r32 / 0x100 == 0;
    }
    assert (0xFF + 0x01) / 0x100 == 1;
    Carry8NeverSet(0xFF, 0x01);
  }

  /** `_do_add8`: the sum truncated to 8 bits; OF by the sign rule, CF always cleared. */
  method DoAdd8(cpu: CpuContext, l: u8, r: u8) returns (sum: u8)
    modifies cpu`flag
    ensures sum == (l + r) % 0x100
    ensures cpu.flag == WithFlag(WithFlag(old(cpu.flag), OF, Overflow8(l, r)), CF, false)
    ensures cpu.GetOF() == Overflow8(l, r) && !cpu.GetCF()
  {
    var r32: u32 := r + l;
    sum := r32 % 0x100;
    if l < 0x80 && r < 0x80 && sum >= 0x80 {
      cpu.SetOF();
    } else if l >= 0x80 && r >= 0x80 && sum < 0x80 {
      cpu.SetOF();
    } else {
      cpu.ResetOF();
    }
    Carry8NeverSet(l, r);
    cpu.ResetCF();
  }

  /** The operand forms `assemble_add` accepts; any other form panics. */
  predicate AssembleAddDefined(first: Operand, second: Operand) {
    if first.AsStr() == "ax" && second.Imm? then ImmToNum(second.text).Ok?
    else match (first, second)
      case (Reg16(a), Reg16(b)) => RegisterTable(a).Ok? && RegisterTable(b).Ok?
      case (Reg16(a), Imm(t)) => RegisterTable(a).Ok? && ImmToNum(t).Ok?
      case (Mem16(_), Imm(_)) | (Mem16(_), Reg16(_)) | (Indirect16(_), Imm(_)) | (Indirect16(_), Reg16(_)) => true
      case _ => false
  }

  /**
   * `assemble_add`: `add ax, imm` is 05 and the immediate little-endian;
   * `add reg16, reg16` is 03 and a register-mode ModR/M byte with the first
   * register in REG and the second in R/M; `add reg16, imm` is 81, a ModR/M
   * byte with MOD 10 and the register in R/M, and the immediate.  The
   * memory and indirect destinations produce no bytes yet.
   */
  function AssembleAdd(first: Operand, second: Operand): (code: seq<u8>)
    requires AssembleAddDefined(first, second)
    ensures first.AsStr() == "ax" && second.Imm? ==>
      |code| == 3 && code[0] == 0x05 && Word(code[1], code[2]) == ImmToNum(second.text).value
    ensures !(first.AsStr() == "ax" && second.Imm?) && first.Reg16? && second.Reg16? ==>
      |code| == 2 && code[0] == 0x03 && code[1] / 64 == 3 &&
      Ok((code[1] / 8) % 8) == RegisterTable(first.name) && Ok(code[1] % 8) == RegisterTable(second.name)
    ensures !(first.AsStr() == "ax" && second.Imm?) && first.Reg16? && second.Imm? ==>
      |code| == 4 && code[0] == 0x81 && code[1] / 64 == 2 && (code[1] / 8) % 8 == 0 &&
      Ok(code[1] % 8) == RegisterTable(first.name) && Word(code[2], code[3]) == ImmToNum(second.text).value
    ensures !(first.AsStr() == "ax" && second.Imm?) && (first.Mem16? || first.Indirect16?) ==> code == []
  {
    if first.AsStr() == "ax" && second.Imm? then
      var imm := ImmOperandToNum(second).value;
      WordOfBytes(imm);
      // 0000010 W=1: ADD AX, imm16
      [0x05, LowByte(imm), HighByte(imm)]
    else match (first, second)
      case (Reg16(a), Reg16(b)) =>
        // 000000 D=1 W=1: ADD reg16, r/m16
        [0x03, ModRM(3, RegisterTable(a).value, RegisterTable(b).value)]
      case (Reg16(a), Imm(_)) =>
        var imm := ImmOperandToNum(second).value;
        WordOfBytes(imm);
        // 100000 S=0 W=1: ADD r/m16, imm16
        [0x81, ModRM(2, 0, RegisterTable(a).value), LowByte(imm), HighByte(imm)]
      case (Mem16(_), Imm(_)) | (Mem16(_), Reg16(_)) | (Indirect16(_), Imm(_)) | (Indirect16(_), Reg16(_)) => []
  }

  /**
   * MOD 10 in the ModR/M byte `assemble_add` writes for `add reg16, imm`
   * selects a memory operand with a 16-bit displacement, not a register: the
   * byte 81 81 encodes `add word [bx+di+disp16], imm16`, not `add cx, imm16`.
   */
  lemma AssembleAddRegImmSelectsMemory(t: string)
    requires ImmToNum(t).Ok?
    ensures AssembleAdd(Reg16("cx"), Imm(t))[1] / 64 == 2
    ensures AssembleAdd(Reg16("cx"), Imm(t))[1] == 0x81
  {
  }

  /** `add reg16, imm` encoded as the 8086 register form: MOD 11 with the register in R/M. */
  function AssembleAddRegImmIntended(reg: string, imm: u16): (code: seq<u8>)
    requires reg in Reg16Names
    ensures |code| == 4 && code[0] == 0x81 && code[1] / 64 == 3 && (code[1] / 8) % 8 == 0
    ensures Ok(code[1] % 8) == RegisterTable(reg) && Word(code[2], code[3]) == imm
  {
    WordOfBytes(imm);
    [0x81, ModRM(3, 0, RegisterTable(reg).value), LowByte(imm), HighByte(imm)]
  }

  /**
   * The intended encoding names the register it adds to: its MOD field is the
   * register mode and its R/M field decodes to that register, so two
   * registers never share an encoding.
   */
  lemma AssembleAddRegImmIntendedInjective(a: string, b: string, imm: u16)
    requires a in Reg16Names && b in Reg16Names
    requires AssembleAddRegImmIntended(a, imm) == AssembleAddRegImmIntended(b, imm)
    ensures a == b
  {
    var ca := AssembleAddRegImmIntended(a, imm);
    assert RegisterTable(a) == RegisterTable(b) by {
      assert Ok(ca[1] % 8) == RegisterTable(a) && Ok(ca[1] % 8) == RegisterTable(b);
    }
    RegisterTableInjective(a, b);
  }

  /** `add reg16, reg16` names both registers: equal encodings mean equal operands. */
  lemma AssembleAddRegRegInjective(a: string, b: string, c: string, d: string)
    requires a in Reg16Names && b in Reg16Names && c in Reg16Names && d in Reg16Names
    requires AssembleAdd(Reg16(a), Reg16(b)) == AssembleAdd(Reg16(c), Reg16(d))
    ensures a == c && b == d
  {
    var code := AssembleAdd(Reg16(a), Reg16(b));
    assert RegisterTable(a) == RegisterTable(c) by {
      assert Ok((code[1] / 8) % 8) == RegisterTable(a) && Ok((code[1] / 8) % 8) == RegisterTable(c);
    }
    assert RegisterTable(b) == RegisterTable(d) by {
      assert Ok(code[1] % 8) == RegisterTable(b) && Ok(code[1] % 8) == RegisterTable(d);
    }
    RegisterTableInjective(a, c);
    RegisterTableInjective(b, d);
  }

  /** The state the ADD handler reads and writes: registers, flags, memory bytes and cursor. */
  datatype Machine = Machine(regs: map<string, u16>, flag: u16, data: seq<u8>, lastAddress: u16)

  predicate MachineValid(m: Machine) {
    m.regs.Keys == RegisterNames && |m.data| == MemorySize &&
    forall r :: r in Reg8Names ==> r in m.regs && m.regs[r] < 0x100
  }

  function Snapshot(cpu: CpuContext, memory: Memory): Machine
    reads cpu, memory, memory.data
  {
    Machine(cpu.regs, cpu.flag, memory.data[..], memory.lastAddress)
  }

  /** A bracketed operand is never the text "ax" or "al". */
  lemma BracketedIsNotRegister(t: string)
    requires HasBrackets(t)
    ensures t != "ax" && t != "al"
  {
    var i := Find(t, '[').value;
    assert t[i] == '[';
  }

  /**
   * A memory operand the handler can use: the text has an address in
   * brackets that parses (the parse is unwrapped), and the address is below
   * 0xFFFF so that the word access does not run past the 16-bit range.
   */
  predicate MemAddressOk(t: string) {
    HasBrackets(t) && MemToNumDefined(t) && MemToNum(t).value < 0xFFFF
  }

  function MemAddress(t: string): (a: u16)
    requires MemAddressOk(t)
    ensures a < 0xFFFF
  {
    MemToNum(t).value
  }

  /** The branches of the ADD handler. */
  datatype AddForm = AxImm | AlImm | RegReg | RegImm | RegMem | MemReg | MemImm | NoEffect

  /** The branch the handler takes: first the text tests for ax and al, then the operand rules. */
  function FormOf(first: Operand, second: Operand): (f: AddForm)
    ensures f == AxImm <==> first.AsStr() == "ax" && second.Imm?
    ensures f == AlImm <==> first.AsStr() == "al" && second.Imm?
    ensures f == RegReg ==> first.Reg16? && second.Reg16?
    ensures f == RegImm ==> first.Reg16? && second.Imm?
    ensures f == RegMem ==> first.Reg16? && second.Mem16?
    ensures f == MemReg ==> first.Mem16? && second.Reg16?
    ensures f == MemImm ==> first.Mem16? && second.Imm?
    ensures f == NoEffect ==>
      (!first.Reg16? && !first.Mem16?) ||
      (first.Reg16? && !(second.Reg16? || second.Imm? || second.Mem16?)) ||
      (first.Mem16? && !(second.Reg16? || second.Imm?))
  {
    if first.AsStr() == "ax" && second.Imm? then AxImm
    else if first.AsStr() == "al" && second.Imm? then AlImm
    else match (first, second)
      case (Reg16(_), Reg16(_)) => RegReg
      case (Reg16(_), Imm(_)) => RegImm
      case (Reg16(_), Mem16(_)) => RegMem
      case (Mem16(_), Reg16(_)) => MemReg
      case (Mem16(_), Imm(_)) => MemImm
      case _ => NoEffect
  }

  /**
   * The operand forms the handler runs without panicking: every unwrapped
   * parse succeeds and every register exists.  `add mem16, reg16` reads a
   * register named by the memory operand's text and is left out.
   */
  predicate AddSupported(m: Machine, first: Operand, second: Operand) {
    MachineValid(m) &&
    match FormOf(first, second)
    case AxImm => ImmToNum(second.text).Ok?
    case RegReg => first.name in Reg16Names && second.name in Reg16Names
    case RegImm => first.name in Reg16Names && ImmToNum(second.text).Ok?
    case RegMem => first.name in Reg16Names && MemAddressOk(second.text)
    case MemReg => false
    case MemImm => MemAddressOk(first.text) && ImmToNum(second.text).Ok?
    case AlImm | NoEffect => true
  }

  /** The state after storing `l + r` in register `dst` with the adder's flags. */
  function AddToRegister(m: Machine, dst: string, l: u16, r: u16): Machine
    requires dst in m.regs
  {
    m.(regs := m.regs[dst := (l + r) % 0x1_0000], flag := FlagsAfterAdd16(m.flag, l, r))
  }

  /** The state after storing `l + r` in the memory word at `addr` with the adder's flags; the cursor moves there. */
  function AddToMemory(m: Machine, addr: u16, l: u16, r: u16): Machine
    requires addr < |m.data| - 1
  {
    m.(data := Store16(m.data, addr, (l + r) % 0x1_0000), flag := FlagsAfterAdd16(m.flag, l, r), lastAddress := addr)
  }

  /** What the ADD handler does to the machine. */
  function AddSpec(m: Machine, first: Operand, second: Operand): Machine
    requires AddSupported(m, first, second)
  {
    match FormOf(first, second)
    case AxImm => AddToRegister(m, "ax", m.regs["ax"], ImmToNum(second.text).value)
    case RegReg => AddToRegister(m, first.name, m.regs[first.name], m.regs[second.name])
    case RegImm => AddToRegister(m, first.name, m.regs[first.name], ImmToNum(second.text).value)
    case RegMem =>
      var addr := MemAddress(second.text);
      AddToRegister(m.(lastAddress := addr), first.name, Load16(m.data, addr), m.regs[first.name])
    case MemImm =>
      var addr := MemAddress(first.text);
      AddToMemory(m, addr, Load16(m.data, addr), ImmToNum(second.text).value)
    case AlImm | NoEffect => m
  }

  /** Adding into a register through the CPU primitives; memory is not touched. */
  method AddIntoRegister(cpu: CpuContext, memory: Memory, dst: string, l: u16, r: u16)
    requires cpu.Valid() && dst in Reg16Names
    modifies cpu`regs, cpu`flag
    ensures cpu.Valid()
    ensures Snapshot(cpu, memory) == AddToRegister(old(Snapshot(cpu, memory)), dst, l, r)
  {
    var v := DoAdd16(cpu, l, r);
    WidthsDisjoint(dst);
    cpu.SetRegister(dst, v);
  }

  /** `add reg16, mem16`: read the word (the cursor moves), add the register, store in the register. */
  method AddMemoryIntoRegister(cpu: CpuContext, memory: Memory, dst: string, address: u16)
    requires cpu.Valid() && memory.Valid() && dst in Reg16Names && address < 0xFFFF
    modifies cpu`regs, cpu`flag, memory`lastAddress
    ensures cpu.Valid() && memory.Valid()
    ensures Snapshot(cpu, memory) ==
      AddToRegister(old(Snapshot(cpu, memory)).(lastAddress := address), dst, Load16(old(memory.data[..]), address), old(cpu.regs[dst]))
  {
    var l := memory.Read16(address);
    var r := cpu.Register(dst);
    AddIntoRegister(cpu, memory, dst, l, r);
  }

  /** `add mem16, imm`: read the word, add the immediate, write the sum back. */
  method AddIntoMemory(cpu: CpuContext, memory: Memory, address: u16, r: u16)
    requires memory.Valid() && address < 0xFFFF
    modifies cpu`flag, memory`lastAddress, memory.data
    ensures memory.Valid()
    ensures Snapshot(cpu, memory) == AddToMemory(old(Snapshot(cpu, memory)), address, Load16(old(memory.data[..]), address), r)
  {
    var l := memory.Read16(address);
    var v := DoAdd16(cpu, l, r);
    ghost var flag := cpu.flag;
    memory.Write16(address, v);
    assert cpu.regs == old(cpu.regs) && cpu.flag == flag;
  }

  /** The ADD handler (`define_handler_two!(add, …)`). */
  method HandleAdd(cpu: CpuContext, memory: Memory, first: Operand, second: Operand)
    requires cpu.Valid() && memory.Valid()
    requires AddSupported(Snapshot(cpu, memory), first, second)
    modifies cpu`regs, cpu`flag, memory`lastAddress, memory.data
    ensures cpu.Valid() && memory.Valid()
    ensures Snapshot(cpu, memory) == AddSpec(old(Snapshot(cpu, memory)), first, second)
  {
    match FormOf(first, second)
    case AxImm =>
      var l := cpu.Register("ax");
      var r := ImmOperandToNum(second).value;
      AddIntoRegister(cpu, memory, "ax", l, r);
    case RegReg =>
      var l := cpu.Register(first.name);
      var r := cpu.Register(second.name);
      AddIntoRegister(cpu, memory, first.name, l, r);
    case RegImm =>
      var l := cpu.Register(first.name);
      var r := ImmOperandToNum(second).value;
      AddIntoRegister(cpu, memory, first.name, l, r);
    case RegMem =>
      var address := MemAddress(second.text);
      AddMemoryIntoRegister(cpu, memory, first.name, address);
    case MemImm =>
      var address := MemAddress(first.text);
      var r := ImmOperandToNum(second).value;
      AddIntoMemory(cpu, memory, address, r);
    case AlImm | NoEffect =>
  }

  /**
   * `add reg16, reg16` stores the truncated sum in the first register, keeps
   * the second (when it is another register) and leaves memory alone; the
   * stored value read as signed is the signed sum exactly when OF is clear.
   */
  lemma AddRegRegEffect(m: Machine, a: string, b: string)
    requires MachineValid(m) && a in Reg16Names && b in Reg16Names
    ensures AddSupported(m, Reg16(a), Reg16(b))
    ensures var m' := AddSpec(m, Reg16(a), Reg16(b));
      m'.regs[a] == (m.regs[a] as int + m.regs[b]) % 0x1_0000 &&
      (a != b ==> m'.regs[b] == m.regs[b]) &&
      m'.data == m.data && m'.lastAddress == m.lastAddress &&
      (FlagBit(m'.flag, OF) <==> Signed16(m'.regs[a]) != Signed16(m.regs[a]) + Signed16(m.regs[b]))
  {
    var l, r := m.regs[a], m.regs[b];
    assert FormOf(Reg16(a), Reg16(b)) == RegReg;
    assert AddSpec(m, Reg16(a), Reg16(b)) == AddToRegister(m, a, l, r);
    AddToRegisterEffect(m, a, l, r);
  }

  /**
   * Storing a sum in a register: only that register changes, memory and the
   * cursor are kept, and OF is set exactly when the stored value read as
   * signed is not the signed sum.
   */
  lemma AddToRegisterEffect(m: Machine, dst: string, l: u16, r: u16)
    requires dst in m.regs
    ensures var m' := AddToRegister(m, dst, l, r);
      m'.regs == m.regs[dst := (l + r) % 0x1_0000] &&
      m'.data == m.data && m'.lastAddress == m.lastAddress &&
      (FlagBit(m'.flag, OF) <==> Signed16(m'.regs[dst]) != Signed16(l) + Signed16(r))
  {
    Overflow16IsSignedOverflow(l, r);
  }

  /**
   * `add reg16, imm` (including `add ax, imm`) stores register + immediate in
   * the register and changes no other register and no memory.
   */
  lemma AddRegImmEffect(m: Machine, a: string, t: string, other: string)
    requires AddSupported(m, Reg16(a), Imm(t)) && a in Reg16Names && ImmToNum(t).Ok?
    requires other in m.regs && other != a
    ensures var m' := AddSpec(m, Reg16(a), Imm(t));
      m'.regs[a] == (m.regs[a] as int + ImmToNum(t).value) % 0x1_0000 &&
      m'.regs[other] == m.regs[other] &&
      m'.data == m.data && m'.lastAddress == m.lastAddress
  {
    var v := ImmToNum(t).value;
    if a == "ax" {
      assert FormOf(Reg16(a), Imm(t)) == AxImm;
    } else {
      assert FormOf(Reg16(a), Imm(t)) == RegImm;
    }
    assert AddSpec(m, Reg16(a), Imm(t)) == AddToRegister(m, a, m.regs[a], v);
  }

  /**
   * `add mem16, imm` stores the sum at the address: reading the word back
   * gives memory word + immediate, every other byte and every register are
   * kept, and the cursor is at the address.
   */
  lemma AddMemImmEffect(m: Machine, t: string, u: string)
    requires MachineValid(m) && MemAddressOk(t) && ImmToNum(u).Ok?
    ensures AddSupported(m, Mem16(t), Imm(u))
    ensures var m' := AddSpec(m, Mem16(t), Imm(u));
      var addr := MemAddress(t);
      Load16(m'.data, addr) == (Load16(m.data, addr) as int + ImmToNum(u).value) % 0x1_0000 &&
      (forall i :: 0 <= i < |m.data| && i != addr && i != addr + 1 ==> m'.data[i] == m.data[i]) &&
      m'.regs == m.regs && m'.lastAddress == addr
  {
    BracketedIsNotRegister(t);
    assert FormOf(Mem16(t), Imm(u)) == MemImm;
    var addr := MemAddress(t);
    var l, r := Load16(m.data, addr), ImmToNum(u).value;
    assert AddSpec(m, Mem16(t), Imm(u)) == AddToMemory(m, addr, l, r);
    AddToMemoryEffect(m, addr, l, r);
  }

  /** Storing a sum in memory: the word reads back as the sum, no other byte and no register changes. */
  lemma AddToMemoryEffect(m: Machine, addr: u16, l: u16, r: u16)
    requires addr < |m.data| - 1
    ensures var m' := AddToMemory(m, addr, l, r);
      Load16(m'.data, addr) == (l as int + r) % 0x1_0000 &&
      (forall i :: 0 <= i < |m.data| && i != addr && i != addr + 1 ==> m'.data[i] == m.data[i]) &&
      m'.regs == m.regs && m'.lastAddress == addr
  {
    Load16OfStore16(m.data, addr, (l + r) % 0x1_0000);
  }

  /** `add reg16, mem16` adds the memory word into the register; memory bytes are unchanged and the cursor moves. */
  lemma AddRegMemEffect(m: Machine, a: string, t: string)
    requires AddSupported(m, Reg16(a), Mem16(t))
    ensures var m' := AddSpec(m, Reg16(a), Mem16(t));
      m'.regs[a] == (Load16(m.data, MemAddress(t)) as int + m.regs[a]) % 0x1_0000 &&
      m'.data == m.data && m'.lastAddress == MemAddress(t)
  {
  }

  /** `add al, imm` and every 8-bit form leave the machine untouched. */
  lemma AddByteFormsUnchanged(m: Machine, first: Operand, second: Operand)
    requires AddSupported(m, first, second)
    requires first.Reg8? || first.Mem8?
    requires first.AsStr() != "ax"
    ensures AddSpec(m, first, second) == m
  {
  }
}
