/**
 * The register record of `src/cpucontext.rs`, extended with the register and
 * flag primitives the instruction handlers call.  Registers live in a map from
 * register name to value; the 8-bit names are slots of their own holding
 * values below 0x100.  The flag word keeps the 8086 layout: the carry flag is
 * bit 0 and the overflow flag bit 11, and only the four flag primitives write it.
 */
module Cpu {
  import opened Common

  /** Bit 11 of the flag word: the overflow flag. */
  const OF: u16 := 0x0800

  /** Bit 0 of the flag word: the carry flag. */
  const CF: u16 := 0x0001

  predicate IsFlag(mask: u16) {
    mask == OF || mask == CF
  }

  /** Whether the flag selected by `mask` is set in the flag word `f`. */
  predicate FlagBit(f: u16, mask: u16)
    requires IsFlag(mask)
  {
    (f / mask) % 2 == 1
  }

  /** The flag word with the bit of `mask` cleared. */
  function ClearedBit(f: u16, mask: u16): (g: u16)
    requires IsFlag(mask)
    ensures !FlagBit(g, mask)
  {
    if FlagBit(f, mask) then f - mask else f
  }

  /** Adding `mask` to a word whose `mask` bit is clear sets that bit and nothing else. */
  lemma {:induction false} AddMask(c: u16, mask: u16)
    requires IsFlag(mask) && !FlagBit(c, mask)
    ensures c + mask < 0x1_0000
    ensures (c + mask) / mask == c / mask + 1
  {
    var q, rem := c / mask, c % mask;
    assert c == q * mask + rem;
    assert q % 2 == 0;
    assert q <= 0xFFFF / mask - 1;
    assert c + mask == (q + 1) * mask + rem;
  }

  /** The flag word with the bit of `mask` set to `on`; every other bit is kept. */
  function WithFlag(f: u16, mask: u16, on: bool): (g: u16)
    requires IsFlag(mask)
    ensures FlagBit(g, mask) == on
    ensures ClearedBit(g, mask) == ClearedBit(f, mask)
  {
    var c := ClearedBit(f, mask);
    if on then AddMask(c, mask); c + mask else c
  }

  /** Writing one flag leaves the other flag as it was. */
  lemma {:induction false} WithFlagKeepsOther(f: u16, mask: u16, other: u16, on: bool)
    requires IsFlag(mask) && IsFlag(other) && mask != other
    ensures FlagBit(WithFlag(f, mask, on), other) == FlagBit(f, other)
  {
    var c := ClearedBit(f, mask);
    var g := WithFlag(f, mask, on);
    if mask == OF {
      // The carry bit is the parity of the word; adding or removing 0x800 keeps it.
      assert g % 2 == f % 2;
    } else {
      // The overflow bit sits above bit 0, which is all that changes.
      assert f / OF == c / OF by {
        var q, rem := f / OF, f % OF;
        assert f == q * OF + rem;
        if FlagBit(f, CF) {
          assert rem % 2 == 1;
          assert c == q * OF + (rem - 1);
        }
      }
      if on {
        var q, rem := c / OF, c % OF;
        assert c == q * OF + rem && rem % 2 == 0;
        assert g == q * OF + (rem + 1);
      }
    }
  }

  /** Every register of the model: the 16-bit and 8-bit general registers, ip and cs. */
  const RegisterNames: set<string> := Reg16Names + Reg8Names + {"ip", "cs"}

  class CpuContext {
    var regs: map<string, u16>
    var flag: u16

    ghost predicate Valid()
      reads this
    {
      regs.Keys == RegisterNames &&
      forall r :: r in Reg8Names ==> r in regs && regs[r] < 0x100
    }

    /** The derived `Default`: every register and the flag word are zero. */
    constructor Boot()
      ensures Valid()
      ensures regs == map r | r in RegisterNames :: 0
      ensures flag == 0
    {
      regs := map r | r in RegisterNames :: 0;
      flag := 0;
    }

    /** The value of a register. */
    function Register(name: string): u16
      reads this
      requires Valid() && name in RegisterNames
    {
      regs[name]
    }

    /** `read_reg`: only "ax" is handled; any other name panics. */
    function ReadReg(reg: string): (v: u16)
      reads this
      requires Valid() && reg == "ax"
      ensures v == regs["ax"]
    {
      Register(reg)
    }

    /** `write_reg`: only "ax" is handled; every other register and the flag word are kept. */
    method WriteReg(reg: string, val: u16)
      requires Valid() && reg == "ax"
      modifies this`regs
      ensures Valid()
      ensures regs == old(regs)["ax" := val]
      ensures ReadReg("ax") == val
    {
      regs := regs["ax" := val];
    }

    /**
     * Store a value in a register; an 8-bit register takes only values below
     * 0x100.  Every other register and the flag word are kept.
     */
    method SetRegister(name: string, v: u16)
      requires Valid() && name in RegisterNames
      requires name in Reg8Names ==> v < 0x100
      modifies this`regs
      ensures Valid()
      ensures regs == old(regs)[name := v]
      ensures Register(name) == v
    {
      regs := regs[name := v];
    }

    /** The overflow flag: bit 11, set exactly when the low twelve bits of the flag word reach 0x800. */
    function GetOF(): (on: bool)
      reads this
      ensures on <==> flag % 0x1000 >= 0x800
    {
      FlagBit(flag, OF)
    }

    /** The carry flag: bit 0, set exactly when the flag word is odd. */
    function GetCF(): (on: bool)
      reads this
      ensures on <==> flag % 2 == 1
    {
      FlagBit(flag, CF)
    }

    method SetOF()
      modifies this`flag
      ensures flag == WithFlag(old(flag), OF, true)
      ensures GetOF() && GetCF() == old(GetCF())
    {
      WithFlagKeepsOther(flag, OF, CF, true);
      flag := WithFlag(flag, OF, true);
    }

    method ResetOF()
      modifies this`flag
      ensures flag == WithFlag(old(flag), OF, false)
      ensures !GetOF() && GetCF() == old(GetCF())
    {
      WithFlagKeepsOther(flag, OF, CF, false);
      flag := WithFlag(flag, OF, false);
    }

    method SetCF()
      modifies this`flag
      ensures flag == WithFlag(old(flag), CF, true)
      ensures GetCF() && GetOF() == old(GetOF())
    {
      WithFlagKeepsOther(flag, CF, OF, true);
      flag := WithFlag(flag, CF, true);
    }

    method ResetCF()
      modifies this`flag
      ensures flag == WithFlag(old(flag), CF, false)
      ensures !GetCF() && GetOF() == old(GetOF())
    {
      WithFlagKeepsOther(flag, CF, OF, false);
      flag := WithFlag(flag, CF, false);
    }
  }

  /** The boot state reads zero from ax, and a write to ax reads back. */
  method BootThenWriteAx(v: u16) returns (before: u16, after: u16)
    ensures before == 0 && after == v
  {
    var cpu := new CpuContext.Boot();
    before := cpu.ReadReg("ax");
    cpu.WriteReg("ax", v);
    after := cpu.ReadReg("ax");
  }
}
