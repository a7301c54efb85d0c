# remu8086 core in Dafny

A model of the core of remu8086, a small 8086 emulator written in Rust, with
proofs about it. The emulator reads one parsed assembly instruction at a time.
It looks up the 8086 encoding fields of its operands, executes the instruction
on a register file and a flat byte memory, and renders the machine-code bytes.
The model covers six parts:

- **Encoding tables** (`assembler.dfy`): the 3-bit REG code of every register
  name, the R/M code of every (base, index) pair, and the ModR/M byte layout.
- **Hex parsing** (`hex.dfy`, `parser.dfy`): immediates written `0x…` or
  `…h`, and the address between the brackets of a memory operand.
- **Memory** (`memory.dfy`): one mebibyte of bytes updated in place, with
  little-endian word access and a cursor that every access moves. It also
  renders the one-row hex dump around the cursor.
- **Register file** (`cpucontext.dfy`): a map from register name to value and
  a 16-bit flag word. OF is bit 11 and CF is bit 0, and only the four flag
  primitives write them.
- **ADD** (`add.dfy`): the 16-bit and 8-bit adders with their flag rules, the
  byte encoder, and the handler.
- **INC** (`inc.dfy`): the module's own table copies, the register encoder
  and the handler.

Machine integers are bounded `int` subset types (`u8`, `u16`, `u32`). Masks
and shifts are written as arithmetic on them.

Points where the model's reading of the code needs saying:

- The register record derives `Default` (src/cpucontext.rs:10-20), so every
  register boots to zero, `cs` included. A real 8086 starts with `cs` at
  0xFFFF. The code's `CpuContext::boot()` is not part of this model; the boot
  state is read off that derive.
- The comment above the CF test of `do_add16` (src/add.rs:164-167) promises
  CF on a carry out of the most significant bit. The test at line 168 also
  demands bit 15 of the sum clear, so 0xFFFF + 0xFFFF leaves CF clear. The
  test of `_do_add8` at line 199 compares a masked bit with 1 and never holds.
  Both are listed under Findings; the adders keep the rules as written.
- INC touches no flag.
- The 8-bit registers are slots of their own. They are not the halves of
  ax, bx, cx and dx.
- Unknown register names, `unwrap` on a failed parse, `unimplemented!` and a
  u16 `address + 1` that would overflow make the Rust code panic. The model
  states them as preconditions, not error results. The one panic it does not
  guard against is the dump printed after every write, listed under Left out.

## Model

| member | source | states |
|---|---|---|
| Common.Word | src/memory.rs:44-48 | the little-endian word of two bytes has them as its low and high byte |
| Common.WordOfBytes | src/memory.rs:57-61 | splitting a word into low and high byte and composing them gives the word back |
| Assembler.RegisterTable | src/assembler.rs:1-13 | succeeds exactly for the eight 16-bit and eight 8-bit names, every code fits 3 bits, and the error names the register |
| Assembler.RegisterTableCodes | src/assembler.rs:2-10 | ax/al→0, cx/cl→1, dx/dl→2, bx/bl→3, sp/ah→4, bp/ch→5, si/dh→6, di/bh→7 |
| Assembler.RegisterTableInjective | src/assembler.rs:3-10 | two 16-bit names (or two 8-bit names) with the same code are the same name |
| Assembler.RegisterTableOnto | src/assembler.rs:3-10 | every code 0..7 is the code of some 16-bit and some 8-bit register |
| Assembler.RegisterName16 | src/assembler.rs:3-10 | the 16-bit register named by a code is a 16-bit register whose table code is that code |
| Assembler.RegisterName8 | src/assembler.rs:3-10 | the 8-bit register named by a code is an 8-bit register whose table code is that code |
| Assembler.RegisterNameOfCode | src/assembler.rs:3-10 | naming the code of a register gives that register back, at either width |
| Assembler.ModRM | src/add.rs:104-108 | the ModR/M byte built from MOD, REG and R/M yields those three fields back from bits 7-6, 5-3 and 2-0 |
| Assembler.BaseIndexTable | src/assembler.rs:15-30 | every accepted pair gets a code below 8; rejected pairs get the Debug-rendered error text |
| Assembler.BaseIndexTableCodes | src/assembler.rs:17-24 | (bx,si)→0, (bx,di)→1, (bp,si)→2, (bp,"fi")→3, (None,si)→4, (None,di)→5, (bp,None)→6, (bx,None)→7 |
| Assembler.BaseIndexTableAccepts | src/assembler.rs:16-28 | the table accepts a pair if and only if it is one of those eight |
| Assembler.BaseIndexTableInjective | src/assembler.rs:17-24 | distinct accepted pairs get distinct codes |
| Assembler.BaseIndexTableRejectsBpDi | src/assembler.rs:20 | (bp, di) and (None, None) are errors, while (bp, "fi") is accepted with code 3 |
| Assembler.BaseIndexTableIntended | src/assembler.rs:15-30 | the corrected table has codes below 8 and agrees with the written one on every pair except (bp, di) and (bp, "fi") |
| Assembler.BaseIndexTableIntendedBijective | src/assembler.rs:16-24 | the corrected table accepts exactly base ∈ {bx, bp, none} × index ∈ {si, di, none} without (none, none), and reaches every code 0..7 |
| Hex.ToHexValue | src/parser.rs:12-20 | the shortest lower-case hex spelling of a number reads back as that number |
| Hex.UpperHex | src/memory.rs:74-79 | `{:0wX}` gives exactly w upper-case hex digits |
| Hex.UpperHexValue | src/memory.rs:74-79 | the zero-padded upper-case spelling reads back as the number |
| Parser.FromStrRadix16 | src/parser.rs:14 | succeeds exactly when the text without one leading '+' is one or more hex digits worth at most 0xFFFF, and the value is then the value of those digits |
| Parser.ImmToNum | src/parser.rs:12-20 | success needs the `0x` prefix or the `h` suffix; "not a valid hex format" exactly when neither form is present; every other failure is "Invalid hex number" |
| Parser.ImmToNumReadsDigits | src/parser.rs:12-20 | an immediate parses exactly when it has the `0x` prefix or the `h` suffix and the digits inside (after an optional '+') are one or more hex digits worth at most 0xFFFF; the value is then the value of those digits |
| Parser.PrefixFormRoundTrip | src/parser.rs:13-14 | every 16-bit n written `0x` + hex(n) parses back to n |
| Parser.SuffixFormRoundTrip | src/parser.rs:15-16 | every 16-bit n written hex(n) + `h` parses back to n |
| Parser.TooLargeIsInvalid | src/parser.rs:14-16 | hex digits worth more than 0xFFFF give "Invalid hex number" in both the prefix and the suffix form |
| Parser.DecimalRejected | src/parser.rs:17-18 | a string of decimal digits is "not a valid hex format" |
| Parser.ImmToNumExamples | src/parser.rs:262-269 | "0x1a3"→0x1a3, "123h"→0x123, "0abch"→0xabc, "045h"→0x45, "0xghi"→Invalid hex number (the unit test), and also "1234"→not hex format, the decimal input the grammar test at src/parser.rs:76-79 expects to be refused |
| Parser.ImmOperandToNum | src/parser.rs:22-28 | a non-imm node is the "something else" error; an imm node parses its text |
| Parser.Find | src/parser.rs:34-35 | the first index holding the character, or None when it does not occur |
| Parser.FindIsFirst | src/parser.rs:34-35 | a position holding the character with none before it is what find returns |
| Parser.MemToNum | src/parser.rs:30-43 | an address exactly when the first '[' precedes the first ']', and it is the parse of the text between them; otherwise the "no valid number" error |
| Parser.MemToNumOfBracketed | src/parser.rs:34-39 | `prefix[imm]suffix` with no bracket in prefix and no ']' in imm gives the value of imm |
| Parser.MemToNumWordPtrExample | src/parser.rs:224-226 | "word ptr [0x1234]" gives 0x1234 |
| Parser.MemToNumBytePtrExample | src/parser.rs:240-242 | "byte ptr [12h]" gives 0x12 |
| Parser.MemToNumWithoutBrackets | src/parser.rs:34-42 | text missing '[' or ']' gives the "no valid number" error |
| Mem.Load16 | src/memory.rs:44-48 | the word at a has the byte at a as its low byte and the byte at a+1 as its high byte |
| Mem.Store16 | src/memory.rs:57-63 | the low byte goes to a, the high byte to a+1, and every other byte is kept |
| Mem.Load16OfStore16 | src/memory.rs:44-63 | reading a word back after storing it gives the word |
| Mem.Store16OfLoad16 | src/memory.rs:44-63 | storing the word just read changes nothing |
| Mem.Cell | src/memory.rs:76-83 | a dump cell is two digits plus a space, except the last, which has no space |
| Mem.Cells | src/memory.rs:76-84 | k cells are 3k characters, one fewer when they end the row |
| Mem.Row | src/memory.rs:72-86 | a dump row is 53 characters |
| Mem.CellAt | src/memory.rs:76-84 | byte j sits at offset 3j in two upper-case digits, followed by a space unless it is the last |
| Mem.RowLayout | src/memory.rs:72-86 | the row is five address digits, a space, then byte j at column 6+3j, separated by single spaces |
| Mem.RowDecodes | src/memory.rs:72-86 | reading the address field and every byte field of the row back as hex gives the address and the bytes |
| Mem.Memory.Boot | src/memory.rs:12-20 | all bytes zero, cursor 0 |
| Mem.Memory.Reboot | src/memory.rs:22-25 | every byte zero again, cursor 0 |
| Mem.Memory.Read8 | src/memory.rs:40-43 | returns the byte at the address and moves the cursor there; no byte changes |
| Mem.Memory.Read16 | src/memory.rs:44-48 | returns the little-endian word at the address (below 0xFFFF) and moves the cursor; no byte changes |
| Mem.Memory.Write8 | src/memory.rs:51-55 | the byte at the address becomes the value, no other byte changes, and the cursor moves |
| Mem.Memory.Write16 | src/memory.rs:57-63 | the word is stored low byte first at the address, no other byte changes, and the cursor moves |
| Mem.Memory.DebugRow | src/memory.rs:67-88 | the loop builds exactly the dump row of the 16 bytes at the cursor |
| Mem.RowExample | src/memory.rs:146-151 | the row of 0x100 after writing 0xABCD there is "00100 CD AB 00 … 00" |
| Mem.DumpAfterWordWrite | src/memory.rs:146-151 | boot, write16(0x100, 0xABCD), then dump: "00100 CD AB 00 00 00 00 00 00 00 00 00 00 00 00 00 00" |
| Mem.ByteAccessTest | src/memory.rs:117-127 | two byte writes read back as written, and the cursor follows every access |
| Mem.WordAccessTest | src/memory.rs:130-143 | bytes CD AB read as 0xABCD, and writing 0xABCD stores CD then AB |
| Cpu.WithFlag | src/add.rs:156-172 | the chosen flag bit takes the given value and the word is otherwise unchanged |
| Cpu.WithFlagKeepsOther | src/add.rs:156-172 | writing OF keeps CF and writing CF keeps OF |
| Cpu.CpuContext.Boot | src/cpucontext.rs:10-20 | every register and the flag word are zero, as the `#[derive(Default)]` gives; `boot()` itself is not in the source |
| Cpu.CpuContext.ReadReg | src/cpucontext.rs:45-50 | read_reg("ax") is the value of ax; other names are excluded because they panic |
| Cpu.CpuContext.WriteReg | src/cpucontext.rs:45-57 | writing "ax" changes only ax, and read_reg("ax") then returns the value; other names are excluded because they panic |
| Cpu.CpuContext.SetRegister | src/inc.rs:152-153 | only the named register changes, and it reads back as the value |
| Cpu.CpuContext.GetOF | src/add.rs:291-302 | OF is bit 11 of the flag word: set exactly when the low twelve bits of the word reach 0x800 |
| Cpu.CpuContext.GetCF | src/add.rs:305-317 | CF is bit 0 of the flag word: set exactly when the word is odd |
| Cpu.CpuContext.SetOF | src/add.rs:156-159 | OF set, CF and every other bit kept |
| Cpu.CpuContext.ResetOF | src/add.rs:160-162 | OF cleared, CF and every other bit kept |
| Cpu.CpuContext.SetCF | src/add.rs:168-169 | CF set, OF and every other bit kept |
| Cpu.CpuContext.ResetCF | src/add.rs:170-172 | CF cleared, OF and every other bit kept |
| Cpu.BootThenWriteAx | src/cpucontext.rs:45-57 | ax reads 0 after boot and v after write_reg("ax", v) |
| Add.Overflow16IsSignedOverflow | src/add.rs:153-162 | the sign-bit overflow rule holds exactly when the signed sum leaves [-0x8000, 0x7FFF], i.e. when the truncated result read as signed differs from the signed sum |
| Add.Carry16Characterised | src/add.rs:164-172 | the written CF rule holds iff the sum carries out of bit 15 and the truncated sum is below 0x8000; CF implies a carry out |
| Add.Carry16MissesWideCarry | src/add.rs:168-172 | 0xFFFF + 0xFFFF carries out but leaves CF clear |
| Add.Carry16IntendedIsCarryOut | src/add.rs:164-168 | the corrected CF is exactly a carry out of bit 15: the full sum is the truncated sum plus 0x10000 times CF; it holds wherever the written rule does, and also for 0xFFFF + 0xFFFF |
| Add.FlagsAfterAdd16 | src/add.rs:156-172 | OF and CF get the two rules, and every other flag bit is kept |
| Add.DoAdd16 | src/add.rs:147-175 | returns (l + r) mod 2^16; OF and CF follow the two rules; nothing else in the CPU changes |
| Add.AdderTestCases | src/add.rs:285-318 | OF on 0x7FFF+0x7FFF and 0x7FFF+1; on 0xFFFF+1 CF is set and OF clear; on 1+1 both are clear |
| Add.AddFlagTests | src/add.rs:285-318 | the adder unit tests, run in order on one CPU, observe those flags |
| Add.Overflow8IsSignedOverflow | src/add.rs:184-193 | the 8-bit sign rule holds exactly when the truncated result read as signed differs from the signed sum |
| Add.Carry8NeverSet | src/add.rs:199-203 | the 8-bit carry test can never hold |
| Add.Carry8IntendedIsCarryOut | src/add.rs:195-199 | the corrected 8-bit CF is exactly a carry out of bit 7: the full sum is the truncated sum plus 0x100 times CF; 0xFF + 0x01 sets it while the written test does not |
| Add.DoAdd8 | src/add.rs:178-206 | returns (l + r) mod 256; OF by the sign rule; CF always cleared |
| Add.AssembleAdd | src/add.rs:87-145 | add ax,imm is 05 with the immediate low byte first; reg,reg is 03 and a MOD-11 byte with REG and R/M decoding to the two registers; reg,imm is 81 and a MOD-10 byte whose R/M decodes to the register, then the immediate; the memory and indirect forms give no bytes |
| Add.AssembleAddRegRegInjective | src/add.rs:98-109 | two reg,reg additions with the same bytes have the same registers |
| Add.AssembleAddRegImmSelectsMemory | src/add.rs:110-122 | `add cx, imm` encodes a ModR/M byte 0x81 with MOD 10, which the 8086 reads as a memory operand |
| Add.AssembleAddRegImmIntended | src/add.rs:110-122 | the corrected reg,imm encoding has MOD 11, REG 000, R/M naming the register, and the immediate low byte first |
| Add.AssembleAddRegImmIntendedInjective | src/add.rs:110-122 | the corrected encoding determines the register |
| Add.FormOf | src/add.rs:209-278 | the branch the handler takes: first the text tests for ax,imm and al,imm, then the operand rules |
| Add.AddIntoRegister | src/add.rs:227-232 | the destination register becomes the truncated sum, the flags follow the adder, and memory is kept |
| Add.AddMemoryIntoRegister | src/add.rs:239-245 | the memory word plus the register goes into the register, and the cursor moves to the address |
| Add.AddIntoMemory | src/add.rs:262-269 | the memory word plus the immediate is written back to the same address, and the flags follow the adder |
| Add.HandleAdd | src/add.rs:208-279 | the new registers, flags, memory and cursor are exactly AddSpec of the old ones |
| Add.AddRegRegEffect | src/add.rs:227-232 | any two 16-bit registers are a supported form; the first register gets the sum, a distinct second register and memory are kept, and OF is set iff the result read as signed is not the signed sum |
| Add.AddToRegisterEffect | src/add.rs:227-238 | storing a sum in a register changes only that register, keeps memory and cursor, and sets OF exactly when the stored value read as signed is not the signed sum |
| Add.AddRegImmEffect | src/add.rs:209-238 | the register gets register + immediate, and every other register and memory are kept |
| Add.AddMemImmEffect | src/add.rs:262-269 | the word reads back as memory word + immediate, no other byte or register changes, and the cursor is at the address |
| Add.AddToMemoryEffect | src/add.rs:262-269 | storing a sum: the word reads back as the sum, and every other byte and register is kept |
| Add.AddRegMemEffect | src/add.rs:239-245 | the register gets memory word + register, the bytes are kept, and the cursor moves to the address |
| Add.AddByteFormsUnchanged | src/add.rs:216-275 | add al,imm and every 8-bit form leave the whole machine unchanged |
| Inc.RegisterTable | src/inc.rs:93-105 | succeeds exactly for the sixteen register names |
| Inc.RegisterTableAgrees | src/inc.rs:93-105 | the copy equals the assembler's table on every input, error text included |
| Inc.BaseIndexTable | src/inc.rs:107-115 | accepts only (bx, si), with code 0; everything else is the Debug-rendered error |
| Inc.BaseIndexTableIsRestriction | src/inc.rs:107-115 | the assembler's table gives the same answer wherever the copy accepts, and the same error wherever both reject |
| Inc.AssembleInc | src/inc.rs:127-145 | reg16 is one byte: 01000 then the register code; reg8 is FE then a MOD-11, REG-000 byte whose R/M is the register code |
| Inc.DecodeAssembleInc | src/inc.rs:127-145 | every register operand decodes back from its encoding |
| Inc.AssembleIncExamples | src/inc.rs:176-203 | `inc di` is 47 and `inc dl` is FE C2 |
| Inc.IncSpec | src/inc.rs:147-166 | the named register grows by one, and every other register is kept |
| Inc.IncRegister | src/inc.rs:149-160 | reading a register and storing it back one larger gives the registers IncSpec describes |
| Inc.HandleInc | src/inc.rs:147-166 | the registers become IncSpec of the old registers, and the flag word is kept |
| Inc.IncMatchesEncoding | src/inc.rs:127-160 | the register the handler increments is the one its encoding names |
| Inc.IncTwiceFromBoot | src/inc.rs:149-154 | two increments of di from boot leave di at 2 and si at 0 |

## Left out

- `src/main.rs`, `src/_gui_trial.rs` and the handler-generating macros of `src/common.rs` are not part of this model. They are the HTTP driver, the GUI and code generation, not machine semantics.
- `src/mov.rs`, `src/org.rs` and `src/jmp.rs` are not part of this model. Their handlers only print, so they change no state.
- The pest grammar is not part of this model. An operand node is the `Parser.Operand` datatype holding the rule it matched and its text.
- Printing is not modelled. This covers the dump printed after every write and the code and messages the handlers print.
- The full 1 MiB `Display` dump is not modelled. It is `Mem.Row` repeated over every 16-byte row, one row per line.
- `RefCell` mechanics are not modelled. The cursor is a plain field that reads also update.
- `Memory::get` is not modelled. It only clones the array.
- Add.HandleAdd: the `mem16, reg16` branch is excluded by its precondition. That branch reads the register named by the memory operand's own text.
- Cpu.CpuContext: `get_register16`, `set_register16`, `get_register`, `set_register` and the flag primitives are called but not defined in the code.
  - They are modelled as a name→u16 map and four flag writers.
  - The 8-bit registers are independent slots. Composing ah/al into ax is not modelled.
- Add.DoAdd8: the set-CF branch can never run, so the method clears CF directly. `Add.Carry8NeverSet` proves that the branch's condition never holds.
- Parser.MemToNum returns the u16 it parsed. The code widens it to `usize`, and its callers use it as a u16 address.
- Mem.Memory.Write8, Mem.Memory.Write16, Add.AddIntoMemory: the debug print after each write (src/memory.rs:54, 62) is dropped, and with it the panic of its formatter, which computes `start + 0xf` in u16 (src/memory.rs:73) and overflows in a debug build for an address above 0xFFF0. These members accept such addresses.
- Cpu.CpuContext.GetOF, Cpu.CpuContext.GetCF return a boolean; the code's getters return a number that the tests compare with 0.
- Assembler.DebugOption renders `Some("…")` without escaping quotes or backslashes inside the name.

## Findings

| source | as written | input that shows it | evidently intended | confidence | as-written member | corrected member |
|---|---|---|---|---|---|---|
| src/assembler.rs:20 | the entry for R/M code 3 has the index spelt "fi" | (Some("bp"), Some("di")) is rejected, while (Some("bp"), Some("fi")) gives 3 | (bp, di) → 3, as in the 8086 R/M table in the comments of src/add.rs:47-56 | high, not executed | Assembler.BaseIndexTableRejectsBpDi | Assembler.BaseIndexTableIntendedBijective |
| src/add.rs:115 | `add reg16, imm` writes MOD 10 in the ModR/M byte | `add cx, 0x1234` gives 81 81 34 12, which the 8086 decodes as `add word [bx+di+1234h], imm` | MOD 11 (register operand): 81 C1 34 12 | medium, not executed | Add.AssembleAddRegImmSelectsMemory | Add.AssembleAddRegImmIntended |
| src/add.rs:168 | `do_add16` sets CF only when bit 16 of the sum is set and bit 15 is clear | 0xFFFF + 0xFFFF = 0x1FFFE carries out of bit 15, but bit 15 of the sum is set, so CF stays clear | CF is bit 16 of the untruncated sum, the carry out the comment at lines 164-167 describes | medium, not executed | Add.Carry16MissesWideCarry | Add.Carry16IntendedIsCarryOut |
| src/add.rs:199 | `_do_add8` tests `(r32 & 0x100) == 1`, and the masked value is 0 or 0x100 | 0xFF + 0x01 = 0x100 carries out, yet CF is cleared; no input sets it | `(r32 & 0x100) != 0`, bit 8 of the untruncated sum | high, not executed | Add.Carry8NeverSet | Add.Carry8IntendedIsCarryOut |
