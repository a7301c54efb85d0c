/**
 * The flat byte memory of `src/memory.rs`: one mebibyte updated in place,
 * little-endian word access, a cursor holding the last address any access
 * used, and the one-row hex dump `{:?}` prints around that address.
 */
module Mem {
  import opened Common
  import opened Hex

  /** 1024 * 1024 bytes. */
  const MemorySize: nat := 0x10_0000

  /** The word stored little-endian at `a`: `m[a] | m[a + 1] << 8`. */
  function Load16(m: seq<u8>, a: int): (v: u16)
    requires 0 <= a < |m| - 1
    ensures LowByte(v) == m[a] && HighByte(v) == m[a + 1]
  {
    Word(m[a], m[a + 1])
  }

  /** `m` with the word `v` stored little-endian at `a`, low byte first. */
  function Store16(m: seq<u8>, a: int, v: u16): (m': seq<u8>)
    requires 0 <= a < |m| - 1
    ensures |m'| == |m|
    ensures m'[a] == LowByte(v) && m'[a + 1] == HighByte(v)
    ensures forall i :: 0 <= i < |m| && i != a && i != a + 1 ==> m'[i] == m[i]
  {
    m[a := LowByte(v)][a + 1 := HighByte(v)]
  }

  /** Reading back a stored word gives the word. */
  lemma Load16OfStore16(m: seq<u8>, a: int, v: u16)
    requires 0 <= a < |m| - 1
    ensures Load16(Store16(m, a, v), a) == v
  {
    WordOfBytes(v);
  }

  /** Storing the word just loaded changes nothing. */
  lemma Store16OfLoad16(m: seq<u8>, a: int)
    requires 0 <= a < |m| - 1
    ensures Store16(m, a, Load16(m, a)) == m
  {
  }

  /** One dump cell: a byte in two upper-case digits, then a space unless it is the last. */
  function Cell(bs: seq<u8>, j: nat): (c: string)
    requires j < |bs|
    ensures |c| == if j == |bs| - 1 then 2 else 3
  {
    UpperHex(bs[j], 2) + (if j != |bs| - 1 then " " else "")
  }

  /** The first `k` cells of a dump row. */
  function Cells(bs: seq<u8>, k: nat): (r: string)
    requires k <= |bs|
    ensures |r| == if 0 < k == |bs| then 3 * k - 1 else 3 * k
  {
    if k == 0 then "" else Cells(bs, k - 1) + Cell(bs, k - 1)
  }

  /** Byte `k` of the row appends its own cell to the first `k` cells. */
  lemma CellOf(bs: seq<u8>, k: nat, d: u8)
    requires k < |bs| && d == bs[k]
    ensures Pow16(2) == 0x100
    ensures Cells(bs, k + 1) == Cells(bs, k) + UpperHex(d, 2) + (if k != |bs| - 1 then " " else "")
  {
    Pow16Widths();
  }

  /** The dump row of 16 bytes starting at `start`: `{:05X}`, a space, the cells. */
  function Row(start: u16, bs: seq<u8>): (r: string)
    requires |bs| == 16
    ensures |r| == 53
  {
    Pow16Widths();
    UpperHex(start, 5) + " " + Cells(bs, 16)
  }

  /** Byte `j` sits at cell offset `3 * j`, followed by a space unless it is the last. */
  lemma {:induction false} CellAt(bs: seq<u8>, k: nat, j: nat)
    requires j < k <= |bs|
    ensures Cells(bs, k)[3 * j .. 3 * j + 2] == UpperHex(bs[j], 2)
    ensures j < |bs| - 1 ==> Cells(bs, k)[3 * j + 2] == ' '
  {
    var prev := Cells(bs, k - 1);
    assert Cells(bs, k) == prev + Cell(bs, k - 1);
    if j < k - 1 {
      CellAt(bs, k - 1, j);
      assert Cells(bs, k)[3 * j .. 3 * j + 2] == prev[3 * j .. 3 * j + 2];
    }
  }

  /**
   * The dump row is 53 characters: the five-digit address, a space, then the
   * sixteen two-digit bytes separated by single spaces, with no trailing space.
   */
  lemma RowLayout(start: u16, bs: seq<u8>, j: nat)
    requires |bs| == 16 && j < 16
    ensures Row(start, bs)[..5] == UpperHex(start, 5) && Row(start, bs)[5] == ' '
    ensures Row(start, bs)[6 + 3 * j .. 8 + 3 * j] == UpperHex(bs[j], 2)
    ensures j < 15 ==> Row(start, bs)[8 + 3 * j] == ' '
  {
    var r := Row(start, bs);
    var cells := Cells(bs, 16);
    Pow16Widths();
    assert r == UpperHex(start, 5) + " " + cells;
    CellAt(bs, 16, j);
    assert r[6 + 3 * j .. 8 + 3 * j] == cells[3 * j .. 3 * j + 2];
  }

  /** Reading the row's hex fields back recovers the address and every byte. */
  lemma RowDecodes(start: u16, bs: seq<u8>, j: nat)
    requires |bs| == 16 && j < 16
    ensures AllHex(Row(start, bs)[..5]) && HexValue(Row(start, bs)[..5]) == start
    ensures AllHex(Row(start, bs)[6 + 3 * j .. 8 + 3 * j]) && HexValue(Row(start, bs)[6 + 3 * j .. 8 + 3 * j]) == bs[j]
  {
    RowLayout(start, bs, j);
    Pow16Widths();
    UpperHexValue(start, 5);
    UpperHexValue(bs[j], 2);
  }

  class Memory {
    var data: array<u8>
    var lastAddress: u16

    ghost predicate Valid()
      reads this
    {
      data.Length == MemorySize
    }

    /** `Memory::boot`: all bytes zero, cursor at 0. */
    constructor Boot()
      ensures Valid() && fresh(data)
      ensures lastAddress == 0
      ensures forall i :: 0 <= i < data.Length ==> data[i] == 0
    {
      data := new u8[MemorySize](_ => 0);
      lastAddress := 0;
    }

    /** `reboot`: zero every byte in place and put the cursor back at 0. */
    method Reboot()
      requires Valid()
      modifies this`lastAddress, data
      ensures Valid()
      ensures lastAddress == 0
      ensures forall i :: 0 <= i < data.Length ==> data[i] == 0
    {
      forall i | 0 <= i < data.Length {
        data[i] := 0;
      }
      lastAddress := 0;
    }

    /** `read8`: the byte at `address`; the cursor moves there. */
    method Read8(address: u16) returns (v: u8)
      requires Valid()
      modifies this`lastAddress
      ensures Valid()
      ensures v == data[address]
      ensures lastAddress == address
    {
      lastAddress := address;
      v := data[address];
    }

    /**
     * `read16`: the little-endian word at `address`.  `address + 1` is a u16
     * sum in the source, so the last address 0xFFFF is excluded.
     */
    method Read16(address: u16) returns (v: u16)
      requires Valid() && address < 0xFFFF
      modifies this`lastAddress
      ensures Valid()
      ensures v == Load16(data[..], address)
      ensures lastAddress == address
    {
      lastAddress := address;
      var lo: int, hi: int := data[address], data[address + 1];
      v := lo + hi * 0x100;
    }

    /** `write8`: store one byte; nothing else changes. */
    method Write8(address: u16, value: u8)
      requires Valid()
      modifies this`lastAddress, data
      ensures Valid()
      ensures data[..] == old(data[..])[address := value]
      ensures lastAddress == address
    {
      lastAddress := address;
      data[address] := value;
    }

    /** `write16`: store a word little-endian, low byte first; nothing else changes. */
    method Write16(address: u16, value: u16)
      requires Valid() && address < 0xFFFF
      modifies this`lastAddress, data
      ensures Valid()
      ensures data[..] == Store16(old(data[..]), address, value)
      ensures lastAddress == address
    {
      lastAddress := address;
      data[address] := value % 0x100;
      data[address + 1] := value / 0x100;
    }

    /**
     * The `Debug` formatter: the dump row of the 16 bytes starting at the
     * cursor.  `start + 0xf` is a u16 sum in the source, so the cursor must
     * not pass 0xFFF0.
     */
    method DebugRow() returns (s: string)
      requires Valid() && lastAddress <= 0xFFF0
      ensures s == Row(lastAddress, data[lastAddress .. lastAddress + 16])
    {
      var start: int := lastAddress;
      var end := start + 0xf;
      ghost var bs := data[start .. start + 16];
      var cells := "";
      var i := start;
      while i <= end
        invariant start <= i <= end + 1
        invariant cells == Cells(bs, i - start)
      {
        CellOf(bs, i - start, data[i]);
        cells := cells + UpperHex(data[i], 2) + (if i != end then " " else "");
        i := i + 1;
      }
      Pow16Widths();
      s := UpperHex(start, 5) + " " + cells;
    }
  }

  /** The sixteen bytes at 0x100 after writing 0xABCD there in a zeroed memory. */
  const WordAt100: seq<u8> := [0xCD, 0xAB, 0, 0, 0, 0, 0, 0, 0, 0, 0, 0, 0, 0, 0, 0]

  /** The three byte spellings of the example row. */
  lemma ExampleDigits()
    ensures UpperHex(0xCD, 2) == "CD" && UpperHex(0xAB, 2) == "AB" && UpperHex(0, 2) == "00"
  {
  }

  /** The example row's address field. */
  lemma ExampleAddress()
    ensures UpperHex(0x100, 5) == "00100"
  {
    Pow16Widths();
    assert Pow16(3) == 0x1000 && Pow16(4) == 0x1_0000;
    assert UpperHex(0, 2) == "00";
    assert UpperHex(1, 3) == "001";
    assert UpperHex(0x10, 4) == "0010";
  }

  /** The example row up to its first 2 cells. */
  lemma ExamplePrefix2()
    ensures "00100 " + Cells(WordAt100, 2) == "00100 CD AB "
  {
    ExampleDigits();
    assert "00100 " + Cells(WordAt100, 1) == "00100 CD ";
  }

  /** The example row up to its first 4 cells. */
  lemma ExamplePrefix4()
    ensures "00100 " + Cells(WordAt100, 4) == "00100 CD AB 00 00 "
  {
    ExampleDigits();
    ExamplePrefix2();
    assert "00100 " + Cells(WordAt100, 3) == "00100 CD AB 00 ";
  }

  /** The example row up to its first 6 cells. */
  lemma ExamplePrefix6()
    ensures "00100 " + Cells(WordAt100, 6) == "00100 CD AB 00 00 00 00 "
  {
    ExampleDigits();
    ExamplePrefix4();
    assert "00100 " + Cells(WordAt100, 5) == "00100 CD AB 00 00 00 ";
  }

  /** The example row up to its first 8 cells. */
  lemma ExamplePrefix8()
    ensures "00100 " + Cells(WordAt100, 8) == "00100 CD AB 00 00 00 00 00 00 "
  {
    ExampleDigits();
    ExamplePrefix6();
    assert "00100 " + Cells(WordAt100, 7) == "00100 CD AB 00 00 00 00 00 ";
  }

  /** The example row up to its first 10 cells. */
  lemma ExamplePrefix10()
    ensures "00100 " + Cells(WordAt100, 10) == "00100 CD AB 00 00 00 00 00 00 00 00 "
  {
    ExampleDigits();
    ExamplePrefix8();
    assert "00100 " + Cells(WordAt100, 9) == "00100 CD AB 00 00 00 00 00 00 00 ";
  }

  /** The example row up to its first 12 cells. */
  lemma ExamplePrefix12()
    ensures "00100 " + Cells(WordAt100, 12) == "00100 CD AB 00 00 00 00 00 00 00 00 00 00 "
  {
    ExampleDigits();
    ExamplePrefix10();
    assert "00100 " + Cells(WordAt100, 11) == "00100 CD AB 00 00 00 00 00 00 00 00 00 ";
  }

  /** The example row up to its first 14 cells. */
  lemma ExamplePrefix14()
    ensures "00100 " + Cells(WordAt100, 14) == "00100 CD AB 00 00 00 00 00 00 00 00 00 00 00 00 "
  {
    ExampleDigits();
    ExamplePrefix12();
    assert "00100 " + Cells(WordAt100, 13) == "00100 CD AB 00 00 00 00 00 00 00 00 00 00 00 ";
  }

  /** The example row up to its first 16 cells. */
  lemma ExamplePrefix16()
    ensures "00100 " + Cells(WordAt100, 16) == "00100 CD AB 00 00 00 00 00 00 00 00 00 00 00 00 00 00"
  {
    ExampleDigits();
    ExamplePrefix14();
    assert "00100 " + Cells(WordAt100, 15) == "00100 CD AB 00 00 00 00 00 00 00 00 00 00 00 00 00 ";
  }

  /** The row the memory unit test expects after writing 0xABCD at 0x100 of a zeroed memory. */
  lemma RowExample()
    ensures Row(0x100, WordAt100) == "00100 CD AB 00 00 00 00 00 00 00 00 00 00 00 00 00 00"
  {
    Pow16Widths();
    ExampleAddress();
    ExamplePrefix16();
    assert Row(0x100, WordAt100) == UpperHex(0x100, 5) + " " + Cells(WordAt100, 16);
    assert "00100" + " " == "00100 ";
  }

  /** The memory unit test: boot, write 0xABCD at 0x100, dump the row at the cursor. */
  method DumpAfterWordWrite() returns (s: string)
    ensures s == "00100 CD AB 00 00 00 00 00 00 00 00 00 00 00 00 00 00"
  {
    var memory := new Memory.Boot();
    memory.Write16(0x100, 0xabcd);
    s := memory.DebugRow();
    assert memory.data[0x100 .. 0x110] == WordAt100;
    RowExample();
  }

  /** The byte test: two byte writes, two byte reads, the cursor following each access. */
  method ByteAccessTest() returns (last1: u16, last2: u16, b0: u8, last3: u16, b1: u8, last4: u16)
    ensures last1 == 0 && last2 == 1
    ensures b0 == 0xAB && last3 == 0 && b1 == 0xCD && last4 == 1
  {
    var memory := new Memory.Boot();
    memory.Write8(0, 0xAB);
    last1 := memory.lastAddress;
    memory.Write8(1, 0xCD);
    last2 := memory.lastAddress;
    b0 := memory.Read8(0);
    last3 := memory.lastAddress;
    b1 := memory.Read8(1);
    last4 := memory.lastAddress;
  }

  /** The word test: bytes CD AB read as the word 0xABCD, and the word 0xABCD written as CD then AB. */
  method WordAccessTest() returns (w: u16, last: u16, lo: u8, hi: u8)
    ensures w == 0xABCD && last == 0 && lo == 0xCD && hi == 0xAB
  {
    var memory := new Memory.Boot();
    memory.Write8(0, 0xCD);
    memory.Write8(1, 0xAB);
    w := memory.Read16(0);
    last := memory.lastAddress;
    memory.Write16(0, 0xABCD);
    lo := memory.Read8(0);
    hi := memory.Read8(1);
  }
}
