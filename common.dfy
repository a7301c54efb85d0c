/**
 * Shared vocabulary of the 8086 emulator model: the result type the Rust code
 * returns from fallible lookups, the optional type of the base/index table,
 * the machine integer widths, and the architectural register names.
 *
 * Machine integers are modelled as bounded `int`s.  Wherever the Rust code
 * masks or shifts, the model writes the arithmetic out: for a value `x` below
 * 2^16, `x & 0x8000 != 0` is `x >= 0x8000`, `x & 0xff` is `x % 0x100`,
 * `x >> 8` is `x / 0x100`, and `a | b << k` with `a < 2^k` is `a + b * 2^k`.
 */
module Common {

  /** Rust's `Result<T, String>`. */
  datatype Result<T> = Ok(value: T) | Err(msg: string)

  /** Rust's `Option<T>`. */
  datatype Option<T> = None | Some(value: T)

  type u8 = x: int | 0 <= x < 0x100
  type u16 = x: int | 0 <= x < 0x1_0000
  type u32 = x: int | 0 <= x < 0x1_0000_0000

  /** The sixteen-bit general registers, in register-code order. */
  const Reg16Names: set<string> := {"ax", "cx", "dx", "bx", "sp", "bp", "si", "di"}

  /** The eight-bit register halves, in register-code order. */
  const Reg8Names: set<string> := {"al", "cl", "dl", "bl", "ah", "ch", "dh", "bh"}

  /** No name is both a 16-bit and an 8-bit register. */
  lemma WidthsDisjoint(n: string)
    requires n in Reg16Names
    ensures n !in Reg8Names
  {
  }

  /** Low byte of a word: `(v & 0xff) as u8`. */
  function LowByte(v: u16): (b: u8)
    ensures b == v % 0x100
  {
    v % 0x100
  }

  /** High byte of a word: `((v & 0xff00) >> 8) as u8`. */
  function HighByte(v: u16): (b: u8)
    ensures b == v / 0x100
  {
    v / 0x100
  }

  /** Little-endian composition: `lo as u16 | (hi as u16) << 8`. */
  function Word(lo: u8, hi: u8): (v: u16)
    ensures LowByte(v) == lo && HighByte(v) == hi
  {
    lo + hi * 0x100
  }

  /** Splitting a word into its bytes and composing them again gives the word back. */
  lemma WordOfBytes(v: u16)
    ensures Word(LowByte(v), HighByte(v)) == v
  {
  }
}
