/**
 * The machine's value types: 32-bit words, bytes and register indices,
 * with the unsigned C conversions that the interpreter relies on.
 */
module Words {

  /** uint32_t: the only value type of the machine. */
  type Word = x: int | 0 <= x < 0x1_0000_0000

  /** One byte of a program image, of standard input or of standard output. */
  type Byte = x: int | 0 <= x < 0x100

  /** A register number, as carried by a 3-bit instruction field. */
  type RegIndex = x: int | 0 <= x < 8

  const WORD_MODULUS: int := 0x1_0000_0000
  const ALL_ONES: Word := 0xFFFF_FFFF

  /** Conversion of a mathematical integer to uint32_t (reduction modulo 2^32). */
  function ToWord(x: int): Word
  {
    x % WORD_MODULUS
  }

  /** C's `~(x & y)` on uint32_t. */
  function Nand(x: Word, y: Word): Word
  {
    (!((x as bv32) & (y as bv32))) as int
  }

  /** NAND with an all-zero operand is all ones: the idiom the test programs use to build ~0. */
  lemma NandWithZero(y: Word)
    ensures Nand(0, y) == ALL_ONES && Nand(y, 0) == ALL_ONES
  {
    assert (0 as bv32) & (y as bv32) == 0;
    assert (y as bv32) & (0 as bv32) == 0;
  }

  /**
   * Decrementing and then incrementing a uint32_t gives back the value,
   * wrap-around included: Load Program's `pc--` followed by the loop's `pc++`.
   */
  lemma DecrementThenIncrement(x: Word)
    ensures ToWord(ToWord(x - 1) + 1) == x
  {
    if x == 0 {
      assert ToWord(x - 1) == ALL_ONES;
    } else {
      assert ToWord(x - 1) == x - 1;
    }
  }
}
