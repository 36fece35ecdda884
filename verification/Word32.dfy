/** 32-bit words. */
module Word32 {

  const WORD_LIMIT := 0x1_0000_0000

  type Word = x: nat | x < WORD_LIMIT

  const ALL_ONES: Word := 0xFFFF_FFFF

  /** `x + 1` in 32 bits. */
  function Inc(x: Word): Word {
    if x == ALL_ONES then 0 else x + 1
  }

  /** `x` reduced to 32 bits, for the range one addition or subtraction of words can reach. */
  function Wrap(x: int): Word
    requires -WORD_LIMIT < x < 2 * WORD_LIMIT
  {
    if x < 0 then x + WORD_LIMIT else if x < WORD_LIMIT then x else x - WORD_LIMIT
  }
}
