/** 32-bit words: uint32_t and int32_t as ranges of integers. */
module Words {
  const WORD: nat := 0x1_0000_0000
  const HALF: nat := 0x8000_0000

  type Int32 = x: int | -0x8000_0000 <= x < 0x8000_0000
  type Word = w: int | 0 <= w < 0x1_0000_0000

  // The conversions between int32_t and uint32_t.
  function ToWord(x: Int32): Word {
    if x < 0 then x + WORD else x
  }

  function ToInt(w: Word): Int32 {
    if w < HALF then w else w - WORD
  }

  // Two's complement: the conversions keep the residue modulo 2^32, and undo each other.
  lemma WordOfInt(w: Word)
    ensures (ToInt(w) - w) % 0x1_0000_0000 == 0 && ToWord(ToInt(w)) == w
  {
  }

  lemma IntOfWord(x: Int32)
    ensures (ToWord(x) - x) % 0x1_0000_0000 == 0 && ToInt(ToWord(x)) == x
  {
  }
}
