/** Machine integers as bounded mathematical ones. */
module Bytes {

  const WORD: int := 0x1_0000_0000

  type byte = x: int | 0 <= x < 256 witness 0
  type word = x: int | 0 <= x < WORD witness 0
  type dword = x: int | 0 <= x < WORD * WORD witness 0

  /** An int stored in a 32-bit unsigned field. */
  function U32(v: int): word { v % WORD }

  /** An int stored in an 8-bit unsigned field. */
  function U8(v: int): byte { v % 256 }

  function Low(v: dword): word { v % WORD }

  function High(v: dword): word { v / WORD }
}
