/** 64-bit machine words and the integer operators the compiler emits for them. */
module Words {
  const MODULUS: int := 0x1_0000_0000_0000_0000
  const SIGN_BIT: int := 0x8000_0000_0000_0000

  type Word = x: int | 0 <= x < 0x1_0000_0000_0000_0000

  function Pow2(n: nat): (p: nat)
    ensures p >= 1
  {
    if n == 0 then 1 else 2 * Pow2(n - 1)
  }

  function Wrap(x: int): Word {
    x % MODULUS
  }

  /** The two's complement reading of a word. */
  function Signed(x: Word): int {
    if x >= SIGN_BIT then x - MODULUS else x
  }

  function FromBool(b: bool): Word {
    if b then 1 else 0
  }
}
