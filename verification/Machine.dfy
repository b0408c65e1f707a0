/** 32-bit unsigned words, whose arithmetic wraps around, and where a number lies among the multiples of another. */
module Machine {
  const WORD: nat := 0x1_0000_0000

  type uint32 = x: nat | x < WORD

  function Add32(a: uint32, b: uint32): uint32 { (a + b) % WORD }
  function Sub32(a: uint32, b: uint32): uint32 { (a + WORD - b) % WORD }

  lemma InWholes(u: nat, k: nat)
    requires k > 0
    ensures u / k * k <= u < u / k * k + k
  {}
}
