// The 64-bit machine arithmetic the service relies on. A release build wraps.
module MachineWords {

  const TWO_64: int := 0x1_0000_0000_0000_0000
  const TWO_63: int := 0x8000_0000_0000_0000

  type U64 = x: int | 0 <= x < TWO_64

  function Wrapped(x: int): U64 {
    x % TWO_64
  }

  /** Two's-complement reading of the low 64 bits. */
  function WrappedSigned(x: int): int {
    (x + TWO_63) % TWO_64 - TWO_63
  }

  function Abs(x: int): nat {
    if x < 0 then -x else x
  }

  lemma {:induction false} WrappedIsCongruent(x: int, y: int)
    requires (x - y) % TWO_64 == 0
    ensures Wrapped(x) == Wrapped(y)
  {
    var q := (x - y) / TWO_64;
    assert x == y + q * TWO_64;
  }
}
