/** Go value types the waiting room relies on: the `uint32` counters, whose
    `++` wraps silently at 2^32, and an optional value for "cookie present or not". */
module GoTypes {

  const Uint32Modulus: int := 0x1_0000_0000

  newtype uint32 = x: int | 0 <= x < 0x1_0000_0000

  datatype Option<T> = None | Some(value: T)

  /** Go's `x++` on a `uint32`: the successor modulo 2^32. */
  function Inc32(x: uint32): (r: uint32)
    ensures r as int == (x as int + 1) % Uint32Modulus
  {
    if x == 0xFFFF_FFFF then 0 else x + 1
  }

  /** The value of a counter that started at `x` after `k` increments. */
  function Advance(x: uint32, k: nat): uint32
  {
    if k == 0 then x else Inc32(Advance(x, k - 1))
  }

  /** Incrementing first and then `k` more times is `k + 1` increments. */
  lemma {:induction false} AdvanceShift(x: uint32, k: nat)
    ensures Advance(Inc32(x), k) == Advance(x, k + 1)
  {
    if k > 0 {
      AdvanceShift(x, k - 1);
    }
  }

  /** As long as no wrap-around happens, `k` increments add exactly `k`. */
  lemma {:induction false} AdvanceNoWrap(x: uint32, k: nat)
    requires x as int + k < Uint32Modulus
    ensures Advance(x, k) as int == x as int + k
  {
    if k > 0 {
      AdvanceNoWrap(x, k - 1);
    }
  }

  /** After 2^32 increments from 0 the counter is 0 again, and the next one gives 1. */
  lemma AdvanceWraps()
    ensures Advance(0, Uint32Modulus) == 0
    ensures Advance(0, Uint32Modulus + 1) == 1
  {
    AdvanceNoWrap(0, Uint32Modulus - 1);
  }
}
