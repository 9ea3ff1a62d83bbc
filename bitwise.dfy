/** Go's `|` on integers in two's complement, and the bit it tests. */
module Bitwise {
  import opened Hex

  /** Bit `k` of `x` in two's complement: the sign bit extends without end to the left. */
  predicate Bit(x: int, k: nat)
    decreases k
  {
    if k == 0 then x % 2 == 1 else Bit(x / 2, k - 1)
  }

  /**
   * `x | y` for a non-negative `y`, bit by bit from the least significant one. Dafny's `/`
   * and `%` by 2 are floor division and a remainder in `{0, 1}`, so negative `x` behaves as
   * an infinitely sign-extended two's complement number.
   */
  function Or(x: int, y: nat): int
    decreases y
  {
    if y == 0 then x
    else (if x % 2 == 1 || y % 2 == 1 then 1 else 0) + 2 * Or(x / 2, y / 2)
  }

  /** Or-ing in a single-bit flag leaves `x` unchanged exactly when that bit is already set. */
  lemma {:induction false} OrFlagUnchanged(x: int, k: nat)
    ensures Or(x, Pow2(k)) == x <==> Bit(x, k)
    decreases k
  {
    assert x == x % 2 + 2 * (x / 2);
    if k == 0 {
      assert Or(x, 1) == 1 + 2 * (x / 2);
    } else {
      var p := Pow2(k - 1);
      assert Pow2(k) == 2 * p && (2 * p) % 2 == 0 && (2 * p) / 2 == p;
      assert Or(x, 2 * p) == x % 2 + 2 * Or(x / 2, p);
      OrFlagUnchanged(x / 2, k - 1);
    }
  }
}
