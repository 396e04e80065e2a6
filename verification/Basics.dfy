/** What several parts of the model share. */
module Basics {
  datatype Option<+T> = None | Some(value: T)

  /** The number of values of a uint32_t. */
  const UINT32_MODULUS := 0x1_0000_0000

  function Min(a: int, b: int): int { if a < b then a else b }

  lemma SubsetSize<T>(a: set<T>, b: set<T>)
    requires a <= b
    ensures |a| <= |b|
  {
    assert b == a + (b - a);
  }
}
