/** The absent-or-present value used wherever the source has `null`/`undefined`. */
module Options {

  datatype Option<+T> = None | Some(value: T)
}

/** `Math.round` taken on exact rationals: the nearest integer, halves rounded up. */
module Rounding {

  function RoundHalfUp(x: real): (r: int)
    ensures r as real - 0.5 <= x < r as real + 0.5
  {
    (x + 0.5).Floor
  }

  /** The rounded value is the only integer within half a unit (halves going up). */
  lemma RoundHalfUpUnique(x: real, k: int)
    requires k as real - 0.5 <= x < k as real + 0.5
    ensures RoundHalfUp(x) == k
  {
    var r := RoundHalfUp(x);
    assert r as real - 0.5 <= x < r as real + 0.5;
    assert (r - k) as real < 1.0 && (k - r) as real < 1.0;
  }

  /** Rounding a value that lies between two integers stays between them. */
  lemma RoundHalfUpWithin(x: real, lo: int, hi: int)
    requires lo as real <= x <= hi as real
    ensures lo <= RoundHalfUp(x) <= hi
  {
  }
}
