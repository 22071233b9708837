/** Shared vocabulary: optional values, results, 64-bit two's complement integers, and applying steps in order. */
module Prelude {

  datatype Option<+T> = None | Some(value: T)

  datatype Result<+T, +E> = Ok(value: T) | Err(error: E)

  const MAX64 := 0x7FFF_FFFF_FFFF_FFFF
  const MIN64 := -0x8000_0000_0000_0000
  const TWO64 := 0x1_0000_0000_0000_0000

  type int64 = x: int | MIN64 <= x <= MAX64

  /** What a 64-bit register holds after an operation whose true result is x. */
  function Wrap(x: int): (r: int64)
    ensures MIN64 <= x <= MAX64 ==> r == x
    ensures MAX64 < x <= MAX64 + TWO64 ==> r == x - TWO64
    ensures MIN64 - TWO64 <= x < MIN64 ==> r == x + TWO64
  {
    (x - MIN64) % TWO64 + MIN64
  }

  /** The state after applying the steps one by one. */
  function Fold<S, T>(apply: (S, T) -> S, s: S, steps: seq<T>): S
    decreases |steps|
  {
    if steps == [] then s else Fold(apply, apply(s, steps[0]), steps[1..])
  }

  lemma {:induction false} FoldSplit<S, T>(apply: (S, T) -> S, s: S, a: seq<T>, b: seq<T>)
    ensures Fold(apply, s, a + b) == Fold(apply, Fold(apply, s, a), b)
    decreases |a|
  {
    if a == [] {
      assert a + b == b;
    } else {
      assert (a + b)[1..] == a[1..] + b;
      FoldSplit(apply, apply(s, a[0]), a[1..], b);
    }
  }
}
