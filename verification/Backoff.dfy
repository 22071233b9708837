/** Full-jitter exponential backoff with 64-bit doubling (internal/cellworker/backoff.go). */
module Backoff {
  import opened Prelude

  function Pow2(k: nat): nat { if k == 0 then 1 else 2 * Pow2(k - 1) }

  /** The bound after k doublings, in unbounded arithmetic. */
  function Bound(min: int, max: int, k: nat): int {
    if min * Pow2(k) <= max then min * Pow2(k) else max
  }

  lemma BoundDoubles(min: int, max: int, k: nat)
    requires 0 < min <= max
    ensures 0 < Bound(min, max, k) <= max
    ensures Bound(min, max, k + 1) == if 2 * Bound(min, max, k) <= max then 2 * Bound(min, max, k) else max
  {
    Positive(k);
    assert min * Pow2(k + 1) == 2 * (min * Pow2(k)) by { assert Pow2(k + 1) == 2 * Pow2(k); }
    assert min * Pow2(k) > 0;
  }

  lemma {:induction false} Positive(k: nat)
    ensures Pow2(k) > 0
  {
    if k > 0 { Positive(k - 1); }
  }

  lemma Drawn(draw: nat, n: nat)
    requires n > 0
    ensures draw < n ==> draw % n == draw
    ensures 0 <= draw % n < n
  {
  }

  class Backoff {
    const min: int64
    const max: int64
    var current: int64
    ghost var calls: nat

    /** With the configured 0 < min <= max, `current` is the bound after the Next calls made since the
        last Reset. */
    ghost predicate Valid()
      reads this
    {
      0 < min <= max ==> current == Bound(min, max, calls)
    }

    constructor (min: int64, max: int64)
      ensures this.min == min && this.max == max && current == min && calls == 0 && Valid()
    {
      this.min, this.max, current, calls := min, max, min, 0;
    }

    /** `draw` is the random source: Int63n(n) is draw modulo n. */
    method Next(draw: nat) returns (delay: int64)
      requires Valid()
      modifies this`current, this`calls
      ensures Valid()
      ensures old(current) <= 0 ==> delay == 0 && current == old(current) && calls == old(calls)
      ensures old(current) > 0 ==> 0 <= delay <= old(current) && calls == old(calls) + 1
      ensures 0 < old(current) < MAX64 && draw <= old(current) ==> delay == draw
      ensures old(current) > 0 && max > 0 ==> 0 < current <= max
      ensures 0 < min <= max ==> delay <= Bound(min, max, old(calls)) && current == Bound(min, max, old(calls) + 1)
    {
      if 0 < min <= max { BoundDoubles(min, max, calls); }
      if current <= 0 { return 0; }
      var ceiling := current;
      if ceiling == MAX64 {
        delay := draw % MAX64;
      } else {
        Drawn(draw, ceiling + 1);
        delay := draw % (ceiling + 1);
      }
      var next := Wrap(current * 2);
      if next > max || next <= 0 {
        next := max;
      }
      current := next;
      calls := calls + 1;
    }

    method Reset()
      modifies this`current, this`calls
      ensures current == min && calls == 0 && Valid()
    {
      current, calls := min, 0;
    }
  }
}
