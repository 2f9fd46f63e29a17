/** The random-number source of the genetic search (the `rand` crate's `thread_rng`).
    Every draw is read from a caller-chosen tape, so any sequence of draws the real
    generator could produce is one run of this model. */
module Rand {

  class Rng {
    /** The values the generator hands out, one per draw. */
    const tape: nat -> nat
    /** How many draws have been taken so far. */
    var drawn: nat

    constructor (tape: nat -> nat)
      ensures this.tape == tape && drawn == 0
    {
      this.tape := tape;
      drawn := 0;
    }

    /** `gen_range(low, high)`: a value in the half-open range [low, high); the generator
        refuses (panics on) an empty range, so callers must pass low < high. */
    method GenRange(low: int, high: int) returns (r: int)
      requires low < high
      modifies this
      ensures low <= r < high
      ensures drawn == old(drawn) + 1
    {
      r := low + tape(drawn) % (high - low);
      drawn := drawn + 1;
    }

    /** `shuffle`: the Fisher-Yates walk from the last slot down to slot 1, swapping each
        slot with one drawn from the slots at or before it. The result is a permutation. */
    method Shuffle<T>(a: array<T>)
      modifies this, a
      ensures multiset(a[..]) == multiset(old(a[..]))
    {
      var i := a.Length;
      while i > 1
        invariant 0 <= i <= a.Length
        invariant multiset(a[..]) == multiset(old(a[..]))
      {
        i := i - 1;
        var j := GenRange(0, i + 1);
        a[i], a[j] := a[j], a[i];
      }
    }
  }
}
