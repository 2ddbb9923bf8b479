/** The time source every component is constructed with (`util.Clock`). */
module Clocks {

  /** Successive results of `Now()`, in nanoseconds: reading `i` is the answer to the i-th call. */
  type Readings = nat -> int

  ghost predicate NonDecreasing(clock: Readings) {
    forall i: nat, j: nat :: i <= j ==> clock(i) <= clock(j)
  }

  /** A clock whose answers are fixed in advance; `next` counts the calls made so far. */
  class Clock {
    const readings: Readings
    var next: nat

    constructor (readings: Readings)
      ensures this.readings == readings && next == 0
    {
      this.readings := readings;
      next := 0;
    }

    method Now() returns (now: int)
      modifies this
      ensures now == readings(old(next)) && next == old(next) + 1
    {
      now := readings(next);
      next := next + 1;
    }
  }
}
