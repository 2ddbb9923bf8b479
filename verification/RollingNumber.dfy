/**
 The sliding-window counter: a circular buffer of time buckets that is rotated
 lazily, on access, and re-anchored at the time of the access that rotated it.
 */
module RollingNumber {
  import opened Clocks
  import opened Numbers

  // Durations are nanoseconds.
  const MILLISECOND := 1_000_000
  const DEFAULT_WINDOW_SIZE := 10_000 * MILLISECOND
  const DEFAULT_WINDOW_BUCKETS := 10

  /** The bucket size is at least a millisecond; otherwise the buckets fill the
      window as far as whole nanoseconds allow. */
  function CalculateBucketSize(windowSize: int, windowBuckets: int): (size: int)
    requires windowBuckets > 0
    ensures size >= MILLISECOND
    ensures windowSize < (size + 1) * windowBuckets
    ensures size > MILLISECOND ==> size * windowBuckets <= windowSize
  {
    var size := windowSize / windowBuckets;
    assert windowSize == windowBuckets * size + windowSize % windowBuckets;
    if size < MILLISECOND then
      assert (size + 1) * windowBuckets <= (MILLISECOND + 1) * windowBuckets;
      MILLISECOND
    else size
  }

  /** The buckets make up the window exactly if it divides into whole nanoseconds of at least a
      millisecond each; a remainder makes them less, and the least bucket size can make them more. */
  lemma WindowSizeReached(windowSize: int, windowBuckets: int)
    requires 0 < windowBuckets
    ensures var reached, least :=
              CalculateBucketSize(windowSize, windowBuckets) * windowBuckets, MILLISECOND * windowBuckets;
            && (reached == windowSize <==> least <= windowSize && windowSize % windowBuckets == 0)
            && (reached < windowSize <==> least <= windowSize && windowSize % windowBuckets != 0)
            && (reached > windowSize <==> windowSize < least)
  {
    var size := windowSize / windowBuckets;
    assert windowSize == windowBuckets * size + windowSize % windowBuckets;
    if size < MILLISECOND {
      MulMonotone(size + 1, MILLISECOND, windowBuckets);
    } else {
      MulMonotone(MILLISECOND, size, windowBuckets);
    }
  }

  const DEFAULT_BUCKET_SIZE := CalculateBucketSize(DEFAULT_WINDOW_SIZE, DEFAULT_WINDOW_BUCKETS)

  // The value of a counter, and what each access does to it.

  datatype Counter = Counter(bucketSize: int, current: int, anchor: int, buckets: seq<int>) {
    ghost predicate Valid() {
      && 0 < bucketSize
      && 0 <= current < |buckets|
      && forall i :: 0 <= i < |buckets| ==> 0 <= buckets[i]
    }
  }

  /** A counter with the default window. */
  ghost predicate Sized(c: Counter) {
    c.Valid() && c.bucketSize == DEFAULT_BUCKET_SIZE && |c.buckets| == DEFAULT_WINDOW_BUCKETS
  }

  function NewCounter(bucketSize: int, windowBuckets: nat, now: int): (c: Counter)
    requires 0 < bucketSize && 0 < windowBuckets
    ensures c.Valid()
  {
    Counter(bucketSize, 0, now, seq(windowBuckets, _ => 0))
  }

  function Rotate(c: Counter, now: int): (r: Counter)
    requires c.Valid()
    ensures r.Valid() && r.bucketSize == c.bucketSize && |r.buckets| == |c.buckets|
    ensures c.anchor <= now ==> r.anchor <= now < r.anchor + c.bucketSize
  {
    var behind := (now - c.anchor) / c.bucketSize;
    if behind > 0 then
      c.(current := (c.current + behind) % |c.buckets|,
         anchor := now,
         buckets := Cleared(c.buckets, c.current, behind, 0))
    else
      BehindBound(now - c.anchor, c.bucketSize);
      c
  }

  lemma BehindBound(diff: int, bucketSize: int)
    requires 0 < bucketSize
    ensures diff / bucketSize <= 0 && 0 <= diff ==> diff < bucketSize
    ensures 0 < diff / bucketSize ==>
              && diff / bucketSize * bucketSize <= diff
              && diff <= diff / bucketSize * (2 * bucketSize - 1)
  {
    var behind := diff / bucketSize;
    assert diff == behind * bucketSize + diff % bucketSize;
    if 0 < behind {
      MulSplit(behind, bucketSize, bucketSize - 1);
      MulMonotone(1, behind, bucketSize - 1);
    } else {
      MulMonotone(behind, 0, bucketSize);
    }
  }

  function Incremented(c: Counter, now: int): (r: Counter)
    requires c.Valid()
    ensures r.Valid() && r.bucketSize == c.bucketSize && |r.buckets| == |c.buckets|
    ensures c.anchor <= now ==> r.anchor <= now
  {
    var r := Rotate(c, now);
    r.(buckets := r.buckets[r.current := r.buckets[r.current] + 1])
  }

  function Total(c: Counter, now: int): int
    requires c.Valid()
  {
    Sum(Rotate(c, now).buckets)
  }

  function Zeroed(c: Counter, now: int): (r: Counter)
    requires c.Valid()
    ensures r.Valid() && r.bucketSize == c.bucketSize && |r.buckets| == |c.buckets| && r.anchor == now
  {
    NewCounter(c.bucketSize, |c.buckets|, now)
  }

  // The counter itself, updated in place.

  class RollingNumber {
    const bucketSize: int
    const clock: Clock
    const buckets: array<int>
    var currentBucket: int
    var currentBucketTime: int

    ghost predicate Valid()
      reads this, buckets
    {
      Value().Valid()
    }

    ghost function Value(): Counter
      reads this, buckets
    {
      Counter(bucketSize, currentBucket, currentBucketTime, buckets[..])
    }

    constructor (windowSize: int, windowBuckets: nat, clock: Clock)
      requires 0 < windowBuckets
      modifies clock
      ensures Valid() && fresh(buckets) && this.clock == clock
      ensures clock.next == old(clock.next) + 1
      ensures Value() == NewCounter(CalculateBucketSize(windowSize, windowBuckets), windowBuckets,
                                    clock.readings(old(clock.next)))
    {
      bucketSize := CalculateBucketSize(windowSize, windowBuckets);
      currentBucket := 0;
      var now := clock.Now();
      currentBucketTime := now;
      buckets := new int[windowBuckets](_ => 0);
      this.clock := clock;
      new;
      assert buckets[..] == seq(windowBuckets, _ => 0);
    }

    method FindCurrentBucket() returns (bucket: int)
      requires Valid()
      modifies this, buckets, clock
      ensures Valid() && clock.next == old(clock.next) + 1
      ensures Value() == Rotate(old(Value()), clock.readings(old(clock.next)))
      ensures bucket == currentBucket
    {
      var now := clock.Now();
      var timeDiffFromFirstBucket := now - currentBucketTime;
      var bucketsBehind := timeDiffFromFirstBucket / bucketSize;
      if bucketsBehind > 0 {
        var numBuckets := buckets.Length;
        for i := 1 to bucketsBehind + 1
          invariant buckets[..] == Cleared(old(buckets[..]), currentBucket, i - 1, 0)
          invariant currentBucket == old(currentBucket) && currentBucketTime == old(currentBucketTime)
          invariant clock.next == old(clock.next) + 1
        {
          buckets[(currentBucket + i) % numBuckets] := 0;
        }
        currentBucket := (currentBucket + bucketsBehind) % numBuckets;
        currentBucketTime := now;
      }
      bucket := currentBucket;
    }

    method Increment()
      requires Valid()
      modifies this, buckets, clock
      ensures Valid() && clock.next == old(clock.next) + 1
      ensures Value() == Incremented(old(Value()), clock.readings(old(clock.next)))
    {
      var bucket := FindCurrentBucket();
      buckets[bucket] := buckets[bucket] + 1;
    }

    method Sum() returns (sum: int)
      requires Valid()
      modifies this, buckets, clock
      ensures Valid() && clock.next == old(clock.next) + 1
      ensures Value() == Rotate(old(Value()), clock.readings(old(clock.next)))
      ensures sum == Total(old(Value()), clock.readings(old(clock.next)))
    {
      var _ := FindCurrentBucket();
      sum := 0;
      for i := 0 to buckets.Length
        invariant sum == Numbers.Sum(buckets[..i])
      {
        assert buckets[..i + 1][..i] == buckets[..i];
        sum := sum + buckets[i];
      }
      assert buckets[..buckets.Length] == buckets[..];
    }

    method Reset()
      requires Valid()
      modifies this, buckets, clock
      ensures Valid() && clock.next == old(clock.next) + 1
      ensures Value() == Zeroed(old(Value()), clock.readings(old(clock.next)))
    {
      currentBucket := 0;
      currentBucketTime := clock.Now();
      for i := 0 to buckets.Length
        invariant clock.next == old(clock.next) + 1
        invariant currentBucket == 0 && currentBucketTime == clock.readings(old(clock.next))
        invariant forall j :: 0 <= j < i ==> buckets[j] == 0
      {
        buckets[i] := 0;
      }
      assert buckets[..] == seq(buckets.Length, _ => 0);
    }
  }
}
