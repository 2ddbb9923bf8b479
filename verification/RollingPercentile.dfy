/** The rolling percentile, updated in place. */
module RollingPercentile {
  import opened Clocks
  import Numbers
  import opened PercentileBucket
  import opened PercentileModel
  import Percentiles
  import opened RollingNumber

  method NewBuckets(windowBuckets: nat, maxBucketItems: nat) returns (buckets: array<PercentileBucket>)
    ensures fresh(buckets) && buckets.Length == windowBuckets
    ensures forall i :: 0 <= i < windowBuckets ==>
              && fresh(buckets[i]) && fresh(buckets[i].vals)
              && buckets[i].Valid() && buckets[i].Value() == EmptyRing(maxBucketItems)
    ensures forall i, j :: 0 <= i < j < windowBuckets ==> buckets[i] != buckets[j] && buckets[i].vals != buckets[j].vals
  {
    var none := new PercentileBucket();
    buckets := new PercentileBucket[windowBuckets](_ => none);
    for i := 0 to windowBuckets
      invariant forall j :: 0 <= j < i ==>
                  && fresh(buckets[j]) && fresh(buckets[j].vals)
                  && buckets[j].Valid() && buckets[j].Value() == EmptyRing(maxBucketItems)
      invariant forall j, k :: 0 <= j < k < i ==> buckets[j] != buckets[k] && buckets[j].vals != buckets[k].vals
    {
      var bucket := new PercentileBucket();
      bucket.Reset(maxBucketItems);
      buckets[i] := bucket;
    }
  }

  class RollingPercentile {
    const bucketSize: int
    const maxBucketItems: nat
    const clock: Clock
    const buckets: array<PercentileBucket>
    var currentBucket: int
    var currentBucketTime: int

    ghost function Arrays(): set<object>
      reads buckets, buckets[..]
    {
      set b | b in buckets[..] :: b.vals
    }

    ghost predicate Separate()
      reads buckets, buckets[..]
    {
      && (forall i, j :: 0 <= i < j < buckets.Length ==> buckets[i] != buckets[j] && buckets[i].vals != buckets[j].vals)
      && (forall i :: 0 <= i < buckets.Length ==> buckets[i].Valid() && buckets[i].vals.Length == maxBucketItems)
    }

    ghost predicate Valid()
      reads this, buckets, buckets[..]
    {
      && Separate()
      && 0 < bucketSize && 0 < maxBucketItems && 0 <= currentBucket < buckets.Length
    }

    ghost function Rings(): (rings: seq<Ring>)
      requires Separate()
      reads buckets, buckets[..], Arrays()
      ensures |rings| == buckets.Length
      ensures forall i :: 0 <= i < buckets.Length ==> rings[i] == buckets[i].Value()
    {
      seq(buckets.Length, i requires 0 <= i < buckets.Length && Separate()
                            reads buckets, buckets[..], Arrays() => buckets[i].Value())
    }

    ghost function Value(): (p: Sampler)
      requires Valid()
      reads this, buckets, buckets[..], Arrays()
      ensures p.Valid()
    {
      Sampler(bucketSize, maxBucketItems, currentBucket, currentBucketTime, Rings())
    }

    constructor (windowSize: int, windowBuckets: nat, maxBucketItems: nat, clock: Clock)
      requires 0 < windowBuckets && 0 < maxBucketItems
      modifies clock
      ensures Valid() && fresh(buckets) && fresh(buckets[..]) && fresh(Arrays()) && this.clock == clock
              && clock.next == old(clock.next) + 1
      ensures Value() == NewSampler(CalculateBucketSize(windowSize, windowBuckets), windowBuckets, maxBucketItems,
                                    clock.readings(old(clock.next)))
    {
      hide CalculateBucketSize;
      bucketSize := CalculateBucketSize(windowSize, windowBuckets);
      this.maxBucketItems := maxBucketItems;
      currentBucket := 0;
      var now := clock.Now();
      currentBucketTime := now;
      this.clock := clock;
      var buckets := NewBuckets(windowBuckets, maxBucketItems);
      this.buckets := buckets;
      new;
      assert Rings() == seq(windowBuckets, _ => EmptyRing(maxBucketItems));
    }

    /** Only the arrays of the buckets may be replaced, by new ones. */
    twostate predicate Kept()
      reads this, buckets, buckets[..]
    {
      && buckets[..] == old(buckets[..])
      && forall i :: 0 <= i < buckets.Length ==> buckets[i].vals == old(buckets[i].vals) || fresh(buckets[i].vals)
    }

    method ResetBucket(i: int)
      requires Separate() && 0 <= i < buckets.Length
      modifies buckets[i]
      ensures Separate() && Kept()
      ensures Rings() == old(Rings())[i := EmptyRing(maxBucketItems)]
    {
      buckets[i].Reset(maxBucketItems);
    }

    method AddToBucket(i: int, v: int)
      requires Separate() && 0 <= i < buckets.Length && 0 < maxBucketItems
      modifies buckets[i], buckets[i].vals
      ensures Separate() && Kept()
      ensures old(Rings())[i].Valid() && old(Rings())[i].size == maxBucketItems
      ensures Rings() == old(Rings())[i := Added(old(Rings())[i], v)]
    {
      buckets[i].Add(v);
    }

    /** The rotation loop. */
    method ClearBuckets(count: nat)
      requires Separate() && 0 < buckets.Length && 0 <= currentBucket
      modifies buckets[..]
      ensures Separate() && Kept()
      ensures Rings() == Numbers.Cleared(old(Rings()), currentBucket, count, EmptyRing(maxBucketItems))
    {
      hide EmptyRing, Separate, Rings, Numbers.Cleared;
      Numbers.NoneCleared(Rings(), currentBucket, EmptyRing(maxBucketItems));
      for i := 1 to count + 1
        invariant Separate() && Kept()
        invariant Rings() == Numbers.Cleared(old(Rings()), currentBucket, i - 1, EmptyRing(maxBucketItems))
      {
        var next := (currentBucket + i) % buckets.Length;
        ResetBucket(next);
        Numbers.OneMoreCleared(old(Rings()), currentBucket, i, EmptyRing(maxBucketItems));
      }
    }

    /** `FindCurrentBucket` once the clock has been read. */
    method Turn(now: int)
      requires Valid()
      modifies this, buckets[..]
      ensures Valid() && Kept()
      ensures Value() == Turned(old(Value()), now)
    {
      hide Numbers.Cleared, EmptyRing, Separate, Rings;
      var timeDiffFromFirstBucket := now - currentBucketTime;
      var bucketsBehind := timeDiffFromFirstBucket / bucketSize;
      if bucketsBehind > 0 {
        var numBuckets := buckets.Length;
        ClearBuckets(bucketsBehind % numBuckets);
        label Cleared:
        currentBucket := (currentBucket + bucketsBehind) % numBuckets;
        currentBucketTime := now;
        assert Rings() == old@Cleared(Rings());
      }
    }

    method FindCurrentBucket() returns (bucket: PercentileBucket)
      requires Valid() && currentBucketTime <= clock.readings(clock.next)
      modifies this, buckets[..], clock
      ensures Valid() && Kept() && clock.next == old(clock.next) + 1
      ensures Value() == Turned(old(Value()), clock.readings(old(clock.next)))
      ensures bucket == buckets[currentBucket]
    {
      hide Turned;
      var now := clock.Now();
      assert Valid() && Rings() == old(Rings());
      Turn(now);
      bucket := buckets[currentBucket];
    }

    method Add(v: int)
      requires Valid() && currentBucketTime <= clock.readings(clock.next)
      modifies this, buckets[..], Arrays(), clock
      ensures Valid() && Kept() && clock.next == old(clock.next) + 1
      ensures Value() == Recorded(old(Value()), clock.readings(old(clock.next)), v)
    {
      var _ := FindCurrentBucket();
      AddToBucket(currentBucket, v);
    }

    /** The values of all buckets, bucket by bucket. */
    method Values() returns (values: seq<int>)
      requires Separate()
      ensures values == Pool(Rings())
    {
      values := [];
      for i := 0 to buckets.Length
        invariant values == Pool(Rings()[..i])
      {
        var b := buckets[i];
        assert Rings()[..i + 1][..i] == Rings()[..i];
        values := values + b.vals[..b.count];
      }
      assert Rings()[..buckets.Length] == Rings();
    }

    method Get(percentile: real) returns (value: int)
      requires Valid() && currentBucketTime <= clock.readings(clock.next)
      modifies this, buckets[..], clock
      ensures Valid() && Kept() && clock.next == old(clock.next) + 1
      ensures Value() == Turned(old(Value()), clock.readings(old(clock.next)))
      ensures value == PercentileAt(old(Value()), clock.readings(old(clock.next)), percentile)
    {
      hide Turned, Pool, Percentiles.Mean, Percentiles.CalculatePercentile, Percentiles.Sort;
      var _ := FindCurrentBucket();
      var values := Values();
      value := Percentiles.CalculatePercentile(percentile, Percentiles.Sort(values));
    }

    method Mean() returns (mean: int)
      requires Valid() && currentBucketTime <= clock.readings(clock.next)
      modifies this, buckets[..], clock
      ensures Valid() && Kept() && clock.next == old(clock.next) + 1
      ensures Value() == Turned(old(Value()), clock.readings(old(clock.next)))
      ensures mean == MeanAt(old(Value()), clock.readings(old(clock.next)))
    {
      hide Turned, Pool, Percentiles.Mean, Percentiles.CalculatePercentile, Percentiles.Sort;
      var _ := FindCurrentBucket();
      var values := Values();
      ghost var rings := Rings();
      mean := MeanOf(values);
      assert Rings() == rings;
    }
  }

  method MeanOf(values: seq<int>) returns (mean: int)
    ensures mean == Percentiles.Mean(values)
  {
    var count, sum := 0, 0;
    for i := 0 to |values|
      invariant count == i && sum == Numbers.Sum(values[..i])
    {
      assert values[..i + 1][..i] == values[..i];
      count := count + 1;
      sum := sum + values[i];
    }
    assert values[..|values|] == values;
    if count == 0 {
      return 0;
    }
    mean := Percentiles.Quotient(sum, count);
  }
}
