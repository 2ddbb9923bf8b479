/** The value of a rolling percentile and what each access does to it. */
module PercentileModel {
  import opened Numbers
  import opened PercentileBucket
  import opened Percentiles

  datatype Sampler = Sampler(bucketSize: int, maxItems: nat, current: int, anchor: int, buckets: seq<Ring>) {
    ghost predicate Valid() {
      && 0 < bucketSize && 0 < maxItems
      && 0 <= current < |buckets|
      && forall i :: 0 <= i < |buckets| ==> buckets[i].Valid() && buckets[i].size == maxItems
    }
  }

  function NewSampler(bucketSize: int, windowBuckets: nat, maxItems: nat, now: int): (p: Sampler)
    requires 0 < bucketSize && 0 < windowBuckets && 0 < maxItems
    ensures p.Valid()
  {
    Sampler(bucketSize, maxItems, 0, now, seq(windowBuckets, _ => EmptyRing(maxItems)))
  }

  /** Rotation. It clears the remainder of the number of buckets behind, not that number. */
  function Turned(p: Sampler, now: int): (r: Sampler)
    requires p.Valid()
    ensures r.Valid() && r.bucketSize == p.bucketSize && r.maxItems == p.maxItems && |r.buckets| == |p.buckets|
    ensures p.anchor <= now ==> r.anchor <= now
  {
    var behind := (now - p.anchor) / p.bucketSize;
    if behind > 0 then
      p.(current := (p.current + behind) % |p.buckets|,
         anchor := now,
         buckets := Cleared(p.buckets, p.current, behind % |p.buckets|, EmptyRing(p.maxItems)))
    else p
  }

  function Recorded(p: Sampler, now: int, v: int): (r: Sampler)
    requires p.Valid()
    ensures r.Valid() && r.bucketSize == p.bucketSize && r.maxItems == p.maxItems && |r.buckets| == |p.buckets|
    ensures p.anchor <= now ==> r.anchor <= now
  {
    var t := Turned(p, now);
    t.(buckets := t.buckets[t.current := Added(t.buckets[t.current], v)])
  }

  function Pool(buckets: seq<Ring>): seq<int> {
    if buckets == [] then [] else Pool(buckets[..|buckets| - 1]) + buckets[|buckets| - 1].vals
  }

  function PercentileAt(p: Sampler, now: int, percentile: real): int
    requires p.Valid()
  {
    CalculatePercentile(percentile, Sort(Pool(Turned(p, now).buckets)))
  }

  function MeanAt(p: Sampler, now: int): int
    requires p.Valid()
  {
    Mean(Pool(Turned(p, now).buckets))
  }

  /** On one state and one clock reading the mean lies between the extreme percentiles. */
  lemma MeanBetweenExtremes(p: Sampler, now: int)
    requires p.Valid()
    ensures PercentileAt(p, now, 0.0) <= MeanAt(p, now) <= PercentileAt(p, now, 100.0)
  {
    MeanBetweenPercentiles(Pool(Turned(p, now).buckets));
  }
}
