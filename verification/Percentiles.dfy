/** The percentile and the mean of a pool of values, with exact real arithmetic. */
module Percentiles {
  import opened Numbers

  /** Conversion of a floating-point number to an integer: towards zero. */
  function Truncated(r: real): int {
    if r >= 0.0 then r.Floor else -((-r).Floor)
  }

  /** Integer division of the source language: towards zero. */
  function Quotient(x: int, y: int): int
    requires 0 < y
  {
    if x >= 0 then x / y else -(-x / y)
  }

  function Ceiling(r: real): int {
    -((-r).Floor)
  }

  ghost predicate Ascending(s: seq<int>) {
    forall i, j :: 0 <= i <= j < |s| ==> s[i] <= s[j]
  }

  function Inserted(v: int, s: seq<int>): (r: seq<int>)
    ensures multiset(r) == multiset(s) + multiset{v}
  {
    if s == [] || v <= s[0] then [v] + s
    else
      assert s == [s[0]] + s[1..];
      [s[0]] + Inserted(v, s[1..])
  }

  lemma PrependedAscending(v: int, s: seq<int>)
    requires Ascending(s) && forall x :: x in s ==> v <= x
    ensures Ascending([v] + s)
  {
    assert forall j :: 0 <= j < |s| ==> s[j] in s;
  }

  lemma InsertedElements(v: int, s: seq<int>, x: int)
    requires x in Inserted(v, s)
    ensures x == v || x in s
  {
    assert x in multiset(Inserted(v, s));
  }

  lemma {:induction false} InsertedAscending(v: int, s: seq<int>)
    requires Ascending(s)
    ensures Ascending(Inserted(v, s))
  {
    if s != [] {
      assert forall x :: x in s ==> s[0] <= x;
    }
    if s == [] || v <= s[0] {
      PrependedAscending(v, s);
    } else {
      InsertedAscending(v, s[1..]);
      forall x | x in Inserted(v, s[1..]) ensures s[0] <= x {
        InsertedElements(v, s[1..], x);
      }
      PrependedAscending(s[0], Inserted(v, s[1..]));
    }
  }

  /** The library's sort of integers. */
  function Sort(s: seq<int>): (r: seq<int>)
    ensures Ascending(r) && multiset(r) == multiset(s)
  {
    if s == [] then []
    else
      assert s == s[..|s| - 1] + [s[|s| - 1]];
      var sorted := Sort(s[..|s| - 1]);
      InsertedAscending(s[|s| - 1], sorted);
      Inserted(s[|s| - 1], sorted)
  }

  /** The rank of a percentile among `n` values. */
  function Rank(p: real, n: nat): real {
    p / 100.0 * n as real
  }

  function CalculatePercentile(p: real, values: seq<int>): int {
    if |values| == 0 then 0
    else if p <= 0.0 then values[0]
    else if p >= 100.0 then values[|values| - 1]
    else RankInRange(p, |values|); Interpolated(Rank(p, |values|), values)
  }

  /** The value at a rank between the first and just past the last position. */
  function Interpolated(rank: real, values: seq<int>): int
    requires 0.0 < rank < |values| as real
  {
    var lowIndex := rank.Floor;
    var highIndex := Ceiling(rank);
    if highIndex >= |values| then values[|values| - 1]
    else if lowIndex == highIndex then values[lowIndex]
    else Between(values[lowIndex], values[highIndex], rank - lowIndex as real)
  }

  function Between(low: int, high: int, part: real): int {
    low + Truncated(part * (high - low) as real)
  }

  function Mean(values: seq<int>): int {
    if |values| == 0 then 0 else Quotient(Sum(values), |values|)
  }

  // Interpolation.

  lemma RankInRange(p: real, n: nat)
    requires 0.0 < p < 100.0 && 0 < n
    ensures 0.0 < Rank(p, n) < n as real
  {
    var share := p / 100.0;
    assert 0.0 < share < 1.0;
    ScaleReal(share, 1.0, n as real);
    ScaleReal(0.0, share, n as real);
  }

  lemma RankMonotone(p: real, p': real, n: nat)
    requires p <= p'
    ensures Rank(p, n) <= Rank(p', n)
  {
    ScaleRealAtMost(p / 100.0, p' / 100.0, n as real);
  }

  lemma ScaleReal(x: real, y: real, k: real)
    requires x < y && 0.0 < k
    ensures x * k < y * k
  {
  }

  lemma ScaleRealAtMost(x: real, y: real, k: real)
    requires x <= y && 0.0 <= k
    ensures x * k <= y * k
  {
  }

  lemma FloorMonotone(x: real, y: real)
    requires x <= y
    ensures x.Floor <= y.Floor
  {
  }

  lemma FloorShift(x: real, k: int)
    ensures (x + k as real).Floor == x.Floor + k
  {
  }

  /** The weighted mean of two values, rounded down. */
  function Weighted(low: int, weight: real, high: int, weight': real): int {
    (weight * low as real + weight' * high as real).Floor
  }

  lemma PartOfDifference(part: real, low: int, high: int)
    requires 0.0 <= part <= 1.0 && low <= high
    ensures 0.0 <= part * (high - low) as real <= (high - low) as real
  {
    ScaleRealAtMost(0.0, part, (high - low) as real);
    ScaleRealAtMost(part, 1.0, (high - low) as real);
  }

  lemma WeightsOfDifference(part: real, low: int, high: int)
    ensures (1.0 - part) * low as real + part * high as real == part * (high - low) as real + low as real
  {
    assert (high - low) as real == high as real - low as real;
    Distribute(part, low as real, high as real);
  }

  lemma Distribute(part: real, x: real, y: real)
    ensures (1.0 - part) * x + part * y == part * (y - x) + x
  {
  }

  lemma FloorWithin(x: real, k: int)
    requires 0.0 <= x <= k as real
    ensures 0 <= Truncated(x) <= k && Truncated(x) == x.Floor
  {
  }

  lemma BetweenIsWeighted(low: int, high: int, part: real)
    requires 0.0 <= part <= 1.0 && low <= high
    ensures low <= Between(low, high, part) <= high
    ensures Between(low, high, part) == Weighted(low, 1.0 - part, high, part)
  {
    hide Truncated;
    PartOfDifference(part, low, high);
    FloorWithin(part * (high - low) as real, high - low);
    WeightsOfDifference(part, low, high);
    FloorShift(part * (high - low) as real, low);
  }

  lemma InterpolatedBetween(rank: real, values: seq<int>)
    requires 0.0 < rank < |values| as real && Ascending(values)
    ensures values[rank.Floor] <= Interpolated(rank, values)
    ensures Interpolated(rank, values) <= if Ceiling(rank) < |values| then values[Ceiling(rank)]
                                          else values[|values| - 1]
  {
    hide Between;
    if Ceiling(rank) < |values| && rank.Floor != Ceiling(rank) {
      BetweenIsWeighted(values[rank.Floor], values[Ceiling(rank)], rank - rank.Floor as real);
    }
  }

  lemma BetweenMonotone(low: int, high: int, part: real, part': real)
    requires low <= high && 0.0 <= part <= part'
    ensures Between(low, high, part) <= Between(low, high, part')
  {
    var diff := (high - low) as real;
    ScaleRealAtMost(part, part', diff);
    ScaleRealAtMost(0.0, part, diff);
    FloorMonotone(part * diff, part' * diff);
  }

  lemma InterpolatedMonotone(rank: real, rank': real, values: seq<int>)
    requires 0.0 < rank <= rank' < |values| as real && Ascending(values)
    ensures Interpolated(rank, values) <= Interpolated(rank', values)
  {
    hide Between;
    InterpolatedBetween(rank, values);
    InterpolatedBetween(rank', values);
    var low, high := rank.Floor, Ceiling(rank);
    if rank'.Floor == low && low < high == Ceiling(rank') < |values| {
      BetweenMonotone(values[low], values[high], rank - low as real, rank' - low as real);
    }
  }

  // The percentile.

  /** The result lies between the first and the last value. */
  lemma PercentileInRange(p: real, values: seq<int>)
    requires 0 < |values| && Ascending(values)
    ensures values[0] <= CalculatePercentile(p, values) <= values[|values| - 1]
  {
    if 0.0 < p < 100.0 {
      RankInRange(p, |values|);
      InterpolatedBetween(Rank(p, |values|), values);
    }
  }

  /** A larger percentile is at least as large a value, across the clamps too. */
  lemma PercentileMonotone(p: real, p': real, values: seq<int>)
    requires p <= p' && Ascending(values)
    ensures CalculatePercentile(p, values) <= CalculatePercentile(p', values)
  {
    hide Rank, Interpolated, Ascending;
    if 0 < |values| {
      PercentileInRange(p, values);
      PercentileInRange(p', values);
      if 0.0 < p && p' < 100.0 {
        RankInRange(p, |values|);
        RankInRange(p', |values|);
        RankMonotone(p, p', |values|);
        InterpolatedMonotone(Rank(p, |values|), Rank(p', |values|), values);
      }
    }
  }

  lemma WeightedMonotone(low: int, high: int, low': int, high': int, weight: real, weight': real)
    requires low <= low' && high <= high' && 0.0 <= weight && 0.0 <= weight'
    ensures Weighted(low, weight, high, weight') <= Weighted(low', weight, high', weight')
  {
    WeightMonotone(low, low', weight);
    WeightMonotone(high, high', weight');
  }

  lemma WeightMonotone(x: int, y: int, k: real)
    requires x <= y && 0.0 <= k
    ensures k * x as real <= k * y as real
  {
    ScaleRealAtMost(x as real, y as real, k);
  }

  lemma BetweenMonotoneInValues(low: int, high: int, low': int, high': int, part: real)
    requires 0.0 <= part <= 1.0 && low <= high && low' <= high' && low <= low' && high <= high'
    ensures Between(low, high, part) <= Between(low', high', part)
  {
    hide Between, Weighted;
    BetweenIsWeighted(low, high, part);
    BetweenIsWeighted(low', high', part);
    WeightedMonotone(low, high, low', high', 1.0 - part, part);
  }

  lemma InterpolatedMonotoneInValues(rank: real, values: seq<int>, values': seq<int>)
    requires |values| == |values'| && Ascending(values) && Ascending(values')
    requires forall i :: 0 <= i < |values| ==> values[i] <= values'[i]
    requires 0.0 < rank < |values| as real
    ensures Interpolated(rank, values) <= Interpolated(rank, values')
  {
    hide Between;
    var low, high := rank.Floor, Ceiling(rank);
    if low < high < |values| {
      BetweenMonotoneInValues(values[low], values[high], values'[low], values'[high], rank - low as real);
    }
  }

  /** Larger values, position by position, give at least as large a percentile. */
  lemma PercentileMonotoneInValues(p: real, values: seq<int>, values': seq<int>)
    requires |values| == |values'| && Ascending(values) && Ascending(values')
    requires forall i :: 0 <= i < |values| ==> values[i] <= values'[i]
    ensures CalculatePercentile(p, values) <= CalculatePercentile(p, values')
  {
    hide Rank, Interpolated;
    if 0 < |values| && 0.0 < p < 100.0 {
      RankInRange(p, |values|);
      InterpolatedMonotoneInValues(Rank(p, |values|), values, values');
    }
  }

  // Which value it is.

  /** What the percentile of ascending values is, with n of them and p * n / 100 between i and i + 1: the i-th value if
      that is whole, the last one if there is none after it, and otherwise their linear interpolation, rounded down. */
  ghost predicate IsPercentile(p: real, values: seq<int>, v: int) {
    var n := |values|;
    && (n == 0 ==> v == 0)
    && (0 < n && p <= 0.0 ==> v == values[0])
    && (0 < n && 100.0 <= p ==> v == values[n - 1])
    && (0 < n && 0.0 < p < 100.0 ==> exists i :: 0 <= i < n && IsRank(p, n, i) && AtRank(p * n as real, values, i, v))
  }

  predicate IsRank(p: real, n: nat, i: int) {
    100.0 * i as real <= p * n as real < 100.0 * (i + 1) as real
  }

  predicate AtRank(share: real, values: seq<int>, i: int, v: int)
    requires 0 <= i < |values|
  {
    if share == 100.0 * i as real then v == values[i]
    else if i == |values| - 1 then v == values[i]
    else
      var low, high := values[i], values[i + 1];
      && 100.0 * (v - low) as real <= (share - 100.0 * i as real) * (high - low) as real
      && (share - 100.0 * i as real) * (high - low) as real < 100.0 * (v + 1 - low) as real
  }

  lemma RankIsShare(p: real, n: nat)
    ensures 100.0 * Rank(p, n) == p * n as real
  {
    var share := p / 100.0;
    assert share * 100.0 == p;
    Reorder(share, 100.0, n as real);
  }

  lemma Reorder(x: real, y: real, z: real)
    ensures y * (x * z) == (x * y) * z
  {
  }

  lemma RankFloor(p: real, n: nat, i: int)
    requires IsRank(p, n, i)
    ensures Rank(p, n).Floor == i
  {
    hide Rank;
    RankIsShare(p, n);
  }

  lemma SharedPart(p: real, n: nat, i: int, diff: int)
    ensures 100.0 * ((Rank(p, n) - i as real) * diff as real) == (p * n as real - 100.0 * i as real) * diff as real
  {
    hide Rank;
    RankIsShare(p, n);
    Reorder(Rank(p, n) - i as real, 100.0, diff as real);
    assert (Rank(p, n) - i as real) * 100.0 == p * n as real - 100.0 * i as real;
  }

  lemma RankedValue(p: real, values: seq<int>, i: int)
    requires 0.0 < p < 100.0 && 0 < |values| && Ascending(values) && IsRank(p, |values|, i)
    ensures 0 <= i < |values| && AtRank(p * |values| as real, values, i, CalculatePercentile(p, values))
  {
    hide Rank, Between;
    var n := |values|;
    var rank := Rank(p, n);
    RankInRange(p, n);
    RankIsShare(p, n);
    RankFloor(p, n, i);
    if rank != i as real && i < n - 1 {
      var low, high := values[i], values[i + 1];
      SharedPart(p, n, i, high - low);
      InterpolationFloors(rank - i as real, low, high);
    }
  }

  lemma InterpolationFloors(part: real, low: int, high: int)
    requires 0.0 <= part <= 1.0 && low <= high
    ensures var v := Between(low, high, part);
            (v - low) as real <= part * (high - low) as real < (v + 1 - low) as real
  {
    PartOfDifference(part, low, high);
    FloorWithin(part * (high - low) as real, high - low);
  }

  lemma PercentileIsExact(p: real, values: seq<int>)
    requires Ascending(values)
    ensures IsPercentile(p, values, CalculatePercentile(p, values))
  {
    hide Rank, Interpolated, AtRank, IsRank, Ascending;
    if 0 < |values| && 0.0 < p < 100.0 {
      var i := Rank(p, |values|).Floor;
      FloorIsRank(p, |values|);
      RankedValue(p, values, i);
    }
  }

  lemma FloorIsRank(p: real, n: nat)
    ensures IsRank(p, n, Rank(p, n).Floor)
  {
    hide Rank;
    RankIsShare(p, n);
  }

  // The mean.

  lemma {:induction false} SumBetween(values: seq<int>, low: int, high: int)
    requires forall v :: v in values ==> low <= v <= high
    ensures low * |values| <= Sum(values) <= high * |values|
  {
    if values != [] {
      var rest := values[..|values| - 1];
      assert forall v :: v in rest ==> v in values;
      SumBetween(rest, low, high);
      assert values[|values| - 1] in values;
      MulSplit(low, |rest|, 1);
      MulSplit(high, |rest|, 1);
    }
  }

  lemma DivisionBetween(x: int, y: int, low: int, high: int)
    requires 0 < y && low * y <= x <= high * y
    ensures low <= x / y <= high
  {
    var q := x / y;
    assert x == q * y + x % y;
    MulStep(q, y);
    if q < low {
      MulMonotone(q + 1, low, y);
    } else if high < q {
      MulMonotone(high + 1, q, y);
      MulStep(high, y);
    }
  }

  lemma QuotientBetween(x: int, y: int, low: int, high: int)
    requires 0 < y && low * y <= x <= high * y
    ensures low <= Quotient(x, y) <= high
  {
    if x >= 0 {
      DivisionBetween(x, y, low, high);
    } else {
      DivisionBetween(-x, y, -high, -low);
    }
  }

  /** The mean of a pool lies between its lowest and its highest percentile. */
  lemma MeanBetweenPercentiles(pool: seq<int>)
    ensures CalculatePercentile(0.0, Sort(pool)) <= Mean(pool) <= CalculatePercentile(100.0, Sort(pool))
  {
    var sorted := Sort(pool);
    assert |sorted| == |multiset(sorted)| == |pool|;
    if pool != [] {
      forall v | v in pool ensures sorted[0] <= v <= sorted[|sorted| - 1] {
        assert v in multiset(sorted);
      }
      SumBetween(pool, sorted[0], sorted[|sorted| - 1]);
      QuotientBetween(Sum(pool), |pool|, sorted[0], sorted[|sorted| - 1]);
    }
  }

  /** The average, rounded towards zero. */
  ghost predicate IsMean(values: seq<int>, m: int) {
    var sum, n := Sum(values), |values|;
    if n == 0 then m == 0
    else if sum >= 0 then 0 <= m && m * n <= sum < (m + 1) * n
    else m <= 0 && (m - 1) * n < sum <= m * n
  }

  lemma MeanIsExact(values: seq<int>)
    ensures IsMean(values, Mean(values))
  {
    if values != [] {
      var sum, n := Sum(values), |values|;
      var q := if sum >= 0 then sum / n else -sum / n;
      DividedFloor(if sum >= 0 then sum else -sum, n);
      MulStep(q, n);
      MulStep(-q - 1, n);
      assert (-q) * n == -(q * n);
    }
  }

  lemma DividedFloor(x: int, y: int)
    requires 0 <= x && 0 < y
    ensures 0 <= x / y && x / y * y <= x < (x / y + 1) * y
  {
    assert x == x / y * y + x % y;
    MulStep(x / y, y);
  }
}
