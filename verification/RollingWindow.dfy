/**
 The rolling counter against a log of its increments: which increments does a
 sum count, although the buckets move only on access and restart at `now`?
 */
module RollingWindow {
  import opened Numbers
  import opened RollingNumber

  /** An increment: when it happened and the tick of the bucket that took it.
      The tick grows by the number of buckets moved at each rotation. */
  datatype Event = Event(time: int, tick: int)

  /** The buckets a log calls for: those ticks of the last `n` that share a position. */
  function Histogram(log: seq<Event>, tick: int, n: nat): (h: seq<int>)
    requires 0 < n
    ensures |h| == n && forall i :: 0 <= i < n ==> 0 <= h[i]
  {
    if log == [] then seq(n, _ => 0)
    else
      var h := Histogram(log[..|log| - 1], tick, n);
      var e := log[|log| - 1];
      if e.tick > tick - n then h[e.tick % n := h[e.tick % n] + 1] else h
  }

  /** How many events of the log carry exactly this tick. */
  function CountTick(log: seq<Event>, tick: int): nat {
    if log == [] then 0
    else CountTick(log[..|log| - 1], tick) + if log[|log| - 1].tick == tick then 1 else 0
  }

  /** How many events of the log carry a tick among the last `n`. */
  function CountWindow(log: seq<Event>, tick: int, n: nat): (count: nat)
    ensures count <= |log|
  {
    if log == [] then 0
    else CountWindow(log[..|log| - 1], tick, n) + if log[|log| - 1].tick > tick - n then 1 else 0
  }

  ghost predicate Ticks(log: seq<Event>, tick: int) {
    && (forall i :: 0 <= i < |log| ==> log[i].tick <= tick)
    && (forall i, j :: 0 <= i <= j < |log| ==> log[i].tick <= log[j].tick)
  }

  /** How far a bucket time may drift from its tick: each move of d buckets takes
      at least d and at most d * (2 - 1/B) bucket sizes B. */
  ghost predicate Dated(e: Event, anchor: int, tick: int, bucketSize: int) {
    && (tick - e.tick) * bucketSize <= anchor - e.time + bucketSize - 1
    && anchor - e.time <= (tick - e.tick) * (2 * bucketSize - 1)
  }

  ghost predicate Explains(c: Counter, log: seq<Event>, tick: int) {
    && c.Valid()
    && Ticks(log, tick)
    && c.current == tick % |c.buckets|
    && c.buckets == Histogram(log, tick, |c.buckets|)
    && forall i :: 0 <= i < |log| ==> Dated(log[i], c.anchor, tick, c.bucketSize)
  }

  ghost predicate At(log: seq<Event>, times: seq<int>) {
    |log| == |times| && forall i :: 0 <= i < |log| ==> log[i].time == times[i]
  }

  /** The counter has taken increments at exactly these times since it was last zero. */
  ghost predicate Records(c: Counter, times: seq<int>) {
    exists log, tick :: At(log, times) && Explains(c, log, tick)
  }

  // Each bucket holds one tick.

  lemma {:induction false} BucketHoldsOneTick(log: seq<Event>, tick: int, n: nat, back: nat)
    requires back < n && Ticks(log, tick)
    ensures Histogram(log, tick, n)[(tick - back) % n] == CountTick(log, tick - back)
  {
    if log != [] {
      BucketHoldsOneTick(log[..|log| - 1], tick, n, back);
      var e := log[|log| - 1];
      if tick - n < e.tick < tick - back {
        ModDistinct(e.tick, tick - back, n);
      } else if tick - back < e.tick {
        ModDistinct(tick - back, e.tick, n);
      }
    }
  }

  lemma {:induction false} SumCountsWindow(log: seq<Event>, tick: int, n: nat)
    requires 0 < n
    ensures Sum(Histogram(log, tick, n)) == CountWindow(log, tick, n)
  {
    if log == [] {
      SumZeros(n);
    } else {
      SumCountsWindow(log[..|log| - 1], tick, n);
      var h := Histogram(log[..|log| - 1], tick, n);
      var i := log[|log| - 1].tick % n;
      SumUpdate(h, i, h[i] + 1);
    }
  }

  /** The ticks never decrease, so the events counted are the latest ones. */
  lemma {:induction false} WindowIsSuffix(log: seq<Event>, tick: int, n: nat)
    requires Ticks(log, tick)
    ensures forall i :: 0 <= i < |log| ==>
              (log[i].tick > tick - n <==> i >= |log| - CountWindow(log, tick, n))
  {
    if log != [] {
      WindowIsSuffix(log[..|log| - 1], tick, n);
      assert forall i :: 0 <= i < |log| - 1 ==> log[..|log| - 1][i] == log[i];
    }
  }

  // Rotation.

  lemma {:induction false} OneTickOn(log: seq<Event>, tick: int, n: nat)
    requires 0 < n && forall i :: 0 <= i < |log| ==> log[i].tick <= tick
    ensures Histogram(log, tick + 1, n) == Histogram(log, tick, n)[(tick + 1) % n := 0]
  {
    if log != [] {
      OneTickOn(log[..|log| - 1], tick, n);
      var e := log[|log| - 1];
      if e.tick > tick + 1 - n {
        ModDistinct(e.tick, tick + 1, n);
      } else if e.tick == tick + 1 - n {
        OnceRound(e.tick, n);
      }
    }
  }

  lemma {:induction false} ClearingAdvancesTicks(log: seq<Event>, tick: int, n: nat, behind: nat)
    requires 0 < n && forall i :: 0 <= i < |log| ==> log[i].tick <= tick
    ensures Cleared(Histogram(log, tick, n), tick % n, behind, 0) == Histogram(log, tick + behind, n)
  {
    if behind > 0 {
      ClearingAdvancesTicks(log, tick, n, behind - 1);
      OneTickOn(log, tick + behind - 1, n);
      ModAddLeft(tick, behind, n);
    }
  }

  lemma DatedAdvances(e: Event, anchor: int, tick: int, bucketSize: int, now: int)
    requires 0 < bucketSize && Dated(e, anchor, tick, bucketSize)
    requires 0 < (now - anchor) / bucketSize
    ensures Dated(e, now, tick + (now - anchor) / bucketSize, bucketSize)
  {
    BehindBound(now - anchor, bucketSize);
    var behind := (now - anchor) / bucketSize;
    assert (tick + behind - e.tick) * bucketSize == (tick - e.tick) * bucketSize + behind * bucketSize;
    assert (tick + behind - e.tick) * (2 * bucketSize - 1)
        == (tick - e.tick) * (2 * bucketSize - 1) + behind * (2 * bucketSize - 1);
  }

  /** The tick after an access at `now`. */
  function TickAt(c: Counter, tick: int, now: int): int
    requires c.Valid()
  {
    var behind := (now - c.anchor) / c.bucketSize;
    if behind > 0 then tick + behind else tick
  }

  lemma RotateExplained(c: Counter, log: seq<Event>, tick: int, now: int)
    requires Explains(c, log, tick)
    ensures Explains(Rotate(c, now), log, TickAt(c, tick, now))
  {
    var behind := (now - c.anchor) / c.bucketSize;
    if behind > 0 {
      var n := |c.buckets|;
      ClearingAdvancesTicks(log, tick, n, behind);
      ModAddLeft(tick, behind, n);
      forall i | 0 <= i < |log| ensures Dated(log[i], now, tick + behind, c.bucketSize) {
        DatedAdvances(log[i], c.anchor, tick, c.bucketSize, now);
      }
    }
  }

  lemma EventAdded(c: Counter, log: seq<Event>, tick: int, now: int)
    requires Explains(c, log, tick) && c.anchor <= now < c.anchor + c.bucketSize
    ensures var log' := log + [Event(now, tick)];
            Explains(c.(buckets := c.buckets[c.current := c.buckets[c.current] + 1]), log', tick)
  {
    hide Dated;
    var log' := log + [Event(now, tick)];
    assert log'[..|log'| - 1] == log;
    JustDated(c, tick, now);
  }

  lemma JustDated(c: Counter, tick: int, now: int)
    requires c.anchor <= now < c.anchor + c.bucketSize
    ensures Dated(Event(now, tick), c.anchor, tick, c.bucketSize)
  {
  }

  lemma IncrementExplained(c: Counter, log: seq<Event>, tick: int, now: int)
    requires Explains(c, log, tick) && c.anchor <= now
    ensures var later := TickAt(c, tick, now);
            Explains(Incremented(c, now), log + [Event(now, later)], later)
  {
    RotateExplained(c, log, tick, now);
    EventAdded(Rotate(c, now), log, TickAt(c, tick, now), now);
  }

  // What a counter records, access by access.

  lemma NewRecordsNothing(bucketSize: int, n: nat, now: int)
    requires 0 < bucketSize && 0 < n
    ensures Records(NewCounter(bucketSize, n, now), [])
  {
    assert At([], []) && Explains(NewCounter(bucketSize, n, now), [], 0);
  }

  lemma RotateRecords(c: Counter, times: seq<int>, now: int)
    requires Records(c, times)
    ensures c.Valid() && Records(Rotate(c, now), times)
  {
    hide Ticks, Dated, Histogram, Rotate, Incremented;
    var log: seq<Event>, tick: int :| At(log, times) && Explains(c, log, tick);
    RotateExplained(c, log, tick, now);
  }

  lemma IncrementRecords(c: Counter, times: seq<int>, now: int)
    requires Records(c, times) && c.anchor <= now
    ensures c.Valid() && Records(Incremented(c, now), times + [now])
  {
    hide Ticks, Dated, Histogram, Rotate, Incremented;
    var log: seq<Event>, tick: int :| At(log, times) && Explains(c, log, tick);
    IncrementExplained(c, log, tick, now);
    var later := TickAt(c, tick, now);
    assert At(log + [Event(now, later)], times + [now]);
  }

  /** With n buckets of this size, increments this young are always counted ... */
  function SureAge(bucketSize: int, n: nat): int {
    (n - 1) * bucketSize
  }

  /** ... and increments older than this never are: each of the n - 1 moves an increment
      survives takes at most 2 * bucketSize - 1, and the last bucket is less than bucketSize old. */
  function LimitAge(bucketSize: int, n: nat): int {
    (n - 1) * (2 * bucketSize - 1) + bucketSize - 1
  }

  lemma LimitAgeInBuckets(bucketSize: int, n: nat)
    requires 0 < n
    ensures LimitAge(bucketSize, n) == (2 * n - 1) * bucketSize - n
  {
    MulSplit(n - 1, bucketSize, bucketSize - 1);
    MulSplit(n - 1, bucketSize, -1);
    assert (2 * n - 1) * bucketSize == (n - 1) * bucketSize + (n - 1) * bucketSize + bucketSize;
  }

  /** A sum of m counts exactly the latest m increments: each of them is within
      the limit age, and each increment left out is past the sure age. */
  ghost predicate CountsLatest(bucketSize: int, n: nat, m: int, times: seq<int>, now: int) {
    && 0 <= m <= |times|
    && (forall i :: |times| - m <= i < |times| ==> now - times[i] <= LimitAge(bucketSize, n))
    && (forall i :: 0 <= i < |times| - m ==> now - times[i] > SureAge(bucketSize, n))
  }

  lemma EventInWindow(e: Event, anchor: int, tick: int, bucketSize: int, n: nat, now: int)
    requires 0 < bucketSize && 0 < n && Dated(e, anchor, tick, bucketSize)
    requires anchor <= now < anchor + bucketSize
    ensures e.tick > tick - n ==> now - e.time <= (n - 1) * (2 * bucketSize - 1) + bucketSize - 1
    ensures e.tick <= tick - n ==> now - e.time > (n - 1) * bucketSize
  {
    var behind := tick - e.tick;
    if behind <= n - 1 {
      MulMonotone(behind, n - 1, 2 * bucketSize - 1);
    } else {
      MulMonotone(n, behind, bucketSize);
      MulStep(n - 1, bucketSize);
    }
  }

  lemma TotalCountsLatest(c: Counter, times: seq<int>, now: int)
    requires Records(c, times) && c.anchor <= now
    ensures c.Valid() && CountsLatest(c.bucketSize, |c.buckets|, Total(c, now), times, now)
  {
    hide Histogram, Cleared;
    var log: seq<Event>, tick: int :| At(log, times) && Explains(c, log, tick);
    RotateExplained(c, log, tick, now);
    var r, later, n := Rotate(c, now), TickAt(c, tick, now), |c.buckets|;
    SumCountsWindow(log, later, n);
    WindowIsSuffix(log, later, n);
    forall i | 0 <= i < |log|
      ensures log[i].tick > later - n ==> now - times[i] <= LimitAge(c.bucketSize, n)
      ensures log[i].tick <= later - n ==> now - times[i] > SureAge(c.bucketSize, n)
    {
      EventInWindow(log[i], r.anchor, later, c.bucketSize, n, now);
    }
  }

  // Whole runs of a counter.

  datatype Access = Increment(now: int) | Read(now: int) | Reset(now: int)

  function Accessed(c: Counter, a: Access): (r: Counter)
    requires c.Valid()
    ensures r.Valid() && r.bucketSize == c.bucketSize && |r.buckets| == |c.buckets|
  {
    match a
    case Increment(now) => Incremented(c, now)
    case Read(now) => Rotate(c, now)
    case Reset(now) => Zeroed(c, now)
  }

  function After(c: Counter, run: seq<Access>): (r: Counter)
    requires c.Valid()
    ensures r.Valid() && r.bucketSize == c.bucketSize && |r.buckets| == |c.buckets|
  {
    if run == [] then c
    else Accessed(After(c, run[..|run| - 1]), run[|run| - 1])
  }

  /** The times of the increments since the last reset. */
  function IncrementTimes(run: seq<Access>): seq<int> {
    if run == [] then []
    else
      var before := IncrementTimes(run[..|run| - 1]);
      match run[|run| - 1]
      case Increment(now) => before + [now]
      case Read(_) => before
      case Reset(_) => []
  }

  /** The clock of the run starts at `start`, never goes back, and has not passed `end`. */
  ghost predicate Forward(start: int, run: seq<Access>, end: int) {
    && start <= end
    && (forall i :: 0 <= i < |run| ==> start <= run[i].now <= end)
    && (forall i, j :: 0 <= i <= j < |run| ==> run[i].now <= run[j].now)
  }

  /** The tick reached, and the increments since the last reset with their ticks. */
  datatype Trace = Trace(tick: int, log: seq<Event>)

  function TraceOf(c: Counter, run: seq<Access>): Trace
    requires c.Valid()
  {
    if run == [] then Trace(0, [])
    else
      var before, trace := After(c, run[..|run| - 1]), TraceOf(c, run[..|run| - 1]);
      match run[|run| - 1]
      case Increment(now) =>
        var tick := TickAt(before, trace.tick, now);
        Trace(tick, trace.log + [Event(now, tick)])
      case Read(now) => Trace(TickAt(before, trace.tick, now), trace.log)
      case Reset(_) => Trace(0, [])
  }

  lemma NewExplained(bucketSize: int, n: nat, now: int)
    requires 0 < bucketSize && 0 < n
    ensures Explains(NewCounter(bucketSize, n, now), [], 0)
  {
  }

  /** The trace explains the buckets, access by access. */
  lemma {:induction false} RunExplained(bucketSize: int, n: nat, start: int, run: seq<Access>, end: int)
    requires 0 < bucketSize && 0 < n && Forward(start, run, end)
    ensures var c := NewCounter(bucketSize, n, start);
            && Explains(After(c, run), TraceOf(c, run).log, TraceOf(c, run).tick)
            && At(TraceOf(c, run).log, IncrementTimes(run)) && After(c, run).anchor <= end
  {
    hide Explains, Rotate, Incremented, TickAt;
    NewExplained(bucketSize, n, start);
    if run != [] {
      var c, now := NewCounter(bucketSize, n, start), run[|run| - 1].now;
      RunExplained(bucketSize, n, start, run[..|run| - 1], now);
      var before, trace := After(c, run[..|run| - 1]), TraceOf(c, run[..|run| - 1]);
      RotateExplained(before, trace.log, trace.tick, now);
      IncrementExplained(before, trace.log, trace.tick, now);
      NewExplained(bucketSize, n, now);
    }
  }

  /** Over every run the bucket so far back from the current one counts exactly the increments
      since the last reset whose tick is so far back. */
  lemma BucketsOverRun(bucketSize: int, n: nat, start: int, run: seq<Access>, end: int, back: nat)
    requires 0 < bucketSize && back < n && Forward(start, run, end)
    ensures var c := NewCounter(bucketSize, n, start);
            var trace := TraceOf(c, run);
            && At(trace.log, IncrementTimes(run))
            && After(c, run).buckets[(After(c, run).current - back) % n] == CountTick(trace.log, trace.tick - back)
  {
    hide Histogram, TraceOf, After, Forward;
    var c := NewCounter(bucketSize, n, start);
    RunExplained(bucketSize, n, start, run, end);
    var trace := TraceOf(c, run);
    BucketHoldsOneTick(trace.log, trace.tick, n, back);
    ModAddLeft(trace.tick, 0 - back, n);
  }

  lemma RunRecords(bucketSize: int, n: nat, start: int, run: seq<Access>, end: int)
    requires 0 < bucketSize && 0 < n && Forward(start, run, end)
    ensures var c := After(NewCounter(bucketSize, n, start), run);
            Records(c, IncrementTimes(run)) && c.anchor <= end
  {
    hide Explains, TraceOf, After, Forward;
    RunExplained(bucketSize, n, start, run, end);
  }

  /** For every access pattern, a sum counts exactly the latest increments since the last reset. */
  lemma RollingSumIsRealTimeWindow(bucketSize: int, n: nat, start: int, run: seq<Access>, now: int)
    requires 0 < bucketSize && 0 < n && Forward(start, run, now)
    ensures var c := After(NewCounter(bucketSize, n, start), run);
            CountsLatest(bucketSize, n, Total(c, now), IncrementTimes(run), now)
  {
    RunRecords(bucketSize, n, start, run, now);
    TotalCountsLatest(After(NewCounter(bucketSize, n, start), run), IncrementTimes(run), now);
  }

  // Neither bound can be improved.

  /** An increment at the end of its bucket is lost one nanosecond past the sure age. */
  lemma SureAgeIsSharp(bucketSize: int, n: nat)
    requires 0 < bucketSize && 0 < n
    ensures var c := After(NewCounter(bucketSize, n, 0), [Increment(bucketSize - 1)]);
            Total(c, bucketSize - 1 + SureAge(bucketSize, n) + 1) == 0
  {
    var c, log := NewCounter(bucketSize, n, 0), [Event(bucketSize - 1, 0)];
    FirstIncrementExplained(c, bucketSize - 1);
    MulStep(n - 1, bucketSize);
    LostOnTheBoundary(Incremented(c, bucketSize - 1), log, n * bucketSize);
  }

  lemma FirstIncrementExplained(c: Counter, now: int)
    requires c.Valid() && c == NewCounter(c.bucketSize, |c.buckets|, 0) && 0 <= now < c.bucketSize
    ensures After(c, [Increment(now)]) == Incremented(c, now)
    ensures Explains(Incremented(c, now), [Event(now, 0)], 0) && Incremented(c, now).anchor == 0
  {
    AfterOne(c, Increment(now));
    DivModUnique(now, c.bucketSize, 0, now);
    assert Explains(c, [], 0);
    IncrementExplained(c, [], 0, now);
    assert [] + [Event(now, 0)] == [Event(now, 0)];
  }

  lemma LostOnTheBoundary(c: Counter, log: seq<Event>, now: int)
    requires Explains(c, log, 0) && c.anchor == 0 && now == |c.buckets| * c.bucketSize
    requires |log| == 1 && log[0].tick == 0
    ensures Total(c, now) == 0
  {
    RotateExplained(c, log, 0, now);
    DivModUnique(now, c.bucketSize, |c.buckets|, 0);
    SumCountsWindow(log, |c.buckets|, |c.buckets|);
    assert log[..0] == [];
  }

  lemma AfterOne(c: Counter, a: Access)
    requires c.Valid()
    ensures After(c, [a]) == Accessed(c, a)
  {
    assert [a][..0] == [];
    assert After(c, []) == c;
  }

  /** An increment at time zero, then reads `gap` apart. */
  function SpacedReads(gap: int, count: nat): seq<Access> {
    if count == 0 then [Increment(0)]
    else SpacedReads(gap, count - 1) + [Read(count * gap)]
  }

  lemma {:induction false} LateReadsMoveOneBucket(c: Counter, gap: int, count: nat)
    requires c.Valid() && c == NewCounter(c.bucketSize, |c.buckets|, 0) && gap == 2 * c.bucketSize - 1
    ensures Explains(After(c, SpacedReads(gap, count)), [Event(0, 0)], count)
    ensures After(c, SpacedReads(gap, count)).anchor == count * gap
  {
    var run := SpacedReads(gap, count);
    if count == 0 {
      FirstIncrementExplained(c, 0);
      assert count * gap == 0;
    } else {
      LateReadsMoveOneBucket(c, gap, count - 1);
      var earlier := SpacedReads(gap, count - 1);
      assert run[..|run| - 1] == earlier;
      MulStep(count - 1, gap);
      LateReadMovesOneBucket(After(c, earlier), [Event(0, 0)], count - 1, count * gap);
    }
  }

  lemma LateReadMovesOneBucket(c: Counter, log: seq<Event>, tick: int, now: int)
    requires Explains(c, log, tick) && now - c.anchor == 2 * c.bucketSize - 1
    ensures Explains(Rotate(c, now), log, tick + 1) && Rotate(c, now).anchor == now
  {
    DivModUnique(now - c.anchor, c.bucketSize, 1, c.bucketSize - 1);
    RotateExplained(c, log, tick, now);
  }

  /** With reads far enough apart an increment is still counted at the limit age. */
  lemma LimitAgeIsSharp(bucketSize: int, n: nat)
    requires 0 < bucketSize && 0 < n
    ensures var c := After(NewCounter(bucketSize, n, 0), SpacedReads(2 * bucketSize - 1, n - 1));
            Total(c, LimitAge(bucketSize, n)) == 1
  {
    hide Explains, After, SpacedReads;
    var gap := 2 * bucketSize - 1;
    LateReadsMoveOneBucket(NewCounter(bucketSize, n, 0), gap, n - 1);
    var c := After(NewCounter(bucketSize, n, 0), SpacedReads(gap, n - 1));
    KeptInLastBucket(c, [Event(0, 0)], c.anchor + bucketSize - 1);
  }

  lemma KeptInLastBucket(c: Counter, log: seq<Event>, now: int)
    requires Explains(c, log, |c.buckets| - 1) && now == c.anchor + c.bucketSize - 1
    requires |log| == 1 && log[0].tick == 0
    ensures Total(c, now) == 1
  {
    DivModUnique(now - c.anchor, c.bucketSize, 0, c.bucketSize - 1);
    assert Rotate(c, now) == c;
    SumCountsWindow(log, |c.buckets| - 1, |c.buckets|);
    assert log[..0] == [];
  }

  // Reading later never counts more.

  lemma TotalNeverGrows(c: Counter, now: int, later: int)
    requires c.Valid()
    ensures 0 <= Total(Rotate(c, now), later) <= Total(c, now)
  {
    var r := Rotate(c, now);
    SumZeros(|r.buckets|);
    SumMonotone(seq(|r.buckets|, _ => 0), Rotate(r, later).buckets);
    SumMonotone(Rotate(r, later).buckets, r.buckets);
  }
}
