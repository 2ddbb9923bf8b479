/**
 The rolling percentile against a log of the values added. It always keeps the latest
 values of each of its last ticks. As long as no access is a window or more late these
 are the ticks of the rolling counter, and its age bounds hold for it too; after such an
 access some old buckets stay, because the ticks advance only by the remainder.
 */
module PercentileWindow {
  import opened Numbers
  import opened PercentileBucket
  import opened PercentileModel
  import opened Percentiles
  import opened RollingNumber
  import Window = RollingWindow

  /** A value, the tick of the bucket that took it, and when. */
  datatype Item = Item(value: int, tick: int, time: int)

  function ValuesAt(log: seq<Item>, tick: int): seq<int> {
    if log == [] then []
    else
      var values := ValuesAt(log[..|log| - 1], tick);
      if log[|log| - 1].tick == tick then values + [log[|log| - 1].value] else values
  }

  /** How many buckets an access at `now` finds itself behind. */
  function Behind(p: Sampler, now: int): int
    requires p.Valid()
  {
    (now - p.anchor) / p.bucketSize
  }

  /** Less than a window late, on a clock that has not gone back. */
  ghost predicate Timely(p: Sampler, now: int)
    requires p.Valid()
  {
    p.anchor <= now && Behind(p, now) < |p.buckets|
  }

  /** How many buckets an access clears. */
  function Moved(p: Sampler, now: int): (moved: int)
    requires p.Valid()
    ensures 0 <= moved < |p.buckets|
  {
    if Behind(p, now) > 0 then Behind(p, now) % |p.buckets| else 0
  }

  /** The tick advances by the buckets cleared. */
  function TickAt(p: Sampler, tick: int, now: int): int
    requires p.Valid()
  {
    tick + Moved(p, now)
  }

  lemma TimelyMoves(p: Sampler, now: int)
    requires p.Valid() && Timely(p, now) && 0 <= Behind(p, now)
    ensures Moved(p, now) == Behind(p, now)
  {
    DivModUnique(Behind(p, now), |p.buckets|, 0, Behind(p, now));
  }

  // Positions and ticks.

  /** The tick of the last n whose bucket is at a position. */
  function TickOf(tick: int, n: nat, position: nat): int
    requires 0 < n
  {
    tick - (tick - position) % n
  }

  lemma TickOfPosition(tick: int, n: nat, position: nat)
    requires position < n
    ensures tick - n < TickOf(tick, n, position) <= tick && TickOf(tick, n, position) % n == position
  {
    var q := (tick - position) / n;
    assert tick - position == n * q + (tick - position) % n;
    DivModUnique(TickOf(tick, n, position), n, q, position);
  }

  /** Every tick of the last n has its bucket at its remainder. */
  lemma PositionOfTick(tick: int, n: nat, t: int)
    requires 0 < n && tick - n < t <= tick
    ensures TickOf(tick, n, t % n) == t
  {
    TickOfPosition(tick, n, t % n);
    var t' := TickOf(tick, n, t % n);
    if t < t' {
      ModDistinct(t, t', n);
    } else if t' < t {
      ModDistinct(t', t, n);
    }
  }

  /** Each bucket is the ring of the values added in one tick of the last n. */
  ghost predicate Explains(p: Sampler, log: seq<Item>, tick: int) {
    && p.Valid()
    && p.current == tick % |p.buckets|
    && (forall i :: 0 <= i < |log| ==> log[i].tick <= tick)
    && forall i :: 0 <= i < |p.buckets| ==> p.buckets[i] == RingOf(log, tick, |p.buckets|, p.maxItems, i)
  }

  function RingOf(log: seq<Item>, tick: int, n: nat, maxItems: nat, position: nat): Ring
    requires 0 < n && 0 < maxItems
  {
    Filled(maxItems, ValuesAt(log, TickOf(tick, n, position)))
  }

  lemma {:induction false} NoValuesYet(log: seq<Item>, tick: int)
    requires forall i :: 0 <= i < |log| ==> log[i].tick < tick
    ensures ValuesAt(log, tick) == []
  {
    if log != [] {
      NoValuesYet(log[..|log| - 1], tick);
    }
  }

  /** Moving on by fewer than n ticks, a position either gets a new tick, and is among
      those cleared, or keeps its tick. */
  lemma PositionMoves(tick: int, behind: nat, n: nat, position: nat) returns (j: nat)
    requires 0 < behind < n && position < n
    ensures 1 <= j <= n && (tick % n + j) % n == position
    ensures j <= behind <==> TickOf(tick + behind, n, position) > tick
    ensures behind < j ==> TickOf(tick + behind, n, position) == TickOf(tick, n, position)
  {
    TickOfPosition(tick + behind, n, position);
    var t := TickOf(tick + behind, n, position);
    if t > tick {
      j := t - tick;
      ModAddLeft(tick, j, n);
    } else {
      j := t + n - tick;
      ModAddLeft(tick, j, n);
      OnceRound(t, n);
      PositionOfTick(tick, n, t);
    }
  }

  /** The bucket at a position after any gap: empty if its tick is new, kept if it is not. */
  lemma TurnedBucket(p: Sampler, log: seq<Item>, tick: int, now: int, i: nat)
    requires Explains(p, log, tick) && 0 < Moved(p, now) && i < |p.buckets|
    ensures Turned(p, now).buckets[i] == RingOf(log, tick + Moved(p, now), |p.buckets|, p.maxItems, i)
  {
    hide TickOf;
    var n, moved := |p.buckets|, Moved(p, now);
    var j := PositionMoves(tick, moved, n, i);
    ClearedAt(p.buckets, p.current, moved, EmptyRing(p.maxItems), j);
    if j <= moved {
      NoValuesYet(log, TickOf(tick + moved, n, i));
    }
  }

  lemma NoneMoved(p: Sampler, now: int)
    requires p.Valid() && Moved(p, now) == 0
    ensures Turned(p, now).buckets == p.buckets
  {
  }

  /** The current bucket moves by the gap, which is the same as by its remainder. */
  lemma CurrentMoves(p: Sampler, tick: int, now: int)
    requires p.Valid() && p.current == tick % |p.buckets|
    ensures Turned(p, now).current == TickAt(p, tick, now) % |p.buckets|
  {
    var n, behind := |p.buckets|, Behind(p, now);
    if 0 < behind {
      ModAddLeft(tick, behind, n);
      ModAddLeft(behind, tick, n);
    }
  }

  lemma TurnExplained(p: Sampler, log: seq<Item>, tick: int, now: int)
    requires Explains(p, log, tick) && p.anchor <= now
    ensures Explains(Turned(p, now), log, TickAt(p, tick, now))
  {
    CurrentMoves(p, tick, now);
    hide RingOf, Cleared, Behind;
    if 0 < Moved(p, now) {
      forall i | 0 <= i < |p.buckets|
        ensures Turned(p, now).buckets[i] == RingOf(log, tick + Moved(p, now), |p.buckets|, p.maxItems, i)
      {
        TurnedBucket(p, log, tick, now, i);
      }
    } else {
      NoneMoved(p, now);
    }
  }

  /** The buckets of a percentile move exactly like those of a rolling counter, and are anchored at the same times;
      only what they clear differs. */
  lemma MovesLikeCounter(p: Sampler, c: Counter, now: int)
    requires p.Valid() && c.Valid() && |c.buckets| == |p.buckets| && c.bucketSize == p.bucketSize
    requires c.current == p.current && c.anchor == p.anchor
    ensures Turned(p, now).current == Rotate(c, now).current && Turned(p, now).anchor == Rotate(c, now).anchor
  {
  }

  lemma ValueAppended(log: seq<Item>, item: Item, t: int)
    ensures ValuesAt(log + [item], t) == if t == item.tick then ValuesAt(log, t) + [item.value] else ValuesAt(log, t)
  {
    var log' := log + [item];
    assert log'[..|log'| - 1] == log;
  }

  lemma FilledAppended(size: nat, added: seq<int>, v: int)
    requires 0 < size
    ensures Filled(size, added + [v]) == Added(Filled(size, added), v)
  {
    assert (added + [v])[..|added + [v]| - 1] == added;
  }

  lemma CurrentPosition(tick: int, n: nat, i: nat)
    requires i < n
    ensures TickOf(tick, n, i) == tick <==> i == tick % n
  {
    TickOfPosition(tick, n, i);
    PositionOfTick(tick, n, tick);
  }

  lemma BucketAfterItem(p: Sampler, log: seq<Item>, item: Item, i: nat)
    requires Explains(p, log, item.tick) && i < |p.buckets|
    ensures RingOf(log + [item], item.tick, |p.buckets|, p.maxItems, i)
         == if i == p.current then Added(p.buckets[i], item.value) else p.buckets[i]
  {
    hide TickOf, Added, Filled, ValuesAt;
    var n := |p.buckets|;
    var t := TickOf(item.tick, n, i);
    CurrentPosition(item.tick, n, i);
    ValueAppended(log, item, t);
    FilledAppended(p.maxItems, ValuesAt(log, t), item.value);
  }

  lemma ItemAdded(p: Sampler, log: seq<Item>, item: Item)
    requires Explains(p, log, item.tick)
    ensures Explains(p.(buckets := p.buckets[p.current := Added(p.buckets[p.current], item.value)]), log + [item],
                     item.tick)
  {
    hide RingOf, Added;
    forall i | 0 <= i < |p.buckets|
      ensures p.buckets[p.current := Added(p.buckets[p.current], item.value)][i]
           == RingOf(log + [item], item.tick, |p.buckets|, p.maxItems, i)
    {
      BucketAfterItem(p, log, item, i);
    }
  }

  // The times of the items, in step with the ticks as those of the rolling counter.

  ghost predicate ItemsDated(p: Sampler, log: seq<Item>, tick: int) {
    forall i :: 0 <= i < |log| ==> Window.Dated(Window.Event(log[i].time, log[i].tick), p.anchor, tick, p.bucketSize)
  }

  /** After an access the clock is within a bucket size of the anchor. */
  ghost predicate Current(p: Sampler, now: int) {
    p.anchor <= now < p.anchor + p.bucketSize
  }

  lemma TurnCurrent(p: Sampler, now: int)
    requires p.Valid() && p.anchor <= now
    ensures Current(Turned(p, now), now)
  {
    BehindBound(now - p.anchor, p.bucketSize);
  }

  /** A move of less than a window takes as long as its buckets allow. */
  lemma TurnDated(p: Sampler, log: seq<Item>, tick: int, now: int)
    requires p.Valid() && ItemsDated(p, log, tick) && Timely(p, now)
    ensures ItemsDated(Turned(p, now), log, TickAt(p, tick, now))
  {
    hide Window.Dated;
    if Behind(p, now) > 0 {
      TimelyMoves(p, now);
      forall i | 0 <= i < |log|
        ensures Window.Dated(Window.Event(log[i].time, log[i].tick), now, TickAt(p, tick, now), p.bucketSize)
      {
        Window.DatedAdvances(Window.Event(log[i].time, log[i].tick), p.anchor, tick, p.bucketSize, now);
      }
    }
  }

  lemma ItemDated(p: Sampler, item: Item)
    requires Current(p, item.time)
    ensures Window.Dated(Window.Event(item.time, item.tick), p.anchor, item.tick, p.bucketSize)
  {
  }

  // Runs on a clock that does not go back.

  datatype Access = Add(now: int, value: int) | Read(now: int)

  /** A state with its ghost tick and log. */
  datatype Logged = Logged(p: Sampler, tick: int, log: seq<Item>)

  function Accessed(s: Logged, a: Access): (s': Logged)
    requires s.p.Valid()
    ensures s'.p.Valid()
  {
    var later := TickAt(s.p, s.tick, a.now);
    match a
    case Add(now, v) => Logged(Recorded(s.p, now, v), later, s.log + [Item(v, later, now)])
    case Read(now) => Logged(Turned(s.p, now), later, s.log)
  }

  function After(p: Sampler, run: seq<Access>): (s: Logged)
    requires p.Valid()
    ensures s.p.Valid()
  {
    if run == [] then Logged(p, 0, []) else Accessed(After(p, run[..|run| - 1]), run[|run| - 1])
  }

  /** The time of the access before this one, or the start. */
  function Before(start: int, run: seq<Access>, i: int): int
    requires 0 <= i <= |run|
  {
    if i == 0 then start else run[i - 1].now
  }

  ghost predicate Forward(start: int, run: seq<Access>) {
    forall i :: 0 <= i < |run| ==> Before(start, run, i) <= run[i].now
  }

  /** What is known after an access, or at the start. */
  ghost predicate Explained(s: Logged, now: int) {
    Explains(s.p, s.log, s.tick) && Current(s.p, now)
  }

  lemma ExplainsValid(p: Sampler, log: seq<Item>, tick: int)
    requires Explains(p, log, tick)
    ensures p.Valid()
  {
  }

  lemma AccessExplained(s: Logged, before: int, a: Access)
    requires Explained(s, before) && before <= a.now
    ensures Explained(Accessed(s, a), a.now)
  {
    hide Explains, Turned, TickAt, Added, Behind;
    ExplainsValid(s.p, s.log, s.tick);
    TurnExplained(s.p, s.log, s.tick, a.now);
    TurnCurrent(s.p, a.now);
    if a.Add? {
      ItemAdded(Turned(s.p, a.now), s.log, Item(a.value, TickAt(s.p, s.tick, a.now), a.now));
    }
  }

  lemma ForwardPrefix(start: int, run: seq<Access>)
    requires run != [] && Forward(start, run)
    ensures Forward(start, run[..|run| - 1])
    ensures Before(start, run[..|run| - 1], |run| - 1) == Before(start, run, |run| - 1) <= run[|run| - 1].now
  {
    var before := run[..|run| - 1];
    forall i | 0 <= i < |before| ensures before[i] == run[i] && Before(start, before, i) == Before(start, run, i) {
    }
  }

  /** In every run each bucket is the ring of the values added in one of the last n ticks. */
  lemma {:induction false} RunExplained(bucketSize: int, n: nat, maxItems: nat, start: int, run: seq<Access>)
    requires 0 < bucketSize && 0 < n && 0 < maxItems && Forward(start, run)
    ensures var s := After(NewSampler(bucketSize, n, maxItems, start), run);
            Explained(s, Before(start, run, |run|))
  {
    hide Explained, Accessed;
    if run == [] {
      NothingExplained(bucketSize, n, maxItems, start);
    } else {
      var before, a := run[..|run| - 1], run[|run| - 1];
      ForwardPrefix(start, run);
      RunExplained(bucketSize, n, maxItems, start, before);
      AccessExplained(After(NewSampler(bucketSize, n, maxItems, start), before), Before(start, run, |before|), a);
    }
  }

  lemma NothingExplained(bucketSize: int, n: nat, maxItems: nat, start: int)
    requires 0 < bucketSize && 0 < n && 0 < maxItems
    ensures Explained(Logged(NewSampler(bucketSize, n, maxItems, start), 0, []), start)
  {
  }

  lemma ItemsDatedAppended(p: Sampler, log: seq<Item>, item: Item)
    requires p.Valid() && ItemsDated(p, log, item.tick)
    requires Window.Dated(Window.Event(item.time, item.tick), p.anchor, item.tick, p.bucketSize)
    ensures ItemsDated(p.(buckets := p.buckets[p.current := Added(p.buckets[p.current], item.value)]), log + [item],
                       item.tick)
  {
    hide Window.Dated, Added;
  }

  /** The latest values of each tick of the window, position by position. */
  function Recent(log: seq<Item>, tick: int, n: nat, maxItems: nat, positions: nat): seq<int>
    requires 0 < n
  {
    if positions == 0 then []
    else Recent(log, tick, n, maxItems, positions - 1) + Latest(ValuesAt(log, TickOf(tick, n, positions - 1)), maxItems)
  }

  lemma BucketIsRing(p: Sampler, log: seq<Item>, tick: int, i: nat)
    requires Explains(p, log, tick) && i < |p.buckets|
    ensures 0 < p.maxItems && p.buckets[i] == Filled(p.maxItems, ValuesAt(log, TickOf(tick, |p.buckets|, i)))
  {
    hide TickOf, ValuesAt, Filled;
  }

  lemma PoolPushed(buckets: seq<Ring>, i: nat)
    requires i < |buckets|
    ensures Pool(buckets[..i + 1]) == Pool(buckets[..i]) + buckets[i].vals
  {
    assert buckets[..i + 1][..i] == buckets[..i];
  }

  lemma RecentPushed(log: seq<Item>, tick: int, n: nat, maxItems: nat, i: nat)
    requires 0 < n
    ensures Recent(log, tick, n, maxItems, i + 1)
         == Recent(log, tick, n, maxItems, i) + Latest(ValuesAt(log, TickOf(tick, n, i)), maxItems)
  {
  }

  lemma {:induction false} PoolIsRecent(p: Sampler, log: seq<Item>, tick: int, positions: nat)
    requires Explains(p, log, tick) && positions <= |p.buckets|
    ensures multiset(Pool(p.buckets[..positions])) == multiset(Recent(log, tick, |p.buckets|, p.maxItems, positions))
  {
    if positions > 0 {
      var n, i := |p.buckets|, positions - 1;
      PoolIsRecent(p, log, tick, i);
      BucketIsRing(p, log, tick, i);
      PoolPushed(p.buckets, i);
      RingIsLatest(p.maxItems, ValuesAt(log, TickOf(tick, n, i)));
      RecentPushed(log, tick, n, p.maxItems, i);
      hide *;
    }
  }

  /** The pooled values of any run: per tick of the last n, the latest `maxItems` values
      added in it, and nothing else. */
  lemma PooledValuesAreRecent(bucketSize: int, n: nat, maxItems: nat, start: int, run: seq<Access>, now: int)
    requires 0 < bucketSize && 0 < n && 0 < maxItems && Forward(start, run + [Read(now)])
    ensures var s := After(NewSampler(bucketSize, n, maxItems, start), run + [Read(now)]);
            && s.p == Turned(After(NewSampler(bucketSize, n, maxItems, start), run).p, now)
            && multiset(Pool(s.p.buckets)) == multiset(Recent(s.log, s.tick, n, maxItems, n))
  {
    var p := NewSampler(bucketSize, n, maxItems, start);
    RunExplained(bucketSize, n, maxItems, start, run + [Read(now)]);
    assert (run + [Read(now)])[..|run|] == run;
    var s := After(p, run + [Read(now)]);
    SizesKept(p, run + [Read(now)]);
    PoolIsRecent(s.p, s.log, s.tick, n);
    assert s.p.buckets[..n] == s.p.buckets;
  }

  /** So the percentile read after any run is that of exactly these values, and the mean is theirs. */
  lemma PercentileOfRecent(bucketSize: int, n: nat, maxItems: nat, start: int, run: seq<Access>, now: int,
                           percentile: real)
    requires 0 < bucketSize && 0 < n && 0 < maxItems && Forward(start, run + [Read(now)])
    ensures var p := After(NewSampler(bucketSize, n, maxItems, start), run).p;
            var s := After(NewSampler(bucketSize, n, maxItems, start), run + [Read(now)]);
            exists pool, sorted ::
              && multiset(pool) == multiset(sorted)
              && multiset(sorted) == multiset(Recent(s.log, s.tick, n, maxItems, n))
              && Ascending(sorted) && IsPercentile(percentile, sorted, PercentileAt(p, now, percentile))
              && IsMean(pool, MeanAt(p, now))
  {
    hide After, Recent, Pool, IsPercentile, IsMean, Ascending;
    PooledValuesAreRecent(bucketSize, n, maxItems, start, run, now);
    var pool := Pool(Turned(After(NewSampler(bucketSize, n, maxItems, start), run).p, now).buckets);
    var sorted := Sort(pool);
    PercentileIsExact(percentile, sorted);
    MeanIsExact(pool);
    var q := After(NewSampler(bucketSize, n, maxItems, start), run).p;
    assert IsMean(pool, MeanAt(q, now));
  }

  lemma {:induction false} SizesKept(p: Sampler, run: seq<Access>)
    requires p.Valid()
    ensures var s := After(p, run);
            |s.p.buckets| == |p.buckets| && s.p.maxItems == p.maxItems && s.p.bucketSize == p.bucketSize
  {
    if run != [] {
      SizesKept(p, run[..|run| - 1]);
    }
  }

  // Gaps of a window or more.

  function Position(current: int, j: int, n: nat): int
    requires 0 < n
  {
    (current + j) % n
  }

  /** The positions a rotation loop of this many steps clears. */
  ghost function Positions(current: int, steps: int, n: nat): set<int>
    requires 0 < n
  {
    set j | 1 <= j <= steps :: Position(current, j, n)
  }

  /** The rotation loops of the counter and of the percentile clear the same buckets
      exactly when the access is less than a window late. */
  lemma SameBucketsClearedIffShortGap(current: int, behind: nat, n: nat)
    requires 0 < n
    ensures Positions(current, behind, n) == Positions(current, behind % n, n) <==> behind < n
  {
    if behind < n {
      DivModUnique(behind, n, 0, behind);
    } else {
      FirstKept(current, behind % n, n);
      assert Position(current, behind % n + 1, n) in Positions(current, behind, n);
    }
  }

  lemma FirstKept(current: int, steps: nat, n: nat)
    requires steps < n
    ensures Position(current, steps + 1, n) !in Positions(current, steps, n)
  {
    forall i | 1 <= i <= steps ensures Position(current, i, n) != Position(current, steps + 1, n) {
      ModDistinct(current + i, current + steps + 1, n);
    }
  }

  /** After a gap of a window or more, every bucket beyond the remainder keeps its stale values;
      after a whole number of windows, all of them do. */
  lemma LongGapKeepsStaleBuckets(p: Sampler, now: int, j: nat)
    requires p.Valid() && |p.buckets| <= Behind(p, now)
    requires Behind(p, now) % |p.buckets| < j <= |p.buckets|
    ensures var position := (p.current + j) % |p.buckets|;
            Turned(p, now).buckets[position] == p.buckets[position]
    ensures Behind(p, now) % |p.buckets| == 0 ==> Turned(p, now).buckets == p.buckets
  {
    ClearedAt(p.buckets, p.current, Behind(p, now) % |p.buckets|, EmptyRing(p.maxItems), j);
  }

  lemma PositionReached(current: nat, n: nat, i: nat) returns (j: nat)
    requires current < n && i < n
    ensures 1 <= j <= n && (current + j) % n == i
  {
    j := if current < i then i - current else i + n - current;
    DivModUnique(i, n, 0, i);
    if current >= i {
      OnceRound(i, n);
    }
  }

  lemma {:induction false} ValuesAtTick(log: seq<Item>, tick: int)
    ensures ValuesAt(log, tick) == [] <==> forall i :: 0 <= i < |log| ==> log[i].tick != tick
  {
    if log != [] {
      ValuesAtTick(log[..|log| - 1], tick);
      assert forall i :: 0 <= i < |log| - 1 ==> log[..|log| - 1][i] == log[i];
    }
  }

  lemma FilledIsEmpty(size: nat, added: seq<int>)
    requires 0 < size
    ensures Filled(size, added) == EmptyRing(size) <==> added == []
  {
  }

  /** The position j ahead of the current one holds the tick n - j back. */
  lemma TickAhead(tick: int, n: nat, j: nat)
    requires 0 < n && 1 <= j <= n
    ensures TickOf(tick, n, Position(tick % n, j, n)) == tick - n + j
  {
    ModAddLeft(tick, j, n);
    OnceRound(tick - n + j, n);
    PositionOfTick(tick, n, tick - n + j);
  }

  /** No value was added in the ticks whose buckets a rotation by the remainder leaves as they are. */
  ghost predicate NoneKept(log: seq<Item>, tick: int, n: nat, behind: nat)
    requires 0 < n
  {
    forall i :: 0 <= i < |log| ==> log[i].tick <= tick - (n - behind % n)
  }

  /** A bucket after a long gap: its tick is new, so it should be empty; it is unless it was kept
      and a value was added in its tick. */
  lemma BucketAfterLongGap(p: Sampler, log: seq<Item>, tick: int, now: int, j: nat)
    requires Explains(p, log, tick) && |p.buckets| <= Behind(p, now) && 1 <= j <= |p.buckets|
    ensures var n, i := |p.buckets|, Position(p.current, j, |p.buckets|);
            Turned(p, now).buckets[i] == RingOf(log, tick + Behind(p, now), n, p.maxItems, i)
            <==> (j <= Behind(p, now) % n || forall x :: 0 <= x < |log| ==> log[x].tick != tick - n + j)
  {
    hide Filled, EmptyRing, TickOf, ValuesAt;
    var n, behind, i := |p.buckets|, Behind(p, now), Position(p.current, j, |p.buckets|);
    TickOfPosition(tick + behind, n, i);
    NoValuesYet(log, TickOf(tick + behind, n, i));
    FilledIsEmpty(p.maxItems, []);
    ClearedAt(p.buckets, p.current, behind % n, EmptyRing(p.maxItems), j);
    TickAhead(tick, n, j);
    ValuesAtTick(log, tick - n + j);
    FilledIsEmpty(p.maxItems, ValuesAt(log, tick - n + j));
  }

  /** So after a gap of a window or more the percentile still holds exactly the values of its
      window just when no value had been added in the last n - behind % n ticks. */
  lemma LongGapHarmlessIffNoneKept(p: Sampler, log: seq<Item>, tick: int, now: int)
    requires Explains(p, log, tick) && |p.buckets| <= Behind(p, now)
    ensures Explains(Turned(p, now), log, tick + Behind(p, now)) <==> NoneKept(log, tick, |p.buckets|, Behind(p, now))
  {
    hide RingOf, Cleared, TickOf;
    var n, behind, turned := |p.buckets|, Behind(p, now), Turned(p, now);
    ModAddLeft(tick, behind, n);
    if NoneKept(log, tick, n, behind) {
      forall i | 0 <= i < n ensures turned.buckets[i] == RingOf(log, tick + behind, n, p.maxItems, i) {
        var j := PositionReached(p.current, n, i);
        BucketAfterLongGap(p, log, tick, now, j);
      }
    } else {
      var x :| 0 <= x < |log| && log[x].tick > tick - (n - behind % n);
      BucketAfterLongGap(p, log, tick, now, log[x].tick - tick + n);
    }
  }

  // Ages, for accesses with bounded gaps on a clock that does not go back.

  /** No access comes more than n - 1 bucket sizes after the one before it. */
  ghost predicate Brief(bucketSize: int, n: nat, start: int, run: seq<Access>) {
    forall i :: 0 <= i < |run| ==>
      Before(start, run, i) <= run[i].now <= Before(start, run, i) + Window.SureAge(bucketSize, n)
  }

  lemma BriefPrefix(bucketSize: int, n: nat, start: int, run: seq<Access>)
    requires run != [] && Brief(bucketSize, n, start, run)
    ensures Brief(bucketSize, n, start, run[..|run| - 1]) && Forward(start, run)
  {
    hide Window.SureAge;
    var before := run[..|run| - 1];
    forall i | 0 <= i < |before| ensures before[i] == run[i] && Before(start, before, i) == Before(start, run, i) {
    }
  }

  lemma BriefAccessIsTimely(p: Sampler, before: int, now: int)
    requires p.Valid() && Current(p, before) && before <= now <= before + Window.SureAge(p.bucketSize, |p.buckets|)
    ensures Timely(p, now)
  {
    var behind, n := Behind(p, now), |p.buckets|;
    assert now - p.anchor == behind * p.bucketSize + (now - p.anchor) % p.bucketSize;
    MulStep(n - 1, p.bucketSize);
    if n <= behind {
      MulMonotone(n, behind, p.bucketSize);
    }
  }

  lemma AccessDated(s: Logged, a: Access)
    requires s.p.Valid() && ItemsDated(s.p, s.log, s.tick) && Timely(s.p, a.now)
    ensures ItemsDated(Accessed(s, a).p, Accessed(s, a).log, Accessed(s, a).tick)
  {
    hide ItemsDated, Turned, TickAt, Added, Window.Dated, Behind;
    TurnDated(s.p, s.log, s.tick, a.now);
    TurnCurrent(s.p, a.now);
    if a.Add? {
      var t, item := Turned(s.p, a.now), Item(a.value, TickAt(s.p, s.tick, a.now), a.now);
      ItemDated(t, item);
      ItemsDatedAppended(t, s.log, item);
    }
  }

  /** Under brief gaps the ticks are in step with time. */
  lemma {:induction false} RunDated(bucketSize: int, n: nat, maxItems: nat, start: int, run: seq<Access>)
    requires 0 < bucketSize && 0 < n && 0 < maxItems && Brief(bucketSize, n, start, run)
    ensures var s := After(NewSampler(bucketSize, n, maxItems, start), run);
            ItemsDated(s.p, s.log, s.tick)
  {
    var p := NewSampler(bucketSize, n, maxItems, start);
    if run != [] {
      var before := run[..|run| - 1];
      BriefPrefix(bucketSize, n, start, run);
      ForwardPrefix(start, run);
      RunDated(bucketSize, n, maxItems, start, before);
      hide Timely, Accessed, Explains, Window.SureAge, ItemsDated;
      RunExplained(bucketSize, n, maxItems, start, before);
      SizesKept(p, before);
      BriefAccessIsTimely(After(p, before).p, Before(start, run, |before|), run[|before|].now);
      AccessDated(After(p, before), run[|before|]);
    }
  }

  /** The values added in a run, with their times. */
  function Additions(run: seq<Access>): seq<(int, int)> {
    if run == [] then []
    else Additions(run[..|run| - 1]) + if run[|run| - 1].Add? then [(run[|run| - 1].value, run[|run| - 1].now)] else []
  }

  lemma {:induction false} LogIsAdditions(p: Sampler, run: seq<Access>)
    requires p.Valid()
    ensures var log := After(p, run).log;
            |log| == |Additions(run)| && forall i :: 0 <= i < |log| ==> (log[i].value, log[i].time) == Additions(run)[i]
  {
    hide Recorded, Turned, TickAt;
    if run != [] {
      LogIsAdditions(p, run[..|run| - 1]);
    }
  }

  /** How many values have been added after this one in its tick. */
  function Followers(log: seq<Item>, i: nat): nat
    requires i < |log|
  {
    |ValuesAt(log[i + 1..], log[i].tick)|
  }

  lemma {:induction false} ValuesSplit(first: seq<Item>, second: seq<Item>, tick: int)
    ensures ValuesAt(first + second, tick) == ValuesAt(first, tick) + ValuesAt(second, tick)
  {
    if second == [] {
      assert first + second == first;
    } else {
      assert (first + second)[..|first + second| - 1] == first + second[..|second| - 1];
      ValuesSplit(first, second[..|second| - 1], tick);
    }
  }

  lemma LatestKeeps(before: seq<int>, v: int, after: seq<int>, size: nat)
    requires |after| < size
    ensures v in Latest(before + [v] + after, size)
  {
    var all := before + [v] + after;
    assert all[|before|] == v;
    assert |all| > size ==> Latest(all, size)[|before| - (|all| - size)] == v;
    assert |all| <= size ==> Latest(all, size)[|before|] == v;
  }

  lemma OneValue(item: Item)
    ensures ValuesAt([item], item.tick) == [item.value]
  {
    assert [item][..0] == [];
  }

  /** A value with fewer than size followers is among the latest of its tick. */
  lemma FewFollowersKept(log: seq<Item>, i: nat, size: nat)
    requires i < |log| && Followers(log, i) < size
    ensures log[i].value in Latest(ValuesAt(log, log[i].tick), size)
  {
    hide ValuesAt, Latest;
    var t := log[i].tick;
    assert log == log[..i] + [log[i]] + log[i + 1..];
    ValuesSplit(log[..i] + [log[i]], log[i + 1..], t);
    ValuesSplit(log[..i], [log[i]], t);
    OneValue(log[i]);
    LatestKeeps(ValuesAt(log[..i], t), log[i].value, ValuesAt(log[i + 1..], t), size);
  }

  lemma {:induction false} ValueHasItem(log: seq<Item>, tick: int, v: int) returns (i: nat)
    requires v in ValuesAt(log, tick)
    ensures i < |log| && log[i].value == v && log[i].tick == tick
  {
    var last := |log| - 1;
    if log[last].tick == tick && log[last].value == v {
      i := last;
    } else {
      i := ValueHasItem(log[..last], tick, v);
    }
  }

  lemma {:induction false} RecentFromTick(log: seq<Item>, tick: int, n: nat, maxItems: nat, positions: nat, v: int)
    returns (t: int)
    requires 0 < n && positions <= n && v in Recent(log, tick, n, maxItems, positions)
    ensures tick - n < t <= tick && v in ValuesAt(log, t)
  {
    hide ValuesAt, TickOf;
    TickOfPosition(tick, n, positions - 1);
    t := TickOf(tick, n, positions - 1);
    if v !in Latest(ValuesAt(log, t), maxItems) {
      t := RecentFromTick(log, tick, n, maxItems, positions - 1, v);
    }
  }

  lemma {:induction false} TickInRecent(log: seq<Item>, tick: int, n: nat, maxItems: nat, positions: nat, q: nat,
                                        v: int)
    requires 0 < n && q < positions && v in Latest(ValuesAt(log, TickOf(tick, n, q)), maxItems)
    ensures v in Recent(log, tick, n, maxItems, positions)
  {
    hide ValuesAt, TickOf, Latest;
    if q < positions - 1 {
      TickInRecent(log, tick, n, maxItems, positions - 1, q, v);
    }
  }

  /** In every run with such gaps no pooled value is past the limit age of the rolling counter, and
      every value within its sure age is pooled unless maxItems later ones of its tick displace it. */
  lemma PooledValuesByAge(bucketSize: int, n: nat, maxItems: nat, start: int, run: seq<Access>, now: int)
    requires 0 < bucketSize && 0 < n && 0 < maxItems && Brief(bucketSize, n, start, run + [Read(now)])
    ensures var s := After(NewSampler(bucketSize, n, maxItems, start), run + [Read(now)]);
            && (forall v :: v in Pool(s.p.buckets) ==>
                  exists i :: 0 <= i < |s.log| && s.log[i].value == v
                    && now - s.log[i].time <= Window.LimitAge(bucketSize, n))
            && (forall i ::
                  && 0 <= i < |s.log| && now - s.log[i].time <= Window.SureAge(bucketSize, n)
                  && Followers(s.log, i) < maxItems ==>
                    s.log[i].value in Pool(s.p.buckets))
  {
    hide Accessed, Brief, Explains, Recent, Followers, Pool, ItemsDated;
    var accesses := run + [Read(now)];
    var s := After(NewSampler(bucketSize, n, maxItems, start), accesses);
    BriefPrefix(bucketSize, n, start, accesses);
    RunDated(bucketSize, n, maxItems, start, accesses);
    RunExplained(bucketSize, n, maxItems, start, accesses);
    PooledValuesAreRecent(bucketSize, n, maxItems, start, run, now);
    SizesKept(NewSampler(bucketSize, n, maxItems, start), accesses);
    forall v | v in Pool(s.p.buckets)
      ensures exists i :: 0 <= i < |s.log| && s.log[i].value == v
                && now - s.log[i].time <= Window.LimitAge(bucketSize, n)
    {
      assert v in multiset(Pool(s.p.buckets));
      PooledIsYoung(s, n, now, v);
    }
    forall i | 0 <= i < |s.log| && now - s.log[i].time <= Window.SureAge(bucketSize, n)
                 && Followers(s.log, i) < maxItems
      ensures s.log[i].value in Pool(s.p.buckets)
    {
      YoungIsPooled(s, n, now, i);
      assert s.log[i].value in multiset(Pool(s.p.buckets));
    }
  }

  lemma PooledIsYoung(s: Logged, n: nat, now: int, v: int)
    requires s.p.Valid() && ItemsDated(s.p, s.log, s.tick) && Current(s.p, now) && 0 < n
    requires v in Recent(s.log, s.tick, n, s.p.maxItems, n)
    ensures exists i :: 0 <= i < |s.log| && s.log[i].value == v
              && now - s.log[i].time <= Window.LimitAge(s.p.bucketSize, n)
  {
    hide Window.Dated, Recent, ValuesAt;
    var t := RecentFromTick(s.log, s.tick, n, s.p.maxItems, n, v);
    var i := ValueHasItem(s.log, t, v);
    Window.EventInWindow(Window.Event(s.log[i].time, s.log[i].tick), s.p.anchor, s.tick, s.p.bucketSize, n, now);
  }

  lemma YoungIsPooled(s: Logged, n: nat, now: int, i: nat)
    requires Explained(s, now) && ItemsDated(s.p, s.log, s.tick) && n == |s.p.buckets| && i < |s.log|
    requires now - s.log[i].time <= Window.SureAge(s.p.bucketSize, n) && Followers(s.log, i) < s.p.maxItems
    ensures s.log[i].value in Recent(s.log, s.tick, n, s.p.maxItems, n)
  {
    hide Window.Dated, Recent, ValuesAt, RingOf, Followers, TickOf;
    var t := s.log[i].tick;
    Window.EventInWindow(Window.Event(s.log[i].time, t), s.p.anchor, s.tick, s.p.bucketSize, n, now);
    PositionOfTick(s.tick, n, t);
    FewFollowersKept(s.log, i, s.p.maxItems);
    TickInRecent(s.log, s.tick, n, s.p.maxItems, n, t % n, s.log[i].value);
  }
}
