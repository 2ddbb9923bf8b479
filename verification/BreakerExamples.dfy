/** Calls and counters from which runs with a certain outcome are made. */
module BreakerExamples {
  import opened Clocks
  import opened Outcomes
  import opened Numbers
  import opened RollingNumber
  import opened BreakerModel
  import opened BreakerRuns

  const PLAIN := Flags(true, false, false)
  const FORCED := Flags(true, false, true)
  const ASK := CallIsOpen(PLAIN)
  const SUCCESS := CallDo(PLAIN, Returned(None))
  const FAILURE := CallDo(PLAIN, Returned(Some(DeadlineExceeded)))

  // A counter with at most one bucket that is not zero.

  function Only(current: nat, position: nat, count: int, anchor: int): (c: Counter)
    ensures |c.buckets| == DEFAULT_WINDOW_BUCKETS && c.bucketSize == DEFAULT_BUCKET_SIZE && c.anchor == anchor
  {
    Counter(DEFAULT_BUCKET_SIZE, current, anchor, seq(DEFAULT_WINDOW_BUCKETS, i => if i == position then count else 0))
  }

  ghost predicate InRange(current: nat, position: nat, count: int) {
    current < DEFAULT_WINDOW_BUCKETS && position < DEFAULT_WINDOW_BUCKETS && 0 <= count
  }

  lemma NewIsOnly(position: nat, now: int)
    ensures NewCounter(DEFAULT_BUCKET_SIZE, DEFAULT_WINDOW_BUCKETS, now) == Only(0, position, 0, now)
  {
  }

  /** Without a count the position does not matter. */
  lemma NoneAnywhere(current: nat, position: nat, position': nat, anchor: int)
    ensures Only(current, position, 0, anchor) == Only(current, position', 0, anchor)
  {
  }

  lemma OnlySum(current: nat, position: nat, count: int, anchor: int)
    requires InRange(current, position, count)
    ensures Only(current, position, count, anchor).Valid()
    ensures Sum(Only(current, position, count, anchor).buckets) == count
  {
    SumZeros(DEFAULT_WINDOW_BUCKETS);
    SumUpdate(seq(DEFAULT_WINDOW_BUCKETS, _ => 0), position, count);
    assert seq(DEFAULT_WINDOW_BUCKETS, _ => 0)[position := count] == Only(current, position, count, anchor).buckets;
  }

  /** Within a bucket size of its anchor nothing moves. */
  lemma OnlyStays(current: nat, position: nat, count: int, anchor: int, now: int)
    requires InRange(current, position, count) && anchor <= now < anchor + DEFAULT_BUCKET_SIZE
    ensures var c := Only(current, position, count, anchor);
            && c.Valid() && Rotate(c, now) == c && Total(c, now) == count
            && (current == position ==> Incremented(c, now) == Only(current, position, count + 1, anchor))
  {
    OnlySum(current, position, count, anchor);
    DivModUnique(now - anchor, DEFAULT_BUCKET_SIZE, 0, now - anchor);
    var c := Only(current, position, count, anchor);
    assert c.buckets[position := count + 1] == Only(current, position, count + 1, anchor).buckets;
  }

  /** How many buckets on the bucket at a position is cleared. */
  function Distance(current: nat, position: nat): int {
    if current < position then position - current else position + DEFAULT_WINDOW_BUCKETS - current
  }

  lemma DistanceReaches(current: nat, position: nat)
    requires InRange(current, position, 0)
    ensures 1 <= Distance(current, position) <= DEFAULT_WINDOW_BUCKETS
    ensures (current + Distance(current, position)) % DEFAULT_WINDOW_BUCKETS == position
  {
  }

  lemma {:induction false} ClearedAll<T>(buffer: seq<T>, current: int, count: nat, empty: T, j: nat)
    requires 0 < |buffer| <= count && 1 <= j <= |buffer|
    ensures Cleared(buffer, current, count, empty)[(current + j) % |buffer|] == empty
  {
    if count == |buffer| {
      ClearedAt(buffer, current, count, empty, j);
    } else {
      ClearedAll(buffer, current, count - 1, empty, j);
    }
  }

  /** After any number of buckets the count is gone if its bucket has been reached. */
  lemma OnlyMoves(current: nat, position: nat, count: int, anchor: int, now: int, behind: nat)
    requires InRange(current, position, count) && 0 < behind == (now - anchor) / DEFAULT_BUCKET_SIZE
    ensures var c := Only(current, position, count, anchor);
            c.Valid()
            && Rotate(c, now) == Only((current + behind) % DEFAULT_WINDOW_BUCKETS, position,
                                      if Distance(current, position) <= behind then 0 else count, now)
  {
    OnlySum(current, position, count, anchor);
    var c := Only(current, position, count, anchor);
    var left := if Distance(current, position) <= behind then 0 else count;
    var r := Only((current + behind) % DEFAULT_WINDOW_BUCKETS, position, left, now);
    forall i: nat | i < DEFAULT_WINDOW_BUCKETS ensures Cleared(c.buckets, current, behind, 0)[i] == r.buckets[i] {
      DistanceReaches(current, i);
      if DEFAULT_WINDOW_BUCKETS <= behind {
        ClearedAll(c.buckets, current, behind, 0, Distance(current, i));
      } else {
        ClearedAt(c.buckets, current, behind, 0, Distance(current, i));
      }
    }
    assert Cleared(c.buckets, current, behind, 0) == r.buckets;
  }

  /** A counter moved on counts anew, in the bucket it has reached. */
  lemma OnlyMovesAndCounts(current: nat, position: nat, count: int, anchor: int, now: int, behind: nat)
    requires InRange(current, position, count) && 0 < behind == (now - anchor) / DEFAULT_BUCKET_SIZE
    requires count == 0 || Distance(current, position) <= behind
    ensures var c, reached := Only(current, position, count, anchor), (current + behind) % DEFAULT_WINDOW_BUCKETS;
            c.Valid() && Incremented(c, now) == Only(reached, reached, 1, now)
  {
    var reached := (current + behind) % DEFAULT_WINDOW_BUCKETS;
    OnlyMoves(current, position, count, anchor, now, behind);
    NoneAnywhere(reached, position, reached, now);
    assert Only(reached, reached, 0, now).buckets[reached := 1] == Only(reached, reached, 1, now).buckets;
  }

  lemma BehindIs(now: int, anchor: int, behind: int)
    requires behind * DEFAULT_BUCKET_SIZE <= now - anchor < (behind + 1) * DEFAULT_BUCKET_SIZE
    ensures (now - anchor) / DEFAULT_BUCKET_SIZE == behind
  {
    MulStep(behind, DEFAULT_BUCKET_SIZE);
    DivModUnique(now - anchor, DEFAULT_BUCKET_SIZE, behind, now - anchor - behind * DEFAULT_BUCKET_SIZE);
  }
}
