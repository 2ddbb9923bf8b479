/** Which number the error percentage of a command is: the share of the failures in its five outcomes. */
module MetricsPercentage {
  import opened Clocks
  import opened Numbers
  import opened RollingNumber
  import opened RollingWindow
  import opened RequestLog
  import opened Model = MetricsModel

  /** What a reading made between two numbers of readings counts of an event. */
  ghost predicate Counted(clock: Readings, from: nat, to: nat, l: Ledger, e: ExecutionEvent, m: int) {
    exists i: nat ::
      from <= i <= to && CountsLatest(DEFAULT_BUCKET_SIZE, DEFAULT_WINDOW_BUCKETS, m, l.Times(e), clock(i))
  }

  /** The ledger after a reading, whose credits are the same. */
  function Read(l: Ledger, s: Step): Ledger {
    l.(counters := s.counters, next := s.next)
  }

  lemma ReadingCounts(clock: Readings, l: Ledger, e: ExecutionEvent)
    requires NonDecreasing(clock) && Tallied(clock, l)
    ensures var s := RollingSum(l.counters, clock, l.next, e);
            && Tallied(clock, Read(l, s)) && l.next <= s.next <= l.next + 1
            && CountsLatest(DEFAULT_BUCKET_SIZE, DEFAULT_WINDOW_BUCKETS, s.value, l.Times(e), clock(l.next))
  {
    hide Records, Rotate, Total, CountsLatest;
    var s := RollingSum(l.counters, clock, l.next, e);
    assert clock(l.next) <= clock(s.next);
    assert EventIsTallied(clock, l, e);
    NothingCounted(clock(l.next));
    if e in l.counters {
      TotalCountsLatest(l.counters[e], l.Times(e), clock(l.next));
      RotateRecords(l.counters[e], l.Times(e), clock(l.next));
    }
    forall x ensures EventIsTallied(clock, Read(l, s), x) {
      assert EventIsTallied(clock, l, x);
    }
  }

  lemma NothingCounted(now: int)
    ensures CountsLatest(DEFAULT_BUCKET_SIZE, DEFAULT_WINDOW_BUCKETS, 0, [], now)
  {
  }

  ghost predicate AllCounted(clock: Readings, from: nat, to: nat, l: Ledger, events: seq<ExecutionEvent>,
                             values: map<ExecutionEvent, int>)
  {
    forall e :: e in events ==> e in values && Counted(clock, from, to, l, e, values[e])
  }

  /** Each of several readings counts the latest credits of its event, at its own time. */
  lemma {:induction false} ReadingsCount(clock: Readings, l: Ledger, events: seq<ExecutionEvent>)
    returns (values: map<ExecutionEvent, int>)
    requires NonDecreasing(clock) && Tallied(clock, l) && NoRepeats(events)
    ensures forall e :: e in events <==> e in values
    ensures var s := RollingSums(l.counters, clock, l.next, events);
            && s.value == SumOf(events, values) && l.next <= s.next <= l.next + |events|
            && Tallied(clock, Read(l, s)) && AllCounted(clock, l.next, s.next, l, events, values)
  {
    hide NoRepeats, Tallied, RollingSum, CountsLatest;
    TalliedIsValid(clock, l);
    if events == [] {
      values := map[];
    } else {
      LastIsNew(events);
      var before, e := events[..|events| - 1], events[|events| - 1];
      var values' := ReadingsCount(clock, l, before);
      var s := RollingSums(l.counters, clock, l.next, before);
      ReadingCounts(clock, Read(l, s), e);
      var t := RollingSum(s.counters, clock, s.next, e);
      values := values'[e := t.value];
      SumOfExtended(before, values', e, t.value);
      assert Counted(clock, l.next, t.next, l, e, t.value);
      CountedLater(clock, l.next, s.next, t.next, l, before, values', e, t.value);
    }
  }

  lemma CountedLater(clock: Readings, from: nat, to: nat, to': nat, l: Ledger, before: seq<ExecutionEvent>,
                     values: map<ExecutionEvent, int>, e: ExecutionEvent, m: int)
    requires to <= to' && AllCounted(clock, from, to, l, before, values) && Counted(clock, from, to', l, e, m)
    requires e !in before
    ensures AllCounted(clock, from, to', l, before + [e], values[e := m])
  {
    hide CountsLatest;
  }

  /** The whole percentage of a part, rounded down; zero of nothing. */
  predicate IsPercentage(q: int, part: int, whole: int) {
    if whole == 0 then q == 0 else q * whole <= 100 * part < (q + 1) * whole
  }

  lemma PercentageFloors(part: int, whole: int)
    requires 0 < whole
    ensures IsPercentage(part * 100 / whole, part, whole)
  {
    var q := part * 100 / whole;
    assert part * 100 == q * whole + part * 100 % whole;
    MulStep(q, whole);
  }

  /** The same counts seen from the start, as of a wider stretch of readings. */
  lemma CountsWithin(clock: Readings, from: nat, to: nat, l: Ledger, s: Step, events: seq<ExecutionEvent>,
                     values: map<ExecutionEvent, int>, from': nat, to': nat)
    requires AllCounted(clock, from, to, Read(l, s), events, values) && from' <= from && to <= to'
    ensures AllCounted(clock, from', to', l, events, values)
  {
    hide CountsLatest;
    forall e | e in events ensures e in values && Counted(clock, from', to', l, e, values[e]) {
      var i: nat :| from <= i <= to
                    && CountsLatest(DEFAULT_BUCKET_SIZE, DEFAULT_WINDOW_BUCKETS, values[e], l.Times(e), clock(i));
    }
  }

  lemma CountNotNegative(m: int, times: seq<int>, now: int)
    requires CountsLatest(DEFAULT_BUCKET_SIZE, DEFAULT_WINDOW_BUCKETS, m, times, now)
    ensures 0 <= m
  {
  }

  /** Counts of the five outcomes of executions. */
  datatype Outcomes = Outcomes(success: int, failure: int, timeout: int, shortCircuited: int, semaphoreRejected: int) {
    function Failures(): int {
      failure + timeout + shortCircuited + semaphoreRejected
    }
  }

  ghost predicate FailuresCounted(clock: Readings, from: nat, to: nat, l: Ledger, c: Outcomes) {
    && Counted(clock, from, to, l, Failure, c.failure)
    && Counted(clock, from, to, l, Timeout, c.timeout)
    && Counted(clock, from, to, l, ShortCircuited, c.shortCircuited)
    && Counted(clock, from, to, l, SemaphoreRejected, c.semaphoreRejected)
  }

  /** Five counts of the outcomes, then four of the failures, each of the latest credits at the time of its reading:
      the percentage is the share of the second failures in the first outcomes. */
  ghost predicate SharesCounts(clock: Readings, l: Ledger, total: Outcomes, errors: Outcomes)
    requires Valid(l.counters)
  {
    && Counted(clock, l.next, l.next + 9, l, Success, total.success)
    && FailuresCounted(clock, l.next, l.next + 9, l, total)
    && FailuresCounted(clock, l.next, l.next + 9, l, errors)
    && IsPercentage(ErrorPercentage(l.counters, clock, l.next).value, errors.Failures(),
                    total.success + total.Failures())
  }

  /** The four failures among the readings. */
  lemma FailuresRead(clock: Readings, from: nat, to: nat, l: Ledger, values: map<ExecutionEvent, int>, success: int)
    returns (c: Outcomes)
    requires AllCounted(clock, from, to, l, ERRORS, values)
    ensures c.success == success && FailuresCounted(clock, from, to, l, c)
    ensures (forall e :: e in ERRORS ==> e in values) && SumOf(ERRORS, values) == c.Failures()
  {
    hide SumOf, Counted;
    assert ERRORS[0] == Failure && ERRORS[1] == Timeout && ERRORS[2] == ShortCircuited
           && ERRORS[3] == SemaphoreRejected;
    assert Failure in values && Timeout in values && ShortCircuited in values && SemaphoreRejected in values;
    SumOfFour(Failure, Timeout, ShortCircuited, SemaphoreRejected, values);
    c := Outcomes(success, values[Failure], values[Timeout], values[ShortCircuited], values[SemaphoreRejected]);
  }

  lemma OutcomesRead(clock: Readings, from: nat, to: nat, l: Ledger, values: map<ExecutionEvent, int>)
    returns (c: Outcomes)
    requires AllCounted(clock, from, to, l, REQUESTS, values)
    ensures Counted(clock, from, to, l, Success, c.success) && FailuresCounted(clock, from, to, l, c)
    ensures (forall e :: e in REQUESTS ==> e in values) && SumOf(REQUESTS, values) == c.success + c.Failures()
  {
    hide SumOf, Counted;
    assert REQUESTS[0] == Success;
    assert forall i :: 0 <= i < 4 ==> ERRORS[i] == REQUESTS[i + 1];
    assert forall e :: e in ERRORS ==> e in REQUESTS;
    SumsOfLists(values);
    c := FailuresRead(clock, from, to, l, values, values[Success]);
  }

  lemma PercentageOfSums(clock: Readings, l: Ledger)
    requires Valid(l.counters) && 0 <= RollingSums(l.counters, clock, l.next, REQUESTS).value
    ensures var s := RollingSums(l.counters, clock, l.next, REQUESTS);
            var t := RollingSums(s.counters, clock, s.next, ERRORS);
            IsPercentage(ErrorPercentage(l.counters, clock, l.next).value, t.value, s.value)
  {
    hide RollingSums;
    var s := RollingSums(l.counters, clock, l.next, REQUESTS);
    if s.value != 0 {
      PercentageFloors(RollingSums(s.counters, clock, s.next, ERRORS).value, s.value);
    }
  }

  lemma CountedNotNegative(clock: Readings, from: nat, to: nat, l: Ledger, e: ExecutionEvent, m: int)
    requires Counted(clock, from, to, l, e, m)
    ensures 0 <= m
  {
  }

  lemma ListsDoNotRepeat()
    ensures NoRepeats(REQUESTS) && NoRepeats(ERRORS) && |REQUESTS| == 5 && |ERRORS| == 4
  {
  }

  lemma TotalRead(clock: Readings, l: Ledger) returns (total: Outcomes)
    requires NonDecreasing(clock) && Tallied(clock, l)
    ensures var s := RollingSums(l.counters, clock, l.next, REQUESTS);
            && s.value == total.success + total.Failures() >= 0 && l.next <= s.next <= l.next + 5
            && Counted(clock, l.next, l.next + 9, l, Success, total.success)
            && FailuresCounted(clock, l.next, l.next + 9, l, total)
            && Tallied(clock, Read(l, s))
  {
    hide Tallied, SumOf, RollingSums, AllCounted, Counted, NoRepeats;
    TalliedIsValid(clock, l);
    ListsDoNotRepeat();
    var values := ReadingsCount(clock, l, REQUESTS);
    var s := RollingSums(l.counters, clock, l.next, REQUESTS);
    var from, to := l.next, l.next + 9;
    assert Read(l, Step(l.counters, l.next, 0)) == l;
    CountsWithin(clock, l.next, s.next, l, Step(l.counters, l.next, 0), REQUESTS, values, from, to);
    total := OutcomesRead(clock, from, to, l, values);
    CountedNotNegative(clock, from, to, l, Success, total.success);
    CountedNotNegative(clock, from, to, l, Failure, total.failure);
    CountedNotNegative(clock, from, to, l, Timeout, total.timeout);
    CountedNotNegative(clock, from, to, l, ShortCircuited, total.shortCircuited);
    CountedNotNegative(clock, from, to, l, SemaphoreRejected, total.semaphoreRejected);
  }

  lemma ErrorsRead(clock: Readings, l: Ledger, s: Step) returns (errors: Outcomes)
    requires NonDecreasing(clock) && Tallied(clock, Read(l, s)) && l.next <= s.next <= l.next + 5
    ensures RollingSums(s.counters, clock, s.next, ERRORS).value == errors.Failures()
    ensures FailuresCounted(clock, l.next, l.next + 9, l, errors)
  {
    assert Valid(s.counters);
    hide Tallied, SumOf, RollingSums, AllCounted, Counted, NoRepeats;
    ListsDoNotRepeat();
    var values := ReadingsCount(clock, Read(l, s), ERRORS);
    var t := RollingSums(s.counters, clock, s.next, ERRORS);
    CountsWithin(clock, s.next, t.next, l, s, ERRORS, values, l.next, l.next + 9);
    errors := FailuresRead(clock, l.next, l.next + 9, l, values, 0);
  }

  lemma TalliedIsValid(clock: Readings, l: Ledger)
    requires Tallied(clock, l)
    ensures Valid(l.counters)
  {
  }

  lemma ErrorPercentageShares(clock: Readings, l: Ledger) returns (total: Outcomes, errors: Outcomes)
    requires NonDecreasing(clock) && Tallied(clock, l)
    ensures SharesCounts(clock, l, total, errors)
  {
    hide Tallied, RollingSums, ErrorPercentage, IsPercentage, Counted, FailuresCounted;
    TalliedIsValid(clock, l);
    total := TotalRead(clock, l);
    var s := RollingSums(l.counters, clock, l.next, REQUESTS);
    errors := ErrorsRead(clock, l, s);
    PercentageOfSums(clock, l);
  }

  // On a clock that stands still meanwhile.

  ghost predicate Still(clock: Readings, k: nat, count: nat, now: int) {
    forall i :: k <= i < k + count ==> clock(i) == now
  }

  ghost predicate Anchored(cs: Counters, now: int) {
    Valid(cs) && forall e :: e in cs ==> cs[e].anchor <= now
  }

  /** What the events show now, together. */
  function Shown(cs: Counters, now: int, events: seq<ExecutionEvent>): int
    requires Valid(cs)
  {
    if events == [] then 0
    else Shown(cs, now, events[..|events| - 1]) + Peek(cs, events[|events| - 1], now)
  }

  lemma RotatedStill(c: Counter, now: int)
    requires c.Valid() && c.anchor <= now
    ensures Rotate(Rotate(c, now), now) == Rotate(c, now)
  {
    var r := Rotate(c, now);
    DivModUnique(now - r.anchor, r.bucketSize, 0, now - r.anchor);
  }

  lemma ReadingShows(cs: Counters, clock: Readings, k: nat, e: ExecutionEvent, now: int)
    requires Anchored(cs, now) && clock(k) == now
    ensures var s := RollingSum(cs, clock, k, e);
            && s.value == Peek(cs, e, now) && s.next <= k + 1 && Anchored(s.counters, now)
            && forall x :: Peek(s.counters, x, now) == Peek(cs, x, now)
  {
    hide Rotate;
    if e in cs {
      RotatedStill(cs[e], now);
    }
  }

  lemma {:induction false} ReadingsShow(cs: Counters, clock: Readings, k: nat, events: seq<ExecutionEvent>, now: int)
    requires Anchored(cs, now) && Still(clock, k, |events|, now)
    ensures var s := RollingSums(cs, clock, k, events);
            && s.value == Shown(cs, now, events) && s.next <= k + |events| && Anchored(s.counters, now)
            && forall x :: Peek(s.counters, x, now) == Peek(cs, x, now)
  {
    hide Peek, RollingSum;
    if events != [] {
      var before := events[..|events| - 1];
      ReadingsShow(cs, clock, k, before, now);
      var s := RollingSums(cs, clock, k, before);
      ReadingShows(s.counters, clock, s.next, events[|events| - 1], now);
    }
  }

  lemma {:induction false} ShownAlike(cs: Counters, cs': Counters, now: int, events: seq<ExecutionEvent>)
    requires Valid(cs) && Valid(cs') && forall x :: Peek(cs, x, now) == Peek(cs', x, now)
    ensures Shown(cs, now, events) == Shown(cs', now, events)
  {
    hide Peek;
    if events != [] {
      ShownAlike(cs, cs', now, events[..|events| - 1]);
    }
  }

  lemma ShownPushed(cs: Counters, now: int, events: seq<ExecutionEvent>, e: ExecutionEvent)
    requires Valid(cs)
    ensures Shown(cs, now, events + [e]) == Shown(cs, now, events) + Peek(cs, e, now)
  {
    assert (events + [e])[..|events|] == events;
  }

  lemma ShownLists(cs: Counters, now: int)
    requires Valid(cs)
    ensures Shown(cs, now, ERRORS) == Peek(cs, Failure, now) + Peek(cs, Timeout, now) + Peek(cs, ShortCircuited, now)
                                      + Peek(cs, SemaphoreRejected, now)
    ensures Shown(cs, now, REQUESTS) == Peek(cs, Success, now) + Shown(cs, now, ERRORS)
  {
    hide Peek, Shown;
    NoneShown(cs, now);
    ShownPushed(cs, now, [], Failure);
    ShownPushed(cs, now, [] + [Failure], Timeout);
    ShownPushed(cs, now, [] + [Failure] + [Timeout], ShortCircuited);
    ShownPushed(cs, now, [] + [Failure] + [Timeout] + [ShortCircuited], SemaphoreRejected);
    assert [] + [Failure] + [Timeout] + [ShortCircuited] + [SemaphoreRejected] == ERRORS;
    ShownPushed(cs, now, [], Success);
    ShownPushed(cs, now, [] + [Success], Failure);
    ShownPushed(cs, now, [] + [Success] + [Failure], Timeout);
    ShownPushed(cs, now, [] + [Success] + [Failure] + [Timeout], ShortCircuited);
    ShownPushed(cs, now, [] + [Success] + [Failure] + [Timeout] + [ShortCircuited], SemaphoreRejected);
    assert [] + [Success] + [Failure] + [Timeout] + [ShortCircuited] + [SemaphoreRejected] == REQUESTS;
  }

  lemma NoneShown(cs: Counters, now: int)
    requires Valid(cs)
    ensures Shown(cs, now, []) == 0
  {
  }

  lemma TalliedIsAnchored(clock: Readings, l: Ledger, e: ExecutionEvent)
    requires Tallied(clock, l)
    ensures Anchored(l.counters, clock(l.next))
    ensures CountsLatest(DEFAULT_BUCKET_SIZE, DEFAULT_WINDOW_BUCKETS, Peek(l.counters, e, clock(l.next)), l.Times(e),
                         clock(l.next))
  {
    hide Records, CountsLatest, Total;
    forall x | x in l.counters ensures l.counters[x].anchor <= clock(l.next) {
      assert EventIsTallied(clock, l, x);
    }
    assert EventIsTallied(clock, l, e);
    NothingCounted(clock(l.next));
    if e in l.counters {
      TotalCountsLatest(l.counters[e], l.Times(e), clock(l.next));
    }
  }

  /** The percentage is the share of the four failures in the credits that the window shows of the five outcomes: zero
      without failures, and a hundred without successes. */
  ghost predicate IsOfWindow(clock: Readings, l: Ledger)
    requires Valid(l.counters)
  {
    var now, q := clock(l.next), ErrorPercentage(l.counters, clock, l.next).value;
    var successes := Peek(l.counters, Success, now);
    var failures := Peek(l.counters, Failure, now) + Peek(l.counters, Timeout, now)
                    + Peek(l.counters, ShortCircuited, now) + Peek(l.counters, SemaphoreRejected, now);
    && IsPercentage(q, failures, successes + failures)
    && 0 <= successes && 0 <= failures
    && (failures == 0 ==> q == 0)
    && (successes == 0 && failures != 0 ==> q == 100)
    && forall e :: CountsLatest(DEFAULT_BUCKET_SIZE, DEFAULT_WINDOW_BUCKETS, Peek(l.counters, e, now), l.Times(e), now)
  }

  lemma ErrorPercentageIsOfWindow(clock: Readings, l: Ledger)
    requires NonDecreasing(clock) && Tallied(clock, l) && Still(clock, l.next, 9, clock(l.next))
    ensures IsOfWindow(clock, l)
  {
    hide Tallied, Shown, Peek, RollingSums, CountsLatest;
    TalliedIsValid(clock, l);
    var now := clock(l.next);
    forall e
      ensures CountsLatest(DEFAULT_BUCKET_SIZE, DEFAULT_WINDOW_BUCKETS, Peek(l.counters, e, now), l.Times(e), now)
      ensures 0 <= Peek(l.counters, e, now)
    {
      TalliedIsAnchored(clock, l, e);
      CountNotNegative(Peek(l.counters, e, now), l.Times(e), now);
    }
    TalliedIsAnchored(clock, l, Success);
    ReadingsShow(l.counters, clock, l.next, REQUESTS, now);
    var s := RollingSums(l.counters, clock, l.next, REQUESTS);
    ReadingsShow(s.counters, clock, s.next, ERRORS, now);
    ShownAlike(s.counters, l.counters, now, ERRORS);
    ShownLists(l.counters, now);
    if s.value != 0 {
      PercentageFloors(Shown(l.counters, now, ERRORS), s.value);
      PercentageEnds(Shown(l.counters, now, ERRORS), s.value);
    }
  }

  lemma PercentageEnds(part: int, whole: int)
    requires 0 < whole
    ensures part == 0 ==> part * 100 / whole == 0
    ensures part == whole ==> part * 100 / whole == 100
  {
    if part == whole {
      DivModUnique(part * 100, whole, 100, 0);
    }
  }

  lemma LaterTallied(clock: Readings, l: Ledger, skipped: nat)
    requires NonDecreasing(clock) && Tallied(clock, l)
    ensures Tallied(clock, l.(next := l.next + skipped))
  {
    hide Records;
    var later := l.(next := l.next + skipped);
    assert clock(l.next) <= clock(later.next);
    forall e ensures EventIsTallied(clock, later, e) {
      assert EventIsTallied(clock, l, e);
    }
  }

  /** After any updates, and any readings by others, the error percentage is the share of the failures in the outcomes
      counted; if the clock stands still during the nine readings, of those that the window shows. */
  lemma ErrorPercentageOfUpdates(clock: Readings, updates: seq<Update>, skipped: nat)
    requires NonDecreasing(clock)
    ensures var l := Model.After(clock, updates).(next := Model.After(clock, updates).next + skipped);
            && (exists total, errors :: SharesCounts(clock, l, total, errors))
            && (Still(clock, l.next, 9, clock(l.next)) ==> IsOfWindow(clock, l))
  {
    hide Model.After, Tallied, SharesCounts, IsOfWindow;
    UpdatesTallied(clock, updates);
    LaterTallied(clock, Model.After(clock, updates), skipped);
    var l := Model.After(clock, updates).(next := Model.After(clock, updates).next + skipped);
    var total, errors := ErrorPercentageShares(clock, l);
    if Still(clock, l.next, 9, clock(l.next)) {
      ErrorPercentageIsOfWindow(clock, l);
    }
  }
}
