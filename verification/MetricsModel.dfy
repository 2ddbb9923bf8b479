/** The event counters of a command: created when an event first occurs, each with its own anchor. */
module MetricsModel {
  import opened Clocks
  import opened Numbers
  import opened RollingNumber
  import opened RollingWindow
  import opened RequestLog

  type Counters = map<ExecutionEvent, Counter>

  /** Counters, the number of clock readings made so far, and an answer. */
  datatype Step = Step(counters: Counters, next: nat, value: int)

  ghost predicate Valid(cs: Counters) {
    forall e :: e in cs ==> cs[e].Valid()
  }

  function WithCounter(cs: Counters, clock: Readings, k: nat, e: ExecutionEvent): (s: Step)
    requires Valid(cs)
    ensures Valid(s.counters) && e in s.counters && s.next >= k
  {
    if e in cs then Step(cs, k, 0)
    else Step(cs[e := NewCounter(DEFAULT_BUCKET_SIZE, DEFAULT_WINDOW_BUCKETS, clock(k))], k + 1, 0)
  }

  function CountEvent(cs: Counters, clock: Readings, k: nat, e: ExecutionEvent): (s: Step)
    requires Valid(cs)
    ensures Valid(s.counters) && s.next > k
  {
    var s := WithCounter(cs, clock, k, e);
    Step(s.counters[e := Incremented(s.counters[e], clock(s.next))], s.next + 1, 0)
  }

  function CountEvents(cs: Counters, clock: Readings, k: nat, events: seq<ExecutionEvent>): (s: Step)
    requires Valid(cs)
    ensures Valid(s.counters) && s.next >= k
  {
    if events == [] then Step(cs, k, 0)
    else
      var s := CountEvents(cs, clock, k, events[..|events| - 1]);
      CountEvent(s.counters, clock, s.next, events[|events| - 1])
  }

  /** The events an execution is credited with: a response from cache counts as that alone. */
  function Credited(events: seq<ExecutionEvent>): seq<ExecutionEvent> {
    if ResponseFromCache in events then [ResponseFromCache] else events
  }

  /** Whether the execution time is recorded as well. */
  predicate Timed(events: seq<ExecutionEvent>) {
    ResponseFromCache !in events && ShortCircuited !in events && SemaphoreRejected !in events
  }

  function RollingSum(cs: Counters, clock: Readings, k: nat, e: ExecutionEvent): (s: Step)
    requires Valid(cs)
    ensures Valid(s.counters) && s.next >= k
  {
    if e in cs then Step(cs[e := Rotate(cs[e], clock(k))], k + 1, Total(cs[e], clock(k)))
    else Step(cs, k, 0)
  }

  /** The sum of the rolling sums of several events, read one after the other. */
  function RollingSums(cs: Counters, clock: Readings, k: nat, events: seq<ExecutionEvent>): (s: Step)
    requires Valid(cs)
    ensures Valid(s.counters) && s.next >= k
  {
    if events == [] then Step(cs, k, 0)
    else
      var s := RollingSums(cs, clock, k, events[..|events| - 1]);
      var t := RollingSum(s.counters, clock, s.next, events[|events| - 1]);
      Step(t.counters, t.next, s.value + t.value)
  }

  lemma RollingSumsPushed(cs: Counters, clock: Readings, k: nat, events: seq<ExecutionEvent>, e: ExecutionEvent)
    requires Valid(cs)
    ensures var s := RollingSums(cs, clock, k, events);
            var t := RollingSum(s.counters, clock, s.next, e);
            RollingSums(cs, clock, k, events + [e]) == Step(t.counters, t.next, s.value + t.value)
  {
    assert (events + [e])[..|events|] == events;
  }

  const ERRORS := [Failure, Timeout, ShortCircuited, SemaphoreRejected]
  const REQUESTS := [Success, Failure, Timeout, ShortCircuited, SemaphoreRejected]

  /** In whole percent; nine counters are read, the clock going on meanwhile. */
  function ErrorPercentage(cs: Counters, clock: Readings, k: nat): (s: Step)
    requires Valid(cs)
  {
    var total := RollingSums(cs, clock, k, REQUESTS);
    if total.value == 0 then total
    else
      var errors := RollingSums(total.counters, clock, total.next, ERRORS);
      Step(errors.counters, errors.next, errors.value * 100 / total.value)
  }

  // The percentage stays within 0 and 100.

  function Peek(cs: Counters, e: ExecutionEvent, now: int): int
    requires Valid(cs)
  {
    if e in cs then Total(cs[e], now) else 0
  }

  /** Whenever the event is read next, it gives at most this. */
  ghost predicate Bounded(cs: Counters, e: ExecutionEvent, bound: int) {
    Valid(cs) && forall now :: 0 <= Peek(cs, e, now) <= bound
  }

  ghost predicate NoRepeats(events: seq<ExecutionEvent>) {
    forall i, j :: 0 <= i < j < |events| ==> events[i] != events[j]
  }

  function SumOf(events: seq<ExecutionEvent>, values: map<ExecutionEvent, int>): int
    requires forall e :: e in events ==> e in values
  {
    if events == [] then 0 else SumOf(events[..|events| - 1], values) + values[events[|events| - 1]]
  }

  lemma {:induction false} SumOfExtended(events: seq<ExecutionEvent>, values: map<ExecutionEvent, int>,
                                         e: ExecutionEvent, v: int)
    requires e !in events && forall x :: x in events ==> x in values
    ensures SumOf(events, values[e := v]) == SumOf(events, values)
  {
    if events != [] {
      SumOfExtended(events[..|events| - 1], values, e, v);
    }
  }

  /** A reading bounds every later reading of the same event, though the clock goes on. */
  lemma ReadingBounds(cs: Counters, clock: Readings, k: nat, e: ExecutionEvent)
    requires Valid(cs)
    ensures var s := RollingSum(cs, clock, k, e);
            Bounded(s.counters, e, s.value)
  {
    var s := RollingSum(cs, clock, k, e);
    forall now ensures 0 <= Peek(s.counters, e, now) <= s.value {
      if e in cs {
        TotalNeverGrows(cs[e], clock(k), now);
      }
    }
  }

  lemma OthersStayBounded(cs: Counters, clock: Readings, k: nat, e: ExecutionEvent, other: ExecutionEvent, bound: int)
    requires Bounded(cs, other, bound) && e != other
    ensures Bounded(RollingSum(cs, clock, k, e).counters, other, bound)
  {
    var s := RollingSum(cs, clock, k, e);
    assert forall now :: Peek(s.counters, other, now) == Peek(cs, other, now);
  }

  /** Later readings of the events are at most these values. */
  ghost predicate AllBounded(cs: Counters, events: seq<ExecutionEvent>, values: map<ExecutionEvent, int>) {
    forall e :: e in events ==> e in values && Bounded(cs, e, values[e])
  }

  lemma NextReading(cs: Counters, clock: Readings, k: nat, events: seq<ExecutionEvent>,
                    values: map<ExecutionEvent, int>, e: ExecutionEvent)
    requires Valid(cs) && AllBounded(cs, events, values) && e !in events
    ensures var s := RollingSum(cs, clock, k, e);
            AllBounded(s.counters, events + [e], values[e := s.value])
  {
    hide RollingSum, Bounded;
    ReadingBounds(cs, clock, k, e);
    forall x | x in events ensures Bounded(RollingSum(cs, clock, k, e).counters, x, values[x]) {
      OthersStayBounded(cs, clock, k, e, x, values[x]);
    }
  }

  lemma LastIsNew(events: seq<ExecutionEvent>)
    requires events != [] && NoRepeats(events)
    ensures events[|events| - 1] !in events[..|events| - 1] && NoRepeats(events[..|events| - 1])
    ensures events == events[..|events| - 1] + [events[|events| - 1]]
  {
  }

  /** The first readings, event by event, and what they bound. */
  lemma {:induction false} FirstReadings(cs: Counters, clock: Readings, k: nat, events: seq<ExecutionEvent>)
    returns (values: map<ExecutionEvent, int>)
    requires Valid(cs) && NoRepeats(events)
    ensures forall e :: e in events <==> e in values
    ensures RollingSums(cs, clock, k, events).value == SumOf(events, values)
    ensures AllBounded(RollingSums(cs, clock, k, events).counters, events, values)
  {
    hide NoRepeats, AllBounded, RollingSum;
    if events == [] {
      values := map[];
      assert AllBounded(cs, [], values) by { NoneUnbounded(cs, values); }
    } else {
      LastIsNew(events);
      var before, e := events[..|events| - 1], events[|events| - 1];
      var values' := FirstReadings(cs, clock, k, before);
      var s := RollingSums(cs, clock, k, before);
      values := values'[e := RollingSum(s.counters, clock, s.next, e).value];
      SumOfExtended(before, values', e, values[e]);
      NextReading(s.counters, clock, s.next, before, values', e);
    }
  }

  lemma NoneUnbounded(cs: Counters, values: map<ExecutionEvent, int>)
    ensures AllBounded(cs, [], values)
  {
  }

  lemma {:induction false} SecondReadings(cs: Counters, clock: Readings, k: nat, events: seq<ExecutionEvent>,
                                          values: map<ExecutionEvent, int>)
    requires Valid(cs) && NoRepeats(events) && forall e :: e in events ==> e in values && Bounded(cs, e, values[e])
    ensures 0 <= RollingSums(cs, clock, k, events).value <= SumOf(events, values)
  {
    if events != [] {
      var before, e := events[..|events| - 1], events[|events| - 1];
      SecondReadings(cs, clock, k, before, values);
      OthersKept(cs, clock, k, before, e);
      var s := RollingSums(cs, clock, k, before);
      assert Peek(s.counters, e, clock(s.next)) == Peek(cs, e, clock(s.next));
    }
  }

  lemma {:induction false} OthersKept(cs: Counters, clock: Readings, k: nat, events: seq<ExecutionEvent>,
                                      e: ExecutionEvent)
    requires Valid(cs) && e !in events
    ensures var s := RollingSums(cs, clock, k, events);
            (e in s.counters <==> e in cs) && (e in cs ==> s.counters[e] == cs[e])
  {
    if events != [] {
      OthersKept(cs, clock, k, events[..|events| - 1], e);
    }
  }

  lemma SumOfPushed(events: seq<ExecutionEvent>, e: ExecutionEvent, values: map<ExecutionEvent, int>)
    requires e in values && forall x :: x in events ==> x in values
    ensures SumOf(events + [e], values) == SumOf(events, values) + values[e]
  {
    assert (events + [e])[..|events|] == events;
  }

  lemma SumOfFour(a: ExecutionEvent, b: ExecutionEvent, c: ExecutionEvent, d: ExecutionEvent,
                  values: map<ExecutionEvent, int>)
    requires a in values && b in values && c in values && d in values
    ensures SumOf([a, b, c, d], values) == values[a] + values[b] + values[c] + values[d]
  {
    hide SumOf;
    SumOfPushed([], a, values);
    SumOfPushed([a], b, values);
    SumOfPushed([a, b], c, values);
    SumOfPushed([a, b, c], d, values);
    assert [] + [a] == [a] && [a] + [b] == [a, b] && [a, b] + [c] == [a, b, c] && [a, b, c] + [d] == [a, b, c, d];
    NoSum(values);
  }

  lemma NoSum(values: map<ExecutionEvent, int>)
    ensures SumOf([], values) == 0
  {
  }

  lemma SumsOfLists(values: map<ExecutionEvent, int>)
    requires forall e :: e in REQUESTS ==> e in values
    ensures SumOf(REQUESTS, values) == values[Success] + SumOf(ERRORS, values)
  {
    hide SumOf;
    assert REQUESTS[0] == Success && REQUESTS[1] == Failure && REQUESTS[2] == Timeout
        && REQUESTS[3] == ShortCircuited && REQUESTS[4] == SemaphoreRejected;
    assert Success in values && Failure in values && Timeout in values && ShortCircuited in values
           && SemaphoreRejected in values;
    SumOfFour(Failure, Timeout, ShortCircuited, SemaphoreRejected, values);
    SumOfFour(Success, Failure, Timeout, ShortCircuited, values);
    assert forall e :: e in [Success, Failure, Timeout, ShortCircuited] ==> e in values;
    SumOfPushed([Success, Failure, Timeout, ShortCircuited], SemaphoreRejected, values);
    assert [Success, Failure, Timeout, ShortCircuited] + [SemaphoreRejected] == REQUESTS;
  }

  /** Whatever the counters and the clock, as long as nothing is counted in between. */
  lemma ErrorPercentageInRange(cs: Counters, clock: Readings, k: nat)
    requires Valid(cs)
    ensures 0 <= ErrorPercentage(cs, clock, k).value <= 100
  {
    var total := RollingSums(cs, clock, k, REQUESTS);
    var values := FirstReadings(cs, clock, k, REQUESTS);
    SumsOfLists(values);
    assert Bounded(total.counters, Success, values[Success]);
    assert 0 <= Peek(total.counters, Success, 0);
    SecondReadings(total.counters, clock, total.next, ERRORS, values);
    var errors := RollingSums(total.counters, clock, total.next, ERRORS).value;
    if total.value != 0 {
      PercentOf(errors, total.value);
    }
  }

  lemma PercentOf(part: int, whole: int)
    requires 0 <= part <= whole && 0 < whole
    ensures 0 <= part * 100 / whole <= 100
  {
    DivisionAtMost(part * 100, whole, 100);
  }

  lemma DivisionAtMost(x: int, y: int, bound: int)
    requires 0 < y && 0 <= x <= bound * y
    ensures 0 <= x / y <= bound
  {
    assert x == x / y * y + x % y;
    if bound < x / y {
      MulMonotone(bound + 1, x / y, y);
    } else {
      MulMonotone(x / y, bound, y);
    }
  }

  // Each rolling sum counts the latest occurrences of its event.

  /** The counters with the times at which each event has been counted. */
  datatype Ledger = Ledger(counters: Counters, next: nat, tally: map<ExecutionEvent, seq<int>>) {
    function Times(e: ExecutionEvent): seq<int> {
      if e in tally then tally[e] else []
    }
  }

  ghost predicate Tallied(clock: Readings, l: Ledger) {
    && Valid(l.counters)
    && forall e :: EventIsTallied(clock, l, e)
  }

  ghost predicate EventIsTallied(clock: Readings, l: Ledger, e: ExecutionEvent)
    requires Valid(l.counters)
  {
    if e in l.counters then
      var c := l.counters[e];
      && c.bucketSize == DEFAULT_BUCKET_SIZE && |c.buckets| == DEFAULT_WINDOW_BUCKETS
      && Records(c, l.Times(e)) && c.anchor <= clock(l.next)
    else l.Times(e) == []
  }

  /** An event counted; the count is dated by its last reading of the clock. */
  function Credit(clock: Readings, l: Ledger, e: ExecutionEvent): (l': Ledger)
    requires Valid(l.counters)
    ensures Valid(l'.counters)
  {
    var s := CountEvent(l.counters, clock, l.next, e);
    Ledger(s.counters, s.next, l.tally[e := l.Times(e) + [clock(s.next - 1)]])
  }

  function CreditAll(clock: Readings, l: Ledger, events: seq<ExecutionEvent>): (l': Ledger)
    requires Valid(l.counters)
    ensures Valid(l'.counters)
  {
    if events == [] then l
    else Credit(clock, CreditAll(clock, l, events[..|events| - 1]), events[|events| - 1])
  }

  /** An update of the metrics, after any number of clock readings made by others. */
  datatype Update = Update(skipped: nat, events: seq<ExecutionEvent>)

  function Updated(clock: Readings, l: Ledger, u: Update): (l': Ledger)
    requires Valid(l.counters)
    ensures Valid(l'.counters)
  {
    CreditAll(clock, l.(next := l.next + u.skipped), Credited(u.events))
  }

  function After(clock: Readings, updates: seq<Update>): (l: Ledger)
    ensures Valid(l.counters)
  {
    if updates == [] then Ledger(map[], 0, map[])
    else Updated(clock, After(clock, updates[..|updates| - 1]), updates[|updates| - 1])
  }

  /** The ledger's counters are those the metrics keep. */
  lemma {:induction false} LedgerFollowsCounters(clock: Readings, l: Ledger, events: seq<ExecutionEvent>)
    requires Valid(l.counters)
    ensures var s := CountEvents(l.counters, clock, l.next, events);
            CreditAll(clock, l, events).counters == s.counters && CreditAll(clock, l, events).next == s.next
  {
    if events != [] {
      LedgerFollowsCounters(clock, l, events[..|events| - 1]);
    }
  }

  /** An event counted for the first time reads the clock twice, for the counter and for the count. */
  lemma CreditTallied(clock: Readings, l: Ledger, e: ExecutionEvent)
    requires NonDecreasing(clock) && Tallied(clock, l)
    ensures Tallied(clock, Credit(clock, l, e))
  {
    hide Records, Incremented;
    var w := WithCounter(l.counters, clock, l.next, e);
    assert clock(l.next) <= clock(w.next) <= clock(w.next + 1);
    NewRecordsNothing(DEFAULT_BUCKET_SIZE, DEFAULT_WINDOW_BUCKETS, clock(l.next));
    assert EventIsTallied(clock, l, e);
    IncrementRecords(w.counters[e], l.Times(e), clock(w.next));
    forall x | x != e ensures EventIsTallied(clock, Credit(clock, l, e), x) {
      OtherIsTallied(clock, l, e, x);
    }
  }

  lemma OtherIsTallied(clock: Readings, l: Ledger, e: ExecutionEvent, x: ExecutionEvent)
    requires NonDecreasing(clock) && Tallied(clock, l) && x != e
    ensures EventIsTallied(clock, Credit(clock, l, e), x)
  {
    hide Records, Credit;
    CreditKeepsOthers(clock, l, e, x);
    assert EventIsTallied(clock, l, x);
    assert clock(l.next) <= clock(Credit(clock, l, e).next);
  }

  lemma CreditKeepsOthers(clock: Readings, l: Ledger, e: ExecutionEvent, x: ExecutionEvent)
    requires Valid(l.counters) && x != e
    ensures var l' := Credit(clock, l, e);
            && (x in l'.counters <==> x in l.counters) && (x in l.counters ==> l'.counters[x] == l.counters[x])
            && l'.Times(x) == l.Times(x) && l'.next > l.next
  {
    hide Incremented;
  }

  lemma {:induction false} CreditsTallied(clock: Readings, l: Ledger, events: seq<ExecutionEvent>)
    requires NonDecreasing(clock) && Tallied(clock, l)
    ensures Tallied(clock, CreditAll(clock, l, events))
  {
    hide Credit, EventIsTallied;
    if events != [] {
      CreditsTallied(clock, l, events[..|events| - 1]);
      CreditTallied(clock, CreditAll(clock, l, events[..|events| - 1]), events[|events| - 1]);
    }
  }

  lemma UpdateTallied(clock: Readings, l: Ledger, u: Update)
    requires NonDecreasing(clock) && Tallied(clock, l)
    ensures Tallied(clock, Updated(clock, l, u))
  {
    hide CreditAll, Records;
    var later := l.(next := l.next + u.skipped);
    assert clock(l.next) <= clock(later.next);
    forall e ensures EventIsTallied(clock, later, e) {
      assert EventIsTallied(clock, l, e);
    }
    CreditsTallied(clock, later, Credited(u.events));
  }

  lemma {:induction false} UpdatesTallied(clock: Readings, updates: seq<Update>)
    requires NonDecreasing(clock)
    ensures Tallied(clock, After(clock, updates))
  {
    hide Updated;
    if updates != [] {
      UpdatesTallied(clock, updates[..|updates| - 1]);
      UpdateTallied(clock, After(clock, updates[..|updates| - 1]), updates[|updates| - 1]);
    }
  }

  /** After any updates, the rolling sum of an event counts exactly the latest times it
      was credited, although its counter was made when it first occurred. */
  lemma RollingSumCountsCredits(clock: Readings, updates: seq<Update>, skipped: nat, e: ExecutionEvent)
    requires NonDecreasing(clock)
    ensures var l := After(clock, updates);
            CountsLatest(DEFAULT_BUCKET_SIZE, DEFAULT_WINDOW_BUCKETS,
                         RollingSum(l.counters, clock, l.next + skipped, e).value,
                         l.Times(e), clock(l.next + skipped))
  {
    hide After, Records;
    UpdatesTallied(clock, updates);
    var l := After(clock, updates);
    assert EventIsTallied(clock, l, e);
    assert clock(l.next) <= clock(l.next + skipped);
    if e in l.counters {
      TotalCountsLatest(l.counters[e], l.Times(e), clock(l.next + skipped));
    }
  }

  function Occurrences(events: seq<ExecutionEvent>, e: ExecutionEvent): nat {
    if events == [] then 0 else Occurrences(events[..|events| - 1], e) + if events[|events| - 1] == e then 1 else 0
  }

  /** How often an event has been credited in all. */
  function Credits(updates: seq<Update>, e: ExecutionEvent): nat {
    if updates == [] then 0
    else Credits(updates[..|updates| - 1], e) + Occurrences(Credited(updates[|updates| - 1].events), e)
  }

  lemma {:induction false} CreditsCounted(clock: Readings, l: Ledger, events: seq<ExecutionEvent>, e: ExecutionEvent)
    requires Valid(l.counters)
    ensures |CreditAll(clock, l, events).Times(e)| == |l.Times(e)| + Occurrences(events, e)
  {
    if events != [] {
      CreditsCounted(clock, l, events[..|events| - 1], e);
    }
  }

  lemma UpdateCounted(clock: Readings, l: Ledger, u: Update, e: ExecutionEvent)
    requires Valid(l.counters)
    ensures |Updated(clock, l, u).Times(e)| == |l.Times(e)| + Occurrences(Credited(u.events), e)
  {
    hide CreditAll, Occurrences, Credited;
    CreditsCounted(clock, l.(next := l.next + u.skipped), Credited(u.events), e);
  }

  /** The ledger holds one time for every credit. */
  lemma {:induction false} LedgerCountsCredits(clock: Readings, updates: seq<Update>, e: ExecutionEvent)
    ensures |After(clock, updates).Times(e)| == Credits(updates, e)
  {
    hide Updated, Occurrences, Credited;
    if updates != [] {
      LedgerCountsCredits(clock, updates[..|updates| - 1], e);
      UpdateCounted(clock, After(clock, updates[..|updates| - 1]), updates[|updates| - 1], e);
    }
  }
}
