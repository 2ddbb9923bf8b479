/** The metrics of one command, updated in place. */
module CommandMetrics {
  import opened Clocks
  import opened RollingNumber
  import opened RollingPercentile
  import opened RequestLog
  import PercentileModel
  import Model = MetricsModel

  class CommandMetrics {
    const clock: Clock
    const executionTime: RollingPercentile
    var eventCounters: map<ExecutionEvent, RollingNumber>

    ghost function CounterObjects(): set<object>
      reads this
    {
      (set e | e in eventCounters :: eventCounters[e]) + (set e | e in eventCounters :: eventCounters[e].buckets)
    }

    ghost predicate CountersValid()
      reads this, CounterObjects()
    {
      && (forall e :: e in eventCounters ==> eventCounters[e].Valid() && eventCounters[e].clock == clock)
      && (forall d, e :: d in eventCounters && e in eventCounters && d != e ==>
            eventCounters[d] != eventCounters[e] && eventCounters[d].buckets != eventCounters[e].buckets)
    }

    ghost function Counters(): (cs: Model.Counters)
      requires CountersValid()
      reads this, CounterObjects()
      ensures Model.Valid(cs)
      ensures forall e :: e in cs <==> e in eventCounters
      ensures forall e :: e in cs ==> cs[e] == eventCounters[e].Value()
    {
      map e | e in eventCounters :: eventCounters[e].Value()
    }

    /** No counter shares its array with the execution times. */
    ghost predicate Apart()
      reads this, executionTime, executionTime.buckets, executionTime.buckets[..]
    {
      forall e, i :: e in eventCounters && 0 <= i < executionTime.buckets.Length ==>
        eventCounters[e].buckets != executionTime.buckets[i].vals
    }

    /** Counters stay; only new ones join them. */
    twostate predicate Grown()
      reads this
    {
      && (forall e :: e in old(eventCounters) ==> e in eventCounters && eventCounters[e] == old(eventCounters[e]))
      && (forall e :: e in eventCounters && e !in old(eventCounters) ==>
            fresh(eventCounters[e]) && fresh(eventCounters[e].buckets))
    }

    constructor (clock: Clock, rollingPercentileBucketSize: nat)
      requires 0 < rollingPercentileBucketSize
      modifies clock
      ensures this.clock == clock && clock.next == old(clock.next) + 1
      ensures CountersValid() && Counters() == map[] && Apart()
      ensures executionTime.Valid() && executionTime.clock == clock
      ensures executionTime.Value()
              == PercentileModel.NewSampler(DEFAULT_BUCKET_SIZE, DEFAULT_WINDOW_BUCKETS, rollingPercentileBucketSize,
                                              clock.readings(old(clock.next)))
    {
      hide CalculateBucketSize, PercentileModel.NewSampler;
      this.clock := clock;
      executionTime :=
        new RollingPercentile(DEFAULT_WINDOW_SIZE, DEFAULT_WINDOW_BUCKETS, rollingPercentileBucketSize, clock);
      eventCounters := map[];
    }

    /** The assignment to the map of counters. */
    method Install(e: ExecutionEvent, counter: RollingNumber)
      requires CountersValid() && e !in eventCounters
      requires counter.Valid() && counter.clock == clock
      requires forall d :: d in eventCounters ==>
                 eventCounters[d] != counter && eventCounters[d].buckets != counter.buckets
      modifies this`eventCounters
      ensures CountersValid() && eventCounters == old(eventCounters)[e := counter]
      ensures Counters() == old(Counters())[e := counter.Value()]
    {
      hide RollingNumber.Valid, RollingNumber.Value;
      ghost var before := Counters();
      ghost var counters := eventCounters;
      eventCounters := eventCounters[e := counter];
      forall d | d in eventCounters
        ensures eventCounters[d].Valid() && eventCounters[d].clock == clock
        ensures eventCounters[d].Value() == before[e := counter.Value()][d]
      {
        assert d != e ==> d in counters && eventCounters[d] == counters[d] && counters[d].Value() == before[d];
      }
      assert CountersValid();
    }

    method NewRollingNumber() returns (counter: RollingNumber)
      requires CountersValid()
      modifies clock
      ensures CountersValid() && Counters() == old(Counters()) && clock.next == old(clock.next) + 1
      ensures fresh(counter) && fresh(counter.buckets) && counter.Valid() && counter.clock == clock
      ensures counter.Value()
              == NewCounter(DEFAULT_BUCKET_SIZE, DEFAULT_WINDOW_BUCKETS, clock.readings(old(clock.next)))
    {
      hide NewCounter, CalculateBucketSize, RollingNumber.Valid, RollingNumber.Value;
      counter := new RollingNumber(DEFAULT_WINDOW_SIZE, DEFAULT_WINDOW_BUCKETS, clock);
    }

    method AddCounter(e: ExecutionEvent)
      requires CountersValid() && e !in eventCounters
      modifies this`eventCounters, clock
      ensures CountersValid() && Grown() && clock.next == old(clock.next) + 1
      ensures e in eventCounters
      ensures Counters()
              == old(Counters())[e := NewCounter(DEFAULT_BUCKET_SIZE, DEFAULT_WINDOW_BUCKETS,
                                                 clock.readings(old(clock.next)))]
    {
      hide NewCounter, RollingNumber.Valid, RollingNumber.Value, Counters, CountersValid;
      var counter := NewRollingNumber();
      Install(e, counter);
    }

    method FindEventCounter(e: ExecutionEvent) returns (counter: RollingNumber)
      requires CountersValid()
      modifies this`eventCounters, clock
      ensures CountersValid() && Grown() && e in eventCounters && counter == eventCounters[e]
      ensures var s := Model.WithCounter(old(Counters()), clock.readings, old(clock.next), e);
              Counters() == s.counters && clock.next == s.next
    {
      if e !in eventCounters {
        AddCounter(e);
      }
      counter := eventCounters[e];
    }

    /** One counter changes; the others, apart from it, do not. */
    method IncrementCounter(e: ExecutionEvent)
      requires CountersValid() && e in eventCounters
      modifies eventCounters[e], eventCounters[e].buckets, clock
      ensures CountersValid() && clock.next == old(clock.next) + 1
      ensures Counters() == old(Counters())[e := Incremented(old(Counters())[e], clock.readings(old(clock.next)))]
    {
      hide Incremented, RollingNumber.Valid, RollingNumber.Value;
      ghost var before := Counters();
      eventCounters[e].Increment();
      forall d | d in eventCounters && d != e
        ensures eventCounters[d].Valid() && eventCounters[d].Value() == before[d]
      {
        assert eventCounters[d] != eventCounters[e] && eventCounters[d].buckets != eventCounters[e].buckets;
      }
      assert CountersValid();
      assert Counters() == before[e := eventCounters[e].Value()];
    }

    method SumCounter(e: ExecutionEvent) returns (sum: int)
      requires CountersValid() && e in eventCounters
      modifies eventCounters[e], eventCounters[e].buckets, clock
      ensures CountersValid() && clock.next == old(clock.next) + 1
      ensures Counters() == old(Counters())[e := Rotate(old(Counters())[e], clock.readings(old(clock.next)))]
      ensures sum == Total(old(Counters())[e], clock.readings(old(clock.next)))
    {
      hide Rotate, Total, RollingNumber.Valid, RollingNumber.Value;
      ghost var before := Counters();
      sum := eventCounters[e].Sum();
      forall d | d in eventCounters && d != e
        ensures eventCounters[d].Valid() && eventCounters[d].Value() == before[d]
      {
        assert eventCounters[d] != eventCounters[e] && eventCounters[d].buckets != eventCounters[e].buckets;
      }
      assert CountersValid();
      assert Counters() == before[e := eventCounters[e].Value()];
    }

    method CountEvent(e: ExecutionEvent)
      requires CountersValid()
      modifies this`eventCounters, clock, CounterObjects()
      ensures CountersValid() && Grown()
      ensures var s := Model.CountEvent(old(Counters()), clock.readings, old(clock.next), e);
              Counters() == s.counters && clock.next == s.next
    {
      hide Incremented, Model.WithCounter, Counters, RollingNumber.Valid;
      var _ := FindEventCounter(e);
      IncrementCounter(e);
    }

    method RollingSum(e: ExecutionEvent) returns (sum: int)
      requires CountersValid()
      modifies clock, CounterObjects()
      ensures CountersValid() && eventCounters == old(eventCounters)
      ensures var s := Model.RollingSum(old(Counters()), clock.readings, old(clock.next), e);
              Counters() == s.counters && clock.next == s.next && sum == s.value
    {
      hide Rotate, Total;
      if e in eventCounters {
        sum := SumCounter(e);
      } else {
        sum := 0;
      }
    }

    ghost predicate SumsRead(cs: Model.Counters, k: nat, events: seq<ExecutionEvent>, value: int)
      requires Model.Valid(cs) && CountersValid()
      reads this, CounterObjects(), clock
    {
      Model.RollingSums(cs, clock.readings, k, events) == Model.Step(Counters(), clock.next, value)
    }

    /** One more sum of a list read one after the other. */
    method NextSum(e: ExecutionEvent, ghost cs: Model.Counters, ghost k: nat, ghost events: seq<ExecutionEvent>,
                   value: int)
      returns (value': int)
      requires CountersValid() && Model.Valid(cs) && SumsRead(cs, k, events, value)
      modifies clock, CounterObjects()
      ensures CountersValid() && eventCounters == old(eventCounters)
      ensures SumsRead(cs, k, events + [e], value')
    {
      hide Model.RollingSum, Model.RollingSums, Counters;
      var sum := RollingSum(e);
      Model.RollingSumsPushed(cs, clock.readings, k, events, e);
      value' := value + sum;
    }

    lemma RequestsInOrder()
      ensures [] + [Success] + [Failure] + [Timeout] + [ShortCircuited] + [SemaphoreRejected] == Model.REQUESTS
    {
    }

    method TotalRequests() returns (total: int)
      requires CountersValid()
      modifies clock, CounterObjects()
      ensures CountersValid() && eventCounters == old(eventCounters)
      ensures SumsRead(old(Counters()), old(clock.next), Model.REQUESTS, total)
    {
      hide Counters;
      ghost var cs, k := Counters(), clock.next;
      total := NextSum(Success, cs, k, [], 0);
      total := NextSum(Failure, cs, k, [] + [Success], total);
      total := NextSum(Timeout, cs, k, [] + [Success] + [Failure], total);
      total := NextSum(ShortCircuited, cs, k, [] + [Success] + [Failure] + [Timeout], total);
      total := NextSum(SemaphoreRejected, cs, k, [] + [Success] + [Failure] + [Timeout] + [ShortCircuited], total);
      RequestsInOrder();
    }

    method ErrorCount() returns (errors: int)
      requires CountersValid()
      modifies clock, CounterObjects()
      ensures CountersValid() && eventCounters == old(eventCounters)
      ensures SumsRead(old(Counters()), old(clock.next), Model.ERRORS, errors)
    {
      hide Counters;
      ghost var cs, k := Counters(), clock.next;
      errors := NextSum(Failure, cs, k, [], 0);
      errors := NextSum(Timeout, cs, k, [] + [Failure], errors);
      errors := NextSum(ShortCircuited, cs, k, [] + [Failure] + [Timeout], errors);
      errors := NextSum(SemaphoreRejected, cs, k, [] + [Failure] + [Timeout] + [ShortCircuited], errors);
      assert [] + [Failure] + [Timeout] + [ShortCircuited] + [SemaphoreRejected] == Model.ERRORS;
    }

    method ErrorPercentage() returns (percentage: int)
      requires CountersValid()
      modifies clock, CounterObjects()
      ensures CountersValid() && eventCounters == old(eventCounters)
      ensures Model.ErrorPercentage(old(Counters()), clock.readings, old(clock.next))
              == Model.Step(Counters(), clock.next, percentage)
      ensures 0 <= percentage <= 100
    {
      hide Model.RollingSums, Counters;
      Model.ErrorPercentageInRange(Counters(), clock.readings, clock.next);
      var total := TotalRequests();
      if total == 0 {
        return 0;
      }
      var errors := ErrorCount();
      percentage := errors * 100 / total;
    }

    /** The counting part of an update. */
    method CountEvents(events: seq<ExecutionEvent>)
      requires CountersValid()
      modifies this`eventCounters, clock, CounterObjects()
      ensures CountersValid() && Grown()
      ensures var s := Model.CountEvents(old(Counters()), clock.readings, old(clock.next), events);
              Counters() == s.counters && clock.next == s.next
    {
      hide Model.CountEvent, Counters;
      ghost var cs, k := Counters(), clock.next;
      for i := 0 to |events|
        invariant CountersValid() && Grown()
        invariant var s := Model.CountEvents(cs, clock.readings, k, events[..i]);
                  Counters() == s.counters && clock.next == s.next
      {
        assert events[..i + 1][..i] == events[..i];
        CountEvent(events[i]);
      }
      assert events[..|events|] == events;
    }

    /** Nothing the execution times are made of has changed. */
    twostate predicate TimesUnchanged()
      reads this, executionTime, executionTime.buckets, executionTime.buckets[..], executionTime.Arrays()
    {
      && unchanged(executionTime) && unchanged(executionTime.buckets)
      && forall i :: 0 <= i < executionTime.buckets.Length ==>
           unchanged(executionTime.buckets[i]) && unchanged(executionTime.buckets[i].vals)
    }

    twostate lemma TimesKept()
      requires old(executionTime.Valid()) && TimesUnchanged()
      ensures executionTime.Valid() && executionTime.Value() == old(executionTime.Value())
    {
      assert executionTime.Rings() == old(executionTime.Rings());
    }

    lemma TimesAmongNoCounters()
      requires Apart()
      ensures executionTime !in CounterObjects() && executionTime.buckets !in CounterObjects()
      ensures forall i :: 0 <= i < executionTime.buckets.Length ==>
                executionTime.buckets[i] !in CounterObjects() && executionTime.buckets[i].vals !in CounterObjects()
    {
    }

    /** Counting leaves the execution times alone ... */
    method CountApart(events: seq<ExecutionEvent>)
      requires CountersValid() && Apart()
      modifies this`eventCounters, clock, CounterObjects()
      ensures CountersValid() && Grown() && TimesUnchanged()
      ensures var s := Model.CountEvents(old(Counters()), clock.readings, old(clock.next), events);
              Counters() == s.counters && clock.next == s.next
    {
      hide Counters, CountersValid, Model.CountEvents, Grown, CounterObjects, Apart;
      TimesAmongNoCounters();
      CountEvents(events);
    }

    twostate lemma StillApart()
      requires old(Apart()) && Grown() && TimesUnchanged()
      ensures Apart()
    {
    }

    /** No counter has changed. */
    twostate predicate CountersUnchanged()
      reads this, CounterObjects()
    {
      && unchanged(this)
      && forall e :: e in eventCounters ==> unchanged(eventCounters[e]) && unchanged(eventCounters[e].buckets)
    }

    twostate lemma CountersKept()
      requires old(CountersValid()) && CountersUnchanged()
      ensures CountersValid() && Counters() == old(Counters())
    {
      hide RollingNumber.Valid, RollingNumber.Value;
    }

    /** ... and recording a time leaves the counters alone. */
    method RecordTime(time: int)
      requires CountersValid() && Apart()
      requires executionTime.Valid() && executionTime.clock == clock
      requires executionTime.currentBucketTime <= clock.readings(clock.next)
      modifies clock, executionTime, executionTime.buckets[..], executionTime.Arrays()
      ensures CountersValid() && Apart() && executionTime.Valid()
      ensures Counters() == old(Counters()) && clock.next == old(clock.next) + 1
      ensures executionTime.Value()
              == PercentileModel.Recorded(old(executionTime.Value()), clock.readings(old(clock.next)), time)
    {
      hide PercentileModel.Recorded, Counters, CountersValid, executionTime.Valid, executionTime.Value,
           executionTime.Separate;
      executionTime.Add(time);
      assert CountersUnchanged();
      CountersKept();
    }

    /** An update with events that are counted as they are. */
    method Count(time: int, events: seq<ExecutionEvent>, timed: bool)
      requires CountersValid() && Apart()
      requires executionTime.Valid() && executionTime.clock == clock
      requires NonDecreasing(clock.readings) && executionTime.currentBucketTime <= clock.readings(clock.next)
      modifies this`eventCounters, clock, CounterObjects()
      modifies executionTime, executionTime.buckets[..], executionTime.Arrays()
      ensures CountersValid() && Apart() && executionTime.Valid()
      ensures var s := Model.CountEvents(old(Counters()), clock.readings, old(clock.next), events);
              && Counters() == s.counters
              && clock.next == s.next + (if timed then 1 else 0)
              && executionTime.Value() == if timed
                                          then PercentileModel.Recorded(old(executionTime.Value()),
                                                                        clock.readings(s.next), time)
                                          else old(executionTime.Value())
    {
      hide Counters, CountersValid, Apart, Model.CountEvents, PercentileModel.Recorded, executionTime.Valid,
           executionTime.Separate;
      CountApart(events);
      TimesKept();
      StillApart();
      if timed {
        RecordTime(time);
      }
    }

    method Update(time: int, events: seq<ExecutionEvent>)
      requires CountersValid() && Apart()
      requires executionTime.Valid() && executionTime.clock == clock
      requires NonDecreasing(clock.readings) && executionTime.currentBucketTime <= clock.readings(clock.next)
      modifies this`eventCounters, clock, CounterObjects()
      modifies executionTime, executionTime.buckets[..], executionTime.Arrays()
      ensures CountersValid() && Apart() && executionTime.Valid()
      ensures var s := Model.CountEvents(old(Counters()), clock.readings, old(clock.next), Model.Credited(events));
              && Counters() == s.counters
              && clock.next == s.next + (if Model.Timed(events) then 1 else 0)
              && executionTime.Value() == if Model.Timed(events)
                                          then PercentileModel.Recorded(old(executionTime.Value()),
                                                                        clock.readings(s.next), time)
                                          else old(executionTime.Value())
    {
      hide Counters, CountersValid, Apart, Model.CountEvents, PercentileModel.Recorded, executionTime.Valid,
           executionTime.Separate;
      hide Model.Credited, Model.Timed;
      var credited, timed := Classify(events);
      Count(time, credited, timed);
    }
  }

  /** What an update counts, and whether it records the time. */
  method Classify(events: seq<ExecutionEvent>) returns (credited: seq<ExecutionEvent>, timed: bool)
    ensures credited == Model.Credited(events) && timed == Model.Timed(events)
  {
    var fromCache := HasEvent(events, ResponseFromCache);
    if fromCache {
      return [ResponseFromCache], false;
    }
    var shortCircuited := HasEvent(events, ShortCircuited);
    var rejected := HasEvent(events, SemaphoreRejected);
    return events, !shortCircuited && !rejected;
  }

  method HasEvent(events: seq<ExecutionEvent>, e: ExecutionEvent) returns (has: bool)
    ensures has <==> e in events
  {
    for i := |events| downto 0
      invariant e !in events[i..]
    {
      if events[i] == e {
        return true;
      }
    }
    return false;
  }
}
