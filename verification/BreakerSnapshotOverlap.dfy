/**
 The dropped health snapshots when functions overlap. As long as the breaker does not open while
 a trial is running nothing changes; but a trial that outlasts another one can close the breaker
 just after it has opened again, and then, whatever the properties, the stale snapshot tells.
 */
module BreakerSnapshotOverlap {
  import opened Clocks
  import opened Outcomes
  import opened RollingNumber
  import opened BreakerModel
  import opened BreakerRuns
  import opened BreakerExamples
  import opened BreakerHistory
  import opened BreakerOverlap
  import opened BreakerSnapshot

  function AfterNew(storage: Storage, cfg: Config, clock: Readings, events: seq<Event>): (s: State)
    ensures s.Valid()
  {
    After(storage, cfg, clock, Start(clock), events)
  }

  ghost predicate SameResponses(cfg: Config, clock: Readings, events: seq<Event>) {
    AfterNew(Dropped, cfg, clock, events).responses == AfterNew(Stored, cfg, clock, events).responses
  }

  ghost predicate TrialRuns(flights: seq<Flight>) {
    exists i :: 0 <= i < |flights| && flights[i].trial
  }

  /** Whenever the breaker opens, no trial is running. */
  ghost predicate NoTripDuringTrial(cfg: Config, clock: Readings, events: seq<Event>) {
    events != [] ==>
      var s := AfterNew(Dropped, cfg, clock, events[..|events| - 1]);
      && !(TrialRuns(s.flights) && Trip(s.breaker, AfterNew(Dropped, cfg, clock, events).breaker))
      && NoTripDuringTrial(cfg, clock, events[..|events| - 1])
  }

  // Without such trips the bisimulation goes on.

  /** While a trial runs, which may close the breaker, the stored snapshot is harmless. */
  ghost predicate Alike(cfg: Config, clock: Readings, d: State, s: State) {
    && d.next == s.next && d.flights == s.flights && d.responses == s.responses
    && Similar(cfg, clock, d.breaker, s.breaker, s.next)
    && (TrialRuns(s.flights) ==> Harmless(cfg, clock, s.breaker, s.next))
  }

  ghost predicate Apart(d: State, t: State) {
    TrialRuns(d.flights) ==> !Trip(d.breaker, t.breaker)
  }

  lemma AdmitSimilar(cfg: Config, flags: Flags, clock: Readings, dropping: Breaker, storing: Breaker, k: nat)
    requires Assumptions(cfg, clock) && Similar(cfg, clock, dropping, storing, k)
    ensures var d := Admit(Dropped, cfg, flags, clock, dropping, k);
            var s := Admit(Stored, cfg, flags, clock, storing, k);
            && d.value == s.value && d.next == s.next
            && Similar(cfg, clock, d.breaker, s.breaker, s.next)
            && (s.value.trial ==> s.value.allowed && s.breaker.open && Expired(cfg, clock, s.breaker, s.next))
  {
    hide Incremented, IsRequestAllowed;
    if Counts(flags) {
      CountedSimilar(cfg, clock, dropping, storing, k);
      var d0 := dropping.(requests := Incremented(dropping.requests, clock(k)));
      var s0 := storing.(requests := Incremented(storing.requests, clock(k)));
      AdmissionSimilar(cfg, flags, clock, d0, s0, k + 1);
      var d := IsRequestAllowed(Dropped, cfg, flags, clock, d0, k + 1);
      var s := IsRequestAllowed(Stored, cfg, flags, clock, s0, k + 1);
      CountedSimilar(cfg, clock, d.breaker, s.breaker, s.next);
      TrialIsAllowed(cfg, flags, clock, s0, k + 1);
    }
  }

  lemma TrialIsAllowed(cfg: Config, flags: Flags, clock: Readings, b: Breaker, k: nat)
    requires b.Valid()
    ensures var s := IsRequestAllowed(Stored, cfg, flags, clock, b, k);
            s.value.trial ==> s.value.allowed
  {
  }

  /** An open breaker stays open, and takes no snapshot. */
  lemma OpenTakesNoSnapshot(storage: Storage, cfg: Config, flags: Flags, clock: Readings, b: Breaker, k: nat)
    requires b.Valid() && b.open
    ensures var a := Admit(storage, cfg, flags, clock, b, k).breaker;
            a.open && a.snapshotTime == b.snapshotTime && a.snapshot == b.snapshot
    ensures IsOpen(storage, cfg, flags, clock, b, k).breaker == b
  {
    hide Incremented;
  }

  lemma HarmlessLater(cfg: Config, clock: Readings, b: Breaker, k: nat, k': nat)
    requires NonDecreasing(clock) && k <= k' && Harmless(cfg, clock, b, k)
    ensures Harmless(cfg, clock, b, k')
  {
    assert clock(k) <= clock(k');
  }

  lemma BeginAlike(cfg: Config, clock: Readings, d: State, s: State, flags: Flags)
    requires Assumptions(cfg, clock) && Alike(cfg, clock, d, s)
    requires d.Valid() && Apart(d, Next(Dropped, cfg, clock, d, Begin(flags)))
    ensures s.Valid()
    ensures Alike(cfg, clock, Next(Dropped, cfg, clock, d, Begin(flags)), Next(Stored, cfg, clock, s, Begin(flags)))
  {
    hide Admit;
    AdmitSimilar(cfg, flags, clock, d.breaker, s.breaker, s.next);
    var a, t := Admit(Stored, cfg, flags, clock, s.breaker, s.next), Next(Stored, cfg, clock, s, Begin(flags));
    if TrialRuns(t.flights) && !a.value.trial && t.breaker.open {
      assert TrialRuns(s.flights);
      OpenTakesNoSnapshot(Stored, cfg, flags, clock, s.breaker, s.next);
      HarmlessLater(cfg, clock, s.breaker, s.next, t.next);
    }
  }

  lemma FinishSimilar(cfg: Config, clock: Readings, dropping: Breaker, storing: Breaker, k: nat, flight: Flight,
                      f: Outcome)
    requires Assumptions(cfg, clock) && Similar(cfg, clock, dropping, storing, k)
    requires flight.trial ==> Harmless(cfg, clock, storing, k)
    ensures var d := Finish(flight.flags, clock, dropping, k, flight.trial, f);
            var s := Finish(flight.flags, clock, storing, k, flight.trial, f);
            && d.value == s.value && d.next == s.next
            && Similar(cfg, clock, d.breaker, s.breaker, s.next)
            && s.breaker.snapshotTime == storing.snapshotTime && s.breaker.snapshot == storing.snapshot
  {
    SettleSimilar(cfg, clock, dropping, storing, k, flight.trial, f);
  }

  lemma EndAlike(cfg: Config, clock: Readings, d: State, s: State, i: nat, f: Outcome)
    requires Assumptions(cfg, clock) && Alike(cfg, clock, d, s)
    ensures d.Valid() && s.Valid()
    ensures Alike(cfg, clock, Next(Dropped, cfg, clock, d, End(i, f)), Next(Stored, cfg, clock, s, End(i, f)))
  {
    hide Finish;
    if i < |s.flights| {
      FinishSimilar(cfg, clock, d.breaker, s.breaker, s.next, s.flights[i], f);
      var t := Next(Stored, cfg, clock, s, End(i, f));
      if TrialRuns(t.flights) {
        var j :| 0 <= j < |t.flights| && t.flights[j].trial;
        assert t.flights[j] == s.flights[if j < i then j else j + 1];
        HarmlessLater(cfg, clock, s.breaker, s.next, t.next);
      }
    }
  }

  lemma AskAlike(cfg: Config, clock: Readings, d: State, s: State, flags: Flags)
    requires Assumptions(cfg, clock) && Alike(cfg, clock, d, s)
    requires d.Valid() && Apart(d, Next(Dropped, cfg, clock, d, Ask(flags)))
    ensures s.Valid()
    ensures Alike(cfg, clock, Next(Dropped, cfg, clock, d, Ask(flags)), Next(Stored, cfg, clock, s, Ask(flags)))
  {
    hide IsOpen;
    IsOpenSimilar(cfg, flags, clock, d.breaker, s.breaker, s.next);
    var t := Next(Stored, cfg, clock, s, Ask(flags));
    if TrialRuns(s.flights) && t.breaker.open {
      OpenTakesNoSnapshot(Stored, cfg, flags, clock, s.breaker, s.next);
      HarmlessLater(cfg, clock, s.breaker, s.next, t.next);
    }
  }

  lemma EventAlike(cfg: Config, clock: Readings, d: State, s: State, e: Event)
    requires Assumptions(cfg, clock) && Alike(cfg, clock, d, s)
    requires d.Valid() && Apart(d, Next(Dropped, cfg, clock, d, e))
    ensures s.Valid()
    ensures Alike(cfg, clock, Next(Dropped, cfg, clock, d, e), Next(Stored, cfg, clock, s, e))
  {
    match e
    case Begin(flags) => BeginAlike(cfg, clock, d, s, flags);
    case End(i, f) => EndAlike(cfg, clock, d, s, i, f);
    case Ask(flags) => AskAlike(cfg, clock, d, s, flags);
    case Pause(readings) =>
      SimilarLater(cfg, clock, d.breaker, s.breaker, s.next, s.next + readings);
      if TrialRuns(s.flights) {
        HarmlessLater(cfg, clock, s.breaker, s.next, s.next + readings);
      }
  }

  lemma StartAlike(cfg: Config, clock: Readings)
    requires Assumptions(cfg, clock)
    ensures Alike(cfg, clock, Start(clock), Start(clock))
  {
  }

  lemma {:induction false} RunAlike(cfg: Config, clock: Readings, events: seq<Event>)
    requires Assumptions(cfg, clock) && NoTripDuringTrial(cfg, clock, events)
    ensures Alike(cfg, clock, AfterNew(Dropped, cfg, clock, events), AfterNew(Stored, cfg, clock, events))
  {
    hide Next, Similar, TrialRuns, Start;
    if events == [] {
      StartAlike(cfg, clock);
    } else {
      var before := events[..|events| - 1];
      RunAlike(cfg, clock, before);
      EventAlike(cfg, clock, AfterNew(Dropped, cfg, clock, before), AfterNew(Stored, cfg, clock, before),
                 events[|events| - 1]);
    }
  }

  // Calls that do not overlap never trip while a trial runs.

  lemma AfterNewExtends(storage: Storage, cfg: Config, clock: Readings, events: seq<Event>, e: Event)
    ensures AfterNew(storage, cfg, clock, events + [e])
         == Next(storage, cfg, clock, AfterNew(storage, cfg, clock, events), e)
  {
    assert (events + [e])[..|events|] == events;
  }

  lemma NoTripExtends(cfg: Config, clock: Readings, events: seq<Event>, e: Event)
    requires NoTripDuringTrial(cfg, clock, events)
    requires e.End? || !TrialRuns(AfterNew(Dropped, cfg, clock, events).flights)
    ensures NoTripDuringTrial(cfg, clock, events + [e])
  {
    hide AfterNew, TrialRuns, Finish;
    AfterNewExtends(Dropped, cfg, clock, events, e);
    assert (events + [e])[..|events|] == events;
    if e.End? {
      EndNeverTrips(cfg, clock, AfterNew(Dropped, cfg, clock, events), e);
    }
  }

  lemma EndNeverTrips(cfg: Config, clock: Readings, s: State, e: Event)
    requires s.Valid() && e.End?
    ensures !Trip(s.breaker, Next(Dropped, cfg, clock, s, e).breaker)
  {
  }

  lemma NothingTrips(cfg: Config, clock: Readings)
    ensures NoTripDuringTrial(cfg, clock, [])
  {
  }

  lemma {:induction false} CallsNoTripDuringTrial(cfg: Config, clock: Readings, calls: seq<Call>)
    ensures NoTripDuringTrial(cfg, clock, Stretch(0, calls))
  {
    hide NoTripDuringTrial, Next, RunFrom;
    if calls == [] {
      NothingTrips(cfg, clock);
    } else {
      var before, call := Stretch(0, calls[..|calls| - 1]), calls[|calls| - 1];
      CallsNoTripDuringTrial(cfg, clock, calls[..|calls| - 1]);
      StretchIsRun(Dropped, cfg, clock, Start(clock), calls[..|calls| - 1]);
      var first := AsEvents(0, call)[0];
      NoTripExtends(cfg, clock, before, first);
      if call.CallDo? {
        NoTripExtends(cfg, clock, before + [first], End(0, call.f));
        assert before + [first] + [End(0, call.f)] == before + AsEvents(0, call);
      }
    }
  }

  /** The run of calls that shows the difference for a short sleep window. */
  lemma ShortSleepShows(cfg: Config)
    requires Nonnegative(cfg) && cfg.sleepWindow < cfg.healthSnapshotInterval
    ensures exists clock: Readings, events ::
              NonDecreasing(clock) && NoTripDuringTrial(cfg, clock, events) && !SameResponses(cfg, clock, events)
  {
    hide NoTripDuringTrial, Answer, RunFrom, Next, ShortSleepClock, TripCalls, SameResponses, Start;
    var failures, successes := SomeTrip(cfg);
    var clock, calls := ShortSleepClock(cfg, failures, successes), TripCalls(failures, successes) + [SUCCESS];
    ClockForward(cfg, failures, successes);
    CallsNoTripDuringTrial(cfg, clock, calls + [ASK]);
    assert (calls + [ASK])[..|calls|] == calls;
    LastCallTells(Dropped, cfg, failures, successes);
    LastCallTells(Stored, cfg, failures, successes);
    AnswersDiffer(cfg, clock, Stretch(0, calls));
    assert Stretch(0, calls + [ASK]) == Stretch(0, calls) + [Ask(PLAIN)];
  }

  /** What a question after a run is answered. */
  function LastAsked(storage: Storage, cfg: Config, clock: Readings, events: seq<Event>): bool {
    var s := AfterNew(storage, cfg, clock, events);
    IsOpen(storage, cfg, PLAIN, clock, s.breaker, s.next).value
  }

  lemma LastCallTells(storage: Storage, cfg: Config, failures: nat, successes: nat)
    requires Nonnegative(cfg) && cfg.sleepWindow < cfg.healthSnapshotInterval && Enough(cfg, failures, successes)
    ensures LastAsked(storage, cfg, ShortSleepClock(cfg, failures, successes),
                      Stretch(0, TripCalls(failures, successes) + [SUCCESS])) == storage.Stored?
  {
    hide RunFrom, IsOpen, Stretch, After, TripCalls, ShortSleepClock, NewBreaker;
    var clock := ShortSleepClock(cfg, failures, successes);
    StretchIsRun(storage, cfg, clock, Start(clock), TripCalls(failures, successes) + [SUCCESS]);
    LastAnswer(storage, cfg, failures, successes);
  }

  lemma AnswersDiffer(cfg: Config, clock: Readings, events: seq<Event>)
    requires LastAsked(Dropped, cfg, clock, events) != LastAsked(Stored, cfg, clock, events)
    ensures !SameResponses(cfg, clock, events + [Ask(PLAIN)])
  {
    hide AfterNew, IsOpen;
    AfterNewExtends(Dropped, cfg, clock, events, Ask(PLAIN));
    AfterNewExtends(Stored, cfg, clock, events, Ask(PLAIN));
    LastDiffers(AfterNew(Dropped, cfg, clock, events).responses, Asked(LastAsked(Dropped, cfg, clock, events)),
                AfterNew(Stored, cfg, clock, events).responses, Asked(LastAsked(Stored, cfg, clock, events)));
  }

  /** On all runs in which the breaker does not open while a trial is running, whatever else overlaps,
      dropping is unobservable just when the sleep window is at least the snapshot interval. */
  lemma DroppingUnobservableIffSleepCoversInterval(cfg: Config)
    requires Nonnegative(cfg)
    ensures (forall clock: Readings, events ::
               NonDecreasing(clock) && NoTripDuringTrial(cfg, clock, events) ==> SameResponses(cfg, clock, events))
        <==> cfg.healthSnapshotInterval <= cfg.sleepWindow
  {
    hide NoTripDuringTrial, AfterNew;
    if cfg.healthSnapshotInterval <= cfg.sleepWindow {
      forall clock: Readings, events | NonDecreasing(clock) && NoTripDuringTrial(cfg, clock, events)
        ensures SameResponses(cfg, clock, events)
      {
        RunAlike(cfg, clock, events);
      }
    } else {
      ShortSleepShows(cfg);
    }
  }

  // Two trials: the first outlasts the second, and closes the breaker just after it has opened again.

  function SecondTrial(cfg: Config): int {
    Tripped(cfg.healthSnapshotInterval) + 2 * cfg.sleepWindow + 2 + cfg.healthSnapshotInterval
  }

  /** The readings of a trip, of a trial, of a second one that succeeds, and of a second trip. */
  function TwoTrialsClock(cfg: Config, failures: nat, successes: nat): Readings {
    var n := 3 * failures + 2 * successes + 4;
    i => if i < 2 then cfg.healthSnapshotInterval
         else if i < n + 2 then TripReading(cfg.healthSnapshotInterval, failures, i - 2)
         else if i < n + 4 then Tripped(cfg.healthSnapshotInterval) + cfg.sleepWindow + 1
         else if i < n + 8 then SecondTrial(cfg)
         else TripReading(SecondTrial(cfg), failures, i - n - 8)
  }

  function TwoTrialsRun(failures: nat, successes: nat): seq<Event> {
    Stretch(0, TripCalls(failures, successes)) + [Begin(PLAIN)]
    + Stretch(1, [SUCCESS]) + Stretch(1, TripCalls(failures, successes)) + [End(0, Returned(None))]
  }

  lemma TwoTrialsClockForward(cfg: Config, failures: nat, successes: nat)
    requires Nonnegative(cfg)
    ensures NonDecreasing(TwoTrialsClock(cfg, failures, successes))
  {
    hide TripReading;
    var clock, n := TwoTrialsClock(cfg, failures, successes), 3 * failures + 2 * successes + 4;
    var made, later := cfg.healthSnapshotInterval, SecondTrial(cfg);
    TripReadingGrows(made, failures, 0, 0);
    forall i: nat, j: nat | i <= j ensures clock(i) <= clock(j) {
      if 2 <= j < n + 2 {
        TripReadingGrows(made, failures, if i < 2 then 0 else i - 2, j - 2);
      } else {
        if 2 <= i < n + 2 {
          TripReadingGrows(made, failures, i - 2, i - 2);
        }
        if n + 8 <= j {
          TripReadingGrows(later, failures, if i < n + 8 then 0 else i - n - 8, j - n - 8);
        }
      }
    }
  }

  /** A trial is admitted and leaves the rest as it is. */
  lemma TrialBegins(storage: Storage, cfg: Config, clock: Readings, b: Breaker, k: nat)
    requires b.Valid() && b.open && clock(k + 1) > b.lastTrialTime + cfg.sleepWindow
    requires Sized(b.requests) && Sized(b.errors)
    ensures var a := Admit(storage, cfg, PLAIN, clock, b, k);
            && a.value == Admission(true, true) && a.next == k + 2
            && a.breaker.open && a.breaker.lastTrialTime == clock(k + 1)
            && a.breaker.snapshotTime == b.snapshotTime && a.breaker.snapshot == b.snapshot
            && Sized(a.breaker.requests) && Sized(a.breaker.errors)
  {
  }

  lemma TrialResets(storage: Storage, cfg: Config, clock: Readings, b: Breaker, k: nat)
    requires b.Valid() && b.open && clock(k + 1) > b.lastTrialTime + cfg.sleepWindow
    requires Sized(b.requests) && Sized(b.errors) && clock(k + 2) == clock(k + 3)
    ensures var s := Do(storage, cfg, PLAIN, clock, b, k, Returned(None)).breaker;
            s.requests == s.errors == Only(0, 0, 0, clock(k + 2))
  {
    hide Incremented;
    NewIsOnly(0, clock(k + 2));
  }

  const RUNNING := [Flight(PLAIN, true)]

  function KeptSnapshot(storage: Storage, failures: nat, successes: nat): Health {
    if storage.Stored? then Health(successes, failures) else Health(0, 0)
  }

  /** What matters of the breaker at each stage. */
  ghost predicate Stage(s: State, next: nat, flights: seq<Flight>, open: bool, trialTime: int, snapshotTime: int,
                        snapshot: Health)
  {
    && s.next == next && s.flights == flights
    && s.breaker.open == open && s.breaker.lastTrialTime == trialTime
    && s.breaker.snapshotTime == snapshotTime && s.breaker.snapshot == snapshot
    && Sized(s.breaker.requests) && Sized(s.breaker.errors)
  }

  /** The breaker opens. */
  lemma FirstTrip(storage: Storage, cfg: Config, failures: nat, successes: nat)
    requires Nonnegative(cfg) && Enough(cfg, failures, successes)
    ensures var t, n := Tripped(cfg.healthSnapshotInterval), 3 * failures + 2 * successes + 4;
            Stage(AfterNew(storage, cfg, TwoTrialsClock(cfg, failures, successes),
                           Stretch(0, TripCalls(failures, successes))),
                  n + 2, [], true, t, t, KeptSnapshot(storage, failures, successes))
  {
    hide RunFrom, Next, TripReading, TripCalls, Only, NewBreaker;
    var clock, made := TwoTrialsClock(cfg, failures, successes), cfg.healthSnapshotInterval;
    NewIsZero(clock, made);
    CallsTrip(storage, cfg, clock, NewBreaker(clock, 0), 2, made, failures, successes);
    StretchIsRun(storage, cfg, clock, Start(clock), TripCalls(failures, successes));
  }

  /** A trial begins and runs on. */
  lemma FirstTrial(storage: Storage, cfg: Config, failures: nat, successes: nat, s: State)
    requires Nonnegative(cfg) && s.Valid()
    requires var t, n := Tripped(cfg.healthSnapshotInterval), 3 * failures + 2 * successes + 4;
             Stage(s, n + 2, [], true, t, t, KeptSnapshot(storage, failures, successes))
    ensures var t, n := Tripped(cfg.healthSnapshotInterval), 3 * failures + 2 * successes + 4;
            Stage(Next(storage, cfg, TwoTrialsClock(cfg, failures, successes), s, Begin(PLAIN)),
                  n + 4, RUNNING, true, t + cfg.sleepWindow + 1, t, KeptSnapshot(storage, failures, successes))
  {
    hide Admit, TripReading, Tripped;
    TrialBegins(storage, cfg, TwoTrialsClock(cfg, failures, successes), s.breaker, s.next);
  }

  /** A second trial succeeds meanwhile. */
  lemma SecondSucceeds(storage: Storage, cfg: Config, failures: nat, successes: nat, s: State)
    requires Nonnegative(cfg) && s.Valid()
    requires var t, n := Tripped(cfg.healthSnapshotInterval), 3 * failures + 2 * successes + 4;
             Stage(s, n + 4, RUNNING, true, t + cfg.sleepWindow + 1, t, KeptSnapshot(storage, failures, successes))
    ensures var n := 3 * failures + 2 * successes + 4;
            var t := After(storage, cfg, TwoTrialsClock(cfg, failures, successes), s, Stretch(1, [SUCCESS]));
            && t.next == n + 8 && t.flights == RUNNING && !t.breaker.open
            && t.breaker.snapshotTime == Tripped(cfg.healthSnapshotInterval)
            && t.breaker.snapshot == KeptSnapshot(storage, failures, successes)
            && t.breaker.requests == t.breaker.errors == Only(0, 0, 0, SecondTrial(cfg))
  {
    hide Do, Next, TripReading, Tripped, Only;
    var clock := TwoTrialsClock(cfg, failures, successes);
    assert s.next == 3 * failures + 2 * successes + 8;
    assert clock(s.next + 1) == SecondTrial(cfg);
    TrialCloses(storage, cfg, clock, s.breaker, s.next);
    TrialResets(storage, cfg, clock, s.breaker, s.next);
    StretchIsRun(storage, cfg, clock, s, [SUCCESS]);
    OneCall(storage, cfg, clock, s.breaker, s.next, SUCCESS);
  }

  lemma OneCall(storage: Storage, cfg: Config, clock: Readings, b: Breaker, k: nat, call: Call)
    requires b.Valid()
    ensures var s, r := RunFrom(storage, cfg, clock, b, k, [call]), Answer(storage, cfg, clock, b, k, call);
            s.breaker == r.breaker && s.next == r.next
  {
    hide Answer;
    RunFromExtends(storage, cfg, clock, b, k, [], call);
    assert [] + [call] == [call];
    assert RunFrom(storage, cfg, clock, b, k, []) == Step(b, k, []);
  }

  /** The breaker opens again, on a fresh snapshot. */
  lemma SecondTrip(storage: Storage, cfg: Config, failures: nat, successes: nat, s: State)
    requires Nonnegative(cfg) && Enough(cfg, failures, successes) && s.Valid()
    requires s.next == 3 * failures + 2 * successes + 12 && s.flights == RUNNING && !s.breaker.open
    requires s.breaker.snapshotTime == Tripped(cfg.healthSnapshotInterval)
    requires s.breaker.snapshot == KeptSnapshot(storage, failures, successes)
    requires s.breaker.requests == s.breaker.errors == Only(0, 0, 0, SecondTrial(cfg))
    ensures var t, n := Tripped(SecondTrial(cfg)), 3 * failures + 2 * successes + 4;
            Stage(After(storage, cfg, TwoTrialsClock(cfg, failures, successes), s,
                        Stretch(1, TripCalls(failures, successes))),
                  2 * n + 8, RUNNING, true, t, t, KeptSnapshot(storage, failures, successes))
  {
    hide RunFrom, Next, TripReading, TripCalls, Only;
    var clock := TwoTrialsClock(cfg, failures, successes);
    CallsTrip(storage, cfg, clock, s.breaker, s.next, SecondTrial(cfg), failures, successes);
    StretchIsRun(storage, cfg, clock, s, TripCalls(failures, successes));
  }

  /** The first trial succeeds at once; the question after it tells a stored snapshot. */
  lemma StaleAnswer(storage: Storage, cfg: Config, failures: nat, successes: nat, s: State)
    requires Nonnegative(cfg) && Enough(cfg, failures, successes) && s.Valid()
    requires var t, n := Tripped(SecondTrial(cfg)), 3 * failures + 2 * successes + 4;
             Stage(s, 2 * n + 8, RUNNING, true, t, t, KeptSnapshot(storage, failures, successes))
    ensures var clock := TwoTrialsClock(cfg, failures, successes);
            var t := Next(storage, cfg, clock, s, End(0, Returned(None)));
            IsOpen(storage, cfg, PLAIN, clock, t.breaker, t.next).value == storage.Stored?
  {
    hide IsOpen, Tripped;
    var clock := TwoTrialsClock(cfg, failures, successes);
    var t := Next(storage, cfg, clock, s, End(0, Returned(None)));
    assert t.next == 6 * failures + 4 * successes + 18;
    assert clock(t.next) == TripReading(SecondTrial(cfg), failures, 3 * failures + 2 * successes + 6);
    assert clock(t.next) == Tripped(SecondTrial(cfg));
    StaleSnapshotTells(cfg, clock, t.breaker, t.next, failures, successes);
  }

  lemma LastQuestionTells(storage: Storage, cfg: Config, failures: nat, successes: nat)
    requires Nonnegative(cfg) && Enough(cfg, failures, successes)
    ensures LastAsked(storage, cfg, TwoTrialsClock(cfg, failures, successes), TwoTrialsRun(failures, successes))
         == storage.Stored?
  {
    hide Next, IsOpen, Stretch, After, TripCalls, TwoTrialsClock, Start, Stage, Only, SecondTrial, Tripped;
    var clock := TwoTrialsClock(cfg, failures, successes);
    var trip := Stretch(0, TripCalls(failures, successes));
    var again := Stretch(1, TripCalls(failures, successes));
    FirstTrip(storage, cfg, failures, successes);
    var s1 := AfterNew(storage, cfg, clock, trip);
    AfterNewExtends(storage, cfg, clock, trip, Begin(PLAIN));
    FirstTrial(storage, cfg, failures, successes, s1);
    var s2 := AfterNew(storage, cfg, clock, trip + [Begin(PLAIN)]);
    AfterAppend(storage, cfg, clock, Start(clock), trip + [Begin(PLAIN)], Stretch(1, [SUCCESS]));
    SecondSucceeds(storage, cfg, failures, successes, s2);
    var s3 := AfterNew(storage, cfg, clock, trip + [Begin(PLAIN)] + Stretch(1, [SUCCESS]));
    AfterAppend(storage, cfg, clock, Start(clock), trip + [Begin(PLAIN)] + Stretch(1, [SUCCESS]), again);
    SecondTrip(storage, cfg, failures, successes, s3);
    var s4 := AfterNew(storage, cfg, clock, trip + [Begin(PLAIN)] + Stretch(1, [SUCCESS]) + again);
    AfterNewExtends(storage, cfg, clock, trip + [Begin(PLAIN)] + Stretch(1, [SUCCESS]) + again, End(0, Returned(None)));
    StaleAnswer(storage, cfg, failures, successes, s4);
  }

  /** Whatever the properties, the difference shows in some run with two overlapping trials. */
  lemma OverlappingTrialsShowDropping(cfg: Config)
    requires Nonnegative(cfg)
    ensures exists clock: Readings, events :: NonDecreasing(clock) && !SameResponses(cfg, clock, events)
  {
    hide SameResponses, TwoTrialsClock, TwoTrialsRun, LastAsked;
    var failures, successes := SomeTrip(cfg);
    var clock, events := TwoTrialsClock(cfg, failures, successes), TwoTrialsRun(failures, successes);
    TwoTrialsClockForward(cfg, failures, successes);
    LastQuestionTells(Dropped, cfg, failures, successes);
    LastQuestionTells(Stored, cfg, failures, successes);
    AnswersDiffer(cfg, clock, events);
  }
}
