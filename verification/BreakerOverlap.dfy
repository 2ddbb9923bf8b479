/**
 Runs of one breaker whose functions overlap. A call is admitted in one step and ends in
 another, and between them there may be any other steps: functions admitted before a trip
 end after it, and calls arrive while a trial is running.
 */
module BreakerOverlap {
  import opened Clocks
  import opened Outcomes
  import opened RollingNumber
  import opened RollingWindow
  import opened BreakerModel
  import opened BreakerRuns
  import opened BreakerHistory

  /** A function that has been admitted and is still running. */
  datatype Flight = Flight(flags: Flags, trial: bool)

  datatype Event =
    | Begin(flags: Flags)
    /** One of the running functions ends. */
    | End(flight: nat, f: Outcome)
    | Ask(flags: Flags)
    | Pause(readings: nat)

  datatype Response = Began(admission: Admission) | Ended(reply: Reply) | Asked(open: bool) | Passed

  /** The breaker, the number of clock readings made, the functions running, and what has happened:
      the responses, the requests and errors counted, and the trips and trials. */
  datatype State = State(
    breaker: Breaker,
    next: nat,
    flights: seq<Flight>,
    responses: seq<Response>,
    history: History,
    marks: seq<Mark>)
  {
    ghost predicate Valid() {
      breaker.Valid()
    }
  }

  function Start(clock: Readings): (s: State)
    ensures s.Valid()
  {
    State(NewBreaker(clock, 0), 2, [], [], History([], []), [])
  }

  /** The history once a call has counted its request. */
  function Requested(clock: Readings, k: nat, flags: Flags, h: History): History {
    if Counts(flags) then h.(requests := h.requests + [clock(k)]) else h
  }

  /** The history once a call has been admitted, or refused and counted as an error. */
  function Decided(clock: Readings, k: nat, flags: Flags, a: Step<Admission>, h: History): History
    requires Counts(flags) ==> 0 < a.next
  {
    var requested := Requested(clock, k, flags, h);
    if Counts(flags) && !a.value.allowed then requested.(errors := h.errors + [clock(a.next - 1)]) else requested
  }

  /** The history once a function has ended. */
  function Concluded(clock: Readings, k: nat, flight: Flight, f: Outcome, h: History): History {
    if !flight.flags.enabled then h
    else
      match f
      case Panicked(_) => h
      case Returned(Some(_)) => h.(errors := h.errors + [clock(k)])
      case Returned(None) => if flight.trial then History([], []) else h
  }

  function TripMarked(before: Breaker, after: Breaker, marks: seq<Mark>): seq<Mark> {
    if !before.open && after.open then marks + [Mark(after.lastTrialTime, false)] else marks
  }

  function Next(storage: Storage, cfg: Config, clock: Readings, s: State, e: Event): (t: State)
    requires s.Valid()
    ensures t.Valid() && t.next >= s.next
  {
    match e
    case Begin(flags) =>
      var a := Admit(storage, cfg, flags, clock, s.breaker, s.next);
      State(a.breaker, a.next,
            if a.value.allowed then s.flights + [Flight(flags, a.value.trial)] else s.flights,
            s.responses + [Began(a.value)],
            Decided(clock, s.next, flags, a, s.history),
            if a.value.trial then s.marks + [Mark(clock(s.next + 1), true)]
            else TripMarked(s.breaker, a.breaker, s.marks))
    case End(i, f) =>
      if i < |s.flights| then
        var flight := s.flights[i];
        var d := Finish(flight.flags, clock, s.breaker, s.next, flight.trial, f);
        State(d.breaker, d.next, s.flights[..i] + s.flights[i + 1..], s.responses + [Ended(d.value)],
              Concluded(clock, s.next, flight, f, s.history), s.marks)
      else s.(responses := s.responses + [Passed])
    case Ask(flags) =>
      var q := IsOpen(storage, cfg, flags, clock, s.breaker, s.next);
      State(q.breaker, q.next, s.flights, s.responses + [Asked(q.value)], s.history,
            TripMarked(s.breaker, q.breaker, s.marks))
    case Pause(readings) =>
      s.(next := s.next + readings, responses := s.responses + [Passed])
  }

  function After(storage: Storage, cfg: Config, clock: Readings, s: State, events: seq<Event>): (t: State)
    requires s.Valid()
    ensures t.Valid() && t.next >= s.next
  {
    if events == [] then s
    else Next(storage, cfg, clock, After(storage, cfg, clock, s, events[..|events| - 1]), events[|events| - 1])
  }

  // What every event keeps.

  /** The counters record the history, the marks are spaced, and only calls that count are trials. */
  ghost predicate Kept(cfg: Config, clock: Readings, s: State) {
    && Tracked(clock, s.breaker, s.next, s.history)
    && MarksKept(cfg, clock, s.breaker, s.next, s.marks)
    && TrialsCount(s.flights)
  }

  ghost predicate TrialsCount(flights: seq<Flight>) {
    forall i :: 0 <= i < |flights| && flights[i].trial ==> Counts(flights[i].flags)
  }

  /** A running trial succeeds. */
  predicate TrialSucceeds(s: State, e: Event) {
    e.End? && e.flight < |s.flights| && s.flights[e.flight].trial && e.f == Returned(None)
  }

  predicate Unforced(flags: Flags) {
    !flags.forceOpen && !flags.forceClosed
  }

  /** The history that a trip is judged by. */
  function JudgedBy(clock: Readings, s: State, e: Event): History {
    if e.Begin? then Requested(clock, s.next, e.flags, s.history) else s.history
  }

  /** Only an unforced call or question opens the breaker, with evidence, and it admits nothing. */
  ghost predicate TripsLawfully(cfg: Config, clock: Readings, s: State, e: Event, t: State) {
    Trip(s.breaker, t.breaker) ==>
      && (e.Begin? || e.Ask?) && Unforced(e.flags) && (e.Begin? ==> e.flags.enabled)
      && t.flights == s.flights
      && Justified(cfg, clock, s.breaker, t.breaker, JudgedBy(clock, s, e), s.next, t.next)
  }

  /** While the breaker is open only trials are admitted, and it closes just when a running trial succeeds. */
  ghost predicate HalfOpens(s: State, e: Event, t: State) {
    s.breaker.open ==>
      && (e.Begin? && e.flags.enabled && Unforced(e.flags) ==>
            t.flights == s.flights || t.flights == s.flights + [Flight(e.flags, true)])
      && (t.breaker.open <==> !TrialSucceeds(s, e))
  }

  lemma AdmitTracked(cfg: Config, flags: Flags, clock: Readings, b: Breaker, k: nat, h: History)
    requires Sensible(cfg, clock) && Tracked(clock, b, k, h)
    ensures b.Valid()
    ensures var a := Admit(Dropped, cfg, flags, clock, b, k);
            && Tracked(clock, a.breaker, a.next, Decided(clock, k, flags, a, h))
            && (Trip(b, a.breaker) ==>
                  && !a.value.allowed && flags.enabled && Unforced(flags)
                  && Justified(cfg, clock, b, a.breaker, Requested(clock, k, flags, h), k, a.next))
            && (b.open ==> a.breaker.open && (flags.enabled && Unforced(flags) && a.value.allowed ==> a.value.trial))
            && (a.value.trial ==>
                  && a.value.allowed && Counts(flags) && b.open && k + 1 < a.next
                  && a.breaker.lastTrialTime == clock(k + 1) > b.lastTrialTime + cfg.sleepWindow)
            && (!Trip(b, a.breaker) && !a.value.trial ==> a.breaker.lastTrialTime == b.lastTrialTime)
  {
    hide Records, Rotate, CountsLatest, Total, Justified, IsRequestAllowed, Tracked;
    assert b.Valid() by { ValidIfTracked(clock, b, k, h); }
    if Counts(flags) {
      RequestTracked(clock, b, k, h);
      var counted, h' := b.(requests := Incremented(b.requests, clock(k))), Requested(clock, k, flags, h);
      AdmissionTracked(cfg, flags, clock, counted, k + 1, h');
      var r := IsRequestAllowed(Dropped, cfg, flags, clock, counted, k + 1);
      SettleTracked(clock, r.breaker, r.next, h', false, Returned(Some(CircuitOpenError)));
      var a := Admit(Dropped, cfg, flags, clock, b, k);
      if Trip(b, a.breaker) {
        JustifiedAlike(cfg, clock, counted, r.breaker, b, a.breaker, h', k + 1, k, r.next, a.next);
      }
    }
  }

  lemma FinishTracked(clock: Readings, b: Breaker, k: nat, h: History, flight: Flight, f: Outcome)
    requires NonDecreasing(clock) && Tracked(clock, b, k, h)
    requires flight.trial ==> Counts(flight.flags)
    ensures b.Valid()
    ensures var d := Finish(flight.flags, clock, b, k, flight.trial, f);
            && Tracked(clock, d.breaker, d.next, Concluded(clock, k, flight, f, h))
            && d.breaker.lastTrialTime == b.lastTrialTime && d.breaker.snapshotTime == b.snapshotTime
            && (d.breaker.open <==> b.open && !(flight.trial && f == Returned(None)))
  {
    hide Records, Tracked, Incremented, Zeroed;
    SettleTracked(clock, b, k, h, flight.trial, f);
  }

  /** No event takes the last mark away from the breaker. */
  lemma MarksStay(cfg: Config, clock: Readings, s: State, t: State)
    requires Sensible(cfg, clock) && MarksKept(cfg, clock, s.breaker, s.next, s.marks) && s.next <= t.next
    requires t.marks == s.marks && t.breaker.lastTrialTime == s.breaker.lastTrialTime
    ensures MarksKept(cfg, clock, t.breaker, t.next, t.marks)
  {
    assert clock(s.next) <= clock(t.next);
  }

  lemma MarkJoins(cfg: Config, clock: Readings, s: State, t: State, i: nat, trial: bool)
    requires Sensible(cfg, clock) && MarksKept(cfg, clock, s.breaker, s.next, s.marks)
    requires s.next <= i <= t.next && t.breaker.lastTrialTime == clock(i)
    requires trial ==> clock(i) > s.breaker.lastTrialTime + cfg.sleepWindow
    requires t.marks == s.marks + [Mark(clock(i), trial)]
    ensures MarksKept(cfg, clock, t.breaker, t.next, t.marks)
  {
    assert clock(s.next) <= clock(i) <= clock(t.next);
  }

  lemma TripMarkJoins(cfg: Config, clock: Readings, s: State, t: State, h: History)
    requires Sensible(cfg, clock) && MarksKept(cfg, clock, s.breaker, s.next, s.marks) && s.next <= t.next
    requires Trip(s.breaker, t.breaker) ==> Justified(cfg, clock, s.breaker, t.breaker, h, s.next, t.next)
    requires !Trip(s.breaker, t.breaker) ==> t.breaker.lastTrialTime == s.breaker.lastTrialTime
    requires t.marks == TripMarked(s.breaker, t.breaker, s.marks)
    ensures MarksKept(cfg, clock, t.breaker, t.next, t.marks)
  {
    hide MarksKept, Justified;
    if Trip(s.breaker, t.breaker) {
      TripTimeIsReading(cfg, clock, s.breaker, t.breaker, h, s.next, t.next);
      var i :| s.next <= i < t.next && t.breaker.lastTrialTime == clock(i);
      MarkJoins(cfg, clock, s, t, i, false);
    } else {
      MarksStay(cfg, clock, s, t);
    }
  }

  lemma BeginKeeps(cfg: Config, clock: Readings, s: State, flags: Flags)
    requires Sensible(cfg, clock) && Kept(cfg, clock, s)
    ensures s.Valid()
    ensures var t := Next(Dropped, cfg, clock, s, Begin(flags));
            Kept(cfg, clock, t) && TripsLawfully(cfg, clock, s, Begin(flags), t) && HalfOpens(s, Begin(flags), t)
  {
    hide Tracked, MarksKept, Justified, Admit;
    AdmitTracked(cfg, flags, clock, s.breaker, s.next, s.history);
    var t := Next(Dropped, cfg, clock, s, Begin(flags));
    var a := Admit(Dropped, cfg, flags, clock, s.breaker, s.next);
    if a.value.trial {
      MarkJoins(cfg, clock, s, t, s.next + 1, true);
    } else {
      TripMarkJoins(cfg, clock, s, t, JudgedBy(clock, s, Begin(flags)));
    }
  }

  lemma EndKeeps(cfg: Config, clock: Readings, s: State, i: nat, f: Outcome)
    requires Sensible(cfg, clock) && Kept(cfg, clock, s)
    ensures s.Valid()
    ensures var t := Next(Dropped, cfg, clock, s, End(i, f));
            Kept(cfg, clock, t) && TripsLawfully(cfg, clock, s, End(i, f), t) && HalfOpens(s, End(i, f), t)
  {
    hide Tracked, MarksKept, Justified, Finish, Concluded;
    assert s.Valid() by { ValidIfTracked(clock, s.breaker, s.next, s.history); }
    if i < |s.flights| {
      FinishTracked(clock, s.breaker, s.next, s.history, s.flights[i], f);
    }
    MarksStay(cfg, clock, s, Next(Dropped, cfg, clock, s, End(i, f)));
  }

  lemma AskKeeps(cfg: Config, clock: Readings, s: State, flags: Flags)
    requires Sensible(cfg, clock) && Kept(cfg, clock, s)
    ensures s.Valid()
    ensures var t := Next(Dropped, cfg, clock, s, Ask(flags));
            Kept(cfg, clock, t) && TripsLawfully(cfg, clock, s, Ask(flags), t) && HalfOpens(s, Ask(flags), t)
  {
    hide Tracked, MarksKept, Justified, IsOpen;
    IsOpenTracked(cfg, flags, clock, s.breaker, s.next, s.history);
    AskMarked(cfg, flags, clock, s.breaker, s.next, s.history);
    TripMarkJoins(cfg, clock, s, Next(Dropped, cfg, clock, s, Ask(flags)), s.history);
  }

  lemma EventKeeps(cfg: Config, clock: Readings, s: State, e: Event)
    requires Sensible(cfg, clock) && Kept(cfg, clock, s)
    ensures s.Valid()
    ensures var t := Next(Dropped, cfg, clock, s, e);
            Kept(cfg, clock, t) && TripsLawfully(cfg, clock, s, e, t) && HalfOpens(s, e, t)
  {
    match e
    case Begin(flags) => BeginKeeps(cfg, clock, s, flags);
    case End(i, f) => EndKeeps(cfg, clock, s, i, f);
    case Ask(flags) => AskKeeps(cfg, clock, s, flags);
    case Pause(readings) =>
      hide Tracked, MarksKept, Justified;
      assert s.Valid() by { ValidIfTracked(clock, s.breaker, s.next, s.history); }
      TrackedLater(clock, s.breaker, s.next, s.next + readings, s.history);
      MarksStay(cfg, clock, s, s.(next := s.next + readings));
  }

  lemma StartKept(cfg: Config, clock: Readings)
    requires Sensible(cfg, clock)
    ensures Kept(cfg, clock, Start(clock))
  {
    hide Records;
    assert clock(0) <= clock(2) && clock(1) <= clock(2);
    NewRecordsNothing(DEFAULT_BUCKET_SIZE, DEFAULT_WINDOW_BUCKETS, clock(0));
    NewRecordsNothing(DEFAULT_BUCKET_SIZE, DEFAULT_WINDOW_BUCKETS, clock(1));
  }

  /** In every overlapping run the counters record exactly the requests and errors since the breaker
      was made or a trial last succeeded, and the marks are spaced. */
  lemma {:induction false} RunKept(cfg: Config, clock: Readings, events: seq<Event>)
    requires Sensible(cfg, clock)
    ensures Kept(cfg, clock, After(Dropped, cfg, clock, Start(clock), events))
  {
    hide Kept, Next;
    if events == [] {
      StartKept(cfg, clock);
    } else {
      RunKept(cfg, clock, events[..|events| - 1]);
      EventKeeps(cfg, clock, After(Dropped, cfg, clock, Start(clock), events[..|events| - 1]), events[|events| - 1]);
    }
  }

  /** Whenever the breaker opens, whatever is running: an unforced call or question opens it, admits no
      function, and has taken a snapshot of the latest requests and errors, enough and bad enough. */
  lemma EveryTripHasEvidence(cfg: Config, clock: Readings, events: seq<Event>, e: Event)
    requires Sensible(cfg, clock)
    ensures var s := After(Dropped, cfg, clock, Start(clock), events);
            TripsLawfully(cfg, clock, s, e, Next(Dropped, cfg, clock, s, e))
  {
    hide Kept, Next, TripsLawfully;
    RunKept(cfg, clock, events);
    EventKeeps(cfg, clock, After(Dropped, cfg, clock, Start(clock), events), e);
  }

  /** Whatever is running, an open breaker admits only trials unless forced, and closes just when
      one of the running trials succeeds. */
  lemma OnlyTrialsPassOpenBreaker(cfg: Config, clock: Readings, events: seq<Event>, e: Event)
    requires Sensible(cfg, clock)
    ensures var s := After(Dropped, cfg, clock, Start(clock), events);
            HalfOpens(s, e, Next(Dropped, cfg, clock, s, e))
  {
    hide Kept, Next, HalfOpens;
    RunKept(cfg, clock, events);
    EventKeeps(cfg, clock, After(Dropped, cfg, clock, Start(clock), events), e);
  }

  /** Over any stretch of any run, overlapping trials included, n trials admitted between times a and b
      satisfy (n - 1) * (sleepWindow + 1) <= b - a. */
  lemma TrialsAreSpaced(cfg: Config, clock: Readings, events: seq<Event>, i: nat, j: nat, a: int, b: int)
    requires Sensible(cfg, clock)
    ensures var marks := After(Dropped, cfg, clock, Start(clock), events).marks;
            && Spaced(cfg, marks)
            && (i < j <= |marks| && a <= marks[i].time && marks[j - 1].time <= b ==>
                  (Trials(marks[i..j]) - 1) * (cfg.sleepWindow + 1) <= b - a)
  {
    hide Tracked, Trials, Spaced, After;
    RunKept(cfg, clock, events);
    var marks := After(Dropped, cfg, clock, Start(clock), events).marks;
    if i < j <= |marks| && a <= marks[i].time && marks[j - 1].time <= b {
      StretchOfTrials(cfg, marks, i, j);
    }
  }

  // Calls that do not overlap are the special case.

  function AsEvents(running: nat, call: Call): seq<Event> {
    match call
    case CallDo(flags, f) => [Begin(flags)] + [End(running, f)]
    case CallIsOpen(flags) => [Ask(flags)]
    case Wait(readings) => [Pause(readings)]
  }

  /** Calls that do not overlap each other, made while so many other functions are running. */
  function Stretch(running: nat, calls: seq<Call>): seq<Event> {
    if calls == [] then [] else Stretch(running, calls[..|calls| - 1]) + AsEvents(running, calls[|calls| - 1])
  }

  lemma {:induction false} AfterAppend(storage: Storage, cfg: Config, clock: Readings, s: State, first: seq<Event>,
                                       second: seq<Event>)
    requires s.Valid()
    ensures After(storage, cfg, clock, s, first + second)
         == After(storage, cfg, clock, After(storage, cfg, clock, s, first), second)
  {
    hide Next;
    if second == [] {
      assert first + second == first;
    } else {
      assert (first + second)[..|first + second| - 1] == first + second[..|second| - 1];
      AfterAppend(storage, cfg, clock, s, first, second[..|second| - 1]);
    }
  }

  lemma AfterOne(storage: Storage, cfg: Config, clock: Readings, s: State, e: Event)
    requires s.Valid()
    ensures After(storage, cfg, clock, s, [e]) == Next(storage, cfg, clock, s, e)
  {
    hide Next;
    assert [e][..0] == [];
    assert After(storage, cfg, clock, s, []) == s;
  }

  /** The call that opens the breaker is refused, on a clock that does not go back. */
  lemma TripAdmitsNothing(storage: Storage, cfg: Config, flags: Flags, clock: Readings, b: Breaker, k: nat)
    requires b.Valid()
    ensures var a := Admit(storage, cfg, flags, clock, b, k);
            && (NonDecreasing(clock) && 0 <= cfg.sleepWindow && Trip(b, a.breaker) ==> !a.value.allowed)
            && (a.value.trial ==> a.value.allowed && Counts(flags))
            && (!Counts(flags) ==> a == Step(b, k, Admission(!flags.enabled, false)))
  {
    hide Incremented, Rotate, Total;
    assert NonDecreasing(clock) ==> clock(k + 1) <= clock(k + 5);
  }

  lemma LastRemoved<T>(items: seq<T>, last: T)
    ensures (items + [last])[..|items|] + (items + [last])[|items| + 1..] == items
  {
  }

  /** What one call makes of a state. */
  ghost predicate Called(storage: Storage, cfg: Config, clock: Readings, s: State, call: Call, t: State)
    requires s.Valid() && 0 < s.next
  {
    var r := Answer(storage, cfg, clock, s.breaker, s.next, call);
    && t.breaker == r.breaker && t.next == r.next && t.flights == s.flights
    && t.history == Noted(clock, s.next, call, r, s.history)
    && (NonDecreasing(clock) && 0 <= cfg.sleepWindow ==>
          t.marks == WithMark(clock, Step(s.breaker, s.next, []), r, s.marks))
  }

  /** The history of a call, from its admission and its end. */
  lemma NotedInSteps(clock: Readings, b: Breaker, k: nat, flags: Flags, a: Step<Admission>, f: Outcome, h: History)
    requires a.breaker.Valid() && (Counts(flags) ==> 0 < a.next) && (a.value.trial ==> Counts(flags)) && 0 < k <= a.next
    requires !Counts(flags) ==> a == Step(b, k, Admission(!flags.enabled, false))
    ensures var d := Finish(flags, clock, a.breaker, a.next, a.value.trial, f);
            var r := if a.value.allowed then d else Step(a.breaker, a.next, Refused);
            Noted(clock, k, CallDo(flags, f), r, h)
            == if a.value.allowed
               then Concluded(clock, a.next, Flight(flags, a.value.trial), f, Decided(clock, k, flags, a, h))
               else Decided(clock, k, flags, a, h)
  {
    hide Incremented, Zeroed;
  }

  lemma DoIsBeginEnd(storage: Storage, cfg: Config, clock: Readings, s: State, flags: Flags, f: Outcome)
    requires s.Valid() && 0 < s.next
    ensures var t := Next(storage, cfg, clock, Next(storage, cfg, clock, s, Begin(flags)), End(|s.flights|, f));
            Called(storage, cfg, clock, s, CallDo(flags, f), t)
  {
    hide Admit, Do, Incremented, Zeroed, Noted, Concluded, Decided;
    TripAdmitsNothing(storage, cfg, flags, clock, s.breaker, s.next);
    DoAdmitsThenFinishes(storage, cfg, flags, clock, s.breaker, s.next, f);
    var a := Admit(storage, cfg, flags, clock, s.breaker, s.next);
    NotedInSteps(clock, s.breaker, s.next, flags, a, f, s.history);
    if a.value.allowed {
      LastRemoved(s.flights, Flight(flags, a.value.trial));
    }
  }

  /** One call does what its events do, whatever else is running. */
  lemma CallIsEvents(storage: Storage, cfg: Config, clock: Readings, s: State, call: Call)
    requires s.Valid() && 0 < s.next
    ensures Called(storage, cfg, clock, s, call, After(storage, cfg, clock, s, AsEvents(|s.flights|, call)))
  {
    if call.CallDo? {
      hide Called, Next;
      var begin, end := Begin(call.flags), End(|s.flights|, call.f);
      AfterAppend(storage, cfg, clock, s, [begin], [end]);
      AfterOne(storage, cfg, clock, s, begin);
      AfterOne(storage, cfg, clock, Next(storage, cfg, clock, s, begin), end);
      DoIsBeginEnd(storage, cfg, clock, s, call.flags, call.f);
    } else {
      hide IsOpen;
      AfterOne(storage, cfg, clock, s, AsEvents(|s.flights|, call)[0]);
    }
  }

  /** So do calls that do not overlap each other. */
  lemma {:induction false} StretchIsRun(storage: Storage, cfg: Config, clock: Readings, s: State, calls: seq<Call>)
    requires s.Valid() && 0 < s.next
    ensures var t := After(storage, cfg, clock, s, Stretch(|s.flights|, calls));
            var r := RunFrom(storage, cfg, clock, s.breaker, s.next, calls);
            t.breaker == r.breaker && t.next == r.next && t.flights == s.flights
  {
    hide Next, Answer, AsEvents;
    if calls != [] {
      var before, call := calls[..|calls| - 1], calls[|calls| - 1];
      StretchIsRun(storage, cfg, clock, s, before);
      AfterAppend(storage, cfg, clock, s, Stretch(|s.flights|, before), AsEvents(|s.flights|, call));
      CallIsEvents(storage, cfg, clock, After(storage, cfg, clock, s, Stretch(|s.flights|, before)), call);
    }
  }

  /** Runs without any overlap are those of `BreakerRuns`, with the same history and the same marks. */
  lemma {:induction false} CallsAreSpecialCase(cfg: Config, clock: Readings, calls: seq<Call>)
    requires NonDecreasing(clock) && 0 <= cfg.sleepWindow
    ensures var t, r := After(Dropped, cfg, clock, Start(clock), Stretch(0, calls)), Run(Dropped, cfg, clock, calls);
            && t.breaker == r.breaker && t.next == r.next && t.flights == []
            && t.history == HistoryOf(cfg, clock, calls) && t.marks == Marks(cfg, clock, calls)
  {
    hide Next, Answer, AsEvents, Noted, Run;
    StretchIsRun(Dropped, cfg, clock, Start(clock), calls);
    RunStarts(Dropped, cfg, clock, calls);
    if calls != [] {
      var before, call := calls[..|calls| - 1], calls[|calls| - 1];
      CallsAreSpecialCase(cfg, clock, before);
      AfterAppend(Dropped, cfg, clock, Start(clock), Stretch(0, before), AsEvents(0, call));
      CallIsEvents(Dropped, cfg, clock, After(Dropped, cfg, clock, Start(clock), Stretch(0, before)), call);
    }
  }

  lemma RunStarts(storage: Storage, cfg: Config, clock: Readings, calls: seq<Call>)
    ensures Run(storage, cfg, clock, calls)
         == RunFrom(storage, cfg, clock, Start(clock).breaker, Start(clock).next, calls)
  {
  }
}
