/**
 Does it matter that the breaker drops its health snapshots? Not if the sleep
 window is at least the snapshot interval; and it does matter, on some clock,
 whenever the sleep window is shorter.
 */
module BreakerSnapshot {
  import opened Clocks
  import opened Outcomes
  import opened Numbers
  import opened RollingNumber
  import opened BreakerModel
  import opened BreakerRuns
  import opened BreakerExamples

  ghost predicate SameReplies(cfg: Config, clock: Readings, calls: seq<Call>) {
    Run(Dropped, cfg, clock, calls).value == Run(Stored, cfg, clock, calls).value
  }

  // Sufficiency: a bisimulation.

  /** The stored snapshot will not be read again. */
  ghost predicate Expired(cfg: Config, clock: Readings, b: Breaker, k: nat) {
    clock(k) > b.snapshotTime + cfg.healthSnapshotInterval
  }

  /** The stored snapshot would not trip the breaker, or has expired. */
  ghost predicate Harmless(cfg: Config, clock: Readings, b: Breaker, k: nat) {
    !Trips(cfg, b.snapshot) || Expired(cfg, clock, b, k)
  }

  /** The two breakers differ in the stored snapshot alone, which when closed is harmless. */
  ghost predicate Similar(cfg: Config, clock: Readings, dropping: Breaker, storing: Breaker, k: nat) {
    && dropping.Valid()
    && dropping == storing.(snapshot := Health(0, 0))
    && (storing.open ==> storing.snapshotTime <= storing.lastTrialTime)
    && (!storing.open ==> Harmless(cfg, clock, storing, k))
  }

  lemma SimilarLater(cfg: Config, clock: Readings, dropping: Breaker, storing: Breaker, k: nat, k': nat)
    requires NonDecreasing(clock) && k <= k' && Similar(cfg, clock, dropping, storing, k)
    ensures Similar(cfg, clock, dropping, storing, k')
  {
    assert clock(k) <= clock(k');
  }

  ghost predicate Assumptions(cfg: Config, clock: Readings) {
    && NonDecreasing(clock)
    && 0 <= cfg.errorThresholdPercentage
    && 0 <= cfg.healthSnapshotInterval <= cfg.sleepWindow
  }

  lemma IsOpenSimilar(cfg: Config, flags: Flags, clock: Readings, dropping: Breaker, storing: Breaker, k: nat)
    requires Assumptions(cfg, clock) && Similar(cfg, clock, dropping, storing, k)
    ensures var d := IsOpen(Dropped, cfg, flags, clock, dropping, k);
            var s := IsOpen(Stored, cfg, flags, clock, storing, k);
            && d.value == s.value && d.next == s.next
            && Similar(cfg, clock, d.breaker, s.breaker, s.next)
  {
    var s := TakeHealth(Stored, cfg, clock, storing, k);
    assert clock(k) <= clock(s.next);
  }

  lemma TrialSimilar(cfg: Config, flags: Flags, clock: Readings, dropping: Breaker, storing: Breaker, k: nat)
    requires Assumptions(cfg, clock) && Similar(cfg, clock, dropping, storing, k) && !flags.forceOpen
    ensures var d := IsTrialCallAllowed(Dropped, cfg, flags, clock, dropping, k);
            var s := IsTrialCallAllowed(Stored, cfg, flags, clock, storing, k);
            && d.value == s.value && d.next == s.next
            && Similar(cfg, clock, d.breaker, s.breaker, s.next)
            && (s.value ==> s.breaker.open && Expired(cfg, clock, s.breaker, s.next))
  {
    SimilarLater(cfg, clock, dropping, storing, k, k + 1);
    IsOpenSimilar(cfg, flags, clock, dropping, storing, k + 1);
    var s := IsOpen(Stored, cfg, flags, clock, storing, k + 1);
    assert clock(k) <= clock(s.next) && clock(k) <= clock(k + 2) && clock(k) <= clock(k + 4);
  }

  lemma AdmissionSimilar(cfg: Config, flags: Flags, clock: Readings, dropping: Breaker, storing: Breaker, k: nat)
    requires Assumptions(cfg, clock) && Similar(cfg, clock, dropping, storing, k) && !flags.forceOpen
    ensures var d := IsRequestAllowed(Dropped, cfg, flags, clock, dropping, k);
            var s := IsRequestAllowed(Stored, cfg, flags, clock, storing, k);
            && d.value == s.value && d.next == s.next
            && Similar(cfg, clock, d.breaker, s.breaker, s.next)
            && (s.value.trial ==> s.breaker.open && Expired(cfg, clock, s.breaker, s.next))
  {
    TrialSimilar(cfg, flags, clock, dropping, storing, k);
    var d := IsTrialCallAllowed(Dropped, cfg, flags, clock, dropping, k);
    var s := IsTrialCallAllowed(Stored, cfg, flags, clock, storing, k);
    IsOpenSimilar(cfg, flags, clock, d.breaker, s.breaker, s.next);
  }

  lemma SettleSimilar(cfg: Config, clock: Readings, dropping: Breaker, storing: Breaker, k: nat, trial: bool,
                      f: Outcome)
    requires Assumptions(cfg, clock) && Similar(cfg, clock, dropping, storing, k)
    requires trial ==> Harmless(cfg, clock, storing, k)
    ensures var d := Settle(clock, dropping, k, trial, f);
            var s := Settle(clock, storing, k, trial, f);
            && d.value == s.value && d.next == s.next
            && Similar(cfg, clock, d.breaker, s.breaker, s.next)
  {
    assert clock(k) <= clock(k + 1) && clock(k) <= clock(k + 2);
  }

  lemma CountedSimilar(cfg: Config, clock: Readings, dropping: Breaker, storing: Breaker, k: nat)
    requires Assumptions(cfg, clock) && Similar(cfg, clock, dropping, storing, k)
    ensures var d := dropping.(requests := Incremented(dropping.requests, clock(k)));
            var s := storing.(requests := Incremented(storing.requests, clock(k)));
            Similar(cfg, clock, d, s, k + 1)
    ensures var d := dropping.(errors := Incremented(dropping.errors, clock(k)));
            var s := storing.(errors := Incremented(storing.errors, clock(k)));
            Similar(cfg, clock, d, s, k + 1)
  {
    SimilarLater(cfg, clock, dropping, storing, k, k + 1);
  }

  lemma DoSimilar(cfg: Config, flags: Flags, clock: Readings, dropping: Breaker, storing: Breaker, k: nat, f: Outcome)
    requires Assumptions(cfg, clock) && Similar(cfg, clock, dropping, storing, k)
    ensures var d := Do(Dropped, cfg, flags, clock, dropping, k, f);
            var s := Do(Stored, cfg, flags, clock, storing, k, f);
            && d.value == s.value && d.next == s.next
            && Similar(cfg, clock, d.breaker, s.breaker, s.next)
  {
    if flags.enabled && !flags.forceOpen {
      CountedSimilar(cfg, clock, dropping, storing, k);
      var d0 := dropping.(requests := Incremented(dropping.requests, clock(k)));
      var s0 := storing.(requests := Incremented(storing.requests, clock(k)));
      AdmissionSimilar(cfg, flags, clock, d0, s0, k + 1);
      var d := IsRequestAllowed(Dropped, cfg, flags, clock, d0, k + 1);
      var s := IsRequestAllowed(Stored, cfg, flags, clock, s0, k + 1);
      if s.value.allowed {
        SettleSimilar(cfg, clock, d.breaker, s.breaker, s.next, s.value.trial, f);
      } else {
        CountedSimilar(cfg, clock, d.breaker, s.breaker, s.next);
      }
    }
  }

  lemma AnswerSimilar(cfg: Config, clock: Readings, dropping: Breaker, storing: Breaker, k: nat, call: Call)
    requires Assumptions(cfg, clock) && Similar(cfg, clock, dropping, storing, k)
    ensures var d := Answer(Dropped, cfg, clock, dropping, k, call);
            var s := Answer(Stored, cfg, clock, storing, k, call);
            && d.value == s.value && d.next == s.next
            && Similar(cfg, clock, d.breaker, s.breaker, s.next)
  {
    match call
    case CallIsOpen(flags) => IsOpenSimilar(cfg, flags, clock, dropping, storing, k);
    case CallDo(flags, f) => DoSimilar(cfg, flags, clock, dropping, storing, k, f);
    case Wait(readings) => SimilarLater(cfg, clock, dropping, storing, k, k + readings);
  }

  lemma {:induction false} RunSimilar(cfg: Config, clock: Readings, calls: seq<Call>)
    requires Assumptions(cfg, clock)
    ensures var d := Run(Dropped, cfg, clock, calls);
            var s := Run(Stored, cfg, clock, calls);
            && d.value == s.value && d.next == s.next
            && Similar(cfg, clock, d.breaker, s.breaker, s.next)
  {
    if calls != [] {
      RunSimilar(cfg, clock, calls[..|calls| - 1]);
      var d := Run(Dropped, cfg, clock, calls[..|calls| - 1]);
      var s := Run(Stored, cfg, clock, calls[..|calls| - 1]);
      AnswerSimilar(cfg, clock, d.breaker, s.breaker, s.next, calls[|calls| - 1]);
    }
  }

  /** With a sleep window of at least the snapshot interval no run shows the difference. */
  lemma DroppingIsUnobservable(cfg: Config, clock: Readings, calls: seq<Call>)
    requires NonDecreasing(clock) && 0 <= cfg.errorThresholdPercentage
    requires 0 <= cfg.healthSnapshotInterval <= cfg.sleepWindow
    ensures SameReplies(cfg, clock, calls)
  {
    RunSimilar(cfg, clock, calls);
  }

  // Necessity: trip, close by a trial within the interval, and ask. To trip at any threshold the
  // counters are made to part: the errors, one nanosecond behind, outlast their requests.

  /** Failures in a bucket of their own after the counters are made, the first request a nanosecond
      before everything else, and ten buckets later some successes and the trip. */
  function TripReading(made: int, failures: nat, i: nat): int {
    if i == 0 then Failed(made) - 1 else if i < 3 * failures then Failed(made) else Tripped(made)
  }

  function Failed(made: int): int {
    made + DEFAULT_BUCKET_SIZE + 1
  }

  function Tripped(made: int): int {
    made + 11 * DEFAULT_BUCKET_SIZE
  }

  /** So many readings from the k-th on are those of a trip. */
  ghost predicate TripRead(clock: Readings, k: nat, made: int, failures: nat, length: nat) {
    forall i :: k <= i < k + length ==> clock(i) == TripReading(made, failures, i - k)
  }

  const FORCED_FAILURE := CallDo(FORCED, Returned(Some(DeadlineExceeded)))
  const FORCED_SUCCESS := CallDo(FORCED, Returned(None))

  function Forced(failures: nat, successes: nat): seq<Call>
    decreases failures + successes
  {
    if successes > 0 then Forced(failures, successes - 1) + [FORCED_SUCCESS]
    else if failures > 0 then Forced(failures - 1, 0) + [FORCED_FAILURE]
    else []
  }

  ghost predicate Nonnegative(cfg: Config) {
    0 <= cfg.errorThresholdPercentage && 0 <= cfg.sleepWindow && 0 <= cfg.healthSnapshotInterval
  }

  /** What the forced calls make of two counters that are zero at a time. */
  function ForcedRequests(made: int, failures: nat, successes: nat): Counter {
    if successes > 0 then Only(1, 1, successes, Tripped(made))
    else if failures > 0 then Only(1, 1, failures, Failed(made) - 1)
    else Only(0, 0, 0, made)
  }

  function ForcedErrors(made: int, failures: nat): Counter {
    if failures > 0 then Only(1, 1, failures, Failed(made)) else Only(0, 0, 0, made)
  }

  function WithCounters(b: Breaker, requests: Counter, errors: Counter): Breaker {
    b.(requests := requests, errors := errors)
  }

  function ForcedBreaker(b: Breaker, made: int, failures: nat, successes: nat): Breaker {
    WithCounters(b, ForcedRequests(made, failures, successes), ForcedErrors(made, failures))
  }

  lemma ForcedFailureCounts(storage: Storage, cfg: Config, clock: Readings, b: Breaker, k: nat)
    requires b.Valid()
    ensures Answer(storage, cfg, clock, b, k, FORCED_FAILURE)
         == Step(WithCounters(b, Incremented(b.requests, clock(k)), Incremented(b.errors, clock(k + 2))), k + 3,
                 Executed(false, Returned(Some(DeadlineExceeded))))
  {
    hide Incremented;
  }

  lemma ForcedSuccessCounts(storage: Storage, cfg: Config, clock: Readings, b: Breaker, k: nat)
    requires b.Valid()
    ensures Answer(storage, cfg, clock, b, k, FORCED_SUCCESS)
         == Step(WithCounters(b, Incremented(b.requests, clock(k)), b.errors), k + 2, Executed(false, Returned(None)))
  {
    hide Incremented;
  }

  lemma FailureCounted(made: int, n: nat)
    ensures ForcedRequests(made, n, 0).Valid() && ForcedErrors(made, n).Valid()
    ensures Incremented(ForcedRequests(made, n, 0), if n == 0 then Failed(made) - 1 else Failed(made))
            == ForcedRequests(made, n + 1, 0)
    ensures Incremented(ForcedErrors(made, n), Failed(made)) == ForcedErrors(made, n + 1)
  {
    hide Only, Incremented;
    if n == 0 {
      BehindIs(Failed(made) - 1, made, 1);
      BehindIs(Failed(made), made, 1);
      OnlyMovesAndCounts(0, 0, 0, made, Failed(made) - 1, 1);
      OnlyMovesAndCounts(0, 0, 0, made, Failed(made), 1);
    } else {
      OnlyStays(1, 1, n, Failed(made) - 1, Failed(made));
      OnlyStays(1, 1, n, Failed(made), Failed(made));
    }
  }

  lemma SuccessCounted(made: int, failures: nat, n: nat)
    requires 0 < failures
    ensures ForcedRequests(made, failures, n).Valid()
    ensures Incremented(ForcedRequests(made, failures, n), Tripped(made)) == ForcedRequests(made, failures, n + 1)
  {
    hide Only, Incremented;
    if n == 0 {
      BehindIs(Tripped(made), Failed(made) - 1, 10);
      OnlyMovesAndCounts(1, 1, failures, Failed(made) - 1, Tripped(made), 10);
    } else {
      OnlyStays(1, 1, n, Tripped(made), Tripped(made));
    }
  }

  /** The forced calls, made of a breaker whose counters are zero, count in them and do nothing else. */
  ghost predicate ForcedTaken(storage: Storage, cfg: Config, clock: Readings, b: Breaker, k: nat, made: int,
                              failures: nat, successes: nat)
  {
    b.Valid() &&
    var s := RunFrom(storage, cfg, clock, b, k, Forced(failures, successes));
    && s.breaker == ForcedBreaker(b, made, failures, successes)
    && s.next == k + 3 * failures + 2 * successes
  }

  lemma NextFailureTaken(storage: Storage, cfg: Config, clock: Readings, b: Breaker, k: nat, made: int, n: nat)
    requires TripRead(clock, k, made, n + 1, 3 * n + 3) && ForcedTaken(storage, cfg, clock, b, k, made, n, 0)
    ensures ForcedTaken(storage, cfg, clock, b, k, made, n + 1, 0)
  {
    hide RunFrom, Answer, ForcedRequests, ForcedErrors, Incremented, Failed;
    var j := k + 3 * n;
    RunFromExtends(storage, cfg, clock, b, k, Forced(n, 0), FORCED_FAILURE);
    FailureCounted(made, n);
    ForcedFailureCounts(storage, cfg, clock, ForcedBreaker(b, made, n, 0), j);
    assert clock(j) == (if n == 0 then Failed(made) - 1 else Failed(made)) && clock(j + 2) == Failed(made);
  }

  lemma NextSuccessTaken(storage: Storage, cfg: Config, clock: Readings, b: Breaker, k: nat, made: int, failures: nat,
                         n: nat)
    requires 0 < failures && TripRead(clock, k, made, failures, 3 * failures + 2 * n + 2)
    requires ForcedTaken(storage, cfg, clock, b, k, made, failures, n)
    ensures ForcedTaken(storage, cfg, clock, b, k, made, failures, n + 1)
  {
    hide RunFrom, Answer, ForcedRequests, ForcedErrors, Incremented, Failed, Tripped;
    var j := k + 3 * failures + 2 * n;
    RunFromExtends(storage, cfg, clock, b, k, Forced(failures, n), FORCED_SUCCESS);
    SuccessCounted(made, failures, n);
    FailureCounted(made, failures);
    ForcedSuccessCounts(storage, cfg, clock, ForcedBreaker(b, made, failures, n), j);
    assert clock(j) == Tripped(made);
  }

  lemma {:induction false} FailuresTaken(storage: Storage, cfg: Config, clock: Readings, b: Breaker, k: nat, made: int,
                                         n: nat)
    requires b.requests == b.errors == Only(0, 0, 0, made) && TripRead(clock, k, made, n, 3 * n)
    ensures ForcedTaken(storage, cfg, clock, b, k, made, n, 0)
  {
    if 0 < n {
      hide ForcedTaken;
      assert TripRead(clock, k, made, n - 1, 3 * n - 3);
      FailuresTaken(storage, cfg, clock, b, k, made, n - 1);
      NextFailureTaken(storage, cfg, clock, b, k, made, n - 1);
    } else {
      OnlySum(0, 0, 0, made);
    }
  }

  lemma {:induction false} AllForcedTaken(storage: Storage, cfg: Config, clock: Readings, b: Breaker, k: nat, made: int,
                                          failures: nat, successes: nat)
    requires b.requests == b.errors == Only(0, 0, 0, made) && 0 < failures
    requires TripRead(clock, k, made, failures, 3 * failures + 2 * successes)
    ensures ForcedTaken(storage, cfg, clock, b, k, made, failures, successes)
  {
    hide ForcedTaken;
    if 0 < successes {
      AllForcedTaken(storage, cfg, clock, b, k, made, failures, successes - 1);
      NextSuccessTaken(storage, cfg, clock, b, k, made, failures, successes - 1);
    } else {
      FailuresTaken(storage, cfg, clock, b, k, made, failures);
    }
  }

  /** Enough requests, and too many errors for them. */
  ghost predicate Enough(cfg: Config, failures: nat, successes: nat) {
    && 0 < failures && 0 < successes && cfg.requestVolumeThreshold <= successes
    && failures * 100 > cfg.errorThresholdPercentage * successes
  }

  /** The requests have moved ten buckets and lost the failures; the errors, nine, and have not. */
  lemma AskTrips(storage: Storage, cfg: Config, clock: Readings, b: Breaker, made: int, failures: nat, successes: nat,
                 k: nat)
    requires Enough(cfg, failures, successes)
    requires b == ForcedBreaker(b, made, failures, successes)
    requires !b.open && Tripped(made) > b.snapshotTime + cfg.healthSnapshotInterval
    requires forall i :: k <= i < k + 4 ==> clock(i) == Tripped(made)
    ensures b.Valid()
    ensures var s := IsOpen(storage, cfg, PLAIN, clock, b, k);
            && s.next == k + 4
            && s.breaker.open
            && s.breaker.lastTrialTime == s.breaker.snapshotTime == Tripped(made)
            && Sized(s.breaker.requests) && Sized(s.breaker.errors)
            && s.breaker.snapshot == if storage.Stored? then Health(successes, failures) else b.snapshot
  {
    hide Only, Rotate, Sum;
    BehindIs(Tripped(made), Failed(made), 9);
    OnlyStays(1, 1, successes, Tripped(made), Tripped(made));
    OnlyMoves(1, 1, failures, Failed(made), Tripped(made), 9);
    OnlySum(0, 1, failures, Tripped(made));
    assert clock(k) == clock(k + 1) == clock(k + 2) == clock(k + 3) == Tripped(made);
  }

  function TripCalls(failures: nat, successes: nat): seq<Call> {
    Forced(failures, successes) + [ASK]
  }

  /** A closed breaker with counters at zero, opened by forced calls and a question. */
  lemma CallsTrip(storage: Storage, cfg: Config, clock: Readings, b: Breaker, k: nat, made: int, failures: nat,
                  successes: nat)
    requires Enough(cfg, failures, successes) && b.requests == b.errors == Only(0, 0, 0, made)
    requires !b.open && Tripped(made) > b.snapshotTime + cfg.healthSnapshotInterval
    requires TripRead(clock, k, made, failures, 3 * failures + 2 * successes + 4)
    ensures b.Valid()
    ensures var s := RunFrom(storage, cfg, clock, b, k, TripCalls(failures, successes));
            && s.next == k + 3 * failures + 2 * successes + 4
            && s.breaker.open
            && s.breaker.lastTrialTime == s.breaker.snapshotTime == Tripped(made)
            && Sized(s.breaker.requests) && Sized(s.breaker.errors)
            && s.breaker.snapshot == if storage.Stored? then Health(successes, failures) else b.snapshot
  {
    hide Only, RunFrom, IsOpen, Forced, ForcedRequests, ForcedErrors, Tripped, Failed;
    AllForcedTaken(storage, cfg, clock, b, k, made, failures, successes);
    AskTrips(storage, cfg, clock, ForcedBreaker(b, made, failures, successes), made, failures, successes,
             k + 3 * failures + 2 * successes);
    RunFromExtends(storage, cfg, clock, b, k, Forced(failures, successes), ASK);
  }

  lemma TrialCloses(storage: Storage, cfg: Config, clock: Readings, b: Breaker, k: nat)
    requires b.Valid() && b.open && clock(k + 1) > b.lastTrialTime + cfg.sleepWindow
    ensures var s := Do(storage, cfg, PLAIN, clock, b, k, Returned(None));
            && !s.breaker.open && s.breaker.snapshotTime == b.snapshotTime && s.breaker.snapshot == b.snapshot
            && s.value == Executed(true, Returned(None)) && s.next == k + 4
  {
  }

  lemma StaleSnapshotTells(cfg: Config, clock: Readings, b: Breaker, k: nat, failures: nat, successes: nat)
    requires Nonnegative(cfg) && Enough(cfg, failures, successes)
    requires b.Valid() && !b.open && !Expired(cfg, clock, b, k)
    ensures b.snapshot == Health(0, 0) ==> !IsOpen(Dropped, cfg, PLAIN, clock, b, k).value
    ensures b.snapshot == Health(successes, failures) ==> IsOpen(Stored, cfg, PLAIN, clock, b, k).value
  {
  }

  /** The counters are made at the first two readings; after the trip comes the first moment of a trial. */
  function ShortSleepClock(cfg: Config, failures: nat, successes: nat): Readings {
    i => if i < 2 then cfg.healthSnapshotInterval
         else if i < 6 + 3 * failures + 2 * successes then TripReading(cfg.healthSnapshotInterval, failures, i - 2)
         else Tripped(cfg.healthSnapshotInterval) + cfg.sleepWindow + 1
  }

  function ShortSleepRun(failures: nat, successes: nat): seq<Call> {
    TripCalls(failures, successes) + [SUCCESS] + [ASK]
  }

  /** A new breaker is closed, with counters at zero. */
  lemma NewIsZero(clock: Readings, made: int)
    requires clock(0) == clock(1) == made
    ensures var b := NewBreaker(clock, 0);
            b.requests == b.errors == Only(0, 0, 0, made) && !b.open && b.snapshotTime == 0
            && b.snapshot == Health(0, 0)
  {
    NewIsOnly(0, made);
  }

  /** After the trip: succeed as a trial, ask again. */
  lemma LastAnswer(storage: Storage, cfg: Config, failures: nat, successes: nat)
    requires Nonnegative(cfg) && cfg.sleepWindow < cfg.healthSnapshotInterval && Enough(cfg, failures, successes)
    ensures var clock := ShortSleepClock(cfg, failures, successes);
            var before := Run(storage, cfg, clock, TripCalls(failures, successes) + [SUCCESS]);
            Answer(storage, cfg, clock, before.breaker, before.next, ASK).value == Answered(storage.Stored?)
  {
    hide RunFrom, Do, IsOpen, Only, TripReading, TripCalls, NewBreaker;
    var clock, made := ShortSleepClock(cfg, failures, successes), cfg.healthSnapshotInterval;
    NewIsZero(clock, made);
    CallsTrip(storage, cfg, clock, NewBreaker(clock, 0), 2, made, failures, successes);
    var tripped := Run(storage, cfg, clock, TripCalls(failures, successes));
    TrialCloses(storage, cfg, clock, tripped.breaker, tripped.next);
    RunExtends(storage, cfg, clock, TripCalls(failures, successes), SUCCESS);
    var tried := Run(storage, cfg, clock, TripCalls(failures, successes) + [SUCCESS]);
    StaleSnapshotTells(cfg, clock, tried.breaker, tried.next, failures, successes);
  }

  lemma TripReadingGrows(made: int, failures: nat, i: nat, j: nat)
    requires i <= j
    ensures made < TripReading(made, failures, i) <= TripReading(made, failures, j) <= Tripped(made)
  {
  }

  lemma ClockForward(cfg: Config, failures: nat, successes: nat)
    requires Nonnegative(cfg)
    ensures NonDecreasing(ShortSleepClock(cfg, failures, successes))
  {
    hide TripReading, Tripped;
    var clock, made, end := ShortSleepClock(cfg, failures, successes), cfg.healthSnapshotInterval,
        6 + 3 * failures + 2 * successes;
    forall i: nat, j: nat | i <= j ensures clock(i) <= clock(j) {
      if 2 <= j < end {
        TripReadingGrows(made, failures, if i < 2 then 0 else i - 2, j - 2);
      } else if 2 <= i < end {
        TripReadingGrows(made, failures, i - 2, i - 2);
      } else {
        TripReadingGrows(made, failures, 0, 0);
      }
    }
  }

  /** Numbers of failures and successes that trip the breaker, whatever the thresholds. */
  lemma SomeTrip(cfg: Config) returns (failures: nat, successes: nat)
    requires Nonnegative(cfg)
    ensures Enough(cfg, failures, successes)
  {
    successes := if cfg.requestVolumeThreshold > 0 then cfg.requestVolumeThreshold else 1;
    MulMonotone(0, cfg.errorThresholdPercentage, successes);
    failures := cfg.errorThresholdPercentage * successes + 1;
  }

  /** With a shorter sleep window some run shows the difference, whatever the thresholds. */
  lemma ShortSleepShowsDropping(cfg: Config)
    requires Nonnegative(cfg) && cfg.sleepWindow < cfg.healthSnapshotInterval
    ensures exists clock: Readings, calls :: NonDecreasing(clock) && !SameReplies(cfg, clock, calls)
  {
    hide Run, Answer, ShortSleepClock, TripCalls;
    var failures, successes := SomeTrip(cfg);
    var clock, calls := ShortSleepClock(cfg, failures, successes), ShortSleepRun(failures, successes);
    ClockForward(cfg, failures, successes);
    assert !SameReplies(cfg, clock, calls) by {
      LastAnswer(Dropped, cfg, failures, successes);
      LastAnswer(Stored, cfg, failures, successes);
      RunExtends(Dropped, cfg, clock, TripCalls(failures, successes) + [SUCCESS], ASK);
      RunExtends(Stored, cfg, clock, TripCalls(failures, successes) + [SUCCESS], ASK);
      LastDiffers(Run(Dropped, cfg, clock, TripCalls(failures, successes) + [SUCCESS]).value, Answered(false),
                  Run(Stored, cfg, clock, TripCalls(failures, successes) + [SUCCESS]).value, Answered(true));
    }
  }

  lemma LastDiffers<T>(a: seq<T>, x: T, b: seq<T>, y: T)
    requires x != y
    ensures a + [x] != b + [y]
  {
    assert (a + [x])[|a + [x]| - 1] == x && (b + [y])[|b + [y]| - 1] == y;
  }

  /** For every threshold, sleep window and snapshot interval that is not negative: if calls do
      not overlap, the two breakers are the same to every caller just when the sleep window is at
      least the snapshot interval. */
  lemma DroppingUnobservableIffSleepCoversInterval(cfg: Config)
    requires Nonnegative(cfg)
    ensures (forall clock: Readings, calls :: NonDecreasing(clock) ==> SameReplies(cfg, clock, calls))
        <==> cfg.healthSnapshotInterval <= cfg.sleepWindow
  {
    if cfg.healthSnapshotInterval <= cfg.sleepWindow {
      forall clock: Readings, calls | NonDecreasing(clock) ensures SameReplies(cfg, clock, calls) {
        DroppingIsUnobservable(cfg, clock, calls);
      }
    } else {
      ShortSleepShowsDropping(cfg);
    }
  }
}
