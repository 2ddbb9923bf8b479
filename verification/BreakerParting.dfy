/**
 How the two counters of a breaker can part, so that a snapshot shows more errors
 than requests: with a snapshot interval, with calls forced closed, with panics
 below a threshold of 100 percent, and with a clock that moves during a call.
 */
module BreakerParting {
  import opened Clocks
  import opened Outcomes
  import opened Numbers
  import opened RollingNumber
  import opened RollingWindow
  import opened BreakerModel
  import opened BreakerRuns
  import opened BreakerExamples
  import opened BreakerLockstep

  ghost predicate Ordinary(cfg: Config) {
    0 <= cfg.errorThresholdPercentage && 0 <= cfg.healthSnapshotInterval
  }

  /** What a question after a run sees. */
  function LastHealth(cfg: Config, start: int, calls: seq<TimedCall>, now: int): Health {
    TakeHealth(Dropped, cfg, Still(now), TimedRun(cfg, start, calls), 0).value
  }

  lemma TimedRunExtends(cfg: Config, start: int, calls: seq<TimedCall>, last: TimedCall)
    ensures TimedRun(cfg, start, calls + [last])
         == Answer(Dropped, cfg, Still(last.now), TimedRun(cfg, start, calls), 0, last.call).breaker
  {
    assert (calls + [last])[..|calls|] == calls;
  }

  function Closed(requests: Counter, errors: Counter, snapshotTime: int): Breaker {
    Breaker(false, 0, snapshotTime, Health(0, 0), requests, errors)
  }

  ghost predicate Fresh(cfg: Config, snapshotTime: int, now: int) {
    now > snapshotTime + cfg.healthSnapshotInterval
  }

  /** A snapshot without errors does not trip the breaker. */
  lemma QuietSnapshot(cfg: Config, requests: Counter, errors: Counter, now: int)
    requires Ordinary(cfg) && requests.Valid() && errors.Valid() && Total(errors, now) == 0
    ensures !Trips(cfg, Health(Total(requests, now), Total(errors, now)))
  {
    TotalNeverGrows(requests, now, now);
    MulMonotone(0, cfg.errorThresholdPercentage, Total(requests, now));
  }

  /** A question, or the first question of a call, that does not trip the breaker. */
  lemma QuietAsk(cfg: Config, requests: Counter, errors: Counter, snapshotTime: int, now: int, k: nat)
    requires Ordinary(cfg) && requests.Valid() && errors.Valid()
    requires Fresh(cfg, snapshotTime, now) ==> Total(errors, now) == 0
    ensures var s := IsOpen(Dropped, cfg, PLAIN, Still(now), Closed(requests, errors, snapshotTime), k);
            && !s.value
            && s.breaker == if Fresh(cfg, snapshotTime, now)
                            then Closed(Rotate(requests, now), Rotate(errors, now), now)
                            else Closed(requests, errors, snapshotTime)
  {
    hide Rotate;
    if Fresh(cfg, snapshotTime, now) {
      QuietSnapshot(cfg, requests, errors, now);
    }
  }

  /** An unforced call of a closed breaker that stays closed. */
  lemma QuietDo(cfg: Config, requests: Counter, errors: Counter, snapshotTime: int, now: int, f: Outcome)
    requires Ordinary(cfg) && requests.Valid() && errors.Valid() && requests.anchor <= now
    requires Fresh(cfg, snapshotTime, now) ==> Total(errors, now) == 0
    ensures var s := Do(Dropped, cfg, PLAIN, Still(now), Closed(requests, errors, snapshotTime), 0, f);
            var errors' := if Fresh(cfg, snapshotTime, now) then Rotate(errors, now) else errors;
            s.breaker == Closed(Incremented(requests, now),
                                if f.Returned? && f.err.Some? then Incremented(errors', now) else errors',
                                if Fresh(cfg, snapshotTime, now) then now else snapshotTime)
  {
    hide Incremented, Rotate, Total, IsOpen;
    var counted := Incremented(requests, now);
    CountedStaysRotated(requests, now);
    QuietAsk(cfg, counted, errors, snapshotTime, now, 2);
    var asked := IsOpen(Dropped, cfg, PLAIN, Still(now), Closed(counted, errors, snapshotTime), 2);
    var errors' := if Fresh(cfg, snapshotTime, now) then Rotate(errors, now) else errors;
    var snapshotTime' := if Fresh(cfg, snapshotTime, now) then now else snapshotTime;
    assert asked.breaker == Closed(counted, errors', snapshotTime');
    QuietAsk(cfg, counted, errors', snapshotTime', now, asked.next);
  }

  // A success, and a failure one nanosecond later, ten buckets before the question.

  /** The requests move ten buckets and lose both; the errors, nine, and keep theirs. */
  lemma PartedHealth(cfg: Config, b: Breaker, count: nat, t: int)
    requires Ordinary(cfg)
    requires b.requests == Only(1, 1, count, t) && b.errors == Only(1, 1, 1, t + 1)
    requires Fresh(cfg, b.snapshotTime, t + 10 * DEFAULT_BUCKET_SIZE)
    ensures b.Valid()
    ensures TakeHealth(Dropped, cfg, Still(t + 10 * DEFAULT_BUCKET_SIZE), b, 0).value == Health(0, 1)
  {
    hide Only, Rotate, Sum;
    var now := t + 10 * DEFAULT_BUCKET_SIZE;
    BehindIs(now, t, 10);
    BehindIs(now, t + 1, 9);
    OnlyMoves(1, 1, count, t, now, 10);
    OnlyMoves(1, 1, 1, t + 1, now, 9);
    OnlySum(1, 1, 0, now);
    OnlySum(0, 1, 1, now);
  }

  /** The first request after a bucket size moves its counter, the success takes no fresh snapshot. */
  lemma SuccessCounts(cfg: Config, start: int, snapshotTime: int)
    requires Ordinary(cfg) && !Fresh(cfg, snapshotTime, start + DEFAULT_BUCKET_SIZE)
    ensures var none, now := Only(0, 0, 0, start), start + DEFAULT_BUCKET_SIZE;
            none.Valid()
            && Do(Dropped, cfg, PLAIN, Still(now), Closed(none, none, snapshotTime), 0, Returned(None)).breaker
               == Closed(Only(1, 1, 1, now), none, snapshotTime)
  {
    hide Only, Incremented, Rotate, Do;
    var now := start + DEFAULT_BUCKET_SIZE;
    BehindIs(now, start, 1);
    OnlyMovesAndCounts(0, 0, 0, start, now, 1);
    QuietDo(cfg, Only(0, 0, 0, start), Only(0, 0, 0, start), snapshotTime, now, Returned(None));
  }

  /** The failure moves the errors, to an anchor one nanosecond late. */
  lemma FailureParts(cfg: Config, start: int, snapshotTime: int)
    requires Ordinary(cfg)
    ensures var t := start + DEFAULT_BUCKET_SIZE;
            var requests, none := Only(1, 1, 1, t), Only(0, 0, 0, start);
            requests.Valid() && none.Valid() &&
            var b := Do(Dropped, cfg, PLAIN, Still(t + 1), Closed(requests, none, snapshotTime), 0,
                        Returned(Some(DeadlineExceeded))).breaker;
            && b.requests == Only(1, 1, 2, t) && b.errors == Only(1, 1, 1, t + 1)
            && b.snapshotTime == if Fresh(cfg, snapshotTime, t + 1) then t + 1 else snapshotTime
  {
    hide Only, Incremented, Rotate, Do;
    var t := start + DEFAULT_BUCKET_SIZE;
    BehindIs(t + 1, start, 1);
    OnlyStays(1, 1, 1, t, t + 1);
    OnlyMovesAndCounts(0, 0, 0, start, t + 1, 1);
    OnlyMoves(0, 0, 0, start, t + 1, 1);
    OnlySum(1, 0, 0, t + 1);
    NoneAnywhere(1, 0, 1, t + 1);
    OnlyStays(1, 1, 0, t + 1, t + 1);
    QuietDo(cfg, Only(1, 1, 1, t), Only(0, 0, 0, start), snapshotTime, t + 1, Returned(Some(DeadlineExceeded)));
  }

  function Pair(start: int): seq<TimedCall> {
    [TimedCall(start + DEFAULT_BUCKET_SIZE, SUCCESS)] + [TimedCall(start + DEFAULT_BUCKET_SIZE + 1, FAILURE)]
  }

  /** After any calls that count nothing. */
  lemma PairParts(cfg: Config, start: int, calls: seq<TimedCall>, snapshotTime: int)
    requires Ordinary(cfg)
             && TimedRun(cfg, start, calls) == Closed(Only(0, 0, 0, start), Only(0, 0, 0, start), snapshotTime)
    requires var t := start + DEFAULT_BUCKET_SIZE;
             && !Fresh(cfg, snapshotTime, t)
             && Fresh(cfg, if Fresh(cfg, snapshotTime, t + 1) then t + 1 else snapshotTime,
                      t + 10 * DEFAULT_BUCKET_SIZE)
    ensures LastHealth(cfg, start, calls + Pair(start), start + 11 * DEFAULT_BUCKET_SIZE) == Health(0, 1)
  {
    hide Only, TimedRun, Do, TakeHealth;
    var t := start + DEFAULT_BUCKET_SIZE;
    var first, second := TimedCall(t, SUCCESS), TimedCall(t + 1, FAILURE);
    SuccessCounts(cfg, start, snapshotTime);
    TimedRunExtends(cfg, start, calls, first);
    FailureParts(cfg, start, snapshotTime);
    TimedRunExtends(cfg, start, calls + [first], second);
    assert calls + Pair(start) == calls + [first] + [second];
    PartedHealth(cfg, TimedRun(cfg, start, calls + Pair(start)), 2, t);
  }

  /** A calm run that parts the counters: with a short interval a question just before the pair
      has used up the snapshot; with a long one the run starts when the first is not yet due. */
  function PartingStart(cfg: Config): int {
    if cfg.healthSnapshotInterval <= DEFAULT_BUCKET_SIZE then cfg.healthSnapshotInterval + 1
    else cfg.healthSnapshotInterval - DEFAULT_BUCKET_SIZE - 1
  }

  function PartingCalls(cfg: Config): seq<TimedCall> {
    (if cfg.healthSnapshotInterval <= DEFAULT_BUCKET_SIZE
     then [TimedCall(PartingStart(cfg) + DEFAULT_BUCKET_SIZE - 1, ASK)] else [])
    + Pair(PartingStart(cfg))
  }

  lemma NothingCounted(cfg: Config, start: int)
    ensures TimedRun(cfg, start, []) == Closed(Only(0, 0, 0, start), Only(0, 0, 0, start), 0)
  {
    NewIsOnly(0, start);
  }

  lemma QuestionTaken(cfg: Config, start: int)
    requires Ordinary(cfg) && start > cfg.healthSnapshotInterval
    ensures var now := start + DEFAULT_BUCKET_SIZE - 1;
            TimedRun(cfg, start, [TimedCall(now, ASK)]) == Closed(Only(0, 0, 0, start), Only(0, 0, 0, start), now)
  {
    hide Only, IsOpen, Rotate, TimedRun, Total;
    var now := start + DEFAULT_BUCKET_SIZE - 1;
    NothingCounted(cfg, start);
    TimedRunExtends(cfg, start, [], TimedCall(now, ASK));
    assert [] + [TimedCall(now, ASK)] == [TimedCall(now, ASK)];
    OnlyStays(0, 0, 0, start, now);
    QuietAsk(cfg, Only(0, 0, 0, start), Only(0, 0, 0, start), 0, now, 0);
  }

  lemma IntervalParts(cfg: Config)
    requires Ordinary(cfg) && 0 < cfg.healthSnapshotInterval
    ensures Calm(PartingStart(cfg), PartingCalls(cfg), PartingStart(cfg) + 11 * DEFAULT_BUCKET_SIZE)
    ensures LastHealth(cfg, PartingStart(cfg), PartingCalls(cfg), PartingStart(cfg) + 11 * DEFAULT_BUCKET_SIZE)
            == Health(0, 1)
  {
    hide TimedRun, TakeHealth;
    var start := PartingStart(cfg);
    if cfg.healthSnapshotInterval <= DEFAULT_BUCKET_SIZE {
      QuestionTaken(cfg, start);
      PairParts(cfg, start, [TimedCall(start + DEFAULT_BUCKET_SIZE - 1, ASK)], start + DEFAULT_BUCKET_SIZE - 1);
    } else {
      NothingCounted(cfg, start);
      PairParts(cfg, start, [], 0);
    }
  }

  /** On a clock that stands still during calls, without panics and forced-closed calls: every
      snapshot of every run stays within 100 percent just when there is no snapshot interval. */
  lemma CalmSnapshotsProperIffNoInterval(cfg: Config)
    requires Ordinary(cfg)
    ensures (forall start, calls, now :: Calm(start, calls, now) ==> Proper(LastHealth(cfg, start, calls, now)))
        <==> cfg.healthSnapshotInterval == 0
  {
    hide LastHealth;
    if cfg.healthSnapshotInterval == 0 {
      forall start, calls, now | Calm(start, calls, now) ensures Proper(LastHealth(cfg, start, calls, now)) {
        NoIntervalIsProper(cfg, start, calls, now);
      }
    } else {
      IntervalParts(cfg);
    }
  }

  lemma NoIntervalIsProper(cfg: Config, start: int, calls: seq<TimedCall>, now: int)
    requires Ordinary(cfg) && cfg.healthSnapshotInterval == 0 && Timely(start, calls, now) && AllUnforced(calls)
    requires AllUnpanicked(calls) || 100 <= cfg.errorThresholdPercentage
    ensures Proper(LastHealth(cfg, start, calls, now))
  {
    SnapshotsAtMostHundredPercent(cfg, start, calls, now);
  }

  // Panics. A trial that panics counts its request and leaves the errors where they are.

  function Opened(requests: Counter, errors: Counter, lastTrialTime: int): Breaker {
    Breaker(true, lastTrialTime, 2, Health(0, 0), requests, errors)
  }

  /** Failures at time 1, all but the first without a fresh snapshot. */
  function Failures(n: nat): seq<TimedCall> {
    if n == 0 then [] else Failures(n - 1) + [TimedCall(1, FAILURE)]
  }

  lemma {:induction false} FailuresAre(n: nat)
    ensures |Failures(n)| == n && forall i :: 0 <= i < n ==> Failures(n)[i] == TimedCall(1, FAILURE)
  {
    if n > 0 {
      FailuresAre(n - 1);
    }
  }

  lemma FailureCounts(cfg: Config, n: nat)
    requires Ordinary(cfg) && cfg.healthSnapshotInterval == 0
    ensures var c := Only(0, 0, n, 1);
            c.Valid()
            && Do(Dropped, cfg, PLAIN, Still(1), Closed(c, c, if n == 0 then 0 else 1), 0,
                  Returned(Some(DeadlineExceeded))).breaker
               == Closed(Only(0, 0, n + 1, 1), Only(0, 0, n + 1, 1), 1)
  {
    hide Only, Do, Rotate;
    OnlyStays(0, 0, n, 1, 1);
    QuietDo(cfg, Only(0, 0, n, 1), Only(0, 0, n, 1), if n == 0 then 0 else 1, 1, Returned(Some(DeadlineExceeded)));
  }

  lemma {:induction false} FailuresCounted(cfg: Config, n: nat)
    requires Ordinary(cfg) && cfg.healthSnapshotInterval == 0
    ensures TimedRun(cfg, 1, Failures(n)) == Closed(Only(0, 0, n, 1), Only(0, 0, n, 1), if n == 0 then 0 else 1)
  {
    hide Only, Do, TimedRun;
    if n == 0 {
      NothingCounted(cfg, 1);
    } else {
      FailuresCounted(cfg, n - 1);
      TimedRunExtends(cfg, 1, Failures(n - 1), TimedCall(1, FAILURE));
      FailureCounts(cfg, n - 1);
    }
  }

  lemma AskOpens(cfg: Config, n: nat)
    requires Ordinary(cfg) && cfg.healthSnapshotInterval == 0 && cfg.errorThresholdPercentage < 100
    requires 0 < n && cfg.requestVolumeThreshold <= n
    ensures var c := Only(0, 0, n, 1);
            c.Valid() && IsOpen(Dropped, cfg, PLAIN, Still(2), Closed(c, c, 1), 0).breaker == Opened(c, c, 2)
  {
    hide Only, Rotate;
    OnlyStays(0, 0, n, 1, 2);
    MulMonotone(cfg.errorThresholdPercentage, 99, n);
  }

  /** A trial of an open breaker after the sleep window. */
  lemma TrialPanics(cfg: Config, requests: Counter, errors: Counter, lastTrialTime: int, now: int)
    requires requests.Valid() && errors.Valid() && now > lastTrialTime + cfg.sleepWindow
    ensures Do(Dropped, cfg, PLAIN, Still(now), Opened(requests, errors, lastTrialTime), 0,
               Panicked(PanicOther)).breaker
         == Opened(Incremented(requests, now), errors, now)
  {
    hide Incremented;
  }

  /** A failure while the breaker is open, refused or a trial. */
  lemma OpenFails(cfg: Config, requests: Counter, errors: Counter, lastTrialTime: int, now: int)
    requires requests.Valid() && errors.Valid()
    ensures var b :=
              Do(Dropped, cfg, PLAIN, Still(now), Opened(requests, errors, lastTrialTime), 0,
                 Returned(Some(DeadlineExceeded))).breaker;
            b.requests == Incremented(requests, now) && b.errors == Incremented(errors, now) && b.snapshotTime == 2
  {
    hide Incremented;
  }

  const PANIC := CallDo(PLAIN, Panicked(PanicOther))

  /** A whole number of windows after time 1, and after the sleep window. */
  function TrialTime(cfg: Config): int {
    1 + 10 * (cfg.sleepWindow + 1) * DEFAULT_BUCKET_SIZE
  }

  function PanicCalls(cfg: Config, n: nat): seq<TimedCall> {
    Failures(n) + [TimedCall(2, ASK)] + [TimedCall(TrialTime(cfg), PANIC)] + [TimedCall(TrialTime(cfg) + 1, FAILURE)]
  }

  lemma TrialTimeIsLate(cfg: Config)
    requires 0 <= cfg.sleepWindow
    ensures TrialTime(cfg) > 2 + cfg.sleepWindow
    ensures (TrialTime(cfg) - 1) / DEFAULT_BUCKET_SIZE == TrialTime(cfg) / DEFAULT_BUCKET_SIZE
            == 10 * (cfg.sleepWindow + 1)
  {
    var behind := 10 * (cfg.sleepWindow + 1);
    MulMonotone(1, DEFAULT_BUCKET_SIZE, behind);
    DivModUnique(TrialTime(cfg) - 1, DEFAULT_BUCKET_SIZE, behind, 0);
    DivModUnique(TrialTime(cfg), DEFAULT_BUCKET_SIZE, behind, 1);
  }

  lemma RoundAndRound(current: nat, times: nat)
    requires current < DEFAULT_WINDOW_BUCKETS
    ensures (current + 10 * times) % DEFAULT_WINDOW_BUCKETS == current
  {
    DivModUnique(current + 10 * times, DEFAULT_WINDOW_BUCKETS, times, current);
  }

  lemma PanicCounts(cfg: Config, n: nat)
    requires 0 <= cfg.sleepWindow
    ensures var t, c := TrialTime(cfg), Only(0, 0, n, 1);
            && c.Valid() && Incremented(c, t) == Only(0, 0, 1, t) && Incremented(c, t + 1) == Only(0, 0, 1, t + 1)
            && Only(0, 0, 1, t).Valid() && Incremented(Only(0, 0, 1, t), t + 1) == Only(0, 0, 2, t)
  {
    hide Only, Incremented, TrialTime;
    var behind := 10 * (cfg.sleepWindow + 1);
    TrialTimeIsLate(cfg);
    RoundAndRound(0, cfg.sleepWindow + 1);
    OnlyMovesAndCounts(0, 0, n, 1, TrialTime(cfg), behind);
    OnlyMovesAndCounts(0, 0, n, 1, TrialTime(cfg) + 1, behind);
    OnlyStays(0, 0, 1, TrialTime(cfg), TrialTime(cfg) + 1);
  }

  lemma PanicRun(cfg: Config, n: nat)
    requires Ordinary(cfg) && 0 <= cfg.sleepWindow && cfg.healthSnapshotInterval == 0
             && cfg.errorThresholdPercentage < 100
    requires 0 < n && cfg.requestVolumeThreshold <= n
    ensures var t, b := TrialTime(cfg), TimedRun(cfg, 1, PanicCalls(cfg, n));
            b.requests == Only(0, 0, 2, t) && b.errors == Only(0, 0, 1, t + 1) && b.snapshotTime == 2
  {
    hide Only, Incremented, TimedRun, Do, IsOpen, Failures, TrialTime;
    var t, c := TrialTime(cfg), Only(0, 0, n, 1);
    var ask, panic, failure := TimedCall(2, ASK), TimedCall(t, PANIC), TimedCall(t + 1, FAILURE);
    FailuresCounted(cfg, n);
    TimedRunExtends(cfg, 1, Failures(n), ask);
    AskOpens(cfg, n);
    TrialTimeIsLate(cfg);
    PanicCounts(cfg, n);
    TimedRunExtends(cfg, 1, Failures(n) + [ask], panic);
    TrialPanics(cfg, c, c, 2, t);
    TimedRunExtends(cfg, 1, Failures(n) + [ask] + [panic], failure);
    OpenFails(cfg, Only(0, 0, 1, t), c, t, t + 1);
  }

  /** The question comes when the requests of the trial and after it are gone. */
  lemma PanicParts(cfg: Config, n: nat)
    requires Ordinary(cfg) && 0 <= cfg.sleepWindow && cfg.healthSnapshotInterval == 0
             && cfg.errorThresholdPercentage < 100
    requires 0 < n && cfg.requestVolumeThreshold <= n
    ensures LastHealth(cfg, 1, PanicCalls(cfg, n), TrialTime(cfg) + 10 * DEFAULT_BUCKET_SIZE) == Health(0, 1)
  {
    hide Only, Rotate, Sum, TimedRun, TrialTime, PanicCalls;
    var t, now := TrialTime(cfg), TrialTime(cfg) + 10 * DEFAULT_BUCKET_SIZE;
    PanicRun(cfg, n);
    TrialTimeIsLate(cfg);
    BehindIs(now, t, 10);
    BehindIs(now, t + 1, 9);
    OnlyMoves(0, 0, 2, t, now, 10);
    OnlyMoves(0, 0, 1, t + 1, now, 9);
    OnlySum(0, 0, 0, now);
    OnlySum(9, 0, 1, now);
  }

  lemma PanicCallsTimely(cfg: Config, n: nat)
    requires Ordinary(cfg) && 0 <= cfg.sleepWindow && cfg.healthSnapshotInterval == 0
    ensures Timely(1, PanicCalls(cfg, n), TrialTime(cfg) + 10 * DEFAULT_BUCKET_SIZE) && AllUnforced(PanicCalls(cfg, n))
  {
    hide TrialTime, Failures;
    TrialTimeIsLate(cfg);
    FailuresAre(n);
  }

  /** If functions may panic, snapshots stay within 100 percent just when in addition the
      breaker can never open. */
  lemma SnapshotsWithPanicsProperIff(cfg: Config)
    requires Ordinary(cfg) && 0 <= cfg.sleepWindow
    ensures (forall start, calls, now :: Timely(start, calls, now) && AllUnforced(calls) ==>
               Proper(LastHealth(cfg, start, calls, now)))
        <==> cfg.healthSnapshotInterval == 0 && 100 <= cfg.errorThresholdPercentage
  {
    hide LastHealth, PanicCalls, TrialTime;
    if cfg.healthSnapshotInterval != 0 {
      IntervalParts(cfg);
    } else if cfg.errorThresholdPercentage < 100 {
      var n: nat := if cfg.requestVolumeThreshold > 0 then cfg.requestVolumeThreshold else 1;
      PanicCallsTimely(cfg, n);
      PanicParts(cfg, n);
    } else {
      forall start, calls, now | Timely(start, calls, now) && AllUnforced(calls)
        ensures Proper(LastHealth(cfg, start, calls, now)) {
        NoIntervalIsProper(cfg, start, calls, now);
      }
    }
  }

  // Forced-closed calls take no snapshots at all.

  lemma ForcedCounts(cfg: Config, requests: Counter, errors: Counter, now: int, f: Outcome)
    requires requests.Valid() && errors.Valid() && f.Returned?
    ensures Do(Dropped, cfg, FORCED, Still(now), Closed(requests, errors, 0), 0, f).breaker
         == Closed(Incremented(requests, now), if f.err.Some? then Incremented(errors, now) else errors, 0)
  {
    hide Incremented;
  }

  function ForcedPair(start: int): seq<TimedCall> {
    [TimedCall(start + DEFAULT_BUCKET_SIZE, CallDo(FORCED, Returned(None)))]
    + [TimedCall(start + DEFAULT_BUCKET_SIZE + 1, CallDo(FORCED, Returned(Some(DeadlineExceeded))))]
  }

  lemma ForcedPairCounts(cfg: Config, start: int)
    ensures var t, b := start + DEFAULT_BUCKET_SIZE, TimedRun(cfg, start, ForcedPair(start));
            b == Closed(Only(1, 1, 2, t), Only(1, 1, 1, t + 1), 0)
  {
    hide Only, Incremented, TimedRun, Do;
    var t := start + DEFAULT_BUCKET_SIZE;
    var first := TimedCall(t, CallDo(FORCED, Returned(None)));
    var second := TimedCall(t + 1, CallDo(FORCED, Returned(Some(DeadlineExceeded))));
    NothingCounted(cfg, start);
    BehindIs(t, start, 1);
    BehindIs(t + 1, start, 1);
    OnlyMovesAndCounts(0, 0, 0, start, t, 1);
    OnlyMovesAndCounts(0, 0, 0, start, t + 1, 1);
    OnlyStays(1, 1, 1, t, t + 1);
    ForcedCounts(cfg, Only(0, 0, 0, start), Only(0, 0, 0, start), t, Returned(None));
    TimedRunExtends(cfg, start, [], first);
    assert [] + [first] == [first];
    ForcedCounts(cfg, Only(1, 1, 1, t), Only(0, 0, 0, start), t + 1, Returned(Some(DeadlineExceeded)));
    TimedRunExtends(cfg, start, [first], second);
  }

  /** Whatever the configuration, two forced-closed calls without a panic can part the counters. */
  lemma ForcedCallsPart(cfg: Config)
    requires Ordinary(cfg)
    ensures exists start, calls, now ::
              Timely(start, calls, now) && AllUnpanicked(calls) && !Proper(LastHealth(cfg, start, calls, now))
  {
    hide TimedRun, TakeHealth;
    var start := cfg.healthSnapshotInterval;
    var now := start + 11 * DEFAULT_BUCKET_SIZE;
    ForcedPairCounts(cfg, start);
    PartedHealth(cfg, TimedRun(cfg, start, ForcedPair(start)), 2, start + DEFAULT_BUCKET_SIZE);
    assert Timely(start, ForcedPair(start), now) && AllUnpanicked(ForcedPair(start));
    assert !Proper(LastHealth(cfg, start, ForcedPair(start), now));
  }

  // A clock that moves during a call.

  /** A failing call that starts at 1 and ends when its request has left the window. */
  function SlowCall(i: nat): int {
    if i < 8 then 1 else 1 + 10 * DEFAULT_BUCKET_SIZE
  }

  lemma SlowAdmission(cfg: Config)
    requires Ordinary(cfg) && cfg.healthSnapshotInterval == 0
    ensures var counted := Closed(Only(0, 0, 1, 1), Only(0, 0, 0, 1), 0);
            counted.Valid() && IsRequestAllowed(Dropped, cfg, PLAIN, SlowCall, counted, 3)
                            == Step(counted.(snapshotTime := 1), 8, Admission(true, false))
  {
    hide Only, Rotate, Total;
    OnlyStays(0, 0, 1, 1, 1);
    OnlyStays(0, 0, 0, 1, 1);
    var counted := Closed(Only(0, 0, 1, 1), Only(0, 0, 0, 1), 0);
    assert IsOpen(Dropped, cfg, PLAIN, SlowCall, counted, 4) == Step(counted.(snapshotTime := 1), 7, false);
    assert IsOpen(Dropped, cfg, PLAIN, SlowCall, counted.(snapshotTime := 1), 7)
           == Step(counted.(snapshotTime := 1), 8, false);
  }

  lemma SlowFailure(cfg: Config)
    requires Ordinary(cfg) && cfg.healthSnapshotInterval == 0
    ensures var s := Answer(Dropped, cfg, SlowCall, NewBreaker(SlowCall, 0), 2, FAILURE);
            s.breaker == Closed(Only(0, 0, 1, 1), Only(0, 0, 1, 1 + 10 * DEFAULT_BUCKET_SIZE), 1) && s.next == 9
  {
    hide Only, Incremented, IsRequestAllowed;
    NewIsOnly(0, 1);
    OnlyStays(0, 0, 0, 1, 1);
    OnlyMovesAndCounts(0, 0, 0, 1, 1 + 10 * DEFAULT_BUCKET_SIZE, 10);
    SlowAdmission(cfg);
  }

  /** At every threshold a slow failing call leaves one error and no request in the window, more
      than any percentage: a question after it opens the breaker if its volume threshold allows it. */
  lemma SlowFailureBreaksLockstep(cfg: Config)
    requires Ordinary(cfg) && cfg.healthSnapshotInterval == 0
    ensures var s := Run(Dropped, cfg, SlowCall, [FAILURE]);
            && TakeHealth(Dropped, cfg, SlowCall, s.breaker, s.next).value == Health(0, 1)
            && (IsOpen(Dropped, cfg, PLAIN, SlowCall, s.breaker, s.next).value <==> cfg.requestVolumeThreshold <= 0)
  {
    hide Only, Rotate, Sum, Run, Answer;
    var now := 1 + 10 * DEFAULT_BUCKET_SIZE;
    RunExtends(Dropped, cfg, SlowCall, [], FAILURE);
    assert [] + [FAILURE] == [FAILURE];
    NewRun(cfg);
    SlowFailure(cfg);
    BehindIs(now, 1, 10);
    OnlyMoves(0, 0, 1, 1, now, 10);
    OnlySum(0, 0, 0, now);
    OnlyStays(0, 0, 1, now, now);
  }

  lemma NewRun(cfg: Config)
    ensures Run(Dropped, cfg, SlowCall, []) == Step(NewBreaker(SlowCall, 0), 2, [])
  {
  }
}
