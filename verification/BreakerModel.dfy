/**
 The circuit breaker: closed, open, and half-open while a trial call runs.

 The code takes a health snapshot at most once per interval, but writes it only
 into a local variable, so that the field keeps its initial zeros. `Dropped` is
 that behaviour; `Stored` is the breaker that keeps its snapshot.
 */
module BreakerModel {
  import opened Clocks
  import opened Outcomes
  import opened RollingNumber

  datatype Storage = Dropped | Stored

  /** Properties that do not change while the breaker is in use. */
  datatype Config = Config(
    requestVolumeThreshold: int,
    sleepWindow: int,
    errorThresholdPercentage: int,
    healthSnapshotInterval: int)

  /** Properties that are constant during a call. */
  datatype Flags = Flags(enabled: bool, forceOpen: bool, forceClosed: bool)

  /** Numbers of requests and errors; the error percentage is 100 * errors / requests. */
  datatype Health = Health(requests: int, errors: int)

  datatype Breaker = Breaker(
    open: bool,
    lastTrialTime: int,
    snapshotTime: int,
    snapshot: Health,
    requests: Counter,
    errors: Counter)
  {
    ghost predicate Valid() {
      requests.Valid() && errors.Valid()
    }
  }

  /** A new state, the number of clock readings made so far, and an answer. */
  datatype Step<T> = Step(breaker: Breaker, next: nat, value: T)

  datatype Admission = Admission(allowed: bool, trial: bool)

  /** What a caller sees of a call. A refused function is not run; the answer is `CircuitOpenError`. */
  datatype Reply = Executed(trial: bool, outcome: Outcome) | Refused | Answered(open: bool) | Waited

  function NewBreaker(clock: Readings, k: nat): (b: Breaker)
    ensures b.Valid()
  {
    var bucketSize := CalculateBucketSize(DEFAULT_WINDOW_SIZE, DEFAULT_WINDOW_BUCKETS);
    Breaker(false, 0, 0, Health(0, 0),
            NewCounter(bucketSize, DEFAULT_WINDOW_BUCKETS, clock(k + 1)),
            NewCounter(bucketSize, DEFAULT_WINDOW_BUCKETS, clock(k)))
  }

  /** Whether the error percentage exceeds the threshold, on enough requests. For a fresh snapshot
      this is the code's comparison of quotients, which with no requests is one with NaN or
      infinity; the initial snapshot never exceeds a nonnegative threshold, as in the code. */
  predicate Trips(cfg: Config, h: Health) {
    && h.requests >= cfg.requestVolumeThreshold
    && h.errors * 100 > cfg.errorThresholdPercentage * h.requests
  }

  function TakeHealth(storage: Storage, cfg: Config, clock: Readings, b: Breaker, k: nat): (s: Step<Health>)
    requires b.Valid()
    ensures s.breaker.Valid() && s.next > k
  {
    var timestamp := clock(k);
    if timestamp > b.snapshotTime + cfg.healthSnapshotInterval then
      var h := Health(Total(b.requests, clock(k + 1)), Total(b.errors, clock(k + 2)));
      Step(b.(snapshotTime := timestamp,
              requests := Rotate(b.requests, clock(k + 1)),
              errors := Rotate(b.errors, clock(k + 2)),
              snapshot := if storage.Stored? then h else b.snapshot), k + 3, h)
    else
      Step(b, k + 1, b.snapshot)
  }

  function IsOpen(storage: Storage, cfg: Config, flags: Flags, clock: Readings, b: Breaker, k: nat): (s: Step<bool>)
    requires b.Valid()
    ensures s.breaker.Valid() && s.next >= k
  {
    if flags.forceClosed then Step(b, k, false)
    else if flags.forceOpen then Step(b, k, true)
    else if b.open then Step(b, k, true)
    else
      var s := TakeHealth(storage, cfg, clock, b, k);
      if Trips(cfg, s.value) then
        Step(s.breaker.(open := true, lastTrialTime := clock(s.next)), s.next + 1, true)
      else Step(s.breaker, s.next, false)
  }

  function IsTrialCallAllowed(storage: Storage, cfg: Config, flags: Flags, clock: Readings, b: Breaker, k: nat)
    : (s: Step<bool>)
    requires b.Valid()
    ensures s.breaker.Valid() && s.next > k
  {
    var timestamp := clock(k);
    var s := IsOpen(storage, cfg, flags, clock, b, k + 1);
    // The last conjunct is the compare-and-swap on the time loaded first.
    if s.value && timestamp > b.lastTrialTime + cfg.sleepWindow && s.breaker.lastTrialTime == b.lastTrialTime then
      Step(s.breaker.(lastTrialTime := timestamp), s.next, true)
    else Step(s.breaker, s.next, false)
  }

  function IsRequestAllowed(storage: Storage, cfg: Config, flags: Flags, clock: Readings, b: Breaker, k: nat)
    : (s: Step<Admission>)
    requires b.Valid()
    ensures s.breaker.Valid() && s.next > k
  {
    var trial := IsTrialCallAllowed(storage, cfg, flags, clock, b, k);
    var s := IsOpen(storage, cfg, flags, clock, trial.breaker, trial.next);
    Step(s.breaker, s.next, Admission(flags.forceClosed || !s.value || trial.value, trial.value))
  }

  /** What follows the run of an admitted function. */
  function Settle(clock: Readings, b: Breaker, k: nat, trial: bool, f: Outcome): (s: Step<Reply>)
    requires b.Valid()
    ensures s.breaker.Valid() && s.next >= k && s.value.Executed?
  {
    match f
    case Panicked(_) => Step(b, k, Executed(trial, f))
    case Returned(Some(e)) =>
      Step(b.(errors := Incremented(b.errors, clock(k))), k + 1,
           Executed(trial, Returned(Some(if trial then CircuitOpenError else e))))
    case Returned(None) =>
      if trial then
        Step(b.(open := false,
                errors := Zeroed(b.errors, clock(k)),
                requests := Zeroed(b.requests, clock(k + 1))), k + 2, Executed(true, f))
      else Step(b, k, Executed(false, f))
  }

  /** `Do`, given how the function will end if it is run. */
  function Do(storage: Storage, cfg: Config, flags: Flags, clock: Readings, b: Breaker, k: nat, f: Outcome)
    : (s: Step<Reply>)
    requires b.Valid()
    ensures s.breaker.Valid() && s.next >= k
  {
    if !flags.enabled then Step(b, k, Executed(false, f))
    else if flags.forceOpen then Step(b, k, Refused)
    else
      var s := IsRequestAllowed(storage, cfg, flags, clock,
                                b.(requests := Incremented(b.requests, clock(k))), k + 1);
      if s.value.allowed then
        Settle(clock, s.breaker, s.next, s.value.trial, f)
      else
        Step(s.breaker.(errors := Incremented(s.breaker.errors, clock(s.next))), s.next + 1, Refused)
  }

  /** `Do` up to the call of the function. */
  function Admit(storage: Storage, cfg: Config, flags: Flags, clock: Readings, b: Breaker, k: nat): (s: Step<Admission>)
    requires b.Valid()
    ensures s.breaker.Valid() && s.next >= k && (flags.enabled && !flags.forceOpen ==> s.next > k)
  {
    if !flags.enabled then Step(b, k, Admission(true, false))
    else if flags.forceOpen then Step(b, k, Admission(false, false))
    else
      var s := IsRequestAllowed(storage, cfg, flags, clock,
                                b.(requests := Incremented(b.requests, clock(k))), k + 1);
      if s.value.allowed then s
      else Step(s.breaker.(errors := Incremented(s.breaker.errors, clock(s.next))), s.next + 1, Admission(false, false))
  }

  /** `Do` from the end of the function on. */
  function Finish(flags: Flags, clock: Readings, b: Breaker, k: nat, trial: bool, f: Outcome): (s: Step<Reply>)
    requires b.Valid()
    ensures s.breaker.Valid() && s.next >= k && s.value.Executed?
  {
    if flags.enabled then Settle(clock, b, k, trial, f) else Step(b, k, Executed(false, f))
  }

  lemma DoAdmitsThenFinishes(storage: Storage, cfg: Config, flags: Flags, clock: Readings, b: Breaker, k: nat,
                             f: Outcome)
    requires b.Valid()
    ensures var a := Admit(storage, cfg, flags, clock, b, k);
            var rest := if a.value.allowed then Finish(flags, clock, a.breaker, a.next, a.value.trial, f)
                        else Step(a.breaker, a.next, Refused);
            Do(storage, cfg, flags, clock, b, k, f) == rest
  {
  }
}
