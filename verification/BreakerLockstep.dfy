/**
 The request and error counters re-anchor independently. With a fresh snapshot at
 every new time, no forced-closed calls and no panics, on a clock that stands still
 during each call, they nevertheless move in lockstep; in general they do not.
 */
module BreakerLockstep {
  import opened Clocks
  import opened Outcomes
  import opened Numbers
  import opened RollingNumber
  import opened BreakerModel
  import opened BreakerRuns

  datatype TimedCall = TimedCall(now: int, call: Call)

  function Still(now: int): Readings {
    _ => now
  }

  function TimedRun(cfg: Config, start: int, calls: seq<TimedCall>): (b: Breaker)
    ensures b.Valid()
  {
    if calls == [] then NewBreaker(Still(start), 0)
    else
      var last := calls[|calls| - 1];
      Answer(Dropped, cfg, Still(last.now), TimedRun(cfg, start, calls[..|calls| - 1]), 0, last.call).breaker
  }

  ghost predicate Unforced(call: Call) {
    !call.Wait? ==> !call.flags.forceClosed
  }

  ghost predicate Unpanicked(call: Call) {
    call.CallDo? ==> call.f.Returned?
  }

  /** The calls are in time order between start and end. */
  ghost predicate Timely(start: int, calls: seq<TimedCall>, end: int) {
    && 0 <= start <= end
    && (forall i :: 0 <= i < |calls| ==> start <= calls[i].now <= end)
    && (forall i, j :: 0 <= i <= j < |calls| ==> calls[i].now <= calls[j].now)
  }

  ghost predicate AllUnforced(calls: seq<TimedCall>) {
    forall i :: 0 <= i < |calls| ==> Unforced(calls[i].call)
  }

  ghost predicate AllUnpanicked(calls: seq<TimedCall>) {
    forall i :: 0 <= i < |calls| ==> Unpanicked(calls[i].call)
  }

  /** Neither forced closed nor a panic. */
  ghost predicate Calm(start: int, calls: seq<TimedCall>, end: int) {
    Timely(start, calls, end) && AllUnforced(calls) && AllUnpanicked(calls)
  }

  /** The counters agree on bucket and anchor, and no bucket has more errors than requests. */
  ghost predicate Paired(requests: Counter, errors: Counter) {
    && requests.Valid() && errors.Valid()
    && requests.bucketSize == errors.bucketSize && |requests.buckets| == |errors.buckets|
    && requests.current == errors.current && requests.anchor == errors.anchor
    && Below(errors.buckets, requests.buckets)
  }

  /** Between calls. The last snapshot time cannot rotate a counter any more. */
  ghost predicate Aligned(b: Breaker, now: int) {
    && Paired(b.requests, b.errors)
    && b.errors.anchor <= now && b.snapshotTime <= now
    && b.snapshotTime < b.errors.anchor + b.errors.bucketSize
  }

  /** During a call, once its request is counted: the errors may still have to be rotated. */
  ghost predicate Pending(b: Breaker, now: int) {
    && b.Valid()
    && Paired(b.requests, Rotate(b.errors, now))
    && Rotate(b.errors, now).buckets[b.requests.current] < b.requests.buckets[b.requests.current]
    && Rotate(b.requests, now) == b.requests
    && b.errors.anchor <= now && b.snapshotTime <= now
    && (b.snapshotTime == now ==> Settled(b, now))
  }

  ghost predicate Settled(b: Breaker, now: int) {
    b.errors.Valid() && Rotate(b.errors, now) == b.errors
  }

  ghost predicate Below(e: seq<int>, r: seq<int>) {
    |e| == |r| && forall i :: 0 <= i < |e| ==> e[i] <= r[i]
  }

  lemma {:induction false} ClearedPaired(requests: seq<int>, errors: seq<int>, current: int, behind: int)
    requires |requests| == |errors| > 0 && Below(errors, requests)
    ensures Below(Cleared(errors, current, behind, 0), Cleared(requests, current, behind, 0))
    decreases behind
  {
    hide Below;
    if behind > 0 {
      ClearedPaired(requests, errors, current, behind - 1);
      BothZeroed(Cleared(errors, current, behind - 1, 0), Cleared(requests, current, behind - 1, 0),
                 (current + behind) % |errors|);
    }
  }

  lemma BothZeroed(e: seq<int>, r: seq<int>, x: int)
    requires Below(e, r) && 0 <= x < |e|
    ensures Below(e[x := 0], r[x := 0])
  {
  }

  lemma RotatePaired(requests: Counter, errors: Counter, now: int)
    requires Paired(requests, errors)
    ensures Paired(Rotate(requests, now), Rotate(errors, now))
  {
    var behind := (now - errors.anchor) / errors.bucketSize;
    ClearedPaired(requests.buckets, errors.buckets, errors.current, behind);
    assert Rotate(requests, now).buckets == if behind > 0 then Cleared(requests.buckets, errors.current, behind, 0)
                                            else requests.buckets;
  }

  lemma RotateTwice(c: Counter, now: int)
    requires c.Valid() && c.anchor <= now
    ensures Rotate(Rotate(c, now), now) == Rotate(c, now)
  {
    AlreadyRotated(Rotate(c, now), now);
  }

  /** A request counted on rotated counters. */
  lemma OneMoreRequest(r: Counter, e: Counter)
    requires Paired(r, e)
    ensures var r' := r.(buckets := r.buckets[r.current := r.buckets[r.current] + 1]);
            Paired(r', e) && e.buckets[r.current] < r'.buckets[r.current]
  {
  }

  lemma CountedStaysRotated(c: Counter, now: int)
    requires c.Valid() && c.anchor <= now
    ensures Rotate(Incremented(c, now), now) == Incremented(c, now)
  {
    AlreadyRotated(Incremented(c, now), now);
  }

  lemma RequestPending(b: Breaker, before: int, now: int)
    requires Aligned(b, before) && before <= now
    ensures Pending(b.(requests := Incremented(b.requests, now)), now)
  {
    RotatePaired(b.requests, b.errors, now);
    OneMoreRequest(Rotate(b.requests, now), Rotate(b.errors, now));
    CountedStaysRotated(b.requests, now);
    if b.snapshotTime == now {
      AlreadyRotated(b.errors, now);
    }
    hide Paired, Rotate, Cleared;
  }

  lemma AlreadyRotated(c: Counter, now: int)
    requires c.Valid() && c.anchor <= now < c.anchor + c.bucketSize
    ensures Rotate(c, now) == c
  {
    DivModUnique(now - c.anchor, c.bucketSize, 0, now - c.anchor);
  }

  lemma SumsOrdered(requests: Counter, errors: Counter)
    requires Paired(requests, errors)
    ensures 0 <= Sum(errors.buckets) <= Sum(requests.buckets)
  {
    SumMonotone(errors.buckets, requests.buckets);
    SumZeros(|errors.buckets|);
    SumMonotone(seq(|errors.buckets|, _ => 0), errors.buckets);
  }

  /** A percentage of at most 100. */
  ghost predicate Proper(h: Health) {
    0 <= h.errors <= h.requests
  }

  ghost predicate NoInterval(cfg: Config) {
    cfg.healthSnapshotInterval == 0 && 0 <= cfg.errorThresholdPercentage
  }

  lemma HealthPending(cfg: Config, b: Breaker, now: int, k: nat)
    requires NoInterval(cfg) && Pending(b, now) && Proper(b.snapshot)
    ensures var s := TakeHealth(Dropped, cfg, Still(now), b, k);
            && Pending(s.breaker, now) && Settled(s.breaker, now)
            && s.breaker.snapshot == b.snapshot && Proper(s.value)
  {
    RotateTwice(b.errors, now);
    SumsOrdered(b.requests, Rotate(b.errors, now));
  }

  lemma IsOpenPending(cfg: Config, flags: Flags, b: Breaker, now: int, k: nat)
    requires NoInterval(cfg) && Pending(b, now) && Proper(b.snapshot) && !flags.forceClosed && !flags.forceOpen
    ensures b.Valid()
    ensures var s := IsOpen(Dropped, cfg, flags, Still(now), b, k);
            && Pending(s.breaker, now) && s.breaker.snapshot == b.snapshot
            && (!s.value ==> Settled(s.breaker, now))
            && (100 <= cfg.errorThresholdPercentage && !b.open ==> !s.breaker.open && !s.value)
  {
    HealthPending(cfg, b, now, k);
    var h := TakeHealth(Dropped, cfg, Still(now), b, k).value;
    if 100 <= cfg.errorThresholdPercentage {
      MulMonotone(100, cfg.errorThresholdPercentage, h.requests);
    }
  }

  lemma TrialPending(cfg: Config, flags: Flags, b: Breaker, now: int, k: nat)
    requires NoInterval(cfg) && Pending(b, now) && Proper(b.snapshot) && !flags.forceClosed && !flags.forceOpen
    ensures b.Valid()
    ensures var s := IsTrialCallAllowed(Dropped, cfg, flags, Still(now), b, k);
            && Pending(s.breaker, now) && s.breaker.snapshot == b.snapshot
            && (100 <= cfg.errorThresholdPercentage && !b.open ==> !s.breaker.open && !s.value)
  {
    hide Pending, IsOpen;
    IsOpenPending(cfg, flags, b, now, k + 1);
    var s := IsOpen(Dropped, cfg, flags, Still(now), b, k + 1);
    PendingAnyTrialTime(s.breaker, now, now);
  }

  lemma PendingAnyTrialTime(b: Breaker, now: int, time: int)
    requires Pending(b, now)
    ensures Pending(b.(lastTrialTime := time), now)
  {
  }

  lemma AdmissionPending(cfg: Config, flags: Flags, b: Breaker, now: int, k: nat)
    requires NoInterval(cfg) && Pending(b, now) && Proper(b.snapshot) && !flags.forceClosed && !flags.forceOpen
    ensures b.Valid()
    ensures var s := IsRequestAllowed(Dropped, cfg, flags, Still(now), b, k);
            && Pending(s.breaker, now) && s.breaker.snapshot == b.snapshot
            && (s.value.allowed && !s.value.trial ==> Settled(s.breaker, now))
            && (100 <= cfg.errorThresholdPercentage && !b.open ==> !s.breaker.open && s.value == Admission(true, false))
  {
    hide Pending, Settled, IsTrialCallAllowed, IsOpen;
    TrialPending(cfg, flags, b, now, k);
    var t := IsTrialCallAllowed(Dropped, cfg, flags, Still(now), b, k);
    IsOpenPending(cfg, flags, t.breaker, now, t.next);
  }

  lemma ErrorAligns(b: Breaker, now: int)
    requires Pending(b, now)
    ensures Aligned(b.(errors := Incremented(b.errors, now)), now)
  {
  }

  lemma SettleAligned(b: Breaker, now: int, k: nat, trial: bool, f: Outcome)
    requires Pending(b, now) && (!trial ==> Settled(b, now)) && (trial ==> f.Returned?)
    ensures Aligned(Settle(Still(now), b, k, trial, f).breaker, now)
  {
    ErrorAligns(b, now);
  }

  /** Panics do no harm to a breaker that stays closed. */
  ghost predicate Harmless(cfg: Config, b: Breaker, call: Call) {
    Unforced(call) && (Unpanicked(call) || (100 <= cfg.errorThresholdPercentage && !b.open))
  }

  lemma AnswerAligned(cfg: Config, b: Breaker, before: int, now: int, call: Call)
    requires NoInterval(cfg) && Aligned(b, before) && before <= now && Proper(b.snapshot)
    requires Harmless(cfg, b, call)
    ensures var s := Answer(Dropped, cfg, Still(now), b, 0, call);
            && Aligned(s.breaker, now) && s.breaker.snapshot == b.snapshot
            && (100 <= cfg.errorThresholdPercentage && !b.open ==> !s.breaker.open)
  {
    match call
    case CallIsOpen(flags) =>
      AskAligned(cfg, flags, b, before, now);
    case CallDo(flags, f) =>
      DoAligned(cfg, flags, b, before, now, f);
    case Wait(_) =>
  }

  lemma DoAligned(cfg: Config, flags: Flags, b: Breaker, before: int, now: int, f: Outcome)
    requires NoInterval(cfg) && Aligned(b, before) && before <= now && Proper(b.snapshot)
    requires Harmless(cfg, b, CallDo(flags, f))
    ensures var s := Do(Dropped, cfg, flags, Still(now), b, 0, f);
            && Aligned(s.breaker, now) && s.breaker.snapshot == b.snapshot
            && (100 <= cfg.errorThresholdPercentage && !b.open ==> !s.breaker.open)
  {
    hide Pending, Settled, IsRequestAllowed;
    if flags.enabled && !flags.forceOpen {
      RequestPending(b, before, now);
      var counted := b.(requests := Incremented(b.requests, now));
      AdmissionPending(cfg, flags, counted, now, 1);
      var a := IsRequestAllowed(Dropped, cfg, flags, Still(now), counted, 1);
      if a.value.allowed {
        SettleAligned(a.breaker, now, a.next, a.value.trial, f);
      } else {
        ErrorAligns(a.breaker, now);
      }
    }
  }

  lemma AskAligned(cfg: Config, flags: Flags, b: Breaker, before: int, now: int)
    requires NoInterval(cfg) && Aligned(b, before) && before <= now && Proper(b.snapshot) && !flags.forceClosed
    ensures var s := IsOpen(Dropped, cfg, flags, Still(now), b, 0);
            && Aligned(s.breaker, now) && s.breaker.snapshot == b.snapshot
            && (100 <= cfg.errorThresholdPercentage && !b.open ==> !s.breaker.open)
    ensures Proper(TakeHealth(Dropped, cfg, Still(now), b, 0).value)
  {
    RotatePaired(b.requests, b.errors, now);
    SumsOrdered(Rotate(b.requests, now), Rotate(b.errors, now));
    var h := TakeHealth(Dropped, cfg, Still(now), b, 0).value;
    if 100 <= cfg.errorThresholdPercentage {
      MulMonotone(100, cfg.errorThresholdPercentage, h.requests);
    }
  }

  /** The counters agree between calls, whatever the calls; so a threshold of 100
      percent or more is never exceeded, and then panics may occur too. */
  lemma {:induction false} CountersInLockstep(cfg: Config, start: int, calls: seq<TimedCall>, end: int)
    requires NoInterval(cfg) && Timely(start, calls, end) && AllUnforced(calls)
    requires AllUnpanicked(calls) || 100 <= cfg.errorThresholdPercentage
    ensures var b := TimedRun(cfg, start, calls);
            && Aligned(b, end) && b.snapshot == Health(0, 0)
            && (100 <= cfg.errorThresholdPercentage ==> !b.open)
  {
    hide Answer;
    if calls != [] {
      var before, last := calls[..|calls| - 1], calls[|calls| - 1];
      var time := if before == [] then start else before[|before| - 1].now;
      CountersInLockstep(cfg, start, before, time);
      AnswerAligned(cfg, TimedRun(cfg, start, before), time, last.now, last.call);
    }
  }

  /** Every snapshot of such a run shows at most as many errors as requests: the one a
      question takes, and the one a call takes after counting its request. */
  lemma SnapshotsAtMostHundredPercent(cfg: Config, start: int, calls: seq<TimedCall>, now: int)
    requires NoInterval(cfg) && Timely(start, calls, now) && AllUnforced(calls)
    requires AllUnpanicked(calls) || 100 <= cfg.errorThresholdPercentage
    ensures var b := TimedRun(cfg, start, calls);
            && Proper(TakeHealth(Dropped, cfg, Still(now), b, 0).value)
            && Proper(TakeHealth(Dropped, cfg, Still(now), b.(requests := Incremented(b.requests, now)), 2).value)
  {
    CountersInLockstep(cfg, start, calls, now);
    var b := TimedRun(cfg, start, calls);
    AskAligned(cfg, Flags(true, false, false), b, now, now);
    RequestPending(b, now, now);
    HealthPending(cfg, b.(requests := Incremented(b.requests, now)), now, 2);
  }
}
