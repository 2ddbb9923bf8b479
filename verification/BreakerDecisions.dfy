/**
 How the breaker decides, in every run of `BreakerOverlap`: what a question is answered, and
 whether a call is admitted, for each setting of the force flags and each state.
 */
module BreakerDecisions {
  import opened Clocks
  import opened Outcomes
  import opened RollingNumber
  import opened Window = RollingWindow
  import opened BreakerModel
  import opened BreakerHistory
  import opened Overlap = BreakerOverlap

  /** A breaker is asked without reading the clock if it is forced or open. Forced closed answers
      false, otherwise forced open answers true; unforced, the answer is whether it is open then. */
  lemma QuestionIsAnswered(storage: Storage, cfg: Config, flags: Flags, clock: Readings, b: Breaker, k: nat)
    requires b.Valid()
    ensures var q := IsOpen(storage, cfg, flags, clock, b, k);
            && (flags.forceClosed ==> q == Step(b, k, false))
            && (!flags.forceClosed && flags.forceOpen ==> q == Step(b, k, true))
            && (!flags.forceClosed && !flags.forceOpen && b.open ==> q == Step(b, k, true))
            && (!flags.forceClosed && !flags.forceOpen ==> q.value == q.breaker.open)
  {
    hide Rotate, Total;
  }

  /** Enough requests, and too many errors for them. */
  predicate Bad(cfg: Config, requests: int, errors: int) {
    requests >= cfg.requestVolumeThreshold && errors * 100 > cfg.errorThresholdPercentage * requests
  }

  /** An unforced question to a closed breaker. More than an interval after the last snapshot it takes a new one,
      of the latest requests and errors, and opens the breaker just when these are bad; before, it changes nothing. */
  lemma ClosedQuestionDecides(cfg: Config, flags: Flags, clock: Readings, b: Breaker, k: nat, h: History)
    requires Sensible(cfg, clock) && Tracked(clock, b, k, h)
    requires !b.open && Unforced(flags)
    ensures b.Valid()
    ensures var q := IsOpen(Dropped, cfg, flags, clock, b, k);
            if clock(k) > b.snapshotTime + cfg.healthSnapshotInterval
            then exists m, e ::
                   && CountsLatest(DEFAULT_BUCKET_SIZE, DEFAULT_WINDOW_BUCKETS, m, h.requests, clock(k + 1))
                   && CountsLatest(DEFAULT_BUCKET_SIZE, DEFAULT_WINDOW_BUCKETS, e, h.errors, clock(k + 2))
                   && (q.breaker.open <==> Bad(cfg, m, e)) && q.breaker.snapshotTime == clock(k)
            else q == Step(b, k + 1, false)
  {
    hide Records, Rotate, CountsLatest, Total;
    assert clock(k) <= clock(k + 1) <= clock(k + 2);
    RotateTracked(clock, b.requests, k + 1, h.requests);
    RotateTracked(clock, b.errors, k + 2, h.errors);
    if clock(k) > b.snapshotTime + cfg.healthSnapshotInterval {
      var m, e := Total(b.requests, clock(k + 1)), Total(b.errors, clock(k + 2));
      assert IsOpen(Dropped, cfg, flags, clock, b, k).breaker.open <==> Bad(cfg, m, e);
    }
  }

  /** In every run, what the next question is answered. */
  lemma QuestionsAreAnswered(cfg: Config, clock: Readings, events: seq<Overlap.Event>, flags: Flags)
    requires Sensible(cfg, clock)
    ensures var s := Overlap.After(Dropped, cfg, clock, Start(clock), events);
            var t := Next(Dropped, cfg, clock, s, Ask(flags));
            && t.flights == s.flights && |t.responses| == |s.responses| + 1
            && var response := t.responses[|s.responses|];
            && (flags.forceClosed ==> response == Asked(false) && t.breaker == s.breaker && t.next == s.next)
            && (!flags.forceClosed && flags.forceOpen ==>
                  response == Asked(true) && t.breaker == s.breaker && t.next == s.next)
            && (Unforced(flags) ==> response == Asked(t.breaker.open))
            && (Unforced(flags) && s.breaker.open ==> t.breaker == s.breaker && t.next == s.next)
            && (Unforced(flags) && !s.breaker.open && t.breaker.open ==>
                  clock(s.next) > s.breaker.snapshotTime + cfg.healthSnapshotInterval)
  {
    hide Overlap.After, IsOpen, Tracked, MarksKept;
    RunKept(cfg, clock, events);
    var s := Overlap.After(Dropped, cfg, clock, Start(clock), events);
    QuestionIsAnswered(Dropped, cfg, flags, clock, s.breaker, s.next);
    if Unforced(flags) && !s.breaker.open {
      ClosedQuestionDecides(cfg, flags, clock, s.breaker, s.next, s.history);
    }
  }

  // Calls.

  /** The breaker once a request has been counted, and once a call has been refused. */
  function CountedRequest(clock: Readings, b: Breaker, k: nat): (r: Breaker)
    requires b.Valid()
    ensures r.Valid()
  {
    b.(requests := Incremented(b.requests, clock(k)))
  }

  /** A call with the breaker disabled runs, and one forced open does not; neither is counted, nor reads the
      clock. One forced closed runs, is never a trial, and takes no snapshot. */
  lemma ForcedCallIsDecided(storage: Storage, cfg: Config, flags: Flags, clock: Readings, b: Breaker, k: nat)
    requires b.Valid()
    ensures var a := Admit(storage, cfg, flags, clock, b, k);
            && (!flags.enabled ==> a == Step(b, k, Admission(true, false)))
            && (flags.enabled && flags.forceOpen ==> a == Step(b, k, Admission(false, false)))
            && (flags.enabled && !flags.forceOpen && flags.forceClosed ==>
                  a == Step(CountedRequest(clock, b, k), k + 2, Admission(true, false)))
  {
    hide Incremented;
  }

  /** An unforced call of an open breaker is admitted just when more than a sleep window has passed since the trial
      time, and then it is a trial; otherwise it is refused, and counted as an error. */
  lemma OpenCallIsDecided(storage: Storage, cfg: Config, flags: Flags, clock: Readings, b: Breaker, k: nat)
    requires b.Valid() && b.open && flags.enabled && Unforced(flags)
    ensures var a, counted := Admit(storage, cfg, flags, clock, b, k), CountedRequest(clock, b, k);
            if clock(k + 1) > b.lastTrialTime + cfg.sleepWindow
            then a == Step(counted.(lastTrialTime := clock(k + 1)), k + 2, Admission(true, true))
            else a == Step(counted.(errors := Incremented(b.errors, clock(k + 2))), k + 3, Admission(false, false))
  {
    hide Incremented;
  }

  /** An unforced call of a closed breaker is admitted just when the breaker stays closed, and is no trial. If it
      finds the last snapshot more than an interval old it takes a new one, which opens the breaker if it is bad. */
  lemma ClosedCallIsDecided(cfg: Config, flags: Flags, clock: Readings, b: Breaker, k: nat, h: History)
    requires Sensible(cfg, clock) && Tracked(clock, b, k, h)
    requires !b.open && flags.enabled && Unforced(flags)
    ensures b.Valid()
    ensures var a, h' := Admit(Dropped, cfg, flags, clock, b, k), Requested(clock, k, flags, h);
            && !a.value.trial && (a.value.allowed <==> !a.breaker.open)
            && (clock(k + 2) > b.snapshotTime + cfg.healthSnapshotInterval ==>
                  exists m, e ::
                    && CountsLatest(DEFAULT_BUCKET_SIZE, DEFAULT_WINDOW_BUCKETS, m, h'.requests, clock(k + 3))
                    && CountsLatest(DEFAULT_BUCKET_SIZE, DEFAULT_WINDOW_BUCKETS, e, h'.errors, clock(k + 4))
                    && (Bad(cfg, m, e) ==> a.breaker.open))
  {
    hide Records, CountsLatest, Tracked, IsOpen, Incremented, Justified, Bad;
    RequestTracked(clock, b, k, h);
    var counted, h' := CountedRequest(clock, b, k), Requested(clock, k, flags, h);
    TrackedLater(clock, counted, k + 1, k + 2, h');
    QuestionIsAnswered(Dropped, cfg, flags, clock, counted, k + 2);
    ClosedQuestionDecides(cfg, flags, clock, counted, k + 2, h');
    AdmitTracked(cfg, flags, clock, b, k, h);
    var first := IsOpen(Dropped, cfg, flags, clock, counted, k + 2);
    AdmissionAsksTwice(cfg, flags, clock, counted, k + 1);
  }

  /** The second question of a call is asked of what the first one leaves, unless that has become a trial. */
  lemma AdmissionAsksTwice(cfg: Config, flags: Flags, clock: Readings, b: Breaker, k: nat)
    requires b.Valid() && Unforced(flags)
    ensures var r := IsRequestAllowed(Dropped, cfg, flags, clock, b, k);
            var first := IsOpen(Dropped, cfg, flags, clock, b, k + 1);
            && (!r.value.trial ==>
                  r.value.allowed == !r.breaker.open
                  && (first.breaker.open ==> r.breaker.open))
  {
    hide IsOpen;
    var t := IsTrialCallAllowed(Dropped, cfg, flags, clock, b, k);
    QuestionIsAnswered(Dropped, cfg, flags, clock, b, k + 1);
    QuestionIsAnswered(Dropped, cfg, flags, clock, t.breaker, t.next);
  }

  // Ends.

  /** What the end of an admitted function does. A panic passes, and so does a success of a plain call; an error
      is counted, and told as an open circuit by a trial; a trial that succeeds closes the breaker, and sets the
      counters to zero, the errors first. A call made with the breaker disabled does nothing at all. */
  lemma EndIsDecided(flags: Flags, clock: Readings, b: Breaker, k: nat, trial: bool, f: Outcome)
    requires b.Valid()
    ensures var d := Finish(flags, clock, b, k, trial, f);
            && (!flags.enabled ==> d == Step(b, k, Executed(false, f)))
            && (flags.enabled && (f.Panicked? || (f == Returned(None) && !trial)) ==>
                  d == Step(b, k, Executed(trial, f)))
            && (flags.enabled && f.Returned? && f.err.Some? ==>
                  d == Step(b.(errors := Incremented(b.errors, clock(k))), k + 1,
                            Executed(trial, if trial then Returned(Some(CircuitOpenError)) else f)))
            && (flags.enabled && f == Returned(None) && trial ==>
                  var errors := NewCounter(b.errors.bucketSize, |b.errors.buckets|, clock(k));
                  var requests := NewCounter(b.requests.bucketSize, |b.requests.buckets|, clock(k + 1));
                  d == Step(b.(open := false, errors := errors, requests := requests), k + 2, Executed(true, f)))
  {
    hide Incremented;
  }

  /** A new breaker is closed, has never tried and never taken a snapshot; its error counter is made first. */
  lemma NewIsDecided(clock: Readings, k: nat)
    ensures var b := NewBreaker(clock, k);
            && !b.open && b.lastTrialTime == 0 && b.snapshotTime == 0 && b.snapshot == Health(0, 0)
            && b.errors == NewCounter(1_000_000_000, 10, clock(k))
            && b.requests == NewCounter(1_000_000_000, 10, clock(k + 1))
  {
  }
}
