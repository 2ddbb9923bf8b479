module CircuitBreaker {
  import opened Clocks
  import opened Outcomes
  import opened RollingNumber
  import opened Model = BreakerModel

  /** The breaker as an object, updated in place; its calls do not overlap. */
  class CircuitBreaker {
    const cfg: Config
    const clock: Clock
    const errorCounter: RollingNumber
    const requestCounter: RollingNumber
    const healthSnapshot: Health
    var circuitOpen: bool
    var lastTrialTime: int
    var snapshotTime: int

    ghost function Own(): set<object> {
      {this, errorCounter, errorCounter.buckets, requestCounter, requestCounter.buckets}
    }

    ghost function Repr(): set<object> {
      Own() + {clock}
    }

    ghost predicate Valid()
      reads Own()
    {
      && errorCounter.clock == clock && requestCounter.clock == clock
      && errorCounter != requestCounter && errorCounter.buckets != requestCounter.buckets
      && errorCounter.Valid() && requestCounter.Valid()
    }

    ghost function Value(): Breaker
      reads Own()
    {
      Breaker(circuitOpen, lastTrialTime, snapshotTime, healthSnapshot,
              requestCounter.Value(), errorCounter.Value())
    }

    constructor (cfg: Config, clock: Clock)
      modifies clock
      ensures Valid() && this.cfg == cfg && this.clock == clock && fresh(Own())
      ensures Value() == NewBreaker(clock.readings, old(clock.next)) && clock.next == old(clock.next) + 2
    {
      this.cfg := cfg;
      this.clock := clock;
      circuitOpen, lastTrialTime, snapshotTime := false, 0, 0;
      healthSnapshot := Health(0, 0);
      var errorCounter := new RollingNumber(DEFAULT_WINDOW_SIZE, DEFAULT_WINDOW_BUCKETS, clock);
      var requestCounter := new RollingNumber(DEFAULT_WINDOW_SIZE, DEFAULT_WINDOW_BUCKETS, clock);
      this.errorCounter, this.requestCounter := errorCounter, requestCounter;
    }

    method TakeHealth() returns (health: Health)
      requires Valid()
      modifies Repr()
      ensures Valid()
      ensures var s := Model.TakeHealth(Dropped, cfg, clock.readings, old(Value()), old(clock.next));
              Value() == s.breaker && clock.next == s.next && health == s.value
    {
      var lastSnapshotTime := snapshotTime;
      var timestamp := clock.Now();
      var dest := healthSnapshot;
      if timestamp > lastSnapshotTime + cfg.healthSnapshotInterval {
        snapshotTime := timestamp;
        var requests := requestCounter.Sum();
        var errors := errorCounter.Sum();
        dest := Health(requests, errors);
      }
      health := dest;
    }

    method IsOpen(flags: Flags) returns (open: bool)
      requires Valid()
      modifies Repr()
      ensures Valid()
      ensures var s := Model.IsOpen(Dropped, cfg, flags, clock.readings, old(Value()), old(clock.next));
              Value() == s.breaker && clock.next == s.next && open == s.value
    {
      if flags.forceClosed {
        return false;
      } else if flags.forceOpen {
        return true;
      }
      if circuitOpen {
        return true;
      }
      var health := TakeHealth();
      if health.requests < cfg.requestVolumeThreshold {
        return false;
      }
      if health.errors * 100 > cfg.errorThresholdPercentage * health.requests {
        circuitOpen := true;
        lastTrialTime := clock.Now();
        return true;
      }
      return false;
    }

    method IsTrialCallAllowed(flags: Flags) returns (trial: bool)
      requires Valid()
      modifies Repr()
      ensures Valid()
      ensures var s := Model.IsTrialCallAllowed(Dropped, cfg, flags, clock.readings, old(Value()), old(clock.next));
              Value() == s.breaker && clock.next == s.next && trial == s.value
    {
      var loaded := lastTrialTime;
      var timestamp := clock.Now();
      var open := IsOpen(flags);
      if open && timestamp > loaded + cfg.sleepWindow {
        if lastTrialTime == loaded {
          lastTrialTime := timestamp;
          return true;
        }
      }
      return false;
    }

    method IsRequestAllowed(flags: Flags) returns (allowed: bool, trial: bool)
      requires Valid()
      modifies Repr()
      ensures Valid()
      ensures var s := Model.IsRequestAllowed(Dropped, cfg, flags, clock.readings, old(Value()), old(clock.next));
              Value() == s.breaker && clock.next == s.next && Admission(allowed, trial) == s.value
    {
      trial := IsTrialCallAllowed(flags);
      var open := IsOpen(flags);
      if flags.forceClosed {
        return true, trial;
      }
      return !open || trial, trial;
    }

    /** The part of `Do` after the admitted function has ended. */
    method Settle(trial: bool, f: Outcome) returns (reply: Reply)
      requires Valid()
      modifies Repr()
      ensures Valid()
      ensures var s := Model.Settle(clock.readings, old(Value()), old(clock.next), trial, f);
              Value() == s.breaker && clock.next == s.next && reply == s.value
    {
      if f.Panicked? {
        return Executed(trial, f);
      }
      var err := f.err;
      if err.Some? {
        if trial {
          err := Some(CircuitOpenError);
        }
        errorCounter.Increment();
      } else if trial {
        errorCounter.Reset();
        requestCounter.Reset();
        circuitOpen := false;
      }
      return Executed(trial, Returned(err));
    }

    method Admit(flags: Flags) returns (allowed: bool, trial: bool)
      requires Valid()
      modifies Repr()
      ensures Valid()
      ensures var s := Model.Admit(Dropped, cfg, flags, clock.readings, old(Value()), old(clock.next));
              Value() == s.breaker && clock.next == s.next && Admission(allowed, trial) == s.value
    {
      hide Model.IsRequestAllowed, Incremented;
      if !flags.enabled {
        return true, false;
      } else if flags.forceOpen {
        return false, false;
      }
      requestCounter.Increment();
      allowed, trial := IsRequestAllowed(flags);
      if !allowed {
        errorCounter.Increment();
        trial := false;
      }
    }

    method Finish(flags: Flags, trial: bool, f: Outcome) returns (reply: Reply)
      requires Valid()
      modifies Repr()
      ensures Valid()
      ensures var s := Model.Finish(flags, clock.readings, old(Value()), old(clock.next), trial, f);
              Value() == s.breaker && clock.next == s.next && reply == s.value
    {
      if flags.enabled {
        reply := Settle(trial, f);
      } else {
        reply := Executed(false, f);
      }
    }

    /** `Do` with a function whose end is known. A function that ends as things stand when
        it is called is run by its caller, between `Admit` and `Finish`. */
    method Do(flags: Flags, f: Outcome) returns (reply: Reply)
      requires Valid()
      modifies Repr()
      ensures Valid()
      ensures var s := Model.Do(Dropped, cfg, flags, clock.readings, old(Value()), old(clock.next), f);
              Value() == s.breaker && clock.next == s.next && reply == s.value
    {
      DoAdmitsThenFinishes(Dropped, cfg, flags, clock.readings, Value(), clock.next, f);
      var allowed, trial := Admit(flags);
      if allowed {
        reply := Finish(flags, trial, f);
      } else {
        reply := Refused;
      }
    }
  }
}
