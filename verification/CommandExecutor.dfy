/** The executor as an object; its executions do not overlap. */
module CommandExecutor {
  import opened Clocks
  import opened Outcomes
  import opened BreakerModel
  import CircuitBreaker
  import opened CircuitBreakers
  import opened Semaphore
  import opened RequestLog
  import opened RequestCache
  import opened Model = ExecutorModel
  import Metrics = MetricsModel
  import PercentileModel
  import RollingNumber

  class CommandExecutor {
    const clock: Clock
    const circuitBreakers: CbMap
    const semaphores: SemaphoreFactory
    const percentileBucketSize: nat
    var metrics: map<string, MetricsValue>

    ghost predicate SemaphoresValid()
      reads semaphores, semaphores.Objects()
    {
      semaphores.Valid() && forall key :: key in semaphores.semaphores ==> semaphores.semaphores[key].sem.Valid()
    }

    ghost predicate Valid()
      reads this, circuitBreakers, circuitBreakers.Objects(), semaphores, semaphores.Objects()
    {
      && circuitBreakers.clock == clock && circuitBreakers.Valid()
      && SemaphoresValid()
      && 0 < percentileBucketSize
      && forall name :: name in metrics ==> Metrics.Valid(metrics[name].counters) && metrics[name].executionTime.Valid()
    }

    /** The state of the executor outside any request. */
    ghost function Value(): (s: State)
      requires Valid()
      reads this, circuitBreakers, circuitBreakers.Objects(), semaphores, semaphores.Objects(), clock
      ensures s.Valid() && s.storage == Dropped
    {
      State(Dropped, circuitBreakers.Value(), semaphores.Value(), metrics, percentileBucketSize, None, None, clock.next)
    }

    /** The state with the cache and the log of a request. */
    ghost function RequestValue(cache: RequestCache?, log: RequestLog?): (s: State)
      requires Valid()
      reads this, circuitBreakers, circuitBreakers.Objects(), semaphores, semaphores.Objects(), clock, cache, log
      ensures s.Valid() && s.storage == Dropped
    {
      InContext(Value(), CacheOf(cache), LogOf(log))
    }

    constructor (clock: Clock, percentileBucketSize: nat)
      requires 0 < percentileBucketSize
      ensures Valid() && this.clock == clock && this.percentileBucketSize == percentileBucketSize
      ensures circuitBreakers.Value() == map[] && semaphores.Value() == map[] && metrics == map[]
    {
      this.clock := clock;
      this.percentileBucketSize := percentileBucketSize;
      circuitBreakers := new CbMap(clock);
      semaphores := new SemaphoreFactory();
      metrics := map[];
    }

    twostate predicate SemaphoresUnchanged()
      reads semaphores, semaphores.Objects()
    {
      unchanged(semaphores) && forall key :: key in semaphores.semaphores ==> unchanged(semaphores.semaphores[key].sem)
    }

    twostate lemma SemaphoresKept()
      requires old(SemaphoresValid()) && SemaphoresUnchanged()
      ensures SemaphoresValid() && semaphores.Value() == old(semaphores.Value())
    {
    }

    /** The breakers have changed, and nothing else but the clock. */
    twostate lemma OnlyBreakersChanged()
      requires old(Valid()) && unchanged(this) && SemaphoresUnchanged() && circuitBreakers.Valid()
      ensures Valid()
      ensures Value() == old(Value()).(guards := circuitBreakers.Value(), next := clock.next)
    {
      hide circuitBreakers.Valid, circuitBreakers.Value, SemaphoresValid, semaphores.Value, SemaphoresUnchanged;
      SemaphoresKept();
    }

    /** A breaker is no part of the semaphores. */
    lemma BreakerApart(name: string)
      requires name in circuitBreakers.values
      ensures this !in circuitBreakers.values[name].Own() && circuitBreakers !in circuitBreakers.values[name].Own()
              && semaphores !in circuitBreakers.values[name].Own()
      ensures forall key :: key in semaphores.semaphores ==>
                semaphores.semaphores[key].sem !in circuitBreakers.values[name].Own()
    {
    }

    method AddBreaker(cmd: Command)
      requires Valid() && cmd.name !in circuitBreakers.values
      modifies circuitBreakers, clock
      ensures Valid() && metrics == old(metrics)
      ensures cmd.name in circuitBreakers.values && fresh(circuitBreakers.values[cmd.name].Own())
      ensures Value() == WithBreaker(clock.readings, old(Value()), cmd)
    {
      hide circuitBreakers.Valid, circuitBreakers.Value, SemaphoresValid, semaphores.Value, NewBreaker,
           CircuitBreaker.CircuitBreaker.Own;
      circuitBreakers.Add(cmd.name, cmd.settings.breaker);
      assert SemaphoresUnchanged();
      OnlyBreakersChanged();
    }

    method GetCircuitBreakerForCommand(cmd: Command)
      requires Valid()
      modifies circuitBreakers, clock
      ensures Valid() && metrics == old(metrics) && cmd.name in circuitBreakers.values
      ensures cmd.name in old(circuitBreakers.values) ==>
                circuitBreakers.values[cmd.name] == old(circuitBreakers.values[cmd.name])
      ensures cmd.name !in old(circuitBreakers.values) ==> fresh(circuitBreakers.values[cmd.name].Own())
      ensures Value() == WithBreaker(clock.readings, old(Value()), cmd)
    {
      hide circuitBreakers.Valid, SemaphoresValid, NewBreaker, CircuitBreaker.CircuitBreaker.Own;
      if cmd.name !in circuitBreakers.values {
        AddBreaker(cmd);
      }
    }


    method AdmitCommand(cmd: Command) returns (allowed: bool, trial: bool)
      requires Valid() && cmd.name in circuitBreakers.values
      modifies circuitBreakers.values[cmd.name].Own(), clock
      ensures Valid() && metrics == old(metrics) && circuitBreakers.values == old(circuitBreakers.values)
      ensures var s := old(Value());
              var g := s.guards[cmd.name];
              var a := Admit(Dropped, g.cfg, cmd.settings.flags, clock.readings, g.breaker, s.next);
              Value() == WithStep(s, cmd.name, a) && a.value == Admission(allowed, trial)
    {
      hide circuitBreakers.Valid, circuitBreakers.Value, SemaphoresValid, semaphores.Value, Admit;
      hide semaphores.Objects, CircuitBreaker.CircuitBreaker.Own;
      BreakerApart(cmd.name);
      allowed, trial := circuitBreakers.Admit(cmd.name, cmd.settings.flags);
      assert SemaphoresUnchanged();
      OnlyBreakersChanged();
    }

    method FinishCommand(cmd: Command, trial: bool, f: Outcome) returns (reply: Reply)
      requires Valid() && cmd.name in circuitBreakers.values
      modifies circuitBreakers.values[cmd.name].Own(), clock
      ensures Valid() && metrics == old(metrics)
      ensures var s := old(Value());
              var d := Finish(cmd.settings.flags, clock.readings, s.guards[cmd.name].breaker, s.next, trial, f);
              Value() == WithStep(s, cmd.name, d) && d.value == reply
    {
      hide circuitBreakers.Valid, circuitBreakers.Value, SemaphoresValid, semaphores.Value, Finish;
      hide semaphores.Objects, CircuitBreaker.CircuitBreaker.Own;
      BreakerApart(cmd.name);
      reply := circuitBreakers.Finish(cmd.name, cmd.settings.flags, trial, f);
      assert SemaphoresUnchanged();
      OnlyBreakersChanged();
    }

    /** The run of a command that asks this semaphore for a permit, and gives it back even if the command panics. */
    method RunHolding(sem: Semaphore, run: Ending) returns (f: Outcome, ran: bool)
      requires sem.Valid()
      modifies sem
      ensures sem.held == old(sem.held)
      ensures f == Guarded(sem.Value(), run) && ran == Admits(sem.Value())
    {
      f := Returned(Some(Error.SemaphoreRejected));
      ran := sem.TryAcquire();
      if ran {
        f := End(run);
        var panics := sem.Release();
        assert !panics;
      }
    }

    /** The function given to the breaker. */
    method RunWithPermit(cmd: Command) returns (f: Outcome, ran: bool)
      requires SemaphoresValid()
      modifies semaphores, semaphores.Objects()
      ensures SemaphoresValid()
      ensures var p := GroupPermits(old(semaphores.Value()), cmd.group, cmd.settings.maxConcurrentRequests);
              && semaphores.Value() == old(semaphores.Value())[cmd.group := p]
              && f == Guarded(p, cmd.run) && ran == Admits(p)
    {
      hide GroupPermits, Guarded;
      var sem := semaphores.Get(cmd.group, cmd.settings.maxConcurrentRequests);
      label Got:
      f, ran := RunHolding(sem, cmd.run);
      assert semaphores.Value() == old@Got(semaphores.Value());
    }

    method RunCommand(cmd: Command) returns (f: Outcome, ran: bool)
      requires Valid()
      modifies semaphores, semaphores.Objects()
      ensures Valid() && metrics == old(metrics)
      ensures Value() == Borrowed(old(Value()), cmd)
      ensures var p := GroupPermits(old(Value()).semaphores, cmd.group, cmd.settings.maxConcurrentRequests);
              f == Guarded(p, cmd.run) && ran == Admits(p)
    {
      hide circuitBreakers.Valid, circuitBreakers.Value, SemaphoresValid, semaphores.Value, GroupPermits, Guarded;
      f, ran := RunWithPermit(cmd);
      assert circuitBreakers.Unchanged();
      circuitBreakers.Kept();
    }

    method AttemptAdmitted(cmd: Command, trial: bool)
      returns (response: Response, err: Option<Error>, thrown: Option<PanicValue>, ran: bool)
      requires Valid() && cmd.name in circuitBreakers.values
      modifies circuitBreakers.values[cmd.name].Own(), semaphores, semaphores.Objects(), clock
      ensures Valid() && metrics == old(metrics)
      ensures Model.AttemptAdmitted(clock.readings, old(Value()), cmd, trial)
           == Model.Attempt(Value(), response, err, thrown, ran)
    {
      hide Valid, Value, Finish, GroupPermits, Guarded;
      response, err, thrown := Nil, None, None;
      var f;
      f, ran := RunCommand(cmd);
      if ran && cmd.run.Returns? {
        response := cmd.run.response;
      }
      var reply := FinishCommand(cmd, trial, f);
      if reply.outcome.Panicked? {
        thrown := Some(reply.outcome.value);
      } else {
        err := reply.outcome.err;
        if err.Some? {
          thrown := Some(PanicError(err.value));
        }
      }
    }

    /** The executor's part of `cb.Do`: the named results and the value a deferred handler recovers. */
    method AttemptFound(cmd: Command)
      returns (response: Response, err: Option<Error>, thrown: Option<PanicValue>, ran: bool)
      requires Valid() && cmd.name in circuitBreakers.values
      modifies circuitBreakers.values[cmd.name].Own(), semaphores, semaphores.Objects(), clock
      ensures Valid() && metrics == old(metrics)
      ensures Model.AttemptFound(clock.readings, old(Value()), cmd)
              == Model.Attempt(Value(), response, err, thrown, ran)
    {
      hide Valid, Value, Admit, Model.AttemptAdmitted;
      var allowed, trial := AdmitCommand(cmd);
      if allowed {
        response, err, thrown, ran := AttemptAdmitted(cmd, trial);
      } else {
        response, err, thrown, ran := Nil, Some(CircuitOpenError), Some(PanicError(CircuitOpenError)), false;
      }
    }

    method Attempt(cmd: Command) returns (response: Response, err: Option<Error>, thrown: Option<PanicValue>, ran: bool)
      requires Valid()
      modifies circuitBreakers, circuitBreakers.Objects(), semaphores, semaphores.Objects(), clock
      ensures Valid() && metrics == old(metrics)
      ensures Attempted(clock.readings, old(Value()), cmd) == Model.Attempt(Value(), response, err, thrown, ran)
    {
      hide Valid, Value, Attempted, Model.AttemptFound, WithBreaker;
      AttemptedInSteps(clock.readings, Value(), cmd);
      if cmd.name in circuitBreakers.values {
        circuitBreakers.OwnAmongObjects(cmd.name);
      }
      GetCircuitBreakerForCommand(cmd);
      response, err, thrown, ran := AttemptFound(cmd);
    }

    /** The metrics have changed, and nothing else but the clock. */
    twostate lemma OnlyMetricsChanged()
      requires old(Valid()) && circuitBreakers.Unchanged() && SemaphoresUnchanged()
      requires forall name :: name in metrics ==>
                 Metrics.Valid(metrics[name].counters) && metrics[name].executionTime.Valid()
      ensures Valid()
      ensures Value() == old(Value()).(metrics := metrics, next := clock.next)
    {
      hide circuitBreakers.Valid, circuitBreakers.Value, circuitBreakers.Unchanged, SemaphoresValid, semaphores.Value,
           SemaphoresUnchanged;
      SemaphoresKept();
      circuitBreakers.Kept();
    }

    method FetchMetrics(name: string)
      requires Valid()
      modifies this`metrics, clock
      ensures Valid() && name in metrics
      ensures Value() == WithMetrics(clock.readings, old(Value()), name)
    {
      hide circuitBreakers.Valid, circuitBreakers.Value, SemaphoresValid, semaphores.Value;
      hide PercentileModel.NewSampler, RollingNumber.CalculateBucketSize;
      if name !in metrics {
        var now := clock.Now();
        var sampler := PercentileModel.NewSampler(RollingNumber.DEFAULT_BUCKET_SIZE,
                                                  RollingNumber.DEFAULT_WINDOW_BUCKETS, percentileBucketSize, now);
        metrics := metrics[name := MetricsValue(map[], sampler)];
        assert circuitBreakers.Unchanged() && SemaphoresUnchanged();
        OnlyMetricsChanged();
      }
    }

    /** Events and time recorded in metrics that exist. */
    method UpdateFound(info: ExecutionInfo)
      requires Valid() && info.commandName in metrics
      modifies this`metrics, clock
      ensures Valid()
      ensures Value() == UpdatedFound(clock.readings, old(Value()), info)
    {
      hide circuitBreakers.Valid, circuitBreakers.Value, SemaphoresValid, semaphores.Value;
      hide Metrics.CountEvents, Metrics.Credited, Metrics.Timed, PercentileModel.Recorded;
      var m := metrics[info.commandName];
      var c := Metrics.CountEvents(m.counters, clock.readings, clock.next, Metrics.Credited(info.events));
      clock.next := c.next;
      var executionTime := m.executionTime;
      if Metrics.Timed(info.events) {
        executionTime := PercentileModel.Recorded(executionTime, clock.readings(clock.next), info.ExecutionTime());
        clock.next := clock.next + 1;
      }
      metrics := metrics[info.commandName := MetricsValue(c.counters, executionTime)];
      assert circuitBreakers.Unchanged() && SemaphoresUnchanged();
      OnlyMetricsChanged();
    }

    method UpdateMetrics(info: ExecutionInfo)
      requires Valid()
      modifies this`metrics, clock
      ensures Valid()
      ensures Value() == Updated(clock.readings, old(Value()), info)
    {
      hide Valid, Value, WithMetrics, UpdatedFound;
      FetchMetrics(info.commandName);
      UpdateFound(info);
    }

    /** The cache or the log of a request has changed, and nothing else. */
    twostate lemma OnlyContextChanged()
      requires old(Valid()) && unchanged(this) && unchanged(clock) && circuitBreakers.Unchanged()
               && SemaphoresUnchanged()
      ensures Valid() && Value() == old(Value())
    {
      OnlyMetricsChanged();
    }

    /** Adds the execution to the log of the request, if there is one and it is used. */
    method AddToLog(cmd: Command, info: ExecutionInfo, log: RequestLog?)
      requires Valid()
      modifies log
      ensures Valid() && Value() == old(Value())
      ensures LogOf(log) == if cmd.settings.requestLogEnabled && log != null then Some(old(LogOf(log).value) + [info])
                            else old(LogOf(log))
    {
      hide Valid, Value, circuitBreakers.Valid, circuitBreakers.Value, SemaphoresValid, semaphores.Value;
      if cmd.settings.requestLogEnabled && log != null {
        log.AddExecutionInfo(info);
      }
      assert circuitBreakers.Unchanged() && SemaphoresUnchanged();
      OnlyContextChanged();
    }

    method LogRequest(cmd: Command, info: ExecutionInfo, ghost cache: RequestCache?, log: RequestLog?)
      requires Valid()
      modifies this`metrics, clock, log
      ensures Valid()
      ensures RequestValue(cache, log) == Accounted(clock.readings, old(RequestValue(cache, log)), cmd, info)
    {
      hide Valid, Value, Updated;
      UpdatedInContext(clock.readings, Value(), info, CacheOf(cache), LogOf(log));
      UpdateMetrics(info);
      AddToLog(cmd, info, log);
    }

    /** The fallback gets its own copy of the events, which so far are none. */
    method ExecFallback(cmd: Command, thrown: PanicValue, ghost cache: RequestCache?, log: RequestLog?)
      returns (response: Response, err: Option<Error>, ghost info: ExecutionInfo)
      requires Valid()
      modifies this`metrics, clock, log
      ensures Valid()
      ensures Rescued(cmd.fallback, thrown) == Rescue(response, err, info.events)
      ensures info == ExecutionInfo(cmd.name, cmd.elapsed, info.events)
      ensures RequestValue(cache, log) == Accounted(clock.readings, old(RequestValue(cache, log)), cmd, info)
    {
      hide Valid, Value, Accounted, EventFor;
      response, err := Nil, None;
      var events := [EventFor(thrown)];
      match cmd.fallback {
        case Panics(value) =>
          events := events + [FallbackFailure];
          err := Some(PanicToError(value));
        case Returns(r, e) =>
          response := r;
          if e.Some? {
            if e.value != FallbackNotImplemented {
              events := events + [FallbackFailure];
            }
            err := Some(PanicToError(thrown));
          } else {
            events := events + [FallbackSuccess];
          }
      }
      info := ExecutionInfo(cmd.name, cmd.elapsed, events);
      LogRequest(cmd, ExecutionInfo(cmd.name, cmd.elapsed, events), cache, log);
    }

    /** Adds to the cache of the request, if there is one and it is used. */
    method AddToCache(cmd: Command, events: seq<ExecutionEvent>, response: Response, err: Option<Error>,
                      cache: RequestCache?, ghost log: RequestLog?)
      requires Valid()
      modifies cache
      ensures Valid()
      ensures RequestValue(cache, log) == Kept(old(RequestValue(cache, log)), cmd, response, err, events)
    {
      hide Valid, Value, circuitBreakers.Valid, circuitBreakers.Value, SemaphoresValid, semaphores.Value;
      if cache != null && cmd.cacheKey != "" && cmd.settings.requestCacheEnabled {
        cache.Add(cmd.name, cmd.cacheKey, ExecutionInfo(cmd.name, cmd.elapsed, events), response, err);
      }
      assert circuitBreakers.Unchanged() && SemaphoresUnchanged();
      OnlyContextChanged();
    }

    /** The deferred handler of `Exec`. */
    method Handle(cmd: Command, response: Response, err: Option<Error>, thrown: Option<PanicValue>, ran: bool,
                  cache: RequestCache?, log: RequestLog?)
      returns (response': Response, err': Option<Error>, calls: seq<Call>, ghost info: ExecutionInfo)
      requires Valid()
      modifies this`metrics, clock, cache, log
      ensures Valid()
      ensures Handled(clock.readings, Model.Attempt(old(RequestValue(cache, log)), response, err, thrown, ran), cmd)
           == Result(RequestValue(cache, log), response', err', info, calls)
    {
      hide Valid, RequestValue, Accounted, Rescued, Kept;
      response', err', calls := response, err, if ran then [Run] else [];
      if thrown.None? {
        info := ExecutionInfo(cmd.name, cmd.elapsed, [Success]);
        LogRequest(cmd, ExecutionInfo(cmd.name, cmd.elapsed, [Success]), cache, log);
        AddToCache(cmd, [Success], response, err, cache, log);
      } else if cmd.settings.fallbackEnabled {
        calls := calls + [Fallback];
        response', err', info := ExecFallback(cmd, thrown.value, cache, log);
        AddToCache(cmd, [], response', err', cache, log);
      } else {
        info := ExecutionInfo(cmd.name, cmd.elapsed, [Failure]);
        LogRequest(cmd, ExecutionInfo(cmd.name, cmd.elapsed, [Failure]), cache, log);
      }
    }

    /** The response cached in the request, if it is used and there is one. */
    method Lookup(cmd: Command, cache: RequestCache?, ghost log: RequestLog?) returns (ec: Option<ExecutedCommand>)
      requires Valid()
      ensures Valid() && RequestValue(cache, log) == old(RequestValue(cache, log))
      ensures var s := RequestValue(cache, log);
              ec == if Hits(s, cmd) then Some(s.cache.value[Key(cmd)]) else None
    {
      hide Valid, Value, circuitBreakers.Valid, circuitBreakers.Value, SemaphoresValid, semaphores.Value;
      if cache != null && cmd.cacheKey != "" && cmd.settings.requestCacheEnabled {
        ec := cache.Get(cmd.name, cmd.cacheKey);
      } else {
        ec := None;
      }
      assert circuitBreakers.Unchanged() && SemaphoresUnchanged();
      OnlyContextChanged();
    }

    /** A cache or a log is no part of the breakers or the semaphores. */
    lemma ContextApart(o: object?)
      requires o is RequestCache? || o is RequestLog?
      ensures o !in circuitBreakers.Objects() && o !in semaphores.Objects()
    {
    }

    method AttemptInRequest(cmd: Command, ghost cache: RequestCache?, ghost log: RequestLog?)
      returns (response: Response, err: Option<Error>, thrown: Option<PanicValue>, ran: bool)
      requires Valid()
      modifies circuitBreakers, circuitBreakers.Objects(), semaphores, semaphores.Objects(), clock
      ensures Valid()
      ensures Attempted(clock.readings, old(RequestValue(cache, log)), cmd)
           == Model.Attempt(RequestValue(cache, log), response, err, thrown, ran)
    {
      hide Valid, Value, Attempted, circuitBreakers.Objects, semaphores.Objects;
      ContextApart(cache);
      ContextApart(log);
      AttemptedInContext(clock.readings, Value(), cmd, CacheOf(cache), LogOf(log));
      response, err, thrown, ran := Attempt(cmd);
      assert CacheOf(cache) == old(CacheOf(cache)) && LogOf(log) == old(LogOf(log));
    }

    method ExecUncached(cmd: Command, cache: RequestCache?, log: RequestLog?)
      returns (response: Response, err: Option<Error>, calls: seq<Call>, ghost info: ExecutionInfo)
      requires Valid()
      modifies this`metrics, circuitBreakers, circuitBreakers.Objects(), semaphores, semaphores.Objects(), clock, cache,
               log
      ensures Valid()
      ensures Handled(clock.readings, Attempted(clock.readings, old(RequestValue(cache, log)), cmd), cmd)
           == Result(RequestValue(cache, log), response, err, info, calls)
    {
      hide Valid, RequestValue, Attempted, Handled;
      var thrown, ran;
      response, err, thrown, ran := AttemptInRequest(cmd, cache, log);
      response, err, calls, info := Handle(cmd, response, err, thrown, ran, cache, log);
    }

    method Exec(cmd: Command, cache: RequestCache?, log: RequestLog?)
      returns (response: Response, err: Option<Error>, calls: seq<Call>, ghost info: ExecutionInfo)
      requires Valid()
      modifies this`metrics, circuitBreakers, circuitBreakers.Objects(), semaphores, semaphores.Objects(), clock, cache,
               log
      ensures Valid()
      ensures Model.Exec(clock.readings, old(RequestValue(cache, log)), cmd)
              == Result(RequestValue(cache, log), response, err, info, calls)
    {
      hide Valid, RequestValue, Accounted, Attempted, Handled, Hits;
      var ec := Lookup(cmd, cache, log);
      if ec.Some? {
        response, err, calls, info := ec.value.response, ec.value.err, [], ec.value.info;
        LogRequest(cmd, ec.value.info, cache, log);
      } else {
        response, err, calls, info := ExecUncached(cmd, cache, log);
      }
    }
  }

  ghost function CacheOf(cache: RequestCache?): Cache
    reads cache
  {
    if cache == null then None else Some(cache.cache)
  }

  ghost function LogOf(log: RequestLog?): Log
    reads log
  {
    if log == null then None else Some(log.executedRequests)
  }
}
