/**
 The executor: what one `Exec` does to breakers, semaphores, metrics, request
 cache and request log, and what it returns.
 */
module ExecutorModel {
  import opened Clocks
  import opened Outcomes
  import opened RollingNumber
  import opened BreakerModel
  import opened RequestLog
  import opened RequestCache
  import opened Semaphore
  import opened PercentileModel
  import Metrics = MetricsModel

  /** How a command function ends. */
  datatype Ending = Returns(response: Response, err: Option<Error>) | Panics(value: PanicValue)

  /** Properties of a command, constant during an execution. */
  datatype Settings = Settings(
    flags: Flags,
    breaker: Config,
    maxConcurrentRequests: nat,
    fallbackEnabled: bool,
    requestCacheEnabled: bool,
    requestLogEnabled: bool)

  /** A command, with the ends of its functions if they are called and the time the execution will take. */
  datatype Command = Command(
    name: string,
    group: string,
    cacheKey: string,
    settings: Settings,
    run: Ending,
    fallback: Ending,
    elapsed: int)

  /** A breaker keeps the properties it was made with. */
  datatype Guard = Guard(cfg: Config, breaker: Breaker)

  datatype MetricsValue = MetricsValue(counters: Metrics.Counters, executionTime: Sampler)

  /** The executor together with the cache and the log of the request's context, if there are any.
      `storage` tells what its breakers do with their snapshots, and `next` counts the clock readings
      made so far. */
  datatype State = State(
    storage: Storage,
    guards: map<string, Guard>,
    semaphores: map<string, Permits>,
    metrics: map<string, MetricsValue>,
    percentileBucketSize: nat,
    cache: Option<map<CacheKey, ExecutedCommand>>,
    log: Option<seq<ExecutionInfo>>,
    next: nat)
  {
    ghost predicate Valid() {
      && 0 < percentileBucketSize
      && (forall name :: name in guards ==> guards[name].breaker.Valid())
      && (forall name :: name in metrics ==>
            Metrics.Valid(metrics[name].counters) && metrics[name].executionTime.Valid())
    }
  }

  datatype Call = Run | Fallback

  /** The new state, what the caller gets, what was accounted for, and which functions of the command were called. */
  datatype Result = Result(state: State, response: Response, err: Option<Error>, info: ExecutionInfo, calls: seq<Call>)

  // The guarded run.

  /** Nothing but breakers, semaphores and the clock has changed. */
  predicate SameAccounts(s: State, t: State) {
    s.(guards := t.guards, semaphores := t.semaphores, next := t.next) == t
  }

  function WithBreaker(clock: Readings, s: State, cmd: Command): (t: State)
    requires s.Valid()
    ensures t.Valid() && cmd.name in t.guards && t.next >= s.next && SameAccounts(s, t) && t.semaphores == s.semaphores
  {
    if cmd.name in s.guards then s
    else s.(guards := s.guards[cmd.name := Guard(cmd.settings.breaker, NewBreaker(clock, s.next))], next := s.next + 2)
  }

  predicate Admits(p: Permits) {
    p.held < p.capacity
  }

  function End(run: Ending): Outcome {
    match run
    case Returns(_, err) => Returned(err)
    case Panics(value) => Panicked(value)
  }

  /** The end of the function given to the breaker, which runs the command if it gets a permit. */
  function Guarded(p: Permits, run: Ending): Outcome {
    if Admits(p) then End(run) else Returned(Some(Error.SemaphoreRejected))
  }

  /** What the deferred handler of `Exec` finds: the named results and the recovered value. */
  datatype Attempt = Attempt(state: State, response: Response, err: Option<Error>, thrown: Option<PanicValue>,
                             ran: bool)

  /** The state after a step of the breaker of a command. */
  function WithStep<T>(s: State, name: string, step: Step<T>): (t: State)
    requires s.Valid() && name in s.guards && step.breaker.Valid() && step.next >= s.next
    ensures t.Valid() && name in t.guards && t.next >= s.next && SameAccounts(s, t)
  {
    s.(guards := s.guards[name := s.guards[name].(breaker := step.breaker)], next := step.next)
  }

  /** The state after a permit has been taken and given back. */
  function Borrowed(s: State, cmd: Command): (t: State)
    requires s.Valid()
    ensures t.Valid() && t.next == s.next && SameAccounts(s, t)
  {
    s.(semaphores :=
       s.semaphores[cmd.group := GroupPermits(s.semaphores, cmd.group, cmd.settings.maxConcurrentRequests)])
  }

  function Attempted(clock: Readings, s: State, cmd: Command): (a: Attempt)
    requires s.Valid()
    ensures a.state.Valid() && a.state.next >= s.next && a.state.storage == s.storage
  {
    var t := WithBreaker(clock, s, cmd);
    var g, p := t.guards[cmd.name], GroupPermits(t.semaphores, cmd.group, cmd.settings.maxConcurrentRequests);
    var d := Do(s.storage, g.cfg, cmd.settings.flags, clock, g.breaker, t.next, Guarded(p, cmd.run));
    var u := WithStep(t, cmd.name, d);
    if d.value.Executed? then Concluded(Borrowed(u, cmd), Said(p, cmd.run), d.value.outcome, Admits(p))
    else Attempt(u, Nil, Some(CircuitOpenError), Some(PanicError(CircuitOpenError)), false)
  }

  /** The named result once the function given to the breaker has ended. */
  function Said(p: Permits, run: Ending): Response {
    if Admits(p) && run.Returns? then run.response else Nil
  }

  /** An error is thrown as well; a panic has passed by the assignment of the error. */
  function Concluded(s: State, response: Response, f: Outcome, ran: bool): Attempt {
    match f
    case Panicked(value) => Attempt(s, response, None, Some(value), ran)
    case Returned(Some(e)) => Attempt(s, response, Some(e), Some(PanicError(e)), ran)
    case Returned(None) => Attempt(s, response, None, None, ran)
  }

  // The same as a sequence of steps.

  function AttemptAdmitted(clock: Readings, s: State, cmd: Command, trial: bool): Attempt
    requires s.Valid() && cmd.name in s.guards
  {
    var p := GroupPermits(s.semaphores, cmd.group, cmd.settings.maxConcurrentRequests);
    var d := Finish(cmd.settings.flags, clock, s.guards[cmd.name].breaker, s.next, trial, Guarded(p, cmd.run));
    Concluded(WithStep(Borrowed(s, cmd), cmd.name, d), Said(p, cmd.run), d.value.outcome, Admits(p))
  }

  function AttemptFound(clock: Readings, s: State, cmd: Command): Attempt
    requires s.Valid() && cmd.name in s.guards
  {
    var g := s.guards[cmd.name];
    var a := Admit(s.storage, g.cfg, cmd.settings.flags, clock, g.breaker, s.next);
    if a.value.allowed then AttemptAdmitted(clock, WithStep(s, cmd.name, a), cmd, a.value.trial)
    else Attempt(WithStep(s, cmd.name, a), Nil, Some(CircuitOpenError), Some(PanicError(CircuitOpenError)), false)
  }

  lemma AttemptedInSteps(clock: Readings, s: State, cmd: Command)
    requires s.Valid()
    ensures Attempted(clock, s, cmd) == AttemptFound(clock, WithBreaker(clock, s, cmd), cmd)
  {
    hide Admit, Finish, Do, Guarded, GroupPermits;
    var t := WithBreaker(clock, s, cmd);
    var g := t.guards[cmd.name];
    var p := GroupPermits(t.semaphores, cmd.group, cmd.settings.maxConcurrentRequests);
    DoAdmitsThenFinishes(s.storage, g.cfg, cmd.settings.flags, clock, g.breaker, t.next, Guarded(p, cmd.run));
    var a := Admit(s.storage, g.cfg, cmd.settings.flags, clock, g.breaker, t.next);
    if a.value.allowed {
      var d := Finish(cmd.settings.flags, clock, a.breaker, a.next, a.value.trial, Guarded(p, cmd.run));
      assert t.guards[cmd.name := g.(breaker := a.breaker)][cmd.name := g.(breaker := d.breaker)]
          == t.guards[cmd.name := g.(breaker := d.breaker)];
    }
  }

  // The fallback.

  function EventFor(thrown: PanicValue): ExecutionEvent {
    match thrown
    case PanicError(DeadlineExceeded) => Timeout
    case PanicError(CircuitOpenError) => ShortCircuited
    case PanicError(SemaphoreRejected) => ExecutionEvent.SemaphoreRejected
    case _ => Failure
  }

  function PanicToError(thrown: PanicValue): Error {
    match thrown
    case PanicError(e) => e
    case PanicString(message) => Text(message)
    case PanicOther => UnknownPanic
  }

  datatype Rescue = Rescue(response: Response, err: Option<Error>, events: seq<ExecutionEvent>)

  function Rescued(fallback: Ending, thrown: PanicValue): Rescue {
    var event := EventFor(thrown);
    match fallback
    case Returns(response, None) => Rescue(response, None, [event, FallbackSuccess])
    case Returns(response, Some(FallbackNotImplemented)) => Rescue(response, Some(PanicToError(thrown)), [event])
    case Returns(response, Some(_)) => Rescue(response, Some(PanicToError(thrown)), [event, FallbackFailure])
    case Panics(value) => Rescue(Nil, Some(PanicToError(value)), [event, FallbackFailure])
  }

  // Accounting.

  function WithMetrics(clock: Readings, s: State, name: string): (t: State)
    requires s.Valid()
    ensures t.Valid() && name in t.metrics && t.next >= s.next && t.storage == s.storage
  {
    if name in s.metrics then s
    else
      var sampler := NewSampler(DEFAULT_BUCKET_SIZE, DEFAULT_WINDOW_BUCKETS, s.percentileBucketSize, clock(s.next));
      s.(metrics := s.metrics[name := MetricsValue(map[], sampler)], next := s.next + 1)
  }

  function UpdatedFound(clock: Readings, s: State, info: ExecutionInfo): (t: State)
    requires s.Valid() && info.commandName in s.metrics
    ensures t.Valid() && t.next >= s.next && t.storage == s.storage
  {
    var m := s.metrics[info.commandName];
    var c := Metrics.CountEvents(m.counters, clock, s.next, Metrics.Credited(info.events));
    if Metrics.Timed(info.events) then
      s.(metrics :=
         s.metrics[info.commandName := MetricsValue(c.counters,
                                                    Recorded(m.executionTime, clock(c.next), info.ExecutionTime()))],
         next := c.next + 1)
    else
      s.(metrics := s.metrics[info.commandName := MetricsValue(c.counters, m.executionTime)], next := c.next)
  }

  function Updated(clock: Readings, s: State, info: ExecutionInfo): (t: State)
    requires s.Valid()
    ensures t.Valid() && t.next >= s.next && t.storage == s.storage
  {
    UpdatedFound(clock, WithMetrics(clock, s, info.commandName), info)
  }

  function Logged(s: State, settings: Settings, info: ExecutionInfo): (t: State)
    ensures t == s.(log := t.log)
  {
    if settings.requestLogEnabled && s.log.Some? then s.(log := Some(s.log.value + [info])) else s
  }

  function Accounted(clock: Readings, s: State, cmd: Command, info: ExecutionInfo): (t: State)
    requires s.Valid()
    ensures t.Valid() && t.next >= s.next && t.storage == s.storage
  {
    Logged(Updated(clock, s, info), cmd.settings, info)
  }

  // The whole execution.

  predicate UsesCache(s: State, cmd: Command) {
    s.cache.Some? && cmd.cacheKey != "" && cmd.settings.requestCacheEnabled
  }

  function Key(cmd: Command): CacheKey {
    CacheKey(cmd.name, cmd.cacheKey)
  }

  predicate Hits(s: State, cmd: Command) {
    UsesCache(s, cmd) && Key(cmd) in s.cache.value
  }

  function Kept(s: State, cmd: Command, response: Response, err: Option<Error>, events: seq<ExecutionEvent>): (t: State)
    requires s.Valid()
    ensures t.Valid() && t == s.(cache := t.cache)
  {
    if UsesCache(s, cmd) then
      s.(cache := Some(s.cache.value[Key(cmd) := Cached(ExecutionInfo(cmd.name, cmd.elapsed, events), response, err)]))
    else s
  }

  /** The deferred handler of `Exec`, for a response that does not come from the cache. */
  function Handled(clock: Readings, a: Attempt, cmd: Command): (r: Result)
    requires a.state.Valid()
    ensures r.state.Valid() && r.state.next >= a.state.next && r.state.storage == a.state.storage
  {
    var calls := if a.ran then [Run] else [];
    match a.thrown
    case None =>
      var info := ExecutionInfo(cmd.name, cmd.elapsed, [Success]);
      Result(Kept(Accounted(clock, a.state, cmd, info), cmd, a.response, a.err, [Success]), a.response, a.err, info,
             calls)
    case Some(thrown) =>
      if cmd.settings.fallbackEnabled then
        var f := Rescued(cmd.fallback, thrown);
        var info := ExecutionInfo(cmd.name, cmd.elapsed, f.events);
        // The fallback adds its events to a copy; the cache gets the original, which has none.
        Result(Kept(Accounted(clock, a.state, cmd, info), cmd, f.response, f.err, []), f.response, f.err, info,
               calls + [Fallback])
      else
        var info := ExecutionInfo(cmd.name, cmd.elapsed, [Failure]);
        Result(Accounted(clock, a.state, cmd, info), a.response, a.err, info, calls)
  }

  function Exec(clock: Readings, s: State, cmd: Command): (r: Result)
    requires s.Valid()
    ensures r.state.Valid() && r.state.next >= s.next && r.state.storage == s.storage
  {
    if Hits(s, cmd) then
      var ec := s.cache.value[Key(cmd)];
      Result(Accounted(clock, s, cmd, ec.info), ec.response, ec.err, ec.info, [])
    else
      Handled(clock, Attempted(clock, s, cmd), cmd)
  }

  /** Executions one after the other, in one request context. */
  function After(clock: Readings, s: State, cmds: seq<Command>): (t: State)
    requires s.Valid()
    ensures t.Valid() && t.next >= s.next && t.storage == s.storage
  {
    if cmds == [] then s
    else Exec(clock, After(clock, s, cmds[..|cmds| - 1]), cmds[|cmds| - 1]).state
  }

  // Neither the guarded run nor the metrics depend on the context of the request.

  type Cache = Option<map<CacheKey, ExecutedCommand>>
  type Log = Option<seq<ExecutionInfo>>

  function InContext(s: State, cache: Cache, log: Log): (t: State)
    requires s.Valid()
    ensures t.Valid() && t.guards == s.guards && t.semaphores == s.semaphores && t.metrics == s.metrics
            && t.next == s.next
    ensures t.storage == s.storage
  {
    s.(cache := cache, log := log)
  }

  lemma BreakerInContext(clock: Readings, s: State, cmd: Command, cache: Cache, log: Log)
    requires s.Valid()
    ensures WithBreaker(clock, InContext(s, cache, log), cmd) == InContext(WithBreaker(clock, s, cmd), cache, log)
  {
  }

  lemma StepInContext(s: State, name: string, step: Step<Reply>, cache: Cache, log: Log)
    requires s.Valid() && name in s.guards && step.breaker.Valid() && step.next >= s.next
    ensures WithStep(InContext(s, cache, log), name, step) == InContext(WithStep(s, name, step), cache, log)
  {
  }

  lemma BorrowedInContext(s: State, cmd: Command, cache: Cache, log: Log)
    requires s.Valid()
    ensures Borrowed(InContext(s, cache, log), cmd) == InContext(Borrowed(s, cmd), cache, log)
  {
  }

  lemma AttemptedInContext(clock: Readings, s: State, cmd: Command, cache: Cache, log: Log)
    requires s.Valid()
    ensures var a := Attempted(clock, s, cmd);
            Attempted(clock, InContext(s, cache, log), cmd) == a.(state := InContext(a.state, cache, log))
  {
    hide Do, Guarded, GroupPermits, Said, WithBreaker, WithStep, Borrowed, InContext;
    BreakerInContext(clock, s, cmd, cache, log);
    var t := WithBreaker(clock, s, cmd);
    var g, p := t.guards[cmd.name], GroupPermits(t.semaphores, cmd.group, cmd.settings.maxConcurrentRequests);
    var d := Do(s.storage, g.cfg, cmd.settings.flags, clock, g.breaker, t.next, Guarded(p, cmd.run));
    StepInContext(t, cmd.name, d, cache, log);
    BorrowedInContext(WithStep(t, cmd.name, d), cmd, cache, log);
  }

  lemma MetricsInContext(clock: Readings, s: State, name: string, cache: Cache, log: Log)
    requires s.Valid()
    ensures WithMetrics(clock, InContext(s, cache, log), name) == InContext(WithMetrics(clock, s, name), cache, log)
  {
    hide NewSampler;
  }

  lemma UpdatedInContext(clock: Readings, s: State, info: ExecutionInfo, cache: Cache, log: Log)
    requires s.Valid()
    ensures Updated(clock, InContext(s, cache, log), info) == InContext(Updated(clock, s, info), cache, log)
  {
    hide Metrics.CountEvents, Recorded, Metrics.Timed, Metrics.Credited, WithMetrics;
    MetricsInContext(clock, s, info.commandName, cache, log);
  }
}
