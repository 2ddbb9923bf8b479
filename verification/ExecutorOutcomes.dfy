/** What one execution reports: its events, its error, and the permits it leaves. */
module ExecutorOutcomes {
  import opened Clocks
  import opened Outcomes
  import opened BreakerModel
  import opened RequestLog
  import opened RequestCache
  import opened Semaphore
  import opened PercentileModel
  import opened ExecutorModel
  import opened RollingNumber
  import Metrics = MetricsModel

  // Events.

  const FAILURES := {Failure, Timeout, ShortCircuited, ExecutionEvent.SemaphoreRejected}

  /** The events of an execution that does not come from the cache. */
  predicate FreshEvents(events: seq<ExecutionEvent>) {
    || events == [Success]
    || (|events| == 1 && events[0] in FAILURES)
    || (|events| == 2 && events[0] in FAILURES && events[1] in {FallbackSuccess, FallbackFailure})
  }

  predicate CachedEvents(events: seq<ExecutionEvent>) {
    events == [Success, ResponseFromCache] || events == [ResponseFromCache]
  }

  /** What every cached response looks like. */
  ghost predicate CacheSound(s: State) {
    s.cache.Some? ==>
      forall key :: key in s.cache.value ==>
        && s.cache.value[key].info.commandName == key.commandName
        && s.cache.value[key].info.executionTime == 0
        && CachedEvents(s.cache.value[key].info.events)
  }

  lemma AttemptKeepsAccounts(clock: Readings, s: State, cmd: Command)
    requires s.Valid()
    ensures SameAccounts(s, Attempted(clock, s, cmd).state)
  {
    hide Do, Guarded, GroupPermits, Said, WithBreaker, WithStep, Borrowed;
  }

  lemma AccountsKeepTheRest(clock: Readings, s: State, cmd: Command, info: ExecutionInfo)
    requires s.Valid()
    ensures var t := Accounted(clock, s, cmd, info);
            && t.cache == s.cache && t.guards == s.guards && t.semaphores == s.semaphores
            && t.percentileBucketSize == s.percentileBucketSize
            && t.log == if cmd.settings.requestLogEnabled && s.log.Some? then Some(s.log.value + [info]) else s.log
  {
    hide Metrics.CountEvents, Metrics.Credited, Metrics.Timed, Recorded, NewSampler;
  }

  /** Every execution is logged exactly once, under its name and with its events, whatever happens;
      it logs events of the cache just when its response is cached. */
  lemma ExecEvents(clock: Readings, s: State, cmd: Command)
    requires s.Valid() && CacheSound(s)
    ensures var r := Exec(clock, s, cmd);
            && CacheSound(r.state)
            && r.info.commandName == cmd.name
            && r.info.executionTime == (if Hits(s, cmd) then 0 else cmd.elapsed)
            && (if Hits(s, cmd) then CachedEvents(r.info.events) else FreshEvents(r.info.events))
            && r.state.log == if cmd.settings.requestLogEnabled && s.log.Some? then Some(s.log.value + [r.info])
                              else s.log
  {
    hide Accounted, Attempted;
    var a := Attempted(clock, s, cmd);
    AttemptKeepsAccounts(clock, s, cmd);
    AccountsKeepTheRest(clock, s, cmd, Exec(clock, s, cmd).info);
    AccountsKeepTheRest(clock, a.state, cmd, Exec(clock, s, cmd).info);
  }

  /** The events that an execution is counted by. */
  const ACCOUNTS := [Success, Failure, Timeout, ShortCircuited, ExecutionEvent.SemaphoreRejected, ResponseFromCache]

  function AccountsIn(events: seq<ExecutionEvent>): nat {
    if events == [] then 0 else AccountsIn(events[..|events| - 1]) + if events[|events| - 1] in ACCOUNTS then 1 else 0
  }

  /** Each execution is credited with exactly one of them. */
  lemma OneAccount(events: seq<ExecutionEvent>)
    requires FreshEvents(events) || CachedEvents(events)
    ensures AccountsIn(Metrics.Credited(events)) == 1
  {
    var credited := Metrics.Credited(events);
    assert AccountsIn([]) == 0;
    assert credited[..1] == [credited[0]] && credited[..1][..0] == [];
    assert AccountsIn(credited[..1]) == 1;
    if |credited| == 2 {
      assert credited[1] !in ACCOUNTS;
    }
  }

  // Errors.

  /** How the breaker of a command will answer an execution that reaches it. */
  function AdmissionOf(clock: Readings, s: State, cmd: Command): Admission
    requires s.Valid()
  {
    var t := WithBreaker(clock, s, cmd);
    var g := t.guards[cmd.name];
    Admit(s.storage, g.cfg, cmd.settings.flags, clock, g.breaker, t.next).value
  }

  /** Whether the group of a command has a permit left. */
  predicate HasPermit(s: State, cmd: Command) {
    Admits(GroupPermits(s.semaphores, cmd.group, cmd.settings.maxConcurrentRequests))
  }

  /** A failing trial is reported as an open circuit. */
  function Reported(trial: bool, e: Error): Error {
    if trial then CircuitOpenError else e
  }

  lemma DoRunsTheFunction(storage: Storage, cfg: Config, flags: Flags, clock: Readings, b: Breaker, k: nat, f: Outcome)
    requires b.Valid()
    ensures var d, a := Do(storage, cfg, flags, clock, b, k, f), Admit(storage, cfg, flags, clock, b, k).value;
            && d.value.Executed? == a.allowed
            && (a.allowed ==>
                  d.value.outcome == if f.Returned? && f.err.Some? then Returned(Some(Reported(a.trial, f.err.value)))
                                     else f)
  {
    hide IsRequestAllowed, Incremented, Zeroed;
  }

  /** What the deferred handler of `Exec` finds, told by the state before: the command runs
      just when it is admitted and gets a permit. */
  lemma WhatIsThrown(clock: Readings, s: State, cmd: Command)
    requires s.Valid()
    ensures var a, admission := Attempted(clock, s, cmd), AdmissionOf(clock, s, cmd);
            && (a.ran <==> admission.allowed && HasPermit(s, cmd))
            && (!admission.allowed ==> a.err == Some(CircuitOpenError) && a.response == Nil)
            && (admission.allowed && !HasPermit(s, cmd) ==>
                  a.err == Some(Reported(admission.trial, Error.SemaphoreRejected)) && a.response == Nil)
            && (a.ran && cmd.run.Panics? ==> a.err == None && a.thrown == Some(cmd.run.value) && a.response == Nil)
            && (a.ran && cmd.run.Returns? ==>
                  && a.response == cmd.run.response
                  && a.err == if cmd.run.err.None? then None else Some(Reported(admission.trial, cmd.run.err.value)))
            && (a.err.Some? ==> a.thrown == Some(PanicError(a.err.value)))
            && (a.err.None? && a.thrown.Some? ==> a.ran && cmd.run.Panics?)
  {
    hide Do, Admit, WithBreaker, WithStep, Borrowed, GroupPermits, Admits;
    var t := WithBreaker(clock, s, cmd);
    var g, p := t.guards[cmd.name], GroupPermits(t.semaphores, cmd.group, cmd.settings.maxConcurrentRequests);
    DoRunsTheFunction(s.storage, g.cfg, cmd.settings.flags, clock, g.breaker, t.next, Guarded(p, cmd.run));
  }

  /** What will be thrown, if anything, told by the state before. */
  function CauseOf(clock: Readings, s: State, cmd: Command): Option<PanicValue>
    requires s.Valid()
  {
    var admission := AdmissionOf(clock, s, cmd);
    if !admission.allowed then Some(PanicError(CircuitOpenError))
    else if !HasPermit(s, cmd) then Some(PanicError(Reported(admission.trial, Error.SemaphoreRejected)))
    else
      match cmd.run
      case Panics(value) => Some(value)
      case Returns(_, None) => None
      case Returns(_, Some(e)) => Some(PanicError(Reported(admission.trial, e)))
  }

  lemma CauseIsThrown(clock: Readings, s: State, cmd: Command)
    requires s.Valid()
    ensures var a := Attempted(clock, s, cmd);
            && a.thrown == CauseOf(clock, s, cmd)
            && (a.thrown.None? ==> cmd.run.Returns? && a.response == cmd.run.response && a.err.None?)
  {
    hide Attempted, AdmissionOf, HasPermit;
    WhatIsThrown(clock, s, cmd);
  }

  /** The command will run, will panic, and has no fallback to see it. */
  predicate UnrescuedPanic(clock: Readings, s: State, cmd: Command)
    requires s.Valid()
  {
    !cmd.settings.fallbackEnabled && cmd.run.Panics? && AdmissionOf(clock, s, cmd).allowed && HasPermit(s, cmd)
  }

  /** The caller gets no error just when the last event is a success, or when the command is to
      run, panics, and its fallback is disabled; then the caller gets nothing at all. */
  lemma NoErrorIffSuccessOrUnrescuedPanic(clock: Readings, s: State, cmd: Command)
    requires s.Valid() && !Hits(s, cmd)
    ensures var r := Exec(clock, s, cmd);
            && r.info.events != []
            && (r.err.None? <==>
                  r.info.events[|r.info.events| - 1] in {Success, FallbackSuccess} || UnrescuedPanic(clock, s, cmd))
            && (UnrescuedPanic(clock, s, cmd) ==> r.response == Nil && r.info.events == [Failure])
  {
    hide Attempted, Accounted, Kept, AdmissionOf, HasPermit;
    WhatIsThrown(clock, s, cmd);
  }

  /** With the fallback enabled: its response without its error, if it returns one; the original
      failure, if it returns an error; its own panic, if it panics. */
  lemma FallbackDecides(clock: Readings, s: State, cmd: Command)
    requires s.Valid() && !Hits(s, cmd) && cmd.settings.fallbackEnabled
    ensures var r, cause := Exec(clock, s, cmd), CauseOf(clock, s, cmd);
            && (Fallback in r.calls <==> cause.Some?)
            && (cause.None? ==> cmd.run.Returns? && r.response == cmd.run.response && r.err.None?)
            && (cause.Some? && cmd.fallback.Returns? ==>
                  r.response == cmd.fallback.response
                  && r.err == if cmd.fallback.err.None? then None else Some(PanicToError(cause.value)))
            && (cause.Some? && cmd.fallback.Panics? ==>
                  r.response == Nil && r.err == Some(PanicToError(cmd.fallback.value)))
  {
    hide Attempted, Accounted, Kept, EventFor, PanicToError, CauseOf;
    CauseIsThrown(clock, s, cmd);
  }

  /** The first event tells what was thrown just when the fallback is enabled or a plain failure
      was thrown: with the fallback disabled, rejected and late executions count as failures. */
  lemma EventTellsCauseIffFallbackEnabled(clock: Readings, s: State, cmd: Command)
    requires s.Valid() && !Hits(s, cmd)
    ensures var cause, events := CauseOf(clock, s, cmd), Exec(clock, s, cmd).info.events;
            && events != []
            && (cause.None? ==> events == [Success])
            && (cause.Some? ==>
                  (events[0] == EventFor(cause.value) <==>
                     cmd.settings.fallbackEnabled || EventFor(cause.value) == Failure))
  {
    hide Attempted, Accounted, Kept, EventFor, PanicToError, CauseOf;
    CauseIsThrown(clock, s, cmd);
  }

  // Permits.

  /** The semaphores once an execution of the command has asked for one. */
  function Asked(s: State, cmd: Command): map<string, Permits> {
    s.semaphores[cmd.group := GroupPermits(s.semaphores, cmd.group, cmd.settings.maxConcurrentRequests)]
  }

  lemma AttemptBorrows(clock: Readings, s: State, cmd: Command)
    requires s.Valid()
    ensures Attempted(clock, s, cmd).state.semaphores
         == if AdmissionOf(clock, s, cmd).allowed then Asked(s, cmd) else s.semaphores
  {
    hide Do, Admit, Guarded, Said, NewBreaker, GroupPermits;
    var t := WithBreaker(clock, s, cmd);
    var g, p := t.guards[cmd.name], GroupPermits(t.semaphores, cmd.group, cmd.settings.maxConcurrentRequests);
    DoRunsTheFunction(s.storage, g.cfg, cmd.settings.flags, clock, g.breaker, t.next, Guarded(p, cmd.run));
  }

  lemma ExecBorrows(clock: Readings, s: State, cmd: Command)
    requires s.Valid()
    ensures Exec(clock, s, cmd).state.semaphores
         == if !Hits(s, cmd) && AdmissionOf(clock, s, cmd).allowed then Asked(s, cmd) else s.semaphores
  {
    hide Accounted, Attempted, Asked, AdmissionOf;
    var r := Exec(clock, s, cmd);
    AccountsKeepTheRest(clock, s, cmd, r.info);
    AccountsKeepTheRest(clock, Attempted(clock, s, cmd).state, cmd, r.info);
    AttemptBorrows(clock, s, cmd);
  }

  /** An execution leaves every permit where it was. If it is admitted its group has a semaphore of the maximum asked
      for, which is new unless it had that maximum; otherwise nothing changes. */
  lemma PermitsReturned(clock: Readings, s: State, cmd: Command)
    requires s.Valid()
    ensures var t, group := Exec(clock, s, cmd).state.semaphores, cmd.group;
            var maximum := cmd.settings.maxConcurrentRequests;
            if Hits(s, cmd) || !AdmissionOf(clock, s, cmd).allowed then t == s.semaphores
            else
              && (forall other :: other != group ==> (other in t <==> other in s.semaphores))
              && (forall other :: other != group && other in t ==> t[other] == s.semaphores[other])
              && group in t
              && t[group] == if group in s.semaphores && s.semaphores[group].capacity == maximum
                             then s.semaphores[group] else Permits(maximum, 0)
  {
    hide Exec, AdmissionOf;
    ExecBorrows(clock, s, cmd);
  }

  ghost predicate NoneHeld(semaphores: map<string, Permits>) {
    forall group :: group in semaphores ==> semaphores[group].held == 0
  }

  /** Without other executions in progress no permit is out ... */
  lemma {:induction false} NoPermitsOut(clock: Readings, s: State, cmds: seq<Command>)
    requires s.Valid() && s.semaphores == map[]
    ensures NoneHeld(After(clock, s, cmds).semaphores)
  {
    hide Accounted, Attempted, Handled;
    if cmds != [] {
      NoPermitsOut(clock, s, cmds[..|cmds| - 1]);
      PermitsReturned(clock, After(clock, s, cmds[..|cmds| - 1]), cmds[|cmds| - 1]);
    }
  }

  /** ... so that the only executions a semaphore rejects are those with a maximum of zero. */
  lemma RejectedOnlyByZeroMaximum(clock: Readings, s: State, cmds: seq<Command>, cmd: Command)
    requires s.Valid() && s.semaphores == map[]
    ensures var a := Attempted(clock, After(clock, s, cmds), cmd);
            !a.ran && a.err != Some(CircuitOpenError) ==> cmd.settings.maxConcurrentRequests == 0
  {
    hide Exec, Do, NewBreaker, Said;
    NoPermitsOut(clock, s, cmds);
    var t := After(clock, s, cmds);
    assert GroupPermits(t.semaphores, cmd.group, cmd.settings.maxConcurrentRequests).held == 0;
  }
}
