/**
 What a caller gets and what is accounted for when an execution is not answered from the cache, case by
 case, told by the state before: the admission of the breaker, the permits of the group, and how the
 command and its fallback will end.
 */
module ExecutorReplies {
  import opened Clocks
  import opened Outcomes
  import opened BreakerModel
  import opened RequestLog
  import opened RequestCache
  import opened ExecutorModel
  import opened ExecutorOutcomes

  /** Why the run of a command fails, if it does. A trial hides any error, but not a panic. */
  datatype Fate =
    | Succeeds(response: Response)
    | RefusedByBreaker
    | RejectedBySemaphore
    | FailsWith(error: Error)
    | FailsAsTrial
    | PanicsWith(value: PanicValue)

  function FateOf(clock: Readings, s: State, cmd: Command): Fate
    requires s.Valid()
  {
    var admission := AdmissionOf(clock, s, cmd);
    if !admission.allowed then RefusedByBreaker
    else if !HasPermit(s, cmd) then (if admission.trial then FailsAsTrial else RejectedBySemaphore)
    else
      match cmd.run
      case Panics(value) => PanicsWith(value)
      case Returns(response, None) => Succeeds(response)
      case Returns(_, Some(e)) => if admission.trial then FailsAsTrial else FailsWith(e)
  }

  /** The error told for a panic: the one it carries, or its text. */
  predicate TellsPanic(value: PanicValue, e: Error) {
    match value
    case PanicError(carried) => e == carried
    case PanicString(message) => e == Text(message)
    case PanicOther => e == UnknownPanic
  }

  /** The error told for a failed run. */
  predicate TellsFailure(fate: Fate, e: Error) {
    match fate
    case Succeeds(_) => false
    case RefusedByBreaker => e == CircuitOpenError
    case RejectedBySemaphore => e == Error.SemaphoreRejected
    case FailsWith(error) => e == error
    case FailsAsTrial => e == CircuitOpenError
    case PanicsWith(value) => TellsPanic(value, e)
  }

  /** The event logged for an error, returned or carried by a panic. */
  predicate LogsError(error: Error, e: ExecutionEvent) {
    && (error == DeadlineExceeded ==> e == Timeout)
    && (error == CircuitOpenError ==> e == ShortCircuited)
    && (error == Error.SemaphoreRejected ==> e == ExecutionEvent.SemaphoreRejected)
    && (error !in {DeadlineExceeded, CircuitOpenError, Error.SemaphoreRejected} ==> e == Failure)
  }

  /** The first event logged for a failed run whose fallback is enabled. */
  predicate LogsFailure(fate: Fate, e: ExecutionEvent) {
    match fate
    case Succeeds(_) => false
    case RefusedByBreaker => e == ShortCircuited
    case RejectedBySemaphore => e == ExecutionEvent.SemaphoreRejected
    case FailsWith(error) => LogsError(error, e)
    case FailsAsTrial => e == ShortCircuited
    case PanicsWith(PanicError(error)) => LogsError(error, e)
    case PanicsWith(_) => e == Failure
  }

  /** Whether the command runs. */
  predicate Runs(clock: Readings, s: State, cmd: Command)
    requires s.Valid()
  {
    AdmissionOf(clock, s, cmd).allowed && HasPermit(s, cmd)
  }

  lemma CauseIsFate(clock: Readings, s: State, cmd: Command)
    requires s.Valid()
    ensures var fate, cause := FateOf(clock, s, cmd), CauseOf(clock, s, cmd);
            && (fate.Succeeds? <==> cause.None?)
            && (cause.Some? ==>
                  && TellsFailure(fate, PanicToError(cause.value)) && LogsFailure(fate, EventFor(cause.value)))
  {
    hide AdmissionOf, HasPermit;
  }

  lemma AttemptIsFate(clock: Readings, s: State, cmd: Command)
    requires s.Valid()
    ensures var fate, a := FateOf(clock, s, cmd), Attempted(clock, s, cmd);
            && (a.ran <==> Runs(clock, s, cmd))
            && a.thrown == CauseOf(clock, s, cmd)
            && (fate.Succeeds? ==> a.response == fate.response && a.err == None)
            && (fate.PanicsWith? ==> a.err == None && a.response == Nil)
            && (!fate.Succeeds? && !fate.PanicsWith? ==> a.err.Some? && TellsFailure(fate, a.err.value))
            && (!fate.Succeeds? ==>
                  a.response == if Runs(clock, s, cmd) && cmd.run.Returns? then cmd.run.response else Nil)
  {
    hide Attempted, AdmissionOf, HasPermit;
    WhatIsThrown(clock, s, cmd);
    CauseIsThrown(clock, s, cmd);
  }

  /** The reply to a successful run, and to a failed one with the fallback disabled: the error is returned, except
      that a panic leaves none, and the only event is a failure. */
  lemma RepliesWithoutFallback(clock: Readings, s: State, cmd: Command)
    requires s.Valid() && !Hits(s, cmd)
    ensures var fate, r := FateOf(clock, s, cmd), Exec(clock, s, cmd);
            && (fate.Succeeds? ==>
                  && r.response == fate.response && r.err == None
                  && r.info.events == [Success] && r.calls == [Run])
            && (!fate.Succeeds? && !cmd.settings.fallbackEnabled ==>
                  && r.info.events == [Failure] && r.calls == (if Runs(clock, s, cmd) then [Run] else [])
                  && r.response == (if Runs(clock, s, cmd) && cmd.run.Returns? then cmd.run.response else Nil)
                  && (if fate.PanicsWith? then r.err == None else r.err.Some? && TellsFailure(fate, r.err.value)))
  {
    hide Attempted, Accounted, Kept, Rescued, CauseOf, Runs, TellsFailure, LogsFailure;
    AttemptIsFate(clock, s, cmd);
    CauseIsFate(clock, s, cmd);
    if FateOf(clock, s, cmd).Succeeds? {
      SuccessRuns(clock, s, cmd);
    }
  }

  lemma SuccessRuns(clock: Readings, s: State, cmd: Command)
    requires s.Valid() && FateOf(clock, s, cmd).Succeeds?
    ensures Runs(clock, s, cmd)
  {
    hide AdmissionOf, HasPermit;
  }

  /** What the fallback makes of a failed run. */
  ghost predicate Falls(fate: Fate, fallback: Ending, r: Result) {
    match fallback
    case Returns(response, None) =>
      && r.response == response && r.err == None
      && |r.info.events| == 2 && LogsFailure(fate, r.info.events[0]) && r.info.events[1] == FallbackSuccess
    case Returns(response, Some(FallbackNotImplemented)) =>
      && r.response == response && r.err.Some? && TellsFailure(fate, r.err.value)
      && |r.info.events| == 1 && LogsFailure(fate, r.info.events[0])
    case Returns(response, Some(_)) =>
      && r.response == response && r.err.Some? && TellsFailure(fate, r.err.value)
      && |r.info.events| == 2 && LogsFailure(fate, r.info.events[0]) && r.info.events[1] == FallbackFailure
    case Panics(value) =>
      && r.response == Nil && r.err.Some? && TellsPanic(value, r.err.value)
      && |r.info.events| == 2 && LogsFailure(fate, r.info.events[0]) && r.info.events[1] == FallbackFailure
  }

  lemma RepliesOfFallback(clock: Readings, s: State, cmd: Command)
    requires s.Valid() && !Hits(s, cmd) && cmd.settings.fallbackEnabled && !FateOf(clock, s, cmd).Succeeds?
    ensures var r := Exec(clock, s, cmd);
            && Falls(FateOf(clock, s, cmd), cmd.fallback, r)
            && r.calls == (if Runs(clock, s, cmd) then [Run] else []) + [Fallback]
  {
    hide Attempted, Accounted, Kept, CauseOf, FateOf, Runs, TellsFailure, LogsFailure, EventFor;
    AttemptIsFate(clock, s, cmd);
    CauseIsFate(clock, s, cmd);
  }
}
