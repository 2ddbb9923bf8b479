/**
 The atomic operations of the breaker, interleaved among any number of threads:
 loads, stores, compare-and-swaps, readings of the clock, and the accesses to the
 two counters, each of which holds a lock. No call is forced.
 */
module BreakerInterleaving {
  import opened Clocks
  import opened Outcomes
  import opened Numbers
  import opened RollingNumber
  import opened BreakerModel
  import opened BreakerLockstep

  /** Where a call of IsOpen returns to: to its caller outside, to the trial check with the
      times it has loaded, or to the request check that knows whether this is a trial. */
  datatype Caller = Outside | TrialCheck(last: int, timestamp: int) | RequestCheck(trial: bool)

  /** The next atomic operation of a thread, or the reply its last call has got. */
  datatype Thread =
    | Idle(reply: Reply)
    | LoadTrialTime
    | ReadTrialClock(last: int)
    | LoadOpen(caller: Caller)
    | LoadSnapshotTime(caller: Caller)
    | ReadHealthClock(caller: Caller, taken: int)
    | SwapSnapshotTime(caller: Caller, taken: int, timestamp: int)
    | SumRequests(caller: Caller)
    | SumErrors(caller: Caller, requests: int)
    | SwapOpen(caller: Caller, judged: Health)
    | ReadTripClock(caller: Caller)
    | StoreTrip(caller: Caller, stamp: int)
    | SwapTrial(last: int, timestamp: int)
    | Run(trial: bool)
    | CountError(reply: Reply)
    | ResetErrors
    | ResetRequests
    | StoreClosed

  /** A write to the time of the last trial. */
  datatype Write = Write(stamp: int, trial: bool)

  datatype State = State(now: int, breaker: Breaker, threads: seq<Thread>, writes: seq<Write>) {
    ghost predicate Valid() {
      breaker.Valid()
    }
  }

  datatype Action =
    | Tick(elapsed: nat)
    | StartDo(thread: nat)
    | StartIsOpen(thread: nat)
    /** The next operation of a thread; if it runs the function, this is its outcome. */
    | Go(thread: nat, f: Outcome)

  function Start(threads: nat, now: int): (s: State)
    ensures s.Valid()
  {
    State(now, NewBreaker(Still(now), 0), seq(threads, _ => Idle(Waited)), [])
  }

  function Return(cfg: Config, caller: Caller, open: bool): Thread {
    match caller
    case Outside => Idle(Answered(open))
    case TrialCheck(last, timestamp) =>
      if open && timestamp > last + cfg.sleepWindow then SwapTrial(last, timestamp) else LoadOpen(RequestCheck(false))
    case RequestCheck(trial) =>
      if !open || trial then Run(trial) else CountError(Refused)
  }

  /** What follows the health snapshot. */
  function Judged(cfg: Config, caller: Caller, h: Health): Thread {
    if Trips(cfg, h) then SwapOpen(caller, h) else Return(cfg, caller, false)
  }

  /** What follows the run of the function. */
  function Ended(trial: bool, f: Outcome): Thread {
    match f
    case Panicked(_) => Idle(Executed(trial, f))
    case Returned(Some(e)) => CountError(Executed(trial, Returned(Some(if trial then CircuitOpenError else e))))
    case Returned(None) => if trial then ResetErrors else Idle(Executed(false, f))
  }

  /** An operation: where the thread goes on, the breaker, and what it has written. */
  datatype Progress = Progress(thread: Thread, breaker: Breaker, written: seq<Write>)

  function Perform(cfg: Config, now: int, b: Breaker, thread: Thread, f: Outcome): (p: Progress)
    requires b.Valid()
    ensures p.breaker.Valid()
  {
    match thread
    case Idle(_) => Progress(thread, b, [])
    case LoadTrialTime => Progress(ReadTrialClock(b.lastTrialTime), b, [])
    case ReadTrialClock(last) => Progress(LoadOpen(TrialCheck(last, now)), b, [])
    case LoadOpen(caller) =>
      Progress(if b.open then Return(cfg, caller, true) else LoadSnapshotTime(caller), b, [])
    case LoadSnapshotTime(caller) => Progress(ReadHealthClock(caller, b.snapshotTime), b, [])
    case ReadHealthClock(caller, taken) =>
      Progress(if now > taken + cfg.healthSnapshotInterval then SwapSnapshotTime(caller, taken, now)
               else Judged(cfg, caller, b.snapshot), b, [])
    case SwapSnapshotTime(caller, taken, timestamp) =>
      if b.snapshotTime == taken then Progress(SumRequests(caller), b.(snapshotTime := timestamp), [])
      else Progress(Judged(cfg, caller, b.snapshot), b, [])
    case SumRequests(caller) =>
      Progress(SumErrors(caller, Total(b.requests, now)), b.(requests := Rotate(b.requests, now)), [])
    case SumErrors(caller, requests) =>
      Progress(Judged(cfg, caller, Health(requests, Total(b.errors, now))), b.(errors := Rotate(b.errors, now)), [])
    case SwapOpen(caller, _) =>
      if b.open then Progress(Return(cfg, caller, true), b, [])
      else Progress(ReadTripClock(caller), b.(open := true), [])
    case ReadTripClock(caller) => Progress(StoreTrip(caller, now), b, [])
    case StoreTrip(caller, stamp) =>
      Progress(Return(cfg, caller, true), b.(lastTrialTime := stamp), [Write(stamp, false)])
    case SwapTrial(last, timestamp) =>
      if b.lastTrialTime == last then
        Progress(LoadOpen(RequestCheck(true)), b.(lastTrialTime := timestamp), [Write(timestamp, true)])
      else Progress(LoadOpen(RequestCheck(false)), b, [])
    case Run(trial) => Progress(Ended(trial, f), b, [])
    case CountError(reply) => Progress(Idle(reply), b.(errors := Incremented(b.errors, now)), [])
    case ResetErrors => Progress(ResetRequests, b.(errors := Zeroed(b.errors, now)), [])
    case ResetRequests => Progress(StoreClosed, b.(requests := Zeroed(b.requests, now)), [])
    case StoreClosed => Progress(Idle(Executed(true, Returned(None))), b.(open := false), [])
  }

  function Counted(b: Breaker, now: int): (r: Breaker)
    requires b.Valid()
    ensures r.Valid()
  {
    b.(requests := Incremented(b.requests, now))
  }

  function Next(cfg: Config, s: State, a: Action): (s': State)
    requires s.Valid()
    ensures s'.Valid()
  {
    match a
    case Tick(elapsed) => s.(now := s.now + elapsed)
    case StartDo(t) =>
      if t < |s.threads| && s.threads[t].Idle? then
        s.(breaker := Counted(s.breaker, s.now), threads := s.threads[t := LoadTrialTime])
      else s
    case StartIsOpen(t) =>
      if t < |s.threads| && s.threads[t].Idle? then s.(threads := s.threads[t := LoadOpen(Outside)]) else s
    case Go(t, f) =>
      if t < |s.threads| then
        var p := Perform(cfg, s.now, s.breaker, s.threads[t], f);
        s.(breaker := p.breaker, threads := s.threads[t := p.thread], writes := s.writes + p.written)
      else s
  }

  function After(cfg: Config, s: State, run: seq<Action>): (s': State)
    requires s.Valid()
    ensures s'.Valid()
  {
    if run == [] then s else Next(cfg, After(cfg, s, run[..|run| - 1]), run[|run| - 1])
  }

  /** The time a compare-and-swap would find after these writes. */
  function LastStamp(writes: seq<Write>): int {
    if writes == [] then 0 else writes[|writes| - 1].stamp
  }

  /** A trial comes more than a sleep window after the write it replaces. */
  ghost predicate TrialsFollow(sleepWindow: int, writes: seq<Write>) {
    forall i :: 0 <= i < |writes| && writes[i].trial ==> writes[i].stamp > LastStamp(writes[..i]) + sleepWindow
  }

  ghost predicate Inv(sleepWindow: int, s: State) {
    && s.Valid()
    && s.breaker.lastTrialTime == LastStamp(s.writes)
    && TrialsFollow(sleepWindow, s.writes)
    && forall t :: 0 <= t < |s.threads| && s.threads[t].SwapTrial? ==>
         s.threads[t].timestamp > s.threads[t].last + sleepWindow
  }

  lemma WriteFollows(sleepWindow: int, writes: seq<Write>, w: Write)
    requires TrialsFollow(sleepWindow, writes)
    requires w.trial ==> w.stamp > LastStamp(writes) + sleepWindow
    ensures TrialsFollow(sleepWindow, writes + [w])
  {
    var writes' := writes + [w];
    forall i | 0 <= i < |writes'| && writes'[i].trial
      ensures writes'[i].stamp > LastStamp(writes'[..i]) + sleepWindow
    {
      if i < |writes| {
        assert writes'[..i] == writes[..i];
      } else {
        assert writes'[..i] == writes;
      }
    }
  }

  lemma NextInv(cfg: Config, s: State, a: Action)
    requires Inv(cfg.sleepWindow, s)
    ensures Inv(cfg.sleepWindow, Next(cfg, s, a))
  {
    hide TrialsFollow, Incremented, Rotate, Zeroed, Total, Trips;
    assert s.writes + [] == s.writes;
    if a.Go? && a.thread < |s.threads| {
      var thread := s.threads[a.thread];
      if thread.StoreTrip? {
        WriteFollows(cfg.sleepWindow, s.writes, Write(thread.stamp, false));
      } else if thread.SwapTrial? && s.breaker.lastTrialTime == thread.last {
        WriteFollows(cfg.sleepWindow, s.writes, Write(thread.timestamp, true));
      }
    }
  }

  lemma {:induction false} RunInv(cfg: Config, threads: nat, now: int, run: seq<Action>)
    ensures Inv(cfg.sleepWindow, After(cfg, Start(threads, now), run))
  {
    hide Next;
    if run != [] {
      RunInv(cfg, threads, now, run[..|run| - 1]);
      NextInv(cfg, After(cfg, Start(threads, now), run[..|run| - 1]), run[|run| - 1]);
    }
  }

  lemma {:induction false} UnbrokenTrials(sleepWindow: int, writes: seq<Write>, i: nat, j: nat)
    requires TrialsFollow(sleepWindow, writes) && i <= j < |writes|
    requires forall x :: i < x <= j ==> writes[x].trial
    ensures writes[j].stamp - writes[i].stamp >= (j - i) * (sleepWindow + 1)
  {
    if i < j {
      UnbrokenTrials(sleepWindow, writes, i, j - 1);
      MulStep(j - 1 - i, sleepWindow + 1);
    }
  }

  /** In every interleaving, successful trial swaps with no trip store among them are
      each more than a sleep window after the one before, and after a trip store they follow. */
  lemma TrialsSpacedBetweenTrips(cfg: Config, threads: nat, now: int, run: seq<Action>, i: nat, j: nat)
    requires var writes := After(cfg, Start(threads, now), run).writes;
             i < j < |writes| && forall x :: i < x <= j ==> writes[x].trial
    ensures var writes := After(cfg, Start(threads, now), run).writes;
            writes[j].stamp - writes[i].stamp >= (j - i) * (cfg.sleepWindow + 1)
  {
    RunInv(cfg, threads, now, run);
    UnbrokenTrials(cfg.sleepWindow, After(cfg, Start(threads, now), run).writes, i, j);
  }

  /** No trip store carries an older time than the write it replaces. */
  ghost predicate TripsCurrent(writes: seq<Write>) {
    forall i :: 0 < i < |writes| && !writes[i].trial ==> writes[i - 1].stamp <= writes[i].stamp
  }

  lemma {:induction false} StampsGrow(sleepWindow: int, writes: seq<Write>, i: nat, j: nat)
    requires 0 <= sleepWindow && TrialsFollow(sleepWindow, writes) && TripsCurrent(writes) && i <= j < |writes|
    ensures writes[i].stamp <= writes[j].stamp
    ensures i < j && writes[j].trial ==> writes[j].stamp > writes[i].stamp + sleepWindow
  {
    if i < j {
      StampsGrow(sleepWindow, writes, i, j - 1);
      assert LastStamp(writes[..j]) == writes[j - 1].stamp;
    }
  }

  /** If trip stores are never late, all trials of a run are spaced, across trips too. */
  lemma TrialsSpacedIfTripsCurrent(cfg: Config, threads: nat, now: int, run: seq<Action>, i: nat, j: nat)
    requires 0 <= cfg.sleepWindow
    requires var writes := After(cfg, Start(threads, now), run).writes;
             TripsCurrent(writes) && i < j < |writes| && writes[j].trial
    ensures var writes := After(cfg, Start(threads, now), run).writes;
            writes[j].stamp > writes[i].stamp + cfg.sleepWindow
  {
    RunInv(cfg, threads, now, run);
    StampsGrow(cfg.sleepWindow, After(cfg, Start(threads, now), run).writes, i, j);
  }

  // With a single thread trip stores are never late.

  ghost predicate Alone(s: State) {
    && s.Valid() && |s.threads| <= 1
    && TripsCurrent(s.writes)
    && Past(s.writes, s.now)
    && (s.threads != [] ==> Dated(s.now, s.writes, s.threads[0]))
  }

  /** The last write has no later time. */
  ghost predicate Past(writes: seq<Write>, now: int) {
    writes != [] ==> LastStamp(writes) <= now
  }

  /** The times a thread carries have passed; a trip about to be stored is not older than the last write. */
  ghost predicate Dated(now: int, writes: seq<Write>, thread: Thread) {
    match thread
    case SwapTrial(_, timestamp) => timestamp <= now
    case StoreTrip(caller, stamp) => CallerDated(now, caller) && stamp <= now && Past(writes, stamp)
    case LoadOpen(caller) => CallerDated(now, caller)
    case LoadSnapshotTime(caller) => CallerDated(now, caller)
    case ReadHealthClock(caller, _) => CallerDated(now, caller)
    case SwapSnapshotTime(caller, _, _) => CallerDated(now, caller)
    case SumRequests(caller) => CallerDated(now, caller)
    case SumErrors(caller, _) => CallerDated(now, caller)
    case SwapOpen(caller, _) => CallerDated(now, caller)
    case ReadTripClock(caller) => CallerDated(now, caller)
    case _ => true
  }

  ghost predicate CallerDated(now: int, caller: Caller) {
    caller.TrialCheck? ==> caller.timestamp <= now
  }

  lemma ReturnDated(cfg: Config, now: int, writes: seq<Write>, caller: Caller)
    requires CallerDated(now, caller)
    ensures forall open :: Dated(now, writes, Return(cfg, caller, open))
    ensures forall h :: Dated(now, writes, Judged(cfg, caller, h))
  {
    hide Trips;
  }

  lemma CurrentPushed(writes: seq<Write>, w: Write)
    requires TripsCurrent(writes) && (!w.trial && writes != [] ==> LastStamp(writes) <= w.stamp)
    ensures TripsCurrent(writes + [w])
  {
  }

  lemma PerformDated(cfg: Config, now: int, b: Breaker, writes: seq<Write>, thread: Thread, f: Outcome)
    requires b.Valid() && TripsCurrent(writes) && Past(writes, now) && Dated(now, writes, thread)
    ensures var p := Perform(cfg, now, b, thread, f);
            TripsCurrent(writes + p.written) && Past(writes + p.written, now)
            && Dated(now, writes + p.written, p.thread)
  {
    hide TripsCurrent, Incremented, Rotate, Zeroed, Total, Judged, Return;
    assert writes + [] == writes;
    match thread
    case StoreTrip(caller, stamp) =>
      CurrentPushed(writes, Write(stamp, false));
      ReturnDated(cfg, now, writes + [Write(stamp, false)], caller);
    case SwapTrial(_, timestamp) => CurrentPushed(writes, Write(timestamp, true));
    case LoadOpen(caller) => ReturnDated(cfg, now, writes, caller);
    case ReadHealthClock(caller, _) => ReturnDated(cfg, now, writes, caller);
    case SwapSnapshotTime(caller, _, _) => ReturnDated(cfg, now, writes, caller);
    case SumErrors(caller, _) => ReturnDated(cfg, now, writes, caller);
    case SwapOpen(caller, _) => ReturnDated(cfg, now, writes, caller);
    case _ =>
  }

  lemma NextAlone(cfg: Config, s: State, a: Action)
    requires Alone(s)
    ensures Alone(Next(cfg, s, a))
  {
    hide TripsCurrent, Perform, Incremented;
    if a.Go? && a.thread < |s.threads| {
      PerformDated(cfg, s.now, s.breaker, s.writes, s.threads[a.thread], a.f);
    }
  }

  lemma {:induction false} RunAlone(cfg: Config, threads: nat, now: int, run: seq<Action>)
    requires threads <= 1
    ensures Alone(After(cfg, Start(threads, now), run))
  {
    hide Next, Alone;
    if run == [] {
      StartAlone(threads, now);
    } else {
      RunAlone(cfg, threads, now, run[..|run| - 1]);
      NextAlone(cfg, After(cfg, Start(threads, now), run[..|run| - 1]), run[|run| - 1]);
    }
  }

  lemma StartAlone(threads: nat, now: int)
    requires threads <= 1
    ensures Alone(Start(threads, now))
  {
  }
}
