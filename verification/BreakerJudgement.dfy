/**
 The evidence behind trips among interleaved threads: whoever opens the breaker has summed
 the requests and then the errors, and found enough of them and too many errors.
 */
module BreakerJudgement {
  import opened Clocks
  import opened Outcomes
  import opened RollingNumber
  import opened RollingWindow
  import opened BreakerModel
  import opened BreakerLockstep
  import opened BreakerInterleaving

  /** The state of a run that starts with a new breaker. */
  function Reached(cfg: Config, threads: nat, start: int, run: seq<Action>): (s: State)
    ensures s.Valid()
  {
    BreakerInterleaving.After(cfg, Start(threads, start), run)
  }

  predicate Goes(s: State, a: Action) {
    a.Go? && a.thread < |s.threads|
  }

  function WithRequest(s: State, a: Action, times: seq<int>): seq<int> {
    if a.StartDo? && a.thread < |s.threads| && s.threads[a.thread].Idle? then times + [s.now]
    else if Goes(s, a) && s.threads[a.thread].ResetRequests? then []
    else times
  }

  function WithError(s: State, a: Action, times: seq<int>): seq<int> {
    if Goes(s, a) && s.threads[a.thread].CountError? then times + [s.now]
    else if Goes(s, a) && s.threads[a.thread].ResetErrors? then []
    else times
  }

  /** The times of the requests counted since the breaker was made or a trial last reset them. */
  function RequestTimes(cfg: Config, threads: nat, start: int, run: seq<Action>): seq<int> {
    if run == [] then []
    else
      WithRequest(Reached(cfg, threads, start, run[..|run| - 1]), run[|run| - 1],
                  RequestTimes(cfg, threads, start, run[..|run| - 1]))
  }

  /** And those of the errors. */
  function ErrorTimes(cfg: Config, threads: nat, start: int, run: seq<Action>): seq<int> {
    if run == [] then []
    else
      WithError(Reached(cfg, threads, start, run[..|run| - 1]), run[|run| - 1],
                ErrorTimes(cfg, threads, start, run[..|run| - 1]))
  }

  // The counters record these times.

  ghost predicate Recorded(s: State, requests: seq<int>, errors: seq<int>) {
    && Sized(s.breaker.requests) && Records(s.breaker.requests, requests) && s.breaker.requests.anchor <= s.now
    && Sized(s.breaker.errors) && Records(s.breaker.errors, errors) && s.breaker.errors.anchor <= s.now
    && s.breaker.snapshot == Health(0, 0)
  }

  lemma CounterRecorded(c: Counter, times: seq<int>, now: int)
    requires Sized(c) && Records(c, times) && c.anchor <= now
    ensures Sized(Rotate(c, now)) && Records(Rotate(c, now), times) && Rotate(c, now).anchor <= now
    ensures Sized(Incremented(c, now)) && Records(Incremented(c, now), times + [now])
            && Incremented(c, now).anchor <= now
    ensures Sized(Zeroed(c, now)) && Records(Zeroed(c, now), [])
    ensures CountsLatest(DEFAULT_BUCKET_SIZE, DEFAULT_WINDOW_BUCKETS, Total(c, now), times, now)
  {
    hide Records, CountsLatest;
    RotateRecords(c, times, now);
    IncrementRecords(c, times, now);
    NewRecordsNothing(c.bucketSize, |c.buckets|, now);
    TotalCountsLatest(c, times, now);
  }

  lemma GoRecorded(cfg: Config, s: State, a: Action, requests: seq<int>, errors: seq<int>)
    requires Recorded(s, requests, errors) && Goes(s, a)
    ensures s.Valid()
            && Recorded(BreakerInterleaving.Next(cfg, s, a), WithRequest(s, a, requests), WithError(s, a, errors))
  {
    hide Records, Rotate, Incremented, Zeroed, Total, Judged, Return;
    CounterRecorded(s.breaker.requests, requests, s.now);
    CounterRecorded(s.breaker.errors, errors, s.now);
    match s.threads[a.thread]
    case SumRequests(_) =>
    case SumErrors(_, _) =>
    case CountError(_) =>
    case ResetErrors =>
    case ResetRequests =>
    case _ =>
  }

  lemma NextRecorded(cfg: Config, s: State, a: Action, requests: seq<int>, errors: seq<int>)
    requires Recorded(s, requests, errors)
    ensures s.Valid()
            && Recorded(BreakerInterleaving.Next(cfg, s, a), WithRequest(s, a, requests), WithError(s, a, errors))
  {
    hide Records, Rotate, Incremented, Perform;
    CounterRecorded(s.breaker.requests, requests, s.now);
    if Goes(s, a) {
      GoRecorded(cfg, s, a, requests, errors);
    }
  }

  lemma {:induction false} RunRecorded(cfg: Config, threads: nat, start: int, run: seq<Action>)
    ensures var s := Reached(cfg, threads, start, run);
            Recorded(s, RequestTimes(cfg, threads, start, run), ErrorTimes(cfg, threads, start, run))
  {
    hide Recorded, WithRequest, WithError, BreakerInterleaving.Next;
    if run == [] {
      StartRecorded(cfg, threads, start);
    } else {
      var before := run[..|run| - 1];
      RunRecorded(cfg, threads, start, before);
      NextRecorded(cfg, Reached(cfg, threads, start, before), run[|run| - 1],
                   RequestTimes(cfg, threads, start, before), ErrorTimes(cfg, threads, start, before));
    }
  }

  lemma StartRecorded(cfg: Config, threads: nat, start: int)
    ensures Recorded(Reached(cfg, threads, start, []), RequestTimes(cfg, threads, start, []),
                     ErrorTimes(cfg, threads, start, []))
  {
    hide Records;
    NewRecordsNothing(DEFAULT_BUCKET_SIZE, DEFAULT_WINDOW_BUCKETS, start);
  }

  // What the threads have seen.

  /** The i-th action of the run is this thread's sum of the requests, which counts the latest m of them. */
  ghost predicate RequestsSeen(cfg: Config, threads: nat, start: int, run: seq<Action>, t: nat, i: nat, m: int) {
    i < |run| &&
    var s := Reached(cfg, threads, start, run[..i]);
    && Goes(s, run[i]) && run[i].thread == t && s.threads[t].SumRequests?
    && CountsLatest(DEFAULT_BUCKET_SIZE, DEFAULT_WINDOW_BUCKETS, m, RequestTimes(cfg, threads, start, run[..i]), s.now)
  }

  ghost predicate ErrorsSeen(cfg: Config, threads: nat, start: int, run: seq<Action>, t: nat, i: nat, e: int) {
    i < |run| &&
    var s := Reached(cfg, threads, start, run[..i]);
    && Goes(s, run[i]) && run[i].thread == t && s.threads[t].SumErrors?
    && CountsLatest(DEFAULT_BUCKET_SIZE, DEFAULT_WINDOW_BUCKETS, e, ErrorTimes(cfg, threads, start, run[..i]), s.now)
  }

  /** The thread does nothing in this stretch of the run. */
  ghost predicate Waits(run: seq<Action>, t: nat, from: int, to: int) {
    forall i :: from <= i < to && 0 <= i < |run| ==> !(run[i].Go? && run[i].thread == t)
  }

  /** The last two operations of the thread have summed the requests and the errors. */
  ghost predicate BothSeen(cfg: Config, threads: nat, start: int, run: seq<Action>, t: nat, i: nat, j: nat, h: Health) {
    && i < j && RequestsSeen(cfg, threads, start, run, t, i, h.requests) && Waits(run, t, i + 1, j)
    && ErrorsSeen(cfg, threads, start, run, t, j, h.errors) && Waits(run, t, j + 1, |run|)
  }

  /** A thread that is to sum the errors has just summed the requests; one that is to open the breaker has
      summed both, and found enough requests and too many errors. */
  ghost predicate ThreadJudges(cfg: Config, threads: nat, start: int, run: seq<Action>, t: nat, thread: Thread) {
    match thread
    case SumErrors(_, m) =>
      exists i: nat :: RequestsSeen(cfg, threads, start, run, t, i, m) && Waits(run, t, i + 1, |run|)
    case SwapOpen(_, h) =>
      && Trips(cfg, h)
      && exists i: nat, j: nat :: BothSeen(cfg, threads, start, run, t, i, j, h)
    case _ => true
  }

  lemma SeenLater(cfg: Config, threads: nat, start: int, run: seq<Action>, a: Action, t: nat, i: nat, x: int)
    ensures RequestsSeen(cfg, threads, start, run, t, i, x) ==> RequestsSeen(cfg, threads, start, run + [a], t, i, x)
    ensures ErrorsSeen(cfg, threads, start, run, t, i, x) ==> ErrorsSeen(cfg, threads, start, run + [a], t, i, x)
  {
    if i < |run| {
      assert (run + [a])[..i] == run[..i];
    }
  }

  lemma SeenBefore(cfg: Config, threads: nat, start: int, run: seq<Action>, t: nat, i: nat, m: int)
    requires RequestsSeen(cfg, threads, start, run, t, i, m)
    ensures i < |run|
  {
  }

  lemma JudgesLater(cfg: Config, threads: nat, start: int, run: seq<Action>, a: Action, t: nat, thread: Thread)
    requires ThreadJudges(cfg, threads, start, run, t, thread) && !(a.Go? && a.thread == t)
    ensures ThreadJudges(cfg, threads, start, run + [a], t, thread)
  {
    hide RequestsSeen, ErrorsSeen;
    match thread
    case SumErrors(_, m) =>
      var i: nat :| RequestsSeen(cfg, threads, start, run, t, i, m) && Waits(run, t, i + 1, |run|);
      SeenLater(cfg, threads, start, run, a, t, i, m);
    case SwapOpen(_, h) =>
      var i: nat, j: nat :| BothSeen(cfg, threads, start, run, t, i, j, h);
      SeenLater(cfg, threads, start, run, a, t, i, h.requests);
      SeenLater(cfg, threads, start, run, a, t, j, h.errors);
      assert BothSeen(cfg, threads, start, run + [a], t, i, j, h);
    case _ =>
  }

  lemma RequestsSummed(cfg: Config, threads: nat, start: int, run: seq<Action>, a: Action)
    requires var s := Reached(cfg, threads, start, run);
             Goes(s, a) && s.threads[a.thread].SumRequests?
    ensures var s := Reached(cfg, threads, start, run);
            ThreadJudges(cfg, threads, start, run + [a], a.thread,
                         SumErrors(s.threads[a.thread].caller, Total(s.breaker.requests, s.now)))
  {
    hide Rotate, CountsLatest, Total, RequestTimes, ErrorTimes, Reached;
    RunRecorded(cfg, threads, start, run);
    var s, r := Reached(cfg, threads, start, run), run + [a];
    assert r[..|run|] == run && r[|run|] == a;
    CounterRecorded(s.breaker.requests, RequestTimes(cfg, threads, start, run), s.now);
    assert RequestsSeen(cfg, threads, start, r, a.thread, |run|, Total(s.breaker.requests, s.now));
    assert Waits(r, a.thread, |run| + 1, |r|);
  }

  lemma ErrorsSummed(cfg: Config, threads: nat, start: int, run: seq<Action>, a: Action) returns (i: nat)
    requires var s := Reached(cfg, threads, start, run);
             && Goes(s, a) && s.threads[a.thread].SumErrors?
             && ThreadJudges(cfg, threads, start, run, a.thread, s.threads[a.thread])
    ensures var s := Reached(cfg, threads, start, run);
            BothSeen(cfg, threads, start, run + [a], a.thread, i, |run|,
                     Health(s.threads[a.thread].requests, Total(s.breaker.errors, s.now)))
  {
    hide Rotate, CountsLatest, Total, RequestTimes, ErrorTimes, Reached;
    RunRecorded(cfg, threads, start, run);
    var s, r := Reached(cfg, threads, start, run), run + [a];
    assert r[..|run|] == run && r[|run|] == a;
    CounterRecorded(s.breaker.errors, ErrorTimes(cfg, threads, start, run), s.now);
    assert ErrorsSeen(cfg, threads, start, r, a.thread, |run|, Total(s.breaker.errors, s.now));
    var m := s.threads[a.thread].requests;
    i :| RequestsSeen(cfg, threads, start, run, a.thread, i, m) && Waits(run, a.thread, i + 1, |run|);
    SeenLater(cfg, threads, start, run, a, a.thread, i, m);
  }

  /** The thread that goes on. */
  lemma GoJudges(cfg: Config, threads: nat, start: int, run: seq<Action>, a: Action)
    requires 0 <= cfg.errorThresholdPercentage
    requires var s := Reached(cfg, threads, start, run);
             Goes(s, a) && ThreadJudges(cfg, threads, start, run, a.thread, s.threads[a.thread])
    ensures var s := Reached(cfg, threads, start, run);
            ThreadJudges(cfg, threads, start, run + [a], a.thread,
                         Perform(cfg, s.now, s.breaker, s.threads[a.thread], a.f).thread)
  {
    hide Rotate, Incremented, Zeroed, Total, Reached, BothSeen, RequestsSeen;
    var s := Reached(cfg, threads, start, run);
    NothingStored(cfg, threads, start, run);
    match s.threads[a.thread]
    case SumRequests(_) => RequestsSummed(cfg, threads, start, run, a);
    case SumErrors(_, m) => var i := ErrorsSummed(cfg, threads, start, run, a);
    case _ =>
  }

  /** The snapshot that is read when none is taken does not trip the breaker. */
  lemma NothingStored(cfg: Config, threads: nat, start: int, run: seq<Action>)
    requires 0 <= cfg.errorThresholdPercentage
    ensures !Trips(cfg, Reached(cfg, threads, start, run).breaker.snapshot)
  {
    RunRecorded(cfg, threads, start, run);
  }

  lemma {:induction false} ThreadsJudge(cfg: Config, threads: nat, start: int, run: seq<Action>, t: nat)
    requires 0 <= cfg.errorThresholdPercentage && t < |Reached(cfg, threads, start, run).threads|
    ensures ThreadJudges(cfg, threads, start, run, t, Reached(cfg, threads, start, run).threads[t])
  {
    if run != [] {
      var before, a := run[..|run| - 1], run[|run| - 1];
      var s := Reached(cfg, threads, start, before);
      hide ThreadJudges, Perform;
      ThreadsJudge(cfg, threads, start, before, t);
      assert before + [a] == run;
      if Goes(s, a) && a.thread == t {
        GoJudges(cfg, threads, start, before, a);
      } else {
        JudgesLater(cfg, threads, start, before, a, t, s.threads[t]);
        OthersDoNotJudge(cfg, threads, start, run, t);
      }
    }
  }

  lemma OthersDoNotJudge(cfg: Config, threads: nat, start: int, run: seq<Action>, t: nat)
    ensures ThreadJudges(cfg, threads, start, run, t, LoadTrialTime)
    ensures ThreadJudges(cfg, threads, start, run, t, LoadOpen(Outside))
  {
  }

  /** In every interleaving, whenever an action opens the breaker, it is a swap by a thread whose last two
      operations have summed the latest requests and the latest errors, none of them past the limit age,
      and found enough requests and too many errors. */
  lemma EveryTripWasJudged(cfg: Config, threads: nat, start: int, run: seq<Action>, a: Action)
    requires 0 <= cfg.errorThresholdPercentage
    ensures var s := Reached(cfg, threads, start, run);
            !s.breaker.open && BreakerInterleaving.Next(cfg, s, a).breaker.open ==>
              && Goes(s, a) && s.threads[a.thread].SwapOpen?
              && Trips(cfg, s.threads[a.thread].judged)
              && exists i: nat, j: nat :: BothSeen(cfg, threads, start, run, a.thread, i, j, s.threads[a.thread].judged)
  {
    hide BothSeen, Reached, Incremented, Rotate, Zeroed, Total, Judged, Return;
    var s := Reached(cfg, threads, start, run);
    if !s.breaker.open && BreakerInterleaving.Next(cfg, s, a).breaker.open {
      ThreadsJudge(cfg, threads, start, run, a.thread);
    }
  }

  // What admits a function.

  /** The i-th action of the run is this thread's load of the state, outside a trial, which finds the breaker closed. */
  ghost predicate FindsClosed(cfg: Config, threads: nat, start: int, run: seq<Action>, t: nat, i: nat) {
    i < |run| &&
    var s := Reached(cfg, threads, start, run[..i]);
    Goes(s, run[i]) && run[i].thread == t && s.threads[t] == LoadOpen(RequestCheck(false)) && !s.breaker.open
  }

  /** The i-th action is this thread's swap of the trial time,
  and it succeeds a sleep window after the time it replaces. */
  ghost predicate SwapsTrial(cfg: Config, threads: nat, start: int, run: seq<Action>, t: nat, i: nat) {
    i < |run| &&
    var s := Reached(cfg, threads, start, run[..i]);
    && Goes(s, run[i]) && run[i].thread == t && s.threads[t].SwapTrial?
    && s.breaker.lastTrialTime == s.threads[t].last < s.threads[t].timestamp - cfg.sleepWindow
  }

  /** The thread has been in the same call since. */
  ghost predicate Busy(cfg: Config, threads: nat, start: int, run: seq<Action>, t: nat, i: nat) {
    forall x :: i < x <= |run| ==>
      t < |Reached(cfg, threads, start, run[..x]).threads| && !Reached(cfg, threads, start, run[..x]).threads[t].Idle?
  }

  function CallerOf(thread: Thread): Caller {
    match thread
    case LoadOpen(caller) => caller
    case LoadSnapshotTime(caller) => caller
    case ReadHealthClock(caller, _) => caller
    case SwapSnapshotTime(caller, _, _) => caller
    case SumRequests(caller) => caller
    case SumErrors(caller, _) => caller
    case SwapOpen(caller, _) => caller
    case ReadTripClock(caller) => caller
    case StoreTrip(caller, _) => caller
    case _ => Outside
  }

  /** Past the load of the state that found the breaker closed. */
  predicate Passing(thread: Thread) {
    || (CallerOf(thread) == RequestCheck(false) && !thread.LoadOpen?)
    || thread == Thread.Run(false)
  }

  predicate Trying(thread: Thread) {
    CallerOf(thread) == RequestCheck(true) || thread == Thread.Run(true)
  }

  ghost predicate Admitted(cfg: Config, threads: nat, start: int, run: seq<Action>, t: nat, thread: Thread) {
    && (Passing(thread) ==>
          exists i: nat :: FindsClosed(cfg, threads, start, run, t, i) && Busy(cfg, threads, start, run, t, i))
    && (Trying(thread) ==>
          exists i: nat :: SwapsTrial(cfg, threads, start, run, t, i) && Busy(cfg, threads, start, run, t, i))
  }

  lemma FoundLater(cfg: Config, threads: nat, start: int, run: seq<Action>, a: Action, t: nat, i: nat)
    ensures FindsClosed(cfg, threads, start, run, t, i) ==> FindsClosed(cfg, threads, start, run + [a], t, i)
    ensures SwapsTrial(cfg, threads, start, run, t, i) ==> SwapsTrial(cfg, threads, start, run + [a], t, i)
  {
    hide Reached;
    if i < |run| {
      assert (run + [a])[..i] == run[..i];
    }
  }

  lemma BusyLater(cfg: Config, threads: nat, start: int, run: seq<Action>, a: Action, t: nat, i: nat)
    requires Busy(cfg, threads, start, run, t, i)
    requires var s := Reached(cfg, threads, start, run + [a]);
             t < |s.threads| && !s.threads[t].Idle?
    ensures Busy(cfg, threads, start, run + [a], t, i)
  {
    hide Reached;
    var r := run + [a];
    assert r[..|r|] == r && forall x :: 0 <= x <= |run| ==> r[..x] == run[..x];
  }

  lemma AdmittedLater(cfg: Config, threads: nat, start: int, run: seq<Action>, a: Action, t: nat, thread: Thread)
    requires Admitted(cfg, threads, start, run, t, thread)
    requires var s := Reached(cfg, threads, start, run + [a]);
             t < |s.threads| && !s.threads[t].Idle?
    ensures Admitted(cfg, threads, start, run + [a], t, thread)
  {
    hide Reached, Passing, Trying, FindsClosed, SwapsTrial, Busy;
    if Passing(thread) {
      var i: nat :| FindsClosed(cfg, threads, start, run, t, i) && Busy(cfg, threads, start, run, t, i);
      FoundLater(cfg, threads, start, run, a, t, i);
      BusyLater(cfg, threads, start, run, a, t, i);
    }
    if Trying(thread) {
      var i: nat :| SwapsTrial(cfg, threads, start, run, t, i) && Busy(cfg, threads, start, run, t, i);
      FoundLater(cfg, threads, start, run, a, t, i);
      BusyLater(cfg, threads, start, run, a, t, i);
    }
  }

  /** Where an operation leads: on the way it came, past a closed breaker, or to a trial. */
  lemma OnwardsOrAdmitted(cfg: Config, now: int, b: Breaker, thread: Thread, f: Outcome)
    requires b.Valid()
    ensures var p := Perform(cfg, now, b, thread, f).thread;
            && (Passing(p) ==> Passing(thread) || (thread == LoadOpen(RequestCheck(false)) && !b.open))
            && (Trying(p) ==> Trying(thread) || (thread.SwapTrial? && b.lastTrialTime == thread.last))
  {
    hide Rotate, Incremented, Zeroed, Total, Trips;
  }

  lemma JustAdmitted(cfg: Config, threads: nat, start: int, run: seq<Action>, a: Action)
    requires Goes(Reached(cfg, threads, start, run), a)
    requires var s := Reached(cfg, threads, start, run + [a]);
             a.thread < |s.threads| && !s.threads[a.thread].Idle?
    ensures var s := Reached(cfg, threads, start, run);
            var thread := s.threads[a.thread];
            && (thread == LoadOpen(RequestCheck(false)) && !s.breaker.open ==>
                  FindsClosed(cfg, threads, start, run + [a], a.thread, |run|))
            && (thread.SwapTrial? && s.breaker.lastTrialTime == thread.last ==>
                  SwapsTrial(cfg, threads, start, run + [a], a.thread, |run|))
            && Busy(cfg, threads, start, run + [a], a.thread, |run|)
  {
    hide Perform;
    var r := run + [a];
    assert r[..|run|] == run && r[..|r|] == r;
    RunInv(cfg, threads, start, run);
  }

  /** What an action makes of a thread: nothing, unless the thread goes on or starts a call. */
  lemma ThreadGoes(cfg: Config, s: State, a: Action, t: nat)
    requires s.Valid() && t < |BreakerInterleaving.Next(cfg, s, a).threads|
    ensures t < |s.threads|
    ensures var thread := BreakerInterleaving.Next(cfg, s, a).threads[t];
            if Goes(s, a) && a.thread == t then thread == Perform(cfg, s.now, s.breaker, s.threads[t], a.f).thread
            else thread == s.threads[t] || thread == LoadTrialTime || thread == LoadOpen(Outside)
  {
    hide Perform, Incremented;
  }

  lemma NextAdmitted(cfg: Config, threads: nat, start: int, run: seq<Action>, a: Action, t: nat)
    requires var s, s' := Reached(cfg, threads, start, run), Reached(cfg, threads, start, run + [a]);
             t < |s.threads| && t < |s'.threads| && Admitted(cfg, threads, start, run, t, s.threads[t])
    ensures Admitted(cfg, threads, start, run + [a], t, Reached(cfg, threads, start, run + [a]).threads[t])
  {
    var s, s' := Reached(cfg, threads, start, run), Reached(cfg, threads, start, run + [a]);
    assert s' == BreakerInterleaving.Next(cfg, s, a) by {
      assert (run + [a])[..|run|] == run;
    }
    hide Reached, Perform, FindsClosed, SwapsTrial, Busy, BreakerInterleaving.Next;
    ThreadGoes(cfg, s, a, t);
    if Passing(s'.threads[t]) || Trying(s'.threads[t]) {
      AdmittedLater(cfg, threads, start, run, a, t, s.threads[t]);
      if Goes(s, a) && a.thread == t {
        OnwardsOrAdmitted(cfg, s.now, s.breaker, s.threads[t], a.f);
        JustAdmitted(cfg, threads, start, run, a);
      }
    }
  }

  lemma {:induction false} AllAdmitted(cfg: Config, threads: nat, start: int, run: seq<Action>, t: nat)
    requires t < |Reached(cfg, threads, start, run).threads|
    ensures Admitted(cfg, threads, start, run, t, Reached(cfg, threads, start, run).threads[t])
  {
    if run != [] {
      var before, a := run[..|run| - 1], run[|run| - 1];
      assert before + [a] == run;
      ThreadGoes(cfg, Reached(cfg, threads, start, before), a, t);
      hide Admitted, BreakerInterleaving.Next;
      AllAdmitted(cfg, threads, start, before, t);
      NextAdmitted(cfg, threads, start, before, a, t);
    }
  }

  /** In every interleaving a function that runs is a trial, whose thread has swapped the trial time a sleep window
      after the time it replaced, or its thread has found the breaker closed in the same call. */
  lemma OnlyTrialsPassOpenBreaker(cfg: Config, threads: nat, start: int, run: seq<Action>, t: nat)
    requires var s := Reached(cfg, threads, start, run);
             t < |s.threads| && s.threads[t].Run?
    ensures var trial := Reached(cfg, threads, start, run).threads[t].trial;
            exists i: nat ::
              && (if trial then SwapsTrial(cfg, threads, start, run, t, i)
                  else FindsClosed(cfg, threads, start, run, t, i))
              && Busy(cfg, threads, start, run, t, i)
  {
    hide FindsClosed, SwapsTrial, Busy, Reached;
    AllAdmitted(cfg, threads, start, run, t);
  }
}
