/**
 With two threads a trip can store its time late: its thread has opened the breaker, and read
 the clock, but not yet stored the time when the other thread's trial passes. So trials are
 spaced by the sleep window in every run just when no two threads use the breaker.
 */
module BreakerLateTrip {
  import opened Clocks
  import opened Outcomes
  import opened Numbers
  import opened RollingNumber
  import opened BreakerModel
  import opened BreakerExamples
  import opened BreakerLockstep
  import opened BreakerParting
  import opened BreakerInterleaving
  import opened BreakerSolo

  const FAILED := Returned(Some(DeadlineExceeded))
  const FAILED_TRIAL := Executed(true, Returned(Some(CircuitOpenError)))

  /** A thread that has not made a call. */
  const NEW := Idle(Waited)

  /** Two threads at work, and others idle. */
  function Two(n: nat, first: Thread, second: Thread): (threads: seq<Thread>)
    requires 2 <= n
    ensures |threads| == n && threads[0] == first && threads[1] == second
  {
    [first, second] + seq(n - 2, _ => NEW)
  }

  lemma TwoUpdated(n: nat, a: Thread, b: Thread, c: Thread)
    requires 2 <= n
    ensures Two(n, a, b)[0 := c] == Two(n, c, b) && Two(n, a, b)[1 := c] == Two(n, a, c)
  {
  }

  /** When thread 0 takes its snapshot, and trips: after the snapshot interval and the sleep window. */
  function TripTime(cfg: Config): int {
    cfg.healthSnapshotInterval + cfg.sleepWindow + 1
  }

  /** The snapshot time is taken; n requests and errors are counted at the same time. */
  function Taken(cfg: Config, n: nat): Breaker {
    var c := Only(0, 0, n, TripTime(cfg));
    Closed(c, c, TripTime(cfg))
  }

  ghost predicate Durations(cfg: Config) {
    Ordinary(cfg) && 0 <= cfg.sleepWindow
  }

  /** A failing call takes no snapshot any more. */
  lemma FailureCountsTaken(cfg: Config, n: nat)
    requires Durations(cfg)
    ensures Taken(cfg, n).Valid()
    ensures Do(Dropped, cfg, PLAIN, Still(TripTime(cfg)), Taken(cfg, n), 0, FAILED).breaker == Taken(cfg, n + 1)
    ensures AdmissionWrites(cfg, Counted(Taken(cfg, n), TripTime(cfg)), TripTime(cfg)) == []
  {
    hide Only, Incremented, Rotate, Do, IsOpen, TripTime;
    var now, c := TripTime(cfg), Only(0, 0, n, TripTime(cfg));
    OnlyStays(0, 0, n, now, now);
    QuietDo(cfg, c, c, now, now, FAILED);
    QuietAsk(cfg, Incremented(c, now), c, now, now, 0);
    QuietAsk(cfg, Incremented(c, now), c, now, now, 1);
  }

  function Mid(now: int, b: Breaker, n: nat, first: Thread, second: Thread, writes: seq<Write>): State
    requires 2 <= n
  {
    State(now, b, Two(n, first, second), writes)
  }

  /** Thread 1 makes so many failing calls, while thread 0 waits. */
  lemma {:induction false} FailuresTaken(cfg: Config, n: nat, first: Thread, second: Thread, from: nat, count: nat)
    returns (run: seq<Action>, rest: Thread)
    requires Durations(cfg) && 2 <= n && second.Idle?
    ensures Taken(cfg, from).Valid() && rest.Idle?
    ensures After(cfg, Mid(TripTime(cfg), Taken(cfg, from), n, first, second, []), run)
            == Mid(TripTime(cfg), Taken(cfg, from + count), n, first, rest, [])
  {
    hide Taken, Do, AdmissionWrites, Next, TripTime;
    FailureCountsTaken(cfg, from);
    run, rest := [], second;
    if count > 0 {
      FailureCountsTaken(cfg, from + count - 1);
      var earlier, before := FailuresTaken(cfg, n, first, second, from, count - 1);
      var s := Mid(TripTime(cfg), Taken(cfg, from + count - 1), n, first, before, []);
      var k := LoneCallIsDo(cfg, s, 1, FAILED);
      AfterAppend(cfg, Mid(TripTime(cfg), Taken(cfg, from), n, first, second, []), earlier, CallOf(1, FAILED, k));
      run := earlier + CallOf(1, FAILED, k);
      rest := Idle(Do(Dropped, cfg, PLAIN, Still(s.now), s.breaker, 0, FAILED).value);
      TwoUpdated(n, first, before, rest);
    }
  }

  // The stretches of the run.

  lemma FirstGoes(cfg: Config, now: int, b: Breaker, n: nat, first: Thread, second: Thread, writes: seq<Write>, k: nat)
    requires 2 <= n && b.Valid()
    ensures var q := Solo(cfg, now, Progress(first, b, []), FAILED, k);
            After(cfg, Mid(now, b, n, first, second, writes), Goes(0, FAILED, k))
            == Mid(now, q.breaker, n, q.thread, second, writes + q.written)
  {
    hide Solo, After, Two;
    GoesAdvance(cfg, Mid(now, b, n, first, second, writes), 0, FAILED, k);
    TwoUpdated(n, first, second, Solo(cfg, now, Progress(first, b, []), FAILED, k).thread);
  }

  lemma SecondGoes(cfg: Config, now: int, b: Breaker, n: nat, first: Thread, second: Thread, writes: seq<Write>, k: nat)
    requires 2 <= n && b.Valid()
    ensures var q := Solo(cfg, now, Progress(second, b, []), FAILED, k);
            After(cfg, Mid(now, b, n, first, second, writes), Goes(1, FAILED, k))
            == Mid(now, q.breaker, n, first, q.thread, writes + q.written)
  {
    hide Solo, After, Two;
    GoesAdvance(cfg, Mid(now, b, n, first, second, writes), 1, FAILED, k);
    TwoUpdated(n, first, second, Solo(cfg, now, Progress(second, b, []), FAILED, k).thread);
  }

  /** Thread 0 asks, and takes the snapshot time. */
  lemma TimeTaken(cfg: Config)
    requires Durations(cfg)
    ensures var now, b := TripTime(cfg), NewBreaker(Still(TripTime(cfg)), 0);
            Solo(cfg, now, Progress(LoadOpen(Outside), b, []), FAILED, 4)
            == Progress(SumRequests(Outside), Taken(cfg, 0), [])
  {
    hide Solo, Only;
    var now, b := TripTime(cfg), NewBreaker(Still(TripTime(cfg)), 0);
    var p := Progress(LoadOpen(Outside), b, []);
    NewIsOnly(0, now);
    SoloNone(cfg, now, p, FAILED);
    SoloMore(cfg, now, p, FAILED, 0);
    SoloMore(cfg, now, p, FAILED, 1);
    SoloMore(cfg, now, p, FAILED, 2);
    SoloMore(cfg, now, p, FAILED, 3);
  }

  /** The requests are summed ... */
  lemma RequestsSummed(cfg: Config, requests: nat)
    requires Durations(cfg)
    ensures Taken(cfg, requests).Valid()
    ensures Solo(cfg, TripTime(cfg), Progress(SumRequests(Outside), Taken(cfg, requests), []), FAILED, 1)
         == Progress(SumErrors(Outside, requests), Taken(cfg, requests), [])
  {
    hide Solo, Only, TripTime, Rotate;
    OnlyStays(0, 0, requests, TripTime(cfg), TripTime(cfg));
    SoloOne(cfg, TripTime(cfg), Progress(SumRequests(Outside), Taken(cfg, requests), []), FAILED);
  }

  /** ... and later the errors, which are more by then: the breaker opens. */
  lemma ErrorsSummed(cfg: Config, requests: nat, errors: nat)
    requires Durations(cfg) && cfg.requestVolumeThreshold <= requests
    requires errors * 100 > cfg.errorThresholdPercentage * requests
    ensures Taken(cfg, errors).Valid()
    ensures Solo(cfg, TripTime(cfg), Progress(SumErrors(Outside, requests), Taken(cfg, errors), []), FAILED, 3)
         == Progress(StoreTrip(Outside, TripTime(cfg)), Taken(cfg, errors).(open := true), [])
  {
    hide Solo, Only, TripTime, Rotate;
    var p := Progress(SumErrors(Outside, requests), Taken(cfg, errors), []);
    OnlyStays(0, 0, errors, TripTime(cfg), TripTime(cfg));
    SoloNone(cfg, TripTime(cfg), p, FAILED);
    SoloMore(cfg, TripTime(cfg), p, FAILED, 0);
    SoloMore(cfg, TripTime(cfg), p, FAILED, 1);
    SoloMore(cfg, TripTime(cfg), p, FAILED, 2);
  }

  /** A call of an open breaker, more than a sleep window after the time it finds: a trial. */
  lemma TrialPasses(cfg: Config, b: Breaker, now: int)
    requires b.Valid() && b.open && now > b.lastTrialTime + cfg.sleepWindow
    ensures Solo(cfg, now, Progress(LoadTrialTime, b, []), FAILED, 4)
         == Progress(LoadOpen(RequestCheck(true)), b.(lastTrialTime := now), [Write(now, true)])
  {
    hide Solo;
    var p := Progress(LoadTrialTime, b, []);
    SoloNone(cfg, now, p, FAILED);
    SoloMore(cfg, now, p, FAILED, 0);
    SoloMore(cfg, now, p, FAILED, 1);
    SoloMore(cfg, now, p, FAILED, 2);
    SoloMore(cfg, now, p, FAILED, 3);
  }

  /** The trial goes on and fails. */
  lemma TrialFails(cfg: Config, b: Breaker, now: int)
    requires b.Valid() && b.open
    ensures Solo(cfg, now, Progress(LoadOpen(RequestCheck(true)), b, []), FAILED, 3)
         == Progress(Idle(FAILED_TRIAL), b.(errors := Incremented(b.errors, now)), [])
  {
    hide Solo, Incremented;
    var p := Progress(LoadOpen(RequestCheck(true)), b, []);
    SoloNone(cfg, now, p, FAILED);
    SoloMore(cfg, now, p, FAILED, 0);
    SoloMore(cfg, now, p, FAILED, 1);
    SoloMore(cfg, now, p, FAILED, 2);
  }

  /** The late store of thread 0. */
  lemma StoreIsLate(cfg: Config, b: Breaker, now: int, stamp: int)
    requires b.Valid()
    ensures Solo(cfg, now, Progress(StoreTrip(Outside, stamp), b, []), FAILED, 1)
         == Progress(Idle(Answered(true)), b.(lastTrialTime := stamp), [Write(stamp, false)])
  {
    hide Solo;
    SoloOne(cfg, now, Progress(StoreTrip(Outside, stamp), b, []), FAILED);
  }

  /** Thread 0 takes the snapshot time and pauses. */
  lemma TakenRun(cfg: Config, n: nat) returns (run: seq<Action>)
    requires Durations(cfg) && 2 <= n
    ensures Taken(cfg, 0).Valid()
    ensures After(cfg, Start(n, TripTime(cfg)), run)
            == Mid(TripTime(cfg), Taken(cfg, 0), n, SumRequests(Outside), NEW, [])
  {
    hide Taken, Solo, Next, TripTime, Two, Goes, NewBreaker, After;
    var now, s := TripTime(cfg), Start(n, TripTime(cfg));
    StartIsTwo(n, now);
    TwoUpdated(n, NEW, NEW, LoadOpen(Outside));
    AskStarts(cfg, s);
    TimeTaken(cfg);
    FirstGoes(cfg, now, NewBreaker(Still(now), 0), n, LoadOpen(Outside), NEW, [], 4);
    AfterAppend(cfg, s, [StartIsOpen(0)], Goes(0, FAILED, 4));
    run := [StartIsOpen(0)] + Goes(0, FAILED, 4);
  }

  /** Then it sums the requests of some failing calls ... */
  lemma SummedRun(cfg: Config, n: nat, requests: nat) returns (run: seq<Action>, rest: Thread)
    requires Durations(cfg) && 2 <= n
    ensures Taken(cfg, 0).Valid() && Taken(cfg, requests).Valid() && rest.Idle?
    ensures After(cfg, Mid(TripTime(cfg), Taken(cfg, 0), n, SumRequests(Outside), NEW, []), run)
         == Mid(TripTime(cfg), Taken(cfg, requests), n, SumErrors(Outside, requests), rest, [])
  {
    hide Taken, Solo, Next, TripTime, Two, Goes, After, Durations;
    var s := Mid(TripTime(cfg), Taken(cfg, 0), n, SumRequests(Outside), NEW, []);
    run, rest := FailuresTaken(cfg, n, SumRequests(Outside), NEW, 0, requests);
    assert s.breaker.Valid();
    hide Mid;
    RequestsSummed(cfg, requests);
    var none: seq<Write> := [];
    assert none + none == none;
    FirstGoes(cfg, TripTime(cfg), Taken(cfg, requests), n, SumRequests(Outside), rest, [], 1);
    AfterAppend(cfg, s, run, Goes(0, FAILED, 1));
    run := run + Goes(0, FAILED, 1);
  }

  /** ... and after more of them the errors; it opens the breaker, and pauses before its store. */
  lemma OpeningRun(cfg: Config, n: nat, second: Thread, requests: nat, more: nat)
    returns (run: seq<Action>, rest: Thread)
    requires Durations(cfg) && 2 <= n && second.Idle? && cfg.requestVolumeThreshold <= requests
    requires (requests + more) * 100 > cfg.errorThresholdPercentage * requests
    ensures Taken(cfg, requests).Valid() && Taken(cfg, requests + more).Valid() && rest.Idle?
    ensures After(cfg, Mid(TripTime(cfg), Taken(cfg, requests), n, SumErrors(Outside, requests), second, []), run)
         == Mid(TripTime(cfg), Taken(cfg, requests + more).(open := true), n, StoreTrip(Outside, TripTime(cfg)), rest,
                [])
  {
    hide Taken, Solo, Next, TripTime, Two, Goes, After, Durations;
    var s, errors := Mid(TripTime(cfg), Taken(cfg, requests), n, SumErrors(Outside, requests), second, []),
        requests + more;
    run, rest := FailuresTaken(cfg, n, SumErrors(Outside, requests), second, requests, more);
    ErrorsSummed(cfg, requests, errors);
    FirstGoes(cfg, TripTime(cfg), Taken(cfg, errors), n, SumErrors(Outside, requests), rest, [], 3);
    AfterAppend(cfg, s, run, Goes(0, FAILED, 3));
    run := run + Goes(0, FAILED, 3);
  }

  lemma StartIsTwo(n: nat, now: int)
    requires 2 <= n
    ensures Start(n, now) == Mid(now, NewBreaker(Still(now), 0), n, NEW, NEW, [])
  {
    assert seq(n, _ => NEW) == Two(n, NEW, NEW);
  }

  lemma AskStarts(cfg: Config, s: State)
    requires s.Valid() && 0 < |s.threads| && s.threads[0].Idle?
    ensures After(cfg, s, [StartIsOpen(0)]) == s.(threads := s.threads[0 := LoadOpen(Outside)])
  {
    AfterMore(cfg, s, [], StartIsOpen(0));
    assert [] + [StartIsOpen(0)] == [StartIsOpen(0)];
  }

  lemma AfterNone(cfg: Config, s: State)
    requires s.Valid()
    ensures After(cfg, s, []) == s
  {
  }

  /** Time passes, and thread 1 makes a call that is a trial. */
  lemma TrialRun(cfg: Config, now: int, elapsed: nat, b: Breaker, n: nat, first: Thread, second: Thread,
                 writes: seq<Write>)
    returns (run: seq<Action>)
    requires 2 <= n && second.Idle? && b.Valid() && b.open && now + elapsed > b.lastTrialTime + cfg.sleepWindow
    ensures var later := now + elapsed;
            After(cfg, Mid(now, b, n, first, second, writes), run)
            == Mid(later, Counted(b, later).(lastTrialTime := later), n, first, LoadOpen(RequestCheck(true)),
                   writes + [Write(later, true)])
  {
    hide Solo, Two, Goes, Incremented, Perform, After;
    var s, later := Mid(now, b, n, first, second, writes), now + elapsed;
    AfterNone(cfg, s);
    AfterMore(cfg, s, [], Tick(elapsed));
    AfterMore(cfg, s, [] + [Tick(elapsed)], StartDo(1));
    TwoUpdated(n, first, second, LoadTrialTime);
    run := [] + [Tick(elapsed)] + [StartDo(1)];
    TrialPasses(cfg, Counted(b, later), later);
    SecondGoes(cfg, later, Counted(b, later), n, first, LoadTrialTime, writes, 4);
    AfterAppend(cfg, s, run, Goes(1, FAILED, 4));
    run := run + Goes(1, FAILED, 4);
  }

  /** Thread 0 stores its older time, and the trial of thread 1 fails. */
  lemma StoredRun(cfg: Config, b: Breaker, n: nat, now: int, t: int, written: seq<Write>) returns (run: seq<Action>)
    requires 2 <= n && b.Valid() && b.open
    ensures var stored := b.(lastTrialTime := t);
            After(cfg, Mid(now, b, n, StoreTrip(Outside, t), LoadOpen(RequestCheck(true)), written), run)
            == Mid(now, stored.(errors := Incremented(stored.errors, now)), n, Idle(Answered(true)), Idle(FAILED_TRIAL),
                   written + [Write(t, false)])
  {
    hide Solo, Two, Goes, Next, Incremented, Perform, After;
    var s, trial := Mid(now, b, n, StoreTrip(Outside, t), LoadOpen(RequestCheck(true)), written),
        LoadOpen(RequestCheck(true));
    var stored, written' := b.(lastTrialTime := t), written + [Write(t, false)];
    StoreIsLate(cfg, b, now, t);
    FirstGoes(cfg, now, b, n, StoreTrip(Outside, t), trial, written, 1);
    TrialFails(cfg, stored, now);
    SecondGoes(cfg, now, stored, n, Idle(Answered(true)), trial, written', 3);
    AfterAppend(cfg, s, Goes(0, FAILED, 1), Goes(1, FAILED, 3));
    assert written' + [] == written';
    run := Goes(0, FAILED, 1) + Goes(1, FAILED, 3);
  }

  /** A trial passes; thread 0 stores its older time; the trial fails, and the next one passes. */
  lemma LateRun(cfg: Config, b: Breaker, n: nat, second: Thread, t: int) returns (run: seq<Action>)
    requires 2 <= n && second.Idle? && 0 <= cfg.sleepWindow && b.Valid() && b.open
             && t + 1 > b.lastTrialTime + cfg.sleepWindow
    ensures After(cfg, Mid(t, b, n, StoreTrip(Outside, t), second, []), run).writes
         == [Write(t + 1, true), Write(t, false), Write(t + 1 + cfg.sleepWindow, true)]
  {
    hide Two, Counted, Incremented, After;
    var s := Mid(t, b, n, StoreTrip(Outside, t), second, []);
    var tried, one := Counted(b, t + 1).(lastTrialTime := t + 1), [] + [Write(t + 1, true)];
    run := TrialRun(cfg, t, 1, b, n, StoreTrip(Outside, t), second, []);
    CountingKeepsOpen(b, t + 1);
    var stored := StoredRun(cfg, tried, n, t + 1, t, one);
    AfterAppend(cfg, s, run, stored);
    run := run + stored;
    var failed := tried.(lastTrialTime := t, errors := Incremented(tried.errors, t + 1));
    var last := TrialRun(cfg, t + 1, cfg.sleepWindow, failed, n, Idle(Answered(true)), Idle(FAILED_TRIAL),
                         one + [Write(t, false)]);
    AfterAppend(cfg, s, run, last);
    run := run + last;
    assert one + [Write(t, false)] + [Write(t + 1 + cfg.sleepWindow, true)]
        == [Write(t + 1, true), Write(t, false), Write(t + 1 + cfg.sleepWindow, true)];
  }

  lemma CountingKeepsOpen(b: Breaker, now: int)
    requires b.Valid()
    ensures Counted(b, now).open == b.open
  {
  }

  /** For every configuration and any two threads or more: a run with two trials that are no more
      than a sleep window apart. Every verdict of the run follows from what its calls have counted. */
  lemma LateTripStoreAllowsCloseTrials(cfg: Config, threads: nat) returns (now: int, run: seq<Action>)
    requires Durations(cfg) && 2 <= threads
    ensures After(cfg, Start(threads, now), run).writes
         == [Write(now + 1, true), Write(now, false), Write(now + 1 + cfg.sleepWindow, true)]
  {
    hide Taken, Start, Next, Mid, After, Two;
    var requests: nat := if cfg.requestVolumeThreshold > 0 then cfg.requestVolumeThreshold else 1;
    MulMonotone(0, cfg.errorThresholdPercentage, requests);
    var more: nat := cfg.errorThresholdPercentage * requests;
    now := TripTime(cfg);
    run := TakenRun(cfg, threads);
    var summed, second := SummedRun(cfg, threads, requests);
    AfterAppend(cfg, Start(threads, now), run, summed);
    run := run + summed;
    var opening, rest := OpeningRun(cfg, threads, second, requests, more);
    AfterAppend(cfg, Start(threads, now), run, opening);
    run := run + opening;
    OpenedHasNoTrial(cfg, requests + more);
    var late := LateRun(cfg, Taken(cfg, requests + more).(open := true), threads, rest, now);
    AfterAppend(cfg, Start(threads, now), run, late);
    run := run + late;
  }

  lemma OpenedHasNoTrial(cfg: Config, errors: nat)
    requires Durations(cfg)
    ensures Taken(cfg, errors).lastTrialTime == 0 && TripTime(cfg) > cfg.sleepWindow
  {
  }

  /** Any two trials are more than a sleep window apart. */
  ghost predicate AllTrialsSpaced(sleepWindow: int, writes: seq<Write>) {
    forall i, j :: 0 <= i < j < |writes| && writes[i].trial && writes[j].trial ==>
      writes[j].stamp > writes[i].stamp + sleepWindow
  }

  /** Trials are spaced in every run just when no two threads use the breaker. */
  lemma TrialsAlwaysSpacedIffOneThread(cfg: Config, threads: nat)
    requires Durations(cfg)
    ensures (forall now: int, run :: AllTrialsSpaced(cfg.sleepWindow, After(cfg, Start(threads, now), run).writes))
        <==> threads <= 1
  {
    hide After, Start;
    if threads <= 1 {
      forall now: int, run ensures AllTrialsSpaced(cfg.sleepWindow, After(cfg, Start(threads, now), run).writes) {
        var writes := After(cfg, Start(threads, now), run).writes;
        RunAlone(cfg, threads, now, run);
        forall i, j | 0 <= i < j < |writes| && writes[i].trial && writes[j].trial
          ensures writes[j].stamp > writes[i].stamp + cfg.sleepWindow
        {
          TrialsSpacedIfTripsCurrent(cfg, threads, now, run, i, j);
        }
      }
    } else {
      var now, run := LateTripStoreAllowsCloseTrials(cfg, threads);
      var writes := After(cfg, Start(threads, now), run).writes;
      assert writes[0].trial && writes[2].trial && writes[2].stamp == writes[0].stamp + cfg.sleepWindow;
      assert !AllTrialsSpaced(cfg.sleepWindow, writes);
    }
  }
}
