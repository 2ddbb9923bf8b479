/** A thread of `BreakerInterleaving` that goes on alone does what the sequential breaker does. */
module BreakerSolo {
  import opened Clocks
  import opened Outcomes
  import opened RollingNumber
  import opened BreakerModel
  import opened BreakerExamples
  import opened BreakerLockstep
  import opened BreakerInterleaving

  /** So many operations of one thread. */
  function Solo(cfg: Config, now: int, p: Progress, f: Outcome, k: nat): (q: Progress)
    requires p.breaker.Valid()
    ensures q.breaker.Valid()
    decreases k
  {
    if k == 0 then p
    else
      var q := Perform(cfg, now, p.breaker, p.thread, f);
      Solo(cfg, now, Progress(q.thread, q.breaker, p.written + q.written), f, k - 1)
  }

  lemma {:induction false} SoloThen(cfg: Config, now: int, p: Progress, f: Outcome, j: nat, k: nat)
    requires p.breaker.Valid()
    ensures Solo(cfg, now, p, f, j + k) == Solo(cfg, now, Solo(cfg, now, p, f, j), f, k)
    decreases j
  {
    hide Perform;
    if j > 0 {
      var q := Perform(cfg, now, p.breaker, p.thread, f);
      SoloThen(cfg, now, Progress(q.thread, q.breaker, p.written + q.written), f, j - 1, k);
    }
  }

  lemma SoloOne(cfg: Config, now: int, p: Progress, f: Outcome)
    requires p.breaker.Valid()
    ensures var q := Perform(cfg, now, p.breaker, p.thread, f);
            Solo(cfg, now, p, f, 1) == Progress(q.thread, q.breaker, p.written + q.written)
  {
    hide Perform;
    var q := Perform(cfg, now, p.breaker, p.thread, f);
    assert Solo(cfg, now, Progress(q.thread, q.breaker, p.written + q.written), f, 0)
        == Progress(q.thread, q.breaker, p.written + q.written);
  }

  lemma SoloNone(cfg: Config, now: int, p: Progress, f: Outcome)
    requires p.breaker.Valid()
    ensures Solo(cfg, now, p, f, 0) == p
  {
  }

  /** One more operation of a thread. */
  lemma SoloMore(cfg: Config, now: int, p: Progress, f: Outcome, k: nat)
    requires p.breaker.Valid()
    ensures var q := Solo(cfg, now, p, f, k);
            var r := Perform(cfg, now, q.breaker, q.thread, f);
            Solo(cfg, now, p, f, k + 1) == Progress(r.thread, r.breaker, q.written + r.written)
  {
    hide Perform;
    SoloThen(cfg, now, p, f, k, 1);
    SoloOne(cfg, now, Solo(cfg, now, p, f, k), f);
  }

  lemma SnapshotAlone(cfg: Config, now: int, b: Breaker, caller: Caller, written: seq<Write>, f: Outcome)
    requires b.Valid()
    ensures var h := Health(Total(b.requests, now), Total(b.errors, now));
            Solo(cfg, now, Progress(SwapSnapshotTime(caller, b.snapshotTime, now), b, written), f, 3)
            == Progress(Judged(cfg, caller, h),
                        b.(snapshotTime := now, requests := Rotate(b.requests, now), errors := Rotate(b.errors, now)),
                        written)
  {
    hide Judged, Rotate, Total, Solo;
    var p := Progress(SwapSnapshotTime(caller, b.snapshotTime, now), b, written);
    assert written + [] == written;
    SoloNone(cfg, now, p, f);
    SoloMore(cfg, now, p, f, 0);
    SoloMore(cfg, now, p, f, 1);
    SoloMore(cfg, now, p, f, 2);
  }

  /** The snapshot taken or not, the thread is at its judgement. */
  lemma HealthAlone(cfg: Config, now: int, b: Breaker, caller: Caller, written: seq<Write>, f: Outcome) returns (k: nat)
    requires b.Valid()
    ensures var s := TakeHealth(Dropped, cfg, Still(now), b, 0);
            var p := Progress(LoadSnapshotTime(caller), b, written);
            Solo(cfg, now, p, f, k) == Progress(Judged(cfg, caller, s.value), s.breaker, written)
  {
    hide Judged, Rotate, Total, Solo;
    var p := Progress(LoadSnapshotTime(caller), b, written);
    assert written + [] == written;
    SoloNone(cfg, now, p, f);
    SoloMore(cfg, now, p, f, 0);
    SoloMore(cfg, now, p, f, 1);
    k := 2;
    if now > b.snapshotTime + cfg.healthSnapshotInterval {
      SnapshotAlone(cfg, now, b, caller, written, f);
      SoloThen(cfg, now, p, f, 2, 3);
      k := 5;
    }
  }

  /** What a step of the breaker writes to the time of the last trial. */
  function Tripped(b: Breaker, after: Breaker, now: int): seq<Write> {
    if !b.open && after.open then [Write(now, false)] else []
  }

  lemma TripAlone(cfg: Config, now: int, b: Breaker, caller: Caller, h: Health, written: seq<Write>, f: Outcome)
    requires b.Valid() && !b.open
    ensures Solo(cfg, now, Progress(SwapOpen(caller, h), b, written), f, 3)
         == Progress(Return(cfg, caller, true), b.(open := true, lastTrialTime := now), written + [Write(now, false)])
  {
    hide Return, Solo;
    var p := Progress(SwapOpen(caller, h), b, written);
    SoloNone(cfg, now, p, f);
    SoloMore(cfg, now, p, f, 0);
    SoloMore(cfg, now, p, f, 1);
    SoloMore(cfg, now, p, f, 2);
  }

  lemma IsOpenAlone(cfg: Config, now: int, b: Breaker, caller: Caller, written: seq<Write>, f: Outcome) returns (k: nat)
    requires b.Valid()
    ensures var s := IsOpen(Dropped, cfg, PLAIN, Still(now), b, 0);
            var p := Progress(LoadOpen(caller), b, written);
            Solo(cfg, now, p, f, k)
            == Progress(Return(cfg, caller, s.value), s.breaker, written + Tripped(b, s.breaker, now))
  {
    hide Return, Solo, TakeHealth;
    var p := Progress(LoadOpen(caller), b, written);
    SoloOne(cfg, now, p, f);
    assert written + [] == written;
    k := 1;
    SnapshotKeepsClosed(cfg, b, now);
    if !b.open {
      var judged := HealthAlone(cfg, now, b, caller, written, f);
      SoloThen(cfg, now, p, f, 1, judged);
      k := 1 + judged;
      var h := TakeHealth(Dropped, cfg, Still(now), b, 0);
      if Trips(cfg, h.value) {
        TripAlone(cfg, now, h.breaker, caller, h.value, written, f);
        SoloThen(cfg, now, p, f, k, 3);
        k := k + 3;
      }
    }
  }

  lemma SnapshotKeepsClosed(cfg: Config, b: Breaker, now: int)
    requires b.Valid()
    ensures TakeHealth(Dropped, cfg, Still(now), b, 0).breaker.open == b.open
  {
  }

  /** On a clock that stands still the number of the reading does not matter. */
  lemma IsOpenStill(cfg: Config, b: Breaker, now: int, j: nat, k: nat)
    requires b.Valid()
    ensures var s, t := IsOpen(Dropped, cfg, PLAIN, Still(now), b, j), IsOpen(Dropped, cfg, PLAIN, Still(now), b, k);
            s.breaker == t.breaker && s.value == t.value
  {
    hide Rotate, Total;
  }

  /** The writes of an admission: maybe a trip, or a trial, or first none and then a trip. */
  function TrialWrites(cfg: Config, b: Breaker, now: int): seq<Write>
    requires b.Valid()
  {
    var t := IsTrialCallAllowed(Dropped, cfg, PLAIN, Still(now), b, 0);
    Tripped(b, IsOpen(Dropped, cfg, PLAIN, Still(now), b, 0).breaker, now) + if t.value then [Write(now, true)] else []
  }

  function AdmissionWrites(cfg: Config, b: Breaker, now: int): seq<Write>
    requires b.Valid()
  {
    var t := IsTrialCallAllowed(Dropped, cfg, PLAIN, Still(now), b, 0);
    TrialWrites(cfg, b, now) + Tripped(t.breaker, IsOpen(Dropped, cfg, PLAIN, Still(now), t.breaker, 0).breaker, now)
  }

  lemma TrialAlone(cfg: Config, now: int, b: Breaker, f: Outcome) returns (k: nat)
    requires b.Valid()
    ensures var t := IsTrialCallAllowed(Dropped, cfg, PLAIN, Still(now), b, 0);
            Solo(cfg, now, Progress(LoadTrialTime, b, []), f, k)
            == Progress(LoadOpen(RequestCheck(t.value)), t.breaker, TrialWrites(cfg, b, now))
  {
    hide Solo, IsOpen, Tripped;
    var p := Progress(LoadTrialTime, b, []);
    SoloNone(cfg, now, p, f);
    SoloMore(cfg, now, p, f, 0);
    SoloMore(cfg, now, p, f, 1);
    IsOpenStill(cfg, b, now, 0, 1);
    var i := IsOpen(Dropped, cfg, PLAIN, Still(now), b, 0);
    var asked := IsOpenAlone(cfg, now, b, TrialCheck(b.lastTrialTime, now), [], f);
    SoloThen(cfg, now, p, f, 2, asked);
    k := 2 + asked;
    var tripped := Tripped(b, i.breaker, now);
    assert [] + tripped == tripped && tripped + [] == tripped;
    if i.value && now > b.lastTrialTime + cfg.sleepWindow {
      SoloMore(cfg, now, p, f, k);
      k := k + 1;
    }
  }

  lemma AdmissionAlone(cfg: Config, now: int, b: Breaker, f: Outcome) returns (k: nat)
    requires b.Valid()
    ensures var a := IsRequestAllowed(Dropped, cfg, PLAIN, Still(now), b, 0);
            Solo(cfg, now, Progress(LoadTrialTime, b, []), f, k)
            == Progress(if a.value.allowed then Run(a.value.trial) else CountError(Refused), a.breaker,
                        AdmissionWrites(cfg, b, now))
  {
    hide Solo, IsOpen, IsTrialCallAllowed, Tripped, TrialWrites;
    var p, t := Progress(LoadTrialTime, b, []), IsTrialCallAllowed(Dropped, cfg, PLAIN, Still(now), b, 0);
    var tried := TrialAlone(cfg, now, b, f);
    var asked := IsOpenAlone(cfg, now, t.breaker, RequestCheck(t.value), TrialWrites(cfg, b, now), f);
    IsOpenStill(cfg, t.breaker, now, 0, t.next);
    SoloThen(cfg, now, p, f, tried, asked);
    k := tried + asked;
  }

  lemma ResetAlone(cfg: Config, now: int, b: Breaker, written: seq<Write>, f: Outcome)
    requires b.Valid()
    ensures Solo(cfg, now, Progress(ResetErrors, b, written), f, 3)
         == Progress(Idle(Executed(true, Returned(None))),
                     b.(open := false, errors := Zeroed(b.errors, now), requests := Zeroed(b.requests, now)), written)
  {
    hide Solo, Incremented, Zeroed;
    var p := Progress(ResetErrors, b, written);
    assert written + [] == written;
    SoloNone(cfg, now, p, f);
    SoloMore(cfg, now, p, f, 0);
    SoloMore(cfg, now, p, f, 1);
    SoloMore(cfg, now, p, f, 2);
  }

  lemma SettleAlone(cfg: Config, now: int, b: Breaker, trial: bool, written: seq<Write>, f: Outcome) returns (k: nat)
    requires b.Valid()
    ensures var s := Settle(Still(now), b, 0, trial, f);
            Solo(cfg, now, Progress(Run(trial), b, written), f, k) == Progress(Idle(s.value), s.breaker, written)
  {
    hide Solo, Incremented, Zeroed;
    var p := Progress(Run(trial), b, written);
    assert written + [] == written;
    SoloOne(cfg, now, p, f);
    k := 1;
    if f.Returned? && f.err.Some? {
      SoloMore(cfg, now, p, f, 1);
      k := 2;
    } else if f.Returned? && trial {
      ResetAlone(cfg, now, b, written, f);
      SoloThen(cfg, now, p, f, 1, 3);
      k := 4;
    }
  }

  /** From the counting of its request on, to the end of the call. */
  lemma CallAlone(cfg: Config, now: int, b: Breaker, f: Outcome) returns (k: nat)
    requires b.Valid()
    ensures var d := Do(Dropped, cfg, PLAIN, Still(now), b, 0, f);
            Solo(cfg, now, Progress(LoadTrialTime, Counted(b, now), []), f, k)
            == Progress(Idle(d.value), d.breaker, AdmissionWrites(cfg, Counted(b, now), now))
  {
    hide Solo, IsRequestAllowed, Settle, Incremented, Zeroed, AdmissionWrites;
    var c := Counted(b, now);
    var p, a := Progress(LoadTrialTime, c, []), IsRequestAllowed(Dropped, cfg, PLAIN, Still(now), c, 0);
    var written := AdmissionWrites(cfg, c, now);
    k := AdmissionAlone(cfg, now, c, f);
    AdmissionStill(cfg, c, now, 1);
    if a.value.allowed {
      var settled := SettleAlone(cfg, now, a.breaker, a.value.trial, written, f);
      SettleStill(a.breaker, now, IsRequestAllowed(Dropped, cfg, PLAIN, Still(now), c, 1).next, a.value.trial, f);
      SoloThen(cfg, now, p, f, k, settled);
      k := k + settled;
    } else {
      assert written + [] == written;
      SoloMore(cfg, now, p, f, k);
      k := k + 1;
    }
  }

  lemma AdmissionStill(cfg: Config, b: Breaker, now: int, k: nat)
    requires b.Valid()
    ensures var s := IsRequestAllowed(Dropped, cfg, PLAIN, Still(now), b, 0);
            var t := IsRequestAllowed(Dropped, cfg, PLAIN, Still(now), b, k);
            s.breaker == t.breaker && s.value == t.value
  {
    hide IsOpen;
    IsOpenStill(cfg, b, now, 1, k + 1);
    var s := IsTrialCallAllowed(Dropped, cfg, PLAIN, Still(now), b, 0);
    var t := IsTrialCallAllowed(Dropped, cfg, PLAIN, Still(now), b, k);
    IsOpenStill(cfg, s.breaker, now, s.next, t.next);
  }

  lemma SettleStill(b: Breaker, now: int, k: nat, trial: bool, f: Outcome)
    requires b.Valid()
    ensures var s, t := Settle(Still(now), b, 0, trial, f), Settle(Still(now), b, k, trial, f);
            s.breaker == t.breaker && s.value == t.value
  {
    hide Incremented, Zeroed;
  }

  // The same among other threads.

  function Goes(t: nat, f: Outcome, k: nat): seq<Action> {
    if k == 0 then [] else Goes(t, f, k - 1) + [Go(t, f)]
  }

  lemma AfterMore(cfg: Config, s: State, run: seq<Action>, a: Action)
    requires s.Valid()
    ensures After(cfg, s, run + [a]) == Next(cfg, After(cfg, s, run), a)
  {
    assert (run + [a])[..|run|] == run;
  }

  lemma {:induction false} AfterAppend(cfg: Config, s: State, first: seq<Action>, second: seq<Action>)
    requires s.Valid()
    ensures After(cfg, s, first + second) == After(cfg, After(cfg, s, first), second)
  {
    hide Next;
    if second == [] {
      assert first + second == first;
    } else {
      AfterAppend(cfg, s, first, second[..|second| - 1]);
      assert (first + second)[..|first + second| - 1] == first + second[..|second| - 1];
    }
  }

  /** The state in which a thread has made this progress. */
  function Advanced(s: State, t: nat, p: Progress): (s': State)
    requires t < |s.threads| && p.breaker.Valid()
    ensures s'.Valid()
  {
    s.(breaker := p.breaker, threads := s.threads[t := p.thread], writes := s.writes + p.written)
  }

  lemma AdvancedOnce(cfg: Config, s: State, t: nat, p: Progress, f: Outcome)
    requires t < |s.threads| && p.breaker.Valid()
    ensures var q := Perform(cfg, s.now, p.breaker, p.thread, f);
            Next(cfg, Advanced(s, t, p), Go(t, f))
            == Advanced(s, t, Progress(q.thread, q.breaker, p.written + q.written))
  {
    hide Perform;
    var q := Perform(cfg, s.now, p.breaker, p.thread, f);
    assert s.threads[t := p.thread][t := q.thread] == s.threads[t := q.thread];
    assert s.writes + p.written + q.written == s.writes + (p.written + q.written);
  }

  lemma {:induction false} GoesAdvance(cfg: Config, s: State, t: nat, f: Outcome, k: nat)
    requires s.Valid() && t < |s.threads|
    ensures After(cfg, s, Goes(t, f, k))
            == Advanced(s, t, Solo(cfg, s.now, Progress(s.threads[t], s.breaker, []), f, k))
  {
    hide Perform, Next, Solo;
    var p := Progress(s.threads[t], s.breaker, []);
    if k == 0 {
      SoloNone(cfg, s.now, p, f);
      assert s.threads[t := s.threads[t]] == s.threads && s.writes + [] == s.writes;
    } else {
      GoesAdvance(cfg, s, t, f, k - 1);
      SoloMore(cfg, s.now, p, f, k - 1);
      AfterMore(cfg, s, Goes(t, f, k - 1), Go(t, f));
      AdvancedOnce(cfg, s, t, Solo(cfg, s.now, p, f, k - 1), f);
    }
  }

  function CallOf(t: nat, f: Outcome, k: nat): seq<Action> {
    [StartDo(t)] + Goes(t, f, k)
  }

  /** From any state, an idle thread that makes a call alone leaves the breaker as `Do` leaves it,
      and gets its reply. */
  lemma LoneCallIsDo(cfg: Config, s: State, t: nat, f: Outcome) returns (k: nat)
    requires s.Valid() && t < |s.threads| && s.threads[t].Idle?
    ensures var d := Do(Dropped, cfg, PLAIN, Still(s.now), s.breaker, 0, f);
            After(cfg, s, CallOf(t, f, k))
            == s.(breaker := d.breaker, threads := s.threads[t := Idle(d.value)],
                  writes := s.writes + AdmissionWrites(cfg, Counted(s.breaker, s.now), s.now))
  {
    hide Perform, Solo, Do, Counted, AdmissionWrites;
    k := CallAlone(cfg, s.now, s.breaker, f);
    var started := Next(cfg, s, StartDo(t));
    AfterMore(cfg, s, [], StartDo(t));
    assert [] + [StartDo(t)] == [StartDo(t)];
    AfterAppend(cfg, s, [StartDo(t)], Goes(t, f, k));
    GoesAdvance(cfg, started, t, f, k);
    var reply := Do(Dropped, cfg, PLAIN, Still(s.now), s.breaker, 0, f).value;
    assert s.threads[t := LoadTrialTime][t := Idle(reply)] == s.threads[t := Idle(reply)];
  }

  /** And one that asks alone leaves the breaker as `IsOpen` leaves it, and gets its answer. */
  lemma LoneQuestionIsIsOpen(cfg: Config, s: State, t: nat, f: Outcome) returns (k: nat)
    requires s.Valid() && t < |s.threads| && s.threads[t].Idle?
    ensures var q := IsOpen(Dropped, cfg, PLAIN, Still(s.now), s.breaker, 0);
            After(cfg, s, [StartIsOpen(t)] + Goes(t, f, k))
            == s.(breaker := q.breaker, threads := s.threads[t := Idle(Answered(q.value))],
                  writes := s.writes + Tripped(s.breaker, q.breaker, s.now))
  {
    hide Perform, Solo, IsOpen, Tripped;
    k := IsOpenAlone(cfg, s.now, s.breaker, Outside, [], f);
    var started, q := Next(cfg, s, StartIsOpen(t)), IsOpen(Dropped, cfg, PLAIN, Still(s.now), s.breaker, 0);
    AfterMore(cfg, s, [], StartIsOpen(t));
    assert [] + [StartIsOpen(t)] == [StartIsOpen(t)];
    AfterAppend(cfg, s, [StartIsOpen(t)], Goes(t, f, k));
    GoesAdvance(cfg, started, t, f, k);
    var tripped := Tripped(s.breaker, q.breaker, s.now);
    assert [] + tripped == tripped;
    assert s.threads[t := LoadOpen(Outside)][t := Idle(Answered(q.value))] == s.threads[t := Idle(Answered(q.value))];
  }
}
