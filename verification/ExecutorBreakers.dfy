/**
 The breakers of an executor are those of `BreakerRuns`, on the same clock from the time they
 were made: other components read the clock in between. So whatever is proved of runs of a
 breaker holds of the executions of a command.
 */
module ExecutorBreakers {
  import opened Clocks
  import opened Outcomes
  import opened RollingNumber
  import opened Semaphore
  import opened BreakerModel
  import opened BreakerRuns
  import opened BreakerHistory
  import Executor = ExecutorModel
  import opened ExecutorOutcomes

  // A breaker depends on the readings it makes, not on their numbers.

  function Later(clock: Readings, start: nat): Readings {
    (i: nat) => clock(i + start)
  }

  /** The same step, counted from a later start. */
  function Since<T>(start: nat, s: Step<T>): Step<T>
    requires start <= s.next
  {
    Step(s.breaker, s.next - start, s.value)
  }

  lemma TakeHealthLater(storage: Storage, cfg: Config, clock: Readings, start: nat, b: Breaker, k: nat)
    requires b.Valid()
    ensures TakeHealth(storage, cfg, Later(clock, start), b, k)
            == Since(start, TakeHealth(storage, cfg, clock, b, k + start))
  {
    var later := Later(clock, start);
    assert later(k) == clock(k + start) && later(k + 1) == clock(k + start + 1) && later(k + 2) == clock(k + start + 2);
  }

  lemma IsOpenLater(storage: Storage, cfg: Config, flags: Flags, clock: Readings, start: nat, b: Breaker, k: nat)
    requires b.Valid()
    ensures IsOpen(storage, cfg, flags, Later(clock, start), b, k)
            == Since(start, IsOpen(storage, cfg, flags, clock, b, k + start))
  {
    hide TakeHealth;
    TakeHealthLater(storage, cfg, clock, start, b, k);
  }

  lemma TrialLater(storage: Storage, cfg: Config, flags: Flags, clock: Readings, start: nat, b: Breaker, k: nat)
    requires b.Valid()
    ensures IsTrialCallAllowed(storage, cfg, flags, Later(clock, start), b, k)
         == Since(start, IsTrialCallAllowed(storage, cfg, flags, clock, b, k + start))
  {
    hide IsOpen;
    IsOpenLater(storage, cfg, flags, clock, start, b, k + 1);
  }

  lemma AdmissionLater(storage: Storage, cfg: Config, flags: Flags, clock: Readings, start: nat, b: Breaker, k: nat)
    requires b.Valid()
    ensures IsRequestAllowed(storage, cfg, flags, Later(clock, start), b, k)
         == Since(start, IsRequestAllowed(storage, cfg, flags, clock, b, k + start))
  {
    hide IsOpen, IsTrialCallAllowed;
    TrialLater(storage, cfg, flags, clock, start, b, k);
    var t := IsTrialCallAllowed(storage, cfg, flags, clock, b, k + start);
    IsOpenLater(storage, cfg, flags, clock, start, t.breaker, t.next - start);
  }

  lemma SettleLater(clock: Readings, start: nat, b: Breaker, k: nat, trial: bool, f: Outcome)
    requires b.Valid()
    ensures Settle(Later(clock, start), b, k, trial, f) == Since(start, Settle(clock, b, k + start, trial, f))
  {
    hide Incremented, Zeroed;
    var later := Later(clock, start);
    assert later(k) == clock(k + start) && later(k + 1) == clock(k + start + 1);
  }

  lemma DoLater(storage: Storage, cfg: Config, flags: Flags, clock: Readings, start: nat, b: Breaker, k: nat,
                f: Outcome)
    requires b.Valid()
    ensures Do(storage, cfg, flags, Later(clock, start), b, k, f)
            == Since(start, Do(storage, cfg, flags, clock, b, k + start, f))
  {
    hide IsRequestAllowed, Settle, Incremented;
    var counted := b.(requests := Incremented(b.requests, clock(k + start)));
    AdmissionLater(storage, cfg, flags, clock, start, counted, k + 1);
    var a := IsRequestAllowed(storage, cfg, flags, clock, counted, k + start + 1);
    SettleLater(clock, start, a.breaker, a.next - start, a.value.trial, f);
  }

  lemma NewLater(clock: Readings, start: nat)
    ensures NewBreaker(Later(clock, start), 0) == NewBreaker(clock, start)
  {
    hide NewCounter, CalculateBucketSize;
    var later := Later(clock, start);
    assert later(0) == clock(start) && later(1) == clock(start + 1);
  }

  // The past of a breaker.

  /** When a breaker was made, with which properties, and the calls since. */
  datatype Past = Past(storage: Storage, start: nat, cfg: Config, calls: seq<Call>)

  function RunOf(clock: Readings, p: Past): Step<seq<Reply>> {
    Run(p.storage, p.cfg, Later(clock, p.start), p.calls)
  }

  function GuardedOf(s: Executor.State, cmd: Executor.Command): Outcome {
    Executor.Guarded(GroupPermits(s.semaphores, cmd.group, cmd.settings.maxConcurrentRequests), cmd.run)
  }

  /** The past up to the call of the breaker: others have read the clock, or it is made. */
  function Waited(clock: Readings, s: Executor.State, cmd: Executor.Command, past: Option<Past>): Past
    requires s.Valid()
  {
    var p := if past.Some? then past.value else Past(s.storage, s.next, cmd.settings.breaker, []);
    var now, read := Executor.WithBreaker(clock, s, cmd).next, p.start + RunOf(clock, p).next;
    p.(calls := p.calls + [Wait(if now >= read then now - read else 0)])
  }

  function Called(clock: Readings, s: Executor.State, cmd: Executor.Command, past: Option<Past>): Past
    requires s.Valid()
  {
    var p := Waited(clock, s, cmd, past);
    p.(calls := p.calls + [CallDo(cmd.settings.flags, GuardedOf(s, cmd))])
  }

  /** What a run of the executor has made of the breaker of a command. */
  function PastOf(clock: Readings, s: Executor.State, cmds: seq<Executor.Command>, name: string): Option<Past>
    requires s.Valid()
  {
    if cmds == [] then None
    else
      var past := PastOf(clock, s, cmds[..|cmds| - 1], name);
      var t, cmd := Executor.After(clock, s, cmds[..|cmds| - 1]), cmds[|cmds| - 1];
      if cmd.name == name && !Executor.Hits(t, cmd) then Some(Called(clock, t, cmd, past)) else past
  }

  ghost predicate Follows(clock: Readings, s: Executor.State, name: string, past: Option<Past>) {
    match past
    case None => name !in s.guards
    case Some(p) =>
      var run := RunOf(clock, p);
      p.storage == s.storage && name in s.guards && s.guards[name] == Executor.Guard(p.cfg, run.breaker)
      && p.start + run.next <= s.next
  }

  /** The call of the breaker that an execution makes. */
  function CallOf(clock: Readings, s: Executor.State, cmd: Executor.Command): (d: Step<Reply>)
    requires s.Valid()
  {
    var t := Executor.WithBreaker(clock, s, cmd);
    var g := t.guards[cmd.name];
    Do(s.storage, g.cfg, cmd.settings.flags, clock, g.breaker, t.next, GuardedOf(s, cmd))
  }

  lemma AttemptCallsBreaker(clock: Readings, s: Executor.State, cmd: Executor.Command)
    requires s.Valid()
    ensures var t, a, d :=
              Executor.WithBreaker(clock, s, cmd), Executor.Attempted(clock, s, cmd), CallOf(clock, s, cmd);
            && a.state.guards == t.guards[cmd.name := t.guards[cmd.name].(breaker := d.breaker)]
            && a.state.next == d.next
            && (a.ran ==> d.value.Executed?)
  {
    hide Do, GroupPermits, Executor.Guarded, Executor.Said, Executor.WithBreaker;
  }

  lemma ExecCallsBreaker(clock: Readings, s: Executor.State, cmd: Executor.Command)
    requires s.Valid()
    ensures var t, r, d := Executor.WithBreaker(clock, s, cmd), Executor.Exec(clock, s, cmd), CallOf(clock, s, cmd);
            && r.state.next >= s.next && r.state.storage == s.storage
            && (Executor.Hits(s, cmd) ==> r.state.guards == s.guards && r.calls == [])
            && (!Executor.Hits(s, cmd) ==>
                  && r.state.guards == t.guards[cmd.name := t.guards[cmd.name].(breaker := d.breaker)]
                  && r.state.next >= d.next
                  && (Executor.Run in r.calls ==> d.value.Executed?))
  {
    hide Executor.Attempted, Executor.Accounted, Executor.Rescued, Executor.WithBreaker, CallOf;
    AttemptCallsBreaker(clock, s, cmd);
    AccountsKeepTheRest(clock, s, cmd, Executor.Exec(clock, s, cmd).info);
    AccountsKeepTheRest(clock, Executor.Attempted(clock, s, cmd).state, cmd, Executor.Exec(clock, s, cmd).info);
  }

  /** A breaker just made has no past. */
  lemma MadeBreakerFollows(clock: Readings, s: Executor.State, cmd: Executor.Command)
    requires s.Valid() && cmd.name !in s.guards
    ensures var t, p := Executor.WithBreaker(clock, s, cmd), Past(s.storage, s.next, cmd.settings.breaker, []);
            t.guards[cmd.name] == Executor.Guard(p.cfg, RunOf(clock, p).breaker)
            && p.start + RunOf(clock, p).next == t.next
  {
    hide NewBreaker;
    NewLater(clock, s.next);
  }

  /** Up to its call the breaker is the one of the waiting past, at the reading where the call starts. */
  lemma WaitedFollows(clock: Readings, s: Executor.State, cmd: Executor.Command, past: Option<Past>)
    requires s.Valid() && Follows(clock, s, cmd.name, past)
    ensures var t, p := Executor.WithBreaker(clock, s, cmd), Waited(clock, s, cmd, past);
            && p.storage == s.storage
            && t.guards[cmd.name] == Executor.Guard(p.cfg, RunOf(clock, p).breaker)
            && p.start + RunOf(clock, p).next == t.next
  {
    hide Run, NewBreaker;
    var p := if past.Some? then past.value else Past(s.storage, s.next, cmd.settings.breaker, []);
    if past.None? {
      MadeBreakerFollows(clock, s, cmd);
    }
    var wait := Waited(clock, s, cmd, past).calls[|p.calls|];
    RunExtends(p.storage, p.cfg, Later(clock, p.start), p.calls, wait);
  }

  lemma ExecFollows(clock: Readings, s: Executor.State, cmd: Executor.Command, past: Option<Past>)
    requires s.Valid() && Follows(clock, s, cmd.name, past) && !Executor.Hits(s, cmd)
    ensures var p, r := Called(clock, s, cmd, past), Executor.Exec(clock, s, cmd);
            && Follows(clock, r.state, cmd.name, Some(p))
            && RunOf(clock, p).value == RunOf(clock, Waited(clock, s, cmd, past)).value + [CallOf(clock, s, cmd).value]
  {
    hide Run, Do, Executor.Exec, Waited, Executor.WithBreaker;
    WaitedFollows(clock, s, cmd, past);
    ExecCallsBreaker(clock, s, cmd);
    var p, call := Waited(clock, s, cmd, past), CallDo(cmd.settings.flags, GuardedOf(s, cmd));
    var before := RunOf(clock, p);
    RunExtends(p.storage, p.cfg, Later(clock, p.start), p.calls, call);
    DoLater(p.storage, p.cfg, cmd.settings.flags, clock, p.start, before.breaker, before.next, GuardedOf(s, cmd));
  }

  lemma OthersFollow(clock: Readings, s: Executor.State, cmd: Executor.Command, name: string, past: Option<Past>)
    requires s.Valid() && Follows(clock, s, name, past) && (cmd.name != name || Executor.Hits(s, cmd))
    ensures Follows(clock, Executor.Exec(clock, s, cmd).state, name, past)
  {
    hide Run, Do, Executor.Exec;
    ExecCallsBreaker(clock, s, cmd);
  }

  /** In every run of a new executor, the breaker of each command is the breaker that has
      taken exactly the calls of its executions that did not come from the cache. */
  lemma {:induction false} CommandsFollowTheirBreakers(clock: Readings, s: Executor.State, cmds: seq<Executor.Command>,
                                                       name: string)
    requires s.Valid() && s.guards == map[]
    ensures Follows(clock, Executor.After(clock, s, cmds), name, PastOf(clock, s, cmds, name))
  {
    hide Executor.Exec, Follows, Called;
    if cmds == [] {
      assert Follows(clock, s, name, None) by { NothingFollows(clock, s, name); }
    } else {
      var before, cmd := cmds[..|cmds| - 1], cmds[|cmds| - 1];
      CommandsFollowTheirBreakers(clock, s, before, name);
      var t, past := Executor.After(clock, s, before), PastOf(clock, s, before, name);
      if cmd.name == name && !Executor.Hits(t, cmd) {
        ExecFollows(clock, t, cmd, past);
      } else {
        OthersFollow(clock, t, cmd, name, past);
      }
    }
  }

  lemma NothingFollows(clock: Readings, s: Executor.State, name: string)
    requires s.guards == map[]
    ensures Follows(clock, s, name, None)
  {
  }

  // What that says about executions.

  lemma LaterIsSensible(cfg: Config, clock: Readings, start: nat)
    requires Sensible(cfg, clock)
    ensures Sensible(cfg, Later(clock, start))
  {
    forall i: nat, j: nat | i <= j ensures Later(clock, start)(i) <= Later(clock, start)(j) {
      assert clock(i + start) <= clock(j + start);
    }
  }

  /** The call of an execution is the next answer of the breaker's run. */
  lemma CallIsAnswered(clock: Readings, s: Executor.State, cmd: Executor.Command, past: Option<Past>)
    requires s.Valid() && Follows(clock, s, cmd.name, past)
    ensures var p, d := Waited(clock, s, cmd, past), CallOf(clock, s, cmd);
            var run := RunOf(clock, p);
            && p.storage == s.storage && p.start <= d.next
            && Answer(p.storage, p.cfg, Later(clock, p.start), run.breaker, run.next,
                      CallDo(cmd.settings.flags, GuardedOf(s, cmd)))
               == Since(p.start, d)
  {
    hide Run, Do, Waited, Executor.WithBreaker;
    WaitedFollows(clock, s, cmd, past);
    var p := Waited(clock, s, cmd, past);
    var run := RunOf(clock, p);
    DoLater(p.storage, p.cfg, cmd.settings.flags, clock, p.start, run.breaker, run.next, GuardedOf(s, cmd));
  }

  /** The breaker of a command as an execution finds it. */
  function Found(clock: Readings, s: Executor.State, cmd: Executor.Command): Breaker
    requires s.Valid()
  {
    Executor.WithBreaker(clock, s, cmd).guards[cmd.name].breaker
  }

  /** The evidence behind a trip: enough requests of the command since its breaker was made or
      last closed by a trial, none past the limit age, and too many errors among them. */
  ghost predicate HasEvidence(clock: Readings, s: Executor.State, cmd: Executor.Command, p: Past)
    requires s.Valid()
  {
    var later, run, d := Later(clock, p.start), RunOf(clock, p), CallOf(clock, s, cmd);
    && p.start <= d.next
    && Justified(p.cfg, later, Found(clock, s, cmd), d.breaker,
                 WithRequest(later, run.next, CallDo(cmd.settings.flags, GuardedOf(s, cmd)),
                             HistoryOf(p.cfg, later, p.calls)),
                 run.next, d.next - p.start)
  }

  /** An execution that opens its breaker does not run its command, and the breaker has the evidence. */
  lemma TrippingExecutionHasEvidence(clock: Readings, s: Executor.State, cmds: seq<Executor.Command>,
                                     cmd: Executor.Command)
    requires s.Valid() && s.guards == map[] && s.storage == Dropped
    requires !Executor.Hits(Executor.After(clock, s, cmds), cmd)
    ensures var t := Executor.After(clock, s, cmds);
            var r := Executor.Exec(clock, t, cmd);
            var p := Waited(clock, t, cmd, PastOf(clock, s, cmds, cmd.name));
            && cmd.name in r.state.guards
            && (Sensible(p.cfg, clock) && Trip(Found(clock, t, cmd), r.state.guards[cmd.name].breaker) ==>
                  Executor.Run !in r.calls && HasEvidence(clock, t, cmd, p))
  {
    hide Executor.Exec, Executor.After, Executor.WithBreaker, Run, Waited, PastOf, HistoryOf, WithRequest, Justified,
         CallOf, Answer;
    CommandsFollowTheirBreakers(clock, s, cmds, cmd.name);
    var t := Executor.After(clock, s, cmds);
    var past := PastOf(clock, s, cmds, cmd.name);
    var p := Waited(clock, t, cmd, past);
    WaitedFollows(clock, t, cmd, past);
    ExecCallsBreaker(clock, t, cmd);
    CallIsAnswered(clock, t, cmd, past);
    if Sensible(p.cfg, clock) {
      LaterIsSensible(p.cfg, clock, p.start);
      EveryTripHasEvidence(p.cfg, Later(clock, p.start), p.calls, CallDo(cmd.settings.flags, GuardedOf(t, cmd)));
    }
  }

  /** While its breaker is open and not forced, a command runs as a trial only; and whatever is
      forced, its breaker closes just when a trial succeeds. */
  lemma OpenBreakerRunsOnlyTrials(clock: Readings, s: Executor.State, cmds: seq<Executor.Command>,
                                  cmd: Executor.Command)
    requires s.Valid() && s.guards == map[] && s.storage == Dropped
    ensures var t := Executor.After(clock, s, cmds);
            var r, d := Executor.Exec(clock, t, cmd), CallOf(clock, t, cmd);
            var p := Waited(clock, t, cmd, PastOf(clock, s, cmds, cmd.name));
            Sensible(p.cfg, clock) && !Executor.Hits(t, cmd) && Found(clock, t, cmd).open ==>
              && cmd.name in r.state.guards
              && (Counts(cmd.settings.flags) && !cmd.settings.flags.forceClosed && Executor.Run in r.calls ==>
                    Trial(d.value))
              && (r.state.guards[cmd.name].breaker.open <==> d.value != Executed(true, Returned(None)))
  {
    hide Executor.Exec, Executor.After, Executor.WithBreaker, Run, Waited, PastOf, CallOf, Answer;
    CommandsFollowTheirBreakers(clock, s, cmds, cmd.name);
    var t := Executor.After(clock, s, cmds);
    var past := PastOf(clock, s, cmds, cmd.name);
    var p := Waited(clock, t, cmd, past);
    WaitedFollows(clock, t, cmd, past);
    ExecCallsBreaker(clock, t, cmd);
    CallIsAnswered(clock, t, cmd, past);
    if Sensible(p.cfg, clock) {
      LaterIsSensible(p.cfg, clock, p.start);
      OnlyTrialsPassOpenBreaker(p.cfg, Later(clock, p.start), p.calls, CallDo(cmd.settings.flags, GuardedOf(t, cmd)));
    }
  }

  // The spacing of trials.

  /** When the executions of a command have run as trials: each by the second reading of its call. */
  function TrialTimes(clock: Readings, s: Executor.State, cmds: seq<Executor.Command>, name: string): seq<int>
    requires s.Valid()
  {
    if cmds == [] then []
    else
      var t, cmd := Executor.After(clock, s, cmds[..|cmds| - 1]), cmds[|cmds| - 1];
      var before := TrialTimes(clock, s, cmds[..|cmds| - 1], name);
      if cmd.name == name && !Executor.Hits(t, cmd) && Trial(CallOf(clock, t, cmd).value)
      then before + [clock(Executor.WithBreaker(clock, t, cmd).next + 1)]
      else before
  }

  function TimesOfTrials(marks: seq<Mark>): seq<int> {
    if marks == [] then []
    else TimesOfTrials(marks[..|marks| - 1]) + if marks[|marks| - 1].trial then [marks[|marks| - 1].time] else []
  }

  lemma MarkPushed(marks: seq<Mark>, m: Mark)
    ensures TimesOfTrials(marks + [m]) == TimesOfTrials(marks) + if m.trial then [m.time] else []
  {
    assert (marks + [m])[..|marks|] == marks;
  }

  lemma OnlyTrialsAddTimes(clock: Readings, before: Step<seq<Reply>>, s: Step<Reply>, marks: seq<Mark>)
    ensures TimesOfTrials(WithMark(clock, before, s, marks))
         == TimesOfTrials(marks) + if Trial(s.value) then [clock(before.next + 1)] else []
  {
    MarkPushed(marks, Mark(clock(before.next + 1), true));
    MarkPushed(marks, Mark(s.breaker.lastTrialTime, false));
  }

  function MarksOf(clock: Readings, past: Option<Past>): seq<Mark> {
    if past.None? then [] else Marks(past.value.cfg, Later(clock, past.value.start), past.value.calls)
  }

  lemma MarksPushed(cfg: Config, clock: Readings, calls: seq<Call>, call: Call)
    ensures var before := Run(Dropped, cfg, clock, calls);
            Marks(cfg, clock, calls + [call])
            == WithMark(clock, before, Answer(Dropped, cfg, clock, before.breaker, before.next, call),
                        Marks(cfg, clock, calls))
  {
    assert (calls + [call])[..|calls|] == calls;
  }

  /** The wait before a call leaves no mark; the call leaves one for a trial, and maybe one for a trip. */
  lemma CallMarked(clock: Readings, s: Executor.State, cmd: Executor.Command, past: Option<Past>)
    requires s.Valid() && Follows(clock, s, cmd.name, past) && s.storage == Dropped
    ensures TimesOfTrials(MarksOf(clock, Some(Called(clock, s, cmd, past))))
         == TimesOfTrials(MarksOf(clock, past))
            + if Trial(CallOf(clock, s, cmd).value) then [clock(Executor.WithBreaker(clock, s, cmd).next + 1)] else []
  {
    hide Run, Do, Executor.WithBreaker, Answer, WithMark, TimesOfTrials, Marks, CallOf;
    var p0 := if past.Some? then past.value else Past(s.storage, s.next, cmd.settings.breaker, []);
    var p := Waited(clock, s, cmd, past);
    var later, wait := Later(clock, p.start), p.calls[|p0.calls|];
    NoCallsNoMarks(p0.cfg, later);
    WaitLeavesNoMark(p0.cfg, later, p0.calls, wait);
    WaitedFollows(clock, s, cmd, past);
    CallIsAnswered(clock, s, cmd, past);
    var call := CallDo(cmd.settings.flags, GuardedOf(s, cmd));
    MarksPushed(p.cfg, later, p.calls, call);
    OnlyTrialsAddTimes(later, RunOf(clock, p), Since(p.start, CallOf(clock, s, cmd)), Marks(p.cfg, later, p.calls));
  }

  lemma NoCallsNoMarks(cfg: Config, clock: Readings)
    ensures Marks(cfg, clock, []) == []
  {
  }

  lemma WaitLeavesNoMark(cfg: Config, clock: Readings, calls: seq<Call>, wait: Call)
    requires wait.Wait?
    ensures Marks(cfg, clock, calls + [wait]) == Marks(cfg, clock, calls)
  {
    MarksPushed(cfg, clock, calls, wait);
  }

  lemma {:induction false} TrialTimesAreMarked(clock: Readings, s: Executor.State, cmds: seq<Executor.Command>,
                                               name: string)
    requires s.Valid() && s.guards == map[] && s.storage == Dropped
    ensures TrialTimes(clock, s, cmds, name) == TimesOfTrials(MarksOf(clock, PastOf(clock, s, cmds, name)))
  {
    hide Executor.Exec, Follows, CallOf, Called, MarksOf, TimesOfTrials, Executor.WithBreaker;
    if cmds == [] {
      assert TimesOfTrials(MarksOf(clock, None)) == [] by { NothingMarked(clock); }
    } else {
      var before, cmd := cmds[..|cmds| - 1], cmds[|cmds| - 1];
      TrialTimesAreMarked(clock, s, before, name);
      CommandsFollowTheirBreakers(clock, s, before, name);
      var t := Executor.After(clock, s, before);
      if cmd.name == name && !Executor.Hits(t, cmd) {
        CallMarked(clock, t, cmd, PastOf(clock, s, before, name));
      }
    }
  }

  lemma NothingMarked(clock: Readings)
    ensures TimesOfTrials(MarksOf(clock, None)) == []
  {
  }

  /** Each time is more than a gap later than the one before it. */
  ghost predicate Apart(times: seq<int>, gap: int) {
    forall i :: 0 <= i < |times| - 1 ==> times[i + 1] > times[i] + gap
  }

  lemma {:induction false} SpacedTrialsAreApart(cfg: Config, marks: seq<Mark>)
    requires Spaced(cfg, marks) && 0 <= cfg.sleepWindow
    ensures Apart(TimesOfTrials(marks), cfg.sleepWindow)
    ensures TimesOfTrials(marks) != [] ==>
              marks != [] && TimesOfTrials(marks)[|TimesOfTrials(marks)| - 1] <= marks[|marks| - 1].time
  {
    if marks != [] {
      SpacedTrialsAreApart(cfg, marks[..|marks| - 1]);
    }
  }

  /** In every run of a new executor, on a clock that does not go back, two trials of a command
      are more than a sleep window apart. */
  lemma TrialsOfCommandAreApart(clock: Readings, s: Executor.State, cmds: seq<Executor.Command>, name: string)
    requires s.Valid() && s.guards == map[] && s.storage == Dropped
    requires var past := PastOf(clock, s, cmds, name); past.Some? ==> Sensible(past.value.cfg, clock)
    ensures var past := PastOf(clock, s, cmds, name);
            if past.Some? then Apart(TrialTimes(clock, s, cmds, name), past.value.cfg.sleepWindow)
            else TrialTimes(clock, s, cmds, name) == []
  {
    hide PastOf, TrialTimes, Marks, Run;
    TrialTimesAreMarked(clock, s, cmds, name);
    var past := PastOf(clock, s, cmds, name);
    if past.Some? {
      var p := past.value;
      LaterIsSensible(p.cfg, clock, p.start);
      MarksSpaced(p.cfg, Later(clock, p.start), p.calls);
      SpacedTrialsAreApart(p.cfg, MarksOf(clock, past));
    }
  }
}
