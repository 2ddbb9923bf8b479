/**
 Executors whose breakers drop their health snapshots against executors whose breakers
 store them: with sleep windows of at least the snapshot interval no execution differs.
 */
module ExecutorSnapshot {
  import opened Clocks
  import opened Outcomes
  import opened RollingNumber
  import opened Semaphore
  import opened BreakerModel
  import opened BreakerSnapshot
  import opened RequestLog
  import opened RequestCache
  import opened ExecutorModel
  import Metrics = MetricsModel
  import PercentileModel

  /** The sleep window covers the snapshot interval. */
  ghost predicate Covered(cfg: Config) {
    0 <= cfg.errorThresholdPercentage && 0 <= cfg.healthSnapshotInterval <= cfg.sleepWindow
  }

  ghost predicate GuardsAlike(clock: Readings, dropping: map<string, Guard>, storing: map<string, Guard>, k: nat) {
    && (forall name :: name in dropping <==> name in storing)
    && (forall name :: name in dropping ==> GuardAlike(clock, dropping[name], storing[name], k))
  }

  ghost predicate GuardAlike(clock: Readings, dropping: Guard, storing: Guard, k: nat) {
    && dropping.cfg == storing.cfg && Covered(dropping.cfg)
    && Similar(dropping.cfg, clock, dropping.breaker, storing.breaker, k)
  }

  /** The state of the other executor, with its own breakers. */
  function Storing(s: State, guards: map<string, Guard>): State {
    s.(storage := Stored, guards := guards)
  }

  ghost predicate Alike(clock: Readings, dropping: State, storing: State) {
    && dropping.Valid() && dropping.storage == Dropped
    && storing == Storing(dropping, storing.guards)
    && GuardsAlike(clock, dropping.guards, storing.guards, dropping.next)
  }

  lemma AlikeIsValid(clock: Readings, dropping: State, storing: State)
    requires Alike(clock, dropping, storing)
    ensures storing.Valid()
  {
    forall name | name in storing.guards ensures storing.guards[name].breaker.Valid() {
      assert GuardAlike(clock, dropping.guards[name], storing.guards[name], dropping.next);
    }
  }

  lemma GuardsAlikeLater(clock: Readings, dropping: map<string, Guard>, storing: map<string, Guard>, k: nat, k': nat)
    requires NonDecreasing(clock) && k <= k' && GuardsAlike(clock, dropping, storing, k)
    ensures GuardsAlike(clock, dropping, storing, k')
  {
    forall name | name in dropping ensures GuardAlike(clock, dropping[name], storing[name], k') {
      SimilarLater(dropping[name].cfg, clock, dropping[name].breaker, storing[name].breaker, k, k');
    }
  }

  lemma BreakersAlike(clock: Readings, dropping: State, storing: State, cmd: Command)
    requires NonDecreasing(clock) && Alike(clock, dropping, storing) && Covered(cmd.settings.breaker)
    ensures storing.Valid()
    ensures Alike(clock, WithBreaker(clock, dropping, cmd), WithBreaker(clock, storing, cmd))
  {
    hide NewBreaker, GuardAlike;
    AlikeIsValid(clock, dropping, storing);
    if cmd.name !in dropping.guards {
      GuardsAlikeLater(clock, dropping.guards, storing.guards, dropping.next, dropping.next + 2);
      NewAlike(clock, cmd.settings.breaker, dropping.next);
    }
  }

  lemma NewAlike(clock: Readings, cfg: Config, k: nat)
    requires Covered(cfg)
    ensures GuardAlike(clock, Guard(cfg, NewBreaker(clock, k)), Guard(cfg, NewBreaker(clock, k)), k + 2)
  {
  }

  /** One step of the breaker of a command, seen alike. */
  lemma StepsAlike(clock: Readings, dropping: State, storing: State, name: string, d: Step<Reply>, s: Step<Reply>)
    requires NonDecreasing(clock) && Alike(clock, dropping, storing) && storing.Valid() && name in dropping.guards
    requires d.next == s.next >= dropping.next
    requires GuardAlike(clock, Guard(dropping.guards[name].cfg, d.breaker), Guard(dropping.guards[name].cfg, s.breaker),
                        d.next)
    ensures d.breaker.Valid() && s.breaker.Valid() && name in storing.guards
    ensures Alike(clock, WithStep(dropping, name, d), WithStep(storing, name, s))
  {
    hide GuardAlike;
    GuardAlikeIsValid(clock, Guard(dropping.guards[name].cfg, d.breaker), Guard(dropping.guards[name].cfg, s.breaker),
                      d.next);
    GuardsAlikeLater(clock, dropping.guards, storing.guards, dropping.next, d.next);
    assert GuardAlike(clock, dropping.guards[name], storing.guards[name], d.next);
    SameConfig(clock, dropping.guards[name], storing.guards[name], d.next);
  }

  lemma GuardAlikeIsValid(clock: Readings, dropping: Guard, storing: Guard, k: nat)
    requires GuardAlike(clock, dropping, storing, k)
    ensures dropping.breaker.Valid() && storing.breaker.Valid()
  {
  }

  lemma SameConfig(clock: Readings, dropping: Guard, storing: Guard, k: nat)
    requires GuardAlike(clock, dropping, storing, k)
    ensures dropping.cfg == storing.cfg
  {
  }

  /** The call of the breaker. */
  lemma CallsAlike(clock: Readings, dropping: State, storing: State, cmd: Command, f: Outcome)
    requires NonDecreasing(clock) && Alike(clock, dropping, storing) && storing.Valid() && cmd.name in dropping.guards
    ensures cmd.name in storing.guards
    ensures var g, h := dropping.guards[cmd.name], storing.guards[cmd.name];
            var d := Do(Dropped, g.cfg, cmd.settings.flags, clock, g.breaker, dropping.next, f);
            var s := Do(Stored, h.cfg, cmd.settings.flags, clock, h.breaker, storing.next, f);
            d.value == s.value && Alike(clock, WithStep(dropping, cmd.name, d), WithStep(storing, cmd.name, s))
  {
    hide Do, WithStep, Similar;
    var g, h := dropping.guards[cmd.name], storing.guards[cmd.name];
    assert GuardAlike(clock, g, h, dropping.next);
    DoSimilar(g.cfg, cmd.settings.flags, clock, g.breaker, h.breaker, dropping.next, f);
    StepsAlike(clock, dropping, storing, cmd.name,
               Do(Dropped, g.cfg, cmd.settings.flags, clock, g.breaker, dropping.next, f),
               Do(Stored, h.cfg, cmd.settings.flags, clock, h.breaker, storing.next, f));
  }

  /** What the two deferred handlers find. */
  ghost predicate AttemptsAlike(clock: Readings, d: Attempt, s: Attempt) {
    Alike(clock, d.state, s.state) && s == d.(state := s.state)
  }

  lemma BorrowedAlike(clock: Readings, dropping: State, storing: State, cmd: Command)
    requires Alike(clock, dropping, storing) && storing.Valid()
    ensures Alike(clock, Borrowed(dropping, cmd), Borrowed(storing, cmd))
  {
    hide GroupPermits;
  }

  lemma AlikeShare(clock: Readings, dropping: State, storing: State)
    requires Alike(clock, dropping, storing)
    ensures dropping.Valid() && dropping.storage == Dropped && storing.storage == Stored
    ensures dropping.semaphores == storing.semaphores && dropping.next == storing.next
    ensures forall name :: name in dropping.guards && name in storing.guards ==>
              dropping.guards[name].cfg == storing.guards[name].cfg
  {
  }

  lemma AttemptedAlike(clock: Readings, dropping: State, storing: State, cmd: Command)
    requires NonDecreasing(clock) && Alike(clock, dropping, storing) && Covered(cmd.settings.breaker)
    ensures storing.Valid()
    ensures AttemptsAlike(clock, Attempted(clock, dropping, cmd), Attempted(clock, storing, cmd))
  {
    hide Alike, Borrowed, Do, WithBreaker, WithStep, GroupPermits, Guarded, Said, Admits;
    AlikeShare(clock, dropping, storing);
    BreakersAlike(clock, dropping, storing, cmd);
    var t, u := WithBreaker(clock, dropping, cmd), WithBreaker(clock, storing, cmd);
    var p := GroupPermits(t.semaphores, cmd.group, cmd.settings.maxConcurrentRequests);
    AlikeShare(clock, t, u);
    CallsAlike(clock, t, u, cmd, Guarded(p, cmd.run));
    var d := Do(Dropped, t.guards[cmd.name].cfg, cmd.settings.flags, clock, t.guards[cmd.name].breaker, t.next,
                Guarded(p, cmd.run));
    var e := Do(Stored, u.guards[cmd.name].cfg, cmd.settings.flags, clock, u.guards[cmd.name].breaker, u.next,
                Guarded(p, cmd.run));
    BorrowedAlike(clock, WithStep(t, cmd.name, d), WithStep(u, cmd.name, e), cmd);
  }

  /** The accounts do not depend on the breakers. */
  lemma MetricsAlike(clock: Readings, s: State, guards: map<string, Guard>, name: string)
    requires s.Valid() && Storing(s, guards).Valid()
    ensures WithMetrics(clock, Storing(s, guards), name) == Storing(WithMetrics(clock, s, name), guards)
    ensures Storing(WithMetrics(clock, s, name), guards).Valid()
  {
    hide PercentileModel.NewSampler;
  }

  lemma UpdatedAlike(clock: Readings, s: State, guards: map<string, Guard>, info: ExecutionInfo)
    requires s.Valid() && Storing(s, guards).Valid()
    ensures Updated(clock, Storing(s, guards), info) == Storing(Updated(clock, s, info), guards)
  {
    hide Metrics.CountEvents, PercentileModel.Recorded, Metrics.Timed, Metrics.Credited, WithMetrics;
    MetricsAlike(clock, s, guards, info.commandName);
  }

  lemma AccountedAlike(clock: Readings, dropping: State, storing: State, cmd: Command, info: ExecutionInfo)
    requires NonDecreasing(clock) && Alike(clock, dropping, storing) && storing.Valid()
    ensures Alike(clock, Accounted(clock, dropping, cmd, info), Accounted(clock, storing, cmd, info))
  {
    hide Updated, GuardsAlike;
    UpdatedAlike(clock, dropping, storing.guards, info);
    var t := Updated(clock, dropping, info);
    UpdateKeepsGuards(clock, dropping, info);
    GuardsAlikeLater(clock, dropping.guards, storing.guards, dropping.next, t.next);
  }

  lemma UpdateKeepsGuards(clock: Readings, s: State, info: ExecutionInfo)
    requires s.Valid()
    ensures Updated(clock, s, info).guards == s.guards
  {
    hide Metrics.CountEvents, PercentileModel.Recorded, Metrics.Timed, Metrics.Credited, PercentileModel.NewSampler;
  }

  lemma KeptAlike(clock: Readings, dropping: State, storing: State, cmd: Command, response: Response,
                  err: Option<Error>, events: seq<ExecutionEvent>)
    requires Alike(clock, dropping, storing) && storing.Valid()
    ensures Alike(clock, Kept(dropping, cmd, response, err, events), Kept(storing, cmd, response, err, events))
  {
    hide GuardsAlike;
  }

  /** Two executions that give the caller the same, account for the same and call the same functions. */
  ghost predicate ResultsAlike(clock: Readings, d: Result, s: Result) {
    Alike(clock, d.state, s.state) && s == d.(state := s.state)
  }

  lemma HandledAlike(clock: Readings, d: Attempt, s: Attempt, cmd: Command)
    requires NonDecreasing(clock) && AttemptsAlike(clock, d, s) && s.state.Valid()
    ensures ResultsAlike(clock, Handled(clock, d, cmd), Handled(clock, s, cmd))
  {
    hide Alike, Accounted, Kept, Rescued;
    var info, events := AccountOf(d, cmd), if d.thrown.None? then [Success] else [];
    AccountedAlike(clock, d.state, s.state, cmd, info);
    AlikeAreValid(clock, d.state, s.state);
    var t, u := Accounted(clock, d.state, cmd, info), Accounted(clock, s.state, cmd, info);
    if d.thrown.None? {
      KeptAlike(clock, t, u, cmd, d.response, d.err, [Success]);
    } else if cmd.settings.fallbackEnabled {
      var f := Rescued(cmd.fallback, d.thrown.value);
      KeptAlike(clock, t, u, cmd, f.response, f.err, []);
    }
  }

  function AccountOf(a: Attempt, cmd: Command): ExecutionInfo {
    ExecutionInfo(cmd.name, cmd.elapsed,
                  if a.thrown.None? then [Success]
                  else if cmd.settings.fallbackEnabled then Rescued(cmd.fallback, a.thrown.value).events
                  else [Failure])
  }

  lemma AlikeAreValid(clock: Readings, dropping: State, storing: State)
    requires Alike(clock, dropping, storing)
    ensures dropping.Valid() && storing.Valid()
  {
    AlikeIsValid(clock, dropping, storing);
  }

  lemma ExecAlike(clock: Readings, dropping: State, storing: State, cmd: Command)
    requires NonDecreasing(clock) && Alike(clock, dropping, storing) && Covered(cmd.settings.breaker)
    ensures storing.Valid()
    ensures ResultsAlike(clock, Exec(clock, dropping, cmd), Exec(clock, storing, cmd))
  {
    hide Accounted, Attempted, Handled, GuardsAlike;
    AttemptedAlike(clock, dropping, storing, cmd);
    AlikeAreValid(clock, Attempted(clock, dropping, cmd).state, Attempted(clock, storing, cmd).state);
    HandledAlike(clock, Attempted(clock, dropping, cmd), Attempted(clock, storing, cmd), cmd);
    if Hits(dropping, cmd) {
      AccountedAlike(clock, dropping, storing, cmd, dropping.cache.value[Key(cmd)].info);
    }
  }

  lemma {:induction false} RunsAlike(clock: Readings, dropping: State, storing: State, cmds: seq<Command>)
    requires NonDecreasing(clock) && Alike(clock, dropping, storing)
    requires forall i :: 0 <= i < |cmds| ==> Covered(cmds[i].settings.breaker)
    ensures storing.Valid()
    ensures Alike(clock, After(clock, dropping, cmds), After(clock, storing, cmds))
  {
    hide Alike, Exec;
    AlikeAreValid(clock, dropping, storing);
    if cmds != [] {
      RunsAlike(clock, dropping, storing, cmds[..|cmds| - 1]);
      ExecAlike(clock, After(clock, dropping, cmds[..|cmds| - 1]), After(clock, storing, cmds[..|cmds| - 1]),
                cmds[|cmds| - 1]);
    }
  }

  /** The same executor, made to store its snapshots. */
  function WithSnapshots(s: State): (t: State)
    requires s.Valid()
    ensures t.Valid()
  {
    s.(storage := Stored)
  }

  /** All that a caller, its request context and the metrics get. */
  ghost predicate SameToCaller(d: Result, s: Result) {
    && d.response == s.response && d.err == s.err && d.info == s.info && d.calls == s.calls
    && d.state.metrics == s.state.metrics && d.state.cache == s.state.cache && d.state.log == s.state.log
  }

  /** In every run of new executors, with any commands and force flags, the next execution gives the
      same response and error, accounts for the same events, and calls the same functions. */
  lemma DroppingIsUnobservableToCallers(clock: Readings, s: State, cmds: seq<Command>, cmd: Command)
    requires NonDecreasing(clock) && s.Valid() && s.storage == Dropped && s.guards == map[]
    requires Covered(cmd.settings.breaker) && forall i :: 0 <= i < |cmds| ==> Covered(cmds[i].settings.breaker)
    ensures SameToCaller(Exec(clock, After(clock, s, cmds), cmd),
                         Exec(clock, After(clock, WithSnapshots(s), cmds), cmd))
  {
    hide Exec, After;
    NewAreAlike(clock, s);
    RunsAlike(clock, s, WithSnapshots(s), cmds);
    ExecAlike(clock, After(clock, s, cmds), After(clock, WithSnapshots(s), cmds), cmd);
  }

  lemma NewAreAlike(clock: Readings, s: State)
    requires s.Valid() && s.storage == Dropped && s.guards == map[]
    ensures Alike(clock, s, WithSnapshots(s))
  {
  }
}
