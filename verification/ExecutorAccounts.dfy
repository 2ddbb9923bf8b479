/** The metrics of an executor against the history of its executions. */
module ExecutorAccounts {
  import opened Clocks
  import opened Outcomes
  import opened RequestLog
  import opened RollingWindow
  import opened RollingNumber
  import opened PercentileModel
  import Metrics = MetricsModel
  import Percentage = MetricsPercentage
  import opened Model = ExecutorModel
  import opened ExecutorOutcomes
  import opened ExecutorCache

  /** The state in which an execution makes its accounts. */
  function Booked(clock: Readings, s: State, cmd: Command): (t: State)
    requires s.Valid()
    ensures t.Valid() && t.next >= s.next
  {
    if Hits(s, cmd) then s else Attempted(clock, s, cmd).state
  }

  /** The update of the metrics of a command that an execution makes. */
  function UpdateOf(clock: Readings, s: State, cmd: Command, earlier: seq<Metrics.Update>): Metrics.Update
    requires s.Valid()
  {
    var r := Exec(clock, s, cmd);
    var start := WithMetrics(clock, Booked(clock, s, cmd), r.info.commandName).next;
    var read := Metrics.After(clock, earlier).next;
    Metrics.Update(if start >= read then start - read else 0, r.info.events)
  }

  /** All updates of the metrics of a command that a run makes. */
  function UpdatesOf(clock: Readings, s: State, cmds: seq<Command>, name: string): seq<Metrics.Update>
    requires s.Valid()
  {
    if cmds == [] then []
    else
      var before, cmd := UpdatesOf(clock, s, cmds[..|cmds| - 1], name), cmds[|cmds| - 1];
      if cmd.name == name then before + [UpdateOf(clock, Model.After(clock, s, cmds[..|cmds| - 1]), cmd, before)]
      else before
  }

  /** The counters of a command are those of the ledger of its updates. */
  ghost predicate Follows(clock: Readings, s: State, name: string, updates: seq<Metrics.Update>) {
    var l := Metrics.After(clock, updates);
    && l.next <= s.next
    && (if name in s.metrics then s.metrics[name].counters == l.counters else updates == [])
  }

  lemma HandledUpdates(clock: Readings, a: Attempt, cmd: Command)
    requires a.state.Valid()
    ensures var r := Handled(clock, a, cmd);
            && r.info.commandName == cmd.name
            && r.state.metrics == Updated(clock, a.state, r.info).metrics
            && r.state.next == Updated(clock, a.state, r.info).next
  {
    hide Updated, Rescued, Kept, Logged;
  }

  lemma ExecUpdates(clock: Readings, s: State, cmd: Command)
    requires s.Valid() && CacheSound(s)
    ensures var b := Booked(clock, s, cmd);
            var r := Exec(clock, s, cmd);
            && r.info.commandName == cmd.name && b.metrics == s.metrics
            && r.state.metrics == Updated(clock, b, r.info).metrics && r.state.next == Updated(clock, b, r.info).next
  {
    hide Attempted, Updated, Handled;
    HandledUpdates(clock, Attempted(clock, s, cmd), cmd);
    AttemptKeepsAccounts(clock, s, cmd);
  }

  lemma UpdatedCounters(clock: Readings, s: State, info: ExecutionInfo)
    requires s.Valid()
    ensures var name := info.commandName;
            var w, t := WithMetrics(clock, s, name), Updated(clock, s, info);
            var c := Metrics.CountEvents(w.metrics[name].counters, clock, w.next, Metrics.Credited(info.events));
            && (name !in s.metrics ==> w.metrics[name].counters == map[])
            && (name in s.metrics ==> w.metrics[name] == s.metrics[name])
            && name in t.metrics && t.metrics[name].counters == c.counters && c.next <= t.next
            && (forall other :: other != name ==>
                  (other in t.metrics <==> other in s.metrics)
                  && (other in s.metrics ==> t.metrics[other] == s.metrics[other]))
  {
    hide Metrics.CountEvents, Metrics.Credited, Metrics.Timed, Recorded, NewSampler;
  }

  lemma ExecFollows(clock: Readings, s: State, cmd: Command, name: string, updates: seq<Metrics.Update>)
    requires s.Valid() && CacheSound(s) && Follows(clock, s, name, updates)
    ensures Follows(clock, Exec(clock, s, cmd).state, name,
                    if cmd.name == name then updates + [UpdateOf(clock, s, cmd, updates)] else updates)
  {
    hide Exec, Updated, Booked, WithMetrics, Metrics.CountEvents, Metrics.Credited, Metrics.CreditAll;
    var b, r, l := Booked(clock, s, cmd), Exec(clock, s, cmd), Metrics.After(clock, updates);
    ExecUpdates(clock, s, cmd);
    UpdatedCounters(clock, b, r.info);
    if cmd.name == name {
      var u := UpdateOf(clock, s, cmd, updates);
      assert (updates + [u])[..|updates|] == updates;
      Metrics.LedgerFollowsCounters(clock, l.(next := l.next + u.skipped), Metrics.Credited(u.events));
    }
  }

  lemma {:induction false} RunFollows(clock: Readings, s: State, cmds: seq<Command>, name: string)
    requires s.Valid() && s.metrics == map[] && CacheSound(s)
    ensures Follows(clock, Model.After(clock, s, cmds), name, UpdatesOf(clock, s, cmds, name))
  {
    hide Exec, UpdateOf, CacheSound;
    if cmds == [] {
      assert Metrics.After(clock, []).next == 0;
    } else {
      var before := cmds[..|cmds| - 1];
      RunFollows(clock, s, before, name);
      RunKeepsCacheSound(clock, s, before);
      ExecFollows(clock, Model.After(clock, s, before), cmds[|cmds| - 1], name, UpdatesOf(clock, s, before, name));
    }
  }

  // One account for each execution.

  function ExecutionsOf(cmds: seq<Command>, name: string): nat {
    if cmds == [] then 0 else ExecutionsOf(cmds[..|cmds| - 1], name) + if cmds[|cmds| - 1].name == name then 1 else 0
  }

  lemma {:induction false} AccountsAreOccurrences(events: seq<ExecutionEvent>)
    ensures AccountsIn(events)
         == Metrics.Occurrences(events, Success) + Metrics.Occurrences(events, Failure)
            + Metrics.Occurrences(events, Timeout)
          + Metrics.Occurrences(events, ShortCircuited) + Metrics.Occurrences(events, ExecutionEvent.SemaphoreRejected)
          + Metrics.Occurrences(events, ResponseFromCache)
  {
    if events != [] {
      AccountsAreOccurrences(events[..|events| - 1]);
    }
  }

  /** How often a command has been credited with any of the six accounts. */
  function AllCredits(updates: seq<Metrics.Update>): nat {
    Metrics.Credits(updates, Success) + Metrics.Credits(updates, Failure) + Metrics.Credits(updates, Timeout)
    + Metrics.Credits(updates, ShortCircuited) + Metrics.Credits(updates, ExecutionEvent.SemaphoreRejected)
    + Metrics.Credits(updates, ResponseFromCache)
  }

  lemma OneMoreCredit(updates: seq<Metrics.Update>, u: Metrics.Update)
    requires FreshEvents(u.events) || CachedEvents(u.events)
    ensures AllCredits(updates + [u]) == AllCredits(updates) + 1
  {
    hide Metrics.Credited, Metrics.Occurrences, AccountsIn;
    assert (updates + [u])[..|updates|] == updates;
    OneAccount(u.events);
    AccountsAreOccurrences(Metrics.Credited(u.events));
  }

  lemma {:induction false} EachExecutionCreditedOnce(clock: Readings, s: State, cmds: seq<Command>, name: string)
    requires s.Valid() && CacheSound(s)
    ensures AllCredits(UpdatesOf(clock, s, cmds, name)) == ExecutionsOf(cmds, name)
  {
    hide Exec, AllCredits, CacheSound;
    if cmds == [] {
      assert AllCredits([]) == 0 by { NothingCredited(); }
    } else {
      var before, cmd := cmds[..|cmds| - 1], cmds[|cmds| - 1];
      EachExecutionCreditedOnce(clock, s, before, name);
      RunKeepsCacheSound(clock, s, before);
      var t := Model.After(clock, s, before);
      ExecEvents(clock, t, cmd);
      OneMoreCredit(UpdatesOf(clock, s, before, name), UpdateOf(clock, t, cmd, UpdatesOf(clock, s, before, name)));
    }
  }

  lemma NothingCredited()
    ensures AllCredits([]) == 0
  {
  }

  /** The times at which a command has been credited with an event, by a run. */
  function CreditTimes(clock: Readings, s: State, cmds: seq<Command>, name: string, e: ExecutionEvent): seq<int>
    requires s.Valid()
  {
    Metrics.After(clock, UpdatesOf(clock, s, cmds, name)).Times(e)
  }

  /** In every run of a new executor, each execution is counted exactly once among the six accounts. */
  lemma ExecutionsAreCountedOnce(clock: Readings, s: State, cmds: seq<Command>, name: string)
    requires s.Valid() && s.metrics == map[] && CacheSound(s)
    ensures |CreditTimes(clock, s, cmds, name, Success)| + |CreditTimes(clock, s, cmds, name, Failure)|
          + |CreditTimes(clock, s, cmds, name, Timeout)| + |CreditTimes(clock, s, cmds, name, ShortCircuited)|
          + |CreditTimes(clock, s, cmds, name, ExecutionEvent.SemaphoreRejected)|
          + |CreditTimes(clock, s, cmds, name, ResponseFromCache)|
         == ExecutionsOf(cmds, name)
  {
    var updates := UpdatesOf(clock, s, cmds, name);
    EachExecutionCreditedOnce(clock, s, cmds, name);
    hide UpdatesOf, Metrics.After, Metrics.Credits, ExecutionsOf, Model.After;
    Metrics.LedgerCountsCredits(clock, updates, Success);
    Metrics.LedgerCountsCredits(clock, updates, Failure);
    Metrics.LedgerCountsCredits(clock, updates, Timeout);
    Metrics.LedgerCountsCredits(clock, updates, ShortCircuited);
    Metrics.LedgerCountsCredits(clock, updates, ExecutionEvent.SemaphoreRejected);
    Metrics.LedgerCountsCredits(clock, updates, ResponseFromCache);
  }

  /** And the rolling sums of the executor's own counters count exactly the latest of those times. */
  lemma RollingSumsCountExecutions(clock: Readings, s: State, cmds: seq<Command>, name: string, e: ExecutionEvent,
                                   skipped: nat)
    requires NonDecreasing(clock) && s.Valid() && s.metrics == map[] && CacheSound(s)
    ensures var t := Model.After(clock, s, cmds);
            var counters := if name in t.metrics then t.metrics[name].counters else map[];
            CountsLatest(DEFAULT_BUCKET_SIZE, DEFAULT_WINDOW_BUCKETS,
                         Metrics.RollingSum(counters, clock, t.next + skipped, e).value,
                         CreditTimes(clock, s, cmds, name, e), clock(t.next + skipped))
  {
    hide UpdatesOf, Model.After, CountsLatest, Metrics.RollingSum;
    RunFollows(clock, s, cmds, name);
    var t, updates := Model.After(clock, s, cmds), UpdatesOf(clock, s, cmds, name);
    var l := Metrics.After(clock, updates);
    Metrics.RollingSumCountsCredits(clock, updates, t.next + skipped - l.next, e);
    assert name !in t.metrics ==> l.counters == map[];
  }

  /** Whether an execution with these events counts for this one: a response from cache counts as that alone, any other
      execution once for each of its events. */
  predicate CountsAs(events: seq<ExecutionEvent>, e: ExecutionEvent) {
    if ResponseFromCache in events then e == ResponseFromCache else e in events
  }

  /** How many executions of a command count for an event. */
  function ExecutionsAs(clock: Readings, s: State, cmds: seq<Command>, name: string, e: ExecutionEvent): nat
    requires s.Valid()
  {
    if cmds == [] then 0
    else
      var before, cmd := cmds[..|cmds| - 1], cmds[|cmds| - 1];
      ExecutionsAs(clock, s, before, name, e)
      + if cmd.name == name && CountsAs(Exec(clock, Model.After(clock, s, before), cmd).info.events, e) then 1 else 0
  }

  lemma OccursOnce(events: seq<ExecutionEvent>, e: ExecutionEvent)
    requires FreshEvents(events) || CachedEvents(events)
    ensures Metrics.Occurrences(Metrics.Credited(events), e) == if CountsAs(events, e) then 1 else 0
  {
    var credited := Metrics.Credited(events);
    assert Metrics.Occurrences([], e) == 0;
    assert credited[..1] == [credited[0]] && credited[..1][..0] == [];
    assert Metrics.Occurrences(credited[..1], e) == if credited[0] == e then 1 else 0;
  }

  lemma NextCredits(updates: seq<Metrics.Update>, u: Metrics.Update, e: ExecutionEvent)
    requires FreshEvents(u.events) || CachedEvents(u.events)
    ensures Metrics.Credits(updates + [u], e) == Metrics.Credits(updates, e) + if CountsAs(u.events, e) then 1 else 0
  {
    hide Metrics.Occurrences, CountsAs;
    assert (updates + [u])[..|updates|] == updates;
    OccursOnce(u.events, e);
  }

  lemma {:induction false} ExecutionsCredited(clock: Readings, s: State, cmds: seq<Command>, name: string,
                                              e: ExecutionEvent)
    requires s.Valid() && CacheSound(s)
    ensures Metrics.Credits(UpdatesOf(clock, s, cmds, name), e) == ExecutionsAs(clock, s, cmds, name, e)
  {
    hide Exec, CacheSound, Metrics.Credits, CountsAs;
    if cmds == [] {
      assert Metrics.Credits([], e) == 0 by { NoneCredited(e); }
    } else {
      var before, cmd := cmds[..|cmds| - 1], cmds[|cmds| - 1];
      ExecutionsCredited(clock, s, before, name, e);
      RunKeepsCacheSound(clock, s, before);
      var t := Model.After(clock, s, before);
      ExecEvents(clock, t, cmd);
      NextCredits(UpdatesOf(clock, s, before, name), UpdateOf(clock, t, cmd, UpdatesOf(clock, s, before, name)), e);
    }
  }

  lemma NoneCredited(e: ExecutionEvent)
    ensures Metrics.Credits([], e) == 0
  {
  }

  /** In every run of a new executor each event is credited exactly once for each execution that counts for it. */
  lemma CreditsAreExecutions(clock: Readings, s: State, cmds: seq<Command>, name: string, e: ExecutionEvent)
    requires s.Valid() && CacheSound(s)
    ensures |CreditTimes(clock, s, cmds, name, e)| == ExecutionsAs(clock, s, cmds, name, e)
  {
    hide UpdatesOf, ExecutionsAs, Metrics.Credits, Metrics.After;
    ExecutionsCredited(clock, s, cmds, name, e);
    Metrics.LedgerCountsCredits(clock, UpdatesOf(clock, s, cmds, name), e);
  }

  /** And the error percentage of the executor's own counters is the share of the failures among these credits. */
  lemma ErrorPercentageOfExecutions(clock: Readings, s: State, cmds: seq<Command>, name: string, skipped: nat)
    requires NonDecreasing(clock) && s.Valid() && s.metrics == map[] && CacheSound(s)
    ensures var t := Model.After(clock, s, cmds);
            var counters := if name in t.metrics then t.metrics[name].counters else map[];
            var l := Metrics.After(clock, UpdatesOf(clock, s, cmds, name)).(next := t.next + skipped);
            && l.counters == counters && Metrics.Valid(counters)
            && (forall e :: l.Times(e) == CreditTimes(clock, s, cmds, name, e))
            && (exists total, errors :: Percentage.SharesCounts(clock, l, total, errors))
            && (Percentage.Still(clock, l.next, 9, clock(l.next)) ==> Percentage.IsOfWindow(clock, l))
  {
    hide UpdatesOf, Model.After, Metrics.After, Percentage.SharesCounts, Percentage.IsOfWindow, Metrics.Valid;
    RunFollows(clock, s, cmds, name);
    var t, updates := Model.After(clock, s, cmds), UpdatesOf(clock, s, cmds, name);
    var next := Metrics.After(clock, updates).next;
    NeverUpdated(clock);
    Percentage.ErrorPercentageOfUpdates(clock, updates, t.next + skipped - next);
    assert next + (t.next + skipped - next) == t.next + skipped;
  }

  lemma NeverUpdated(clock: Readings)
    ensures Metrics.After(clock, []).counters == map[]
  {
  }

  // The log.

  /** What the executions of a run account for, those with the log switched off left out. */
  function Logbook(clock: Readings, s: State, cmds: seq<Command>): seq<ExecutionInfo>
    requires s.Valid()
  {
    if cmds == [] then []
    else
      var before, cmd := Logbook(clock, s, cmds[..|cmds| - 1]), cmds[|cmds| - 1];
      if cmd.settings.requestLogEnabled then before + [Exec(clock, Model.After(clock, s, cmds[..|cmds| - 1]), cmd).info]
      else before
  }

  function LoggedCommands(cmds: seq<Command>): seq<Command> {
    if cmds == [] then []
    else LoggedCommands(cmds[..|cmds| - 1])
         + if cmds[|cmds| - 1].settings.requestLogEnabled then [cmds[|cmds| - 1]] else []
  }

  /** The log gets exactly one entry for each of them, in order, with its name and possible events. */
  lemma {:induction false} LogHoldsEachExecutionOnce(clock: Readings, s: State, cmds: seq<Command>)
    requires s.Valid() && CacheSound(s) && s.log.Some?
    ensures Model.After(clock, s, cmds).log == Some(s.log.value + Logbook(clock, s, cmds))
    ensures |Logbook(clock, s, cmds)| == |LoggedCommands(cmds)|
    ensures forall i :: 0 <= i < |LoggedCommands(cmds)| ==>
              && Logbook(clock, s, cmds)[i].commandName == LoggedCommands(cmds)[i].name
              && (FreshEvents(Logbook(clock, s, cmds)[i].events) || CachedEvents(Logbook(clock, s, cmds)[i].events))
  {
    hide Exec, CacheSound, FreshEvents, CachedEvents;
    if cmds != [] {
      var before := cmds[..|cmds| - 1];
      LogHoldsEachExecutionOnce(clock, s, before);
      RunKeepsCacheSound(clock, s, before);
      var info := Exec(clock, Model.After(clock, s, before), cmds[|cmds| - 1]).info;
      ExecEvents(clock, Model.After(clock, s, before), cmds[|cmds| - 1]);
      assert s.log.value + Logbook(clock, s, before) + [info] == s.log.value + (Logbook(clock, s, before) + [info]);
    } else {
      assert s.log.value + [] == s.log.value;
    }
  }
}
