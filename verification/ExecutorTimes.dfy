/** The execution times an executor keeps of a command: which executions they are of, and when they were added. */
module ExecutorTimes {
  import opened Clocks
  import opened Outcomes
  import opened RequestLog
  import opened RollingNumber
  import opened PercentileModel
  import opened Percentiles
  import Window = PercentileWindow
  import Metrics = MetricsModel
  import opened Model = ExecutorModel
  import opened ExecutorOutcomes
  import opened ExecutorCache
  import opened ExecutorAccounts

  /** An execution is timed unless it is answered from the cache, or told as an open circuit or a rejection: with the
      fallback disabled these count as plain failures, and are timed as well. */
  predicate Measured(clock: Readings, s: State, cmd: Command)
    requires s.Valid()
  {
    && !Hits(s, cmd)
    && (cmd.settings.fallbackEnabled ==>
          CauseOf(clock, s, cmd) !in {Some(PanicError(CircuitOpenError)), Some(PanicError(Error.SemaphoreRejected))})
  }

  lemma MeasuredIsTimed(clock: Readings, s: State, cmd: Command)
    requires s.Valid() && CacheSound(s)
    ensures Metrics.Timed(Exec(clock, s, cmd).info.events) <==> Measured(clock, s, cmd)
  {
    hide Attempted, Accounted, Kept, CauseOf;
    CauseIsThrown(clock, s, cmd);
  }

  /** The percentile of a command since it was made, and the values added to it. */
  datatype Recording = Recording(start: int, run: seq<Window.Access>)

  function TimeOf(cmd: Command): nat {
    if cmd.elapsed < 0 then 0 else cmd.elapsed
  }

  /** What an execution of the command adds: the percentile when it is first needed, and its time at its
      last reading. */
  function WithExecution(clock: Readings, s: State, cmd: Command, before: Option<Recording>): Recording
    requires s.Valid()
  {
    var made := if before.Some? then before.value else Recording(clock(Booked(clock, s, cmd).next), []);
    var last := Exec(clock, s, cmd).state.next;
    if Measured(clock, s, cmd) && 0 < last
    then made.(run := made.run + [Window.Add(clock(last - 1), TimeOf(cmd))]) else made
  }

  function RecordingOf(clock: Readings, s: State, cmds: seq<Command>, name: string): Option<Recording>
    requires s.Valid()
  {
    if cmds == [] then None
    else
      var before, cmd := RecordingOf(clock, s, cmds[..|cmds| - 1], name), cmds[|cmds| - 1];
      if cmd.name == name then Some(WithExecution(clock, Model.After(clock, s, cmds[..|cmds| - 1]), cmd, before))
      else before
  }

  function New(s: State, start: int): (p: Sampler)
    requires 0 < s.percentileBucketSize
    ensures p.Valid()
  {
    NewSampler(DEFAULT_BUCKET_SIZE, DEFAULT_WINDOW_BUCKETS, s.percentileBucketSize, start)
  }

  /** The percentile of a command is the one that took exactly these values. */
  ghost predicate Follows(s: State, name: string, recording: Option<Recording>) {
    0 < s.percentileBucketSize &&
    match recording
    case None => name !in s.metrics
    case Some(r) =>
      name in s.metrics && s.metrics[name].executionTime == Window.After(New(s, r.start), r.run).p
  }

  lemma UpdatedTimes(clock: Readings, s: State, info: ExecutionInfo)
    requires s.Valid()
    ensures var name, t := info.commandName, Updated(clock, s, info);
            var before := if name in s.metrics then s.metrics[name].executionTime else New(s, clock(s.next));
            && name in t.metrics && t.percentileBucketSize == s.percentileBucketSize
            && before.Valid()
            && (Metrics.Timed(info.events) ==>
                  && s.next < t.next
                  && t.metrics[name].executionTime == Recorded(before, clock(t.next - 1), info.ExecutionTime()))
            && (!Metrics.Timed(info.events) ==> t.metrics[name].executionTime == before)
  {
    hide Metrics.CountEvents, Metrics.Credited, Metrics.Timed, Recorded, NewSampler;
  }

  lemma RecordedNext(p: Sampler, run: seq<Window.Access>, now: int, v: int)
    requires p.Valid()
    ensures Window.After(p, run).p.Valid()
    ensures Window.After(p, run + [Window.Add(now, v)]).p == Recorded(Window.After(p, run).p, now, v)
  {
    assert (run + [Window.Add(now, v)])[..|run|] == run;
  }

  lemma ExecRecords(clock: Readings, s: State, cmd: Command, before: Option<Recording>)
    requires s.Valid() && CacheSound(s) && Follows(s, cmd.name, before)
    ensures Follows(Exec(clock, s, cmd).state, cmd.name, Some(WithExecution(clock, s, cmd, before)))
  {
    hide Exec, Updated, Booked, Measured, Recorded, NewSampler, Window.After, CacheSound, Metrics.Timed;
    var b, r := Booked(clock, s, cmd), Exec(clock, s, cmd);
    ExecUpdates(clock, s, cmd);
    ExecKeepsSize(clock, s, cmd);
    UpdatedTimes(clock, b, r.info);
    MeasuredIsTimed(clock, s, cmd);
    NothingAdded(New(s, clock(b.next)));
    ExecEvents(clock, s, cmd);
    var made := if before.Some? then before.value else Recording(clock(b.next), []);
    if Measured(clock, s, cmd) {
      NotHit(clock, s, cmd);
      RecordedNext(New(s, made.start), made.run, clock(r.state.next - 1), TimeOf(cmd));
    }
  }

  lemma NothingAdded(p: Sampler)
    requires p.Valid()
    ensures Window.After(p, []).p == p
  {
  }

  lemma NotHit(clock: Readings, s: State, cmd: Command)
    requires s.Valid() && Measured(clock, s, cmd)
    ensures !Hits(s, cmd)
  {
  }

  lemma ExecKeepsSize(clock: Readings, s: State, cmd: Command)
    requires s.Valid()
    ensures Exec(clock, s, cmd).state.percentileBucketSize == s.percentileBucketSize
    ensures Booked(clock, s, cmd).percentileBucketSize == s.percentileBucketSize
  {
    hide Attempted, Accounted, Rescued;
    AttemptKeepsAccounts(clock, s, cmd);
    var info := Exec(clock, s, cmd).info;
    AccountsKeepTheRest(clock, s, cmd, info);
    AccountsKeepTheRest(clock, Attempted(clock, s, cmd).state, cmd, info);
  }

  lemma OthersRecord(clock: Readings, s: State, cmd: Command, name: string, recording: Option<Recording>)
    requires s.Valid() && CacheSound(s) && Follows(s, name, recording) && cmd.name != name
    ensures Follows(Exec(clock, s, cmd).state, name, recording)
  {
    hide Exec, Updated, Booked, Window.After, NewSampler, CacheSound;
    ExecUpdates(clock, s, cmd);
    ExecKeepsSize(clock, s, cmd);
    UpdatedCounters(clock, Booked(clock, s, cmd), Exec(clock, s, cmd).info);
  }

  /** In every run of a new executor the percentile of each command has taken exactly the times of its executions that
      were measured, in order, each when it was accounted for. */
  lemma {:induction false} TimesFollow(clock: Readings, s: State, cmds: seq<Command>, name: string)
    requires s.Valid() && s.metrics == map[] && CacheSound(s)
    ensures Follows(Model.After(clock, s, cmds), name, RecordingOf(clock, s, cmds, name))
  {
    hide Exec, CacheSound, WithExecution, Window.After;
    if cmds != [] {
      var before, cmd := cmds[..|cmds| - 1], cmds[|cmds| - 1];
      TimesFollow(clock, s, before, name);
      RunKeepsCacheSound(clock, s, before);
      var t := Model.After(clock, s, before);
      if cmd.name == name {
        ExecRecords(clock, t, cmd, RecordingOf(clock, s, before, name));
      } else {
        OthersRecord(clock, t, cmd, name, RecordingOf(clock, s, before, name));
      }
    }
  }

  // What the percentile then tells.

  /** The accesses are in time order, and none is later than now. */
  ghost predicate Past(recording: Option<Recording>, now: int) {
    recording.Some? ==>
      && Window.Forward(recording.value.start, recording.value.run)
      && Window.Before(recording.value.start, recording.value.run, |recording.value.run|) <= now
  }

  lemma ForwardPushed(start: int, run: seq<Window.Access>, now: int, a: Window.Access)
    requires Window.Forward(start, run) && Window.Before(start, run, |run|) <= a.now <= now
    ensures Window.Forward(start, run + [a]) && Window.Before(start, run + [a], |run| + 1) <= now
  {
    var later := run + [a];
    forall i | 0 <= i < |later| ensures Window.Before(start, later, i) <= later[i].now {
      assert Window.Before(start, later, i) == Window.Before(start, run, i);
    }
  }

  lemma ExecPast(clock: Readings, s: State, cmd: Command, before: Option<Recording>)
    requires NonDecreasing(clock) && s.Valid() && CacheSound(s) && Past(before, clock(s.next))
    ensures Past(Some(WithExecution(clock, s, cmd, before)), clock(Exec(clock, s, cmd).state.next))
  {
    hide Exec, Updated, Booked, Measured, Recorded, NewSampler, CacheSound, Metrics.Timed, Window.Forward;
    var b, r := Booked(clock, s, cmd), Exec(clock, s, cmd);
    ExecUpdates(clock, s, cmd);
    UpdatedTimes(clock, b, r.info);
    MeasuredIsTimed(clock, s, cmd);
    NothingForward(clock(b.next));
    assert clock(s.next) <= clock(b.next) <= clock(r.state.next);
    var made := if before.Some? then before.value else Recording(clock(b.next), []);
    if Measured(clock, s, cmd) {
      assert clock(b.next) <= clock(r.state.next - 1) <= clock(r.state.next);
      ForwardPushed(made.start, made.run, clock(r.state.next), Window.Add(clock(r.state.next - 1), TimeOf(cmd)));
    }
  }

  lemma NothingForward(start: int)
    ensures Window.Forward(start, []) && Window.Before(start, [], 0) == start
  {
  }

  lemma {:induction false} RunPast(clock: Readings, s: State, cmds: seq<Command>, name: string)
    requires NonDecreasing(clock) && s.Valid() && CacheSound(s)
    ensures Past(RecordingOf(clock, s, cmds, name), clock(Model.After(clock, s, cmds).next))
  {
    hide Exec, CacheSound, WithExecution, Past;
    if cmds == [] {
      NonePast(clock(s.next));
    } else {
      var before, cmd := cmds[..|cmds| - 1], cmds[|cmds| - 1];
      RunPast(clock, s, before, name);
      RunKeepsCacheSound(clock, s, before);
      var t := Model.After(clock, s, before);
      ExecPast(clock, t, cmd, RecordingOf(clock, s, before, name));
      assert clock(t.next) <= clock(Exec(clock, t, cmd).state.next);
      PastLater(RecordingOf(clock, s, before, name), clock(t.next), clock(Exec(clock, t, cmd).state.next));
    }
  }

  lemma NonePast(now: int)
    ensures Past(None, now)
  {
  }

  lemma PastLater(recording: Option<Recording>, now: int, later: int)
    requires Past(recording, now) && now <= later
    ensures Past(recording, later)
  {
  }

  /** After any run the execution times of a command are exactly, per tick of its percentile's window, the latest of the
      measured times, and a percentile read then is theirs. */
  lemma PercentileOfExecutions(clock: Readings, s: State, cmds: seq<Command>, name: string, skipped: nat,
                               percentile: real)
    requires NonDecreasing(clock) && s.Valid() && s.metrics == map[] && CacheSound(s)
    ensures var t, recording := Model.After(clock, s, cmds), RecordingOf(clock, s, cmds, name);
            var now := clock(t.next + skipped);
            recording.Some? ==>
              && name in t.metrics
              && var read := recording.value.run + [Window.Read(now)];
              && t.percentileBucketSize > 0 && Window.Forward(recording.value.start, read)
              && var w := Window.After(New(t, recording.value.start), read);
              && exists sorted ::
                   && multiset(sorted) == multiset(Window.Recent(w.log, w.tick, DEFAULT_WINDOW_BUCKETS,
                                                                 t.percentileBucketSize, DEFAULT_WINDOW_BUCKETS))
                   && Ascending(sorted)
                   && IsPercentile(percentile, sorted, PercentileAt(t.metrics[name].executionTime, now, percentile))
  {
    hide Exec, CacheSound, WithExecution, Window.After, Window.Forward, Window.Recent, IsPercentile, Ascending,
         PercentileAt, NewSampler, RecordingOf, Model.After;
    TimesFollow(clock, s, cmds, name);
    RunPast(clock, s, cmds, name);
    var t, recording := Model.After(clock, s, cmds), RecordingOf(clock, s, cmds, name);
    var now := clock(t.next + skipped);
    assert clock(t.next) <= now;
    if recording.Some? {
      var start, run := recording.value.start, recording.value.run;
      ForwardPushed(start, run, now, Window.Read(now));
      Window.PercentileOfRecent(DEFAULT_BUCKET_SIZE, DEFAULT_WINDOW_BUCKETS, t.percentileBucketSize, start, run, now,
                                percentile);
    }
  }
}
