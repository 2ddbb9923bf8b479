/** Coherence of the request cache over the executions of one request. */
module ExecutorCache {
  import opened Clocks
  import opened Outcomes
  import opened RequestLog
  import opened RequestCache
  import opened ExecutorModel
  import opened ExecutorOutcomes
  import Metrics = MetricsModel
  import PercentileModel

  /** How the events of an execution appear once its response is cached: those of its fallback are lost. */
  function CachedAs(events: seq<ExecutionEvent>): seq<ExecutionEvent> {
    if ResponseFromCache in events then events
    else if events == [Success] then [Success, ResponseFromCache]
    else [ResponseFromCache]
  }

  /** The result of an execution may be cached: it comes from the cache, its fallback is enabled,
      or nothing will be thrown. */
  predicate Cacheable(clock: Readings, s: State, cmd: Command)
    requires s.Valid()
  {
    Hits(s, cmd) || cmd.settings.fallbackEnabled || CauseOf(clock, s, cmd).None?
  }

  /** Entries are never overwritten, and stay. */
  ghost predicate Extends(s: State, t: State) {
    && (s.cache.Some? <==> t.cache.Some?)
    && (s.cache.Some? ==> forall key :: key in s.cache.value ==>
          key in t.cache.value && t.cache.value[key] == s.cache.value[key])
  }

  /** What it takes to use the cache: the request has one, and the command a key for it and its use switched on. */
  predicate CacheOn(s: State, cmd: Command) {
    s.cache.Some? && cmd.cacheKey != "" && cmd.settings.requestCacheEnabled
  }

  function WithCache(r: Result, cache: Cache): Result {
    r.(state := r.state.(cache := cache))
  }

  /** Otherwise an execution neither reads the cache nor writes to it: it is the same as with no cache at all. */
  lemma CacheOffIsIgnored(clock: Readings, s: State, cmd: Command)
    requires s.Valid() && !CacheOn(s, cmd)
    ensures s.(cache := None).Valid() && !Hits(s, cmd)
    ensures Exec(clock, s, cmd) == WithCache(Exec(clock, s.(cache := None), cmd), s.cache)
  {
    hide Attempted, Updated, Rescued;
    var none := InContext(s, None, s.log);
    AttemptedInContext(clock, s, cmd, None, s.log);
    AttemptKeepsAccounts(clock, s, cmd);
    var a := Attempted(clock, s, cmd);
    HandledWithoutCache(clock, a, cmd);
  }

  /** The deferred handler only touches a cache that is on. */
  lemma HandledWithoutCache(clock: Readings, a: Attempt, cmd: Command)
    requires a.state.Valid() && !CacheOn(a.state, cmd)
    ensures a.state.(cache := None).Valid()
    ensures Handled(clock, a, cmd)
         == WithCache(Handled(clock, a.(state := a.state.(cache := None)), cmd), a.state.cache)
  {
    hide Accounted, Rescued, Kept;
    var t := Accounted(clock, a.state, cmd, Handled(clock, a, cmd).info);
    AccountedWithoutCache(clock, a.state, cmd, Handled(clock, a, cmd).info);
    AccountsKeepTheRest(clock, a.state, cmd, Handled(clock, a, cmd).info);
    NothingKept(t, cmd);
    NothingKept(t.(cache := None), cmd);
  }

  lemma NothingKept(s: State, cmd: Command)
    requires s.Valid() && !CacheOn(s, cmd)
    ensures forall response, err, events :: Kept(s, cmd, response, err, events) == s
  {
  }

  lemma AccountedWithoutCache(clock: Readings, s: State, cmd: Command, info: ExecutionInfo)
    requires s.Valid()
    ensures s.(cache := None).Valid()
    ensures Accounted(clock, s, cmd, info) == Accounted(clock, s.(cache := None), cmd, info).(cache := s.cache)
  {
    hide Updated;
    UpdatedInContext(clock, s, info, None, s.log);
    UpdateKeepsCache(clock, s, info);
  }

  lemma UpdateKeepsCache(clock: Readings, s: State, info: ExecutionInfo)
    requires s.Valid()
    ensures Updated(clock, s, info).cache == s.cache && Updated(clock, s, info).log == s.log
  {
    hide Metrics.CountEvents, Metrics.Credited, Metrics.Timed, PercentileModel.Recorded, PercentileModel.NewSampler;
  }

  /** An execution that is answered from the cache leaves it alone. */
  lemma HitKeepsCache(clock: Readings, s: State, cmd: Command)
    requires s.Valid() && Hits(s, cmd)
    ensures var r := Exec(clock, s, cmd);
            var ec := s.cache.value[Key(cmd)];
            && r.state.cache == s.cache && r.calls == []
            && r.response == ec.response && r.err == ec.err && r.info == ec.info
  {
    hide Accounted;
    AccountsKeepTheRest(clock, s, cmd, s.cache.value[Key(cmd)].info);
  }

  /** Any other adds the entry for its own key, if its result may be cached and the cache is used. */
  lemma MissAddsToCache(clock: Readings, s: State, cmd: Command)
    requires s.Valid() && !Hits(s, cmd)
    ensures var r := Exec(clock, s, cmd);
            var ec := ExecutedCommand(r.response, r.err, ExecutionInfo(cmd.name, 0, CachedAs(r.info.events)));
            && r.info.commandName == cmd.name && FreshEvents(r.info.events)
            && r.state.cache == if CacheOn(s, cmd) && Cacheable(clock, s, cmd)
                                then Some(s.cache.value[Key(cmd) := ec])
                                else s.cache
  {
    hide Accounted, Attempted, CauseOf;
    CauseIsThrown(clock, s, cmd);
    var a := Attempted(clock, s, cmd);
    AttemptKeepsAccounts(clock, s, cmd);
    AccountsKeepTheRest(clock, a.state, cmd, Exec(clock, s, cmd).info);
    assert [Success] + [ResponseFromCache] == [Success, ResponseFromCache];
    assert [] + [ResponseFromCache] == [ResponseFromCache];
  }

  /** An execution adds at most the entry for its own key, and adds it just when its
      result may be cached and the cache is used. */
  lemma ExecExtendsCache(clock: Readings, s: State, cmd: Command)
    requires s.Valid() && CacheSound(s)
    ensures var r := Exec(clock, s, cmd);
            && Extends(s, r.state) && CacheSound(r.state)
            && (CacheOn(s, cmd) ==> (Key(cmd) in r.state.cache.value <==> Cacheable(clock, s, cmd)))
            && (CacheOn(s, cmd) && Cacheable(clock, s, cmd) ==>
                  && r.state.cache.value[Key(cmd)].response == r.response
                  && r.state.cache.value[Key(cmd)].err == r.err
                  && r.state.cache.value[Key(cmd)].info.events == CachedAs(r.info.events))
  {
    hide Exec;
    ExecEvents(clock, s, cmd);
    if Hits(s, cmd) {
      HitKeepsCache(clock, s, cmd);
    } else {
      MissAddsToCache(clock, s, cmd);
    }
  }

  lemma {:induction false} RunKeepsCacheSound(clock: Readings, s: State, cmds: seq<Command>)
    requires s.Valid() && CacheSound(s)
    ensures CacheSound(After(clock, s, cmds))
  {
    hide Exec, CacheSound;
    if cmds != [] {
      RunKeepsCacheSound(clock, s, cmds[..|cmds| - 1]);
      ExecExtendsCache(clock, After(clock, s, cmds[..|cmds| - 1]), cmds[|cmds| - 1]);
    }
  }

  lemma {:induction false} RunExtendsCache(clock: Readings, s: State, cmds: seq<Command>, i: nat)
    requires s.Valid() && CacheSound(s) && i <= |cmds|
    ensures Extends(After(clock, s, cmds[..i]), After(clock, s, cmds))
  {
    hide Exec, CacheSound;
    if i == |cmds| {
      assert cmds[..i] == cmds;
    } else {
      var before := cmds[..|cmds| - 1];
      assert before[..i] == cmds[..i];
      RunExtendsCache(clock, s, before, i);
      RunKeepsCacheSound(clock, s, before);
      ExecExtendsCache(clock, After(clock, s, before), cmds[|cmds| - 1]);
    }
  }

  /** Whenever the result of an execution was cacheable, every later execution of that name and key
      gets the same response and error, calls neither the command nor its fallback, and logs the
      cached events - `Success` and `ResponseFromCache`, or `ResponseFromCache` alone. */
  lemma LaterExecutionsAnsweredFromCache(clock: Readings, s: State, cmds: seq<Command>, i: nat, j: nat)
    requires s.Valid() && CacheSound(s) && i < j < |cmds| && Key(cmds[i]) == Key(cmds[j])
    requires CacheOn(s, cmds[i]) && CacheOn(s, cmds[j])
    requires Cacheable(clock, After(clock, s, cmds[..i]), cmds[i])
    ensures var first := Exec(clock, After(clock, s, cmds[..i]), cmds[i]);
            var later := Exec(clock, After(clock, s, cmds[..j]), cmds[j]);
            && later.response == first.response && later.err == first.err && later.calls == []
            && later.info.events == CachedAs(first.info.events) && CachedEvents(later.info.events)
  {
    hide Exec, CacheSound, Cacheable, CachedAs;
    var before, upTo, until := cmds[..i], cmds[..i + 1], cmds[..j];
    assert upTo[..i] == before && until[..i] == before && until[..i + 1] == upTo;
    RunKeepsCacheSound(clock, s, before);
    RunExtendsCache(clock, s, before, 0);
    ExecExtendsCache(clock, After(clock, s, before), cmds[i]);
    RunExtendsCache(clock, s, until, i + 1);
    RunKeepsCacheSound(clock, s, until);
    HitKeepsCache(clock, After(clock, s, until), cmds[j]);
    ExecEvents(clock, After(clock, s, until), cmds[j]);
  }
}
