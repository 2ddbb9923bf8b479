/** The breakers of an executor by command name (`cbMap`). */
module CircuitBreakers {
  import opened Clocks
  import opened Outcomes
  import opened Model = BreakerModel
  import opened CircuitBreaker
  import opened ExecutorModel
  import RollingNumber

  class CbMap {
    const clock: Clock
    var values: map<string, CircuitBreaker>

    ghost function Objects(): set<object>
      reads this
    {
      (set n | n in values :: values[n])
      + (set n | n in values :: values[n].errorCounter) + (set n | n in values :: values[n].errorCounter.buckets)
      + (set n | n in values :: values[n].requestCounter) + (set n | n in values :: values[n].requestCounter.buckets)
    }

    ghost predicate Valid()
      reads this, Objects()
    {
      && (forall n :: n in values ==> values[n].clock == clock && values[n].Valid())
      && (forall m, n :: m in values && n in values && m != n ==> values[m].Own() !! values[n].Own())
    }

    ghost function Value(): (guards: map<string, Guard>)
      requires Valid()
      reads this, Objects()
      ensures forall n :: n in guards <==> n in values
      ensures forall n :: n in guards ==>
                guards[n] == Guard(values[n].cfg, values[n].Value()) && guards[n].breaker.Valid()
    {
      map n | n in values :: Guard(values[n].cfg, values[n].Value())
    }

    constructor (clock: Clock)
      ensures this.clock == clock && Valid() && Value() == map[]
    {
      this.clock := clock;
      values := map[];
    }

    /** Nothing the breakers are made of has changed. */
    twostate predicate Unchanged()
      reads this, Objects()
    {
      unchanged(this) && forall n :: n in values ==> OwnUnchanged(values[n])
    }

    twostate lemma Kept()
      requires old(Valid()) && Unchanged()
      ensures Valid() && Value() == old(Value())
    {
      hide CircuitBreaker.Valid, CircuitBreaker.Value, CircuitBreaker.Own, OwnUnchanged;
      forall n | n in values ensures values[n].Valid() && values[n].Value() == old(values[n].Value()) {
        OwnKept(values[n]);
      }
    }

    twostate lemma OthersKept(name: string)
      requires old(Valid()) && unchanged(this)
      requires forall n :: n in values && n != name ==> OwnUnchanged(values[n])
      ensures forall n :: n in values && n != name ==> values[n].Valid() && values[n].Value() == old(values[n].Value())
    {
      hide CircuitBreaker.Valid, CircuitBreaker.Value, CircuitBreaker.Own, OwnUnchanged;
      forall n | n in values && n != name ensures values[n].Valid() && values[n].Value() == old(values[n].Value()) {
        OwnKept(values[n]);
      }
    }

    /** One breaker changes; the others, apart from it, do not. */
    twostate lemma OneChanged(name: string)
      requires old(Valid()) && name in values && unchanged(this) && values[name].Valid()
      requires forall n :: n in values && n != name ==> OwnUnchanged(values[n])
      ensures Valid() && Value() == old(Value())[name := Guard(values[name].cfg, values[name].Value())]
    {
      hide CircuitBreaker.Valid, CircuitBreaker.Value, CircuitBreaker.Own, OwnUnchanged;
      OthersKept(name);
    }

    method Set(name: string, cb: CircuitBreaker)
      requires Valid() && name !in values
      requires cb.Valid() && cb.clock == clock && forall n :: n in values ==> values[n].Own() !! cb.Own()
      modifies this`values
      ensures Valid() && values == old(values)[name := cb]
      ensures Value() == old(Value())[name := Guard(cb.cfg, cb.Value())]
    {
      hide CircuitBreaker.Valid, CircuitBreaker.Value, CircuitBreaker.Own;
      ghost var before, cbs := Value(), values;
      values := values[name := cb];
      forall n | n in values
        ensures values[n].clock == clock && values[n].Valid()
        ensures Guard(values[n].cfg, values[n].Value()) == before[name := Guard(cb.cfg, cb.Value())][n]
      {
        assert n != name ==> n in cbs && values[n] == cbs[n];
        assert OwnUnchanged(values[n]);
        OwnKept(values[n]);
      }
      assert Valid();
    }

    method Make(cfg: Config) returns (cb: CircuitBreaker)
      requires Valid()
      modifies clock
      ensures Valid() && Value() == old(Value()) && clock.next == old(clock.next) + 2
      ensures fresh(cb.Own()) && cb.Valid() && cb.clock == clock && cb.cfg == cfg
      ensures cb.Value() == NewBreaker(clock.readings, old(clock.next))
    {
      hide NewBreaker, CircuitBreaker.Valid, CircuitBreaker.Value;
      cb := new CircuitBreaker(cfg, clock);
      assert Unchanged();
      Kept();
    }

    method Add(name: string, cfg: Config)
      requires Valid() && name !in values
      modifies this`values, clock
      ensures Valid() && name in values
      ensures fresh(values[name].Own())
      ensures Value() == old(Value())[name := Guard(cfg, NewBreaker(clock.readings, old(clock.next)))]
      ensures clock.next == old(clock.next) + 2
    {
      hide NewBreaker, CircuitBreaker.Valid, CircuitBreaker.Value, Value, Valid;
      var cb := Make(cfg);
      Set(name, cb);
    }

    lemma OwnAmongObjects(name: string)
      requires name in values
      ensures values[name].Own() <= Objects()
    {
    }

    /** `Admit` of one breaker. */
    method Admit(name: string, flags: Flags) returns (allowed: bool, trial: bool)
      requires Valid() && name in values
      modifies values[name].Own(), clock
      ensures Valid() && values == old(values)
      ensures var g := old(Value())[name];
              var s := Model.Admit(Dropped, g.cfg, flags, clock.readings, g.breaker, old(clock.next));
              Value() == old(Value())[name := g.(breaker := s.breaker)] && clock.next == s.next
              && Admission(allowed, trial) == s.value
    {
      hide Model.Admit, CircuitBreaker.Value;
      allowed, trial := values[name].Admit(flags);
      OneChanged(name);
    }

    /** `Finish` of one breaker. */
    method Finish(name: string, flags: Flags, trial: bool, f: Outcome) returns (reply: Reply)
      requires Valid() && name in values
      modifies values[name].Own(), clock
      ensures Valid() && values == old(values)
      ensures var g := old(Value())[name];
              var s := Model.Finish(flags, clock.readings, g.breaker, old(clock.next), trial, f);
              Value() == old(Value())[name := g.(breaker := s.breaker)] && clock.next == s.next && reply == s.value
    {
      hide Model.Finish, CircuitBreaker.Value;
      reply := values[name].Finish(flags, trial, f);
      OneChanged(name);
    }
  }

  twostate predicate OwnUnchanged(cb: CircuitBreaker)
    reads cb.Own()
  {
    && unchanged(cb) && unchanged(cb.errorCounter) && unchanged(cb.errorCounter.buckets)
    && unchanged(cb.requestCounter) && unchanged(cb.requestCounter.buckets)
  }

  twostate lemma OwnKept(cb: CircuitBreaker)
    requires OwnUnchanged(cb)
    ensures old(cb.Valid()) <==> cb.Valid()
    ensures cb.Value() == old(cb.Value())
  {
  }
}
