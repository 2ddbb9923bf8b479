/** Runs of one breaker: calls that do not overlap, on any clock, which others may read in between. */
module BreakerRuns {
  import opened Clocks
  import opened Outcomes
  import opened BreakerModel

  datatype Call = CallDo(flags: Flags, f: Outcome) | CallIsOpen(flags: Flags) | Wait(readings: nat)

  function Answer(storage: Storage, cfg: Config, clock: Readings, b: Breaker, k: nat, call: Call): (s: Step<Reply>)
    requires b.Valid()
    ensures s.breaker.Valid() && s.next >= k
  {
    match call
    case CallDo(flags, f) => Do(storage, cfg, flags, clock, b, k, f)
    case CallIsOpen(flags) =>
      var s := IsOpen(storage, cfg, flags, clock, b, k);
      Step(s.breaker, s.next, Answered(s.value))
    case Wait(readings) => Step(b, k + readings, Waited)
  }

  /** The run of a breaker from the k-th clock reading on. */
  function RunFrom(storage: Storage, cfg: Config, clock: Readings, b: Breaker, k: nat, calls: seq<Call>)
    : (s: Step<seq<Reply>>)
    requires b.Valid()
    ensures s.breaker.Valid() && s.next >= k && |s.value| == |calls|
  {
    if calls == [] then Step(b, k, [])
    else
      var before := RunFrom(storage, cfg, clock, b, k, calls[..|calls| - 1]);
      var last := Answer(storage, cfg, clock, before.breaker, before.next, calls[|calls| - 1]);
      Step(last.breaker, last.next, before.value + [last.value])
  }

  /** The run of a new breaker, whose two counters make the first two readings. */
  function Run(storage: Storage, cfg: Config, clock: Readings, calls: seq<Call>): (s: Step<seq<Reply>>)
    ensures s.breaker.Valid() && s.next >= 2 && |s.value| == |calls|
  {
    RunFrom(storage, cfg, clock, NewBreaker(clock, 0), 2, calls)
  }

  lemma RunFromExtends(storage: Storage, cfg: Config, clock: Readings, b: Breaker, k: nat, calls: seq<Call>, call: Call)
    requires b.Valid()
    ensures var before := RunFrom(storage, cfg, clock, b, k, calls);
            var last := Answer(storage, cfg, clock, before.breaker, before.next, call);
            RunFrom(storage, cfg, clock, b, k, calls + [call])
            == Step(last.breaker, last.next, before.value + [last.value])
  {
    assert (calls + [call])[..|calls + [call]| - 1] == calls;
  }

  lemma RunExtends(storage: Storage, cfg: Config, clock: Readings, calls: seq<Call>, call: Call)
    ensures var before := Run(storage, cfg, clock, calls);
            var last := Answer(storage, cfg, clock, before.breaker, before.next, call);
            Run(storage, cfg, clock, calls + [call]) == Step(last.breaker, last.next, before.value + [last.value])
  {
    assert (calls + [call])[..|calls + [call]| - 1] == calls;
  }
}
