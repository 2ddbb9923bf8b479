/**
 What a run of the breaker shows about its past: the evidence behind every
 trip, and the spacing of trips and trials.
 */
module BreakerHistory {
  import opened Clocks
  import opened Outcomes
  import opened Numbers
  import opened RollingNumber
  import opened RollingWindow
  import opened BreakerModel
  import opened BreakerRuns

  // Evidence.

  /** The times of the requests and errors counted since the breaker was made or last closed by a trial. */
  datatype History = History(requests: seq<int>, errors: seq<int>)

  predicate Counts(flags: Flags) {
    flags.enabled && !flags.forceOpen
  }

  /** The request a call counts, at its first clock reading. */
  function WithRequest(clock: Readings, k: nat, call: Call, h: History): History {
    if call.CallDo? && Counts(call.flags) then h.(requests := h.requests + [clock(k)]) else h
  }

  /** The history after a call, as told by the reply. An error is counted at the last reading of the call. */
  function Noted(clock: Readings, k: nat, call: Call, s: Step<Reply>, h: History): History
    requires 0 < s.next
  {
    var counted := WithRequest(clock, k, call, h);
    if !call.CallDo? || !Counts(call.flags) then h
    else match s.value
      case Executed(true, Returned(None)) => History([], [])
      case Executed(_, Returned(None)) => counted
      case Executed(_, Panicked(_)) => counted
      case _ => counted.(errors := h.errors + [clock(s.next - 1)])
  }

  function HistoryOf(cfg: Config, clock: Readings, calls: seq<Call>): History {
    if calls == [] then History([], [])
    else
      var before := Run(Dropped, cfg, clock, calls[..|calls| - 1]);
      var call := calls[|calls| - 1];
      Noted(clock, before.next, call, Answer(Dropped, cfg, clock, before.breaker, before.next, call),
            HistoryOf(cfg, clock, calls[..|calls| - 1]))
  }

  ghost predicate Tracked(clock: Readings, b: Breaker, k: nat, h: History) {
    && Sized(b.requests) && Records(b.requests, h.requests) && b.requests.anchor <= clock(k)
    && Sized(b.errors) && Records(b.errors, h.errors) && b.errors.anchor <= clock(k)
    && b.snapshot == Health(0, 0)
  }

  ghost predicate Judged(cfg: Config, clock: Readings, h: History, i: nat, m: int, e: int) {
    && CountsLatest(DEFAULT_BUCKET_SIZE, DEFAULT_WINDOW_BUCKETS, m, h.requests, clock(i + 1))
    && CountsLatest(DEFAULT_BUCKET_SIZE, DEFAULT_WINDOW_BUCKETS, e, h.errors, clock(i + 2))
    && m >= cfg.requestVolumeThreshold
    && e * 100 > cfg.errorThresholdPercentage * m
  }

  /** The breaker was opened on a snapshot taken from reading `i` on: more than an interval
      after the previous one, and showing the latest m requests and e errors of the history. */
  ghost predicate Evidence(cfg: Config, clock: Readings, before: Breaker, after: Breaker, h: History, i: nat) {
    && clock(i) > before.snapshotTime + cfg.healthSnapshotInterval
    && after.snapshotTime == clock(i)
    && after.lastTrialTime == clock(i + 3)
    && exists m, e :: Judged(cfg, clock, h, i, m, e)
  }

  ghost predicate Justified(cfg: Config, clock: Readings, before: Breaker, after: Breaker, h: History, from: nat,
                            to: nat) {
    exists i: nat :: from <= i && i + 3 < to && Evidence(cfg, clock, before, after, h, i)
  }

  ghost predicate Trip(before: Breaker, after: Breaker) {
    !before.open && after.open
  }

  ghost predicate Sensible(cfg: Config, clock: Readings) {
    && NonDecreasing(clock)
    && 0 <= cfg.errorThresholdPercentage && 0 <= cfg.sleepWindow && 0 <= cfg.healthSnapshotInterval
  }

  lemma RotateTracked(clock: Readings, c: Counter, k: nat, times: seq<int>)
    requires NonDecreasing(clock) && Sized(c) && Records(c, times) && c.anchor <= clock(k)
    ensures Sized(Rotate(c, clock(k))) && Records(Rotate(c, clock(k)), times) && Rotate(c, clock(k)).anchor <= clock(k)
    ensures CountsLatest(DEFAULT_BUCKET_SIZE, DEFAULT_WINDOW_BUCKETS, Total(c, clock(k)), times, clock(k))
    ensures Sized(Incremented(c, clock(k))) && Records(Incremented(c, clock(k)), times + [clock(k)])
    ensures Incremented(c, clock(k)).anchor <= clock(k)
    ensures Sized(Zeroed(c, clock(k))) && Records(Zeroed(c, clock(k)), [])
  {
    hide Records, Rotate, CountsLatest;
    RotateRecords(c, times, clock(k));
    IncrementRecords(c, times, clock(k));
    TotalCountsLatest(c, times, clock(k));
    NewRecordsNothing(c.bucketSize, |c.buckets|, clock(k));
  }

  lemma ValidIfTracked(clock: Readings, b: Breaker, k: nat, h: History)
    requires Tracked(clock, b, k, h)
    ensures b.Valid()
  {
    hide Records;
  }

  lemma TrackedLater(clock: Readings, b: Breaker, k: nat, k': nat, h: History)
    requires NonDecreasing(clock) && Tracked(clock, b, k, h) && k <= k'
    ensures Tracked(clock, b, k', h)
  {
    assert clock(k) <= clock(k');
  }

  lemma IsOpenTracked(cfg: Config, flags: Flags, clock: Readings, b: Breaker, k: nat, h: History)
    requires Sensible(cfg, clock) && Tracked(clock, b, k, h)
    ensures b.Valid()
    ensures var s := IsOpen(Dropped, cfg, flags, clock, b, k);
            && Tracked(clock, s.breaker, s.next, h)
            && s.breaker.snapshotTime >= b.snapshotTime
            && (b.open ==> s.breaker == b)
            && (!Trip(b, s.breaker) ==> s.breaker.lastTrialTime == b.lastTrialTime)
            && (Trip(b, s.breaker) ==> s.value && s.next == k + 4 && Evidence(cfg, clock, b, s.breaker, h, k))
  {
    hide Records, Rotate, CountsLatest, Total;
    assert clock(k) <= clock(k + 1) <= clock(k + 2) <= clock(k + 3) <= clock(k + 4);
    RotateTracked(clock, b.requests, k + 1, h.requests);
    RotateTracked(clock, b.errors, k + 2, h.errors);
    var s := IsOpen(Dropped, cfg, flags, clock, b, k);
    if Trip(b, s.breaker) {
      assert Judged(cfg, clock, h, k, Total(b.requests, clock(k + 1)), Total(b.errors, clock(k + 2)));
    }
  }

  /** The call that opens the breaker is not a trial: by the time of its
      compare-and-swap the trial time has been overwritten. */
  lemma TrialTracked(cfg: Config, flags: Flags, clock: Readings, b: Breaker, k: nat, h: History)
    requires Sensible(cfg, clock) && Tracked(clock, b, k, h) && !flags.forceOpen
    ensures b.Valid()
    ensures var s := IsTrialCallAllowed(Dropped, cfg, flags, clock, b, k);
            && Tracked(clock, s.breaker, s.next, h)
            && s.breaker.snapshotTime >= b.snapshotTime
            && (b.open ==> s.breaker.open)
            && (!Trip(b, s.breaker) && !s.value ==> s.breaker.lastTrialTime == b.lastTrialTime)
            && (Trip(b, s.breaker) ==> s.next == k + 5 && Evidence(cfg, clock, b, s.breaker, h, k + 1))
            && (s.value ==>
                  b.open && s.breaker == b.(lastTrialTime := clock(k)) && clock(k) > b.lastTrialTime + cfg.sleepWindow)
            && (!s.value && b.open ==> s.breaker == b)
  {
    hide Records, Evidence;
    TrackedLater(clock, b, k, k + 1, h);
    IsOpenTracked(cfg, flags, clock, b, k + 1, h);
    var s := IsOpen(Dropped, cfg, flags, clock, b, k + 1);
    if Trip(b, s.breaker) {
      assert s.breaker.lastTrialTime == clock(k + 4) by { TripStoresLastReading(cfg, flags, clock, b, k + 1); }
      assert clock(k) <= clock(k + 4);
    }
  }

  lemma TripStoresLastReading(cfg: Config, flags: Flags, clock: Readings, b: Breaker, k: nat)
    requires b.Valid()
    ensures var s := IsOpen(Dropped, cfg, flags, clock, b, k);
            Trip(b, s.breaker) ==> s.breaker.lastTrialTime == clock(s.next - 1)
  {
  }

  lemma AdmissionTracked(cfg: Config, flags: Flags, clock: Readings, b: Breaker, k: nat, h: History)
    requires Sensible(cfg, clock) && Tracked(clock, b, k, h) && !flags.forceOpen
    ensures b.Valid()
    ensures var s := IsRequestAllowed(Dropped, cfg, flags, clock, b, k);
            && Tracked(clock, s.breaker, s.next, h)
            && (Trip(b, s.breaker) ==> !s.value.allowed && Justified(cfg, clock, b, s.breaker, h, k, s.next))
            && (flags.forceClosed ==> s.value.allowed)
            && (b.open ==> s.breaker.open && (s.value.allowed ==> flags.forceClosed || s.value.trial))
            && (s.value.trial ==>
                  s.value.allowed && b.open && s.breaker == b.(lastTrialTime := clock(k))
                  && clock(k) > b.lastTrialTime + cfg.sleepWindow)
            && (!Trip(b, s.breaker) && !s.value.trial ==> s.breaker.lastTrialTime == b.lastTrialTime)
  {
    hide Records, Evidence, Tracked;
    TrialTracked(cfg, flags, clock, b, k, h);
    var t := IsTrialCallAllowed(Dropped, cfg, flags, clock, b, k);
    IsOpenTracked(cfg, flags, clock, t.breaker, t.next, h);
    var s := IsOpen(Dropped, cfg, flags, clock, t.breaker, t.next);
    if Trip(b, t.breaker) {
      assert s == Step(t.breaker, t.next, true) by { TripMeansUnforced(cfg, flags, clock, b, k); }
      assert Evidence(cfg, clock, b, s.breaker, h, k + 1);
    } else if Trip(b, s.breaker) {
      assert Evidence(cfg, clock, b, s.breaker, h, t.next) by {
        EvidenceFromEarlier(cfg, clock, b, t.breaker, s.breaker, h, t.next);
      }
    }
  }

  lemma TripMeansUnforced(cfg: Config, flags: Flags, clock: Readings, b: Breaker, k: nat)
    requires b.Valid()
    ensures Trip(b, IsTrialCallAllowed(Dropped, cfg, flags, clock, b, k).breaker) ==> !flags.forceClosed
  {
  }

  lemma EvidenceFromEarlier(cfg: Config, clock: Readings, earlier: Breaker, before: Breaker, after: Breaker, h: History,
                            i: nat)
    requires Evidence(cfg, clock, before, after, h, i) && earlier.snapshotTime <= before.snapshotTime
    ensures Evidence(cfg, clock, earlier, after, h, i)
  {
  }

  lemma SettleTracked(clock: Readings, b: Breaker, k: nat, h: History, trial: bool, f: Outcome)
    requires NonDecreasing(clock) && Tracked(clock, b, k, h)
    ensures b.Valid()
    ensures var s := Settle(clock, b, k, trial, f);
            match f
            case Returned(Some(_)) =>
              s.next == k + 1 && Tracked(clock, s.breaker, s.next, h.(errors := h.errors + [clock(k)]))
            case Returned(None) => Tracked(clock, s.breaker, s.next, if trial then History([], []) else h)
            case Panicked(_) => s == Step(b, k, Executed(trial, f))
  {
    hide Records, Rotate, CountsLatest, Total;
    assert clock(k) <= clock(k + 1) <= clock(k + 2);
    RotateTracked(clock, b.errors, k, h.errors);
    RotateTracked(clock, b.requests, k, h.requests);
    TrackedLater(clock, b, k, k + 1, h);
    RotateTracked(clock, b.requests, k + 1, h.requests);
  }

  /** Evidence concerns the two times alone. */
  lemma JustifiedAlike(cfg: Config, clock: Readings, b: Breaker, a: Breaker, b': Breaker, a': Breaker, h: History,
                       from: nat, from': nat, to: nat, to': nat)
    requires Justified(cfg, clock, b, a, h, from, to) && from' <= from && to <= to'
    requires b'.snapshotTime == b.snapshotTime
    requires a'.snapshotTime == a.snapshotTime && a'.lastTrialTime == a.lastTrialTime
    ensures Justified(cfg, clock, b', a', h, from', to')
  {
    var i: nat :| from <= i && i + 3 < to && Evidence(cfg, clock, b, a, h, i);
    assert Evidence(cfg, clock, b', a', h, i);
  }

  /** What one call does to the marks it leaves: a trip, a trial, or neither. */
  ghost predicate Marked(cfg: Config, clock: Readings, b: Breaker, k: nat, call: Call, s: Step<Reply>) {
    && (Trip(b, s.breaker) ==>
          && (s.value == Refused || s.value == Answered(true))
          && exists i :: k <= i < s.next && s.breaker.lastTrialTime == clock(i))
    && (Trial(s.value) ==>
          && b.open
          && clock(k + 1) > b.lastTrialTime + cfg.sleepWindow
          && s.breaker.lastTrialTime == clock(k + 1) && k + 1 < s.next)
    && (!Trip(b, s.breaker) && !Trial(s.value) ==> s.breaker.lastTrialTime == b.lastTrialTime)
    && (b.open && !s.breaker.open ==> s.value == Executed(true, Returned(None)))
    && (b.open && call.CallDo? && Counts(call.flags) && !call.flags.forceClosed ==>
          s.value == Refused || Trial(s.value))
  }

  predicate Trial(reply: Reply) {
    reply.Executed? && reply.trial
  }

  lemma DoTracked(cfg: Config, flags: Flags, f: Outcome, clock: Readings, b: Breaker, k: nat, h: History)
    requires Sensible(cfg, clock) && Tracked(clock, b, k, h) && Counts(flags)
    ensures b.Valid()
    ensures var call := CallDo(flags, f);
            var s := Do(Dropped, cfg, flags, clock, b, k, f);
            && s.next > 0
            && Tracked(clock, s.breaker, s.next, Noted(clock, k, call, s, h))
            && Marked(cfg, clock, b, k, call, s)
            && (Trip(b, s.breaker) ==> Justified(cfg, clock, b, s.breaker, WithRequest(clock, k, call, h), k, s.next))
  {
    hide Records, Rotate, CountsLatest, Total, Justified, IsRequestAllowed, Tracked;
    RequestTracked(clock, b, k, h);
    var counted, h' := b.(requests := Incremented(b.requests, clock(k))), WithRequest(clock, k, CallDo(flags, f), h);
    AdmissionTracked(cfg, flags, clock, counted, k + 1, h');
    var a := IsRequestAllowed(Dropped, cfg, flags, clock, counted, k + 1);
    SettleTracked(clock, a.breaker, a.next, h', a.value.trial, f);
    SettleTracked(clock, a.breaker, a.next, h', false, Returned(Some(CircuitOpenError)));
    var s := Do(Dropped, cfg, flags, clock, b, k, f);
    if Trip(b, s.breaker) {
      JustifiedAlike(cfg, clock, counted, a.breaker, b, s.breaker, h', k + 1, k, a.next, s.next);
      TripTimeIsReading(cfg, clock, b, s.breaker, h', k, s.next);
    }
  }

  lemma RequestTracked(clock: Readings, b: Breaker, k: nat, h: History)
    requires NonDecreasing(clock) && Tracked(clock, b, k, h)
    ensures b.Valid()
    ensures Tracked(clock, b.(requests := Incremented(b.requests, clock(k))), k + 1,
                    h.(requests := h.requests + [clock(k)]))
  {
    hide Records, Rotate, CountsLatest, Total;
    assert clock(k) <= clock(k + 1);
    RotateTracked(clock, b.requests, k, h.requests);
  }

  lemma TripTimeIsReading(cfg: Config, clock: Readings, before: Breaker, after: Breaker, h: History, from: nat, to: nat)
    requires Justified(cfg, clock, before, after, h, from, to)
    ensures exists i :: from <= i < to && after.lastTrialTime == clock(i)
  {
    var i: nat :| from <= i && i + 3 < to && Evidence(cfg, clock, before, after, h, i);
    assert from <= i + 3 < to;
  }

  lemma AnswerTracked(cfg: Config, call: Call, clock: Readings, b: Breaker, k: nat, h: History)
    requires Sensible(cfg, clock) && Tracked(clock, b, k, h) && 0 < k
    ensures b.Valid()
    ensures var s := Answer(Dropped, cfg, clock, b, k, call);
            && Tracked(clock, s.breaker, s.next, Noted(clock, k, call, s, h))
            && Marked(cfg, clock, b, k, call, s)
            && (Trip(b, s.breaker) ==> Justified(cfg, clock, b, s.breaker, WithRequest(clock, k, call, h), k, s.next))
  {
    hide Tracked, Records, Justified, Evidence;
    match call
    case CallDo(flags, f) =>
      if Counts(flags) {
        DoTracked(cfg, flags, f, clock, b, k, h);
      } else {
        assert b.Valid() by { IsOpenTracked(cfg, flags, clock, b, k, h); }
      }
    case CallIsOpen(flags) =>
      IsOpenTracked(cfg, flags, clock, b, k, h);
      AskMarked(cfg, flags, clock, b, k, h);
    case Wait(readings) =>
      TrackedLater(clock, b, k, k + readings, h);
      assert b.Valid() by { ValidIfTracked(clock, b, k, h); }
  }

  lemma AskMarked(cfg: Config, flags: Flags, clock: Readings, b: Breaker, k: nat, h: History)
    requires Sensible(cfg, clock) && Tracked(clock, b, k, h)
    ensures b.Valid()
    ensures var s := IsOpen(Dropped, cfg, flags, clock, b, k);
            && (Trip(b, s.breaker) ==>
                  && !flags.forceOpen && !flags.forceClosed
                  && Justified(cfg, clock, b, s.breaker, h, k, s.next) && s.breaker.lastTrialTime == clock(s.next - 1))
            && (!Trip(b, s.breaker) ==> s.breaker.lastTrialTime == b.lastTrialTime)
            && (b.open ==> s.breaker.open)
  {
    IsOpenTracked(cfg, flags, clock, b, k, h);
    TripStoresLastReading(cfg, flags, clock, b, k);
  }

  lemma {:induction false} RunTracked(cfg: Config, clock: Readings, calls: seq<Call>)
    requires Sensible(cfg, clock)
    ensures var s := Run(Dropped, cfg, clock, calls);
            Tracked(clock, s.breaker, s.next, HistoryOf(cfg, clock, calls))
  {
    hide Records, Answer;
    if calls == [] {
      assert clock(0) <= clock(2) && clock(1) <= clock(2);
      NewRecordsNothing(DEFAULT_BUCKET_SIZE, DEFAULT_WINDOW_BUCKETS, clock(0));
      NewRecordsNothing(DEFAULT_BUCKET_SIZE, DEFAULT_WINDOW_BUCKETS, clock(1));
    } else {
      var calls' := calls[..|calls| - 1];
      RunTracked(cfg, clock, calls');
      var s := Run(Dropped, cfg, clock, calls');
      AnswerTracked(cfg, calls[|calls| - 1], clock, s.breaker, s.next, HistoryOf(cfg, clock, calls'));
    }
  }

  /** Whenever a call opens the breaker, in any run: the call did not run its function,
      and it took a snapshot of the latest m requests and e errors since the breaker was
      made or last closed by a trial, none past the limit age, enough and bad enough. */
  lemma EveryTripHasEvidence(cfg: Config, clock: Readings, calls: seq<Call>, call: Call)
    requires Sensible(cfg, clock)
    ensures var s := Run(Dropped, cfg, clock, calls);
            var t := Answer(Dropped, cfg, clock, s.breaker, s.next, call);
            Trip(s.breaker, t.breaker) ==>
              && (t.value == Refused || t.value == Answered(true))
              && Justified(cfg, clock, s.breaker, t.breaker,
                           WithRequest(clock, s.next, call, HistoryOf(cfg, clock, calls)), s.next, t.next)
  {
    hide Tracked, Justified, Answer;
    RunTracked(cfg, clock, calls);
    var s := Run(Dropped, cfg, clock, calls);
    AnswerTracked(cfg, call, clock, s.breaker, s.next, HistoryOf(cfg, clock, calls));
  }

  // Spacing.

  /** A trip or a trial, with the time it leaves in the breaker. */
  datatype Mark = Mark(time: int, trial: bool)

  /** The trips and trials of a run, in order; no call is both. */
  function Marks(cfg: Config, clock: Readings, calls: seq<Call>): seq<Mark> {
    if calls == [] then []
    else
      var before := Run(Dropped, cfg, clock, calls[..|calls| - 1]);
      WithMark(clock, before, Answer(Dropped, cfg, clock, before.breaker, before.next, calls[|calls| - 1]),
               Marks(cfg, clock, calls[..|calls| - 1]))
  }

  /** A trial is dated by the second reading of its call, a trip by the time it stores. */
  function WithMark(clock: Readings, before: Step<seq<Reply>>, s: Step<Reply>, marks: seq<Mark>): seq<Mark> {
    if Trial(s.value) then marks + [Mark(clock(before.next + 1), true)]
    else if !before.breaker.open && s.breaker.open then marks + [Mark(s.breaker.lastTrialTime, false)]
    else marks
  }

  /** Every mark is at least as late as the one before it, and a trial is more than a sleep window later. */
  ghost predicate Spaced(cfg: Config, marks: seq<Mark>) {
    forall i :: 0 <= i < |marks| - 1 ==>
      && marks[i].time <= marks[i + 1].time
      && (marks[i + 1].trial ==> marks[i + 1].time > marks[i].time + cfg.sleepWindow)
  }

  /** The last mark is the time in the breaker. */
  ghost predicate MarksKept(cfg: Config, clock: Readings, b: Breaker, k: nat, marks: seq<Mark>) {
    && Spaced(cfg, marks)
    && (marks != [] ==> marks[|marks| - 1].time == b.lastTrialTime <= clock(k))
  }

  lemma MarkAdded(cfg: Config, clock: Readings, before: Step<seq<Reply>>, call: Call, s: Step<Reply>, marks: seq<Mark>)
    requires Sensible(cfg, clock) && before.next <= s.next
    requires MarksKept(cfg, clock, before.breaker, before.next, marks)
    requires Marked(cfg, clock, before.breaker, before.next, call, s)
    ensures MarksKept(cfg, clock, s.breaker, s.next, WithMark(clock, before, s, marks))
  {
    assert clock(before.next) <= clock(s.next);
    if Trip(before.breaker, s.breaker) {
      var i :| before.next <= i < s.next && s.breaker.lastTrialTime == clock(i);
      assert clock(before.next) <= clock(i) <= clock(s.next);
    } else if Trial(s.value) {
      assert clock(before.next + 1) <= clock(s.next);
    }
  }

  lemma {:induction false} MarksSpaced(cfg: Config, clock: Readings, calls: seq<Call>)
    requires Sensible(cfg, clock)
    ensures var s := Run(Dropped, cfg, clock, calls);
            MarksKept(cfg, clock, s.breaker, s.next, Marks(cfg, clock, calls))
  {
    hide Tracked, Answer, Marked, MarksKept, Justified, WithMark;
    if calls == [] {
      var start := Run(Dropped, cfg, clock, []);
      NoMarksKept(cfg, clock, start.breaker, start.next);
    } else {
      var calls', call := calls[..|calls| - 1], calls[|calls| - 1];
      MarksSpaced(cfg, clock, calls');
      RunTracked(cfg, clock, calls');
      var before := Run(Dropped, cfg, clock, calls');
      AnswerTracked(cfg, call, clock, before.breaker, before.next, HistoryOf(cfg, clock, calls'));
      MarkAdded(cfg, clock, before, call, Answer(Dropped, cfg, clock, before.breaker, before.next, call),
                Marks(cfg, clock, calls'));
    }
  }

  lemma NoMarksKept(cfg: Config, clock: Readings, b: Breaker, k: nat)
    ensures MarksKept(cfg, clock, b, k, [])
  {
  }

  function Trials(marks: seq<Mark>): nat {
    if marks == [] then 0 else Trials(marks[..|marks| - 1]) + if marks[|marks| - 1].trial then 1 else 0
  }

  lemma {:induction false} TrialsTakeTime(cfg: Config, marks: seq<Mark>)
    requires Spaced(cfg, marks) && marks != [] && 0 <= cfg.sleepWindow
    ensures marks[|marks| - 1].time - marks[0].time
            >= (Trials(marks) - if marks[0].trial then 1 else 0) * (cfg.sleepWindow + 1)
  {
    if |marks| > 1 {
      TrialsTakeTime(cfg, marks[..|marks| - 1]);
      MulStep(Trials(marks[..|marks| - 1]) - (if marks[0].trial then 1 else 0), cfg.sleepWindow + 1);
    } else {
      assert marks[..0] == [];
    }
  }

  lemma StretchOfTrials(cfg: Config, marks: seq<Mark>, i: nat, j: nat)
    requires Spaced(cfg, marks) && i < j <= |marks| && 0 <= cfg.sleepWindow
    ensures (Trials(marks[i..j]) - 1) * (cfg.sleepWindow + 1) <= marks[j - 1].time - marks[i].time
  {
    var stretch := marks[i..j];
    assert forall x :: 0 <= x < |stretch| ==> stretch[x] == marks[i + x];
    TrialsTakeTime(cfg, stretch);
    MulMonotone(Trials(stretch) - 1, Trials(stretch) - if marks[i].trial then 1 else 0, cfg.sleepWindow + 1);
  }

  /** Over any stretch of any run, n trials between times a and b satisfy
      (n - 1) * (sleepWindow + 1) <= b - a. */
  lemma TrialsAreSpaced(cfg: Config, clock: Readings, calls: seq<Call>, i: nat, j: nat, a: int, b: int)
    requires Sensible(cfg, clock)
    ensures var marks := Marks(cfg, clock, calls);
            && Spaced(cfg, marks)
            && (i < j <= |marks| && a <= marks[i].time && marks[j - 1].time <= b ==>
                  (Trials(marks[i..j]) - 1) * (cfg.sleepWindow + 1) <= b - a)
  {
    hide Marks, Trials, Spaced, Run;
    MarksSpaced(cfg, clock, calls);
    var marks := Marks(cfg, clock, calls);
    if i < j <= |marks| && a <= marks[i].time && marks[j - 1].time <= b {
      StretchOfTrials(cfg, marks, i, j);
    }
  }

  /** While the breaker is open, and not forced, only trials pass; and only a trial
      that succeeds closes it. */
  lemma OnlyTrialsPassOpenBreaker(cfg: Config, clock: Readings, calls: seq<Call>, call: Call)
    requires Sensible(cfg, clock)
    ensures var s := Run(Dropped, cfg, clock, calls);
            var t := Answer(Dropped, cfg, clock, s.breaker, s.next, call);
            s.breaker.open ==>
              && (call.CallDo? && Counts(call.flags) && !call.flags.forceClosed ==>
                    t.value == Refused || Trial(t.value))
              && (t.breaker.open <==> t.value != Executed(true, Returned(None)))
  {
    hide Tracked, Justified;
    RunTracked(cfg, clock, calls);
    var s := Run(Dropped, cfg, clock, calls);
    AnswerTracked(cfg, call, clock, s.breaker, s.next, HistoryOf(cfg, clock, calls));
  }
}
