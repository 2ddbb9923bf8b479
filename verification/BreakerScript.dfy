/**
 Every thread of every interleaving runs the code of its call, operation by operation, on
 what it reads. The code is written down here as functions that consume what a thread has
 seen: an answer is true if the state was found open or the health read trips, whoever wins
 the swap that opens the breaker, and a call runs its function if its second question is
 answered false or if it has won the swap of the trial time.
 */
module BreakerScript {
  import opened Clocks
  import opened Outcomes
  import opened RollingNumber
  import opened BreakerModel
  import opened BreakerInterleaving
  import opened BreakerJudgement

  /** What an operation of a thread reads, and what it writes. A swap of times finds a time, and
      succeeds if that is the one expected. */
  datatype Sight =
    | TrialTime(time: int)
    | SnapshotTime(time: int)
    | ClockRead(now: int)
    | StateRead(open: bool)
    | SnapshotSwap(expected: int, written: int, found: int)
    | TrialSwap(expected: int, written: int, found: int)
    | RequestSum(requests: int)
    | ErrorSum(errors: int)
    | OpenSwap(won: bool)
    | TripStore(stamp: int)
    | Ran(f: Outcome)
    | ErrorCounted
    | ErrorsReset
    | RequestsReset
    | ClosedStore

  /** What some code makes of a beginning of the sights, if it gets through, and the others. */
  datatype Parsed<T> = Stuck | Got(value: T, rest: seq<Sight>)

  // The health snapshot, of which nothing is ever stored.

  function TakenHealth(cfg: Config, w: seq<Sight>): Parsed<Health> {
    if w != [] && w[0].SnapshotTime? then HealthSince(cfg, w[0].time, w[1..]) else Stuck
  }

  function HealthSince(cfg: Config, taken: int, w: seq<Sight>): Parsed<Health> {
    if w == [] || !w[0].ClockRead? then Stuck
    else if w[0].now > taken + cfg.healthSnapshotInterval then FreshHealth(taken, w[0].now, w[1..])
    else Got(Health(0, 0), w[1..])
  }

  function FreshHealth(taken: int, now: int, w: seq<Sight>): Parsed<Health> {
    if w == [] || !w[0].SnapshotSwap? || w[0].expected != taken || w[0].written != now then Stuck
    else if w[0].found == taken then SummedHealth(w[1..])
    else Got(Health(0, 0), w[1..])
  }

  function SummedHealth(w: seq<Sight>): Parsed<Health> {
    if w != [] && w[0].RequestSum? then WithErrors(w[0].requests, w[1..]) else Stuck
  }

  function WithErrors(requests: int, w: seq<Sight>): Parsed<Health> {
    if w != [] && w[0].ErrorSum? then Got(Health(requests, w[0].errors), w[1..]) else Stuck
  }

  // The question.

  function Question(cfg: Config, w: seq<Sight>): Parsed<bool> {
    if w == [] || !w[0].StateRead? then Stuck
    else if w[0].open then Got(true, w[1..])
    else Opening(cfg, TakenHealth(cfg, w[1..]))
  }

  function Opening(cfg: Config, h: Parsed<Health>): Parsed<bool> {
    if h.Stuck? then Stuck
    else if Trips(cfg, h.value) then Opened(h.rest)
    else Got(false, h.rest)
  }

  /** The answer is true whether or not this thread wins. */
  function Opened(w: seq<Sight>): Parsed<bool> {
    if w == [] || !w[0].OpenSwap? then Stuck
    else if w[0].won then TripClocked(w[1..])
    else Got(true, w[1..])
  }

  function TripClocked(w: seq<Sight>): Parsed<bool> {
    if w != [] && w[0].ClockRead? then TripStored(w[0].now, w[1..]) else Stuck
  }

  function TripStored(now: int, w: seq<Sight>): Parsed<bool> {
    if w != [] && w[0] == TripStore(now) then Got(true, w[1..]) else Stuck
  }

  function Asked(cfg: Config, w: seq<Sight>): Parsed<Reply> {
    var open := Question(cfg, w);
    if open.Got? then Got(Answered(open.value), open.rest) else Stuck
  }

  // The call.

  /** Whether the call is a trial. */
  function Tried(cfg: Config, w: seq<Sight>): Parsed<bool> {
    if w != [] && w[0].TrialTime? then TriedSince(cfg, w[0].time, w[1..]) else Stuck
  }

  function TriedSince(cfg: Config, last: int, w: seq<Sight>): Parsed<bool> {
    if w != [] && w[0].ClockRead? then TriedIf(cfg, last, w[0].now, Question(cfg, w[1..])) else Stuck
  }

  function TriedIf(cfg: Config, last: int, now: int, open: Parsed<bool>): Parsed<bool> {
    if open.Stuck? then Stuck
    else if open.value && now > last + cfg.sleepWindow then TrialSwapped(last, now, open.rest)
    else Got(false, open.rest)
  }

  function TrialSwapped(last: int, now: int, w: seq<Sight>): Parsed<bool> {
    if w != [] && w[0].TrialSwap? && w[0].expected == last && w[0].written == now
    then Got(w[0].found == last, w[1..]) else Stuck
  }

  function Admitted(cfg: Config, w: seq<Sight>): Parsed<Admission> {
    AdmittedIf(cfg, Tried(cfg, w))
  }

  function AdmittedIf(cfg: Config, trial: Parsed<bool>): Parsed<Admission> {
    if trial.Stuck? then Stuck else AdmittedUnless(trial.value, Question(cfg, trial.rest))
  }

  function AdmittedUnless(trial: bool, open: Parsed<bool>): Parsed<Admission> {
    if open.Stuck? then Stuck else Got(Admission(!open.value || trial, trial), open.rest)
  }

  function Called(cfg: Config, w: seq<Sight>): Parsed<Reply> {
    Decided(Admitted(cfg, w))
  }

  function Decided(a: Parsed<Admission>): Parsed<Reply> {
    if a.Stuck? then Stuck
    else if a.value.allowed then Running(a.value.trial, a.rest)
    else Counting(Refused, a.rest)
  }

  function Counting(reply: Reply, w: seq<Sight>): Parsed<Reply> {
    if w != [] && w[0].ErrorCounted? then Got(reply, w[1..]) else Stuck
  }

  function Running(trial: bool, w: seq<Sight>): Parsed<Reply> {
    if w == [] || !w[0].Ran? then Stuck
    else
      match w[0].f
      case Panicked(_) => Got(Executed(trial, w[0].f), w[1..])
      case Returned(Some(e)) =>
        Counting(Executed(trial, Returned(Some(if trial then CircuitOpenError else e))), w[1..])
      case Returned(None) =>
        if trial then Closing(w[1..]) else Got(Executed(false, w[0].f), w[1..])
  }

  function Closing(w: seq<Sight>): Parsed<Reply> {
    if w != [] && w[0].ErrorsReset? then ClosingRequests(w[1..]) else Stuck
  }

  function ClosingRequests(w: seq<Sight>): Parsed<Reply> {
    if w != [] && w[0].RequestsReset? then ClosingState(w[1..]) else Stuck
  }

  function ClosingState(w: seq<Sight>): Parsed<Reply> {
    if w != [] && w[0].ClosedStore? then Got(Executed(true, Returned(None)), w[1..]) else Stuck
  }

  // What a thread sees.

  function SightOf(s: State, thread: Thread, f: Outcome): Sight
    requires s.Valid() && !thread.Idle?
  {
    match thread
    case LoadTrialTime => TrialTime(s.breaker.lastTrialTime)
    case ReadTrialClock(_) => ClockRead(s.now)
    case LoadOpen(_) => StateRead(s.breaker.open)
    case LoadSnapshotTime(_) => SnapshotTime(s.breaker.snapshotTime)
    case ReadHealthClock(_, _) => ClockRead(s.now)
    case SwapSnapshotTime(_, taken, timestamp) => SnapshotSwap(taken, timestamp, s.breaker.snapshotTime)
    case SumRequests(_) => RequestSum(Total(s.breaker.requests, s.now))
    case SumErrors(_, _) => ErrorSum(Total(s.breaker.errors, s.now))
    case SwapOpen(_, _) => OpenSwap(!s.breaker.open)
    case ReadTripClock(_) => ClockRead(s.now)
    case StoreTrip(_, stamp) => TripStore(stamp)
    case SwapTrial(last, timestamp) => TrialSwap(last, timestamp, s.breaker.lastTrialTime)
    case Run(_) => Ran(f)
    case CountError(_) => ErrorCounted
    case ResetErrors => ErrorsReset
    case ResetRequests => RequestsReset
    case StoreClosed => ClosedStore
  }

  /** What a thread has been asked to do last, and what it has seen since. */
  datatype Work = Nothing | Asking(sights: seq<Sight>) | Calling(sights: seq<Sight>)

  function Seeing(work: Work, x: Sight): Work {
    match work
    case Nothing => Nothing
    case Asking(sights) => Asking(sights + [x])
    case Calling(sights) => Calling(sights + [x])
  }

  function WorkAfter(s: State, a: Action, t: nat, work: Work): Work
    requires s.Valid()
  {
    if t < |s.threads| && s.threads[t].Idle? && a == StartDo(t) then Calling([])
    else if t < |s.threads| && s.threads[t].Idle? && a == StartIsOpen(t) then Asking([])
    else if Goes(s, a) && a.thread == t && !s.threads[t].Idle? then Seeing(work, SightOf(s, s.threads[t], a.f))
    else work
  }

  function WorkOf(cfg: Config, threads: nat, start: int, run: seq<Action>, t: nat): Work {
    if run == [] then Nothing
    else
      WorkAfter(Reached(cfg, threads, start, run[..|run| - 1]), run[|run| - 1], t,
                WorkOf(cfg, threads, start, run[..|run| - 1], t))
  }

  /** What the code makes of the sights so far and some further ones. */
  function Scripted(cfg: Config, work: Work, w: seq<Sight>): Parsed<Reply> {
    match work
    case Nothing => Got(Waited, w)
    case Asking(sights) => Asked(cfg, sights + w)
    case Calling(sights) => Called(cfg, sights + w)
  }

  // The code that is left at each operation of a thread.

  function OnAnswer(cfg: Config, caller: Caller, open: Parsed<bool>): Parsed<Reply> {
    match caller
    case Outside => if open.Got? then Got(Answered(open.value), open.rest) else Stuck
    case TrialCheck(last, timestamp) => Decided(AdmittedIf(cfg, TriedIf(cfg, last, timestamp, open)))
    case RequestCheck(trial) => Decided(AdmittedUnless(trial, open))
  }

  function Left(cfg: Config, thread: Thread, w: seq<Sight>): Parsed<Reply> {
    match thread
    case Idle(reply) => Got(reply, w)
    case LoadTrialTime => Called(cfg, w)
    case ReadTrialClock(last) => Decided(AdmittedIf(cfg, TriedSince(cfg, last, w)))
    case LoadOpen(caller) => OnAnswer(cfg, caller, Question(cfg, w))
    case LoadSnapshotTime(caller) => OnAnswer(cfg, caller, Opening(cfg, TakenHealth(cfg, w)))
    case ReadHealthClock(caller, taken) => OnAnswer(cfg, caller, Opening(cfg, HealthSince(cfg, taken, w)))
    case SwapSnapshotTime(caller, taken, now) => OnAnswer(cfg, caller, Opening(cfg, FreshHealth(taken, now, w)))
    case SumRequests(caller) => OnAnswer(cfg, caller, Opening(cfg, SummedHealth(w)))
    case SumErrors(caller, requests) => OnAnswer(cfg, caller, Opening(cfg, WithErrors(requests, w)))
    case SwapOpen(caller, _) => OnAnswer(cfg, caller, Opened(w))
    case ReadTripClock(caller) => OnAnswer(cfg, caller, TripClocked(w))
    case StoreTrip(caller, stamp) => OnAnswer(cfg, caller, TripStored(stamp, w))
    case SwapTrial(last, timestamp) => Decided(AdmittedIf(cfg, TrialSwapped(last, timestamp, w)))
    case Run(trial) => Running(trial, w)
    case CountError(reply) => Counting(reply, w)
    case ResetErrors => Closing(w)
    case ResetRequests => ClosingRequests(w)
    case StoreClosed => ClosingState(w)
  }

  lemma ReturnLeaves(cfg: Config, caller: Caller, open: bool, w: seq<Sight>)
    ensures Left(cfg, Return(cfg, caller, open), w) == OnAnswer(cfg, caller, Got(open, w))
  {
    hide Question;
  }

  lemma JudgedLeaves(cfg: Config, caller: Caller, h: Health, w: seq<Sight>)
    ensures Left(cfg, Judged(cfg, caller, h), w) == OnAnswer(cfg, caller, Opening(cfg, Got(h, w)))
  {
    hide Question, Trips, OnAnswer, Return;
    ReturnLeaves(cfg, caller, false, w);
  }

  predicate Questions(thread: Thread) {
    || thread.LoadOpen? || thread.LoadSnapshotTime? || thread.ReadHealthClock? || thread.SwapSnapshotTime?
    || thread.SumRequests? || thread.SumErrors? || thread.SwapOpen? || thread.ReadTripClock? || thread.StoreTrip?
  }

  /** The operations of a question. */
  lemma QuestionFollows(cfg: Config, s: State, thread: Thread, f: Outcome, w: seq<Sight>)
    requires s.Valid() && Questions(thread) && s.breaker.snapshot == Health(0, 0)
    ensures Left(cfg, thread, [SightOf(s, thread, f)] + w)
         == Left(cfg, Perform(cfg, s.now, s.breaker, thread, f).thread, w)
  {
    hide Total, Rotate, Trips, Return, Judged, OnAnswer, Opening, Decided, AdmittedIf;
    var x := SightOf(s, thread, f);
    assert ([x] + w)[0] == x && ([x] + w)[1..] == w;
    match thread
    case LoadOpen(caller) => ReturnLeaves(cfg, caller, true, w);
    case ReadHealthClock(caller, _) => JudgedLeaves(cfg, caller, Health(0, 0), w);
    case SwapSnapshotTime(caller, _, _) => JudgedLeaves(cfg, caller, Health(0, 0), w);
    case SumErrors(caller, m) => JudgedLeaves(cfg, caller, Health(m, Total(s.breaker.errors, s.now)), w);
    case SwapOpen(caller, _) => ReturnLeaves(cfg, caller, true, w);
    case StoreTrip(caller, _) => ReturnLeaves(cfg, caller, true, w);
    case _ =>
  }

  predicate Ends(thread: Thread) {
    thread.Run? || thread.CountError? || thread.ResetErrors? || thread.ResetRequests? || thread.StoreClosed?
  }

  /** The run of the function, and what follows it. */
  lemma EndFollows(cfg: Config, s: State, thread: Thread, f: Outcome, w: seq<Sight>)
    requires s.Valid() && Ends(thread)
    ensures Left(cfg, thread, [SightOf(s, thread, f)] + w)
         == Left(cfg, Perform(cfg, s.now, s.breaker, thread, f).thread, w)
  {
    hide Incremented, Zeroed, Question;
    var x := SightOf(s, thread, f);
    assert ([x] + w)[0] == x && ([x] + w)[1..] == w;
  }

  /** Each operation of a thread takes one sight off the code. */
  lemma PerformFollows(cfg: Config, s: State, thread: Thread, f: Outcome, w: seq<Sight>)
    requires s.Valid() && !thread.Idle? && s.breaker.snapshot == Health(0, 0)
    ensures Left(cfg, thread, [SightOf(s, thread, f)] + w)
         == Left(cfg, Perform(cfg, s.now, s.breaker, thread, f).thread, w)
  {
    if Questions(thread) {
      QuestionFollows(cfg, s, thread, f, w);
    } else if Ends(thread) {
      EndFollows(cfg, s, thread, f, w);
    } else {
      hide Incremented, Zeroed, Decided, Question;
      var x := SightOf(s, thread, f);
      assert ([x] + w)[0] == x && ([x] + w)[1..] == w;
    }
  }

  // Runs.

  lemma NoneStored(cfg: Config, threads: nat, start: int, run: seq<Action>)
    ensures Reached(cfg, threads, start, run).breaker.snapshot == Health(0, 0)
  {
    RunRecorded(cfg, threads, start, run);
  }

  lemma SeeingMore(cfg: Config, work: Work, x: Sight, w: seq<Sight>)
    ensures work.Nothing? || Scripted(cfg, Seeing(work, x), w) == Scripted(cfg, work, [x] + w)
  {
    hide Asked, Called;
    if !work.Nothing? {
      assert work.sights + [x] + w == work.sights + ([x] + w);
    }
  }

  /** A thread that has never been asked to do anything has replied nothing. */
  ghost predicate Follows(cfg: Config, work: Work, thread: Thread, w: seq<Sight>) {
    && (work.Nothing? ==> thread == Idle(Waited))
    && Scripted(cfg, work, w) == Left(cfg, thread, w)
  }

  lemma NextFollows(cfg: Config, s: State, a: Action, t: nat, work: Work, w: seq<Sight>)
    requires s.Valid() && s.breaker.snapshot == Health(0, 0)
    requires t < |s.threads| && t < |BreakerInterleaving.Next(cfg, s, a).threads|
    requires forall w' :: Follows(cfg, work, s.threads[t], w')
    ensures Follows(cfg, WorkAfter(s, a, t, work), BreakerInterleaving.Next(cfg, s, a).threads[t], w)
  {
    hide Perform, Incremented, Asked, Called, Question, SightOf;
    var thread := s.threads[t];
    assert Follows(cfg, work, thread, w);
    if thread.Idle? && a == StartDo(t) {
      assert [] + w == w;
    } else if thread.Idle? && a == StartIsOpen(t) {
      assert [] + w == w;
      AskedLeaves(cfg, w);
    } else if Goes(s, a) && a.thread == t && !thread.Idle? {
      var x := SightOf(s, thread, a.f);
      assert Follows(cfg, work, thread, [x] + w);
      PerformFollows(cfg, s, thread, a.f, w);
      SeeingMore(cfg, work, x, w);
    } else if Goes(s, a) && a.thread == t {
      IdleStays(cfg, s, thread, a.f);
    }
  }

  lemma AskedLeaves(cfg: Config, w: seq<Sight>)
    ensures Asked(cfg, w) == Left(cfg, LoadOpen(Outside), w)
  {
    hide Question;
  }

  lemma IdleStays(cfg: Config, s: State, thread: Thread, f: Outcome)
    requires s.Valid() && thread.Idle?
    ensures Perform(cfg, s.now, s.breaker, thread, f).thread == thread
  {
  }

  /** What a thread has seen so far is a beginning of the code; at each of its operations the rest is left. */
  lemma {:induction false} ThreadsFollowTheCode(cfg: Config, threads: nat, start: int, run: seq<Action>, t: nat,
                                                w: seq<Sight>)
    requires t < |Reached(cfg, threads, start, run).threads|
    ensures Follows(cfg, WorkOf(cfg, threads, start, run, t), Reached(cfg, threads, start, run).threads[t], w)
  {
    if run != [] {
      var before, a := run[..|run| - 1], run[|run| - 1];
      var s := Reached(cfg, threads, start, before);
      ThreadGoes(cfg, s, a, t);
      hide Follows, WorkAfter, BreakerInterleaving.Next;
      forall w' ensures Follows(cfg, WorkOf(cfg, threads, start, before, t), s.threads[t], w') {
        ThreadsFollowTheCode(cfg, threads, start, before, t, w');
      }
      NoneStored(cfg, threads, start, before);
      NextFollows(cfg, s, a, t, WorkOf(cfg, threads, start, before, t), w);
    }
  }

  /** In every interleaving the reply a thread gets is the one the code of its call or question gives on
      exactly what the thread has read. */
  lemma RepliesFollowTheCode(cfg: Config, threads: nat, start: int, run: seq<Action>, t: nat)
    requires var s := Reached(cfg, threads, start, run);
             t < |s.threads| && s.threads[t].Idle?
    ensures var reply := Reached(cfg, threads, start, run).threads[t].reply;
            match WorkOf(cfg, threads, start, run, t)
            case Nothing => reply == Waited
            case Asking(sights) => Asked(cfg, sights) == Got(reply, [])
            case Calling(sights) => Called(cfg, sights) == Got(reply, [])
  {
    hide Asked, Called, Reached, WorkOf;
    ThreadsFollowTheCode(cfg, threads, start, run, t, []);
    var work := WorkOf(cfg, threads, start, run, t);
    assert !work.Nothing? ==> work.sights + [] == work.sights;
  }

  /** A function that runs has been admitted by the code, whose next sight is the end of the function, say
      by a panic: as a trial if its thread has won the swap of the trial time, and otherwise because the
      second question of the call was answered false. */
  lemma RunningIsAdmitted(cfg: Config, threads: nat, start: int, run: seq<Action>, t: nat, value: PanicValue)
    requires var s := Reached(cfg, threads, start, run);
             t < |s.threads| && s.threads[t].Run?
    ensures var work, trial := WorkOf(cfg, threads, start, run, t), Reached(cfg, threads, start, run).threads[t].trial;
            var end := [Ran(Panicked(value))];
            work.Calling? && Admitted(cfg, work.sights + end) == Got(Admission(true, trial), end)
  {
    hide Admitted, Asked, Reached, WorkOf;
    var work, end := WorkOf(cfg, threads, start, run, t), [Ran(Panicked(value))];
    ThreadsFollowTheCode(cfg, threads, start, run, t, end);
    if work.Asking? {
      AskedOnlyAnswers(cfg, work, end);
    } else {
      OnlyRan(Admitted(cfg, work.sights + end), Reached(cfg, threads, start, run).threads[t].trial, value);
    }
  }

  lemma AskedOnlyAnswers(cfg: Config, work: Work, w: seq<Sight>)
    requires work.Asking? && Scripted(cfg, work, w).Got?
    ensures Scripted(cfg, work, w).value.Answered?
  {
  }

  lemma OnlyRan(a: Parsed<Admission>, trial: bool, value: PanicValue)
    requires Decided(a) == Got(Executed(trial, Panicked(value)), [])
    ensures a == Got(Admission(true, trial), [Ran(Panicked(value))])
  {
    assert a.rest == [a.rest[0]] + a.rest[1..];
  }

  /** A question is answered true just when the state was found open or the health read trips: it does not
      matter who wins the swap that opens the breaker. */
  lemma AnswerMeans(cfg: Config, w: seq<Sight>)
    requires Question(cfg, w).Got?
    ensures w != [] && w[0].StateRead?
    ensures !w[0].open ==> TakenHealth(cfg, w[1..]).Got?
    ensures Question(cfg, w).value <==> w[0].open || Trips(cfg, TakenHealth(cfg, w[1..]).value)
    ensures !Question(cfg, w).value ==> Question(cfg, w).rest == TakenHealth(cfg, w[1..]).rest
  {
    hide TakenHealth, Trips;
  }

  /** A function that runs as a plain call belongs to a thread whose second question found the breaker closed and
      then, with its last operation, a health that does not trip. */
  lemma PlainRunsFoundNoTrip(cfg: Config, threads: nat, start: int, run: seq<Action>, t: nat, value: PanicValue)
    requires var s := Reached(cfg, threads, start, run);
             t < |s.threads| && s.threads[t] == Thread.Run(false)
    ensures var work, end := WorkOf(cfg, threads, start, run, t), [Ran(Panicked(value))];
            work.Calling? &&
            var tried := Tried(cfg, work.sights + end);
            && tried.Got? && !tried.value
            && tried.rest != [] && tried.rest[0] == StateRead(false)
            && TakenHealth(cfg, tried.rest[1..]).Got?
            && !Trips(cfg, TakenHealth(cfg, tried.rest[1..]).value)
            && TakenHealth(cfg, tried.rest[1..]).rest == end
  {
    hide Tried, Question, TakenHealth, Reached, WorkOf, Trips;
    RunningIsAdmitted(cfg, threads, start, run, t, value);
    var w := WorkOf(cfg, threads, start, run, t).sights + [Ran(Panicked(value))];
    AnswerMeans(cfg, Tried(cfg, w).rest);
  }

  /** A swap that finds what it expects writes its own value and nothing else; one that does not changes nothing. */
  lemma SwapsAreAtomic(cfg: Config, now: int, b: Breaker, thread: Thread, f: Outcome)
    requires b.Valid()
    ensures var p := Perform(cfg, now, b, thread, f);
            && (thread.SwapSnapshotTime? ==>
                  && p.breaker == (if b.snapshotTime == thread.taken then b.(snapshotTime := thread.timestamp) else b)
                  && p.written == [])
            && (thread.SwapOpen? ==> p.breaker == b.(open := true) && p.written == [])
            && (thread.SwapTrial? ==>
                  if b.lastTrialTime == thread.last
                  then p.breaker == b.(lastTrialTime := thread.timestamp)
                  && p.written == [Write(thread.timestamp, true)]
                  else p.breaker == b && p.written == [])
  {
    hide Trips, Return;
  }
}
