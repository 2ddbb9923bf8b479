/** The request log: what each execution leaves behind, and its text. */
module RequestLog {
  import opened RollingNumber

  datatype ExecutionEvent =
    | Success
    | Failure
    | Timeout
    | ShortCircuited
    | SemaphoreRejected
    | ResponseFromCache
    | FallbackSuccess
    | FallbackFailure

  function EventText(e: ExecutionEvent): string {
    match e
    case Success => "SUCCESS"
    case Failure => "FAILURE"
    case Timeout => "TIMEOUT"
    case ShortCircuited => "SHORT_CIRCUITED"
    case SemaphoreRejected => "SEMAPHORE_REJECTED"
    case ResponseFromCache => "RESPONSE_FROM_CACHE"
    case FallbackSuccess => "FALLBACK_SUCCESS"
    case FallbackFailure => "FALLBACK_FAILURE"
  }

  datatype ExecutionInfo = ExecutionInfo(commandName: string, executionTime: int, events: seq<ExecutionEvent>) {
    /** Never negative, whatever was measured. */
    function ExecutionTime(): (time: int)
      ensures 0 <= time && executionTime <= time
      ensures time != executionTime ==> time == 0
    {
      if executionTime < 0 then 0 else executionTime
    }
  }

  function Joined(parts: seq<string>): string
    decreases |parts|, 1
  {
    if parts == [] then ""
    else Lead(parts) + parts[|parts| - 1]
  }

  /** Everything before the last part. */
  function Lead(parts: seq<string>): string
    requires parts != []
    decreases |parts|, 0
  {
    if |parts| == 1 then "" else Joined(parts[..|parts| - 1]) + ", "
  }

  function Texts(events: seq<ExecutionEvent>): (texts: seq<string>)
    ensures |texts| == |events|
  {
    seq(|events|, i requires 0 <= i < |events| => EventText(events[i]))
  }

  function CommandText(info: ExecutionInfo): string {
    info.commandName + "[" + Joined(Texts(info.events)) + "]"
  }

  // Grouping.

  /** The texts of a log, each once, in the order of their first occurrence. */
  function Order(log: seq<ExecutionInfo>): seq<string> {
    if log == [] then []
    else
      var order, text := Order(log[..|log| - 1]), CommandText(log[|log| - 1]);
      if text in order then order else order + [text]
  }

  function CountOf(log: seq<ExecutionInfo>, text: string): nat {
    if log == [] then 0
    else CountOf(log[..|log| - 1], text) + if CommandText(log[|log| - 1]) == text then 1 else 0
  }

  function TimeOf(log: seq<ExecutionInfo>, text: string): nat {
    if log == [] then 0
    else TimeOf(log[..|log| - 1], text)
         + if CommandText(log[|log| - 1]) == text then log[|log| - 1].ExecutionTime() else 0
  }

  function Decimal(n: nat): string {
    if n < 10 then ['0' + n as char] else Decimal(n / 10) + ['0' + (n % 10) as char]
  }

  function GroupText(text: string, count: nat, time: nat): string {
    text + "[" + Decimal(time / MILLISECOND) + "ms]" + if count > 1 then "x" + Decimal(count) else ""
  }

  function GroupTexts(log: seq<ExecutionInfo>, order: seq<string>): (texts: seq<string>)
    ensures |texts| == |order|
  {
    seq(|order|, i requires 0 <= i < |order| => GroupText(order[i], CountOf(log, order[i]), TimeOf(log, order[i])))
  }

  function LogText(log: seq<ExecutionInfo>): string {
    Joined(GroupTexts(log, Order(log)))
  }

  datatype Aggregate = Aggregate(count: nat, executionTime: nat)

  /** Appending one part, the way a loop over a buffer does. */
  lemma JoinedAppend(parts: seq<string>, i: nat)
    requires i < |parts|
    ensures Joined(parts[..i + 1]) == (if i > 0 then Joined(parts[..i]) + ", " else "") + parts[i]
  {
    assert parts[..i + 1][..i] == parts[..i];
  }

  method WriteCommand(info: ExecutionInfo) returns (text: string)
    ensures text == CommandText(info)
  {
    hide EventText;
    text := info.commandName + "[";
    ghost var parts := Texts(info.events);
    for i := 0 to |info.events|
      invariant text == info.commandName + "[" + Joined(parts[..i])
    {
      JoinedAppend(parts, i);
      if i > 0 {
        text := text + ", ";
      }
      text := text + EventText(info.events[i]);
    }
    assert parts[..|info.events|] == parts;
    text := text + "]";
  }

  class RequestLog {
    var executedRequests: seq<ExecutionInfo>

    constructor ()
      ensures executedRequests == []
    {
      executedRequests := [];
    }

    method AddExecutionInfo(info: ExecutionInfo)
      modifies this
      ensures executedRequests == old(executedRequests) + [info]
    {
      executedRequests := executedRequests + [info];
    }

    /** One pass collects the texts in order with their counts and times, a second writes them. */
    method String() returns (text: string)
      ensures text == LogText(executedRequests)
    {
      hide Aggregates, CommandText, Order, CountOf, TimeOf, GroupText, Joined, Lead;
      var commandOrder: seq<string> := [];
      var aggregated: map<string, Aggregate> := map[];
      var log := executedRequests;
      NothingAggregated();
      for i := 0 to |log|
        invariant Aggregates(aggregated, commandOrder, log[..i])
      {
        var info := log[i];
        var cmd := WriteCommand(info);
        OneMoreAggregated(aggregated, commandOrder, log, i);
        if cmd in aggregated {
          var ac := aggregated[cmd];
          aggregated := aggregated[cmd := Aggregate(ac.count + 1, ac.executionTime + info.ExecutionTime())];
        } else {
          commandOrder := commandOrder + [cmd];
          aggregated := aggregated[cmd := Aggregate(1, info.ExecutionTime())];
        }
      }
      assert log[..|log|] == log;
      text := "";
      ghost var parts := GroupTexts(log, commandOrder);
      NothingJoined();
      for i := 0 to |commandOrder|
        invariant text == Joined(parts[..i])
      {
        JoinedAppend(parts, i);
        if i > 0 {
          text := text + ", ";
        }
        var cmd := commandOrder[i];
        GroupAggregated(aggregated, commandOrder, log, i);
        text := text + GroupText(cmd, aggregated[cmd].count, aggregated[cmd].executionTime);
      }
      OrderAggregated(aggregated, commandOrder, log);
      assert parts[..|commandOrder|] == parts;
    }
  }

  /** The map and the slice after one pass over a log. */
  ghost predicate Aggregates(aggregated: map<string, Aggregate>, order: seq<string>, log: seq<ExecutionInfo>) {
    && order == Order(log)
    && (forall t :: t in aggregated <==> t in order)
    && (forall t :: t in aggregated ==> aggregated[t] == Aggregate(CountOf(log, t), TimeOf(log, t)))
  }

  lemma NothingAggregated()
    ensures Aggregates(map[], [], [])
  {
  }

  lemma NothingJoined()
    ensures Joined([]) == ""
  {
  }

  lemma OrderAggregated(aggregated: map<string, Aggregate>, order: seq<string>, log: seq<ExecutionInfo>)
    requires Aggregates(aggregated, order, log)
    ensures order == Order(log)
  {
  }

  lemma GroupAggregated(aggregated: map<string, Aggregate>, order: seq<string>, log: seq<ExecutionInfo>, i: nat)
    requires Aggregates(aggregated, order, log) && i < |order|
    ensures order[i] in aggregated && aggregated[order[i]] == Aggregate(CountOf(log, order[i]), TimeOf(log, order[i]))
  {
    hide CountOf, TimeOf, Order;
  }

  lemma OneMoreAggregated(aggregated: map<string, Aggregate>, order: seq<string>, log: seq<ExecutionInfo>, i: nat)
    requires i < |log| && Aggregates(aggregated, order, log[..i])
    ensures var cmd, time := CommandText(log[i]), log[i].ExecutionTime();
            if cmd in aggregated then
              Aggregates(aggregated[cmd := Aggregate(aggregated[cmd].count + 1, aggregated[cmd].executionTime + time)],
                         order, log[..i + 1])
            else
              Aggregates(aggregated[cmd := Aggregate(1, time)], order + [cmd], log[..i + 1])
  {
    hide CommandText, Order, CountOf, TimeOf;
    AggregateStep(log, i, CommandText(log[i]));
  }

  /** One more execution changes the group of its own text alone. */
  lemma AggregateStep(log: seq<ExecutionInfo>, i: nat, cmd: string)
    requires i < |log| && cmd == CommandText(log[i])
    ensures Order(log[..i + 1]) == if cmd in Order(log[..i]) then Order(log[..i]) else Order(log[..i]) + [cmd]
    ensures forall t :: CountOf(log[..i + 1], t) == CountOf(log[..i], t) + if t == cmd then 1 else 0
    ensures forall t :: TimeOf(log[..i + 1], t) == TimeOf(log[..i], t) + if t == cmd then log[i].ExecutionTime() else 0
    ensures cmd !in Order(log[..i]) ==> CountOf(log[..i], cmd) == 0 && TimeOf(log[..i], cmd) == 0
  {
    assert log[..i + 1][..i] == log[..i];
    GroupedIffCounted(log[..i], cmd);
  }

  lemma {:induction false} GroupedIffCounted(log: seq<ExecutionInfo>, text: string)
    ensures text in Order(log) <==> CountOf(log, text) > 0
    ensures text !in Order(log) ==> TimeOf(log, text) == 0
  {
    hide CommandText;
    if log != [] {
      GroupedIffCounted(log[..|log| - 1], text);
    }
  }

  lemma {:induction false} GroupedIffLogged(log: seq<ExecutionInfo>, text: string)
    ensures text in Order(log) <==> exists i :: 0 <= i < |log| && CommandText(log[i]) == text
  {
    hide CommandText;
    if log != [] {
      var before, last := log[..|log| - 1], |log| - 1;
      GroupedIffLogged(before, text);
      assert forall i :: 0 <= i < last ==> before[i] == log[i];
      if CommandText(log[last]) == text {
        assert text in Order(log);
      } else {
        assert text in Order(log) <==> text in Order(before);
      }
    }
  }
}
