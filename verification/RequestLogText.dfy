/** What the text of a request log shows: a partition of the log by name and events. */
module RequestLogText {
  import opened RequestLog

  // The groups partition the log.

  ghost predicate Distinct(texts: seq<string>) {
    forall i, j :: 0 <= i < j < |texts| ==> texts[i] != texts[j]
  }

  lemma {:induction false} OrderDistinct(log: seq<ExecutionInfo>)
    ensures Distinct(Order(log))
  {
    if log != [] {
      OrderDistinct(log[..|log| - 1]);
    }
  }

  /** Groups appear in the order of their first executions. */
  lemma {:induction false} OrderByFirst(log: seq<ExecutionInfo>, i: nat, j: nat, k: nat)
    requires i < j < |Order(log)| && k < |log| && CommandText(log[k]) == Order(log)[j]
    ensures exists f :: 0 <= f < k && CommandText(log[f]) == Order(log)[i]
  {
    hide CommandText;
    var last := |log| - 1;
    var before, first := log[..last], Order(log)[i];
    assert forall x :: 0 <= x < last ==> before[x] == log[x];
    if j < |Order(before)| && k < last {
      OrderByFirst(before, i, j, k);
    } else {
      GroupedIffLogged(before, Order(log)[j]);
      GroupedIffLogged(before, first);
      OrderDistinct(log);
      assert k == last;
      assert first in Order(before);
    }
  }

  function GroupedCount(log: seq<ExecutionInfo>, texts: seq<string>): nat {
    if texts == [] then 0 else GroupedCount(log, texts[..|texts| - 1]) + CountOf(log, texts[|texts| - 1])
  }

  function GroupedTime(log: seq<ExecutionInfo>, texts: seq<string>): nat {
    if texts == [] then 0 else GroupedTime(log, texts[..|texts| - 1]) + TimeOf(log, texts[|texts| - 1])
  }

  function TotalTime(log: seq<ExecutionInfo>): nat {
    if log == [] then 0 else TotalTime(log[..|log| - 1]) + log[|log| - 1].ExecutionTime()
  }

  lemma {:induction false} OneMoreGrouped(log: seq<ExecutionInfo>, texts: seq<string>)
    requires log != [] && Distinct(texts)
    ensures var before, info := log[..|log| - 1], log[|log| - 1];
            && GroupedCount(log, texts) == GroupedCount(before, texts) + (if CommandText(info) in texts then 1 else 0)
            && GroupedTime(log, texts)
               == GroupedTime(before, texts) + (if CommandText(info) in texts then info.ExecutionTime() else 0)
  {
    if texts != [] {
      OneMoreGrouped(log, texts[..|texts| - 1]);
    }
  }

  /** Every execution is in exactly one group: the counts add up to the size of the
      log and the times to its total time. */
  lemma {:induction false} GroupsPartitionLog(log: seq<ExecutionInfo>)
    ensures GroupedCount(log, Order(log)) == |log|
    ensures GroupedTime(log, Order(log)) == TotalTime(log)
  {
    if log != [] {
      var before, text := log[..|log| - 1], CommandText(log[|log| - 1]);
      GroupsPartitionLog(before);
      OrderDistinct(log);
      OneMoreGrouped(log, Order(log));
      if text !in Order(before) {
        GroupedIffCounted(before, text);
        assert Order(log)[..|Order(before)|] == Order(before);
      }
    }
  }

  // The text tells name and events.

  ghost predicate EndsPart(a: string, delimiter: char) {
    a == "" || a[|a| - 1] == delimiter
  }

  /** The last occurrence of a delimiter fixes what comes before and after it. */
  lemma SplitAtLast(a: string, t: string, b: string, u: string, delimiter: char)
    requires a + t == b + u && delimiter !in t && delimiter !in u
    requires EndsPart(a, delimiter) && EndsPart(b, delimiter)
    ensures a == b && t == u
  {
    var left, right := a + t, b + u;
    assert forall i :: |a| <= i < |left| ==> left[i] == t[i - |a|];
    assert forall i :: |b| <= i < |right| ==> right[i] == u[i - |b|];
    assert a != "" ==> left[|a| - 1] == delimiter;
    assert b != "" ==> right[|b| - 1] == delimiter;
    assert left[..|a|] == a && right[..|b|] == b;
    assert left[|a|..] == t && right[|b|..] == u;
  }

  ghost predicate Plain(text: string) {
    ' ' !in text && '[' !in text && text != ""
  }

  lemma TerminalTextPlain(e: ExecutionEvent)
    requires e == Success || e == Failure || e == Timeout
    ensures Plain(EventText(e))
  {
  }

  lemma RefusalTextPlain(e: ExecutionEvent)
    requires e == ShortCircuited || e == SemaphoreRejected || e == ResponseFromCache
    ensures Plain(EventText(e))
  {
  }

  lemma EventTextPlain(e: ExecutionEvent)
    ensures Plain(EventText(e))
  {
    match e
    case FallbackSuccess =>
    case FallbackFailure =>
    case ShortCircuited => RefusalTextPlain(e);
    case SemaphoreRejected => RefusalTextPlain(e);
    case ResponseFromCache => RefusalTextPlain(e);
    case _ => TerminalTextPlain(e);
  }

  lemma EventTextsDiffer(e: ExecutionEvent, e': ExecutionEvent)
    ensures EventText(e) == EventText(e') ==> e == e'
  {
  }

  lemma PlainAppended(before: string, text: string)
    requires '[' !in before && '[' !in text && text != ""
    ensures '[' !in before + ", " + text && before + ", " + text != ""
    ensures '[' !in "" + text && "" + text != ""
  {
  }

  lemma {:induction false} JoinedPlain(events: seq<ExecutionEvent>)
    ensures '[' !in Joined(Texts(events))
    ensures events != [] ==> Joined(Texts(events)) != ""
  {
    if events != [] {
      hide EventText;
      var before, last := events[..|events| - 1], events[|events| - 1];
      JoinedPlain(before);
      EventTextPlain(last);
      assert Texts(events)[..|events| - 1] == Texts(before);
      PlainAppended(Joined(Texts(before)), EventText(last));
    }
  }

  /** The lead of a list of events tells the list without its last event. */
  lemma LeadTells(events: seq<ExecutionEvent>, events': seq<ExecutionEvent>)
    requires events != [] && events' != [] && Lead(Texts(events)) == Lead(Texts(events'))
    ensures Joined(Texts(events[..|events| - 1])) == Joined(Texts(events'[..|events'| - 1]))
  {
    var a, b := Joined(Texts(events[..|events| - 1])), Joined(Texts(events'[..|events'| - 1]));
    LeadIs(events);
    LeadIs(events');
    assert (a + ", ")[..|a|] == a && (b + ", ")[..|b|] == b;
  }

  lemma LeadIs(events: seq<ExecutionEvent>)
    requires events != []
    ensures Lead(Texts(events)) == if |events| == 1 then "" else Joined(Texts(events[..|events| - 1])) + ", "
    ensures |events| == 1 ==> Joined(Texts(events[..|events| - 1])) == ""
    ensures EndsPart(Lead(Texts(events)), ' ')
  {
    assert Texts(events)[..|events| - 1] == Texts(events[..|events| - 1]);
  }

  lemma {:induction false} EventsFromText(events: seq<ExecutionEvent>, events': seq<ExecutionEvent>)
    requires Joined(Texts(events)) == Joined(Texts(events'))
    ensures events == events'
  {
    hide EventText, Lead;
    JoinedPlain(events);
    JoinedPlain(events');
    if events != [] && events' != [] {
      var before, e := events[..|events| - 1], events[|events| - 1];
      var before', e' := events'[..|events'| - 1], events'[|events'| - 1];
      EventTextPlain(e);
      EventTextPlain(e');
      LeadIs(events);
      LeadIs(events');
      SplitAtLast(Lead(Texts(events)), EventText(e), Lead(Texts(events')), EventText(e'), ' ');
      EventTextsDiffer(e, e');
      LeadTells(events, events');
      EventsFromText(before, before');
      assert events == before + [e] && events' == before' + [e'];
    }
  }

  /** Grouping by text is grouping by name and events, whatever the names: no event
      list contains an opening bracket, so the last one ends the name. */
  lemma TextTellsCommand(info: ExecutionInfo, info': ExecutionInfo)
    ensures CommandText(info) == CommandText(info')
       <==> info.commandName == info'.commandName && info.events == info'.events
  {
    if CommandText(info) == CommandText(info') {
      hide Joined, Texts, EventText;
      JoinedPlain(info.events);
      JoinedPlain(info'.events);
      BracketedTell(info.commandName, Joined(Texts(info.events)), info'.commandName, Joined(Texts(info'.events)));
      EventsFromText(info.events, info'.events);
    }
  }

  /** A name and a text without an opening bracket, put in brackets. */
  lemma BracketedTell(name: string, text: string, name': string, text': string)
    requires name + "[" + text + "]" == name' + "[" + text' + "]" && '[' !in text && '[' !in text'
    ensures name == name' && text == text'
  {
    var a, a', t, t' := name + "[", name' + "[", text + "]", text' + "]";
    assert a + t == name + "[" + text + "]" && a' + t' == name' + "[" + text' + "]";
    SplitAtLast(a, t, a', t', '[');
    assert a[..|a| - 1] == name && a'[..|a'| - 1] == name';
    assert t[..|t| - 1] == text && t'[..|t'| - 1] == text';
  }
}
