/** Texts of some request logs. */
module RequestLogExamples {
  import opened RollingNumber
  import opened RequestLog

  /** How the text names each event. */
  lemma EventsAreNamed()
    ensures EventText(Success) == "SUCCESS" && EventText(Failure) == "FAILURE" && EventText(Timeout) == "TIMEOUT"
    ensures EventText(ShortCircuited) == "SHORT_CIRCUITED" && EventText(SemaphoreRejected) == "SEMAPHORE_REJECTED"
    ensures EventText(ResponseFromCache) == "RESPONSE_FROM_CACHE"
    ensures EventText(FallbackSuccess) == "FALLBACK_SUCCESS" && EventText(FallbackFailure) == "FALLBACK_FAILURE"
  {
  }

  lemma JoinedNone()
    ensures Joined([]) == ""
  {
  }

  lemma JoinedOne(a: string)
    ensures Joined([a]) == a
  {
    assert Joined([a]) == Lead([a]) + a;
  }

  lemma JoinedTwo(a: string, b: string)
    ensures Joined([a, b]) == a + ", " + b
  {
    assert [a, b][..1] == [a];
    JoinedOne(a);
  }

  lemma JoinedThree(a: string, b: string, c: string)
    ensures Joined([a, b, c]) == a + ", " + b + ", " + c
  {
    assert [a, b, c][..2] == [a, b];
    JoinedTwo(a, b);
  }

  /** The text of a command with three events. */
  lemma SeveralEvents()
    ensures CommandText(ExecutionInfo("Foo", 0, [Timeout, FallbackSuccess, ResponseFromCache]))
         == "Foo" + "[" + ("TIMEOUT" + ", " + "FALLBACK_SUCCESS" + ", " + "RESPONSE_FROM_CACHE") + "]"
  {
    hide Joined;
    var events := [Timeout, FallbackSuccess, ResponseFromCache];
    assert Texts(events) == ["TIMEOUT", "FALLBACK_SUCCESS", "RESPONSE_FROM_CACHE"];
    JoinedThree("TIMEOUT", "FALLBACK_SUCCESS", "RESPONSE_FROM_CACHE");
  }

  /** The text of a log with one execution. */
  lemma OneExecution(info: ExecutionInfo)
    ensures LogText([info]) == CommandText(info) + "[" + Decimal(info.ExecutionTime() / 1_000_000) + "ms]"
  {
    var text, time := CommandText(info), info.ExecutionTime();
    hide CommandText;
    assert [info][..0] == [];
    assert Order([]) == [] && Order([info]) == [text];
    assert CountOf([], text) == 0 && CountOf([info], text) == 1;
    assert TimeOf([], text) == 0 && TimeOf([info], text) == time;
    assert GroupTexts([info], [text]) == [GroupText(text, 1, time)];
    JoinedOne(GroupText(text, 1, time));
    assert GroupText(text, 1, time) + "" == GroupText(text, 1, time);
  }

  /** Three executions of a command that end alike, with a total of 21 milliseconds and some. */
  lemma ThreeAlike()
    ensures GroupText("Foo[SUCCESS]", 3, 21_999_999) == "Foo[SUCCESS][21ms]x3"
  {
    assert 21_999_999 / MILLISECOND == 21;
    assert Decimal(21) == Decimal(2) + ['1'];
    assert Decimal(2) == "2" && Decimal(3) == "3";
  }

  /** Groups are separated by a comma and a space. */
  lemma TwoGroups(log: seq<ExecutionInfo>, a: string, b: string)
    requires Order(log) == [a, b]
    ensures LogText(log) == GroupText(a, CountOf(log, a), TimeOf(log, a)) + ", "
                            + GroupText(b, CountOf(log, b), TimeOf(log, b))
  {
    hide CountOf, TimeOf, GroupText, Order;
    var first, second := GroupText(a, CountOf(log, a), TimeOf(log, a)), GroupText(b, CountOf(log, b), TimeOf(log, b));
    assert GroupTexts(log, [a, b]) == [first, second];
    JoinedTwo(first, second);
  }

  lemma NoExecution()
    ensures LogText([]) == ""
  {
    assert Order([]) == [];
    assert GroupTexts([], []) == [];
    JoinedNone();
  }
}
