/** The text of a group in a request log tells its count and its time in milliseconds. */
module RequestLogTimes {
  import opened RollingNumber
  import opened RequestLog

  predicate IsDigit(c: char) {
    '0' <= c <= '9'
  }

  ghost predicate Digits(s: string) {
    s != "" && forall i :: 0 <= i < |s| ==> IsDigit(s[i])
  }

  function Parsed(s: string): int
    requires Digits(s)
    decreases |s|
  {
    var last := s[|s| - 1] as int - '0' as int;
    if |s| == 1 then last
    else
      assert forall i :: 0 <= i < |s| - 1 ==> s[..|s| - 1][i] == s[i];
      Parsed(s[..|s| - 1]) * 10 + last
  }

  lemma {:induction false} DecimalParsed(n: nat)
    ensures Digits(Decimal(n)) && Parsed(Decimal(n)) == n
  {
    if n >= 10 {
      DecimalParsed(n / 10);
      assert Decimal(n)[..|Decimal(n)| - 1] == Decimal(n / 10);
    }
  }

  /** What comes before the first character that is not a digit. */
  lemma SplitAtDigits(a: string, t: string, b: string, u: string)
    requires a + t == b + u && Digits(a) && Digits(b)
    requires (t == "" || !IsDigit(t[0])) && (u == "" || !IsDigit(u[0]))
    ensures a == b && t == u
  {
    var left, right := a + t, b + u;
    assert t != "" ==> left[|a|] == t[0];
    assert u != "" ==> right[|b|] == u[0];
    assert forall i :: 0 <= i < |a| ==> left[i] == a[i];
    assert forall i :: 0 <= i < |b| ==> right[i] == b[i];
    assert |a| == |b|;
    assert left[..|a|] == a && right[..|b|] == b && left[|a|..] == t && right[|b|..] == u;
  }

  function Multiplier(count: nat): string {
    if count > 1 then "x" + Decimal(count) else ""
  }

  lemma MultiplierTells(count: nat, count': nat)
    requires Multiplier(count) == Multiplier(count')
    ensures count == count' || (count <= 1 && count' <= 1)
  {
    if count > 1 {
      assert ("x" + Decimal(count))[1..] == Decimal(count);
      assert count' > 1;
      assert ("x" + Decimal(count'))[1..] == Decimal(count');
      DecimalParsed(count);
      DecimalParsed(count');
    }
  }

  lemma Regrouped(a: string, b: string, c: string, d: string, e: string)
    ensures a + b + c + d + e == (a + b) + (c + (d + e))
  {
  }

  lemma GroupTextIs(text: string, count: nat, time: nat)
    ensures GroupText(text, count, time) == (text + "[") + (Decimal(time / MILLISECOND) + ("ms]" + Multiplier(count)))
  {
    hide Decimal;
    Regrouped(text, "[", Decimal(time / MILLISECOND), "ms]", Multiplier(count));
  }

  /** The milliseconds in full, and the count unless it is one. */
  lemma GroupTextTells(text: string, count: nat, time: nat, count': nat, time': nat)
    requires GroupText(text, count, time) == GroupText(text, count', time') && 1 <= count && 1 <= count'
    ensures count == count' && time / MILLISECOND == time' / MILLISECOND
  {
    hide Decimal, Digits, Multiplier, GroupText;
    var ms, ms' := Decimal(time / MILLISECOND), Decimal(time' / MILLISECOND);
    var rest, rest' := "ms]" + Multiplier(count), "ms]" + Multiplier(count');
    DecimalParsed(time / MILLISECOND);
    DecimalParsed(time' / MILLISECOND);
    GroupTextIs(text, count, time);
    GroupTextIs(text, count', time');
    SameAfterPrefix(text + "[", ms + rest, ms' + rest');
    SplitAtDigits(ms, rest, ms', rest');
    SameAfterPrefix("ms]", Multiplier(count), Multiplier(count'));
    MultiplierTells(count, count');
  }

  lemma SameAfterPrefix(p: string, s: string, t: string)
    requires p + s == p + t
    ensures s == t
  {
    assert (p + s)[|p|..] == s && (p + t)[|p|..] == t;
  }
}
