/** Circular buffers, and facts about remainders and sums. */
module Numbers {

  lemma NoMultipleBetween(n: int, d: int)
    requires 0 < n
    ensures d >= 1 ==> n * d >= n
    ensures d <= -1 ==> n * d <= -n
  {
  }

  lemma MulMonotone(x: int, y: int, k: int)
    requires x <= y && 0 <= k
    ensures x * k <= y * k
  {
  }

  lemma MulSplit(x: int, y: int, z: int)
    ensures x * (y + z) == x * y + x * z
  {
  }

  lemma MulStep(x: int, k: int)
    ensures (x + 1) * k == x * k + k
  {
  }

  lemma OnceRound(x: int, n: nat)
    requires 0 < n
    ensures (x + n) % n == x % n
  {
    DivModUnique(x + n, n, x / n + 1, x % n);
  }

  lemma ModDistinct(x: int, y: int, n: int)
    requires 0 < n && x < y < x + n
    ensures x % n != y % n
  {
    var d := y / n - x / n;
    assert y - x == n * d + (y % n - x % n);
    NoMultipleBetween(n, d);
  }

  lemma ModAddLeft(x: int, y: int, n: int)
    requires 0 < n
    ensures (x % n + y) % n == (x + y) % n
  {
    var q, r := x / n, (x + y) % n;
    assert x % n + y == (x + y) - n * q;
    assert x % n + y == n * ((x + y) / n - q) + r;
    DivModUnique(x % n + y, n, (x + y) / n - q, r);
  }

  lemma DivModUnique(x: int, n: int, q: int, r: int)
    requires 0 < n && x == n * q + r && 0 <= r < n
    ensures x / n == q && x % n == r
  {
    var d := x / n - q;
    assert n * d == r - x % n;
    NoMultipleBetween(n, d);
  }

  function Sum(s: seq<int>): int {
    if s == [] then 0 else Sum(s[..|s| - 1]) + s[|s| - 1]
  }

  lemma {:induction false} SumUpdate(s: seq<int>, i: nat, v: int)
    requires i < |s|
    ensures Sum(s[i := v]) == Sum(s) - s[i] + v
  {
    var last := |s| - 1;
    if i == last {
      assert s[i := v][..last] == s[..last];
    } else {
      assert s[i := v][..last] == s[..last][i := v];
      SumUpdate(s[..last], i, v);
    }
  }

  lemma {:induction false} SumZeros(n: nat)
    ensures Sum(seq(n, _ => 0)) == 0
  {
    if n > 0 {
      var zeros := seq(n, _ => 0);
      assert zeros[..n - 1] == seq(n - 1, _ => 0);
      SumZeros(n - 1);
    }
  }

  lemma {:induction false} SumMonotone(s: seq<int>, t: seq<int>)
    requires |s| == |t| && forall i :: 0 <= i < |s| ==> s[i] <= t[i]
    ensures Sum(s) <= Sum(t)
  {
    if s != [] {
      SumMonotone(s[..|s| - 1], t[..|t| - 1]);
    }
  }

  /** The buffer once the `count` entries after position `current` have been emptied, going round. */
  function Cleared<T>(buffer: seq<T>, current: int, count: int, empty: T): (cleared: seq<T>)
    requires 0 < |buffer|
    ensures |cleared| == |buffer|
    ensures forall i :: 0 <= i < |buffer| ==> cleared[i] == buffer[i] || cleared[i] == empty
    decreases count
  {
    if count <= 0 then buffer
    else Cleared(buffer, current, count - 1, empty)[(current + count) % |buffer| := empty]
  }

  lemma OneMoreCleared<T>(buffer: seq<T>, current: int, count: nat, empty: T)
    requires 0 < |buffer| && 0 < count
    ensures var before := Cleared(buffer, current, count - 1, empty);
            Cleared(buffer, current, count, empty) == before[(current + count) % |buffer| := empty]
  {
  }

  lemma NoneCleared<T>(buffer: seq<T>, current: int, empty: T)
    requires 0 < |buffer|
    ensures Cleared(buffer, current, 0, empty) == buffer
  {
  }

  /** Going round at most once, exactly the first `count` entries after `current` are emptied. */
  lemma {:induction false} ClearedAt<T>(buffer: seq<T>, current: int, count: nat, empty: T, j: nat)
    requires count <= |buffer| && 1 <= j <= |buffer|
    ensures Cleared(buffer, current, count, empty)[(current + j) % |buffer|]
         == if j <= count then empty else buffer[(current + j) % |buffer|]
  {
    if count > 0 {
      ClearedAt(buffer, current, count - 1, empty, j);
      if j < count {
        ModDistinct(current + j, current + count, |buffer|);
      } else if count < j {
        ModDistinct(current + count, current + j, |buffer|);
      }
    }
  }
}
