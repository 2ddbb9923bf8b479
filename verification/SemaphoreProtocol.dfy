/**
 Any number of runs taking and returning permits in any order, while the maximum
 of a group may change from one run to the next.
 */
module SemaphoreProtocol {
  import opened Semaphore

  /** A run has no semaphore yet, has got one from the factory, or holds a permit of it. */
  datatype Run = Idle | Got(group: string, sem: nat) | Holding(group: string, sem: nat)

  /** All semaphores ever made, the one each group has now, the runs, and whether a release has panicked. */
  datatype State = State(sems: seq<Permits>, current: map<string, nat>, runs: seq<Run>, panicked: bool)

  datatype Action =
    | Get(run: nat, group: string, maximum: nat)
    | TryAcquire(run: nat)
    /** The deferred release, after the command has returned or panicked. */
    | Release(run: nat)

  function Start(runs: nat): State {
    State([], map[], seq(runs, _ => Idle), false)
  }

  function Next(s: State, a: Action): State {
    match a
    case Get(r, group, maximum) =>
      if !(r < |s.runs| && s.runs[r].Idle?) then s
      else if group in s.current && s.current[group] < |s.sems| && s.sems[s.current[group]].capacity == maximum then
        s.(runs := s.runs[r := Got(group, s.current[group])])
      else
        s.(sems := s.sems + [Permits(maximum, 0)],
           current := s.current[group := |s.sems|],
           runs := s.runs[r := Got(group, |s.sems|)])
    case TryAcquire(r) =>
      if !(r < |s.runs| && s.runs[r].Got? && s.runs[r].sem < |s.sems|) then s
      else
        var group, i := s.runs[r].group, s.runs[r].sem;
        var sem := s.sems[i];
        if sem.held < sem.capacity then
          s.(sems := s.sems[i := sem.(held := sem.held + 1)], runs := s.runs[r := Holding(group, i)])
        else s.(runs := s.runs[r := Idle])
    case Release(r) =>
      if !(r < |s.runs| && s.runs[r].Holding? && s.runs[r].sem < |s.sems|) then s
      else
        var i := s.runs[r].sem;
        var sem := s.sems[i];
        if sem.held > 0 then
          s.(sems := s.sems[i := sem.(held := sem.held - 1)], runs := s.runs[r := Idle])
        else s.(panicked := true, runs := s.runs[r := Idle])
  }

  function After(s: State, actions: seq<Action>): State {
    if actions == [] then s else Next(After(s, actions[..|actions| - 1]), actions[|actions| - 1])
  }

  /** How many runs hold a permit of a semaphore. */
  function Holders(runs: seq<Run>, i: nat): nat {
    if runs == [] then 0
    else Holders(runs[..|runs| - 1], i) + if Holds(runs[|runs| - 1], i) then 1 else 0
  }

  predicate Holds(run: Run, i: nat) {
    run.Holding? && run.sem == i
  }

  /** How many runs of a group hold a permit. */
  function Active(runs: seq<Run>, group: string): nat {
    if runs == [] then 0
    else Active(runs[..|runs| - 1], group)
         + if runs[|runs| - 1].Holding? && runs[|runs| - 1].group == group then 1 else 0
  }

  ghost predicate Inv(s: State) {
    && !s.panicked
    && (forall r :: 0 <= r < |s.runs| && !s.runs[r].Idle? ==> s.runs[r].sem < |s.sems|)
    && (forall g :: g in s.current ==> s.current[g] < |s.sems|)
    && forall i :: 0 <= i < |s.sems| ==> s.sems[i].held == Holders(s.runs, i) <= s.sems[i].capacity
  }

  lemma {:induction false} HoldersUpdate(runs: seq<Run>, r: nat, run: Run, i: nat)
    requires r < |runs|
    ensures Holders(runs[r := run], i)
         == Holders(runs, i) - (if Holds(runs[r], i) then 1 else 0) + (if Holds(run, i) then 1 else 0)
  {
    var last := |runs| - 1;
    if r == last {
      assert runs[r := run][..last] == runs[..last];
    } else {
      assert runs[r := run][..last] == runs[..last][r := run];
      HoldersUpdate(runs[..last], r, run, i);
    }
  }

  lemma {:induction false} NoHolders(runs: seq<Run>, i: nat)
    requires forall r :: 0 <= r < |runs| ==> !Holds(runs[r], i)
    ensures Holders(runs, i) == 0
  {
    if runs != [] {
      assert forall r :: 0 <= r < |runs| - 1 ==> runs[..|runs| - 1][r] == runs[r];
      NoHolders(runs[..|runs| - 1], i);
    }
  }

  lemma {:induction false} HolderCounted(runs: seq<Run>, r: nat, i: nat)
    requires r < |runs| && Holds(runs[r], i)
    ensures Holders(runs, i) > 0
  {
    if r < |runs| - 1 {
      HolderCounted(runs[..|runs| - 1], r, i);
    }
  }

  lemma NextInv(s: State, a: Action)
    requires Inv(s)
    ensures Inv(Next(s, a))
  {
    var s' := Next(s, a);
    if a.run < |s.runs| && s' != s {
      forall i | 0 <= i < |s'.sems| ensures s'.sems[i].held == Holders(s'.runs, i) <= s'.sems[i].capacity {
        HoldersUpdate(s.runs, a.run, s'.runs[a.run], i);
        if i == |s.sems| {
          NoHolders(s.runs, i);
        }
        if a.Release? && Holds(s.runs[a.run], i) {
          HolderCounted(s.runs, a.run, i);
        }
      }
      if a.Release? {
        HolderCounted(s.runs, a.run, s.runs[a.run].sem);
      }
    }
  }

  /** In every interleaving, with any changes of the maxima: each semaphore has exactly as
      many permits out as runs hold, never more than its capacity, and no release panics. */
  lemma {:induction false} PermitsBalanced(runs: nat, actions: seq<Action>)
    ensures Inv(After(Start(runs), actions))
  {
    if actions != [] {
      PermitsBalanced(runs, actions[..|actions| - 1]);
      NextInv(After(Start(runs), actions[..|actions| - 1]), actions[|actions| - 1]);
    }
  }

  // A group whose maximum does not change.

  ghost predicate Constant(actions: seq<Action>, group: string, maximum: nat) {
    forall i :: 0 <= i < |actions| && actions[i].Get? && actions[i].group == group ==> actions[i].maximum == maximum
  }

  /** All runs of the group use the one semaphore the group has. */
  ghost predicate OneSemaphore(s: State, group: string, maximum: nat) {
    && (group in s.current ==> s.current[group] < |s.sems| && s.sems[s.current[group]].capacity == maximum)
    && forall r :: 0 <= r < |s.runs| && !s.runs[r].Idle? && s.runs[r].group == group ==>
         group in s.current && s.runs[r].sem == s.current[group]
  }

  lemma {:induction false} GroupUsesOneSemaphore(runs: nat, actions: seq<Action>, group: string, maximum: nat)
    requires Constant(actions, group, maximum)
    ensures OneSemaphore(After(Start(runs), actions), group, maximum)
  {
    if actions != [] {
      GroupUsesOneSemaphore(runs, actions[..|actions| - 1], group, maximum);
    }
  }

  lemma {:induction false} ActiveAreHolders(runs: seq<Run>, group: string, i: nat)
    requires forall r :: 0 <= r < |runs| && runs[r].Holding? && runs[r].group == group ==> runs[r].sem == i
    ensures Active(runs, group) <= Holders(runs, i)
  {
    if runs != [] {
      assert forall r :: 0 <= r < |runs| - 1 ==> runs[..|runs| - 1][r] == runs[r];
      ActiveAreHolders(runs[..|runs| - 1], group, i);
    }
  }

  lemma {:induction false} NoneActive(runs: seq<Run>, group: string)
    requires forall r :: 0 <= r < |runs| ==> !(runs[r].Holding? && runs[r].group == group)
    ensures Active(runs, group) == 0
  {
    if runs != [] {
      assert forall r :: 0 <= r < |runs| - 1 ==> runs[..|runs| - 1][r] == runs[r];
      NoneActive(runs[..|runs| - 1], group);
    }
  }

  /** With a constant maximum a group never has more concurrent runs than that. */
  lemma ConstantMaximumIsRespected(runs: nat, actions: seq<Action>, group: string, maximum: nat)
    requires Constant(actions, group, maximum)
    ensures Active(After(Start(runs), actions).runs, group) <= maximum
  {
    var s := After(Start(runs), actions);
    PermitsBalanced(runs, actions);
    GroupUsesOneSemaphore(runs, actions, group, maximum);
    if group in s.current {
      ActiveAreHolders(s.runs, group, s.current[group]);
    } else {
      NoneActive(s.runs, group);
    }
  }

  // What the factory shows of the protocol.

  /** The value of the factory: the semaphore that each group has now. */
  function FactoryValue(s: State): map<string, Permits>
    requires forall g :: g in s.current ==> s.current[g] < |s.sems|
  {
    map g | g in s.current :: s.sems[s.current[g]]
  }

  /** No two groups share a semaphore, nor does a run use the one of another group. */
  ghost predicate GroupsApart(s: State) {
    && (forall g, h :: g in s.current && h in s.current && g != h ==> s.current[g] != s.current[h])
    && (forall g, r :: g in s.current && 0 <= r < |s.runs| && !s.runs[r].Idle? && s.runs[r].sem == s.current[g] ==>
          s.runs[r].group == g)
  }

  lemma NextApart(s: State, a: Action)
    requires Inv(s) && GroupsApart(s)
    ensures GroupsApart(Next(s, a))
  {
    hide Holders;
    match a
    case Get(_, _, _) =>
    case TryAcquire(_) =>
    case Release(_) =>
  }

  lemma {:induction false} GroupsStayApart(runs: nat, actions: seq<Action>)
    ensures GroupsApart(After(Start(runs), actions))
  {
    hide Next, GroupsApart, Inv;
    if actions == [] {
      StartApart(runs);
    } else {
      GroupsStayApart(runs, actions[..|actions| - 1]);
      PermitsBalanced(runs, actions[..|actions| - 1]);
      NextApart(After(Start(runs), actions[..|actions| - 1]), actions[|actions| - 1]);
    }
  }

  lemma StartApart(runs: nat)
    ensures GroupsApart(Start(runs))
  {
  }

  /** The value of the factory after a change of one semaphore. */
  function FactoryUpdated(s: State, group: string, sem: nat, p: Permits): map<string, Permits>
    requires forall g :: g in s.current ==> s.current[g] < |s.sems|
  {
    if group in s.current && s.current[group] == sem then FactoryValue(s)[group := p] else FactoryValue(s)
  }

  /** In every such state, which every run leads to, `Get` and `TryAcquire` change the current
      semaphores as the factory's methods do. */
  lemma GetFollowsFactory(s: State, r: nat, group: string, maximum: nat)
    requires Inv(s) && r < |s.runs| && s.runs[r].Idle?
    ensures var t := Next(s, Get(r, group, maximum));
            && Inv(t) && FactoryValue(t) == FactoryValue(s)[group := GroupPermits(FactoryValue(s), group, maximum)]
            && t.runs[r].Got? && t.runs[r].sem == t.current[group]
  {
    NextInv(s, Get(r, group, maximum));
  }

  lemma TryAcquireFollowsFactory(s: State, r: nat)
    requires Inv(s) && GroupsApart(s) && r < |s.runs| && s.runs[r].Got?
    ensures var t, group, sem := Next(s, TryAcquire(r)), s.runs[r].group, s.runs[r].sem;
            && Inv(t) && (t.runs[r].Holding? <==> s.sems[sem].held < s.sems[sem].capacity)
            && FactoryValue(t) == FactoryUpdated(s, group, sem, t.sems[sem])
  {
    NextInv(s, TryAcquire(r));
  }

  /** `Release` finds a permit to give back, and gives it back to the semaphore it was taken from,
      which the factory may no longer know. */
  lemma ReleaseFollowsFactory(s: State, r: nat)
    requires Inv(s) && GroupsApart(s) && r < |s.runs| && s.runs[r].Holding?
    ensures var t, group, sem := Next(s, Release(r)), s.runs[r].group, s.runs[r].sem;
            && Inv(t) && 0 < s.sems[sem].held && !t.panicked
            && t.sems == s.sems[sem := Permits(s.sems[sem].capacity, s.sems[sem].held - 1)]
            && FactoryValue(t) == FactoryUpdated(s, group, sem, t.sems[sem])
  {
    NextInv(s, Release(r));
    HolderCounted(s.runs, r, s.runs[r].sem);
  }

  // A group whose maximum changes.

  /** All maxima the group is ever asked for are among these. */
  ghost predicate MaximaAmong(actions: seq<Action>, group: string, maxima: set<nat>) {
    forall i :: 0 <= i < |actions| && actions[i].Get? && actions[i].group == group ==> actions[i].maximum in maxima
  }

  /** No run ever makes the group have more runs than the largest of the maxima. */
  ghost predicate Bounded(group: string, maxima: set<nat>, largest: nat) {
    forall runs, actions :: MaximaAmong(actions, group, maxima) ==>
      Active(After(Start(runs), actions).runs, group) <= largest
  }

  function Filled(runs: nat, group: string, maximum: nat, k: nat): State {
    State([Permits(maximum, k)], map[group := 0], seq(runs, i => if i < k then Holding(group, 0) else Idle), false)
  }

  function Fill(group: string, maximum: nat, k: nat): seq<Action> {
    if k == 0 then [] else Fill(group, maximum, k - 1) + [Get(k - 1, group, maximum), TryAcquire(k - 1)]
  }

  lemma AfterTwo(s: State, actions: seq<Action>, a: Action, b: Action)
    ensures After(s, actions + [a, b]) == Next(Next(After(s, actions), a), b)
  {
    hide Next;
    assert (actions + [a, b])[..|actions| + 1] == actions + [a];
    assert (actions + [a])[..|actions|] == actions;
  }

  lemma FirstFilled(runs: nat, group: string, maximum: nat)
    requires 1 <= maximum && 1 <= runs
    ensures Next(Next(Start(runs), Get(0, group, maximum)), TryAcquire(0)) == Filled(runs, group, maximum, 1)
  {
    var t := Next(Next(Start(runs), Get(0, group, maximum)), TryAcquire(0));
    assert t.runs == Filled(runs, group, maximum, 1).runs;
  }

  lemma OneMoreFilled(runs: nat, group: string, maximum: nat, k: nat)
    requires 1 <= k < maximum && k < runs
    ensures Next(Next(Filled(runs, group, maximum, k), Get(k, group, maximum)), TryAcquire(k))
            == Filled(runs, group, maximum, k + 1)
  {
    var t := Next(Next(Filled(runs, group, maximum, k), Get(k, group, maximum)), TryAcquire(k));
    assert t.runs == Filled(runs, group, maximum, k + 1).runs;
  }

  lemma {:induction false} FillFills(runs: nat, group: string, maximum: nat, k: nat)
    requires 1 <= k <= maximum && k <= runs
    ensures After(Start(runs), Fill(group, maximum, k)) == Filled(runs, group, maximum, k)
  {
    hide Next;
    AfterTwo(Start(runs), Fill(group, maximum, k - 1), Get(k - 1, group, maximum), TryAcquire(k - 1));
    if k == 1 {
      FirstFilled(runs, group, maximum);
    } else {
      FillFills(runs, group, maximum, k - 1);
      OneMoreFilled(runs, group, maximum, k - 1);
    }
  }

  lemma {:induction false} ActiveAtLeast(runs: seq<Run>, group: string, k: nat)
    requires k <= |runs| && forall r :: 0 <= r < k ==> runs[r].Holding? && runs[r].group == group
    ensures Active(runs, group) >= k
  {
    if k < |runs| {
      ActiveAtLeast(runs[..|runs| - 1], group, k);
    } else if k > 0 {
      ActiveAtLeast(runs[..|runs| - 1], group, k - 1);
    }
  }

  /** All permits of the larger maximum are out; then the maximum changes to the smaller one, and back. */
  function Overfill(group: string, larger: nat, smaller: nat): seq<Action> {
    Fill(group, larger, larger)
    + [Get(larger, group, smaller), TryAcquire(larger)]
    + [Get(larger, group, larger), TryAcquire(larger)]
  }

  /** The last run is admitted by a new semaphore, at the latest after the change back. */
  lemma LastAdmitted(group: string, larger: nat, smaller: nat)
    requires smaller < larger
    ensures var s := Filled(larger + 1, group, larger, larger);
            var t := Next(Next(s, Get(larger, group, smaller)), TryAcquire(larger));
            var u := Next(Next(t, Get(larger, group, larger)), TryAcquire(larger));
            |u.runs| == larger + 1 && forall r :: 0 <= r <= larger ==> u.runs[r].Holding? && u.runs[r].group == group
  {
  }

  lemma OverfillExceeds(group: string, larger: nat, smaller: nat)
    requires smaller < larger
    ensures Active(After(Start(larger + 1), Overfill(group, larger, smaller)).runs, group) > larger
  {
    hide Next;
    var s, fill := Start(larger + 1), Fill(group, larger, larger);
    FillFills(larger + 1, group, larger, larger);
    AfterTwo(s, fill, Get(larger, group, smaller), TryAcquire(larger));
    AfterTwo(s, fill + [Get(larger, group, smaller), TryAcquire(larger)], Get(larger, group, larger),
             TryAcquire(larger));
    LastAdmitted(group, larger, smaller);
    ActiveAtLeast(After(s, Overfill(group, larger, smaller)).runs, group, larger + 1);
  }

  lemma {:induction false} FillMaxima(group: string, maximum: nat, k: nat, maxima: set<nat>)
    requires maximum in maxima
    ensures MaximaAmong(Fill(group, maximum, k), group, maxima)
  {
    if k > 0 {
      FillMaxima(group, maximum, k - 1, maxima);
    }
  }

  /** A group never has more runs than the largest maximum it may be asked for just when
      there is no other: after a change, the runs on the old semaphore still hold its permits. */
  lemma BoundedIffMaximumConstant(group: string, maxima: set<nat>, largest: nat)
    requires largest in maxima && forall m :: m in maxima ==> m <= largest
    ensures Bounded(group, maxima, largest) <==> maxima == {largest}
  {
    if maxima == {largest} {
      forall runs, actions | MaximaAmong(actions, group, maxima)
        ensures Active(After(Start(runs), actions).runs, group) <= largest {
        ConstantMaximumIsRespected(runs, actions, group, largest);
      }
    } else {
      var smaller :| smaller in maxima && smaller != largest;
      OverfillExceeds(group, largest, smaller);
      FillMaxima(group, largest, largest, maxima);
      assert MaximaAmong(Overfill(group, largest, smaller), group, maxima);
    }
  }
}
