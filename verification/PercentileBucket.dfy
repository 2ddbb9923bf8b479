/** One bucket of the rolling percentile: a ring of the latest values added. */
module PercentileBucket {

  datatype Ring = Ring(vals: seq<int>, position: int, size: nat) {
    ghost predicate Valid() {
      && |vals| <= size
      && (|vals| < size ==> position == |vals|)
      && (0 < size ==> 0 <= position < size)
    }
  }

  function EmptyRing(size: nat): (r: Ring)
    ensures r.Valid()
  {
    Ring([], 0, size)
  }

  function Added(r: Ring, v: int): (r': Ring)
    requires r.Valid() && 0 < r.size
    ensures r'.Valid() && r'.size == r.size
  {
    var vals := if |r.vals| < r.size then r.vals + [v] else r.vals[r.position := v];
    Ring(vals, (r.position + 1) % r.size, r.size)
  }

  /** The ring after these additions to an empty one. */
  function Filled(size: nat, added: seq<int>): (r: Ring)
    requires 0 < size
    ensures r.Valid() && r.size == size
  {
    if added == [] then EmptyRing(size)
    else Added(Filled(size, added[..|added| - 1]), added[|added| - 1])
  }

  function Latest(added: seq<int>, size: nat): seq<int> {
    if |added| <= size then added else added[|added| - size..]
  }

  /** The values of a full ring, the oldest first. */
  function Unrolled(r: Ring): seq<int>
    requires r.Valid() && 0 < r.size == |r.vals|
  {
    r.vals[r.position..] + r.vals[..r.position]
  }

  lemma NextPosition(position: int, size: nat)
    requires 0 <= position < size
    ensures (position + 1) % size == if position + 1 < size then position + 1 else 0
  {
  }

  lemma FullRingTurns(r: Ring, v: int)
    requires r.Valid() && 0 < r.size == |r.vals|
    ensures Unrolled(Added(r, v)) == Unrolled(r)[1..] + [v]
  {
    var p, vals := r.position, r.vals;
    NextPosition(p, r.size);
    assert Added(r, v).vals == vals[p := v];
    if p + 1 < r.size {
      TurnedWithin(vals, p, v);
    } else {
      assert vals[p := v] == vals[..p] + [v];
      assert vals[p..] == [vals[p]];
    }
  }

  lemma TurnedWithin(vals: seq<int>, p: nat, v: int)
    requires p + 1 < |vals|
    ensures vals[p := v][p + 1..] + vals[p := v][..p + 1] == (vals[p..] + vals[..p])[1..] + [v]
  {
    assert vals[p := v][p + 1..] == vals[p + 1..];
    assert vals[p := v][..p + 1] == vals[..p] + [v];
    assert vals[p..][1..] == vals[p + 1..];
  }

  /** A ring holds exactly the latest values: in the order of their addition until
      it is full, and from the position on, going round, once it is. */
  ghost predicate Holds(r: Ring, added: seq<int>) {
    && r.Valid() && 0 < r.size
    && (|added| < r.size ==> r.vals == added)
    && (r.size <= |added| ==> |r.vals| == r.size && Unrolled(r) == Latest(added, r.size))
  }

  lemma LastPlaceTaken(r: Ring, added: seq<int>, v: int)
    requires Holds(r, added) && |added| + 1 == r.size
    ensures Holds(Added(r, v), added + [v])
  {
    var r' := Added(r, v);
    assert r'.position == 0 && r'.vals == added + [v];
    assert r'.vals[0..] + r'.vals[..0] == r'.vals;
  }

  lemma OldestReplaced(r: Ring, added: seq<int>, v: int)
    requires Holds(r, added) && r.size <= |added|
    ensures Holds(Added(r, v), added + [v])
  {
    hide Unrolled;
    FullRingTurns(r, v);
    assert Latest(added, r.size)[1..] + [v] == Latest(added + [v], r.size);
  }

  lemma AdditionHeld(r: Ring, added: seq<int>, v: int)
    requires Holds(r, added)
    ensures Holds(Added(r, v), added + [v])
  {
    if |added| + 1 < r.size {
      hide Unrolled;
      var r' := Added(r, v);
      assert r'.vals == added + [v];
    } else {
      hide Holds;
      if |added| + 1 == r.size {
        LastPlaceTaken(r, added, v);
      } else {
        OldestReplaced(r, added, v);
      }
    }
  }

  lemma {:induction false} RingKeepsLatest(size: nat, added: seq<int>)
    requires 0 < size
    ensures Holds(Filled(size, added), added)
  {
    hide Holds, Added;
    if added == [] {
      EmptyRingHeld(size);
    } else {
      RingKeepsLatest(size, added[..|added| - 1]);
      AdditionHeld(Filled(size, added[..|added| - 1]), added[..|added| - 1], added[|added| - 1]);
      assert added == added[..|added| - 1] + [added[|added| - 1]];
    }
  }

  lemma EmptyRingHeld(size: nat)
    requires 0 < size
    ensures Holds(EmptyRing(size), [])
  {
  }

  /** As a collection, a ring is its latest values. */
  lemma RingIsLatest(size: nat, added: seq<int>)
    requires 0 < size
    ensures multiset(Filled(size, added).vals) == multiset(Latest(added, size))
  {
    RingKeepsLatest(size, added);
    var r := Filled(size, added);
    hide Filled;
    if size <= |added| {
      TurnedRound(r.vals, r.position);
    }
  }

  lemma TurnedRound(s: seq<int>, i: int)
    requires 0 <= i <= |s|
    ensures multiset(s[i..] + s[..i]) == multiset(s)
  {
    assert s == s[..i] + s[i..];
  }

  /** The bucket itself. A bucket without a slice yet has an array of length 0. */
  class PercentileBucket {
    var vals: array<int>
    var count: nat
    var currentPosition: int

    ghost predicate Valid()
      reads this
    {
      count <= vals.Length && (0 < vals.Length ==> 0 <= currentPosition < vals.Length)
      && (count < vals.Length ==> currentPosition == count)
    }

    ghost function Value(): (r: Ring)
      requires Valid()
      reads this, vals
      ensures r.Valid()
    {
      Ring(vals[..count], currentPosition, vals.Length)
    }

    constructor ()
      ensures Valid() && Value() == EmptyRing(0) && fresh(vals)
    {
      vals := new int[0];
      count, currentPosition := 0, 0;
    }

    method Add(v: int)
      requires Valid() && 0 < vals.Length
      modifies this, vals
      ensures Valid() && vals == old(vals)
      ensures Value() == Added(old(Value()), v)
    {
      NextPosition(currentPosition, vals.Length);
      ghost var before := vals[..count];
      if count < vals.Length {
        vals[count] := v;
        count := count + 1;
        assert vals[..count] == before + [v];
      } else {
        vals[currentPosition] := v;
        assert vals[..count] == before[currentPosition := v];
      }
      currentPosition := (currentPosition + 1) % vals.Length;
    }

    /** A slice of another length is replaced; otherwise it is emptied in place. */
    method Reset(size: nat)
      requires Valid()
      modifies this
      ensures Valid() && (vals == old(vals) || fresh(vals))
      ensures Value() == EmptyRing(if old(count) == size then old(vals.Length) else size)
    {
      if count != size {
        vals := new int[size];
        count := 0;
      } else {
        count := 0;
      }
      currentPosition := 0;
    }
  }
}
