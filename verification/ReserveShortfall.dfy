/** A table whose reserve(n) leaves no room for n elements below the maximum load. */
module ReserveShortfall {
  import opened SizePolicy
  import opened Pow2Arith
  import opened QuadraticProber
  import opened Groups
  import opened Arrays
  import opened Wrappers
  import opened ArrayLaws
  import opened TableStorage
  import opened TableCores

  /** Elements with different keys that all hash to 0. */
  function Nth(i: nat): Element {
    Element(Key(i, 0), 0)
  }

  /** Two groups; the second has its sentinel and nothing else. */
  ghost predicate TwoGroups(a: Arrays) {
    && a.index == 63 && |a.groups| == 2 && |a.elements| == 29
    && |a.groups[0].meta| == N && |a.groups[1].meta| == N
  }

  /** The first k elements fill the first slots of group 0. */
  ghost predicate Filled(a: Arrays, k: nat) {
    && TwoGroups(a) && k <= N
    && (forall n :: 0 <= n < N ==> a.groups[0].meta[n] == if n < k then 8 else 0)
    && (forall n :: 0 <= n < N ==> a.groups[1].meta[n] == if n < N - 1 then 0 else 1)
    && (forall n: nat :: n < k ==> a.elements[n] == Some(Nth(n)))
  }

  /** One element had to go to group 1; the first j of group 0 have been erased. */
  ghost predicate Spilled(a: Arrays, j: nat) {
    && TwoGroups(a) && 0 in a.groups[0].overflow
    && (forall n :: j <= n < N ==> a.groups[0].meta[n] == 8)
    && (forall n: nat :: j <= n < N ==> a.elements[n] == Some(Nth(n)))
  }

  lemma HomeOfZero()
    ensures Pow2(1) == 2 && Probe(63, 0, 0) == 0 && Probe(63, 0, 1) == 1 && ReducedHash(0) == 8
  {
    var size := Pow2(1);
    assert size == 2;
    assert Position(0, 63) == 0;
    assert ProbeAt(0, 0, size) == 0;
  }

  lemma NewFilled()
    ensures Filled(NewArrays(1), 0) && Capacity(NewArrays(1)) == 29 && InitialMaxLoad(29) == 29
  {
    HomeOfZero();
    assert SizeIndexFor(1) == 63;
  }

  lemma FillNext(a: Arrays, k: nat, b: Arrays)
    requires Filled(a, k) && k < N && EmplacedSomewhere(a, Nth(k), b)
    ensures Filled(b, k + 1)
  {
    var s :| Emplaced(a, Nth(k), b, s);
    HomeOfZero();
    var mask := a.groups[0].MatchAvailable();
    assert k in mask && forall n: nat :: n < k ==> n !in mask;
    assert Lowest(mask) == k;
  }

  lemma SpillLast(a: Arrays, b: Arrays)
    requires Filled(a, N) && EmplacedSomewhere(a, Nth(N), b)
    ensures Spilled(b, 0)
  {
    var s :| Emplaced(a, Nth(N), b, s);
    HomeOfZero();
    var mask := a.groups[0].MatchAvailable();
    assert Lowest(mask) == N;
    var c := a.(groups := a.groups[0 := a.groups[0].MarkOverflow(0)]);
    assert EmplaceFrom(a, Nth(N), 0) == EmplaceFrom(c, Nth(N), 1);
    assert 0 in c.groups[1].MatchAvailable();
    assert Lowest(c.groups[1].MatchAvailable()) == 0;
  }

  lemma EraseNext(a: Arrays, j: nat)
    requires Spilled(a, j) && j < N
    ensures a.groups[0].MaybeCausedOverflow(j)
    ensures Spilled(Erased(a, Slot(0, j)), j + 1)
    ensures WellFormed(a) ==> HoldsKey(a, Slot(0, j), Nth(j).key)
  {
  }

  lemma ReserveNeeds()
    ensures Needed(LoadFor(25), 11) == 29 && 29 / N + 1 <= Pow2(BITS - 1) && RehashCapacity(29, 11) == 29
  {
    HomeOfZero();
    Pow2Monotone(1, BITS - 1);
    assert SizeIndexFor(29) == 63;
  }

  /** The table is new, and keys are told apart by their numbers. */
  ghost predicate Fills(t: TableCore, k: nat)
    reads t, t.arrays.groups, t.arrays.elements
  {
    && t.Holds() && t.size == k && t.ml == 29
    && forall i: nat :: Nth(i).key in t.Map() ==> i < k
  }

  /** Inserts the next element; there is room for it. */
  method FillOne(t: TableCore, k: nat)
    requires Fills(t, k) && k < 29
    modifies t, t.arrays.groups, t.arrays.elements
    ensures t.arrays == old(t.arrays) && Fills(t, k + 1)
    ensures Filled(old(t.Value()), k) && k < N ==> Filled(t.Value(), k + 1)
    ensures Filled(old(t.Value()), k) && k == N ==> Spilled(t.Value(), 0)
  {
    hide Consistent, EmplacedSomewhere, Contents, CanGrow, TableArrays.Value, Filled, Spilled;
    ghost var a := t.Value();
    var inserted := t.Emplace(Nth(k));
    assert inserted;
    if Filled(a, k) && k < N {
      FillNext(a, k, t.Value());
    } else if Filled(a, k) && k == N {
      SpillLast(a, t.Value());
    }
  }

  /** Sixteen keys with one hash overflow their group. */
  method Overflowing() returns (t: TableCore)
    ensures fresh(t) && fresh(t.arrays) && fresh(t.arrays.groups) && fresh(t.arrays.elements)
    ensures t.Holds() && t.size == 16 && t.ml == 29 && Spilled(t.Value(), 0)
  {
    NewFilled();
    t := new TableCore(1);
    hide NewArrays, Consistent, Filled, Spilled, InitialMaxLoad, Contents, TableArrays.Value, CapacityFor;
    assert Fills(t, 0);
    hide Fills;
    var i := 0;
    while i < N
      invariant i <= N && Fills(t, i) && Filled(t.Value(), i)
      invariant fresh(t.arrays) && fresh(t.arrays.groups) && fresh(t.arrays.elements)
    {
      FillOne(t, i);
      i := i + 1;
    }
    FillOne(t, N);
    FillsFacts(t, 16);
  }

  lemma FillsFacts(t: TableCore, k: nat)
    requires Fills(t, k)
    ensures t.Holds() && t.size == k && t.ml == 29
  {
    hide Consistent, Contents;
  }

  lemma EraseStep(t: TableCore, j: nat)
    requires t.Holds() && Spilled(t.Value(), j) && j < N
    ensures HoldsKey(t.Value(), Slot(0, j), Nth(j).key)
    ensures 0 < t.arrays.groups.Length && j < |t.arrays.groups[0].meta| && t.arrays.groups[0].MaybeCausedOverflow(j)
    ensures Spilled(Erased(t.Value(), Slot(0, j)), j + 1)
  {
    EraseNext(t.Value(), j);
    assert t.arrays.groups[0] == t.Value().groups[0];
    hide SlotsOk, UniqueKeys, Settled;
  }

  lemma SpilledCapacity(a: Arrays, j: nat)
    requires Spilled(a, j)
    ensures Capacity(a) == 29
  {
  }

  /** Of those sixteen, five are erased, which lowers ml from 29 to 24; reserve(25) then finds the capacity of 29
      sufficient and leaves it at that: 25 elements do not fit below ml. */
  method ReserveFallsShort() returns (t: TableCore)
    ensures fresh(t) && t.Holds() && t.size == 11 && t.ml == 24
  {
    ReserveNeeds();
    t := Overflowing();
    hide Consistent, Spilled, CapacityFor, RehashCapacity, InitialMaxLoad, Contents, TableArrays.Value, Erased, HoldsKey;
    var j := 0;
    while j < 5
      invariant j <= 5 && t.Holds() && t.size == 16 - j && t.ml == 29 - j && Spilled(t.Value(), j)
      invariant fresh(t.arrays) && fresh(t.arrays.groups) && fresh(t.arrays.elements)
    {
      EraseStep(t, j);
      t.Erase(Slot(0, j), Nth(j).key);
      j := j + 1;
    }
    SpilledCapacity(t.Value(), 5);
    t.Reserve(25);
  }
}
