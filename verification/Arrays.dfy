/** The paired arrays of a table (groups and element slots) as a value, and what keeps lookup correct. */
module Arrays {
  import opened SizePolicy
  import opened Pow2Arith
  import opened QuadraticProber
  import opened Groups
  import opened Wrappers

  /** A key together with its mixed hash, so that equal keys have equal hashes. */
  datatype Key = Key(id: int, hash: Hash)

  datatype Element = Element(key: Key, value: int)

  datatype Slot = Slot(g: nat, n: nat)

  /** elements is empty when no storage is allocated; the groups are then shared dummies. */
  datatype Arrays = Arrays(index: nat, groups: seq<Group>, elements: seq<Option<Element>>)

  /** Group visited at the given step when probing for a hash. */
  function Probe(index: nat, hash: Hash, step: nat): (g: nat)
    requires IsSizeIndex(index)
    ensures g < Size(index)
  {
    ProbeAt(Position(hash, index), step, Size(index))
  }

  ghost predicate WellFormed(a: Arrays) {
    && IsSizeIndex(a.index)
    && |a.groups| == Size(a.index)
    && (a.elements == [] || |a.elements| == 15 * |a.groups| - 1)
    && (forall g :: 0 <= g < |a.groups| ==> a.groups[g].WellFormed(g == |a.groups| - 1 || a.elements == []))
    && (a.elements == [] ==> forall g :: 0 <= g < |a.groups| ==> a.groups[g] == DUMMY_GROUP)
  }

  function Capacity(a: Arrays): nat {
    if a.elements == [] || |a.groups| == 0 then 0 else 15 * |a.groups| - 1
  }

  /** Element slots of the table (the sentinel is not one). */
  ghost predicate IsSlot(a: Arrays, s: Slot) {
    a.elements != [] && s.g < |a.groups| && s.n < N && !(s.g == |a.groups| - 1 && s.n == N - 1)
  }

  ghost function Meta(a: Arrays, s: Slot): nat
    requires WellFormed(a) && IsSlot(a, s)
  {
    a.groups[s.g].meta[s.n]
  }

  ghost function ElementAt(a: Arrays, s: Slot): Option<Element>
    requires WellFormed(a) && IsSlot(a, s)
  {
    a.elements[15 * s.g + s.n]
  }

  /** The overflow bit for hash is set in the group visited at the given step. */
  ghost predicate Flagged(a: Arrays, hash: Hash, step: nat)
    requires WellFormed(a)
  {
    hash % 8 in a.groups[Probe(a.index, hash, step)].overflow
  }

  /** Probing for hash passes over every group visited before g. */
  ghost predicate Reaches(a: Arrays, hash: Hash, g: nat)
    requires WellFormed(a)
  {
    forall i, j :: 0 <= i < j < |a.groups| && Probe(a.index, hash, j) == g ==> Flagged(a, hash, i)
  }

  /** What a constructed element needs: its metadata tells its hash, and lookup gets to its group. */
  ghost predicate SlotOk(a: Arrays, s: Slot)
    requires WellFormed(a) && IsSlot(a, s)
  {
    match ElementAt(a, s)
    case None => true
    case Some(e) => Meta(a, s) == ReducedHash(e.key.hash) && Reaches(a, e.key.hash, s.g)
  }

  ghost predicate SlotsOk(a: Arrays)
    requires WellFormed(a)
  {
    forall s :: IsSlot(a, s) ==> SlotOk(a, s)
  }

  ghost predicate HoldsKey(a: Arrays, s: Slot, k: Key)
    requires WellFormed(a)
  {
    IsSlot(a, s) && ElementAt(a, s).Some? && ElementAt(a, s).value.key == k
  }

  ghost predicate UniqueKeys(a: Arrays)
    requires WellFormed(a)
  {
    forall k, s, t :: HoldsKey(a, s, k) && HoldsKey(a, t, k) ==> s == t
  }

  /** No slot is marked without an element: nobody is in the middle of an operation. */
  ghost predicate Settled(a: Arrays)
    requires WellFormed(a)
  {
    forall s :: IsSlot(a, s) && Meta(a, s) != AVAILABLE ==> ElementAt(a, s).Some?
  }

  /** Invariant of the arrays of a table at rest. */
  ghost predicate Valid(a: Arrays) {
    WellFormed(a) && SlotsOk(a) && UniqueKeys(a) && Settled(a)
  }

  ghost function AllSlots(a: Arrays): set<Slot> {
    set g: nat, n: nat | g < |a.groups| && n < N && IsSlot(a, Slot(g, n)) :: Slot(g, n)
  }

  /** Slots holding a constructed element. */
  ghost function Live(a: Arrays): set<Slot>
    requires WellFormed(a)
  {
    set s | s in AllSlots(a) && ElementAt(a, s).Some?
  }

  ghost function Keys(a: Arrays): set<Key>
    requires WellFormed(a)
  {
    set s | s in Live(a) :: ElementAt(a, s).value.key
  }

  ghost function SlotOf(a: Arrays, k: Key): (s: Slot)
    requires WellFormed(a) && k in Keys(a)
    ensures HoldsKey(a, s, k)
  {
    var s :| s in Live(a) && ElementAt(a, s).value.key == k;
    s
  }

  /** The table as a mathematical map. */
  ghost function Contents(a: Arrays): map<Key, int>
    requires WellFormed(a)
  {
    map k | k in Keys(a) :: ElementAt(a, SlotOf(a, k)).value.value
  }

  lemma SlotInAll(a: Arrays, s: Slot)
    ensures IsSlot(a, s) <==> s in AllSlots(a)
  {
    if IsSlot(a, s) {
      assert s == Slot(s.g, s.n);
    }
  }

  lemma HeldKey(a: Arrays, s: Slot, k: Key)
    requires WellFormed(a) && HoldsKey(a, s, k)
    ensures s in Live(a) && k in Keys(a)
  {
    SlotInAll(a, s);
  }

  lemma ContentsAt(a: Arrays, k: Key)
    requires WellFormed(a) && UniqueKeys(a)
    ensures k in Contents(a) <==> exists s :: HoldsKey(a, s, k)
    ensures forall s :: HoldsKey(a, s, k) ==> Contents(a)[k] == ElementAt(a, s).value.value
  {
    forall s | HoldsKey(a, s, k)
      ensures k in Contents(a) && Contents(a)[k] == ElementAt(a, s).value.value
    {
      HeldKey(a, s, k);
      assert HoldsKey(a, SlotOf(a, k), k);
    }
    if k in Contents(a) {
      assert HoldsKey(a, SlotOf(a, k), k);
    }
  }

  /** Dimensions of allocated arrays. */
  ghost predicate Shaped(a: Arrays) {
    && IsSizeIndex(a.index) && |a.groups| == Size(a.index)
    && |a.elements| == 15 * |a.groups| - 1
    && forall g :: 0 <= g < |a.groups| ==> |a.groups[g].meta| == N
  }

  /** Insertion into the first available slot along the probe sequence, marking overflow on the way
      (nosize_unchecked_emplace_at, from a given step on). None if all groups are full. */
  function EmplaceFrom(a: Arrays, e: Element, step: nat): (r: (Arrays, Option<Slot>))
    requires Shaped(a)
    ensures Shaped(r.0) && r.0.index == a.index
    decreases |a.groups| - step
  {
    if step >= |a.groups| then (a, None)
    else
      var g := Probe(a.index, e.key.hash, step);
      var n := Lowest(a.groups[g].MatchAvailable());
      if n < N && 15 * g + n < |a.elements| then
        (a.(groups := a.groups[g := a.groups[g].Set(n, e.key.hash)],
            elements := a.elements[15 * g + n := Some(e)]), Some(Slot(g, n)))
      else
        EmplaceFrom(a.(groups := a.groups[g := a.groups[g].MarkOverflow(e.key.hash)]), e, step + 1)
  }

  /** Overflow marks may be added and slots emptied without harm to the slots that stay. */
  ghost predicate MarksKept(a: Arrays, b: Arrays)
    requires WellFormed(a) && WellFormed(b)
  {
    && b.index == a.index && |b.groups| == |a.groups|
    && (b.elements == [] <==> a.elements == [])
    && forall g :: 0 <= g < |a.groups| ==> a.groups[g].overflow <= b.groups[g].overflow
  }

  lemma ReachesKept(a: Arrays, b: Arrays, hash: Hash, g: nat)
    requires WellFormed(a) && WellFormed(b) && MarksKept(a, b)
    requires Reaches(a, hash, g)
    ensures Reaches(b, hash, g)
  {
    forall i, j | 0 <= i < j < |b.groups| && Probe(b.index, hash, j) == g
      ensures Flagged(b, hash, i)
    {
      assert Flagged(a, hash, i);
    }
  }

  /** An element put at the given step of its probe sequence, all earlier groups being flagged, is reachable. */
  lemma ReachesAtStep(a: Arrays, hash: Hash, step: nat)
    requires WellFormed(a)
    requires forall i :: 0 <= i < step && i < |a.groups| ==> Flagged(a, hash, i)
    ensures Reaches(a, hash, Probe(a.index, hash, step))
  {
    forall i, j | 0 <= i < j < |a.groups| && Probe(a.index, hash, j) == Probe(a.index, hash, step)
      ensures Flagged(a, hash, i)
    {
      if step < |a.groups| {
        ProbeInjective(Position(hash, a.index), j, step, BITS - a.index);
      }
    }
  }

  /** Some group still to be probed from the given step on has an available slot. */
  ghost predicate RoomFrom(a: Arrays, hash: Hash, step: nat)
    requires WellFormed(a)
  {
    exists i :: step <= i < |a.groups| && HasRoom(a, Probe(a.index, hash, i))
  }

  ghost predicate HasRoom(a: Arrays, g: nat)
    requires WellFormed(a)
  {
    exists n :: 0 <= n < N && IsSlot(a, Slot(g, n)) && a.groups[g].meta[n] == AVAILABLE
  }

  /** b is a with element e put into the free slot s, and possibly more overflow marks. */
  ghost predicate Placed(a: Arrays, b: Arrays, e: Element, s: Slot)
    requires WellFormed(a) && WellFormed(b)
  {
    && MarksKept(a, b)
    && IsSlot(a, s) && Meta(a, s) == AVAILABLE
    && Meta(b, s) == ReducedHash(e.key.hash) && ElementAt(b, s) == Some(e)
    && Reaches(b, e.key.hash, s.g)
    && forall t :: IsSlot(a, t) && t != s ==> Meta(b, t) == Meta(a, t) && ElementAt(b, t) == ElementAt(a, t)
  }

  /** Insertion finds the free slot, puts the element there and keeps everything else. */
  lemma {:induction false} EmplacePlaces(a: Arrays, e: Element, step: nat) returns (b: Arrays, s: Slot)
    requires WellFormed(a) && a.elements != []
    requires forall i :: 0 <= i < step && i < |a.groups| ==> Flagged(a, e.key.hash, i)
    requires RoomFrom(a, e.key.hash, step)
    ensures EmplaceFrom(a, e, step) == (b, Some(s))
    ensures WellFormed(b) && Placed(a, b, e, s)
    decreases |a.groups| - step
  {
    hide EmplaceFrom;
    var hash := e.key.hash;
    var g := Probe(a.index, hash, step);
    if Lowest(a.groups[g].MatchAvailable()) < N {
      b, s := EmplaceHere(a, e, step);
    } else {
      var c := MarkAdvances(a, hash, step);
      b, s := EmplacePlaces(c, e, step + 1);
      EmplaceSkips(a, c, e, step);
      PlacedAfterMark(a, c, b, e, s);
    }
  }

  lemma EmplaceSkips(a: Arrays, c: Arrays, e: Element, step: nat)
    requires WellFormed(a) && a.elements != [] && step < |a.groups|
    requires Lowest(a.groups[Probe(a.index, e.key.hash, step)].MatchAvailable()) == N
    requires var g := Probe(a.index, e.key.hash, step); c == a.(groups := a.groups[g := a.groups[g].MarkOverflow(e.key.hash)])
    ensures EmplaceFrom(a, e, step) == EmplaceFrom(c, e, step + 1)
  {
  }

  /** Finding a full group, marking it and going on keeps what insertion relies on. */
  lemma MarkAdvances(a: Arrays, hash: Hash, step: nat) returns (c: Arrays)
    requires WellFormed(a) && a.elements != []
    requires forall i :: 0 <= i < step && i < |a.groups| ==> Flagged(a, hash, i)
    requires RoomFrom(a, hash, step) && step < |a.groups|
    requires Lowest(a.groups[Probe(a.index, hash, step)].MatchAvailable()) == N
    ensures var g := Probe(a.index, hash, step); c == a.(groups := a.groups[g := a.groups[g].MarkOverflow(hash)])
    ensures WellFormed(c) && MarksKept(a, c) && RoomFrom(c, hash, step + 1)
    ensures forall t :: IsSlot(c, t) <==> IsSlot(a, t)
    ensures forall t :: IsSlot(a, t) ==> Meta(c, t) == Meta(a, t) && ElementAt(c, t) == ElementAt(a, t)
    ensures forall i :: 0 <= i < step + 1 && i < |c.groups| ==> Flagged(c, hash, i)
  {
    var g := Probe(a.index, hash, step);
    c := a.(groups := a.groups[g := a.groups[g].MarkOverflow(hash)]);
    MarkGroup(a, hash, g);
    forall i | 0 <= i < step + 1 && i < |c.groups| ensures Flagged(c, hash, i) {
      assert i < step ==> Flagged(a, hash, i);
    }
    RoomLater(a, hash, step);
    var i :| step + 1 <= i < |a.groups| && HasRoom(a, Probe(a.index, hash, i));
    assert HasRoom(c, Probe(c.index, hash, i));
  }

  lemma PlacedAfterMark(a: Arrays, c: Arrays, b: Arrays, e: Element, s: Slot)
    requires WellFormed(a) && WellFormed(c) && WellFormed(b)
    requires MarksKept(a, c) && Placed(c, b, e, s)
    requires forall t :: IsSlot(c, t) <==> IsSlot(a, t)
    requires forall t :: IsSlot(a, t) ==> Meta(c, t) == Meta(a, t) && ElementAt(c, t) == ElementAt(a, t)
    ensures Placed(a, b, e, s)
  {
  }

  lemma EmplaceHere(a: Arrays, e: Element, step: nat) returns (b: Arrays, s: Slot)
    requires WellFormed(a) && a.elements != [] && step < |a.groups|
    requires forall i :: 0 <= i < step && i < |a.groups| ==> Flagged(a, e.key.hash, i)
    requires Lowest(a.groups[Probe(a.index, e.key.hash, step)].MatchAvailable()) < N
    ensures var g := Probe(a.index, e.key.hash, step); s == Slot(g, Lowest(a.groups[g].MatchAvailable())) && IsSlot(a, s)
    ensures b == a.(groups := a.groups[s.g := a.groups[s.g].Set(s.n, e.key.hash)],
                    elements := a.elements[15 * s.g + s.n := Some(e)])
    ensures EmplaceFrom(a, e, step) == (b, Some(s))
    ensures WellFormed(b) && Placed(a, b, e, s)
  {
    var hash := e.key.hash;
    var g := Probe(a.index, hash, step);
    s := Slot(g, Lowest(a.groups[g].MatchAvailable()));
    assert a.groups[g].meta[s.n] == AVAILABLE;
    b := PlaceSlot(a, e, s);
    forall i | 0 <= i < step && i < |b.groups| ensures Flagged(b, hash, i) { assert Flagged(a, hash, i); }
    ReachesAtStep(b, hash, step);
  }

  lemma RoomLater(a: Arrays, hash: Hash, step: nat)
    requires WellFormed(a) && RoomFrom(a, hash, step)
    requires step < |a.groups| && Lowest(a.groups[Probe(a.index, hash, step)].MatchAvailable()) == N
    ensures RoomFrom(a, hash, step + 1)
  {
    var g := Probe(a.index, hash, step);
    var i :| step <= i < |a.groups| && HasRoom(a, Probe(a.index, hash, i));
    var m :| 0 <= m < N && IsSlot(a, Slot(Probe(a.index, hash, i), m)) && a.groups[Probe(a.index, hash, i)].meta[m] == AVAILABLE;
    assert m !in a.groups[g].MatchAvailable();
  }

  /** Marking overflow in a group changes nothing else. */
  lemma MarkGroup(a: Arrays, hash: Hash, g: nat)
    requires WellFormed(a) && a.elements != [] && g < |a.groups|
    ensures var c := a.(groups := a.groups[g := a.groups[g].MarkOverflow(hash)]);
      && WellFormed(c) && MarksKept(a, c)
      && (forall t :: IsSlot(c, t) <==> IsSlot(a, t))
      && (forall t :: IsSlot(a, t) ==> Meta(c, t) == Meta(a, t) && ElementAt(c, t) == ElementAt(a, t))
      && (forall h: Hash, i :: Flagged(a, h, i) ==> Flagged(c, h, i))
      && (forall h: nat :: h < |a.groups| && HasRoom(a, h) ==> HasRoom(c, h))
  {
    var c := a.(groups := a.groups[g := a.groups[g].MarkOverflow(hash)]);
    forall h: nat | h < |a.groups| && HasRoom(a, h) ensures HasRoom(c, h) {
      var m :| 0 <= m < N && IsSlot(a, Slot(h, m)) && a.groups[h].meta[m] == AVAILABLE;
      assert IsSlot(c, Slot(h, m)) && c.groups[h].meta[m] == AVAILABLE;
    }
  }

  /** Writing one slot leaves every other slot as it was. */
  lemma PlaceSlot(a: Arrays, e: Element, s: Slot) returns (b: Arrays)
    requires WellFormed(a) && IsSlot(a, s)
    ensures b == a.(groups := a.groups[s.g := a.groups[s.g].Set(s.n, e.key.hash)],
                    elements := a.elements[15 * s.g + s.n := Some(e)])
    ensures WellFormed(b) && MarksKept(a, b)
    ensures Meta(b, s) == ReducedHash(e.key.hash) && ElementAt(b, s) == Some(e)
    ensures forall t :: IsSlot(b, t) <==> IsSlot(a, t)
    ensures forall t :: IsSlot(a, t) && t != s ==> Meta(b, t) == Meta(a, t) && ElementAt(b, t) == ElementAt(a, t)
  {
    b := a.(groups := a.groups[s.g := a.groups[s.g].Set(s.n, e.key.hash)],
            elements := a.elements[15 * s.g + s.n := Some(e)]);
  }

  /** Placing an element keeps every other element reachable. */
  lemma PlacedKeepsSlots(a: Arrays, b: Arrays, e: Element, s: Slot)
    requires WellFormed(a) && WellFormed(b) && SlotsOk(a) && Placed(a, b, e, s)
    ensures SlotsOk(b)
    ensures Live(b) == Live(a) + {s}
  {
    forall t | IsSlot(b, t) ensures SlotOk(b, t) {
      assert IsSlot(a, t);
      if t != s && ElementAt(a, t).Some? {
        assert SlotOk(a, t);
        ReachesKept(a, b, ElementAt(a, t).value.key.hash, t.g);
      }
    }
    forall t ensures t in Live(b) <==> t in Live(a) + {s} {
      SlotInAll(a, t);
      SlotInAll(b, t);
      assert IsSlot(a, t) <==> IsSlot(b, t);
    }
  }
}
