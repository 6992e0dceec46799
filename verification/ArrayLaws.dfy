/** What inserting, erasing, clearing and rehashing do to the contents of a table at rest. */
module ArrayLaws {
  import opened SizePolicy
  import opened Pow2Arith
  import opened QuadraticProber
  import opened Groups
  import opened Arrays
  import opened Wrappers

  /* ---------- counting slots ---------- */

  ghost function FirstSlots(k: nat): (s: set<Slot>)
    ensures forall t :: t in s <==> t.n < N && 15 * t.g + t.n < k
  {
    if k == 0 then {} else
      var last := Slot((k - 1) / 15, (k - 1) % 15);
      assert forall t: Slot :: t.n < N && 15 * t.g + t.n < k ==> 15 * t.g + t.n < k - 1 || t == last;
      FirstSlots(k - 1) + {last}
  }

  lemma {:induction false} FirstSlotsSize(k: nat)
    ensures |FirstSlots(k)| == k
  {
    if k > 0 {
      FirstSlotsSize(k - 1);
    }
  }

  lemma SlotBelow(a: Arrays, t: Slot)
    requires a.elements != []
    ensures IsSlot(a, t) <==> t.n < N && 15 * t.g + t.n < 15 * |a.groups| - 1
  {
  }

  /** An allocated table has as many slots as capacity() says. */
  lemma SlotCount(a: Arrays)
    requires WellFormed(a)
    ensures |AllSlots(a)| == Capacity(a)
  {
    assert |a.groups| > 0;
    hide WellFormed;
    if a.elements == [] {
      assert AllSlots(a) == {};
    } else {
      var k: nat := 15 * |a.groups| - 1;
      forall t ensures t in AllSlots(a) <==> t in FirstSlots(k) {
        SlotInAll(a, t);
        SlotBelow(a, t);
      }
      assert AllSlots(a) == FirstSlots(k);
      FirstSlotsSize(k);
    }
  }

  /** Slots whose metadata marks them as taken. */
  ghost function Occupied(a: Arrays): set<Slot>
    requires WellFormed(a)
  {
    set s | s in AllSlots(a) && Meta(a, s) != AVAILABLE
  }

  /** As long as some slot is free, probing for any hash comes across a free slot. */
  lemma FreeSlotReached(a: Arrays, hash: Hash)
    requires WellFormed(a) && |Occupied(a)| < Capacity(a)
    ensures RoomFrom(a, hash, 0)
  {
    SlotCount(a);
    if AllSlots(a) <= Occupied(a) {
      SubsetSize(AllSlots(a), Occupied(a));
    }
    var s :| s in AllSlots(a) && s !in Occupied(a);
    var step := ProbeCovers(Position(hash, a.index), s.g, BITS - a.index);
    assert s == Slot(Probe(a.index, hash, step), s.n);
    assert HasRoom(a, Probe(a.index, hash, step));
  }

  lemma SettledOccupied(a: Arrays)
    requires WellFormed(a) && SlotsOk(a) && Settled(a)
    ensures Occupied(a) == Live(a)
  {
    forall s | s in AllSlots(a) ensures s in Occupied(a) <==> s in Live(a) {
      SlotInAll(a, s);
      assert SlotOk(a, s);
    }
  }

  /** A metadata byte that matches a hash belongs to an element slot. */
  lemma HitIsSlot(a: Arrays, g: nat, n: nat, hash: Hash)
    requires WellFormed(a) && g < |a.groups| && n < N && a.groups[g].meta[n] == ReducedHash(hash)
    ensures IsSlot(a, Slot(g, n))
  {
    if a.elements == [] {
      assert a.groups[g] == DUMMY_GROUP;
      DummyMeta(n);
    }
  }

  lemma DummyMeta(n: nat)
    requires n < N
    ensures DUMMY_GROUP.meta[n] <= 1
  {
  }

  ghost function Image<A, B>(s: set<A>, f: A -> B): set<B> {
    set x | x in s :: f(x)
  }

  lemma {:induction false} ImageSize<A, B>(s: set<A>, f: A -> B)
    requires forall x, y :: x in s && y in s && f(x) == f(y) ==> x == y
    ensures |Image(s, f)| == |s|
  {
    if s != {} {
      var x :| x in s;
      ImageSize(s - {x}, f);
      assert Image(s, f) == Image(s - {x}, f) + {f(x)};
    }
  }

  ghost function KeyAt(a: Arrays, s: Slot): Key {
    if WellFormed(a) && IsSlot(a, s) && ElementAt(a, s).Some? then ElementAt(a, s).value.key else Key(0, 0)
  }

  /** With unique keys there are as many keys as live slots. */
  lemma KeyCount(a: Arrays)
    requires WellFormed(a) && UniqueKeys(a)
    ensures |Contents(a)| == |Live(a)|
  {
    hide WellFormed;
    var f := s => KeyAt(a, s);
    forall s, t | s in Live(a) && t in Live(a) && f(s) == f(t) ensures s == t {
      assert HoldsKey(a, s, f(s)) && HoldsKey(a, t, f(s));
    }
    ImageSize(Live(a), f);
    forall k ensures k in Keys(a) <==> k in Image(Live(a), f) {
      if k in Keys(a) {
        var s := SlotOf(a, k);
        HeldKey(a, s, k);
        assert f(s) == k;
      }
      if k in Image(Live(a), f) {
        var s :| s in Live(a) && f(s) == k;
        assert HoldsKey(a, s, k);
        HeldKey(a, s, k);
      }
    }
    assert Contents(a).Keys == Keys(a) == Image(Live(a), f);
    assert |Contents(a)| == |Contents(a).Keys|;
  }

  /** What the table keeps: valid arrays, an exact size, and a maximum load between size and the initial one. */
  ghost predicate Consistent(a: Arrays, size: nat, ml: nat) {
    Valid(a) && size == |Live(a)| && size <= ml <= InitialMaxLoad(Capacity(a))
  }

  /* ---------- insertion ---------- */

  /** Inserting an absent key adds exactly that key. */
  lemma EmplaceValid(a: Arrays, e: Element) returns (b: Arrays, s: Slot)
    requires Valid(a) && |Live(a)| < Capacity(a) && e.key !in Contents(a)
    ensures EmplaceFrom(a, e, 0) == (b, Some(s))
    ensures Valid(b) && b.index == a.index && b.elements != []
    ensures Placed(a, b, e, s) && Live(b) == Live(a) + {s} && |Live(b)| == |Live(a)| + 1
    ensures Contents(b) == Contents(a)[e.key := e.value]
  {
    hide EmplaceFrom;
    SettledOccupied(a);
    FreeSlotReached(a, e.key.hash);
    b, s := EmplacePlaces(a, e, 0);
    PlacedKeepsSlots(a, b, e, s);
    PlacedValid(a, b, e, s);
  }

  lemma PlacedValid(a: Arrays, b: Arrays, e: Element, s: Slot)
    requires Valid(a) && WellFormed(b) && SlotsOk(b) && Placed(a, b, e, s) && e.key !in Contents(a)
    requires Live(b) == Live(a) + {s}
    ensures Valid(b) && |Live(b)| == |Live(a)| + 1
    ensures Contents(b) == Contents(a)[e.key := e.value]
  {
    hide WellFormed, Reaches, ReducedHash;
    forall k ensures !HoldsKey(a, s, k) {
      assert SlotOk(a, s);
    }
    assert s !in Live(a);
    forall t | IsSlot(b, t) && Meta(b, t) != AVAILABLE ensures ElementAt(b, t).Some? {
      assert IsSlot(a, t);
    }
    PlacedKeys(a, b, e, s);
    PlacedContents(a, b, e, s);
  }

  lemma PlacedContents(a: Arrays, b: Arrays, e: Element, s: Slot)
    requires WellFormed(a) && UniqueKeys(a) && WellFormed(b) && UniqueKeys(b)
    requires IsSlot(b, s) && ElementAt(b, s) == Some(e)
    requires forall t, k :: HoldsKey(b, t, k) <==> (t == s && k == e.key) || (t != s && HoldsKey(a, t, k))
    requires forall t :: IsSlot(a, t) && t != s ==> IsSlot(b, t) && ElementAt(b, t) == ElementAt(a, t)
    requires forall k :: !HoldsKey(a, s, k)
    ensures Contents(b) == Contents(a)[e.key := e.value]
  {
    hide WellFormed;
    forall k ensures k in Contents(b) <==> k in Contents(a) || k == e.key {
      SameKey(a, b, k, s);
    }
    forall k | k in Contents(b) ensures Contents(b)[k] == Contents(a)[e.key := e.value][k] {
      ContentsAt(b, k);
      ContentsAt(a, k);
      var t :| HoldsKey(b, t, k);
    }
  }

  lemma PlacedKeys(a: Arrays, b: Arrays, e: Element, s: Slot)
    requires WellFormed(a) && UniqueKeys(a) && WellFormed(b) && Placed(a, b, e, s) && e.key !in Contents(a)
    ensures forall t, k :: HoldsKey(b, t, k) <==> (t == s && k == e.key) || (t != s && HoldsKey(a, t, k))
    ensures UniqueKeys(b)
  {
    hide WellFormed, Reaches, ReducedHash;
    forall t, k ensures HoldsKey(b, t, k) <==> (t == s && k == e.key) || (t != s && HoldsKey(a, t, k)) {
      assert IsSlot(a, t) <==> IsSlot(b, t);
    }
    ContentsAt(a, e.key);
    forall k, t, u | HoldsKey(b, t, k) && HoldsKey(b, u, k) ensures t == u {
      assert t != s && u != s ==> HoldsKey(a, t, k) && HoldsKey(a, u, k);
    }
  }

  lemma SameKey(a: Arrays, b: Arrays, k: Key, s: Slot)
    requires WellFormed(a) && UniqueKeys(a) && WellFormed(b) && UniqueKeys(b) && IsSlot(b, s) && ElementAt(b, s).Some?
    requires forall t, k :: HoldsKey(b, t, k) <==> (t == s && k == ElementAt(b, s).value.key) || (t != s && HoldsKey(a, t, k))
    requires forall k :: !HoldsKey(a, s, k)
    ensures k in Contents(b) <==> k in Contents(a) || k == ElementAt(b, s).value.key
  {
    hide WellFormed;
    ContentsAt(a, k);
    ContentsAt(b, k);
    if k in Contents(a) {
      var t :| HoldsKey(a, t, k);
      assert HoldsKey(b, t, k);
    }
    if k == ElementAt(b, s).value.key {
      assert HoldsKey(b, s, k);
    }
  }

  /* ---------- erasure ---------- */

  /** destroy_element and group::reset on one slot; overflow bits stay. */
  function Erased(a: Arrays, s: Slot): Arrays
    requires s.g < |a.groups| && s.n < |a.groups[s.g].meta| && 15 * s.g + s.n < |a.elements|
  {
    a.(groups := a.groups[s.g := a.groups[s.g].Reset(s.n)],
       elements := a.elements[15 * s.g + s.n := None])
  }

  /** Erasing a slot removes exactly its key; every other element stays reachable. */
  lemma EraseValid(a: Arrays, s: Slot)
    requires Valid(a) && IsSlot(a, s) && ElementAt(a, s).Some?
    ensures var b := Erased(a, s);
      && Valid(b) && Live(b) == Live(a) - {s} && |Live(b)| == |Live(a)| - 1
      && Contents(b) == Contents(a) - {ElementAt(a, s).value.key}
  {
    var b := Erased(a, s);
    ErasedShape(a, s);
    hide WellFormed, Reaches, ReducedHash;
    forall t | IsSlot(b, t) ensures SlotOk(b, t) {
      assert SlotOk(a, t);
      if t != s && ElementAt(a, t).Some? {
        ReachesKept(a, b, ElementAt(a, t).value.key.hash, t.g);
      }
    }
    ErasedLive(a, b, s);
    forall k, t ensures HoldsKey(b, t, k) <==> t != s && HoldsKey(a, t, k) {}
    forall k, t, u | HoldsKey(b, t, k) && HoldsKey(b, u, k) ensures t == u {
      assert HoldsKey(a, t, k) && HoldsKey(a, u, k);
    }
    hide SlotsOk, HoldsKey, Erased;
    ErasedContents(a, b, s);
  }

  lemma ErasedShape(a: Arrays, s: Slot)
    requires WellFormed(a) && IsSlot(a, s)
    ensures var b := Erased(a, s);
      && WellFormed(b) && MarksKept(a, b)
      && (forall t :: IsSlot(b, t) <==> IsSlot(a, t))
      && Meta(b, s) == AVAILABLE && ElementAt(b, s) == None
      && (forall t :: IsSlot(a, t) && t != s ==> Meta(b, t) == Meta(a, t) && ElementAt(b, t) == ElementAt(a, t))
  {
  }

  lemma ErasedLive(a: Arrays, b: Arrays, s: Slot)
    requires WellFormed(a) && WellFormed(b) && IsSlot(a, s) && ElementAt(a, s).Some?
    requires forall t :: IsSlot(b, t) <==> IsSlot(a, t)
    requires ElementAt(b, s) == None && forall t :: IsSlot(a, t) && t != s ==> ElementAt(b, t) == ElementAt(a, t)
    ensures Live(b) == Live(a) - {s} && |Live(b)| == |Live(a)| - 1
  {
    hide WellFormed;
    forall t ensures t in Live(b) <==> t in Live(a) - {s} {
      SlotInAll(a, t);
      SlotInAll(b, t);
    }
    SlotInAll(a, s);
  }

  lemma ErasedContents(a: Arrays, b: Arrays, s: Slot)
    requires WellFormed(a) && UniqueKeys(a) && WellFormed(b) && UniqueKeys(b) && IsSlot(a, s) && ElementAt(a, s).Some?
    requires forall k, t :: HoldsKey(b, t, k) <==> t != s && HoldsKey(a, t, k)
    requires forall t :: IsSlot(a, t) && t != s ==> IsSlot(b, t) && ElementAt(b, t) == ElementAt(a, t)
    ensures Contents(b) == Contents(a) - {ElementAt(a, s).value.key}
  {
    hide WellFormed;
    var key := ElementAt(a, s).value.key;
    assert HoldsKey(a, s, key);
    forall k ensures k in Contents(b) <==> k in Contents(a) && k != key {
      ContentsAt(a, k);
      ContentsAt(b, k);
      if k in Contents(a) && k != key {
        var t :| HoldsKey(a, t, k);
        assert HoldsKey(b, t, k);
      }
      if k in Contents(b) {
        var t :| HoldsKey(b, t, k);
        assert HoldsKey(a, t, k);
      }
    }
    forall k | k in Contents(b) ensures Contents(b)[k] == Contents(a)[k] {
      ContentsAt(a, k);
      ContentsAt(b, k);
      var t :| HoldsKey(b, t, k);
      assert HoldsKey(a, t, k);
    }
  }

  /* ---------- fresh arrays ---------- */

  /** Newly allocated arrays: all groups wiped, the sentinel set (also what clear leaves behind). */
  function FreshGroups(size: nat): (r: seq<Group>)
    ensures |r| == size
  {
    seq(size, g requires 0 <= g < size => if g == size - 1 then EMPTY_GROUP.SetSentinel() else EMPTY_GROUP)
  }

  /** new_arrays(n): shared dummy groups and no storage when n is 0. */
  function NewArrays(n: nat): (a: Arrays)
    requires n / N + 1 <= Pow2(BITS - 1)
    ensures IsSizeIndex(a.index) && |a.groups| == Size(a.index)
  {
    var index := SizeIndexFor(n);
    if n == 0 then Arrays(index, seq(Size(index), g => DUMMY_GROUP), [])
    else Arrays(index, FreshGroups(Size(index)), seq(15 * Size(index) - 1, i => None))
  }

  lemma FreshValid(a: Arrays)
    requires IsSizeIndex(a.index) && |a.groups| == Size(a.index) && |a.elements| == 15 * |a.groups| - 1
    requires a.groups == FreshGroups(|a.groups|)
    requires forall i :: 0 <= i < |a.elements| ==> a.elements[i] == None
    ensures Valid(a) && Live(a) == {} && Contents(a) == map[]
  {
    forall g | 0 <= g < |a.groups| ensures a.groups[g].WellFormed(g == |a.groups| - 1) {
      assert a.groups[g] == if g == |a.groups| - 1 then EMPTY_GROUP.SetSentinel() else EMPTY_GROUP;
    }
    NoElements(a);
    forall s | IsSlot(a, s) ensures Meta(a, s) == AVAILABLE {
      assert a.groups[s.g] == if s.g == |a.groups| - 1 then EMPTY_GROUP.SetSentinel() else EMPTY_GROUP;
      EmptyMeta(s.n);
    }
  }

  lemma EmptyMeta(n: nat)
    requires n < N
    ensures EMPTY_GROUP.meta[n] == AVAILABLE
    ensures n < N - 1 ==> EMPTY_GROUP.SetSentinel().meta[n] == AVAILABLE
  {
  }

  lemma NoElements(a: Arrays)
    requires WellFormed(a) && forall i :: 0 <= i < |a.elements| ==> a.elements[i] == None
    ensures Live(a) == {} && Contents(a) == map[] && UniqueKeys(a) && SlotsOk(a)
  {
    assert Live(a) == {};
    assert Keys(a) == {};
  }

  lemma NewValid(n: nat)
    requires n / N + 1 <= Pow2(BITS - 1)
    ensures var a := NewArrays(n);
      Valid(a) && Live(a) == {} && Contents(a) == map[] && Capacity(a) == if n == 0 then 0 else CapacityFor(n)
  {
    var a := NewArrays(n);
    if n == 0 {
      assert a.index == BITS - 1;
      NoElements(a);
    } else {
      FreshValid(a);
    }
  }

  /* ---------- rehash ---------- */

  /** Inserts into b the elements of the given slots, in order (the loop of unchecked_rehash). */
  function Transfer(elements: seq<Option<Element>>, b: Arrays): (r: Arrays)
    requires Shaped(b)
    ensures Shaped(r) && r.index == b.index
  {
    if elements == [] then b
    else
      var r := Transfer(elements[..|elements| - 1], b);
      match elements[|elements| - 1]
      case None => r
      case Some(e) => EmplaceFrom(r, e, 0).0
  }

  /** Live slots among the first k. */
  ghost function LiveBelow(a: Arrays, k: nat): set<Slot>
    requires WellFormed(a)
  {
    set s | s in Live(a) && 15 * s.g + s.n < k
  }

  /** r holds what b holds and the elements of the first k slots of a. */
  ghost predicate Copied(a: Arrays, k: nat, b: Arrays, r: Arrays)
    requires WellFormed(a) && WellFormed(b) && WellFormed(r)
  {
    && |Live(r)| == |LiveBelow(a, k)| + |Live(b)|
    && (forall s, key :: s in LiveBelow(a, k) && HoldsKey(a, s, key) ==>
          key in Contents(r) && Contents(r)[key] == ElementAt(a, s).value.value)
    && (forall key :: key in Contents(b) ==> key in Contents(r) && Contents(r)[key] == Contents(b)[key])
    && (forall key :: key in Contents(r) ==> key in Contents(b) || exists s :: s in LiveBelow(a, k) && HoldsKey(a, s, key))
  }

  /** The elements of a can be moved into b: there is room, and no key is in both. */
  ghost predicate Transferable(a: Arrays, b: Arrays) {
    && Valid(a) && Valid(b) && b.elements != [] && Shaped(b)
    && |Live(a)| + |Live(b)| <= Capacity(b)
    && Contents(a).Keys !! Contents(b).Keys
  }

  lemma {:induction false} TransferValid(a: Arrays, k: nat, b: Arrays)
    requires Transferable(a, b) && k <= |a.elements|
    ensures var r := Transfer(a.elements[..k], b);
      Valid(r) && r.elements != [] && Copied(a, k, b, r)
  {
    hide WellFormed, SlotsOk, UniqueKeys, Settled, EmplaceFrom, Shaped;
    if k == 0 {
      assert LiveBelow(a, 0) == {};
    } else {
      TransferValid(a, k - 1, b);
      var s := Slot((k - 1) / 15, (k - 1) % 15);
      LiveBelowStep(a, k, s);
      TransferStep(a, k, b, s);
    }
  }

  lemma TransferStep(a: Arrays, k: nat, b: Arrays, s: Slot)
    requires Transferable(a, b) && 0 < k <= |a.elements|
    requires var r := Transfer(a.elements[..k - 1], b); Valid(r) && r.elements != [] && Copied(a, k - 1, b, r)
    requires IsSlot(a, s) && ElementAt(a, s) == a.elements[k - 1]
    requires LiveBelow(a, k) == LiveBelow(a, k - 1) + (if ElementAt(a, s).Some? then {s} else {})
    requires s !in LiveBelow(a, k - 1) && |LiveBelow(a, k - 1)| + (if ElementAt(a, s).Some? then 1 else 0) <= |Live(a)|
    ensures var r := Transfer(a.elements[..k], b);
      Valid(r) && r.elements != [] && Copied(a, k, b, r)
  {
    TransferUnfold(a.elements, k, b);
    var r := Transfer(a.elements[..k - 1], b);
    assert Capacity(r) == Capacity(b);
    hide WellFormed, SlotsOk, UniqueKeys, Settled, EmplaceFrom, Shaped, Transfer;
    if ElementAt(a, s).Some? {
      TransferOne(a, k, s, b, r);
    }
  }

  lemma TransferUnfold(elements: seq<Option<Element>>, k: nat, b: Arrays)
    requires Shaped(b) && 0 < k <= |elements|
    ensures var r := Transfer(elements[..k - 1], b);
      Transfer(elements[..k], b) == match elements[k - 1] case None => r case Some(e) => EmplaceFrom(r, e, 0).0
  {
    assert elements[..k][..k - 1] == elements[..k - 1];
    hide EmplaceFrom;
  }

  lemma LiveBelowStep(a: Arrays, k: nat, s: Slot)
    requires WellFormed(a) && a.elements != [] && 0 < k <= |a.elements| && s == Slot((k - 1) / 15, (k - 1) % 15)
    ensures IsSlot(a, s) && ElementAt(a, s) == a.elements[k - 1]
    ensures LiveBelow(a, k) == LiveBelow(a, k - 1) + (if ElementAt(a, s).Some? then {s} else {})
    ensures s !in LiveBelow(a, k - 1) && |LiveBelow(a, k - 1)| + (if ElementAt(a, s).Some? then 1 else 0) <= |Live(a)|
  {
    assert 15 * s.g + s.n == k - 1 && IsSlot(a, s);
    SlotInAll(a, s);
    hide WellFormed, IsSlot;
    forall t | t in Live(a) && 15 * t.g + t.n == k - 1 ensures t == s { LiveAt(a, t, s); }
    hide Live, ElementAt;
    assert LiveBelow(a, k) == LiveBelow(a, k - 1) + (if ElementAt(a, s).Some? then {s} else {});
    SubsetSize(LiveBelow(a, k), Live(a));
  }

  lemma LiveAt(a: Arrays, t: Slot, s: Slot)
    requires WellFormed(a) && t in Live(a) && s.n < 15 && 15 * t.g + t.n == 15 * s.g + s.n
    ensures t == s
  {
    SlotInAll(a, t);
    hide WellFormed;
  }

  lemma TransferOne(a: Arrays, k: nat, s: Slot, b: Arrays, r: Arrays)
    requires Valid(a) && 0 < k && IsSlot(a, s) && ElementAt(a, s).Some?
    requires WellFormed(b) && Contents(a).Keys !! Contents(b).Keys
    requires Valid(r) && r.elements != [] && Copied(a, k - 1, b, r) && |Live(a)| + |Live(b)| <= Capacity(r) && Shaped(r)
    requires LiveBelow(a, k) == LiveBelow(a, k - 1) + {s}
    requires s !in LiveBelow(a, k - 1) && |LiveBelow(a, k - 1)| < |Live(a)|
    ensures var r' := EmplaceFrom(r, ElementAt(a, s).value, 0).0;
      Valid(r') && r'.elements != [] && Copied(a, k, b, r')
  {
    hide WellFormed, EmplaceFrom, SlotsOk, Settled, Shaped;
    var e := ElementAt(a, s).value;
    assert HoldsKey(a, s, e.key);
    ContentsAt(a, e.key);
    forall t | t in LiveBelow(a, k - 1) ensures !HoldsKey(a, t, e.key) {}
    assert e.key !in Contents(r);
    var r', t := EmplaceValid(r, e);
    CopiedOne(a, k, s, b, r, r');
  }

  lemma CopiedOne(a: Arrays, k: nat, s: Slot, b: Arrays, r: Arrays, r': Arrays)
    requires WellFormed(a) && UniqueKeys(a) && 0 < k && IsSlot(a, s) && ElementAt(a, s).Some?
    requires WellFormed(b) && ElementAt(a, s).value.key !in Contents(b)
    requires WellFormed(r) && WellFormed(r') && Copied(a, k - 1, b, r)
    requires LiveBelow(a, k) == LiveBelow(a, k - 1) + {s} && s !in LiveBelow(a, k - 1)
    requires |Live(r')| == |Live(r)| + 1
    requires Contents(r') == Contents(r)[ElementAt(a, s).value.key := ElementAt(a, s).value.value]
    ensures Copied(a, k, b, r')
  {
    hide WellFormed, Contents, Live, LiveBelow;
    var e := ElementAt(a, s).value;
    assert HoldsKey(a, s, e.key);
    forall key | key in Contents(b) ensures key in Contents(r') && Contents(r')[key] == Contents(b)[key] {
      assert key in Contents(r);
    }
    forall u, key | u in LiveBelow(a, k) && HoldsKey(a, u, key)
      ensures key in Contents(r') && Contents(r')[key] == ElementAt(a, u).value.value
    {
      if key == e.key {
        assert u == s;
      } else {
        assert u in LiveBelow(a, k - 1);
      }
    }
    forall key | key in Contents(r') && key !in Contents(b) ensures exists u :: u in LiveBelow(a, k) && HoldsKey(a, u, key) {
      if key != e.key {
        var u :| u in LiveBelow(a, k - 1) && HoldsKey(a, u, key);
        assert u in LiveBelow(a, k);
      } else {
        assert s in LiveBelow(a, k);
      }
    }
  }

  /** Moving all elements of a into b gives a table that holds both contents. */
  lemma TransferAll(a: Arrays, b: Arrays)
    requires Transferable(a, b)
    ensures var r := Transfer(a.elements, b);
      && Valid(r) && r.elements != [] && r.index == b.index
      && Contents(r) == Contents(a) + Contents(b) && |Live(r)| == |Live(a)| + |Live(b)|
  {
    var k := |a.elements|;
    assert a.elements[..k] == a.elements;
    TransferValid(a, k, b);
    LiveBelowAll(a);
    CopiedAll(a, b, Transfer(a.elements, b), k);
  }

  lemma LiveBelowAll(a: Arrays)
    requires WellFormed(a)
    ensures LiveBelow(a, |a.elements|) == Live(a)
  {
    forall s | s in Live(a) ensures s in LiveBelow(a, |a.elements|) { SlotInAll(a, s); SlotBelow(a, s); }
  }

  /** Rehashing into fresh arrays with enough slots keeps the table and its contents. */
  lemma RehashValid(a: Arrays, b: Arrays)
    requires Valid(a)
    requires Valid(b) && b.elements != [] && Live(b) == {} && Contents(b) == map[] && |Live(a)| <= Capacity(b)
    ensures Shaped(b)
    ensures var r := Transfer(a.elements, b);
      Valid(r) && r.elements != [] && r.index == b.index && Contents(r) == Contents(a) && |Live(r)| == |Live(a)|
  {
    EmptyTransferable(a, b);
    hide *;
    TransferAll(a, b);
    assert Contents(a) + map[] == Contents(a);
  }

  lemma EmptyTransferable(a: Arrays, b: Arrays)
    requires Valid(a)
    requires Valid(b) && b.elements != [] && Live(b) == {} && Contents(b) == map[] && |Live(a)| <= Capacity(b)
    ensures Transferable(a, b) && Shaped(b) && WellFormed(a) && WellFormed(b)
  {
    hide SlotsOk, UniqueKeys, Settled, Contents, Live;
  }

  lemma CopiedAll(a: Arrays, b: Arrays, r: Arrays, k: nat)
    requires WellFormed(a) && UniqueKeys(a) && WellFormed(b) && WellFormed(r) && LiveBelow(a, k) == Live(a) && Copied(a, k, b, r)
    requires Contents(a).Keys !! Contents(b).Keys
    ensures Contents(r) == Contents(a) + Contents(b)
  {
    hide WellFormed, Contents, Live, LiveBelow;
    forall key ensures key in Contents(r) <==> key in Contents(a) || key in Contents(b) {
      ContentsAt(a, key);
      if key in Contents(a) {
        var s :| HoldsKey(a, s, key);
        HeldKey(a, s, key);
        assert s in LiveBelow(a, k);
      }
    }
    forall key | key in Contents(a) ensures Contents(r)[key] == Contents(a)[key] {
      ContentsAt(a, key);
      var s :| HoldsKey(a, s, key);
      HeldKey(a, s, key);
      assert s in LiveBelow(a, k);
    }
  }
}
