/** The sequential table: a class over the arrays that refines a mathematical map. */
module TableCores {
  import opened SizePolicy
  import opened Pow2Arith
  import opened QuadraticProber
  import opened Groups
  import opened Arrays
  import opened Wrappers
  import opened ArrayLaws
  import opened TableStorage

  lemma CanGrowLess(size: nat, bound: nat)
    requires CanGrow(bound) && size <= bound
    ensures CanGrow(size)
  {
  }

  /** Emplace grows the table exactly when one more element would exceed a load of 7/8, as long as no erasure has lowered
      ml; and it does then take a larger capacity. */
  lemma GrowsAtLoad(a: Arrays, size: nat, ml: nat)
    requires Consistent(a, size, ml) && Capacity(a) > 29 && ml == InitialMaxLoad(Capacity(a)) && CanGrow(size)
    ensures size == ml <==> 8 * (size + 1) > 7 * Capacity(a)
    ensures size == ml ==> CapacityFor(GrowthRequest(size)) > Capacity(a)
  {
    LoadBounds(Capacity(a));
    GrowthSuffices(size);
    hide Valid, Live, Capacity, GrowthRequest, CapacityFor, CanGrow;
  }

  /** A table of more than two groups is never filled beyond 7/8. */
  lemma LoadKept(a: Arrays, size: nat, ml: nat)
    requires Consistent(a, size, ml) && Capacity(a) > 29
    ensures 8 * size <= 7 * Capacity(a) && 8 * ml <= 7 * Capacity(a)
  {
    LoadBounds(Capacity(a));
    hide Valid, Live, Capacity, InitialMaxLoad;
  }

  lemma ConsistentSize(a: Arrays, size: nat, ml: nat)
    requires Consistent(a, size, ml)
    ensures size == |Contents(a)| <= Capacity(a)
  {
    KeyCount(a);
  }

  /* ---------- going over all elements ---------- */

  /** match_really_occupied: the sentinel is not an element. */
  function ReallyOccupied(group: Group, last: bool): set<nat>
    requires |group.meta| == N
  {
    group.MatchOccupied() - if last then {N - 1} else {}
  }

  /** The mask names the elements of the group from slot m on. */
  ghost predicate Pending(a: Arrays, g: nat, m: nat, mask: set<nat>)
    requires WellFormed(a)
  {
    && a.elements != [] && g < |a.groups| && m <= N && 15 * g + m <= |a.elements|
    && forall n: nat :: n in mask <==> m <= n < N && IsSlot(a, Slot(g, n)) && ElementAt(a, Slot(g, n)).Some?
  }

  ghost predicate Blank(a: Arrays, i: nat, j: nat) {
    forall k :: i <= k < j && k < |a.elements| ==> a.elements[k] == None
  }

  /** First flat position after group g. */
  function EndOf(a: Arrays, g: nat): nat {
    if 15 * (g + 1) <= |a.elements| then 15 * (g + 1) else |a.elements|
  }

  lemma AllPending(a: Arrays, g: nat)
    requires Valid(a) && a.elements != [] && g < |a.groups|
    ensures Pending(a, g, 0, ReallyOccupied(a.groups[g], g == |a.groups| - 1))
  {
    forall n: nat | n < N && IsSlot(a, Slot(g, n))
      ensures a.groups[g].meta[n] != AVAILABLE <==> ElementAt(a, Slot(g, n)).Some?
    {
      assert SlotOk(a, Slot(g, n));
      assert Meta(a, Slot(g, n)) == a.groups[g].meta[n];
    }
    hide SlotsOk, UniqueKeys, Settled, SlotOk;
  }

  lemma NextPending(a: Arrays, g: nat, m: nat, mask: set<nat>) returns (n: nat)
    requires WellFormed(a) && Pending(a, g, m, mask) && mask != {}
    ensures n == Lowest(mask) && n in mask && m <= n < N && IsSlot(a, Slot(g, n)) && ElementAt(a, Slot(g, n)).Some?
    ensures Blank(a, 15 * g + m, 15 * g + n) && 15 * g + n < |a.elements| && a.elements[15 * g + n].Some?
    ensures Pending(a, g, n + 1, mask - {n})
  {
    n := Lowest(mask);
    var i :| i in mask;
    assert n in mask;
    BlankBefore(a, g, m, mask, n);
  }

  lemma BlankBefore(a: Arrays, g: nat, m: nat, mask: set<nat>, n: nat)
    requires WellFormed(a) && Pending(a, g, m, mask) && n <= N && forall k: nat :: k < n ==> k !in mask
    ensures Blank(a, 15 * g + m, 15 * g + n)
  {
    forall k | 15 * g + m <= k < 15 * g + n && k < |a.elements| ensures a.elements[k] == None {
      assert k - 15 * g !in mask && IsSlot(a, Slot(g, k - 15 * g));
      assert a.elements[k] == ElementAt(a, Slot(g, k - 15 * g));
    }
  }

  lemma NonePending(a: Arrays, g: nat, m: nat)
    requires WellFormed(a) && Pending(a, g, m, {})
    ensures Blank(a, 15 * g + m, EndOf(a, g)) && 15 * g + m <= EndOf(a, g)
  {
    BlankBefore(a, g, m, {}, N);
  }

  /* ---------- rehash ---------- */

  lemma {:induction false} TransferBlank(elements: seq<Option<Element>>, i: nat, j: nat, b: Arrays)
    requires Shaped(b) && i <= j <= |elements| && forall k :: i <= k < j ==> elements[k] == None
    ensures Transfer(elements[..j], b) == Transfer(elements[..i], b)
  {
    if i < j {
      TransferBlank(elements, i, j - 1, b);
      TransferUnfold(elements, j, b);
    }
  }

  /** r is b after the first k slots of a have been moved there. */
  ghost predicate Transferred(a: Arrays, k: nat, b: Arrays, r: Arrays) {
    Transferable(a, b) && k <= |a.elements| && r == Transfer(a.elements[..k], b)
  }

  lemma TransferredBlank(a: Arrays, i: nat, j: nat, b: Arrays, r: Arrays)
    requires Transferred(a, i, b, r) && i <= j <= |a.elements| && Blank(a, i, j)
    ensures Transferred(a, j, b, r)
  {
    TransferBlank(a.elements, i, j, b);
  }

  /** Moving one more element: the destination has room for it. */
  lemma TransferredRoom(a: Arrays, k: nat, b: Arrays, r: Arrays)
    requires Transferred(a, k, b, r) && k < |a.elements| && a.elements[k].Some?
    ensures Valid(r) && r.elements != [] && RoomFrom(r, a.elements[k].value.key.hash, 0)
  {
    hide EmplaceFrom, WellFormed, SlotsOk, UniqueKeys, Settled, Shaped, RoomFrom;
    TransferValid(a, k, b);
    var s := Slot(k / 15, k % 15);
    LiveBelowStep(a, k + 1, s);
    SettledOccupied(r);
    assert |Occupied(r)| < Capacity(r) by { hide Transfer; SameCapacity(b, r); }
    FreeSlotReached(r, a.elements[k].value.key.hash);
  }

  lemma SameCapacity(b: Arrays, r: Arrays)
    requires WellFormed(b) && WellFormed(r) && b.index == r.index && b.elements != [] && r.elements != []
    ensures Capacity(r) == Capacity(b)
  {
  }

  lemma TransferredOne(a: Arrays, k: nat, b: Arrays, r: Arrays, r': Arrays, slot: Slot)
    requires Transferred(a, k, b, r) && k < |a.elements| && a.elements[k].Some?
    requires Emplaced(r, a.elements[k].value, r', slot)
    ensures Transferred(a, k + 1, b, r')
  {
    hide Transferable, EmplaceFrom;
    assert Shaped(b) by { ShapedTarget(a, b); }
    TransferUnfold(a.elements, k + 1, b);
  }

  lemma ShapedTarget(a: Arrays, b: Arrays)
    requires Transferable(a, b)
    ensures Shaped(b) && Valid(a)
  {
  }

  /** nosize_transfer_element. */
  method TransferElement(from: TableArrays, to: TableArrays, k: nat, ghost b: Arrays, ghost i: nat)
    requires from.groups != to.groups && from.elements != to.elements
    requires Transferred(from.Value(), i, b, to.Value()) && i <= k < from.elements.Length
    requires Blank(from.Value(), i, k) && from.elements[k].Some?
    modifies to.groups, to.elements
    ensures Transferred(from.Value(), k + 1, b, to.Value())
  {
    ghost var a, r := from.Value(), to.Value();
    hide Transferred, Valid, Blank, EmplaceFrom, RoomFrom, Emplaced, Position;
    TransferredBlank(a, i, k, b, r);
    TransferredRoom(a, k, b, r);
    var e := from.elements[k].value;
    var slot := to.EmplaceAt(Position(e.key.hash, to.index), e);
    TransferredOne(a, k, b, r, to.Value(), slot);
  }

  /** The first m slots of group g of a, and all earlier groups, have been moved to b, giving r; mask is left. */
  ghost predicate Moving(a: Arrays, g: nat, m: nat, mask: set<nat>, b: Arrays, r: Arrays) {
    WellFormed(a) && Pending(a, g, m, mask) && Transferred(a, 15 * g + m, b, r)
  }

  lemma MovingStarts(a: Arrays, g: nat, b: Arrays, r: Arrays)
    requires a.elements != [] && g < |a.groups| && Transferred(a, 15 * g, b, r)
    ensures |a.groups[g].meta| == N && Moving(a, g, 0, ReallyOccupied(a.groups[g], g == |a.groups| - 1), b, r)
  {
    ShapedTarget(a, b);
    AllPending(a, g);
  }

  lemma MovingNext(a: Arrays, g: nat, m: nat, mask: set<nat>, b: Arrays, r: Arrays) returns (n: nat, k: nat)
    requires Moving(a, g, m, mask, b, r) && mask != {}
    ensures n == Lowest(mask) && k == 15 * g + n && n in mask && m <= n
    ensures k < |a.elements| && a.elements[k].Some? && Blank(a, 15 * g + m, k)
    ensures Transferred(a, 15 * g + m, b, r)
  {
    hide Transferred, WellFormed, Blank, Pending, Lowest, IsSlot, ElementAt;
    n := NextPending(a, g, m, mask);
    k := 15 * g + n;
  }

  lemma MovingOn(a: Arrays, g: nat, m: nat, mask: set<nat>, b: Arrays, r: Arrays, r': Arrays)
    requires Moving(a, g, m, mask, b, r) && mask != {} && Transferred(a, 15 * g + Lowest(mask) + 1, b, r')
    ensures Moving(a, g, Lowest(mask) + 1, mask - {Lowest(mask)}, b, r')
  {
    hide Transferred, WellFormed, Blank;
    var n := NextPending(a, g, m, mask);
  }

  lemma MovingEnds(a: Arrays, g: nat, m: nat, b: Arrays, r: Arrays)
    requires Moving(a, g, m, {}, b, r)
    ensures Transferred(a, EndOf(a, g), b, r)
  {
    NonePending(a, g, m);
    TransferredBlank(a, 15 * g + m, EndOf(a, g), b, r);
  }

  /** c holds what a and b hold, in arrays the size of b's, and ml is theirs. */
  ghost predicate RehashedTo(a: Arrays, b: Arrays, c: Arrays, ml: nat) {
    && WellFormed(a) && WellFormed(b) && Valid(c) && Capacity(c) == Capacity(b)
    && Contents(c) == Contents(a) + Contents(b) && |Live(c)| == |Live(a)| + |Live(b)|
    && ml == InitialMaxLoad(Capacity(c))
  }

  lemma NothingMoved(a: Arrays, b: Arrays)
    requires Transferable(a, b)
    ensures Transferred(a, 0, b, b) && Shaped(b) && Valid(a)
    ensures a.elements != [] ==> |a.elements| == 15 * |a.groups| - 1
  {
    assert a.elements[..0] == [];
  }

  lemma AllMoved(a: Arrays, b: Arrays, r: Arrays)
    requires Transferred(a, |a.elements|, b, r)
    ensures r == Transfer(a.elements, b)
  {
    assert a.elements[..|a.elements|] == a.elements;
  }

  /** Moves the next pending element of the group. */
  method TransferNext(from: TableArrays, to: TableArrays, g: nat, mask: set<nat>, ghost m: nat, ghost b: Arrays) returns (n: nat)
    requires from.groups != to.groups && from.elements != to.elements
    requires mask != {} && Moving(from.Value(), g, m, mask, b, to.Value())
    modifies to.groups, to.elements
    ensures n in mask && Moving(from.Value(), g, n + 1, mask - {n}, b, to.Value())
  {
    hide Moving, Transferred, Blank;
    ghost var n', k := MovingNext(from.Value(), g, m, mask, b, to.Value());
    ghost var r := to.Value();
    n := Lowest(mask);
    TransferElement(from, to, 15 * g + n, b, 15 * g + m);
    MovingOn(from.Value(), g, m, mask, b, r, to.Value());
  }

  /** The elements of one group. */
  method TransferGroup(from: TableArrays, to: TableArrays, g: nat, ghost b: Arrays)
    requires from.groups != to.groups && from.elements != to.elements
    requires 0 < from.elements.Length && g < from.groups.Length
    requires Transferred(from.Value(), 15 * g, b, to.Value())
    modifies to.groups, to.elements
    ensures Transferred(from.Value(), EndOf(from.Value(), g), b, to.Value())
  {
    ghost var a := from.Value();
    MovingStarts(a, g, b, to.Value());
    var mask := ReallyOccupied(from.groups[g], g == from.groups.Length - 1);
    ghost var m: nat := 0;
    hide Moving, Transferred;
    while mask != {}
      invariant Moving(from.Value(), g, m, mask, b, to.Value())
    {
      var n := TransferNext(from, to, g, mask, m, b);
      mask := mask - {n};
      m := n + 1;
    }
    MovingEnds(from.Value(), g, m, b, to.Value());
  }

  /* ---------- insertion ---------- */

  lemma EmplaceRoom(a: Arrays, size: nat, ml: nat, hash: Hash)
    requires Consistent(a, size, ml) && size < ml
    ensures WellFormed(a) && a.elements != [] && RoomFrom(a, hash, 0)
  {
    SettledOccupied(a);
    FreeSlotReached(a, hash);
  }

  lemma EmplacedConsistent(a: Arrays, size: nat, ml: nat, e: Element, b: Arrays, s: Slot)
    requires Consistent(a, size, ml) && size < ml && e.key !in Contents(a) && Emplaced(a, e, b, s)
    ensures Consistent(b, size + 1, ml) && Contents(b) == Contents(a)[e.key := e.value]
  {
    hide EmplaceFrom;
    var b', s' := EmplaceValid(a, e);
    SameCapacity(a, b);
  }

  /** Arrays allocated for growth have room for the element to insert. */
  lemma GrownRoom(size: nat, b: Arrays, e: Element)
    requires CanGrow(size) && b == NewArrays(GrowthRequest(size))
    ensures Valid(b) && b.elements != [] && RoomFrom(b, e.key.hash, 0)
    ensures Live(b) == {} && Contents(b) == map[] && size + 1 <= InitialMaxLoad(Capacity(b))
    ensures Capacity(b) == CapacityFor(GrowthRequest(size))
  {
    NewValid(GrowthRequest(size));
    GrowthSuffices(size);
    assert b.elements != [];
    hide WellFormed, NewArrays, CapacityFor, GrowthRequest;
    SettledOccupied(b);
    FreeSlotReached(b, e.key.hash);
  }

  lemma GrownFirst(a: Arrays, size: nat, ml: nat, b: Arrays, e: Element, b': Arrays, s: Slot)
    requires Consistent(a, size, ml) && e.key !in Contents(a)
    requires Valid(b) && b.elements != [] && Live(b) == {} && Contents(b) == map[] && Emplaced(b, e, b', s)
    requires size + 1 <= InitialMaxLoad(Capacity(b))
    ensures Transferable(a, b') && WellFormed(b') && Capacity(b') == Capacity(b)
    ensures Contents(b') == map[e.key := e.value] && |Live(b')| == 1
  {
    hide EmplaceFrom;
    var c, t := EmplaceValid(b, e);
    SameCapacity(b, b');
    assert Shaped(b');
  }

  lemma GrownConsistent(a: Arrays, size: nat, ml: nat, b: Arrays, e: Element, c: Arrays, ml': nat)
    requires Consistent(a, size, ml) && RehashedTo(a, b, c, ml')
    requires |Live(b)| == 1 && Contents(b) == map[e.key := e.value] && size + 1 <= InitialMaxLoad(Capacity(b))
    ensures Consistent(c, size + 1, ml') && Contents(c) == Contents(a)[e.key := e.value]
  {
    hide Valid, WellFormed, Contents, Live, Capacity, InitialMaxLoad;
    assert Contents(a) + map[e.key := e.value] == Contents(a)[e.key := e.value];
  }

  /* ---------- rehash ---------- */

  /** Element slots asked for by rehash(n): at least what the elements need. */
  function Needed(n: nat, size: nat): nat {
    if LoadFor(size) > n then LoadFor(size) else n
  }

  /** The capacity chosen by rehash(n): none for an empty table and n = 0. */
  function RehashCapacity(n: nat, size: nat): nat
    requires Needed(n, size) / N + 1 <= Pow2(BITS - 1)
  {
    if Needed(n, size) == 0 then 0 else CapacityFor(Needed(n, size))
  }

  /** rehash(n) chooses the least permissible capacity that has n slots and holds the elements at a load of 7/8; nothing is
      allocated only for an empty table and n = 0. */
  lemma RehashLeast(n: nat, size: nat)
    requires Needed(n, size) / N + 1 <= Pow2(BITS - 1)
    ensures RehashCapacity(n, size) == 0 <==> n == 0 && size == 0
    ensures RehashCapacity(n, size) >= n && 7 * RehashCapacity(n, size) >= 8 * size
    ensures forall index :: IsSizeIndex(index) && SizeCapacity(index) >= n && 7 * SizeCapacity(index) >= 8 * size ==>
      RehashCapacity(n, size) <= SizeCapacity(index)
  {
    NeededFits(n, size);
    CapacityLeast(Needed(n, size));
    LoadLeast(size);
    hide CapacityFor, LoadFor, SizeCapacity, InitialMaxLoad;
  }

  /** The capacity chosen by rehash is stable and holds the elements below its maximum load. */
  lemma NeededFits(n: nat, size: nat)
    requires Needed(n, size) / N + 1 <= Pow2(BITS - 1)
    ensures var c := CapacityFor(Needed(n, size));
      0 < c && c / N + 1 <= Pow2(BITS - 1) && c == CapacityFor(c) && Needed(n, size) <= c && size <= InitialMaxLoad(c)
  {
    CapacityIdempotent(Needed(n, size));
    CapacityLeast(Needed(n, size));
    assert Pow2(1) == 2;
    Pow2Monotone(1, BITS - SizeIndexFor(Needed(n, size)));
  }

  lemma EmptyTarget(a: Arrays, size: nat, ml: nat, n: nat, b: Arrays)
    requires Consistent(a, size, ml) && 0 < n && n / N + 1 <= Pow2(BITS - 1) && n == CapacityFor(n)
    requires size <= InitialMaxLoad(n) && b == NewArrays(n)
    ensures Transferable(a, b) && Valid(b) && Live(b) == {} && Contents(b) == map[] && Capacity(b) == n
  {
    NewValid(n);
    assert Shaped(b) && b.elements != [];
  }

  lemma RehashedConsistent(a: Arrays, size: nat, ml: nat, b: Arrays, c: Arrays, ml': nat)
    requires Consistent(a, size, ml) && RehashedTo(a, b, c, ml')
    requires Valid(b) && Live(b) == {} && Contents(b) == map[] && size <= InitialMaxLoad(Capacity(b))
    ensures Consistent(c, size, ml') && Contents(c) == Contents(a) && Capacity(c) == Capacity(b) && ml' == InitialMaxLoad(Capacity(b))
  {
    hide Valid, WellFormed, Contents, Live, Capacity, InitialMaxLoad;
    assert Contents(a) + map[] == Contents(a);
  }

  lemma EmptyMap(a: Arrays, size: nat, ml: nat)
    requires Consistent(a, size, ml)
    ensures Valid(a) && (LoadFor(size) == 0 ==> size == 0 && Contents(a) == map[])
  {
    KeyCount(a);
  }

  lemma ReserveLoad(n: nat, size: nat)
    requires Needed(LoadFor(n), size) / N + 1 <= Pow2(BITS - 1)
    ensures Needed(LoadFor(n), size) == LoadFor(if n < size then size else n)
    ensures Needed(LoadFor(n), size) > 0 ==> InitialMaxLoad(CapacityFor(Needed(LoadFor(n), size))) >= n
    ensures Needed(LoadFor(n), size) == 0 ==> n == 0
  {
    ReserveSuffices(if n < size then size else n);
  }

  /* ---------- clear ---------- */

  /** Of a, groups below g have been wiped and the elements before flat position k destroyed. */
  ghost predicate Wiped(a: Arrays, g: nat, k: nat, b: Arrays) {
    && b.index == a.index && |b.groups| == |a.groups| && |b.elements| == |a.elements|
    && (forall i :: 0 <= i < |b.groups| ==> b.groups[i] == if i < g then EMPTY_GROUP else a.groups[i])
    && (forall i :: 0 <= i < |b.elements| ==> b.elements[i] == if i < k then None else a.elements[i])
  }

  ghost predicate Clearing(a: Arrays, g: nat, b: Arrays) {
    Valid(a) && a.elements != [] && |a.elements| == 15 * |a.groups| - 1 && Wiped(a, g, 15 * g, b)
  }

  ghost predicate ClearingWithin(a: Arrays, g: nat, m: nat, mask: set<nat>, b: Arrays) {
    WellFormed(a) && Pending(a, g, m, mask) && Wiped(a, g, 15 * g + m, b)
  }

  lemma ClearingStarts(a: Arrays, size: nat, ml: nat)
    requires Consistent(a, size, ml)
    ensures a.elements != [] ==> Clearing(a, 0, a)
    ensures a.elements == [] ==> Contents(a) == map[] && size == 0 && ml == InitialMaxLoad(Capacity(a))
  {
    hide SlotsOk, UniqueKeys, Settled;
    if a.elements == [] {
      assert Live(a) == {};
      assert Keys(a) == {};
    }
  }

  lemma ClearingGroup(a: Arrays, g: nat, b: Arrays)
    requires Clearing(a, g, b) && g < |b.groups|
    ensures |b.groups[g].meta| == N && ClearingWithin(a, g, 0, ReallyOccupied(b.groups[g], g == |b.groups| - 1), b)
  {
    AllPending(a, g);
  }

  lemma ClearingNext(a: Arrays, g: nat, m: nat, mask: set<nat>, b: Arrays, b': Arrays)
    requires ClearingWithin(a, g, m, mask, b) && mask != {}
    requires 15 * g + Lowest(mask) < |b.elements| ==> b' == b.(elements := b.elements[15 * g + Lowest(mask) := None])
    ensures Lowest(mask) in mask && 15 * g + Lowest(mask) < |b.elements|
    ensures ClearingWithin(a, g, Lowest(mask) + 1, mask - {Lowest(mask)}, b')
  {
    hide WellFormed, Pending;
    var n := NextPending(a, g, m, mask);
  }

  lemma ClearingRest(a: Arrays, g: nat, m: nat, b: Arrays, b': Arrays)
    requires Valid(a) && a.elements != [] && |a.elements| == 15 * |a.groups| - 1
    requires ClearingWithin(a, g, m, {}, b) && g < |b.groups| && b' == b.(groups := b.groups[g := EMPTY_GROUP])
    ensures Clearing(a, g + 1, b')
  {
    NonePending(a, g, m);
    hide Valid, WellFormed, Pending;
  }

  lemma ClearingAll(a: Arrays, b: Arrays)
    requires Clearing(a, |b.groups|, b)
    ensures |b.groups| == |a.groups| > 0 && |b.groups[|b.groups| - 1].meta| == N
  {
  }

  /** Wiping every group and setting the sentinel again leaves an empty table. */
  lemma ClearedTable(a: Arrays, b: Arrays, b': Arrays)
    requires Clearing(a, |a.groups|, b) && |b.groups| > 0
    requires var g := |b.groups| - 1; |b.groups[g].meta| == N && b' == b.(groups := b.groups[g := b.groups[g].SetSentinel()])
    ensures Consistent(b', 0, InitialMaxLoad(Capacity(a))) && Contents(b') == map[] && Capacity(b') == Capacity(a)
  {
    assert WellFormed(a);
    hide SlotsOk, UniqueKeys, Settled;
    assert b'.groups == FreshGroups(|b'.groups|);
    FreshValid(b');
  }

  class TableCore {
    var arrays: TableArrays
    var size: nat
    var ml: nat

    ghost function Value(): Arrays
      reads this, arrays.groups, arrays.elements
    {
      arrays.Value()
    }

    ghost predicate Holds()
      reads this, arrays.groups, arrays.elements
    {
      Consistent(Value(), size, ml)
    }

    ghost function Map(): map<Key, int>
      reads this, arrays.groups, arrays.elements
      requires Holds()
    {
      Contents(Value())
    }

    constructor (n: nat)
      requires n / N + 1 <= Pow2(BITS - 1)
      ensures Holds() && Map() == map[] && fresh(arrays) && fresh(arrays.groups) && fresh(arrays.elements)
      ensures size == 0 && Value() == NewArrays(n) && ml == InitialMaxLoad(Capacity(Value()))
    {
      arrays := new TableArrays(n);
      size, ml := 0, 0;
      new;
      NewValid(n);
      hide NewArrays, Valid;
      var capacity := CapacityNow();
      ml := InitialMaxLoad(capacity);
    }

    method CapacityNow() returns (capacity: nat)
      requires Valid(Value())
      ensures capacity == Capacity(Value())
    {
      capacity := if arrays.elements.Length != 0 then arrays.groups.Length * N - 1 else 0;
    }

    /** recover_slot: ml is lowered if the element may have caused overflow. */
    method RecoverSlot(slot: Slot)
      requires slot.g < arrays.groups.Length && slot.n < |arrays.groups[slot.g].meta| && size > 0
      requires arrays.groups[slot.g].MaybeCausedOverflow(slot.n) ==> ml > 0
      modifies this, arrays.groups
      ensures arrays == old(arrays) && size == old(size) - 1
      ensures ml == old(ml) - if old(arrays.groups[slot.g]).MaybeCausedOverflow(slot.n) then 1 else 0
      ensures Value() == old(Value()).(groups := old(arrays.groups[..])[slot.g := old(arrays.groups[slot.g]).Reset(slot.n)])
    {
      ml := ml - if arrays.groups[slot.g].MaybeCausedOverflow(slot.n) then 1 else 0;
      arrays.groups[slot.g] := arrays.groups[slot.g].Reset(slot.n);
      size := size - 1;
    }

    /** Erases the element in a slot. */
    method Erase(slot: Slot, ghost k: Key)
      requires Holds() && HoldsKey(Value(), slot, k)
      modifies this, arrays.groups, arrays.elements
      ensures Holds() && arrays == old(arrays) && Map() == old(Map()) - {k} && size == old(size) - 1
      ensures Value() == Erased(old(Value()), slot)
      ensures ml == old(ml) - if old(arrays.groups[slot.g]).MaybeCausedOverflow(slot.n) then 1 else 0
    {
      ghost var a := Value();
      EraseValid(a, slot);
      HeldKey(a, slot, k);
      arrays.elements[15 * slot.g + slot.n] := None;
      RecoverSlot(slot);
      assert Value() == Erased(a, slot);
      hide Valid;
    }

    /* ---------- rehash ---------- */

    /** unchecked_rehash: all elements move to the given arrays, which become the table's. */
    method UncheckedRehash(to: TableArrays)
      requires Valid(Value()) && Transferable(Value(), to.Value())
      requires arrays.groups != to.groups && arrays.elements != to.elements
      modifies this, to.groups, to.elements
      ensures arrays == to && size == old(size) && RehashedTo(old(Value()), old(to.Value()), Value(), ml)
    {
      ghost var a, b := Value(), to.Value();
      TransferAll(a, b);
      SameCapacity(b, Transfer(a.elements, b));
      NothingMoved(a, b);
      hide Transferable, Valid, Transfer;
      if arrays.elements.Length != 0 {
        var g := 0;
        while g < arrays.groups.Length
          invariant g <= arrays.groups.Length && arrays == old(arrays) && size == old(size) && arrays.Value() == a
          invariant Transferred(a, if 15 * g <= |a.elements| then 15 * g else |a.elements|, b, to.Value())
        {
          TransferGroup(arrays, to, g, b);
          g := g + 1;
        }
      }
      AllMoved(a, b, to.Value());
      arrays := to;
      var capacity := CapacityNow();
      ml := InitialMaxLoad(capacity);
    }

    /* ---------- insertion ---------- */

    /** new_arrays_for_growth, with the new element put in first. */
    method NewArraysWith(e: Element) returns (to: TableArrays)
      requires Holds() && CanGrow(size) && e.key !in Map()
      ensures fresh(to) && fresh(to.groups) && fresh(to.elements)
      ensures Transferable(Value(), to.Value()) && WellFormed(to.Value()) && |Live(to.Value())| == 1
      ensures Contents(to.Value()) == map[e.key := e.value] && size + 1 <= InitialMaxLoad(Capacity(to.Value()))
      ensures Capacity(to.Value()) == CapacityFor(GrowthRequest(size))
    {
      to := new TableArrays(GrowthRequest(size));
      ghost var b := to.Value();
      GrownRoom(size, b, e);
      hide Valid, Consistent, CanGrow, NewArrays, RoomFrom, Emplaced, GrowthRequest, InitialMaxLoad, TableArrays.Value;
      var slot := to.EmplaceAt(Position(e.key.hash, to.index), e);
      GrownFirst(Value(), size, ml, b, e, to.Value(), slot);
    }

    /** unchecked_emplace_with_rehash. */
    method EmplaceWithRehash(e: Element)
      requires Holds() && CanGrow(size) && e.key !in Map()
      modifies this
      ensures Holds() && fresh(arrays) && fresh(arrays.groups) && fresh(arrays.elements)
      ensures Map() == old(Map())[e.key := e.value] && size == old(size) + 1
      ensures Capacity(Value()) == CapacityFor(GrowthRequest(old(size))) && ml == InitialMaxLoad(Capacity(Value()))
    {
      ghost var a := Value();
      var to := NewArraysWith(e);
      ghost var b := to.Value();
      hide Transferable, Consistent, Valid, CanGrow, InitialMaxLoad, RehashedTo, TableArrays.Value;
      UncheckedRehash(to);
      GrownConsistent(a, old(size), old(ml), b, e, Value(), ml);
      size := size + 1;
    }

    /** unprotected_emplace: inserts unless the key is there already. */
    method Emplace(e: Element) returns (inserted: bool)
      requires Holds() && (size < ml || CanGrow(size))
      modifies this, arrays.groups, arrays.elements
      ensures Holds()
      ensures arrays == old(arrays) || (fresh(arrays) && fresh(arrays.groups) && fresh(arrays.elements))
      ensures inserted <==> e.key !in old(Map())
      ensures Map() == if inserted then old(Map())[e.key := e.value] else old(Map())
      ensures size == old(size) + if inserted then 1 else 0
      ensures !inserted ==> arrays == old(arrays) && Value() == old(Value()) && ml == old(ml)
      ensures inserted && old(size) < old(ml) ==>
        arrays == old(arrays) && ml == old(ml) && EmplacedSomewhere(old(Value()), e, Value())
      ensures inserted && old(size) == old(ml) ==>
        Capacity(Value()) == CapacityFor(GrowthRequest(old(size))) && ml == InitialMaxLoad(Capacity(Value()))
      ensures Capacity(Value()) == old(Capacity(Value())) || (inserted && old(size) == old(ml))
    {
      ghost var a := Value();
      var loc := arrays.Find(e.key);
      hide Valid, Consistent;
      if loc.Some? {
        return false;
      }
      if size < ml {
        EmplaceRoom(a, size, ml, e.key.hash);
        var slot := arrays.EmplaceAt(Position(e.key.hash, arrays.index), e);
        EmplacedConsistent(a, size, ml, e, Value(), slot);
        size := size + 1;
      } else {
        EmplaceWithRehash(e);
      }
      inserted := true;
    }

    /* ---------- rehash, reserve, clear ---------- */

    /** With no elements to move, unchecked_rehash(0) just drops the storage. */
    method DropStorage()
      requires Holds() && size == 0
      modifies this
      ensures Holds() && fresh(arrays) && fresh(arrays.groups) && fresh(arrays.elements)
      ensures Map() == map[] && size == 0 && ml == 0 && Capacity(Value()) == 0
    {
      arrays := new TableArrays(0);
      NewValid(0);
      hide Valid, NewArrays;
      ml := 0;
    }

    /** unchecked_rehash(n) for a positive capacity that the elements fit in. */
    method RehashTo(n: nat)
      requires Holds() && 0 < n && n / N + 1 <= Pow2(BITS - 1) && n == CapacityFor(n) && size <= InitialMaxLoad(n)
      modifies this
      ensures Holds() && Map() == old(Map()) && size == old(size)
      ensures Capacity(Value()) == n && ml == InitialMaxLoad(n)
      ensures fresh(arrays) && fresh(arrays.groups) && fresh(arrays.elements)
    {
      ghost var a := Value();
      var to := new TableArrays(n);
      ghost var b := to.Value();
      EmptyTarget(a, size, ml, n, b);
      hide Transferable, Consistent, Valid, CapacityFor, InitialMaxLoad, RehashedTo, TableArrays.Value, NewArrays;
      UncheckedRehash(to);
      RehashedConsistent(a, size, old(ml), b, Value(), ml);
    }

    /** rehash: room for n elements slots, or as few as the elements need. ml is reset only if the capacity changes. */
    method Rehash(n: nat)
      requires Holds() && Needed(n, size) / N + 1 <= Pow2(BITS - 1)
      modifies this
      ensures Holds() && Map() == old(Map()) && size == old(size)
      ensures Capacity(Value()) == RehashCapacity(n, size)
      ensures arrays == old(arrays) || (fresh(arrays) && fresh(arrays.groups) && fresh(arrays.elements))
      ensures ml == if Capacity(Value()) == old(Capacity(Value())) then old(ml) else InitialMaxLoad(Capacity(Value()))
    {
      EmptyMap(Value(), size, ml);
      NeededFits(n, size);
      hide Valid, Consistent, CapacityFor, InitialMaxLoad, Capacity, TableArrays.Value;
      var m := LoadFor(size);
      var wanted := if m > n then m else n;
      if wanted != 0 {
        wanted := CapacityFor(wanted);
      }
      var capacity := CapacityNow();
      if wanted != capacity {
        if wanted == 0 {
          DropStorage();
        } else {
          RehashTo(wanted);
        }
      }
    }

    /** reserve. Whether n elements fit below the maximum load afterwards can be told beforehand: if the capacity is what
        rehash would choose already, ml stays where earlier erasures have left it. */
    method Reserve(n: nat)
      requires Holds() && Needed(LoadFor(n), size) / N + 1 <= Pow2(BITS - 1)
      modifies this
      ensures Holds() && Map() == old(Map()) && size == old(size)
      ensures arrays == old(arrays) || (fresh(arrays) && fresh(arrays.groups) && fresh(arrays.elements))
      ensures Capacity(Value()) == RehashCapacity(LoadFor(n), old(size))
      ensures ml == if RehashCapacity(LoadFor(n), old(size)) == old(Capacity(Value())) then old(ml) else InitialMaxLoad(Capacity(Value()))
      ensures ml >= n <==> RehashCapacity(LoadFor(n), old(size)) != old(Capacity(Value())) || old(ml) >= n
    {
      ReserveLoad(n, size);
      hide Consistent, Valid, CapacityFor, InitialMaxLoad, Capacity, LoadFor, TableArrays.Value;
      Rehash(LoadFor(n));
    }

    /** Destroys the elements of a group and wipes its metadata. */
    method ClearGroup(g: nat, ghost a: Arrays)
      requires g < arrays.groups.Length && Clearing(a, g, arrays.Value())
      modifies arrays.groups, arrays.elements
      ensures Clearing(a, g + 1, arrays.Value())
    {
      ClearingGroup(a, g, arrays.Value());
      var mask := ReallyOccupied(arrays.groups[g], g == arrays.groups.Length - 1);
      ghost var m: nat := 0;
      while mask != {}
        invariant ClearingWithin(a, g, m, mask, arrays.Value())
      {
        hide ClearingWithin;
        ghost var b := arrays.Value();
        var n := Lowest(mask);
        ClearingNext(a, g, m, mask, b, b.(elements := if 15 * g + n < |b.elements| then b.elements[15 * g + n := None] else []));
        arrays.elements[15 * g + n] := None;
        assert arrays.Value() == b.(elements := b.elements[15 * g + n := None]);
        mask := mask - {n};
        m := n + 1;
      }
      ghost var b := arrays.Value();
      arrays.groups[g] := EMPTY_GROUP;
      assert arrays.Value() == b.(groups := b.groups[g := EMPTY_GROUP]);
      ClearingRest(a, g, m, b, arrays.Value());
    }

    /** clear: the overflow bytes go, too, and the maximum load is restored. */
    method Clear()
      requires Holds()
      modifies this, arrays.groups, arrays.elements
      ensures Holds() && Map() == map[] && size == 0 && arrays == old(arrays)
      ensures Capacity(Value()) == old(Capacity(Value())) && ml == InitialMaxLoad(Capacity(Value()))
    {
      ghost var a := Value();
      ClearingStarts(a, size, ml);
      hide Clearing, Valid, Consistent;
      if arrays.elements.Length != 0 {
        var g := 0;
        while g < arrays.groups.Length
          invariant g <= arrays.groups.Length && arrays == old(arrays) && Clearing(a, g, arrays.Value())
        {
          ClearGroup(g, a);
          g := g + 1;
        }
        ClearingAll(a, arrays.Value());
        ghost var b := arrays.Value();
        arrays.groups[arrays.groups.Length - 1] := arrays.groups[arrays.groups.Length - 1].SetSentinel();
        ClearedTable(a, b, arrays.Value());
        var capacity := CapacityNow();
        ml := InitialMaxLoad(capacity);
        size := 0;
      }
    }
  }
}
