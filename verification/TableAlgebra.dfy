/** Operations on two tables: equality and merging. */
module TableAlgebra {
  import opened SizePolicy
  import opened Groups
  import opened Arrays
  import opened Wrappers
  import opened ArrayLaws
  import opened TableStorage
  import opened TableCores

  /* ---------- equality ---------- */

  /** The elements in the first k slots of a are in m, with the same values. */
  ghost predicate Agrees(a: Arrays, k: nat, m: map<Key, int>)
    requires WellFormed(a)
  {
    forall s :: s in LiveBelow(a, k) ==>
      var e := ElementAt(a, s).value; e.key in m && m[e.key] == e.value
  }

  /** The comparison has come to slot m of group g. */
  ghost predicate Comparing(a: Arrays, g: nat, m: nat, mask: set<nat>, other: map<Key, int>) {
    Valid(a) && Pending(a, g, m, mask) && Agrees(a, 15 * g + m, other)
  }

  lemma LiveBelowBlank(a: Arrays, i: nat, j: nat)
    requires WellFormed(a) && i <= j <= |a.elements| && Blank(a, i, j)
    ensures LiveBelow(a, j) == LiveBelow(a, i)
  {
    hide WellFormed;
    forall s | s in LiveBelow(a, j) ensures s in LiveBelow(a, i) {
      assert ElementAt(a, s) == a.elements[15 * s.g + s.n];
    }
  }

  lemma LiveBelowNext(a: Arrays, k: nat) returns (s: Slot)
    requires WellFormed(a) && a.elements != [] && k < |a.elements| && a.elements[k].Some?
    ensures s in LiveBelow(a, k + 1) && s !in LiveBelow(a, k) && LiveBelow(a, k + 1) == LiveBelow(a, k) + {s}
    ensures IsSlot(a, s) && ElementAt(a, s) == a.elements[k] && HoldsKey(a, s, a.elements[k].value.key)
  {
    s := Slot(k / 15, k % 15);
    LiveBelowStep(a, k + 1, s);
  }

  lemma ComparingStarts(a: Arrays, g: nat, other: map<Key, int>)
    requires Valid(a) && a.elements != [] && g < |a.groups| && Agrees(a, 15 * g, other)
    ensures |a.groups[g].meta| == N && Comparing(a, g, 0, ReallyOccupied(a.groups[g], g == |a.groups| - 1), other)
  {
    AllPending(a, g);
  }

  /** The next element decides: either it agrees, too, or the contents differ. */
  lemma ComparingNext(a: Arrays, g: nat, m: nat, mask: set<nat>, other: map<Key, int>) returns (k: nat)
    requires Comparing(a, g, m, mask, other) && mask != {}
    ensures Lowest(mask) in mask && k == 15 * g + Lowest(mask) < |a.elements| && a.elements[k].Some?
    ensures var e := a.elements[k].value;
      if e.key in other && other[e.key] == e.value then Comparing(a, g, Lowest(mask) + 1, mask - {Lowest(mask)}, other)
      else Contents(a) != other
  {
    hide Pending, WellFormed, SlotsOk, Settled, Lowest, Blank, Live;
    var n := NextPending(a, g, m, mask);
    k := 15 * g + n;
    LiveBelowBlank(a, 15 * g + m, k);
    var s := LiveBelowNext(a, k);
    ContentsAt(a, a.elements[k].value.key);
  }

  lemma ComparingEnds(a: Arrays, g: nat, m: nat, other: map<Key, int>)
    requires Comparing(a, g, m, {}, other)
    ensures Agrees(a, EndOf(a, g), other)
  {
    NonePending(a, g, m);
    LiveBelowBlank(a, 15 * g + m, EndOf(a, g));
  }

  /** Agreement of all elements and equal sizes decide equality. */
  lemma AgreesAll(a: Arrays, other: map<Key, int>)
    requires Valid(a) && Agrees(a, |a.elements|, other) && |Contents(a)| == |other|
    ensures Contents(a) == other
  {
    LiveBelowAll(a);
    hide WellFormed, SlotsOk, Settled, LiveBelow, Live;
    forall k | k in Contents(a) ensures k in other && other[k] == Contents(a)[k] {
      ContentsAt(a, k);
      var s :| HoldsKey(a, s, k);
      HeldKey(a, s, k);
      assert s in LiveBelow(a, |a.elements|);
    }
    SubmapEqual(Contents(a), other);
  }

  lemma SubmapEqual(m: map<Key, int>, other: map<Key, int>)
    requires |m| == |other| && forall k :: k in m ==> k in other && other[k] == m[k]
    ensures m == other
  {
    assert m.Keys <= other.Keys;
    ProperSmaller(m.Keys, other.Keys);
  }

  lemma {:induction false} ProperSmaller(a: set<Key>, b: set<Key>)
    requires a <= b && |a| == |b|
    ensures a == b
  {
    if a != {} {
      var x :| x in a;
      ProperSmaller(a - {x}, b - {x});
    }
  }

  /** Whether the table maps the element's key to the element's value. */
  method Matches(y: TableCore, e: Element) returns (same: bool)
    requires y.Holds()
    ensures same <==> e.key in y.Map() && y.Map()[e.key] == e.value
  {
    var loc := y.arrays.Find(e.key);
    if loc.None? {
      return false;
    }
    ContentsAt(y.Value(), e.key);
    same := y.arrays.elements[15 * loc.value.g + loc.value.n].value.value == e.value;
  }

  /** Compares the next pending element of the group. */
  method EqualNext(x: TableCore, y: TableCore, g: nat, mask: set<nat>, ghost m: nat) returns (same: bool, n: nat)
    requires x.Holds() && y.Holds() && mask != {} && Comparing(x.Value(), g, m, mask, y.Map())
    ensures n in mask && if same then Comparing(x.Value(), g, n + 1, mask - {n}, y.Map()) else x.Map() != y.Map()
  {
    hide Comparing, Consistent, Contents;
    ghost var k := ComparingNext(x.Value(), g, m, mask, y.Map());
    n := Lowest(mask);
    same := Matches(y, x.arrays.elements[15 * g + n].value);
  }

  method EqualGroup(x: TableCore, y: TableCore, g: nat) returns (same: bool)
    requires x.Holds() && y.Holds() && x.arrays.elements.Length > 0 && g < x.arrays.groups.Length
    requires Agrees(x.Value(), 15 * g, y.Map())
    ensures if same then Agrees(x.Value(), EndOf(x.Value(), g), y.Map()) else x.Map() != y.Map()
  {
    ghost var a, other := x.Value(), y.Map();
    ComparingStarts(a, g, other);
    var mask := ReallyOccupied(x.arrays.groups[g], g == x.arrays.groups.Length - 1);
    ghost var m: nat := 0;
    hide Comparing, Consistent, Contents, Agrees;
    while mask != {}
      invariant Comparing(a, g, m, mask, other)
    {
      var n;
      same, n := EqualNext(x, y, g, mask, m);
      if !same {
        return;
      }
      mask := mask - {n};
      m := n + 1;
    }
    ComparingEnds(a, g, m, other);
    same := true;
  }

  /** operator==: equal sizes, and every element of x found in y. */
  method Equal(x: TableCore, y: TableCore) returns (same: bool)
    requires x.Holds() && y.Holds()
    ensures same <==> x.Map() == y.Map()
  {
    ghost var a := x.Value();
    ConsistentSize(a, x.size, x.ml);
    ConsistentSize(y.Value(), y.size, y.ml);
    ComparableDimensions(a, y.Map());
    hide Valid, Consistent, Contents, Agrees;
    same := x.size == y.size;
    if same && x.arrays.elements.Length != 0 {
      var g := 0;
      while g < x.arrays.groups.Length
        invariant g <= x.arrays.groups.Length
        invariant Agrees(a, if 15 * g <= |a.elements| then 15 * g else |a.elements|, y.Map())
      {
        same := EqualGroup(x, y, g);
        if !same {
          return;
        }
        g := g + 1;
      }
    }
    if same {
      AgreesAll(a, y.Map());
    }
  }

  lemma ComparableDimensions(a: Arrays, other: map<Key, int>)
    requires Valid(a)
    ensures Agrees(a, 0, other)
    ensures a.elements != [] ==> |a.elements| == 15 * |a.groups| - 1
  {
  }

  /* ---------- merge ---------- */

  ghost function DoneKeys(a: Arrays, k: nat): set<Key>
    requires WellFormed(a)
  {
    set s | s in LiveBelow(a, k) :: ElementAt(a, s).value.key
  }

  /** Once the keys in done have been dealt with, t holds the target and those keys, and x has kept the others
      and those the target had. */
  ghost predicate MergedMaps(target: map<Key, int>, source: map<Key, int>, done: set<Key>, t: map<Key, int>, x: map<Key, int>) {
    && (forall key :: key in t <==> key in target || (key in source && key in done))
    && (forall key :: key in t ==> t[key] == if key in target then target[key] else source[key])
    && (forall key :: key in x <==> key in source && (key in target || key !in done))
    && (forall key :: key in x ==> x[key] == source[key])
  }

  ghost predicate Merged(target: map<Key, int>, a: Arrays, k: nat, t: map<Key, int>, x: map<Key, int>)
    requires WellFormed(a)
  {
    MergedMaps(target, Contents(a), DoneKeys(a, k), t, x)
  }

  lemma DoneKeysNext(a: Arrays, k: nat)
    requires Valid(a) && a.elements != [] && k < |a.elements| && a.elements[k].Some?
    ensures var e := a.elements[k].value;
      && DoneKeys(a, k + 1) == DoneKeys(a, k) + {e.key} && e.key !in DoneKeys(a, k)
      && e.key in Contents(a) && Contents(a)[e.key] == e.value
  {
    hide WellFormed, SlotsOk, Settled;
    var s := LiveBelowNext(a, k);
    var e := a.elements[k].value;
    ContentsAt(a, e.key);
    forall t | t in LiveBelow(a, k) ensures ElementAt(a, t).value.key != e.key {
      assert HoldsKey(a, t, ElementAt(a, t).value.key);
    }
  }

  lemma MergedOneMore(target: map<Key, int>, source: map<Key, int>, done: set<Key>, t: map<Key, int>, x: map<Key, int>, key: Key)
    requires MergedMaps(target, source, done, t, x) && key in source && key !in done
    ensures key in t <==> key in target
    ensures if key in target then MergedMaps(target, source, done + {key}, t, x)
      else MergedMaps(target, source, done + {key}, t[key := source[key]], x - {key})
  {
  }

  lemma MergedNext(target: map<Key, int>, a: Arrays, k: nat, t: map<Key, int>, x: map<Key, int>)
    requires Valid(a) && a.elements != [] && k < |a.elements| && a.elements[k].Some? && Merged(target, a, k, t, x)
    ensures var e := a.elements[k].value;
      && (e.key in t <==> e.key in target)
      && (if e.key in target then Merged(target, a, k + 1, t, x) else Merged(target, a, k + 1, t[e.key := e.value], x - {e.key}))
  {
    DoneKeysNext(a, k);
    MergedOneMore(target, Contents(a), DoneKeys(a, k), t, x, a.elements[k].value.key);
    hide WellFormed, Contents, DoneKeys, MergedMaps, SlotsOk, UniqueKeys, Settled;
  }

  lemma MergedAll(target: map<Key, int>, a: Arrays, t: map<Key, int>, x: map<Key, int>)
    requires Valid(a) && Merged(target, a, |a.elements|, t, x)
    ensures t == Contents(a) + target
    ensures x == (map key | key in Contents(a) && key in target :: Contents(a)[key])
  {
    LiveBelowAll(a);
    assert DoneKeys(a, |a.elements|) == Contents(a).Keys by {
      hide WellFormed, SlotsOk, UniqueKeys, Settled, Live, LiveBelow;
    }
    MergedMapsAll(target, Contents(a), t, x);
  }

  lemma MergedMapsAll(target: map<Key, int>, source: map<Key, int>, t: map<Key, int>, x: map<Key, int>)
    requires MergedMaps(target, source, source.Keys, t, x)
    ensures t == source + target
    ensures x == (map key | key in source && key in target :: source[key])
  {
  }

  /** Slots from flat position k on are as in a. */
  ghost predicate Tail(a: Arrays, k: nat, b: Arrays) {
    && b.index == a.index && |b.groups| == |a.groups| && |b.elements| == |a.elements|
    && (forall i :: k <= i < |a.elements| ==> b.elements[i] == a.elements[i])
  }

  /** Merging x, which was a, into t, which held target, has come to flat position k. */
  ghost predicate Merging(t: TableCore, x: TableCore, a: Arrays, k: nat, target: map<Key, int>, total: nat)
    reads t, x, t.arrays.groups, t.arrays.elements, x.arrays.groups, x.arrays.elements
  {
    && t.Holds() && x.Holds() && Valid(a) && Merged(target, a, k, t.Map(), x.Map()) && Tail(a, k, x.Value())
    && t.size + x.size == total && CanGrow(total) && (t == x ==> Contents(a) == target) && Separate(t, x)
  }

  /** A table merged with itself shares everything, otherwise the two share nothing. */
  ghost predicate Separate(t: TableCore, x: TableCore)
    reads t, x
  {
    t == x || (t.arrays.groups != x.arrays.groups && t.arrays.elements != x.arrays.elements)
  }

  lemma SourceSlot(a: Arrays, b: Arrays, g: nat, n: nat)
    requires Valid(b) && n < N && 15 * g + n < |b.elements| && b.elements[15 * g + n].Some? && Tail(a, 15 * g + n, b)
    ensures var e := b.elements[15 * g + n].value;
      && |a.elements| == |b.elements| && b.elements[15 * g + n] == a.elements[15 * g + n]
      && HoldsKey(b, Slot(g, n), e.key) && e.key in Contents(b)
      && Tail(a, 15 * g + n + 1, b) && Tail(a, 15 * g + n + 1, Erased(b, Slot(g, n)))
  {
    hide SlotsOk, Settled;
    ContentsAt(b, b.elements[15 * g + n].value.key);
  }

  /** The element e of x has been inserted into t, and is yet to be erased from x. */
  ghost predicate Moved(t: TableCore, x: TableCore, a: Arrays, k: nat, target: map<Key, int>, total: nat, e: Element, slot: Slot)
    reads t, x, t.arrays.groups, t.arrays.elements, x.arrays.groups, x.arrays.elements
  {
    && t != x && Separate(t, x) && t.Holds() && x.Holds() && Valid(a) && HoldsKey(x.Value(), slot, e.key)
    && Merged(target, a, k + 1, t.Map(), x.Map() - {e.key}) && Tail(a, k + 1, Erased(x.Value(), slot))
    && t.size + x.size == total + 1 && CanGrow(total)
  }

  /** Insertion into t leaves a table with separate arrays as it was. */
  method EmplaceApart(t: TableCore, x: TableCore, e: Element) returns (inserted: bool)
    requires t.Holds() && x.Holds() && Separate(t, x) && CanGrow(t.size)
    modifies t, t.arrays.groups, t.arrays.elements
    ensures t.Holds() && x.Holds() && Separate(t, x)
    ensures t.arrays == old(t.arrays) || (fresh(t.arrays) && fresh(t.arrays.groups) && fresh(t.arrays.elements))
    ensures inserted <==> e.key !in old(t.Map())
    ensures t.Map() == if inserted then old(t.Map())[e.key := e.value] else old(t.Map())
    ensures t.size == old(t.size) + if inserted then 1 else 0
    ensures t != x || !inserted ==> x.arrays == old(x.arrays) && x.Value() == old(x.Value()) && x.Map() == old(x.Map()) && x.size == old(x.size)
  {
    hide Consistent, CanGrow, Contents;
    inserted := t.Emplace(e);
  }

  /** What inserting e, found in slot of b, will do: tm and xm are the contents of target and source so far. */
  ghost predicate Ready(target: map<Key, int>, a: Arrays, k: nat, tm: map<Key, int>, xm: map<Key, int>, b: Arrays, e: Element, slot: Slot) {
    && Valid(a) && WellFormed(b) && HoldsKey(b, slot, e.key) && e.key in xm
    && Tail(a, k + 1, b) && Tail(a, k + 1, Erased(b, slot))
    && (if e.key in tm then Merged(target, a, k + 1, tm, xm)
        else Merged(target, a, k + 1, tm[e.key := e.value], xm - {e.key}))
  }

  lemma BecomeReady(t: TableCore, x: TableCore, a: Arrays, i: nat, slot: Slot, target: map<Key, int>, total: nat)
    requires slot.n < N && i == 15 * slot.g + slot.n < x.arrays.elements.Length && x.arrays.elements[i].Some?
    requires Merging(t, x, a, i, target, total)
    ensures Ready(target, a, i, t.Map(), x.Map(), x.Value(), x.arrays.elements[i].value, slot)
    ensures CanGrow(t.size)
  {
    hide CanGrow, Merged, Tail, Erased, HoldsKey, SlotsOk, UniqueKeys, Settled, WellFormed, Contents, Live, InitialMaxLoad, Capacity;
    SourceSlot(a, x.Value(), slot.g, slot.n);
    MergedNext(target, a, i, t.Map(), x.Map());
    CanGrowLess(t.size, total);
  }

  lemma BecomeMoved(t: TableCore, x: TableCore, a: Arrays, k: nat, target: map<Key, int>, total: nat, tm: map<Key, int>, e: Element, slot: Slot)
    requires t != x && Separate(t, x) && t.Holds() && x.Holds() && Ready(target, a, k, tm, x.Map(), x.Value(), e, slot)
    requires e.key !in tm && t.Map() == tm[e.key := e.value] && t.size + x.size == total + 1 && CanGrow(total)
    ensures Moved(t, x, a, k, target, total, e, slot)
  {
    hide Valid, Consistent, Contents, CanGrow, Merged, Tail, Erased;
  }

  lemma StayMerging(t: TableCore, x: TableCore, a: Arrays, k: nat, target: map<Key, int>, total: nat, e: Element, slot: Slot)
    requires Separate(t, x) && t.Holds() && x.Holds() && Ready(target, a, k, t.Map(), x.Map(), x.Value(), e, slot)
    requires e.key in t.Map() && t.size + x.size == total && CanGrow(total) && (t == x ==> Contents(a) == target)
    ensures Merging(t, x, a, k + 1, target, total)
  {
    hide Valid, Consistent, CanGrow, Merged, Tail, Erased;
  }

  lemma WhileMerging(t: TableCore, x: TableCore, a: Arrays, k: nat, target: map<Key, int>, total: nat)
    requires Merging(t, x, a, k, target, total)
    ensures t.Holds() && x.Holds() && Separate(t, x) && t.size + x.size == total && CanGrow(total)
    ensures Valid(a) && (t == x ==> Contents(a) == target)
  {
    hide Consistent, CanGrow;
  }

  /** unprotected_emplace of one element of x. */
  method InsertElement(t: TableCore, x: TableCore, i: nat, slot: Slot, ghost a: Arrays, ghost target: map<Key, int>, ghost total: nat)
    returns (inserted: bool, ghost e: Element, ghost k: nat)
    requires slot.n < N && i == 15 * slot.g + slot.n < x.arrays.elements.Length && x.arrays.elements[i].Some?
    requires Merging(t, x, a, i, target, total)
    modifies t, t.arrays.groups, t.arrays.elements
    ensures x.arrays == old(x.arrays) && k == i + 1
    ensures t.arrays == old(t.arrays) || (fresh(t.arrays) && fresh(t.arrays.groups) && fresh(t.arrays.elements))
    ensures if inserted then Moved(t, x, a, i, target, total, e, slot) else Merging(t, x, a, k, target, total)
  {
    var element := x.arrays.elements[i].value;
    e, k := element, i + 1;
    WhileMerging(t, x, a, i, target, total);
    BecomeReady(t, x, a, i, slot, target, total);
    KeyInBoth(t, x, e, target, a, i, slot);
    hide Valid, Contents, CanGrow, Ready, Moved, Merging, TableCore.Holds, TableCore.Value, TableCore.Map;
    ghost var tm := t.Map();
    inserted := EmplaceApart(t, x, element);
    if inserted {
      BecomeMoved(t, x, a, i, target, total, tm, e, slot);
    } else {
      StayMerging(t, x, a, i, target, total, e, slot);
    }
  }

  lemma KeyInBoth(t: TableCore, x: TableCore, e: Element, target: map<Key, int>, a: Arrays, k: nat, slot: Slot)
    requires t.Holds() && x.Holds() && Ready(target, a, k, t.Map(), x.Map(), x.Value(), e, slot)
    ensures t == x ==> e.key in t.Map()
  {
  }

  /** erase_on_exit, unless rolled back. */
  method EraseMoved(t: TableCore, x: TableCore, slot: Slot, ghost a: Arrays, ghost k: nat, ghost target: map<Key, int>,
                    ghost total: nat, ghost e: Element) returns (ghost k': nat)
    requires Moved(t, x, a, k, target, total, e, slot)
    modifies x, x.arrays.groups, x.arrays.elements
    ensures Merging(t, x, a, k', target, total) && k' == k + 1 && x.arrays == old(x.arrays)
  {
    k' := k + 1;
    hide Valid, Consistent, Contents, CanGrow, Merged, Tail, Erased, HoldsKey;
    x.Erase(slot, e.key);
  }

  /** One element of x: moved to t, or left where it is if t has its key already. */
  method MergeElement(t: TableCore, x: TableCore, i: nat, slot: Slot, ghost a: Arrays, ghost target: map<Key, int>, ghost total: nat)
    returns (ghost k: nat)
    requires slot.n < N && i == 15 * slot.g + slot.n < x.arrays.elements.Length && x.arrays.elements[i].Some?
    requires Merging(t, x, a, i, target, total)
    modifies t, t.arrays.groups, t.arrays.elements, x, x.arrays.groups, x.arrays.elements
    ensures Merging(t, x, a, k, target, total) && k == i + 1 && x.arrays == old(x.arrays)
    ensures t.arrays == old(t.arrays) || (fresh(t.arrays) && fresh(t.arrays.groups) && fresh(t.arrays.elements))
  {
    hide Merging, Moved;
    var inserted;
    ghost var e;
    inserted, e, k := InsertElement(t, x, i, slot, a, target, total);
    if inserted {
      k := EraseMoved(t, x, slot, a, i, target, total, e);
    }
  }

  ghost predicate MergingWithin(t: TableCore, x: TableCore, a: Arrays, g: nat, m: nat, mask: set<nat>, target: map<Key, int>, total: nat)
    reads t, x, t.arrays.groups, t.arrays.elements, x.arrays.groups, x.arrays.elements
  {
    WellFormed(a) && Pending(a, g, m, mask) && Merging(t, x, a, 15 * g + m, target, total)
  }

  lemma MergingBlank(t: TableCore, x: TableCore, a: Arrays, i: nat, j: nat, target: map<Key, int>, total: nat)
    requires Merging(t, x, a, i, target, total) && i <= j <= |a.elements| && Blank(a, i, j)
    ensures Merging(t, x, a, j, target, total)
  {
    LiveBelowBlank(a, i, j);
    hide Valid, Consistent, Contents, CanGrow, LiveBelow, MergedMaps, TableCore.Map;
  }

  lemma MergingStarts(t: TableCore, x: TableCore, a: Arrays, g: nat, target: map<Key, int>, total: nat)
    requires a.elements != [] && Merging(t, x, a, 15 * g, target, total) && g < |a.groups|
    ensures g < x.arrays.groups.Length && |x.arrays.groups[g].meta| == N
    ensures MergingWithin(t, x, a, g, 0, ReallyOccupied(x.arrays.groups[g], g == x.arrays.groups.Length - 1), target, total)
  {
    var b := x.Value();
    assert b.elements != [] && Valid(b) && Valid(a) && Tail(a, 15 * g, b);
    hide Consistent, Contents, CanGrow, Merged, SlotsOk, UniqueKeys, Settled, Separate;
    AllPending(b, g);
    SamePending(a, b, g, ReallyOccupied(b.groups[g], g == |b.groups| - 1));
  }

  lemma SamePending(a: Arrays, b: Arrays, g: nat, mask: set<nat>)
    requires WellFormed(a) && WellFormed(b) && Tail(a, 15 * g, b) && Pending(b, g, 0, mask)
    ensures Pending(a, g, 0, mask)
  {
    forall n: nat | n < N && IsSlot(b, Slot(g, n)) ensures ElementAt(a, Slot(g, n)) == ElementAt(b, Slot(g, n)) {}
  }

  lemma MergingNext(t: TableCore, x: TableCore, a: Arrays, g: nat, m: nat, mask: set<nat>, target: map<Key, int>, total: nat)
    returns (i: nat, slot: Slot, m': nat, rest: set<nat>)
    requires MergingWithin(t, x, a, g, m, mask, target, total) && mask != {}
    ensures slot == Slot(g, Lowest(mask)) && rest == mask - {Lowest(mask)} && rest < mask
    ensures slot.n < N && i == 15 * slot.g + slot.n < x.arrays.elements.Length && x.arrays.elements[i].Some?
    ensures Merging(t, x, a, i, target, total)
    ensures WellFormed(a) && Pending(a, g, m', rest) && 15 * g + m' == i + 1
  {
    hide Pending, WellFormed, Merging, Lowest, Blank;
    var n := NextPending(a, g, m, mask);
    i, slot, m', rest := 15 * g + n, Slot(g, n), n + 1, mask - {n};
    MergingBlank(t, x, a, 15 * g + m, i, target, total);
    TailAt(t, x, a, i, target, total);
  }

  lemma MergingOn(t: TableCore, x: TableCore, a: Arrays, g: nat, m: nat, k: nat, mask: set<nat>, target: map<Key, int>, total: nat)
    requires WellFormed(a) && Pending(a, g, m, mask) && k == 15 * g + m && Merging(t, x, a, k, target, total)
    ensures MergingWithin(t, x, a, g, m, mask, target, total)
  {
    hide Merging;
  }

  lemma TailAt(t: TableCore, x: TableCore, a: Arrays, k: nat, target: map<Key, int>, total: nat)
    requires Merging(t, x, a, k, target, total) && k < |a.elements|
    ensures k < x.arrays.elements.Length && x.arrays.elements[k] == a.elements[k]
  {
    hide Valid, Consistent, Contents, CanGrow, Merged;
  }

  lemma MergingEnds(t: TableCore, x: TableCore, a: Arrays, g: nat, m: nat, target: map<Key, int>, total: nat)
    requires MergingWithin(t, x, a, g, m, {}, target, total)
    ensures Merging(t, x, a, EndOf(a, g), target, total)
  {
    hide Pending, WellFormed, Merging, Blank;
    NonePending(a, g, m);
    MergingBlank(t, x, a, 15 * g + m, EndOf(a, g), target, total);
  }

  method MergeNext(t: TableCore, x: TableCore, g: nat, mask: set<nat>, ghost m: nat, ghost a: Arrays, ghost target: map<Key, int>, ghost total: nat)
    returns (rest: set<nat>, ghost m': nat)
    requires mask != {} && MergingWithin(t, x, a, g, m, mask, target, total)
    modifies t, t.arrays.groups, t.arrays.elements, x, x.arrays.groups, x.arrays.elements
    ensures rest < mask && MergingWithin(t, x, a, g, m', rest, target, total) && x.arrays == old(x.arrays)
    ensures t.arrays == old(t.arrays) || (fresh(t.arrays) && fresh(t.arrays.groups) && fresh(t.arrays.elements))
  {
    hide MergingWithin, Merging, Pending, Lowest, WellFormed;
    ghost var i, slot', rest';
    i, slot', m', rest' := MergingNext(t, x, a, g, m, mask, target, total);
    var slot := Slot(g, Lowest(mask));
    rest := mask - {Lowest(mask)};
    ghost var k := MergeElement(t, x, 15 * slot.g + slot.n, slot, a, target, total);
    MergingOn(t, x, a, g, m', k, rest, target, total);
  }

  /** The elements of one group of x; its occupancy is read before any of them moves. */
  method MergeGroup(t: TableCore, x: TableCore, g: nat, ghost a: Arrays, ghost target: map<Key, int>, ghost total: nat)
    returns (ghost k: nat)
    requires a.elements != [] && g < |a.groups| && Merging(t, x, a, 15 * g, target, total)
    modifies t, t.arrays.groups, t.arrays.elements, x, x.arrays.groups, x.arrays.elements
    ensures Merging(t, x, a, k, target, total) && k == EndOf(a, g) && x.arrays == old(x.arrays)
    ensures t.arrays == old(t.arrays) || (fresh(t.arrays) && fresh(t.arrays.groups) && fresh(t.arrays.elements))
  {
    MergingStarts(t, x, a, g, target, total);
    var mask := ReallyOccupied(x.arrays.groups[g], g == x.arrays.groups.Length - 1);
    ghost var m: nat := 0;
    hide MergingWithin, Merging, Lowest, EndOf;
    while mask != {}
      invariant MergingWithin(t, x, a, g, m, mask, target, total) && x.arrays == old(x.arrays)
      invariant t.arrays == old(t.arrays) || (fresh(t.arrays) && fresh(t.arrays.groups) && fresh(t.arrays.elements))
    {
      mask, m := MergeNext(t, x, g, mask, m, a, target, total);
    }
    MergingEnds(t, x, a, g, m, target, total);
    k := EndOf(a, g);
  }

  /** The elements of source whose keys target has, too. */
  function Colliding(source: map<Key, int>, target: map<Key, int>): map<Key, int> {
    map key | key in source && key in target :: source[key]
  }

  /** for_all_elements of x: every group in turn. */
  method MergeGroups(t: TableCore, x: TableCore, ghost a: Arrays, ghost target: map<Key, int>, ghost total: nat)
    requires Merging(t, x, a, 0, target, total) && a == x.Value() && (a.elements != [] ==> |a.elements| == 15 * |a.groups| - 1)
    modifies t, t.arrays.groups, t.arrays.elements, x, x.arrays.groups, x.arrays.elements
    ensures Merging(t, x, a, |a.elements|, target, total)
  {
    hide Merging;
    if x.arrays.elements.Length != 0 {
      var g := 0;
      ghost var k: nat := 0;
      while g < x.arrays.groups.Length
        invariant g <= x.arrays.groups.Length == |a.groups| && x.arrays == old(x.arrays)
        invariant Merging(t, x, a, k, target, total) && k == if g < |a.groups| then 15 * g else |a.elements|
        invariant t.arrays == old(t.arrays) || (fresh(t.arrays) && fresh(t.arrays.groups) && fresh(t.arrays.elements))
      {
        k := MergeGroup(t, x, g, a, target, total);
        g := g + 1;
      }
    }
  }

  /** merge: t receives the elements of x whose keys it lacks; x keeps the others. */
  method Merge(t: TableCore, x: TableCore) returns (transferred: nat)
    requires t.Holds() && x.Holds() && Separate(t, x) && CanGrow(t.size + x.size)
    modifies t, t.arrays.groups, t.arrays.elements, x, x.arrays.groups, x.arrays.elements
    ensures t.Holds() && x.Holds()
    ensures t.Map() == old(x.Map()) + old(t.Map())
    ensures x.Map() == Colliding(old(x.Map()), old(t.Map()))
    ensures transferred == |old(x.Map()).Keys - old(t.Map()).Keys|
  {
    hide *;
    ghost var a, target, total := x.Value(), t.Map(), t.size + x.size;
    var s := t.size;
    MergeStarts(t, x, a);
    MergeGroups(t, x, a, target, total);
    MergeEnds(t, x, a, target, total, s);
    transferred := t.size - s;
  }

  lemma NoneMerged(a: Arrays, target: map<Key, int>)
    requires Valid(a)
    ensures Merged(target, a, 0, target, Contents(a))
  {
    assert DoneKeys(a, 0) == {};
    hide Valid, WellFormed, Contents, DoneKeys;
  }

  lemma MergeStarts(t: TableCore, x: TableCore, a: Arrays)
    requires t.Holds() && x.Holds() && Separate(t, x) && CanGrow(t.size + x.size) && a == x.Value()
    ensures Merging(t, x, a, 0, t.Map(), t.size + x.size)
    ensures a.elements != [] ==> |a.elements| == 15 * |a.groups| - 1
    ensures t.size == |t.Map()| && WellFormed(a) && x.Map() == Contents(a)
  {
    hide CanGrow, Valid, WellFormed, Contents, Live, Capacity, InitialMaxLoad, Merged;
    ValidLength(a);
    ConsistentSize(t.Value(), t.size, t.ml);
    NoneMerged(a, t.Map());
  }

  lemma ValidLength(a: Arrays)
    requires Valid(a)
    ensures WellFormed(a) && (a.elements != [] ==> |a.elements| == 15 * |a.groups| - 1)
  {
    hide SlotsOk, UniqueKeys, Settled;
  }

  lemma MergedSize(source: map<Key, int>, target: map<Key, int>)
    ensures |source + target| == |target| + |source.Keys - target.Keys|
  {
    var t := source + target;
    assert t.Keys == target.Keys + (source.Keys - target.Keys);
    assert |t| == |t.Keys| && |target| == |target.Keys|;
  }

  lemma MergeEnds(t: TableCore, x: TableCore, a: Arrays, target: map<Key, int>, total: nat, s: nat)
    requires Merging(t, x, a, |a.elements|, target, total) && s == |target|
    ensures t.Holds() && x.Holds() && WellFormed(a)
    ensures t.Map() == Contents(a) + target
    ensures x.Map() == Colliding(Contents(a), target)
    ensures t.size >= s && t.size - s == |Contents(a).Keys - target.Keys|
  {
    assert Valid(a) && Merged(target, a, |a.elements|, t.Map(), x.Map());
    MergedAll(target, a, t.Map(), x.Map());
    MergedSize(Contents(a), target);
    ConsistentSize(t.Value(), t.size, t.ml);
    assert t.Holds() && x.Holds() && WellFormed(a);
    hide Merging, Consistent, Valid, WellFormed, Contents, Merged;
  }
}
