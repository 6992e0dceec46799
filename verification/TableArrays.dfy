/** The group and element arrays of a table, updated in place: lookup and insertion. */
module TableStorage {
  import opened SizePolicy
  import opened Pow2Arith
  import opened QuadraticProber
  import opened Groups
  import opened Arrays
  import opened Wrappers
  import opened ArrayLaws

  /** The groups of the first steps do not hold the key, and are overflowed for it. */
  ghost predicate PassedOver(a: Arrays, k: Key, step: nat)
    requires WellFormed(a)
  {
    && (forall i :: 0 <= i < step && i < |a.groups| ==> Flagged(a, k.hash, i))
    && (forall i, n: nat :: 0 <= i < step ==> !HoldsKey(a, Slot(Probe(a.index, k.hash, i), n), k))
  }

  ghost predicate NotInGroup(a: Arrays, g: nat, k: Key)
    requires WellFormed(a)
  {
    forall n: nat :: n < N ==> !HoldsKey(a, Slot(g, n), k)
  }

  lemma PassedOverStep(a: Arrays, k: Key, step: nat)
    requires WellFormed(a) && PassedOver(a, k, step) && step < |a.groups|
    requires NotInGroup(a, Probe(a.index, k.hash, step), k)
    requires Flagged(a, k.hash, step)
    ensures PassedOver(a, k, step + 1)
  {
  }

  /** A group that is not overflowed ends the search: the key is nowhere. */
  lemma NothingBeyond(a: Arrays, k: Key, step: nat)
    requires WellFormed(a) && SlotsOk(a) && UniqueKeys(a) && PassedOver(a, k, step) && step < |a.groups|
    requires NotInGroup(a, Probe(a.index, k.hash, step), k)
    requires !Flagged(a, k.hash, step)
    ensures k !in Contents(a)
  {
    forall s ensures !HoldsKey(a, s, k) {
      if IsSlot(a, s) {
        assert SlotOk(a, s);
        var i := ProbeCovers(Position(k.hash, a.index), s.g, BITS - a.index);
        assert Probe(a.index, k.hash, i) == s.g && s == Slot(s.g, s.n);
      }
    }
    ContentsAt(a, k);
  }

  /** A key not in the slots that match its hash is not in the group. */
  lemma OnlyCandidates(a: Arrays, g: nat, k: Key)
    requires WellFormed(a) && SlotsOk(a) && g < |a.groups|
    requires forall m :: m in a.groups[g].Match(k.hash) ==> !HoldsKey(a, Slot(g, m), k)
    ensures NotInGroup(a, g, k)
  {
    forall n: nat | n < N ensures !HoldsKey(a, Slot(g, n), k) {
      if IsSlot(a, Slot(g, n)) {
        assert SlotOk(a, Slot(g, n));
      }
    }
  }

  /** So does having probed every group. */
  lemma AllPassedOver(a: Arrays, k: Key)
    requires WellFormed(a) && UniqueKeys(a) && PassedOver(a, k, |a.groups|)
    ensures k !in Contents(a)
  {
    forall s ensures !HoldsKey(a, s, k) {
      if IsSlot(a, s) {
        var i := ProbeCovers(Position(k.hash, a.index), s.g, BITS - a.index);
        assert s == Slot(Probe(a.index, k.hash, i), s.n);
      }
    }
    ContentsAt(a, k);
  }

  /** b is what inserting e into a yields, the element being put into slot s. */
  ghost predicate Emplaced(a: Arrays, e: Element, b: Arrays, s: Slot) {
    Shaped(a) && EmplaceFrom(a, e, 0) == (b, Some(s))
  }

  /** b is a with e in the first free slot of its probe sequence. */
  ghost predicate EmplacedSomewhere(a: Arrays, e: Element, b: Arrays) {
    exists s :: Emplaced(a, e, b, s)
  }

  lemma Dimensions(a: Arrays, hash: Hash, step: nat)
    requires WellFormed(a)
    ensures IsSizeIndex(a.index) && |a.groups| == Size(a.index)
    ensures a.elements != [] ==> |a.elements| == 15 * |a.groups| - 1 && Shaped(a)
    ensures Probe(a.index, hash, step) == ProbeAt(Position(hash, a.index), step, Pow2(BITS - a.index)) < |a.groups|
    ensures |a.groups[Probe(a.index, hash, step)].meta| == N
  {
  }

  lemma Here(index: nat, hash: Hash, step: nat)
    requires IsSizeIndex(index)
    ensures Probe(index, hash, step) == ProbeAt(Position(hash, index), step, Pow2(BITS - index))
  {
  }

  lemma RoomAhead(a: Arrays, hash: Hash, step: nat)
    requires WellFormed(a) && RoomFrom(a, hash, step)
    ensures step < |a.groups|
  {
  }

  lemma Allocated(n: nat, groups: seq<Group>, elements: seq<Option<Element>>)
    requires n / N + 1 <= Pow2(BITS - 1) && |groups| == Size(SizeIndexFor(n))
    requires |elements| == (if n == 0 then 0 else 15 * |groups| - 1) && forall i :: 0 <= i < |elements| ==> elements[i] == None
    requires forall g :: 0 <= g < |groups| ==>
      groups[g] == if n == 0 then DUMMY_GROUP else if g == |groups| - 1 then EMPTY_GROUP.SetSentinel() else EMPTY_GROUP
    ensures Arrays(SizeIndexFor(n), groups, elements) == NewArrays(n)
  {
    hide SizeIndexFor, Size;
    assert n != 0 ==> groups == FreshGroups(|groups|);
  }

  class TableArrays {
    const index: nat
    const groups: array<Group>
    /** Of length 0 when no storage is allocated. */
    const elements: array<Option<Element>>

    /** new_arrays(n). */
    constructor (n: nat)
      requires n / N + 1 <= Pow2(BITS - 1)
      ensures Value() == NewArrays(n) && fresh(groups) && fresh(elements)
    {
      var i := SizeIndexFor(n);
      var size := Size(i);
      index := i;
      if n == 0 {
        groups := new Group[size](g => DUMMY_GROUP);
        elements := new Option<Element>[0];
      } else {
        groups := new Group[size](g => EMPTY_GROUP);
        elements := new Option<Element>[15 * size - 1](g => None);
      }
      new;
      hide SizeIndexFor, Size, NewArrays;
      if n != 0 {
        groups[size - 1] := groups[size - 1].SetSentinel();
      }
      Allocated(n, groups[..], elements[..]);
    }

    ghost function Value(): Arrays
      reads groups, elements
    {
      Arrays(index, groups[..], elements[..])
    }

    /** A lookup of k has come to the group of the prober's current step without finding it. */
    ghost predicate Searching(pb: Prober, k: Key)
      reads pb, groups, elements
    {
      && Valid(Value()) && groups.Length == Pow2(BITS - index)
      && pb.Valid(BITS - index) && pb.start == Position(k.hash, index) && pb.step < groups.Length
      && PassedOver(Value(), k, pb.step)
    }

    /** The group at the given position does not hold the key. */
    ghost predicate Cleared(pos: nat, k: Key)
      reads groups, elements
    {
      Valid(Value()) && NotInGroup(Value(), pos, k)
    }

    ghost predicate Absent(k: Key)
      reads groups, elements
    {
      Valid(Value()) && k !in Contents(Value())
    }

    method StartSearch(k: Key) returns (pb: Prober)
      requires Valid(Value())
      ensures fresh(pb) && Searching(pb, k) && pb.pos == Position(k.hash, index)
    {
      PositionInRange(k.hash, index);
      pb := new Prober(Position(k.hash, index), BITS - index);
      hide SlotsOk, UniqueKeys;
    }

    lemma SearchPosition(pb: Prober, k: Key)
      requires Searching(pb, k)
      ensures Valid(Value()) && pb.step < groups.Length && pb.pos < groups.Length
      ensures pb.pos == Probe(index, k.hash, pb.step)
    {
      hide SlotsOk, UniqueKeys, PassedOver, ProbeAt;
    }

    /** Compares the candidate slots of a group; N if none of them holds the key. */
    method Compare(pos: nat, candidates: set<nat>, k: Key) returns (n: nat)
      requires Valid(Value()) && pos < groups.Length
      requires candidates == groups[pos].Match(k.hash)
      ensures n < N ==> HoldsKey(Value(), Slot(pos, n), k)
      ensures n >= N ==> Cleared(pos, k)
    {
      var mask := candidates;
      ghost var a := Value();
      while mask != {}
        invariant mask <= candidates
        invariant forall m :: m in candidates && m !in mask ==> !HoldsKey(a, Slot(pos, m), k)
      {
        n := Lowest(mask);
        HitIsSlot(a, pos, n, k.hash);
        assert Meta(a, Slot(pos, n)) != AVAILABLE && ElementAt(a, Slot(pos, n)).Some?;
        if elements[15 * pos + n].value.key == k {
          return;
        }
        mask := mask - {n};
      }
      n := N;
      OnlyCandidates(a, pos, k);
    }

    /** Goes on to the next group of the probe sequence; false if the search is over. */
    method Advance(pb: Prober, k: Key) returns (more: bool)
      requires Searching(pb, k) && Cleared(pb.pos, k)
      modifies pb
      ensures more ==> Searching(pb, k) && pb.step == old(pb.step) + 1
      ensures !more ==> Absent(k)
      ensures more <==> old(pb.pos) < groups.Length && !groups[old(pb.pos)].IsNotOverflowed(k.hash) && old(pb.step) + 1 < groups.Length
    {
      SearchPosition(pb, k);
      hide SlotsOk, UniqueKeys, PassedOver, ProbeAt;
      ghost var a := Value();
      if groups[pb.pos].IsNotOverflowed(k.hash) {
        NothingBeyond(a, k, pb.step);
        return false;
      }
      PassedOverStep(a, k, pb.step);
      more := pb.Next(groups.Length - 1, BITS - index);
      if !more {
        AllPassedOver(a, k);
      }
    }

    /** find: the slot holding the key, if the key is in the table. */
    method Find(k: Key) returns (loc: Option<Slot>)
      requires Valid(Value())
      ensures loc.Some? <==> k in Contents(Value())
      ensures loc.Some? ==> HoldsKey(Value(), loc.value, k)
    {
      var pb := StartSearch(k);
      hide Valid;
      var more := true;
      while more
        invariant if more then Searching(pb, k) else Absent(k)
        decreases more, groups.Length - pb.step
      {
        SearchPosition(pb, k);
        var n := Compare(pb.pos, groups[pb.pos].Match(k.hash), k);
        if n < N {
          ContentsAt(Value(), k);
          return Some(Slot(pb.pos, n));
        }
        more := Advance(pb, k);
      }
      loc := None;
    }

    /** construct_element and group_type::set. */
    method Fill(slot: Slot, e: Element)
      requires slot.g < groups.Length && slot.n < |groups[slot.g].meta| && 15 * slot.g + slot.n < elements.Length
      modifies groups, elements
      ensures Value() == old(Value()).(
        groups := old(groups[..])[slot.g := old(groups[slot.g]).Set(slot.n, e.key.hash)],
        elements := old(elements[..])[15 * slot.g + slot.n := Some(e)])
    {
      elements[15 * slot.g + slot.n] := Some(e);
      groups[slot.g] := groups[slot.g].Set(slot.n, e.key.hash);
    }

    /** group_type::mark_overflow. */
    method MarkOverflow(pos: nat, hash: Hash)
      requires pos < groups.Length
      modifies groups
      ensures Value() == old(Value()).(groups := old(groups[..])[pos := old(groups[pos]).MarkOverflow(hash)])
    {
      groups[pos] := groups[pos].MarkOverflow(hash);
    }

    /** An insertion of e into arrays a has come to the given step: the groups passed are flagged, there is
        room further on, and going on from here yields what inserting into a yields. */
    ghost predicate Probing(a: Arrays, e: Element, step: nat)
      reads groups, elements
    {
      && WellFormed(Value()) && elements.Length > 0 && Shaped(Value()) && Shaped(a)
      && (forall i :: 0 <= i < step && i < groups.Length ==> Flagged(Value(), e.key.hash, i))
      && RoomFrom(Value(), e.key.hash, step)
      && EmplaceFrom(Value(), e, step) == EmplaceFrom(a, e, 0)
    }

    lemma ProbingStarts(e: Element)
      requires WellFormed(Value()) && elements.Length > 0 && RoomFrom(Value(), e.key.hash, 0)
      ensures Probing(Value(), e, 0) && Shaped(Value()) && IsSizeIndex(index)
      ensures groups.Length == Pow2(BITS - index) > Position(e.key.hash, index)
    {
      PositionInRange(e.key.hash, index);
      hide RoomFrom, Probe, EmplaceFrom;
    }

    /** Takes the first available slot of the group, or marks the group as overflowed. */
    method TryGroup(pos: nat, e: Element, ghost a: Arrays, ghost step: nat) returns (n: nat)
      requires Probing(a, e, step) && pos == Probe(index, e.key.hash, step)
      modifies groups, elements
      ensures groups.Length > step && Shaped(a)
      ensures n < N ==> Emplaced(a, e, Value(), Slot(pos, n))
      ensures n >= N ==> Probing(a, e, step + 1)
    {
      ghost var b := Value();
      n := Lowest(groups[pos].MatchAvailable());
      RoomAhead(b, e.key.hash, step);
      hide EmplaceFrom, Flagged, RoomFrom, Probe;
      if n < N {
        ghost var c, s := EmplaceHere(b, e, step);
        Fill(Slot(pos, n), e);
        assert Value() == c;
      } else {
        ghost var c := MarkAdvances(b, e.key.hash, step);
        EmplaceSkips(b, c, e, step);
        MarkOverflow(pos, e.key.hash);
        assert Value() == c;
      }
    }

    /** The prober stands at the step of the insertion of e into a. */
    ghost predicate ProbingWith(pb: Prober, pos0: nat, a: Arrays, e: Element)
      reads pb, groups, elements
    {
      && IsSizeIndex(index) && groups.Length == Pow2(BITS - index) && pos0 == Position(e.key.hash, index)
      && pb.Valid(BITS - index) && pb.start == pos0 && Probing(a, e, pb.step)
    }

    /** One turn of the insertion loop. */
    method Attempt(pb: Prober, ghost pos0: nat, e: Element, ghost a: Arrays) returns (loc: Option<Slot>)
      requires ProbingWith(pb, pos0, a, e)
      modifies pb, groups, elements
      ensures old(pb.step) < groups.Length && pb.step == old(pb.step) + 1
      ensures loc.Some? ==> Emplaced(a, e, Value(), loc.value)
      ensures loc.None? ==> ProbingWith(pb, pos0, a, e)
    {
      hide EmplaceFrom, WellFormed, RoomFrom, Position, Shaped, Pow2, ProbeAt, Probing, Emplaced, Probe, Value;
      Here(index, e.key.hash, pb.step);
      var n := TryGroup(pb.pos, e, a, pb.step);
      loc := if n < N then Some(Slot(pb.pos, n)) else None;
      var more := pb.Next(groups.Length - 1, BITS - index);
    }

    /** nosize_unchecked_emplace_at: the first available slot along the probe sequence, which must exist. */
    method EmplaceAt(pos0: nat, e: Element) returns (loc: Slot)
      requires WellFormed(Value()) && elements.Length > 0 && pos0 == Position(e.key.hash, index)
      requires RoomFrom(Value(), e.key.hash, 0)
      modifies groups, elements
      ensures Emplaced(old(Value()), e, Value(), loc)
    {
      ghost var a := Value();
      ProbingStarts(e);
      var pb := new Prober(pos0, BITS - index);
      hide WellFormed, RoomFrom, Emplaced, Value, Position, Pow2, ProbeAt, Probing;
      assert ProbingWith(pb, pos0, a, e);
      hide ProbingWith;
      while true
        invariant ProbingWith(pb, pos0, a, e)
        decreases groups.Length - pb.step
      {
        var place := Attempt(pb, pos0, e, a);
        if place.Some? {
          return place.value;
        }
      }
    }
  }
}
