/** The concurrent table refines an atomic map: each step adds one absent key, removes or stores to one
    present key, or changes nothing; and unsuccessful lookups are justified by some moment of absence. */
module ConcurrentRefinement {
  import opened SizePolicy
  import opened Pow2Arith
  import opened QuadraticProber
  import opened Groups
  import opened Arrays
  import opened Wrappers
  import opened ArrayLaws
  import opened ConcurrentTable
  import opened ConcurrentInvariant
  import opened ConcurrentEffects
  import opened ConcurrentKept
  import opened ConcurrentLookup
  import opened ConcurrentSteps
  import opened ConcurrentInsert
  import opened ConcurrentErase
  import opened ConcurrentContainer
  import opened ConcurrentTheorems

  /* ---------- the abstract map ---------- */

  ghost predicate BuildingValue(s: State, t: Tid, x: Slot, k: Key, v: int)
    requires WellTyped(s)
  {
    Building(s, t, x, k) && s.threads[t].op.Insert? && s.threads[t].op.e.value == v
  }

  /** Slot x logically holds key k with value v. */
  ghost predicate BindsAt(s: State, x: Slot, k: Key, v: int)
    requires WellTyped(s)
  {
    || (HoldsKey(s.a, x, k) && ElementAt(s.a, x).value.value == v)
    || exists t :: BuildingValue(s, t, x, k, v)
  }

  /** The abstract map binds k to v. */
  ghost predicate Binds(s: State, k: Key, v: int)
    requires WellTyped(s)
  {
    exists x :: BindsAt(s, x, k, v)
  }

  ghost predicate HasKey(s: State, k: Key)
    requires WellTyped(s)
  {
    exists x :: Present(s, x, k)
  }

  /** What a step does to the abstract map. */
  datatype Event = Silent | Added(k: Key, v: int) | Removed(k: Key) | Stored(k: Key, v: int)

  /** The value a thread has found. */
  ghost function FoundValue(s: State, t: Tid): int
    requires t in s.threads && s.threads[t].pc.Found?
  {
    if WellTyped(s) then
      assert Typed(s.a, s.threads[t]);
      ElementAt(s.a, FoundSlot(s.a, s.threads[t])).value.value
    else 0
  }

  ghost function EventOf(s: State, t: Tid, s': State): Event
    requires t in s.threads
  {
    var th := s.threads[t];
    match th.pc
    case Bump(_, _, _) =>
      if t in s'.threads && s'.threads[t].pc.Construct? && th.op.Insert? then Added(KeyOf(th.op), th.op.e.value) else Silent
    case Found(_, _) =>
      if t in s'.threads && s'.threads[t].pc.Unpaid? then Removed(KeyOf(th.op))
      else if th.op.Erase? || th.op.write.None? then Silent
      else Stored(KeyOf(th.op), th.op.write.value(FoundValue(s, t)))
    case _ => Silent
  }

  lemma PresentBinds(s: State, x: Slot, k: Key)
    requires WellTyped(s)
    ensures Present(s, x, k) <==> exists v :: BindsAt(s, x, k, v)
  {
    if Present(s, x, k) {
      if HoldsKey(s.a, x, k) {
        assert BindsAt(s, x, k, ElementAt(s.a, x).value.value);
      } else {
        var t :| Building(s, t, x, k);
        BuildingInserts(s, t, x, k);
        assert BuildingValue(s, t, x, k, s.threads[t].op.e.value);
        assert BindsAt(s, x, k, s.threads[t].op.e.value);
      }
    }
  }

  lemma BuildingInserts(s: State, t: Tid, x: Slot, k: Key)
    requires WellTyped(s) && Building(s, t, x, k)
    ensures s.threads[t].op.Insert?
  {
    assert Typed(s.a, s.threads[t]);
    hide Probe;
  }

  /* ---------- steps that write no element ---------- */

  /** Elements and constructions in progress are untouched. */
  ghost predicate Plain(s: State, t: Tid, s': State)
    requires WellTyped(s)
  {
    && s'.a.elements == s.a.elements && s'.a.index == s.a.index && |s'.a.groups| == |s.a.groups|
    && (forall u :: u != t ==> (u in s'.threads <==> u in s.threads) && (u in s.threads ==> s'.threads[u] == s.threads[u]))
    && (t in s.threads ==> !s.threads[t].pc.Construct?) && (t in s'.threads ==> !s'.threads[t].pc.Construct?)
  }

  lemma PlainBinds(s: State, t: Tid, s': State, x: Slot, k: Key, v: int)
    requires WellTyped(s) && WellTyped(s') && Plain(s, t, s')
    ensures BindsAt(s', x, k, v) <==> BindsAt(s, x, k, v)
  {
    hide WellFormed, Typed, Probe;
    assert forall u :: BuildingValue(s', u, x, k, v) <==> BuildingValue(s, u, x, k, v);
    assert HoldsKey(s'.a, x, k) <==> HoldsKey(s.a, x, k);
    hide BuildingValue, Plain;
    if BindsAt(s, x, k, v) && !(HoldsKey(s.a, x, k) && ElementAt(s.a, x).value.value == v) {
      var u :| BuildingValue(s, u, x, k, v);
      assert BuildingValue(s', u, x, k, v);
    }
  }

  lemma LookupPlain(s: State, t: Tid, s': State)
    requires WellTyped(s) && t in s.threads && LookupStep(s, t, s')
    ensures Plain(s, t, s')
  {
    hide WellTyped, Probe, ReducedHash;
  }

  lemma InsertPlain(s: State, t: Tid, s': State)
    requires WellTyped(s) && t in s.threads && InsertStep(s, t, s')
    requires !s.threads[t].pc.Bump? && !s.threads[t].pc.Construct?
    ensures Plain(s, t, s')
  {
    assert Typed(s.a, s.threads[t]);
    hide Probe, ReducedHash;
  }

  lemma ErasePlain(s: State, t: Tid, s': State)
    requires WellTyped(s) && t in s.threads && EraseStep(s, t, s')
    ensures Plain(s, t, s')
  {
    assert Typed(s.a, s.threads[t]);
    hide Probe, ReducedHash;
  }

  lemma ContainerPlain(s: State, t: Tid, s': State)
    requires WellTyped(s) && t in s.threads && ContainerStep(s, t, s')
    requires !(s.threads[t].pc.HoldAll? && s.size == s.ml)
    ensures Plain(s, t, s')
  {
    hide Probe, ReducedHash, WellFormed, Typed, Rehashed;
  }

  /* ---------- slot-level effect of a step ---------- */

  ghost predicate AddedAt(s: State, s': State, slot: Slot, k0: Key, v0: int)
    requires WellTyped(s) && WellTyped(s')
  {
    forall x, k, v :: BindsAt(s', x, k, v) <==> BindsAt(s, x, k, v) || (x == slot && k == k0 && v == v0)
  }

  /** How the bindings of single slots change under an event. */
  ghost predicate SlotEffect(s: State, s': State, event: Event)
    requires WellTyped(s) && WellTyped(s')
  {
    match event
    case Silent =>
      forall x, k, v :: BindsAt(s', x, k, v) <==> BindsAt(s, x, k, v)
    case Added(k0, v0) =>
      && (forall x, v :: !BindsAt(s, x, k0, v))
      && exists slot :: AddedAt(s, s', slot, k0, v0)
    case Removed(k0) =>
      && (exists x, v :: BindsAt(s, x, k0, v))
      && forall x, k, v :: BindsAt(s', x, k, v) <==> BindsAt(s, x, k, v) && k != k0
    case Stored(k0, v0) =>
      && (exists x, v :: BindsAt(s, x, k0, v))
      && forall x, k, v :: BindsAt(s', x, k, v) <==> if k == k0 then v == v0 && Present(s, x, k) else BindsAt(s, x, k, v)
  }

  lemma PlainEffect(s: State, t: Tid, s': State)
    requires WellTyped(s) && WellTyped(s') && Plain(s, t, s')
    ensures SlotEffect(s, s', Silent)
  {
    hide WellTyped, Plain, BindsAt;
    forall x, k, v ensures BindsAt(s', x, k, v) <==> BindsAt(s, x, k, v) {
      PlainBinds(s, t, s', x, k, v);
    }
  }

  lemma BuildingValueOther(s: State, t: Tid, th': Thread, s': State, u: Tid, x: Slot, k: Key, v: int)
    requires WellTyped(s) && WellTyped(s') && Moved(s, t, th', s')
    ensures u != t ==> (BuildingValue(s', u, x, k, v) <==> BuildingValue(s, u, x, k, v))
    ensures BuildingValue(s', t, x, k, v) <==>
      th'.pc.Construct? && th'.op.Insert? && th'.op.e.value == v && KeyOf(th'.op) == k && OwnedSlot(s'.a, th') == Some(x)
  {
    BuildingOther(s, t, th', s', u, x, k);
    hide WellFormed, Probe, Typed;
  }

  lemma WinFacts(s: State, t: Tid, s': State) returns (slot: Slot)
    requires WellTyped(s) && AheadOk(s) && t in s.threads && s.threads[t].pc.Bump? && InsertStep(s, t, s') && s'.threads[t].pc.Construct?
    ensures WellTyped(s') && Moved(s, t, s'.threads[t], s') && s'.a == s.a
    ensures s.threads[t].op.Insert? && s'.threads[t].op == s.threads[t].op && OwnedSlot(s'.a, s'.threads[t]) == Some(slot)
    ensures forall x :: !Present(s, x, KeyOf(s.threads[t].op))
  {
    slot := OwnedSlot(s.a, s.threads[t]).value;
    BumpFacts(s, t, s'.threads[t], s', slot);
    assert Undisturbed(s, t);
    hide InsertStep, WellTyped, Present, Moved, Undisturbed;
    forall x ensures !Present(s, x, KeyOf(s.threads[t].op)) { KeyAbsent(s, t, x); }
  }

  /** The increment that matches the snapshot adds exactly the inserter's key, which was absent. */
  lemma WinEffect(s: State, t: Tid, s': State)
    requires WellTyped(s) && AheadOk(s) && WellTyped(s')
    requires t in s.threads && s.threads[t].pc.Bump? && InsertStep(s, t, s') && s'.threads[t].pc.Construct?
    ensures s.threads[t].op.Insert? && SlotEffect(s, s', Added(KeyOf(s.threads[t].op), s.threads[t].op.e.value))
  {
    var slot := WinFacts(s, t, s');
    var k0, v0 := KeyOf(s.threads[t].op), s.threads[t].op.e.value;
    hide AheadOk, InsertStep, OwnedSlot, WellTyped, Present, BindsAt, Moved;
    forall x, v ensures !BindsAt(s, x, k0, v) {
      PresentBinds(s, x, k0);
    }
    forall x, k, v ensures BindsAt(s', x, k, v) <==> BindsAt(s, x, k, v) || (x == slot && k == k0 && v == v0) {
      WinBinds(s, t, s'.threads[t], s', slot, x, k, v);
    }
    assert AddedAt(s, s', slot, k0, v0);
  }

  lemma WinBinds(s: State, t: Tid, th': Thread, s': State, slot: Slot, x: Slot, k: Key, v: int)
    requires WellTyped(s) && WellTyped(s') && Moved(s, t, th', s') && s'.a == s.a
    requires s.threads[t].pc.Bump? && th'.pc.Construct? && th'.op.Insert? && OwnedSlot(s'.a, th') == Some(slot)
    ensures BindsAt(s', x, k, v) <==> BindsAt(s, x, k, v) || (x == slot && k == KeyOf(th'.op) && v == th'.op.e.value)
  {
    forall u ensures BuildingValue(s', u, x, k, v) <==>
      BuildingValue(s, u, x, k, v) || (u == t && x == slot && k == KeyOf(th'.op) && v == th'.op.e.value)
    {
      BuildingValueOther(s, t, th', s', u, x, k, v);
    }
    hide WellTyped, Moved, HoldsKey, BuildingValue, OwnedSlot;
    if BindsAt(s, x, k, v) && !(HoldsKey(s.a, x, k) && ElementAt(s.a, x).value.value == v) {
      var u :| BuildingValue(s, u, x, k, v);
      assert BuildingValue(s', u, x, k, v);
    }
    if x == slot && k == KeyOf(th'.op) && v == th'.op.e.value {
      assert BuildingValue(s', t, x, k, v);
    }
  }

  lemma ConstructFacts(s: State, t: Tid, s': State) returns (slot: Slot)
    requires WellTyped(s) && SlotsOk(s.a) && OwnedOk(s) && FlagsOk(s) && WellTyped(s')
    requires t in s.threads && s.threads[t].pc.Construct? && InsertStep(s, t, s')
    ensures Moved(s, t, s'.threads[t], s') && SameExcept(s.a, s'.a, slot) && IsSlot(s.a, slot)
    ensures !s'.threads[t].pc.Construct? && OwnedSlot(s.a, s.threads[t]) == Some(slot)
    ensures s.threads[t].op.Insert? && ElementAt(s.a, slot).None? && ElementAt(s'.a, slot) == Some(s.threads[t].op.e)
  {
    slot := ConstructWrites(s, t, s');
    ConstructValue(s, t, s', slot);
    hide InsertStep, WellTyped, SlotsOk, OwnedOk, FlagsOk, OwnedSlot, Moved, SameExcept;
  }

  /** Constructing the element does not change the map: the key has been present since the increment. */
  lemma ConstructEffect(s: State, t: Tid, s': State)
    requires WellTyped(s) && SlotsOk(s.a) && OwnedOk(s) && FlagsOk(s) && WellTyped(s')
    requires t in s.threads && s.threads[t].pc.Construct? && InsertStep(s, t, s')
    ensures SlotEffect(s, s', Silent)
  {
    var slot := ConstructFacts(s, t, s');
    hide InsertStep, WellTyped, SlotsOk, OwnedOk, FlagsOk, Moved, SameExcept, OwnedSlot, BindsAt;
    forall x, k, v ensures BindsAt(s', x, k, v) <==> BindsAt(s, x, k, v) {
      ConstructBinds(s, t, s'.threads[t], s', slot, x, k, v);
    }
  }

  lemma ConstructValue(s: State, t: Tid, s': State, slot: Slot)
    requires WellTyped(s) && WellTyped(s') && t in s.threads && s.threads[t].pc.Construct? && InsertStep(s, t, s')
    requires OwnedSlot(s.a, s.threads[t]) == Some(slot)
    ensures s.threads[t].op.Insert? && IsSlot(s'.a, slot) && ElementAt(s'.a, slot) == Some(s.threads[t].op.e)
  {
    assert Typed(s.a, s.threads[t]);
    hide Probe, ReducedHash;
    PutElement(s.a, slot, Some(s.threads[t].op.e));
  }

  lemma ConstructBinds(s: State, t: Tid, th': Thread, s': State, slot: Slot, x: Slot, k: Key, v: int)
    requires WellTyped(s) && WellTyped(s') && Moved(s, t, th', s') && SameExcept(s.a, s'.a, slot) && IsSlot(s.a, slot)
    requires s.threads[t].pc.Construct? && !th'.pc.Construct? && OwnedSlot(s.a, s.threads[t]) == Some(slot)
    requires s.threads[t].op.Insert? && ElementAt(s.a, slot).None? && ElementAt(s'.a, slot) == Some(s.threads[t].op.e)
    ensures BindsAt(s', x, k, v) <==> BindsAt(s, x, k, v)
  {
    var e := s.threads[t].op.e;
    forall u ensures BuildingValue(s', u, x, k, v) <==> u != t && BuildingValue(s, u, x, k, v) {
      BuildingValueOther(s, t, th', s', u, x, k, v);
    }
    assert BuildingValue(s, t, x, k, v) <==> x == slot && k == e.key && v == e.value by { hide Probe, WellFormed, Typed; }
    ElementsAfter(s.a, s'.a, slot, x, k);
    hide HoldsKey, BuildingValue, SameExcept, Moved, WellTyped, OwnedSlot;
    if BindsAt(s, x, k, v) && !(HoldsKey(s.a, x, k) && ElementAt(s.a, x).value.value == v) {
      var u :| BuildingValue(s, u, x, k, v);
      assert u != t ==> BuildingValue(s', u, x, k, v);
    }
  }

  /** Keys and values held by slots after a one-slot change. */
  lemma ElementsAfter(a: Arrays, b: Arrays, slot: Slot, x: Slot, k: Key)
    requires WellFormed(a) && WellFormed(b) && SameExcept(a, b, slot) && IsSlot(a, slot)
    ensures x != slot ==> (HoldsKey(b, x, k) <==> HoldsKey(a, x, k)) && (HoldsKey(a, x, k) ==> ElementAt(b, x) == ElementAt(a, x))
    ensures x == slot ==> (HoldsKey(b, x, k) <==> ElementAt(b, slot).Some? && ElementAt(b, slot).value.key == k)
    ensures x == slot ==> (HoldsKey(a, x, k) <==> ElementAt(a, slot).Some? && ElementAt(a, slot).value.key == k)
  {
    hide WellFormed, MarksKept;
  }

  /* ---------- visiting and erasing ---------- */

  /** A step at a found slot changes that slot alone. */
  lemma FoundBinds(s: State, t: Tid, th': Thread, s': State, slot: Slot, x: Slot, k: Key, v: int)
    requires WellTyped(s) && WellTyped(s') && OwnedOk(s) && Moved(s, t, th', s') && SameExcept(s.a, s'.a, slot) && IsSlot(s.a, slot)
    requires s.threads[t].pc.Found? && !th'.pc.Construct? && ElementAt(s.a, slot).Some?
    ensures x != slot ==> (BindsAt(s', x, k, v) <==> BindsAt(s, x, k, v))
    ensures x == slot ==> (BindsAt(s', x, k, v) <==> ElementAt(s'.a, slot) == Some(Element(k, v)))
    ensures x == slot ==> (BindsAt(s, x, k, v) <==> ElementAt(s.a, slot) == Some(Element(k, v)))
  {
    forall u ensures BuildingValue(s', u, x, k, v) <==> BuildingValue(s, u, x, k, v) {
      BuildingValueOther(s, t, th', s', u, x, k, v);
    }
    forall u ensures !BuildingValue(s, u, slot, k, v) {
      assert !OwnsSlot(s, u, slot);
    }
    ElementsAfter(s.a, s'.a, slot, x, k);
    hide HoldsKey, BuildingValue, SameExcept, Moved, WellTyped, OwnedOk, OwnsSlot;
    if BindsAt(s, x, k, v) && !(HoldsKey(s.a, x, k) && ElementAt(s.a, x).value.value == v) {
      var u :| BuildingValue(s, u, x, k, v);
      assert BuildingValue(s', u, x, k, v);
    }
  }

  /** The key of a found slot is bound nowhere else. */
  lemma OnlyThere(s: State, slot: Slot, x: Slot, k: Key, v: int)
    requires WellTyped(s) && UniqueOk(s) && HoldsKey(s.a, slot, k) && BindsAt(s, x, k, v)
    ensures x == slot
  {
    PresentBinds(s, x, k);
    assert Present(s, slot, k);
  }

  /** Destroying or overwriting the element of the found slot affects its key alone. */
  lemma FoundSlotEffect(s: State, t: Tid, th': Thread, s': State, slot: Slot, k0: Key)
    requires WellTyped(s) && WellTyped(s') && OwnedOk(s) && UniqueOk(s) && Moved(s, t, th', s') && SameExcept(s.a, s'.a, slot)
    requires s.threads[t].pc.Found? && !th'.pc.Construct? && HoldsKey(s.a, slot, k0)
    ensures exists x, v :: BindsAt(s, x, k0, v)
    ensures forall x, k, v :: k != k0 && x == slot ==> !BindsAt(s, x, k, v)
    ensures forall x, k, v :: k == k0 && x != slot ==> !BindsAt(s, x, k, v)
    ensures forall x, k, v :: x != slot ==> (BindsAt(s', x, k, v) <==> BindsAt(s, x, k, v))
    ensures forall k, v :: BindsAt(s', slot, k, v) <==> ElementAt(s'.a, slot) == Some(Element(k, v))
    ensures forall x :: Present(s, x, k0) <==> x == slot
  {
    forall x ensures Present(s, x, k0) <==> x == slot {
      assert Present(s, slot, k0);
    }
    var e0 := ElementAt(s.a, slot).value;
    assert e0.key == k0 && IsSlot(s.a, slot) && IsSlot(s'.a, slot) && ElementAt(s.a, slot) == Some(e0);
    hide WellTyped, Moved, SameExcept, BindsAt, OwnedOk, UniqueOk, HoldsKey, Present;
    FoundBinds(s, t, th', s', slot, slot, k0, e0.value);
    assert BindsAt(s, slot, k0, e0.value);
    forall x, k, v
      ensures x != slot ==> (BindsAt(s', x, k, v) <==> BindsAt(s, x, k, v))
      ensures x == slot ==> (BindsAt(s', x, k, v) <==> ElementAt(s'.a, slot) == Some(Element(k, v)))
      ensures k != k0 && x == slot ==> !BindsAt(s, x, k, v)
      ensures k == k0 && x != slot ==> !BindsAt(s, x, k, v)
    {
      FoundBinds(s, t, th', s', slot, x, k, v);
      if BindsAt(s, x, k, v) && k == k0 { OnlyThere(s, slot, x, k, v); }
    }
  }

  lemma DestroyEffect(s: State, t: Tid, s': State)
    requires Inv(s) && WellTyped(s') && t in s.threads && s.threads[t].pc.Found? && FoundStep(s, t, s') && t in s'.threads && s'.threads[t].pc.Unpaid?
    ensures SlotEffect(s, s', Removed(KeyOf(s.threads[t].op)))
  {
    InvAll(s);
    hide Inv, Probe, SlotsOk, OwnedOk, GroupLocksOk, TakenOk, FlagsOk, CountersOk, UniqueOk, AheadOk, CountsOk, ContainerOk;
    var slot := FoundSlot(s.a, s.threads[t]);
    DestroyFacts(s, t, s', slot);
    hide *;
    FoundSlotEffect(s, t, s'.threads[t], s', slot, KeyOf(s.threads[t].op));
    RemovedEffect(s, s', slot, KeyOf(s.threads[t].op));
  }

  lemma RemovedEffect(s: State, s': State, slot: Slot, k0: Key)
    requires WellTyped(s) && WellTyped(s') && IsSlot(s'.a, slot) && ElementAt(s'.a, slot).None?
    requires exists x, v :: BindsAt(s, x, k0, v)
    requires forall x, k, v :: k != k0 && x == slot ==> !BindsAt(s, x, k, v)
    requires forall x, k, v :: k == k0 && x != slot ==> !BindsAt(s, x, k, v)
    requires forall x, k, v :: x != slot ==> (BindsAt(s', x, k, v) <==> BindsAt(s, x, k, v))
    requires forall k, v :: BindsAt(s', slot, k, v) <==> ElementAt(s'.a, slot) == Some(Element(k, v))
    ensures SlotEffect(s, s', Removed(k0))
  {
    hide WellTyped, BindsAt;
  }

  lemma DestroyFacts(s: State, t: Tid, s': State, slot: Slot)
    requires WellTyped(s) && SlotsOk(s.a) && t in s.threads && s.threads[t].pc.Found? && FoundStep(s, t, s')
    requires WellTyped(s') && t in s'.threads && slot == FoundSlot(s.a, s.threads[t]) && s'.threads[t].pc.Unpaid?
    ensures Moved(s, t, s'.threads[t], s') && SameExcept(s.a, s'.a, slot) && HoldsKey(s.a, slot, KeyOf(s.threads[t].op))
    ensures IsSlot(s'.a, slot) && ElementAt(s'.a, slot).None?
  {
    DestroyWrites(s, t, s', slot);
    hide WellTyped, SlotsOk, FoundStep, Balanced, Probe;
    assert IsSlot(s.a, slot);
  }

  lemma StoreEffect(s: State, t: Tid, s': State)
    requires Inv(s) && WellTyped(s') && t in s.threads && s.threads[t].pc.Found? && FoundStep(s, t, s')
    requires !s.threads[t].op.Erase? && s.threads[t].op.write.Some?
    ensures SlotEffect(s, s', Stored(KeyOf(s.threads[t].op), s.threads[t].op.write.value(FoundValue(s, t))))
  {
    InvAll(s);
    hide Inv, Probe, SlotsOk, OwnedOk, GroupLocksOk, TakenOk, FlagsOk, CountersOk, UniqueOk, AheadOk, CountsOk, ContainerOk;
    var slot := FoundSlot(s.a, s.threads[t]);
    var k0, v0 := KeyOf(s.threads[t].op), s.threads[t].op.write.value(FoundValue(s, t));
    StoreFacts(s, t, s', slot);
    hide *;
    FoundSlotEffect(s, t, s'.threads[t], s', slot, k0);
    StoredEffect(s, s', slot, k0, v0);
  }

  lemma StoredEffect(s: State, s': State, slot: Slot, k0: Key, v0: int)
    requires WellTyped(s) && WellTyped(s') && IsSlot(s'.a, slot) && ElementAt(s'.a, slot) == Some(Element(k0, v0))
    requires exists x, v :: BindsAt(s, x, k0, v)
    requires forall x, k, v :: k != k0 && x == slot ==> !BindsAt(s, x, k, v)
    requires forall x, k, v :: x != slot ==> (BindsAt(s', x, k, v) <==> BindsAt(s, x, k, v))
    requires forall x, k, v :: k == k0 && x != slot ==> !BindsAt(s, x, k, v)
    requires forall k, v :: BindsAt(s', slot, k, v) <==> ElementAt(s'.a, slot) == Some(Element(k, v))
    requires forall x :: Present(s, x, k0) <==> x == slot
    ensures SlotEffect(s, s', Stored(k0, v0))
  {
    hide WellTyped, BindsAt, Present;
  }

  lemma StoreFacts(s: State, t: Tid, s': State, slot: Slot)
    requires WellTyped(s) && t in s.threads && s.threads[t].pc.Found? && FoundStep(s, t, s') && slot == FoundSlot(s.a, s.threads[t])
    requires !s.threads[t].op.Erase? && s.threads[t].op.write.Some? && WellTyped(s')
    ensures Moved(s, t, s'.threads[t], s') && SameExcept(s.a, s'.a, slot) && HoldsKey(s.a, slot, KeyOf(s.threads[t].op))
    ensures IsSlot(s'.a, slot) && ElementAt(s'.a, slot) == Some(Element(KeyOf(s.threads[t].op), s.threads[t].op.write.value(FoundValue(s, t))))
    ensures !s'.threads[t].pc.Construct?
  {
    var th := s.threads[t];
    assert Typed(s.a, th);
    PutElement(s.a, slot, Some(ElementAt(s.a, slot).value.(value := th.op.write.value(ElementAt(s.a, slot).value.value))));
    hide Probe, ReducedHash, WellFormed;
  }

  lemma ReadPlain(s: State, t: Tid, s': State)
    requires WellTyped(s) && t in s.threads && s.threads[t].pc.Found? && FoundStep(s, t, s') && !s'.threads[t].pc.Unpaid?
    requires s.threads[t].op.Erase? || s.threads[t].op.write.None?
    ensures Plain(s, t, s')
  {
    hide Probe, ReducedHash, WellTyped;
  }

  lemma FoundEffect(s: State, t: Tid, s': State)
    requires Inv(s) && WellTyped(s') && t in s.threads && s.threads[t].pc.Found? && FoundStep(s, t, s')
    ensures SlotEffect(s, s', EventOf(s, t, s'))
  {
    hide Inv, SlotEffect, WellTyped;
    assert WellTyped(s) by { InvParts(s); }
    if s'.threads[t].pc.Unpaid? {
      DestroyEffect(s, t, s');
    } else if s.threads[t].op.Erase? || s.threads[t].op.write.None? {
      ReadPlain(s, t, s');
      PlainEffect(s, t, s');
    } else {
      StoreEffect(s, t, s');
    }
  }

  /** Every step but a rehash has the slot-level effect of its event. */
  lemma StepEffect(s: State, t: Tid, s': State)
    requires Inv(s) && Inv(s') && Step(s, t, s')
    requires !(s.threads[t].pc.HoldAll? && s.size == s.ml)
    ensures SlotEffect(s, s', EventOf(s, t, s'))
  {
    InvParts(s);
    InvParts(s');
    hide Inv, WellTyped, SlotEffect, LookupStep, FoundStep, InsertStep, EraseStep, ContainerStep;
    if s.threads[t].pc.Found? && FoundStep(s, t, s') {
      FoundEffect(s, t, s');
    } else if s.threads[t].pc.Found? {
      NotFoundStep(s, t, s');
    } else if InsertStep(s, t, s') {
      InsertKeeps(s, t, s');
      InsertEffect(s, t, s');
    } else {
      OtherPlain(s, t, s');
      PlainEffect(s, t, s');
    }
  }

  lemma NotFoundStep(s: State, t: Tid, s': State)
    requires WellTyped(s) && t in s.threads && s.threads[t].pc.Found?
    ensures !LookupStep(s, t, s') && !InsertStep(s, t, s') && !EraseStep(s, t, s') && !ContainerStep(s, t, s')
  {
    hide WellTyped;
  }

  lemma InsertEffect(s: State, t: Tid, s': State)
    requires Inv(s) && Inv(s') && t in s.threads && t in s'.threads && InsertStep(s, t, s')
    ensures SlotEffect(s, s', EventOf(s, t, s'))
  {
    hide *;
    InvAll(s);
    InvAll(s');
    if s.threads[t].pc.Bump? && s'.threads[t].pc.Construct? {
      WinEffect(s, t, s');
      WinEvent(s, t, s');
    } else if s.threads[t].pc.Construct? {
      InsertSilent(s, t, s');
      ConstructEffect(s, t, s');
    } else {
      if s.threads[t].pc.Bump? { LosePlain(s, t, s'); } else { InsertPlain(s, t, s'); }
      InsertSilent(s, t, s');
      PlainEffect(s, t, s');
    }
  }

  lemma WinEvent(s: State, t: Tid, s': State)
    requires t in s.threads && t in s'.threads && s.threads[t].pc.Bump? && s'.threads[t].pc.Construct? && s.threads[t].op.Insert?
    ensures EventOf(s, t, s') == Added(KeyOf(s.threads[t].op), s.threads[t].op.e.value)
  {
  }

  lemma LosePlain(s: State, t: Tid, s': State)
    requires WellTyped(s) && t in s.threads && InsertStep(s, t, s') && s.threads[t].pc.Bump? && !s'.threads[t].pc.Construct?
    ensures Plain(s, t, s')
  {
    hide Probe, ReducedHash, WellTyped;
  }

  lemma InsertSilent(s: State, t: Tid, s': State)
    requires WellTyped(s) && t in s.threads && InsertStep(s, t, s')
    requires !(s.threads[t].pc.Bump? && s'.threads[t].pc.Construct?)
    ensures EventOf(s, t, s') == Silent
  {
    hide Probe, ReducedHash, WellTyped;
  }

  lemma OtherPlain(s: State, t: Tid, s': State)
    requires WellTyped(s) && t in s.threads && !s.threads[t].pc.Found?
    requires LookupStep(s, t, s') || EraseStep(s, t, s') || ContainerStep(s, t, s')
    requires !(s.threads[t].pc.HoldAll? && s.size == s.ml)
    ensures Plain(s, t, s') && EventOf(s, t, s') == Silent
  {
    hide Probe, ReducedHash, WellTyped;
    assert EventOf(s, t, s') == Silent;
    hide LookupStep, EraseStep, ContainerStep;
    if LookupStep(s, t, s') {
      LookupPlain(s, t, s');
    } else if EraseStep(s, t, s') {
      ErasePlain(s, t, s');
    } else {
      ContainerPlain(s, t, s');
    }
  }

  /* ---------- the table as an atomic map ---------- */

  /** How the abstract map changes under an event. */
  ghost predicate MapEffect(s: State, s': State, event: Event)
    requires WellTyped(s) && WellTyped(s')
  {
    match event
    case Silent =>
      forall k, v :: Binds(s', k, v) <==> Binds(s, k, v)
    case Added(k0, v0) =>
      (forall v :: !Binds(s, k0, v)) && forall k, v :: Binds(s', k, v) <==> Binds(s, k, v) || (k == k0 && v == v0)
    case Removed(k0) =>
      (exists v :: Binds(s, k0, v)) && forall k, v :: Binds(s', k, v) <==> Binds(s, k, v) && k != k0
    case Stored(k0, v0) =>
      (exists v :: Binds(s, k0, v)) && forall k, v :: Binds(s', k, v) <==> if k == k0 then v == v0 else Binds(s, k, v)
  }

  lemma SlotToMap(s: State, s': State, event: Event)
    requires WellTyped(s) && WellTyped(s') && SlotEffect(s, s', event)
    ensures MapEffect(s, s', event)
  {
    hide WellTyped, BindsAt;
    match event
    case Silent => SilentToMap(s, s');
    case Added(k0, v0) => AddedToMap(s, s', k0, v0);
    case Removed(k0) => RemovedToMap(s, s', k0);
    case Stored(k0, v0) => StoredToMap(s, s', k0, v0);
  }

  lemma SilentToMap(s: State, s': State)
    requires WellTyped(s) && WellTyped(s') && SlotEffect(s, s', Silent)
    ensures MapEffect(s, s', Silent)
  {
    hide WellTyped, BindsAt;
    forall k, v ensures Binds(s', k, v) <==> Binds(s, k, v) {
      if Binds(s, k, v) { var x :| BindsAt(s, x, k, v); assert BindsAt(s', x, k, v); }
    }
  }

  lemma AddedToMap(s: State, s': State, k0: Key, v0: int)
    requires WellTyped(s) && WellTyped(s') && SlotEffect(s, s', Added(k0, v0))
    ensures MapEffect(s, s', Added(k0, v0))
  {
    hide WellTyped, BindsAt;
    var slot :| AddedAt(s, s', slot, k0, v0);
    assert BindsAt(s', slot, k0, v0);
    forall k, v ensures Binds(s', k, v) <==> Binds(s, k, v) || (k == k0 && v == v0) {
      if Binds(s, k, v) { var x :| BindsAt(s, x, k, v); assert BindsAt(s', x, k, v); }
    }
  }

  lemma RemovedToMap(s: State, s': State, k0: Key)
    requires WellTyped(s) && WellTyped(s') && SlotEffect(s, s', Removed(k0))
    ensures MapEffect(s, s', Removed(k0))
  {
    hide WellTyped, BindsAt;
    var x0, v0 :| BindsAt(s, x0, k0, v0);
    assert Binds(s, k0, v0);
    forall k, v ensures Binds(s', k, v) <==> Binds(s, k, v) && k != k0 {
      if Binds(s, k, v) && k != k0 { var x :| BindsAt(s, x, k, v); assert BindsAt(s', x, k, v); }
    }
  }

  lemma StoredToMap(s: State, s': State, k0: Key, v0: int)
    requires WellTyped(s) && WellTyped(s') && SlotEffect(s, s', Stored(k0, v0))
    ensures MapEffect(s, s', Stored(k0, v0))
  {
    var x0, u0 :| BindsAt(s, x0, k0, u0);
    PresentBinds(s, x0, k0);
    hide WellTyped, BindsAt, Present;
    assert Binds(s, k0, u0);
    assert BindsAt(s', x0, k0, v0);
    forall k, v ensures Binds(s', k, v) <==> if k == k0 then v == v0 else Binds(s, k, v) {
      if k != k0 && Binds(s, k, v) { var x :| BindsAt(s, x, k, v); assert BindsAt(s', x, k, v); }
    }
  }

  /** At rest the abstract map is the contents of the arrays. */
  lemma RestBinds(s: State, k: Key, v: int)
    requires WellTyped(s) && UniqueKeys(s.a) && forall t :: t in s.threads ==> !Inside(s.threads[t].pc)
    ensures Binds(s, k, v) <==> k in Contents(s.a) && Contents(s.a)[k] == v
  {
    ContentsAt(s.a, k);
    hide WellTyped;
    forall x ensures BindsAt(s, x, k, v) <==> HoldsKey(s.a, x, k) && ElementAt(s.a, x).value.value == v {}
    hide BindsAt, HoldsKey;
    if k in Contents(s.a) && Contents(s.a)[k] == v {
      var x :| HoldsKey(s.a, x, k);
      assert BindsAt(s, x, k, v);
    }
  }

  lemma RehashSilent(s: State, t: Tid, s': State)
    requires Inv(s) && Inv(s') && t in s.threads && s.threads[t].pc.HoldAll? && s.size == s.ml && ContainerStep(s, t, s')
    ensures MapEffect(s, s', Silent)
  {
    hide *;
    InvAll(s);
    InvAll(s');
    RehashState(s, t, s');
    RehashOutside(s, t, s');
    RehashedArrays(s);
    Quiescent(s);
    Quiescent(s');
    ValidParts(s.a);
    ValidParts(s'.a);
    forall k, v ensures Binds(s', k, v) <==> Binds(s, k, v) {
      RestBinds(s, k, v);
      RestBinds(s', k, v);
    }
    NothingChanged(s, s');
  }

  lemma NothingChanged(s: State, s': State)
    requires WellTyped(s) && WellTyped(s') && forall k, v :: Binds(s', k, v) <==> Binds(s, k, v)
    ensures MapEffect(s, s', Silent)
  {
  }

  /** Every step of every thread is a step of an atomic map, given by its event. */
  lemma AtomicStep(s: State, t: Tid, s': State)
    requires Inv(s) && Step(s, t, s')
    ensures WellTyped(s') && MapEffect(s, s', EventOf(s, t, s'))
  {
    StepInv(s, t, s');
    InvParts(s);
    InvParts(s');
    hide Inv, WellTyped, SlotEffect, MapEffect;
    if s.threads[t].pc.HoldAll? && s.size == s.ml {
      HoldAllStep(s, t, s');
      RehashSilent(s, t, s');
    } else {
      StepEffect(s, t, s');
      SlotToMap(s, s', EventOf(s, t, s'));
    }
  }

  /** The abstract map is a function: one value per key. */
  lemma BindsOnce(s: State, k: Key, u: int, v: int)
    requires Inv(s) && Binds(s, k, u) && Binds(s, k, v)
    ensures u == v
  {
    InvParts(s);
    var x :| BindsAt(s, x, k, u);
    var y :| BindsAt(s, y, k, v);
    PresentBinds(s, x, k);
    PresentBinds(s, y, k);
    assert x == y by { hide WellTyped, Present; }
    OneValue(s, x, k, u, v);
  }

  lemma OneValue(s: State, x: Slot, k: Key, u: int, v: int)
    requires WellTyped(s) && GroupLocksOk(s) && OwnedOk(s) && BindsAt(s, x, k, u) && BindsAt(s, x, k, v)
    ensures u == v
  {
    forall t, w | BuildingValue(s, t, x, k, w) ensures OwnsSlot(s, t, x) && !HoldsKey(s.a, x, k) && s.threads[t].op.e.value == w {
      assert OwnsSlot(s, t, x);
    }
    forall t, t' | OwnsSlot(s, t, x) && OwnsSlot(s, t', x) ensures t == t' {
      OneOwner(s, t, t', x);
    }
    hide WellTyped, GroupLocksOk, OwnedOk, OwnsSlot, BuildingValue, HoldsKey;
  }

  lemma StartPlain(s: State, t: Tid, op: Op, s': State)
    requires WellTyped(s) && Start(s, t, op, s')
    ensures Plain(s, t, s')
  {
    hide WellTyped;
  }

  lemma StartSilent(s: State, t: Tid, op: Op, s': State)
    requires Inv(s) && Start(s, t, op, s')
    ensures WellTyped(s') && MapEffect(s, s', Silent)
  {
    StartKept(s, t, op, s');
    InvParts(s);
    InvParts(s');
    StartPlain(s, t, op, s');
    hide Start, Inv, WellTyped, Plain, SlotEffect, MapEffect;
    PlainEffect(s, t, s');
    SlotToMap(s, s', Silent);
  }

  /* ---------- successful insertions and erasures alternate ---------- */

  /** A run together with the thread that moves at each step. */
  ghost predicate Trace(r: seq<State>, who: seq<Tid>) {
    && Run(r) && |who| == |r| - 1
    && forall i :: 0 <= i < |who| ==> WellTyped(r[i]) && Moves(r[i], who[i], r[i + 1])
  }

  ghost function EventAt(r: seq<State>, who: seq<Tid>, i: nat): Event
    requires i < |who| && |who| == |r| - 1
  {
    if who[i] in r[i].threads then EventOf(r[i], who[i], r[i + 1]) else Silent
  }

  /** Successful insertions of k minus successful erasures of k from step m up to step n. */
  ghost function Ledger(r: seq<State>, who: seq<Tid>, k: Key, m: nat, n: nat): int
    requires m <= n <= |who| && |who| == |r| - 1
  {
    if n == m then 0 else
      Ledger(r, who, k, m, n - 1) +
      match EventAt(r, who, n - 1)
      case Added(k', _) => if k' == k then 1 else 0
      case Removed(k') => if k' == k then -1 else 0
      case _ => 0
  }

  ghost function Presence(s: State, k: Key): int
    requires WellTyped(s)
  {
    if exists v :: Binds(s, k, v) then 1 else 0
  }

  lemma MoveEffect(s: State, t: Tid, s': State)
    requires Inv(s) && Moves(s, t, s') && !ExclusiveStep(s, s')
    ensures WellTyped(s') && MapEffect(s, s', if t in s.threads then EventOf(s, t, s') else Silent)
  {
    InvParts(s);
    hide Inv, MapEffect, WellTyped, Step, ExclusiveStep;
    if Step(s, t, s') {
      assert t in s.threads by { StepThread(s, t, s'); }
      AtomicStep(s, t, s');
    } else {
      var op :| Start(s, t, op, s');
      StartSilent(s, t, op, s');
    }
  }

  lemma StepThread(s: State, t: Tid, s': State)
    requires WellTyped(s) && Step(s, t, s')
    ensures t in s.threads
  {
  }

  lemma LedgerStep(s: State, s': State, event: Event, k: Key)
    requires WellTyped(s) && WellTyped(s') && MapEffect(s, s', event)
    ensures Presence(s', k) == Presence(s, k) +
      match event
      case Added(k', _) => if k' == k then 1 else 0
      case Removed(k') => if k' == k then -1 else 0
      case _ => 0
  {
    hide WellTyped, Binds;
    match event
    case Silent => assert forall v :: Binds(s', k, v) <==> Binds(s, k, v);
    case Added(k', v') => assert Binds(s', k', v'); assert k' != k ==> forall v :: Binds(s', k, v) <==> Binds(s, k, v);
    case Removed(k') => assert k' != k ==> forall v :: Binds(s', k, v) <==> Binds(s, k, v);
    case Stored(k', v') => assert Binds(s', k', v'); assert k' != k ==> forall v :: Binds(s', k, v) <==> Binds(s, k, v);
  }

  /** In every run and for every key, insertions and erasures that succeeded balance up to its presence, over any stretch
      without an operation under exclusive access that may exchange the contents; a new table starts without keys. */
  lemma {:induction false} LedgerBalances(r: seq<State>, who: seq<Tid>, k: Key, m: nat, n: nat)
    requires Trace(r, who) && m <= n <= |who| && forall i :: m <= i < n ==> !ExclusiveStep(r[i], r[i + 1])
    ensures WellTyped(r[m]) && WellTyped(r[n]) && (m == 0 ==> Presence(r[m], k) == 0)
    ensures Ledger(r, who, k, m, n) == Presence(r[n], k) - Presence(r[m], k)
  {
    hide Run, Inv, WellTyped, Moves, ExclusiveStep, Presence;
    RunInv(r, n);
    InvParts(r[n]);
    if n == m {
      if m == 0 { NothingAtFirst(r, k); }
    } else {
      LedgerBalances(r, who, k, m, n - 1);
      RunInv(r, n - 1);
      assert WellTyped(r[n - 1]) && Moves(r[n - 1], who[n - 1], r[n - 1 + 1]) && !ExclusiveStep(r[n - 1], r[n - 1 + 1]);
      LedgerNext(r, who, k, n - 1);
    }
  }

  lemma NothingAtFirst(r: seq<State>, k: Key)
    requires Run(r) && WellTyped(r[0])
    ensures Presence(r[0], k) == 0
  {
    hide Init, Next, Binds, WellTyped;
    InitEmpty(r[0], k);
  }

  lemma LedgerNext(r: seq<State>, who: seq<Tid>, k: Key, n: nat)
    requires n < |who| && |who| == |r| - 1 && Inv(r[n]) && WellTyped(r[n]) && WellTyped(r[n + 1])
    requires Moves(r[n], who[n], r[n + 1]) && !ExclusiveStep(r[n], r[n + 1])
    ensures Presence(r[n + 1], k) == Presence(r[n], k) +
      match EventAt(r, who, n)
      case Added(k', _) => if k' == k then 1 else 0
      case Removed(k') => if k' == k then -1 else 0
      case _ => 0
  {
    hide Inv, Presence, Moves, WellTyped, MapEffect, EventOf, ExclusiveStep;
    MoveEffect(r[n], who[n], r[n + 1]);
    LedgerStep(r[n], r[n + 1], EventAt(r, who, n), k);
  }

  lemma InitEmpty(s: State, k: Key)
    requires Init(s) && WellTyped(s)
    ensures forall v :: !Binds(s, k, v)
  {
    var n: nat :| n / N + 1 <= Pow2(BITS - 1) && s.a == NewArrays(n);
    NewValid(n);
    hide NewArrays;
    forall v ensures !Binds(s, k, v) { RestBinds(s, k, v); }
  }

  /* ---------- the maximum load ---------- */

  /** The step gives up a place below the maximum load: the element just destroyed was in a group that is overflowed for
      its hash. */
  ghost predicate Lowers(s: State, t: Tid) {
    && WellTyped(s) && t in s.threads && s.threads[t].pc.Unpaid?
    && HashOf(s.threads[t]) % 8 in s.a.groups[GroupOf(s.a, s.threads[t], s.threads[t].pc.step)].overflow
  }

  lemma LookupLoad(s: State, t: Tid, s': State)
    requires WellTyped(s) && t in s.threads && LookupStep(s, t, s')
    ensures s'.ml == s.ml && !s.threads[t].pc.Unpaid? && !s.threads[t].pc.HoldAll?
  {
    hide WellTyped, Probe, ReducedHash;
  }

  lemma FoundLoad(s: State, t: Tid, s': State)
    requires WellTyped(s) && t in s.threads && s.threads[t].pc.Found? && FoundStep(s, t, s')
    ensures s'.ml == s.ml
  {
    hide WellTyped, Probe, ReducedHash, ConcurrentTable.Visited;
  }

  lemma InsertLoad(s: State, t: Tid, s': State)
    requires WellTyped(s) && t in s.threads && InsertStep(s, t, s')
    ensures s'.ml == s.ml && !s.threads[t].pc.Unpaid? && !s.threads[t].pc.HoldAll?
  {
    hide WellTyped, Probe, ReducedHash;
  }

  lemma EraseLoad(s: State, t: Tid, s': State)
    requires WellTyped(s) && OwnedOk(s) && t in s.threads && EraseStep(s, t, s')
    ensures s'.ml == s.ml - if Lowers(s, t) then 1 else 0
  {
    var th := s.threads[t];
    assert Typed(s.a, th);
    if th.pc.Unpaid? {
      assert OwnsSlot(s, t, Slot(GroupOf(s.a, th, th.pc.step), th.pc.n));
    }
    hide Probe;
  }

  lemma ContainerLoad(s: State, t: Tid, s': State)
    requires WellTyped(s) && t in s.threads && ContainerStep(s, t, s')
    ensures !s.threads[t].pc.Unpaid?
    ensures if s.threads[t].pc.HoldAll? && s.size == s.ml
      then s.size >= 0 && CanGrow(s.size) && s'.ml == InitialMaxLoad(CapacityFor(GrowthRequest(s.size)))
      else s'.ml == s.ml
  {
    if s.threads[t].pc.HoldAll? && s.size == s.ml {
      RehashState(s, t, s');
      RehashCapacities(s);
    }
    hide WellTyped, Probe, ReducedHash, Rehashed, CanGrow, InitialMaxLoad, Capacity, CapacityFor, GrowthRequest;
  }

  lemma RehashCapacities(s: State)
    requires s.size >= 0 && CanGrow(s.size)
    ensures Capacity(Rehashed(s).a) == CapacityFor(GrowthRequest(s.size))
  {
    hide Transfer;
  }

  /** Apart from rehashing, ml only changes in an erasure, and there exactly if the erased element was in a group that is
      overflowed for its hash; rehashing sets it to 7/8 of the new capacity. */
  lemma LoadStep(s: State, t: Tid, s': State)
    requires Inv(s) && Moves(s, t, s') && !ExclusiveStep(s, s')
    ensures if t in s.threads && s.threads[t].pc.HoldAll? && s.size == s.ml
      then s.size >= 0 && CanGrow(s.size) && s'.ml == InitialMaxLoad(CapacityFor(GrowthRequest(s.size)))
      else s'.ml == s.ml - if Lowers(s, t) then 1 else 0
  {
    InvAll(s);
    hide Inv, WellTyped, OwnedOk, Step, ExclusiveStep, CanGrow;
    if Step(s, t, s') {
      hide *;
      StepLoad(s, t, s');
    }
  }

  lemma StepLoad(s: State, t: Tid, s': State)
    requires WellTyped(s) && OwnedOk(s) && Step(s, t, s')
    ensures t in s.threads
    ensures if s.threads[t].pc.HoldAll? && s.size == s.ml
      then s.size >= 0 && CanGrow(s.size) && s'.ml == InitialMaxLoad(CapacityFor(GrowthRequest(s.size)))
      else s'.ml == s.ml - if Lowers(s, t) then 1 else 0
  {
    hide WellTyped, OwnedOk, LookupStep, FoundStep, InsertStep, EraseStep, ContainerStep, CanGrow, Lowers, InitialMaxLoad;
    LowersOnly(s, t);
    if LookupStep(s, t, s') {
      LookupLoad(s, t, s');
    } else if s.threads[t].pc.Found? && FoundStep(s, t, s') {
      FoundLoad(s, t, s');
    } else if InsertStep(s, t, s') {
      InsertLoad(s, t, s');
    } else if EraseStep(s, t, s') {
      ErasingOnly(s, t, s');
      EraseLoad(s, t, s');
    } else {
      ContainerLoad(s, t, s');
    }
  }

  lemma LowersOnly(s: State, t: Tid)
    ensures Lowers(s, t) ==> t in s.threads && s.threads[t].pc.Unpaid?
  {
    hide WellTyped;
  }

  lemma ErasingOnly(s: State, t: Tid, s': State)
    requires WellTyped(s) && t in s.threads && EraseStep(s, t, s')
    ensures !s.threads[t].pc.HoldAll?
  {
    hide WellTyped, Probe;
  }

  /** Number of steps from m up to n that give up a place. */
  ghost function Given(r: seq<State>, who: seq<Tid>, m: nat, n: nat): nat
    requires m <= n <= |who| && |who| == |r| - 1
  {
    if n == m then 0 else Given(r, who, m, n - 1) + if Lowers(r[n - 1], who[n - 1]) then 1 else 0
  }

  ghost predicate Rehashes(s: State, t: Tid) {
    t in s.threads && s.threads[t].pc.HoldAll? && s.size == s.ml
  }

  /** Over any stretch without a rehash, ml falls by exactly the number of erasures from groups overflowed for the hash. */
  lemma {:induction false} LoadLedger(r: seq<State>, who: seq<Tid>, m: nat, n: nat)
    requires Trace(r, who) && |who| == |r| - 1 && m <= n <= |who|
    requires forall i :: m <= i < n ==> !ExclusiveStep(r[i], r[i + 1]) && !Rehashes(r[i], who[i])
    ensures r[n].ml == r[m].ml - Given(r, who, m, n)
  {
    hide Run, Inv, WellTyped, Moves, ExclusiveStep, Lowers;
    if m < n {
      LoadLedger(r, who, m, n - 1);
      RunInv(r, n - 1);
      assert Moves(r[n - 1], who[n - 1], r[n - 1 + 1]) && !ExclusiveStep(r[n - 1], r[n - 1 + 1]) && !Rehashes(r[n - 1], who[n - 1]);
      hide Trace;
      LoadStep(r[n - 1], who[n - 1], r[n]);
    }
  }
}
