/** Visiting and erasing a found element keeps the invariant. */
module ConcurrentErase {
  import opened SizePolicy
  import opened QuadraticProber
  import opened Groups
  import opened Arrays
  import opened Wrappers
  import opened ArrayLaws
  import opened ConcurrentTable
  import opened ConcurrentInvariant
  import opened ConcurrentEffects
  import opened ConcurrentKept
  import opened ConcurrentLookup
  import opened ConcurrentSteps
  import opened ConcurrentInsert

  function FoundSlot(a: Arrays, th: Thread): Slot
    requires IsSizeIndex(a.index) && th.pc.Found?
  {
    Slot(GroupOf(a, th, th.pc.step), th.pc.n)
  }

  /* ---------- reading or writing the value ---------- */

  lemma ReadCalm(s: State, t: Tid, th': Thread, s': State)
    requires WellTyped(s) && t in s.threads && s.threads[t].pc.Found? && FoundStep(s, t, s') && th' == s'.threads[t]
    requires s'.a == s.a && th'.pc.Release?
    ensures Calm(s, t, th', s') && Balanced(s, s.threads[t], th', s', 0) && s'.acc == s.acc && CounterOf(th'.pc).None?
    ensures HeldStep(th'.pc) == HeldStep(s.threads[t].pc) && HeldExclusive(th') == HeldExclusive(s.threads[t])
  {
    assert Typed(s.a, s.threads[t]);
    hide Probe, ReducedHash;
  }

  lemma ReadKept(s: State, t: Tid, s': State)
    requires Inv(s) && t in s.threads && s.threads[t].pc.Found? && FoundStep(s, t, s')
    requires s'.a == s.a && t in s'.threads && s'.threads[t].pc.Release?
    ensures Inv(s')
  {
    hide *;
    InvAll(s);
    var th' := s'.threads[t];
    ReadCalm(s, t, th', s');
    CalmTyped(s, t, th', s');
    NoCounterAhead(s, t, th', s');
    QuietStep(s, t, th', s');
  }

  lemma ValueWrites(s: State, t: Tid, s': State, slot: Slot)
    requires WellTyped(s) && SlotsOk(s.a) && t in s.threads && s.threads[t].pc.Found? && FoundStep(s, t, s')
    requires slot == FoundSlot(s.a, s.threads[t]) && s'.a != s.a && s'.threads[t].pc.Release?
    ensures Writes(s, t, s'.threads[t], s', slot) && Balanced(s, s.threads[t], s'.threads[t], s', 0)
    ensures ElementAt(s.a, slot).Some? && ElementAt(s'.a, slot).Some? && ElementAt(s'.a, slot).value.key == ElementAt(s.a, slot).value.key
    ensures CounterOf(s'.threads[t].pc).None?
  {
    var e, res := ValueStep(s, t, s', slot);
    assert SlotOk(s.a, slot);
    hide FoundStep, SlotsOk, Probe, ReducedHash;
    PutElement(s.a, slot, Some(e));
    ReachesKept(s.a, s'.a, e.key.hash, slot.g);
    hide WellFormed, Reaches, SameExcept;
  }

  lemma ValueStep(s: State, t: Tid, s': State, slot: Slot) returns (e: Element, res: nat)
    requires WellTyped(s) && t in s.threads && s.threads[t].pc.Found? && FoundStep(s, t, s')
    requires slot == FoundSlot(s.a, s.threads[t]) && s'.a != s.a && s'.threads[t].pc.Release?
    ensures IsSlot(s.a, slot) && ElementAt(s.a, slot).Some? && e.key == ElementAt(s.a, slot).value.key && LookupExclusive(s.threads[t].op)
    ensures s' == Goto(WithArrays(s, WithElement(s.a, slot, Some(e))), t, Release(s.threads[t].pc.step, true, res))
  {
    assert Typed(s.a, s.threads[t]);
    hide Probe, ReducedHash, WellFormed;
    var e0 := ElementAt(s.a, slot).value;
    var v :| s'.a == WithElement(s.a, slot, Some(e0.(value := v)));
    e, res := e0.(value := v), s'.threads[t].pc.res;
  }

  lemma SameKeyElements(s: State, s': State, slot: Slot)
    requires WellTyped(s) && WellTyped(s') && SameExcept(s.a, s'.a, slot) && IsSlot(s.a, slot)
    requires ElementAt(s.a, slot).Some? && ElementAt(s'.a, slot).Some? && ElementAt(s'.a, slot).value.key == ElementAt(s.a, slot).value.key
    ensures SameKeys(s, s')
  {
    hide WellFormed, Typed, Reaches, MarksKept;
  }

  lemma ValueKept(s: State, t: Tid, s': State)
    requires Inv(s) && t in s.threads && s.threads[t].pc.Found? && FoundStep(s, t, s')
    requires s'.a != s.a && t in s'.threads && s'.threads[t].pc.Release?
    ensures Inv(s')
  {
    InvAll(s);
    hide Inv, Probe, SlotsOk, OwnedOk, GroupLocksOk, TakenOk, FlagsOk, CountersOk, UniqueOk, AheadOk, CountsOk, ContainerOk;
    var th' := s'.threads[t];
    var slot := FoundSlot(s.a, s.threads[t]);
    hide WellTyped;
    ValueWrites(s, t, s', slot);
    WritesTyped(s, t, th', s', slot);
    assert Moved(s, t, th', s') && SameExcept(s.a, s'.a, slot) && IsSlot(s.a, slot);
    hide FoundStep, Writes, WellTyped, Balanced, Inv, Present, SameExcept, Moved, SameKeys;
    SameKeyElements(s, s', slot);
    PresentSame(s, t, th', s');
    Disturbed(s', t);
    WriteStep(s, t, th', s', slot, 0);
  }

  /* ---------- erasure ---------- */

  lemma DestroyWrites(s: State, t: Tid, s': State, slot: Slot)
    requires WellTyped(s) && SlotsOk(s.a) && t in s.threads && s.threads[t].pc.Found? && FoundStep(s, t, s')
    requires slot == FoundSlot(s.a, s.threads[t]) && s'.threads[t].pc.Unpaid?
    ensures Writes(s, t, s'.threads[t], s', slot) && Balanced(s, s.threads[t], s'.threads[t], s', -1)
    ensures HoldsKey(s.a, slot, KeyOf(s.threads[t].op)) && ElementAt(s'.a, slot).None?
    ensures CounterOf(s'.threads[t].pc).None?
  {
    var th := s.threads[t];
    assert Typed(s.a, th);
    assert SlotOk(s.a, slot);
    assert s'.a == WithElement(s.a, slot, None);
    PutElement(s.a, slot, None);
    hide Probe, ReducedHash, WellFormed, Reaches, SameExcept;
  }

  lemma DestroyPresence(s: State, t: Tid, th': Thread, s': State, slot: Slot, x: Slot, k: Key)
    requires WellTyped(s) && WellTyped(s') && Moved(s, t, th', s') && SameExcept(s.a, s'.a, slot) && IsSlot(s.a, slot)
    requires !s.threads[t].pc.Construct? && !th'.pc.Construct?
    requires ElementAt(s'.a, slot).None?
    requires OwnedOk(s) && ElementAt(s.a, slot).Some?
    ensures Present(s', x, k) <==> Present(s, x, k) && x != slot
  {
    hide WellFormed, Typed, MarksKept, ReducedHash;
    forall u ensures Building(s', u, x, k) <==> Building(s, u, x, k) {
      BuildingOther(s, t, th', s', u, x, k);
    }
    forall u ensures !Building(s, u, slot, k) {
      assert Building(s, u, slot, k) ==> OwnsSlot(s, u, slot);
    }
    assert HoldsKey(s'.a, x, k) <==> x != slot && HoldsKey(s.a, x, k);
    hide HoldsKey, Building, SameExcept, Moved, WellTyped, OwnedOk, OwnsSlot;
    if Present(s, x, k) && x != slot && !HoldsKey(s.a, x, k) {
      var u :| Building(s, u, x, k);
      assert Building(s', u, x, k);
    }
  }

  lemma DestroyKept(s: State, t: Tid, s': State)
    requires Inv(s) && t in s.threads && s.threads[t].pc.Found? && FoundStep(s, t, s') && t in s'.threads && s'.threads[t].pc.Unpaid?
    ensures Inv(s')
  {
    InvAll(s);
    hide Inv, Probe, SlotsOk, OwnedOk, GroupLocksOk, TakenOk, FlagsOk, CountersOk, UniqueOk, AheadOk, CountsOk, ContainerOk;
    var th' := s'.threads[t];
    var slot := FoundSlot(s.a, s.threads[t]);
    hide WellTyped;
    DestroyWrites(s, t, s', slot);
    WritesTyped(s, t, th', s', slot);
    assert Moved(s, t, th', s') && SameExcept(s.a, s'.a, slot) && IsSlot(s.a, slot);
    hide FoundStep, Writes, Balanced, Present, SameExcept, Moved;
    forall x, k ensures Present(s', x, k) ==> Present(s, x, k) {
      DestroyPresence(s, t, th', s', slot, x, k);
    }
    Disturbed(s', t);
    WriteStep(s, t, th', s', slot, -1);
  }

  lemma FoundKept(s: State, t: Tid, s': State)
    requires Inv(s) && t in s.threads && s.threads[t].pc.Found? && FoundStep(s, t, s')
    ensures Inv(s')
  {
    hide Inv;
    if s'.threads[t].pc.Unpaid? {
      DestroyKept(s, t, s');
    } else if s'.a == s.a {
      ReadKept(s, t, s');
    } else {
      ValueKept(s, t, s');
    }
  }

  /** Lowering ml, and decrementing size: no array access. */
  lemma SettleCalm(s: State, t: Tid, th': Thread, s': State)
    requires WellTyped(s) && t in s.threads && (s.threads[t].pc.Unpaid? || s.threads[t].pc.Shrink?) && EraseStep(s, t, s') && th' == s'.threads[t]
    ensures Calm(s, t, th', s') && Balanced(s, s.threads[t], th', s', 0) && s'.acc == s.acc && CounterOf(th'.pc).None?
    ensures HeldStep(th'.pc) == HeldStep(s.threads[t].pc) && HeldExclusive(th') == HeldExclusive(s.threads[t])
  {
    assert Typed(s.a, s.threads[t]);
    hide Probe, ReducedHash;
  }

  lemma SettleKept(s: State, t: Tid, s': State)
    requires Inv(s) && t in s.threads && (s.threads[t].pc.Unpaid? || s.threads[t].pc.Shrink?) && EraseStep(s, t, s')
    ensures Inv(s')
  {
    var th' := s'.threads[t];
    SettleCalm(s, t, th', s');
    CalmTyped(s, t, th', s');
    NoCounterAhead(s, t, th', s');
    hide Inv, EraseStep, Calm, WellTyped, StillAhead, Balanced;
    QuietStep(s, t, th', s');
  }

  lemma ResetWrites(s: State, t: Tid, s': State) returns (slot: Slot)
    requires WellTyped(s) && OwnedOk(s) && t in s.threads && s.threads[t].pc.Reset? && EraseStep(s, t, s')
    ensures Writes(s, t, s'.threads[t], s', slot) && Balanced(s, s.threads[t], s'.threads[t], s', 0)
    ensures ElementAt(s'.a, slot) == ElementAt(s.a, slot)
    ensures CounterOf(s'.threads[t].pc).None? && s'.threads[t].pc.Shrink?
  {
    var th := s.threads[t];
    slot := Slot(GroupOf(s.a, th, th.pc.step), th.pc.n);
    assert OwnsSlot(s, t, slot);
    assert Typed(s.a, th);
    assert s' == Goto(WithArrays(s, WithGroup(s.a, slot.g, s.a.groups[slot.g].Reset(slot.n))), t, Shrink(th.pc.step));
    hide EraseStep;
    ResetByte(s.a, slot);
    hide Probe, ReducedHash, WellFormed, Reaches, SameExcept;
  }

  lemma EraseKept(s: State, t: Tid, s': State)
    requires Inv(s) && t in s.threads && EraseStep(s, t, s')
    ensures Inv(s')
  {
    if s.threads[t].pc.Reset? {
      var slot := ResetWrites(s, t, s');
      InsertWriteKept(s, t, s'.threads[t], s', slot);
    } else {
      SettleKept(s, t, s');
    }
  }
}
