/** Each part of the invariant survives an action with a given footprint. */
module ConcurrentKept {
  import opened SizePolicy
  import opened Groups
  import opened Arrays
  import opened Wrappers
  import opened ArrayLaws
  import opened ConcurrentTable
  import opened ConcurrentInvariant
  import opened ConcurrentEffects

  /** Thread t moves to th'; the dimensions of the table stay. */
  ghost predicate Moved(s: State, t: Tid, th': Thread, s': State)
    requires WellTyped(s)
  {
    && t in s.threads && th'.op == s.threads[t].op
    && s'.threads == s.threads[t := th']
    && WellFormed(s'.a) && s'.a.index == s.a.index && |s'.a.groups| == |s.a.groups|
    && |s'.acc| == |s.acc|
  }

  /* ---------- exclusion ---------- */

  /** Whoever holds a group exclusively holds it alone. */
  lemma Alone(s: State, t: Tid, u: Tid, g: nat)
    requires WellTyped(s) && GroupLocksOk(s) && g < |s.acc|
    requires Holds(s, t, g, true) && exists x :: Holds(s, u, g, x)
    ensures t == u
  {
    hide WellTyped;
    var x :| Holds(s, u, g, x);
    assert s.acc[g].writer == Some(t) && s.acc[g].readers == {};
  }

  lemma OwnerHolds(s: State, t: Tid, slot: Slot)
    requires WellTyped(s) && OwnsSlot(s, t, slot)
    ensures Holds(s, t, slot.g, true) && slot.g < |s.acc|
  {
    hide Probe;
  }

  /** A slot has at most one owner. */
  lemma OneOwner(s: State, t: Tid, u: Tid, slot: Slot)
    requires WellTyped(s) && GroupLocksOk(s) && OwnsSlot(s, t, slot) && OwnsSlot(s, u, slot)
    ensures t == u
  {
    OwnerHolds(s, t, slot);
    OwnerHolds(s, u, slot);
    Alone(s, t, u, slot.g);
  }

  /* ---------- typing ---------- */

  /** The thread has found its key in the slot. */
  ghost predicate Inspects(s: State, u: Tid, slot: Slot)
    requires WellTyped(s)
  {
    u in s.threads && s.threads[u].pc.Found? && slot == Slot(GroupOf(s.a, s.threads[u], s.threads[u].pc.step), s.threads[u].pc.n)
  }

  lemma TypedKept(s: State, t: Tid, th': Thread, s': State, slot: Slot)
    requires WellTyped(s) && Moved(s, t, th', s') && SameExcept(s.a, s'.a, slot)
    requires Typed(s'.a, th')
    requires forall u, k ::
      (u != t && Inspects(s, u, slot) && HoldsKey(s.a, slot, k)) ==> HoldsKey(s'.a, slot, k)
    ensures WellTyped(s')
  {
    hide WellFormed, Probe;
    forall u | u in s'.threads ensures Typed(s'.a, s'.threads[u]) {
      if u != t {
        assert Typed(s.a, s.threads[u]);
        assert Inspects(s, u, slot) && HoldsKey(s.a, slot, KeyOf(s.threads[u].op)) ==> HoldsKey(s'.a, slot, KeyOf(s.threads[u].op));
        TypedOther(s.a, s'.a, s.threads[u], slot);
      }
    }
  }

  lemma TypedOther(a: Arrays, b: Arrays, th: Thread, slot: Slot)
    requires WellFormed(a) && WellFormed(b) && SameExcept(a, b, slot) && Typed(a, th)
    requires th.pc.Found? && slot == Slot(GroupOf(a, th, th.pc.step), th.pc.n) && HoldsKey(a, slot, KeyOf(th.op)) ==> HoldsKey(b, slot, KeyOf(th.op))
    ensures Typed(b, th)
  {
    hide WellFormed, Probe, Reaches;
  }

  /* ---------- locks ---------- */

  ghost predicate SameLocks(s: State, s': State) {
    && |s'.acc| == |s.acc|
    && forall g :: 0 <= g < |s.acc| ==> s'.acc[g].writer == s.acc[g].writer && s'.acc[g].readers == s.acc[g].readers
  }

  lemma HoldsOther(s: State, t: Tid, th': Thread, s': State, u: Tid, g: nat, x: bool)
    requires WellTyped(s) && WellTyped(s') && Moved(s, t, th', s') && u != t
    ensures Holds(s', u, g, x) <==> Holds(s, u, g, x)
  {
    hide WellFormed, Probe, Typed;
  }

  lemma LocksSame(s: State, t: Tid, th': Thread, s': State)
    requires WellTyped(s) && WellTyped(s') && GroupLocksOk(s) && Moved(s, t, th', s') && SameLocks(s, s')
    requires HeldStep(th'.pc) == HeldStep(s.threads[t].pc)
    requires HeldStep(th'.pc).Some? ==> HeldExclusive(th') == HeldExclusive(s.threads[t])
    ensures GroupLocksOk(s')
  {
    forall g, u, x ensures Holds(s', u, g, x) <==> Holds(s, u, g, x) {
      if u != t { HoldsOther(s, t, th', s', u, g, x); }
    }
    hide Holds, WellTyped, Moved;
    forall g: nat, u: Tid | g < |s'.acc| ensures s'.acc[g].writer == Some(u) <==> Holds(s', u, g, true) {
      assert s.acc[g].writer == Some(u) <==> Holds(s, u, g, true);
    }
    forall g: nat, u: Tid | g < |s'.acc| ensures u in s'.acc[g].readers <==> Holds(s', u, g, false) {
      assert u in s.acc[g].readers <==> Holds(s, u, g, false);
    }
  }

  lemma LocksAcquire(s: State, t: Tid, th': Thread, s': State, g: nat, exclusive: bool)
    requires WellTyped(s) && WellTyped(s') && GroupLocksOk(s) && Moved(s, t, th', s')
    requires g < |s.acc| && FreeFor(s.acc[g], exclusive) && s'.acc == s.acc[g := Acquired(s.acc[g], t, exclusive)]
    requires HeldStep(s.threads[t].pc).None?
    requires HeldStep(th'.pc).Some? && GroupOf(s.a, th', HeldStep(th'.pc).value) == g && HeldExclusive(th') == exclusive
    ensures GroupLocksOk(s')
  {
    forall h, u, x ensures Holds(s', u, h, x) <==> if u == t then h == g && x == exclusive else Holds(s, u, h, x) {
      if u != t { HoldsOther(s, t, th', s', u, h, x); }
    }
    assert forall h, x :: !Holds(s, t, h, x);
    hide Holds, WellTyped, Moved;
    forall h: nat, u: Tid | h < |s'.acc| ensures s'.acc[h].writer == Some(u) <==> Holds(s', u, h, true) {
      assert s.acc[h].writer == Some(u) <==> Holds(s, u, h, true);
    }
    forall h: nat, u: Tid | h < |s'.acc| ensures u in s'.acc[h].readers <==> Holds(s', u, h, false) {
      assert u in s.acc[h].readers <==> Holds(s, u, h, false);
    }
  }

  lemma LocksRelease(s: State, t: Tid, th': Thread, s': State, g: nat)
    requires WellTyped(s) && WellTyped(s') && GroupLocksOk(s) && Moved(s, t, th', s')
    requires g < |s.acc| && s'.acc == s.acc[g := Released(s.acc[g], t)]
    requires HeldStep(s.threads[t].pc).Some? && GroupOf(s.a, s.threads[t], HeldStep(s.threads[t].pc).value) == g
    requires HeldStep(th'.pc).None?
    ensures GroupLocksOk(s')
  {
    var exclusive := HeldExclusive(s.threads[t]);
    forall h, u, x ensures Holds(s', u, h, x) <==> u != t && Holds(s, u, h, x) {
      if u != t { HoldsOther(s, t, th', s', u, h, x); }
    }
    assert forall h, x :: Holds(s, t, h, x) <==> h == g && x == exclusive;
    hide Holds, WellTyped, Moved;
    forall h: nat, u: Tid | h < |s'.acc| ensures s'.acc[h].writer == Some(u) <==> Holds(s', u, h, true) {
      assert s.acc[h].writer == Some(u) <==> Holds(s, u, h, true);
    }
    forall h: nat, u: Tid | h < |s'.acc| ensures u in s'.acc[h].readers <==> Holds(s', u, h, false) {
      assert u in s.acc[h].readers <==> Holds(s, u, h, false);
    }
  }

  lemma ContainerSame(s: State, t: Tid, th': Thread, s': State)
    requires WellTyped(s) && ContainerOk(s) && Moved(s, t, th', s')
    requires s'.owner == s.owner && s'.sharers == s.sharers
    requires Inside(s.threads[t].pc) && Inside(th'.pc)
    ensures ContainerOk(s')
  {
    hide WellTyped;
  }

  /* ---------- slot ownership ---------- */

  /** The moving thread holds the slot's group exclusively, or nothing about slots and owners changes. */
  lemma OwnershipKept(s: State, t: Tid, th': Thread, s': State, slot: Slot)
    requires WellTyped(s) && WellTyped(s') && GroupLocksOk(s) && Moved(s, t, th', s') && SameExcept(s.a, s'.a, slot)
    requires OwnedOk(s) && TakenOk(s)
    requires IsSlot(s.a, slot) && Holds(s, t, slot.g, true)
    requires OwnedSlot(s.a, s.threads[t]).Some? ==> OwnedSlot(s.a, s.threads[t]) == Some(slot)
    requires OwnedSlot(s'.a, th').Some? ==>
      OwnedSlot(s'.a, th') == Some(slot) && ElementAt(s'.a, slot).None? && Meta(s'.a, slot) == ReducedHash(HashOf(th'))
    requires OwnedSlot(s'.a, th').None? ==> Meta(s'.a, slot) == AVAILABLE || ElementAt(s'.a, slot).Some?
    ensures OwnedOk(s') && TakenOk(s')
  {
    hide WellFormed, Probe, Reaches, ReducedHash;
    forall u, x ensures OwnsSlot(s', u, x) <==> if u == t then OwnedSlot(s'.a, th') == Some(x) else OwnsSlot(s, u, x) {
      OwnsOther(s, t, th', s', u, x);
    }
    forall u | OwnsSlot(s, u, slot) ensures u == t {
      OwnerHolds(s, u, slot);
      Alone(s, t, u, slot.g);
    }
    hide WellTyped, Holds, OwnedSlot, GroupLocksOk, MarksKept;
    forall u, x | OwnsSlot(s', u, x)
      ensures IsSlot(s'.a, x) && ElementAt(s'.a, x).None? && Meta(s'.a, x) == ReducedHash(HashOf(s'.threads[u]))
    {
      assert u != t ==> OwnsSlot(s, u, x) && x != slot;
    }
    forall x | IsSlot(s'.a, x) && Meta(s'.a, x) != AVAILABLE && ElementAt(s'.a, x).None? ensures exists u :: OwnsSlot(s', u, x) {
      if x == slot {
        assert OwnsSlot(s', t, x);
      } else {
        var u :| OwnsSlot(s, u, x);
        assert OwnsSlot(s', u, x);
      }
    }
  }

  lemma OwnsOther(s: State, t: Tid, th': Thread, s': State, u: Tid, x: Slot)
    requires WellTyped(s) && WellTyped(s') && Moved(s, t, th', s')
    ensures u != t ==> (OwnsSlot(s', u, x) <==> OwnsSlot(s, u, x))
    ensures OwnsSlot(s', t, x) <==> OwnedSlot(s'.a, th') == Some(x)
  {
    hide WellFormed, Probe, Typed;
  }

  lemma OwnershipSame(s: State, t: Tid, th': Thread, s': State, slot: Slot)
    requires WellTyped(s) && WellTyped(s') && Moved(s, t, th', s') && SameExcept(s.a, s'.a, slot)
    requires OwnedOk(s) && TakenOk(s)
    requires OwnedSlot(s.a, th') == OwnedSlot(s.a, s.threads[t])
    requires IsSlot(s.a, slot) ==> Meta(s'.a, slot) == Meta(s.a, slot) && (ElementAt(s'.a, slot).None? <==> ElementAt(s.a, slot).None?)
    ensures OwnedOk(s') && TakenOk(s')
  {
    hide WellFormed, Probe, Reaches, ReducedHash;
    forall u, x ensures OwnsSlot(s', u, x) <==> OwnsSlot(s, u, x) {
      OwnsOther(s, t, th', s', u, x);
    }
    hide WellTyped, OwnedSlot, OwnsSlot, MarksKept;
    forall x | IsSlot(s'.a, x) && Meta(s'.a, x) != AVAILABLE && ElementAt(s'.a, x).None? ensures exists u :: OwnsSlot(s', u, x) {
      var u :| OwnsSlot(s, u, x);
      assert OwnsSlot(s', u, x);
    }
    forall u, x | OwnsSlot(s', u, x)
      ensures IsSlot(s'.a, x) && ElementAt(s'.a, x).None? && Meta(s'.a, x) == ReducedHash(HashOf(s'.threads[u]))
    {
      assert OwnsSlot(s, u, x);
      assert s'.threads[u].op == s.threads[u].op;
    }
  }

  /* ---------- overflow marks ---------- */

  lemma FlagsKept(s: State, t: Tid, th': Thread, s': State)
    requires WellTyped(s) && WellTyped(s') && Moved(s, t, th', s') && MarksKept(s.a, s'.a) && FlagsOk(s)
    requires forall i :: FlagsTo(s.threads[t].pc) <= i < FlagsTo(th'.pc) && i < |s.a.groups| ==> Flagged(s'.a, HashOf(th'), i)
    ensures FlagsOk(s')
  {
    hide WellFormed, Probe, Typed;
    forall u, i | u in s'.threads && 0 <= i < FlagsTo(s'.threads[u].pc) && i < |s'.a.groups|
      ensures Flagged(s'.a, HashOf(s'.threads[u]), i)
    {
      if i < FlagsTo(s.threads[u].pc) {
        assert Flagged(s.a, HashOf(s.threads[u]), i);
        FlaggedKept(s.a, s'.a, HashOf(s.threads[u]), i);
      }
    }
  }

  /* ---------- presence ---------- */

  lemma BuildingOther(s: State, t: Tid, th': Thread, s': State, u: Tid, x: Slot, k: Key)
    requires WellTyped(s) && WellTyped(s') && Moved(s, t, th', s')
    ensures u != t ==> (Building(s', u, x, k) <==> Building(s, u, x, k))
    ensures Building(s', t, x, k) <==> th'.pc.Construct? && KeyOf(th'.op) == k && OwnedSlot(s'.a, th') == Some(x)
  {
    hide WellFormed, Probe, Typed;
  }

  /** Keys held by slots, apart from the moving thread's own slot, stay as they are. */
  ghost predicate SameKeys(s: State, s': State)
    requires WellTyped(s) && WellTyped(s')
  {
    forall x, k :: HoldsKey(s'.a, x, k) <==> HoldsKey(s.a, x, k)
  }

  lemma PresentSame(s: State, t: Tid, th': Thread, s': State)
    requires WellTyped(s) && WellTyped(s') && Moved(s, t, th', s') && SameKeys(s, s')
    requires !s.threads[t].pc.Construct? && !th'.pc.Construct?
    ensures forall x, k :: Present(s', x, k) <==> Present(s, x, k)
  {
    forall u, x, k ensures Building(s', u, x, k) <==> Building(s, u, x, k) {
      BuildingOther(s, t, th', s', u, x, k);
    }
    hide WellTyped, Moved, HoldsKey, Building;
    forall x, k ensures Present(s', x, k) <==> Present(s, x, k) {
      if Present(s, x, k) && !HoldsKey(s.a, x, k) {
        var u :| Building(s, u, x, k);
        assert Building(s', u, x, k);
      }
      if Present(s', x, k) && !HoldsKey(s'.a, x, k) {
        var u :| Building(s', u, x, k);
        assert Building(s, u, x, k);
      }
    }
  }

  lemma UniqueKept(s: State, s': State)
    requires WellTyped(s) && WellTyped(s') && UniqueOk(s)
    requires forall x, k :: Present(s', x, k) ==> Present(s, x, k)
    ensures UniqueOk(s')
  {
    hide WellTyped, Present;
  }

  ghost predicate SameCounters(s: State, s': State) {
    |s'.acc| == |s.acc| && forall g :: 0 <= g < |s.acc| ==> s'.acc[g].count == s.acc[g].count
  }

  lemma CountersKept(s: State, t: Tid, th': Thread, s': State)
    requires WellTyped(s) && WellTyped(s') && Moved(s, t, th', s') && SameCounters(s, s') && CountersOk(s)
    requires CounterOf(th'.pc).Some? ==> CounterOf(th'.pc).value <= s.acc[Home(s.a, th')].count
    ensures CountersOk(s')
  {
    hide Probe, Typed;
  }

  lemma AheadKept(s: State, t: Tid, th': Thread, s': State)
    requires WellTyped(s) && WellTyped(s') && Moved(s, t, th', s') && SameCounters(s, s') && AheadOk(s)
    requires forall x, k :: Present(s', x, k) ==> Present(s, x, k)
    requires forall x :: Undisturbed(s', t) && Present(s, x, KeyOf(th'.op)) ==> Ahead(s'.a, th', x)
    ensures AheadOk(s')
  {
    hide Probe, Typed, Present;
    forall u, x | Undisturbed(s', u) && Present(s', x, KeyOf(s'.threads[u].op)) ensures Ahead(s'.a, s'.threads[u], x) {
      if u != t {
        assert Undisturbed(s, u);
        AheadSame(s.a, s'.a, s.threads[u], x);
      }
    }
  }

  lemma AheadSame(a: Arrays, b: Arrays, th: Thread, x: Slot)
    requires WellFormed(a) && WellFormed(b) && b.index == a.index && Ahead(a, th, x)
    ensures Ahead(b, th, x)
  {
    hide Probe;
    forall step: nat | NotPassed(a, th, step, x) ensures NotPassed(b, th, step, x) {
      forall i | 0 <= i < step ensures GroupOf(b, th, i) != x.g { assert GroupOf(a, th, i) != x.g; }
    }
  }
}
