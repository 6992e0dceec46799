/** Insertion steps of the concurrent table keep the invariant. */
module ConcurrentInsert {
  import opened SizePolicy
  import opened QuadraticProber
  import opened Groups
  import opened Arrays
  import opened Wrappers
  import opened ArrayLaws
  import opened ConcurrentTable
  import opened ConcurrentInvariant
  import opened ConcurrentEffects
  import opened ConcurrentKept
  import opened ConcurrentLookup
  import opened ConcurrentSteps

  /** Past its lookup, an undisturbed inserter knows that its key is nowhere present. */
  predicate PastLookup(pc: Pc) {
    pc.Reserve? || pc.Decide? || pc.Seek? || pc.Scan? || pc.Marked? || pc.Bump?
  }

  lemma KeyAbsent(s: State, t: Tid, x: Slot)
    requires WellTyped(s) && AheadOk(s) && Undisturbed(s, t) && PastLookup(s.threads[t].pc)
    ensures !Present(s, x, KeyOf(s.threads[t].op))
  {
    hide WellFormed, Typed, Probe, Present, Undisturbed;
  }

  lemma StillAbsent(s: State, t: Tid, th': Thread, s': State, x: Slot)
    requires WellTyped(s) && AheadOk(s) && WellTyped(s') && Moved(s, t, th', s') && SameCounters(s, s')
    requires PastLookup(s.threads[t].pc)
    requires CounterOf(th'.pc).Some? ==> CounterOf(th'.pc) == CounterOf(s.threads[t].pc)
    ensures !(Undisturbed(s', t) && Present(s, x, KeyOf(th'.op)))
  {
    if Undisturbed(s', t) {
      assert Undisturbed(s, t) by { hide Probe, Typed, WellFormed; }
      KeyAbsent(s, t, x);
    }
  }

  lemma PastLookupAhead(s: State, t: Tid, th': Thread, s': State)
    requires WellTyped(s) && AheadOk(s) && WellTyped(s') && Calm(s, t, th', s')
    requires PastLookup(s.threads[t].pc)
    requires CounterOf(th'.pc).Some? ==> CounterOf(th'.pc) == CounterOf(s.threads[t].pc)
    ensures StillAhead(s, t, th', s')
  {
    assert Moved(s, t, th', s') && SameCounters(s, s');
    hide WellTyped, Calm, Moved, SameCounters, Present, Ahead, Undisturbed, AheadOk, PastLookup;
    forall x ensures !(Undisturbed(s', t) && Present(s, x, KeyOf(th'.op))) {
      StillAbsent(s, t, th', s', x);
    }
  }

  /* ---------- before and after holding a slot ---------- */

  lemma SnapshotCalm(s: State, t: Tid, th': Thread, s': State)
    requires WellTyped(s) && t in s.threads && s.threads[t].pc.Snapshot? && InsertStep(s, t, s') && th' == s'.threads[t]
    ensures Calm(s, t, th', s') && Balanced(s, s.threads[t], th', s', 0) && s'.acc == s.acc
    ensures HeldStep(th'.pc) == HeldStep(s.threads[t].pc) == None
    ensures forall x :: Ahead(s.a, th', x)
  {
    assert Typed(s.a, s.threads[t]);
    hide Probe, ReducedHash;
  }

  lemma SnapshotKept(s: State, t: Tid, s': State)
    requires Inv(s) && t in s.threads && s.threads[t].pc.Snapshot? && InsertStep(s, t, s')
    ensures Inv(s')
  {
    var th' := s'.threads[t];
    SnapshotCalm(s, t, th', s');
    CalmTyped(s, t, th', s');
    hide Inv, InsertStep, Calm, Balanced, WellTyped, Present, Undisturbed, Ahead;
    QuietStep(s, t, th', s');
  }

  lemma ReserveCalm(s: State, t: Tid, th': Thread, s': State)
    requires WellTyped(s) && CountersOk(s) && t in s.threads && s.threads[t].pc.Reserve? && InsertStep(s, t, s') && th' == s'.threads[t]
    ensures Calm(s, t, th', s') && s'.acc == s.acc
    ensures HeldStep(th'.pc) == HeldStep(s.threads[t].pc) == None
    ensures CounterOf(th'.pc) == CounterOf(s.threads[t].pc)
    ensures s'.size == s.size + 1 && s'.ml == s.ml && th'.pc.Decide? && th'.pc.ticket == s.size + 1
  {
    assert Typed(s.a, s.threads[t]);
    hide Probe, ReducedHash;
  }

  /** A ticket within ml leaves room for one more claim on ml. */
  lemma ReserveCounts(s: State, t: Tid, th': Thread, s': State)
    requires WellTyped(s) && WellTyped(s') && CountsOk(s) && t in s.threads && s.threads[t].pc.Reserve?
    requires s'.threads == s.threads[t := th'] && s'.a == s.a
    requires s'.size == s.size + 1 && s'.ml == s.ml && th'.pc.Decide? && th'.pc.ticket == s.size + 1
    ensures CountsOk(s')
  {
    hide WellFormed, Live, WellTyped, Select, InitialMaxLoad;
    SelectAfter(s.threads, t, th', Reserved);
    SelectAfter(s.threads, t, th', Erasing);
    SelectAfter(s.threads, t, th', Admitted);
    SelectAfter(s.threads, t, th', Owing);
    SelectAfter(s.threads, t, th', Paid);
    SelectAfter(s.threads, t, th', EligibleAt(s.ml));
    ClaimsWithinSize(s.threads, s.ml);
  }

  lemma ReserveKept(s: State, t: Tid, s': State)
    requires Inv(s) && t in s.threads && s.threads[t].pc.Reserve? && InsertStep(s, t, s')
    ensures Inv(s')
  {
    var th' := s'.threads[t];
    ReserveCalm(s, t, th', s');
    CalmTyped(s, t, th', s');
    PastLookupAhead(s, t, th', s');
    assert s'.a == s.a && s'.threads == s.threads[t := th'];
    hide Inv, InsertStep, Calm, WellTyped, StillAhead, Balanced, CountsOk;
    ReserveCounts(s, t, th', s') by { assert WellTyped(s) && CountsOk(s); }
    QuietStep(s, t, th', s');
  }

  lemma DecideCalm(s: State, t: Tid, th': Thread, s': State)
    requires WellTyped(s) && CountersOk(s) && CountsOk(s) && t in s.threads && s.threads[t].pc.Decide? && InsertStep(s, t, s') && th' == s'.threads[t]
    ensures Calm(s, t, th', s') && Balanced(s, s.threads[t], th', s', 0) && s'.acc == s.acc
    ensures HeldStep(th'.pc) == HeldStep(s.threads[t].pc) == None
    ensures CounterOf(th'.pc).Some? ==> CounterOf(th'.pc) == CounterOf(s.threads[t].pc)
  {
    DecideBalanced(s, t, th', s');
    DecideGives(s, t, s');
    assert s.ml > 0 ==> s.a.elements != [] by { hide WellTyped, CountersOk; }
    assert s.threads[t].pc.ticket > 0;
    assert Typed(s.a, s.threads[t]) && CounterOf(th'.pc).Some? ==> CounterOf(th'.pc).value <= s.acc[Home(s.a, th')].count;
    hide InsertStep, WellTyped, Probe, ReducedHash, CountsOk, CountersOk, Balanced;
  }

  lemma DecideGives(s: State, t: Tid, s': State)
    requires WellTyped(s) && t in s.threads && s.threads[t].pc.Decide? && InsertStep(s, t, s')
    ensures s' == Goto(s, t, if s.threads[t].pc.ticket <= s.ml then Seek(s.threads[t].pc.c, 0) else Unreserve)
    ensures t in s'.threads && s'.a == s.a && s'.threads[t] == Thread(s.threads[t].op, if s.threads[t].pc.ticket <= s.ml then Seek(s.threads[t].pc.c, 0) else Unreserve)
  {
    hide WellTyped, Probe, ReducedHash;
  }

  lemma DecideBalanced(s: State, t: Tid, th': Thread, s': State)
    requires WellTyped(s) && t in s.threads && s.threads[t].pc.Decide? && InsertStep(s, t, s') && th' == s'.threads[t]
    ensures Balanced(s, s.threads[t], th', s', 0)
  {
    hide Probe, ReducedHash, WellTyped;
  }

  lemma DecideKept(s: State, t: Tid, s': State)
    requires Inv(s) && t in s.threads && s.threads[t].pc.Decide? && InsertStep(s, t, s')
    ensures Inv(s')
  {
    var th' := s'.threads[t];
    DecideCalm(s, t, th', s');
    CalmTyped(s, t, th', s');
    PastLookupAhead(s, t, th', s');
    hide Inv, InsertStep, Calm, WellTyped, StillAhead, Balanced;
    QuietStep(s, t, th', s');
  }

  /** Giving a size unit back, before or after a rolled-back slot. */
  lemma GiveBackCalm(s: State, t: Tid, th': Thread, s': State)
    requires WellTyped(s) && t in s.threads && (s.threads[t].pc.Unreserve? || s.threads[t].pc.DropSize?) && InsertStep(s, t, s') && th' == s'.threads[t]
    ensures Calm(s, t, th', s') && Balanced(s, s.threads[t], th', s', 0) && s'.acc == s.acc
    ensures HeldStep(th'.pc) == HeldStep(s.threads[t].pc) == None
    ensures CounterOf(th'.pc).None?
  {
    assert Typed(s.a, s.threads[t]);
    hide Probe, ReducedHash;
  }

  lemma NoCounterAhead(s: State, t: Tid, th': Thread, s': State)
    requires WellTyped(s) && WellTyped(s') && t in s'.threads && s'.threads[t] == th' && CounterOf(th'.pc).None?
    ensures StillAhead(s, t, th', s')
  {
    hide WellFormed, Typed, Probe, Present, Ahead;
  }

  lemma GiveBackKept(s: State, t: Tid, s': State)
    requires Inv(s) && t in s.threads && t in s'.threads && (s.threads[t].pc.Unreserve? || s.threads[t].pc.DropSize?) && InsertStep(s, t, s')
    ensures Inv(s')
  {
    hide *;
    InvParts(s);
    var th' := s'.threads[t];
    GiveBackCalm(s, t, th', s');
    CalmTyped(s, t, th', s');
    NoCounterAhead(s, t, th', s');
    QuietStep(s, t, th', s');
  }

  /* ---------- group locks along the probe sequence ---------- */

  lemma SeekCalm(s: State, t: Tid, th': Thread, s': State, g: nat)
    requires WellTyped(s) && CountersOk(s) && t in s.threads && s.threads[t].pc.Seek? && InsertStep(s, t, s') && th' == s'.threads[t]
    requires g == GroupOf(s.a, s.threads[t], s.threads[t].pc.step)
    ensures Calm(s, t, th', s') && Balanced(s, s.threads[t], th', s', 0)
    ensures CounterOf(th'.pc) == CounterOf(s.threads[t].pc)
    ensures g < |s.acc| && FreeFor(s.acc[g], true) && s'.acc == s.acc[g := Acquired(s.acc[g], t, true)]
    ensures HeldStep(s.threads[t].pc).None? && HeldStep(th'.pc) == Some(s.threads[t].pc.step) && HeldExclusive(th')
  {
    assert Typed(s.a, s.threads[t]);
    hide Probe, ReducedHash;
  }

  lemma SeekKept(s: State, t: Tid, s': State)
    requires Inv(s) && t in s.threads && s.threads[t].pc.Seek? && InsertStep(s, t, s')
    ensures Inv(s')
  {
    var th' := s'.threads[t];
    var g := GroupOf(s.a, s.threads[t], s.threads[t].pc.step);
    SeekCalm(s, t, th', s', g);
    CalmTyped(s, t, th', s');
    PastLookupAhead(s, t, th', s');
    assert th'.op == s.threads[t].op;
    hide Inv, InsertStep, Calm, WellTyped, StillAhead, Balanced, Probe;
    AcquireStep(s, t, th', s', g, true);
  }

  lemma MarkedCalm(s: State, t: Tid, th': Thread, s': State, g: nat)
    requires WellTyped(s) && CountersOk(s) && t in s.threads && s.threads[t].pc.Marked? && InsertStep(s, t, s') && th' == s'.threads[t]
    requires g == GroupOf(s.a, s.threads[t], s.threads[t].pc.step)
    ensures Calm(s, t, th', s') && Balanced(s, s.threads[t], th', s', 0)
    ensures CounterOf(th'.pc) == CounterOf(s.threads[t].pc)
    ensures g < |s.acc| && s'.acc == s.acc[g := Released(s.acc[g], t)] && HeldStep(th'.pc).None?
  {
    assert Typed(s.a, s.threads[t]);
    hide Probe, ReducedHash;
  }

  lemma MarkedKept(s: State, t: Tid, s': State)
    requires Inv(s) && t in s.threads && s.threads[t].pc.Marked? && InsertStep(s, t, s')
    ensures Inv(s')
  {
    var th' := s'.threads[t];
    var g := GroupOf(s.a, s.threads[t], s.threads[t].pc.step);
    MarkedCalm(s, t, th', s', g);
    CalmTyped(s, t, th', s');
    PastLookupAhead(s, t, th', s');
    hide Inv, InsertStep, Calm, WellTyped, StillAhead, Balanced, Probe;
    ReleaseStep(s, t, th', s', g);
  }

  lemma RolledBackCalm(s: State, t: Tid, th': Thread, s': State, g: nat)
    requires WellTyped(s) && t in s.threads && s.threads[t].pc.RolledBack? && InsertStep(s, t, s') && th' == s'.threads[t]
    requires g == GroupOf(s.a, s.threads[t], s.threads[t].pc.step)
    ensures Calm(s, t, th', s') && Balanced(s, s.threads[t], th', s', 0) && CounterOf(th'.pc).None?
    ensures g < |s.acc| && s'.acc == s.acc[g := Released(s.acc[g], t)] && HeldStep(th'.pc).None?
  {
    assert Typed(s.a, s.threads[t]);
    hide Probe, ReducedHash;
  }

  lemma RolledBackKept(s: State, t: Tid, s': State)
    requires Inv(s) && t in s.threads && s.threads[t].pc.RolledBack? && InsertStep(s, t, s')
    ensures Inv(s')
  {
    var th' := s'.threads[t];
    var g := GroupOf(s.a, s.threads[t], s.threads[t].pc.step);
    RolledBackCalm(s, t, th', s', g);
    CalmTyped(s, t, th', s');
    NoCounterAhead(s, t, th', s');
    hide Inv, InsertStep, Calm, WellTyped, StillAhead, Balanced, Probe;
    ReleaseStep(s, t, th', s', g);
  }

  /* ---------- taking a slot ---------- */

  lemma ScanTakes(s: State, t: Tid, s': State) returns (slot: Slot)
    requires WellTyped(s) && t in s.threads && s.threads[t].pc.Scan? && InsertStep(s, t, s') && t in s'.threads && s'.threads[t].pc.Bump?
    ensures IsSlot(s.a, slot) && Meta(s.a, slot) == AVAILABLE && slot.g == GroupOf(s.a, s.threads[t], s.threads[t].pc.step)
    ensures s' == Goto(WithArrays(s, WithGroup(s.a, slot.g, s.a.groups[slot.g].Set(slot.n, HashOf(s.threads[t])))), t,
                       Bump(s.threads[t].pc.c, s.threads[t].pc.step, slot.n))
  {
    assert Typed(s.a, s.threads[t]);
    var g := GroupOf(s.a, s.threads[t], s.threads[t].pc.step);
    slot := Slot(g, Lowest(s.a.groups[g].MatchAvailable()));
    hide Probe;
  }

  /** What a step under exclusive group access that writes one slot has to show. */
  ghost predicate Writes(s: State, t: Tid, th': Thread, s': State, slot: Slot)
    requires WellTyped(s)
  {
    && Moved(s, t, th', s') && SameExcept(s.a, s'.a, slot) && s'.acc == s.acc
    && s'.owner == s.owner && s'.sharers == s.sharers
    && Inside(s.threads[t].pc) && Inside(th'.pc)
    && Typed(s'.a, th')
    && IsSlot(s.a, slot) && Holds(s, t, slot.g, true)
    && HeldStep(th'.pc) == HeldStep(s.threads[t].pc) && HeldExclusive(th') && HeldExclusive(s.threads[t])
    && (forall i :: FlagsTo(s.threads[t].pc) <= i < FlagsTo(th'.pc) && i < |s.a.groups| ==> Flagged(s'.a, HashOf(th'), i))
    && (CounterOf(th'.pc).Some? ==> CounterOf(th'.pc) == CounterOf(s.threads[t].pc))
    // the slot itself
    && (OwnedSlot(s.a, s.threads[t]).Some? ==> OwnedSlot(s.a, s.threads[t]) == Some(slot))
    && (if OwnedSlot(s'.a, th').Some?
        then OwnedSlot(s'.a, th') == Some(slot) && ElementAt(s'.a, slot).None? && Meta(s'.a, slot) == ReducedHash(HashOf(th'))
        else Meta(s'.a, slot) == AVAILABLE || ElementAt(s'.a, slot).Some?)
    && SlotOk(s'.a, slot)
  }

  /** Nobody else is inspecting a slot whose group is held exclusively. */
  lemma NobodyInspects(s: State, t: Tid, u: Tid, slot: Slot)
    requires WellTyped(s) && GroupLocksOk(s) && IsSlot(s.a, slot) && Holds(s, t, slot.g, true) && u != t
    ensures !Inspects(s, u, slot)
  {
    hide WellFormed, Typed, GroupLocksOk, Probe;
    forall e ensures !Holds(s, u, slot.g, e) {
      OthersOut(s, t, u, slot.g, e);
    }
    assert Inspects(s, u, slot) ==> Holds(s, u, slot.g, HeldExclusive(s.threads[u]));
  }

  lemma OthersOut(s: State, t: Tid, u: Tid, g: nat, exclusive: bool)
    requires WellTyped(s) && GroupLocksOk(s) && g < |s.acc| && Holds(s, t, g, true) && u != t
    ensures !Holds(s, u, g, exclusive)
  {
    hide WellTyped, Holds;
  }

  lemma WritesTyped(s: State, t: Tid, th': Thread, s': State, slot: Slot)
    requires WellTyped(s) && GroupLocksOk(s) && Writes(s, t, th', s', slot)
    ensures WellTyped(s')
  {
    forall u | u != t ensures !Inspects(s, u, slot) {
      NobodyInspects(s, t, u, slot);
    }
    hide WellFormed, Inspects, GroupLocksOk, Holds;
    TypedKept(s, t, th', s', slot);
  }

  lemma WritesKept(s: State, t: Tid, th': Thread, s': State, slot: Slot)
    requires Inv(s) && Writes(s, t, th', s', slot) && WellTyped(s')
    ensures GroupLocksOk(s') && ContainerOk(s') && SlotsOk(s'.a) && OwnedOk(s') && TakenOk(s') && FlagsOk(s') && CountersOk(s')
  {
    assert WellFormed(s.a) && WellFormed(s'.a);
    hide WellTyped, Typed, SlotsOk, SlotOk, ContainerOk, OwnedOk, TakenOk, FlagsOk, UniqueOk, AheadOk, CountsOk, GroupLocksOk;
    hide Probe, WellFormed, Holds, OwnedSlot, ReducedHash;
    LocksSame(s, t, th', s');
    ContainerSame(s, t, th', s');
    SlotsAfter(s.a, s'.a, slot);
    OwnershipKept(s, t, th', s', slot);
    FlagsKept(s, t, th', s');
    CountersKept(s, t, th', s');
  }

  lemma WriteStep(s: State, t: Tid, th': Thread, s': State, slot: Slot, live: int)
    requires Inv(s) && Writes(s, t, th', s', slot) && WellTyped(s')
    requires live == (if ElementAt(s'.a, slot).Some? then 1 else 0) - (if ElementAt(s.a, slot).Some? then 1 else 0)
    requires Balanced(s, s.threads[t], th', s', live)
    requires forall x, k :: Present(s', x, k) ==> Present(s, x, k)
    requires forall x :: Undisturbed(s', t) && Present(s, x, KeyOf(th'.op)) ==> Ahead(s'.a, th', x)
    ensures Inv(s')
  {
    WritesKept(s, t, th', s', slot);
    assert SameCounters(s, s') && Moved(s, t, th', s') && SameExcept(s.a, s'.a, slot) && IsSlot(s.a, slot);
    assert WellFormed(s.a) && WellFormed(s'.a) && Capacity(s'.a) == Capacity(s.a);
    hide Writes, WellTyped, WellFormed, SlotsOk, ContainerOk, OwnedOk, TakenOk, FlagsOk, CountersOk, UniqueOk, AheadOk, CountsOk, GroupLocksOk;
    hide Present, Undisturbed, Ahead, Balanced, Probe, Live, SameExcept, Moved;
    UniqueKept(s, s');
    AheadKept(s, t, th', s');
    LiveAfter(s.a, s'.a, slot);
    CountsAfter(s, t, th', s', live);
  }

  lemma SameElements(s: State, s': State, slot: Slot)
    requires WellTyped(s) && WellTyped(s') && SameExcept(s.a, s'.a, slot)
    requires IsSlot(s.a, slot) ==> ElementAt(s'.a, slot) == ElementAt(s.a, slot)
    ensures SameKeys(s, s')
  {
    hide WellFormed, Typed, Reaches, MarksKept;
  }

  lemma TakeWrites(s: State, t: Tid, s': State) returns (slot: Slot)
    requires WellTyped(s) && CountersOk(s) && SlotsOk(s.a) && t in s.threads && s.threads[t].pc.Scan? && InsertStep(s, t, s') && t in s'.threads && s'.threads[t].pc.Bump?
    requires OwnedOk(s) && TakenOk(s)
    ensures Writes(s, t, s'.threads[t], s', slot) && Balanced(s, s.threads[t], s'.threads[t], s', 0)
    ensures ElementAt(s.a, slot).None? && ElementAt(s'.a, slot).None?
    ensures CounterOf(s'.threads[t].pc) == CounterOf(s.threads[t].pc)
  {
    slot := ScanTakes(s, t, s');
    var hash := HashOf(s.threads[t]);
    hide InsertStep;
    SetByte(s.a, slot, hash);
    assert ElementAt(s.a, slot).None? by { assert SlotOk(s.a, slot); }
    hide Probe, ReducedHash, SlotsOk, WellFormed, Reaches, SameExcept;
    assert Slot(GroupOf(s.a, s.threads[t], s.threads[t].pc.step), slot.n) == slot;
  }

  lemma TakeKept(s: State, t: Tid, s': State)
    requires Inv(s) && t in s.threads && s.threads[t].pc.Scan? && InsertStep(s, t, s') && t in s'.threads && s'.threads[t].pc.Bump?
    ensures Inv(s')
  {
    var th' := s'.threads[t];
    var slot := TakeWrites(s, t, s');
    InsertWriteKept(s, t, th', s', slot);
  }

  /** A write of metadata only, while the inserter is past its lookup. */
  lemma InsertWriteKept(s: State, t: Tid, th': Thread, s': State, slot: Slot)
    requires Inv(s) && Writes(s, t, th', s', slot) && Balanced(s, s.threads[t], th', s', 0)
    requires ElementAt(s'.a, slot) == ElementAt(s.a, slot)
    requires !s.threads[t].pc.Construct? && !th'.pc.Construct?
    requires CounterOf(th'.pc).Some? ==> PastLookup(s.threads[t].pc) && CounterOf(th'.pc) == CounterOf(s.threads[t].pc)
    ensures Inv(s')
  {
    WritesTyped(s, t, th', s', slot);
    SameElements(s, s', slot);
    PresentSame(s, t, th', s');
    assert SameCounters(s, s') && Moved(s, t, th', s') && s'.threads[t] == th';
    hide Inv, Writes, Balanced, WellTyped, Present, Undisturbed, Ahead, SameCounters, AheadOk, GroupLocksOk, SameKeys;
    forall x ensures !(Undisturbed(s', t) && Present(s, x, KeyOf(th'.op))) {
      if CounterOf(th'.pc).Some? {
        StillAbsent(s, t, th', s', x) by { assert WellTyped(s) && AheadOk(s) by { InvParts(s); } }
      } else {
        Disturbed(s', t);
      }
    }
    WriteStep(s, t, th', s', slot, 0);
  }

  lemma InvParts(s: State)
    requires Inv(s)
    ensures WellTyped(s) && AheadOk(s)
  {
  }

  lemma Disturbed(s: State, t: Tid)
    requires WellTyped(s) && t in s.threads && CounterOf(s.threads[t].pc).None?
    ensures !Undisturbed(s, t)
  {
    hide WellFormed, Typed, Probe;
  }

  lemma FullGroup(s: State, t: Tid, s': State) returns (slot: Slot)
    requires WellTyped(s) && GroupLocksOk(s) && TakenOk(s)
    requires t in s.threads && s.threads[t].pc.Scan? && InsertStep(s, t, s') && t in s'.threads && s'.threads[t].pc.Marked?
    ensures slot == Slot(GroupOf(s.a, s.threads[t], s.threads[t].pc.step), 0) && IsSlot(s.a, slot) && ElementAt(s.a, slot).Some?
    ensures s' == Goto(WithArrays(s, WithGroup(s.a, slot.g, s.a.groups[slot.g].MarkOverflow(HashOf(s.threads[t])))), t,
                       Marked(s.threads[t].pc.c, s.threads[t].pc.step))
  {
    assert Typed(s.a, s.threads[t]);
    var g := GroupOf(s.a, s.threads[t], s.threads[t].pc.step);
    slot := Slot(g, 0);
    assert Lowest(s.a.groups[g].MatchAvailable()) == N;
    assert 0 !in s.a.groups[g].MatchAvailable();
    assert Meta(s.a, slot) != AVAILABLE;
    hide InsertStep, Probe, WellFormed;
    assert Holds(s, t, slot.g, true);
    OccupiedConstructed(s, t, slot);
  }

  lemma MarkWrites(s: State, t: Tid, s': State) returns (slot: Slot)
    requires WellTyped(s) && GroupLocksOk(s) && TakenOk(s) && SlotsOk(s.a) && CountersOk(s)
    requires t in s.threads && s.threads[t].pc.Scan? && InsertStep(s, t, s') && t in s'.threads && s'.threads[t].pc.Marked?
    ensures Writes(s, t, s'.threads[t], s', slot) && Balanced(s, s.threads[t], s'.threads[t], s', 0)
    ensures ElementAt(s'.a, slot) == ElementAt(s.a, slot)
    ensures CounterOf(s'.threads[t].pc) == CounterOf(s.threads[t].pc)
  {
    slot := FullGroup(s, t, s');
    assert Typed(s.a, s.threads[t]);
    hide InsertStep, TakenOk, SlotsOk, Probe, ReducedHash;
    MarkedArrays(s.a, slot, HashOf(s.threads[t]), s.threads[t].pc.step);
    assert Holds(s, t, slot.g, true);
    hide WellFormed, SlotOk, Reaches, SameExcept, GroupLocksOk;
  }

  lemma MarkedArrays(a: Arrays, slot: Slot, hash: Hash, step: nat)
    requires WellFormed(a) && SlotsOk(a) && IsSlot(a, slot) && ElementAt(a, slot).Some? && slot.g == Probe(a.index, hash, step)
    ensures var b := WithGroup(a, slot.g, a.groups[slot.g].MarkOverflow(hash));
      && WellFormed(b) && SameExcept(a, b, slot) && IsSlot(b, slot) && Meta(b, slot) == Meta(a, slot)
      && ElementAt(b, slot) == ElementAt(a, slot) && SlotOk(b, slot) && Flagged(b, hash, step)
  {
    var b := WithGroup(a, slot.g, a.groups[slot.g].MarkOverflow(hash));
    MarkByte(a, slot.g, hash, slot);
    assert SlotOk(a, slot);
    ReachesKept(a, b, ElementAt(a, slot).value.key.hash, slot.g);
    hide SlotsOk, Probe, ReducedHash, Reaches;
  }

  lemma MarkKept(s: State, t: Tid, s': State)
    requires Inv(s) && t in s.threads && s.threads[t].pc.Scan? && InsertStep(s, t, s') && t in s'.threads && s'.threads[t].pc.Marked?
    ensures Inv(s')
  {
    var th' := s'.threads[t];
    var slot := MarkWrites(s, t, s');
    InsertWriteKept(s, t, th', s', slot);
  }

  lemma RollbackWrites(s: State, t: Tid, s': State) returns (slot: Slot)
    requires WellTyped(s) && OwnedOk(s) && t in s.threads && s.threads[t].pc.Rollback? && InsertStep(s, t, s')
    ensures Writes(s, t, s'.threads[t], s', slot) && Balanced(s, s.threads[t], s'.threads[t], s', 0)
    ensures ElementAt(s'.a, slot) == ElementAt(s.a, slot)
    ensures CounterOf(s'.threads[t].pc).None? && s'.threads[t].pc.RolledBack?
  {
    var th := s.threads[t];
    slot := Slot(GroupOf(s.a, th, th.pc.step), th.pc.n);
    assert OwnsSlot(s, t, slot);
    assert s' == Goto(WithArrays(s, WithGroup(s.a, slot.g, s.a.groups[slot.g].Reset(slot.n))), t, RolledBack(th.pc.step));
    hide InsertStep;
    ResetByte(s.a, slot);
    hide Probe, ReducedHash, WellFormed, Reaches, SameExcept;
  }

  lemma RollbackKept(s: State, t: Tid, s': State)
    requires Inv(s) && t in s.threads && s.threads[t].pc.Rollback? && InsertStep(s, t, s')
    ensures Inv(s')
  {
    var th' := s'.threads[t];
    var slot := RollbackWrites(s, t, s');
    InsertWriteKept(s, t, th', s', slot);
  }

  /* ---------- the decisive increment ---------- */

  lemma BumpFacts(s: State, t: Tid, th': Thread, s': State, slot: Slot)
    requires WellTyped(s) && t in s.threads && s.threads[t].pc.Bump? && InsertStep(s, t, s') && th' == s'.threads[t]
    requires OwnedSlot(s.a, s.threads[t]) == Some(slot)
    ensures Moved(s, t, th', s') && s'.a == s.a && SameLocks(s, s') && s'.owner == s.owner && s'.sharers == s.sharers
    ensures WellTyped(s') && Balanced(s, s.threads[t], th', s', 0)
    ensures Inside(s.threads[t].pc) && Inside(th'.pc) && CounterOf(th'.pc).None?
    ensures HeldStep(th'.pc) == HeldStep(s.threads[t].pc) && HeldExclusive(th') && HeldExclusive(s.threads[t])
    ensures OwnedSlot(s.a, th') == Some(slot) && FlagsTo(th'.pc) <= FlagsTo(s.threads[t].pc)
    ensures var home := Home(s.a, s.threads[t]);
      s'.acc == s.acc[home := s.acc[home].(count := s.acc[home].count + 1)]
    ensures th'.pc.Construct? ==> s.threads[t].op.Insert? && CounterOf(s.threads[t].pc) == Some(s.acc[Home(s.a, s.threads[t])].count)
  {
    assert Typed(s.a, s.threads[t]);
    hide Probe, ReducedHash;
    assert Typed(s'.a, th');
  }

  /** After the increment, the only change in presence is the inserter's own key, if the counter matched. */
  lemma BumpPresence(s: State, t: Tid, th': Thread, s': State, slot: Slot)
    requires WellTyped(s) && WellTyped(s') && Moved(s, t, th', s') && s'.a == s.a && s.threads[t].pc.Bump?
    requires OwnedSlot(s.a, th') == Some(slot)
    ensures forall x, k :: Present(s', x, k) <==>
      Present(s, x, k) || (th'.pc.Construct? && x == slot && k == KeyOf(th'.op))
  {
    forall u, x, k ensures Building(s', u, x, k) <==>
      Building(s, u, x, k) || (u == t && th'.pc.Construct? && x == slot && k == KeyOf(th'.op))
    {
      BuildingOther(s, t, th', s', u, x, k);
    }
    hide WellTyped, Moved, HoldsKey, Building;
    forall x, k ensures Present(s', x, k) <==> Present(s, x, k) || (th'.pc.Construct? && x == slot && k == KeyOf(th'.op)) {
      if Present(s, x, k) && !HoldsKey(s.a, x, k) {
        var u :| Building(s, u, x, k);
        assert Building(s', u, x, k);
      }
      if th'.pc.Construct? && x == slot && k == KeyOf(th'.op) {
        assert Building(s', t, x, k);
      }
    }
  }

  lemma BumpCounters(s: State, t: Tid, th': Thread, s': State)
    requires WellTyped(s) && WellTyped(s') && Moved(s, t, th', s') && s'.a == s.a && CountersOk(s)
    requires CounterOf(th'.pc).None?
    requires var home := Home(s.a, s.threads[t]);
      s'.acc == s.acc[home := s.acc[home].(count := s.acc[home].count + 1)]
    ensures CountersOk(s')
    ensures forall u :: Undisturbed(s', u) ==> u != t && Undisturbed(s, u) && Home(s.a, s.threads[u]) != Home(s.a, s.threads[t])
  {
    hide Probe, Typed;
  }

  lemma SameKeySameHome(a: Arrays, x: Thread, y: Thread)
    requires WellFormed(a) && KeyOf(x.op) == KeyOf(y.op)
    ensures Home(a, x) == Home(a, y)
  {
  }

  lemma BumpAhead(s: State, t: Tid, th': Thread, s': State, slot: Slot)
    requires WellTyped(s) && WellTyped(s') && Moved(s, t, th', s') && s'.a == s.a && AheadOk(s)
    requires forall x, k :: Present(s', x, k) ==> Present(s, x, k) || (x == slot && k == KeyOf(th'.op))
    requires forall u :: Undisturbed(s', u) ==> u != t && Undisturbed(s, u) && Home(s.a, s.threads[u]) != Home(s.a, s.threads[t])
    ensures AheadOk(s')
  {
    hide WellFormed, Probe, Typed, Present, Ahead;
    forall u, x | Undisturbed(s', u) && Present(s', x, KeyOf(s'.threads[u].op)) ensures Ahead(s'.a, s'.threads[u], x) {
      if KeyOf(s.threads[u].op) == KeyOf(s.threads[t].op) {
        SameKeySameHome(s.a, s.threads[u], s.threads[t]);
      }
      assert Present(s, x, KeyOf(s.threads[u].op));
    }
  }

  lemma BumpUnique(s: State, t: Tid, th': Thread, s': State, slot: Slot)
    requires WellTyped(s) && WellTyped(s') && AheadOk(s) && UniqueOk(s) && Moved(s, t, th', s')
    requires s.threads[t].pc.Bump? && (th'.pc.Construct? ==> Undisturbed(s, t))
    requires forall x, k :: Present(s', x, k) <==> Present(s, x, k) || (th'.pc.Construct? && x == slot && k == KeyOf(th'.op))
    ensures UniqueOk(s')
  {
    forall x | th'.pc.Construct? ensures !Present(s, x, KeyOf(th'.op)) {
      KeyAbsent(s, t, x);
    }
    hide WellTyped, Moved, Present, Undisturbed, AheadOk;
  }

  lemma BumpKept(s: State, t: Tid, s': State)
    requires Inv(s) && t in s.threads && s.threads[t].pc.Bump? && InsertStep(s, t, s')
    ensures Inv(s')
  {
    var th, th' := s.threads[t], s'.threads[t];
    var slot := OwnedSlot(s.a, th).value;
    BumpFacts(s, t, th', s', slot);
    hide InsertStep;
    BumpParts(s, t, th', s', slot);
    LocksSame(s, t, th', s');
    ContainerSame(s, t, th', s');
    OwnershipSame(s, t, th', s', slot);
    FlagsKept(s, t, th', s');
    CountsAfter(s, t, th', s', 0);
  }

  lemma BumpParts(s: State, t: Tid, th': Thread, s': State, slot: Slot)
    requires WellTyped(s) && WellTyped(s') && AheadOk(s) && UniqueOk(s) && CountersOk(s) && Moved(s, t, th', s') && s'.a == s.a
    requires s.threads[t].pc.Bump? && OwnedSlot(s.a, th') == Some(slot) && CounterOf(th'.pc).None?
    requires var home := Home(s.a, s.threads[t]);
      s'.acc == s.acc[home := s.acc[home].(count := s.acc[home].count + 1)]
    requires th'.pc.Construct? ==> s.threads[t].op.Insert? && CounterOf(s.threads[t].pc) == Some(s.acc[Home(s.a, s.threads[t])].count)
    ensures CountersOk(s') && UniqueOk(s') && AheadOk(s')
  {
    BumpPresence(s, t, th', s', slot);
    BumpCounters(s, t, th', s');
    assert th'.pc.Construct? ==> Undisturbed(s, t);
    hide WellTyped, Moved, Present, Undisturbed, AheadOk, CountersOk, UniqueOk, OwnedSlot, Probe;
    BumpUnique(s, t, th', s', slot);
    BumpAhead(s, t, th', s', slot);
  }

  /* ---------- construction ---------- */

  lemma ConstructWrites(s: State, t: Tid, s': State) returns (slot: Slot)
    requires WellTyped(s) && SlotsOk(s.a) && OwnedOk(s) && FlagsOk(s)
    requires t in s.threads && s.threads[t].pc.Construct? && InsertStep(s, t, s')
    ensures Writes(s, t, s'.threads[t], s', slot) && Balanced(s, s.threads[t], s'.threads[t], s', 1)
    ensures ElementAt(s.a, slot).None? && ElementAt(s'.a, slot).Some? && ElementAt(s'.a, slot).value.key == KeyOf(s.threads[t].op)
    ensures OwnedSlot(s.a, s.threads[t]) == Some(slot)
    ensures CounterOf(s'.threads[t].pc).None? && s'.threads[t].pc.Release?
  {
    var th := s.threads[t];
    assert Typed(s.a, th);
    slot := Slot(GroupOf(s.a, th, th.pc.step), th.pc.n);
    assert OwnsSlot(s, t, slot) && Building(s, t, slot, KeyOf(th.op));
    assert s' == Goto(WithArrays(s, WithElement(s.a, slot, Some(th.op.e))), t, Release(th.pc.step, true, 1));
    hide InsertStep;
    PresentVisible(s, slot, KeyOf(th.op));
    PutElement(s.a, slot, Some(th.op.e));
    ReachesKept(s.a, s'.a, HashOf(th), slot.g);
    hide Probe, ReducedHash, WellFormed, Reaches, SameExcept;
  }

  lemma ConstructPresence(s: State, t: Tid, th': Thread, s': State, slot: Slot, x: Slot, k: Key)
    requires WellTyped(s) && WellTyped(s') && Moved(s, t, th', s') && SameExcept(s.a, s'.a, slot) && IsSlot(s.a, slot)
    requires s.threads[t].pc.Construct? && !th'.pc.Construct? && OwnedSlot(s.a, s.threads[t]) == Some(slot)
    requires ElementAt(s.a, slot).None? && ElementAt(s'.a, slot).Some? && ElementAt(s'.a, slot).value.key == KeyOf(s.threads[t].op)
    ensures Present(s', x, k) <==> Present(s, x, k)
  {
    hide WellFormed, Typed, MarksKept;
    forall u ensures Building(s', u, x, k) <==> u != t && Building(s, u, x, k) {
      BuildingOther(s, t, th', s', u, x, k);
    }
    assert Building(s, t, x, k) <==> x == slot && k == KeyOf(s.threads[t].op) by { hide Probe; }
    assert HoldsKey(s'.a, x, k) <==> (x != slot && HoldsKey(s.a, x, k)) || (x == slot && k == KeyOf(s.threads[t].op));
    hide HoldsKey, Building, SameExcept, Moved, WellTyped, OwnedSlot;
    if Present(s, x, k) && !HoldsKey(s.a, x, k) {
      var u :| Building(s, u, x, k);
      assert u != t ==> Building(s', u, x, k);
    }
  }

  lemma ConstructKept(s: State, t: Tid, s': State)
    requires Inv(s) && t in s.threads && s.threads[t].pc.Construct? && InsertStep(s, t, s')
    ensures Inv(s')
  {
    var th' := s'.threads[t];
    var slot := ConstructWrites(s, t, s');
    WritesTyped(s, t, th', s', slot);
    assert Moved(s, t, th', s') && SameExcept(s.a, s'.a, slot) && IsSlot(s.a, slot);
    hide InsertStep, Writes, WellTyped, Balanced, Inv, Present, SameExcept, Moved, OwnedSlot;
    forall x, k ensures Present(s', x, k) <==> Present(s, x, k) {
      ConstructPresence(s, t, th', s', slot, x, k);
    }
    Disturbed(s', t);
    WriteStep(s, t, th', s', slot, 1);
  }

  lemma InsertKeeps(s: State, t: Tid, s': State)
    requires WellTyped(s) && t in s.threads && InsertStep(s, t, s')
    ensures t in s'.threads
  {
    hide WellTyped, Probe, ReducedHash;
  }

  lemma InsertKept(s: State, t: Tid, s': State)
    requires Inv(s) && t in s.threads && InsertStep(s, t, s')
    ensures Inv(s')
  {
    InvParts(s);
    InsertKeeps(s, t, s');
    hide Inv, WellTyped;
    match s.threads[t].pc
    case Snapshot => SnapshotKept(s, t, s');
    case Reserve(_) => ReserveKept(s, t, s');
    case Decide(_, _) => DecideKept(s, t, s');
    case Unreserve => GiveBackKept(s, t, s');
    case DropSize => GiveBackKept(s, t, s');
    case Seek(_, _) => SeekKept(s, t, s');
    case Scan(_, _) => if s'.threads[t].pc.Bump? { TakeKept(s, t, s'); } else { MarkKept(s, t, s'); }
    case Marked(_, _) => MarkedKept(s, t, s');
    case Bump(_, _, _) => BumpKept(s, t, s');
    case Construct(_, _) => ConstructKept(s, t, s');
    case Rollback(_, _) => RollbackKept(s, t, s');
    case RolledBack(_) => RolledBackKept(s, t, s');
  }
}
