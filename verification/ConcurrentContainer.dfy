/** Entering, leaving and rehashing the concurrent table keeps the invariant. */
module ConcurrentContainer {
  import opened SizePolicy
  import opened Pow2Arith
  import opened QuadraticProber
  import opened Groups
  import opened Arrays
  import opened Wrappers
  import opened ArrayLaws
  import opened ConcurrentTable
  import opened ConcurrentInvariant
  import opened ConcurrentEffects
  import opened ConcurrentKept
  import opened ConcurrentLookup
  import opened ConcurrentSteps
  import opened ConcurrentInsert
  import opened ConcurrentErase

  /** The thread holds no group, slot, size unit or insertion in progress. */
  predicate Dormant(th: Thread) {
    || th.pc.Enter? || th.pc.Snapshot? || th.pc.Leave? || th.pc.LeaveFull? || th.pc.WantAll? || th.pc.HoldAll? || th.pc.DoneAll?
    || (!th.op.Insert? && th.pc == Match(0, 0, 0, {}))
  }

  lemma DormantFacts(a: Arrays, th: Thread)
    requires WellFormed(a) && Dormant(th) && (th.pc.Snapshot? || th.pc.LeaveFull? ==> th.op.Insert?)
    ensures Typed(a, th) && HeldStep(th.pc).None? && OwnedSlot(a, th).None? && FlagsTo(th.pc) == 0 && !th.pc.Construct? && !th.pc.Found?
    ensures !Reserved(th) && !Erasing(th) && !Admitted(th) && !Owing(th) && !Paid(th) && !th.pc.Decide?
    ensures CounterOf(th.pc).Some? ==> CounterOf(th.pc) == Some(0) && !th.op.Insert?
  {
    hide Probe;
  }

  /** Threads that differ only in dormant members. */
  ghost predicate SameActive(s: State, s': State) {
    && s'.a == s.a && s'.acc == s.acc && s'.size == s.size && s'.ml == s.ml
    && (forall u :: u in s'.threads ==> (u in s.threads && s.threads[u] == s'.threads[u]) || DormantTyped(s'.threads[u]))
    && (forall u :: u in s.threads ==> (u in s'.threads && s.threads[u] == s'.threads[u]) || DormantTyped(s.threads[u]))
  }

  predicate DormantTyped(th: Thread) {
    Dormant(th) && (th.pc.Snapshot? || th.pc.LeaveFull? ==> th.op.Insert?)
  }

  lemma ActiveTyped(s: State, s': State)
    requires WellTyped(s) && SameActive(s, s')
    ensures WellTyped(s')
  {
    forall u | u in s'.threads ensures Typed(s'.a, s'.threads[u]) {
      if !(u in s.threads && s.threads[u] == s'.threads[u]) { DormantFacts(s.a, s'.threads[u]); }
    }
  }

  lemma ActiveSame(s: State, s': State, u: Tid)
    requires WellTyped(s) && WellTyped(s') && SameActive(s, s')
    ensures forall g, x :: Holds(s', u, g, x) <==> Holds(s, u, g, x)
    ensures forall x :: OwnsSlot(s', u, x) <==> OwnsSlot(s, u, x)
    ensures forall x, k :: Building(s', u, x, k) <==> Building(s, u, x, k)
    ensures Undisturbed(s', u) <==> Undisturbed(s, u)
    ensures (Undisturbed(s, u) || (exists x :: OwnsSlot(s, u, x))) ==> u in s'.threads && s'.threads[u] == s.threads[u]
  {
    hide Probe, Typed, DormantTyped;
    if u in s.threads && u in s'.threads && s.threads[u] == s'.threads[u] {
    } else {
      if u in s.threads { ActiveFacts(s, u); }
      if u in s'.threads { ActiveFacts(s', u); }
    }
  }

  lemma ActiveFacts(s: State, u: Tid)
    requires WellTyped(s) && u in s.threads && DormantTyped(s.threads[u])
    ensures HeldStep(s.threads[u].pc).None? && OwnedSlot(s.a, s.threads[u]).None? && !s.threads[u].pc.Construct? && !Undisturbed(s, u)
  {
    DormantFacts(s.a, s.threads[u]);
    hide Probe, Typed;
  }

  lemma SelectSame(s: State, s': State, kind: Thread -> bool)
    requires SameActive(s, s')
    requires forall th :: DormantTyped(th) ==> !kind(th)
    ensures Select(s'.threads, kind) == Select(s.threads, kind)
  {
    hide DormantTyped;
  }

  lemma OuterCounts(s: State, s': State)
    requires WellTyped(s) && WellTyped(s') && SameActive(s, s') && CountsOk(s)
    ensures CountsOk(s')
  {
    forall th | DormantTyped(th) ensures !Reserved(th) && !Erasing(th) && !Admitted(th) && !Owing(th) && !Paid(th) && !EligibleAt(s.ml)(th) {
      DormantCounts(th, s.ml);
    }
    OuterTickets(s, s');
    hide *;
    SelectSame(s, s', Reserved);
    SelectSame(s, s', Erasing);
    SelectSame(s, s', Admitted);
    SelectSame(s, s', Owing);
    SelectSame(s, s', Paid);
    SelectSame(s, s', EligibleAt(s.ml));
    CountsSame(s, s');
  }

  lemma DormantCounts(th: Thread, ml: int)
    requires DormantTyped(th)
    ensures !Reserved(th) && !Erasing(th) && !Admitted(th) && !Owing(th) && !Paid(th) && !EligibleAt(ml)(th) && !th.pc.Decide?
  {
  }

  lemma OuterTickets(s: State, s': State)
    requires WellTyped(s) && SameActive(s, s') && CountsOk(s)
    ensures s'.a == s.a && s'.size == s.size && s'.ml == s.ml
    ensures forall t :: t in s'.threads && s'.threads[t].pc.Decide? ==> s'.threads[t].pc.ticket > 0
  {
    hide WellTyped, Select, Live, InitialMaxLoad;
  }

  lemma CountsSame(s: State, s': State)
    requires WellTyped(s) && WellTyped(s') && CountsOk(s) && s'.a == s.a && s'.size == s.size && s'.ml == s.ml
    requires Select(s'.threads, Reserved) == Select(s.threads, Reserved) && Select(s'.threads, Erasing) == Select(s.threads, Erasing)
    requires Select(s'.threads, Admitted) == Select(s.threads, Admitted) && Select(s'.threads, Owing) == Select(s.threads, Owing)
    requires Select(s'.threads, Paid) == Select(s.threads, Paid) && Select(s'.threads, EligibleAt(s.ml)) == Select(s.threads, EligibleAt(s.ml))
    requires forall t :: t in s'.threads && s'.threads[t].pc.Decide? ==> s'.threads[t].pc.ticket > 0
    ensures CountsOk(s')
  {
    hide WellTyped, Select, Live, InitialMaxLoad, Capacity, EligibleAt;
  }

  lemma OuterLocks(s: State, s': State)
    requires WellTyped(s) && WellTyped(s') && SameActive(s, s') && GroupLocksOk(s)
    ensures GroupLocksOk(s')
  {
    forall u, g, x ensures Holds(s', u, g, x) <==> Holds(s, u, g, x) {
      ActiveSame(s, s', u);
    }
    assert s'.acc == s.acc;
    hide WellTyped, SameActive, Holds;
  }

  lemma OuterSlots(s: State, s': State)
    requires WellTyped(s) && WellTyped(s') && SameActive(s, s') && OwnedOk(s) && TakenOk(s)
    ensures OwnedOk(s') && TakenOk(s')
  {
    assert s'.a == s.a;
    forall u, x ensures OwnsSlot(s', u, x) <==> OwnsSlot(s, u, x) {
      ActiveSame(s, s', u);
    }
    forall u, x | OwnsSlot(s, u, x) ensures s'.threads[u] == s.threads[u] {
      ActiveSame(s, s', u);
    }
    hide WellTyped, SameActive, WellFormed, ReducedHash;
    forall x | IsSlot(s'.a, x) && Meta(s'.a, x) != AVAILABLE && ElementAt(s'.a, x).None? ensures exists u :: OwnsSlot(s', u, x) {
      var u :| OwnsSlot(s, u, x);
      assert OwnsSlot(s', u, x);
    }
  }

  lemma OuterFlags(s: State, s': State)
    requires WellTyped(s) && WellTyped(s') && SameActive(s, s') && FlagsOk(s) && CountersOk(s)
    ensures FlagsOk(s') && CountersOk(s')
  {
    hide Probe, Typed, Flagged;
  }

  lemma OuterPresence(s: State, s': State)
    requires WellTyped(s) && WellTyped(s') && SameActive(s, s') && UniqueOk(s) && AheadOk(s)
    ensures UniqueOk(s') && AheadOk(s')
    ensures forall x, k :: Present(s', x, k) <==> Present(s, x, k)
  {
    assert s'.a == s.a;
    forall u ensures Undisturbed(s', u) <==> Undisturbed(s, u) {
      ActiveSame(s, s', u);
    }
    forall u | Undisturbed(s, u) ensures u in s'.threads && u in s.threads && s'.threads[u] == s.threads[u] {
      ActiveSame(s, s', u);
    }
    forall u, x, k ensures Building(s', u, x, k) <==> Building(s, u, x, k) {
      ActiveSame(s, s', u);
    }
    hide WellTyped, SameActive, Building, Undisturbed, Ahead, HoldsKey;
    forall x, k ensures Present(s', x, k) <==> Present(s, x, k) {
      if Present(s, x, k) && !HoldsKey(s.a, x, k) {
        var u :| Building(s, u, x, k);
        assert Building(s', u, x, k);
      }
    }
  }

  lemma OuterKept(s: State, s': State)
    requires Inv(s) && SameActive(s, s') && ContainerOk(s')
    ensures Inv(s')
  {
    ActiveTyped(s, s');
    assert s'.a == s.a;
    hide SameActive, ContainerOk, GroupLocksOk, SlotsOk, OwnedOk, TakenOk, FlagsOk, CountersOk, UniqueOk, AheadOk, CountsOk, WellTyped;
    OuterLocks(s, s');
    OuterSlots(s, s');
    OuterFlags(s, s');
    OuterPresence(s, s');
    OuterCounts(s, s');
  }

  /* ---------- entering and leaving ---------- */

  lemma StartKept(s: State, t: Tid, op: Op, s': State)
    requires Inv(s) && Start(s, t, op, s')
    ensures Inv(s')
  {
    StartOuter(s, t, op, s');
    hide Inv, SameActive, ContainerOk, Start;
    OuterKept(s, s');
  }

  lemma StartOuter(s: State, t: Tid, op: Op, s': State)
    requires ContainerOk(s) && Start(s, t, op, s')
    ensures SameActive(s, s') && ContainerOk(s')
  {
  }

  lemma ReleaseCalm(s: State, t: Tid, th': Thread, s': State, g: nat)
    requires WellTyped(s) && t in s.threads && s.threads[t].pc.Release? && ContainerStep(s, t, s') && th' == s'.threads[t]
    requires g == GroupOf(s.a, s.threads[t], s.threads[t].pc.step)
    ensures Calm(s, t, th', s') && Balanced(s, s.threads[t], th', s', 0) && CounterOf(th'.pc).None?
    ensures g < |s.acc| && s'.acc == s.acc[g := Released(s.acc[g], t)] && HeldStep(th'.pc).None?
  {
    hide Probe, ReducedHash;
  }

  lemma ReleaseKept(s: State, t: Tid, s': State)
    requires Inv(s) && t in s.threads && s.threads[t].pc.Release? && ContainerStep(s, t, s')
    ensures Inv(s')
  {
    var th' := s'.threads[t];
    var g := GroupOf(s.a, s.threads[t], s.threads[t].pc.step);
    ReleaseCalm(s, t, th', s', g);
    CalmTyped(s, t, th', s');
    NoCounterAhead(s, t, th', s');
    hide Inv, ContainerStep, Calm, WellTyped, StillAhead, Balanced, Probe;
    ReleaseStep(s, t, th', s', g);
  }

  /** Container-level steps other than releasing a group and rehashing touch only dormant threads and the container lock. */
  lemma OuterStep(s: State, t: Tid, s': State)
    requires WellTyped(s) && ContainerOk(s) && t in s.threads && ContainerStep(s, t, s')
    requires !s.threads[t].pc.Release? && !(s.threads[t].pc.HoldAll? && s.size == s.ml)
    ensures SameActive(s, s') && ContainerOk(s')
  {
    OuterActive(s, t, s');
    OuterContainer(s, t, s');
    hide *;
  }

  lemma OuterActive(s: State, t: Tid, s': State)
    requires WellTyped(s) && t in s.threads && ContainerStep(s, t, s')
    requires !s.threads[t].pc.Release? && !(s.threads[t].pc.HoldAll? && s.size == s.ml)
    ensures SameActive(s, s')
  {
    assert Typed(s.a, s.threads[t]);
    hide Probe, ReducedHash, WellFormed, Rehashed, CanGrow;
  }

  lemma OuterContainer(s: State, t: Tid, s': State)
    requires WellTyped(s) && ContainerOk(s) && t in s.threads && ContainerStep(s, t, s')
    requires !s.threads[t].pc.Release? && !(s.threads[t].pc.HoldAll? && s.size == s.ml)
    ensures ContainerOk(s')
  {
    hide Probe, ReducedHash, WellTyped, Rehashed, CanGrow;
  }

  /* ---------- rehash ---------- */

  /** With exclusive container access held or obtainable, every thread is outside, so the table is at rest. */
  lemma NobodyInside(s: State)
    requires ContainerOk(s) && (s.owner.Some? || s.sharers == {})
    ensures s.sharers == {} && forall t :: t in s.threads ==> !Inside(s.threads[t].pc)
    ensures Select(s.threads, Reserved) == {} && Select(s.threads, Erasing) == {}
  {
    assert forall t :: t in s.threads ==> !Inside(s.threads[t].pc);
    hide ContainerOk;
  }

  lemma NothingOwned(s: State)
    requires WellTyped(s) && forall t :: t in s.threads ==> !Inside(s.threads[t].pc)
    ensures forall t, x :: !OwnsSlot(s, t, x)
  {
    hide WellTyped;
  }

  lemma RestValid(s: State)
    requires WellTyped(s) && SlotsOk(s.a) && TakenOk(s) && UniqueOk(s) && forall t, x :: !OwnsSlot(s, t, x)
    ensures Valid(s.a)
  {
    hide OwnsSlot, SlotsOk, Building;
    forall k, x, y | HoldsKey(s.a, x, k) && HoldsKey(s.a, y, k) ensures x == y {
      assert Present(s, x, k) && Present(s, y, k);
    }
  }

  lemma Quiescent(s: State)
    requires Inv(s) && (s.owner.Some? || s.sharers == {})
    ensures Valid(s.a) && s.size == |Live(s.a)| && |Live(s.a)| <= s.ml <= InitialMaxLoad(Capacity(s.a))
    ensures forall t :: t in s.threads ==> !Inside(s.threads[t].pc)
  {
    NobodyInside(s);
    hide WellTyped, SlotsOk, TakenOk, UniqueOk, OwnsSlot, Valid, FlagsOk, CountersOk, AheadOk, GroupLocksOk, OwnedOk, ContainerOk, Live;
    NothingOwned(s);
    RestValid(s);
  }

  lemma RehashedArrays(s: State)
    requires Inv(s) && s.owner.Some? && s.size >= 0 && s.size == s.ml && CanGrow(s.size)
    ensures var b := Rehashed(s).a;
      && Valid(b) && Contents(b) == Contents(s.a) && |Live(b)| == |Live(s.a)|
      && s.size < InitialMaxLoad(Capacity(b))
  {
    hide *;
    Quiescent(s);
    GrownValid(s.size);
    ValidParts(s.a);
    RehashValid(s.a, GrownArrays(s.size));
    RehashedLive(s);
  }

  lemma GrownValid(size: nat)
    requires CanGrow(size)
    ensures var b := GrownArrays(size);
      && Valid(b) && b.elements != [] && Live(b) == {} && Contents(b) == map[]
      && size < InitialMaxLoad(Capacity(b)) <= Capacity(b) && Capacity(b) == CapacityFor(GrowthRequest(size))
  {
    GrowthPositive(size);
    NewValid(GrowthRequest(size));
    GrowthSuffices(size);
    hide Valid, NewArrays, GrowthRequest, CapacityFor, Live, Contents;
  }

  lemma RehashedLive(s: State)
    requires s.size >= 0 && CanGrow(s.size)
    ensures Rehashed(s).a == Transfer(s.a.elements, GrownArrays(s.size))
    ensures Rehashed(s).a.index == GrownArrays(s.size).index && |Rehashed(s).a.groups| == |GrownArrays(s.size).groups|
    ensures |Rehashed(s).a.elements| == |GrownArrays(s.size).elements|
    ensures Capacity(Rehashed(s).a) == Capacity(GrownArrays(s.size))
  {
    hide Transfer, GrownArrays;
  }

  lemma RehashKept(s: State, t: Tid, s': State)
    requires Inv(s) && t in s.threads && s.threads[t].pc.HoldAll? && s.size == s.ml && ContainerStep(s, t, s')
    ensures Inv(s') && s'.size < s'.ml
  {
    hide *;
    InvAll(s);
    RehashState(s, t, s');
    RehashOutside(s, t, s');
    RehashedArrays(s);
    Quiescent(s);
    RehashFree(s'.acc, |s'.a.groups|);
    AtRestInv(s');
  }

  lemma RehashOutside(s: State, t: Tid, s': State)
    requires ContainerOk(s) && t in s.threads && s.threads[t].pc.HoldAll?
    requires s'.threads == s.threads[t := s.threads[t].(pc := DoneAll)] && s'.owner == s.owner && s'.sharers == s.sharers
    ensures s.owner == Some(t) && ContainerOk(s') && forall u :: u in s'.threads ==> !Inside(s'.threads[u].pc)
  {
  }

  lemma RehashFree(acc: seq<Access>, n: nat)
    requires acc == seq(n, g => Access(None, {}, 0))
    ensures |acc| == n && forall g :: 0 <= g < |acc| ==> FreeFor(acc[g], true)
  {
  }

  lemma RehashState(s: State, t: Tid, s': State)
    requires WellTyped(s) && t in s.threads && s.threads[t].pc.HoldAll? && s.size == s.ml && ContainerStep(s, t, s')
    ensures s.size >= 0 && CanGrow(s.size)
    ensures var b := Rehashed(s).a;
      s'.a == b && s'.acc == seq(|b.groups|, g => Access(None, {}, 0)) && s'.size == s.size && s'.ml == InitialMaxLoad(Capacity(b))
    ensures s'.threads == s.threads[t := s.threads[t].(pc := DoneAll)] && s'.owner == s.owner && s'.sharers == s.sharers
  {
    hide WellTyped, CanGrow, GrownArrays, Transfer, Capacity, InitialMaxLoad;
  }

  lemma ExclusiveKept(s: State, s': State)
    requires Inv(s) && ExclusiveStep(s, s')
    ensures Inv(s')
  {
    assert ContainerOk(s) && ContainerOk(s');
    hide Inv;
    NobodyInside(s);
    hide ContainerOk, Valid;
    AtRestInv(s');
  }

  /** Arrays at rest with nobody inside satisfy the whole invariant. */
  lemma AtRestInv(s': State)
    requires ContainerOk(s') && Valid(s'.a)
    requires |s'.acc| == |s'.a.groups| && forall g :: 0 <= g < |s'.acc| ==> FreeFor(s'.acc[g], true)
    requires forall t :: t in s'.threads ==> !Inside(s'.threads[t].pc)
    requires s'.size == |Live(s'.a)| <= s'.ml <= InitialMaxLoad(Capacity(s'.a))
    ensures Inv(s')
  {
    assert WellTyped(s');
    AtRestThreads(s');
    hide Probe, ContainerOk, InitialMaxLoad, CountsOk, Valid, WellFormed, Typed, Inside;
    assert SlotsOk(s'.a) && UniqueKeys(s'.a) && Settled(s'.a) by { ValidParts(s'.a); }
    assert forall x, k :: Present(s', x, k) <==> HoldsKey(s'.a, x, k);
    hide HoldsKey, Present, Building;
    assert UniqueOk(s');
  }

  lemma ValidParts(a: Arrays)
    requires Valid(a)
    ensures WellFormed(a) && SlotsOk(a) && UniqueKeys(a) && Settled(a)
  {
  }

  lemma AtRestThreads(s: State)
    requires WellTyped(s) && forall t :: t in s.threads ==> !Inside(s.threads[t].pc)
    requires s.size == |Live(s.a)| <= s.ml <= InitialMaxLoad(Capacity(s.a))
    ensures forall t, g, x :: !Holds(s, t, g, x)
    ensures forall t, x :: !OwnsSlot(s, t, x)
    ensures forall t, x, k :: !Building(s, t, x, k)
    ensures forall t :: !Undisturbed(s, t)
    ensures FlagsOk(s) && CountersOk(s) && CountsOk(s)
  {
    hide Probe, InitialMaxLoad, WellFormed, Typed, Flagged;
    assert Select(s.threads, Reserved) == {} && Select(s.threads, Erasing) == {} && Select(s.threads, Admitted) == {}
        && Select(s.threads, Owing) == {} && Select(s.threads, Paid) == {} && Select(s.threads, EligibleAt(s.ml)) == {};
  }

  lemma ContainerKept(s: State, t: Tid, s': State)
    requires Inv(s) && t in s.threads && ContainerStep(s, t, s')
    ensures Inv(s')
  {
    if s.threads[t].pc.Release? {
      ReleaseKept(s, t, s');
    } else if s.threads[t].pc.HoldAll? && s.size == s.ml {
      RehashKept(s, t, s');
    } else {
      OuterStep(s, t, s');
      hide Inv, SameActive, ContainerOk, ContainerStep;
      OuterKept(s, s');
    }
  }
}
