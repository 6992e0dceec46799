/** Lookup in the concurrent table: what it can miss, and that it disturbs nothing. */
module ConcurrentLookup {
  import opened SizePolicy
  import opened QuadraticProber
  import opened Groups
  import opened Arrays
  import opened Wrappers
  import opened ArrayLaws
  import opened ConcurrentTable
  import opened ConcurrentInvariant
  import opened ConcurrentEffects
  import opened ConcurrentKept

  /** A logically present key shows in the metadata, and probing for it reaches its group. */
  lemma PresentVisible(s: State, x: Slot, k: Key)
    requires WellTyped(s) && SlotsOk(s.a) && OwnedOk(s) && FlagsOk(s) && Present(s, x, k)
    ensures IsSlot(s.a, x) && Meta(s.a, x) == ReducedHash(k.hash) && Reaches(s.a, k.hash, x.g)
  {
    hide Probe, ReducedHash;
    if HoldsKey(s.a, x, k) {
      assert SlotOk(s.a, x);
    } else {
      var t :| Building(s, t, x, k);
      var th := s.threads[t];
      assert OwnsSlot(s, t, x);
      forall i | 0 <= i < th.pc.step && i < |s.a.groups| ensures Flagged(s.a, k.hash, i) {
        assert i < FlagsTo(th.pc);
      }
      ReachesAtStep(s.a, k.hash, th.pc.step);
    }
  }

  /** Under group access, an occupied slot that is not the thread's own holds a fully constructed element. */
  lemma OccupiedConstructed(s: State, t: Tid, x: Slot)
    requires WellTyped(s) && GroupLocksOk(s) && TakenOk(s)
    requires IsSlot(s.a, x) && (exists e :: Holds(s, t, x.g, e)) && !OwnsSlot(s, t, x)
    requires Meta(s.a, x) != AVAILABLE
    ensures ElementAt(s.a, x).Some?
  {
    hide WellFormed, Typed;
    if ElementAt(s.a, x).None? {
      var u :| OwnsSlot(s, u, x);
      OwnerHolds(s, u, x);
      Alone(s, u, t, x.g);
    }
  }

  /** No key is half inserted in a group somebody else has access to. */
  lemma PresentUnderLock(s: State, t: Tid, x: Slot, k: Key)
    requires WellTyped(s) && GroupLocksOk(s) && Present(s, x, k)
    requires (exists e :: Holds(s, t, x.g, e)) && !s.threads[t].pc.Construct?
    ensures HoldsKey(s.a, x, k)
  {
    hide WellFormed, Typed, HoldsKey;
    if !HoldsKey(s.a, x, k) {
      var u :| Building(s, u, x, k);
      assert OwnsSlot(s, u, x);
      OwnerHolds(s, u, x);
      Alone(s, u, t, x.g);
    }
  }

  /** A lookup step does not overlook a present key that is still ahead of it. */
  lemma LookupNeverMisses(s: State, t: Tid, s': State, x: Slot)
    requires WellTyped(s) && GroupLocksOk(s) && SlotsOk(s.a) && OwnedOk(s) && FlagsOk(s)
    requires t in s.threads && LookupStep(s, t, s')
    requires Present(s, x, KeyOf(s.threads[t].op)) && Ahead(s.a, s.threads[t], x)
    ensures s'.threads[t].pc.Found? || (WellFormed(s'.a) && Ahead(s'.a, s'.threads[t], x))
  {
    match s.threads[t].pc
    case Match(_, _, _, _) => MatchNeverMisses(s, t, s', x);
    case Lock(_, _, _) => LockNeverMisses(s, t, s', x);
    case Check(_, _, _) => CheckNeverMisses(s, t, s', x);
    case Overflow(_, _) => OverflowNeverMisses(s, t, s', x);
  }

  lemma MatchNeverMisses(s: State, t: Tid, s': State, x: Slot)
    requires WellTyped(s) && SlotsOk(s.a) && OwnedOk(s) && FlagsOk(s)
    requires t in s.threads && s.threads[t].pc.Match? && LookupStep(s, t, s')
    requires Present(s, x, KeyOf(s.threads[t].op)) && Ahead(s.a, s.threads[t], x)
    ensures s'.a == s.a && Ahead(s.a, s'.threads[t], x)
  {
    PresentVisible(s, x, KeyOf(s.threads[t].op));
    hide Probe, ReducedHash, SlotsOk, OwnedOk, FlagsOk, Reaches, Present;
    var th := s.threads[t];
    assert th.pc.n == N && x.g == GroupOf(s.a, th, th.pc.step) ==> x.n in th.pc.mask;
    if th.pc.n == N && th.pc.mask == {} {
      NotPassedNext(s.a, th, th.pc.step, x);
    }
    NotPassedSame(s.a, th, s'.threads[t], x);
  }

  lemma NotPassedSame(a: Arrays, th: Thread, th': Thread, x: Slot)
    requires WellFormed(a) && th'.op == th.op
    ensures forall step: nat :: NotPassed(a, th, step, x) ==> NotPassed(a, th', step, x)
  {
    hide Probe;
    forall step: nat | NotPassed(a, th, step, x) ensures NotPassed(a, th', step, x) {
      forall i | 0 <= i < step ensures GroupOf(a, th', i) != x.g { assert GroupOf(a, th, i) != x.g; }
    }
  }

  lemma LockNeverMisses(s: State, t: Tid, s': State, x: Slot)
    requires WellTyped(s)
    requires t in s.threads && s.threads[t].pc.Lock? && LookupStep(s, t, s')
    requires Ahead(s.a, s.threads[t], x)
    ensures s'.a == s.a && Ahead(s.a, s'.threads[t], x)
  {
    hide Probe;
    NotPassedSame(s.a, s.threads[t], s'.threads[t], x);
  }

  lemma CheckNeverMisses(s: State, t: Tid, s': State, x: Slot)
    requires WellTyped(s) && GroupLocksOk(s) && SlotsOk(s.a) && OwnedOk(s) && FlagsOk(s)
    requires t in s.threads && s.threads[t].pc.Check? && LookupStep(s, t, s')
    requires Present(s, x, KeyOf(s.threads[t].op)) && Ahead(s.a, s.threads[t], x)
    ensures s'.a == s.a && (s'.threads[t].pc.Found? || Ahead(s.a, s'.threads[t], x))
  {
    var th := s.threads[t];
    PresentVisible(s, x, KeyOf(th.op));
    hide Probe, SlotsOk, OwnedOk, FlagsOk, Reaches;
    if x.g == GroupOf(s.a, th, th.pc.step) {
      assert Holds(s, t, x.g, LookupExclusive(th.op));
      PresentUnderLock(s, t, x, KeyOf(th.op));
    } else if th.pc.mask == {} {
      NotPassedNext(s.a, th, th.pc.step, x);
    }
    hide GroupLocksOk, Present, Typed;
    NotPassedSame(s.a, th, s'.threads[t], x);
  }

  lemma OverflowNeverMisses(s: State, t: Tid, s': State, x: Slot)
    requires WellTyped(s) && SlotsOk(s.a) && OwnedOk(s) && FlagsOk(s)
    requires t in s.threads && s.threads[t].pc.Overflow? && LookupStep(s, t, s')
    requires Present(s, x, KeyOf(s.threads[t].op)) && Ahead(s.a, s.threads[t], x)
    ensures s'.a == s.a && Ahead(s.a, s'.threads[t], x)
  {
    var th := s.threads[t];
    PresentVisible(s, x, KeyOf(th.op));
    LookupGoesOn(s.a, th, th.pc.step, x);
    hide Probe, SlotsOk, OwnedOk, FlagsOk, Reaches, Present, ReducedHash;
    NotPassedSame(s.a, th, s'.threads[t], x);
  }

  lemma NotPassedNext(a: Arrays, th: Thread, step: nat, x: Slot)
    requires WellFormed(a) && NotPassed(a, th, step, x) && x.g != GroupOf(a, th, step)
    ensures NotPassed(a, th, step + 1, x)
  {
    hide WellFormed, Probe;
  }

  /** A group whose overflow bit is clear, or the last group, is past every slot for that hash. */
  lemma LookupGoesOn(a: Arrays, th: Thread, step: nat, x: Slot)
    requires WellFormed(a) && NotPassed(a, th, step + 1, x) && x.g < |a.groups| && Reaches(a, HashOf(th), x.g)
    requires step < |a.groups|
    ensures step + 1 < |a.groups| && Flagged(a, HashOf(th), step)
  {
    hide Probe;
    var j := ProbeStep(a, HashOf(th), x.g);
    assert GroupOf(a, th, j) == x.g;
    assert step < j;
  }

  lemma ProbeStep(a: Arrays, hash: Hash, g: nat) returns (j: nat)
    requires WellFormed(a) && g < |a.groups|
    ensures j < |a.groups| && Probe(a.index, hash, j) == g
  {
    j := ProbeCovers(Position(hash, a.index), g, BITS - a.index);
  }
}
