/** Every step of every thread keeps the invariant. */
module ConcurrentSteps {
  import opened SizePolicy
  import opened QuadraticProber
  import opened Groups
  import opened Arrays
  import opened Wrappers
  import opened ArrayLaws
  import opened ConcurrentTable
  import opened ConcurrentInvariant
  import opened ConcurrentEffects
  import opened ConcurrentKept
  import opened ConcurrentLookup

  /* ---------- steps that leave the arrays alone ---------- */

  /** What a step inside the container that does not write the arrays has to show about its thread. */
  ghost predicate Calm(s: State, t: Tid, th': Thread, s': State)
    requires WellTyped(s)
  {
    && Moved(s, t, th', s') && s'.a == s.a && SameCounters(s, s')
    && s'.owner == s.owner && s'.sharers == s.sharers
    && Inside(s.threads[t].pc) && Inside(th'.pc)
    && Typed(s.a, th')
    && OwnedSlot(s.a, th') == OwnedSlot(s.a, s.threads[t])
    && !s.threads[t].pc.Construct? && !th'.pc.Construct?
    && (forall i :: FlagsTo(s.threads[t].pc) <= i < FlagsTo(th'.pc) && i < |s.a.groups| ==> Flagged(s.a, HashOf(th'), i))
    && (CounterOf(th'.pc).Some? ==> CounterOf(th'.pc).value <= s.acc[Home(s.a, th')].count)
  }

  ghost predicate StillAhead(s: State, t: Tid, th': Thread, s': State)
    requires WellTyped(s) && WellTyped(s')
  {
    forall x :: Undisturbed(s', t) && Present(s, x, KeyOf(th'.op)) ==> Ahead(s.a, th', x)
  }

  lemma CalmTyped(s: State, t: Tid, th': Thread, s': State)
    requires Inv(s) && Calm(s, t, th', s')
    ensures WellTyped(s')
  {
  }

  lemma CalmKept(s: State, t: Tid, th': Thread, s': State)
    requires Inv(s) && Calm(s, t, th', s') && WellTyped(s') && StillAhead(s, t, th', s')
    ensures ContainerOk(s') && SlotsOk(s'.a) && OwnedOk(s') && TakenOk(s')
    ensures FlagsOk(s') && CountersOk(s') && UniqueOk(s') && AheadOk(s')
  {
    hide GroupLocksOk, CountsOk, WellTyped, Typed, SlotsOk, ContainerOk, OwnedOk, TakenOk, FlagsOk, CountersOk, UniqueOk, AheadOk;
    hide Present, Ahead, Undisturbed, Probe, WellFormed;
    ContainerSame(s, t, th', s');
    OwnershipSame(s, t, th', s', Slot(0, 0));
    FlagsKept(s, t, th', s');
    CountersKept(s, t, th', s');
    PresentSame(s, t, th', s');
    UniqueKept(s, s');
    AheadKept(s, t, th', s');
  }

  /** Nothing but the program point and the accounting changes. */
  lemma QuietStep(s: State, t: Tid, th': Thread, s': State)
    requires Inv(s) && Calm(s, t, th', s') && s'.acc == s.acc
    requires HeldStep(th'.pc) == HeldStep(s.threads[t].pc)
    requires HeldStep(th'.pc).Some? ==> HeldExclusive(th') == HeldExclusive(s.threads[t])
    requires Balanced(s, s.threads[t], th', s', 0) || (WellTyped(s') && CountsOk(s'))
    requires WellTyped(s') ==> StillAhead(s, t, th', s')
    ensures Inv(s')
  {
    CalmTyped(s, t, th', s');
    CalmKept(s, t, th', s');
    LocksSame(s, t, th', s');
    if Balanced(s, s.threads[t], th', s', 0) {
      CountsAfter(s, t, th', s', 0);
    }
  }

  lemma AcquireStep(s: State, t: Tid, th': Thread, s': State, g: nat, exclusive: bool)
    requires Inv(s) && Calm(s, t, th', s')
    requires g < |s.acc| && FreeFor(s.acc[g], exclusive) && s'.acc == s.acc[g := Acquired(s.acc[g], t, exclusive)]
    requires HeldStep(s.threads[t].pc).None?
    requires HeldStep(th'.pc).Some? && GroupOf(s.a, th', HeldStep(th'.pc).value) == g && HeldExclusive(th') == exclusive
    requires Balanced(s, s.threads[t], th', s', 0)
    requires WellTyped(s') ==> StillAhead(s, t, th', s')
    ensures Inv(s')
  {
    CalmTyped(s, t, th', s');
    CalmKept(s, t, th', s');
    LocksAcquire(s, t, th', s', g, exclusive);
    CountsAfter(s, t, th', s', 0);
  }

  lemma ReleaseStep(s: State, t: Tid, th': Thread, s': State, g: nat)
    requires Inv(s) && Calm(s, t, th', s')
    requires g < |s.acc| && s'.acc == s.acc[g := Released(s.acc[g], t)]
    requires HeldStep(s.threads[t].pc).Some? && GroupOf(s.a, s.threads[t], HeldStep(s.threads[t].pc).value) == g
    requires HeldStep(th'.pc).None?
    requires Balanced(s, s.threads[t], th', s', 0)
    requires WellTyped(s') ==> StillAhead(s, t, th', s')
    ensures Inv(s')
  {
    CalmTyped(s, t, th', s');
    CalmKept(s, t, th', s');
    LocksRelease(s, t, th', s', g);
    CountsAfter(s, t, th', s', 0);
  }

  /* ---------- lookup ---------- */

  lemma LookupAhead(s: State, t: Tid, th': Thread, s': State)
    requires Inv(s) && t in s.threads && LookupStep(s, t, s') && WellTyped(s') && Calm(s, t, th', s')
    requires CounterOf(th'.pc).Some? ==> CounterOf(th'.pc) == CounterOf(s.threads[t].pc)
    ensures StillAhead(s, t, th', s')
  {
    var th := s.threads[t];
    assert s'.a == s.a && s'.threads[t] == th' && th'.op == th.op;
    assert Undisturbed(s', t) ==> Undisturbed(s, t) by { hide Probe, Typed, WellFormed, LookupStep; }
    hide Probe, Typed, WellFormed, WellTyped, LookupStep, Present, Ahead, Calm, Undisturbed, CounterOf;
    hide GroupLocksOk, SlotsOk, OwnedOk, FlagsOk, TakenOk, ContainerOk, CountersOk, UniqueOk, CountsOk;
    forall x | Undisturbed(s', t) && Present(s, x, KeyOf(th'.op)) ensures Ahead(s.a, th', x) {
      LookupNeverMisses(s, t, s', x);
      FoundHasNoCounter(s', t);
    }
  }

  lemma FoundHasNoCounter(s: State, t: Tid)
    requires WellTyped(s) && Undisturbed(s, t)
    ensures !s.threads[t].pc.Found?
  {
    hide Probe, Typed, WellFormed;
  }

  /** Lookup steps change the program point and at most one group lock. */
  lemma MatchCalm(s: State, t: Tid, th': Thread, s': State)
    requires WellTyped(s) && CountersOk(s) && t in s.threads && s.threads[t].pc.Match? && LookupStep(s, t, s')
    requires th' == s'.threads[t]
    ensures Calm(s, t, th', s') && Balanced(s, s.threads[t], th', s', 0) && s'.acc == s.acc
    ensures HeldStep(th'.pc) == HeldStep(s.threads[t].pc) == None
    ensures CounterOf(th'.pc) == CounterOf(s.threads[t].pc)
  {
    var th := s.threads[t];
    var g := GroupOf(s.a, th, th.pc.step);
    if th.pc.n < N && s.a.groups[g].meta[th.pc.n] == ReducedHash(HashOf(th)) {
      HitIsSlot(s.a, g, th.pc.n, HashOf(th));
    }
    assert Typed(s.a, th') by { assert Typed(s.a, th); }
    hide Probe, WellFormed, ReducedHash;
  }

  lemma MatchKept(s: State, t: Tid, s': State)
    requires Inv(s) && t in s.threads && s.threads[t].pc.Match? && LookupStep(s, t, s')
    ensures Inv(s')
  {
    var th' := s'.threads[t];
    MatchCalm(s, t, th', s');
    CalmTyped(s, t, th', s');
    LookupAhead(s, t, th', s');
    hide Inv, LookupStep, Calm, Balanced, WellTyped, StillAhead;
    QuietStep(s, t, th', s');
  }

  lemma LockCalm(s: State, t: Tid, th': Thread, s': State)
    requires WellTyped(s) && CountersOk(s) && t in s.threads && s.threads[t].pc.Lock? && LookupStep(s, t, s')
    requires th' == s'.threads[t]
    ensures Calm(s, t, th', s') && Balanced(s, s.threads[t], th', s', 0)
    ensures CounterOf(th'.pc) == CounterOf(s.threads[t].pc)
  {
    hide Probe, ReducedHash;
    assert Typed(s.a, s.threads[t]);
  }

  lemma LockKept(s: State, t: Tid, s': State)
    requires Inv(s) && t in s.threads && s.threads[t].pc.Lock? && LookupStep(s, t, s')
    ensures Inv(s')
  {
    var th, th' := s.threads[t], s'.threads[t];
    var g, exclusive := GroupOf(s.a, th, th.pc.step), LookupExclusive(th.op);
    LockCalm(s, t, th', s');
    CalmTyped(s, t, th', s');
    LookupAhead(s, t, th', s');
    assert FreeFor(s.acc[g], exclusive) && s'.acc == s.acc[g := Acquired(s.acc[g], t, exclusive)];
    hide Inv, LookupStep, Calm, Balanced, WellTyped, StillAhead, Probe, LookupExclusive;
    AcquireStep(s, t, th', s', g, exclusive);
  }

  lemma CheckCalm(s: State, t: Tid, th': Thread, s': State)
    requires WellTyped(s) && CountersOk(s) && t in s.threads && s.threads[t].pc.Check? && LookupStep(s, t, s')
    requires th' == s'.threads[t]
    ensures Calm(s, t, th', s') && Balanced(s, s.threads[t], th', s', 0)
    ensures CounterOf(th'.pc).Some? ==> CounterOf(th'.pc) == CounterOf(s.threads[t].pc)
  {
    hide Probe, ReducedHash;
    assert Typed(s.a, s.threads[t]);
  }

  lemma CheckKept(s: State, t: Tid, s': State)
    requires Inv(s) && t in s.threads && s.threads[t].pc.Check? && LookupStep(s, t, s')
    ensures Inv(s')
  {
    var th, th' := s.threads[t], s'.threads[t];
    var g := GroupOf(s.a, th, th.pc.step);
    CheckCalm(s, t, th', s');
    CalmTyped(s, t, th', s');
    LookupAhead(s, t, th', s');
    if th.pc.mask == {} {
      assert s'.acc == s.acc[g := Released(s.acc[g], t)];
      hide Inv, LookupStep, Calm, Balanced, WellTyped, StillAhead, Probe;
      ReleaseStep(s, t, th', s', g);
    } else {
      hide Inv, Calm, Balanced, WellTyped, StillAhead, Probe;
      QuietStep(s, t, th', s');
    }
  }

  lemma OverflowCalm(s: State, t: Tid, th': Thread, s': State)
    requires WellTyped(s) && CountersOk(s) && t in s.threads && s.threads[t].pc.Overflow? && LookupStep(s, t, s')
    requires th' == s'.threads[t]
    ensures Calm(s, t, th', s') && Balanced(s, s.threads[t], th', s', 0) && s'.acc == s.acc
    ensures HeldStep(th'.pc) == HeldStep(s.threads[t].pc) == None
    ensures CounterOf(th'.pc).Some? ==> CounterOf(th'.pc) == CounterOf(s.threads[t].pc)
  {
    hide Probe, ReducedHash;
    assert Typed(s.a, s.threads[t]);
  }

  lemma OverflowKept(s: State, t: Tid, s': State)
    requires Inv(s) && t in s.threads && s.threads[t].pc.Overflow? && LookupStep(s, t, s')
    ensures Inv(s')
  {
    var th' := s'.threads[t];
    OverflowCalm(s, t, th', s');
    CalmTyped(s, t, th', s');
    LookupAhead(s, t, th', s');
    hide Inv, LookupStep, Calm, Balanced, WellTyped, StillAhead;
    QuietStep(s, t, th', s');
  }

  lemma LookupKept(s: State, t: Tid, s': State)
    requires Inv(s) && t in s.threads && LookupStep(s, t, s')
    ensures Inv(s')
  {
    hide Inv;
    match s.threads[t].pc
    case Match(_, _, _, _) => MatchKept(s, t, s');
    case Lock(_, _, _) => LockKept(s, t, s');
    case Check(_, _, _) => CheckKept(s, t, s');
    case Overflow(_, _) => OverflowKept(s, t, s');
  }
}
