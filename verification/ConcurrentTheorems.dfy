/** Safety of the concurrent table over all runs. */
module ConcurrentTheorems {
  import opened SizePolicy
  import opened Pow2Arith
  import opened QuadraticProber
  import opened Groups
  import opened Arrays
  import opened Wrappers
  import opened ArrayLaws
  import opened ConcurrentTable
  import opened ConcurrentInvariant
  import opened ConcurrentEffects
  import opened ConcurrentKept
  import opened ConcurrentLookup
  import opened ConcurrentSteps
  import opened ConcurrentInsert
  import opened ConcurrentErase
  import opened ConcurrentContainer

  lemma InitInv(s: State)
    requires Init(s)
    ensures Inv(s)
  {
    var n: nat :| n / N + 1 <= Pow2(BITS - 1) && s.a == NewArrays(n);
    NewValid(n);
    hide NewArrays, Valid, Capacity, InitialMaxLoad;
    assert ContainerOk(s);
    hide Inv, ContainerOk;
    AtRestInv(s);
  }

  lemma StepInv(s: State, t: Tid, s': State)
    requires Inv(s) && Step(s, t, s')
    ensures Inv(s')
  {
    assert WellTyped(s) && t in s.threads;
    hide Inv, LookupStep, FoundStep, InsertStep, EraseStep, ContainerStep, WellTyped;
    if LookupStep(s, t, s') {
      LookupKept(s, t, s');
    } else if s.threads[t].pc.Found? && FoundStep(s, t, s') {
      FoundKept(s, t, s');
    } else if InsertStep(s, t, s') {
      InsertKept(s, t, s');
    } else if EraseStep(s, t, s') {
      EraseKept(s, t, s');
    } else {
      ContainerKept(s, t, s');
    }
  }

  lemma MoveInv(s: State, t: Tid, s': State)
    requires Inv(s) && Moves(s, t, s')
    ensures Inv(s')
  {
    assert WellTyped(s);
    hide Inv, Step, Start, WellTyped, ExclusiveStep;
    if Step(s, t, s') {
      StepInv(s, t, s');
    } else if ExclusiveStep(s, s') {
      ExclusiveKept(s, s');
    } else {
      var op :| Start(s, t, op, s');
      StartKept(s, t, op, s');
    }
  }

  lemma NextInv(s: State, s': State)
    requires Inv(s) && Next(s, s')
    ensures Inv(s')
  {
    assert WellTyped(s);
    hide Inv, Moves, WellTyped;
    var t :| Moves(s, t, s');
    MoveInv(s, t, s');
  }

  /** A finite execution from a new table. */
  ghost predicate Run(r: seq<State>) {
    && |r| > 0 && Init(r[0])
    && forall i :: 0 <= i < |r| - 1 ==> Next(r[i], r[i + 1])
  }

  lemma {:induction false} RunInv(r: seq<State>, i: nat)
    requires Run(r) && i < |r|
    ensures Inv(r[i])
  {
    hide Init, Next, Inv;
    if i == 0 {
      InitInv(r[0]);
    } else {
      RunInv(r, i - 1);
      assert Next(r[i - 1], r[i - 1 + 1]);
      NextInv(r[i - 1], r[i]);
    }
  }

  /* ---------- no duplicates ---------- */

  /** In every state of every run, a key is logically present in at most one slot. */
  lemma NoDuplicates(r: seq<State>, i: nat, k: Key, x: Slot, y: Slot)
    requires Run(r) && i < |r| && WellTyped(r[i])
    requires Present(r[i], x, k) && Present(r[i], y, k)
    ensures x == y
  {
    RunInv(r, i);
    hide Run, Present;
  }

  /* ---------- size and maximum load ---------- */

  /** Threads holding a marked slot without an element. */
  predicate Owning(th: Thread) {
    th.pc.Bump? || th.pc.Construct? || th.pc.Rollback? || th.pc.Unpaid? || th.pc.Reset?
  }

  lemma {:induction false} AtMostAsMany<A, B>(s: set<A>, f: A -> B)
    ensures |Image(s, f)| <= |s|
  {
    if s != {} {
      var x :| x in s;
      AtMostAsMany(s - {x}, f);
      assert Image(s, f) == Image(s - {x}, f) + {f(x)};
    }
  }

  ghost function SlotOwnedBy(s: State, t: Tid): Slot {
    if WellTyped(s) && t in s.threads && OwnedSlot(s.a, s.threads[t]).Some? then OwnedSlot(s.a, s.threads[t]).value else Slot(0, 0)
  }

  /** Every occupied slot is live or owned by some thread. */
  lemma OccupiedAccounted(s: State)
    requires Inv(s)
    ensures |Occupied(s.a)| <= |Live(s.a)| + |Select(s.threads, Owning)|
  {
    var f := t => SlotOwnedBy(s, t);
    var owned := Image(Select(s.threads, Owning), f);
    forall x | x in Occupied(s.a) ensures x in Live(s.a) + owned {
      if ElementAt(s.a, x).None? {
        assert IsSlot(s.a, x) by { SlotInAll(s.a, x); }
        var t :| OwnsSlot(s, t, x);
        assert f(t) == x && t in Select(s.threads, Owning) by { hide Probe; }
      }
    }
    hide Inv, Occupied, Live;
    AtMostAsMany(Select(s.threads, Owning), f);
    SubsetSize(Occupied(s.a), Live(s.a) + owned);
  }

  /** Inserters that hold a slot. */
  predicate Holding(th: Thread) {
    th.pc.Bump? || th.pc.Construct? || th.pc.Rollback?
  }

  lemma OwningSplit(s: State)
    requires WellTyped(s)
    ensures |Select(s.threads, Owning)| == |Select(s.threads, Holding)| + |Select(s.threads, Owing)| + |Select(s.threads, Paid)|
  {
    hide WellTyped;
    var a, b, c := Select(s.threads, Holding), Select(s.threads, Owing), Select(s.threads, Paid);
    assert a !! b && (a + b) !! c;
    assert Select(s.threads, Owning) == a + b + c;
  }

  /** size is exactly the live elements plus reservations plus erasures in progress, and covers every occupied slot. */
  lemma SizeAccounts(r: seq<State>, i: nat)
    requires Run(r) && i < |r|
    ensures WellTyped(r[i])
    ensures var s := r[i];
      && s.size == |Live(s.a)| + |Select(s.threads, Reserved)| + |Select(s.threads, Erasing)|
      && |Occupied(s.a)| <= s.size
      && 0 <= s.ml <= InitialMaxLoad(Capacity(s.a)) <= Capacity(s.a)
  {
    RunInv(r, i);
    var s := r[i];
    hide Run;
    OccupiedAccounted(s);
    OwningSplit(s);
    ClaimsWithinSize(s.threads, s.ml);
    HoldingAdmitted(s, 0);
    hide WellTyped, Select, Live, Occupied, InitialMaxLoad, Capacity;
    SubsetSize(Select(s.threads, Holding), Select(s.threads, Admitted));
  }

  lemma HoldingAdmitted(s: State, t: Tid)
    requires WellTyped(s)
    ensures Select(s.threads, Holding) <= Select(s.threads, Admitted)
    ensures t in s.threads && (s.threads[t].pc.Seek? || s.threads[t].pc.Scan?) ==>
      Select(s.threads, Holding) <= Select(s.threads, Admitted) - {t} && t in Select(s.threads, Admitted)
  {
    hide WellTyped;
  }

  lemma AdmittedRoom(s: State, t: Tid)
    requires Inv(s) && t in s.threads && (s.threads[t].pc.Seek? || s.threads[t].pc.Scan?)
    ensures WellTyped(s) && |Occupied(s.a)| < Capacity(s.a) && RoomFrom(s.a, HashOf(s.threads[t]), 0)
  {
    OccupiedAccounted(s);
    OwningSplit(s);
    HoldingAdmitted(s, t);
    SubsetSize(Select(s.threads, Holding), Select(s.threads, Admitted) - {t});
    assert |Occupied(s.a)| < Capacity(s.a) by { hide WellTyped, Select, Live, Occupied; }
    FreeSlotReached(s.a, HashOf(s.threads[t]));
  }

  /** A thread whose reservation succeeded and which has no slot yet still has a free slot to find. */
  lemma AdmittedFindsRoom(r: seq<State>, i: nat, t: Tid)
    requires Run(r) && i < |r|
    requires t in r[i].threads && (r[i].threads[t].pc.Seek? || r[i].threads[t].pc.Scan?)
    ensures WellTyped(r[i]) && |Occupied(r[i].a)| < Capacity(r[i].a)
    ensures RoomFrom(r[i].a, HashOf(r[i].threads[t]), 0)
  {
    RunInv(r, i);
    hide Run, Inv;
    AdmittedRoom(r[i], t);
  }

  /** Whenever exclusive container access is held, or can be obtained, the table is at rest and within its maximum load:
      this is what any operation under exclusive access finds. */
  lemma ExclusiveWithinLoad(r: seq<State>, i: nat)
    requires Run(r) && i < |r| && (r[i].owner.Some? || r[i].sharers == {})
    ensures Valid(r[i].a) && r[i].size == |Contents(r[i].a)| <= r[i].ml
  {
    RunInv(r, i);
    hide Run;
    Quiescent(r[i]);
    KeyCount(r[i].a);
  }

  /** After rehash_if_full there is room, and the contents are the same. */
  lemma RehashMakesRoom(r: seq<State>, i: nat, t: Tid)
    requires Run(r) && i + 1 < |r| && WellTyped(r[i])
    requires t in r[i].threads && r[i].threads[t].pc.HoldAll? && Step(r[i], t, r[i + 1])
    ensures WellTyped(r[i + 1])
    ensures r[i + 1].size < r[i + 1].ml && r[i + 1].size == r[i].size && Contents(r[i + 1].a) == Contents(r[i].a)
  {
    RunInv(r, i);
    RunInv(r, i + 1);
    hide Run, Inv;
    HoldAllStep(r[i], t, r[i + 1]);
    RehashRoom(r[i], t, r[i + 1]);
  }

  lemma HoldAllStep(s: State, t: Tid, s': State)
    requires WellTyped(s) && Step(s, t, s') && s.threads[t].pc.HoldAll?
    ensures ContainerStep(s, t, s')
  {
  }

  lemma RehashEffect(s: State, t: Tid, s': State)
    requires WellTyped(s) && ContainerOk(s) && t in s.threads && s.threads[t].pc.HoldAll? && ContainerStep(s, t, s')
    ensures s.owner == Some(t) && s'.size == s.size
    ensures s.size == s.ml ==> s.size >= 0 && CanGrow(s.size) && s'.a == Rehashed(s).a && s'.ml == Rehashed(s).ml
    ensures s.size != s.ml ==> s'.a == s.a && s'.ml == s.ml
  {
    hide WellTyped;
  }

  lemma RehashRoom(s: State, t: Tid, s': State)
    requires Inv(s) && t in s.threads && s.threads[t].pc.HoldAll? && ContainerStep(s, t, s') && WellTyped(s')
    ensures s'.size < s'.ml && s'.size == s.size && Contents(s'.a) == Contents(s.a)
  {
    RehashEffect(s, t, s');
    hide Inv, WellTyped, ContainerStep, CanGrow;
    Quiescent(s);
    if s.size == s.ml {
      RehashedArrays(s);
      RehashedLoad(s);
    }
  }

  lemma RehashedLoad(s: State)
    requires s.size >= 0 && CanGrow(s.size)
    ensures Rehashed(s).ml == InitialMaxLoad(Capacity(Rehashed(s).a))
  {
    hide Transfer, GrownArrays;
  }

  /* ---------- what a lock holder sees ---------- */

  /** Whoever has access to a group sees only fully constructed elements in slots that are not its own. */
  lemma LockHolderSeesElements(r: seq<State>, i: nat, t: Tid, x: Slot)
    requires Run(r) && i < |r| && WellTyped(r[i])
    requires IsSlot(r[i].a, x) && (exists e :: Holds(r[i], t, x.g, e)) && !OwnsSlot(r[i], t, x)
    ensures Meta(r[i].a, x) != AVAILABLE <==> ElementAt(r[i].a, x).Some?
  {
    RunInv(r, i);
    hide Run;
    if Meta(r[i].a, x) != AVAILABLE {
      OccupiedConstructed(r[i], t, x);
    } else {
      assert SlotOk(r[i].a, x);
    }
  }

  /** A slot another thread has only reserved, or is emptying, is invisible under group access. */
  lemma ReservationsHidden(r: seq<State>, i: nat, t: Tid, u: Tid, x: Slot)
    requires Run(r) && i < |r| && WellTyped(r[i])
    requires (exists e :: Holds(r[i], t, x.g, e)) && OwnsSlot(r[i], u, x)
    ensures t == u
  {
    RunInv(r, i);
    hide Run;
    OwnerHolds(r[i], u, x);
    Alone(r[i], u, t, x.g);
  }
}
