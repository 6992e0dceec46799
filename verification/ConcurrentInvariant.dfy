/** What every reachable state of the concurrent table satisfies. */
module ConcurrentInvariant {
  import opened SizePolicy
  import opened Groups
  import opened Arrays
  import opened Wrappers
  import opened ArrayLaws
  import opened ConcurrentTable

  /* ---------- locks ---------- */

  /** Probe step of the group the thread has access to, if it has access to one. */
  function HeldStep(pc: Pc): Option<nat> {
    match pc
    case Check(_, step, _) => Some(step)
    case Found(step, _) => Some(step)
    case Scan(_, step) => Some(step)
    case Marked(_, step) => Some(step)
    case Bump(_, step, _) => Some(step)
    case Construct(step, _) => Some(step)
    case Rollback(step, _) => Some(step)
    case RolledBack(step) => Some(step)
    case Unpaid(step, _) => Some(step)
    case Reset(step, _, _) => Some(step)
    case Shrink(step) => Some(step)
    case Release(step, _, _) => Some(step)
    case _ => None
  }

  function HeldExclusive(th: Thread): bool {
    match th.pc
    case Check(_, _, _) => LookupExclusive(th.op)
    case Found(_, _) => LookupExclusive(th.op)
    case Release(_, exclusive, _) => exclusive
    case _ => true
  }

  ghost predicate Holds(s: State, t: Tid, g: nat, exclusive: bool)
    requires WellTyped(s)
  {
    && t in s.threads
    && HeldStep(s.threads[t].pc).Some?
    && GroupOf(s.a, s.threads[t], HeldStep(s.threads[t].pc).value) == g
    && HeldExclusive(s.threads[t]) == exclusive
  }

  ghost predicate GroupLocksOk(s: State)
    requires WellTyped(s)
  {
    && (forall g: nat, t: Tid :: g < |s.acc| ==> (s.acc[g].writer == Some(t) <==> Holds(s, t, g, true)))
    && (forall g: nat, t: Tid :: g < |s.acc| ==> (t in s.acc[g].readers <==> Holds(s, t, g, false)))
    && (forall g: nat :: g < |s.acc| && s.acc[g].writer.Some? ==> s.acc[g].readers == {})
  }

  /** Inside the container: between acquiring shared access and releasing it. */
  predicate Inside(pc: Pc) {
    !pc.Enter? && !pc.WantAll? && !pc.HoldAll? && !pc.DoneAll?
  }

  ghost predicate ContainerOk(s: State) {
    && (forall t :: t in s.sharers <==> t in s.threads && Inside(s.threads[t].pc))
    && (forall t :: s.owner == Some(t) <==> t in s.threads && (s.threads[t].pc.HoldAll? || s.threads[t].pc.DoneAll?))
    && (s.owner.Some? ==> s.sharers == {})
  }

  /* ---------- slots ---------- */

  /** The thread has marked the slot, or destroyed its element, and nobody else may touch it. */
  ghost predicate OwnsSlot(s: State, t: Tid, slot: Slot)
    requires WellTyped(s)
  {
    t in s.threads && OwnedSlot(s.a, s.threads[t]) == Some(slot)
  }

  ghost function OwnedSlot(a: Arrays, th: Thread): Option<Slot>
    requires WellFormed(a)
  {
    match th.pc
    case Bump(_, step, n) => Some(Slot(GroupOf(a, th, step), n))
    case Construct(step, n) => Some(Slot(GroupOf(a, th, step), n))
    case Rollback(step, n) => Some(Slot(GroupOf(a, th, step), n))
    case Unpaid(step, n) => Some(Slot(GroupOf(a, th, step), n))
    case Reset(step, n, _) => Some(Slot(GroupOf(a, th, step), n))
    case _ => None
  }

  ghost predicate OwnedOk(s: State)
    requires WellTyped(s)
  {
    forall t, slot :: OwnsSlot(s, t, slot) ==>
      && IsSlot(s.a, slot) && ElementAt(s.a, slot).None?
      && Meta(s.a, slot) == ReducedHash(HashOf(s.threads[t]))
  }

  /** A marked slot without an element belongs to some thread. */
  ghost predicate TakenOk(s: State)
    requires WellTyped(s)
  {
    forall slot :: IsSlot(s.a, slot) && Meta(s.a, slot) != AVAILABLE && ElementAt(s.a, slot).None? ==>
      exists t :: OwnsSlot(s, t, slot)
  }

  /** Number of probe steps whose groups the inserting thread has flagged. */
  function FlagsTo(pc: Pc): nat {
    match pc
    case Seek(_, step) => step
    case Scan(_, step) => step
    case Marked(_, step) => step + 1
    case Bump(_, step, _) => step
    case Construct(step, _) => step
    case _ => 0
  }

  ghost predicate FlagsOk(s: State)
    requires WellTyped(s)
  {
    forall t, i :: t in s.threads && 0 <= i < FlagsTo(s.threads[t].pc) && i < |s.a.groups| ==>
      Flagged(s.a, HashOf(s.threads[t]), i)
  }

  /* ---------- presence ---------- */

  ghost predicate Building(s: State, t: Tid, slot: Slot, k: Key)
    requires WellTyped(s)
  {
    && t in s.threads && s.threads[t].pc.Construct? && KeyOf(s.threads[t].op) == k
    && OwnedSlot(s.a, s.threads[t]) == Some(slot)
  }

  /** The slot logically holds the key: constructed, or its inserter has won the counter. */
  ghost predicate Present(s: State, slot: Slot, k: Key)
    requires WellTyped(s)
  {
    HoldsKey(s.a, slot, k) || exists t :: Building(s, t, slot, k)
  }

  ghost predicate UniqueOk(s: State)
    requires WellTyped(s)
  {
    forall k, x, y :: Present(s, x, k) && Present(s, y, k) ==> x == y
  }

  /* ---------- optimistic insertion ---------- */

  function CounterOf(pc: Pc): Option<nat> {
    match pc
    case Match(c, _, _, _) => Some(c)
    case Lock(c, _, _) => Some(c)
    case Check(c, _, _) => Some(c)
    case Overflow(c, _) => Some(c)
    case Reserve(c) => Some(c)
    case Decide(c, _) => Some(c)
    case Seek(c, _) => Some(c)
    case Scan(c, _) => Some(c)
    case Marked(c, _) => Some(c)
    case Bump(c, _, _) => Some(c)
    case _ => None
  }

  ghost predicate CountersOk(s: State)
    requires WellTyped(s)
  {
    forall t :: t in s.threads && CounterOf(s.threads[t].pc).Some? ==>
      CounterOf(s.threads[t].pc).value <= s.acc[Home(s.a, s.threads[t])].count
  }

  /** No insertion through the home group has bumped the counter since the thread read it. */
  ghost predicate Undisturbed(s: State, t: Tid)
    requires WellTyped(s)
  {
    && t in s.threads && s.threads[t].op.Insert?
    && CounterOf(s.threads[t].pc) == Some(s.acc[Home(s.a, s.threads[t])].count)
  }

  /** Lookup by the thread will still come across the slot. */
  ghost predicate Ahead(a: Arrays, th: Thread, slot: Slot)
    requires WellFormed(a)
  {
    match th.pc
    case Match(_, step, n, mask) => NotPassed(a, th, step, slot) && (slot.g == GroupOf(a, th, step) ==> n <= slot.n || slot.n in mask)
    case Lock(_, step, mask) => NotPassed(a, th, step, slot) && (slot.g == GroupOf(a, th, step) ==> slot.n in mask)
    case Check(_, step, mask) => NotPassed(a, th, step, slot) && (slot.g == GroupOf(a, th, step) ==> slot.n in mask)
    case Overflow(_, step) => NotPassed(a, th, step + 1, slot)
    case _ => false
  }

  ghost predicate NotPassed(a: Arrays, th: Thread, step: nat, slot: Slot)
    requires WellFormed(a)
  {
    forall i :: 0 <= i < step ==> GroupOf(a, th, i) != slot.g
  }

  ghost predicate AheadOk(s: State)
    requires WellTyped(s)
  {
    forall t, slot :: Undisturbed(s, t) && Present(s, slot, KeyOf(s.threads[t].op)) ==> Ahead(s.a, s.threads[t], slot)
  }

  /* ---------- accounting ---------- */

  /** Threads of a given class. */
  ghost function Select(threads: map<Tid, Thread>, kind: Thread -> bool): set<Tid> {
    set t | t in threads && kind(threads[t])
  }

  /** Holds a size unit for an element not constructed yet. */
  predicate Reserved(th: Thread) {
    th.pc.Decide? || th.pc.Unreserve? || Admitted(th)
  }

  /** Reservation found to be within ml. */
  predicate Admitted(th: Thread) {
    || th.pc.Seek? || th.pc.Scan? || th.pc.Marked? || th.pc.Bump? || th.pc.Construct?
    || th.pc.Rollback? || th.pc.RolledBack? || th.pc.DropSize?
  }

  /** Element destroyed, size not decremented yet. */
  predicate Erasing(th: Thread) {
    th.pc.Unpaid? || th.pc.Reset? || th.pc.Shrink?
  }

  /** Slot still marked, and ml not lowered on its account. */
  predicate Owing(th: Thread) {
    th.pc.Unpaid? || (th.pc.Reset? && !th.pc.paid)
  }

  /** Slot still marked, and ml already lowered on its account. */
  predicate Paid(th: Thread) {
    th.pc.Reset? && th.pc.paid
  }

  /** Undecided reservation that would succeed if it looked at ml now. */
  predicate Eligible(ml: int, th: Thread) {
    th.pc.Decide? && th.pc.ticket <= ml
  }

  ghost function EligibleAt(ml: int): Thread -> bool {
    th => Eligible(ml, th)
  }

  ghost predicate CountsOk(s: State)
    requires WellTyped(s)
  {
    && s.size == |Live(s.a)| + |Select(s.threads, Reserved)| + |Select(s.threads, Erasing)|
    && |Live(s.a)| + |Select(s.threads, Admitted)| + |Select(s.threads, EligibleAt(s.ml))| + |Select(s.threads, Owing)| <= s.ml
    && s.ml + |Select(s.threads, Paid)| <= InitialMaxLoad(Capacity(s.a))
    && forall t :: t in s.threads && s.threads[t].pc.Decide? ==> s.threads[t].pc.ticket > 0
  }

  ghost predicate Inv(s: State) {
    && WellTyped(s)
    && GroupLocksOk(s)
    && ContainerOk(s)
    && SlotsOk(s.a)
    && OwnedOk(s)
    && TakenOk(s)
    && FlagsOk(s)
    && CountersOk(s)
    && UniqueOk(s)
    && AheadOk(s)
    && CountsOk(s)
  }

  lemma InvAll(s: State)
    requires Inv(s)
    ensures WellTyped(s) && GroupLocksOk(s) && ContainerOk(s) && SlotsOk(s.a) && OwnedOk(s) && TakenOk(s) && FlagsOk(s)
    ensures CountersOk(s) && UniqueOk(s) && AheadOk(s) && CountsOk(s)
  {
    hide WellFormed, Typed, GroupLocksOk, ContainerOk, SlotsOk, OwnedOk, TakenOk, FlagsOk, CountersOk, UniqueOk, AheadOk, CountsOk;
  }
}
