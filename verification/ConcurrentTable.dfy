/** The concurrent table as a step machine: any number of threads inserting, visiting and erasing, one
    atomic action at a time, plus the operations under exclusive container access. */
module ConcurrentTable {
  import opened SizePolicy
  import opened Pow2Arith
  import opened Groups
  import opened Arrays
  import opened Wrappers
  import opened ArrayLaws

  type Tid = nat

  /** write is what a mutating visitor makes of the value; None stands for a read-only (group-shared) visitor. An erasure
      may depend on a condition on the value (erase_if); an unconditional one has a condition that is always true. */
  datatype Op =
    | Insert(e: Element, write: Option<int -> int>)
    | Visit(k: Key, write: Option<int -> int>)
    | Erase(k: Key, condition: int -> bool)

  function KeyOf(op: Op): Key {
    match op
    case Insert(e, _) => e.key
    case Visit(k, _) => k
    case Erase(k, _) => k
  }

  /** Whether lookup takes exclusive access to the groups it inspects. */
  predicate LookupExclusive(op: Op) {
    op.Erase? || op.write.Some?
  }

  /** Program points. c is the insertion counter read at the start, step counts probes. */
  datatype Pc =
    | Enter                                                     // waits for shared container access
    | Snapshot                                                  // reads the insertion counter of the home group
    | Match(c: nat, step: nat, n: nat, mask: set<nat>)          // compares metadata byte n, without any lock
    | Lock(c: nat, step: nat, mask: set<nat>)                   // waits for group access
    | Check(c: nat, step: nat, mask: set<nat>)                  // holds it; compares the candidate slots
    | Overflow(c: nat, step: nat)                               // reads the overflow bit
    | Found(step: nat, n: nat)                                  // holds group access, key found in slot n
    | Reserve(c: nat)                                           // increments size
    | Decide(c: nat, ticket: int)                               // compares its ticket with ml
    | Unreserve                                                 // gives the size unit back: table full
    | Seek(c: nat, step: nat)                                   // waits for exclusive group access
    | Scan(c: nat, step: nat)                                   // looks for an available slot
    | Marked(c: nat, step: nat)                                 // group full, overflow marked
    | Bump(c: nat, step: nat, n: nat)                           // slot taken; increments the insertion counter
    | Construct(step: nat, n: nat)                              // counter matched; constructs the element
    | Rollback(step: nat, n: nat)                               // counter moved; gives the slot back
    | RolledBack(step: nat)                                     // releases the group
    | DropSize                                                  // gives the size unit back: start over
    | Unpaid(step: nat, n: nat)                                 // element destroyed; may lower ml
    | Reset(step: nat, n: nat, paid: bool)                      // clears the metadata byte
    | Shrink(step: nat)                                         // decrements size
    | Release(step: nat, exclusive: bool, res: nat)             // releases the group
    | Leave(res: nat)                                           // releases shared container access and returns
    | LeaveFull                                                 // releases it to rehash and try again
    | WantAll                                                   // waits for exclusive container access
    | HoldAll                                                   // rehash_if_full
    | DoneAll                                                   // releases exclusive container access

  datatype Thread = Thread(op: Op, pc: Pc)

  /** Group-level protection: a readers-writer lock and the insertion counter. */
  datatype Access = Access(writer: Option<Tid>, readers: set<Tid>, count: nat)

  datatype State = State(
    a: Arrays,
    acc: seq<Access>,
    size: int,
    ml: int,
    owner: Option<Tid>,     // holder of exclusive container access
    sharers: set<Tid>,      // holders of shared container access
    threads: map<Tid, Thread>)

  function HashOf(th: Thread): Hash {
    KeyOf(th.op).hash
  }

  /** Group the thread is probing. */
  function GroupOf(a: Arrays, th: Thread, step: nat): nat
    requires IsSizeIndex(a.index)
  {
    Probe(a.index, HashOf(th), step)
  }

  function Home(a: Arrays, th: Thread): nat
    requires IsSizeIndex(a.index)
  {
    GroupOf(a, th, 0)
  }

  /** Slots a lookup mask may name. */
  ghost predicate MaskOk(a: Arrays, g: nat, mask: set<nat>) {
    forall n :: n in mask ==> IsSlot(a, Slot(g, n))
  }

  /** What the program point alone says about the thread. */
  ghost predicate Typed(a: Arrays, th: Thread)
    requires WellFormed(a)
  {
    match th.pc
    case Enter | Leave(_) | WantAll | HoldAll | DoneAll => true
    case Snapshot | Reserve(_) | Decide(_, _) | Unreserve | DropSize | LeaveFull => th.op.Insert?
    case Match(_, step, n, mask) => step < |a.groups| && n <= N && MaskOk(a, GroupOf(a, th, step), mask)
    case Lock(_, step, mask) => step < |a.groups| && MaskOk(a, GroupOf(a, th, step), mask)
    case Check(_, step, mask) => step < |a.groups| && MaskOk(a, GroupOf(a, th, step), mask)
    case Overflow(_, step) => step < |a.groups|
    case Found(step, n) => HoldsKey(a, Slot(GroupOf(a, th, step), n), KeyOf(th.op))
    case Seek(_, step) => th.op.Insert? && a.elements != []
    case Scan(_, step) => th.op.Insert? && a.elements != []
    case Marked(_, step) => th.op.Insert? && a.elements != []
    case Bump(_, step, n) => th.op.Insert? && IsSlot(a, Slot(GroupOf(a, th, step), n))
    case Construct(step, n) => th.op.Insert? && IsSlot(a, Slot(GroupOf(a, th, step), n))
    case Rollback(step, n) => th.op.Insert? && IsSlot(a, Slot(GroupOf(a, th, step), n))
    case RolledBack(step) => th.op.Insert?
    case Unpaid(step, n) => th.op.Erase? && IsSlot(a, Slot(GroupOf(a, th, step), n))
    case Reset(step, n, _) => th.op.Erase? && IsSlot(a, Slot(GroupOf(a, th, step), n))
    case Shrink(step) => th.op.Erase?
    case Release(step, exclusive, _) => true
  }

  ghost predicate WellTyped(s: State) {
    && WellFormed(s.a)
    && |s.acc| == |s.a.groups|
    && forall t :: t in s.threads ==> Typed(s.a, s.threads[t])
  }

  /* ---------- locks ---------- */

  predicate FreeFor(acc: Access, exclusive: bool) {
    acc.writer.None? && (exclusive ==> acc.readers == {})
  }

  function Acquired(acc: Access, t: Tid, exclusive: bool): Access {
    if exclusive then acc.(writer := Some(t)) else acc.(readers := acc.readers + {t})
  }

  function Released(acc: Access, t: Tid): Access {
    acc.(writer := if acc.writer == Some(t) then None else acc.writer, readers := acc.readers - {t})
  }

  /* ---------- array updates ---------- */

  function WithGroup(a: Arrays, g: nat, group: Group): Arrays
    requires g < |a.groups|
  {
    a.(groups := a.groups[g := group])
  }

  function WithElement(a: Arrays, s: Slot, e: Option<Element>): Arrays
    requires 15 * s.g + s.n < |a.elements|
  {
    a.(elements := a.elements[15 * s.g + s.n := e])
  }

  /* ---------- steps ---------- */

  function Goto(s: State, t: Tid, pc: Pc): State
    requires t in s.threads
  {
    s.(threads := s.threads[t := s.threads[t].(pc := pc)])
  }

  function WithAccess(s: State, g: nat, acc: Access): State
    requires g < |s.acc|
  {
    s.(acc := s.acc[g := acc])
  }

  function WithArrays(s: State, a: Arrays): State {
    s.(a := a)
  }

  /** A thread calls a table operation. */
  ghost predicate Start(s: State, t: Tid, op: Op, s': State) {
    t !in s.threads && s' == s.(threads := s.threads[t := Thread(op, Enter)])
  }

  /** Lookup ended without finding the key. */
  function Missed(th: Thread, c: nat): Pc {
    if th.op.Insert? then Reserve(c) else Leave(0)
  }

  /** Lookup steps: unprotected_internal_visit. */
  ghost predicate LookupStep(s: State, t: Tid, s': State)
    requires WellTyped(s) && t in s.threads
  {
    var th := s.threads[t];
    match th.pc
    case Match(c, step, n, mask) =>
      if n < N then
        var hit := s.a.groups[GroupOf(s.a, th, step)].meta[n] == ReducedHash(HashOf(th));
        s' == Goto(s, t, Match(c, step, n + 1, if hit then mask + {n} else mask))
      else
        s' == Goto(s, t, if mask == {} then Overflow(c, step) else Lock(c, step, mask))
    case Lock(c, step, mask) =>
      var g := GroupOf(s.a, th, step);
      && FreeFor(s.acc[g], LookupExclusive(th.op))
      && s' == Goto(WithAccess(s, g, Acquired(s.acc[g], t, LookupExclusive(th.op))), t, Check(c, step, mask))
    case Check(c, step, mask) =>
      var g := GroupOf(s.a, th, step);
      var n := Lowest(mask);
      if mask == {} then
        s' == Goto(WithAccess(s, g, Released(s.acc[g], t)), t, Overflow(c, step))
      else if HoldsKey(s.a, Slot(g, n), KeyOf(th.op)) && s.a.groups[g].IsOccupied(n) then
        s' == Goto(s, t, Found(step, n))
      else
        s' == Goto(s, t, Check(c, step, mask - {n}))
    case Overflow(c, step) =>
      if s.a.groups[GroupOf(s.a, th, step)].IsNotOverflowed(HashOf(th)) || step + 1 >= |s.a.groups| then
        s' == Goto(s, t, Missed(th, c))
      else
        s' == Goto(s, t, Match(c, step + 1, 0, {}))
    case _ => false
  }

  /** The visitor runs, or an eraser's condition holds or not. */
  ghost predicate FoundStep(s: State, t: Tid, s': State)
    requires WellTyped(s) && t in s.threads && s.threads[t].pc.Found?
  {
    var th := s.threads[t];
    var slot := Slot(GroupOf(s.a, th, th.pc.step), th.pc.n);
    match th.op
    case Insert(_, write) =>
      s' == Goto(WithArrays(s, Visited(s.a, slot, write)), t, Release(th.pc.step, write.Some?, 0))
    case Visit(_, write) =>
      s' == Goto(WithArrays(s, Visited(s.a, slot, write)), t, Release(th.pc.step, write.Some?, 1))
    case Erase(_, condition) =>
      if condition(ElementAt(s.a, slot).value.value) then
        s' == Goto(WithArrays(s, WithElement(s.a, slot, None)), t, Unpaid(th.pc.step, th.pc.n))
      else
        s' == Goto(s, t, Release(th.pc.step, true, 0))
  }

  ghost function Visited(a: Arrays, slot: Slot, write: Option<int -> int>): Arrays
    requires WellFormed(a) && IsSlot(a, slot) && ElementAt(a, slot).Some?
  {
    match write
    case None => a
    case Some(f) =>
      var e := ElementAt(a, slot).value;
      WithElement(a, slot, Some(e.(value := f(e.value))))
  }

  /** Insertion steps: the rest of unprotected_norehash_emplace_and_visit. */
  ghost predicate InsertStep(s: State, t: Tid, s': State)
    requires WellTyped(s) && t in s.threads
  {
    var th := s.threads[t];
    match th.pc
    case Snapshot =>
      s' == Goto(s, t, Match(s.acc[Home(s.a, th)].count, 0, 0, {}))
    case Reserve(c) =>
      s' == Goto(s.(size := s.size + 1), t, Decide(c, s.size + 1))
    case Decide(c, ticket) =>
      s' == Goto(s, t, if ticket <= s.ml then Seek(c, 0) else Unreserve)
    case Unreserve =>
      s' == Goto(s.(size := s.size - 1), t, LeaveFull)
    case Seek(c, step) =>
      var g := GroupOf(s.a, th, step);
      && FreeFor(s.acc[g], true)
      && s' == Goto(WithAccess(s, g, Acquired(s.acc[g], t, true)), t, Scan(c, step))
    case Scan(c, step) =>
      var g := GroupOf(s.a, th, step);
      var n := Lowest(s.a.groups[g].MatchAvailable());
      if n < N then
        s' == Goto(WithArrays(s, WithGroup(s.a, g, s.a.groups[g].Set(n, HashOf(th)))), t, Bump(c, step, n))
      else
        s' == Goto(WithArrays(s, WithGroup(s.a, g, s.a.groups[g].MarkOverflow(HashOf(th)))), t, Marked(c, step))
    case Marked(c, step) =>
      var g := GroupOf(s.a, th, step);
      s' == Goto(WithAccess(s, g, Released(s.acc[g], t)), t, Seek(c, step + 1))
    case Bump(c, step, n) =>
      var home := Home(s.a, th);
      var acc := s.acc[home];
      s' == Goto(WithAccess(s, home, acc.(count := acc.count + 1)), t,
                 if acc.count == c then Construct(step, n) else Rollback(step, n))
    case Construct(step, n) =>
      s' == Goto(WithArrays(s, WithElement(s.a, Slot(GroupOf(s.a, th, step), n), Some(th.op.e))), t, Release(step, true, 1))
    case Rollback(step, n) =>
      var g := GroupOf(s.a, th, step);
      s' == Goto(WithArrays(s, WithGroup(s.a, g, s.a.groups[g].Reset(n))), t, RolledBack(step))
    case RolledBack(step) =>
      var g := GroupOf(s.a, th, step);
      s' == Goto(WithAccess(s, g, Released(s.acc[g], t)), t, DropSize)
    case DropSize =>
      s' == Goto(s.(size := s.size - 1), t, Snapshot)
    case _ => false
  }

  /** Erasure steps: recover_slot, after the element has been destroyed. */
  ghost predicate EraseStep(s: State, t: Tid, s': State)
    requires WellTyped(s) && t in s.threads
  {
    var th := s.threads[t];
    match th.pc
    case Unpaid(step, n) =>
      var paid := s.a.groups[GroupOf(s.a, th, step)].MaybeCausedOverflow(n);
      s' == Goto(s.(ml := if paid then s.ml - 1 else s.ml), t, Reset(step, n, paid))
    case Reset(step, n, _) =>
      var g := GroupOf(s.a, th, step);
      s' == Goto(WithArrays(s, WithGroup(s.a, g, s.a.groups[g].Reset(n))), t, Shrink(step))
    case Shrink(step) =>
      s' == Goto(s.(size := s.size - 1), t, Release(step, true, 1))
    case _ => false
  }

  /** Container-level steps: entering, leaving, and rehash_if_full under exclusive access. */
  ghost predicate ContainerStep(s: State, t: Tid, s': State)
    requires WellTyped(s) && t in s.threads
  {
    var th := s.threads[t];
    match th.pc
    case Enter =>
      && s.owner.None?
      && s' == Goto(s.(sharers := s.sharers + {t}), t, if th.op.Insert? then Snapshot else Match(0, 0, 0, {}))
    case Release(step, exclusive, res) =>
      var g := GroupOf(s.a, th, step);
      s' == Goto(WithAccess(s, g, Released(s.acc[g], t)), t, Leave(res))
    case Leave(res) =>
      s' == s.(sharers := s.sharers - {t}, threads := s.threads - {t})
    case LeaveFull =>
      s' == Goto(s.(sharers := s.sharers - {t}), t, WantAll)
    case WantAll =>
      s.owner.None? && s.sharers == {} && s' == Goto(s.(owner := Some(t)), t, HoldAll)
    case HoldAll =>
      if s.size == s.ml then s.size >= 0 && CanGrow(s.size) && s' == Goto(Rehashed(s), t, DoneAll)
      else s' == Goto(s, t, DoneAll)
    case DoneAll =>
      s' == Goto(s.(owner := None), t, Enter)
    case _ => false
  }

  function GrownArrays(size: nat): (b: Arrays)
    requires CanGrow(size)
    ensures Shaped(b)
  {
    GrowthPositive(size);
    NewShaped(GrowthRequest(size));
    NewArrays(GrowthRequest(size))
  }

  lemma GrowthPositive(size: nat)
    ensures GrowthRequest(size) > 0
  {
  }

  lemma NewShaped(n: nat)
    requires 0 < n && n / N + 1 <= Pow2(BITS - 1)
    ensures Shaped(NewArrays(n))
  {
    NewValid(n);
  }

  /** unchecked_rehash_for_growth: elements move to larger arrays, group accesses start afresh. */
  function Rehashed(s: State): State
    requires s.size >= 0 && CanGrow(s.size)
  {
    var b := Transfer(s.a.elements, GrownArrays(s.size));
    s.(a := b, acc := seq(|b.groups|, g => Access(None, {}, 0)), ml := InitialMaxLoad(Capacity(b)))
  }

  ghost predicate Step(s: State, t: Tid, s': State)
    requires WellTyped(s)
  {
    && t in s.threads
    && (|| LookupStep(s, t, s')
        || (s.threads[t].pc.Found? && FoundStep(s, t, s'))
        || InsertStep(s, t, s')
        || EraseStep(s, t, s')
        || ContainerStep(s, t, s'))
  }

  /** An operation under exclusive container access other than rehash_if_full: clear, rehash, reserve, merge or swap.
      Whatever it does, it leaves a consistent table and no group locked. Nobody else touches the table between its
      acquiring access and its giving it up, so that this is one step. */
  ghost predicate ExclusiveStep(s: State, s': State) {
    && s.owner.None? && s.sharers == {}
    && s'.size >= 0 && s'.ml >= 0 && Consistent(s'.a, s'.size, s'.ml)
    && |s'.acc| == |s'.a.groups| && (forall g :: 0 <= g < |s'.acc| ==> FreeFor(s'.acc[g], true))
    && s' == s.(a := s'.a, acc := s'.acc, size := s'.size, ml := s'.ml)
  }

  /** Thread t calls an operation or takes a step. */
  ghost predicate Moves(s: State, t: Tid, s': State)
    requires WellTyped(s)
  {
    || Step(s, t, s')
    || (exists op :: Start(s, t, op, s'))
    || (t !in s.threads && ExclusiveStep(s, s'))
  }

  /** Steps are defined from well-typed states; no reachable state is anything else. */
  ghost predicate Next(s: State, s': State) {
    WellTyped(s) && exists t :: Moves(s, t, s')
  }

  /** A newly constructed table for n elements, no thread using it. */
  ghost predicate Init(s: State) {
    && (exists n: nat :: n / N + 1 <= Pow2(BITS - 1) && s.a == NewArrays(n))
    && s.acc == seq(|s.a.groups|, g => Access(None, {}, 0))
    && s.size == 0 && s.ml == InitialMaxLoad(Capacity(s.a))
    && s.owner == None && s.sharers == {} && s.threads == map[]
  }
}
