/** A call that nobody disturbs returns, within a number of steps that depends on the size of the table alone, and with
    the result that the contents of the table call for. */
module ConcurrentProgress {
  import opened SizePolicy
  import opened Pow2Arith
  import opened Groups
  import opened Arrays
  import opened Wrappers
  import opened ArrayLaws
  import opened ConcurrentTable
  import opened ConcurrentInvariant
  import opened ConcurrentEffects
  import opened ConcurrentKept
  import opened ConcurrentSteps
  import opened ConcurrentInsert
  import opened ConcurrentErase
  import opened ConcurrentContainer
  import opened ConcurrentTheorems
  import opened ConcurrentRefinement
  import opened ConcurrentVisit
  import opened ConcurrentCalls

  /** Nobody but t is inside the container or holds exclusive access to it; others may wait outside. */
  ghost predicate Solo(s: State, t: Tid) {
    && (forall u :: u in s.threads && u != t ==> !Inside(s.threads[u].pc))
    && (s.owner == None || s.owner == Some(t))
  }

  /* ---------- steps still to be taken ---------- */

  /** Number of groups after growing a table of n elements. */
  function GrownGroups(n: nat): nat
    requires CanGrow(n)
  {
    Size(SizeIndexFor(GrowthRequest(n)))
  }

  /** Steps of one attempt in a table of g groups. */
  function Attempt(g: nat): nat {
    37 * g + 20
  }

  /** Steps that a table at its maximum load costs on top: rehashing, and a second attempt. */
  function Extra(n: nat, ml: int): nat
    requires CanGrow(n)
  {
    if n == ml then Attempt(GrownGroups(n)) + 20 else 0
  }

  function Look(g: nat, step: nat): nat {
    3 * g + 12 + if step < g then 34 * (g - step - 1) else 0
  }

  function GroupsLeft(g: nat, step: nat): nat {
    if step < g then 3 * (g - step) else 0
  }

  /** A bound on the steps left for a thread at a program point, alone in a table of g groups. */
  function Left(pc: Pc, g: nat, n: nat, ml: int): nat
    requires CanGrow(n)
  {
    match pc
    case Enter => 37 * g + 16 + Extra(n, ml)
    case Snapshot => 37 * g + 15 + Extra(n, ml)
    case Match(_, step, k, _) => Look(g, step) + (if k < 34 then 34 - k else 0) + Extra(n, ml)
    case Lock(_, step, _) => Look(g, step) + 18 + Extra(n, ml)
    case Check(_, step, mask) => Look(g, step) + 2 + |mask| + Extra(n, ml)
    case Overflow(_, step) => Look(g, step) + 1 + Extra(n, ml)
    case Found(_, _) => 6
    case Reserve(_) => 3 * g + 8 + Extra(n, ml)
    case Decide(_, _) => 3 * g + 7 + Extra(n, ml)
    case Unreserve => Attempt(GrownGroups(n)) + 10
    case LeaveFull => Attempt(GrownGroups(n)) + 9
    case WantAll => Attempt(GrownGroups(n)) + 8
    case HoldAll => Attempt(GrownGroups(n)) + 7
    case DoneAll => 37 * g + 17
    case Seek(_, step) => GroupsLeft(g, step) + 6
    case Scan(_, step) => GroupsLeft(g, step) + 5
    case Marked(_, step) => GroupsLeft(g, step) + 4
    case Bump(_, _, _) => 4
    case Construct(_, _) => 3
    case Unpaid(_, _) => 5
    case Reset(_, _, _) => 4
    case Shrink(_) => 3
    case Release(_, _, _) => 2
    case Leave(_) => 1
    case _ => 0
  }

  /* ---------- what holds along the way ---------- */

  /** The table held n elements when the call started; what the program point says about the accounts. */
  predicate Accounts(pc: Pc, n: nat, size: int, ml: int) {
    match pc
    case Enter => size == n <= ml
    case Snapshot => size == n <= ml
    case Match(_, _, _, _) => size == n <= ml
    case Lock(_, _, _) => size == n <= ml
    case Check(_, _, _) => size == n <= ml
    case Overflow(_, _) => size == n <= ml
    case Reserve(_) => size == n <= ml
    case Decide(_, ticket) => ticket == size == n + 1 && n <= ml
    case Unreserve => size == n + 1 && n == ml
    case LeaveFull => size == n == ml
    case WantAll => size == n == ml
    case HoldAll => size == n == ml
    case DoneAll => size == n < ml
    case Rollback(_, _) => false
    case RolledBack(_) => false
    case DropSize => false
    case _ => true
  }

  /** An inserter has a free slot ahead. */
  ghost predicate RoomAheadOf(a: Arrays, th: Thread)
    requires WellFormed(a)
  {
    match th.pc
    case Seek(_, step) => RoomFrom(a, HashOf(th), step)
    case Scan(_, step) => RoomFrom(a, HashOf(th), step)
    case Marked(_, step) => RoomFrom(a, HashOf(th), step + 1)
    case _ => true
  }

  /** Thread t, alone, is on its way to its return. */
  ghost predicate OnTrack(s: State, t: Tid, n: nat)
    requires WellTyped(s)
  {
    && Solo(s, t) && t in s.threads && Accounts(s.threads[t].pc, n, s.size, s.ml)
    && (s.threads[t].op.Insert? && CounterOf(s.threads[t].pc).Some? ==> Undisturbed(s, t))
    && RoomAheadOf(s.a, s.threads[t])
  }

  ghost function Rank(s: State, t: Tid, n: nat): nat
    requires t in s.threads && CanGrow(n)
  {
    Left(s.threads[t].pc, |s.a.groups|, n, s.ml)
  }

  /** One step further: the thread has returned, or is on track with fewer steps left. */
  ghost predicate Nearer(s: State, t: Tid, s': State, n: nat)
    requires t in s.threads && CanGrow(n)
  {
    t in s'.threads ==> WellTyped(s') && OnTrack(s', t, n) && Rank(s', t, n) < Rank(s, t, n)
  }

  lemma {:induction false} FewBelow(mask: set<nat>, k: nat)
    requires forall n :: n in mask ==> n < k
    ensures |mask| <= k
  {
    if k > 0 {
      FewBelow(mask - {k - 1}, k - 1);
    } else {
      assert mask == {};
    }
  }

  lemma MaskSmall(a: Arrays, g: nat, mask: set<nat>)
    requires MaskOk(a, g, mask)
    ensures |mask| <= 15 && (mask != {} ==> Lowest(mask) in mask)
  {
    forall n | n in mask ensures n < 15 { assert IsSlot(a, Slot(g, n)); }
    FewBelow(mask, 15);
    if mask != {} {
      var n :| n in mask;
      assert n < N;
    }
  }

  /* ---------- every step gets nearer ---------- */

  /** Only the moving thread changes, and it may take or give up the container. */
  ghost predicate Frame(s: State, t: Tid, s': State) {
    && (forall u :: u != t && u in s'.threads ==> u in s.threads && s'.threads[u] == s.threads[u])
    && (s'.owner == s.owner || s'.owner == None || s'.owner == Some(t))
  }

  lemma SoloKept(s: State, t: Tid, s': State)
    requires Solo(s, t) && Frame(s, t, s')
    ensures Solo(s', t)
  {
  }

  lemma MatchNearer(s: State, t: Tid, s': State, n: nat)
    requires WellTyped(s) && WellTyped(s') && OnTrack(s, t, n) && CanGrow(n) && s.threads[t].pc.Match? && LookupStep(s, t, s')
    ensures Frame(s, t, s') && Nearer(s, t, s', n)
  {
    assert Typed(s.a, s.threads[t]);
    hide Probe, ReducedHash, WellFormed, Attempt, GrownGroups, CanGrow, RoomFrom;
  }

  lemma LockNearer(s: State, t: Tid, s': State, n: nat)
    requires WellTyped(s) && WellTyped(s') && OnTrack(s, t, n) && CanGrow(n) && s.threads[t].pc.Lock? && LookupStep(s, t, s')
    ensures Frame(s, t, s') && Nearer(s, t, s', n)
  {
    assert Typed(s.a, s.threads[t]);
    MaskSmall(s.a, GroupOf(s.a, s.threads[t], s.threads[t].pc.step), s.threads[t].pc.mask);
    hide Probe, ReducedHash, WellFormed, Attempt, GrownGroups, CanGrow, RoomFrom, MaskOk;
  }

  /** A step that gets nearer changes the program point, and neither the dimensions of the table nor the accounts. */
  lemma PlainMove(s: State, t: Tid, s': State, pc: Pc, n: nat)
    requires WellTyped(s) && WellTyped(s') && OnTrack(s, t, n) && CanGrow(n) && t in s.threads
    requires s'.threads == s.threads[t := s.threads[t].(pc := pc)] && s'.ml == s.ml && s'.size == s.size
    requires s'.a.index == s.a.index && |s'.a.groups| == |s.a.groups| && RoomAheadOf(s'.a, s.threads[t].(pc := pc))
    requires SameCounters(s, s') && (s'.owner == s.owner || s'.owner == None || s'.owner == Some(t))
    requires Accounts(pc, n, s.size, s.ml)
    requires CounterOf(pc).None? || CounterOf(pc) == CounterOf(s.threads[t].pc) || !s.threads[t].op.Insert?
    requires Left(pc, |s.a.groups|, n, s.ml) < Left(s.threads[t].pc, |s.a.groups|, n, s.ml)
    ensures Frame(s, t, s') && Nearer(s, t, s', n)
  {
    assert Home(s.a, s.threads[t]) < |s.acc| == |s'.acc|;
    hide Probe, WellFormed, Typed, Left, Accounts, CanGrow, RoomAheadOf;
  }

  lemma NoRoomNeeded(a: Arrays, th: Thread)
    requires WellFormed(a) && !th.pc.Seek? && !th.pc.Scan? && !th.pc.Marked?
    ensures RoomAheadOf(a, th)
  {
  }

  lemma CheckNearer(s: State, t: Tid, s': State, n: nat)
    requires WellTyped(s) && WellTyped(s') && OnTrack(s, t, n) && CanGrow(n) && s.threads[t].pc.Check? && LookupStep(s, t, s')
    ensures Frame(s, t, s') && Nearer(s, t, s', n)
  {
    var pc := CheckGives(s, t, s');
    CheckLeft(s, t, pc, n);
    NoRoomNeeded(s.a, s.threads[t].(pc := pc));
    hide *;
    PlainMove(s, t, s', pc, n);
  }

  lemma CheckGives(s: State, t: Tid, s': State) returns (pc: Pc)
    requires WellTyped(s) && t in s.threads && s.threads[t].pc.Check? && LookupStep(s, t, s')
    ensures s'.threads == s.threads[t := s.threads[t].(pc := pc)] && s'.a == s.a && s'.ml == s.ml && s'.size == s.size
    ensures SameCounters(s, s') && s'.owner == s.owner
    ensures var was := s.threads[t].pc;
      pc == Found(was.step, Lowest(was.mask)) || (was.mask == {} && pc == Overflow(was.c, was.step))
      || (was.mask != {} && pc == Check(was.c, was.step, was.mask - {Lowest(was.mask)}))
  {
    assert Typed(s.a, s.threads[t]);
    hide Probe, ReducedHash, WellFormed, MaskOk, HoldsKey, IsSlot, Lowest;
    pc := s'.threads[t].pc;
  }

  lemma CheckLeft(s: State, t: Tid, pc: Pc, n: nat)
    requires WellTyped(s) && OnTrack(s, t, n) && CanGrow(n) && t in s.threads && s.threads[t].pc.Check?
    requires var was := s.threads[t].pc;
      pc == Found(was.step, Lowest(was.mask)) || (was.mask == {} && pc == Overflow(was.c, was.step))
      || (was.mask != {} && pc == Check(was.c, was.step, was.mask - {Lowest(was.mask)}))
    ensures Accounts(pc, n, s.size, s.ml) && (CounterOf(pc).None? || CounterOf(pc) == CounterOf(s.threads[t].pc))
    ensures Left(pc, |s.a.groups|, n, s.ml) < Left(s.threads[t].pc, |s.a.groups|, n, s.ml)
  {
    assert Typed(s.a, s.threads[t]);
    MaskSmall(s.a, GroupOf(s.a, s.threads[t], s.threads[t].pc.step), s.threads[t].pc.mask);
    hide Probe, WellTyped, MaskOk, Lowest, Undisturbed, RoomFrom, CanGrow, Extra;
  }

  lemma OverflowNearer(s: State, t: Tid, s': State, n: nat)
    requires WellTyped(s) && WellTyped(s') && OnTrack(s, t, n) && CanGrow(n) && s.threads[t].pc.Overflow? && LookupStep(s, t, s')
    ensures Frame(s, t, s') && Nearer(s, t, s', n)
  {
    assert Typed(s.a, s.threads[t]);
    hide Probe, ReducedHash, WellFormed, Attempt, GrownGroups, CanGrow, RoomFrom;
  }

  lemma FoundNearer(s: State, t: Tid, s': State, n: nat)
    requires WellTyped(s) && WellTyped(s') && OnTrack(s, t, n) && CanGrow(n) && s.threads[t].pc.Found? && FoundStep(s, t, s')
    ensures Frame(s, t, s') && Nearer(s, t, s', n)
  {
    assert Typed(s.a, s.threads[t]);
    hide Probe, ReducedHash, WellFormed, Attempt, GrownGroups, CanGrow, RoomFrom;
  }

  lemma EraseNearer(s: State, t: Tid, s': State, n: nat)
    requires WellTyped(s) && WellTyped(s') && OnTrack(s, t, n) && CanGrow(n) && EraseStep(s, t, s')
    ensures Frame(s, t, s') && Nearer(s, t, s', n)
  {
    assert Typed(s.a, s.threads[t]);
    hide Probe, ReducedHash, WellFormed, Attempt, GrownGroups, CanGrow, RoomFrom;
  }

  /** Up to the reservation. */
  lemma ReserveNearer(s: State, t: Tid, s': State, n: nat)
    requires WellTyped(s) && WellTyped(s') && OnTrack(s, t, n) && CanGrow(n) && InsertStep(s, t, s')
    requires s.threads[t].pc.Snapshot? || s.threads[t].pc.Reserve? || s.threads[t].pc.Unreserve?
    ensures Frame(s, t, s') && Nearer(s, t, s', n)
  {
    assert Typed(s.a, s.threads[t]);
    hide Probe, ReducedHash, WellFormed, Attempt, GrownGroups, CanGrow, RoomFrom;
  }

  /** The reservation succeeds unless the table was at its maximum load when the call started. */
  lemma DecideNearer(s: State, t: Tid, s': State, n: nat)
    requires Inv(s') && WellTyped(s) && WellTyped(s') && OnTrack(s, t, n) && CanGrow(n) && InsertStep(s, t, s') && s.threads[t].pc.Decide?
    ensures Frame(s, t, s') && Nearer(s, t, s', n)
  {
    DecideGives(s, t, s');
    hide *;
    if s.threads[t].pc.ticket <= s.ml {
      AdmittedRoom(s', t);
    }
    DecideArrives(s, t, s', n);
  }

  lemma DecideArrives(s: State, t: Tid, s': State, n: nat)
    requires WellTyped(s) && WellTyped(s') && OnTrack(s, t, n) && CanGrow(n) && t in s.threads && s.threads[t].pc.Decide?
    requires s' == Goto(s, t, if s.threads[t].pc.ticket <= s.ml then Seek(s.threads[t].pc.c, 0) else Unreserve)
    requires s.threads[t].pc.ticket <= s.ml ==> RoomFrom(s'.a, HashOf(s'.threads[t]), 0)
    ensures Frame(s, t, s') && Nearer(s, t, s', n)
  {
    assert |s.a.groups| > 0 by { RoomLeft(s.a, HashOf(s.threads[t])); hide WellTyped; SomeGroup(s); }
    hide Probe, ReducedHash, WellFormed, Typed, Attempt, GrownGroups, CanGrow, RoomFrom;
  }

  lemma SomeGroup(s: State)
    requires WellTyped(s)
    ensures |s.a.groups| > 0
  {
    hide Typed;
  }

  lemma SeekNearer(s: State, t: Tid, s': State, n: nat)
    requires WellTyped(s) && WellTyped(s') && OnTrack(s, t, n) && CanGrow(n) && InsertStep(s, t, s')
    requires s.threads[t].pc.Seek? || s.threads[t].pc.Marked?
    ensures Frame(s, t, s') && Nearer(s, t, s', n)
  {
    assert Typed(s.a, s.threads[t]);
    RoomLeft(s.a, HashOf(s.threads[t]));
    hide Probe, ReducedHash, WellFormed, Attempt, GrownGroups, CanGrow, RoomFrom;
  }

  lemma RoomLeft(a: Arrays, hash: Hash)
    requires WellFormed(a)
    ensures forall step: nat :: RoomFrom(a, hash, step) ==> step < |a.groups|
  {
    hide Probe;
  }

  lemma ScanNearer(s: State, t: Tid, s': State, n: nat)
    requires WellTyped(s) && WellTyped(s') && FlagsOk(s) && OnTrack(s, t, n) && CanGrow(n) && InsertStep(s, t, s') && s.threads[t].pc.Scan?
    ensures Frame(s, t, s') && Nearer(s, t, s', n)
  {
    assert RoomFrom(s.a, HashOf(s.threads[t]), s.threads[t].pc.step) by { hide WellTyped, RoomFrom, CanGrow; }
    var pc := ScanGives(s, t, s');
    assert SameCounters(s, s');
    ScanLeft(s, t, s', pc, n);
    hide *;
    PlainMove(s, t, s', pc, n);
  }

  /** The slot is taken, or the full group flagged, and there is room further on. */
  lemma ScanGives(s: State, t: Tid, s': State) returns (pc: Pc)
    requires WellTyped(s) && FlagsOk(s) && t in s.threads && InsertStep(s, t, s') && s.threads[t].pc.Scan?
    requires RoomFrom(s.a, HashOf(s.threads[t]), s.threads[t].pc.step)
    ensures s'.threads == s.threads[t := s.threads[t].(pc := pc)] && s'.ml == s.ml && s'.size == s.size && s'.acc == s.acc && s'.owner == s.owner
    ensures s'.a.index == s.a.index && |s'.a.groups| == |s.a.groups|
    ensures s.threads[t].pc.step < |s.a.groups| && pc == s'.threads[t].pc
    ensures (exists k: nat :: pc == Bump(s.threads[t].pc.c, s.threads[t].pc.step, k))
      || (pc == Marked(s.threads[t].pc.c, s.threads[t].pc.step) && WellFormed(s'.a) && RoomFrom(s'.a, HashOf(s.threads[t]), s.threads[t].pc.step + 1))
  {
    assert Typed(s.a, s.threads[t]);
    var th := s.threads[t];
    RoomLeft(s.a, HashOf(th));
    forall i | 0 <= i < th.pc.step && i < |s.a.groups| ensures Flagged(s.a, HashOf(th), i) {}
    if Lowest(s.a.groups[GroupOf(s.a, th, th.pc.step)].MatchAvailable()) == N {
      var c := MarkAdvances(s.a, HashOf(th), th.pc.step);
      assert s'.a == c;
    }
    pc := s'.threads[t].pc;
    hide Probe, ReducedHash, WellFormed, RoomFrom, Flagged, MarksKept, FlagsOk;
  }

  lemma ScanLeft(s: State, t: Tid, s': State, pc: Pc, n: nat)
    requires WellTyped(s) && WellTyped(s') && OnTrack(s, t, n) && CanGrow(n) && t in s.threads && s.threads[t].pc.Scan?
    requires s.threads[t].pc.step < |s.a.groups|
    requires (exists k: nat :: pc == Bump(s.threads[t].pc.c, s.threads[t].pc.step, k))
      || (pc == Marked(s.threads[t].pc.c, s.threads[t].pc.step) && RoomFrom(s'.a, HashOf(s.threads[t]), s.threads[t].pc.step + 1))
    ensures Accounts(pc, n, s.size, s.ml) && CounterOf(pc) == CounterOf(s.threads[t].pc) && RoomAheadOf(s'.a, s.threads[t].(pc := pc))
    ensures Left(pc, |s.a.groups|, n, s.ml) < Left(s.threads[t].pc, |s.a.groups|, n, s.ml)
  {
    hide WellTyped, Undisturbed, RoomFrom, CanGrow;
  }

  /** Nobody else has bumped the counter, so the insertion goes through. */
  lemma BumpNearer(s: State, t: Tid, s': State, n: nat)
    requires WellTyped(s) && WellTyped(s') && OnTrack(s, t, n) && CanGrow(n) && InsertStep(s, t, s')
    requires s.threads[t].pc.Bump? || s.threads[t].pc.Construct?
    ensures Frame(s, t, s') && Nearer(s, t, s', n)
  {
    assert Typed(s.a, s.threads[t]);
    hide Probe, ReducedHash, WellFormed, Attempt, GrownGroups, CanGrow, RoomFrom;
  }

  lemma ContainerNearer(s: State, t: Tid, s': State, n: nat)
    requires WellTyped(s) && WellTyped(s') && OnTrack(s, t, n) && CanGrow(n) && ContainerStep(s, t, s') && !s.threads[t].pc.HoldAll?
    ensures Frame(s, t, s') && Nearer(s, t, s', n)
  {
    ContainerGives(s, t, s');
    if t in s'.threads {
      ContainerLeft(s, t, s'.threads[t].pc, n);
      NoRoomNeeded(s.a, s'.threads[t]);
      hide *;
      PlainMove(s, t, s', s'.threads[t].pc, n);
    } else {
      hide WellTyped, OnTrack, CanGrow;
    }
  }

  /** Where a container-level step other than rehash_if_full leads. */
  predicate ContainerTo(th: Thread, pc: Pc) {
    match th.pc
    case Enter => pc == if th.op.Insert? then Snapshot else Match(0, 0, 0, {})
    case Release(_, _, res) => pc == Leave(res)
    case LeaveFull => pc == WantAll
    case WantAll => pc == HoldAll
    case DoneAll => pc == Enter
    case _ => false
  }

  lemma ContainerGives(s: State, t: Tid, s': State)
    requires WellTyped(s) && t in s.threads && ContainerStep(s, t, s') && !s.threads[t].pc.HoldAll?
    ensures s'.a == s.a && s'.ml == s.ml && s'.size == s.size && SameCounters(s, s')
    ensures s'.owner == s.owner || s'.owner == None || s'.owner == Some(t)
    ensures t in s'.threads ==> s'.threads == s.threads[t := s.threads[t].(pc := s'.threads[t].pc)] && ContainerTo(s.threads[t], s'.threads[t].pc)
    ensures t !in s'.threads ==> s'.threads == s.threads - {t}
  {
    assert Typed(s.a, s.threads[t]);
    hide Probe, ReducedHash, WellFormed, Typed, Rehashed, CanGrow;
  }

  lemma ContainerLeft(s: State, t: Tid, pc: Pc, n: nat)
    requires WellTyped(s) && OnTrack(s, t, n) && CanGrow(n) && t in s.threads && ContainerTo(s.threads[t], pc)
    requires s.threads[t].op.Insert? || !pc.Snapshot?
    ensures Accounts(pc, n, s.size, s.ml) && !pc.Seek? && !pc.Scan? && !pc.Marked?
    ensures CounterOf(pc).None? || CounterOf(pc) == CounterOf(s.threads[t].pc) || !s.threads[t].op.Insert?
    ensures Left(pc, |s.a.groups|, n, s.ml) < Left(s.threads[t].pc, |s.a.groups|, n, s.ml)
  {
    SomeGroup(s);
    hide WellTyped, Undisturbed, RoomFrom, CanGrow, GrownGroups;
  }

  /** Rehashing makes room for the second attempt. */
  lemma RehashNearer(s: State, t: Tid, s': State, n: nat)
    requires Inv(s) && WellTyped(s) && WellTyped(s') && OnTrack(s, t, n) && CanGrow(n) && ContainerStep(s, t, s') && s.threads[t].pc.HoldAll?
    ensures Frame(s, t, s') && Nearer(s, t, s', n)
  {
    hide *;
    InvAll(s);
    HoldsAll(s, t, n);
    RehashState(s, t, s');
    RehashOutside(s, t, s');
    RehashRoom(s, t, s');
    RehashGroups(s);
    AfterRehash(s, t, s', n);
  }

  lemma HoldsAll(s: State, t: Tid, n: nat)
    requires WellTyped(s) && OnTrack(s, t, n) && s.threads[t].pc.HoldAll?
    ensures t in s.threads && s.size == n == s.ml && Solo(s, t)
  {
    hide WellTyped;
  }

  lemma RehashGroups(s: State)
    requires s.size >= 0 && CanGrow(s.size)
    ensures |Rehashed(s).a.groups| == GrownGroups(s.size)
  {
    hide Transfer;
  }

  lemma AfterRehash(s: State, t: Tid, s': State, n: nat)
    requires WellTyped(s) && WellTyped(s') && t in s.threads && s.threads[t].pc.HoldAll? && Solo(s, t) && CanGrow(n)
    requires s.size == n == s.ml && |s'.a.groups| == GrownGroups(n) && s'.size == n < s'.ml
    requires s'.threads == s.threads[t := s.threads[t].(pc := DoneAll)] && s'.owner == s.owner
    ensures Frame(s, t, s') && Nearer(s, t, s', n)
  {
    hide WellTyped, GrownGroups, CanGrow;
  }

  lemma InsertNearer(s: State, t: Tid, s': State, n: nat)
    requires Inv(s) && Inv(s') && WellTyped(s) && WellTyped(s') && OnTrack(s, t, n) && CanGrow(n) && InsertStep(s, t, s')
    ensures Frame(s, t, s') && Nearer(s, t, s', n)
  {
    InvAll(s);
    NotRolledBack(s, t, n);
    hide Inv, WellTyped, OnTrack, Frame, Nearer, CanGrow, FlagsOk;
    match s.threads[t].pc
    case Snapshot => ReserveNearer(s, t, s', n);
    case Reserve(_) => ReserveNearer(s, t, s', n);
    case Unreserve => ReserveNearer(s, t, s', n);
    case Decide(_, _) => DecideNearer(s, t, s', n);
    case Seek(_, _) => SeekNearer(s, t, s', n);
    case Marked(_, _) => SeekNearer(s, t, s', n);
    case Scan(_, _) => ScanNearer(s, t, s', n);
    case Bump(_, _, _) => BumpNearer(s, t, s', n);
    case Construct(_, _) => BumpNearer(s, t, s', n);
  }

  lemma NotRolledBack(s: State, t: Tid, n: nat)
    requires WellTyped(s) && OnTrack(s, t, n)
    ensures t in s.threads && !s.threads[t].pc.Rollback? && !s.threads[t].pc.RolledBack? && !s.threads[t].pc.DropSize?
  {
    hide WellTyped;
  }

  lemma LookupNearer(s: State, t: Tid, s': State, n: nat)
    requires WellTyped(s) && WellTyped(s') && OnTrack(s, t, n) && CanGrow(n) && t in s.threads && LookupStep(s, t, s')
    ensures Frame(s, t, s') && Nearer(s, t, s', n)
  {
    hide WellTyped, OnTrack, Frame, Nearer, CanGrow;
    match s.threads[t].pc
    case Match(_, _, _, _) => MatchNearer(s, t, s', n);
    case Lock(_, _, _) => LockNearer(s, t, s', n);
    case Check(_, _, _) => CheckNearer(s, t, s', n);
    case Overflow(_, _) => OverflowNearer(s, t, s', n);
  }

  /** Whatever step the thread takes, it gets nearer to its return. */
  lemma SoloStep(s: State, t: Tid, s': State, n: nat)
    requires Inv(s) && WellTyped(s) && OnTrack(s, t, n) && CanGrow(n) && Moves(s, t, s')
    ensures Inv(s') && Solo(s', t) && Nearer(s, t, s', n)
  {
    assert Step(s, t, s') && Solo(s, t) by { hide WellTyped, Step, ExclusiveStep; }
    StepInv(s, t, s');
    InvAll(s');
    hide Inv, WellTyped, OnTrack, Frame, Nearer, CanGrow, LookupStep, FoundStep, InsertStep, EraseStep, ContainerStep, Moves, Solo;
    if LookupStep(s, t, s') {
      LookupNearer(s, t, s', n);
    } else if s.threads[t].pc.Found? && FoundStep(s, t, s') {
      FoundNearer(s, t, s', n);
    } else if InsertStep(s, t, s') {
      InsertNearer(s, t, s', n);
    } else if EraseStep(s, t, s') {
      EraseNearer(s, t, s', n);
    } else if s.threads[t].pc.HoldAll? {
      RehashNearer(s, t, s', n);
    } else {
      ContainerNearer(s, t, s', n);
    }
    SoloKept(s, t, s');
  }

  /* ---------- there is always a next step ---------- */

  /** A thread that has no group locked, alone in the container, finds every group free. */
  lemma GroupsFree(s: State, t: Tid, g: nat, exclusive: bool)
    requires WellTyped(s) && GroupLocksOk(s) && Solo(s, t) && t in s.threads && HeldStep(s.threads[t].pc).None? && g < |s.acc|
    ensures FreeFor(s.acc[g], exclusive)
  {
    hide WellTyped;
    forall u, x ensures !Holds(s, u, g, x) {
      if u in s.threads && u != t { OutsideHoldsNothing(s.threads[u].pc); }
    }
    hide Holds;
    forall u: Tid ensures s.acc[g].writer != Some(u) && u !in s.acc[g].readers {
      assert !Holds(s, u, g, true) && !Holds(s, u, g, false);
    }
  }

  lemma OutsideHoldsNothing(pc: Pc)
    requires !Inside(pc)
    ensures HeldStep(pc).None?
  {
  }

  lemma LookupGoes(s: State, t: Tid) returns (s': State)
    requires WellTyped(s) && GroupLocksOk(s) && Solo(s, t) && t in s.threads
    requires s.threads[t].pc.Match? || s.threads[t].pc.Lock? || s.threads[t].pc.Check? || s.threads[t].pc.Overflow?
    ensures LookupStep(s, t, s')
  {
    var th := s.threads[t];
    assert Typed(s.a, th);
    var g := GroupOf(s.a, th, th.pc.step);
    if th.pc.Lock? { GroupsFree(s, t, g, LookupExclusive(th.op)); }
    hide GroupLocksOk, Solo, ReducedHash;
    s' := match th.pc
      case Match(c, step, k, mask) =>
        if k < N then Goto(s, t, Match(c, step, k + 1, if s.a.groups[g].meta[k] == ReducedHash(HashOf(th)) then mask + {k} else mask))
        else Goto(s, t, if mask == {} then Overflow(c, step) else Lock(c, step, mask))
      case Lock(c, step, mask) =>
        Goto(WithAccess(s, g, Acquired(s.acc[g], t, LookupExclusive(th.op))), t, Check(c, step, mask))
      case Check(c, step, mask) =>
        if mask == {} then Goto(WithAccess(s, g, Released(s.acc[g], t)), t, Overflow(c, step))
        else if HoldsKey(s.a, Slot(g, Lowest(mask)), KeyOf(th.op)) && s.a.groups[g].IsOccupied(Lowest(mask)) then
          Goto(s, t, Found(step, Lowest(mask)))
        else Goto(s, t, Check(c, step, mask - {Lowest(mask)}))
      case Overflow(c, step) =>
        if s.a.groups[g].IsNotOverflowed(HashOf(th)) || step + 1 >= |s.a.groups| then Goto(s, t, Missed(th, c))
        else Goto(s, t, Match(c, step + 1, 0, {}));
  }

  lemma FoundGoes(s: State, t: Tid) returns (s': State)
    requires WellTyped(s) && t in s.threads && s.threads[t].pc.Found?
    ensures FoundStep(s, t, s')
  {
    var th := s.threads[t];
    assert Typed(s.a, th);
    var slot := FoundSlot(s.a, th);
    s' := match th.op
      case Insert(_, write) => Goto(WithArrays(s, Visited(s.a, slot, write)), t, Release(th.pc.step, write.Some?, 0))
      case Visit(_, write) => Goto(WithArrays(s, Visited(s.a, slot, write)), t, Release(th.pc.step, write.Some?, 1))
      case Erase(_, condition) =>
        if condition(ElementAt(s.a, slot).value.value) then
          Goto(WithArrays(s, WithElement(s.a, slot, None)), t, Unpaid(th.pc.step, th.pc.n))
        else Goto(s, t, Release(th.pc.step, true, 0));
  }

  lemma ReservationGoes(s: State, t: Tid) returns (s': State)
    requires WellTyped(s) && t in s.threads
    requires s.threads[t].pc.Snapshot? || s.threads[t].pc.Reserve? || s.threads[t].pc.Decide? || s.threads[t].pc.Unreserve?
    ensures InsertStep(s, t, s')
  {
    var th := s.threads[t];
    s' := match th.pc
      case Snapshot => Goto(s, t, Match(s.acc[Home(s.a, th)].count, 0, 0, {}))
      case Reserve(c) => Goto(s.(size := s.size + 1), t, Decide(c, s.size + 1))
      case Decide(c, ticket) => Goto(s, t, if ticket <= s.ml then Seek(c, 0) else Unreserve)
      case Unreserve => Goto(s.(size := s.size - 1), t, LeaveFull);
  }

  lemma InsertionGoes(s: State, t: Tid) returns (s': State)
    requires WellTyped(s) && GroupLocksOk(s) && Solo(s, t) && t in s.threads
    requires s.threads[t].pc.Seek? || s.threads[t].pc.Scan? || s.threads[t].pc.Marked? || s.threads[t].pc.Bump? || s.threads[t].pc.Construct?
    ensures InsertStep(s, t, s')
  {
    var th := s.threads[t];
    assert Typed(s.a, th);
    var g := GroupOf(s.a, th, th.pc.step);
    if th.pc.Seek? { GroupsFree(s, t, g, true); }
    hide GroupLocksOk, Solo, ReducedHash;
    s' := match th.pc
      case Seek(c, step) => Goto(WithAccess(s, g, Acquired(s.acc[g], t, true)), t, Scan(c, step))
      case Scan(c, step) =>
        var k := Lowest(s.a.groups[g].MatchAvailable());
        if k < N then Goto(WithArrays(s, WithGroup(s.a, g, s.a.groups[g].Set(k, HashOf(th)))), t, Bump(c, step, k))
        else Goto(WithArrays(s, WithGroup(s.a, g, s.a.groups[g].MarkOverflow(HashOf(th)))), t, Marked(c, step))
      case Marked(c, step) => Goto(WithAccess(s, g, Released(s.acc[g], t)), t, Seek(c, step + 1))
      case Bump(c, step, k) =>
        var acc := s.acc[Home(s.a, th)];
        Goto(WithAccess(s, Home(s.a, th), acc.(count := acc.count + 1)), t, if acc.count == c then Construct(step, k) else Rollback(step, k))
      case Construct(step, k) =>
        Goto(WithArrays(s, WithElement(s.a, Slot(g, k), Some(th.op.e))), t, Release(step, true, 1));
  }

  lemma ErasureGoes(s: State, t: Tid) returns (s': State)
    requires WellTyped(s) && t in s.threads && (s.threads[t].pc.Unpaid? || s.threads[t].pc.Reset? || s.threads[t].pc.Shrink?)
    ensures EraseStep(s, t, s')
  {
    var th := s.threads[t];
    assert Typed(s.a, th);
    var g := GroupOf(s.a, th, th.pc.step);
    s' := match th.pc
      case Unpaid(step, k) =>
        var paid := s.a.groups[g].MaybeCausedOverflow(k);
        Goto(s.(ml := if paid then s.ml - 1 else s.ml), t, Reset(step, k, paid))
      case Reset(step, k, _) => Goto(WithArrays(s, WithGroup(s.a, g, s.a.groups[g].Reset(k))), t, Shrink(step))
      case Shrink(step) => Goto(s.(size := s.size - 1), t, Release(step, true, 1));
  }

  lemma ContainerGoes(s: State, t: Tid, n: nat) returns (s': State)
    requires WellTyped(s) && ContainerOk(s) && OnTrack(s, t, n) && CanGrow(n) && t in s.threads
    requires var pc := s.threads[t].pc; pc.Enter? || pc.Release? || pc.Leave? || pc.LeaveFull? || pc.WantAll? || pc.HoldAll? || pc.DoneAll?
    ensures ContainerStep(s, t, s')
  {
    var th := s.threads[t];
    assert !Inside(th.pc) ==> s.sharers == {};
    assert th.pc.Enter? || th.pc.WantAll? ==> s.owner == None;
    hide ContainerOk, Rehashed, CanGrow, RoomFrom;
    s' := match th.pc
      case Enter => Goto(s.(sharers := s.sharers + {t}), t, if th.op.Insert? then Snapshot else Match(0, 0, 0, {}))
      case Release(step, exclusive, res) =>
        var g := GroupOf(s.a, th, step);
        Goto(WithAccess(s, g, Released(s.acc[g], t)), t, Leave(res))
      case Leave(res) => s.(sharers := s.sharers - {t}, threads := s.threads - {t})
      case LeaveFull => Goto(s.(sharers := s.sharers - {t}), t, WantAll)
      case WantAll => Goto(s.(owner := Some(t)), t, HoldAll)
      case HoldAll => (RehashedThreads(s); Goto(Rehashed(s), t, DoneAll))
      case DoneAll => Goto(s.(owner := None), t, Enter);
  }

  /** The thread is never blocked. */
  lemma SoloGoes(s: State, t: Tid, n: nat) returns (s': State)
    requires Inv(s) && WellTyped(s) && OnTrack(s, t, n) && CanGrow(n)
    ensures Step(s, t, s')
  {
    InvAll(s);
    NotRolledBack(s, t, n);
    assert Solo(s, t);
    hide *;
    var pc := s.threads[t].pc;
    if pc.Match? || pc.Lock? || pc.Check? || pc.Overflow? {
      s' := LookupGoes(s, t);
    } else if pc.Found? {
      s' := FoundGoes(s, t);
    } else if pc.Snapshot? || pc.Reserve? || pc.Decide? || pc.Unreserve? {
      s' := ReservationGoes(s, t);
    } else if pc.Seek? || pc.Scan? || pc.Marked? || pc.Bump? || pc.Construct? {
      s' := InsertionGoes(s, t);
    } else if pc.Unpaid? || pc.Reset? || pc.Shrink? {
      s' := ErasureGoes(s, t);
    } else {
      s' := ContainerGoes(s, t, n);
    }
    AnyStep(s, t, s');
  }

  lemma AnyStep(s: State, t: Tid, s': State)
    requires WellTyped(s) && t in s.threads
    requires LookupStep(s, t, s') || (s.threads[t].pc.Found? && FoundStep(s, t, s')) || InsertStep(s, t, s') || EraseStep(s, t, s')
      || ContainerStep(s, t, s')
    ensures Step(s, t, s')
  {
  }

  /* ---------- undisturbed calls ---------- */

  /** Nobody is inside the container, or holds exclusive access; a full table can grow. */
  ghost predicate Idle(s: State) {
    && s.owner == None && (forall u :: u in s.threads ==> !Inside(s.threads[u].pc))
    && s.size >= 0 && CanGrow(s.size)
  }

  /** A bound on the steps of a call that starts in this state and is not disturbed. */
  function Bound(s: State): nat
    requires s.size >= 0 && CanGrow(s.size)
  {
    37 * |s.a.groups| + 16 + Extra(s.size, s.ml)
  }

  /** Only t moves from step i up to step n. */
  ghost predicate OnlyMoves(who: seq<Tid>, t: Tid, i: nat, n: nat) {
    n <= |who| && forall m :: i <= m < n ==> who[m] == t
  }

  lemma SoloStarts(s: State, t: Tid, s': State)
    requires Inv(s) && WellTyped(s) && Idle(s) && t !in s.threads && Moves(s, t, s') && t in s'.threads
    ensures Inv(s') && WellTyped(s') && OnTrack(s', t, s.size) && Rank(s', t, s.size) <= Bound(s)
  {
    MoveInv(s, t, s');
    InvAll(s);
    InvAll(s');
    NobodyIn(s);
    Quiescent(s);
    hide Inv, WellTyped, CanGrow, Valid, Live, Step, Consistent, InitialMaxLoad, Extra;
    assert !Step(s, t, s') by { if Step(s, t, s') { StepThread(s, t, s'); } }
    var op :| Start(s, t, op, s');
  }

  lemma NobodyIn(s: State)
    requires ContainerOk(s) && forall u :: u in s.threads ==> !Inside(s.threads[u].pc)
    ensures s.sharers == {}
  {
  }

  /** As long as the call goes on, it is on track, and every step counts against the bound. */
  lemma {:induction false} SoloRun(r: seq<State>, who: seq<Tid>, t: Tid, i: nat, n: nat)
    requires InCall(r, who, t, i, n) && OnlyMoves(who, t, i, n) && Idle(r[i])
    ensures WellTyped(r[n]) && OnTrack(r[n], t, r[i].size) && t in r[n].threads
    ensures Rank(r[n], t, r[i].size) + (n - i - 1) <= Bound(r[i])
    decreases n
  {
    hide Trace, Inv, WellTyped, Moves, OnTrack, Idle, Rank, Bound, Nearer, CanGrow, Run;
    IdleGrows(r[i]);
    if n == i + 1 {
      TraceStep(r, who, i);
      SoloStarts(r[i], t, r[n]);
    } else {
      SoloRun(r, who, t, i, n - 1);
      TraceStep(r, who, n - 1);
      SoloStep(r[n - 1], t, r[n], r[i].size);
      NearerMeans(r[n - 1], t, r[n], r[i].size);
    }
  }

  lemma IdleGrows(s: State)
    requires Idle(s)
    ensures s.size >= 0 && CanGrow(s.size)
  {
    hide CanGrow;
  }

  lemma NearerMeans(s: State, t: Tid, s': State, n: nat)
    requires t in s.threads && t in s'.threads && CanGrow(n) && Nearer(s, t, s', n)
    ensures WellTyped(s') && OnTrack(s', t, n) && Rank(s', t, n) < Rank(s, t, n)
  {
    hide WellTyped, OnTrack, Rank, CanGrow;
  }

  /** The step at which a thread that is gone in state n has left, counting from a state it was in. */
  lemma {:induction false} LeavesBefore(r: seq<State>, t: Tid, i: nat, n: nat) returns (m: nat)
    requires i < n < |r| && t in r[i].threads && exists j :: i < j <= n && t !in r[j].threads
    ensures i <= m < n && t !in r[m + 1].threads && forall j :: i <= j <= m ==> t in r[j].threads
    decreases n - i
  {
    if t !in r[i + 1].threads {
      m := i;
    } else {
      m := LeavesBefore(r, t, i + 1, n);
    }
  }

  lemma NoLonger(r: seq<State>, who: seq<Tid>, t: Tid, i: nat, n: nat)
    requires InCall(r, who, t, i, n) && OnlyMoves(who, t, i, n) && Idle(r[i])
    ensures r[i].size >= 0 && CanGrow(r[i].size) && n <= i + Bound(r[i]) + 1
  {
    hide *;
    CallInside(r, who, t, i, n);
    IdleGrows(r[i]);
    SoloRun(r, who, t, i, n);
  }

  lemma CallInside(r: seq<State>, who: seq<Tid>, t: Tid, i: nat, n: nat)
    requires InCall(r, who, t, i, n)
    ensures i < n <= |who| && |who| == |r| - 1 && t in r[n].threads
  {
    hide Trace;
  }

  /** A call that starts while nobody is inside, and that nobody disturbs for as many steps as the bound says, returns
      within them. */
  lemma SoloReturns(r: seq<State>, who: seq<Tid>, t: Tid, i: nat) returns (n: nat)
    requires Trace(r, who) && i < |who| && |who| == |r| - 1 && t !in r[i].threads && t in r[i + 1].threads && Idle(r[i])
    requires r[i].size >= 0 && CanGrow(r[i].size) && OnlyMoves(who, t, i, i + Bound(r[i]) + 2)
    ensures i < n <= i + Bound(r[i]) + 1 && n < |who| && InCall(r, who, t, i, n) && who[n] == t && t !in r[n + 1].threads
    ensures OnlyMoves(who, t, i, n) && t in r[n].threads
  {
    hide *;
    var last := i + Bound(r[i]) + 2;
    ComesToLeave(r, who, t, i, last);
    n := LeavesBefore(r, t, i + 1, last);
    CallIs(r, who, t, i, n, last);
  }

  lemma ComesToLeave(r: seq<State>, who: seq<Tid>, t: Tid, i: nat, last: nat)
    requires Trace(r, who) && i < |who| && |who| == |r| - 1 && t !in r[i].threads && t in r[i + 1].threads && Idle(r[i])
    requires r[i].size >= 0 && CanGrow(r[i].size) && last == i + Bound(r[i]) + 2 && OnlyMoves(who, t, i, last)
    ensures last < |r| && exists j :: i + 1 < j <= last && t !in r[j].threads
  {
    hide Trace, Idle, CanGrow, Bound;
    assert who[i] == t && last <= |who|;
    if forall j :: i + 1 < j <= last ==> t in r[j].threads {
      assert InCall(r, who, t, i, last);
      hide *;
      NoLonger(r, who, t, i, last);
    }
  }

  lemma CallIs(r: seq<State>, who: seq<Tid>, t: Tid, i: nat, n: nat, last: nat)
    requires Trace(r, who) && i < n < last <= |who| && |who| == |r| - 1 && t !in r[i].threads && OnlyMoves(who, t, i, last)
    requires forall j :: i + 1 <= j <= n ==> t in r[j].threads
    ensures InCall(r, who, t, i, n) && OnlyMoves(who, t, i, n) && who[n] == t && t in r[n].threads
  {
    hide Trace;
  }

  /* ---------- their results ---------- */

  /** Before its act, a call on its own leaves every binding as it was. */
  lemma {:induction false} SoloKeepsMap(r: seq<State>, who: seq<Tid>, t: Tid, i: nat, n: nat, k: Key, v: int)
    requires InCall(r, who, t, i, n) && OnlyMoves(who, t, i, n) && Acts(r, who, t, i, n) == []
    ensures WellTyped(r[i]) && WellTyped(r[n]) && (Binds(r[n], k, v) <==> Binds(r[i], k, v))
    decreases n
  {
    hide Trace, Inv, WellTyped, Moves, Binds, Run, ActOf, MapEffect;
    TraceStep(r, who, n - 1);
    InvParts(r[n - 1]);
    InvParts(r[n]);
    if n == i + 1 {
      StartKeepsMap(r[i], t, r[n], k, v);
    } else {
      assert Acts(r, who, t, i, n) == Acts(r, who, t, i, n - 1) + ActAt(r, who, t, n - 1);
      SoloKeepsMap(r, who, t, i, n - 1, k, v);
      MoveIsStep(r[n - 1], t, r[n]);
      ActTakesEffect(r[n - 1], t, r[n]);
      SilentKeeps(r[n - 1], r[n], k, v);
    }
  }

  lemma SilentKeeps(s: State, s': State, k: Key, v: int)
    requires WellTyped(s) && WellTyped(s') && MapEffect(s, s', Silent)
    ensures Binds(s', k, v) <==> Binds(s, k, v)
  {
    hide WellTyped, Binds;
  }

  lemma MoveIsStep(s: State, t: Tid, s': State)
    requires WellTyped(s) && Moves(s, t, s') && t in s.threads
    ensures Step(s, t, s')
  {
    hide WellTyped, Step, ExclusiveStep;
  }

  lemma StartKeepsMap(s: State, t: Tid, s': State, k: Key, v: int)
    requires Inv(s) && WellTyped(s) && Moves(s, t, s') && t !in s.threads && t in s'.threads
    ensures WellTyped(s') && (Binds(s', k, v) <==> Binds(s, k, v))
  {
    hide Inv, WellTyped, Step, ExclusiveStep, Binds, MapEffect;
    assert !Step(s, t, s') by { if Step(s, t, s') { StepThread(s, t, s'); } }
    assert !ExclusiveStep(s, s') by { NotExclusiveStart(s, t, s'); }
    var op :| Start(s, t, op, s');
    StartSilent(s, t, op, s');
    SilentKeeps(s, s', k, v);
  }

  lemma NotExclusiveStart(s: State, t: Tid, s': State)
    requires t !in s.threads && t in s'.threads
    ensures !ExclusiveStep(s, s')
  {
    hide Consistent;
  }

  /** The step of the one act of a call. */
  lemma {:induction false} FirstAct(r: seq<State>, who: seq<Tid>, t: Tid, i: nat, n: nat) returns (m: nat)
    requires i <= n <= |who| && |who| == |r| - 1 && |Acts(r, who, t, i, n)| == 1
    ensures i <= m < n && Acts(r, who, t, i, m) == [] && who[m] == t && t in r[m].threads
    ensures ActOf(r[m], t, r[m + 1]) == Some(Acts(r, who, t, i, n)[0])
    decreases n
  {
    hide *;
    ActsSplit(r, who, t, i, n);
    var acts, last := Acts(r, who, t, i, n - 1), ActAt(r, who, t, n - 1);
    OneOfTwo(acts, last);
    if acts == [] {
      m := n - 1;
      ActAtIs(r, who, t, n - 1);
    } else {
      m := FirstAct(r, who, t, i, n - 1);
    }
  }

  lemma OneOfTwo(a: seq<Act>, b: seq<Act>)
    requires |a + b| == 1
    ensures if a == [] then b == a + b else b == [] && a == a + b
  {
  }

  lemma ActsSplit(r: seq<State>, who: seq<Tid>, t: Tid, i: nat, n: nat)
    requires i <= n <= |who| && |who| == |r| - 1 && Acts(r, who, t, i, n) != []
    ensures i < n && Acts(r, who, t, i, n) == Acts(r, who, t, i, n - 1) + ActAt(r, who, t, n - 1)
  {
    hide ActAt;
  }

  lemma ActAtIs(r: seq<State>, who: seq<Tid>, t: Tid, n: nat)
    requires n < |who| && |who| == |r| - 1 && ActAt(r, who, t, n) != []
    ensures who[n] == t && t in r[n].threads && ActOf(r[n], t, r[n + 1]).Some?
    ensures ActAt(r, who, t, n) == [ActOf(r[n], t, r[n + 1]).value]
  {
    hide ActOf;
  }

  /** Nothing is done before nothing is done. */
  lemma {:induction false} NoActsBefore(r: seq<State>, who: seq<Tid>, t: Tid, i: nat, m: nat, n: nat)
    requires i <= m <= n <= |who| && |who| == |r| - 1 && Acts(r, who, t, i, n) == []
    ensures Acts(r, who, t, i, m) == []
    decreases n
  {
    hide ActOf;
    if m < n {
      assert Acts(r, who, t, i, n) == Acts(r, who, t, i, n - 1) + ActAt(r, who, t, n - 1);
      NoActsBefore(r, who, t, i, m, n - 1);
    }
  }

  /** What a call on its own finds is what was there when it started. */
  lemma SoloFinds(r: seq<State>, who: seq<Tid>, t: Tid, i: nat, n: nat, k: Key)
    requires InCall(r, who, t, i, n) && OnlyMoves(who, t, i, n) && |Acts(r, who, t, i, n)| == 1 && KeyOf(r[i + 1].threads[t].op) == k
    ensures WellTyped(r[i])
    ensures match Acts(r, who, t, i, n)[0]
      case Inserts(_) => !HasKey(r[i], k)
      case Erases(v) => Binds(r[i], k, v)
      case Stores(v, _) => Binds(r[i], k, v)
      case Reads(v) => Binds(r[i], k, v)
  {
    hide Trace, Inv, WellTyped, Moves, Binds, HasKey, Run, ActOf, MapEffect, CallOk, Step;
    var m := FirstAct(r, who, t, i, n);
    assert m != i;
    assert InCall(r, who, t, i, m);
    TraceStep(r, who, m);
    CallSoFar(r, who, t, i, m);
    MoveIsStep(r[m], t, r[m + 1]);
    ActTakesEffect(r[m], t, r[m + 1]);
    SoloKeepsMap(r, who, t, i, m, k, 0);
    forall v ensures WellTyped(r[i]) && WellTyped(r[m]) && (Binds(r[m], k, v) <==> Binds(r[i], k, v)) {
      SoloKeepsMap(r, who, t, i, m, k, v);
    }
    BoundMeansPresent(r[i], k);
    BoundMeansPresent(r[m], k);
  }

  /** A call on its own that misses its key has been called for an absent key. */
  lemma SoloMisses(r: seq<State>, who: seq<Tid>, t: Tid, i: nat, n: nat, k: Key)
    requires InCall(r, who, t, i, n) && OnlyMoves(who, t, i, n) && Acts(r, who, t, i, n) == [] && n < |r| && AbsentMeanwhile(r, k, i, n)
    ensures WellTyped(r[i]) && !HasKey(r[i], k)
  {
    hide Trace, WellTyped, Binds, HasKey, ActOf;
    var m: nat :| i < m <= n && WellTyped(r[m]) && !HasKey(r[m], k);
    NoActsBefore(r, who, t, i, m, n);
    assert InCall(r, who, t, i, m);
    SoloKeepsMap(r, who, t, i, m, k, 0);
    forall v ensures WellTyped(r[i]) && (Binds(r[m], k, v) <==> Binds(r[i], k, v)) {
      SoloKeepsMap(r, who, t, i, m, k, v);
    }
    BoundMeansPresent(r[i], k);
    BoundMeansPresent(r[m], k);
  }

  /** The result that the contents of the table call for. */
  ghost predicate RightAnswer(s: State, op: Op, res: nat)
    requires WellTyped(s)
  {
    match op
    case Insert(e, _) => res == if HasKey(s, e.key) then 0 else 1
    case Visit(k, _) => res == if HasKey(s, k) then 1 else 0
    case Erase(k, condition) => res <= 1 && (res == 1 <==> exists v :: Binds(s, k, v) && condition(v))
  }

  lemma AnswerIsRight(s: State, op: Op, res: nat, acts: seq<Act>)
    requires Inv(s) && WellTyped(s) && res <= 1 && Answers(op, res, acts)
    requires acts == [] ==> !HasKey(s, KeyOf(op))
    requires |acts| == 1 ==> match acts[0]
      case Inserts(_) => !HasKey(s, KeyOf(op))
      case Erases(v) => Binds(s, KeyOf(op), v)
      case Stores(v, _) => Binds(s, KeyOf(op), v)
      case Reads(v) => Binds(s, KeyOf(op), v)
    ensures RightAnswer(s, op, res)
  {
    hide Inv, WellTyped, HasKey, Binds;
    BoundMeansPresent(s, KeyOf(op));
    if op.Erase? && acts != [] {
      forall v | Binds(s, KeyOf(op), v) ensures v == acts[0].v {
        BindsOnce(s, KeyOf(op), v, acts[0].v);
      }
    }
  }

  /** A call that starts while nobody is inside and that nobody disturbs returns within the bound, and with the result that
      the contents of the table call for: an insertion inserts exactly if the key is absent, a visit finds exactly a
      present key, an erasure erases exactly a present key whose value meets its condition. */
  lemma SoloCall(r: seq<State>, who: seq<Tid>, t: Tid, i: nat) returns (n: nat)
    requires Trace(r, who) && i < |who| && |who| == |r| - 1 && t !in r[i].threads && t in r[i + 1].threads && Idle(r[i])
    requires r[i].size >= 0 && CanGrow(r[i].size) && OnlyMoves(who, t, i, i + Bound(r[i]) + 2)
    ensures i < n <= i + Bound(r[i]) + 1 && n < |who| && t in r[n].threads && t !in r[n + 1].threads
    ensures WellTyped(r[i]) && r[n].threads[t].pc.Leave? && r[n].threads[t].op == r[i + 1].threads[t].op
    ensures RightAnswer(r[i], r[n].threads[t].op, r[n].threads[t].pc.res)
  {
    hide *;
    TraceStep(r, who, i);
    n := SoloReturns(r, who, t, i);
    CallTakesEffect(r, who, t, i, n);
    SoloAnswers(r, who, t, i, n);
  }

  lemma SoloAnswers(r: seq<State>, who: seq<Tid>, t: Tid, i: nat, n: nat)
    requires InCall(r, who, t, i, n) && OnlyMoves(who, t, i, n) && n < |who| && Inv(r[i]) && WellTyped(r[i])
    requires r[n].threads[t].pc.Leave? && r[n].threads[t].op == r[i + 1].threads[t].op && r[n].threads[t].pc.res <= 1
    requires Answers(r[n].threads[t].op, r[n].threads[t].pc.res, Acts(r, who, t, i, n))
    requires Acts(r, who, t, i, n) == [] ==> AbsentMeanwhile(r, KeyOf(r[n].threads[t].op), i, n)
    ensures RightAnswer(r[i], r[n].threads[t].op, r[n].threads[t].pc.res)
  {
    var op, acts := r[n].threads[t].op, Acts(r, who, t, i, n);
    assert |acts| <= 1;
    hide InCall, Inv, WellTyped, AbsentMeanwhile, HasKey, Binds, Answers, Acts, RightAnswer;
    if acts == [] {
      SoloMisses(r, who, t, i, n, KeyOf(op));
    } else {
      SoloFinds(r, who, t, i, n, KeyOf(op));
    }
    AnswerIsRight(r[i], op, r[n].threads[t].pc.res, acts);
  }

  /* ---------- readers do not keep each other waiting ---------- */

  /** A read-only visitor, or a read-only insertion looking its key up, is let into a group that no writer holds, however
      many readers are there; and they stay. */
  lemma ReadersShare(s: State, t: Tid) returns (s': State)
    requires WellTyped(s) && t in s.threads && s.threads[t].pc.Lock? && !s.threads[t].op.Erase? && s.threads[t].op.write.None?
    requires var g := GroupOf(s.a, s.threads[t], s.threads[t].pc.step); g < |s.acc| && s.acc[g].writer.None?
    ensures Step(s, t, s') && t in s'.threads && s'.threads[t].pc.Check?
    ensures var g := GroupOf(s.a, s.threads[t], s.threads[t].pc.step); g < |s'.acc| && s'.acc[g].readers == s.acc[g].readers + {t}
  {
    var th := s.threads[t];
    var g := GroupOf(s.a, th, th.pc.step);
    s' := Goto(WithAccess(s, g, Acquired(s.acc[g], t, false)), t, Check(th.pc.c, th.pc.step, th.pc.mask));
    assert LookupStep(s, t, s');
    hide WellTyped, LookupStep;
    AnyStep(s, t, s');
  }

  /** A lookup goes on to another group only past a group that is overflowed for its hash. */
  lemma LookupStops(s: State, t: Tid, s': State)
    requires WellTyped(s) && t in s.threads && s.threads[t].pc.Overflow? && Step(s, t, s')
    ensures t in s'.threads
    ensures var g := GroupOf(s.a, s.threads[t], s.threads[t].pc.step);
      s'.threads[t].pc.Match? <==> g < |s.a.groups| && HashOf(s.threads[t]) % 8 in s.a.groups[g].overflow && s.threads[t].pc.step + 1 < |s.a.groups|
  {
    assert LookupStep(s, t, s') by { hide WellTyped, LookupStep, Probe, Rehashed, CanGrow; }
    assert GroupOf(s.a, s.threads[t], s.threads[t].pc.step) < |s.a.groups|;
    hide WellTyped, Probe, Step;
  }
}
