/** Completed calls are linearizable: between its start and its return every call acts on the abstract map exactly once,
    as its result says, or comes past a moment at which its key is absent. */
module ConcurrentCalls {
  import opened SizePolicy
  import opened Groups
  import opened Arrays
  import opened Wrappers
  import opened ArrayLaws
  import opened ConcurrentTable
  import opened ConcurrentInvariant
  import opened ConcurrentEffects
  import opened ConcurrentInsert
  import opened ConcurrentErase
  import opened ConcurrentTheorems
  import opened ConcurrentRefinement
  import opened ConcurrentVisit

  /** What a call does to its key, all at once; v is the value inserted or found, w a value stored. */
  datatype Act = Inserts(v: int) | Erases(v: int) | Stores(v: int, w: int) | Reads(v: int)

  /** A visitor that finds the key with value v reads it, or stores another one. */
  function Touch(write: Option<int -> int>, v: int): Act {
    match write
    case None => Reads(v)
    case Some(f) => Stores(v, f(v))
  }

  /** The act of thread t in this step, if any: at the increment of the insertion counter, or at the slot found. */
  ghost function ActOf(s: State, t: Tid, s': State): Option<Act>
    requires t in s.threads
  {
    var th := s.threads[t];
    match th.pc
    case Bump(_, _, _) =>
      if t in s'.threads && s'.threads[t].pc.Construct? && th.op.Insert? then Some(Inserts(th.op.e.value)) else None
    case Found(_, _) =>
      if t in s'.threads && s'.threads[t].pc.Unpaid? then Some(Erases(FoundValue(s, t)))
      else if th.op.Erase? then Some(Reads(FoundValue(s, t)))
      else Some(Touch(th.op.write, FoundValue(s, t)))
    case _ => None
  }

  ghost function ActAt(r: seq<State>, who: seq<Tid>, t: Tid, i: nat): seq<Act>
    requires i < |who| && |who| == |r| - 1
  {
    if who[i] == t && t in r[i].threads && ActOf(r[i], t, r[i + 1]).Some? then [ActOf(r[i], t, r[i + 1]).value] else []
  }

  /** The acts of thread t from step i up to step n, in order. */
  ghost function Acts(r: seq<State>, who: seq<Tid>, t: Tid, i: nat, n: nat): seq<Act>
    requires i <= n <= |who| && |who| == |r| - 1
  {
    if n == i then [] else Acts(r, who, t, i, n - 1) + ActAt(r, who, t, n - 1)
  }

  /* ---------- what an act means ---------- */

  ghost predicate ActEffect(s: State, s': State, k: Key, act: Act)
    requires WellTyped(s) && WellTyped(s')
  {
    match act
    case Inserts(v) => !HasKey(s, k) && MapEffect(s, s', Added(k, v))
    case Erases(v) => Binds(s, k, v) && MapEffect(s, s', Removed(k))
    case Stores(v, w) => Binds(s, k, v) && MapEffect(s, s', Stored(k, w))
    case Reads(v) => Binds(s, k, v) && MapEffect(s, s', Silent)
  }

  lemma BoundMeansPresent(s: State, k: Key)
    requires WellTyped(s)
    ensures HasKey(s, k) <==> exists v :: Binds(s, k, v)
  {
    hide WellTyped, Present, BindsAt;
    if HasKey(s, k) {
      var x :| Present(s, x, k);
      PresentBinds(s, x, k);
      var v :| BindsAt(s, x, k, v);
      assert Binds(s, k, v);
    }
    if v :| Binds(s, k, v) {
      var x :| BindsAt(s, x, k, v);
      PresentBinds(s, x, k);
      assert Present(s, x, k);
    }
  }

  lemma ActEvent(s: State, t: Tid, s': State)
    requires t in s.threads
    ensures EventOf(s, t, s') == match ActOf(s, t, s')
      case None => Silent
      case Some(Inserts(v)) => Added(KeyOf(s.threads[t].op), v)
      case Some(Erases(_)) => Removed(KeyOf(s.threads[t].op))
      case Some(Stores(_, w)) => Stored(KeyOf(s.threads[t].op), w)
      case Some(Reads(_)) => Silent
  {
  }

  lemma FoundBound(s: State, t: Tid)
    requires WellTyped(s) && t in s.threads && s.threads[t].pc.Found?
    ensures Binds(s, KeyOf(s.threads[t].op), FoundValue(s, t))
  {
    assert Typed(s.a, s.threads[t]);
    var slot := FoundSlot(s.a, s.threads[t]);
    assert FoundValue(s, t) == ElementAt(s.a, slot).value.value;
    hide WellFormed, Probe, FoundValue;
    assert BindsAt(s, slot, KeyOf(s.threads[t].op), ElementAt(s.a, slot).value.value);
  }

  lemma ActFinds(s: State, t: Tid, s': State)
    requires t in s.threads && s.threads[t].pc.Found?
    ensures match ActOf(s, t, s')
      case Some(Erases(v)) => v == FoundValue(s, t)
      case Some(Stores(v, _)) => v == FoundValue(s, t)
      case Some(Reads(v)) => v == FoundValue(s, t)
      case _ => false
  {
  }

  /** An act takes effect in its step: an insertion finds the key absent and adds it, the others find it present. A step
      without an act leaves the abstract map alone. */
  lemma ActTakesEffect(s: State, t: Tid, s': State)
    requires Inv(s) && Step(s, t, s')
    ensures WellTyped(s) && WellTyped(s') && t in s.threads
    ensures match ActOf(s, t, s')
      case None => MapEffect(s, s', Silent)
      case Some(act) => ActEffect(s, s', KeyOf(s.threads[t].op), act)
  {
    InvParts(s);
    StepThread(s, t, s');
    AtomicStep(s, t, s');
    ActEvent(s, t, s');
    var k := KeyOf(s.threads[t].op);
    if s.threads[t].pc.Found? {
      FoundBound(s, t);
      ActFinds(s, t, s');
    }
    hide Inv, Step, WellTyped, Binds, HasKey, FoundValue;
    BoundMeansPresent(s, k);
  }

  /* ---------- what a call has done so far ---------- */

  /** The acts that fit the thread's program point. */
  predicate Fits(th: Thread, acts: seq<Act>) {
    match th.pc
    case Construct(_, _) => th.op.Insert? && acts == [Inserts(th.op.e.value)]
    case Unpaid(_, _) => th.op.Erase? && Answers(th.op, 1, acts)
    case Reset(_, _, _) => th.op.Erase? && Answers(th.op, 1, acts)
    case Shrink(_) => th.op.Erase? && Answers(th.op, 1, acts)
    case Release(_, _, res) => res <= 1 && acts != [] && Answers(th.op, res, acts)
    case Leave(res) => res <= 1 && Answers(th.op, res, acts)
    case _ => acts == []
  }

  /** The visitor has been called once, on the value found. */
  predicate Touched(write: Option<int -> int>, acts: seq<Act>) {
    && |acts| == 1 && (acts[0].Reads? || acts[0].Stores?) && acts[0] == Touch(write, acts[0].v)
  }

  /** The result that goes with the acts of a call. */
  predicate Answers(op: Op, res: nat, acts: seq<Act>) {
    match op
    case Insert(e, write) => if res == 0 then Touched(write, acts) else acts == [Inserts(e.value)]
    case Visit(_, write) => if res == 0 then acts == [] else Touched(write, acts)
    case Erase(_, condition) =>
      if res == 0 then acts == [] || (|acts| == 1 && acts[0].Reads? && !condition(acts[0].v))
      else |acts| == 1 && acts[0].Erases? && condition(acts[0].v)
  }

  lemma LookupFits(s: State, t: Tid, s': State)
    requires WellTyped(s) && t in s.threads && LookupStep(s, t, s') && Fits(s.threads[t], [])
    ensures t in s'.threads && s'.threads[t].op == s.threads[t].op && Fits(s'.threads[t], []) && ActOf(s, t, s').None?
    ensures s'.threads[t].pc.Leave? ==> Looking(s, t, KeyOf(s.threads[t].op))
  {
    hide WellTyped, Probe, ReducedHash;
  }

  lemma FoundFits(s: State, t: Tid, s': State)
    requires WellTyped(s) && t in s.threads && s.threads[t].pc.Found? && FoundStep(s, t, s')
    ensures t in s'.threads && s'.threads[t].op == s.threads[t].op && ActOf(s, t, s').Some?
    ensures Fits(s'.threads[t], [ActOf(s, t, s').value]) && !s'.threads[t].pc.Leave?
  {
    assert Typed(s.a, s.threads[t]);
    hide WellTyped, Probe, ReducedHash, Visited;
  }

  lemma InsertFits(s: State, t: Tid, s': State, acts: seq<Act>)
    requires WellTyped(s) && t in s.threads && InsertStep(s, t, s') && Fits(s.threads[t], acts)
    ensures t in s'.threads && s'.threads[t].op == s.threads[t].op && !s'.threads[t].pc.Leave?
    ensures Fits(s'.threads[t], acts + match ActOf(s, t, s') case None => [] case Some(act) => [act])
    ensures Looking(s', t, KeyOf(s.threads[t].op)) ==> Begins(s', t, KeyOf(s.threads[t].op))
  {
    assert Typed(s.a, s.threads[t]);
    hide WellTyped, Probe, ReducedHash, WellFormed;
  }

  lemma EraseFits(s: State, t: Tid, s': State, acts: seq<Act>)
    requires WellTyped(s) && t in s.threads && EraseStep(s, t, s') && Fits(s.threads[t], acts)
    ensures t in s'.threads && s'.threads[t].op == s.threads[t].op && !s'.threads[t].pc.Leave?
    ensures Fits(s'.threads[t], acts) && ActOf(s, t, s').None? && !Looking(s', t, KeyOf(s.threads[t].op))
  {
    hide WellTyped, Probe, ReducedHash, WellFormed;
  }

  lemma RehashedThreads(s: State)
    requires s.size >= 0 && CanGrow(s.size)
    ensures Rehashed(s).threads == s.threads
  {
    hide Transfer, GrownArrays;
  }

  lemma ContainerFits(s: State, t: Tid, s': State, acts: seq<Act>)
    requires WellTyped(s) && t in s.threads && ContainerStep(s, t, s') && Fits(s.threads[t], acts) && t in s'.threads
    ensures s'.threads[t].op == s.threads[t].op && Fits(s'.threads[t], acts) && ActOf(s, t, s').None?
    ensures s'.threads[t].pc.Leave? ==> acts != []
    ensures Looking(s', t, KeyOf(s.threads[t].op)) ==> Begins(s', t, KeyOf(s.threads[t].op))
  {
    hide WellTyped, Probe, ReducedHash, WellFormed, Rehashed, CanGrow;
    if s.size >= 0 && CanGrow(s.size) {
      RehashedThreads(s);
    }
  }

  /** One step of the thread: its acts keep fitting, a lookup goes on or begins, and only a lookup that misses leaves
      without an act. */
  lemma OwnFits(s: State, t: Tid, s': State, acts: seq<Act>) returns (acts': seq<Act>)
    requires WellTyped(s) && Moves(s, t, s') && t in s.threads && t in s'.threads && Fits(s.threads[t], acts)
    ensures acts' == acts + match ActOf(s, t, s') case None => [] case Some(act) => [act]
    ensures s'.threads[t].op == s.threads[t].op && Fits(s'.threads[t], acts')
    ensures s'.threads[t].pc.Leave? && acts' == [] ==> Looking(s, t, KeyOf(s.threads[t].op))
    ensures Looking(s', t, KeyOf(s.threads[t].op)) ==>
      Looking(s, t, KeyOf(s.threads[t].op)) || Begins(s', t, KeyOf(s.threads[t].op))
  {
    acts' := acts + match ActOf(s, t, s') case None => [] case Some(act) => [act];
    assert Step(s, t, s') by { hide WellTyped, Step; }
    hide WellTyped, LookupStep, FoundStep, InsertStep, EraseStep, ContainerStep, Begins, ActOf;
    if LookupStep(s, t, s') {
      LookupLooks(s, t, s');
      hide Looking, Fits;
      LookupFits(s, t, s');
    } else if s.threads[t].pc.Found? && FoundStep(s, t, s') {
      FoundFits(s, t, s');
    } else if InsertStep(s, t, s') {
      hide Looking, Fits;
      InsertFits(s, t, s', acts);
    } else if EraseStep(s, t, s') {
      hide Looking, Fits;
      EraseFits(s, t, s', acts);
    } else {
      hide Looking, Fits;
      ContainerFits(s, t, s', acts);
    }
  }

  lemma LookupLooks(s: State, t: Tid, s': State)
    requires WellTyped(s) && t in s.threads && LookupStep(s, t, s')
    ensures Looking(s, t, KeyOf(s.threads[t].op)) && forall acts :: Fits(s.threads[t], acts) ==> acts == []
  {
    hide WellTyped, Probe, ReducedHash;
  }

  /* ---------- completed calls ---------- */

  /** Thread t starts a call at step i, and is in it up to state n. */
  ghost predicate InCall(r: seq<State>, who: seq<Tid>, t: Tid, i: nat, n: nat) {
    && Trace(r, who) && i < n <= |who| && |who| == |r| - 1 && who[i] == t && t !in r[i].threads
    && forall m :: i < m <= n ==> t in r[m].threads
  }

  /** The key was absent at some moment after state i, up to state n. */
  ghost predicate AbsentMeanwhile(r: seq<State>, k: Key, i: nat, n: nat)
    requires n < |r|
  {
    exists m :: i < m <= n && WellTyped(r[m]) && !HasKey(r[m], k)
  }

  /** The lookup under way, if any, has begun since state i. */
  ghost predicate LookupSince(r: seq<State>, t: Tid, k: Key, i: nat, n: nat)
    requires n < |r|
  {
    Looking(r[n], t, k) ==> exists b :: i < b <= n && LooksFrom(r, t, k, b, n)
  }

  ghost predicate LooksFrom(r: seq<State>, t: Tid, k: Key, b: int, n: nat)
    requires 0 <= b <= n < |r|
  {
    Begins(r[b], t, k) && forall m :: b <= m <= n ==> Looking(r[m], t, k)
  }

  /** What holds of a call in progress. */
  ghost predicate CallOk(r: seq<State>, who: seq<Tid>, t: Tid, k: Key, i: nat, n: nat)
    requires i <= n <= |who| && |who| == |r| - 1
  {
    && t in r[n].threads && KeyOf(r[n].threads[t].op) == k
    && Fits(r[n].threads[t], Acts(r, who, t, i, n))
    && (r[n].threads[t].pc.Leave? && Acts(r, who, t, i, n) == [] ==> AbsentMeanwhile(r, k, i, n))
    && LookupSince(r, t, k, i, n)
  }

  lemma CallStarts(r: seq<State>, who: seq<Tid>, t: Tid, i: nat)
    requires InCall(r, who, t, i, i + 1)
    ensures CallOk(r, who, t, KeyOf(r[i + 1].threads[t].op), i, i + 1)
  {
    hide Trace, Inv, WellTyped, Moves, LookupSince, Fits, Looking, Begins;
    TraceStep(r, who, i);
    StartsFresh(r[i], t, r[i + 1]);
    assert Acts(r, who, t, i, i) == [] && ActAt(r, who, t, i) == [];
    assert Acts(r, who, t, i, i + 1) == [];
    assert LookupSince(r, t, KeyOf(r[i + 1].threads[t].op), i, i + 1) by { hide *; NotLooking(r, t, i); }
  }

  lemma StartsFresh(s: State, t: Tid, s': State)
    requires WellTyped(s) && Moves(s, t, s') && t !in s.threads && t in s'.threads
    ensures s'.threads[t].pc.Enter? && Fits(s'.threads[t], [])
  {
    hide WellTyped, LookupStep, FoundStep, InsertStep, EraseStep, ContainerStep, Consistent;
  }

  lemma NotLooking(r: seq<State>, t: Tid, i: nat)
    requires i + 1 < |r| && t in r[i + 1].threads && r[i + 1].threads[t].pc.Enter?
    ensures LookupSince(r, t, KeyOf(r[i + 1].threads[t].op), i, i + 1)
  {
  }

  ghost predicate Untouched(s: State, s': State, t: Tid) {
    t in s.threads ==> t in s'.threads && s'.threads[t] == s.threads[t]
  }

  lemma LookupUntouched(s: State, u: Tid, s': State, t: Tid)
    requires WellTyped(s) && u in s.threads && LookupStep(s, u, s') && u != t
    ensures Untouched(s, s', t)
  {
    hide WellTyped, Probe, ReducedHash;
  }

  lemma FoundUntouched(s: State, u: Tid, s': State, t: Tid)
    requires WellTyped(s) && u in s.threads && s.threads[u].pc.Found? && FoundStep(s, u, s') && u != t
    ensures Untouched(s, s', t)
  {
    hide WellTyped, Probe, ReducedHash, Visited;
  }

  lemma InsertUntouched(s: State, u: Tid, s': State, t: Tid)
    requires WellTyped(s) && u in s.threads && InsertStep(s, u, s') && u != t
    ensures Untouched(s, s', t)
  {
    hide WellTyped, Probe, ReducedHash;
  }

  lemma EraseUntouched(s: State, u: Tid, s': State, t: Tid)
    requires WellTyped(s) && u in s.threads && EraseStep(s, u, s') && u != t
    ensures Untouched(s, s', t)
  {
    hide WellTyped, Probe, ReducedHash;
  }

  lemma ContainerUntouched(s: State, u: Tid, s': State, t: Tid)
    requires WellTyped(s) && u in s.threads && ContainerStep(s, u, s') && u != t
    ensures Untouched(s, s', t)
  {
    hide WellTyped, Probe, ReducedHash, Rehashed, CanGrow;
    if s.size >= 0 && CanGrow(s.size) {
      RehashedThreads(s);
    }
  }

  /** The other threads leave a thread alone, whatever they do. */
  lemma OthersKeepThread(s: State, u: Tid, s': State, t: Tid)
    requires WellTyped(s) && Moves(s, u, s') && u != t
    ensures Untouched(s, s', t)
  {
    hide WellTyped, LookupStep, FoundStep, InsertStep, EraseStep, ContainerStep, Consistent;
    if Step(s, u, s') {
      hide Untouched;
      if LookupStep(s, u, s') {
        LookupUntouched(s, u, s', t);
      } else if s.threads[u].pc.Found? && FoundStep(s, u, s') {
        FoundUntouched(s, u, s', t);
      } else if InsertStep(s, u, s') {
        InsertUntouched(s, u, s', t);
      } else if EraseStep(s, u, s') {
        EraseUntouched(s, u, s', t);
      } else {
        ContainerUntouched(s, u, s', t);
      }
    }
  }

  lemma StillLooking(r: seq<State>, t: Tid, k: Key, i: nat, n: nat)
    requires i <= n && n + 1 < |r| && LookupSince(r, t, k, i, n)
    requires Looking(r[n + 1], t, k) ==> Looking(r[n], t, k) || Begins(r[n + 1], t, k)
    ensures LookupSince(r, t, k, i, n + 1)
  {
    hide Looking, Begins;
    if Looking(r[n + 1], t, k) {
      if Looking(r[n], t, k) {
        var b :| i < b <= n && LooksFrom(r, t, k, b, n);
        assert LooksFrom(r, t, k, b, n + 1);
      } else {
        assert LooksFrom(r, t, k, n + 1, n + 1);
      }
    }
  }

  lemma AbsentLonger(r: seq<State>, k: Key, i: nat, n: nat)
    requires n + 1 < |r| && AbsentMeanwhile(r, k, i, n)
    ensures AbsentMeanwhile(r, k, i, n + 1)
  {
    hide WellTyped, HasKey;
  }

  /** A lookup that ends a call without finding the key has seen it absent. */
  lemma MissSeen(r: seq<State>, who: seq<Tid>, t: Tid, k: Key, i: nat, n: nat)
    requires Trace(r, who) && i <= n < |who| && who[n] == t && LookupSince(r, t, k, i, n) && Looking(r[n], t, k)
    requires t in r[n + 1].threads && r[n + 1].threads[t].pc.Leave?
    ensures AbsentMeanwhile(r, k, i, n + 1)
  {
    assert !Looking(r[n + 1], t, k) && !r[n + 1].threads[t].pc.Found?;
    hide Trace, Looking, Begins;
    var b :| i < b <= n && LooksFrom(r, t, k, b, n);
    MissJustified(r, who, t, k, b, n);
    assert |who| == |r| - 1 by { TraceStep(r, who, n); }
    hide WellTyped, HasKey;
  }

  lemma {:induction false} CallSoFar(r: seq<State>, who: seq<Tid>, t: Tid, i: nat, n: nat)
    requires InCall(r, who, t, i, n)
    ensures CallOk(r, who, t, KeyOf(r[i + 1].threads[t].op), i, n) && r[n].threads[t].op == r[i + 1].threads[t].op
    decreases n
  {
    hide Trace, CallOk, Run;
    if n == i + 1 {
      CallStarts(r, who, t, i);
    } else {
      CallSoFar(r, who, t, i, n - 1);
      CallNext(r, who, t, KeyOf(r[i + 1].threads[t].op), i, n - 1);
    }
  }

  lemma CallNext(r: seq<State>, who: seq<Tid>, t: Tid, k: Key, i: nat, n: nat)
    requires Trace(r, who) && i <= n < |who| && t in r[n + 1].threads
    requires |who| == |r| - 1 && CallOk(r, who, t, k, i, n)
    ensures CallOk(r, who, t, k, i, n + 1) && r[n + 1].threads[t].op == r[n].threads[t].op
  {
    TraceStep(r, who, n);
    hide Trace, Inv, WellTyped, Moves, Looking, Begins, Fits, LookupSince, AbsentMeanwhile, Step, ActOf;
    var acts := Acts(r, who, t, i, n);
    assert Acts(r, who, t, i, n + 1) == acts + ActAt(r, who, t, n);
    if who[n] == t {
      var acts' := OwnFits(r[n], t, r[n + 1], acts);
      assert acts' == Acts(r, who, t, i, n + 1);
      if r[n + 1].threads[t].pc.Leave? && acts' == [] {
        MissSeen(r, who, t, k, i, n);
      }
    } else {
      OthersKeepThread(r[n], who[n], r[n + 1], t);
      assert acts + [] == acts;
      assert Looking(r[n + 1], t, k) ==> Looking(r[n], t, k) by { hide *; SameLooking(r[n], r[n + 1], t, k); }
      if r[n].threads[t].pc.Leave? && acts == [] {
        AbsentLonger(r, k, i, n);
      }
    }
    StillLooking(r, t, k, i, n);
  }

  lemma SameLooking(s: State, s': State, t: Tid, k: Key)
    requires t in s.threads && t in s'.threads && s'.threads[t] == s.threads[t]
    ensures Looking(s', t, k) ==> Looking(s, t, k)
  {
  }

  lemma LastStep(s: State, t: Tid, s': State)
    requires WellTyped(s) && Moves(s, t, s') && t in s.threads && t !in s'.threads
    ensures s.threads[t].pc.Leave?
  {
    hide WellTyped, Probe, ReducedHash, Rehashed, CanGrow, Consistent, Visited;
  }

  /** Every completed call, from its start at step i to its return at step n, has acted on the abstract map exactly once,
      as its result says; or, if it returns 0 without having acted, its key was absent meanwhile. In particular an erasure
      whose condition always holds only returns 0 if the key was absent meanwhile. */
  lemma CallTakesEffect(r: seq<State>, who: seq<Tid>, t: Tid, i: nat, n: nat)
    requires InCall(r, who, t, i, n) && n < |who| && who[n] == t && t !in r[n + 1].threads
    ensures var th := r[n].threads[t];
      var acts := Acts(r, who, t, i, n);
      && th.op == r[i + 1].threads[t].op && th.pc.Leave? && th.pc.res <= 1
      && Answers(th.op, th.pc.res, acts) && (acts == [] ==> AbsentMeanwhile(r, KeyOf(th.op), i, n))
  {
    hide Trace, Inv, WellTyped, Moves, AbsentMeanwhile, Acts, LookupSince, CallOk;
    CallSoFar(r, who, t, i, n);
    TraceStep(r, who, n);
    LastStep(r[n], t, r[n + 1]);
    CallAnswers(r, who, t, KeyOf(r[i + 1].threads[t].op), i, n);
  }

  lemma CallAnswers(r: seq<State>, who: seq<Tid>, t: Tid, k: Key, i: nat, n: nat)
    requires i <= n <= |who| && |who| == |r| - 1 && CallOk(r, who, t, k, i, n) && r[n].threads[t].pc.Leave?
    ensures var th := r[n].threads[t];
      var acts := Acts(r, who, t, i, n);
      KeyOf(th.op) == k && th.pc.res <= 1 && Answers(th.op, th.pc.res, acts) && (acts == [] ==> AbsentMeanwhile(r, k, i, n))
  {
    hide AbsentMeanwhile, Acts, LookupSince, Answers;
  }

  /** An erasure without condition that returns 0 has not touched anything, and its key was absent meanwhile. */
  lemma EraseMisses(r: seq<State>, who: seq<Tid>, t: Tid, i: nat, n: nat)
    requires InCall(r, who, t, i, n) && n < |who| && who[n] == t && t !in r[n + 1].threads
    requires r[n].threads[t].op.Erase? && forall v :: r[n].threads[t].op.condition(v)
    ensures r[n].threads[t].pc.Leave?
    ensures r[n].threads[t].pc.res == 0 ==> Acts(r, who, t, i, n) == [] && AbsentMeanwhile(r, KeyOf(r[n].threads[t].op), i, n)
  {
    CallTakesEffect(r, who, t, i, n);
    hide InCall, AbsentMeanwhile, Acts;
  }
}
