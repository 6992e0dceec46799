/** The readers-writer spinlock: one 32-bit word, any number of threads, one load, compare-exchange or store a step. */
module RwSpinlock {
  import opened BitOps
  import opened Pow2Arith
  import opened Wrappers
  import CT = ConcurrentTable

  type Tid = nat

  const LOCKED_EXCLUSIVE: nat := 0x8000_0000
  const WRITER_PENDING: nat := 0x4000_0000
  const READER_COUNT: nat := 0x3FFF_FFFF

  /* ---------- bits of the word ---------- */

  lemma Masks()
    ensures Pow2(30) == WRITER_PENDING && Pow2(31) == LOCKED_EXCLUSIVE && Pow2(32) == 2 * LOCKED_EXCLUSIVE
  {
    assert Pow2(8) == 256;
    Pow2Add(8, 8);
    Pow2Add(16, 14);
    assert Pow2(14) == 64 * Pow2(8);
    assert Pow2(31) == 2 * Pow2(30);
  }

  /** What the masks select, for the words the lock can hold. */
  lemma WordBits(w: nat)
    requires w <= LOCKED_EXCLUSIVE
    ensures And(w, LOCKED_EXCLUSIVE) != 0 <==> w == LOCKED_EXCLUSIVE
    ensures w < LOCKED_EXCLUSIVE ==> (And(w, WRITER_PENDING) != 0 <==> w >= WRITER_PENDING)
    ensures And(w, READER_COUNT) == w % WRITER_PENDING
    ensures w < WRITER_PENDING ==> Or(w, WRITER_PENDING) == w + WRITER_PENDING
  {
    Masks();
    MaskIsMod(w, 30);
    AndBit(w, 31);
    HighBit(w, 31);
    if w < LOCKED_EXCLUSIVE {
      AndBit(w, 30);
      HighBit(w, 30);
      if w < WRITER_PENDING {
        OrBit(w, 30);
      }
    }
  }

  type Word = w: nat | w < 0x1_0000_0000

  /** st | writer_pending_mask. */
  function WithPending(w: Word): Word {
    Masks();
    OrBelow(w, WRITER_PENDING, 32);
    Or(w, WRITER_PENDING)
  }

  /** Unsigned 32-bit increment and decrement. */
  function Inc(w: Word): Word {
    if w == 0xFFFF_FFFF then 0 else w + 1
  }

  function Dec(w: Word): Word {
    if w == 0 then 0xFFFF_FFFF else w - 1
  }

  /* ---------- threads ---------- */

  /** Program points; seen is the word loaded in the current attempt. */
  datatype Pc =
    | TrySharedLoad | TrySharedSwap(seen: Word)
    | SharedLoad | SharedSwap(seen: Word)
    | Reading
    | TryLoad | TrySwap(seen: Word)
    | LockLoad | LockSwap(seen: Word, wanted: Word)
    | Writing

  datatype State = State(word: Word, threads: map<Tid, Pc>)

  function Goto(s: State, t: Tid, pc: Pc): State {
    s.(threads := s.threads[t := pc])
  }

  function Gone(s: State, t: Tid): State {
    s.(threads := s.threads - {t})
  }

  predicate Entry(pc: Pc) {
    pc.TrySharedLoad? || pc.SharedLoad? || pc.TryLoad? || pc.LockLoad?
  }

  /** A thread calls try_lock_shared, lock_shared, try_lock or lock. */
  ghost predicate Call(s: State, t: Tid, s': State) {
    t !in s.threads && exists pc :: Entry(pc) && s' == Goto(s, t, pc)
  }

  ghost predicate SharedStep(s: State, t: Tid, s': State)
    requires t in s.threads
  {
    match s.threads[t]
    case TrySharedLoad =>
      s' == if s.word >= READER_COUNT then Gone(s, t) else Goto(s, t, TrySharedSwap(s.word))
    case TrySharedSwap(seen) =>
      s' == if s.word == seen then Goto(s.(word := Inc(seen)), t, Reading) else Gone(s, t)
    case SharedLoad =>
      s' == if s.word < READER_COUNT then Goto(s, t, SharedSwap(s.word)) else s
    case SharedSwap(seen) =>
      || s' == Goto(s, t, SharedLoad)
      || (s.word == seen && s' == Goto(s.(word := Inc(seen)), t, Reading))
    case Reading =>
      s' == Gone(s.(word := Dec(s.word)), t)
    case _ => false
  }

  ghost predicate ExclusiveStep(s: State, t: Tid, s': State)
    requires t in s.threads
  {
    match s.threads[t]
    case TryLoad =>
      s' == if And(s.word, LOCKED_EXCLUSIVE) != 0 || And(s.word, READER_COUNT) != 0 then Gone(s, t)
            else Goto(s, t, TrySwap(s.word))
    case TrySwap(seen) =>
      s' == if s.word == seen then Goto(s.(word := LOCKED_EXCLUSIVE), t, Writing) else Gone(s, t)
    case LockLoad =>
      s' == if And(s.word, LOCKED_EXCLUSIVE) != 0 then s
            else if And(s.word, READER_COUNT) == 0 then Goto(s, t, LockSwap(s.word, LOCKED_EXCLUSIVE))
            else if And(s.word, WRITER_PENDING) != 0 then s
            else Goto(s, t, LockSwap(s.word, WithPending(s.word)))
    case LockSwap(seen, wanted) =>
      || s' == Goto(s, t, LockLoad)
      || (s.word == seen && s' == Goto(s.(word := wanted), t, if wanted == LOCKED_EXCLUSIVE then Writing else LockLoad))
    case Writing =>
      s' == Gone(s.(word := 0), t)
    case _ => false
  }

  /** A call or one atomic action. (Returning without the lock removes the thread.) */
  ghost predicate Moves(s: State, t: Tid, s': State) {
    Call(s, t, s') || (t in s.threads && (SharedStep(s, t, s') || ExclusiveStep(s, t, s')))
  }

  ghost predicate Next(s: State, s': State) {
    exists t :: Moves(s, t, s')
  }

  const INITIAL := State(0, map[])

  /* ---------- invariant ---------- */

  ghost function Readers(s: State): set<Tid> {
    set t | t in s.threads && s.threads[t].Reading?
  }

  ghost function Writers(s: State): set<Tid> {
    set t | t in s.threads && s.threads[t].Writing?
  }

  ghost predicate InLock(s: State, t: Tid) {
    t in s.threads && (s.threads[t].LockLoad? || s.threads[t].LockSwap?)
  }

  /** The writer-pending bit. */
  predicate Pending(s: State) {
    WRITER_PENDING <= s.word < LOCKED_EXCLUSIVE
  }

  /** What a thread has seen is only worth something if the word is still the same. */
  predicate SeenOk(pc: Pc) {
    match pc
    case TrySharedSwap(seen) => seen < READER_COUNT
    case SharedSwap(seen) => seen < READER_COUNT
    case TrySwap(seen) => seen == 0 || seen == WRITER_PENDING
    case LockSwap(seen, wanted) =>
      || ((seen == 0 || seen == WRITER_PENDING) && wanted == LOCKED_EXCLUSIVE)
      || (0 < seen < WRITER_PENDING && wanted == seen + WRITER_PENDING)
    case _ => true
  }

  ghost predicate Inv(s: State) {
    && (forall t :: t in s.threads ==> SeenOk(s.threads[t]))
    && (Writers(s) != {} ==> s.word == LOCKED_EXCLUSIVE)
    && (s.word == LOCKED_EXCLUSIVE ==> |Writers(s)| == 1 && Readers(s) == {})
    && (s.word != LOCKED_EXCLUSIVE ==> s.word < LOCKED_EXCLUSIVE && s.word % WRITER_PENDING == |Readers(s)|)
    && (Pending(s) ==> exists t :: InLock(s, t))
  }

  lemma ReadersAfter(s: State, t: Tid, pc: Pc)
    ensures Readers(Goto(s, t, pc)) == if pc.Reading? then Readers(s) + {t} else Readers(s) - {t}
    ensures Writers(Goto(s, t, pc)) == if pc.Writing? then Writers(s) + {t} else Writers(s) - {t}
    ensures Readers(Gone(s, t)) == Readers(s) - {t} && Writers(Gone(s, t)) == Writers(s) - {t}
  {
  }

  /** Steps that only change what a thread without the lock is about to do. */
  lemma Wandering(s: State, t: Tid, pc: Pc)
    requires Inv(s) && SeenOk(pc) && !pc.Reading? && !pc.Writing?
    requires t in s.threads ==> !s.threads[t].Reading? && !s.threads[t].Writing?
    requires InLock(s, t) ==> pc.LockLoad? || pc.LockSwap?
    ensures Inv(Goto(s, t, pc))
  {
    var s' := Goto(s, t, pc);
    ReadersAfter(s, t, pc);
    assert Readers(s') == Readers(s) && Writers(s') == Writers(s);
    hide Readers, Writers;
    if Pending(s) {
      var u :| InLock(s, u);
      assert InLock(s', u);
    }
  }

  lemma GivingUp(s: State, t: Tid)
    requires Inv(s) && t in s.threads && !s.threads[t].Reading? && !s.threads[t].Writing? && !InLock(s, t)
    ensures Inv(Gone(s, t))
  {
    var s' := Gone(s, t);
    ReadersAfter(s, t, SharedLoad);
    assert Readers(s') == Readers(s) && Writers(s') == Writers(s);
    hide Readers, Writers;
    if Pending(s) {
      var u :| InLock(s, u);
      assert InLock(s', u);
    }
  }

  lemma Admitting(s: State, t: Tid)
    requires Inv(s) && t in s.threads && !s.threads[t].Reading? && !s.threads[t].Writing? && s.word < READER_COUNT
    ensures Inv(Goto(s.(word := Inc(s.word)), t, Reading))
  {
    ReadersAfter(s.(word := Inc(s.word)), t, Reading);
    assert t !in Readers(s) && t !in Writers(s);
    hide Readers, Writers;
    assert Writers(s) == {};
  }

  lemma TakingOver(s: State, t: Tid)
    requires Inv(s) && t in s.threads && !s.threads[t].Reading? && !s.threads[t].Writing?
    requires s.word == 0 || s.word == WRITER_PENDING
    ensures Inv(Goto(s.(word := LOCKED_EXCLUSIVE), t, Writing))
  {
    ReadersAfter(s.(word := LOCKED_EXCLUSIVE), t, Writing);
    assert Readers(s.(word := LOCKED_EXCLUSIVE)) == Readers(s) && Writers(s.(word := LOCKED_EXCLUSIVE)) == Writers(s);
    hide Readers, Writers;
    assert |Readers(s)| == 0 && Writers(s) == {};
  }

  lemma MarkingPending(s: State, t: Tid)
    requires Inv(s) && InLock(s, t) && 0 < s.word < WRITER_PENDING
    ensures Inv(Goto(s.(word := s.word + WRITER_PENDING), t, LockLoad))
  {
    var s' := Goto(s.(word := s.word + WRITER_PENDING), t, LockLoad);
    ReadersAfter(s.(word := s.word + WRITER_PENDING), t, LockLoad);
    assert Readers(s') == Readers(s) && Writers(s') == Writers(s) && InLock(s', t);
    assert forall u :: u in s'.threads ==> SeenOk(s'.threads[u]);
    hide *;
    MarkedInv(s, s', t);
  }

  lemma MarkedInv(s: State, s': State, t: Tid)
    requires Inv(s) && 0 < s.word < WRITER_PENDING && s'.word == s.word + WRITER_PENDING && InLock(s', t)
    requires Readers(s') == Readers(s) && Writers(s') == Writers(s) && forall u :: u in s'.threads ==> SeenOk(s'.threads[u])
    ensures Inv(s')
  {
    hide Readers, Writers, InLock, SeenOk;
  }

  lemma LeavingShared(s: State, t: Tid)
    requires Inv(s) && t in s.threads && s.threads[t].Reading?
    ensures 0 < s.word < LOCKED_EXCLUSIVE && Inv(Gone(s.(word := Dec(s.word)), t))
  {
    var s' := Gone(s.(word := Dec(s.word)), t);
    ReadersAfter(s.(word := Dec(s.word)), t, SharedLoad);
    assert t in Readers(s) && t !in Writers(s);
    assert Readers(s') == Readers(s) - {t} && Writers(s') == Writers(s);
    hide Readers, Writers;
    assert |Readers(s)| > 0;
    if Pending(s) {
      var u :| InLock(s, u);
      assert InLock(s', u);
    }
  }

  lemma LeavingExclusive(s: State, t: Tid)
    requires Inv(s) && t in s.threads && s.threads[t].Writing?
    ensures s.word == LOCKED_EXCLUSIVE && Inv(Gone(s.(word := 0), t))
  {
    var s' := Gone(s.(word := 0), t);
    ReadersAfter(s.(word := 0), t, SharedLoad);
    assert t in Writers(s);
    assert Readers(s') == Readers(s) - {t} && Writers(s') == Writers(s) - {t};
    assert Writers(s) != {};
    hide Readers, Writers;
    assert s.word == LOCKED_EXCLUSIVE;
    forall u | u in Writers(s) ensures u == t { Pair(Writers(s), t, u); }
    assert Writers(s) - {t} == {} && Readers(s) - {t} == {};
    assert |Readers(s')| == 0;
  }

  lemma SharedKept(s: State, t: Tid, s': State)
    requires Inv(s) && t in s.threads && SharedStep(s, t, s')
    ensures Inv(s')
  {
    assert SeenOk(s.threads[t]);
    hide Inv;
    match s.threads[t]
    case TrySharedLoad =>
      if s.word >= READER_COUNT { GivingUp(s, t); } else { Wandering(s, t, TrySharedSwap(s.word)); }
    case TrySharedSwap(seen) =>
      if s.word == seen { Admitting(s, t); } else { GivingUp(s, t); }
    case SharedLoad =>
      if s.word < READER_COUNT { Wandering(s, t, SharedSwap(s.word)); }
    case SharedSwap(seen) =>
      Wandering(s, t, SharedLoad);
      if s.word == seen { Admitting(s, t); }
    case Reading =>
      LeavingShared(s, t);
  }

  /** What lock() and try_lock() conclude from the word they have loaded. */
  lemma LoadSeen(s: State)
    requires Inv(s)
    ensures s.word <= LOCKED_EXCLUSIVE
    ensures And(s.word, LOCKED_EXCLUSIVE) == 0 ==> s.word < LOCKED_EXCLUSIVE
    ensures And(s.word, LOCKED_EXCLUSIVE) == 0 && And(s.word, READER_COUNT) == 0 ==> s.word == 0 || s.word == WRITER_PENDING
    ensures And(s.word, LOCKED_EXCLUSIVE) == 0 && And(s.word, READER_COUNT) != 0 && And(s.word, WRITER_PENDING) == 0 ==>
      0 < s.word < WRITER_PENDING && WithPending(s.word) == s.word + WRITER_PENDING
  {
    WordBits(s.word);
    hide And, Or, Readers, Writers, InLock;
  }

  lemma TryKept(s: State, t: Tid, s': State)
    requires Inv(s) && t in s.threads && (s.threads[t].TryLoad? || s.threads[t].TrySwap?) && ExclusiveStep(s, t, s')
    ensures Inv(s')
  {
    assert SeenOk(s.threads[t]);
    LoadSeen(s);
    hide Inv, And, WithPending;
    if s.threads[t].TryLoad? {
      if And(s.word, LOCKED_EXCLUSIVE) != 0 || And(s.word, READER_COUNT) != 0 {
        GivingUp(s, t);
      } else {
        Wandering(s, t, TrySwap(s.word));
      }
    } else if s.word == s.threads[t].seen {
      TakingOver(s, t);
    } else {
      GivingUp(s, t);
    }
  }

  lemma LockLoadKept(s: State, t: Tid, s': State)
    requires Inv(s) && t in s.threads && s.threads[t].LockLoad? && ExclusiveStep(s, t, s')
    ensures Inv(s')
  {
    LoadSeen(s);
    hide Inv, And, WithPending;
    if And(s.word, LOCKED_EXCLUSIVE) == 0 {
      if And(s.word, READER_COUNT) == 0 {
        Wandering(s, t, LockSwap(s.word, LOCKED_EXCLUSIVE));
      } else if And(s.word, WRITER_PENDING) == 0 {
        Wandering(s, t, LockSwap(s.word, WithPending(s.word)));
      }
    }
  }

  lemma ExclusiveKept(s: State, t: Tid, s': State)
    requires Inv(s) && t in s.threads && ExclusiveStep(s, t, s')
    ensures Inv(s')
  {
    assert SeenOk(s.threads[t]);
    hide Inv, And, WithPending;
    match s.threads[t]
    case TryLoad => TryKept(s, t, s');
    case TrySwap(_) => TryKept(s, t, s');
    case LockLoad => LockLoadKept(s, t, s');
    case LockSwap(seen, wanted) =>
      Wandering(s, t, LockLoad);
      if s.word == seen {
        if wanted == LOCKED_EXCLUSIVE { TakingOver(s, t); } else { MarkingPending(s, t); }
      }
    case Writing =>
      LeavingExclusive(s, t);
  }

  lemma NextKept(s: State, s': State)
    requires Inv(s) && Next(s, s')
    ensures Inv(s')
  {
    var t :| Moves(s, t, s');
    hide Inv, SharedStep, ExclusiveStep;
    if Call(s, t, s') {
      var pc :| Entry(pc) && s' == Goto(s, t, pc);
      Wandering(s, t, pc);
    } else if SharedStep(s, t, s') {
      SharedKept(s, t, s');
    } else {
      ExclusiveKept(s, t, s');
    }
  }

  /* ---------- theorems ---------- */

  ghost predicate Run(r: seq<State>) {
    && |r| > 0 && r[0] == INITIAL
    && forall i :: 0 <= i < |r| - 1 ==> Next(r[i], r[i + 1])
  }

  lemma {:induction false} RunInv(r: seq<State>, i: nat)
    requires Run(r) && i < |r|
    ensures Inv(r[i])
  {
    hide Next, Inv;
    if i == 0 {
      InitialInv();
    } else {
      RunInv(r, i - 1);
      assert Next(r[i - 1], r[i - 1 + 1]);
      NextKept(r[i - 1], r[i]);
    }
  }

  lemma InitialInv()
    ensures Inv(INITIAL)
  {
    assert Readers(INITIAL) == {} && Writers(INITIAL) == {};
  }

  /** At most one thread holds the lock exclusively, and never while another holds it shared. */
  lemma MutualExclusion(r: seq<State>, i: nat, t: Tid, u: Tid)
    requires Run(r) && i < |r| && t in Writers(r[i]) && u in Writers(r[i]) + Readers(r[i])
    ensures t == u
  {
    RunInv(r, i);
    hide Run, Readers, InLock;
    if t != u {
      assert {t, u} <= Writers(r[i]);
      Pair(Writers(r[i]), t, u);
    }
  }

  lemma Pair(s: set<Tid>, t: Tid, u: Tid)
    requires t in s && u in s && |s| == 1
    ensures t == u
  {
    assert |s - {t}| == 0;
  }

  /** The word is exactly the exclusive bit while a writer holds the lock (so that storing 0 loses nothing), and
      otherwise the number of readers plus possibly the pending bit, with no carry from one into the other. */
  lemma WordExact(r: seq<State>, i: nat)
    requires Run(r) && i < |r|
    ensures var s := r[i];
      && (s.word == LOCKED_EXCLUSIVE <==> Writers(s) != {})
      && (Writers(s) == {} ==>
            |Readers(s)| <= READER_COUNT && s.word == |Readers(s)| + if Pending(s) then WRITER_PENDING else 0)
  {
    RunInv(r, i);
    hide Run, Readers, Writers, InLock;
  }

  /** A pending bit always has a thread inside lock() to answer for it. */
  lemma PendingHasWaiter(r: seq<State>, i: nat)
    requires Run(r) && i < |r| && Pending(r[i])
    ensures exists t :: InLock(r[i], t)
  {
    RunInv(r, i);
    hide Run, InLock;
  }

  lemma PendingShared(s: State, t: Tid, s': State)
    requires Inv(s) && Pending(s) && t in s.threads && SharedStep(s, t, s')
    ensures Pending(s') && Readers(s') <= Readers(s)
  {
    assert SeenOk(s.threads[t]);
    if s.threads[t].Reading? {
      LeavingPending(s, t);
    }
    hide Inv;
  }

  lemma LeavingPending(s: State, t: Tid)
    requires Inv(s) && Pending(s) && t in s.threads && s.threads[t].Reading?
    ensures s.word > WRITER_PENDING
  {
    assert t in Readers(s);
    hide Readers, Writers, InLock;
    assert |Readers(s)| > 0;
  }

  lemma PendingExclusive(s: State, t: Tid, s': State)
    requires Inv(s) && Pending(s) && t in s.threads && ExclusiveStep(s, t, s')
    ensures Writers(s') != {} || (Pending(s') && Readers(s') <= Readers(s))
  {
    assert SeenOk(s.threads[t]);
    if s.threads[t].Writing? {
      LeavingExclusive(s, t);
    }
    hide Inv, And, WithPending;
    if t in s'.threads && s'.threads[t].Writing? {
      assert t in Writers(s');
    }
  }

  /** While the pending bit is set, a step either lets a writer in, or keeps the bit and admits no reader. */
  lemma PendingStep(s: State, s': State)
    requires Inv(s) && Pending(s) && Next(s, s')
    ensures Writers(s') != {} || (Pending(s') && Readers(s') <= Readers(s))
  {
    var t :| Moves(s, t, s');
    hide Inv, SharedStep, ExclusiveStep;
    if Call(s, t, s') {
      var pc :| Entry(pc) && s' == Goto(s, t, pc);
      ReadersAfter(s, t, pc);
    } else if SharedStep(s, t, s') {
      PendingShared(s, t, s');
    } else {
      PendingExclusive(s, t, s');
    }
  }

  /** Once the pending bit is set, readers only leave until some writer acquires the lock. */
  lemma {:induction false} PendingDrains(r: seq<State>, i: nat, j: nat)
    requires Run(r) && i <= j < |r| && Pending(r[i])
    requires forall k :: i <= k <= j ==> Writers(r[k]) == {}
    ensures Pending(r[j]) && Readers(r[j]) <= Readers(r[i])
  {
    if i < j {
      PendingDrains(r, i, j - 1);
      RunInv(r, j - 1);
      assert Next(r[j - 1], r[j - 1 + 1]);
      hide Run, Next, Inv, Pending, Readers, Writers;
      PendingStep(r[j - 1], r[j]);
    }
  }

  /* ---------- the lock other components rely on ---------- */

  /** The abstract readers-writer lock. */
  ghost function View(s: State): CT.Access {
    CT.Access(if Writers(s) == {} then None else Some(Holder(Writers(s))), Readers(s), 0)
  }

  ghost function Holder(writers: set<Tid>): (t: Tid)
    requires writers != {}
    ensures t in writers
  {
    var t :| t in writers;
    t
  }

  ghost predicate LockStep(before: CT.Access, t: Tid, after: CT.Access) {
    || after == before
    || (exists exclusive :: CT.FreeFor(before, exclusive) && after == CT.Acquired(before, t, exclusive))
    || after == CT.Released(before, t)
  }

  lemma SameView(s: State, s': State)
    requires Readers(s') == Readers(s) && Writers(s') == Writers(s)
    ensures View(s') == View(s)
  {
    hide Readers, Writers;
  }

  lemma OnlyHolder(s: State, t: Tid)
    requires Inv(s) && t in Writers(s)
    ensures Writers(s) == {t} && Readers(s) == {} && View(s) == CT.Access(Some(t), {}, 0)
  {
    hide Readers, Writers, InLock;
    forall u | u in Writers(s) ensures u == t { Pair(Writers(s), t, u); }
  }

  lemma ReaderIn(s: State, t: Tid, s': State)
    requires Inv(s) && Inv(s') && t !in Readers(s) && Readers(s') == Readers(s) + {t} && Writers(s') == Writers(s)
    ensures LockStep(View(s), t, View(s'))
  {
    hide Readers, Writers, InLock;
    assert t in Readers(s');
    assert Writers(s) == {};
    assert CT.FreeFor(View(s), false) && View(s') == CT.Acquired(View(s), t, false);
  }

  lemma WriterIn(s: State, t: Tid, s': State)
    requires Inv(s) && Inv(s') && t in Writers(s') && Readers(s') == Readers(s) && Writers(s) == {}
    ensures LockStep(View(s), t, View(s'))
  {
    OnlyHolder(s', t);
    hide Readers, Writers, InLock, Inv;
    assert CT.FreeFor(View(s), true) && View(s') == CT.Acquired(View(s), t, true);
  }

  lemma HolderOut(s: State, t: Tid, s': State)
    requires Inv(s) && t in Readers(s) + Writers(s) && Readers(s') == Readers(s) - {t} && Writers(s') == Writers(s) - {t}
    ensures LockStep(View(s), t, View(s'))
  {
    if t in Writers(s) {
      OnlyHolder(s, t);
      hide Readers, Writers, InLock, Inv;
      assert Writers(s') == {} && Readers(s') == {};
    } else {
      hide Readers, Writers, InLock;
      assert Writers(s) == {};
    }
  }

  lemma NoWriter(s: State)
    requires Inv(s)
    ensures s.word != LOCKED_EXCLUSIVE ==> Writers(s) == {}
  {
    hide Readers, Writers, InLock;
  }

  lemma MoveEffect(s: State, t: Tid, s': State)
    requires Inv(s) && Moves(s, t, s')
    ensures forall u :: u != t ==> (u in Readers(s') <==> u in Readers(s)) && (u in Writers(s') <==> u in Writers(s))
    ensures t in Readers(s) + Writers(s) ==> t !in Readers(s') + Writers(s')
    ensures t in Writers(s') ==> s.word != LOCKED_EXCLUSIVE
    ensures t in Writers(s') ==> t !in Readers(s')
  {
    hide Inv, SharedStep, ExclusiveStep, Readers, Writers;
    if Call(s, t, s') {
      CallEffect(s, t, s');
    } else if SharedStep(s, t, s') {
      SharedEffect(s, t, s');
    } else {
      ExclusiveEffect(s, t, s');
    }
  }

  lemma CallEffect(s: State, t: Tid, s': State)
    requires Call(s, t, s')
    ensures forall u :: u != t ==> (u in Readers(s') <==> u in Readers(s)) && (u in Writers(s') <==> u in Writers(s))
    ensures t in Readers(s) + Writers(s) ==> t !in Readers(s') + Writers(s')
    ensures t in Writers(s') ==> s.word != LOCKED_EXCLUSIVE
    ensures t in Writers(s') ==> t !in Readers(s')
  {
  }

  lemma SharedEffect(s: State, t: Tid, s': State)
    requires t in s.threads && SharedStep(s, t, s')
    ensures forall u :: u != t ==> (u in Readers(s') <==> u in Readers(s)) && (u in Writers(s') <==> u in Writers(s))
    ensures t in Readers(s) + Writers(s) ==> t !in Readers(s') + Writers(s')
    ensures t in Writers(s') ==> s.word != LOCKED_EXCLUSIVE
    ensures t in Writers(s') ==> t !in Readers(s')
  {
    hide And, WithPending;
  }

  lemma ExclusiveEffect(s: State, t: Tid, s': State)
    requires Inv(s) && t in s.threads && ExclusiveStep(s, t, s')
    ensures forall u :: u != t ==> (u in Readers(s') <==> u in Readers(s)) && (u in Writers(s') <==> u in Writers(s))
    ensures t in Readers(s) + Writers(s) ==> t !in Readers(s') + Writers(s')
    ensures t in Writers(s') ==> s.word != LOCKED_EXCLUSIVE
    ensures t in Writers(s') ==> t !in Readers(s')
  {
    assert SeenOk(s.threads[t]);
    hide Inv, And, WithPending;
  }

  /** Every step is invisible through the abstract lock, or acquires it when it is free, or releases it. */
  lemma RefinesLock(s: State, t: Tid, s': State)
    requires Inv(s) && Moves(s, t, s')
    ensures Inv(s') && LockStep(View(s), t, View(s'))
  {
    hide *;
    MovesKept(s, t, s');
    MoveSets(s, t, s');
    if t in Readers(s) + Writers(s) {
      HolderOut(s, t, s');
    } else if t in Readers(s') {
      ReaderIn(s, t, s');
    } else if t in Writers(s') {
      NoWriter(s);
      WriterIn(s, t, s');
    } else {
      SameView(s, s');
      Stutter(View(s), t);
    }
  }

  lemma MovesKept(s: State, t: Tid, s': State)
    requires Inv(s) && Moves(s, t, s')
    ensures Inv(s')
  {
    hide Inv, Moves;
    assert Next(s, s');
    NextKept(s, s');
  }

  /** The effect of a step on the sets of holders. */
  lemma MoveSets(s: State, t: Tid, s': State)
    requires Inv(s) && Moves(s, t, s')
    ensures t in Readers(s) + Writers(s) ==> Readers(s') == Readers(s) - {t} && Writers(s') == Writers(s) - {t}
    ensures t !in Readers(s) + Writers(s) && t in Readers(s') ==> Readers(s') == Readers(s) + {t} && Writers(s') == Writers(s)
    ensures t !in Readers(s) + Writers(s) && t in Writers(s') ==> Readers(s') == Readers(s) && s.word != LOCKED_EXCLUSIVE
    ensures t !in Readers(s) + Writers(s) + Readers(s') + Writers(s') ==> Readers(s') == Readers(s) && Writers(s') == Writers(s)
  {
    hide *;
    MoveEffect(s, t, s');
    SetChange(Readers(s), Writers(s), Readers(s'), Writers(s'), t);
  }

  lemma SetChange(r: set<Tid>, w: set<Tid>, r': set<Tid>, w': set<Tid>, t: Tid)
    requires forall u :: u != t ==> (u in r' <==> u in r) && (u in w' <==> u in w)
    requires (t in r + w ==> t !in r' + w') && (t in w' ==> t !in r')
    ensures t in r + w ==> r' == r - {t} && w' == w - {t}
    ensures t !in r + w && t in r' ==> r' == r + {t} && w' == w
    ensures t !in r + w && t in w' ==> r' == r
    ensures t !in r + w + r' + w' ==> r' == r && w' == w
  {
  }

  lemma Stutter(a: CT.Access, t: Tid)
    ensures LockStep(a, t, a)
  {
  }

  /** A thread in lock() that runs undisturbed while nobody holds the lock gets it in two steps. */
  lemma LockObtainable(s: State, t: Tid) returns (s1: State, s2: State)
    requires Inv(s) && t in s.threads && s.threads[t].LockLoad? && Readers(s) == {} && Writers(s) == {}
    ensures Moves(s, t, s1) && Moves(s1, t, s2) && t in Writers(s2)
  {
    assert s.word == 0 || s.word == WRITER_PENDING by { hide Readers, Writers, InLock; }
    WordBits(s.word);
    s1 := Goto(s, t, LockSwap(s.word, LOCKED_EXCLUSIVE));
    s2 := Goto(s1.(word := LOCKED_EXCLUSIVE), t, Writing);
    hide And, Or, Inv;
  }

  /** So does a thread in lock_shared() while there is no writer, neither holding nor pending, and the count is not full. */
  lemma SharedObtainable(s: State, t: Tid) returns (s1: State, s2: State)
    requires Inv(s) && t in s.threads && s.threads[t].SharedLoad?
    requires Writers(s) == {} && !Pending(s) && |Readers(s)| < READER_COUNT
    ensures Moves(s, t, s1) && Moves(s1, t, s2) && t in Readers(s2)
  {
    assert s.word < READER_COUNT by { hide Readers, Writers, InLock; }
    s1 := Goto(s, t, SharedSwap(s.word));
    s2 := Goto(s1.(word := Inc(s.word)), t, Reading);
    hide Inv;
  }

  /* ---------- writers are not kept waiting by new readers ---------- */

  /** The word of a lock held by readers only. */
  lemma ReadersWord(s: State)
    requires Inv(s) && Readers(s) != {} && !Pending(s)
    ensures Writers(s) == {} && 0 < s.word < WRITER_PENDING
  {
    hide Readers, Writers, InLock;
    assert |Readers(s)| > 0;
  }

  /** A thread in lock() that finds the lock shared, nobody waiting, announces itself: its next load leads to nothing else,
      and unless its compare-exchange fails, the writer-pending bit is set, for the readers that are there. */
  lemma PendingRaised(s: State, t: Tid, s1: State) returns (s2: State)
    requires Inv(s) && t in s.threads && s.threads[t].LockLoad? && Readers(s) != {} && !Pending(s) && Moves(s, t, s1)
    ensures Moves(s1, t, s2) && Pending(s2) && InLock(s2, t) && Readers(s2) == Readers(s)
    ensures forall x :: Moves(s1, t, x) ==> x == s2 || x == s
  {
    ReadersWord(s);
    RaisingLoad(s, t, s1);
    s2 := Goto(s1.(word := s.word + WRITER_PENDING), t, LockLoad);
    ReadersAfter(s, t, LockSwap(s.word, s.word + WRITER_PENDING));
    ReadersAfter(s1.(word := s.word + WRITER_PENDING), t, LockLoad);
    assert Readers(s2) == Readers(s) by { assert t !in Readers(s); }
    RaisingSwap(s, t, s1, s2);
    hide *;
  }

  lemma RaisingLoad(s: State, t: Tid, s1: State)
    requires 0 < s.word < WRITER_PENDING && t in s.threads && s.threads[t].LockLoad? && Moves(s, t, s1)
    ensures s1 == Goto(s, t, LockSwap(s.word, s.word + WRITER_PENDING))
  {
    WordBits(s.word);
    hide And, Or;
  }

  lemma RaisingSwap(s: State, t: Tid, s1: State, s2: State)
    requires 0 < s.word < WRITER_PENDING && t in s.threads && s.threads[t].LockLoad?
    requires s1 == Goto(s, t, LockSwap(s.word, s.word + WRITER_PENDING))
    requires s2 == Goto(s1.(word := s.word + WRITER_PENDING), t, LockLoad)
    ensures Moves(s1, t, s2) && Pending(s2) && InLock(s2, t)
    ensures forall x :: Moves(s1, t, x) ==> x == s2 || x == s
  {
    assert s1.threads[t := LockLoad] == s.threads;
  }

  /** When the last reader leaves a lock with the bit set, a thread in lock() gets the lock in two steps, and until it has
      done so no thread is admitted as a reader, whatever it does. */
  lemma PendingHandsOver(s: State, u: Tid, t: Tid, s1: State) returns (s2: State, s3: State)
    requires Inv(s) && Pending(s) && Readers(s) == {u} && t in s.threads && s.threads[t].LockLoad? && Moves(s, u, s1)
    ensures Moves(s1, t, s2) && Moves(s2, t, s3) && t in Writers(s3)
    ensures forall v, x :: Moves(s1, v, x) || Moves(s2, v, x) ==> Readers(x) == {}
  {
    hide *;
    LastLeaves(s, u, t, s1);
    s2, s3 := LockObtainable(s1, t);
    FirstLoad(s1, t, s2);
    forall v, x | Moves(s1, v, x) || Moves(s2, v, x) ensures Readers(x) == {} {
      if Moves(s1, v, x) { NoneAdmitted(s1, v, x); } else { NoneAdmitted(s2, v, x); }
    }
  }

  lemma LastLeaves(s: State, u: Tid, t: Tid, s1: State)
    requires Inv(s) && Pending(s) && Readers(s) == {u} && t in s.threads && s.threads[t].LockLoad? && Moves(s, u, s1)
    ensures Inv(s1) && Pending(s1) && Readers(s1) == {} && Writers(s1) == {} && t in s1.threads && s1.threads[t].LockLoad?
  {
    MovesKept(s, u, s1);
    assert u in Readers(s) && s.threads[u].Reading?;
    assert s1 == Gone(s.(word := Dec(s.word)), u);
    ReadersAfter(s.(word := Dec(s.word)), u, SharedLoad);
    assert |Readers(s)| == 1;
    hide Readers, Writers, InLock;
  }

  lemma FirstLoad(s: State, t: Tid, s': State)
    requires Inv(s) && Pending(s) && Readers(s) == {} && t in s.threads && s.threads[t].LockLoad? && Moves(s, t, s')
    ensures Inv(s') && Pending(s') && Readers(s') == {}
  {
    MovesKept(s, t, s');
    assert s.word == WRITER_PENDING by { hide Readers, Writers, InLock; }
    WordBits(s.word);
    ReadersAfter(s, t, LockSwap(s.word, LOCKED_EXCLUSIVE));
    hide And, Or, Inv, WithPending;
  }

  lemma NoneAdmitted(s: State, v: Tid, x: State)
    requires Inv(s) && Pending(s) && Readers(s) == {} && Moves(s, v, x)
    ensures Readers(x) == {}
  {
    MovesKept(s, v, x);
    hide Moves, Readers, InLock;
    assert Next(s, x);
    PendingStep(s, x);
  }

  /** try_lock(): in one load the answer is no, if somebody holds the lock; if nobody does, the lock is had in the next
      step, when nothing comes in between. */
  lemma TryLockAnswers(s: State, t: Tid, s1: State)
    requires Inv(s) && t in s.threads && s.threads[t].TryLoad? && Moves(s, t, s1)
    ensures t in s1.threads <==> Readers(s) == {} && Writers(s) == {}
    ensures t in s1.threads ==> s1.word == s.word && forall x :: Moves(s1, t, x) ==> t in Writers(x)
  {
    assert s.word == 0 || s.word == WRITER_PENDING <==> Readers(s) == {} && Writers(s) == {} by { FreeWord(s); }
    WordBits(s.word);
    hide And, Or, Inv, Readers;
  }

  lemma FreeWord(s: State)
    requires Inv(s)
    ensures s.word == 0 || s.word == WRITER_PENDING <==> Readers(s) == {} && Writers(s) == {}
    ensures s.word <= LOCKED_EXCLUSIVE
  {
    hide Readers, Writers, InLock;
    assert Readers(s) == {} <==> |Readers(s)| == 0;
    assert |Writers(s)| == 1 ==> Writers(s) != {};
  }

  /** try_lock_shared() likewise: the answer is no if a writer holds or waits, or the count is full. */
  lemma TrySharedAnswers(s: State, t: Tid, s1: State)
    requires Inv(s) && t in s.threads && s.threads[t].TrySharedLoad? && Moves(s, t, s1)
    ensures t in s1.threads <==> Writers(s) == {} && !Pending(s) && |Readers(s)| < READER_COUNT
    ensures t in s1.threads ==> s1.word == s.word && forall x :: Moves(s1, t, x) ==> t in Readers(x)
  {
    assert s.word < READER_COUNT <==> Writers(s) == {} && !Pending(s) && |Readers(s)| < READER_COUNT by { AdmittingWord(s); }
    hide And, Or, Inv, Writers;
  }

  lemma AdmittingWord(s: State)
    requires Inv(s)
    ensures s.word < READER_COUNT <==> Writers(s) == {} && !Pending(s) && |Readers(s)| < READER_COUNT
  {
    hide Readers, Writers, InLock;
    assert |Writers(s)| == 1 ==> Writers(s) != {};
  }
}
