/** The two levels of locking of concurrent tables: the 128 mutexes of each container, and one lock per group. */
module ContainerLocks {
  import opened Pow2Arith

  type Tid = nat
  /** Address of a container's multimutex. */
  type Address = nat

  const MUTEXES := 128

  datatype Lock = Mutex(container: Address, index: nat) | GroupLock(container: Address, group: nat)

  /** Mutexes in the order multimutex::lock takes them. */
  function AllOf(c: Address): (locks: seq<Lock>)
    ensures |locks| == MUTEXES && forall i :: 0 <= i < MUTEXES ==> locks[i] == Mutex(c, i)
  {
    seq(MUTEXES, i requires 0 <= i < MUTEXES => Mutex(c, i))
  }

  /** Mutexes in the order scoped_bilock takes them. */
  function BilockOrder(m1: Address, m2: Address): seq<Lock> {
    var pm1 := if m1 < m2 then m1 else m2;
    if m1 == m2 then AllOf(pm1)
    else
      var pm2 := if m1 < m2 then m2 else m1;
      AllOf(pm1) + AllOf(pm2)
  }

  function Rank(lock: Lock): nat {
    lock.container * MUTEXES + if lock.Mutex? then lock.index else 0
  }

  /** scoped_bilock takes its mutexes in strictly increasing (address, index) order, each exactly once. */
  lemma BilockOrdered(m1: Address, m2: Address)
    ensures var order := BilockOrder(m1, m2);
      && (forall i, j :: 0 <= i < j < |order| ==> Rank(order[i]) < Rank(order[j]))
      && (forall lock: Lock :: lock in order <==> lock.Mutex? && lock.index < MUTEXES && (lock.container == m1 || lock.container == m2))
  {
    var order := BilockOrder(m1, m2);
    forall lock: Lock | lock.Mutex? && lock.index < MUTEXES && (lock.container == m1 || lock.container == m2)
      ensures lock in order
    {
      assert lock == AllOf(lock.container)[lock.index];
      if lock.container == (if m1 < m2 then m1 else m2) {
        assert order[lock.index] == lock;
      } else {
        assert order[MUTEXES + lock.index] == lock;
      }
    }
  }

  /** Work under shared access: a mutex chosen by thread id, then group locks, one at a time. */
  datatype Stage = Waiting | Inside | WaitingGroup(g: nat, exclusive: bool) | InsideGroup(g: nat, exclusive: bool)

  /** taken is how many of the mutexes in order the thread holds. */
  datatype Work =
    | Sharing(container: Address, id: nat, stage: Stage)
    | Excluding(m1: Address, m2: Address, taken: nat, releasing: bool)

  type State = map<Tid, Work>

  /* ---------- what a thread holds and waits for ---------- */

  ghost predicate HoldsShared(w: Work, lock: Lock) {
    w.Sharing? &&
    ((!w.stage.Waiting? && lock == Mutex(w.container, w.id)) ||
     (w.stage.InsideGroup? && !w.stage.exclusive && lock == GroupLock(w.container, w.stage.g)))
  }

  ghost predicate HoldsExclusive(w: Work, lock: Lock) {
    match w
    case Sharing(c, _, stage) => stage.InsideGroup? && stage.exclusive && lock == GroupLock(c, stage.g)
    case Excluding(m1, m2, taken, _) => exists i :: 0 <= i < taken && i < |BilockOrder(m1, m2)| && BilockOrder(m1, m2)[i] == lock
  }

  ghost predicate Holds(w: Work, lock: Lock) {
    HoldsShared(w, lock) || HoldsExclusive(w, lock)
  }

  ghost predicate WantsShared(w: Work, lock: Lock) {
    w.Sharing? &&
    ((w.stage.Waiting? && lock == Mutex(w.container, w.id)) ||
     (w.stage.WaitingGroup? && !w.stage.exclusive && lock == GroupLock(w.container, w.stage.g)))
  }

  ghost predicate WantsExclusive(w: Work, lock: Lock) {
    match w
    case Sharing(c, _, stage) => stage.WaitingGroup? && stage.exclusive && lock == GroupLock(c, stage.g)
    case Excluding(m1, m2, taken, releasing) => !releasing && taken < |BilockOrder(m1, m2)| && BilockOrder(m1, m2)[taken] == lock
  }

  /** Nobody holds the lock. */
  ghost predicate Unheld(s: State, lock: Lock) {
    forall u :: u in s ==> !Holds(s[u], lock)
  }

  ghost predicate NoWriter(s: State, lock: Lock) {
    forall u :: u in s ==> !HoldsExclusive(s[u], lock)
  }

  /** A waiting writer may hold back new readers (the spinlock's pending bit). */
  ghost predicate NoPending(s: State, lock: Lock) {
    forall u :: u in s ==> !WantsExclusive(s[u], lock)
  }

  /* ---------- steps ---------- */

  ghost predicate Begin(s: State, t: Tid, s': State) {
    t !in s &&
    ((exists c: Address, id: nat :: id < MUTEXES && s' == s[t := Sharing(c, id, Waiting)]) ||
     (exists m1: Address, m2: Address :: s' == s[t := Excluding(m1, m2, 0, false)]))
  }

  ghost predicate SharingStep(s: State, t: Tid, s': State)
    requires t in s && s[t].Sharing?
  {
    var w := s[t];
    match w.stage
    case Waiting =>
      NoWriter(s, Mutex(w.container, w.id)) && s' == s[t := w.(stage := Inside)]
    case Inside =>
      || s' == s - {t}
      || exists g: nat, exclusive :: s' == s[t := w.(stage := WaitingGroup(g, exclusive))]
    case WaitingGroup(g, exclusive) =>
      && (if exclusive then Unheld(s, GroupLock(w.container, g)) else NoWriter(s, GroupLock(w.container, g)))
      && s' == s[t := w.(stage := InsideGroup(g, exclusive))]
    case InsideGroup(_, _) =>
      s' == s[t := w.(stage := Inside)]
  }

  ghost predicate ExcludingStep(s: State, t: Tid, s': State)
    requires t in s && s[t].Excluding?
  {
    var w := s[t];
    var order := BilockOrder(w.m1, w.m2);
    if !w.releasing && w.taken < |order| then
      Unheld(s, order[w.taken]) && s' == s[t := w.(taken := w.taken + 1)]
    else if w.taken > 0 then
      s' == s[t := w.(taken := w.taken - 1, releasing := true)]
    else
      s' == s - {t}
  }

  ghost predicate Moves(s: State, t: Tid, s': State) {
    t in s && if s[t].Sharing? then SharingStep(s, t, s') else ExcludingStep(s, t, s')
  }

  ghost predicate Next(s: State, s': State) {
    exists t :: Begin(s, t, s') || Moves(s, t, s')
  }

  /** A thread in scoped_bilock gives no mutex back before it has had all of them. */
  lemma TakesAll(s: State, t: Tid, s': State)
    requires Moves(s, t, s') && s[t].Excluding? && !s[t].releasing && s[t].taken < |BilockOrder(s[t].m1, s[t].m2)|
    ensures t in s' && s'[t] == s[t].(taken := s[t].taken + 1) && Unheld(s, BilockOrder(s[t].m1, s[t].m2)[s[t].taken])
  {
    hide Unheld, BilockOrder;
  }

  /* ---------- exclusion ---------- */

  ghost predicate Inv(s: State) {
    && (forall t :: t in s && s[t].Sharing? ==> s[t].id < MUTEXES)
    && (forall t :: t in s && s[t].Excluding? ==> s[t].taken <= |BilockOrder(s[t].m1, s[t].m2)|)
    && forall t, u, lock :: t in s && u in s && t != u && HoldsExclusive(s[t], lock) ==> !Holds(s[u], lock)
  }

  /** A step only adds holdings that conflict with nobody. */
  lemma HoldingsOf(s: State, t: Tid, s': State)
    requires Inv(s) && Moves(s, t, s')
    ensures forall u :: u != t ==> (u in s' <==> u in s) && (u in s ==> s'[u] == s[u])
    ensures t in s' ==> forall lock :: HoldsExclusive(s'[t], lock) ==> HoldsExclusive(s[t], lock) || Unheld(s, lock)
    ensures t in s' ==> forall lock :: HoldsShared(s'[t], lock) ==> HoldsShared(s[t], lock) || NoWriter(s, lock)
    ensures t in s' && s'[t].Sharing? ==> s'[t].id < MUTEXES
    ensures t in s' && s'[t].Excluding? ==> s'[t].taken <= |BilockOrder(s'[t].m1, s'[t].m2)|
  {
    hide Unheld, NoWriter, BilockOrder;
  }

  lemma BeginKept(s: State, t: Tid, s': State)
    requires Inv(s) && Begin(s, t, s')
    ensures Inv(s')
  {
    hide BilockOrder;
    assert forall lock :: !Holds(s'[t], lock);
  }

  lemma MovesKept(s: State, t: Tid, s': State)
    requires Inv(s) && Moves(s, t, s')
    ensures Inv(s')
  {
    HoldingsOf(s, t, s');
    hide Moves, HoldsExclusive, HoldsShared, BilockOrder;
    forall u, v, lock | u in s' && v in s' && u != v && HoldsExclusive(s'[u], lock) ensures !Holds(s'[v], lock) {
      assert v != t ==> s'[v] == s[v];
    }
  }

  lemma Kept(s: State, s': State)
    requires Inv(s) && Next(s, s')
    ensures Inv(s')
  {
    hide Inv, Begin, Moves;
    var t :| Begin(s, t, s') || Moves(s, t, s');
    if Begin(s, t, s') {
      BeginKept(s, t, s');
    } else {
      MovesKept(s, t, s');
    }
  }

  ghost predicate Run(r: seq<State>) {
    && |r| > 0 && r[0] == map[]
    && forall i :: 0 <= i < |r| - 1 ==> Next(r[i], r[i + 1])
  }

  lemma {:induction false} RunInv(r: seq<State>, i: nat)
    requires Run(r) && i < |r|
    ensures Inv(r[i])
  {
    if i > 0 {
      RunInv(r, i - 1);
      assert Next(r[i - 1], r[i - 1 + 1]);
      hide Run, Next, Inv;
      Kept(r[i - 1], r[i]);
    }
  }

  /** Inside the container, by whatever access. */
  predicate Within(w: Work, c: Address) {
    match w
    case Sharing(container, _, stage) => container == c && !stage.Waiting?
    case Excluding(m1, m2, taken, releasing) => (m1 == c || m2 == c) && !releasing && taken == |BilockOrder(m1, m2)|
  }

  /** Exclusive access to a container (alone or together with another) shuts out every other access to it. */
  lemma ExclusiveShutsOut(r: seq<State>, i: nat, t: Tid, u: Tid, c: Address)
    requires Run(r) && i < |r| && t in r[i] && u in r[i]
    requires r[i][t].Excluding? && Within(r[i][t], c) && Within(r[i][u], c)
    ensures t == u
  {
    RunInv(r, i);
    var w, v := r[i][t], r[i][u];
    var lock := if v.Sharing? then Mutex(c, v.id) else Mutex(c, 0);
    HoldsAll(w, lock, c);
    if v.Excluding? {
      HoldsAll(v, lock, c);
    }
    hide Run, BilockOrder;
    assert Holds(v, lock);
  }

  lemma HoldsAll(w: Work, lock: Lock, c: Address)
    requires w.Excluding? && Within(w, c) && lock.Mutex? && lock.container == c && lock.index < MUTEXES
    ensures HoldsExclusive(w, lock)
  {
    BilockOrdered(w.m1, w.m2);
    var order := BilockOrder(w.m1, w.m2);
    assert lock in order;
    var i :| 0 <= i < |order| && order[i] == lock;
    hide BilockOrder;
  }

  /* ---------- deadlock freedom ---------- */

  /** The thread's next step can be taken, even if waiting writers hold back new readers. */
  ghost predicate Enabled(s: State, t: Tid) {
    && t in s
    && (forall lock :: WantsShared(s[t], lock) ==> NoWriter(s, lock) && NoPending(s, lock))
    && (forall lock :: WantsExclusive(s[t], lock) ==> Unheld(s, lock))
  }

  /** Enabled threads can indeed move. */
  lemma EnabledMoves(s: State, t: Tid)
    requires Inv(s) && Enabled(s, t)
    ensures exists s' :: Moves(s, t, s')
  {
    var w := s[t];
    hide Unheld, NoWriter, NoPending, BilockOrder;
    if w.Sharing? {
      match w.stage
      case Waiting =>
        assert WantsShared(w, Mutex(w.container, w.id));
        assert Moves(s, t, s[t := w.(stage := Inside)]);
      case Inside =>
        assert Moves(s, t, s - {t});
      case WaitingGroup(g, exclusive) =>
        assert if exclusive then WantsExclusive(w, GroupLock(w.container, g)) else WantsShared(w, GroupLock(w.container, g));
        assert Moves(s, t, s[t := w.(stage := InsideGroup(g, exclusive))]);
      case InsideGroup(_, _) =>
        assert Moves(s, t, s[t := w.(stage := Inside)]);
    } else {
      var order := BilockOrder(w.m1, w.m2);
      if !w.releasing && w.taken < |order| {
        assert WantsExclusive(w, order[w.taken]);
        assert Moves(s, t, s[t := w.(taken := w.taken + 1)]);
      } else if w.taken > 0 {
        assert Moves(s, t, s[t := w.(taken := w.taken - 1, releasing := true)]);
      } else {
        assert Moves(s, t, s - {t});
      }
    }
  }

  /** Waits for the next mutex of its order. */
  predicate Climbing(w: Work) {
    w.Excluding? && !w.releasing && w.taken < |BilockOrder(w.m1, w.m2)|
  }

  function WantedRank(w: Work): nat {
    if Climbing(w) then Rank(BilockOrder(w.m1, w.m2)[w.taken]) else 0
  }

  lemma {:induction false} Highest(s: State, among: set<Tid>) returns (t: Tid)
    requires among != {} && forall u :: u in among ==> u in s
    ensures t in among && forall u :: u in among ==> WantedRank(s[u]) <= WantedRank(s[t])
  {
    t :| t in among;
    if among != {t} {
      var u := Highest(s, among - {t});
      if WantedRank(s[u]) > WantedRank(s[t]) {
        t := u;
      }
    }
  }

  /** If only threads waiting for mutexes are left, the one waiting for the highest of them can have it. */
  lemma HighestEnabled(s: State, t: Tid)
    requires Inv(s) && t in s && Climbing(s[t])
    requires forall u :: u in s ==> Climbing(s[u]) || (s[u].Sharing? && s[u].stage.Waiting?)
    requires forall u :: u in s && Climbing(s[u]) ==> WantedRank(s[u]) <= WantedRank(s[t])
    ensures Enabled(s, t)
  {
    var w := s[t];
    var lock := BilockOrder(w.m1, w.m2)[w.taken];
    forall u | u in s ensures !Holds(s[u], lock) {
      if Climbing(s[u]) {
        NotAbove(s[u], lock);
      }
    }
    hide BilockOrder;
  }

  /** A climbing thread holds nothing of the rank it waits for, or above. */
  lemma NotAbove(w: Work, lock: Lock)
    requires Climbing(w) && Rank(lock) >= WantedRank(w)
    ensures !Holds(w, lock)
  {
    BilockOrdered(w.m1, w.m2);
    hide BilockOrder, Rank;
  }

  lemma Progressing(s: State, t: Tid)
    requires t in s && (s[t].Excluding? ==> !Climbing(s[t])) && (s[t].Sharing? ==> s[t].stage.Inside? || s[t].stage.InsideGroup?)
    ensures Enabled(s, t)
  {
    hide BilockOrder;
  }

  /** With nobody inside a group, a thread waiting for a group lock, or one that it waits behind, can have it. */
  lemma GroupEnabled(s: State, t: Tid) returns (u: Tid)
    requires t in s && s[t].Sharing? && s[t].stage.WaitingGroup?
    requires forall v :: v in s && s[v].Sharing? ==> !s[v].stage.InsideGroup?
    ensures Enabled(s, u)
  {
    var lock := GroupLock(s[t].container, s[t].stage.g);
    assert Unheld(s, lock) by { NoGroupHeld(s, lock); }
    hide BilockOrder, Unheld;
    if v: Tid :| v in s && WantsExclusive(s[v], lock) {
      u := v;
      WantsGroup(s[v], lock);
    } else {
      u := t;
      assert NoWriter(s, lock) by { NoGroupHeld(s, lock); }
    }
  }

  lemma NoGroupHeld(s: State, lock: Lock)
    requires lock.GroupLock? && forall v :: v in s && s[v].Sharing? ==> !s[v].stage.InsideGroup?
    ensures Unheld(s, lock) && NoWriter(s, lock)
  {
    forall v | v in s ensures !Holds(s[v], lock) {
      if s[v].Excluding? {
        OnlyMutexes(s[v], lock);
      }
    }
    hide BilockOrder;
  }

  lemma OnlyMutexes(w: Work, lock: Lock)
    requires w.Excluding? && lock.GroupLock?
    ensures !HoldsExclusive(w, lock) && !WantsExclusive(w, lock)
  {
    BilockOrdered(w.m1, w.m2);
    hide BilockOrder;
  }

  lemma WantsGroup(w: Work, lock: Lock)
    requires lock.GroupLock? && WantsExclusive(w, lock)
    ensures w.Sharing? && w.stage == WaitingGroup(lock.group, true) && w.container == lock.container
  {
    if w.Excluding? {
      OnlyMutexes(w, lock);
    }
    hide BilockOrder;
  }

  lemma SharedEnabled(s: State, t: Tid)
    requires t in s && forall u :: u in s ==> s[u].Sharing? && s[u].stage.Waiting?
    ensures Enabled(s, t)
  {
  }

  /** Among any threads that are using the containers, at least one can take its next step. */
  lemma DeadlockFree(r: seq<State>, i: nat)
    requires Run(r) && i < |r| && r[i] != map[]
    ensures exists t, s' :: Moves(r[i], t, s')
    ensures exists t :: Enabled(r[i], t)
  {
    RunInv(r, i);
    hide Run, Inv, Enabled, Moves, BilockOrder, Climbing;
    var t := SomeEnabled(r[i]);
    EnabledMoves(r[i], t);
  }

  lemma SomeEnabled(s: State) returns (t: Tid)
    requires Inv(s) && s != map[]
    ensures Enabled(s, t)
  {
    hide Inv, Enabled, BilockOrder, WantedRank;
    if u: Tid :| u in s && (s[u].Excluding? ==> !Climbing(s[u])) && (s[u].Sharing? ==> s[u].stage.Inside? || s[u].stage.InsideGroup?) {
      t := u;
      Progressing(s, t);
    } else if u: Tid :| u in s && s[u].Sharing? && s[u].stage.WaitingGroup? {
      t := GroupEnabled(s, u);
    } else if u: Tid :| u in s && s[u].Excluding? {
      var climbing := set v | v in s && s[v].Excluding?;
      assert u in climbing;
      t := Highest(s, climbing);
      HighestEnabled(s, t);
    } else {
      t :| t in s;
      SharedEnabled(s, t);
    }
  }
}
