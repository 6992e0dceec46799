/** Who is told what in the thread pool: workers about queued tasks, and wait() about its end. */
module PoolWakeups {
  import opened Wrappers
  import opened ThreadPool

  /* ---------- the reset() under way ---------- */

  /** The reset() under way, if any. */
  function Carried(ctl: Controller): Option<Reset> {
    match ctl
    case Free => None
    case Entering(r) => Some(r)
    case Asleep(todo) => todo
    case Roused(todo) => todo
    case Halting(r) => Some(r)
    case Announcing(r) => Some(r)
    case Joining(r) => Some(r)
    case Spawning(r, _) => Some(r)
    case Restoring(r) => Some(r)
  }

  lemma WaitCarries(s: State, s': State)
    requires ControllerStep(s, s') && InWait(s.ctl)
    ensures s'.pausable == s.pausable
    ensures Carried(s'.ctl).None? || Carried(s'.ctl) == Carried(s.ctl)
      || (s.ctl.Free? && s'.ctl.Entering? && Carried(s'.ctl).value.wasPaused == s.paused)
  {
  }

  lemma RestartCarries(s: State, s': State)
    requires ControllerStep(s, s') && !InWait(s.ctl)
    ensures s'.pausable == s.pausable
    ensures Carried(s'.ctl).Some? ==> Carried(s'.ctl) == Carried(s.ctl)
  {
    hide WakeAll;
  }

  lemma WorkerCarries(s: State, w: Wid, s': State)
    requires WorkerStep(s, w, s')
    ensures Carried(s'.ctl) == Carried(s.ctl) && s'.pausable == s.pausable
  {
    SettleCarries(s);
    DecideCarries(s, w);
    DecideCarries(Settle(s), w);
    hide Settle, Decide;
  }

  lemma SettleCarries(s: State)
    ensures Carried(Settle(s).ctl) == Carried(s.ctl) && Settle(s).pausable == s.pausable && Settle(s).workers == s.workers
  {
  }

  lemma DecideCarries(s: State, w: Wid)
    ensures Decide(s, w).ctl == s.ctl && Decide(s, w).pausable == s.pausable
  {
  }

  lemma UserCarries(s: State, s': State)
    requires Detach(s, s') || NotifyOne(s, s') || Pause(s, s') || Unpause(s, s') || NotifyAll(s, s') || Purge(s, s')
    ensures Carried(s'.ctl) == Carried(s.ctl) && s'.pausable == s.pausable
  {
    hide WakeAll;
  }

  lemma CarriedNext(s: State, s': State)
    requires Next(s, s')
    ensures s'.pausable == s.pausable
    ensures Carried(s'.ctl).None? || Carried(s'.ctl) == Carried(s.ctl)
      || (EntersReset(s, s') && Carried(s'.ctl).value.wasPaused == s.paused)
    ensures Carried(s.ctl).Some? && Carried(s'.ctl).None? ==> ControllerStep(s, s')
  {
    hide WorkerStep, ControllerStep, Detach, NotifyOne, Pause, Unpause, NotifyAll, Purge, InWait, Carried;
    if w :| WorkerStep(s, w, s') {
      WorkerCarries(s, w, s');
    } else if ControllerStep(s, s') {
      if InWait(s.ctl) { WaitCarries(s, s'); } else { RestartCarries(s, s'); }
    } else {
      UserCarries(s, s');
    }
  }

  /* ---------- no lost wakeups ---------- */

  /** Queued tasks that may be run will be noticed: some worker is not asleep, or somebody is about to notify. */
  ghost predicate Served(s: State) {
    || !CanWork(s) || !s.workersRunning
    || s.notifiers > 0 || s.unpausers > 0 || Unspawned(s.ctl) > 0
    || exists w :: w in s.workers && !s.workers[w].Sleeping?
  }

  /** reset() lifts the pause it has imposed itself, without notifying anybody. */
  predicate LiftsPause(s: State, s': State) {
    s.ctl.Restoring? && s'.ctl.Free? && s.paused && !s'.paused
  }

  lemma WorkerServes(s: State, w: Wid, s': State)
    requires WorkerStep(s, w, s')
    ensures Served(s')
  {
    assert w in s'.workers;
    if !s'.workers[w].Sleeping? {
      assert Served(s');
    }
  }

  lemma SomeWorker(s: State)
    requires FlagsOk(s) && Unspawned(s.ctl) == 0 && forall w :: w in s.workers ==> !s.workers[w].Sleeping?
    ensures Served(s)
  {
    var w :| w in s.workers;
    assert !s.workers[w].Sleeping?;
  }

  lemma NotifyServes(s: State, s': State)
    requires Inv(s) && (NotifyOne(s, s') || NotifyAll(s, s'))
    ensures Served(s')
  {
    UserKept(s, s');
    assert FlagsOk(s') by { hide FlagsOk, CountOk, TasksOk, RunsOk; }
    hide Inv, FlagsOk, Served, Unspawned;
    if NotifyAll(s, s') {
      assert forall w :: w in s'.workers ==> !s'.workers[w].Sleeping?;
    } else {
      NotifiedOne(s, s');
    }
    if Unspawned(s'.ctl) > 0 || exists w :: w in s'.workers && !s'.workers[w].Sleeping? {
      ServedBySome(s');
    } else {
      SomeWorker(s');
    }
  }

  lemma NotifiedOne(s: State, s': State)
    requires NotifyOne(s, s')
    ensures (forall w :: w in s'.workers ==> !s'.workers[w].Sleeping?) || exists w :: w in s'.workers && !s'.workers[w].Sleeping?
  {
    if exists w :: w in s.workers && s.workers[w].Sleeping? {
      var w :| w in s.workers && s.workers[w].Sleeping? && s' == With(s.(notifiers := s.notifiers - 1), w, Woken);
      assert w in s'.workers && !s'.workers[w].Sleeping?;
    }
  }

  lemma ServedBySome(s: State)
    requires Unspawned(s.ctl) > 0 || exists w :: w in s.workers && !s.workers[w].Sleeping?
    ensures Served(s)
  {
    hide Unspawned;
  }

  lemma ControllerServes(s: State, s': State)
    requires Inv(s) && Served(s) && ControllerStep(s, s') && !LiftsPause(s, s')
    ensures Served(s')
  {
    if s.ctl.Spawning? && s.ctl.left > 0 {
      var w :| w !in s.workers && s' == With(s, w, Starting).(ctl := Spawning(s.ctl.r, s.ctl.left - 1));
      assert w in s'.workers && !s'.workers[w].Sleeping?;
    } else if exists w :: w in s.workers && !s.workers[w].Sleeping? {
      var w :| w in s.workers && !s.workers[w].Sleeping?;
      assert s'.workers == s.workers ==> w in s'.workers && !s'.workers[w].Sleeping?;
    }
    hide TasksOk, RunsOk, CountOk;
  }

  /** No step loses a wakeup, except a reset() lifting its own pause. */
  lemma NothingLost(s: State, s': State)
    requires Inv(s) && Served(s) && Next(s, s') && !LiftsPause(s, s')
    ensures Served(s')
  {
    if w :| WorkerStep(s, w, s') {
      hide Inv, Served, Next;
      WorkerServes(s, w, s');
    } else if ControllerStep(s, s') {
      hide Inv, Served, Next, LiftsPause, ControllerStep;
      ControllerServes(s, s');
    } else if NotifyOne(s, s') || NotifyAll(s, s') {
      hide Inv, Served, Next, NotifyOne, NotifyAll;
      NotifyServes(s, s');
    } else {
      hide Inv, WorkerStep, ControllerStep;
    }
  }

  /** Whether the pause that a reset() is about to lift leaves no task stranded. */
  ghost predicate Harmless(s: State) {
    s.tasks == [] || s.notifiers > 0 || s.unpausers > 0 || exists w :: w in s.workers && !s.workers[w].Sleeping?
  }

  lemma LiftedPauseServes(s: State, s': State)
    requires Inv(s) && Next(s, s') && LiftsPause(s, s')
    ensures Served(s') <==> Harmless(s)
  {
    CarriedNext(s, s');
    FlagsFacts(s);
    hide Inv, Next;
  }

  lemma FlagsFacts(s: State)
    requires Inv(s) && s.ctl.Restoring?
    ensures s.workersRunning
  {
    hide CountOk, TasksOk, RunsOk;
  }

  /** Every state of the first n steps is served. */
  ghost predicate AlwaysServed(r: seq<State>, n: nat)
    requires n < |r|
  {
    forall i :: 0 <= i <= n ==> Served(r[i])
  }

  /** Every reset() that lifts its own pause in the first n steps does so harmlessly. */
  ghost predicate HarmlessLifts(r: seq<State>, n: nat)
    requires n < |r|
  {
    forall j :: 0 <= j < n && LiftsPause(r[j], r[j + 1]) ==> Harmless(r[j])
  }

  /** Exactly when a run loses no wakeup at all: a queue that is nonempty and unpaused, outside reset, is served in every
      state if and only if each reset() that lifts its own pause does so harmlessly. */
  lemma {:induction false} NoLostWakeup(r: seq<State>, n: nat)
    requires Run(r) && n < |r|
    ensures AlwaysServed(r, n) <==> HarmlessLifts(r, n)
  {
    hide Next, Inv, Served, LiftsPause, Harmless, Init;
    if n == 0 {
      StartsServed(r);
    } else {
      NoLostWakeup(r, n - 1);
      LastServed(r, n);
      RunInv(r, n - 1);
      assert Next(r[n - 1], r[n - 1 + 1]);
      hide Run, AlwaysServed, HarmlessLifts;
      if LiftsPause(r[n - 1], r[n]) {
        LiftedPauseServes(r[n - 1], r[n]);
      } else if Served(r[n - 1]) {
        NothingLost(r[n - 1], r[n]);
      }
    }
  }

  lemma StartsServed(r: seq<State>)
    requires Run(r)
    ensures AlwaysServed(r, 0)
  {
    hide Next;
    assert !CanWork(r[0]);
  }

  lemma LastServed(r: seq<State>, n: nat)
    requires 0 < n < |r|
    ensures AlwaysServed(r, n) <==> AlwaysServed(r, n - 1) && Served(r[n])
    ensures HarmlessLifts(r, n) <==> HarmlessLifts(r, n - 1) && (LiftsPause(r[n - 1], r[n]) ==> Harmless(r[n - 1]))
    ensures AlwaysServed(r, n - 1) ==> Served(r[n - 1])
  {
    hide Served, LiftsPause, Harmless;
  }

  /* ---------- what a caller of reset() can rely on ---------- */

  /** No reset() under way will lift its own pause. */
  predicate Careful(s: State) {
    Carried(s.ctl).Some? ==> Carried(s.ctl).value.wasPaused || !s.pausable
  }

  lemma CarefulNext(s: State, s': State)
    requires Next(s, s') && Careful(s) && (EntersReset(s, s') ==> s.paused || !s.pausable)
    ensures Careful(s')
  {
    CarriedNext(s, s');
    hide Next, EntersReset, Carried;
  }

  lemma CarefulLiftsNothing(s: State, s': State)
    requires Inv(s) && Next(s, s') && Careful(s)
    ensures !LiftsPause(s, s')
  {
    CarriedNext(s, s');
    assert !s.pausable ==> !s.paused;
    hide Inv, Next;
  }

  /** If reset() is only called while the pool is paused, or if pausing is not enabled, no wakeup is ever lost. */
  lemma {:induction false} ResetWhilePaused(r: seq<State>, i: nat)
    requires Run(r) && i < |r|
    requires forall j :: 0 <= j < i && EntersReset(r[j], r[j + 1]) ==> r[j].paused || !r[j].pausable
    ensures Served(r[i]) && Careful(r[i])
  {
    if i == 0 {
      assert !CanWork(r[0]);
    } else {
      ResetWhilePaused(r, i - 1);
      RunInv(r, i - 1);
      assert Next(r[i - 1], r[i - 1 + 1]) && (EntersReset(r[i - 1], r[i - 1 + 1]) ==> r[i - 1].paused || !r[i - 1].pausable);
      hide Run, Init, Next, Inv, Served, LiftsPause, Careful, EntersReset;
      CarefulNext(r[i - 1], r[i]);
      CarefulLiftsNothing(r[i - 1], r[i]);
      NothingLost(r[i - 1], r[i]);
    }
  }

  /* ---------- continuations ---------- */

  /** A continuation from s to s2 during a reset(). */
  ghost predicate Leads(q: seq<State>, s: State, s2: State) {
    && |q| > 0 && q[0] == s && q[|q| - 1] == s2
    && (forall i :: 0 <= i < |q| - 1 ==> Next(q[i], q[i + 1]))
    && (forall i :: 0 <= i < |q| ==> !q[i].ctl.Free?)
  }

  ghost predicate CanReach(s: State, s2: State) {
    exists q :: Leads(q, s, s2)
  }

  lemma Stay(s: State)
    requires !s.ctl.Free?
    ensures CanReach(s, s)
  {
    assert Leads([s], s, s);
  }

  /** One more step. */
  lemma Further(s: State, s1: State, s2: State)
    requires CanReach(s, s1) && Next(s1, s2) && !s2.ctl.Free?
    ensures CanReach(s, s2)
  {
    hide Next;
    var p :| Leads(p, s, s1);
    var q := p + [s2];
    forall i | 0 <= i < |q| - 1 ensures Next(q[i], q[i + 1]) {
      assert i < |p| - 1 ==> q[i] == p[i] && q[i + 1] == p[i + 1];
    }
    assert Leads(q, s, s2);
  }

  lemma {:induction false} LeadsInv(q: seq<State>, s: State, s2: State)
    requires Inv(s) && Leads(q, s, s2)
    ensures Inv(s2)
    decreases |q|
  {
    hide Inv, Next;
    if |q| > 1 {
      var p := q[..|q| - 1];
      forall i | 0 <= i < |p| - 1 ensures Next(p[i], p[i + 1]) { assert Next(q[i], q[i + 1]); }
      LeadsInv(p, s, q[|q| - 2]);
      assert Next(q[|q| - 2], q[|q| - 2 + 1]);
      NextKept(q[|q| - 2], s2);
    }
  }

  lemma ReachInv(s: State, s2: State)
    requires Inv(s) && CanReach(s, s2)
    ensures Inv(s2)
  {
    hide Inv, Leads;
    var q :| Leads(q, s, s2);
    LeadsInv(q, s, s2);
  }

  lemma NextCases(s: State, s': State, w: Wid)
    requires WorkerStep(s, w, s') || Detach(s, s') || NotifyOne(s, s') || Pause(s, s') || NotifyAll(s, s') || Purge(s, s')
      || ControllerStep(s, s')
    ensures Next(s, s')
  {
    hide WorkerStep, Detach, NotifyOne, ControllerStep, Pause, Unpause, NotifyAll, Purge;
  }

  /* ---------- everybody comes to rest ---------- */

  lemma {:induction false} NotifiersGone(s0: State, s: State) returns (s2: State)
    requires CanReach(s0, s) && !s.ctl.Free?
    ensures CanReach(s0, s2) && s2 == s.(notifiers := 0, workers := s2.workers)
    decreases s.notifiers
  {
    hide CanReach, Next;
    if s.notifiers == 0 {
      s2 := s;
    } else {
      var s1 := s.(notifiers := s.notifiers - 1);
      if w :| w in s.workers && s.workers[w].Sleeping? {
        s1 := With(s1, w, Woken);
      }
      assert NotifyOne(s, s1);
      NextCases(s, s1, 0);
      Further(s0, s, s1);
      s2 := NotifiersGone(s0, s1);
    }
  }

  lemma {:induction false} UnpausersGone(s0: State, s: State) returns (s2: State)
    requires CanReach(s0, s) && !s.ctl.Free?
    ensures CanReach(s0, s2) && s2 == s.(unpausers := 0, workers := s2.workers)
    decreases s.unpausers
  {
    hide CanReach, Next, WakeAll;
    if s.unpausers == 0 {
      s2 := s;
    } else {
      var s1 := s.(unpausers := s.unpausers - 1, workers := WakeAll(s.workers));
      assert NotifyAll(s, s1);
      NextCases(s, s1, 0);
      Further(s0, s, s1);
      s2 := UnpausersGone(s0, s1);
    }
  }

  /** A paused pool whose workers are in service, nobody waiting. */
  ghost predicate Holding(s: State) {
    s.paused && s.workersRunning && !s.waiting && !s.ctl.Free? && forall w :: w in s.workers ==> !s.workers[w].Exited?
  }

  /** Nothing has changed but what workers change. */
  ghost predicate SameButWorkers(s: State, s2: State) {
    s2 == s.(workers := s2.workers, running := s2.running, finished := s2.finished)
  }

  ghost function Awake(workers: map<Wid, Worker>): set<Wid> {
    set w | w in workers && !workers[w].Sleeping?
  }

  lemma Returns(s0: State, s: State, w: Wid) returns (s2: State)
    requires CanReach(s0, s) && Holding(s) && w in s.workers && s.workers[w].Executing?
    ensures CanReach(s0, s2) && Holding(s2) && SameButWorkers(s, s2) && s2.workers == s.workers[w := Returning]
  {
    hide CanReach, Next;
    s2 := With(s.(finished := s.finished + {s.workers[w].task}), w, Returning);
    assert WorkerStep(s, w, s2);
    NextCases(s, s2, w);
    Further(s0, s, s2);
  }

  lemma FallsAsleep(s0: State, s: State, w: Wid) returns (s2: State)
    requires CanReach(s0, s) && Holding(s) && w in s.workers && !s.workers[w].Executing? && !s.workers[w].Sleeping?
    ensures CanReach(s0, s2) && Holding(s2) && SameButWorkers(s, s2) && s2.workers == s.workers[w := Sleeping]
  {
    hide CanReach, Next;
    s2 := if s.workers[w].Woken? then Decide(s, w) else Decide(Settle(s), w);
    assert WorkerStep(s, w, s2);
    NextCases(s, s2, w);
    Further(s0, s, s2);
  }

  /** Every worker ends up asleep if nobody interferes. */
  lemma {:induction false} AllAsleep(s0: State, s: State) returns (s2: State)
    requires CanReach(s0, s) && Holding(s)
    ensures CanReach(s0, s2) && SameButWorkers(s, s2)
    ensures s2.workers.Keys == s.workers.Keys && forall w :: w in s2.workers ==> s2.workers[w].Sleeping?
    decreases |Awake(s.workers)|
  {
    hide CanReach, Holding;
    if w :| w in s.workers && !s.workers[w].Sleeping? {
      var s1 := s;
      if s.workers[w].Executing? {
        s1 := Returns(s0, s, w);
      }
      s1 := FallsAsleep(s0, s1, w);
      assert Awake(s1.workers) == Awake(s.workers) - {w};
      s2 := AllAsleep(s0, s1);
    } else {
      s2 := s;
    }
  }

  /* ---------- workers leave and new ones come ---------- */

  ghost predicate Stopping(s: State) {
    s.ctl.Joining? && !s.workersRunning && forall w :: w in s.workers ==> s.workers[w].Woken? || s.workers[w].Exited?
  }

  ghost function Staying(workers: map<Wid, Worker>): set<Wid> {
    set w | w in workers && !workers[w].Exited?
  }

  lemma {:induction false} AllExit(s0: State, s: State) returns (s2: State)
    requires CanReach(s0, s) && Stopping(s)
    ensures CanReach(s0, s2) && s2 == s.(workers := s2.workers) && forall w :: w in s2.workers ==> s2.workers[w].Exited?
    decreases |Staying(s.workers)|
  {
    hide CanReach, Next;
    if w :| w in s.workers && !s.workers[w].Exited? {
      var s1 := With(s, w, Exited);
      assert WorkerStep(s, w, s1);
      NextCases(s, s1, w);
      Further(s0, s, s1);
      assert Staying(s1.workers) == Staying(s.workers) - {w};
      s2 := AllExit(s0, s1);
    } else {
      s2 := s;
    }
  }

  lemma {:induction false} AllSpawned(s0: State, s: State) returns (s2: State)
    requires CanReach(s0, s) && s.ctl.Spawning? && forall w :: w in s.workers ==> w > s.ctl.left && s.workers[w].Starting?
    ensures CanReach(s0, s2) && s2 == s.(workers := s2.workers, ctl := Spawning(s.ctl.r, 0))
    ensures forall w :: w in s2.workers ==> s2.workers[w].Starting?
    decreases s.ctl.left
  {
    hide CanReach, Next;
    if s.ctl.left == 0 {
      s2 := s;
    } else {
      var s1 := With(s, s.ctl.left, Starting).(ctl := Spawning(s.ctl.r, s.ctl.left - 1));
      assert ControllerStep(s, s1);
      NextCases(s, s1, 0);
      Further(s0, s, s1);
      s2 := AllSpawned(s0, s1);
    }
  }

  /* ---------- a reset that strands its queue ---------- */

  /** Nobody is running a task or about to notify, every worker is asleep, and no reset is under way. */
  ghost predicate Quiet(s: State) {
    && s.notifiers == 0 && s.unpausers == 0 && (s.ctl.Free? || s.ctl.Asleep?)
    && forall w :: w in s.workers ==> s.workers[w].Sleeping?
  }

  /** q is a continuation from s that consists of one call of reset() for n threads, from its call to its return. */
  ghost predicate OneReset(s: State, q: seq<State>, n: nat) {
    && |q| > 2 && q[0] == s && EntersReset(s, q[1]) && q[1].ctl.r.threads == n && Next(s, q[1])
    && Leads(q[1..|q| - 1], q[1], q[|q| - 2]) && Next(q[|q| - 2], q[|q| - 1]) && q[|q| - 1].ctl.Free?
  }

  /** It leaves tasks queued, among them all that were queued before, with nobody to run them. */
  ghost predicate Strands(s: State, q: seq<State>, n: nat) {
    && OneReset(s, q, n)
    && Quiet(q[|q| - 1]) && CanWork(q[|q| - 1]) && s.tasks <= q[|q| - 1].tasks
  }

  /** Up to the point at which all tasks being run are over and the workers asleep; if the queue is empty, somebody
      detaches a task meanwhile. */
  lemma ComesToRest(s: State, s1: State) returns (s2: State)
    requires Inv(s1) && s1.ctl.Entering? && s1.paused && s1.pausable
    ensures CanReach(s1, s2) && Inv(s2) && s2.ctl == s1.ctl && s2.paused && s2.pausable && s2.running == 0
    ensures s2.notifiers == 0 && s2.unpausers == 0 && s1.tasks <= s2.tasks && s2.tasks != []
    ensures s2.workersRunning && !s2.waiting && forall w :: w in s2.workers ==> s2.workers[w].Sleeping?
  {
    Stay(s1);
    var x := s1;
    if s1.tasks == [] {
      x := s1.(tasks := s1.tasks + [s1.detached], detached := s1.detached + 1, notifiers := s1.notifiers + 1);
      assert Detach(s1, x);
      NextCases(s1, x, 0);
      Further(s1, s1, x);
    }
    hide CanReach, Next, Inv, Holding;
    x := NotifiersGone(s1, x);
    x := UnpausersGone(s1, x);
    ReachInv(s1, x);
    assert Holding(x) by { HoldingFacts(x); }
    s2 := AllAsleep(s1, x);
    ReachInv(s1, s2);
    NoneRunning(s2);
    HoldingFacts(s2);
  }

  lemma HoldingFacts(s: State)
    requires Inv(s) && (s.ctl.Entering? || s.ctl.Restoring?) && s.paused
    ensures Holding(s)
  {
    hide CountOk, TasksOk, RunsOk;
  }

  lemma NoneRunning(s: State)
    requires Inv(s) && Unspawned(s.ctl) == 0 && forall w :: w in s.workers ==> s.workers[w].Sleeping?
    ensures s.running == 0
  {
    assert Busy(s.workers) == {};
    hide FlagsOk, TasksOk, RunsOk;
  }

  /** wait() returns and the workers are stopped. */
  lemma Stops(s0: State, s: State) returns (s2: State)
    requires CanReach(s0, s) && s.ctl.Entering? && WaitOver(s) && forall w :: w in s.workers ==> s.workers[w].Sleeping?
    ensures CanReach(s0, s2)
    ensures s2 == s.(waiting := false, workersRunning := false, workers := s2.workers, ctl := Joining(s.ctl.r))
    ensures forall w :: w in s2.workers ==> s2.workers[w].Exited?
  {
    hide CanReach, Next;
    var r := s.ctl.r;
    var x := s.(waiting := false, ctl := Halting(r));
    assert ControllerStep(s, x);
    NextCases(s, x, 0);
    Further(s0, s, x);
    var y := x.(workersRunning := false, ctl := Announcing(r));
    assert ControllerStep(x, y);
    NextCases(x, y, 0);
    Further(s0, x, y);
    var z := y.(workers := WakeAll(y.workers), ctl := Joining(r));
    assert ControllerStep(y, z);
    NextCases(y, z, 0);
    Further(s0, y, z);
    s2 := AllExit(s0, z);
  }

  /** The new workers are created. */
  lemma Restarts(s0: State, s: State) returns (s2: State)
    requires CanReach(s0, s) && s.ctl.Joining? && forall w :: w in s.workers ==> s.workers[w].Exited?
    ensures CanReach(s0, s2)
    ensures s2 == s.(workersRunning := true, running := s.ctl.r.threads, workers := s2.workers, ctl := Restoring(s.ctl.r))
  {
    hide CanReach, Next;
    var r := s.ctl.r;
    var x := s.(workers := map[], running := r.threads, workersRunning := true, ctl := Spawning(r, r.threads));
    assert ControllerStep(s, x);
    NextCases(s, x, 0);
    Further(s0, s, x);
    var y := AllSpawned(s0, x);
    s2 := y.(ctl := Restoring(r));
    assert ControllerStep(y, s2);
    NextCases(y, s2, 0);
    Further(s0, y, s2);
  }

  /** From its call to the moment before it lifts the pause, a reset() can go through without any task being started. */
  lemma GoesThrough(s: State, s1: State) returns (s2: State)
    requires Inv(s1) && s1.ctl.Entering? && s1.paused && s1.pausable
    ensures CanReach(s1, s2) && s2.ctl == Restoring(s1.ctl.r) && s2.paused && s2.pausable
    ensures s2.notifiers == 0 && s2.unpausers == 0 && s1.tasks <= s2.tasks && s2.tasks != []
    ensures forall w :: w in s2.workers ==> s2.workers[w].Sleeping?
  {
    hide CanReach, Next, Inv, Holding;
    var x := ComesToRest(s, s1);
    x := Stops(s1, x);
    x := Restarts(s1, x);
    ReachInv(s1, x);
    HoldingFacts(x);
    s2 := AllAsleep(s1, x);
  }

  /** Any reset() of an unpaused pool that can be paused may strand the queue. */
  lemma StrandingReset(s: State, n: nat) returns (q: seq<State>)
    requires Inv(s) && s.ctl.Free? && s.pausable && !s.paused && n > 0
    ensures Strands(s, q, n)
  {
    var s1 := s.(ctl := Entering(Reset(n, false)), paused := true);
    assert ControllerStep(s, s1);
    NextCases(s, s1, 0);
    hide Next, Inv, Leads;
    NextKept(s, s1);
    var s2 := GoesThrough(s, s1);
    var s3 := s2.(paused := false, ctl := Free);
    assert ControllerStep(s2, s3);
    NextCases(s2, s3, 0);
    hide ControllerStep, EntersReset, CanWork;
    var p :| Leads(p, s1, s2);
    q := [s] + p + [s3];
    assert CanWork(s3) by { assert s3.tasks != [] && !s3.paused; }
    assert EntersReset(s, s1) by { assert s.ctl.Free? && s1.ctl.Entering?; }
    Assembled(s, p, s1, s2, s3, n);
  }

  lemma Assembled(s: State, p: seq<State>, s1: State, s2: State, s3: State, n: nat)
    requires EntersReset(s, s1) && s1.ctl.r.threads == n && Next(s, s1) && Leads(p, s1, s2) && Next(s2, s3)
    requires s3.ctl.Free? && Quiet(s3) && CanWork(s3) && s.tasks <= s3.tasks
    ensures Strands(s, [s] + p + [s3], n)
  {
    hide Next, EntersReset, Leads, Quiet, CanWork;
    LeadsEnds(p, s1, s2);
    var q := [s] + p + [s3];
    assert q[1..|q| - 1] == p && q[1] == s1 && q[|q| - 2] == s2 && q[|q| - 1] == s3;
  }

  lemma LeadsEnds(p: seq<State>, s: State, s2: State)
    requires Leads(p, s, s2)
    ensures |p| > 0 && p[0] == s && p[|p| - 1] == s2
  {
    hide Next;
  }

  lemma {:induction false} LeadsCareful(q: seq<State>, s: State, s2: State)
    requires Inv(s) && Served(s) && Careful(s) && Leads(q, s, s2)
    ensures Inv(s2) && Served(s2) && Careful(s2)
    decreases |q|
  {
    hide Inv, Served, Careful, Next;
    if |q| > 1 {
      var p := q[..|q| - 1];
      var s1 := q[|q| - 2];
      forall i | 0 <= i < |p| - 1 ensures Next(p[i], p[i + 1]) { assert Next(q[i], q[i + 1]); }
      LeadsCareful(p, s, s1);
      assert Next(s1, q[|q| - 2 + 1]) && !EntersReset(s1, s2);
      CarefulServes(s1, s2);
    }
  }

  lemma CarefulServes(s: State, s': State)
    requires Inv(s) && Served(s) && Careful(s) && Next(s, s') && (EntersReset(s, s') ==> s.paused || !s.pausable)
    ensures Inv(s') && Served(s') && Careful(s')
  {
    hide Inv, Served, Careful, Next, EntersReset, LiftsPause;
    CarefulNext(s, s');
    CarefulLiftsNothing(s, s');
    NothingLost(s, s');
    NextKept(s, s');
  }

  /** A reset() of a paused pool, or of one that cannot be paused, serves the queue it leaves. */
  lemma CarefulReset(s: State, q: seq<State>, n: nat)
    requires Inv(s) && Served(s) && (s.paused || !s.pausable) && s.ctl.Free? && OneReset(s, q, n)
    ensures Inv(q[|q| - 1]) && Served(q[|q| - 1])
  {
    assert Careful(s) && !q[|q| - 2].ctl.Free?;
    hide Inv, Served, Careful, Next, EntersReset, Leads;
    CarefulServes(s, q[1]);
    LeadsCareful(q[1..|q| - 1], q[1], q[|q| - 2]);
    assert !EntersReset(q[|q| - 2], q[|q| - 1]) by { NotEntering(q[|q| - 2], q[|q| - 1]); }
    CarefulServes(q[|q| - 2], q[|q| - 1]);
  }

  lemma NotEntering(s: State, s': State)
    requires s'.ctl.Free?
    ensures !EntersReset(s, s')
  {
    hide ControllerStep;
  }

  lemma QuietUnserved(s: State)
    requires Inv(s) && Quiet(s) && CanWork(s)
    ensures !Served(s)
  {
    hide CountOk, TasksOk, RunsOk;
  }

  lemma ServedSoFar(r: seq<State>)
    requires Run(r) && (r[|r| - 1].paused || !r[|r| - 1].pausable)
    ensures Inv(r[|r| - 1]) && Served(r[|r| - 1])
  {
    RunInv(r, |r| - 1);
    if !r[|r| - 1].paused {
      SamePausable(r, |r| - 1);
      hide Run, EntersReset, Served;
      ResetWhilePaused(r, |r| - 1);
    }
  }

  lemma {:induction false} SamePausable(r: seq<State>, i: nat)
    requires Run(r) && i < |r|
    ensures forall j :: 0 <= j <= i ==> r[j].pausable == r[i].pausable
  {
    if i > 0 {
      SamePausable(r, i - 1);
      assert Next(r[i - 1], r[i - 1 + 1]);
      hide Run, Next;
      CarriedNext(r[i - 1], r[i]);
    }
  }

  /** What the caller has to check: from a state of any run in which no reset() is under way, a reset() can strand tasks,
      those queued before included, if and only if the pool can be paused and is not. */
  lemma ResetStrandsExactly(r: seq<State>, s: State, n: nat)
    requires Run(r) && s == r[|r| - 1] && s.ctl.Free? && n > 0
    ensures (exists q :: Strands(s, q, n)) <==> s.pausable && !s.paused
  {
    RunInv(r, |r| - 1);
    if s.pausable && !s.paused {
      hide Run, Inv, Strands;
      var q := StrandingReset(s, n);
    } else {
      ServedSoFar(r);
      hide Run, Inv, Served, Quiet, OneReset;
      forall q ensures !Strands(s, q, n) {
        if Strands(s, q, n) {
          CarefulReset(s, q, n);
          QuietUnserved(q[|q| - 1]);
        }
      }
    }
  }

  /* ---------- the waiter is told ---------- */

  /** A blocked wait() has reason to be blocked. */
  predicate WaiterTold(s: State) {
    s.ctl.Asleep? ==> !WaitOver(s)
  }

  /** Whatever a worker decides, wait() has no more reason to return than before. */
  lemma DecisionTells(s: State, w: Wid)
    requires s.running >= 0 && w in s.workers
    ensures WaitOver(Decide(s, w)) ==> WaitOver(s)
    ensures Decide(s, w).ctl == s.ctl
  {
  }

  lemma SettlingTells(s: State)
    requires s.ctl.Asleep? ==> s.waiting
    ensures WaiterTold(Settle(s))
  {
  }

  lemma WorkerTells(s: State, w: Wid, s': State)
    requires Inv(s) && WaiterTold(s) && WorkerStep(s, w, s')
    ensures WaiterTold(s')
  {
    assert s.ctl.Asleep? ==> s.waiting by { hide CountOk, TasksOk, RunsOk; }
    hide Inv, Decide, Settle, FlagsOk, TasksOk, RunsOk;
    if s.workers[w].Starting? || s.workers[w].Returning? {
      SettleKept(s, w);
      DecisionTells(Settle(s), w);
      SettlingTells(s);
    } else if s.workers[w].Woken? {
      WokenReady(s, w);
      DecisionTells(s, w);
    }
  }

  lemma UserTells(s: State, s': State)
    requires WaiterTold(s) && (Detach(s, s') || NotifyOne(s, s') || Unpause(s, s') || NotifyAll(s, s'))
    ensures WaiterTold(s')
  {
    hide WakeAll;
  }

  lemma RestartTells(s: State, s': State)
    requires ControllerStep(s, s') && !InWait(s.ctl)
    ensures !s'.ctl.Asleep?
  {
    hide WakeAll;
  }

  lemma ControllerTells(s: State, s': State)
    requires WaiterTold(s) && ControllerStep(s, s')
    ensures WaiterTold(s')
  {
    if !InWait(s.ctl) {
      hide ControllerStep;
      RestartTells(s, s');
    }
  }

  /** Unless somebody pauses or purges, a step that makes the predicate of wait() true wakes the waiter. */
  lemma WaiterAlwaysTold(s: State, s': State)
    requires Inv(s) && WaiterTold(s) && Next(s, s') && !Pause(s, s') && !Purge(s, s')
    ensures WaiterTold(s')
  {
    hide Inv, WaiterTold, WorkerStep, ControllerStep, Detach, NotifyOne, Unpause, NotifyAll, Pause, Purge;
    if w :| WorkerStep(s, w, s') {
      WorkerTells(s, w, s');
    } else if ControllerStep(s, s') {
      ControllerTells(s, s');
    } else {
      UserTells(s, s');
    }
  }

  /** pause() and purge() leave a blocked waiter untold exactly when no worker is busy. */
  lemma PauseOrPurgeTells(s: State, s': State)
    requires Inv(s) && WaiterTold(s) && s.ctl.Asleep? && (Pause(s, s') || Purge(s, s'))
    ensures WaiterTold(s') <==> s.running != 0
  {
  }

  /** A step that makes a blocked wait() complete without telling it. */
  ghost predicate Overlooks(s: State, s': State) {
    s.ctl.Asleep? && s.running == 0 && (Pause(s, s') || Purge(s, s'))
  }

  lemma ToldNext(s: State, s': State)
    requires Inv(s) && WaiterTold(s) && Next(s, s')
    ensures WaiterTold(s') <==> !Overlooks(s, s')
  {
    hide Next, Inv;
    if Pause(s, s') || Purge(s, s') {
      if s.ctl.Asleep? {
        PauseOrPurgeTells(s, s');
      }
    } else {
      hide WaiterTold, Pause, Purge;
      WaiterAlwaysTold(s, s');
    }
  }

  /** No blocked wait() is overlooked in the first n steps. */
  ghost predicate AlwaysTold(r: seq<State>, n: nat)
    requires n < |r|
  {
    forall i :: 0 <= i <= n ==> WaiterTold(r[i])
  }

  ghost predicate NeverOverlooked(r: seq<State>, n: nat)
    requires n < |r|
  {
    forall j :: 0 <= j < n ==> !Overlooks(r[j], r[j + 1])
  }

  /** Exactly when a run never overlooks a blocked wait(): no pause() or purge() hits it while no worker is busy. Calls
      that come while nobody waits, or while a worker has yet to settle, do no harm. */
  lemma {:induction false} BlockedWaiterTold(r: seq<State>, n: nat)
    requires Run(r) && n < |r|
    ensures AlwaysTold(r, n) <==> NeverOverlooked(r, n)
  {
    hide Init, Next, Inv, WaiterTold, Overlooks;
    if n == 0 {
      RunInv(r, 0);
      StartsTold(r);
    } else {
      BlockedWaiterTold(r, n - 1);
      LastTold(r, n);
      RunInv(r, n - 1);
      assert Next(r[n - 1], r[n - 1 + 1]);
      hide Run, AlwaysTold, NeverOverlooked;
      if WaiterTold(r[n - 1]) {
        ToldNext(r[n - 1], r[n]);
      }
    }
  }

  lemma StartsTold(r: seq<State>)
    requires Run(r)
    ensures AlwaysTold(r, 0)
  {
    hide Next;
  }

  lemma LastTold(r: seq<State>, n: nat)
    requires 0 < n < |r|
    ensures AlwaysTold(r, n) <==> AlwaysTold(r, n - 1) && WaiterTold(r[n])
    ensures NeverOverlooked(r, n) <==> NeverOverlooked(r, n - 1) && !Overlooks(r[n - 1], r[n])
    ensures AlwaysTold(r, n - 1) ==> WaiterTold(r[n - 1])
  {
    hide WaiterTold, Overlooks;
  }

  /* ---------- three ways to get stranded ---------- */

  lemma Extend(r: seq<State>, s: State)
    requires Run(r) && Next(r[|r| - 1], s)
    ensures Run(r + [s]) && (r + [s])[|r + [s]| - 1] == s
  {
    var q := r + [s];
    forall i | 0 <= i < |q| - 1 ensures Next(q[i], q[i + 1]) {
      if i < |r| - 1 {
        assert q[i] == r[i] && q[i + 1] == r[i + 1];
      }
    }
  }

  /** A pool whose only worker has gone to sleep. */
  function Resting(pausable: bool): State {
    State(pausable, [], 0, false, false, true, map[0 := Sleeping], 0, 0, Free, 0, [], {}, {})
  }

  lemma Rests(pausable: bool) returns (r: seq<State>)
    ensures Run(r) && r[|r| - 1] == Resting(pausable)
  {
    var s := State(pausable, [], 1, false, false, true, map[0 := Starting], 0, 0, Free, 0, [], {}, {});
    r := [s];
    assert Decide(Settle(s), 0) == Resting(pausable) by { assert s.workers[0 := Sleeping] == map[0 := Sleeping]; }
    assert WorkerStep(s, 0, Resting(pausable));
    Extend(r, Resting(pausable));
    r := r + [Resting(pausable)];
  }

  /** A worker is about to be told of a task, and somebody waits for it. */
  function Awaited(pausable: bool): State {
    Resting(pausable).(tasks := [0], detached := 1, notifiers := 1, waiting := true, ctl := Asleep(None))
  }

  lemma Waits(pausable: bool) returns (r: seq<State>)
    ensures Run(r) && r[|r| - 1] == Awaited(pausable)
  {
    r := Rests(pausable);
    var s0 := Resting(pausable);
    var s1 := s0.(tasks := [0], detached := 1, notifiers := 1);
    assert Detach(s0, s1);
    NextCases(s0, s1, 0);
    hide Run, Next;
    Extend(r, s1);
    r := r + [s1];
    assert ControllerStep(s1, Awaited(pausable));
    NextCases(s1, Awaited(pausable), 0);
    Extend(r, Awaited(pausable));
    r := r + [Awaited(pausable)];
  }

  /** The worker is notified, finds nothing to do and goes back to sleep. */
  lemma InVain(r0: seq<State>, s: State) returns (r: seq<State>)
    requires Run(r0) && r0[|r0| - 1] == s && s.workers == map[0 := Sleeping] && s.notifiers == 1 && s.workersRunning && !CanWork(s)
    ensures Run(r) && r[|r| - 1] == s.(notifiers := 0)
  {
    hide Run, Next;
    var s1 := With(s.(notifiers := 0), 0, Woken);
    assert NotifyOne(s, s1);
    NextCases(s, s1, 0);
    Extend(r0, s1);
    r := r0 + [s1];
    var s2 := With(s1, 0, Sleeping);
    assert WorkerStep(s1, 0, s2);
    NextCases(s1, s2, 0);
    Extend(r, s2);
    r := r + [s2];
    assert s2.workers == s.workers;
  }

  /** purge() can strand a waiter: nothing is left to wait for, and nobody will say so. */
  lemma PurgeStrandsWaiter() returns (r: seq<State>)
    ensures Run(r) && Quiet(r[|r| - 1]) && r[|r| - 1].ctl.Asleep? && WaitOver(r[|r| - 1])
  {
    r := Waits(false);
    var s := Awaited(false).(tasks := [], purged := {0});
    assert Purge(Awaited(false), s);
    NextCases(Awaited(false), s, 0);
    hide Run, Next;
    Extend(r, s);
    r := InVain(r + [s], s);
  }

  /** So can pause(): a paused pool is only waited for until its workers are idle, and they are. */
  lemma PauseStrandsWaiter() returns (r: seq<State>)
    ensures Run(r) && Quiet(r[|r| - 1]) && r[|r| - 1].ctl.Asleep? && WaitOver(r[|r| - 1])
    ensures r[|r| - 1].paused && r[|r| - 1].tasks != []
  {
    r := Waits(true);
    var s := Awaited(true).(paused := true);
    assert Pause(Awaited(true), s);
    NextCases(Awaited(true), s, 0);
    hide Run, Next;
    Extend(r, s);
    r := InVain(r + [s], s);
  }

  /** reset() of an unpaused pool can strand a task that was detached before: when it returns, the task is queued as it was
      when it was called, the pool is not paused, and nobody will run it. */
  lemma ResetStrandsTask() returns (r: seq<State>, e: nat)
    ensures Run(r) && e + 1 < |r| && EntersReset(r[e], r[e + 1]) && 0 in r[e].tasks
    ensures 0 in r[|r| - 1].tasks && Quiet(r[|r| - 1]) && r[|r| - 1].ctl.Free? && CanWork(r[|r| - 1])
  {
    r := Queues();
    e := |r| - 1;
    hide Run, Next, Inv, Strands;
    RunInv(r, e);
    var q := StrandingReset(r[e], 1);
    StrandedFacts(r[e], q, 1);
    Continued(r, q, 1);
    r := r + q[1..];
  }

  lemma Queues() returns (r: seq<State>)
    ensures Run(r) && r[|r| - 1] == Resting(true).(tasks := [0], detached := 1, notifiers := 1)
  {
    r := Rests(true);
    var s := Resting(true).(tasks := [0], detached := 1, notifiers := 1);
    assert Detach(Resting(true), s);
    NextCases(Resting(true), s, 0);
    hide Run, Next;
    Extend(r, s);
    r := r + [s];
  }

  lemma StrandedFacts(s: State, q: seq<State>, n: nat)
    requires Strands(s, q, n)
    ensures OneReset(s, q, n) && |q| > 2 && EntersReset(s, q[1]) && q[|q| - 1].ctl.Free?
    ensures Quiet(q[|q| - 1]) && CanWork(q[|q| - 1]) && forall t :: t in s.tasks ==> t in q[|q| - 1].tasks
  {
    hide Next, EntersReset, Leads, Quiet, CanWork;
    forall t | t in s.tasks ensures t in q[|q| - 1].tasks {
      var i :| 0 <= i < |s.tasks| && s.tasks[i] == t;
      assert q[|q| - 1].tasks[i] == t;
    }
  }

  lemma Continued(r: seq<State>, q: seq<State>, n: nat)
    requires Run(r) && OneReset(r[|r| - 1], q, n)
    ensures Run(r + q[1..])
  {
    hide Next, Init, EntersReset;
    var p := r + q[1..];
    var m := q[1..|q| - 1];
    forall i | 0 <= i < |p| - 1 ensures Next(p[i], p[i + 1]) {
      if i < |r| - 1 {
        assert p[i] == r[i] && p[i + 1] == r[i + 1];
      } else {
        var j := i - |r| + 1;
        assert p[i] == q[j] && p[i + 1] == q[j + 1];
        if 1 <= j < |q| - 2 { assert m[j - 1] == q[j] && m[j - 1 + 1] == q[j + 1]; }
      }
    }
  }
}
