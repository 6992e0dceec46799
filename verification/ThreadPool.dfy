/** The thread pool as a step machine. Every region locked by the pool's one mutex is one step; a notification made
    after unlocking is another. */
module ThreadPool {
  import opened Wrappers

  type Wid = nat
  /** Tasks are numbered in the order in which they are detached. */
  type Task = nat

  datatype Worker =
    | Starting               // runs the initialisation function
    | Sleeping               // blocked on task_available_cv
    | Woken                  // notified; has to lock the mutex and look again
    | Executing(task: Task)
    | Returning              // task over, about to lock the mutex
    | Exited

  datatype Reset = Reset(threads: nat, wasPaused: bool)

  /** The thread in wait() or reset(); there is at most one. */
  datatype Controller =
    | Free
    | Entering(r: Reset)                  // reset() is about to call wait()
    | Asleep(todo: Option<Reset>)         // blocked on tasks_done_cv
    | Roused(todo: Option<Reset>)         // notified; has to lock the mutex and look again
    | Halting(r: Reset)                   // about to clear workers_running
    | Announcing(r: Reset)                // about to notify all workers
    | Joining(r: Reset)
    | Spawning(r: Reset, left: nat)       // threads still to be created
    | Restoring(r: Reset)                 // about to restore the pause flag

  datatype State = State(
    pausable: bool,
    tasks: seq<Task>,
    running: int,                         // tasks_running
    waiting: bool,
    paused: bool,
    workersRunning: bool,
    workers: map<Wid, Worker>,
    notifiers: nat,                       // detach_task() calls between unlocking and notify_one
    unpausers: nat,                       // unpause() calls between unlocking and notify_all
    ctl: Controller,
    detached: nat,                        // history: tasks detached so far,
    started: seq<Task>,                   // popped, in order,
    finished: set<Task>,                  // run to completion,
    purged: set<Task>)                    // and discarded

  predicate CanWork(s: State) {
    !(s.paused || s.tasks == [])
  }

  /** The predicate of wait(). */
  predicate WaitOver(s: State) {
    s.running == 0 && (s.paused || s.tasks == [])
  }

  function With(s: State, w: Wid, pc: Worker): State {
    s.(workers := s.workers[w := pc])
  }

  function WakeAll(workers: map<Wid, Worker>): map<Wid, Worker> {
    map w | w in workers :: if workers[w].Sleeping? then Woken else workers[w]
  }

  function NotifyWaiter(s: State): State {
    if s.ctl.Asleep? then s.(ctl := Roused(s.ctl.todo)) else s
  }

  /* ---------- worker steps ---------- */

  /** With the mutex locked: leave, take the first task, or block. */
  function Decide(s: State, w: Wid): State {
    if !s.workersRunning then With(s, w, Exited)
    else if CanWork(s) then
      With(s.(tasks := s.tasks[1..], running := s.running + 1, started := s.started + [s.tasks[0]]), w, Executing(s.tasks[0]))
    else With(s, w, Sleeping)
  }

  /** A worker is no longer busy; wait() is told if that was all it waited for. */
  function Settle(s: State): State {
    var s1 := s.(running := s.running - 1);
    if s1.waiting && WaitOver(s1) then NotifyWaiter(s1) else s1
  }

  ghost predicate WorkerStep(s: State, w: Wid, s': State) {
    && w in s.workers
    && match s.workers[w]
       case Starting => s' == Decide(Settle(s), w)
       case Returning => s' == Decide(Settle(s), w)
       case Woken => s' == Decide(s, w)
       case Sleeping => s' == With(s, w, Woken)          // a spurious wakeup
       case Executing(t) => s' == With(s.(finished := s.finished + {t}), w, Returning)
       case Exited => false
  }

  /* ---------- user steps ---------- */

  ghost predicate Detach(s: State, s': State) {
    s' == s.(tasks := s.tasks + [s.detached], detached := s.detached + 1, notifiers := s.notifiers + 1)
  }

  ghost predicate NotifyOne(s: State, s': State) {
    && s.notifiers > 0
    && var s1 := s.(notifiers := s.notifiers - 1);
       if exists w :: w in s.workers && s.workers[w].Sleeping? then
         exists w :: w in s.workers && s.workers[w].Sleeping? && s' == With(s1, w, Woken)
       else s' == s1
  }

  ghost predicate Pause(s: State, s': State) {
    s.pausable && s' == s.(paused := true)
  }

  ghost predicate Unpause(s: State, s': State) {
    s.pausable && s' == s.(paused := false, unpausers := s.unpausers + 1)
  }

  ghost predicate NotifyAll(s: State, s': State) {
    s.unpausers > 0 && s' == s.(unpausers := s.unpausers - 1, workers := WakeAll(s.workers))
  }

  ghost predicate Purge(s: State, s': State) {
    s' == s.(tasks := [], purged := s.purged + set t | t in s.tasks)
  }

  /* ---------- wait() and reset() ---------- */

  /** Locks the mutex, sets the waiting flag and looks. */
  function StartWait(s: State, todo: Option<Reset>): State {
    if WaitOver(s) then Resume(s, todo) else s.(waiting := true, ctl := Asleep(todo))
  }

  /** wait() returns. */
  function Resume(s: State, todo: Option<Reset>): State {
    s.(waiting := false, ctl := if todo.None? then Free else Halting(todo.value))
  }

  ghost predicate ControllerStep(s: State, s': State) {
    match s.ctl
    case Free =>
      || s' == StartWait(s, None)
      || exists n: nat :: n > 0 && s' == s.(ctl := Entering(Reset(n, s.paused)), paused := s.paused || s.pausable)
    case Entering(r) => s' == StartWait(s, Some(r))
    case Asleep(todo) => s' == s.(ctl := Roused(todo))    // a spurious wakeup
    case Roused(todo) => s' == if WaitOver(s) then Resume(s, todo) else s.(ctl := Asleep(todo))
    case Halting(r) => s' == s.(workersRunning := false, ctl := Announcing(r))
    case Announcing(r) => s' == s.(workers := WakeAll(s.workers), ctl := Joining(r))
    case Joining(r) =>
      && (forall w :: w in s.workers ==> s.workers[w].Exited?)
      && s' == s.(workers := map[], running := r.threads, workersRunning := true, ctl := Spawning(r, r.threads))
    case Spawning(r, left) =>
      if left == 0 then s' == s.(ctl := Restoring(r))
      else exists w :: w !in s.workers && s' == With(s, w, Starting).(ctl := Spawning(r, left - 1))
    case Restoring(r) => s' == s.(paused := if s.pausable then r.wasPaused else s.paused, ctl := Free)
  }

  ghost predicate Next(s: State, s': State) {
    || (exists w :: WorkerStep(s, w, s'))
    || Detach(s, s') || NotifyOne(s, s') || Pause(s, s') || Unpause(s, s') || NotifyAll(s, s') || Purge(s, s')
    || ControllerStep(s, s')
  }

  /** A newly constructed pool, its workers about to run their initialisation function. */
  ghost predicate Init(s: State) {
    && s.workers != map[] && (forall w :: w in s.workers ==> s.workers[w].Starting?)
    && s.running == |s.workers| && !s.waiting && !s.paused && s.workersRunning
    && s.tasks == [] && s.notifiers == 0 && s.unpausers == 0 && s.ctl == Free
    && s.detached == 0 && s.started == [] && s.finished == {} && s.purged == {}
  }

  /* ---------- invariant ---------- */

  predicate IsBusy(w: Worker) {
    w.Starting? || w.Executing? || w.Returning?
  }

  ghost function Busy(workers: map<Wid, Worker>): set<Wid> {
    set w | w in workers && IsBusy(workers[w])
  }

  function Unspawned(ctl: Controller): nat {
    if ctl.Spawning? then ctl.left else 0
  }

  /** tasks_running counts the workers initialising, those between popping a task and locking again, and those to come. */
  ghost predicate CountOk(s: State) {
    s.running == |Busy(s.workers)| + Unspawned(s.ctl)
  }

  ghost predicate FlagsOk(s: State) {
    && (s.waiting <==> s.ctl.Asleep? || s.ctl.Roused?)
    && (s.workersRunning <==> !s.ctl.Announcing? && !s.ctl.Joining?)
    && (s.workersRunning ==> forall w :: w in s.workers ==> !s.workers[w].Exited?)
    && (s.ctl.Joining? ==> forall w :: w in s.workers ==> !s.workers[w].Sleeping?)
    && (s.workers != map[] || Unspawned(s.ctl) > 0)
    && (!s.pausable ==> !s.paused)
    && (match s.ctl
        case Entering(r) => r.threads > 0
        case Asleep(todo) => todo.Some? ==> todo.value.threads > 0
        case Roused(todo) => todo.Some? ==> todo.value.threads > 0
        case Halting(r) => r.threads > 0
        case Announcing(r) => r.threads > 0
        case Joining(r) => r.threads > 0
        case _ => true)
  }

  /** Tasks popped so far, then tasks in the queue: in the order of detachment. */
  function Line(s: State): seq<Task> {
    s.started + s.tasks
  }

  ghost predicate TasksOk(s: State) {
    && (forall i, j :: 0 <= i < j < |Line(s)| ==> Line(s)[i] < Line(s)[j])
    && (forall t :: t in Line(s) ==> t < s.detached && t !in s.purged)
    && (forall t :: t in s.purged ==> t < s.detached)
    && (forall t: Task :: t < s.detached ==> t in Line(s) || t in s.purged)
  }

  ghost predicate RunsOk(s: State) {
    && (forall t :: t in s.finished ==> t in s.started)
    && (forall w :: w in s.workers && s.workers[w].Executing? ==>
          s.workers[w].task in s.started && s.workers[w].task !in s.finished)
    && (forall w, v :: w in s.workers && v in s.workers && s.workers[w].Executing? && s.workers[v] == s.workers[w] ==> w == v)
    && (forall t :: t in s.started && t !in s.finished ==> exists w :: w in s.workers && s.workers[w] == Executing(t))
  }

  ghost predicate Inv(s: State) {
    CountOk(s) && FlagsOk(s) && TasksOk(s) && RunsOk(s)
  }

  lemma InitInv(s: State)
    requires Init(s)
    ensures Inv(s)
  {
    assert Busy(s.workers) == s.workers.Keys;
  }

  /* ---------- worker steps keep the invariant ---------- */

  lemma BusyAfter(workers: map<Wid, Worker>, w: Wid, pc: Worker)
    ensures Busy(workers[w := pc]) == if IsBusy(pc) then Busy(workers) + {w} else Busy(workers) - {w}
  {
  }

  lemma BusyAwake(workers: map<Wid, Worker>)
    ensures Busy(WakeAll(workers)) == Busy(workers)
  {
  }

  /** Moves of a worker between points where it runs no task and does not exit. */
  lemma IdleMove(s: State, w: Wid, pc: Worker)
    requires RunsOk(s) && !pc.Executing? && (w in s.workers ==> !s.workers[w].Executing?)
    ensures RunsOk(With(s, w, pc))
  {
    var s' := With(s, w, pc);
    forall t | t in s'.started && t !in s'.finished ensures exists v :: v in s'.workers && s'.workers[v] == Executing(t) {
      var v :| v in s.workers && s.workers[v] == Executing(t);
      assert v in s'.workers && s'.workers[v] == Executing(t);
    }
  }

  lemma PopKept(s: State, w: Wid)
    requires TasksOk(s) && RunsOk(s) && w in s.workers && !s.workers[w].Executing? && s.tasks != []
    ensures var t := s.tasks[0];
      var s' := With(s.(tasks := s.tasks[1..], running := s.running + 1, started := s.started + [t]), w, Executing(t));
      TasksOk(s') && RunsOk(s')
  {
    var t := s.tasks[0];
    var s' := With(s.(tasks := s.tasks[1..], running := s.running + 1, started := s.started + [t]), w, Executing(t));
    assert Line(s') == Line(s);
    assert Line(s)[|s.started|] == t;
    forall i | 0 <= i < |s.started| ensures s.started[i] != t { assert Line(s)[i] == s.started[i]; }
    assert t !in s.started;
    forall u | u in s'.started && u !in s'.finished ensures exists v :: v in s'.workers && s'.workers[v] == Executing(u) {
      if u == t {
        assert s'.workers[w] == Executing(u);
      } else {
        var v :| v in s.workers && s.workers[v] == Executing(u);
        assert v in s'.workers && s'.workers[v] == Executing(u);
      }
    }
  }

  lemma FlagsMove(s: State, w: Wid, pc: Worker)
    requires FlagsOk(s) && w in s.workers && (pc.Exited? ==> !s.workersRunning) && (pc.Sleeping? ==> !s.ctl.Joining?)
    ensures FlagsOk(With(s, w, pc))
  {
  }

  lemma QueueIrrelevant(s: State, s': State)
    requires FlagsOk(s) && s'.waiting == s.waiting && s'.ctl == s.ctl && s'.workersRunning == s.workersRunning
    requires s'.workers == s.workers && s'.pausable == s.pausable && s'.paused == s.paused
    ensures FlagsOk(s')
  {
  }

  lemma CountMove(s: State, w: Wid, pc: Worker, running: int)
    requires w in s.workers && s.running == |Busy(s.workers) - {w}| + Unspawned(s.ctl)
    requires running == s.running + if IsBusy(pc) then 1 else 0
    ensures CountOk(With(s, w, pc).(running := running))
  {
    BusyAfter(s.workers, w, pc);
    hide Busy;
    if IsBusy(pc) {
      assert Busy(s.workers) + {w} == (Busy(s.workers) - {w}) + {w};
    }
  }

  lemma TakeKept(s: State, w: Wid)
    requires FlagsOk(s) && TasksOk(s) && RunsOk(s) && w in s.workers && !s.workers[w].Executing?
    requires s.running == |Busy(s.workers) - {w}| + Unspawned(s.ctl)
    requires s.workersRunning && CanWork(s)
    ensures Inv(Decide(s, w))
  {
    hide FlagsOk, TasksOk, RunsOk, Busy, CountOk;
    var t := s.tasks[0];
    CountMove(s, w, Executing(t), s.running + 1);
    FlagsMove(s, w, Executing(t));
    PopKept(s, w);
    QueueIrrelevant(With(s, w, Executing(t)), Decide(s, w));
    SameCount(With(s, w, Executing(t)).(running := s.running + 1), Decide(s, w));
  }

  /** A worker with the mutex locked that is not counted as busy. */
  lemma DecideKept(s: State, w: Wid)
    requires FlagsOk(s) && TasksOk(s) && RunsOk(s) && w in s.workers && !s.workers[w].Executing?
    requires s.running == |Busy(s.workers) - {w}| + Unspawned(s.ctl)
    ensures Inv(Decide(s, w))
  {
    assert !s.workersRunning || !s.ctl.Joining?;
    hide FlagsOk, TasksOk, RunsOk, Busy;
    if !s.workersRunning {
      CountMove(s, w, Exited, s.running);
      FlagsMove(s, w, Exited);
      IdleMove(s, w, Exited);
      SameLine(s, With(s, w, Exited));
    } else if CanWork(s) {
      TakeKept(s, w);
    } else {
      CountMove(s, w, Sleeping, s.running);
      FlagsMove(s, w, Sleeping);
      IdleMove(s, w, Sleeping);
      SameLine(s, With(s, w, Sleeping));
    }
  }

  lemma SameCount(s: State, s': State)
    requires CountOk(s) && s'.running == s.running && s'.workers == s.workers && s'.ctl == s.ctl
    ensures CountOk(s')
  {
  }

  lemma SameLine(s: State, s': State)
    requires TasksOk(s) && s'.started == s.started && s'.tasks == s.tasks && s'.purged == s.purged && s'.detached == s.detached
    ensures TasksOk(s')
  {
    assert Line(s') == Line(s);
  }

  lemma SameRuns(s: State, s': State)
    requires RunsOk(s) && s'.started == s.started && s'.finished == s.finished && s'.workers == s.workers
    ensures RunsOk(s')
  {
  }

  /** A busy worker has locked the mutex: it no longer counts. */
  lemma SettleKept(s: State, w: Wid)
    requires Inv(s) && w in s.workers && (s.workers[w].Starting? || s.workers[w].Returning?)
    ensures var s1 := Settle(s);
      && FlagsOk(s1) && TasksOk(s1) && RunsOk(s1) && s1.workers == s.workers
      && s1.running == |Busy(s1.workers) - {w}| + Unspawned(s1.ctl)
  {
    var s1 := Settle(s);
    assert w in Busy(s.workers);
    assert FlagsOk(s1);
    hide FlagsOk, TasksOk, RunsOk, Busy;
    SameLine(s, s1);
    SameRuns(s, s1);
  }

  lemma ExecutedKept(s: State, w: Wid)
    requires Inv(s) && w in s.workers && s.workers[w].Executing?
    ensures Inv(With(s.(finished := s.finished + {s.workers[w].task}), w, Returning))
  {
    var t := s.workers[w].task;
    var s1 := s.(finished := s.finished + {t});
    var s' := With(s1, w, Returning);
    ExecutedRuns(s, w);
    QueueIrrelevant(s, s1);
    FlagsMove(s1, w, Returning);
    BusyAfter(s.workers, w, Returning);
    assert w in Busy(s.workers);
    hide FlagsOk, TasksOk, RunsOk, Busy;
    assert Busy(s.workers) + {w} == Busy(s.workers);
    SameLine(s, s');
  }

  lemma ExecutedRuns(s: State, w: Wid)
    requires RunsOk(s) && w in s.workers && s.workers[w].Executing?
    ensures RunsOk(With(s.(finished := s.finished + {s.workers[w].task}), w, Returning))
  {
    var t := s.workers[w].task;
    var s' := With(s.(finished := s.finished + {t}), w, Returning);
    forall v | v in s'.workers && s'.workers[v].Executing? ensures s'.workers[v].task !in s'.finished {
      assert s'.workers[v] == s.workers[v];
    }
    forall u | u in s'.started && u !in s'.finished ensures exists v :: v in s'.workers && s'.workers[v] == Executing(u) {
      var v :| v in s.workers && s.workers[v] == Executing(u);
      assert v in s'.workers && s'.workers[v] == Executing(u);
    }
  }

  /** A sleeping worker wakes up. */
  lemma WakeKept(s: State, w: Wid)
    requires Inv(s) && w in s.workers && s.workers[w].Sleeping?
    ensures Inv(With(s, w, Woken))
  {
    FlagsMove(s, w, Woken);
    IdleMove(s, w, Woken);
    BusyAfter(s.workers, w, Woken);
    assert w !in Busy(s.workers);
    hide FlagsOk, TasksOk, RunsOk, Busy;
    assert Busy(s.workers) - {w} == Busy(s.workers);
    SameLine(s, With(s, w, Woken));
  }

  lemma WokenReady(s: State, w: Wid)
    requires Inv(s) && w in s.workers && s.workers[w].Woken?
    ensures s.running == |Busy(s.workers) - {w}| + Unspawned(s.ctl)
  {
    assert w !in Busy(s.workers);
    hide FlagsOk, TasksOk, RunsOk, Busy;
    assert Busy(s.workers) - {w} == Busy(s.workers);
  }

  lemma WorkerKept(s: State, w: Wid, s': State)
    requires Inv(s) && WorkerStep(s, w, s')
    ensures Inv(s')
  {
    hide Inv, Decide, Settle;
    match s.workers[w]
    case Starting => SettleKept(s, w); DecideKept(Settle(s), w);
    case Returning => SettleKept(s, w); DecideKept(Settle(s), w);
    case Woken => WokenReady(s, w); assert FlagsOk(s) && TasksOk(s) && RunsOk(s) by { Parts(s); } DecideKept(s, w);
    case Sleeping => WakeKept(s, w);
    case Executing(t) => ExecutedKept(s, w);
  }

  lemma Parts(s: State)
    requires Inv(s)
    ensures CountOk(s) && FlagsOk(s) && TasksOk(s) && RunsOk(s)
  {
  }

  /* ---------- other steps keep the invariant ---------- */

  lemma WakeAllKept(s: State, s': State)
    requires Inv(s) && s'.workers == WakeAll(s.workers) && s'.running == s.running && Unspawned(s'.ctl) == Unspawned(s.ctl)
    requires s'.tasks == s.tasks && s'.started == s.started && s'.finished == s.finished
    requires s'.purged == s.purged && s'.detached == s.detached
    ensures CountOk(s') && TasksOk(s') && RunsOk(s')
  {
    BusyAwake(s.workers);
    WakeAllRuns(s, s');
    hide FlagsOk, TasksOk, RunsOk, Busy, WakeAll;
    SameLine(s, s');
  }

  lemma WakeAllRuns(s: State, s': State)
    requires RunsOk(s) && s'.started == s.started && s'.finished == s.finished && s'.workers == WakeAll(s.workers)
    ensures RunsOk(s')
  {
    forall t | t in s'.started && t !in s'.finished ensures exists w :: w in s'.workers && s'.workers[w] == Executing(t) {
      var w :| w in s.workers && s.workers[w] == Executing(t);
      assert w in s'.workers && s'.workers[w] == Executing(t);
    }
  }

  lemma DetachKept(s: State, s': State)
    requires Inv(s) && Detach(s, s')
    ensures Inv(s')
  {
    QueueIrrelevant(s, s');
    SameCount(s, s');
    SameRuns(s, s');
    DetachTasks(s, s');
    hide FlagsOk, CountOk, RunsOk, TasksOk;
  }

  lemma DetachTasks(s: State, s': State)
    requires TasksOk(s) && Detach(s, s')
    ensures TasksOk(s')
  {
    assert Line(s') == Line(s) + [s.detached];
    forall i, j | 0 <= i < j < |Line(s')| ensures Line(s')[i] < Line(s')[j] {
      assert Line(s)[i] in Line(s);
    }
    forall t: Task | t < s'.detached ensures t in Line(s') || t in s'.purged {
      if t == s.detached {
        assert Line(s')[|Line(s)|] == t;
      } else if t !in s.purged {
        assert t in Line(s);
      }
    }
  }

  lemma PurgeKept(s: State, s': State)
    requires Inv(s) && Purge(s, s')
    ensures Inv(s')
  {
    QueueIrrelevant(s, s');
    SameCount(s, s');
    SameRuns(s, s');
    PurgeTasks(s, s');
    hide FlagsOk, CountOk, RunsOk, TasksOk;
  }

  lemma PurgeTasks(s: State, s': State)
    requires TasksOk(s) && Purge(s, s')
    ensures TasksOk(s')
  {
    assert Line(s') == s.started;
    StartedBeforeQueued(s);
    assert forall t :: t in Line(s) <==> t in s.started || t in s.tasks;
    forall i, j | 0 <= i < j < |Line(s')| ensures Line(s')[i] < Line(s')[j] {
      assert Line(s)[i] < Line(s)[j];
    }
    forall t | t in Line(s') ensures t < s'.detached && t !in s'.purged {
      assert t in Line(s);
    }
    forall t: Task | t < s'.detached ensures t in Line(s') || t in s'.purged {
      assert t in Line(s) || t in s.purged;
    }
  }

  lemma UserKept(s: State, s': State)
    requires Inv(s)
    requires NotifyOne(s, s') || Pause(s, s') || Unpause(s, s') || NotifyAll(s, s')
    ensures Inv(s')
  {
    if Pause(s, s') || Unpause(s, s') {
      SameCount(s, s');
      SameLine(s, s');
      SameRuns(s, s');
      FlagsPaused(s, s');
    } else if NotifyAll(s, s') {
      WakeAllKept(s, s');
      FlagsAwake(s, s');
    } else {
      NotifyOneKept(s, s');
    }
    hide FlagsOk, CountOk, RunsOk, TasksOk;
  }

  lemma FlagsPaused(s: State, s': State)
    requires FlagsOk(s) && (Pause(s, s') || Unpause(s, s'))
    ensures FlagsOk(s')
  {
  }

  lemma FlagsAwake(s: State, s': State)
    requires FlagsOk(s) && s'.workers == WakeAll(s.workers)
    requires s' == s.(workers := s'.workers, unpausers := s'.unpausers)
    ensures FlagsOk(s')
  {
    assert s.workers != map[] ==> s'.workers.Keys == s.workers.Keys;
    if s.workers != map[] {
      var w :| w in s.workers;
      assert w in s'.workers;
    }
  }

  lemma NotifyOneKept(s: State, s': State)
    requires Inv(s) && NotifyOne(s, s')
    ensures Inv(s')
  {
    var s1 := s.(notifiers := s.notifiers - 1);
    QueueIrrelevant(s, s1);
    SameCount(s, s1);
    SameLine(s, s1);
    SameRuns(s, s1);
    hide FlagsOk, CountOk, RunsOk, TasksOk;
    assert Inv(s1);
    if exists w :: w in s.workers && s.workers[w].Sleeping? {
      var w :| w in s.workers && s.workers[w].Sleeping? && s' == With(s1, w, Woken);
      WakeKept(s1, w);
    }
  }

  /** Controller steps that leave workers, queue and counts alone. */
  lemma ControlKept(s: State, s': State)
    requires Inv(s) && FlagsOk(s') && Unspawned(s'.ctl) == Unspawned(s.ctl)
    requires s'.workers == s.workers && s'.running == s.running && s'.tasks == s.tasks && s'.detached == s.detached
    requires s'.started == s.started && s'.finished == s.finished && s'.purged == s.purged
    ensures Inv(s')
  {
    SameLine(s, s');
    SameRuns(s, s');
    hide FlagsOk, TasksOk, RunsOk, Busy;
  }

  lemma WaitFlags(s: State, s': State)
    requires FlagsOk(s) && ControllerStep(s, s') && (s.ctl.Free? || s.ctl.Entering? || s.ctl.Asleep? || s.ctl.Roused?)
    ensures FlagsOk(s') && Unspawned(s'.ctl) == Unspawned(s.ctl)
    ensures s'.workers == s.workers && s'.running == s.running && s'.tasks == s.tasks && s'.detached == s.detached
    ensures s'.started == s.started && s'.finished == s.finished && s'.purged == s.purged
  {
  }

  lemma JoinKept(s: State, s': State)
    requires Inv(s) && ControllerStep(s, s') && s.ctl.Joining?
    ensures Inv(s')
  {
    assert Busy(s'.workers) == {};
    SameLine(s, s');
    hide TasksOk, Busy;
  }

  lemma SpawnOne(s: State, w: Wid, s': State)
    requires Inv(s) && s.ctl.Spawning? && s.ctl.left > 0
    requires w !in s.workers && s' == With(s, w, Starting).(ctl := Spawning(s.ctl.r, s.ctl.left - 1))
    ensures Inv(s')
  {
    SpawnFlags(s, w, s');
    BusyAfter(s.workers, w, Starting);
    assert w !in Busy(s.workers);
    hide FlagsOk, TasksOk, RunsOk, Busy;
    SameLine(s, s');
    IdleMove(s, w, Starting);
    SameRuns(With(s, w, Starting), s');
  }

  lemma SpawnFlags(s: State, w: Wid, s': State)
    requires FlagsOk(s) && s.ctl.Spawning? && s.ctl.left > 0
    requires w !in s.workers && s' == With(s, w, Starting).(ctl := Spawning(s.ctl.r, s.ctl.left - 1))
    ensures FlagsOk(s')
  {
    assert w in s'.workers;
  }

  lemma SpawnKept(s: State, s': State)
    requires Inv(s) && ControllerStep(s, s') && s.ctl.Spawning?
    ensures Inv(s')
  {
    hide CountOk, TasksOk, RunsOk;
    if s.ctl.left == 0 {
      ControlKept(s, s');
    } else {
      hide FlagsOk;
      var w :| w !in s.workers && s' == With(s, w, Starting).(ctl := Spawning(s.ctl.r, s.ctl.left - 1));
      SpawnOne(s, w, s');
    }
  }

  lemma ControllerKept(s: State, s': State)
    requires Inv(s) && ControllerStep(s, s')
    ensures Inv(s')
  {
    if s.ctl.Joining? {
      JoinKept(s, s');
    } else if s.ctl.Spawning? {
      SpawnKept(s, s');
    } else if s.ctl.Announcing? {
      WakeAllKept(s, s');
      AnnounceFlags(s, s');
      hide CountOk, FlagsOk, TasksOk, RunsOk;
    } else if s.ctl.Halting? || s.ctl.Restoring? {
      ControlKept(s, s');
    } else {
      WaitFlags(s, s');
      ControlKept(s, s');
    }
  }

  lemma AnnounceFlags(s: State, s': State)
    requires FlagsOk(s) && ControllerStep(s, s') && s.ctl.Announcing?
    ensures FlagsOk(s')
  {
    if s.workers != map[] {
      var w :| w in s.workers;
      assert w in s'.workers;
    }
  }

  lemma NextKept(s: State, s': State)
    requires Inv(s) && Next(s, s')
    ensures Inv(s')
  {
    hide Inv, WorkerStep, Detach, Purge, ControllerStep, NotifyOne, Pause, Unpause, NotifyAll;
    if w :| WorkerStep(s, w, s') {
      WorkerKept(s, w, s');
    } else if Detach(s, s') {
      DetachKept(s, s');
    } else if Purge(s, s') {
      PurgeKept(s, s');
    } else if ControllerStep(s, s') {
      ControllerKept(s, s');
    } else {
      UserKept(s, s');
    }
  }

  ghost predicate Run(r: seq<State>) {
    && |r| > 0 && Init(r[0])
    && forall i :: 0 <= i < |r| - 1 ==> Next(r[i], r[i + 1])
  }

  lemma {:induction false} RunInv(r: seq<State>, i: nat)
    requires Run(r) && i < |r|
    ensures Inv(r[i])
  {
    hide Init, Next, Inv;
    if i == 0 {
      InitInv(r[0]);
    } else {
      RunInv(r, i - 1);
      assert Next(r[i - 1], r[i - 1 + 1]);
      NextKept(r[i - 1], r[i]);
    }
  }

  /* ---------- theorems ---------- */

  /** tasks_running is the number of workers initialising (or still to be created) plus those between popping a task
      and locking the mutex again. */
  lemma RunningCounts(r: seq<State>, i: nat)
    requires Run(r) && i < |r|
    ensures r[i].running == |set w | w in r[i].workers && IsBusy(r[i].workers[w])| + Unspawned(r[i].ctl)
  {
    RunInv(r, i);
    hide Run, FlagsOk, TasksOk, RunsOk;
    assert Busy(r[i].workers) == set w | w in r[i].workers && IsBusy(r[i].workers[w]);
  }

  /** Where a task is. */
  ghost predicate InQueue(s: State, t: Task) {
    t in s.tasks
  }

  ghost predicate BeingRun(s: State, t: Task) {
    exists w :: w in s.workers && s.workers[w] == Executing(t)
  }

  /** Every task ever detached is in exactly one place: queued, being run, finished or purged; and nothing else is. */
  lemma Conservation(r: seq<State>, i: nat, t: Task)
    requires Run(r) && i < |r|
    ensures var s := r[i];
      && (t < s.detached <==> InQueue(s, t) || BeingRun(s, t) || t in s.finished || t in s.purged)
      && !(InQueue(s, t) && (BeingRun(s, t) || t in s.finished || t in s.purged))
      && !(BeingRun(s, t) && (t in s.finished || t in s.purged)) && !(t in s.finished && t in s.purged)
  {
    RunInv(r, i);
    hide Run, CountOk, FlagsOk;
    var s := r[i];
    StartedBeforeQueued(s);
    assert t in Line(s) <==> t in s.started || t in s.tasks;
  }

  lemma StartedBeforeQueued(s: State)
    requires TasksOk(s)
    ensures forall i, j :: 0 <= i < |s.started| && 0 <= j < |s.tasks| ==> s.started[i] < s.tasks[j]
  {
    forall i, j | 0 <= i < |s.started| && 0 <= j < |s.tasks| ensures s.started[i] < s.tasks[j] {
      assert Line(s)[i] < Line(s)[|s.started| + j];
    }
  }

  /** Tasks are started in the order in which they were detached, none of them twice. */
  lemma FirstInFirstOut(r: seq<State>, i: nat, a: nat, b: nat)
    requires Run(r) && i < |r| && a < b < |r[i].started|
    ensures r[i].started[a] < r[i].started[b]
  {
    RunInv(r, i);
    hide Run, CountOk, FlagsOk, RunsOk;
    assert Line(r[i])[a] < Line(r[i])[b];
  }

  /** A task is being run by one worker only; it has been started and has not finished. */
  lemma RunByOne(r: seq<State>, i: nat, w: Wid, v: Wid, t: Task)
    requires Run(r) && i < |r|
    requires w in r[i].workers && v in r[i].workers && r[i].workers[w] == r[i].workers[v] == Executing(t)
    ensures w == v && t in r[i].started && t !in r[i].finished
  {
    RunInv(r, i);
    hide Run, CountOk, FlagsOk, TasksOk;
  }

  /** wait() returns in this step: to its caller, or to reset(). */
  ghost predicate WaitReturns(s: State, s': State) {
    && ControllerStep(s, s') && (s.ctl.Free? || s.ctl.Entering? || s.ctl.Roused?)
    && (s'.ctl.Free? || s'.ctl.Halting?)
  }

  /** It does so only when its predicate holds. */
  lemma ReturnsWhenOver(s: State, s': State)
    requires WaitReturns(s, s')
    ensures WaitOver(s) && !s'.waiting
  {
  }

  /** When wait() returns, no task is being run; and unless the pool is paused, every task detached before has finished
      or has been purged. */
  lemma WaitComplete(r: seq<State>, i: nat, t: Task)
    requires Run(r) && i + 1 < |r| && WaitReturns(r[i], r[i + 1]) && t < r[i].detached
    ensures !BeingRun(r[i + 1], t)
    ensures !r[i].paused ==> t in r[i + 1].finished || t in r[i + 1].purged
  {
    RunInv(r, i);
    ReturnsWhenOver(r[i], r[i + 1]);
    WaitFlags(r[i], r[i + 1]);
    NobodyBusy(r[i], t);
    Conservation(r, i, t);
    hide Run, Inv, ControllerStep;
  }

  lemma NobodyBusy(s: State, t: Task)
    requires Inv(s) && s.running == 0
    ensures !BeingRun(s, t) && FlagsOk(s)
  {
    assert |Busy(s.workers)| == 0;
    forall w | w in s.workers ensures s.workers[w] != Executing(t) {
      assert w !in Busy(s.workers);
    }
  }

  /* ---------- reset() and the queue ---------- */

  /** reset() is called: it notes whether the pool is paused and pauses it, if that is possible. */
  ghost predicate EntersReset(s: State, s': State) {
    ControllerStep(s, s') && s.ctl.Free? && s'.ctl.Entering?
  }

  predicate InWait(ctl: Controller) {
    ctl.Free? || ctl.Entering? || ctl.Asleep? || ctl.Roused?
  }

  lemma WaitKeepsQueue(s: State, s': State)
    requires ControllerStep(s, s') && InWait(s.ctl)
    ensures s'.tasks == s.tasks && s'.started == s.started && s'.detached == s.detached && (s.paused ==> s'.paused)
  {
  }

  lemma RestartKeepsQueue(s: State, s': State)
    requires ControllerStep(s, s') && !InWait(s.ctl)
    ensures s'.tasks == s.tasks && s'.started == s.started && s'.detached == s.detached
    ensures s.paused ==> s'.paused || (s.ctl.Restoring? && s'.ctl.Free?)
  {
    hide WakeAll;
  }

  lemma WorkerQueue(s: State, w: Wid, s': State)
    requires WorkerStep(s, w, s')
    ensures s'.detached == s.detached && s'.paused == s.paused && (s.paused ==> s'.tasks == s.tasks && s'.started == s.started)
  {
    SettleQueue(s);
    DecideQueue(s, w);
    DecideQueue(Settle(s), w);
    hide Settle, Decide;
  }

  lemma SettleQueue(s: State)
    ensures Settle(s).detached == s.detached && Settle(s).paused == s.paused
    ensures Settle(s).tasks == s.tasks && Settle(s).started == s.started
  {
  }

  lemma DecideQueue(s: State, w: Wid)
    ensures Decide(s, w).detached == s.detached && Decide(s, w).paused == s.paused
    ensures s.paused ==> Decide(s, w).tasks == s.tasks && Decide(s, w).started == s.started
  {
  }

  lemma UserQueue(s: State, s': State)
    requires Detach(s, s') || NotifyOne(s, s') || Pause(s, s') || Unpause(s, s') || NotifyAll(s, s') || Purge(s, s')
    ensures s'.detached >= s.detached && s'.started == s.started
    ensures (s.tasks <= s'.tasks || Purge(s, s')) && (s.paused ==> s'.paused || Unpause(s, s'))
  {
    hide WakeAll;
  }

  /** While the pool is paused nothing leaves the queue, except by purge(); and only unpause() and the end of a reset()
      end the pause. */
  lemma PausedStep(s: State, s': State)
    requires Next(s, s')
    ensures s.detached <= s'.detached
    ensures s.paused ==> (s.tasks <= s'.tasks || Purge(s, s')) && s'.started == s.started
    ensures s.paused ==> s'.paused || Unpause(s, s') || (s.ctl.Restoring? && s'.ctl.Free?)
  {
    hide WorkerStep, Detach, Purge, ControllerStep, NotifyOne, Pause, Unpause, NotifyAll, InWait;
    if w :| WorkerStep(s, w, s') {
      WorkerQueue(s, w, s');
    } else if ControllerStep(s, s') {
      if InWait(s.ctl) { WaitKeepsQueue(s, s'); } else { RestartKeepsQueue(s, s'); }
    } else {
      UserQueue(s, s');
    }
  }

  lemma {:induction false} DetachedGrows(r: seq<State>, i: nat, j: nat)
    requires Run(r) && i <= j < |r|
    ensures r[i].detached <= r[j].detached
  {
    hide Init, Next, Unpause, Purge;
    if i < j {
      DetachedGrows(r, i, j - 1);
      assert Next(r[j - 1], r[j - 1 + 1]);
      PausedStep(r[j - 1], r[j]);
    }
  }

  /** Position of t in q. */
  function IndexOf(q: seq<Task>, t: Task): (i: nat)
    requires t in q
    ensures i < |q| && q[i] == t
  {
    if q[0] == t then 0 else 1 + IndexOf(q[1..], t)
  }

  lemma LineOrder(s: State, a: nat, b: nat)
    requires TasksOk(s) && a < |Line(s)| && b < |Line(s)| && Line(s)[a] < Line(s)[b]
    ensures a < b
  {
  }

  /** Whatever happens later, a reset() included, a task queued now is still queued, or it has been started or purged;
      and of two such tasks, the one ahead in the queue stays ahead in the line. */
  lemma QueueKept(r: seq<State>, i: nat, j: nat, a: nat, b: nat)
    requires Run(r) && i <= j < |r| && a < b < |r[i].tasks|
    ensures r[i].tasks[a] in Line(r[j]) || r[i].tasks[a] in r[j].purged
    ensures r[i].tasks[a] in Line(r[j]) && r[i].tasks[b] in Line(r[j]) ==>
      IndexOf(Line(r[j]), r[i].tasks[a]) < IndexOf(Line(r[j]), r[i].tasks[b])
  {
    RunInv(r, i);
    RunInv(r, j);
    DetachedGrows(r, i, j);
    hide Run, CountOk, FlagsOk, RunsOk, IndexOf;
    var t, u := r[i].tasks[a], r[i].tasks[b];
    assert Line(r[i])[|r[i].started| + a] == t && Line(r[i])[|r[i].started| + b] == u;
    assert t < u && t in Line(r[i]);
    if t in Line(r[j]) && u in Line(r[j]) {
      var x, y := IndexOf(Line(r[j]), t), IndexOf(Line(r[j]), u);
      LineOrder(r[j], x, y);
    }
  }

  /** A pausable pool that is neither unpaused nor purged meanwhile starts no task from the call of reset() to its
      return: the queue that reset() has found is handed over to the new workers, new tasks behind it. */
  lemma {:induction false} ResetKeepsQueue(r: seq<State>, i: nat, j: nat)
    requires Run(r) && i < j < |r| && EntersReset(r[i], r[i + 1]) && r[i].pausable
    requires forall m :: i < m < j ==> !r[m].ctl.Free? && !Unpause(r[m], r[m + 1]) && !Purge(r[m], r[m + 1])
    ensures r[i].tasks <= r[j].tasks && r[j].started == r[i].started
    ensures !r[j].ctl.Free? ==> r[j].paused
  {
    hide Init, Next, Unpause, Purge;
    if i + 1 < j {
      ResetKeepsQueue(r, i, j - 1);
      assert Next(r[j - 1], r[j - 1 + 1]) && !r[j - 1].ctl.Free?;
      assert !Unpause(r[j - 1], r[j - 1 + 1]) && !Purge(r[j - 1], r[j - 1 + 1]);
      PausedStep(r[j - 1], r[j]);
    }
  }

  /** The number of workers is the one asked for, once all have been created. */
  ghost predicate StaffOk(s: State) {
    match s.ctl
    case Spawning(r, left) => |s.workers.Keys| + left == r.threads
    case Restoring(r) => |s.workers.Keys| == r.threads
    case _ => true
  }

  /** Nobody comes or goes. */
  lemma SameStaff(s: State, s': State)
    requires StaffOk(s) && s'.workers.Keys == s.workers.Keys && (s'.ctl == s.ctl || s'.ctl.Roused?)
    ensures StaffOk(s')
  {
  }

  lemma DecideStaff(s: State, w: Wid)
    requires w in s.workers
    ensures Decide(s, w).workers.Keys == s.workers.Keys && Decide(s, w).ctl == s.ctl
  {
  }

  lemma SettleStaff(s: State)
    ensures Settle(s).workers == s.workers && (Settle(s).ctl == s.ctl || Settle(s).ctl.Roused?)
  {
  }

  lemma WorkerStays(s: State, w: Wid, s': State)
    requires WorkerStep(s, w, s')
    ensures s'.workers.Keys == s.workers.Keys && (s'.ctl == s.ctl || s'.ctl.Roused?)
  {
    hide Settle, Decide;
    match s.workers[w]
    case Starting => SettleStaff(s); DecideStaff(Settle(s), w);
    case Returning => SettleStaff(s); DecideStaff(Settle(s), w);
    case Woken => DecideStaff(s, w);
    case _ =>
  }

  lemma UserStaff(s: State, s': State)
    requires StaffOk(s)
    requires Detach(s, s') || NotifyOne(s, s') || Pause(s, s') || Unpause(s, s') || NotifyAll(s, s') || Purge(s, s')
    ensures StaffOk(s')
  {
    assert s'.ctl == s.ctl && s'.workers.Keys == s.workers.Keys by { hide StaffOk; }
    hide StaffOk, Detach, NotifyOne, Pause, Unpause, NotifyAll, Purge;
    SameStaff(s, s');
  }

  lemma ControllerStaff(s: State, s': State)
    requires StaffOk(s) && ControllerStep(s, s')
    ensures StaffOk(s')
  {
    if InWait(s.ctl) {
      WaitStaff(s, s');
      hide ControllerStep;
    } else {
      RestartStaff(s, s');
      hide *;
    }
  }

  lemma RestartStaff(s: State, s': State)
    requires StaffOk(s) && ControllerStep(s, s') && !InWait(s.ctl)
    ensures StaffOk(s')
  {
    hide *;
    if s.ctl.Spawning? {
      SpawnStaff(s, s');
    } else {
      StopStaff(s, s');
    }
  }

  lemma SpawnStaff(s: State, s': State)
    requires StaffOk(s) && ControllerStep(s, s') && s.ctl.Spawning?
    ensures StaffOk(s')
  {
    if s.ctl.left > 0 {
      var w :| w !in s.workers && s' == With(s, w, Starting).(ctl := Spawning(s.ctl.r, s.ctl.left - 1));
      hide *;
      OneMore(s.workers, w);
      SpawnedStaff(s, w, s');
    }
  }

  lemma OneMore(workers: map<Wid, Worker>, w: Wid)
    requires w !in workers
    ensures |workers[w := Starting].Keys| == |workers.Keys| + 1
  {
    assert workers[w := Starting].Keys == workers.Keys + {w};
  }

  lemma SpawnedStaff(s: State, w: Wid, s': State)
    requires StaffOk(s) && s.ctl.Spawning? && s.ctl.left > 0 && |s.workers[w := Starting].Keys| == |s.workers.Keys| + 1
    requires s' == With(s, w, Starting).(ctl := Spawning(s.ctl.r, s.ctl.left - 1))
    ensures StaffOk(s')
  {
  }

  lemma StopStaff(s: State, s': State)
    requires ControllerStep(s, s') && !InWait(s.ctl) && !s.ctl.Spawning?
    ensures StaffOk(s')
  {
    hide WakeAll;
  }

  lemma WaitStaff(s: State, s': State)
    requires ControllerStep(s, s') && InWait(s.ctl)
    ensures !s'.ctl.Spawning? && !s'.ctl.Restoring?
  {
  }

  lemma StaffKept(s: State, s': State)
    requires StaffOk(s) && Next(s, s')
    ensures StaffOk(s')
  {
    hide StaffOk, WorkerStep, Detach, Purge, ControllerStep, NotifyOne, Pause, Unpause, NotifyAll;
    if w :| WorkerStep(s, w, s') {
      WorkerStays(s, w, s');
      SameStaff(s, s');
    } else if ControllerStep(s, s') {
      ControllerStaff(s, s');
    } else {
      UserStaff(s, s');
    }
  }

  /** In every run, a reset() leaves as many workers as it was asked for. */
  lemma {:induction false} ResetStaffs(r: seq<State>, i: nat)
    requires Run(r) && i < |r|
    ensures StaffOk(r[i])
  {
    hide Next;
    if i > 0 {
      ResetStaffs(r, i - 1);
      assert Next(r[i - 1], r[i - 1 + 1]);
      hide Run, StaffOk;
      StaffKept(r[i - 1], r[i]);
    }
  }

  /* ---------- workers serve the queue ---------- */

  /** Whatever else has happened, a worker that is awake and gets the mutex while tasks may be run takes the first of them. */
  lemma WorkerTakesNext(s: State, w: Wid, s': State)
    requires CanWork(s) && s.workersRunning && WorkerStep(s, w, s') && !s.workers[w].Sleeping? && !s.workers[w].Executing?
    ensures w in s'.workers && s'.workers[w] == Executing(s.tasks[0]) && s'.tasks == s.tasks[1..] && s'.started == s.started + [s.tasks[0]]
  {
    SettleQueue(s);
    SettleWorks(s);
    DecideTakes(s, w);
    DecideTakes(Settle(s), w);
    hide Settle, Decide;
  }

  lemma SettleWorks(s: State)
    ensures Settle(s).workersRunning == s.workersRunning && (CanWork(Settle(s)) <==> CanWork(s))
  {
  }

  lemma DecideTakes(s: State, w: Wid)
    requires CanWork(s) && s.workersRunning
    ensures var s' := Decide(s, w);
      s'.workers == s.workers[w := Executing(s.tasks[0])] && s'.tasks == s.tasks[1..] && s'.started == s.started + [s.tasks[0]]
  {
  }

  /** unpause() lets the tasks run, and its notification wakes every worker there is. */
  lemma UnpauseResumes(s: State, s1: State, s2: State, w: Wid)
    requires Unpause(s, s1) && NotifyAll(s1, s2) && w in s.workers && s.tasks != []
    ensures CanWork(s2) && w in s2.workers && !s2.workers[w].Sleeping? && s2.tasks == s.tasks
  {
  }

  /** reset() cannot hang in join: no worker is left sleeping, so every one has exited or can take its next step. */
  lemma JoinProceeds(r: seq<State>, i: nat, w: Wid)
    requires Run(r) && i < |r| && r[i].ctl.Joining? && w in r[i].workers
    ensures r[i].workers[w].Exited? || exists s' :: WorkerStep(r[i], w, s')
  {
    RunInv(r, i);
    hide Run, CountOk, TasksOk, RunsOk, Decide, Settle;
    var s := r[i];
    match s.workers[w]
    case Starting => assert WorkerStep(s, w, Decide(Settle(s), w));
    case Returning => assert WorkerStep(s, w, Decide(Settle(s), w));
    case Woken => assert WorkerStep(s, w, Decide(s, w));
    case Executing(t) => assert WorkerStep(s, w, With(s.(finished := s.finished + {t}), w, Returning));
    case Exited =>
  }
}
