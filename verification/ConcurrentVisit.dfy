/** Unsuccessful lookups are linearizable: a key present throughout a lookup is found. */
module ConcurrentVisit {
  import opened SizePolicy
  import opened Groups
  import opened Arrays
  import opened Wrappers
  import opened ConcurrentTable
  import opened ConcurrentInvariant
  import opened ConcurrentEffects
  import opened ConcurrentKept
  import opened ConcurrentLookup
  import opened ConcurrentSteps
  import opened ConcurrentInsert
  import opened ConcurrentContainer
  import opened ConcurrentTheorems
  import opened ConcurrentRefinement

  /** The thread is looking its key up. */
  ghost predicate Looking(s: State, w: Tid, k: Key) {
    && w in s.threads && KeyOf(s.threads[w].op) == k
    && (s.threads[w].pc.Match? || s.threads[w].pc.Lock? || s.threads[w].pc.Check? || s.threads[w].pc.Overflow?)
  }

  /** The thread is about to compare the first byte of its home group. */
  ghost predicate Begins(s: State, w: Tid, k: Key) {
    Looking(s, w, k) && s.threads[w].pc.Match? && s.threads[w].pc.step == 0 && s.threads[w].pc.n == 0
  }

  ghost predicate AheadOf(s: State, w: Tid, x: Slot)
    requires WellTyped(s)
  {
    w in s.threads && Ahead(s.a, s.threads[w], x)
  }

  /** While somebody is looking, a key that stays present stays in its slot. */
  lemma PresentStays(s: State, s': State, event: Event, x: Slot, y: Slot, k: Key)
    requires WellTyped(s) && WellTyped(s') && SlotEffect(s, s', event)
    requires Present(s, x, k) && Present(s', y, k)
    ensures Present(s', x, k)
  {
    PresentBinds(s, x, k);
    PresentBinds(s', x, k);
    PresentBinds(s', y, k);
    hide WellTyped, BindsAt;
    var v :| BindsAt(s, x, k, v);
    var u :| BindsAt(s', y, k, u);
    match event
    case Silent => assert BindsAt(s', x, k, v);
    case Added(k0, v0) => var slot :| AddedAt(s, s', slot, k0, v0); assert BindsAt(s', x, k, v);
    case Removed(k0) => assert BindsAt(s', x, k, v);
    case Stored(k0, v0) => assert BindsAt(s', x, k, if k == k0 then v0 else v);
  }

  lemma NoRehashWhileLooking(s: State, t: Tid, s': State, w: Tid, k: Key)
    requires Inv(s) && Step(s, t, s') && Looking(s, w, k)
    ensures !s.threads[t].pc.HoldAll?
  {
    StepThread(s, t, s');
    assert ContainerOk(s);
    hide Inv, Step;
  }

  /** Whoever looks a key up shares access to the container. */
  lemma NotExclusive(s: State, s': State, w: Tid, k: Key)
    requires Inv(s) && Looking(s, w, k)
    ensures !ExclusiveStep(s, s')
  {
    assert ContainerOk(s);
    hide Inv;
    assert w in s.sharers;
  }

  lemma MoveSlots(s: State, t: Tid, s': State, w: Tid, k: Key) returns (event: Event)
    requires Inv(s) && Moves(s, t, s') && Looking(s, w, k)
    ensures Inv(s') && SlotEffect(s, s', event)
  {
    InvParts(s);
    hide Inv, SlotEffect, WellTyped, Step, Start, Looking, ExclusiveStep;
    if Step(s, t, s') {
      StepThread(s, t, s');
      StepInv(s, t, s');
      NoRehashWhileLooking(s, t, s', w, k);
      StepEffect(s, t, s');
      event := EventOf(s, t, s');
    } else {
      NotExclusive(s, s', w, k);
      var op :| Start(s, t, op, s');
      StartKept(s, t, op, s');
      StartPlain(s, t, op, s');
      InvParts(s');
      PlainEffect(s, t, s');
      event := Silent;
    }
  }

  /** Other threads leave a looking thread and the dimensions of the table alone. */
  lemma OthersKeepAhead(s: State, t: Tid, s': State, w: Tid, k: Key, x: Slot)
    requires Inv(s) && Inv(s') && Moves(s, t, s') && Looking(s, w, k) && t != w && AheadOf(s, w, x)
    ensures AheadOf(s', w, x)
  {
    hide *;
    InvParts(s);
    InvParts(s');
    OthersFrame(s, t, s', w, k);
    SameAhead(s, s', w, x);
  }

  lemma OthersFrame(s: State, t: Tid, s': State, w: Tid, k: Key)
    requires Inv(s) && WellTyped(s) && Moves(s, t, s') && Looking(s, w, k) && t != w
    ensures s'.a.index == s.a.index && w in s.threads && w in s'.threads && s'.threads[w] == s.threads[w]
  {
    hide Inv, WellTyped, ExclusiveStep, Step;
    NotExclusive(s, s', w, k);
    if Step(s, t, s') {
      StepThread(s, t, s');
      NoRehashWhileLooking(s, t, s', w, k);
      OthersKept(s, t, s', w);
    }
  }

  lemma SameAhead(s: State, s': State, w: Tid, x: Slot)
    requires WellTyped(s) && WellTyped(s') && s'.a.index == s.a.index && w in s.threads && w in s'.threads
    requires s'.threads[w] == s.threads[w] && AheadOf(s, w, x)
    ensures AheadOf(s', w, x)
  {
    assert WellFormed(s.a) && WellFormed(s'.a);
    hide WellTyped, Ahead, WellFormed;
    AheadSame(s.a, s'.a, s.threads[w], x);
  }

  lemma OthersKept(s: State, t: Tid, s': State, w: Tid)
    requires WellTyped(s) && Step(s, t, s') && t != w && !s.threads[t].pc.HoldAll? && w in s.threads
    ensures s'.a.index == s.a.index && w in s'.threads && s'.threads[w] == s.threads[w]
  {
    hide WellTyped, Probe, ReducedHash, Rehashed;
  }

  lemma OwnStep(s: State, w: Tid, s': State, k: Key)
    requires WellTyped(s) && Moves(s, w, s') && Looking(s, w, k)
    ensures LookupStep(s, w, s') && w in s'.threads
  {
    hide WellTyped, Probe, ReducedHash, Rehashed, ExclusiveStep;
  }

  lemma OwnKeepsAhead(s: State, s': State, w: Tid, k: Key, x: Slot)
    requires Inv(s) && Inv(s') && Moves(s, w, s') && Looking(s, w, k) && AheadOf(s, w, x) && Present(s, x, k)
    ensures w in s'.threads && (s'.threads[w].pc.Found? || AheadOf(s', w, x))
  {
    InvParts(s);
    InvParts(s');
    OwnStep(s, w, s', k);
    hide Moves, LookupStep;
    LookupNeverMisses(s, w, s', x);
  }

  lemma BeginsAhead(s: State, w: Tid, k: Key, x: Slot)
    requires WellTyped(s) && Begins(s, w, k)
    ensures AheadOf(s, w, x)
  {
    hide WellTyped, Probe;
  }

  /** The thread is looking for the key, and the key is present. */
  ghost predicate Steady(s: State, w: Tid, k: Key) {
    WellTyped(s) && Looking(s, w, k) && HasKey(s, k)
  }

  /** The slot holds the key and the looking thread will come across it. */
  ghost predicate OnCourse(s: State, w: Tid, k: Key, x: Slot) {
    WellTyped(s) && Looking(s, w, k) && Present(s, x, k) && AheadOf(s, w, x)
  }

  lemma FoundAtFirst(s: State, w: Tid, k: Key) returns (x: Slot)
    requires Steady(s, w, k) && Begins(s, w, k)
    ensures OnCourse(s, w, k, x)
  {
    hide WellTyped, Looking, Begins, Present, AheadOf;
    x :| Present(s, x, k);
    BeginsAhead(s, w, k, x);
  }

  lemma StaysFound(s: State, t: Tid, s': State, w: Tid, k: Key, x: Slot)
    requires Inv(s) && Inv(s') && WellTyped(s) && Moves(s, t, s') && OnCourse(s, w, k, x) && Steady(s', w, k)
    ensures OnCourse(s', w, k, x)
  {
    assert w in s'.threads && !s'.threads[w].pc.Found?;
    hide Inv, Moves, WellTyped, Looking, Present, AheadOf, SlotEffect;
    var event := MoveSlots(s, t, s', w, k);
    var y :| Present(s', y, k);
    PresentStays(s, s', event, x, y, k);
    if t == w {
      OwnKeepsAhead(s, s', w, k, x);
    } else {
      OthersKeepAhead(s, t, s', w, k, x);
    }
  }

  lemma TraceStep(r: seq<State>, who: seq<Tid>, i: nat)
    requires Trace(r, who) && i < |who|
    ensures i + 1 < |r| && Inv(r[i]) && Inv(r[i + 1]) && WellTyped(r[i]) && Moves(r[i], who[i], r[i + 1])
  {
    hide Run, Inv, Moves, WellTyped;
    RunInv(r, i);
    RunInv(r, i + 1);
  }

  /** While the key stays present, the slot holding it stays ahead of the lookup. */
  lemma {:induction false} StaysAhead(r: seq<State>, who: seq<Tid>, w: Tid, k: Key, i: nat, j: nat) returns (x: Slot)
    requires Trace(r, who) && i <= j <= |who| < |r| && (forall m :: i <= m <= j ==> Steady(r[m], w, k))
    requires Begins(r[i], w, k)
    ensures OnCourse(r[j], w, k, x)
  {
    hide *;
    if i == j {
      x := FoundAtFirst(r[i], w, k);
    } else {
      x := StaysAhead(r, who, w, k, i, j - 1);
      TraceStep(r, who, j - 1);
      StaysFound(r[j - 1], who[j - 1], r[j], w, k, x);
    }
  }

  lemma MissedStep(s: State, s': State, w: Tid, k: Key, x: Slot)
    requires Inv(s) && Inv(s') && Moves(s, w, s') && Looking(s, w, k) && AheadOf(s, w, x) && Present(s, x, k)
    requires w in s'.threads && !s'.threads[w].pc.Found?
    ensures Looking(s', w, k)
  {
    OwnKeepsAhead(s, s', w, k, x);
    InvParts(s);
    InvParts(s');
    OwnStep(s, w, s', k);
    hide Inv, WellTyped, Moves, Present;
    AheadLooks(s, s', w, k, x);
  }

  lemma AheadLooks(s: State, s': State, w: Tid, k: Key, x: Slot)
    requires WellTyped(s) && WellTyped(s') && Looking(s, w, k) && LookupStep(s, w, s') && AheadOf(s', w, x)
    ensures Looking(s', w, k)
  {
    hide WellTyped, NotPassed;
  }

  /** In any run, a lookup that ends without finding its key overlapped a moment at which the key was absent. */
  lemma MissJustified(r: seq<State>, who: seq<Tid>, w: Tid, k: Key, i: nat, n: nat)
    requires Trace(r, who) && i <= n < |who| && who[n] == w
    requires forall m :: i <= m <= n ==> Looking(r[m], w, k)
    requires Begins(r[i], w, k)
    requires w in r[n + 1].threads && !Looking(r[n + 1], w, k) && !r[n + 1].threads[w].pc.Found?
    ensures exists m :: i <= m <= n && WellTyped(r[m]) && !HasKey(r[m], k)
  {
    assert |who| < |r| by { hide Run, Moves, WellTyped; }
    if forall m :: i <= m <= n ==> Steady(r[m], w, k) {
      hide Trace, Looking, Begins, Steady, OnCourse;
      var x := StaysAhead(r, who, w, k, i, n);
      TraceStep(r, who, n);
      FoundParts(r[n], w, k, x);
      MissedStep(r[n], r[n + 1], w, k, x);
    } else {
      hide Looking, Begins, Moves, WellTyped, HasKey, Run;
      var m :| i <= m <= n && !Steady(r[m], w, k);
      assert WellTyped(r[m]) && !HasKey(r[m], k);
    }
  }

  lemma FoundParts(s: State, w: Tid, k: Key, x: Slot)
    requires OnCourse(s, w, k, x)
    ensures WellTyped(s) && Looking(s, w, k) && Present(s, x, k) && AheadOf(s, w, x)
  {
    hide WellTyped, Looking, Present, AheadOf;
  }
}
