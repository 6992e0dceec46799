/** What the atomic actions of the concurrent table do to the arrays, the locks and the accounting. */
module ConcurrentEffects {
  import opened SizePolicy
  import opened QuadraticProber
  import opened Groups
  import opened Arrays
  import opened Wrappers
  import opened ArrayLaws
  import opened ConcurrentTable
  import opened ConcurrentInvariant

  /* ---------- arrays ---------- */

  /** b differs from a at most in one slot and in additional overflow marks. */
  ghost predicate SameExcept(a: Arrays, b: Arrays, slot: Slot)
    requires WellFormed(a) && WellFormed(b)
  {
    && MarksKept(a, b)
    && (forall u :: IsSlot(b, u) <==> IsSlot(a, u))
    && (forall u :: IsSlot(a, u) && u != slot ==> Meta(b, u) == Meta(a, u) && ElementAt(b, u) == ElementAt(a, u))
  }

  lemma SetByte(a: Arrays, slot: Slot, hash: Hash)
    requires WellFormed(a) && IsSlot(a, slot)
    ensures var b := WithGroup(a, slot.g, a.groups[slot.g].Set(slot.n, hash));
      WellFormed(b) && SameExcept(a, b, slot) && Meta(b, slot) == ReducedHash(hash) && ElementAt(b, slot) == ElementAt(a, slot)
  {
  }

  lemma ResetByte(a: Arrays, slot: Slot)
    requires WellFormed(a) && IsSlot(a, slot)
    ensures var b := WithGroup(a, slot.g, a.groups[slot.g].Reset(slot.n));
      WellFormed(b) && SameExcept(a, b, slot) && Meta(b, slot) == AVAILABLE && ElementAt(b, slot) == ElementAt(a, slot)
  {
  }

  lemma PutElement(a: Arrays, slot: Slot, e: Option<Element>)
    requires WellFormed(a) && IsSlot(a, slot)
    ensures var b := WithElement(a, slot, e);
      WellFormed(b) && SameExcept(a, b, slot) && Meta(b, slot) == Meta(a, slot) && ElementAt(b, slot) == e
  {
  }

  lemma MarkByte(a: Arrays, g: nat, hash: Hash, slot: Slot)
    requires WellFormed(a) && a.elements != [] && g < |a.groups|
    ensures var b := WithGroup(a, g, a.groups[g].MarkOverflow(hash));
      WellFormed(b) && SameExcept(a, b, slot) && (IsSlot(a, slot) ==> Meta(b, slot) == Meta(a, slot) && ElementAt(b, slot) == ElementAt(a, slot))
  {
  }

  lemma FlaggedKept(a: Arrays, b: Arrays, hash: Hash, i: nat)
    requires WellFormed(a) && WellFormed(b) && MarksKept(a, b) && Flagged(a, hash, i)
    ensures Flagged(b, hash, i)
  {
  }

  /** Live slots after a one-slot change. */
  lemma LiveAfter(a: Arrays, b: Arrays, slot: Slot)
    requires WellFormed(a) && WellFormed(b) && SameExcept(a, b, slot) && IsSlot(a, slot)
    ensures |Live(b)| == |Live(a)| - (if ElementAt(a, slot).Some? then 1 else 0) + (if ElementAt(b, slot).Some? then 1 else 0)
  {
    hide WellFormed;
    forall u ensures u in Live(b) <==> (if u == slot then ElementAt(b, slot).Some? else u in Live(a)) {
      SlotInAll(a, u);
      SlotInAll(b, u);
    }
    SlotInAll(a, slot);
    var rest := Live(a) - {slot};
    assert Live(b) == if ElementAt(b, slot).Some? then rest + {slot} else rest;
  }

  lemma SlotsAfter(a: Arrays, b: Arrays, slot: Slot)
    requires WellFormed(a) && WellFormed(b) && SameExcept(a, b, slot) && SlotsOk(a)
    requires IsSlot(b, slot) ==> SlotOk(b, slot)
    ensures SlotsOk(b)
  {
    hide WellFormed;
    forall u | IsSlot(b, u) ensures SlotOk(b, u) {
      if u != slot && ElementAt(b, u).Some? {
        assert SlotOk(a, u);
        ReachesKept(a, b, ElementAt(a, u).value.key.hash, u.g);
      }
    }
  }

  /* ---------- accounting ---------- */

  function Count(b: bool): int {
    if b then 1 else 0
  }

  lemma SelectAfter(threads: map<Tid, Thread>, t: Tid, th: Thread, kind: Thread -> bool)
    ensures |Select(threads[t := th], kind)| == |Select(threads, kind)| - Count(t in threads && kind(threads[t])) + Count(kind(th))
  {
    var rest := Select(threads, kind) - {t};
    assert Select(threads[t := th], kind) == if kind(th) then rest + {t} else rest;
    assert Select(threads, kind) == if t in threads && kind(threads[t]) then rest + {t} else rest;
  }

  lemma EligibleFewer(threads: map<Tid, Thread>, ml: int)
    ensures |Select(threads, EligibleAt(ml - 1))| <= |Select(threads, EligibleAt(ml))|
  {
    SubsetSize(Select(threads, EligibleAt(ml - 1)), Select(threads, EligibleAt(ml)));
  }

  /** Reservations looked at from two sides: every one that counts against ml also counts in size. */
  lemma ClaimsWithinSize(threads: map<Tid, Thread>, ml: int)
    ensures |Select(threads, Admitted)| + |Select(threads, EligibleAt(ml))| <= |Select(threads, Reserved)|
    ensures |Select(threads, Owing)| + |Select(threads, Paid)| <= |Select(threads, Erasing)|
  {
    var x, y := Select(threads, Admitted), Select(threads, EligibleAt(ml));
    assert x !! y;
    SubsetSize(x + y, Select(threads, Reserved));
    var u, v := Select(threads, Owing), Select(threads, Paid);
    assert u !! v;
    SubsetSize(u + v, Select(threads, Erasing));
  }

  /** Change of the number of live slots that the accounting allows a step to make. */
  ghost predicate Balanced(s: State, th: Thread, th': Thread, s': State, live: int)
  {
    && s'.size == s.size + live + Count(Reserved(th')) - Count(Reserved(th)) + Count(Erasing(th')) - Count(Erasing(th))
    && live + Count(Admitted(th')) - Count(Admitted(th)) + Count(Eligible(s.ml, th')) - Count(Eligible(s.ml, th))
         + Count(Owing(th')) - Count(Owing(th)) <= s'.ml - s.ml
    && s.ml - 1 <= s'.ml <= s.ml
    && s'.ml + Count(Paid(th')) - Count(Paid(th)) <= s.ml
    && (th'.pc.Decide? ==> th'.pc.ticket > 0)
  }

  /** A step that balances keeps the accounting. */
  lemma CountsAfter(s: State, t: Tid, th': Thread, s': State, live: int)
    requires WellTyped(s) && WellTyped(s') && CountsOk(s)
    requires t in s.threads && s'.threads == s.threads[t := th']
    requires |Live(s'.a)| == |Live(s.a)| + live && Capacity(s'.a) == Capacity(s.a)
    requires Balanced(s, s.threads[t], th', s', live)
    ensures CountsOk(s')
  {
    hide WellFormed, Live, WellTyped, Select, Reserved, Admitted, Erasing, Owing, Paid, Eligible, InitialMaxLoad;
    SelectAfter(s.threads, t, th', Reserved);
    SelectAfter(s.threads, t, th', Erasing);
    SelectAfter(s.threads, t, th', Admitted);
    SelectAfter(s.threads, t, th', Owing);
    SelectAfter(s.threads, t, th', Paid);
    SelectAfter(s.threads, t, th', EligibleAt(s.ml));
    EligibleFewer(s'.threads, s.ml);
  }
}
