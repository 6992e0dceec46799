/** Visitation of elements by key: one key at a time, and in bulk with the lookups of a chunk interleaved. */
module TableVisits {
  import opened SizePolicy
  import opened Pow2Arith
  import opened QuadraticProber
  import opened Groups
  import opened Arrays
  import opened Wrappers
  import opened ArrayLaws
  import opened TableStorage

  /** Keys looked up together by bulk visitation. */
  const BULK_VISIT_SIZE := 16

  /** A visitor is given an element and stores a new value. */
  type Visitor = (Key, int) -> int

  /** Visiting keys one after another: the contents afterwards, and the elements passed to the visitor, in order. */
  function Visits(m: map<Key, int>, keys: seq<Key>, f: Visitor): (map<Key, int>, seq<Element>) {
    if keys == [] then (m, [])
    else
      var r := Visits(m, keys[..|keys| - 1], f);
      var k := keys[|keys| - 1];
      if k in r.0 then (r.0[k := f(k, r.0[k])], r.1 + [Element(k, r.0[k])]) else r
  }

  /** Visiting a list of keys is visiting its first part and then its second. */
  lemma {:induction false} VisitsAppend(m: map<Key, int>, a: seq<Key>, b: seq<Key>, f: Visitor)
    ensures var r := Visits(m, a, f);
      Visits(m, a + b, f) == (Visits(r.0, b, f).0, r.1 + Visits(r.0, b, f).1)
  {
    if b == [] {
      assert a + b == a;
      var r := Visits(m, a, f);
      assert Visits(r.0, b, f) == (r.0, []);
      assert r.1 + [] == r.1;
    } else {
      var r := Visits(m, a, f);
      VisitsAppend(m, a, b[..|b| - 1], f);
      assert (a + b)[..|a + b| - 1] == a + b[..|b| - 1] && (a + b)[|a + b| - 1] == b[|b| - 1];
      var q := Visits(r.0, b[..|b| - 1], f);
      var e := [Element(b[|b| - 1], if b[|b| - 1] in q.0 then q.0[b[|b| - 1]] else 0)];
      assert r.1 + (q.1 + e) == r.1 + q.1 + e;
    }
  }

  /** How many of the keys, with repetitions, are in the map. */
  function Hits(m: map<Key, int>, keys: seq<Key>): nat {
    if keys == [] then 0 else Hits(m, keys[..|keys| - 1]) + if keys[|keys| - 1] in m then 1 else 0
  }

  /** The visitor is called exactly once for every listed key that is present, and no key comes or goes. */
  lemma {:induction false} VisitsCount(m: map<Key, int>, keys: seq<Key>, f: Visitor)
    ensures Visits(m, keys, f).0.Keys == m.Keys
    ensures |Visits(m, keys, f).1| == Hits(m, keys)
  {
    if keys != [] {
      VisitsCount(m, keys[..|keys| - 1], f);
    }
  }

  /** Storing another value into an element changes just what its key is mapped to. */
  lemma StoreValid(a: Arrays, s: Slot, v: int)
    requires Valid(a) && IsSlot(a, s) && ElementAt(a, s).Some?
    ensures var e := ElementAt(a, s).value;
      var b := a.(elements := a.elements[15 * s.g + s.n := Some(e.(value := v))]);
      Valid(b) && Contents(b) == Contents(a)[e.key := v] && Live(b) == Live(a)
  {
    var e := ElementAt(a, s).value;
    var b := a.(elements := a.elements[15 * s.g + s.n := Some(e.(value := v))]);
    assert WellFormed(b) && MarksKept(a, b);
    assert forall t :: IsSlot(b, t) <==> IsSlot(a, t);
    forall t | IsSlot(b, t) ensures SlotOk(b, t) && (ElementAt(b, t).Some? <==> ElementAt(a, t).Some?) {
      assert SlotOk(a, t);
      if ElementAt(a, t).Some? {
        ReachesKept(a, b, ElementAt(a, t).value.key.hash, t.g);
      }
    }
    forall k, t ensures HoldsKey(b, t, k) <==> HoldsKey(a, t, k) {}
    forall t ensures t in Live(b) <==> t in Live(a) {
      SlotInAll(a, t);
      SlotInAll(b, t);
    }
    StoreContents(a, b, s, v);
  }

  lemma StoreContents(a: Arrays, b: Arrays, s: Slot, v: int)
    requires WellFormed(a) && UniqueKeys(a) && WellFormed(b) && UniqueKeys(b) && IsSlot(a, s) && ElementAt(a, s).Some?
    requires forall k, t :: HoldsKey(b, t, k) <==> HoldsKey(a, t, k)
    requires IsSlot(b, s) && ElementAt(b, s) == Some(ElementAt(a, s).value.(value := v))
    requires forall t :: IsSlot(a, t) && t != s ==> IsSlot(b, t) && ElementAt(b, t) == ElementAt(a, t)
    ensures Contents(b) == Contents(a)[ElementAt(a, s).value.key := v]
  {
    hide WellFormed, Contents;
    var key := ElementAt(a, s).value.key;
    assert HoldsKey(a, s, key);
    forall k ensures k in Contents(b) <==> k in Contents(a) {
      ContentsAt(a, k);
      ContentsAt(b, k);
    }
    ContentsAt(a, key);
    forall k | k in Contents(b) ensures Contents(b)[k] == Contents(a)[key := v][k] {
      ContentsAt(a, k);
      ContentsAt(b, k);
      var t :| HoldsKey(b, t, k);
    }
  }

  /** Compares the candidate slots of a group, skipping those given up in the meantime; N if none holds the key. */
  method CompareOccupied(t: TableArrays, pos: nat, candidates: set<nat>, k: Key) returns (n: nat)
    requires Valid(t.Value()) && pos < t.groups.Length && candidates == t.groups[pos].Match(k.hash)
    ensures n < N ==> HoldsKey(t.Value(), Slot(pos, n), k)
    ensures n >= N ==> t.Cleared(pos, k)
  {
    var mask := candidates;
    ghost var a := t.Value();
    while mask != {}
      invariant mask <= candidates
      invariant forall m :: m in candidates && m !in mask ==> !HoldsKey(a, Slot(pos, m), k)
    {
      n := Lowest(mask);
      HitIsSlot(a, pos, n, k.hash);
      assert Meta(a, Slot(pos, n)) != AVAILABLE && ElementAt(a, Slot(pos, n)).Some?;
      if t.groups[pos].IsOccupied(n) {
        if t.elements[15 * pos + n].value.key == k {
          return;
        }
      }
      mask := mask - {n};
    }
    n := N;
    OnlyCandidates(a, pos, k);
  }

  /** The visitor is called on the element in a slot. */
  method Call(t: TableArrays, slot: Slot, k: Key, f: Visitor) returns (e: Element)
    requires Valid(t.Value()) && HoldsKey(t.Value(), slot, k)
    modifies t.elements
    ensures Valid(t.Value()) && Live(t.Value()) == old(Live(t.Value()))
    ensures k in old(Contents(t.Value())) && e == Element(k, old(Contents(t.Value()))[k])
    ensures Contents(t.Value()) == old(Contents(t.Value()))[k := f(k, e.value)]
  {
    ghost var a := t.Value();
    ContentsAt(a, k);
    var i := 15 * slot.g + slot.n;
    e := t.elements[i].value;
    StoreValid(a, slot, f(k, e.value));
    t.elements[i] := Some(e.(value := f(k, e.value)));
    assert t.Value() == a.(elements := a.elements[i := Some(e.(value := f(k, e.value)))]);
  }

  /** The outcome of visiting the key is that of the specification. */
  ghost predicate VisitedAs(before: map<Key, int>, keys: seq<Key>, f: Visitor, after: map<Key, int>, log: seq<Element>, res: nat) {
    (after, log) == Visits(before, keys, f) && res == |log|
  }

  lemma VisitedSingle(m: map<Key, int>, k: Key, f: Visitor)
    ensures k in m ==> VisitedAs(m, [k], f, m[k := f(k, m[k])], [Element(k, m[k])], 1)
    ensures k !in m ==> VisitedAs(m, [k], f, m, [], 0)
  {
    assert [k][..0] == [];
    assert Visits(m, [], f) == (m, []);
    if k in m {
      assert [] + [Element(k, m[k])] == [Element(k, m[k])];
    }
  }

  /** Visits the key in the slot that holds it. */
  method VisitFound(t: TableArrays, slot: Slot, k: Key, f: Visitor) returns (log: seq<Element>)
    requires Valid(t.Value()) && HoldsKey(t.Value(), slot, k)
    modifies t.elements
    ensures log != [] && Done(old(t.Value()), k, f, t.Value(), log)
  {
    VisitedSingle(Contents(t.Value()), k, f);
    hide Contents, Visits, VisitedAs, HoldsKey, SlotsOk, UniqueKeys, Settled;
    var e := Call(t, slot, k, f);
    log := [e];
  }

  /** Visits the key if it is among the candidates of the group. */
  method VisitInGroup(t: TableArrays, pos: nat, candidates: set<nat>, k: Key, f: Visitor) returns (log: seq<Element>)
    requires Valid(t.Value()) && pos < t.groups.Length && candidates == t.groups[pos].Match(k.hash)
    modifies t.elements
    ensures log == [] ==> t.elements[..] == old(t.elements[..]) && t.Cleared(pos, k)
    ensures log != [] ==> Done(old(t.Value()), k, f, t.Value(), log)
  {
    hide Contents, HoldsKey, SlotsOk, UniqueKeys, Settled, Done;
    log := [];
    if candidates != {} {
      var n := CompareOccupied(t, pos, candidates, k);
      if n < N {
        log := VisitFound(t, Slot(pos, n), k, f);
      }
    } else {
      OnlyCandidates(t.Value(), pos, k);
    }
  }

  /** The table went from a to b by visiting the key. */
  ghost predicate Done(a: Arrays, k: Key, f: Visitor, b: Arrays, log: seq<Element>) {
    Valid(a) && Valid(b) && Live(b) == Live(a) && b.groups == a.groups && VisitedAs(Contents(a), [k], f, Contents(b), log, |log|)
  }

  /** The table went from a to b by visiting the keys one after another. */
  ghost predicate DoneAll(a: Arrays, keys: seq<Key>, f: Visitor, b: Arrays, log: seq<Element>) {
    && Valid(a) && Valid(b) && Live(b) == Live(a) && b.groups == a.groups
    && (Contents(b), log) == Visits(Contents(a), keys, f)
  }

  lemma NothingToVisit(t: TableArrays, k: Key, f: Visitor)
    requires t.Absent(k)
    ensures Done(t.Value(), k, f, t.Value(), [])
  {
    VisitedSingle(Contents(t.Value()), k, f);
  }

  /** unprotected_internal_visit. */
  method Visit(t: TableArrays, k: Key, f: Visitor) returns (res: nat, log: seq<Element>)
    requires Valid(t.Value())
    modifies t.elements
    ensures Done(old(t.Value()), k, f, t.Value(), log) && res == |log|
  {
    var pb := t.StartSearch(k);
    hide Valid, Contents, Done, TableArrays.Searching, TableArrays.Absent;
    var more := true;
    while more
      invariant t.elements[..] == old(t.elements[..])
      invariant if more then t.Searching(pb, k) else t.Absent(k)
      decreases more, t.groups.Length - pb.step
    {
      t.SearchPosition(pb, k);
      log := VisitInGroup(t, pb.pos, t.groups[pb.pos].Match(k.hash), k, f);
      if log != [] {
        return |log|, log;
      }
      more := t.Advance(pb, k);
    }
    NothingToVisit(t, k, f);
    return 0, [];
  }

  /** One key of a bulk visitation, given its home group and the candidates matched there beforehand. */
  method VisitMatched(t: TableArrays, k: Key, pos0: nat, mask0: set<nat>, f: Visitor) returns (res: nat, log: seq<Element>)
    requires Valid(t.Value()) && pos0 == Position(k.hash, t.index) && pos0 < t.groups.Length
    requires mask0 == t.groups[pos0].Match(k.hash)
    modifies t.elements
    ensures Done(old(t.Value()), k, f, t.Value(), log) && res == |log|
  {
    var pb := t.StartSearch(k);
    t.SearchPosition(pb, k);
    hide Valid, Contents, Done, TableArrays.Searching, TableArrays.Absent;
    var pos, mask := pos0, mask0;
    while true
      invariant t.elements[..] == old(t.elements[..]) && t.Searching(pb, k)
      invariant pos == pb.pos && pos < t.groups.Length && mask == t.groups[pos].Match(k.hash)
      decreases t.groups.Length - pb.step
    {
      t.SearchPosition(pb, k);
      log := VisitInGroup(t, pos, mask, k, f);
      if log != [] {
        return |log|, log;
      }
      var more;
      more, pos, mask := Skip(t, pb, k);
      if !more {
        NothingToVisit(t, k, f);
        return 0, [];
      }
    }
  }

  /** From a group without the key, goes on past groups without candidates; false if the search is over. */
  method Skip(t: TableArrays, pb: Prober, k: Key) returns (more: bool, pos: nat, mask: set<nat>)
    requires t.Searching(pb, k) && t.Cleared(pb.pos, k)
    modifies pb
    ensures more ==> t.Searching(pb, k) && pb.step > old(pb.step)
    ensures more ==> pos == pb.pos && pos < t.groups.Length && mask == t.groups[pos].Match(k.hash)
    ensures !more ==> t.Absent(k)
  {
    more, pos, mask := true, pb.pos, {};
    t.SearchPosition(pb, k);
    hide TableArrays.Searching, TableArrays.Cleared, TableArrays.Absent, Valid;
    while more && mask == {}
      invariant more ==> pb.step >= old(pb.step) && (mask != {} ==> pb.step > old(pb.step))
      invariant if more then t.Searching(pb, k) && pos == pb.pos && pos < t.groups.Length else t.Absent(k)
      invariant more && mask == {} ==> t.Cleared(pb.pos, k)
      invariant more && mask != {} ==> mask == t.groups[pos].Match(k.hash)
      decreases more, t.groups.Length - pb.step
    {
      t.SearchPosition(pb, k);
      more := t.Advance(pb, k);
      if more {
        t.SearchPosition(pb, k);
        pos := pb.pos;
        mask := t.groups[pos].Match(k.hash);
        if mask == {} {
          NoCandidates(t, pos, k);
        }
      }
    }
  }

  lemma NoCandidates(t: TableArrays, pos: nat, k: Key)
    requires Valid(t.Value()) && pos < t.groups.Length && t.groups[pos].Match(k.hash) == {}
    ensures t.Cleared(pos, k)
  {
    OnlyCandidates(t.Value(), pos, k);
  }

  /* ---------- bulk visitation ---------- */

  lemma HomeInRange(t: TableArrays, hash: Hash)
    requires Valid(t.Value())
    ensures Position(hash, t.index) < t.groups.Length && |t.groups[Position(hash, t.index)].meta| == N
  {
    PositionInRange(hash, t.index);
  }

  lemma NoneDone(a: Arrays, f: Visitor)
    requires Valid(a)
    ensures DoneAll(a, [], f, a, [])
  {
  }

  lemma OneMoreDone(a: Arrays, keys: seq<Key>, i: nat, f: Visitor, b: Arrays, log: seq<Element>, c: Arrays, l: seq<Element>)
    requires i < |keys| && DoneAll(a, keys[..i], f, b, log) && Done(b, keys[i], f, c, l)
    ensures DoneAll(a, keys[..i + 1], f, c, log + l)
  {
    hide WellFormed, SlotsOk, UniqueKeys, Settled, Contents, Visits;
    VisitsAppend(Contents(a), keys[..i], [keys[i]], f);
    assert keys[..i + 1] == keys[..i] + [keys[i]];
  }

  lemma MoreDone(a: Arrays, keys: seq<Key>, more: seq<Key>, f: Visitor, b: Arrays, log: seq<Element>, c: Arrays, l: seq<Element>)
    requires DoneAll(a, keys, f, b, log) && DoneAll(b, more, f, c, l)
    ensures DoneAll(a, keys + more, f, c, log + l)
  {
    hide WellFormed, SlotsOk, UniqueKeys, Settled, Contents, Visits;
    VisitsAppend(Contents(a), keys, more, f);
  }

  lemma DoneAllValid(a: Arrays, keys: seq<Key>, f: Visitor, b: Arrays, log: seq<Element>)
    requires DoneAll(a, keys, f, b, log)
    ensures Valid(b) && b.groups == a.groups
  {
  }

  /** The buffers from index i on describe the first keys, in reverse. */
  ghost predicate Buffered(t: TableArrays, keys: seq<Key>, hashes: array<Hash>, positions: array<nat>, i: nat)
    reads hashes, positions
  {
    && |keys| <= hashes.Length && |keys| <= positions.Length
    && forall j :: i <= j < |keys| ==> hashes[j] == keys[|keys| - 1 - j].hash && HomeOf(t, hashes[j], positions[j])
  }

  ghost predicate HomeOf(t: TableArrays, hash: Hash, pos: nat) {
    IsSizeIndex(t.index) && pos == Position(hash, t.index)
  }

  ghost predicate Matched(a: Arrays, hashes: array<Hash>, positions: array<nat>, masks: array<set<nat>>, i: nat, m: nat)
    reads hashes, positions, masks
  {
    && m <= masks.Length && m <= hashes.Length && m <= positions.Length
    && forall j :: i <= j < m ==> IsMatch(a, hashes[j], positions[j], masks[j])
  }

  ghost predicate IsMatch(a: Arrays, hash: Hash, pos: nat, mask: set<nat>) {
    pos < |a.groups| && |a.groups[pos].meta| == N && mask == a.groups[pos].Match(hash)
  }

  /** First pass: hashes and home groups. */
  method HashKeys(t: TableArrays, keys: seq<Key>, hashes: array<Hash>, positions: array<nat>)
    requires Valid(t.Value()) && |keys| <= hashes.Length && |keys| <= positions.Length
    modifies hashes, positions
    ensures Buffered(t, keys, hashes, positions, 0)
  {
    var it, i := 0, |keys|;
    hide Position;
    while i > 0
      invariant it == |keys| - i && 0 <= i <= |keys|
      invariant Buffered(t, keys, hashes, positions, i)
    {
      i := i - 1;
      hashes[i] := keys[it].hash;
      positions[i] := Position(hashes[i], t.index);
      it := it + 1;
    }
  }

  /** Second pass: the candidates of every home group. */
  method MatchKeys(t: TableArrays, keys: seq<Key>, hashes: array<Hash>, positions: array<nat>, masks: array<set<nat>>)
    requires Valid(t.Value()) && Buffered(t, keys, hashes, positions, 0) && |keys| <= masks.Length
    modifies masks
    ensures Matched(t.Value(), hashes, positions, masks, 0, |keys|)
  {
    var i := |keys|;
    hide Position, Valid;
    while i > 0
      invariant 0 <= i <= |keys| && Matched(t.Value(), hashes, positions, masks, i, |keys|)
    {
      i := i - 1;
      HomeInRange(t, hashes[i]);
      masks[i] := t.groups[positions[i]].Match(hashes[i]);
    }
  }

  lemma BufferAt(t: TableArrays, keys: seq<Key>, a: Arrays, hashes: array<Hash>, positions: array<nat>, masks: array<set<nat>>, i: nat)
    requires Buffered(t, keys, hashes, positions, 0) && Matched(a, hashes, positions, masks, 0, |keys|) && i < |keys|
    ensures |keys| <= hashes.Length && |keys| <= positions.Length && |keys| <= masks.Length
    ensures HomeOf(t, keys[|keys| - 1 - i].hash, positions[i]) && IsMatch(a, keys[|keys| - 1 - i].hash, positions[i], masks[i])
  {
    assert HomeOf(t, hashes[i], positions[i]) && IsMatch(a, hashes[i], positions[i], masks[i]);
  }

  /** unprotected_bulk_visit: hashes and positions first, then the matches of the home groups, then the visits.
      The buffers are filled from the far end while the keys are taken in order. */
  method BulkVisitChunk(t: TableArrays, keys: seq<Key>, f: Visitor) returns (res: nat, log: seq<Element>)
    requires Valid(t.Value()) && |keys| < 2 * BULK_VISIT_SIZE
    modifies t.elements
    ensures DoneAll(old(t.Value()), keys, f, t.Value(), log) && res == |log|
  {
    var hashes := new Hash[2 * BULK_VISIT_SIZE - 1];
    var positions := new nat[2 * BULK_VISIT_SIZE - 1];
    var masks := new set<nat>[2 * BULK_VISIT_SIZE - 1];
    HashKeys(t, keys, hashes, positions);
    MatchKeys(t, keys, hashes, positions, masks);
    ghost var a := t.Value();
    NoneDone(a, f);
    assert keys[..0] == [];
    hide Valid, Position, Contents, DoneAll, Done, Buffered, Matched;
    var it, i := 0, |keys|;
    res, log := 0, [];
    while i > 0
      invariant it == |keys| - i && 0 <= i <= |keys|
      invariant Buffered(t, keys, hashes, positions, 0) && Matched(a, hashes, positions, masks, 0, |keys|)
      invariant DoneAll(a, keys[..it], f, t.Value(), log) && res == |log|
    {
      i := i - 1;
      DoneAllValid(a, keys[..it], f, t.Value(), log);
      ghost var b := t.Value();
      BufferAt(t, keys, a, hashes, positions, masks, i);
      var r, l := VisitMatched(t, keys[it], positions[i], masks[i], f);
      OneMoreDone(a, keys, it, f, b, log, t.Value(), l);
      res, log, it := res + r, log + l, it + 1;
    }
    assert keys[..it] == keys;
  }

  /** bulk_visit: the keys are taken in chunks that fit the buffers. Visits every key once, in order. */
  method BulkVisit(t: TableArrays, keys: seq<Key>, f: Visitor) returns (res: nat, log: seq<Element>)
    requires Valid(t.Value())
    modifies t.elements
    ensures DoneAll(old(t.Value()), keys, f, t.Value(), log)
    ensures res == |log| == Hits(old(Contents(t.Value())), keys)
  {
    ghost var a := t.Value();
    VisitsCount(Contents(a), keys, f);
    NoneDone(a, f);
    assert keys[..0] == [];
    var first, n := 0, |keys|;
    res, log := 0, [];
    while n > 0
      invariant first + n == |keys| && 0 <= n && 0 <= first
      invariant DoneAll(a, keys[..first], f, t.Value(), log) && res == |log|
    {
      hide Valid, Contents, DoneAll;
      var m := if n < 2 * BULK_VISIT_SIZE then n else BULK_VISIT_SIZE;
      DoneAllValid(a, keys[..first], f, t.Value(), log);
      ghost var b := t.Value();
      var r, l := BulkVisitChunk(t, keys[first..first + m], f);
      MoreDone(a, keys[..first], keys[first..first + m], f, b, log, t.Value(), l);
      assert keys[..first] + keys[first..first + m] == keys[..first + m];
      res, log := res + r, log + l;
      n := n - m;
      first := first + m;
    }
    assert keys[..first] == keys;
  }
}
