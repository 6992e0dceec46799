/** Little-endian words read from bytes by shifts and ORs. */
module ByteWords {
  import opened BitOps
  import opened Pow2Arith

  type Byte = b: nat | b < 256

  function LittleEndian(s: seq<Byte>): nat {
    if s == [] then 0 else s[0] + 256 * LittleEndian(s[1..])
  }

  /** x << k. */
  function Up(x: nat, k: nat): nat {
    x * Pow2(k)
  }

  /** x << i * 8. */
  function Lift(x: nat, i: nat): nat {
    Up(x, 8 * i)
  }

  /** read32le (k = 4) and read64le (k = 8): the OR of the shifted bytes. */
  function ReadBytes(s: seq<Byte>, k: nat): nat
    requires k <= |s|
  {
    if k == 0 then 0 else Or(ReadBytes(s, k - 1), Lift(s[k - 1], k - 1))
  }

  /* ---------- OR ---------- */

  lemma {:induction false} OrCommutes(x: nat, y: nat)
    ensures Or(x, y) == Or(y, x)
  {
    if x > 0 || y > 0 {
      OrCommutes(x / 2, y / 2);
    }
  }

  lemma {:induction false} OrRepeats(x: nat)
    ensures Or(x, x) == x
  {
    if x > 0 {
      OrRepeats(x / 2);
    }
  }

  lemma {:induction false} OrAssociates(x: nat, y: nat, z: nat)
    ensures Or(Or(x, y), z) == Or(x, Or(y, z))
    decreases x + y + z
  {
    if x > 0 || y > 0 || z > 0 {
      OrAssociates(x / 2, y / 2, z / 2);
      OrDigits(x, y);
      OrDigits(y, z);
      OrDigits(Or(x, y), z);
      OrDigits(x, Or(y, z));
    }
  }

  /** OR works separately above and below any bit position. */
  lemma {:induction false} OrSplits(x: nat, y: nat, a: nat, b: nat, k: nat)
    requires a < Pow2(k) && b < Pow2(k)
    ensures Or(Up(x, k) + a, Up(y, k) + b) == Up(Or(x, y), k) + Or(a, b)
  {
    UpNone(x);
    UpNone(y);
    UpNone(Or(x, y));
    if k > 0 {
      OrSplits(x, y, a / 2, b / 2, k - 1);
      UpDoubles(x, k);
      UpDoubles(y, k);
      UpDoubles(Or(x, y), k);
      hide Or, Up;
      OrDigits(Up(x, k) + a, Up(y, k) + b);
      OrDigits(a, b);
    }
  }

  lemma UpNone(x: nat)
    ensures Up(x, 0) == x
  {
    assert Pow2(0) == 1;
  }

  lemma UpDoubles(x: nat, k: nat)
    requires k > 0
    ensures Up(x, k) == 2 * Up(x, k - 1)
  {
    assert x * (2 * Pow2(k - 1)) == 2 * (x * Pow2(k - 1));
  }

  /** With nothing in common, OR is addition. */
  lemma OrAdds(x: nat, y: nat, k: nat)
    requires x < Pow2(k)
    ensures Or(x, Up(y, k)) == x + Up(y, k)
  {
    hide Or, Pow2;
    assert Up(0, k) == 0;
    hide Up;
    OrSplits(0, y, x, 0, k);
    OrZero(x);
    OrCommutes(0, y);
    OrZero(y);
  }

  /* ---------- little-endian words ---------- */

  lemma {:induction false} WordBound(s: seq<Byte>)
    ensures LittleEndian(s) < Pow2(8 * |s|)
  {
    if s == [] {
      assert Pow2(0) == 1;
    } else {
      WordBound(s[1..]);
      NextByte(|s| - 1);
      hide Pow2;
    }
  }

  lemma NextByte(k: nat)
    ensures Pow2(8 * (k + 1)) == 256 * Pow2(8 * k)
  {
    Pow2Add(8, 8 * k);
    assert Pow2(8) == 256;
  }

  lemma {:induction false} WordAppend(s: seq<Byte>, t: seq<Byte>)
    ensures LittleEndian(s + t) == LittleEndian(s) + Lift(LittleEndian(t), |s|)
  {
    if s == [] {
      assert s + t == t;
      UpNone(LittleEndian(t));
    } else {
      WordAppend(s[1..], t);
      assert (s + t)[1..] == s[1..] + t;
      LiftNext(LittleEndian(t), |s| - 1);
      hide Lift;
    }
  }

  lemma LiftNext(x: nat, i: nat)
    ensures Lift(x, i + 1) == 256 * Lift(x, i)
  {
    NextByte(i);
    assert x * (256 * Pow2(8 * i)) == 256 * (x * Pow2(8 * i));
    hide Pow2;
  }

  lemma OneByte(b: Byte)
    ensures LittleEndian([b]) == b
  {
    assert LittleEndian([b][1..]) == 0;
  }

  /** Reading one more byte: OR puts it above the ones already there. */
  lemma Extend(s: seq<Byte>, b: Byte)
    ensures Or(LittleEndian(s), Lift(b, |s|)) == LittleEndian(s + [b])
  {
    WordBound(s);
    OrAdds(LittleEndian(s), b, 8 * |s|);
    WordAppend(s, [b]);
    OneByte(b);
    hide Or, Up, Pow2, LittleEndian;
  }

  lemma {:induction false} ReadBytesIs(s: seq<Byte>, k: nat)
    requires k <= |s|
    ensures ReadBytes(s, k) == LittleEndian(s[..k])
  {
    if k > 0 {
      ReadBytesIs(s, k - 1);
      Extend(s[..k - 1], s[k - 1]);
      assert s[..k - 1] + [s[k - 1]] == s[..k];
      hide Or, LittleEndian, Lift;
    }
  }

  /** Words of equally many bytes are equal only if the bytes are. */
  lemma {:induction false} WordInjective(s: seq<Byte>, t: seq<Byte>)
    requires |s| == |t| && LittleEndian(s) == LittleEndian(t)
    ensures s == t
  {
    if s != [] {
      assert s[0] == t[0] && LittleEndian(s[1..]) == LittleEndian(t[1..]);
      WordInjective(s[1..], t[1..]);
      assert s == [s[0]] + s[1..] && t == [t[0]] + t[1..];
    }
  }

  /* ---------- tails ---------- */

  /** The two other positions read when one to three bytes are left: (n - 1) & 2 and n >> 1. */
  lemma TailIndices(n: nat)
    requires 1 <= n <= 3
    ensures And(n - 1, 2) == if n == 3 then 2 else 0
  {
    assert And(1, 1) == 1;
    assert And(0, 1) == 0;
  }

  /** One to three bytes, with reads that may coincide. */
  function ShortTail(s: seq<Byte>): nat
    requires 1 <= |s| <= 3
  {
    TailIndices(|s|);
    var x1 := And(|s| - 1, 2);
    var x2 := |s| / 2;
    Or(Or(Lift(s[x1], x1), Lift(s[x2], x2)), s[0])
  }

  /** Four to seven bytes, with two reads of four that may overlap. */
  function LongTail(s: seq<Byte>): nat
    requires 4 <= |s| <= 7
  {
    Or(Lift(ReadBytes(s[|s| - 4..], 4), |s| - 4), ReadBytes(s, 4))
  }

  lemma LiftNone(x: nat)
    ensures Lift(x, 0) == x
  {
    UpNone(x);
  }

  lemma ShortTailIs(s: seq<Byte>)
    requires 1 <= |s| <= 3
    ensures ShortTail(s) == LittleEndian(s)
  {
    TailIndices(|s|);
    LiftNone(s[0]);
    OrZero(s[0]);
    OrCommutes(0, s[0]);
    OneByte(s[0]);
    Extend(s[..1], if |s| > 1 then s[1] else 0);
    Extend(s[..if |s| > 2 then 2 else 0], if |s| > 2 then s[2] else 0);
    assert s[..1] == [s[0]] && (|s| > 1 ==> s[..1] + [s[1]] == s[..2]) && (|s| > 2 ==> s[..2] + [s[2]] == s) && s[..|s|] == s;
    hide Or, And, LittleEndian, Lift;
    OrRepeats(s[0]);
    if |s| == 2 {
      OrCommutes(Or(s[0], Lift(s[1], 1)), s[0]);
      OrAssociates(s[0], s[0], Lift(s[1], 1));
    } else if |s| == 3 {
      OrCommutes(Lift(s[2], 2), Lift(s[1], 1));
      OrCommutes(Or(Lift(s[1], 1), Lift(s[2], 2)), s[0]);
      OrAssociates(s[0], Lift(s[1], 1), Lift(s[2], 2));
    }
  }

  /** Where the two reads overlap they see the same bits. */
  lemma Overlay(low: seq<Byte>, middle: seq<Byte>, high: seq<Byte>)
    ensures Or(Lift(LittleEndian(middle + high), |low|), LittleEndian(low + middle)) == LittleEndian(low + middle + high)
  {
    var a, x, y, z := LittleEndian(low), LittleEndian(middle + high), LittleEndian(middle), LittleEndian(high);
    hide LittleEndian, Or, Pow2;
    WordBound(low);
    WordBound(middle);
    WordAppend(middle, high);
    WordAppend(low, middle);
    WordAppend(low, middle + high);
    assert low + (middle + high) == low + middle + high;
    assert Up(0, 8 * |middle|) == 0;
    hide Up;
    OrSplits(x, y, 0, a, 8 * |low|);
    OrSplits(z, 0, y, y, 8 * |middle|);
    OrRepeats(y);
    OrZero(z);
    OrZero(a);
    OrCommutes(0, a);
    assert Or(x, y) == x;
  }

  /** The overlapping reads see every remaining byte in its place. */
  lemma LongTailIs(s: seq<Byte>)
    requires 4 <= |s| <= 7
    ensures LongTail(s) == LittleEndian(s)
  {
    hide Or, LittleEndian, Lift, ReadBytes;
    var j := |s| - 4;
    var t := s[j..];
    Pieces(s, j);
    ReadBytesIs(s, 4);
    ReadBytesIs(t, 4);
    Overlay(s[..j], s[j..4], s[4..]);
  }

  lemma Pieces(s: seq<Byte>, j: nat)
    requires j <= 4 <= |s| && |s| == j + 4
    ensures s[j..][..4] == s[j..] == s[j..4] + s[4..]
    ensures s[..j] + s[j..4] == s[..4]
    ensures s[..j] + s[j..4] + s[4..] == s
  {
    assert s[..4] + s[4..] == s;
  }

  /* ---------- reading one byte at a time ---------- */

  /** Reads up to limit bytes, checking for the end of the range before each. */
  method ReadForward(s: seq<Byte>, first: nat, limit: nat) returns (v1: nat, next: nat)
    requires first <= |s|
    ensures next == if first + limit <= |s| then first + limit else |s|
    ensures v1 == LittleEndian(s[first..next])
  {
    v1, next := 0, first;
    assert s[first..first] == [];
    while next < first + limit
      invariant first <= next <= first + limit && next <= |s|
      invariant v1 == LittleEndian(s[first..next])
    {
      hide Or, Lift, LittleEndian;
      if next == |s| {
        return;
      }
      Extend(s[first..next], s[next]);
      assert s[first..next] + [s[next]] == s[first..next + 1];
      v1 := Or(v1, Lift(s[next], next - first));
      next := next + 1;
    }
  }
}

/** hash_range over bytes with a 64-bit size_t: the form for random access and the form for forward iterators. */
module HashRange64 {
  import opened BitOps
  import opened Pow2Arith
  import opened ByteWords

  /** The multiplicative mixer (mulx) may be any function. */
  type Mixer = (nat, nat) -> nat

  const Q: nat := 0x9e3779b97f4a7c15
  const K: nat := 0xdf442d22ce4859b9

  /** Unsigned 64-bit sum. */
  function Sum(x: nat, y: nat): nat {
    (x + y) % 0x1_0000_0000_0000_0000
  }

  datatype Mix = Mix(h: nat, w: nat)

  function Absorb(m: Mix, v: nat, mix: Mixer): Mix {
    var w := Sum(m.w, Q);
    Mix(Xor(m.h, mix(Sum(v, w), K)), w)
  }

  /** After absorbing the first k blocks of 8 bytes; the length is not in h. */
  function Absorbed(seed: nat, s: seq<Byte>, k: nat, mix: Mixer): Mix
    requires 8 * k <= |s|
  {
    if k == 0 then var w := mix(Sum(seed, Q), K); Mix(w, w)
    else Absorb(Absorbed(seed, s, k - 1, mix), LittleEndian(s[8 * (k - 1)..8 * k]), mix)
  }

  /** The full blocks, the length, then the remaining bytes (possibly none) as one more block. */
  function Mixed(seed: nat, s: seq<Byte>, mix: Mixer): Mix {
    var k := |s| / 8;
    var m := Absorbed(seed, s, k, mix);
    Absorb(Mix(Xor(m.h, |s|), m.w), LittleEndian(s[8 * k..]), mix)
  }

  /** All that has been mixed in, mixed once more. */
  function Hash(seed: nat, s: seq<Byte>, mix: Mixer): nat {
    var n := Mixed(seed, s, mix);
    mix(Sum(n.h, n.w), K)
  }

  function ReadTail(s: seq<Byte>): nat
    requires |s| < 8
  {
    if |s| >= 4 then LongTail(s) else if |s| >= 1 then ShortTail(s) else 0
  }

  lemma ReadTailIs(s: seq<Byte>)
    requires |s| < 8
    ensures ReadTail(s) == LittleEndian(s)
  {
    hide LongTail, ShortTail;
    if |s| >= 4 {
      LongTailIs(s);
    } else if |s| >= 1 {
      ShortTailIs(s);
    }
  }

  lemma Read64Is(s: seq<Byte>, p: nat)
    requires p + 8 <= |s|
    ensures ReadBytes(s[p..], 8) == LittleEndian(s[p..p + 8])
  {
    ReadBytesIs(s[p..], 8);
    assert s[p..][..8] == s[p..p + 8];
    hide ReadBytes, LittleEndian;
  }

  /* ---------- how the hash unfolds ---------- */

  lemma NoneAbsorbed(seed: nat, s: seq<Byte>, mix: Mixer)
    ensures Absorbed(seed, s, 0, mix).h == Absorbed(seed, s, 0, mix).w == mix(Sum(seed, Q), K)
  {
    hide Sum;
  }

  lemma NextAbsorbed(seed: nat, s: seq<Byte>, k: nat, mix: Mixer) returns (m: Mix)
    requires 8 * k + 8 <= |s|
    ensures m == Absorbed(seed, s, k + 1, mix) && m.w == Sum(Absorbed(seed, s, k, mix).w, Q)
    ensures m.h == Xor(Absorbed(seed, s, k, mix).h, mix(Sum(LittleEndian(s[8 * k..8 * k + 8]), m.w), K))
  {
    m := Absorbed(seed, s, k + 1, mix);
    hide Sum, Xor, LittleEndian;
  }

  lemma LastAbsorbed(seed: nat, s: seq<Byte>, k: nat, mix: Mixer)
    requires 8 * k <= |s| < 8 * k + 8
    ensures var m := Absorbed(seed, s, k, mix); var w := Sum(m.w, Q);
      Hash(seed, s, mix) == mix(Sum(Xor(Xor(m.h, |s|), mix(Sum(LittleEndian(s[8 * k..]), w), K)), w), K)
  {
    assert k == |s| / 8;
    hide Sum, Xor, LittleEndian, Absorbed;
  }

  /** The length goes into h before the blocks do. */
  method RandomAccess(seed: nat, s: seq<Byte>, mix: Mixer) returns (r: nat)
    ensures r == Hash(seed, s, mix)
  {
    hide *;
    NoneAbsorbed(seed, s, mix);
    ghost var m, k := Absorbed(seed, s, 0, mix), 0;
    var p, n := 0, |s|;
    var w := mix(Sum(seed, Q), K);
    var h := Xor(w, n);
    while n >= 8
      invariant 0 <= n && p + n == |s| && p == 8 * k
      invariant m == Absorbed(seed, s, k, mix) && w == m.w && h == Xor(m.h, |s|)
    {
      var v1 := ReadBytes(s[p..], 8);
      Read64Is(s, p);
      w := Sum(w, Q);
      XorSwap(m.h, |s|, mix(Sum(v1, w), K));
      h := Xor(h, mix(Sum(v1, w), K));
      m := NextAbsorbed(seed, s, k, mix);
      p, n, k := p + 8, n - 8, k + 1;
    }
    LastAbsorbed(seed, s, k, mix);
    var v1 := ReadTail(s[p..]);
    ReadTailIs(s[p..]);
    w := Sum(w, Q);
    h := Xor(h, mix(Sum(v1, w), K));
    r := mix(Sum(h, w), K);
  }

  /** The length is counted along the way and goes into h after the full blocks. */
  method Forward(seed: nat, s: seq<Byte>, mix: Mixer) returns (r: nat)
    ensures r == Hash(seed, s, mix)
  {
    hide *;
    NoneAbsorbed(seed, s, mix);
    ghost var m, k := Absorbed(seed, s, 0, mix), 0;
    var first, n := 0, 0;
    var w := mix(Sum(seed, Q), K);
    var h := w;
    var v1: nat;
    while true
      invariant first == n == 8 * k <= |s|
      invariant m == Absorbed(seed, s, k, mix) && m == Mix(h, w)
      decreases |s| - first
    {
      var next;
      v1, next := ReadForward(s, first, 8);
      n := n + (next - first);
      if next < first + 8 {
        break;
      }
      m := NextAbsorbed(seed, s, k, mix);
      first := next;
      w := Sum(w, Q);
      h := Xor(h, mix(Sum(v1, w), K));
      k := k + 1;
    }
    LastAbsorbed(seed, s, k, mix);
    assert n == |s| && s[first..] == s[first..n];
    h := Xor(h, n);
    w := Sum(w, Q);
    h := Xor(h, mix(Sum(v1, w), K));
    r := mix(Sum(h, w), K);
  }

  /* ---------- what the hash depends on ---------- */

  /** The sum of two words: exact, or too large by 2^64. */
  lemma SumWraps(x: nat, y: nat)
    requires x < 0x1_0000_0000_0000_0000 && y < 0x1_0000_0000_0000_0000
    ensures Sum(x, y) == if x + y < 0x1_0000_0000_0000_0000 then x + y else x + y - 0x1_0000_0000_0000_0000
  {
  }

  lemma SumInjective(x: nat, y: nat, w: nat)
    requires x < 0x1_0000_0000_0000_0000 && y < 0x1_0000_0000_0000_0000 && x != y
    ensures Sum(x, w) != Sum(y, w)
  {
  }

  lemma WordSize()
    ensures Pow2(64) == 0x1_0000_0000_0000_0000
  {
    assert Pow2(8) == 256;
    Pow2Add(8, 8);
    Pow2Add(16, 16);
    Pow2Add(32, 32);
  }

  /** The two constants are what the source says they are: the second is the square of the first, which is odd. */
  lemma Constants()
    ensures Q % 2 == 1 && Times(Q, Q) % 0x1_0000_0000_0000_0000 == K
  {
  }

  /** Block i of 8 bytes; the last one is what remains, possibly nothing. */
  function Block(s: seq<Byte>, i: nat): seq<Byte>
    requires 8 * i <= |s|
  {
    if 8 * i + 8 <= |s| then s[8 * i..8 * i + 8] else s[8 * i..]
  }

  /** The word added to block i before it is mixed in. */
  function WordFor(seed: nat, s: seq<Byte>, i: nat, mix: Mixer): nat
    requires 8 * i <= |s|
  {
    Sum(Absorbed(seed, s, i, mix).w, Q)
  }

  lemma {:induction false} WordAt(seed: nat, s: seq<Byte>, i: nat, mix: Mixer)
    requires 8 * i <= |s|
    ensures WordFor(seed, s, i, mix) == (Absorbed(seed, s, 0, mix).w + Times(i + 1, Q)) % 0x1_0000_0000_0000_0000
  {
    hide LittleEndian, Xor;
    StepWraps(Absorbed(seed, s, 0, mix).w, i);
    if i > 0 {
      WordAt(seed, s, i - 1, mix);
      var m := NextAbsorbed(seed, s, i - 1, mix);
    }
    hide Absorbed, Times;
  }

  lemma StepWraps(a: nat, i: nat)
    ensures Sum((a + Times(i, Q)) % 0x1_0000_0000_0000_0000, Q) == (a + Times(i + 1, Q)) % 0x1_0000_0000_0000_0000
    ensures Sum(a, Q) == (a + Times(1, Q)) % 0x1_0000_0000_0000_0000
  {
    assert Times(i + 1, Q) == Times(i, Q) + Q && Times(1, Q) == Q;
    hide Times;
    ModAdd(a + Times(i, Q), Q, 0x1_0000_0000_0000_0000);
  }

  /** No two blocks are mixed in with the same word. */
  lemma WordsDiffer(seed: nat, s: seq<Byte>, i: nat, j: nat, mix: Mixer)
    requires i < j && 8 * j <= |s| && j - i < 0x1_0000_0000_0000_0000
    ensures WordFor(seed, s, i, mix) != WordFor(seed, s, j, mix)
  {
    hide Absorbed, Times, Sum, WordFor;
    WordAt(seed, s, i, mix);
    WordAt(seed, s, j, mix);
    WordSize();
    OddMultiplesDiffer(Absorbed(seed, s, 0, mix).w, Q, i + 1, j + 1, 64);
  }

  /** The mixer tells words apart. */
  ghost predicate Injective(mix: Mixer) {
    forall x, y :: 0 <= x < 0x1_0000_0000_0000_0000 && 0 <= y < 0x1_0000_0000_0000_0000 && mix(x, K) == mix(y, K) ==> x == y
  }

  /** Inputs of equal length that are the same except for one block. */
  ghost predicate DifferAt(s: seq<Byte>, t: seq<Byte>, j: nat) {
    && |s| == |t| && 8 * j <= |s| && Block(s, j) != Block(t, j)
    && forall i: nat :: 8 * i <= |s| && i != j ==> Block(s, i) == Block(t, i)
  }

  lemma BlockWord(s: seq<Byte>, i: nat)
    requires 8 * i <= |s|
    ensures LittleEndian(Block(s, i)) < 0x1_0000_0000_0000_0000
  {
    var b := Block(s, i);
    WordBound(b);
    WordSize();
    Pow2Monotone(8 * |b|, 64);
    hide LittleEndian, Pow2;
  }

  /** Different blocks at the same place, mixed in with the same word, make a difference. */
  lemma BlocksMixApart(g: nat, w: nat, s: seq<Byte>, t: seq<Byte>, j: nat, mix: Mixer)
    requires Injective(mix) && |s| == |t| && 8 * j <= |s| && Block(s, j) != Block(t, j)
    ensures Absorb(Mix(g, w), LittleEndian(Block(s, j)), mix).h != Absorb(Mix(g, w), LittleEndian(Block(t, j)), mix).h
  {
    var x, y := LittleEndian(Block(s, j)), LittleEndian(Block(t, j));
    if x == y {
      WordInjective(Block(s, j), Block(t, j));
    }
    BlockWord(s, j);
    BlockWord(t, j);
    hide LittleEndian, Block;
    var u := Sum(w, Q);
    SumInjective(x, y, u);
    assert Sum(x, u) < 0x1_0000_0000_0000_0000 && Sum(y, u) < 0x1_0000_0000_0000_0000;
    hide Sum;
    XorCancels(mix(Sum(x, u), K), mix(Sum(y, u), K), g);
    hide Xor;
  }

  /** A difference in h survives whatever is mixed in. */
  lemma DifferenceStays(g: nat, h: nat, w: nat, v: nat, mix: Mixer)
    requires g != h
    ensures Absorb(Mix(g, w), v, mix).h != Absorb(Mix(h, w), v, mix).h
  {
    hide Xor, Sum;
    XorCancels(g, h, mix(Sum(v, Sum(w, Q)), K));
  }

  lemma NextBlock(seed: nat, s: seq<Byte>, k: nat, mix: Mixer)
    requires 8 * k + 8 <= |s|
    ensures Absorbed(seed, s, k + 1, mix) == Absorb(Absorbed(seed, s, k, mix), LittleEndian(Block(s, k)), mix)
  {
    hide Absorb, LittleEndian;
  }

  lemma {:induction false} DifferenceAbsorbed(seed: nat, s: seq<Byte>, t: seq<Byte>, j: nat, k: nat, mix: Mixer)
    requires Injective(mix) && DifferAt(s, t, j) && 8 * k <= |s|
    ensures Absorbed(seed, s, k, mix).w == Absorbed(seed, t, k, mix).w
    ensures k <= j <==> Absorbed(seed, s, k, mix).h == Absorbed(seed, t, k, mix).h
  {
    hide Injective, Block, LittleEndian;
    if k > 0 {
      DifferenceAbsorbed(seed, s, t, j, k - 1, mix);
      NextBlock(seed, s, k - 1, mix);
      NextBlock(seed, t, k - 1, mix);
      var m, n := Absorbed(seed, s, k - 1, mix), Absorbed(seed, t, k - 1, mix);
      hide Absorbed;
      AbsorbedPair(m, n, s, t, j, k - 1, mix);
    }
  }

  /** One more block of either input. */
  lemma AbsorbedPair(m: Mix, n: Mix, s: seq<Byte>, t: seq<Byte>, j: nat, k: nat, mix: Mixer)
    requires Injective(mix) && DifferAt(s, t, j) && 8 * k <= |s| && m.w == n.w && (k <= j <==> m.h == n.h)
    ensures var m', n' := Absorb(m, LittleEndian(Block(s, k)), mix), Absorb(n, LittleEndian(Block(t, k)), mix);
      m'.w == n'.w && (k + 1 <= j <==> m'.h == n'.h)
  {
    assert m == Mix(m.h, m.w) && n == Mix(n.h, m.w);
    hide Injective, LittleEndian, Block;
    if k == j {
      BlocksMixApart(m.h, m.w, s, t, j, mix);
    } else if k > j {
      assert Block(s, k) == Block(t, k);
      DifferenceStays(m.h, n.h, m.w, LittleEndian(Block(s, k)), mix);
    } else {
      assert Block(s, k) == Block(t, k);
    }
  }

  /** Inputs of equal length that differ in a single block, hashed from the same seed, are told apart: what is left to be
      mixed once more differs in h, and in h only. */
  lemma OneBlockMatters(seed: nat, s: seq<Byte>, t: seq<Byte>, j: nat, mix: Mixer)
    requires Injective(mix) && DifferAt(s, t, j)
    ensures Mixed(seed, s, mix).h != Mixed(seed, t, mix).h
    ensures Mixed(seed, s, mix).w == Mixed(seed, t, mix).w
  {
    var k := |s| / 8;
    var m, n := Absorbed(seed, s, k, mix), Absorbed(seed, t, k, mix);
    DifferenceAbsorbed(seed, s, t, j, k, mix);
    XorCancels(m.h, n.h, |s|);
    assert s[8 * k..] == Block(s, k) && t[8 * k..] == Block(t, k);
    hide Absorbed, Xor, Injective, LittleEndian, Block;
    AbsorbedPair(Mix(Xor(m.h, |s|), m.w), Mix(Xor(n.h, |s|), n.w), s, t, j, k, mix);
  }

  /** If the mixer yields words, so do the hashes, and they differ. */
  lemma OneBlockHashes(seed: nat, s: seq<Byte>, t: seq<Byte>, j: nat, mix: Mixer)
    requires Injective(mix) && DifferAt(s, t, j) && |s| < 0x1_0000_0000_0000_0000
    requires forall x: nat :: mix(x, K) < 0x1_0000_0000_0000_0000
    ensures Hash(seed, s, mix) != Hash(seed, t, mix)
  {
    OneBlockMatters(seed, s, t, j, mix);
    MixedWord(seed, s, mix);
    MixedWord(seed, t, mix);
    var m, n := Mixed(seed, s, mix), Mixed(seed, t, mix);
    SumInjective(m.h, n.h, m.w);
    hide Mixed;
  }

  lemma {:induction false} AbsorbedWord(seed: nat, s: seq<Byte>, k: nat, mix: Mixer)
    requires 8 * k <= |s| && forall x: nat :: mix(x, K) < 0x1_0000_0000_0000_0000
    ensures Absorbed(seed, s, k, mix).h < 0x1_0000_0000_0000_0000
  {
    WordSize();
    hide LittleEndian, Sum, Xor, Pow2;
    if k > 0 {
      AbsorbedWord(seed, s, k - 1, mix);
      var m := NextAbsorbed(seed, s, k - 1, mix);
      var p := Absorbed(seed, s, k - 1, mix);
      XorBelow(p.h, mix(Sum(LittleEndian(s[8 * (k - 1)..8 * (k - 1) + 8]), m.w), K), 64);
    }
  }

  lemma MixedWord(seed: nat, s: seq<Byte>, mix: Mixer)
    requires |s| < 0x1_0000_0000_0000_0000 && forall x: nat :: mix(x, K) < 0x1_0000_0000_0000_0000
    ensures Mixed(seed, s, mix).h < 0x1_0000_0000_0000_0000
  {
    var k := |s| / 8;
    WordSize();
    AbsorbedWord(seed, s, k, mix);
    hide LittleEndian, Sum, Xor, Pow2, Absorbed;
    var m := Absorbed(seed, s, k, mix);
    XorBelow(m.h, |s|, 64);
    XorBelow(Xor(m.h, |s|), mix(Sum(LittleEndian(s[8 * k..]), Sum(m.w, Q)), K), 64);
  }
}

/** hash_range over bytes with a 32-bit size_t: 32-bit words, a 64-bit accumulator. */
module HashRange32 {
  import opened BitOps
  import opened Pow2Arith
  import opened ByteWords

  /** The product of two 32-bit words (mul32) may be any function. */
  type Product = (nat, nat) -> nat

  const Q: nat := 0x9e3779b9
  const K: nat := 0xe35e67b1

  /** Unsigned 32-bit sum. */
  function Sum(x: nat, y: nat): nat {
    (x + y) % 0x1_0000_0000
  }

  function Low(h: nat): nat {
    h % 0x1_0000_0000
  }

  function High(h: nat): nat {
    (h / 0x1_0000_0000) % 0x1_0000_0000
  }

  datatype Mix = Mix(h: nat, w: nat)

  function Absorb(m: Mix, v: nat, mul: Product): Mix {
    var w := Sum(m.w, Q);
    Mix(Xor(m.h, mul(Sum(v, w), K)), w)
  }

  /** After absorbing the first k blocks of 4 bytes; the length is not in h. */
  function Absorbed(seed: nat, s: seq<Byte>, k: nat, mul: Product): Mix
    requires 4 * k <= |s|
  {
    if k == 0 then var h := mul(Sum(seed, Q), K); Mix(h, Low(h))
    else Absorb(Absorbed(seed, s, k - 1, mul), LittleEndian(s[4 * (k - 1)..4 * k]), mul)
  }

  function Finish(h: nat, w: nat, mul: Product): nat {
    var g := Xor(h, mul(Sum(Low(h), w), Sum(Sum(High(h), w), K)));
    Xor(Low(g), High(g))
  }

  /** The full blocks, the length, the remaining bytes (possibly none) as one more block. */
  function Mixed(seed: nat, s: seq<Byte>, mul: Product): Mix {
    var k := |s| / 4;
    var m := Absorbed(seed, s, k, mul);
    Absorb(Mix(Xor(m.h, |s|), m.w), LittleEndian(s[4 * k..]), mul)
  }

  /** Then the halves are mixed. */
  function Hash(seed: nat, s: seq<Byte>, mul: Product): nat {
    var n := Mixed(seed, s, mul);
    Finish(n.h, Sum(n.w, Q), mul)
  }

  function ReadTail(s: seq<Byte>): nat
    requires |s| < 4
  {
    if |s| >= 1 then ShortTail(s) else 0
  }

  lemma ReadTailIs(s: seq<Byte>)
    requires |s| < 4
    ensures ReadTail(s) == LittleEndian(s)
  {
    hide ShortTail;
    if |s| >= 1 {
      ShortTailIs(s);
    }
  }

  lemma Read32Is(s: seq<Byte>, p: nat)
    requires p + 4 <= |s|
    ensures ReadBytes(s[p..], 4) == LittleEndian(s[p..p + 4])
  {
    ReadBytesIs(s[p..], 4);
    assert s[p..][..4] == s[p..p + 4];
    hide ReadBytes, LittleEndian;
  }

  /* ---------- how the hash unfolds ---------- */

  lemma NoneAbsorbed(seed: nat, s: seq<Byte>, mul: Product)
    ensures Absorbed(seed, s, 0, mul).h == mul(Sum(seed, Q), K)
    ensures Absorbed(seed, s, 0, mul).w == Low(mul(Sum(seed, Q), K))
  {
    hide Sum, Low;
  }

  lemma NextAbsorbed(seed: nat, s: seq<Byte>, k: nat, mul: Product) returns (m: Mix)
    requires 4 * k + 4 <= |s|
    ensures m == Absorbed(seed, s, k + 1, mul) && m.w == Sum(Absorbed(seed, s, k, mul).w, Q)
    ensures m.h == Xor(Absorbed(seed, s, k, mul).h, mul(Sum(LittleEndian(s[4 * k..4 * k + 4]), m.w), K))
  {
    m := Absorbed(seed, s, k + 1, mul);
    hide Sum, Xor, LittleEndian;
  }

  lemma LastAbsorbed(seed: nat, s: seq<Byte>, k: nat, mul: Product)
    requires 4 * k <= |s| < 4 * k + 4
    ensures var m := Absorbed(seed, s, k, mul); var w := Sum(m.w, Q);
      Hash(seed, s, mul) == Finish(Xor(Xor(m.h, |s|), mul(Sum(LittleEndian(s[4 * k..]), w), K)), Sum(w, Q), mul)
  {
    assert k == |s| / 4;
    hide Sum, Xor, LittleEndian, Absorbed, Finish;
  }

  lemma FinishIs(h: nat, w: nat, mul: Product)
    ensures var g := Xor(h, mul(Sum(Low(h), w), Sum(Sum(High(h), w), K)));
      Finish(h, w, mul) == Xor(Low(g), High(g))
  {
    hide Xor, Sum, Low, High;
  }

  /** The length goes into h before the blocks do. */
  method RandomAccess(seed: nat, s: seq<Byte>, mul: Product) returns (r: nat)
    ensures r == Hash(seed, s, mul)
  {
    hide *;
    NoneAbsorbed(seed, s, mul);
    ghost var m, k := Absorbed(seed, s, 0, mul), 0;
    var p, n := 0, |s|;
    var h := mul(Sum(seed, Q), K);
    var w := Low(h);
    h := Xor(h, n);
    while n >= 4
      invariant 0 <= n && p + n == |s| && p == 4 * k
      invariant m == Absorbed(seed, s, k, mul) && w == m.w && h == Xor(m.h, |s|)
    {
      var v1 := ReadBytes(s[p..], 4);
      Read32Is(s, p);
      w := Sum(w, Q);
      XorSwap(m.h, |s|, mul(Sum(v1, w), K));
      h := Xor(h, mul(Sum(v1, w), K));
      m := NextAbsorbed(seed, s, k, mul);
      p, n, k := p + 4, n - 4, k + 1;
    }
    LastAbsorbed(seed, s, k, mul);
    var v1 := ReadTail(s[p..]);
    ReadTailIs(s[p..]);
    w := Sum(w, Q);
    h := Xor(h, mul(Sum(v1, w), K));
    w := Sum(w, Q);
    FinishIs(h, w, mul);
    h := Xor(h, mul(Sum(Low(h), w), Sum(Sum(High(h), w), K)));
    r := Xor(Low(h), High(h));
  }

  /** The length is counted along the way and goes into h after the full blocks. */
  method Forward(seed: nat, s: seq<Byte>, mul: Product) returns (r: nat)
    ensures r == Hash(seed, s, mul)
  {
    hide *;
    NoneAbsorbed(seed, s, mul);
    ghost var m, k := Absorbed(seed, s, 0, mul), 0;
    var first, n := 0, 0;
    var h := mul(Sum(seed, Q), K);
    var w := Low(h);
    var v1: nat;
    while true
      invariant first == n == 4 * k <= |s|
      invariant m == Absorbed(seed, s, k, mul) && m == Mix(h, w)
      decreases |s| - first
    {
      var next;
      v1, next := ReadForward(s, first, 4);
      n := n + (next - first);
      if next < first + 4 {
        break;
      }
      m := NextAbsorbed(seed, s, k, mul);
      first := next;
      w := Sum(w, Q);
      h := Xor(h, mul(Sum(v1, w), K));
      k := k + 1;
    }
    LastAbsorbed(seed, s, k, mul);
    assert n == |s| && s[first..] == s[first..n];
    h := Xor(h, n);
    w := Sum(w, Q);
    h := Xor(h, mul(Sum(v1, w), K));
    w := Sum(w, Q);
    FinishIs(h, w, mul);
    h := Xor(h, mul(Sum(Low(h), w), Sum(Sum(High(h), w), K)));
    r := Xor(Low(h), High(h));
  }

  /* ---------- what the hash depends on ---------- */

  /** The sum of two words: exact, or too large by 2^32. */
  lemma SumWraps(x: nat, y: nat)
    requires x < 0x1_0000_0000 && y < 0x1_0000_0000
    ensures Sum(x, y) == if x + y < 0x1_0000_0000 then x + y else x + y - 0x1_0000_0000
  {
  }

  lemma SumInjective(x: nat, y: nat, w: nat)
    requires x < 0x1_0000_0000 && y < 0x1_0000_0000 && x != y
    ensures Sum(x, w) != Sum(y, w)
  {
  }

  lemma WordSize()
    ensures Pow2(32) == 0x1_0000_0000
  {
    assert Pow2(8) == 256;
    Pow2Add(8, 8);
    Pow2Add(16, 16);
  }

  /** The two constants are what the source says they are: the second is the square of the first, which is odd. */
  lemma Constants()
    ensures Q % 2 == 1 && Times(Q, Q) % 0x1_0000_0000 == K
  {
  }

  /** Block i of 4 bytes; the last one is what remains, possibly nothing. */
  function Block(s: seq<Byte>, i: nat): seq<Byte>
    requires 4 * i <= |s|
  {
    if 4 * i + 4 <= |s| then s[4 * i..4 * i + 4] else s[4 * i..]
  }

  /** The word added to block i before it is mixed in. */
  function WordFor(seed: nat, s: seq<Byte>, i: nat, mul: Product): nat
    requires 4 * i <= |s|
  {
    Sum(Absorbed(seed, s, i, mul).w, Q)
  }

  lemma {:induction false} WordAt(seed: nat, s: seq<Byte>, i: nat, mul: Product)
    requires 4 * i <= |s|
    ensures WordFor(seed, s, i, mul) == (Absorbed(seed, s, 0, mul).w + Times(i + 1, Q)) % 0x1_0000_0000
  {
    hide LittleEndian, Xor;
    StepWraps(Absorbed(seed, s, 0, mul).w, i);
    if i > 0 {
      WordAt(seed, s, i - 1, mul);
      var m := NextAbsorbed(seed, s, i - 1, mul);
    }
    hide Absorbed, Times;
  }

  lemma StepWraps(a: nat, i: nat)
    ensures Sum((a + Times(i, Q)) % 0x1_0000_0000, Q) == (a + Times(i + 1, Q)) % 0x1_0000_0000
    ensures Sum(a, Q) == (a + Times(1, Q)) % 0x1_0000_0000
  {
    assert Times(i + 1, Q) == Times(i, Q) + Q && Times(1, Q) == Q;
    hide Times;
    ModAdd(a + Times(i, Q), Q, 0x1_0000_0000);
  }

  /** No two blocks are mixed in with the same word. */
  lemma WordsDiffer(seed: nat, s: seq<Byte>, i: nat, j: nat, mul: Product)
    requires i < j && 4 * j <= |s| && j - i < 0x1_0000_0000
    ensures WordFor(seed, s, i, mul) != WordFor(seed, s, j, mul)
  {
    hide Absorbed, Times, Sum, WordFor;
    WordAt(seed, s, i, mul);
    WordAt(seed, s, j, mul);
    WordSize();
    OddMultiplesDiffer(Absorbed(seed, s, 0, mul).w, Q, i + 1, j + 1, 32);
  }

  /** The mixer tells words apart. */
  ghost predicate Injective(mul: Product) {
    forall x, y :: 0 <= x < 0x1_0000_0000 && 0 <= y < 0x1_0000_0000 && mul(x, K) == mul(y, K) ==> x == y
  }

  /** Inputs of equal length that are the same except for one block. */
  ghost predicate DifferAt(s: seq<Byte>, t: seq<Byte>, j: nat) {
    && |s| == |t| && 4 * j <= |s| && Block(s, j) != Block(t, j)
    && forall i: nat :: 4 * i <= |s| && i != j ==> Block(s, i) == Block(t, i)
  }

  lemma BlockWord(s: seq<Byte>, i: nat)
    requires 4 * i <= |s|
    ensures LittleEndian(Block(s, i)) < 0x1_0000_0000
  {
    var b := Block(s, i);
    WordBound(b);
    WordSize();
    Pow2Monotone(8 * |b|, 32);
    hide LittleEndian, Pow2;
  }

  /** Different blocks at the same place, mixed in with the same word, make a difference. */
  lemma BlocksMixApart(g: nat, w: nat, s: seq<Byte>, t: seq<Byte>, j: nat, mul: Product)
    requires Injective(mul) && |s| == |t| && 4 * j <= |s| && Block(s, j) != Block(t, j)
    ensures Absorb(Mix(g, w), LittleEndian(Block(s, j)), mul).h != Absorb(Mix(g, w), LittleEndian(Block(t, j)), mul).h
  {
    var x, y := LittleEndian(Block(s, j)), LittleEndian(Block(t, j));
    if x == y {
      WordInjective(Block(s, j), Block(t, j));
    }
    BlockWord(s, j);
    BlockWord(t, j);
    hide LittleEndian, Block;
    var u := Sum(w, Q);
    SumInjective(x, y, u);
    assert Sum(x, u) < 0x1_0000_0000 && Sum(y, u) < 0x1_0000_0000;
    hide Sum;
    XorCancels(mul(Sum(x, u), K), mul(Sum(y, u), K), g);
    hide Xor;
  }

  /** A difference in h survives whatever is mixed in. */
  lemma DifferenceStays(g: nat, h: nat, w: nat, v: nat, mul: Product)
    requires g != h
    ensures Absorb(Mix(g, w), v, mul).h != Absorb(Mix(h, w), v, mul).h
  {
    hide Xor, Sum;
    XorCancels(g, h, mul(Sum(v, Sum(w, Q)), K));
  }

  lemma NextBlock(seed: nat, s: seq<Byte>, k: nat, mul: Product)
    requires 4 * k + 4 <= |s|
    ensures Absorbed(seed, s, k + 1, mul) == Absorb(Absorbed(seed, s, k, mul), LittleEndian(Block(s, k)), mul)
  {
    hide Absorb, LittleEndian;
  }

  lemma {:induction false} DifferenceAbsorbed(seed: nat, s: seq<Byte>, t: seq<Byte>, j: nat, k: nat, mul: Product)
    requires Injective(mul) && DifferAt(s, t, j) && 4 * k <= |s|
    ensures Absorbed(seed, s, k, mul).w == Absorbed(seed, t, k, mul).w
    ensures k <= j <==> Absorbed(seed, s, k, mul).h == Absorbed(seed, t, k, mul).h
  {
    hide Injective, Block, LittleEndian;
    if k > 0 {
      DifferenceAbsorbed(seed, s, t, j, k - 1, mul);
      NextBlock(seed, s, k - 1, mul);
      NextBlock(seed, t, k - 1, mul);
      var m, n := Absorbed(seed, s, k - 1, mul), Absorbed(seed, t, k - 1, mul);
      hide Absorbed;
      AbsorbedPair(m, n, s, t, j, k - 1, mul);
    }
  }

  /** One more block of either input. */
  lemma AbsorbedPair(m: Mix, n: Mix, s: seq<Byte>, t: seq<Byte>, j: nat, k: nat, mul: Product)
    requires Injective(mul) && DifferAt(s, t, j) && 4 * k <= |s| && m.w == n.w && (k <= j <==> m.h == n.h)
    ensures var m', n' := Absorb(m, LittleEndian(Block(s, k)), mul), Absorb(n, LittleEndian(Block(t, k)), mul);
      m'.w == n'.w && (k + 1 <= j <==> m'.h == n'.h)
  {
    assert m == Mix(m.h, m.w) && n == Mix(n.h, m.w);
    hide Injective, LittleEndian, Block;
    if k == j {
      BlocksMixApart(m.h, m.w, s, t, j, mul);
    } else if k > j {
      assert Block(s, k) == Block(t, k);
      DifferenceStays(m.h, n.h, m.w, LittleEndian(Block(s, k)), mul);
    } else {
      assert Block(s, k) == Block(t, k);
    }
  }

  /** Inputs of equal length that differ in a single block, hashed from the same seed, are told apart: what is left to be
      mixed once more differs in h, and in h only. */
  lemma OneBlockMatters(seed: nat, s: seq<Byte>, t: seq<Byte>, j: nat, mul: Product)
    requires Injective(mul) && DifferAt(s, t, j)
    ensures Mixed(seed, s, mul).h != Mixed(seed, t, mul).h
    ensures Mixed(seed, s, mul).w == Mixed(seed, t, mul).w
  {
    var k := |s| / 4;
    var m, n := Absorbed(seed, s, k, mul), Absorbed(seed, t, k, mul);
    DifferenceAbsorbed(seed, s, t, j, k, mul);
    XorCancels(m.h, n.h, |s|);
    assert s[4 * k..] == Block(s, k) && t[4 * k..] == Block(t, k);
    hide Absorbed, Xor, Injective, LittleEndian, Block;
    AbsorbedPair(Mix(Xor(m.h, |s|), m.w), Mix(Xor(n.h, |s|), n.w), s, t, j, k, mul);
  }

  /** The two halves make up the accumulator. */
  lemma Halves(h: nat)
    requires h < 0x1_0000_0000_0000_0000
    ensures Low(h) < 0x1_0000_0000 && High(h) < 0x1_0000_0000 && Low(h) + 0x1_0000_0000 * High(h) == h
  {
  }

  /** The real product by the constant tells words apart. */
  lemma ProductInjective()
    ensures Injective((x, y) => x * y)
  {
  }
}
