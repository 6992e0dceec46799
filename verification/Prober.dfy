/** Powers of two, and the quadratic prober over a power-of-two range. */
module Pow2Arith {

  function Pow2(n: nat): (r: nat)
    ensures r >= 1
  {
    if n == 0 then 1 else 2 * Pow2(n - 1)
  }

  lemma {:induction false} Pow2Add(a: nat, b: nat)
    ensures Pow2(a + b) == Pow2(a) * Pow2(b)
  {
    if a > 0 {
      Pow2Add(a - 1, b);
      assert Pow2(a + b) == 2 * Pow2(a - 1 + b);
      assert 2 * (Pow2(a - 1) * Pow2(b)) == (2 * Pow2(a - 1)) * Pow2(b);
    }
  }

  lemma {:induction false} Pow2Monotone(a: nat, b: nat)
    requires a <= b
    ensures Pow2(a) <= Pow2(b)
  {
    if a < b {
      Pow2Monotone(a, b - 1);
    }
  }

  /** Bitwise AND of two unsigned words. */
  function And(x: nat, y: nat): nat {
    if x == 0 then 0 else 2 * And(x / 2, y / 2) + (if x % 2 == 1 && y % 2 == 1 then 1 else 0)
  }

  /** Masking with 2^n - 1 keeps the value modulo 2^n. */
  lemma {:induction false} MaskIsMod(x: nat, n: nat)
    ensures And(x, Pow2(n) - 1) == x % Pow2(n)
  {
    if n == 0 {
      AndZero(x);
    } else if x == 0 {
      assert 0 % Pow2(n) == 0;
    } else {
      var p := Pow2(n - 1);
      MaskIsMod(x / 2, n - 1);
      HalfMod(x, p);
      AndOdd(x, p - 1);
    }
  }

  lemma {:induction false} AndOdd(x: nat, y: nat)
    requires x > 0
    ensures And(x, 2 * y + 1) == 2 * And(x / 2, y) + x % 2
  {
    assert (2 * y + 1) / 2 == y && (2 * y + 1) % 2 == 1;
  }

  lemma HalfMod(x: nat, p: nat)
    requires p > 0
    ensures x % (2 * p) == 2 * ((x / 2) % p) + x % 2
  {
    var q, r := (x / 2) / p, (x / 2) % p;
    assert x / 2 == p * q + r;
    assert q * (2 * p) == 2 * (p * q);
    DivModUnique(x, 2 * p, q, 2 * r + x % 2);
  }

  lemma MulMonotone(a: int, b: int, m: nat)
    requires a <= b
    ensures a * m <= b * m
  {
    assert (b - a) * m >= 0;
  }

  lemma DivBelow(x: nat, a: nat, m: nat)
    requires m > 0 && x < a * m
    ensures Div(x, m) < a
  {
    var q := x / m;
    assert x == m * q + x % m == q * m + x % m;
    if q >= a {
      MulMonotone(a, q, m);
    }
  }

  lemma {:induction false} AndZero(x: nat)
    ensures And(x, 0) == 0
  {
    if x > 0 {
      AndZero(x / 2);
    }
  }

  function Div(x: nat, m: nat): nat
    requires m > 0
  {
    x / m
  }

  lemma ModAdd(x: int, d: int, m: int)
    requires m > 0
    ensures (x % m + d) % m == (x + d) % m
  {
    var y := x % m + d;
    var q := x / m;
    assert x == m * q + x % m;
    assert x + d == (q + y / m) * m + y % m by {
      assert y == m * (y / m) + y % m;
      assert (q + y / m) * m == m * q + m * (y / m);
    }
    DivModUnique(x + d, m, q + y / m, y % m);
  }

  lemma MulAtLeast(k: int, m: int)
    requires k >= 1 && m > 0
    ensures k * m >= m
  {
    assert (k - 1) * m >= 0;
  }

  lemma DivModUnique(x: int, m: int, q: int, r: int)
    requires m > 0 && x == q * m + r && 0 <= r < m
    ensures x / m == q && x % m == r
  {
    var q', r' := x / m, x % m;
    assert x == q' * m + r' by { assert x == m * q' + r'; }
    assert (q - q') * m == r' - r;
    if q > q' {
      MulAtLeast(q - q', m);
    } else if q < q' {
      assert (q' - q) * m == r - r';
      MulAtLeast(q' - q, m);
    }
  }

  lemma OddTimesOdd(a: int, b: int)
    ensures a % 2 == 1 && b % 2 == 1 ==> (a * b) % 2 == 1
  {
    if a % 2 == 1 && b % 2 == 1 {
      var i := a / 2;
      assert a * b == 2 * (i * b) + b by { assert a == 2 * i + 1; }
    }
  }

  /** A product that proofs can keep folded. */
  function Times(x: nat, y: nat): nat {
    x * y
  }

  ghost predicate Divides(m: nat, x: int)
    requires m > 0
  {
    x % m == 0
  }

  lemma DoubleMultiple(c: nat, p: nat)
    requires p > 0
    ensures Divides(2 * p, 2 * c) <==> Divides(p, c)
  {
    if c % p == 0 {
      assert 2 * c == (c / p) * (2 * p) by { assert c == p * (c / p); }
      DivModUnique(2 * c, 2 * p, c / p, 0);
    }
    if (2 * c) % (2 * p) == 0 {
      var q := (2 * c) / (2 * p);
      assert c == q * p by { assert 2 * c == (2 * p) * q; }
      DivModUnique(c, p, q, 0);
    }
  }

  lemma EvenFactor(a: nat, b: nat, p: nat)
    requires p > 0 && Divides(2 * p, Times(a, b)) && b % 2 == 1
    ensures a == 2 * (a / 2) && Times(a, b) == 2 * Times(a / 2, b)
  {
    var q := (a * b) / (2 * p);
    assert a * b == 2 * (p * q) by { assert a * b == (2 * p) * q; }
    OddTimesOdd(a, b);
  }

  /** If a power of two divides a product whose second factor is odd, it divides the first factor. */
  lemma {:induction false} OddFactor(n: nat, a: nat, b: nat)
    requires b % 2 == 1
    requires Divides(Pow2(n), Times(a, b))
    ensures Divides(Pow2(n), a)
  {
    if n > 0 {
      EvenFactor(a, b, Pow2(n - 1));
      DoubleMultiple(Times(a / 2, b), Pow2(n - 1));
      DoubleMultiple(a / 2, Pow2(n - 1));
      hide Divides, Times;
      OddFactor(n - 1, a / 2, b);
    }
  }

  lemma CongruentDifference(x: nat, y: nat, m: nat) returns (d: int)
    requires m > 0 && x % m == y % m
    ensures y - x == d * m
  {
    d := y / m - x / m;
    assert x == m * (x / m) + x % m && y == m * (y / m) + y % m;
    assert d * m == m * (y / m) - m * (x / m);
  }

  lemma NoSmallMultiple(x: nat, m: nat)
    requires 0 < x < m
    ensures !Divides(m, x)
  {
  }

  /** Adding an odd number again and again comes across no value twice before it has come across all of them. */
  lemma OddMultiplesDiffer(a: nat, q: nat, i: nat, j: nat, n: nat)
    requires q % 2 == 1 && i < j && j - i < Pow2(n)
    ensures (a + Times(i, q)) % Pow2(n) != (a + Times(j, q)) % Pow2(n)
  {
    hide Pow2;
    if (a + Times(i, q)) % Pow2(n) == (a + Times(j, q)) % Pow2(n) {
      var d := CongruentDifference(a + Times(i, q), a + Times(j, q), Pow2(n));
      assert Times(j - i, q) == d * Pow2(n) by { assert j * q - i * q == (j - i) * q; }
      hide Times;
      DivModUnique(Times(j - i, q), Pow2(n), d, 0);
      OddFactor(n, j - i, q);
      NoSmallMultiple(j - i, Pow2(n));
    }
  }
}

module QuadraticProber {
  import opened Pow2Arith

  /** Group visited at the given step of the probe sequence that starts at pos0, over size groups. */
  function ProbeAt(pos0: nat, step: nat, size: nat): (r: nat)
    requires size > 0
    ensures r < size
  {
    if step == 0 then pos0 % size else (ProbeAt(pos0, step - 1, size) + step) % size
  }

  /** The n-th triangular number. */
  function Tri(n: nat): nat {
    n * (n + 1) / 2
  }

  lemma TriStep(n: nat)
    ensures Tri(n + 1) == Tri(n) + n + 1
  {
    assert (n + 1) * (n + 2) == n * (n + 1) + 2 * (n + 1);
  }

  /** The probe sequence follows the triangular numbers. */
  lemma {:induction false} ProbeTriangular(pos0: nat, step: nat, size: nat)
    requires size > 0
    ensures ProbeAt(pos0, step, size) == (pos0 + Tri(step)) % size
  {
    if step > 0 {
      TriStep(step - 1);
      hide Tri;
      ProbeTriangular(pos0, step - 1, size);
      ModAdd(pos0 + Tri(step - 1), step, size);
    } else {
      assert Tri(0) == 0;
    }
  }

  /** Triangular numbers modulo 2^n are pairwise distinct over 2^n consecutive indices. */
  lemma ProbeInjective(pos0: nat, i: nat, j: nat, n: nat)
    requires i < Pow2(n) && j < Pow2(n)
    requires ProbeAt(pos0, i, Pow2(n)) == ProbeAt(pos0, j, Pow2(n))
    ensures i == j
  {
    if i < j {
      ProbeDistinct(pos0, i, j, n);
    } else if j < i {
      ProbeDistinct(pos0, j, i, n);
    }
  }

  lemma ProbeDistinct(pos0: nat, i: nat, j: nat, n: nat)
    requires i < j < Pow2(n)
    ensures ProbeAt(pos0, i, Pow2(n)) != ProbeAt(pos0, j, Pow2(n))
  {
    ProbeTriangular(pos0, i, Pow2(n));
    ProbeTriangular(pos0, j, Pow2(n));
    NoCollision(pos0, i, j, n);
  }

  ghost predicate Collide(pos0: nat, i: nat, j: nat, m: nat)
    requires m > 0
  {
    (pos0 + Tri(i)) % m == (pos0 + Tri(j)) % m
  }

  lemma NoCollision(pos0: nat, i: nat, j: nat, n: nat)
    requires i < j < Pow2(n)
    ensures !Collide(pos0, i, j, Pow2(n))
  {
    assert Pow2(n + 1) == 2 * Pow2(n);
    hide Collide, Pow2, Divides, Times;
    if Collide(pos0, i, j, Pow2(n)) {
      CollisionProduct(pos0, i, j, n);
      ParityDiffers(i, j);
      SmallFactors(j - i, i + j + 1, n + 1);
    }
  }

  lemma ParityDiffers(i: nat, j: nat)
    ensures (j - i) % 2 != (i + j + 1) % 2
  {
    assert i + j + 1 == (j - i) + 2 * i + 1;
  }

  /** Two positive factors of different parity, both below 2^n, have a product that 2^n does not divide. */
  lemma SmallFactors(a: nat, b: nat, n: nat)
    requires 0 < a < Pow2(n) && 0 < b < Pow2(n) && a % 2 != b % 2
    ensures !Divides(Pow2(n), Times(a, b))
  {
    assert Times(b, a) == Times(a, b);
    NoSmallMultiple(a, Pow2(n));
    NoSmallMultiple(b, Pow2(n));
    hide Divides, Times;
    if Divides(Pow2(n), Times(a, b)) {
      if a % 2 == 1 {
        OddFactor(n, b, a);
      } else {
        OddFactor(n, a, b);
      }
    }
  }

  /** If steps i and j collide modulo 2^n then 2^(n+1) divides (j-i)(i+j+1). */
  lemma CollisionProduct(pos0: nat, i: nat, j: nat, n: nat)
    requires i < j
    requires Collide(pos0, i, j, Pow2(n))
    ensures Divides(Pow2(n + 1), Times(j - i, i + j + 1))
  {
    var d := CongruentDifference(pos0 + Tri(i), pos0 + Tri(j), Pow2(n));
    DoubleDifference(i, j);
    hide Tri;
    Swap(2, d, Pow2(n));
    DivModUnique((j - i) * (i + j + 1), Pow2(n + 1), d, 0);
  }

  lemma Swap(a: int, b: int, c: int)
    ensures a * (b * c) == b * (a * c)
  {
  }

  lemma DoubleDifference(i: nat, j: nat)
    requires i <= j
    ensures (j - i) * (i + j + 1) == 2 * (Tri(j) - Tri(i))
  {
    TriTwice(i);
    TriTwice(j);
    assert (j - i) * (i + j + 1) == j * (j + 1) - i * (i + 1);
  }

  lemma {:induction false} TriTwice(n: nat)
    ensures 2 * Tri(n) == n * (n + 1)
  {
    if n > 0 {
      TriTwice(n - 1);
      TriStep(n - 1);
      assert (n - 1) * n + 2 * n == n * (n + 1);
    }
  }

  /** Every group is visited by one of the first 2^n steps. */
  lemma ProbeCovers(pos0: nat, g: nat, n: nat) returns (step: nat)
    requires g < Pow2(n)
    ensures step < Pow2(n) && ProbeAt(pos0, step, Pow2(n)) == g
  {
    var size := Pow2(n);
    if forall i :: 0 <= i < size ==> ProbeAt(pos0, i, size) != g {
      var visited := Visited(pos0, n, size);
      VisitedSize(pos0, n, size);
      var others := Below(size) - {g};
      BelowSize(size);
      SubsetSize(visited, others);
      assert false;
    }
    step :| 0 <= step < size && ProbeAt(pos0, step, size) == g;
  }

  ghost function Visited(pos0: nat, n: nat, k: nat): set<nat> {
    set i: nat | 0 <= i < k :: ProbeAt(pos0, i, Pow2(n))
  }

  ghost function Below(k: nat): (s: set<nat>)
    ensures forall x :: x in s <==> 0 <= x < k
  {
    if k == 0 then {} else Below(k - 1) + {k - 1}
  }

  lemma {:induction false} BelowSize(k: nat)
    ensures |Below(k)| == k
  {
    if k > 0 {
      BelowSize(k - 1);
    }
  }

  lemma {:induction false} VisitedSize(pos0: nat, n: nat, k: nat)
    requires k <= Pow2(n)
    ensures |Visited(pos0, n, k)| == k
  {
    if k > 0 {
      VisitedSize(pos0, n, k - 1);
      var last := ProbeAt(pos0, k - 1, Pow2(n));
      assert Visited(pos0, n, k) == Visited(pos0, n, k - 1) + {last};
      if last in Visited(pos0, n, k - 1) {
        var i :| 0 <= i < k - 1 && ProbeAt(pos0, i, Pow2(n)) == last;
        ProbeInjective(pos0, i, k - 1, n);
      }
    }
  }

  lemma {:induction false} SubsetSize<T>(a: set<T>, b: set<T>)
    requires a <= b
    ensures |a| <= |b|
  {
    if a != {} {
      var x :| x in a;
      SubsetSize(a - {x}, b - {x});
    }
  }

  lemma ProbeStart(pos0: nat, size: nat)
    requires pos0 < size
    ensures ProbeAt(pos0, 0, size) == pos0
  {
  }

  lemma NextProbe(pos0: nat, step: nat, size: nat)
    requires size > 0 && step > 0
    ensures ProbeAt(pos0, step, size) == (ProbeAt(pos0, step - 1, size) + step) % size
  {
  }

  /** The prober object: Next reports false once the whole array has been traversed. */
  class Prober {
    var pos: nat
    var step: nat
    ghost const start: nat

    /** Over 2^n groups, the object stands where the probe sequence says it does. */
    ghost predicate Valid(n: nat)
      reads this
    {
      pos == ProbeAt(start, step, Pow2(n))
    }

    constructor (pos0: nat, ghost n: nat)
      requires pos0 < Pow2(n)
      ensures Valid(n) && pos == start == pos0 && step == 0
    {
      pos, step, start := pos0, 0, pos0;
      new;
      ProbeStart(pos0, Pow2(n));
      hide ProbeAt, Pow2;
    }

    method Next(mask: nat, ghost n: nat) returns (more: bool)
      requires Valid(n) && mask == Pow2(n) - 1
      modifies this
      ensures Valid(n) && step == old(step) + 1
      ensures more <==> step < Pow2(n)
    {
      step := step + 1;
      MaskIsMod(pos + step, n);
      NextProbe(start, step, Pow2(n));
      hide And, Pow2, ProbeAt;
      pos := And(pos + step, mask);
      more := step <= mask;
    }
  }
}
