/** Portable 64 x 64 -> 128 bit multiplication folded to 64 bits. */
module Mulx {
  import opened BitOps
  import opened Pow2Arith

  type Word = w: nat | w < 0x1_0000_0000_0000_0000

  /** Unsigned 64-bit arithmetic wraps around. */
  function Mul(x: Word, y: Word): Word {
    Times(x, y) % 0x1_0000_0000_0000_0000
  }

  function Add(x: Word, y: Word): Word {
    (x + y) % 0x1_0000_0000_0000_0000
  }

  function Low(x: Word): Word {
    x % 0x1_0000_0000
  }

  function High(x: Word): Word {
    x / 0x1_0000_0000
  }

  function ShiftUp(x: Word): Word {
    Low(x) * 0x1_0000_0000
  }

  datatype Halves = Halves(low: Word, high: Word)

  /** mulx64 before its final XOR: the two words it accumulates. */
  function Accumulate(x: Word, y: Word): Halves {
    var r3 := Mul(High(x), High(y));
    var r2a := Mul(Low(x), High(y));
    var r3a := Add(r3, High(r2a));
    var r2b := Mul(High(x), Low(y));
    var r3b := Add(r3a, High(r2b));
    var r1 := Mul(Low(x), Low(y));
    var r2 := Add(Add(High(r1), Low(r2a)), Low(r2b));
    Halves(Add(ShiftUp(r2), Low(r1)), Add(r3b, High(r2)))
  }

  function Mulx64(x: Word, y: Word): nat {
    var h := Accumulate(x, y);
    Xor(h.low, h.high)
  }

  lemma ProductAtMost(x: nat, y: nat, m: nat)
    requires x <= m && y <= m
    ensures Times(x, y) <= Times(m, m)
  {
    MulMonotone(x, m, y);
    MulMonotone(y, m, m);
    assert y * m == m * y;
  }

  lemma Bounded(x: nat, y: nat)
    requires x < 0x1_0000_0000 && y < 0x1_0000_0000
    ensures Times(x, y) <= 0xFFFF_FFFE_0000_0001
  {
    ProductAtMost(x, y, 0xFFFF_FFFF);
    assert Times(0xFFFF_FFFF, 0xFFFF_FFFF) == 0xFFFF_FFFE_0000_0001;
    hide Times;
  }

  lemma Expand(x: Word, y: Word)
    ensures Times(x, y) == Times(High(x), High(y)) * 0x1_0000_0000_0000_0000
      + (Times(Low(x), High(y)) + Times(High(x), Low(y))) * 0x1_0000_0000 + Times(Low(x), Low(y))
  {
    var a, b, c, d := High(x), Low(x), High(y), Low(y);
    assert x == a * 0x1_0000_0000 + b && y == c * 0x1_0000_0000 + d;
    Distribute(a, b, c, d, 0x1_0000_0000);
  }

  lemma Distribute(a: nat, b: nat, c: nat, d: nat, m: nat)
    ensures (a * m + b) * (c * m + d) == (a * c) * (m * m) + (b * c + a * d) * m + b * d
  {
    assert (a * m + b) * (c * m + d) == (a * m) * (c * m) + (a * m) * d + b * (c * m) + b * d;
    assert (a * m) * (c * m) == (a * c) * (m * m);
    assert (a * m) * d == (a * d) * m && b * (c * m) == (b * c) * m;
  }

  lemma ProductBound(x: Word, y: Word)
    ensures Times(x, y) < 0x1_0000_0000_0000_0000_0000_0000_0000_0000
  {
    ProductAtMost(x, y, 0xFFFF_FFFF_FFFF_FFFF);
    assert Times(0xFFFF_FFFF_FFFF_FFFF, 0xFFFF_FFFF_FFFF_FFFF) < 0x1_0000_0000_0000_0000_0000_0000_0000_0000;
    hide Times;
  }

  /** Schoolbook multiplication of two-digit numbers: p and the high digits and the carry make up the high half. */
  lemma Columns(p: nat, a: Word, b: Word, c: Word, middle: Word)
    requires middle == High(c) + Low(a) + Low(b)
    ensures (p + High(a) + High(b) + High(middle)) * 0x1_0000_0000_0000_0000 + ShiftUp(middle) + Low(c)
      == p * 0x1_0000_0000_0000_0000 + (a + b) * 0x1_0000_0000 + c
    ensures ShiftUp(middle) + Low(c) < 0x1_0000_0000_0000_0000
  {
    Digits(a);
    Digits(b);
    Digits(c);
    Digits(middle);
    hide High, Low;
  }

  lemma Digits(x: Word)
    ensures x == High(x) * 0x1_0000_0000 + Low(x) && High(x) < 0x1_0000_0000 && Low(x) < 0x1_0000_0000
  {
  }

  lemma AddExact(x: Word, y: Word)
    requires x + y < 0x1_0000_0000_0000_0000
    ensures Add(x, y) == x + y
  {
  }

  lemma MulExact(x: Word, y: Word)
    requires Times(x, y) < 0x1_0000_0000_0000_0000
    ensures Mul(x, y) == Times(x, y)
  {
    hide Times;
  }

  /** The accumulated words are the two halves of the exact 128-bit product, and neither the products of 32-bit halves
      nor any of the sums on the way overflow: the high half is the sum of the exact contributions. */
  lemma AccumulateExact(x: Word, y: Word)
    ensures var r2a, r2b, r1 := Times(Low(x), High(y)), Times(High(x), Low(y)), Times(Low(x), Low(y));
      && r2a < 0x1_0000_0000_0000_0000 && r2b < 0x1_0000_0000_0000_0000 && r1 < 0x1_0000_0000_0000_0000
      && var r2 := High(r1) + Low(r2a) + Low(r2b);
      && r2 < 0x1_0000_0000_0000_0000
      && Accumulate(x, y).high == Times(High(x), High(y)) + High(r2a) + High(r2b) + High(r2)
    ensures Accumulate(x, y).high * 0x1_0000_0000_0000_0000 + Accumulate(x, y).low == Times(x, y)
  {
    Digits(x);
    Digits(y);
    var p, a, b, c := Times(High(x), High(y)), Times(Low(x), High(y)), Times(High(x), Low(y)), Times(Low(x), Low(y));
    Bounded(High(x), High(y));
    Bounded(Low(x), High(y));
    Bounded(High(x), Low(y));
    Bounded(Low(x), Low(y));
    Expand(x, y);
    ProductBound(x, y);
    hide Times, High, Low, ShiftUp, Add, Mul;
    MulExact(High(x), High(y));
    MulExact(Low(x), High(y));
    MulExact(High(x), Low(y));
    MulExact(Low(x), Low(y));
    Digits(a);
    Digits(b);
    Digits(c);
    var middle: Word := High(c) + Low(a) + Low(b);
    Columns(p, a, b, c, middle);
    AddExact(High(c), Low(a));
    AddExact(High(c) + Low(a), Low(b));
    AddExact(ShiftUp(middle), Low(c));
    AddExact(p, High(a));
    AddExact(p + High(a), High(b));
    AddExact(p + High(a) + High(b), High(middle));
  }

  /** mulx64 is the XOR of the low and high halves of the product. */
  lemma Mulx64Exact(x: Word, y: Word)
    ensures Mulx64(x, y) == Xor(Times(x, y) % 0x1_0000_0000_0000_0000, Times(x, y) / 0x1_0000_0000_0000_0000)
  {
    AccumulateExact(x, y);
    hide Times, Xor, Accumulate;
  }
}
