/** Words whose four 16-bit blocks hold one bit each of sixteen 4-bit numbers. */
module InterleavedWords {

  /** The number at a position. */
  function Nibble(x: bv64, pos: bv7): bv64
    requires pos < 16
  {
    ((x >> pos) & 1) | ((x >> (pos + 15)) & 2) | ((x >> (pos + 30)) & 4) | ((x >> (pos + 45)) & 8)
  }

  /** The mask table of set_impl. */
  function Mask(n: bv64): bv64 {
    if n == 0 then 0x0000000000000000 else if n == 1 then 0x0000000000000001 else
    if n == 2 then 0x0000000000010000 else if n == 3 then 0x0000000000010001 else
    if n == 4 then 0x0000000100000000 else if n == 5 then 0x0000000100000001 else
    if n == 6 then 0x0000000100010000 else if n == 7 then 0x0000000100010001 else
    if n == 8 then 0x0001000000000000 else if n == 9 then 0x0001000000000001 else
    if n == 10 then 0x0001000000010000 else if n == 11 then 0x0001000000010001 else
    if n == 12 then 0x0001000100000000 else if n == 13 then 0x0001000100000001 else
    if n == 14 then 0x0001000100010000 else 0x0001000100010001
  }

  /** The imask table of set_impl. */
  function InverseMask(n: bv64): bv64 {
    if n == 0 then 0x0001000100010001 else if n == 1 then 0x0001000100010000 else
    if n == 2 then 0x0001000100000001 else if n == 3 then 0x0001000100000000 else
    if n == 4 then 0x0001000000010001 else if n == 5 then 0x0001000000010000 else
    if n == 6 then 0x0001000000000001 else if n == 7 then 0x0001000000000000 else
    if n == 8 then 0x0000000100010001 else if n == 9 then 0x0000000100010000 else
    if n == 10 then 0x0000000100000001 else if n == 11 then 0x0000000100000000 else
    if n == 12 then 0x0000000000010001 else if n == 13 then 0x0000000000010000 else
    if n == 14 then 0x0000000000000001 else 0x0000000000000000
  }

  /** The mask table of match_impl. */
  function BlockMask(n: bv64): bv64 {
    if n == 0 then 0x0000000000000000 else if n == 1 then 0x000000000000ffff else
    if n == 2 then 0x00000000ffff0000 else if n == 3 then 0x00000000ffffffff else
    if n == 4 then 0x0000ffff00000000 else if n == 5 then 0x0000ffff0000ffff else
    if n == 6 then 0x0000ffffffff0000 else if n == 7 then 0x0000ffffffffffff else
    if n == 8 then 0xffff000000000000 else if n == 9 then 0xffff00000000ffff else
    if n == 10 then 0xffff0000ffff0000 else if n == 11 then 0xffff0000ffffffff else
    if n == 12 then 0xffffffff00000000 else if n == 13 then 0xffffffff0000ffff else
    if n == 14 then 0xffffffffffff0000 else 0xffffffffffffffff
  }

  function Spread(n: bv64): bv64 {
    (n & 1) | ((n & 2) << 15) | ((n & 4) << 30) | ((n & 8) << 45)
  }

  lemma Tables(n: bv64)
    requires n < 16
    ensures Mask(n) == Spread(n) && InverseMask(n) == Spread(15 - n)
  {
  }

  /** A 16-bit block of ones for every bit of n. */
  function Blocks(n: bv64): bv64 {
    (if n & 1 != 0 then 0xffff else 0) | (if n & 2 != 0 then 0xffff0000 else 0) |
    (if n & 4 != 0 then 0xffff00000000 else 0) | (if n & 8 != 0 then 0xffff000000000000 else 0)
  }

  lemma BlockTable(n: bv64)
    requires n < 16
    ensures BlockMask(n) == Blocks(n)
  {
  }

  function SetImpl(x: bv64, pos: bv7, n: bv64): bv64
    requires pos < 16
  {
    (x | (Mask(n) << pos)) & !(InverseMask(n) << pos)
  }

  lemma SetHere(x: bv64, pos: bv7, n: bv64)
    requires pos < 16 && n < 16
    ensures Nibble(SetImpl(x, pos, n), pos) == n
  {
    Tables(n);
    hide Mask, InverseMask;
  }

  /** Bit q of the given block. */
  function BlockBit(x: bv64, q: bv7, block: bv7): bv64
    requires q < 16 && block < 4
  {
    (x >> (q + 16 * block)) & 1
  }

  lemma NibbleBits(x: bv64, y: bv64, q: bv7)
    requires q < 16
    requires BlockBit(x, q, 0) == BlockBit(y, q, 0) && BlockBit(x, q, 1) == BlockBit(y, q, 1)
    requires BlockBit(x, q, 2) == BlockBit(y, q, 2) && BlockBit(x, q, 3) == BlockBit(y, q, 3)
    ensures Nibble(x, q) == Nibble(y, q)
  {
  }

  lemma SetKeepsBit(x: bv64, pos: bv7, n: bv64, q: bv7, block: bv7)
    requires pos < 16 && n < 16 && q < 16 && q != pos && block < 4
    ensures BlockBit(SetImpl(x, pos, n), q, block) == BlockBit(x, q, block)
  {
    Tables(n);
    hide Mask, InverseMask;
  }

  lemma SetElsewhere(x: bv64, pos: bv7, n: bv64, q: bv7)
    requires pos < 16 && n < 16 && q < 16 && q != pos
    ensures Nibble(SetImpl(x, pos, n), q) == Nibble(x, q)
  {
    SetKeepsBit(x, pos, n, q, 0);
    SetKeepsBit(x, pos, n, q, 1);
    SetKeepsBit(x, pos, n, q, 2);
    SetKeepsBit(x, pos, n, q, 3);
    hide SetImpl, BlockBit, Nibble;
    NibbleBits(SetImpl(x, pos, n), x, q);
  }

  /** All four bits at a position are 0. */
  predicate Clear(x: bv64, q: bv7)
    requires q < 16
  {
    BlockBit(x, q, 0) == 0 && BlockBit(x, q, 1) == 0 && BlockBit(x, q, 2) == 0 && BlockBit(x, q, 3) == 0
  }

  lemma ClearNibble(x: bv64, q: bv7)
    requires q < 16
    ensures Clear(x, q) <==> Nibble(x, q) == 0
  {
  }

  lemma ClearOr(x: bv64, y: bv64, q: bv7)
    requires q < 16
    ensures Clear(x | y, q) <==> Clear(x, q) && Clear(y, q)
  {
  }

  function Differences(x: bv64, n: bv64): bv64 {
    x ^ BlockMask(n)
  }

  lemma DifferenceBit0(x: bv64, n: bv64, q: bv7)
    requires q < 16 && n < 16
    ensures BlockBit(Differences(x, n), q, 0) == BlockBit(x, q, 0) ^ (n & 1)
  {
    BlockTable(n);
    hide BlockMask;
  }

  lemma DifferenceBit1(x: bv64, n: bv64, q: bv7)
    requires q < 16 && n < 16
    ensures BlockBit(Differences(x, n), q, 1) == BlockBit(x, q, 1) ^ ((n >> 1) & 1)
  {
    BlockTable(n);
    hide BlockMask;
  }

  lemma DifferenceBit2(x: bv64, n: bv64, q: bv7)
    requires q < 16 && n < 16
    ensures BlockBit(Differences(x, n), q, 2) == BlockBit(x, q, 2) ^ ((n >> 2) & 1)
  {
    BlockTable(n);
    hide BlockMask;
  }

  lemma DifferenceBit3(x: bv64, n: bv64, q: bv7)
    requires q < 16 && n < 16
    ensures BlockBit(Differences(x, n), q, 3) == BlockBit(x, q, 3) ^ ((n >> 3) & 1)
  {
    BlockTable(n);
    hide BlockMask;
  }

  lemma NibbleIs(x: bv64, n: bv64, q: bv7)
    requires q < 16 && n < 16
    ensures Nibble(x, q) == n <==>
      && BlockBit(x, q, 0) == n & 1 && BlockBit(x, q, 1) == (n >> 1) & 1
      && BlockBit(x, q, 2) == (n >> 2) & 1 && BlockBit(x, q, 3) == (n >> 3) & 1
  {
  }

  /** Differences against the number itself vanish, and only against it. */
  lemma ClearXor(x: bv64, n: bv64, q: bv7)
    requires q < 16 && n < 16
    ensures Clear(Differences(x, n), q) <==> Nibble(x, q) == n
  {
    hide Differences, BlockBit, Nibble;
    DifferenceBit0(x, n, q);
    DifferenceBit1(x, n, q);
    DifferenceBit2(x, n, q);
    DifferenceBit3(x, n, q);
    XorZero(BlockBit(x, q, 0), n & 1);
    XorZero(BlockBit(x, q, 1), (n >> 1) & 1);
    XorZero(BlockBit(x, q, 2), (n >> 2) & 1);
    XorZero(BlockBit(x, q, 3), (n >> 3) & 1);
    NibbleIs(x, n, q);
  }

  lemma XorZero(x: bv64, y: bv64)
    ensures x ^ y == 0 <==> x == y
  {
  }

  /** Bit q of a 15-bit slot mask. */
  predicate InMask(y: bv64, q: bv7)
    requires q < 16
  {
    (y >> q) & 1 == 1
  }

  /** Collects the positions whose four bits are 1. */
  function FoldAnd(x: bv64): bv64 {
    var y := x & (x >> 32) & 0xffffffff;
    y & (y >> 16) & 0x7fff
  }

  lemma FoldAndBit(x: bv64, q: bv7)
    requires q < 15
    ensures InMask(FoldAnd(!x), q) <==> Clear(x, q)
  {
  }

  lemma FoldPair(x: bv64, y: bv64, q: bv7)
    requires q < 15
    ensures InMask(FoldAnd(!(x | y)), q) <==> Clear(x, q) && Clear(y, q)
  {
    hide *;
    FoldAndBit(x | y, q);
    ClearOr(x, y, q);
  }

  /** Collects the positions where some bit is 1. */
  function FoldOr(x: bv64): bv64 {
    var y := (x | (x >> 32)) & 0xffffffff;
    (y | (y >> 16)) & 0x7fff
  }

  lemma FoldOrBit(x: bv64, q: bv7)
    requires q < 15
    ensures InMask(FoldOr(x), q) <==> !Clear(x, q)
  {
  }

  function MatchImpl(x0: bv64, x1: bv64, lo: bv64, hi: bv64): bv64 {
    FoldAnd(!(Differences(x1, hi) | Differences(x0, lo)))
  }

  lemma MatchBit(x0: bv64, x1: bv64, lo: bv64, hi: bv64, q: bv7)
    requires lo < 16 && hi < 16 && q < 15
    ensures InMask(MatchImpl(x0, x1, lo, hi), q) <==> Nibble(x0, q) == lo && Nibble(x1, q) == hi
  {
    hide *;
    MatchFold(x0, x1, lo, hi);
    FoldPair(Differences(x1, hi), Differences(x0, lo), q);
    ClearXor(x0, lo, q);
    ClearXor(x1, hi, q);
  }

  lemma MatchFold(x0: bv64, x1: bv64, lo: bv64, hi: bv64)
    ensures MatchImpl(x0, x1, lo, hi) == FoldAnd(!(Differences(x1, hi) | Differences(x0, lo)))
  {
  }

  function AvailableImpl(x0: bv64, x1: bv64): bv64 {
    FoldAnd(!(x0 | x1))
  }

  lemma AvailableBit(x0: bv64, x1: bv64, q: bv7)
    requires q < 15
    ensures InMask(AvailableImpl(x0, x1), q) <==> Nibble(x0, q) == 0 && Nibble(x1, q) == 0
  {
    hide FoldAnd, Clear, Nibble, InMask;
    FoldPair(x0, x1, q);
    ClearNibble(x0, q);
    ClearNibble(x1, q);
  }

  function OccupiedImpl(x0: bv64, x1: bv64): bv64 {
    FoldOr(x0 | x1)
  }

  lemma OccupiedBit(x0: bv64, x1: bv64, q: bv7)
    requires q < 15
    ensures InMask(OccupiedImpl(x0, x1), q) <==> !(Nibble(x0, q) == 0 && Nibble(x1, q) == 0)
  {
    hide FoldOr, Clear, Nibble, InMask;
    FoldOrBit(x0 | x1, q);
    ClearOr(x0, x1, q);
    ClearNibble(x0, q);
    ClearNibble(x1, q);
  }

  predicate IsOccupiedImpl(x0: bv64, x1: bv64, pos: bv7)
    requires pos < 15
  {
    AnyOf(x0 | x1, pos)
  }

  predicate AnyOf(x: bv64, pos: bv7)
    requires pos < 15
  {
    x & (0x0001000100010001 << pos) != 0
  }

  lemma AnyBit(x: bv64, q: bv7)
    requires q < 15
    ensures AnyOf(x, q) <==> !Clear(x, q)
  {
  }

  lemma AnyPair(x: bv64, y: bv64, q: bv7)
    requires q < 15
    ensures IsOccupiedImpl(x, y, q) <==> !(Clear(x, q) && Clear(y, q))
  {
    hide Clear, AnyOf;
    AnyBit(x | y, q);
    ClearOr(x, y, q);
  }

  lemma IsOccupiedBit(x0: bv64, x1: bv64, q: bv7)
    requires q < 15
    ensures IsOccupiedImpl(x0, x1, q) <==> !(Nibble(x0, q) == 0 && Nibble(x1, q) == 0)
  {
    hide *;
    AnyPair(x0, x1, q);
    ClearNibble(x0, q);
    ClearNibble(x1, q);
  }

  predicate SentinelImpl(x0: bv64, x1: bv64) {
    x0 & 0x4000400040004000 == 0x4000 && x1 & 0x4000400040004000 == 0
  }

  lemma SentinelBits(x0: bv64, x1: bv64)
    ensures SentinelImpl(x0, x1) <==> Nibble(x0, 14) == 1 && Nibble(x1, 14) == 0
  {
  }

  /** The top bit of one of the four 16-bit halves of a word. */
  predicate TopBit(x: bv64, block: bv7)
    requires block < 4
  {
    (x >> (16 * block)) & 0x8000 != 0
  }

  function WithTopBit(x: bv64, block: bv7): bv64
    requires block < 4
  {
    x | (0x8000 << (16 * block))
  }

  lemma TopBitSet(x: bv64, block: bv7, other: bv7, q: bv7)
    requires block < 4 && other < 4 && q < 15
    ensures TopBit(WithTopBit(x, block), other) <==> TopBit(x, other) || other == block
    ensures Nibble(WithTopBit(x, block), q) == Nibble(x, q)
  {
  }

  lemma TopBitKept(x: bv64, pos: bv7, n: bv64, block: bv7)
    requires pos < 15 && n < 16 && block < 4
    ensures TopBit(SetImpl(x, pos, n), block) == TopBit(x, block)
  {
    Tables(n);
    hide Mask, InverseMask;
  }

  /** The three low bits of a slot's byte, gathered; higher bits are left dirty. */
  function LowBits(x: bv64, pos: bv7): bv64
    requires pos < 15
  {
    var y := (x >> pos) & 0x000100010001;
    (y | (y >> 15) | (y >> 30)) & 0xffffffff
  }

  lemma LowBitsOfNibble(x: bv64, pos: bv7)
    requires pos < 15
    ensures LowBits(x, pos) & 7 == Nibble(x, pos) & 7
  {
  }

  lemma NibbleSmall(x: bv64, pos: bv7)
    requires pos < 16
    ensures Nibble(x, pos) < 16
  {
  }

  /** q is the number of trailing zeros of y (unchecked_countr_zero). */
  predicate LowestBit(y: bv64, q: bv7)
    requires q < 15
  {
    InMask(y, q) && y & ((1 << q) - 1) == 0
  }

  /** y & (y - 1) drops exactly the lowest bit. */
  lemma DropLowest(y: bv64, q: bv7, p: bv7)
    requires q < 15 && p < 15 && LowestBit(y, q)
    ensures InMask(y & (y - 1), p) <==> InMask(y, p) && p != q
    ensures p < q ==> !InMask(y, p)
  {
  }
}

/** The two physical layouts of a group's metadata. Both are the abstract Group, so each simulates the other. */
module Group15 {
  import opened BitOps
  import opened Pow2Arith
  import opened SizePolicy
  import opened Groups
  import opened InterleavedWords

  /** Positions and 4-bit numbers as machine words, value by value. */
  function Amount(pos: nat): (a: bv7)
    requires pos < 16
    ensures a < 16 && (pos < 15 ==> a < 15) && (pos < 4 ==> a < 4)
  {
    if pos == 0 then 0 else if pos == 1 then 1 else if pos == 2 then 2 else if pos == 3 then 3 else
    if pos == 4 then 4 else if pos == 5 then 5 else if pos == 6 then 6 else if pos == 7 then 7 else
    if pos == 8 then 8 else if pos == 9 then 9 else if pos == 10 then 10 else if pos == 11 then 11 else
    if pos == 12 then 12 else if pos == 13 then 13 else if pos == 14 then 14 else 15
  }

  function FromNat(n: nat): (w: bv64)
    requires n < 16
    ensures w < 16
  {
    if n == 0 then 0 else if n == 1 then 1 else if n == 2 then 2 else if n == 3 then 3 else
    if n == 4 then 4 else if n == 5 then 5 else if n == 6 then 6 else if n == 7 then 7 else
    if n == 8 then 8 else if n == 9 then 9 else if n == 10 then 10 else if n == 11 then 11 else
    if n == 12 then 12 else if n == 13 then 13 else if n == 14 then 14 else 15
  }

  function ToNat(w: bv64): (n: nat)
    ensures n < 16
  {
    if w == 0 then 0 else if w == 1 then 1 else if w == 2 then 2 else if w == 3 then 3 else
    if w == 4 then 4 else if w == 5 then 5 else if w == 6 then 6 else if w == 7 then 7 else
    if w == 8 then 8 else if w == 9 then 9 else if w == 10 then 10 else if w == 11 then 11 else
    if w == 12 then 12 else if w == 13 then 13 else if w == 14 then 14 else 15
  }

  lemma ToFrom(n: nat)
    requires n < 16
    ensures ToNat(FromNat(n)) == n
  {
  }

  lemma FromTo(w: bv64)
    requires w < 16
    ensures FromNat(ToNat(w)) == w
  {
  }

  lemma LowThree(w: bv64)
    requires w < 16
    ensures ToNat(w & 7) == ToNat(w) % 8
  {
  }

  /* ---------- bit-interleaved layout ---------- */

  ghost function Byte(x0: bv64, x1: bv64, pos: nat): nat
    requires pos < 15
  {
    16 * ToNat(Nibble(x1, Amount(pos))) + ToNat(Nibble(x0, Amount(pos)))
  }

  /** Bit 15 of the 16-bit word number b is the overflow bit for hashes that are b modulo 8. */
  predicate OverflowBit(x0: bv64, x1: bv64, b: nat)
    requires b < 8
  {
    if b < 4 then TopBit(x0, Amount(b)) else TopBit(x1, Amount(b - 4))
  }

  ghost function Logical(x0: bv64, x1: bv64): Group {
    Group(seq(15, pos requires 0 <= pos < 15 => Byte(x0, x1, pos)), set b: nat | b < 8 && OverflowBit(x0, x1, b))
  }

  /** The slots named by a mask. */
  ghost function Slots(y: bv64): set<nat> {
    set pos: nat | pos < 15 && InMask(y, Amount(pos))
  }

  lemma Digits(hi: nat, lo: nat, n: nat)
    requires hi < 16 && lo < 16
    ensures 16 * hi + lo == n <==> hi == n / 16 && lo == n % 16
  {
  }

  lemma AmountOrder(p: nat, q: nat)
    requires p < q < 16
    ensures Amount(p) < Amount(q)
  {
  }

  /** The scan of a mask: counting trailing zeros finds its lowest slot, and y & (y - 1) removes just that slot. */
  lemma ScanStep(y: bv64, n: nat)
    requires n < 15 && LowestBit(y, Amount(n))
    ensures Lowest(Slots(y)) == n && Slots(y & (y - 1)) == Slots(y) - {n}
  {
    assert InMask(y, Amount(n));
    hide InMask, LowestBit, Amount;
    forall p: nat | p < 15
      ensures InMask(y & (y - 1), Amount(p)) <==> InMask(y, Amount(p)) && p != n
      ensures p < n ==> !InMask(y, Amount(p))
    {
      DropLowest(y, Amount(n), Amount(p));
      if p < n {
        AmountOrder(p, n);
      } else if n < p {
        AmountOrder(n, p);
      }
    }
    LowestIs(Slots(y), n);
  }

  lemma LowestIs(mask: set<nat>, n: nat)
    requires n < N && n in mask && forall p: nat :: p < n ==> p !in mask
    ensures Lowest(mask) == n
  {
  }

  lemma ByteIs(x0: bv64, x1: bv64, pos: nat, n: nat)
    requires pos < 15 && n < 256
    ensures Byte(x0, x1, pos) == n <==> Nibble(x0, Amount(pos)) == FromNat(n % 16) && Nibble(x1, Amount(pos)) == FromNat(n / 16)
  {
    hide ToNat, FromNat, Amount, Nibble;
    var a := Amount(pos);
    NibbleSmall(x0, a);
    NibbleSmall(x1, a);
    FromTo(Nibble(x0, a));
    FromTo(Nibble(x1, a));
    ToFrom(n % 16);
    ToFrom(n / 16);
    Digits(ToNat(Nibble(x1, a)), ToNat(Nibble(x0, a)), n);
  }

  lemma SetLogical(x0: bv64, x1: bv64, pos: nat, n: nat)
    requires pos < 15 && n < 256
    ensures var a := Amount(pos);
      Logical(SetImpl(x0, a, FromNat(n % 16)), SetImpl(x1, a, FromNat(n / 16)))
        == Logical(x0, x1).(meta := Logical(x0, x1).meta[pos := n])
  {
    var a := Amount(pos);
    var y0, y1 := SetImpl(x0, a, FromNat(n % 16)), SetImpl(x1, a, FromNat(n / 16));
    SetBytes(x0, x1, pos, n);
    SetKeepsOverflow(x0, x1, pos, n);
    hide Byte, OverflowBit, SetImpl, FromNat, Amount;
  }

  lemma SetBytes(x0: bv64, x1: bv64, pos: nat, n: nat)
    requires pos < 15 && n < 256
    ensures var a := Amount(pos);
      forall q: nat :: q < 15 ==>
        Byte(SetImpl(x0, a, FromNat(n % 16)), SetImpl(x1, a, FromNat(n / 16)), q) == if q == pos then n else Byte(x0, x1, q)
  {
    var a := Amount(pos);
    var y0, y1 := SetImpl(x0, a, FromNat(n % 16)), SetImpl(x1, a, FromNat(n / 16));
    hide SetImpl, Nibble, FromNat, ToNat, Amount;
    forall q: nat | q < 15 ensures Byte(y0, y1, q) == if q == pos then n else Byte(x0, x1, q) {
      if q == pos {
        SetHere(x0, a, FromNat(n % 16));
        SetHere(x1, a, FromNat(n / 16));
        ByteIs(y0, y1, q, n);
      } else {
        DifferentAmounts(q, pos);
        SetElsewhere(x0, a, FromNat(n % 16), Amount(q));
        SetElsewhere(x1, a, FromNat(n / 16), Amount(q));
      }
    }
  }

  lemma SetKeepsOverflow(x0: bv64, x1: bv64, pos: nat, n: nat)
    requires pos < 15 && n < 256
    ensures var a := Amount(pos);
      forall b: nat :: b < 8 ==>
        OverflowBit(SetImpl(x0, a, FromNat(n % 16)), SetImpl(x1, a, FromNat(n / 16)), b) == OverflowBit(x0, x1, b)
  {
    var a := Amount(pos);
    hide SetImpl, TopBit, FromNat, Amount;
    forall b: nat | b < 8
      ensures OverflowBit(SetImpl(x0, a, FromNat(n % 16)), SetImpl(x1, a, FromNat(n / 16)), b) == OverflowBit(x0, x1, b)
    {
      if b < 4 {
        TopBitKept(x0, a, FromNat(n % 16), Amount(b));
      } else {
        TopBitKept(x1, a, FromNat(n / 16), Amount(b - 4));
      }
    }
  }

  lemma DifferentAmounts(p: nat, q: nat)
    requires p < 16 && q < 16 && p != q
    ensures Amount(p) != Amount(q)
  {
  }

  lemma MarkLogical(x0: bv64, x1: bv64, h: nat)
    requires h < 8
    ensures var y0 := if h < 4 then WithTopBit(x0, Amount(h)) else x0;
      var y1 := if h < 4 then x1 else WithTopBit(x1, Amount(h - 4));
      Logical(y0, y1) == Logical(x0, x1).(overflow := Logical(x0, x1).overflow + {h})
  {
    var y0 := if h < 4 then WithTopBit(x0, Amount(h)) else x0;
    var y1 := if h < 4 then x1 else WithTopBit(x1, Amount(h - 4));
    hide WithTopBit, Nibble, TopBit, ToNat, Amount;
    forall q: nat | q < 15 ensures Byte(y0, y1, q) == Byte(x0, x1, q) {
      if h < 4 {
        TopBitSet(x0, Amount(h), 0, Amount(q));
      } else {
        TopBitSet(x1, Amount(h - 4), 0, Amount(q));
      }
    }
    forall b: nat | b < 8 ensures OverflowBit(y0, y1, b) == (OverflowBit(x0, x1, b) || b == h) {
      MarkBit(x0, x1, h, b);
    }
    hide Byte, OverflowBit;
  }

  lemma MarkBit(x0: bv64, x1: bv64, h: nat, b: nat)
    requires h < 8 && b < 8
    ensures var y0 := if h < 4 then WithTopBit(x0, Amount(h)) else x0;
      var y1 := if h < 4 then x1 else WithTopBit(x1, Amount(h - 4));
      OverflowBit(y0, y1, b) == (OverflowBit(x0, x1, b) || b == h)
  {
    var c, d := if b < 4 then b else b - 4, if h < 4 then h else h - 4;
    if c != d {
      DifferentAmounts(c, d);
    }
    TopBitSet(if b < 4 then x0 else x1, Amount(d), Amount(c), 0);
    hide WithTopBit, TopBit, Amount, Nibble;
  }

  lemma MatchLogical(x0: bv64, x1: bv64, n: nat)
    requires n < 256
    ensures Slots(MatchImpl(x0, x1, FromNat(n % 16), FromNat(n / 16))) == set q: nat | q < 15 && Logical(x0, x1).meta[q] == n
  {
    var y := MatchImpl(x0, x1, FromNat(n % 16), FromNat(n / 16));
    hide MatchImpl, InMask, Nibble, TopBit, Byte, FromNat, ToNat;
    forall q: nat | q < 15 ensures InMask(y, Amount(q)) <==> Byte(x0, x1, q) == n {
      MatchBit(x0, x1, FromNat(n % 16), FromNat(n / 16), Amount(q));
      ByteIs(x0, x1, q, n);
    }
    hide Amount;
  }

  lemma AvailableLogical(x0: bv64, x1: bv64)
    ensures Slots(AvailableImpl(x0, x1)) == Logical(x0, x1).MatchAvailable()
    ensures Slots(OccupiedImpl(x0, x1)) == Logical(x0, x1).MatchOccupied()
    ensures forall q: nat :: q < 15 ==> (IsOccupiedImpl(x0, x1, Amount(q)) <==> Logical(x0, x1).IsOccupied(q))
  {
    var y, z := AvailableImpl(x0, x1), OccupiedImpl(x0, x1);
    hide AvailableImpl, OccupiedImpl, IsOccupiedImpl, InMask, Nibble, TopBit, Byte, ToNat;
    forall q: nat | q < 15
      ensures InMask(y, Amount(q)) <==> Byte(x0, x1, q) == AVAILABLE
      ensures InMask(z, Amount(q)) <==> Byte(x0, x1, q) != AVAILABLE
      ensures IsOccupiedImpl(x0, x1, Amount(q)) <==> Byte(x0, x1, q) != AVAILABLE
    {
      AvailableBit(x0, x1, Amount(q));
      OccupiedBit(x0, x1, Amount(q));
      IsOccupiedBit(x0, x1, Amount(q));
      ByteIs(x0, x1, q, 0);
    }
    hide Amount;
  }

  lemma SentinelLogical(x0: bv64, x1: bv64, pos: nat)
    requires pos < 15
    ensures pos == 14 && SentinelImpl(x0, x1) ==> Logical(x0, x1).IsSentinel(pos)
    ensures Logical(x0, x1).IsSentinel(pos) && pos == 14 ==> SentinelImpl(x0, x1)
  {
    SentinelBits(x0, x1);
    ByteIs(x0, x1, pos, 1);
    hide SentinelImpl, Nibble, TopBit, Byte, ToNat;
  }

  lemma SameModEight(hi: nat, lo: nat)
    ensures (16 * hi + lo) % 8 == lo % 8
  {
  }

  lemma CauseLogical(x0: bv64, x1: bv64, pos: nat)
    requires pos < 15
    ensures ToNat(LowBits(x0, Amount(pos)) & 7) == Byte(x0, x1, pos) % 8 < 8
  {
    var a := Amount(pos);
    LowBitsOfNibble(x0, a);
    NibbleSmall(x0, a);
    LowThree(Nibble(x0, a));
    hide LowBits, Nibble, ToNat, Amount;
    SameModEight(ToNat(Nibble(x1, a)), ToNat(Nibble(x0, a)));
  }

  /** group15 without SIMD: two words with bit interleaving (16-bit words in little-endian order). */
  class InterleavedGroup {
    var m0: bv64
    var m1: bv64

    ghost function Value(): Group
      reads this
    {
      Logical(m0, m1)
    }

    constructor ()
      ensures Value() == EMPTY_GROUP
    {
      m0, m1 := 0, 0;
      new;
      EmptyLogical();
      hide Logical;
    }

    /** dummy_group_type. */
    constructor Dummy()
      ensures Value() == DUMMY_GROUP
    {
      m0, m1 := 0x4000, 0;
      new;
      EmptyLogical();
      hide Logical;
    }

    method Assign(pos: nat, n: nat)
      requires pos < N && n < 256
      modifies this
      ensures Value() == old(Value()).(meta := old(Value()).meta[pos := n])
    {
      SetLogical(m0, m1, pos, n);
      m0 := SetImpl(m0, Amount(pos), FromNat(n % 16));
      m1 := SetImpl(m1, Amount(pos), FromNat(n / 16));
    }

    method Initialize()
      modifies this
      ensures Value() == EMPTY_GROUP
    {
      m0, m1 := 0, 0;
      EmptyLogical();
      hide Logical;
    }

    method Set(pos: nat, hash: Hash)
      requires pos < N
      modifies this
      ensures Value() == old(Value()).Set(pos, hash)
    {
      Assign(pos, ReducedHash(hash));
    }

    method SetSentinel()
      modifies this
      ensures Value() == old(Value()).SetSentinel()
    {
      Assign(N - 1, SENTINEL);
    }

    method Reset(pos: nat)
      requires pos < N
      modifies this
      ensures Value() == old(Value()).Reset(pos)
    {
      Assign(pos, AVAILABLE);
    }

    method MarkOverflow(hash: Hash)
      modifies this
      ensures Value() == old(Value()).MarkOverflow(hash)
    {
      var h := hash % 8;
      MarkLogical(m0, m1, h);
      if h < 4 {
        m0 := WithTopBit(m0, Amount(h));
      } else {
        m1 := WithTopBit(m1, Amount(h - 4));
      }
    }

    predicate IsNotOverflowed(hash: Hash)
      reads this
      ensures IsNotOverflowed(hash) == Value().IsNotOverflowed(hash)
    {
      !OverflowBit(m0, m1, hash % 8)
    }

    /** The slot's own byte tells which overflow bit its element may have set. */
    predicate MaybeCausedOverflow(pos: nat)
      requires pos < N
      reads this
      ensures MaybeCausedOverflow(pos) == Value().MaybeCausedOverflow(pos)
    {
      CauseLogical(m0, m1, pos);
      OverflowBit(m0, m1, ToNat(LowBits(m0, Amount(pos)) & 7))
    }

    /** Only the last slot is ever tested for holding the sentinel's bits. */
    predicate IsSentinel(pos: nat)
      requires pos < N
      reads this
      ensures IsSentinel(pos) <==> pos == N - 1 && Value().IsSentinel(pos)
    {
      SentinelLogical(m0, m1, pos);
      pos == N - 1 && SentinelImpl(m0, m1)
    }

    predicate IsOccupied(pos: nat)
      requires pos < N
      reads this
      ensures IsOccupied(pos) == Value().IsOccupied(pos)
    {
      AvailableLogical(m0, m1);
      IsOccupiedImpl(m0, m1, Amount(pos))
    }

    function Match(hash: Hash): (y: bv64)
      reads this
      ensures Slots(y) == Value().Match(hash)
    {
      MatchLogical(m0, m1, ReducedHash(hash));
      MatchImpl(m0, m1, FromNat(ReducedHash(hash) % 16), FromNat(ReducedHash(hash) / 16))
    }

    function MatchAvailable(): (y: bv64)
      reads this
      ensures Slots(y) == Value().MatchAvailable()
    {
      AvailableLogical(m0, m1);
      AvailableImpl(m0, m1)
    }

    function MatchOccupied(): (y: bv64)
      reads this
      ensures Slots(y) == Value().MatchOccupied()
    {
      AvailableLogical(m0, m1);
      OccupiedImpl(m0, m1)
    }
  }

  lemma EmptyLogical()
    ensures Logical(0, 0) == EMPTY_GROUP && Logical(0x4000, 0) == DUMMY_GROUP
  {
    forall q: nat | q < 15 ensures Byte(0, 0, q) == 0 && Byte(0x4000, 0, q) == if q == 14 then 1 else 0 {
      ZeroNibbles(Amount(q));
      ByteIs(0, 0, q, 0);
      if q == 14 {
        ByteIs(0x4000, 0, q, 1);
      } else {
        DifferentAmounts(q, 14);
        ByteIs(0x4000, 0, q, 0);
      }
      hide Nibble, Amount;
    }
    forall b: nat | b < 8 ensures !OverflowBit(0, 0, b) && !OverflowBit(0x4000, 0, b) {}
    hide Byte, OverflowBit;
    assert Logical(0, 0).meta == EMPTY_GROUP.meta;
    assert Logical(0x4000, 0).meta == DUMMY_GROUP.meta;
  }

  lemma ZeroNibbles(a: bv7)
    requires a < 15
    ensures Nibble(0, a) == 0 && Nibble(0x4000, a) == if a == 14 then 1 else 0
  {
  }

  /* ---------- 16-byte layout ---------- */

  /** group15 with SSE2: fifteen metadata bytes, then the overflow byte. Comparisons are byte by byte. */
  class RegularGroup {
    var m: array<nat>

    ghost predicate Valid()
      reads this, m
    {
      m.Length == 16 && forall i :: 0 <= i < 16 ==> m[i] < 256
    }

    ghost function Value(): Group
      reads this, m
      requires Valid()
    {
      Group(m[..15], set b: nat | b < 8 && Bit(m[15], b))
    }

    constructor ()
      ensures Valid() && fresh(m) && Value() == EMPTY_GROUP
    {
      m := new nat[16](i => 0);
      new;
      forall b: nat | b < 8 ensures !Bit(0, b) { NoBit(b); }
      assert m[..15] == EMPTY_GROUP.meta;
    }

    method Initialize()
      requires Valid()
      modifies m
      ensures Valid() && m == old(m) && Value() == EMPTY_GROUP
    {
      forall i | 0 <= i < m.Length { m[i] := 0; }
      forall b: nat | b < 8 ensures !Bit(0, b) { NoBit(b); }
      assert m[..15] == EMPTY_GROUP.meta;
    }

    method Put(pos: nat, n: nat)
      requires Valid() && pos < N && n < 256
      modifies m
      ensures Valid() && m == old(m) && Value() == old(Value()).(meta := old(Value()).meta[pos := n])
    {
      m[pos] := n;
      assert m[..15] == old(m[..15])[pos := n];
    }

    method Set(pos: nat, hash: Hash)
      requires Valid() && pos < N
      modifies m
      ensures Valid() && m == old(m) && Value() == old(Value()).Set(pos, hash)
    {
      Put(pos, ReducedHash(hash));
    }

    method SetSentinel()
      requires Valid()
      modifies m
      ensures Valid() && m == old(m) && Value() == old(Value()).SetSentinel()
    {
      Put(N - 1, SENTINEL);
    }

    method Reset(pos: nat)
      requires Valid() && pos < N
      modifies m
      ensures Valid() && m == old(m) && Value() == old(Value()).Reset(pos)
    {
      Put(pos, AVAILABLE);
    }

    method MarkOverflow(hash: Hash)
      requires Valid()
      modifies m
      ensures Valid() && m == old(m) && Value() == old(Value()).MarkOverflow(hash)
    {
      var h := hash % 8;
      MarkByte(m[15], h);
      m[15] := Or(m[15], Pow2(h));
      assert m[..15] == old(m[..15]);
      hide Or, Bit;
    }

    predicate IsNotOverflowed(hash: Hash)
      requires Valid()
      reads this, m
      ensures IsNotOverflowed(hash) == Value().IsNotOverflowed(hash)
    {
      AndBit(m[15], hash % 8);
      And(m[15], Pow2(hash % 8)) == 0
    }

    predicate MaybeCausedOverflow(pos: nat)
      requires Valid() && pos < N
      reads this, m
      ensures MaybeCausedOverflow(pos) == Value().MaybeCausedOverflow(pos)
    {
      !IsNotOverflowed(m[pos])
    }

    predicate IsSentinel(pos: nat)
      requires Valid() && pos < N
      reads this, m
      ensures IsSentinel(pos) == Value().IsSentinel(pos)
    {
      m[pos] == SENTINEL
    }

    predicate IsOccupied(pos: nat)
      requires Valid() && pos < N
      reads this, m
      ensures IsOccupied(pos) == Value().IsOccupied(pos)
    {
      m[pos] != AVAILABLE
    }

    function Match(hash: Hash): (y: set<nat>)
      requires Valid()
      reads this, m
      ensures y == Value().Match(hash)
    {
      set pos: nat | pos < N && m[pos] == ReducedHash(hash)
    }

    function MatchAvailable(): (y: set<nat>)
      requires Valid()
      reads this, m
      ensures y == Value().MatchAvailable()
    {
      set pos: nat | pos < N && m[pos] == AVAILABLE
    }

    function MatchOccupied(): (y: set<nat>)
      requires Valid()
      reads this, m
      ensures y == Value().MatchOccupied()
    {
      var available := MatchAvailable();
      set pos: nat | pos < N && pos !in available
    }
  }

  lemma MarkByte(x: nat, h: nat)
    requires x < 256 && h < 8
    ensures Or(x, Pow2(h)) < 256
    ensures forall b: nat :: Bit(Or(x, Pow2(h)), b) <==> Bit(x, b) || b == h
  {
    assert Pow2(8) == 256;
    Pow2Monotone(h, 7);
    OrBelow(x, Pow2(h), 8);
    forall b: nat ensures Bit(Or(x, Pow2(h)), b) <==> Bit(x, b) || b == h { OrSets(x, h, b); }
  }

  /* ---------- agreement of the layouts ---------- */

  datatype Change =
    | ChangeAll | ChangeSet(pos: nat, hash: Hash) | ChangeReset(pos: nat) | ChangeOverflow(hash: Hash) | ChangeSentinel

  function Changed(g: Group, changes: seq<Change>): (r: Group)
    requires |g.meta| == N && forall c :: c in changes && (c.ChangeSet? || c.ChangeReset?) ==> c.pos < N
    ensures |r.meta| == N
  {
    if changes == [] then g
    else
      var h := Changed(g, changes[..|changes| - 1]);
      match changes[|changes| - 1]
      case ChangeAll => EMPTY_GROUP
      case ChangeSet(pos, hash) => h.Set(pos, hash)
      case ChangeReset(pos) => h.Reset(pos)
      case ChangeOverflow(hash) => h.MarkOverflow(hash)
      case ChangeSentinel => h.SetSentinel()
  }

  /** One change made in both layouts. */
  method ChangeBoth(r: RegularGroup, i: InterleavedGroup, c: Change)
    requires r.Valid() && r.Value() == i.Value() && (c.ChangeSet? || c.ChangeReset? ==> c.pos < N)
    modifies r.m, i
    ensures r.Valid() && r.m == old(r.m) && r.Value() == i.Value()
    ensures r.Value() == match c
      case ChangeAll => EMPTY_GROUP
      case ChangeSet(pos, hash) => old(r.Value()).Set(pos, hash)
      case ChangeReset(pos) => old(r.Value()).Reset(pos)
      case ChangeOverflow(hash) => old(r.Value()).MarkOverflow(hash)
      case ChangeSentinel => old(r.Value()).SetSentinel()
  {
    hide Logical, Bit;
    match c {
      case ChangeAll => r.Initialize(); i.Initialize();
      case ChangeSet(pos, hash) => r.Set(pos, hash); i.Set(pos, hash);
      case ChangeReset(pos) => r.Reset(pos); i.Reset(pos);
      case ChangeOverflow(hash) => r.MarkOverflow(hash); i.MarkOverflow(hash);
      case ChangeSentinel => r.SetSentinel(); i.SetSentinel();
    }
  }

  /** Any sequence of changes leaves the two layouts with the same logical contents. */
  method Replay(r: RegularGroup, i: InterleavedGroup, changes: seq<Change>)
    requires r.Valid() && r.Value() == i.Value()
    requires forall c :: c in changes && (c.ChangeSet? || c.ChangeReset?) ==> c.pos < N
    modifies r.m, i
    ensures r.Valid() && r.Value() == i.Value() == Changed(old(r.Value()), changes)
  {
    var k := 0;
    assert changes[..0] == [];
    while k < |changes|
      invariant k <= |changes| && r.Valid() && r.m == old(r.m)
      invariant r.Value() == i.Value() == Changed(old(r.Value()), changes[..k])
    {
      hide Logical, Bit;
      ChangeBoth(r, i, changes[k]);
      assert changes[..k + 1][..k] == changes[..k];
      k := k + 1;
    }
    assert changes[..k] == changes;
  }

  /** With the same logical contents, the two layouts answer every query alike; for is_sentinel this takes the
      invariant that no slot but the last holds the sentinel. */
  lemma LayoutsAgree(r: RegularGroup, i: InterleavedGroup, hash: Hash, pos: nat, last: bool)
    requires r.Valid() && r.Value() == i.Value() && pos < N && r.Value().WellFormed(last)
    ensures Slots(i.Match(hash)) == r.Match(hash)
    ensures Slots(i.MatchAvailable()) == r.MatchAvailable() && Slots(i.MatchOccupied()) == r.MatchOccupied()
    ensures i.IsOccupied(pos) == r.IsOccupied(pos) && i.IsSentinel(pos) == r.IsSentinel(pos)
    ensures i.IsNotOverflowed(hash) == r.IsNotOverflowed(hash)
    ensures i.MaybeCausedOverflow(pos) == r.MaybeCausedOverflow(pos)
  {
    hide Logical, Bit, Slots;
  }
}
