/** Permissible table sizes, the hash-to-group mapping, and the load arithmetic (load factor exactly 7/8). */
module SizePolicy {
  import opened Pow2Arith

  /** Slots per group. */
  const N := 15
  /** Bits in a size_t. */
  const BITS := 64

  type Hash = h: nat | h < 0x1_0000_0000_0000_0000

  function BitWidth(n: nat): nat {
    if n == 0 then 0 else 1 + BitWidth(n / 2)
  }

  /** A group-array size is 2^(BITS - index) for an index between 1 and BITS - 1. */
  predicate IsSizeIndex(index: nat) {
    1 <= index < BITS
  }

  function Size(index: nat): nat
    requires IsSizeIndex(index)
  {
    Pow2(BITS - index)
  }

  function SizeIndex(n: nat): (index: nat)
    requires n <= Pow2(BITS - 1)
    ensures IsSizeIndex(index)
  {
    if n > 2 then BitWidthBound(n - 1, BITS - 1); BitWidthPositive(n - 1); BITS - BitWidth(n - 1) else BITS - 1
  }

  function Position(hash: Hash, index: nat): nat
    requires IsSizeIndex(index)
  {
    Div(hash, Pow2(index))
  }

  function SizeIndexFor(n: nat): nat
    requires n / N + 1 <= Pow2(BITS - 1)
  {
    SizeIndex(n / N + 1)
  }

  function CapacityFor(n: nat): nat
    requires n / N + 1 <= Pow2(BITS - 1)
  {
    SizeCapacity(SizeIndexFor(n))
  }

  /** Element slots of an allocated array: one slot of the last group is the sentinel. */
  function SizeCapacity(index: nat): nat
    requires IsSizeIndex(index)
  {
    15 * Size(index) - 1
  }

  function InitialMaxLoad(capacity: nat): (ml: nat)
    ensures ml <= capacity
  {
    if capacity <= 2 * N - 1 then capacity else 7 * capacity / 8
  }

  /** Least capacity at which n elements reach a load of 7/8: ceil(n / mlf). */
  function LoadFor(n: nat): nat {
    (8 * n + 6) / 7
  }

  /** Capacity asked for by new_arrays_for_growth. */
  function GrowthRequest(size: nat): nat {
    LoadFor(size + size / 61 + 1)
  }

  /** The allocator can only be asked for sizes a size_t can index. */
  predicate CanGrow(size: nat) {
    GrowthRequest(size) / N + 1 <= Pow2(BITS - 1)
  }

  lemma {:induction false} BitWidthPositive(n: nat)
    requires n > 0
    ensures BitWidth(n) >= 1
  {
  }

  lemma {:induction false} BitWidthBound(n: nat, k: nat)
    requires n < Pow2(k)
    ensures BitWidth(n) <= k
  {
    if n > 0 {
      BitWidthBound(n / 2, k - 1);
    }
  }

  lemma {:induction false} BitWidthBrackets(n: nat)
    ensures n < Pow2(BitWidth(n))
    ensures n > 0 ==> Pow2(BitWidth(n) - 1) <= n
  {
    if n > 1 {
      BitWidthBrackets(n / 2);
    } else if n == 1 {
      assert BitWidth(1) == 1 + BitWidth(0);
    }
  }

  /** size(size_index(n)) >= n, and it is the least permissible size (at least 2) that is. */
  lemma SizeLeast(n: nat)
    requires n <= Pow2(BITS - 1)
    ensures Size(SizeIndex(n)) >= n
    ensures forall index :: IsSizeIndex(index) && Size(index) >= n ==> Size(SizeIndex(n)) <= Size(index)
  {
    if n > 2 {
      BitWidthBrackets(n - 1);
      var w := BitWidth(n - 1);
      forall index | IsSizeIndex(index) && Size(index) >= n
        ensures Size(SizeIndex(n)) <= Size(index)
      {
        BitWidthBound(n - 1, BITS - index);
        Pow2Monotone(w, BITS - index);
      }
    } else {
      assert Pow2(1) == 2;
      forall index | IsSizeIndex(index) ensures Size(index) >= 2 { Pow2Monotone(1, BITS - index); }
    }
  }

  /** position(hash, index) is always a valid group number. */
  lemma PositionInRange(hash: Hash, index: nat)
    requires IsSizeIndex(index)
    ensures Position(hash, index) < Size(index)
  {
    Pow2Add(BITS - index, index);
    WordSize();
    DivBelow(hash, Size(index), Pow2(index));
  }

  lemma WordSize()
    ensures Pow2(BITS) == 0x1_0000_0000_0000_0000
  {
    assert Pow2(8) == 256;
    Pow2Add(8, 8);
    Pow2Add(16, 16);
    Pow2Add(32, 32);
  }

  /** The position is made of the top bits of the hash: of equally many hashes each, in order, for every group. */
  lemma PositionTop(hash: Hash, index: nat)
    requires IsSizeIndex(index)
    ensures Times(Position(hash, index), Pow2(index)) <= hash < Times(Position(hash, index) + 1, Pow2(index))
  {
    hide Pow2;
    var m := Pow2(index);
    assert hash == m * (hash / m) + hash % m;
    assert Times(hash / m + 1, m) == Times(hash / m, m) + m;
  }

  /** The initial maximum load is 7/8 of the capacity, rounded down, except that tables of at most two groups may be
      filled up. */
  lemma LoadBounds(capacity: nat)
    ensures capacity <= 29 ==> InitialMaxLoad(capacity) == capacity
    ensures capacity > 29 ==> 8 * InitialMaxLoad(capacity) <= 7 * capacity < 8 * (InitialMaxLoad(capacity) + 1)
  {
  }

  /** A capacity of LoadFor(n), and no smaller one, has n elements at a load of at most 7/8. */
  lemma LoadLeast(n: nat)
    ensures 8 * n <= 7 * LoadFor(n)
    ensures forall c: nat :: 8 * n <= 7 * c ==> LoadFor(n) <= c
  {
  }

  /** capacity_for(n) holds n elements and no smaller permissible capacity does. */
  lemma CapacityLeast(n: nat)
    requires n / N + 1 <= Pow2(BITS - 1)
    ensures CapacityFor(n) >= n
    ensures forall index :: IsSizeIndex(index) && SizeCapacity(index) >= n ==> CapacityFor(n) <= SizeCapacity(index)
  {
    SizeLeast(n / N + 1);
  }

  /** capacity_for is idempotent. */
  lemma CapacityIdempotent(n: nat)
    requires n / N + 1 <= Pow2(BITS - 1)
    ensures CapacityFor(n) / N + 1 <= Pow2(BITS - 1)
    ensures CapacityFor(CapacityFor(n)) == CapacityFor(n)
  {
    var index := SizeIndexFor(n);
    Pow2Monotone(BITS - index, BITS - 1);
    assert CapacityFor(n) / N + 1 == Size(index);
    SizeLeast(n / N + 1);
    SizeLeast(Size(index));
    CapacityLeast(CapacityFor(n));
    assert SizeCapacity(index) >= CapacityFor(n);
  }

  /** After reserve(n), n elements fit under the maximum load. */
  lemma ReserveSuffices(n: nat)
    requires LoadFor(n) / N + 1 <= Pow2(BITS - 1)
    ensures InitialMaxLoad(CapacityFor(LoadFor(n))) >= n
  {
    CapacityLeast(LoadFor(n));
  }

  /** Growth leaves the maximum load above the current size, by one and one 61st of it; and of the capacities whose 7/8
      allow that, it takes the least. */
  lemma GrowthSuffices(size: nat)
    requires GrowthRequest(size) / N + 1 <= Pow2(BITS - 1)
    ensures InitialMaxLoad(CapacityFor(GrowthRequest(size))) >= size + size / 61 + 1
    ensures forall index :: IsSizeIndex(index) && 7 * SizeCapacity(index) >= 8 * (size + size / 61 + 1) ==>
      CapacityFor(GrowthRequest(size)) <= SizeCapacity(index)
  {
    ReserveSuffices(size + size / 61 + 1);
    CapacityLeast(GrowthRequest(size));
    LoadLeast(size + size / 61 + 1);
    hide CapacityFor, InitialMaxLoad, LoadFor, SizeCapacity;
  }
}
