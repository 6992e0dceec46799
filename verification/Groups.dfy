/** The abstract metadata of one group of N element slots: reduced hashes plus the overflow bits. */
module Groups {
  import opened SizePolicy

  const AVAILABLE := 0
  const SENTINEL := 1

  /** Low byte of the hash, moved away from the two reserved marks. */
  function ReducedHash(hash: Hash): (r: nat)
    ensures 2 <= r < 256
    ensures r % 8 == hash % 8
    ensures hash % 256 >= 2 ==> r == hash % 256
  {
    var b := hash % 256;
    if b < 2 then b + 8 else b
  }

  /** Smallest member of a slot mask at or after position i; N if there is none. */
  function LowestFrom(mask: set<nat>, i: nat): (n: nat)
    requires i <= N
    ensures i <= n <= N
    ensures n < N ==> n in mask
    ensures forall k :: i <= k < n ==> k !in mask
    decreases N - i
  {
    if i == N || i in mask then i else LowestFrom(mask, i + 1)
  }

  function Lowest(mask: set<nat>): (n: nat)
    ensures n <= N && (n < N ==> n in mask)
  {
    LowestFrom(mask, 0)
  }

  datatype Group = Group(meta: seq<nat>, overflow: set<nat>) {

    ghost predicate WellFormed(last: bool) {
      && |meta| == N
      && (forall n :: 0 <= n < N ==> meta[n] < 256 && (meta[n] == SENTINEL <==> n == N - 1 && last))
      && (forall b :: b in overflow ==> 0 <= b < 8)
    }

    function Set(n: nat, hash: Hash): Group
      requires n < |meta|
    {
      this.(meta := meta[n := ReducedHash(hash)])
    }

    function Reset(n: nat): Group
      requires n < |meta|
    {
      this.(meta := meta[n := AVAILABLE])
    }

    function SetSentinel(): Group
      requires |meta| == N
    {
      this.(meta := meta[N - 1 := SENTINEL])
    }

    function MarkOverflow(hash: Hash): Group {
      this.(overflow := overflow + {hash % 8})
    }

    predicate IsNotOverflowed(hash: Hash) {
      hash % 8 !in overflow
    }

    predicate IsOccupied(n: nat)
      requires n < |meta|
    {
      meta[n] != AVAILABLE
    }

    predicate IsSentinel(n: nat)
      requires n < |meta|
    {
      meta[n] == SENTINEL
    }

    /** Slots whose reduced hash is that of hash. */
    function Match(hash: Hash): set<nat>
      requires |meta| == N
    {
      set n: nat | n < N && meta[n] == ReducedHash(hash)
    }

    function MatchAvailable(): set<nat>
      requires |meta| == N
    {
      set n: nat | n < N && meta[n] == AVAILABLE
    }

    function MatchOccupied(): set<nat>
      requires |meta| == N
    {
      set n: nat | n < N && meta[n] != AVAILABLE
    }

    /** Whether the element in slot n may have caused overflow, judged from its reduced hash alone. */
    predicate MaybeCausedOverflow(n: nat)
      requires n < |meta|
    {
      meta[n] % 8 in overflow
    }
  }

  const EMPTY_GROUP := Group([0, 0, 0, 0, 0, 0, 0, 0, 0, 0, 0, 0, 0, 0, 0], {})

  const DUMMY_GROUP := Group([0, 0, 0, 0, 0, 0, 0, 0, 0, 0, 0, 0, 0, 0, 1], {})
}
