/** The ring patterns of b_eff.c, lines 641-696: the ranks in rings of two neighbouring sizes. */
module Rings {
  import opened Arithmetic

  /** The number of rings for a requested ring size; the quotient is rounded down after adding 0.4. */
  function NumberOfRings(size: nat, medium: nat): int
    requires medium > 0
  {
    Max(1, Min((10 * size + 4 * medium) / (10 * medium), size / 2))
  }

  /** Every request leads to a number of rings that leaves two ranks at least for each. */
  lemma RingsInRange(size: nat, medium: nat)
    requires size >= 2 && medium > 0
    ensures 1 <= NumberOfRings(size, medium) <= size / 2
  {}

  /** One more ring, in tenths of a rank. */
  lemma MoreRings(n: nat, medium: nat)
    ensures 10 * (n * medium) == n * (10 * medium) && 10 * ((n + 1) * medium) == (n + 1) * (10 * medium)
  {}

  /** No larger number of rings would do, and no smaller one. */
  predicate Requested(n: nat, size: nat, medium: nat) {
    && (n > 1 ==> 10 * (n * medium) <= 10 * size + 4 * medium)
    && (n < size / 2 ==> 10 * size + 4 * medium < 10 * ((n + 1) * medium))
  }

  /**
    * The number of rings is the size over the requested ring size, rounded down after adding 0.4,
    * but for the limits of one ring and of two ranks in each.
    */
  lemma RingsRequested(size: nat, medium: nat)
    requires size >= 2 && medium > 0
    ensures NumberOfRings(size, medium) >= 1 && Requested(NumberOfRings(size, medium), size, medium)
  {
    var q, d := (10 * size + 4 * medium) / (10 * medium), 10 * medium;
    var n: nat := Max(1, Min(q, size / 2));
    assert n == NumberOfRings(size, medium);
    DivMod(10 * size + 4 * medium, d);
    hide NumberOfRings;
    MoreRings(n, medium);
    Clamped(n, q, d, 10 * size + 4 * medium, size / 2);
  }

  lemma Clamped(n: nat, q: int, d: nat, total: nat, half: nat)
    requires n == Max(1, Min(q, half)) && half >= 1 && q * d <= total < q * d + d
    ensures n > 1 ==> n * d <= total
    ensures n < half ==> total < (n + 1) * d
  {
    Distribute(q, 1, d);
    if n > 1 { Grows(n, q, d); }
    if n < half && q + 1 >= 0 { Grows(q + 1, n + 1, d); }
  }

  /** How many rings of which size come first, and how many of which size follow. */
  datatype Layout = Layout(firstSize: nat, firstCount: nat, secondSize: nat, secondCount: nat) {
    function First(): nat { firstCount * firstSize }

    predicate Fits(size: nat) {
      firstSize >= 2 && secondSize >= 2 && First() + secondCount * secondSize == size
    }
  }

  function LayoutOf(size: nat, n: nat): Layout
    requires 1 <= n <= size / 2
  {
    var low := size / n;
    var highCount := size - low * n;
    DivMod(size, n);
    if low % 2 != 0 && highCount > 0 then
      Layout(low + 1, highCount, low, n - highCount)
    else
      Layout(low, n - highCount, low + 1, highCount)
  }

  /** The rings are as many as asked for, of two sizes that differ by one, the even size first, and hold all ranks. */
  lemma LayoutFits(size: nat, n: nat)
    requires 1 <= n <= size / 2
    ensures var l := LayoutOf(size, n);
            && l.Fits(size) && l.firstCount + l.secondCount == n && l.firstCount > 0
            && (l.secondCount > 0 ==> l.firstSize % 2 == 0)
            && {l.firstSize, l.secondSize} == {size / n, size / n + 1}
  {
    var low := size / n;
    var high := size - low * n;
    DivMod(size, n);
    LeastSize(size, n);
    TwoSizes(n, low, high);
  }

  lemma TwoSizes(n: nat, low: nat, high: nat)
    requires high <= n
    ensures high * (low + 1) + (n - high) * low == low * n + high
    ensures (n - high) * low + high * (low + 1) == low * n + high
  {
    Distribute(n, 0 - high, low);
    Commutes(low, n);
    Distribute(low, 1, high);
    Commutes(high, low);
    Commutes(high, low + 1);
  }

  lemma LeastSize(size: nat, n: nat)
    requires 1 <= n <= size / 2
    ensures size / n >= 2
  {
    DivMod(size, n);
    if size / n < 2 { Grows(size / n, 1, n); }
  }

  /** The ring of a rank begins at its base. */

  function RingSize(l: Layout, rank: nat): nat {
    if rank < l.First() then l.firstSize else l.secondSize
  }

  function Base(l: Layout, rank: nat): nat
    requires l.firstSize > 0 && l.secondSize > 0
  {
    if rank < l.First() then rank / l.firstSize * l.firstSize
    else (rank - l.First()) / l.secondSize * l.secondSize + l.First()
  }

  function Next(l: Layout, rank: nat): nat
    requires l.firstSize > 0 && l.secondSize > 0 && Base(l, rank) <= rank
  {
    (rank - Base(l, rank) + 1) % RingSize(l, rank) + Base(l, rank)
  }

  function Prev(l: Layout, rank: nat): nat
    requires l.firstSize > 0 && l.secondSize > 0 && Base(l, rank) <= rank
  {
    (rank - Base(l, rank) + RingSize(l, rank) - 1) % RingSize(l, rank) + Base(l, rank)
  }

  /** A requested size of two or more that divides the number of ranks is the size of every ring. */
  lemma EqualRings(size: nat, medium: nat, rank: nat)
    requires size >= 2 && medium >= 2 && size % medium == 0 && rank < size
    ensures NumberOfRings(size, medium) == size / medium && 1 <= size / medium <= size / 2
    ensures RingSize(LayoutOf(size, size / medium), rank) == medium
  {
    var k := size / medium;
    DivMod(size, medium);
    Commutes(k, medium);
    if k == 0 { assert false; }
    Grows(2, medium, k);
    Divided(10 * size + 4 * medium, k, 10 * medium, 4 * medium) by { MoreRings(k, medium); }
    Divided(size, medium, k, 0);
  }

  /** The ring that a rank is in: the rank's place in a row of rings of one size. */
  lemma BlockOf(rank: nat, k: nat, count: nat)
    requires k > 0 && rank < count * k
    ensures rank / k * k <= rank < rank / k * k + k <= count * k
  {
    DivMod(rank, k);
    Commutes(count, k);
    HighDigit(rank, k, count);
    Distribute(rank / k, 1, k);
    Grows(rank / k + 1, count, k);
  }

  lemma SameBlock(rank: nat, other: nat, k: nat)
    requires k > 0 && rank / k * k <= other < rank / k * k + k
    ensures other / k == rank / k
  {
    Divided(other, rank / k, k, other - rank / k * k);
  }

  lemma FirstBounds(l: Layout, size: nat, rank: nat)
    requires l.Fits(size) && rank < l.First()
    ensures Base(l, rank) <= rank < Base(l, rank) + RingSize(l, rank) <= l.First()
  {
    BlockOf(rank, l.firstSize, l.firstCount);
  }

  lemma SecondBounds(l: Layout, size: nat, rank: nat)
    requires l.Fits(size) && l.First() <= rank < size
    ensures l.First() <= Base(l, rank) <= rank < Base(l, rank) + RingSize(l, rank) <= size
  {
    BlockOf(rank - l.First(), l.secondSize, l.secondCount);
  }

  lemma RingBounds(l: Layout, size: nat, rank: nat)
    requires l.Fits(size) && rank < size
    ensures Base(l, rank) <= rank < Base(l, rank) + RingSize(l, rank) <= size
    ensures rank < l.First() ==> Base(l, rank) + RingSize(l, rank) <= l.First()
    ensures rank >= l.First() ==> Base(l, rank) >= l.First()
  {
    hide Base, RingSize;
    if rank < l.First() { FirstBounds(l, size, rank); } else { SecondBounds(l, size, rank); }
  }

  /** Every rank of a ring has the same ring: rings are blocks of neighbouring ranks. */
  lemma RingOfMember(l: Layout, size: nat, rank: nat, other: nat)
    requires l.Fits(size) && rank < size && Base(l, rank) <= other < Base(l, rank) + RingSize(l, rank)
    ensures other < size && Base(l, other) == Base(l, rank) && RingSize(l, other) == RingSize(l, rank)
  {
    RingBounds(l, size, rank);
    if rank < l.First() {
      SameBlock(rank, other, l.firstSize);
    } else {
      SameBlock(rank - l.First(), other - l.First(), l.secondSize);
    }
  }

  lemma Wrap(i: nat, k: nat)
    requires i < k && k >= 2
    ensures (i + 1) % k == if i + 1 == k then 0 else i + 1
    ensures (i + k - 1) % k == if i == 0 then k - 1 else i - 1
  {
    if i + 1 == k { Divided(k, 1, k, 0); } else { Divided(i + 1, 0, k, i + 1); }
    if i == 0 { Divided(k - 1, 0, k, k - 1); } else { Divided(i + k - 1, 1, k, i - 1); }
  }

  /** Next and previous stay in the ring and are inverse to each other, so every send has one receive. */
  lemma NextAndPrev(l: Layout, size: nat, rank: nat)
    requires l.Fits(size) && rank < size
    ensures Base(l, rank) <= rank
    ensures Base(l, rank) <= Next(l, rank) < Base(l, rank) + RingSize(l, rank)
    ensures Base(l, rank) <= Prev(l, rank) < Base(l, rank) + RingSize(l, rank)
    ensures Next(l, rank) < size && Base(l, Next(l, rank)) <= Next(l, rank) && Prev(l, Next(l, rank)) == rank
    ensures Prev(l, rank) < size && Base(l, Prev(l, rank)) <= Prev(l, rank) && Next(l, Prev(l, rank)) == rank
  {
    var base, k := Base(l, rank), RingSize(l, rank);
    RingBounds(l, size, rank);
    var i := rank - base;
    Wrap(i, k);
    var next, prev := Next(l, rank), Prev(l, rank);
    RingOfMember(l, size, rank, next);
    RingOfMember(l, size, rank, prev);
    Wrap(next - base, k);
    Wrap(prev - base, k);
    hide Base, RingSize;
  }

  /** The rank that is n steps on. */
  function Steps(l: Layout, size: nat, rank: nat, n: nat): (r: nat)
    requires l.Fits(size) && rank < size
    ensures r < size
    decreases n
  {
    if n == 0 then rank
    else
      NextAndPrev(l, size, Steps(l, size, rank, n - 1));
      Next(l, Steps(l, size, rank, n - 1))
  }

  lemma {:induction false} StepsAround(l: Layout, size: nat, rank: nat, n: nat)
    requires l.Fits(size) && rank < size
    ensures Base(l, rank) <= rank
    ensures Steps(l, size, rank, n) == Base(l, rank) + (rank - Base(l, rank) + n) % RingSize(l, rank)
    decreases n
  {
    var base, k := Base(l, rank), RingSize(l, rank);
    RingBounds(l, size, rank);
    if n == 0 {
      Divided(rank - base, 0, k, rank - base);
    } else {
      StepsAround(l, size, rank, n - 1);
      var at, i := Steps(l, size, rank, n - 1), rank - base + (n - 1);
      DivMod(i, k);
      RingOfMember(l, size, rank, at);
      hide Base, RingSize;
      OneOn(i, k);
    }
  }

  lemma OneOn(i: nat, k: nat)
    requires k >= 2
    ensures (i % k + 1) % k == (i + 1) % k
  {
    DivMod(i, k);
    Wrap(i % k, k);
    if i % k + 1 == k {
      Distribute(i / k, 1, k);
      Divided(i + 1, i / k + 1, k, 0);
    } else {
      Divided(i + 1, i / k, k, i % k + 1);
    }
  }

  lemma Reaches(l: Layout, size: nat, rank: nat, other: nat) returns (n: nat)
    requires l.Fits(size) && rank < size && Base(l, rank) <= other < Base(l, rank) + RingSize(l, rank)
    ensures n < RingSize(l, rank) && Steps(l, size, rank, n) == other
  {
    var base, k := Base(l, rank), RingSize(l, rank);
    RingBounds(l, size, rank);
    hide Base, RingSize;
    n := if other >= rank then other - rank else other - rank + k;
    StepsAround(l, size, rank, n);
    if other >= rank { Divided(other - base, 0, k, other - base); } else { Divided(other - base + k, 1, k, other - base); }
  }

  /** A message that is passed on visits every rank of the ring, and is back after one round. */
  lemma RingIsCycle(l: Layout, size: nat, rank: nat, other: nat)
    requires l.Fits(size) && rank < size && Base(l, rank) <= other < Base(l, rank) + RingSize(l, rank)
    ensures exists n | 0 <= n < RingSize(l, rank) :: Steps(l, size, rank, n) == other
    ensures Steps(l, size, rank, RingSize(l, rank)) == rank
  {
    var n := Reaches(l, size, rank, other);
    var base, k := Base(l, rank), RingSize(l, rank);
    RingBounds(l, size, rank);
    hide Base, RingSize, Steps;
    StepsAround(l, size, rank, k);
    Divided(rank - base + k, 1, k, rank - base);
  }

  method Sizes(size: nat, number_of_rings: nat)
    returns (first_ring_size: nat, first_count: nat, second_ring_size: nat, second_count: nat)
    requires 1 <= number_of_rings <= size / 2
    ensures LayoutOf(size, number_of_rings) == Layout(first_ring_size, first_count, second_ring_size, second_count)
  {
    DivMod(size, number_of_rings);
    var low_ring_size := size / number_of_rings;
    var high_ring_size := low_ring_size + 1;
    var high_count := size - low_ring_size * number_of_rings;
    var low_count := number_of_rings - high_count;
    if low_ring_size % 2 != 0 && high_count > 0 {
      first_ring_size, second_ring_size := high_ring_size, low_ring_size;
      first_count, second_count := high_count, low_count;
    } else {
      first_ring_size, second_ring_size := low_ring_size, high_ring_size;
      first_count, second_count := low_count, high_count;
    }
  }

  lemma WholeBlocks(n: nat, k: nat)
    requires k > 0
    ensures n / k * k >= 0
  {
    DivMod(n, k);
  }

  method CountRings(size: nat, medium: nat) returns (number_of_rings: nat)
    requires medium > 0 && size >= 2
    ensures number_of_rings == NumberOfRings(size, medium)
  {
    number_of_rings := Max(1, Min((10 * size + 4 * medium) / (10 * medium), size / 2));
  }

  method RingOf(l: Layout, size: nat, comm_myrank: nat) returns (base_rank: nat, ring_size: nat)
    requires l.Fits(size) && comm_myrank < size
    ensures base_rank == Base(l, comm_myrank) && ring_size == RingSize(l, comm_myrank)
  {
    hide Base;
    var first := l.firstCount * l.firstSize;
    if comm_myrank < first {
      ring_size := l.firstSize;
      WholeBlocks(comm_myrank, ring_size);
      base_rank := comm_myrank / ring_size * ring_size;
    } else {
      ring_size := l.secondSize;
      WholeBlocks(comm_myrank - first, ring_size);
      base_rank := (comm_myrank - first) / ring_size * ring_size + first;
    }
    BaseIs(l, comm_myrank, first);
  }

  lemma BaseIs(l: Layout, rank: nat, first: nat)
    requires l.firstSize > 0 && l.secondSize > 0 && first == l.First()
    ensures rank < first ==> Base(l, rank) == rank / l.firstSize * l.firstSize
    ensures rank >= first ==> Base(l, rank) == (rank - first) / l.secondSize * l.secondSize + first
  {}

  /** What each rank computes for one ring pattern. */
  method RingPattern(size: nat, requested: nat, comm_myrank: nat) returns (next: nat, prev: nat, number_of_rings: nat)
    requires size >= 2 && requested > 0 && comm_myrank < size
    ensures 1 <= number_of_rings <= size / 2
    ensures number_of_rings == NumberOfRings(size, Min(requested, size))
    ensures Requested(number_of_rings, size, Min(requested, size))
    ensures var l := LayoutOf(size, number_of_rings);
            && l.Fits(size) && Base(l, comm_myrank) <= comm_myrank
            && next == Next(l, comm_myrank) && prev == Prev(l, comm_myrank)
  {
    hide Requested, NumberOfRings, LayoutOf;
    var medium := Min(requested, size);
    RingsInRange(size, medium);
    RingsRequested(size, medium);
    number_of_rings := CountRings(size, medium);
    LayoutFits(size, number_of_rings);
    var first_ring_size, first_count, second_ring_size, second_count := Sizes(size, number_of_rings);
    var l := Layout(first_ring_size, first_count, second_ring_size, second_count);
    NextAndPrev(l, size, comm_myrank);
    var base_rank, ring_size := RingOf(l, size, comm_myrank);
    hide Base, RingSize;
    next := (comm_myrank - base_rank + 1) % ring_size + base_rank;
    prev := (comm_myrank - base_rank + ring_size - 1) % ring_size + base_rank;
  }
}
