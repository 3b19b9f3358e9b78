/** IMB_get_rank_portion (IMB_init.c, lines 746-804): even pieces of a buffer, one for each rank. */
module RankPortion {
  import opened Arithmetic
  import opened Contiguous

  /** The number of units that a size needs. */
  function Units(size: nat, unit: nat): (ne: nat)
    requires unit > 0
  {
    (size + unit - 1) / unit
  }

  /** The first unit of a rank: every rank has ne / NP units, and the first ne % NP ranks one more. */
  function FirstUnit(rank: nat, NP: nat, ne: nat): nat
    requires NP > 0
  {
    rank * (ne / NP) + Min(rank, ne % NP)
  }

  /** Where the portion of a rank begins, and where the next one would within the size. */
  function Begin(rank: nat, NP: nat, size: nat, unit: nat): nat
    requires NP > 0 && unit > 0
  {
    FirstUnit(rank, NP, Units(size, unit)) * unit
  }

  function Edge(rank: nat, NP: nat, size: nat, unit: nat): nat
    requires NP > 0 && unit > 0
  {
    Min(Begin(rank, NP, size, unit), size)
  }

  method GetRankPortion(rank: nat, NP: nat, size: nat, unit_size: nat) returns (pos1: int, pos2: int)
    requires rank < NP && unit_size > 0
    ensures pos1 == Begin(rank, NP, size, unit_size)
    ensures pos2 == Min(Begin(rank + 1, NP, size, unit_size), size) - 1
  {
    var ne := (size + unit_size - 1) / unit_size;
    var baslen, mod := ne / NP, ne % NP;
    Distribute(rank, 1, baslen);
    if rank < mod {
      pos1 := rank * (baslen + 1) * unit_size;
      pos2 := pos1 - 1 + (baslen + 1) * unit_size;
      Commutes(rank, baslen + 1);
      Distribute(baslen, 1, rank);
      Commutes(rank, baslen);
      Distribute(rank * (baslen + 1), baslen + 1, unit_size);
    } else {
      pos1 := (rank * baslen + mod) * unit_size;
      pos2 := pos1 - 1 + baslen * unit_size;
      Distribute(rank * baslen + mod, baslen, unit_size);
    }
    pos2 := Min(pos2, size - 1);
  }

  /** The portions of all ranks, in rank order, as displacements and sizes. */
  function RankPortions(NP: nat, size: nat, unit: nat): (r: seq<Portion>)
    requires NP > 0 && unit > 0
    ensures |r| == NP
  {
    seq(NP, rank requires 0 <= rank < NP =>
      Portion(Begin(rank, NP, size, unit), Edge(rank + 1, NP, size, unit) - Begin(rank, NP, size, unit)))
  }

  /** Two ranks have numbers of units that differ by one at most, and the first ranks have more. */
  lemma Balanced(a: nat, b: nat, NP: nat, ne: nat)
    requires a <= b < NP
    ensures var x, y := FirstUnit(a + 1, NP, ne) - FirstUnit(a, NP, ne), FirstUnit(b + 1, NP, ne) - FirstUnit(b, NP, ne);
            ne / NP <= y <= x <= ne / NP + 1
  {
    Distribute(a, 1, ne / NP);
    Distribute(b, 1, ne / NP);
  }

  lemma Ends(NP: nat, size: nat, unit: nat)
    requires NP > 0 && unit > 0
    ensures FirstUnit(0, NP, Units(size, unit)) == 0 && FirstUnit(NP, NP, Units(size, unit)) == Units(size, unit)
    ensures Units(size, unit) * unit - unit < size <= Units(size, unit) * unit
    ensures Units(size, unit) * unit == size <==> size % unit == 0
  {
    var ne := Units(size, unit);
    DivMod(ne, NP);
    Commutes(NP, ne / NP);
    DivMod(size + unit - 1, unit);
    DivMod(size, unit);
    if size % unit == 0 {
      Divided(size + unit - 1, size / unit, unit, unit - 1);
    }
    if ne * unit == size { Divided(size, ne, unit, 0); }
  }

  lemma UnitsRise(rank: nat, NP: nat, ne: nat)
    requires rank < NP
    ensures FirstUnit(rank, NP, ne) <= FirstUnit(rank + 1, NP, ne) <= ne
  {
    var k := ne / NP;
    DivMod(ne, NP);
    Distribute(rank, 1, k);
    Grows(rank + 1, NP, k);
    Commutes(NP, k);
  }

  lemma Rises(rank: nat, NP: nat, size: nat, unit: nat)
    requires rank < NP && unit > 0
    ensures var ne := Units(size, unit);
            FirstUnit(rank, NP, ne) <= FirstUnit(rank + 1, NP, ne) <= ne
    ensures Begin(rank, NP, size, unit) <= Begin(rank + 1, NP, size, unit) <= Units(size, unit) * unit
  {
    hide FirstUnit, Units;
    var ne := Units(size, unit);
    UnitsRise(rank, NP, ne);
    Grows(FirstUnit(rank, NP, ne), FirstUnit(rank + 1, NP, ne), unit);
    Grows(FirstUnit(rank + 1, NP, ne), ne, unit);
  }

  /** A portion that has units begins within the size. */
  lemma BeginsInside(rank: nat, NP: nat, size: nat, unit: nat)
    requires rank < NP && unit > 0
    ensures Begin(rank, NP, size, unit) < Begin(rank + 1, NP, size, unit) ==> Begin(rank, NP, size, unit) < size
    ensures FirstUnit(rank, NP, Units(size, unit)) < FirstUnit(rank + 1, NP, Units(size, unit))
            ==> Begin(rank, NP, size, unit) < Begin(rank + 1, NP, size, unit)
  {
    var ne := Units(size, unit);
    var u, v := FirstUnit(rank, NP, ne), FirstUnit(rank + 1, NP, ne);
    Rises(rank, NP, size, unit);
    Ends(NP, size, unit);
    if u < v {
      Distribute(v, -1, unit);
      Grows(u, v - 1, unit);
    }
  }

  /** Empty portions without their size. */
  function Clip(p: Portion): Portion {
    if p.size < 0 then p.(size := 0) else p
  }

  function Clipped(s: seq<Portion>): (r: seq<Portion>)
    ensures |r| == |s|
  {
    seq(|s|, k requires 0 <= k < |s| => Clip(s[k]))
  }

  lemma ClippedPortion(rank: nat, NP: nat, size: nat, unit: nat)
    requires rank < NP && unit > 0
    ensures var p := Clip(RankPortions(NP, size, unit)[rank]);
            && 0 <= p.size == Edge(rank + 1, NP, size, unit) - Edge(rank, NP, size, unit)
            && (p.size > 0 ==> p.displ == Edge(rank, NP, size, unit))
  {
    Rises(rank, NP, size, unit);
    BeginsInside(rank, NP, size, unit);
  }

  lemma {:induction false} ClippedChain(rank: nat, NP: nat, size: nat, unit: nat)
    requires rank <= NP && NP > 0 && unit > 0
    ensures var s := Clipped(RankPortions(NP, size, unit))[rank..];
            && NoneNegative(s) && Chained(s, Edge(rank, NP, size, unit)) && Total(s) == size - Edge(rank, NP, size, unit)
    decreases NP - rank
  {
    var all := Clipped(RankPortions(NP, size, unit));
    if rank == NP {
      Ends(NP, size, unit);
    } else {
      ClippedPortion(rank, NP, size, unit);
      ClippedChain(rank + 1, NP, size, unit);
      hide Begin, Edge, Clip, RankPortions;
      assert all[rank..] == [all[rank]] + all[rank + 1..];
      assert all[rank..][1..] == all[rank + 1..];
      assert forall k | 0 < k < |all[rank..]| :: all[rank..][k] == all[rank + 1..][k - 1];
    }
  }

  lemma ClippedTiles(s: seq<Portion>, lo: int, hi: int)
    requires Tiles(Clipped(s), lo, hi)
    ensures Tiles(s, lo, hi)
  {
    var c := Clipped(s);
    forall k, q | 0 <= k < |s| ensures s[k].Has(q) <==> c[k].Has(q) {}
    forall k | 0 <= k < |s| && s[k].size > 0 ensures lo <= s[k].displ && s[k].displ + s[k].size <= hi {
      assert c[k] == s[k];
    }
    forall q | lo <= q < hi ensures CoveredOnce(s, q) {
      assert CoveredOnce(c, q);
      var k :| 0 <= k < |c| && c[k].Has(q);
      assert s[k].Has(q);
    }
  }

  /** The portions are in rank order and cover every position of the buffer exactly once. */
  lemma PortionsTile(NP: nat, size: nat, unit: nat)
    requires NP > 0 && unit > 0
    ensures InOrder(RankPortions(NP, size, unit)) && Tiles(RankPortions(NP, size, unit), 0, size)
  {
    var s := RankPortions(NP, size, unit);
    Ends(NP, size, unit);
    ClippedChain(0, NP, size, unit);
    assert Clipped(s)[0..] == Clipped(s);
    ChainedTiles(Clipped(s), 0);
    ClippedTiles(s, 0, size);
    RisingOrder(NP, size, unit);
  }

  lemma {:induction false} RisingBegins(a: nat, b: nat, NP: nat, size: nat, unit: nat)
    requires a <= b <= NP && NP > 0 && unit > 0
    ensures Begin(a, NP, size, unit) <= Begin(b, NP, size, unit)
    decreases b
  {
    if a < b {
      RisingBegins(a, b - 1, NP, size, unit);
      Rises(b - 1, NP, size, unit);
    }
  }

  lemma RisingOrder(NP: nat, size: nat, unit: nat)
    requires NP > 0 && unit > 0
    ensures InOrder(RankPortions(NP, size, unit))
  {
    forall i, j | 0 <= i < j < NP ensures Begin(i, NP, size, unit) <= Begin(j, NP, size, unit) {
      RisingBegins(i, j, NP, size, unit);
    }
    hide Begin;
  }

  /** Against the contiguity check */

  /**
    * The sizes that reach the check are never negative (IMB_init_transfer.c, line 136).  So clipped, the
    * portions of all ranks tile the buffer in every order.
    */
  lemma AnyOrderPasses(NP: nat, size: nat, unit: nat, s: seq<Portion>)
    requires NP > 0 && unit > 0 && multiset(s) == multiset(Clipped(RankPortions(NP, size, unit)))
    ensures NoneNegative(s) && Total(s) == size && Tiles(s, 0, Total(s))
  {
    var p := Clipped(RankPortions(NP, size, unit));
    Ends(NP, size, unit);
    ClippedChain(0, NP, size, unit);
    hide Begin, Edge, RankPortions, Clip, Clipped;
    assert p[0..] == p;
    ChainedTiles(p, 0);
    forall k | 0 <= k < |s| ensures s[k].size >= 0 { assert s[k] in multiset(p); }
    PermutedTotal(s, p);
    PermutedTiles(s, p, 0, size);
  }

  /** In the order that the check's sort leaves them in, they pass its final loop. */
  lemma SortedPasses(NP: nat, size: nat, unit: nat, s: seq<Portion>)
    requires NP > 0 && unit > 0 && multiset(s) == multiset(Clipped(RankPortions(NP, size, unit))) && InOrder(s)
    ensures Chained(s, 0)
  {
    hide RankPortions, Clipped;
    AnyOrderPasses(NP, size, unit, s);
    TilesChained(s, 0);
  }

  /** The size is in whole units, or there are enough units for every rank. */
  predicate Even(NP: nat, size: nat, unit: nat)
    requires unit > 0
  {
    size % unit == 0 || Units(size, unit) >= NP
  }

  /** Before the clipping, pos2 - pos1 + 1 is never negative exactly under that condition. */
  lemma NegativeSizes(NP: nat, size: nat, unit: nat)
    requires NP > 0 && unit > 0
    ensures NoneNegative(RankPortions(NP, size, unit)) <==> Even(NP, size, unit)
  {
    var s, ne := RankPortions(NP, size, unit), Units(size, unit);
    Ends(NP, size, unit);
    if Even(NP, size, unit) {
      forall rank | 0 <= rank < NP ensures s[rank].size >= 0 {
        Rises(rank, NP, size, unit);
        BeginsInside(rank, NP, size, unit);
        if ne >= NP { OneUnitEach(rank, NP, ne); }
      }
    } else {
      Divided(ne, 0, NP, ne);
      assert FirstUnit(NP - 1, NP, ne) == ne;
      assert Begin(NP - 1, NP, size, unit) == ne * unit > size;
      assert s[NP - 1].size == Edge(NP, NP, size, unit) - Begin(NP - 1, NP, size, unit);
      assert s[NP - 1].size < 0;
    }
  }

  lemma OneUnitEach(rank: nat, NP: nat, ne: nat)
    requires rank < NP <= ne
    ensures FirstUnit(rank, NP, ne) < FirstUnit(rank + 1, NP, ne)
  {
    Distribute(rank, 1, ne / NP);
    DivMod(ne, NP);
    if ne / NP == 0 { assert false; }
  }
}
