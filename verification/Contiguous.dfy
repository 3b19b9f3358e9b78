/** IMB_chk_contiguous (IMB_chk_diff.c, lines 944-1014): do portions of a buffer tile it? */
module Contiguous {
  /** A displacement and a size. */
  datatype Portion = Portion(displ: int, size: int) {
    predicate Has(q: int) { displ <= q < displ + size }
  }

  function Portions(rdispl: seq<int>, sizes: seq<int>): (r: seq<Portion>)
    requires |rdispl| == |sizes|
    ensures |r| == |rdispl|
  {
    seq(|rdispl|, k requires 0 <= k < |rdispl| => Portion(rdispl[k], sizes[k]))
  }

  function Total(s: seq<Portion>): int {
    if s == [] then 0 else s[0].size + Total(s[1..])
  }

  predicate NoneNegative(s: seq<Portion>) {
    forall k | 0 <= k < |s| :: s[k].size >= 0
  }

  predicate InOrder(s: seq<Portion>) {
    forall i, j | 0 <= i < j < |s| :: s[i].displ <= s[j].displ
  }

  ghost predicate CoveredOnce(s: seq<Portion>, q: int) {
    && (exists k | 0 <= k < |s| :: s[k].Has(q))
    && (forall k, l | 0 <= k < |s| && 0 <= l < |s| && s[k].Has(q) && s[l].Has(q) :: k == l)
  }

  /** The portions that are not empty cover each position from lo up to hi exactly once, and no other. */
  ghost predicate Tiles(s: seq<Portion>, lo: int, hi: int) {
    && (forall k | 0 <= k < |s| && s[k].size > 0 :: lo <= s[k].displ && s[k].displ + s[k].size <= hi)
    && (forall q | lo <= q < hi :: CoveredOnce(s, q))
  }

  /** What the final loop accepts: each portion begins where the ones before it end, or is empty. */
  predicate Chained(s: seq<Portion>, p: int) {
    s == [] || ((s[0].displ == p || s[0].size == 0) && Chained(s[1..], p + s[0].size))
  }

  lemma {:induction false} TotalBounds(s: seq<Portion>)
    requires NoneNegative(s)
    ensures Total(s) >= 0
  {
    if s != [] { TotalBounds(s[1..]); }
  }

  lemma {:induction false} ChainedTiles(s: seq<Portion>, p: int)
    requires NoneNegative(s) && Chained(s, p)
    ensures Tiles(s, p, p + Total(s))
  {
    if s != [] {
      var rest, mid, hi := s[1..], p + s[0].size, p + Total(s);
      ChainedTiles(rest, mid);
      TotalBounds(rest);
      forall k | 0 <= k < |s| && s[k].size > 0 ensures p <= s[k].displ && s[k].displ + s[k].size <= hi {
        if k > 0 { assert s[k] == rest[k - 1]; }
      }
      forall q | p <= q < hi ensures CoveredOnce(s, q) {
        if q < mid { FirstCovers(s, mid, hi, q); } else { RestCovers(s, q); }
      }
    }
  }

  /** Positions of the first portion, when the others lie behind it. */
  lemma FirstCovers(s: seq<Portion>, mid: int, hi: int, q: int)
    requires s != [] && s[0].Has(q) && q < mid && Tiles(s[1..], mid, hi)
    ensures CoveredOnce(s, q)
  {
    forall k | 0 < k < |s| ensures !s[k].Has(q) {
      assert s[k] == s[1..][k - 1];
    }
  }

  /** Positions behind the first portion. */
  lemma RestCovers(s: seq<Portion>, q: int)
    requires s != [] && !s[0].Has(q) && CoveredOnce(s[1..], q)
    ensures CoveredOnce(s, q)
  {
    var k :| 0 <= k < |s[1..]| && s[1..][k].Has(q);
    assert s[k + 1].Has(q);
    forall i, j | 0 <= i < |s| && 0 <= j < |s| && s[i].Has(q) && s[j].Has(q) ensures i == j {
      assert i > 0 && j > 0;
      assert s[1..][i - 1].Has(q) && s[1..][j - 1].Has(q);
    }
  }

  /** The first portion of a tiling in order, when it is not empty, begins it; the others tile the rest. */
  lemma FirstOfTiling(s: seq<Portion>, p: int, hi: int)
    requires s != [] && NoneNegative(s) && InOrder(s) && Tiles(s, p, hi) && s[0].size > 0
    ensures s[0].displ == p && Tiles(s[1..], p + s[0].size, hi)
  {
    var mid, rest := p + s[0].size, s[1..];
    assert CoveredOnce(s, p);
    forall k | 0 <= k < |rest| && rest[k].size > 0 ensures mid <= rest[k].displ && rest[k].displ + rest[k].size <= hi {
      assert rest[k] == s[k + 1];
      var q := rest[k].displ;
      assert CoveredOnce(s, q);
      assert s[k + 1].Has(q) && !s[0].Has(q);
    }
    forall q | mid <= q < hi ensures CoveredOnce(rest, q) { RestCovered(s, q); }
  }

  lemma RestCovered(s: seq<Portion>, q: int)
    requires s != [] && CoveredOnce(s, q) && !s[0].Has(q)
    ensures CoveredOnce(s[1..], q)
  {
    var k :| 0 <= k < |s| && s[k].Has(q);
    assert s[1..][k - 1].Has(q);
    forall i, j | 0 <= i < |s[1..]| && 0 <= j < |s[1..]| && s[1..][i].Has(q) && s[1..][j].Has(q) ensures i == j {
      assert s[i + 1].Has(q) && s[j + 1].Has(q);
    }
  }

  lemma EmptyFirst(s: seq<Portion>, p: int, hi: int)
    requires s != [] && Tiles(s, p, hi) && s[0].size == 0
    ensures Tiles(s[1..], p, hi)
  {
    forall k | 0 <= k < |s[1..]| && s[1..][k].size > 0
      ensures p <= s[1..][k].displ && s[1..][k].displ + s[1..][k].size <= hi
    {
      assert s[1..][k] == s[k + 1];
    }
    forall q | p <= q < hi ensures CoveredOnce(s[1..], q) {
      assert CoveredOnce(s, q);
      RestCovered(s, q);
    }
  }

  lemma {:induction false} TilesChained(s: seq<Portion>, p: int)
    requires NoneNegative(s) && InOrder(s) && Tiles(s, p, p + Total(s))
    ensures Chained(s, p)
  {
    if s != [] {
      if s[0].size > 0 { FirstOfTiling(s, p, p + Total(s)); } else { EmptyFirst(s, p, p + Total(s)); }
      TilesChained(s[1..], p + s[0].size);
    }
  }

  /** Order does not matter */

  lemma TwiceInMultiset(s: seq<Portion>, k: nat, l: nat)
    requires k < l < |s| && s[k] == s[l]
    ensures multiset(s)[s[k]] >= 2
  {
    assert s == s[..l] + s[l..];
    assert s[k] in s[..l] && s[l] in s[l..];
    assert multiset(s) == multiset(s[..l]) + multiset(s[l..]);
  }

  lemma {:induction false} TwoPlaces(s: seq<Portion>, v: Portion)
    requires multiset(s)[v] >= 2
    ensures exists k, l :: 0 <= k < l < |s| && s[k] == v == s[l]
  {
    assert s == [s[0]] + s[1..];
    if s[0] == v {
      assert multiset(s[1..])[v] >= 1;
      assert v in s[1..];
      var l :| 0 <= l < |s[1..]| && s[1..][l] == v;
      assert s[0] == v == s[l + 1];
    } else {
      TwoPlaces(s[1..], v);
      var k, l :| 0 <= k < l < |s[1..]| && s[1..][k] == v == s[1..][l];
      assert s[k + 1] == v == s[l + 1];
    }
  }

  lemma PermutedOnce(s: seq<Portion>, t: seq<Portion>, q: int)
    requires multiset(s) == multiset(t) && CoveredOnce(s, q)
    ensures CoveredOnce(t, q)
  {
    var k :| 0 <= k < |s| && s[k].Has(q);
    assert s[k] in multiset(t);
    assert s[k] in t;
    forall i, j | 0 <= i < j < |t| && t[i].Has(q) && t[j].Has(q) ensures false {
      assert t[i] in multiset(s) && t[j] in multiset(s);
      var a :| 0 <= a < |s| && s[a] == t[i];
      var b :| 0 <= b < |s| && s[b] == t[j];
      assert a == b;
      TwiceInMultiset(t, i, j);
      TwoPlaces(s, s[a]);
    }
  }

  /** Tiling is a property of the portions, not of their order. */
  lemma PermutedTiles(s: seq<Portion>, t: seq<Portion>, lo: int, hi: int)
    requires multiset(s) == multiset(t)
    ensures Tiles(s, lo, hi) <==> Tiles(t, lo, hi)
  {
    if Tiles(s, lo, hi) { PermutedTilesOneWay(s, t, lo, hi); }
    if Tiles(t, lo, hi) { PermutedTilesOneWay(t, s, lo, hi); }
  }

  lemma PermutedTilesOneWay(s: seq<Portion>, t: seq<Portion>, lo: int, hi: int)
    requires multiset(s) == multiset(t) && Tiles(s, lo, hi)
    ensures Tiles(t, lo, hi)
  {
    forall q | lo <= q < hi ensures CoveredOnce(t, q) { PermutedOnce(s, t, q); }
    forall k | 0 <= k < |t| && t[k].size > 0 ensures lo <= t[k].displ && t[k].displ + t[k].size <= hi {
      assert t[k] in multiset(s);
    }
  }

  lemma {:induction false} TotalConcat(s: seq<Portion>, t: seq<Portion>)
    ensures Total(s + t) == Total(s) + Total(t)
  {
    if s == [] {
      assert s + t == t;
    } else {
      assert (s + t)[1..] == s[1..] + t;
      TotalConcat(s[1..], t);
    }
  }

  /** Two lists of the same portions, each without one of them. */
  lemma WithoutOne(s: seq<Portion>, t: seq<Portion>, k: nat)
    requires multiset(s) == multiset(t) && s != [] && k < |t| && t[k] == s[0]
    ensures multiset(s[1..]) == multiset(t[..k] + t[k + 1..])
  {
    var rest, one := t[..k] + t[k + 1..], multiset([s[0]]);
    assert s == [s[0]] + s[1..];
    assert multiset(s) == one + multiset(s[1..]);
    assert t == t[..k] + ([t[k]] + t[k + 1..]);
    assert multiset(t) == multiset(t[..k]) + (one + multiset(t[k + 1..]));
    assert multiset(rest) == multiset(t[..k]) + multiset(t[k + 1..]);
    assert multiset(s[1..]) == multiset(s) - one;
    assert multiset(rest) == multiset(t) - one;
  }

  lemma {:induction false} PermutedTotal(s: seq<Portion>, t: seq<Portion>)
    requires multiset(s) == multiset(t)
    ensures Total(s) == Total(t)
    decreases |s|
  {
    if s == [] {
      assert |t| == |multiset(t)| == 0;
    } else {
      assert s[0] in multiset(t);
      var k :| 0 <= k < |t| && t[k] == s[0];
      WithoutOne(s, t, k);
      PermutedTotal(s[1..], t[..k] + t[k + 1..]);
      TotalConcat(t[..k], t[k + 1..]);
      assert t == t[..k] + t[k..];
      TotalConcat(t[..k], t[k..]);
      assert t[k..][1..] == t[k + 1..];
    }
  }

  /** The program */

  lemma SwapPortions(d: seq<int>, s: seq<int>, i: nat, j: nat)
    requires |d| == |s| && i < |d| && j < |d|
    ensures multiset(Portions(d[i := d[j]][j := d[i]], s[i := s[j]][j := s[i]])) == multiset(Portions(d, s))
  {
    var p := Portions(d, s);
    assert Portions(d[i := d[j]][j := d[i]], s[i := s[j]][j := s[i]]) == p[i := p[j]][j := p[i]];
  }

  lemma SortedPortions(d: seq<int>, s: seq<int>)
    requires |d| == |s| && forall a, b | 0 <= a < b < |d| :: d[a] <= d[b]
    ensures InOrder(Portions(d, s))
  {}

  /** Smaller displacements are exchanged to the front, each with its size. */
  method SortPortions(rdispl: array<int>, sizes: array<int>)
    requires rdispl.Length == sizes.Length && rdispl != sizes
    modifies rdispl, sizes
    ensures multiset(Portions(rdispl[..], sizes[..])) == multiset(old(Portions(rdispl[..], sizes[..])))
    ensures InOrder(Portions(rdispl[..], sizes[..]))
  {
    hide Portions, InOrder;
    var NP := rdispl.Length;
    for i := 0 to NP
      invariant multiset(Portions(rdispl[..], sizes[..])) == multiset(old(Portions(rdispl[..], sizes[..])))
      invariant forall a, b | 0 <= a < i && a < b < NP :: rdispl[a] <= rdispl[b]
    {
      for j := i to NP
        invariant multiset(Portions(rdispl[..], sizes[..])) == multiset(old(Portions(rdispl[..], sizes[..])))
        invariant forall a, b | 0 <= a < i && a < b < NP :: rdispl[a] <= rdispl[b]
        invariant forall b | i <= b < j :: rdispl[i] <= rdispl[b]
      {
        if rdispl[j] < rdispl[i] {
          ghost var d, s := rdispl[..], sizes[..];
          SwapPortions(d, s, i, j);
          rdispl[i], rdispl[j] := rdispl[j], rdispl[i];
          sizes[i], sizes[j] := sizes[j], sizes[i];
          assert rdispl[..] == d[i := d[j]][j := d[i]] && sizes[..] == s[i := s[j]][j := s[i]];
        }
      }
    }
    SortedPortions(rdispl[..], sizes[..]);
  }

  lemma {:induction false} ChainedFrom(s: seq<Portion>, k: nat, p: int)
    requires k < |s|
    ensures Chained(s[k..], p) <==> (s[k].displ == p || s[k].size == 0) && Chained(s[k + 1..], p + s[k].size)
  {
    assert s[k..][1..] == s[k + 1..];
  }

  /** The loop over the portions in order of displacement. */
  method CheckChain(rdispl: array<int>, sizes: array<int>) returns (diff: int)
    requires rdispl.Length == sizes.Length
    ensures diff == if Chained(Portions(rdispl[..], sizes[..]), 0) then 0 else 1
  {
    ghost var s := Portions(rdispl[..], sizes[..]);
    assert s[0..] == s;
    var p := 0;
    diff := 0;
    for rank := 0 to rdispl.Length
      invariant diff == 0 || diff == 1
      invariant diff == 0 ==> (Chained(s, 0) <==> Chained(s[rank..], p))
      invariant diff == 1 ==> !Chained(s, 0)
    {
      ChainedFrom(s, rank, p);
      if rdispl[rank] == p || sizes[rank] == 0 {
        p := p + sizes[rank];
      } else {
        diff := 1;
      }
    }
  }

  /** The check itself: 0 when the portions tile the buffer, 1 when they do not. */
  method ChkContiguous(rdispl: array<int>, sizes: array<int>) returns (diff: int)
    requires rdispl.Length == sizes.Length && rdispl != sizes
    modifies rdispl, sizes
    ensures multiset(Portions(rdispl[..], sizes[..])) == multiset(old(Portions(rdispl[..], sizes[..])))
    ensures InOrder(Portions(rdispl[..], sizes[..]))
    ensures diff == if Chained(Portions(rdispl[..], sizes[..]), 0) then 0 else 1
    ensures NoneNegative(old(Portions(rdispl[..], sizes[..]))) ==>
              (diff == 0 <==> Tiles(old(Portions(rdispl[..], sizes[..])), 0, Total(old(Portions(rdispl[..], sizes[..])))))
  {
    ghost var before := Portions(rdispl[..], sizes[..]);
    SortPortions(rdispl, sizes);
    ghost var after := Portions(rdispl[..], sizes[..]);
    diff := CheckChain(rdispl, sizes);
    if NoneNegative(before) {
      forall k | 0 <= k < |after| ensures after[k].size >= 0 { assert after[k] in multiset(before); }
      TilesWhenChained(before, after);
    }
  }

  lemma TilesWhenChained(before: seq<Portion>, after: seq<Portion>)
    requires multiset(before) == multiset(after) && NoneNegative(after) && InOrder(after)
    ensures Chained(after, 0) <==> Tiles(before, 0, Total(before))
  {
    PermutedTotal(before, after);
    PermutedTiles(before, after, 0, Total(before));
    if Chained(after, 0) { ChainedTiles(after, 0); }
    if Tiles(after, 0, Total(after)) { TilesChained(after, 0); }
  }
}
