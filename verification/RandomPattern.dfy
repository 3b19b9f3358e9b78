/**
  * The orders of the ranks in b_eff.c, lines 712-728: random ones, by linear probing from a random
  * place, and a worst case.  The place where each probe starts is a parameter.
  */
module RandomPattern {
  import opened Arithmetic
  import opened Lists
  import opened Permutations

  /** The first free slot from j on, if one is found in so many steps. */
  function Probe(m: seq<int>, j: nat, steps: nat): (r: nat)
    requires j < |m|
    ensures r < |m|
    decreases steps
  {
    if steps == 0 || m[j] == -1 then j else Probe(m, (j + 1) % |m|, steps - 1)
  }

  /** The slots after the first i ranks have been placed. */
  function Placed(starts: seq<nat>, i: nat): (m: seq<int>)
    requires i <= |starts| && forall k | 0 <= k < |starts| :: starts[k] < |starts|
    ensures |m| == |starts|
    decreases i
  {
    if i == 0 then seq(|starts|, _ => -1)
    else
      var m := Placed(starts, i - 1);
      m[Probe(m, starts[i - 1], |starts|) := i - 1]
  }

  /** The slots hold the ranks below |at|, each where at says, and are free elsewhere. */
  ghost predicate HoldsFirst(m: seq<int>, at: seq<nat>) {
    && (forall v | 0 <= v < |at| :: at[v] < |m| && m[at[v]] == v)
    && (forall k | 0 <= k < |m| && m[k] != -1 :: 0 <= m[k] < |at| && at[m[k]] == k)
  }

  lemma SomeFree(m: seq<int>, at: seq<nat>)
    requires HoldsFirst(m, at) && |at| < |m|
    ensures exists k :: 0 <= k < |m| && m[k] == -1
  {
    if forall k | 0 <= k < |m| :: m[k] != -1 {
      forall k: nat ensures k in Elements(at) <==> k < |m| {
        if k < |m| { assert at[m[k]] == k; }
      }
      LengthIsCount(at);
      FirstNumbers(|m|, Elements(at));
    }
  }

  /** The number of steps forward from j to k, round the end. */
  function Distance(j: nat, k: nat, size: nat): nat
    requires j < size && k < size
  {
    if j <= k then k - j else k + size - j
  }

  lemma NextSlot(j: nat, size: nat)
    requires j < size
    ensures (j + 1) % size == if j + 1 == size then 0 else j + 1
  {
    if j + 1 == size { Divided(size, 1, size, 0); } else { Divided(j + 1, 0, size, j + 1); }
  }

  /** The distance to a free slot shrinks with every step, so enough steps find one. */
  lemma {:induction false} ProbeFindsFree(m: seq<int>, j: nat, free: nat, steps: nat)
    requires j < |m| && free < |m| && m[free] == -1 && Distance(j, free, |m|) <= steps
    ensures m[Probe(m, j, steps)] == -1
    decreases steps
  {
    if steps > 0 && m[j] != -1 {
      NextSlot(j, |m|);
      ProbeFindsFree(m, (j + 1) % |m|, free, steps - 1);
    }
  }

  /** The slot found is the nearest free one, going forward. */
  lemma {:induction false} ProbeFindsNearest(m: seq<int>, j: nat, free: nat, steps: nat)
    requires j < |m| && free < |m| && m[free] == -1 && Distance(j, free, |m|) <= steps
    ensures Distance(j, Probe(m, j, steps), |m|) <= Distance(j, free, |m|)
    decreases steps
  {
    if steps > 0 && m[j] != -1 {
      NextSlot(j, |m|);
      ProbeFindsNearest(m, (j + 1) % |m|, free, steps - 1);
    }
  }

  lemma {:induction false} PlacedHolds(starts: seq<nat>, i: nat) returns (at: seq<nat>)
    requires i <= |starts| && forall k | 0 <= k < |starts| :: starts[k] < |starts|
    ensures |at| == i && HoldsFirst(Placed(starts, i), at)
    decreases i
  {
    if i == 0 {
      at := [];
    } else {
      var before := PlacedHolds(starts, i - 1);
      var m := Placed(starts, i - 1);
      SomeFree(m, before);
      var free :| 0 <= free < |m| && m[free] == -1;
      ProbeFindsFree(m, starts[i - 1], free, |m|);
      at := before + [Probe(m, starts[i - 1], |m|)];
    }
  }

  /** Whatever the starts, the ranks end up as a permutation. */
  lemma RandomIsPermutation(starts: seq<nat>)
    requires forall k | 0 <= k < |starts| :: starts[k] < |starts|
    ensures IsPermutation(Placed(starts, |starts|))
  {
    var m := Placed(starts, |starts|);
    var at := PlacedHolds(starts, |starts|);
    hide Placed;
    assert NoDuplicates(at);
    LengthIsCount(at);
    forall k | 0 <= k < |m| ensures 0 <= m[k] < |m| && at[m[k]] == k {
      if m[k] == -1 { OnlyOthers(m, at, k); }
    }
    InverseIsPermutation(m, at);
  }

  /** As many ranks as slots leave no slot free. */
  lemma OnlyOthers(m: seq<int>, at: seq<nat>, k: nat)
    requires HoldsFirst(m, at) && |at| == |m| && k < |m|
    ensures m[k] != -1
  {
    if m[k] == -1 {
      var slots: set<nat> := Elements(seq(|m|, s requires 0 <= s => s));
      forall s: nat ensures s in slots <==> s < |m| {
        if s < |m| { assert seq(|m|, i requires 0 <= i => i)[s] == s; }
      }
      FirstNumbers(|m|, slots);
      assert NoDuplicates(at) && Elements(at) <= slots - {k};
      LengthBound(at, slots - {k});
    }
  }

  /** The program's loops for a random order. */
  method RandomRanks(ranks: array<int>, starts: seq<nat>)
    requires |starts| == ranks.Length && forall k | 0 <= k < |starts| :: starts[k] < |starts|
    modifies ranks
    ensures ranks[..] == Placed(starts, |starts|) && IsPermutation(ranks[..])
  {
    var size := ranks.Length;
    for i := 0 to size
      invariant forall k | 0 <= k < i :: ranks[k] == -1
    {
      ranks[i] := -1;
    }
    for i := 0 to size
      invariant ranks[..] == Placed(starts, i)
    {
      var j: nat := starts[i];
      ghost var m := ranks[..];
      ghost var at := PlacedHolds(starts, i);
      SomeFree(m, at);
      ghost var free :| 0 <= free < size && m[free] == -1;
      ghost var left := size;
      while ranks[j] != -1
        invariant j < size && ranks[..] == m && Distance(j, free, size) <= left
        invariant Probe(m, starts[i], size) == Probe(m, j, left)
        decreases Distance(j, free, size)
      {
        NextSlot(j, size);
        left := left - 1;
        j := (j + 1) % size;
      }
      assert Probe(m, j, left) == j;
      ranks[j] := i;
    }
    RandomIsPermutation(starts);
  }

  /** The worst case: ranks from both ends in turn */

  function Worst(size: nat): (m: seq<int>)
    ensures |m| == size
  {
    seq(size, i requires 0 <= i => if i % 2 == 0 then i / 2 else size - 1 - i / 2)
  }

  function WorstPlace(size: nat, v: nat): nat
    requires v < size
  {
    if 2 * v < size then 2 * v else 2 * (size - 1 - v) + 1
  }

  lemma WorstIsPermutation(size: nat)
    ensures IsPermutation(Worst(size))
  {
    InverseIsPermutation(Worst(size), seq(size, v requires 0 <= v < size => WorstPlace(size, v)));
  }

  lemma PlaceSeen(size: nat, i: nat, v: nat)
    requires i <= size && v < size
    ensures WorstPlace(size, v) < i ==> v in Worst(size)[..i]
  {
    var place := WorstPlace(size, v);
    assert Worst(size)[place] == v;
    if place < i { assert Worst(size)[..i][place] == v; }
  }

  /** The order takes the lowest and the highest of the ranks that are left, in turn. */
  lemma WorstAlternates(size: nat, i: nat, v: nat)
    requires i < size && v < size && v !in Worst(size)[..i]
    ensures Worst(size)[i] !in Worst(size)[..i]
    ensures if i % 2 == 0 then Worst(size)[i] <= v else v <= Worst(size)[i]
  {
    var m := Worst(size);
    PlaceSeen(size, i, v);
    forall k | 0 <= k < i ensures m[..i][k] != m[i] {}
  }

  method WorstRanks(ranks: array<int>)
    modifies ranks
    ensures ranks[..] == Worst(ranks.Length) && IsPermutation(ranks[..])
  {
    for i := 0 to ranks.Length
      invariant forall k | 0 <= k < i :: ranks[k] == Worst(ranks.Length)[k]
    {
      ranks[i] := if i % 2 == 0 then i / 2 else ranks.Length - 1 - i / 2;
    }
    assert ranks[..] == Worst(ranks.Length);
    WorstIsPermutation(ranks.Length);
  }
}
