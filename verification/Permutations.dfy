/** Lists that hold each of the numbers below their length once. */
module Permutations {
  import opened Lists

  /** Each of the numbers below the length, once. */
  ghost predicate IsPermutation(places: seq<int>) {
    && (forall k | 0 <= k < |places| :: 0 <= places[k] < |places|)
    && NoDuplicates(places)
    && (forall v | 0 <= v < |places| :: v in places)
  }

  /** A map with an inverse. */
  ghost predicate Inverse(m: seq<int>, order: seq<nat>) {
    && |order| == |m|
    && (forall v | 0 <= v < |order| :: order[v] < |m| && m[order[v]] == v)
    && (forall k | 0 <= k < |m| :: 0 <= m[k] < |m| && order[m[k]] == k)
  }

  lemma InverseIsPermutation(m: seq<int>, order: seq<nat>)
    requires Inverse(m, order)
    ensures IsPermutation(m)
  {
    forall k, l | 0 <= k < l < |m| ensures m[k] != m[l] {
      assert order[m[k]] == k && order[m[l]] == l;
    }
    forall v | 0 <= v < |m| ensures v in m { assert m[order[v]] == v; }
  }

  lemma {:induction false} FirstNumbers(n: nat, s: set<nat>)
    requires forall k: nat :: k in s <==> k < n
    ensures |s| == n
  {
    if n == 0 {
      assert s == {};
    } else {
      FirstNumbers(n - 1, s - {n - 1});
    }
  }
}
