/** Totals over a list, and how one changed entry changes them. */
module Sums {
  function Sum(s: seq<nat>): nat {
    if s == [] then 0 else s[0] + Sum(s[1..])
  }

  /** The number of true entries. */
  function Count(s: seq<bool>): (n: nat)
    ensures n <= |s|
  {
    if s == [] then 0 else (if s[0] then 1 else 0) + Count(s[1..])
  }

  lemma {:induction false} SumConcat(a: seq<nat>, b: seq<nat>)
    ensures Sum(a + b) == Sum(a) + Sum(b)
  {
    if a == [] {
      assert a + b == b;
    } else {
      assert (a + b)[1..] == a[1..] + b;
      SumConcat(a[1..], b);
    }
  }

  lemma {:induction false} SumUpdate(s: seq<nat>, i: nat, v: nat)
    requires i < |s|
    ensures Sum(s[i := v]) == Sum(s) - s[i] + v
  {
    if i == 0 {
      assert s[0 := v][1..] == s[1..];
    } else {
      assert s[i := v][1..] == s[1..][i - 1 := v];
      SumUpdate(s[1..], i - 1, v);
    }
  }

  lemma {:induction false} CountUpdate(s: seq<bool>, i: nat)
    requires i < |s| && !s[i]
    ensures Count(s[i := true]) == Count(s) + 1
  {
    if i == 0 {
      assert s[0 := true][1..] == s[1..];
    } else {
      assert s[i := true][1..] == s[1..][i - 1 := true];
      CountUpdate(s[1..], i - 1);
    }
  }

  lemma {:induction false} CountAll(s: seq<bool>)
    ensures Count(s) == |s| <==> forall i | 0 <= i < |s| :: s[i]
  {
    if s != [] {
      CountAll(s[1..]);
      assert forall i | 0 < i < |s| :: s[i] == s[1..][i - 1];
    }
  }

  /** Equal entries. */
  lemma {:induction false} SumConstant(s: seq<nat>, v: nat)
    requires forall i | 0 <= i < |s| :: s[i] == v
    ensures Sum(s) == |s| * v
  {
    if s != [] {
      SumConstant(s[1..], v);
      assert |s| * v == (|s| - 1) * v + v;
    }
  }

  lemma {:induction false} SumZero(s: seq<nat>)
    ensures Sum(s) == 0 <==> forall i | 0 <= i < |s| :: s[i] == 0
  {
    if s != [] {
      SumZero(s[1..]);
      assert forall i | 0 < i < |s| :: s[i] == s[1..][i - 1];
    }
  }

  function RowSums(rows: seq<seq<nat>>): (r: seq<nat>)
    ensures |r| == |rows|
  {
    seq(|rows|, i requires 0 <= i < |rows| => Sum(rows[i]))
  }

  function TableSum(rows: seq<seq<nat>>): nat {
    Sum(RowSums(rows))
  }

  lemma TableUpdate(rows: seq<seq<nat>>, i: nat, row: seq<nat>, k: nat, v: nat)
    requires i < |rows| && k < |rows[i]| && row == rows[i][k := v]
    ensures TableSum(rows[i := row]) == TableSum(rows) - rows[i][k] + v
  {
    SumUpdate(rows[i], k, v);
    SumUpdate(RowSums(rows), i, Sum(row));
    assert RowSums(rows[i := row]) == RowSums(rows)[i := Sum(row)];
  }

  lemma TableZero(rows: seq<seq<nat>>)
    ensures TableSum(rows) == 0 <==> forall i, k | 0 <= i < |rows| && 0 <= k < |rows[i]| :: rows[i][k] == 0
  {
    SumZero(RowSums(rows));
    forall i | 0 <= i < |rows| ensures RowSums(rows)[i] == 0 <==> forall k | 0 <= k < |rows[i]| :: rows[i][k] == 0 {
      SumZero(rows[i]);
    }
  }
}
