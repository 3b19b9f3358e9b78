/** The order in which Python compares strings, and a sort by any total order. */
module Ordering {
  import opened Lists

  /** Negative, zero or positive as a comes before, equals or comes after b. */
  function Compare(a: string, b: string): (c: int)
    ensures c == 0 <==> a == b
  {
    if a == "" && b == "" then 0
    else if a == "" then -1
    else if b == "" then 1
    else if a[0] != b[0] then (if a[0] < b[0] then -1 else 1)
    else
      assert a == [a[0]] + a[1..] && b == [b[0]] + b[1..];
      Compare(a[1..], b[1..])
  }

  /** The strings agree up to place n, where a ends or has the smaller character. */
  ghost predicate Precedes(a: string, b: string, n: nat) {
    n <= |a| && n < |b| && a[..n] == b[..n] && (n == |a| || a[n] < b[n])
  }

  lemma {:induction false} PrecedesCompares(a: string, b: string, n: nat)
    requires Precedes(a, b, n)
    ensures Compare(a, b) < 0
  {
    if n > 0 {
      assert a[..n][0] == a[0] && b[..n][0] == b[0];
      assert a[1..][..n - 1] == a[..n][1..] && b[1..][..n - 1] == b[..n][1..];
      PrecedesCompares(a[1..], b[1..], n - 1);
    }
  }

  lemma {:induction false} ComparesPrecedes(a: string, b: string) returns (n: nat)
    requires Compare(a, b) < 0
    ensures Precedes(a, b, n)
  {
    n := 0;
    if a != "" && a[0] == b[0] {
      var k := ComparesPrecedes(a[1..], b[1..]);
      n := k + 1;
      assert a[..n] == [a[0]] + a[1..][..k] && b[..n] == [b[0]] + b[1..][..k];
    }
  }

  /** It is the order of a dictionary. */
  lemma CompareIsLexicographic(a: string, b: string)
    ensures Compare(a, b) < 0 <==> exists n: nat :: Precedes(a, b, n)
    ensures Compare(a, b) > 0 <==> exists n: nat :: Precedes(b, a, n)
  {
    hide Compare, Precedes;
    CompareFlip(a, b);
    CompareFlip(b, a);
    if Compare(a, b) < 0 { var n := ComparesPrecedes(a, b); }
    if Compare(b, a) < 0 { var n := ComparesPrecedes(b, a); }
    if n: nat :| Precedes(a, b, n) { PrecedesCompares(a, b, n); }
    if n: nat :| Precedes(b, a, n) { PrecedesCompares(b, a, n); }
  }

  lemma CompareFlip(a: string, b: string)
    ensures Compare(a, b) < 0 <==> Compare(b, a) > 0
  {
    if a != "" && b != "" && a[0] == b[0] { CompareFlip(a[1..], b[1..]); }
  }

  lemma {:induction false} CompareTransitive(a: string, b: string, c: string)
    requires Compare(a, b) <= 0 && Compare(b, c) <= 0
    ensures Compare(a, c) <= 0
    ensures Compare(a, c) == 0 ==> a == b == c
  {
    CompareFlip(a, b);
    if a != "" && b != "" && c != "" && a[0] == b[0] == c[0] {
      CompareTransitive(a[1..], b[1..], c[1..]);
    }
  }

  ghost predicate IsOrder<T(!new)>(atMost: (T, T) -> bool) {
    && (forall a, b :: atMost(a, b) || atMost(b, a))
    && (forall a, b, c :: atMost(a, b) && atMost(b, c) ==> atMost(a, c))
    && (forall a, b :: atMost(a, b) && atMost(b, a) ==> a == b)
  }

  ghost predicate Sorted<T(!new)>(s: seq<T>, atMost: (T, T) -> bool) {
    forall i, j | 0 <= i < j < |s| :: atMost(s[i], s[j])
  }

  function Insert<T(!new)>(x: T, s: seq<T>, atMost: (T, T) -> bool): (r: seq<T>)
    ensures multiset(r) == multiset(s) + multiset{x}
    ensures forall y :: y in r <==> y == x || y in s
  {
    if s == [] then [x]
    else if atMost(x, s[0]) then [x] + s
    else
      assert s == [s[0]] + s[1..];
      [s[0]] + Insert(x, s[1..], atMost)
  }

  /** sorted(s) */
  function Sort<T(!new)>(s: seq<T>, atMost: (T, T) -> bool): (r: seq<T>)
    ensures multiset(r) == multiset(s)
  {
    if s == [] then []
    else
      assert s == [s[0]] + s[1..];
      Insert(s[0], Sort(s[1..], atMost), atMost)
  }

  lemma {:induction false} InsertSorts<T(!new)>(x: T, s: seq<T>, atMost: (T, T) -> bool)
    requires IsOrder(atMost) && Sorted(s, atMost)
    ensures Sorted(Insert(x, s, atMost), atMost)
  {
    if s != [] && !atMost(x, s[0]) {
      var r := Insert(x, s[1..], atMost);
      InsertSorts(x, s[1..], atMost);
      assert forall y | y in r :: atMost(s[0], y);
    } else if s != [] {
      assert Sorted([x] + s, atMost) by {
        forall j | 0 <= j < |s| ensures atMost(x, s[j]) {
          assert j > 0 ==> atMost(s[0], s[j]);
        }
      }
    }
  }

  lemma {:induction false} SortSorts<T(!new)>(s: seq<T>, atMost: (T, T) -> bool)
    requires IsOrder(atMost)
    ensures Sorted(Sort(s, atMost), atMost)
    ensures forall x :: x in Sort(s, atMost) <==> x in s
  {
    if s != [] {
      SortSorts(s[1..], atMost);
      InsertSorts(s[0], Sort(s[1..], atMost), atMost);
    }
    forall x ensures x in Sort(s, atMost) <==> x in s {
      assert x in Sort(s, atMost) <==> x in multiset(Sort(s, atMost));
    }
  }

  // ---------- sorted(set(...)) ----------

  lemma FirstIsLeast<T(!new)>(s: seq<T>, x: T, atMost: (T, T) -> bool)
    requires IsOrder(atMost) && Sorted(s, atMost) && x in s
    ensures atMost(s[0], x)
  {
    var i :| 0 <= i < |s| && s[i] == x;
    if i == 0 { assert atMost(x, x); }
  }

  lemma RestMembers<T(!new)>(s: seq<T>, x: T)
    requires NoDuplicates(s) && s != []
    ensures x in s[1..] <==> x in s && x != s[0]
  {
    if x in s && x != s[0] {
      var k :| 0 <= k < |s| && s[k] == x;
      assert s[1..][k - 1] == x;
    }
    if x in s[1..] {
      var k :| 0 <= k < |s[1..]| && s[1..][k] == x;
      assert s[k + 1] == x;
    }
  }

  /** Two sorted lists of the same elements, each once, are the same list. */
  lemma {:induction false} SortedUnique<T(!new)>(a: seq<T>, b: seq<T>, atMost: (T, T) -> bool)
    requires IsOrder(atMost) && Sorted(a, atMost) && Sorted(b, atMost) && NoDuplicates(a) && NoDuplicates(b)
    requires forall x :: x in a <==> x in b
    ensures a == b
  {
    if a == [] {
      LengthIsCount(b);
      assert Elements(b) == {};
    } else {
      assert a[0] in b && b[0] in a;
      FirstIsLeast(a, b[0], atMost);
      FirstIsLeast(b, a[0], atMost);
      forall x ensures x in a[1..] <==> x in b[1..] {
        RestMembers(a, x);
        RestMembers(b, x);
      }
      SortedUnique(a[1..], b[1..], atMost);
    }
  }

  ghost predicate InOrder<T(!new)>(r: seq<T>, s: set<T>, atMost: (T, T) -> bool) {
    Sorted(r, atMost) && NoDuplicates(r) && forall x :: x in r <==> x in s
  }

  lemma {:induction false} CanList<T(!new)>(s: set<T>, atMost: (T, T) -> bool) returns (r: seq<T>)
    requires IsOrder(atMost)
    ensures InOrder(r, s, atMost)
  {
    if s == {} {
      r := [];
    } else {
      var x :| x in s;
      var t := CanList(s - {x}, atMost);
      r := Insert(x, t, atMost);
      InsertSorts(x, t, atMost);
      InsertDistinct(x, t, atMost);
    }
  }

  lemma {:induction false} InsertDistinct<T(!new)>(x: T, s: seq<T>, atMost: (T, T) -> bool)
    requires NoDuplicates(s) && x !in s
    ensures NoDuplicates(Insert(x, s, atMost))
  {
    if s != [] && !atMost(x, s[0]) {
      InsertDistinct(x, s[1..], atMost);
      assert forall y | y in s[1..] :: y != s[0];
      PrefixDistinct(s[0], Insert(x, s[1..], atMost));
    } else {
      PrefixDistinct(x, s);
    }
  }

  lemma PrefixDistinct<T(!new)>(x: T, s: seq<T>)
    requires NoDuplicates(s) && x !in s
    ensures NoDuplicates([x] + s)
  {
  }

  /** The elements of a set in order. */
  ghost function SortedSet<T(!new)>(s: set<T>, atMost: (T, T) -> bool): (r: seq<T>)
    requires IsOrder(atMost)
    ensures InOrder(r, s, atMost)
  {
    assert exists r :: InOrder(r, s, atMost) by { var r := CanList(s, atMost); }
    var r :| InOrder(r, s, atMost);
    r
  }

  /** sorted(s) for a set s. */
  method SortSet<T(!new, ==)>(s: set<T>, atMost: (T, T) -> bool) returns (r: seq<T>)
    requires IsOrder(atMost)
    ensures r == SortedSet(s, atMost)
  {
    r := [];
    var todo := s;
    while todo != {}
      invariant todo <= s && InOrder(r, s - todo, atMost)
    {
      var x :| x in todo;
      todo := todo - {x};
      InsertSorts(x, r, atMost);
      InsertDistinct(x, r, atMost);
      r := Insert(x, r, atMost);
    }
    assert s - todo == s;
    SortedUnique(r, SortedSet(s, atMost), atMost);
  }

  predicate NatAtMost(a: nat, b: nat) { a <= b }

  predicate StringAtMost(a: string, b: string) { Compare(a, b) <= 0 }

  lemma NatsOrdered()
    ensures IsOrder(NatAtMost)
  {
  }

  lemma StringsOrdered()
    ensures IsOrder(StringAtMost)
  {
    forall a, b ensures (StringAtMost(a, b) || StringAtMost(b, a)) && (StringAtMost(a, b) && StringAtMost(b, a) ==> a == b) {
      CompareFlip(a, b);
    }
    forall a, b, c | StringAtMost(a, b) && StringAtMost(b, c) ensures StringAtMost(a, c) { CompareTransitive(a, b, c); }
  }
}
