/** Lists without duplicates, and how long they can be. */
module Lists {

  ghost predicate NoDuplicates<T(!new)>(s: seq<T>) { forall i, j | 0 <= i < j < |s| :: s[i] != s[j] }

  ghost function Elements<T(!new)>(s: seq<T>): set<T> { set x | x in s }

  lemma ConcatAssociative<T>(a: seq<T>, b: seq<T>, c: seq<T>)
    ensures a + (b + c) == a + b + c
  {
  }

  lemma ElementsConcat<T(!new)>(a: seq<T>, b: seq<T>)
    ensures Elements(a + b) == Elements(a) + Elements(b)
  {
  }

  lemma NoDuplicatesConcat<T(!new)>(a: seq<T>, b: seq<T>)
    requires NoDuplicates(a) && NoDuplicates(b) && Elements(a) !! Elements(b)
    ensures NoDuplicates(a + b)
  {
    var s := a + b;
    forall i, j | 0 <= i < j < |s| ensures s[i] != s[j] {
      if i < |a| <= j {
        assert s[i] in Elements(a) && s[j] in Elements(b);
      }
    }
  }

  lemma NoDuplicatesSplit<T(!new)>(a: seq<T>, b: seq<T>)
    requires NoDuplicates(a + b)
    ensures NoDuplicates(a) && NoDuplicates(b) && Elements(a) !! Elements(b)
  {
    var s := a + b;
    forall i, j | 0 <= i < j < |a| ensures a[i] != a[j] { assert a[i] == s[i] && a[j] == s[j]; }
    forall i, j | 0 <= i < j < |b| ensures b[i] != b[j] { assert b[i] == s[|a| + i] && b[j] == s[|a| + j]; }
    forall i, j | 0 <= i < |a| && 0 <= j < |b| ensures a[i] != b[j] { assert a[i] == s[i] && b[j] == s[|a| + j]; }
  }

  /** A list without duplicates has as many entries as elements. */
  lemma {:induction false} LengthIsCount<T(!new)>(s: seq<T>)
    requires NoDuplicates(s)
    ensures |s| == |Elements(s)|
  {
    if s != [] {
      var n := |s| - 1;
      var t := s[..n];
      LengthIsCount(t);
      assert s == t + [s[n]];
      assert Elements(s) == Elements(t) + {s[n]};
    }
  }

  lemma {:induction false} SubsetSize<T>(a: set<T>, b: set<T>)
    requires a <= b
    ensures |a| <= |b|
  {
    if a != {} {
      var x :| x in a;
      SubsetSize(a - {x}, b - {x});
    }
  }

  lemma LengthBound<T(!new)>(s: seq<T>, within: set<T>)
    requires NoDuplicates(s) && Elements(s) <= within
    ensures |s| <= |within|
  {
    LengthIsCount(s);
    SubsetSize(Elements(s), within);
  }

  /** Places of a list of length n, in order. */
  ghost predicate Rising(at: seq<nat>, n: nat) {
    (forall k | 0 <= k < |at| :: at[k] < n) && forall j, k | 0 <= j < k < |at| :: at[j] < at[k]
  }

  /** r holds what l holds at these places. */
  ghost predicate Picks<T(!new)>(r: seq<T>, l: seq<T>, at: seq<nat>) {
    Rising(at, |l|) && |r| == |at| && forall k | 0 <= k < |at| :: r[k] == l[at[k]]
  }

  /** r holds every element of l once, where it comes first. */
  ghost predicate FirstPlaces<T(!new)>(r: seq<T>, l: seq<T>, at: seq<nat>) {
    Picks(r, l, at) && forall i | 0 <= i < |l| :: i in at <==> l[i] !in l[..i]
  }

  lemma FirstPlacesDistinct<T(!new)>(r: seq<T>, l: seq<T>, at: seq<nat>)
    requires FirstPlaces(r, l, at)
    ensures NoDuplicates(r)
  {
    forall j, k | 0 <= j < k < |r| ensures r[j] != r[k] {
      assert at[k] in at && at[j] in at;
      assert l[..at[k]][at[j]] == l[at[j]];
    }
  }

  lemma {:induction false} FirstPlace<T(!new)>(l: seq<T>, i: nat) returns (j: nat)
    requires i < |l|
    ensures j <= i && l[j] == l[i] && l[j] !in l[..j]
  {
    j := i;
    if l[i] in l[..i] {
      var k :| 0 <= k < i && l[k] == l[i];
      j := FirstPlace(l, k);
    }
  }

  lemma FirstPlacesCover<T(!new)>(r: seq<T>, l: seq<T>, at: seq<nat>)
    requires FirstPlaces(r, l, at)
    ensures Elements(r) == Elements(l)
  {
    forall x | x in l ensures x in r {
      var i :| 0 <= i < |l| && l[i] == x;
      var j := FirstPlace(l, i);
      var k :| 0 <= k < |at| && at[k] == j;
      assert r[k] == x;
    }
    forall x | x in r ensures x in l {
      var k :| 0 <= k < |r| && r[k] == x;
      assert l[at[k]] == x;
    }
  }

  /** The places of the true entries, in order. */
  ghost predicate Marks(at: seq<nat>, flags: seq<bool>) {
    Rising(at, |flags|) && forall i | 0 <= i < |flags| :: i in at <==> flags[i]
  }

  /** One entry in front moves the places on by one. */
  function Shifted(at: seq<nat>): (r: seq<nat>)
    ensures |r| == |at| && forall k | 0 <= k < |r| :: r[k] == at[k] + 1
  {
    seq(|at|, k requires 0 <= k < |at| => at[k] + 1)
  }

  lemma InShifted(at: seq<nat>, i: nat)
    ensures i in Shifted(at) <==> i > 0 && i - 1 in at
  {
    if i in Shifted(at) {
      var k :| 0 <= k < |at| && Shifted(at)[k] == i;
      assert at[k] == i - 1;
    }
    if i > 0 && i - 1 in at {
      var k :| 0 <= k < |at| && at[k] == i - 1;
      assert Shifted(at)[k] == i;
    }
  }

  lemma ShiftedMarks(at: seq<nat>, flags: seq<bool>)
    requires flags != [] && Marks(at, flags[1..])
    ensures Marks(if flags[0] then [0] + Shifted(at) else Shifted(at), flags)
  {
    forall i | 0 <= i < |flags|
      ensures i in (if flags[0] then [0] + Shifted(at) else Shifted(at)) <==> flags[i]
    {
      InShifted(at, i);
      if i > 0 { assert flags[1..][i - 1] == flags[i]; }
    }
  }
}
