/**
  * IMB_set_communicator (IMB_init.c, lines 949-1023): the order of the processes on a px by py grid,
  * and the groups they are split into.
  */
module ProcessMap {
  import opened Arithmetic
  import opened Lists
  import opened Permutations
  import opened Wrappers

  function Column(k: nat, px: nat): nat
    requires px > 0
  {
    k % px
  }

  function Row(k: nat, px: nat): nat
    requires px > 0
  {
    k / px
  }

  /** One cell of the grid comes before another: columns come first. */
  predicate Earlier(k: nat, l: nat, px: nat)
    requires px > 0
  {
    Column(k, px) < Column(l, px) || (Column(k, px) == Column(l, px) && Row(k, px) < Row(l, px))
  }

  /** The cell is in the grid before column i, row j. */
  predicate Visited(k: nat, i: nat, j: nat, px: nat, py: nat)
    requires px > 0
  {
    Row(k, px) < py && (Column(k, px) < i || (Column(k, px) == i && Row(k, px) < j))
  }

  lemma CellOf(i: nat, j: nat, px: nat)
    requires i < px
    ensures Column(i + j * px, px) == i && Row(i + j * px, px) == j
  {
    Divided(i + j * px, j, px, i);
  }

  lemma SameCell(k: nat, l: nat, px: nat)
    requires px > 0 && Column(k, px) == Column(l, px) && Row(k, px) == Row(l, px)
    ensures k == l
  {
    DivMod(k, px);
    DivMod(l, px);
  }

  /** The grid's cells are those below px * py. */
  lemma InGrid(k: nat, px: nat, py: nat)
    requires px > 0
    ensures Column(k, px) < px && (Row(k, px) < py <==> k < px * py)
  {
    DivMod(k, px);
    Commutes(px, py);
    if k / px < py {
      Below(px, k / px, k % px, py);
    } else {
      Grows(py, k / px, px);
    }
  }

  /** What the fill has done so far: order lists the visited cells, and each holds its place in it. */
  ghost predicate Filled(m: seq<int>, before: seq<int>, order: seq<nat>, i: nat, j: nat, px: nat, py: nat)
    requires px > 0
  {
    && |m| == |before|
    && (forall v | 0 <= v < |order| :: order[v] < |m| && m[order[v]] == v)
    && (forall a, b | 0 <= a < b < |order| :: Earlier(order[a], order[b], px))
    && (forall k: nat :: k in order <==> k < |m| && Visited(k, i, j, px, py))
    && (forall k | 0 <= k < |m| && k !in order :: m[k] == before[k])
  }

  /** Visited cells come before the one whose turn it is. */
  lemma VisitedFirst(k: nat, i: nat, j: nat, px: nat, py: nat)
    requires i < px && j < py && Visited(k, i, j, px, py)
    ensures Earlier(k, i + j * px, px) && k != i + j * px
  {
    hide Column, Row;
    CellOf(i, j, px);
  }

  lemma NotYet(i: nat, j: nat, px: nat, py: nat)
    requires i < px
    ensures !Visited(i + j * px, i, j, px, py)
  {
    hide Column, Row;
    CellOf(i, j, px);
  }

  lemma Fill(m: seq<int>, before: seq<int>, order: seq<nat>, i: nat, j: nat, px: nat, py: nat)
    requires i < px && j < py && Filled(m, before, order, i, j, px, py) && i + j * px < |m|
    ensures Filled(m[i + j * px := |order|], before, order + [i + j * px], i, j + 1, px, py)
  {
    var cell, after := i + j * px, order + [i + j * px];
    CellOf(i, j, px);
    hide Column, Row;
    forall k: nat ensures k in after <==> k < |m| && Visited(k, i, j + 1, px, py) {
      if Column(k, px) == i && Row(k, px) == j { SameCell(k, cell, px); }
    }
    forall a, b | 0 <= a < b < |after| ensures Earlier(after[a], after[b], px) {
      if b == |order| {
        assert after[a] in order;
        VisitedFirst(after[a], i, j, px, py);
      }
    }
    NotYet(i, j, px, py);
  }

  lemma Skip(m: seq<int>, before: seq<int>, order: seq<nat>, i: nat, j: nat, px: nat, py: nat)
    requires i < px && j < py && Filled(m, before, order, i, j, px, py) && i + j * px >= |m|
    ensures Filled(m, before, order, i, j + 1, px, py)
  {
    CellOf(i, j, px);
    hide Column, Row;
    forall k: nat ensures k in order <==> k < |m| && Visited(k, i, j + 1, px, py) {
      if Column(k, px) == i && Row(k, px) == j { SameCell(k, i + j * px, px); }
    }
  }

  lemma NextColumn(m: seq<int>, before: seq<int>, order: seq<nat>, i: nat, px: nat, py: nat)
    requires px > 0 && Filled(m, before, order, i, py, px, py)
    ensures Filled(m, before, order, i + 1, 0, px, py)
  {
    hide Column, Row;
    forall k: nat ensures Visited(k, i, py, px, py) <==> Visited(k, i + 1, 0, px, py) {}
  }

  /** The map goes by columns: it is a permutation that follows the order of the cells. */
  ghost predicate ByColumns(m: seq<int>, px: nat)
    requires px > 0
  {
    && IsPermutation(m)
    && forall k, l | 0 <= k < |m| && 0 <= l < |m| :: m[k] < m[l] <==> Earlier(k, l, px)
  }

  lemma OrderIsInverse(m: seq<int>, before: seq<int>, order: seq<nat>, px: nat, py: nat)
    requires px > 0 && Filled(m, before, order, px, 0, px, py) && |m| <= px * py
    ensures Inverse(m, order)
  {
    forall k: nat ensures k in order <==> k < |m| { InGrid(k, px, py); }
    hide Column, Row;
    assert NoDuplicates(order);
    LengthIsCount(order);
    FirstNumbers(|m|, Elements(order));
    forall k | 0 <= k < |m| ensures 0 <= m[k] < |m| && order[m[k]] == k {
      assert k in order;
      var v :| 0 <= v < |order| && order[v] == k;
    }
  }

  lemma OrderFollows(m: seq<int>, order: seq<nat>, px: nat, k: nat, l: nat)
    requires px > 0 && Inverse(m, order) && k < |m| && l < |m|
    requires forall a, b | 0 <= a < b < |order| :: Earlier(order[a], order[b], px)
    ensures m[k] < m[l] <==> Earlier(k, l, px)
  {
    hide Column, Row;
    assert order[m[k]] == k && order[m[l]] == l;
    if m[k] < m[l] { assert Earlier(order[m[k]], order[m[l]], px); }
    if m[l] < m[k] { assert Earlier(order[m[l]], order[m[k]], px); }
  }

  /** When the whole grid was visited and holds every process, the map goes by columns. */
  lemma AllFilled(m: seq<int>, before: seq<int>, order: seq<nat>, px: nat, py: nat)
    requires px > 0 && Filled(m, before, order, px, 0, px, py) && |m| <= px * py
    ensures ByColumns(m, px)
  {
    OrderIsInverse(m, before, order, px, py);
    InverseIsPermutation(m, order);
    forall k, l | 0 <= k < |m| && 0 <= l < |m| ensures m[k] < m[l] <==> Earlier(k, l, px) {
      OrderFollows(m, order, px, k, l);
    }
    hide Inverse, IsPermutation, Filled, Earlier;
  }

  /** The nested fill of lines 988-995.  Cells beyond the grid keep what they held. */
  method FillGrid(places: array<int>, px: nat, py: nat)
    requires px > 1 && py > 1
    modifies places
    ensures exists order :: Filled(places[..], old(places[..]), order, px, 0, px, py)
    ensures places.Length <= px * py ==> ByColumns(places[..], px)
    ensures forall k | px * py <= k < places.Length :: places[k] == old(places[k])
  {
    hide Column, Row, ByColumns;
    ghost var before, order: seq<nat> := places[..], [];
    var ii := 0;
    for i := 0 to px
      invariant Filled(places[..], before, order, i, 0, px, py) && ii == |order|
    {
      for j := 0 to py
        invariant Filled(places[..], before, order, i, j, px, py) && ii == |order|
      {
        if i + j * px < places.Length {
          Fill(places[..], before, order, i, j, px, py);
          order := order + [i + j * px];
          places[i + j * px] := ii;
          ii := ii + 1;
        } else {
          Skip(places[..], before, order, i, j, px, py);
        }
      }
      NextColumn(places[..], before, order, i, px, py);
    }
    if places.Length <= px * py { AllFilled(places[..], before, order, px, py); }
    forall k | px * py <= k < places.Length ensures places[..][k] == before[k] { InGrid(k, px, py); }
  }

  /** The fill on values: it leaves some map, whatever the array held before. */
  lemma SomeFill(before: seq<int>, px: nat, py: nat) returns (m: seq<int>, order: seq<nat>)
    requires px > 0
    ensures Filled(m, before, order, px, 0, px, py)
  {
    hide Column, Row, Filled;
    m, order := before, [];
    assert Filled(m, before, order, 0, 0, px, py) by { NothingFilled(before, px, py); }
    for i := 0 to px
      invariant Filled(m, before, order, i, 0, px, py) && |m| == |before|
    {
      for j := 0 to py
        invariant Filled(m, before, order, i, j, px, py) && |m| == |before|
      {
        if i + j * px < |m| {
          Fill(m, before, order, i, j, px, py);
          m, order := m[i + j * px := |order|], order + [i + j * px];
        } else {
          Skip(m, before, order, i, j, px, py);
        }
      }
      NextColumn(m, before, order, i, px, py);
    }
  }

  lemma NothingFilled(before: seq<int>, px: nat, py: nat)
    requires px > 0
    ensures Filled(before, before, [], 0, 0, px, py)
  {}

  lemma NothingEarlier(k: nat, l: nat, px: nat)
    requires px > 0 && Column(l, px) == 0 && Row(l, px) == 0
    ensures !Earlier(k, l, px)
  {}

  /** A process behind a smaller grid may hold the place of the first. */
  lemma SmallGrid(m: seq<int>, before: seq<int>, order: seq<nat>, px: nat, py: nat)
    requires px > 1 && py > 1 && Filled(m, before, order, px, 0, px, py)
    requires px * py < |m| && before[px * py] == 0
    ensures !IsPermutation(m)
  {
    CellOf(0, 0, px);
    InGrid(0, px, py);
    InGrid(px * py, px, py);
    assert Visited(0, px, 0, px, py) && 0 in order;
    hide Column, Row;
    var v :| 0 <= v < |order| && order[v] == 0;
    NothingEarlier(order[0], 0, px);
    assert v == 0;
    assert m[0] == 0 && m[px * py] == 0;
    assert 0 < px * py;
  }

  /**
    * The fill makes a permutation of every content exactly when the grid holds all processes, which is
    * what the check of the option -map demands (line 397).
    */
  lemma GridSuffices(n: nat, px: nat, py: nat)
    requires px > 1 && py > 1
    ensures (forall m, before, order | |m| == n && Filled(m, before, order, px, 0, px, py) :: IsPermutation(m))
            <==> n <= px * py
  {
    hide Column, Row, Filled, IsPermutation;
    if n <= px * py {
      forall m, before, order | |m| == n && Filled(m, before, order, px, 0, px, py) ensures IsPermutation(m) {
        AllFilled(m, before, order, px, py);
      }
    } else {
      var before := seq(n, _ => 0);
      var m, order := SomeFill(before, px, py);
      assert |m| == n by { SameLength(m, before, order, px, py); }
      SmallGrid(m, before, order, px, py);
    }
  }

  lemma SameLength(m: seq<int>, before: seq<int>, order: seq<nat>, px: nat, py: nat)
    requires px > 0 && Filled(m, before, order, px, 0, px, py)
    ensures |m| == |before|
  {}

  /** The places as such */

  ghost function Holders(places: seq<int>, lo: int, hi: int): set<nat> {
    set r: nat | r < |places| && lo <= places[r] < hi
  }

  lemma OneHolder(places: seq<int>, lo: nat, hi: nat, r: nat)
    requires NoDuplicates(places) && lo < hi && r < |places| && places[r] == hi - 1
    ensures Holders(places, lo, hi) == Holders(places, lo, hi - 1) + {r} && r !in Holders(places, lo, hi - 1)
  {
    forall q: nat | q < |places| && q != r ensures places[q] != hi - 1 {
      assert q < r || r < q;
    }
  }

  /** An interval of places belongs to as many processes. */
  lemma {:induction false} HoldersOf(places: seq<int>, lo: nat, hi: nat)
    requires IsPermutation(places) && lo <= hi <= |places|
    ensures |Holders(places, lo, hi)| == hi - lo
    decreases hi
  {
    if lo == hi {
      assert Holders(places, lo, hi) == {};
    } else {
      HoldersOf(places, lo, hi - 1);
      assert hi - 1 in places;
      var r :| 0 <= r < |places| && places[r] == hi - 1;
      hide Holders;
      OneHolder(places, lo, hi, r);
    }
  }

  /** The processes whose cells come before that of process k. */
  ghost function EarlierCells(k: nat, n: nat, px: nat): set<nat>
    requires px > 0
  {
    set l: nat | l < n && Earlier(l, k, px)
  }

  /** A map by columns gives each process the number of cells before its own, so there is only one. */
  lemma CountedPlace(m: seq<int>, px: nat, k: nat)
    requires px > 0 && ByColumns(m, px) && k < |m|
    ensures m[k] == |EarlierCells(k, |m|, px)|
  {
    hide Earlier, IsPermutation;
    assert 0 <= m[k] < |m| by { InPlace(m, k); }
    assert forall l | 0 <= l < |m| :: 0 <= m[l] by { forall l | 0 <= l < |m| ensures 0 <= m[l] { InPlace(m, l); } }
    assert EarlierCells(k, |m|, px) == Holders(m, 0, m[k]);
    HoldersOf(m, 0, m[k]);
  }

  lemma InPlace(m: seq<int>, k: nat)
    requires IsPermutation(m) && k < |m|
    ensures 0 <= m[k] < |m|
  {}

  /** The place of a process, as every process computes it. */
  ghost function KeyOf(r: nat, n: nat, px: nat, py: nat): int {
    if px > 1 && py > 1 then |EarlierCells(r, n, px)| else r
  }

  /** The keys of all processes, in the order of their ranks. */
  ghost function Keys(n: nat, px: nat, py: nat): (keys: seq<int>)
    ensures |keys| == n
  {
    seq(n, r requires 0 <= r => KeyOf(r, n, px, py))
  }

  /** They are a permutation. */
  lemma KeysPermute(n: nat, px: nat, py: nat)
    requires px <= 1 || py <= 1 || n <= px * py
    ensures IsPermutation(Keys(n, px, py))
  {
    var keys := Keys(n, px, py);
    if px > 1 && py > 1 {
      var before := seq(n, _ => 0);
      var m, order := SomeFill(before, px, py);
      SameLength(m, before, order, px, py);
      AllFilled(m, before, order, px, py);
      hide EarlierCells, Filled, IsPermutation;
      forall k | 0 <= k < n ensures m[k] == keys[k] { CountedPlace(m, px, k); }
      assert m == keys;
    } else {
      RanksPermute(keys);
    }
  }

  lemma RanksPermute(keys: seq<int>)
    requires forall k | 0 <= k < |keys| :: keys[k] == k
    ensures IsPermutation(keys)
  {
    forall v | 0 <= v < |keys| ensures v in keys { assert keys[v] == v; }
  }

  /** The split, as each process sees it: its colour, if any, and its key. */

  function Colour(place: int, w_num_procs: nat, NP: nat, group_mode: int): Option<int>
    requires NP > 0
  {
    if group_mode >= 0 then
      (if place / NP >= w_num_procs / NP then None else Some(place / NP))
    else
      (if place < NP then Some(0) else None)
  }

  /** The map of lines 986-1000: by columns on a grid, otherwise the ranks themselves. */
  method MakeMap(px: nat, py: nat, w_num_procs: nat) returns (places: array<int>)
    ensures fresh(places) && places.Length == w_num_procs
    ensures px <= 1 || py <= 1 ==> forall k | 0 <= k < w_num_procs :: places[k] == k
    ensures px > 1 && py > 1 && w_num_procs <= px * py ==> ByColumns(places[..], px)
  {
    places := new int[w_num_procs];
    if px > 1 && py > 1 {
      FillGrid(places, px, py);
    } else {
      for i := 0 to w_num_procs
        invariant forall k | 0 <= k < i :: places[k] == k
      {
        places[i] := i;
      }
    }
  }

  method SetCommunicator(px: nat, py: nat, w_num_procs: nat, w_rank: nat, NP: nat, group_mode: int)
    returns (color: Option<int>, key: int, group_no: int)
    requires w_rank < w_num_procs && NP > 0
    ensures px <= 1 || py <= 1 || w_num_procs <= px * py ==> key == KeyOf(w_rank, w_num_procs, px, py)
    ensures color == Colour(key, w_num_procs, NP, group_mode)
    ensures group_no == if group_mode >= 0 then key / NP else 0
  {
    var places := MakeMap(px, py, w_num_procs);
    hide ByColumns, EarlierCells;
    key := places[w_rank];
    assert places[..][w_rank] == key;
    if px > 1 && py > 1 && w_num_procs <= px * py { CountedPlace(places[..], px, w_rank); }
    if group_mode >= 0 {
      color, group_no := Some(key / NP), key / NP;
      if key / NP >= w_num_procs / NP { color := None; }
    } else {
      color, group_no := if key < NP then Some(0) else None, 0;
    }
  }

  /** Group sizes */

  ghost function Members(places: seq<int>, NP: nat, group_mode: int, color: int): set<nat>
    requires NP > 0
  {
    set r: nat | r < |places| && Colour(places[r], |places|, NP, group_mode) == Some(color)
  }

  lemma GroupOf(place: nat, NP: nat, color: nat)
    requires NP > 0
    ensures place / NP == color <==> color * NP <= place < (color + 1) * NP
  {
    DivMod(place, NP);
    Distribute(color, 1, NP);
    if color * NP <= place < (color + 1) * NP { Divided(place, color, NP, place - color * NP); }
  }

  lemma LastGroup(place: nat, NP: nat, groups: nat)
    requires NP > 0
    ensures place / NP >= groups <==> groups * NP <= place
  {
    DivMod(place, NP);
    if place / NP >= groups {
      Grows(groups, place / NP, NP);
    } else {
      Distribute(place / NP, 1, NP);
      Grows(place / NP + 1, groups, NP);
    }
  }

  /** In group mode, each colour below N div NP has exactly NP processes, in adjoining places; no other has any. */
  lemma GroupSizes(places: seq<int>, NP: nat, group_mode: int, color: int)
    requires NP > 0 && IsPermutation(places) && group_mode >= 0
    ensures |Members(places, NP, group_mode, color)| == if 0 <= color < |places| / NP then NP else 0
    ensures 0 <= color < |places| / NP ==>
              Members(places, NP, group_mode, color) == Holders(places, color * NP, (color + 1) * NP)
  {
    var n := |places|;
    if 0 <= color < n / NP {
      Distribute(color, 1, NP);
      LastGroup(n, NP, color + 1);
      forall r: nat | r < n ensures places[r] / NP == color <==> color * NP <= places[r] < (color + 1) * NP {
        GroupOf(places[r], NP, color);
      }
      assert Members(places, NP, group_mode, color) == Holders(places, color * NP, (color + 1) * NP);
      HoldersOf(places, color * NP, (color + 1) * NP);
    } else {
      assert Members(places, NP, group_mode, color) == {};
    }
  }

  ghost function Outside(places: seq<int>, NP: nat, group_mode: int): set<nat>
    requires NP > 0
  {
    set r: nat | r < |places| && Colour(places[r], |places|, NP, group_mode) == None
  }

  lemma OutsideIs(places: seq<int>, NP: nat, group_mode: int, lo: nat)
    requires NP > 0 && group_mode >= 0 && forall r | 0 <= r < |places| :: 0 <= places[r] < |places|
    requires lo == (|places| / NP) * NP
    ensures Outside(places, NP, group_mode) == Holders(places, lo, |places|)
  {
    forall r | 0 <= r < |places| ensures places[r] / NP >= |places| / NP <==> lo <= places[r] {
      LastGroup(places[r], NP, |places| / NP);
    }
  }

  /** The other processes, N mod NP of them, belong to no group. */
  lemma Outsiders(places: seq<int>, NP: nat, group_mode: int)
    requires NP > 0 && IsPermutation(places) && group_mode >= 0
    ensures |Outside(places, NP, group_mode)| == |places| % NP
  {
    var lo := (|places| / NP) * NP;
    DivMod(|places|, NP);
    assert forall r | 0 <= r < |places| :: 0 <= places[r] < |places|;
    hide Outside, Holders, IsPermutation;
    OutsideIs(places, NP, group_mode, lo);
    HoldersOf(places, lo, |places|);
  }

  /** Without groups, the first NP places, or all, work together. */
  lemma SingleGroup(places: seq<int>, NP: nat, group_mode: int)
    requires NP > 0 && IsPermutation(places) && group_mode < 0
    ensures |Members(places, NP, group_mode, 0)| == if NP <= |places| then NP else |places|
  {
    var hi := if NP <= |places| then NP else |places|;
    assert Members(places, NP, group_mode, 0) == Holders(places, 0, hi);
    HoldersOf(places, 0, hi);
  }

  /** So the keys that the processes compute make as many full groups, and leave the rest out. */
  lemma GroupsFormed(n: nat, px: nat, py: nat, NP: nat, group_mode: int, color: int)
    requires NP > 0 && group_mode >= 0 && (px <= 1 || py <= 1 || n <= px * py)
    ensures |Members(Keys(n, px, py), NP, group_mode, color)| == if 0 <= color < n / NP then NP else 0
    ensures |Outside(Keys(n, px, py), NP, group_mode)| == n % NP
  {
    hide Keys, Members, Outside, IsPermutation, Holders;
    KeysPermute(n, px, py);
    GroupSizes(Keys(n, px, py), NP, group_mode, color);
    Outsiders(Keys(n, px, py), NP, group_mode);
  }
}
