/** Who deals to whom, and under which tags (mpi_tokensmash.c, lines 541-718). */
module TokenRoles {
  import opened Arithmetic
  import opened Torus

  const DEALER_ID_SHIFT: nat := 8
  const CTRL_WORD_TAG: nat := 0x000b_0000
  const STATS_TAG: nat := 0x000c_0000

  /** Tags */

  /** Bitwise or. */
  function Or(a: nat, b: nat): nat {
    if a == 0 then b
    else if b == 0 then a
    else 2 * Or(a / 2, b / 2) + (if a % 2 == 1 || b % 2 == 1 then 1 else 0)
  }

  function ShiftLeft(a: nat, n: nat): nat {
    if n == 0 then a else 2 * ShiftLeft(a, n - 1)
  }

  function TagOf(dealer: nat, j: nat): nat {
    Or(ShiftLeft(dealer, DEALER_ID_SHIFT), j + 1)
  }

  lemma {:induction false} OrDisjoint(a: nat, n: nat, k: nat)
    requires k < ShiftLeft(1, n)
    ensures Or(ShiftLeft(a, n), k) == ShiftLeft(a, n) + k
    decreases n
  {
    if n > 0 {
      OrDisjoint(a, n - 1, k / 2);
      assert ShiftLeft(a, n) / 2 == ShiftLeft(a, n - 1);
    }
  }

  lemma TagIsSum(dealer: nat, j: nat)
    requires j < 255
    ensures TagOf(dealer, j) == 256 * dealer + (j + 1)
  {
    assert ShiftLeft(1, 8) == 256;
    assert ShiftLeft(dealer, 1) == 2 * dealer;
    assert ShiftLeft(dealer, 3) == 4 * ShiftLeft(dealer, 1);
    assert ShiftLeft(dealer, 5) == 4 * ShiftLeft(dealer, 3);
    assert ShiftLeft(dealer, 7) == 4 * ShiftLeft(dealer, 5);
    OrDisjoint(dealer, 8, j + 1);
  }

  function DealerOf(tag: nat): nat { tag / 256 }

  function TokenOf(tag: nat): int { tag % 256 - 1 }

  /** With at most 255 tokens a tag gives back its dealer and token, and is neither of the other tags. */
  lemma TagDecodes(dealer: nat, j: nat)
    requires j < 255
    ensures DealerOf(TagOf(dealer, j)) == dealer && TokenOf(TagOf(dealer, j)) == j
    ensures TagOf(dealer, j) != CTRL_WORD_TAG && TagOf(dealer, j) != STATS_TAG
  {
    TagIsSum(dealer, j);
    Divided(TagOf(dealer, j), dealer, 256, j + 1);
  }

  /** So tags are unique exactly up to that number of tokens. */
  lemma TagsUnique(tokens: nat)
    ensures (forall d, e, i, j | 0 <= d && 0 <= e && 0 <= i < tokens && 0 <= j < tokens && TagOf(d, i) == TagOf(e, j) ::
               d == e && i == j)
            <==> tokens <= 255
  {
    if tokens <= 255 {
      forall d, e, i, j | 0 <= d && 0 <= e && 0 <= i < tokens && 0 <= j < tokens && TagOf(d, i) == TagOf(e, j)
        ensures d == e && i == j
      {
        TagDecodes(d, i);
        TagDecodes(e, j);
      }
    } else {
      TagsClash();
    }
  }

  lemma TagsClash()
    ensures TagOf(0, 255) == TagOf(1, 255)
  {
    assert ShiftLeft(1, 8) == 256;
    assert ShiftLeft(0, 8) == 0;
    assert Or(0, 256) == 256;
    OrSelf(256);
  }

  lemma {:induction false} OrSelf(a: nat)
    ensures Or(a, a) == a
  {
    if a > 0 { OrSelf(a / 2); }
  }

  /** Roles */

  datatype Topology = Star | Mesh2D(mesh: Mesh) | Mesh3D(mesh: Mesh)

  datatype Kind = Dealer | Edge

  datatype Role = Role(kind: Kind, dealer: nat, edges: seq<nat>, tags: seq<nat>)

  /** The check of the options, lines 961-972. */
  ghost predicate ValidTopology(t: Topology, mpi_size: nat) {
    && 2 <= mpi_size < 0x8000_0000
    && match t {
         case Star => true
         case Mesh2D(m) => m.Valid() && m.zsize == 1 && m.Size() == mpi_size
         case Mesh3D(m) => m.Valid() && m.Size() == mpi_size
       }
  }

  function Directions(t: Topology): seq<Direction> {
    match t
    case Star => []
    case Mesh2D(_) => [East, West, North, South]
    case Mesh3D(_) => [East, West, North, South, Up, Down]
  }

  /** The mesh is at least two ranks wide, as `xplus` needs. */
  predicate Wide(t: Topology) {
    t == Star || t.mesh.xsize > 1
  }

  /** No rank of the topology is its own neighbour: every axis that it walks has at least two ranks. */
  predicate Apart(t: Topology) {
    match t
    case Star => true
    case Mesh2D(m) => m.xsize > 1 && m.ysize > 1
    case Mesh3D(m) => m.xsize > 1 && m.ysize > 1 && m.zsize > 1
  }

  function NeighbourRank(t: Topology, mpi_size: nat, rank: nat, e: nat): (r: nat)
    requires ValidTopology(t, mpi_size) && t != Star && Wide(t) && rank < mpi_size && e < |Directions(t)|
    ensures r < mpi_size
  {
    NeighbourMoves(t.mesh, Directions(t)[e], rank);
    Neighbour(t.mesh, Directions(t)[e], rank)
  }

  /** The ranks that a rank deals to, in order; none when it is no dealer. */
  function EdgesOf(t: Topology, mpi_size: nat, rank: nat): (edges: seq<nat>)
    requires ValidTopology(t, mpi_size) && Wide(t) && rank < mpi_size
  {
    match t
    case Star => if rank == 0 then seq(mpi_size - 1, j requires 0 <= j => j + 1) else []
    case _ => seq(|Directions(t)|, e requires 0 <= e < |Directions(t)| => NeighbourRank(t, mpi_size, rank, e))
  }

  /** The dealers that a rank is an edge of, one for each of its EDGE roles. */
  function DealersOf(t: Topology, mpi_size: nat, rank: nat): (dealers: seq<nat>)
    requires ValidTopology(t, mpi_size) && Wide(t) && rank < mpi_size
  {
    match t
    case Star => if rank == 0 then [] else [0]
    case _ => EdgesOf(t, mpi_size, rank)
  }

  function Tags(dealer: nat, tokens: nat): seq<nat> {
    seq(tokens, j requires 0 <= j => TagOf(dealer, j))
  }

  /** The roles before their tags are known. */
  function UntaggedRoles(t: Topology, mpi_size: nat, rank: nat): seq<Role>
    requires ValidTopology(t, mpi_size) && Wide(t) && rank < mpi_size
  {
    var edges, dealers := EdgesOf(t, mpi_size, rank), DealersOf(t, mpi_size, rank);
    (if edges == [] then [] else [Role(Dealer, rank, edges, [])])
    + seq(|dealers|, i requires 0 <= i < |dealers| => Role(Edge, dealers[i], [], []))
  }

  function Tagged(roles: seq<Role>, tokens: nat): seq<Role> {
    seq(|roles|, i requires 0 <= i < |roles| => roles[i].(tags := Tags(roles[i].dealer, tokens)))
  }

  function RolesOf(t: Topology, mpi_size: nat, rank: nat, tokens: nat): seq<Role>
    requires ValidTopology(t, mpi_size) && Wide(t) && rank < mpi_size
  {
    Tagged(UntaggedRoles(t, mpi_size, rank), tokens)
  }

  method MakeTags(dealer: nat, tokens: nat) returns (tags: seq<nat>)
    ensures tags == Tags(dealer, tokens)
  {
    tags := [];
    for j := 0 to tokens
      invariant tags == Tags(dealer, j)
    {
      tags := tags + [TagOf(dealer, j)];
    }
  }

  method StarRoles(mpi_size: nat, my_rank: nat) returns (roles: seq<Role>)
    requires ValidTopology(Star, mpi_size) && my_rank < mpi_size
    ensures roles == UntaggedRoles(Star, mpi_size, my_rank)
  {
    var role := if my_rank == 0 then Role(Dealer, my_rank, [], []) else Role(Edge, 0, [], []);
    var num_edges := if my_rank == 0 then mpi_size - 1 else 0;
    var edges: seq<nat> := [];
    for j := 0 to num_edges
      invariant edges == seq(j, k requires 0 <= k => k + 1)
    {
      edges := edges + [j + 1];
    }
    roles := [role.(edges := edges)];
  }

  method MeshEdges(t: Topology, mpi_size: nat, my_rank: nat) returns (edges: seq<nat>)
    requires ValidTopology(t, mpi_size) && t != Star && Wide(t) && my_rank < mpi_size
    ensures edges == EdgesOf(t, mpi_size, my_rank)
  {
    var m := t.mesh;
    forall e | 0 <= e < |Directions(t)| ensures 0 <= Neighbour(m, Directions(t)[e], my_rank) {
      NeighbourMoves(m, Directions(t)[e], my_rank);
    }
    hide XPlus, XMinus, YPlus, YMinus, ZPlus, ZMinus;
    assert Directions(t)[0] == East && Directions(t)[1] == West && Directions(t)[2] == North && Directions(t)[3] == South;
    edges := [XPlus(m, my_rank), XMinus(m, my_rank), YPlus(m, my_rank), YMinus(m, my_rank)];
    if t.Mesh3D? {
      assert Directions(t)[4] == Up && Directions(t)[5] == Down;
      edges := edges + [ZPlus(m, my_rank), ZMinus(m, my_rank)];
    }
  }

  method MeshRoles(t: Topology, mpi_size: nat, my_rank: nat) returns (roles: seq<Role>)
    requires ValidTopology(t, mpi_size) && t != Star && Wide(t) && my_rank < mpi_size
    ensures roles == UntaggedRoles(t, mpi_size, my_rank)
  {
    var edges := MeshEdges(t, mpi_size, my_rank);
    assert edges != [];
    hide EdgesOf;
    roles := [Role(Dealer, my_rank, edges, [])];
    for i := 0 to |edges|
      invariant roles == [Role(Dealer, my_rank, edges, [])]
                         + seq(i, k requires 0 <= k < |edges| => Role(Edge, edges[k], [], []))
    {
      roles := roles + [Role(Edge, edges[i], [], [])];
    }
  }

  method TopologyRolesInit(t: Topology, mpi_size: nat, my_rank: nat, tokens: nat) returns (roles: seq<Role>)
    requires ValidTopology(t, mpi_size) && Wide(t) && my_rank < mpi_size
    ensures roles == RolesOf(t, mpi_size, my_rank, tokens)
  {
    if t == Star {
      roles := StarRoles(mpi_size, my_rank);
    } else {
      roles := MeshRoles(t, mpi_size, my_rank);
    }
    hide UntaggedRoles, Tags;
    ghost var untagged := roles;
    for i := 0 to |roles|
      invariant |roles| == |untagged|
      invariant forall k | 0 <= k < i :: roles[k] == untagged[k].(tags := Tags(untagged[k].dealer, tokens))
      invariant forall k | i <= k < |roles| :: roles[k] == untagged[k]
    {
      var tags := MakeTags(roles[i].dealer, tokens);
      roles := roles[i := roles[i].(tags := tags)];
    }
  }

  /** Dealing and bouncing agree */

  /** The edge role that faces the e-th edge of a dealer. */
  function Facing(t: Topology, e: nat): nat
    requires t != Star ==> e < |Directions(t)|
  {
    if t == Star then 0 else if e % 2 == 0 then e + 1 else e - 1
  }

  lemma FacingIsOpposite(t: Topology, e: nat)
    requires t != Star && e < |Directions(t)|
    ensures Facing(t, e) < |Directions(t)| && Facing(t, Facing(t, e)) == e
    ensures Directions(t)[Facing(t, e)] == Directions(t)[e].Opposite()
  {}

  /** Every edge of every dealer holds an EDGE role that names the dealer. */
  lemma EdgeNamesDealer(t: Topology, mpi_size: nat, dealer: nat, e: nat)
    requires ValidTopology(t, mpi_size) && Wide(t) && dealer < mpi_size && e < |EdgesOf(t, mpi_size, dealer)|
    ensures var edge, k := EdgesOf(t, mpi_size, dealer)[e], Facing(t, e);
            edge < mpi_size && k < |DealersOf(t, mpi_size, edge)| && DealersOf(t, mpi_size, edge)[k] == dealer
  {
    if t != Star {
      FacingIsOpposite(t, e);
      OppositeReturns(t.mesh, Directions(t)[e], dealer);
    }
  }

  /** Every EDGE role faces an edge of the dealer that it names. */
  lemma DealerNamesEdge(t: Topology, mpi_size: nat, edge: nat, k: nat)
    requires ValidTopology(t, mpi_size) && Wide(t) && edge < mpi_size && k < |DealersOf(t, mpi_size, edge)|
    ensures var dealer := DealersOf(t, mpi_size, edge)[k];
            dealer < mpi_size && edge in EdgesOf(t, mpi_size, dealer)
  {
    if t == Star {
      assert EdgesOf(t, mpi_size, 0)[edge - 1] == edge;
    } else {
      EdgeNamesDealer(t, mpi_size, edge, k);
    }
  }

  /** The same about the roles themselves */

  /** How many of the EDGE roles name the dealer. */
  function Naming(roles: seq<Role>, dealer: nat): nat {
    if roles == [] then 0
    else (if roles[0].kind == Edge && roles[0].dealer == dealer then 1 else 0) + Naming(roles[1..], dealer)
  }

  /** Only the role at index 0, if any, is a DEALER: the rank's own, with its edges. */
  lemma DealerRole(t: Topology, mpi_size: nat, rank: nat, tokens: nat)
    requires ValidTopology(t, mpi_size) && Wide(t) && rank < mpi_size
    ensures var roles := RolesOf(t, mpi_size, rank, tokens);
            && roles != []
            && (forall k | 0 < k < |roles| :: roles[k].kind == Edge)
            && (roles[0].kind == Dealer <==> t != Star || rank == 0)
            && (roles[0].kind == Dealer ==>
                  && roles[0].dealer == rank && roles[0].edges == EdgesOf(t, mpi_size, rank) != []
                  && roles[0].tags == Tags(rank, tokens))
  {
    hide NeighbourRank;
  }

  /** The tags of every role are those of the dealer that it names, one for each token. */
  lemma RoleTags(t: Topology, mpi_size: nat, rank: nat, tokens: nat, k: nat)
    requires ValidTopology(t, mpi_size) && Wide(t) && rank < mpi_size
    requires k < |RolesOf(t, mpi_size, rank, tokens)| && tokens <= 255
    ensures var role := RolesOf(t, mpi_size, rank, tokens)[k];
            && |role.tags| == tokens
            && forall j | 0 <= j < tokens :: role.tags[j] == 256 * role.dealer + (j + 1)
  {
    hide UntaggedRoles, TagOf;
    var role := RolesOf(t, mpi_size, rank, tokens)[k];
    forall j | 0 <= j < tokens ensures role.tags[j] == 256 * role.dealer + (j + 1) { TagIsSum(role.dealer, j); }
  }

  /** A star's dealer deals to all others; on a mesh the edges go one step east, west, north, south, up and down. */
  lemma DealerEdges(t: Topology, mpi_size: nat, rank: nat)
    requires ValidTopology(t, mpi_size) && Wide(t) && rank < mpi_size && (t == Star ==> rank == 0)
    ensures var edges := EdgesOf(t, mpi_size, rank);
            if t == Star then |edges| == mpi_size - 1 && forall j | 0 <= j < |edges| :: edges[j] == j + 1
            else
              var m, p := t.mesh, PointOf(t.mesh, rank);
              && |edges| == (if t.Mesh2D? then 4 else 6)
              && (forall e | 0 <= e < |edges| :: edges[e] < mpi_size)
              && PointOf(m, edges[0]) == p.(x := Torus.Next(p.x, m.xsize))
              && PointOf(m, edges[1]) == p.(x := Torus.Previous(p.x, m.xsize))
              && PointOf(m, edges[2]) == p.(y := Torus.Next(p.y, m.ysize))
              && PointOf(m, edges[3]) == p.(y := Torus.Previous(p.y, m.ysize))
              && (t.Mesh3D? ==>
                    && PointOf(m, edges[4]) == p.(z := Torus.Next(p.z, m.zsize))
                    && PointOf(m, edges[5]) == p.(z := Torus.Previous(p.z, m.zsize)))
  {
    if t != Star {
      RankOfPoint(t.mesh, rank);
      hide Neighbour, PointOf, OnMesh;
      forall e | 0 <= e < |Directions(t)|
        ensures PointOf(t.mesh, EdgesOf(t, mpi_size, rank)[e]) == Moved(t.mesh, Directions(t)[e], PointOf(t.mesh, rank))
      {
        NeighbourMoves(t.mesh, Directions(t)[e], rank);
      }
      assert Directions(t)[0] == East && Directions(t)[1] == West && Directions(t)[2] == North;
      assert Directions(t)[3] == South && (t.Mesh3D? ==> Directions(t)[4] == Up && Directions(t)[5] == Down);
    }
  }

  /** Where the EDGE roles of a rank stand. */
  function FirstEdge(t: Topology, rank: nat): nat {
    if t != Star || rank == 0 then 1 else 0
  }

  lemma EdgeRole(t: Topology, mpi_size: nat, rank: nat, tokens: nat, i: nat)
    requires ValidTopology(t, mpi_size) && Wide(t) && rank < mpi_size && i < |DealersOf(t, mpi_size, rank)|
    ensures var roles, dealers := RolesOf(t, mpi_size, rank, tokens), DealersOf(t, mpi_size, rank);
            && |roles| == FirstEdge(t, rank) + |dealers|
            && roles[FirstEdge(t, rank) + i] == Role(Edge, dealers[i], [], Tags(dealers[i], tokens))
  {
    hide NeighbourRank, Tags;
  }

  /** Every edge of every DEALER role has an EDGE role with that dealer and the same tags. */
  lemma EdgeServes(t: Topology, mpi_size: nat, dealer: nat, tokens: nat, e: nat) returns (k: nat)
    requires ValidTopology(t, mpi_size) && Wide(t) && dealer < mpi_size
    requires RolesOf(t, mpi_size, dealer, tokens) != [] && RolesOf(t, mpi_size, dealer, tokens)[0].kind == Dealer
    requires e < |RolesOf(t, mpi_size, dealer, tokens)[0].edges|
    ensures var role := RolesOf(t, mpi_size, dealer, tokens)[0];
            && role.edges[e] < mpi_size
            && var roles := RolesOf(t, mpi_size, role.edges[e], tokens);
               k < |roles| && roles[k].kind == Edge && roles[k].dealer == dealer && roles[k].tags == role.tags
  {
    hide DealersOf, Tags, RolesOf, UntaggedRoles, Facing, NeighbourRank;
    DealerRole(t, mpi_size, dealer, tokens);
    EdgeNamesDealer(t, mpi_size, dealer, e);
    var edge := EdgesOf(t, mpi_size, dealer)[e];
    EdgeRole(t, mpi_size, edge, tokens, Facing(t, e));
    k := FirstEdge(t, edge) + Facing(t, e);
  }

  /** And every EDGE role names a rank whose DEALER role has it among its edges, with the same tags. */
  lemma EdgeIsServed(t: Topology, mpi_size: nat, rank: nat, tokens: nat, k: nat)
    requires ValidTopology(t, mpi_size) && Wide(t) && rank < mpi_size
    requires k < |RolesOf(t, mpi_size, rank, tokens)| && RolesOf(t, mpi_size, rank, tokens)[k].kind == Edge
    ensures var role := RolesOf(t, mpi_size, rank, tokens)[k];
            && role.dealer < mpi_size
            && var roles := RolesOf(t, mpi_size, role.dealer, tokens);
               roles != [] && roles[0].kind == Dealer && rank in roles[0].edges && roles[0].tags == role.tags
  {
    hide EdgesOf, DealersOf, Tags, NeighbourRank;
    var i := k - FirstEdge(t, rank);
    EdgeIndex(t, mpi_size, rank, tokens, k);
    hide RolesOf, UntaggedRoles;
    EdgeRole(t, mpi_size, rank, tokens, i);
    DealerNamesEdge(t, mpi_size, rank, i);
    DealerRole(t, mpi_size, DealersOf(t, mpi_size, rank)[i], tokens);
    DealersDeal(t, mpi_size, rank, i);
  }

  lemma EdgeIndex(t: Topology, mpi_size: nat, rank: nat, tokens: nat, k: nat)
    requires ValidTopology(t, mpi_size) && Wide(t) && rank < mpi_size
    requires k < |RolesOf(t, mpi_size, rank, tokens)| && RolesOf(t, mpi_size, rank, tokens)[k].kind == Edge
    ensures 0 <= k - FirstEdge(t, rank) < |DealersOf(t, mpi_size, rank)|
  {
    hide NeighbourRank;
  }

  lemma DealersDeal(t: Topology, mpi_size: nat, rank: nat, i: nat)
    requires ValidTopology(t, mpi_size) && Wide(t) && rank < mpi_size && i < |DealersOf(t, mpi_size, rank)|
    ensures t != Star || DealersOf(t, mpi_size, rank)[i] == 0
  {}

  lemma {:induction false} NamingEdges(roles: seq<Role>, dealers: seq<nat>, dealer: nat)
    requires |roles| == |dealers|
    requires forall i | 0 <= i < |roles| :: roles[i].kind == Edge && roles[i].dealer == dealers[i]
    ensures Naming(roles, dealer) == multiset(dealers)[dealer]
  {
    if roles != [] {
      NamingEdges(roles[1..], dealers[1..], dealer);
      assert dealers == [dealers[0]] + dealers[1..];
    }
  }

  /** The EDGE roles of a rank name its dealers. */
  lemma NamingDealers(t: Topology, mpi_size: nat, rank: nat, tokens: nat, dealer: nat)
    requires ValidTopology(t, mpi_size) && Wide(t) && rank < mpi_size
    ensures Naming(RolesOf(t, mpi_size, rank, tokens), dealer) == multiset(DealersOf(t, mpi_size, rank))[dealer]
  {
    hide RolesOf, DealersOf, EdgesOf, Tags;
    var roles, dealers, first := RolesOf(t, mpi_size, rank, tokens), DealersOf(t, mpi_size, rank), FirstEdge(t, rank);
    DealerRole(t, mpi_size, rank, tokens);
    RoleCount(t, mpi_size, rank, tokens);
    forall i | 0 <= i < |dealers| ensures roles[first..][i].kind == Edge && roles[first..][i].dealer == dealers[i] {
      EdgeRole(t, mpi_size, rank, tokens, i);
    }
    NamingEdges(roles[first..], dealers, dealer);
    if first == 0 { assert roles[0..] == roles; }
  }

  lemma RoleCount(t: Topology, mpi_size: nat, rank: nat, tokens: nat)
    requires ValidTopology(t, mpi_size) && Wide(t) && rank < mpi_size
    ensures |RolesOf(t, mpi_size, rank, tokens)| == FirstEdge(t, rank) + |DealersOf(t, mpi_size, rank)|
  {
    hide NeighbourRank;
  }

  /** Where the axes keep the ranks apart, no rank deals to itself. */
  lemma NoSelfEdge(t: Topology, mpi_size: nat, dealer: nat, e: nat)
    requires ValidTopology(t, mpi_size) && Apart(t) && dealer < mpi_size && e < |EdgesOf(t, mpi_size, dealer)|
    ensures EdgesOf(t, mpi_size, dealer)[e] != dealer
  {
    if t != Star { SelfNeighbour(t.mesh, Directions(t)[e], dealer); }
  }

  /** A rank of a wide mesh is its own edge exactly when an axis has size one. */
  lemma SelfEdges(t: Topology, mpi_size: nat, rank: nat)
    requires ValidTopology(t, mpi_size) && t != Star && Wide(t) && rank < mpi_size
    ensures rank !in EdgesOf(t, mpi_size, rank) <==> Apart(t)
  {
    forall e | 0 <= e < |Directions(t)|
      ensures EdgesOf(t, mpi_size, rank)[e] == rank <==> AxisSize(t.mesh, Directions(t)[e]) == 1
    {
      SelfNeighbour(t.mesh, Directions(t)[e], rank);
    }
    assert Directions(t)[0] == East && Directions(t)[2] == North;
    if t.Mesh3D? { assert Directions(t)[4] == Up; }
  }
}
