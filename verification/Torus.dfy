/**
  * The neighbours of a rank on the toroidal mesh (mpi_tokensmash.c, lines 756-856), and what they
  * are on coordinates.  A mesh of two dimensions is one of three whose last size is 1.
  */
module Torus {
  import opened Arithmetic

  /** The sizes given by -x, -y and -z.  The number of ranks is an int. */
  datatype Mesh = Mesh(xsize: nat, ysize: nat, zsize: nat) {
    function Plane(): nat { xsize * ysize }

    function Size(): nat { Plane() * zsize }

    predicate Valid() {
      xsize > 0 && ysize > 0 && zsize > 0 && Size() < 0x8000_0000
    }
  }

  /** The value of an unsigned subtraction. */
  function Wrapped(n: int): (r: nat)
    ensures 0 <= n < 0x1_0000_0000 ==> r == n
  {
    n % 0x1_0000_0000
  }

  function XMinus(m: Mesh, rank: nat): int
    requires m.Valid()
  {
    var xnorm := rank - (rank / m.xsize) * m.xsize;
    if xnorm == 0 then rank + (m.xsize - 1) else rank - 1
  }

  function XPlus(m: Mesh, rank: nat): int
    requires m.Valid()
  {
    var xnorm := rank - (rank / m.xsize) * m.xsize;
    if xnorm == 0 then rank + 1
    else if xnorm == m.xsize - 1 then rank - (m.xsize - 1)
    else rank + 1
  }

  function YPlus(m: Mesh, rank: nat): int
    requires m.Valid()
  {
    var znorm := rank / m.Plane();
    (rank + m.xsize) % m.Plane() + znorm * m.Plane()
  }

  function YMinus(m: Mesh, rank: nat): int
    requires m.Valid()
  {
    var znorm := rank / m.Plane();
    if rank - znorm * m.Plane() < m.xsize then
      Wrapped(m.Plane() - Wrapped(m.xsize - rank))
    else
      rank - m.xsize
  }

  function ZPlus(m: Mesh, rank: nat): int
    requires m.Valid()
  {
    (rank + m.Plane()) % m.Size()
  }

  function ZMinus(m: Mesh, rank: nat): int
    requires m.Valid()
  {
    if rank < m.Plane() then
      Wrapped(m.Size() - Wrapped(m.Plane() - rank))
    else
      rank - m.Plane()
  }

  /** Coordinates */

  datatype Point = Point(x: nat, y: nat, z: nat)

  predicate OnMesh(m: Mesh, p: Point) {
    p.x < m.xsize && p.y < m.ysize && p.z < m.zsize
  }

  function RankOf(m: Mesh, p: Point): nat {
    p.z * m.Plane() + (p.y * m.xsize + p.x)
  }

  function PointOf(m: Mesh, rank: nat): Point
    requires m.Valid()
  {
    Point(rank % m.xsize, (rank % m.Plane()) / m.xsize, rank / m.Plane())
  }

  lemma PlaneBelow(m: Mesh, p: Point)
    requires m.Valid() && OnMesh(m, p)
    ensures p.y * m.xsize + p.x < m.Plane()
    ensures RankOf(m, p) < m.Size()
  {
    Below(m.xsize, p.y, p.x, m.ysize);
    Below(m.Plane(), p.z, p.y * m.xsize + p.x, m.zsize);
  }

  lemma RowOfRank(m: Mesh, p: Point)
    ensures RankOf(m, p) == (p.z * m.ysize + p.y) * m.xsize + p.x
  {
    Distribute(p.z * m.ysize, p.y, m.xsize);
    Regroup(p.z, m.xsize, m.ysize);
    Regroup(p.z, m.ysize, m.xsize);
  }

  lemma PointOfRank(m: Mesh, p: Point)
    requires m.Valid() && OnMesh(m, p)
    ensures PointOf(m, RankOf(m, p)) == p
  {
    var low := p.y * m.xsize + p.x;
    PlaneBelow(m, p);
    RowOfRank(m, p);
    var plane := m.Plane();
    Divided(RankOf(m, p), p.z, plane, low);
    Divided(low, p.y, m.xsize, p.x);
    Divided(RankOf(m, p), p.z * m.ysize + p.y, m.xsize, p.x);
  }

  lemma SameRemainder(m: Mesh, rank: nat)
    requires m.Valid()
    ensures (rank % m.Plane()) % m.xsize == rank % m.xsize
  {
    var low, z := rank % m.Plane(), rank / m.Plane();
    var y, x := low / m.xsize, low % m.xsize;
    Regroup(z, m.ysize, m.xsize);
    Distribute(z * m.ysize, y, m.xsize);
    Regroup(z, m.xsize, m.ysize);
    Divided(rank, z * m.ysize + y, m.xsize, x);
  }

  lemma RankOfPoint(m: Mesh, rank: nat)
    requires m.Valid() && rank < m.Size()
    ensures OnMesh(m, PointOf(m, rank)) && RankOf(m, PointOf(m, rank)) == rank
  {
    var plane := m.Plane();
    var low := rank % plane;
    DivMod(rank, plane);
    DivMod(low, m.xsize);
    SameRemainder(m, rank);
    HighDigit(rank, plane, m.zsize);
    HighDigit(low, m.xsize, m.ysize);
  }

  /** Directions */

  datatype Direction = East | West | North | South | Up | Down {
    function Opposite(): Direction {
      match this
      case East => West
      case West => East
      case North => South
      case South => North
      case Up => Down
      case Down => Up
    }
  }

  function Neighbour(m: Mesh, dir: Direction, rank: nat): int
    requires m.Valid()
  {
    match dir
    case East => XPlus(m, rank)
    case West => XMinus(m, rank)
    case North => YPlus(m, rank)
    case South => YMinus(m, rank)
    case Up => ZPlus(m, rank)
    case Down => ZMinus(m, rank)
  }

  function AxisSize(m: Mesh, dir: Direction): nat {
    match dir
    case East => m.xsize
    case West => m.xsize
    case North => m.ysize
    case South => m.ysize
    case Up => m.zsize
    case Down => m.zsize
  }

  function Next(i: nat, size: nat): nat {
    if i + 1 == size then 0 else i + 1
  }

  function Previous(i: nat, size: nat): nat
    requires size > 0
  {
    if i == 0 then size - 1 else i - 1
  }

  /** The neighbour as a torus has it: one coordinate moves by one and wraps. */
  function Moved(m: Mesh, dir: Direction, p: Point): Point
    requires m.Valid()
  {
    match dir
    case East => p.(x := Next(p.x, m.xsize))
    case West => p.(x := Previous(p.x, m.xsize))
    case North => p.(y := Next(p.y, m.ysize))
    case South => p.(y := Previous(p.y, m.ysize))
    case Up => p.(z := Next(p.z, m.zsize))
    case Down => p.(z := Previous(p.z, m.zsize))
  }

  lemma InRow(m: Mesh, p: Point)
    requires m.Valid() && OnMesh(m, p)
    ensures RankOf(m, p) - (RankOf(m, p) / m.xsize) * m.xsize == p.x
  {
    RowOfRank(m, p);
    Divided(RankOf(m, p), p.z * m.ysize + p.y, m.xsize, p.x);
  }

  lemma AlongX(m: Mesh, p: Point)
    requires m.Valid() && OnMesh(m, p)
    ensures XMinus(m, RankOf(m, p)) == RankOf(m, Moved(m, West, p))
    ensures m.xsize > 1 ==> XPlus(m, RankOf(m, p)) == RankOf(m, Moved(m, East, p))
  {
    InRow(m, p);
  }

  lemma InPlane(m: Mesh, p: Point)
    requires m.Valid() && OnMesh(m, p)
    ensures RankOf(m, p) / m.Plane() == p.z
  {
    PlaneBelow(m, p);
    Divided(RankOf(m, p), p.z, m.Plane(), p.y * m.xsize + p.x);
  }

  /** The next row of a plane, or its first row after its last. */
  lemma NextRow(z: nat, y: nat, x: nat, xsize: nat, ysize: nat)
    requires x < xsize && y < ysize
    ensures (z * (xsize * ysize) + (y * xsize + x) + xsize) % (xsize * ysize) == Next(y, ysize) * xsize + x
  {
    var plane := xsize * ysize;
    var n := z * plane + (y * xsize + x) + xsize;
    Distribute(y, 1, xsize);
    Commutes(xsize, ysize);
    if y + 1 == ysize {
      Distribute(z, 1, plane);
      Below(xsize, 0, x, ysize);
      Divided(n, z + 1, plane, x);
    } else {
      Below(xsize, y + 1, x, ysize);
      Divided(n, z, plane, (y + 1) * xsize + x);
    }
  }

  lemma NorthOf(m: Mesh, p: Point)
    requires m.Valid() && OnMesh(m, p)
    ensures YPlus(m, RankOf(m, p)) == RankOf(m, Moved(m, North, p))
  {
    InPlane(m, p);
    NextRow(p.z, p.y, p.x, m.xsize, m.ysize);
  }

  lemma FirstRow(m: Mesh, p: Point)
    requires m.Valid() && OnMesh(m, p)
    ensures p.y * m.xsize + p.x < m.xsize <==> p.y == 0
  {
    if p.y > 0 { Grows(1, p.y, m.xsize); }
  }

  lemma SouthOf(m: Mesh, p: Point)
    requires m.Valid() && OnMesh(m, p)
    ensures YMinus(m, RankOf(m, p)) == RankOf(m, Moved(m, South, p))
  {
    var rank, plane := RankOf(m, p), m.Plane();
    InPlane(m, p);
    FirstRow(m, p);
    if p.y == 0 {
      PlaneBelow(m, Moved(m, South, p));
      LastRow(m, p);
      UnsignedPair(plane, m.xsize, rank);
    } else {
      Distribute(p.y, -1, m.xsize);
    }
  }

  lemma LastRow(m: Mesh, p: Point)
    requires m.Valid() && OnMesh(m, p) && p.y == 0
    ensures RankOf(m, Moved(m, South, p)) == m.Plane() - m.xsize + RankOf(m, p)
    ensures m.xsize <= m.Plane()
  {
    Distribute(m.ysize, -1, m.xsize);
    Commutes(m.xsize, m.ysize);
    Grows(1, m.ysize, m.xsize);
  }

  /** Two unsigned subtractions that wrap give the sum back. */
  lemma UnsignedPair(a: nat, b: nat, rank: nat)
    requires b <= a && a - b + rank < 0x8000_0000 && b < 0x8000_0000
    ensures Wrapped(a - Wrapped(b - rank)) == a - b + rank
  {}

  lemma UpOf(m: Mesh, p: Point)
    requires m.Valid() && OnMesh(m, p)
    ensures ZPlus(m, RankOf(m, p)) == RankOf(m, Moved(m, Up, p))
  {
    var rank, plane := RankOf(m, p), m.Plane();
    PlaneBelow(m, Moved(m, Up, p));
    Distribute(p.z, 1, plane);
    if p.z + 1 == m.zsize {
      Divided(rank + plane, 1, m.Size(), p.y * m.xsize + p.x);
    } else {
      Divided(rank + plane, 0, m.Size(), rank + plane);
    }
  }

  lemma FirstPlane(m: Mesh, p: Point)
    requires m.Valid() && OnMesh(m, p)
    ensures RankOf(m, p) < m.Plane() <==> p.z == 0
  {
    PlaneBelow(m, p);
    if p.z > 0 { Grows(1, p.z, m.Plane()); }
  }

  lemma DownOf(m: Mesh, p: Point)
    requires m.Valid() && OnMesh(m, p)
    ensures ZMinus(m, RankOf(m, p)) == RankOf(m, Moved(m, Down, p))
  {
    var rank, plane := RankOf(m, p), m.Plane();
    FirstPlane(m, p);
    PlaneBelow(m, Moved(m, Down, p));
    if p.z == 0 {
      Distribute(m.zsize, -1, plane);
      Grows(1, m.zsize, plane);
      UnsignedPair(m.Size(), plane, rank);
    } else {
      Distribute(p.z, -1, plane);
    }
  }

  /** Every neighbour is the torus's, except to the east of a mesh one rank wide. */
  lemma NeighbourMoves(m: Mesh, dir: Direction, rank: nat)
    requires m.Valid() && rank < m.Size() && (dir == East ==> m.xsize > 1)
    ensures 0 <= Neighbour(m, dir, rank) < m.Size()
    ensures PointOf(m, Neighbour(m, dir, rank)) == Moved(m, dir, PointOf(m, rank))
  {
    var p := PointOf(m, rank);
    RankOfPoint(m, rank);
    match dir {
      case East => AlongX(m, p);
      case West => AlongX(m, p);
      case North => NorthOf(m, p);
      case South => SouthOf(m, p);
      case Up => UpOf(m, p);
      case Down => DownOf(m, p);
    }
    PlaneBelow(m, Moved(m, dir, p));
    PointOfRank(m, Moved(m, dir, p));
  }

  /** On such a mesh the eastern neighbour is the next row's rank, or no rank at all. */
  lemma NarrowEast(m: Mesh, rank: nat)
    requires m.Valid() && rank < m.Size()
    ensures (XPlus(m, rank) == RankOf(m, Moved(m, East, PointOf(m, rank)))) <==> m.xsize > 1
    ensures m.xsize == 1 && rank == m.Size() - 1 ==> XPlus(m, rank) >= m.Size()
  {
    RankOfPoint(m, rank);
    var p := PointOf(m, rank);
    if m.xsize > 1 {
      AlongX(m, p);
    } else {
      assert rank / m.xsize == rank;
      assert Moved(m, East, p) == p;
    }
  }

  /** Two steps in opposite directions cancel. */
  lemma OppositeReturns(m: Mesh, dir: Direction, rank: nat)
    requires m.Valid() && rank < m.Size() && m.xsize > 1
    ensures 0 <= Neighbour(m, dir, rank) < m.Size()
    ensures Neighbour(m, dir.Opposite(), Neighbour(m, dir, rank)) == rank
  {
    NeighbourMoves(m, dir, rank);
    var there := Neighbour(m, dir, rank);
    NeighbourMoves(m, dir.Opposite(), there);
    RankOfPoint(m, rank);
    RankOfPoint(m, there);
    RankOfPoint(m, Neighbour(m, dir.Opposite(), there));
  }

  /** A rank is its own neighbour exactly along an axis of size one. */
  lemma SelfNeighbour(m: Mesh, dir: Direction, rank: nat)
    requires m.Valid() && rank < m.Size() && m.xsize > 1
    ensures Neighbour(m, dir, rank) == rank <==> AxisSize(m, dir) == 1
  {
    NeighbourMoves(m, dir, rank);
    RankOfPoint(m, rank);
    RankOfPoint(m, Neighbour(m, dir, rank));
  }

  /** Walking */

  function Walk(m: Mesh, dir: Direction, rank: nat, n: nat): (r: nat)
    requires m.Valid() && m.xsize > 1 && rank < m.Size()
    ensures r < m.Size()
    decreases n
  {
    if n == 0 then rank
    else
      NeighbourMoves(m, dir, Walk(m, dir, rank, n - 1));
      Neighbour(m, dir, Walk(m, dir, rank, n - 1))
  }

  /** The coordinate a direction changes. */
  function Along(dir: Direction, p: Point): nat {
    match dir
    case East => p.x
    case West => p.x
    case North => p.y
    case South => p.y
    case Up => p.z
    case Down => p.z
  }

  predicate Forward(dir: Direction) {
    dir == East || dir == North || dir == Up
  }

  function Place(dir: Direction, p: Point, i: nat): Point {
    match dir
    case East => p.(x := i)
    case West => p.(x := i)
    case North => p.(y := i)
    case South => p.(y := i)
    case Up => p.(z := i)
    case Down => p.(z := i)
  }

  lemma StepAround(i: int, size: nat)
    requires size > 0
    ensures (i + 1) % size == Next(i % size, size)
    ensures (i - 1) % size == Previous(i % size, size)
  {
    var q, r := i / size, i % size;
    assert i == q * size + r;
    Divided(i + 1, if r + 1 == size then q + 1 else q, size, Next(r, size));
    Divided(i - 1, if r == 0 then q - 1 else q, size, Previous(r, size));
  }

  /** n steps move one coordinate by n and leave the others. */
  lemma {:induction false} WalkMoves(m: Mesh, dir: Direction, rank: nat, n: nat)
    requires m.Valid() && m.xsize > 1 && rank < m.Size()
    ensures var p, size := PointOf(m, rank), AxisSize(m, dir);
            PointOf(m, Walk(m, dir, rank, n))
            == Place(dir, p, (if Forward(dir) then Along(dir, p) + n else Along(dir, p) - n) % size)
    decreases n
  {
    var p, size := PointOf(m, rank), AxisSize(m, dir);
    RankOfPoint(m, rank);
    if n == 0 {
      Divided(Along(dir, p), 0, size, Along(dir, p));
    } else {
      WalkMoves(m, dir, rank, n - 1);
      NeighbourMoves(m, dir, Walk(m, dir, rank, n - 1));
      StepAround(if Forward(dir) then Along(dir, p) + (n - 1) else Along(dir, p) - (n - 1), size);
    }
  }

  /** A walk is back where it began after whole turns of its axis, and only then. */
  lemma WalkReturns(m: Mesh, dir: Direction, rank: nat, n: nat)
    requires m.Valid() && m.xsize > 1 && rank < m.Size()
    ensures Walk(m, dir, rank, n) == rank <==> n % AxisSize(m, dir) == 0
  {
    var p, size := PointOf(m, rank), AxisSize(m, dir);
    var i := Along(dir, p);
    WalkMoves(m, dir, rank, n);
    RankOfPoint(m, rank);
    RankOfPoint(m, Walk(m, dir, rank, n));
    Turns(i, n, size);
    assert Walk(m, dir, rank, n) == rank <==> PointOf(m, Walk(m, dir, rank, n)) == p;
  }

  lemma Turns(i: nat, n: nat, size: nat)
    requires i < size
    ensures (i + n) % size == i <==> n % size == 0
    ensures (i - n) % size == i <==> n % size == 0
  {
    var q, r := n / size, n % size;
    assert n == q * size + r;
    if i + r < size {
      Divided(i + n, q, size, i + r);
    } else {
      Divided(i + n, q + 1, size, i + r - size);
    }
    if i >= r {
      Divided(i - n, -q, size, i - r);
    } else {
      Divided(i - n, -q - 1, size, i - r + size);
    }
  }
}
