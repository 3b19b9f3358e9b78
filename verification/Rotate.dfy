/** The pairing of rotate.c, lines 66-104: in each rotation a lower rank exchanges with an upper one. */
module Rotate {
  /** The processes that take part: an odd last one does not. */
  function Taking(processes: nat): nat {
    if processes % 2 != 0 then processes - 1 else processes
  }

  lemma TakingIs(processes: nat)
    ensures Taking(processes) % 2 == 0 && Taking(processes) <= processes < Taking(processes) + 2
  {}

  function Dest(rank: nat, rotation: nat, size: nat): int {
    var half := size / 2;
    if rank < half then
      (if rank + half + rotation >= size then rank + half + rotation - half else rank + half + rotation)
    else
      (if rank - half - rotation < 0 then rank - half - rotation + half else rank - half - rotation)
  }

  /** The partner is in the other half, and its partner is the rank itself. */
  lemma Partners(rank: nat, rotation: nat, size: nat)
    requires size % 2 == 0 && rank < size && rotation < size / 2
    ensures 0 <= Dest(rank, rotation, size) < size
    ensures rank < size / 2 <==> Dest(rank, rotation, size) >= size / 2
    ensures Dest(rank, rotation, size) != rank && Dest(Dest(rank, rotation, size), rotation, size) == rank
  {
    var half := size / 2;
    assert size == half + half;
  }

  /** The first rotation pairs the ranks half the size apart; each next one moves a lower rank's partner on by one. */
  lemma NextRotation(lower: nat, rotation: nat, size: nat)
    requires size % 2 == 0 && lower < size / 2 && rotation + 1 < size / 2
    ensures Dest(lower, 0, size) == lower + size / 2
    ensures Dest(lower, rotation + 1, size)
         == if Dest(lower, rotation, size) + 1 == size then size / 2 else Dest(lower, rotation, size) + 1
  {
    Partners(lower, rotation, size);
  }

  /** The one rotation in which a lower and an upper rank meet. */
  function Meeting(lower: nat, upper: nat, size: nat): int {
    var half := size / 2;
    if upper - half >= lower then upper - half - lower else upper - lower
  }

  /** Over all rotations, every lower rank meets every upper rank exactly once. */
  lemma MeetOnce(lower: nat, upper: nat, rotation: nat, size: nat)
    requires size % 2 == 0 && lower < size / 2 <= upper < size && rotation < size / 2
    ensures 0 <= Meeting(lower, upper, size) < size / 2
    ensures Dest(lower, rotation, size) == upper <==> rotation == Meeting(lower, upper, size)
    ensures Dest(upper, rotation, size) == lower <==> rotation == Meeting(lower, upper, size)
  {
    var half := size / 2;
    assert size == half + half;
  }

  /** The destinations that a process computes, one for each rotation. */
  method Destinations(rank: nat, processes: nat) returns (dests: seq<int>)
    requires rank < processes && processes >= 2
    ensures var size := Taking(processes);
            && |dests| == size / 2
            && (forall r | 0 <= r < |dests| :: dests[r] == Dest(rank, r, size))
            && (rank < size ==> forall r | 0 <= r < |dests| :: 0 <= dests[r] < size && dests[r] != rank)
  {
    var size := if processes % 2 != 0 then processes - 1 else processes;
    var half_size := size / 2;
    dests := [];
    for rotation := 0 to half_size
      invariant |dests| == rotation
      invariant forall r | 0 <= r < rotation :: dests[r] == Dest(rank, r, size)
      invariant rank < size ==> forall r | 0 <= r < rotation :: 0 <= dests[r] < size && dests[r] != rank
    {
      var dest;
      if rank < half_size {
        dest := rank + half_size + rotation;
        if dest >= size { dest := dest - half_size; }
      } else {
        dest := rank - half_size - rotation;
        if dest < 0 { dest := dest + half_size; }
      }
      if rank < size { Partners(rank, rotation, size); }
      dests := dests + [dest];
    }
  }
}
