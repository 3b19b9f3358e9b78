/**
  * The handshake of mpi_latency.c, lines 138-166 and 190-300, over any number of ranks and trials.
  * A ready-mode send is correct only when the matching receive is already posted (section 3.4 of
  * MPI-1.1).  Ranks 0 and 1 exchange a message of the trial's length; the others wait for GO_ON.
  */
module Latency {
  import opened Arithmetic
  import opened Mpi
  import opened Sums

  const READY: nat := 10
  const LATENCY: nat := 12
  const GO_ON: nat := 14

  const PING := Channel(0, 1, LATENCY)
  const PONG := Channel(1, 0, LATENCY)
  const ACK := Channel(1, 0, READY)

  function Go(rank: nat): Channel { Channel(0, rank, GO_ON) }

  /** The number of ranks, and the message length of each trial in turn. */
  datatype Setup = Setup(num_nodes: nat, lengths: seq<nat>) {
    ghost predicate Valid() { num_nodes >= 2 }
  }

  /** A rank: how many calls of doit it has finished, its place in the next, and its posted receive. */
  datatype Rank = Rank(trial: nat, place: nat, posted: bool, latencylen: nat)

  datatype State = State(ranks: seq<Rank>, net: Net)

  /** The number of operations of a rank in one call of doit. */
  function Places(c: Setup, rank: nat): nat
    requires c.Valid()
  {
    if rank == 0 then c.num_nodes + 3 else if rank == 1 then 5 else 1
  }

  function Initial(c: Setup): State {
    State(seq(c.num_nodes, _ => Rank(0, 0, false, 0)), map[])
  }

  /** Past the operation, or the next call. */
  function Onward(c: Setup, rank: nat, r: Rank): Rank
    requires c.Valid()
  {
    if r.place + 1 < Places(c, rank) then r.(place := r.place + 1) else r.(trial := r.trial + 1, place := 0)
  }

  /** What the operation at a place waits for. */
  function Awaited(c: Setup, rank: nat, place: nat): (ch: set<Channel>)
  {
    if rank == 0 then
      if place == 1 then {ACK} else if place == 3 then {PONG} else {}
    else if rank == 1 then
      if place == 2 then {PING} else if place == 4 then {Go(1)} else {}
    else {Go(rank)}
  }

  ghost predicate Enabled(c: Setup, s: State, rank: nat)
    requires c.Valid()
  {
    && rank < c.num_nodes == |s.ranks| && s.ranks[rank].trial < |c.lengths| && s.ranks[rank].place < Places(c, rank)
    && forall ch | ch in Awaited(c, rank, s.ranks[rank].place) :: At(s.net, ch) != []
  }

  function ZeroStep(c: Setup, s: State): State
    requires c.Valid() && |s.ranks| == c.num_nodes && s.ranks[0].trial < |c.lengths|
    requires forall ch | ch in Awaited(c, 0, s.ranks[0].place) :: At(s.net, ch) != []
  {
    var r := s.ranks[0];
    var len, next := c.lengths[r.trial], Onward(c, 0, r);
    if r.place == 0 then      // MPI_Irecv
      s.(ranks := s.ranks[0 := next.(posted := true)])
    else if r.place == 1 then // MPI_Recv of READY
      s.(ranks := s.ranks[0 := next], net := Receive(s.net, ACK))
    else if r.place == 2 then // MPI_Rsend
      s.(ranks := s.ranks[0 := next], net := Send(s.net, PING, Bytes(len)))
    else if r.place == 3 then // MPI_Wait
      s.(ranks := s.ranks[0 := next.(posted := false)], net := Receive(s.net, PONG))
    else                      // MPI_Send of GO_ON to rank place - 3
      s.(ranks := s.ranks[0 := next], net := Send(s.net, Go(r.place - 3), Bytes(0)))
  }

  function OneStep(c: Setup, s: State): State
    requires c.Valid() && |s.ranks| == c.num_nodes && s.ranks[1].trial < |c.lengths| && s.ranks[1].place < 5
    requires forall ch | ch in Awaited(c, 1, s.ranks[1].place) :: At(s.net, ch) != []
  {
    var r := s.ranks[1];
    var next := Onward(c, 1, r);
    if r.place == 0 then      // MPI_Irecv
      s.(ranks := s.ranks[1 := next.(posted := true)])
    else if r.place == 1 then // MPI_Send of READY
      s.(ranks := s.ranks[1 := next], net := Send(s.net, ACK, Bytes(0)))
    else if r.place == 2 then // MPI_Wait and MPI_Get_count
      s.(ranks := s.ranks[1 := next.(posted := false, latencylen := Length(At(s.net, PING)[0]))],
         net := Receive(s.net, PING))
    else if r.place == 3 then // MPI_Rsend
      s.(ranks := s.ranks[1 := next], net := Send(s.net, PONG, Bytes(r.latencylen)))
    else                      // MPI_Recv of GO_ON
      s.(ranks := s.ranks[1 := next], net := Receive(s.net, Go(1)))
  }

  ghost function Apply(c: Setup, s: State, rank: nat): State
    requires c.Valid() && Enabled(c, s, rank)
  {
    if rank == 0 then ZeroStep(c, s)
    else if rank == 1 then OneStep(c, s)
    else s.(ranks := s.ranks[rank := Onward(c, rank, s.ranks[rank])], net := Receive(s.net, Go(rank)))
  }

  /** Invariants */

  /** How often the rank has passed a place. */
  function Past(r: Rank, place: nat): nat {
    r.trial + (if r.place > place then 1 else 0)
  }

  function Zeros(n: int): (r: seq<Message>) {
    if n <= 0 then [] else seq(n, _ => Bytes(0))
  }

  /** The GO_ON messages that a rank has not taken. */
  function Waiting(s: State, rank: nat): int
    requires 0 < rank < |s.ranks|
  {
    Past(s.ranks[0], 3 + rank) - s.ranks[rank].trial
  }

  /** The number of operations that rank 0 and rank 1 have done do not drift apart. */
  predicate Synchronised(z: Rank, o: Rank) {
    && Past(z, 1) <= Past(o, 1)
    && Past(o, 2) <= Past(z, 2)
    && Past(z, 3) <= Past(o, 3)
    && o.trial <= Past(z, 4)
  }

  ghost predicate Local(c: Setup, s: State, rank: nat)
    requires c.Valid() && rank < c.num_nodes == |s.ranks|
  {
    var r := s.ranks[rank];
    && r.trial <= |c.lengths| && r.place < Places(c, rank) && (r.trial == |c.lengths| ==> r.place == 0)
    && (r.posted <==> (rank == 0 && 1 <= r.place <= 3) || (rank == 1 && 1 <= r.place <= 2))
    && (rank == 1 && r.place == 3 ==> r.latencylen == c.lengths[r.trial])
    && (rank > 0 ==> Waiting(s, rank) >= 0 && At(s.net, Go(rank)) == Zeros(Waiting(s, rank)))
  }

  ghost predicate Pair(c: Setup, s: State)
    requires c.Valid() && c.num_nodes == |s.ranks| && s.ranks[0].trial <= |c.lengths| && s.ranks[1].trial <= |c.lengths|
  {
    var z, o := s.ranks[0], s.ranks[1];
    && Synchronised(z, o)
    && At(s.net, ACK) == Zeros(Past(o, 1) - Past(z, 1))
    && (if Past(z, 2) == Past(o, 2) then At(s.net, PING) == []
        else o.trial < |c.lengths| && At(s.net, PING) == [Bytes(c.lengths[o.trial])])
    && (if Past(o, 3) == Past(z, 3) then At(s.net, PONG) == []
        else z.trial < |c.lengths| && At(s.net, PONG) == [Bytes(c.lengths[z.trial])])
  }

  /** No other channel holds anything. */
  ghost predicate Quiet(c: Setup, s: State) {
    forall ch | At(s.net, ch) != [] ::
      ch == ACK || ch == PING || ch == PONG || (ch == Go(ch.dst) && 0 < ch.dst < c.num_nodes)
  }

  ghost predicate Inv(c: Setup, s: State)
    requires c.Valid()
  {
    && |s.ranks| == c.num_nodes
    && (forall r | 0 <= r < c.num_nodes :: Local(c, s, r)) && Local(c, s, 0) && Local(c, s, 1)
    && Pair(c, s) && Quiet(c, s)
  }

  lemma InitialKeeps(c: Setup)
    requires c.Valid()
    ensures Inv(c, Initial(c))
  {}

  /** Ready mode */

  /** The rank is about to send in ready mode, and to whom. */
  predicate SendsReady(rank: nat, place: nat) {
    (rank == 0 && place == 2) || (rank == 1 && place == 3)
  }

  /** At a ready-mode send the receiver's receive is posted, and nothing is there to take it. */
  lemma ReadyModeSafe(c: Setup, s: State, rank: nat)
    requires c.Valid() && Inv(c, s) && rank < 2 && s.ranks[rank].trial < |c.lengths|
    requires SendsReady(rank, s.ranks[rank].place)
    ensures s.ranks[1 - rank].posted && At(s.net, Channel(rank, 1 - rank, LATENCY)) == []
    ensures s.ranks[1 - rank].trial == s.ranks[rank].trial
  {
    assert Local(c, s, 0) && Local(c, s, 1);
  }

  /** The message that a wait takes has the length posted for it. */
  lemma NoTruncation(c: Setup, s: State, rank: nat)
    requires c.Valid() && Inv(c, s) && Enabled(c, s, rank)
    requires (rank == 0 && s.ranks[0].place == 3) || (rank == 1 && s.ranks[1].place == 2)
    ensures At(s.net, Channel(1 - rank, rank, LATENCY)) == [Bytes(c.lengths[s.ranks[rank].trial])]
  {
    assert Local(c, s, 0) && Local(c, s, 1);
    assert (if rank == 0 then PONG else PING) in Awaited(c, rank, s.ranks[rank].place);
  }

  /** Every step keeps the invariants */

  /** Rank 0 steps: every other rank is as it was, except for a GO_ON sent to it. */
  lemma ZeroKeepsPair(c: Setup, s: State)
    requires c.Valid() && Inv(c, s) && Enabled(c, s, 0)
    ensures var t := Apply(c, s, 0);
            Local(c, t, 0) && (t.ranks[1].trial <= |c.lengths| ==> Pair(c, t))
  {
    assert Local(c, s, 0) && Local(c, s, 1);
    var place := s.ranks[0].place;
    if place == 1 { assert ACK in Awaited(c, 0, 1); }
    if place == 3 { assert PONG in Awaited(c, 0, 3); }
  }

  lemma ZeroKeepsOthers(c: Setup, s: State, r: nat)
    requires c.Valid() && Inv(c, s) && Enabled(c, s, 0) && 0 < r < c.num_nodes
    ensures Local(c, Apply(c, s, 0), r)
  {
    assert Local(c, s, 0) && Local(c, s, r);
    hide Pair, Quiet, Enabled;
    var t, place := Apply(c, s, 0), s.ranks[0].place;
    assert t.ranks[r] == s.ranks[r];
    assert At(t.net, Go(r)) == At(s.net, Go(r)) + if place == 3 + r then [Bytes(0)] else [];
    assert Past(t.ranks[0], 3 + r) == Past(s.ranks[0], 3 + r) + if place == 3 + r then 1 else 0;
    hide Apply, At, Past, Awaited;
  }

  lemma OneKeepsPair(c: Setup, s: State)
    requires c.Valid() && Inv(c, s) && Enabled(c, s, 1)
    ensures var t := Apply(c, s, 1);
            Local(c, t, 0) && Local(c, t, 1) && Pair(c, t)
  {
    assert Local(c, s, 0) && Local(c, s, 1);
    var place := s.ranks[1].place;
    if place == 2 { assert PING in Awaited(c, 1, 2); }
    if place == 4 { assert Go(1) in Awaited(c, 1, 4); }
  }

  lemma OtherKeepsLocal(c: Setup, s: State, rank: nat, r: nat)
    requires c.Valid() && Inv(c, s) && Enabled(c, s, rank) && 1 < rank && r < c.num_nodes
    ensures Local(c, Apply(c, s, rank), r)
  {
    assert Local(c, s, rank) && Local(c, s, r);
    hide Pair, Quiet;
    assert Go(rank) in Awaited(c, rank, 0);
  }

  lemma OtherKeepsPair(c: Setup, s: State, rank: nat)
    requires c.Valid() && Inv(c, s) && Enabled(c, s, rank) && 1 < rank
    ensures Pair(c, Apply(c, s, rank)) && Quiet(c, Apply(c, s, rank))
  {
    assert Go(rank) in Awaited(c, rank, 0);
    hide Local, Onward;
  }

  lemma StepKeeps(c: Setup, s: State, rank: nat)
    requires c.Valid() && Inv(c, s) && Enabled(c, s, rank)
    ensures Inv(c, Apply(c, s, rank))
  {
    var t := Apply(c, s, rank);
    assert |t.ranks| == c.num_nodes;
    if rank > 1 {
      OtherKeepsPair(c, s, rank);
      forall r | 0 <= r < c.num_nodes ensures Local(c, t, r) { OtherKeepsLocal(c, s, rank, r); }
    } else {
      QuietKept(c, s, rank);
      if rank == 0 { ZeroKeepsPair(c, s); } else { OneKeepsPair(c, s); }
      forall r | 0 <= r < c.num_nodes ensures Local(c, t, r) {
        if rank == 0 && r > 0 { ZeroKeepsOthers(c, s, r); }
        if rank == 1 && r > 1 { OneKeepsOthers(c, s, r); }
      }
    }
    hide Local, Pair, Quiet, Apply;
  }

  lemma OneKeepsOthers(c: Setup, s: State, r: nat)
    requires c.Valid() && Inv(c, s) && Enabled(c, s, 1) && 1 < r < c.num_nodes
    ensures Local(c, Apply(c, s, 1), r)
  {
    assert Local(c, s, r);
    hide Pair, Quiet;
  }

  lemma QuietKept(c: Setup, s: State, rank: nat)
    requires c.Valid() && Inv(c, s) && Enabled(c, s, rank) && rank < 2
    ensures Quiet(c, Apply(c, s, rank))
  {
    assert Local(c, s, 0) && Local(c, s, 1);
  }

  /** Runs */

  /** The operations that a rank still has to do. */
  function RankLeft(c: Setup, rank: nat, r: Rank): int
    requires c.Valid()
  {
    (|c.lengths| - r.trial) * Places(c, rank) - r.place
  }

  lemma OnwardLeft(c: Setup, rank: nat, r: Rank)
    requires c.Valid() && r.trial <= |c.lengths| && r.place < Places(c, rank) && (r.trial == |c.lengths| ==> r.place == 0)
    ensures RankLeft(c, rank, r) >= 0 && (RankLeft(c, rank, r) == 0 <==> r.trial == |c.lengths|)
    ensures RankLeft(c, rank, Onward(c, rank, r)) == RankLeft(c, rank, r) - 1
  {
    var left, places := |c.lengths| - r.trial, Places(c, rank);
    Distribute(left, -1, places);
    if left > 0 { Grows(1, left, places); }
  }

  /** All ranks have done all trials. */
  ghost predicate Finished(c: Setup, s: State) {
    |s.ranks| == c.num_nodes && forall r | 0 <= r < c.num_nodes :: s.ranks[r].trial == |c.lengths|
  }

  /** Until then some rank can go on. */
  lemma Progress(c: Setup, s: State) returns (rank: nat)
    requires c.Valid() && Inv(c, s) && !Finished(c, s)
    ensures Enabled(c, s, rank)
  {
    var z, o := s.ranks[0], s.ranks[1];
    assert Local(c, s, 0) && Local(c, s, 1);
    if z.trial == o.trial == |c.lengths| {
      rank :| 0 <= rank < c.num_nodes && s.ranks[rank].trial != |c.lengths|;
      assert Local(c, s, rank);
    } else if z.trial < |c.lengths| && forall ch | ch in Awaited(c, 0, z.place) :: At(s.net, ch) != [] {
      rank := 0;
    } else {
      rank := 1;
    }
  }

  function RanksLeft(c: Setup, s: State): (r: seq<nat>)
    requires c.Valid() && |s.ranks| == c.num_nodes
    ensures |r| == c.num_nodes
  {
    seq(c.num_nodes, i requires 0 <= i < c.num_nodes =>
      if RankLeft(c, i, s.ranks[i]) >= 0 then RankLeft(c, i, s.ranks[i]) else 0)
  }

  ghost function Measure(c: Setup, s: State): nat
    requires c.Valid() && |s.ranks| == c.num_nodes
  {
    Sum(RanksLeft(c, s))
  }

  lemma OwnRank(c: Setup, s: State, rank: nat)
    requires c.Valid() && Enabled(c, s, rank)
    ensures var t := Apply(c, s, rank);
            && |t.ranks| == |s.ranks| && (forall r | 0 <= r < |s.ranks| && r != rank :: t.ranks[r] == s.ranks[r])
            && t.ranks[rank].trial == Onward(c, rank, s.ranks[rank]).trial
            && t.ranks[rank].place == Onward(c, rank, s.ranks[rank]).place
  {}

  lemma StepCounts(c: Setup, s: State, rank: nat)
    requires c.Valid() && Inv(c, s) && Enabled(c, s, rank)
    ensures Inv(c, Apply(c, s, rank)) && Measure(c, Apply(c, s, rank)) == Measure(c, s) - 1
  {
    var t := Apply(c, s, rank);
    StepKeeps(c, s, rank);
    OwnRank(c, s, rank);
    assert Local(c, s, rank) && Local(c, t, rank);
    OnwardLeft(c, rank, s.ranks[rank]);
    OnwardLeft(c, rank, t.ranks[rank]);
    hide Apply, Local, Pair, Quiet, Onward, Enabled;
    assert RankLeft(c, rank, t.ranks[rank]) == RankLeft(c, rank, s.ranks[rank]) - 1;
    hide RankLeft;
    OneLess(c, s, t, rank);
  }

  lemma OneLess(c: Setup, s: State, t: State, rank: nat)
    requires c.Valid() && |s.ranks| == |t.ranks| == c.num_nodes && rank < c.num_nodes
    requires forall r | 0 <= r < |s.ranks| && r != rank :: t.ranks[r] == s.ranks[r]
    requires 0 <= RankLeft(c, rank, t.ranks[rank]) == RankLeft(c, rank, s.ranks[rank]) - 1
    ensures Measure(c, t) == Measure(c, s) - 1
  {
    hide RankLeft;
    SumUpdate(RanksLeft(c, s), rank, RankLeft(c, rank, t.ranks[rank]));
    assert RanksLeft(c, t) == RanksLeft(c, s)[rank := RankLeft(c, rank, t.ranks[rank])];
  }

  /** The ranks step in this order and lead from s to t. */
  ghost predicate Leads(c: Setup, s: State, steps: seq<nat>, t: State)
    requires c.Valid()
    decreases |steps|
  {
    if steps == [] then s == t
    else Enabled(c, s, steps[0]) && Leads(c, Apply(c, s, steps[0]), steps[1..], t)
  }

  /** How often rank r takes a GO_ON in a run. */
  ghost function GoOns(c: Setup, s: State, steps: seq<nat>, r: nat): nat
    requires c.Valid()
    decreases |steps|
  {
    if steps == [] || !Enabled(c, s, steps[0]) then 0
    else (if steps[0] == r && Awaited(c, r, s.ranks[r].place) == {Go(r)} then 1 else 0)
         + GoOns(c, Apply(c, s, steps[0]), steps[1..], r)
  }

  lemma {:induction false} RunCounts(c: Setup, s: State, steps: seq<nat>, t: State)
    requires c.Valid() && Inv(c, s) && Leads(c, s, steps, t)
    ensures Inv(c, t) && Measure(c, t) + |steps| == Measure(c, s)
    decreases |steps|
  {
    hide Enabled, Apply, Local, Pair, Quiet, Measure;
    if steps != [] {
      StepCounts(c, s, steps[0]);
      RunCounts(c, Apply(c, s, steps[0]), steps[1..], t);
    }
  }

  /** A rank that GO_ON is sent to ends a call of doit with each that it takes, and only so. */
  lemma {:induction false} RunTakes(c: Setup, s: State, steps: seq<nat>, t: State, r: nat)
    requires c.Valid() && Inv(c, s) && Leads(c, s, steps, t) && 0 < r < c.num_nodes
    ensures |t.ranks| == c.num_nodes && t.ranks[r].trial == s.ranks[r].trial + GoOns(c, s, steps, r)
    decreases |steps|
  {
    if steps != [] {
      StepKeeps(c, s, steps[0]);
      OwnRank(c, s, steps[0]);
      LastPlace(c, s, r);
      hide Enabled, Apply, Local, Pair, Quiet, Awaited;
      RunTakes(c, Apply(c, s, steps[0]), steps[1..], t, r);
    }
  }

  /** A rank waits for GO_ON exactly at the last operation of a call. */
  lemma LastPlace(c: Setup, s: State, r: nat)
    requires c.Valid() && Inv(c, s) && 0 < r < c.num_nodes
    ensures Awaited(c, r, s.ranks[r].place) == {Go(r)} <==> s.ranks[r].place + 1 == Places(c, r)
  {
    assert Local(c, s, r);
    assert PING in {PING};
  }

  function Constant(n: nat, v: nat): seq<nat> { seq(n, _ => v) }

  lemma StartMeasure(c: Setup)
    requires c.Valid()
    ensures Measure(c, Initial(c)) == |c.lengths| * (2 * c.num_nodes + 6)
  {
    var k, n := |c.lengths|, c.num_nodes;
    var left := RanksLeft(c, Initial(c));
    forall i | 0 <= i < n ensures left[i] == k * Places(c, i) {
      assert k * Places(c, i) >= 0;
    }
    assert left == [k * (n + 3), k * 5] + Constant(n - 2, k);
    SumConcat([k * (n + 3), k * 5], Constant(n - 2, k));
    SumConstant(Constant(n - 2, k), k);
    assert Sum([k * (n + 3), k * 5]) == k * (n + 3) + Sum([k * 5]);
    assert Sum([k * 5]) == k * 5 + Sum([]);
    Products(k, n);
  }

  lemma Products(k: nat, n: nat)
    requires n >= 2
    ensures k * (n + 3) + k * 5 + (n - 2) * k == k * (2 * n + 6)
  {}

  /** Nothing is under way between whole trials. */
  lemma NothingLeft(c: Setup, s: State, ch: Channel)
    requires c.Valid() && Inv(c, s) && Finished(c, s)
    ensures At(s.net, ch) == []
  {
    assert Local(c, s, 0) && Local(c, s, 1);
    if 0 < ch.dst < c.num_nodes { assert Local(c, s, ch.dst); }
  }

  /**
    * Every run keeps the invariants and is bounded.  One that cannot go on has finished every trial
    * on every rank, took the same number of operations as any other, gave each rank but 0 exactly one
    * GO_ON for each trial, and left no message behind.
    */
  lemma EveryRun(c: Setup, steps: seq<nat>, t: State)
    requires c.Valid() && Leads(c, Initial(c), steps, t)
    ensures Inv(c, t) && |steps| <= |c.lengths| * (2 * c.num_nodes + 6)
    ensures (forall rank :: !Enabled(c, t, rank)) ==>
              && Finished(c, t) && |steps| == |c.lengths| * (2 * c.num_nodes + 6)
              && (forall r | 0 < r < c.num_nodes :: GoOns(c, Initial(c), steps, r) == |c.lengths|)
              && (forall ch :: At(t.net, ch) == [])
  {
    InitialKeeps(c);
    StartMeasure(c);
    RunCounts(c, Initial(c), steps, t);
    if forall rank :: !Enabled(c, t, rank) {
      if !Finished(c, t) { var rank := Progress(c, t); }
      forall r | 0 < r < c.num_nodes ensures GoOns(c, Initial(c), steps, r) == |c.lengths| {
        RunTakes(c, Initial(c), steps, t, r);
      }
      forall ch ensures At(t.net, ch) == [] { NothingLeft(c, t, ch); }
      NoneLeft(c, t);
    }
  }

  /** In every state of every run, a ready-mode send finds the matching receive posted. */
  lemma EveryReadySend(c: Setup, steps: seq<nat>, t: State, rank: nat)
    requires c.Valid() && Leads(c, Initial(c), steps, t) && Enabled(c, t, rank) && SendsReady(rank, t.ranks[rank].place)
    ensures t.ranks[1 - rank].posted && At(t.net, Channel(rank, 1 - rank, LATENCY)) == []
  {
    EveryRun(c, steps, t);
    ReadyModeSafe(c, t, rank);
  }

  lemma NoneLeft(c: Setup, t: State)
    requires c.Valid() && Inv(c, t) && Finished(c, t)
    ensures Measure(c, t) == 0
  {
    forall r | 0 <= r < c.num_nodes ensures RankLeft(c, r, t.ranks[r]) == 0 {
      assert Local(c, t, r);
      OnwardLeft(c, r, t.ranks[r]);
    }
    SumConstant(RanksLeft(c, t), 0);
  }
}
