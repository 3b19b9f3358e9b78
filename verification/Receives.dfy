/**
  * The receives that a rank has posted for one channel.  Messages complete them in the order of
  * posting (section 3.5 of MPI-1.1): the first message goes to the first of them.
  */
module Receives {
  datatype Receiver = ForDealer | ForEdge

  /** The one receive of the dealer stands at place i. */
  predicate DealerAt(q: seq<Receiver>, i: nat) {
    i < |q| && q[i] == ForDealer && forall k | 0 <= k < |q| && k != i :: q[k] == ForEdge
  }

  /** So many receives of EDGE roles wait in the queue, and perhaps the dealer's. */
  ghost predicate Waiting(q: seq<Receiver>, edges: nat, dealer: bool) {
    if dealer then |q| == edges + 1 && exists i: nat :: DealerAt(q, i)
    else |q| == edges && forall k | 0 <= k < |q| :: q[k] == ForEdge
  }

  /** How many receives stand before the dealer's. */
  function Position(q: seq<Receiver>): (p: nat)
    ensures p <= |q|
  {
    if q == [] || q[0] == ForDealer then 0 else 1 + Position(q[1..])
  }

  lemma {:induction false} PositionAt(q: seq<Receiver>, i: nat)
    requires DealerAt(q, i)
    ensures Position(q) == i
  {
    if i > 0 {
      forall k | 0 <= k < |q[1..]| && k != i - 1 ensures q[1..][k] == ForEdge {
        assert q[1..][k] == q[k + 1];
      }
      PositionAt(q[1..], i - 1);
    }
  }

  /** The dealer's receive takes a message. */
  lemma DealerTakes(q: seq<Receiver>, edges: nat)
    requires Waiting(q, edges, true) && q[0] == ForDealer
    ensures Waiting(q[1..], edges, false) && Position(q) == 0
  {
    var i: nat :| DealerAt(q, i);
    assert i == 0;
    assert forall k | 0 <= k < |q[1..]| :: q[1..][k] == q[k + 1];
  }

  /** The dealer posts its receive behind the others. */
  lemma DealerPosts(q: seq<Receiver>, edges: nat)
    requires Waiting(q, edges, false)
    ensures Waiting(q + [ForDealer], edges, true) && Position(q + [ForDealer]) == edges
  {
    assert DealerAt(q + [ForDealer], |q|);
    PositionAt(q + [ForDealer], |q|);
  }

  /** An edge's receive takes a message and is posted again; the dealer's comes one place nearer. */
  lemma EdgeTakes(q: seq<Receiver>, edges: nat, dealer: bool)
    requires Waiting(q, edges, dealer) && q != [] && q[0] == ForEdge
    ensures edges > 0 && Waiting(q[1..] + [ForEdge], edges, dealer)
    ensures dealer ==> Position(q[1..] + [ForEdge]) + 1 == Position(q)
  {
    var r := q[1..] + [ForEdge];
    assert forall k | 0 <= k < |q| - 1 :: r[k] == q[k + 1];
    if dealer {
      var i: nat :| DealerAt(q, i);
      assert DealerAt(r, i - 1);
      PositionAt(q, i);
      PositionAt(r, i - 1);
    }
  }

  lemma FirstQueue(edges: nat, dealer: bool)
    ensures var q := (if dealer then [ForDealer] else []) + seq(edges, _ => ForEdge);
            Waiting(q, edges, dealer) && Position(q) == if dealer then 0 else edges
  {
    var rest := seq(edges, _ => ForEdge);
    if dealer {
      assert DealerAt([ForDealer] + rest, 0);
    } else {
      assert [] + rest == rest;
      AllEdges(rest);
    }
  }

  lemma {:induction false} AllEdges(q: seq<Receiver>)
    requires forall k | 0 <= k < |q| :: q[k] == ForEdge
    ensures Position(q) == |q|
  {
    if q != [] { AllEdges(q[1..]); }
  }
}
