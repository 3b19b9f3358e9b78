/**
  * The running program of mpi_tokensmash.c, lines 1118-1776, as a system of steps over all ranks,
  * in the mode that counts cycles (walltime == -1).  A channel holds the messages from one rank to
  * another under one tag, in the order sent, and its posted receives, in the order posted (section
  * 3.5 of MPI-1.1).  Any enabled step may be next: a rank may test its receives and do its control
  * checks at any time.
  */
module TokenMachine {
  import opened Mpi
  import opened Receives
  import opened Sums
  import opened TokenRoles
  import C = TokenCycle

  const CTRL_SHUTDOWN: nat := 0xdead_dead
  const CTRL_DEALER_DONE: nat := 0x9999_9999

  /** The options, and who deals to whom */

  datatype Setup = Setup(topology: Topology, mpi_size: nat, token_len: seq<nat>, count: nat) {
    function Tokens(): nat { |token_len| }

    ghost predicate Valid() {
      ValidTopology(topology, mpi_size) && Wide(topology) && |token_len| <= 255 && count < C.WORD
    }

    function Edges(rank: nat): seq<nat>
      requires Valid() && rank < mpi_size
    {
      EdgesOf(topology, mpi_size, rank)
    }

    predicate Deals(rank: nat)
      requires Valid()
    {
      rank < mpi_size && Edges(rank) != []
    }

    /** The number of EDGE roles of a rank that name the dealer. */
    function Roles(rank: nat, dealer: nat): nat
      requires Valid()
    {
      if rank < mpi_size then multiset(DealersOf(topology, mpi_size, rank))[dealer] else 0
    }

    function Edge(dealer: nat, e: nat): nat
      requires Valid() && Deals(dealer)
    {
      if e < |Edges(dealer)| then Edges(dealer)[e] else 0
    }

    predicate IsToken(d: nat, j: int)
      requires Valid()
    {
      Deals(d) && 0 <= j < Tokens()
    }

    function Trips(d: nat): nat
      requires Valid() && Deals(d)
    {
      C.Trips(|Edges(d)|, count)
    }
  }

  /** The machine deals and bounces as the roles say: the edges are those of the DEALER role, the counts those of the EDGE roles. */
  lemma RolesOfRank(c: Setup, rank: nat, dealer: nat)
    requires c.Valid() && rank < c.mpi_size
    ensures var roles := RolesOf(c.topology, c.mpi_size, rank, c.Tokens());
            && roles != []
            && (roles[0].kind == Dealer <==> c.Deals(rank))
            && (c.Deals(rank) ==> roles[0].edges == c.Edges(rank))
            && Naming(roles, dealer) == c.Roles(rank, dealer)
  {
    hide RolesOf, Naming, NeighbourRank;
    DealerRole(c.topology, c.mpi_size, rank, c.Tokens());
    NamingDealers(c.topology, c.mpi_size, rank, c.Tokens(), dealer);
  }

  lemma EdgeFacts(c: Setup, d: nat, e: nat)
    requires c.Valid() && c.Deals(d) && e < |c.Edges(d)|
    ensures c.Edge(d, e) < c.mpi_size && c.Roles(c.Edge(d, e), d) > 0
  {
    EdgeNamesDealer(c.topology, c.mpi_size, d, e);
    assert d in DealersOf(c.topology, c.mpi_size, c.Edge(d, e));
  }

  /** On a star only rank 0 deals; on a mesh every rank does. */
  lemma Dealers(c: Setup, rank: nat)
    requires c.Valid() && rank < c.mpi_size
    ensures c.Deals(rank) <==> c.topology != Star || rank == 0
  {}

  /** State */

  /** A rank; back counts the returns of each token and no step looks at it. */
  datatype Rank = Rank(
    token_obj: seq<C.Token>,
    back: seq<nat>,
    tokens_finished: nat,
    tokens_dealt: nat,
    tokens_bounced: nat,
    bytes_sent: nat,
    bytes_recv: nat,
    done: bool,
    exited: bool)

  /** The posted receives of the channels that a step has changed. */
  type Posts = map<Channel, seq<Receiver>>

  /** The ranks, what rank 0 knows of the other dealers, how far its broadcast has come, messages and receives. */
  datatype State = State(ranks: seq<Rank>, counted: seq<bool>, dealers_finished: nat, released: nat,
                         net: Net, posts: Posts)
  {
    function Token(d: nat, j: nat): C.Token
      requires d < |ranks| && j < |ranks[d].token_obj|
    {
      ranks[d].token_obj[j]
    }
  }

  function Outbound(c: Setup, d: nat, j: nat, t: C.Token): Channel
    requires c.Valid() && c.Deals(d)
  {
    Channel(d, c.Edge(d, t.current_edge), TagOf(d, j))
  }

  function Inbound(c: Setup, d: nat, j: nat, t: C.Token): Channel
    requires c.Valid() && c.Deals(d)
  {
    Channel(c.Edge(d, t.current_edge), d, TagOf(d, j))
  }

  function Notice(rank: nat): Channel { Channel(rank, 0, CTRL_WORD_TAG) }

  function Order(rank: nat): Channel { Channel(0, rank, CTRL_WORD_TAG) }

  /** Posted receives */

  /** How many EDGE receives the tokens of dealer d have on a channel. */
  function EdgeReceives(c: Setup, d: nat, x: Channel): nat
    requires c.Valid()
  {
    if x.src == d then c.Roles(x.dst, d) else 0
  }

  /** The receives posted before the loop, lines 305-445: the dealer's role is the first of its rank. */
  function FirstPosted(c: Setup, x: Channel): seq<Receiver>
    requires c.Valid()
  {
    var d, j := DealerOf(x.tag), TokenOf(x.tag);
    if c.IsToken(d, j) then
      (if x == Inbound(c, d, j, C.Start(d, j, |c.Edges(d)|)) then [ForDealer] else [])
      + seq(EdgeReceives(c, d, x), _ => ForEdge)
    else []
  }

  function Posted(c: Setup, posts: Posts, x: Channel): seq<Receiver>
    requires c.Valid()
  {
    if x in posts then posts[x] else FirstPosted(c, x)
  }

  /** The first receive of a channel has taken a message. */
  function Taken(c: Setup, posts: Posts, x: Channel): Posts
    requires c.Valid() && Posted(c, posts, x) != []
  {
    posts[x := Posted(c, posts, x)[1..]]
  }

  function Post(c: Setup, posts: Posts, x: Channel, r: Receiver): Posts
    requires c.Valid()
  {
    posts[x := Posted(c, posts, x) + [r]]
  }

  /** A message is there, and the first posted receive is of that kind. */
  predicate Matched(c: Setup, s: State, x: Channel, r: Receiver)
    requires c.Valid()
  {
    At(s.net, x) != [] && Posted(c, s.posts, x) != [] && Posted(c, s.posts, x)[0] == r
  }

  /** Steps */

  datatype Step =
    | Return(d: nat, j: nat)
    | Bounce(e: nat, d: nat, j: nat)
    | Notify(r: nat)
    | Hear(r: nat)
    | OwnDone
    | Leave
    | Release
    | Shutdown(r: nat)

  ghost predicate Shaped(c: Setup, s: State)
    requires c.Valid()
  {
    && |s.ranks| == |s.counted| == c.mpi_size
    && forall d | 0 <= d < c.mpi_size ::
         |s.ranks[d].token_obj| == |s.ranks[d].back| == if c.Deals(d) then c.Tokens() else 0
  }

  ghost predicate Enabled(c: Setup, s: State, step: Step)
    requires c.Valid() && Shaped(c, s)
  {
    match step
    case Return(d, j) =>
      && c.IsToken(d, j) && !s.ranks[d].exited && s.Token(d, j).status != C.Finished
      && Matched(c, s, Inbound(c, d, j, s.Token(d, j)), ForDealer)
    case Bounce(e, d, j) =>
      && c.IsToken(d, j) && e < c.mpi_size && !s.ranks[e].exited
      && Matched(c, s, Channel(d, e, TagOf(d, j)), ForEdge)
    case Notify(r) =>
      && c.topology != Star && 0 < r < c.mpi_size && !s.ranks[r].exited
      && s.ranks[r].tokens_finished == c.Tokens() && !s.ranks[r].done
    case Hear(r) =>
      && c.topology != Star && 0 < r < c.mpi_size && !s.ranks[0].exited
      && !s.counted[r] && At(s.net, Notice(r)) != []
    case OwnDone =>
      && c.topology != Star && !s.ranks[0].exited
      && s.ranks[0].tokens_finished == c.Tokens() && !s.ranks[0].done
    case Leave =>
      && !s.ranks[0].exited
      && if c.topology == Star then s.ranks[0].tokens_finished == c.Tokens() else s.dealers_finished == c.mpi_size
    case Release =>
      s.ranks[0].exited && s.released < c.mpi_size
    case Shutdown(r) =>
      0 < r < c.mpi_size && !s.ranks[r].exited && At(s.net, Order(r)) != []
  }

  /** The dealer's receive of token j completes, lines 1213-1431. */
  function AfterReturn(c: Setup, s: State, d: nat, j: nat): State
    requires c.Valid() && c.IsToken(d, j) && d < |s.ranks| && j < |s.ranks[d].token_obj| && j < |s.ranks[d].back|
    requires Matched(c, s, Inbound(c, d, j, s.Token(d, j)), ForDealer)
  {
    var r, ch := s.ranks[d], Inbound(c, d, j, s.Token(d, j));
    var t := C.Returned(r.token_obj[j], |c.Edges(d)|, c.count);
    var again, net, posts := t.status != C.Finished, Receive(s.net, ch), Taken(c, s.posts, ch);
    var rank := r.(
      token_obj := r.token_obj[j := t],
      back := r.back[j := r.back[j] + 1],
      tokens_finished := r.tokens_finished + (if again then 0 else 1),
      tokens_dealt := r.tokens_dealt + (if again then 1 else 0),
      bytes_recv := r.bytes_recv + Length(At(s.net, ch)[0]),
      bytes_sent := r.bytes_sent + (if again then c.token_len[j] else 0));
    s.(ranks := s.ranks[d := rank],
       posts := if again then Post(c, posts, Inbound(c, d, j, t), ForDealer) else posts,
       net := if again then Send(net, Outbound(c, d, j, t), Bytes(c.token_len[j])) else net)
  }

  /** An edge sends a token back to its dealer and posts its receive again, lines 1432-1483. */
  function AfterBounce(c: Setup, s: State, e: nat, d: nat, j: nat): State
    requires c.Valid() && c.IsToken(d, j) && e < |s.ranks|
    requires Matched(c, s, Channel(d, e, TagOf(d, j)), ForEdge)
  {
    var r, ch := s.ranks[e], Channel(d, e, TagOf(d, j));
    var rank := r.(
      tokens_bounced := r.tokens_bounced + 1,
      bytes_recv := r.bytes_recv + Length(At(s.net, ch)[0]),
      bytes_sent := r.bytes_sent + c.token_len[j]);
    s.(ranks := s.ranks[e := rank],
       net := Send(Receive(s.net, ch), Channel(e, d, TagOf(d, j)), Bytes(c.token_len[j])),
       posts := Post(c, Taken(c, s.posts, ch), ch, ForEdge))
  }

  ghost function Apply(c: Setup, s: State, step: Step): State
    requires c.Valid() && Shaped(c, s) && Enabled(c, s, step)
  {
    match step
    case Return(d, j) => AfterReturn(c, s, d, j)
    case Bounce(e, d, j) => AfterBounce(c, s, e, d, j)
    case Notify(r) =>
      s.(ranks := s.ranks[r := s.ranks[r].(done := true)],
         net := Send(s.net, Notice(r), Word(CTRL_DEALER_DONE)))
    case Hear(r) =>
      if At(s.net, Notice(r))[0] == Word(CTRL_DEALER_DONE) then
        s.(counted := s.counted[r := true],
           dealers_finished := s.dealers_finished + 1,
           net := Receive(s.net, Notice(r)))
      else
        s.(net := Receive(s.net, Notice(r)))
    case OwnDone =>
      s.(ranks := s.ranks[0 := s.ranks[0].(done := true)],
         dealers_finished := s.dealers_finished + 1)
    case Leave =>
      s.(ranks := s.ranks[0 := s.ranks[0].(exited := true)])
    case Release =>
      s.(released := s.released + 1,
         net := Send(s.net, Order(s.released), Word(CTRL_SHUTDOWN)))
    case Shutdown(r) =>
      s.(ranks := s.ranks[r := s.ranks[r].(exited := true)],
         net := Receive(s.net, Order(r)))
  }

  /** The state at the barrier before the main loop, lines 1118-1154 */

  function DealTokens(c: Setup, d: nat, n: nat, net: Net): Net
    requires c.Valid() && c.Deals(d) && n <= c.Tokens()
    decreases n
  {
    if n == 0 then net
    else Send(DealTokens(c, d, n - 1, net),
              Outbound(c, d, n - 1, C.Start(d, n - 1, |c.Edges(d)|)),
              Bytes(c.token_len[n - 1]))
  }

  function DealAll(c: Setup, k: nat): Net
    requires c.Valid() && k <= c.mpi_size
    decreases k
  {
    if k == 0 then map[]
    else if c.Deals(k - 1) then DealTokens(c, k - 1, c.Tokens(), DealAll(c, k - 1))
    else DealAll(c, k - 1)
  }

  function StartRank(c: Setup, d: nat): Rank
    requires c.Valid() && d < c.mpi_size
  {
    if c.Deals(d) then
      Rank(seq(c.Tokens(), j requires 0 <= j => C.Start(d, j, |c.Edges(d)|)), seq(c.Tokens(), _ => 0),
           0, c.Tokens(), 0, Sum(c.token_len), 0, false, false)
    else
      Rank([], [], 0, 0, 0, 0, 0, false, false)
  }

  function Initial(c: Setup): State
    requires c.Valid()
  {
    State(seq(c.mpi_size, d requires 0 <= d < c.mpi_size => StartRank(c, d)),
          seq(c.mpi_size, _ => false), 0, 1, DealAll(c, c.mpi_size), map[])
  }

  /** Invariants */

  /** A token that is not finished is in exactly one place, alone: on the way out or on the way back. */
  ghost predicate Placed(c: Setup, s: State, d: nat, j: nat)
    requires c.Valid() && Shaped(c, s) && c.IsToken(d, j)
  {
    var t, m := s.Token(d, j), Bytes(c.token_len[j]);
    if t.status == C.Finished then NoneUnder(s.net, TagOf(d, j))
    else Alone(s.net, Outbound(c, d, j, t), m) || Alone(s.net, Inbound(c, d, j, t), m)
  }

  /** Every EDGE role awaits its dealer's tokens, and the dealer awaits a token where it comes back from. */
  ghost predicate Awaited(c: Setup, s: State, d: nat, j: nat)
    requires c.Valid() && Shaped(c, s) && c.IsToken(d, j)
  {
    forall x: Channel | x.tag == TagOf(d, j) ::
      Waiting(Posted(c, s.posts, x), EdgeReceives(c, d, x), DealerAwaits(c, d, j, s.Token(d, j), x))
  }

  predicate DealerAwaits(c: Setup, d: nat, j: nat, t: C.Token, x: Channel)
    requires c.Valid() && c.Deals(d)
  {
    t.status != C.Finished && x == Inbound(c, d, j, t)
  }

  ghost predicate TokenOk(c: Setup, s: State, d: nat, j: nat)
    requires c.Valid() && Shaped(c, s) && c.IsToken(d, j)
  {
    Placed(c, s, d, j) && Awaited(c, s, d, j)
  }

  /** The channel is one for control words or for a token. */
  predicate Known(c: Setup, ch: Channel)
    requires c.Valid()
  {
    || (exists r: nat | 0 < r < c.mpi_size :: ch == Notice(r) || ch == Order(r))
    || (c.IsToken(DealerOf(ch.tag), TokenOf(ch.tag)) && ch.tag == TagOf(DealerOf(ch.tag), TokenOf(ch.tag)))
  }

  ghost predicate Quiet(c: Setup, s: State)
    requires c.Valid()
  {
    forall ch | At(s.net, ch) != [] :: Known(c, ch)
  }

  ghost predicate RankOk(c: Setup, s: State, d: nat)
    requires c.Valid() && Shaped(c, s) && d < c.mpi_size
  {
    var r := s.ranks[d];
    && (if c.Deals(d) then
          C.Accounts(d, |c.Edges(d)|, c.count, r.token_obj, r.back, r.tokens_finished, r.tokens_dealt)
        else r.tokens_dealt == 0)
    && (r.done ==> c.topology != Star && r.tokens_finished == c.Tokens())
  }

  ghost predicate TokensOk(c: Setup, s: State)
    requires c.Valid() && Shaped(c, s)
  {
    && (forall d | 0 <= d < c.mpi_size :: RankOk(c, s, d))
    && (forall d, j | c.IsToken(d, j) :: TokenOk(c, s, d, j))
  }

  ghost predicate ControlOk(c: Setup, s: State, r: nat)
    requires c.Valid() && Shaped(c, s) && 0 < r < c.mpi_size
  {
    && At(s.net, Notice(r)) == (if s.ranks[r].done && !s.counted[r] then [Word(CTRL_DEALER_DONE)] else [])
    && At(s.net, Order(r)) == (if r < s.released && !s.ranks[r].exited then [Word(CTRL_SHUTDOWN)] else [])
    && (s.counted[r] ==> s.ranks[r].done)
    && (s.ranks[r].exited ==> r < s.released)
  }

  ghost predicate ControlsOk(c: Setup, s: State)
    requires c.Valid() && Shaped(c, s)
  {
    && !s.counted[0] && 1 <= s.released <= c.mpi_size
    && (s.released > 1 ==> s.ranks[0].exited)
    && s.dealers_finished == Count(s.counted) + (if s.ranks[0].done then 1 else 0)
    && (s.ranks[0].exited ==>
          if c.topology == Star then s.ranks[0].tokens_finished == c.Tokens() else s.dealers_finished == c.mpi_size)
    && forall r | 0 < r < c.mpi_size :: ControlOk(c, s, r)
  }

  ghost predicate Inv(c: Setup, s: State)
    requires c.Valid()
  {
    Shaped(c, s) && TokensOk(c, s) && Quiet(c, s) && ControlsOk(c, s)
  }
}
