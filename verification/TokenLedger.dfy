/**
  * Accounts of the token machine: the bytes under way, the steps and the bounces that the tokens still
  * need, and the reports and exits of the ranks.  Every step is entered in all of them.
  */
module TokenLedger {
  import opened Mpi
  import opened Receives
  import opened Sums
  import opened TokenRoles
  import opened TokenMachine
  import opened TokenSafety
  import C = TokenCycle

  /** What a token's visits to its edges cost */

  datatype Account = BytesUnderWay | StepsLeft | BouncesLeft | BouncesLeftBy(rank: nat)

  /** A visit to edge p of dealer d: its bounces, and the return. */
  function Price(c: Setup, d: nat, a: Account, p: nat, bounces: nat): nat
    requires c.Valid() && c.Deals(d)
  {
    match a
    case BytesUnderWay => 0
    case StepsLeft => bounces + 1
    case BouncesLeft => bounces
    case BouncesLeftBy(rank) => if c.Edge(d, p) == rank then bounces else 0
  }

  /** An edge bounces a token once; a dealer that is its own edge, once in each of those roles. */
  function FullVisit(c: Setup, d: nat, p: nat): nat
    requires c.Valid() && c.Deals(d)
  {
    if c.Edge(d, p) == d then c.Roles(d, d) else 1
  }

  function Prices(c: Setup, d: nat, a: Account): (prices: seq<nat>)
    requires c.Valid() && c.Deals(d)
    ensures |prices| == |c.Edges(d)|
  {
    seq(|c.Edges(d)|, p requires 0 <= p => Price(c, d, a, p, FullVisit(c, d, p)))
  }

  function StartEdge(c: Setup, d: nat, j: nat): (p: nat)
    requires c.Valid() && c.Deals(d)
    ensures p < |c.Edges(d)|
  {
    j % |c.Edges(d)|
  }

  function CyclesPrice(count: nat, prices: seq<nat>): nat {
    count * Sum(prices)
  }

  /**
    * A token's whole life: count cycles, and first a visit to its start edge, where the dealer's own
    * receive is the first of its rank.
    */
  function TokenTotal(c: Setup, d: nat, j: nat, a: Account): nat
    requires c.Valid() && c.Deals(d)
  {
    var start := StartEdge(c, d, j);
    Price(c, d, a, start, if c.Edge(d, start) == d then 0 else 1) + CyclesPrice(c.count, Prices(c, d, a))
  }

  /** What is left in a state */

  function TotalLength(messages: seq<Message>): nat {
    if messages == [] then 0 else Length(messages[0]) + TotalLength(messages[1..])
  }

  /** The bytes of a token's messages, out and back. */
  ghost function TokenBytes(c: Setup, s: State, d: nat, j: nat): nat
    requires c.Valid() && Shaped(c, s) && c.IsToken(d, j)
  {
    var out, home := Outbound(c, d, j, s.Token(d, j)), Inbound(c, d, j, s.Token(d, j));
    TotalLength(At(s.net, out)) + (if home == out then 0 else TotalLength(At(s.net, home)))
  }

  /** The bounces before the token comes back to its dealer. */
  ghost function Pending(c: Setup, s: State, d: nat, j: nat): nat
    requires c.Valid() && Shaped(c, s) && c.IsToken(d, j)
  {
    var out, home := Outbound(c, d, j, s.Token(d, j)), Inbound(c, d, j, s.Token(d, j));
    if out == home then Position(Posted(c, s.posts, home)) else if At(s.net, out) != [] then 1 else 0
  }

  /** The visits after the one that the token is on. */
  ghost function Later(c: Setup, d: nat, j: nat, a: Account, back: nat): nat
    requires c.Valid() && c.IsToken(d, j) && back < c.Trips(d)
  {
    C.Around(Prices(c, d, a), StartEdge(c, d, j) + back + 1, c.Trips(d) - (back + 1))
  }

  ghost function Entry(c: Setup, s: State, d: nat, j: nat, a: Account): nat
    requires c.Valid() && Shaped(c, s) && c.IsToken(d, j)
  {
    if a == BytesUnderWay then TokenBytes(c, s, d, j)
    else
      var back := s.ranks[d].back[j];
      if back >= c.Trips(d) then 0
      else Price(c, d, a, s.Token(d, j).current_edge, Pending(c, s, d, j)) + Later(c, d, j, a, back)
  }

  /** Tables with a row for each rank and an entry for each of its tokens */

  ghost function Row(c: Setup, s: State, d: nat, a: Account): (row: seq<nat>)
    requires c.Valid() && Shaped(c, s) && d < c.mpi_size
    ensures |row| == if c.Deals(d) then c.Tokens() else 0
  {
    if c.Deals(d) then seq(c.Tokens(), j requires 0 <= j < c.Tokens() => Entry(c, s, d, j, a)) else []
  }

  ghost function Table(c: Setup, s: State, a: Account): (rows: seq<seq<nat>>)
    requires c.Valid() && Shaped(c, s)
    ensures |rows| == c.mpi_size
  {
    seq(c.mpi_size, d requires 0 <= d < c.mpi_size => Row(c, s, d, a))
  }

  function TotalRow(c: Setup, d: nat, a: Account): (row: seq<nat>)
    requires c.Valid() && d < c.mpi_size
  {
    if c.Deals(d) then seq(c.Tokens(), j requires 0 <= j => TokenTotal(c, d, j, a)) else []
  }

  /** What all tokens need in their whole lives; no state is looked at. */
  function Total(c: Setup, a: Account): nat
    requires c.Valid()
  {
    TableSum(seq(c.mpi_size, d requires 0 <= d < c.mpi_size => TotalRow(c, d, a)))
  }

  /** A token that a step does not concern. */
  lemma EntryKept(c: Setup, s: State, t: State, d: nat, j: nat, a: Account, tag: nat)
    requires c.Valid() && Shaped(c, s) && Shaped(c, t) && c.IsToken(d, j)
    requires t.Token(d, j) == s.Token(d, j) && t.ranks[d].back[j] == s.ranks[d].back[j] && TagOf(d, j) != tag
    requires SameBut(s.net, t.net, tag) && SamePosts(c, s.posts, t.posts, tag)
    ensures Entry(c, t, d, j, a) == Entry(c, s, d, j, a)
  {
    hide At, Posted, TagOf, EdgesOf, Price, Later, TotalLength, Position;
  }

  lemma TableKept(c: Setup, s: State, t: State, a: Account)
    requires c.Valid() && Shaped(c, s) && Shaped(c, t)
    requires SameTokens(s, t) && SameBut(s.net, t.net, CTRL_WORD_TAG) && t.posts == s.posts
    ensures Table(c, t, a) == Table(c, s, a)
  {
    hide EdgesOf, SameBut, TagOf, Entry;
    forall d | 0 <= d < c.mpi_size ensures Row(c, t, d, a) == Row(c, s, d, a) {
      forall j | c.IsToken(d, j) ensures Entry(c, t, d, j, a) == Entry(c, s, d, j, a) {
        TagsApart(c, d, j, d, j);
        EntryKept(c, s, t, d, j, a, CTRL_WORD_TAG);
      }
    }
    hide Row;
  }

  /** Only one token has other messages or another count, so only its entry changes. */
  lemma TableStep(c: Setup, s: State, t: State, d: nat, j: nat, a: Account)
    requires c.Valid() && Shaped(c, s) && Shaped(c, t) && c.IsToken(d, j)
    requires SameBut(s.net, t.net, TagOf(d, j)) && SamePosts(c, s.posts, t.posts, TagOf(d, j))
    requires forall e: nat, i: nat | c.IsToken(e, i) && (e != d || i != j) ::
               t.Token(e, i) == s.Token(e, i) && t.ranks[e].back[i] == s.ranks[e].back[i]
    ensures TableSum(Table(c, t, a)) == TableSum(Table(c, s, a)) - Entry(c, s, d, j, a) + Entry(c, t, d, j, a)
  {
    hide Entry, SameBut, SamePosts, TagOf, EdgesOf, Shaped, TableSum;
    forall e, i | c.IsToken(e, i) && (e != d || i != j) ensures Entry(c, t, e, i, a) == Entry(c, s, e, i, a) {
      TagsApart(c, e, i, d, j);
      EntryKept(c, s, t, e, i, a, TagOf(d, j));
    }
    RowsStep(c, s, t, d, j, a);
    TableUpdate(Table(c, s, a), d, Row(c, t, d, a), j, Entry(c, t, d, j, a));
  }

  lemma RowsStep(c: Setup, s: State, t: State, d: nat, j: nat, a: Account)
    requires c.Valid() && Shaped(c, s) && Shaped(c, t) && c.IsToken(d, j)
    requires forall e, i | c.IsToken(e, i) && (e != d || i != j) :: Entry(c, t, e, i, a) == Entry(c, s, e, i, a)
    ensures Row(c, t, d, a) == Row(c, s, d, a)[j := Entry(c, t, d, j, a)]
    ensures Table(c, t, a) == Table(c, s, a)[d := Row(c, t, d, a)]
  {
    hide Entry, Shaped, EdgesOf;
    assert Row(c, t, d, a) == Row(c, s, d, a)[j := Entry(c, t, d, j, a)];
    forall e | 0 <= e < c.mpi_size && e != d ensures Row(c, t, e, a) == Row(c, s, e, a) {}
    hide Row;
  }

  /** A token step in the accounts */

  /** What a step takes off an account of steps or bounces. */
  function Weight(a: Account, step: Step): nat {
    if a == StepsLeft || (step.Bounce? && (a == BouncesLeft || a == BouncesLeftBy(step.e))) then 1 else 0
  }

  lemma OneMessage(m: Message)
    ensures TotalLength([m]) == Length(m) && TotalLength([]) == 0
  {
    assert TotalLength([m]) == Length(m) + TotalLength([]);
  }

  /** A token that is not finished has its own length under way. */
  lemma PlacedBytes(c: Setup, s: State, d: nat, j: nat)
    requires c.Valid() && Shaped(c, s) && c.IsToken(d, j) && Placed(c, s, d, j)
    ensures TokenBytes(c, s, d, j) == if s.Token(d, j).status == C.Finished then 0 else c.token_len[j]
  {
    hide At, EdgesOf, TagOf, TotalLength;
    OneMessage(Bytes(c.token_len[j]));
  }

  /** A token that is not finished has trips left, and its edge follows from them. */
  lemma RunningToken(c: Setup, s: State, d: nat, j: nat)
    requires c.Valid() && Shaped(c, s) && c.IsToken(d, j) && RankOk(c, s, d)
    ensures var t, back := s.Token(d, j), s.ranks[d].back[j];
            && (t.status == C.Finished <==> back == c.Trips(d)) && back <= c.Trips(d)
            && (back < c.Trips(d) ==> t.current_edge == (StartEdge(c, d, j) + back) % |c.Edges(d)|)
  {
    hide EdgesOf, TagOf, C.FinishedFlags, C.AllSends;
    var k := |c.Edges(d)|;
    assert C.Accounted(d, k, c.count, j, s.ranks[d].token_obj[j], s.ranks[d].back[j]);
    C.StartStarts(d, j, k);
    C.CycleAccounting(C.Start(d, j, k), k, c.count, s.ranks[d].back[j]);
  }

  lemma BouncePending(c: Setup, s: State, e: nat, d: nat, j: nat)
    requires c.Valid() && Inv(c, s) && Enabled(c, s, Bounce(e, d, j)) && Shaped(c, Apply(c, s, Bounce(e, d, j)))
    requires SameTokens(s, Apply(c, s, Bounce(e, d, j)))
    ensures Pending(c, s, d, j) == Pending(c, Apply(c, s, Bounce(e, d, j)), d, j) + 1
    ensures c.Edge(d, s.Token(d, j).current_edge) == e
  {
    hide TagOf, EdgesOf, TokensOk, Quiet, ControlsOk, At, Posted, Taken, Post, Waiting, EdgeReceives, Position, RankOk;
    TokenFacts(c, s, d, j);
    var out, home, m := Channel(d, e, TagOf(d, j)), Channel(e, d, TagOf(d, j)), Bytes(c.token_len[j]);
    Arrived(c, s, e, d, j);
    BounceShape(c, s, e, d, j);
    if d == e {
      EdgePosts(c, s.posts, d, j, s.Token(d, j), out);
    } else {
      Received(s.net, out, m);
      Sent(Receive(s.net, out), home, m);
    }
  }

  lemma ReturnPending(c: Setup, s: State, d: nat, j: nat)
    requires c.Valid() && Inv(c, s) && Enabled(c, s, Return(d, j)) && Shaped(c, Apply(c, s, Return(d, j)))
    ensures Pending(c, s, d, j) == 0
    ensures var t := Apply(c, s, Return(d, j));
            t.Token(d, j).status != C.Finished ==>
              Pending(c, t, d, j) == FullVisit(c, d, t.Token(d, j).current_edge)
  {
    hide TagOf, EdgesOf, TokensOk, Quiet, ControlsOk, At, Posted, Taken, Post, Waiting, Position, C.Returned, RankOk,
      TokenOk, AfterReturn;
    TokenFacts(c, s, d, j);
    ReturnEffect(c, s, d, j);
    CameBack(c, s, d, j);
    DealerWaitsFirst(c, s, d, j);
  }

  lemma DealerWaitsFirst(c: Setup, s: State, d: nat, j: nat)
    requires c.Valid() && Shaped(c, s) && Enabled(c, s, Return(d, j))
    ensures Position(Posted(c, s.posts, Inbound(c, d, j, s.Token(d, j)))) == 0
  {
    hide TagOf, EdgesOf, At, Posted;
  }

  /** The entry of a token by its returns and the bounces that it waits for. */
  lemma EntryIs(c: Setup, s: State, d: nat, j: nat, a: Account)
    requires c.Valid() && Shaped(c, s) && c.IsToken(d, j) && RankOk(c, s, d) && a != BytesUnderWay
    ensures var back, edge := s.ranks[d].back[j], s.Token(d, j).current_edge;
            if s.Token(d, j).status == C.Finished then back == c.Trips(d) && Entry(c, s, d, j, a) == 0
            else
              && back < c.Trips(d) && edge == (StartEdge(c, d, j) + back) % |c.Edges(d)|
              && Entry(c, s, d, j, a) == Price(c, d, a, edge, Pending(c, s, d, j)) + Later(c, d, j, a, back)
  {
    hide EdgesOf, C.Accounts, StartEdge, Pending, Later, Price, C.Trips;
    RunningToken(c, s, d, j);
  }

  lemma BounceEntry(c: Setup, s: State, e: nat, d: nat, j: nat, a: Account)
    requires c.Valid() && Inv(c, s) && Enabled(c, s, Bounce(e, d, j)) && Inv(c, Apply(c, s, Bounce(e, d, j)))
    requires a != BytesUnderWay
    ensures Entry(c, s, d, j, a) == Entry(c, Apply(c, s, Bounce(e, d, j)), d, j, a) + Weight(a, Bounce(e, d, j))
  {
    hide TagOf, EdgesOf, At, Posted, TokensOk, Quiet, ControlsOk, Placed, Awaited, RankOk, Pending, Later, Entry,
      C.Trips, StartEdge, AfterBounce;
    var t := Apply(c, s, Bounce(e, d, j));
    hide Inv, Apply;
    TokenFacts(c, s, d, j);
    TokenFacts(c, t, d, j);
    BounceShape(c, s, e, d, j);
    Arrived(c, s, e, d, j);
    BouncePending(c, s, e, d, j);
    EntryIs(c, s, d, j, a);
    EntryIs(c, t, d, j, a);
  }

  /** The visits after the next. */
  lemma NextVisit(c: Setup, d: nat, j: nat, a: Account, back: nat)
    requires c.Valid() && c.IsToken(d, j) && back + 1 < c.Trips(d)
    ensures var p := (StartEdge(c, d, j) + (back + 1)) % |c.Edges(d)|;
            Later(c, d, j, a, back) == Price(c, d, a, p, FullVisit(c, d, p)) + Later(c, d, j, a, back + 1)
  {
    hide EdgesOf, StartEdge, Price, FullVisit;
  }

  lemma LastVisit(c: Setup, d: nat, j: nat, a: Account, back: nat)
    requires c.Valid() && c.IsToken(d, j) && back + 1 == c.Trips(d)
    ensures Later(c, d, j, a, back) == 0
  {}

  lemma ReturnBack(c: Setup, s: State, d: nat, j: nat)
    requires c.Valid() && Shaped(c, s) && Enabled(c, s, Return(d, j))
    ensures Apply(c, s, Return(d, j)).ranks[d].back == s.ranks[d].back[j := s.ranks[d].back[j] + 1]
  {
    hide TagOf, EdgesOf, At, Posted, Taken, Post, Send, Receive, C.Returned;
  }

  lemma ReturnEntry(c: Setup, s: State, d: nat, j: nat, a: Account)
    requires c.Valid() && Inv(c, s) && Enabled(c, s, Return(d, j)) && Inv(c, Apply(c, s, Return(d, j)))
    requires a != BytesUnderWay
    ensures Entry(c, s, d, j, a) == Entry(c, Apply(c, s, Return(d, j)), d, j, a) + Weight(a, Return(d, j))
  {
    hide TagOf, EdgesOf, At, Posted, TokensOk, Quiet, ControlsOk, RankOk, TokenOk, Pending, Later, Entry, FullVisit,
      C.Trips, StartEdge, AfterReturn;
    var t := Apply(c, s, Return(d, j));
    hide Inv, Apply;
    TokenFacts(c, s, d, j);
    TokenFacts(c, t, d, j);
    var back := s.ranks[d].back[j];
    ReturnBack(c, s, d, j);
    ReturnPending(c, s, d, j);
    EntryIs(c, s, d, j, a);
    EntryIs(c, t, d, j, a);
    if t.Token(d, j).status != C.Finished { NextVisit(c, d, j, a, back); } else { LastVisit(c, d, j, a, back); }
  }

  /** The accounts of the ranks */

  function BytesSent(s: State): (r: seq<nat>)
    ensures |r| == |s.ranks|
  {
    seq(|s.ranks|, i requires 0 <= i < |s.ranks| => s.ranks[i].bytes_sent)
  }

  function BytesReceived(s: State): (r: seq<nat>)
    ensures |r| == |s.ranks|
  {
    seq(|s.ranks|, i requires 0 <= i < |s.ranks| => s.ranks[i].bytes_recv)
  }

  function Bounced(s: State): (r: seq<nat>)
    ensures |r| == |s.ranks|
  {
    seq(|s.ranks|, i requires 0 <= i < |s.ranks| => s.ranks[i].tokens_bounced)
  }

  function Dealt(s: State): (r: seq<nat>)
    ensures |r| == |s.ranks|
  {
    seq(|s.ranks|, i requires 0 <= i < |s.ranks| => s.ranks[i].tokens_dealt)
  }

  /** Bytes sent are bytes received or under way; bounces made and bounces to come are the same in every state. */
  ghost predicate Balanced(c: Setup, s: State)
    requires c.Valid() && Shaped(c, s)
  {
    && Sum(BytesSent(s)) == Sum(BytesReceived(s)) + TableSum(Table(c, s, BytesUnderWay))
    && Sum(Bounced(s)) + TableSum(Table(c, s, BouncesLeft)) == Total(c, BouncesLeft)
    && forall e | 0 <= e < c.mpi_size :: BounceBalance(c, s, e)
  }

  ghost predicate BounceBalance(c: Setup, s: State, e: nat)
    requires c.Valid() && Shaped(c, s) && e < c.mpi_size
  {
    s.ranks[e].tokens_bounced + TableSum(Table(c, s, BouncesLeftBy(e))) == Total(c, BouncesLeftBy(e))
  }

  /** The reports and exits that a rank still has to make, and the words that must reach it. */
  function RankLeft(c: Setup, s: State, r: nat): nat
    requires r < |s.ranks| == |s.counted|
  {
    (if c.topology == Star then 0
     else (if s.ranks[r].done then 0 else 1) + (if r == 0 || s.counted[r] then 0 else 1))
    + (if s.ranks[r].exited then 0 else 1)
  }

  function RanksLeft(c: Setup, s: State): (r: seq<nat>)
    requires |s.ranks| == |s.counted|
    ensures |r| == |s.ranks|
  {
    seq(|s.ranks|, i requires 0 <= i < |s.ranks| => RankLeft(c, s, i))
  }

  /** How many steps are left. */
  ghost function Measure(c: Setup, s: State): int
    requires c.Valid() && Shaped(c, s)
  {
    TableSum(Table(c, s, StepsLeft)) + Sum(RanksLeft(c, s)) + (c.mpi_size - s.released)
  }

  /** Control steps */

  /** The ranks but one have as much left as before. */
  lemma RankStep(c: Setup, s: State, t: State, k: nat)
    requires |s.ranks| == |t.ranks| == |s.counted| == |t.counted| && k < |s.ranks|
    requires forall r | 0 <= r < |s.ranks| && r != k ::
               t.ranks[r].done == s.ranks[r].done && t.ranks[r].exited == s.ranks[r].exited && t.counted[r] == s.counted[r]
    ensures Sum(RanksLeft(c, t)) == Sum(RanksLeft(c, s)) - RankLeft(c, s, k) + RankLeft(c, t, k)
  {
    assert RanksLeft(c, t) == RanksLeft(c, s)[k := RankLeft(c, t, k)];
    SumUpdate(RanksLeft(c, s), k, RankLeft(c, t, k));
  }

  predicate IsControl(step: Step) {
    !step.Return? && !step.Bounce?
  }

  lemma ControlNet(c: Setup, s: State, step: Step)
    requires c.Valid() && Inv(c, s) && Enabled(c, s, step) && IsControl(step)
    ensures var t := Apply(c, s, step);
            Shaped(c, t) && SameTokens(s, t) && SameBut(s.net, t.net, CTRL_WORD_TAG) && t.posts == s.posts
  {
    hide EdgesOf, TokensOk, Quiet, ControlsOk, TagOf, DealersOf, At, Send, Receive, SameBut;
    SentUnder(s.net, Order(s.released), Word(CTRL_SHUTDOWN));
    match step {
      case Notify(r) => SentUnder(s.net, Notice(r), Word(CTRL_DEALER_DONE));
      case Hear(r) => ReceivedUnder(s.net, Notice(r));
      case Shutdown(r) => ReceivedUnder(s.net, Order(r));
      case _ =>
    }
  }

  lemma ControlSums(c: Setup, s: State, step: Step)
    requires c.Valid() && Shaped(c, s) && Enabled(c, s, step) && IsControl(step)
    ensures var t := Apply(c, s, step);
            BytesSent(t) == BytesSent(s) && BytesReceived(t) == BytesReceived(s) && Bounced(t) == Bounced(s)
  {
    hide EdgesOf, At, Send, Receive, TagOf;
  }

  lemma ControlBalance(c: Setup, s: State, step: Step)
    requires c.Valid() && Inv(c, s) && Enabled(c, s, step) && IsControl(step)
    requires Shaped(c, Apply(c, s, step)) && Balanced(c, s)
    ensures Balanced(c, Apply(c, s, step))
  {
    hide TokensOk, Quiet, ControlsOk, Apply, Enabled, Table, Total, TableSum, Sum, SameTokens, SameBut, EdgesOf;
    var t := Apply(c, s, step);
    ControlNet(c, s, step);
    ControlSums(c, s, step);
    TableKept(c, s, t, BytesUnderWay);
    TableKept(c, s, t, BouncesLeft);
    forall e | 0 <= e < c.mpi_size ensures BounceBalance(c, t, e) {
      assert BounceBalance(c, s, e) && Bounced(t)[e] == Bounced(s)[e];
      TableKept(c, s, t, BouncesLeftBy(e));
    }
  }

  /** A control step leaves one report, exit or release less to do. */
  lemma ControlRank(c: Setup, s: State, step: Step)
    requires c.Valid() && Inv(c, s) && Enabled(c, s, step) && IsControl(step)
    ensures var t := Apply(c, s, step);
            && |t.ranks| == |t.counted| == |s.ranks| == |s.counted|
            && Sum(RanksLeft(c, t)) - t.released == Sum(RanksLeft(c, s)) - s.released - 1
  {
    hide EdgesOf, At, TokensOk, Quiet, ControlsOk;
    if step.Hear? { HearKeeps(c, s, step.r); }
    RankStep(c, s, Apply(c, s, step), if step.Notify? || step.Hear? || step.Shutdown? then step.r else 0);
  }

  lemma ControlCounts(c: Setup, s: State, step: Step)
    requires c.Valid() && Inv(c, s) && Enabled(c, s, step) && IsControl(step)
    requires Shaped(c, Apply(c, s, step))
    ensures Measure(c, Apply(c, s, step)) == Measure(c, s) - 1
  {
    hide EdgesOf, At, TokensOk, Quiet, ControlsOk, SameBut, SameTokens, Table, Enabled, Apply, RanksLeft, Sum;
    ControlNet(c, s, step);
    TableKept(c, s, Apply(c, s, step), StepsLeft);
    ControlRank(c, s, step);
  }

  /** Token steps */

  /** What a token step changes of the ranks. */
  lemma TokenRank(c: Setup, s: State, step: Step)
    requires c.Valid() && Shaped(c, s) && Enabled(c, s, step) && !IsControl(step) && Shaped(c, Apply(c, s, step))
    requires step.Return? ==> At(s.net, Inbound(c, step.d, step.j, s.Token(step.d, step.j))) == [Bytes(c.token_len[step.j])]
    requires step.Bounce? ==> At(s.net, Channel(step.d, step.e, TagOf(step.d, step.j))) == [Bytes(c.token_len[step.j])]
    ensures var t, k, len := Apply(c, s, step), if step.Return? then step.d else step.e, c.token_len[step.j];
            var again := step.Bounce? || t.Token(step.d, step.j).status != C.Finished;
            && BytesSent(t) == BytesSent(s)[k := s.ranks[k].bytes_sent + if again then len else 0]
            && BytesReceived(t) == BytesReceived(s)[k := s.ranks[k].bytes_recv + len]
            && Bounced(t) == Bounced(s)[k := s.ranks[k].tokens_bounced + if step.Bounce? then 1 else 0]
            && t.counted == s.counted && t.released == s.released
            && (forall r | 0 <= r < |s.ranks| :: t.ranks[r].done == s.ranks[r].done && t.ranks[r].exited == s.ranks[r].exited)
            && forall e: nat, i: nat | c.IsToken(e, i) && (e != step.d || i != step.j) ::
                 t.Token(e, i) == s.Token(e, i) && t.ranks[e].back[i] == s.ranks[e].back[i]
  {
    hide EdgesOf, TagOf, At, Posted, Taken, Post, Send, Receive, C.Returned;
  }

  /** The message that a token step takes, and where the step leaves the others. */
  lemma TokenEffect(c: Setup, s: State, step: Step)
    requires c.Valid() && Inv(c, s) && Enabled(c, s, step) && !IsControl(step)
    ensures step.Return? ==> At(s.net, Inbound(c, step.d, step.j, s.Token(step.d, step.j))) == [Bytes(c.token_len[step.j])]
    ensures step.Bounce? ==> At(s.net, Channel(step.d, step.e, TagOf(step.d, step.j))) == [Bytes(c.token_len[step.j])]
    ensures var t := Apply(c, s, step);
            && SameBut(s.net, t.net, TagOf(step.d, step.j)) && SamePosts(c, s.posts, t.posts, TagOf(step.d, step.j))
  {
    hide TagOf, EdgesOf, At, Posted, TokensOk, Quiet, ControlsOk, TokenOk, RankOk, SameBut, SamePosts, AfterReturn,
      AfterBounce;
    TokenFacts(c, s, step.d, step.j);
    if step.Return? {
      ReturnEffect(c, s, step.d, step.j);
      CameBack(c, s, step.d, step.j);
    } else {
      BounceEffect(c, s, step.e, step.d, step.j);
      Arrived(c, s, step.e, step.d, step.j);
    }
  }

  lemma TokenEntry(c: Setup, s: State, step: Step, a: Account)
    requires c.Valid() && Inv(c, s) && Enabled(c, s, step) && !IsControl(step) && Inv(c, Apply(c, s, step))
    requires a != BytesUnderWay
    ensures TableSum(Table(c, s, a)) == TableSum(Table(c, Apply(c, s, step), a)) + Weight(a, step)
  {
    hide TagOf, At, Apply, TokensOk, Quiet, ControlsOk, SameBut, SamePosts, Entry, Table, TableSum, EdgesOf;
    TokenEffect(c, s, step);
    TokenRank(c, s, step);
    TableStep(c, s, Apply(c, s, step), step.d, step.j, a);
    if step.Return? {
      ReturnEntry(c, s, step.d, step.j, a);
    } else {
      BounceEntry(c, s, step.e, step.d, step.j, a);
    }
  }

  lemma TokenBytesStep(c: Setup, s: State, step: Step)
    requires c.Valid() && Inv(c, s) && Enabled(c, s, step) && !IsControl(step) && Inv(c, Apply(c, s, step))
    requires Sum(BytesSent(s)) == Sum(BytesReceived(s)) + TableSum(Table(c, s, BytesUnderWay))
    ensures var t := Apply(c, s, step);
            Sum(BytesSent(t)) == Sum(BytesReceived(t)) + TableSum(Table(c, t, BytesUnderWay))
  {
    hide TagOf, At, TokensOk, Quiet, ControlsOk, Awaited, SameBut, SamePosts, TokenBytes, Table, TableSum, EdgesOf, Sum,
      Placed, RankOk, AfterReturn, AfterBounce;
    var t := Apply(c, s, step);
    TokenFacts(c, s, step.d, step.j);
    TokenFacts(c, t, step.d, step.j);
    hide Apply;
    TokenEffect(c, s, step);
    TokenRank(c, s, step);
    TableStep(c, s, t, step.d, step.j, BytesUnderWay);
    PlacedBytes(c, s, step.d, step.j);
    PlacedBytes(c, t, step.d, step.j);
    if step.Bounce? { BounceShape(c, s, step.e, step.d, step.j); Arrived(c, s, step.e, step.d, step.j); }
    var k := if step.Return? then step.d else step.e;
    SumUpdate(BytesSent(s), k, BytesSent(t)[k]);
    SumUpdate(BytesReceived(s), k, BytesReceived(t)[k]);
  }

  lemma TokenShare(c: Setup, s: State, step: Step, e: nat)
    requires c.Valid() && Inv(c, s) && Enabled(c, s, step) && !IsControl(step) && Inv(c, Apply(c, s, step))
    requires e < c.mpi_size && BounceBalance(c, s, e)
    ensures BounceBalance(c, Apply(c, s, step), e)
  {
    hide TagOf, At, TokensOk, Quiet, ControlsOk, SameBut, SamePosts, Table, TableSum, Total, EdgesOf, AfterReturn,
      AfterBounce;
    var t := Apply(c, s, step);
    hide Apply;
    TokenEffect(c, s, step);
    TokenRank(c, s, step);
    assert Bounced(t)[e] == t.ranks[e].tokens_bounced;
    TokenEntry(c, s, step, BouncesLeftBy(e));
  }

  lemma TokenBounces(c: Setup, s: State, step: Step)
    requires c.Valid() && Inv(c, s) && Enabled(c, s, step) && !IsControl(step) && Inv(c, Apply(c, s, step))
    ensures var t := Apply(c, s, step);
            Sum(Bounced(t)) + TableSum(Table(c, t, BouncesLeft)) == Sum(Bounced(s)) + TableSum(Table(c, s, BouncesLeft))
  {
    hide TagOf, At, TokensOk, Quiet, ControlsOk, SameBut, SamePosts, Table, TableSum, EdgesOf, Sum, AfterReturn,
      AfterBounce;
    var t := Apply(c, s, step);
    hide Apply;
    TokenEffect(c, s, step);
    TokenRank(c, s, step);
    var k := if step.Return? then step.d else step.e;
    SumUpdate(Bounced(s), k, Bounced(t)[k]);
    TokenEntry(c, s, step, BouncesLeft);
  }

  lemma TokenBalance(c: Setup, s: State, step: Step)
    requires c.Valid() && Inv(c, s) && Enabled(c, s, step) && !IsControl(step) && Inv(c, Apply(c, s, step))
    requires Balanced(c, s)
    ensures Balanced(c, Apply(c, s, step))
  {
    hide Enabled, TokensOk, Quiet, ControlsOk, Apply, Table, TableSum, Total, Sum, BounceBalance;
    TokenBytesStep(c, s, step);
    TokenBounces(c, s, step);
    forall e | 0 <= e < c.mpi_size ensures BounceBalance(c, Apply(c, s, step), e) {
      TokenShare(c, s, step, e);
    }
  }

  lemma TokenCounts(c: Setup, s: State, step: Step)
    requires c.Valid() && Inv(c, s) && Enabled(c, s, step) && !IsControl(step) && Inv(c, Apply(c, s, step))
    ensures Measure(c, Apply(c, s, step)) == Measure(c, s) - 1
  {
    hide TagOf, At, Apply, TokensOk, Quiet, ControlsOk, SameBut, SamePosts, Table, TableSum, EdgesOf, Sum;
    TokenEntry(c, s, step, StepsLeft);
    TokenEffect(c, s, step);
    TokenRank(c, s, step);
    assert RanksLeft(c, Apply(c, s, step)) == RanksLeft(c, s);
  }

  /** Every step takes one off the measure and keeps the accounts balanced. */
  lemma StepCounts(c: Setup, s: State, step: Step)
    requires c.Valid() && Inv(c, s) && Enabled(c, s, step)
    ensures Inv(c, Apply(c, s, step))
    ensures Measure(c, Apply(c, s, step)) == Measure(c, s) - 1
    ensures Balanced(c, s) ==> Balanced(c, Apply(c, s, step))
  {
    hide Enabled, Apply, TokensOk, Quiet, ControlsOk, Measure, Balanced;
    StepKeeps(c, s, step);
    if IsControl(step) {
      ControlCounts(c, s, step);
      if Balanced(c, s) { ControlBalance(c, s, step); }
    } else {
      TokenCounts(c, s, step);
      if Balanced(c, s) { TokenBalance(c, s, step); }
    }
  }
}
