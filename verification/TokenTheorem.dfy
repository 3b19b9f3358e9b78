/** What holds over every run of the token machine. */
module TokenTheorem {
  import opened Mpi
  import opened Receives
  import opened Sums
  import opened TokenRoles
  import opened TokenMachine
  import opened TokenSafety
  import opened TokenLedger
  import C = TokenCycle

  /** The start */

  /** The channel that token TokenOf(x.tag) of dealer d is first sent on, among the first n tokens. */
  predicate FirstChannel(c: Setup, d: nat, n: nat, x: Channel)
    requires c.Valid() && c.Deals(d)
  {
    var j := TokenOf(x.tag);
    0 <= j < n && x == Outbound(c, d, j, C.Start(d, j, |c.Edges(d)|))
  }

  lemma {:induction false} DealTokensAt(c: Setup, d: nat, n: nat, net: Net, x: Channel)
    requires c.Valid() && c.Deals(d) && n <= c.Tokens()
    requires FirstChannel(c, d, n, x) ==> At(net, x) == []
    ensures At(DealTokens(c, d, n, net), x)
         == if FirstChannel(c, d, n, x) then [Bytes(c.token_len[TokenOf(x.tag)])] else At(net, x)
    decreases n
  {
    hide At, Send, C.Start, TagOf, TokenOf, EdgesOf;
    if n > 0 {
      var j := n - 1;
      var ch := Outbound(c, d, j, C.Start(d, j, |c.Edges(d)|));
      TagsApart(c, d, j, d, j);
      DealTokensAt(c, d, j, net, x);
      AtSend(DealTokens(c, d, j, net), ch, Bytes(c.token_len[j]), x);
    }
  }

  function FirstAt(c: Setup, k: nat, x: Channel): seq<Message>
    requires c.Valid()
  {
    var d := DealerOf(x.tag);
    if d < k && c.Deals(d) && FirstChannel(c, d, c.Tokens(), x) then [Bytes(c.token_len[TokenOf(x.tag)])] else []
  }

  lemma {:induction false} DealAllAt(c: Setup, k: nat, x: Channel)
    requires c.Valid() && k <= c.mpi_size
    ensures At(DealAll(c, k), x) == FirstAt(c, k, x)
    decreases k
  {
    hide C.Start, TagOf, DealerOf, TokenOf, EdgesOf, DealTokens;
    if k > 0 {
      var d := k - 1;
      DealAllAt(c, d, x);
      if c.Deals(d) {
        if FirstChannel(c, d, c.Tokens(), x) { TagsApart(c, d, TokenOf(x.tag), d, TokenOf(x.tag)); }
        hide At, FirstChannel;
        DealTokensAt(c, d, c.Tokens(), DealAll(c, d), x);
        if FirstChannel(c, d, c.Tokens(), x) { FirstDealer(c, d, x); }
      }
    }
  }

  lemma FirstDealer(c: Setup, d: nat, x: Channel)
    requires c.Valid() && c.Deals(d) && FirstChannel(c, d, c.Tokens(), x)
    ensures DealerOf(x.tag) == d
  {
    TagsApart(c, d, TokenOf(x.tag), d, TokenOf(x.tag));
  }

  lemma StartToken(c: Setup, d: nat, j: nat)
    requires c.Valid() && c.IsToken(d, j) && Shaped(c, Initial(c))
    ensures Initial(c).Token(d, j) == C.Start(d, j, |c.Edges(d)|) && Initial(c).ranks[d].back[j] == 0
    ensures Initial(c).Token(d, j).status == C.Running
    ensures Initial(c).Token(d, j).current_edge == StartEdge(c, d, j)
  {
    hide DealAll, EdgesOf, TagOf;
  }

  lemma StartPlaced(c: Setup, d: nat, j: nat)
    requires c.Valid() && c.IsToken(d, j)
    ensures Alone(Initial(c).net, Outbound(c, d, j, C.Start(d, j, |c.Edges(d)|)), Bytes(c.token_len[j]))
  {
    hide DealAll, At, TagOf, DealerOf, TokenOf, EdgesOf, C.Start, StartRank;
    TagsApart(c, d, j, d, j);
    forall x: Channel | x.tag == TagOf(d, j)
      ensures At(Initial(c).net, x)
           == if x == Outbound(c, d, j, C.Start(d, j, |c.Edges(d)|)) then [Bytes(c.token_len[j])] else []
    {
      DealAllAt(c, c.mpi_size, x);
    }
  }

  lemma StartPosted(c: Setup, d: nat, j: nat, x: Channel)
    requires c.Valid() && c.IsToken(d, j) && x.tag == TagOf(d, j)
    ensures var first := x == Inbound(c, d, j, C.Start(d, j, |c.Edges(d)|));
            && Waiting(Posted(c, map[], x), EdgeReceives(c, d, x), first)
            && (first ==> Position(Posted(c, map[], x)) == 0)
  {
    hide TagOf, DealerOf, TokenOf, EdgesOf, C.Start, Waiting, Position, EdgeReceives;
    TagsApart(c, d, j, d, j);
    FirstQueue(EdgeReceives(c, d, x), x == Inbound(c, d, j, C.Start(d, j, |c.Edges(d)|)));
  }

  lemma StartOk(c: Setup, d: nat, j: nat)
    requires c.Valid() && Shaped(c, Initial(c)) && c.IsToken(d, j)
    ensures TokenOk(c, Initial(c), d, j)
  {
    hide TagOf, EdgesOf, C.Start, Waiting, Position, EdgeReceives, Posted, DealAll, Alone, StartRank, At;
    StartToken(c, d, j);
    StartPlaced(c, d, j);
    forall x: Channel | x.tag == TagOf(d, j)
      ensures Waiting(Posted(c, map[], x), EdgeReceives(c, d, x), x == Inbound(c, d, j, C.Start(d, j, |c.Edges(d)|)))
    {
      StartPosted(c, d, j, x);
    }
  }

  lemma StartRankOk(c: Setup, d: nat)
    requires c.Valid() && Shaped(c, Initial(c)) && d < c.mpi_size
    ensures RankOk(c, Initial(c), d)
  {
    hide EdgesOf, DealAll;
    if c.Deals(d) {
      var r := StartRank(c, d);
      C.StartAccounts(d, |c.Edges(d)|, c.count, r.token_obj, r.back);
    }
  }

  lemma StartQuiet(c: Setup)
    requires c.Valid()
    ensures Quiet(c, Initial(c))
  {
    hide DealAll, At, TagOf, DealerOf, TokenOf, EdgesOf, C.Start, StartRank;
    var s := Initial(c);
    forall x | At(s.net, x) != [] ensures Known(c, x) { DealAllAt(c, c.mpi_size, x); }
  }

  lemma {:induction false} NoneTrue(s: seq<bool>)
    requires forall i | 0 <= i < |s| :: !s[i]
    ensures Count(s) == 0
  {
    if s != [] { NoneTrue(s[1..]); }
  }

  /** No control word is under way at the start. */
  lemma NoControls(c: Setup, x: Channel)
    requires c.Valid() && x.tag == CTRL_WORD_TAG
    ensures At(Initial(c).net, x) == []
  {
    hide DealAll, At, TagOf, DealerOf, TokenOf, EdgesOf, C.Start, StartRank;
    DealAllAt(c, c.mpi_size, x);
    var d, j := DealerOf(x.tag), TokenOf(x.tag);
    if c.IsToken(d, j) { TagsApart(c, d, j, d, j); }
  }

  lemma StartFlags(c: Setup, r: nat)
    requires c.Valid() && r < c.mpi_size
    ensures var rank := Initial(c).ranks[r];
            !rank.done && !rank.exited && rank.bytes_recv == 0 && rank.tokens_bounced == 0
  {
    hide DealAll, EdgesOf, C.Start;
  }

  lemma StartControl(c: Setup, r: nat)
    requires c.Valid() && Shaped(c, Initial(c)) && 0 < r < c.mpi_size
    ensures ControlOk(c, Initial(c), r)
  {
    hide DealAll, At, StartRank, EdgesOf;
    NoControls(c, Notice(r));
    NoControls(c, Order(r));
    StartFlags(c, r);
  }

  lemma StartControls(c: Setup)
    requires c.Valid() && Shaped(c, Initial(c))
    ensures ControlsOk(c, Initial(c))
  {
    hide DealAll, At, StartRank, EdgesOf, ControlOk;
    NoneTrue(Initial(c).counted);
    StartFlags(c, 0);
    forall r | 0 < r < c.mpi_size ensures ControlOk(c, Initial(c), r) { StartControl(c, r); }
  }

  lemma StartShaped(c: Setup)
    requires c.Valid()
    ensures Shaped(c, Initial(c))
  {
    hide DealAll, EdgesOf;
  }

  lemma StartKeeps(c: Setup)
    requires c.Valid()
    ensures Inv(c, Initial(c))
  {
    hide Initial, Shaped, Quiet, ControlsOk, RankOk, TokenOk, EdgesOf;
    StartShaped(c);
    StartQuiet(c);
    StartControls(c);
    forall d | 0 <= d < c.mpi_size ensures RankOk(c, Initial(c), d) { StartRankOk(c, d); }
    forall d, j | c.IsToken(d, j) ensures TokenOk(c, Initial(c), d, j) { StartOk(c, d, j); }
  }

  /** Shutdown is safe */

  /** With the first entry false, the others are all true exactly when they number one less than the list. */
  lemma CountOthers(s: seq<bool>)
    requires s != [] && !s[0]
    ensures Count(s) < |s|
    ensures Count(s) + 1 == |s| <==> forall i | 0 < i < |s| :: s[i]
  {
    CountUpdate(s, 0);
    CountAll(s[0 := true]);
    assert forall i | 0 < i < |s| :: s[0 := true][i] == s[i];
  }

  /** Rank 0 leaves the loop only when every dealer is finished and counted. */
  lemma ZeroExited(c: Setup, s: State, d: nat)
    requires c.Valid() && Inv(c, s) && s.ranks[0].exited && c.Deals(d)
    ensures s.ranks[d].tokens_finished == c.Tokens()
  {
    hide EdgesOf, C.Accounts;
    Dealers(c, d);
    assert RankOk(c, s, d);
    if c.topology != Star {
      CountOthers(s.counted);
      if d > 0 { assert ControlOk(c, s, d); }
    }
  }

  /** No rank leaves the main loop before every token of every dealer is finished. */
  lemma SafeShutdown(c: Setup, s: State, r: nat, d: nat, j: nat)
    requires c.Valid() && Inv(c, s) && r < c.mpi_size && s.ranks[r].exited && c.IsToken(d, j)
    ensures s.Token(d, j).status == C.Finished && NoneUnder(s.net, TagOf(d, j))
  {
    hide EdgesOf, TagOf, TokensOk, Quiet, At, RankOk, Awaited;
    if r > 0 { assert ControlOk(c, s, r); }
    ZeroExited(c, s, d);
    TokenFacts(c, s, d, j);
    AllFinished(c, s, d, j);
  }

  lemma AllFinished(c: Setup, s: State, d: nat, j: nat)
    requires c.Valid() && Shaped(c, s) && c.IsToken(d, j) && RankOk(c, s, d)
    requires s.ranks[d].tokens_finished == c.Tokens()
    ensures s.Token(d, j).status == C.Finished
  {
    if s.Token(d, j).status != C.Finished { SomeRunning(c, s, d, j); }
  }

  /** Something can always happen until all ranks have left */

  ghost predicate AllExited(c: Setup, s: State)
    requires c.Valid() && Shaped(c, s)
  {
    s.released == c.mpi_size && forall r | 0 <= r < c.mpi_size :: s.ranks[r].exited
  }

  /** A receive is posted for every message of a token: its dealer's, or that of an edge it is sent to. */
  lemma Taker(c: Setup, s: State, d: nat, j: nat, x: Channel)
    requires c.Valid() && Shaped(c, s) && c.IsToken(d, j) && RankOk(c, s, d) && TokenOk(c, s, d, j)
    requires x.tag == TagOf(d, j) && At(s.net, x) != []
    ensures Posted(c, s.posts, x) != []
    ensures Posted(c, s.posts, x)[0] == ForDealer ==> x == Inbound(c, d, j, s.Token(d, j))
    ensures Posted(c, s.posts, x)[0] == ForEdge ==> x == Channel(d, x.dst, TagOf(d, j)) && x.dst < c.mpi_size
  {
    hide EdgesOf, TagOf, At, Posted, C.Accounts, RankOk;
    CurrentEdge(c, s, d, j);
    var t := s.Token(d, j);
    assert x == Outbound(c, d, j, t) || x == Inbound(c, d, j, t);
    assert Waiting(Posted(c, s.posts, x), EdgeReceives(c, d, x), DealerAwaits(c, d, j, t, x));
  }

  lemma TokenMoves(c: Setup, s: State, d: nat, j: nat) returns (step: Step)
    requires c.Valid() && Inv(c, s) && c.IsToken(d, j) && s.Token(d, j).status != C.Finished
    ensures Enabled(c, s, step)
  {
    hide At, TagOf, EdgesOf, TokensOk, Quiet, ControlsOk, Posted, RankOk, Awaited;
    forall r | 0 <= r < c.mpi_size ensures !s.ranks[r].exited {
      if s.ranks[r].exited { SafeShutdown(c, s, r, d, j); }
    }
    TokenFacts(c, s, d, j);
    var t, m := s.Token(d, j), Bytes(c.token_len[j]);
    var x := if Alone(s.net, Outbound(c, d, j, t), m) then Outbound(c, d, j, t) else Inbound(c, d, j, t);
    Taker(c, s, d, j, x);
    step := if Posted(c, s.posts, x)[0] == ForDealer then Return(d, j) else Bounce(x.dst, d, j);
  }

  lemma CountFinished(tokens: seq<C.Token>)
    requires forall j | 0 <= j < |tokens| :: tokens[j].status == C.Finished
    ensures Count(C.FinishedFlags(tokens)) == |tokens|
  {
    CountAll(C.FinishedFlags(tokens));
  }

  lemma FinishedCount(c: Setup, s: State, d: nat)
    requires c.Valid() && Shaped(c, s) && c.Deals(d) && RankOk(c, s, d)
    requires forall j | 0 <= j < |s.ranks[d].token_obj| :: s.ranks[d].token_obj[j].status == C.Finished
    ensures s.ranks[d].tokens_finished == c.Tokens()
  {
    CountFinished(s.ranks[d].token_obj);
    hide EdgesOf, C.Accounted, C.FinishedFlags, C.AllSends;
  }

  /** Before rank 0 leaves a mesh. */
  lemma MeshMoves(c: Setup, s: State) returns (step: Step)
    requires c.Valid() && Inv(c, s) && c.topology != Star && !s.ranks[0].exited
    requires forall d | 0 <= d < c.mpi_size :: s.ranks[d].tokens_finished == c.Tokens()
    ensures Enabled(c, s, step)
  {
    hide TokensOk, Quiet;
    if r :| 0 < r < c.mpi_size && !s.ranks[r].done {
      assert ControlOk(c, s, r);
      step := Notify(r);
    } else if !s.ranks[0].done {
      step := OwnDone;
    } else if r :| 0 < r < c.mpi_size && !s.counted[r] {
      assert ControlOk(c, s, r);
      step := Hear(r);
    } else {
      CountOthers(s.counted);
      step := Leave;
    }
  }

  /** All tokens are finished: the ranks report and leave. */
  lemma ControlMoves(c: Setup, s: State) returns (step: Step)
    requires c.Valid() && Inv(c, s) && !AllExited(c, s)
    requires forall d: nat | c.Deals(d) :: s.ranks[d].tokens_finished == c.Tokens()
    ensures Enabled(c, s, step)
  {
    hide TokensOk, Quiet, EdgesOf, At;
    forall d | 0 <= d < c.mpi_size ensures c.Deals(d) <==> c.topology != Star || d == 0 { Dealers(c, d); }
    if s.ranks[0].exited {
      if s.released < c.mpi_size {
        step := Release;
      } else {
        var r :| 0 < r < c.mpi_size && !s.ranks[r].exited;
        assert ControlOk(c, s, r);
        step := Shutdown(r);
      }
    } else if c.topology == Star {
      step := Leave;
    } else {
      step := MeshMoves(c, s);
    }
  }

  lemma Progress(c: Setup, s: State) returns (step: Step)
    requires c.Valid() && Inv(c, s) && !AllExited(c, s)
    ensures Enabled(c, s, step)
  {
    hide Enabled, Quiet, ControlsOk, TokenOk, RankOk, EdgesOf;
    if d, j :| c.IsToken(d, j) && s.Token(d, j).status != C.Finished {
      step := TokenMoves(c, s, d, j);
    } else {
      forall d: nat | c.Deals(d) ensures s.ranks[d].tokens_finished == c.Tokens() {
        forall j | 0 <= j < c.Tokens() ensures s.ranks[d].token_obj[j].status == C.Finished {
          assert c.IsToken(d, j) && s.Token(d, j) == s.ranks[d].token_obj[j];
        }
        assert RankOk(c, s, d);
        FinishedCount(c, s, d);
      }
      step := ControlMoves(c, s);
    }
  }

  /** The accounts at the start */

  lemma StartPending(c: Setup, d: nat, j: nat)
    requires c.Valid() && Shaped(c, Initial(c)) && c.IsToken(d, j)
    ensures Pending(c, Initial(c), d, j) == if c.Edge(d, StartEdge(c, d, j)) == d then 0 else 1
  {
    hide TagOf, EdgesOf, C.Start, Waiting, Position, EdgeReceives, Posted, DealAll, StartRank, At, StartEdge;
    StartToken(c, d, j);
    StartPlaced(c, d, j);
    StartPosted(c, d, j, Inbound(c, d, j, C.Start(d, j, |c.Edges(d)|)));
  }

  lemma StartEntry(c: Setup, d: nat, j: nat, a: Account)
    requires c.Valid() && Shaped(c, Initial(c)) && c.IsToken(d, j) && a != BytesUnderWay
    ensures Entry(c, Initial(c), d, j, a) == TokenTotal(c, d, j, a)
  {
    hide TagOf, EdgesOf, Initial, Pending, StartEdge, Price;
    StartToken(c, d, j);
    StartPending(c, d, j);
    C.WholeTurns(Prices(c, d, a), StartEdge(c, d, j) + 1, c.count);
  }

  lemma StartTable(c: Setup, a: Account)
    requires c.Valid() && Shaped(c, Initial(c)) && a != BytesUnderWay
    ensures TableSum(Table(c, Initial(c), a)) == Total(c, a)
  {
    hide TagOf, EdgesOf, Initial, Entry, TokenTotal, TableSum;
    forall d | 0 <= d < c.mpi_size ensures Row(c, Initial(c), d, a) == TotalRow(c, d, a) {
      forall j | c.IsToken(d, j) ensures Entry(c, Initial(c), d, j, a) == TokenTotal(c, d, j, a) {
        StartEntry(c, d, j, a);
      }
    }
    hide Row, TotalRow;
    assert Table(c, Initial(c), a) == seq(c.mpi_size, d requires 0 <= d < c.mpi_size => TotalRow(c, d, a));
  }

  lemma StartBytes(c: Setup, d: nat)
    requires c.Valid() && Inv(c, Initial(c)) && d < c.mpi_size
    ensures Sum(Row(c, Initial(c), d, BytesUnderWay)) == Initial(c).ranks[d].bytes_sent
  {
    hide EdgesOf, DealAll, TagOf, TokensOk, Quiet, ControlsOk, RankOk, TokenOk, TokenBytes, C.Start;
    var s := Initial(c);
    if c.Deals(d) {
      forall j | 0 <= j < c.Tokens() ensures Entry(c, s, d, j, BytesUnderWay) == c.token_len[j] {
        TokenFacts(c, s, d, j);
        StartToken(c, d, j);
        StartLength(c, d, j);
      }
      assert Row(c, s, d, BytesUnderWay) == c.token_len;
    }
  }

  lemma StartLength(c: Setup, d: nat, j: nat)
    requires c.Valid() && Shaped(c, Initial(c)) && c.IsToken(d, j) && TokenOk(c, Initial(c), d, j)
    ensures TokenBytes(c, Initial(c), d, j) == c.token_len[j]
  {
    hide Initial, EdgesOf, TagOf, Placed, Awaited, TokenBytes;
    StartToken(c, d, j);
    PlacedBytes(c, Initial(c), d, j);
  }

  /** The bytes dealt before the loop are all under way, and nothing has been bounced. */
  lemma StartBalanced(c: Setup)
    requires c.Valid()
    ensures Inv(c, Initial(c)) && Balanced(c, Initial(c))
  {
    hide Row, Inv, EdgesOf, Initial, Table, Total, TableSum, Sum;
    StartKeeps(c);
    var s := Initial(c);
    StartShaped(c);
    StartSums(c);
    StartTable(c, BouncesLeft);
    forall e | 0 <= e < c.mpi_size ensures BounceBalance(c, s, e) {
      StartFlags(c, e);
      StartTable(c, BouncesLeftBy(e));
    }
  }

  lemma StartSums(c: Setup)
    requires c.Valid() && Inv(c, Initial(c)) && Shaped(c, Initial(c))
    ensures var s := Initial(c);
            && Sum(BytesReceived(s)) == 0 && Sum(Bounced(s)) == 0
            && Sum(BytesSent(s)) == TableSum(Table(c, s, BytesUnderWay))
  {
    hide Row, Inv, EdgesOf, Initial, Sum, Shaped;
    var s := Initial(c);
    StartCount(c);
    forall d | 0 <= d < c.mpi_size
      ensures BytesReceived(s)[d] == 0 && Bounced(s)[d] == 0
      ensures Sum(Row(c, s, d, BytesUnderWay)) == s.ranks[d].bytes_sent
    {
      StartFlags(c, d);
      StartBytes(c, d);
    }
    SumConstant(BytesReceived(s), 0);
    SumConstant(Bounced(s), 0);
    assert RowSums(Table(c, s, BytesUnderWay)) == BytesSent(s);
  }

  lemma StartCount(c: Setup)
    requires c.Valid()
    ensures |Initial(c).ranks| == |Initial(c).counted| == c.mpi_size && Initial(c).released == 1
    ensures forall r | 0 <= r < c.mpi_size :: !Initial(c).counted[r]
  {
    hide EdgesOf, DealAll;
  }

  /** The number of steps of a whole run: the steps of every token, the reports and the exits. */
  function AllSteps(c: Setup): nat
    requires c.Valid()
  {
    Total(c, StepsLeft) + if c.topology == Star then 2 * c.mpi_size - 1 else 4 * c.mpi_size - 2
  }

  lemma {:induction false} SumFirst(s: seq<nat>, first: nat, v: nat)
    requires s != [] && s[0] == first && forall i | 0 < i < |s| :: s[i] == v
    ensures Sum(s) == first + (|s| - 1) * v
  {
    SumConstant(s[1..], v);
  }

  lemma StartRanks(c: Setup)
    requires c.Valid() && |Initial(c).ranks| == |Initial(c).counted|
    ensures Sum(RanksLeft(c, Initial(c))) == if c.topology == Star then c.mpi_size else 3 * c.mpi_size - 1
  {
    hide Initial, EdgesOf, Sum;
    var ranks := RanksLeft(c, Initial(c));
    StartCount(c);
    forall d | 0 <= d < c.mpi_size ensures ranks[d] == if c.topology == Star then 1 else if d == 0 then 2 else 3 {
      StartFlags(c, d);
    }
    hide RanksLeft;
    SumFirst(ranks, if c.topology == Star then 1 else 2, if c.topology == Star then 1 else 3);
  }

  lemma StartMeasure(c: Setup)
    requires c.Valid() && Shaped(c, Initial(c))
    ensures Measure(c, Initial(c)) == AllSteps(c)
  {
    hide TableSum, Sum, Table, RanksLeft, EdgesOf, Initial, Total;
    StartCount(c);
    StartTable(c, StepsLeft);
    StartRanks(c);
  }

  /** Runs */

  /** The steps lead from s to t. */
  ghost predicate Leads(c: Setup, s: State, steps: seq<Step>, t: State)
    requires c.Valid()
    decreases |steps|
  {
    if steps == [] then s == t
    else Shaped(c, s) && Enabled(c, s, steps[0]) && Leads(c, Apply(c, s, steps[0]), steps[1..], t)
  }

  lemma {:induction false} RunCounts(c: Setup, s: State, steps: seq<Step>, t: State)
    requires c.Valid() && Inv(c, s) && Balanced(c, s) && Leads(c, s, steps, t)
    ensures Inv(c, t) && Balanced(c, t)
    ensures Measure(c, t) + |steps| == Measure(c, s)
    decreases |steps|
  {
    hide Enabled, Apply, TokensOk, Quiet, ControlsOk, Measure, Balanced;
    if steps != [] {
      StepCounts(c, s, steps[0]);
      RunCounts(c, Apply(c, s, steps[0]), steps[1..], t);
    }
  }

  /** No run takes more steps than that, and in each state it meets the invariants hold. */
  lemma EveryRun(c: Setup, steps: seq<Step>, t: State)
    requires c.Valid() && Leads(c, Initial(c), steps, t)
    ensures Inv(c, t) && Balanced(c, t)
    ensures |steps| + Measure(c, t) == AllSteps(c) && Measure(c, t) >= 0
  {
    hide Leads, Initial, Balanced, AllSteps, TokensOk, Quiet, Table, RanksLeft, EdgesOf;
    StartBalanced(c);
    StartMeasure(c);
    RunCounts(c, Initial(c), steps, t);
  }

  ghost predicate Stuck(c: Setup, t: State)
    requires c.Valid() && Shaped(c, t)
  {
    forall step :: !Enabled(c, t, step)
  }

  /** What a run that cannot go on has done. */
  ghost predicate Complete(c: Setup, t: State)
    requires c.Valid() && Shaped(c, t)
  {
    && AllExited(c, t)
    && (forall d, j | c.IsToken(d, j) :: t.Token(d, j).status == C.Finished)
    && (forall d: nat | c.Deals(d) :: t.ranks[d].tokens_dealt == c.Tokens() * c.Trips(d))
    && (forall e | 0 <= e < c.mpi_size :: t.ranks[e].tokens_bounced == Total(c, BouncesLeftBy(e)))
    && Sum(Bounced(t)) == Total(c, BouncesLeft)
    && (Apart(c.topology) ==> Sum(Bounced(t)) == Sum(Dealt(t)))
    && Sum(BytesSent(t)) == Sum(BytesReceived(t))
    && forall x :: At(t.net, x) == []
  }

  /**
    * Every run that cannot go on has ended well: all ranks have left, every token is finished, each
    * dealer has dealt each token once for every trip, each edge has bounced what came to it, no message
    * is left and every byte sent was received.  All such runs take the same number of steps, whatever
    * their order.
    */
  lemma EveryRunCompletes(c: Setup, steps: seq<Step>, t: State)
    requires c.Valid() && Leads(c, Initial(c), steps, t) && Shaped(c, t) && Stuck(c, t)
    ensures Complete(c, t) && |steps| == AllSteps(c)
  {
    hide Leads, Initial, AllSteps, Enabled, Inv, Balanced, Measure, Complete, EdgesOf;
    EveryRun(c, steps, t);
    if !AllExited(c, t) { var step := Progress(c, t); }
    EndedWell(c, t);
  }

  lemma EndedWell(c: Setup, t: State)
    requires c.Valid() && Inv(c, t) && Balanced(c, t) && AllExited(c, t)
    ensures Complete(c, t) && Measure(c, t) == 0
  {
    hide EdgesOf, TokensOk, Quiet, ControlsOk, AllExited, Table, TableSum, Total, Sum, RankOk, TokenOk, At, Apart;
    forall d: nat, j: nat | c.IsToken(d, j) ensures t.Token(d, j).status == C.Finished { TokenEnded(c, t, d, j); }
    forall d: nat | d < c.mpi_size ensures t.ranks[d].tokens_dealt == if c.Deals(d) then c.Tokens() * c.Trips(d) else 0 {
      AllDealt(c, t, d);
    }
    forall x ensures At(t.net, x) == [] { NothingLeft(c, t, x); }
    TableEmpty(c, t, BytesUnderWay);
    TableEmpty(c, t, StepsLeft);
    TableEmpty(c, t, BouncesLeft);
    forall e | 0 <= e < c.mpi_size ensures t.ranks[e].tokens_bounced == Total(c, BouncesLeftBy(e)) {
      assert BounceBalance(c, t, e);
      TableEmpty(c, t, BouncesLeftBy(e));
    }
    AllReported(c, t);
    if Apart(c.topology) { AllDealtBounced(c, t); }
    assert AllExited(c, t) && t.released == c.mpi_size by { AllReleased(c, t); }
  }

  lemma AllReleased(c: Setup, t: State)
    requires c.Valid() && Shaped(c, t) && AllExited(c, t)
    ensures t.released == c.mpi_size
  {}

  lemma TokenEnded(c: Setup, t: State, d: nat, j: nat)
    requires c.Valid() && Inv(c, t) && AllExited(c, t) && c.IsToken(d, j)
    ensures t.Token(d, j).status == C.Finished && NoneUnder(t.net, TagOf(d, j))
    ensures forall a :: Entry(c, t, d, j, a) == 0
  {
    hide EdgesOf, TagOf, TokensOk, Quiet, ControlsOk, At, RankOk, Awaited, TokenBytes, C.Trips, Pending, Later;
    SafeShutdown(c, t, 0, d, j);
    TokenFacts(c, t, d, j);
    RunningToken(c, t, d, j);
    PlacedBytes(c, t, d, j);
  }

  lemma TableEmpty(c: Setup, t: State, a: Account)
    requires c.Valid() && Inv(c, t) && AllExited(c, t)
    ensures TableSum(Table(c, t, a)) == 0
  {
    hide EdgesOf, TokensOk, Quiet, ControlsOk, AllExited, TagOf, Entry;
    TableZero(Table(c, t, a));
    forall d, j | c.IsToken(d, j) ensures Entry(c, t, d, j, a) == 0 { TokenEnded(c, t, d, j); }
  }

  lemma AllDealt(c: Setup, t: State, d: nat)
    requires c.Valid() && Inv(c, t) && AllExited(c, t) && d < c.mpi_size
    ensures t.ranks[d].tokens_dealt == if c.Deals(d) then c.Tokens() * c.Trips(d) else 0
  {
    hide EdgesOf, Quiet, TokenOk, C.Accounts;
    assert RankOk(c, t, d);
    if c.Deals(d) {
      ZeroExited(c, t, d);
      var r := t.ranks[d];
      C.FinishedDealer(d, |c.Edges(d)|, c.count, r.token_obj, r.back, r.tokens_dealt);
    }
  }

  lemma NothingLeft(c: Setup, t: State, x: Channel)
    requires c.Valid() && Inv(c, t) && AllExited(c, t)
    ensures At(t.net, x) == []
  {
    hide EdgesOf, TagOf, DealerOf, TokenOf, At, TokensOk;
    if At(t.net, x) != [] {
      assert Known(c, x);
      if r: nat :| 0 < r < c.mpi_size && (x == Notice(r) || x == Order(r)) {
        NoWordLeft(c, t, r);
      } else {
        TokenEnded(c, t, DealerOf(x.tag), TokenOf(x.tag));
      }
    }
  }

  lemma NoWordLeft(c: Setup, t: State, r: nat)
    requires c.Valid() && Inv(c, t) && AllExited(c, t) && 0 < r < c.mpi_size
    ensures At(t.net, Notice(r)) == [] && At(t.net, Order(r)) == []
  {
    hide EdgesOf, At, TokenOk, Quiet, C.Accounts;
    assert ControlOk(c, t, r) && RankOk(c, t, r);
    if c.topology != Star { CountOthers(t.counted); }
  }

  lemma AllReported(c: Setup, t: State)
    requires c.Valid() && Inv(c, t) && AllExited(c, t)
    ensures Sum(RanksLeft(c, t)) == 0
  {
    hide TokensOk, Quiet, EdgesOf, At;
    CountOthers(t.counted);
    forall r | 0 <= r < c.mpi_size ensures RankLeft(c, t, r) == 0 {
      if r > 0 { assert ControlOk(c, t, r); }
    }
    SumConstant(RanksLeft(c, t), 0);
  }

  /** The whole life of a token in numbers */

  /** Two kinds of entries, told apart by one value. */
  lemma {:induction false} SumChoice(edges: seq<nat>, e: nat, prices: seq<nat>, yes: nat, no: nat)
    requires |prices| == |edges| && forall p | 0 <= p < |edges| :: prices[p] == if edges[p] == e then yes else no
    ensures multiset(edges)[e] <= |edges|
    ensures Sum(prices) == multiset(edges)[e] * yes + (|edges| - multiset(edges)[e]) * no
  {
    if edges != [] {
      SumChoice(edges[1..], e, prices[1..], yes, no);
      assert edges == [edges[0]] + edges[1..];
      var n, k := multiset(edges[1..])[e], |edges| - 1;
      OneMore(n, yes);
      OneMore(k - n, no);
      assert multiset(edges)[e] == n + if edges[0] == e then 1 else 0;
    }
  }

  lemma OneMore(n: nat, v: nat)
    ensures (n + 1) * v == n * v + v
  {}

  /**
    * A token that its dealer deals k edges, n of them the dealer itself, is bounced once on each cycle
    * by the others and n times on each of those n visits, and takes a step for each bounce and return.
    */
  lemma LifeOfToken(c: Setup, d: nat, j: nat)
    requires c.Valid() && c.IsToken(d, j)
    ensures var n := multiset(c.Edges(d))[d];
            && n == c.Roles(d, d) <= |c.Edges(d)|
            && TokenTotal(c, d, j, BouncesLeft)
               == c.count * (n * n + (|c.Edges(d)| - n)) + (if c.Edge(d, StartEdge(c, d, j)) == d then 0 else 1)
            && TokenTotal(c, d, j, StepsLeft) == TokenTotal(c, d, j, BouncesLeft) + c.Trips(d)
  {
    hide EdgesOf, StartEdge, C.Trips, Sum;
    SelfRoles(c, d);
    var edges, n := c.Edges(d), c.Roles(d, d);
    SumChoice(edges, d, Prices(c, d, BouncesLeft), n, 1);
    SumChoice(edges, d, Prices(c, d, StepsLeft), n + 1, 2);
    hide Prices;
    StepsAndBounces(c.count, |edges|, n);
  }

  lemma StepsAndBounces(count: nat, k: nat, n: nat)
    requires n <= k
    ensures count * (n * (n + 1) + (k - n) * 2) + 1 == count * (n * n + (k - n)) + C.Trips(k, count)
  {
    assert n * (n + 1) + (k - n) * 2 == n * n + (k - n) + k;
    assert count * (n * n + (k - n) + k) == count * (n * n + (k - n)) + count * k;
  }

  lemma SelfRoles(c: Setup, d: nat)
    requires c.Valid() && c.Deals(d)
    ensures multiset(c.Edges(d))[d] == c.Roles(d, d)
  {
    hide NeighbourRank;
    if c.topology == Star { assert d !in c.Edges(d); }
  }

  /** Of these bounces a rank makes count for each of its edges of the dealer, and one if it is the first. */
  lemma ShareOfRank(c: Setup, d: nat, j: nat, e: nat)
    requires c.Valid() && c.IsToken(d, j)
    ensures TokenTotal(c, d, j, BouncesLeftBy(e))
         == c.count * (multiset(c.Edges(d))[e] * (if e == d then c.Roles(d, d) else 1))
            + (if c.Edge(d, StartEdge(c, d, j)) == e && e != d then 1 else 0)
  {
    hide EdgesOf, StartEdge;
    SumChoice(c.Edges(d), e, Prices(c, d, BouncesLeftBy(e)), if e == d then c.Roles(d, d) else 1, 0);
  }

  /** Where no rank is its own edge, every deal is bounced once. */
  lemma AllDealtBounced(c: Setup, t: State)
    requires c.Valid() && Inv(c, t) && AllExited(c, t) && Apart(c.topology)
    ensures Sum(Dealt(t)) == Total(c, BouncesLeft)
  {
    hide EdgesOf, TokensOk, Quiet, ControlsOk, AllExited, TokenTotal, TotalRow, Sum, C.Trips, Apart;
    var rows := seq(c.mpi_size, d requires 0 <= d < c.mpi_size => TotalRow(c, d, BouncesLeft));
    forall d | 0 <= d < c.mpi_size ensures Sum(TotalRow(c, d, BouncesLeft)) == t.ranks[d].tokens_dealt {
      AllDealt(c, t, d);
      BouncedRow(c, d);
    }
    assert RowSums(rows) == Dealt(t);
  }

  lemma PlainLife(c: Setup, d: nat, j: nat)
    requires c.Valid() && c.IsToken(d, j) && forall e | 0 <= e < |c.Edges(d)| :: c.Edges(d)[e] != d
    ensures TokenTotal(c, d, j, BouncesLeft) == c.Trips(d)
  {
    hide EdgesOf, StartEdge, TokenTotal;
    assert d !in c.Edges(d);
    LifeOfToken(c, d, j);
  }

  lemma BouncedRow(c: Setup, d: nat)
    requires c.Valid() && d < c.mpi_size && Apart(c.topology)
    ensures Sum(TotalRow(c, d, BouncesLeft)) == if c.Deals(d) then c.Tokens() * c.Trips(d) else 0
  {
    hide EdgesOf, StartEdge, TokenTotal, Apart, C.Trips;
    if c.Deals(d) {
      forall e | 0 <= e < |c.Edges(d)| ensures c.Edges(d)[e] != d { NoSelfEdge(c.topology, c.mpi_size, d, e); }
      forall j | 0 <= j < c.Tokens() ensures TokenTotal(c, d, j, BouncesLeft) == c.Trips(d) {
        PlainLife(c, d, j);
      }
      SumConstant(TotalRow(c, d, BouncesLeft), c.Trips(d));
    }
  }

  /** What holds in every state of every run */

  /**
    * A token is in one place at most: finished, or in one message on its way out or back.  Nothing else
    * travels under its tag, and a receive is posted for the message.
    */
  lemma EveryToken(c: Setup, steps: seq<Step>, t: State, d: nat, j: nat)
    requires c.Valid() && Leads(c, Initial(c), steps, t) && Shaped(c, t) && c.IsToken(d, j)
    ensures var u, m := t.Token(d, j), Bytes(c.token_len[j]);
            if u.status == C.Finished then NoneUnder(t.net, TagOf(d, j))
            else Alone(t.net, Outbound(c, d, j, u), m) || Alone(t.net, Inbound(c, d, j, u), m)
    ensures forall x: Channel | x.tag == TagOf(d, j) && At(t.net, x) != [] :: Posted(c, t.posts, x) != []
    ensures Awaited(c, t, d, j)
  {
    hide At, TagOf, EdgesOf, Leads, Initial, AllSteps, Measure, TokensOk, Quiet, ControlsOk, Posted, Awaited, RankOk,
      Balanced;
    EveryRun(c, steps, t);
    TokenFacts(c, t, d, j);
    forall x: Channel | x.tag == TagOf(d, j) && At(t.net, x) != [] ensures Posted(c, t.posts, x) != [] {
      Taker(c, t, d, j, x);
    }
  }

  /** The size check of lines 1241-1244 never finds another size. */
  lemma EverySize(c: Setup, steps: seq<Step>, t: State, step: Step)
    requires c.Valid() && Leads(c, Initial(c), steps, t) && Shaped(c, t) && Enabled(c, t, step)
    ensures step.Return? ==>
      Length(At(t.net, Inbound(c, step.d, step.j, t.Token(step.d, step.j)))[0]) == c.token_len[step.j]
    ensures step.Bounce? ==>
      Length(At(t.net, Channel(step.d, step.e, TagOf(step.d, step.j)))[0]) == c.token_len[step.j]
  {
    hide At, TagOf, EdgesOf, Leads, Initial, AllSteps, Measure, Inv, Posted, Balanced;
    EveryRun(c, steps, t);
    if !IsControl(step) { TokenEffect(c, t, step); }
  }

  /** No rank is out of the main loop while a token of any dealer is unfinished or under way. */
  lemma EveryShutdown(c: Setup, steps: seq<Step>, t: State, r: nat, d: nat, j: nat)
    requires c.Valid() && Leads(c, Initial(c), steps, t) && Shaped(c, t)
    requires r < c.mpi_size && t.ranks[r].exited && c.IsToken(d, j)
    ensures t.Token(d, j).status == C.Finished
    ensures forall ch: Channel | ch.tag == TagOf(d, j) :: At(t.net, ch) == []
  {
    hide At, TagOf, EdgesOf, Leads, Initial, AllSteps, Measure, Inv, Balanced;
    EveryRun(c, steps, t);
    SafeShutdown(c, t, r, d, j);
  }
}
