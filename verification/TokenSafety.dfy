/** Every step of the token machine keeps its invariants. */
module TokenSafety {
  import opened Mpi
  import opened Receives
  import opened Sums
  import opened TokenRoles
  import opened TokenMachine
  import C = TokenCycle

  /** Channels */

  lemma TagsApart(c: Setup, d: nat, j: nat, e: nat, i: nat)
    requires c.Valid() && c.IsToken(d, j) && c.IsToken(e, i)
    ensures TagOf(d, j) == TagOf(e, i) <==> d == e && j == i
    ensures TagOf(d, j) != CTRL_WORD_TAG
    ensures DealerOf(TagOf(d, j)) == d && TokenOf(TagOf(d, j)) == j
  {
    TagDecodes(d, j);
    TagDecodes(e, i);
  }

  /** The same tokens, whatever else has changed. */
  ghost predicate SameTokens(s: State, t: State) {
    |s.ranks| == |t.ranks| && forall d | 0 <= d < |s.ranks| ::
      && t.ranks[d].token_obj == s.ranks[d].token_obj && t.ranks[d].back == s.ranks[d].back
      && t.ranks[d].tokens_finished == s.ranks[d].tokens_finished
      && t.ranks[d].tokens_dealt == s.ranks[d].tokens_dealt
  }

  /** The posted receives differ at most under one tag. */
  ghost predicate SamePosts(c: Setup, a: Posts, b: Posts, tag: nat)
    requires c.Valid()
  {
    forall x: Channel | x.tag != tag :: Posted(c, b, x) == Posted(c, a, x)
  }

  /** A token under whose tag no message came or went. */
  lemma TokenElsewhere(c: Setup, s: State, t: State, d: nat, j: nat, tag: nat)
    requires c.Valid() && Shaped(c, s) && Shaped(c, t) && c.IsToken(d, j) && TokenOk(c, s, d, j)
    requires t.Token(d, j) == s.Token(d, j) && TagOf(d, j) != tag
    requires SameBut(s.net, t.net, tag) && SamePosts(c, s.posts, t.posts, tag)
    ensures TokenOk(c, t, d, j)
  {
    hide At, TagOf, Posted, EdgeReceives, Waiting, EdgesOf;
  }

  /** Tokens in account */

  /** The edge of a token that its dealer has not finished. */
  lemma CurrentEdge(c: Setup, s: State, d: nat, j: nat)
    requires c.Valid() && Shaped(c, s) && c.IsToken(d, j) && RankOk(c, s, d)
    ensures s.Token(d, j).current_edge < |c.Edges(d)|
    ensures var e := c.Edge(d, s.Token(d, j).current_edge); e < c.mpi_size && c.Roles(e, d) > 0
  {
    TokenEdge(d, |c.Edges(d)|, c.count, j, s.Token(d, j), s.ranks[d].back[j]);
    EdgeFacts(c, d, s.Token(d, j).current_edge);
  }

  lemma TokenEdge(rank: nat, num_edges: nat, count: nat, j: nat, t: C.Token, n: nat)
    requires num_edges > 0 && count < C.WORD && C.Accounted(rank, num_edges, count, j, t, n)
    ensures t.current_edge < num_edges
    ensures t.status == C.Finished <==> n == C.Trips(num_edges, count)
  {
    C.StartStarts(rank, j, num_edges);
    C.CycleAccounting(C.Start(rank, j, num_edges), num_edges, count, n);
  }

  /** A dealer with a token still running has not finished all. */
  lemma SomeRunning(c: Setup, s: State, d: nat, j: nat)
    requires c.Valid() && Shaped(c, s) && c.IsToken(d, j) && RankOk(c, s, d)
    requires s.Token(d, j).status != C.Finished
    ensures s.ranks[d].tokens_finished < c.Tokens() && !s.ranks[d].done
  {
    CountAll(C.FinishedFlags(s.ranks[d].token_obj));
    assert !C.FinishedFlags(s.ranks[d].token_obj)[j];
  }

  /** Control steps leave the tokens alone */

  lemma TokensKept(c: Setup, s: State, t: State)
    requires c.Valid() && Shaped(c, s) && Shaped(c, t) && TokensOk(c, s)
    requires SameTokens(s, t) && SameBut(s.net, t.net, CTRL_WORD_TAG) && t.posts == s.posts
    requires forall d | 0 <= d < c.mpi_size && t.ranks[d].done ::
               s.ranks[d].done || (c.topology != Star && s.ranks[d].tokens_finished == c.Tokens())
    ensures TokensOk(c, t)
  {
    forall d | 0 <= d < c.mpi_size ensures RankOk(c, t, d) {
      hide C.Accounts, EdgesOf, TokenOk;
      assert RankOk(c, s, d);
    }
    forall d, j | c.IsToken(d, j) ensures TokenOk(c, t, d, j) {
      hide RankOk, TokenOk, EdgesOf;
      TagsApart(c, d, j, d, j);
      TokenElsewhere(c, s, t, d, j, CTRL_WORD_TAG);
    }
  }

  /** The net holds only what was there before, or control words. */
  lemma QuietKept(c: Setup, s: State, t: State)
    requires c.Valid() && Quiet(c, s)
    requires forall x: Channel | At(t.net, x) != [] ::
               At(s.net, x) != [] || exists r | 0 < r < c.mpi_size :: x == Notice(r) || x == Order(r)
    ensures Quiet(c, t)
  {
    hide At, DealerOf, TokenOf, TagOf, EdgesOf;
  }

  lemma NotifyTokens(c: Setup, s: State, r: nat)
    requires c.Valid() && Shaped(c, s) && Enabled(c, s, Notify(r))
    ensures Shaped(c, Apply(c, s, Notify(r))) && SameTokens(s, Apply(c, s, Notify(r)))
  {
    hide EdgesOf;
  }

  lemma NotifyKeeps(c: Setup, s: State, r: nat)
    requires c.Valid() && Inv(c, s) && Enabled(c, s, Notify(r))
    ensures Inv(c, Apply(c, s, Notify(r)))
  {
    hide TokensOk, Quiet, C.Accounts, EdgesOf, SameTokens, TagOf;
    assert ControlOk(c, s, r);
    var t := Apply(c, s, Notify(r));
    forall x
      ensures At(t.net, x) == if x == Notice(r) then At(s.net, Notice(r)) + [Word(CTRL_DEALER_DONE)] else At(s.net, x)
    {
      AtSend(s.net, Notice(r), Word(CTRL_DEALER_DONE), x);
    }
    NotifyTokens(c, s, r);
    TokensKept(c, s, t);
    QuietKept(c, s, t);
    ControlStep(c, s, t, r);
  }

  /** A control step concerns one rank; the others are as they were. */
  lemma ControlStep(c: Setup, s: State, t: State, k: nat)
    requires c.Valid() && Shaped(c, s) && Shaped(c, t) && ControlsOk(c, s) && 0 < k < c.mpi_size
    requires ControlOk(c, t, k) && s.released <= t.released <= c.mpi_size
    requires forall r | 0 < r < c.mpi_size && r != k ::
               && At(t.net, Notice(r)) == At(s.net, Notice(r)) && At(t.net, Order(r)) == At(s.net, Order(r))
               && t.ranks[r].done == s.ranks[r].done && t.ranks[r].exited == s.ranks[r].exited
               && t.counted[r] == s.counted[r] && (r < t.released <==> r < s.released)
    requires !t.counted[0] && (t.released > 1 ==> t.ranks[0].exited)
    requires t.dealers_finished == Count(t.counted) + (if t.ranks[0].done then 1 else 0)
    requires t.ranks[0].exited ==>
               if c.topology == Star then t.ranks[0].tokens_finished == c.Tokens() else t.dealers_finished == c.mpi_size
    ensures ControlsOk(c, t)
  {
    hide At, Notice, Order, Shaped;
    forall r | 0 < r < c.mpi_size ensures ControlOk(c, t, r) {
      if r != k { assert ControlOk(c, s, r); }
    }
  }

  lemma HearKeeps(c: Setup, s: State, r: nat)
    requires c.Valid() && Inv(c, s) && Enabled(c, s, Hear(r))
    ensures Inv(c, Apply(c, s, Hear(r)))
    ensures Apply(c, s, Hear(r)).counted == s.counted[r := true] && s.ranks[r].done
  {
    hide TokensOk, Quiet, C.Accounts, EdgesOf, TagOf, TokenOk;
    assert ControlOk(c, s, r);
    var t := Apply(c, s, Hear(r));
    forall x ensures At(t.net, x) == if x == Notice(r) then [] else At(s.net, x) {
      AtReceive(s.net, Notice(r), x);
    }
    hide At;
    CountUpdate(s.counted, r);
    TokensKept(c, s, t);
    QuietKept(c, s, t);
    ControlStep(c, s, t, r);
  }

  /** Rank 0 counts itself, or leaves the loop. */
  lemma RankZeroKeeps(c: Setup, s: State, step: Step)
    requires c.Valid() && Inv(c, s) && Enabled(c, s, step) && (step == OwnDone || step == Leave)
    ensures Inv(c, Apply(c, s, step))
  {
    hide TokensOk, Quiet, C.Accounts, EdgesOf, TagOf, TokenOk, At;
    var t := Apply(c, s, step);
    TokensKept(c, s, t);
    QuietKept(c, s, t);
    forall r | 0 < r < c.mpi_size ensures ControlOk(c, t, r) {
      assert ControlOk(c, s, r);
    }
  }

  lemma ReleaseNet(c: Setup, s: State, x: Channel)
    requires c.Valid() && Shaped(c, s) && Enabled(c, s, Release)
    ensures var k := s.released;
            At(Apply(c, s, Release).net, x) == if x == Order(k) then At(s.net, x) + [Word(CTRL_SHUTDOWN)] else At(s.net, x)
  {
    hide EdgesOf, At, Send;
    AtSend(s.net, Order(s.released), Word(CTRL_SHUTDOWN), x);
  }

  lemma ReleaseKeeps(c: Setup, s: State)
    requires c.Valid() && Inv(c, s) && Enabled(c, s, Release)
    ensures Inv(c, Apply(c, s, Release))
  {
    hide TokensOk, Quiet, RankOk, EdgesOf, TagOf, TokenOk, At, Send;
    var t, k := Apply(c, s, Release), s.released;
    assert ControlOk(c, s, k);
    forall x ensures At(t.net, x) == if x == Order(k) then At(s.net, x) + [Word(CTRL_SHUTDOWN)] else At(s.net, x) {
      ReleaseNet(c, s, x);
    }
    TokensKept(c, s, t);
    QuietKept(c, s, t);
    ControlStep(c, s, t, k);
  }

  lemma ShutdownKeeps(c: Setup, s: State, r: nat)
    requires c.Valid() && Inv(c, s) && Enabled(c, s, Shutdown(r))
    ensures Inv(c, Apply(c, s, Shutdown(r)))
  {
    hide TokensOk, Quiet, C.Accounts, EdgesOf, TagOf, TokenOk;
    assert ControlOk(c, s, r);
    var t := Apply(c, s, Shutdown(r));
    forall x ensures At(t.net, x) == if x == Order(r) then [] else At(s.net, x) {
      AtReceive(s.net, Order(r), x);
    }
    hide At;
    TokensKept(c, s, t);
    QuietKept(c, s, t);
    ControlStep(c, s, t, r);
  }

  /** Token steps */

  /** A step of token (d, j) leaves the control words and the other tokens alone. */
  lemma ControlsKept(c: Setup, s: State, t: State, tag: nat)
    requires c.Valid() && Shaped(c, s) && Shaped(c, t) && ControlsOk(c, s)
    requires SameBut(s.net, t.net, tag) && tag != CTRL_WORD_TAG
    requires t.counted == s.counted && t.dealers_finished == s.dealers_finished && t.released == s.released
    requires forall r | 0 <= r < c.mpi_size :: t.ranks[r].done == s.ranks[r].done && t.ranks[r].exited == s.ranks[r].exited
    requires s.ranks[0].exited && c.topology == Star ==> t.ranks[0].tokens_finished == s.ranks[0].tokens_finished
    ensures ControlsOk(c, t)
  {
    hide At;
    forall r | 0 < r < c.mpi_size ensures ControlOk(c, t, r) {
      assert ControlOk(c, s, r);
    }
  }

  /** A step of a token leaves the other tokens alone. */
  lemma OthersKept(c: Setup, s: State, t: State, d: nat, j: nat)
    requires c.Valid() && Shaped(c, s) && Shaped(c, t) && TokensOk(c, s) && c.IsToken(d, j)
    requires SameBut(s.net, t.net, TagOf(d, j)) && SamePosts(c, s.posts, t.posts, TagOf(d, j))
    requires TokenOk(c, t, d, j)
    requires forall e, i | c.IsToken(e, i) && (e != d || i != j) :: t.Token(e, i) == s.Token(e, i)
    requires forall r | 0 <= r < c.mpi_size :: RankOk(c, t, r)
    ensures TokensOk(c, t)
  {
    hide RankOk, TokenOk, EdgesOf, SameBut, SamePosts, TagOf;
    forall e, i | c.IsToken(e, i) ensures TokenOk(c, t, e, i) {
      TagsApart(c, d, j, e, i);
      if e != d || i != j { TokenElsewhere(c, s, t, e, i, TagOf(d, j)); }
    }
  }

  /** A message that comes or goes under the tag of a token does not disturb the quiet. */
  lemma TokenQuiet(c: Setup, s: State, t: State, d: nat, j: nat)
    requires c.Valid() && Quiet(c, s) && c.IsToken(d, j) && SameBut(s.net, t.net, TagOf(d, j))
    ensures Quiet(c, t)
  {
    TagsApart(c, d, j, d, j);
    hide At, DealerOf, TokenOf, TagOf, EdgesOf;
    forall ch | At(t.net, ch) != [] ensures Known(c, ch) {
      if ch.tag != TagOf(d, j) { assert At(s.net, ch) != []; }
    }
  }

  /** The token of a message that an edge can take is on its way out to that edge. */
  lemma Arrived(c: Setup, s: State, e: nat, d: nat, j: nat)
    requires c.Valid() && Shaped(c, s) && c.IsToken(d, j) && TokenOk(c, s, d, j) && e < c.mpi_size
    requires Matched(c, s, Channel(d, e, TagOf(d, j)), ForEdge)
    ensures var t := s.Token(d, j);
            && Channel(d, e, TagOf(d, j)) == Outbound(c, d, j, t) && Channel(e, d, TagOf(d, j)) == Inbound(c, d, j, t)
            && Alone(s.net, Outbound(c, d, j, t), Bytes(c.token_len[j]))
            && t.status != C.Finished
  {
    hide At, TagOf, EdgesOf, Posted, EdgeReceives;
    var t, x := s.Token(d, j), Channel(d, e, TagOf(d, j));
    assert Waiting(Posted(c, s.posts, x), EdgeReceives(c, d, x), DealerAwaits(c, d, j, t, x));
    hide Waiting;
    assert t.status != C.Finished;
  }

  /** An edge's receive has taken a message of the token and is posted again. */
  lemma EdgePosts(c: Setup, posts: Posts, d: nat, j: nat, t: C.Token, ch: Channel)
    requires c.Valid() && c.IsToken(d, j) && ch.tag == TagOf(d, j)
    requires forall x: Channel | x.tag == TagOf(d, j) ::
               Waiting(Posted(c, posts, x), EdgeReceives(c, d, x), DealerAwaits(c, d, j, t, x))
    requires Posted(c, posts, ch) != [] && Posted(c, posts, ch)[0] == ForEdge
    ensures var after := Post(c, Taken(c, posts, ch), ch, ForEdge);
            && SamePosts(c, posts, after, TagOf(d, j))
            && (forall x: Channel | x.tag == TagOf(d, j) ::
                  Waiting(Posted(c, after, x), EdgeReceives(c, d, x), DealerAwaits(c, d, j, t, x)))
            && (DealerAwaits(c, d, j, t, ch) ==>
                  Position(Posted(c, after, ch)) + 1 == Position(Posted(c, posts, ch)))
            && (forall x: Channel | x != ch :: Posted(c, after, x) == Posted(c, posts, x))
  {
    hide FirstPosted, EdgeReceives, DealerAwaits, Waiting, Position, TagOf, EdgesOf;
    EdgeTakes(Posted(c, posts, ch), EdgeReceives(c, d, ch), DealerAwaits(c, d, j, t, ch));
  }

  lemma TokenFacts(c: Setup, s: State, d: nat, j: nat)
    requires c.Valid() && Inv(c, s) && c.IsToken(d, j)
    ensures Shaped(c, s) && RankOk(c, s, d) && TokenOk(c, s, d, j)
  {
    hide EdgesOf, RankOk, TokenOk;
  }

  /** What a bounce changes. */
  lemma BounceEffect(c: Setup, s: State, e: nat, d: nat, j: nat)
    requires c.Valid() && Inv(c, s) && Enabled(c, s, Bounce(e, d, j))
    ensures var t := Apply(c, s, Bounce(e, d, j));
            && Shaped(c, t) && SameTokens(s, t) && TokenOk(c, t, d, j)
            && SameBut(s.net, t.net, TagOf(d, j)) && SamePosts(c, s.posts, t.posts, TagOf(d, j))
            && Alone(t.net, Inbound(c, d, j, s.Token(d, j)), Bytes(c.token_len[j]))
  {
    hide TagOf, EdgesOf, TokensOk, Quiet, ControlsOk, RankOk, At, Posted, Taken, Post, Waiting, EdgeReceives;
    TokenFacts(c, s, d, j);
    var out, home, m := Channel(d, e, TagOf(d, j)), Channel(e, d, TagOf(d, j)), Bytes(c.token_len[j]);
    Arrived(c, s, e, d, j);
    EdgePosts(c, s.posts, d, j, s.Token(d, j), out);
    Received(s.net, out, m);
    Sent(Receive(s.net, out), home, m);
    hide Receive, Send, Alone, NoneUnder;
    BounceShape(c, s, e, d, j);
  }

  lemma BounceShape(c: Setup, s: State, e: nat, d: nat, j: nat)
    requires c.Valid() && Shaped(c, s) && Enabled(c, s, Bounce(e, d, j))
    ensures var t := Apply(c, s, Bounce(e, d, j));
            && Shaped(c, t) && SameTokens(s, t)
            && t.posts == Post(c, Taken(c, s.posts, Channel(d, e, TagOf(d, j))), Channel(d, e, TagOf(d, j)), ForEdge)
            && t.net == Send(Receive(s.net, Channel(d, e, TagOf(d, j))), Channel(e, d, TagOf(d, j)), Bytes(c.token_len[j]))
  {
    hide TagOf, EdgesOf, At, Posted, Taken, Post, Receive, Send;
  }

  lemma BounceKeeps(c: Setup, s: State, e: nat, d: nat, j: nat)
    requires c.Valid() && Inv(c, s) && Enabled(c, s, Bounce(e, d, j))
    ensures Inv(c, Apply(c, s, Bounce(e, d, j)))
  {
    hide TagOf, DealerOf, TokenOf, EdgesOf, DealersOf, C.Accounts, At, Send, Receive, Posted, Taken, Post, TokenOk,
      SameBut, SamePosts, Quiet, ControlOk;
    var t := Apply(c, s, Bounce(e, d, j));
    BounceEffect(c, s, e, d, j);
    TagsApart(c, d, j, d, j);
    forall r | 0 <= r < c.mpi_size ensures RankOk(c, t, r) { assert RankOk(c, s, r); }
    OthersKept(c, s, t, d, j);
    ControlsKept(c, s, t, TagOf(d, j));
    TokenQuiet(c, s, t, d, j);
  }

  /** The token of a message that its dealer can take is on its way back. */
  lemma CameBack(c: Setup, s: State, d: nat, j: nat)
    requires c.Valid() && Shaped(c, s) && c.IsToken(d, j) && TokenOk(c, s, d, j) && s.Token(d, j).status != C.Finished
    requires Matched(c, s, Inbound(c, d, j, s.Token(d, j)), ForDealer)
    ensures Alone(s.net, Inbound(c, d, j, s.Token(d, j)), Bytes(c.token_len[j]))
  {
    hide TagOf, EdgesOf, At, Posted, Waiting;
  }

  /** The dealer's receive has taken the message, and is posted for the next edge. */
  lemma DealerReposts(c: Setup, posts: Posts, d: nat, j: nat, t: C.Token, u: C.Token)
    requires c.Valid() && c.IsToken(d, j) && t.status != C.Finished
    requires forall x: Channel | x.tag == TagOf(d, j) ::
               Waiting(Posted(c, posts, x), EdgeReceives(c, d, x), DealerAwaits(c, d, j, t, x))
    requires Posted(c, posts, Inbound(c, d, j, t)) != [] && Posted(c, posts, Inbound(c, d, j, t))[0] == ForDealer
    ensures var taken := Taken(c, posts, Inbound(c, d, j, t));
            var after := if u.status != C.Finished then Post(c, taken, Inbound(c, d, j, u), ForDealer) else taken;
            && SamePosts(c, posts, after, TagOf(d, j))
            && (forall x: Channel | x.tag == TagOf(d, j) ::
                  Waiting(Posted(c, after, x), EdgeReceives(c, d, x), DealerAwaits(c, d, j, u, x)))
            && Position(Posted(c, posts, Inbound(c, d, j, t))) == 0
            && (u.status != C.Finished ==>
                  Position(Posted(c, after, Inbound(c, d, j, u))) == EdgeReceives(c, d, Inbound(c, d, j, u)))
  {
    hide FirstPosted, EdgeReceives, Waiting, Position, TagOf, EdgesOf;
    var a, b := Inbound(c, d, j, t), Inbound(c, d, j, u);
    DealerTakes(Posted(c, posts, a), EdgeReceives(c, d, a));
    var taken := Taken(c, posts, a);
    assert forall x: Channel | x.tag == TagOf(d, j) :: Waiting(Posted(c, taken, x), EdgeReceives(c, d, x), false);
    if u.status != C.Finished { DealerPosts(Posted(c, taken, b), EdgeReceives(c, d, b)); }
  }

  /** What a return makes of its dealer. */
  lemma ReturnRank(c: Setup, s: State, d: nat, j: nat)
    requires c.Valid() && Inv(c, s) && Enabled(c, s, Return(d, j))
    ensures var t := Apply(c, s, Return(d, j));
            && Shaped(c, t) && RankOk(c, t, d) && !s.ranks[d].done
  {
    hide At, TagOf, EdgesOf, Receive, Send, Posted, Taken, Post, TokenOk;
    var r, k := s.ranks[d], |c.Edges(d)|;
    assert RankOk(c, s, d);
    SomeRunning(c, s, d, j);
    C.ReturnAccounts(d, k, c.count, r.token_obj, r.back, r.tokens_finished, r.tokens_dealt, j);
    hide C.Accounts, C.Returned;
    assert Shaped(c, Apply(c, s, Return(d, j)));
  }

  /** What a return changes. */
  lemma ReturnEffect(c: Setup, s: State, d: nat, j: nat)
    requires c.Valid() && Inv(c, s) && Enabled(c, s, Return(d, j))
    ensures var t, m := Apply(c, s, Return(d, j)), Bytes(c.token_len[j]);
            && Shaped(c, t) && TokenOk(c, t, d, j)
            && SameBut(s.net, t.net, TagOf(d, j)) && SamePosts(c, s.posts, t.posts, TagOf(d, j))
            && var u := t.Token(d, j);
               u.status != C.Finished ==>
                 && Alone(t.net, Outbound(c, d, j, u), m)
                 && Position(Posted(c, t.posts, Inbound(c, d, j, u))) == EdgeReceives(c, d, Inbound(c, d, j, u))
  {
    hide TagOf, EdgesOf, C.Returned, TokensOk, Quiet, ControlsOk, At, Posted, Taken, Post, Waiting, EdgeReceives,
      Position, RankOk;
    TokenFacts(c, s, d, j);
    ReturnRank(c, s, d, j);
    var t, u, m := Apply(c, s, Return(d, j)), s.Token(d, j), Bytes(c.token_len[j]);
    var v := t.Token(d, j);
    CameBack(c, s, d, j);
    DealerReposts(c, s.posts, d, j, u, v);
    Received(s.net, Inbound(c, d, j, u), m);
    if v.status != C.Finished { Sent(Receive(s.net, Inbound(c, d, j, u)), Outbound(c, d, j, v), m); }
    hide Receive, Send, Alone, NoneUnder;
  }

  lemma ReturnKeeps(c: Setup, s: State, d: nat, j: nat)
    requires c.Valid() && Inv(c, s) && Enabled(c, s, Return(d, j))
    ensures Inv(c, Apply(c, s, Return(d, j)))
  {
    hide TagOf, DealerOf, TokenOf, EdgesOf, DealersOf, C.Accounts, C.Returned, At, Send, Receive, Posted, Taken, Post,
      TokenOk, SameBut, SamePosts, Quiet, ControlOk;
    var t := Apply(c, s, Return(d, j));
    ReturnRank(c, s, d, j);
    ReturnEffect(c, s, d, j);
    TagsApart(c, d, j, d, j);
    forall r | 0 <= r < c.mpi_size ensures RankOk(c, t, r) { assert RankOk(c, s, r); }
    OthersKept(c, s, t, d, j);
    ControlsKept(c, s, t, TagOf(d, j));
    TokenQuiet(c, s, t, d, j);
  }

  lemma StepKeeps(c: Setup, s: State, step: Step)
    requires c.Valid() && Inv(c, s) && Enabled(c, s, step)
    ensures Inv(c, Apply(c, s, step))
  {
    hide Inv, Enabled, Apply;
    match step {
      case Return(d, j) => ReturnKeeps(c, s, d, j);
      case Bounce(e, d, j) => BounceKeeps(c, s, e, d, j);
      case Notify(r) => NotifyKeeps(c, s, r);
      case Hear(r) => HearKeeps(c, s, r);
      case OwnDone => RankZeroKeeps(c, s, step);
      case Leave => RankZeroKeeps(c, s, step);
      case Release => ReleaseKeeps(c, s);
      case Shutdown(r) => ShutdownKeeps(c, s, r);
    }
  }
}
