/**
  * A dealer's tokens (mpi_tokensmash.c, lines 328-400, 1118-1152 and 1213-1431), in the mode that
  * counts cycles.  The counter of a token is unsigned and starts one below zero, because the first
  * return completes no trip.
  */
module TokenCycle {
  import opened Arithmetic
  import opened Sums
  import TokenRoles

  const WORD: nat := 0x1_0000_0000

  datatype Status = Idle | Running | Finished

  datatype Token = Token(tag: nat, start_edge: nat, current_edge: nat, last_edge: nat, cycles: nat, status: Status)

  function Fresh(rank: nat, j: nat, num_edges: nat): Token
    requires num_edges > 0
  {
    Token(TokenRoles.TagOf(rank, j), j % num_edges, j % num_edges, j % num_edges, WORD - 1, Idle)
  }

  function Dealt(t: Token): Token {
    t.(status := Running)
  }

  /** A token comes back from its current edge: it is finished, or its next edge is known. */
  function Returned(t: Token, num_edges: nat, count: nat): Token
    requires num_edges > 0
  {
    var cycles := if t.current_edge == t.start_edge then (t.cycles + 1) % WORD else t.cycles;
    GoneOn(t, cycles, (t.current_edge + 1) % num_edges, count)
  }

  function GoneOn(t: Token, cycles: nat, next_edge: nat, count: nat): Token {
    if t.current_edge == t.start_edge && cycles == count then
      t.(cycles := cycles, status := Finished)
    else
      t.(cycles := cycles, last_edge := t.current_edge, current_edge := next_edge)
  }

  /** The token after some returns; a finished token is not dealt again. */
  function After(t: Token, num_edges: nat, count: nat, n: nat): Token
    requires num_edges > 0
    decreases n
  {
    if n == 0 then t
    else
      var u := After(t, num_edges, count, n - 1);
      if u.status == Finished then u else Returned(u, num_edges, count)
  }

  /** The number of returns of a token that finishes. */
  function Trips(num_edges: nat, count: nat): nat {
    count * num_edges + 1
  }

  /** Cycle accounting */

  /** As the token is before any return. */
  predicate Starts(t: Token, num_edges: nat) {
    t.start_edge == t.current_edge < num_edges && t.cycles == WORD - 1 && t.status == Running
  }

  /** Where a token is after a number of returns that does not finish it. */
  predicate Counted(t: Token, u: Token, num_edges: nat, n: nat)
    requires num_edges > 0
  {
    && u.status == Running && u.start_edge == t.start_edge && u.tag == t.tag
    && u.current_edge == (t.start_edge + n) % num_edges
    && u.cycles == (if n == 0 then WORD - 1 else (n - 1) / num_edges)
    && u.last_edge == (if n == 0 then t.last_edge else (t.start_edge + (n - 1)) % num_edges)
  }

  lemma NextResidue(i: nat, d: nat)
    requires d > 0
    ensures (i % d + 1) % d == (i + 1) % d
  {
    DivMod(i, d);
    if i % d + 1 == d {
      Distribute(i / d, 1, d);
      Divided(i + 1, i / d + 1, d, 0);
      Divided(d, 1, d, 0);
    } else {
      Divided(i + 1, i / d, d, i % d + 1);
      Divided(i % d + 1, 0, d, i % d + 1);
    }
  }

  /** The token is at its start edge exactly after whole cycles. */
  lemma AtStart(start: nat, n: nat, d: nat)
    requires start < d
    ensures (start + n) % d == start <==> n % d == 0
  {
    DivMod(n, d);
    var q, r := n / d, n % d;
    if start + r < d {
      Divided(start + n, q, d, start + r);
    } else {
      Distribute(q, 1, d);
      Divided(start + n, q + 1, d, start + r - d);
    }
  }

  /** The quotient grows with its dividend exactly at the multiples. */
  lemma QuotientSteps(n: nat, d: nat)
    requires d > 0 && n > 0
    ensures n / d == (n - 1) / d + (if n % d == 0 then 1 else 0)
  {
    var q, r := n / d, n % d;
    DivMod(n, d);
    if r == 0 {
      Distribute(q, -1, d);
      Divided(n - 1, q - 1, d, d - 1);
    } else {
      Divided(n - 1, q, d, r - 1);
    }
  }

  lemma WholeQuotient(n: nat, d: nat, count: nat)
    requires d > 0 && n <= count * d
    ensures n / d <= count
    ensures n % d == 0 ==> (n / d == count <==> n == count * d)
  {
    DivMod(n, d);
    var q := n / d;
    if q > count {
      Distribute(count, 1, d);
      Grows(count + 1, q, d);
    }
    if n == count * d { Divided(n, count, d, 0); }
  }

  /** One more return than n, seen through the residues. */
  lemma ReturnedAt(t: Token, u: Token, num_edges: nat, count: nat, n: nat)
    requires Starts(t, num_edges) && count < WORD && n <= count * num_edges && Counted(t, u, num_edges, n)
    ensures Returned(u, num_edges, count) == GoneOn(u, n / num_edges, (t.start_edge + (n + 1)) % num_edges, count)
    ensures u.current_edge == t.start_edge <==> n % num_edges == 0
  {
    hide GoneOn;
    AtStart(t.start_edge, n, num_edges);
    NextResidue(t.start_edge + n, num_edges);
    WholeQuotient(n, num_edges, count);
    NextCount(n, num_edges, u.cycles, count);
  }

  lemma OneReturn(t: Token, u: Token, num_edges: nat, count: nat, n: nat)
    requires Starts(t, num_edges) && count < WORD && n <= count * num_edges && Counted(t, u, num_edges, n)
    ensures n < count * num_edges ==> Counted(t, Returned(u, num_edges, count), num_edges, n + 1)
    ensures n == count * num_edges ==>
            Returned(u, num_edges, count) == u.(status := Finished, cycles := count) && u.current_edge == t.start_edge
  {
    hide Returned;
    ReturnedAt(t, u, num_edges, count, n);
    WholeQuotient(n, num_edges, count);
    if n == count * num_edges { Divided(n, count, num_edges, 0); }
  }

  /** The counter as the return number n + 1 leaves it. */
  lemma NextCount(n: nat, num_edges: nat, cycles: nat, count: nat)
    requires num_edges > 0 && n / num_edges <= count < WORD
    requires cycles == (if n == 0 then WORD - 1 else (n - 1) / num_edges)
    ensures n / num_edges == if n % num_edges == 0 then (cycles + 1) % WORD else cycles
  {
    if n == 0 {
      Divided(0, 0, num_edges, 0);
    } else {
      QuotientSteps(n, num_edges);
    }
  }

  /**
    * The token's counter is the number of whole trips, its edge has moved on by one for each return,
    * and exactly the return number count * num_edges + 1 finishes it.
    */
  lemma {:induction false} CycleAccounting(t: Token, num_edges: nat, count: nat, n: nat)
    requires Starts(t, num_edges) && count < WORD && n <= Trips(num_edges, count)
    ensures var u := After(t, num_edges, count, n);
            if n < Trips(num_edges, count) then Counted(t, u, num_edges, n)
            else u.status == Finished && u.cycles == count && u.current_edge == t.start_edge
    decreases n
  {
    if n == 0 {
      Divided(t.start_edge, 0, num_edges, t.start_edge);
    } else {
      CycleAccounting(t, num_edges, count, n - 1);
      OneReturn(t, After(t, num_edges, count, n - 1), num_edges, count, n - 1);
    }
  }

  /** Which edges a token visits */

  /** The sum of n entries of a ring, from a place on. */
  function Around(ring: seq<nat>, from: nat, n: nat): nat
    requires ring != []
    decreases n
  {
    if n == 0 then 0 else ring[from % |ring|] + Around(ring, from + 1, n - 1)
  }

  lemma {:induction false} AroundSplit(ring: seq<nat>, from: nat, a: nat, b: nat)
    requires ring != []
    ensures Around(ring, from, a + b) == Around(ring, from, a) + Around(ring, from + a, b)
    decreases a
  {
    if a > 0 { AroundSplit(ring, from + 1, a - 1, b); }
  }

  lemma AroundOne(ring: seq<nat>, from: nat)
    requires ring != []
    ensures Around(ring, from, 1) == ring[from % |ring|]
  {
    assert Around(ring, from + 1, 0) == 0;
  }

  lemma {:induction false} AroundBelow(ring: seq<nat>, from: nat, n: nat)
    requires ring != [] && from + n <= |ring|
    ensures Around(ring, from, n) == Sum(ring[from..from + n])
    decreases n
  {
    if n > 0 {
      AroundBelow(ring, from + 1, n - 1);
      Divided(from, 0, |ring|, from);
      assert ring[from..from + n] == [ring[from]] + ring[from + 1..from + n];
    }
  }

  /** One whole turn meets every entry once, wherever it begins. */
  lemma {:induction false} WholeTurn(ring: seq<nat>, from: nat)
    requires ring != []
    ensures Around(ring, from, |ring|) == Sum(ring)
    decreases from
  {
    if from == 0 {
      AroundBelow(ring, 0, |ring|);
      assert ring[0..|ring|] == ring;
    } else {
      WholeTurn(ring, from - 1);
      AroundSplit(ring, from - 1, 1, |ring| - 1);
      AroundSplit(ring, from, |ring| - 1, 1);
      AroundOne(ring, from - 1);
      AroundOne(ring, from - 1 + |ring|);
      Turn(from - 1, |ring|);
    }
  }

  lemma {:induction false} WholeTurns(ring: seq<nat>, from: nat, count: nat)
    requires ring != []
    ensures Around(ring, from, count * |ring|) == count * Sum(ring)
    decreases count
  {
    if count > 0 {
      WholeTurn(ring, from);
      WholeTurns(ring, from + |ring|, count - 1);
      Distribute(count, -1, |ring|);
      Distribute(count, -1, Sum(ring));
      AroundSplit(ring, from, |ring|, (count - 1) * |ring|);
    }
  }

  lemma Turn(i: nat, d: nat)
    requires d > 0
    ensures (i + d) % d == i % d
  {
    DivMod(i, d);
    Distribute(i / d, 1, d);
    Divided(i + d, i / d + 1, d, i % d);
  }

  /** One at place p of k. */
  function OneAt(p: nat, k: nat): (ring: seq<nat>)
    requires p < k
    ensures |ring| == k
  {
    seq(k, i => if i == p then 1 else 0)
  }

  lemma OneInAll(p: nat, k: nat)
    requires p < k
    ensures Sum(OneAt(p, k)) == 1
  {
    var none := seq(k, _ => 0);
    SumConstant(none, 0);
    SumUpdate(none, p, 1);
    assert OneAt(p, k) == none[p := 1];
  }

  /** How often a token is dealt to edge p in its first n sends. */
  function DealtTo(t: Token, num_edges: nat, count: nat, n: nat, p: nat): nat
    requires num_edges > 0
    decreases n
  {
    if n == 0 then 0
    else DealtTo(t, num_edges, count, n - 1, p)
         + (if After(t, num_edges, count, n - 1).current_edge == p then 1 else 0)
  }

  lemma {:induction false} DealtAround(t: Token, num_edges: nat, count: nat, n: nat, p: nat)
    requires Starts(t, num_edges) && count < WORD && n <= Trips(num_edges, count) && p < num_edges
    ensures DealtTo(t, num_edges, count, n, p) == Around(OneAt(p, num_edges), t.start_edge, n)
    decreases n
  {
    if n > 0 {
      DealtAround(t, num_edges, count, n - 1, p);
      CycleAccounting(t, num_edges, count, n - 1);
      AroundSplit(OneAt(p, num_edges), t.start_edge, n - 1, 1);
      AroundOne(OneAt(p, num_edges), t.start_edge + (n - 1));
    }
  }

  /** A finished token was dealt to every edge position count times, and once more to its start. */
  lemma DealsOfFinished(t: Token, num_edges: nat, count: nat, p: nat)
    requires Starts(t, num_edges) && count < WORD && p < num_edges
    ensures DealtTo(t, num_edges, count, Trips(num_edges, count), p) == count + (if p == t.start_edge then 1 else 0)
  {
    var ring := OneAt(p, num_edges);
    DealtAround(t, num_edges, count, Trips(num_edges, count), p);
    AroundSplit(ring, t.start_edge, 1, count * num_edges);
    AroundOne(ring, t.start_edge);
    WholeTurns(ring, t.start_edge + 1, count);
    OneInAll(p, num_edges);
    Divided(t.start_edge, 0, num_edges, t.start_edge);
  }

  /** The dealer as it runs */

  /** How often a token was sent that came back so often. */
  function Sends(back: nat, trips: nat): nat {
    if back < trips then back + 1 else trips
  }

  function Start(rank: nat, j: nat, num_edges: nat): Token
    requires num_edges > 0
  {
    Dealt(Fresh(rank, j, num_edges))
  }

  lemma StartStarts(rank: nat, j: nat, num_edges: nat)
    requires num_edges > 0
    ensures Starts(Start(rank, j, num_edges), num_edges)
  {
    hide TokenRoles.TagOf;
    DivMod(j, num_edges);
  }

  function FinishedFlags(tokens: seq<Token>): (r: seq<bool>)
    ensures |r| == |tokens|
  {
    seq(|tokens|, j requires 0 <= j < |tokens| => tokens[j].status == Finished)
  }

  function AllSends(back: seq<nat>, trips: nat): (r: seq<nat>)
    ensures |r| == |back|
  {
    seq(|back|, j requires 0 <= j < |back| => Sends(back[j], trips))
  }

  lemma NoneFinished(tokens: seq<Token>)
    requires forall j | 0 <= j < |tokens| :: tokens[j].status != Finished
    ensures Count(FinishedFlags(tokens)) == 0
    decreases |tokens|
  {
    if tokens != [] {
      NoneFinished(tokens[1..]);
      assert FinishedFlags(tokens)[1..] == FinishedFlags(tokens[1..]);
    }
  }

  lemma FlagsAfter(tokens: seq<Token>, j: nat, t: Token)
    requires j < |tokens| && tokens[j].status != Finished
    ensures Count(FinishedFlags(tokens[j := t])) == Count(FinishedFlags(tokens)) + (if t.status == Finished then 1 else 0)
  {
    var flags := FinishedFlags(tokens);
    if t.status == Finished {
      CountUpdate(flags, j);
      assert FinishedFlags(tokens[j := t]) == flags[j := true];
    } else {
      assert FinishedFlags(tokens[j := t]) == flags;
    }
  }

  lemma SendsAfter(back: seq<nat>, j: nat, trips: nat)
    requires j < |back| && back[j] < trips
    ensures Sum(AllSends(back[j := back[j] + 1], trips))
         == Sum(AllSends(back, trips)) + (if back[j] + 1 < trips then 1 else 0)
  {
    SumUpdate(AllSends(back, trips), j, Sends(back[j] + 1, trips));
    assert AllSends(back[j := back[j] + 1], trips) == AllSends(back, trips)[j := Sends(back[j] + 1, trips)];
  }

  /** The counters of a dealer agree with how often each of its tokens came back. */
  ghost predicate Accounts(rank: nat, num_edges: nat, count: nat, tokens: seq<Token>, back: seq<nat>,
                           finished: nat, dealt: nat)
  {
    && num_edges > 0 && count < WORD && |back| == |tokens|
    && (forall j | 0 <= j < |tokens| :: Accounted(rank, num_edges, count, j, tokens[j], back[j]))
    && finished == Count(FinishedFlags(tokens))
    && dealt == Sum(AllSends(back, Trips(num_edges, count)))
  }

  ghost predicate Accounted(rank: nat, num_edges: nat, count: nat, j: nat, t: Token, n: nat)
    requires num_edges > 0
  {
    n <= Trips(num_edges, count) && t == After(Start(rank, j, num_edges), num_edges, count, n)
  }

  lemma StartAccounts(rank: nat, num_edges: nat, count: nat, tokens: seq<Token>, back: seq<nat>)
    requires num_edges > 0 && count < WORD && |back| == |tokens|
    requires forall j | 0 <= j < |tokens| :: tokens[j] == Start(rank, j, num_edges) && back[j] == 0
    ensures Accounts(rank, num_edges, count, tokens, back, 0, |tokens|)
  {
    NoneFinished(tokens);
    SumConstant(AllSends(back, Trips(num_edges, count)), 1);
  }

  lemma ReturnAccounted(rank: nat, num_edges: nat, count: nat, j: nat, t: Token, n: nat)
    requires num_edges > 0 && count < WORD && Accounted(rank, num_edges, count, j, t, n) && t.status != Finished
    ensures n < Trips(num_edges, count)
    ensures Accounted(rank, num_edges, count, j, Returned(t, num_edges, count), n + 1)
    ensures Returned(t, num_edges, count).status == Finished <==> n + 1 == Trips(num_edges, count)
  {
    var start := Start(rank, j, num_edges);
    StartStarts(rank, j, num_edges);
    hide Start, Counted, Returned;
    CycleAccounting(start, num_edges, count, n);
    CycleAccounting(start, num_edges, count, n + 1);
    if n + 1 < Trips(num_edges, count) {
      IsRunning(start, After(start, num_edges, count, n + 1), num_edges, n + 1);
    }
  }

  lemma IsRunning(t: Token, u: Token, num_edges: nat, n: nat)
    requires num_edges > 0 && Counted(t, u, num_edges, n)
    ensures u.status == Running
  {}

  lemma ReturnAccounts(rank: nat, num_edges: nat, count: nat, tokens: seq<Token>, back: seq<nat>,
                       finished: nat, dealt: nat, j: nat)
    requires Accounts(rank, num_edges, count, tokens, back, finished, dealt)
    requires j < |tokens| && tokens[j].status != Finished
    ensures var t := Returned(tokens[j], num_edges, count);
            var more := if t.status == Finished then 1 else 0;
            Accounts(rank, num_edges, count, tokens[j := t], back[j := back[j] + 1], finished + more, dealt + (1 - more))
  {
    ReturnAccounted(rank, num_edges, count, j, tokens[j], back[j]);
    hide Accounted, Returned, Trips;
    FlagsAfter(tokens, j, Returned(tokens[j], num_edges, count));
    SendsAfter(back, j, Trips(num_edges, count));
  }

  /** A dealer whose tokens are all finished has sent each of them once for every trip. */
  lemma FinishedDealer(rank: nat, num_edges: nat, count: nat, tokens: seq<Token>, back: seq<nat>, dealt: nat)
    requires Accounts(rank, num_edges, count, tokens, back, |tokens|, dealt)
    ensures forall j | 0 <= j < |tokens| :: tokens[j].status == Finished && back[j] == Trips(num_edges, count)
    ensures dealt == |tokens| * Trips(num_edges, count)
  {
    CountAll(FinishedFlags(tokens));
    forall j | 0 <= j < |tokens| ensures tokens[j].status == Finished && back[j] == Trips(num_edges, count) {
      assert FinishedFlags(tokens)[j];
      StartStarts(rank, j, num_edges);
      hide Start;
      CycleAccounting(Start(rank, j, num_edges), num_edges, count, back[j]);
    }
    SumConstant(AllSends(back, Trips(num_edges, count)), Trips(num_edges, count));
  }

  class Dealer {
    const rank: nat
    const num_edges: nat
    const count: nat
    const token_len: seq<nat>
    const token_obj: array<Token>
    var tokens_finished: nat
    var tokens_dealt: nat
    var total_bytes_sent: nat
    /** How often each token has come back. */
    ghost var back: seq<nat>

    ghost predicate Valid()
      reads this, token_obj
    {
      && token_obj.Length == |token_len|
      && Accounts(rank, num_edges, count, token_obj[..], back, tokens_finished, tokens_dealt)
    }

    /** Set up the tokens, each with its start edge, and deal them all. */
    constructor (rank: nat, num_edges: nat, count: nat, token_len: seq<nat>)
      requires num_edges > 0 && count < WORD
      ensures Valid() && fresh(token_obj)
      ensures this.rank == rank && this.num_edges == num_edges && this.count == count && this.token_len == token_len
      ensures token_obj[..] == seq(|token_len|, j requires 0 <= j => Start(rank, j, num_edges))
      ensures back == seq(|token_len|, _ => 0)
      ensures tokens_dealt == |token_len| && total_bytes_sent == Sum(token_len)
    {
      this.rank, this.num_edges, this.count, this.token_len := rank, num_edges, count, token_len;
      token_obj := new Token[|token_len|](_ => Token(0, 0, 0, 0, 0, Idle));
      tokens_finished, tokens_dealt, total_bytes_sent := 0, 0, 0;
      back := seq(|token_len|, _ => 0);
      new;
      hide Accounts, TokenRoles.TagOf;
      MakeTokens();
      DealAll();
      StartAccounts(rank, num_edges, count, token_obj[..], back);
    }

    method MakeTokens()
      requires num_edges > 0
      modifies token_obj
      ensures forall j | 0 <= j < token_obj.Length :: token_obj[j] == Fresh(rank, j, num_edges)
    {
      hide TokenRoles.TagOf;
      var current_edge := 0;
      Divided(0, 0, num_edges, 0);
      for j := 0 to token_obj.Length
        invariant current_edge == j % num_edges
        invariant forall k | 0 <= k < j :: token_obj[k] == Fresh(rank, k, num_edges)
      {
        token_obj[j] := Token(TokenRoles.TagOf(rank, j), current_edge, current_edge, current_edge, WORD - 1, Idle);
        NextResidue(j, num_edges);
        current_edge := (current_edge + 1) % num_edges;
      }
    }

    method DealAll()
      requires num_edges > 0 && |token_len| == token_obj.Length && tokens_dealt == total_bytes_sent == 0
      requires forall j | 0 <= j < token_obj.Length :: token_obj[j] == Fresh(rank, j, num_edges)
      modifies this`tokens_dealt, this`total_bytes_sent, token_obj
      ensures forall j | 0 <= j < token_obj.Length :: token_obj[j] == Start(rank, j, num_edges)
      ensures tokens_dealt == |token_len| && total_bytes_sent == Sum(token_len)
    {
      hide Fresh;
      for j := 0 to token_obj.Length
        invariant tokens_dealt == j && total_bytes_sent == Sum(token_len[..j])
        invariant forall k | 0 <= k < j :: token_obj[k] == Start(rank, k, num_edges)
        invariant forall k | j <= k < token_obj.Length :: token_obj[k] == Fresh(rank, k, num_edges)
      {
        assert token_len[..j + 1] == token_len[..j] + [token_len[j]];
        SumConcat(token_len[..j], [token_len[j]]);
        total_bytes_sent := total_bytes_sent + token_len[j];
        tokens_dealt := tokens_dealt + 1;
        token_obj[j] := token_obj[j].(status := Running);
      }
      assert token_len[..|token_len|] == token_len;
    }

    /** The receive of token j completes; the token goes on to the edge, or is finished. */
    method Return(j: nat) returns (edge: nat, again: bool)
      requires Valid() && j < token_obj.Length && token_obj[j].status != Finished
      modifies this`tokens_finished, this`tokens_dealt, this`total_bytes_sent, this`back, token_obj
      ensures Valid() && back == old(back[j := back[j] + 1])
      ensures token_obj[..] == old(token_obj[..][j := Returned(token_obj[j], num_edges, count)])
      ensures again <==> token_obj[j].status != Finished
      ensures again ==> edge == token_obj[j].current_edge
      ensures tokens_finished == old(tokens_finished) + (if again then 0 else 1)
      ensures tokens_dealt == old(tokens_dealt) + (if again then 1 else 0)
      ensures total_bytes_sent == old(total_bytes_sent) + (if again then token_len[j] else 0)
    {
      ghost var before := token_obj[..];
      ReturnAccounts(rank, num_edges, count, before, back, tokens_finished, tokens_dealt, j);
      assert num_edges > 0 && |back| == |before|;
      hide Accounts, FinishedFlags, AllSends, Trips;
      var t := token_obj[j];
      again := true;
      if t.current_edge == t.start_edge {
        t := t.(cycles := (t.cycles + 1) % WORD);
        if t.cycles == count {
          t := t.(status := Finished);
          tokens_finished := tokens_finished + 1;
          again := false;
        }
      }
      if again {
        t := t.(last_edge := t.current_edge);
        t := t.(current_edge := (t.current_edge + 1) % num_edges);
        total_bytes_sent := total_bytes_sent + token_len[j];
        tokens_dealt := tokens_dealt + 1;
      }
      edge, token_obj[j] := t.current_edge, t;
      assert token_obj[..] == before[j := Returned(before[j], num_edges, count)];
      back := back[j := back[j] + 1];
    }
  }
}
