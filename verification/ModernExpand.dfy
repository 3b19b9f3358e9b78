/**
 Expansion of a host list expression as cbench/python/cbench/hostlist.py does it: the first
 bracket group is substituted item by item and the resulting token is scanned again.
 */
module ModernExpand {
  import opened Text
  import opened Wrappers

  /** The reasons for which a ValueError is raised. */
  datatype Error = UnbalancedClose | UnbalancedOpen | NoClosingBracket | NotAnInteger | DescendingRange

  type Hosts = Result<seq<string>, Error>

  // ---------- str.strip and int ----------

  const SPACES := {' ', '\t', '\n', 0x0b as char, 0x0c as char, '\r',
                   0x1c as char, 0x1d as char, 0x1e as char, 0x1f as char}

  /** s.strip() */
  function Strip(s: string): string { Trim(s, SPACES) }

  /** Digits, with single underscores allowed between them. */
  predicate IsGrouped(s: string) {
    && s != "" && IsDigit(s[0]) && IsDigit(s[|s| - 1])
    && forall i | 0 <= i < |s| :: IsDigit(s[i]) || (s[i] == '_' && IsDigit(s[i - 1]))
  }

  function DropUnderscores(s: string): (r: string)
    ensures AllDigits(s) ==> r == s
    ensures (forall i | 0 <= i < |s| :: IsDigit(s[i]) || s[i] == '_') ==> AllDigits(r)
  {
    if s == "" then ""
    else
      assert s == [s[0]] + s[1..];
      (if s[0] == '_' then "" else [s[0]]) + DropUnderscores(s[1..])
  }

  /** int(s) */
  function ParseInt(s: string): Option<int> {
    var t := Strip(s);
    var signed := t != "" && (t[0] == '+' || t[0] == '-');
    var digits := if signed then t[1..] else t;
    if !IsGrouped(digits) then None
    else
      var n: int := Value(DropUnderscores(digits));
      Some(if signed && t[0] == '-' then -n else n)
  }

  // ---------- one item of a bracket group ----------

  function WidthOf(lo: string): nat { if lo != "" && lo[0] == '0' && |lo| > 1 then |lo| else 0 }

  lemma NoDashMeansNoSign(lo: string)
    requires Avoids(lo, {'-'}) && ParseInt(lo).Some?
    ensures ParseInt(lo).value >= 0
  {
    var t := Strip(lo);
    var a, b := TrimParts(lo, SPACES);
    if t != "" { assert t[0] == lo[|a|]; }
  }

  function RangeItem(lo: string, hi: string): (r: Hosts)
    requires Avoids(lo, {'-'})
    ensures r.Ok? ==> forall n | n in r.value :: IsNumeral(n)
  {
    var low, high := ParseInt(lo), ParseInt(hi);
    if low == None || high == None then Err(NotAnInteger)
    else if high.value < low.value then Err(DescendingRange)
    else
      NoDashMeansNoSign(lo);
      Ok(Padded(WidthOf(lo), low.value, high.value))
  }

  /** The numbers or the text that a stripped, non-empty item stands for. */
  function ItemOf(item: string): Hosts {
    var dash := Span(item, {'-'});
    if dash == |item| then Ok([item]) else RangeItem(item[..dash], item[dash + 1..])
  }

  // ---------- one token ----------

  /** The opening brackets in a token, which fall with every substitution. */
  function Brackets(s: string): nat { multiset(s)['['] }

  lemma BracketsConcat(a: string, b: string)
    ensures Brackets(a + b) == Brackets(a) + Brackets(b)
  {
  }

  lemma NoBrackets(s: string)
    requires Avoids(s, {'['})
    ensures Brackets(s) == 0
  {
    assert '[' !in s;
  }

  lemma BracketsSlice(s: string, i: nat, j: nat)
    requires i <= j <= |s|
    ensures Brackets(s[i..j]) <= Brackets(s)
  {
    assert s == s[..i] + s[i..j] + s[j..];
    BracketsConcat(s[..i] + s[i..j], s[j..]);
    BracketsConcat(s[..i], s[i..j]);
  }

  lemma BracketsStrip(s: string)
    ensures Brackets(Strip(s)) <= Brackets(s)
  {
    var a, b := TrimParts(s, SPACES);
    BracketsConcat(a + Strip(s), b);
    BracketsConcat(a, Strip(s));
  }

  lemma {:induction false} BracketsSplit(s: string)
    ensures forall i | 0 <= i < |Split(s, ',')| :: Brackets(Split(s, ',')[i]) <= Brackets(s)
    decreases |s|
  {
    var n := Span(s, {','});
    if n < |s| {
      BracketsSplit(s[n + 1..]);
      BracketsSlice(s, 0, n);
      BracketsSlice(s, n + 1, |s|);
      assert s[0..n] == s[..n] && s[n + 1..|s|] == s[n + 1..];
    }
  }

  lemma ItemBrackets(item: string)
    requires ItemOf(item).Ok?
    ensures forall n | n in ItemOf(item).value :: Brackets(n) <= Brackets(item)
  {
    forall n | n in ItemOf(item).value ensures Brackets(n) <= Brackets(item) {
      if IsNumeral(n) { NoBrackets(n); }
    }
  }

  lemma GroupBrackets(token: string, a: string, b: string, c: string)
    requires token == a + ("[" + (b + ("]" + c)))
    ensures Brackets(token) == 1 + Brackets(a) + Brackets(b) + Brackets(c)
  {
    BracketsConcat(a, "[" + (b + ("]" + c)));
    BracketsConcat("[", b + ("]" + c));
    BracketsConcat(b, "]" + c);
    BracketsConcat("]", c);
  }

  /** The text before the first group, the group's contents, and the text after it. */
  datatype Group = Group(prefix: string, ranges: string, rest: string)

  /** The cut of a token that holds an opening bracket. */
  function CutToken(token: string): Option<Group>
    requires Span(token, {'['}) < |token|
  {
    var start := Span(token, {'['});
    var tail := token[start + 1..];
    var end := Span(tail, {']'});
    if end == |tail| then None else Some(Group(token[..start], tail[..end], tail[end + 1..]))
  }

  lemma CutText(token: string, start: nat, end: nat)
    requires start < |token| && token[start] == '['
    requires start + 1 + end < |token| && token[start + 1 + end] == ']'
    ensures var tail := token[start + 1..];
            token == token[..start] + ("[" + (tail[..end] + ("]" + tail[end + 1..])))
  {
    var tail := token[start + 1..];
    assert tail == tail[..end] + ("]" + tail[end + 1..]);
    assert token == token[..start] + ("[" + tail);
  }

  lemma CutSpelled(token: string)
    requires Span(token, {'['}) < |token| && CutToken(token).Some?
    ensures var Group(prefix, ranges, rest) := CutToken(token).value;
            token == prefix + ("[" + (ranges + ("]" + rest)))
  {
    hide Span;
    var start := Span(token, {'['});
    var tail := token[start + 1..];
    var end := Span(tail, {']'});
    assert CutToken(token).value == Group(token[..start], tail[..end], tail[end + 1..]);
    hide CutToken;
    CutText(token, start, end);
  }

  lemma CutBrackets(token: string)
    requires Span(token, {'['}) < |token| && CutToken(token).Some?
    ensures var Group(prefix, ranges, rest) := CutToken(token).value;
            Brackets(token) == 1 + Brackets(prefix) + Brackets(ranges) + Brackets(rest)
  {
    hide Brackets, Span, CutToken;
    var Group(prefix, ranges, rest) := CutToken(token).value;
    CutSpelled(token);
    GroupBrackets(token, prefix, ranges, rest);
  }

  /** What _expand_token returns. */
  function TokenOf(token: string): Hosts
    decreases Brackets(token), 2, 0
  {
    if Span(token, {'['}) == |token| then Ok([token])
    else
      match CutToken(token)
      case None => Err(NoClosingBracket)
      case Some(Group(prefix, ranges, rest)) =>
        CutBrackets(token);
        BracketsSplit(ranges);
        ItemsOf(prefix, Split(ranges, ','), rest, Brackets(token))
  }

  /** The results so far, put before whatever is still to come. */
  function Before(done: seq<string>, later: Hosts): (r: Hosts)
    ensures done == [] ==> r == later
    ensures later == Ok([]) ==> r == Ok(done)
  {
    match later
    case Ok(hosts) =>
      assert (done == [] ==> done + hosts == hosts) && (hosts == [] ==> done + hosts == done);
      Ok(done + hosts)
    case Err(e) => Err(e)
  }

  lemma BeforeMore(done: seq<string>, more: seq<string>, later: Hosts)
    ensures Before(done, Before(more, later)) == Before(done + more, later)
  {
    if later.Ok? { assert done + (more + later.value) == done + more + later.value; }
  }

  /** The expansions of the token with each item in turn in place of its first group. */
  function ItemsOf(prefix: string, items: seq<string>, rest: string, budget: nat): Hosts
    requires forall i | 0 <= i < |items| :: Brackets(prefix) + Brackets(items[i]) + Brackets(rest) < budget
    decreases budget, 1, |items|
  {
    if items == [] then Ok([])
    else
      var item := Strip(items[0]);
      if item == "" then ItemsOf(prefix, items[1..], rest, budget)
      else
        var nums :- ItemOf(item);
        BracketsStrip(items[0]);
        ItemBrackets(item);
        var some :- NumbersOf(prefix, nums, rest, budget);
        Before(some, ItemsOf(prefix, items[1..], rest, budget))
  }

  function NumbersOf(prefix: string, nums: seq<string>, rest: string, budget: nat): Hosts
    requires forall n | n in nums :: Brackets(prefix) + Brackets(n) + Brackets(rest) < budget
    decreases budget, 0, |nums|
  {
    if nums == [] then Ok([])
    else
      BracketsConcat(prefix + nums[0], rest);
      BracketsConcat(prefix, nums[0]);
      var some :- TokenOf(prefix + nums[0] + rest);
      Before(some, NumbersOf(prefix, nums[1..], rest, budget))
  }

  /** _expand_token */
  method ExpandToken(token: string) returns (out: Hosts)
    ensures out == TokenOf(token)
    decreases Brackets(token), 2
  {
    if Span(token, {'['}) == |token| {
      return Ok([token]);
    }
    var cut := CutToken(token);
    if cut == None {
      return Err(NoClosingBracket);
    }
    var Group(prefix, ranges, rest) := cut.value;
    CutBrackets(token);
    BracketsSplit(ranges);
    out := ExpandItems(prefix, Split(ranges, ','), rest, Brackets(token));
  }

  /** The loop of _expand_token over the items of the group. */
  method ExpandItems(prefix: string, items: seq<string>, rest: string, ghost budget: nat) returns (out: Hosts)
    requires forall i | 0 <= i < |items| :: Brackets(prefix) + Brackets(items[i]) + Brackets(rest) < budget
    ensures out == ItemsOf(prefix, items, rest, budget)
    decreases budget, 1
  {
    var todo := items;
    var hosts: seq<string> := [];
    while todo != []
      invariant forall i | 0 <= i < |todo| :: Brackets(prefix) + Brackets(todo[i]) + Brackets(rest) < budget
      invariant ItemsOf(prefix, items, rest, budget) == Before(hosts, ItemsOf(prefix, todo, rest, budget))
      decreases |todo|
    {
      var item := Strip(todo[0]);
      if item != "" {
        var nums := ItemOf(item);
        if nums.Err? {
          return Err(nums.error);
        }
        BracketsStrip(todo[0]);
        ItemBrackets(item);
        var some := ExpandNumbers(prefix, nums.value, rest, budget);
        if some.Err? {
          return some;
        }
        BeforeMore(hosts, some.value, ItemsOf(prefix, todo[1..], rest, budget));
        hosts := hosts + some.value;
      }
      todo := todo[1..];
    }
    return Ok(hosts);
  }

  /** The loop of _expand_token over the numbers of one item. */
  method ExpandNumbers(prefix: string, nums: seq<string>, rest: string, ghost budget: nat) returns (out: Hosts)
    requires forall n | n in nums :: Brackets(prefix) + Brackets(n) + Brackets(rest) < budget
    ensures out == NumbersOf(prefix, nums, rest, budget)
    decreases budget, 0
  {
    var todo := nums;
    var hosts: seq<string> := [];
    while todo != []
      invariant forall n | n in todo :: n in nums
      invariant NumbersOf(prefix, nums, rest, budget) == Before(hosts, NumbersOf(prefix, todo, rest, budget))
      decreases |todo|
    {
      BracketsConcat(prefix + todo[0], rest);
      BracketsConcat(prefix, todo[0]);
      var some := ExpandToken(prefix + todo[0] + rest);
      if some.Err? {
        return some;
      }
      BeforeMore(hosts, some.value, NumbersOf(prefix, todo[1..], rest, budget));
      hosts := hosts + some.value;
      todo := todo[1..];
    }
    return Ok(hosts);
  }

  // ---------- the whole expression ----------

  /** The top-level parts of what is still to read, `depth` brackets deep and with `cur` pending. */
  function TopParts(s: string, depth: nat, cur: string): Hosts {
    if s == "" then
      if depth != 0 then Err(UnbalancedOpen) else Ok([cur])
    else if s[0] == ']' && depth == 0 then Err(UnbalancedClose)
    else if s[0] == ',' && depth == 0 then Before([cur], TopParts(s[1..], 0, ""))
    else TopParts(s[1..], depth + (if s[0] == '[' then 1 else if s[0] == ']' then -1 else 0), cur + [s[0]])
  }

  /** [p.strip() for p in parts if p.strip()] */
  function Stripped(parts: seq<string>): seq<string> {
    if parts == [] then []
    else (if Strip(parts[0]) == "" then [] else [Strip(parts[0])]) + Stripped(parts[1..])
  }

  function TopLevelOf(spec: string): Hosts {
    var parts :- TopParts(spec, 0, "");
    Ok(Stripped(parts))
  }

  method SplitTopLevel(spec: string) returns (r: Hosts)
    ensures r == TopLevelOf(spec)
  {
    var parts: seq<string> := [];
    var depth, cur := 0, "";
    var rest := spec;
    while rest != ""
      invariant depth >= 0
      invariant TopParts(spec, 0, "") == Before(parts, TopParts(rest, depth, cur))
      decreases |rest|
    {
      var ch := rest[0];
      if ch == '[' {
        depth := depth + 1;
      } else if ch == ']' {
        depth := depth - 1;
        if depth < 0 {
          return Err(UnbalancedClose);
        }
      }
      if ch == ',' && depth == 0 {
        BeforeMore(parts, [cur], TopParts(rest[1..], 0, ""));
        parts := parts + [cur];
        cur := "";
      } else {
        cur := cur + [ch];
      }
      rest := rest[1..];
    }
    if depth != 0 {
      return Err(UnbalancedOpen);
    }
    parts := parts + [cur];
    return Ok(Stripped(parts));
  }

  /** The expansions of the tokens, one after the other. */
  function TokensOf(tokens: seq<string>): Hosts {
    if tokens == [] then Ok([])
    else
      var some :- TokenOf(tokens[0]);
      Before(some, TokensOf(tokens[1..]))
  }

  function ExpansionOf(spec: string): Hosts {
    var tokens :- TopLevelOf(spec);
    TokensOf(tokens)
  }

  /** expand */
  method Expand(spec: string) returns (r: Hosts)
    ensures r == ExpansionOf(spec)
  {
    var tokens :- SplitTopLevel(spec);
    var hosts: seq<string> := [];
    var todo := tokens;
    while todo != []
      invariant TokensOf(tokens) == Before(hosts, TokensOf(todo))
      decreases |todo|
    {
      var some :- ExpandToken(todo[0]);
      BeforeMore(hosts, some, TokensOf(todo[1..]));
      hosts := hosts + some;
      todo := todo[1..];
    }
    return Ok(hosts);
  }
}
