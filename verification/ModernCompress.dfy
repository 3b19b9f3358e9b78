/** Compression of host names as cbench/python/cbench/hostlist.py does it. */
module ModernCompress {
  import opened Text
  import opened Wrappers
  import opened Lists
  import opened Ordering

  // ---------- one host name ----------

  /** The groups of the pattern `^(.*?)(\d+)$`. */
  function Trailing(host: string): Option<(string, string)> {
    var t := Chomp(host);
    var a := RunStart(t);
    if a == |t| || '\n' in t[..a] then None else Some((t[..a], t[a..]))
  }

  type Numeral = s: string | IsNumeral(s) witness "0"

  /** A host name that ends in digits. */
  datatype Name = Name(prefix: string, digits: Numeral) {
    /** Digits with a leading zero keep their width. */
    predicate IsPadded() { digits[0] == '0' && |digits| > 1 }
  }

  function NameOf(host: string): Option<Name> {
    RunStartFacts(Chomp(host));
    match Trailing(host) case Some((prefix, digits)) => Some(Name(prefix, digits)) case None => None
  }

  // ---------- ranges ----------

  /** How many of the numbers at the front follow one another. */
  function RunCount(nums: seq<nat>): (n: nat)
    requires nums != []
    ensures 1 <= n <= |nums|
    ensures forall i | 0 <= i < n :: nums[i] == nums[0] + i
    ensures n < |nums| ==> nums[n] != nums[0] + n
  {
    if |nums| > 1 && nums[1] == nums[0] + 1 then
      assert forall i | 0 < i < |nums| :: nums[i] == nums[1..][i - 1];
      1 + RunCount(nums[1..])
    else 1
  }

  function Chunk(width: nat, low: nat, high: nat): string {
    if low == high then Pad(width, low) else Pad(width, low) + "-" + Pad(width, high)
  }

  /** The first and last numbers of the runs of consecutive numbers. */
  function Runs(nums: seq<nat>): seq<(nat, nat)> {
    if nums == [] then []
    else
      var n := RunCount(nums);
      [(nums[0], nums[n - 1])] + Runs(nums[n..])
  }

  function ChunkTexts(runs: seq<(nat, nat)>, width: nat): (r: seq<string>)
    ensures |r| == |runs|
    ensures forall i | 0 <= i < |r| :: r[i] == Chunk(width, runs[i].0, runs[i].1)
  {
    seq(|runs|, i requires 0 <= i < |runs| => Chunk(width, runs[i].0, runs[i].1))
  }

  function Chunks(nums: seq<nat>, width: nat): seq<string> { ChunkTexts(Runs(nums), width) }

  /** _fmt for numbers that are sorted and unique already. */
  function Formatted(prefix: string, nums: seq<nat>, width: nat): string {
    if |nums| == 1 then prefix + Pad(width, nums[0])
    else prefix + "[" + Join(Chunks(nums, width), ',') + "]"
  }

  ghost function Sorted(nums: set<nat>): (r: seq<nat>)
    ensures InOrder(r, nums, NatAtMost)
  {
    NatsOrdered();
    SortedSet(nums, NatAtMost)
  }

  method SortUnique(nums: seq<nat>) returns (r: seq<nat>)
    ensures r == Sorted(Elements(nums))
  {
    NatsOrdered();
    var unique := set n | n in nums;
    r := SortSet(unique, NatAtMost);
    assert unique == Elements(nums);
  }

  lemma SortedAgain(nums: set<nat>)
    ensures Sorted(Elements(Sorted(nums))) == Sorted(nums)
  {
    assert Elements(Sorted(nums)) == nums;
  }

  /** _ranges */
  method Ranges(given: seq<nat>, width: nat) returns (r: string)
    ensures r == Join(Chunks(Sorted(Elements(given)), width), ',')
  {
    var nums := SortUnique(given);
    var chunks := RangeChunks(nums, width);
    return Join(chunks, ',');
  }

  /** The inner loop of _ranges: the last number of the run that starts at i. */
  method RunEnd(nums: seq<nat>, i: nat) returns (j: nat)
    requires i < |nums|
    ensures i <= j < |nums| && forall k | i <= k <= j :: nums[k] == nums[i] + (k - i)
    ensures j + 1 < |nums| ==> nums[j + 1] != nums[j] + 1
  {
    j := i;
    while j + 1 < |nums| && nums[j + 1] == nums[j] + 1
      invariant i <= j < |nums|
      invariant forall k | i <= k <= j :: nums[k] == nums[i] + (k - i)
    {
      j := j + 1;
    }
  }

  method NextChunk(nums: seq<nat>, i: nat, width: nat) returns (j: nat, chunk: string)
    requires i < |nums|
    ensures i <= j < |nums| && Runs(nums[i..]) == [(nums[i], nums[j])] + Runs(nums[j + 1..])
    ensures chunk == Chunk(width, nums[i], nums[j])
  {
    j := RunEnd(nums, i);
    RunsStep(nums, i, j + 1);
    var a, b := Pad(width, nums[i]), Pad(width, nums[j]);
    chunk := if i == j then a else a + "-" + b;
  }

  /** The loop of _ranges. */
  method RangeChunks(nums: seq<nat>, width: nat) returns (chunks: seq<string>)
    ensures chunks == Chunks(nums, width)
  {
    chunks := [];
    var i := 0;
    ghost var runs: seq<(nat, nat)> := [];
    assert nums[0..] == nums;
    while i < |nums|
      invariant 0 <= i <= |nums|
      invariant runs + Runs(nums[i..]) == Runs(nums)
      invariant chunks == ChunkTexts(runs, width)
    {
      var j, chunk := NextChunk(nums, i, width);
      ConcatAssociative(runs, [(nums[i], nums[j])], Runs(nums[j + 1..]));
      ChunkTextsMore(runs, (nums[i], nums[j]), width);
      chunks := chunks + [chunk];
      runs := runs + [(nums[i], nums[j])];
      i := j + 1;
    }
  }

  lemma ChunkTextsMore(runs: seq<(nat, nat)>, run: (nat, nat), width: nat)
    ensures ChunkTexts(runs + [run], width) == ChunkTexts(runs, width) + [Chunk(width, run.0, run.1)]
  {
  }

  lemma FirstRun(nums: seq<nat>, n: nat)
    requires nums != [] && RunCount(nums) == n
    ensures Runs(nums) == [(nums[0], nums[n - 1])] + Runs(nums[n..])
  {
    hide RunCount;
  }

  lemma RunsStep(nums: seq<nat>, i: nat, j: nat)
    requires i < j <= |nums| && (forall k | i <= k < j :: nums[k] == nums[i] + (k - i))
    requires j < |nums| ==> nums[j] != nums[j - 1] + 1
    ensures Runs(nums[i..]) == [(nums[i], nums[j - 1])] + Runs(nums[j..])
  {
    hide RunCount, Runs;
    var rest, n := nums[i..], j - i;
    assert forall k | 0 <= k < n :: rest[k] == nums[i + k];
    RunCountUnique(rest, n);
    FirstRun(rest, n);
    assert rest[n..] == nums[j..];
  }

  lemma {:induction false} RunCountUnique(nums: seq<nat>, n: nat)
    requires 1 <= n <= |nums| && (forall i | 0 <= i < n :: nums[i] == nums[0] + i)
    requires n < |nums| ==> nums[n] != nums[n - 1] + 1
    ensures RunCount(nums) == n
  {
    if n > 1 {
      assert forall i | 0 <= i < |nums| - 1 :: nums[1..][i] == nums[i + 1];
      RunCountUnique(nums[1..], n - 1);
    }
  }

  /** _fmt */
  method Fmt(prefix: string, nums: seq<nat>, width: nat) returns (r: string)
    ensures r == Formatted(prefix, Sorted(Elements(nums)), width)
  {
    var uniq := SortUnique(nums);
    if |uniq| == 1 {
      return prefix + Pad(width, uniq[0]);
    }
    var text := Ranges(uniq, width);
    SortedAgain(Elements(nums));
    return prefix + "[" + text + "]";
  }

  // ---------- what the groups hold ----------

  ghost function PlainHosts(hosts: set<string>): set<string> { set h | h in hosts && NameOf(h) == None }

  ghost function NamesOf(hosts: set<string>): set<Name> { set h | h in hosts && NameOf(h).Some? :: NameOf(h).value }

  ghost function Prefixes(names: set<Name>): set<string> { set n | n in names :: n.prefix }

  /** The widths of the prefix's padded numbers. */
  ghost function Widths(names: set<Name>, prefix: string): set<nat> {
    set n | n in names && n.IsPadded() && n.prefix == prefix :: |n.digits|
  }

  ghost function PaddedNumbers(names: set<Name>, prefix: string, width: nat): set<nat> {
    set n | n in names && n.IsPadded() && n.prefix == prefix && |n.digits| == width :: Value(n.digits)
  }

  /** The prefix's numbers without leading zero, as they are written. */
  ghost function Naturals(names: set<Name>, prefix: string): set<Numeral> {
    set n | n in names && !n.IsPadded() && n.prefix == prefix :: n.digits
  }

  ghost function Values(digits: set<Numeral>): set<nat> { set d | d in digits :: Value(d) }

  /** A padded group takes in the natural numbers of its width. */
  ghost function GroupNumbers(names: set<Name>, prefix: string, width: nat): set<nat> {
    PaddedNumbers(names, prefix, width) + Values(set d | d in Naturals(names, prefix) && |d| == width)
  }

  /** The natural numbers whose width no padded group has. */
  ghost function Leftover(names: set<Name>, prefix: string): set<Numeral> {
    set d | d in Naturals(names, prefix) && |d| !in Widths(names, prefix)
  }

  ghost function PaddedTokens(names: set<Name>, prefix: string, widths: seq<nat>): seq<string> {
    if widths == [] then []
    else
      [Formatted(prefix, Sorted(GroupNumbers(names, prefix, widths[0])), widths[0])] +
      PaddedTokens(names, prefix, widths[1..])
  }

  ghost function NaturalTokens(names: set<Name>, prefix: string): seq<string> {
    if Leftover(names, prefix) == {} then []
    else [Formatted(prefix, Sorted(Values(Leftover(names, prefix))), 0)]
  }

  ghost function PrefixTokens(names: set<Name>, prefixes: seq<string>): seq<string> {
    if prefixes == [] then []
    else
      PaddedTokens(names, prefixes[0], Sorted(Widths(names, prefixes[0]))) + NaturalTokens(names, prefixes[0]) +
      PrefixTokens(names, prefixes[1..])
  }

  ghost function SortedStrings(s: set<string>): (r: seq<string>)
    ensures InOrder(r, s, StringAtMost)
  {
    StringsOrdered();
    SortedSet(s, StringAtMost)
  }

  ghost function Tokens(hosts: set<string>): seq<string> {
    SortedStrings(PlainHosts(hosts)) + PrefixTokens(NamesOf(hosts), SortedStrings(Prefixes(NamesOf(hosts))))
  }

  /** What compress returns: a function of the set of hosts, whatever their order and repetitions. */
  ghost function Compressed(hosts: set<string>): string { Join(Tokens(hosts), ',') }

  // ---------- compress ----------

  datatype Group = Group(padded: map<nat, seq<nat>>, natural: seq<Numeral>)

  /** What the dictionary holds for a prefix after the names in `seen`. */
  ghost predicate Holds(g: Group, seen: set<Name>, prefix: string) {
    && g.padded.Keys == Widths(seen, prefix)
    && (forall w | w in g.padded :: Elements(g.padded[w]) == PaddedNumbers(seen, prefix, w))
    && Elements(g.natural) == Naturals(seen, prefix)
  }

  /** The dictionary after the names in `seen`. */
  ghost predicate Grouped(seen: set<Name>, groups: map<string, Group>) {
    groups.Keys == Prefixes(seen) && forall p | p in groups :: Holds(groups[p], seen, p)
  }

  lemma OtherPrefix(seen: set<Name>, n: Name, p: string)
    requires p != n.prefix
    ensures Widths(seen + {n}, p) == Widths(seen, p) && Naturals(seen + {n}, p) == Naturals(seen, p)
    ensures forall w :: PaddedNumbers(seen + {n}, p, w) == PaddedNumbers(seen, p, w)
  {
  }

  lemma PaddedName(seen: set<Name>, n: Name)
    requires n.IsPadded()
    ensures Widths(seen + {n}, n.prefix) == Widths(seen, n.prefix) + {|n.digits|}
    ensures Naturals(seen + {n}, n.prefix) == Naturals(seen, n.prefix)
    ensures forall w :: PaddedNumbers(seen + {n}, n.prefix, w) ==
                        PaddedNumbers(seen, n.prefix, w) + (if w == |n.digits| then {Value(n.digits)} else {})
  {
    assert n in seen + {n};
  }

  lemma NaturalName(seen: set<Name>, n: Name)
    requires !n.IsPadded()
    ensures Widths(seen + {n}, n.prefix) == Widths(seen, n.prefix)
    ensures Naturals(seen + {n}, n.prefix) == Naturals(seen, n.prefix) + {n.digits}
    ensures forall w :: PaddedNumbers(seen + {n}, n.prefix, w) == PaddedNumbers(seen, n.prefix, w)
  {
    assert n in seen + {n};
  }

  lemma NewPrefix(seen: set<Name>, prefix: string)
    requires prefix !in Prefixes(seen)
    ensures Holds(Group(map[], []), seen, prefix)
  {
    forall n | n in seen ensures n.prefix != prefix { assert n.prefix in Prefixes(seen); }
  }

  lemma NewWidth(seen: set<Name>, prefix: string, width: nat)
    requires width !in Widths(seen, prefix)
    ensures PaddedNumbers(seen, prefix, width) == {}
  {
    forall n | n in seen && n.IsPadded() && n.prefix == prefix ensures |n.digits| != width {
      assert |n.digits| in Widths(seen, prefix);
    }
  }

  /** The step of the grouping loop for a padded number. */
  method AddPadded(ghost seen: set<Name>, g: Group, n: Name) returns (r: Group)
    requires Holds(g, seen, n.prefix) && n.IsPadded()
    ensures Holds(r, seen + {n}, n.prefix)
  {
    var width := |n.digits|;
    if width !in g.padded { NewWidth(seen, n.prefix, width); }
    var nums: seq<nat> := if width in g.padded then g.padded[width] else [];
    ElementsConcat(nums, [Value(n.digits)]);
    PaddedName(seen, n);
    r := g.(padded := g.padded[width := nums + [Value(n.digits)]]);
  }

  /** One step of the grouping loop for a host that ends in a number. */
  method AddName(ghost seen: set<Name>, groups: map<string, Group>, n: Name) returns (r: map<string, Group>)
    requires Grouped(seen, groups)
    ensures Grouped(seen + {n}, r)
  {
    if n.prefix !in groups { NewPrefix(seen, n.prefix); }
    var g := if n.prefix in groups then groups[n.prefix] else Group(map[], []);
    if n.digits[0] == '0' && |n.digits| > 1 {
      g := AddPadded(seen, g, n);
    } else {
      ElementsConcat(g.natural, [n.digits]);
      NaturalName(seen, n);
      g := g.(natural := g.natural + [n.digits]);
    }
    r := groups[n.prefix := g];
    assert Prefixes(seen + {n}) == Prefixes(seen) + {n.prefix} by { assert n in seen + {n}; }
    forall p | p in r ensures Holds(r[p], seen + {n}, p) {
      if p != n.prefix { OtherPrefix(seen, n, p); }
    }
  }

  /** The first loop of compress, in whatever order the set yields its hosts. */
  method Classify(hosts: set<string>) returns (plain: set<string>, groups: map<string, Group>)
    ensures plain == PlainHosts(hosts) && Grouped(NamesOf(hosts), groups)
  {
    plain, groups := {}, map[];
    var todo := hosts;
    while todo != {}
      invariant todo <= hosts
      invariant plain == PlainHosts(hosts - todo) && Grouped(NamesOf(hosts - todo), groups)
    {
      var h :| h in todo;
      ghost var seen := hosts - todo;
      todo := todo - {h};
      assert hosts - todo == seen + {h};
      var name := NameOf(h);
      if name == None {
        plain := plain + {h};
        assert NamesOf(seen + {h}) == NamesOf(seen);
      } else {
        groups := AddName(NamesOf(seen), groups, name.value);
        assert NamesOf(seen + {h}) == NamesOf(seen) + {name.value} by { assert h in seen + {h}; }
      }
    }
    assert hosts - todo == hosts;
  }

  /** The padded groups of one prefix by width; returns the natural numbers that they did not take in. */
  method PaddedLines(ghost names: set<Name>, prefix: string, g: Group, widths: seq<nat>)
    returns (out: seq<string>, natural: seq<Numeral>)
    requires Holds(g, names, prefix) && NoDuplicates(widths) && Elements(widths) == g.padded.Keys
    ensures out == PaddedTokens(names, prefix, widths)
    ensures Elements(natural) == Leftover(names, prefix)
  {
    out, natural := [], g.natural;
    var todo := widths;
    ghost var done: set<nat> := {};
    while todo != []
      invariant out + PaddedTokens(names, prefix, todo) == PaddedTokens(names, prefix, widths)
      invariant NoDuplicates(todo) && done !! Elements(todo) && done + Elements(todo) == g.padded.Keys
      invariant Elements(natural) == NaturalsBut(names, prefix, done)
    {
      var width := todo[0];
      TodoStep(todo);
      var token;
      token, natural := PaddedLine(names, prefix, g, width, natural, done);
      ConcatAssociative(out, [token], PaddedTokens(names, prefix, todo[1..]));
      out := out + [token];
      done := done + {width};
      todo := todo[1..];
    }
  }

  lemma TodoStep(todo: seq<nat>)
    requires todo != [] && NoDuplicates(todo)
    ensures Elements(todo) == {todo[0]} + Elements(todo[1..]) && todo[0] !in Elements(todo[1..])
    ensures NoDuplicates(todo[1..])
  {
    assert todo == [todo[0]] + todo[1..];
    NoDuplicatesSplit([todo[0]], todo[1..]);
    ElementsConcat([todo[0]], todo[1..]);
    assert todo[0] in Elements([todo[0]]);
  }

  /** The natural numbers whose width is none of these. */
  ghost function NaturalsBut(names: set<Name>, prefix: string, widths: set<nat>): set<Numeral> {
    set d | d in Naturals(names, prefix) && |d| !in widths
  }

  /** The body of the loop over the widths. */
  method PaddedLine(ghost names: set<Name>, prefix: string, g: Group, width: nat, natural: seq<Numeral>,
                    ghost done: set<nat>)
    returns (token: string, others: seq<Numeral>)
    requires Holds(g, names, prefix) && width in g.padded && width !in done
    requires Elements(natural) == NaturalsBut(names, prefix, done)
    ensures token == Formatted(prefix, Sorted(GroupNumbers(names, prefix, width)), width)
    ensures Elements(others) == NaturalsBut(names, prefix, done + {width})
  {
    var split := SplitByWidth(natural, width);
    var absorbed := split.0;
    others := split.1;
    var allNums := g.padded[width] + ValuesOf(absorbed);
    ElementsConcat(g.padded[width], ValuesOf(absorbed));
    ValuesElements(absorbed);
    assert Elements(absorbed) == set d | d in Naturals(names, prefix) && |d| == width by {
      forall d | d in Naturals(names, prefix) && |d| == width ensures d in absorbed {
        assert d in Elements(natural);
      }
      forall d | d in absorbed ensures d in Naturals(names, prefix) && |d| == width {
        assert d in Elements(natural);
      }
    }
    token := Fmt(prefix, allNums, width);
    assert Elements(others) == NaturalsBut(names, prefix, done + {width}) by {
      forall d | d in NaturalsBut(names, prefix, done + {width}) ensures d in others {
        assert d in Elements(natural);
      }
      forall d | d in others ensures d in NaturalsBut(names, prefix, done + {width}) {
        assert d in Elements(natural);
      }
    }
  }

  /** The tokens of one prefix: its padded groups by width, then what they did not take in. */
  method PrefixLines(ghost names: set<Name>, prefix: string, g: Group) returns (out: seq<string>)
    requires Holds(g, names, prefix)
    ensures out == PaddedTokens(names, prefix, Sorted(Widths(names, prefix))) + NaturalTokens(names, prefix)
  {
    NatsOrdered();
    var widths := SortSet(g.padded.Keys, NatAtMost);
    var natural;
    out, natural := PaddedLines(names, prefix, g, widths);
    if natural == [] {
      assert out == out + NaturalTokens(names, prefix);
    } else {
      assert natural[0] in Elements(natural);
      ValuesElements(natural);
      var token := Fmt(prefix, ValuesOf(natural), 0);
      out := out + [token];
    }
  }

  function ValuesOf(digits: seq<Numeral>): (r: seq<nat>)
    ensures |r| == |digits| && forall i | 0 <= i < |r| :: r[i] == Value(digits[i])
  {
    seq(|digits|, i requires 0 <= i < |digits| => Value(digits[i]))
  }

  lemma ValuesElements(digits: seq<Numeral>)
    ensures Elements(ValuesOf(digits)) == Values(Elements(digits))
  {
    forall v | v in Values(Elements(digits)) ensures v in ValuesOf(digits) {
      var d :| d in Elements(digits) && v == Value(d);
      var i :| 0 <= i < |digits| && digits[i] == d;
      assert ValuesOf(digits)[i] == v;
    }
  }

  /** The two comprehensions that take the digits of one width out of the list. */
  function SplitByWidth(natural: seq<Numeral>, width: nat): (r: (seq<Numeral>, seq<Numeral>))
    ensures forall d :: d in r.0 <==> d in natural && |d| == width
    ensures forall d :: d in r.1 <==> d in natural && |d| != width
  {
    if natural == [] then ([], [])
    else
      var (same, other) := SplitByWidth(natural[1..], width);
      if |natural[0]| == width then ([natural[0]] + same, other) else (same, [natural[0]] + other)
  }

  /** compress */
  method Compress(hosts: seq<string>) returns (r: string)
    ensures r == Compressed(Elements(hosts))
  {
    var unique := set h | h in hosts;
    assert unique == Elements(hosts);
    var plain, groups := Classify(unique);
    ghost var names := NamesOf(unique);
    StringsOrdered();
    var out := SortSet(plain, StringAtMost);
    ghost var first := out;
    var prefixes := SortSet(groups.Keys, StringAtMost);
    var todo := prefixes;
    while todo != []
      invariant forall p | p in todo :: p in groups
      invariant out + PrefixTokens(names, todo) == first + PrefixTokens(names, prefixes)
    {
      var lines := PrefixLines(names, todo[0], groups[todo[0]]);
      ConcatAssociative(out, lines, PrefixTokens(names, todo[1..]));
      out := out + lines;
      todo := todo[1..];
    }
    assert out == out + PrefixTokens(names, []);
    assert out == Tokens(unique);
    return Join(out, ',');
  }
}
