/** Expanding what compress returns gives the given hosts back, each once. */
module ModernRoundTrip {
  import opened Text
  import opened Wrappers
  import opened Lists
  import opened Ordering
  import opened HostSyntax
  import opened HostGrammar
  import A = ModernMeaning
  import M = ModernExpand
  import opened ModernCompress

  // ---------- a formatted group as a token ----------

  function RunItem(run: (nat, nat), width: nat): Item {
    if run.0 == run.1 then One(Pad(width, run.0)) else Item.Run(Pad(width, run.0), Pad(width, run.1))
  }

  function RunItems(runs: seq<(nat, nat)>, width: nat): (r: seq<Item>)
    ensures |r| == |runs| && forall i | 0 <= i < |r| :: r[i] == RunItem(runs[i], width)
  {
    seq(|runs|, i requires 0 <= i < |runs| => RunItem(runs[i], width))
  }

  lemma RunItemMeaning(low: nat, high: nat, width: nat)
    requires low <= high
    ensures WellFormedItem(RunItem((low, high), width))
    ensures ItemNumbers(RunItem((low, high), width)) == Padded(width, low, high)
  {
    ValueOfPad(width, low);
    ValueOfPad(width, high);
    PaddedToFirst(width, low, high);
    if low == high {
      assert Padded(width, low, low) == [Pad(width, low)];
    }
  }

  lemma RunItemsRender(runs: seq<(nat, nat)>, width: nat)
    ensures RenderItems(RunItems(runs, width)) == ChunkTexts(runs, width)
  {
  }

  function PadAll(nums: seq<nat>, width: nat): (r: seq<string>)
    ensures |r| == |nums| && forall i | 0 <= i < |r| :: r[i] == Pad(width, nums[i])
  {
    seq(|nums|, i requires 0 <= i < |nums| => Pad(width, nums[i]))
  }

  lemma PadAllSplit(nums: seq<nat>, n: nat, width: nat)
    requires n <= |nums|
    ensures PadAll(nums, width) == PadAll(nums[..n], width) + PadAll(nums[n..], width)
  {
  }

  lemma PadRun(nums: seq<nat>, width: nat)
    requires nums != [] && forall i | 0 <= i < |nums| :: nums[i] == nums[0] + i
    ensures PadAll(nums, width) == Padded(width, nums[0], nums[|nums| - 1])
  {
    var a, b := PadAll(nums, width), Padded(width, nums[0], nums[|nums| - 1]);
    forall i | 0 <= i < |a| ensures a[i] == b[i] { assert nums[i] == nums[0] + i; }
  }

  ghost predicate Meaning(items: seq<Item>, numbers: seq<string>) {
    (forall i | 0 <= i < |items| :: WellFormedItem(items[i])) && ItemsNumbers(items) == numbers
  }

  lemma MeaningMore(item: Item, items: seq<Item>, first: seq<string>, later: seq<string>)
    requires WellFormedItem(item) && ItemNumbers(item) == first && Meaning(items, later)
    ensures Meaning([item] + items, first + later)
  {
    assert ([item] + items)[1..] == items;
  }

  lemma RunItemsMore(run: (nat, nat), runs: seq<(nat, nat)>, width: nat)
    ensures RunItems([run] + runs, width) == [RunItem(run, width)] + RunItems(runs, width)
  {
  }

  lemma {:induction false} RunsMeaning(nums: seq<nat>, width: nat)
    ensures Meaning(RunItems(Runs(nums), width), PadAll(nums, width))
  {
    if nums != [] {
      hide RunItems, RunItem, PadAll, Meaning, RunCount, Runs;
      var n := RunCount(nums);
      FirstRun(nums, n);
      var run, later := (nums[0], nums[n - 1]), Runs(nums[n..]);
      PadAllSplit(nums, n, width);
      PadRun(nums[..n], width);
      RunItemMeaning(run.0, run.1, width);
      RunsMeaning(nums[n..], width);
      RunItemsMore(run, later, width);
      MeaningMore(RunItem(run, width), RunItems(later, width), PadAll(nums[..n], width), PadAll(nums[n..], width));
    }
  }

  function FormattedToken(prefix: string, nums: seq<nat>, width: nat): Token
    requires nums != []
  {
    if |nums| == 1 then Plain(prefix + Pad(width, nums[0])) else Token.Group(prefix, RunItems(Runs(nums), width), Plain(""))
  }

  ghost predicate LegalPrefix(prefix: string) { Avoids(prefix, SPECIAL) && (prefix == "" || prefix[0] !in M.SPACES) }

  /** What _fmt writes is a well-formed token that denotes the padded numbers after the prefix. */
  lemma FormattedMeaning(prefix: string, nums: seq<nat>, width: nat)
    requires nums != [] && LegalPrefix(prefix)
    ensures var t := FormattedToken(prefix, nums, width);
            && Render(t) == Formatted(prefix, nums, width) && WellFormed(t) && A.Trimmed(Render(t))
            && Denote(t) == Prepend(prefix, PadAll(nums, width))
  {
    if |nums| == 1 {
      LoneNumber(prefix, Pad(width, nums[0]));
      assert Prepend(prefix, PadAll(nums, width)) == [prefix + Pad(width, nums[0])];
    } else {
      RunsMeaning(nums, width);
      RunItemsRender(Runs(nums), width);
      BracketedText(prefix, Join(Chunks(nums, width), ','));
      CrossUnit(PadAll(nums, width));
    }
  }

  lemma LoneNumber(prefix: string, digits: string)
    requires LegalPrefix(prefix) && IsNumeral(digits)
    ensures Avoids(prefix + digits, SPECIAL) && A.Trimmed(prefix + digits)
  {
    DigitsAvoid(digits, SPECIAL);
    AvoidsConcat(prefix, digits, SPECIAL);
    var s := prefix + digits;
    assert s[0] == (if prefix == "" then digits[0] else prefix[0]) && s[|s| - 1] == digits[|digits| - 1];
  }

  lemma BracketedText(prefix: string, list: string)
    requires LegalPrefix(prefix)
    ensures prefix + ("[" + list + "]" + "") == prefix + "[" + list + "]"
    ensures A.Trimmed(prefix + "[" + list + "]")
  {
    var s := prefix + "[" + list + "]";
    assert s[0] == (if prefix == "" then '[' else prefix[0]) && s[|s| - 1] == ']';
  }

  // ---------- names and the hosts they stand for ----------

  function Spell(n: Name): string { n.prefix + n.digits }

  ghost function Spelled(names: set<Name>): set<string> { set n | n in names :: Spell(n) }

  /** Names of legal hosts: each is what its own text parses to. */
  ghost predicate Parsed(names: set<Name>) {
    forall n | n in names :: NameOf(Spell(n)) == Some(n) && LegalPrefix(n.prefix)
  }

  ghost predicate LegalHosts(hosts: set<string>) { forall h | h in hosts :: Avoids(h, SPECIAL) && A.Trimmed(h) }

  lemma NameText(h: string)
    requires Avoids(h, SPECIAL) && A.Trimmed(h)
    ensures NameOf(h).Some? ==> Spell(NameOf(h).value) == h && LegalPrefix(NameOf(h).value.prefix)
  {
    assert Chomp(h) == h;
    var a := RunStart(h);
    assert h == h[..a] + h[a..];
    AvoidsConcat(h[..a], h[a..], SPECIAL);
  }

  lemma NamesParsed(hosts: set<string>)
    requires LegalHosts(hosts)
    ensures Parsed(NamesOf(hosts)) && Spelled(NamesOf(hosts)) + PlainHosts(hosts) == hosts
    ensures Spelled(NamesOf(hosts)) !! PlainHosts(hosts)
  {
    forall h | h in hosts ensures NameOf(h).Some? ==> Spell(NameOf(h).value) == h && LegalPrefix(NameOf(h).value.prefix) {
      NameText(h);
    }
    forall h | h in hosts ensures h in Spelled(NamesOf(hosts)) + PlainHosts(hosts) {
      if NameOf(h).Some? { assert NameOf(h).value in NamesOf(hosts); }
    }
  }

  lemma SpelledUnion(a: set<Name>, b: set<Name>)
    ensures Spelled(a + b) == Spelled(a) + Spelled(b)
  {
    hide Spell;
  }

  /** Different sets of names stand for different hosts. */
  lemma SpelledDisjoint(names: set<Name>, a: set<Name>, b: set<Name>)
    requires Parsed(names) && a <= names && b <= names && a !! b
    ensures Spelled(a) !! Spelled(b)
  {
    forall m, n | m in a && n in b ensures Spell(m) != Spell(n) {
      hide NameOf, Spell;
      assert NameOf(Spell(m)) == Some(m) && NameOf(Spell(n)) == Some(n);
    }
  }

  ghost function WithWidth(names: set<Name>, prefix: string, widths: set<nat>): set<Name> {
    set n | n in names && n.prefix == prefix && |n.digits| in widths
  }

  lemma PaddedGroupHosts(names: set<Name>, prefix: string, width: nat, x: string)
    requires width in Widths(names, prefix)
    ensures x in Spelled(WithWidth(names, prefix, {width})) <==>
            exists v :: v in GroupNumbers(names, prefix, width) && x == prefix + Pad(width, v)
  {
    if x in Spelled(WithWidth(names, prefix, {width})) {
      var n :| n in WithWidth(names, prefix, {width}) && x == Spell(n);
      PadOfValue(n.digits);
      if n.IsPadded() {
        assert Value(n.digits) in PaddedNumbers(names, prefix, width);
      } else {
        assert n.digits in Naturals(names, prefix);
        assert Value(n.digits) in Values(set d | d in Naturals(names, prefix) && |d| == width);
      }
      assert Value(n.digits) in GroupNumbers(names, prefix, width);
    }
    if v :| v in GroupNumbers(names, prefix, width) && x == prefix + Pad(width, v) {
      var n: Name;
      if v in PaddedNumbers(names, prefix, width) {
        n :| n in names && n.IsPadded() && n.prefix == prefix && |n.digits| == width && v == Value(n.digits);
      } else {
        var d :| d in Naturals(names, prefix) && |d| == width && v == Value(d);
        n :| n in names && !n.IsPadded() && n.prefix == prefix && n.digits == d;
      }
      PadOfValue(n.digits);
      assert n in WithWidth(names, prefix, {width});
      assert x == Spell(n);
    }
  }

  ghost function Unpadded(names: set<Name>, prefix: string): set<Name> {
    set n | n in names && n.prefix == prefix && |n.digits| !in Widths(names, prefix)
  }

  lemma LeftoverHosts(names: set<Name>, prefix: string, x: string)
    ensures x in Spelled(Unpadded(names, prefix)) <==>
            exists v :: v in Values(Leftover(names, prefix)) && x == prefix + Pad(0, v)
  {
    if x in Spelled(Unpadded(names, prefix)) {
      var n :| n in Unpadded(names, prefix) && x == Spell(n);
      assert n.IsPadded() ==> |n.digits| in Widths(names, prefix);
      assert n.digits in Naturals(names, prefix) && n.digits in Leftover(names, prefix);
      CanonicalNumeral(n.digits);
      assert Value(n.digits) in Values(Leftover(names, prefix));
    }
    if v :| v in Values(Leftover(names, prefix)) && x == prefix + Pad(0, v) {
      var d :| d in Leftover(names, prefix) && v == Value(d);
      var n :| n in names && !n.IsPadded() && n.prefix == prefix && n.digits == d;
      CanonicalNumeral(n.digits);
      assert n in Unpadded(names, prefix);
      assert x == Spell(n);
    }
  }

  // ---------- the tokens of compress ----------

  /** These tokens are well formed and stand for exactly these hosts, each once. */
  ghost predicate StandFor(tokens: seq<Token>, texts: seq<string>, hosts: set<string>) {
    && A.WellFormedSpec(tokens) && RenderAll(tokens) == texts
    && NoDuplicates(DenoteSpec(tokens)) && Elements(DenoteSpec(tokens)) == hosts
  }

  lemma {:induction false} DenoteConcat(a: seq<Token>, b: seq<Token>)
    requires A.WellFormedSpec(a) && A.WellFormedSpec(b)
    ensures A.WellFormedSpec(a + b) && DenoteSpec(a + b) == DenoteSpec(a) + DenoteSpec(b)
  {
    hide Render, Denote, WellFormed;
    if a == [] {
      assert a + b == b;
    } else {
      assert (a + b)[1..] == a[1..] + b && (a + b)[0] == a[0];
      DenoteConcat(a[1..], b);
    }
  }

  lemma StandForBoth(a: seq<Token>, s: seq<string>, g: set<string>, b: seq<Token>, t: seq<string>, h: set<string>)
    requires StandFor(a, s, g) && StandFor(b, t, h) && g !! h
    ensures StandFor(a + b, s + t, g + h)
  {
    hide DenoteSpec;
    DenoteConcat(a, b);
    NoDuplicatesConcat(DenoteSpec(a), DenoteSpec(b));
    ElementsConcat(DenoteSpec(a), DenoteSpec(b));
    assert RenderAll(a + b) == RenderAll(a) + RenderAll(b);
  }

  lemma NumbersAfter(prefix: string, sorted: seq<nat>, nums: set<nat>, width: nat, hosts: set<string>)
    requires NoDuplicates(sorted) && (forall v :: v in sorted <==> v in nums)
    requires forall x :: x in hosts <==> exists v :: v in nums && x == prefix + Pad(width, v)
    ensures NoDuplicates(Prepend(prefix, PadAll(sorted, width)))
    ensures Elements(Prepend(prefix, PadAll(sorted, width))) == hosts
  {
    hide Pad;
    var list := Prepend(prefix, PadAll(sorted, width));
    forall i, j | 0 <= i < j < |list| ensures list[i] != list[j] {
      if list[i] == list[j] {
        assert list[i][|prefix|..] == Pad(width, sorted[i]) && list[j][|prefix|..] == Pad(width, sorted[j]);
        PadInjective(width, sorted[i], sorted[j]);
      }
    }
    forall x ensures x in list <==> x in hosts {
      if x in list {
        var i :| 0 <= i < |list| && list[i] == x;
        assert sorted[i] in nums;
      }
      if v :| v in nums && x == prefix + Pad(width, v) {
        var i :| 0 <= i < |sorted| && sorted[i] == v;
        assert list[i] == x;
      }
    }
  }

  lemma TokenStands(t: Token, text: string, hosts: set<string>)
    requires WellFormed(t) && Render(t) == text && A.Trimmed(text)
    requires NoDuplicates(Denote(t)) && Elements(Denote(t)) == hosts
    ensures StandFor([t], [text], hosts)
  {
    assert [t][1..] == [];
    assert DenoteSpec([t]) == Denote(t) + [] == Denote(t);
  }

  /** One formatted group stands for its numbers, each written after the prefix. */
  lemma GroupStands(prefix: string, nums: set<nat>, width: nat, hosts: set<string>)
    requires nums != {} && LegalPrefix(prefix)
    requires forall x :: x in hosts <==> exists v :: v in nums && x == prefix + Pad(width, v)
    ensures StandFor([FormattedToken(prefix, ModernCompress.Sorted(nums), width)],
                     [Formatted(prefix, ModernCompress.Sorted(nums), width)], hosts)
  {
    var sorted := ModernCompress.Sorted(nums);
    assert sorted != [] by { var v :| v in nums; assert v in sorted; }
    FormattedMeaning(prefix, sorted, width);
    NumbersAfter(prefix, sorted, nums, width, hosts);
    TokenStands(FormattedToken(prefix, sorted, width), Formatted(prefix, sorted, width), hosts);
  }

  lemma {:induction false} PaddedStand(names: set<Name>, prefix: string, widths: seq<nat>) returns (ts: seq<Token>)
    requires Parsed(names) && NoDuplicates(widths) && forall w | w in widths :: w in Widths(names, prefix)
    ensures StandFor(ts, PaddedTokens(names, prefix, widths), Spelled(WithWidth(names, prefix, Elements(widths))))
  {
    if widths == [] {
      ts := [];
      assert WithWidth(names, prefix, Elements(widths)) == {};
    } else {
      var w := widths[0];
      TodoStep(widths);
      ts := PaddedStand(names, prefix, widths[1..]);
      PaddedStands(names, prefix, w);
      var t := FormattedToken(prefix, ModernCompress.Sorted(GroupNumbers(names, prefix, w)), w);
      var one, others := WithWidth(names, prefix, {w}), WithWidth(names, prefix, Elements(widths[1..]));
      SpelledDisjoint(names, one, others);
      StandForBoth([t], [Formatted(prefix, ModernCompress.Sorted(GroupNumbers(names, prefix, w)), w)], Spelled(one),
                   ts, PaddedTokens(names, prefix, widths[1..]), Spelled(others));
      assert WithWidth(names, prefix, Elements(widths)) == one + others;
      assert Spelled(one + others) == Spelled(one) + Spelled(others);
      ts := [t] + ts;
    }
  }

  lemma PaddedStands(names: set<Name>, prefix: string, w: nat)
    requires Parsed(names) && w in Widths(names, prefix)
    ensures var nums := GroupNumbers(names, prefix, w);
            nums != {} && StandFor([FormattedToken(prefix, ModernCompress.Sorted(nums), w)],
                                   [Formatted(prefix, ModernCompress.Sorted(nums), w)],
                                   Spelled(WithWidth(names, prefix, {w})))
  {
    var nums := GroupNumbers(names, prefix, w);
    var n :| n in names && n.IsPadded() && n.prefix == prefix && |n.digits| == w;
    assert Value(n.digits) in PaddedNumbers(names, prefix, w);
    assert Value(n.digits) in nums;
    forall x ensures x in Spelled(WithWidth(names, prefix, {w})) <==> exists v :: v in nums && x == prefix + Pad(w, v) {
      PaddedGroupHosts(names, prefix, w, x);
    }
    GroupStands(prefix, nums, w, Spelled(WithWidth(names, prefix, {w})));
  }

  lemma NaturalStand(names: set<Name>, prefix: string) returns (ts: seq<Token>)
    requires Parsed(names)
    ensures StandFor(ts, NaturalTokens(names, prefix), Spelled(Unpadded(names, prefix)))
  {
    var digits := Leftover(names, prefix);
    var hosts := Spelled(Unpadded(names, prefix));
    forall x ensures x in hosts <==> exists v :: v in Values(digits) && x == prefix + Pad(0, v) {
      LeftoverHosts(names, prefix, x);
    }
    if digits == {} {
      ts := [];
      assert Values(digits) == {} && hosts == {};
    } else {
      var d :| d in digits;
      assert Value(d) in Values(digits);
      var n :| n in names && n.prefix == prefix && n.digits == d;
      GroupStands(prefix, Values(digits), 0, hosts);
      ts := [FormattedToken(prefix, ModernCompress.Sorted(Values(digits)), 0)];
    }
  }

  ghost function WithPrefix(names: set<Name>, prefixes: set<string>): set<Name> {
    set n | n in names && n.prefix in prefixes
  }

  lemma PrefixStands(names: set<Name>, prefix: string) returns (ts: seq<Token>)
    requires Parsed(names)
    ensures StandFor(ts,
                     PaddedTokens(names, prefix, ModernCompress.Sorted(Widths(names, prefix)))
                     + NaturalTokens(names, prefix),
                     Spelled(WithPrefix(names, {prefix})))
  {
    var widths := ModernCompress.Sorted(Widths(names, prefix));
    var padded := PaddedStand(names, prefix, widths);
    var natural := NaturalStand(names, prefix);
    assert Elements(widths) == Widths(names, prefix);
    var a, b := WithWidth(names, prefix, Widths(names, prefix)), Unpadded(names, prefix);
    SpelledDisjoint(names, a, b);
    StandForBoth(padded, PaddedTokens(names, prefix, widths), Spelled(a), natural, NaturalTokens(names, prefix), Spelled(b));
    assert WithPrefix(names, {prefix}) == a + b;
    SpelledUnion(a, b);
    ts := padded + natural;
  }

  lemma WithPrefixSplit(names: set<Name>, prefix: string, others: set<string>)
    requires Parsed(names) && prefix !in others
    ensures WithPrefix(names, {prefix} + others) == WithPrefix(names, {prefix}) + WithPrefix(names, others)
    ensures Spelled(WithPrefix(names, {prefix})) !! Spelled(WithPrefix(names, others))
    ensures Spelled(WithPrefix(names, {prefix} + others))
         == Spelled(WithPrefix(names, {prefix})) + Spelled(WithPrefix(names, others))
  {
    var a, b := WithPrefix(names, {prefix}), WithPrefix(names, others);
    assert WithPrefix(names, {prefix} + others) == a + b;
    hide Spelled, Parsed;
    SpelledDisjoint(names, a, b);
    SpelledUnion(a, b);
  }

  lemma FirstAndRest(prefixes: seq<string>)
    requires prefixes != [] && NoDuplicates(prefixes)
    ensures Elements(prefixes) == {prefixes[0]} + Elements(prefixes[1..])
    ensures prefixes[0] !in Elements(prefixes[1..]) && NoDuplicates(prefixes[1..])
  {
    assert prefixes == [prefixes[0]] + prefixes[1..];
    forall i | 0 <= i < |prefixes| - 1 ensures prefixes[1..][i] != prefixes[0] {
      assert prefixes[1..][i] == prefixes[i + 1];
    }
  }

  lemma {:induction false} PrefixesStand(names: set<Name>, prefixes: seq<string>) returns (ts: seq<Token>)
    requires Parsed(names) && NoDuplicates(prefixes)
    ensures StandFor(ts, PrefixTokens(names, prefixes), Spelled(WithPrefix(names, Elements(prefixes))))
  {
    if prefixes == [] {
      ts := [];
      assert WithPrefix(names, Elements(prefixes)) == {};
    } else {
      FirstAndRest(prefixes);
      hide StandFor, Spelled, Parsed, WithPrefix, Elements, NoDuplicates;
      var prefix, rest := prefixes[0], prefixes[1..];
      var first := PrefixStands(names, prefix);
      var later := PrefixesStand(names, rest);
      WithPrefixSplit(names, prefix, Elements(rest));
      StandForBoth(first,
                   PaddedTokens(names, prefix, ModernCompress.Sorted(Widths(names, prefix))) + NaturalTokens(names, prefix),
                   Spelled(WithPrefix(names, {prefix})),
                   later, PrefixTokens(names, rest), Spelled(WithPrefix(names, Elements(rest))));
      ts := first + later;
    }
  }

  lemma {:induction false} PlainStand(hosts: seq<string>) returns (ts: seq<Token>)
    requires NoDuplicates(hosts) && LegalHosts(Elements(hosts))
    ensures StandFor(ts, hosts, Elements(hosts))
  {
    if hosts == [] {
      ts := [];
    } else {
      assert hosts == [hosts[0]] + hosts[1..];
      NoDuplicatesSplit([hosts[0]], hosts[1..]);
      ElementsConcat([hosts[0]], hosts[1..]);
      assert hosts[0] in Elements(hosts);
      ts := PlainStand(hosts[1..]);
      var t := Plain(hosts[0]);
      TokenStands(t, hosts[0], Elements([hosts[0]]));
      StandForBoth([t], [hosts[0]], Elements([hosts[0]]), ts, hosts[1..], Elements(hosts[1..]));
      ts := [t] + ts;
    }
  }

  /** For every set of legal hosts, expand returns exactly its elements, each once, from what compress returned. */
  lemma RoundTrip(hosts: set<string>)
    requires LegalHosts(hosts)
    ensures var expanded := M.ExpansionOf(Compressed(hosts));
            expanded.Ok? && NoDuplicates(expanded.value) && Elements(expanded.value) == hosts
  {
    var names, plain := NamesOf(hosts), PlainHosts(hosts);
    NamesParsed(hosts);
    var prefixes := SortedStrings(Prefixes(names));
    assert Elements(SortedStrings(plain)) == plain && Elements(prefixes) == Prefixes(names);
    var first := PlainStand(SortedStrings(plain));
    var later := PrefixesStand(names, prefixes);
    assert WithPrefix(names, Prefixes(names)) == names;
    StandForBoth(first, SortedStrings(plain), plain, later, PrefixTokens(names, prefixes), Spelled(names));
    A.ModernSpec(first + later);
  }
}
