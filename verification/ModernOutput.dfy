/** What the text looks like that the modern program compresses hosts into. */
module ModernOutput {
  import opened Text
  import opened Wrappers
  import opened Lists
  import O = Ordering
  import opened ModernCompress

  // ---------- names and numbers ----------

  /** A host's number is all of the digits at its end; without any, or behind a newline, it has none. */
  lemma NameFacts(host: string)
    ensures NameOf(host).Some? ==>
              var Name(prefix, digits) := NameOf(host).value;
              && prefix + digits == Chomp(host) && '\n' !in prefix
              && (prefix == "" || !IsDigit(prefix[|prefix| - 1]))
    ensures NameOf(host) == None ==>
              var t := Chomp(host); t == "" || !IsDigit(t[|t| - 1]) || '\n' in t
  {
    hide IsDigit, RunStart, Chomp;
    var t := Chomp(host);
    var a := RunStart(t);
    RunStartFacts(t);
    assert t == t[..a] + t[a..];
    if '\n' in t[..a] { NewlineIn(t, a); }
  }

  lemma NewlineIn(t: string, a: nat)
    requires a <= |t| && '\n' in t[..a]
    ensures '\n' in t
  {}

  // ---------- the order of the tokens ----------

  /** What a token stands for: a name without number, the numbers of one width, or the natural numbers. */
  datatype Label = Lone(host: string) | Padded(prefix: string, width: nat) | Natural(prefix: string)

  /** Names come first, then the groups by prefix: padded ones by width, natural numbers last. */
  predicate Before(a: Label, b: Label) {
    match (a, b)
    case (Lone(x), Lone(y)) => O.Compare(x, y) < 0
    case (Lone(_), _) => true
    case (_, Lone(_)) => false
    case (Padded(p, v), Padded(q, w)) => O.Compare(p, q) < 0 || (p == q && v < w)
    case (Padded(p, _), Natural(q)) => O.Compare(p, q) <= 0
    case (Natural(p), _) => O.Compare(p, b.prefix) < 0
  }

  ghost predicate InTurn(labels: seq<Label>) {
    forall i, j | 0 <= i < j < |labels| :: Before(labels[i], labels[j])
  }

  ghost function Spelling(names: set<Name>, tag: Label): string {
    match tag
    case Lone(host) => host
    case Padded(prefix, width) => Formatted(prefix, Sorted(GroupNumbers(names, prefix, width)), width)
    case Natural(prefix) => Formatted(prefix, Sorted(Values(Leftover(names, prefix))), 0)
  }

  ghost function Spellings(names: set<Name>, labels: seq<Label>): (r: seq<string>)
    ensures |r| == |labels| && forall i | 0 <= i < |r| :: r[i] == Spelling(names, labels[i])
  {
    seq(|labels|, i requires 0 <= i < |labels| => Spelling(names, labels[i]))
  }

  /** The label is wanted: there are such hosts. */
  ghost predicate Wanted(hosts: set<string>, tag: Label) {
    match tag
    case Lone(host) => host in PlainHosts(hosts)
    case Padded(prefix, width) => width in Widths(NamesOf(hosts), prefix)
    case Natural(prefix) => Leftover(NamesOf(hosts), prefix) != {}
  }

  lemma SpellingsConcat(names: set<Name>, a: seq<Label>, b: seq<Label>)
    ensures Spellings(names, a + b) == Spellings(names, a) + Spellings(names, b)
  {
    hide Spelling;
  }

  lemma InTurnConcat(a: seq<Label>, b: seq<Label>)
    requires InTurn(a) && InTurn(b) && forall x, y | x in a && y in b :: Before(x, y)
    ensures InTurn(a + b)
  {
    hide Before;
    var s := a + b;
    forall i, j | 0 <= i < j < |s| ensures Before(s[i], s[j]) {
      if i < |a| <= j { assert s[i] in a && s[j] in b; }
    }
  }

  ghost function PaddedLabels(prefix: string, widths: seq<nat>): (r: seq<Label>)
    ensures |r| == |widths| && forall i | 0 <= i < |r| :: r[i] == Padded(prefix, widths[i])
  {
    seq(|widths|, i requires 0 <= i < |widths| => Padded(prefix, widths[i]))
  }

  lemma {:induction false} PaddedSpellings(names: set<Name>, prefix: string, widths: seq<nat>)
    ensures Spellings(names, PaddedLabels(prefix, widths)) == PaddedTokens(names, prefix, widths)
  {
    hide Formatted, GroupNumbers;
    if widths != [] {
      PaddedSpellings(names, prefix, widths[1..]);
      assert PaddedLabels(prefix, widths) == [Padded(prefix, widths[0])] + PaddedLabels(prefix, widths[1..]);
    }
  }

  /** The labels of one prefix. */
  ghost function GroupLabels(names: set<Name>, prefix: string): seq<Label> {
    PaddedLabels(prefix, Sorted(Widths(names, prefix))) + (if Leftover(names, prefix) == {} then [] else [Natural(prefix)])
  }

  lemma GroupSpellings(names: set<Name>, prefix: string)
    ensures Spellings(names, GroupLabels(names, prefix))
         == PaddedTokens(names, prefix, Sorted(Widths(names, prefix))) + NaturalTokens(names, prefix)
  {
    hide PaddedTokens, Widths, Leftover, Formatted;
    PaddedSpellings(names, prefix, Sorted(Widths(names, prefix)));
    SpellingsConcat(names, PaddedLabels(prefix, Sorted(Widths(names, prefix))),
                    if Leftover(names, prefix) == {} then [] else [Natural(prefix)]);
  }

  lemma GroupInTurn(names: set<Name>, prefix: string)
    ensures InTurn(GroupLabels(names, prefix))
    ensures forall l | l in GroupLabels(names, prefix) :: !l.Lone? && l.prefix == prefix
    ensures forall l: Label :: l in GroupLabels(names, prefix) <==>
              (l.Padded? && l.prefix == prefix && l.width in Widths(names, prefix))
              || (l.Natural? && l.prefix == prefix && Leftover(names, prefix) != {})
  {
    hide Widths, Leftover, O.Compare;
    var widths := Sorted(Widths(names, prefix));
    var labels := PaddedLabels(prefix, widths);
    assert O.Compare(prefix, prefix) == 0;
    SortedRises(Widths(names, prefix));
    forall w | w in Widths(names, prefix) ensures Padded(prefix, w) in labels {
      var i :| 0 <= i < |widths| && widths[i] == w;
      assert labels[i] == Padded(prefix, w);
    }
    InTurnConcat(labels, if Leftover(names, prefix) == {} then [] else [Natural(prefix)]);
  }

  lemma SortedRises(nums: set<nat>)
    ensures forall i, j | 0 <= i < j < |Sorted(nums)| :: Sorted(nums)[i] < Sorted(nums)[j]
    ensures forall n :: n in Sorted(nums) <==> n in nums
  {
    var s := Sorted(nums);
    forall i, j | 0 <= i < j < |s| ensures s[i] < s[j] {
      assert O.NatAtMost(s[i], s[j]) && s[i] != s[j];
    }
  }

  ghost function AllGroupLabels(names: set<Name>, prefixes: seq<string>): seq<Label> {
    if prefixes == [] then [] else GroupLabels(names, prefixes[0]) + AllGroupLabels(names, prefixes[1..])
  }

  ghost predicate StringsRise(s: seq<string>) { forall i, j | 0 <= i < j < |s| :: O.Compare(s[i], s[j]) < 0 }

  /** The labels of all prefixes follow one another, and are the tokens of compress. */
  lemma {:induction false} AllGroups(names: set<Name>, prefixes: seq<string>)
    requires StringsRise(prefixes)
    ensures InTurn(AllGroupLabels(names, prefixes))
    ensures Spellings(names, AllGroupLabels(names, prefixes)) == PrefixTokens(names, prefixes)
    ensures forall l: Label :: l in AllGroupLabels(names, prefixes) <==>
              !l.Lone? && l.prefix in prefixes && l in GroupLabels(names, l.prefix)
  {
    hide GroupLabels, PaddedTokens, NaturalTokens, O.Compare, InTurn, Widths;
    if prefixes == [] {
      assert InTurn([]) by { NothingInTurn(); }
    } else {
      var p, more := prefixes[0], prefixes[1..];
      assert forall i | 0 <= i < |more| :: more[i] == prefixes[i + 1];
      AllGroups(names, more);
      GroupInTurn(names, p);
      GroupSpellings(names, p);
      SpellingsConcat(names, GroupLabels(names, p), AllGroupLabels(names, more));
      forall x, y | x in GroupLabels(names, p) && y in AllGroupLabels(names, more) ensures Before(x, y) {
        var i :| 0 <= i < |more| && more[i] == y.prefix;
        assert O.Compare(prefixes[0], prefixes[i + 1]) < 0;
      }
      InTurnConcat(GroupLabels(names, p), AllGroupLabels(names, more));
      assert prefixes == [p] + more;
    }
  }

  lemma NothingInTurn()
    ensures InTurn([])
  {}

  ghost function LoneLabels(hosts: seq<string>): (r: seq<Label>)
    ensures |r| == |hosts| && forall i | 0 <= i < |r| :: r[i] == Lone(hosts[i])
  {
    seq(|hosts|, i requires 0 <= i < |hosts| => Lone(hosts[i]))
  }

  lemma SortedStringsRise(s: set<string>)
    ensures StringsRise(SortedStrings(s)) && forall x :: x in SortedStrings(s) <==> x in s
  {
    hide O.Compare;
    var r := SortedStrings(s);
    forall i, j | 0 <= i < j < |r| ensures O.Compare(r[i], r[j]) < 0 {
      assert O.StringAtMost(r[i], r[j]) && r[i] != r[j];
    }
  }

  lemma LoneInTurn(hosts: seq<string>, names: set<Name>)
    requires StringsRise(hosts)
    ensures InTurn(LoneLabels(hosts)) && Spellings(names, LoneLabels(hosts)) == hosts
    ensures forall l: Label :: l in LoneLabels(hosts) <==> l.Lone? && l.host in hosts
  {
    hide O.Compare;
    forall h | h in hosts ensures Lone(h) in LoneLabels(hosts) {
      var i :| 0 <= i < |hosts| && hosts[i] == h;
      assert LoneLabels(hosts)[i] == Lone(h);
    }
  }

  lemma WantedGroups(hosts: set<string>, l: Label)
    requires !l.Lone?
    ensures Wanted(hosts, l) <==> l.prefix in Prefixes(NamesOf(hosts)) && l in GroupLabels(NamesOf(hosts), l.prefix)
  {
    hide NamesOf, GroupLabels;
    GroupInTurn(NamesOf(hosts), l.prefix);
  }

  /**
   The compressed text has one token for every name without number, for every prefix and width with a
   padded number, and for every prefix with other numbers left, and they stand in this order.
   */
  lemma CompressedOrder(hosts: set<string>) returns (labels: seq<Label>)
    ensures Compressed(hosts) == Join(Spellings(NamesOf(hosts), labels), ',')
    ensures InTurn(labels) && forall l: Label :: l in labels <==> Wanted(hosts, l)
  {
    hide NamesOf, PlainHosts, Prefixes, GroupLabels, AllGroupLabels, PrefixTokens, InTurn, O.Compare, Join, Spelling, Wanted;
    var names := NamesOf(hosts);
    var plain, prefixes := SortedStrings(PlainHosts(hosts)), SortedStrings(Prefixes(names));
    SortedStringsRise(PlainHosts(hosts));
    SortedStringsRise(Prefixes(names));
    LoneInTurn(plain, names);
    AllGroups(names, prefixes);
    labels := LoneLabels(plain) + AllGroupLabels(names, prefixes);
    InTurnConcat(LoneLabels(plain), AllGroupLabels(names, prefixes));
    SpellingsConcat(names, LoneLabels(plain), AllGroupLabels(names, prefixes));
    forall l: Label ensures l in labels <==> Wanted(hosts, l) {
      if l.Lone? { WantedLone(hosts, l); } else { WantedGroups(hosts, l); }
    }
  }

  lemma WantedLone(hosts: set<string>, l: Label)
    requires l.Lone?
    ensures Wanted(hosts, l) <==> l.host in PlainHosts(hosts)
  {}

  // ---------- the text of a token ----------

  ghost predicate Rises(nums: seq<nat>) { forall i, j | 0 <= i < j < |nums| :: nums[i] < nums[j] }

  /** Runs with a number missing between each and the next. */
  ghost predicate Gaps(runs: seq<(nat, nat)>) {
    && (forall i | 0 <= i < |runs| :: runs[i].0 <= runs[i].1)
    && forall i | 0 <= i < |runs| - 1 :: runs[i].1 + 1 < runs[i + 1].0
  }

  lemma MoreGaps(run: (nat, nat), later: seq<(nat, nat)>)
    requires Gaps(later) && run.0 <= run.1 && (later != [] ==> run.1 + 1 < later[0].0)
    ensures Gaps([run] + later)
  {
    var runs := [run] + later;
    forall i | 0 <= i < |runs| - 1 ensures runs[i].1 + 1 < runs[i + 1].0 {
      if i > 0 { assert runs[i] == later[i - 1] && runs[i + 1] == later[i]; }
    }
  }

  lemma RestRises(nums: seq<nat>, n: nat)
    requires Rises(nums) && n <= |nums|
    ensures Rises(nums[n..])
  {
    assert forall k | 0 <= k < |nums[n..]| :: nums[n..][k] == nums[n + k];
  }

  lemma AfterRun(nums: seq<nat>)
    requires Rises(nums) && nums != []
    ensures var n := RunCount(nums); nums[0] <= nums[n - 1] && (n < |nums| ==> nums[n - 1] + 1 < nums[n])
  {
    var n := RunCount(nums);
    assert nums[n - 1] == nums[0] + (n - 1);
    if n < |nums| { assert nums[n - 1] < nums[n] && nums[n] != nums[0] + n; }
  }

  /** The runs of a group are as long as they can be. */
  lemma {:induction false} RunsApart(nums: seq<nat>)
    requires Rises(nums)
    ensures Gaps(Runs(nums)) && (nums != [] ==> Runs(nums) != [] && Runs(nums)[0].0 == nums[0])
  {
    if nums != [] {
      hide Rises, RunCount, Runs, Gaps;
      var n := RunCount(nums);
      FirstRun(nums, n);
      AfterRun(nums);
      RestRises(nums, n);
      RunsApart(nums[n..]);
      MoreGaps((nums[0], nums[n - 1]), Runs(nums[n..]));
    }
  }
}
