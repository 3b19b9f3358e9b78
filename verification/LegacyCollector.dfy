/** collect_hostlist and collect_hostlist_1 as they run, proved against the round function. */
module LegacyCollector {
  import opened Text
  import opened Wrappers
  import opened Ordering
  import opened Lists
  import opened LegacyCollect
  import opened LegacyShape

  // ---------- the shape is kept from round to round ----------

  lemma FormatAvoids(ranges: seq<Range>, stop: set<char>)
    requires forall c | c in stop :: !IsDigit(c) && c != '-'
    ensures forall i | 0 <= i < |ranges| :: Avoids(FormatRanges(ranges)[i], stop)
  {
    forall i | 0 <= i < |ranges| ensures Avoids(FormatRanges(ranges)[i], stop) {
      var r := ranges[i];
      DigitsAvoid(Pad(r.width, r.low), stop);
      DigitsAvoid(Pad(r.width, r.high), stop);
      AvoidsConcat(Pad(r.width, r.low), "-", stop);
      AvoidsConcat(Pad(r.width, r.low) + "-", Pad(r.width, r.high), stop);
    }
  }

  lemma GroupFields(list: string, suffix: string)
    requires Avoids(list, {']', '['})
    ensures Fields("[" + list + "]" + suffix) == 1 + Fields(suffix)
  {
    hide IsDigit;
    var s := "[" + list + "]" + suffix;
    assert s[..1 + |list|] == "[" + list;
    SpanUnique(s, {']'}, 1 + |list|);
    assert s[2 + |list|..] == suffix;
  }

  lemma FoldedFields(ranges: seq<Range>, suffix: string)
    requires !StartsWithDigit(suffix)
    ensures var s := FoldedText(ranges) + suffix;
            s != "" && (IsDigit(s[0]) || s[0] == '[') && Fields(s) == 1 + Fields(suffix)
  {
    hide Fields, Avoids, Pad, FormatRanges, FormatRange, Join;
    if |ranges| == 1 && ranges[0].low == ranges[0].high {
      var t := FoldedText(ranges);
      DigitsAvoid(t, BRACKETS);
      FieldsOfDigits(t);
      FieldsOfText(t, suffix);
    } else {
      FormatAvoids(ranges, {']', '['});
      JoinAvoids(FormatRanges(ranges), ',', {']', '['});
      GroupFields(Join(FormatRanges(ranges), ','), suffix);
    }
  }

  lemma PlainFields(s: string, right: string)
    requires NoDigits(s) && Avoids(s, BRACKETS)
    ensures Fields(s + right) == Fields(right)
  {
    FieldsOfDigits(s);
    FieldsOfText(s, right);
  }

  lemma RightFields(f: Entry, k: nat)
    requires Shape(f, k)
    ensures Fields(f.right) <= k
  {
    assert Fields("") == 0;
  }

  lemma PlainShape(f: Entry, k: nat)
    requires Shape(f, k) && NoDigits(f.left)
    ensures Shape(Entry("", f.Name()), k + 1)
  {
    PlainFields(f.left, f.right);
    RightFields(f, k);
  }

  lemma FoldedShape(f: Entry, e: Entry, k: nat)
    requires Shape(f, k) && MatchOf(f.left).number != "" && Derives(ItemOf(f), e)
    ensures Shape(e, k + 1)
  {
    var m := MatchOf(f.left);
    MatchFacts(f.left);
    MatchAvoids(f.left, BRACKETS);
    TailOfNumber(f, k);
    var suffix := m.suffix + f.right;
    var ranges :| ranges != [] && e.right == FoldedText(ranges) + suffix;
    FoldedFields(ranges, suffix);
  }

  lemma RoundKeepsShape(lr: seq<Entry>, k: nat)
    requires Shapes(lr, k)
    ensures Shapes(RoundEntries(lr), k + 1)
  {
    forall e | e in RoundEntries(lr) ensures Shape(e, k + 1) {
      var f := RoundEntryDerives(lr, e);
      if MatchOf(f.left).number == "" {
        MatchFacts(f.left);
        PlainShape(f, k);
      } else {
        FoldedShape(f, e, k);
      }
    }
  }

  // ---------- one round ----------

  function Hosts(items: seq<Item>): set<string> { set i | 0 <= i < |items| :: items[i].host }

  /** The names that the numerals stand for in the group of this prefix and suffix. */
  function Spelled(prefix: string, suffix: string, numerals: set<string>): set<string> {
    set d | d in numerals :: prefix + d + suffix
  }

  /** `host` is a name that the numbers of this key's group can produce. */
  ghost predicate Spells(key: Key, host: string) {
    key.Numbered? && exists d :: IsNumeral(d) && host == key.prefix + d + key.suffix
  }

  /** None of these names could come from the group of this prefix and suffix. */
  ghost predicate Foreign(prefix: string, suffix: string, names: set<string>) {
    forall h | h in names :: !Spells(Numbered(prefix, suffix), h)
  }

  lemma SpelledIsInjective(prefix: string, suffix: string, a: string, b: string)
    requires prefix + a + suffix == prefix + b + suffix
    ensures a == b
  {
    var s := prefix + a + suffix;
    assert a == s[|prefix|..|s| - |suffix|] && b == (prefix + b + suffix)[|prefix|..|s| - |suffix|];
  }

  lemma NumberedHost(item: Item, e: Entry)
    requires item == ItemOf(e) && item.key.Numbered?
    ensures item.host == item.key.prefix + Pad(item.width, item.number) + item.key.suffix
    ensures MatchOf(e.left).number == Pad(item.width, item.number)
  {
    var Match(p, n, s) := MatchOf(e.left);
    MatchFacts(e.left);
    PadOfValue(n);
    Regroup(p + n, s, e.right);
  }

  lemma Regroup(a: string, b: string, c: string)
    ensures a + b + c == a + (b + c)
  {
  }

  /** A name spelled from a numeral in one group is the host of no sort entry outside it. */
  lemma NotElsewhere(f: Entry, e: Entry, numeral: string, k: nat)
    requires Shape(f, k) && Shape(e, k) && ItemOf(f).key.Numbered? && IsNumeral(numeral)
    requires e.Name() == ItemOf(f).key.prefix + numeral + ItemOf(f).key.suffix
    ensures ItemOf(e).key == ItemOf(f).key && Pad(ItemOf(e).width, ItemOf(e).number) == numeral
  {
    Separation(e, f, numeral, k);
    PadOfValue(numeral);
  }

  lemma LongerRun(width: nat, number: nat, count: nat)
    ensures Run(width, number, 0) == {}
    ensures Run(width, number, count + 1) == Run(width, number, count) + {Pad(width, number + count)}
  {
    hide Pad;
  }

  /** Takes the names of a range starting at `number` out of `remaining`; returns one past its end. */
  method ScanRange(prefix: string, suffix: string, width: nat, number: nat,
                   remaining: set<string>, ghost numerals: set<string>, ghost others: set<string>)
    returns (next: nat, left: set<string>)
    requires remaining == Spelled(prefix, suffix, numerals) + others
    requires Foreign(prefix, suffix, others)
    ensures next == number + RunLength(width, number, numerals)
    ensures left == Spelled(prefix, suffix, numerals - Run(width, number, next - number)) + others
  {
    hide Pad, Spelled, Foreign, Run;
    next, left := number, remaining;
    ghost var rest := numerals;
    LongerRun(width, number, 0);
    while prefix + Pad(width, next) + suffix in left
      invariant number <= next
      invariant rest == numerals - Run(width, number, next - number)
      invariant left == Spelled(prefix, suffix, rest) + others
      invariant RunLength(width, number, numerals) == next - number + RunLength(width, next, rest)
      decreases left
    {
      var numeral := Pad(width, next);
      HostPresent(prefix, suffix, numeral, rest, others);
      RemoveSpelled(prefix, suffix, numeral, rest, others);
      left := left - {prefix + numeral + suffix};
      next := next + 1;
      LongerRun(width, number, next - 1 - number);
      rest := rest - {numeral};
    }
    HostPresent(prefix, suffix, Pad(width, next), rest, others);
  }

  lemma HostPresent(prefix: string, suffix: string, numeral: string, numerals: set<string>, others: set<string>)
    requires IsNumeral(numeral) && Foreign(prefix, suffix, others)
    ensures prefix + numeral + suffix in Spelled(prefix, suffix, numerals) + others <==> numeral in numerals
  {
    var host := prefix + numeral + suffix;
    assert Spells(Numbered(prefix, suffix), host);
    if host in Spelled(prefix, suffix, numerals) {
      var d :| d in numerals && prefix + d + suffix == host;
      SpelledIsInjective(prefix, suffix, d, numeral);
    }
  }

  lemma RemoveSpelled(prefix: string, suffix: string, numeral: string, numerals: set<string>, others: set<string>)
    requires IsNumeral(numeral) && Foreign(prefix, suffix, others)
    ensures Spelled(prefix, suffix, numerals) + others - {prefix + numeral + suffix} ==
            Spelled(prefix, suffix, numerals - {numeral}) + others
  {
    var host := prefix + numeral + suffix;
    assert Spells(Numbered(prefix, suffix), host);
    forall d | d in numerals && prefix + d + suffix == host ensures d == numeral {
      SpelledIsInjective(prefix, suffix, d, numeral);
    }
  }

  /** The ranges of one group; `others` are the names left over from the groups still to come. */
  method CollectGroup(prefix: string, suffix: string, group: seq<Item>,
                      remaining: set<string>, ghost others: set<string>)
    returns (ranges: seq<Range>, left: set<string>)
    requires forall i | 0 <= i < |group| :: group[i].host == prefix + Pad(group[i].width, group[i].number) + suffix
    requires remaining == Spelled(prefix, suffix, Numerals(group)) + others
    requires Foreign(prefix, suffix, others)
    ensures ranges == RangesOf(group, Numerals(group))
    ensures left == others
  {
    ranges, left := [], remaining;
    var todo := group;
    ghost var rest := Numerals(group);
    ghost var goal := RangesOf(group, rest);
    while todo != []
      invariant forall i | 0 <= i < |todo| :: todo[i].host == prefix + Pad(todo[i].width, todo[i].number) + suffix
      invariant ranges + RangesOf(todo, rest) == goal
      invariant rest <= Numerals(todo)
      invariant left == Spelled(prefix, suffix, rest) + others
      decreases |todo|
    {
      var found;
      found, left := CollectMember(prefix, suffix, todo[0], left, rest, others);
      NumeralsStep(todo);
      TakenNumeral(todo[0], rest);
      rest := TakeRange(todo[0], rest).1;
      Append(ranges, found, RangesOf(todo[1..], rest));
      ranges := ranges + found;
      todo := todo[1..];
    }
    assert rest == {};
  }

  /** The body of the loop over a group. */
  method CollectMember(prefix: string, suffix: string, member: Item,
                       remaining: set<string>, ghost numerals: set<string>, ghost others: set<string>)
    returns (found: seq<Range>, left: set<string>)
    requires member.host == prefix + Pad(member.width, member.number) + suffix
    requires remaining == Spelled(prefix, suffix, numerals) + others && Foreign(prefix, suffix, others)
    ensures found == TakeRange(member, numerals).0
    ensures left == Spelled(prefix, suffix, TakeRange(member, numerals).1) + others
  {
    var Item(_, number, width, host) := member;
    HostPresent(prefix, suffix, Pad(width, number), numerals, others);
    if host !in remaining {
      return [], remaining;
    }
    var next;
    next, left := ScanRange(prefix, suffix, width, number, remaining, numerals, others);
    FirstOfRun(width, number, numerals);
    found := [Range(number, next - 1, width)];
  }

  lemma Append(a: seq<Range>, b: seq<Range>, c: seq<Range>)
    ensures a + (b + c) == a + b + c
  {
  }

  lemma NumeralsStep(members: seq<Item>)
    requires members != []
    ensures Numerals(members) == {Pad(members[0].width, members[0].number)} + Numerals(members[1..])
  {
    forall d | d in Numerals(members) ensures d in {Pad(members[0].width, members[0].number)} + Numerals(members[1..]) {
      var i :| 0 <= i < |members| && d == Pad(members[i].width, members[i].number);
      if i > 0 { assert members[1..][i - 1] == members[i]; }
    }
    forall d | d in Numerals(members[1..]) ensures d in Numerals(members) {
      var i :| 0 <= i < |members[1..]| && d == Pad(members[1..][i].width, members[1..][i].number);
      assert members[1..][i] == members[i + 1];
    }
  }

  lemma TakenNumeral(member: Item, numerals: set<string>)
    ensures TakeRange(member, numerals).1 <= numerals - {Pad(member.width, member.number)}
  {
    if Pad(member.width, member.number) in numerals { FirstOfRun(member.width, member.number, numerals); }
  }

  lemma FirstOfRun(width: nat, number: nat, numerals: set<string>)
    requires Pad(width, number) in numerals
    ensures RunLength(width, number, numerals) >= 1
    ensures Pad(width, number) in Run(width, number, RunLength(width, number, numerals))
  {
  }

  // ---------- groups stand together in the sorted list ----------

  lemma KeysFlip(a: Key, b: Key)
    ensures CompareKeys(a, b) < 0 <==> CompareKeys(b, a) > 0
  {
    CompareFlip(if a.Plain? then a.host else a.prefix, if b.Plain? then b.host else b.prefix);
    if a.Numbered? && b.Numbered? { CompareFlip(a.suffix, b.suffix); }
  }

  lemma KeysTransitive(a: Key, b: Key, c: Key)
    requires CompareKeys(a, b) <= 0 && CompareKeys(b, c) <= 0
    ensures CompareKeys(a, c) <= 0
    ensures CompareKeys(a, c) == 0 ==> a == b == c
  {
    CompareTransitive(if a.Plain? then a.host else a.prefix, if b.Plain? then b.host else b.prefix,
                      if c.Plain? then c.host else c.prefix);
    if a.Numbered? && b.Numbered? && c.Numbered? && a.prefix == b.prefix == c.prefix {
      CompareTransitive(a.suffix, b.suffix, c.suffix);
    }
  }

  lemma ItemsTransitive(a: Item, b: Item, c: Item)
    requires AtMost(a, b) && AtMost(b, c)
    ensures AtMost(a, c)
  {
    KeysTransitive(a.key, b.key, c.key);
    if a.host != b.host || b.host != c.host {
      CompareFlip(a.host, b.host);
      CompareFlip(b.host, c.host);
    }
    if Compare(a.host, b.host) <= 0 && Compare(b.host, c.host) <= 0 { CompareTransitive(a.host, b.host, c.host); }
  }

  lemma ItemsOrdered()
    ensures IsOrder(AtMost)
  {
    forall a, b ensures (AtMost(a, b) || AtMost(b, a)) && (AtMost(a, b) && AtMost(b, a) ==> a == b) {
      KeysFlip(a.key, b.key);
      CompareFlip(a.host, b.host);
    }
    forall a, b, c | AtMost(a, b) && AtMost(b, c) ensures AtMost(a, c) { ItemsTransitive(a, b, c); }
  }

  lemma KeysAtMost(a: Item, b: Item)
    requires AtMost(a, b)
    ensures CompareKeys(a.key, b.key) <= 0
  {
    hide CompareKeys, Compare;
  }

  /** After a group of the sorted list its key does not come back. */
  lemma KeyDoesNotReturn(items: seq<Item>, j: nat)
    requires items != [] && Sorted(items, AtMost) && GroupLength(items) <= j < |items|
    ensures items[j].key != items[0].key
  {
    hide Sorted, GroupLength, AtMost, CompareKeys;
    var n := GroupLength(items);
    SortedPair(items, 0, n);
    KeysAtMost(items[0], items[n]);
    if n < j {
      SortedPair(items, n, j);
      KeysAtMost(items[n], items[j]);
    }
    KeysFlip(items[0].key, items[n].key);
  }

  lemma SortedPair(items: seq<Item>, i: nat, j: nat)
    requires Sorted(items, AtMost) && i < j < |items|
    ensures AtMost(items[i], items[j])
  {
    hide AtMost;
  }

  // ---------- the sort entries of one round ----------

  ghost predicate WellFormed(item: Item) {
    match item.key
    case Plain(host) => item.host == host
    case Numbered(prefix, suffix) => item.host == prefix + Pad(item.width, item.number) + suffix
  }

  /** No entry has a name that another entry's group could produce. */
  ghost predicate Separated(items: seq<Item>) {
    && (forall i | 0 <= i < |items| :: WellFormed(items[i]))
    && (forall i, j | 0 <= i < |items| && 0 <= j < |items| && items[i].key != items[j].key ::
          !Spells(items[i].key, items[j].host))
  }

  lemma ShapesSeparate(e: Entry, f: Entry, k: nat)
    requires Shape(e, k) && Shape(f, k)
    ensures WellFormed(ItemOf(f))
    ensures ItemOf(e).key != ItemOf(f).key ==> !Spells(ItemOf(f).key, ItemOf(e).host)
  {
    if ItemOf(f).key.Numbered? { NumberedHost(ItemOf(f), f); }
    if Spells(ItemOf(f).key, ItemOf(e).host) {
      var d :| IsNumeral(d) && e.Name() == ItemOf(f).key.prefix + d + ItemOf(f).key.suffix;
      NotElsewhere(f, e, d, k);
    }
  }

  lemma NumberedItem(e: Entry)
    ensures ItemOf(e).key.Numbered? <==> MatchOf(e.left).number != ""
    ensures ItemOf(e).host == e.Name()
  {
    hide MatchOf;
  }

  lemma SortedItems(lr: seq<Entry>, k: nat)
    requires Shapes(lr, k)
    ensures var items := Sort(Items(lr), AtMost);
            && Sorted(items, AtMost) && Separated(items) && Hosts(items) == Hosts(Items(lr))
            && (AnyNumber(lr) <==> exists j | 0 <= j < |items| :: items[j].key.Numbered?)
  {
    hide Sort, MatchOf, ItemOf, WellFormed, Spells, Shape;
    var items, unsorted := Sort(Items(lr), AtMost), Items(lr);
    ItemsOrdered();
    SortSorts(unsorted, AtMost);
    SameElements(items, unsorted);
    assert Separated(unsorted) by {
      forall i, j | 0 <= i < |lr| && 0 <= j < |lr|
        ensures WellFormed(unsorted[i])
        ensures unsorted[i].key != unsorted[j].key ==> !Spells(unsorted[i].key, unsorted[j].host)
      {
        assert lr[i] in lr && lr[j] in lr;
        ShapesSeparate(lr[j], lr[i], k);
      }
    }
    forall j | 0 <= j < |lr| ensures MatchOf(lr[j].left).number != "" <==> unsorted[j].key.Numbered? {
      NumberedItem(lr[j]);
    }
  }

  lemma SameElements(a: seq<Item>, b: seq<Item>)
    requires forall x :: x in a <==> x in b
    ensures Hosts(a) == Hosts(b)
    ensures Separated(b) ==> Separated(a)
    ensures (exists j | 0 <= j < |a| :: a[j].key.Numbered?) <==> exists j | 0 <= j < |b| :: b[j].key.Numbered?
  {
    forall i | 0 <= i < |a| ensures a[i] in b { assert a[i] in a; }
    forall i | 0 <= i < |b| ensures b[i] in a { assert b[i] in b; }
  }

  /** What is left of the names when a group is done. */
  lemma SpellsOwn(item: Item)
    requires WellFormed(item) && item.key.Numbered?
    ensures Spells(item.key, item.host)
  {
    assert IsNumeral(Pad(item.width, item.number));
  }

  lemma GroupLeavesOthers(items: seq<Item>)
    requires items != [] && Sorted(items, AtMost) && Separated(items)
    ensures var n := GroupLength(items);
            var others := Hosts(items[n..]);
            match items[0].key
            case Plain(host) => Hosts(items) == {host} + others && host !in others
            case Numbered(prefix, suffix) =>
              && Hosts(items) == Spelled(prefix, suffix, Numerals(items[..n])) + others
              && Foreign(prefix, suffix, others)
  {
    var n := GroupLength(items);
    HostsSplit(items, n);
    GroupHosts(items[..n]);
    forall j | n <= j < |items|
      ensures items[0].key.Plain? ==> items[j].host != items[0].host
      ensures !Spells(items[0].key, items[j].host)
    {
      KeyDoesNotReturn(items, j);
      if items[j].key.Numbered? { SpellsOwn(items[j]); }
    }
    forall h | h in Hosts(items[n..]) ensures exists j | n <= j < |items| :: h == items[j].host {
      var i :| 0 <= i < |items[n..]| && h == items[n..][i].host;
      assert h == items[n + i].host;
    }
  }

  lemma HostsSplit(items: seq<Item>, n: nat)
    requires n <= |items|
    ensures Hosts(items) == Hosts(items[..n]) + Hosts(items[n..])
  {
    forall h | h in Hosts(items) ensures h in Hosts(items[..n]) + Hosts(items[n..]) {
      var i :| 0 <= i < |items| && h == items[i].host;
      if i < n { assert items[..n][i].host == h; } else { assert items[n..][i - n].host == h; }
    }
  }

  lemma GroupHosts(group: seq<Item>)
    requires group != [] && forall i | 0 <= i < |group| :: WellFormed(group[i]) && group[i].key == group[0].key
    ensures match group[0].key
            case Plain(host) => Hosts(group) == {host}
            case Numbered(prefix, suffix) => Hosts(group) == Spelled(prefix, suffix, Numerals(group))
  {
    match group[0].key {
      case Plain(host) =>
        assert group[0].host in Hosts(group);
      case Numbered(prefix, suffix) =>
        forall h | h in Spelled(prefix, suffix, Numerals(group)) ensures h in Hosts(group) {
          var d :| d in Numerals(group) && h == prefix + d + suffix;
          var i :| 0 <= i < |group| && d == Pad(group[i].width, group[i].number);
          assert group[i].host in Hosts(group);
        }
        forall h | h in Hosts(group) ensures h in Spelled(prefix, suffix, Numerals(group)) {
          var i :| 0 <= i < |group| && h == group[i].host;
          assert Pad(group[i].width, group[i].number) in Numerals(group);
        }
    }
  }

  // ---------- the functions of the file ----------

  /** The scan of collect_hostlist_1 over its input: the sort entries and the set of all names. */
  method ScanEntries(lr: seq<Entry>) returns (r: Result<(seq<Item>, set<string>), Error>)
    ensures r == if exists i | 0 <= i < |lr| :: Unmatched(lr[i].left) then Err(NoMatch)
                 else Ok((Items(lr), Hosts(Items(lr))))
  {
    hide ItemOf, Unmatched;
    var sortlist: seq<Item> := [];
    var remaining: set<string> := {};
    for i := 0 to |lr|
      invariant sortlist == Items(lr)[..i]
      invariant remaining == Hosts(sortlist)
      invariant forall j | 0 <= j < i :: !Unmatched(lr[j].left)
    {
      if Unmatched(lr[i].left) {
        return Err(NoMatch);
      }
      var item := ItemOf(lr[i]);
      AddHost(sortlist, item);
      NumberedItem(lr[i]);
      remaining := remaining + {lr[i].Name()};
      sortlist := sortlist + [item];
    }
    assert Items(lr)[..|lr|] == Items(lr);
    return Ok((sortlist, remaining));
  }

  lemma AddHost(items: seq<Item>, item: Item)
    ensures Hosts(items + [item]) == Hosts(items) + {item.host}
  {
    var more := items + [item];
    HostsSplit(more, |items|);
    assert more[..|items|] == items && more[|items|..] == [item];
    assert [item][0].host in Hosts([item]);
  }

  /** collect_hostlist_1 */
  method CollectRound(lr: seq<Entry>, ghost k: nat) returns (r: Result<(seq<Entry>, bool), Error>)
    requires Shapes(lr, k)
    ensures r == if exists i | 0 <= i < |lr| :: Unmatched(lr[i].left) then Err(NoMatch)
                 else Ok((RoundEntries(lr), AnyNumber(lr)))
  {
    var scan := ScanEntries(lr);
    if scan.Err? {
      return Err(scan.error);
    }
    SortedItems(lr, k);
    var results, needsAnotherLoop := FoldGroups(Sort(scan.value.0, AtMost), scan.value.1);
    return Ok((results, needsAnotherLoop));
  }

  /** The loop of collect_hostlist_1 over the groups of the sorted list. */
  method FoldGroups(sortlist: seq<Item>, names: set<string>) returns (results: seq<Entry>, needsAnotherLoop: bool)
    requires Sorted(sortlist, AtMost) && Separated(sortlist) && names == Hosts(sortlist)
    ensures results == GroupEntries(sortlist)
    ensures needsAnotherLoop <==> exists j | 0 <= j < |sortlist| :: sortlist[j].key.Numbered?
  {
    hide Separated, AtMost, GroupLength, RangesOf, Sorted, GroupEntry;
    var remaining, rest := names, sortlist;
    results, needsAnotherLoop := [], false;
    while rest != []
      invariant results + GroupEntries(rest) == GroupEntries(sortlist)
      invariant Sorted(rest, AtMost) && Separated(rest) && remaining == Hosts(rest)
      invariant (exists j | 0 <= j < |sortlist| :: sortlist[j].key.Numbered?) <==>
                needsAnotherLoop || exists j | 0 <= j < |rest| :: rest[j].key.Numbered?
      decreases |rest|
    {
      var n := GroupLength(rest);
      var entry;
      entry, remaining := CollectKey(rest, n, remaining);
      if rest[0].key.Numbered? {
        needsAnotherLoop := true;
      }
      ghost var later := GroupEntries(rest[n..]);
      assert results + ([entry] + later) == results + [entry] + later;
      results := results + [entry];
      RestOfItems(rest, n);
      rest := rest[n..];
    }
    assert remaining == {};
  }

  lemma RestOfItems(items: seq<Item>, n: nat)
    requires n <= |items| && Sorted(items, AtMost) && Separated(items)
    ensures Sorted(items[n..], AtMost) && Separated(items[n..])
    ensures (exists j | 0 <= j < |items| :: items[j].key.Numbered?) <==>
            || (exists j | 0 <= j < n :: items[j].key.Numbered?)
            || (exists j | 0 <= j < |items[n..]| :: items[n..][j].key.Numbered?)
  {
    assert forall j | n <= j < |items| :: items[j] == items[n..][j - n];
  }

  /** The result entry for the group at the front of the sorted list; its names leave `remaining`. */
  method CollectKey(items: seq<Item>, n: nat, remaining: set<string>) returns (entry: Entry, left: set<string>)
    requires items != [] && Sorted(items, AtMost) && Separated(items)
    requires n == GroupLength(items) && remaining == Hosts(items)
    ensures entry == GroupEntry(items[..n])
    ensures left == Hosts(items[n..])
  {
    GroupLeavesOthers(items);
    match items[0].key {
      case Plain(host) =>
        entry, left := Entry("", host), remaining - {host};
      case Numbered(prefix, suffix) =>
        var ranges;
        ranges, left := CollectGroup(prefix, suffix, items[..n], remaining, Hosts(items[n..]));
        entry := Entry(prefix, FoldedText(ranges) + suffix);
    }
  }

  function With(done: seq<string>, later: Result<seq<string>, Error>): (r: Result<seq<string>, Error>)
    ensures later == Ok([]) ==> r == Ok(done)
    ensures done == [] ==> r == later
  {
    match later
    case Ok(names) =>
      assert (done == [] ==> done + names == names) && (names == [] ==> done + names == done);
      Ok(done + names)
    case Err(e) => Err(e)
  }

  /** What the host at i adds to the names before it. */
  lemma AcceptedStep(hosts: seq<string>, i: nat, discard: bool, names: seq<string>)
    requires i < |hosts|
    ensures var host, here, later := Strip(hosts[i]), Accepted(hosts[i..], discard), Accepted(hosts[i + 1..], discard);
            if host == "" || (Forbidden(host) && discard) then here == later
            else if Forbidden(host) then With(names, here) == Err(ForbiddenCharacter)
            else With(names, here) == With(names + [host], later)
  {
    hide Strip, Forbidden;
    assert hosts[i..][1..] == hosts[i + 1..] && hosts[i..][0] == hosts[i];
    var later := Accepted(hosts[i + 1..], discard);
    if later.Ok? {
      var host := Strip(hosts[i]);
      ConcatAssociative(names, [host], later.value);
    }
  }

  lemma NothingForbidden(s: string)
    requires !Forbidden(s)
    ensures Avoids(s, BRACKETS)
  {}

  lemma AllAccepted(hosts: seq<string>, discard: bool)
    ensures Accepted(hosts[|hosts|..], discard) == Ok([]) && hosts[0..] == hosts
  {}

  lemma StartingShapes(names: seq<string>)
    requires forall j | 0 <= j < |names| :: Avoids(names[j], BRACKETS)
    ensures Shapes(Starting(names), 0)
  {}

  /** The checks of collect_hostlist on the names it is given. */
  method CheckNames(hosts: seq<string>, discard: bool) returns (r: Result<seq<string>, Error>)
    ensures r == Accepted(hosts, discard)
    ensures r.Ok? ==> Shapes(Starting(r.value), 0)
  {
    hide Accepted, With, Strip, Forbidden, Avoids, Shapes;
    var names: seq<string> := [];
    AllAccepted(hosts, discard);
    for i := 0 to |hosts|
      invariant Accepted(hosts, discard) == With(names, Accepted(hosts[i..], discard))
      invariant forall j | 0 <= j < |names| :: Avoids(names[j], BRACKETS)
    {
      var host := Strip(hosts[i]);
      AcceptedStep(hosts, i, discard, names);
      if host == "" {
        continue;
      }
      if Forbidden(host) {
        if discard {
          continue;
        } else {
          return Err(ForbiddenCharacter);
        }
      }
      NothingForbidden(host);
      names := names + [host];
    }
    StartingShapes(names);
    return Ok(names);
  }

  /** collect_hostlist */
  method CollectHostlist(hosts: seq<string>, discard: bool) returns (r: Result<string, Error>)
    ensures r == Collected(hosts, discard)
  {
    var names :- CheckNames(hosts, discard);
    var lr := Starting(names);
    ghost var k := 0;
    var looping := true;
    while looping
      invariant Shapes(lr, k)
      invariant if looping then Rounds(lr) == Rounds(Starting(names)) else Rounds(Starting(names)) == Ok(lr)
      decreases if looping then 1 + LongestLeft(lr) else 0
    {
      var round :- CollectRound(lr, k);
      if AnyNumber(lr) { RoundShrinks(lr); }
      RoundKeepsShape(lr, k);
      lr, looping, k := round.0, round.1, k + 1;
    }
    return Ok(Join(Names(lr), ','));
  }
}
