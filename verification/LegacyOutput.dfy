/** What the text looks like that the legacy program collects hosts into. */
module LegacyOutput {
  import opened Text
  import opened Wrappers
  import opened Ordering
  import opened Lists
  import opened LegacyCollect
  import K = LegacyCollector
  import R = LegacyRoundTrip

  // ---------- the order of the names ----------

  ghost predicate Ascends(names: seq<string>) {
    forall i, j | 0 <= i < j < |names| :: Compare(names[i], names[j]) < 0
  }

  lemma LaterKey(items: seq<Item>, j: nat)
    requires items != [] && Sorted(items, AtMost) && GroupLength(items) <= j < |items|
    requires items[0].key.Plain? && items[j].key.Plain?
    ensures Compare(items[0].key.host, items[j].key.host) < 0
  {
    hide Sorted, GroupLength, AtMost, Compare;
    K.KeyDoesNotReturn(items, j);
    K.SortedPair(items, 0, j);
    K.KeysAtMost(items[0], items[j]);
  }

  /** The entry is all text on the right, that of one of the items. */
  ghost predicate NameFrom(e: Entry, items: seq<Item>) {
    e.left == "" && exists j | 0 <= j < |items| :: items[j].key == Plain(e.right)
  }

  lemma LaterName(items: seq<Item>, e: Entry)
    requires items != [] && Sorted(items, AtMost) && items[0].key.Plain?
    requires NameFrom(e, items[GroupLength(items)..])
    ensures NameFrom(e, items) && Compare(items[0].key.host, e.right) < 0
  {
    hide GroupLength, Compare, Sorted;
    var n := GroupLength(items);
    var j :| 0 <= j < |items[n..]| && items[n..][j].key == Plain(e.right);
    assert items[n + j].key == Plain(e.right);
    LaterKey(items, n + j);
  }

  lemma RestSorted(items: seq<Item>, n: nat)
    requires Sorted(items, AtMost) && n <= |items| && forall i | 0 <= i < |items| :: items[i].key.Plain?
    ensures Sorted(items[n..], AtMost) && forall i | 0 <= i < |items[n..]| :: items[n..][i].key.Plain?
  {
    hide AtMost;
    assert forall j | 0 <= j < |items[n..]| :: items[n..][j] == items[n + j];
  }

  /** Groups without a number give their names in order, all on the right. */
  lemma {:induction false} PlainGroups(items: seq<Item>)
    requires Sorted(items, AtMost) && forall i | 0 <= i < |items| :: items[i].key.Plain?
    ensures Ascends(Names(GroupEntries(items)))
    ensures forall k | 0 <= k < |GroupEntries(items)| :: NameFrom(GroupEntries(items)[k], items)
  {
    hide GroupLength, Compare, Sorted, NameFrom;
    if items != [] {
      var n := GroupLength(items);
      var e, later := GroupEntry(items[..n]), GroupEntries(items[n..]);
      RestSorted(items, n);
      PlainGroups(items[n..]);
      forall k | 0 <= k < |later| ensures NameFrom(later[k], items) && Compare(e.right, later[k].right) < 0 {
        LaterName(items, later[k]);
      }
      FirstName(e, later, items);
      assert GroupEntries(items) == [e] + later;
    }
  }

  lemma PlainName(e: Entry)
    requires e.left == ""
    ensures e.Name() == e.right
  {
    assert "" + e.right == e.right;
  }

  lemma FirstName(e: Entry, later: seq<Entry>, items: seq<Item>)
    requires items != [] && items[0].key == Plain(e.right) && e.left == ""
    requires forall k | 0 <= k < |later| :: NameFrom(later[k], items) && Compare(e.right, later[k].right) < 0
    requires Ascends(Names(later))
    ensures Ascends(Names([e] + later)) && NameFrom(e, items)
  {
    forall k | 0 <= k < |later| ensures later[k].left == "" && Compare(e.right, later[k].right) < 0 {
      assert NameFrom(later[k], items);
    }
    hide NameFrom, Compare;
    assert NameFrom(e, items) by { FirstFrom(e, items); }
    AscendsMore(e, later);
  }

  lemma FirstFrom(e: Entry, items: seq<Item>)
    requires items != [] && items[0].key == Plain(e.right) && e.left == ""
    ensures NameFrom(e, items)
  {}

  lemma AscendsMore(e: Entry, later: seq<Entry>)
    requires e.left == "" && Ascends(Names(later))
    requires forall k | 0 <= k < |later| :: later[k].left == "" && Compare(e.right, later[k].right) < 0
    ensures Ascends(Names([e] + later))
  {
    hide Compare;
    var names := Names([e] + later);
    forall i, j | 0 <= i < j < |names| ensures Compare(names[i], names[j]) < 0 {
      assert names[j] == Names(later)[j - 1];
      if i == 0 {
        PlainName(e);
        PlainName(later[j - 1]);
      } else {
        assert names[i] == Names(later)[i - 1];
      }
    }
  }

  /** The last round leaves the names in the order of strings, and no text that a round could look at. */
  lemma {:induction false} RoundsAscend(lr: seq<Entry>)
    requires Rounds(lr).Ok?
    ensures Ascends(Names(Rounds(lr).value)) && forall e | e in Rounds(lr).value :: e.left == ""
    decreases LongestLeft(lr)
  {
    hide RoundEntries, MatchOf, GroupEntries, Ascends, LongestLeft, Sort;
    if AnyNumber(lr) {
      RoundShrinks(lr);
      RoundsAscend(RoundEntries(lr));
    } else {
      LastRound(lr);
    }
  }

  lemma LastRound(lr: seq<Entry>)
    requires !AnyNumber(lr)
    ensures Ascends(Names(RoundEntries(lr))) && forall e | e in RoundEntries(lr) :: e.left == ""
  {
    hide MatchOf, GroupEntries, Ascends, Sort, AtMost;
    var items := Sort(Items(lr), AtMost);
    K.ItemsOrdered();
    SortSorts(Items(lr), AtMost);
    forall i | 0 <= i < |items| ensures items[i].key.Plain? {
      assert items[i] in multiset(Items(lr));
      var j :| 0 <= j < |lr| && Items(lr)[j] == items[i];
    }
    PlainGroups(items);
  }

  /** The names of the collected expression are different and in the order of strings. */
  lemma NamesInOrder(hosts: seq<string>, discard: bool) returns (names: seq<string>)
    requires Collected(hosts, discard).Ok?
    ensures Collected(hosts, discard) == Ok(Join(names, ',')) && Ascends(names)
  {
    var start := Starting(Accepted(hosts, discard).value);
    RoundsAscend(start);
    names := Names(Rounds(start).value);
  }

  // ---------- one entry for each key ----------

  /** The items of one group, in order. */
  function WithKey(items: seq<Item>, key: Key): (r: seq<Item>)
    ensures forall a :: a in r <==> a in items && a.key == key
  {
    if items == [] then []
    else
      assert items == [items[0]] + items[1..];
      (if items[0].key == key then [items[0]] else []) + WithKey(items[1..], key)
  }

  lemma {:induction false} WithKeyConcat(a: seq<Item>, b: seq<Item>, key: Key)
    ensures WithKey(a + b, key) == WithKey(a, key) + WithKey(b, key)
  {
    if a == [] {
      assert a + b == b;
    } else {
      assert (a + b)[1..] == a[1..] + b;
      WithKeyConcat(a[1..], b, key);
    }
  }

  lemma {:induction false} AllWithKey(items: seq<Item>, key: Key)
    requires forall i | 0 <= i < |items| :: items[i].key == key
    ensures WithKey(items, key) == items
  {
    if items != [] { AllWithKey(items[1..], key); }
  }

  lemma {:induction false} NoneWithKey(items: seq<Item>, key: Key)
    requires forall i | 0 <= i < |items| :: items[i].key != key
    ensures WithKey(items, key) == []
  {
    if items != [] { NoneWithKey(items[1..], key); }
  }

  /** The first group has all items of its key, and no item of another. */
  lemma FirstGroup(items: seq<Item>, key: Key)
    requires items != [] && Sorted(items, AtMost)
    ensures var n := GroupLength(items);
            && WithKey(items, items[0].key) == items[..n]
            && (key != items[0].key ==> WithKey(items, key) == WithKey(items[n..], key))
            && forall j | 0 <= j < |items[n..]| :: items[n..][j].key != items[0].key
  {
    hide GroupLength, Sorted, WithKey;
    var n := GroupLength(items);
    assert items == items[..n] + items[n..];
    forall j | 0 <= j < |items[n..]| ensures items[n..][j].key != items[0].key { K.KeyDoesNotReturn(items, n + j); }
    WithKeyConcat(items[..n], items[n..], items[0].key);
    AllWithKey(items[..n], items[0].key);
    NoneWithKey(items[n..], items[0].key);
    WithKeyConcat(items[..n], items[n..], key);
    if key != items[0].key { NoneWithKey(items[..n], key); }
  }

  /** The keys of the groups: the results are the groups of different keys, each with all of its items. */
  ghost predicate KeysOf(keys: seq<Key>, items: seq<Item>, results: seq<Entry>) {
    && |keys| == |results| && NoDuplicates(keys)
    && (forall k :: k in keys <==> exists a :: a in items && a.key == k)
    && forall i | 0 <= i < |keys| ::
         WithKey(items, keys[i]) != [] && results[i] == GroupEntry(WithKey(items, keys[i]))
  }

  lemma MoreOfKey(items: seq<Item>, n: nat, keys: seq<Key>, k: Key)
    requires 0 < n <= |items| && forall i | 0 <= i < n :: items[i].key == items[0].key
    requires forall q :: q in keys <==> exists a :: a in items[n..] && a.key == q
    ensures k in [items[0].key] + keys <==> exists a :: a in items && a.key == k
  {
    assert items == items[..n] + items[n..];
    assert items[0] in items;
    if a :| a in items && a.key == k { assert a in items[..n] || a in items[n..]; }
    if k in keys { var a :| a in items[n..] && a.key == k; }
  }

  lemma MoreKeys(keys: seq<Key>, items: seq<Item>, results: seq<Entry>)
    requires items != [] && Sorted(items, AtMost) && KeysOf(keys, items[GroupLength(items)..], results)
    ensures KeysOf([items[0].key] + keys, items, [GroupEntry(items[..GroupLength(items)])] + results)
  {
    hide GroupLength, Sorted, WithKey, GroupEntry, GroupEntries;
    var n, first := GroupLength(items), items[0].key;
    var rest := items[n..];
    FirstGroup(items, first);
    forall k ensures k in [first] + keys <==> exists a :: a in items && a.key == k { MoreOfKey(items, n, keys, k); }
    assert first !in keys;
    forall i | 0 <= i < |keys|
      ensures WithKey(items, keys[i]) != [] && results[i] == GroupEntry(WithKey(items, keys[i]))
    {
      FirstGroup(items, keys[i]);
    }
  }

  lemma {:induction false} GroupKeys(items: seq<Item>) returns (keys: seq<Key>)
    requires Sorted(items, AtMost)
    ensures KeysOf(keys, items, GroupEntries(items))
  {
    hide GroupLength, WithKey, GroupEntry, AtMost;
    if items == [] {
      keys := [];
    } else {
      var rest := items[GroupLength(items)..];
      assert forall j | 0 <= j < |rest| :: rest[j] == items[GroupLength(items) + j];
      keys := GroupKeys(rest);
      MoreKeys(keys, items, GroupEntries(rest));
      keys := [items[0].key] + keys;
    }
  }

  /** A round leaves one entry for each pair of prefix and suffix, made of all hosts that have them. */
  lemma RoundKeys(lr: seq<Entry>) returns (keys: seq<Key>)
    ensures KeysOf(keys, Sort(Items(lr), AtMost), RoundEntries(lr))
  {
    hide GroupEntries, Sort, AtMost, KeysOf;
    K.ItemsOrdered();
    SortSorts(Items(lr), AtMost);
    keys := GroupKeys(Sort(Items(lr), AtMost));
  }

  // ---------- the text of a group ----------

  lemma {:induction false} DigitsOfRanges(ranges: seq<Range>)
    requires R.Ascending(ranges)
    ensures |ranges| <= |R.RangeDigits(ranges)|
  {
    if ranges != [] { DigitsOfRanges(ranges[1..]); }
  }

  /** A lone number stands without brackets, several in brackets. */
  lemma LoneNumber(ranges: seq<Range>, numerals: set<string>)
    requires R.Covers(ranges, numerals) && numerals != {}
    ensures |numerals| == 1 ==> FoldedText(ranges) in numerals
    ensures |numerals| > 1 ==> FoldedText(ranges)[0] == '['
  {
    hide Pad, FormatRanges, Join;
    var digits := R.RangeDigits(ranges);
    LengthIsCount(digits);
    DigitsOfRanges(ranges);
    assert ranges != [];
    R.RangeDigitsMember(ranges, 0, ranges[0].low);
    if |ranges| == 1 { OneRange(ranges); }
  }

  lemma OneRange(ranges: seq<Range>)
    requires |ranges| == 1 && R.Ascending(ranges)
    ensures |R.RangeDigits(ranges)| == ranges[0].high + 1 - ranges[0].low
  {
    hide Pad;
    assert R.RangeDigits(ranges[1..]) == [];
  }

  /** A run ends where the next numeral is not there. */
  lemma {:induction false} RunStops(width: nat, number: nat, numerals: set<string>)
    ensures var count := RunLength(width, number, numerals);
            Pad(width, number + count) !in numerals - Run(width, number, count)
    decreases numerals
  {
    hide Pad;
    var numeral := Pad(width, number);
    if numeral in numerals {
      RunStops(width, number + 1, numerals - {numeral});
      var count := RunLength(width, number + 1, numerals - {numeral});
      assert Run(width, number, count + 1) == {numeral} + Run(width, number + 1, count);
    }
  }

  /** No range begins right behind another of its width. */
  ghost predicate NoneAdjoin(ranges: seq<Range>) {
    forall i, j | 0 <= i < |ranges| && 0 <= j < |ranges| && ranges[i].width == ranges[j].width ::
      ranges[i].high + 1 != ranges[j].low
  }

  /** What holds for each range of members in order of their numbers. */
  ghost predicate FromMembers(ranges: seq<Range>, least: nat, numerals: set<string>) {
    forall i | 0 <= i < |ranges| ::
      least <= ranges[i].low <= ranges[i].high && Pad(ranges[i].width, ranges[i].low) in numerals
  }

  lemma MoreRange(r: Range, later: seq<Range>, numerals: set<string>, rest: set<string>)
    requires r.low <= r.high && Pad(r.width, r.low) in numerals && rest <= numerals
    requires Pad(r.width, r.high + 1) !in rest
    requires NoneAdjoin(later) && FromMembers(later, r.low, rest)
    ensures NoneAdjoin([r] + later) && FromMembers([r] + later, r.low, numerals)
  {
    hide Pad;
  }

  ghost predicate NumbersRise(members: seq<Item>) {
    forall i, j | 0 <= i < j < |members| :: members[i].number <= members[j].number
  }

  lemma RestNumbers(members: seq<Item>)
    requires members != [] && NumbersRise(members)
    ensures NumbersRise(members[1..])
    ensures members[1..] != [] ==> members[0].number <= members[1..][0].number
  {
    assert forall k | 0 <= k < |members[1..]| :: members[1..][k] == members[k + 1];
  }

  /** What a member takes: nothing, or a range from its number on that ends where a numeral is missing. */
  lemma FoundRange(member: Item, numerals: set<string>)
    ensures var (found, rest) := TakeRange(member, numerals);
            && rest <= numerals
            && (found != [] ==>
                  && |found| == 1 && found[0].low == member.number <= found[0].high
                  && Pad(found[0].width, found[0].low) in numerals
                  && Pad(found[0].width, found[0].high + 1) !in rest)
  {
    hide Pad, Run, RunLength;
    var n, w := member.number, member.width;
    if Pad(w, n) in numerals {
      K.FirstOfRun(w, n, numerals);
      RunStops(w, n, numerals);
    }
  }

  lemma Weaker(ranges: seq<Range>, least: nat, less: nat, rest: set<string>, numerals: set<string>)
    requires FromMembers(ranges, least, rest) && less <= least && rest <= numerals
    ensures FromMembers(ranges, less, numerals)
  {
    hide Pad;
  }

  lemma {:induction false} RangesApart(members: seq<Item>, numerals: set<string>, least: nat)
    requires NumbersRise(members) && (members != [] ==> least <= members[0].number)
    ensures NoneAdjoin(RangesOf(members, numerals)) && FromMembers(RangesOf(members, numerals), least, numerals)
  {
    if members != [] {
      hide Pad, TakeRange, NoneAdjoin, FromMembers, NumbersRise;
      var n := members[0].number;
      var (found, rest) := TakeRange(members[0], numerals);
      var later := RangesOf(members[1..], rest);
      RestNumbers(members);
      RangesApart(members[1..], rest, n);
      FoundRange(members[0], numerals);
      if found == [] {
        assert found + later == later;
        Weaker(later, n, least, rest, numerals);
      } else {
        assert found == [found[0]];
        MoreRange(found[0], later, numerals, rest);
        Weaker(found + later, n, least, numerals, numerals);
      }
    }
  }

  lemma SameKeyNumbers(a: Item, b: Item)
    requires AtMost(a, b) && a.key == b.key
    ensures a.number <= b.number
  {
    hide CompareKeys;
  }

  /**
   A group of the sorted list is folded into one text: a lone number as it is, several in brackets as
   ranges that cover the numbers once each and that are as long as they can be.
   */
  lemma GroupText(members: seq<Item>) returns (ranges: seq<Range>)
    requires members != [] && members[0].key.Numbered? && Sorted(members, AtMost)
    requires forall i | 0 <= i < |members| :: members[i].key == members[0].key
    ensures GroupEntry(members) == Entry(members[0].key.prefix, FoldedText(ranges) + members[0].key.suffix)
    ensures R.Covers(ranges, Numerals(members)) && NoneAdjoin(ranges)
    ensures |Numerals(members)| == 1 ==> FoldedText(ranges) in Numerals(members)
    ensures |Numerals(members)| > 1 ==> FoldedText(ranges)[0] == '['
  {
    hide Pad, AtMost, FoldedText, FromMembers, R.Covers;
    ranges := RangesOf(members, Numerals(members));
    assert Pad(members[0].width, members[0].number) in Numerals(members);
    R.RangesCover(members, Numerals(members));
    forall i, j | 0 <= i < j < |members| ensures members[i].number <= members[j].number {
      SameKeyNumbers(members[i], members[j]);
    }
    RangesApart(members, Numerals(members), 0);
    LoneNumber(ranges, Numerals(members));
  }
}
