/** Expanding what was collected gives the collected hosts back, each once. */
module LegacyRoundTrip {
  import opened Text
  import opened Wrappers
  import opened Lists
  import opened HostSyntax
  import opened LegacyExpand
  import C = LegacyCollect
  import S = LegacyShape
  import K = LegacyCollector

  // ---------- what an entry stands for ----------

  /** The hosts that a part expands to. */
  function Expansion(s: string, cap: nat): seq<string> {
    match ExpandPart(s, cap) case Ok(hosts) => hosts case Err(_) => []
  }

  ghost predicate Expands(s: string, cap: nat) {
    && ExpandPart(s, cap).Ok? && Expansion(s, cap) != [] && NoDuplicates(Expansion(s, cap))
    && Closed(s, 0) && Avoids(s, {'\n'})
  }

  function Power(n: nat): nat { if n == 0 then 1 else 10 * Power(n - 1) }

  lemma {:induction false} ValueBound(s: string)
    requires AllDigits(s)
    ensures Value(s) < Power(|s|)
  {
    if s != "" { ValueBound(s[..|s| - 1]); }
  }

  lemma PowerMonotone(m: nat, n: nat)
    requires m <= n
    ensures Power(m) <= Power(n)
  {
    if m < n { PowerMonotone(m, n - 1); }
  }

  function HostsOf(e: C.Entry, cap: nat): seq<string> { Prepend(e.left, Expansion(e.right, cap)) }

  ghost predicate GoodEntry(e: C.Entry, cap: nat) {
    Avoids(e.left, SPECIAL) && Expands(e.right, cap) && Power(|e.left|) <= cap
  }

  function ItemHosts(item: C.Item, cap: nat): seq<string> {
    match item.key
    case Plain(host) => Expansion(host, cap)
    case Numbered(prefix, suffix) => Prepend(prefix + Pad(item.width, item.number), Expansion(suffix, cap))
  }

  ghost predicate GoodItem(item: C.Item, cap: nat) {
    match item.key
    case Plain(host) => Expands(host, cap) && Power(0) <= cap
    case Numbered(prefix, suffix) =>
      Avoids(prefix, SPECIAL) && Expands(suffix, cap) && item.number < cap && Power(|prefix|) <= cap
  }

  lemma PrependInjective(x: string, items: seq<string>)
    ensures NoDuplicates(items) ==> NoDuplicates(Prepend(x, items))
    ensures NoDuplicates(Prepend(x, items)) ==> NoDuplicates(items)
  {
    var r := Prepend(x, items);
    forall i, j | 0 <= i < |r| && 0 <= j < |r| ensures r[i] == r[j] <==> items[i] == items[j] {
      assert r[i][|x|..] == items[i] && r[j][|x|..] == items[j];
    }
  }

  /** Text before a part goes before each of its hosts. */
  lemma ExpandsText(x: string, s: string, cap: nat)
    requires Avoids(x, SPECIAL) && Expands(s, cap)
    ensures Expands(x + s, cap) && Expansion(x + s, cap) == Prepend(x, Expansion(s, cap))
  {
    PartPrepend(x, s, cap);
    PrependInjective(x, Expansion(s, cap));
    ClosedText(x, s, 0);
    AvoidsConcat(x, s, {'\n'});
  }

  lemma ItemOfEntry(e: C.Entry, cap: nat)
    requires GoodEntry(e, cap)
    ensures GoodItem(C.ItemOf(e), cap) && ItemHosts(C.ItemOf(e), cap) == HostsOf(e, cap)
  {
    var m := C.MatchOf(e.left);
    C.MatchFacts(e.left);
    S.MatchAvoids(e.left, SPECIAL);
    if m.number == "" {
      ExpandsText(e.left, e.right, cap);
      PowerMonotone(0, |e.left|);
    } else {
      ExpandsText(m.suffix, e.right, cap);
      PadOfValue(m.number);
      PrependPrepend(m.prefix + m.number, m.suffix, Expansion(e.right, cap));
      ValueBound(m.number);
      PowerMonotone(|m.number|, |e.left|);
      PowerMonotone(|m.prefix|, |e.left|);
    }
  }

  // ---------- the ranges of a group are exactly its numerals ----------

  lemma {:induction false} RunWithin(w: nat, n: nat, numerals: set<string>)
    ensures C.Run(w, n, C.RunLength(w, n, numerals)) <= numerals
    decreases numerals
  {
    var numeral := Pad(w, n);
    if numeral in numerals {
      RunWithin(w, n + 1, numerals - {numeral});
      var count := C.RunLength(w, n + 1, numerals - {numeral});
      assert C.Run(w, n, 1 + count) <= {numeral} + C.Run(w, n + 1, count) by {
        forall m | n <= m < n + 1 + count ensures Pad(w, m) in {numeral} + C.Run(w, n + 1, count) {}
      }
    }
  }

  lemma NumberedRun(w: nat, low: nat, high: nat)
    requires low <= high
    ensures NoDuplicates(Numbered("", w, low, high))
    ensures Elements(Numbered("", w, low, high)) == C.Run(w, low, high + 1 - low)
  {
    hide Pad;
    var digits := Numbered("", w, low, high);
    forall i | 0 <= i < |digits| ensures digits[i] == Pad(w, low + i) {
      assert "" + Pad(w, low + i) == Pad(w, low + i);
    }
    forall i, j | 0 <= i < j < |digits| ensures digits[i] != digits[j] {
      if digits[i] == digits[j] { PadInjective(w, low + i, low + j); }
    }
    forall d | d in C.Run(w, low, high + 1 - low) ensures d in digits {
      var m :| low <= m < high + 1 && d == Pad(w, m);
      assert digits[m - low] == d;
    }
  }

  function RangeDigits(ranges: seq<C.Range>): seq<string>
    requires forall i | 0 <= i < |ranges| :: ranges[i].low <= ranges[i].high
  {
    if ranges == [] then []
    else Numbered("", ranges[0].width, ranges[0].low, ranges[0].high) + RangeDigits(ranges[1..])
  }

  ghost predicate Ascending(ranges: seq<C.Range>) {
    forall i | 0 <= i < |ranges| :: ranges[i].low <= ranges[i].high
  }

  ghost predicate Covers(ranges: seq<C.Range>, numerals: set<string>) {
    Ascending(ranges) && NoDuplicates(RangeDigits(ranges)) && Elements(RangeDigits(ranges)) == numerals
  }

  lemma TakenRange(member: C.Item, numerals: set<string>)
    ensures var (found, rest) := C.TakeRange(member, numerals);
            Covers(found, numerals - rest) && rest <= numerals
  {
    hide Pad, Numbered, C.Run, C.RunLength;
    var n, w := member.number, member.width;
    if Pad(w, n) in numerals {
      var count := C.RunLength(w, n, numerals);
      K.FirstOfRun(w, n, numerals);
      RunWithin(w, n, numerals);
      NumberedRun(w, n, n + count - 1);
      var found := [C.Range(n, n + count - 1, w)];
      assert RangeDigits(found) == Numbered("", w, n, n + count - 1) + RangeDigits([]);
      assert numerals - (numerals - C.Run(w, n, count)) == C.Run(w, n, count);
    }
  }

  lemma FirstDigits(r: C.Range, later: seq<C.Range>)
    requires r.low <= r.high && Ascending(later)
    ensures Ascending([r] + later)
    ensures RangeDigits([r] + later) == Numbered("", r.width, r.low, r.high) + RangeDigits(later)
  {
    hide Numbered;
    assert ([r] + later)[1..] == later;
  }

  lemma {:induction false} RangeDigitsConcat(a: seq<C.Range>, b: seq<C.Range>)
    requires Ascending(a) && Ascending(b)
    ensures Ascending(a + b) && RangeDigits(a + b) == RangeDigits(a) + RangeDigits(b)
  {
    if a == [] {
      assert a + b == b;
    } else {
      hide Numbered, RangeDigits;
      RangeDigitsConcat(a[1..], b);
      assert a == [a[0]] + a[1..] && a + b == [a[0]] + (a[1..] + b);
      FirstDigits(a[0], a[1..]);
      FirstDigits(a[0], a[1..] + b);
      ConcatAssociative(Numbered("", a[0].width, a[0].low, a[0].high), RangeDigits(a[1..]), RangeDigits(b));
    }
  }

  lemma CoverMore(found: seq<C.Range>, later: seq<C.Range>, numerals: set<string>, rest: set<string>)
    requires Covers(found, numerals - rest) && Covers(later, rest) && rest <= numerals
    ensures Covers(found + later, numerals)
  {
    RangeDigitsConcat(found, later);
    NoDuplicatesConcat(RangeDigits(found), RangeDigits(later));
    ElementsConcat(RangeDigits(found), RangeDigits(later));
  }

  /** The ranges of a group cover each of its numerals once and nothing else. */
  lemma {:induction false} RangesCover(members: seq<C.Item>, numerals: set<string>)
    requires numerals <= C.Numerals(members)
    ensures Covers(C.RangesOf(members, numerals), numerals)
  {
    if members != [] {
      var (found, rest) := C.TakeRange(members[0], numerals);
      K.NumeralsStep(members);
      K.TakenNumeral(members[0], numerals);
      RangesCover(members[1..], rest);
      TakenRange(members[0], numerals);
      CoverMore(found, C.RangesOf(members[1..], rest), numerals, rest);
    }
  }

  lemma NumberedMember(r: C.Range, m: nat)
    requires r.low <= m <= r.high
    ensures Pad(r.width, m) in Numbered("", r.width, r.low, r.high)
  {
    hide Pad;
    var digits := Numbered("", r.width, r.low, r.high);
    assert digits[m - r.low] == "" + Pad(r.width, m) == Pad(r.width, m);
  }

  lemma {:induction false} RangeDigitsMember(ranges: seq<C.Range>, i: nat, m: nat)
    requires Ascending(ranges) && i < |ranges| && ranges[i].low <= m <= ranges[i].high
    ensures Pad(ranges[i].width, m) in RangeDigits(ranges)
    ensures ranges[i].high - ranges[i].low < |RangeDigits(ranges)|
  {
    hide Numbered, Pad;
    if i == 0 {
      NumberedMember(ranges[0], m);
    } else {
      RangeDigitsMember(ranges[1..], i - 1, m);
    }
  }

  // ---------- formatting a range and expanding it ----------

  lemma SamePadding(width: nat, low: nat, high: nat)
    requires low <= high
    ensures Numbered("", |Pad(width, low)|, low, high) == Numbered("", width, low, high)
  {
    hide *;
    var a, b := Numbered("", |Pad(width, low)|, low, high), Numbered("", width, low, high);
    forall i | 0 <= i < |a| ensures a[i] == b[i] { WidthOfLow(width, low, low + i); }
  }

  lemma FormattedRange(r: C.Range, cap: nat)
    requires r.low <= r.high && r.high - r.low <= MAX_SIZE && r.high < cap
    ensures RangeOf("", C.FormatRange(r), cap) == Ok(Numbered("", r.width, r.low, r.high))
  {
    var a, b := Pad(r.width, r.low), Pad(r.width, r.high);
    if r.low == r.high {
      var digits := Numbered("", r.width, r.low, r.high);
      assert digits == ["" + a];
      assert IsDigit(a[|a| - 1]);
    } else {
      ValueOfPad(r.width, r.low);
      ValueOfPad(r.width, r.high);
      DashedPair(a, b);
      SamePadding(r.width, r.low, r.high);
    }
  }

  lemma {:induction false} FormattedRanges(ranges: seq<C.Range>, cap: nat)
    requires Ascending(ranges)
    requires forall i | 0 <= i < |ranges| :: ranges[i].high - ranges[i].low <= MAX_SIZE && ranges[i].high < cap
    ensures RangelistOf("", C.FormatRanges(ranges), cap) == Ok(RangeDigits(ranges))
  {
    if ranges != [] {
      FormattedRange(ranges[0], cap);
      FormattedRanges(ranges[1..], cap);
      assert C.FormatRanges(ranges)[1..] == C.FormatRanges(ranges[1..]);
    }
  }

  // ---------- one group ----------

  lemma {:induction false} CrossMembers(left: seq<string>, right: seq<string>, x: string)
    ensures x in Cross(left, right) <==> exists d :: d in left && x in Prepend(d, right)
  {
    if left != [] {
      CrossMembers(left[1..], right, x);
      assert left[0] in left;
      assert forall d :: d in left <==> d == left[0] || d in left[1..];
    }
  }

  ghost predicate Disjoint(a: seq<string>, b: seq<string>) { Elements(a) !! Elements(b) }

  /** A cross product has no duplicates when no two of its left strings lead to the same result. */
  lemma {:induction false} CrossDistinct(left: seq<string>, right: seq<string>)
    requires NoDuplicates(left) && NoDuplicates(right)
    requires forall a, b | a in left && b in left && a != b :: Disjoint(Prepend(a, right), Prepend(b, right))
    ensures NoDuplicates(Cross(left, right))
  {
    if left != [] {
      CrossDistinct(left[1..], right);
      PrependInjective(left[0], right);
      forall x | x in Prepend(left[0], right) ensures x !in Cross(left[1..], right) {
        forall d | d in left[1..] ensures x !in Prepend(d, right) {
          assert d in left && left[0] in left && d != left[0];
          assert x in Elements(Prepend(left[0], right));
        }
        CrossMembers(left[1..], right, x);
      }
      NoDuplicatesConcat(Prepend(left[0], right), Cross(left[1..], right));
    }
  }

  /** Entries that differ stand for different hosts. */
  ghost predicate Apart(items: seq<C.Item>, cap: nat) {
    forall a, b | a in items && b in items && a != b :: Disjoint(ItemHosts(a, cap), ItemHosts(b, cap))
  }

  ghost predicate Within(items: seq<C.Item>, cap: nat, all: set<string>) {
    forall a | a in items :: Elements(ItemHosts(a, cap)) <= all
  }

  ghost predicate GoodItems(items: seq<C.Item>, cap: nat) { forall a | a in items :: GoodItem(a, cap) }

  ghost predicate SameHosts(e: C.Entry, items: seq<C.Item>, cap: nat) {
    forall x :: x in HostsOf(e, cap) <==> exists a :: a in items && x in ItemHosts(a, cap)
  }

  lemma NumeralMember(members: seq<C.Item>, d: string) returns (a: C.Item)
    requires d in C.Numerals(members)
    ensures a in members && d == Pad(a.width, a.number)
  {
    var i :| 0 <= i < |members| && d == Pad(members[i].width, members[i].number);
    a := members[i];
  }

  /** The hosts of a numbered group: prefix, one of its numerals, and a host of the common suffix. */
  function GroupHosts(prefix: string, digits: seq<string>, suffix: string, cap: nat): seq<string> {
    Prepend(prefix, Cross(digits, Expansion(suffix, cap)))
  }

  lemma GroupHostsMembers(prefix: string, digits: seq<string>, suffix: string, cap: nat, x: string)
    ensures x in GroupHosts(prefix, digits, suffix, cap) <==>
            exists d :: d in digits && x in Prepend(prefix + d, Expansion(suffix, cap))
  {
    var tails := Expansion(suffix, cap);
    CrossPrepend(prefix, digits, tails);
    CrossMembers(Prepend(prefix, digits), tails, x);
    forall d | d in digits ensures prefix + d in Prepend(prefix, digits) {
      var i :| 0 <= i < |digits| && digits[i] == d;
      assert Prepend(prefix, digits)[i] == prefix + d;
    }
    forall u | u in Prepend(prefix, digits) ensures exists d :: d in digits && u == prefix + d {
      var i :| 0 <= i < |digits| && Prepend(prefix, digits)[i] == u;
      assert digits[i] in digits;
    }
  }

  lemma NumberedGroup(members: seq<C.Item>, prefix: string, suffix: string, digits: seq<string>, cap: nat)
    requires members != [] && GoodItems(members, cap) && Apart(members, cap)
    requires forall a | a in members :: a.key == C.Numbered(prefix, suffix)
    requires NoDuplicates(digits) && Elements(digits) == C.Numerals(members)
    ensures NoDuplicates(GroupHosts(prefix, digits, suffix, cap))
    ensures forall x :: x in GroupHosts(prefix, digits, suffix, cap) <==>
                        exists a :: a in members && x in ItemHosts(a, cap)
  {
    var tails := Expansion(suffix, cap);
    assert members[0] in members && GoodItem(members[0], cap);
    forall a, b | a in digits && b in digits && a != b ensures Disjoint(Prepend(a, tails), Prepend(b, tails)) {
      assert a in Elements(digits) && b in Elements(digits);
      var m := NumeralMember(members, a);
      var n := NumeralMember(members, b);
      assert Disjoint(ItemHosts(m, cap), ItemHosts(n, cap));
      DisjointTails(prefix, a, b, tails);
    }
    CrossDistinct(digits, tails);
    PrependInjective(prefix, Cross(digits, tails));
    forall x ensures x in GroupHosts(prefix, digits, suffix, cap) <==> exists a :: a in members && x in ItemHosts(a, cap) {
      GroupHostsMembers(prefix, digits, suffix, cap, x);
      if d :| d in digits && x in Prepend(prefix + d, tails) {
        assert d in Elements(digits);
        var a := NumeralMember(members, d);
        assert a in members && x in ItemHosts(a, cap);
      }
      if a :| a in members && x in ItemHosts(a, cap) {
        var i :| 0 <= i < |members| && members[i] == a;
        assert Pad(a.width, a.number) in C.Numerals(members);
        assert Pad(a.width, a.number) in Elements(digits);
      }
    }
  }

  lemma DisjointTails(prefix: string, a: string, b: string, tails: seq<string>)
    requires Disjoint(Prepend(prefix + a, tails), Prepend(prefix + b, tails))
    ensures Disjoint(Prepend(a, tails), Prepend(b, tails))
  {
    PrependPrepend(prefix, a, tails);
    PrependPrepend(prefix, b, tails);
    var p, q := Prepend(prefix + a, tails), Prepend(prefix + b, tails);
    forall i, j | 0 <= i < |tails| && 0 <= j < |tails| ensures Prepend(a, tails)[i] != Prepend(b, tails)[j] {
      assert Prepend(prefix, Prepend(a, tails))[i] == prefix + Prepend(a, tails)[i];
      assert Prepend(prefix, Prepend(b, tails))[j] == prefix + Prepend(b, tails)[j];
      assert p[i] in Elements(p) && q[j] in Elements(q);
    }
  }

  lemma FoldedClosed(ranges: seq<C.Range>, suffix: string)
    requires Closed(suffix, 0) && Avoids(suffix, {'\n'})
    ensures Closed(C.FoldedText(ranges) + suffix, 0) && Avoids(C.FoldedText(ranges) + suffix, {'\n'})
  {
    if |ranges| == 1 && ranges[0].low == ranges[0].high {
      var numeral := Pad(ranges[0].width, ranges[0].low);
      DigitsAvoid(numeral, SPECIAL);
      ClosedText(numeral, suffix, 0);
      AvoidsConcat(numeral, suffix, {'\n'});
    } else {
      var items := C.FormatRanges(ranges);
      K.FormatAvoids(ranges, {'[', ']', '\n'});
      JoinAvoids(items, ',', {'[', ']', '\n'});
      GroupClosed(Join(items, ','), suffix);
    }
  }

  lemma LoneExpansion(width: nat, low: nat, suffix: string, cap: nat)
    requires Expands(suffix, cap)
    ensures ExpandPart(Pad(width, low) + suffix, cap) == Ok(Cross(Numbered("", width, low, low), Expansion(suffix, cap)))
  {
    var numeral := Pad(width, low);
    assert Numbered("", width, low, low)[0] == "" + numeral == numeral;
    assert Numbered("", width, low, low) == [numeral];
    DigitsAvoid(numeral, SPECIAL);
    PartPrepend(numeral, suffix, cap);
    CrossSingle(numeral, Expansion(suffix, cap));
  }

  lemma BracketExpansion(ranges: seq<C.Range>, suffix: string, tails: seq<string>, cap: nat)
    requires Ascending(ranges) && ranges != [] && ExpandPart(suffix, cap) == Ok(tails) && Avoids(suffix, {'\n'})
    requires forall i | 0 <= i < |ranges| :: ranges[i].high - ranges[i].low <= MAX_SIZE && ranges[i].high < cap
    requires |Cross(RangeDigits(ranges), tails)| <= MAX_SIZE
    ensures ExpandPart("[" + Join(C.FormatRanges(ranges), ',') + "]" + suffix, cap) ==
            Ok(Cross(RangeDigits(ranges), tails))
  {
    hide Prepend, Cross, ExpandPart, RangelistOf, C.FormatRanges, C.FormatRange, RangeDigits, Join, Avoids;
    FormattedRanges(ranges, cap);
    K.FormatAvoids(ranges, SPECIAL);
    PartGroup(C.FormatRanges(ranges), suffix, RangeDigits(ranges), tails, cap);
    CrossLength(RangeDigits(ranges), tails);
  }

  lemma ShortRanges(ranges: seq<C.Range>, tails: seq<string>)
    requires Ascending(ranges) && tails != [] && |Cross(RangeDigits(ranges), tails)| <= MAX_SIZE
    ensures forall i | 0 <= i < |ranges| :: ranges[i].high - ranges[i].low <= MAX_SIZE
  {
    hide RangeDigits, Cross, Numbered, Pad;
    CrossLength(RangeDigits(ranges), tails);
    assert |RangeDigits(ranges)| <= |RangeDigits(ranges)| * |tails|;
    forall i | 0 <= i < |ranges| ensures ranges[i].high - ranges[i].low <= MAX_SIZE {
      RangeDigitsMember(ranges, i, ranges[i].low);
    }
  }

  /** Expanding what stands for a group's numbers gives them back, before every host of the suffix. */
  lemma FoldedExpansion(ranges: seq<C.Range>, suffix: string, cap: nat)
    requires Ascending(ranges) && ranges != [] && Expands(suffix, cap)
    requires forall i | 0 <= i < |ranges| :: ranges[i].high < cap
    requires |Cross(RangeDigits(ranges), Expansion(suffix, cap))| <= MAX_SIZE
    ensures ExpandPart(C.FoldedText(ranges) + suffix, cap) == Ok(Cross(RangeDigits(ranges), Expansion(suffix, cap)))
  {
    if |ranges| == 1 && ranges[0].low == ranges[0].high {
      LoneExpansion(ranges[0].width, ranges[0].low, suffix, cap);
      assert RangeDigits(ranges) == Numbered("", ranges[0].width, ranges[0].low, ranges[0].low) + [];
    } else {
      ShortRanges(ranges, Expansion(suffix, cap));
      BracketExpansion(ranges, suffix, Expansion(suffix, cap), cap);
    }
  }

  lemma NumberedEntry(members: seq<C.Item>, cap: nat, all: set<string>)
    requires members != [] && members[0].key.Numbered? && forall a | a in members :: a.key == members[0].key
    requires GoodItems(members, cap) && Apart(members, cap) && Within(members, cap, all) && |all| <= MAX_SIZE
    ensures var e := C.GroupEntry(members);
            GoodEntry(e, cap) && NoDuplicates(HostsOf(e, cap)) && SameHosts(e, members, cap)
  {
    var prefix, suffix := members[0].key.prefix, members[0].key.suffix;
    assert members[0] in members;
    var numerals := C.Numerals(members);
    var ranges := C.RangesOf(members, numerals);
    RangesCover(members, numerals);
    var digits, tails := RangeDigits(ranges), Expansion(suffix, cap);
    NumberedGroup(members, prefix, suffix, digits, cap);
    forall x | x in Elements(GroupHosts(prefix, digits, suffix, cap)) ensures x in all {
      var a :| a in members && x in ItemHosts(a, cap);
      assert x in Elements(ItemHosts(a, cap));
    }
    LengthBound(GroupHosts(prefix, digits, suffix, cap), all);
    assert ranges != [] && digits != [] by {
      assert Pad(members[0].width, members[0].number) in numerals;
      assert Pad(members[0].width, members[0].number) in Elements(digits);
    }
    RangesBelow(members, ranges, cap);
    FoldedExpansion(ranges, suffix, cap);
    FoldedClosed(ranges, suffix);
    CrossLength(digits, tails);
    assert |digits| * |tails| >= 1;
    PrependInjective(prefix, Cross(digits, tails));
  }

  lemma RangesBelow(members: seq<C.Item>, ranges: seq<C.Range>, cap: nat)
    requires GoodItems(members, cap) && (forall a | a in members :: a.key.Numbered?)
    requires Covers(ranges, C.Numerals(members))
    ensures forall i | 0 <= i < |ranges| :: ranges[i].high < cap
  {
    forall i | 0 <= i < |ranges| ensures ranges[i].high < cap {
      RangeDigitsMember(ranges, i, ranges[i].high);
      var d := Pad(ranges[i].width, ranges[i].high);
      assert d in Elements(RangeDigits(ranges));
      var a := NumeralMember(members, d);
      ValueOfPad(ranges[i].width, ranges[i].high);
      ValueOfPad(a.width, a.number);
    }
  }

  lemma GroupMeaning(members: seq<C.Item>, cap: nat, all: set<string>)
    requires members != [] && forall a | a in members :: a.key == members[0].key
    requires GoodItems(members, cap) && Apart(members, cap) && Within(members, cap, all) && |all| <= MAX_SIZE
    ensures var e := C.GroupEntry(members);
            GoodEntry(e, cap) && NoDuplicates(HostsOf(e, cap)) && SameHosts(e, members, cap)
  {
    assert members[0] in members;
    if members[0].key.Plain? {
      PrependNothing(Expansion(members[0].key.host, cap));
    } else {
      NumberedEntry(members, cap, all);
    }
  }
}
