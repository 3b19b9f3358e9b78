/** The round trip over all folding rounds, and when xrange's limit breaks it. */
module LegacyTheorem {
  import opened Text
  import opened Wrappers
  import opened Ordering
  import opened Lists
  import opened HostSyntax
  import opened LegacyExpand
  import opened LegacyRoundTrip
  import C = LegacyCollect
  import S = LegacyShape
  import K = LegacyCollector

  // ---------- one round keeps what the list stands for ----------

  function AllHosts(lr: seq<C.Entry>, cap: nat): seq<string> {
    if lr == [] then [] else HostsOf(lr[0], cap) + AllHosts(lr[1..], cap)
  }

  ghost predicate GoodEntries(lr: seq<C.Entry>, cap: nat) { forall e | e in lr :: GoodEntry(e, cap) }

  /** Good entries, different ones for different hosts, that stand for exactly these hosts. */
  ghost predicate Represents(lr: seq<C.Entry>, cap: nat, all: set<string>) {
    && GoodEntries(lr, cap)
    && (forall e, f | e in lr && f in lr && e != f :: Disjoint(HostsOf(e, cap), HostsOf(f, cap)))
    && (forall x :: x in all <==> exists e :: e in lr && x in HostsOf(e, cap))
  }

  lemma {:induction false} AllHostsMember(lr: seq<C.Entry>, cap: nat, x: string)
    ensures x in AllHosts(lr, cap) <==> exists e :: e in lr && x in HostsOf(e, cap)
  {
    if lr != [] {
      AllHostsMember(lr[1..], cap, x);
      assert lr[0] in lr && forall e :: e in lr <==> e == lr[0] || e in lr[1..];
    }
  }

  lemma {:induction false} AllHostsApart(lr: seq<C.Entry>, cap: nat)
    requires NoDuplicates(AllHosts(lr, cap))
    ensures forall e, f | e in lr && f in lr && e != f :: Disjoint(HostsOf(e, cap), HostsOf(f, cap))
  {
    if lr != [] {
      NoDuplicatesSplit(HostsOf(lr[0], cap), AllHosts(lr[1..], cap));
      AllHostsApart(lr[1..], cap);
      forall f, x | f in lr[1..] && x in HostsOf(f, cap) ensures x in Elements(AllHosts(lr[1..], cap)) {
        AllHostsMember(lr[1..], cap, x);
      }
      assert forall e :: e in lr <==> e == lr[0] || e in lr[1..];
    }
  }

  ghost predicate SortEntries(items: seq<C.Item>, cap: nat, all: set<string>) {
    && Sorted(items, C.AtMost) && GoodItems(items, cap) && Apart(items, cap) && Within(items, cap, all)
    && |all| <= MAX_SIZE
  }

  lemma {:induction false} GroupEntriesMeaning(items: seq<C.Item>, cap: nat, all: set<string>)
    requires SortEntries(items, cap, all)
    ensures GoodEntries(C.GroupEntries(items), cap)
    ensures NoDuplicates(AllHosts(C.GroupEntries(items), cap))
    ensures forall x :: x in AllHosts(C.GroupEntries(items), cap) <==> exists a :: a in items && x in ItemHosts(a, cap)
  {
    if items != [] {
      hide C.GroupLength, C.GroupEntry, ItemHosts, HostsOf, GoodEntry, Disjoint, Sorted, GoodItems, Apart, Within, AllHosts,
        Elements, NoDuplicates;
      var n := C.GroupLength(items);
      var group, rest := items[..n], items[n..];
      assert items == group + rest;
      RestEntries(items, n, cap, all);
      GroupEntriesMeaning(rest, cap, all);
      GroupMeaning(group, cap, all);
      FirstEntry(items, cap, all);
      MoreHosts(C.GroupEntry(group), C.GroupEntries(rest), group, rest, cap);
    }
  }

  /** The entries of a list without its first ones. */
  lemma RestEntries(items: seq<C.Item>, n: nat, cap: nat, all: set<string>)
    requires SortEntries(items, cap, all) && 0 < n <= |items|
    ensures SortEntries(items[n..], cap, all)
    ensures GoodItems(items[..n], cap) && Apart(items[..n], cap) && Within(items[..n], cap, all)
  {
    hide ItemHosts, GoodItem, Disjoint, C.AtMost;
    var group, rest := items[..n], items[n..];
    assert forall i | 0 <= i < |rest| :: rest[i] == items[n + i];
    assert items == group + rest;
    assert forall a :: a in items <==> a in group || a in rest;
  }

  /** The first group's items have one key, and hosts that no later item has. */
  lemma FirstEntry(items: seq<C.Item>, cap: nat, all: set<string>)
    requires SortEntries(items, cap, all) && items != []
    ensures var group, rest := items[..C.GroupLength(items)], items[C.GroupLength(items)..];
            forall a, b | a in group && b in rest :: Disjoint(ItemHosts(a, cap), ItemHosts(b, cap))
  {
    hide C.GroupLength, ItemHosts, Disjoint, Sorted, GoodItems, Within;
    var n := C.GroupLength(items);
    forall a, b | a in items[..n] && b in items[n..] ensures Disjoint(ItemHosts(a, cap), ItemHosts(b, cap)) {
      OutsideGroup(items, a, b);
      assert a in items && b in items;
    }
  }

  /** One more entry in front, for hosts that the others do not stand for. */
  lemma MoreHosts(e: C.Entry, later: seq<C.Entry>, group: seq<C.Item>, rest: seq<C.Item>, cap: nat)
    requires forall a, b | a in group && b in rest :: Disjoint(ItemHosts(a, cap), ItemHosts(b, cap))
    requires GoodEntry(e, cap) && GoodEntries(later, cap) && SameHosts(e, group, cap)
    requires NoDuplicates(HostsOf(e, cap)) && NoDuplicates(AllHosts(later, cap))
    requires forall x :: x in AllHosts(later, cap) <==> exists a :: a in rest && x in ItemHosts(a, cap)
    ensures GoodEntries([e] + later, cap) && NoDuplicates(AllHosts([e] + later, cap))
    ensures forall x :: x in AllHosts([e] + later, cap) <==> exists a :: a in group + rest && x in ItemHosts(a, cap)
  {
    hide ItemHosts, HostsOf, GoodEntry, Disjoint, Elements, NoDuplicates;
    assert ([e] + later)[1..] == later;
    HostsApart(group, rest, cap, HostsOf(e, cap), AllHosts(later, cap));
    NoDuplicatesConcat(HostsOf(e, cap), AllHosts(later, cap));
  }

  /** Hosts of separate sort entries are separate. */
  lemma HostsApart(group: seq<C.Item>, rest: seq<C.Item>, cap: nat, hosts: seq<string>, others: seq<string>)
    requires forall a, b | a in group && b in rest :: Disjoint(ItemHosts(a, cap), ItemHosts(b, cap))
    requires forall x | x in hosts :: exists a :: a in group && x in ItemHosts(a, cap)
    requires forall x | x in others :: exists b :: b in rest && x in ItemHosts(b, cap)
    ensures Elements(hosts) !! Elements(others)
  {
    hide ItemHosts;
    forall x | x in hosts ensures x !in others {
      var a :| a in group && x in ItemHosts(a, cap);
      forall b | b in rest ensures x !in ItemHosts(b, cap) {
        assert x in Elements(ItemHosts(a, cap)) && Disjoint(ItemHosts(a, cap), ItemHosts(b, cap));
      }
    }
  }

  lemma OutsideGroup(items: seq<C.Item>, a: C.Item, b: C.Item)
    requires items != [] && Sorted(items, C.AtMost)
    requires a in items[..C.GroupLength(items)] && b in items[C.GroupLength(items)..]
    ensures a != b
  {
    var n := C.GroupLength(items);
    var j :| 0 <= j < |items[n..]| && items[n..][j] == b;
    K.KeyDoesNotReturn(items, n + j);
  }

  lemma RoundItems(lr: seq<C.Entry>, cap: nat, all: set<string>)
    requires Represents(lr, cap, all) && |all| <= MAX_SIZE
    ensures SortEntries(Sort(C.Items(lr), C.AtMost), cap, all)
    ensures forall x :: x in all <==> exists a :: a in Sort(C.Items(lr), C.AtMost) && x in ItemHosts(a, cap)
  {
    var items := Sort(C.Items(lr), C.AtMost);
    K.ItemsOrdered();
    SortSorts(C.Items(lr), C.AtMost);
    forall e | e in lr
      ensures C.ItemOf(e) in items && GoodItem(C.ItemOf(e), cap) && ItemHosts(C.ItemOf(e), cap) == HostsOf(e, cap)
    {
      var i :| 0 <= i < |lr| && lr[i] == e;
      assert C.Items(lr)[i] in C.Items(lr);
      ItemOfEntry(e, cap);
    }
    forall a | a in items ensures exists e :: e in lr && a == C.ItemOf(e) {
      var i :| 0 <= i < |C.Items(lr)| && C.Items(lr)[i] == a;
      assert lr[i] in lr;
    }
    forall a, b | a in items && b in items && a != b ensures Disjoint(ItemHosts(a, cap), ItemHosts(b, cap)) {
      var e :| e in lr && a == C.ItemOf(e);
      var f :| f in lr && b == C.ItemOf(f);
    }
  }

  lemma RoundMeaning(lr: seq<C.Entry>, cap: nat, all: set<string>)
    requires Represents(lr, cap, all) && |all| <= MAX_SIZE
    ensures Represents(C.RoundEntries(lr), cap, all) && NoDuplicates(AllHosts(C.RoundEntries(lr), cap))
  {
    var results := C.RoundEntries(lr);
    RoundItems(lr, cap, all);
    GroupEntriesMeaning(Sort(C.Items(lr), C.AtMost), cap, all);
    AllHostsApart(results, cap);
    forall x ensures x in all <==> exists e :: e in results && x in HostsOf(e, cap) {
      AllHostsMember(results, cap, x);
    }
  }

  lemma AlwaysMatched(lr: seq<C.Entry>, cap: nat)
    requires GoodEntries(lr, cap)
    ensures forall i | 0 <= i < |lr| :: !C.Unmatched(lr[i].left)
  {
    forall i | 0 <= i < |lr| ensures !C.Unmatched(lr[i].left) {
      assert lr[i] in lr;
      C.MatchFacts(lr[i].left);
      S.MatchAvoids(lr[i].left, SPECIAL);
    }
  }

  /** However many rounds it takes, the loop ends and the entries still stand for the same hosts. */
  lemma {:induction false} RoundsMeaning(lr: seq<C.Entry>, cap: nat, all: set<string>)
    requires Represents(lr, cap, all) && |all| <= MAX_SIZE
    ensures C.Rounds(lr).Ok?
    ensures Represents(C.Rounds(lr).value, cap, all) && NoDuplicates(AllHosts(C.Rounds(lr).value, cap))
    decreases C.LongestLeft(lr)
  {
    hide C.RoundEntries, C.LongestLeft, AllHosts, NoDuplicates;
    AlwaysMatched(lr, cap);
    RoundMeaning(lr, cap, all);
    if C.AnyNumber(lr) {
      C.RoundShrinks(lr);
      RoundsMeaning(C.RoundEntries(lr), cap, all);
    }
  }

  // ---------- the whole collection ----------

  ghost predicate Legal(names: seq<string>, cap: nat) {
    forall n | n in names :: n != "" && Avoids(n, SPECIAL) && Power(|n|) <= cap
  }

  lemma StartMeaning(names: seq<string>, cap: nat)
    requires Legal(names, cap)
    ensures Represents(C.Starting(names), cap, Elements(names))
  {
    var lr := C.Starting(names);
    forall e | e in lr ensures e.left in names && GoodEntry(e, cap) && HostsOf(e, cap) == [e.left] {
      var i :| 0 <= i < |lr| && lr[i] == e;
      assert names[i] in names;
      assert Expansion("", cap) == [""];
      assert Prepend(e.left, [""])[0] == e.left + "" == e.left;
    }
    forall x | x in names ensures C.Entry(x, "") in lr {
      var i :| 0 <= i < |names| && names[i] == x;
      assert lr[i] in lr;
    }
    forall x ensures x in Elements(names) <==> exists e :: e in lr && x in HostsOf(e, cap) {
      if x in names { assert C.Entry(x, "") in lr && x in HostsOf(C.Entry(x, ""), cap); }
    }
  }

  lemma {:induction false} PartsMeaning(lr: seq<C.Entry>, cap: nat)
    requires GoodEntries(lr, cap)
    ensures PartsOf(C.Names(lr), cap) == Ok(AllHosts(lr, cap))
    ensures forall i | 0 <= i < |lr| :: Closed(C.Names(lr)[i], 0) && Avoids(C.Names(lr)[i], {'\n'})
    ensures forall i | 0 <= i < |lr| :: ExpandPart(C.Names(lr)[i], cap) == Ok(HostsOf(lr[i], cap))
  {
    hide ExpandPart, Closed, Avoids;
    if lr != [] {
      assert lr[0] in lr;
      ExpandsText(lr[0].left, lr[0].right, cap);
      PartsMeaning(lr[1..], cap);
      assert C.Names(lr)[1..] == C.Names(lr[1..]);
      assert forall i | 1 <= i < |lr| :: C.Names(lr)[i] == C.Names(lr[1..])[i - 1];
    }
  }

  lemma FirstOccurrencesOfDistinct(l: seq<string>)
    requires NoDuplicates(l)
    ensures FirstOccurrences(l) == l
  {
    if l != [] {
      var n := |l| - 1;
      FirstOccurrencesOfDistinct(l[..n]);
      assert l == l[..n] + [l[n]];
    }
  }

  /** The parts that collect_hostlist joins. */
  function PartsFor(names: seq<string>): seq<string> {
    match C.Rounds(C.Starting(names)) case Ok(lr) => C.Names(lr) case Err(_) => []
  }

  ghost predicate GoodParts(parts: seq<string>, cap: nat) {
    forall i | 0 <= i < |parts| :: parts[i] != "" && Closed(parts[i], 0) && Avoids(parts[i], {'\n'})
  }

  lemma EmptyName(e: C.Entry, cap: nat)
    requires GoodEntry(e, cap) && e.Name() == ""
    ensures "" in HostsOf(e, cap)
  {
    assert HostsOf(e, cap) == [""];
    assert [""][0] == "";
  }

  /** Entries that stand for names that are not empty have such names themselves. */
  lemma NoEmptyName(lr: seq<C.Entry>, cap: nat, hosts: seq<string>)
    requires GoodEntries(lr, cap) && hosts == AllHosts(lr, cap) && "" !in hosts
    ensures forall i | 0 <= i < |lr| :: C.Names(lr)[i] != ""
  {
    hide HostsOf, GoodEntry;
    AllHostsMember(lr, cap, "");
    forall i | 0 <= i < |lr| ensures lr[i].Name() != "" {
      assert lr[i] in lr;
      if lr[i].Name() == "" { EmptyName(lr[i], cap); }
    }
  }

  lemma PartsForNames(names: seq<string>, cap: nat) returns (hosts: seq<string>)
    requires Legal(names, cap) && |Elements(names)| <= MAX_SIZE
    ensures C.Rounds(C.Starting(names)).Ok?
    ensures GoodParts(PartsFor(names), cap)
    ensures PartsOf(PartsFor(names), cap) == Ok(hosts)
    ensures NoDuplicates(hosts) && Elements(hosts) == Elements(names)
  {
    hide C.Rounds, C.Starting, C.Names, PartsOf, Represents, GoodParts, AllHosts, Elements, NoDuplicates;
    StartMeaning(names, cap);
    RoundsMeaning(C.Starting(names), cap, Elements(names));
    var lr := C.Rounds(C.Starting(names)).value;
    hosts := AllHosts(lr, cap);
    NoneEmpty(names, cap);
    PartsOfRounds(lr, cap, Elements(names));
  }

  lemma NoneEmpty(names: seq<string>, cap: nat)
    requires Legal(names, cap)
    ensures "" !in Elements(names)
  {}

  lemma PartsOfRounds(lr: seq<C.Entry>, cap: nat, all: set<string>)
    requires Represents(lr, cap, all) && "" !in all
    ensures GoodParts(C.Names(lr), cap)
    ensures PartsOf(C.Names(lr), cap) == Ok(AllHosts(lr, cap))
    ensures Elements(AllHosts(lr, cap)) == all
  {
    hide HostsOf, GoodEntry, PartsOf, Closed, Avoids, AllHosts, Disjoint, ExpandPart;
    var hosts := AllHosts(lr, cap);
    forall x ensures x in hosts <==> x in all { AllHostsMember(lr, cap, x); }
    PartsMeaning(lr, cap);
    NoEmptyName(lr, cap, hosts);
  }

  // ---------- the limit of xrange ----------

  /** Every range of an expression stops within the limit. */
  predicate RangesFit(s: string, cap: nat)
    decreases |s|
  {
    if s == "" then true
    else
      var cut := Cut(s);
      && (cut.group.Some? ==> ItemsFit(Split(cut.group.value, ','), cap))
      && (if |cut.rest| == |s| then RangesFit(s[1..], cap) else RangesFit(cut.rest, cap))
  }

  predicate ItemsFit(ranges: seq<string>, cap: nat) {
    forall i | 0 <= i < |ranges| ::
      match Dashed(Chomp(ranges[i])) case Some((_, b)) => Value(b) + 1 <= cap case None => true
  }

  lemma RangeUnderCap(prefix: string, range: string, cap: nat, big: nat)
    requires cap <= big && RangeOf(prefix, range, big).Ok?
    ensures RangeOf(prefix, range, cap) ==
            if ItemsFit([range], cap) then RangeOf(prefix, range, big) else Err(XrangeOverflow)
  {
    var text := Chomp(range);
    assert [range][0] == range;
    if IsNumeral(text) {
      assert Dashed(text) == None by {
        var d := Span(text, {'-'});
        assert d < |text| ==> IsDigit(text[d]);
      }
    }
  }

  lemma {:induction false} RangelistUnderCap(prefix: string, ranges: seq<string>, cap: nat, big: nat)
    requires cap <= big && RangelistOf(prefix, ranges, big).Ok?
    ensures RangelistOf(prefix, ranges, cap) ==
            if ItemsFit(ranges, cap) then RangelistOf(prefix, ranges, big) else Err(XrangeOverflow)
  {
    if ranges != [] {
      RangeUnderCap(prefix, ranges[0], cap, big);
      RangelistUnderCap(prefix, ranges[1..], cap, big);
      assert ItemsFit(ranges, cap) <==> ItemsFit([ranges[0]], cap) && ItemsFit(ranges[1..], cap) by {
        assert [ranges[0]][0] == ranges[0];
        assert forall i | 1 <= i < |ranges| :: ranges[i] == ranges[1..][i - 1];
      }
    }
  }

  lemma {:induction false} ClosedGroup(s: string)
    requires Closed(s, 1)
    ensures var n := Span(s, {']'}); n < |s| && Avoids(s[..n], {'[', ']'}) && Closed(s[n + 1..], 0)
  {
    if s != "" && s[0] != ']' {
      ClosedGroup(s[1..]);
      var n := Span(s[1..], {']'});
      assert s[1..][n + 1..] == s[n + 2..];
      assert s[..n + 1] == [s[0]] + s[1..][..n];
    }
  }

  /** The text of a closed part: plain text, then a group and another closed part unless that is all. */
  function Spelling(x: string, group: Option<string>, rest: string): string {
    if group == None then x + rest else x + ("[" + group.value + "]" + rest)
  }

  ghost predicate Form(s: string, x: string, group: Option<string>, rest: string) {
    && s == Spelling(x, group, rest) && Avoids(x, SPECIAL) && Avoids(rest, {'\n'})
    && if group == None then rest == "" || rest[0] == ',' else Avoids(group.value, {'[', ']'})
  }

  lemma FormExtend(c: char, t: string, x: string, group: Option<string>, rest: string)
    requires Form(t, x, group, rest) && c !in SPECIAL
    ensures Form([c] + t, [c] + x, group, rest)
  {
    if group == None {
      assert [c] + (x + rest) == [c] + x + rest;
    } else {
      var more := "[" + group.value + "]" + rest;
      assert [c] + (x + more) == [c] + x + more;
    }
  }

  lemma FormGroup(t: string, n: nat)
    requires n < |t| && t[n] == ']' && Avoids(t[..n], {'[', ']'}) && Avoids(t, {'\n'})
    ensures Form("[" + t, "", Some(t[..n]), t[n + 1..])
  {
    AvoidsTail(t, n + 1);
    var more := "[" + t[..n] + "]" + t[n + 1..];
    assert "" + more == more;
    assert t == t[..n] + "]" + t[n + 1..];
    assert "[" + (t[..n] + "]" + t[n + 1..]) == more;
  }

  lemma {:induction false} ClosedForm(s: string) returns (x: string, group: Option<string>, rest: string)
    requires s != "" && Closed(s, 0) && Avoids(s, {'\n'})
    ensures Form(s, x, group, rest) && Closed(rest, 0) && |rest| < |s|
    ensures group == None ==> rest == ""
  {
    var t := s[1..];
    AvoidsTail(s, 1);
    assert s == [s[0]] + t;
    if s[0] == '[' {
      ClosedGroup(t);
      var n := Span(t, {']'});
      FormGroup(t, n);
      x, group, rest := "", Some(t[..n]), t[n + 1..];
    } else if t == "" {
      x, group, rest := s, None, "";
    } else {
      x, group, rest := ClosedForm(t);
      FormExtend(s[0], t, x, group, rest);
      x := [s[0]] + x;
    }
  }

  lemma CutOfForm(s: string, x: string, group: Option<string>, rest: string)
    requires Form(s, x, group, rest)
    ensures Cut(s) == Pieces(x, group, rest)
  {
    assert x + "" == x;
    if group == None {
      SpanUnique(rest, {',', '['}, 0);
      SpanUnique(rest, {'\n'}, |rest|);
      assert rest[0..] == rest && rest[..|rest|] == rest && rest[..0] == "";
      CutPrepend(x, rest);
    } else {
      CutGroup(group.value, rest);
      CutPrepend(x, "[" + group.value + "]" + rest);
    }
  }

  /** Cutting a closed part leaves a shorter closed part. */
  lemma CutClosed(s: string)
    requires s != "" && Closed(s, 0) && Avoids(s, {'\n'})
    ensures |Cut(s).rest| < |s| && Closed(Cut(s).rest, 0) && Avoids(Cut(s).rest, {'\n'})
  {
    var x, group, rest := ClosedForm(s);
    CutOfForm(s, x, group, rest);
  }

  lemma SpellingLonger(x: string, group: Option<string>, rest: string, more: string)
    ensures Spelling(x, group, rest) + more == Spelling(x, group, rest + more)
  {
    if group.Some? {
      var head := "[" + group.value + "]";
      assert x + (head + rest) + more == x + (head + (rest + more));
      assert head + (rest + more) == head + rest + more;
    } else {
      assert x + rest + more == x + (rest + more);
    }
  }

  /** A comma after a closed part, and what follows it, stay in the rest. */
  lemma CutBeforeComma(s: string, more: string)
    requires s != "" && Closed(s, 0) && Avoids(s, {'\n'}) && Avoids("," + more, {'\n'})
    ensures Cut(s + ("," + more)) == Cut(s).(rest := Cut(s).rest + ("," + more))
  {
    var x, group, rest := ClosedForm(s);
    CutOfForm(s, x, group, rest);
    SpellingLonger(x, group, rest, "," + more);
    AvoidsConcat(rest, "," + more, {'\n'});
    CutOfForm(s + ("," + more), x, group, rest + ("," + more));
  }

  /** A lower limit only turns results into overflows, exactly where a range passes it. */
  lemma {:induction false} PartUnderCap(s: string, cap: nat, big: nat)
    requires cap <= big && Closed(s, 0) && Avoids(s, {'\n'}) && ExpandPart(s, big).Ok?
    ensures ExpandPart(s, cap) == if RangesFit(s, cap) then ExpandPart(s, big) else Err(XrangeOverflow)
    decreases |s|
  {
    if s != "" {
      var cut := Cut(s);
      CutClosed(s);
      PartUnderCap(cut.rest, cap, big);
      if cut.group.Some? {
        RangelistUnderCap(cut.prefix, Split(cut.group.value, ','), cap, big);
      }
    }
  }

  lemma {:induction false} PartsUnderCap(parts: seq<string>, cap: nat, big: nat)
    requires cap <= big && GoodParts(parts, big) && PartsOf(parts, big).Ok?
    ensures PartsOf(parts, cap) ==
            if AllFit(parts, cap) then PartsOf(parts, big) else Err(XrangeOverflow)
  {
    if parts != [] {
      PartUnderCap(parts[0], cap, big);
      PartsUnderCap(parts[1..], cap, big);
    }
  }

  lemma {:induction false} RangesFitBeforeComma(s: string, more: string, cap: nat)
    requires Closed(s, 0) && Avoids(s, {'\n'}) && Avoids("," + more, {'\n'})
    ensures RangesFit(s + ("," + more), cap) <==> RangesFit(s, cap) && RangesFit(more, cap)
    decreases |s|
  {
    var t := "," + more;
    if s == "" {
      assert s + t == t && t[1..] == more;
      assert Form(t, "", None, t) by { assert "" + t == t; }
      CutOfForm(t, "", None, t);
    } else {
      CutClosed(s);
      CutBeforeComma(s, more);
      var rest := Cut(s).rest;
      RangesFitBeforeComma(rest, more, cap);
    }
  }

  predicate AllFit(parts: seq<string>, cap: nat) {
    parts == [] || (RangesFit(parts[0], cap) && AllFit(parts[1..], cap))
  }

  lemma JoinedParts(parts: seq<string>, cap: nat)
    requires |parts| > 1 && GoodParts(parts, cap)
    ensures Avoids("," + Join(parts[1..], ','), {'\n'}) && GoodParts(parts[1..], cap)
    ensures Join(parts, ',') == parts[0] + ("," + Join(parts[1..], ','))
  {
    var others := parts[1..];
    assert forall i | 0 <= i < |others| :: others[i] == parts[i + 1];
    JoinAvoids(others, ',', {'\n'});
    AvoidsConcat(",", Join(others, ','), {'\n'});
  }

  lemma {:induction false} RangesFitParts(parts: seq<string>, cap: nat)
    requires GoodParts(parts, cap)
    ensures RangesFit(Join(parts, ','), cap) <==> AllFit(parts, cap)
  {
    if |parts| > 1 {
      JoinedParts(parts, cap);
      RangesFitParts(parts[1..], cap);
      RangesFitBeforeComma(parts[0], Join(parts[1..], ','), cap);
    }
  }

  // ---------- the theorem ----------

  lemma LimitFor(names: seq<string>, atLeast: nat) returns (big: nat)
    requires forall n | n in names :: n != "" && Avoids(n, SPECIAL)
    ensures Legal(names, big) && atLeast <= big
  {
    if names == [] {
      big := atLeast;
    } else {
      assert forall n :: n in names[1..] ==> n in names;
      big := LimitFor(names[1..], atLeast);
      big := if big < Power(|names[0]|) then Power(|names[0]|) else big;
      assert forall n :: n in names ==> n == names[0] || n in names[1..];
    }
  }

  /** The kept names that collecting starts from. */
  lemma NamesOfHosts(hosts: seq<string>, discard: bool) returns (names: seq<string>)
    requires !C.Refused(hosts, discard)
    ensures C.Accepted(hosts, discard) == Ok(names) && Elements(names) == C.KeptNames(hosts)
    ensures forall n | n in names :: n != "" && Avoids(n, {',', '[', ']'})
  {
    hide C.Accepted, C.Strip, C.Refused;
    C.AcceptedNames(hosts, discard);
    names := C.Accepted(hosts, discard).value;
    forall n | n in names ensures n != "" && Avoids(n, {',', '[', ']'}) {
      assert n in C.KeptNames(hosts);
      var h :| h in hosts && C.Kept(h) && C.Strip(h) == n;
    }
  }

  /**
   Collecting refuses a list exactly for a forbidden character that is not to be discarded. Any other
   hosts that hold no newline, at most MAX_SIZE different ones once stripped, are collected; and
   expanding the result gives exactly these distinct names, each once, if and only if xrange can stop
   where the ranges of the result do. Otherwise it raises the overflow.
   */
  lemma RoundTrip(hosts: seq<string>, discard: bool, allowDuplicates: bool, cap: nat)
    requires forall n | n in C.KeptNames(hosts) :: Avoids(n, {'\n'})
    requires |C.KeptNames(hosts)| <= MAX_SIZE
    ensures C.Refused(hosts, discard) ==> C.Collected(hosts, discard) == Err(C.ForbiddenCharacter)
    ensures !C.Refused(hosts, discard) ==>
              && C.Collected(hosts, discard).Ok?
              && var expression := C.Collected(hosts, discard).value;
                 var expanded := HostlistOf(expression, allowDuplicates, cap);
                 if RangesFit(expression, cap)
                 then expanded.Ok? && NoDuplicates(expanded.value) && Elements(expanded.value) == C.KeptNames(hosts)
                 else expanded == Err(XrangeOverflow)
  {
    hide C.Accepted, C.KeptNames, C.Refused;
    if C.Refused(hosts, discard) {
      var at := C.AcceptedHosts(hosts, discard);
    } else {
      var names := NamesOfHosts(hosts, discard);
      forall n | n in names ensures Avoids(n, SPECIAL) { assert n in Elements(names); }
      CollectedNames(hosts, names, discard, allowDuplicates, cap);
    }
  }

  lemma CollectedNames(hosts: seq<string>, names: seq<string>, discard: bool, allowDuplicates: bool, cap: nat)
    requires C.Accepted(hosts, discard) == Ok(names) && |Elements(names)| <= MAX_SIZE
    requires forall n | n in names :: n != "" && Avoids(n, SPECIAL)
    ensures C.Collected(hosts, discard).Ok?
    ensures var expression := C.Collected(hosts, discard).value;
            var expanded := HostlistOf(expression, allowDuplicates, cap);
            if RangesFit(expression, cap)
            then expanded.Ok? && NoDuplicates(expanded.value) && Elements(expanded.value) == Elements(names)
            else expanded == Err(XrangeOverflow)
  {
    var big := LimitFor(names, cap);
    var all := PartsForNames(names, big);
    var parts := PartsFor(names);
    HostlistOfParts(parts, cap);
    PartsUnderCap(parts, cap, big);
    RangesFitParts(parts, cap);
    FirstOccurrencesOfDistinct(all);
  }

  /** Names that are too short to hold a number at the limit always make the round trip. */
  lemma RoundTripOfShortNames(hosts: seq<string>, discard: bool, allowDuplicates: bool, cap: nat)
    requires !C.Refused(hosts, discard)
    requires forall n | n in C.KeptNames(hosts) :: Avoids(n, {'\n'}) && Power(|n|) <= cap
    requires |C.KeptNames(hosts)| <= MAX_SIZE
    ensures C.Collected(hosts, discard).Ok?
    ensures var expanded := HostlistOf(C.Collected(hosts, discard).value, allowDuplicates, cap);
            expanded.Ok? && NoDuplicates(expanded.value) && Elements(expanded.value) == C.KeptNames(hosts)
  {
    hide C.Accepted, C.KeptNames, C.Refused, HostlistOf;
    var names := NamesOfHosts(hosts, discard);
    forall n | n in names ensures Avoids(n, SPECIAL) && Power(|n|) <= cap { assert n in Elements(names); }
    CollectedShortNames(hosts, names, discard, allowDuplicates, cap);
  }

  lemma CollectedShortNames(hosts: seq<string>, names: seq<string>, discard: bool, allowDuplicates: bool, cap: nat)
    requires C.Accepted(hosts, discard) == Ok(names) && |Elements(names)| <= MAX_SIZE && Legal(names, cap)
    ensures C.Collected(hosts, discard).Ok?
    ensures var expanded := HostlistOf(C.Collected(hosts, discard).value, allowDuplicates, cap);
            expanded.Ok? && NoDuplicates(expanded.value) && Elements(expanded.value) == Elements(names)
  {
    var all := PartsForNames(names, cap);
    HostlistOfParts(PartsFor(names), cap);
    FirstOccurrencesOfDistinct(all);
  }
}
