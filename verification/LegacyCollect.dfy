/**
 Collection of a list of hosts into a host list expression as cbench/sbin/hostlist.py
 does it: each round folds the rightmost numeric part that is still unprocessed.
 */
module LegacyCollect {
  import opened Text
  import opened Wrappers
  import opened Ordering
  import opened Lists

  datatype Error = ForbiddenCharacter | NoMatch

  // ---------- one host name ----------

  const BLANKS := {' ', '\t', '\n', '\r', 0x0b as char, 0x0c as char}

  /** s.strip() */
  function Strip(s: string): string { Trim(s, BLANKS) }

  predicate Forbidden(s: string) { exists i | 0 <= i < |s| :: s[i] in {',', '[', ']'} }

  /** What is collected from `left` so far stays on its left; `right` is only passed along. */
  datatype Entry = Entry(left: string, right: string) {
    function Name(): string { left + right }
  }

  /** The groups of the pattern `^(.*?)([0-9]+)?([^0-9]*)$`; number is empty when that group is None. */
  datatype Match = Match(prefix: string, number: string, suffix: string)

  /** Where the text that holds no more digits starts. */
  function TailStart(s: string): (b: nat)
    ensures b <= |s|
  {
    if s == "" || IsDigit(s[|s| - 1]) then |s| else TailStart(s[..|s| - 1])
  }

  function MatchOf(left: string): Match {
    var b := TailStart(left);
    var a := RunStart(left[..b]);
    Match(left[..a], left[a..b], left[b..])
  }

  lemma {:induction false} TailStartFacts(s: string)
    ensures var b := TailStart(s); NoDigits(s[b..]) && (b > 0 ==> IsDigit(s[b - 1]))
  {
    if s != "" && !IsDigit(s[|s| - 1]) {
      var t := s[..|s| - 1];
      TailStartFacts(t);
      var b := TailStart(t);
      assert s[b..] == t[b..] + [s[|s| - 1]];
    }
  }

  /** The groups make up the text; the number is the last run of digits, if there is one. */
  lemma MatchFacts(left: string)
    ensures var m := MatchOf(left);
            && m.prefix + m.number + m.suffix == left
            && AllDigits(m.number) && NoDigits(m.suffix)
            && (m.number == "" ==> m.prefix == "" && m.suffix == left)
            && (m.prefix != "" ==> !IsDigit(m.prefix[|m.prefix| - 1]))
            && (m.number != "" ==> |m.prefix| < |left|)
  {
    var b := TailStart(left);
    TailStartFacts(left);
    RunStartFacts(left[..b]);
    assert left[..b][RunStart(left[..b])..] == left[RunStart(left[..b])..b];
  }

  /** The lazy group does not cross a newline, so such a left part has no match at all. */
  predicate Unmatched(left: string) { '\n' in MatchOf(left).prefix }

  // ---------- sorting and grouping ----------

  /** The first element of a sort entry: (host, None), or (prefix, suffix). */
  datatype Key = Plain(host: string) | Numbered(prefix: string, suffix: string)

  /** A sort entry; a plain one has None for its number and its width. */
  datatype Item = Item(key: Key, number: nat, width: nat, host: string)

  function ItemOf(e: Entry): Item {
    var m := MatchOf(e.left);
    if m.number == "" then Item(Plain(e.Name()), 0, 0, e.Name())
    else
      MatchFacts(e.left);
      Item(Numbered(m.prefix, m.suffix + e.right), Value(m.number), |m.number|, e.Name())
  }

  function CompareKeys(a: Key, b: Key): (c: int)
    ensures c == 0 <==> a == b
  {
    var c := Compare(if a.Plain? then a.host else a.prefix, if b.Plain? then b.host else b.prefix);
    if c != 0 then c
    else if a.Plain? || b.Plain? then (if a.Plain? then 0 else 1) - (if b.Plain? then 0 else 1)
    else Compare(a.suffix, b.suffix)
  }

  function CompareItems(a: Item, b: Item): (c: int)
    ensures c == 0 <==> a == b
  {
    var c := CompareKeys(a.key, b.key);
    if c != 0 then c
    else if a.number != b.number then a.number - b.number
    else if a.width != b.width then a.width - b.width
    else Compare(a.host, b.host)
  }

  predicate AtMost(a: Item, b: Item) { CompareItems(a, b) <= 0 }

  /** How many entries at the front share the first one's key. */
  function GroupLength(items: seq<Item>): (n: nat)
    requires items != []
    ensures 1 <= n <= |items|
    ensures forall i | 0 <= i < n :: items[i].key == items[0].key
    ensures n < |items| ==> items[n].key != items[0].key
  {
    if |items| > 1 && items[1].key == items[0].key then
      assert forall i | 0 < i < |items| :: items[i] == items[1..][i - 1];
      1 + GroupLength(items[1..])
    else 1
  }

  // ---------- ranges ----------

  datatype Range = Range(low: nat, high: nat, width: nat)

  /** How many of the numerals number, number + 1, ... at this width are all in `numerals`. */
  function RunLength(width: nat, number: nat, numerals: set<string>): nat
    decreases numerals
  {
    var numeral := Pad(width, number);
    if numeral in numerals then 1 + RunLength(width, number + 1, numerals - {numeral}) else 0
  }

  function Run(width: nat, number: nat, count: nat): set<string> {
    set n | number <= n < number + count :: Pad(width, n)
  }

  /** The range that starts at a member, unless its numeral is taken already, and the numerals that are left. */
  function TakeRange(member: Item, numerals: set<string>): (seq<Range>, set<string>) {
    var Item(_, n, w, _) := member;
    if Pad(w, n) !in numerals then ([], numerals)
    else
      var count := RunLength(w, n, numerals);
      ([Range(n, n + count - 1, w)], numerals - Run(w, n, count))
  }

  /** The ranges that the group's members give, each one taking its numerals away. */
  function RangesOf(members: seq<Item>, numerals: set<string>): seq<Range> {
    if members == [] then []
    else
      var (found, rest) := TakeRange(members[0], numerals);
      found + RangesOf(members[1..], rest)
  }

  function FormatRange(r: Range): string {
    if r.low == r.high then Pad(r.width, r.low) else Pad(r.width, r.low) + "-" + Pad(r.width, r.high)
  }

  function FormatRanges(ranges: seq<Range>): (r: seq<string>)
    ensures |r| == |ranges|
    ensures forall i | 0 <= i < |r| :: r[i] == FormatRange(ranges[i])
  {
    seq(|ranges|, i requires 0 <= i < |ranges| => FormatRange(ranges[i]))
  }

  /** What stands for a group's numbers: a lone number, or a list of ranges in brackets. */
  function FoldedText(ranges: seq<Range>): string {
    if |ranges| == 1 && ranges[0].low == ranges[0].high then Pad(ranges[0].width, ranges[0].low)
    else "[" + Join(FormatRanges(ranges), ',') + "]"
  }

  function Numerals(members: seq<Item>): set<string> {
    set i | 0 <= i < |members| :: Pad(members[i].width, members[i].number)
  }

  function GroupEntry(members: seq<Item>): Entry
    requires members != []
  {
    match members[0].key
    case Plain(host) => Entry("", host)
    case Numbered(prefix, suffix) => Entry(prefix, FoldedText(RangesOf(members, Numerals(members))) + suffix)
  }

  /** One result entry for each group of a sorted list. */
  function GroupEntries(items: seq<Item>): seq<Entry> {
    if items == [] then []
    else [GroupEntry(items[..GroupLength(items)])] + GroupEntries(items[GroupLength(items)..])
  }

  function Items(lr: seq<Entry>): (r: seq<Item>)
    ensures |r| == |lr|
    ensures forall i | 0 <= i < |r| :: r[i] == ItemOf(lr[i])
  {
    seq(|lr|, i requires 0 <= i < |lr| => ItemOf(lr[i]))
  }

  /** The entries that one round leaves. */
  function RoundEntries(lr: seq<Entry>): seq<Entry> { GroupEntries(Sort(Items(lr), AtMost)) }

  /** Whether the round folded a number, which calls for another round. */
  predicate AnyNumber(lr: seq<Entry>) { exists i | 0 <= i < |lr| :: MatchOf(lr[i].left).number != "" }

  // ---------- the loop over the rounds ----------

  function LongestLeft(lr: seq<Entry>): (n: nat)
    ensures forall e | e in lr :: |e.left| <= n
    ensures lr == [] ==> n == 0
    ensures lr != [] ==> exists e | e in lr :: |e.left| == n
  {
    if lr == [] then 0
    else
      var n := LongestLeft(lr[1..]);
      assert lr == [lr[0]] + lr[1..];
      if |lr[0].left| > n || lr[1..] == [] then |lr[0].left| else n
  }

  /** `e` is what became of a group that `item` belongs to. */
  ghost predicate Derives(item: Item, e: Entry) {
    match item.key
    case Plain(host) => e == Entry("", host)
    case Numbered(prefix, suffix) =>
      e.left == prefix && exists ranges :: ranges != [] && e.right == FoldedText(ranges) + suffix
  }

  lemma GroupEntryDerives(members: seq<Item>)
    requires members != []
    ensures Derives(members[0], GroupEntry(members))
  {
    var first := Pad(members[0].width, members[0].number);
    assert first in Numerals(members);
    var ranges := RangesOf(members, Numerals(members));
    assert ranges != [];
  }

  lemma {:induction false} GroupEntriesDerive(items: seq<Item>, e: Entry)
    requires e in GroupEntries(items)
    ensures exists item | item in items :: Derives(item, e)
  {
    var n := GroupLength(items);
    if e == GroupEntry(items[..n]) {
      GroupEntryDerives(items[..n]);
      assert items[..n][0] in items;
    } else {
      GroupEntriesDerive(items[n..], e);
      var item :| item in items[n..] && Derives(item, e);
      assert item in items;
    }
  }

  lemma RoundEntryDerives(lr: seq<Entry>, e: Entry) returns (source: Entry)
    requires e in RoundEntries(lr)
    ensures source in lr && Derives(ItemOf(source), e)
  {
    GroupEntriesDerive(Sort(Items(lr), AtMost), e);
    var item :| item in Sort(Items(lr), AtMost) && Derives(item, e);
    assert item in multiset(Items(lr));
    var j :| 0 <= j < |lr| && Items(lr)[j] == item;
    source := lr[j];
  }

  lemma DerivedShorter(f: Entry, e: Entry)
    requires Derives(ItemOf(f), e)
    ensures |e.left| < |f.left| || e.left == ""
  {
    hide MatchOf;
    MatchFacts(f.left);
  }

  lemma RoundShrinks(lr: seq<Entry>)
    requires AnyNumber(lr)
    ensures LongestLeft(RoundEntries(lr)) < LongestLeft(lr)
  {
    assert LongestLeft(lr) > 0 by {
      var k :| 0 <= k < |lr| && MatchOf(lr[k].left).number != "";
      MatchFacts(lr[k].left);
      assert lr[k] in lr;
    }
    var results := RoundEntries(lr);
    forall e | e in results ensures |e.left| < LongestLeft(lr) {
      var f := RoundEntryDerives(lr, e);
      DerivedShorter(f, e);
    }
  }

  /** The rounds from `lr` on, each one shortening the longest left part. */
  function Rounds(lr: seq<Entry>): Result<seq<Entry>, Error>
    decreases LongestLeft(lr)
  {
    if exists i | 0 <= i < |lr| :: Unmatched(lr[i].left) then Err(NoMatch)
    else if AnyNumber(lr) then
      RoundShrinks(lr);
      Rounds(RoundEntries(lr))
    else Ok(RoundEntries(lr))
  }

  /** The host names that are collected: stripped, without the empty ones and the bad ones. */
  function Accepted(hosts: seq<string>, discard: bool): Result<seq<string>, Error> {
    if hosts == [] then Ok([])
    else
      var host := Strip(hosts[0]);
      if host == "" then Accepted(hosts[1..], discard)
      else if Forbidden(host) then
        (if discard then Accepted(hosts[1..], discard) else Err(ForbiddenCharacter))
      else
        var others :- Accepted(hosts[1..], discard);
        Ok([host] + others)
  }

  predicate Kept(host: string) { Strip(host) != "" && !Forbidden(Strip(host)) }

  predicate Refused(hosts: seq<string>, discard: bool) {
    !discard && exists i | 0 <= i < |hosts| :: Forbidden(Strip(hosts[i]))
  }

  /** The names that the hosts stand for: stripped, without the empty ones and the bad ones. */
  function KeptNames(hosts: seq<string>): set<string> { set h | h in hosts && Kept(h) :: Strip(h) }

  function KeptFlags(hosts: seq<string>): (flags: seq<bool>)
    ensures |flags| == |hosts| && forall i | 0 <= i < |flags| :: flags[i] == Kept(hosts[i])
  {
    seq(|hosts|, i requires 0 <= i < |hosts| => Kept(hosts[i]))
  }

  ghost predicate NamesAt(names: seq<string>, hosts: seq<string>, at: seq<nat>) {
    |names| == |at| && forall k | 0 <= k < |at| :: at[k] < |hosts| && names[k] == Strip(hosts[at[k]])
  }

  lemma ShiftedNames(names: seq<string>, hosts: seq<string>, at: seq<nat>)
    requires hosts != [] && NamesAt(names, hosts[1..], at)
    ensures NamesAt(names, hosts, Shifted(at))
    ensures NamesAt([Strip(hosts[0])] + names, hosts, [0] + Shifted(at))
  {
    hide Strip;
  }

  lemma RefusedMore(hosts: seq<string>, discard: bool)
    requires hosts != []
    ensures Refused(hosts, discard) <==> !discard && (Forbidden(Strip(hosts[0])) || Refused(hosts[1..], discard))
    ensures Refused(hosts[1..], discard) ==> !discard
  {
    hide Strip, Forbidden;
    assert forall i | 0 < i < |hosts| :: hosts[i] == hosts[1..][i - 1];
  }

  lemma NothingRefused(discard: bool)
    ensures !Refused([], discard) && Marks([], KeptFlags([])) && NamesAt([], [], [])
  {}

  /**
   Collecting refuses exactly the lists with a forbidden character in some stripped host, unless such
   hosts are discarded; otherwise it takes the kept hosts of the whole list, stripped and in order.
   */
  lemma {:induction false} AcceptedHosts(hosts: seq<string>, discard: bool) returns (at: seq<nat>)
    ensures Marks(at, KeptFlags(hosts))
    ensures Refused(hosts, discard) ==> Accepted(hosts, discard) == Err(ForbiddenCharacter)
    ensures !Refused(hosts, discard) ==>
              Accepted(hosts, discard).Ok? && NamesAt(Accepted(hosts, discard).value, hosts, at)
  {
    hide Strip, Forbidden, Marks, NamesAt, Refused;
    if hosts == [] {
      at := [];
      NothingRefused(discard);
    } else {
      var later := AcceptedHosts(hosts[1..], discard);
      assert KeptFlags(hosts)[1..] == KeptFlags(hosts[1..]);
      ShiftedMarks(later, KeptFlags(hosts));
      at := if Kept(hosts[0]) then [0] + Shifted(later) else Shifted(later);
      NothingForbidden();
      RefusedMore(hosts, discard);
      if !Refused(hosts[1..], discard) { ShiftedNames(Accepted(hosts[1..], discard).value, hosts, later); }
    }
  }

  lemma NothingForbidden()
    ensures !Forbidden("")
  {}

  /** The names taken are those of the hosts. */
  lemma AcceptedNames(hosts: seq<string>, discard: bool)
    requires !Refused(hosts, discard)
    ensures Accepted(hosts, discard).Ok? && Elements(Accepted(hosts, discard).value) == KeptNames(hosts)
  {
    hide Strip, Kept, Accepted, Refused;
    var at := AcceptedHosts(hosts, discard);
    var names := Accepted(hosts, discard).value;
    forall n | n in names ensures n in KeptNames(hosts) {
      var k :| 0 <= k < |names| && names[k] == n;
      assert at[k] in at && hosts[at[k]] in hosts;
    }
    forall h | h in hosts && Kept(h) ensures Strip(h) in names {
      var i :| 0 <= i < |hosts| && hosts[i] == h;
      assert i in at;
      var k :| 0 <= k < |at| && at[k] == i;
      assert names[k] == Strip(h);
    }
  }

  function Starting(hosts: seq<string>): (r: seq<Entry>)
    ensures |r| == |hosts|
    ensures forall i | 0 <= i < |r| :: r[i] == Entry(hosts[i], "")
  {
    seq(|hosts|, i requires 0 <= i < |hosts| => Entry(hosts[i], ""))
  }

  function Names(lr: seq<Entry>): (r: seq<string>)
    ensures |r| == |lr|
    ensures forall i | 0 <= i < |r| :: r[i] == lr[i].Name()
  {
    seq(|lr|, i requires 0 <= i < |lr| => lr[i].Name())
  }

  /** collect_hostlist */
  function Collected(hosts: seq<string>, discard: bool): Result<string, Error> {
    var accepted :- Accepted(hosts, discard);
    var parts :- Rounds(Starting(accepted));
    Ok(Join(Names(parts), ','))
  }
}
