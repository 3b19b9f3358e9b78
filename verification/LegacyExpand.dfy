/**
 Expansion of a host list expression as cbench/sbin/hostlist.py does it: a scan that
 splits at top-level commas, and a recursive cross product over the bracket groups.

 `cap` is the largest stop value that xrange takes (sys.maxint under the Python 2
 that the file is written for).
 */
module LegacyExpand {
  import opened Text
  import opened Wrappers
  import opened HostSyntax
  import opened Lists

  const MAX_SIZE: nat := 100000
  const MAX_LONG: nat := 0x7fff_ffff_ffff_ffff

  datatype Error =
    | NestedBrackets
    | UnbalancedBrackets
    | ResultsTooLarge
    | BadRange
    | StartAfterStop
    | RangeTooLarge
    | XrangeOverflow
    | EndlessRecursion

  type Hosts = Result<seq<string>, Error>

  /** The results so far, put before whatever is still to come. */
  function Before(done: seq<string>, later: Hosts): (r: Hosts)
    ensures done == [] ==> r == later
    ensures later == Ok([]) ==> r == Ok(done)
  {
    match later
    case Ok(hosts) =>
      assert (done == [] ==> done + hosts == hosts) && (hosts == [] ==> done + hosts == done);
      Ok(done + hosts)
    case Err(e) => Err(e)
  }

  lemma BeforeMore(done: seq<string>, more: seq<string>, later: Hosts)
    ensures Before(done, Before(more, later)) == Before(done + more, later)
  {
    if later.Ok? { assert done + (more + later.value) == done + more + later.value; }
  }

  // ---------- one range ----------

  function Numbered(prefix: string, width: nat, low: nat, high: nat): (r: seq<string>)
    requires low <= high + 1
    ensures |r| == high + 1 - low
    ensures forall i | 0 <= i < |r| :: r[i] == prefix + Pad(width, low + i)
  {
    seq(high + 1 - low, i requires 0 <= i < high + 1 - low => prefix + Pad(width, low + i))
  }

  /** The groups of the pattern `^([0-9]+)-([0-9]+)$`. */
  function Dashed(text: string): Option<(string, string)> {
    var dash := Span(text, {'-'});
    if dash < |text| && IsNumeral(text[..dash]) && IsNumeral(text[dash + 1..])
    then Some((text[..dash], text[dash + 1..])) else None
  }

  lemma DashedPair(a: string, b: string)
    requires IsNumeral(a) && IsNumeral(b)
    ensures Chomp(a + "-" + b) == a + "-" + b && !IsNumeral(a + "-" + b)
    ensures Dashed(a + "-" + b) == Some((a, b))
  {
    var s := a + "-" + b;
    assert s[|s| - 1] == b[|b| - 1] && IsDigit(b[|b| - 1]);
    assert s[..|a|] == a && s[|a|] == '-' && s[|a| + 1..] == b;
    SpanUnique(s, {'-'}, |a|);
  }

  /** What expand_range returns. */
  function RangeOf(prefix: string, range: string, cap: nat): Hosts {
    var text := Chomp(range);
    if IsNumeral(text) then Ok([prefix + range])
    else
      match Dashed(text)
      case None => Err(BadRange)
      case Some((a, b)) =>
        if Value(b) < Value(a) then Err(StartAfterStop)
        else if Value(b) - Value(a) > MAX_SIZE then Err(RangeTooLarge)
        else if Value(b) + 1 > cap then Err(XrangeOverflow)
        else Ok(Numbered(prefix, |a|, Value(a), Value(b)))
  }

  method ExpandRange(prefix: string, range: string, cap: nat) returns (r: Hosts)
    ensures r == RangeOf(prefix, range, cap)
  {
    var text := Chomp(range);
    if IsNumeral(text) {
      return Ok([prefix + range]);
    }
    var groups := Dashed(text);
    if groups == None {
      return Err(BadRange);
    }
    var (sLow, sHigh) := groups.value;
    var low, high, width := Value(sLow), Value(sHigh), |sLow|;
    if high < low {
      return Err(StartAfterStop);
    } else if high - low > MAX_SIZE {
      return Err(RangeTooLarge);
    } else if high + 1 > cap {
      return Err(XrangeOverflow);
    }
    var results: seq<string> := [];
    for i := low to high + 1
      invariant results == Numbered(prefix, width, low, high)[..i - low]
    {
      results := results + [prefix + Pad(width, i)];
    }
    assert results == Numbered(prefix, width, low, high);
    return Ok(results);
  }

  /** What expand_rangelist returns for the items between the commas. */
  function RangelistOf(prefix: string, ranges: seq<string>, cap: nat): Hosts {
    if ranges == [] then Ok([])
    else
      var first :- RangeOf(prefix, ranges[0], cap);
      Before(first, RangelistOf(prefix, ranges[1..], cap))
  }

  method ExpandRangelist(prefix: string, rangelist: string, cap: nat) returns (r: Hosts)
    ensures r == RangelistOf(prefix, Split(rangelist, ','), cap)
  {
    var ranges := Split(rangelist, ',');
    var results: seq<string> := [];
    assert ranges[0..] == ranges;
    for i := 0 to |ranges|
      invariant RangelistOf(prefix, ranges, cap) == Before(results, RangelistOf(prefix, ranges[i..], cap))
    {
      var some := ExpandRange(prefix, ranges[i], cap);
      assert ranges[i..][1..] == ranges[i + 1..];
      if some.Err? {
        return Err(some.error);
      }
      BeforeMore(results, some.value, RangelistOf(prefix, ranges[i + 1..], cap));
      results := results + some.value;
    }
    return Ok(results);
  }

  // ---------- one part ----------

  /** The text before the first bracket or comma, the group in brackets if one follows, and the rest of the line. */
  datatype Pieces = Pieces(prefix: string, group: Option<string>, rest: string)

  function Cut(s: string): (r: Pieces)
    ensures |r.rest| <= |s|
  {
    var p := Span(s, {',', '['});
    CutFrom(s[..p], s[p..])
  }

  function CutFrom(prefix: string, tail: string): (r: Pieces)
    ensures |r.rest| <= |tail|
  {
    var close := Span(tail, {']'});
    var grouped := tail != "" && tail[0] == '[' && close < |tail|;
    var after := if grouped then tail[close + 1..] else tail;
    Pieces(prefix, if grouped then Some(tail[1..close]) else None, after[..Span(after, {'\n'})])
  }

  /** The hosts of one part from its pieces and from the hosts of its rest. */
  function Combine(prefix: string, group: Option<string>, rest: seq<string>, cap: nat): Hosts {
    var us :- if group == None then Ok([prefix]) else RangelistOf(prefix, Split(group.value, ','), cap);
    if |us| * |rest| > MAX_SIZE then Err(ResultsTooLarge) else Ok(Cross(us, rest))
  }

  /** expand_part. A part on which the pattern makes no progress recurses until Python gives up. */
  function ExpandPart(s: string, cap: nat): Hosts
    decreases |s|
  {
    if s == "" then Ok([""])
    else
      var cut := Cut(s);
      if |cut.rest| == |s| then Err(EndlessRecursion)
      else
        var rest :- ExpandPart(cut.rest, cap);
        Combine(cut.prefix, cut.group, rest, cap)
  }

  // ---------- the whole expression ----------

  /** What expand_hostlist's scan still adds after reading up to `s`, inside `level` brackets, with `part` pending. */
  function ScanOf(s: string, level: nat, part: string, cap: nat): Hosts
    requires level <= 1
  {
    if s == "" then
      if level > 0 then Err(UnbalancedBrackets) else Ok([])
    else if s[0] == ',' && level == 0 then
      var some :- if part == "" then Ok([]) else ExpandPart(part, cap);
      Before(some, ScanOf(s[1..], 0, "", cap))
    else
      var next := level + (if s[0] == '[' then 1 else if s[0] == ']' then -1 else 0);
      if next > 1 then Err(NestedBrackets)
      else if next < 0 then Err(UnbalancedBrackets)
      else ScanOf(s[1..], next, part + [s[0]], cap)
  }

  /** The elements of l at their first occurrence. */
  function FirstOccurrences(l: seq<string>): (r: seq<string>)
    ensures forall x :: x in r <==> x in l
  {
    if l == [] then []
    else
      var last := |l| - 1;
      var r := FirstOccurrences(l[..last]);
      if l[last] in l[..last] then r else r + [l[last]]
  }

  /** They are picked in order, each at the first place that holds it. */
  lemma {:induction false} OccurrencesAreFirst(l: seq<string>) returns (at: seq<nat>)
    ensures FirstPlaces(FirstOccurrences(l), l, at)
  {
    if l == [] {
      at := [];
    } else {
      var n := |l| - 1;
      var before := OccurrencesAreFirst(l[..n]);
      at := if l[n] in l[..n] then before else before + [n];
      OneMorePlace(FirstOccurrences(l[..n]), l, before, at);
    }
  }

  lemma OneMorePlace(r: seq<string>, l: seq<string>, before: seq<nat>, at: seq<nat>)
    requires l != [] && FirstPlaces(r, l[..|l| - 1], before)
    requires at == if l[|l| - 1] in l[..|l| - 1] then before else before + [|l| - 1]
    ensures FirstPlaces(if l[|l| - 1] in l[..|l| - 1] then r else r + [l[|l| - 1]], l, at)
  {
    var n := |l| - 1;
    forall i | 0 <= i < |l| ensures i in at <==> l[i] !in l[..i] {
      if i < n { assert l[..n][..i] == l[..i]; }
    }
  }

  function HostlistOf(hostlist: string, allowDuplicates: bool, cap: nat): Hosts {
    var all :- ScanOf(hostlist + ",", 0, "", cap);
    Ok(if allowDuplicates then all else FirstOccurrences(all))
  }

  method RemoveDuplicates(l: seq<string>) returns (results: seq<string>)
    ensures results == FirstOccurrences(l)
    ensures NoDuplicates(results) && Elements(results) == Elements(l) && exists at :: FirstPlaces(results, l, at)
  {
    hide FirstPlaces;
    var seen: set<string> := {};
    results := [];
    for i := 0 to |l|
      invariant results == FirstOccurrences(l[..i])
      invariant seen == set x | x in l[..i]
    {
      assert l[..i + 1][..i] == l[..i];
      if l[i] !in seen {
        results := results + [l[i]];
        seen := seen + {l[i]};
      }
    }
    assert l[..|l|] == l;
    ghost var at := OccurrencesAreFirst(l);
    FirstPlacesDistinct(results, l, at);
    FirstPlacesCover(results, l, at);
  }

  /** Without duplicates the expansion holds each host that it has with duplicates, once and where it comes first. */
  lemma WithoutDuplicates(hostlist: string, cap: nat)
    ensures var all, r := HostlistOf(hostlist, true, cap), HostlistOf(hostlist, false, cap);
            if all.Err? then r == all
            else
              && r.Ok? && NoDuplicates(r.value) && Elements(r.value) == Elements(all.value)
              && exists at :: FirstPlaces(r.value, all.value, at)
  {
    hide ScanOf, FirstPlaces;
    var all := HostlistOf(hostlist, true, cap);
    if all.Ok? {
      var at := OccurrencesAreFirst(all.value);
      FirstPlacesDistinct(FirstOccurrences(all.value), all.value, at);
      FirstPlacesCover(FirstOccurrences(all.value), all.value, at);
    }
  }

  method ExpandHostlist(hostlist: string, allowDuplicates: bool, cap: nat) returns (r: Hosts)
    ensures r == HostlistOf(hostlist, allowDuplicates, cap)
    ensures r.Ok? && !allowDuplicates ==> NoDuplicates(r.value)
  {
    var results: seq<string> := [];
    var level := 0;
    var part := "";
    var text := hostlist + ",";
    assert text[0..] == text;
    for i := 0 to |text|
      invariant 0 <= level <= 1
      invariant ScanOf(text, 0, "", cap) == Before(results, ScanOf(text[i..], level, part, cap))
    {
      var c := text[i];
      assert text[i..][1..] == text[i + 1..];
      if c == ',' && level == 0 {
        if part != "" {
          var some := ExpandPart(part, cap);
          if some.Err? {
            return Err(some.error);
          }
          BeforeMore(results, some.value, ScanOf(text[i + 1..], 0, "", cap));
          results := results + some.value;
        }
        part := "";
      } else {
        part := part + [c];
      }
      if c == '[' {
        level := level + 1;
      } else if c == ']' {
        level := level - 1;
      }
      if level > 1 {
        return Err(NestedBrackets);
      } else if level < 0 {
        return Err(UnbalancedBrackets);
      }
    }
    if level > 0 {
      return Err(UnbalancedBrackets);
    }
    if !allowDuplicates {
      results := RemoveDuplicates(results);
    }
    return Ok(results);
  }

  // ---------- how the expansion of a longer string follows from that of its pieces ----------

  lemma RangePrepend(x: string, prefix: string, range: string, cap: nat)
    ensures var a, b := RangeOf(prefix, range, cap), RangeOf(x + prefix, range, cap);
            if a.Ok? then b == Ok(Prepend(x, a.value)) else b == a
  {
    var a, b := RangeOf(prefix, range, cap), RangeOf(x + prefix, range, cap);
    if a.Ok? {
      assert b.Ok? && |a.value| == |b.value|;
      forall i | 0 <= i < |a.value| ensures b.value[i] == x + a.value[i] {
        var digits := a.value[i][|prefix|..];
        assert a.value[i] == prefix + digits;
        assert b.value[i] == x + prefix + digits == x + (prefix + digits);
      }
      assert b.value == Prepend(x, a.value);
    }
  }

  lemma {:induction false} RangelistPrepend(x: string, prefix: string, ranges: seq<string>, cap: nat)
    ensures var a, b := RangelistOf(prefix, ranges, cap), RangelistOf(x + prefix, ranges, cap);
            if a.Ok? then b == Ok(Prepend(x, a.value)) else b == a
  {
    if ranges != [] {
      RangePrepend(x, prefix, ranges[0], cap);
      RangelistPrepend(x, prefix, ranges[1..], cap);
      var first, others := RangeOf(prefix, ranges[0], cap), RangelistOf(prefix, ranges[1..], cap);
      if first.Ok? && others.Ok? { PrependConcat(x, first.value, others.value); }
    }
  }

  lemma CombinePrepend(x: string, prefix: string, group: Option<string>, rest: seq<string>, cap: nat)
    requires Combine(prefix, group, rest, cap).Ok?
    ensures Combine(x + prefix, group, rest, cap) == Ok(Prepend(x, Combine(prefix, group, rest, cap).value))
  {
    if group == None {
      CrossSingle(prefix, rest);
      CrossSingle(x + prefix, rest);
      PrependPrepend(x, prefix, rest);
    } else {
      var ranges := Split(group.value, ',');
      RangelistPrepend(x, prefix, ranges, cap);
      CrossPrepend(x, RangelistOf(prefix, ranges, cap).value, rest);
    }
  }

  /** Text without special characters only goes before every result. */
  lemma PartPrepend(x: string, s: string, cap: nat)
    requires Avoids(x, SPECIAL) && Avoids(s, {'\n'}) && ExpandPart(s, cap).Ok?
    ensures ExpandPart(x + s, cap) == Ok(Prepend(x, ExpandPart(s, cap).value))
  {
    if x == "" {
      assert x + s == s;
      PrependNothing(ExpandPart(s, cap).value);
    } else if s == "" {
      assert x + s == x;
      PlainPart(x, cap);
      assert Prepend(x, [""]) == [x] by { assert Prepend(x, [""])[0] == x + "" == x; }
    } else {
      var cut := Cut(s);
      CutPrepend(x, s);
      CombinePrepend(x, cut.prefix, cut.group, ExpandPart(cut.rest, cap).value, cap);
    }
  }

  lemma CutPlain(x: string)
    requires Avoids(x, SPECIAL)
    ensures Cut(x) == Pieces(x, None, "")
  {
    SpanUnique(x, {',', '['}, |x|);
    assert x[..|x|] == x && x[|x|..] == "" && ""[..0] == "";
  }

  lemma PlainPart(x: string, cap: nat)
    requires x != "" && Avoids(x, SPECIAL)
    ensures ExpandPart(x, cap) == Ok([x])
  {
    CutPlain(x);
    assert ExpandPart("", cap) == Ok([""]);
    CrossSingle(x, [""]);
    assert Prepend(x, [""]) == [x] by { assert Prepend(x, [""])[0] == x + "" == x; }
  }

  lemma CutFromPrepend(x: string, prefix: string, tail: string)
    ensures CutFrom(x + prefix, tail) == CutFrom(prefix, tail).(prefix := x + prefix)
  {
    hide Span;
  }

  lemma CutFromKeeps(prefix: string, tail: string)
    ensures CutFrom(prefix, tail).prefix == prefix
  {
    hide Span;
  }

  lemma CutPrepend(x: string, s: string)
    requires Avoids(x, SPECIAL)
    ensures Cut(x + s) == Cut(s).(prefix := x + Cut(s).prefix)
  {
    hide CutFrom;
    var stop := {',', '['};
    var p := Span(s, stop);
    assert Avoids(x, stop) && Avoids(s[..p], stop);
    AvoidsConcat(x, s[..p], stop);
    assert (x + s)[..|x| + p] == x + s[..p];
    assert (x + s)[|x| + p..] == s[p..];
    assert p < |s| ==> (x + s)[|x| + p] == s[p];
    hide Avoids, Span;
    SpanUnique(x + s, stop, |x| + p);
    CutFromPrepend(x, s[..p], s[p..]);
    CutFromKeeps(s[..p], s[p..]);
  }

  lemma CutGroup(list: string, s: string)
    requires Avoids(list, {'[', ']'}) && Avoids(s, {'\n'})
    ensures Cut("[" + list + "]" + s) == Pieces("", Some(list), s)
  {
    var t := "[" + list + "]" + s;
    SpanUnique(t, {',', '['}, 0);
    assert t[0..] == t;
    SpanUnique(t, {']'}, 1 + |list|) by {
      assert t[..1 + |list|] == "[" + list;
    }
    assert t[1..1 + |list|] == list;
    assert t[2 + |list|..] == s;
    SpanUnique(s, {'\n'}, |s|);
    assert s[..|s|] == s;
  }

  /** A bracket group multiplies its items into the expansion of what follows. */
  lemma PartGroup(ranges: seq<string>, s: string, us: seq<string>, rest: seq<string>, cap: nat)
    requires ranges != [] && (forall i | 0 <= i < |ranges| :: Avoids(ranges[i], SPECIAL))
    requires Avoids(s, {'\n'}) && ExpandPart(s, cap) == Ok(rest) && RangelistOf("", ranges, cap) == Ok(us)
    ensures ExpandPart("[" + Join(ranges, ',') + "]" + s, cap) ==
            if |us| * |rest| > MAX_SIZE then Err(ResultsTooLarge) else Ok(Cross(us, rest))
  {
    JoinAvoids(ranges, ',', {']', '['});
    CutGroup(Join(ranges, ','), s);
    SplitOfJoin(ranges, ',');
  }

  lemma {:induction false} ScanPart(part: string, s: string, level: nat, before: string, cap: nat)
    requires level <= 1 && Closed(part, level)
    ensures ScanOf(part + s, level, before, cap) == ScanOf(s, 0, before + part, cap)
  {
    if part == "" {
      assert part + s == s && before + part == before;
    } else {
      assert (part + s)[1..] == part[1..] + s;
      assert before + part == before + [part[0]] + part[1..];
      var next := level + (if part[0] == '[' then 1 else if part[0] == ']' then -1 else 0);
      ScanPart(part[1..], s, next, before + [part[0]], cap);
    }
  }

  /** The expansions of the parts, one after the other. */
  function PartsOf(parts: seq<string>, cap: nat): Hosts {
    if parts == [] then Ok([])
    else
      var first :- ExpandPart(parts[0], cap);
      Before(first, PartsOf(parts[1..], cap))
  }

  /** Joined parts are expanded one by one. */
  lemma {:induction false} HostlistOfParts(parts: seq<string>, cap: nat)
    requires forall i | 0 <= i < |parts| :: parts[i] != "" && Closed(parts[i], 0)
    ensures ScanOf(Join(parts, ',') + ",", 0, "", cap) == PartsOf(parts, cap)
  {
    if parts == [] {
      assert Join(parts, ',') + "," == ",";
      assert ","[1..] == "";
      assert ScanOf("", 0, "", cap) == Ok([]);
    } else {
      var later := if |parts| == 1 then "" else Join(parts[1..], ',') + ",";
      assert Join(parts, ',') + "," == parts[0] + ("," + later);
      ScanPart(parts[0], "," + later, 0, "", cap);
      assert "" + parts[0] == parts[0];
      assert ("," + later)[1..] == later;
      if |parts| > 1 { HostlistOfParts(parts[1..], cap); }
    }
  }
}
