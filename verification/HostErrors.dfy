/** Which expressions the two expanders refuse, and how the modern one splits those that it accepts. */
module HostErrors {
  import opened Text
  import opened Wrappers
  import opened Lists
  import opened HostSyntax
  import L = LegacyExpand
  import M = ModernExpand
  import MM = ModernMeaning

  // ---------- ranges of the legacy expander ----------

  predicate IsBracketError(e: L.Error) { e == L.NestedBrackets || e == L.UnbalancedBrackets }

  /** A pair of numerals: descending, too long or beyond xrange's limit, or its numbers. */
  lemma DashedRange(prefix: string, a: string, b: string, cap: nat)
    requires IsNumeral(a) && IsNumeral(b)
    ensures L.RangeOf(prefix, a + "-" + b, cap) ==
            if Value(b) < Value(a) then Err(L.StartAfterStop)
            else if Value(b) - Value(a) > L.MAX_SIZE then Err(L.RangeTooLarge)
            else if Value(b) >= cap then Err(L.XrangeOverflow)
            else Ok(L.Numbered(prefix, |a|, Value(a), Value(b)))
  {
    hide Value, L.Numbered;
    L.DashedPair(a, b);
  }

  /** Any other text but a numeral is a bad range. */
  lemma BadRanges(prefix: string, range: string, cap: nat)
    ensures L.RangeOf(prefix, range, cap) == Err(L.BadRange) <==>
            && !IsNumeral(Chomp(range))
            && forall a, b | IsNumeral(a) && IsNumeral(b) :: Chomp(range) != a + "-" + b
  {
    hide Value, L.Numbered;
    var text := Chomp(range);
    if L.RangeOf(prefix, range, cap) == Err(L.BadRange) {
      forall a, b | IsNumeral(a) && IsNumeral(b) ensures text != a + "-" + b {
        if text == a + "-" + b { L.DashedPair(a, b); }
      }
    } else if !IsNumeral(text) {
      var (a, b) := L.Dashed(text).value;
      assert text == a + "-" + b;
    }
  }

  lemma {:induction false} RangelistErrors(prefix: string, ranges: seq<string>, cap: nat)
    ensures var r := L.RangelistOf(prefix, ranges, cap); r.Err? ==> !IsBracketError(r.error)
  {
    if ranges != [] { RangelistErrors(prefix, ranges[1..], cap); }
  }

  lemma {:induction false} PartErrors(s: string, cap: nat)
    ensures var r := L.ExpandPart(s, cap); r.Err? ==> !IsBracketError(r.error)
    decreases |s|
  {
    hide L.Cut, L.RangelistOf;
    if s != "" {
      var cut := L.Cut(s);
      if |cut.rest| < |s| {
        PartErrors(cut.rest, cap);
        if cut.group.Some? { RangelistErrors(cut.prefix, Split(cut.group.value, ','), cap); }
      }
    }
  }

  /** A descending range is refused wherever its group stands, when what follows can be expanded. */
  lemma DescendingPart(x: string, a: string, b: string, rest: string, cap: nat)
    requires Avoids(x, SPECIAL) && IsNumeral(a) && IsNumeral(b) && Value(b) < Value(a)
    requires Closed(rest, 0) && Avoids(rest, {'\n'}) && L.ExpandPart(rest, cap).Ok?
    ensures L.HostlistOf(x + ("[" + (a + "-" + b) + "]" + rest), true, cap) == Err(L.StartAfterStop)
  {
    hide Value, Closed, L.Cut, L.RangeOf, Split;
    var list := a + "-" + b;
    var tail := "[" + list + "]" + rest;
    var part := x + tail;
    PairAvoids(a, b, {'[', ']', ','});
    L.CutPrepend(x, tail);
    L.CutGroup(list, rest);
    OnePiece(list);
    DashedRange(x + "", a, b, cap);
    assert L.ExpandPart(part, cap) == Err(L.StartAfterStop);
    GroupCloses(list, rest);
    ClosedText(x, tail, 0);
    hide L.ExpandPart;
    L.ScanPart(part, ",", 0, "", cap);
    assert "" + part == part;
  }

  lemma PairAvoids(a: string, b: string, stop: set<char>)
    requires IsNumeral(a) && IsNumeral(b) && forall c | c in stop :: !IsDigit(c) && c != '-'
    ensures Avoids(a + "-" + b, stop)
  {
    AvoidsConcat(a, "-", stop);
    AvoidsConcat(a + "-", b, stop);
  }

  lemma OnePiece(list: string)
    requires Avoids(list, {','})
    ensures Split(list, ',') == [list]
  {
    assert Join([list], ',') == list;
    SplitOfJoin([list], ',');
  }

  // ---------- brackets in the legacy expander ----------

  lemma {:induction false} ScanErrors(s: string, level: nat, part: string, cap: nat)
    requires level <= 1
    ensures var r := L.ScanOf(s, level, part, cap);
            && (r.Ok? ==> !Dips(s, level) && !Nests(s, level) && level + Depth(s) == 0)
            && (r == Err(L.NestedBrackets) ==> Nests(s, level))
            && (r == Err(L.UnbalancedBrackets) ==> Dips(s, level) || level + Depth(s) > 0)
    decreases |s|
  {
    hide Depth, Dips, Nests, L.ExpandPart;
    if s == "" {
      DepthOfNothing(level);
    } else {
      DepthNext(s, level);
      PartErrors(part, cap);
      if s[0] == ',' && level == 0 {
        ScanErrors(s[1..], 0, "", cap);
      } else {
        var next := level + Change(s[0]);
        if next > 1 {
          DeepNests(s[1..], next);
        } else if next < 0 {
          LowDips(s[1..], next);
        } else {
          ScanErrors(s[1..], next, part + [s[0]], cap);
        }
      }
    }
  }

  lemma DeepNests(s: string, depth: int)
    requires depth > 1
    ensures Nests(s, depth)
  {
    assert Depth(s[..0]) == 0;
  }

  lemma LowDips(s: string, depth: int)
    requires depth < 0
    ensures Dips(s, depth)
  {
    assert Depth(s[..0]) == 0;
  }

  /** What is expanded has balanced brackets that are not nested; each bracket error is raised for its cause only. */
  lemma LegacyBrackets(hostlist: string, allowDuplicates: bool, cap: nat)
    ensures var r := L.HostlistOf(hostlist, allowDuplicates, cap);
            && (Dips(hostlist, 0) || Nests(hostlist, 0) || Depth(hostlist) != 0 ==> r.Err?)
            && (r == Err(L.NestedBrackets) ==> Nests(hostlist, 0))
            && (r == Err(L.UnbalancedBrackets) ==> Dips(hostlist, 0) || Depth(hostlist) > 0)
  {
    hide Depth, Dips, Nests, L.ScanOf, L.FirstOccurrences;
    DepthBefore(hostlist, ',');
    ScanErrors(hostlist + ",", 0, "", cap);
  }

  // ---------- brackets and commas in the modern expander ----------

  /** Brackets are balanced, and every comma is inside some. */
  ghost predicate Whole(s: string) {
    !Dips(s, 0) && Depth(s) == 0 && forall i | 0 <= i < |s| && s[i] == ',' :: Depth(s[..i]) > 0
  }

  /** The beginning of such a piece. */
  ghost predicate Begun(s: string, depth: nat) {
    !Dips(s, 0) && Depth(s) == depth && forall i | 0 <= i < |s| && s[i] == ',' :: Depth(s[..i]) > 0
  }

  lemma BegunNext(s: string, depth: nat, c: char)
    requires Begun(s, depth) && depth + Change(c) >= 0 && (c == ',' ==> depth > 0)
    ensures Begun(s + [c], depth + Change(c))
  {
    hide Depth;
    var t := s + [c];
    DepthConcat(s, [c]);
    DepthOne(c);
    assert t[..|t|] == t && s[..|s|] == s;
    forall i | 0 <= i <= |s| ensures t[..i] == s[..i] {}
    forall i | 0 <= i <= |t| ensures Depth(t[..i]) >= 0 {
      if i <= |s| { assert Depth(s[..i]) >= 0; }
    }
    forall i | 0 <= i < |t| && t[i] == ',' ensures Depth(t[..i]) > 0 {
      if i < |s| { assert s[i] == ','; }
    }
  }

  lemma DepthOne(c: char)
    ensures Depth([c]) == Change(c)
  {}

  lemma BegunNothing()
    ensures Begun("", 0)
  {
    assert ""[..0] == "";
  }

  /** Of the whole pieces between the top-level commas, joined again, nothing is lost. */
  lemma {:induction false} SplitParts(s: string, depth: nat, cur: string)
    requires Begun(cur, depth)
    ensures var r := M.TopParts(s, depth, cur);
            if Dips(s, depth) then r == Err(M.UnbalancedClose)
            else if depth + Depth(s) > 0 then r == Err(M.UnbalancedOpen)
            else
              && r.Ok? && r.value != [] && Join(r.value, ',') == cur + s
              && forall k | 0 <= k < |r.value| :: Whole(r.value[k])
    decreases |s|
  {
    hide Depth, Dips, Begun, Whole;
    if s == "" {
      DepthOfNothing(depth);
      assert cur + "" == cur;
      BegunWhole(cur, depth);
    } else {
      DepthNext(s, depth);
      if s[0] == ']' && depth == 0 {
        LowDips(s[1..], -1);
      } else if s[0] == ',' && depth == 0 {
        BegunNothing();
        BegunWhole(cur, depth);
        SplitParts(s[1..], 0, "");
        JoinedAfter(cur, s, M.TopParts(s[1..], 0, ""));
      } else {
        BegunNext(cur, depth, s[0]);
        SplitParts(s[1..], depth + Change(s[0]), cur + [s[0]]);
        assert cur + [s[0]] + s[1..] == cur + s;
      }
    }
  }

  lemma BegunWhole(s: string, depth: nat)
    requires Begun(s, depth)
    ensures depth == 0 ==> Whole(s)
  {}

  lemma JoinedAfter(cur: string, s: string, later: M.Hosts)
    requires s != "" && s[0] == ','
    requires later.Ok? ==> later.value != [] && Join(later.value, ',') == "" + s[1..]
    ensures later.Ok? ==> Join([cur] + later.value, ',') == cur + s
  {
    if later.Ok? {
      assert ([cur] + later.value)[1..] == later.value;
      assert "" + s[1..] == s[1..];
      assert cur + [','] + s[1..] == cur + s;
    }
  }

  function SolidFlags(pieces: seq<string>): (flags: seq<bool>)
    ensures |flags| == |pieces| && forall i | 0 <= i < |flags| :: flags[i] == (Trim(pieces[i], M.SPACES) != "")
  {
    seq(|pieces|, i requires 0 <= i < |pieces| => Trim(pieces[i], M.SPACES) != "")
  }

  ghost predicate TrimmedAt(tokens: seq<string>, pieces: seq<string>, at: seq<nat>) {
    |tokens| == |at| && forall k | 0 <= k < |at| :: at[k] < |pieces| && tokens[k] == Trim(pieces[at[k]], M.SPACES)
  }

  /** The trimmed pieces that hold something, in order. */
  ghost predicate TrimmedPieces(tokens: seq<string>, pieces: seq<string>, at: seq<nat>) {
    Marks(at, SolidFlags(pieces)) && TrimmedAt(tokens, pieces, at)
  }

  lemma ShiftedPieces(tokens: seq<string>, pieces: seq<string>, at: seq<nat>)
    requires pieces != [] && TrimmedAt(tokens, pieces[1..], at)
    ensures TrimmedAt(tokens, pieces, Shifted(at))
    ensures TrimmedAt([Trim(pieces[0], M.SPACES)] + tokens, pieces, [0] + Shifted(at))
  {
    hide Trim;
  }

  lemma {:induction false} StrippedPieces(pieces: seq<string>) returns (at: seq<nat>)
    ensures TrimmedPieces(M.Stripped(pieces), pieces, at)
  {
    hide Trim, Marks, TrimmedAt;
    if pieces == [] {
      at := [];
      assert TrimmedPieces([], [], []) by { NoPieces(); }
    } else {
      at := StrippedPieces(pieces[1..]);
      assert SolidFlags(pieces)[1..] == SolidFlags(pieces[1..]);
      ShiftedMarks(at, SolidFlags(pieces));
      ShiftedPieces(M.Stripped(pieces[1..]), pieces, at);
      at := if M.Strip(pieces[0]) == "" then Shifted(at) else [0] + Shifted(at);
      assert [] + M.Stripped(pieces[1..]) == M.Stripped(pieces[1..]);
    }
  }

  lemma NoPieces()
    ensures TrimmedPieces([], [], [])
  {}

  /**
   The split refuses exactly the unbalanced brackets. Otherwise the expression is whole pieces between
   commas, and the tokens are those pieces in order, trimmed, without the blank ones.
   */
  lemma TopLevel(spec: string) returns (pieces: seq<string>, at: seq<nat>)
    ensures var r := M.TopLevelOf(spec);
            if Dips(spec, 0) then r == Err(M.UnbalancedClose)
            else if Depth(spec) > 0 then r == Err(M.UnbalancedOpen)
            else
              && r.Ok? && Join(pieces, ',') == spec && (forall k | 0 <= k < |pieces| :: Whole(pieces[k]))
              && TrimmedPieces(r.value, pieces, at)
              && forall k | 0 <= k < |r.value| :: r.value[k] != "" && Bare(r.value[k], M.SPACES)
  {
    hide Depth, Dips, Whole, Begun, M.TopParts, M.Stripped, Trim;
    pieces, at := [], [];
    BegunNothing();
    SplitParts(spec, 0, "");
    assert "" + spec == spec;
    var parts := M.TopParts(spec, 0, "");
    if parts.Ok? {
      pieces := parts.value;
      at := StrippedPieces(pieces);
      forall k | 0 <= k < |at| ensures M.Stripped(pieces)[k] != "" && Bare(M.Stripped(pieces)[k], M.SPACES) {
        var a, b := TrimParts(pieces[at[k]], M.SPACES);
        assert at[k] in at;
      }
    }
  }

  /** Such an expression is not expanded. */
  lemma ModernBrackets(spec: string)
    ensures Dips(spec, 0) ==> M.ExpansionOf(spec) == Err(M.UnbalancedClose)
    ensures !Dips(spec, 0) && Depth(spec) > 0 ==> M.ExpansionOf(spec) == Err(M.UnbalancedOpen)
  {
    hide Depth, Dips, M.TopLevelOf, M.TokensOf;
    var pieces, at := TopLevel(spec);
  }

  /** A pair of numerals in a group of the modern expander. */
  lemma DashedItem(a: string, b: string)
    requires IsNumeral(a) && IsNumeral(b) && Value(b) < Value(a)
    ensures M.ItemOf(a + "-" + b) == Err(M.DescendingRange)
  {
    hide Value, M.RangeItem, Avoids;
    var s := a + "-" + b;
    assert s[..|a|] == a && s[|a|] == '-' && s[|a| + 1..] == b;
    DigitsAvoid(a, {'-'});
    SpanUnique(s, {'-'}, |a|);
    DescendingPair(a, b);
  }

  lemma DescendingPair(a: string, b: string)
    requires IsNumeral(a) && IsNumeral(b) && Value(b) < Value(a) && Avoids(a, {'-'})
    ensures M.RangeItem(a, b) == Err(M.DescendingRange)
  {
    hide Value, M.ParseInt;
    MM.ParseNumeral(a);
    MM.ParseNumeral(b);
  }

  /** So an expression whose first group is such a range is refused. */
  lemma DescendingToken(x: string, a: string, b: string, rest: string)
    requires Avoids(x, SPECIAL) && IsNumeral(a) && IsNumeral(b) && Value(b) < Value(a) && Closed(rest, 0)
    requires MM.Trimmed(x + ("[" + (a + "-" + b) + "]" + rest))
    ensures M.ExpansionOf(x + ("[" + (a + "-" + b) + "]" + rest)) == Err(M.DescendingRange)
  {
    hide Value, Closed, M.TokenOf, M.Strip, M.TopParts;
    var list := a + "-" + b;
    var token := x + ("[" + list + "]" + rest);
    PairAvoids(a, b, {'[', ']', ','});
    GroupCloses(list, rest);
    ClosedText(x, "[" + list + "]" + rest, 0);
    MM.TopPartsOfJoin([token]);
    assert Join([token], ',') == token;
    MM.StripTrimmed(token);
    assert [token][1..] == [] && M.Stripped([token]) == [token] + M.Stripped([]);
    DescendingGroup(x, a, b, rest);
  }

  lemma DescendingGroup(x: string, a: string, b: string, rest: string)
    requires Avoids(x, SPECIAL) && IsNumeral(a) && IsNumeral(b) && Value(b) < Value(a)
    ensures M.TokenOf(x + ("[" + (a + "-" + b) + "]" + rest)) == Err(M.DescendingRange)
  {
    hide Value, M.ItemOf, M.Strip, M.Brackets, M.CutToken, Span;
    var list := a + "-" + b;
    var token := x + ("[" + list + "]" + rest);
    PairAvoids(a, b, {'[', ']', ','});
    MM.CutRendering(x, list, rest);
    OnePiece(list);
    M.CutBrackets(token);
    M.BracketsSplit(list);
    assert list[0] == a[0] && list[|list| - 1] == b[|b| - 1];
    MM.StripTrimmed(list);
    DashedItem(a, b);
    assert M.ItemsOf(x, [list], rest, M.Brackets(token)) == Err(M.DescendingRange);
  }
}
