/** Two neighbouring hosts at the end of the machine's integers: the collector folds them, the expander overflows. */
module LegacyOverflow {
  import opened Text
  import opened Wrappers
  import opened Ordering
  import opened LegacyExpand
  import opened LegacyTheorem
  import opened LegacyCollect
  import Lists
  import S = LegacyShape

  function Host(n: nat): string { "n" + Decimal(n) }

  function Pair(m: nat): seq<string> { [Host(m), Host(m + 1)] }

  lemma MatchHost(n: nat)
    ensures MatchOf(Host(n)) == Match("n", Decimal(n), "") && Value(Decimal(n)) == n
  {
    var h := Host(n);
    S.MatchAt(h, 1, |h|);
    assert h[..1] == "n" && h[1..|h|] == Decimal(n) && h[|h|..] == "";
    assert Decimal(n) == Pad(0, n);
    ValueOfPad(0, n);
  }

  lemma MatchPlain()
    ensures MatchOf("n") == Match("", "", "n")
  {
    assert "n"[..0] == "" && TailStart("n"[..0]) == 0 && TailStart("n") == 0;
  }

  lemma HostIsKept(n: nat)
    ensures Strip(Host(n)) == Host(n) && Host(n) != "" && !Forbidden(Host(n)) && Avoids(Host(n), {'\n'})
  {
    hide Decimal;
    var h := Host(n);
    assert IsDigit(h[|h| - 1]);
    forall i | 0 <= i < |h| ensures h[i] == 'n' || IsDigit(h[i]) {}
    TrimOf("", h, "", BLANKS);
    assert "" + h + "" == h;
  }

  lemma AcceptPair(m: nat)
    ensures Accepted(Pair(m), false) == Ok(Pair(m))
  {
    HostIsKept(m);
    HostIsKept(m + 1);
    hide Strip, Host, Forbidden;
    var p := Pair(m);
    assert Accepted(p[1..][1..], false) == Ok([]);
    assert [p[1]] + [] == [p[1]] && p[1..][0] == p[1];
    assert Accepted(p[1..], false) == Ok([p[1]]);
    assert [p[0]] + [p[1]] == p;
  }

  function PairItem(n: nat): Item { Item(Numbered("n", ""), n, |Decimal(n)|, Host(n)) }

  lemma PairRanges(m: nat)
    ensures RangesOf([PairItem(m), PairItem(m + 1)], {Decimal(m), Decimal(m + 1)}) == [Range(m, m + 1, |Decimal(m)|)]
  {
    var a, b, w := Decimal(m), Decimal(m + 1), |Decimal(m)|;
    DecimalLengthMonotone(m, m + 1);
    PadNarrow(w, m);
    PadNarrow(w, m + 1);
    PadNarrow(|b|, m + 1);
    assert a != b by { MatchHost(m); MatchHost(m + 1); }
    var both := {a, b};
    assert both - {a} == {b} && both - {a} - {b} == {};
    assert RunLength(w, m + 2, both - {a} - {b}) == 0;
    assert RunLength(w, m + 1, both - {a}) == 1;
    assert RunLength(w, m, both) == 2;
    assert Pad(w, m) in Run(w, m, 2) && Pad(w, m + 1) in Run(w, m, 2);
    assert both - Run(w, m, 2) == {};
    var items := [PairItem(m), PairItem(m + 1)];
    assert items[1..] == [PairItem(m + 1)] && items[1..][1..] == [];
    assert TakeRange(items[0], both) == ([Range(m, m + 1, w)], {});
    assert RangesOf(items[1..], {}) == [] + RangesOf([], {});
  }

  /** What is left of a pair once its numbers are folded. */
  function Bracketed(a: string, b: string): string { "[" + (a + "-" + b) + "]" + "" }

  function Expression(m: nat): string { "n" + Bracketed(Decimal(m), Decimal(m + 1)) }

  lemma StartingPair(m: nat)
    ensures Items(Starting(Pair(m))) == [PairItem(m), PairItem(m + 1)]
    ensures AnyNumber(Starting(Pair(m))) && forall i | 0 <= i < 2 :: !Unmatched(Starting(Pair(m))[i].left)
  {
    hide Value, Decimal, RunStart;
    var lr := Starting(Pair(m));
    MatchHost(m);
    MatchHost(m + 1);
    assert lr[0].left == Host(m) && lr[1].left == Host(m + 1);
    assert MatchOf(lr[0].left).number != "";
    assert "" + "" == "" && Host(m) + "" == Host(m) && Host(m + 1) + "" == Host(m + 1);
    assert ItemOf(lr[0]) == PairItem(m) && ItemOf(lr[1]) == PairItem(m + 1);
  }

  lemma SortedPair(i: Item, j: Item)
    requires AtMost(i, j)
    ensures Sort([i, j], AtMost) == [i, j]
  {
    assert [i, j][1..] == [j] && [j][1..] == [];
    assert Sort([j], AtMost) == [j];
  }

  lemma FirstRound(m: nat)
    ensures RoundEntries(Starting(Pair(m))) == [Entry("n", Bracketed(Decimal(m), Decimal(m + 1)))]
  {
    StartingPair(m);
    SortedPair(PairItem(m), PairItem(m + 1));
    PairGroup(m);
  }

  lemma PairFolded(a: string, b: string, m: nat)
    requires Pad(|a|, m) == a && Pad(|a|, m + 1) == b
    ensures FoldedText([Range(m, m + 1, |a|)]) == "[" + (a + "-" + b) + "]"
  {
    assert FormatRanges([Range(m, m + 1, |a|)]) == [a + "-" + b];
  }

  lemma PairNumerals(m: nat)
    ensures Numerals([PairItem(m), PairItem(m + 1)]) == {Decimal(m), Decimal(m + 1)}
  {
    var items := [PairItem(m), PairItem(m + 1)];
    PadNarrow(|Decimal(m)|, m);
    PadNarrow(|Decimal(m + 1)|, m + 1);
    assert Pad(items[0].width, items[0].number) in Numerals(items);
    assert Pad(items[1].width, items[1].number) in Numerals(items);
  }

  lemma PairGroup(m: nat)
    ensures GroupEntries([PairItem(m), PairItem(m + 1)]) == [Entry("n", Bracketed(Decimal(m), Decimal(m + 1)))]
  {
    var items := [PairItem(m), PairItem(m + 1)];
    assert items[1..] == [PairItem(m + 1)];
    assert GroupLength(items) == 2 && items[..2] == items && items[2..] == [];
    PairNumerals(m);
    PairRanges(m);
    DecimalLengthMonotone(m, m + 1);
    PadNarrow(|Decimal(m)|, m);
    PadNarrow(|Decimal(m)|, m + 1);
    PairFolded(Decimal(m), Decimal(m + 1), m);
    assert GroupEntries([]) == [];
  }

  lemma SecondRound(right: string)
    ensures RoundEntries([Entry("n", right)]) == [Entry("", "n" + right)]
    ensures !AnyNumber([Entry("n", right)]) && !Unmatched("n")
  {
    hide MatchOf;
    MatchPlain();
    var item := Item(Plain("n" + right), 0, 0, "n" + right);
    var lr := [Entry("n", right)];
    assert Items(lr) == [item];
    assert [item][1..] == [] && Sort([item], AtMost) == [item];
    assert [item][..1] == [item] && [item][1..] == [];
    assert GroupEntries([]) == [];
  }

  lemma RoundsOnce(lr: seq<Entry>, next: seq<Entry>)
    requires AnyNumber(lr) && RoundEntries(lr) == next && forall i | 0 <= i < |lr| :: !Unmatched(lr[i].left)
    ensures Rounds(lr) == Rounds(next)
  {
    RoundShrinks(lr);
  }

  lemma RoundsLast(lr: seq<Entry>, results: seq<Entry>)
    requires !AnyNumber(lr) && RoundEntries(lr) == results && forall i | 0 <= i < |lr| :: !Unmatched(lr[i].left)
    ensures Rounds(lr) == Ok(results)
  {
  }

  lemma RoundsOfPair(m: nat)
    ensures Rounds(Starting(Pair(m))) == Ok([Entry("", Expression(m))])
  {
    hide RoundEntries;
    var right := Bracketed(Decimal(m), Decimal(m + 1));
    FirstRound(m);
    StartingPair(m);
    SecondRound(right);
    RoundsOnce(Starting(Pair(m)), [Entry("n", right)]);
    RoundsLast([Entry("n", right)], [Entry("", "n" + right)]);
  }

  /** Two hosts with consecutive numbers are collected into one range. */
  lemma CollectedPair(m: nat)
    ensures Collected(Pair(m), false) == Ok(Expression(m))
  {
    AcceptPair(m);
    RoundsOfPair(m);
    var last := [Entry("", Expression(m))];
    assert Names(last)[0] == "" + Expression(m) == Expression(m);
  }

  lemma Unfit(a: string, b: string, cap: nat)
    requires IsNumeral(a) && IsNumeral(b) && Value(b) + 1 > cap
    ensures !RangesFit("n" + Bracketed(a, b), cap)
  {
    hide Cut;
    var range := a + "-" + b;
    var s := "n" + Bracketed(a, b);
    assert Avoids(range, {'[', ']'}) by {
      forall i | 0 <= i < |range| ensures range[i] == '-' || IsDigit(range[i]) {}
    }
    assert Form(s, "n", Some(range), "");
    CutOfForm(s, "n", Some(range), "");
    assert Split(range, ',') == [range] by {
      SpanUnique(range, {','}, |range|) by {
        forall i | 0 <= i < |range| ensures range[i] == '-' || IsDigit(range[i]) {}
      }
    }
    DashedPair(a, b);
    assert [range][0] == range;
    assert !ItemsFit([range], cap);
  }

  lemma PairIsKept(m: nat)
    ensures !Refused(Pair(m), false) && KeptNames(Pair(m)) == {Host(m), Host(m + 1)}
    ensures forall n | n in KeptNames(Pair(m)) :: Avoids(n, {'\n'})
    ensures |KeptNames(Pair(m))| <= MAX_SIZE
  {
    HostIsKept(m);
    HostIsKept(m + 1);
    hide Strip, Host, Forbidden;
    assert Pair(m)[0] == Host(m) && Pair(m)[1] == Host(m + 1);
    assert Host(m) in Pair(m) && Host(m + 1) in Pair(m);
    assert KeptNames(Pair(m)) == {Host(m), Host(m + 1)};
  }

  lemma PairOverflows(m: nat, cap: nat)
    requires m + 2 > cap
    ensures Collected(Pair(m), false).Ok?
    ensures HostlistOf(Collected(Pair(m), false).value, false, cap) == Err(XrangeOverflow)
  {
    PairIsKept(m);
    RoundTrip(Pair(m), false, false, cap);
    assert !RangesFit(Collected(Pair(m), false).value, cap) by {
      CollectedPair(m);
      MatchHost(m + 1);
      Unfit(Decimal(m), Decimal(m + 1), cap);
    }
  }

  /** The round trip fails on the hosts n9223372036854775806 and n9223372036854775807. */
  lemma RoundTripOverflows()
    ensures Collected(Pair(MAX_LONG - 1), false).Ok?
    ensures HostlistOf(Collected(Pair(MAX_LONG - 1), false).value, false, MAX_LONG) == Err(XrangeOverflow)
  {
    PairOverflows(MAX_LONG - 1, MAX_LONG);
  }
}
