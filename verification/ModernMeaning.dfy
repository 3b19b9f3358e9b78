/**
 What the modern expander makes of a well-formed expression, with any blanks around its tokens and the
 items of its groups, and any number of empty pieces between the commas.
 */
module ModernMeaning {
  import opened Text
  import opened Wrappers
  import opened HostSyntax
  import opened HostGrammar
  import M = ModernExpand

  // ---------- items ----------

  ghost predicate Trimmed(s: string) { s != "" && Bare(s, M.SPACES) }

  lemma StripTrimmed(s: string)
    requires Trimmed(s)
    ensures M.Strip(s) == s
  {
    TrimOf("", s, "", M.SPACES);
    assert "" + s + "" == s;
  }

  lemma ParseNumeral(s: string)
    requires IsNumeral(s)
    ensures M.ParseInt(s) == Some(Value(s)) && Trimmed(s)
  {
    hide Value, Trim;
    assert IsDigit(s[0]) && IsDigit(s[|s| - 1]);
    TrimOf("", s, "", M.SPACES);
    assert "" + s + "" == s;
  }

  /** The two width rules give the same strings: a first number without leading zero needs no padding. */
  lemma WidthRules(low: string, n: nat)
    requires IsNumeral(low) && Value(low) <= n
    ensures Pad(M.WidthOf(low), n) == Pad(|low|, n)
  {
    if M.WidthOf(low) == 0 {
      CanonicalNumeral(low);
      DecimalLengthMonotone(Value(low), n);
    }
  }

  lemma ModernRange(low: string, high: string)
    requires IsNumeral(low) && IsNumeral(high) && Value(low) <= Value(high) && Avoids(low, {'-'})
    ensures M.RangeItem(low, high) == Ok(Padded(|low|, Value(low), Value(high)))
  {
    hide M.ParseInt;
    ParseNumeral(low);
    ParseNumeral(high);
    var a, b := Padded(M.WidthOf(low), Value(low), Value(high)), Padded(|low|, Value(low), Value(high));
    forall i | 0 <= i < |a| ensures a[i] == b[i] { WidthRules(low, Value(low) + i); }
    assert a == b;
  }

  lemma TrimmedItem(item: Item)
    requires WellFormedItem(item)
    ensures Trimmed(RenderItem(item)) && M.Strip(RenderItem(item)) == RenderItem(item)
  {
    var s := RenderItem(item);
    assert IsDigit(s[0]) && IsDigit(s[|s| - 1]);
    StripTrimmed(s);
  }

  lemma CrossOfConcat(prefix: string, a: seq<string>, b: seq<string>, tails: seq<string>)
    ensures Prepend(prefix, Cross(a + b, tails)) == Prepend(prefix, Cross(a, tails)) + Prepend(prefix, Cross(b, tails))
  {
    CrossConcat(a, b, tails);
    PrependConcat(prefix, Cross(a, tails), Cross(b, tails));
  }

  lemma ItemBrackets(item: Item)
    requires WellFormedItem(item)
    ensures forall n | n in ItemNumbers(item) :: IsNumeral(n) && M.Brackets(n) == 0
  {
    hide ItemNumbers, M.Brackets, Avoids;
    forall n | n in ItemNumbers(item) ensures IsNumeral(n) && M.Brackets(n) == 0 {
      NumbersAreNumerals(item);
      DigitsAvoid(n, {'['});
      M.NoBrackets(n);
    }
  }

  lemma ModernItemText(item: Item)
    requires WellFormedItem(item)
    ensures M.Strip(RenderItem(item)) == RenderItem(item) != ""
    ensures M.ItemOf(RenderItem(item)) == Ok(ItemNumbers(item))
  {
    hide Value, Padded, M.Strip, M.RangeItem, Avoids;
    TrimmedItem(item);
    match item {
      case One(digits) =>
        DigitsAvoid(digits, {'-'});
        assert digits[..|digits|] == digits;
        Text.SpanUnique(digits, {'-'}, |digits|);
      case Run(low, high) =>
        var s := low + "-" + high;
        assert s[..|low|] == low && s[|low|] == '-' && s[|low| + 1..] == high;
        DigitsAvoid(low, {'-'});
        Text.SpanUnique(s, {'-'}, |low|);
        ModernRange(low, high);
    }
  }

  lemma ModernItem(item: Item)
    requires WellFormedItem(item)
    ensures M.Strip(RenderItem(item)) == RenderItem(item) != ""
    ensures M.ItemOf(RenderItem(item)) == Ok(ItemNumbers(item))
    ensures forall n | n in ItemNumbers(item) :: IsNumeral(n) && M.Brackets(n) <= M.Brackets(RenderItem(item))
  {
    hide *;
    ModernItemText(item);
    ItemBrackets(item);
  }

  lemma NumbersAreNumerals(item: Item)
    requires WellFormedItem(item)
    ensures forall n | n in ItemNumbers(item) :: IsNumeral(n)
  {
  }

  // ---------- spacing ----------

  /** A piece between the commas of a group: blanks alone, or around an item. */
  datatype Piece = Nothing(blanks: string) | Spaced(before: string, item: Item, after: string)

  /** A token whose groups are spaced so. */
  datatype Loose = LoosePlain(text: string) | LooseGroup(text: string, pieces: seq<Piece>, rest: Loose)

  ghost predicate PieceOk(p: Piece) {
    match p
    case Nothing(blanks) => OnlyOf(blanks, M.SPACES)
    case Spaced(before, item, after) => OnlyOf(before, M.SPACES) && WellFormedItem(item) && OnlyOf(after, M.SPACES)
  }

  ghost predicate LooseOk(l: Loose) {
    && Avoids(l.text, SPECIAL)
    && (l.LooseGroup? ==> l.pieces != [] && LooseOk(l.rest) && forall i | 0 <= i < |l.pieces| :: PieceOk(l.pieces[i]))
  }

  function PieceText(p: Piece): string {
    match p
    case Nothing(blanks) => blanks
    case Spaced(before, item, after) => before + RenderItem(item) + after
  }

  function PieceTexts(pieces: seq<Piece>): (r: seq<string>)
    ensures |r| == |pieces| && forall i | 0 <= i < |r| :: r[i] == PieceText(pieces[i])
  {
    seq(|pieces|, i requires 0 <= i < |pieces| => PieceText(pieces[i]))
  }

  function Write(l: Loose): string {
    match l
    case LoosePlain(text) => text
    case LooseGroup(text, pieces, rest) => text + ("[" + Join(PieceTexts(pieces), ',') + "]" + Write(rest))
  }

  /** The items among the pieces. */
  function PieceItems(pieces: seq<Piece>): (r: seq<Item>)
    ensures (forall i | 0 <= i < |pieces| :: PieceOk(pieces[i])) ==> forall i | 0 <= i < |r| :: WellFormedItem(r[i])
  {
    if pieces == [] then []
    else (if pieces[0].Spaced? then [pieces[0].item] else []) + PieceItems(pieces[1..])
  }

  /** The token without the blanks. */
  function Tidy(l: Loose): (t: Token)
    ensures LooseOk(l) ==> WellFormed(t)
  {
    match l
    case LoosePlain(text) => Plain(text)
    case LooseGroup(text, pieces, rest) => Token.Group(text, PieceItems(pieces), Tidy(rest))
  }

  lemma PieceStripped(p: Piece)
    requires PieceOk(p)
    ensures M.Strip(PieceText(p)) == if p.Nothing? then "" else RenderItem(p.item)
  {
    hide Trim;
    match p {
      case Nothing(blanks) => TrimBlank(blanks, M.SPACES);
      case Spaced(before, item, after) =>
        TrimmedItem(item);
        TrimOf(before, RenderItem(item), after, M.SPACES);
    }
  }

  lemma PieceAvoids(p: Piece, stop: set<char>)
    requires PieceOk(p) && forall c | c in stop :: !IsDigit(c) && c != '-' && c !in M.SPACES
    ensures Avoids(PieceText(p), stop)
  {
    if p.Spaced? {
      ItemAvoids(p.item, stop);
      AvoidsConcat(p.before, RenderItem(p.item), stop);
      AvoidsConcat(p.before + RenderItem(p.item), p.after, stop);
    }
  }

  lemma ListAvoids(pieces: seq<Piece>, stop: set<char>)
    requires forall i | 0 <= i < |pieces| :: PieceOk(pieces[i])
    requires forall c | c in stop :: !IsDigit(c) && c != '-' && c != ',' && c !in M.SPACES
    ensures Avoids(Join(PieceTexts(pieces), ','), stop)
  {
    hide PieceOk, PieceText, Join;
    forall i | 0 <= i < |pieces| ensures Avoids(PieceTexts(pieces)[i], stop) { PieceAvoids(pieces[i], stop); }
    JoinAvoids(PieceTexts(pieces), ',', stop);
  }

  // ---------- tokens ----------

  /** Substituting each number in turn, and scanning the token again, gives the cross product with the rest. */
  lemma {:induction false} LooseNumbers(prefix: string, nums: seq<string>, rest: Loose, budget: nat)
    requires forall n | n in nums :: M.Brackets(prefix) + M.Brackets(n) + M.Brackets(Write(rest)) < budget
    requires LooseOk(rest) && Avoids(prefix, {'['}) && forall n | n in nums :: IsNumeral(n)
    ensures M.NumbersOf(prefix, nums, Write(rest), budget) == Ok(Prepend(prefix, Cross(nums, Denote(Tidy(rest)))))
    decreases rest, 1, |nums|
  {
    hide M.Brackets, Denote;
    if nums != [] {
      assert nums[0] in nums;
      DigitsAvoid(nums[0], {'['});
      AvoidsConcat(prefix, nums[0], {'['});
      LooseToken(prefix + nums[0], rest);
      LooseNumbers(prefix, nums[1..], rest, budget);
      var tails := Denote(Tidy(rest));
      PrependPrepend(prefix, nums[0], tails);
      PrependConcat(prefix, Prepend(nums[0], tails), Cross(nums[1..], tails));
    }
  }

  lemma ItemsStep(prefix: string, items: seq<string>, rest: string, budget: nat,
                  nums: seq<string>, a: seq<string>, b: seq<string>)
    requires forall i | 0 <= i < |items| :: M.Brackets(prefix) + M.Brackets(items[i]) + M.Brackets(rest) < budget
    requires forall n | n in nums :: M.Brackets(prefix) + M.Brackets(n) + M.Brackets(rest) < budget
    requires items != [] && M.Strip(items[0]) != "" && M.ItemOf(M.Strip(items[0])) == Ok(nums)
    requires M.NumbersOf(prefix, nums, rest, budget) == Ok(a) && M.ItemsOf(prefix, items[1..], rest, budget) == Ok(b)
    ensures M.ItemsOf(prefix, items, rest, budget) == Ok(a + b)
  {
    hide M.Strip, M.ItemOf, M.Brackets;
  }

  lemma ItemsSkip(prefix: string, items: seq<string>, rest: string, budget: nat)
    requires forall i | 0 <= i < |items| :: M.Brackets(prefix) + M.Brackets(items[i]) + M.Brackets(rest) < budget
    requires items != [] && M.Strip(items[0]) == ""
    ensures M.ItemsOf(prefix, items, rest, budget) == M.ItemsOf(prefix, items[1..], rest, budget)
  {
    hide M.Strip, M.ItemOf, M.Brackets;
  }

  lemma {:induction false} LooseItems(prefix: string, pieces: seq<Piece>, rest: Loose, budget: nat)
    requires forall i | 0 <= i < |pieces| ::
               M.Brackets(prefix) + M.Brackets(PieceTexts(pieces)[i]) + M.Brackets(Write(rest)) < budget
    requires LooseOk(rest) && Avoids(prefix, {'['}) && forall i | 0 <= i < |pieces| :: PieceOk(pieces[i])
    ensures M.ItemsOf(prefix, PieceTexts(pieces), Write(rest), budget) ==
            Ok(Prepend(prefix, Cross(ItemsNumbers(PieceItems(pieces)), Denote(Tidy(rest)))))
    decreases rest, 2, |pieces|
  {
    hide Span, Avoids, Split, PieceText, Write, ItemNumbers, Denote, M.Strip, M.Brackets, PieceOk, LooseOk, M.NumbersOf,
      M.ItemOf, WellFormedItem;
    if pieces != [] {
      hide PieceItems, ItemsNumbers, Cross, Prepend;
      var texts, later := PieceTexts(pieces), PieceTexts(pieces[1..]);
      PieceStripped(pieces[0]);
      assert texts[1..] == later;
      LooseItems(prefix, pieces[1..], rest, budget);
      if pieces[0].Nothing? {
        ItemsSkip(prefix, texts, Write(rest), budget);
        NoItem(pieces);
      } else {
        var more := PieceItems(pieces[1..]);
        FirstItem(pieces);
        LooseItem(prefix, pieces[0], later, ItemsNumbers(more), rest, budget);
        assert texts == [PieceText(pieces[0])] + later;
      }
    }
  }

  lemma NoItem(pieces: seq<Piece>)
    requires pieces != [] && pieces[0].Nothing?
    ensures PieceItems(pieces) == PieceItems(pieces[1..])
  {}

  lemma FirstItem(pieces: seq<Piece>)
    requires pieces != [] && pieces[0].Spaced? && forall i | 0 <= i < |pieces| :: PieceOk(pieces[i])
    ensures WellFormedItem(pieces[0].item)
    ensures ItemsNumbers(PieceItems(pieces)) == ItemNumbers(pieces[0].item) + ItemsNumbers(PieceItems(pieces[1..]))
  {
    hide ItemNumbers, WellFormedItem;
    assert PieceOk(pieces[0]);
    assert ([pieces[0].item] + PieceItems(pieces[1..]))[1..] == PieceItems(pieces[1..]);
  }

  /** The step for an item. */
  lemma LooseItem(prefix: string, p: Piece, texts: seq<string>, more: seq<string>, rest: Loose, budget: nat)
    requires p.Spaced? && PieceOk(p) && LooseOk(rest) && Avoids(prefix, {'['})
    requires M.Brackets(prefix) + M.Brackets(PieceText(p)) + M.Brackets(Write(rest)) < budget
    requires forall i | 0 <= i < |texts| :: M.Brackets(prefix) + M.Brackets(texts[i]) + M.Brackets(Write(rest)) < budget
    requires M.ItemsOf(prefix, texts, Write(rest), budget) == Ok(Prepend(prefix, Cross(more, Denote(Tidy(rest)))))
    ensures forall i | 0 <= i < |[PieceText(p)] + texts| ::
              M.Brackets(prefix) + M.Brackets(([PieceText(p)] + texts)[i]) + M.Brackets(Write(rest)) < budget
    ensures M.ItemsOf(prefix, [PieceText(p)] + texts, Write(rest), budget) ==
            Ok(Prepend(prefix, Cross(ItemNumbers(p.item) + more, Denote(Tidy(rest)))))
    decreases rest, 1, |ItemNumbers(p.item)| + 1
  {
    hide Span, Avoids, Split, PieceText, Write, ItemNumbers, Denote, M.Strip, M.Brackets, LooseOk, M.ItemsOf, M.NumbersOf,
      M.ItemOf;
    var nums, tails := ItemNumbers(p.item), Denote(Tidy(rest));
    PieceStripped(p);
    ModernItem(p.item);
    ItemBrackets(p.item);
    LooseNumbers(prefix, nums, rest, budget);
    var all := [PieceText(p)] + texts;
    assert all[1..] == texts && all[0] == PieceText(p);
    ItemsStep(prefix, all, Write(rest), budget, nums,
              Prepend(prefix, Cross(nums, tails)), Prepend(prefix, Cross(more, tails)));
    CrossOfConcat(prefix, nums, more, tails);
  }

  /** How the token that renders a group is cut. */
  lemma CutRendering(before: string, list: string, rest: string)
    requires Avoids(before, {'['}) && Avoids(list, {']'})
    ensures var token := before + ("[" + list + "]" + rest);
            && Text.Span(token, {'['}) == |before| < |token|
            && M.CutToken(token) == Some(M.Group(before, list, rest))
  {
    hide Text.Span, Avoids;
    var token := before + ("[" + list + "]" + rest);
    assert token[..|before|] == before && token[|before|] == '[';
    Text.SpanUnique(token, {'['}, |before|);
    var tail := token[|before| + 1..];
    assert tail == list + ("]" + rest);
    assert tail[..|list|] == list && tail[|list|] == ']' && tail[|list| + 1..] == rest;
    Text.SpanUnique(tail, {']'}, |list|);
  }

  lemma {:induction false} LooseGroups(before: string, pieces: seq<Piece>, rest: Loose)
    requires LooseOk(rest) && Avoids(before, {'['}) && pieces != []
    requires forall i | 0 <= i < |pieces| :: PieceOk(pieces[i])
    ensures M.TokenOf(before + ("[" + Join(PieceTexts(pieces), ',') + "]" + Write(rest))) ==
            Ok(Prepend(before, Cross(ItemsNumbers(PieceItems(pieces)), Denote(Tidy(rest)))))
    decreases rest, 3
  {
    hide Denote, ItemsNumbers, Cross, Prepend, PieceOk, LooseOk, PieceText, Write;
    var list := Join(PieceTexts(pieces), ',');
    var token := before + ("[" + list + "]" + Write(rest));
    ListAvoids(pieces, {']'});
    CutRendering(before, list, Write(rest));
    forall i | 0 <= i < |pieces| ensures Avoids(PieceTexts(pieces)[i], {','}) { PieceAvoids(pieces[i], {','}); }
    SplitOfJoin(PieceTexts(pieces), ',');
    M.CutBrackets(token);
    M.BracketsSplit(list);
    LooseItems(before, pieces, rest, M.Brackets(token));
  }

  /** Scanning a token again after each substitution gives the denotation, whatever is substituted already. */
  lemma {:induction false} LooseToken(before: string, l: Loose)
    requires LooseOk(l) && Avoids(before, {'['})
    ensures M.TokenOf(before + Write(l)) == Ok(Prepend(before, Denote(Tidy(l))))
    decreases l, 0
  {
    AvoidsConcat(before, l.text, {'['});
    match l {
      case LoosePlain(text) =>
        Text.SpanUnique(before + text, {'['}, |before + text|);
        assert Prepend(before, [text]) == [before + text];
      case LooseGroup(text, pieces, rest) =>
        var tail := "[" + Join(PieceTexts(pieces), ',') + "]" + Write(rest);
        assert before + (text + tail) == before + text + tail;
        LooseGroups(before + text, pieces, rest);
        PrependPrepend(before, text, Cross(ItemsNumbers(PieceItems(pieces)), Denote(Tidy(rest))));
    }
  }

  lemma TextCloses(text: string)
    requires Avoids(text, {',', '[', ']'})
    ensures Closed(text, 0)
  {
    assert text + "" == text;
    ClosedText(text, "", 0);
  }

  lemma {:induction false} WriteClosed(l: Loose)
    requires LooseOk(l)
    ensures Closed(Write(l), 0)
  {
    hide Closed;
    match l {
      case LoosePlain(text) =>
        TextCloses(text);
      case LooseGroup(text, pieces, rest) =>
        WriteClosed(rest);
        var list := Join(PieceTexts(pieces), ',');
        ListAvoids(pieces, {'[', ']'});
        GroupCloses(list, Write(rest));
        ClosedText(text, "[" + list + "]" + Write(rest), 0);
    }
  }

  // ---------- whole expressions ----------

  /** A piece between the commas of an expression. */
  datatype Part = Gap(blanks: string) | Around(before: string, token: Loose, after: string)

  ghost predicate PartOk(p: Part) {
    match p
    case Gap(blanks) => OnlyOf(blanks, M.SPACES)
    case Around(before, token, after) =>
      OnlyOf(before, M.SPACES) && OnlyOf(after, M.SPACES) && LooseOk(token) && Trimmed(Write(token))
  }

  function PartText(p: Part): string {
    match p
    case Gap(blanks) => blanks
    case Around(before, token, after) => before + Write(token) + after
  }

  function PartTexts(parts: seq<Part>): (r: seq<string>)
    ensures |r| == |parts| && forall i | 0 <= i < |r| :: r[i] == PartText(parts[i])
  {
    seq(|parts|, i requires 0 <= i < |parts| => PartText(parts[i]))
  }

  /** The tokens among the parts. */
  function PartTokens(parts: seq<Part>): seq<Loose> {
    if parts == [] then [] else (if parts[0].Around? then [parts[0].token] else []) + PartTokens(parts[1..])
  }

  function Written(tokens: seq<Loose>): (r: seq<string>)
    ensures |r| == |tokens| && forall i | 0 <= i < |r| :: r[i] == Write(tokens[i])
  {
    seq(|tokens|, i requires 0 <= i < |tokens| => Write(tokens[i]))
  }

  function TidyAll(tokens: seq<Loose>): (r: seq<Token>)
    ensures |r| == |tokens| && forall i | 0 <= i < |r| :: r[i] == Tidy(tokens[i])
  {
    seq(|tokens|, i requires 0 <= i < |tokens| => Tidy(tokens[i]))
  }

  lemma {:induction false} TokensOk(parts: seq<Part>)
    requires forall i | 0 <= i < |parts| :: PartOk(parts[i])
    ensures forall i | 0 <= i < |PartTokens(parts)| :: LooseOk(PartTokens(parts)[i])
  {
    hide LooseOk, Trimmed;
    if parts != [] {
      TokensOk(parts[1..]);
      assert PartOk(parts[0]);
    }
  }

  lemma {:induction false} TopPart(part: string, s: string, depth: nat, cur: string)
    requires depth <= 1 && Closed(part, depth)
    ensures M.TopParts(part + s, depth, cur) == M.TopParts(s, 0, cur + part)
  {
    if part == "" {
      assert part + s == s && cur + part == cur;
    } else {
      assert (part + s)[1..] == part[1..] + s;
      assert cur + part == cur + [part[0]] + part[1..];
      TopPart(part[1..], s, depth + (if part[0] == '[' then 1 else if part[0] == ']' then -1 else 0), cur + [part[0]]);
    }
  }

  lemma {:induction false} TopPartsOfJoin(parts: seq<string>)
    requires parts != [] && forall i | 0 <= i < |parts| :: Closed(parts[i], 0)
    ensures M.TopParts(Join(parts, ','), 0, "") == Ok(parts)
  {
    var later := if |parts| == 1 then "" else "," + Join(parts[1..], ',');
    assert Join(parts, ',') == parts[0] + later;
    TopPart(parts[0], later, 0, "");
    assert "" + parts[0] == parts[0];
    if |parts| == 1 {
      assert [parts[0]] == parts;
    } else {
      assert later[1..] == Join(parts[1..], ',');
      TopPartsOfJoin(parts[1..]);
      assert [parts[0]] + parts[1..] == parts;
    }
  }

  lemma PartStripped(p: Part)
    requires PartOk(p)
    ensures M.Strip(PartText(p)) == if p.Gap? then "" else Write(p.token)
  {
    hide Trim, LooseOk, Write;
    match p {
      case Gap(blanks) => TrimBlank(blanks, M.SPACES);
      case Around(before, token, after) => TrimOf(before, Write(token), after, M.SPACES);
    }
  }

  lemma PartClosed(p: Part)
    requires PartOk(p)
    ensures Closed(PartText(p), 0)
  {
    hide Write, LooseOk;
    match p {
      case Gap(blanks) =>
        assert blanks + "" == blanks;
        ClosedText(blanks, "", 0);
      case Around(before, token, after) =>
        WriteClosed(token);
        assert after + "" == after;
        ClosedText(after, "", 0);
        ClosedBefore(Write(token), after, 0);
        assert before + Write(token) + after == before + (Write(token) + after);
        ClosedText(before, Write(token) + after, 0);
    }
  }

  lemma {:induction false} ClosedBefore(s: string, after: string, level: nat)
    requires Closed(s, level) && Closed(after, 0)
    ensures Closed(s + after, level)
  {
    if s == "" {
      assert s + after == after;
    } else {
      assert (s + after)[1..] == s[1..] + after;
      ClosedBefore(s[1..], after, if s[0] == '[' then 1 else if s[0] == ']' then 0 else level);
    }
  }

  lemma {:induction false} StrippedParts(parts: seq<Part>)
    requires forall i | 0 <= i < |parts| :: PartOk(parts[i])
    ensures M.Stripped(PartTexts(parts)) == Written(PartTokens(parts))
  {
    hide PartText, Write, M.Strip;
    if parts != [] {
      PartStripped(parts[0]);
      assert parts[0].Around? ==> Trimmed(Write(parts[0].token));
      hide PartOk;
      StrippedParts(parts[1..]);
      assert PartTexts(parts)[1..] == PartTexts(parts[1..]);
      if parts[0].Around? {
        assert Written([parts[0].token] + PartTokens(parts[1..]))
            == [Write(parts[0].token)] + Written(PartTokens(parts[1..]));
      }
    }
  }

  lemma NothingSplit()
    ensures M.TopLevelOf("") == Ok([]) && Join(PartTexts([]), ',') == "" && Written(PartTokens([])) == []
  {
    hide M.Strip;
    assert M.TopParts("", 0, "") == Ok([""]);
    assert M.Strip("") == "" by { BlanksStrip(""); }
    assert [""][1..] == [] && M.Stripped([]) == [];
    assert M.Stripped([""]) == [] + M.Stripped([""][1..]);
  }

  lemma BlanksStrip(s: string)
    requires OnlyOf(s, M.SPACES)
    ensures M.Strip(s) == ""
  {
    TrimBlank(s, M.SPACES);
  }

  /** The split gives the tokens back, free of the blanks and the empty parts. */
  lemma SplitOfParts(parts: seq<Part>)
    requires forall i | 0 <= i < |parts| :: PartOk(parts[i])
    ensures M.TopLevelOf(Join(PartTexts(parts), ',')) == Ok(Written(PartTokens(parts)))
  {
    hide PartOk, PartText, M.Strip, Closed, Join, M.Stripped, M.TopParts, Written;
    if parts == [] {
      NothingSplit();
    } else {
      forall i | 0 <= i < |parts| ensures Closed(PartTexts(parts)[i], 0) { PartClosed(parts[i]); }
      TopPartsOfJoin(PartTexts(parts));
      StrippedParts(parts);
    }
  }

  lemma {:induction false} LooseTokens(tokens: seq<Loose>)
    requires forall i | 0 <= i < |tokens| :: LooseOk(tokens[i])
    ensures M.TokensOf(Written(tokens)) == Ok(DenoteSpec(TidyAll(tokens)))
  {
    hide Write, Denote, M.TokenOf, WellFormed, LooseOk, Tidy;
    if tokens != [] {
      assert "" + Write(tokens[0]) == Write(tokens[0]);
      LooseToken("", tokens[0]);
      PrependNothing(Denote(Tidy(tokens[0])));
      LooseTokens(tokens[1..]);
      assert Written(tokens)[1..] == Written(tokens[1..]) && TidyAll(tokens)[1..] == TidyAll(tokens[1..]);
    }
  }

  /** The modern expander returns the denotation of every expression whose tokens are well formed, however spaced. */
  lemma LooseSpec(parts: seq<Part>)
    requires forall i | 0 <= i < |parts| :: PartOk(parts[i])
    ensures forall i | 0 <= i < |PartTokens(parts)| :: WellFormed(TidyAll(PartTokens(parts))[i])
    ensures M.ExpansionOf(Join(PartTexts(parts), ',')) == Ok(DenoteSpec(TidyAll(PartTokens(parts))))
  {
    hide PartOk, PartText, Denote, DenoteSpec, LooseOk, WellFormed, M.TopLevelOf, M.TokensOf;
    TokensOk(parts);
    SplitOfParts(parts);
    LooseTokens(PartTokens(parts));
  }

  // ---------- without spaces ----------

  ghost predicate WellFormedSpec(tokens: seq<Token>) {
    forall i | 0 <= i < |tokens| :: WellFormed(tokens[i]) && Trimmed(Render(tokens[i]))
  }

  function Close(items: seq<Item>): (r: seq<Piece>)
    ensures |r| == |items| && forall i | 0 <= i < |r| :: r[i] == Spaced("", items[i], "")
  {
    seq(|items|, i requires 0 <= i < |items| => Spaced("", items[i], ""))
  }

  /** The token as it is rendered, with no blank anywhere. */
  function Tight(t: Token): Loose {
    match t
    case Plain(text) => LoosePlain(text)
    case Group(text, items, rest) => LooseGroup(text, if items == [] then [Nothing("")] else Close(items), Tight(rest))
  }

  lemma {:induction false} CloseItems(items: seq<Item>)
    ensures PieceItems(Close(items)) == items
  {
    if items != [] {
      CloseItems(items[1..]);
      assert Close(items)[1..] == Close(items[1..]);
    }
  }

  lemma CloseTexts(items: seq<Item>)
    ensures PieceTexts(Close(items)) == RenderItems(items)
  {
    hide RenderItem;
    forall i | 0 <= i < |items| ensures PieceTexts(Close(items))[i] == RenderItem(items[i]) {
      assert "" + RenderItem(items[i]) + "" == RenderItem(items[i]);
    }
  }

  lemma {:induction false} TightToken(t: Token)
    requires WellFormed(t)
    ensures Write(Tight(t)) == Render(t) && Tidy(Tight(t)) == t && LooseOk(Tight(t))
  {
    match t {
      case Plain(text) =>
      case Group(text, items, rest) =>
        TightToken(rest);
        CloseItems(items);
        CloseTexts(items);
        if items == [] {
          assert PieceTexts([Nothing("")]) == [""] && PieceItems([Nothing("")]) == [];
          assert Join([""], ',') == "" == Join(RenderItems([]), ',');
        }
    }
  }

  function TightParts(tokens: seq<Token>): (r: seq<Part>)
    ensures |r| == |tokens| && forall i | 0 <= i < |r| :: r[i] == Around("", Tight(tokens[i]), "")
  {
    seq(|tokens|, i requires 0 <= i < |tokens| => Around("", Tight(tokens[i]), ""))
  }

  lemma {:induction false} TightTokens(tokens: seq<Token>)
    requires forall i | 0 <= i < |tokens| :: WellFormed(tokens[i])
    ensures TidyAll(PartTokens(TightParts(tokens))) == tokens
  {
    hide Tight, Tidy, WellFormed;
    if tokens != [] {
      TightToken(tokens[0]);
      TightTokens(tokens[1..]);
      var more := PartTokens(TightParts(tokens[1..]));
      assert TightParts(tokens)[1..] == TightParts(tokens[1..]);
      assert TidyAll([Tight(tokens[0])] + more) == [tokens[0]] + TidyAll(more);
    }
  }

  /** The modern expander returns the denotation of every well-formed expression. */
  lemma ModernSpec(tokens: seq<Token>)
    requires WellFormedSpec(tokens)
    ensures M.ExpansionOf(RenderSpec(tokens)) == Ok(DenoteSpec(tokens))
  {
    hide Render, Write, Tight, Denote, DenoteSpec, LooseOk, WellFormed, M.ExpansionOf;
    var parts := TightParts(tokens);
    forall i | 0 <= i < |tokens| ensures PartOk(parts[i]) && PartTexts(parts)[i] == Render(tokens[i]) {
      TightToken(tokens[i]);
      assert "" + Render(tokens[i]) + "" == Render(tokens[i]);
    }
    assert PartTexts(parts) == RenderAll(tokens);
    LooseSpec(parts);
    TightTokens(tokens);
  }
}
