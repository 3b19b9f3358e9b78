/**
 The shape that the entries have between two rounds of collect_hostlist, and what
 follows from it: an entry can be told apart from every other one by its text alone,
 so a name built while a range is scanned never hits an entry of another group.
 */
module LegacyShape {
  import opened Text
  import opened LegacyCollect

  /** The numeric parts of a text: runs of digits outside brackets, and bracket groups. */
  function Fields(s: string): nat
    decreases |s|
  {
    if s == "" then 0
    else if s[0] == '[' then
      var close := Span(s, {']'});
      if close == |s| then 1 else 1 + Fields(s[close + 1..])
    else if IsDigit(s[0]) && (|s| == 1 || !IsDigit(s[1])) then 1 + Fields(s[1..])
    else Fields(s[1..])
  }

  const BRACKETS := {',', '[', ']'}

  ghost predicate EndsInDigit(s: string) { s != "" && IsDigit(s[|s| - 1]) }

  ghost predicate StartsWithDigit(s: string) { s != "" && IsDigit(s[0]) }

  lemma {:induction false} FieldsOfText(x: string, s: string)
    requires Avoids(x, BRACKETS) && !(EndsInDigit(x) && StartsWithDigit(s))
    ensures Fields(x + s) == Fields(x) + Fields(s)
  {
    if x == "" {
      assert x + s == s;
    } else {
      assert (x + s)[1..] == x[1..] + s;
      FieldsOfText(x[1..], s);
    }
  }

  lemma {:induction false} FieldsOfDigits(x: string)
    requires AllDigits(x) || NoDigits(x)
    requires Avoids(x, BRACKETS)
    ensures Fields(x) == if x != "" && AllDigits(x) then 1 else 0
  {
    if x != "" { FieldsOfDigits(x[1..]); }
  }

  /** A text that starts with a digit has at least one field. */
  lemma {:induction false} FieldsPositive(x: string)
    requires StartsWithDigit(x)
    ensures Fields(x) >= 1
  {
    if |x| > 1 && IsDigit(x[1]) { FieldsPositive(x[1..]); }
  }

  /** After `k` rounds: k parts are folded and more text is left, or there were fewer than k parts to fold. */
  ghost predicate Shape(e: Entry, k: nat) {
    && Avoids(e.left, BRACKETS)
    && ( || (k == 0 && e.right == "")
         || (k > 0 && !EndsInDigit(e.left) && e.right != "" && (IsDigit(e.right[0]) || e.right[0] == '[')
             && Fields(e.right) == k)
         || (k > 0 && e.left == "" && Fields(e.right) < k))
  }

  ghost predicate Shapes(lr: seq<Entry>, k: nat) { forall e | e in lr :: Shape(e, k) }

  lemma MatchAvoids(left: string, stop: set<char>)
    requires Avoids(left, stop)
    ensures var m := MatchOf(left); Avoids(m.prefix, stop) && Avoids(m.number, stop) && Avoids(m.suffix, stop)
  {
    var m := MatchOf(left);
    MatchFacts(left);
    AvoidsConcat(m.prefix + m.number, m.suffix, stop);
    AvoidsConcat(m.prefix, m.number, stop);
  }

  /** A part that still has a number ends its number by other text, unless nothing was folded yet. */
  lemma TailOfNumber(e: Entry, k: nat)
    requires Shape(e, k) && MatchOf(e.left).number != ""
    ensures Fields(e.right) == k
    ensures k > 0 ==> MatchOf(e.left).suffix != ""
    ensures if k == 0 then e.right == "" else e.right != "" && (IsDigit(e.right[0]) || e.right[0] == '[')
    ensures !StartsWithDigit(MatchOf(e.left).suffix + e.right)
    ensures Fields(MatchOf(e.left).suffix + e.right) == k
  {
    hide MatchOf, Span;
    var m := MatchOf(e.left);
    MatchFacts(e.left);
    assert e.left != "";
    assert e.left[|e.left| - 1] ==
           if m.suffix == "" then m.number[|m.number| - 1] else m.suffix[|m.suffix| - 1];
    MatchAvoids(e.left, BRACKETS);
    FieldsOfDigits(m.suffix);
    FieldsOfText(m.suffix, e.right);
  }

  lemma MatchUnique(left: string, m: Match)
    requires m.prefix + m.number + m.suffix == left
    requires IsNumeral(m.number) && NoDigits(m.suffix) && !EndsInDigit(m.prefix)
    ensures MatchOf(left) == m
  {
    var a, b := |m.prefix|, |m.prefix| + |m.number|;
    assert left[..a] == m.prefix && left[a..b] == m.number && left[b..] == m.suffix;
    assert forall i | a <= i < b :: left[i] == left[a..b][i - a];
    assert forall i | b <= i < |left| :: left[i] == left[b..][i - b];
    assert a > 0 ==> left[a - 1] == left[..a][a - 1];
    MatchAt(left, a, b);
  }

  lemma MatchAt(left: string, a: nat, b: nat)
    requires a < b <= |left|
    requires forall i | b <= i < |left| :: !IsDigit(left[i])
    requires forall i | a <= i < b :: IsDigit(left[i])
    requires a > 0 ==> !IsDigit(left[a - 1])
    ensures MatchOf(left) == Match(left[..a], left[a..b], left[b..])
  {
    TailStartUnique(left, b);
    RunStartUnique(left[..b], a);
  }

  lemma {:induction false} TailStartUnique(s: string, b: nat)
    requires b <= |s| && (forall i | b <= i < |s| :: !IsDigit(s[i])) && (b > 0 ==> IsDigit(s[b - 1]))
    ensures TailStart(s) == b
  {
    if b < |s| { TailStartUnique(s[..|s| - 1], b); }
  }

  /** Two splits of one text: the longer left part's extra text carries a field of the other's right part. */
  lemma SplitsAgree(l: string, r: string, l': string, r': string, k: nat)
    requires l + r == l' + r' && Avoids(l, BRACKETS) && Fields(r) == Fields(r') == k
    requires k == 0 ==> r == r' == ""
    requires k > 0 ==> !EndsInDigit(l) && r' != "" && (IsDigit(r'[0]) || r'[0] == '[')
    ensures |l| <= |l'|
  {
    if |l| > |l'| {
      var x := l[|l'|..];
      assert l == l' + x by { assert l == (l + r)[..|l|] && l' == (l + r)[..|l'|]; }
      assert r' == x + r by { assert r' == (l' + r')[|l'|..] && (l + r)[|l'|..] == x + r; }
      assert x[0] == r'[0] && x[0] in l;
      FieldsOfText(x, r) by { assert x[|x| - 1] == l[|l| - 1]; }
      FieldsPositive(x);
      assert false;
    }
  }

  lemma FieldsOfName(prefix: string, numeral: string, rest: string)
    requires Avoids(prefix, BRACKETS) && !EndsInDigit(prefix) && IsNumeral(numeral) && !StartsWithDigit(rest)
    ensures Fields(prefix + numeral + rest) >= 1 + Fields(rest)
  {
    assert prefix + numeral + rest == prefix + (numeral + rest);
    FieldsOfText(prefix, numeral + rest);
    FieldsOfDigits(numeral);
    FieldsOfText(numeral, rest);
  }

  lemma SplitsEqual(l: string, r: string, l': string, r': string)
    requires l + r == l' + r' && |l| == |l'|
    ensures l == l' && r == r'
  {
    assert l == (l + r)[..|l|] && l' == (l' + r')[..|l'|];
    assert r == (l + r)[|l|..] && r' == (l' + r')[|l'|..];
  }

  /** A name that continues a group's prefix with a numeral belongs to that group. */
  lemma Separation(e: Entry, f: Entry, numeral: string, k: nat)
    requires Shape(e, k) && Shape(f, k) && MatchOf(f.left).number != "" && IsNumeral(numeral)
    requires e.Name() == MatchOf(f.left).prefix + numeral + (MatchOf(f.left).suffix + f.right)
    ensures MatchOf(e.left) == MatchOf(f.left).(number := numeral) && e.right == f.right
  {
    var Match(p, _, s) := MatchOf(f.left);
    MatchFacts(f.left);
    TailOfNumber(f, k);
    MatchAvoids(f.left, BRACKETS);
    SeparationOfPieces(e, p, numeral, s, f.right, k);
    MatchUnique(e.left, Match(p, numeral, s));
  }

  lemma SeparationOfPieces(e: Entry, p: string, numeral: string, s: string, r: string, k: nat)
    requires Shape(e, k) && e.Name() == p + numeral + (s + r) && IsNumeral(numeral) && Fields(s + r) == Fields(r) == k
    requires Avoids(p, BRACKETS) && !EndsInDigit(p) && Avoids(s, BRACKETS) && NoDigits(s) && !StartsWithDigit(s + r)
    requires (if k == 0 then r == "" else s != "" && r != "" && (IsDigit(r[0]) || r[0] == '['))
    ensures e.left == p + numeral + s && e.right == r
  {
    var l := p + numeral + s;
    assert l + r == p + numeral + (s + r);
    FieldsOfName(p, numeral, s + r);
    assert Avoids(l, BRACKETS) by {
      AvoidsConcat(p + numeral, s, BRACKETS);
      AvoidsConcat(p, numeral, BRACKETS);
    }
    assert k > 0 ==> l[|l| - 1] == s[|s| - 1];
    SeparationOfSplits(e, l, r, k);
  }

  lemma SeparationOfSplits(e: Entry, l: string, r: string, k: nat)
    requires Shape(e, k) && e.left + e.right == l + r && Fields(l + r) >= 1 + k && Fields(r) == k
    requires Avoids(l, BRACKETS) && (k > 0 ==> !EndsInDigit(l))
    requires (if k == 0 then r == "" else r != "" && (IsDigit(r[0]) || r[0] == '['))
    ensures e.left == l && e.right == r
  {
    assert Fields(e.right) == k by {
      if e.left == "" { assert e.left + e.right == e.right; }
    }
    SplitsAgree(e.left, e.right, l, r, k);
    SplitsAgree(l, r, e.left, e.right, k);
    SplitsEqual(e.left, e.right, l, r);
  }
}
