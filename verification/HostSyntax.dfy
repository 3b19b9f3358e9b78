/** What both host list implementations take for a well-bracketed piece of an expression. */
module HostSyntax {
  import opened Text

  /** The characters of the host list syntax, and the newline at which the patterns stop. */
  const SPECIAL := {',', '[', ']', '\n'}

  /** Brackets are balanced and not nested, and every comma is inside brackets. */
  predicate Closed(s: string, level: nat) {
    if s == "" then level == 0
    else if s[0] == ',' && level == 0 then false
    else if s[0] == '[' then level == 0 && Closed(s[1..], 1)
    else if s[0] == ']' then level == 1 && Closed(s[1..], 0)
    else Closed(s[1..], level)
  }

  lemma {:induction false} ClosedText(x: string, s: string, level: nat)
    requires Avoids(x, if level == 1 then {'[', ']'} else {',', '[', ']'})
    ensures Closed(x + s, level) == Closed(s, level)
  {
    if x == "" {
      assert x + s == s;
    } else {
      assert (x + s)[1..] == x[1..] + s;
      ClosedText(x[1..], s, level);
    }
  }

  lemma GroupCloses(list: string, rest: string)
    requires Avoids(list, {'[', ']'}) && Closed(rest, 0)
    ensures Closed("[" + list + "]" + rest, 0)
  {
    ClosedText(list, "]" + rest, 1);
    assert ("[" + list + "]" + rest)[1..] == list + ("]" + rest);
    assert ("]" + rest)[1..] == rest;
  }

  lemma GroupClosed(list: string, rest: string)
    requires Avoids(list, {'[', ']', '\n'}) && Closed(rest, 0) && Avoids(rest, {'\n'})
    ensures Closed("[" + list + "]" + rest, 0) && Avoids("[" + list + "]" + rest, {'\n'})
  {
    var t := "[" + list + "]";
    GroupCloses(list, rest);
    AvoidsConcat("[" + list, "]", {'\n'});
    AvoidsConcat("[", list, {'\n'});
    AvoidsConcat(t, rest, {'\n'});
  }

  // ---------- how deep the brackets go ----------

  /** Opening less closing brackets. */
  function Depth(s: string): int {
    var opening: int := multiset(s)['['];
    opening - multiset(s)[']']
  }

  function Change(c: char): int { if c == '[' then 1 else if c == ']' then -1 else 0 }

  /** Read from this depth on, some prefix closes a bracket that is not open. */
  ghost predicate Dips(s: string, depth: int) { exists i | 0 <= i <= |s| :: depth + Depth(s[..i]) < 0 }

  /** Some prefix has more than one bracket open. */
  ghost predicate Nests(s: string, depth: int) { exists i | 0 <= i <= |s| :: depth + Depth(s[..i]) > 1 }

  lemma DepthConcat(a: string, b: string)
    ensures Depth(a + b) == Depth(a) + Depth(b)
  {}

  lemma DepthStep(s: string, i: nat)
    requires i < |s|
    ensures Depth(s[..i + 1]) == Change(s[0]) + Depth(s[1..][..i])
  {
    assert s[..i + 1] == [s[0]] + s[1..][..i];
    DepthConcat([s[0]], s[1..][..i]);
  }

  lemma DipsNext(s: string, depth: int)
    requires s != ""
    ensures Dips(s, depth) <==> depth < 0 || Dips(s[1..], depth + Change(s[0]))
  {
    var t := s[1..];
    assert Depth(s[..0]) == 0;
    hide Depth;
    if Dips(s, depth) && depth >= 0 {
      var i :| 0 <= i <= |s| && depth + Depth(s[..i]) < 0;
      DepthStep(s, i - 1);
      assert depth + Change(s[0]) + Depth(t[..i - 1]) < 0;
    }
    if Dips(t, depth + Change(s[0])) {
      var i :| 0 <= i <= |t| && depth + Change(s[0]) + Depth(t[..i]) < 0;
      DepthStep(s, i);
    }
  }

  lemma NestsNext(s: string, depth: int)
    requires s != ""
    ensures Nests(s, depth) <==> depth > 1 || Nests(s[1..], depth + Change(s[0]))
  {
    var t := s[1..];
    assert Depth(s[..0]) == 0;
    hide Depth;
    if Nests(s, depth) && depth <= 1 {
      var i :| 0 <= i <= |s| && depth + Depth(s[..i]) > 1;
      DepthStep(s, i - 1);
      assert depth + Change(s[0]) + Depth(t[..i - 1]) > 1;
    }
    if Nests(t, depth + Change(s[0])) {
      var i :| 0 <= i <= |t| && depth + Change(s[0]) + Depth(t[..i]) > 1;
      DepthStep(s, i);
    }
  }

  lemma DepthNext(s: string, depth: int)
    requires s != ""
    ensures Depth(s) == Change(s[0]) + Depth(s[1..])
    ensures Dips(s, depth) <==> depth < 0 || Dips(s[1..], depth + Change(s[0]))
    ensures Nests(s, depth) <==> depth > 1 || Nests(s[1..], depth + Change(s[0]))
  {
    hide Depth, Dips, Nests;
    DepthStep(s, |s| - 1);
    assert s[..|s|] == s && s[1..][..|s| - 1] == s[1..];
    DipsNext(s, depth);
    NestsNext(s, depth);
  }

  lemma DepthOfNothing(depth: int)
    ensures Depth("") == 0 && (Dips("", depth) <==> depth < 0) && (Nests("", depth) <==> depth > 1)
  {
    assert ""[..0] == "";
  }

  /** A character that is no bracket changes nothing at the end. */
  lemma DepthBefore(s: string, c: char)
    requires Change(c) == 0
    ensures Depth(s + [c]) == Depth(s)
    ensures Dips(s + [c], 0) <==> Dips(s, 0)
    ensures Nests(s + [c], 0) <==> Nests(s, 0)
  {
    var t := s + [c];
    DepthConcat(s, [c]);
    assert t[..|t|] == t && s[..|s|] == s;
    assert forall i | 0 <= i <= |s| :: t[..i] == s[..i];
    hide Depth;
  }
}
