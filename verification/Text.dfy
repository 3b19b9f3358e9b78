/**
 Strings, decimal numerals and the few string operations that both host list
 implementations are written with.
 */
module Text {
  import Lists

  predicate IsDigit(c: char) { '0' <= c <= '9' }

  ghost predicate AllDigits(s: string) { forall i | 0 <= i < |s| :: IsDigit(s[i]) }

  ghost predicate NoDigits(s: string) { forall i | 0 <= i < |s| :: !IsDigit(s[i]) }

  /** A numeral: one or more digits. */
  predicate IsNumeral(s: string) { s != "" && forall i | 0 <= i < |s| :: IsDigit(s[i]) }

  function DigitChar(d: nat): (c: char)
    requires d < 10
    ensures IsDigit(c)
  {
    '0' + d as char
  }

  function DigitValue(c: char): (d: nat)
    requires IsDigit(c)
    ensures d < 10 && DigitChar(d) == c
  {
    (c - '0') as nat
  }

  /** int(s) for a string of digits. */
  function Value(s: string): nat
    requires AllDigits(s)
  {
    if s == "" then 0 else 10 * Value(s[..|s| - 1]) + DigitValue(s[|s| - 1])
  }

  /** str(n) */
  function Decimal(n: nat): (s: string)
    ensures IsNumeral(s)
  {
    if n < 10 then [DigitChar(n)] else Decimal(n / 10) + [DigitChar(n % 10)]
  }

  function Zeros(n: nat): string { seq(n, _ => '0') }

  /** "%0*d" % (width, n), which is also str(n).zfill(width), for n >= 0. */
  function Pad(width: nat, n: nat): (s: string)
    ensures IsNumeral(s) && |s| >= width
  {
    var d := Decimal(n);
    if |d| < width then Zeros(width - |d|) + d else d
  }

  lemma DecimalSteps(n: nat)
    ensures |Decimal(n)| == 1 <==> n < 10
    ensures n >= 10 ==> |Decimal(n)| == |Decimal(n / 10)| + 1
    ensures Decimal(n)[0] == '0' <==> n == 0
  {
    if n >= 10 { DecimalSteps(n / 10); }
  }

  lemma PadStep(width: nat, n: nat)
    requires width >= 2 || n >= 10
    ensures Pad(width, n) == Pad(if width == 0 then 0 else width - 1, n / 10) + [DigitChar(n % 10)]
  {
    DecimalSteps(n);
    DecimalSteps(n / 10);
    if n < 10 {
      assert Decimal(n) == [DigitChar(n % 10)];
      if width > 2 {
        assert Zeros(width - 1) == Zeros(width - 2) + "0";
      }
      assert DigitChar(0) == '0';
    }
  }

  /** Padding a numeral's value back to the numeral's own length restores it, leading zeros included. */
  lemma {:induction false} PadOfValue(s: string)
    requires IsNumeral(s)
    ensures Pad(|s|, Value(s)) == s
  {
    var t := s[..|s| - 1];
    var d := DigitValue(s[|s| - 1]);
    if t == "" {
      assert Value(s) == d;
      assert s == [DigitChar(d)];
    } else {
      PadOfValue(t);
      PadStep(|s|, Value(s));
      assert Value(s) / 10 == Value(t) && Value(s) % 10 == d;
      assert s == t + [DigitChar(d)];
    }
  }

  /** Whatever the width, the padded numeral still denotes the number. */
  lemma {:induction false} ValueOfPad(width: nat, n: nat)
    ensures Value(Pad(width, n)) == n
    decreases width + n
  {
    if width >= 2 || n >= 10 {
      PadStep(width, n);
      var w := if width == 0 then 0 else width - 1;
      ValueOfPad(w, n / 10);
      var p := Pad(width, n);
      assert p[..|p| - 1] == Pad(w, n / 10);
    } else {
      var p := Pad(width, n);
      assert p == [DigitChar(n)];
      assert p[..0] == "";
    }
  }

  lemma DecimalLengthMonotone(m: nat, n: nat)
    requires m <= n
    ensures |Decimal(m)| <= |Decimal(n)|
  {
    DecimalSteps(m);
    DecimalSteps(n);
    if n >= 10 && m >= 10 { DecimalLengthMonotone(m / 10, n / 10); }
  }

  /** A width no larger than the number's own length makes no difference. */
  lemma PadNarrow(width: nat, n: nat)
    requires width <= |Decimal(n)|
    ensures Pad(width, n) == Decimal(n)
  {
  }

  /** Padding to the length of the padded first number is padding to the width itself. */
  lemma WidthOfLow(width: nat, low: nat, n: nat)
    requires low <= n
    ensures Pad(|Pad(width, low)|, n) == Pad(width, n)
  {
    DecimalLengthMonotone(low, n);
  }

  /** The numbers from low to high, each padded to the width. */
  function Padded(width: nat, low: nat, high: nat): (r: seq<string>)
    requires low <= high
    ensures |r| == high + 1 - low
    ensures forall i | 0 <= i < |r| :: r[i] == Pad(width, low + i)
    ensures forall n | n in r :: IsNumeral(n)
  {
    seq(high + 1 - low, i requires 0 <= i < high + 1 - low => Pad(width, low + i))
  }

  lemma PaddedToFirst(width: nat, low: nat, high: nat)
    requires low <= high
    ensures Padded(|Pad(width, low)|, low, high) == Padded(width, low, high)
  {
    hide Pad, Padded, IsNumeral;
    var a, b := Padded(|Pad(width, low)|, low, high), Padded(width, low, high);
    forall i | 0 <= i < |a| ensures a[i] == b[i] { WidthOfLow(width, low, low + i); }
  }

  lemma PadInjective(width: nat, m: nat, n: nat)
    requires Pad(width, m) == Pad(width, n)
    ensures m == n
  {
    ValueOfPad(width, m);
    ValueOfPad(width, n);
  }

  /** A numeral without a leading zero (or "0" itself) is the plain decimal of its value. */
  lemma {:induction false} CanonicalNumeral(s: string)
    requires IsNumeral(s) && (s[0] != '0' || |s| == 1)
    ensures Decimal(Value(s)) == s
  {
    PadOfValue(s);
    var d := Decimal(Value(s));
    DecimalSteps(Value(s));
    assert Pad(|s|, Value(s))[0] == (if |d| < |s| then '0' else d[0]);
  }

  /** The string with `text` put before each element. */
  function Prepend(text: string, items: seq<string>): (r: seq<string>)
    ensures |r| == |items|
    ensures forall i | 0 <= i < |r| :: r[i] == text + items[i]
  {
    seq(|items|, i requires 0 <= i < |items| => text + items[i])
  }

  /** Every left string followed by every right string, the right one changing fastest. */
  function Cross(left: seq<string>, right: seq<string>): seq<string>
  {
    if left == [] then [] else Prepend(left[0], right) + Cross(left[1..], right)
  }

  /** sep.join(items) */
  function Join(items: seq<string>, sep: char): string
  {
    if items == [] then ""
    else if |items| == 1 then items[0]
    else items[0] + [sep] + Join(items[1..], sep)
  }

  /** The length of the longest prefix of s that is free of the given characters. */
  function Span(s: string, stop: set<char>): (n: nat)
    ensures n <= |s|
    ensures forall i | 0 <= i < n :: s[i] !in stop
    ensures n < |s| ==> s[n] in stop
  {
    if s == "" || s[0] in stop then 0 else 1 + Span(s[1..], stop)
  }

  ghost predicate Avoids(s: string, stop: set<char>) { forall i | 0 <= i < |s| :: s[i] !in stop }

  lemma SpanUnique(s: string, stop: set<char>, n: nat)
    requires n <= |s| && Avoids(s[..n], stop) && (n < |s| ==> s[n] in stop)
    ensures Span(s, stop) == n
  {
    if n > 0 {
      assert s[..n][0] == s[0];
      assert s[1..][..n - 1] == s[..n][1..];
      SpanUnique(s[1..], stop, n - 1);
    }
  }

  /** s.split(sep), which yields one empty string for the empty string. */
  function Split(s: string, sep: char): (r: seq<string>)
    ensures |r| >= 1
    decreases |s|
  {
    var n := Span(s, {sep});
    if n == |s| then [s] else [s[..n]] + Split(s[n + 1..], sep)
  }

  /** Splitting undoes joining when no item contains the separator. */
  lemma {:induction false} SplitOfJoin(items: seq<string>, sep: char)
    requires items != [] && forall i | 0 <= i < |items| :: Avoids(items[i], {sep})
    ensures Split(Join(items, sep), sep) == items
  {
    var s := Join(items, sep);
    var n := |items[0]|;
    assert s[..n] == items[0];
    SpanUnique(s, {sep}, n);
    if |items| > 1 {
      assert s[n + 1..] == Join(items[1..], sep);
      SplitOfJoin(items[1..], sep);
    }
  }

  lemma PrependPrepend(x: string, y: string, items: seq<string>)
    ensures Prepend(x, Prepend(y, items)) == Prepend(x + y, items)
  {
    var a, b := Prepend(x, Prepend(y, items)), Prepend(x + y, items);
    assert forall i | 0 <= i < |items| :: a[i] == b[i] by {
      forall i | 0 <= i < |items| ensures a[i] == b[i] {
        assert x + (y + items[i]) == x + y + items[i];
      }
    }
  }

  lemma PrependNothing(items: seq<string>)
    ensures Prepend("", items) == items
  {
    forall i | 0 <= i < |items| ensures Prepend("", items)[i] == items[i] {
      assert "" + items[i] == items[i];
    }
  }

  lemma PrependConcat(x: string, a: seq<string>, b: seq<string>)
    ensures Prepend(x, a + b) == Prepend(x, a) + Prepend(x, b)
  {
  }

  lemma {:induction false} CrossPrepend(x: string, left: seq<string>, right: seq<string>)
    ensures Cross(Prepend(x, left), right) == Prepend(x, Cross(left, right))
  {
    if left != [] {
      CrossPrepend(x, left[1..], right);
      assert Prepend(x, left)[1..] == Prepend(x, left[1..]);
      PrependPrepend(x, left[0], right);
      PrependConcat(x, Prepend(left[0], right), Cross(left[1..], right));
    }
  }

  lemma {:induction false} CrossConcat(a: seq<string>, b: seq<string>, right: seq<string>)
    ensures Cross(a + b, right) == Cross(a, right) + Cross(b, right)
  {
    if a == [] {
      assert a + b == b;
    } else {
      hide Prepend;
      CrossConcat(a[1..], b, right);
      assert (a + b)[0] == a[0] && (a + b)[1..] == a[1..] + b;
      Lists.ConcatAssociative(Prepend(a[0], right), Cross(a[1..], right), Cross(b, right));
    }
  }

  lemma {:induction false} CrossLength(left: seq<string>, right: seq<string>)
    ensures |Cross(left, right)| == |left| * |right|
  {
    if left != [] {
      CrossLength(left[1..], right);
      assert |left| * |right| == |right| + (|left| - 1) * |right|;
    }
  }

  lemma CrossSingle(x: string, right: seq<string>)
    ensures Cross([x], right) == Prepend(x, right)
  {
    assert [x][1..] == [];
    assert Cross([x], right) == Prepend(x, right) + Cross([], right);
  }

  lemma {:induction false} CrossUnit(left: seq<string>)
    ensures Cross(left, [""]) == left
  {
    if left != [] {
      CrossUnit(left[1..]);
      assert Prepend(left[0], [""])[0] == left[0] + "" == left[0];
    }
  }

  /** The `$` of a regular expression also matches before a final newline. */
  function Chomp(s: string): string {
    if s != "" && s[|s| - 1] == '\n' then s[..|s| - 1] else s
  }

  /** Where the digits at the end start. */
  function RunStart(s: string): (a: nat)
    ensures a <= |s|
  {
    if s == "" || !IsDigit(s[|s| - 1]) then |s| else RunStart(s[..|s| - 1])
  }

  lemma {:induction false} RunStartFacts(s: string)
    ensures var a := RunStart(s);
            && AllDigits(s[a..]) && (a > 0 ==> !IsDigit(s[a - 1]))
            && (s != "" && IsDigit(s[|s| - 1]) ==> a < |s|)
  {
    if s != "" && IsDigit(s[|s| - 1]) {
      var t := s[..|s| - 1];
      RunStartFacts(t);
      var a := RunStart(t);
      assert s[a..] == t[a..] + [s[|s| - 1]];
    }
  }

  lemma {:induction false} RunStartUnique(s: string, a: nat)
    requires a <= |s| && (forall i | a <= i < |s| :: IsDigit(s[i])) && (a > 0 ==> !IsDigit(s[a - 1]))
    ensures RunStart(s) == a
  {
    if a < |s| { RunStartUnique(s[..|s| - 1], a); }
  }

  lemma AvoidsConcat(a: string, b: string, stop: set<char>)
    ensures Avoids(a + b, stop) <==> Avoids(a, stop) && Avoids(b, stop)
  {
    var s := a + b;
    assert forall i | 0 <= i < |a| :: s[i] == a[i];
    assert forall i | 0 <= i < |b| :: s[|a| + i] == b[i];
  }

  lemma AvoidsTail(s: string, n: nat)
    requires n <= |s| && Avoids(s, {'\n'})
    ensures Avoids(s[n..], {'\n'})
  {
  }

  lemma {:induction false} JoinAvoids(items: seq<string>, sep: char, stop: set<char>)
    requires sep !in stop && forall i | 0 <= i < |items| :: Avoids(items[i], stop)
    ensures Avoids(Join(items, sep), stop)
  {
    if |items| > 1 {
      JoinAvoids(items[1..], sep, stop);
      AvoidsConcat(items[0] + [sep], Join(items[1..], sep), stop);
      AvoidsConcat(items[0], [sep], stop);
    }
  }

  lemma DigitsAvoid(s: string, stop: set<char>)
    requires AllDigits(s) && forall c | c in stop :: !IsDigit(c)
    ensures Avoids(s, stop)
  {
  }

  // ---------- strip ----------

  function TrimLeft(s: string, blanks: set<char>): string {
    if s != "" && s[0] in blanks then TrimLeft(s[1..], blanks) else s
  }

  function TrimRight(s: string, blanks: set<char>): string {
    if s != "" && s[|s| - 1] in blanks then TrimRight(s[..|s| - 1], blanks) else s
  }

  /** s.strip(), where these characters are the blanks. */
  function Trim(s: string, blanks: set<char>): string { TrimRight(TrimLeft(s, blanks), blanks) }

  ghost predicate OnlyOf(s: string, chars: set<char>) { forall i | 0 <= i < |s| :: s[i] in chars }

  /** Neither end is a blank. */
  predicate Bare(s: string, blanks: set<char>) { s == "" || (s[0] !in blanks && s[|s| - 1] !in blanks) }

  lemma {:induction false} TrimLeftParts(s: string, blanks: set<char>) returns (a: string)
    ensures s == a + TrimLeft(s, blanks) && OnlyOf(a, blanks)
    ensures TrimLeft(s, blanks) == "" || TrimLeft(s, blanks)[0] !in blanks
  {
    if s != "" && s[0] in blanks {
      a := TrimLeftParts(s[1..], blanks);
      a := [s[0]] + a;
    } else {
      a := "";
    }
  }

  lemma {:induction false} TrimRightParts(s: string, blanks: set<char>) returns (b: string)
    ensures s == TrimRight(s, blanks) + b && OnlyOf(b, blanks)
    ensures TrimRight(s, blanks) == "" || TrimRight(s, blanks)[|TrimRight(s, blanks)| - 1] !in blanks
  {
    if s != "" && s[|s| - 1] in blanks {
      b := TrimRightParts(s[..|s| - 1], blanks);
      b := b + [s[|s| - 1]];
    } else {
      b := "";
    }
  }

  /** What is trimmed away is blank, and what is left has no blank at its ends. */
  lemma TrimParts(s: string, blanks: set<char>) returns (a: string, b: string)
    ensures s == a + Trim(s, blanks) + b && OnlyOf(a, blanks) && OnlyOf(b, blanks)
    ensures Bare(Trim(s, blanks), blanks)
  {
    hide TrimLeft, TrimRight;
    var u := TrimLeft(s, blanks);
    a := TrimLeftParts(s, blanks);
    b := TrimRightParts(u, blanks);
  }

  lemma {:induction false} TrimLeftOf(a: string, t: string, blanks: set<char>)
    requires OnlyOf(a, blanks) && (t == "" || t[0] !in blanks)
    ensures TrimLeft(a + t, blanks) == t
  {
    if a == "" {
      assert a + t == t;
    } else {
      assert (a + t)[1..] == a[1..] + t;
      TrimLeftOf(a[1..], t, blanks);
    }
  }

  lemma {:induction false} TrimRightOf(t: string, b: string, blanks: set<char>)
    requires OnlyOf(b, blanks) && (t == "" || t[|t| - 1] !in blanks)
    ensures TrimRight(t + b, blanks) == t
    decreases |b|
  {
    if b == "" {
      assert t + b == t;
    } else {
      assert (t + b)[..|t + b| - 1] == t + b[..|b| - 1];
      TrimRightOf(t, b[..|b| - 1], blanks);
    }
  }

  lemma {:induction false} TrimBlank(a: string, blanks: set<char>)
    requires OnlyOf(a, blanks)
    ensures Trim(a, blanks) == ""
  {
    assert a + "" == a;
    TrimLeftOf(a, "", blanks);
  }

  /** Only that text can be left. */
  lemma TrimOf(a: string, t: string, b: string, blanks: set<char>)
    requires OnlyOf(a, blanks) && OnlyOf(b, blanks) && Bare(t, blanks)
    ensures Trim(a + t + b, blanks) == t
  {
    if t == "" {
      assert a + t + b == a + b;
      TrimBlank(a + b, blanks);
    } else {
      assert a + t + b == a + (t + b);
      TrimLeftOf(a, t + b, blanks);
      TrimRightOf(t, b, blanks);
    }
  }
}
