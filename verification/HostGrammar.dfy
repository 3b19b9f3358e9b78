/** The well-formed expressions that both implementations read, as trees, and what they denote. */
module HostGrammar {
  import opened Text
  import opened HostSyntax

  datatype Item = One(digits: string) | Run(low: string, high: string)

  /** Text, or text followed by a bracket group and another token. */
  datatype Token = Plain(text: string) | Group(text: string, items: seq<Item>, rest: Token)

  ghost predicate WellFormedItem(item: Item) {
    match item
    case One(digits) => IsNumeral(digits)
    case Run(low, high) => IsNumeral(low) && IsNumeral(high) && Value(low) <= Value(high)
  }

  ghost predicate WellFormed(t: Token) {
    && Avoids(t.text, SPECIAL)
    && (t.Group? ==> WellFormed(t.rest) && forall i | 0 <= i < |t.items| :: WellFormedItem(t.items[i]))
  }

  function RenderItem(item: Item): string {
    match item
    case One(digits) => digits
    case Run(low, high) => low + "-" + high
  }

  function RenderItems(items: seq<Item>): (r: seq<string>)
    ensures |r| == |items| && forall i | 0 <= i < |r| :: r[i] == RenderItem(items[i])
  {
    seq(|items|, i requires 0 <= i < |items| => RenderItem(items[i]))
  }

  function Render(t: Token): string {
    match t
    case Plain(text) => text
    case Group(text, items, rest) => text + ("[" + Join(RenderItems(items), ',') + "]" + Render(rest))
  }

  function ItemNumbers(item: Item): seq<string>
    requires WellFormedItem(item)
  {
    match item
    case One(digits) => [digits]
    case Run(low, high) => Padded(|low|, Value(low), Value(high))
  }

  function ItemsNumbers(items: seq<Item>): seq<string>
    requires forall i | 0 <= i < |items| :: WellFormedItem(items[i])
  {
    if items == [] then [] else ItemNumbers(items[0]) + ItemsNumbers(items[1..])
  }

  /** The hosts of a token: its groups' numbers in every combination, the last group running fastest. */
  function Denote(t: Token): seq<string>
    requires WellFormed(t)
  {
    match t
    case Plain(text) => [text]
    case Group(text, items, rest) => Prepend(text, Cross(ItemsNumbers(items), Denote(rest)))
  }

  function RenderAll(tokens: seq<Token>): (r: seq<string>)
    ensures |r| == |tokens| && forall i | 0 <= i < |r| :: r[i] == Render(tokens[i])
  {
    seq(|tokens|, i requires 0 <= i < |tokens| => Render(tokens[i]))
  }

  function RenderSpec(tokens: seq<Token>): string { Join(RenderAll(tokens), ',') }

  function DenoteSpec(tokens: seq<Token>): seq<string>
    requires forall i | 0 <= i < |tokens| :: WellFormed(tokens[i])
  {
    if tokens == [] then [] else Denote(tokens[0]) + DenoteSpec(tokens[1..])
  }

  // ---------- what the renderings look like ----------

  lemma ItemAvoids(item: Item, stop: set<char>)
    requires WellFormedItem(item) && forall c | c in stop :: !IsDigit(c) && c != '-'
    ensures Avoids(RenderItem(item), stop) && RenderItem(item) != ""
  {
    if item.Run? {
      AvoidsConcat(item.low, "-", stop);
      AvoidsConcat(item.low + "-", item.high, stop);
    }
  }

  lemma ItemsAvoid(items: seq<Item>, stop: set<char>)
    requires (forall i | 0 <= i < |items| :: WellFormedItem(items[i])) && forall c | c in stop :: !IsDigit(c) && c != '-'
    ensures forall i | 0 <= i < |items| :: Avoids(RenderItems(items)[i], stop)
  {
    forall i | 0 <= i < |items| ensures Avoids(RenderItems(items)[i], stop) { ItemAvoids(items[i], stop); }
  }

  lemma {:induction false} RenderClosed(t: Token)
    requires WellFormed(t)
    ensures Closed(Render(t), 0) && Avoids(Render(t), {'\n'})
  {
    match t {
      case Plain(text) =>
        assert text + "" == text;
        ClosedText(text, "", 0);
      case Group(text, items, rest) =>
        RenderClosed(rest);
        ItemsAvoid(items, {'[', ']', '\n'});
        JoinAvoids(RenderItems(items), ',', {'[', ']', '\n'});
        var list := Join(RenderItems(items), ',');
        GroupClosed(list, Render(rest));
        ClosedText(text, "[" + list + "]" + Render(rest), 0);
        AvoidsConcat(text, "[" + list + "]" + Render(rest), {'\n'});
    }
  }
}
