/** Both expanders return what a well-formed expression denotes, and so they agree. */
module HostAgreement {
  import opened Text
  import opened Wrappers
  import opened HostSyntax
  import opened HostGrammar
  import L = LegacyExpand
  import opened ModernMeaning
  import M = ModernExpand

  // ---------- the legacy expander ----------

  ghost predicate ItemFits(item: Item, cap: nat) {
    item.Run? && WellFormedItem(item) ==> Value(item.high) - Value(item.low) <= L.MAX_SIZE && Value(item.high) < cap
  }

  /** Every range, and every product from the right, is within the limits of the legacy expander. */
  ghost predicate Fits(t: Token, cap: nat)
    requires WellFormed(t)
  {
    t.Group? ==>
      && t.items != []
      && (forall i | 0 <= i < |t.items| :: ItemFits(t.items[i], cap))
      && Fits(t.rest, cap)
      && |ItemsNumbers(t.items)| * |Denote(t.rest)| <= L.MAX_SIZE
  }

  lemma LegacyItem(item: Item, cap: nat)
    requires WellFormedItem(item) && ItemFits(item, cap)
    ensures L.RangeOf("", RenderItem(item), cap) == Ok(ItemNumbers(item))
  {
    hide Pad, Padded, Value;
    match item {
      case One(digits) =>
        assert IsDigit(digits[|digits| - 1]);
        assert "" + digits == digits;
      case Run(low, high) =>
        L.DashedPair(low, high);
        var a, b := L.Numbered("", |low|, Value(low), Value(high)), ItemNumbers(item);
        assert forall i | 0 <= i < |a| :: a[i] == b[i] by {
          forall i | 0 <= i < |a| ensures a[i] == b[i] {
            assert "" + Pad(|low|, Value(low) + i) == Pad(|low|, Value(low) + i);
          }
        }
        assert a == b;
    }
  }

  lemma {:induction false} LegacyItems(items: seq<Item>, cap: nat)
    requires forall i | 0 <= i < |items| :: WellFormedItem(items[i]) && ItemFits(items[i], cap)
    ensures L.RangelistOf("", RenderItems(items), cap) == Ok(ItemsNumbers(items))
  {
    hide L.RangeOf, RenderItem, ItemNumbers, WellFormedItem, ItemFits;
    if items != [] {
      LegacyItem(items[0], cap);
      LegacyItems(items[1..], cap);
      assert RenderItems(items)[1..] == RenderItems(items[1..]);
    }
  }

  /** The recursion over the rest of a part computes the denotation. */
  lemma {:induction false} LegacyToken(t: Token, cap: nat)
    requires WellFormed(t) && Fits(t, cap)
    ensures L.ExpandPart(Render(t), cap) == Ok(Denote(t))
  {
    match t {
      case Plain(text) =>
        if text != "" { L.PlainPart(text, cap); }
      case Group(text, items, rest) =>
        LegacyToken(rest, cap);
        RenderClosed(rest);
        LegacyItems(items, cap);
        ItemsAvoid(items, SPECIAL);
        var ranges := RenderItems(items);
        L.PartGroup(ranges, Render(rest), ItemsNumbers(items), Denote(rest), cap);
        var tail := "[" + Join(ranges, ',') + "]" + Render(rest);
        TailAvoids(items, rest);
        L.PartPrepend(text, tail, cap);
    }
  }

  lemma TailAvoids(items: seq<Item>, rest: Token)
    requires WellFormed(rest) && forall i | 0 <= i < |items| :: WellFormedItem(items[i])
    ensures Avoids("[" + Join(RenderItems(items), ',') + "]" + Render(rest), {'\n'})
  {
    RenderClosed(rest);
    ItemsAvoid(items, {'[', ']', '\n'});
    JoinAvoids(RenderItems(items), ',', {'[', ']', '\n'});
    GroupClosed(Join(RenderItems(items), ','), Render(rest));
  }

  // ---------- whole expressions ----------

  lemma RenderedParts(tokens: seq<Token>)
    requires WellFormedSpec(tokens)
    ensures forall i | 0 <= i < |tokens| :: RenderAll(tokens)[i] != "" && Closed(RenderAll(tokens)[i], 0)
  {
    hide Render, Closed, WellFormed;
    forall i | 0 <= i < |tokens| ensures Render(tokens[i]) != "" && Closed(Render(tokens[i]), 0) {
      RenderClosed(tokens[i]);
    }
  }

  lemma {:induction false} LegacyParts(tokens: seq<Token>, cap: nat)
    requires WellFormedSpec(tokens) && forall i | 0 <= i < |tokens| :: Fits(tokens[i], cap)
    ensures L.PartsOf(RenderAll(tokens), cap) == Ok(DenoteSpec(tokens))
    ensures forall i | 0 <= i < |tokens| :: RenderAll(tokens)[i] != "" && Closed(RenderAll(tokens)[i], 0)
  {
    hide L.ExpandPart, Render, Denote, WellFormed, Fits, Closed;
    RenderedParts(tokens);
    if tokens != [] {
      LegacyToken(tokens[0], cap);
      LegacyParts(tokens[1..], cap);
      assert RenderAll(tokens)[1..] == RenderAll(tokens[1..]);
    }
  }

  /** On every well-formed expression within the legacy limits both expanders return the same ordered list. */
  lemma ExpandersAgree(tokens: seq<Token>, cap: nat)
    requires WellFormedSpec(tokens) && forall i | 0 <= i < |tokens| :: Fits(tokens[i], cap)
    ensures L.HostlistOf(RenderSpec(tokens), true, cap) == Ok(DenoteSpec(tokens))
    ensures M.ExpansionOf(RenderSpec(tokens)) == Ok(DenoteSpec(tokens))
  {
    LegacyParts(tokens, cap);
    L.HostlistOfParts(RenderAll(tokens), cap);
    ModernSpec(tokens);
  }
}
