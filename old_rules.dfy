/** The two placement rules of the older game tree (`canPlaceToTableau`,
    `canPlaceToFoundation` in `UIPlay.ts`). */
module OldRules {
  import opened OldCard
  import opened OldPile
  import opened CardRank

  /** A tableau pile takes a King when empty, otherwise a card of the other
      colour exactly one rank below its top card. */
  function CanPlaceToTableau(card: Card, pile: Pile): (ok: bool)
    reads pile
    ensures pile.cards == [] ==> (ok <==> card.rank == King)
    ensures pile.cards != [] ==> (ok <==> TableauRun([pile.cards[|pile.cards| - 1], card]))
  {
    TableauPair(card, pile.cards);
    TableauAccepts(card, pile.cards)
  }

  /** The tableau rule on the cards of a pile, bottom first. The two
      `getColor` strings differ exactly when the colours do
      (`TableauAcceptsColorNames`). */
  function TableauAccepts(card: Card, row: seq<Card>): bool {
    if row == [] then card.rank == King
    else
      var last := row[|row| - 1];
      ColorOf(last.suit) != ColorOf(card.suit) && last.rank == card.rank + 1
  }

  /** The rule as `canPlaceToTableau` writes it, on the strings `getColor` returns. */
  lemma TableauAcceptsColorNames(card: Card, row: seq<Card>)
    requires row != []
    ensures TableauAccepts(card, row) <==>
      row[|row| - 1].GetColor() != card.GetColor() && row[|row| - 1].rank == card.rank + 1
  {
    ColorNameInjective(ColorOf(row[|row| - 1].suit), ColorOf(card.suit));
  }

  /** A foundation takes an Ace when empty, otherwise the card of the same
      suit exactly one rank above its top card. On a foundation built by the
      rules that is the next rank of its suit. */
  function CanPlaceToFoundation(card: Card, pile: Pile): (ok: bool)
    reads pile
    ensures pile.cards == [] ==> (ok <==> card.rank == Ace)
    ensures FoundationRun(pile.cards) ==>
      (ok <==> card.rank == |pile.cards| + 1 && (pile.cards == [] || card.suit == pile.cards[0].suit))
  {
    FoundationNext(card, pile.cards);
    FoundationAccepts(card, pile.cards)
  }

  /** On a rule-built foundation the rule asks for the next rank of its suit. */
  lemma FoundationNext(card: Card, s: seq<Card>)
    ensures FoundationRun(s) ==>
      (FoundationAccepts(card, s) <==> card.rank == |s| + 1 && (s == [] || card.suit == s[0].suit))
  {
    if FoundationRun(s) && s != [] {
      assert s[|s| - 1].rank == |s| && s[|s| - 1].suit == s[0].suit;
    }
  }

  /** The foundation rule on the cards of a pile, bottom first. */
  function FoundationAccepts(card: Card, row: seq<Card>): bool {
    if row == [] then card.rank == Ace
    else
      var last := row[|row| - 1];
      last.suit == card.suit && last.rank + 1 == card.rank
  }

  /** Each card is one rank below, and of the other colour than, the card it covers. */
  predicate TableauRun(s: seq<Card>) {
    forall k :: 0 < k < |s| ==> ColorOf(s[k - 1].suit) != ColorOf(s[k].suit) && s[k - 1].rank == s[k].rank + 1
  }

  /** A foundation built by the rules: one suit, ranks 1, 2, 3, ... from the bottom. */
  predicate FoundationRun(s: seq<Card>) {
    forall k :: 0 <= k < |s| ==> s[k].rank == k + 1 && s[k].suit == s[0].suit
  }

  /** On a non-empty pile the rule asks that the top card and the new one form a run. */
  lemma TableauPair(card: Card, row: seq<Card>)
    ensures row != [] ==> (TableauAccepts(card, row) <==> TableauRun([row[|row| - 1], card]))
  {
    if row != [] {
      var t := [row[|row| - 1], card];
      assert t[0] == row[|row| - 1] && t[1] == card;
    }
  }

  /** A tableau pile accepts a card exactly when the card extends the run
      at the top of the pile; an empty pile takes only a King. */
  lemma TableauPlacement(card: Card, pile: Pile, k: nat)
    requires k <= |pile.cards| && TableauRun(pile.cards[k..])
    ensures k < |pile.cards| ==> (CanPlaceToTableau(card, pile) <==> TableauRun(pile.cards[k..] + [card]))
    ensures pile.cards == [] ==> (CanPlaceToTableau(card, pile) <==> card.rank == King)
  {
    var s := pile.cards[k..];
    if k < |pile.cards| {
      var t := s + [card];
      if CanPlaceToTableau(card, pile) {
        forall m | 0 < m < |t|
          ensures ColorOf(t[m - 1].suit) != ColorOf(t[m].suit) && t[m - 1].rank == t[m].rank + 1
        {
          if m < |s| {
            assert t[m - 1] == s[m - 1] && t[m] == s[m];
          }
        }
      }
      if TableauRun(t) {
        assert t[|s| - 1] == pile.cards[|pile.cards| - 1] && t[|s|] == card;
      }
    }
  }

  /** A foundation built by the rules accepts a card exactly when the card
      keeps it a rule-built foundation. */
  lemma FoundationPlacement(card: Card, pile: Pile)
    requires FoundationRun(pile.cards)
    ensures CanPlaceToFoundation(card, pile) <==> FoundationRun(pile.cards + [card])
  {
    var s := pile.cards;
    var t := s + [card];
    assert t[|s|] == card;
    if CanPlaceToFoundation(card, pile) {
      if s != [] {
        assert t[0] == s[0] && card.rank == |s| + 1 && card.suit == s[0].suit;
      }
      forall m | 0 <= m < |t|
        ensures t[m].rank == m + 1 && t[m].suit == t[0].suit
      {
        if m < |s| {
          assert t[m] == s[m];
        }
      }
    }
    if FoundationRun(t) && s != [] {
      assert t[|s| - 1] == s[|s| - 1];
      assert s[|s| - 1].rank == |s| && s[|s| - 1].suit == t[0].suit;
    }
  }
}
