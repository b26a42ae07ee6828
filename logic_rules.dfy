/** The two placement rules of the newer game tree
    (`canPlaceToTableau`, `canPlaceToFoundation` in `logic/UIPlay.ts`). */
module LogicRules {
  import opened LogicCard
  import opened LogicPile
  import opened CardRank

  /** A tableau pile takes a King when empty, otherwise a card of the other
      colour exactly one rank below its top card. */
  function CanPlaceToTableau(card: Card, pile: Pile): (ok: bool)
    reads pile
    ensures pile.cards == [] ==> (ok <==> card.rank == King)
    ensures pile.cards != [] ==> (ok <==> TableauRun([pile.cards[|pile.cards| - 1], card]))
  {
    TableauPair(card, pile.cards);
    TableauAccepts(card, pile.cards)
  }

  /** The tableau rule on the cards of a pile, bottom first. Two colours
      differ exactly when one of the two suits is red (`ColorsDiffer`). */
  function TableauAccepts(card: Card, row: seq<Card>): bool {
    if row == [] then card.rank == King
    else
      var last := row[|row| - 1];
      IsRed(last.suit) != IsRed(card.suit) && last.rank == card.rank + 1
  }

  /** `getColor` of two suits differs exactly when one of them is red. */
  lemma ColorsDiffer(a: string, b: string)
    ensures ColorOf(a) != ColorOf(b) <==> IsRed(a) != IsRed(b)
  {
  }

  /** A foundation takes an Ace when empty, otherwise the card of the same
      suit exactly one rank above its top card. On a foundation built by the
      rules that is the next rank of its suit. */
  function CanPlaceToFoundation(card: Card, pile: Pile): (ok: bool)
    reads pile
    ensures pile.cards == [] ==> (ok <==> card.rank == Ace)
    ensures FoundationRun(pile.cards) ==>
      (ok <==> card.rank == |pile.cards| + 1 && (pile.cards == [] || card.suit == pile.cards[0].suit))
  {
    FoundationNext(card, pile.cards);
    FoundationAccepts(card, pile.cards)
  }

  /** On a rule-built foundation the rule asks for the next rank of its suit. */
  lemma FoundationNext(card: Card, s: seq<Card>)
    ensures FoundationRun(s) ==>
      (FoundationAccepts(card, s) <==> card.rank == |s| + 1 && (s == [] || card.suit == s[0].suit))
  {
    if FoundationRun(s) && s != [] {
      assert s[|s| - 1].rank == |s| && s[|s| - 1].suit == s[0].suit;
    }
  }

  /** The foundation rule on the cards of a pile, bottom first. */
  function FoundationAccepts(card: Card, row: seq<Card>): bool {
    if row == [] then card.rank == Ace
    else
      var last := row[|row| - 1];
      last.suit == card.suit && last.rank + 1 == card.rank
  }

  /** Each card is one rank below, and of the other colour than, the card it covers. */
  predicate TableauRun(s: seq<Card>) {
    forall k :: 0 < k < |s| ==> ColorOf(s[k - 1].suit) != ColorOf(s[k].suit) && s[k - 1].rank == s[k].rank + 1
  }

  /** A foundation built by the rules: one suit, ranks 1, 2, 3, ... from the bottom. */
  predicate FoundationRun(s: seq<Card>) {
    forall k :: 0 <= k < |s| ==> s[k].rank == k + 1 && s[k].suit == s[0].suit
  }

  /** On a non-empty pile the rule asks that the top card and the new one form a run. */
  lemma TableauPair(card: Card, row: seq<Card>)
    ensures row != [] ==> (TableauAccepts(card, row) <==> TableauRun([row[|row| - 1], card]))
  {
    if row != [] {
      var t := [row[|row| - 1], card];
      assert t[0] == row[|row| - 1] && t[1] == card;
    }
  }

  /** A tableau pile accepts a card exactly when the card extends the run
      at the top of the pile, a run that must open with a King on an empty pile. */
  lemma TableauPlacement(card: Card, pile: Pile, k: nat)
    requires k <= |pile.cards| && TableauRun(pile.cards[k..])
    ensures k < |pile.cards| ==> (CanPlaceToTableau(card, pile) <==> TableauRun(pile.cards[k..] + [card]))
    ensures pile.cards == [] ==> (CanPlaceToTableau(card, pile) <==> card.rank == King)
  {
    var s := pile.cards[k..];
    if k < |pile.cards| {
      var t := s + [card];
      if CanPlaceToTableau(card, pile) {
        forall m | 0 < m < |t|
          ensures ColorOf(t[m - 1].suit) != ColorOf(t[m].suit) && t[m - 1].rank == t[m].rank + 1
        {
          if m < |s| {
            assert t[m - 1] == s[m - 1] && t[m] == s[m];
          }
        }
      }
      if TableauRun(t) {
        assert t[|s| - 1] == pile.cards[|pile.cards| - 1] && t[|s|] == card;
      }
    }
  }

  /** A foundation built by the rules accepts a card exactly when the card
      keeps it a rule-built foundation. */
  lemma FoundationPlacement(card: Card, pile: Pile)
    requires FoundationRun(pile.cards)
    ensures CanPlaceToFoundation(card, pile) <==> FoundationRun(pile.cards + [card])
  {
    var s := pile.cards;
    var t := s + [card];
    if CanPlaceToFoundation(card, pile) {
      forall m | 0 <= m < |t|
        ensures t[m].rank == m + 1 && t[m].suit == t[0].suit
      {
        if m < |s| {
          assert t[m] == s[m];
        }
      }
    }
    if FoundationRun(t) && s != [] {
      assert t[|s| - 1] == s[|s| - 1] && t[|s|] == card;
    }
  }
}
