/** The pile component of the older game tree (`Pile.ts`). The children of
    the pile's scene node are its `cards`, bottom first. */
module OldPile {
  import opened Wrappers
  import opened Seqs
  import opened OldCard

  class Pile {
    var cards: seq<Card>

    /** A pile component added to a node that has no children yet. */
    constructor ()
      ensures cards == []
    {
      cards := [];
    }

    /** The last child, or nothing (null) for an empty pile. */
    function GetTopCard(): (top: Option<Card>)
      reads this
      ensures top.None? <==> cards == []
      ensures top.Some? ==> top.value == cards[|cards| - 1]
    {
      if |cards| > 0 then Some(cards[|cards| - 1]) else None
    }

    /** `card.setParent(this.node)`, where `prev` is the card's current pile
        (null for a card that has no parent yet): the card leaves its old
        pile and becomes the top of this one; a card already here stays
        where it is. */
    method AddCard(card: Card, prev: Pile?)
      requires prev != null ==> card in prev.cards
      requires prev == null ==> card !in cards
      modifies this, prev
      ensures prev == this ==> cards == old(cards)
      ensures prev != this ==> cards == old(cards) + [card]
      ensures prev != null && prev != this ==> prev.cards == Remove(old(prev.cards), card)
    {
      if prev == this {
        return;
      }
      if prev != null {
        prev.cards := Remove(prev.cards, card);
      }
      cards := cards + [card];
    }
  }

  /** The cards of each pile, in the order of the piles. */
  ghost function Contents(ps: seq<Pile>): (r: seq<seq<Card>>)
    reads ps
    ensures |r| == |ps|
    ensures forall i :: 0 <= i < |ps| ==> r[i] == ps[i].cards
  {
    seq(|ps|, i reads ps requires 0 <= i < |ps| => ps[i].cards)
  }
}
