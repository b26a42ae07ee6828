/** The pile component of the newer game tree (`logic/Pile.ts`). The
    children of the pile's scene node are its `cards`, bottom first. */
module LogicPile {
  import opened Wrappers
  import opened Seqs
  import opened LogicCard
  import opened Siblings

  class Pile {
    var cards: seq<Card>
    var isFoundation: bool
    var isTableau: bool
    var isStock: bool
    var isWaste: bool

    /** A pile component added to a node that has no children yet. */
    constructor ()
      ensures cards == []
      ensures !isFoundation && !isTableau && !isStock && !isWaste
    {
      cards := [];
      isFoundation := false;
      isTableau := false;
      isStock := false;
      isWaste := false;
    }

    /** The last child, or nothing for an empty pile. */
    function GetTopCard(): (top: Option<Card>)
      reads this
      ensures top.None? <==> cards == []
      ensures top.Some? ==> top.value == cards[|cards| - 1]
    {
      if |cards| > 0 then Some(cards[|cards| - 1]) else None
    }

    /** `card.setParent(this.node)`, where `prev` is the card's current pile
        (null for a card that has no parent yet). Reparenting removes the
        card from its old pile and appends it here; making a card a child of
        the pile it is already in changes nothing. */
    method AddCard(card: Card, prev: Pile?)
      requires prev != null ==> card in prev.cards
      requires prev == null ==> card !in cards
      modifies this, prev
      ensures prev == this ==> cards == old(cards)
      ensures prev != this ==> cards == old(cards) + [card]
      ensures prev != null && prev != this ==> prev.cards == Remove(old(prev.cards), card)
      ensures isFoundation == old(isFoundation) && isTableau == old(isTableau)
      ensures isStock == old(isStock) && isWaste == old(isWaste)
      ensures prev != null ==> prev.isFoundation == old(prev.isFoundation) && prev.isTableau == old(prev.isTableau)
      ensures prev != null ==> prev.isStock == old(prev.isStock) && prev.isWaste == old(prev.isWaste)
    {
      if prev == this {
        return;
      }
      if prev != null {
        prev.cards := Remove(prev.cards, card);
      }
      cards := cards + [card];
    }

    /** `node.setSiblingIndex(index)` on a card that is a child of this pile. */
    method SetSiblingIndexOf(card: Card, index: nat)
      requires card in cards
      modifies this
      ensures cards == SetSiblingIndex(old(cards), card, index)
      ensures isFoundation == old(isFoundation) && isTableau == old(isTableau)
      ensures isStock == old(isStock) && isWaste == old(isWaste)
    {
      cards := SetSiblingIndex(cards, card, index);
    }
  }

  /** The cards of each pile, in the order of the piles. */
  ghost function Contents(ps: seq<Pile>): (r: seq<seq<Card>>)
    reads ps
    ensures |r| == |ps|
    ensures forall i :: 0 <= i < |ps| ==> r[i] == ps[i].cards
  {
    seq(|ps|, i reads ps requires 0 <= i < |ps| => ps[i].cards)
  }
}
