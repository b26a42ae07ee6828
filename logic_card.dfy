/** The card component of the newer game tree (`logic/Card.ts`): a suit code,
    a rank and a face state that the two flip operations update. */
module LogicCard {
  /** The suit codes in deck order: hearts, diamonds, spades, clubs. */
  const Suits: seq<string> := ["hx", "fk", "ht", "mh"]

  const Red := "red"
  const Black := "bla"

  /** `_.includes(xs, x)`: x occurs in xs, found by a scan from the front. */
  predicate Includes(xs: seq<string>, x: string) {
    xs != [] && (xs[0] == x || Includes(xs[1..], x))
  }

  lemma {:induction false} IncludesIn(xs: seq<string>, x: string)
    ensures Includes(xs, x) <==> x in xs
  {
    if xs != [] {
      IncludesIn(xs[1..], x);
      assert xs == [xs[0]] + xs[1..];
    }
  }

  /** Hearts and diamonds: the suits `getColor` calls red. */
  predicate IsRed(suit: string) {
    Includes(["hx", "fk"], suit)
  }

  function ColorOf(suit: string): (color: string)
    ensures color == Red || color == Black
  {
    if IsRed(suit) then Red else Black
  }

  /** `getColor`: hearts and diamonds are red, everything else black. */
  lemma ColorOfRed(suit: string)
    ensures ColorOf(suit) == Red <==> suit == "hx" || suit == "fk"
  {
    IncludesIn(["hx", "fk"], suit);
  }

  /** The two first suits are red, the two last black, so two cards of
      different colours never share a suit. */
  lemma SuitColors()
    ensures ColorOf(Suits[0]) == Red && ColorOf(Suits[1]) == Red
    ensures ColorOf(Suits[2]) == Black && ColorOf(Suits[3]) == Black
    ensures forall s1, s2 :: ColorOf(s1) != ColorOf(s2) ==> s1 != s2
  {
  }

  class Card {
    const suit: string
    const rank: int
    var isFaceUp: bool

    /** Instantiation followed by `init(suit, rank)`: the field initialiser
        makes every new card face-down. */
    constructor Init(suit: string, rank: int)
      ensures this.suit == suit && this.rank == rank
      ensures !isFaceUp
    {
      this.suit := suit;
      this.rank := rank;
      isFaceUp := false;
    }

    /** `getColor`: "red" exactly for hearts and diamonds, "bla" otherwise. */
    function GetColor(): (color: string)
      ensures color == Red || color == Black
      ensures color == Red <==> suit == "hx" || suit == "fk"
    {
      ColorOfRed(suit);
      ColorOf(suit)
    }

    /** Turns the card face-up; on a face-up card it does nothing. */
    method FlipFaceUp()
      modifies this
      ensures isFaceUp
      ensures old(isFaceUp) ==> unchanged(this)
    {
      if isFaceUp {
        return;
      }
      isFaceUp := true;
    }

    /** Turns the card face-down; on a face-down card it does nothing. */
    method FlipFaceDown()
      modifies this
      ensures !isFaceUp
      ensures !old(isFaceUp) ==> unchanged(this)
    {
      if !isFaceUp {
        return;
      }
      isFaceUp := false;
    }
  }

  /** The pairs a sequence of cards shows; suit and rank never change, so
      this reads nothing. */
  function Ids(cards: seq<Card>): (ids: seq<(string, int)>)
    ensures |ids| == |cards|
    ensures forall i :: 0 <= i < |cards| ==> ids[i] == (cards[i].suit, cards[i].rank)
  {
    if cards == [] then [] else Ids(cards[..|cards| - 1]) + [(cards[|cards| - 1].suit, cards[|cards| - 1].rank)]
  }
}
