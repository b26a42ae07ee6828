/** The card component of the older game tree (`Card.ts`): a suit, a rank
    and a face state that the two flip operations update. */
module OldCard {
  /** The component's suit type, the union 'spade' | 'heart' | 'club' | 'diamond'. */
  datatype Suit = Spade | Heart | Club | Diamond

  /** The two answers of `getColor`. */
  datatype Color = Red | Black

  const Suits: seq<Suit> := [Spade, Heart, Club, Diamond]

  /** The suit as the string the component stores. */
  function SuitName(s: Suit): string {
    match s
    case Spade => "spade"
    case Heart => "heart"
    case Club => "club"
    case Diamond => "diamond"
  }

  /** The string `getColor` returns for a colour. */
  function ColorName(c: Color): string {
    if c == Red then "red" else "black"
  }

  /** `getColor`: hearts and diamonds are red, every other suit black. */
  function ColorOf(suit: Suit): Color {
    if suit == Heart || suit == Diamond then Red else Black
  }

  /** Two colour strings differ exactly when the colours do, so the rules
      may compare colours instead of the strings `getColor` returns. */
  lemma ColorNameInjective(a: Color, b: Color)
    ensures ColorName(a) == ColorName(b) <==> a == b
  {
    assert ColorName(Red)[0] == 'r' && ColorName(Black)[0] == 'b';
  }

  /** The suit names are four different strings. */
  lemma SuitNameInjective(a: Suit, b: Suit)
    ensures SuitName(a) == SuitName(b) <==> a == b
  {
    if a != b {
      assert SuitName(a)[0] != SuitName(b)[0] || |SuitName(a)| != |SuitName(b)|;
    }
  }

  /** "red" for hearts and diamonds, "black" for spades and clubs. */
  lemma SuitColors(s: Suit)
    ensures ColorName(ColorOf(s)) == "red" <==> SuitName(s) == "heart" || SuitName(s) == "diamond"
    ensures ColorName(ColorOf(s)) == "black" <==> SuitName(s) == "spade" || SuitName(s) == "club"
  {
    ColorNameInjective(ColorOf(s), Red);
    ColorNameInjective(ColorOf(s), Black);
    SuitNameInjective(s, Heart);
    SuitNameInjective(s, Diamond);
    SuitNameInjective(s, Spade);
    SuitNameInjective(s, Club);
  }

  class Card {
    const suit: Suit
    const rank: int
    var isFaceUp: bool

    /** Instantiation followed by `init(suit, rank)`: the field initialiser
        makes every new card face-down; the sprites it loads are not modelled. */
    constructor Init(suit: Suit, rank: int)
      ensures this.suit == suit && this.rank == rank
      ensures !isFaceUp
    {
      this.suit := suit;
      this.rank := rank;
      isFaceUp := false;
    }

    /** `getColor`: "red" exactly for hearts and diamonds, "black" otherwise. */
    function GetColor(): (color: string)
      ensures color == "red" || color == "black"
      ensures color == "red" <==> suit == Heart || suit == Diamond
    {
      ColorNameInjective(ColorOf(suit), Red);
      ColorName(ColorOf(suit))
    }

    /** Turns the card face-up; on a face-up card it does nothing. */
    method FlipFaceUp()
      modifies this
      ensures isFaceUp
      ensures old(isFaceUp) ==> unchanged(this)
    {
      if isFaceUp {
        return;
      }
      isFaceUp := true;
    }

    /** Turns the card face-down; on a face-down card it does nothing. */
    method FlipFaceDown()
      modifies this
      ensures !isFaceUp
      ensures !old(isFaceUp) ==> unchanged(this)
    {
      if !isFaceUp {
        return;
      }
      isFaceUp := false;
    }
  }
}
