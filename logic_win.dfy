/** The win check of the newer game tree (`logic/WinChecker.ts`): once the
    foundations hold 52 cards the checker locks, and it stays locked until
    it is reset. */
module LogicWin {
  import opened Tables
  import opened LogicPile
  import opened LogicPlay

  /** The number of cards the piles hold together, summed pile by pile. */
  function CardCount(ps: seq<Pile>): nat
    reads ps
  {
    if ps == [] then 0 else CardCount(ps[..|ps| - 1]) + |ps[|ps| - 1].cards|
  }

  /** Counting pile by pile gives the size of the table's multiset of cards. */
  lemma {:induction false} CardCountTotal(ps: seq<Pile>)
    ensures CardCount(ps) == |Total(Contents(ps))|
  {
    if ps != [] {
      var n := |ps| - 1;
      CardCountTotal(ps[..n]);
      assert Contents(ps)[..n] == Contents(ps[..n]);
    }
  }

  lemma {:induction false} CardCountConcat(a: seq<Pile>, b: seq<Pile>)
    ensures CardCount(a + b) == CardCount(a) + CardCount(b)
  {
    if b != [] {
      var n := |b| - 1;
      assert (a + b)[..|a + b| - 1] == a + b[..n];
      CardCountConcat(a, b[..n]);
    } else {
      assert a + b == a;
    }
  }

  /** No cards in the piles together means no cards in any of them. */
  lemma {:induction false} CardCountZero(ps: seq<Pile>)
    requires CardCount(ps) == 0
    ensures forall k :: 0 <= k < |ps| ==> ps[k].cards == []
  {
    if ps != [] {
      CardCountZero(ps[..|ps| - 1]);
      assert forall k :: 0 <= k < |ps| - 1 ==> ps[k] == ps[..|ps| - 1][k];
    }
  }

  class WinChecker {
    var playing: UIPlay?
    var locked: bool

    /** A new checker is unlocked and bound to no game yet. */
    constructor ()
      ensures playing == null && !locked
    {
      playing := null;
      locked := false;
    }

    /** `init`, called from `UIPlay.start`: binds the game. */
    method Init(game: UIPlay)
      modifies this
      ensures playing == game && locked == old(locked)
    {
      playing := game;
    }

    /** The counting loop of `checkWin` over the foundation piles. */
    method CountFoundationCards() returns (count: nat)
      requires playing != null
      ensures count == CardCount(playing.foundation)
    {
      var fs := playing.foundation;
      count := 0;
      for i := 0 to |fs|
        invariant count == CardCount(fs[..i])
      {
        assert fs[..i + 1][..i] == fs[..i];
        count := count + |fs[i].cards|;
      }
      assert fs[..|fs|] == fs;
    }

    /** `checkWin`: nothing once locked; otherwise it locks exactly when
        the foundations hold 52 cards. Only the checker itself changes. */
    method CheckWin()
      requires playing != null
      modifies this
      ensures playing == old(playing)
      ensures locked <==> old(locked) || CardCount(playing.foundation) == 52
    {
      if locked {
        return;
      }
      var count := CountFoundationCards();
      if count == 52 {
        locked := true;
      }
    }

    /** `reset`, when a game restarts. */
    method Reset()
      modifies this
      ensures !locked && playing == old(playing)
    {
      locked := false;
    }
  }

  /** A full-deck table whose foundations hold 52 cards has nothing left
      anywhere else: the check locks only on a finished game. */
  lemma WonTable(game: UIPlay)
    requires game.Valid() && |game.Deck()| == 52 && CardCount(game.foundation) == 52
    ensures forall t :: 0 <= t < 7 ==> game.tableau[t].cards == []
    ensures game.stock.cards == [] && game.waste.cards == []
  {
    CardCountTotal(game.Piles());
    CardCountConcat(game.tableau, game.foundation);
    CardCountConcat(game.tableau + game.foundation, [game.stock, game.waste]);
    CardCountZero(game.tableau);
    CardCountZero([game.stock, game.waste]);
    assert [game.stock, game.waste][0] == game.stock;
  }
}
