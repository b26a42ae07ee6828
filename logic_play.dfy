/** The game controller of the newer tree (`logic/UIPlay.ts`): seven
    tableau piles, four foundations, the stock and the waste, the undo
    manager and the score and move counters. Every card move is one atomic
    step: the tween that precedes a reparenting is not modelled. */
module LogicPlay {
  import opened Wrappers
  import opened Seqs
  import opened Tables
  import opened LogicCard
  import opened LogicPile
  import opened LogicUndo
  import opened LogicRules
  import opened LogicFactory
  import opened Deal
  import opened Siblings

  /** The undo entries `tryFlipLastCard` adds for the card it turned, if any. */
  function FlipEntries(pile: Pile, flipped: Option<Card>): seq<UndoMove> {
    if flipped.None? then [] else [UndoMove([flipped.value], pile, pile, Some(FlipRecord(flipped.value, false)))]
  }

  /** The pile nodes the scene provides: n new, empty piles. */
  method NewPiles(n: nat) returns (ps: seq<Pile>)
    ensures |ps| == n && NoDup(ps) && fresh(ps)
    ensures forall q :: q in ps ==> q.cards == []
  {
    ps := [];
    for i := 0 to n
      invariant |ps| == i && NoDup(ps) && fresh(ps) && forall q :: q in ps ==> q.cards == []
    {
      var p := new Pile();
      ps := ps + [p];
    }
  }

  /** The last card of a pile, the only one `tryFlipLastCard` may turn. */
  function Top(s: seq<Card>): set<Card> {
    if s == [] then {} else {s[|s| - 1]}
  }

  class UIPlay {
    const tableau: seq<Pile>
    const foundation: seq<Pile>
    const stock: Pile
    const waste: Pile
    var undoManager: UndoManager
    var score: int
    var moves: int

    /** Inspector defaults of the two layout properties. */
    const tableauOffset := 35
    const maxTableauVisibleHeight := 600

    /** Every pile, in the order `restartGame` lists them. */
    function Piles(): seq<Pile> {
      tableau + foundation + [stock, waste]
    }

    /** The position of a pile in `Piles()`. */
    ghost function Index(p: Pile): (i: nat)
      requires p in Piles()
      ensures i < |Piles()| && Piles()[i] == p
    {
      var i :| 0 <= i < |Piles()| && Piles()[i] == p; i
    }

    ghost function Layout(): seq<seq<Card>>
      reads Piles()
    {
      Contents(Piles())
    }

    /** All cards on the table, with multiplicity. */
    ghost function Deck(): multiset<Card>
      reads Piles()
    {
      Total(Layout())
    }

    ghost function Cards(): set<Card>
      reads Piles()
    {
      set c | c in Deck()
    }

    /** Seven tableau piles, four foundations and two more piles, all distinct. */
    ghost predicate Shape() {
      |tableau| == 7 && |foundation| == 4 && NoDup(Piles())
    }

    /** The role flags `initGame` sets. */
    ghost predicate Roles()
      reads Piles()
      requires Shape()
    {
      var ps := Piles();
      (forall i :: 0 <= i < 7 ==> ps[i].isTableau)
      && (forall i :: 7 <= i < 11 ==> ps[i].isFoundation)
      && ps[11].isStock && ps[12].isWaste
    }

    /** A card node has one parent: each card lies in exactly one pile, once. */
    ghost predicate Valid()
      reads Piles()
    {
      Shape() && Roles() && Unique(Deck())
    }

    /** `start()`: the scene provides the pile nodes, and `initGame` turns
        them into a dealt table. */
    constructor ()
      ensures Valid() && score == 0 && moves == 0 && undoManager.stack == []
      ensures fresh(undoManager)
    {
      var ps := NewPiles(13);
      tableau := ps[..7];
      foundation := ps[7..11];
      stock := ps[11];
      waste := ps[12];
      undoManager := new UndoManager();
      score := 0;
      moves := 0;
      new;
      assert Piles() == ps;
      assert fresh(Piles()) && forall p :: p in Piles() ==> p.cards == [];
      ghost var generated, dealt := InitGame();
    }

    /** `initGame`: mark the pile roles, start a new undo history and deal a
        new shuffled deck: column c gets c + 1 cards of which only the last
        is face-up, and the other 24 cards go face-down to the stock. */
    method InitGame() returns (ghost generated: seq<Card>, ghost dealt: seq<Card>)
      requires Shape() && forall p :: p in Piles() ==> p.cards == []
      modifies this, Piles()
      ensures Valid()
      ensures fresh(undoManager) && undoManager.stack == []
      ensures score == old(score) && moves == old(moves)
      ensures Ids(generated) == StandardIds() && multiset(dealt) == multiset(generated)
      ensures |dealt| == 52 && NoDup(dealt) && fresh(dealt)
      ensures Layout() == DealtLayout(dealt) && Deck() == multiset(dealt)
      ensures forall c :: 0 <= c < 7 ==> TopOnlyFaceUp(tableau[c].cards)
      ensures forall k :: 0 <= k < |stock.cards| ==> !stock.cards[k].isFaceUp
    {
      SetRoles();
      undoManager := new UndoManager();
      var deck;
      deck, generated := NewShuffledDeck();
      dealt := deck;
      Deal(deck);
      DealtLayoutTotal(dealt);
      NoDupUnique(dealt);
    }

    /** The two dealing loops of `initGame`. */
    method Deal(deck: seq<Card>)
      requires Shape() && Roles() && |deck| == 52 && NoDup(deck)
      requires forall p :: p in Piles() ==> p.cards == []
      modifies Piles(), deck
      ensures Roles() && Layout() == DealtLayout(deck)
      ensures forall c :: 0 <= c < 7 ==> TopOnlyFaceUp(tableau[c].cards)
      ensures forall k :: 0 <= k < |stock.cards| ==> !stock.cards[k].isFaceUp
    {
      ShapeFacts();
      var rest := DealTableau(deck);
      SliceIn(deck, 28, 52);
      FillStock(rest);
      forall c | 0 <= c < 7
        ensures TopOnlyFaceUp(tableau[c].cards)
      {
        ColumnNotStock(deck, c);
      }
      LayoutOfDeal(deck);
    }

    /** The piles as `initGame` leaves them make up `DealtLayout`. */
    lemma LayoutOfDeal(deck: seq<Card>)
      requires Shape() && |deck| == 52
      requires forall c :: 0 <= c < 7 ==> tableau[c].cards == Column(deck, c)
      requires forall b :: 0 <= b < 4 ==> foundation[b].cards == []
      requires stock.cards == deck[28..] && waste.cards == []
      ensures Layout() == DealtLayout(deck)
    {
      ShapeFacts();
      var l := DealtLayout(deck);
      assert forall r :: 0 <= r < 7 ==> l[r] == Column(deck, r);
      assert forall r :: 7 <= r < 11 ==> l[r] == [];
      assert l[11] == deck[28..] && l[12] == [];
      assert forall r :: 0 <= r < 13 ==> Layout()[r] == l[r];
    }

    /** The role flags of the first half of `initGame`. */
    method SetRoles()
      requires Shape()
      modifies Piles()
      ensures Roles()
      ensures forall p :: p in Piles() ==> p.cards == old(p.cards)
    {
      ShapeFacts();
      for i := 0 to 7
        invariant forall p :: p in Piles() ==> p.cards == old(p.cards)
        invariant forall k :: 0 <= k < i ==> tableau[k].isTableau
      {
        tableau[i].isTableau := true;
      }
      stock.isStock := true;
      waste.isWaste := true;
      for i := 0 to 4
        invariant forall p :: p in Piles() ==> p.cards == old(p.cards)
        invariant forall k :: 0 <= k < 7 ==> tableau[k].isTableau
        invariant stock.isStock && waste.isWaste
        invariant forall k :: 0 <= k < i ==> foundation[k].isFoundation
      {
        foundation[i].isFoundation := true;
      }
    }

    /** The tableau loop of `initGame`: `deck.shift()` into column after
        column, the last card of each column face-up. */
    method DealTableau(deck: seq<Card>) returns (rest: seq<Card>)
      requires Shape() && Roles() && |deck| == 52 && NoDup(deck)
      requires forall c :: 0 <= c < 7 ==> tableau[c].cards == []
      modifies tableau, deck
      ensures Roles() && rest == deck[28..]
      ensures forall c :: 0 <= c < 7 ==> tableau[c].cards == Column(deck, c) && TopOnlyFaceUp(Column(deck, c))
    {
      ShapeFacts();
      rest := deck;
      for col := 0 to 7
        invariant rest == deck[Start(col)..]
        invariant Roles()
        invariant forall c :: 0 <= c < col ==> tableau[c].cards == Column(deck, c) && TopOnlyFaceUp(Column(deck, c))
        invariant forall c :: col <= c < 7 ==> tableau[c].cards == []
      {
        ColumnIn(deck, col);
        assert tableau[col] in tableau;
        label before:
        rest := DealColumn(deck, col, rest);
        forall c | 0 <= c < col
          ensures TopOnlyFaceUp(Column(deck, c))
        {
          ColumnsDisjoint(deck, c, col);
          var column := Column(deck, c);
          forall k | 0 <= k < |column|
            ensures column[k].isFaceUp == old@before(column[k].isFaceUp)
          {
            assert column[k] in column;
          }
        }
      }
    }

    /** One pass of the inner tableau loop: column `col` takes the next
        col + 1 cards, all face-down except the last. */
    method DealColumn(deck: seq<Card>, col: nat, rest: seq<Card>) returns (rest': seq<Card>)
      requires Shape() && Roles() && |deck| == 52 && NoDup(deck) && col < 7
      requires rest == deck[Start(col)..]
      requires tableau[col].cards == []
      modifies tableau[col], Column(deck, col)
      ensures Roles() && rest' == deck[Start(col + 1)..]
      ensures tableau[col].cards == Column(deck, col) && TopOnlyFaceUp(Column(deck, col))
    {
      StartStep(col);
      var column := Column(deck, col);
      var pile := tableau[col];
      rest' := rest;
      for j := 0 to col + 1
        invariant rest' == deck[Start(col) + j..]
        invariant Roles()
        invariant pile.cards == column[..j]
        invariant forall k :: 0 <= k < j ==> (column[k].isFaceUp <==> k == col)
      {
        assert rest'[0] == column[j];
        rest' := rest'[1..];
        DealCard(column, col, j);
      }
      assert column[..col + 1] == column;
    }

    /** One step of the column loop of `initGame`: card j joins column col,
        face-up only when it is the last one. */
    method DealCard(column: seq<Card>, col: nat, j: nat)
      requires Shape() && Roles() && col < 7 && j <= col && |column| == col + 1 && NoDup(column)
      requires tableau[col].cards == column[..j]
      modifies tableau[col], column[j]
      ensures Roles() && tableau[col].cards == column[..j + 1]
      ensures column[j].isFaceUp <==> j == col
    {
      var card := column[j];
      var pile := tableau[col];
      assert card !in column[..j];
      pile.AddCard(card, null);
      assert column[..j + 1] == column[..j] + [card];
      if j == col {
        card.FlipFaceUp();
      } else {
        card.FlipFaceDown();
      }
    }

    /** The stock loop of `initGame`: every remaining card, in order, face-down. */
    method FillStock(deck: seq<Card>)
      requires Shape() && Roles() && stock.cards == [] && NoDup(deck)
      modifies stock, deck
      ensures Roles() && stock.cards == deck
      ensures forall k :: 0 <= k < |deck| ==> !deck[k].isFaceUp
    {
      for k := 0 to |deck|
        invariant Roles() && stock.cards == deck[..k]
        invariant forall m :: 0 <= m < k ==> !deck[m].isFaceUp
      {
        stock.AddCard(deck[k], null);
        assert deck[..k + 1] == deck[..k] + [deck[k]];
        deck[k].FlipFaceDown();
      }
      assert deck[..|deck|] == deck;
    }

    /** The pile fields name thirteen different piles. */
    lemma ShapeFacts()
      requires Shape()
      ensures forall a :: 0 <= a < 7 ==> tableau[a] == Piles()[a]
      ensures forall b :: 0 <= b < 4 ==> foundation[b] == Piles()[7 + b]
      ensures stock == Piles()[11] && waste == Piles()[12]
      ensures forall a, b :: 0 <= a < b < 7 ==> tableau[a] != tableau[b]
      ensures forall a, b :: 0 <= a < b < 4 ==> foundation[a] != foundation[b]
      ensures forall a, b :: 0 <= a < 7 && 0 <= b < 4 ==> tableau[a] != foundation[b]
      ensures stock !in tableau && stock !in foundation && waste !in tableau && waste !in foundation && stock != waste
    {
      var ps := Piles();
      assert forall a :: 0 <= a < 7 ==> tableau[a] == ps[a];
      assert forall b :: 0 <= b < 4 ==> foundation[b] == ps[7 + b];
    }

    lemma InDeck(p: Pile, c: Card)
      requires p in Piles() && c in p.cards
      ensures c in Cards()
    {
      var i := Index(p);
      TotalPart(Layout(), i);
      assert Layout()[i] == p.cards;
    }

    lemma PileNoDup(p: Pile)
      requires Valid() && p in Piles()
      ensures NoDup(p.cards)
    {
      var i := Index(p);
      UniqueRows(Layout(), i, i);
    }

    /** `flipFaceUp` on a card, which leaves every pile as it is. */
    method TurnUp(card: Card)
      modifies card
      ensures card.isFaceUp
      ensures Layout() == old(Layout()) && Valid() == old(Valid()) && (Shape() ==> Roles() == old(Roles()))
    {
      card.FlipFaceUp();
    }

    /** `flipFaceDown` on a card, which leaves every pile as it is. */
    method TurnDown(card: Card)
      modifies card
      ensures !card.isFaceUp
      ensures Layout() == old(Layout()) && Valid() == old(Valid()) && (Shape() ==> Roles() == old(Roles()))
    {
      card.FlipFaceDown();
    }

    /** `undoManager.pushMove`, which leaves every pile as it is. */
    method Record(move: UndoMove)
      modifies undoManager
      ensures undoManager.stack == old(undoManager.stack) + [move]
      ensures Layout() == old(Layout()) && Valid() == old(Valid()) && (Shape() ==> Roles() == old(Roles()))
    {
      undoManager.PushMove(move);
    }

    method AddScore(s: int)
      modifies this
      ensures score == old(score) + s && moves == old(moves) && undoManager == old(undoManager)
      ensures Layout() == old(Layout()) && Valid() == old(Valid()) && (Shape() ==> Roles() == old(Roles()))
    {
      score := score + s;
    }

    method AddMoves(m: int)
      modifies this
      ensures moves == old(moves) + m && score == old(score) && undoManager == old(undoManager)
      ensures Layout() == old(Layout()) && Valid() == old(Valid()) && (Shape() ==> Roles() == old(Roles()))
    {
      moves := moves + m;
    }

    /** `getStackFrom`: the cards from `card` to the top of its pile. */
    function GetStackFrom(pile: Pile, card: Card): (stack: seq<Card>)
      reads pile
      requires card in pile.cards
      ensures 0 < |stack| <= |pile.cards| && stack[0] == card
      ensures pile.cards == pile.cards[..|pile.cards| - |stack|] + stack
      ensures card !in pile.cards[..|pile.cards| - |stack|]
    {
      pile.cards[IndexOf(pile.cards, card)..]
    }

    /** The column spacing for a tableau pile of n cards: the default while
        the column fits the visible height, otherwise the height shared out
        between the cards, never less than 8. */
    function ComputeTableauOffsetForPile(n: nat): (offset: int)
      ensures 8 <= offset <= tableauOffset
      ensures n * tableauOffset <= maxTableauVisibleHeight ==> offset == tableauOffset
      ensures offset > 8 ==> n * offset <= maxTableauVisibleHeight
      ensures n * tableauOffset > maxTableauVisibleHeight ==> n * (offset + 1) > maxTableauVisibleHeight
    {
      var needed := n * tableauOffset;
      if needed <= maxTableauVisibleHeight then tableauOffset
      else
        var share := maxTableauVisibleHeight / Max(1, n);
        CompressedFits(n, maxTableauVisibleHeight);
        CompressedMaximal(n, maxTableauVisibleHeight);
        Max(8, share)
    }

    /** `tryFlipLastCard`: a face-down top card of the pile is turned
        face-up, after an undo entry recording that it was face-down. */
    method TryFlipLastCard(pile: Pile) returns (ghost flipped: Option<Card>)
      requires Valid() && pile in Piles()
      modifies undoManager, Top(pile.cards)
      ensures Valid() && Layout() == old(Layout()) && Deck() == old(Deck())
      ensures var row := pile.cards;
        flipped == if row != [] && !old(row[|row| - 1].isFaceUp) then Some(row[|row| - 1]) else None
      ensures flipped.Some? ==> flipped.value.isFaceUp
      ensures undoManager.stack == old(undoManager.stack) + FlipEntries(pile, flipped)
      ensures forall c: Card :: old(allocated(c)) && Some(c) != flipped ==> c.isFaceUp == old(c.isFaceUp)
    {
      flipped := None;
      if |pile.cards| == 0 {
        return;
      }
      var last := pile.cards[|pile.cards| - 1];
      if !last.isFaceUp {
        InDeck(pile, last);
        Record(UndoMove([last], pile, pile, Some(FlipRecord(last, false))));
        TurnUp(last);
        flipped := Some(last);
      }
    }

    /** `onClickStock`: the top stock card is turned face-up and moved onto
        the waste; with an empty stock the waste is recycled instead. */
    method OnClickStock() returns (ghost drawn: Option<Card>)
      requires Valid()
      modifies Piles(), Cards()
      ensures Valid() && Deck() == old(Deck())
      ensures drawn == old(stock.GetTopCard())
      ensures drawn.Some? ==> Layout() == MoveOne(old(Layout()), 11, 12, drawn.value)
      ensures drawn.Some? ==> stock.cards == old(stock.cards)[..|old(stock.cards)| - 1]
      ensures drawn.Some? ==> waste.cards == old(waste.cards) + [drawn.value] && drawn.value.isFaceUp
      ensures drawn.Some? ==> forall c: Card :: old(allocated(c)) && c != drawn.value ==> c.isFaceUp == old(c.isFaceUp)
      ensures drawn.None? ==> Layout() == Moved(old(Layout()), 12, 11, Reverse(old(waste.cards)))
      ensures drawn.None? ==> stock.cards == Reverse(old(waste.cards)) && waste.cards == []
      ensures drawn.None? ==> forall c :: c in old(waste.cards) ==> !c.isFaceUp
      ensures drawn.None? ==> forall c: Card :: old(allocated(c)) && c !in old(waste.cards) ==> c.isFaceUp == old(c.isFaceUp)
    {
      var last := stock.GetTopCard();
      drawn := last;
      if last.None? {
        RecycleWasteToStock();
        return;
      }
      DrawFromStock(last.value);
    }

    /** The non-empty branch of `onClickStock`. */
    method DrawFromStock(card: Card)
      requires Valid() && stock.cards != [] && card == stock.cards[|stock.cards| - 1]
      modifies Piles(), Cards()
      ensures Valid() && Deck() == old(Deck())
      ensures Layout() == MoveOne(old(Layout()), 11, 12, card)
      ensures stock.cards == old(stock.cards)[..|old(stock.cards)| - 1]
      ensures waste.cards == old(waste.cards) + [card] && card.isFaceUp
      ensures forall c: Card :: old(allocated(c)) && c != card ==> c.isFaceUp == old(c.isFaceUp)
    {
      IndexFacts();
      ghost var L0 := Layout();
      PileNoDup(stock);
      InDeck(stock, card);
      TurnUp(card);
      MoveCard(card, stock, waste);
      MoveOneConserves(L0, 11, 12, card);
      RemoveUnique(L0[11], |L0[11]| - 1);
    }

    /** `recycleWasteToStock`: the waste cards, the top one first, become
        children of the stock, each turned face-down. */
    method RecycleWasteToStock()
      requires Valid()
      modifies Piles(), Cards()
      ensures Valid() && Deck() == old(Deck())
      ensures Layout() == Moved(old(Layout()), 12, 11, Reverse(old(waste.cards)))
      ensures stock.cards == old(stock.cards) + Reverse(old(waste.cards)) && waste.cards == []
      ensures forall c :: c in old(waste.cards) ==> !c.isFaceUp
      ensures forall c: Card :: old(allocated(c)) && c !in old(waste.cards) ==> c.isFaceUp == old(c.isFaceUp)
    {
      IndexFacts();
      ghost var L0 := Layout();
      ghost var C0 := Cards();
      var cards := Reverse(waste.cards);
      PileNoDup(waste);
      ReverseNoDup(waste.cards);
      forall c | c in cards
        ensures c in C0
      {
        InDeck(waste, c);
      }
      RecycleAll(cards, L0);
      MovedConserves(L0, 12, 11, cards);
      WithoutAll(L0[12], cards);
    }

    /** The loop of `recycleWasteToStock` over the reversed copy of the waste. */
    method RecycleAll(cards: seq<Card>, ghost L0: seq<seq<Card>>)
      requires Shape() && Roles() && Layout() == L0
      requires NoDup(cards) && NoDup(L0[12]) && forall c :: c in cards ==> c in L0[12]
      modifies waste, stock, cards
      ensures Roles() && Layout() == Moved(L0, 12, 11, cards)
      ensures forall m :: 0 <= m < |cards| ==> !cards[m].isFaceUp
    {
      MovedNothing(L0, 12, 11);
      assert cards[..0] == [];
      for k := 0 to |cards|
        invariant Shape() && Roles()
        invariant Layout() == Moved(L0, 12, 11, cards[..k])
        invariant forall m :: 0 <= m < k ==> !cards[m].isFaceUp
      {
        RecycleNext(cards, k, L0);
      }
      assert cards[..|cards|] == cards;
    }

    /** One pass of the `recycleWasteToStock` loop: `setParent(stock)` and
        then `flipFaceDown`. */
    method RecycleNext(cards: seq<Card>, k: nat, ghost L0: seq<seq<Card>>)
      requires Shape() && Roles() && |L0| == 13 && k < |cards| && NoDup(cards)
      requires NoDup(L0[12]) && cards[k] in L0[12]
      requires Layout() == Moved(L0, 12, 11, cards[..k])
      modifies waste, stock, cards[k]
      ensures Roles() && !cards[k].isFaceUp
      ensures Layout() == Moved(L0, 12, 11, cards[..k + 1])
    {
      var card, done := cards[k], cards[..k];
      assert cards[..k + 1] == done + [card];
      IndexFacts();
      WithoutMember(L0[12], done, card);
      MoveCard(card, waste, stock);
      MovedStep(L0, 12, 11, done, card);
      TurnDown(card);
    }

    /** `restartGame`: every card of every pile is destroyed, the undo
        history is cleared and `initGame` deals a new game. Score and move
        counters are not reset. */
    method RestartGame() returns (ghost dealt: seq<Card>)
      requires Valid()
      modifies this, Piles(), undoManager
      ensures Valid() && old(undoManager).stack == []
      ensures fresh(undoManager) && undoManager.stack == []
      ensures score == old(score) && moves == old(moves)
      ensures |dealt| == 52 && NoDup(dealt) && fresh(dealt)
      ensures Layout() == DealtLayout(dealt) && Deck() == multiset(dealt)
      ensures forall c :: 0 <= c < 7 ==> TopOnlyFaceUp(tableau[c].cards)
      ensures forall k :: 0 <= k < |stock.cards| ==> !stock.cards[k].isFaceUp
    {
      ClearPiles();
      undoManager.Clear();
      ghost var generated;
      generated, dealt := InitGame();
    }

    /** The destroy loops of `restartGame` as they are meant to work: the
        first child of each pile is removed until the pile is empty. Under the
        engine's deferred `destroy()` the loop as written does not end
        (`DestroyLoopNeverEnds`). */
    method ClearPiles()
      requires Shape()
      modifies Piles()
      ensures forall p :: p in Piles() ==> p.cards == []
    {
      var all := Piles();
      for n := 0 to |all|
        invariant forall m :: 0 <= m < n ==> all[m].cards == []
      {
        var pile := all[n];
        while |pile.cards| > 0
          invariant forall m :: 0 <= m < n ==> all[m].cards == []
          decreases |pile.cards|
        {
          pile.cards := pile.cards[1..];
        }
      }
    }

    /** `moveToFoundation`: the card alone goes to the first foundation that
        takes it, for 10 points; false, with nothing changed, when none does. */
    method MoveToFoundation(card: Card, from: Pile) returns (ok: bool, ghost flipped: Option<Card>)
      requires Valid() && from in Piles() && card in from.cards
      modifies this, undoManager, Piles(), Cards()
      ensures Valid() && Deck() == old(Deck()) && undoManager == old(undoManager)
      ensures ok <==> old(FirstFoundation(card, foundation, 0)).Some?
      ensures ok ==> StackMoved(old(Layout()), old(undoManager.stack), old(score), old(moves),
        [card], from, 7 + old(FirstFoundation(card, foundation, 0)).value, 10, flipped)
      ensures !ok ==> Unmoved(old(Layout()), old(undoManager.stack), old(score), old(moves)) && flipped == None
      ensures forall c: Card :: old(allocated(c)) && Some(c) != flipped ==> c.isFaceUp == old(c.isFaceUp)
    {
      var b := 0;
      while b < 4 && !CanPlaceToFoundation(card, foundation[b])
        invariant b <= 4 && FirstFoundation(card, foundation, b) == FirstFoundation(card, foundation, 0)
      {
        b := b + 1;
      }
      if b == 4 {
        return false, None;
      }
      flipped := MoveToFoundationAt([card], b, from);
      ok := true;
    }

    /** The table, counters and undo history once `moveStack` has carried
        `stack` from `from` to pile t and `points` were scored, given the
        layout L0, undo history U0, score s0 and moves m0 from before. */
    ghost predicate StackMoved(L0: seq<seq<Card>>, U0: seq<UndoMove>, s0: int, m0: int,
                               stack: seq<Card>, from: Pile, t: nat, points: int, flipped: Option<Card>)
      reads this, undoManager, Piles()
      requires Shape() && |L0| == 13 && from in Piles() && t < 13
    {
      Layout() == Moved(L0, Index(from), t, stack) && score == s0 + points && moves == m0 + |stack|
      && undoManager.stack == U0 + [UndoMove(stack, from, Piles()[t], None)] + FlipEntries(from, flipped)
    }

    /** Table, counters and undo history as they were. */
    ghost predicate Unmoved(L0: seq<seq<Card>>, U0: seq<UndoMove>, s0: int, m0: int)
      reads this, undoManager, Piles()
    {
      Layout() == L0 && score == s0 && moves == m0 && undoManager.stack == U0
    }

    /** The effect of `handleDrop` with the given outcome: a foundation move
        scores 10 points, a tableau move none, and a stack sent back leaves
        everything as it was. */
    ghost predicate Dropped(outcome: Drop, L0: seq<seq<Card>>, U0: seq<UndoMove>, s0: int, m0: int,
                            stack: seq<Card>, from: Pile, flipped: Option<Card>)
      reads this, undoManager, Piles()
      requires Shape() && |L0| == 13 && from in Piles()
    {
      match outcome
      case ToFoundation(b) => b < 4 && StackMoved(L0, U0, s0, m0, stack, from, 7 + b, 10, flipped)
      case ToTableau(t) => t < 7 && StackMoved(L0, U0, s0, m0, stack, from, t, 0, flipped)
      case Back => Unmoved(L0, U0, s0, m0) && flipped == None
    }

    /** `moveStack` onto foundation b followed by `addScore(10)`, as both
        `moveToFoundation` and `handleDrop` do. */
    method MoveToFoundationAt(stack: seq<Card>, b: nat, from: Pile) returns (ghost flipped: Option<Card>)
      requires Valid() && from in Piles() && b < 4
      requires NoDup(stack) && forall c :: c in stack ==> c in from.cards
      modifies this, undoManager, Piles(), Cards()
      ensures Valid() && Deck() == old(Deck()) && undoManager == old(undoManager)
      ensures StackMoved(old(Layout()), old(undoManager.stack), old(score), old(moves), stack, from, 7 + b, 10, flipped)
      ensures forall c: Card :: old(allocated(c)) && Some(c) != flipped ==> c.isFaceUp == old(c.isFaceUp)
    {
      IndexFacts();
      flipped := MoveStack(stack, foundation[b], from);
      AddScore(10);
    }

    /** `tryAutoToFoundation`: the same search and move as `moveToFoundation`,
        without the answer. */
    method TryAutoToFoundation(card: Card, from: Pile) returns (ghost flipped: Option<Card>)
      requires Valid() && from in Piles() && card in from.cards
      modifies this, undoManager, Piles(), Cards()
      ensures Valid() && Deck() == old(Deck()) && undoManager == old(undoManager)
      ensures old(FirstFoundation(card, foundation, 0)).Some? ==> StackMoved(old(Layout()), old(undoManager.stack), old(score), old(moves),
        [card], from, 7 + old(FirstFoundation(card, foundation, 0)).value, 10, flipped)
      ensures old(FirstFoundation(card, foundation, 0)).None? ==>
        Unmoved(old(Layout()), old(undoManager.stack), old(score), old(moves)) && flipped == None
      ensures forall c: Card :: old(allocated(c)) && Some(c) != flipped ==> c.isFaceUp == old(c.isFaceUp)
    {
      var _, f := MoveToFoundation(card, from);
      flipped := f;
    }

    /** `handleDrop` for a stack dragged out of `from`, whose first card is
        the dragged card; `near` holds the piles whose bounds meet the
        dropped card. */
    method HandleDrop(stack: seq<Card>, from: Pile, near: set<Pile>) returns (ghost outcome: Drop, ghost flipped: Option<Card>)
      requires Valid() && from in Piles() && stack != []
      requires NoDup(stack) && forall c :: c in stack ==> c in from.cards
      modifies this, undoManager, Piles(), Cards()
      ensures Valid() && Deck() == old(Deck()) && undoManager == old(undoManager)
      ensures outcome == old(DropOutcome(stack[0], foundation, tableau, near))
      ensures Dropped(outcome, old(Layout()), old(undoManager.stack), old(score), old(moves), stack, from, flipped)
      ensures forall c: Card :: old(allocated(c)) && Some(c) != flipped ==> c.isFaceUp == old(c.isFaceUp)
    {
      var card := stack[0];
      var b := 0;
      while b < 4 && !(foundation[b] in near && CanPlaceToFoundation(card, foundation[b]))
        invariant b <= 4 && FirstNearFoundation(card, foundation, near, b) == FirstNearFoundation(card, foundation, near, 0)
      {
        b := b + 1;
      }
      if b < 4 {
        outcome, flipped := DropOnFoundation(stack, from, near, b);
      } else {
        outcome, flipped := DropOnTableau(stack, from, near);
      }
    }

    /** `handleDrop` when foundation b is the first near foundation that
        takes the first card: the stack goes there for 10 points. */
    method DropOnFoundation(stack: seq<Card>, from: Pile, near: set<Pile>, b: nat) returns (ghost outcome: Drop, ghost flipped: Option<Card>)
      requires Valid() && from in Piles() && stack != [] && b < 4
      requires NoDup(stack) && forall c :: c in stack ==> c in from.cards
      requires FirstNearFoundation(stack[0], foundation, near, 0) == Some(b)
      modifies this, undoManager, Piles(), Cards()
      ensures Valid() && Deck() == old(Deck()) && undoManager == old(undoManager)
      ensures outcome == old(DropOutcome(stack[0], foundation, tableau, near)) && outcome == ToFoundation(b)
      ensures Dropped(outcome, old(Layout()), old(undoManager.stack), old(score), old(moves), stack, from, flipped)
      ensures forall c: Card :: old(allocated(c)) && Some(c) != flipped ==> c.isFaceUp == old(c.isFaceUp)
    {
      flipped := MoveToFoundationAt(stack, b, from);
      outcome := ToFoundation(b);
    }

    /** The rest of `handleDrop` once no foundation took the stack: the first
        tableau pile near the drop receives it if it accepts the first card;
        otherwise the stack goes back. */
    method DropOnTableau(stack: seq<Card>, from: Pile, near: set<Pile>) returns (ghost outcome: Drop, ghost flipped: Option<Card>)
      requires Valid() && from in Piles() && stack != []
      requires NoDup(stack) && forall c :: c in stack ==> c in from.cards
      requires FirstNearFoundation(stack[0], foundation, near, 0).None?
      modifies this, undoManager, Piles(), Cards()
      ensures Valid() && Deck() == old(Deck()) && undoManager == old(undoManager)
      ensures outcome == old(DropOutcome(stack[0], foundation, tableau, near)) && !outcome.ToFoundation?
      ensures Dropped(outcome, old(Layout()), old(undoManager.stack), old(score), old(moves), stack, from, flipped)
      ensures forall c: Card :: old(allocated(c)) && Some(c) != flipped ==> c.isFaceUp == old(c.isFaceUp)
    {
      var card := stack[0];
      var t := 0;
      while t < 7 && tableau[t] !in near
        invariant t <= 7 && FirstNear(tableau, near, t) == FirstNear(tableau, near, 0)
      {
        t := t + 1;
      }
      assert DropOutcome(card, foundation, tableau, near)
        == if t < 7 && CanPlaceToTableau(card, tableau[t]) then ToTableau(t) else Back;
      if t < 7 && CanPlaceToTableau(card, tableau[t]) {
        IndexFacts();
        flipped := MoveStack(stack, tableau[t], from);
        outcome := ToTableau(t);
        return;
      }
      ResetStack(stack, from);
      outcome, flipped := Back, None;
    }

    /** `resetStack`: each card of the stack is made a child of its original
        pile again, which it still is, so no pile changes. */
    method ResetStack(stack: seq<Card>, parent: Pile)
      requires Valid() && parent in Piles()
      requires forall c :: c in stack ==> c in parent.cards
      modifies parent
      ensures Valid() && Layout() == old(Layout()) && Deck() == old(Deck())
    {
      for i := 0 to |stack|
        invariant parent.cards == old(parent.cards)
        invariant parent.isFoundation == old(parent.isFoundation) && parent.isTableau == old(parent.isTableau)
        invariant parent.isStock == old(parent.isStock) && parent.isWaste == old(parent.isWaste)
      {
        parent.AddCard(stack[i], parent);
      }
      assert Layout() == old(Layout()) by {
        forall r | 0 <= r < 13
          ensures Layout()[r] == old(Layout())[r]
        {
        }
      }
      assert Roles() == old(Roles());
    }

    /** The pile fields sit at their own positions in `Piles()`. */
    lemma IndexFacts()
      requires Shape()
      ensures forall a :: 0 <= a < 7 ==> Index(tableau[a]) == a
      ensures forall b :: 0 <= b < 4 ==> Index(foundation[b]) == 7 + b
      ensures Index(stock) == 11 && Index(waste) == 12
    {
      ShapeFacts();
      forall r | 0 <= r < 13
        ensures Index(Piles()[r]) == r
      {
      }
    }

    /** One reparenting, `node.parent = target.node`, of a card of `from`. */
    method MoveCard(x: Card, from: Pile, target: Pile)
      requires Shape() && Roles() && from in Piles() && target in Piles() && x in from.cards
      modifies from, target
      ensures Roles()
      ensures Layout() == MoveOne(old(Layout()), Index(from), Index(target), x)
    {
      ghost var ps := Piles();
      ghost var i, j := Index(from), Index(target);
      ghost var before := Layout();
      target.AddCard(x, from);
      ghost var after := MoveOne(before, i, j, x);
      forall r | 0 <= r < 13
        ensures Layout()[r] == after[r] && ps[r].isTableau == old(ps[r].isTableau)
        ensures ps[r].isFoundation == old(ps[r].isFoundation)
        ensures ps[r].isStock == old(ps[r].isStock) && ps[r].isWaste == old(ps[r].isWaste)
      {
        if r != i && r != j {
          assert ps[r] != from && ps[r] != target;
        }
      }
    }

    /** `setSiblingIndex` on a card of one of the piles: only that pile's
        order changes. */
    method Reorder(x: Card, pile: Pile, index: nat)
      requires Shape() && Roles() && pile in Piles() && x in pile.cards
      modifies pile
      ensures Roles()
      ensures Layout() == old(Layout())[Index(pile) := SetSiblingIndex(old(pile.cards), x, index)]
    {
      ghost var ps := Piles();
      ghost var i := Index(pile);
      ghost var after := Layout()[i := SetSiblingIndex(pile.cards, x, index)];
      pile.SetSiblingIndexOf(x, index);
      forall r | 0 <= r < 13
        ensures Layout()[r] == after[r] && ps[r].isTableau == old(ps[r].isTableau)
        ensures ps[r].isFoundation == old(ps[r].isFoundation)
        ensures ps[r].isStock == old(ps[r].isStock) && ps[r].isWaste == old(ps[r].isWaste)
      {
        if r != i {
          assert ps[r] != pile;
        }
      }
    }

    /** The cards on the table are objects of the heap. */
    lemma CardsAllocated()
      ensures forall c :: c in Cards() ==> allocated(c)
    {
      forall c | c in Cards()
        ensures allocated(c)
      {
        var r := TotalRow(Layout(), c);
        assert c in Piles()[r].cards;
      }
    }

    /** Each pile sits at its own position in `Piles()`. */
    lemma IndexAt(r: nat)
      requires Shape() && r < 13
      ensures Index(Piles()[r]) == r
    {
    }

    /** The tween callbacks of `moveStack` taken together: every card of the
        stack, in order, becomes a child of the target and counts one move. */
    method ReparentStack(stack: seq<Card>, from: Pile, target: Pile)
      requires Valid() && from in Piles() && target in Piles()
      requires NoDup(stack) && forall c :: c in stack ==> c in from.cards
      modifies this, from, target
      ensures Valid()
      ensures Layout() == Moved(old(Layout()), Index(from), Index(target), stack)
      ensures Deck() == old(Deck())
      ensures forall c :: c in from.cards ==> c in old(from.cards)
      ensures moves == old(moves) + |stack| && score == old(score) && undoManager == old(undoManager)
    {
      ghost var L0 := Layout();
      ghost var i, j := Index(from), Index(target);
      PileNoDup(from);
      MovedNothing(L0, i, j);
      assert stack[..0] == [];
      for k := 0 to |stack|
        invariant Shape() && Roles()
        invariant Layout() == Moved(L0, i, j, stack[..k])
        invariant moves == old(moves) + k && score == old(score) && undoManager == old(undoManager)
      {
        assert stack[..k + 1] == stack[..k] + [stack[k]];
        ReparentNext(stack[k], from, target, L0, stack[..k]);
      }
      assert stack[..|stack|] == stack;
      MovedConserves(L0, i, j, stack);
      MovedRowIn(L0, i, j, stack);
      assert from.cards == Layout()[i];
    }

    /** One callback of `moveStack`: the next card of the stack joins the target. */
    method ReparentNext(card: Card, from: Pile, target: Pile, ghost L0: seq<seq<Card>>, ghost done: seq<Card>)
      requires Shape() && Roles() && from in Piles() && target in Piles() && |L0| == 13
      requires NoDup(L0[Index(from)]) && card in L0[Index(from)] && card !in done
      requires Layout() == Moved(L0, Index(from), Index(target), done)
      modifies this, from, target
      ensures Roles()
      ensures Layout() == Moved(L0, Index(from), Index(target), done + [card])
      ensures moves == old(moves) + 1 && score == old(score) && undoManager == old(undoManager)
    {
      WithoutMember(L0[Index(from)], done, card);
      MoveCard(card, from, target);
      MovedStep(L0, Index(from), Index(target), done, card);
      AddMoves(1);
    }

    /** `moveStack` with its tween callbacks taken as one step: the stack
        is reparented card by card onto the target, the move is recorded for
        undo and, once the last card has arrived, `tryFlipLastCard` runs on
        the pile the stack left. `moveStack` pushes the move entry before the
        callbacks run; the reparenting does not touch the undo stack, so the
        entry still comes before the flip entry. */
    method MoveStack(stack: seq<Card>, target: Pile, from: Pile) returns (ghost flipped: Option<Card>)
      requires Valid() && from in Piles() && target in Piles()
      requires NoDup(stack) && forall c :: c in stack ==> c in from.cards
      modifies this, undoManager, Piles(), Cards()
      ensures Valid() && undoManager == old(undoManager) && score == old(score)
      ensures Layout() == Moved(old(Layout()), Index(from), Index(target), stack)
      ensures Deck() == old(Deck())
      ensures moves == old(moves) + |stack|
      ensures var row := Moved(old(Layout()), Index(from), Index(target), stack)[Index(from)];
        flipped == if stack != [] && row != [] && !old(row[|row| - 1].isFaceUp) then Some(row[|row| - 1]) else None
      ensures flipped.Some? ==> flipped.value.isFaceUp
      ensures undoManager.stack == old(undoManager.stack) + [UndoMove(stack, from, target, None)] + FlipEntries(from, flipped)
      ensures forall c: Card :: old(allocated(c)) && Some(c) != flipped ==> c.isFaceUp == old(c.isFaceUp)
    {
      ghost var row := Moved(Layout(), Index(from), Index(target), stack)[Index(from)];
      ghost var down := row != [] && !row[|row| - 1].isFaceUp;
      if row != [] {
        MovedRowIn(Layout(), Index(from), Index(target), stack);
        InDeck(from, row[|row| - 1]);
      }
      ReparentStack(stack, from, target);
      flipped := RecordMove(stack, target, from, row, down);
    }

    /** The undo entry `moveStack` pushes and, once the last card of a
        non-empty stack has arrived, `tryFlipLastCard` on the pile it left. */
    method RecordMove(stack: seq<Card>, target: Pile, from: Pile, ghost row: seq<Card>, ghost down: bool) returns (ghost flipped: Option<Card>)
      requires Valid() && from in Piles()
      requires row == from.cards && down == (row != [] && !row[|row| - 1].isFaceUp)
      modifies undoManager, Top(from.cards)
      ensures Valid() && Layout() == old(Layout()) && Deck() == old(Deck())
      ensures flipped == if stack != [] && down then Some(row[|row| - 1]) else None
      ensures flipped.Some? ==> flipped.value.isFaceUp
      ensures undoManager.stack == old(undoManager.stack) + [UndoMove(stack, from, target, None)] + FlipEntries(from, flipped)
      ensures forall c: Card :: old(allocated(c)) && Some(c) != flipped ==> c.isFaceUp == old(c.isFaceUp)
    {
      Record(UndoMove(stack, from, target, None));
      flipped := None;
      if |stack| > 0 {
        flipped := TryFlipLastCard(from);
      }
    }
  }

  /** `generateDeck` followed by `shuffle`: a permutation of 52 new cards. */
  method NewShuffledDeck() returns (deck: seq<Card>, ghost generated: seq<Card>)
    ensures Ids(generated) == StandardIds() && multiset(deck) == multiset(generated)
    ensures |deck| == 52 && NoDup(deck) && fresh(deck)
  {
    var cards := GenerateDeck();
    generated := cards;
    deck := ShuffledCopy(cards);
    NoDupUnique(generated);
    UniqueNoDup(deck, multiset(generated));
    assert forall i :: 0 <= i < |deck| ==> deck[i] in multiset(generated);
  }

  /** `shuffle` on the deck array, seen as the sequence it holds. */
  method ShuffledCopy(cards: seq<Card>) returns (deck: seq<Card>)
    ensures |deck| == |cards| && multiset(deck) == multiset(cards)
  {
    var arr := new Card[|cards|](i requires 0 <= i < |cards| => cards[i]);
    assert arr[..] == cards;
    ghost var choices := Shuffle(arr);
    deck := arr[..];
  }

  /** The first pile of `fs`, from position b on, that takes the card as a
      foundation (the `for ... of this.foundation` scans). */
  function FirstFoundation(card: Card, fs: seq<Pile>, b: nat): (r: Option<nat>)
    reads fs
    requires b <= |fs|
    ensures r.Some? ==> b <= r.value < |fs| && CanPlaceToFoundation(card, fs[r.value])
    ensures r.Some? ==> forall k :: b <= k < r.value ==> !CanPlaceToFoundation(card, fs[k])
    ensures r.None? <==> forall k :: b <= k < |fs| ==> !CanPlaceToFoundation(card, fs[k])
    decreases |fs| - b
  {
    if b == |fs| then None
    else if CanPlaceToFoundation(card, fs[b]) then Some(b)
    else FirstFoundation(card, fs, b + 1)
  }

  /** The first pile of `fs`, from position b on, that is near the drop and
      takes the card as a foundation. */
  function FirstNearFoundation(card: Card, fs: seq<Pile>, near: set<Pile>, b: nat): (r: Option<nat>)
    reads fs
    requires b <= |fs|
    ensures r.Some? ==> b <= r.value < |fs| && fs[r.value] in near && CanPlaceToFoundation(card, fs[r.value])
    ensures r.Some? ==> forall k :: b <= k < r.value ==> !(fs[k] in near && CanPlaceToFoundation(card, fs[k]))
    ensures r.None? <==> forall k :: b <= k < |fs| ==> !(fs[k] in near && CanPlaceToFoundation(card, fs[k]))
    decreases |fs| - b
  {
    if b == |fs| then None
    else if fs[b] in near && CanPlaceToFoundation(card, fs[b]) then Some(b)
    else FirstNearFoundation(card, fs, near, b + 1)
  }

  /** The first pile of `ps`, from position t on, that is near the drop. */
  function FirstNear(ps: seq<Pile>, near: set<Pile>, t: nat): (r: Option<nat>)
    requires t <= |ps|
    ensures r.Some? ==> t <= r.value < |ps| && ps[r.value] in near
    ensures r.Some? ==> forall k :: t <= k < r.value ==> ps[k] !in near
    ensures r.None? <==> forall k :: t <= k < |ps| ==> ps[k] !in near
    decreases |ps| - t
  {
    if t == |ps| then None
    else if ps[t] in near then Some(t)
    else FirstNear(ps, near, t + 1)
  }

  /** Where `handleDrop` puts a dropped stack. */
  datatype Drop = ToFoundation(b: nat) | ToTableau(t: nat) | Back

  /** The decision of `handleDrop` for a stack whose first card is `card`:
      foundations come first; otherwise only the first tableau pile near the
      drop is considered, and the stack goes back when that pile refuses the
      card or when no tableau pile is near. */
  function DropOutcome(card: Card, foundation: seq<Pile>, tableau: seq<Pile>, near: set<Pile>): (d: Drop)
    reads foundation, tableau
    ensures d.ToFoundation? <==> FirstNearFoundation(card, foundation, near, 0).Some?
    ensures d.ToFoundation? ==> d.b < |foundation| && foundation[d.b] in near && CanPlaceToFoundation(card, foundation[d.b])
    ensures d.ToTableau? ==> (d.t < |tableau| && tableau[d.t] in near && CanPlaceToTableau(card, tableau[d.t])
      && forall k :: 0 <= k < d.t ==> tableau[k] !in near)
    ensures d.Back? <==> (FirstNearFoundation(card, foundation, near, 0).None?
      && forall k :: 0 <= k < |tableau| && tableau[k] in near && CanPlaceToTableau(card, tableau[k]) ==> exists m :: 0 <= m < k && tableau[m] in near)
  {
    match FirstNearFoundation(card, foundation, near, 0)
    case Some(b) => ToFoundation(b)
    case None =>
      match FirstNear(tableau, near, 0)
      case Some(t) => if CanPlaceToTableau(card, tableau[t]) then ToTableau(t) else Back
      case None => Back
  }

  /** Only the last card of the sequence is face-up (a freshly dealt column). */
  ghost predicate TopOnlyFaceUp(s: seq<Card>)
    reads s
  {
    forall k :: 0 <= k < |s| ==> (s[k].isFaceUp <==> k == |s| - 1)
  }

  /** The destroy loop of `restartGame` as written, when `destroy()` only
      marks a node and the engine removes it from its parent at the end of
      the frame: the child list and the nodes marked after k turns. */
  function DestroyLoopAsWritten(children: seq<Card>, k: nat): (r: (seq<Card>, set<Card>))
  {
    if k == 0 then (children, {})
    else
      var (cs, marked) := DestroyLoopAsWritten(children, k - 1);
      if cs == [] then (cs, marked) else (cs, marked + {cs[0]})
  }

  /** Under deferred destruction the loop condition never turns false on a
      non-empty pile: after any number of turns the children are all still
      there, and only the first of them has been marked. */
  lemma {:induction false} DestroyLoopNeverEnds(children: seq<Card>, k: nat)
    requires children != []
    ensures DestroyLoopAsWritten(children, k).0 == children
    ensures DestroyLoopAsWritten(children, k).1 == if k == 0 then {} else {children[0]}
  {
    if k > 0 {
      DestroyLoopNeverEnds(children, k - 1);
    }
  }

  function Max(a: int, b: int): int {
    if a >= b then a else b
  }

  lemma CompressedFits(n: nat, height: nat)
    ensures n * (height / Max(1, n)) <= height
  {
    if n > 0 {
      var q := height / n;
      assert height == n * q + height % n;
    }
  }

  lemma CompressedMaximal(n: nat, height: nat)
    requires n > 0
    ensures n * (height / n + 1) > height
  {
    var q := height / n;
    assert height == n * q + height % n;
    assert n * (q + 1) == n * q + n;
  }
}
