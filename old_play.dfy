/** The game controller of the older tree (`UIPlay.ts`): seven tableau
    piles, four foundations, the stock and the waste, the undo manager and
    the score and move counters. The tween that precedes each reparenting
    is not modelled; `moveStack` looks at the pile the stack leaves before
    its cards have moved, as the TypeScript does. */
module OldPlay {
  import opened Wrappers
  import opened Seqs
  import opened Tables
  import opened UndoStack
  import opened OldCard
  import opened OldPile
  import opened OldUndo
  import opened OldRules
  import opened Deal

  /** The undo entry `tryFlipLastCard` adds for the card it turned, if any.
      It looks up a pile component on the card node, which finds none, so
      both its piles are null. */
  function FlipEntries(flipped: Option<Card>): seq<UndoMove> {
    if flipped.None? then [] else [UndoMove([flipped.value], null, null, Some(FlipRecord(flipped.value, false)))]
  }

  /** The card `tryFlipLastCard` turns on a pile holding `row`: its last
      card when that card is face-down. */
  ghost function FaceDownTop(row: seq<Card>): (r: Option<Card>)
    reads row
    ensures r.Some? <==> row != [] && !row[|row| - 1].isFaceUp
    ensures r.Some? ==> r.value == row[|row| - 1]
  {
    if row != [] && !row[|row| - 1].isFaceUp then Some(row[|row| - 1]) else None
  }

  /** The card whose face `onUndo` sets when the newest entry is a flip entry. */
  function FlipTarget(s: seq<UndoMove>): set<Card> {
    if s != [] && s[|s| - 1].flip.Some? then {s[|s| - 1].flip.value.card} else {}
  }

  /** The root nodes of the scene with their pile components: n new, empty piles. */
  method NewPiles(n: nat) returns (ps: seq<Pile>)
    ensures |ps| == n && NoDup(ps) && fresh(ps)
    ensures forall q :: q in ps ==> q.cards == []
  {
    ps := [];
    for i := 0 to n
      invariant |ps| == i && NoDup(ps) && fresh(ps) && forall q :: q in ps ==> q.cards == []
    {
      var p := new Pile();
      ps := ps + [p];
    }
  }

  /** The last card of a pile, the only one `tryFlipLastCard` may turn. */
  function Top(s: seq<Card>): set<Card> {
    if s == [] then {} else {s[|s| - 1]}
  }

  class UIPlay {
    const tableau: seq<Pile>
    const foundation: seq<Pile>
    const stock: Pile
    const waste: Pile
    var undoManager: UndoManager
    var score: int
    var moves: int

    /** Inspector default of the column spacing. */
    const tableauOffset := 35

    /** Every pile: the seven columns, the four foundations, stock and waste. */
    function Piles(): seq<Pile> {
      tableau + foundation + [stock, waste]
    }

    /** The position of a pile in `Piles()`. */
    ghost function Index(p: Pile): (i: nat)
      requires p in Piles()
      ensures i < |Piles()| && Piles()[i] == p
    {
      var i :| 0 <= i < |Piles()| && Piles()[i] == p; i
    }

    ghost function Layout(): seq<seq<Card>>
      reads Piles()
    {
      Contents(Piles())
    }

    /** All cards on the table, with multiplicity. */
    ghost function Deck(): multiset<Card>
      reads Piles()
    {
      Total(Layout())
    }

    ghost function Cards(): set<Card>
      reads Piles()
    {
      set c | c in Deck()
    }

    /** Seven tableau piles, four foundations and two more piles, all distinct. */
    ghost predicate Shape() {
      |tableau| == 7 && |foundation| == 4 && NoDup(Piles())
    }

    /** A card node has one parent: each card lies in exactly one pile, once. */
    ghost predicate Valid()
      reads Piles()
    {
      Shape() && Unique(Deck())
    }

    /** The component as the scene creates it: its root nodes have no
        children, the score and move counters are 0. */
    constructor ()
      ensures Shape() && forall p :: p in Piles() ==> p.cards == []
      ensures score == 0 && moves == 0 && fresh(Piles())
    {
      var ps := NewPiles(13);
      tableau := ps[..7];
      foundation := ps[7..11];
      stock := ps[11];
      waste := ps[12];
      undoManager := new UndoManager();
      score := 0;
      moves := 0;
      new;
      assert Piles() == ps;
    }

    /** `start()`, that is `initGame`: a new undo history, and a deal of
        the shuffled deck in which column c gets c + 1 cards, only the last
        face-up, and the other 24 cards go face-down to the stock. The deck
        is the factory's, given here as an argument. */
    method InitGame(deck: seq<Card>)
      requires Shape() && forall p :: p in Piles() ==> p.cards == []
      requires |deck| == 52 && NoDup(deck)
      modifies this, Piles(), deck
      ensures Valid()
      ensures fresh(undoManager) && undoManager.stack == []
      ensures score == old(score) && moves == old(moves)
      ensures Layout() == DealtLayout(deck) && Deck() == multiset(deck)
      ensures forall c :: 0 <= c < 7 ==> TopOnlyFaceUp(tableau[c].cards)
      ensures forall k :: 0 <= k < |stock.cards| ==> !stock.cards[k].isFaceUp
    {
      undoManager := new UndoManager();
      Deal(deck);
      DealtLayoutTotal(deck);
      NoDupUnique(deck);
    }

    /** The two dealing loops of `initGame`. */
    method Deal(deck: seq<Card>)
      requires Shape() && |deck| == 52 && NoDup(deck)
      requires forall p :: p in Piles() ==> p.cards == []
      modifies Piles(), deck
      ensures Layout() == DealtLayout(deck)
      ensures forall c :: 0 <= c < 7 ==> TopOnlyFaceUp(tableau[c].cards)
      ensures forall k :: 0 <= k < |stock.cards| ==> !stock.cards[k].isFaceUp
    {
      ShapeFacts();
      var rest := DealTableau(deck);
      SliceIn(deck, 28, 52);
      FillStock(rest);
      forall c | 0 <= c < 7
        ensures TopOnlyFaceUp(tableau[c].cards)
      {
        ColumnNotStock(deck, c);
      }
      LayoutOfDeal(deck);
    }

    /** The piles as `initGame` leaves them make up `DealtLayout`. */
    lemma LayoutOfDeal(deck: seq<Card>)
      requires Shape() && |deck| == 52
      requires forall c :: 0 <= c < 7 ==> tableau[c].cards == Column(deck, c)
      requires forall b :: 0 <= b < 4 ==> foundation[b].cards == []
      requires stock.cards == deck[28..] && waste.cards == []
      ensures Layout() == DealtLayout(deck)
    {
      ShapeFacts();
      var l := DealtLayout(deck);
      assert forall r :: 0 <= r < 7 ==> l[r] == Column(deck, r);
      assert forall r :: 7 <= r < 11 ==> l[r] == [];
      assert l[11] == deck[28..] && l[12] == [];
      assert forall r :: 0 <= r < 13 ==> Layout()[r] == l[r];
    }

    /** The tableau loop of `initGame`: `deck.shift()` into column after
        column, the last card of each column face-up. */
    method DealTableau(deck: seq<Card>) returns (rest: seq<Card>)
      requires Shape() && |deck| == 52 && NoDup(deck)
      requires forall c :: 0 <= c < 7 ==> tableau[c].cards == []
      modifies tableau, deck
      ensures rest == deck[28..]
      ensures forall c :: 0 <= c < 7 ==> tableau[c].cards == Column(deck, c) && TopOnlyFaceUp(Column(deck, c))
    {
      ShapeFacts();
      rest := deck;
      for col := 0 to 7
        invariant rest == deck[Start(col)..]
        invariant forall c :: 0 <= c < col ==> tableau[c].cards == Column(deck, c) && TopOnlyFaceUp(Column(deck, c))
        invariant forall c :: col <= c < 7 ==> tableau[c].cards == []
      {
        ColumnIn(deck, col);
        assert tableau[col] in tableau;
        label before:
        rest := DealColumn(deck, col, rest);
        forall c | 0 <= c < col
          ensures TopOnlyFaceUp(Column(deck, c))
        {
          ColumnsDisjoint(deck, c, col);
          var column := Column(deck, c);
          forall k | 0 <= k < |column|
            ensures column[k].isFaceUp == old@before(column[k].isFaceUp)
          {
            assert column[k] in column;
          }
        }
      }
    }

    /** One pass of the inner tableau loop: column `col` takes the next
        col + 1 cards, all face-down except the last. */
    method DealColumn(deck: seq<Card>, col: nat, rest: seq<Card>) returns (rest': seq<Card>)
      requires Shape() && |deck| == 52 && NoDup(deck) && col < 7
      requires rest == deck[Start(col)..]
      requires tableau[col].cards == []
      modifies tableau[col], Column(deck, col)
      ensures rest' == deck[Start(col + 1)..]
      ensures tableau[col].cards == Column(deck, col) && TopOnlyFaceUp(Column(deck, col))
    {
      StartStep(col);
      var column := Column(deck, col);
      var pile := tableau[col];
      rest' := rest;
      for j := 0 to col + 1
        invariant rest' == deck[Start(col) + j..]
        invariant pile.cards == column[..j]
        invariant forall k :: 0 <= k < j ==> (column[k].isFaceUp <==> k == col)
      {
        assert rest'[0] == column[j];
        rest' := rest'[1..];
        DealCard(column, col, j);
      }
      assert column[..col + 1] == column;
    }

    /** One step of the column loop of `initGame`: card j joins column col,
        face-up only when it is the last one. */
    method DealCard(column: seq<Card>, col: nat, j: nat)
      requires Shape() && col < 7 && j <= col && |column| == col + 1 && NoDup(column)
      requires tableau[col].cards == column[..j]
      modifies tableau[col], column[j]
      ensures tableau[col].cards == column[..j + 1]
      ensures column[j].isFaceUp <==> j == col
    {
      var card := column[j];
      var pile := tableau[col];
      assert card !in column[..j];
      pile.AddCard(card, null);
      assert column[..j + 1] == column[..j] + [card];
      if j == col {
        card.FlipFaceUp();
      } else {
        card.FlipFaceDown();
      }
    }

    /** The stock loop of `initGame`: every remaining card, in order, face-down. */
    method FillStock(deck: seq<Card>)
      requires Shape() && stock.cards == [] && NoDup(deck)
      modifies stock, deck
      ensures stock.cards == deck
      ensures forall k :: 0 <= k < |deck| ==> !deck[k].isFaceUp
    {
      for k := 0 to |deck|
        invariant stock.cards == deck[..k]
        invariant forall m :: 0 <= m < k ==> !deck[m].isFaceUp
      {
        stock.AddCard(deck[k], null);
        assert deck[..k + 1] == deck[..k] + [deck[k]];
        deck[k].FlipFaceDown();
      }
      assert deck[..|deck|] == deck;
    }

    /** The pile fields name thirteen different piles. */
    lemma ShapeFacts()
      requires Shape()
      ensures forall a :: 0 <= a < 7 ==> tableau[a] == Piles()[a]
      ensures forall b :: 0 <= b < 4 ==> foundation[b] == Piles()[7 + b]
      ensures stock == Piles()[11] && waste == Piles()[12]
      ensures forall a, b :: 0 <= a < b < 7 ==> tableau[a] != tableau[b]
      ensures forall a, b :: 0 <= a < b < 4 ==> foundation[a] != foundation[b]
      ensures forall a, b :: 0 <= a < 7 && 0 <= b < 4 ==> tableau[a] != foundation[b]
      ensures stock !in tableau && stock !in foundation && waste !in tableau && waste !in foundation && stock != waste
    {
      var ps := Piles();
      assert forall a :: 0 <= a < 7 ==> tableau[a] == ps[a];
      assert forall b :: 0 <= b < 4 ==> foundation[b] == ps[7 + b];
    }

    /** The pile fields sit at their own positions in `Piles()`. */
    lemma IndexFacts()
      requires Shape()
      ensures forall a :: 0 <= a < 7 ==> Index(tableau[a]) == a
      ensures forall b :: 0 <= b < 4 ==> Index(foundation[b]) == 7 + b
      ensures Index(stock) == 11 && Index(waste) == 12
    {
      ShapeFacts();
      forall r | 0 <= r < 13
        ensures Index(Piles()[r]) == r
      {
      }
    }

    lemma InDeck(p: Pile, c: Card)
      requires p in Piles() && c in p.cards
      ensures c in Cards()
    {
      var i := Index(p);
      TotalPart(Layout(), i);
      assert Layout()[i] == p.cards;
    }

    lemma PileNoDup(p: Pile)
      requires Valid() && p in Piles()
      ensures NoDup(p.cards)
    {
      var i := Index(p);
      UniqueRows(Layout(), i, i);
    }

    /** `flipFaceUp` on a card, which leaves every pile as it is. */
    method TurnUp(card: Card)
      modifies card
      ensures card.isFaceUp
      ensures Layout() == old(Layout()) && Valid() == old(Valid())
    {
      card.FlipFaceUp();
    }

    /** `flipFaceDown` on a card, which leaves every pile as it is. */
    method TurnDown(card: Card)
      modifies card
      ensures !card.isFaceUp
      ensures Layout() == old(Layout()) && Valid() == old(Valid())
    {
      card.FlipFaceDown();
    }

    /** `undoManager.pushMove`, which leaves every pile as it is. */
    method Record(move: UndoMove)
      modifies undoManager
      ensures undoManager.stack == old(undoManager.stack) + [move]
      ensures Layout() == old(Layout()) && Valid() == old(Valid())
    {
      undoManager.PushMove(move);
    }

    method AddScore(s: int)
      modifies this
      ensures score == old(score) + s && moves == old(moves) && undoManager == old(undoManager)
      ensures Layout() == old(Layout()) && Valid() == old(Valid())
    {
      score := score + s;
    }

    method AddMoves(m: int)
      modifies this
      ensures moves == old(moves) + m && score == old(score) && undoManager == old(undoManager)
      ensures Layout() == old(Layout()) && Valid() == old(Valid())
    {
      moves := moves + m;
    }

    /** `getStackFrom`: the cards from `card` to the top of its pile. */
    function GetStackFrom(pile: Pile, card: Card): (stack: seq<Card>)
      reads pile
      requires card in pile.cards
      ensures 0 < |stack| <= |pile.cards| && stack[0] == card
      ensures pile.cards == pile.cards[..|pile.cards| - |stack|] + stack
      ensures card !in pile.cards[..|pile.cards| - |stack|]
    {
      pile.cards[IndexOf(pile.cards, card)..]
    }

    /** The cards on the table are objects of the heap. */
    lemma CardsAllocated()
      ensures forall c :: c in Cards() ==> allocated(c)
    {
      forall c | c in Cards()
        ensures allocated(c)
      {
        var r := TotalRow(Layout(), c);
        assert c in Piles()[r].cards;
      }
    }

    /** One reparenting, `node.setParent(target.node)`, of a card of `from`. */
    method MoveCard(x: Card, from: Pile, target: Pile)
      requires Shape() && from in Piles() && target in Piles() && x in from.cards
      modifies from, target
      ensures Layout() == MoveOne(old(Layout()), Index(from), Index(target), x)
    {
      ghost var ps := Piles();
      ghost var i, j := Index(from), Index(target);
      ghost var before := Layout();
      target.AddCard(x, from);
      ghost var after := MoveOne(before, i, j, x);
      forall r | 0 <= r < 13
        ensures Layout()[r] == after[r]
      {
        if i == j {
          assert after == before;
        } else if r == j {
          assert after[r] == before[j] + [x];
        } else if r == i {
          assert after[r] == Remove(before[i], x);
        } else {
          assert ps[r] != from && ps[r] != target;
        }
      }
    }

    /** `onClickStock`: the top stock card is turned face-up and moved onto
        the waste; with an empty stock the waste is recycled instead. */
    method OnClickStock() returns (ghost drawn: Option<Card>)
      requires Valid()
      modifies Piles(), Cards()
      ensures Valid() && Deck() == old(Deck())
      ensures drawn == old(stock.GetTopCard())
      ensures drawn.Some? ==> Layout() == MoveOne(old(Layout()), 11, 12, drawn.value)
      ensures drawn.Some? ==> stock.cards == old(stock.cards)[..|old(stock.cards)| - 1]
      ensures drawn.Some? ==> waste.cards == old(waste.cards) + [drawn.value] && drawn.value.isFaceUp
      ensures drawn.Some? ==> forall c: Card :: old(allocated(c)) && c != drawn.value ==> c.isFaceUp == old(c.isFaceUp)
      ensures drawn.None? ==> Layout() == Moved(old(Layout()), 12, 11, Reverse(old(waste.cards)))
      ensures drawn.None? ==> stock.cards == Reverse(old(waste.cards)) && waste.cards == []
      ensures drawn.None? ==> forall c :: c in old(waste.cards) ==> !c.isFaceUp
      ensures drawn.None? ==> forall c: Card :: old(allocated(c)) && c !in old(waste.cards) ==> c.isFaceUp == old(c.isFaceUp)
    {
      var last := stock.GetTopCard();
      drawn := last;
      if last.None? {
        RecycleWasteToStock();
        return;
      }
      DrawFromStock(last.value);
    }

    /** The non-empty branch of `onClickStock`. */
    method DrawFromStock(card: Card)
      requires Valid() && stock.cards != [] && card == stock.cards[|stock.cards| - 1]
      modifies Piles(), Cards()
      ensures Valid() && Deck() == old(Deck())
      ensures Layout() == MoveOne(old(Layout()), 11, 12, card)
      ensures stock.cards == old(stock.cards)[..|old(stock.cards)| - 1]
      ensures waste.cards == old(waste.cards) + [card] && card.isFaceUp
      ensures forall c: Card :: old(allocated(c)) && c != card ==> c.isFaceUp == old(c.isFaceUp)
    {
      IndexFacts();
      ghost var L0 := Layout();
      PileNoDup(stock);
      InDeck(stock, card);
      TurnUp(card);
      MoveCard(card, stock, waste);
      MoveOneConserves(L0, 11, 12, card);
      RemoveUnique(L0[11], |L0[11]| - 1);
    }

    /** `recycleWasteToStock`: the waste cards, the top one first, become
        children of the stock, each turned face-down. */
    method RecycleWasteToStock()
      requires Valid()
      modifies Piles(), Cards()
      ensures Valid() && Deck() == old(Deck())
      ensures Layout() == Moved(old(Layout()), 12, 11, Reverse(old(waste.cards)))
      ensures stock.cards == old(stock.cards) + Reverse(old(waste.cards)) && waste.cards == []
      ensures forall c :: c in old(waste.cards) ==> !c.isFaceUp
      ensures forall c: Card :: old(allocated(c)) && c !in old(waste.cards) ==> c.isFaceUp == old(c.isFaceUp)
    {
      IndexFacts();
      ghost var L0 := Layout();
      ghost var C0 := Cards();
      var cards := Reverse(waste.cards);
      PileNoDup(waste);
      ReverseNoDup(waste.cards);
      forall c | c in cards
        ensures c in C0
      {
        InDeck(waste, c);
      }
      RecycleAll(cards, L0);
      MovedConserves(L0, 12, 11, cards);
      WithoutAll(L0[12], cards);
    }

    /** The loop of `recycleWasteToStock` over the reversed copy of the waste. */
    method RecycleAll(cards: seq<Card>, ghost L0: seq<seq<Card>>)
      requires Shape() && Layout() == L0
      requires NoDup(cards) && NoDup(L0[12]) && forall c :: c in cards ==> c in L0[12]
      modifies waste, stock, cards
      ensures Layout() == Moved(L0, 12, 11, cards)
      ensures forall m :: 0 <= m < |cards| ==> !cards[m].isFaceUp
    {
      MovedNothing(L0, 12, 11);
      assert cards[..0] == [];
      for k := 0 to |cards|
        invariant Layout() == Moved(L0, 12, 11, cards[..k])
        invariant forall m :: 0 <= m < k ==> !cards[m].isFaceUp
      {
        RecycleNext(cards, k, L0);
      }
      assert cards[..|cards|] == cards;
    }

    /** One pass of the `recycleWasteToStock` loop: `setParent(stock)` and
        then `flipFaceDown`. */
    method RecycleNext(cards: seq<Card>, k: nat, ghost L0: seq<seq<Card>>)
      requires Shape() && |L0| == 13 && k < |cards| && NoDup(cards)
      requires NoDup(L0[12]) && cards[k] in L0[12]
      requires Layout() == Moved(L0, 12, 11, cards[..k])
      requires forall m :: 0 <= m < k ==> !cards[m].isFaceUp
      modifies waste, stock, cards[k]
      ensures forall m :: 0 <= m <= k ==> !cards[m].isFaceUp
      ensures Layout() == Moved(L0, 12, 11, cards[..k + 1])
    {
      var card, done := cards[k], cards[..k];
      assert cards[..k + 1] == done + [card];
      IndexFacts();
      WithoutMember(L0[12], done, card);
      MoveCard(card, waste, stock);
      MovedStep(L0, 12, 11, done, card);
      TurnDownNext(cards, k);
    }

    /** The `flipFaceDown` of one pass: the cards recycled so far stay face-down. */
    method TurnDownNext(cards: seq<Card>, k: nat)
      requires k < |cards| && NoDup(cards)
      requires forall m :: 0 <= m < k ==> !cards[m].isFaceUp
      modifies cards[k]
      ensures forall m :: 0 <= m <= k ==> !cards[m].isFaceUp
      ensures Layout() == old(Layout())
    {
      TurnDown(cards[k]);
    }

    /** The table, counters and undo history once `moveStack` has carried
        `stack` from `from` to pile t and `points` were scored, given the
        layout L0, undo history U0, score s0 and moves m0 from before. The
        flip entry, if any, follows the move entry. */
    ghost predicate StackMoved(L0: seq<seq<Card>>, U0: seq<UndoMove>, s0: int, m0: int,
                               stack: seq<Card>, from: Pile, t: nat, points: int, flipped: Option<Card>)
      reads this, undoManager, Piles()
      requires Shape() && |L0| == 13 && from in Piles() && t < 13
    {
      Layout() == Moved(L0, Index(from), t, stack) && score == s0 + points && moves == m0 + |stack|
      && undoManager.stack == U0 + [UndoMove(stack, from, Piles()[t], None)] + FlipEntries(flipped)
    }

    /** Table, counters and undo history as they were. */
    ghost predicate Unmoved(L0: seq<seq<Card>>, U0: seq<UndoMove>, s0: int, m0: int)
      reads this, undoManager, Piles()
    {
      Layout() == L0 && score == s0 && moves == m0 && undoManager.stack == U0
    }

    /** The effect of `handleDrop` with the given outcome: a foundation move
        scores 10 points, a tableau move none, and a stack sent back leaves
        everything as it was. */
    ghost predicate Dropped(outcome: Drop, L0: seq<seq<Card>>, U0: seq<UndoMove>, s0: int, m0: int,
                            stack: seq<Card>, from: Pile, flipped: Option<Card>)
      reads this, undoManager, Piles()
      requires Shape() && |L0| == 13 && from in Piles()
    {
      match outcome
      case ToFoundation(b) => b < 4 && StackMoved(L0, U0, s0, m0, stack, from, 7 + b, 10, flipped)
      case ToTableau(t) => t < 7 && StackMoved(L0, U0, s0, m0, stack, from, t, 0, flipped)
      case Back => Unmoved(L0, U0, s0, m0) && flipped == None
    }

    /** `tryFlipLastCard` on the pile the stack leaves, called before any
        card of the stack has moved: a face-down last card of that pile is
        turned face-up after a flip entry recording that it was face-down. */
    method TryFlipLastCard(pile: Pile) returns (ghost flipped: Option<Card>)
      requires Valid() && pile in Piles()
      modifies undoManager, Top(pile.cards)
      ensures Valid() && Layout() == old(Layout()) && Deck() == old(Deck())
      ensures flipped == old(FaceDownTop(pile.cards))
      ensures flipped.Some? ==> flipped.value.isFaceUp
      ensures undoManager.stack == old(undoManager.stack) + FlipEntries(flipped)
      ensures forall c: Card :: old(allocated(c)) && Some(c) != flipped ==> c.isFaceUp == old(c.isFaceUp)
    {
      flipped := None;
      if |pile.cards| == 0 {
        return;
      }
      var last := pile.cards[|pile.cards| - 1];
      if !last.isFaceUp {
        InDeck(pile, last);
        Record(UndoMove([last], null, null, Some(FlipRecord(last, false))));
        TurnUp(last);
        flipped := Some(last);
      }
    }

    /** The tween callbacks of `moveStack` taken together: every card of the
        stack, in order, becomes a child of the target and counts one move. */
    method ReparentStack(stack: seq<Card>, from: Pile, target: Pile)
      requires Valid() && from in Piles() && target in Piles()
      requires NoDup(stack) && forall c :: c in stack ==> c in from.cards
      modifies this, from, target
      ensures Valid()
      ensures Layout() == Moved(old(Layout()), Index(from), Index(target), stack)
      ensures Deck() == old(Deck())
      ensures moves == old(moves) + |stack| && score == old(score) && undoManager == old(undoManager)
    {
      ghost var L0 := Layout();
      ghost var i, j := Index(from), Index(target);
      PileNoDup(from);
      MovedNothing(L0, i, j);
      assert stack[..0] == [];
      for k := 0 to |stack|
        invariant Shape()
        invariant Layout() == Moved(L0, i, j, stack[..k])
        invariant moves == old(moves) + k && score == old(score) && undoManager == old(undoManager)
      {
        assert stack[..k + 1] == stack[..k] + [stack[k]];
        ReparentNext(stack[k], from, target, L0, stack[..k]);
      }
      assert stack[..|stack|] == stack;
      MovedConserves(L0, i, j, stack);
    }

    /** One callback of `moveStack`: the next card of the stack joins the target. */
    method ReparentNext(card: Card, from: Pile, target: Pile, ghost L0: seq<seq<Card>>, ghost done: seq<Card>)
      requires Shape() && from in Piles() && target in Piles() && |L0| == 13
      requires NoDup(L0[Index(from)]) && card in L0[Index(from)] && card !in done
      requires Layout() == Moved(L0, Index(from), Index(target), done)
      modifies this, from, target
      ensures Layout() == Moved(L0, Index(from), Index(target), done + [card])
      ensures moves == old(moves) + 1 && score == old(score) && undoManager == old(undoManager)
    {
      WithoutMember(L0[Index(from)], done, card);
      MoveCard(card, from, target);
      MovedStep(L0, Index(from), Index(target), done, card);
      AddMoves(1);
    }

    /** `moveStack` with its tween callbacks taken as one step: the move is
        recorded for undo, `tryFlipLastCard` runs on the pile the stack
        leaves while the stack is still on it, and then, card by card, the
        stack becomes part of the target. */
    method MoveStack(stack: seq<Card>, target: Pile, from: Pile) returns (ghost flipped: Option<Card>)
      requires Valid() && from in Piles() && target in Piles()
      requires NoDup(stack) && forall c :: c in stack ==> c in from.cards
      modifies this, undoManager, Piles(), Cards()
      ensures Valid() && undoManager == old(undoManager) && score == old(score)
      ensures Layout() == Moved(old(Layout()), Index(from), Index(target), stack)
      ensures Deck() == old(Deck())
      ensures moves == old(moves) + |stack|
      ensures flipped == old(FaceDownTop(from.cards))
      ensures flipped.Some? ==> flipped.value.isFaceUp
      ensures undoManager.stack == old(undoManager.stack) + [UndoMove(stack, from, target, None)] + FlipEntries(flipped)
      ensures forall c: Card :: old(allocated(c)) && Some(c) != flipped ==> c.isFaceUp == old(c.isFaceUp)
    {
      if from.cards != [] {
        InDeck(from, from.cards[|from.cards| - 1]);
      }
      Record(UndoMove(stack, from, target, None));
      flipped := TryFlipLastCard(from);
      ReparentStack(stack, from, target);
    }

    /** `moveStack` onto foundation b followed by `addScore(10)`. */
    method MoveToFoundationAt(stack: seq<Card>, b: nat, from: Pile) returns (ghost flipped: Option<Card>)
      requires Valid() && from in Piles() && b < 4
      requires NoDup(stack) && forall c :: c in stack ==> c in from.cards
      modifies this, undoManager, Piles(), Cards()
      ensures Valid() && Deck() == old(Deck()) && undoManager == old(undoManager)
      ensures StackMoved(old(Layout()), old(undoManager.stack), old(score), old(moves), stack, from, 7 + b, 10, flipped)
      ensures forall c: Card :: old(allocated(c)) && Some(c) != flipped ==> c.isFaceUp == old(c.isFaceUp)
    {
      IndexFacts();
      flipped := MoveStack(stack, foundation[b], from);
      AddScore(10);
    }

    /** `tryAutoToFoundation`: the card alone goes to the first foundation
        that takes it, for 10 points; nothing happens when none does. */
    method TryAutoToFoundation(card: Card, from: Pile) returns (ghost flipped: Option<Card>)
      requires Valid() && from in Piles() && card in from.cards
      modifies this, undoManager, Piles(), Cards()
      ensures forall c: Card :: old(allocated(c)) && Some(c) != flipped ==> c.isFaceUp == old(c.isFaceUp)
      ensures Valid() && Deck() == old(Deck()) && undoManager == old(undoManager)
      ensures old(FirstFoundation(card, foundation, 0)).Some? ==> StackMoved(old(Layout()), old(undoManager.stack), old(score), old(moves),
        [card], from, 7 + old(FirstFoundation(card, foundation, 0)).value, 10, flipped)
      ensures old(FirstFoundation(card, foundation, 0)).None? ==>
        Unmoved(old(Layout()), old(undoManager.stack), old(score), old(moves)) && flipped == None
    {
      var b := 0;
      while b < 4 && !CanPlaceToFoundation(card, foundation[b])
        invariant b <= 4 && FirstFoundation(card, foundation, b) == FirstFoundation(card, foundation, 0)
      {
        b := b + 1;
      }
      if b == 4 {
        return None;
      }
      assert FirstFoundation(card, foundation, 0) == Some(b);
      flipped := MoveToFoundationAt([card], b, from);
    }

    /** `handleDrop` for a stack dragged out of `from`, whose first card is
        the dragged card. The drop position plays no part: the first
        foundation that takes the card gets the stack for 10 points, else
        the first tableau pile that takes it, else the stack goes back. */
    method HandleDrop(stack: seq<Card>, from: Pile) returns (ghost outcome: Drop, ghost flipped: Option<Card>)
      requires Valid() && from in Piles() && stack != []
      requires NoDup(stack) && forall c :: c in stack ==> c in from.cards
      modifies this, undoManager, Piles(), Cards()
      ensures Valid() && Deck() == old(Deck()) && undoManager == old(undoManager)
      ensures outcome == old(DropOutcome(stack[0], foundation, tableau))
      ensures Dropped(outcome, old(Layout()), old(undoManager.stack), old(score), old(moves), stack, from, flipped)
      ensures forall c: Card :: old(allocated(c)) && Some(c) != flipped ==> c.isFaceUp == old(c.isFaceUp)
    {
      var card := stack[0];
      var b := 0;
      while b < 4 && !CanPlaceToFoundation(card, foundation[b])
        invariant b <= 4 && FirstFoundation(card, foundation, b) == FirstFoundation(card, foundation, 0)
      {
        b := b + 1;
      }
      if b < 4 {
        outcome, flipped := DropOnFoundation(stack, from, b);
      } else {
        outcome, flipped := DropOnTableau(stack, from);
      }
    }

    /** `handleDrop` when foundation b is the first that takes the first
        card: the stack goes there for 10 points. */
    method DropOnFoundation(stack: seq<Card>, from: Pile, b: nat) returns (ghost outcome: Drop, ghost flipped: Option<Card>)
      requires Valid() && from in Piles() && stack != [] && b < 4
      requires NoDup(stack) && forall c :: c in stack ==> c in from.cards
      requires FirstFoundation(stack[0], foundation, 0) == Some(b)
      modifies this, undoManager, Piles(), Cards()
      ensures Valid() && Deck() == old(Deck()) && undoManager == old(undoManager)
      ensures outcome == old(DropOutcome(stack[0], foundation, tableau)) && outcome == ToFoundation(b)
      ensures Dropped(outcome, old(Layout()), old(undoManager.stack), old(score), old(moves), stack, from, flipped)
      ensures forall c: Card :: old(allocated(c)) && Some(c) != flipped ==> c.isFaceUp == old(c.isFaceUp)
    {
      flipped := MoveToFoundationAt(stack, b, from);
      outcome := ToFoundation(b);
    }

    /** The rest of `handleDrop` once no foundation took the stack: the
        first tableau pile that takes the first card receives the stack;
        otherwise the stack goes back to its pile. */
    method DropOnTableau(stack: seq<Card>, from: Pile) returns (ghost outcome: Drop, ghost flipped: Option<Card>)
      requires Valid() && from in Piles() && stack != []
      requires NoDup(stack) && forall c :: c in stack ==> c in from.cards
      requires FirstFoundation(stack[0], foundation, 0).None?
      modifies this, undoManager, Piles(), Cards()
      ensures Valid() && Deck() == old(Deck()) && undoManager == old(undoManager)
      ensures outcome == old(DropOutcome(stack[0], foundation, tableau)) && !outcome.ToFoundation?
      ensures Dropped(outcome, old(Layout()), old(undoManager.stack), old(score), old(moves), stack, from, flipped)
      ensures forall c: Card :: old(allocated(c)) && Some(c) != flipped ==> c.isFaceUp == old(c.isFaceUp)
    {
      var card := stack[0];
      var t := 0;
      while t < 7 && !CanPlaceToTableau(card, tableau[t])
        invariant t <= 7 && FirstTableau(card, tableau, t) == FirstTableau(card, tableau, 0)
      {
        t := t + 1;
      }
      ghost var d := DropOutcome(card, foundation, tableau);
      assert d == if t < 7 then ToTableau(t) else Back;
      if t < 7 {
        flipped := DropOnTableauAt(stack, from, t);
        outcome := ToTableau(t);
        return;
      }
      ResetStack(stack, from);
      outcome, flipped := Back, None;
    }

    /** `handleDrop` when tableau pile t is the one that takes the stack. */
    method DropOnTableauAt(stack: seq<Card>, from: Pile, t: nat) returns (ghost flipped: Option<Card>)
      requires Valid() && from in Piles() && t < 7
      requires NoDup(stack) && forall c :: c in stack ==> c in from.cards
      modifies this, undoManager, Piles(), Cards()
      ensures Valid() && Deck() == old(Deck()) && undoManager == old(undoManager)
      ensures Dropped(ToTableau(t), old(Layout()), old(undoManager.stack), old(score), old(moves), stack, from, flipped)
      ensures forall c: Card :: old(allocated(c)) && Some(c) != flipped ==> c.isFaceUp == old(c.isFaceUp)
    {
      IndexFacts();
      flipped := MoveStack(stack, tableau[t], from);
    }

    /** `resetStack`: each card of the stack is made a child of its
        original pile again, which it still is, so no pile changes. */
    method ResetStack(stack: seq<Card>, parent: Pile)
      requires Valid() && parent in Piles()
      requires forall c :: c in stack ==> c in parent.cards
      modifies parent
      ensures Valid() && Layout() == old(Layout()) && Deck() == old(Deck())
    {
      for i := 0 to |stack|
        invariant parent.cards == old(parent.cards)
      {
        parent.AddCard(stack[i], parent);
      }
      assert Layout() == old(Layout()) by {
        forall r | 0 <= r < 13
          ensures Layout()[r] == old(Layout())[r]
        {
        }
      }
    }

    /** `onUndo`: one entry leaves the undo history. On an empty history the
        game reads a field of `undefined` and throws (`thrown`). A flip
        entry gives its card the face it records. A move entry only starts
        the tweens back to the old positions: the line that would restore
        the old parent is commented out, so no pile changes. */
    method OnUndo() returns (thrown: bool, ghost entry: Option<UndoMove>)
      requires Valid()
      modifies undoManager, FlipTarget(undoManager.stack)
      ensures undoManager == old(undoManager) && score == old(score) && moves == old(moves)
      ensures (entry, undoManager.stack) == UndoStack.Pop(old(undoManager.stack))
      ensures thrown <==> entry.None?
      ensures Valid() && Layout() == old(Layout())
      ensures entry.Some? && entry.value.flip.Some? ==> entry.value.flip.value.card.isFaceUp == entry.value.flip.value.wasFaceUp
      ensures forall c: Card :: old(allocated(c)) && c !in old(FlipTarget(undoManager.stack)) ==> c.isFaceUp == old(c.isFaceUp)
    {
      var action := undoManager.Pop();
      entry := action;
      if action.None? {
        return true, entry;
      }
      thrown := false;
      var move := action.value;
      if move.flip.Some? {
        var c := move.flip.value.card;
        if move.flip.value.wasFaceUp {
          TurnUp(c);
        } else {
          TurnDown(c);
        }
      }
    }
  }

  /** Undoing right after a move that turned a card gives back the flip
      entry, whose card is to be turned face-down again, and leaves the
      move entry in the history. */
  lemma UndoAfterFlip(U: seq<UndoMove>, m: UndoMove, c: Card)
    ensures UndoStack.Pop(U + [m] + FlipEntries(Some(c))) == (Some(UndoMove([c], null, null, Some(FlipRecord(c, false)))), U + [m])
    ensures FlipTarget(U + [m] + FlipEntries(Some(c))) == {c}
  {
    assert U + [m] + FlipEntries(Some(c)) == Push(U + [m], UndoMove([c], null, null, Some(FlipRecord(c, false))));
    PopPush(U + [m], UndoMove([c], null, null, Some(FlipRecord(c, false))));
  }

  /** The first pile of `fs`, from position b on, that takes the card as a
      foundation (the `for ... of this.foundation` scans). */
  function FirstFoundation(card: Card, fs: seq<Pile>, b: nat): (r: Option<nat>)
    reads fs
    requires b <= |fs|
    ensures r.Some? ==> b <= r.value < |fs|
    decreases |fs| - b
  {
    if b == |fs| then None
    else if CanPlaceToFoundation(card, fs[b]) then Some(b)
    else FirstFoundation(card, fs, b + 1)
  }

  /** The scan finds the first foundation from b on that takes the card,
      and finds nothing exactly when none does. */
  lemma {:induction false} FirstFoundationSpec(card: Card, fs: seq<Pile>, b: nat)
    requires b <= |fs|
    ensures var r := FirstFoundation(card, fs, b);
      r.Some? ==> CanPlaceToFoundation(card, fs[r.value]) && forall k :: b <= k < r.value ==> !CanPlaceToFoundation(card, fs[k])
    ensures FirstFoundation(card, fs, b).None? <==> forall k :: b <= k < |fs| ==> !CanPlaceToFoundation(card, fs[k])
    decreases |fs| - b
  {
    if b < |fs| && !CanPlaceToFoundation(card, fs[b]) {
      FirstFoundationSpec(card, fs, b + 1);
    }
  }

  /** The first pile of `ts`, from position t on, that takes the card as a
      tableau pile (the `for ... of this.tableau` scan). */
  function FirstTableau(card: Card, ts: seq<Pile>, t: nat): (r: Option<nat>)
    reads ts
    requires t <= |ts|
    ensures r.Some? ==> t <= r.value < |ts|
    decreases |ts| - t
  {
    if t == |ts| then None
    else if CanPlaceToTableau(card, ts[t]) then Some(t)
    else FirstTableau(card, ts, t + 1)
  }

  /** The scan finds the first tableau pile from t on that takes the card,
      and finds nothing exactly when none does. */
  lemma {:induction false} FirstTableauSpec(card: Card, ts: seq<Pile>, t: nat)
    requires t <= |ts|
    ensures var r := FirstTableau(card, ts, t);
      r.Some? ==> CanPlaceToTableau(card, ts[r.value]) && forall k :: t <= k < r.value ==> !CanPlaceToTableau(card, ts[k])
    ensures FirstTableau(card, ts, t).None? <==> forall k :: t <= k < |ts| ==> !CanPlaceToTableau(card, ts[k])
    decreases |ts| - t
  {
    if t < |ts| && !CanPlaceToTableau(card, ts[t]) {
      FirstTableauSpec(card, ts, t + 1);
    }
  }

  /** Where `handleDrop` puts a dropped stack. */
  datatype Drop = ToFoundation(b: nat) | ToTableau(t: nat) | Back

  /** The decision of `handleDrop` for a stack whose first card is `card`. */
  function DropOutcome(card: Card, foundation: seq<Pile>, tableau: seq<Pile>): (d: Drop)
    reads foundation, tableau
    ensures d.ToFoundation? ==> d.b < |foundation|
    ensures d.ToTableau? ==> d.t < |tableau|
  {
    match FirstFoundation(card, foundation, 0)
    case Some(b) => ToFoundation(b)
    case None =>
      match FirstTableau(card, tableau, 0)
      case Some(t) => ToTableau(t)
      case None => Back
  }

  /** Foundations come first: the stack goes to the first foundation that
      takes the card, if there is one; otherwise to the first tableau pile
      that takes it; and back only when no pile at all takes it. */
  lemma DropOutcomeSpec(card: Card, foundation: seq<Pile>, tableau: seq<Pile>)
    ensures var d := DropOutcome(card, foundation, tableau);
      d.ToFoundation? <==> exists k :: 0 <= k < |foundation| && CanPlaceToFoundation(card, foundation[k])
    ensures var d := DropOutcome(card, foundation, tableau);
      d.ToFoundation? ==> CanPlaceToFoundation(card, foundation[d.b]) && forall k :: 0 <= k < d.b ==> !CanPlaceToFoundation(card, foundation[k])
    ensures var d := DropOutcome(card, foundation, tableau);
      d.ToTableau? ==> CanPlaceToTableau(card, tableau[d.t]) && forall k :: 0 <= k < d.t ==> !CanPlaceToTableau(card, tableau[k])
    ensures DropOutcome(card, foundation, tableau).Back? <==> NoneAccepts(card, foundation, tableau)
  {
    FirstFoundationSpec(card, foundation, 0);
    FirstTableauSpec(card, tableau, 0);
  }

  /** No foundation and no tableau pile takes the card. */
  predicate NoneAccepts(card: Card, foundation: seq<Pile>, tableau: seq<Pile>)
    reads foundation, tableau
  {
    (forall k :: 0 <= k < |foundation| ==> !CanPlaceToFoundation(card, foundation[k]))
    && forall k :: 0 <= k < |tableau| ==> !CanPlaceToTableau(card, tableau[k])
  }

  /** Only the last card of the sequence is face-up (a freshly dealt column). */
  ghost predicate TopOnlyFaceUp(s: seq<Card>)
    reads s
  {
    forall k :: 0 <= k < |s| ==> (s[k].isFaceUp <==> k == |s| - 1)
  }
}
