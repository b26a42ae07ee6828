/** The undo record and undo manager of the older game tree
    (`UndoManager.ts`). Card positions are not modelled. */
module OldUndo {
  import opened Wrappers
  import opened UndoStack
  import opened OldCard
  import opened OldPile

  /** The optional `flip` part: the card that was turned and its face before. */
  datatype FlipRecord = FlipRecord(card: Card, wasFaceUp: bool)

  /** One undo entry: the cards moved, the pile they left and the pile they
      went to. A flip entry names the pile component of a card node, which
      does not exist, so its piles are null. */
  datatype UndoMove = UndoMove(cards: seq<Card>, from: Pile?, to: Pile?, flip: Option<FlipRecord>)

  class UndoManager {
    var stack: seq<UndoMove>

    constructor ()
      ensures stack == []
    {
      stack := [];
    }

    method PushMove(move: UndoMove)
      modifies this
      ensures stack == Push(old(stack), move)
    {
      stack := stack + [move];
    }

    /** Removes and returns the newest entry; None (undefined) when empty. */
    method Pop() returns (move: Option<UndoMove>)
      modifies this
      ensures (move, stack) == UndoStack.Pop(old(stack))
    {
      if |stack| == 0 {
        return None;
      }
      move := Some(stack[|stack| - 1]);
      stack := stack[..|stack| - 1];
    }
  }
}
