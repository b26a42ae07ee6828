/** The undo record and undo manager of the newer game tree
    (`logic/UndoManager.ts`). Card positions are not modelled. */
module LogicUndo {
  import opened Wrappers
  import opened UndoStack
  import opened LogicCard
  import opened LogicPile

  /** The optional `flip` part: the card that was turned and its face before. */
  datatype FlipRecord = FlipRecord(card: Card, wasFaceUp: bool)

  /** One undo entry: the cards moved, the pile they left and the pile they went to. */
  datatype UndoMove = UndoMove(cards: seq<Card>, from: Pile, to: Pile, flip: Option<FlipRecord>)

  class UndoManager {
    var stack: seq<UndoMove>

    constructor ()
      ensures stack == []
    {
      stack := [];
    }

    method PushMove(move: UndoMove)
      modifies this
      ensures stack == Push(old(stack), move)
    {
      stack := stack + [move];
    }

    /** Removes and returns the newest entry; None (undefined) when empty. */
    method Pop() returns (move: Option<UndoMove>)
      modifies this
      ensures (move, stack) == UndoStack.Pop(old(stack))
    {
      if |stack| == 0 {
        return None;
      }
      move := Some(stack[|stack| - 1]);
      stack := stack[..|stack| - 1];
    }

    /** Truncates the stack to length 0. */
    method Clear()
      modifies this
      ensures stack == [] && Size() == 0
    {
      stack := [];
    }

    /** `size()`: the number of entries, 0 exactly when nothing is left to undo. */
    function Size(): (n: nat)
      reads this
      ensures n == 0 <==> UndoStack.Pop(stack).0.None?
      ensures n > 0 ==> |UndoStack.Pop(stack).1| == n - 1
    {
      |stack|
    }
  }
}
