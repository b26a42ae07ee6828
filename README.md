# Klondike solitaire core, modelled in Dafny

This project models the game logic of a Cocos Creator Klondike solitaire in
TypeScript. There are two generations of the game.

- The newer one (`assets/game1/script/logic/`) has cards, piles, the undo
  stack, the card factory, the win checker, the placement rules, the play
  controller and an automatic solver.
- The older one (`assets/game1/script/`) has its own cards, piles, undo stack
  and play controller.

Beside the game the project models a few shared components:

- the two native hot-update components, each a flag machine around the
  engine's assets manager, with their version comparator;
- the timer formatter of the rolling-number label;
- the page switcher and the sprite-frame index behaviours;
- the language manager and its string tables;
- the argument resolution of the resource loader.

The game is modelled as it runs.

- Each card is an object with a face state the flips update.
- Each pile is an object whose `cards` sequence is its node's child list. A
  reparenting (`setParent`, `node.parent =`) removes the card from its old
  pile and appends it to the new one.
- The play controller holds the thirteen piles: seven tableau piles, four
  foundations, the stock and the waste.

Every state-changing operation is a method. Its contract states the new
layout of all thirteen piles, the score, the move count and the undo stack,
all as functions of the old state. It also states that no card changes face
except the one named. `Valid()` is the invariant every operation keeps: the
pile objects are distinct, and every card lies in exactly one pile.

The searches in the controller and the solver are `while` loops. Each is
proved equal to a recursive specification function. A lemma then proves
what that function finds: the first pile that qualifies, and that no earlier
pile does. The solver's `doOneStep` is specified by `Plan`, a function that
names the step the seven-phase cascade takes. `Effect` describes the step's
effect on the piles.

Randomness (the Fisher–Yates shuffle, the solver's random swaps) is modelled
as an arbitrary choice within the game's bounds. The card factory's shuffle
records its choices in a ghost sequence, so its result is stated exactly as
the permutation those choices apply. The solver's reshuffle records nothing:
its contract states only that the face-down cards are permuted among their
slots (`ShuffleOf`). Anything
that comes from outside the game is a parameter of the method that receives
it:

- the assets manager's events, whether the manifest loaded, and whether the
  build is native;
- language-pack loads, whose settling is a parameter;
- which piles lie near a dropped card.

What the component asks of the engine is returned as a list of requests or
calls.

Integers are unbounded. JavaScript's `%` keeps the sign of the dividend, and
it is written out as `JsRem` where a negative operand can reach it. Timer
values are reals cut down with `Floor`.

## Model

| member | source | states |
|---|---|---|
| LogicCard.IncludesIn | assets/game1/script/logic/Card.ts:30-32 | the lodash membership test is sequence membership |
| LogicCard.ColorOf | assets/game1/script/logic/Card.ts:30-32 | `getColor` answers `red` or `bla`, nothing else |
| LogicCard.ColorOfRed | assets/game1/script/logic/Card.ts:30-32 | a suit is red exactly when it is `hx` or `fk` |
| LogicCard.Card.GetColor | assets/game1/script/logic/Card.ts:30-32 | the card's colour is `red` or `bla`, `red` exactly for the suits `hx` and `fk` |
| LogicCard.SuitColors | assets/game1/script/logic/Card.ts:8-32 | the first two suits of `suits` are red and the last two black; different colours mean different suits |
| LogicCard.Card.Init | assets/game1/script/logic/Card.ts:19-28 | the card takes the given suit and rank and starts face down |
| LogicCard.Card.FlipFaceUp | assets/game1/script/logic/Card.ts:64-75 | afterwards the card is face up; a face-up card is left untouched |
| LogicCard.Card.FlipFaceDown | assets/game1/script/logic/Card.ts:77-88 | afterwards the card is face down; a face-down card is left untouched |
| CardRank.RankKeyRoundTrip | assets/game1/script/logic/Card.ts:57-62 | reading a rank label back gives the rank, for every integer rank |
| CardRank.RankToKey | assets/game1/script/logic/Card.ts:57-62 | the label is a single capital letter exactly for the ace and court ranks; every other rank is written as decimal text that reads back as the rank |
| CardRank.RankToKeyInjective | assets/game1/script/logic/Card.ts:57-62 | two ranks with the same label are equal |
| CardRank.RankToKeyValues | assets/game1/script/Card.ts:45-50 | 1, 11, 12 and 13 are A, J, Q and K; 2 to 10 are their decimals |
| LogicPile.Pile.constructor | assets/game1/script/logic/Pile.ts:7-10 | a new pile is empty and has none of the four role flags set |
| LogicPile.Pile.GetTopCard | assets/game1/script/logic/Pile.ts:12-15 | `None` exactly for an empty pile, otherwise its last card |
| LogicPile.Pile.AddCard | assets/game1/script/logic/Pile.ts:17-19 | the card is appended and taken out of its previous pile; re-adding to the same pile changes nothing; the role flags are kept |
| LogicPile.Pile.SetSiblingIndexOf | assets/game1/script/logic/AutoSolver.ts:280-283 | the pile's order becomes the card moved to the given index, the others keeping their order |
| LogicUndo.UndoManager.constructor | assets/game1/script/logic/UndoManager.ts:17 | the stack starts empty |
| LogicUndo.UndoManager.PushMove | assets/game1/script/logic/UndoManager.ts:19-21 | the move is pushed on top |
| LogicUndo.UndoManager.Pop | assets/game1/script/logic/UndoManager.ts:23-25 | the top move is returned and removed; an empty stack gives `None` and stays empty |
| LogicUndo.UndoManager.Clear | assets/game1/script/logic/UndoManager.ts:27-34 | the stack is empty and its size is 0 |
| LogicUndo.UndoManager.Size | assets/game1/script/logic/UndoManager.ts:32-34 | 0 exactly when a pop would give nothing; otherwise one pop leaves one entry fewer |
| UndoStack.Pop | assets/game1/script/logic/UndoManager.ts:23-25 | `None` exactly on an empty stack, otherwise the last entry with the rest below it |
| UndoStack.PopPush | assets/game1/script/logic/UndoManager.ts:19-25 | popping right after a push gives back that move and the old stack |
| UndoStack.PushAllPopN | assets/game1/script/logic/UndoManager.ts:19-25 | pushing moves and popping as many returns them in reverse order, over the old stack |
| LogicRules.ColorsDiffer | assets/game1/script/logic/UIPlay.ts:140-147 | two suits have different colour names exactly when one is red and the other not |
| LogicRules.CanPlaceToTableau | assets/game1/script/logic/UIPlay.ts:140-147 | an empty pile takes exactly a King; otherwise a card is accepted exactly when it and the top card form a run: other colour, one rank lower |
| LogicRules.TableauPlacement | assets/game1/script/logic/UIPlay.ts:140-147 | on an alternating descending run a card is accepted exactly when it extends the run; an empty pile takes exactly a King |
| LogicRules.CanPlaceToFoundation | assets/game1/script/logic/UIPlay.ts:150-155 | an empty foundation takes exactly an Ace; on a foundation built by the rules a card is accepted exactly when its rank is the pile's size plus one and its suit the foundation's |
| LogicRules.FoundationPlacement | assets/game1/script/logic/UIPlay.ts:150-155 | on a same-suit run from the Ace a card is accepted exactly when it extends the run |
| LogicFactory.StandardIds | assets/game1/script/logic/CardFactory.ts:13-24 | 52 identities, suit by suit in `suits` order, ranks 1 to 13 |
| LogicFactory.StandardDeckComplete | assets/game1/script/logic/CardFactory.ts:13-24 | the identities are distinct and include every suit with every rank 1 to 13 |
| LogicFactory.GenerateDeck | assets/game1/script/logic/CardFactory.ts:13-24 | fresh cards with exactly the standard identities in order, all face down, no card twice |
| LogicFactory.Swap | assets/game1/script/logic/CardFactory.ts:29 | the two entries of the array are exchanged, nothing else changes |
| LogicFactory.Shuffle | assets/game1/script/logic/CardFactory.ts:26-31 | the array becomes the Fisher–Yates result of the recorded choices, one per index from the last down to 1, each at most that index; the contents are kept as a multiset |
| LogicFactory.AppliedPermutes | assets/game1/script/logic/CardFactory.ts:26-31 | any valid choice sequence permutes the deck |
| LogicWin.WinChecker.constructor | assets/game1/script/logic/WinChecker.ts:9-10 | no game is attached and the checker is unlocked |
| LogicWin.WinChecker.Init | assets/game1/script/logic/WinChecker.ts:13-15 | the game is attached and the lock kept |
| LogicWin.WinChecker.CountFoundationCards | assets/game1/script/logic/WinChecker.ts:25-28 | the count is the number of cards on the four foundations |
| LogicWin.WinChecker.CheckWin | assets/game1/script/logic/WinChecker.ts:21-35 | locked afterwards exactly when locked before or the foundations hold 52 cards |
| LogicWin.WinChecker.Reset | assets/game1/script/logic/WinChecker.ts:38-40 | unlocked, game kept |
| LogicWin.CardCountTotal | assets/game1/script/logic/WinChecker.ts:25-28 | the count over the piles is the size of their combined contents |
| LogicWin.WonTable | assets/game1/script/logic/WinChecker.ts:30-31 | with 52 cards on the foundations of a valid 52-card game, every tableau pile, the stock and the waste are empty |
| Deal.DealtLayout | assets/game1/script/logic/UIPlay.ts:92-107 | the layout of a dealt deck has thirteen rows |
| Deal.DealtLayoutTotal | assets/game1/script/logic/UIPlay.ts:92-107 | the deal places every card of the deck exactly once |
| Deal.ColumnsDisjoint | assets/game1/script/logic/UIPlay.ts:92-101 | two tableau columns of a deal share no card |
| Deal.ColumnNotStock | assets/game1/script/logic/UIPlay.ts:92-107 | no tableau card is also in the stock |
| LogicPlay.UIPlay.constructor | assets/game1/script/logic/UIPlay.ts:14-41 | thirteen distinct empty piles, score and moves 0, an empty undo stack |
| LogicPlay.UIPlay.AddScore | assets/game1/script/logic/UIPlay.ts:59 | the score grows by the amount and nothing else changes |
| LogicPlay.UIPlay.AddMoves | assets/game1/script/logic/UIPlay.ts:60 | the move count grows by the amount and nothing else changes |
| LogicPlay.UIPlay.InitGame | assets/game1/script/logic/UIPlay.ts:65-110 | a fresh standard 52-card deck is shuffled and dealt: column c gets c+1 cards with only its top face up, the rest go face down to the stock; the undo stack is new and empty; score and moves are kept |
| LogicPlay.UIPlay.DealCard | assets/game1/script/logic/UIPlay.ts:93-100 | the next card of a column goes onto its pile, face up exactly when it is the column's last |
| LogicPlay.UIPlay.FillStock | assets/game1/script/logic/UIPlay.ts:104-107 | the stock holds the remaining cards in order, all face down |
| LogicPlay.UIPlay.RestartGame | assets/game1/script/logic/UIPlay.ts:113-129 | every pile is cleared, the old undo stack emptied and a new game dealt as by `initGame` |
| LogicPlay.UIPlay.ClearPiles | assets/game1/script/logic/UIPlay.ts:114-125 | afterwards every one of the thirteen piles is empty |
| LogicPlay.DestroyLoopNeverEnds | assets/game1/script/logic/UIPlay.ts:121-123 | with deferred destruction a non-empty pile keeps all its children after any number of turns, and only its first card is ever marked, so the loop does not end |
| LogicPlay.UIPlay.GetStackFrom | assets/game1/script/logic/UIPlay.ts:132-137 | the stack is the suffix of the pile starting at the card's first occurrence |
| LogicPlay.UIPlay.ComputeTableauOffsetForPile | assets/game1/script/logic/UIPlay.ts:327-335 | the default spacing while the column fits the visible height; otherwise the largest spacing with which it still fits, and 8 when none above 8 does |
| LogicPlay.UIPlay.TryFlipLastCard | assets/game1/script/logic/UIPlay.ts:353-372 | a face-down top card is turned up and a flip entry recorded; otherwise nothing changes; the layout is kept |
| LogicPlay.UIPlay.OnClickStock | assets/game1/script/logic/UIPlay.ts:158-170 | with cards in the stock its top goes face up onto the waste; with an empty stock the waste goes back reversed and face down |
| LogicPlay.UIPlay.RecycleWasteToStock | assets/game1/script/logic/UIPlay.ts:172-178 | the waste is appended to the stock in reverse order, face down, and the waste is empty |
| LogicPlay.UIPlay.MoveStack | assets/game1/script/logic/UIPlay.ts:270-322 | the stack moves from its pile to the target in order; moves grows by its length; a move entry and, if the old pile's new top was face down, a flip entry are recorded |
| LogicPlay.UIPlay.ReparentStack | assets/game1/script/logic/UIPlay.ts:287-311 | each card of the stack is reparented in turn, each adding one move |
| LogicPlay.UIPlay.MoveToFoundation | assets/game1/script/logic/UIPlay.ts:340-350 | succeeds exactly when some foundation accepts the card; then the card moves to the first such foundation, adding 10 points; otherwise nothing changes |
| LogicPlay.UIPlay.TryAutoToFoundation | assets/game1/script/logic/UIPlay.ts:181-190 | the card goes to the first accepting foundation with 10 points, or nothing changes |
| LogicPlay.UIPlay.HandleDrop | assets/game1/script/logic/UIPlay.ts:208-237 | the outcome is `DropOutcome`: first a near accepting foundation (10 points), else a near accepting tableau pile, else the stack springs back; the layout follows the outcome |
| LogicPlay.UIPlay.ResetStack | assets/game1/script/logic/UIPlay.ts:240-263 | the cards return under their pile: the layout and every invariant are kept |
| LogicPlay.UIPlay.MoveCard | assets/game1/script/logic/Pile.ts:17-19 | one card moves between two piles of the table and every other pile is unchanged |
| LogicPlay.FirstFoundation | assets/game1/script/logic/UIPlay.ts:183-189 | the index of the first foundation that accepts the card, no earlier one accepting; `None` exactly when none does |
| LogicPlay.FirstNearFoundation | assets/game1/script/logic/UIPlay.ts:213-219 | the first foundation that is near the drop and accepts the card; `None` exactly when none is |
| LogicPlay.FirstNear | assets/game1/script/logic/UIPlay.ts:222-233 | the first tableau pile near the drop; `None` exactly when none is |
| LogicPlay.DropOutcome | assets/game1/script/logic/UIPlay.ts:208-237 | a foundation drop exactly when a near foundation accepts; a tableau drop only on a near accepting pile; springing back otherwise |
| LogicPlay.NewShuffledDeck | assets/game1/script/logic/UIPlay.ts:88-89 | a fresh deck of 52 distinct cards that permutes a standard generated deck |
| LogicSolver.AutoSolver.constructor | assets/game1/script/logic/AutoSolver.ts:11-22 | attached to the game, not running, no retries, cycle counters at 0 and -1 |
| LogicSolver.AutoSolver.IsRunning | assets/game1/script/logic/AutoSolver.ts:25-27 | answers the running flag |
| LogicSolver.AutoSolver.Start | assets/game1/script/logic/AutoSolver.ts:30-36 | a running solver is left alone; otherwise it resets its counters and runs the first tick, which takes the step `Plan` names |
| LogicSolver.AutoSolver.Stop | assets/game1/script/logic/AutoSolver.ts:39-41 | the solver stops; the table and counters are kept |
| LogicSolver.AutoSolver.LoopTick | assets/game1/script/logic/AutoSolver.ts:44-56 | one tick takes the step `Plan` names; the solver keeps running exactly when a move was made |
| LogicSolver.AutoSolver.DoOneStep | assets/game1/script/logic/AutoSolver.ts:59-110 | the step taken is `Plan` of the old table and counters, with its `Effect` on the piles; a move is reported exactly when the step is neither a halt nor stuck |
| LogicSolver.RunningNeverHalts | assets/game1/script/logic/AutoSolver.ts:59-60 | a running solver's plan never halts |
| LogicSolver.LateStepDraws | assets/game1/script/logic/AutoSolver.ts:92-95 | when phases 1 to 4 find nothing, the tableau has no moves, so the draw of phase 5 is always tried |
| LogicSolver.AutoSolver.FoundationPhase | assets/game1/script/logic/AutoSolver.ts:62-74 | the waste top or the first tableau top some foundation takes goes there, as `FoundationStep` names; otherwise nothing changes |
| LogicSolver.AutoSolver.RunPhase | assets/game1/script/logic/AutoSolver.ts:76-82 | the first movable face-up run goes to its first target, as `RunStep` names |
| LogicSolver.AutoSolver.FlipPhase | assets/game1/script/logic/AutoSolver.ts:84-90 | the first face-down tableau top is turned up, as `FlipStep` names |
| LogicSolver.AutoSolver.DrawPhase | assets/game1/script/logic/AutoSolver.ts:92-95 | with no tableau move, a card is drawn or the waste recycled as `DrawChoice` names |
| LogicSolver.AutoSolver.BridgePhase | assets/game1/script/logic/AutoSolver.ts:97-101 | the first foundation top that unlocks a tableau pile is moved there, as `FirstBridge` names |
| LogicSolver.AutoSolver.ShufflePhase | assets/game1/script/logic/AutoSolver.ts:103-107 | below the retry limit with face-down cards, a retry is counted and the face-down cards are reshuffled in place |
| LogicSolver.AutoSolver.TryMoveTopToFoundation | assets/game1/script/logic/AutoSolver.ts:113-128 | succeeds exactly when the pile's top is face up and a foundation takes it; it then goes to the first such foundation |
| LogicSolver.TopMove | assets/game1/script/logic/AutoSolver.ts:113-128 | a foundation index exactly when the pile's top is face up and some foundation accepts it, and then the first one |
| LogicSolver.FirstTopMove | assets/game1/script/logic/AutoSolver.ts:69-74 | the first tableau pile whose top can go to a foundation, none before it; `None` exactly when none can |
| LogicSolver.AutoSolver.TryMoveTableauToTableau | assets/game1/script/logic/AutoSolver.ts:131-154 | succeeds exactly when `RunMove` finds a face-up card with a target pile, scanning from the top down; the run from it moves there |
| LogicSolver.RunMove | assets/game1/script/logic/AutoSolver.ts:136-152 | the highest movable face-up position below the bound, with its first target; none movable above it; `None` exactly when none is |
| LogicSolver.FirstRunMove | assets/game1/script/logic/AutoSolver.ts:77-82 | the first tableau pile that has a movable run; `None` exactly when none has |
| LogicSolver.FirstTargetSpec | assets/game1/script/logic/AutoSolver.ts:140-149 | the target is the first other tableau pile that accepts the card; `None` exactly when none does |
| LogicSolver.AutoSolver.TryFlipTableauCard | assets/game1/script/logic/AutoSolver.ts:157-167 | flips exactly when the pile's top is face down; the layout is kept and only that card turns |
| LogicSolver.FirstFlip | assets/game1/script/logic/AutoSolver.ts:85-90 | the first tableau pile with a face-down top; `None` exactly when none has |
| LogicSolver.AutoSolver.HasNoTableauMoves | assets/game1/script/logic/AutoSolver.ts:170-186 | answers `NoTableauMoves`: every non-empty tableau pile shows a face-up top card that no other tableau pile accepts |
| LogicSolver.NoMovesAfterCascade | assets/game1/script/logic/AutoSolver.ts:170-186 | when no run can move and no top is face down, `NoTableauMoves` holds |
| LogicSolver.AutoSolver.TryDrawFromStock | assets/game1/script/logic/AutoSolver.ts:189-220 | the cycle count goes up when the waste has the size it had at the last call and is reset to 0 otherwise; then it refuses once the count reaches the limit of 3, or when stock and waste are both empty; otherwise it draws, or recycles the waste; the waste size is remembered |
| LogicSolver.DrawStep | assets/game1/script/logic/AutoSolver.ts:189-220 | a draw exactly when under the cycle limit with a non-empty stock, a recycle when under it with only the waste left |
| LogicSolver.AutoSolver.TryUseFoundationAsBridge | assets/game1/script/logic/AutoSolver.ts:223-242 | the first foundation whose top can go to a tableau pile hiding face-down cards moves it there; otherwise nothing changes |
| LogicSolver.FirstBridgeSpec | assets/game1/script/logic/AutoSolver.ts:223-242 | the foundation chosen is the first bridgeable one; `None` exactly when none is |
| LogicSolver.BridgeTargetSpec | assets/game1/script/logic/AutoSolver.ts:228-239 | the target is the first tableau pile that accepts the card and would unlock moves; `None` exactly when none would |
| LogicSolver.AutoSolver.WouldUnlockNewMoves | assets/game1/script/logic/AutoSolver.ts:245-252 | answers whether the pile holds a face-down card |
| LogicSolver.HasFaceDownAt | assets/game1/script/logic/AutoSolver.ts:245-252 | the pile has a face-down card exactly when some position holds one |
| LogicSolver.AutoSolver.TryShuffleAndRetry | assets/game1/script/logic/AutoSolver.ts:255-288 | past the retry limit nothing changes; otherwise a retry is counted, and it succeeds exactly when face-down cards exist; the result is a reshuffle of them |
| LogicSolver.AutoSolver.CollectFaceDown | assets/game1/script/logic/AutoSolver.ts:261-269 | the collected cards are exactly the face-down tableau cards, pile by pile |
| LogicSolver.FaceDownOfSpec | assets/game1/script/logic/AutoSolver.ts:261-269 | every collected card is face down on the tableau, and every face-down tableau card is collected |
| LogicSolver.AutoSolver.SwapNodes | assets/game1/script/logic/AutoSolver.ts:276-283 | two cards exchange their positions, which may be in one pile or two |
| LogicSolver.SwapKeepsShuffle | assets/game1/script/logic/AutoSolver.ts:274-284 | swapping two face-down slots keeps the table a reshuffle of the face-down cards |
| LogicSolver.ShuffleOfNoFaceDown | assets/game1/script/logic/AutoSolver.ts:255-288 | with no face-down cards a reshuffle leaves the table as it was |
| LogicSolver.AutoSolver.ResetStockCycle | assets/game1/script/logic/AutoSolver.ts:291-294 | the cycle count is 0 and the remembered waste size -1 |
| OldCard.SuitColors | assets/game1/script/Card.ts:82-84 | hearts and diamonds are red, spades and clubs black |
| OldCard.SuitNameInjective | assets/game1/script/Card.ts:14 | the four suit names are distinct |
| OldCard.Card.Init | assets/game1/script/Card.ts:14-22 | the card takes the suit and rank and starts face down |
| OldCard.Card.GetColor | assets/game1/script/Card.ts:82-84 | the card's colour is `red` or `black`, `red` exactly for hearts and diamonds |
| OldCard.Card.FlipFaceUp | assets/game1/script/Card.ts:53-65 | afterwards face up; a face-up card is left untouched |
| OldCard.Card.FlipFaceDown | assets/game1/script/Card.ts:67-79 | afterwards face down; a face-down card is left untouched |
| OldPile.Pile.GetTopCard | assets/game1/script/Pile.ts:7-10 | `None` exactly for an empty pile, otherwise its last card |
| OldPile.Pile.AddCard | assets/game1/script/Pile.ts:12-14 | the card is appended and taken out of its previous pile; the same pile is a no-op |
| OldPile.Pile.constructor | assets/game1/script/Pile.ts:4-15 | a new pile has no cards |
| OldUndo.UndoManager.PushMove | assets/game1/script/UndoManager.ts:20-22 | the move is pushed on top |
| OldUndo.UndoManager.Pop | assets/game1/script/UndoManager.ts:24-26 | the top move is returned and removed; an empty stack gives `None` |
| OldUndo.UndoManager.constructor | assets/game1/script/UndoManager.ts:18 | the stack starts empty |
| OldRules.TableauAcceptsColorNames | assets/game1/script/UIPlay.ts:106-112 | on a non-empty pile the card is accepted exactly when its `getColor` string differs and it is one rank below the top |
| OldRules.CanPlaceToTableau | assets/game1/script/UIPlay.ts:106-112 | an empty pile takes exactly a King; otherwise a card is accepted exactly when it and the top card form a run: other colour, one rank lower |
| OldRules.TableauPlacement | assets/game1/script/UIPlay.ts:106-112 | an alternating run is extended exactly by accepted cards; an empty pile takes exactly a King |
| OldRules.CanPlaceToFoundation | assets/game1/script/UIPlay.ts:114-120 | an empty foundation takes exactly an Ace; on a foundation built by the rules a card is accepted exactly when its rank is the pile's size plus one and its suit the foundation's |
| OldRules.FoundationPlacement | assets/game1/script/UIPlay.ts:114-120 | a same-suit run from the Ace is extended exactly by accepted cards |
| OldPlay.UIPlay.AddScore | assets/game1/script/UIPlay.ts:42-44 | the score grows by the amount, nothing else changes |
| OldPlay.UIPlay.constructor | assets/game1/script/UIPlay.ts:14-36 | thirteen distinct fresh empty piles in their roles, score and moves 0 |
| OldPlay.UIPlay.AddMoves | assets/game1/script/UIPlay.ts:50-52 | the move count grows by the amount, nothing else changes |
| OldPlay.UIPlay.InitGame | assets/game1/script/UIPlay.ts:67-94 | the given 52 distinct cards are dealt: column c gets c+1 cards with only its top face up, the rest face down to the stock; a new empty undo stack |
| OldPlay.UIPlay.GetStackFrom | assets/game1/script/UIPlay.ts:96-101 | the suffix of the pile from the card on |
| OldPlay.UIPlay.OnClickStock | assets/game1/script/UIPlay.ts:125-135 | the stock top goes face up to the waste, or with an empty stock the waste returns reversed and face down |
| OldPlay.UIPlay.RecycleWasteToStock | assets/game1/script/UIPlay.ts:137-143 | the waste is appended to the stock reversed and face down |
| OldPlay.UIPlay.TryFlipLastCard | assets/game1/script/UIPlay.ts:219-236 | a face-down top card is turned up and a flip entry pushed; otherwise nothing changes |
| OldPlay.UIPlay.MoveStack | assets/game1/script/UIPlay.ts:184-217 | the stack moves to the target with one move per card; the move entry is pushed, then the old pile's top, looked at before the stack leaves it, is flipped if it was face down |
| OldPlay.UIPlay.TryAutoToFoundation | assets/game1/script/UIPlay.ts:145-154 | the card goes to the first accepting foundation with 10 points, or nothing changes |
| OldPlay.UIPlay.HandleDrop | assets/game1/script/UIPlay.ts:156-179 | the first accepting foundation, else the first accepting tableau pile, else the stack springs back, as `DropOutcome` says |
| OldPlay.UIPlay.ResetStack | assets/game1/script/UIPlay.ts:239-246 | the pile layout is kept |
| OldPlay.UIPlay.OnUndo | assets/game1/script/UIPlay.ts:248-273 | the top entry is popped; an empty stack throws; a flip entry restores the card's recorded face; no pile changes |
| OldPlay.FaceDownTop | assets/game1/script/UIPlay.ts:220-224 | the pile's top card exactly when it is face down |
| OldPlay.UndoAfterFlip | assets/game1/script/UIPlay.ts:248-258 | after a move that flipped a card, undo pops only the flip, which turns that card back down |
| OldPlay.FirstFoundationSpec | assets/game1/script/UIPlay.ts:145-154 | the first foundation that accepts the card; `None` exactly when none does |
| OldPlay.FirstTableauSpec | assets/game1/script/UIPlay.ts:166-174 | the first tableau pile that accepts the card; `None` exactly when none does |
| OldPlay.DropOutcomeSpec | assets/game1/script/UIPlay.ts:156-179 | foundations before tableau piles; springing back exactly when no pile accepts |
| HotUpdateLibs.HotUpdate.constructor | assets/libs/hotupate/HotUpdate.ts:16-22 | idle, nothing to retry, no manager, no listener |
| HotUpdateLibs.HotUpdate.OnLoad | assets/libs/hotupate/HotUpdate.ts:26-89 | outside a native build nothing happens; otherwise the manager is created, the local manifest loaded and a check started if it loaded |
| HotUpdateLibs.HotUpdate.CheckCb | assets/libs/hotupate/HotUpdate.ts:91-119 | every handled code ends the check and drops the listener; up to date enters the game; other codes change nothing |
| HotUpdateLibs.HotUpdate.CheckCbFixed | assets/libs/hotupate/HotUpdate.ts:91-119 | as `checkCb`, but a new version starts the update with the update listener |
| HotUpdateLibs.HotUpdate.UpdateCb | assets/libs/hotupate/HotUpdate.ts:121-192 | manifest errors and up to date give up; finishing prepends the new search paths and restarts; UPDATE_FAILED first calls `retry()`, which downloads the failed assets only when the component was already idle with `canRetry` set, and then leaves it idle with `canRetry` set |
| HotUpdateLibs.HotUpdate.Retry | assets/libs/hotupate/HotUpdate.ts:194-200 | when idle with a retry pending, the failed assets are downloaded again once |
| HotUpdateLibs.HotUpdate.CheckUpdate | assets/libs/hotupate/HotUpdate.ts:202-219 | a busy component does nothing; otherwise the manifest is loaded if needed and a check started when it loaded |
| HotUpdateLibs.HotUpdate.DoUpdate | assets/libs/hotupate/HotUpdate.ts:221-233 | with a manager and not busy, the update starts with a zeroed failure count; otherwise nothing happens |
| HotUpdateLibs.NewVersionAsWritten | assets/libs/hotupate/HotUpdate.ts:109-118 | after a check finds a new version the update is never requested and the component is idle |
| HotUpdateLibs.NewVersionFixed | assets/libs/hotupate/HotUpdate.ts:109-118 | with the corrected callback the update is requested and running |
| HotUpdateLoading.HotUpdate.constructor | assets/loading/HotUpdate.ts:29-36 | idle, nothing to retry, no manager, no listener |
| HotUpdateLoading.HotUpdate.OnLoad | assets/loading/HotUpdate.ts:220-283 | as in the library component |
| HotUpdateLoading.HotUpdate.CheckCb | assets/loading/HotUpdate.ts:71-99 | as in the library component |
| HotUpdateLoading.HotUpdate.CheckCbFixed | assets/loading/HotUpdate.ts:71-99 | a new version starts the update |
| HotUpdateLoading.HotUpdate.UpdateCb | assets/loading/HotUpdate.ts:101-172 | as in the library component |
| HotUpdateLoading.HotUpdate.Retry | assets/loading/HotUpdate.ts:174-180 | as in the library component |
| HotUpdateLoading.HotUpdate.CheckUpdate | assets/loading/HotUpdate.ts:182-199 | as in the library component |
| HotUpdateLoading.HotUpdate.DoUpdate | assets/loading/HotUpdate.ts:201-213 | as in the library component |
| HotUpdateLoading.NewVersionAsWritten | assets/loading/HotUpdate.ts:89-98 | after a new version is found the update is never requested |
| HotUpdateLoading.NewVersionFixed | assets/loading/HotUpdate.ts:89-98 | with the corrected callback the update runs |
| VersionCompare.FirstDifferenceDecides | assets/libs/hotupate/HotUpdate.ts:39-57 | the first component pair that differs, or is not a number, decides with its difference |
| VersionCompare.AllSameDecides | assets/libs/hotupate/HotUpdate.ts:43-56 | when every component of A matches, a longer B gives -1 and anything else 0 |
| VersionCompare.CompareSelf | assets/libs/hotupate/HotUpdate.ts:39-57 | a numeric version compares equal to itself |
| VersionCompare.CompareRendered | assets/loading/HotUpdate.ts:233-251 | for versions of equal length the sign of the result is their lexicographic order |
| VersionCompare.MissingReadsAsZero | assets/libs/hotupate/HotUpdate.ts:44-48 | a component missing from B reads as 0: 1.2.1 is newer than 1.2 |
| VersionCompare.NotAntisymmetric | assets/libs/hotupate/HotUpdate.ts:41-56 | 1.2 is older than 1.2.0, yet 1.2.0 equals 1.2 |
| VersionCompare.Compare | assets/libs/hotupate/HotUpdate.ts:39-57 | the result is a number, never NaN, whenever every component of A and every non-empty component of B starts with a number |
| VersionCompare.HexExamples | assets/libs/hotupate/HotUpdate.ts:44-45 | `0x10` reads as 16 and `0x1A` as 26; a bare `0x` is NaN |
| VersionCompare.HexComponent | assets/libs/hotupate/HotUpdate.ts:39-57 | "0x10" and "16" count as the same version |
| Strings.ParseInt | assets/libs/hotupate/HotUpdate.ts:44-45 | `parseInt` without a radix: after an optional sign, a number exactly when a decimal digit follows, or `0x`/`0X` and a hexadecimal digit; a digit string gives its decimal value, `-` and digits the negated value, `0x` and hex digits their hexadecimal value |
| RollNumber.FormatTimerRoundTrip | assets/libs/gui/BhvRollNumber.ts:184-196 | reading the formatted text back gives the whole seconds, in both formats; every field after the first has two digits |
| RollNumber.FormatTimer | assets/libs/gui/BhvRollNumber.ts:185-196 | for a non-negative time the text reads back as its whole seconds |
| RollNumber.FieldsDecompose | assets/libs/gui/BhvRollNumber.ts:186-188 | hours, minutes below 60 and seconds below 60 add back up to the time |
| RollNumber.HourTimer | assets/libs/gui/BhvRollNumber.ts:184-196 | 3725.9 seconds format as 1:02:05 |
| RollNumber.HourTimerShort | assets/libs/gui/BhvRollNumber.ts:184-196 | the short format folds the hours into minutes: 62:05 |
| RollNumber.JsRem | assets/libs/gui/BhvRollNumber.ts:187-188 | JavaScript's remainder: the Euclidean one for non-negative times, towards zero for negative ones |
| SwitchPage.Normalize | assets/libs/gui/BhvSwitchPage.ts:25-33 | the page stays within 0..count; looping pages wrap at both ends, others clamp |
| SwitchPage.JsRound | assets/libs/gui/BhvSwitchPage.ts:24 | `Math.round` rounds to the nearest integer, halves upwards |
| SwitchPage.SwitchKeepsOnePage | assets/libs/gui/BhvSwitchPage.ts:70-79 | switching from the one shown page to any existing page never throws and leaves exactly the new page shown |
| SwitchPage.BhvSwitchPage.constructor | assets/libs/gui/BhvSwitchPage.ts:10-50 | the saved settings, previous page 0, not changing |
| SwitchPage.BhvSwitchPage.SetIndex | assets/libs/gui/BhvSwitchPage.ts:21-44 | while changing nothing happens; otherwise the previous page is remembered, the page normalised, and the pages switched (in the editor, only the new page shown) |
| SwitchPage.BhvSwitchPage.UpdatePage | assets/libs/gui/BhvSwitchPage.ts:70-79 | the previous page is hidden and the current shown; a missing node throws |
| SwitchPage.BhvSwitchPage.UpdateEditorPage | assets/libs/gui/BhvSwitchPage.ts:62-67 | in the editor exactly the given page is shown; at run time nothing changes |
| SwitchPage.BhvSwitchPage.OnLoad | assets/libs/gui/BhvSwitchPage.ts:56-59 | the previous page becomes the current one and no page changes |
| SwitchPage.BhvSwitchPage.Next | assets/libs/gui/BhvSwitchPage.ts:82-86 | refused while changing; otherwise the next page, wrapping or clamping at the end |
| SwitchPage.BhvSwitchPage.Previous | assets/libs/gui/BhvSwitchPage.ts:89-93 | refused while changing; otherwise the previous page, wrapping or clamping at 0 |
| SwitchPage.BhvSwitchPage.SetEventIndex | assets/libs/gui/BhvSwitchPage.ts:96-102 | accepted exactly for a present, non-negative page while not changing, which is then set |
| FrameIndex.FindName | assets/libs/gui/BhvFrameIndex.ts:43 | the first frame with the name, or -1 exactly when there is none |
| FrameIndex.BhvFrameIndex.constructor | assets/libs/gui/BhvFrameIndex.ts:22-39 | the frames, the saved index and the shown frame |
| FrameIndex.BhvFrameIndex.SetIndex | assets/libs/gui/BhvFrameIndex.ts:31-36 | a negative value is ignored; otherwise the index wraps modulo the frame count and that frame is shown; an empty list gives NaN and no frame |
| FrameIndex.BhvFrameIndex.SetName | assets/libs/gui/BhvFrameIndex.ts:42-49 | an unknown name changes nothing; a known one shows its first frame |
| FrameIndex.BhvFrameIndex.Next | assets/libs/gui/BhvFrameIndex.ts:63-65 | the next frame, wrapping from the last to the first |
| FrameIndex.BhvFrameIndex.Previous | assets/libs/gui/BhvFrameIndex.ts:67-69 | the frame before; at the first frame -1 is ignored and nothing changes |
| LanguageStore.LanguageData.constructor | assets/libs/language/LanguageData.ts:12-21 | no current language and no bundle |
| LanguageStore.FallbackToKey | assets/libs/language/LanguageData.ts:30-37 | with no table holding a non-empty text the key itself comes back |
| LanguageStore.FirstTableWins | assets/libs/language/LanguageData.ts:30-37 | the first table with a non-empty text decides |
| LanguageStore.GetLangById | assets/libs/language/LanguageData.ts:30-37 | the result is the key itself or a non-empty text that one of the tables holds for it |
| LanguageStore.EmptyTextSkipped | assets/libs/language/LanguageData.ts:32-35 | an empty text is passed over for a later table's |
| Language.LanguageManager.constructor | assets/libs/language/Language.ts:8-10 | Chinese and English are supported, Chinese by default |
| Language.LanguageManager.SetLanguages | assets/libs/language/Language.ts:17-19 | the list is replaced and the default kept |
| Language.LanguageManager.SetDefault | assets/libs/language/Language.ts:22-24 | an empty value stores Chinese, any other is stored |
| Language.LanguageManager.IsExist | assets/libs/language/Language.ts:41-43 | true exactly for a listed language |
| Language.LanguageManager.GetNextLang | assets/libs/language/Language.ts:46-50 | the language after the current one, cyclically; the first for an unknown current; none for an empty list |
| Language.Normalized | assets/libs/language/Language.ts:58-60 | a missing or empty request means the default; any other is lower-cased character by character |
| Language.Chosen | assets/libs/language/Language.ts:57-68 | the language settled on is supported or the default; a supported normalised request is kept, any other gives the default; with a supported default it is always supported |
| Language.LanguageManager.SetLanguage | assets/libs/language/Language.ts:57-86 | already current: resolves at once with no calls; otherwise the pack loads the language, and only a successful load makes it current, updates the pack and releases the old assets |
| Language.SwitchTwice | assets/libs/language/Language.ts:66-69 | asking twice for the same language loads nothing the second time |
| ResLoader.ParseLoadResArgs | assets/libs/res/ResLoader.ts:20-48 | with a completion callback the arguments are kept; without one, the last callback given becomes it, and a type that is no asset class was a callback |
| ResLoader.Load | assets/libs/res/ResLoader.ts:88-103 | the first argument is a bundle exactly when the second is a string or an array; otherwise all shift left |
| ResLoader.LoadDir | assets/libs/res/ResLoader.ts:113-129 | as `load`, with only a string as directory, which is also the paths |
| ResLoader.Dispatch | assets/libs/res/ResLoader.ts:62-78 | a truthy bundle goes to that bundle, otherwise to resources; a truthy directory goes to `loadDir` |
| ResLoader.LoadAsync | assets/libs/res/ResLoader.ts:155-189 | whatever the arguments, the promise's own callback ends up as `onComplete` and no directory is set; a non-empty bundle name followed by a string path resolves to that bundle and path |
| ResLoader.LoadDirAsync | assets/libs/res/ResLoader.ts:196-230 | whatever the arguments, the promise's own callback ends up as `onComplete` and the directory is the resolved paths; a non-empty bundle name followed by a string resolves to that bundle and directory |
| ResLoader.LoadAsyncBundleForm | assets/libs/res/ResLoader.ts:155-189 | `loadAsync(bundle, path, type, progress)` asks that bundle for the path, with the promise callback as completion |
| ResLoader.LoadAsyncArrayReachesBundle | assets/libs/res/ResLoader.ts:155-189 | a bundle name with an array of paths still reaches the bundle through `load` |
| ResLoader.LoadDirAsyncBundleForm | assets/libs/res/ResLoader.ts:196-230 | `loadDirAsync(bundle, dir, type)` reaches that bundle's `loadDir` |
| ResLoader.EmptyDirLoadsAsFiles | assets/libs/res/ResLoader.ts:62-78 | an empty directory name is falsy and goes to `load` |
| ResLoader.LoadWithOnlyCallback | assets/libs/res/ResLoader.ts:20-48 | a single callback after the paths is the completion callback |

## Left out

- Card dragging (`CardDrag.ts`) is not part of this model. Which piles lie near a dropped card is given to `HandleDrop` as the set `near`, in place of the bounding-box test `isNearNode`.
- Positions, scaling, sprites, the screen-resize handler and `updateTime` are left out; they change no game state. The tween animations are left out too, but what their completion callbacks do is applied at once: in the newer `moveStack` the reparenting, `addMoves(1)` per card and the final `tryFlipLastCard`; in `resetStack` the reparenting, which puts each card back on the pile it already lies in, so `ResetStack` keeps the layout.
- LogicPlay.UIPlay.RestartGame, LogicPlay.UIPlay.ClearPiles: `destroy()` is taken as removing the card from its pile at once, which is what the loop at assets/game1/script/logic/UIPlay.ts:121-123 needs in order to end. The engine only marks a destroyed node and detaches it at the end of the frame, and under that reading the loop does not end; see "## Findings".
- Timers (`setTimeout` in the solver's loop) are left out. One `LoopTick` is one scheduled tick.
- `Math.random` is an arbitrary choice within the game's bounds. `BhvFrameIndex.random` is left out, since its result is only a random index fed to the setter.
- The older tree's `CardFactory.ts` is not part of this model. The older `OldPlay.UIPlay.InitGame` therefore takes the deck as a parameter: 52 distinct face-down cards.
- OldPlay.UIPlay.OnUndo: a move entry restores no pile, because the line that would reparent the cards is commented out in `onUndo`. Only flip entries have an effect.
- OldPlay.UIPlay.MoveStack: the older `moveStack` calls `tryFlipLastCard` on the old pile at once, before the tweens reparent the stack (assets/game1/script/UIPlay.ts:203-216). It therefore looks at the pile's current top, normally the stack's own last card, so the card the stack uncovers is not turned up by the move. The contract states exactly this: the flipped card is the old pile's top before the move, when that top was face down.
- OldPlay.UIPlay.TryFlipLastCard: `getComponent(Pile)` on a card node gives `null`, so the recorded `from` and `to` are null, as written.
- Console logging and status messages are left out. So are the loading panel's progress display and the `jsb`/`localStorage` calls. The file system's search paths are a field.
- HotUpdateLibs.HotUpdate.OnLoad, HotUpdateLoading.HotUpdate.OnLoad: the custom version comparator is modelled separately as `VersionCompare.Compare`, and the manager's use of it is not.
- `onDestroy` in both hot-update components is left out. Its only effect tests `_updateListener`, which nothing ever sets.
- The solver's `autoSolve` entry in the play controller is an empty placeholder and is left out.
- JavaScript numbers are integers or reals here. NaN appears only as `None`, where the game can produce it (`parseInt`, `% 0`). `parseInt`'s leading whitespace is not modelled.
- RollNumber.FormatTimerRoundTrip: stated for non-negative times only. Negative times are formatted as written, using `JsRem`.
- BhvSwitchPage: the number of child pages is fixed at creation, and `isChanging` is never set by the component, so it stays at its initial value.
- BhvFrameIndex: the frame list is fixed, and a `null` entry in it is not modelled.
- The language pack (`LanguagePack.ts`) and the asset manager's loaders are foreign. Their calls are returned as data, and a load's settling is the `loadOk` parameter.
- Strings.ToLower: ASCII letters only, with no Unicode case mapping.
- The older card's `suit` is the datatype `OldCard.Suit` standing for the string union. A string outside the union cannot be stored.
- ResLoader: `js.isChildClassOf(type, Asset)` is the `isAsset` flag of a class argument.
- ResLoader: the loaders themselves (release, preload, remote loading) only call the engine and are not modelled.

## Findings

| source | as written | input that shows it | evidently intended | confidence | as-written member | corrected member |
|---|---|---|---|---|---|---|
| assets/libs/hotupate/HotUpdate.ts:109-118 | `checkCb` handles NEW_VERSION_FOUND by calling `doUpdate` while `_updating` is still set by `checkUpdate`, so `doUpdate` returns at once; then the callback is cleared and `_updating` reset | a native start whose manifest loads, followed by the event NEW_VERSION_FOUND | the update starts and runs with the update callback | not executed | HotUpdateLibs.NewVersionAsWritten | HotUpdateLibs.NewVersionFixed |
| assets/loading/HotUpdate.ts:89-98 | the same sequence in the loading scene's copy of the component | a native start whose manifest loads, followed by the event NEW_VERSION_FOUND | the update starts and runs with the update callback | not executed | HotUpdateLoading.NewVersionAsWritten | HotUpdateLoading.NewVersionFixed |
| assets/game1/script/logic/UIPlay.ts:121-123 | `restartGame` empties each pile by `while (pile.node.children.length > 0) pile.node.children[0].destroy();`. The engine's `destroy()` only marks the node and detaches it at the end of the frame, so the child list never shrinks inside the loop | a restart with any card on the table | every pile is emptied, as removing each child (for example `destroyAllChildren()` or `removeFromParent()` before `destroy()`) would do | not executed; rests on the engine's deferred destruction, which is not part of this model | LogicPlay.DestroyLoopNeverEnds | LogicPlay.UIPlay.ClearPiles |
