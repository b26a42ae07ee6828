/** The auto-player of the newer game tree (`logic/AutoSolver.ts`). Its
    decisions are stated first as functions of the table seen as values:
    the layout L (rows 0 to 6 the tableau, 7 to 10 the foundations, 11 the
    stock, 12 the waste, as `UIPlay.Piles()` lists them) and the set `up`
    of face-up cards. The class then carries out those decisions on the
    game objects, one step per call of `DoOneStep`. */
module LogicSolver {
  import opened Wrappers
  import opened Seqs
  import opened Tables
  import opened LogicCard
  import opened LogicPile
  import opened LogicRules
  import opened LogicUndo
  import opened LogicPlay
  import opened Siblings

  /** The retry cap and the stock-cycle budget (`maxRetries`, `maxStockCycles`). */
  const MaxRetries := 3
  const MaxStockCycles := 3

  function Last(s: seq<Card>): Card
    requires s != []
  {
    s[|s| - 1]
  }

  /** Foundation b takes the card. */
  predicate Takes(card: Card, L: seq<seq<Card>>, b: nat)
    requires |L| == 13 && b < 4
  {
    FoundationAccepts(card, L[7 + b])
  }

  /** The first foundation, from position b on, that takes the card. */
  function FirstFoundationRow(card: Card, L: seq<seq<Card>>, b: nat): (r: Option<nat>)
    requires |L| == 13 && b <= 4
    ensures r.Some? ==> b <= r.value < 4 && Takes(card, L, r.value)
    ensures r.Some? ==> forall k :: b <= k < r.value ==> !Takes(card, L, k)
    ensures r.None? <==> forall k :: b <= k < 4 ==> !Takes(card, L, k)
    decreases 4 - b
  {
    if b == 4 then None
    else if Takes(card, L, b) then Some(b)
    else FirstFoundationRow(card, L, b + 1)
  }

  /** `tryMoveTopToFoundation` on row t: the foundation its face-up top
      card goes to, if any. */
  function TopMove(L: seq<seq<Card>>, up: set<Card>, t: nat): (r: Option<nat>)
    requires |L| == 13 && t < 13
    ensures r.Some? <==> L[t] != [] && Last(L[t]) in up && FirstFoundationRow(Last(L[t]), L, 0).Some?
    ensures r.Some? ==> r == FirstFoundationRow(Last(L[t]), L, 0)
  {
    if L[t] == [] || Last(L[t]) !in up then None else FirstFoundationRow(Last(L[t]), L, 0)
  }

  /** The first tableau pile, from position t on, whose top goes to a foundation. */
  function FirstTopMove(L: seq<seq<Card>>, up: set<Card>, t: nat): (r: Option<(nat, nat)>)
    requires |L| == 13 && t <= 7
    ensures r.Some? ==> t <= r.value.0 < 7 && TopMove(L, up, r.value.0) == Some(r.value.1)
    ensures r.Some? ==> forall k :: t <= k < r.value.0 ==> TopMove(L, up, k).None?
    ensures r.None? <==> forall k :: t <= k < 7 ==> TopMove(L, up, k).None?
    decreases 7 - t
  {
    if t == 7 then None
    else match TopMove(L, up, t)
      case Some(b) => Some((t, b))
      case None => FirstTopMove(L, up, t + 1)
  }

  /** The first tableau pile, from position u on and other than pile t,
      that takes the card. */
  function FirstTarget(card: Card, L: seq<seq<Card>>, t: nat, u: nat): Option<nat>
    requires |L| == 13 && u <= 7
    decreases 7 - u
  {
    if u == 7 then None
    else if u != t && TableauAccepts(card, L[u]) then Some(u)
    else FirstTarget(card, L, t, u + 1)
  }

  /** FirstTarget finds the first pile from u on, other than t, that takes
      the card, and finds none exactly when there is none. */
  lemma {:induction false} FirstTargetSpec(card: Card, L: seq<seq<Card>>, t: nat, u: nat)
    requires |L| == 13 && u <= 7
    ensures var r := FirstTarget(card, L, t, u);
      r.Some? ==> u <= r.value < 7 && r.value != t && TableauAccepts(card, L[r.value])
    ensures var r := FirstTarget(card, L, t, u);
      r.Some? ==> forall k :: u <= k < r.value ==> k == t || !TableauAccepts(card, L[k])
    ensures FirstTarget(card, L, t, u).None? <==> forall k :: u <= k < 7 ==> k == t || !TableauAccepts(card, L[k])
    decreases 7 - u
  {
    if u < 7 {
      FirstTargetSpec(card, L, t, u + 1);
    }
  }

  /** The scan of `tryMoveTableauToTableau` over the positions below i of
      pile t, from the top down: the highest face-up card that some other
      tableau pile takes, with the first such pile. */
  function RunMove(L: seq<seq<Card>>, up: set<Card>, t: nat, i: nat): (r: Option<(nat, nat)>)
    requires |L| == 13 && t < 7 && i <= |L[t]|
    ensures r.Some? ==> (r.value.0 < i && Movable(L, up, t, r.value.0)
      && FirstTarget(L[t][r.value.0], L, t, 0) == Some(r.value.1))
    ensures r.Some? ==> forall k :: r.value.0 < k < i ==> !Movable(L, up, t, k)
    ensures r.None? <==> forall k :: 0 <= k < i ==> !Movable(L, up, t, k)
  {
    if i == 0 then None
    else if Movable(L, up, t, i - 1) then Some((i - 1, FirstTarget(L[t][i - 1], L, t, 0).value))
    else RunMove(L, up, t, i - 1)
  }

  /** The card at position k of tableau pile t is face-up and another
      tableau pile takes it. */
  predicate Movable(L: seq<seq<Card>>, up: set<Card>, t: nat, k: nat)
    requires |L| == 13 && t < 7 && k < |L[t]|
  {
    L[t][k] in up && FirstTarget(L[t][k], L, t, 0).Some?
  }

  /** The first tableau pile, from position t on, with a run to move:
      the pile, the run's first position and the target pile. */
  function FirstRunMove(L: seq<seq<Card>>, up: set<Card>, t: nat): (r: Option<(nat, nat, nat)>)
    requires |L| == 13 && t <= 7
    ensures r.Some? ==> (t <= r.value.0 < 7
      && RunMove(L, up, r.value.0, |L[r.value.0]|) == Some((r.value.1, r.value.2)))
    ensures r.Some? ==> forall k :: t <= k < r.value.0 ==> RunMove(L, up, k, |L[k]|).None?
    ensures r.None? <==> forall k :: t <= k < 7 ==> RunMove(L, up, k, |L[k]|).None?
    decreases 7 - t
  {
    if t == 7 then None
    else match RunMove(L, up, t, |L[t]|)
      case Some(m) => Some((t, m.0, m.1))
      case None => FirstRunMove(L, up, t + 1)
  }

  /** The first tableau pile, from position t on, whose top card is face-down. */
  function FirstFlip(L: seq<seq<Card>>, up: set<Card>, t: nat): (r: Option<nat>)
    requires |L| == 13 && t <= 7
    ensures r.Some? ==> t <= r.value < 7 && L[r.value] != [] && Last(L[r.value]) !in up
    ensures r.Some? ==> forall k :: t <= k < r.value ==> L[k] == [] || Last(L[k]) in up
    ensures r.None? <==> forall k :: t <= k < 7 ==> L[k] == [] || Last(L[k]) in up
    decreases 7 - t
  {
    if t == 7 then None
    else if L[t] != [] && Last(L[t]) !in up then Some(t)
    else FirstFlip(L, up, t + 1)
  }

  /** What `hasNoTableauMoves` checks: every non-empty tableau pile shows a
      face-up top card that no other tableau pile takes. */
  predicate NoTableauMoves(L: seq<seq<Card>>, up: set<Card>)
    requires |L| == 13
  {
    forall t :: 0 <= t < 7 ==> Settled(L, up, t)
  }

  /** Tableau pile t is empty or shows a face-up top card that no other
      tableau pile takes. */
  predicate Settled(L: seq<seq<Card>>, up: set<Card>, t: nat)
    requires |L| == 13 && t < 7
  {
    L[t] != [] ==> (Last(L[t]) in up && forall u :: 0 <= u < 7 && u != t ==> !TableauAccepts(Last(L[t]), L[u]))
  }

  /** Once no top can be flipped and no run can move, there are no tableau
      moves left: the `hasNoTableauMoves` test before a draw always passes. */
  lemma NoMovesAfterCascade(L: seq<seq<Card>>, up: set<Card>)
    requires |L| == 13 && FirstRunMove(L, up, 0).None? && FirstFlip(L, up, 0).None?
    ensures NoTableauMoves(L, up)
  {
    forall t | 0 <= t < 7
      ensures Settled(L, up, t)
    {
      if L[t] != [] {
        assert RunMove(L, up, t, |L[t]|).None?;
        assert !Movable(L, up, t, |L[t]| - 1);
        FirstTargetSpec(Last(L[t]), L, t, 0);
      }
    }
  }

  /** The stock-cycle count `tryDrawFromStock` computes from the waste size n. */
  function Cycles(stockCycles: int, lastWasteCount: int, n: nat): int {
    if lastWasteCount == n then stockCycles + 1 else 0
  }

  /** The stock action of `tryDrawFromStock`, if it takes one. */
  function DrawStep(L: seq<seq<Card>>, stockCycles: int, lastWasteCount: int): (r: Option<bool>)
    requires |L| == 13
    ensures r.Some? <==> Cycles(stockCycles, lastWasteCount, |L[12]|) < MaxStockCycles && (L[11] != [] || L[12] != [])
    ensures r == Some(true) <==> Cycles(stockCycles, lastWasteCount, |L[12]|) < MaxStockCycles && L[11] != []
  {
    if Cycles(stockCycles, lastWasteCount, |L[12]|) >= MaxStockCycles then None
    else if L[11] != [] then Some(true)
    else if L[12] != [] then Some(false)
    else None
  }

  /** Row holds a card that is face-down (`wouldUnlockNewMoves`). */
  predicate HasFaceDown(row: seq<Card>, up: set<Card>) {
    row != [] && (Last(row) !in up || HasFaceDown(row[..|row| - 1], up))
  }

  /** HasFaceDown holds exactly when some position of the row is face-down. */
  lemma {:induction false} HasFaceDownAt(row: seq<Card>, up: set<Card>)
    ensures HasFaceDown(row, up) <==> exists k :: 0 <= k < |row| && row[k] !in up
  {
    if row != [] {
      var n := |row| - 1;
      HasFaceDownAt(row[..n], up);
      if HasFaceDown(row[..n], up) {
        var k :| 0 <= k < n && row[..n][k] !in up;
        assert row[k] !in up;
      }
      if exists k :: 0 <= k < |row| && row[k] !in up {
        var k :| 0 <= k < |row| && row[k] !in up;
        if k < n {
          assert row[..n][k] !in up;
        }
      }
    }
  }

  /** Tableau pile k takes the card and still hides a face-down card. */
  predicate Unlocks(card: Card, L: seq<seq<Card>>, up: set<Card>, k: nat)
    requires |L| == 13 && k < 7
  {
    TableauAccepts(card, L[k]) && HasFaceDown(L[k], up)
  }

  /** The first tableau pile, from position t on, that takes the card and
      still hides a face-down card. */
  function BridgeTarget(card: Card, L: seq<seq<Card>>, up: set<Card>, t: nat): Option<nat>
    requires |L| == 13 && t <= 7
    decreases 7 - t
  {
    if t == 7 then None
    else if Unlocks(card, L, up, t) then Some(t)
    else BridgeTarget(card, L, up, t + 1)
  }

  /** BridgeTarget finds the first pile from t on that the card unlocks,
      and finds none exactly when there is none. */
  lemma {:induction false} BridgeTargetSpec(card: Card, L: seq<seq<Card>>, up: set<Card>, t: nat)
    requires |L| == 13 && t <= 7
    ensures var r := BridgeTarget(card, L, up, t);
      r.Some? ==> t <= r.value < 7 && Unlocks(card, L, up, r.value)
    ensures var r := BridgeTarget(card, L, up, t);
      r.Some? ==> forall k :: t <= k < r.value ==> !Unlocks(card, L, up, k)
    ensures BridgeTarget(card, L, up, t).None? <==> forall k :: t <= k < 7 ==> !Unlocks(card, L, up, k)
    decreases 7 - t
  {
    if t < 7 {
      BridgeTargetSpec(card, L, up, t + 1);
    }
  }

  /** `tryUseFoundationAsBridge`: the first foundation, from position b on,
      whose top card can go back to such a tableau pile, with that pile. */
  function FirstBridge(L: seq<seq<Card>>, up: set<Card>, b: nat): Option<(nat, nat)>
    requires |L| == 13 && b <= 4
    decreases 4 - b
  {
    if b == 4 then None
    else if Bridgeable(L, up, b) then Some((b, BridgeTarget(Last(L[7 + b]), L, up, 0).value))
    else FirstBridge(L, up, b + 1)
  }

  /** FirstBridge picks the first bridgeable foundation from b on, with the
      pile its top card goes to, and picks none exactly when there is none. */
  lemma {:induction false} FirstBridgeSpec(L: seq<seq<Card>>, up: set<Card>, b: nat)
    requires |L| == 13 && b <= 4
    ensures var r := FirstBridge(L, up, b);
      r.Some? ==> (b <= r.value.0 < 4 && Bridgeable(L, up, r.value.0)
        && BridgeTarget(Last(L[7 + r.value.0]), L, up, 0) == Some(r.value.1))
    ensures var r := FirstBridge(L, up, b);
      r.Some? ==> forall k :: b <= k < r.value.0 ==> !Bridgeable(L, up, k)
    ensures FirstBridge(L, up, b).None? <==> forall k :: b <= k < 4 ==> !Bridgeable(L, up, k)
    decreases 4 - b
  {
    if b < 4 {
      FirstBridgeSpec(L, up, b + 1);
    }
  }

  /** Foundation b has a top card that can go back to the tableau. */
  predicate Bridgeable(L: seq<seq<Card>>, up: set<Card>, b: nat)
    requires |L| == 13 && b < 4
  {
    L[7 + b] != [] && BridgeTarget(Last(L[7 + b]), L, up, 0).Some?
  }

  /** The face-down cards of the tableau, pile by pile and bottom first, in
      the order `tryShuffleAndRetry` collects them. */
  function FaceDownOf(L: seq<seq<Card>>, up: set<Card>, t: nat): seq<Card>
    requires |L| == 13 && t <= 7
    decreases 7 - t
  {
    if t == 7 then [] else FaceDownIn(L[t], up) + FaceDownOf(L, up, t + 1)
  }

  /** FaceDownOf collects every face-down card of the tableau piles from t
      on, and nothing else. */
  lemma {:induction false} FaceDownOfSpec(L: seq<seq<Card>>, up: set<Card>, t: nat)
    requires |L| == 13 && t <= 7
    ensures forall x :: x in FaceDownOf(L, up, t) ==> x !in up && exists k :: t <= k < 7 && x in L[k]
    ensures forall k, i :: t <= k < 7 && 0 <= i < |L[k]| && L[k][i] !in up ==> L[k][i] in FaceDownOf(L, up, t)
    decreases 7 - t
  {
    if t < 7 {
      FaceDownOfSpec(L, up, t + 1);
      var r, r' := FaceDownOf(L, up, t), FaceDownOf(L, up, t + 1);
      var h := FaceDownIn(L[t], up);
      FaceDownInSpec(L[t], up);
      assert r == h + r';
      forall x | x in r
        ensures x !in up && exists k :: t <= k < 7 && x in L[k]
      {
        if x in h {
          var i :| 0 <= i < |h| && h[i] == x;
          assert x in L[t];
        } else {
          assert x in r';
        }
      }
      forall k, i | t <= k < 7 && 0 <= i < |L[k]| && L[k][i] !in up
        ensures L[k][i] in r
      {
        if k == t {
          assert L[k][i] in h;
        } else {
          assert L[k][i] in r';
        }
      }
    }
  }

  function FaceDownIn(row: seq<Card>, up: set<Card>): seq<Card> {
    if row == [] then []
    else FaceDownIn(row[..|row| - 1], up) + (if Last(row) in up then [] else [Last(row)])
  }

  /** FaceDownIn keeps exactly the face-down cards of the row. */
  lemma {:induction false} FaceDownInSpec(row: seq<Card>, up: set<Card>)
    ensures var r := FaceDownIn(row, up);
      forall i :: 0 <= i < |r| ==> r[i] in row && r[i] !in up
    ensures var r := FaceDownIn(row, up);
      forall i :: 0 <= i < |row| && row[i] !in up ==> row[i] in r
  {
    if row != [] {
      var n := |row| - 1;
      FaceDownInSpec(row[..n], up);
      var r, r' := FaceDownIn(row, up), FaceDownIn(row[..n], up);
      assert r == r' + (if Last(row) in up then [] else [Last(row)]);
      forall i | 0 <= i < |r|
        ensures r[i] in row && r[i] !in up
      {
        if i < |r'| {
          assert r[i] == r'[i];
          assert r'[i] in row[..n];
        }
      }
      forall i | 0 <= i < |row| && row[i] !in up
        ensures row[i] in r
      {
        if i < n {
          assert row[i] == row[..n][i];
        }
      }
    }
  }

  /** L is the table L0 after the face-down cards of the tableau have been
      permuted among the face-down slots: the stock, the waste and the
      foundations are untouched, every tableau pile keeps its height, every
      face-up card keeps its slot and every face-down slot still holds a
      face-down card, and the table holds the same cards. */
  ghost predicate ShuffleOf(L0: seq<seq<Card>>, up: set<Card>, L: seq<seq<Card>>)
    requires |L0| == 13
  {
    |L| == 13 && Total(L) == Total(L0)
    && (forall k :: 7 <= k < 13 ==> L[k] == L0[k])
    && (forall t :: 0 <= t < 7 ==> |L[t]| == |L0[t]|)
    && (forall t, i :: 0 <= t < 7 && 0 <= i < |L0[t]| && L0[t][i] in up ==> L[t][i] == L0[t][i])
    && (forall t, i :: 0 <= t < 7 && 0 <= i < |L0[t]| && L0[t][i] !in up ==> L[t][i] !in up)
  }

  /** Leaving the table as it is counts as a shuffle. */
  lemma ShuffleOfSelf(L0: seq<seq<Card>>, up: set<Card>)
    requires |L0| == 13
    ensures ShuffleOf(L0, up, L0)
  {
  }

  /** A card collected by the shuffle is still on the table. */
  lemma FaceDownOnTable(L0: seq<seq<Card>>, up: set<Card>, L: seq<seq<Card>>, x: Card)
    requires |L0| == 13 && ShuffleOf(L0, up, L) && x in FaceDownOf(L0, up, 0)
    ensures x in Total(L)
  {
    var k := FaceDownRow(L0, up, x);
    TotalPart(L0, k);
    assert x in multiset(L0[k]);
  }

  /** Wherever a collected card now lies, it is a tableau slot that was
      face-down to begin with. */
  lemma FaceDownSlot(L0: seq<seq<Card>>, up: set<Card>, L: seq<seq<Card>>, x: Card, p: nat, a: nat)
    requires |L0| == 13 && ShuffleOf(L0, up, L) && Unique(Total(L0)) && x in FaceDownOf(L0, up, 0)
    requires p < 13 && a < |L[p]| && L[p][a] == x
    ensures p < 7 && L0[p][a] !in up
  {
    var k := FaceDownRow(L0, up, x);
    UniqueRows(L0, k, p);
  }

  /** The row of the tableau a collected card comes from. */
  lemma FaceDownRow(L0: seq<seq<Card>>, up: set<Card>, x: Card) returns (k: nat)
    requires |L0| == 13 && x in FaceDownOf(L0, up, 0)
    ensures k < 7 && x in L0[k] && x !in up
  {
    FaceDownOfSpec(L0, up, 0);
    k :| 0 <= k < 7 && x in L0[k];
  }

  /** Exchanging two cards that sit in face-down slots of the tableau keeps
      the table a shuffle of L0. */
  lemma SwapKeepsShuffle(L0: seq<seq<Card>>, up: set<Card>, L: seq<seq<Card>>, p: nat, a: nat, q: nat, b: nat)
    requires |L0| == 13 && ShuffleOf(L0, up, L)
    requires p < 7 && q < 7 && a < |L[p]| && b < |L[q]|
    requires L0[p][a] !in up && L0[q][b] !in up && L[p][a] !in up && L[q][b] !in up
    ensures ShuffleOf(L0, up, SwapSlots(L, p, a, q, b))
  {
    SwapSlotsConserves(L, p, a, q, b);
  }

  /** The moves of one `doOneStep`. */
  datatype Step =
    | Halted
    | WasteToFoundation(b: nat)
    | TopToFoundation(t: nat, b: nat)
    | TableauToTableau(t: nat, i: nat, target: nat)
    | FlipTop(t: nat)
    | Draw
    | Recycle
    | Bridge(b: nat, t: nat)
    | Shuffle
    | Stuck

  /** Steps 1 and 2 of `doOneStep`: the waste top, then the first
      tableau top, to a foundation. */
  function FoundationStep(L: seq<seq<Card>>, up: set<Card>): Option<Step>
    requires |L| == 13
  {
    if TopMove(L, up, 12).Some? then Some(WasteToFoundation(TopMove(L, up, 12).value))
    else if FirstTopMove(L, up, 0).Some? then Some(TopToFoundation(FirstTopMove(L, up, 0).value.0, FirstTopMove(L, up, 0).value.1))
    else None
  }

  /** Step 3 of `doOneStep`: the first run that another tableau pile takes. */
  function RunStep(L: seq<seq<Card>>, up: set<Card>): Option<Step>
    requires |L| == 13
  {
    if FirstRunMove(L, up, 0).Some? then
      var m := FirstRunMove(L, up, 0).value;
      Some(TableauToTableau(m.0, m.1, m.2))
    else None
  }

  /** Step 4 of `doOneStep`: the first face-down tableau top is turned up. */
  function FlipStep(L: seq<seq<Card>>, up: set<Card>): Option<Step>
    requires |L| == 13
  {
    if FirstFlip(L, up, 0).Some? then Some(FlipTop(FirstFlip(L, up, 0).value)) else None
  }

  /** Steps 1 to 4: the first card move or flip that applies. */
  function MoveStep(L: seq<seq<Card>>, up: set<Card>): Option<Step>
    requires |L| == 13
  {
    if FoundationStep(L, up).Some? then FoundationStep(L, up)
    else if RunStep(L, up).Some? then RunStep(L, up)
    else FlipStep(L, up)
  }

  /** Step 5: with no tableau moves left, the stock action the cycle
      budget allows. */
  function DrawChoice(L: seq<seq<Card>>, up: set<Card>, stockCycles: int, lastWasteCount: int): Option<Step>
    requires |L| == 13
  {
    if !NoTableauMoves(L, up) then None
    else match DrawStep(L, stockCycles, lastWasteCount)
      case Some(drawn) => Some(if drawn then Draw else Recycle)
      case None => None
  }

  /** Steps 6 and 7: the first foundation bridge, else a shuffle while
      retries remain and some tableau card is face-down, else nothing. */
  function RescueStep(L: seq<seq<Card>>, up: set<Card>, retries: int): Step
    requires |L| == 13
  {
    if FirstBridge(L, up, 0).Some? then Bridge(FirstBridge(L, up, 0).value.0, FirstBridge(L, up, 0).value.1)
    else if retries < MaxRetries && FaceDownOf(L, up, 0) != [] then Shuffle
    else Stuck
  }

  /** Steps 5 to 7, once no card move or flip applies. */
  function LateStep(L: seq<seq<Card>>, up: set<Card>, retries: int, stockCycles: int, lastWasteCount: int): Step
    requires |L| == 13
  {
    if DrawChoice(L, up, stockCycles, lastWasteCount).Some? then DrawChoice(L, up, stockCycles, lastWasteCount).value
    else RescueStep(L, up, retries)
  }

  /** The first action of the cascade that applies, given whether the
      solver runs and its retry and stock counters. */
  function Plan(L: seq<seq<Card>>, up: set<Card>, running: bool, retries: int, stockCycles: int, lastWasteCount: int): Step
    requires |L| == 13
  {
    if !running then Halted
    else if MoveStep(L, up).Some? then MoveStep(L, up).value
    else LateStep(L, up, retries, stockCycles, lastWasteCount)
  }

  /** The `hasNoTableauMoves` test of step 5 always passes when the
      cascade reaches it: steps 3 and 4 found nothing to do. */
  lemma LateStepDraws(L: seq<seq<Card>>, up: set<Card>, stockCycles: int, lastWasteCount: int)
    requires |L| == 13 && MoveStep(L, up).None?
    ensures NoTableauMoves(L, up)
    ensures DrawChoice(L, up, stockCycles, lastWasteCount).Some? <==> DrawStep(L, stockCycles, lastWasteCount).Some?
  {
    NoMovesAfterCascade(L, up);
  }

  /** With no face-down card in the tableau, a shuffle leaves the table
      as it was. */
  lemma ShuffleOfNoFaceDown(L0: seq<seq<Card>>, up: set<Card>, L: seq<seq<Card>>)
    requires |L0| == 13 && ShuffleOf(L0, up, L) && FaceDownOf(L0, up, 0) == []
    ensures L == L0
  {
    FaceDownOfSpec(L0, up, 0);
    forall t | 0 <= t < 13
      ensures L[t] == L0[t]
    {
      if t < 7 {
        assert forall i :: 0 <= i < |L0[t]| ==> L0[t][i] in up;
      }
    }
  }

  /** Only a stopped solver reports `Halted`. */
  lemma RunningNeverHalts(L: seq<seq<Card>>, up: set<Card>, retries: int, stockCycles: int, lastWasteCount: int)
    requires |L| == 13
    ensures !Plan(L, up, true, retries, stockCycles, lastWasteCount).Halted?
  {
  }

  /** The stock-cycle counters after `step`: a move resets them, a stock
      check records the waste size and counts a cycle, and a halted solver
      leaves them alone. */
  function CountersAfter(step: Step, L: seq<seq<Card>>, up: set<Card>, stockCycles: int, lastWasteCount: int): (int, int)
    requires |L| == 13
  {
    match step
    case Halted => (stockCycles, lastWasteCount)
    case Draw => (Cycles(stockCycles, lastWasteCount, |L[12]|), |L[12]|)
    case Recycle => (Cycles(stockCycles, lastWasteCount, |L[12]|) + 1, |L[12]|)
    case Stuck =>
      if NoTableauMoves(L, up) then (Cycles(stockCycles, lastWasteCount, |L[12]|), |L[12]|)
      else (stockCycles, lastWasteCount)
    case _ => (0, -1)
  }

  /** The retry count after `step`: every call of `tryShuffleAndRetry`
      within the cap spends one retry, whether or not it shuffles. */
  function RetriesAfter(step: Step, retries: int): int {
    if step == Shuffle || (step == Stuck && retries < MaxRetries) then retries + 1 else retries
  }

  /** Collecting pile t after the piles before it. */
  lemma FaceDownStep(L: seq<seq<Card>>, up: set<Card>, t: nat, before: seq<Card>, fd: seq<Card>)
    requires |L| == 13 && t < 7 && fd == before + FaceDownIn(L[t], up)
    ensures fd + FaceDownOf(L, up, t + 1) == before + FaceDownOf(L, up, t)
  {
  }

  /** The inner collecting loop of `tryShuffleAndRetry`, over the cards of
      one pile: appends its face-down cards, bottom first. */
  method CollectIn(cards: seq<Card>, acc: seq<Card>, ghost up: set<Card>) returns (fd: seq<Card>)
    requires forall c :: c in cards ==> (c in up <==> c.isFaceUp)
    ensures fd == acc + FaceDownIn(cards, up)
  {
    fd := acc;
    for i := 0 to |cards|
      invariant fd == acc + FaceDownIn(cards[..i], up)
    {
      var card := cards[i];
      assert cards[..i + 1][..i] == cards[..i] && Last(cards[..i + 1]) == card;
      if !card.isFaceUp {
        fd := fd + [card];
      }
    }
    assert cards[..|cards|] == cards;
  }

  /** One auto-player bound to a game: whether it runs, how many shuffles
      it has spent, and the stock-cycle detector. */
  class AutoSolver {
    const playing: UIPlay
    var running: bool
    var retryCount: int
    var stockCycles: int
    var lastWasteCount: int

    /** Instantiation followed by `init(game)`: the field initialisers. */
    constructor (game: UIPlay)
      ensures playing == game && !running && retryCount == 0
      ensures stockCycles == 0 && lastWasteCount == -1
    {
      playing := game;
      running := false;
      retryCount := 0;
      stockCycles := 0;
      lastWasteCount := -1;
    }

    /** The face-up cards of the table. */
    ghost function FaceUp(): set<Card>
      reads playing.Piles(), playing.Cards()
    {
      set c | c in playing.Cards() && c.isFaceUp
    }

    /** A valid game, and counters in the ranges the solver keeps them in. */
    ghost predicate Valid()
      reads this, playing.Piles()
    {
      playing.Valid() && 0 <= retryCount <= MaxRetries && 0 <= stockCycles && -1 <= lastWasteCount
    }

    /** The pile fields hold the rows of the layout. */
    lemma PileRows()
      requires playing.Shape()
      ensures forall t :: 0 <= t < 7 ==> playing.tableau[t].cards == playing.Layout()[t]
      ensures forall b :: 0 <= b < 4 ==> playing.foundation[b].cards == playing.Layout()[7 + b]
      ensures playing.stock.cards == playing.Layout()[11] && playing.waste.cards == playing.Layout()[12]
    {
      playing.ShapeFacts();
    }

    /** A card of a pile is face-up exactly when it is in FaceUp(). */
    lemma FaceUpOf(p: Pile, c: Card)
      requires p in playing.Piles() && c in p.cards
      ensures c in FaceUp() <==> c.isFaceUp
    {
      playing.InDeck(p, c);
    }

    /** The cards of a pile are face-up exactly when they are in FaceUp(). */
    lemma FaceUpRow(p: Pile)
      requires p in playing.Piles()
      ensures forall c :: c in p.cards ==> (c in FaceUp() <==> c.isFaceUp)
    {
      forall c | c in p.cards
        ensures c in FaceUp() <==> c.isFaceUp
      {
        FaceUpOf(p, c);
      }
    }

    /** Every card on the table other than `flipped` is face-up exactly
        when it was in `up`. */
    ghost predicate FacesKept(up: set<Card>, flipped: Option<Card>)
      reads playing.Piles(), playing.Cards()
    {
      forall c :: c in playing.Cards() && Some(c) != flipped ==> (c in FaceUp() <==> c in up)
    }

    /** `tryMoveTopToFoundation`: the face-up top card of the pile goes to
        the first foundation that takes it, for 10 points; otherwise nothing
        changes. */
    method TryMoveTopToFoundation(pile: Pile, ghost t: nat) returns (ok: bool, ghost b: Option<nat>, ghost flipped: Option<Card>)
      requires playing.Valid() && t < 13 && playing.Piles()[t] == pile
      modifies playing, playing.undoManager, playing.Piles(), playing.Cards()
      ensures playing.Valid() && playing.Deck() == old(playing.Deck()) && playing.undoManager == old(playing.undoManager)
      ensures b == old(TopMove(playing.Layout(), FaceUp(), t))
      ensures ok <==> b.Some?
      ensures ok ==> var L := old(playing.Layout());
        L[t] != [] && b.value < 4 && playing.StackMoved(L, old(playing.undoManager.stack), old(playing.score), old(playing.moves),
          [Last(L[t])], pile, 7 + b.value, 10, flipped)
      ensures !ok ==> playing.Unmoved(old(playing.Layout()), old(playing.undoManager.stack), old(playing.score), old(playing.moves))
      ensures !ok ==> flipped == None
      ensures FacesKept(old(FaceUp()), flipped)
      ensures !ok ==> FaceUp() == old(FaceUp())
    {
      ghost var L, up := playing.Layout(), FaceUp();
      playing.CardsAllocated();
      flipped := None;
      var found := FindTopMove(pile, t);
      assert playing.Layout() == L && FaceUp() == up;
      b := found;
      if found.None? {
        return false, b, None;
      }
      var card := pile.GetTopCard().value;
      flipped := playing.MoveToFoundationAt([card], found.value, pile);
      ok := true;
      assert playing.Cards() == old(playing.Cards());
    }

    /** The search of `tryMoveTopToFoundation`: the foundation that takes
        the pile's top card, when that card is face-up. */
    method FindTopMove(pile: Pile, ghost t: nat) returns (b: Option<nat>)
      requires playing.Valid() && t < 13 && playing.Piles()[t] == pile
      ensures b == TopMove(playing.Layout(), FaceUp(), t)
      ensures b.Some? ==> pile.cards != [] && b.value < 4
    {
      ghost var L, up := playing.Layout(), FaceUp();
      assert L[t] == pile.cards;
      playing.CardsAllocated();
      var top := pile.GetTopCard();
      if top.None? {
        return None;
      }
      var card := top.value;
      FaceUpOf(pile, card);
      if !card.isFaceUp {
        return None;
      }
      b := FindFoundation(card);
      assert playing.Layout() == L && FaceUp() == up;
    }

    /** The foundation scan of `tryMoveTopToFoundation`: the first
        foundation that takes the card. */
    method FindFoundation(card: Card) returns (r: Option<nat>)
      requires playing.Shape()
      ensures r == FirstFoundationRow(card, playing.Layout(), 0)
    {
      ghost var L := playing.Layout();
      PileRows();
      var b := 0;
      while b < 4
        invariant b <= 4 && FirstFoundationRow(card, L, b) == FirstFoundationRow(card, L, 0)
      {
        if CanPlaceToFoundation(card, playing.foundation[b]) {
          return Some(b);
        }
        b := b + 1;
      }
      return None;
    }

    /** `tryMoveTableauToTableau` on tableau pile t: from the top down, the
        first face-up card that another tableau pile takes moves with every
        card above it to the first such pile; otherwise nothing changes. */
    method TryMoveTableauToTableau(t: nat) returns (ok: bool, ghost flipped: Option<Card>)
      requires playing.Valid() && t < 7
      modifies playing, playing.undoManager, playing.Piles(), playing.Cards()
      ensures playing.Valid() && playing.Deck() == old(playing.Deck()) && playing.undoManager == old(playing.undoManager)
      ensures ok <==> old(RunMove(playing.Layout(), FaceUp(), t, |playing.Layout()[t]|)).Some?
      ensures ok ==> var L := old(playing.Layout()); var m := old(RunMove(L, FaceUp(), t, |L[t]|)).value;
        playing.StackMoved(L, old(playing.undoManager.stack), old(playing.score), old(playing.moves),
          L[t][m.0..], playing.tableau[t], m.1, 0, flipped)
      ensures !ok ==> playing.Unmoved(old(playing.Layout()), old(playing.undoManager.stack), old(playing.score), old(playing.moves))
      ensures !ok ==> flipped == None
      ensures FacesKept(old(FaceUp()), flipped)
      ensures !ok ==> FaceUp() == old(FaceUp())
    {
      ghost var L := playing.Layout();
      ghost var up := FaceUp();
      playing.CardsAllocated();
      var m := FindRun(t);
      assert up == FaceUp();
      if m.None? {
        return false, None;
      }
      FirstTargetSpec(L[t][m.value.0], L, t, 0);
      flipped := MoveRun(t, m.value.0, m.value.1);
      ok := true;
    }

    /** The search of `tryMoveTableauToTableau` on tableau pile t, from the
        top card down: the first face-up card that another tableau pile
        takes, with the first such pile. */
    method FindRun(t: nat) returns (r: Option<(nat, nat)>)
      requires playing.Valid() && t < 7
      ensures r == RunMove(playing.Layout(), FaceUp(), t, |playing.Layout()[t]|)
    {
      ghost var L := playing.Layout();
      ghost var up := FaceUp();
      PileRows();
      var pile := playing.tableau[t];
      var cards := pile.cards;
      playing.ShapeFacts();
      var k: nat := |cards|;
      while k > 0
        invariant k <= |cards| && RunMove(L, up, t, k) == RunMove(L, up, t, |cards|)
        invariant playing.Layout() == L && FaceUp() == up
      {
        var card := cards[k - 1];
        FaceUpOf(pile, card);
        if card.isFaceUp {
          var u := 0;
          while u < 7
            invariant u <= 7 && FirstTarget(card, L, t, u) == FirstTarget(card, L, t, 0)
          {
            var target := playing.tableau[u];
            if target != pile && CanPlaceToTableau(card, target) {
              return Some((k - 1, u));
            }
            u := u + 1;
          }
        }
        k := k - 1;
      }
      return None;
    }

    /** `moveStack` of the cards of tableau pile t from position i up onto
        tableau pile u. */
    method MoveRun(t: nat, i: nat, u: nat) returns (ghost flipped: Option<Card>)
      requires playing.Valid() && t < 7 && u < 7 && i < |playing.tableau[t].cards|
      modifies playing, playing.undoManager, playing.Piles(), playing.Cards()
      ensures playing.Valid() && playing.Deck() == old(playing.Deck()) && playing.undoManager == old(playing.undoManager)
      ensures var L := old(playing.Layout());
        playing.StackMoved(L, old(playing.undoManager.stack), old(playing.score), old(playing.moves),
          L[t][i..], playing.tableau[t], u, 0, flipped)
      ensures forall c: Card :: old(allocated(c)) && Some(c) != flipped ==> c.isFaceUp == old(c.isFaceUp)
    {
      PileRows();
      playing.IndexFacts();
      var pile := playing.tableau[t];
      playing.PileNoDup(pile);
      var stack := pile.cards[i..];
      assert forall c :: c in stack ==> c in pile.cards;
      flipped := playing.MoveStack(stack, playing.tableau[u], pile);
    }

    /** `tryFlipTableauCard` on tableau pile t: a face-down top card is
        turned up, with no undo entry and no points. */
    method TryFlipTableauCard(t: nat) returns (ok: bool)
      requires playing.Valid() && t < 7
      modifies playing.Cards()
      ensures playing.Valid() && playing.Layout() == old(playing.Layout())
      ensures ok <==> old(playing.Layout()[t] != [] && Last(playing.Layout()[t]) !in FaceUp())
      ensures ok ==> FaceUp() == old(FaceUp()) + {Last(old(playing.Layout())[t])}
      ensures !ok ==> FaceUp() == old(FaceUp())
    {
      PileRows();
      playing.CardsAllocated();
      var pile := playing.tableau[t];
      var top := pile.GetTopCard();
      if top.None? {
        return false;
      }
      var card := top.value;
      FaceUpOf(pile, card);
      if card.isFaceUp {
        return false;
      }
      playing.InDeck(pile, card);
      ghost var up := FaceUp();
      card.FlipFaceUp();
      forall c | c in playing.Cards()
        ensures c in FaceUp() <==> c in up || c == card
      {
      }
      ok := true;
    }

    /** `hasNoTableauMoves`: every non-empty tableau pile shows a face-up
        top card that no other tableau pile takes. */
    method HasNoTableauMoves() returns (r: bool)
      requires playing.Valid()
      ensures r == NoTableauMoves(playing.Layout(), FaceUp())
    {
      ghost var L := playing.Layout();
      ghost var up := FaceUp();
      PileRows();
      playing.ShapeFacts();
      playing.CardsAllocated();
      for t := 0 to 7
        invariant forall k :: 0 <= k < t ==> Settled(L, up, k)
        invariant playing.Layout() == L && FaceUp() == up
      {
        var pile := playing.tableau[t];
        var top := pile.GetTopCard();
        if top.Some? {
          var card := top.value;
          FaceUpOf(pile, card);
          if !card.isFaceUp {
            assert !Settled(L, up, t);
            return false;
          }
          var elsewhere := HasTarget(card, t);
          assert playing.Layout() == L && FaceUp() == up;
          FirstTargetSpec(card, L, t, 0);
          if elsewhere {
            ghost var u := FirstTarget(card, L, t, 0).value;
            assert u != t && TableauAccepts(card, L[u]);
            assert !Settled(L, up, t);
            return false;
          }
          assert Settled(L, up, t);
        }
      }
      return true;
    }

    /** The inner scan of `hasNoTableauMoves` for the top card of tableau
        pile t: some other tableau pile takes it. */
    method HasTarget(card: Card, t: nat) returns (r: bool)
      requires playing.Valid() && t < 7
      ensures r <==> FirstTarget(card, playing.Layout(), t, 0).Some?
    {
      ghost var L := playing.Layout();
      PileRows();
      var pile := playing.tableau[t];
      playing.ShapeFacts();
      for u := 0 to 7
        invariant FirstTarget(card, L, t, u) == FirstTarget(card, L, t, 0)
      {
        var target := playing.tableau[u];
        if target != pile && CanPlaceToTableau(card, target) {
          return true;
        }
      }
      return false;
    }

    /** `wouldUnlockNewMoves` on tableau pile t: the pile holds a
        face-down card. */
    method WouldUnlockNewMoves(t: nat) returns (r: bool)
      requires playing.Valid() && t < 7
      ensures r == HasFaceDown(playing.Layout()[t], FaceUp())
    {
      ghost var up := FaceUp();
      PileRows();
      var pile := playing.tableau[t];
      var cards := pile.cards;
      playing.CardsAllocated();
      HasFaceDownAt(cards, up);
      for i := 0 to |cards|
        invariant forall k :: 0 <= k < i ==> cards[k] in up
        invariant FaceUp() == up
      {
        var card := cards[i];
        FaceUpOf(pile, card);
        if !card.isFaceUp {
          return true;
        }
      }
      return false;
    }

    /** The search of `tryUseFoundationAsBridge`: the first foundation whose
        top card some tableau pile with a face-down card takes, with the
        first such pile. */
    method FindBridge() returns (r: Option<(nat, nat)>)
      requires playing.Valid()
      ensures r == FirstBridge(playing.Layout(), FaceUp(), 0)
    {
      ghost var L := playing.Layout();
      ghost var up := FaceUp();
      PileRows();
      playing.CardsAllocated();
      for b := 0 to 4
        invariant FirstBridge(L, up, b) == FirstBridge(L, up, 0)
        invariant playing.Layout() == L && FaceUp() == up
      {
        var top := playing.foundation[b].GetTopCard();
        if top.Some? {
          var u := FindBridgeTarget(top.value);
          assert playing.Layout() == L && FaceUp() == up;
          if u.Some? {
            return Some((b, u.value));
          }
        }
      }
      return None;
    }

    /** The tableau scan of `tryUseFoundationAsBridge` for one foundation
        top card: the first pile that takes it and would unlock a move. */
    method FindBridgeTarget(card: Card) returns (r: Option<nat>)
      requires playing.Valid()
      ensures r == BridgeTarget(card, playing.Layout(), FaceUp(), 0)
    {
      ghost var L := playing.Layout();
      ghost var up := FaceUp();
      PileRows();
      playing.CardsAllocated();
      for u := 0 to 7
        invariant BridgeTarget(card, L, up, u) == BridgeTarget(card, L, up, 0)
        invariant playing.Layout() == L && FaceUp() == up
      {
        if CanPlaceToTableau(card, playing.tableau[u]) {
          var unlocks := WouldUnlockNewMoves(u);
          assert playing.Layout() == L && FaceUp() == up;
          if unlocks {
            return Some(u);
          }
        }
      }
      return None;
    }

    /** `tryUseFoundationAsBridge`: the top card of the first such
        foundation goes back to the first such tableau pile, for no points. */
    method TryUseFoundationAsBridge() returns (ok: bool, ghost m: Option<(nat, nat)>, ghost flipped: Option<Card>)
      requires playing.Valid()
      modifies playing, playing.undoManager, playing.Piles(), playing.Cards()
      ensures playing.Valid() && playing.Deck() == old(playing.Deck()) && playing.undoManager == old(playing.undoManager)
      ensures m == old(FirstBridge(playing.Layout(), FaceUp(), 0))
      ensures ok <==> m.Some?
      ensures ok ==> var L := old(playing.Layout());
        m.value.0 < 4 && m.value.1 < 7 && L[7 + m.value.0] != [] &&
        playing.StackMoved(L, old(playing.undoManager.stack), old(playing.score), old(playing.moves),
          [Last(L[7 + m.value.0])], playing.foundation[m.value.0], m.value.1, 0, flipped)
      ensures !ok ==> playing.Unmoved(old(playing.Layout()), old(playing.undoManager.stack), old(playing.score), old(playing.moves))
      ensures !ok ==> flipped == None
      ensures FacesKept(old(FaceUp()), flipped)
      ensures !ok ==> FaceUp() == old(FaceUp())
    {
      ghost var L := playing.Layout();
      ghost var up := FaceUp();
      playing.CardsAllocated();
      var found := FindBridge();
      assert up == FaceUp();
      m := found;
      if found.None? {
        return false, m, None;
      }
      FirstBridgeSpec(L, up, 0);
      var b, u := found.value.0, found.value.1;
      BridgeTargetSpec(Last(L[7 + b]), L, up, 0);
      PileRows();
      playing.IndexFacts();
      var fd := playing.foundation[b];
      var top := fd.cards[|fd.cards| - 1];
      flipped := playing.MoveStack([top], playing.tableau[u], fd);
      ok := true;
    }

    /** `tryDrawFromStock`: the cycle detector counts the calls that find
        the waste as large as the call before; within the budget the top
        stock card is drawn, or an empty stock is refilled from the waste,
        which counts one more cycle. */
    method TryDrawFromStock() returns (ok: bool, ghost d: Option<bool>)
      requires Valid()
      modifies this, playing.Piles(), playing.Cards()
      ensures d == old(DrawStep(playing.Layout(), stockCycles, lastWasteCount))
      ensures Valid() && playing.Deck() == old(playing.Deck())
      ensures running == old(running) && retryCount == old(retryCount)
      ensures lastWasteCount == |old(playing.Layout())[12]|
      ensures ok <==> d.Some?
      ensures var c := old(Cycles(stockCycles, lastWasteCount, |playing.Layout()[12]|));
        stockCycles == if d == Some(false) then c + 1 else c
      ensures DrawEffect(old(playing.Layout()), old(FaceUp()), d)
    {
      ghost var L, up := playing.Layout(), FaceUp();
      PileRows();
      var currentWasteCount := |playing.waste.cards|;
      if lastWasteCount == currentWasteCount {
        stockCycles := stockCycles + 1;
      } else {
        stockCycles := 0;
      }
      lastWasteCount := currentWasteCount;
      assert playing.Layout() == L && FaceUp() == up;
      if stockCycles >= MaxStockCycles {
        return false, None;
      }
      var action := DrawOrRecycle();
      ok, d := action.Some?, action;
    }

    /** The part of `tryDrawFromStock` after the cycle check: the stock
        action, and one more cycle counted when it recycled the waste. */
    method DrawOrRecycle() returns (d: Option<bool>)
      requires Valid()
      modifies this, playing.Piles(), playing.Cards()
      ensures Valid() && playing.Deck() == old(playing.Deck())
      ensures running == old(running) && retryCount == old(retryCount) && lastWasteCount == old(lastWasteCount)
      ensures var L := old(playing.Layout());
        d == if L[11] != [] then Some(true) else if L[12] != [] then Some(false) else None
      ensures stockCycles == if d == Some(false) then old(stockCycles) + 1 else old(stockCycles)
      ensures DrawEffect(old(playing.Layout()), old(FaceUp()), d)
    {
      ghost var L, up := playing.Layout(), FaceUp();
      ghost var cs: set<object> := playing.Cards();
      assert this !in cs;
      d := StockAction();
      if d == Some(false) {
        CountRecycle(L, up);
      }
    }

    /** `this.stockCycles++` after a recycle: the recycled table stays as it is. */
    method CountRecycle(ghost L: seq<seq<Card>>, ghost up: set<Card>)
      requires Valid() && |L| == 13 && DrawEffect(L, up, Some(false))
      modifies this
      ensures Valid() && playing.Deck() == old(playing.Deck()) && DrawEffect(L, up, Some(false))
      ensures stockCycles == old(stockCycles) + 1
      ensures running == old(running) && retryCount == old(retryCount) && lastWasteCount == old(lastWasteCount)
    {
      playing.CardsAllocated();
      stockCycles := stockCycles + 1;
    }

    /** The stock clause of `tryDrawFromStock` once the cycle budget
        allows it: draw from a non-empty stock, else recycle a non-empty
        waste, else nothing. */
    method StockAction() returns (d: Option<bool>)
      requires playing.Valid()
      modifies playing.Piles(), playing.Cards()
      ensures playing.Valid() && playing.Deck() == old(playing.Deck())
      ensures var L := old(playing.Layout());
        d == if L[11] != [] then Some(true) else if L[12] != [] then Some(false) else None
      ensures DrawEffect(old(playing.Layout()), old(FaceUp()), d)
    {
      PileRows();
      var stockCard := playing.stock.GetTopCard();
      if stockCard.Some? {
        DrawStockCard();
        return Some(true);
      }
      if |playing.waste.cards| > 0 {
        RecycleWaste();
        return Some(false);
      }
      return None;
    }

    /** What the stock action d of `tryDrawFromStock` does to the table
        whose layout was L and whose face-up cards were `up`: nothing, a
        card drawn face-up onto the waste, or the waste turned back down
        onto the stock. */
    ghost predicate DrawEffect(L: seq<seq<Card>>, up: set<Card>, d: Option<bool>)
      reads playing.Piles(), playing.Cards()
      requires |L| == 13
    {
      match d
      case None => playing.Layout() == L && FaceUp() == up
      case Some(true) => L[11] != [] && playing.Layout() == MoveOne(L, 11, 12, Last(L[11])) && FaceUp() == up + {Last(L[11])}
      case Some(false) => playing.Layout() == Moved(L, 12, 11, Reverse(L[12])) && FaceUp() == up - (set c | c in L[12])
    }

    /** `onClickStock` on a non-empty stock: its top card is turned up
        onto the waste. */
    method DrawStockCard()
      requires playing.Valid() && playing.stock.cards != []
      modifies playing.Piles(), playing.Cards()
      ensures playing.Valid() && playing.Deck() == old(playing.Deck())
      ensures var L := old(playing.Layout());
        L[11] != [] && playing.Layout() == MoveOne(L, 11, 12, Last(L[11])) && FaceUp() == old(FaceUp()) + {Last(L[11])}
    {
      ghost var up := FaceUp();
      PileRows();
      playing.CardsAllocated();
      ghost var drawn := playing.OnClickStock();
      forall c | c in playing.Cards()
        ensures c in FaceUp() <==> c in up || c == drawn.value
      {
      }
    }

    /** `recycleWasteToStock`: the waste goes back to the stock face-down. */
    method RecycleWaste()
      requires playing.Valid()
      modifies playing.Piles(), playing.Cards()
      ensures playing.Valid() && playing.Deck() == old(playing.Deck())
      ensures var L := old(playing.Layout());
        playing.Layout() == Moved(L, 12, 11, Reverse(L[12])) && FaceUp() == old(FaceUp()) - (set c | c in L[12])
    {
      ghost var L := playing.Layout();
      ghost var up := FaceUp();
      PileRows();
      playing.CardsAllocated();
      playing.RecycleWasteToStock();
      forall c | c in playing.Cards()
        ensures c in FaceUp() <==> c in up && c !in L[12]
      {
      }
    }

    /** `tryShuffleAndRetry`: refused once the retries are spent; otherwise
        it spends one retry, collects the face-down cards of the tableau
        and, when there is at least one, permutes them among their slots. */
    method TryShuffleAndRetry() returns (ok: bool)
      requires Valid()
      modifies this, playing.Piles()
      ensures Valid() && playing.Deck() == old(playing.Deck()) && FaceUp() == old(FaceUp())
      ensures running == old(running) && stockCycles == old(stockCycles) && lastWasteCount == old(lastWasteCount)
      ensures retryCount == if old(retryCount) < MaxRetries then old(retryCount) + 1 else old(retryCount)
      ensures ok <==> old(retryCount) < MaxRetries && old(FaceDownOf(playing.Layout(), FaceUp(), 0)) != []
      ensures ShuffleOf(old(playing.Layout()), old(FaceUp()), playing.Layout())
      ensures !ok ==> playing.Layout() == old(playing.Layout())
    {
      ghost var L, up := playing.Layout(), FaceUp();
      if retryCount >= MaxRetries {
        ShuffleOfSelf(L, up);
        return false;
      }
      retryCount := retryCount + 1;
      assert playing.Layout() == L && FaceUp() == up;
      ghost var cs: set<object> := playing.Cards();
      assert this !in cs;
      ok := ShuffleFaceDown();
    }

    /** The part of `tryShuffleAndRetry` after the retry count: collect the
        face-down cards of the tableau and, if there is at least one,
        permute them among their slots. */
    method ShuffleFaceDown() returns (ok: bool)
      requires playing.Valid()
      modifies playing.Piles()
      ensures playing.Valid() && playing.Deck() == old(playing.Deck()) && FaceUp() == old(FaceUp())
      ensures ok <==> old(FaceDownOf(playing.Layout(), FaceUp(), 0)) != []
      ensures ShuffleOf(old(playing.Layout()), old(FaceUp()), playing.Layout())
      ensures !ok ==> playing.Layout() == old(playing.Layout())
    {
      ghost var L, up := playing.Layout(), FaceUp();
      playing.CardsAllocated();
      ShuffleOfSelf(L, up);
      var faceDown := CollectFaceDown();
      assert playing.Layout() == L && FaceUp() == up;
      if |faceDown| == 0 {
        return false;
      }
      ShuffleCards(faceDown, L, up);
      assert playing.Deck() == Total(L);
      ok := true;
    }

    /** The collecting loops of `tryShuffleAndRetry`: the face-down cards
        of the tableau, pile by pile, bottom first. */
    method CollectFaceDown() returns (fd: seq<Card>)
      requires playing.Valid()
      ensures fd == FaceDownOf(playing.Layout(), FaceUp(), 0)
    {
      ghost var L, up := playing.Layout(), FaceUp();
      PileRows();
      playing.CardsAllocated();
      fd := [];
      for t := 0 to 7
        invariant fd + FaceDownOf(L, up, t) == FaceDownOf(L, up, 0)
      {
        var pile := playing.tableau[t];
        FaceUpRow(pile);
        ghost var before := fd;
        fd := CollectIn(pile.cards, fd, up);
        FaceDownStep(L, up, t, before, fd);
      }
    }

    /** `node.parent` and `getSiblingIndex()` of a card on the table: the
        pile it lies in and its position there. */
    method Locate(x: Card) returns (p: nat, a: nat)
      requires playing.Valid() && x in playing.Cards()
      ensures var L := playing.Layout(); p < 13 && a < |L[p]| && L[p][a] == x && a == IndexOf(L[p], x)
    {
      ghost var L := playing.Layout();
      var ps := playing.Piles();
      for r := 0 to 13
        invariant forall k :: 0 <= k < r ==> x !in L[k]
      {
        var k := IndexOf(ps[r].cards, x);
        if k >= 0 {
          return r, k;
        }
      }
      ghost var r := TotalRow(L, x);
      assert false;
    }

    /** One swap of `tryShuffleAndRetry`: on a valid table the two cards
        exchange their slots, and no card is turned. */
    method SwapNodes(x: Card, y: Card) returns (ghost p: nat, ghost a: nat, ghost q: nat, ghost b: nat)
      requires playing.Valid() && x in playing.Cards() && y in playing.Cards()
      modifies playing.Piles()
      ensures playing.Valid() && playing.Deck() == old(playing.Deck()) && FaceUp() == old(FaceUp())
      ensures var L := old(playing.Layout());
        p < 13 && q < 13 && a < |L[p]| && b < |L[q]| && L[p][a] == x && L[q][b] == y &&
        playing.Layout() == SwapSlots(L, p, a, q, b)
    {
      ghost var up := FaceUp();
      playing.CardsAllocated();
      p, a, q, b := ExchangeNodes(x, y);
      forall c | c in playing.Cards()
        ensures c in FaceUp() <==> c in up
      {
      }
    }

    /** The four steps of a swap: x takes y's parent and sibling index,
        then y takes x's old parent and index. On a valid table this
        exchanges the two cards' slots. */
    method ExchangeNodes(x: Card, y: Card) returns (ghost p: nat, ghost a: nat, ghost q: nat, ghost b: nat)
      requires playing.Valid() && x in playing.Cards() && y in playing.Cards()
      modifies playing.Piles()
      ensures playing.Valid() && playing.Deck() == old(playing.Deck())
      ensures var L := old(playing.Layout());
        p < 13 && q < 13 && a < |L[p]| && b < |L[q]| && L[p][a] == x && L[q][b] == y &&
        playing.Layout() == SwapSlots(L, p, a, q, b)
    {
      ghost var L := playing.Layout();
      var tempParent, tempIndex := Locate(x);
      var parentOfY, indexOfY := Locate(y);
      p, a, q, b := tempParent, tempIndex, parentOfY, indexOfY;
      var ps := playing.Piles();
      var P, Q := ps[tempParent], ps[parentOfY];
      playing.IndexAt(tempParent);
      playing.IndexAt(parentOfY);
      ghost var L2 := JoinSibling(L, p, q, x, y);
      JoinSiblingOf(x, P, Q, y);
      assert playing.Layout() == L2;
      assert y in Q.cards by {
        assert Q.cards == L2[q];
      }
      ReparentTo(y, Q, P, tempIndex);
      assert playing.Layout() == Reparent(L2, q, p, y, a) == Exchange(L, p, a, q, b);
      ExchangeIsSwap(L, p, a, q, b);
      SwapSlotsConserves(L, p, a, q, b);
      assert playing.Deck() == old(playing.Deck());
    }

    /** The swapping loop of `tryShuffleAndRetry` over the collected cards:
        card i trades places with card j, for a j the game draws with
        `Math.random()` and the model leaves open. */
    method ShuffleCards(fd: seq<Card>, ghost L0: seq<seq<Card>>, ghost up: set<Card>)
      requires playing.Valid() && |L0| == 13 && Unique(Total(L0))
      requires ShuffleOf(L0, up, playing.Layout()) && FaceUp() == up
      requires forall c :: c in fd ==> c in FaceDownOf(L0, up, 0)
      modifies playing.Piles()
      ensures playing.Valid() && ShuffleOf(L0, up, playing.Layout()) && FaceUp() == up
    {
      for i := 0 to |fd|
        invariant playing.Valid() && ShuffleOf(L0, up, playing.Layout()) && FaceUp() == up
      {
        var j :| 0 <= j < |fd|;
        var x, y := fd[i], fd[j];
        ghost var L := playing.Layout();
        FaceDownOnTable(L0, up, L, x);
        FaceDownOnTable(L0, up, L, y);
        ghost var p, a, q, b := SwapNodes(x, y);
        FaceDownSlot(L0, up, L, x, p, a);
        FaceDownSlot(L0, up, L, y, q, b);
        SwapKeepsShuffle(L0, up, L, p, a, q, b);
      }
    }

    /** `x.parent = target.node; x.setSiblingIndex(y.getSiblingIndex())`. */
    method JoinSiblingOf(x: Card, from: Pile, target: Pile, y: Card)
      requires playing.Shape() && playing.Roles() && from in playing.Piles() && target in playing.Piles()
      requires x in from.cards && y in target.cards
      modifies from, target
      ensures playing.Roles()
      ensures playing.Layout() == JoinSibling(old(playing.Layout()), playing.Index(from), playing.Index(target), x, y)
    {
      ghost var L := playing.Layout();
      ghost var i, j := playing.Index(from), playing.Index(target);
      playing.MoveCard(x, from, target);
      ghost var L1 := MoveOne(L, i, j, x);
      assert y in target.cards && x in target.cards by {
        if i != j {
          assert L1[j] == L[j] + [x];
        }
      }
      var index := IndexOf(target.cards, y);
      playing.Reorder(x, target, index);
    }

    /** `y.parent = target.node; y.setSiblingIndex(index)`. */
    method ReparentTo(y: Card, from: Pile, target: Pile, index: nat)
      requires playing.Shape() && playing.Roles() && from in playing.Piles() && target in playing.Piles()
      requires y in from.cards
      modifies from, target
      ensures playing.Roles()
      ensures playing.Layout() == Reparent(old(playing.Layout()), playing.Index(from), playing.Index(target), y, index)
    {
      ghost var L := playing.Layout();
      ghost var i, j := playing.Index(from), playing.Index(target);
      playing.MoveCard(y, from, target);
      assert y in target.cards by {
        if i != j {
          assert MoveOne(L, i, j, y)[j] == L[j] + [y];
        }
      }
      playing.Reorder(y, target, index);
    }

    /** Table, faces, score, moves and undo history as they were. */
    ghost predicate Unchanged(L: seq<seq<Card>>, up: set<Card>, U: seq<UndoMove>, s: int, m: int)
      reads playing, playing.undoManager, playing.Piles(), playing.Cards()
    {
      playing.Unmoved(L, U, s, m) && FaceUp() == up
    }

    /** What `doOneStep` did when it took `step` on a table that had layout
        L, face-up cards `up`, undo history U, score s and move count m;
        `flipped` is the card a move turned up on the pile it left. A card
        move is recorded for undo and scores 10 points exactly when it goes
        to a foundation; a flip, a stock action and a shuffle change neither
        score nor history. */
    ghost predicate Effect(step: Step, L: seq<seq<Card>>, up: set<Card>, U: seq<UndoMove>, s: int, m: int, flipped: Option<Card>)
      reads playing, playing.undoManager, playing.Piles(), playing.Cards()
      requires playing.Shape() && |L| == 13
    {
      match step
      case WasteToFoundation(b) =>
        b < 4 && L[12] != [] && FacesKept(up, flipped)
        && playing.StackMoved(L, U, s, m, [Last(L[12])], playing.waste, 7 + b, 10, flipped)
      case TopToFoundation(t, b) =>
        t < 7 && b < 4 && L[t] != [] && FacesKept(up, flipped)
        && playing.StackMoved(L, U, s, m, [Last(L[t])], playing.tableau[t], 7 + b, 10, flipped)
      case TableauToTableau(t, i, u) =>
        t < 7 && u < 7 && i < |L[t]| && FacesKept(up, flipped)
        && playing.StackMoved(L, U, s, m, L[t][i..], playing.tableau[t], u, 0, flipped)
      case FlipTop(t) =>
        t < 7 && L[t] != [] && playing.Unmoved(L, U, s, m) && FaceUp() == up + {Last(L[t])}
      case Draw =>
        playing.score == s && playing.moves == m && playing.undoManager.stack == U && DrawEffect(L, up, Some(true))
      case Recycle =>
        playing.score == s && playing.moves == m && playing.undoManager.stack == U && DrawEffect(L, up, Some(false))
      case Bridge(b, t) =>
        b < 4 && t < 7 && L[7 + b] != [] && FacesKept(up, flipped)
        && playing.StackMoved(L, U, s, m, [Last(L[7 + b])], playing.foundation[b], t, 0, flipped)
      case Shuffle =>
        playing.score == s && playing.moves == m && playing.undoManager.stack == U
        && ShuffleOf(L, up, playing.Layout()) && FaceUp() == up
      case _ => Unchanged(L, up, U, s, m)
    }

    /** The tableau loop of step 2: the top of the first tableau pile that
        a foundation takes goes there. */
    method TopsToFoundation() returns (ok: bool, ghost flipped: Option<Card>)
      requires playing.Valid()
      modifies playing, playing.undoManager, playing.Piles(), playing.Cards()
      ensures playing.Valid() && playing.Deck() == old(playing.Deck()) && playing.undoManager == old(playing.undoManager)
      ensures ok <==> old(FirstTopMove(playing.Layout(), FaceUp(), 0)).Some?
      ensures ok ==> var r := old(FirstTopMove(playing.Layout(), FaceUp(), 0)).value;
        Effect(TopToFoundation(r.0, r.1), old(playing.Layout()), old(FaceUp()),
          old(playing.undoManager.stack), old(playing.score), old(playing.moves), flipped)
      ensures !ok ==> Unchanged(old(playing.Layout()), old(FaceUp()), old(playing.undoManager.stack), old(playing.score), old(playing.moves))
    {
      ghost var L, up := playing.Layout(), FaceUp();
      ghost var U, s, m := playing.undoManager.stack, playing.score, playing.moves;
      for t := 0 to 7
        invariant FirstTopMove(L, up, t) == FirstTopMove(L, up, 0)
        invariant playing.Valid() && playing.Deck() == old(playing.Deck()) && playing.undoManager == old(playing.undoManager)
        invariant Unchanged(L, up, U, s, m)
      {
        ghost var b;
        ok, b, flipped := TryMoveTopToFoundation(playing.tableau[t], t);
        if ok {
          assert FirstTopMove(L, up, t) == Some((t, b.value));
          assert Effect(TopToFoundation(t, b.value), L, up, U, s, m, flipped);
          return;
        }
      }
      return false, None;
    }

    /** Steps 1 and 2: the waste top, else the first tableau top that a
        foundation takes, goes there. */
    method FoundationPhase() returns (ok: bool, ghost st: Option<Step>, ghost flipped: Option<Card>)
      requires playing.Valid()
      modifies playing, playing.undoManager, playing.Piles(), playing.Cards()
      ensures playing.Valid() && playing.Deck() == old(playing.Deck()) && playing.undoManager == old(playing.undoManager)
      ensures st == old(FoundationStep(playing.Layout(), FaceUp())) && (ok <==> st.Some?)
      ensures ok ==> Effect(st.value, old(playing.Layout()), old(FaceUp()),
        old(playing.undoManager.stack), old(playing.score), old(playing.moves), flipped)
      ensures !ok ==> Unchanged(old(playing.Layout()), old(FaceUp()), old(playing.undoManager.stack), old(playing.score), old(playing.moves))
    {
      ghost var L, up := playing.Layout(), FaceUp();
      ghost var U, s, m := playing.undoManager.stack, playing.score, playing.moves;
      ghost var b;
      ok, b, flipped := TryMoveTopToFoundation(playing.waste, 12);
      if ok {
        st := Some(WasteToFoundation(b.value));
        assert Effect(st.value, L, up, U, s, m, flipped);
        return;
      }
      ok, flipped := TopsToFoundation();
      st := FoundationStep(L, up);
    }

    /** Step 3: the first tableau pile with a run that another tableau
        pile takes moves it there. */
    method RunPhase() returns (ok: bool, ghost st: Option<Step>, ghost flipped: Option<Card>)
      requires playing.Valid()
      modifies playing, playing.undoManager, playing.Piles(), playing.Cards()
      ensures playing.Valid() && playing.Deck() == old(playing.Deck()) && playing.undoManager == old(playing.undoManager)
      ensures st == old(RunStep(playing.Layout(), FaceUp())) && (ok <==> st.Some?)
      ensures ok ==> Effect(st.value, old(playing.Layout()), old(FaceUp()),
        old(playing.undoManager.stack), old(playing.score), old(playing.moves), flipped)
      ensures !ok ==> Unchanged(old(playing.Layout()), old(FaceUp()), old(playing.undoManager.stack), old(playing.score), old(playing.moves))
    {
      ghost var L, up := playing.Layout(), FaceUp();
      ghost var U, s, m := playing.undoManager.stack, playing.score, playing.moves;
      for t := 0 to 7
        invariant FirstRunMove(L, up, t) == FirstRunMove(L, up, 0)
        invariant playing.Valid() && playing.Deck() == old(playing.Deck()) && playing.undoManager == old(playing.undoManager)
        invariant Unchanged(L, up, U, s, m)
      {
        ghost var r := RunMove(L, up, t, |L[t]|);
        ok, flipped := TryMoveTableauToTableau(t);
        if ok {
          assert FirstRunMove(L, up, t) == Some((t, r.value.0, r.value.1));
          FirstTargetSpec(L[t][r.value.0], L, t, 0);
          st := Some(TableauToTableau(t, r.value.0, r.value.1));
          return;
        }
        assert r.None?;
      }
      return false, None, None;
    }

    /** Step 4: the first face-down tableau top is turned up. */
    method FlipPhase() returns (ok: bool, ghost st: Option<Step>)
      requires playing.Valid()
      modifies playing.Cards()
      ensures playing.Valid() && playing.Layout() == old(playing.Layout())
      ensures st == old(FlipStep(playing.Layout(), FaceUp())) && (ok <==> st.Some?)
      ensures ok ==> Effect(st.value, old(playing.Layout()), old(FaceUp()),
        old(playing.undoManager.stack), old(playing.score), old(playing.moves), None)
      ensures !ok ==> Unchanged(old(playing.Layout()), old(FaceUp()), old(playing.undoManager.stack), old(playing.score), old(playing.moves))
    {
      ghost var L, up := playing.Layout(), FaceUp();
      for t := 0 to 7
        invariant FirstFlip(L, up, t) == FirstFlip(L, up, 0)
        invariant playing.Valid() && playing.Layout() == L && FaceUp() == up
      {
        ok := TryFlipTableauCard(t);
        if ok {
          st := FlipStep(L, up);
          return;
        }
      }
      return false, None;
    }

    /** Steps 1 to 4: the first card move or flip of the cascade. */
    method MovePhase() returns (ok: bool, ghost st: Option<Step>, ghost flipped: Option<Card>)
      requires playing.Valid()
      modifies playing, playing.undoManager, playing.Piles(), playing.Cards()
      ensures playing.Valid() && playing.Deck() == old(playing.Deck()) && playing.undoManager == old(playing.undoManager)
      ensures st == old(MoveStep(playing.Layout(), FaceUp())) && (ok <==> st.Some?)
      ensures ok ==> Effect(st.value, old(playing.Layout()), old(FaceUp()),
        old(playing.undoManager.stack), old(playing.score), old(playing.moves), flipped)
      ensures !ok ==> Unchanged(old(playing.Layout()), old(FaceUp()), old(playing.undoManager.stack), old(playing.score), old(playing.moves))
    {
      ok, st, flipped := FoundationPhase();
      if ok {
        return;
      }
      ok, st, flipped := RunPhase();
      if ok {
        return;
      }
      flipped := None;
      ok, st := FlipPhase();
    }

    /** Step 5: when `hasNoTableauMoves` holds, `tryDrawFromStock` runs its
        cycle check and takes the stock action the budget allows; the
        counters are left as that check sets them. */
    method DrawPhase() returns (ok: bool, ghost st: Option<Step>)
      requires Valid()
      modifies this, playing.Piles(), playing.Cards()
      ensures Valid() && playing.Deck() == old(playing.Deck())
      ensures running == old(running) && retryCount == old(retryCount)
      ensures st == old(DrawChoice(playing.Layout(), FaceUp(), stockCycles, lastWasteCount)) && (ok <==> st.Some?)
      ensures ok ==> Effect(st.value, old(playing.Layout()), old(FaceUp()),
        old(playing.undoManager.stack), old(playing.score), old(playing.moves), None)
      ensures !ok ==> Unchanged(old(playing.Layout()), old(FaceUp()), old(playing.undoManager.stack), old(playing.score), old(playing.moves))
      ensures var L := old(playing.Layout());
        (stockCycles, lastWasteCount) ==
          if !old(NoTableauMoves(playing.Layout(), FaceUp())) then (old(stockCycles), old(lastWasteCount))
          else var c := old(Cycles(stockCycles, lastWasteCount, |L[12]|));
            (if st == Some(Recycle) then c + 1 else c, |L[12]|)
    {
      ghost var L, up := playing.Layout(), FaceUp();
      playing.CardsAllocated();
      var noMoves := HasNoTableauMoves();
      assert playing.Layout() == L && FaceUp() == up;
      if !noMoves {
        return false, None;
      }
      ghost var U, sc, mv := playing.undoManager.stack, playing.score, playing.moves;
      ghost var d;
      ok, d := TryDrawFromStock();
      assert playing.undoManager.stack == U && playing.score == sc && playing.moves == mv;
      st := DrawChoice(L, up, old(stockCycles), old(lastWasteCount));
      assert st == if d.None? then None else Some(if d.value then Draw else Recycle);
    }

    /** `resetStockCycle`: the cycle detector starts over. */
    method ResetStockCycle()
      modifies this
      ensures stockCycles == 0 && lastWasteCount == -1
      ensures running == old(running) && retryCount == old(retryCount)
      ensures playing.Layout() == old(playing.Layout()) && FaceUp() == old(FaceUp())
    {
      playing.CardsAllocated();
      stockCycles := 0;
      lastWasteCount := -1;
    }

    /** `resetStockCycle` after a step: whatever the step did to the
        table stays done. */
    method ResetAfter(ghost step: Step, ghost L: seq<seq<Card>>, ghost up: set<Card>, ghost U: seq<UndoMove>,
                      ghost s: int, ghost m: int, ghost flipped: Option<Card>)
      requires Valid() && |L| == 13 && Effect(step, L, up, U, s, m, flipped)
      modifies this
      ensures Valid() && playing.Deck() == old(playing.Deck())
      ensures stockCycles == 0 && lastWasteCount == -1
      ensures running == old(running) && retryCount == old(retryCount)
      ensures Effect(step, L, up, U, s, m, flipped)
    {
      ResetStockCycle();
    }

    /** Step 6: a foundation bridge, which resets the cycle detector. */
    method BridgePhase() returns (ok: bool, ghost st: Option<Step>, ghost flipped: Option<Card>)
      requires Valid()
      modifies this, playing, playing.undoManager, playing.Piles(), playing.Cards()
      ensures Valid() && playing.Deck() == old(playing.Deck()) && playing.undoManager == old(playing.undoManager)
      ensures running == old(running) && retryCount == old(retryCount)
      ensures var r := old(FirstBridge(playing.Layout(), FaceUp(), 0));
        st == (if r.Some? then Some(Bridge(r.value.0, r.value.1)) else None) && (ok <==> st.Some?)
      ensures ok ==> Effect(st.value, old(playing.Layout()), old(FaceUp()),
        old(playing.undoManager.stack), old(playing.score), old(playing.moves), flipped)
      ensures !ok ==> Unchanged(old(playing.Layout()), old(FaceUp()), old(playing.undoManager.stack), old(playing.score), old(playing.moves))
      ensures (stockCycles, lastWasteCount) == if ok then (0, -1) else (old(stockCycles), old(lastWasteCount))
    {
      ghost var L, up := playing.Layout(), FaceUp();
      ghost var U, sc, mv := playing.undoManager.stack, playing.score, playing.moves;
      ghost var m;
      ok, m, flipped := TryUseFoundationAsBridge();
      if !ok {
        return false, None, flipped;
      }
      st := Some(Bridge(m.value.0, m.value.1));
      ResetAfter(st.value, L, up, U, sc, mv, flipped);
    }

    /** Step 7: `tryShuffleAndRetry`; a shuffle resets the cycle detector. */
    method ShufflePhase() returns (ok: bool)
      requires Valid()
      modifies this, playing.Piles()
      ensures Valid() && playing.Deck() == old(playing.Deck())
      ensures running == old(running)
      ensures retryCount == if old(retryCount) < MaxRetries then old(retryCount) + 1 else old(retryCount)
      ensures ok <==> old(retryCount) < MaxRetries && old(FaceDownOf(playing.Layout(), FaceUp(), 0)) != []
      ensures ok ==> Effect(Shuffle, old(playing.Layout()), old(FaceUp()),
        old(playing.undoManager.stack), old(playing.score), old(playing.moves), None)
      ensures !ok ==> Unchanged(old(playing.Layout()), old(FaceUp()), old(playing.undoManager.stack), old(playing.score), old(playing.moves))
      ensures (stockCycles, lastWasteCount) == if ok then (0, -1) else (old(stockCycles), old(lastWasteCount))
    {
      ghost var L, up := playing.Layout(), FaceUp();
      ghost var U, sc, mv := playing.undoManager.stack, playing.score, playing.moves;
      ok := TryShuffleAndRetry();
      if !ok {
        return;
      }
      ResetAfter(Shuffle, L, up, U, sc, mv, None);
    }

    /** Steps 6 and 7: a foundation bridge, else a shuffle. */
    method RescuePhase() returns (ok: bool, ghost st: Step, ghost flipped: Option<Card>)
      requires Valid()
      modifies this, playing, playing.undoManager, playing.Piles(), playing.Cards()
      ensures Valid() && playing.Deck() == old(playing.Deck()) && playing.undoManager == old(playing.undoManager)
      ensures running == old(running)
      ensures st == old(RescueStep(playing.Layout(), FaceUp(), retryCount)) && (ok <==> st != Stuck)
      ensures Effect(st, old(playing.Layout()), old(FaceUp()),
        old(playing.undoManager.stack), old(playing.score), old(playing.moves), flipped)
      ensures (stockCycles, lastWasteCount) == if ok then (0, -1) else (old(stockCycles), old(lastWasteCount))
      ensures retryCount == RetriesAfter(st, old(retryCount))
    {
      ghost var b;
      ok, b, flipped := BridgePhase();
      if ok {
        st := b.value;
        return;
      }
      flipped := None;
      ok := ShufflePhase();
      st := if ok then Shuffle else Stuck;
    }

    /** Steps 5 to 7: a stock action, a bridge or a shuffle. */
    method LatePhase() returns (moved: bool, ghost step: Step, ghost flipped: Option<Card>)
      requires Valid()
      modifies this, playing, playing.undoManager, playing.Piles(), playing.Cards()
      ensures Valid() && playing.Deck() == old(playing.Deck()) && playing.undoManager == old(playing.undoManager)
      ensures running == old(running)
      ensures step == old(LateStep(playing.Layout(), FaceUp(), retryCount, stockCycles, lastWasteCount))
      ensures moved <==> step != Stuck
      ensures Effect(step, old(playing.Layout()), old(FaceUp()),
        old(playing.undoManager.stack), old(playing.score), old(playing.moves), flipped)
      ensures (stockCycles, lastWasteCount) == old(CountersAfter(step, playing.Layout(), FaceUp(), stockCycles, lastWasteCount))
      ensures retryCount == RetriesAfter(step, old(retryCount))
    {
      ghost var st;
      moved, st := DrawPhase();
      if moved {
        return true, st.value, None;
      }
      moved, step, flipped := RescuePhase();
    }

    /** The cascade of `doOneStep` on a running solver. */
    method Cascade() returns (moved: bool, ghost step: Step, ghost flipped: Option<Card>)
      requires Valid()
      modifies this, playing, playing.undoManager, playing.Piles(), playing.Cards()
      ensures Valid() && playing.Deck() == old(playing.Deck()) && playing.undoManager == old(playing.undoManager)
      ensures running == old(running)
      ensures step == old(Plan(playing.Layout(), FaceUp(), true, retryCount, stockCycles, lastWasteCount))
      ensures moved <==> step != Stuck
      ensures Effect(step, old(playing.Layout()), old(FaceUp()),
        old(playing.undoManager.stack), old(playing.score), old(playing.moves), flipped)
      ensures (stockCycles, lastWasteCount) == old(CountersAfter(step, playing.Layout(), FaceUp(), stockCycles, lastWasteCount))
      ensures retryCount == RetriesAfter(step, old(retryCount))
    {
      ghost var L, up := playing.Layout(), FaceUp();
      ghost var U, sc, mv := playing.undoManager.stack, playing.score, playing.moves;
      ghost var st;
      moved, st, flipped := MovePhase();
      if moved {
        step := st.value;
        ResetAfter(step, L, up, U, sc, mv, flipped);
        return;
      }
      moved, step, flipped := LatePhase();
    }

    /** `doOneStep`: the first action of the cascade that applies, with
        the counters it leaves. A stopped solver does nothing, and the
        step reports a move exactly when it is neither stopped nor stuck. */
    method DoOneStep() returns (moved: bool, ghost step: Step, ghost flipped: Option<Card>)
      requires Valid()
      modifies this, playing, playing.undoManager, playing.Piles(), playing.Cards()
      ensures Valid() && playing.Deck() == old(playing.Deck()) && playing.undoManager == old(playing.undoManager)
      ensures running == old(running)
      ensures step == old(Plan(playing.Layout(), FaceUp(), running, retryCount, stockCycles, lastWasteCount))
      ensures moved <==> !(step.Halted? || step.Stuck?)
      ensures Effect(step, old(playing.Layout()), old(FaceUp()),
        old(playing.undoManager.stack), old(playing.score), old(playing.moves), flipped)
      ensures (stockCycles, lastWasteCount) == old(CountersAfter(step, playing.Layout(), FaceUp(), stockCycles, lastWasteCount))
      ensures retryCount == RetriesAfter(step, old(retryCount))
    {
      if !running {
        return false, Halted, None;
      }
      RunningNeverHalts(playing.Layout(), FaceUp(), retryCount, stockCycles, lastWasteCount);
      moved, step, flipped := Cascade();
    }

    /** `isRunning`. */
    method IsRunning() returns (r: bool)
      ensures r == running
    {
      r := running;
    }

    /** `stop`: the solver stops; its counters and the table stay as they are. */
    method Stop()
      requires Valid()
      modifies this
      ensures Valid() && !running
      ensures retryCount == old(retryCount) && stockCycles == old(stockCycles) && lastWasteCount == old(lastWasteCount)
      ensures playing.Layout() == old(playing.Layout()) && FaceUp() == old(FaceUp())
    {
      playing.CardsAllocated();
      running := false;
    }

    /** `stop` inside `loop`: whatever the step did to the table stays done. */
    method StopAfter(ghost step: Step, ghost L: seq<seq<Card>>, ghost up: set<Card>, ghost U: seq<UndoMove>,
                     ghost s: int, ghost m: int, ghost flipped: Option<Card>)
      requires Valid() && |L| == 13 && Effect(step, L, up, U, s, m, flipped)
      modifies this
      ensures Valid() && playing.Deck() == old(playing.Deck()) && !running
      ensures retryCount == old(retryCount) && stockCycles == old(stockCycles) && lastWasteCount == old(lastWasteCount)
      ensures Effect(step, L, up, U, s, m, flipped)
    {
      Stop();
    }

    /** One callback of `loop`: a stopped solver does nothing; otherwise it
        takes one step and stops when the step moved nothing. The next
        callback, 120 ms later, is scheduled by the host's timer. */
    method LoopTick() returns (ghost step: Step, ghost flipped: Option<Card>)
      requires Valid()
      modifies this, playing, playing.undoManager, playing.Piles(), playing.Cards()
      ensures Valid() && playing.Deck() == old(playing.Deck()) && playing.undoManager == old(playing.undoManager)
      ensures step == old(Plan(playing.Layout(), FaceUp(), running, retryCount, stockCycles, lastWasteCount))
      ensures running <==> !(step.Halted? || step.Stuck?)
      ensures Effect(step, old(playing.Layout()), old(FaceUp()),
        old(playing.undoManager.stack), old(playing.score), old(playing.moves), flipped)
      ensures (stockCycles, lastWasteCount) == old(CountersAfter(step, playing.Layout(), FaceUp(), stockCycles, lastWasteCount))
      ensures retryCount == RetriesAfter(step, old(retryCount))
    {
      if !running {
        return Halted, None;
      }
      ghost var L, up := playing.Layout(), FaceUp();
      ghost var U, sc, mv := playing.undoManager.stack, playing.score, playing.moves;
      var moved;
      moved, step, flipped := DoOneStep();
      if !moved {
        StopAfter(step, L, up, U, sc, mv, flipped);
      }
    }

    /** `start`: on a stopped solver, it starts with a fresh retry budget
        and cycle detector and runs the first callback of `loop`; on a
        running one it does nothing. */
    method Start() returns (ghost step: Step, ghost flipped: Option<Card>)
      requires Valid()
      modifies this, playing, playing.undoManager, playing.Piles(), playing.Cards()
      ensures Valid() && playing.Deck() == old(playing.Deck()) && playing.undoManager == old(playing.undoManager)
      ensures old(running) ==> running && step == Halted && retryCount == old(retryCount)
      ensures old(running) ==> stockCycles == old(stockCycles) && lastWasteCount == old(lastWasteCount)
      ensures !old(running) ==> step == old(Plan(playing.Layout(), FaceUp(), true, 0, 0, -1))
      ensures !old(running) ==> (running <==> !step.Stuck?) && retryCount == RetriesAfter(step, 0)
      ensures !old(running) ==> (stockCycles, lastWasteCount) == old(CountersAfter(step, playing.Layout(), FaceUp(), 0, -1))
      ensures Effect(step, old(playing.Layout()), old(FaceUp()),
        old(playing.undoManager.stack), old(playing.score), old(playing.moves), flipped)
    {
      if running {
        return Halted, None;
      }
      Begin();
      RunningNeverHalts(playing.Layout(), FaceUp(), 0, 0, -1);
      step, flipped := LoopTick();
    }

    /** The first lines of `start`: running, with a fresh retry budget and
        cycle detector; the table stays as it is. */
    method Begin()
      requires Valid()
      modifies this
      ensures Valid() && running && retryCount == 0 && stockCycles == 0 && lastWasteCount == -1
      ensures playing.Layout() == old(playing.Layout()) && FaceUp() == old(FaceUp())
    {
      playing.CardsAllocated();
      running := true;
      retryCount := 0;
      ResetStockCycle();
    }
  }
}