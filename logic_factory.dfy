/** The deck factory of the newer game tree (`logic/CardFactory.ts`). */
module LogicFactory {
  import opened Seqs
  import opened LogicCard

  /** The suit and rank that `generateDeck` gives position i: suits in
      order, ranks 1 to 13 within each suit. */
  function StandardId(i: nat): (string, int)
    requires i < 52
  {
    (Suits[i / 13], i % 13 + 1)
  }

  function StandardIds(): (ids: seq<(string, int)>)
    ensures |ids| == 52
    ensures forall i :: 0 <= i < 52 ==> ids[i] == StandardId(i)
  {
    seq(52, i requires 0 <= i < 52 => StandardId(i))
  }

  /** The standard deck holds every suit and rank pair exactly once. */
  lemma StandardDeckComplete()
    ensures NoDup(StandardIds())
    ensures forall s, r :: s in Suits && 1 <= r <= 13 ==> (s, r) in StandardIds()
  {
    var ids := StandardIds();
    forall i, j | 0 <= i < j < 52
      ensures ids[i] != ids[j]
    {
      StandardIdInjective(i, j);
    }
    forall s, r | s in Suits && 1 <= r <= 13
      ensures (s, r) in ids
    {
      var q :| 0 <= q < 4 && Suits[q] == s;
      var k := 13 * q + r - 1;
      assert k / 13 == q && k % 13 == r - 1;
      assert ids[k] == (s, r);
    }
  }

  lemma StandardIdInjective(i: nat, j: nat)
    requires i < j < 52
    ensures StandardId(i) != StandardId(j)
  {
    if i / 13 == j / 13 {
      assert i % 13 != j % 13;
    } else {
      assert Suits[i / 13] != Suits[j / 13];
    }
  }

  /** Distinct suit and rank pairs belong to distinct cards. */
  lemma IdsNoDup(cards: seq<Card>)
    requires NoDup(Ids(cards))
    ensures NoDup(cards)
  {
    forall i, j | 0 <= i < j < |cards|
      ensures cards[i] != cards[j]
    {
      assert Ids(cards)[i] != Ids(cards)[j];
    }
  }

  /** `generateDeck`: 52 new face-down cards in suit-major, rank-ascending order. */
  method GenerateDeck() returns (deck: seq<Card>)
    ensures Ids(deck) == StandardIds()
    ensures fresh(deck) && forall i :: 0 <= i < |deck| ==> !deck[i].isFaceUp
    ensures NoDup(deck)
  {
    deck := [];
    for si := 0 to 4
      invariant |deck| == 13 * si
      invariant forall i :: 0 <= i < |deck| ==> deck[i].suit == Suits[i / 13] && deck[i].rank == i % 13 + 1
      invariant fresh(deck) && forall i :: 0 <= i < |deck| ==> !deck[i].isFaceUp
    {
      var suit := Suits[si];
      for rank := 1 to 14
        invariant |deck| == 13 * si + rank - 1
        invariant forall i :: 0 <= i < |deck| ==> deck[i].suit == Suits[i / 13] && deck[i].rank == i % 13 + 1
        invariant fresh(deck) && forall i :: 0 <= i < |deck| ==> !deck[i].isFaceUp
      {
        var card := new Card.Init(suit, rank);
        deck := deck + [card];
      }
    }
    assert Ids(deck) == StandardIds();
    StandardDeckComplete();
    IdsNoDup(deck);
  }

  /** Every recorded swap partner j of step k swaps with the index
      i = n - 1 - k and satisfies j <= i. */
  ghost predicate ValidChoices(n: nat, js: seq<nat>) {
    (js == [] || |js| < n) && forall k :: 0 <= k < |js| ==> js[k] <= n - 1 - k
  }

  /** The deck after the swaps for i = n - 1, n - 2, ... with the recorded partners. */
  ghost function Applied<T>(s: seq<T>, js: seq<nat>): (r: seq<T>)
    requires ValidChoices(|s|, js)
    ensures |r| == |s|
  {
    if js == [] then s
    else
      var n := |js| - 1;
      SwapAt(Applied(s, js[..n]), |s| - 1 - n, js[n])
  }

  /** Any run of swaps is a permutation of the deck. */
  lemma {:induction false} AppliedPermutes<T>(s: seq<T>, js: seq<nat>)
    requires ValidChoices(|s|, js)
    ensures multiset(Applied(s, js)) == multiset(s)
  {
    if js != [] {
      var n := |js| - 1;
      AppliedPermutes(s, js[..n]);
      SwapAtMultiset(Applied(s, js[..n]), |s| - 1 - n, js[n]);
    }
  }

  lemma ExtendChoices<T>(s: seq<T>, js: seq<nat>, j: nat)
    requires ValidChoices(|s|, js) && |js| + 1 < |s| && j <= |s| - 1 - |js|
    ensures ValidChoices(|s|, js + [j])
    ensures Applied(s, js + [j]) == SwapAt(Applied(s, js), |s| - 1 - |js|, j)
  {
    var js' := js + [j];
    assert js'[..|js|] == js;
    assert ValidChoices(|s|, js');
    assert js'[|js|] == j;
  }

  /** `[deck[i], deck[j]] = [deck[j], deck[i]]`. */
  method Swap(deck: array<Card>, i: nat, j: nat)
    requires i < deck.Length && j < deck.Length
    modifies deck
    ensures deck[..] == SwapAt(old(deck[..]), i, j)
  {
    deck[i], deck[j] := deck[j], deck[i];
  }

  /** `shuffle`: Fisher–Yates with the random partner of each index left open. */
  method Shuffle(deck: array<Card>) returns (ghost choices: seq<nat>)
    modifies deck
    ensures ValidChoices(deck.Length, choices)
    ensures |choices| == if deck.Length == 0 then 0 else deck.Length - 1
    ensures deck[..] == Applied(old(deck[..]), choices)
    ensures multiset(deck[..]) == multiset(old(deck[..]))
    ensures deck.Length <= 1 ==> deck[..] == old(deck[..])
  {
    ghost var s0 := deck[..];
    choices := [];
    var i := deck.Length - 1;
    while i > 0
      invariant -1 <= i < deck.Length
      invariant |choices| == deck.Length - 1 - i
      invariant ValidChoices(deck.Length, choices)
      invariant deck[..] == Applied(s0, choices)
      decreases i
    {
      var j :| 0 <= j <= i;
      Swap(deck, i, j);
      ExtendChoices(s0, choices, j);
      choices := choices + [j];
      i := i - 1;
    }
    AppliedPermutes(s0, choices);
  }
}
