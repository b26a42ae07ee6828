/** The initial deal of Klondike as index arithmetic: column c of the
    tableau takes c + 1 cards, so the columns together take the first 28
    cards of the deck and the stock the other 24. */
module Deal {
  import opened Seqs
  import opened Tables

  /** Deck position of the first card of column c; Start(7) is where the
      stock begins. */
  function Start(c: nat): (s: nat)
    requires c <= 7
    ensures s <= 28 && (c < 7 ==> s + c + 1 <= 28) && (c == 7 ==> s == 28)
  {
    if c == 0 then 0
    else if c == 1 then 1
    else if c == 2 then 3
    else if c == 3 then 6
    else if c == 4 then 10
    else if c == 5 then 15
    else if c == 6 then 21
    else 28
  }

  /** Column c takes c + 1 cards. */
  lemma StartStep(c: nat)
    requires c < 7
    ensures Start(c + 1) == Start(c) + c + 1
  {
  }

  /** The c + 1 cards `initGame` deals to column c from the shuffled deck. */
  function Column<T>(deck: seq<T>, c: nat): (r: seq<T>)
    requires |deck| == 52 && c < 7
    ensures |r| == c + 1
  {
    StartStep(c);
    deck[Start(c)..Start(c + 1)]
  }

  /** Columns further right start further into the deck. */
  lemma StartMono(c: nat, d: nat)
    requires c < d <= 7
    ensures Start(c + 1) <= Start(d)
  {
  }

  /** Every card of a slice is a card of the sequence. */
  lemma SliceIn<T>(s: seq<T>, a: nat, b: nat)
    requires a <= b <= |s|
    ensures forall x :: x in s[a..b] ==> x in s
  {
  }

  lemma ColumnIn<T>(deck: seq<T>, c: nat)
    requires |deck| == 52 && c < 7
    ensures forall x :: x in Column(deck, c) ==> x in deck
  {
  }

  /** A deck without repeats shares no card between two slices that do not overlap. */
  lemma SlicesDisjoint<T>(s: seq<T>, a: nat, b: nat, c: nat, d: nat)
    requires NoDup(s) && a <= b <= c <= d <= |s|
    ensures forall x :: x in s[a..b] ==> x !in s[c..d]
  {
    forall x | x in s[a..b]
      ensures x !in s[c..d]
    {
      var i :| a <= i < b && s[i] == x;
      assert forall j :: c <= j < d ==> s[j] != s[i];
    }
  }

  /** Different columns are dealt different cards. */
  lemma ColumnsDisjoint<T>(deck: seq<T>, c: nat, d: nat)
    requires |deck| == 52 && NoDup(deck) && c < d < 7
    ensures forall x :: x in Column(deck, c) ==> x !in Column(deck, d)
  {
    StartMono(c, d);
    StartStep(c);
    StartStep(d);
    SlicesDisjoint(deck, Start(c), Start(c + 1), Start(d), Start(d + 1));
  }

  /** No column card goes to the stock. */
  lemma ColumnNotStock<T>(deck: seq<T>, c: nat)
    requires |deck| == 52 && NoDup(deck) && c < 7
    ensures forall x :: x in Column(deck, c) ==> x !in deck[28..]
  {
    StartMono(c, 7);
    StartStep(c);
    SlicesDisjoint(deck, Start(c), Start(c + 1), 28, 52);
  }

  /** The first c columns of the deal. */
  ghost function Columns<T>(deck: seq<T>, c: nat): (r: seq<seq<T>>)
    requires |deck| == 52 && c <= 7
    ensures |r| == c && forall k :: 0 <= k < c ==> r[k] == Column(deck, k)
  {
    if c == 0 then [] else Columns(deck, c - 1) + [Column(deck, c - 1)]
  }

  /** The table right after the deal, pile by pile: seven columns, four
      empty foundations, the stock and the empty waste. */
  ghost function DealtLayout<T>(deck: seq<T>): (r: seq<seq<T>>)
    requires |deck| == 52
    ensures |r| == 13
  {
    Columns(deck, 7) + [[], [], [], []] + [deck[28..], []]
  }

  /** The deal puts every card of the deck on the table once. */
  lemma DealtLayoutTotal<T>(deck: seq<T>)
    requires |deck| == 52
    ensures Total(DealtLayout(deck)) == multiset(deck)
  {
    var cols := Columns(deck, 7);
    ColumnsTotal(deck, 7);
    var empties: seq<seq<T>> := [[], [], [], []];
    EmptyTotal(empties);
    var rest: seq<seq<T>> := [deck[28..], []];
    calc {
      Total(rest);
      { assert rest[..1] == [deck[28..]]; }
      Total([deck[28..]]) + multiset([]);
      { assert [deck[28..]][..0] == []; }
      multiset(deck[28..]);
    }
    assert DealtLayout(deck) == cols + empties + rest;
    TotalConcat(cols, empties);
    TotalConcat(cols + empties, rest);
    assert deck == deck[..28] + deck[28..];
  }

  /** The first c columns hold the first Start(c) cards of the deck. */
  lemma {:induction false} ColumnsTotal<T>(deck: seq<T>, c: nat)
    requires |deck| == 52 && c <= 7
    ensures Total(Columns(deck, c)) == multiset(deck[..Start(c)])
  {
    if c == 0 {
      assert deck[..Start(c)] == [];
    } else {
      ColumnsTotal(deck, c - 1);
      ColumnsStep(deck, c);
    }
  }

  lemma ColumnsStep<T>(deck: seq<T>, c: nat)
    requires |deck| == 52 && 0 < c <= 7
    ensures Total(Columns(deck, c)) == Total(Columns(deck, c - 1)) + multiset(Column(deck, c - 1))
    ensures multiset(deck[..Start(c)]) == multiset(deck[..Start(c - 1)]) + multiset(Column(deck, c - 1))
  {
    StartStep(c - 1);
    var cols := Columns(deck, c);
    assert cols[..c - 1] == Columns(deck, c - 1);
    assert cols[c - 1] == Column(deck, c - 1);
    assert deck[..Start(c)] == deck[..Start(c - 1)] + deck[Start(c - 1)..Start(c)];
  }
}
