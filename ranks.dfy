/** Rank labels shared by both card components: 1 is "A", 11 to 13 are
    "J", "Q", "K", every other rank is written in decimal. */
module CardRank {
  import opened Wrappers
  import opened Strings

  const Ace := 1
  const Jack := 11
  const Queen := 12
  const King := 13

  /** `rankToKey(r)`: a single letter exactly for the ace and the court
      ranks; any other rank is its decimal text, which reads back as the rank. */
  function RankToKey(r: int): (key: string)
    ensures r in {Ace, Jack, Queen, King} <==> |key| == 1 && 'A' <= key[0] <= 'Z'
    ensures r !in {Ace, Jack, Queen, King} ==> ParseDecimal(key) == Some(r)
  {
    if r == Ace then "A"
    else if r == Jack then "J"
    else if r == Queen then "Q"
    else if r == King then "K"
    else
      IntToStringRoundTrip(r);
      DecimalNotLetter(r);
      IntToString(r)
  }

  /** A decimal text starts with '-' or a digit, never a capital letter. */
  lemma DecimalNotLetter(r: int)
    ensures !('A' <= IntToString(r)[0] <= 'Z')
  {
    if r < 0 {
      assert IntToString(r)[0] == '-';
    } else {
      assert IsDigit(IntToString(r)[0]);
    }
  }

  /** Reads a label back into the rank it names. */
  function KeyToRank(key: string): Option<int> {
    if key == "A" then Some(Ace)
    else if key == "J" then Some(Jack)
    else if key == "Q" then Some(Queen)
    else if key == "K" then Some(King)
    else ParseDecimal(key)
  }

  /** Every rank has a label that names it and no other rank. */
  lemma {:induction false} RankKeyRoundTrip(r: int)
    ensures KeyToRank(RankToKey(r)) == Some(r)
  {
    if r !in {Ace, Jack, Queen, King} {
      IntToStringRoundTrip(r);
      var s := IntToString(r);
      assert s != "A" && s != "J" && s != "Q" && s != "K" by {
        if r < 0 {
          assert s[0] == '-';
        } else {
          assert IsDigit(s[0]);
        }
      }
    }
  }

  /** Distinct ranks get distinct labels. */
  lemma RankToKeyInjective(r1: int, r2: int)
    requires RankToKey(r1) == RankToKey(r2)
    ensures r1 == r2
  {
    RankKeyRoundTrip(r1);
    RankKeyRoundTrip(r2);
  }

  /** The court and ace labels and the decimal labels of 2 to 10. */
  lemma RankToKeyValues()
    ensures RankToKey(1) == "A" && RankToKey(11) == "J" && RankToKey(12) == "Q" && RankToKey(13) == "K"
    ensures RankToKey(2) == "2" && RankToKey(9) == "9" && RankToKey(10) == "10"
  {
    assert NatToString(10) == NatToString(1) + [DigitChar(0)];
  }
}
