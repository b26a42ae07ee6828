/** Sequence helpers standing in for JavaScript array operations. */
module Seqs {

  /** No element occurs twice. */
  ghost predicate NoDup<T>(s: seq<T>) {
    forall i, j :: 0 <= i < j < |s| ==> s[i] != s[j]
  }

  /** `Array.prototype.indexOf`: position of the first occurrence, or -1. */
  function IndexOf<T(==)>(s: seq<T>, x: T): (r: int)
    ensures r == -1 <==> x !in s
    ensures 0 <= r ==> r < |s| && s[r] == x && x !in s[..r]
  {
    if |s| == 0 then -1
    else if s[0] == x then 0
    else
      var k := IndexOf(s[1..], x);
      if k < 0 then -1 else k + 1
  }

  lemma IndexOfIn<T>(s: seq<T>, x: T)
    requires x in s
    ensures 0 <= IndexOf(s, x)
  {
  }

  /** In a sequence without repeats, the first occurrence is the only one. */
  lemma IndexOfNoDup<T>(s: seq<T>, k: nat)
    requires NoDup(s) && k < |s|
    ensures IndexOf(s, s[k]) == k
  {
  }

  /** Deletes the first occurrence of `x` (what removing a child from its parent does). */
  function Remove<T(==)>(s: seq<T>, x: T): (r: seq<T>)
  {
    var k := IndexOf(s, x);
    if k < 0 then s else s[..k] + s[k + 1..]
  }

  lemma RemoveCount<T>(s: seq<T>, x: T)
    requires x in s
    ensures multiset(Remove(s, x)) == multiset(s) - multiset{x}
    ensures |Remove(s, x)| == |s| - 1
  {
    var k := IndexOf(s, x);
    assert s == s[..k] + [s[k]] + s[k + 1..];
  }

  /** Removing a card at position k of a duplicate-free sequence deletes exactly that position. */
  lemma RemoveUnique<T>(s: seq<T>, k: nat)
    requires k < |s| && NoDup(s)
    ensures Remove(s, s[k]) == s[..k] + s[k + 1..]
  {
    var r := IndexOf(s, s[k]);
    assert s[r] == s[k];
  }

  /** Elements in reverse order (`[...a].reverse()`). */
  function Reverse<T>(s: seq<T>): (r: seq<T>)
    ensures |r| == |s|
    ensures forall i :: 0 <= i < |s| ==> r[i] == s[|s| - 1 - i]
  {
    if |s| == 0 then [] else [s[|s| - 1]] + Reverse(s[..|s| - 1])
  }

  lemma ReverseMultiset<T>(s: seq<T>)
    ensures multiset(Reverse(s)) == multiset(s)
  {
    if |s| > 0 {
      ReverseMultiset(s[..|s| - 1]);
      assert s == s[..|s| - 1] + [s[|s| - 1]];
    }
  }

  /** Reversal keeps the elements and introduces no repeats. */
  lemma ReverseNoDup<T>(s: seq<T>)
    requires NoDup(s)
    ensures NoDup(Reverse(s))
    ensures forall x :: x in Reverse(s) <==> x in s
  {
    var r := Reverse(s);
    forall x | x in s
      ensures x in r
    {
      var k :| 0 <= k < |s| && s[k] == x;
      assert r[|s| - 1 - k] == x;
    }
  }

  /** Exchanges the elements at positions i and j. */
  function SwapAt<T>(s: seq<T>, i: nat, j: nat): (r: seq<T>)
    requires i < |s| && j < |s|
    ensures |r| == |s| && r[i] == s[j] && r[j] == s[i]
    ensures forall k :: 0 <= k < |s| && k != i && k != j ==> r[k] == s[k]
  {
    s[i := s[j]][j := s[i]]
  }

  /** An exchange keeps the elements. */
  lemma SwapAtMultiset<T>(s: seq<T>, i: nat, j: nat)
    requires i < |s| && j < |s|
    ensures multiset(SwapAt(s, i, j)) == multiset(s)
  {
  }
}
