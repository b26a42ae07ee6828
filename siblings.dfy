/** Two engine operations on a node's children that the auto-solver's
    shuffle uses: `setSiblingIndex` on a child and reparenting (which
    appends the node to its new parent). A table of rows stands for the
    children of several parents. */
module Siblings {
  import opened Seqs
  import opened Tables

  /** `setSiblingIndex(index)` on the child x of a node whose children are
      s: unless x already sits at index, it is taken out and put back at
      index, or at the end when index is past the remaining children. */
  function SetSiblingIndex<T(==)>(s: seq<T>, x: T, index: nat): (r: seq<T>)
    requires x in s
    ensures |r| == |s|
  {
    IndexOfIn(s, x);
    var k := IndexOf(s, x);
    if index == k then s
    else
      var rest := RemoveAt(s, k);
      if index < |rest| then InsertAt(rest, index, x) else rest + [x]
  }

  /** `splice(k, 1)`. */
  function RemoveAt<T>(s: seq<T>, k: nat): (r: seq<T>)
    requires k < |s|
    ensures |r| == |s| - 1
  {
    s[..k] + s[k + 1..]
  }

  /** `splice(index, 0, x)`. */
  function InsertAt<T>(s: seq<T>, index: nat, x: T): (r: seq<T>)
    requires index <= |s|
    ensures |r| == |s| + 1
  {
    s[..index] + [x] + s[index..]
  }

  lemma RemoveAtAt<T>(s: seq<T>, k: nat, i: nat)
    requires k < |s| && i < |s| - 1
    ensures RemoveAt(s, k)[i] == s[if i < k then i else i + 1]
  {
  }

  lemma InsertAtAt<T>(s: seq<T>, index: nat, x: T, i: nat)
    requires index <= |s| && i <= |s|
    ensures InsertAt(s, index, x)[i] == if i < index then s[i] else if i == index then x else s[i - 1]
  {
  }

  /** `setSiblingIndex` only reorders the children. */
  lemma SetSiblingIndexPermutes<T>(s: seq<T>, x: T, index: nat)
    requires x in s
    ensures multiset(SetSiblingIndex(s, x, index)) == multiset(s)
  {
    IndexOfIn(s, x);
    var k := IndexOf(s, x);
    if index != k {
      var rest := RemoveAt(s, k);
      RemoveAtMultiset(s, k);
      if index < |rest| {
        InsertAtMultiset(rest, index, x);
      }
    }
  }

  lemma RemoveAtMultiset<T>(s: seq<T>, k: nat)
    requires k < |s|
    ensures multiset(RemoveAt(s, k)) + multiset{s[k]} == multiset(s)
  {
    assert s == s[..k] + [s[k]] + s[k + 1..];
  }

  lemma InsertAtMultiset<T>(s: seq<T>, index: nat, x: T)
    requires index <= |s|
    ensures multiset(InsertAt(s, index, x)) == multiset(s) + multiset{x}
  {
    assert s == s[..index] + s[index..];
  }

  /** Where the element at position i of a row came from once the element
      at k has been moved to `index`. */
  function Source(k: nat, index: nat, i: nat): nat {
    if i == index then k
    else if index < k && index < i <= k then i - 1
    else if k < index && k <= i < index then i + 1
    else i
  }

  /** `setSiblingIndex` on a row where k is the first position of its
      element, for an index inside the row: the element at k moves to
      `index` and the elements in between shift by one towards k. */
  lemma SetSiblingIndexAt<T>(s: seq<T>, k: nat, index: nat, i: nat)
    requires k < |s| && index < |s| && i < |s| && IndexOf(s, s[k]) == k
    ensures Source(k, index, i) < |s| && SetSiblingIndex(s, s[k], index)[i] == s[Source(k, index, i)]
  {
    if index != k {
      if index < |s| - 1 {
        assert SetSiblingIndex(s, s[k], index) == InsertAt(RemoveAt(s, k), index, s[k]);
        InsertRemoveAt(s, k, index, i);
      } else {
        assert SetSiblingIndex(s, s[k], index) == RemoveAt(s, k) + [s[k]];
        AppendRemoveAt(s, k, i);
      }
    }
  }

  lemma InsertRemoveAt<T>(s: seq<T>, k: nat, index: nat, i: nat)
    requires k < |s| && index < |s| - 1 && i < |s|
    ensures Source(k, index, i) < |s| && InsertAt(RemoveAt(s, k), index, s[k])[i] == s[Source(k, index, i)]
  {
    var rest := RemoveAt(s, k);
    InsertAtAt(rest, index, s[k], i);
    if i < index {
      RemoveAtAt(s, k, i);
    } else if i > index {
      RemoveAtAt(s, k, i - 1);
    }
  }

  lemma AppendRemoveAt<T>(s: seq<T>, k: nat, i: nat)
    requires k < |s| - 1 && i < |s|
    ensures Source(k, |s| - 1, i) < |s| && (RemoveAt(s, k) + [s[k]])[i] == s[Source(k, |s| - 1, i)]
  {
    if i < |s| - 1 {
      RemoveAtAt(s, k, i);
    }
  }

  /** Position k and position m of a row exchange their elements. */
  function SwapSlots<T>(L: seq<seq<T>>, p: nat, a: nat, q: nat, b: nat): (r: seq<seq<T>>)
    requires p < |L| && q < |L| && a < |L[p]| && b < |L[q]|
    ensures |r| == |L|
  {
    var x, y := L[p][a], L[q][b];
    var L1 := L[p := L[p][a := y]];
    L1[q := L1[q][b := x]]
  }

  /** `x.parent = <parent of y>; x.setSiblingIndex(y.getSiblingIndex())`
      for x in row i and y in row j: x is appended to y's row (unless it is
      there already) and then moved to the index y has at that point. */
  function JoinSibling<T(==)>(L: seq<seq<T>>, i: nat, j: nat, x: T, y: T): (r: seq<seq<T>>)
    requires i < |L| && j < |L| && x in L[i] && y in L[j]
    ensures |r| == |L| && y in r[j]
  {
    var L1 := MoveOne(L, i, j, x);
    assert y in L1[j] && x in L1[j] by {
      if i != j {
        assert L1[j] == L[j] + [x];
      }
    }
    var index := IndexOf(L1[j], y);
    SetSiblingIndexPermutes(L1[j], x, index);
    assert y in multiset(L1[j]);
    L1[j := SetSiblingIndex(L1[j], x, index)]
  }

  /** `y.parent = <pile j>; y.setSiblingIndex(index)` for y in row i. */
  function Reparent<T(==)>(L: seq<seq<T>>, i: nat, j: nat, y: T, index: nat): (r: seq<seq<T>>)
    requires i < |L| && j < |L| && y in L[i]
    ensures |r| == |L|
  {
    var L1 := MoveOne(L, i, j, y);
    assert y in L1[j] by {
      if i != j {
        assert L1[j] == L[j] + [y];
      }
    }
    L1[j := SetSiblingIndex(L1[j], y, index)]
  }

  /** The swap step of `tryShuffleAndRetry` for x at position a of row p
      and y at position b of row q, as written: x is made a child of y's
      parent and given y's sibling index, then y is made a child of x's old
      parent and given x's old index. */
  function Exchange<T(==)>(L: seq<seq<T>>, p: nat, a: nat, q: nat, b: nat): (r: seq<seq<T>>)
    requires p < |L| && q < |L| && a < |L[p]| && b < |L[q]|
    ensures |r| == |L|
  {
    var x, y := L[p][a], L[q][b];
    Reparent(JoinSibling(L, p, q, x, y), q, p, y, a)
  }

  /** A duplicate-free row stays duplicate-free under any reordering. */
  lemma NoDupPermutation<T>(s: seq<T>, t: seq<T>)
    requires NoDup(s) && multiset(t) == multiset(s)
    ensures NoDup(t)
  {
    NoDupUnique(s);
    UniqueNoDup(t, multiset(s));
  }

  lemma NoDupAppend<T>(s: seq<T>, y: T)
    requires NoDup(s) && y !in s
    ensures NoDup(s + [y])
  {
  }

  /** Removing an element of a duplicate-free row is `splice` at its index. */
  lemma RemoveIsRemoveAt<T>(s: seq<T>, k: nat)
    requires NoDup(s) && k < |s|
    ensures Remove(s, s[k]) == RemoveAt(s, k)
  {
    RemoveUnique(s, k);
  }

  /** y's parent Q: x is appended, moved to y's index b, and y then leaves. */
  lemma ApartTarget<T>(Q: seq<T>, x: T, b: nat)
    requires b < |Q| && NoDup(Q) && x !in Q
    ensures var Q2 := SetSiblingIndex(Q + [x], x, IndexOf(Q + [x], Q[b]));
      Q[b] in Q2 && Remove(Q2, Q[b]) == Q[b := x]
  {
    var y := Q[b];
    var Q1 := Q + [x];
    NoDupAppend(Q, x);
    assert Q1[b] == y && Q1[|Q|] == x;
    IndexOfNoDup(Q1, b);
    IndexOfNoDup(Q1, |Q|);
    var Q2 := SetSiblingIndex(Q1, x, b);
    SetSiblingIndexAt(Q1, |Q|, b, b + 1);
    assert Q2[b + 1] == y;
    SetSiblingIndexPermutes(Q1, x, b);
    NoDupPermutation(Q1, Q2);
    RemoveIsRemoveAt(Q2, b + 1);
    var r := RemoveAt(Q2, b + 1);
    forall i | 0 <= i < |Q|
      ensures r[i] == Q[b := x][i]
    {
      RemoveAtAt(Q2, b + 1, i);
      if i <= b {
        SetSiblingIndexAt(Q1, |Q|, b, i);
      } else {
        SetSiblingIndexAt(Q1, |Q|, b, i + 1);
      }
    }
    assert r == Q[b := x];
  }

  /** x's old parent P: x leaves, y is appended and moved to x's old index a. */
  lemma ApartSource<T>(P: seq<T>, y: T, a: nat)
    requires a < |P| && NoDup(P) && y !in P
    ensures y in Remove(P, P[a]) + [y]
    ensures SetSiblingIndex(Remove(P, P[a]) + [y], y, a) == P[a := y]
  {
    RemoveIsRemoveAt(P, a);
    RemoveCount(P, P[a]);
    var P1 := RemoveAt(P, a);
    NoDupUnique(P);
    UniqueNoDup(P1, multiset(P));
    assert y !in P1 by {
      assert y !in multiset(P);
    }
    var P2 := P1 + [y];
    NoDupAppend(P1, y);
    assert P2[|P1|] == y;
    IndexOfNoDup(P2, |P1|);
    var r := SetSiblingIndex(P2, y, a);
    forall i | 0 <= i < |P|
      ensures r[i] == P[a := y][i]
    {
      if a < |P1| {
        SetSiblingIndexAt(P2, |P1|, a, i);
      }
      if i < a {
        RemoveAtAt(P, a, i);
      } else if a < i {
        RemoveAtAt(P, a, i - 1);
      }
    }
    assert r == P[a := y];
  }

  /** Moving a to b and then the element that landed on position m back to
      a exchanges positions a and b. */
  lemma SourceTwice(a: nat, b: nat, m: nat, i: nat)
    requires (a < b && m == b - 1) || (b < a && m == b + 1)
    ensures Source(a, b, Source(m, a, i)) == if i == a then b else if i == b then a else i
  {
  }

  /** Both children under one parent, x at a before y at b. */
  lemma StepsSameBefore<T>(R: seq<T>, a: nat, b: nat)
    requires a < b < |R| && NoDup(R)
    ensures R[b] in SetSiblingIndex(R, R[a], b)
    ensures SetSiblingIndex(SetSiblingIndex(R, R[a], b), R[b], a) == R[a := R[b]][b := R[a]]
  {
    var x, y := R[a], R[b];
    IndexOfNoDup(R, a);
    var R2 := SetSiblingIndex(R, x, b);
    SetSiblingIndexAt(R, a, b, b - 1);
    assert R2[b - 1] == y;
    SetSiblingIndexPermutes(R, x, b);
    NoDupPermutation(R, R2);
    IndexOfNoDup(R2, b - 1);
    var R4 := SetSiblingIndex(R2, y, a);
    var W := R[a := y][b := x];
    forall i | 0 <= i < |R|
      ensures R4[i] == W[i]
    {
      SetSiblingIndexAt(R2, b - 1, a, i);
      SetSiblingIndexAt(R, a, b, Source(b - 1, a, i));
      SourceTwice(a, b, b - 1, i);
    }
    assert R4 == W;
  }

  /** Both children under one parent, x at a after y at b. */
  lemma StepsSameAfter<T>(R: seq<T>, a: nat, b: nat)
    requires b < a < |R| && NoDup(R)
    ensures R[b] in SetSiblingIndex(R, R[a], b)
    ensures SetSiblingIndex(SetSiblingIndex(R, R[a], b), R[b], a) == R[a := R[b]][b := R[a]]
  {
    var x, y := R[a], R[b];
    IndexOfNoDup(R, a);
    var R2 := SetSiblingIndex(R, x, b);
    SetSiblingIndexAt(R, a, b, b + 1);
    assert R2[b + 1] == y;
    SetSiblingIndexPermutes(R, x, b);
    NoDupPermutation(R, R2);
    IndexOfNoDup(R2, b + 1);
    var R4 := SetSiblingIndex(R2, y, a);
    var W := R[a := y][b := x];
    forall i | 0 <= i < |R|
      ensures R4[i] == W[i]
    {
      SetSiblingIndexAt(R2, b + 1, a, i);
      SetSiblingIndexAt(R, a, b, Source(b + 1, a, i));
      SourceTwice(a, b, b + 1, i);
    }
    assert R4 == W;
  }

  /** Both children under one parent, x at a and y at b: the two
      `setSiblingIndex` calls exchange them. */
  lemma StepsSame<T>(R: seq<T>, a: nat, b: nat)
    requires a < |R| && b < |R| && NoDup(R)
    ensures R[b] in SetSiblingIndex(R, R[a], IndexOf(R, R[b]))
    ensures SetSiblingIndex(SetSiblingIndex(R, R[a], IndexOf(R, R[b])), R[b], a) == R[a := R[b]][b := R[a]]
  {
    IndexOfNoDup(R, a);
    IndexOfNoDup(R, b);
    if a < b {
      StepsSameBefore(R, a, b);
    } else if b < a {
      StepsSameAfter(R, a, b);
    } else {
      assert R[a := R[b]][b := R[a]] == R;
    }
  }

  /** The four steps on two different parents: y's row loses y and gets
      x where y was; x's row loses x and gets y appended and moved. */
  lemma ExchangeRows<T>(L: seq<seq<T>>, p: nat, a: nat, q: nat, b: nat)
    requires p < |L| && q < |L| && a < |L[p]| && b < |L[q]| && p != q
    requires L[p][a] !in L[q]
    ensures var x, y := L[p][a], L[q][b];
      var Q2 := SetSiblingIndex(L[q] + [x], x, IndexOf(L[q] + [x], y));
      y in Q2 && y in Remove(L[p], x) + [y] &&
      Exchange(L, p, a, q, b)[q] == Remove(Q2, y) &&
      Exchange(L, p, a, q, b)[p] == SetSiblingIndex(Remove(L[p], x) + [y], y, a)
    ensures forall k :: 0 <= k < |L| && k != p && k != q ==> Exchange(L, p, a, q, b)[k] == L[k]
  {
    var x, y := L[p][a], L[q][b];
    var Q1 := L[q] + [x];
    var L1 := MoveOne(L, p, q, x);
    MoveOneRows(L, p, q, x);
    var Q2 := SetSiblingIndex(Q1, x, IndexOf(Q1, y));
    SetSiblingIndexPermutes(Q1, x, IndexOf(Q1, y));
    assert y in multiset(Q2);
    var L2 := L1[q := Q2];
    MoveOneRows(L2, q, p, y);
  }

  /** A move between two different rows, row by row. */
  lemma MoveOneRows<T>(L: seq<seq<T>>, i: nat, j: nat, x: T)
    requires i < |L| && j < |L| && i != j
    ensures MoveOne(L, i, j, x)[i] == Remove(L[i], x) && MoveOne(L, i, j, x)[j] == L[j] + [x]
    ensures forall k :: 0 <= k < |L| && k != i && k != j ==> MoveOne(L, i, j, x)[k] == L[k]
  {
  }

  /** On a table where every card lies once, the four steps of the swap
      exchange the two cards' slots, whether they share a parent or not. */
  lemma ExchangeIsSwap<T>(L: seq<seq<T>>, p: nat, a: nat, q: nat, b: nat)
    requires p < |L| && q < |L| && a < |L[p]| && b < |L[q]| && Unique(Total(L))
    ensures Exchange(L, p, a, q, b) == SwapSlots(L, p, a, q, b)
  {
    UniqueRows(L, p, q);
    UniqueRows(L, q, p);
    if p == q {
      ExchangeSame(L, p, a, b);
    } else {
      ExchangeApart(L, p, a, q, b);
    }
  }

  lemma ExchangeSame<T>(L: seq<seq<T>>, p: nat, a: nat, b: nat)
    requires p < |L| && a < |L[p]| && b < |L[p]| && NoDup(L[p])
    ensures Exchange(L, p, a, p, b) == SwapSlots(L, p, a, p, b)
  {
    var R := L[p];
    StepsSame(R, a, b);
    var R4 := SetSiblingIndex(SetSiblingIndex(R, R[a], IndexOf(R, R[b])), R[b], a);
    assert Exchange(L, p, a, p, b) == L[p := R4];
  }

  lemma ExchangeApart<T>(L: seq<seq<T>>, p: nat, a: nat, q: nat, b: nat)
    requires p < |L| && q < |L| && a < |L[p]| && b < |L[q]| && p != q
    requires NoDup(L[p]) && NoDup(L[q]) && L[p][a] !in L[q] && L[q][b] !in L[p]
    ensures Exchange(L, p, a, q, b) == SwapSlots(L, p, a, q, b)
  {
    var x, y := L[p][a], L[q][b];
    ExchangeRows(L, p, a, q, b);
    ApartTarget(L[q], x, b);
    ApartSource(L[p], y, a);
    var r, w := Exchange(L, p, a, q, b), SwapSlots(L, p, a, q, b);
    forall k | 0 <= k < |L|
      ensures r[k] == w[k]
    {
    }
    assert r == w;
  }

  /** Exchanging two slots keeps every card of the table. */
  lemma SwapSlotsConserves<T>(L: seq<seq<T>>, p: nat, a: nat, q: nat, b: nat)
    requires p < |L| && q < |L| && a < |L[p]| && b < |L[q]|
    ensures Total(SwapSlots(L, p, a, q, b)) == Total(L)
  {
    if p == q {
      var R := L[p];
      assert SwapSlots(L, p, a, q, b) == L[p := SwapAt(R, a, b)];
      TotalUpdate(L, p, SwapAt(R, a, b));
      SwapAtMultiset(R, a, b);
      MultisetCancel(Total(L[p := SwapAt(R, a, b)]), Total(L), multiset(R));
    } else {
      SwapApartConserves(L, p, a, q, b);
    }
  }

  lemma SwapApartConserves<T>(L: seq<seq<T>>, p: nat, a: nat, q: nat, b: nat)
    requires p < |L| && q < |L| && a < |L[p]| && b < |L[q]| && p != q
    ensures Total(SwapSlots(L, p, a, q, b)) == Total(L)
  {
    var x, y := L[p][a], L[q][b];
    var P', Q' := L[p][a := y], L[q][b := x];
    var L1 := L[p := P'];
    assert SwapSlots(L, p, a, q, b) == L1[q := Q'];
    TotalUpdate(L, p, P');
    TotalUpdate(L1, q, Q');
    UpdateMultiset(L[p], a, y);
    UpdateMultiset(L[q], b, x);
    Cancel4(Total(L), Total(L1), Total(L1[q := Q']), multiset(L[p]), multiset(L[q]), multiset(P'), multiset(Q'), x, y);
  }

  /** The counting behind a swap of elements between two rows. */
  lemma Cancel4<T>(t: multiset<T>, t1: multiset<T>, t2: multiset<T>, mp: multiset<T>, mq: multiset<T>, mp': multiset<T>, mq': multiset<T>, x: T, y: T)
    requires t1 + mp == t + mp' && t2 + mq == t1 + mq'
    requires mp' + multiset{x} == mp + multiset{y} && mq' + multiset{y} == mq + multiset{x}
    ensures t2 == t
  {
    forall e
      ensures t2[e] == t[e]
    {
      assert (t1 + mp)[e] == (t + mp')[e];
      assert (t2 + mq)[e] == (t1 + mq')[e];
      assert (mp' + multiset{x})[e] == (mp + multiset{y})[e];
      assert (mq' + multiset{y})[e] == (mq + multiset{x})[e];
    }
  }
  /** Overwriting one position trades its element for the new one. */
  lemma UpdateMultiset<T>(s: seq<T>, i: nat, v: T)
    requires i < |s|
    ensures multiset(s[i := v]) + multiset{s[i]} == multiset(s) + multiset{v}
  {
    assert s == s[..i] + [s[i]] + s[i + 1..];
    assert s[i := v] == s[..i] + [v] + s[i + 1..];
  }
}
