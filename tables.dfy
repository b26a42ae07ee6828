/** Facts about a table of piles seen as values: a sequence of rows. They
    are shared by both game trees, whose piles hold card references. */
module Tables {
  import opened Seqs

  /** Every element of every row, counted with multiplicity. */
  ghost function Total<T>(ls: seq<seq<T>>): multiset<T> {
    if ls == [] then multiset{} else Total(ls[..|ls| - 1]) + multiset(ls[|ls| - 1])
  }

  lemma {:induction false} TotalPart<T>(ls: seq<seq<T>>, i: nat)
    requires i < |ls|
    ensures multiset(ls[i]) <= Total(ls)
  {
    if i < |ls| - 1 {
      TotalPart(ls[..|ls| - 1], i);
    }
  }

  /** An element of the table lies in one of its rows. */
  lemma {:induction false} TotalRow<T>(ls: seq<seq<T>>, x: T) returns (r: nat)
    requires x in Total(ls)
    ensures r < |ls| && x in ls[r]
  {
    var n := |ls| - 1;
    if x in ls[n] {
      r := n;
    } else {
      r := TotalRow(ls[..n], x);
      assert ls[..n][r] == ls[r];
    }
  }

  lemma {:induction false} TotalPair<T>(ls: seq<seq<T>>, i: nat, j: nat)
    requires i < |ls| && j < |ls| && i != j
    ensures multiset(ls[i]) + multiset(ls[j]) <= Total(ls)
  {
    var n := |ls| - 1;
    if i == n {
      TotalPart(ls[..n], j);
    } else if j == n {
      TotalPart(ls[..n], i);
    } else {
      TotalPair(ls[..n], i, j);
    }
  }

  /** Replacing one row replaces its elements in the total. */
  lemma {:induction false} TotalUpdate<T>(ls: seq<seq<T>>, i: nat, s: seq<T>)
    requires i < |ls|
    ensures Total(ls[i := s]) + multiset(ls[i]) == Total(ls) + multiset(s)
  {
    var n := |ls| - 1;
    var ls' := ls[i := s];
    assert Total(ls) == Total(ls[..n]) + multiset(ls[n]);
    assert Total(ls') == Total(ls'[..n]) + multiset(ls'[n]);
    if i == n {
      assert ls'[..n] == ls[..n];
    } else {
      assert ls'[..n] == ls[..n][i := s];
      assert ls'[n] == ls[n];
      TotalUpdate(ls[..n], i, s);
      assert ls[..n][i] == ls[i];
      calc {
        Total(ls') + multiset(ls[i]);
        Total(ls[..n][i := s]) + multiset(ls[n]) + multiset(ls[..n][i]);
        Total(ls[..n]) + multiset(s) + multiset(ls[n]);
      }
    }
  }

  /** Every element of the multiset occurs exactly once. */
  ghost predicate Unique<T>(m: multiset<T>) {
    forall x :: x in m ==> m[x] == 1
  }

  lemma UniqueNoDup<T>(s: seq<T>, m: multiset<T>)
    requires multiset(s) <= m && Unique(m)
    ensures NoDup(s)
  {
    forall i, j | 0 <= i < j < |s|
      ensures s[i] != s[j]
    {
      CountTwo(s, i, j);
    }
  }

  lemma CountTwo<T>(s: seq<T>, i: nat, j: nat)
    requires i < j < |s|
    ensures s[i] == s[j] ==> multiset(s)[s[i]] >= 2
  {
    assert s == s[..j] + s[j..];
    assert s[i] in multiset(s[..j]);
    assert s[j] in multiset(s[j..]);
  }

  /** With every element once in the table, each row is free of duplicates
      and two rows share nothing. */
  lemma UniqueRows<T>(ls: seq<seq<T>>, i: nat, j: nat)
    requires Unique(Total(ls)) && i < |ls| && j < |ls|
    ensures NoDup(ls[i])
    ensures i != j ==> forall x :: x in ls[i] ==> x !in ls[j]
  {
    TotalPart(ls, i);
    UniqueNoDup(ls[i], Total(ls));
    if i != j {
      TotalPair(ls, i, j);
      forall x | x in ls[i]
        ensures x !in ls[j]
      {
        assert multiset(ls[i])[x] >= 1;
      }
    }
  }

  /** The elements of `s`, in order, that do not occur in `t`. */
  function Without<T(==)>(s: seq<T>, t: seq<T>): (r: seq<T>)
    ensures forall i :: 0 <= i < |r| ==> r[i] in s && r[i] !in t
  {
    if s == [] then []
    else if s[0] in t then Without(s[1..], t)
    else [s[0]] + Without(s[1..], t)
  }

  lemma {:induction false} WithoutMember<T>(s: seq<T>, t: seq<T>, x: T)
    ensures x in Without(s, t) <==> x in s && x !in t
  {
    if s != [] {
      WithoutMember(s[1..], t, x);
      assert s == [s[0]] + s[1..];
    }
  }

  lemma {:induction false} WithoutConcat<T>(a: seq<T>, b: seq<T>, t: seq<T>)
    ensures Without(a + b, t) == Without(a, t) + Without(b, t)
  {
    if a == [] {
      assert a + b == b;
    } else {
      assert (a + b)[0] == a[0];
      assert (a + b)[1..] == a[1..] + b;
      WithoutConcat(a[1..], b, t);
      if a[0] !in t {
        assert Without(a + b, t) == [a[0]] + Without(a[1..] + b, t);
      }
    }
  }

  lemma {:induction false} WithoutNone<T>(s: seq<T>, t: seq<T>)
    requires forall x :: x in s ==> x !in t
    ensures Without(s, t) == s
  {
    if s != [] {
      WithoutNone(s[1..], t);
    }
  }

  lemma {:induction false} WithoutSame<T>(s: seq<T>, t: seq<T>, x: T)
    requires x !in s
    ensures Without(s, t + [x]) == Without(s, t)
  {
    if s != [] {
      WithoutSame(s[1..], t, x);
    }
  }

  lemma RemoveCons<T>(a: T, r: seq<T>, x: T)
    requires a != x
    ensures Remove([a] + r, x) == [a] + Remove(r, x)
  {
    assert ([a] + r)[1..] == r;
    var k := IndexOf(r, x);
    assert IndexOf([a] + r, x) == if k < 0 then -1 else k + 1;
    if k >= 0 {
      assert ([a] + r)[..k + 1] == [a] + r[..k];
      assert ([a] + r)[k + 2..] == r[k + 1..];
    }
  }

  /** Removing one more element, absent from `t`, from a duplicate-free
      row extends the list of dropped elements by that element. */
  lemma {:induction false} RemoveWithout<T>(s: seq<T>, t: seq<T>, x: T)
    requires NoDup(s) && x in s && x !in t
    ensures Remove(Without(s, t), x) == Without(s, t + [x])
  {
    var r := s[1..];
    assert NoDup(r);
    if s[0] == x {
      assert x !in r;
      WithoutSame(r, t, x);
    } else if s[0] in t {
      RemoveWithout(r, t, x);
    } else {
      RemoveWithout(r, t, x);
      RemoveCons(s[0], Without(r, t), x);
    }
  }

  /** Dropping a duplicate-free list of elements of a duplicate-free row
      removes exactly those elements. */
  lemma {:induction false} WithoutMultiset<T>(s: seq<T>, t: seq<T>)
    requires NoDup(s) && NoDup(t) && forall x :: x in t ==> x in s
    ensures multiset(Without(s, t)) + multiset(t) == multiset(s)
  {
    if t == [] {
      WithoutNone(s, t);
    } else {
      var n := |t| - 1;
      var x := t[n];
      assert t == t[..n] + [x];
      assert NoDup(t[..n]) && x !in t[..n];
      WithoutMultiset(s, t[..n]);
      WithoutMember(s, t[..n], x);
      RemoveWithout(s, t[..n], x);
      RemoveCount(Without(s, t[..n]), x);
    }
  }

  /** Dropping the suffix that starts at k leaves the prefix before k. */
  lemma WithoutSuffix<T>(s: seq<T>, k: nat)
    requires NoDup(s) && k <= |s|
    ensures Without(s, s[k..]) == s[..k]
  {
    assert s == s[..k] + s[k..];
    WithoutConcat(s[..k], s[k..], s[k..]);
    WithoutNone(s[..k], s[k..]);
    WithoutAll(s[k..], s[k..]);
  }

  lemma {:induction false} WithoutAll<T>(s: seq<T>, t: seq<T>)
    requires forall x :: x in s ==> x in t
    ensures Without(s, t) == []
  {
    if s != [] {
      WithoutAll(s[1..], t);
    }
  }

  /** The table after the elements of `stack` leave row i for the end of
      row j, in stack order; a move onto the same row changes nothing. */
  function Moved<T(==)>(ls: seq<seq<T>>, i: nat, j: nat, stack: seq<T>): (r: seq<seq<T>>)
    requires i < |ls| && j < |ls|
    ensures |r| == |ls|
  {
    if i == j then ls else ls[i := Without(ls[i], stack)][j := ls[j] + stack]
  }

  /** Moving no elements changes nothing. */
  lemma MovedNothing<T>(ls: seq<seq<T>>, i: nat, j: nat)
    requires i < |ls| && j < |ls|
    ensures Moved(ls, i, j, []) == ls
  {
    WithoutNone(ls[i], []);
    assert ls[j] + [] == ls[j];
    assert ls[i := ls[i]][j := ls[j]] == ls;
  }

  /** Moving one element from row i to the end of row j. */
  function MoveOne<T(==)>(ls: seq<seq<T>>, i: nat, j: nat, x: T): (r: seq<seq<T>>)
    requires i < |ls| && j < |ls|
    ensures |r| == |ls|
  {
    if i == j then ls else ls[i := Remove(ls[i], x)][j := ls[j] + [x]]
  }

  /** A move of a stack is the moves of its elements one after the other. */
  lemma MovedStep<T>(ls: seq<seq<T>>, i: nat, j: nat, stack: seq<T>, x: T)
    requires i < |ls| && j < |ls| && NoDup(ls[i]) && x in ls[i] && x !in stack
    ensures Moved(ls, i, j, stack + [x]) == MoveOne(Moved(ls, i, j, stack), i, j, x)
  {
    if i != j {
      RemoveWithout(ls[i], stack, x);
      var m := Moved(ls, i, j, stack);
      assert m[i] == Without(ls[i], stack) && m[j] == ls[j] + stack;
      assert ls[j] + (stack + [x]) == m[j] + [x];
      var l := Moved(ls, i, j, stack + [x]);
      var r := MoveOne(m, i, j, x);
      assert forall k :: 0 <= k < |ls| ==> l[k] == r[k];
    }
  }

  lemma {:induction false} TotalConcat<T>(a: seq<seq<T>>, b: seq<seq<T>>)
    ensures Total(a + b) == Total(a) + Total(b)
  {
    if b != [] {
      var n := |b| - 1;
      calc {
        Total(a + b);
        Total((a + b)[..|a + b| - 1]) + multiset((a + b)[|a + b| - 1]);
        { assert (a + b)[..|a + b| - 1] == a + b[..n]; assert (a + b)[|a + b| - 1] == b[n]; }
        Total(a + b[..n]) + multiset(b[n]);
        { TotalConcat(a, b[..n]); }
        Total(a) + Total(b[..n]) + multiset(b[n]);
        Total(a) + Total(b);
      }
    } else {
      assert a + b == a;
    }
  }

  lemma EmptyTotal<T>(ls: seq<seq<T>>)
    requires forall i :: 0 <= i < |ls| ==> ls[i] == []
    ensures Total(ls) == multiset{}
  {
    if ls != [] {
      EmptyTotal(ls[..|ls| - 1]);
    }
  }

  /** Appending one element to one row adds it to the total. */
  lemma TotalAppend<T>(ls: seq<seq<T>>, i: nat, x: T)
    requires i < |ls|
    ensures Total(ls[i := ls[i] + [x]]) == Total(ls) + multiset{x}
  {
    TotalUpdate(ls, i, ls[i] + [x]);
    MultisetCancel(Total(ls[i := ls[i] + [x]]), Total(ls) + multiset{x}, multiset(ls[i]));
  }

  lemma MultisetCancel<T>(a: multiset<T>, b: multiset<T>, c: multiset<T>)
    requires a + c == b + c
    ensures a == b
  {
    forall x
      ensures a[x] == b[x]
    {
      assert (a + c)[x] == (b + c)[x];
    }
  }

  /** Replacing row i by r1 and then row j by r2 keeps the total when the
      two rows together keep their elements. */
  lemma TotalTwoRows<T>(ls: seq<seq<T>>, i: nat, j: nat, r1: seq<T>, r2: seq<T>, moved: multiset<T>)
    requires i < |ls| && j < |ls| && i != j
    requires multiset(r1) + moved == multiset(ls[i])
    requires multiset(r2) == multiset(ls[j]) + moved
    ensures Total(ls[i := r1][j := r2]) == Total(ls)
  {
    var l1 := ls[i := r1];
    var l2 := l1[j := r2];
    TotalUpdate(ls, i, r1);
    TotalUpdate(l1, j, r2);
    assert l1[j] == ls[j];
    var c := multiset(ls[j]) + multiset(r1) + moved;
    calc {
      Total(l2) + c;
      Total(l2) + multiset(ls[j]) + multiset(r1) + moved;
      Total(l1) + multiset(r2) + multiset(r1) + moved;
      Total(l1) + multiset(ls[i]) + multiset(ls[j]) + moved;
      Total(ls) + multiset(r1) + multiset(ls[j]) + moved;
      Total(ls) + c;
    }
    MultisetCancel(Total(l2), Total(ls), c);
  }

  /** A single move keeps every element of the table. */
  lemma MoveOneConserves<T>(ls: seq<seq<T>>, i: nat, j: nat, x: T)
    requires i < |ls| && j < |ls| && x in ls[i]
    ensures Total(MoveOne(ls, i, j, x)) == Total(ls)
    ensures forall k :: 0 <= k < |ls| && k != i && k != j ==> MoveOne(ls, i, j, x)[k] == ls[k]
  {
    if i != j {
      RemoveCount(ls[i], x);
      TotalTwoRows(ls, i, j, Remove(ls[i], x), ls[j] + [x], multiset{x});
    }
  }

  /** Moving a duplicate-free stack taken from row i keeps every element
      of the table and changes no other row. */
  lemma MovedConserves<T>(ls: seq<seq<T>>, i: nat, j: nat, stack: seq<T>)
    requires i < |ls| && j < |ls| && NoDup(ls[i]) && NoDup(stack)
    requires forall x :: x in stack ==> x in ls[i]
    ensures Total(Moved(ls, i, j, stack)) == Total(ls)
    ensures forall k :: 0 <= k < |ls| && k != i && k != j ==> Moved(ls, i, j, stack)[k] == ls[k]
  {
    if i != j {
      WithoutMultiset(ls[i], stack);
      TotalTwoRows(ls, i, j, Without(ls[i], stack), ls[j] + stack, multiset(stack));
    }
  }

  /** A move only takes elements away from the row it leaves. */
  lemma MovedRowIn<T>(ls: seq<seq<T>>, i: nat, j: nat, stack: seq<T>)
    requires i < |ls| && j < |ls|
    ensures forall x :: x in Moved(ls, i, j, stack)[i] ==> x in ls[i]
  {
  }

  /** Moving the suffix of row i that starts at k leaves the prefix before k there. */
  lemma MovedSuffix<T>(ls: seq<seq<T>>, i: nat, j: nat, k: nat)
    requires i < |ls| && j < |ls| && i != j && NoDup(ls[i]) && k <= |ls[i]|
    ensures Moved(ls, i, j, ls[i][k..])[i] == ls[i][..k]
    ensures Moved(ls, i, j, ls[i][k..])[j] == ls[j] + ls[i][k..]
  {
    WithoutSuffix(ls[i], k);
  }

  lemma NoDupUnique<T>(s: seq<T>)
    requires NoDup(s)
    ensures Unique(multiset(s))
  {
    forall x | x in multiset(s)
      ensures multiset(s)[x] == 1
    {
      var k :| 0 <= k < |s| && s[k] == x;
      assert s == s[..k] + [x] + s[k + 1..];
      assert x !in s[..k] && x !in s[k + 1..];
    }
  }
}
