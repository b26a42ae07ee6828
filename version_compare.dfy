/** The custom version comparator both native hot-update components hand to
    the assets manager. Versions are dotted strings; the result is positive
    when the first is newer, 0 when they count as equal and negative when the
    first is older. JavaScript numbers are modelled as integers, NaN as None. */
module VersionCompare {
  import opened Wrappers
  import opened Strings

  /** `a - b` on numbers that may be NaN. */
  function Sub(a: Option<int>, b: Option<int>): (r: Option<int>)
    ensures r.Some? <==> a.Some? && b.Some?
    ensures r.Some? ==> r.value == a.value - b.value
  {
    if a.Some? && b.Some? then Some(a.value - b.value) else None
  }

  /** `parseInt(vB[i] || '0')`: a missing or empty component of B reads as 0. */
  function ReadB(vB: seq<string>, i: nat): Option<int> {
    if i < |vB| && vB[i] != "" then ParseInt(vB[i]) else Some(0)
  }

  /** Components i and up: the first pair that is not `===`-equal decides
      with its difference (NaN never equals anything); when A runs out, a
      longer B gives -1 and anything else 0. */
  function CompareFrom(vA: seq<string>, vB: seq<string>, i: nat): Option<int>
    decreases |vA| - i
  {
    if i >= |vA| then
      if |vB| > |vA| then Some(-1) else Some(0)
    else
      var a, b := ParseInt(vA[i]), ReadB(vB, i);
      if a.Some? && a == b then CompareFrom(vA, vB, i + 1) else Sub(a, b)
  }

  /** `versionCompareHandle(versionA, versionB)`: a number (never NaN)
      whenever every component of A and every non-empty component of B
      starts with a number. */
  function Compare(versionA: string, versionB: string): (r: Option<int>)
    ensures Numeric(versionA) && ReadsB(versionB) ==> r.Some?
  {
    var vA, vB := Split(versionA, '.'), Split(versionB, '.');
    CompareFromDefined(vA, vB, 0);
    CompareFrom(vA, vB, 0)
  }

  /** Every component of B, read as `vB[i] || '0'`, is a number. */
  ghost predicate ReadsB(v: string) {
    forall j :: 0 <= j < |Split(v, '.')| ==> ReadB(Split(v, '.'), j).Some?
  }

  lemma {:induction false} CompareFromDefined(vA: seq<string>, vB: seq<string>, i: nat)
    ensures (forall j :: i <= j < |vA| ==> ParseInt(vA[j]).Some?) && (forall j :: i <= j < |vB| ==> ReadB(vB, j).Some?)
      ==> CompareFrom(vA, vB, i).Some?
    decreases |vA| - i
  {
    if i < |vA| {
      CompareFromDefined(vA, vB, i + 1);
      if i >= |vB| {
        assert ReadB(vB, i) == Some(0);
      }
    }
  }

  /** Components j of A and B, for all j in [i, k), read as the same number. */
  ghost predicate SameFrom(vA: seq<string>, vB: seq<string>, i: nat, k: nat) {
    forall j :: i <= j < k && j < |vA| ==> ParseInt(vA[j]).Some? && ParseInt(vA[j]) == ReadB(vB, j)
  }

  /** The first component pair that differs (or is NaN) decides with its difference. */
  lemma {:induction false} FirstDifferenceDecides(vA: seq<string>, vB: seq<string>, i: nat, k: nat)
    requires i <= k < |vA| && SameFrom(vA, vB, i, k)
    requires ParseInt(vA[k]).None? || ParseInt(vA[k]) != ReadB(vB, k)
    ensures CompareFrom(vA, vB, i) == Sub(ParseInt(vA[k]), ReadB(vB, k))
    decreases k - i
  {
    if i < k {
      FirstDifferenceDecides(vA, vB, i + 1, k);
    }
  }

  /** When every component of A matches B, only the lengths matter: a
      longer B gives -1, otherwise the versions count as equal. */
  lemma {:induction false} AllSameDecides(vA: seq<string>, vB: seq<string>, i: nat)
    requires SameFrom(vA, vB, i, |vA|)
    ensures CompareFrom(vA, vB, i) == if |vB| > |vA| then Some(-1) else Some(0)
    decreases |vA| - i
  {
    if i < |vA| {
      AllSameDecides(vA, vB, i + 1);
    }
  }

  /** A version whose every component starts with a number. */
  ghost predicate Numeric(v: string) {
    forall j :: 0 <= j < |Split(v, '.')| ==> ParseInt(Split(v, '.')[j]).Some?
  }

  /** Identical numeric versions compare as 0. */
  lemma CompareSelf(v: string)
    requires Numeric(v)
    ensures Compare(v, v) == Some(0)
  {
    var p := Split(v, '.');
    forall j | 0 <= j < |p|
      ensures ParseInt(p[j]).Some? && ParseInt(p[j]) == ReadB(p, j)
    {
      assert p[j] != "";
    }
    AllSameDecides(p, p, 0);
  }

  /** The dotted form of a list of natural numbers. */
  function Render(ns: seq<nat>): (v: string)
    requires |ns| >= 1
  {
    if |ns| == 1 then NatToString(ns[0]) else NatToString(ns[0]) + "." + Render(ns[1..])
  }

  /** An independent reading of versions: lexicographic order on the component
      lists, each list padded with zeros to the same length. */
  function Lex(xs: seq<nat>, ys: seq<nat>): (r: int)
    ensures -1 <= r <= 1
    decreases |xs| + |ys|
  {
    if xs == [] && ys == [] then 0
    else
      var x, y := if xs == [] then 0 else xs[0], if ys == [] then 0 else ys[0];
      if x < y then -1
      else if x > y then 1
      else Lex(if xs == [] then [] else xs[1..], if ys == [] then [] else ys[1..])
  }

  function Sign(n: int): int {
    if n < 0 then -1 else if n > 0 then 1 else 0
  }

  /** Splitting a rendered version gives back the decimal form of each component. */
  lemma {:induction false} SplitRender(ns: seq<nat>)
    requires |ns| >= 1
    ensures |Split(Render(ns), '.')| == |ns|
    ensures forall j :: 0 <= j < |ns| ==> Split(Render(ns), '.')[j] == NatToString(ns[j])
  {
    if |ns| > 1 {
      SplitRender(ns[1..]);
      SplitFront(NatToString(ns[0]), Render(ns[1..]), '.');
    } else {
      SplitNone(NatToString(ns[0]), '.');
    }
  }

  /** For versions of the same length made of plain numbers, the
      comparator's sign is the lexicographic order. */
  lemma CompareRendered(xs: seq<nat>, ys: seq<nat>)
    requires |xs| == |ys| >= 1
    ensures Compare(Render(xs), Render(ys)).Some?
    ensures Sign(Compare(Render(xs), Render(ys)).value) == Lex(xs, ys)
  {
    SplitRender(xs);
    SplitRender(ys);
    var vA, vB := Split(Render(xs), '.'), Split(Render(ys), '.');
    forall j | 0 <= j < |xs|
      ensures ParseInt(vA[j]) == Some(xs[j] as int) && ReadB(vB, j) == Some(ys[j] as int)
    {
      ParseIntNatToString(xs[j]);
      ParseIntNatToString(ys[j]);
    }
    CompareRenderedFrom(xs, ys, vA, vB, 0);
  }

  lemma {:induction false} CompareRenderedFrom(xs: seq<nat>, ys: seq<nat>, vA: seq<string>, vB: seq<string>, i: nat)
    requires |xs| == |ys| == |vA| == |vB| && i <= |xs|
    requires forall j :: 0 <= j < |xs| ==> ParseInt(vA[j]) == Some(xs[j] as int) && ReadB(vB, j) == Some(ys[j] as int)
    ensures CompareFrom(vA, vB, i).Some?
    ensures Sign(CompareFrom(vA, vB, i).value) == Lex(xs[i..], ys[i..])
    decreases |xs| - i
  {
    if i < |xs| {
      CompareRenderedFrom(xs, ys, vA, vB, i + 1);
      assert xs[i..][1..] == xs[i + 1..] && ys[i..][1..] == ys[i + 1..];
    }
  }

  /** The pieces of the three versions the examples below use. */
  lemma ExampleSplits()
    ensures Split("1.2", '.') == ["1", "2"]
    ensures Split("1.2.0", '.') == ["1", "2", "0"]
    ensures Split("1.2.1", '.') == ["1", "2", "1"]
    ensures ParseInt("1") == Some(1) && ParseInt("2") == Some(2) && ParseInt("0") == Some(0)
  {
    SplitTwo();
    SplitThree(0);
    assert "1.2." + [DigitChar(0)] == "1.2.0";
    SplitThree(1);
    assert "1.2." + [DigitChar(1)] == "1.2.1";
  }

  lemma SplitTwo()
    ensures Split("1.2", '.') == ["1", "2"]
  {
    SplitRender([1, 2]);
    assert Render([1, 2]) == "1.2";
  }

  lemma SplitThree(z: nat)
    requires z < 10
    ensures Split("1.2." + [DigitChar(z)], '.') == ["1", "2", [DigitChar(z)]]
  {
    SplitRender([1, 2, z]);
    assert [1, 2, z][1..] == [2, z] && [2, z][1..] == [z];
    assert Render([2, z]) == "2." + [DigitChar(z)];
    assert Render([1, 2, z]) == "1.2." + [DigitChar(z)];
  }

  /** Without a radix `parseInt` reads `0x10` as sixteen, so the comparator
      counts "0x10" and "16" as the same version. */
  lemma HexComponent()
    ensures Compare("0x10", "16") == Some(0)
  {
    var vA, vB := ["0x10"], ["16"];
    SplitNone("0x10", '.');
    SplitNone("16", '.');
    HexExamples();
    DecimalSixteen();
    assert ParseInt(vA[0]) == Some(16) && ReadB(vB, 0) == Some(16);
    assert CompareFrom(vA, vB, 1) == Some(0);
    assert CompareFrom(vA, vB, 0) == Some(0);
  }

  /** A `0x` prefix switches to base 16; a bare `0x` is NaN. */
  lemma HexExamples()
    ensures ParseInt("0x10") == Some(16) && ParseInt("0x1A") == Some(26) && ParseInt("0x").None?
  {
    assert "0x10"[2..] == "10" && "0x1A"[2..] == "1A";
    assert "10"[..1] == "1" && "1A"[..1] == "1" && "1"[..0] == "";
    assert AllHex("10") && HexDigitsValue("10") == 16;
    assert AllHex("1A") && HexDigitsValue("1A") == 26;
  }

  lemma DecimalSixteen()
    ensures ParseInt("16") == Some(16)
  {
    assert "16"[..1] == "1" && "1"[..0] == "";
    assert AllDigits("16") && DigitsValue("16") == 16;
  }

  /** A component missing from B reads as 0: "1.2.1" is newer than "1.2". */
  lemma MissingReadsAsZero()
    ensures Compare("1.2.1", "1.2") == Some(1)
  {
    ExampleSplits();
    FirstDifferenceDecides(["1", "2", "1"], ["1", "2"], 0, 2);
  }

  /** The comparator is not antisymmetric: "1.2" is older than "1.2.0", yet
      "1.2.0" counts as equal to "1.2". */
  lemma NotAntisymmetric()
    ensures Compare("1.2", "1.2.0") == Some(-1)
    ensures Compare("1.2.0", "1.2") == Some(0)
  {
    ExampleSplits();
    var short, long := ["1", "2"], ["1", "2", "0"];
    assert SameFrom(short, long, 0, 2);
    AllSameDecides(short, long, 0);
    assert SameFrom(long, short, 0, 3);
    AllSameDecides(long, short, 0);
  }
}
