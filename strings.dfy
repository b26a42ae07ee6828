/** Decimal text, as produced by JavaScript's `Number.prototype.toString` on
    integers, the integer text `parseInt` reads, plus ASCII case mapping and `split`. */
module Strings {
  import opened Wrappers

  predicate IsDigit(c: char) { '0' <= c <= '9' }

  function DigitChar(d: nat): (c: char)
    requires d < 10
    ensures IsDigit(c)
  {
    "0123456789"[d]
  }

  function DigitValue(c: char): (d: nat)
    requires IsDigit(c)
    ensures d < 10
  {
    (c as int - '0' as int) as nat
  }

  lemma DigitRoundTrip(d: nat)
    requires d < 10
    ensures DigitValue(DigitChar(d)) == d
  {
  }

  /** Decimal form of a natural number without leading zeros. */
  function NatToString(n: nat): (s: string)
    ensures |s| >= 1
    ensures forall i :: 0 <= i < |s| ==> IsDigit(s[i])
    ensures n < 10 <==> |s| == 1
    decreases n
  {
    if n < 10 then [DigitChar(n)] else NatToString(n / 10) + [DigitChar(n % 10)]
  }

  /** Decimal form of an integer (a leading '-' for negatives). */
  function IntToString(i: int): string {
    if i < 0 then "-" + NatToString(-i) else NatToString(i)
  }

  predicate AllDigits(s: string) {
    forall i :: 0 <= i < |s| ==> IsDigit(s[i])
  }

  /** Value of a string of decimal digits. */
  function DigitsValue(s: string): nat
    requires AllDigits(s)
  {
    if |s| == 0 then 0 else DigitsValue(s[..|s| - 1]) * 10 + DigitValue(s[|s| - 1])
  }

  lemma {:induction false} NatToStringRoundTrip(n: nat)
    ensures DigitsValue(NatToString(n)) == n
    decreases n
  {
    if n >= 10 {
      var s := NatToString(n / 10);
      NatToStringRoundTrip(n / 10);
      assert (s + [DigitChar(n % 10)])[..|s|] == s;
      DigitRoundTrip(n % 10);
    } else {
      DigitRoundTrip(n);
    }
  }

  /** Strict decimal reading of a whole string: an optional '-' and at least one digit. */
  function ParseDecimal(s: string): Option<int> {
    if |s| > 0 && AllDigits(s) then Some(DigitsValue(s))
    else if |s| > 1 && s[0] == '-' && AllDigits(s[1..]) then Some(0 - DigitsValue(s[1..]) as int)
    else None
  }

  /** Reading back what IntToString writes gives the number again. */
  lemma IntToStringRoundTrip(i: int)
    ensures ParseDecimal(IntToString(i)) == Some(i)
  {
    if i < 0 {
      var n: nat := -i;
      assert IntToString(i) == "-" + NatToString(n);
      NegativeRoundTrip(n);
    } else {
      var n: nat := i;
      assert IntToString(i) == NatToString(n);
      NatRoundTrip(n);
    }
  }

  lemma NatRoundTrip(n: nat)
    ensures ParseDecimal(NatToString(n)) == Some(n)
  {
    NatToStringRoundTrip(n);
    DecimalOfDigits(NatToString(n));
  }

  lemma NegativeRoundTrip(n: nat)
    ensures ParseDecimal("-" + NatToString(n)) == Some(-(n as int))
  {
    var t := NatToString(n);
    NatToStringRoundTrip(n);
    NegativeDecimal(t);
  }

  lemma DecimalOfDigits(s: string)
    requires |s| > 0 && AllDigits(s)
    ensures ParseDecimal(s) == Some(DigitsValue(s))
  {
  }

  /** A '-' in front of a digit string reads as the negated value. */
  lemma NegativeDecimal(t: string)
    requires |t| > 0 && AllDigits(t)
    ensures ParseDecimal("-" + t) == Some(0 - DigitsValue(t) as int)
  {
    var s := "-" + t;
    assert s[1..] == t;
    assert !IsDigit(s[0]);
  }

  /** Length of the longest prefix made of decimal digits. */
  function DigitPrefixLength(s: string): (n: nat)
    ensures n <= |s| && AllDigits(s[..n])
    ensures n < |s| ==> !IsDigit(s[n])
  {
    if |s| == 0 || !IsDigit(s[0]) then 0
    else
      var k := DigitPrefixLength(s[1..]);
      assert s[..k + 1] == [s[0]] + s[1..][..k];
      k + 1
  }

  /** The number a digit prefix spells, None (NaN) when there is no digit. */
  function DigitPrefixValue(s: string): (r: Option<nat>)
    ensures r.Some? <==> |s| > 0 && IsDigit(s[0])
    ensures AllDigits(s) && |s| > 0 ==> r == Some(DigitsValue(s))
  {
    var n := DigitPrefixLength(s);
    assert AllDigits(s) ==> n == |s|;
    assert s[..|s|] == s;
    if n == 0 then None else Some(DigitsValue(s[..n]))
  }

  predicate IsHexDigit(c: char) { IsDigit(c) || 'a' <= c <= 'f' || 'A' <= c <= 'F' }

  function HexValue(c: char): (d: nat)
    requires IsHexDigit(c)
    ensures d < 16
    ensures IsDigit(c) ==> d == DigitValue(c)
  {
    if IsDigit(c) then DigitValue(c)
    else if 'a' <= c <= 'f' then (c as int - 'a' as int + 10) as nat
    else (c as int - 'A' as int + 10) as nat
  }

  predicate AllHex(s: string) {
    forall i :: 0 <= i < |s| ==> IsHexDigit(s[i])
  }

  /** Value of a string of hexadecimal digits. */
  function HexDigitsValue(s: string): nat
    requires AllHex(s)
  {
    if |s| == 0 then 0 else HexDigitsValue(s[..|s| - 1]) * 16 + HexValue(s[|s| - 1])
  }

  /** Length of the longest prefix made of hexadecimal digits. */
  function HexPrefixLength(s: string): (n: nat)
    ensures n <= |s| && AllHex(s[..n])
    ensures n < |s| ==> !IsHexDigit(s[n])
  {
    if |s| == 0 || !IsHexDigit(s[0]) then 0
    else
      var k := HexPrefixLength(s[1..]);
      assert s[..k + 1] == [s[0]] + s[1..][..k];
      k + 1
  }

  /** The number a hexadecimal prefix spells, None (NaN) when there is no hex digit. */
  function HexPrefixValue(s: string): (r: Option<nat>)
    ensures r.Some? <==> |s| > 0 && IsHexDigit(s[0])
    ensures AllHex(s) && |s| > 0 ==> r == Some(HexDigitsValue(s))
  {
    var n := HexPrefixLength(s);
    assert AllHex(s) ==> n == |s|;
    assert s[..|s|] == s;
    if n == 0 then None else Some(HexDigitsValue(s[..n]))
  }

  /** The text after an optional leading '-' or '+'. */
  function Unsigned(s: string): string {
    if |s| > 0 && (s[0] == '-' || s[0] == '+') then s[1..] else s
  }

  /** A `0x` or `0X` prefix, which `parseInt` without a radix reads as base 16. */
  predicate HexPrefixed(s: string) {
    |s| >= 2 && s[0] == '0' && (s[1] == 'x' || s[1] == 'X')
  }

  /** `parseInt(s)` with no radix: an optional sign, then either `0x`/`0X`
      and the longest run of hexadecimal digits, or the longest run of
      decimal digits. None stands for NaN, the result when no digit of the
      chosen base follows. */
  function ParseInt(s: string): (r: Option<int>)
    ensures var m := Unsigned(s);
      r.Some? <==> if HexPrefixed(m) then |m| > 2 && IsHexDigit(m[2]) else |m| > 0 && IsDigit(m[0])
    ensures AllDigits(s) && |s| > 0 ==> r == Some(DigitsValue(s))
    ensures |s| > 1 && s[0] == '-' && AllDigits(s[1..]) ==> r == Some(0 - DigitsValue(s[1..]) as int)
    ensures HexPrefixed(s) && |s| > 2 && AllHex(s[2..]) ==> r == Some(HexDigitsValue(s[2..]))
  {
    var m := Unsigned(s);
    var v := if HexPrefixed(m) then HexPrefixValue(m[2..]) else DigitPrefixValue(m);
    match v
    case None => None
    case Some(n) => var i: int := n; if |s| > 0 && s[0] == '-' then Some(-i) else Some(i)
  }

  /** `parseInt` reads back the decimal form of every natural number. */
  lemma ParseIntNatToString(n: nat)
    ensures ParseInt(NatToString(n)) == Some(n)
  {
    NatToStringRoundTrip(n);
  }

  /** ASCII lower-casing (`String.prototype.toLowerCase` on ASCII text). */
  function ToLower(s: string): (r: string)
    ensures |r| == |s|
    ensures forall i :: 0 <= i < |s| ==> r[i] == LowerChar(s[i])
  {
    if |s| == 0 then [] else [LowerChar(s[0])] + ToLower(s[1..])
  }

  function LowerChar(c: char): char {
    if 'A' <= c <= 'Z' then (c as int + 32) as char else c
  }

  /** `String.prototype.split(sep)`: the pieces between separators; always at least one. */
  function Split(s: string, sep: char): (r: seq<string>)
    ensures |r| >= 1
    ensures forall i :: 0 <= i < |r| ==> sep !in r[i]
  {
    if |s| == 0 then [""]
    else
      var rest := Split(s[1..], sep);
      if s[0] == sep then [""] + rest
      else [[s[0]] + rest[0]] + rest[1..]
  }

  /** Joining the pieces with the separator gives back the original string. */
  function Join(parts: seq<string>, sep: char): string
    requires |parts| >= 1
  {
    if |parts| == 1 then parts[0] else parts[0] + [sep] + Join(parts[1..], sep)
  }

  lemma {:induction false} SplitJoin(s: string, sep: char)
    ensures Join(Split(s, sep), sep) == s
  {
    if |s| > 0 {
      SplitJoin(s[1..], sep);
      var rest := Split(s[1..], sep);
      if s[0] != sep {
        if |rest| > 1 {
          assert ([[s[0]] + rest[0]] + rest[1..])[1..] == rest[1..];
        }
      } else {
        assert ([""] + rest)[1..] == rest;
      }
    }
  }

  /** A string without the separator is a single piece. */
  lemma {:induction false} SplitNone(s: string, sep: char)
    requires sep !in s
    ensures Split(s, sep) == [s]
  {
    if |s| > 0 {
      SplitNone(s[1..], sep);
      assert [s[0]] + s[1..] == s;
    }
  }

  /** Splitting `d + [sep] + t`, where d holds no separator, puts d in front of the pieces of t. */
  lemma {:induction false} SplitFront(d: string, t: string, sep: char)
    requires sep !in d
    ensures Split(d + [sep] + t, sep) == [d] + Split(t, sep)
  {
    if |d| == 0 {
      assert ("" + [sep] + t)[1..] == t;
    } else {
      assert (d + [sep] + t)[1..] == d[1..] + [sep] + t;
      SplitFront(d[1..], t, sep);
      assert [d[0]] + d[1..] == d;
    }
  }
}
