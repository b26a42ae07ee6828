/** `formatTimer` of the rolling-number label (`gui/BhvRollNumber.ts`): a
    number of seconds shown as `h:mm:ss`, or as `m:ss` with the hours folded
    into the minutes. JavaScript's `%` truncates toward zero, so it is written
    out; `Math.floor(x / n)` for a positive n is Dafny's `/`. */
module RollNumber {
  import opened Wrappers
  import opened Strings

  /** JavaScript's `a % b` for a positive divisor: the sign follows `a`. */
  function JsRem(a: int, b: int): (r: int)
    requires b > 0
    ensures a >= 0 ==> r == a % b
    ensures a < 0 ==> -b < r <= 0
  {
    if a >= 0 then a % b else -((-a) % b)
  }

  /** The hour, minute and second fields the function computes from `t` whole seconds. */
  function Hours(t: int): int { t / 3600 }
  function Minutes(t: int): int { JsRem(t, 3600) / 60 }
  function Seconds(t: int): int { JsRem(t, 60) }

  /** A field below 10 gets a leading '0' (negative fields too, as `formatTimer` does). */
  function Pad2(n: int): string {
    if n < 10 then "0" + IntToString(n) else IntToString(n)
  }

  /** `formatTimer(time, full)`: the time is cut down to whole seconds first.
      For a non-negative time the text reads back as those whole seconds. */
  function FormatTimer(time: real, full: bool): (text: string)
    ensures time >= 0.0 ==> ReadTimer(text, full) == Some(time.Floor)
  {
    var t := time.Floor;
    if t >= 0 then
      if full then FullRoundTrip(t); FormatSeconds(t, full)
      else ShortRoundTrip(t); FormatSeconds(t, full)
    else FormatSeconds(t, full)
  }

  function FormatSeconds(t: int, full: bool): string {
    var h, m, s := Hours(t), Minutes(t), Seconds(t);
    if full then IntToString(h) + ":" + Pad2(m) + ":" + Pad2(s)
    else IntToString(m + h * 60) + ":" + Pad2(s)
  }

  /** An independent reading of a timer text: the colon-separated decimal
      fields, weighted as hours, minutes and seconds (or minutes and seconds). */
  function ReadTimer(text: string, full: bool): Option<int> {
    var p := Split(text, ':');
    if full && |p| == 3 && ParseDecimal(p[0]).Some? && ParseDecimal(p[1]).Some? && ParseDecimal(p[2]).Some? then
      Some(3600 * ParseDecimal(p[0]).value + 60 * ParseDecimal(p[1]).value + ParseDecimal(p[2]).value)
    else if !full && |p| == 2 && ParseDecimal(p[0]).Some? && ParseDecimal(p[1]).Some? then
      Some(60 * ParseDecimal(p[0]).value + ParseDecimal(p[1]).value)
    else None
  }

  /** For a non-negative count the fields split it exactly: whole hours,
      minutes below 60 and seconds below 60. */
  lemma FieldsDecompose(t: int)
    requires t >= 0
    ensures Hours(t) >= 0 && 0 <= Minutes(t) < 60 && 0 <= Seconds(t) < 60
    ensures 3600 * Hours(t) + 60 * Minutes(t) + Seconds(t) == t
  {
    var q, r := t / 3600, t % 3600;
    var a, b := r / 60, r % 60;
    assert Minutes(t) == a && Hours(t) == q;
    SecondsOfSplit(t, 60 * q + a, b);
  }

  /** `t = 60k + b` with `0 <= b < 60` makes b the remainder of t by 60. */
  lemma SecondsOfSplit(t: int, k: int, b: int)
    requires t >= 0 && 0 <= b < 60 && t == 60 * k + b
    ensures Seconds(t) == b
  {
  }

  /** A field in [0, 60) is written with exactly two digits that read back as the field. */
  lemma Pad2Digits(n: int)
    requires 0 <= n < 60
    ensures |Pad2(n)| == 2 && AllDigits(Pad2(n)) && ':' !in Pad2(n)
    ensures ParseDecimal(Pad2(n)) == Some(n)
  {
    NatToStringRoundTrip(n);
    var d := NatToString(n);
    if n < 10 {
      var p := "0" + d;
      assert p[..|p| - 1] == "0";
      assert DigitsValue(p) == DigitsValue("0") * 10 + DigitValue(d[0]);
      assert DigitsValue(d) == DigitsValue(d[..0]) * 10 + DigitValue(d[0]);
    }
  }

  /** The decimal form of a natural number holds no colon. */
  lemma NoColon(n: nat)
    ensures ':' !in NatToString(n) && ParseDecimal(NatToString(n)) == Some(n)
  {
    NatToStringRoundTrip(n);
  }

  /** For a non-negative time the text reads back as its whole seconds, in
      both layouts, and the minute and second fields have two digits each. */
  lemma FormatTimerRoundTrip(time: real, full: bool)
    requires time >= 0.0
    ensures ReadTimer(FormatTimer(time, full), full) == Some(time.Floor)
    ensures full ==> |Split(FormatTimer(time, full), ':')| == 3
    ensures !full ==> |Split(FormatTimer(time, full), ':')| == 2
    ensures forall k :: 1 <= k < |Split(FormatTimer(time, full), ':')| ==> |Split(FormatTimer(time, full), ':')[k]| == 2
  {
    if full {
      FullRoundTrip(time.Floor);
    } else {
      ShortRoundTrip(time.Floor);
    }
  }

  lemma FullRoundTrip(t: int)
    requires t >= 0
    ensures Split(FormatSeconds(t, true), ':') == [IntToString(Hours(t)), Pad2(Minutes(t)), Pad2(Seconds(t))]
    ensures ReadTimer(FormatSeconds(t, true), true) == Some(t)
    ensures |Pad2(Minutes(t))| == 2 && |Pad2(Seconds(t))| == 2
  {
    FieldsDecompose(t);
    FullFields(Hours(t), Minutes(t), Seconds(t));
  }

  lemma ShortRoundTrip(t: int)
    requires t >= 0
    ensures Split(FormatSeconds(t, false), ':') == [IntToString(Minutes(t) + Hours(t) * 60), Pad2(Seconds(t))]
    ensures ReadTimer(FormatSeconds(t, false), false) == Some(t)
    ensures |Pad2(Seconds(t))| == 2
  {
    FieldsDecompose(t);
    ShortFields(Minutes(t) + Hours(t) * 60, Seconds(t));
  }

  /** The full layout `h:mm:ss` splits into its three fields. */
  lemma FullFields(h: nat, m: int, s: int)
    requires 0 <= m < 60 && 0 <= s < 60
    ensures Split(IntToString(h) + ":" + Pad2(m) + ":" + Pad2(s), ':') == [IntToString(h), Pad2(m), Pad2(s)]
    ensures ParseDecimal(IntToString(h)) == Some(h as int)
    ensures |Pad2(m)| == 2 && ParseDecimal(Pad2(m)) == Some(m)
    ensures |Pad2(s)| == 2 && ParseDecimal(Pad2(s)) == Some(s)
  {
    Pad2Digits(m);
    Pad2Digits(s);
    NoColon(h);
    SplitNone(Pad2(s), ':');
    SplitFront(Pad2(m), Pad2(s), ':');
    SplitFront(IntToString(h), Pad2(m) + ":" + Pad2(s), ':');
    assert IntToString(h) + ":" + Pad2(m) + ":" + Pad2(s) == IntToString(h) + [':'] + (Pad2(m) + [':'] + Pad2(s));
  }

  /** The short layout `m:ss` splits into its two fields. */
  lemma ShortFields(m: nat, s: int)
    requires 0 <= s < 60
    ensures Split(IntToString(m) + ":" + Pad2(s), ':') == [IntToString(m), Pad2(s)]
    ensures ParseDecimal(IntToString(m)) == Some(m as int)
    ensures |Pad2(s)| == 2 && ParseDecimal(Pad2(s)) == Some(s)
  {
    Pad2Digits(s);
    NoColon(m);
    SplitNone(Pad2(s), ':');
    SplitFront(IntToString(m), Pad2(s), ':');
  }

  /** The default arguments show a zero timer. */
  lemma ZeroTimer()
    ensures FormatTimer(0.0, true) == "0:00:00"
  {
    assert Hours(0) == 0 && Minutes(0) == 0 && Seconds(0) == 0;
    assert Pad2(0) == "00";
  }

  /** 3725.9 seconds are an hour, two minutes and five seconds. */
  lemma HourTimer()
    ensures FormatTimer(3725.9, true) == "1:02:05"
  {
    FieldsOf3725();
    assert FormatSeconds(3725, true) == "1" + ":" + "02" + ":" + "05";
  }

  /** ... or 62 minutes and five seconds. */
  lemma HourTimerShort()
    ensures FormatTimer(3725.9, false) == "62:05"
  {
    FieldsOf3725();
    assert NatToString(62) == NatToString(6) + [DigitChar(2)];
    assert FormatSeconds(3725, false) == "62" + ":" + "05";
  }

  lemma FieldsOf3725()
    ensures (3725.9).Floor == 3725
    ensures Hours(3725) == 1 && Minutes(3725) == 2 && Seconds(3725) == 5
    ensures Pad2(2) == "02" && Pad2(5) == "05"
  {
    assert Pad2(5) == "0" + [DigitChar(5)];
  }
}
