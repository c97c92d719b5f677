/** The countdown display: whole seconds shown as minutes and seconds, each padded to two digits. */
module Timer {
  import opened Optional
  import opened Decimal

  /** `Math.floor(t / 60)`: the divisor is positive, so this is Dafny's own division. */
  function FloorDiv60(t: int): (m: int)
    ensures 60 * m <= t < 60 * m + 60
  {
    t / 60
  }

  /** JavaScript's `t % 60`: the remainder takes the sign of `t`. */
  function JsRem60(t: int): (r: int)
    ensures t >= 0 ==> 0 <= r < 60
    ensures t < 0 ==> -60 < r <= 0
    ensures (t - r) % 60 == 0
  {
    if t >= 0 then t % 60 else -((-t) % 60)
  }

  /** `padStart(2, '0')`: zeros in front until there are two characters. */
  function PadStart2(s: string): (r: string)
    ensures |r| == if |s| < 2 then 2 else |s|
    ensures r[|r| - |s|..] == s
    ensures forall k :: 0 <= k < |r| - |s| ==> r[k] == '0'
  {
    if |s| >= 2 then s else Zeros(2 - |s|) + s
  }

  /** `formatTime`. */
  function FormatTime(t: int): string
  {
    PadStart2(IntToString(FloorDiv60(t))) + ":" + PadStart2(IntToString(JsRem60(t)))
  }

  /** The digits `formatTime` shows for a non-negative count are its minutes and seconds. */
  lemma SplitsIntoMinutesAndSeconds(t: int)
    requires t >= 0
    ensures FloorDiv60(t) >= 0 && 0 <= JsRem60(t) < 60
    ensures 60 * FloorDiv60(t) + JsRem60(t) == t
  {
  }

  /** A padded field of a non-negative number is all digits and reads back as the number. */
  lemma {:induction false} PaddedValue(n: nat)
    ensures AllDigits(PadStart2(NatToString(n)))
    ensures DigitsValue(PadStart2(NatToString(n))) == n
  {
    var s := NatToString(n);
    DigitsValueOfNatToString(n);
    if |s| < 2 {
      LeadingZerosValue(2 - |s|, s);
    }
  }

  /**
   * A non-negative count shows as the minutes field, a colon, and exactly two seconds digits; the
   * minutes digits read as the whole minutes and the seconds digits as the leftover seconds, 00 to 59.
   */
  lemma {:induction false} DisplayFields(t: int)
    requires t >= 0
    ensures var r := FormatTime(t);
      |r| >= 5 && r[|r| - 3] == ':' &&
      r[..|r| - 3] == PadStart2(NatToString(t / 60)) &&
      r[|r| - 2..] == PadStart2(NatToString(t % 60)) &&
      AllDigits(r[..|r| - 3]) && DigitsValue(r[..|r| - 3]) == t / 60 &&
      AllDigits(r[|r| - 2..]) && DigitsValue(r[|r| - 2..]) == t % 60 && DigitsValue(r[|r| - 2..]) < 60
  {
    var mins, secs := t / 60, t % 60;
    assert FloorDiv60(t) == mins && JsRem60(t) == secs && 0 <= secs < 60;
    var m := PadStart2(NatToString(mins));
    var s := PadStart2(NatToString(secs));
    assert |NatToString(secs)| <= 2;
    assert FormatTime(t) == m + ":" + s;
    Fields(m, s);
    PaddedValue(mins);
    PaddedValue(secs);
  }

  /** The two fields of a display with a two-character seconds field, read back by position. */
  lemma Fields(m: string, s: string)
    requires |s| == 2
    ensures var r := m + ":" + s;
      |r| == |m| + 3 && r[|r| - 3] == ':' && r[..|r| - 3] == m && r[|r| - 2..] == s
  {
    var r := m + ":" + s;
    assert r[..|m|] == m;
    assert r[|m| + 1..] == s;
  }

  /** Below 100 minutes the display is exactly five characters, `MM:SS`. */
  lemma FiveCharacters(t: int)
    requires 0 <= t < 6000
    ensures |FormatTime(t)| == 5
  {
    assert |NatToString(t / 60)| <= 2;
    assert |NatToString(t % 60)| <= 2;
  }

  /** The default thirty minutes, and time up. */
  lemma Examples()
    ensures FormatTime(1800) == "30:00"
    ensures FormatTime(0) == "00:00"
  {
    assert FloorDiv60(1800) == 30 && JsRem60(1800) == 0;
    assert FloorDiv60(0) == 0 && JsRem60(0) == 0;
    var thirty, zero := IntToString(30), IntToString(0);
    assert thirty == "30" by {
      assert NatToString(3) == "3";
      assert NatToString(30) == NatToString(3) + "0";
    }
    assert zero == "0";
    assert PadStart2(thirty) == "30";
    assert PadStart2(zero) == "00" by { assert Zeros(1) == "0"; }
    assert FormatTime(1800) == PadStart2(thirty) + ":" + PadStart2(zero);
    assert FormatTime(0) == PadStart2(zero) + ":" + PadStart2(zero);
  }

  /** Reading a display back: the minutes before the last colon, two seconds digits after it. */
  function ReadTime(r: string): Option<int>
  {
    if |r| >= 4 && r[|r| - 3] == ':' && AllDigits(r[..|r| - 3]) && AllDigits(r[|r| - 2..])
    then Some(60 * DigitsValue(r[..|r| - 3]) + DigitsValue(r[|r| - 2..]))
    else None
  }

  /** Every non-negative count reads back from its display. */
  lemma ReadFormatted(t: int)
    requires t >= 0
    ensures ReadTime(FormatTime(t)) == Some(t)
  {
    DisplayFields(t);
    ReadFields(FormatTime(t), t);
  }

  /** A colon between digit fields holding the minutes and seconds of `t` reads back as `t`. */
  lemma ReadFields(r: string, t: int)
    requires t >= 0 && |r| >= 4 && r[|r| - 3] == ':'
    requires AllDigits(r[..|r| - 3]) && DigitsValue(r[..|r| - 3]) == t / 60
    requires AllDigits(r[|r| - 2..]) && DigitsValue(r[|r| - 2..]) == t % 60
    ensures ReadTime(r) == Some(t)
  {
  }

  /** So no two non-negative counts share a display. */
  lemma FormatInjective(a: int, b: int)
    requires a >= 0 && b >= 0
    requires FormatTime(a) == FormatTime(b)
    ensures a == b
  {
    ReadFormatted(a);
    ReadFormatted(b);
  }

  /** A negative count, which the countdown never reaches, shows a signed pair of fields. */
  lemma NegativeExample()
    ensures FormatTime(-5) == "-1:-5"
  {
    assert FloorDiv60(-5) == -1 && JsRem60(-5) == -5;
    var m, sec := IntToString(-1), IntToString(-5);
    assert m == "-1" by { assert NatToString(1) == "1"; }
    assert sec == "-5" by { assert NatToString(5) == "5"; }
    assert PadStart2(m) == m && PadStart2(sec) == sec;
    assert FormatTime(-5) == m + ":" + sec;
  }
}
