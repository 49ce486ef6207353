/** utils/UIManager.js, `formatDuration`: a number of seconds rendered with the
    largest non-zero unit first (hours, minutes, seconds). The reading direction
    is given by `ParseDuration`, which accepts exactly the three shapes the
    formatter writes. */
module Ui {
  import opened Common
  import opened Text

  const HourUnit := "小时"
  const MinuteUnit := "分钟"
  const SecondUnit := "秒"

  /** `Math.floor(seconds / 3600)` */
  function Hours(seconds: nat): nat { seconds / 3600 }

  /** `Math.floor((seconds % 3600) / 60)` */
  function Minutes(seconds: nat): nat { (seconds % 3600) / 60 }

  /** `seconds % 60` */
  function Seconds(seconds: nat): nat { seconds % 60 }

  /** The three parts are a mixed-radix decomposition of the duration. */
  lemma DurationDecomposition(seconds: nat)
    ensures Minutes(seconds) < 60 && Seconds(seconds) < 60
    ensures Hours(seconds) * 3600 + Minutes(seconds) * 60 + Seconds(seconds) == seconds
    ensures Hours(seconds) > 0 <==> seconds >= 3600
    ensures Hours(seconds) == 0 ==> (Minutes(seconds) > 0 <==> seconds >= 60)
  {
    var r := seconds % 3600;
    assert seconds == Hours(seconds) * 3600 + r;
    assert r == Minutes(seconds) * 60 + r % 60;
    assert r % 60 == seconds % 60 by {
      assert seconds == (Hours(seconds) * 60) * 60 + r;
    }
  }

  /** One `${n}unit` piece of the template. */
  function Field(n: nat, unit: string): string
  {
    NatToString(n) + unit
  }

  /** `formatDuration(seconds)` */
  function FormatDuration(seconds: nat): string
  {
    var h, m, s := Hours(seconds), Minutes(seconds), Seconds(seconds);
    if h > 0 then Field(h, HourUnit) + (Field(m, MinuteUnit) + Field(s, SecondUnit))
    else if m > 0 then Field(m, MinuteUnit) + Field(s, SecondUnit)
    else Field(s, SecondUnit)
  }

  // ---------------------------------------------------------------------------
  // Reading a formatted duration back
  // ---------------------------------------------------------------------------

  /** The leading decimal number of `s` and what follows it. */
  function ReadNumber(s: string): (r: Option<(nat, string)>)
    ensures r.Some? ==> |r.value.1| < |s|
  {
    var k := DigitPrefixLength(s);
    if k == 0 then None else Some((DigitsValue(s[..k]), s[k..]))
  }

  /** `n` followed by `unit` and then the rest of `s`. */
  function ReadField(s: string, unit: string): (r: Option<(nat, string)>)
  {
    match ReadNumber(s)
    case None => None
    case Some((n, rest)) =>
      if StartsWith(rest, unit) then Some((n, rest[|unit|..])) else None
  }

  /** The duration a string in one of the three shapes `formatDuration` writes
      denotes; None for any other string. */
  function ParseDuration(s: string): Option<nat>
  {
    match ReadField(s, HourUnit)
    case Some((h, afterHours)) =>
      (match ReadField(afterHours, MinuteUnit)
       case Some((m, afterMinutes)) =>
         (match ReadField(afterMinutes, SecondUnit)
          case Some((sec, tail)) => if tail == [] then Some(h * 3600 + m * 60 + sec) else None
          case None => None)
       case None => None)
    case None =>
      match ReadField(s, MinuteUnit)
      case Some((m, afterMinutes)) =>
        (match ReadField(afterMinutes, SecondUnit)
         case Some((sec, tail)) => if tail == [] then Some(m * 60 + sec) else None
         case None => None)
      case None =>
        match ReadField(s, SecondUnit)
        case Some((sec, tail)) => if tail == [] then Some(sec) else None
        case None => None
  }

  /** A number rendered in front of a unit is read back with the unit consumed. */
  lemma ReadFieldOf(n: nat, unit: string, rest: string)
    requires |unit| > 0 && !IsDigit(unit[0])
    ensures ReadField(Field(n, unit) + rest, unit) == Some((n, rest))
  {
    var d := NatToString(n);
    var s := d + unit + rest;
    assert s == d + (unit + rest);
    DigitPrefixOfDigits(d, unit + rest);
    assert s[..|d|] == d;
    assert s[|d|..] == unit + rest;
    DigitsValueOfNatToString(n);
    assert (unit + rest)[..|unit|] == unit;
    assert (unit + rest)[|unit|..] == rest;
  }

  /** A number rendered in front of one unit is not read as a field of another. */
  lemma ReadFieldOther(n: nat, unit: string, rest: string, other: string)
    requires |unit| > 0 && !IsDigit(unit[0])
    requires |other| > 0 && |unit| > 0 && other[0] != unit[0]
    ensures ReadField(Field(n, unit) + rest, other) == None
  {
    var d := NatToString(n);
    var s := d + unit + rest;
    assert s == d + (unit + rest);
    DigitPrefixOfDigits(d, unit + rest);
    assert s[|d|..] == unit + rest;
  }

  /** Reading a formatted duration gives back the number of seconds. */
  lemma ParseFormatDuration(seconds: nat)
    ensures ParseDuration(FormatDuration(seconds)) == Some(seconds)
  {
    if Hours(seconds) > 0 {
      ParseFormatHours(seconds);
    } else if Minutes(seconds) > 0 {
      ParseFormatMinutes(seconds);
    } else {
      ParseFormatSeconds(seconds);
    }
  }

  lemma ParseFormatHours(seconds: nat)
    requires Hours(seconds) > 0
    ensures ParseDuration(FormatDuration(seconds)) == Some(seconds)
  {
    var h, m, s := Hours(seconds), Minutes(seconds), Seconds(seconds);
    var text := Field(h, HourUnit) + (Field(m, MinuteUnit) + Field(s, SecondUnit));
    assert FormatDuration(seconds) == text;
    ParseHours(h, m, s);
    DurationDecomposition(seconds);
    assert h * 3600 + m * 60 + s == seconds;
  }

  lemma ParseFormatMinutes(seconds: nat)
    requires Hours(seconds) == 0 && Minutes(seconds) > 0
    ensures ParseDuration(FormatDuration(seconds)) == Some(seconds)
  {
    var m, s := Minutes(seconds), Seconds(seconds);
    var text := Field(m, MinuteUnit) + Field(s, SecondUnit);
    assert FormatDuration(seconds) == text;
    ParseMinutes(m, s);
    DurationDecomposition(seconds);
    assert m * 60 + s == seconds;
  }

  lemma ParseFormatSeconds(seconds: nat)
    requires Hours(seconds) == 0 && Minutes(seconds) == 0
    ensures ParseDuration(FormatDuration(seconds)) == Some(seconds)
  {
    var s := Seconds(seconds);
    assert FormatDuration(seconds) == Field(s, SecondUnit);
    ParseSeconds(s);
    DurationDecomposition(seconds);
    assert s == seconds;
  }

  lemma ParseHours(h: nat, m: nat, s: nat)
    ensures ParseDuration(Field(h, HourUnit) + (Field(m, MinuteUnit) + Field(s, SecondUnit))) == Some(h * 3600 + m * 60 + s)
  {
    var secPart := Field(s, SecondUnit);
    var minPart := Field(m, MinuteUnit) + secPart;
    ReadFieldOf(s, SecondUnit, []);
    assert secPart + [] == secPart;
    ReadFieldOf(m, MinuteUnit, secPart);
    ReadFieldOf(h, HourUnit, minPart);
  }

  lemma ParseMinutes(m: nat, s: nat)
    ensures ParseDuration(Field(m, MinuteUnit) + Field(s, SecondUnit)) == Some(m * 60 + s)
  {
    var secPart := Field(s, SecondUnit);
    ReadFieldOf(s, SecondUnit, []);
    assert secPart + [] == secPart;
    ReadFieldOther(m, MinuteUnit, secPart, HourUnit);
    ReadFieldOf(m, MinuteUnit, secPart);
  }

  lemma ParseSeconds(s: nat)
    ensures ParseDuration(Field(s, SecondUnit)) == Some(s)
  {
    var secPart := Field(s, SecondUnit);
    assert secPart + [] == secPart;
    ReadFieldOf(s, SecondUnit, []);
    ReadFieldOther(s, SecondUnit, [], HourUnit);
    ReadFieldOther(s, SecondUnit, [], MinuteUnit);
  }

  /** Different durations are displayed differently. */
  lemma FormatDurationInjective(a: nat, b: nat)
    requires FormatDuration(a) == FormatDuration(b)
    ensures a == b
  {
    ParseFormatDuration(a);
    ParseFormatDuration(b);
  }
}
