// ConsoleScriptingInterface::secondsToString: a number of seconds written as
// days plus the hours, minutes and seconds of a clock (QTime) that starts at
// midnight and is advanced by the remainder.

module Durations {
  import opened Decimal

  /** Seconds per day (DAY in ConsoleScriptingInterface.h). */
  const DAY: int := 86400

  /** C++ integer division: the quotient is truncated toward zero. */
  function TruncDiv(a: int, b: int): (q: int)
    requires b > 0
    ensures a >= 0 ==> 0 <= a - q * b < b
    ensures a < 0 ==> -b < a - q * b <= 0
  {
    if a >= 0 then a / b else -((-a) / b)
  }

  /** C++ `%`: the remainder left by TruncDiv, carrying the sign of the dividend. */
  function TruncRem(a: int, b: int): (r: int)
    requires b > 0
    ensures a == TruncDiv(a, b) * b + r
    ensures a >= 0 ==> 0 <= r < b
    ensures a < 0 ==> -b < r <= 0
  {
    a - TruncDiv(a, b) * b
  }

  /** QTime(0, 0).addSecs(s): seconds after midnight, wrapping around midnight in both directions. */
  function ClockAfter(s: int): (t: int)
    ensures 0 <= t < DAY
    ensures (t - s) % DAY == 0
  {
    s % DAY
  }

  /** s ends with suffix, with something in front of it. */
  predicate EndsWith(s: string, suffix: string) {
    |suffix| < |s| && s[|s| - |suffix|..] == suffix
  }

  lemma AppendEndsWith(a: string, suffix: string)
    requires a != []
    ensures EndsWith(a + suffix, suffix)
  {
    assert (a + suffix)[|a|..] == suffix;
  }

  /** The text QString("%1 days, %2 hours, %3 minutes, %4 seconds") fills in. */
  function DurationText(days: int, hours: int, minutes: int, seconds: int): (r: string)
    ensures IntToString(days) + " days, " <= r
    ensures EndsWith(r, " seconds")
  {
    var lead := IntToString(days) + " days, ";
    var fields := IntToString(hours) + " hours, " + IntToString(minutes) + " minutes, " + IntToString(seconds);
    AppendEndsWith(lead + fields, " seconds");
    lead + fields + " seconds"
  }

  /** secondsToString: the days come first, as the count divided by DAY and truncated toward zero. */
  function SecondsToString(seconds: int): (r: string)
    ensures IntToString(TruncDiv(seconds, DAY)) + " days, " <= r
    ensures EndsWith(r, " seconds")
  {
    var days := TruncDiv(seconds, DAY);
    var clock := ClockAfter(TruncRem(seconds, DAY));
    DurationText(days, clock / 3600, clock % 3600 / 60, clock % 60)
  }

  /** A time of day below DAY is split into hours, minutes and seconds in exactly one way. */
  lemma ClockFieldsUnique(t: int, h: int, m: int, sec: int)
    requires 0 <= h < 24 && 0 <= m < 60 && 0 <= sec < 60
    requires t == h * 3600 + m * 60 + sec
    ensures t / 3600 == h && t % 3600 / 60 == m && t % 60 == sec
  {
  }

  /**
   * For a non-negative count, any split into whole days and a clock reading
   * of hours below 24, minutes and seconds below 60 that adds up to it is the
   * one secondsToString prints.
   */
  lemma SecondsToStringOfDecomposition(s: int, d: int, h: int, m: int, sec: int)
    requires d >= 0 && 0 <= h < 24 && 0 <= m < 60 && 0 <= sec < 60
    requires s == d * DAY + h * 3600 + m * 60 + sec
    ensures SecondsToString(s) == DurationText(d, h, m, sec)
  {
    var t := h * 3600 + m * 60 + sec;
    assert 0 <= t < DAY;
    assert TruncDiv(s, DAY) == d;
    assert TruncRem(s, DAY) == t;
    assert ClockAfter(t) == t;
    ClockFieldsUnique(t, h, m, sec);
  }

  /** For a non-negative count such a split exists, so the printed fields always add up to it. */
  lemma SecondsToStringFields(s: int) returns (d: int, h: int, m: int, sec: int)
    requires s >= 0
    ensures d >= 0 && 0 <= h < 24 && 0 <= m < 60 && 0 <= sec < 60
    ensures s == d * DAY + h * 3600 + m * 60 + sec
    ensures SecondsToString(s) == DurationText(d, h, m, sec)
  {
    d := s / DAY;
    var t := s % DAY;
    h, m, sec := t / 3600, t % 3600 / 60, t % 60;
    SecondsToStringOfDecomposition(s, d, h, m, sec);
  }

  /**
   * For a negative count the days are truncated toward zero and the clock
   * wraps back from midnight: unless the count is a whole number of days,
   * the printed fields add up to one day more than the count
   * (-5 prints as 0 days, 23 hours, 59 minutes, 55 seconds).
   */
  lemma SecondsToStringNegative(s: int) returns (d: int, h: int, m: int, sec: int)
    requires s < 0
    ensures d <= 0 && 0 <= h < 24 && 0 <= m < 60 && 0 <= sec < 60
    ensures d * DAY + h * 3600 + m * 60 + sec == if TruncRem(s, DAY) == 0 then s else s + DAY
    ensures SecondsToString(s) == DurationText(d, h, m, sec)
  {
    d := TruncDiv(s, DAY);
    var r := TruncRem(s, DAY);
    var t := ClockAfter(r);
    assert t == if r == 0 then 0 else r + DAY;
    h, m, sec := t / 3600, t % 3600 / 60, t % 60;
  }
}
