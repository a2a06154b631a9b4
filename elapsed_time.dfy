/**
 * The elapsed-time display: `calculateTimeDifference` splits the absolute
 * distance between a reference instant and now into whole days and the
 * hours, minutes and seconds of the remainder; `updateTimeInfo` renders it
 * into the time-info element when that element exists.
 *
 * Instants are whole milliseconds since the epoch, the values `new Date(..)`
 * and `new Date()` stand for; parsing the date string and reading the clock
 * happen outside the model.
 */
module ElapsedTime {
  import opened Decimal
  import opened Dom

  const MsPerSecond: nat := 1000
  const MsPerMinute: nat := 60000
  const MsPerHour: nat := 3600000
  const MsPerDay: nat := 86400000

  datatype Elapsed = Elapsed(days: nat, hours: nat, minutes: nat, seconds: nat)

  function Abs(x: int): nat {
    if x < 0 then -x else x
  }

  /** The fields are within their natural cycles. */
  predicate InRange(e: Elapsed) {
    e.hours < 24 && e.minutes < 60 && e.seconds < 60
  }

  /** The milliseconds a decomposition stands for, down to whole seconds. */
  function TotalMs(e: Elapsed): nat {
    e.days * MsPerDay + e.hours * MsPerHour + e.minutes * MsPerMinute + e.seconds * MsPerSecond
  }

  /** `calculateTimeDifference`, with the two instants as inputs. */
  function CalculateTimeDifference(birth: int, now: int): (r: Elapsed)
    ensures InRange(r)
  {
    var diff := Abs(now - birth);
    Elapsed(diff / MsPerDay, (diff / MsPerHour) % 24, (diff / MsPerMinute) % 60, (diff / MsPerSecond) % 60)
  }

  /** Whole minutes are whole seconds divided by 60, and so on up to days. */
  lemma CoarserUnits(d: nat)
    ensures d / MsPerMinute == (d / MsPerSecond) / 60
    ensures d / MsPerHour == (d / MsPerMinute) / 60
    ensures d / MsPerDay == (d / MsPerHour) / 24
  {
    var s, m, h := d / 1000, d / 60000, d / 3600000;
    assert 1000 * s <= d < 1000 * s + 1000;
    assert 60000 * m <= d < 60000 * m + 60000;
    assert 60 * m <= s < 60 * m + 60;
    assert 3600000 * h <= d < 3600000 * h + 3600000;
    assert 60 * h <= m < 60 * h + 60;
    var days := d / 86400000;
    assert 86400000 * days <= d < 86400000 * days + 86400000;
    assert 24 * days <= h < 24 * days + 24;
  }

  /**
   * The four fields recombine to the distance, short of it by less than one
   * second (the milliseconds the display drops).
   */
  lemma Recombination(birth: int, now: int)
    ensures var d := Abs(now - birth); var r := CalculateTimeDifference(birth, now);
      TotalMs(r) <= d < TotalMs(r) + MsPerSecond
  {
    var d := Abs(now - birth);
    var r := CalculateTimeDifference(birth, now);
    var s, m, h := d / MsPerSecond, d / MsPerMinute, d / MsPerHour;
    CoarserUnits(d);
    assert s == m * 60 + r.seconds;
    assert m == h * 60 + r.minutes;
    assert h == r.days * 24 + r.hours;
    assert TotalMs(r) == ((r.days * 24 + r.hours) * 60 + r.minutes) * 60000 + r.seconds * 1000;
    assert TotalMs(r) == s * 1000;
  }

  /**
   * The decomposition is the only one in range that recombines to the
   * distance: any other in-range split of the same distance is the same.
   */
  lemma DecompositionUnique(birth: int, now: int, e: Elapsed)
    requires InRange(e)
    requires TotalMs(e) <= Abs(now - birth) < TotalMs(e) + MsPerSecond
    ensures e == CalculateTimeDifference(birth, now)
  {
    var r := CalculateTimeDifference(birth, now);
    Recombination(birth, now);
    var se := e.days * 86400 + e.hours * 3600 + e.minutes * 60 + e.seconds;
    var sr := r.days * 86400 + r.hours * 3600 + r.minutes * 60 + r.seconds;
    assert TotalMs(e) == 1000 * se;
    assert TotalMs(r) == 1000 * sr;
    assert 1000 * se <= Abs(now - birth) < 1000 * se + 1000;
    assert 1000 * sr <= Abs(now - birth) < 1000 * sr + 1000;
    assert se == sr;
    SecondsUnique(e, r);
  }

  /** Days, hours, minutes and seconds in range are fixed by the second count they make. */
  lemma SecondsUnique(e: Elapsed, r: Elapsed)
    requires InRange(e) && InRange(r)
    requires e.days * 86400 + e.hours * 3600 + e.minutes * 60 + e.seconds
          == r.days * 86400 + r.hours * 3600 + r.minutes * 60 + r.seconds
    ensures e == r
  {
    assert e.days == r.days;
    assert e.hours == r.hours;
    assert e.minutes == r.minutes;
  }

  /** Only the distance matters: a reference instant in the future gives the same result. */
  lemma SwapInstants(birth: int, now: int)
    ensures CalculateTimeDifference(birth, now) == CalculateTimeDifference(now, birth)
  {
  }

  /** The scenario of one day after the reference date's midnight. */
  lemma OneDayLater(birth: int)
    ensures CalculateTimeDifference(birth, birth + MsPerDay) == Elapsed(1, 0, 0, 0)
  {
  }

  /** The text `updateTimeInfo` writes for a decomposition. */
  function TimeInfoText(e: Elapsed): string {
    "来到这个世界已经 " + (DecimalString(e.days) + (" 天 " + (DecimalString(e.hours) + (" 小时 " +
      (DecimalString(e.minutes) + (" 分钟 " + (DecimalString(e.seconds) + " 秒")))))))
  }

  /** Removing a common prefix. */
  lemma DropPrefix(p: string, x: string, y: string)
    requires p + x == p + y
    ensures x == y
  {
    assert x == (p + x)[|p|..];
    assert y == (p + y)[|p|..];
  }

  /** The rendered text determines the decomposition: distinct durations read differently. */
  lemma TimeInfoTextInjective(e1: Elapsed, e2: Elapsed)
    requires TimeInfoText(e1) == TimeInfoText(e2)
    ensures e1 == e2
  {
    var tail1 := " 秒";
    var m1 := " 分钟 " + (DecimalString(e1.seconds) + tail1);
    var m2 := " 分钟 " + (DecimalString(e2.seconds) + tail1);
    var h1 := " 小时 " + (DecimalString(e1.minutes) + m1);
    var h2 := " 小时 " + (DecimalString(e2.minutes) + m2);
    var d1 := " 天 " + (DecimalString(e1.hours) + h1);
    var d2 := " 天 " + (DecimalString(e2.hours) + h2);
    DropPrefix("来到这个世界已经 ", DecimalString(e1.days) + d1, DecimalString(e2.days) + d2);
    NumberThenSeparator(e1.days, d1, e2.days, d2);
    DropPrefix(" 天 ", DecimalString(e1.hours) + h1, DecimalString(e2.hours) + h2);
    NumberThenSeparator(e1.hours, h1, e2.hours, h2);
    DropPrefix(" 小时 ", DecimalString(e1.minutes) + m1, DecimalString(e2.minutes) + m2);
    NumberThenSeparator(e1.minutes, m1, e2.minutes, m2);
    DropPrefix(" 分钟 ", DecimalString(e1.seconds) + tail1, DecimalString(e2.seconds) + tail1);
    NumberThenSeparator(e1.seconds, tail1, e2.seconds, tail1);
  }

  /**
   * `updateTimeInfo`: when the element is absent (`timeInfo == null`) nothing
   * is written; otherwise its text becomes the rendering of the current
   * decomposition and nothing else about it changes.
   */
  method UpdateTimeInfo(birth: int, now: int, timeInfo: Element?)
    modifies timeInfo
    ensures timeInfo != null ==> timeInfo.text == TimeInfoText(CalculateTimeDifference(birth, now))
    ensures timeInfo != null ==>
      && timeInfo.classes == old(timeInfo.classes) && timeInfo.complete == old(timeInfo.complete)
      && timeInfo.opacity == old(timeInfo.opacity) && timeInfo.transform == old(timeInfo.transform)
  {
    if timeInfo == null {
      return;
    }
    var timeDiff := CalculateTimeDifference(birth, now);
    timeInfo.text := TimeInfoText(timeDiff);
  }
}
