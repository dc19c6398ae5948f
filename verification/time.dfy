/**
 * `src/utils/time.ts`: the pausable simulation clock and the duration and
 * timestamp formatters. Every `Date.now()` reading is a parameter `now`
 * (milliseconds since the epoch, an integer as in JavaScript).
 */
module Time {
  import opened Wrappers
  import Js

  /** The simulated day of the clock: 60000 ms of real time by default. */
  const DefaultDayLengthMs: real := 60000.0

  /** `SimulationTime`: a wall clock with paused intervals subtracted. */
  class SimulationTime {
    var startTime: int
    var pausedTime: int
    var isPaused: bool
    var pauseStartTime: int
    var dayLengthMs: real

    /** `new SimulationTime(dayLengthMs)` at clock reading `now`. */
    constructor(dayLengthMs: real, now: int)
      ensures this.dayLengthMs == dayLengthMs
      ensures startTime == now && pausedTime == 0 && !isPaused && pauseStartTime == 0
    {
      startTime := now;
      pausedTime := 0;
      isPaused := false;
      pauseStartTime := 0;
      this.dayLengthMs := dayLengthMs;
    }

    /** `pause()`: starts a paused interval; a no-op while already paused. */
    method Pause(now: int)
      modifies this
      ensures isPaused
      ensures old(isPaused) ==> pauseStartTime == old(pauseStartTime)
      ensures !old(isPaused) ==> pauseStartTime == now
      ensures startTime == old(startTime) && pausedTime == old(pausedTime) && dayLengthMs == old(dayLengthMs)
    {
      if !isPaused {
        isPaused := true;
        pauseStartTime := now;
      }
    }

    /** `resume()`: closes the paused interval, adding its length; a no-op while running. */
    method Resume(now: int)
      modifies this
      ensures !isPaused
      ensures old(isPaused) ==> pausedTime == old(pausedTime) + (now - old(pauseStartTime)) && pauseStartTime == 0
      ensures !old(isPaused) ==> pausedTime == old(pausedTime) && pauseStartTime == old(pauseStartTime)
      ensures startTime == old(startTime) && dayLengthMs == old(dayLengthMs)
    {
      if isPaused {
        pausedTime := pausedTime + (now - pauseStartTime);
        isPaused := false;
        pauseStartTime := 0;
      }
    }

    /** `reset()`: restarts the clock at `now`, running, with no paused time. */
    method Reset(now: int)
      modifies this
      ensures startTime == now && pausedTime == 0 && !isPaused && pauseStartTime == 0
      ensures dayLengthMs == old(dayLengthMs)
      ensures ElapsedMs(now) == 0
    {
      startTime := now;
      pausedTime := 0;
      isPaused := false;
      pauseStartTime := 0;
    }

    /** `setDayLength(ms)`. */
    method SetDayLength(ms: real)
      modifies this
      ensures dayLengthMs == ms
      ensures startTime == old(startTime) && pausedTime == old(pausedTime)
      ensures isPaused == old(isPaused) && pauseStartTime == old(pauseStartTime)
    {
      dayLengthMs := ms;
    }

    /** `getElapsedMs()`: real time since the start minus the paused time, the open pause included. */
    function ElapsedMs(now: int): (e: int)
      reads this
      ensures isPaused ==> e == pauseStartTime - startTime - pausedTime
      ensures !isPaused ==> e == now - startTime - pausedTime
    {
      var currentPausedTime := if isPaused then pausedTime + (now - pauseStartTime) else pausedTime;
      now - startTime - currentPausedTime
    }

    /** `getCurrentDay()`: elapsed time in days, a JavaScript division. */
    function CurrentDay(now: int): (d: Js.Quotient)
      reads this
      ensures dayLengthMs != 0.0 ==> d == Js.Finite(ElapsedMs(now) as real / dayLengthMs)
    {
      Js.Divide(ElapsedMs(now) as real, dayLengthMs)
    }

    /** `getTimeOfDay()`: the fractional part of the current day (NaN for an infinite day). */
    function TimeOfDay(now: int): (t: Js.Quotient)
      reads this
      ensures dayLengthMs != 0.0 ==> t.Finite? && 0.0 <= t.value < 1.0
    {
      match CurrentDay(now)
      case Finite(d) => Js.Finite(Js.Frac(d))
      case _ => Js.NaN
    }

    /** `getDisplayTime()`. */
    function DisplayTime(now: int): (s: string)
      reads this
      ensures dayLengthMs != 0.0 ==> s == DisplayOf(DayClock(ElapsedMs(now) as real / dayLengthMs))
    {
      match CurrentDay(now)
      case Finite(d) => DisplayOf(DayClock(d))
      case PosInfinity => "Day Infinity NaN:NaN"
      case NegInfinity => "Day -Infinity NaN:NaN"
      case NaN => "Day NaN NaN:NaN"
    }

    /** `isSimulationPaused()`: true exactly when the elapsed time no longer follows the clock. */
    function IsSimulationPaused(): (paused: bool)
      reads this
      ensures paused <==> forall now1: int, now2: int :: ElapsedMs(now1) == ElapsedMs(now2)
    {
      if isPaused then isPaused
      else
        assert ElapsedMs(0) != ElapsedMs(1);
        isPaused
    }

    /** `getDayLength()`: the elapsed milliseconds that make one simulated day. */
    function DayLength(): (ms: real)
      reads this
      ensures forall now: int :: ms != 0.0 ==> CurrentDay(now) == Js.Finite(ElapsedMs(now) as real / ms)
      ensures forall now: int :: ms == 0.0 ==> !CurrentDay(now).Finite?
    {
      dayLengthMs
    }
  }

  /** While paused, elapsed time does not move, whatever the clock says. */
  lemma PausedElapsedFrozen(t: SimulationTime, now1: int, now2: int)
    requires t.isPaused
    ensures t.ElapsedMs(now1) == t.ElapsedMs(now2)
  {
  }

  /** While running, elapsed time advances exactly as the clock does. */
  lemma RunningElapsedAdvances(t: SimulationTime, now1: int, now2: int)
    requires !t.isPaused
    ensures t.ElapsedMs(now2) - t.ElapsedMs(now1) == now2 - now1
  {
  }

  /** The day, hour and minute `getDisplayTime` shows for a finite current day. */
  datatype Clock = Clock(day: int, hours: nat, minutes: nat)

  /**
   * `day = floor(d)`, `hours = floor(frac * 24)` and
   * `minutes = floor((frac * 24 * 60) % 60)`: a whole day, an hour of the day
   * and a minute of the hour.
   */
  function DayClock(d: real): (c: Clock)
    ensures c.day as real <= d < c.day as real + 1.0
    ensures c.hours <= 23 && c.minutes <= 59
    ensures (c.hours * 60 + c.minutes) as real <= (d - c.day as real) * 1440.0
    ensures (d - c.day as real) * 1440.0 < (c.hours * 60 + c.minutes + 1) as real
  {
    var day := Js.Floor(d);
    var timeOfDay := d - day as real;
    var hours := Js.Floor(timeOfDay * 24.0);
    var minutes := Js.Floor(RealRem(timeOfDay * 24.0 * 60.0, 60.0));
    assert 0 <= hours <= 23;
    MinuteOfHour(timeOfDay * 24.0, hours);
    Clock(day, hours, minutes)
  }

  /** JavaScript `x % m` for a non-negative `x` and a positive `m`: what is left above the last multiple of `m`. */
  function RealRem(x: real, m: real): (r: real)
    requires 0.0 <= x && 0.0 < m
    ensures 0.0 <= r < m
    ensures r == x - Js.Floor(x / m) as real * m
  {
    var k := Js.Floor(x / m);
    assert x / m * m == x;
    ScaleBelow(k as real, x / m, m);
    ScaleBelow(x / m, k as real + 1.0, m);
    assert (k as real + 1.0) * m == k as real * m + m;
    assert x / m < k as real + 1.0;
    assert x / m * m < (k as real + 1.0) * m;
    assert x < k as real * m + m;
    x - k as real * m
  }

  lemma ScaleBelow(a: real, b: real, m: real)
    requires a <= b && 0.0 < m
    ensures a * m <= b * m
    ensures a < b ==> a * m < b * m
  {
    assert b * m - a * m == (b - a) * m;
  }

  /** The minute of the hour `h` within the hour count `x`, `h = floor(x)`. */
  lemma MinuteOfHour(x: real, h: int)
    requires 0.0 <= x && h as real <= x < h as real + 1.0
    ensures RealRem(x * 60.0, 60.0) == (x - h as real) * 60.0
  {
    var y := x * 60.0;
    assert y / 60.0 == x;
    var n := Js.Floor(x);
    assert n as real <= x < n as real + 1.0;
    assert n == h;
    calc {
      RealRem(y, 60.0);
      y - Js.Floor(y / 60.0) as real * 60.0;
      y - h as real * 60.0;
      (x - h as real) * 60.0;
    }
  }

  /** `Day ${day + 1} ${hh}:${mm}` with the hours and minutes padded to two digits. */
  function DisplayOf(c: Clock): (s: string)
    requires c.hours <= 23 && c.minutes <= 59
  {
    "Day " + Js.IntToString(c.day + 1) + " " + TwoDigits(c.hours) + ":" + TwoDigits(c.minutes)
  }

  /** `n.toString().padStart(2, '0')` for `n < 100`. */
  function TwoDigits(n: nat): (s: string)
    requires n < 100
    ensures |s| == 2 && Js.IsDigit(s[0]) && Js.IsDigit(s[1])
    ensures (s[0] as int - '0' as int) * 10 + (s[1] as int - '0' as int) == n
  {
    var digits := Js.NatToString(n);
    if n < 10 then
      assert digits == [Js.DigitChar(n)];
      Js.PadStart2(digits)
    else
      assert digits == Js.NatToString(n / 10) + [Js.DigitChar(n % 10)];
      assert Js.NatToString(n / 10) == [Js.DigitChar(n / 10)];
      Js.PadStart2(digits)
  }

  /**
   * The display ends in `hh:mm`: two digits of an hour in [0, 23], a colon
   * and two digits of a minute in [0, 59].
   */
  lemma DisplayLayout(c: Clock)
    requires c.hours <= 23 && c.minutes <= 59
    ensures var s := DisplayOf(c); var n := |s|;
      && n >= 9 && s[..4] == "Day " && s[n - 3] == ':' && s[n - 6] == ' '
      && s[n - 5..n - 3] == TwoDigits(c.hours) && s[n - 2..] == TwoDigits(c.minutes)
  {
    var s := DisplayOf(c);
    var day := Js.IntToString(c.day + 1);
    assert s == "Day " + day + " " + TwoDigits(c.hours) + ":" + TwoDigits(c.minutes);
  }

  // -------------------------------------------------------------- formatting

  /** A duration in its largest non-zero unit, with the next unit down. */
  datatype Duration = Days(days: int, hours: int) | Hours(hours: int, minutes: int)
                    | Minutes(minutes: int, seconds: int) | Seconds(seconds: int)

  /**
   * The unit choice of `formatDuration`: seconds, minutes, hours and days
   * are successive floors, and the first positive one of days, hours and
   * minutes is shown with the remainder of the next unit.
   */
  function LargestUnit(ms: real): (d: Duration)
    ensures ms >= 86400000.0 <==> d.Days?
    ensures 3600000.0 <= ms < 86400000.0 <==> d.Hours?
    ensures 60000.0 <= ms < 3600000.0 <==> d.Minutes?
    ensures ms < 60000.0 <==> d.Seconds?
    ensures d.Days? ==> 1 <= d.days && 0 <= d.hours < 24
    ensures d.Hours? ==> 1 <= d.hours < 24 && 0 <= d.minutes < 60
    ensures d.Minutes? ==> 1 <= d.minutes < 60 && 0 <= d.seconds < 60
    ensures d.Seconds? && ms >= 0.0 ==> 0 <= d.seconds < 60
    ensures var seconds := Js.Floor(ms / 1000.0);
      && (d.Days? ==> d.days == seconds / 86400 && d.hours == (seconds / 3600) % 24)
      && (d.Hours? ==> d.hours == seconds / 3600 && d.minutes == (seconds / 60) % 60)
      && (d.Minutes? ==> d.minutes == seconds / 60 && d.seconds == seconds % 60)
      && (d.Seconds? ==> d.seconds == seconds)
  {
    var seconds := Js.Floor(ms / 1000.0);
    var minutes := seconds / 60;
    var hours := minutes / 60;
    var days := hours / 24;
    if days > 0 then Days(days, hours % 24)
    else if hours > 0 then Hours(hours, minutes % 60)
    else if minutes > 0 then Minutes(minutes, seconds % 60)
    else Seconds(seconds)
  }

  /** The units of a duration recombine to the whole seconds, minutes or hours it was cut from. */
  lemma LargestUnitRecombines(ms: real)
    requires ms >= 0.0
    ensures var d := LargestUnit(ms); var seconds := Js.Floor(ms / 1000.0);
      && (d.Days? ==> d.days * 24 + d.hours == seconds / 3600)
      && (d.Hours? ==> d.hours * 60 + d.minutes == seconds / 60)
      && (d.Minutes? ==> d.minutes * 60 + d.seconds == seconds)
      && (d.Seconds? ==> d.seconds == seconds)
  {
    var seconds := Js.Floor(ms / 1000.0);
    assert seconds / 60 / 60 == seconds / 3600;
  }

  /** `formatDuration(ms)`. */
  function FormatDuration(ms: real): (s: string)
    ensures |s| >= 2
    ensures ms >= 86400000.0 ==> s[|s| - 1] == 'h'
    ensures 3600000.0 <= ms < 86400000.0 ==> s[|s| - 1] == 'm'
    ensures ms < 3600000.0 ==> s[|s| - 1] == 's'
    ensures var d := LargestUnit(ms);
      && (d.Days? ==> s == Js.IntToString(d.days) + "d " + Js.IntToString(d.hours) + "h")
      && (d.Hours? ==> s == Js.IntToString(d.hours) + "h " + Js.IntToString(d.minutes) + "m")
      && (d.Minutes? ==> s == Js.IntToString(d.minutes) + "m " + Js.IntToString(d.seconds) + "s")
      && (d.Seconds? ==> s == Js.IntToString(d.seconds) + "s")
  {
    match LargestUnit(ms)
    case Days(d, h) => Js.IntToString(d) + "d " + Js.IntToString(h) + "h"
    case Hours(h, m) => Js.IntToString(h) + "h " + Js.IntToString(m) + "m"
    case Minutes(m, sec) => Js.IntToString(m) + "m " + Js.IntToString(sec) + "s"
    case Seconds(sec) => Js.IntToString(sec) + "s"
  }

  /** How long ago a timestamp was, in the coarsest unit under a week. */
  datatype Ago = JustNow | MinutesAgo(n: int) | HoursAgo(n: int) | DaysAgo(n: int) | LocaleDate

  /**
   * `formatTimestamp(timestamp)` with the current time `now` and the parsed
   * time `stamp` of the timestamp (`None` when it does not parse: every
   * comparison with NaN fails and the date is printed).
   */
  function AgoOf(now: int, stamp: Option<int>): (a: Ago)
    ensures stamp.None? ==> a == LocaleDate
    ensures stamp.Some? ==> var diff := now - stamp.value;
      && (diff < 60000 <==> a == JustNow)
      && (60000 <= diff < 3600000 <==> a.MinutesAgo?)
      && (3600000 <= diff < 86400000 <==> a.HoursAgo?)
      && (86400000 <= diff < 604800000 <==> a.DaysAgo?)
      && (diff >= 604800000 <==> a == LocaleDate)
    ensures a.MinutesAgo? ==> 1 <= a.n <= 59
    ensures a.HoursAgo? ==> 1 <= a.n <= 23
    ensures a.DaysAgo? ==> 1 <= a.n <= 6
    ensures a.MinutesAgo? ==> stamp.Some? && a.n == (now - stamp.value) / 60000
    ensures a.HoursAgo? ==> stamp.Some? && a.n == (now - stamp.value) / 3600000
    ensures a.DaysAgo? ==> stamp.Some? && a.n == (now - stamp.value) / 86400000
  {
    if stamp.None? then LocaleDate
    else
      var diff := now - stamp.value;
      if diff < 60000 then JustNow
      else if diff < 3600000 then MinutesAgo(diff / 60000)
      else if diff < 86400000 then HoursAgo(diff / 3600000)
      else if diff < 604800000 then DaysAgo(diff / 86400000)
      else LocaleDate
  }

  /** The text of `formatTimestamp`; the locale date string is given, it depends on the host. */
  function FormatTimestamp(now: int, stamp: Option<int>, localeDate: string): (s: string)
    ensures AgoOf(now, stamp) == LocaleDate ==> s == localeDate
    ensures AgoOf(now, stamp) == JustNow ==> s == "just now"
    ensures AgoOf(now, stamp) != LocaleDate ==> |s| >= 6
    ensures AgoOf(now, stamp).MinutesAgo? ==> s[|s| - 5..] == "m ago" && Js.IsDigit(s[0])
    ensures AgoOf(now, stamp).HoursAgo? ==> s[|s| - 5..] == "h ago" && Js.IsDigit(s[0])
    ensures AgoOf(now, stamp).DaysAgo? ==> s == [Js.DigitChar(AgoOf(now, stamp).n)] + "d ago"
    ensures AgoOf(now, stamp).MinutesAgo? ==> s == Js.IntToString(AgoOf(now, stamp).n) + "m ago"
    ensures AgoOf(now, stamp).HoursAgo? ==> s == Js.IntToString(AgoOf(now, stamp).n) + "h ago"
  {
    match AgoOf(now, stamp)
    case JustNow => "just now"
    case MinutesAgo(n) => Js.IntToString(n) + "m ago"
    case HoursAgo(n) => Js.IntToString(n) + "h ago"
    case DaysAgo(n) => Js.IntToString(n) + "d ago"
    case LocaleDate => localeDate
  }
}
