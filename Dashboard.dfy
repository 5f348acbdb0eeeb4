/**
 * The dashboard's weekly summary and tip carousel (`Dashboard`) and the seven-day
 * chart of the analytics page (`Analytics`).
 *
 * The week runs from Monday 00:00; an activity counts towards it when its instant is
 * at or after that point. Durations are read with `parseInt(duration) || 0`. The
 * weekly goal is 150 minutes, and progress is `Math.min(100, Math.round(m / 150 * 100))`.
 * The same week and goal reckoning is used by the message centre.
 */
module Dashboard {
  import opened Wrappers
  import opened JsDate
  import opened JsMath
  import JsString
  import opened ActivityLog

  const GoalMinutes: int := 150
  const GoalSessions: int := 5

  /** `parseInt(a.duration) || 0`. */
  function Minutes(a: Activity): int
  {
    JsString.ParseIntOrZero(a.duration)
  }

  /** The sum of `parseInt(duration) || 0` over the activities. */
  function TotalMinutes(acts: seq<Activity>): int
  {
    if acts == [] then 0 else Minutes(acts[0]) + TotalMinutes(acts[1..])
  }

  lemma {:induction false} TotalMinutesAppend(xs: seq<Activity>, ys: seq<Activity>)
    ensures TotalMinutes(xs + ys) == TotalMinutes(xs) + TotalMinutes(ys)
  {
    if xs != [] {
      assert (xs + ys)[0] == xs[0];
      assert (xs + ys)[1..] == xs[1..] + ys;
      TotalMinutesAppend(xs[1..], ys);
    } else {
      assert xs + ys == ys;
    }
  }

  /** With every duration between `lo` and `hi`, the total lies between `n * lo` and `n * hi`. */
  lemma {:induction false} TotalMinutesBetween(acts: seq<Activity>, lo: int, hi: int)
    requires forall i :: 0 <= i < |acts| ==> lo <= Minutes(acts[i]) <= hi
    ensures lo * |acts| <= TotalMinutes(acts) <= hi * |acts|
  {
    if acts != [] {
      var rest := acts[1..];
      forall i | 0 <= i < |rest|
        ensures lo <= Minutes(rest[i]) <= hi
      {
        assert rest[i] == acts[i + 1];
      }
      var n := |rest|;
      assert |acts| == n + 1;
      assert TotalMinutes(acts) == Minutes(acts[0]) + TotalMinutes(rest);
      assert lo <= Minutes(acts[0]) <= hi;
      TotalMinutesBetween(rest, lo, hi);
      MulSucc(lo, n);
      MulSucc(hi, n);
    }
  }

  // ------------------------------------------------------------------ the week

  /**
   * The day on which the current week began: `now.getDate() - day + (day === 0 ? -6 : 1)`
   * passed to `setDate`.
   */
  function WeekStartDay(today: int): int
  {
    var c := CivilFromDays(today);
    var w := Weekday(today);
    MakeDay(c.year, c.month, c.day - w + (if w == 0 then -6 else 1))
  }

  /** The week starts on the most recent Monday, Sunday belonging to the week before it. */
  lemma WeekStartIsMonday(today: int)
    ensures WeekStartDay(today) == today - (Weekday(today) + 6) % 7
    ensures Weekday(WeekStartDay(today)) == 1
    ensures WeekStartDay(today) <= today < WeekStartDay(today) + 7
    ensures Weekday(today) == 0 ==> WeekStartDay(today) == today - 6
  {
    var c := CivilFromDays(today);
    var w := Weekday(today);
    var shift := if w == 0 then -6 else 1;
    SetDateShifts(today, c.day - w + shift);
    var start := today - w + shift;
    assert WeekStartDay(today) == start;
    var q := (today + 4) / 7;
    assert today + 4 == 7 * q + w;
    assert start + 4 == 7 * q + shift;
    if w == 0 {
      assert (w + 6) % 7 == 6;
      assert start + 4 == 7 * (q - 1) + 1;
    } else {
      assert (w + 6) % 7 == w - 1;
    }
  }

  /** `startOfWeek` after `setHours(0, 0, 0, 0)`, in minutes. */
  function StartOfWeek(now: int): int
  {
    WeekStartDay(DayOf(now)) * MinutesPerDay
  }

  lemma StartOfWeekBeforeNow(now: int)
    ensures StartOfWeek(now) <= now < StartOfWeek(now) + 7 * MinutesPerDay
  {
    WeekStartIsMonday(DayOf(now));
  }

  /**
   * The instant the weekly filter compares: the timestamp if there is one, else the
   * `date` text, and the present moment when that text does not parse.
   */
  function WeekInstant(a: Activity, parse: string -> Instant, now: int): Instant
  {
    if a.timestamp != "" then parse(a.timestamp)
    else
      var d := parse(a.date);
      if d.Invalid? then At(now) else d
  }

  /** `aDate >= startOfWeek`; an invalid date compares false. */
  predicate InCurrentWeek(a: Activity, parse: string -> Instant, now: int)
  {
    var d := WeekInstant(a, parse, now);
    d.At? && d.minute >= StartOfWeek(now)
  }

  /** `currentWeekActivities`. */
  function WeekActivities(acts: seq<Activity>, parse: string -> Instant, now: int): (r: seq<Activity>)
    ensures |r| <= |acts|
  {
    if acts == [] then []
    else if InCurrentWeek(acts[0], parse, now) then [acts[0]] + WeekActivities(acts[1..], parse, now)
    else WeekActivities(acts[1..], parse, now)
  }

  lemma {:induction false} WeekActivitiesMembers(acts: seq<Activity>, parse: string -> Instant, now: int, a: Activity)
    ensures (a in WeekActivities(acts, parse, now)) <==> (a in acts && InCurrentWeek(a, parse, now))
  {
    if acts != [] {
      WeekActivitiesMembers(acts[1..], parse, now, a);
      assert acts == [acts[0]] + acts[1..];
    }
  }

  /** An activity counts for the week exactly when it falls on or after this week's Monday. */
  lemma InCurrentWeekByDay(a: Activity, parse: string -> Instant, now: int)
    ensures InCurrentWeek(a, parse, now) <==>
            WeekInstant(a, parse, now).At? &&
            DayOf(WeekInstant(a, parse, now).minute) >= WeekStartDay(DayOf(now))
  {
  }

  /** An untimestamped entry whose date does not parse counts as happening now. */
  lemma UnparsedDateCountsAsNow(a: Activity, parse: string -> Instant, now: int)
    requires a.timestamp == "" && parse(a.date).Invalid?
    ensures InCurrentWeek(a, parse, now)
  {
    StartOfWeekBeforeNow(now);
  }

  /** A timestamp that does not parse never counts. */
  lemma InvalidTimestampExcluded(a: Activity, parse: string -> Instant, now: int)
    requires a.timestamp != "" && parse(a.timestamp).Invalid?
    ensures !InCurrentWeek(a, parse, now)
  {
  }

  datatype WeeklyStats = WeeklyStats(minutes: int, sessions: int)

  /** `setWeeklyStats({ minutes: totalMinutes, sessions: currentWeekActivities.length })`. */
  function ComputeWeeklyStats(acts: seq<Activity>, parse: string -> Instant, now: int): (s: WeeklyStats)
    ensures 0 <= s.sessions <= |acts|
  {
    var week := WeekActivities(acts, parse, now);
    WeeklyStats(TotalMinutes(week), |week|)
  }

  /** Logging one more activity now adds it to the week's sessions and minutes. */
  lemma {:induction false} NewActivityCounts(acts: seq<Activity>, a: Activity, parse: string -> Instant, now: int)
    requires a.timestamp != "" && parse(a.timestamp) == At(now)
    ensures ComputeWeeklyStats(SaveActivity(acts, a), parse, now).sessions
              == ComputeWeeklyStats(acts, parse, now).sessions + 1
    ensures ComputeWeeklyStats(SaveActivity(acts, a), parse, now).minutes
              == ComputeWeeklyStats(acts, parse, now).minutes + Minutes(a)
  {
    StartOfWeekBeforeNow(now);
    var r := SaveActivity(acts, a);
    assert r[0] == a && r[1..] == acts;
  }

  // ------------------------------------------------------------------ progress

  /** `Math.min(100, Math.round((minutes / 150) * 100))`. */
  function GoalPercent(minutes: int): int
  {
    Min(100, Percent(minutes, GoalMinutes))
  }

  /**
   * The ring is full exactly when the goal is met, and for a non-negative total the
   * percentage lies in [0, 100]. (`minutes * 100 / 150` is never a half, so the
   * floating-point rounding of the source agrees with the exact one.)
   */
  lemma GoalPercentRange(minutes: int)
    ensures GoalPercent(minutes) >= 100 <==> minutes >= GoalMinutes
    ensures GoalPercent(minutes) <= 100
    ensures minutes >= 0 ==> GoalPercent(minutes) >= 0
  {
    var r := Round(100 * minutes, GoalMinutes);
    if minutes >= 0 {
      RoundBetween(100 * minutes, GoalMinutes, 0, 100 * minutes);
    }
  }

  // ---------------------------------------------------------------------- tips

  const TipTitles: seq<string> := ["Stay Hydrated", "Limit Sodium", "Sun Safety", "Medication Timing"]

  /** `(prev + 1) % TIPS.length`, used by the timer and by the refresh button. */
  function NextTip(i: int): (r: int)
    ensures 0 <= r < |TipTitles|
    ensures 0 <= i < |TipTitles| - 1 ==> r == i + 1
    ensures i == |TipTitles| - 1 ==> r == 0
  {
    (i + 1) % |TipTitles|
  }

  /** Rotating through every tip comes back to the one shown first. */
  lemma TipCycle(i: int)
    requires 0 <= i < |TipTitles|
    ensures NextTip(NextTip(NextTip(NextTip(i)))) == i
  {
  }

  /** `stored.slice(0, 3)`. */
  function RecentActivities(stored: seq<Activity>): (r: seq<Activity>)
    ensures |r| == Min(3, |stored|)
    ensures r <= stored
  {
    stored[..Min(3, |stored|)]
  }

  // --------------------------------------------------------------- the chart

  const DayNames: seq<string> := ["Sun", "Mon", "Tue", "Wed", "Thu", "Fri", "Sat"]

  /** `last7Days`: `d.setDate(d.getDate() - (6 - i))` for i = 0..6. */
  function ChartDays(today: int): (ds: seq<int>)
    ensures |ds| == 7
  {
    var c := CivilFromDays(today);
    seq(7, i => MakeDay(c.year, c.month, c.day - (6 - i)))
  }

  /** The chart covers six days ago up to today, in that order. */
  lemma ChartDaysAreLastWeek(today: int)
    ensures forall i :: 0 <= i < 7 ==> ChartDays(today)[i] == today - 6 + i
  {
    var c := CivilFromDays(today);
    forall i | 0 <= i < 7
      ensures ChartDays(today)[i] == today - 6 + i
    {
      SetDateShifts(today, c.day - (6 - i));
    }
  }

  /** The instant the chart reads: the timestamp, else `${date}, ${currentYear}`. */
  function ChartInstant(a: Activity, parse: string -> Instant, nowYear: int): Instant
  {
    if a.timestamp != "" then parse(a.timestamp)
    else parse(a.date + ", " + JsString.IntToString(nowYear))
  }

  /** The activity falls on calendar day `day`: same `getDate`, `getMonth` and `getFullYear`. */
  predicate OnDay(a: Activity, parse: string -> Instant, nowYear: int, day: int)
  {
    var d := ChartInstant(a, parse, nowYear);
    d.At? && CivilOf(d.minute) == CivilFromDays(day)
  }

  /** Comparing the three date fields is comparing day numbers. */
  lemma OnDayByNumber(a: Activity, parse: string -> Instant, nowYear: int, day: int)
    ensures OnDay(a, parse, nowYear, day) <==>
            ChartInstant(a, parse, nowYear).At? && DayOf(ChartInstant(a, parse, nowYear).minute) == day
  {
    var d := ChartInstant(a, parse, nowYear);
    if d.At? {
      CivilInjective(DayOf(d.minute), day);
    }
  }

  /** `dayMinutes`: the `reduce` that adds the duration of each activity of that day. */
  function DayMinutes(acts: seq<Activity>, parse: string -> Instant, nowYear: int, day: int): int
  {
    if acts == [] then 0
    else
      var rest := DayMinutes(acts[1..], parse, nowYear, day);
      if OnDay(acts[0], parse, nowYear, day) then Minutes(acts[0]) + rest else rest
  }

  /** The activities of one calendar day, in order. */
  function DayActivities(acts: seq<Activity>, parse: string -> Instant, nowYear: int, day: int): seq<Activity>
  {
    if acts == [] then []
    else if OnDay(acts[0], parse, nowYear, day) then [acts[0]] + DayActivities(acts[1..], parse, nowYear, day)
    else DayActivities(acts[1..], parse, nowYear, day)
  }

  /** A day's value is the total duration of the activities on that day. */
  lemma {:induction false} DayMinutesIsDayTotal(acts: seq<Activity>, parse: string -> Instant, nowYear: int, day: int)
    ensures DayMinutes(acts, parse, nowYear, day) == TotalMinutes(DayActivities(acts, parse, nowYear, day))
  {
    if acts != [] {
      DayMinutesIsDayTotal(acts[1..], parse, nowYear, day);
      var rest := DayActivities(acts[1..], parse, nowYear, day);
      if OnDay(acts[0], parse, nowYear, day) {
        assert ([acts[0]] + rest)[1..] == rest;
      }
    }
  }

  /** An activity whose date is invalid adds nothing to any day. */
  lemma InvalidDateContributesNothing(acts: seq<Activity>, a: Activity, parse: string -> Instant, nowYear: int, day: int)
    requires ChartInstant(a, parse, nowYear).Invalid?
    ensures DayMinutes([a] + acts, parse, nowYear, day) == DayMinutes(acts, parse, nowYear, day)
  {
    assert ([a] + acts)[1..] == acts;
  }

  /** `Math.max(...values, 60)`. */
  function MaxValue(values: seq<int>): (m: int)
    ensures m >= 60
    ensures forall i :: 0 <= i < |values| ==> values[i] <= m
    ensures m == 60 || exists i :: 0 <= i < |values| && values[i] == m
  {
    if values == [] then 60
    else
      var rest := MaxValue(values[1..]);
      assert forall i :: 1 <= i < |values| ==> values[i] == values[1..][i - 1];
      Max(values[0], rest)
  }

  datatype ChartEntry = ChartEntry(dayName: string, value: int, height: int)

  /** The chart's raw values, before the heights are filled in. */
  function ChartValues(acts: seq<Activity>, parse: string -> Instant, nowYear: int, today: int): (vs: seq<int>)
    ensures |vs| == 7
  {
    var days := ChartDays(today);
    seq(7, i requires 0 <= i < 7 => DayMinutes(acts, parse, nowYear, days[i]))
  }

  /** `finalData`: label (`dayName`), value and `Math.round((value / maxValue) * 100)` for each day. */
  function Chart(acts: seq<Activity>, parse: string -> Instant, nowYear: int, today: int): (r: seq<ChartEntry>)
    ensures |r| == 7
  {
    var days := ChartDays(today);
    var values := ChartValues(acts, parse, nowYear, today);
    var top := MaxValue(values);
    seq(7, i requires 0 <= i < 7 => ChartEntry(DayNames[Weekday(days[i])], values[i], Round(100 * values[i], top)))
  }

  /**
   * Entry i is the day `6 - i` days before today, labelled with its weekday name and
   * valued at that day's total; its height is at most 100, non-negative for a
   * non-negative value, and 100 for a day that reaches the maximum.
   */
  lemma ChartEntryShape(acts: seq<Activity>, parse: string -> Instant, nowYear: int, today: int, i: int)
    requires 0 <= i < 7
    ensures Chart(acts, parse, nowYear, today)[i].dayName == DayNames[Weekday(today - 6 + i)]
    ensures Chart(acts, parse, nowYear, today)[i].value == DayMinutes(acts, parse, nowYear, today - 6 + i)
    ensures Chart(acts, parse, nowYear, today)[i].height <= 100
    ensures Chart(acts, parse, nowYear, today)[i].value >= 0 ==> Chart(acts, parse, nowYear, today)[i].height >= 0
    ensures Chart(acts, parse, nowYear, today)[i].value == MaxValue(ChartValues(acts, parse, nowYear, today)) ==>
              Chart(acts, parse, nowYear, today)[i].height == 100
  {
    ChartDaysAreLastWeek(today);
    var values := ChartValues(acts, parse, nowYear, today);
    var top := MaxValue(values);
    var v := values[i];
    RoundAtMost(100 * v, top, 100);
    if v >= 0 {
      RoundAtLeast(100 * v, top, 0);
    }
    RoundExact(100, top);
  }

  datatype AnalyticsStats = AnalyticsStats(totalMinutes: int, sessions: int, avgDuration: int)

  /** `stats`: the total over all entries, their count and the rounded mean (0 for none). */
  function Analytics(stored: seq<Activity>): (s: AnalyticsStats)
    ensures s.sessions == |stored|
    ensures s.totalMinutes == TotalMinutes(stored)
  {
    var total := TotalMinutes(stored);
    AnalyticsStats(total, |stored|, if |stored| > 0 then Round(total, |stored|) else 0)
  }

  /** The mean is 0 with no entries, and otherwise lies between the shortest and longest duration. */
  lemma AverageBetween(stored: seq<Activity>, lo: int, hi: int)
    requires forall i :: 0 <= i < |stored| ==> lo <= Minutes(stored[i]) <= hi
    ensures stored == [] ==> Analytics(stored).avgDuration == 0
    ensures stored != [] ==> lo <= Analytics(stored).avgDuration <= hi
  {
    TotalMinutesBetween(stored, lo, hi);
    if stored != [] {
      RoundBetween(TotalMinutes(stored), |stored|, lo, hi);
    }
  }
}
