/**
 * The activity log and its calendar view (`LogActivity` and `ActivityHistory`).
 *
 * Activities are stored newest first under `activities_<userName>`. The history page
 * shows one month as a calendar grid: blank cells up to the weekday of the 1st, then
 * one cell per day carrying a blue marker when an aerobic activity fell on that day
 * and an orange one for a resistance activity.
 *
 * Date strings are turned into instants by `new Date(string)`, whose reading of
 * non-ISO text is engine-specific; it is the parameter `parse` here.
 */
module ActivityLog {
  import opened Wrappers
  import opened JsDate
  import JsString

  /**
   * A stored activity. `kind` is the record's `type` field ('aerobic' or
   * 'resistance'); `duration` is kept as text, as every reader passes it to
   * `parseInt`; `date` is the short "Mon D" label; `timestamp` the ISO instant.
   * An absent field is the empty string (both are falsy in the source).
   */
  datatype Activity = Activity(
    id: int,
    kind: string,
    duration: string,
    intensity: string,
    date: string,
    timestamp: string)

  // ------------------------------------------------------------------ logging

  /**
   * The record `handleSave` builds: the id is `Date.now()`, and `dateLabel` and `stamp`
   * are the locale date label and ISO text of the same moment.
   */
  function NewActivity(nowMs: int, kind: string, duration: nat, intensity: string,
                       dateLabel: string, stamp: string): (a: Activity)
    ensures a.id == nowMs && a.kind == kind && a.intensity == intensity
    ensures JsString.ParseInt(a.duration) == Some(duration as int)
    ensures a.date == dateLabel && a.timestamp == stamp
  {
    JsString.ParseIntOfString(duration);
    Activity(nowMs, kind, JsString.IntToString(duration), intensity, dateLabel, stamp)
  }

  /** `[newActivity, ...existingActivities]`. */
  function SaveActivity(existing: seq<Activity>, a: Activity): (r: seq<Activity>)
    ensures |r| == |existing| + 1
    ensures r[0] == a && r[1..] == existing
  {
    [a] + existing
  }

  // ----------------------------------------------------------------- calendar

  /** `getDaysInMonth`: `new Date(y, m + 1, 0).getDate()` for the viewed day. */
  function DaysInViewedMonth(view: int): int
  {
    var c := CivilFromDays(view);
    CivilFromDays(ConstructDay(c.year, c.month + 1, 0)).day
  }

  /**
   * Day 0 of the next month is the last day of this one: the Gregorian length of the
   * viewed month, read in the year the `Date` constructor makes of the viewed year.
   */
  lemma DaysInViewedMonthIsLength(view: int)
    ensures DaysInViewedMonth(view)
              == DaysInMonth(FullYear(CivilFromDays(view).year), CivilFromDays(view).month)
    ensures !(0 <= CivilFromDays(view).year <= 99) ==>
              DaysInViewedMonth(view) == DaysInMonth(CivilFromDays(view).year, CivilFromDays(view).month)
    ensures 28 <= DaysInViewedMonth(view) <= 31
    ensures CivilFromDays(view).month == 1 ==>
              (DaysInViewedMonth(view) == 29 <==> IsLeapYear(FullYear(CivilFromDays(view).year)))
  {
    var c := CivilFromDays(view);
    DayZeroOfNextMonth(FullYear(c.year), c.month);
    DaysInMonthRange(FullYear(c.year), c.month);
  }

  /** `getFirstDayOfMonth`: `new Date(y, m, 1).getDay()` (0 = Sunday) for the viewed day. */
  function FirstWeekdayOfViewedMonth(view: int): int
  {
    var c := CivilFromDays(view);
    Weekday(ConstructDay(c.year, c.month, 1))
  }

  /**
   * The result is the weekday of the 1st of the viewed month, in the year the `Date`
   * constructor makes of the viewed year; outside years 0..99 that 1st lies
   * `getDate() - 1` days before the viewed day.
   */
  lemma FirstWeekdayOfViewedMonthIsFirst(view: int)
    ensures 0 <= FirstWeekdayOfViewedMonth(view) < 7
    ensures FirstWeekdayOfViewedMonth(view)
              == Weekday(DaysFromCivil(Civil(FullYear(CivilFromDays(view).year), CivilFromDays(view).month, 1)))
    ensures !(0 <= CivilFromDays(view).year <= 99) ==>
              FirstWeekdayOfViewedMonth(view) == Weekday(view - CivilFromDays(view).day + 1)
    ensures CivilFromDays(view - CivilFromDays(view).day + 1)
              == Civil(CivilFromDays(view).year, CivilFromDays(view).month, 1)
  {
    var c := CivilFromDays(view);
    var y := FullYear(c.year);
    MakeDayInMonth(y, c.month, 1);
    assert ConstructDay(c.year, c.month, 1) == DaysFromCivil(Civil(y, c.month, 1));
    FirstOfViewedMonth(view);
  }

  /** The 1st of the viewed month lies `getDate() - 1` days before the viewed day. */
  lemma FirstOfViewedMonth(view: int)
    ensures DaysFromCivil(Civil(CivilFromDays(view).year, CivilFromDays(view).month, 1))
              == view - CivilFromDays(view).day + 1
    ensures CivilFromDays(view - CivilFromDays(view).day + 1)
              == Civil(CivilFromDays(view).year, CivilFromDays(view).month, 1)
  {
    var c := CivilFromDays(view);
    var first := Civil(c.year, c.month, 1);
    SetDateShifts(view, 1);
    MakeDayInMonth(c.year, c.month, 1);
    assert DaysFromCivil(first) == view - c.day + 1;
    DaysInMonthRange(c.year, c.month);
    CivilRoundTrip(first);
  }

  /** `prevMonth`: `new Date(y, m - 1, 1)`. */
  function PrevMonth(view: int): int
  {
    var c := CivilFromDays(view);
    ConstructDay(c.year, c.month - 1, 1)
  }

  /** `nextMonth`: `new Date(y, m + 1, 1)`. */
  function NextMonth(view: int): int
  {
    var c := CivilFromDays(view);
    ConstructDay(c.year, c.month + 1, 1)
  }

  /**
   * Both buttons land on the 1st of the neighbouring month of the viewed month, in the
   * year the `Date` constructor makes of the viewed year, rolling over the year.
   */
  lemma MonthStepDates(view: int)
    ensures CivilFromDays(NextMonth(view))
              == NextMonthOf(FullYear(CivilFromDays(view).year), CivilFromDays(view).month)
    ensures CivilFromDays(PrevMonth(view))
              == PrevMonthOf(FullYear(CivilFromDays(view).year), CivilFromDays(view).month)
    ensures CivilFromDays(view).month == 11 ==>
              CivilFromDays(NextMonth(view)) == Civil(FullYear(CivilFromDays(view).year) + 1, 0, 1)
    ensures CivilFromDays(view).month == 0 ==>
              CivilFromDays(PrevMonth(view)) == Civil(FullYear(CivilFromDays(view).year) - 1, 11, 1)
  {
    var c := CivilFromDays(view);
    var y := FullYear(c.year);
    MakeDayNextMonth(y, c.month);
    MakeDayPrevMonth(y, c.month);
    CivilRoundTrip(NextMonthOf(y, c.month));
    CivilRoundTrip(PrevMonthOf(y, c.month));
  }

  /**
   * Next then previous, and previous then next, show the same month again on its 1st,
   * for viewed years whose neighbours the `Date` constructor does not move (years
   * -1..100 can step into 0..99, which it reads as 1900..1999).
   */
  lemma PrevAfterNext(view: int)
    requires CivilFromDays(view).year < -1 || CivilFromDays(view).year > 100
    ensures CivilFromDays(PrevMonth(NextMonth(view)))
              == Civil(CivilFromDays(view).year, CivilFromDays(view).month, 1)
    ensures CivilFromDays(NextMonth(PrevMonth(view)))
              == Civil(CivilFromDays(view).year, CivilFromDays(view).month, 1)
  {
    var c := CivilFromDays(view);
    assert FullYear(c.year) == c.year;
    MonthStepDates(view);
    var n := CivilFromDays(NextMonth(view));
    assert n == NextMonthOf(c.year, c.month);
    assert FullYear(n.year) == n.year;
    MonthStepDates(NextMonth(view));
    assert CivilFromDays(PrevMonth(NextMonth(view))) == PrevMonthOf(n.year, n.month);
    var p := CivilFromDays(PrevMonth(view));
    assert p == PrevMonthOf(c.year, c.month);
    assert FullYear(p.year) == p.year;
    MonthStepDates(PrevMonth(view));
    assert CivilFromDays(NextMonth(PrevMonth(view))) == NextMonthOf(p.year, p.month);
  }

  /**
   * In December of year 99, next then previous does not come back: the next month is
   * January 2000, and the month before that is December 1999.
   */
  lemma PrevAfterNextTwoDigitYear()
    ensures CivilFromDays(NextMonth(DaysFromCivil(Civil(99, 11, 1)))) == Civil(2000, 0, 1)
    ensures CivilFromDays(PrevMonth(NextMonth(DaysFromCivil(Civil(99, 11, 1))))) == Civil(1999, 11, 1)
  {
    var view := DaysFromCivil(Civil(99, 11, 1));
    CivilRoundTrip(Civil(99, 11, 1));
    MonthStepDates(view);
    MonthStepDates(NextMonth(view));
  }

  // ----------------------------------------------------------------- grouping

  /**
   * The instant an activity is placed at: its timestamp when it has one, else its
   * yearless date label read in the current year, else none (`d` stays undefined).
   */
  function ActivityInstant(a: Activity, parse: string -> Instant, nowYear: int): Instant
  {
    if a.timestamp != "" then parse(a.timestamp)
    else if a.date != "" then parse(a.date + ", " + JsString.IntToString(nowYear))
    else Invalid
  }

  /** The day of month whose bucket receives `a` when `year`/`month` is viewed. */
  function BucketOf(a: Activity, parse: string -> Instant, nowYear: int, year: int, month: int): (r: Option<int>)
    ensures r.Some? <==> ActivityInstant(a, parse, nowYear).At? &&
                         CivilOf(ActivityInstant(a, parse, nowYear).minute).year == year &&
                         CivilOf(ActivityInstant(a, parse, nowYear).minute).month == month
    ensures r.Some? ==> r.value == CivilOf(ActivityInstant(a, parse, nowYear).minute).day
    ensures r.Some? ==> 0 <= month < 12 && 1 <= r.value <= DaysInMonth(year, month)
  {
    match ActivityInstant(a, parse, nowYear)
    case Invalid => None
    case At(t) =>
      var c := CivilOf(t);
      if c.year == year && c.month == month then Some(c.day) else None
  }

  /** The activities of day `day`, in input order. */
  function Bucket(acts: seq<Activity>, parse: string -> Instant, nowYear: int, year: int, month: int,
                  day: int): seq<Activity>
  {
    if acts == [] then []
    else
      var rest := Bucket(acts[..|acts| - 1], parse, nowYear, year, month, day);
      if BucketOf(acts[|acts| - 1], parse, nowYear, year, month) == Some(day)
      then rest + [acts[|acts| - 1]]
      else rest
  }

  /** An activity is in the bucket of a day exactly when that is its day of month. */
  lemma {:induction false} BucketMembers(acts: seq<Activity>, parse: string -> Instant, nowYear: int,
                                         year: int, month: int, day: int, a: Activity)
    ensures (a in Bucket(acts, parse, nowYear, year, month, day)) <==>
            (a in acts && BucketOf(a, parse, nowYear, year, month) == Some(day))
  {
    if acts != [] {
      var init := acts[..|acts| - 1];
      BucketMembers(init, parse, nowYear, year, month, day, a);
      assert acts == init + [acts[|acts| - 1]];
    }
  }

  /** Buckets keep input order: each is a subsequence of the activities. */
  predicate IsSubsequence<T(==)>(xs: seq<T>, ys: seq<T>)
    decreases |ys|
  {
    if xs == [] then true
    else if ys == [] then false
    else if xs[|xs| - 1] == ys[|ys| - 1] then IsSubsequence(xs[..|xs| - 1], ys[..|ys| - 1])
    else IsSubsequence(xs, ys[..|ys| - 1])
  }

  lemma {:induction false} BucketInOrder(acts: seq<Activity>, parse: string -> Instant, nowYear: int,
                                         year: int, month: int, day: int)
    ensures IsSubsequence(Bucket(acts, parse, nowYear, year, month, day), acts)
  {
    if acts != [] {
      var init := acts[..|acts| - 1];
      BucketInOrder(init, parse, nowYear, year, month, day);
      var b := Bucket(init, parse, nowYear, year, month, day);
      if BucketOf(acts[|acts| - 1], parse, nowYear, year, month) == Some(day) {
        assert (b + [acts[|acts| - 1]])[..|b|] == b;
      } else {
        SubsequenceExtend(b, init, acts[|acts| - 1]);
      }
    }
  }

  lemma {:induction false} SubsequenceExtend<T>(xs: seq<T>, ys: seq<T>, y: T)
    requires IsSubsequence(xs, ys)
    ensures IsSubsequence(xs, ys + [y])
    decreases |ys|, 1
  {
    if xs != [] {
      var zs := ys + [y];
      assert zs[..|zs| - 1] == ys;
      if xs[|xs| - 1] == y {
        SubsequencePrefix(xs, ys);
      }
    }
  }

  lemma {:induction false} SubsequencePrefix<T>(xs: seq<T>, ys: seq<T>)
    requires xs != [] && IsSubsequence(xs, ys)
    ensures IsSubsequence(xs[..|xs| - 1], ys)
    decreases |ys|, 0
  {
    var init := xs[..|xs| - 1];
    if init != [] {
      assert ys != [];
      var yinit := ys[..|ys| - 1];
      if xs[|xs| - 1] == ys[|ys| - 1] {
        SubsequenceExtend(init, yinit, ys[|ys| - 1]);
        assert yinit + [ys[|ys| - 1]] == ys;
      } else {
        SubsequencePrefix(xs, yinit);
        SubsequenceExtend(init, yinit, ys[|ys| - 1]);
        assert yinit + [ys[|ys| - 1]] == ys;
      }
    }
  }

  /** The accumulator holds exactly the non-empty buckets of `acts`. */
  ghost predicate GroupedByDay(acc: map<int, seq<Activity>>, acts: seq<Activity>, parse: string -> Instant,
                         nowYear: int, year: int, month: int)
  {
    (forall day :: day in acc <==> Bucket(acts, parse, nowYear, year, month, day) != []) &&
    (forall day :: day in acc ==> acc[day] == Bucket(acts, parse, nowYear, year, month, day))
  }

  /** `activitiesByDay`: the `reduce` that pushes each activity of the month into its day. */
  method ActivitiesByDay(acts: seq<Activity>, parse: string -> Instant, nowYear: int, year: int, month: int)
    returns (acc: map<int, seq<Activity>>)
    ensures GroupedByDay(acc, acts, parse, nowYear, year, month)
  {
    acc := map[];
    var i := 0;
    while i < |acts|
      invariant 0 <= i <= |acts|
      invariant GroupedByDay(acc, acts[..i], parse, nowYear, year, month)
    {
      var a := acts[i];
      assert acts[..i + 1][..i] == acts[..i];
      var b := BucketOf(a, parse, nowYear, year, month);
      if b.Some? {
        var day := b.value;
        if day !in acc {
          acc := acc[day := []];
        }
        acc := acc[day := acc[day] + [a]];
      }
      i := i + 1;
    }
    assert acts[..|acts|] == acts;
  }

  /** The days that have a bucket are days of the viewed month. */
  lemma BucketDays(acc: map<int, seq<Activity>>, acts: seq<Activity>, parse: string -> Instant,
                   nowYear: int, year: int, month: int, day: int)
    requires GroupedByDay(acc, acts, parse, nowYear, year, month)
    requires day in acc
    ensures 0 <= month < 12 && 1 <= day <= DaysInMonth(year, month)
  {
    var a := acc[day][0];
    BucketMembers(acts, parse, nowYear, year, month, day, a);
  }

  // --------------------------------------------------------------------- grid

  datatype Cell = Blank | DayCell(day: int, aerobic: bool, resistance: bool, today: bool)

  predicate HasKind(bucket: seq<Activity>, kind: string)
  {
    exists i :: 0 <= i < |bucket| && bucket[i].kind == kind
  }

  function DayBucket(acc: map<int, seq<Activity>>, day: int): seq<Activity>
  {
    if day in acc then acc[day] else []
  }

  /** `firstDay` blank cells, then the cells for days 1..`daysInMonth`. */
  function Grid(firstDay: nat, daysInMonth: nat, acc: map<int, seq<Activity>>, today: Civil,
                year: int, month: int): (g: seq<Cell>)
    ensures |g| == firstDay + daysInMonth
    ensures forall i :: 0 <= i < firstDay ==> g[i] == Blank
    ensures forall i :: firstDay <= i < |g| ==> g[i].DayCell? && g[i].day == i - firstDay + 1
    ensures forall i :: firstDay <= i < |g| ==>
              (g[i].aerobic <==> HasKind(DayBucket(acc, g[i].day), "aerobic")) &&
              (g[i].resistance <==> HasKind(DayBucket(acc, g[i].day), "resistance")) &&
              (g[i].today <==> today == Civil(year, month, g[i].day))
  {
    seq(firstDay, _ => Blank) + DayCells(daysInMonth, acc, today, year, month)
  }

  function DayCells(n: nat, acc: map<int, seq<Activity>>, today: Civil, year: int, month: int): (cs: seq<Cell>)
    ensures |cs| == n
  {
    seq(n, k => DayCell(k + 1, HasKind(DayBucket(acc, k + 1), "aerobic"),
                        HasKind(DayBucket(acc, k + 1), "resistance"),
                        today.day == k + 1 && today.month == month && today.year == year))
  }

  /**
   * With the grouping `ActivitiesByDay` produces, a day's marker shows exactly when
   * some activity of that kind falls on that day of the viewed month.
   */
  lemma GridMarkers(acc: map<int, seq<Activity>>, acts: seq<Activity>, parse: string -> Instant,
                    nowYear: int, year: int, month: int, day: int, kind: string)
    requires GroupedByDay(acc, acts, parse, nowYear, year, month)
    ensures HasKind(DayBucket(acc, day), kind) <==>
            exists a :: a in acts && a.kind == kind && BucketOf(a, parse, nowYear, year, month) == Some(day)
  {
    var b := Bucket(acts, parse, nowYear, year, month, day);
    assert DayBucket(acc, day) == b;
    if HasKind(b, kind) {
      var i :| 0 <= i < |b| && b[i].kind == kind;
      BucketMembers(acts, parse, nowYear, year, month, day, b[i]);
    }
    forall a | a in acts && a.kind == kind && BucketOf(a, parse, nowYear, year, month) == Some(day)
      ensures HasKind(b, kind)
    {
      BucketMembers(acts, parse, nowYear, year, month, day, a);
      var i :| 0 <= i < |b| && b[i] == a;
    }
  }
}
