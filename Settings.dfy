/**
 * The settings page's notification-frequency preference (`Settings`) and the message
 * centre (`Notifications`).
 *
 * The message centre shows the visible items of the notification feed. Before
 * display, each text has its placeholders filled from the week's progress towards the
 * 150-minute goal, each placeholder's first occurrence only. One item at a time is
 * expanded, and any number can have their detail text open.
 */
module Settings {
  import opened Wrappers
  import opened JsMath
  import opened JsString
  import opened Sequences
  import opened JsDate
  import ActivityLog
  import Dashboard
  import Admin

  // ------------------------------------------------------------ frequency preference

  /** The initial frequency: what `notificationFrequency` holds, or "daily" when it is missing or empty. */
  function InitialFrequency(saved: string): (f: string)
    ensures f != ""
    ensures saved != "" ==> f == saved
    ensures saved == "" ==> f == "daily"
  {
    if saved != "" then saved else "daily"
  }

  /** The preference as it stands on the page, and the value in storage ("" when none). */
  class FrequencyPreference {
    var frequency: string
    var stored: string

    constructor (saved: string)
      ensures stored == saved
      ensures frequency == InitialFrequency(saved)
    {
      stored := saved;
      frequency := InitialFrequency(saved);
    }

    /** `handleFrequencyChange`: the new frequency is shown and stored. */
    method Change(f: string)
      requires f == "daily" || f == "weekly"
      modifies this
      ensures frequency == f && stored == f
    {
      frequency := f;
      stored := f;
    }
  }

  /** After any change, a fresh page reads back the frequency that was chosen. */
  lemma {:induction false} ChangeSurvivesReload(f: string, other: string)
    requires f == "daily" || f == "weekly"
    ensures InitialFrequency(f) == f
    ensures InitialFrequency("") == "daily"
    ensures other != "" ==> InitialFrequency(other) == other
  {
  }

  // ------------------------------------------------------------ goal progress

  /** `Math.max(0, GOAL - weeklyMinutes)`. */
  function Remaining(minutes: int): (r: int)
    ensures r >= 0
    ensures r >= Dashboard.GoalMinutes - minutes
  {
    Max(0, Dashboard.GoalMinutes - minutes)
  }

  /** `Math.min(100, Math.round((weeklyMinutes / GOAL) * 100))`. */
  function Percentage(minutes: int): int
  {
    Dashboard.GoalPercent(minutes)
  }

  /**
   * For a non-negative total: nothing remains exactly when the goal is met, what
   * remains otherwise completes the total to 150, and the percentage is in [0, 100]
   * and reaches 100 exactly when the goal is met.
   */
  lemma GoalProgress(minutes: int)
    requires minutes >= 0
    ensures 0 <= Remaining(minutes) <= Dashboard.GoalMinutes
    ensures Remaining(minutes) == 0 <==> minutes >= Dashboard.GoalMinutes
    ensures minutes < Dashboard.GoalMinutes ==> minutes + Remaining(minutes) == Dashboard.GoalMinutes
    ensures 0 <= Percentage(minutes) <= 100
    ensures Percentage(minutes) >= 100 <==> minutes >= Dashboard.GoalMinutes
  {
    Dashboard.GoalPercentRange(minutes);
  }

  const ReachedTitle: string := "You've reached your weekly goal!"
  const OnTheWayTitle: string := "You're on your way to your goal!"
  const ReachedSubtitle: string := "Great job maintaining your health!"

  /** `goalStatusTitle`. */
  function GoalStatusTitle(minutes: int): string
  {
    if Percentage(minutes) >= 100 then ReachedTitle else OnTheWayTitle
  }

  /** `goalStatusSubtitle`. */
  function GoalStatusSubtitle(minutes: int): string
  {
    if Percentage(minutes) >= 100 then ReachedSubtitle
    else IntToString(Remaining(minutes)) + " mins remaining this week."
  }

  /**
   * The status reads "reached" exactly when the total is at least the goal; otherwise
   * the subtitle gives the minutes still missing.
   */
  lemma GoalStatus(minutes: int)
    ensures GoalStatusTitle(minutes) == ReachedTitle <==> minutes >= Dashboard.GoalMinutes
    ensures GoalStatusTitle(minutes) == OnTheWayTitle <==> minutes < Dashboard.GoalMinutes
    ensures minutes >= Dashboard.GoalMinutes ==> GoalStatusSubtitle(minutes) == ReachedSubtitle
    ensures minutes < Dashboard.GoalMinutes ==>
              GoalStatusSubtitle(minutes) == IntToString(Dashboard.GoalMinutes - minutes) + " mins remaining this week."
  {
    Dashboard.GoalPercentRange(minutes);
    assert ReachedTitle[4] != OnTheWayTitle[4];
  }

  /**
   * `weeklyMinutes`: the minutes of the activities at or after this week's Monday
   * 00:00, reckoned as on the dashboard.
   */
  function WeeklyMinutes(acts: seq<ActivityLog.Activity>, parse: string -> Instant, now: int): int
  {
    Dashboard.TotalMinutes(Dashboard.WeekActivities(acts, parse, now))
  }

  /**
   * One more stored entry adds its minutes exactly when it falls in the current week
   * (at or after Monday 00:00), and nothing otherwise.
   */
  lemma WeeklyMinutesStep(a: ActivityLog.Activity, acts: seq<ActivityLog.Activity>, parse: string -> Instant, now: int)
    ensures WeeklyMinutes([a] + acts, parse, now)
              == WeeklyMinutes(acts, parse, now) + (if Dashboard.InCurrentWeek(a, parse, now) then Dashboard.Minutes(a) else 0)
  {
    assert ([a] + acts)[0] == a;
    assert ([a] + acts)[1..] == acts;
  }

  /** The weekly minutes of two lists together are the sum of their weekly minutes. */
  lemma {:induction false} WeeklyMinutesAppend(xs: seq<ActivityLog.Activity>, ys: seq<ActivityLog.Activity>,
                                               parse: string -> Instant, now: int)
    ensures WeeklyMinutes(xs + ys, parse, now) == WeeklyMinutes(xs, parse, now) + WeeklyMinutes(ys, parse, now)
  {
    if xs == [] {
      assert xs + ys == ys;
    } else {
      assert xs == [xs[0]] + xs[1..];
      assert xs + ys == [xs[0]] + (xs[1..] + ys);
      WeeklyMinutesStep(xs[0], xs[1..] + ys, parse, now);
      WeeklyMinutesStep(xs[0], xs[1..], parse, now);
      WeeklyMinutesAppend(xs[1..], ys, parse, now);
    }
  }

  /**
   * The fallbacks, one entry at a time: an untimestamped entry whose date does not
   * parse counts as now and so adds its minutes; a timestamp that does not parse adds
   * nothing; a duration that is not a number adds 0.
   */
  lemma WeeklyMinutesFallbacks(a: ActivityLog.Activity, acts: seq<ActivityLog.Activity>, parse: string -> Instant, now: int)
    ensures a.timestamp == "" && parse(a.date).Invalid? ==>
              WeeklyMinutes([a] + acts, parse, now) == WeeklyMinutes(acts, parse, now) + Dashboard.Minutes(a)
    ensures a.timestamp != "" && parse(a.timestamp).Invalid? ==>
              WeeklyMinutes([a] + acts, parse, now) == WeeklyMinutes(acts, parse, now)
    ensures JsString.ParseInt(a.duration).None? ==>
              WeeklyMinutes([a] + acts, parse, now) == WeeklyMinutes(acts, parse, now)
  {
    WeeklyMinutesStep(a, acts, parse, now);
    if a.timestamp == "" && parse(a.date).Invalid? {
      Dashboard.UnparsedDateCountsAsNow(a, parse, now);
    }
  }

  /**
   * An entry counts exactly when its instant is valid and on or after the Monday of
   * the week containing now; that Monday is at most six days back, and on a Sunday it
   * is six days back.
   */
  lemma WeeklyMinutesWindow(a: ActivityLog.Activity, parse: string -> Instant, now: int)
    ensures WeeklyMinutes([a], parse, now) == (if Dashboard.InCurrentWeek(a, parse, now) then Dashboard.Minutes(a) else 0)
    ensures Dashboard.InCurrentWeek(a, parse, now) <==>
              Dashboard.WeekInstant(a, parse, now).At? &&
              DayOf(Dashboard.WeekInstant(a, parse, now).minute) >= Dashboard.WeekStartDay(DayOf(now))
    ensures Weekday(Dashboard.WeekStartDay(DayOf(now))) == 1
    ensures Dashboard.WeekStartDay(DayOf(now)) <= DayOf(now) < Dashboard.WeekStartDay(DayOf(now)) + 7
    ensures Weekday(DayOf(now)) == 0 ==> Dashboard.WeekStartDay(DayOf(now)) == DayOf(now) - 6
  {
    WeeklyMinutesStep(a, [], parse, now);
    assert [a] + [] == [a];
    Dashboard.InCurrentWeekByDay(a, parse, now);
    Dashboard.WeekStartIsMonday(DayOf(now));
  }

  /** With every counted duration in [0, d], the weekly total lies between 0 and d per counted activity. */
  lemma WeeklyMinutesBounds(acts: seq<ActivityLog.Activity>, parse: string -> Instant, now: int, d: int)
    requires forall a :: a in acts ==> 0 <= Dashboard.Minutes(a) <= d
    ensures 0 <= WeeklyMinutes(acts, parse, now) <= d * |Dashboard.WeekActivities(acts, parse, now)|
  {
    var week := Dashboard.WeekActivities(acts, parse, now);
    forall a | a in week ensures 0 <= Dashboard.Minutes(a) <= d {
      Dashboard.WeekActivitiesMembers(acts, parse, now, a);
    }
    forall i | 0 <= i < |week| ensures 0 <= Dashboard.Minutes(week[i]) <= d {
      assert week[i] in week;
    }
    Dashboard.TotalMinutesBetween(week, 0, d);
  }

  // ------------------------------------------------------------ placeholders

  const WeeklyMinutesKey: string := "{weeklyMinutes}"
  const PercentageKey: string := "{percentage}"
  const RemainingKey: string := "{remaining}"
  const TitleKey: string := "{goal_status_title}"
  const SubtitleKey: string := "{goal_status_subtitle}"

  /**
   * The chained `replace` calls of `processText`: the five placeholders, each replaced
   * at its first occurrence, in this order; each replacement sees the text the
   * previous one produced.
   */
  function FillIn(text: string, weekly: string, percentage: string, remaining: string,
                  title: string, subtitle: string): string
  {
    var t1 := ReplaceFirst(text, WeeklyMinutesKey, weekly);
    var t2 := ReplaceFirst(t1, PercentageKey, percentage);
    var t3 := ReplaceFirst(t2, RemainingKey, remaining);
    var t4 := ReplaceFirst(t3, TitleKey, title);
    ReplaceFirst(t4, SubtitleKey, subtitle)
  }

  /** `processText`, with the values derived from the week's minutes. */
  function ProcessText(text: string, minutes: int): string
  {
    FillIn(text, IntToString(minutes), IntToString(Percentage(minutes)), IntToString(Remaining(minutes)),
      GoalStatusTitle(minutes), GoalStatusSubtitle(minutes))
  }

  /** A text with none of the placeholders is shown as it is. */
  lemma ProcessTextPlain(text: string, minutes: int)
    requires !Contains(text, WeeklyMinutesKey) && !Contains(text, PercentageKey) && !Contains(text, RemainingKey)
    requires !Contains(text, TitleKey) && !Contains(text, SubtitleKey)
    ensures ProcessText(text, minutes) == text
  {
  }

  /** A pattern with a character the text lacks does not occur in it. */
  lemma MissingChar(s: string, p: string, c: char)
    requires c in p && c !in s
    ensures !Contains(s, p)
  {
    forall i | 0 <= i <= |s| ensures !OccursAt(s, p, i) {
      var k :| 0 <= k < |p| && p[k] == c;
      if i + |p| <= |s| {
        assert s[i..i + |p|][k] == s[i + k];
      }
    }
  }

  /** Number text holds only digits and a minus sign. */
  lemma NumberChars(n: int, c: char)
    requires c != '-' && !IsDigit(c)
    ensures c !in IntToString(n)
  {
    if n < 0 {
      assert IntToString(n) == "-" + NatToString(-n);
    }
  }

  /** Replacing a pattern that does not occur changes nothing. */
  lemma ReplaceAbsent(s: string, p: string, rep: string)
    requires !Contains(s, p)
    ensures ReplaceFirst(s, p, rep) == s
  {
  }

  /** A text that starts with the pattern has that first copy replaced. */
  lemma ReplaceAtStart(p: string, rest: string, rep: string)
    ensures ReplaceFirst(p + rest, p, rep) == rep + rest
  {
    var s := p + rest;
    assert s[0..|p|] == p;
    assert IndexFrom(s, p, 0) == Some(0);
    assert IndexOf(s, p) == Some(0);
    assert ReplaceFirst(s, p, rep) == s[..0] + rep + s[|p|..];
    assert s[..0] == [] && s[|p|..] == rest;
    assert [] + rep + rest == rep + rest;
  }

  /** A text that is exactly the pattern becomes the replacement. */
  lemma ReplaceWhole(p: string, rep: string)
    ensures ReplaceFirst(p, p, rep) == rep
  {
    ReplaceAtStart(p, "", rep);
    assert p + "" == p && rep + "" == rep;
  }

  /** The pattern replaced by a text that lacks a character of a second pattern. */
  lemma ReplaceWholeThenAbsent(p: string, rep: string, q: string, rep2: string, c: char)
    requires c in q && c !in rep
    ensures ReplaceFirst(ReplaceFirst(p, p, rep), q, rep2) == rep
  {
    ReplaceWhole(p, rep);
    MissingChar(rep, q, c);
    ReplaceAbsent(rep, q, rep2);
  }

  /** A text without the letters w, p and r holds none of the three number placeholders. */
  lemma NoNumberKeys(text: string)
    requires 'w' !in text && 'p' !in text && 'r' !in text
    ensures !Contains(text, WeeklyMinutesKey) && !Contains(text, PercentageKey) && !Contains(text, RemainingKey)
  {
    MissingChar(text, WeeklyMinutesKey, 'w');
    MissingChar(text, PercentageKey, 'p');
    MissingChar(text, RemainingKey, 'r');
  }

  /** Without the three number placeholders, only the title and subtitle replacements act. */
  lemma FillInWithoutNumbers(text: string, weekly: string, percentage: string, remaining: string,
                             title: string, subtitle: string)
    requires !Contains(text, WeeklyMinutesKey) && !Contains(text, PercentageKey) && !Contains(text, RemainingKey)
    ensures FillIn(text, weekly, percentage, remaining, title, subtitle)
              == ReplaceFirst(ReplaceFirst(text, TitleKey, title), SubtitleKey, subtitle)
  {
  }

  /** A text that is just the title placeholder becomes the title, when that has no brace. */
  lemma FillInTitle(weekly: string, percentage: string, remaining: string, title: string, subtitle: string)
    requires '{' !in title
    ensures FillIn(TitleKey, weekly, percentage, remaining, title, subtitle) == title
  {
    NoNumberKeys(TitleKey);
    FillInWithoutNumbers(TitleKey, weekly, percentage, remaining, title, subtitle);
    ReplaceWholeThenAbsent(TitleKey, title, SubtitleKey, subtitle, '{');
  }

  /** A text that is just the title placeholder becomes the status title. */
  lemma ProcessTitlePlaceholder(minutes: int)
    ensures ProcessText(TitleKey, minutes) == GoalStatusTitle(minutes)
  {
    FillInTitle(IntToString(minutes), IntToString(Percentage(minutes)), IntToString(Remaining(minutes)),
      GoalStatusTitle(minutes), GoalStatusSubtitle(minutes));
  }

  /** The title placeholder is not found inside the subtitle placeholder. */
  lemma TitleKeyNotInSubtitleKey()
    ensures !Contains(SubtitleKey, TitleKey)
  {
    forall i | 0 <= i <= |SubtitleKey| ensures !OccursAt(SubtitleKey, TitleKey, i) {
      if 0 < i && i + |TitleKey| <= |SubtitleKey| {
        assert SubtitleKey[i..i + |TitleKey|][0] == SubtitleKey[i];
      } else if i == 0 {
        assert SubtitleKey[..|TitleKey|][13] != TitleKey[13];
      }
    }
  }

  /** A text that is just the subtitle placeholder becomes the subtitle. */
  lemma FillInSubtitle(weekly: string, percentage: string, remaining: string, title: string, subtitle: string)
    ensures FillIn(SubtitleKey, weekly, percentage, remaining, title, subtitle) == subtitle
  {
    NoNumberKeys(SubtitleKey);
    FillInWithoutNumbers(SubtitleKey, weekly, percentage, remaining, title, subtitle);
    TitleKeyNotInSubtitleKey();
    ReplaceAbsent(SubtitleKey, TitleKey, title);
    ReplaceWhole(SubtitleKey, subtitle);
  }

  /** A text that is just the subtitle placeholder becomes the status subtitle. */
  lemma ProcessSubtitlePlaceholder(minutes: int)
    ensures ProcessText(SubtitleKey, minutes) == GoalStatusSubtitle(minutes)
  {
    FillInSubtitle(IntToString(minutes), IntToString(Percentage(minutes)), IntToString(Remaining(minutes)),
      GoalStatusTitle(minutes), GoalStatusSubtitle(minutes));
  }

  /** Without the first two placeholders, the chain starts at the remaining-minutes one. */
  lemma FillInFromRemaining(text: string, weekly: string, percentage: string, remaining: string,
                            title: string, subtitle: string)
    requires !Contains(text, WeeklyMinutesKey) && !Contains(text, PercentageKey)
    ensures FillIn(text, weekly, percentage, remaining, title, subtitle)
              == ReplaceFirst(ReplaceFirst(ReplaceFirst(text, RemainingKey, remaining), TitleKey, title), SubtitleKey, subtitle)
  {
  }

  /** A text without the letter o holds neither status placeholder, so their replacements leave it. */
  lemma NoStatusKeys(text: string, title: string, subtitle: string)
    requires 'o' !in text
    ensures ReplaceFirst(ReplaceFirst(text, TitleKey, title), SubtitleKey, subtitle) == text
  {
    MissingChar(text, TitleKey, 'o');
    ReplaceAbsent(text, TitleKey, title);
    MissingChar(text, SubtitleKey, 'o');
    ReplaceAbsent(text, SubtitleKey, subtitle);
  }

  /** Only the first occurrence is filled: a placeholder written twice keeps its second copy. */
  lemma FillInFirstOnly(weekly: string, percentage: string, remaining: string, title: string, subtitle: string)
    requires 'o' !in remaining
    ensures FillIn(RemainingKey + RemainingKey, weekly, percentage, remaining, title, subtitle)
              == remaining + RemainingKey
  {
    var text := RemainingKey + RemainingKey;
    assert 'w' !in RemainingKey && 'p' !in RemainingKey && 'o' !in RemainingKey;
    assert 'w' !in text && 'p' !in text;
    MissingChar(text, WeeklyMinutesKey, 'w');
    MissingChar(text, PercentageKey, 'p');
    FillInFromRemaining(text, weekly, percentage, remaining, title, subtitle);
    var t3 := ReplaceFirst(text, RemainingKey, remaining);
    ReplaceAtStart(RemainingKey, RemainingKey, remaining);
    assert t3 == remaining + RemainingKey;
    assert 'o' !in t3;
    NoStatusKeys(t3, title, subtitle);
  }

  /** The remaining-minutes placeholder written twice: the first copy is filled, the second stays. */
  lemma ProcessTextFirstOnly(minutes: int)
    ensures ProcessText(RemainingKey + RemainingKey, minutes)
              == IntToString(Remaining(minutes)) + RemainingKey
  {
    NumberChars(Remaining(minutes), 'o');
    FillInFirstOnly(IntToString(minutes), IntToString(Percentage(minutes)), IntToString(Remaining(minutes)),
      GoalStatusTitle(minutes), GoalStatusSubtitle(minutes));
  }

  // ------------------------------------------------------------ expand and detail

  /** `toggleExpand`: clicking the expanded item collapses it; any other click expands that item alone. */
  function ToggleExpand(expanded: Option<int>, id: int): (r: Option<int>)
    ensures r == None <==> expanded == Some(id)
    ensures r != None ==> r == Some(id)
  {
    if expanded == Some(id) then None else Some(id)
  }

  /** Clicking the same item twice returns to that item expanded or to a collapsed page. */
  lemma ToggleExpandTwice(expanded: Option<int>, id: int)
    ensures ToggleExpand(ToggleExpand(expanded, id), id) == (if expanded == Some(id) then Some(id) else None)
  {
  }

  /** `toggleDetail`: the id leaves the open set if it was in it, and joins it otherwise. */
  function ToggleDetail(open: set<int>, id: int): (r: set<int>)
  {
    if id in open then open - {id} else open + {id}
  }

  /** Only the given id changes membership, and toggling it twice restores the set. */
  lemma ToggleDetailFlips(open: set<int>, id: int)
    ensures id in ToggleDetail(open, id) <==> id !in open
    ensures forall x :: x != id ==> (x in ToggleDetail(open, id) <==> x in open)
    ensures ToggleDetail(ToggleDetail(open, id), id) == open
  {
  }

  // ------------------------------------------------------------ styles and cards

  datatype StyleClasses = StyleClasses(color: string, bgColor: string, borderColor: string)

  const BlueClasses: StyleClasses :=
    StyleClasses("text-primary-dark dark:text-primary", "bg-[#E0F7FA] dark:bg-primary/20", "border-l-4 border-l-primary")
  const GreenClasses: StyleClasses :=
    StyleClasses("text-emerald-700 dark:text-emerald-400", "bg-emerald-50 dark:bg-emerald-900/20", "border-l-4 border-l-emerald-500")
  const RedClasses: StyleClasses :=
    StyleClasses("text-red-700 dark:text-red-400", "bg-red-50 dark:bg-red-900/20", "border-l-4 border-l-red-500")
  const SlateClasses: StyleClasses :=
    StyleClasses("text-slate-500", "bg-slate-100 dark:bg-slate-800", "border-l-4 border-l-transparent")

  /** `getStyleClasses`. */
  function GetStyleClasses(style: string): StyleClasses
  {
    if style == "blue" then BlueClasses
    else if style == "green" then GreenClasses
    else if style == "red" then RedClasses
    else SlateClasses
  }

  /** The three named colours get their own classes; every other style, "slate" included, gets the slate ones. */
  lemma StyleFallback(style: string)
    ensures style != "blue" && style != "green" && style != "red" ==> GetStyleClasses(style) == SlateClasses
    ensures GetStyleClasses("slate") == SlateClasses
    ensures (GetStyleClasses(style) == SlateClasses) <==> (style != "blue" && style != "green" && style != "red")
  {
  }

  predicate IsShown(n: Admin.NotificationItem)
  {
    n.isVisible
  }

  /** `notifications.filter(n => n.isVisible)`. */
  function VisibleNotifications(ns: seq<Admin.NotificationItem>): seq<Admin.NotificationItem>
  {
    Filter(ns, IsShown)
  }

  /** The visible list holds exactly the visible items, in their original order. */
  lemma VisibleMembers(ns: seq<Admin.NotificationItem>, n: Admin.NotificationItem)
    ensures (n in VisibleNotifications(ns)) <==> (n in ns && n.isVisible)
    ensures forall xs, ys :: ns == xs + ys ==>
              VisibleNotifications(ns) == VisibleNotifications(xs) + VisibleNotifications(ys)
    ensures |VisibleNotifications(ns)| <= |ns|
  {
    FilterMembers(ns, IsShown, n);
    forall xs, ys | ns == xs + ys
      ensures VisibleNotifications(ns) == VisibleNotifications(xs) + VisibleNotifications(ys)
    {
      FilterAppend(xs, ys, IsShown);
    }
  }

  /** On a first visit all four default items are shown. */
  lemma DefaultsAllShown()
    ensures VisibleNotifications(Admin.LoadNotifications(None).shown) == Admin.DefaultNotifications
  {
    Admin.DefaultsNumbered();
    FilterKeepsAll(Admin.DefaultNotifications, IsShown);
  }

  /**
   * One rendered item: its processed title and subtitle; the processed content only
   * when expanded; the processed detail only when its detail is open as well; and the
   * activity-log button only on item 2's open detail.
   */
  datatype Card = Card(
    id: int,
    icon: string,
    classes: StyleClasses,
    title: string,
    subtitle: string,
    content: Option<string>,
    detail: Option<string>,
    logActivityButton: bool)

  function CardOf(note: Admin.NotificationItem, expanded: Option<int>, open: set<int>, minutes: int): (c: Card)
    ensures c.id == note.id && c.classes == GetStyleClasses(note.style)
    ensures c.title == ProcessText(note.title, minutes) && c.subtitle == ProcessText(note.subtitle, minutes)
    ensures c.content.Some? <==> expanded == Some(note.id)
    ensures c.content.Some? ==> c.content.value == ProcessText(note.content, minutes)
    ensures c.detail.Some? <==> expanded == Some(note.id) && note.id in open
    ensures c.detail.Some? ==> c.detail.value == ProcessText(note.detail, minutes)
    ensures c.logActivityButton <==> c.detail.Some? && note.id == 2
  {
    var isExpanded := expanded == Some(note.id);
    var isDetailOpen := note.id in open;
    Card(note.id, note.icon, GetStyleClasses(note.style),
      ProcessText(note.title, minutes), ProcessText(note.subtitle, minutes),
      if isExpanded then Some(ProcessText(note.content, minutes)) else None,
      if isExpanded && isDetailOpen then Some(ProcessText(note.detail, minutes)) else None,
      isExpanded && isDetailOpen && note.id == 2)
  }

  /** The message centre's list: one card per visible item, in order. */
  function Cards(ns: seq<Admin.NotificationItem>, expanded: Option<int>, open: set<int>, minutes: int): (cs: seq<Card>)
    ensures |cs| == |VisibleNotifications(ns)|
    ensures forall i :: 0 <= i < |cs| ==> cs[i] == CardOf(VisibleNotifications(ns)[i], expanded, open, minutes)
  {
    var vs := VisibleNotifications(ns);
    seq(|vs|, i requires 0 <= i < |vs| => CardOf(vs[i], expanded, open, minutes))
  }

  /** With distinct ids, at most one card shows its content. */
  lemma AtMostOneExpanded(ns: seq<Admin.NotificationItem>, expanded: Option<int>, open: set<int>, minutes: int)
    requires forall i, j :: 0 <= i < j < |ns| ==> ns[i].id != ns[j].id
    ensures forall i, j ::
              (0 <= i < |Cards(ns, expanded, open, minutes)| && 0 <= j < |Cards(ns, expanded, open, minutes)|
               && Cards(ns, expanded, open, minutes)[i].content.Some?
               && Cards(ns, expanded, open, minutes)[j].content.Some?) ==> i == j
  {
    var vs := VisibleNotifications(ns);
    var cs := Cards(ns, expanded, open, minutes);
    assert AllDistinct(ns);
    FilterDistinct(ns);
    forall i, j | 0 <= i < |cs| && 0 <= j < |cs| && cs[i].content.Some? && cs[j].content.Some?
      ensures i == j
    {
      assert vs[i].id == expanded.value == vs[j].id;
    }
  }

  predicate AllDistinct(ns: seq<Admin.NotificationItem>)
  {
    forall i, j :: 0 <= i < j < |ns| ==> ns[i].id != ns[j].id
  }

  /** Filtering keeps distinct ids distinct. */
  lemma {:induction false} FilterDistinct(ns: seq<Admin.NotificationItem>)
    requires AllDistinct(ns)
    ensures AllDistinct(VisibleNotifications(ns))
  {
    if ns != [] {
      var rest := ns[1..];
      assert AllDistinct(rest) by {
        forall i, j | 0 <= i < j < |rest| ensures rest[i].id != rest[j].id {
          assert rest[i] == ns[i + 1] && rest[j] == ns[j + 1];
        }
      }
      FilterDistinct(rest);
      var vr := VisibleNotifications(rest);
      forall x | x in vr ensures x.id != ns[0].id {
        FilterMembers(rest, IsShown, x);
        var k :| 0 <= k < |rest| && rest[k] == x;
        assert ns[k + 1] == x;
      }
      assert VisibleNotifications(ns) == (if ns[0].isVisible then [ns[0]] else []) + vr;
      if ns[0].isVisible {
        var v := VisibleNotifications(ns);
        forall i, j | 0 <= i < j < |v| ensures v[i].id != v[j].id {
          if i == 0 {
            assert v[j] == vr[j - 1];
            assert vr[j - 1] in vr;
          } else {
            assert v[i] == vr[i - 1] && v[j] == vr[j - 1];
          }
        }
      }
    }
  }

  // ------------------------------------------------------------ opening the page

  /** The message centre's state after its mount effect. */
  datatype MessageCenter = MessageCenter(
    notifications: seq<Admin.NotificationItem>,
    stored: seq<Admin.NotificationItem>,
    weeklyMinutes: int,
    expanded: Option<int>,
    detailsOpen: set<int>)

  /**
   * Opening the page: the stored feed or the defaults (which are then stored), the
   * week's minutes, item 1 expanded and no detail open.
   */
  function Open(saved: Option<seq<Admin.NotificationItem>>, acts: seq<ActivityLog.Activity>,
                parse: string -> Instant, now: int): (s: MessageCenter)
    ensures s.notifications == s.stored
    ensures saved.Some? ==> s.notifications == saved.value
    ensures saved.None? ==> s.notifications == Admin.DefaultNotifications
    ensures s.weeklyMinutes == Dashboard.ComputeWeeklyStats(acts, parse, now).minutes
    ensures s.expanded == Some(1) && s.detailsOpen == {}
  {
    var loaded := Admin.LoadNotifications(saved);
    MessageCenter(loaded.shown, loaded.stored, WeeklyMinutes(acts, parse, now), Some(1), {})
  }

  /** On a first visit the goal item, number 1, is the one expanded, with the status filled in. */
  lemma FirstVisitShowsGoal(acts: seq<ActivityLog.Activity>, parse: string -> Instant, now: int)
    ensures var s := Open(None, acts, parse, now);
            var cs := Cards(s.notifications, s.expanded, s.detailsOpen, s.weeklyMinutes);
            |cs| == 4 && cs[0].content.Some? && cs[0].detail.None?
            && cs[0].title == GoalStatusTitle(s.weeklyMinutes)
            && cs[0].subtitle == GoalStatusSubtitle(s.weeklyMinutes)
  {
    var s := Open(None, acts, parse, now);
    DefaultsAllShown();
    ProcessTitlePlaceholder(s.weeklyMinutes);
    ProcessSubtitlePlaceholder(s.weeklyMinutes);
  }
}
