/** The duration pass of load_and_parse_data (activity_dashboard.py:159-177):
    every day gets its parsed date, and every activity the minutes since the
    entry logged just below it -- the day's start time for the bottom entry. */
module Durations {
  import opened PyText
  import opened Clock
  import opened Calendar
  import opened LineParse
  import opened Grouping

  /** `duration / 60 if duration else 0`: hours of a duration, where a
      missing and a zero duration both read as zero. */
  function HoursOf(d: Option<nat>): (h: real)
    ensures h == 0.0 <==> d.None? || d.value == 0
    ensures d.Some? ==> h * 60.0 == d.value as real
  {
    if d.Some? && d.value != 0 then d.value as real / 60.0 else 0.0
  }

  function WithDuration(a: Activity, d: Option<nat>): Activity {
    a.(durationMinutes := d, durationHours := HoursOf(d))
  }

  /** The time entry i is measured from: the time of the entry after it in
      the log, or the day's start time for the last entry. */
  function PrecedingTime(start: string, acts: seq<Activity>, i: nat): string
    requires i < |acts|
  {
    if i == |acts| - 1 then start else acts[i + 1].time
  }

  /** The activities of a day with their durations filled in, entry by entry
      from the top of the log. */
  function Timed(start: string, acts: seq<Activity>): (r: seq<Activity>)
    ensures |r| == |acts|
  {
    if acts == [] then []
    else
      var from := if |acts| == 1 then start else acts[1].time;
      [WithDuration(acts[0], CalculateDurationMinutes(from, acts[0].time))] + Timed(start, acts[1..])
  }

  /** Entry i of a timed day is entry i of the log with time, category and
      description unchanged and with the duration from its preceding time. */
  lemma {:induction false} TimedAt(start: string, acts: seq<Activity>, i: nat)
    requires i < |acts|
    ensures var r := Timed(start, acts)[i];
      && r.time == acts[i].time && r.category == acts[i].category && r.description == acts[i].description
      && r.durationMinutes == CalculateDurationMinutes(PrecedingTime(start, acts, i), acts[i].time)
      && r.durationHours == HoursOf(r.durationMinutes)
    decreases i
  {
    if i > 0 {
      TimedAt(start, acts[1..], i - 1);
    }
  }

  /** Every entry of a timed day that has a duration has less than a day, and
      it has one exactly when both its own and its preceding time are valid. */
  lemma TimedBounds(start: string, acts: seq<Activity>, i: nat)
    requires i < |acts|
    ensures var d := Timed(start, acts)[i].durationMinutes;
      && (d.Some? <==> IsClockTime(PrecedingTime(start, acts, i)) && IsClockTime(acts[i].time))
      && (d.Some? ==> d.value < MinutesPerDay)
  {
    TimedAt(start, acts, i);
  }

  /** The duration loop of one day, rewriting each entry in place. */
  method AssignDurations(start: string, activities: seq<Activity>) returns (timed: seq<Activity>)
    ensures timed == Timed(start, activities)
  {
    ghost var target := Timed(start, activities);
    timed := activities;
    var i := 0;
    while i < |timed|
      invariant |timed| == |activities|
      invariant 0 <= i <= |timed|
      invariant forall j :: 0 <= j < i ==> timed[j] == target[j]
      invariant forall j :: i <= j < |timed| ==> timed[j] == activities[j]
    {
      var from;
      if i == |timed| - 1 {
        from := start;
      } else {
        from := timed[i + 1].time;
      }
      var duration := CalculateDurationMinutes(from, timed[i].time);
      TimedAt(start, activities, i);
      timed := timed[i := timed[i].(durationMinutes := duration, durationHours := HoursOf(duration))];
      i := i + 1;
    }
  }

  /** One day after the duration pass: its date parsed and its activities timed. */
  function DeriveDay(d: Day): (r: Day)
    ensures HeaderOf(r) == HeaderOf(d)
    ensures r.parsedDate == ParseDate(d.date)
    ensures r.activities == Timed(d.startTime, d.activities)
    ensures |r.activities| == |d.activities|
    ensures r.parsedDate.Some? <==> IsDateText(d.date)
    ensures r.parsedDate.Some? ==> IsValidDate(r.parsedDate.value)
  {
    d.(parsedDate := ParseDate(d.date), activities := Timed(d.startTime, d.activities))
  }

  function DeriveAll(days: seq<Day>): seq<Day> {
    seq(|days|, i requires 0 <= i < |days| => DeriveDay(days[i]))
  }

  /** The duration pass over days_data, rewriting each day in place. */
  method DeriveDays(days: seq<Day>) returns (derived: seq<Day>)
    ensures derived == DeriveAll(days)
  {
    derived := days;
    var i := 0;
    while i < |derived|
      invariant |derived| == |days|
      invariant 0 <= i <= |derived|
      invariant forall j :: 0 <= j < i ==> derived[j] == DeriveDay(days[j])
      invariant forall j :: i <= j < |derived| ==> derived[j] == days[j]
    {
      var day := derived[i];
      day := day.(parsedDate := ParseDate(day.date));
      var timed := AssignDurations(day.startTime, day.activities);
      derived := derived[i := day.(activities := timed)];
      i := i + 1;
    }
  }

  /** The pass keeps the days' headers and the number of activities. */
  lemma {:induction false} DeriveAllKeeps(days: seq<Day>)
    ensures |DeriveAll(days)| == |days|
    ensures DayHeaders(DeriveAll(days)) == DayHeaders(days)
    ensures |AllActivities(DeriveAll(days))| == |AllActivities(days)|
  {
    if days != [] {
      var derived := DeriveAll(days);
      assert derived[0] == DeriveDay(days[0]);
      assert derived[1..] == DeriveAll(days[1..]);
      DeriveAllKeeps(days[1..]);
    }
  }

  function Reverse<T>(s: seq<T>): (r: seq<T>)
    ensures |r| == |s|
  {
    if s == [] then [] else Reverse(s[1..]) + [s[0]]
  }

  lemma {:induction false} ReverseAt<T>(s: seq<T>, k: nat)
    requires k < |s|
    ensures Reverse(s)[k] == s[|s| - 1 - k]
  {
    if k < |s| - 1 {
      ReverseAt(s[1..], k);
    }
  }

  function TimesOf(acts: seq<Activity>): (ts: seq<string>)
    ensures |ts| == |acts|
  {
    seq(|acts|, i requires 0 <= i < |acts| => acts[i].time)
  }

  function MinutesOf(acts: seq<Activity>): (ds: seq<Option<nat>>)
    ensures |ds| == |acts|
  {
    seq(|acts|, i requires 0 <= i < |acts| => acts[i].durationMinutes)
  }

  /** Reference definition in time order: with the entries' times listed
      earliest first, each entry lasts from the previous event -- the day's
      start for the first -- up to its own time. */
  function ChronoGaps(prev: string, times: seq<string>): (gs: seq<Option<nat>>)
    ensures |gs| == |times|
    decreases |times|
  {
    if times == [] then [] else [CalculateDurationMinutes(prev, times[0])] + ChronoGaps(times[0], times[1..])
  }

  lemma {:induction false} ChronoGapsAt(prev: string, times: seq<string>, k: nat)
    requires k < |times|
    ensures ChronoGaps(prev, times)[k] == CalculateDurationMinutes(if k == 0 then prev else times[k - 1], times[k])
    decreases k
  {
    if k > 0 {
      ChronoGapsAt(times[0], times[1..], k - 1);
    }
  }

  /** The log lists a day's entries latest first. Read bottom-up, in the
      order they happened, the pass gives each entry the gap since the event
      before it, starting from the day's start time. */
  lemma DurationsAreChronologicalGaps(start: string, acts: seq<Activity>)
    ensures MinutesOf(Timed(start, acts)) == Reverse(ChronoGaps(start, Reverse(TimesOf(acts))))
  {
    forall i | 0 <= i < |acts|
      ensures MinutesOf(Timed(start, acts))[i] == Reverse(ChronoGaps(start, Reverse(TimesOf(acts))))[i]
    {
      ChronologicalGapAt(start, acts, i);
    }
  }

  lemma ChronologicalGapAt(start: string, acts: seq<Activity>, i: nat)
    requires i < |acts|
    ensures MinutesOf(Timed(start, acts))[i] == Reverse(ChronoGaps(start, Reverse(TimesOf(acts))))[i]
  {
    var chrono := Reverse(TimesOf(acts));
    var k := |acts| - 1 - i;
    TimedAt(start, acts, i);
    ReverseAt(ChronoGaps(start, chrono), i);
    ChronoGapsAt(start, chrono, k);
    ChronoTime(acts, k);
    if k > 0 {
      ChronoTime(acts, k - 1);
    }
  }

  /** Time k in time order is entry k from the bottom of the log. */
  lemma ChronoTime(acts: seq<Activity>, k: nat)
    requires k < |acts|
    ensures Reverse(TimesOf(acts))[k] == acts[|acts| - 1 - k].time
  {
    ReverseAt(TimesOf(acts), k);
  }

  /** A log that reads, from the top: 2200 study, 2000 call, 1800 lo. */
  function ExampleLog(): seq<Activity> {
    [Activity("2200", "P", "study", None, 0.0), Activity("2000", "S", "call", None, 0.0),
     Activity("1800", "R", "lo", None, 0.0)]
  }

  /** For a day starting at 1800, each entry of the example log gets the gap
      from the entry below it and the bottom entry the gap from the start
      time: 120, 120 and 0 minutes. */
  lemma LogOrderExample()
    ensures var t := Timed("1800", ExampleLog());
      && t[0].durationMinutes == Some(120) && t[0].durationHours == 2.0
      && t[1].durationMinutes == Some(120) && t[1].durationHours == 2.0
      && t[2].durationMinutes == Some(0) && t[2].durationHours == 0.0
  {
    ExampleEntry(0);
    ExampleEntry(1);
    ExampleEntry(2);
  }

  lemma ExampleEntry(i: nat)
    requires i < 3
    ensures var t := Timed("1800", ExampleLog())[i];
      && t.durationMinutes == (if i == 2 then Some(0) else Some(120))
      && t.durationHours == HoursOf(t.durationMinutes)
  {
    TimedAt("1800", ExampleLog(), i);
    ExampleGaps();
  }

  lemma ExampleGaps()
    ensures CalculateDurationMinutes("2000", "2200") == Some(120)
    ensures CalculateDurationMinutes("1800", "2000") == Some(120)
    ensures CalculateDurationMinutes("1800", "1800") == Some(0)
  {
    TimeRoundTrip(1320);
    TimeRoundTrip(1200);
    TimeRoundTrip(1080);
    assert FormatHHMM(1320) == "2200";
    assert FormatHHMM(1200) == "2000";
    assert FormatHHMM(1080) == "1800";
    DurationIsUniqueGap("2000", "2200", 120);
    DurationIsUniqueGap("1800", "2000", 120);
    DurationOfSameTime("1800");
  }
}
