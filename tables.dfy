/** The flattening pass of load_and_parse_data (activity_dashboard.py:179-195):
    one row per activity, carrying its day's header fields, in day order and
    then log order. */
module Tables {
  import opened PyText
  import opened Calendar
  import opened LineParse
  import opened Categories
  import opened Grouping

  /** One row of the activities table. */
  datatype ActivityRow = ActivityRow(
    date: string,
    parsedDate: Option<Date>,
    dayOfWeek: string,
    startTime: string,
    endTime: string,
    activityTime: string,
    category: string,
    categoryName: string,
    description: string,
    durationMinutes: Option<nat>,
    durationHours: real)

  /** The row of activity a of day d: the activity's own fields come back
      out of it unchanged, and its category name is the table's name for the
      code, Unknown exactly for a code outside the table. */
  function RowOf(d: Day, a: Activity): (r: ActivityRow)
    ensures ActivityOf(r) == a
    ensures r.categoryName == CategoryName(a.category)
    ensures a.category in ActivityCategories ==> r.categoryName == ActivityCategories[a.category]
    ensures r.categoryName == "Unknown" <==> a.category !in ActivityCategories
    ensures r.date == d.date && r.parsedDate == d.parsedDate && r.dayOfWeek == d.dayOfWeek
    ensures r.startTime == d.startTime && r.endTime == d.endTime
  {
    ActivityRow(d.date, d.parsedDate, d.dayOfWeek, d.startTime, d.endTime,
      a.time, a.category, CategoryName(a.category), a.description,
      a.durationMinutes, a.durationHours)
  }

  /** The activity a row was made from. */
  function ActivityOf(r: ActivityRow): Activity {
    Activity(r.activityTime, r.category, r.description, r.durationMinutes, r.durationHours)
  }

  /** The rows of the activities acts of day d. */
  function DayRows(d: Day, acts: seq<Activity>): (rows: seq<ActivityRow>)
    ensures |rows| == |acts|
  {
    if acts == [] then [] else [RowOf(d, acts[0])] + DayRows(d, acts[1..])
  }

  /** The rows of all days, day by day. */
  function FlatRows(days: seq<Day>): seq<ActivityRow>
  {
    if days == [] then [] else DayRows(days[0], days[0].activities) + FlatRows(days[1..])
  }

  function ActivitiesOf(rows: seq<ActivityRow>): seq<Activity>
  {
    if rows == [] then [] else [ActivityOf(rows[0])] + ActivitiesOf(rows[1..])
  }

  /** The append loop over days and their activities. */
  method FlattenActivities(days: seq<Day>) returns (rows: seq<ActivityRow>)
    ensures rows == FlatRows(days)
  {
    rows := [];
    var i := 0;
    while i < |days|
      invariant 0 <= i <= |days|
      invariant rows + FlatRows(days[i..]) == FlatRows(days)
    {
      DayStep(rows, days, i);
      rows := AppendDayRows(rows, days[i]);
      i := i + 1;
    }
  }

  /** The inner loop: one row per activity of day d, appended to rows. */
  method AppendDayRows(rows: seq<ActivityRow>, d: Day) returns (out: seq<ActivityRow>)
    ensures out == rows + DayRows(d, d.activities)
  {
    out := rows;
    var j := 0;
    while j < |d.activities|
      invariant 0 <= j <= |d.activities|
      invariant out + DayRows(d, d.activities[j..]) == rows + DayRows(d, d.activities)
    {
      RowStep(out, d, d.activities, j);
      out := out + [RowOf(d, d.activities[j])];
      j := j + 1;
    }
    assert d.activities[j..] == [];
  }

  lemma DayStep(rows: seq<ActivityRow>, days: seq<Day>, i: nat)
    requires i < |days|
    ensures rows + FlatRows(days[i..]) == rows + DayRows(days[i], days[i].activities) + FlatRows(days[i + 1..])
  {
    assert days[i..][1..] == days[i + 1..];
  }

  lemma RowStep(rows: seq<ActivityRow>, d: Day, acts: seq<Activity>, j: nat)
    requires j < |acts|
    ensures rows + DayRows(d, acts[j..]) == (rows + [RowOf(d, acts[j])]) + DayRows(d, acts[j + 1..])
  {
    assert acts[j..][1..] == acts[j + 1..];
  }

  lemma {:induction false} DayRowsKeepActivities(d: Day, acts: seq<Activity>)
    ensures ActivitiesOf(DayRows(d, acts)) == acts
  {
    if acts != [] {
      DayRowsKeepActivities(d, acts[1..]);
    }
  }

  lemma {:induction false} ActivitiesOfConcat(a: seq<ActivityRow>, b: seq<ActivityRow>)
    ensures ActivitiesOf(a + b) == ActivitiesOf(a) + ActivitiesOf(b)
  {
    var ab := a + b;
    if a == [] {
      assert ab == b;
    } else {
      assert ab[0] == a[0] && ab[1..] == a[1..] + b;
      ActivitiesOfConcat(a[1..], b);
      assert ActivitiesOf(ab) == [ActivityOf(a[0])] + ActivitiesOf(a[1..] + b);
    }
  }

  /** The table holds exactly one row per activity of the days, in day order
      and then log order, and each row carries its activity's fields unchanged. */
  lemma {:induction false} RowsAreActivities(days: seq<Day>)
    ensures ActivitiesOf(FlatRows(days)) == AllActivities(days)
    ensures |FlatRows(days)| == |AllActivities(days)|
  {
    if days != [] {
      RowsAreActivities(days[1..]);
      DayRowsKeepActivities(days[0], days[0].activities);
      ActivitiesOfConcat(DayRows(days[0], days[0].activities), FlatRows(days[1..]));
    }
  }

  lemma {:induction false} DayRowsAt(d: Day, acts: seq<Activity>, k: nat)
    requires k < |acts|
    ensures DayRows(d, acts)[k] == RowOf(d, acts[k])
  {
    if k > 0 {
      DayRowsAt(d, acts[1..], k - 1);
    }
  }

  /** Activity k of day j is the row after all rows of the earlier days, and
      it carries day j's header fields and parsed date. */
  lemma {:induction false} FlatRowsAt(days: seq<Day>, j: nat, k: nat)
    requires j < |days| && k < |days[j].activities|
    ensures var n := |AllActivities(days[..j])| + k;
      n < |FlatRows(days)| && FlatRows(days)[n] == RowOf(days[j], days[j].activities[k])
  {
    var first := DayRows(days[0], days[0].activities);
    var later := FlatRows(days[1..]);
    assert FlatRows(days) == first + later;
    if j == 0 {
      assert days[..0] == [];
      DayRowsAt(days[0], days[0].activities, k);
    } else {
      assert days[..j][1..] == days[1..][..j - 1];
      assert |AllActivities(days[..j])| == |first| + |AllActivities(days[1..][..j - 1])|;
      FlatRowsAt(days[1..], j - 1, k);
    }
  }
}
