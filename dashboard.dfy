/** load_and_parse_data (activity_dashboard.py:54-225): the diary text in, the
    activities table, the sleep table and the list of days out. */
module Dashboard {
  import opened PyText
  import opened LineParse
  import opened Grouping
  import opened Durations
  import opened Tables
  import opened Sleep

  /** The lines of the diary: the text stripped, then cut at every newline. */
  function Lines(content: string): (ls: seq<string>)
    ensures |ls| >= 1 && Join(ls, '\n') == Strip(content)
    ensures forall l :: l in ls ==> '\n' !in l
  {
    JoinSplit(Strip(content), '\n');
    Split(Strip(content), '\n')
  }

  /** The three results, as functions of the text. */
  function DaysOfContent(content: string): seq<Day> {
    DeriveAll(DaysOf(Kinds(Lines(content))))
  }

  function SleepOfDays(days: seq<Day>): seq<SleepRecord> {
    SleepRecords(SortByDate(Dated(days)))
  }

  method LoadAndParseData(content: string)
    returns (activitiesTable: seq<ActivityRow>, sleepTable: seq<SleepRecord>, days: seq<Day>)
    ensures days == DaysOfContent(content)
    ensures activitiesTable == FlatRows(days)
    ensures sleepTable == SleepOfDays(days)
  {
    var lines := Lines(content);
    var grouped := GroupDays(lines);
    days := DeriveDays(grouped);
    activitiesTable := FlattenActivities(days);
    var sorted := SortByDate(Dated(days));
    sleepTable := BuildSleepRecords(sorted);
  }

  /** One day per header line of the text, carrying that line's header in
      file order; one activity row per record line that follows some
      header; at most one sleep row per pair of consecutive dated days. */
  lemma DashboardShape(content: string)
    ensures var ks := Kinds(Lines(content)); var days := DaysOfContent(content);
      && DayHeaders(days) == HeaderLines(ks)
      && |days| == |HeaderLines(ks)|
      && |FlatRows(days)| == |RecordLines(ks)| - |LeadingActivities(ks)|
      && |SleepOfDays(days)| <= if |Dated(days)| < 2 then 0 else |Dated(days)| - 1
  {
    var ks := Kinds(Lines(content));
    var grouped := DaysOf(ks);
    var days := DeriveAll(grouped);
    DaysMatchHeaders(ks);
    DeriveAllKeeps(grouped);
    ActivitiesPartition(ks);
    RowsAreActivities(days);
    var sorted := SortByDate(Dated(days));
    SleepCount(sorted);
  }
}
