/** The grouping loop of load_and_parse_data (activity_dashboard.py:130-157):
    every header line opens a day, and the record lines that follow it, up to
    the next header, become that day's activities in file order. */
module Grouping {
  import opened PyText
  import opened LineParse
  import opened Calendar

  /** One entry of days_data. parsedDate is None until the duration pass
      fills it in with parse_date of the header date. */
  datatype Day = Day(
    date: string,
    dayOfWeek: string,
    startTime: string,
    endTime: string,
    activities: seq<Activity>,
    parsedDate: Option<Date>)

  /** How the loop reads one line once it is stripped. */
  datatype LineKind = Blank | Header(header: DayHeader) | Record(activity: Activity) | Other

  /** A blank line is skipped; otherwise the header parser is tried first and
      the record parser only when the line is not a header. The loop strips
      the line before the parsers strip it again, which changes nothing. */
  function Classify(raw: string): (k: LineKind)
    ensures k.Blank? <==> Strip(raw) == []
    ensures k.Header? <==> Strip(raw) != [] && ParseDayHeader(raw).Some?
    ensures k.Header? ==> ParseDayHeader(raw) == Some(k.header)
    ensures k.Record? <==> Strip(raw) != [] && ParseDayHeader(raw).None? && ParseActivityRecord(raw).Some?
    ensures k.Record? ==> ParseActivityRecord(raw) == Some(k.activity)
  {
    var line := Strip(raw);
    StripStripped(line);
    if line == [] then Blank
    else match ParseDayHeader(line)
      case Some(h) => Header(h)
      case None =>
        match ParseActivityRecord(line)
        case Some(a) => Record(a)
        case None => Other
  }

  /** The classification of every line, in file order. */
  function Kinds(lines: seq<string>): (ks: seq<LineKind>)
    ensures |ks| == |lines|
  {
    if lines == [] then [] else [Classify(lines[0])] + Kinds(lines[1..])
  }

  /** The day a header opens, with no activities yet. */
  function OpenDay(h: DayHeader): (d: Day)
    ensures d.activities == [] && d.parsedDate == None
  {
    Day(h.date, h.dayOfWeek, h.startTime, h.endTime, [], None)
  }

  function HeaderOf(d: Day): DayHeader {
    DayHeader(d.date, d.dayOfWeek, d.startTime, d.endTime)
  }

  /** The records that come before the first header. */
  function LeadingActivities(ks: seq<LineKind>): seq<Activity>
  {
    if ks == [] then []
    else match ks[0]
      case Header(_) => []
      case Record(a) => [a] + LeadingActivities(ks[1..])
      case _ => LeadingActivities(ks[1..])
  }

  /** The days of a file: one per header line, holding the records up to the
      next header. Records before the first header belong to no day. */
  function DaysOf(ks: seq<LineKind>): seq<Day>
  {
    if ks == [] then []
    else match ks[0]
      case Header(h) => [OpenDay(h).(activities := LeadingActivities(ks[1..]))] + DaysOf(ks[1..])
      case _ => DaysOf(ks[1..])
  }

  /** The headers of all header lines, in file order. */
  function HeaderLines(ks: seq<LineKind>): seq<DayHeader>
  {
    if ks == [] then []
    else match ks[0]
      case Header(h) => [h] + HeaderLines(ks[1..])
      case _ => HeaderLines(ks[1..])
  }

  /** The activities of all record lines, in file order. */
  function RecordLines(ks: seq<LineKind>): seq<Activity>
  {
    if ks == [] then []
    else match ks[0]
      case Record(a) => [a] + RecordLines(ks[1..])
      case _ => RecordLines(ks[1..])
  }

  function DayHeaders(days: seq<Day>): seq<DayHeader>
  {
    if days == [] then [] else [HeaderOf(days[0])] + DayHeaders(days[1..])
  }

  /** All activities of all days, day by day. */
  function AllActivities(days: seq<Day>): seq<Activity>
  {
    if days == [] then [] else days[0].activities + AllActivities(days[1..])
  }

  /** What the loop still emits from the open day current and the lines ks. */
  function Pending(current: Option<Day>, ks: seq<LineKind>): seq<Day>
  {
    match current
    case None => DaysOf(ks)
    case Some(d) => [d.(activities := d.activities + LeadingActivities(ks))] + DaysOf(ks)
  }

  /** A header line closes the open day and opens its own. */
  lemma PendingHeader(days: seq<Day>, current: Option<Day>, ks: seq<LineKind>, h: DayHeader)
    requires ks != [] && ks[0] == Header(h)
    ensures days + Pending(current, ks)
      == (if current.Some? then days + [current.value] else days) + Pending(Some(OpenDay(h)), ks[1..])
  {
    var started := OpenDay(h).(activities := LeadingActivities(ks[1..]));
    assert Pending(Some(OpenDay(h)), ks[1..]) == [started] + DaysOf(ks[1..]) by {
      assert [] + LeadingActivities(ks[1..]) == LeadingActivities(ks[1..]);
    }
    if current.Some? {
      assert current.value.activities + [] == current.value.activities;
    }
  }

  /** A record line joins the open day, if there is one. */
  lemma PendingRecord(current: Option<Day>, ks: seq<LineKind>, a: Activity)
    requires ks != [] && ks[0] == Record(a)
    ensures Pending(current, ks) == Pending(
      if current.Some? then Some(current.value.(activities := current.value.activities + [a])) else None,
      ks[1..])
  {
    if current.Some? {
      var acts := current.value.activities;
      assert acts + ([a] + LeadingActivities(ks[1..])) == (acts + [a]) + LeadingActivities(ks[1..]);
    }
  }

  /** The grouping loop: a current-day accumulator that a header closes and
      replaces, and that is emitted once more after the last line. */
  method GroupDays(lines: seq<string>) returns (days: seq<Day>)
    ensures days == DaysOf(Kinds(lines))
  {
    days := [];
    var current: Option<Day> := None;
    var i := 0;
    while i < |lines|
      invariant 0 <= i <= |lines|
      invariant current.None? ==> days == []
      invariant days + Pending(current, Kinds(lines[i..])) == DaysOf(Kinds(lines))
    {
      KindsStep(lines, i);
      days, current := ReadLine(days, current, lines[i], Kinds(lines[i..]));
      i := i + 1;
    }
    PendingEnd(days, current, Kinds(lines[i..]));
    if current.Some? {
      days := days + [current.value];
    }
  }

  /** After the last line the open day is emitted as it stands. */
  lemma PendingEnd(days: seq<Day>, current: Option<Day>, ks: seq<LineKind>)
    requires ks == []
    ensures days + Pending(current, ks) == if current.Some? then days + [current.value] else days
  {
    if current.Some? {
      assert current.value.activities + [] == current.value.activities;
    }
  }

  /** One pass of the loop body on a line of the given kind: blank and
      unparseable lines change nothing, a header closes the open day and
      opens its own, and a record joins the open day if there is one. */
  method ReadLine(days: seq<Day>, current: Option<Day>, line: string, ghost ks: seq<LineKind>)
    returns (days': seq<Day>, current': Option<Day>)
    requires ks != [] && ks[0] == Classify(line)
    requires current.None? ==> days == []
    ensures current'.None? ==> days' == []
    ensures days' + Pending(current', ks[1..]) == days + Pending(current, ks)
  {
    var kind := Classify(line);
    days', current' := days, current;
    match kind {
      case Blank =>
      case Header(h) =>
        PendingHeader(days, current, ks, h);
        if current.Some? {
          days' := days + [current.value];
        }
        current' := Some(OpenDay(h));
      case Record(a) =>
        PendingRecord(current, ks, a);
        if current.Some? {
          current' := Some(current.value.(activities := current.value.activities + [a]));
        }
      case Other =>
    }
  }

  /** One day per header line, carrying that line's header, in file order. */
  lemma {:induction false} DaysMatchHeaders(ks: seq<LineKind>)
    ensures DayHeaders(DaysOf(ks)) == HeaderLines(ks)
    ensures |DaysOf(ks)| == |HeaderLines(ks)|
  {
    if ks != [] {
      DaysMatchHeaders(ks[1..]);
    }
  }

  /** Every record line after the first header lands in exactly one day, in
      file order; the records before the first header are the only ones dropped. */
  lemma {:induction false} ActivitiesPartition(ks: seq<LineKind>)
    ensures LeadingActivities(ks) + AllActivities(DaysOf(ks)) == RecordLines(ks)
  {
    if ks != [] {
      ActivitiesPartition(ks[1..]);
      match ks[0]
      case Header(h) =>
      case Record(a) =>
        assert [a] + LeadingActivities(ks[1..]) + AllActivities(DaysOf(ks[1..]))
          == [a] + (LeadingActivities(ks[1..]) + AllActivities(DaysOf(ks[1..])));
      case Blank =>
      case Other =>
    }
  }

  /** A blank or unparsable line does not affect any day. */
  lemma {:induction false} SkippedLineInert(a: seq<LineKind>, k: LineKind, b: seq<LineKind>)
    requires k.Blank? || k.Other?
    ensures DaysOf(a + [k] + b) == DaysOf(a + b)
    ensures LeadingActivities(a + [k] + b) == LeadingActivities(a + b)
  {
    if a == [] {
      assert (a + [k] + b)[1..] == a + b;
    } else {
      SkippedLineInert(a[1..], k, b);
      assert (a + [k] + b)[1..] == a[1..] + [k] + b;
      assert (a + b)[1..] == a[1..] + b;
      assert (a + [k] + b)[0] == (a + b)[0] == a[0];
    }
  }

  /** The records before a header stay out of the day that header opens. */
  lemma {:induction false} LeadingBeforeHeader(a: seq<LineKind>, b: seq<LineKind>)
    requires b != [] && b[0].Header?
    ensures LeadingActivities(a + b) == LeadingActivities(a)
  {
    if a == [] {
      assert a + b == b;
    } else {
      LeadingBeforeHeader(a[1..], b);
      assert (a + b)[1..] == a[1..] + b;
      assert (a + b)[0] == a[0];
    }
  }

  /** The days of a file cut just before a header line are the days of the
      two parts: no day reaches across a header. */
  lemma {:induction false} SplitAtHeader(a: seq<LineKind>, b: seq<LineKind>)
    requires b != [] && b[0].Header?
    ensures DaysOf(a + b) == DaysOf(a) + DaysOf(b)
  {
    if a == [] {
      assert a + b == b;
    } else {
      var ab := a + b;
      assert ab[1..] == a[1..] + b && ab[0] == a[0];
      SplitAtHeader(a[1..], b);
      if a[0].Header? {
        LeadingBeforeHeader(a[1..], b);
        var first := OpenDay(a[0].header).(activities := LeadingActivities(a[1..]));
        assert DaysOf(ab) == [first] + (DaysOf(a[1..]) + DaysOf(b));
        assert DaysOf(a) == [first] + DaysOf(a[1..]);
      }
    }
  }

  /** Without a header, lines open no day and all their records are leading. */
  lemma {:induction false} NoHeaderLines(b: seq<LineKind>)
    requires HeaderLines(b) == []
    ensures DaysOf(b) == [] && LeadingActivities(b) == RecordLines(b)
  {
    if b != [] {
      NoHeaderLines(b[1..]);
    }
  }

  /** The last header's day is emitted, and it holds exactly the records that
      follow that header. */
  lemma LastDay(a: seq<LineKind>, h: DayHeader, b: seq<LineKind>)
    requires HeaderLines(b) == []
    ensures DaysOf(a + [Header(h)] + b) == DaysOf(a) + [OpenDay(h).(activities := RecordLines(b))]
  {
    var tail := [Header(h)] + b;
    assert a + [Header(h)] + b == a + tail;
    SplitAtHeader(a, tail);
    assert tail[1..] == b;
    NoHeaderLines(b);
  }

  lemma KindsStep(lines: seq<string>, i: nat)
    requires i < |lines|
    ensures var rest := Kinds(lines[i..]); rest != [] && rest[0] == Classify(lines[i]) && rest[1..] == Kinds(lines[i + 1..])
  {
    assert lines[i..][1..] == lines[i + 1..];
  }
}
