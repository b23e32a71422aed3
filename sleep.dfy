/** The sleep pass of load_and_parse_data (activity_dashboard.py:199-221):
    the days with a parsed date, in date order, and for each pair of
    consecutive such days the gap from the first day's end time to the next
    day's start time. */
module Sleep {
  import opened PyText
  import opened Clock
  import opened Calendar
  import opened Grouping

  /** One row of the sleep table. */
  datatype SleepRecord = SleepRecord(currentDate: string, nextDate: string, sleepDurationHours: real)

  predicate AllDated(s: seq<Day>) {
    forall i :: 0 <= i < |s| ==> s[i].parsedDate.Some?
  }

  /** The days whose parsed date is present, in their order. */
  function Dated(days: seq<Day>): (r: seq<Day>)
    ensures AllDated(r) && |r| <= |days|
  {
    if days == [] then []
    else if days[0].parsedDate.Some? then [days[0]] + Dated(days[1..])
    else Dated(days[1..])
  }

  /** A day is kept exactly when it has a parsed date. */
  lemma {:induction false} DatedMembers(days: seq<Day>, d: Day)
    ensures d in Dated(days) <==> d in days && d.parsedDate.Some?
  {
    if days != [] {
      DatedMembers(days[1..], d);
      assert days == [days[0]] + days[1..];
    }
  }

  /** The filter keeps the dated days in their order: filtering two pieces
      of a list one after the other gives the filter of the whole. */
  lemma {:induction false} DatedAppend(a: seq<Day>, b: seq<Day>)
    ensures Dated(a + b) == Dated(a) + Dated(b)
  {
    if a != [] {
      assert (a + b)[0] == a[0];
      assert (a + b)[1..] == a[1..] + b;
      DatedAppend(a[1..], b);
    } else {
      assert a + b == b;
    }
  }

  /** The sort key of a dated day. */
  function Key(d: Day): Date
    requires d.parsedDate.Some?
  {
    d.parsedDate.value
  }

  predicate Sorted(s: seq<Day>) {
    AllDated(s) && forall i, j :: 0 <= i < j < |s| ==> DateLe(Key(s[i]), Key(s[j]))
  }

  /** d placed before the first day of s not earlier than it. */
  function Insert(d: Day, s: seq<Day>): (r: seq<Day>)
    requires d.parsedDate.Some? && AllDated(s)
    ensures AllDated(r) && |r| == |s| + 1
  {
    if s == [] then [d]
    else if DateLe(Key(d), Key(s[0])) then [d] + s
    else [s[0]] + Insert(d, s[1..])
  }

  /** sorted() with the parsed date as key: a stable sort, written as an
      insertion sort from the back of the list. */
  function SortByDate(s: seq<Day>): (r: seq<Day>)
    requires AllDated(s)
    ensures Sorted(r) && |r| == |s|
    ensures multiset(r) == multiset(s)
  {
    if s == [] then []
    else
      var rest := SortByDate(s[1..]);
      SortStep(s, rest);
      Insert(s[0], rest)
  }

  /** Inserting the head into the sorted tail sorts the whole list. */
  lemma SortStep(s: seq<Day>, rest: seq<Day>)
    requires AllDated(s) && s != [] && Sorted(rest)
    requires multiset(rest) == multiset(s[1..])
    ensures Sorted(Insert(s[0], rest)) && |Insert(s[0], rest)| == |s|
    ensures multiset(Insert(s[0], rest)) == multiset(s)
  {
    InsertSorted(s[0], rest);
    InsertPermutes(s[0], rest);
    assert s == [s[0]] + s[1..];
  }

  /** b is no later than any day of s. */
  predicate LowerBound(b: Date, s: seq<Day>) {
    AllDated(s) && forall i :: 0 <= i < |s| ==> DateLe(b, Key(s[i]))
  }

  lemma SortedCons(x: Day, t: seq<Day>)
    requires x.parsedDate.Some? && LowerBound(Key(x), t) && Sorted(t)
    ensures Sorted([x] + t)
  {
    var r := [x] + t;
    forall i, j | 0 <= i < j < |r| ensures DateLe(Key(r[i]), Key(r[j])) {
      if i > 0 {
        assert r[i] == t[i - 1] && r[j] == t[j - 1];
      }
    }
  }

  lemma {:induction false} InsertBound(b: Date, d: Day, s: seq<Day>)
    requires d.parsedDate.Some? && DateLe(b, Key(d)) && LowerBound(b, s)
    ensures LowerBound(b, Insert(d, s))
  {
    if s != [] && !DateLe(Key(d), Key(s[0])) {
      InsertBound(b, d, s[1..]);
      var r := Insert(d, s);
      assert r == [s[0]] + Insert(d, s[1..]);
    }
  }

  lemma {:induction false} InsertSorted(d: Day, s: seq<Day>)
    requires d.parsedDate.Some? && Sorted(s)
    ensures Sorted(Insert(d, s))
  {
    if s == [] {
    } else if DateLe(Key(d), Key(s[0])) {
      forall i | 0 <= i < |s| ensures DateLe(Key(d), Key(s[i])) {
        DateLeTotalOrder(Key(d), Key(s[0]), Key(s[i]));
      }
      SortedCons(d, s);
    } else {
      var t := s[1..];
      InsertSorted(d, t);
      DateLeTotalOrder(Key(s[0]), Key(d), Key(d));
      assert LowerBound(Key(s[0]), t) by {
        forall i | 0 <= i < |t| ensures DateLe(Key(s[0]), Key(t[i])) {
          assert t[i] == s[i + 1];
        }
      }
      InsertBound(Key(s[0]), d, t);
      SortedCons(s[0], Insert(d, t));
    }
  }

  lemma {:induction false} InsertPermutes(d: Day, s: seq<Day>)
    requires d.parsedDate.Some? && AllDated(s)
    ensures multiset(Insert(d, s)) == multiset(s) + multiset{d}
  {
    if s != [] && !DateLe(Key(d), Key(s[0])) {
      InsertPermutes(d, s[1..]);
      assert s == [s[0]] + s[1..];
    }
  }



  /** The days of s dated x, in their order. */
  function SameDate(s: seq<Day>, x: Date): seq<Day>
    requires AllDated(s)
  {
    if s == [] then []
    else (if Key(s[0]) == x then [s[0]] else []) + SameDate(s[1..], x)
  }

  /** Insert puts d ahead of every day with its date and behind every other
      day it passes, so among days of one date d comes first. */
  lemma {:induction false} InsertSameDate(d: Day, s: seq<Day>, x: Date)
    requires d.parsedDate.Some? && AllDated(s)
    ensures SameDate(Insert(d, s), x) == (if Key(d) == x then [d] else []) + SameDate(s, x)
  {
    var r := Insert(d, s);
    if s == [] {
    } else if DateLe(Key(d), Key(s[0])) {
      assert r[1..] == s;
    } else {
      InsertSameDate(d, s[1..], x);
      assert r[1..] == Insert(d, s[1..]);
      assert Key(s[0]) != Key(d);
    }
  }

  /** sorted() is stable: days that share a date keep their relative order. */
  lemma {:induction false} SortByDateStable(s: seq<Day>, x: Date)
    requires AllDated(s)
    ensures SameDate(SortByDate(s), x) == SameDate(s, x)
  {
    if s != [] {
      SortByDateStable(s[1..], x);
      InsertSameDate(s[0], SortByDate(s[1..]), x);
    }
  }

  /** The record of one pair of consecutive dated days: present exactly when
      both the first day's end time and the next day's start time are valid,
      and then the forward gap between them, in hours. */
  function PairRecord(cur: Day, next: Day): (r: seq<SleepRecord>)
    ensures |r| <= 1
    ensures r != [] <==> IsClockTime(cur.endTime) && IsClockTime(next.startTime)
    ensures r != [] ==>
      && r[0].currentDate == cur.date && r[0].nextDate == next.date
      && r[0].sleepDurationHours * 60.0 == CalculateDurationMinutes(cur.endTime, next.startTime).value as real
      && 0.0 <= r[0].sleepDurationHours < 24.0
  {
    match CalculateDurationMinutes(cur.endTime, next.startTime)
    case None => []
    case Some(m) => [SleepRecord(cur.date, next.date, m as real / 60.0)]
  }

  /** The sleep table of a date-ordered list of days. */
  function SleepRecords(sorted: seq<Day>): seq<SleepRecord>
    decreases |sorted|
  {
    if |sorted| < 2 then [] else PairRecord(sorted[0], sorted[1]) + SleepRecords(sorted[1..])
  }

  /** The loop over consecutive pairs, with the gap computed inline from the
      minute values. */
  method BuildSleepRecords(sorted: seq<Day>) returns (records: seq<SleepRecord>)
    ensures records == SleepRecords(sorted)
  {
    records := [];
    var i := 0;
    while i + 1 < |sorted|
      invariant 0 <= i <= |sorted|
      invariant records + SleepRecords(sorted[i..]) == SleepRecords(sorted)
      decreases |sorted| - i
    {
      var currentDay := sorted[i];
      var nextDay := sorted[i + 1];
      var currentEnd := TimeToMinutes(currentDay.endTime);
      var nextStart := TimeToMinutes(nextDay.startTime);
      ghost var before := records;
      if currentEnd.Some? && nextStart.Some? {
        var sleepDuration: nat;
        if nextStart.value < currentEnd.value {
          sleepDuration := (nextStart.value + MinutesPerDay) - currentEnd.value;
        } else {
          sleepDuration := nextStart.value - currentEnd.value;
        }
        GapRecord(currentDay, nextDay, currentEnd.value, nextStart.value, sleepDuration);
        records := records + [SleepRecord(currentDay.date, nextDay.date, sleepDuration as real / 60.0)];
      } else {
        PairRecordOfInvalid(currentDay, nextDay);
      }
      SleepStep(before, records, sorted, i);
      i := i + 1;
    }
  }

  /** One pass of the loop appends the record of pair i. */
  lemma SleepStep(before: seq<SleepRecord>, after: seq<SleepRecord>, sorted: seq<Day>, i: nat)
    requires i + 1 < |sorted|
    requires before + SleepRecords(sorted[i..]) == SleepRecords(sorted)
    requires after == before + PairRecord(sorted[i], sorted[i + 1])
    ensures after + SleepRecords(sorted[i + 1..]) == SleepRecords(sorted)
  {
    var here := sorted[i..];
    var p := PairRecord(sorted[i], sorted[i + 1]);
    var rest := SleepRecords(sorted[i + 1..]);
    assert here[0] == sorted[i] && here[1] == sorted[i + 1] && here[1..] == sorted[i + 1..];
    assert SleepRecords(here) == p + rest;
    Shift(before, p, rest);
  }

  /** Solver step: concatenation regrouped, stated once for any element type. */
  lemma Shift<T>(a: seq<T>, b: seq<T>, c: seq<T>)
    ensures (a + b) + c == a + (b + c)
  {
  }

  /** The record the loop builds from the two minute values is the pair's record. */
  lemma GapRecord(cur: Day, next: Day, e: nat, s: nat, g: nat)
    requires TimeToMinutes(cur.endTime) == Some(e) && TimeToMinutes(next.startTime) == Some(s)
    requires g == if s < e then (s + MinutesPerDay) - e else s - e
    ensures PairRecord(cur, next) == [SleepRecord(cur.date, next.date, g as real / 60.0)]
  {
    InlineGap(cur.endTime, next.startTime);
  }

  /** The gap computed inline from two valid times is the duration between them. */
  lemma InlineGap(end: string, start: string)
    requires TimeToMinutes(end).Some? && TimeToMinutes(start).Some?
    ensures var e := TimeToMinutes(end).value; var s := TimeToMinutes(start).value;
      CalculateDurationMinutes(end, start) == Some(if s < e then (s + MinutesPerDay) - e else s - e)
  {
  }

  lemma PairRecordOfInvalid(cur: Day, next: Day)
    requires TimeToMinutes(cur.endTime).None? || TimeToMinutes(next.startTime).None?
    ensures PairRecord(cur, next) == []
  {
  }

  /** Both clock fields of every day are valid HHMM times. */
  predicate AllTimesValid(s: seq<Day>) {
    forall i :: 0 <= i < |s| ==> IsClockTime(s[i].startTime) && IsClockTime(s[i].endTime)
  }

  /** At most one record per consecutive pair, and exactly one per pair when
      every time is valid. */
  lemma {:induction false} SleepCount(sorted: seq<Day>)
    ensures |SleepRecords(sorted)| <= if |sorted| < 2 then 0 else |sorted| - 1
    ensures AllTimesValid(sorted) && |sorted| >= 2 ==> |SleepRecords(sorted)| == |sorted| - 1
  {
    if |sorted| >= 2 {
      SleepCount(sorted[1..]);
      assert AllTimesValid(sorted) ==> AllTimesValid(sorted[1..]) by {
        if AllTimesValid(sorted) {
          forall i | 0 <= i < |sorted[1..]|
            ensures IsClockTime(sorted[1..][i].startTime) && IsClockTime(sorted[1..][i].endTime)
          {
            assert sorted[1..][i] == sorted[i + 1];
          }
        }
      }
    }
  }

  /** With every time valid, record k joins day k to day k + 1. */
  lemma {:induction false} SleepRecordAt(sorted: seq<Day>, k: nat)
    requires AllTimesValid(sorted) && k + 1 < |sorted|
    ensures |SleepRecords(sorted)| == |sorted| - 1
    ensures var r := SleepRecords(sorted)[k];
      && r.currentDate == sorted[k].date && r.nextDate == sorted[k + 1].date
      && r.sleepDurationHours * 60.0
        == CalculateDurationMinutes(sorted[k].endTime, sorted[k + 1].startTime).value as real
    decreases k
  {
    SleepCount(sorted);
    var tail := sorted[1..];
    assert tail[0] == sorted[1];
    if k > 0 {
      assert AllTimesValid(tail) by {
        forall i | 0 <= i < |tail| ensures IsClockTime(tail[i].startTime) && IsClockTime(tail[i].endTime) {
          assert tail[i] == sorted[i + 1];
        }
      }
      SleepRecordAt(tail, k - 1);
      assert tail[k - 1] == sorted[k] && tail[k] == sorted[k + 1];
    }
  }

  /** Every sleep duration is at least zero and under a day. */
  lemma {:induction false} SleepHoursBounded(sorted: seq<Day>)
    ensures forall r :: r in SleepRecords(sorted) ==> 0.0 <= r.sleepDurationHours < 24.0
  {
    if |sorted| >= 2 {
      SleepHoursBounded(sorted[1..]);
    }
  }

  /** Ending a day at 2300 and starting the next at 0600 is seven hours of sleep. */
  lemma SleepOvernight(cur: Day, next: Day)
    requires cur.endTime == "2300" && next.startTime == "0600"
    ensures PairRecord(cur, next) == [SleepRecord(cur.date, next.date, 7.0)]
  {
    TimeRoundTrip(1380);
    TimeRoundTrip(360);
    assert FormatHHMM(1380) == "2300";
    assert FormatHHMM(360) == "0600";
    GapRecord(cur, next, 1380, 360, 420);
  }

  /** Ending a day at 0100 and starting the next at 0030 wraps around: 23.5 hours. */
  lemma SleepWraparound(cur: Day, next: Day)
    requires cur.endTime == "0100" && next.startTime == "0030"
    ensures PairRecord(cur, next) == [SleepRecord(cur.date, next.date, 23.5)]
  {
    TimeRoundTrip(60);
    TimeRoundTrip(30);
    assert FormatHHMM(60) == "0100";
    assert FormatHHMM(30) == "0030";
    GapRecord(cur, next, 60, 30, 1410);
  }
}
