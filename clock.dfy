/** Clock times written as HHMM strings, and the forward gap between two of
    them (activity_dashboard.py:91-114). */
module Clock {
  import opened PyText

  const MinutesPerDay: nat := 1440

  /** Two-character decimal rendering with a leading zero ("07"). */
  function TwoDigits(n: nat): (s: string)
    requires n < 100
    ensures |s| == 2 && AllDigits(s) && DigitsValue(s) == n
  {
    var s := [DigitChar(n / 10), DigitChar(n % 10)];
    TwoDigitValue(s);
    s
  }

  /** A two-digit field is the rendering of its own value. */
  lemma TwoDigitsOfValue(s: string)
    requires |s| == 2 && AllDigits(s)
    ensures DigitsValue(s) < 100 && TwoDigits(DigitsValue(s)) == s
  {
    TwoDigitValue(s);
    var t := TwoDigits(DigitsValue(s));
    TwoDigitValue(t);
    assert DigitOf(t[0]) == DigitOf(s[0]) && DigitOf(t[1]) == DigitOf(s[1]);
  }

  /** The HHMM string of a minute of the day, e.g. 420 is "0700". */
  function FormatHHMM(m: nat): (t: string)
    requires m < MinutesPerDay
    ensures |t| == 4 && AllDigits(t)
  {
    TwoDigits(m / 60) + TwoDigits(m % 60)
  }

  /** The HHMM validity test of time_to_minutes: four digits, hour below 24,
      minute below 60. */
  predicate IsClockTime(t: string) {
    |t| == 4 && AllDigits(t) && DigitsValue(t[..2]) < 24 && DigitsValue(t[2..]) < 60
  }

  /** time_to_minutes: minutes since midnight of a valid HHMM string, None
      otherwise. The value names a minute of the day, and that minute's HHMM
      rendering is the string itself. */
  function TimeToMinutes(t: string): (r: Option<nat>)
    ensures r.Some? <==> IsClockTime(t)
    ensures r.Some? ==> r.value < MinutesPerDay && FormatHHMM(r.value) == t
  {
    if |t| != 4 || !AllDigits(t) then None
    else
      var hours := DigitsValue(t[..2]);
      var minutes := DigitsValue(t[2..]);
      if hours >= 24 || minutes >= 60 then None
      else
        var m := hours * 60 + minutes;
        assert m / 60 == hours && m % 60 == minutes;
        TwoDigitsOfValue(t[..2]);
        TwoDigitsOfValue(t[2..]);
        assert t == t[..2] + t[2..];
        Some(m)
  }

  /** Every minute of the day is read back from its own rendering, so
      TimeToMinutes is a bijection between valid HHMM strings and 0..1439. */
  lemma TimeRoundTrip(m: nat)
    requires m < MinutesPerDay
    ensures TimeToMinutes(FormatHHMM(m)) == Some(m)
  {
    var t := FormatHHMM(m);
    assert t[..2] == TwoDigits(m / 60);
    assert t[2..] == TwoDigits(m % 60);
  }

  /** calculate_duration_minutes as written, including its `duration >= 0`
      guard. None exactly when either end is not a valid time; otherwise the
      forward gap: less than a day, and it carries start onto end modulo a
      day. In particular the guard never rejects a pair of valid times. */
  function CalculateDurationMinutes(start: string, end: string): (r: Option<nat>)
    ensures r.None? <==> !IsClockTime(start) || !IsClockTime(end)
    ensures r.Some? ==> r.value < MinutesPerDay
    ensures r.Some? ==> (TimeToMinutes(start).value + r.value) % MinutesPerDay == TimeToMinutes(end).value
  {
    var startMins := TimeToMinutes(start);
    var endMins := TimeToMinutes(end);
    if startMins.None? || endMins.None? then None
    else
      var duration: int :=
        if endMins.value < startMins.value then (endMins.value + MinutesPerDay) - startMins.value
        else endMins.value - startMins.value;
      ForwardGap(startMins.value, endMins.value);
      if duration >= 0 then Some(duration as nat) else None
  }

  /** The day-wrapping difference of two minutes of the day is a gap below a
      day that carries the first onto the second. */
  lemma ForwardGap(s: nat, e: nat)
    requires s < MinutesPerDay && e < MinutesPerDay
    ensures var g := if e < s then (e + MinutesPerDay) - s else e - s;
      0 <= g < MinutesPerDay && (s + g) % MinutesPerDay == e
  {
  }

  /** The forward gap is the only one below a day that reaches end from start. */
  lemma DurationIsUniqueGap(start: string, end: string, d: nat)
    requires IsClockTime(start) && IsClockTime(end)
    requires d < MinutesPerDay
    requires (TimeToMinutes(start).value + d) % MinutesPerDay == TimeToMinutes(end).value
    ensures CalculateDurationMinutes(start, end) == Some(d)
  {
    var g := CalculateDurationMinutes(start, end).value;
    UniqueGap(TimeToMinutes(start).value, g, d);
  }

  lemma UniqueGap(s: nat, g: nat, d: nat)
    requires s < MinutesPerDay && g < MinutesPerDay && d < MinutesPerDay
    requires (s + g) % MinutesPerDay == (s + d) % MinutesPerDay
    ensures g == d
  {
    assert s + g < 2 * MinutesPerDay && s + d < 2 * MinutesPerDay;
  }

  /** A pair of equal times is zero minutes apart, not a full day. */
  lemma DurationOfSameTime(t: string)
    requires IsClockTime(t)
    ensures CalculateDurationMinutes(t, t) == Some(0)
  {
  }

  /** Crossing midnight: from 2330 to 0015 is 45 minutes. */
  lemma MidnightCrossover()
    ensures CalculateDurationMinutes("2330", "0015") == Some(45)
  {
    TimeRoundTrip(1410);
    TimeRoundTrip(15);
    assert FormatHHMM(1410) == "2330";
    assert FormatHHMM(15) == "0015";
  }
}
