/** M/D/YY dates with the two-digit-year pivot of parse_date
    (activity_dashboard.py:116-127), and the chronological order the sleep
    pass sorts by. */
module Calendar {
  import opened PyText

  /** A calendar date, as the (year, month, day) of a Python datetime at midnight. */
  datatype Date = Date(year: int, month: int, day: int)

  predicate IsLeapYear(y: int) {
    y % 4 == 0 && (y % 100 != 0 || y % 400 == 0)
  }

  function DaysInMonth(y: int, m: int): int
    requires 1 <= m <= 12
  {
    if m == 2 then (if IsLeapYear(y) then 29 else 28)
    else if m == 4 || m == 6 || m == 9 || m == 11 then 30
    else 31
  }

  /** What datetime(year, month, day) accepts: a year in 1..9999, a month in
      1..12 and a day that exists in that month. */
  predicate IsValidDate(d: Date) {
    && 1 <= d.year <= 9999
    && 1 <= d.month <= 12
    && 1 <= d.day <= DaysInMonth(d.year, d.month)
  }

  /** The two-digit-year pivot: below 50 is this century, otherwise the last. */
  function ResolveYear(yy: nat): (y: nat)
    ensures yy < 100 ==> 1950 <= y <= 2049 && y % 100 == yy
    ensures yy < 50 ==> y == 2000 + yy
    ensures yy >= 50 ==> y == 1900 + yy
  {
    if yy < 50 then yy + 2000 else yy + 1900
  }

  /** The date the three fields month/day/year name, before datetime checks it. */
  function DateOfFields(month: string, day: string, year: string): Date
    requires AllDigits(month) && AllDigits(day) && AllDigits(year)
  {
    Date(ResolveYear(DigitsValue(year)), DigitsValue(month), DigitsValue(day))
  }

  /** The text parse_date accepts: exactly three '/'-separated integer
      fields that name an existing date. */
  predicate IsDateText(s: string) {
    var p := Split(s, '/');
    && |p| == 3
    && IsDigitString(p[0]) && IsDigitString(p[1]) && IsDigitString(p[2])
    && IsValidDate(DateOfFields(p[0], p[1], p[2]))
  }

  /** parse_date: a valid date exactly for accepted text, None for anything
      else (the bare except turns every failure into None). */
  function ParseDate(s: string): (r: Option<Date>)
    ensures r.Some? <==> IsDateText(s)
    ensures r.Some? ==> IsValidDate(r.value)
    ensures r.Some? ==> var p := Split(s, '/'); r.value == DateOfFields(p[0], p[1], p[2])
  {
    var parts := Split(s, '/');
    if |parts| != 3 then None
    else if !IsDigitString(parts[0]) || !IsDigitString(parts[1]) || !IsDigitString(parts[2]) then None
    else
      var d := DateOfFields(parts[0], parts[1], parts[2]);
      if IsValidDate(d) then Some(d) else None
  }

  /** Chronological order of dates, as datetime comparison. */
  predicate DateLe(a: Date, b: Date) {
    a.year < b.year
    || (a.year == b.year && (a.month < b.month || (a.month == b.month && a.day <= b.day)))
  }

  /** The date as the number YYYYMMDD. */
  function DateNumber(d: Date): int {
    d.year * 10000 + d.month * 100 + d.day
  }

  /** On dates whose month and day are in range, the chronological order is
      the order of their YYYYMMDD numbers. */
  lemma DateLeAsNumber(a: Date, b: Date)
    requires 1 <= a.month <= 12 && 1 <= a.day <= 31
    requires 1 <= b.month <= 12 && 1 <= b.day <= 31
    ensures DateLe(a, b) <==> DateNumber(a) <= DateNumber(b)
  {
    var ra, rb := a.month * 100 + a.day, b.month * 100 + b.day;
    assert 101 <= ra <= 1231 && 101 <= rb <= 1231;
    if a.year < b.year {
      YearsApart(a.year, b.year);
    } else if b.year < a.year {
      YearsApart(b.year, a.year);
    }
  }

  lemma YearsApart(x: int, y: int)
    requires x < y
    ensures x * 10000 + 1231 < y * 10000 + 101
  {
    assert y * 10000 - x * 10000 == (y - x) * 10000;
  }

  /** Examples of what datetime accepts: leap days only in leap years
      (every fourth year, except centuries not divisible by 400), no 31st in
      a 30-day month, no thirteenth month and no day zero. */
  lemma ValidDates()
    ensures IsValidDate(Date(2024, 2, 29)) && !IsValidDate(Date(2023, 2, 29))
    ensures IsValidDate(Date(2000, 2, 29)) && !IsValidDate(Date(1900, 2, 29))
    ensures !IsValidDate(Date(2024, 4, 31)) && IsValidDate(Date(2024, 12, 31))
    ensures !IsValidDate(Date(2024, 13, 1)) && !IsValidDate(Date(2024, 1, 0))
  {
  }

  /** DateLe is a total order. */
  lemma DateLeTotalOrder(a: Date, b: Date, c: Date)
    ensures DateLe(a, a)
    ensures DateLe(a, b) || DateLe(b, a)
    ensures DateLe(a, b) && DateLe(b, a) ==> a == b
    ensures DateLe(a, b) && DateLe(b, c) ==> DateLe(a, c)
  {
  }

  /** Three digit fields joined by '/' parse to the date they name, when it exists. */
  lemma ParseDateOfFields(month: string, day: string, year: string)
    requires IsDigitString(month) && IsDigitString(day) && IsDigitString(year)
    ensures ParseDate(month + "/" + day + "/" + year)
      == if IsValidDate(DateOfFields(month, day, year)) then Some(DateOfFields(month, day, year)) else None
  {
    var parts := [month, day, year];
    forall p | p in parts ensures '/' !in p {
      assert AllDigits(p);
    }
    SplitJoin(parts, '/');
    assert Join(parts[2..], '/') == year;
    assert Join(parts[1..], '/') == day + "/" + year;
    assert Join(parts, '/') == month + "/" + day + "/" + year;
  }

  /** "3/14/24" is 14 March 2024. */
  lemma ParseDateThisCentury()
    ensures ParseDate("3/14/24") == Some(Date(2024, 3, 14))
  {
    var month, day, year := "3", "14", "24";
    ExampleDateText(month, day, year, "3/14/24");
    ExampleFields(month, day, year, 3, 14, 24);
    ParseDateOfFields(month, day, year);
  }

  /** "3/14/67" is 14 March 1967. */
  lemma ParseDateLastCentury()
    ensures ParseDate("3/14/67") == Some(Date(1967, 3, 14))
  {
    var month, day, year := "3", "14", "67";
    ExampleDateText(month, day, year, "3/14/67");
    ExampleFields(month, day, year, 3, 14, 67);
    ParseDateOfFields(month, day, year);
  }

  /** "2/29/23" names no date: 2023 is not a leap year. */
  lemma ParseDateRejectsMissingDay()
    ensures ParseDate("2/29/23") == None
  {
    var month, day, year := "2", "29", "23";
    ExampleDateText(month, day, year, "2/29/23");
    ExampleFields(month, day, year, 2, 29, 23);
    assert DaysInMonth(2023, 2) == 28;
    ParseDateOfFields(month, day, year);
  }

  lemma ExampleDateText(month: string, day: string, year: string, text: string)
    requires |month| == 1 && |day| == 2 && |year| == 2 && |text| == 7
    requires text[0] == month[0] && text[1] == '/' && text[2] == day[0] && text[3] == day[1]
    requires text[4] == '/' && text[5] == year[0] && text[6] == year[1]
    ensures month + "/" + day + "/" + year == text
  {
  }

  lemma ExampleFields(month: string, day: string, year: string, m: nat, d: nat, y: nat)
    requires |month| == 1 && |day| == 2 && |year| == 2
    requires IsDigitString(month) && IsDigitString(day) && IsDigitString(year)
    requires DigitOf(month[0]) == m && 10 * DigitOf(day[0]) + DigitOf(day[1]) == d
    requires 10 * DigitOf(year[0]) + DigitOf(year[1]) == y
    ensures DateOfFields(month, day, year) == Date(ResolveYear(y), m, d)
  {
    assert month[..0] == [];
    TwoDigitValue(day);
    TwoDigitValue(year);
  }
}
