/** The two line parsers of the diary format: day headers
    (activity_dashboard.py:60-73) and activity records (activity_dashboard.py:75-89). */
module LineParse {
  import opened PyText

  /** The four captured groups of a header line, e.g. "3/14/24 Th 0700-2330". */
  datatype DayHeader = DayHeader(date: string, dayOfWeek: string, startTime: string, endTime: string)

  /** One activity entry. A freshly parsed entry has no duration keys; None and
      0.0 are what `.get('duration_minutes')` and `.get('duration_hours', 0)`
      read for them. The duration pass fills both in. */
  datatype Activity = Activity(
    time: string,
    category: string,
    description: string,
    durationMinutes: Option<nat>,
    durationHours: real)

  predicate IsFourDigits(t: string) {
    |t| == 4 && AllDigits(t)
  }

  /** The date group \d{1,2}/\d{1,2}/\d{2}. */
  predicate IsDateToken(t: string) {
    var p := Split(t, '/');
    && |p| == 3
    && 1 <= |p[0]| <= 2 && AllDigits(p[0])
    && 1 <= |p[1]| <= 2 && AllDigits(p[1])
    && |p[2]| == 2 && AllDigits(p[2])
  }

  /** s begins with the header pattern: the date token, whitespace w1, a word,
      whitespace w2, four digits, '-', four digits, then anything at all. */
  predicate HeaderText(s: string, h: DayHeader, w1: string, w2: string, rest: string) {
    && s == h.date + (w1 + (h.dayOfWeek + (w2 + (h.startTime + ("-" + (h.endTime + rest))))))
    && IsDateToken(h.date)
    && |w1| > 0 && AllIn(w1, Space)
    && |h.dayOfWeek| > 0 && AllIn(h.dayOfWeek, Word)
    && |w2| > 0 && AllIn(w2, Space)
    && IsFourDigits(h.startTime) && IsFourDigits(h.endTime)
  }

  /** A weekday group: a non-empty run of word characters. */
  predicate IsHeaderWord(w: string) {
    |w| > 0 && AllIn(w, Word)
  }

  /** What the four groups of a matched header look like: a date token, a
      word, and two four-digit times. */
  predicate IsHeaderFields(h: DayHeader) {
    IsDateToken(h.date) && IsHeaderWord(h.dayOfWeek) && IsFourDigits(h.startTime) && IsFourDigits(h.endTime)
  }

  /** Length of \d{1,2}/ at the start of s, if s starts with it. A digit run
      followed by '/' must be the whole run, so the field is exactly the digit
      run before the '/'. */
  function MatchField(s: string): (n: Option<nat>)
    ensures n.Some? ==> 2 <= n.value <= |s|
  {
    var d := Span(s, Digit);
    if 1 <= d <= 2 && d < |s| && s[d] == '/' then Some(d + 1) else None
  }

  /** Length of the date group \d{1,2}/\d{1,2}/\d{2} at the start of s. */
  function MatchDate(s: string): (n: Option<nat>)
    ensures n.Some? ==> n.value <= |s|
  {
    match MatchField(s)
    case None => None
    case Some(a) =>
      match MatchField(s[a..])
      case None => None
      case Some(b) =>
        if a + b + 2 <= |s| && IsDigit(s[a + b]) && IsDigit(s[a + b + 1]) then Some(a + b + 2) else None
  }

  /** The group (\d{4})-(\d{4}) at the start of t. */
  function MatchTimes(t: string): (r: Option<(string, string)>)
    ensures r.Some? ==> IsFourDigits(r.value.0) && IsFourDigits(r.value.1)
  {
    if |t| >= 9 && IsFourDigits(t[..4]) && t[4] == '-' && IsFourDigits(t[5..9]) then Some((t[..4], t[5..9]))
    else None
  }

  /** \s+(\d{4})-(\d{4}) at the start of t; a digit is not whitespace, so
      the whole whitespace run is taken. */
  function MatchSpaceTimes(t: string): (r: Option<(string, string)>)
    ensures r.Some? ==> IsFourDigits(r.value.0) && IsFourDigits(r.value.1)
  {
    var w := Span(t, Space);
    if w == 0 then None else MatchTimes(t[w..])
  }

  /** (\w+)\s+(\d{4})-(\d{4}) at the start of t; \w and \s are disjoint,
      so the whole word run is taken. */
  function MatchWordTimes(t: string): (r: Option<(string, string, string)>)
    ensures r.Some? ==> IsHeaderWord(r.value.0) && IsFourDigits(r.value.1) && IsFourDigits(r.value.2)
  {
    var k := Span(t, Word);
    SpanPrefix(t, Word);
    if k == 0 then None
    else
      match MatchSpaceTimes(t[k..])
      case None => None
      case Some(times) => Some((t[..k], times.0, times.1))
  }

  /** \s+(\w+)\s+(\d{4})-(\d{4}) at the start of t. */
  function MatchTail(t: string): (r: Option<(string, string, string)>)
    ensures r.Some? ==> IsHeaderWord(r.value.0) && IsFourDigits(r.value.1) && IsFourDigits(r.value.2)
  {
    var w := Span(t, Space);
    if w == 0 then None else MatchWordTimes(t[w..])
  }

  /** re.match of (\d{1,2}/\d{1,2}/\d{2})\s+(\w+)\s+(\d{4})-(\d{4}) on s,
      anchored at the start only. */
  function MatchHeader(s: string): (r: Option<DayHeader>)
    ensures r.Some? ==> IsHeaderFields(r.value) && |r.value.date| <= |s| && s[..|r.value.date|] == r.value.date
  {
    match MatchDate(s)
    case None => None
    case Some(n) =>
      match MatchTail(s[n..])
      case None => None
      case Some(groups) =>
        MatchDateSound(s);
        Some(DayHeader(s[..n], groups.0, groups.1, groups.2))
  }

  /** parse_day_header: the header pattern matched against the stripped line. */
  function ParseDayHeader(line: string): (r: Option<DayHeader>)
    ensures r.Some? ==> IsHeaderFields(r.value)
    ensures r.Some? ==> var s := Strip(line); |r.value.date| <= |s| && s[..|r.value.date|] == r.value.date
  {
    MatchHeader(Strip(line))
  }

  /** t begins with whitespace w1, a word, whitespace w2, four digits, '-',
      four digits, then anything at all. */
  predicate TailText(t: string, dow: string, w1: string, w2: string, start: string, end: string, rest: string) {
    && t == w1 + (dow + (w2 + (start + ("-" + (end + rest)))))
    && |w1| > 0 && AllIn(w1, Space)
    && |dow| > 0 && AllIn(dow, Word)
    && |w2| > 0 && AllIn(w2, Space)
    && IsFourDigits(start) && IsFourDigits(end)
  }

  lemma MatchFieldSound(s: string)
    requires MatchField(s).Some?
    ensures var n := MatchField(s).value;
      1 <= n - 1 <= 2 && AllDigits(s[..n - 1]) && s == s[..n - 1] + ("/" + s[n..])
  {
    var n := MatchField(s).value;
    assert s == s[..n - 1] + [s[n - 1]] + s[n..];
  }

  lemma MatchFieldComplete(field: string, tail: string)
    requires 1 <= |field| <= 2 && AllDigits(field)
    ensures MatchField(field + ("/" + tail)) == Some(|field| + 1)
  {
    SpanOfRun(field, "/" + tail, Digit);
  }

  lemma DigitsHaveNoSlash(p: string)
    requires AllDigits(p)
    ensures '/' !in p
  {
    forall i | 0 <= i < |p| ensures p[i] != '/' {
      assert InClass(p[i], Digit);
    }
  }

  /** Three digit fields of the right widths joined by '/' form a date token. */
  lemma DateTokenOf(p0: string, p1: string, p2: string)
    requires 1 <= |p0| <= 2 && AllDigits(p0) && 1 <= |p1| <= 2 && AllDigits(p1) && |p2| == 2 && AllDigits(p2)
    ensures IsDateToken(p0 + ("/" + (p1 + ("/" + p2))))
  {
    DigitsHaveNoSlash(p0);
    DigitsHaveNoSlash(p1);
    DigitsHaveNoSlash(p2);
    var parts := [p0, p1, p2];
    SplitJoin(parts, '/');
    assert Join(parts[2..], '/') == p2;
    assert Join(parts[1..], '/') == p1 + ("/" + p2);
    assert Join(parts, '/') == p0 + ("/" + (p1 + ("/" + p2)));
  }

  /** A date token is its three fields joined by '/'. */
  lemma DateTokenParts(date: string)
    requires IsDateToken(date)
    ensures var p := Split(date, '/'); date == p[0] + ("/" + (p[1] + ("/" + p[2])))
  {
    var parts := Split(date, '/');
    JoinSplit(date, '/');
    assert Join(parts[2..], '/') == parts[2];
    assert Join(parts[1..], '/') == parts[1] + ("/" + parts[2]);
  }

  lemma MatchDateOfParts(p0: string, p1: string, p2: string, tail: string)
    requires 1 <= |p0| <= 2 && AllDigits(p0) && 1 <= |p1| <= 2 && AllDigits(p1) && |p2| == 2 && AllDigits(p2)
    ensures MatchDate(p0 + ("/" + (p1 + ("/" + (p2 + tail))))) == Some(|p0| + |p1| + 4)
  {
    var t1 := p1 + ("/" + (p2 + tail));
    var s := p0 + ("/" + t1);
    MatchFieldComplete(p0, t1);
    assert s[|p0| + 1..] == t1;
    MatchFieldComplete(p1, p2 + tail);
    assert s[|p0| + |p1| + 2] == p2[0] && s[|p0| + |p1| + 3] == p2[1];
    assert InClass(p2[0], Digit) && InClass(p2[1], Digit);
  }

  lemma MatchDateComplete(date: string, tail: string)
    requires IsDateToken(date)
    ensures MatchDate(date + tail) == Some(|date|)
  {
    var p := Split(date, '/');
    DateTokenParts(date);
    assert date + tail == p[0] + ("/" + (p[1] + ("/" + (p[2] + tail))));
    MatchDateOfParts(p[0], p[1], p[2], tail);
  }

  lemma MatchDateSound(s: string)
    requires MatchDate(s).Some?
    ensures IsDateToken(s[..MatchDate(s).value])
  {
    var a := MatchField(s).value;
    var s1 := s[a..];
    var b := MatchField(s1).value;
    MatchFieldSound(s);
    MatchFieldSound(s1);
    var p0, p1 := s[..a - 1], s1[..b - 1];
    DropDrop(s, a, b);
    var s2 := s[a + b..];
    DigitPair(s2);
    var p2, rest := s2[..2], s2[2..];
    DateTokenOf(p0, p1, p2);
    Reassemble(s, p0, s1, p1, s2, p2, rest);
    PrefixOf(p0 + ("/" + (p1 + ("/" + p2))), rest);
  }

  /** Solver step: dropping a, then b, is dropping a + b. */
  lemma DropDrop(s: string, a: nat, b: nat)
    requires a + b <= |s|
    ensures s[a..][b..] == s[a + b..]
  {
  }

  lemma DigitPair(s: string)
    requires |s| >= 2 && IsDigit(s[0]) && IsDigit(s[1])
    ensures AllDigits(s[..2]) && s == s[..2] + s[2..]
  {
  }

  /** Putting a date back together from its two '/'-ended fields and the rest. */
  lemma Reassemble(s: string, p0: string, s1: string, p1: string, s2: string, p2: string, rest: string)
    requires s == p0 + ("/" + s1) && s1 == p1 + ("/" + s2) && s2 == p2 + rest
    ensures s == (p0 + ("/" + (p1 + ("/" + p2)))) + rest
  {
  }

  /** Solver step: x is the prefix of x + y of its own length. */
  lemma PrefixOf(x: string, y: string)
    ensures (x + y)[..|x|] == x
  {
  }

  lemma MatchTimesComplete(start: string, end: string, rest: string)
    requires IsFourDigits(start) && IsFourDigits(end)
    ensures MatchTimes(start + ("-" + (end + rest))) == Some((start, end))
  {
    var t := start + ("-" + (end + rest));
    assert t[..4] == start && t[4] == '-' && t[5..9] == end;
  }

  lemma MatchSpaceTimesComplete(w: string, start: string, end: string, rest: string)
    requires |w| > 0 && AllIn(w, Space) && IsFourDigits(start) && IsFourDigits(end)
    ensures MatchSpaceTimes(w + (start + ("-" + (end + rest)))) == Some((start, end))
  {
    var t := start + ("-" + (end + rest));
    assert !IsSpace(t[0]) by { assert InClass(start[0], Digit); }
    SpanOfRun(w, t, Space);
    MatchTimesComplete(start, end, rest);
  }

  lemma MatchWordTimesComplete(dow: string, w: string, start: string, end: string, rest: string)
    requires |dow| > 0 && AllIn(dow, Word)
    requires |w| > 0 && AllIn(w, Space) && IsFourDigits(start) && IsFourDigits(end)
    ensures MatchWordTimes(dow + (w + (start + ("-" + (end + rest))))) == Some((dow, start, end))
  {
    var t := w + (start + ("-" + (end + rest)));
    assert !IsWordChar(t[0]) by { assert InClass(w[0], Space); }
    SpanOfRun(dow, t, Word);
    MatchSpaceTimesComplete(w, start, end, rest);
  }

  lemma MatchTailComplete(t: string, dow: string, w1: string, w2: string, start: string, end: string, rest: string)
    requires TailText(t, dow, w1, w2, start, end, rest)
    ensures MatchTail(t) == Some((dow, start, end))
  {
    var t1 := dow + (w2 + (start + ("-" + (end + rest))));
    assert !IsSpace(t1[0]) by { assert InClass(dow[0], Word); }
    SpanOfRun(w1, t1, Space);
    MatchWordTimesComplete(dow, w2, start, end, rest);
  }

  lemma MatchTimesSound(t: string)
    requires MatchTimes(t).Some?
    ensures var g := MatchTimes(t).value;
      IsFourDigits(g.0) && IsFourDigits(g.1) && t == g.0 + ("-" + (g.1 + t[9..]))
  {
    assert t == t[..4] + ([t[4]] + (t[5..9] + t[9..]));
  }

  lemma MatchSpaceTimesSound(t: string)
    requires MatchSpaceTimes(t).Some?
    ensures var w := Span(t, Space); var g := MatchSpaceTimes(t).value;
      && w > 0 && AllIn(t[..w], Space) && IsFourDigits(g.0) && IsFourDigits(g.1)
      && w + 9 <= |t| && t == t[..w] + (g.0 + ("-" + (g.1 + t[w + 9..])))
  {
    var w := Span(t, Space);
    var u := t[w..];
    MatchTimesSound(u);
    SpanPrefix(t, Space);
    var g := MatchTimes(u).value;
    DropDrop(t, w, 9);
    Cut(t, w);
    Rejoin(t, t[..w], u, g.0 + ("-" + (g.1 + u[9..])));
  }

  /** Solver step: replacing the tail of a concatenation by an equal one. */
  lemma Rejoin(t: string, a: string, u: string, v: string)
    requires t == a + u && u == v
    ensures t == a + v
  {
  }

  /** Pieces that fit together as a tail. */
  lemma TailOfParts(t: string, w1: string, t1: string, dow: string, t2: string, w2: string,
                    start: string, end: string, rest: string)
    requires t == w1 + t1 && t1 == dow + t2 && t2 == w2 + (start + ("-" + (end + rest)))
    requires |w1| > 0 && AllIn(w1, Space) && |dow| > 0 && AllIn(dow, Word)
    requires |w2| > 0 && AllIn(w2, Space) && IsFourDigits(start) && IsFourDigits(end)
    ensures TailText(t, dow, w1, w2, start, end, rest)
  {
  }

  lemma MatchTailSound(t: string) returns (w1: string, w2: string, rest: string)
    requires MatchTail(t).Some?
    ensures var g := MatchTail(t).value; TailText(t, g.0, w1, w2, g.1, g.2, rest)
  {
    var g := MatchTail(t).value;
    var w := Span(t, Space);
    var t1 := t[w..];
    var k := Span(t1, Word);
    var t2 := t1[k..];
    MatchTailSteps(t);
    MatchSpaceTimesSound(t2);
    var v := Span(t2, Space);
    Cut(t, w);
    Cut(t1, k);
    SpanPrefix(t, Space);
    SpanPrefix(t1, Word);
    w1, w2, rest := t[..w], t2[..v], t2[v + 9..];
    TailOfParts(t, w1, t1, g.0, t2, w2, g.1, g.2, rest);
  }

  /** How a tail match decomposes: a whitespace run, a word run, and a
      match of whitespace and the two times on what follows. */
  lemma MatchTailSteps(t: string)
    requires MatchTail(t).Some?
    ensures var w := Span(t, Space); var t1 := t[w..]; var k := Span(t1, Word); var g := MatchTail(t).value;
      && w > 0 && k > 0 && g.0 == t1[..k] && MatchSpaceTimes(t1[k..]) == Some((g.1, g.2))
  {
  }

  /** A date token followed by a tail is a header. */
  lemma HeaderOfParts(s: string, n: nat, h: DayHeader, w1: string, w2: string, rest: string)
    requires n <= |s| && h.date == s[..n] && IsDateToken(h.date)
    requires TailText(s[n..], h.dayOfWeek, w1, w2, h.startTime, h.endTime, rest)
    ensures HeaderText(s, h, w1, w2, rest)
  {
    Cut(s, n);
  }

  /** Solver step: a string is its prefix of length n followed by the rest. */
  lemma Cut(s: string, n: nat)
    requires n <= |s|
    ensures s == s[..n] + s[n..]
  {
  }

  lemma MatchHeaderSound(s: string)
    requires MatchHeader(s).Some?
    ensures exists w1, w2, rest :: HeaderText(s, MatchHeader(s).value, w1, w2, rest)
  {
    var h := MatchHeader(s).value;
    var n := MatchDate(s).value;
    var t := s[n..];
    assert MatchTail(t).value == (h.dayOfWeek, h.startTime, h.endTime) && h.date == s[..n];
    MatchDateSound(s);
    var w1, w2, rest := MatchTailSound(t);
    HeaderOfParts(s, n, h, w1, w2, rest);
  }

  lemma MatchHeaderComplete(s: string, h: DayHeader, w1: string, w2: string, rest: string)
    requires HeaderText(s, h, w1, w2, rest)
    ensures MatchHeader(s) == Some(h)
  {
    var t := w1 + (h.dayOfWeek + (w2 + (h.startTime + ("-" + (h.endTime + rest)))));
    MatchDateComplete(h.date, t);
    assert s[|h.date|..] == t && s[..|h.date|] == h.date;
    MatchTailComplete(t, h.dayOfWeek, w1, w2, h.startTime, h.endTime, rest);
  }

  /** Only a line that begins with the header pattern is a header, and the
      captured fields are the pattern's groups. */
  lemma HeaderSound(line: string)
    requires ParseDayHeader(line).Some?
    ensures exists w1, w2, rest :: HeaderText(Strip(line), ParseDayHeader(line).value, w1, w2, rest)
  {
    MatchHeaderSound(Strip(line));
  }

  /** Every line that begins with the header pattern is a header with those
      groups, whatever follows the end time. */
  lemma HeaderComplete(line: string, h: DayHeader, w1: string, w2: string, rest: string)
    requires HeaderText(Strip(line), h, w1, w2, rest)
    ensures ParseDayHeader(line) == Some(h)
  {
    MatchHeaderComplete(Strip(line), h, w1, w2, rest);
  }

  /** A typical header line. */
  lemma HeaderExample()
    ensures ParseDayHeader("3/14/24 Th 0700-2330") == Some(DayHeader("3/14/24", "Th", "0700", "2330"))
  {
    var month, day, year := "3", "14", "24";
    var dow, start, end, w := "Th", "0700", "2330", " ";
    ExampleHeaderText(month, day, year, dow, start, end, w);
    DateTokenOf(month, day, year);
    var date := month + ("/" + (day + ("/" + year)));
    var h := DayHeader(date, dow, start, end);
    var line := date + (w + (dow + (w + (start + ("-" + (end + ""))))));
    assert HeaderText(line, h, w, w, "");
    assert IsStripped(line);
    StripStripped(line);
    HeaderComplete(line, h, w, w, "");
  }

  lemma ExampleHeaderText(month: string, day: string, year: string, dow: string, start: string, end: string, w: string)
    requires month == "3" && day == "14" && year == "24"
    requires dow == "Th" && start == "0700" && end == "2330" && w == " "
    ensures month + ("/" + (day + ("/" + year))) == "3/14/24"
    ensures (month + ("/" + (day + ("/" + year)))) + (w + (dow + (w + (start + ("-" + (end + "")))))) == "3/14/24 Th 0700-2330"
  {
  }

  /** The text of a record line: time, category and, when there is one, the description. */
  function RecordLine(time: string, category: string, description: string): string
  {
    if description == "" then time + " " + category else time + " " + category + " " + description
  }

  /** s.split(' ', 1): the text before the first space and, when there is a
      space, the text after it. */
  function SplitFirstSpace(s: string): (p: (string, Option<string>))
    ensures ' ' !in p.0
    ensures p.1.None? ==> p.0 == s
    ensures p.1.Some? ==> s == p.0 + " " + p.1.value
  {
    var i := FirstIndex(s, ' ');
    if i == |s| then (s, None)
    else
      assert s == s[..i] + " " + s[i + 1..];
      (s[..i], Some(s[i + 1..]))
  }

  /** The cut falls at the first space. */
  lemma SplitFirstSpaceOf(a: string, b: Option<string>)
    requires ' ' !in a
    ensures SplitFirstSpace(if b.Some? then a + " " + b.value else a) == (a, b)
  {
    if b.Some? {
      FirstIndexAfter(a, ' ', b.value);
      assert (a + " " + b.value)[..|a|] == a && (a + " " + b.value)[|a| + 1..] == b.value;
    }
  }

  /** parse_activity_record: split the stripped line on single spaces at most
      twice; it is a record when there are at least two parts and the first is
      four digits (not range-checked as a time). The category is the second
      part, so it holds no space; the description is the unsplit remainder, or
      "" when there is none. */
  function ParseActivityRecord(line: string): (r: Option<Activity>)
    ensures r.Some? ==> IsFourDigits(r.value.time) && ' ' !in r.value.category
    ensures r.Some? ==> r.value.durationMinutes == None && r.value.durationHours == 0.0
  {
    SplitRecord(Strip(line))
  }

  /** s.split(' ', 2) and the four-digit test on the first part. */
  function SplitRecord(s: string): (r: Option<Activity>)
    ensures r.Some? ==> IsFourDigits(r.value.time) && ' ' !in r.value.category
    ensures r.Some? ==> r.value.durationMinutes == None && r.value.durationHours == 0.0
  {
    var first := SplitFirstSpace(s);
    match first.1
    case None => None
    case Some(rest) =>
      var second := SplitFirstSpace(rest);
      var description := if second.1.Some? then second.1.value else "";
      if IsFourDigits(first.0) then Some(Activity(first.0, second.0, description, None, 0.0)) else None
  }

  /** A parsed record's three fields put back together give the stripped line. */
  lemma RecordSound(line: string)
    requires ParseActivityRecord(line).Some?
    ensures var a := ParseActivityRecord(line).value;
      Strip(line) == RecordLine(a.time, a.category, a.description)
  {
    SplitRecordSound(Strip(line));
  }

  lemma SplitRecordSound(s: string)
    requires IsStripped(s) && SplitRecord(s).Some?
    ensures var a := SplitRecord(s).value;
      s == RecordLine(a.time, a.category, a.description)
  {
    var first := SplitFirstSpace(s);
    var second := SplitFirstSpace(first.1.value);
    if second.1.Some? {
      ThreeFields(s, first.0, second.0, second.1.value);
    }
  }

  /** A stripped line cut at two spaces has a non-empty third field. */
  lemma ThreeFields(s: string, time: string, category: string, description: string)
    requires IsStripped(s) && s == time + " " + (category + " " + description)
    ensures s == RecordLine(time, category, description)
  {
    NoTrailingSpace(s, time + " " + category + " ", description);
  }

  lemma NoTrailingSpace(s: string, a: string, b: string)
    requires IsStripped(s) && s == a + b && a != [] && a[|a| - 1] == ' '
    ensures b != []
  {
    assert s[|a| - 1] == ' ';
  }

  /** Parsing a record line written without surrounding whitespace gives back
      its three fields. */
  lemma RecordRoundTrip(time: string, category: string, description: string)
    requires IsFourDigits(time) && ' ' !in category
    requires IsStripped(RecordLine(time, category, description))
    ensures ParseActivityRecord(RecordLine(time, category, description))
      == Some(Activity(time, category, description, None, 0.0))
  {
    var s := RecordLine(time, category, description);
    StripStripped(s);
    assert ' ' !in time by {
      forall i | 0 <= i < |time| ensures time[i] != ' ' { assert InClass(time[i], Digit); }
    }
    var d := if description == "" then None else Some(description);
    var tail := if d.Some? then category + " " + d.value else category;
    assert s == time + " " + tail;
    SplitFirstSpaceOf(time, Some(tail));
    SplitFirstSpaceOf(category, d);
  }

  /** The written form time + " " + category + " " + description, with a
      non-empty category free of whitespace and a description that does not
      end in whitespace, parses back to its fields: when the description is
      empty, strip() drops the trailing space. */
  lemma RecordRoundTripSpaced(time: string, category: string, description: string)
    requires IsFourDigits(time) && category != [] && AllNotSpace(category)
    requires description == [] || !IsSpace(description[|description| - 1])
    ensures ParseActivityRecord(time + " " + category + " " + description)
      == Some(Activity(time, category, description, None, 0.0))
  {
    var line := time + " " + category + " " + description;
    var written := RecordLine(time, category, description);
    assert time[0] == written[0] && IsDigit(time[0]);
    assert category[|category| - 1] == (time + " " + category)[|time + " " + category| - 1];
    if description == [] {
      assert line == written + " ";
      StripTrailingSpace(written);
    } else {
      assert line == written;
    }
    StripStripped(written);
    RecordRoundTrip(time, category, description);
  }

  predicate AllNotSpace(s: string) {
    forall i :: 0 <= i < |s| ==> !IsSpace(s[i])
  }

  lemma StripTrailingSpace(x: string)
    requires x != [] && IsStripped(x)
    ensures Strip(x + " ") == Strip(x)
  {
    var y := x + " ";
    assert y[..|y| - 1] == x;
    assert TrimLeft(y) == y;
    assert TrimLeft(x) == x;
  }

  /** A line is a record exactly when, once stripped, it starts with four
      digits followed by a space; those four digits are its time. */
  lemma RecordShape(line: string)
    ensures var s := Strip(line); var r := ParseActivityRecord(line);
      && (r.Some? <==> |s| > 4 && s[4] == ' ' && IsFourDigits(s[..4]))
      && (r.Some? ==> r.value.time == s[..4])
  {
    var s := Strip(line);
    var i := FirstIndex(s, ' ');
    if |s| > 4 && s[4] == ' ' && IsFourDigits(s[..4]) {
      forall j | 0 <= j < 4 ensures s[j] != ' ' {
        assert s[..4][j] == s[j] && InClass(s[..4][j], Digit);
      }
      assert i == 4;
    }
  }

  /** A line without any space is never a record, and neither is one whose
      first field is not four characters long, such as a header line. */
  lemma NotRecord(line: string)
    requires var s := Strip(line); var i := FirstIndex(s, ' '); i == |s| || i != 4
    ensures ParseActivityRecord(line) == None
  {
  }
}
