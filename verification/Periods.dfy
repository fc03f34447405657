/** Subscription periods: the duration grammar and calendar arithmetic. */
module Periods {
  import opened Numbers
  import opened Strings
  import opened Unicode

  // ------------------------------------------------------------------ the calendar

  datatype Date = Date(year: int, month: nat, day: int)

  /** A moment of one time zone; `seconds` is the time of day. */
  datatype Moment = Moment(date: Date, seconds: int)

  const MAX_YEAR := 9999

  predicate IsLeap(year: int) { year % 4 == 0 && (year % 100 != 0 || year % 400 == 0) }

  function YearLength(year: int): int { if IsLeap(year) then 366 else 365 }

  function DaysInMonth(year: int, month: int): int {
    if month == 2 then (if IsLeap(year) then 29 else 28)
    else if month == 4 || month == 6 || month == 9 || month == 11 then 30
    else 31
  }

  predicate IsMonth(year: int, month: int) { 1 <= year <= MAX_YEAR && 1 <= month <= 12 }

  predicate IsDate(d: Date) { IsMonth(d.year, d.month) && 1 <= d.day <= DaysInMonth(d.year, d.month) }

  predicate IsMoment(m: Moment) { IsDate(m.date) && 0 <= m.seconds < 86400 }

  function DaysBeforeYear(year: int): int {
    var y := year - 1;
    y * 365 + y / 4 - y / 100 + y / 400
  }

  function DaysBeforeMonth(year: int, month: nat): int {
    if month <= 1 then 0 else DaysBeforeMonth(year, month - 1) + DaysInMonth(year, month - 1)
  }

  function MonthStart(year: int, month: nat): int { DaysBeforeYear(year) + DaysBeforeMonth(year, month) }

  /** The number of the day, counted from the first day of year one. */
  function DayNumber(d: Date): int { MonthStart(d.year, d.month) + d.day }

  function Instant(m: Moment): int { DayNumber(m.date) * 86400 + m.seconds }

  /** Months counted through. */
  function MonthIndex(year: int, month: int): int { year * 12 + month - 1 }

  lemma MultiplesAreCounted(y: int)
    ensures y / 4 == (y - 1) / 4 + if y % 4 == 0 then 1 else 0
    ensures y / 100 == (y - 1) / 100 + if y % 100 == 0 then 1 else 0
    ensures y / 400 == (y - 1) / 400 + if y % 400 == 0 then 1 else 0
  {}

  lemma CenturiesAreMultiples(y: int)
    ensures y % 100 == 0 ==> y % 4 == 0
    ensures y % 400 == 0 ==> y % 100 == 0
  {
    if y % 100 == 0 { assert y == 4 * (25 * (y / 100)); }
    if y % 400 == 0 { assert y == 100 * (4 * (y / 400)); }
  }

  lemma YearsAdjoin(year: int)
    ensures DaysBeforeYear(year + 1) == DaysBeforeYear(year) + YearLength(year)
  {
    MultiplesAreCounted(year);
    CenturiesAreMultiples(year);
  }

  lemma {:induction false} MonthsOfYear(year: int)
    ensures DaysBeforeMonth(year, 12) + DaysInMonth(year, 12) == YearLength(year)
  {
    assert DaysBeforeMonth(year, 2) == 31;
    assert DaysBeforeMonth(year, 4) == DaysBeforeMonth(year, 3) + 31;
    assert DaysBeforeMonth(year, 6) == DaysBeforeMonth(year, 5) + 31;
    assert DaysBeforeMonth(year, 8) == DaysBeforeMonth(year, 7) + 31;
    assert DaysBeforeMonth(year, 10) == DaysBeforeMonth(year, 9) + 30;
    assert DaysBeforeMonth(year, 12) == DaysBeforeMonth(year, 11) + 30;
  }

  function NextMonth(year: int, month: nat): (int, nat) {
    if month == 12 then (year + 1, 1) else (year, month + 1)
  }

  lemma MonthsAdjoin(year: int, month: nat)
    requires 1 <= month <= 12
    ensures var (y, m) := NextMonth(year, month);
            1 <= m <= 12 && MonthIndex(y, m) == MonthIndex(year, month) + 1
            && MonthStart(y, m) == MonthStart(year, month) + DaysInMonth(year, month)
  {
    if month == 12 {
      YearsAdjoin(year);
      MonthsOfYear(year);
    }
  }

  // ------------------------------------------------------------------ adding days

  /** The day after; none after the last day the program can name. */
  function NextDay(d: Date): Option<Date>
    requires IsDate(d)
  {
    if d.day < DaysInMonth(d.year, d.month) then Some(d.(day := d.day + 1))
    else
      var (y, m) := NextMonth(d.year, d.month);
      if y > MAX_YEAR then None else Some(Date(y, m, 1))
  }

  lemma NextDayIsNext(d: Date)
    requires IsDate(d)
    ensures NextDay(d).Some? ==> IsDate(NextDay(d).value) && DayNumber(NextDay(d).value) == DayNumber(d) + 1
  {
    hide MonthStart;
    MonthsAdjoin(d.year, d.month);
  }

  function AddDays(d: Date, days: nat): Option<Date>
    requires IsDate(d)
    decreases days
  {
    if days == 0 then Some(d)
    else
      NextDayIsNext(d);
      var next := NextDay(d);
      if next.None? then None else AddDays(next.value, days - 1)
  }

  // ------------------------------------------------------------------ adding months

  /** Calendar arithmetic: the month counted on, the day kept or cut to the month's last. */
  function AddMonths(d: Date, months: nat): Option<Date>
    requires IsDate(d)
  {
    var index := d.month - 1 + months;
    var year, month := d.year + index / 12, index % 12 + 1;
    if year > MAX_YEAR then None
    else Some(Date(year, month, if d.day <= DaysInMonth(year, month) then d.day else DaysInMonth(year, month)))
  }

  /** Exactly so many months later; the day is the same, or the month is too short and it is its last. */
  lemma AddMonthsIsExact(d: Date, months: nat)
    requires IsDate(d)
    ensures AddMonths(d, months).Some? <==> (MonthIndex(d.year, d.month) + months) / 12 <= MAX_YEAR
    ensures AddMonths(d, months).Some? ==>
              var r := AddMonths(d, months).value;
              && IsDate(r) && MonthIndex(r.year, r.month) == MonthIndex(d.year, d.month) + months
              && (r.day == d.day || (r.day == DaysInMonth(r.year, r.month) < d.day))
  {}

  /** A month is 28 to 31 days. */
  lemma MonthsAdvance(year: int, month: nat, y: int, m: nat)
    requires 1 <= month <= 12 && 1 <= m <= 12
    requires MonthIndex(y, m) >= MonthIndex(year, month)
    ensures var n := MonthIndex(y, m) - MonthIndex(year, month);
            28 * n <= MonthStart(y, m) - MonthStart(year, month) <= 31 * n
    decreases MonthIndex(y, m) - MonthIndex(year, month)
  {
    hide MonthStart;
    if MonthIndex(y, m) > MonthIndex(year, month) {
      var (y1, m1) := NextMonth(year, month);
      MonthsAdjoin(year, month);
      MonthsAdvance(y1, m1, y, m);
    } else {
      assert y == year && m == month;
    }
  }

  const LAST_DAY := Date(MAX_YEAR, 12, 31)

  /** No date comes after the last day. */
  lemma UpToLastDay(d: Date)
    requires IsDate(d)
    ensures DayNumber(d) <= DayNumber(LAST_DAY)
    ensures NextDay(d).None? <==> d == LAST_DAY
  {
    hide MonthStart;
    MonthsAdjoin(d.year, d.month);
    var (y, m) := NextMonth(d.year, d.month);
    if MonthIndex(y, m) <= MonthIndex(MAX_YEAR, 12) { MonthsAdvance(y, m, MAX_YEAR, 12); }
  }

  /** Days are counted exactly, and the count fails exactly beyond the last day. */
  lemma {:induction false} AddDaysIsExact(d: Date, days: nat)
    requires IsDate(d)
    ensures AddDays(d, days).Some? <==> DayNumber(d) + days <= DayNumber(LAST_DAY)
    ensures AddDays(d, days).Some? ==>
              IsDate(AddDays(d, days).value) && DayNumber(AddDays(d, days).value) == DayNumber(d) + days
    decreases days
  {
    hide DayNumber;
    UpToLastDay(d);
    if days > 0 {
      NextDayIsNext(d);
      if NextDay(d).Some? { AddDaysIsExact(NextDay(d).value, days - 1); }
    }
  }

  lemma MonthsLater(d: Date, months: nat)
    requires IsDate(d) && months > 0 && AddMonths(d, months).Some?
    ensures DayNumber(d) < DayNumber(AddMonths(d, months).value) <= DayNumber(d) + 31 * months
  {
    hide MonthStart, AddMonths;
    AddMonthsIsExact(d, months);
    var r := AddMonths(d, months).value;
    MonthsAdvance(d.year, d.month, r.year, r.month);
  }

  /** P1M is 28 to 31 days. */
  lemma OneMonth(d: Date)
    requires IsDate(d) && AddMonths(d, 1).Some?
    ensures 28 <= DayNumber(AddMonths(d, 1).value) - DayNumber(d) <= 31
  {
    hide MonthStart, AddMonths;
    AddMonthsIsExact(d, 1);
    MonthsAdjoin(d.year, d.month);
    var r := AddMonths(d, 1).value;
    assert (r.year, r.month) == NextMonth(d.year, d.month);
  }

  lemma LeapShift(year: int, month: nat)
    ensures DaysBeforeMonth(year + 1, month) - DaysBeforeMonth(year, month) ==
            if month <= 2 then 0 else YearLength(year + 1) - YearLength(year)
    decreases month
  {
    if month > 1 { LeapShift(year, month - 1); }
  }

  /** P1Y is 365 or 366 days. */
  lemma OneYear(d: Date)
    requires IsDate(d) && AddMonths(d, 12).Some?
    ensures 365 <= DayNumber(AddMonths(d, 12).value) - DayNumber(d) <= 366
  {
    hide AddMonths, DaysBeforeYear, DaysBeforeMonth;
    AddMonthsIsExact(d, 12);
    var r := AddMonths(d, 12).value;
    assert r.year == d.year + 1 && r.month == d.month;
    YearsAdjoin(d.year);
    LeapShift(d.year, d.month);
  }

  // ------------------------------------------------------------------ periods

  datatype Unit = Days | Weeks | Months | Years

  datatype Period = Period(count: nat, unit: Unit)

  predicate IsPeriod(p: Period) { 1 <= p.count <= 999 }

  function AddToDate(d: Date, p: Period): Option<Date>
    requires IsDate(d)
  {
    match p.unit
    case Days => AddDays(d, p.count)
    case Weeks => AddDays(d, 7 * p.count)
    case Months => AddMonths(d, p.count)
    case Years => AddMonths(d, 12 * p.count)
  }

  /** `add_period`: the time of day stays; beyond the last year the program fails. */
  function AddPeriod(start: Moment, p: Period): Option<Moment>
    requires IsMoment(start)
  {
    var d := AddToDate(start.date, p);
    if d.None? then None else Some(start.(date := d.value))
  }

  /** A period always ends later than it starts, by its days or by its months. */
  lemma PeriodEndsLater(start: Moment, p: Period)
    requires IsMoment(start) && IsPeriod(p) && AddPeriod(start, p).Some?
    ensures var end := AddPeriod(start, p).value;
            && IsMoment(end) && end.seconds == start.seconds && Instant(start) < Instant(end)
            && (p.unit.Days? ==> DayNumber(end.date) == DayNumber(start.date) + p.count)
            && (p.unit.Weeks? ==> DayNumber(end.date) == DayNumber(start.date) + 7 * p.count)
            && (p.unit.Months? ==> MonthIndex(end.date.year, end.date.month) ==
                                   MonthIndex(start.date.year, start.date.month) + p.count)
            && (p.unit.Years? ==> end.date.year == start.date.year + p.count && end.date.month == start.date.month)
  {
    hide DayNumber, AddMonths, AddDays;
    match p.unit
    case Days => AddDaysIsExact(start.date, p.count);
    case Weeks => AddDaysIsExact(start.date, 7 * p.count);
    case Months =>
      AddMonthsIsExact(start.date, p.count);
      MonthsLater(start.date, p.count);
    case Years =>
      AddMonthsIsExact(start.date, 12 * p.count);
      MonthsLater(start.date, 12 * p.count);
  }

  /** A period has an end exactly when its days, or its months, stay within the last year of the calendar. */
  lemma PeriodEndsExactly(start: Moment, p: Period)
    requires IsMoment(start)
    ensures AddPeriod(start, p).Some? <==>
              match p.unit
              case Days => DayNumber(start.date) + p.count <= DayNumber(LAST_DAY)
              case Weeks => DayNumber(start.date) + 7 * p.count <= DayNumber(LAST_DAY)
              case Months => (MonthIndex(start.date.year, start.date.month) + p.count) / 12 <= MAX_YEAR
              case Years => start.date.year + p.count <= MAX_YEAR
  {
    hide DayNumber, AddMonths, AddDays;
    match p.unit
    case Days => AddDaysIsExact(start.date, p.count);
    case Weeks => AddDaysIsExact(start.date, 7 * p.count);
    case Months => AddMonthsIsExact(start.date, p.count);
    case Years => AddMonthsIsExact(start.date, 12 * p.count);
  }

  // ------------------------------------------------------------------ the duration grammar

  function UpperChar(c: char): char { if 'a' <= c <= 'z' then 'A' + (c - 'a') else c }

  function Upper(s: string): (r: string)
    ensures |r| == |s| && forall k :: 0 <= k < |s| ==> r[k] == UpperChar(s[k])
  {
    if |s| == 0 then "" else [UpperChar(s[0])] + Upper(s[1..])
  }

  predicate IsUnit(c: char) { c == 'D' || c == 'W' || c == 'M' || c == 'Y' }

  /** `^P([1-9][0-9]{0,2})([DWMY])$` */
  predicate Matches(s: string) {
    && 3 <= |s| <= 5 && s[0] == 'P' && IsUnit(s[|s| - 1])
    && AllDigits(s[1..|s| - 1]) && s[1] != '0'
  }

  function ParsePeriod(u: Tables, value: string): Option<string> {
    var normalized := Upper(Strip(u, value));
    if Matches(normalized) then Some(normalized) else None
  }

  /** A configured period is accepted exactly when, trimmed and in capitals, it is a written period. */
  lemma ParsedExactly(u: Tables, value: string)
    ensures ParsePeriod(u, value).Some? <==> exists p :: IsPeriod(p) && Written(p) == Upper(Strip(u, value))
    ensures ParsePeriod(u, value).Some? ==> Matches(ParsePeriod(u, value).value)
  {
    hide Strip, Upper, Written, Matches;
    GrammarIsPeriods(Upper(Strip(u, value)));
  }

  /** The letters of a written period in either case. */
  predicate IsLowerOf(c: char, d: char) {
    || (c == 'p' && d == 'P') || (c == 'd' && d == 'D') || (c == 'w' && d == 'W')
    || (c == 'm' && d == 'M') || (c == 'y' && d == 'Y')
  }

  /** A written period is accepted with whitespace around it and in letters of either case. */
  lemma AnyCaseIsRead(u: Tables, value: string, p: Period)
    requires IsPeriod(p) && |Strip(u, value)| == |Written(p)|
    requires forall k :: 0 <= k < |Written(p)| ==>
               Strip(u, value)[k] == Written(p)[k] || IsLowerOf(Strip(u, value)[k], Written(p)[k])
    ensures ParsePeriod(u, value) == Some(Written(p))
  {
    hide Strip;
    WrittenMatches(p);
    forall k | 0 <= k < |Written(p)| ensures UpperChar(Written(p)[k]) == Written(p)[k] { WrittenIsUpper(p, k); }
    assert Upper(Strip(u, value)) == Written(p);
  }

  lemma WrittenIsUpper(p: Period, k: nat)
    requires IsPeriod(p) && k < |Written(p)|
    ensures UpperChar(Written(p)[k]) == Written(p)[k]
  {
    DigitsRead(p.count);
    if 0 < k < |Written(p)| - 1 { assert Written(p)[k] == Digits(p.count)[k - 1]; }
  }

  function UnitOf(c: char): Unit {
    if c == 'D' then Days else if c == 'W' then Weeks else if c == 'M' then Months else Years
  }

  /** What `add_period` reads from a period. */
  function ReadPeriod(s: string): Period
    requires Matches(s)
  {
    Period(Number(s[1..|s| - 1]), UnitOf(s[|s| - 1]))
  }

  function Letter(unit: Unit): char {
    match unit case Days => 'D' case Weeks => 'W' case Months => 'M' case Years => 'Y'
  }

  function Written(p: Period): string { "P" + Digits(p.count) + [Letter(p.unit)] }

  lemma {:induction false} NumberIsBounded(s: string)
    requires AllDigits(s) && |s| <= 3
    ensures Number(s) <= if |s| == 0 then 0 else if |s| == 1 then 9 else if |s| == 2 then 99 else 999
  {
    if |s| > 0 { NumberIsBounded(s[..|s| - 1]); }
  }

  lemma LastDigit(n: nat, c: char)
    requires IsDigit(c)
    ensures (10 * n + (c - '0') as int) / 10 == n && (10 * n + (c - '0') as int) % 10 == (c - '0') as int
    ensures Digit((c - '0') as int) == c
  {}

  lemma {:induction false} NumberIsWritten(s: string)
    requires AllDigits(s) && |s| >= 1 && s[0] != '0'
    ensures Number(s) >= 1 && Digits(Number(s)) == s
  {
    var front, last := s[..|s| - 1], s[|s| - 1];
    LastDigit(Number(front), last);
    if |s| == 1 {
      assert Number(front) == 0;
    } else {
      NumberIsWritten(front);
      assert Number(s) >= 10;
      assert front + [last] == s;
    }
  }

  /** The grammar is exactly the written periods of one to 999 units. */
  lemma GrammarIsPeriods(s: string)
    ensures Matches(s) <==> exists p :: IsPeriod(p) && Written(p) == s
    ensures Matches(s) ==> IsPeriod(ReadPeriod(s)) && Written(ReadPeriod(s)) == s
  {
    if Matches(s) {
      NumberIsBounded(s[1..|s| - 1]);
      NumberIsWritten(s[1..|s| - 1]);
      assert s == "P" + s[1..|s| - 1] + [s[|s| - 1]];
      assert Written(ReadPeriod(s)) == s;
    }
    forall p | IsPeriod(p) && Written(p) == s ensures Matches(s) { WrittenMatches(p); }
  }

  /** What is written is read back. */
  lemma WrittenMatches(p: Period)
    requires IsPeriod(p)
    ensures Matches(Written(p)) && ReadPeriod(Written(p)) == p
  {
    DigitsRead(p.count);
    DigitsAreFew(p.count);
    var s := Written(p);
    assert s[1..|s| - 1] == Digits(p.count);
  }

  lemma DigitsAreFew(n: nat)
    requires n <= 999
    ensures |Digits(n)| <= 3
  {
    if n >= 10 {
      DigitsRead(n / 10 / 10);
      assert |Digits(n / 10)| <= 2 by {
        if n / 10 >= 10 { assert Digits(n / 10) == Digits(n / 10 / 10) + [Digit(n / 10 % 10)]; }
      }
    }
  }
}
