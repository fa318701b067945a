/** Proleptic Gregorian dates as Python's `datetime` handles them: leap years, day of
    the year (`%j`), the weekday, the Sunday-based week number (`%U`), `strptime` with
    `'%d-%m-%Y'` and the `DD/MM/YYYY - DD/MM/YYYY` column label. */
module Calendar {
  import opened Outcomes
  import opened Text
  import opened Order

  datatype Date = Date(year: int, month: int, day: int)

  predicate IsLeap(y: int) { y % 4 == 0 && (y % 100 != 0 || y % 400 == 0) }

  function DaysInYear(y: int): int { if IsLeap(y) then 366 else 365 }

  function DaysInMonth(y: int, m: int): int
  {
    if m == 2 then (if IsLeap(y) then 29 else 28)
    else if m == 4 || m == 6 || m == 9 || m == 11 then 30
    else 31
  }

  /** The dates `datetime` can represent: years 1 to 9999, real months and days. */
  predicate ValidDate(d: Date)
  {
    1 <= d.year <= 9999 && 1 <= d.month <= 12 && 1 <= d.day <= DaysInMonth(d.year, d.month)
  }

  /** Days of the year `y` before the first day of month `m`. */
  function DaysBeforeMonth(y: int, m: int): int
    requires 1 <= m <= 13
  {
    if m == 1 then 0 else DaysBeforeMonth(y, m - 1) + DaysInMonth(y, m - 1)
  }

  lemma DaysBeforeYearEnd(y: int)
    ensures DaysBeforeMonth(y, 13) == DaysInYear(y)
  {
    assert DaysBeforeMonth(y, 2) == 31;
    assert DaysBeforeMonth(y, 3) == 31 + DaysInMonth(y, 2);
    assert DaysBeforeMonth(y, 4) == DaysBeforeMonth(y, 3) + 31;
    assert DaysBeforeMonth(y, 5) == DaysBeforeMonth(y, 3) + 61;
    assert DaysBeforeMonth(y, 6) == DaysBeforeMonth(y, 3) + 92;
    assert DaysBeforeMonth(y, 7) == DaysBeforeMonth(y, 3) + 122;
    assert DaysBeforeMonth(y, 8) == DaysBeforeMonth(y, 3) + 153;
    assert DaysBeforeMonth(y, 9) == DaysBeforeMonth(y, 3) + 184;
    assert DaysBeforeMonth(y, 10) == DaysBeforeMonth(y, 3) + 214;
    assert DaysBeforeMonth(y, 11) == DaysBeforeMonth(y, 3) + 245;
    assert DaysBeforeMonth(y, 12) == DaysBeforeMonth(y, 3) + 275;
  }

  lemma {:induction false} DaysBeforeMonthMonotone(y: int, m1: int, m2: int)
    requires 1 <= m1 <= m2 <= 13
    ensures DaysBeforeMonth(y, m1) <= DaysBeforeMonth(y, m2)
    decreases m2 - m1
  {
    if m1 < m2 {
      DaysBeforeMonthMonotone(y, m1, m2 - 1);
    }
  }

  /** `tm_yday + 1`, the number `%j` prints. */
  function DayOfYear(d: Date): (j: int)
    requires ValidDate(d)
    ensures 1 <= j <= DaysInYear(d.year)
  {
    DaysBeforeYearEnd(d.year);
    DaysBeforeMonthMonotone(d.year, 1, d.month);
    DaysBeforeMonthMonotone(d.year, d.month + 1, 13);
    DaysBeforeMonth(d.year, d.month) + d.day
  }

  /** The month holding day `j` of year `y`, searched from month `m` on. */
  function MonthOf(y: int, j: int, m: int): (r: int)
    requires 1 <= m <= 12 && DaysBeforeMonth(y, m) < j <= DaysInYear(y)
    ensures m <= r <= 12 && DaysBeforeMonth(y, r) < j <= DaysBeforeMonth(y, r + 1)
    decreases 12 - m
  {
    DaysBeforeYearEnd(y);
    if m == 12 || j <= DaysBeforeMonth(y, m + 1) then m else MonthOf(y, j, m + 1)
  }

  /** The date with day of the year `j` in year `y`, as `strptime` with `'%Y-%j'` finds it;
      `None` where it raises. `%j` takes 1 to 366 in every year and counts on from
      1 January, so day 366 of a common year is 1 January of the next year. */
  function FromDayOfYear(y: int, j: int): (r: Option<Date>)
    ensures 1 <= y <= 9999 && 1 <= j <= DaysInYear(y) ==>
      r.Some? && ValidDate(r.value) && r.value.year == y && DayOfYear(r.value) == j
    ensures 1 <= y < 9999 && j == 366 && !IsLeap(y) ==> r == Some(Date(y + 1, 1, 1))
    ensures r.Some? <==> 1 <= y <= 9999 && 1 <= j <= 366 && (j <= DaysInYear(y) || y < 9999)
    ensures r.Some? ==> ValidDate(r.value)
  {
    if 1 <= y <= 9999 && 1 <= j <= DaysInYear(y) then
      var m := MonthOf(y, j, 1);
      Some(Date(y, m, j - DaysBeforeMonth(y, m)))
    else if 1 <= y < 9999 && j == 366 then Some(Date(y + 1, 1, 1))
    else None
  }

  /** A valid date is recovered from its year and its day of the year. */
  lemma FromDayOfYearRoundTrip(d: Date)
    requires ValidDate(d)
    ensures FromDayOfYear(d.year, DayOfYear(d)) == Some(d)
  {
    var y, j := d.year, DayOfYear(d);
    var m := MonthOf(y, j, 1);
    assert DaysBeforeMonth(y, d.month + 1) == DaysBeforeMonth(y, d.month) + DaysInMonth(y, d.month);
    MonthBracketUnique(y, j, m, d.month);
  }

  /** Day `j` of a year lies in one month only. */
  lemma MonthBracketUnique(y: int, j: int, a: int, b: int)
    requires 1 <= a <= 12 && 1 <= b <= 12
    requires DaysBeforeMonth(y, a) < j <= DaysBeforeMonth(y, a + 1)
    requires DaysBeforeMonth(y, b) < j <= DaysBeforeMonth(y, b + 1)
    ensures a == b
  {
    if a < b {
      DaysBeforeMonthMonotone(y, a + 1, b);
    } else if b < a {
      DaysBeforeMonthMonotone(y, b + 1, a);
    }
  }

  /** Within one year, the day of the year tells dates apart. */
  lemma DayOfYearInjective(a: Date, b: Date)
    requires ValidDate(a) && ValidDate(b) && a.year == b.year
    requires DayOfYear(a) == DayOfYear(b)
    ensures a == b
  {
    FromDayOfYearRoundTrip(a);
    FromDayOfYearRoundTrip(b);
  }

  /** Days before 1 January of year `y`, counting from 1 January of year 1. */
  function DaysBeforeYear(y: int): int
  {
    var p := y - 1;
    365 * p + p / 4 - p / 100 + p / 400
  }

  /** Python's `toordinal()`: 1 January of year 1 is day 1. */
  function Ordinal(d: Date): int
    requires ValidDate(d)
  {
    DaysBeforeYear(d.year) + DayOfYear(d)
  }

  /** The weekday of day `j` of year `y` with Sunday as 0, C's `tm_wday`; day 1 of the
      ordinal count was a Monday. */
  function WeekdayAt(y: int, j: int): (w: int)
    ensures 0 <= w < 7
  {
    (DaysBeforeYear(y) + j) % 7
  }

  /** `%U` for day `j` of year `y`: the week number with weeks starting on Sunday, so that
      the days before the first Sunday are week 0. */
  function WeekAt(y: int, j: int): int
  {
    (j - 1 + 7 - WeekdayAt(y, j)) / 7
  }

  function Weekday(d: Date): int
    requires ValidDate(d)
  {
    WeekdayAt(d.year, DayOfYear(d))
  }

  function Week(d: Date): (w: int)
    requires ValidDate(d)
    ensures 0 <= w <= 53
  {
    WeekAt(d.year, DayOfYear(d))
  }

  /** The first day of a year is in week 1 when it is a Sunday and in week 0 otherwise. */
  lemma WeekOfFirstDay(y: int)
    ensures WeekAt(y, 1) == (if WeekdayAt(y, 1) == 0 then 1 else 0)
  {
  }

  /** The week number goes up by one exactly on Sundays. */
  lemma WeekStep(y: int, j: int)
    ensures WeekAt(y, j + 1) == WeekAt(y, j) + (if WeekdayAt(y, j + 1) == 0 then 1 else 0)
  {
    var a := DaysBeforeYear(y) + j;
    var w := a % 7;
    assert a == 7 * (a / 7) + w;
    var w' := if w == 6 then 0 else w + 1;
    assert a + 1 == 7 * (a / 7 + (if w == 6 then 1 else 0)) + w';
    assert WeekdayAt(y, j + 1) == w';
    var q := (j - 1 + 7 - w) / 7;
    assert j - 1 + 7 - w == 7 * q + (j - 1 + 7 - w) % 7;
    if w == 6 {
      assert (j + 7) == 7 * (q + 1) + (j - 1 + 7 - w) % 7;
    } else {
      assert j + 7 - w' == 7 * q + (j - 1 + 7 - w) % 7;
    }
  }

  /** The chronological order of dates: year, then month, then day. */
  function DateKey(d: Date): seq<int> { [d.year, d.month, d.day] }

  function DateLess(a: Date, b: Date): bool { IntSeqLess(DateKey(a), DateKey(b)) }

  lemma DateLessIsStrictTotal()
    ensures StrictTotalOrder(DateLess)
  {
    IntSeqLessIsStrictTotal();
    forall a: Date, b: Date | DateKey(a) == DateKey(b) ensures a == b {
      assert a.year == DateKey(a)[0] && a.month == DateKey(a)[1] && a.day == DateKey(a)[2];
    }
    PullbackStrictTotal(DateKey, IntSeqLess, DateLess);
  }

  /** Within one year the chronological order is the order of the days of the year. */
  lemma DateLessInYear(a: Date, b: Date)
    requires ValidDate(a) && ValidDate(b) && a.year == b.year
    ensures DateLess(a, b) <==> DayOfYear(a) < DayOfYear(b)
  {
    var ka, kb := DateKey(a), DateKey(b);
    assert ka[1..] == [a.month, a.day] && kb[1..] == [b.month, b.day];
    assert ka[1..][1..] == [a.day] && kb[1..][1..] == [b.day];
    assert DateLess(a, b) == LexLess(ka[1..], kb[1..], IntLess);
    if a.month < b.month {
      DaysBeforeMonthMonotone(a.year, a.month + 1, b.month);
    } else if b.month < a.month {
      DaysBeforeMonthMonotone(a.year, b.month + 1, a.month);
    } else {
      assert LexLess(ka[1..], kb[1..], IntLess) == LexLess([a.day], [b.day], IntLess);
      assert [a.day][1..] == [] && [b.day][1..] == [];
      assert LexLess([a.day], [b.day], IntLess) == (a.day < b.day);
    }
  }

  /** A `%d` or `%m` field: one or two digits whose value lies in `lo..hi`. */
  function ParseField(s: string, lo: nat, hi: nat): (r: Option<nat>)
    ensures r.Some? ==> lo <= r.value <= hi
  {
    if 1 <= |s| <= 2 && AllDigits(s) && lo <= DigitsValue(s) <= hi then Some(DigitsValue(s))
    else None
  }

  /** A `%d` field: one or two digits as `%m` takes them, or one digit after a space. */
  function DayField(s: string): (r: Option<nat>)
    ensures r.Some? ==> 1 <= r.value <= 31
  {
    if |s| == 2 && s[0] == ' ' && IsDigit(s[1]) && s[1] != '0' then Some(DigitValue(s[1]))
    else ParseField(s, 1, 31)
  }

  /** `datetime.strptime(s, '%d-%m-%Y')`: `%d` takes one or two digits or a space and a
      digit, `%m` one or two digits, `%Y` exactly four, nothing may follow, and the date
      must exist. */
  function ParseDate(s: string): (r: Result<Date>)
    ensures r.Ok? ==> ValidDate(r.value)
  {
    var parts := Split(s, "-");
    if |parts| != 3 then Err(ValueError(s))
    else
      var day := DayField(parts[0]);
      var month := ParseField(parts[1], 1, 12);
      var year := if |parts[2]| == 4 && AllDigits(parts[2]) then Some(DigitsValue(parts[2])) else None;
      if day.None? || month.None? || year.None? then Err(ValueError(s))
      else
        var d := Date(year.value, month.value, day.value);
        if ValidDate(d) then Ok(d) else Err(ValueError(s))
  }

  /** `f'{d:%d-%m-%Y}'` for a year of four digits: the text `ParseDate` reads. */
  function FormatDate(d: Date): string
    requires ValidDate(d) && d.year >= 1000
  {
    Join([Pad2(d.day), Pad2(d.month), NatToString(d.year)], "-")
  }

  lemma DigitsLack(s: string, c: char)
    requires AllDigits(s) && !IsDigit(c)
    ensures Lacks(s, c)
  {
    DigitsLackPoint(s, c);
  }

  /** Every valid date with a four-digit year is read back from its `dd-mm-YYYY` text. */
  lemma ParseFormatDate(d: Date)
    requires ValidDate(d) && d.year >= 1000
    ensures ParseDate(FormatDate(d)) == Ok(d)
  {
    Pad2RoundTrip(d.day);
    Pad2RoundTrip(d.month);
    DigitsLack(Pad2(d.day), '-');
    YearText(d.year);
    ParseJoinedDate(Pad2(d.day), Pad2(d.month), NatToString(d.year), d);
  }

  /** A day below 10 may be written after a space, `' 5-01-2020'`, but a month may not:
      `'05- 1-2020'` is refused. */
  lemma ParseSpacedDay(d: Date)
    requires ValidDate(d) && d.day <= 9 && d.year >= 1000
    ensures ParseDate(Join([[' ', DigitChar(d.day)], Pad2(d.month), NatToString(d.year)], "-")) == Ok(d)
    ensures d.month <= 9 ==>
      ParseDate(Join([Pad2(d.day), [' ', DigitChar(d.month)], NatToString(d.year)], "-")).Err?
  {
    var a := [' ', DigitChar(d.day)];
    assert Lacks(a, '-');
    Pad2RoundTrip(d.month);
    YearText(d.year);
    ParseJoinedDate(a, Pad2(d.month), NatToString(d.year), d);
    if d.month <= 9 {
      var parts := [Pad2(d.day), [' ', DigitChar(d.month)], NatToString(d.year)];
      Pad2RoundTrip(d.day);
      DigitsLack(parts[0], '-');
      assert Lacks(parts[1], '-');
      DigitsLack(parts[2], '-');
      SplitJoin(parts, "-");
      assert !AllDigits(parts[1]) by { assert !IsDigit(parts[1][0]); }
    }
  }

  lemma YearText(y: nat)
    requires 1000 <= y <= 9999
    ensures |NatToString(y)| == 4 && DigitsValue(NatToString(y)) == y
  {
    NatToStringRoundTrip(y);
    assert Pow10(3) == 1000 && Pow10(4) == 10000;
    NatToStringLength(y, 4);
    NatToStringLengthAtLeast(y, 4);
  }

  /** Three fields holding the day, the month and the four-digit year, joined by `-`, read
      back as that date. */
  lemma ParseJoinedDate(a: string, b: string, c: string, d: Date)
    requires ValidDate(d)
    requires Lacks(a, '-') && DayField(a) == Some(d.day) && |b| == 2 && ParseNat(b) == Some(d.month)
    requires |c| == 4 && AllDigits(c) && DigitsValue(c) == d.year
    ensures ParseDate(Join([a, b, c], "-")) == Ok(d)
  {
    DigitsLack(b, '-');
    DigitsLack(c, '-');
    SplitJoin([a, b, c], "-");
    ParseFields(Join([a, b, c], "-"), a, b, c, d);
  }

  lemma ParseFields(s: string, a: string, b: string, c: string, d: Date)
    requires ValidDate(d) && Split(s, "-") == [a, b, c]
    requires DayField(a) == Some(d.day) && |b| == 2 && ParseNat(b) == Some(d.month)
    requires |c| == 4 && AllDigits(c) && DigitsValue(c) == d.year
    ensures ParseDate(s) == Ok(d)
  {
  }

  /** A string of `n` digits has a value below `10^n`. */
  lemma {:induction false} DigitsBound(s: string)
    requires AllDigits(s)
    ensures DigitsValue(s) < Pow10(|s|)
    decreases |s|
  {
    if s != [] {
      DigitsBound(s[..|s| - 1]);
    }
  }

  /** `f'{d.day:02d}/{d.month:02d}/{d.year}'`, one half of a column label. */
  function DateText(d: Date): string
    requires ValidDate(d)
  {
    Join([Pad2(d.day), Pad2(d.month), NatToString(d.year)], "/")
  }

  /** The column label of a period that starts at `s` and ends at `e`. */
  function Label(s: Date, e: Date): string
    requires ValidDate(s) && ValidDate(e)
  {
    Join([DateText(s), DateText(e)], " - ")
  }

  lemma DateTextLacks(d: Date, c: char)
    requires ValidDate(d) && !IsDigit(c) && c != '/'
    ensures Lacks(DateText(d), c)
  {
    var parts := [Pad2(d.day), Pad2(d.month), NatToString(d.year)];
    DigitsLack(parts[0], c);
    DigitsLack(parts[1], c);
    DigitsLack(parts[2], c);
    JoinLacks(parts, "/", c);
  }

  /** The label splits on `' - '` into its two halves, each of which holds no `'_'`, so the
      plot title's `st.split('_')[-1]` keeps the first half whole. */
  lemma LabelSplit(s: Date, e: Date)
    requires ValidDate(s) && ValidDate(e)
    ensures Split(Label(s, e), " - ") == [DateText(s), DateText(e)]
    ensures Split(DateText(s), "_") == [DateText(s)]
  {
    DateTextLacks(s, ' ');
    DateTextLacks(e, ' ');
    SplitJoin([DateText(s), DateText(e)], " - ");
    DateTextLacks(s, '_');
    SplitJoin([DateText(s)], "_");
  }

  /** Each half of a label names its date: day, month and year are read back from it. */
  lemma DateTextRoundTrip(d: Date)
    requires ValidDate(d)
    ensures var parts := Split(DateText(d), "/");
      |parts| == 3 && ParseNat(parts[0]) == Some(d.day) && ParseNat(parts[1]) == Some(d.month)
      && ParseNat(parts[2]) == Some(d.year)
  {
    var parts := [Pad2(d.day), Pad2(d.month), NatToString(d.year)];
    Pad2RoundTrip(d.day);
    Pad2RoundTrip(d.month);
    NatToStringRoundTrip(d.year);
    DigitsLack(parts[0], '/');
    DigitsLack(parts[1], '/');
    DigitsLack(parts[2], '/');
    SplitJoin(parts, "/");
  }
}
