/** Resampling a date-indexed series (`query_data.adapt_resolution`) and the collapse of a
    series onto one climatological year (the `keep_separate_dates=False` branch of
    `query_data.extract_data`). */
module Resample {
  import opened Outcomes
  import opened Text
  import opened Order
  import opened Grouping
  import opened Stats
  import opened Calendar
  import opened Frames

  // ---------------------------------------------------------------- grouped means

  /** One row per group, dated by `stamp` of the group's key and holding the group's
      column means; the first key `stamp` rejects ends the computation with its error. */
  function GroupRows<K>(gs: seq<Group<K, Row>>, n: nat, stamp: K -> Result<Date>): (r: Result<seq<Row>>)
    requires NonEmptyGroups(gs)
    ensures r.Ok? <==> forall i :: 0 <= i < |gs| ==> stamp(gs[i].key).Ok?
    ensures r.Ok? ==> |r.value| == |gs| && forall i :: 0 <= i < |gs| ==>
      r.value[i] == Row(stamp(gs[i].key).value, ColumnMeans(gs[i].members, n))
    decreases |gs|
  {
    if gs == [] then Ok([])
    else
      match stamp(gs[0].key)
      case Err(e) => Err(e)
      case Ok(d) =>
        var tail := gs[1..];
        assert forall i :: 1 <= i < |gs| ==> gs[i] == tail[i - 1];
        assert NonEmptyGroups(tail);
        match GroupRows(tail, n, stamp)
        case Err(e) => Err(e)
        case Ok(rest) => Ok([Row(d, ColumnMeans(gs[0].members, n))] + rest)
  }

  /** `GroupRows` over `GroupBy(rows, key, less)`. */
  function Resampled<K(==, !new)>(rows: seq<Row>, key: Row -> K, less: (K, K) -> bool, stamp: K -> Result<Date>, n: nat)
    : Result<seq<Row>>
    requires StrictTotalOrder(less)
  {
    GroupByInvariant(rows, key, less);
    GroupRows(GroupBy(rows, key, less), n, stamp)
  }

  /** Resampling succeeds exactly when `stamp` accepts the key of every input row. */
  lemma ResampledOk<K(!new)>(rows: seq<Row>, key: Row -> K, less: (K, K) -> bool, stamp: K -> Result<Date>, n: nat)
    requires StrictTotalOrder(less)
    ensures Resampled(rows, key, less, stamp, n).Ok? <==> forall x :: x in rows ==> stamp(key(x)).Ok?
  {
    var gs := GroupBy(rows, key, less);
    GroupBySpec(rows, key, less);
    if forall x :: x in rows ==> stamp(key(x)).Ok? {
      forall g | 0 <= g < |gs| ensures stamp(gs[g].key).Ok? {
        GroupMember(rows, key, less, g);
      }
    } else {
      var x :| x in rows && !stamp(key(x)).Ok?;
      var k :| 0 <= k < |rows| && rows[k] == x;
      var g :| 0 <= g < |gs| && gs[g].key == key(rows[k]);
    }
  }

  /** The row a resampling gives the group of input row `x`. */
  function GroupRow<K(==, !new)>(rows: seq<Row>, key: Row -> K, stamp: K -> Result<Date>, n: nat, x: Row): Row
    requires x in rows && stamp(key(x)).Ok?
  {
    FilterKeys(rows, key, key(x));
    Row(stamp(key(x)).value, ColumnMeans(Filter(rows, key, key(x)), n))
  }

  /** Each resampled row is the row of the group of some input row. */
  lemma ResampledSound<K(!new)>(rows: seq<Row>, key: Row -> K, less: (K, K) -> bool, stamp: K -> Result<Date>, n: nat, m: Row)
    requires StrictTotalOrder(less) && Resampled(rows, key, less, stamp, n).Ok?
    requires m in Resampled(rows, key, less, stamp, n).value
    ensures exists x :: x in rows && stamp(key(x)).Ok? && m == GroupRow(rows, key, stamp, n, x)
  {
    var gs := GroupBy(rows, key, less);
    var out := Resampled(rows, key, less, stamp, n).value;
    var g :| 0 <= g < |out| && out[g] == m;
    GroupMember(rows, key, less, g);
    var x := gs[g].members[0];
    assert m == GroupRow(rows, key, stamp, n, x);
  }

  /** The group of every input row has its row. */
  lemma ResampledComplete<K(!new)>(rows: seq<Row>, key: Row -> K, less: (K, K) -> bool, stamp: K -> Result<Date>, n: nat, x: Row)
    requires StrictTotalOrder(less) && Resampled(rows, key, less, stamp, n).Ok?
    requires x in rows && stamp(key(x)).Ok?
    ensures GroupRow(rows, key, stamp, n, x) in Resampled(rows, key, less, stamp, n).value
  {
    var gs := GroupBy(rows, key, less);
    GroupBySpec(rows, key, less);
    var out := Resampled(rows, key, less, stamp, n).value;
    var k :| 0 <= k < |rows| && rows[k] == x;
    var g :| 0 <= g < |gs| && gs[g].key == key(rows[k]);
    assert out[g] == GroupRow(rows, key, stamp, n, x);
  }

  /** When `stamp` tells the keys apart, no two resampled rows share a date. */
  lemma ResampledDistinct<K(!new)>(rows: seq<Row>, key: Row -> K, less: (K, K) -> bool, stamp: K -> Result<Date>, n: nat)
    requires StrictTotalOrder(less) && Resampled(rows, key, less, stamp, n).Ok?
    requires forall x, y :: x in rows && y in rows && stamp(key(x)) == stamp(key(y)) ==> key(x) == key(y)
    ensures DistinctKeys(Resampled(rows, key, less, stamp, n).value, RowDate)
  {
    var gs := GroupBy(rows, key, less);
    GroupBySpec(rows, key, less);
    var out := Resampled(rows, key, less, stamp, n).value;
    forall i, j | 0 <= i < j < |out| ensures RowDate(out[i]) != RowDate(out[j]) {
      assert less(gs[i].key, gs[j].key);
      GroupMember(rows, key, less, i);
      GroupMember(rows, key, less, j);
    }
  }

  /** When `stamp` accepts every key and tells the keys apart, every resampled row is the
      row of the group of some input row, dated by the stamp of its key and holding the
      column means of exactly the input rows with that key, and no two rows share a date.
      (That the group of every input row has its row is `ResampledComplete`.) */
  lemma ResampledSpec<K(!new)>(rows: seq<Row>, key: Row -> K, less: (K, K) -> bool, stamp: K -> Result<Date>, n: nat)
    requires StrictTotalOrder(less)
    requires forall x :: x in rows ==> stamp(key(x)).Ok?
    requires forall x, y :: x in rows && y in rows && stamp(key(x)) == stamp(key(y)) ==> key(x) == key(y)
    ensures Resampled(rows, key, less, stamp, n).Ok?
    ensures var out := Resampled(rows, key, less, stamp, n).value;
      && DistinctKeys(out, RowDate)
      && (forall m :: m in out ==> exists x :: x in rows && stamp(key(x)).Ok? && m == GroupRow(rows, key, stamp, n, x))
  {
    ResampledOk(rows, key, less, stamp, n);
    ResampledDistinct(rows, key, less, stamp, n);
    var out := Resampled(rows, key, less, stamp, n).value;
    forall m | m in out ensures exists x :: x in rows && stamp(key(x)).Ok? && m == GroupRow(rows, key, stamp, n, x) {
      ResampledSound(rows, key, less, stamp, n, m);
    }
  }

  /** Sorting rows with pairwise distinct dates keeps exactly those rows and puts their
      dates in strictly ascending order. */
  lemma SortDistinctDates(ms: seq<Row>)
    requires DistinctKeys(ms, RowDate)
    ensures var s := SortBy(ms, RowDate, DateLess);
      && (forall m :: m in s <==> m in ms)
      && (forall i, j :: 0 <= i < j < |s| ==> DateLess(s[i].date, s[j].date))
  {
    DateLessIsStrictTotal();
    SortByDistinct(ms, RowDate, DateLess);
    var s := SortBy(ms, RowDate, DateLess);
    forall m ensures m in s <==> m in ms {
      assert m in s <==> m in multiset(s);
    }
  }

  /** `ResampledSpec` after `sort_index()`: the same rows in strictly ascending date order. */
  lemma SortedResampledSpec<K(!new)>(rows: seq<Row>, key: Row -> K, less: (K, K) -> bool, stamp: K -> Result<Date>, n: nat)
    requires StrictTotalOrder(less)
    requires forall x :: x in rows ==> stamp(key(x)).Ok?
    requires forall x, y :: x in rows && y in rows && stamp(key(x)) == stamp(key(y)) ==> key(x) == key(y)
    ensures Resampled(rows, key, less, stamp, n).Ok?
    ensures var out := SortBy(Resampled(rows, key, less, stamp, n).value, RowDate, DateLess);
      && (forall i, j :: 0 <= i < j < |out| ==> DateLess(out[i].date, out[j].date))
      && (forall m :: m in out ==> exists x :: x in rows && stamp(key(x)).Ok? && m == GroupRow(rows, key, stamp, n, x))
  {
    ResampledSpec(rows, key, less, stamp, n);
    SortDistinctDates(Resampled(rows, key, less, stamp, n).value);
  }

  /** After `sort_index()`, the group of every input row still has its row. */
  lemma SortedResampledComplete<K(!new)>(rows: seq<Row>, key: Row -> K, less: (K, K) -> bool, stamp: K -> Result<Date>, n: nat, x: Row)
    requires StrictTotalOrder(less)
    requires forall x :: x in rows ==> stamp(key(x)).Ok?
    requires forall x, y :: x in rows && y in rows && stamp(key(x)) == stamp(key(y)) ==> key(x) == key(y)
    requires x in rows
    ensures Resampled(rows, key, less, stamp, n).Ok?
    ensures GroupRow(rows, key, stamp, n, x) in SortBy(Resampled(rows, key, less, stamp, n).value, RowDate, DateLess)
  {
    ResampledOk(rows, key, less, stamp, n);
    ResampledDistinct(rows, key, less, stamp, n);
    ResampledComplete(rows, key, less, stamp, n, x);
    SortDistinctDates(Resampled(rows, key, less, stamp, n).value);
  }

  // ---------------------------------------------------------------- monthly

  /** The key of `groupby([index.month, index.year])`: a (month, year) tuple. */
  datatype MonthYear = MonthYear(month: int, year: int)

  function MonthYearCode(k: MonthYear): seq<int> { [k.month, k.year] }

  function MonthYearLess(a: MonthYear, b: MonthYear): bool
  {
    IntSeqLess(MonthYearCode(a), MonthYearCode(b))
  }

  lemma MonthYearLessIsStrictTotal()
    ensures StrictTotalOrder(MonthYearLess)
  {
    IntSeqLessIsStrictTotal();
    forall a: MonthYear, b: MonthYear | MonthYearCode(a) == MonthYearCode(b) ensures a == b {
      assert a.month == MonthYearCode(a)[0] && a.year == MonthYearCode(a)[1];
    }
    PullbackStrictTotal(MonthYearCode, IntSeqLess, MonthYearLess);
  }

  function MonthKey(r: Row): MonthYear { MonthYear(r.date.month, r.date.year) }

  /** A monthly group is dated the first of its month. */
  function MonthStart(k: MonthYear): Result<Date> { Ok(Date(k.year, k.month, 1)) }

  /** `adapt_resolution(data, 'monthly')`. */
  function Monthly(f: Frame): Frame
  {
    MonthYearLessIsStrictTotal();
    ResampledOk(f.rows, MonthKey, MonthYearLess, MonthStart, |f.columns|);
    SortIndex(Frame(f.columns, Resampled(f.rows, MonthKey, MonthYearLess, MonthStart, |f.columns|).value))
  }

  /** The monthly row of the group of `x`: dated the first of its month, holding the
      column means of the rows of that month, `x` among them. */
  lemma MonthRow(f: Frame, x: Row)
    requires x in f.rows
    ensures x in Filter(f.rows, MonthKey, MonthKey(x))
    ensures GroupRow(f.rows, MonthKey, MonthStart, |f.columns|, x)
      == Row(Date(x.date.year, x.date.month, 1), ColumnMeans(Filter(f.rows, MonthKey, MonthKey(x)), |f.columns|))
  {
    FilterKeys(f.rows, MonthKey, MonthKey(x));
  }

  /** Monthly resampling: rows in strictly ascending date order, each dated the first of a
      month of the input and holding the column means of exactly the input rows of that
      month and year. */
  lemma MonthlySpec(f: Frame)
    requires WellFormed(f)
    ensures Monthly(f).columns == f.columns && WellFormed(Monthly(f))
    ensures var out := Monthly(f).rows;
      forall i, j :: 0 <= i < j < |out| ==> DateLess(out[i].date, out[j].date)
    ensures forall m :: m in Monthly(f).rows ==> exists x :: (x in f.rows && x in Filter(f.rows, MonthKey, MonthKey(x)) &&
      m == Row(Date(x.date.year, x.date.month, 1), ColumnMeans(Filter(f.rows, MonthKey, MonthKey(x)), |f.columns|)))
  {
    var n := |f.columns|;
    MonthYearLessIsStrictTotal();
    SortedResampledSpec(f.rows, MonthKey, MonthYearLess, MonthStart, n);
    var out := Monthly(f).rows;
    forall m | m in out ensures exists x :: (x in f.rows && x in Filter(f.rows, MonthKey, MonthKey(x)) &&
      m == Row(Date(x.date.year, x.date.month, 1), ColumnMeans(Filter(f.rows, MonthKey, MonthKey(x)), n)))
    {
      var x :| x in f.rows && m == GroupRow(f.rows, MonthKey, MonthStart, n, x);
      MonthRow(f, x);
    }
    forall i | 0 <= i < |out| ensures |out[i].vals| == n && ValidDate(out[i].date) {
      assert out[i] in out;
      var x :| x in f.rows && out[i] == GroupRow(f.rows, MonthKey, MonthStart, n, x);
      var k :| 0 <= k < |f.rows| && f.rows[k] == x;
      MonthRow(f, x);
    }
  }

  /** Every month of the input has its row. */
  lemma MonthlyComplete(f: Frame, x: Row)
    requires x in f.rows
    ensures x in Filter(f.rows, MonthKey, MonthKey(x))
    ensures Row(Date(x.date.year, x.date.month, 1), ColumnMeans(Filter(f.rows, MonthKey, MonthKey(x)), |f.columns|)) in Monthly(f).rows
  {
    MonthYearLessIsStrictTotal();
    SortedResampledComplete(f.rows, MonthKey, MonthYearLess, MonthStart, |f.columns|, x);
    MonthRow(f, x);
  }

  // ---------------------------------------------------------------- weekly

  /** `strftime('%Y-%U')` of a row's date: the four-digit year, a dash and the two-digit
      Sunday-based week number. */
  function WeekKey(r: Row): string
  {
    if ValidDate(r.date) then ZeroPad(r.date.year, 4) + "-" + Pad2(Week(r.date)) else ""
  }

  /** `pd.to_datetime(f'{f[0:4]}-{int(f[-2:])*7+1}', format='%Y-%j')` for a group key `f`. */
  function WeekStart(key: string): (r: Result<Date>)
    ensures r.Ok? ==> ValidDate(r.value)
  {
    if |key| < 4 then Err(ValueError(key))
    else
      var yearText, weekText := key[..4], key[|key| - 2..];
      var week := ParseNat(weekText);
      if week.None? || !AllDigits(yearText) then Err(ValueError(key))
      else
        match FromDayOfYear(DigitsValue(yearText), week.value * 7 + 1)
        case None => Err(ValueError(key))
        case Some(d) => Ok(d)
  }

  /** The pieces of a weekly key: seven characters, the padded year, then the padded week. */
  lemma WeekKeyParts(r: Row)
    requires ValidDate(r.date)
    ensures var key := WeekKey(r);
      |key| == 7 && key[..4] == ZeroPad(r.date.year, 4) && key[5..] == Pad2(Week(r.date))
      && ParseNat(key[5..]) == Some(Week(r.date)) && AllDigits(key[..4])
      && DigitsValue(key[..4]) == r.date.year
  {
    ZeroPadRoundTrip(r.date.year, 4);
    assert Pow10(4) == 10000;
    Pad2RoundTrip(Week(r.date));
  }

  /** The key of a valid date is read back as its year and week number: the week is dated
      day `7 * week + 1` of that year when the week is at most 52, and the parse fails for
      week 53. */
  lemma WeekKeyParse(r: Row)
    requires ValidDate(r.date)
    ensures Week(r.date) <= 52 ==>
      WeekStart(WeekKey(r)) == Ok(FromDayOfYear(r.date.year, 7 * Week(r.date) + 1).value)
    ensures Week(r.date) > 52 ==> WeekStart(WeekKey(r)) == Err(ValueError(WeekKey(r)))
  {
    WeekKeyParts(r);
    var key := WeekKey(r);
    assert key[|key| - 2..] == key[5..];
  }

  /** Two valid dates share a weekly key exactly when they share year and week number. */
  lemma WeekKeyInjective(a: Row, b: Row)
    requires ValidDate(a.date) && ValidDate(b.date)
    ensures WeekKey(a) == WeekKey(b) <==> a.date.year == b.date.year && Week(a.date) == Week(b.date)
  {
    WeekKeyParts(a);
    WeekKeyParts(b);
  }

  /** `adapt_resolution(data, 'weekly')`. */
  function Weekly(f: Frame): Result<Frame>
  {
    StringLessIsStrictTotal();
    match Resampled(f.rows, WeekKey, StringLess, WeekStart, |f.columns|)
    case Err(e) => Err(e)
    case Ok(rows) => Ok(SortIndex(Frame(f.columns, rows)))
  }

  /** No date of the frame falls in week 53. */
  predicate NoWeek53(f: Frame)
  {
    forall x :: x in f.rows ==> ValidDate(x.date) && Week(x.date) <= 52
  }

  /** Weekly resampling fails exactly when some date falls in week 53. */
  lemma WeeklyFails(f: Frame)
    requires WellFormed(f)
    ensures Weekly(f).Err? <==> exists x :: x in f.rows && Week(x.date) == 53
    ensures Weekly(f).Ok? <==> NoWeek53(f)
  {
    StringLessIsStrictTotal();
    ResampledOk(f.rows, WeekKey, StringLess, WeekStart, |f.columns|);
    forall x | x in f.rows ensures WeekStart(WeekKey(x)).Ok? <==> Week(x.date) != 53 {
      var k :| 0 <= k < |f.rows| && f.rows[k] == x;
      WeekKeyParse(x);
    }
  }

  /** The date a week's row carries: day `7 * week + 1` of the year. */
  function WeekDate(d: Date): (r: Date)
    requires ValidDate(d) && Week(d) <= 52
    ensures ValidDate(r) && r.year == d.year && DayOfYear(r) == 7 * Week(d) + 1
  {
    FromDayOfYear(d.year, 7 * Week(d) + 1).value
  }

  /** A week's key parses to the date of its row. */
  lemma WeekStamp(x: Row)
    requires ValidDate(x.date) && Week(x.date) != 53
    ensures Week(x.date) <= 52 && WeekStart(WeekKey(x)) == Ok(WeekDate(x.date))
  {
    var w := Week(x.date);
    assert w <= 52;
    WeekKeyParse(x);
    assert 7 * w + 1 <= 365 <= DaysInYear(x.date.year);
    assert WeekDate(x.date) == FromDayOfYear(x.date.year, 7 * w + 1).value;
  }

  /** Two weeks dated alike are the same week. */
  lemma WeekDateInjective(x: Row, y: Row)
    requires ValidDate(x.date) && Week(x.date) <= 52 && ValidDate(y.date) && Week(y.date) <= 52
    requires WeekDate(x.date) == WeekDate(y.date)
    ensures WeekKey(x) == WeekKey(y)
  {
    WeekKeyInjective(x, y);
  }

  /** Without week 53, every key parses, and two keys parse to the same date only when
      they are the same key. */
  lemma WeekStamps(f: Frame)
    requires NoWeek53(f)
    ensures forall x :: x in f.rows ==> Week(x.date) <= 52 && WeekStart(WeekKey(x)) == Ok(WeekDate(x.date))
    ensures forall x, y :: x in f.rows && y in f.rows && WeekStart(WeekKey(x)) == WeekStart(WeekKey(y)) ==>
      WeekKey(x) == WeekKey(y)
  {
    forall x | x in f.rows ensures Week(x.date) <= 52 && WeekStart(WeekKey(x)) == Ok(WeekDate(x.date)) {
      WeekStamp(x);
    }
    forall x, y | x in f.rows && y in f.rows && WeekStart(WeekKey(x)) == WeekStart(WeekKey(y))
      ensures WeekKey(x) == WeekKey(y)
    {
      WeekDateInjective(x, y);
    }
  }
  /** The weekly row of the group of `x`: dated by its week, holding the column means of
      the rows of that week, `x` among them. */
  lemma WeekRow(f: Frame, x: Row)
    requires NoWeek53(f) && x in f.rows
    ensures x in Filter(f.rows, WeekKey, WeekKey(x))
    ensures WeekStart(WeekKey(x)) == Ok(WeekDate(x.date))
    ensures GroupRow(f.rows, WeekKey, WeekStart, |f.columns|, x)
      == Row(WeekDate(x.date), ColumnMeans(Filter(f.rows, WeekKey, WeekKey(x)), |f.columns|))
  {
    WeekStamp(x);
    FilterKeys(f.rows, WeekKey, WeekKey(x));
  }

  /** Weekly resampling without week 53: rows in strictly ascending date order, each dated
      day `7 * week + 1` of a week of the input and holding the column means of exactly the
      input rows of that year and week. */
  lemma WeeklySpec(f: Frame)
    requires WellFormed(f) && NoWeek53(f)
    ensures Weekly(f).Ok?
    ensures Weekly(f).value.columns == f.columns && WellFormed(Weekly(f).value)
    ensures var out := Weekly(f).value.rows;
      forall i, j :: 0 <= i < j < |out| ==> DateLess(out[i].date, out[j].date)
    ensures forall m :: m in Weekly(f).value.rows ==> exists x :: (x in f.rows && x in Filter(f.rows, WeekKey, WeekKey(x)) &&
      m == Row(WeekDate(x.date), ColumnMeans(Filter(f.rows, WeekKey, WeekKey(x)), |f.columns|)))
  {
    var n := |f.columns|;
    StringLessIsStrictTotal();
    WeekStamps(f);
    SortedResampledSpec(f.rows, WeekKey, StringLess, WeekStart, n);
    var out := Weekly(f).value.rows;
    forall m | m in out ensures exists x :: (x in f.rows && x in Filter(f.rows, WeekKey, WeekKey(x)) &&
      m == Row(WeekDate(x.date), ColumnMeans(Filter(f.rows, WeekKey, WeekKey(x)), n)))
    {
      var x :| x in f.rows && m == GroupRow(f.rows, WeekKey, WeekStart, n, x);
      WeekRow(f, x);
    }
    forall i | 0 <= i < |out| ensures |out[i].vals| == n && ValidDate(out[i].date) {
      assert out[i] in out;
      var x :| x in f.rows && out[i] == GroupRow(f.rows, WeekKey, WeekStart, n, x);
      WeekRow(f, x);
    }
  }

  /** Without week 53, every week of the input has its row. */
  lemma WeeklyComplete(f: Frame, x: Row)
    requires NoWeek53(f) && x in f.rows
    ensures Weekly(f).Ok?
    ensures x in Filter(f.rows, WeekKey, WeekKey(x))
    ensures Row(WeekDate(x.date), ColumnMeans(Filter(f.rows, WeekKey, WeekKey(x)), |f.columns|)) in Weekly(f).value.rows
  {
    StringLessIsStrictTotal();
    WeekStamps(f);
    SortedResampledComplete(f.rows, WeekKey, StringLess, WeekStart, |f.columns|, x);
    WeekRow(f, x);
  }

  /** The date a weekly row carries is in week `week + 1` when the year starts on a Sunday
      and in week `week` otherwise; week 0 is dated 1 January. */
  lemma WeekOfRowDate(y: int, week: int)
    requires 1 <= y <= 9999 && 0 <= week <= 52
    ensures FromDayOfYear(y, 7 * week + 1).Some?
    ensures Week(FromDayOfYear(y, 7 * week + 1).value) == week + (if WeekdayAt(y, 1) == 0 then 1 else 0)
    ensures week == 0 ==> FromDayOfYear(y, 1) == Some(Date(y, 1, 1))
  {
    var j := 7 * week + 1;
    assert j <= 365 <= DaysInYear(y);
    var d := FromDayOfYear(y, j).value;
    assert Week(d) == WeekAt(y, j);
    WeekAtStep(y, week);
    if week == 0 {
      FromDayOfYearRoundTrip(Date(y, 1, 1));
    }
  }

  /** Day `7 * week + 1` has the weekday of 1 January and lies `week` weeks on. */
  lemma WeekAtStep(y: int, week: int)
    requires 0 <= week
    ensures WeekAt(y, 7 * week + 1) == week + (if WeekdayAt(y, 1) == 0 then 1 else 0)
  {
    var j := 7 * week + 1;
    var a := DaysBeforeYear(y) + 1;
    assert DaysBeforeYear(y) + j == a + 7 * week;
    SevenShift(a, week);
    var w := WeekdayAt(y, 1);
    assert WeekAt(y, j) == (7 * week + (7 - w)) / 7;
    SevenQuotient(week, 7 - w);
  }

  lemma SevenShift(a: int, k: int)
    ensures (a + 7 * k) % 7 == a % 7
  {
    var q, r := a / 7, a % 7;
    assert a + 7 * k == 7 * (q + k) + r;
  }

  lemma SevenQuotient(k: int, c: int)
    requires 1 <= c <= 7
    ensures (7 * k + c) / 7 == if c == 7 then k + 1 else k
  {
    if c == 7 {
      assert 7 * k + c == 7 * (k + 1);
    }
  }

  // ---------------------------------------------------------------- climatology

  /** `f'{dd:02d}-{mm:02d}'`, the day-month key of a row. */
  function DayMonthKey(r: Row): string
  {
    if ValidDate(r.date) then Pad2(r.date.day) + "-" + Pad2(r.date.month) else ""
  }

  /** The climatological year rows are re-dated into. */
  const ClimatologyYear: int := 2220

  /** `pd.Timestamp(year=2220, day=int(f[0:2]), month=int(f[3:]))` for a key `f`. */
  function ClimatologyDate(key: string): (r: Result<Date>)
    ensures r.Ok? ==> ValidDate(r.value) && r.value.year == ClimatologyYear
  {
    var day := ParseNat(key[..if |key| >= 2 then 2 else |key|]);
    var month := ParseNat(key[if |key| >= 3 then 3 else |key|..]);
    if day.None? || month.None? then Err(ValueError(key))
    else
      var d := Date(ClimatologyYear, month.value, day.value);
      if ValidDate(d) then Ok(d) else Err(ValueError(key))
  }

  /** 2220 is a leap year, so 29 February survives the collapse. */
  lemma LeapClimatologyYear()
    ensures IsLeap(ClimatologyYear) && DaysInYear(ClimatologyYear) == 366
  {
  }

  /** Every valid date's key is read back as its day and month in the year 2220. */
  lemma DayMonthKeyParse(r: Row)
    requires ValidDate(r.date)
    ensures ClimatologyDate(DayMonthKey(r)) == Ok(Date(ClimatologyYear, r.date.month, r.date.day))
  {
    LeapClimatologyYear();
    Pad2RoundTrip(r.date.day);
    Pad2RoundTrip(r.date.month);
    var key := DayMonthKey(r);
    assert key[..2] == Pad2(r.date.day);
    assert key[3..] == Pad2(r.date.month);
  }

  /** `data.groupby(day-month key).mean()` re-dated into 2220; the rows stay in the order
      of the keys. */
  function Climatology(f: Frame): Result<Frame>
  {
    StringLessIsStrictTotal();
    match Resampled(f.rows, DayMonthKey, StringLess, ClimatologyDate, |f.columns|)
    case Err(e) => Err(e)
    case Ok(rows) => Ok(Frame(f.columns, rows))
  }

  /** Every key of a well-formed frame parses, and two keys parse to the same date only
      when they are the same key. */
  lemma ClimatologyStamps(f: Frame)
    requires WellFormed(f)
    ensures forall x :: x in f.rows ==>
      ClimatologyDate(DayMonthKey(x)) == Ok(Date(ClimatologyYear, x.date.month, x.date.day))
    ensures forall x, y :: x in f.rows && y in f.rows && ClimatologyDate(DayMonthKey(x)) == ClimatologyDate(DayMonthKey(y)) ==>
      DayMonthKey(x) == DayMonthKey(y)
  {
    forall x | x in f.rows
      ensures ClimatologyDate(DayMonthKey(x)) == Ok(Date(ClimatologyYear, x.date.month, x.date.day))
    {
      var k :| 0 <= k < |f.rows| && f.rows[k] == x;
      DayMonthKeyParse(x);
    }
  }

  /** The climatological row of the group of `x`: dated its day and month in 2220, holding
      the column means of the rows of that day and month, `x` among them. */
  lemma DayMonthRow(f: Frame, x: Row)
    requires WellFormed(f) && x in f.rows
    ensures x in Filter(f.rows, DayMonthKey, DayMonthKey(x))
    ensures ClimatologyDate(DayMonthKey(x)) == Ok(Date(ClimatologyYear, x.date.month, x.date.day))
    ensures GroupRow(f.rows, DayMonthKey, ClimatologyDate, |f.columns|, x)
      == Row(Date(ClimatologyYear, x.date.month, x.date.day), ColumnMeans(Filter(f.rows, DayMonthKey, DayMonthKey(x)), |f.columns|))
  {
    ClimatologyStamps(f);
    FilterKeys(f.rows, DayMonthKey, DayMonthKey(x));
  }

  /** The climatology collapse never fails and gives at most 366 rows with pairwise distinct
      valid dates in 2220; each row holds the column means of exactly the input rows that
      share its day and month, whatever their year. */
  lemma ClimatologySpec(f: Frame)
    requires WellFormed(f)
    ensures Climatology(f).Ok?
    ensures Climatology(f).value.columns == f.columns && WellFormed(Climatology(f).value)
    ensures |Climatology(f).value.rows| <= 366
    ensures var out := Climatology(f).value.rows;
      forall i, j :: 0 <= i < j < |out| ==> out[i].date != out[j].date
    ensures forall m :: m in Climatology(f).value.rows ==> exists x :: (x in f.rows && x in Filter(f.rows, DayMonthKey, DayMonthKey(x)) &&
      m == Row(Date(ClimatologyYear, x.date.month, x.date.day), ColumnMeans(Filter(f.rows, DayMonthKey, DayMonthKey(x)), |f.columns|)))
  {
    var n := |f.columns|;
    StringLessIsStrictTotal();
    ClimatologyStamps(f);
    ResampledSpec(f.rows, DayMonthKey, StringLess, ClimatologyDate, n);
    var out := Climatology(f).value.rows;
    forall m | m in out ensures exists x :: (x in f.rows && x in Filter(f.rows, DayMonthKey, DayMonthKey(x)) &&
      m == Row(Date(ClimatologyYear, x.date.month, x.date.day), ColumnMeans(Filter(f.rows, DayMonthKey, DayMonthKey(x)), n)))
    {
      var x :| x in f.rows && m == GroupRow(f.rows, DayMonthKey, ClimatologyDate, n, x);
      DayMonthRow(f, x);
    }
    forall m | m in out ensures |m.vals| == n && ValidDate(m.date) && m.date.year == ClimatologyYear {
      var x :| x in f.rows && m == GroupRow(f.rows, DayMonthKey, ClimatologyDate, n, x);
      DayMonthRow(f, x);
    }
    ClimatologyCount(out);
  }

  /** Every day and month of the input has its row. */
  lemma ClimatologyComplete(f: Frame, x: Row)
    requires WellFormed(f) && x in f.rows
    ensures Climatology(f).Ok?
    ensures x in Filter(f.rows, DayMonthKey, DayMonthKey(x))
    ensures Row(Date(ClimatologyYear, x.date.month, x.date.day), ColumnMeans(Filter(f.rows, DayMonthKey, DayMonthKey(x)), |f.columns|))
      in Climatology(f).value.rows
  {
    StringLessIsStrictTotal();
    ClimatologyStamps(f);
    ResampledOk(f.rows, DayMonthKey, StringLess, ClimatologyDate, |f.columns|);
    ResampledComplete(f.rows, DayMonthKey, StringLess, ClimatologyDate, |f.columns|, x);
    DayMonthRow(f, x);
  }

  /** Rows with pairwise distinct valid dates in 2220 number at most 366. */
  lemma ClimatologyCount(out: seq<Row>)
    requires DistinctKeys(out, RowDate)
    requires forall m :: m in out ==> ValidDate(m.date) && m.date.year == ClimatologyYear
    ensures (forall i :: 0 <= i < |out| ==> ValidDate(out[i].date) && out[i].date.year == ClimatologyYear)
    ensures |out| <= 366
  {
    forall i | 0 <= i < |out| ensures ValidDate(out[i].date) && out[i].date.year == ClimatologyYear {
      assert out[i] in out;
    }
    LeapClimatologyYear();
    var ds := seq(|out|, i requires 0 <= i < |out| => out[i].date);
    assert forall i, j :: 0 <= i < j < |ds| ==> ds[i] != ds[j] by {
      forall i, j | 0 <= i < j < |ds| ensures ds[i] != ds[j] {
        assert RowDate(out[i]) != RowDate(out[j]);
      }
    }
    DistinctDatesInYear(ds, ClimatologyYear);
  }

  /** A year holds no more pairwise distinct dates than it has days. */
  lemma DistinctDatesInYear(ds: seq<Date>, y: int)
    requires forall i :: 0 <= i < |ds| ==> ValidDate(ds[i]) && ds[i].year == y
    requires forall i, j :: 0 <= i < j < |ds| ==> ds[i] != ds[j]
    ensures |ds| <= DaysInYear(y)
  {
    var js := seq(|ds|, i requires 0 <= i < |ds| => DayOfYear(ds[i]));
    assert Distinct(js) by {
      forall i, j | 0 <= i < j < |js| ensures js[i] != js[j] {
        if js[i] == js[j] {
          DayOfYearInjective(ds[i], ds[j]);
        }
      }
    }
    Pigeonhole(js, DaysInYear(y));
  }

  ghost predicate Distinct(js: seq<int>)
  {
    forall i, j :: 0 <= i < j < |js| ==> js[i] != js[j]
  }

  /** Pairwise distinct integers drawn from `1..n` number at most `n`. */
  lemma {:induction false} Pigeonhole(js: seq<int>, n: nat)
    requires forall i :: 0 <= i < |js| ==> 1 <= js[i] <= n
    requires Distinct(js)
    ensures |js| <= n
    decreases n
  {
    if |js| > 0 {
      assert 1 <= js[0] <= n;
      // Drop the value `n`, if present, and count the rest in `1..n-1`.
      var rest := RemoveValue(js, n);
      RemoveValueDistinct(js, n);
      forall i | 0 <= i < |rest| ensures 1 <= rest[i] <= n - 1 {
        assert rest[i] in rest;
      }
      Pigeonhole(rest, n - 1);
    }
  }

  /** The sequence without the entries equal to `v`. */
  function RemoveValue(js: seq<int>, v: int): (r: seq<int>)
    ensures forall x :: x in r <==> x in js && x != v
    decreases |js|
  {
    if js == [] then []
    else
      assert forall x :: x in js <==> x == js[0] || x in js[1..];
      if js[0] == v then RemoveValue(js[1..], v) else [js[0]] + RemoveValue(js[1..], v)
  }

  /** Removing a value from distinct entries removes at most that one entry. */
  lemma {:induction false} RemoveValueDistinct(js: seq<int>, v: int)
    requires Distinct(js)
    ensures Distinct(RemoveValue(js, v))
    ensures |RemoveValue(js, v)| == |js| - (if v in js then 1 else 0)
    decreases |js|
  {
    if js != [] {
      var rest := js[1..];
      assert forall i :: 0 <= i < |rest| ==> rest[i] == js[i + 1];
      assert Distinct(rest);
      assert js[0] !in rest;
      assert v in js <==> v == js[0] || v in rest;
      RemoveValueDistinct(rest, v);
      var tail := RemoveValue(rest, v);
      if js[0] != v {
        var r := [js[0]] + tail;
        assert forall j :: 1 <= j < |r| ==> r[j] == tail[j - 1] && r[j] in tail;
      }
    }
  }

  // ---------------------------------------------------------------- dispatch

  /** `adapt_resolution(data, resolution)`: any other resolution leaves `datanew` unbound. */
  function AdaptResolution(f: Frame, resolution: string): (r: Result<Frame>)
    ensures resolution == "daily" ==> r == Ok(f)
    ensures resolution !in {"monthly", "weekly", "daily"} ==> r == Err(UnboundLocal("datanew"))
  {
    if resolution == "monthly" then Ok(Monthly(f))
    else if resolution == "weekly" then Weekly(f)
    else if resolution == "daily" then Ok(f)
    else Err(UnboundLocal("datanew"))
  }
}
