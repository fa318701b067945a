/** What `query_data.extract_data` and `create_dataset_query` deliver: the window check
    before any fetch, the empty fetch returned as it is, the label built from the observed
    period, the resampling gate and the reference-period join. */
module QueryLemmas {
  import opened Outcomes
  import opened Text
  import opened Order
  import opened Grouping
  import opened Calendar
  import opened Frames
  import opened Resample
  import opened Grid
  import opened Cluster
  import opened ClusterLemmas
  import opened Reader
  import opened ReaderLemmas
  import opened Variables
  import opened Query

  // ---------------------------------------------------------------- the window

  /** The window passes exactly when the variable is known, both dates parse and the start
      is not after the end. */
  lemma WindowSpec(cfg: Config, start: string, end: string)
    ensures Window(cfg, start, end).Ok? <==>
      cfg.variable in TableDatabase && ParseDate(start).Ok? && ParseDate(end).Ok?
      && !DateLess(ParseDate(end).value, ParseDate(start).value)
    ensures Window(cfg, start, end).Ok? ==>
      Window(cfg, start, end).value == (TableDatabase[cfg.variable].table, ParseDate(start).value, ParseDate(end).value)
  {
  }

  /** A start after the end fails whatever the store holds: the check comes before any
      fetch. */
  lemma StartAfterEnd(db: Store, cfg: Config, adapt: bool, start: string, end: string, f: string,
                      keepSeparate: bool, std: seq<real> -> real)
    requires cfg.variable in TableDatabase && ParseDate(start).Ok? && ParseDate(end).Ok?
    requires DateLess(ParseDate(end).value, ParseDate(start).value)
    ensures ExtractDataSpec(db, cfg, adapt, start, end, f, keepSeparate, std) == Err(InvalidWindow)
  {
  }

  /** A window of a single day is accepted. */
  lemma SameDayAccepted(cfg: Config, d: Date)
    requires cfg.variable in TableDatabase && ValidDate(d) && d.year >= 1000
    ensures Window(cfg, FormatDate(d), FormatDate(d)) == Ok((TableDatabase[cfg.variable].table, d, d))
  {
    ParseFormatDate(d);
    DateLessIsStrictTotal();
  }

  // ---------------------------------------------------------------- empty fetches

  /** Nothing selected: the scalar branch returns the empty frame with its aggregate column
      unrelabelled, the gridded branch the empty raw frame. */
  lemma EmptyFetch(db: Store, cfg: Config, table: string, s: Date, e: Date, f: string, keepSeparate: bool,
                   adapt: bool, std: seq<real> -> real)
    requires table in db.tables && Selected(db.tables[table], s, e, cfg.inside) == []
    requires SqlOperator(Some(f)).Ok?
    ensures ScalarSeries(db, cfg, table, s, e, f, keepSeparate, adapt, std) ==
      Ok(Series(Frame([ResultColumn(SqlOperator(Some(f)).value)], [])))
    ensures GriddedSeries(db, cfg, table, s, e, f, keepSeparate, std) == Ok(RawPoints(RawFrame([], [])))
  {
    PolygonQueryShape(db, table, s, e, cfg.inside, OpList([f]), GridResolution, keepSeparate, true, std);
  }

  /** Something selected: the daily frame is not empty. */
  lemma DailyNotEmpty(db: Store, s: Date, e: Date, inside: (real, real) -> bool, table: string,
                      op: Option<string>, std: seq<real> -> real, x: Point)
    requires ExtractData2(db, s, e, inside, table, op, std).Ok?
    requires x in db.tables[table] && Chosen(x, s, e, inside)
    ensures ExtractData2(db, s, e, inside, table, op, std).value.rows != []
  {
    ExtractData2Complete(db, s, e, inside, table, op, std, x);
  }

  /** The only raw frame the gridded branch hands back is the empty one. */
  lemma GriddedRawEmpty(db: Store, cfg: Config, table: string, s: Date, e: Date, f: string, keepSeparate: bool,
                        std: seq<real> -> real)
    requires GriddedSeries(db, cfg, table, s, e, f, keepSeparate, std).Ok?
    requires GriddedSeries(db, cfg, table, s, e, f, keepSeparate, std).value.RawPoints?
    ensures GriddedSeries(db, cfg, table, s, e, f, keepSeparate, std).value.raw == RawFrame([], [])
  {
  }

  /** `extract_data` returns a raw frame only for an empty gridded fetch, so `sort_index`
      has nothing to reorder in it. */
  lemma RawPointsEmpty(db: Store, cfg: Config, adapt: bool, start: string, end: string, f: string,
                       keepSeparate: bool, std: seq<real> -> real)
    requires ExtractDataSpec(db, cfg, adapt, start, end, f, keepSeparate, std).Ok?
    requires ExtractDataSpec(db, cfg, adapt, start, end, f, keepSeparate, std).value.RawPoints?
    ensures ExtractDataSpec(db, cfg, adapt, start, end, f, keepSeparate, std).value.raw == RawFrame([], [])
  {
    var w := Window(cfg, start, end).value;
    if Contains(cfg.plotType, "2D") {
      GriddedRawEmpty(db, cfg, w.0, w.1, w.2, f, keepSeparate, std);
    } else {
      ScalarIsSeries(db, cfg, w.0, w.1, w.2, f, keepSeparate, adapt, std);
    }
  }

  /** The scalar branch only ever returns a date-indexed series. */
  lemma ScalarIsSeries(db: Store, cfg: Config, table: string, s: Date, e: Date, f: string, keepSeparate: bool,
                       adapt: bool, std: seq<real> -> real)
    ensures ScalarSeries(db, cfg, table, s, e, f, keepSeparate, adapt, std).Ok? ==>
      ScalarSeries(db, cfg, table, s, e, f, keepSeparate, adapt, std).value.Series?
  {
  }

  // ---------------------------------------------------------------- the observed period

  /** `first` and `last` are the earliest and the latest date among the records. */
  ghost predicate ObservedBounds(sel: seq<Point>, first: Date, last: Date)
  {
    (exists x :: x in sel && x.date == first) && (exists y :: y in sel && y.date == last)
    && forall x :: x in sel ==> !DateLess(x.date, first) && !DateLess(last, x.date)
  }

  /** The first and last daily rows carry the earliest and latest selected dates. */
  lemma DailyBounds(db: Store, s: Date, e: Date, inside: (real, real) -> bool, table: string,
                    op: Option<string>, std: seq<real> -> real)
    requires ExtractData2(db, s, e, inside, table, op, std).Ok?
    requires ExtractData2(db, s, e, inside, table, op, std).value.rows != []
    ensures var rows := ExtractData2(db, s, e, inside, table, op, std).value.rows;
      ObservedBounds(Selected(db.tables[table], s, e, inside), rows[0].date, rows[|rows| - 1].date)
  {
    var rows := ExtractData2(db, s, e, inside, table, op, std).value.rows;
    var sel := Selected(db.tables[table], s, e, inside);
    var o := SqlOperator(op).value;
    var n := |rows| - 1;
    DateLessIsStrictTotal();
    ExtractData2Sorted(db, s, e, inside, table, op, std);
    ExtractData2Sound(db, s, e, inside, table, op, std, rows[0]);
    ExtractData2Sound(db, s, e, inside, table, op, std, rows[n]);
    forall x | x in sel ensures !DateLess(x.date, rows[0].date) && !DateLess(rows[n].date, x.date) {
      ExtractData2Complete(db, s, e, inside, table, op, std, x);
      var k :| 0 <= k < |rows| && rows[k] == DayRow(sel, o, std, x);
      assert rows[k].date == x.date;
    }
  }

  /** A non-decreasing rearrangement of the selection starts and ends at its extreme
      dates. */
  lemma SortedBounds(raw: seq<Point>, sel: seq<Point>)
    requires raw != [] && multiset(raw) == multiset(sel)
    requires forall i, j :: 0 <= i < j < |raw| ==> !DateLess(raw[j].date, raw[i].date)
    ensures ObservedBounds(sel, raw[0].date, raw[|raw| - 1].date)
  {
    var n := |raw| - 1;
    DateLessIsStrictTotal();
    assert raw[0] in multiset(sel) && raw[n] in multiset(sel);
    forall x | x in sel ensures !DateLess(x.date, raw[0].date) && !DateLess(raw[n].date, x.date) {
      assert x in multiset(raw);
      var k :| 0 <= k < |raw| && raw[k] == x;
      if 0 < k { assert !DateLess(raw[k].date, raw[0].date); }
      if k < n { assert !DateLess(raw[n].date, raw[k].date); }
    }
  }

  /** The first and last raw points carry the earliest and latest selected dates. */
  lemma RawBounds(db: Store, table: string, s: Date, e: Date, inside: (real, real) -> bool, ops: Operations,
                  r: Resolution, keepSeparate: bool, aggregate: bool, std: seq<real> -> real)
    requires PolygonQuery(db, table, s, e, inside, ops, r, keepSeparate, aggregate, std).Ok?
    requires PolygonQuery(db, table, s, e, inside, ops, r, keepSeparate, aggregate, std).value.raw.points != []
    ensures table in db.tables
    ensures var raw := PolygonQuery(db, table, s, e, inside, ops, r, keepSeparate, aggregate, std).value.raw.points;
      ObservedBounds(Selected(db.tables[table], s, e, inside), raw[0].date, raw[|raw| - 1].date)
  {
    PolygonQueryRaw(db, table, s, e, inside, ops, r, keepSeparate, aggregate, std);
    var raw := PolygonQuery(db, table, s, e, inside, ops, r, keepSeparate, aggregate, std).value.raw.points;
    SortedBounds(raw, Selected(db.tables[table], s, e, inside));
  }

  /** The daily series after the optional climatology: the daily rows themselves when the
      dates stay separate, otherwise their climatology. */
  function Collapsed(data: Frame, keepSeparate: bool): Frame
    requires WellFormed(data)
  {
    ClimatologySpec(data);
    if keepSeparate then data else Climatology(data).value
  }

  /** The scalar series before resampling is the collapsed series under the one label. */
  lemma ScalarLabelled(db: Store, cfg: Config, table: string, s: Date, e: Date, f: string, keepSeparate: bool,
                       std: seq<real> -> real)
    requires ExtractData2(db, s, e, cfg.inside, table, Some(f), std).Ok?
    requires ExtractData2(db, s, e, cfg.inside, table, Some(f), std).value.rows != []
    ensures WellFormed(ExtractData2(db, s, e, cfg.inside, table, Some(f), std).value)
    ensures var data := ExtractData2(db, s, e, cfg.inside, table, Some(f), std).value;
      var d := Collapsed(data, keepSeparate);
      ScalarSeries(db, cfg, table, s, e, f, keepSeparate, false, std) ==
        Ok(Series(Frame(Relabel(d.columns, Label(data.rows[0].date, data.rows[|data.rows| - 1].date)), d.rows)))
  {
    ExtractData2Ok(db, s, e, cfg.inside, table, Some(f), std);
    ClimatologySpec(ExtractData2(db, s, e, cfg.inside, table, Some(f), std).value);
  }

  /** No aggregate column is called `geometry`. */
  lemma ResultColumnNotGeometry(o: SqlOp)
    ensures ResultColumn(o) != "geometry"
  {
    assert "geometry"[0] == 'g';
    match o
    case Avg => assert ResultColumn(o)[0] == 'a';
    case MedianAgg => assert ResultColumn(o)[0] == 'm';
    case StdDev => assert ResultColumn(o)[0] == 's';
    case MinAgg => assert ResultColumn(o)[0] == 'm';
    case MaxAgg => assert ResultColumn(o)[0] == 'm';
    case SumAgg => assert ResultColumn(o)[0] == 's';
  }

  /** The scalar series, before resampling: one column named after the first and last
      daily dates (the observed period, by `DailyBounds`), whose label splits back into its two dates; the daily rows themselves when the dates
      stay separate, otherwise the climatology's rows (see `Collapsed`). */
  lemma ScalarLabel(db: Store, cfg: Config, table: string, s: Date, e: Date, f: string, keepSeparate: bool,
                    std: seq<real> -> real)
    requires ExtractData2(db, s, e, cfg.inside, table, Some(f), std).Ok?
    requires ExtractData2(db, s, e, cfg.inside, table, Some(f), std).value.rows != []
    ensures WellFormed(ExtractData2(db, s, e, cfg.inside, table, Some(f), std).value)
    ensures var data := ExtractData2(db, s, e, cfg.inside, table, Some(f), std).value;
      var first, last := data.rows[0].date, data.rows[|data.rows| - 1].date;
      var out := ScalarSeries(db, cfg, table, s, e, f, keepSeparate, false, std);
      && out.Ok? && out.value.Series?
      && out.value.frame.columns == [Label(first, last)]
      && out.value.frame.rows == Collapsed(data, keepSeparate).rows
  {
    var data := ExtractData2(db, s, e, cfg.inside, table, Some(f), std).value;
    ScalarLabelled(db, cfg, table, s, e, f, keepSeparate, std);
    ExtractData2Ok(db, s, e, cfg.inside, table, Some(f), std);
    var first, last := data.rows[0].date, data.rows[|data.rows| - 1].date;
    ClimatologySpec(data);
    var d := Collapsed(data, keepSeparate);
    assert d.columns == [ResultColumn(SqlOperator(Some(f)).value)];
    ResultColumnNotGeometry(SqlOperator(Some(f)).value);
    RelabelNamesWindow(d.columns, first, last);
    assert Relabel(d.columns, Label(first, last)) == [Label(first, last)];
  }

  /** `adapt_resolution` after the label: `daily` keeps the labelled series, `monthly`
      averages it per month, and any other name than the three fails. */
  lemma AdaptGate(db: Store, cfg: Config, table: string, s: Date, e: Date, f: string, keepSeparate: bool,
                  std: seq<real> -> real)
    requires ExtractData2(db, s, e, cfg.inside, table, Some(f), std).Ok?
    requires ExtractData2(db, s, e, cfg.inside, table, Some(f), std).value.rows != []
    ensures var plain := ScalarSeries(db, cfg, table, s, e, f, keepSeparate, false, std);
      var adapted := ScalarSeries(db, cfg, table, s, e, f, keepSeparate, true, std);
      && plain.Ok? && plain.value.Series?
      && (cfg.resolution == "daily" ==> adapted == plain)
      && (cfg.resolution == "monthly" ==> adapted == Ok(Series(Monthly(plain.value.frame))))
      && (cfg.resolution !in {"monthly", "weekly", "daily"} ==> adapted == Err(UnboundLocal("datanew")))
  {
    ScalarLabelled(db, cfg, table, s, e, f, keepSeparate, std);
  }

  /** The grid step of a query whose fetch is not empty: the aggregation's rows under
      columns relabelled with the first and last raw dates. */
  lemma Gridded2DLabel(q: Result<PolygonData>)
    requires q.Ok? && q.value.second.Aggregated? && q.value.raw.points != [] && q.value.second.grid.rows != []
    requires forall i :: 0 <= i < |q.value.raw.points| ==> ValidDate(q.value.raw.points[i].date)
    ensures var raw := q.value.raw.points;
      Gridded2D(q) == Ok(Gridded(GridFrame(Relabel(q.value.second.grid.columns, Label(raw[0].date, raw[|raw| - 1].date)),
                                           q.value.second.grid.rows)))
  {
  }

  /** The gridded query of a non-empty fetch with a known function aggregates, and both
      its raw frame and its grid have rows. */
  lemma GriddedAggregates(db: Store, cfg: Config, table: string, s: Date, e: Date, f: string, keepSeparate: bool,
                          std: seq<real> -> real)
    requires table in db.tables && Selected(db.tables[table], s, e, cfg.inside) != [] && Known(f)
    ensures var q := PolygonQuery(db, table, s, e, cfg.inside, OpList([f]), GridResolution, keepSeparate, true, std);
      q.Ok? && q.value.second.Aggregated? && q.value.raw.points != [] && q.value.second.grid.rows != []
  {
    var ops := OpList([f]);
    PolygonQueryShape(db, table, s, e, cfg.inside, ops, GridResolution, keepSeparate, true, std);
    FetchedSpec(db.tables[table], s, e, cfg.inside);
    var q := PolygonQuery(db, table, s, e, cfg.inside, ops, GridResolution, keepSeparate, true, std);
    PolygonQueryRows(db, table, s, e, cfg.inside, ops, GridResolution, keepSeparate, true, std);
    var raw := q.value.raw.points;
    assert raw[0] in raw;
  }

  /** The gridded query of a non-empty fetch with a known function: aggregated, rows
      present, every raw point a real day. */
  lemma GriddedQuery(db: Store, cfg: Config, table: string, s: Date, e: Date, f: string, keepSeparate: bool,
                     std: seq<real> -> real)
    requires table in db.tables && Selected(db.tables[table], s, e, cfg.inside) != [] && Known(f)
    ensures var q := PolygonQuery(db, table, s, e, cfg.inside, OpList([f]), GridResolution, keepSeparate, true, std);
      && q.Ok? && q.value.second.Aggregated? && q.value.raw.points != [] && q.value.second.grid.rows != []
      && (forall i :: 0 <= i < |q.value.raw.points| ==> ValidDate(q.value.raw.points[i].date))
  {
    GriddedAggregates(db, cfg, table, s, e, f, keepSeparate, std);
    PolygonRawDates(db, table, s, e, cfg.inside, OpList([f]), GridResolution, keepSeparate, true, std);
  }

  /** The gridded series of a non-empty fetch with a known function: the aggregation's rows
      under columns relabelled with the observed period. */
  lemma GriddedLabel(db: Store, cfg: Config, table: string, s: Date, e: Date, f: string, keepSeparate: bool,
                     std: seq<real> -> real)
    requires table in db.tables && Selected(db.tables[table], s, e, cfg.inside) != [] && Known(f)
    ensures var q := PolygonQuery(db, table, s, e, cfg.inside, OpList([f]), GridResolution, keepSeparate, true, std);
      var out := GriddedSeries(db, cfg, table, s, e, f, keepSeparate, std);
      && q.Ok? && q.value.second.Aggregated? && q.value.raw.points != []
      && ObservedBounds(Selected(db.tables[table], s, e, cfg.inside),
                        q.value.raw.points[0].date, q.value.raw.points[|q.value.raw.points| - 1].date)
      && out.Ok? && out.value.Gridded?
      && out.value.grid.rows == q.value.second.grid.rows
      && out.value.grid.columns ==
           Relabel(q.value.second.grid.columns,
                   Label(q.value.raw.points[0].date, q.value.raw.points[|q.value.raw.points| - 1].date))
  {
    var q := PolygonQuery(db, table, s, e, cfg.inside, OpList([f]), GridResolution, keepSeparate, true, std);
    GriddedQuery(db, cfg, table, s, e, f, keepSeparate, std);
    RawBounds(db, table, s, e, cfg.inside, OpList([f]), GridResolution, keepSeparate, true, std);
    Gridded2DLabel(q);
    assert GriddedSeries(db, cfg, table, s, e, f, keepSeparate, std) == Gridded2D(q);
  }

  // ---------------------------------------------------------------- create_dataset_query

  /** Which queries `create_dataset_query` runs: the animated map keeps the dates separate
      and takes no reference; any other plot without a reference is the primary series
      sorted. */
  lemma DatasetPlan(db: Store, cfg: Config, std: seq<real> -> real)
    requires cfg.variable in TableDatabase
    ensures cfg.plotType == "2D Animated Plot" ==>
      CreateDataset(db, cfg, std) == ExtractDataSpec(db, cfg, true, cfg.specificStart, cfg.specificEnd, cfg.operation, true, std)
    ensures cfg.plotType != "2D Animated Plot" && !UsesReference(cfg) ==>
      var data := ExtractDataSpec(db, cfg, true, cfg.specificStart, cfg.specificEnd, cfg.operation, false, std);
      CreateDataset(db, cfg, std) == if data.Ok? then Ok(SortDataset(data.value)) else data
  {
  }

  /** With a reference period, two series are joined reference first and sorted. */
  lemma ReferencePlan(db: Store, cfg: Config, std: seq<real> -> real, p: Frame, q: Frame)
    requires cfg.variable in TableDatabase && cfg.plotType != "2D Animated Plot" && UsesReference(cfg)
    requires ExtractDataSpec(db, cfg, true, cfg.specificStart, cfg.specificEnd, cfg.operation, false, std) == Ok(Series(p))
    requires ExtractDataSpec(db, cfg, true, cfg.referenceStart, cfg.referenceEnd, cfg.operation, false, std) == Ok(Series(q))
    ensures CreateDataset(db, cfg, std) == Ok(Series(SortIndex(MergeOnIndex(Frame(PrefixColumns(q.columns), q.rows), p))))
  {
  }

  /** The sorted inner join: the prefixed reference columns then the primary ones, dates in
      ascending order, exactly the rows pairing a reference row and a primary row of the
      same date. */
  lemma SortedJoin(p: Frame, q: Frame)
    ensures var out := SortIndex(MergeOnIndex(Frame(PrefixColumns(q.columns), q.rows), p));
      && out.columns == PrefixColumns(q.columns) + p.columns
      && (forall i, j :: 0 <= i < j < |out.rows| ==> !DateLess(out.rows[j].date, out.rows[i].date))
      && (forall m :: m in out.rows <==>
            exists i, j :: 0 <= i < |q.rows| && 0 <= j < |p.rows| && q.rows[i].date == p.rows[j].date
              && m == Row(q.rows[i].date, q.rows[i].vals + p.rows[j].vals))
  {
    var joined := MergeOnIndex(Frame(PrefixColumns(q.columns), q.rows), p);
    SortIndexSpec(joined);
    JoinRowsSpec(q.rows, p.rows);
    var out := SortIndex(joined);
    forall m ensures m in out.rows <==> m in joined.rows {
      assert m in multiset(out.rows) <==> m in multiset(joined.rows);
    }
  }

  /** With a reference period the result is the sorted inner join on the date. */
  lemma ReferenceJoin(db: Store, cfg: Config, std: seq<real> -> real, p: Frame, q: Frame)
    requires cfg.variable in TableDatabase && cfg.plotType != "2D Animated Plot" && UsesReference(cfg)
    requires ExtractDataSpec(db, cfg, true, cfg.specificStart, cfg.specificEnd, cfg.operation, false, std) == Ok(Series(p))
    requires ExtractDataSpec(db, cfg, true, cfg.referenceStart, cfg.referenceEnd, cfg.operation, false, std) == Ok(Series(q))
    ensures CreateDataset(db, cfg, std).Ok? && CreateDataset(db, cfg, std).value.Series?
    ensures var out := CreateDataset(db, cfg, std).value.frame;
      && out.columns == PrefixColumns(q.columns) + p.columns
      && (forall i, j :: 0 <= i < j < |out.rows| ==> !DateLess(out.rows[j].date, out.rows[i].date))
      && (forall m :: m in out.rows <==>
            exists i, j :: 0 <= i < |q.rows| && 0 <= j < |p.rows| && q.rows[i].date == p.rows[j].date
              && m == Row(q.rows[i].date, q.rows[i].vals + p.rows[j].vals))
  {
    ReferencePlan(db, cfg, std, p, q);
    SortedJoin(p, q);
  }

  /** The dates the join keeps are those the two periods share. */
  lemma ReferenceDates(p: Frame, q: Frame, d: Date)
    ensures var out := SortIndex(MergeOnIndex(Frame(PrefixColumns(q.columns), q.rows), p));
      (exists m :: m in out.rows && m.date == d) <==>
      (exists i :: 0 <= i < |q.rows| && q.rows[i].date == d) && (exists j :: 0 <= j < |p.rows| && p.rows[j].date == d)
  {
    var joined := MergeOnIndex(Frame(PrefixColumns(q.columns), q.rows), p);
    SortIndexSpec(joined);
    JoinRowsDates(q.rows, p.rows, d);
    var out := SortIndex(joined);
    forall m ensures m in out.rows <==> m in joined.rows {
      assert m in multiset(out.rows) <==> m in multiset(joined.rows);
    }
  }
}
