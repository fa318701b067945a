/** The two queries `GfasActivityReader` runs against the fire-record tables: the per-day
    aggregate of `extract_data2` and the raw fetch plus grid aggregation of
    `extract_data_polygon`. The store is a map from table name to its records; the polygon
    is an abstract containment predicate. */
module Reader {
  import opened Outcomes
  import opened Text
  import opened Order
  import opened Grouping
  import opened Stats
  import opened Calendar
  import opened Frames
  import opened Grid
  import opened CellKeys
  import opened Cluster
  import opened ClusterLemmas

  // ---------------------------------------------------------------- the store

  /** The tables of the database, each with its records in storage order. */
  datatype Database = Database(tables: map<string, seq<Point>>)

  /** A timestamp column only ever holds real calendar days. */
  type Store = db: Database | forall t, i :: t in db.tables && 0 <= i < |db.tables[t]| ==> ValidDate(db.tables[t][i].date)
    witness Database(map[])

  /** `datetime >= start AND datetime <= end`: both ends of the window are included. */
  predicate InWindow(d: Date, s: Date, e: Date)
  {
    !DateLess(d, s) && !DateLess(e, d)
  }

  /** The `WHERE` clause: in the window and inside the polygon. */
  predicate Chosen(x: Point, s: Date, e: Date, inside: (real, real) -> bool)
  {
    InWindow(x.date, s, e) && inside(x.x, x.y)
  }

  /** The records the `WHERE` clause keeps, in storage order. */
  function Selected(points: seq<Point>, s: Date, e: Date, inside: (real, real) -> bool): (sel: seq<Point>)
    ensures forall x :: x in sel <==> x in points && Chosen(x, s, e, inside)
    decreases |points|
  {
    if points == [] then []
    else
      var init, last := points[..|points| - 1], points[|points| - 1];
      assert points == init + [last];
      Selected(init, s, e, inside) + (if Chosen(last, s, e, inside) then [last] else [])
  }

  function PointDate(p: Point): Date { p.date }

  // ---------------------------------------------------------------- extract_data2

  /** The SQL aggregates `sql_conversion` names. */
  datatype SqlOp = Avg | MedianAgg | StdDev | MinAgg | MaxAgg | SumAgg

  /** The function name spliced into the `SELECT`. */
  function SqlName(op: SqlOp): string
  {
    match op
    case Avg => "AVG"
    case MedianAgg => "median"
    case StdDev => "stddev"
    case MinAgg => "MIN"
    case MaxAgg => "MAX"
    case SumAgg => "SUM"
  }

  /** `sql_conversion`. */
  const SqlConversion: map<string, SqlOp> :=
    map["mean" := Avg, "median" := MedianAgg, "std" := StdDev, "min" := MinAgg, "max" := MaxAgg, "sum" := SumAgg]

  /** `agg_operation`: `None` is `SUM`, a name is looked up in `sql_conversion`. */
  function SqlOperator(op: Option<string>): (r: Result<SqlOp>)
  {
    match op
    case None => Ok(SumAgg)
    case Some(name) => if name in SqlConversion then Ok(SqlConversion[name]) else Err(KeyError(name))
  }

  /** The name the server gives the unaliased aggregate column: the function in lower case. */
  function ResultColumn(op: SqlOp): string
  {
    match op
    case Avg => "avg"
    case MedianAgg => "median"
    case StdDev => "stddev"
    case MinAgg => "min"
    case MaxAgg => "max"
    case SumAgg => "sum"
  }

  /** The aggregate of one day's values; the sample standard deviation is the parameter
      `std`. */
  function SqlValue(op: SqlOp, xs: seq<real>, std: seq<real> -> real): real
    requires |xs| > 0
  {
    match op
    case Avg => Mean(xs)
    case MedianAgg => Median(xs)
    case StdDev => std(xs)
    case MinAgg => Min(xs)
    case MaxAgg => Max(xs)
    case SumAgg => Sum(xs)
  }

  /** One row per `GROUP BY datetime` group, holding the aggregate of its values. */
  function DailyRows(gs: seq<Group<Date, Point>>, op: SqlOp, std: seq<real> -> real): (rows: seq<Row>)
    requires NonEmptyGroups(gs)
    ensures |rows| == |gs|
    ensures forall i :: 0 <= i < |gs| ==> rows[i] == Row(gs[i].key, [SqlValue(op, Values(gs[i].members), std)])
    decreases |gs|
  {
    if gs == [] then []
    else
      var init := gs[..|gs| - 1];
      assert forall i :: 0 <= i < |init| ==> init[i] == gs[i];
      DailyRows(init, op, std) + [Row(gs[|gs| - 1].key, [SqlValue(op, Values(gs[|gs| - 1].members), std)])]
  }

  /** `GROUP BY datetime ORDER BY datetime` over the selected records. */
  function Daily(sel: seq<Point>, op: SqlOp, std: seq<real> -> real): seq<Row>
  {
    DateLessIsStrictTotal();
    GroupByInvariant(sel, PointDate, DateLess);
    DailyRows(GroupBy(sel, PointDate, DateLess), op, std)
  }

  /** `extract_data2`: the operator is looked up before the query is sent; the frame is
      indexed by `datetime` and has the one aggregate column. */
  function ExtractData2(db: Store, s: Date, e: Date, inside: (real, real) -> bool, table: string,
                        op: Option<string>, std: seq<real> -> real): Result<Frame>
  {
    match SqlOperator(op)
    case Err(err) => Err(err)
    case Ok(o) =>
      if table !in db.tables then Err(UndefinedTable(table))
      else Ok(Frame([ResultColumn(o)], Daily(Selected(db.tables[table], s, e, inside), o, std)))
  }

  /** The row the daily query gives the date of record `x`: the aggregate over exactly the
      selected records of that date. */
  function DayRow(sel: seq<Point>, op: SqlOp, std: seq<real> -> real, x: Point): Row
    requires x in sel
  {
    FilterKeys(sel, PointDate, x.date);
    Row(x.date, [SqlValue(op, Values(Filter(sel, PointDate, x.date)), std)])
  }

  // ---------------------------------------------------------------- extract_data_polygon

  /** `agg_operations`: nothing, one name or a list of names. */
  datatype Operations = DefaultOps | OneOp(name: string) | OpList(names: seq<string>)

  /** `['sum']` for nothing, `[name]` for a bare name, the list itself otherwise. */
  function OperationList(ops: Operations): (fs: seq<string>)
    ensures ops.DefaultOps? ==> fs == ["sum"]
    ensures ops.OneOp? ==> fs == [ops.name]
  {
    match ops
    case DefaultOps => ["sum"]
    case OneOp(name) => [name]
    case OpList(names) => names
  }

  /** `var_name = table_name.replace('_data', '')`, the name of the value column. */
  function VariableName(table: string): string
  {
    ReplaceAll(table, "_data", "")
  }

  /** The raw `SELECT ... ORDER BY datetime`: the selected records in ascending date order,
      records of one date in storage order. */
  function Fetched(points: seq<Point>, s: Date, e: Date, inside: (real, real) -> bool): seq<Point>
  {
    SortBy(Selected(points, s, e, inside), PointDate, DateLess)
  }

  /** `cols_to_group`. */
  function GroupKeys(keepSeparate: bool): seq<string>
  {
    if keepSeparate then [DateColumn, ClustColumn] else [ClustColumn]
  }

  /** The raw point frame with the `clust` column the aggregation adds to it in place
      (none when no aggregation ran). */
  datatype RawFrame = RawFrame(points: seq<Point>, clust: seq<string>)

  /** The second result: the raw frame itself (empty fetch), the aggregation, or `None`. */
  datatype Aggregation = SameFrame | Aggregated(grid: GridFrame) | NotAggregated

  datatype PolygonData = PolygonData(raw: RawFrame, second: Aggregation)

  /** What `extract_data_polygon` returns. */
  function PolygonQuery(db: Store, table: string, s: Date, e: Date, inside: (real, real) -> bool, ops: Operations,
                        r: Resolution, keepSeparate: bool, aggregate: bool, std: seq<real> -> real): Result<PolygonData>
  {
    if table !in db.tables then Err(UndefinedTable(table))
    else
      var raw := Fetched(db.tables[table], s, e, inside);
      if raw == [] then Ok(PolygonData(RawFrame(raw, []), SameFrame))
      else if !aggregate then Ok(PolygonData(RawFrame(raw, []), NotAggregated))
      else
        match Aggregate(raw, r, VariableName(table), OperationList(ops), WithClust(GroupKeys(keepSeparate)), std)
        case Err(err) => Err(err)
        case Ok(g) => Ok(PolygonData(RawFrame(raw, ClusterKeys(raw, r)), Aggregated(g)))
  }

  /** `extract_data_polygon`: fetch, then hand the frame and the key list to the in-place
      aggregation. */
  method ExtractDataPolygon(db: Store, table: string, s: Date, e: Date, inside: (real, real) -> bool, ops: Operations,
                            r: Resolution, keepSeparate: bool, aggregate: bool, std: seq<real> -> real)
    returns (res: Result<PolygonData>)
    ensures res == PolygonQuery(db, table, s, e, inside, ops, r, keepSeparate, aggregate, std)
  {
    var fs := OperationList(ops);
    var variable := VariableName(table);
    if table !in db.tables {
      return Err(UndefinedTable(table));
    }
    var raw := Fetched(db.tables[table], s, e, inside);
    if raw == [] {
      return Ok(PolygonData(RawFrame(raw, []), SameFrame));
    }
    var keys := GroupKeys(keepSeparate);
    if !aggregate {
      return Ok(PolygonData(RawFrame(raw, []), NotAggregated));
    }
    var data := new PointTable(raw);
    var cols := new ColumnList(keys);
    var grid := AggregateByCluster(data, r, variable, fs, cols, std);
    match grid
    case Err(err) => res := Err(err);
    case Ok(g) => res := Ok(PolygonData(RawFrame(data.points, data.clust), Aggregated(g)));
  }
}
