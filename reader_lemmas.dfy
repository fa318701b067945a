/** What the two `GfasActivityReader` queries return: the operator table, the per-day rows
    of `extract_data2` and the raw and aggregated frames of `extract_data_polygon`. */
module ReaderLemmas {
  import opened Outcomes
  import opened Order
  import opened Grouping
  import opened Calendar
  import opened Frames
  import opened Grid
  import opened CellKeys
  import opened Cluster
  import opened ClusterLemmas
  import opened Reader

  // ---------------------------------------------------------------- the operator table

  /** `None` is `SUM`; exactly the six names of `sql_conversion` are accepted, and any other
      name is the `KeyError` of the lookup. */
  lemma SqlOperatorSpec(op: Option<string>)
    ensures op.None? ==> SqlOperator(op) == Ok(SumAgg)
    ensures op.Some? ==> (SqlOperator(op).Ok? <==> op.value in {"mean", "median", "std", "min", "max", "sum"})
    ensures op.Some? && SqlOperator(op).Err? ==> SqlOperator(op) == Err(KeyError(op.value))
  {
  }

  /** The SQL function each accepted name is sent as. */
  lemma SqlOperatorNames()
    ensures SqlName(SqlOperator(Some("mean")).value) == "AVG"
    ensures SqlName(SqlOperator(Some("median")).value) == "median"
    ensures SqlName(SqlOperator(Some("std")).value) == "stddev"
    ensures SqlName(SqlOperator(Some("min")).value) == "MIN"
    ensures SqlName(SqlOperator(Some("max")).value) == "MAX"
    ensures SqlName(SqlOperator(Some("sum")).value) == "SUM"
    ensures SqlName(SqlOperator(None).value) == "SUM"
  {
  }

  /** A name the scalar query accepts computes, day by day, what the grid aggregation of the
      same name computes cell by cell. */
  lemma SqlAgreesWithAgg(name: string, xs: seq<real>, std: seq<real> -> real)
    requires SqlOperator(Some(name)).Ok? && |xs| > 0
    ensures Known(name)
    ensures SqlValue(SqlOperator(Some(name)).value, xs, std) == AggValue(Named(name).value, xs, std)
  {
  }

  /** `count` is an aggregation of the grid query but not of the scalar one. */
  lemma CountOnlyGridded()
    ensures Known("count") && SqlOperator(Some("count")) == Err(KeyError("count"))
  {
  }

  // ---------------------------------------------------------------- extract_data2

  /** The query fails exactly on an unknown operator or a missing table, the operator
      first; its frame has the one aggregate column and well-formed rows. */
  lemma ExtractData2Ok(db: Store, s: Date, e: Date, inside: (real, real) -> bool, table: string,
                       op: Option<string>, std: seq<real> -> real)
    ensures ExtractData2(db, s, e, inside, table, op, std).Ok? <==> SqlOperator(op).Ok? && table in db.tables
    ensures SqlOperator(op).Err? ==> ExtractData2(db, s, e, inside, table, op, std) == Err(SqlOperator(op).error)
    ensures var r := ExtractData2(db, s, e, inside, table, op, std);
      r.Ok? ==> r.value.columns == [ResultColumn(SqlOperator(op).value)] && WellFormed(r.value)
  {
    var r := ExtractData2(db, s, e, inside, table, op, std);
    if r.Ok? {
      var o := SqlOperator(op).value;
      var sel := Selected(db.tables[table], s, e, inside);
      forall k | 0 <= k < |r.value.rows|
        ensures |r.value.rows[k].vals| == 1 && ValidDate(r.value.rows[k].date)
      {
        DailySound(sel, o, std, r.value.rows[k]);
        var x :| x in sel && r.value.rows[k] == DayRow(sel, o, std, x);
        var t := db.tables[table];
        var i :| 0 <= i < |t| && t[i] == x;
      }
    }
  }

  /** Every daily row is the row of a selected record's date. */
  lemma DailySound(sel: seq<Point>, o: SqlOp, std: seq<real> -> real, m: Row)
    requires m in Daily(sel, o, std)
    ensures exists x :: x in sel && m == DayRow(sel, o, std, x)
  {
    DateLessIsStrictTotal();
    var gs := GroupBy(sel, PointDate, DateLess);
    GroupByInvariant(sel, PointDate, DateLess);
    var rows := Daily(sel, o, std);
    var g :| 0 <= g < |rows| && rows[g] == m;
    GroupMember(sel, PointDate, DateLess, g);
    var x := gs[g].members[0];
    assert m == DayRow(sel, o, std, x);
  }

  /** Every selected record's date has its row. */
  lemma DailyComplete(sel: seq<Point>, o: SqlOp, std: seq<real> -> real, x: Point)
    requires x in sel
    ensures DayRow(sel, o, std, x) in Daily(sel, o, std)
  {
    DateLessIsStrictTotal();
    var gs := GroupBy(sel, PointDate, DateLess);
    GroupBySpec(sel, PointDate, DateLess);
    var rows := Daily(sel, o, std);
    var j :| 0 <= j < |sel| && sel[j] == x;
    var g :| 0 <= g < |gs| && gs[g].key == PointDate(sel[j]);
    assert rows[g] == DayRow(sel, o, std, x);
  }

  /** The daily rows are in strictly ascending date order: one row per date. */
  lemma DailySorted(sel: seq<Point>, o: SqlOp, std: seq<real> -> real)
    ensures var rows := Daily(sel, o, std);
      forall i, j :: 0 <= i < j < |rows| ==> DateLess(rows[i].date, rows[j].date)
  {
    DateLessIsStrictTotal();
    GroupBySpec(sel, PointDate, DateLess);
  }

  /** Each row of `extract_data2` is the aggregate over exactly the records of one date that
      lie in the window and inside the polygon. */
  lemma ExtractData2Sound(db: Store, s: Date, e: Date, inside: (real, real) -> bool, table: string,
                          op: Option<string>, std: seq<real> -> real, m: Row)
    requires ExtractData2(db, s, e, inside, table, op, std).Ok?
    requires m in ExtractData2(db, s, e, inside, table, op, std).value.rows
    ensures var sel := Selected(db.tables[table], s, e, inside);
      exists x :: x in db.tables[table] && Chosen(x, s, e, inside) && x in sel
        && m == DayRow(sel, SqlOperator(op).value, std, x)
  {
    DailySound(Selected(db.tables[table], s, e, inside), SqlOperator(op).value, std, m);
  }

  /** Every record in the window and inside the polygon is counted in its date's row. */
  lemma ExtractData2Complete(db: Store, s: Date, e: Date, inside: (real, real) -> bool, table: string,
                             op: Option<string>, std: seq<real> -> real, x: Point)
    requires ExtractData2(db, s, e, inside, table, op, std).Ok?
    requires x in db.tables[table] && Chosen(x, s, e, inside)
    ensures var sel := Selected(db.tables[table], s, e, inside);
      x in sel && DayRow(sel, SqlOperator(op).value, std, x) in ExtractData2(db, s, e, inside, table, op, std).value.rows
  {
    DailyComplete(Selected(db.tables[table], s, e, inside), SqlOperator(op).value, std, x);
  }

  /** `ORDER BY datetime` after `GROUP BY datetime`: strictly ascending dates. */
  lemma ExtractData2Sorted(db: Store, s: Date, e: Date, inside: (real, real) -> bool, table: string,
                           op: Option<string>, std: seq<real> -> real)
    requires ExtractData2(db, s, e, inside, table, op, std).Ok?
    ensures var rows := ExtractData2(db, s, e, inside, table, op, std).value.rows;
      forall i, j :: 0 <= i < j < |rows| ==> DateLess(rows[i].date, rows[j].date)
  {
    DailySorted(Selected(db.tables[table], s, e, inside), SqlOperator(op).value, std);
  }

  // ---------------------------------------------------------------- extract_data_polygon

  /** Both key lists already hold `clust` once, at the end, so the aggregation leaves them
      as they are; a point's key is its date and cell, or its cell alone. */
  lemma GroupKeysSpec(keepSeparate: bool, r: Resolution, x: Point)
    ensures WithClust(GroupKeys(keepSeparate)) == GroupKeys(keepSeparate)
    ensures var keys := GroupKeys(keepSeparate);
      keys != [] && keys[|keys| - 1] == ClustColumn && forall i :: 0 <= i < |keys| ==> GroupColumn(keys[i])
    ensures PointKey(GroupKeys(keepSeparate), r, x) ==
      if keepSeparate then [DatePart(x.date), CellPart(CellKey(x.x, x.y, r))] else [CellPart(CellKey(x.x, x.y, r))]
  {
    ColumnsDiffer();
    var keys := GroupKeys(keepSeparate);
    var k := PointKey(keys, r, x);
    if keepSeparate {
      assert k[0] == Level(DateColumn, r, x) && k[1] == Level(ClustColumn, r, x);
    } else {
      assert k[0] == Level(ClustColumn, r, x);
    }
  }

  /** The raw fetch holds the selected records, each once, in ascending date order. */
  lemma FetchedSpec(points: seq<Point>, s: Date, e: Date, inside: (real, real) -> bool)
    ensures multiset(Fetched(points, s, e, inside)) == multiset(Selected(points, s, e, inside))
    ensures var f := Fetched(points, s, e, inside);
      forall i, j :: 0 <= i < j < |f| ==> !DateLess(f[j].date, f[i].date)
    ensures Fetched(points, s, e, inside) == [] <==> Selected(points, s, e, inside) == []
  {
    DateLessIsStrictTotal();
    SortBySpec(Selected(points, s, e, inside), PointDate, DateLess);
  }

  /** Which of the three second results `extract_data_polygon` gives: the raw frame again
      when nothing was fetched, `None` when asked not to aggregate, otherwise the
      aggregation, which then fails only on an unusable list of functions. */
  lemma PolygonQueryShape(db: Store, table: string, s: Date, e: Date, inside: (real, real) -> bool, ops: Operations,
                          r: Resolution, keepSeparate: bool, aggregate: bool, std: seq<real> -> real)
    requires table in db.tables
    ensures var q := PolygonQuery(db, table, s, e, inside, ops, r, keepSeparate, aggregate, std);
      var sel := Selected(db.tables[table], s, e, inside);
      && (sel == [] ==> q == Ok(PolygonData(RawFrame([], []), SameFrame)))
      && (sel != [] && !aggregate ==> q.Ok? && q.value.second == NotAggregated)
      && (sel != [] && aggregate ==> (q.Ok? <==> ValidFunctions(OperationList(ops))))
      && (q.Ok? && q.value.second.Aggregated? ==> q.value.raw.clust == ClusterKeys(q.value.raw.points, r))
  {
    var raw := Fetched(db.tables[table], s, e, inside);
    FetchedSpec(db.tables[table], s, e, inside);
    var keys := GroupKeys(keepSeparate);
    GroupKeysSpec(keepSeparate, r, if raw == [] then Point(Date(1, 1, 1), 0.0, 0.0, 0.0) else raw[0]);
    AggregateOk(raw, r, VariableName(table), OperationList(ops), keys, std);
  }

  /** With the default `['sum']` and some record fetched, the aggregation succeeds. */
  lemma DefaultOpsAggregate(db: Store, table: string, s: Date, e: Date, inside: (real, real) -> bool,
                            r: Resolution, keepSeparate: bool, std: seq<real> -> real)
    requires table in db.tables && Selected(db.tables[table], s, e, inside) != []
    ensures PolygonQuery(db, table, s, e, inside, DefaultOps, r, keepSeparate, true, std).Ok?
  {
    PolygonQueryShape(db, table, s, e, inside, DefaultOps, r, keepSeparate, true, std);
  }

  /** The raw frame is the fetch: the selected records in ascending date order. */
  lemma PolygonQueryRaw(db: Store, table: string, s: Date, e: Date, inside: (real, real) -> bool, ops: Operations,
                        r: Resolution, keepSeparate: bool, aggregate: bool, std: seq<real> -> real)
    requires PolygonQuery(db, table, s, e, inside, ops, r, keepSeparate, aggregate, std).Ok?
    ensures table in db.tables
    ensures var raw := PolygonQuery(db, table, s, e, inside, ops, r, keepSeparate, aggregate, std).value.raw.points;
      multiset(raw) == multiset(Selected(db.tables[table], s, e, inside))
      && forall i, j :: 0 <= i < j < |raw| ==> !DateLess(raw[j].date, raw[i].date)
  {
    FetchedSpec(db.tables[table], s, e, inside);
  }

  /** Every raw point is a stored record, a real calendar day, in the window and inside the
      polygon. */
  lemma PolygonRawDates(db: Store, table: string, s: Date, e: Date, inside: (real, real) -> bool, ops: Operations,
                        r: Resolution, keepSeparate: bool, aggregate: bool, std: seq<real> -> real)
    requires PolygonQuery(db, table, s, e, inside, ops, r, keepSeparate, aggregate, std).Ok?
    ensures var raw := PolygonQuery(db, table, s, e, inside, ops, r, keepSeparate, aggregate, std).value.raw.points;
      forall i :: 0 <= i < |raw| ==> ValidDate(raw[i].date) && Chosen(raw[i], s, e, inside)
  {
    PolygonQueryRaw(db, table, s, e, inside, ops, r, keepSeparate, aggregate, std);
    var raw := PolygonQuery(db, table, s, e, inside, ops, r, keepSeparate, aggregate, std).value.raw.points;
    var t := db.tables[table];
    forall i | 0 <= i < |raw| ensures ValidDate(raw[i].date) && Chosen(raw[i], s, e, inside) {
      assert raw[i] in multiset(raw);
      assert raw[i] in Selected(t, s, e, inside);
      var k :| 0 <= k < |t| && t[k] == raw[i];
    }
  }

  /** Every aggregated row is the row of a fetched point's group, and every fetched point's
      group has its row. */
  lemma PolygonQueryRows(db: Store, table: string, s: Date, e: Date, inside: (real, real) -> bool, ops: Operations,
                         r: Resolution, keepSeparate: bool, aggregate: bool, std: seq<real> -> real)
    requires PolygonQuery(db, table, s, e, inside, ops, r, keepSeparate, aggregate, std).Ok?
    requires PolygonQuery(db, table, s, e, inside, ops, r, keepSeparate, aggregate, std).value.second.Aggregated?
    ensures var q := PolygonQuery(db, table, s, e, inside, ops, r, keepSeparate, aggregate, std).value;
      var fs, keys := OperationList(ops), GroupKeys(keepSeparate);
      ValidRequest(q.raw.points, VariableName(table), fs, keys)
      && (forall m :: m in q.second.grid.rows ==>
            exists x :: x in q.raw.points && m == CellRow(q.raw.points, r, VariableName(table), fs, keys, std, x))
      && (forall x :: x in q.raw.points ==>
            CellRow(q.raw.points, r, VariableName(table), fs, keys, std, x) in q.second.grid.rows)
  {
    var q := PolygonQuery(db, table, s, e, inside, ops, r, keepSeparate, aggregate, std).value;
    var fs, keys := OperationList(ops), GroupKeys(keepSeparate);
    var raw := q.raw.points;
    GroupKeysSpec(keepSeparate, r, raw[0]);
    forall m | m in q.second.grid.rows
      ensures exists x :: x in raw && m == CellRow(raw, r, VariableName(table), fs, keys, std, x)
    {
      AggregateSound(raw, r, VariableName(table), fs, keys, std, m);
    }
    forall x | x in raw ensures CellRow(raw, r, VariableName(table), fs, keys, std, x) in q.second.grid.rows {
      AggregateComplete(raw, r, VariableName(table), fs, keys, std, x);
    }
  }
}
