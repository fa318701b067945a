/** `GfasActivityReader.aggregate_by_cluster`: fire points binned into grid cells, grouped
    by cell (and date), aggregated with the requested functions and given their cell's box
    as geometry; the flattening and pruning of the column names that follows. */
module Cluster {
  import opened Outcomes
  import opened Text
  import opened Order
  import opened Grouping
  import opened Stats
  import opened Calendar
  import opened Grid
  import opened CellKeys

  /** One row of the query result: observation date, point coordinates and value. */
  datatype Point = Point(date: Date, x: real, y: real, value: real)

  /** One level of a group key: the `datetime` index, or the `clust` cell key. */
  datatype KeyPart = DatePart(date: Date) | CellPart(cell: string)

  /** The order of the key levels: dates by date, cell keys as Python compares `str`. A date
      and a cell key never meet at the same level; dates are put first only to make the
      order total. */
  function KeyPartLess(a: KeyPart, b: KeyPart): bool
  {
    match (a, b)
    case (DatePart(d), DatePart(e)) => DateLess(d, e)
    case (CellPart(c), CellPart(e)) => StringLess(c, e)
    case (DatePart(_), CellPart(_)) => true
    case (CellPart(_), DatePart(_)) => false
  }

  lemma KeyPartLessIsStrictTotal()
    ensures StrictTotalOrder(KeyPartLess)
  {
    DateLessIsStrictTotal();
    StringLessIsStrictTotal();
    forall a, b, c | KeyPartLess(a, b) && KeyPartLess(b, c) ensures KeyPartLess(a, c) {
      if a.DatePart? && b.DatePart? && c.DatePart? {
        assert DateLess(a.date, b.date) && DateLess(b.date, c.date);
      } else if a.CellPart? && b.CellPart? && c.CellPart? {
        assert StringLess(a.cell, b.cell) && StringLess(b.cell, c.cell);
      }
    }
    forall a, b | a != b ensures KeyPartLess(a, b) || KeyPartLess(b, a) {
      if a.DatePart? && b.DatePart? {
        assert a.date != b.date;
      } else if a.CellPart? && b.CellPart? {
        assert a.cell != b.cell;
      }
    }
  }

  /** Python's `<` on the group key tuples, the order `groupby` sorts its groups in. */
  function KeyLess(a: seq<KeyPart>, b: seq<KeyPart>): bool
  {
    LexLess(a, b, KeyPartLess)
  }

  lemma KeyLessIsStrictTotal()
    ensures StrictTotalOrder(KeyLess)
  {
    KeyPartLessIsStrictTotal();
    LexIsStrictTotal(KeyPartLess, KeyLess);
  }

  /** The index column and the cell column of the points table. */
  const DateColumn: string := "datetime"
  const ClustColumn: string := "clust"

  lemma ColumnsDiffer()
    ensures ClustColumn != DateColumn
  {
    assert |ClustColumn| != |DateColumn|;
  }

  // ---------------------------------------------------------------- the clust column

  /** The `clust` column: the cell key of every point, in row order. */
  function ClusterKeys(points: seq<Point>, r: Resolution): (ks: seq<string>)
  {
    seq(|points|, i requires 0 <= i < |points| => CellKey(points[i].x, points[i].y, r))
  }

  /** The two points fall in the same grid cell. */
  predicate SameCell(a: Point, b: Point, r: Resolution)
  {
    CellIndex(a.x, r) == CellIndex(b.x, r) && CellIndex(a.y, r) == CellIndex(b.y, r)
  }

  /** The point table `data`, whose `clust` column the aggregation assigns in place. */
  class PointTable {
    var points: seq<Point>
    var clust: seq<string>

    constructor (points: seq<Point>)
      ensures this.points == points && clust == []
    {
      this.points := points;
      clust := [];
    }

    /** `data['clust'] = [f'{xx}_{yy}' ...]`: the cell key of every point. */
    method AssignClusters(r: Resolution)
      modifies this
      ensures points == old(points) && clust == ClusterKeys(points, r)
    {
      var pts := points;
      var keys: seq<string> := [];
      var i := 0;
      while i < |pts|
        invariant 0 <= i <= |pts|
        invariant keys == ClusterKeys(pts[..i], r)
      {
        assert pts[..i + 1] == pts[..i] + [pts[i]];
        keys := keys + [CellKey(pts[i].x, pts[i].y, r)];
        i := i + 1;
      }
      assert pts[..i] == pts;
      clust := keys;
    }
  }

  /** `columns_to_group` after `if 'clust' not in columns_to_group: append('clust')`. */
  function WithClust(names: seq<string>): seq<string>
  {
    if ClustColumn in names then names else names + [ClustColumn]
  }

  /** The caller's `columns_to_group` list, which the aggregation extends in place. */
  class ColumnList {
    var names: seq<string>

    constructor (names: seq<string>)
      ensures this.names == names
    {
      this.names := names;
    }

    method EnsureClust()
      modifies this
      ensures names == WithClust(old(names))
    {
      if ClustColumn !in names {
        names := names + [ClustColumn];
      }
    }
  }

  // ---------------------------------------------------------------- group keys

  /** The group key of a point for the key columns: its date for `datetime`, its cell key
      for every other column (the only other one `ColumnError` lets through is `clust`). */
  function PointKey(keys: seq<string>, r: Resolution, p: Point): (k: seq<KeyPart>)
    ensures |k| == |keys| && forall i :: 0 <= i < |keys| ==> k[i] == Level(keys[i], r, p)
    decreases |keys|
  {
    if keys == [] then []
    else
      var head, rest := Level(keys[0], r, p), PointKey(keys[1..], r, p);
      assert forall i :: 1 <= i < |keys| ==> ([head] + rest)[i] == rest[i - 1] && keys[1..][i - 1] == keys[i];
      [head] + rest
  }

  function Level(c: string, r: Resolution, p: Point): KeyPart
  {
    if c == DateColumn then DatePart(p.date) else CellPart(CellKey(p.x, p.y, r))
  }

  function Keyer(keys: seq<string>, r: Resolution): Point -> seq<KeyPart>
  {
    (p: Point) => PointKey(keys, r, p)
  }

  /** The key columns the model groups by: the `datetime` index and the `clust` column. */
  predicate GroupColumn(c: string)
  {
    c == DateColumn || c == ClustColumn
  }

  /** The first key column `groupby` cannot use: a name the table lacks is a `KeyError`;
      the points, the value and the geometry exist but grouping by them is not modelled. */
  function ColumnError(keys: seq<string>, variable: string): (e: Option<Error>)
    ensures e.None? <==> forall i :: 0 <= i < |keys| ==> GroupColumn(keys[i])
    decreases |keys|
  {
    if keys == [] then None
    else if GroupColumn(keys[0]) then
      var rest := ColumnError(keys[1..], variable);
      assert forall i :: 1 <= i < |keys| ==> keys[i] == keys[1..][i - 1];
      rest
    else if keys[0] == "geom" || keys[0] == variable || keys[0] == "geometry" then Some(UnsupportedMode)
    else Some(KeyError(keys[0]))
  }

  // ---------------------------------------------------------------- aggregations

  /** The aggregations `agg` is given by name. */
  datatype AggFunction = SumOf | MeanOf | StdOf | MaxOf | MinOf | CountOf | MedianOf

  function Name(f: AggFunction): string
  {
    match f
    case SumOf => "sum"
    case MeanOf => "mean"
    case StdOf => "std"
    case MaxOf => "max"
    case MinOf => "min"
    case CountOf => "count"
    case MedianOf => "median"
  }

  /** The aggregation a name selects, if any. */
  function Named(s: string): (f: Option<AggFunction>)
    ensures f.Some? ==> Name(f.value) == s
  {
    if s == "sum" then Some(SumOf)
    else if s == "mean" then Some(MeanOf)
    else if s == "std" then Some(StdOf)
    else if s == "max" then Some(MaxOf)
    else if s == "min" then Some(MinOf)
    else if s == "count" then Some(CountOf)
    else if s == "median" then Some(MedianOf)
    else None
  }

  predicate Known(s: string)
  {
    Named(s).Some?
  }

  /** The first name in `fs` that is not an aggregation. */
  function UnknownFunction(fs: seq<string>): (u: Option<string>)
    ensures u.None? <==> forall i :: 0 <= i < |fs| ==> Known(fs[i])
    ensures u.Some? ==> u.value in fs && !Known(u.value)
    decreases |fs|
  {
    if fs == [] then None
    else if !Known(fs[0]) then Some(fs[0])
    else
      var rest := UnknownFunction(fs[1..]);
      assert forall i :: 1 <= i < |fs| ==> fs[i] == fs[1..][i - 1];
      rest
  }

  /** The first name that occurs twice in `fs`. */
  function Duplicate(fs: seq<string>): (u: Option<string>)
    ensures u.None? <==> forall i, j :: 0 <= i < j < |fs| ==> fs[i] != fs[j]
    ensures u.Some? ==> exists i, j :: 0 <= i < j < |fs| && fs[i] == u.value && fs[j] == u.value
    decreases |fs|
  {
    if fs == [] then None
    else if fs[0] in fs[1..] then
      assert exists j :: 1 <= j < |fs| && fs[j] == fs[0] by {
        var k :| 0 <= k < |fs[1..]| && fs[1..][k] == fs[0];
        assert fs[k + 1] == fs[0];
      }
      Some(fs[0])
    else
      var rest := Duplicate(fs[1..]);
      assert forall i :: 1 <= i < |fs| ==> fs[i] == fs[1..][i - 1];
      assert forall j :: 1 <= j < |fs| ==> fs[j] != fs[0] by {
        forall j | 1 <= j < |fs| ensures fs[j] != fs[0] {
          assert fs[j] == fs[1..][j - 1];
        }
      }
      if rest.Some? then
        assert exists i, j :: 0 <= i < j < |fs| && fs[i] == rest.value && fs[j] == rest.value by {
          var i, j :| 0 <= i < j < |fs[1..]| && fs[1..][i] == rest.value && fs[1..][j] == rest.value;
          assert fs[i + 1] == rest.value && fs[j + 1] == rest.value;
        }
        rest
      else rest
  }

  /** The list of functions `agg` takes: not empty, every name an aggregation and no name
      twice. */
  predicate ValidFunctions(fs: seq<string>)
  {
    fs != [] && (forall i :: 0 <= i < |fs| ==> Known(fs[i]))
    && (forall i, j :: 0 <= i < j < |fs| ==> fs[i] != fs[j])
  }

  /** Why `agg(fs)` fails: a name given twice (refused before any name is looked up), an
      empty list or an unknown name. */
  function FunctionError(fs: seq<string>): (e: Option<Error>)
    ensures e.None? <==> ValidFunctions(fs)
    ensures (exists i, j :: 0 <= i < j < |fs| && fs[i] == fs[j]) ==> e.Some? && e.value.SpecificationError?
    ensures (forall i, j :: 0 <= i < j < |fs| ==> fs[i] != fs[j]) && (exists i :: 0 <= i < |fs| && !Known(fs[i]))
      ==> e.Some? && e.value.AttributeError? && e.value.name in fs && !Known(e.value.name)
  {
    match Duplicate(fs)
    case Some(f) => Some(SpecificationError(f))
    case None =>
      if fs == [] then Some(ValueError("No objects to concatenate"))
      else
        match UnknownFunction(fs)
        case Some(f) => Some(AttributeError(f))
        case None => None
  }

  /** One aggregation of a group's values; `std` (the sample standard deviation, a square
      root) is left to the parameter `std`. */
  function AggValue(f: AggFunction, xs: seq<real>, std: seq<real> -> real): real
    requires |xs| > 0
  {
    match f
    case SumOf => Sum(xs)
    case MeanOf => Mean(xs)
    case StdOf => std(xs)
    case MaxOf => Max(xs)
    case MinOf => Min(xs)
    case CountOf => |xs| as real
    case MedianOf => Median(xs)
  }

  function Values(ps: seq<Point>): (vs: seq<real>)
    ensures |vs| == |ps| && forall i :: 0 <= i < |ps| ==> vs[i] == ps[i].value
  {
    seq(|ps|, i requires 0 <= i < |ps| => ps[i].value)
  }

  /** `'geom' in col`. */
  predicate HasGeom(s: string)
  {
    exists j :: 0 <= j <= |s| - 4 && GeomAt(s, j)
  }

  predicate GeomAt(s: string, j: int)
  {
    0 <= j <= |s| - 4 && s[j..j + 4] == "geom"
  }

  /** The value cells of a group, one per function; none when the value's own name holds
      `geom`, because its columns are then dropped with the geometry ones. */
  function AggCells(variable: string, fs: seq<string>, xs: seq<real>, std: seq<real> -> real): (cells: seq<real>)
    requires |xs| > 0 && forall i :: 0 <= i < |fs| ==> Known(fs[i])
    ensures |cells| == if HasGeom(variable) then 0 else |fs|
  {
    if HasGeom(variable) then [] else seq(|fs|, i requires 0 <= i < |fs| && Known(fs[i]) => AggValue(Named(fs[i]).value, xs, std))
  }

  // ---------------------------------------------------------------- the aggregated frame

  /** One aggregated row: the group key, the value cells and the cell's box. */
  datatype GridRow = GridRow(key: seq<KeyPart>, vals: seq<real>, geometry: Box)

  /** `columns` names the value cells, then the `geometry` column. */
  datatype GridFrame = GridFrame(columns: seq<string>, rows: seq<GridRow>)

  /** The box of a group: the last key level is read as a cell key; a date there has no
      `split`. */
  function GroupBox(key: seq<KeyPart>, r: Resolution): Result<Box>
  {
    if key == [] then Err(IndexError)
    else
      match key[|key| - 1]
      case DatePart(_) => Err(AttributeError("split"))
      case CellPart(c) => BoxOfKey(c, r)
  }

  /** One row per group; the first group whose box cannot be built ends it with its error. */
  function GridRows(gs: seq<Group<seq<KeyPart>, Point>>, r: Resolution, variable: string, fs: seq<string>,
                    std: seq<real> -> real): (res: Result<seq<GridRow>>)
    requires NonEmptyGroups(gs) && forall i :: 0 <= i < |fs| ==> Known(fs[i])
    ensures res.Ok? <==> forall i :: 0 <= i < |gs| ==> GroupBox(gs[i].key, r).Ok?
    ensures res.Ok? ==> |res.value| == |gs| && forall i :: 0 <= i < |gs| ==>
      res.value[i] == GridRow(gs[i].key, AggCells(variable, fs, Values(gs[i].members), std), GroupBox(gs[i].key, r).value)
    decreases |gs|
  {
    if gs == [] then Ok([])
    else
      match GroupBox(gs[0].key, r)
      case Err(e) => Err(e)
      case Ok(b) =>
        var tail := gs[1..];
        assert forall i :: 1 <= i < |gs| ==> gs[i] == tail[i - 1];
        assert NonEmptyGroups(tail);
        match GridRows(tail, r, variable, fs, std)
        case Err(e) => Err(e)
        case Ok(rest) => Ok([GridRow(gs[0].key, AggCells(variable, fs, Values(gs[0].members), std), b)] + rest)
  }

  /** `data.groupby(keys).agg(fs)` with its box column and pruned column names, or the
      exception the source raises first: no key columns, a key column it cannot use, an
      unusable function list, no points (`index.values[0]`), a last key level that is not a
      cell key. */
  function Aggregate(points: seq<Point>, r: Resolution, variable: string, fs: seq<string>, keys: seq<string>,
                     std: seq<real> -> real): Result<GridFrame>
  {
    if keys == [] then Err(ValueError("no group keys passed"))
    else
      match ColumnError(keys, variable)
      case Some(e) => Err(e)
      case None =>
        match FunctionError(fs)
        case Some(e) => Err(e)
        case None =>
          if points == [] then Err(IndexError)
          else
            KeyLessIsStrictTotal();
            GroupByInvariant(points, Keyer(keys, r), KeyLess);
            match GridRows(GroupBy(points, Keyer(keys, r), KeyLess), r, variable, fs, std)
            case Err(e) => Err(e)
            case Ok(rows) => Ok(GridFrame(OutputColumns(variable, fs), rows))
  }

  /** The method form: assign `clust`, extend the caller's key list, then aggregate. */
  method AggregateByCluster(table: PointTable, r: Resolution, variable: string, fs: seq<string>,
                            cols: ColumnList, std: seq<real> -> real) returns (res: Result<GridFrame>)
    modifies table, cols
    ensures table.points == old(table.points) && table.clust == ClusterKeys(table.points, r)
    ensures cols.names == WithClust(old(cols.names))
    ensures res == Aggregate(table.points, r, variable, fs, cols.names, std)
  {
    table.AssignClusters(r);
    cols.EnsureClust();
    res := Aggregate(table.points, r, variable, fs, cols.names, std);
  }

  // ---------------------------------------------------------------- column names

  function Pairs(c: string, fs: seq<string>): seq<seq<string>>
  {
    seq(|fs|, i requires 0 <= i < |fs| => [c, fs[i]])
  }

  /** The two-level column labels after `agg(fs)` over the non-key columns `geom`, the value
      and `geometry`, followed by the `geometry` column the boxes go in. */
  function RawColumns(variable: string, fs: seq<string>): seq<seq<string>>
  {
    Pairs("geom", fs) + Pairs(variable, fs) + Pairs("geometry", fs) + [["geometry", ""]]
  }

  /** `'_'.join(tt)`, less one trailing `_`: a label `(c, f)` whose second level does not end
      in `_` flattens to `c_f`, and a label `(c, '')` keeps the name `c`. */
  function FlatName(parts: seq<string>): (name: string)
    ensures |parts| == 2 && |parts[1]| > 0 && parts[1][|parts[1]| - 1] != '_' ==>
      name == parts[0] + "_" + parts[1]
    ensures |parts| == 2 && parts[1] == "" ==> name == parts[0]
  {
    var s := Join(parts, "_");
    JoinTwo(parts, "_");
    if |s| > 0 && s[|s| - 1] == '_' then s[..|s| - 1] else s
  }

  function FlatNames(raw: seq<seq<string>>): (names: seq<string>)
    ensures |names| == |raw| && forall i :: 0 <= i < |raw| ==> names[i] == FlatName(raw[i])
  {
    seq(|raw|, i requires 0 <= i < |raw| => FlatName(raw[i]))
  }

  predicate KeepColumn(name: string)
  {
    !HasGeom(name) || name == "geometry"
  }

  /** `drop(columns=[col ... if 'geom' in col and col != 'geometry'])`. */
  function DropGeom(names: seq<string>): seq<string>
    decreases |names|
  {
    if names == [] then [] else (if KeepColumn(names[0]) then [names[0]] else []) + DropGeom(names[1..])
  }

  /** The column names of the aggregated frame. */
  function OutputColumns(variable: string, fs: seq<string>): seq<string>
  {
    DropGeom(FlatNames(RawColumns(variable, fs)))
  }

  // ---------------------------------------------------------------- what the aggregation computes

  /** The request an aggregation completes: key columns it can group by ending in `clust`,
      a usable list of functions and at least one point. */
  predicate ValidRequest(points: seq<Point>, variable: string, fs: seq<string>, keys: seq<string>)
  {
    keys != [] && (forall i :: 0 <= i < |keys| ==> GroupColumn(keys[i])) && ValidFunctions(fs)
    && points != [] && keys[|keys| - 1] == ClustColumn
  }

  /** The row the aggregation gives the group of point `x`: its key, the aggregates of the
      values of exactly the points sharing that key, and the box of its cell. */
  function CellRow(points: seq<Point>, r: Resolution, variable: string, fs: seq<string>, keys: seq<string>,
                   std: seq<real> -> real, x: Point): GridRow
    requires x in points && forall i :: 0 <= i < |fs| ==> Known(fs[i])
  {
    assert Keyer(keys, r)(x) == PointKey(keys, r, x);
    FilterKeys(points, Keyer(keys, r), PointKey(keys, r, x));
    GridRow(PointKey(keys, r, x),
            AggCells(variable, fs, Values(Filter(points, Keyer(keys, r), PointKey(keys, r, x))), std),
            CellBox(x.x, x.y, r))
  }

  // ---------------------------------------------------------------- column-name lemmas

  /** The value columns that survive the pruning. */
  function ValueColumns(variable: string, fs: seq<string>): seq<string>
  {
    if HasGeom(variable) then [] else seq(|fs|, i requires 0 <= i < |fs| => variable + "_" + fs[i])
  }
}
