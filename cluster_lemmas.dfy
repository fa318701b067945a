/** What `GfasActivityReader.aggregate_by_cluster` computes: the `clust` keys, the groups,
    the rows with their boxes and the column names of the aggregated frame. */
module ClusterLemmas {
  import opened Outcomes
  import opened Text
  import opened Order
  import opened Grouping
  import opened Stats
  import opened Calendar
  import opened Grid
  import opened CellKeys
  import opened Cluster

  /** Every `clust` value reads back as the box of its point's cell, and two points share a
      value exactly when they share a cell. */
  lemma ClusterKeysSpec(points: seq<Point>, r: Resolution)
    ensures var ks := ClusterKeys(points, r);
      |ks| == |points|
      && (forall i :: 0 <= i < |ks| ==>
            BoxOfKey(ks[i], r) == Ok(CellBox(points[i].x, points[i].y, r))
            && InBox(CellBox(points[i].x, points[i].y, r), points[i].x, points[i].y))
      && (forall i, j :: 0 <= i < |ks| && 0 <= j < |ks| ==>
            (ks[i] == ks[j] <==> SameCell(points[i], points[j], r)))
  {
    var ks := ClusterKeys(points, r);
    forall i | 0 <= i < |ks|
      ensures BoxOfKey(ks[i], r) == Ok(CellBox(points[i].x, points[i].y, r))
      ensures InBox(CellBox(points[i].x, points[i].y, r), points[i].x, points[i].y)
    {
      BoxOfCellKey(points[i].x, points[i].y, r);
      CellInBox(points[i].x, points[i].y, r);
    }
    forall i, j | 0 <= i < |ks| && 0 <= j < |ks| ensures ks[i] == ks[j] <==> SameCell(points[i], points[j], r) {
      CellKeyInjective(points[i].x, points[i].y, points[j].x, points[j].y, r);
    }
  }

  /** The key list keeps the caller's columns in front, holds `clust`, and a second call
      changes nothing. */
  lemma WithClustSpec(names: seq<string>)
    ensures ClustColumn in WithClust(names)
    ensures WithClust(names)[..|names|] == names
    ensures |WithClust(names)| == |names| + (if ClustColumn in names then 0 else 1)
    ensures WithClust(WithClust(names)) == WithClust(names)
  {
    assert WithClust(names)[|WithClust(names)| - 1] in WithClust(names);
  }

  /** Two points fall in the same group exactly when they share a cell and, when the key
      holds `datetime`, a date. */
  lemma SameGroup(keys: seq<string>, r: Resolution, a: Point, b: Point)
    requires forall i :: 0 <= i < |keys| ==> GroupColumn(keys[i])
    requires ClustColumn in keys
    ensures PointKey(keys, r, a) == PointKey(keys, r, b) <==>
      SameCell(a, b, r) && (DateColumn in keys ==> a.date == b.date)
  {
    CellKeyInjective(a.x, a.y, b.x, b.y, r);
    var ka, kb := PointKey(keys, r, a), PointKey(keys, r, b);
    var same := CellKey(a.x, a.y, r) == CellKey(b.x, b.y, r);
    var c :| 0 <= c < |keys| && keys[c] == ClustColumn;
    if ka == kb {
      assert ka[c] == kb[c];
      if DateColumn in keys {
        var d :| 0 <= d < |keys| && keys[d] == DateColumn;
        assert ka[d] == kb[d];
      }
    }
    if same && (DateColumn in keys ==> a.date == b.date) {
      forall i | 0 <= i < |keys| ensures ka[i] == kb[i] {
        if keys[i] == DateColumn {
          assert DateColumn in keys;
        }
      }
      assert ka == kb;
    }
  }

  /** Every aggregation is selected by its name, which is a short word of lower-case
      letters other than `g`. */
  lemma NamedName(f: AggFunction)
    ensures Named(Name(f)) == Some(f)
    ensures |Name(f)| > 0 && Lacks(Name(f), '_') && Lacks(Name(f), 'g')
  {
  }

  /** What each aggregation says about the group: the mean, median, least and greatest value
      lie within the group's range, the sum divided by the count within it too, and the count is
      the group's size. */
  lemma AggValueBetween(f: AggFunction, xs: seq<real>, std: seq<real> -> real)
    requires |xs| > 0
    ensures f == CountOf ==> AggValue(f, xs, std) == |xs| as real
    ensures f == SumOf ==> Min(xs) <= AggValue(f, xs, std) / |xs| as real <= Max(xs)
    ensures f in {MeanOf, MedianOf, MaxOf, MinOf} ==> Min(xs) <= AggValue(f, xs, std) <= Max(xs)
  {
    match f
    case SumOf => MeanBetween(xs);
    case MeanOf => MeanBetween(xs);
    case MedianOf => MedianBetween(xs);
    case _ =>
  }

  /** The box of a point's group: its own cell when the key ends in `clust`. */
  lemma KeyBox(keys: seq<string>, r: Resolution, x: Point)
    requires keys != []
    ensures GroupBox(PointKey(keys, r, x), r) ==
      if keys[|keys| - 1] == DateColumn then Err(AttributeError("split")) else Ok(CellBox(x.x, x.y, r))
  {
    if keys[|keys| - 1] == DateColumn {
      DateKeyBox(keys, r, x);
    } else {
      CellKeyBox(keys, r, x);
    }
  }

  lemma DateKeyBox(keys: seq<string>, r: Resolution, x: Point)
    requires keys != [] && keys[|keys| - 1] == DateColumn
    ensures GroupBox(PointKey(keys, r, x), r) == Err(AttributeError("split"))
  {
    var k, n := PointKey(keys, r, x), |keys| - 1;
    assert k[n] == Level(keys[n], r, x) == DatePart(x.date);
  }

  lemma CellKeyBox(keys: seq<string>, r: Resolution, x: Point)
    requires keys != [] && keys[|keys| - 1] != DateColumn
    ensures GroupBox(PointKey(keys, r, x), r) == Ok(CellBox(x.x, x.y, r))
  {
    var k, n := PointKey(keys, r, x), |keys| - 1;
    assert k[n] == Level(keys[n], r, x) == CellPart(CellKey(x.x, x.y, r));
    BoxOfCellKey(x.x, x.y, r);
  }

  /** The aggregation succeeds exactly on a valid request; a valid request whose key ends in
      `datetime` fails when the first date is read as a cell key. */
  lemma AggregateOk(points: seq<Point>, r: Resolution, variable: string, fs: seq<string>, keys: seq<string>,
                    std: seq<real> -> real)
    ensures Aggregate(points, r, variable, fs, keys, std).Ok? <==> ValidRequest(points, variable, fs, keys)
    ensures (keys != [] && (forall i :: 0 <= i < |keys| ==> GroupColumn(keys[i])) && ValidFunctions(fs)
             && points != [] && keys[|keys| - 1] != ClustColumn) ==>
      Aggregate(points, r, variable, fs, keys, std) == Err(AttributeError("split"))
  {
    if keys != [] && ColumnError(keys, variable).None? && FunctionError(fs).None? && points != [] {
      AggregateGroups(points, r, variable, fs, keys, std);
      if keys[|keys| - 1] == ClustColumn {
        GroupBoxesOk(points, r, keys);
      } else {
        FirstGroupSplit(points, r, keys);
      }
    }
  }

  /** Past the checks on its arguments, the aggregation is the rows of the groups. */
  lemma AggregateGroups(points: seq<Point>, r: Resolution, variable: string, fs: seq<string>, keys: seq<string>,
                        std: seq<real> -> real)
    requires keys != [] && ColumnError(keys, variable).None? && FunctionError(fs).None? && points != []
    ensures var gs := GroupBy(points, Keyer(keys, r), KeyLess);
      NonEmptyGroups(gs) && forall i :: 0 <= i < |fs| ==> Known(fs[i])
    ensures var rows := GridRows(GroupBy(points, Keyer(keys, r), KeyLess), r, variable, fs, std);
      Aggregate(points, r, variable, fs, keys, std) ==
        if rows.Ok? then Ok(GridFrame(OutputColumns(variable, fs), rows.value)) else Err(rows.error)
  {
    KeyLessIsStrictTotal();
    GroupByInvariant(points, Keyer(keys, r), KeyLess);
  }

  /** When the key ends in `clust`, every group has a box. */
  lemma GroupBoxesOk(points: seq<Point>, r: Resolution, keys: seq<string>)
    requires keys != [] && keys[|keys| - 1] == ClustColumn
    ensures var gs := GroupBy(points, Keyer(keys, r), KeyLess);
      forall g :: 0 <= g < |gs| ==> GroupBox(gs[g].key, r).Ok?
  {
    KeyLessIsStrictTotal();
    var gs := GroupBy(points, Keyer(keys, r), KeyLess);
    forall g | 0 <= g < |gs| ensures GroupBox(gs[g].key, r).Ok? {
      GroupMember(points, Keyer(keys, r), KeyLess, g);
      KeyBox(keys, r, gs[g].members[0]);
    }
  }

  /** When the key ends in `datetime`, the first group's date is read as a cell key. */
  lemma FirstGroupSplit(points: seq<Point>, r: Resolution, keys: seq<string>)
    requires points != [] && keys != [] && keys[|keys| - 1] == DateColumn
    ensures var gs := GroupBy(points, Keyer(keys, r), KeyLess);
      gs != [] && GroupBox(gs[0].key, r) == Err(AttributeError("split"))
  {
    KeyLessIsStrictTotal();
    var gs := GroupBy(points, Keyer(keys, r), KeyLess);
    GroupBySpec(points, Keyer(keys, r), KeyLess);
    assert exists g :: 0 <= g < |gs| && gs[g].key == Keyer(keys, r)(points[0]);
    GroupMember(points, Keyer(keys, r), KeyLess, 0);
    KeyBox(keys, r, gs[0].members[0]);
  }

  /** The groups come out in strictly ascending key order. */
  lemma AggregateSorted(points: seq<Point>, r: Resolution, variable: string, fs: seq<string>, keys: seq<string>,
                        std: seq<real> -> real)
    requires ValidRequest(points, variable, fs, keys)
    ensures Aggregate(points, r, variable, fs, keys, std).Ok?
    ensures var rows := Aggregate(points, r, variable, fs, keys, std).value.rows;
      forall i, j :: 0 <= i < j < |rows| ==> KeyLess(rows[i].key, rows[j].key)
  {
    AggregateOk(points, r, variable, fs, keys, std);
    KeyLessIsStrictTotal();
    GroupBySpec(points, Keyer(keys, r), KeyLess);
  }

  /** Every aggregated row is the row of the group of one of the points. */
  lemma AggregateSound(points: seq<Point>, r: Resolution, variable: string, fs: seq<string>, keys: seq<string>,
                       std: seq<real> -> real, m: GridRow)
    requires Aggregate(points, r, variable, fs, keys, std).Ok?
    requires m in Aggregate(points, r, variable, fs, keys, std).value.rows
    ensures ValidRequest(points, variable, fs, keys)
    ensures exists x :: x in points && m == CellRow(points, r, variable, fs, keys, std, x)
  {
    AggregateOk(points, r, variable, fs, keys, std);
    KeyLessIsStrictTotal();
    var gs := GroupBy(points, Keyer(keys, r), KeyLess);
    var rows := Aggregate(points, r, variable, fs, keys, std).value.rows;
    RowsOfGroups(points, r, variable, fs, keys, std);
    var g :| 0 <= g < |rows| && rows[g] == m;
    GroupMember(points, Keyer(keys, r), KeyLess, g);
    var x := gs[g].members[0];
    RowOfPoint(points, r, variable, fs, keys, std, g, x);
  }

  /** The group of every point has its row. */
  lemma AggregateComplete(points: seq<Point>, r: Resolution, variable: string, fs: seq<string>, keys: seq<string>,
                          std: seq<real> -> real, x: Point)
    requires ValidRequest(points, variable, fs, keys) && x in points
    ensures Aggregate(points, r, variable, fs, keys, std).Ok?
    ensures CellRow(points, r, variable, fs, keys, std, x) in Aggregate(points, r, variable, fs, keys, std).value.rows
  {
    AggregateOk(points, r, variable, fs, keys, std);
    KeyLessIsStrictTotal();
    var gs := GroupBy(points, Keyer(keys, r), KeyLess);
    GroupBySpec(points, Keyer(keys, r), KeyLess);
    var k :| 0 <= k < |points| && points[k] == x;
    var g :| 0 <= g < |gs| && gs[g].key == Keyer(keys, r)(points[k]);
    RowOfPoint(points, r, variable, fs, keys, std, g, x);
  }

  /** A valid request gives one row per group. */
  lemma RowsOfGroups(points: seq<Point>, r: Resolution, variable: string, fs: seq<string>, keys: seq<string>,
                     std: seq<real> -> real)
    requires ValidRequest(points, variable, fs, keys)
    ensures Aggregate(points, r, variable, fs, keys, std).Ok?
    ensures |Aggregate(points, r, variable, fs, keys, std).value.rows| == |GroupBy(points, Keyer(keys, r), KeyLess)|
  {
    AggregateOk(points, r, variable, fs, keys, std);
    AggregateGroups(points, r, variable, fs, keys, std);
  }

  /** Row `g` of a valid request is the row of any point whose key is the key of group `g`. */
  lemma RowOfPoint(points: seq<Point>, r: Resolution, variable: string, fs: seq<string>, keys: seq<string>,
                   std: seq<real> -> real, g: nat, x: Point)
    requires ValidRequest(points, variable, fs, keys) && x in points
    requires g < |GroupBy(points, Keyer(keys, r), KeyLess)|
    requires GroupBy(points, Keyer(keys, r), KeyLess)[g].key == PointKey(keys, r, x)
    ensures Aggregate(points, r, variable, fs, keys, std).Ok?
    ensures var rows := Aggregate(points, r, variable, fs, keys, std).value.rows;
      g < |rows| && rows[g] == CellRow(points, r, variable, fs, keys, std, x)
  {
    AggregateOk(points, r, variable, fs, keys, std);
    AggregateGroups(points, r, variable, fs, keys, std);
    KeyLessIsStrictTotal();
    GroupMember(points, Keyer(keys, r), KeyLess, g);
    KeyBox(keys, r, x);
  }

  /** Every point of a group lies in the box its row carries. */
  lemma GroupInCell(points: seq<Point>, r: Resolution, keys: seq<string>, x: Point, y: Point)
    requires keys != [] && keys[|keys| - 1] == ClustColumn
    requires y in Filter(points, Keyer(keys, r), PointKey(keys, r, x))
    ensures InBox(CellBox(x.x, x.y, r), y.x, y.y)
  {
    FilterSameKey(points, r, keys, x, y);
    LastKeyPart(keys, r, x);
    LastKeyPart(keys, r, y);
    SharedKeyBox(x, y, r);
  }

  lemma FilterSameKey(points: seq<Point>, r: Resolution, keys: seq<string>, x: Point, y: Point)
    requires y in Filter(points, Keyer(keys, r), PointKey(keys, r, x))
    ensures PointKey(keys, r, y) == PointKey(keys, r, x)
  {
    FilterKeys(points, Keyer(keys, r), PointKey(keys, r, x));
    assert Keyer(keys, r)(y) == PointKey(keys, r, y);
  }

  lemma LastKeyPart(keys: seq<string>, r: Resolution, x: Point)
    requires keys != [] && keys[|keys| - 1] == ClustColumn
    ensures PointKey(keys, r, x)[|keys| - 1] == CellPart(CellKey(x.x, x.y, r))
  {
    assert PointKey(keys, r, x)[|keys| - 1] == Level(ClustColumn, r, x);
  }

  lemma SharedKeyBox(x: Point, y: Point, r: Resolution)
    requires CellKey(x.x, x.y, r) == CellKey(y.x, y.y, r)
    ensures InBox(CellBox(x.x, x.y, r), y.x, y.y)
  {
    CellKeyInjective(x.x, x.y, y.x, y.y, r);
    assert CellBox(x.x, x.y, r) == CellBox(y.x, y.y, r);
    CellInBox(y.x, y.y, r);
  }

  /** The aggregated frame names one column per function, `<value>_<function>`, unless the
      value's name holds `geom`, and then `geometry`; every row has a cell per value column. */
  lemma AggregateColumns(points: seq<Point>, r: Resolution, variable: string, fs: seq<string>, keys: seq<string>,
                         std: seq<real> -> real)
    requires ValidRequest(points, variable, fs, keys)
    ensures Aggregate(points, r, variable, fs, keys, std).Ok?
    ensures var out := Aggregate(points, r, variable, fs, keys, std).value;
      out.columns == ValueColumns(variable, fs) + ["geometry"]
      && forall i :: 0 <= i < |out.rows| ==> |out.rows[i].vals| + 1 == |out.columns|
  {
    AggregateOk(points, r, variable, fs, keys, std);
    OutputColumnsSpec(variable, fs);
    var rows := Aggregate(points, r, variable, fs, keys, std).value.rows;
    forall i | 0 <= i < |rows| ensures |rows[i].vals| == |ValueColumns(variable, fs)| {
      assert rows[i] in rows;
      AggregateSound(points, r, variable, fs, keys, std, rows[i]);
    }
  }

  /** Flattening and pruning the labels leaves the value columns and `geometry`. */
  lemma OutputColumnsSpec(variable: string, fs: seq<string>)
    requires forall i :: 0 <= i < |fs| ==> Known(fs[i])
    ensures OutputColumns(variable, fs) == ValueColumns(variable, fs) + ["geometry"]
  {
    var p1, p2, p3, last := Pairs("geom", fs), Pairs(variable, fs), Pairs("geometry", fs), [["geometry", ""]];
    assert RawColumns(variable, fs) == p1 + p2 + p3 + last;
    FlatNamesAppend(p1 + p2 + p3, last);
    FlatNamesAppend(p1 + p2, p3);
    FlatNamesAppend(p1, p2);
    var n1, n2, n3, n4 := FlatNames(p1), FlatNames(p2), FlatNames(p3), FlatNames(last);
    assert FlatNames(RawColumns(variable, fs)) == n1 + n2 + n3 + n4;
    DropGeomAppend(n1 + n2 + n3, n4);
    DropGeomAppend(n1 + n2, n3);
    DropGeomAppend(n1, n2);
    PrunedPairs("geom", fs);
    PrunedPairs("geometry", fs);
    KeptPairs(variable, fs);
    GeometryColumn();
  }

  /** The aggregates of `geom` and of `geometry` are all pruned. */
  lemma PrunedPairs(c: string, fs: seq<string>)
    requires c == "geom" || c == "geometry"
    requires forall i :: 0 <= i < |fs| ==> Known(fs[i])
    ensures DropGeom(FlatNames(Pairs(c, fs))) == []
  {
    var ns := FlatNames(Pairs(c, fs));
    forall i | 0 <= i < |ns| ensures !KeepColumn(ns[i]) {
      FlatPair(c, fs[i]);
      GeomPrefix(c, fs[i]);
    }
    DropGeomNone(ns);
  }

  /** The aggregates of the value are all kept, or all pruned when its name holds `geom`. */
  lemma KeptPairs(v: string, fs: seq<string>)
    requires forall i :: 0 <= i < |fs| ==> Known(fs[i])
    ensures DropGeom(FlatNames(Pairs(v, fs))) == ValueColumns(v, fs)
  {
    var ns := FlatNames(Pairs(v, fs));
    forall i | 0 <= i < |ns| ensures ns[i] == v + "_" + fs[i] && (KeepColumn(ns[i]) <==> !HasGeom(v)) {
      FlatPair(v, fs[i]);
      HasGeomJoin(v, fs[i]);
      assert v + "_" + fs[i] != "geometry" by {
        var t := v + "_" + fs[i];
        assert t[|v|] == '_';
      }
    }
    if HasGeom(v) {
      DropGeomNone(ns);
    } else {
      DropGeomAll(ns);
    }
  }

  lemma FlatNamesAppend(a: seq<seq<string>>, b: seq<seq<string>>)
    ensures FlatNames(a + b) == FlatNames(a) + FlatNames(b)
  {
  }

  lemma {:induction false} DropGeomAppend(a: seq<string>, b: seq<string>)
    ensures DropGeom(a + b) == DropGeom(a) + DropGeom(b)
    decreases |a|
  {
    if a != [] {
      assert (a + b)[1..] == a[1..] + b;
      DropGeomAppend(a[1..], b);
    } else {
      assert a + b == b;
    }
  }

  lemma {:induction false} DropGeomNone(ns: seq<string>)
    requires forall i :: 0 <= i < |ns| ==> !KeepColumn(ns[i])
    ensures DropGeom(ns) == []
    decreases |ns|
  {
    if ns != [] {
      DropGeomNone(ns[1..]);
    }
  }

  lemma {:induction false} DropGeomAll(ns: seq<string>)
    requires forall i :: 0 <= i < |ns| ==> KeepColumn(ns[i])
    ensures DropGeom(ns) == ns
    decreases |ns|
  {
    if ns != [] {
      DropGeomAll(ns[1..]);
      assert ns == [ns[0]] + ns[1..];
    }
  }

  /** A column label `(c, f)` for an aggregation `f` flattens to `c_f`. */
  lemma FlatPair(c: string, f: string)
    requires Known(f)
    ensures FlatName([c, f]) == c + "_" + f
    ensures |f| > 0 && Lacks(f, 'g')
  {
    NamedName(Named(f).value);
    assert f[|f| - 1] != '_';
  }

  /** The box column, a label with an empty second level, flattens to `geometry`. */
  lemma GeometryColumn()
    ensures FlatName(["geometry", ""]) == "geometry"
  {
  }

  /** The aggregates of `geom` and of `geometry` are pruned. */
  lemma GeomPrefix(c: string, f: string)
    requires c == "geom" || c == "geometry"
    requires |f| > 0
    ensures !KeepColumn(c + "_" + f)
  {
    var s := c + "_" + f;
    assert s[0..4] == "geom";
    assert GeomAt(s, 0);
    assert |s| != 8 || s[4] == '_';
  }

  /** `geom` occurs in `v_f` exactly when it occurs in `v`, for an `f` without `g`. */
  lemma HasGeomJoin(v: string, f: string)
    requires Lacks(f, 'g')
    ensures HasGeom(v + "_" + f) <==> HasGeom(v)
  {
    var s := v + "_" + f;
    if HasGeom(v) {
      var j :| 0 <= j <= |v| - 4 && GeomAt(v, j);
      assert s[j..j + 4] == v[j..j + 4];
      assert GeomAt(s, j);
    }
    if HasGeom(s) {
      var j :| 0 <= j <= |s| - 4 && GeomAt(s, j);
      GeomInHead(v, f, j);
      assert v[j..j + 4] == s[j..j + 4];
      assert GeomAt(v, j);
    }
  }

  /** An occurrence of `geom` in `v_f` lies inside `v`: the `_` cannot be part of it and `f`
      holds no `g` to start it. */
  lemma GeomInHead(v: string, f: string, j: int)
    requires Lacks(f, 'g') && GeomAt(v + "_" + f, j)
    ensures j + 4 <= |v|
  {
    var s := v + "_" + f;
    var w := s[j..j + 4];
    assert w == "geom";
    assert s[j] == w[0] && s[j + 1] == w[1] && s[j + 2] == w[2] && s[j + 3] == w[3];
    assert forall p :: |v| < p < |s| ==> s[p] == f[p - |v| - 1];
    assert s[|v|] == '_';
  }
}
