/** The `clust` keys of `GfasActivityReader.aggregate_by_cluster`: the text naming a grid
    cell, and the box `get_boxes_from_index` reads back from it. */
module CellKeys {
  import opened Outcomes
  import opened Text
  import opened Grid

  /** The text of the lower edge of the cell holding `x`, as `f'{xx}'` prints it. */
  function EdgeText(x: real, r: Resolution): string
  {
    FormatFixed(CellIndex(x, r) * r.steps, r.digits)
  }

  /** The `clust` value of a point: `f'{xx}_{yy}'` of the lower edges of its cell. */
  function CellKey(x: real, y: real, r: Resolution): string
  {
    Join([EdgeText(x, r), EdgeText(y, r)], "_")
  }

  /** `get_boxes_from_index`: read the two edges back with `float` and span one cell from
      them; a key that is not two numbers joined by `_` fails as the unpacking or `float`
      does. */
  function BoxOfKey(key: string, r: Resolution): (b: Result<Box>)
    ensures b.Ok? ==> b.value.xmax == b.value.xmin + Size(r) && b.value.ymax == b.value.ymin + Size(r)
  {
    var parts := Split(key, "_");
    if |parts| != 2 then Err(ValueError(key))
    else
      match (ParseDecimal(parts[0]), ParseDecimal(parts[1]))
      case (Some(xx), Some(yy)) => Ok(CellAt(xx, yy, r))
      case _ => Err(ValueError(key))
  }

  lemma EdgeTextValue(x: real, r: Resolution)
    ensures ParseDecimal(EdgeText(x, r)) == Some(CellEdge(x, r))
    ensures Lacks(EdgeText(x, r), '_')
  {
    FormatFixedRoundTrip(CellIndex(x, r) * r.steps, r.digits);
    FormatFixedLacksUnderscore(CellIndex(x, r) * r.steps, r.digits);
  }

  lemma CellKeySplit(x: real, y: real, r: Resolution)
    ensures Split(CellKey(x, y, r), "_") == [EdgeText(x, r), EdgeText(y, r)]
  {
    EdgeTextValue(x, r);
    EdgeTextValue(y, r);
    SplitJoin([EdgeText(x, r), EdgeText(y, r)], "_");
  }

  /** The box read back from a point's key is the cell holding the point. */
  lemma BoxOfCellKey(x: real, y: real, r: Resolution)
    ensures BoxOfKey(CellKey(x, y, r), r) == Ok(CellBox(x, y, r))
  {
    EdgeTextValue(x, r);
    EdgeTextValue(y, r);
    BoxOfJoin(EdgeText(x, r), EdgeText(y, r), CellEdge(x, r), CellEdge(y, r), r);
  }

  /** Two numbers without `_`, joined by `_`, read back as the box spanning one cell from
      them. */
  lemma BoxOfJoin(a: string, b: string, xa: real, yb: real, r: Resolution)
    requires Lacks(a, '_') && Lacks(b, '_')
    requires ParseDecimal(a) == Some(xa) && ParseDecimal(b) == Some(yb)
    ensures BoxOfKey(Join([a, b], "_"), r) == Ok(CellAt(xa, yb, r))
  {
    SplitJoin([a, b], "_");
  }

  /** Two coordinates print the same edge exactly when they fall in the same cell. */
  lemma EdgeTextInjective(a: real, b: real, r: Resolution)
    ensures EdgeText(a, r) == EdgeText(b, r) <==> CellIndex(a, r) == CellIndex(b, r)
  {
    if EdgeText(a, r) == EdgeText(b, r) {
      EdgeTextValue(a, r);
      EdgeTextValue(b, r);
      var ka, kb := CellIndex(a, r) * r.steps, CellIndex(b, r) * r.steps;
      QuotientCancel(ka, kb, Pow10(r.digits));
      MultiplyCancel(CellIndex(a, r), CellIndex(b, r), r.steps);
    }
  }

  lemma QuotientCancel(a: int, b: int, P: nat)
    requires P >= 1 && a as real / P as real == b as real / P as real
    ensures a == b
  {
    assert a as real == a as real / P as real * P as real;
    assert b as real == b as real / P as real * P as real;
  }

  lemma MultiplyCancel(i: int, j: int, s: int)
    requires s >= 1 && i * s == j * s
    ensures i == j
  {
  }

  /** Two points share a `clust` key exactly when they fall in the same cell. */
  lemma CellKeyInjective(x1: real, y1: real, x2: real, y2: real, r: Resolution)
    ensures CellKey(x1, y1, r) == CellKey(x2, y2, r) <==>
      CellIndex(x1, r) == CellIndex(x2, r) && CellIndex(y1, r) == CellIndex(y2, r)
  {
    CellKeySplit(x1, y1, r);
    CellKeySplit(x2, y2, r);
    EdgeTextInjective(x1, x2, r);
    EdgeTextInjective(y1, y2, r);
  }
}
