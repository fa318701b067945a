/** The square grid `GfasActivityReader.aggregate_by_cluster` bins fire points into: the
    cell holding a point and the box of a cell. */
module Grid {
  import opened Text

  /** A grid step of `steps / 10^digits` degrees; the default 0.1 is `Spacing(1, 1)`. */
  datatype Spacing = Spacing(steps: nat, digits: nat)

  type Resolution = s: Spacing | s.steps >= 1 witness Spacing(1, 1)

  /** The width of a cell in degrees. */
  function Size(r: Resolution): real
  {
    r.steps as real / Pow10(r.digits) as real
  }

  /** `np.floor(x * (1 / res))`: the index of the cell column (or row) holding `x`. */
  function CellIndex(x: real, r: Resolution): int
  {
    (x * Pow10(r.digits) as real / r.steps as real).Floor
  }

  /** `np.floor(x * factor) / factor`: the lower edge of the cell holding `x`. */
  function CellEdge(x: real, r: Resolution): real
  {
    (CellIndex(x, r) * r.steps) as real / Pow10(r.digits) as real
  }

  /** A coordinate lies in its cell: at or above the lower edge and below the next one. */
  lemma CellContains(x: real, r: Resolution)
    ensures CellEdge(x, r) <= x < CellEdge(x, r) + Size(r)
  {
    var P, S := Pow10(r.digits) as real, r.steps as real;
    var i := CellIndex(x, r);
    var q := x * P / S;
    assert q * S == x * P;
    FloorCell(q, x, P, S, i);
    assert (i * r.steps) as real == i as real * S;
  }

  lemma FloorCell(q: real, x: real, P: real, S: real, i: int)
    requires P > 0.0 && S > 0.0 && q * S == x * P
    requires i as real <= q < i as real + 1.0
    ensures i as real * S / P <= x < i as real * S / P + S / P
  {
    var lo, hi := i as real * S, (i as real + 1.0) * S;
    ScaleLe(i as real, q, S);
    ScaleLt(q, i as real + 1.0, S);
    DivideLe(lo, x, P);
    DivideLt(x, hi, P);
    assert hi == lo + S;
    assert (lo + S) / P == lo / P + S / P;
  }

  lemma ScaleLe(a: real, b: real, c: real)
    requires a <= b && c > 0.0
    ensures a * c <= b * c
  {
  }

  lemma ScaleLt(a: real, b: real, c: real)
    requires a < b && c > 0.0
    ensures a * c < b * c
  {
  }

  lemma DivideLe(a: real, x: real, P: real)
    requires P > 0.0 && a <= x * P
    ensures a / P <= x
  {
    assert a / P * P == a;
  }

  lemma DivideLt(x: real, b: real, P: real)
    requires P > 0.0 && x * P < b
    ensures x < b / P
  {
    assert b / P * P == b;
  }

  /** `box(xmin, ymin, xmax, ymax)`. */
  datatype Box = Box(xmin: real, ymin: real, xmax: real, ymax: real)

  /** The point lies in the box, its upper edges excluded. */
  predicate InBox(b: Box, x: real, y: real)
  {
    b.xmin <= x < b.xmax && b.ymin <= y < b.ymax
  }

  /** The cell whose lower corner is `(xmin, ymin)`. */
  function CellAt(xmin: real, ymin: real, r: Resolution): Box
  {
    Box(xmin, ymin, xmin + Size(r), ymin + Size(r))
  }

  /** The cell holding the point `(x, y)`. */
  function CellBox(x: real, y: real, r: Resolution): Box
  {
    CellAt(CellEdge(x, r), CellEdge(y, r), r)
  }

  /** A point lies in the box of its cell. */
  lemma CellInBox(x: real, y: real, r: Resolution)
    ensures InBox(CellBox(x, y, r), x, y)
  {
    CellContains(x, r);
    CellContains(y, r);
  }

}
