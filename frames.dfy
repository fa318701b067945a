/** Date-indexed frames of numeric columns, the shape of every scalar series: the per-group
    column means of `groupby(...).mean()`, the relabelling of the columns with the observed
    window, the `REFERENCE: ` prefix and the index-on-index inner `pd.merge`. */
module Frames {
  import opened Text
  import opened Order
  import opened Grouping
  import opened Stats
  import opened Calendar

  /** One row: its index date and its cells, one per column. */
  datatype Row = Row(date: Date, vals: seq<real>)

  datatype Frame = Frame(columns: seq<string>, rows: seq<Row>)

  ghost predicate WellFormed(f: Frame)
  {
    forall i :: 0 <= i < |f.rows| ==> |f.rows[i].vals| == |f.columns| && ValidDate(f.rows[i].date)
  }

  function RowDate(r: Row): Date { r.date }

  /** The cells of column `c`. */
  function ColumnOf(rows: seq<Row>, c: nat): (col: seq<real>)
    ensures |col| == |rows|
    ensures forall i :: 0 <= i < |rows| && c < |rows[i].vals| ==> col[i] == rows[i].vals[c]
  {
    seq(|rows|, i requires 0 <= i < |rows| => if c < |rows[i].vals| then rows[i].vals[c] else 0.0)
  }

  /** `DataFrame.mean()` over a group of rows: the mean of each of the `n` columns. */
  function ColumnMeans(rows: seq<Row>, n: nat): (m: seq<real>)
    requires rows != []
    ensures |m| == n
  {
    seq(n, c requires 0 <= c < n => Mean(ColumnOf(rows, c)))
  }

  /** Every cell of a group's mean row lies between that column's least and greatest value
      in the group. */
  lemma ColumnMeansBetween(rows: seq<Row>, n: nat, c: nat)
    requires rows != [] && c < n
    ensures Min(ColumnOf(rows, c)) <= ColumnMeans(rows, n)[c] <= Max(ColumnOf(rows, c))
  {
    MeanBetween(ColumnOf(rows, c));
  }

  /** The column names after `data.columns = [label if f != 'geometry' else 'geometry' ...]`. */
  function Relabel(columns: seq<string>, window: string): seq<string>
  {
    seq(|columns|, i requires 0 <= i < |columns| => if columns[i] == "geometry" then "geometry" else window)
  }

  /** After relabelling with the window from `s` to `e`, the geometry column keeps its name and
      every other column names the window, which splits back into its two dates. */
  lemma RelabelNamesWindow(columns: seq<string>, s: Date, e: Date)
    requires ValidDate(s) && ValidDate(e)
    ensures var r := Relabel(columns, Label(s, e));
      |r| == |columns|
      && (forall i :: 0 <= i < |r| ==> (r[i] == "geometry" <==> columns[i] == "geometry"))
      && (forall i :: 0 <= i < |r| && columns[i] != "geometry" ==>
            r[i] == Label(s, e) && Split(r[i], " - ") == [DateText(s), DateText(e)])
  {
    LabelSplit(s, e);
    assert Label(s, e) != "geometry" by {
      LabelSplitHead(s, e);
    }
  }

  /** A label starts with a digit, so it is never the name `geometry`. */
  lemma LabelSplitHead(s: Date, e: Date)
    requires ValidDate(s) && ValidDate(e)
    ensures |Label(s, e)| > 0 && IsDigit(Label(s, e)[0])
  {
    var t := DateText(s);
    var p := Pad2(s.day);
    assert |p| >= 2;
    assert t == p + "/" + Join([Pad2(s.month), NatToString(s.year)], "/");
    assert t[0] == p[0];
    var parts := [t, DateText(e)];
    assert parts[1..] == [DateText(e)];
    assert Join(parts[1..], " - ") == DateText(e);
    assert Label(s, e) == Join(parts, " - ") == t + " - " + DateText(e);
    assert Label(s, e)[0] == t[0];
  }

  const ReferencePrefix: string := "REFERENCE: "

  /** `rename(columns={c: f'REFERENCE: {c}' ...})`. */
  function PrefixColumns(columns: seq<string>): seq<string>
  {
    seq(|columns|, i requires 0 <= i < |columns| => ReferencePrefix + columns[i])
  }

  /** Every renamed column carries the prefix and gives its old name back once the prefix is
      cut off. */
  lemma PrefixColumnsRoundTrip(columns: seq<string>)
    ensures var r := PrefixColumns(columns);
      |r| == |columns|
      && forall i :: 0 <= i < |r| ==>
           r[i][..|ReferencePrefix|] == ReferencePrefix && r[i][|ReferencePrefix|..] == columns[i]
  {
  }

  /** The rows `pd.merge` pairs with left row `l`: every right row with the same index,
      the left cells first. */
  function Matches(l: Row, rs: seq<Row>): seq<Row>
    decreases |rs|
  {
    if rs == [] then []
    else Matches(l, rs[..|rs| - 1])
         + (if rs[|rs| - 1].date == l.date then [Row(l.date, l.vals + rs[|rs| - 1].vals)] else [])
  }

  /** The inner join of two row lists on their index, in the order of the left keys. */
  function JoinRows(ls: seq<Row>, rs: seq<Row>): seq<Row>
    decreases |ls|
  {
    if ls == [] then [] else Matches(ls[0], rs) + JoinRows(ls[1..], rs)
  }

  lemma {:induction false} MatchesSpec(l: Row, rs: seq<Row>)
    ensures forall m :: m in Matches(l, rs) <==>
      exists j :: 0 <= j < |rs| && rs[j].date == l.date && m == Row(l.date, l.vals + rs[j].vals)
    decreases |rs|
  {
    if rs != [] {
      var init := rs[..|rs| - 1];
      MatchesSpec(l, init);
      forall m | m in Matches(l, rs)
        ensures exists j :: 0 <= j < |rs| && rs[j].date == l.date && m == Row(l.date, l.vals + rs[j].vals)
      {
        if m in Matches(l, init) {
          var j :| 0 <= j < |init| && init[j].date == l.date && m == Row(l.date, l.vals + init[j].vals);
          assert rs[j] == init[j];
        } else {
          assert m == Row(l.date, l.vals + rs[|rs| - 1].vals);
        }
      }
      forall j | 0 <= j < |rs| && rs[j].date == l.date
        ensures Row(l.date, l.vals + rs[j].vals) in Matches(l, rs)
      {
        if j < |rs| - 1 {
          assert init[j] == rs[j];
        }
      }
    }
  }

  lemma {:induction false} JoinRowsSound(ls: seq<Row>, rs: seq<Row>, m: Row)
    requires m in JoinRows(ls, rs)
    ensures exists i, j :: (0 <= i < |ls| && 0 <= j < |rs| && ls[i].date == rs[j].date
      && m == Row(ls[i].date, ls[i].vals + rs[j].vals))
    decreases |ls|
  {
    var tail := ls[1..];
    assert JoinRows(ls, rs) == Matches(ls[0], rs) + JoinRows(tail, rs);
    if m in Matches(ls[0], rs) {
      MatchesSpec(ls[0], rs);
      var j :| 0 <= j < |rs| && rs[j].date == ls[0].date && m == Row(ls[0].date, ls[0].vals + rs[j].vals);
      assert ls[0].date == rs[j].date;
    } else {
      JoinRowsSound(tail, rs, m);
      var i, j :| 0 <= i < |tail| && 0 <= j < |rs| && tail[i].date == rs[j].date
        && m == Row(tail[i].date, tail[i].vals + rs[j].vals);
      assert ls[i + 1] == tail[i];
    }
  }

  lemma {:induction false} JoinRowsComplete(ls: seq<Row>, rs: seq<Row>, i: nat, j: nat)
    requires i < |ls| && j < |rs| && ls[i].date == rs[j].date
    ensures Row(ls[i].date, ls[i].vals + rs[j].vals) in JoinRows(ls, rs)
    decreases i
  {
    var tail := ls[1..];
    assert JoinRows(ls, rs) == Matches(ls[0], rs) + JoinRows(tail, rs);
    if i == 0 {
      MatchesSpec(ls[0], rs);
    } else {
      assert tail[i - 1] == ls[i];
      JoinRowsComplete(tail, rs, i - 1, j);
    }
  }

  /** The inner merge keeps exactly the pairs of rows with equal index. */
  lemma JoinRowsSpec(ls: seq<Row>, rs: seq<Row>)
    ensures forall m :: m in JoinRows(ls, rs) <==>
      exists i, j :: 0 <= i < |ls| && 0 <= j < |rs| && ls[i].date == rs[j].date
        && m == Row(ls[i].date, ls[i].vals + rs[j].vals)
  {
    forall m | m in JoinRows(ls, rs)
      ensures exists i, j :: (0 <= i < |ls| && 0 <= j < |rs| && ls[i].date == rs[j].date
        && m == Row(ls[i].date, ls[i].vals + rs[j].vals))
    {
      JoinRowsSound(ls, rs, m);
    }
    forall i, j | 0 <= i < |ls| && 0 <= j < |rs| && ls[i].date == rs[j].date
      ensures Row(ls[i].date, ls[i].vals + rs[j].vals) in JoinRows(ls, rs)
    {
      JoinRowsComplete(ls, rs, i, j);
    }
  }

  /** The dates a merge keeps are the dates present on both sides. */
  lemma JoinRowsDates(ls: seq<Row>, rs: seq<Row>, d: Date)
    ensures (exists m :: m in JoinRows(ls, rs) && m.date == d) <==>
      (exists i :: 0 <= i < |ls| && ls[i].date == d) && (exists j :: 0 <= j < |rs| && rs[j].date == d)
  {
    JoinRowsSpec(ls, rs);
    if (exists i :: 0 <= i < |ls| && ls[i].date == d) && (exists j :: 0 <= j < |rs| && rs[j].date == d) {
      var i :| 0 <= i < |ls| && ls[i].date == d;
      var j :| 0 <= j < |rs| && rs[j].date == d;
      assert Row(ls[i].date, ls[i].vals + rs[j].vals) in JoinRows(ls, rs);
    }
  }

  /** `pd.merge(left, right, left_index=True, right_index=True)`. */
  function MergeOnIndex(left: Frame, right: Frame): Frame
  {
    Frame(left.columns + right.columns, JoinRows(left.rows, right.rows))
  }

  lemma MergeWellFormed(left: Frame, right: Frame)
    requires WellFormed(left) && WellFormed(right)
    ensures WellFormed(MergeOnIndex(left, right))
  {
    var m := MergeOnIndex(left, right);
    JoinRowsSpec(left.rows, right.rows);
    forall k | 0 <= k < |m.rows| ensures |m.rows[k].vals| == |m.columns| && ValidDate(m.rows[k].date) {
      assert m.rows[k] in JoinRows(left.rows, right.rows);
    }
  }

  /** `sort_index()` on a date index. */
  function SortIndex(f: Frame): Frame
  {
    Frame(f.columns, SortBy(f.rows, RowDate, DateLess))
  }

  /** Sorting the index keeps the rows and puts their dates in ascending order. */
  lemma SortIndexSpec(f: Frame)
    ensures SortIndex(f).columns == f.columns
    ensures multiset(SortIndex(f).rows) == multiset(f.rows)
    ensures var s := SortIndex(f).rows;
      forall i, j :: 0 <= i < j < |s| ==> !DateLess(s[j].date, s[i].date)
  {
    DateLessIsStrictTotal();
    SortBySpec(f.rows, RowDate, DateLess);
  }

  lemma SortIndexWellFormed(f: Frame)
    requires WellFormed(f)
    ensures WellFormed(SortIndex(f))
  {
    SortIndexSpec(f);
    var s := SortIndex(f).rows;
    forall k | 0 <= k < |s| ensures |s[k].vals| == |f.columns| && ValidDate(s[k].date) {
      assert s[k] in multiset(s);
      assert s[k] in f.rows;
    }
  }
}
