/** `query_data`: how the GUI turns its configuration into the dataset it plots. A scalar
    series comes from `extract_data2`, a gridded one from `extract_data_polygon`; both are
    relabelled with the observed period, and the primary series can be joined with a
    reference period. */
module Query {
  import opened Outcomes
  import opened Text
  import opened Order
  import opened Grouping
  import opened Calendar
  import opened Frames
  import opened Resample
  import opened Grid
  import opened Cluster
  import opened Reader
  import opened ReaderLemmas
  import opened Variables

  /** The entries of `TOTAL_CONFIG` the queries read; the geometry is its containment
      predicate. */
  datatype Config = Config(variable: string, inside: (real, real) -> bool, plotType: string, resolution: string,
                           operation: string, specificStart: string, specificEnd: string,
                           referenceStart: string, referenceEnd: string)

  /** What `extract_data` returns: a date-indexed series, the aggregated grid, or the raw
      point frame of an empty gridded fetch. */
  datatype Dataset = Series(frame: Frame) | Gridded(grid: GridFrame) | RawPoints(raw: RawFrame)

  /** The fixed `resolution = 0.1` of the gridded query. */
  const GridResolution: Resolution := Spacing(1, 1)

  // ---------------------------------------------------------------- extract_data

  /** The table lookup, then the two `strptime` calls, then the window check; nothing is
      fetched before all three pass. */
  function Window(cfg: Config, start: string, end: string): Result<(string, Date, Date)>
  {
    match Lookup(cfg.variable)
    case Err(err) => Err(err)
    case Ok(v) =>
      match ParseDate(start)
      case Err(err) => Err(err)
      case Ok(s) =>
        match ParseDate(end)
        case Err(err) => Err(err)
        case Ok(e) => if DateLess(e, s) then Err(InvalidWindow) else Ok((v.table, s, e))
  }

  /** The scalar branch: the daily aggregate, returned as it is when empty; otherwise
      collapsed to a climatology unless the dates stay separate, relabelled with its first
      and last observed dates and, if asked, resampled. */
  function ScalarSeries(db: Store, cfg: Config, table: string, s: Date, e: Date, f: string, keepSeparate: bool,
                        adapt: bool, std: seq<real> -> real): Result<Dataset>
  {
    match ExtractData2(db, s, e, cfg.inside, table, Some(f), std)
    case Err(err) => Err(err)
    case Ok(data) =>
      if data.rows == [] then Ok(Series(data))
      else
        ExtractData2Ok(db, s, e, cfg.inside, table, Some(f), std);
        var first, last := data.rows[0].date, data.rows[|data.rows| - 1].date;
        match (if keepSeparate then Ok(data) else Climatology(data))
        case Err(err) => Err(err)
        case Ok(d) =>
          var labelled := Frame(Relabel(d.columns, Label(first, last)), d.rows);
          if adapt then
            match AdaptResolution(labelled, cfg.resolution)
            case Err(err) => Err(err)
            case Ok(out) => Ok(Series(out))
          else Ok(Series(labelled))
  }

  /** The gridded branch after the fetch: an empty result is returned as it is; otherwise
      the grid is relabelled with the first and last dates of the raw fetch and never
      resampled. */
  function Gridded2D(q: Result<PolygonData>): Result<Dataset>
    requires q.Ok? ==> forall i :: 0 <= i < |q.value.raw.points| ==> ValidDate(q.value.raw.points[i].date)
  {
    match q
    case Err(err) => Err(err)
    case Ok(pd) =>
      match pd.second
      case SameFrame => Ok(RawPoints(pd.raw))
      case NotAggregated => Err(AttributeError("empty"))
      case Aggregated(g) =>
        if g.rows == [] then Ok(Gridded(g))
        else if pd.raw.points == [] then Err(IndexError)
        else
          var first, last := pd.raw.points[0].date, pd.raw.points[|pd.raw.points| - 1].date;
          Ok(Gridded(GridFrame(Relabel(g.columns, Label(first, last)), g.rows)))
  }

  /** The gridded branch: one function, the 0.1 grid, always aggregated. */
  function GriddedSeries(db: Store, cfg: Config, table: string, s: Date, e: Date, f: string, keepSeparate: bool,
                         std: seq<real> -> real): Result<Dataset>
  {
    PolygonRaw(db, table, s, e, cfg.inside, f, keepSeparate, std);
    Gridded2D(PolygonQuery(db, table, s, e, cfg.inside, OpList([f]), GridResolution, keepSeparate, true, std))
  }

  /** The raw points of the gridded fetch are real calendar days, as the label needs. */
  lemma PolygonRaw(db: Store, table: string, s: Date, e: Date, inside: (real, real) -> bool, f: string,
                   keepSeparate: bool, std: seq<real> -> real)
    ensures var q := PolygonQuery(db, table, s, e, inside, OpList([f]), GridResolution, keepSeparate, true, std);
      q.Ok? ==> forall i :: 0 <= i < |q.value.raw.points| ==> ValidDate(q.value.raw.points[i].date)
  {
    if PolygonQuery(db, table, s, e, inside, OpList([f]), GridResolution, keepSeparate, true, std).Ok? {
      PolygonRawDates(db, table, s, e, inside, OpList([f]), GridResolution, keepSeparate, true, std);
    }
  }

  /** What `extract_data` returns: a plot type containing `2D` takes the gridded branch. */
  function ExtractDataSpec(db: Store, cfg: Config, adapt: bool, start: string, end: string, f: string,
                           keepSeparate: bool, std: seq<real> -> real): Result<Dataset>
  {
    match Window(cfg, start, end)
    case Err(err) => Err(err)
    case Ok(w) =>
      if Contains(cfg.plotType, "2D") then GriddedSeries(db, cfg, w.0, w.1, w.2, f, keepSeparate, std)
      else ScalarSeries(db, cfg, w.0, w.1, w.2, f, keepSeparate, adapt, std)
  }

  // ---------------------------------------------------------------- create_dataset_query

  /** Both reference dates are given and the plot is not the static map. */
  predicate UsesReference(cfg: Config)
  {
    cfg.referenceStart != "" && cfg.referenceEnd != "" && cfg.plotType != "2D Plot"
  }

  /** The reference columns renamed with the prefix, then the inner merge on the index,
      reference first; only two series are merged. */
  function Merged(reference: Dataset, data: Dataset): Result<Dataset>
  {
    if reference.Series? && data.Series? then
      Ok(Series(MergeOnIndex(Frame(PrefixColumns(reference.frame.columns), reference.frame.rows), data.frame)))
    else Err(UnsupportedMode)
  }

  function GridKey(m: GridRow): seq<KeyPart> { m.key }

  /** `sort_index()`: a series by date, a grid by its key; the raw frame that reaches here is
      the empty one. */
  function SortDataset(d: Dataset): Dataset
  {
    match d
    case Series(f) => Series(SortIndex(f))
    case Gridded(g) => Gridded(GridFrame(g.columns, SortBy(g.rows, GridKey, KeyLess)))
    case RawPoints(r) => RawPoints(r)
  }

  /** What `create_dataset_query` returns. */
  function CreateDataset(db: Store, cfg: Config, std: seq<real> -> real): Result<Dataset>
  {
    match Lookup(cfg.variable)
    case Err(err) => Err(err)
    case Ok(_) =>
      if cfg.plotType == "2D Animated Plot" then
        ExtractDataSpec(db, cfg, true, cfg.specificStart, cfg.specificEnd, cfg.operation, true, std)
      else
        match ExtractDataSpec(db, cfg, true, cfg.specificStart, cfg.specificEnd, cfg.operation, false, std)
        case Err(err) => Err(err)
        case Ok(data) =>
          if UsesReference(cfg) then
            match ExtractDataSpec(db, cfg, true, cfg.referenceStart, cfg.referenceEnd, cfg.operation, false, std)
            case Err(err) => Err(err)
            case Ok(reference) =>
              match Merged(reference, data)
              case Err(err) => Err(err)
              case Ok(m) => Ok(SortDataset(m))
          else Ok(SortDataset(data))
  }

  /** A `query_data` built from a configuration, which builds its dataset at once. */
  class QueryData {
    var config: Config
    var data: Result<Dataset>

    constructor (db: Store, config: Config, std: seq<real> -> real)
      ensures this.config == config && data == CreateDataset(db, config, std)
    {
      this.config := config;
      new;
      data := CreateDatasetQuery(db, std);
    }

    /** `extract_data`. */
    method ExtractData(db: Store, adapt: bool, start: string, end: string, f: string, keepSeparate: bool,
                       std: seq<real> -> real) returns (res: Result<Dataset>)
      ensures res == ExtractDataSpec(db, config, adapt, start, end, f, keepSeparate, std)
    {
      var w := Window(config, start, end);
      if w.Err? {
        return Err(w.error);
      }
      var (table, s, e) := w.value;
      if Contains(config.plotType, "2D") {
        var q := ExtractDataPolygon(db, table, s, e, config.inside, OpList([f]), GridResolution, keepSeparate, true, std);
        PolygonRaw(db, table, s, e, config.inside, f, keepSeparate, std);
        res := Gridded2D(q);
      } else {
        res := ScalarSeries(db, config, table, s, e, f, keepSeparate, adapt, std);
      }
    }

    /** `create_dataset_query`. */
    method CreateDatasetQuery(db: Store, std: seq<real> -> real) returns (res: Result<Dataset>)
      ensures res == CreateDataset(db, config, std)
    {
      var v := Lookup(config.variable);
      if v.Err? {
        return Err(v.error);
      }
      if config.plotType == "2D Animated Plot" {
        res := ExtractData(db, true, config.specificStart, config.specificEnd, config.operation, true, std);
        return;
      }
      var data := ExtractData(db, true, config.specificStart, config.specificEnd, config.operation, false, std);
      if data.Err? {
        return data;
      }
      var d := data.value;
      if UsesReference(config) {
        var reference := ExtractData(db, true, config.referenceStart, config.referenceEnd, config.operation, false, std);
        if reference.Err? {
          return reference;
        }
        var merged := Merged(reference.value, d);
        if merged.Err? {
          return merged;
        }
        d := merged.value;
      }
      res := Ok(SortDataset(d));
    }
  }
}
