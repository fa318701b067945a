# Wildfire emission explorer: the data core in Dafny

The wildfire emission explorer plots GFAS fire-emission records held in PostGIS tables. The user
configures a variable, a region, a period, an aggregation function and a plot type. This project
models the part of the program that turns that configuration into the dataset to be plotted, and
it proves properties of that model:

- **Configuration geometry** (`config_file` in `code-emission-explorer/GUI/data_handler.py`).
  A geometry can be resolved from country or continent names, where `+` joins several names into
  one region and a list gives several regions. It can also be rebuilt from coordinate lists, or
  decomposed back into coordinate lists for the configuration file. This is module `Config`, with
  the class `Config.ConfigFile`, which holds the `countryname` attribute.
- **The queries** (`GfasActivityReader` in `emission_explorer/GfasActivityReader.py`).
  `extract_data2` gives one aggregate value per day inside a polygon and a date window.
  `extract_data_polygon` fetches the raw points and aggregates them on a square grid.
  `aggregate_by_cluster` writes a `clust` cell key into the point frame, groups by the key
  columns, aggregates, rebuilds each cell's box and flattens the column names. These are modules
  `Reader`, `Cluster` (the classes `PointTable` and `ColumnList`, which model the frame and the key
  list the source mutates in place), `Grid` and `CellKeys`.
- **The dataset query** (`query_data` in `data_handler.py`).
  - `table_database`, the variable catalogue (module `Variables`);
  - `adapt_resolution`, daily, weekly or monthly means (module `Resample`);
  - `extract_data`, which checks the window, runs one of the two queries, collapses years into a
    day-of-year climatology and relabels the columns with the observed period (module `Query`);
  - `create_dataset_query`, which optionally joins a reference period.

  The class `Query.QueryData` models the object, and its methods are proved equal to the
  specification functions `ExtractDataSpec` and `CreateDataset`.

The database is a value, `Reader.Store`: a map from table name to its records in storage order.
The query polygon is a containment predicate `inside(x, y)`. The sample standard deviation, which
pandas and PostgreSQL compute with a square root, is a parameter `std`. Everything else the core
computes is defined here, including:

- date parsing `%d-%m-%Y`, the week number `%U`, the day-of-year parse `%Y-%j` and the label
  `DD/MM/YYYY - DD/MM/YYYY`;
- the sorted group-by of pandas and the stable `ORDER BY`;
- the decimal text of the cell keys and the parse back to a box;
- the flattening of aggregated column names.

Supporting modules:

- `Outcomes`: `Option`, `Result` and the errors the Python code raises.
- `Text`: digits, split, join, replace.
- `Order`: strict total orders.
- `Grouping`: group-by and stable sort by key.
- `Calendar`: dates.
- `Stats`: sum, mean, min, max, median.
- `Frames`: date-indexed frames, relabelling, the reference merge.

A Python exception is an `Err` carrying the exception's kind. A name that Python would leave
unbound (`datanew` for an unknown resolution, `geom` for an unknown polygon type) is
`Err(UnboundLocal(...))`.

## Model

| member | source | states |
|---|---|---|
| Variables.Lookup | code-emission-explorer/GUI/data_handler.py:145-158 | a variable name is found iff it is one of the twelve catalogue entries, which gives its field, table and unit; any other name is a `KeyError` naming it |
| Variables.FieldVariableName | emission_explorer/GfasActivityReader.py:121 | for a table `gfas_<field>_data`, removing `_data` gives the value column name `gfas_<field>` |
| Variables.FieldLacksGeom | emission_explorer/GfasActivityReader.py:60 | `gfas_<field>` for a field without `g` contains no `geom`, so its aggregated columns are not dropped |
| Variables.CatalogueTables | code-emission-explorer/GUI/data_handler.py:145-158 | every one of the twelve catalogue rows names its table `gfas_<field>_data` after a plain field, so `extract_data_polygon` reads the value column `gfas_<field>`, and that column name holds no `geom` |
| Calendar.ParseDate | code-emission-explorer/GUI/data_handler.py:191-192 | every date `%d-%m-%Y` accepts is a real calendar day |
| Calendar.ParseSpacedDay | code-emission-explorer/GUI/data_handler.py:191-192 | `%d` also takes a day below 10 written after a space, so ` 5-01-2020` is 5 January 2020, while `%m` refuses a month written that way |
| Calendar.ParseFormatDate | code-emission-explorer/GUI/data_handler.py:191-192 | parsing the `DD-MM-YYYY` text of any real day with a four-digit year gives back that day |
| Calendar.DateLessIsStrictTotal | code-emission-explorer/GUI/data_handler.py:193 | the timestamp comparison used by the window check, `ORDER BY datetime` and `sort_index` is a strict total order |
| Calendar.DayOfYear | code-emission-explorer/GUI/data_handler.py:173 | the day of the year of a real day lies between 1 and the length of its year |
| Calendar.FromDayOfYear | code-emission-explorer/GUI/data_handler.py:173 | `%Y-%j` accepts a day number iff it is 1 to 366 in a year 1-9999, except day 366 of 9999; a day inside the year gives the date with that year and that day number, day 366 of a common year gives 1 January of the next year |
| Calendar.FromDayOfYearRoundTrip | code-emission-explorer/GUI/data_handler.py:173 | every real day is recovered from its year and day of year |
| Calendar.DayOfYearInjective | code-emission-explorer/GUI/data_handler.py:173 | two days of one year with the same day number are the same day |
| Calendar.Week | code-emission-explorer/GUI/data_handler.py:172 | the `%U` week number lies in 0..53 |
| Calendar.WeekOfFirstDay | code-emission-explorer/GUI/data_handler.py:172 | 1 January is in week 1 when it is a Sunday and in week 0 otherwise |
| Calendar.WeekStep | code-emission-explorer/GUI/data_handler.py:172 | the week number goes up by one exactly on each Sunday |
| Calendar.DateLessInYear | code-emission-explorer/GUI/data_handler.py:193 | within one year, date order is day-of-year order |
| Calendar.ParseFields | code-emission-explorer/GUI/data_handler.py:191-192 | a text splitting on `-` into a day field, a two-digit month and a four-digit year parses to that day |
| Calendar.LabelSplit | code-emission-explorer/GUI/data_handler.py:215 | the period label splits on ` - ` into exactly the start and end texts; a date text contains no `_` |
| Calendar.DateTextRoundTrip | code-emission-explorer/GUI/data_handler.py:215 | the `DD/MM/YYYY` text of a day splits into three fields that read back as its day, month and year |
| Stats.MeanBetween | code-emission-explorer/GUI/data_handler.py:167 | the mean of a non-empty list lies between its minimum and its maximum |
| Stats.MedianBetween | emission_explorer/GfasActivityReader.py:94 | the median of a non-empty list lies between its minimum and its maximum |
| Frames.ColumnMeansBetween | code-emission-explorer/GUI/data_handler.py:167 | each column mean of a group lies between the column's minimum and maximum |
| Frames.RelabelNamesWindow | code-emission-explorer/GUI/data_handler.py:215 | relabelling keeps the column count and keeps `geometry` where it was; every other column becomes the period label, which splits back into the two dates |
| Frames.PrefixColumnsRoundTrip | code-emission-explorer/GUI/data_handler.py:244 | each reference column is `REFERENCE: ` followed by the original name, and stripping the prefix gives the name back |
| Frames.JoinRowsSpec | code-emission-explorer/GUI/data_handler.py:245 | a row is in the inner join iff it pairs a left row and a right row of the same date, with the left values first |
| Frames.JoinRowsDates | code-emission-explorer/GUI/data_handler.py:245 | a date occurs in the join iff it occurs on both sides |
| Frames.MergeWellFormed | code-emission-explorer/GUI/data_handler.py:245 | merging two well-formed frames gives a frame whose rows have one cell per column |
| Frames.SortIndexSpec | code-emission-explorer/GUI/data_handler.py:246 | `sort_index` keeps the columns, permutes the rows and leaves them in ascending date order |
| Resample.ResampledSpec | code-emission-explorer/GUI/data_handler.py:167-168 | a group-by-mean whose stamps are all defined and tell groups apart gives one row per group, with distinct dates, each the stamp and column means of some input row's group |
| Resample.SortedResampledSpec | code-emission-explorer/GUI/data_handler.py:167-169 | after sorting, the resampled rows are strictly ascending by date and each one still comes from an input group |
| Resample.SortedResampledComplete | code-emission-explorer/GUI/data_handler.py:167-169 | every input row's group appears among the sorted resampled rows |
| Resample.MonthlySpec | code-emission-explorer/GUI/data_handler.py:166-169 | monthly resampling keeps the columns; its rows are strictly ascending, and each is dated the 1st of a month holding the column means of that month's input rows |
| Resample.MonthlyComplete | code-emission-explorer/GUI/data_handler.py:166-169 | every input row's month appears in the monthly result with the means of its month |
| Resample.WeekKeyParse | code-emission-explorer/GUI/data_handler.py:172-173 | the `%Y-%U` key of a day reads back as day `7*week+1` of its year for weeks up to 52; week 53 is a `ValueError` |
| Resample.WeekKeyInjective | code-emission-explorer/GUI/data_handler.py:172 | two days share a week key iff they share year and week number |
| Resample.WeeklyFails | code-emission-explorer/GUI/data_handler.py:171-174 | weekly resampling fails iff some row falls in week 53 |
| Resample.WeekDate | code-emission-explorer/GUI/data_handler.py:173 | the start date given to a week up to 52 is the real day `7*week+1` of the same year |
| Resample.WeekDateInjective | code-emission-explorer/GUI/data_handler.py:172-173 | two weeks given the same start date have the same key, so no two weekly groups collide |
| Resample.WeeklySpec | code-emission-explorer/GUI/data_handler.py:171-174 | without week 53, weekly resampling keeps the columns; its rows are strictly ascending, each dated its week's start and holding that week's column means |
| Resample.WeeklyComplete | code-emission-explorer/GUI/data_handler.py:171-174 | without week 53, every input row's week appears in the weekly result |
| Resample.WeekOfRowDate | code-emission-explorer/GUI/data_handler.py:173 | the date given to week `w` has `%U` week `w`, or `w+1` when the year starts on a Sunday |
| Resample.ClimatologyDate | code-emission-explorer/GUI/data_handler.py:213 | a `DD-MM` key that parses gives a real day of year 2220 |
| Resample.LeapClimatologyYear | code-emission-explorer/GUI/data_handler.py:213 | 2220 is a leap year, so 29 February of any year has a place |
| Resample.DayMonthKeyParse | code-emission-explorer/GUI/data_handler.py:212-213 | the `DD-MM` key of any real day reads back as the same day and month in year 2220 |
| Resample.ClimatologySpec | code-emission-explorer/GUI/data_handler.py:211-214 | the climatology never fails and keeps the columns; it has at most 366 rows with distinct dates, each the means of the input rows of one day and month |
| Resample.ClimatologyComplete | code-emission-explorer/GUI/data_handler.py:211-214 | every input row's day and month appears in the climatology with the means of its group |
| Resample.ClimatologyCount | code-emission-explorer/GUI/data_handler.py:212-213 | distinct real days of year 2220 number at most 366 |
| Resample.DistinctDatesInYear | code-emission-explorer/GUI/data_handler.py:212-213 | distinct real days of one year number at most the length of that year |
| Resample.AdaptResolution | code-emission-explorer/GUI/data_handler.py:164-178 | `daily` returns the frame unchanged; a resolution other than monthly, weekly or daily leaves `datanew` unbound |
| Grid.CellContains | emission_explorer/GfasActivityReader.py:38-39 | the floored edge of a coordinate is at most the coordinate and less than one cell further |
| Grid.CellInBox | emission_explorer/GfasActivityReader.py:33-39 | every point lies in the box of its own cell |
| CellKeys.BoxOfKey | emission_explorer/GfasActivityReader.py:33-35 | a box rebuilt from a key is a square of the grid resolution |
| CellKeys.EdgeTextValue | emission_explorer/GfasActivityReader.py:34 | the printed cell edge reads back as the same number and contains no `_` |
| CellKeys.CellKeySplit | emission_explorer/GfasActivityReader.py:34-38 | a cell key `x_y` splits on `_` into exactly its two edge texts |
| CellKeys.BoxOfCellKey | emission_explorer/GfasActivityReader.py:33-39 | the box rebuilt from a point's key is the box of the point's cell |
| CellKeys.EdgeTextInjective | emission_explorer/GfasActivityReader.py:38 | two edges print the same iff they have the same cell index |
| CellKeys.CellKeyInjective | emission_explorer/GfasActivityReader.py:38-39 | two points get the same key iff both cell indices agree |
| Cluster.KeyLessIsStrictTotal | emission_explorer/GfasActivityReader.py:42 | the order in which `groupby` sorts the group keys is a strict total order |
| Cluster.PointTable.AssignClusters | emission_explorer/GfasActivityReader.py:37-39 | writes the `clust` column, one key per point, and leaves the points unchanged |
| Cluster.ColumnList.EnsureClust | emission_explorer/GfasActivityReader.py:40-41 | appends `clust` to the caller's key list in place unless it is already there |
| Cluster.PointKey | emission_explorer/GfasActivityReader.py:42 | a point's group key has one level per key column, in order |
| Cluster.ColumnError | emission_explorer/GfasActivityReader.py:42 | grouping has no column error iff every key column is `datetime` or `clust` |
| Cluster.UnknownFunction | emission_explorer/GfasActivityReader.py:42 | no name is reported iff every function is a known aggregation; a reported name is in the list and unknown |
| Cluster.Duplicate | emission_explorer/GfasActivityReader.py:42 | no name is reported iff the function names are distinct; a reported name occurs twice |
| Cluster.FunctionError | emission_explorer/GfasActivityReader.py:42 | `agg` rejects the function list iff it is empty, names an unknown function or repeats one; a repeated name is a `SpecificationError` even when an unknown name is also present (pandas checks for repeats before it looks any name up), and an unknown name among distinct ones is an `AttributeError` naming it |
| Cluster.GridRows | emission_explorer/GfasActivityReader.py:42-52 | the rows are built iff every group key can be turned into a box; row `i` holds group `i`'s key, its aggregates and its box |
| Cluster.AggregateByCluster | emission_explorer/GfasActivityReader.py:29-63 | writes `clust` into the point table and appends it to the caller's key list, then returns the aggregation of the updated state |
| Cluster.FlatName | emission_explorer/GfasActivityReader.py:55-56 | a label `(column, function)` whose function part does not end in `_` becomes `column_function`, and a label `(column, '')` keeps the bare column name |
| ClusterLemmas.ClusterKeysSpec | emission_explorer/GfasActivityReader.py:37-39 | there is one key per point; it rebuilds to the point's cell box, which contains the point; two keys are equal iff the points share a cell |
| ClusterLemmas.WithClustSpec | emission_explorer/GfasActivityReader.py:40-41 | appending `clust` keeps the old columns first, adds at most one column, always yields `clust`, and is idempotent |
| ClusterLemmas.SameGroup | emission_explorer/GfasActivityReader.py:42 | two points fall in one group iff they share a cell, and also a date when `datetime` is a key |
| ClusterLemmas.AggValueBetween | emission_explorer/GfasActivityReader.py:42 | `count` is the group size; mean, median, min and max lie within the group's range; the sum over the size does too |
| ClusterLemmas.KeyBox | emission_explorer/GfasActivityReader.py:45-51 | the last key level is rebuilt into a box; if it is a date rather than a cell key, the split fails |
| ClusterLemmas.AggregateOk | emission_explorer/GfasActivityReader.py:29-63 | the aggregation succeeds iff the request is valid; a valid request whose last key is not `clust` fails at the box rebuild |
| ClusterLemmas.AggregateSorted | emission_explorer/GfasActivityReader.py:42 | the aggregated rows are strictly ascending by group key |
| ClusterLemmas.AggregateSound | emission_explorer/GfasActivityReader.py:42-52 | every aggregated row is the row of the group of some input point |
| ClusterLemmas.AggregateComplete | emission_explorer/GfasActivityReader.py:42-52 | every input point's group appears among the aggregated rows |
| ClusterLemmas.RowsOfGroups | emission_explorer/GfasActivityReader.py:42 | there is exactly one row per group |
| ClusterLemmas.GroupInCell | emission_explorer/GfasActivityReader.py:33-52 | every member of a group lies in the box attached to the group's row |
| ClusterLemmas.SharedKeyBox | emission_explorer/GfasActivityReader.py:33-39 | a point lies in the box of any point with the same key |
| ClusterLemmas.AggregateColumns | emission_explorer/GfasActivityReader.py:50-61 | the output columns are `<variable>_<function>` per function, then `geometry`; each row has one value per value column |
| ClusterLemmas.OutputColumnsSpec | emission_explorer/GfasActivityReader.py:55-61 | after flattening and the drop, the columns are the value columns followed by `geometry` |
| ClusterLemmas.PrunedPairs | emission_explorer/GfasActivityReader.py:59-61 | the aggregates of the `geom` or `geometry` columns are all dropped |
| ClusterLemmas.KeptPairs | emission_explorer/GfasActivityReader.py:55-61 | the value column's aggregates are all kept, as `<variable>_<function>` |
| ClusterLemmas.GeometryColumn | emission_explorer/GfasActivityReader.py:55-57 | the geometry column keeps its name after flattening |
| ClusterLemmas.HasGeomJoin | emission_explorer/GfasActivityReader.py:60 | a flattened aggregate name contains `geom` iff the value column's name does |
| Reader.Selected | emission_explorer/GfasActivityReader.py:101-103 | a record is selected iff its date is in the closed window and it lies inside the polygon |
| Reader.DailyRows | emission_explorer/GfasActivityReader.py:101-105 | one row per date group, holding the SQL aggregate of that group's values |
| Reader.OperationList | emission_explorer/GfasActivityReader.py:117-120 | no operations means `['sum']` and a bare name means a one-name list |
| Reader.ExtractDataPolygon | emission_explorer/GfasActivityReader.py:116-150 | fetches, then hands a fresh point table and key list to the in-place aggregation; the result is `PolygonQuery` |
| ReaderLemmas.SqlOperatorSpec | emission_explorer/GfasActivityReader.py:94-99 | no operator means `SUM`; a name is accepted iff it is one of mean, median, std, min, max and sum; any other name is a `KeyError` |
| ReaderLemmas.SqlOperatorNames | emission_explorer/GfasActivityReader.py:94 | the SQL names are AVG, median, stddev, MIN, MAX and SUM |
| ReaderLemmas.SqlAgreesWithAgg | emission_explorer/GfasActivityReader.py:94-101 | each SQL aggregate computes the same value as the pandas aggregation of the same name |
| ReaderLemmas.CountOnlyGridded | emission_explorer/GfasActivityReader.py:94-99 | `count` is a valid gridded aggregation but a `KeyError` for the daily query |
| ReaderLemmas.ExtractData2Ok | emission_explorer/GfasActivityReader.py:91-114 | the daily query succeeds iff the operator is known and the table exists, and an operator error comes first; its one column is the aggregate's name |
| ReaderLemmas.DailySorted | emission_explorer/GfasActivityReader.py:104-105 | the daily rows are strictly ascending by date |
| ReaderLemmas.ExtractData2Sound | emission_explorer/GfasActivityReader.py:91-114 | every row of `extract_data2` is the aggregate, over exactly the chosen records of one date, for a date that a chosen record has (the daily query's `GROUP BY datetime`, lines 101-105, stated through `DailySound`) |
| ReaderLemmas.ExtractData2Complete | emission_explorer/GfasActivityReader.py:91-114 | every chosen record's date has its row in `extract_data2` (through `DailyComplete` on the daily query) |
| ReaderLemmas.ExtractData2Sorted | emission_explorer/GfasActivityReader.py:104-105 | the rows of `extract_data2` are strictly ascending by date |
| ReaderLemmas.GroupKeysSpec | emission_explorer/GfasActivityReader.py:138-141 | the key columns already end in `clust`, so appending it changes nothing; a point's key is (date, cell) or (cell) |
| ReaderLemmas.FetchedSpec | emission_explorer/GfasActivityReader.py:123-126 | the raw fetch is a permutation of the selected records, in ascending date order, and is empty iff nothing is selected |
| ReaderLemmas.PolygonQueryShape | emission_explorer/GfasActivityReader.py:116-150 | an empty fetch returns an empty frame twice; `aggregate = False` returns `None`; otherwise the query succeeds iff the function list is valid, and the frame then carries the `clust` keys |
| ReaderLemmas.DefaultOpsAggregate | emission_explorer/GfasActivityReader.py:117-118 | with the default `['sum']`, a non-empty fetch always aggregates |
| ReaderLemmas.PolygonQueryRaw | emission_explorer/GfasActivityReader.py:123-131 | the raw frame returned is a permutation of the selected records in ascending date order |
| ReaderLemmas.PolygonRawDates | emission_explorer/GfasActivityReader.py:123-126 | every raw record is a real day in the window and inside the polygon |
| ReaderLemmas.PolygonQueryRows | emission_explorer/GfasActivityReader.py:137-146 | the grid holds exactly the rows of the groups of the raw points: each row comes from some point, and each point's group has a row |
| Query.PolygonRaw | code-emission-explorer/GUI/data_handler.py:197-203 | the raw points of the gridded fetch are real days, so the period label can be formed |
| Query.QueryData.constructor | code-emission-explorer/GUI/data_handler.py:144-162 | keeps the configuration and builds its dataset at once |
| Query.QueryData.ExtractData | code-emission-explorer/GUI/data_handler.py:180-220 | returns `ExtractDataSpec`: the window checks, then the gridded or the scalar branch |
| Query.QueryData.CreateDatasetQuery | code-emission-explorer/GUI/data_handler.py:222-247 | returns `CreateDataset` |
| QueryLemmas.WindowSpec | code-emission-explorer/GUI/data_handler.py:187-194 | the window is accepted iff the variable is catalogued, both dates parse and the start is not after the end; it then gives the table and the two days |
| QueryLemmas.StartAfterEnd | code-emission-explorer/GUI/data_handler.py:193-194 | a start after the end is an invalid-period error before anything is fetched |
| QueryLemmas.SameDayAccepted | code-emission-explorer/GUI/data_handler.py:191-194 | a one-day period is accepted |
| QueryLemmas.EmptyFetch | code-emission-explorer/GUI/data_handler.py:200-207 | when nothing is selected, the scalar branch returns the empty daily frame as it is and the gridded branch the empty raw frame |
| QueryLemmas.DailyNotEmpty | code-emission-explorer/GUI/data_handler.py:205-207 | one chosen record is enough for the daily frame not to be empty |
| QueryLemmas.ScalarIsSeries | code-emission-explorer/GUI/data_handler.py:204-220 | the scalar branch only ever returns a date-indexed series |
| QueryLemmas.RawPointsEmpty | code-emission-explorer/GUI/data_handler.py:196-201 | `extract_data` returns the raw point frame only when it is empty |
| QueryLemmas.DailyBounds | code-emission-explorer/GUI/data_handler.py:208 | the first and last daily rows carry the earliest and latest selected dates |
| QueryLemmas.RawBounds | code-emission-explorer/GUI/data_handler.py:203 | the first and last raw points carry the earliest and latest selected dates |
| QueryLemmas.ScalarLabelled | code-emission-explorer/GUI/data_handler.py:208-215 | the scalar result is the daily frame, or its climatology, relabelled with its first and last dates |
| QueryLemmas.ScalarLabel | code-emission-explorer/GUI/data_handler.py:208-215 | the scalar result has the single period-label column and the rows of the daily frame or of its climatology |
| QueryLemmas.AdaptGate | code-emission-explorer/GUI/data_handler.py:217-220 | the resampling step is the identity for `daily` and the monthly means for `monthly`; any other name but `weekly` leaves `datanew` unbound |
| QueryLemmas.Gridded2DLabel | code-emission-explorer/GUI/data_handler.py:200-215 | a non-empty grid keeps its rows, and its columns are relabelled with the first and last raw dates |
| QueryLemmas.GriddedQuery | code-emission-explorer/GUI/data_handler.py:196-203 | with records in the region and a known function, the gridded fetch aggregates, both its raw frame and its grid have rows, and its raw points carry only real calendar days, so the period label can be formed |
| QueryLemmas.GriddedLabel | code-emission-explorer/GUI/data_handler.py:196-215 | the gridded result keeps the grid's rows and labels its columns with the earliest and latest selected dates |
| QueryLemmas.DatasetPlan | code-emission-explorer/GUI/data_handler.py:227-246 | the animated map keeps dates separate and is not sorted; without a reference, the primary dataset is sorted |
| QueryLemmas.ReferenceJoin | code-emission-explorer/GUI/data_handler.py:237-246 | `create_dataset_query` with a reference gives the sorted join of the reference series with each column prefixed by `REFERENCE: ` with the primary one: the prefixed reference columns then the primary ones, dates ascending, and a row iff it pairs a reference row and a primary row of the same date |
| QueryLemmas.ReferenceDates | code-emission-explorer/GUI/data_handler.py:245 | a date is in the joined series iff both periods have it |
| Config.Matching | code-emission-explorer/GUI/data_handler.py:53 | the entries found are exactly the shapes carrying the name |
| Config.MatchingOne | code-emission-explorer/GUI/data_handler.py:53-55 | exactly one entry is found iff the name occurs at a single index, and that entry is the one found |
| Config.CountrySearchSpec | code-emission-explorer/GUI/data_handler.py:50-58 | the search succeeds iff the name matches exactly one shape, and returns that shape's geometry; otherwise the error reports the number of matches |
| Config.CountryMissing | code-emission-explorer/GUI/data_handler.py:54-58 | an unknown name is an error with zero matches |
| Config.MatchingDistinct | code-emission-explorer/GUI/data_handler.py:81 | in a table with one shape per name, which `groupby(index).last()` gives, at most one shape matches |
| Config.CountryDistinct | code-emission-explorer/GUI/data_handler.py:81 | in such a table the only failure is a name with zero matches |
| Config.MapAllSpec | code-emission-explorer/GUI/data_handler.py:61-63 | the append loop succeeds iff every call does, collecting the values in order; a failure is the first failing call's exception |
| Config.SearchAllOk | code-emission-explorer/GUI/data_handler.py:60-63 | a `+`-joined search succeeds iff every part names exactly one shape |
| Config.SearchAllValues | code-emission-explorer/GUI/data_handler.py:60-63 | it then collects one geometry per part, in order, each the part's unique shape |
| Config.SearchAllError | code-emission-explorer/GUI/data_handler.py:60-63 | a failure reports the first part that does not resolve and its match count |
| Config.SingleName | code-emission-explorer/GUI/data_handler.py:62-63 | a name without `+` is one plain country search |
| Config.JoinedNames | code-emission-explorer/GUI/data_handler.py:62 | names joined with `+` are searched one by one |
| Config.RecomposeNamesSpec | code-emission-explorer/GUI/data_handler.py:82-88 | a list of names resolves iff each entry does, giving one region per entry in order; a failure is the first failing entry's error |
| Config.TextIsOneEntryList | code-emission-explorer/GUI/data_handler.py:82-91 | a single name string gives the same regions as a one-entry list |
| Config.Zip | code-emission-explorer/GUI/data_handler.py:105 | `zip` pairs the coordinates pointwise and stops at the shorter list |
| Config.Filled | code-emission-explorer/GUI/data_handler.py:106 | each shell becomes a polygon without holes |
| Config.ZipRingsSpec | code-emission-explorer/GUI/data_handler.py:104-111 | unpacking rings succeeds iff each ring has exactly an x list and a y list, and zips each one; otherwise it is an unpacking `ValueError` |
| Config.Xs | code-emission-explorer/GUI/data_handler.py:131-133 | the x list of a ring holds its points' first coordinates |
| Config.Ys | code-emission-explorer/GUI/data_handler.py:131-133 | the y list of a ring holds its points' second coordinates |
| Config.AllXY | code-emission-explorer/GUI/data_handler.py:130-131 | each boundary ring becomes its pair of x and y lists, in order |
| Config.UnzipZip | code-emission-explorer/GUI/data_handler.py:105-133 | zipping the x and y lists of a ring gives the ring back |
| Config.AllXYRings | code-emission-explorer/GUI/data_handler.py:104-131 | unpacking the decomposed rings gives the rings back |
| Config.PolygonRoundTrip | code-emission-explorer/GUI/data_handler.py:93-139 | decomposing a polygon with holes and recomposing it as `singlepolygon` gives the same polygon |
| Config.MultiPolygonRecomposed | code-emission-explorer/GUI/data_handler.py:103-131 | a decomposed multipolygon recomposes into one hole-free polygon per boundary ring (shells and holes alike) |
| Config.AllRingsFilled | code-emission-explorer/GUI/data_handler.py:127-131 | the boundary rings give back the parts iff no part has holes; otherwise there are more rings than parts |
| Config.MultiPolygonRoundTrip | code-emission-explorer/GUI/data_handler.py:93-139 | a multipolygon survives decompose-then-recompose iff none of its parts has holes |
| Config.EmptyMultiPolygon | code-emission-explorer/GUI/data_handler.py:101 | an empty multipolygon decomposes to an empty list, which recomposition rejects with an `IndexError` |
| Config.ConfigFile.constructor | code-emission-explorer/GUI/data_handler.py:26-35 | a configuration object has no `countryname` until names are resolved |
| Config.ConfigFile.MultipleCountrySearch | code-emission-explorer/GUI/data_handler.py:60-64 | the loop returns `MultipleSearch` |
| Config.ConfigFile.RecomposeFromCountryNames | code-emission-explorer/GUI/data_handler.py:67-91 | returns `RecomposeNames`. For a list, `countryname` is the list on success and the empty list after a failure; for a string, it is the one-entry list |
| Config.ConfigFile.RecomposeFromCoordinates | code-emission-explorer/GUI/data_handler.py:93-115 | returns `RecomposeCoords` |
| Config.ConfigFile.UnpackRings | code-emission-explorer/GUI/data_handler.py:110-111 | the loop returns `ZipRings` |
| Config.ConfigFile.DecomposeForConfig | code-emission-explorer/GUI/data_handler.py:117-139 | the loop returns `Decompose` |

## Left out

- The database connection (`__init__`, `__del__`, `query`) and the SQL text. The store is a map of tables, and `ST_Contains` against the polygon is the `inside` predicate.
- The older bounding-box `extract_data` of `GfasActivityReader` (lines 73-89). It is not a core operation, and no core operation calls it.
- Shapely and PostGIS geometry:
  - `unary_union` in `multiple_country_search`: the parts are kept as a list of geometries;
  - ring closing and validity checks by `Polygon` and `LinearRing`, and empty geometries: the boundary of an empty `Polygon` is an empty `MultiLineString`, so `decompose_polygon_for_config` gives `[]`, while `Config.Decompose` gives the empty x and y lists of an empty shell;
  - `polygon.bounds` and `box`: a box is its four edges.
- Tuple inputs to `recompose_polygon_from_coordinates`. Only the nested-list configuration form is modelled.
- `read_config`, the YAML file, the `Shapefile.py` download that builds the shape table, and `main()`. The shape table is a parameter.
- Rendering and plotting.
- Floating point. Coordinates and values are exact reals.
- Python `repr` drops trailing zeros in cell keys when the resolution has two or more decimal digits; the key text here always has exactly that many fraction digits. For the 0.1 grid the core uses, both print one digit.
- Dates are those `datetime` represents: years 1 to 9999 of the proleptic Gregorian calendar, without time of day or time zone. The fetched frames index their rows by pandas `Timestamp`, which covers only 1677-09-21 to 2262-04-11; stored dates outside that range are not modelled.
- Calendar.ParseDate: digits are the ASCII digits `0`-`9`. Python's `\d` in `strptime` also matches other Unicode decimal digits, which the model refuses.
- Calendar.ParseFormatDate: stated only for four-digit years, because the printed form of an earlier year depends on the platform's `strftime`.
- The sample standard deviation is the parameter `std`, because its square root is not modelled.
- Rows with equal dates keep storage order under `ORDER BY datetime`. PostgreSQL does not promise any tie order.
- `median` in the SQL of `sql_conversion`: stock PostgreSQL has no aggregate of that name, so the query assumes a database extension that provides one. The model treats it as the median of the group.
- The aggregate column of `extract_data2` is named after the function in lower case, as PostgreSQL names an unaliased aggregate.
- `create_dataset_query` merging a gridded or raw frame with a reference: only two date-indexed series are merged, and anything else is `UnsupportedMode`. For the four plot types `create_plot_type` accepts, the source only reaches this with series, because the reference branch is skipped for `2D Plot`; any other plot type containing `2D` would hand the merge a grid, and the model answers that with `UnsupportedMode`.
- Query.Gridded2D: the `NotAggregated` and empty-raw branches cannot be reached from `extract_data`, which always aggregates. They are modelled as the Python errors they would raise.
- `recompose_polygon_from_countriesnames` returns `None` for an input that is neither a list nor a string. Only the two modelled input forms exist here.
- `decompose_polygon_for_config` for a list-valued configuration geometry: the input is either a name or one shapely geometry.
