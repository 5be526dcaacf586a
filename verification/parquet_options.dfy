/**
 * The configuration both parquet readers (the synchronous reader over a
 * seekable source and the asynchronous reader over an object store) carry,
 * with the builder setters they share, and the parsed file metadata.
 */
module ParquetOptions {
  import opened Errors
  import opened ParquetSchema

  const USIZE_MAX: nat := 0xFFFF_FFFF_FFFF_FFFF

  datatype ParallelStrategy = NoParallel | Columns | RowGroups | Prefiltered | Auto

  /** A row-index column: its name and the index of the first row. */
  datatype RowIndex = RowIndex(name: string, offset: nat)

  /** A pushed-down predicate; evaluated elsewhere, carried opaquely here. */
  datatype ScanPredicate = ScanPredicate(expr: string)

  /** A hive-partition column: constant values derived from the file path. */
  datatype Series = Series(name: string, len: nat)

  /** Parsed parquet footer: the row count and the outcome of inferring an
      Arrow schema from it. */
  datatype FileMetadata = FileMetadata(numRows: nat, inferredSchema: Result<Schema>)

  datatype ReaderOptions = ReaderOptions(
    rechunk: bool,
    slice: (nat, nat),
    projection: Option<seq<nat>>,
    parallel: ParallelStrategy,
    schema: Option<Schema>,
    rowIndex: Option<RowIndex>,
    scanPredicate: Option<ScanPredicate>,
    hivePartitionColumns: Option<seq<Series>>,
    includeFilePath: Option<(string, string)>,
    useStatistics: bool)

  /** Names for the settings, so that "only this setting changed" can be said once. */
  datatype Setting =
    | RechunkSetting | SliceSetting | ProjectionSetting | ParallelSetting | SchemaSetting
    | RowIndexSetting | PredicateSetting | HiveSetting | FilePathSetting | StatisticsSetting

  /** `a` and `b` agree on every setting outside `changed`. */
  predicate AgreeOutside(a: ReaderOptions, b: ReaderOptions, changed: set<Setting>) {
    && (RechunkSetting !in changed ==> a.rechunk == b.rechunk)
    && (SliceSetting !in changed ==> a.slice == b.slice)
    && (ProjectionSetting !in changed ==> a.projection == b.projection)
    && (ParallelSetting !in changed ==> a.parallel == b.parallel)
    && (SchemaSetting !in changed ==> a.schema == b.schema)
    && (RowIndexSetting !in changed ==> a.rowIndex == b.rowIndex)
    && (PredicateSetting !in changed ==> a.scanPredicate == b.scanPredicate)
    && (HiveSetting !in changed ==> a.hivePartitionColumns == b.hivePartitionColumns)
    && (FilePathSetting !in changed ==> a.includeFilePath == b.includeFilePath)
    && (StatisticsSetting !in changed ==> a.useStatistics == b.useStatistics)
  }

  /** The settings of a freshly constructed reader. */
  function DefaultOptions(): (o: ReaderOptions)
    ensures !o.rechunk && o.slice == (0, USIZE_MAX) && o.useStatistics && o.parallel == Auto
    ensures o.projection.None? && o.schema.None? && o.rowIndex.None? && o.scanPredicate.None?
    ensures o.hivePartitionColumns.None? && o.includeFilePath.None?
  {
    ReaderOptions(false, (0, USIZE_MAX), None, Auto, None, None, None, None, None, true)
  }

  /** `with_slice`: no slice means every row from the start. */
  function WithSlice(o: ReaderOptions, slice: Option<(nat, nat)>): (r: ReaderOptions)
    ensures slice.Some? ==> r.slice == slice.value
    ensures slice.None? ==> r.slice == (0, USIZE_MAX)
    ensures AgreeOutside(o, r, {SliceSetting})
  {
    o.(slice := slice.UnwrapOr((0, USIZE_MAX)))
  }

  function WithProjection(o: ReaderOptions, projection: Option<seq<nat>>): (r: ReaderOptions)
    ensures r.projection == projection && AgreeOutside(o, r, {ProjectionSetting})
  {
    o.(projection := projection)
  }

  function WithRowIndex(o: ReaderOptions, rowIndex: Option<RowIndex>): (r: ReaderOptions)
    ensures r.rowIndex == rowIndex && AgreeOutside(o, r, {RowIndexSetting})
  {
    o.(rowIndex := rowIndex)
  }

  function ReadParallel(o: ReaderOptions, parallel: ParallelStrategy): (r: ReaderOptions)
    ensures r.parallel == parallel && AgreeOutside(o, r, {ParallelSetting})
  {
    o.(parallel := parallel)
  }

  function UseStatistics(o: ReaderOptions, toggle: bool): (r: ReaderOptions)
    ensures r.useStatistics == toggle && AgreeOutside(o, r, {StatisticsSetting})
  {
    o.(useStatistics := toggle)
  }

  function WithHivePartitionColumns(o: ReaderOptions, columns: Option<seq<Series>>): (r: ReaderOptions)
    ensures r.hivePartitionColumns == columns && AgreeOutside(o, r, {HiveSetting})
  {
    o.(hivePartitionColumns := columns)
  }

  function WithIncludeFilePath(o: ReaderOptions, includeFilePath: Option<(string, string)>): (r: ReaderOptions)
    ensures r.includeFilePath == includeFilePath && AgreeOutside(o, r, {FilePathSetting})
  {
    o.(includeFilePath := includeFilePath)
  }

  function WithPredicate(o: ReaderOptions, scanPredicate: Option<ScanPredicate>): (r: ReaderOptions)
    ensures r.scanPredicate == scanPredicate && AgreeOutside(o, r, {PredicateSetting})
  {
    o.(scanPredicate := scanPredicate)
  }

  function SetRechunk(o: ReaderOptions, rechunk: bool): (r: ReaderOptions)
    ensures r.rechunk == rechunk && AgreeOutside(o, r, {RechunkSetting})
  {
    o.(rechunk := rechunk)
  }
}
