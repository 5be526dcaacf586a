/**
 * The synchronous parquet reader front door: construction defaults, the
 * reader-only setters, the memoised metadata and schema, the schema
 * reconciliation and projection of `with_arrow_schema_projection`, and the
 * row count and file-path column of `finish`.
 *
 * The file itself is a `FileSource`: the outcome of parsing its footer and a
 * count of how often that was done. The decode of the row groups
 * (`read_parquet`) is a function parameter of `Finish`.
 */
module ParquetRead {
  import opened Errors
  import opened ParquetSchema
  import opened ParquetOptions

  datatype FileSource = FileSource(footer: Result<FileMetadata>, footerReads: nat)

  datatype ParquetReader = ParquetReader(
    source: FileSource,
    opts: ReaderOptions,
    columns: Option<seq<string>>,
    lowMemory: bool,
    metadata: Option<FileMetadata>)

  /** The result of a `&mut self` call: the outcome, and the reader as the
      call left it (also when the call failed). */
  datatype Step<T> = Step(out: Result<T>, reader: ParquetReader)

  /** A column of the output frame; `constant` is set for scalar columns. */
  datatype Column = Column(name: string, constant: Option<string>, length: nat)

  /** A decoded frame with an explicit height. */
  datatype DataFrame = DataFrame(height: nat, columns: seq<Column>)

  /** What `read_parquet` receives from `finish`. */
  datatype ReadRequest = ReadRequest(
    slice: (nat, nat),
    projection: Option<seq<nat>>,
    schema: Schema,
    metadata: FileMetadata,
    scanPredicate: Option<ScanPredicate>,
    parallel: ParallelStrategy,
    rowIndex: Option<RowIndex>,
    useStatistics: bool,
    hivePartitionColumns: Option<seq<Series>>)

  /** Everything `finish` settles before the decode. */
  datatype Prepared = Prepared(request: ReadRequest, nRows: nat, includeFilePath: Option<(string, string)>)

  // ---------------------------------------------------------------------------
  // Construction and reader-only setters
  // ---------------------------------------------------------------------------

  /** `ParquetReader::new`. */
  function New(source: FileSource): (r: ParquetReader)
    ensures r.source == source && r.opts == DefaultOptions()
    ensures r.columns.None? && !r.lowMemory && r.metadata.None?
  {
    ParquetReader(source, DefaultOptions(), None, false, None)
  }

  function SetLowMemory(r: ParquetReader, lowMemory: bool): (s: ParquetReader)
    ensures s.lowMemory == lowMemory && s.(lowMemory := r.lowMemory) == r
  {
    r.(lowMemory := lowMemory)
  }

  function WithColumns(r: ParquetReader, columns: Option<seq<string>>): (s: ParquetReader)
    ensures s.columns == columns && s.(columns := r.columns) == r
  {
    r.(columns := columns)
  }

  function SetMetadata(r: ParquetReader, metadata: FileMetadata): (s: ParquetReader)
    ensures s.metadata == Some(metadata) && s.(metadata := r.metadata) == r
  {
    r.(metadata := Some(metadata))
  }

  // ---------------------------------------------------------------------------
  // Memoised metadata and schema
  // ---------------------------------------------------------------------------

  /** `read_metadata`: parses the footer, one more read of the source. */
  function ReadFooter(source: FileSource): (r: (Result<FileMetadata>, FileSource))
    ensures r.0 == source.footer && r.1.footer == source.footer
    ensures r.1.footerReads == source.footerReads + 1
  {
    (source.footer, source.(footerReads := source.footerReads + 1))
  }

  /** `get_metadata`: the stored metadata, or the footer read once and
      stored when that read succeeds. */
  function GetMetadata(r: ParquetReader): (s: Step<FileMetadata>)
    ensures r.metadata.Some? ==> s == Step(Ok(r.metadata.value), r)
    ensures r.metadata.None? ==> s.out == r.source.footer
    ensures r.metadata.None? ==> s.reader.source.footerReads == r.source.footerReads + 1
    ensures s.out.Ok? ==> s.reader.metadata == Some(s.out.value)
    ensures s.reader.opts == r.opts && s.reader.columns == r.columns && s.reader.lowMemory == r.lowMemory
    ensures s.reader.source.footer == r.source.footer
  {
    match r.metadata
    case Some(m) => Step(Ok(m), r)
    case None =>
      var (footer, source) := ReadFooter(r.source);
      match footer
      case Ok(m) => Step(Ok(m), r.(source := source, metadata := Some(m)))
      case Err(e) => Step(Err(e), r.(source := source))
  }

  /** `num_rows`: the row count of the (memoised) metadata. */
  function NumRows(r: ParquetReader): (s: Step<nat>)
    ensures s.out.Ok? <==> r.metadata.Some? || r.source.footer.Ok?
    ensures s.out.Ok? ==> s.out.value == (if r.metadata.Some? then r.metadata.value else r.source.footer.value).numRows
  {
    var m := GetMetadata(r);
    match m.out
    case Ok(md) => Step(Ok(md.numRows), m.reader)
    case Err(e) => Step(Err(e), m.reader)
  }

  /** The metadata the reader has or would read. */
  function KnownMetadata(r: ParquetReader): Result<FileMetadata> {
    if r.metadata.Some? then Ok(r.metadata.value) else r.source.footer
  }

  /** `schema`: the stored schema, or the one inferred from the metadata,
      which is then stored. Only the schema setting can change. */
  function ReaderSchema(r: ParquetReader): (s: Step<Schema>)
    ensures r.opts.schema.Some? ==> s == Step(Ok(r.opts.schema.value), r)
    ensures r.opts.schema.None? ==>
      s.out == (match KnownMetadata(r) case Ok(m) => m.inferredSchema case Err(e) => Err(e))
    ensures s.out.Ok? ==> s.reader.opts.schema == Some(s.out.value)
    ensures r.opts.schema.None? && s.out.Ok? ==>
      s.reader.metadata.Some? && s.out == s.reader.metadata.value.inferredSchema
    ensures AgreeOutside(r.opts, s.reader.opts, {SchemaSetting})
    ensures s.reader.columns == r.columns && s.reader.lowMemory == r.lowMemory
    ensures s.reader.source.footer == r.source.footer
    ensures s.reader.source.footerReads <= r.source.footerReads + 1
    ensures r.metadata.Some? ==> s.reader.source == r.source && s.reader.metadata == r.metadata
  {
    match r.opts.schema
    case Some(schema) => Step(Ok(schema), r)
    case None =>
      var m := GetMetadata(r);
      match m.out
      case Err(e) => Step(Err(e), m.reader)
      case Ok(md) =>
        match md.inferredSchema
        case Err(e) => Step(Err(e), m.reader)
        case Ok(schema) => Step(Ok(schema), m.reader.(opts := m.reader.opts.(schema := Some(schema))))
  }

  /** Once `schema()` has succeeded, calling it again returns the same schema
      and leaves the reader as it is: the metadata is not consulted again. */
  lemma SchemaIsIdempotent(r: ParquetReader)
    requires ReaderSchema(r).out.Ok?
    ensures ReaderSchema(ReaderSchema(r).reader) == ReaderSchema(r)
  {
  }

  /** The footer is parsed at most once, however often the metadata is
      asked for after a successful read. */
  lemma MetadataIsReadAtMostOnce(r: ParquetReader)
    requires GetMetadata(r).out.Ok?
    ensures GetMetadata(GetMetadata(r).reader) == GetMetadata(r)
    ensures GetMetadata(r).reader.source.footerReads <= r.source.footerReads + 1
  {
  }

  /** Asking for the schema and then for the metadata, as `finish` does,
      parses the footer at most once. */
  lemma SchemaThenMetadataReadsFooterOnce(r: ParquetReader)
    requires ReaderSchema(r).out.Ok?
    ensures GetMetadata(ReaderSchema(r).reader).reader.source.footerReads <= r.source.footerReads + 1
  {
  }

  // ---------------------------------------------------------------------------
  // Schema reconciliation and projection
  // ---------------------------------------------------------------------------

  /** `with_arrow_schema_projection`. With missing columns allowed, the dtypes
      of the columns the file shares with the reference (or projected) schema
      are checked and the stored schema becomes the reconciliation of the
      reference schema against the file's. The projection is then resolved
      against the stored schema; a column-not-found error gets the
      `allow_missing_columns` hint when that option is off. */
  function WithArrowSchemaProjection(
    r: ParquetReader, firstSchema: Schema, projected: Option<Schema>, allowMissingColumns: bool)
    : (res: Result<ParquetReader>)
    ensures ReaderSchema(r).out.Err? ==> res == Err(ReaderSchema(r).out.error)
    ensures ReaderSchema(r).out.Ok? ==>
      var o := ReconcileAndProject(ReaderSchema(r).out.value, firstSchema, projected, allowMissingColumns);
      && (res.Ok? <==> o.Ok?)
      && (res.Err? ==> res.error == o.error)
      && (res.Ok? ==> res.value.opts.schema == Some(o.value.0) && res.value.opts.projection == o.value.1)
    ensures res.Ok? ==> AgreeOutside(r.opts, res.value.opts, {SchemaSetting, ProjectionSetting})
    ensures res.Ok? ==> res.value.columns == r.columns && res.value.lowMemory == r.lowMemory
  {
    var s1 := ReaderSchema(r);
    var fileSchema :- s1.out;
    var fileWidth := |fileSchema|;
    var r2 :-
      if allowMissingColumns then
        // the schema is stored by now, so this second call cannot fail
        var s2 := ReaderSchema(s1.reader);
        var again := s2.out.value;
        var dtypes := EnsureMatchingDtypesIfFound(projected.UnwrapOr(firstSchema), again);
        if dtypes.Err? then Err(dtypes.error)
        else Ok(s2.reader.(opts := s2.reader.opts.(schema := Some(Reconcile(firstSchema, fileSchema)))))
      else Ok(s1.reader);
    // stored either way, so this call cannot fail either
    var s3 := ReaderSchema(r2);
    var schema := s3.out.value;
    var projection :- WithMissingColumnsHint(ResolveProjection(schema, fileWidth, firstSchema, projected), allowMissingColumns);
    Ok(s3.reader.(opts := s3.reader.opts.(projection := projection)))
  }

  // ---------------------------------------------------------------------------
  // finish
  // ---------------------------------------------------------------------------

  function Min(a: nat, b: nat): nat {
    if a <= b then a else b
  }

  /** The row count `finish` computes, as written: the footer's row count
      capped by the end of the slice. */
  function NRowsAsWritten(numRows: nat, slice: (nat, nat)): (n: nat)
    requires slice.0 + slice.1 <= USIZE_MAX
    ensures n <= numRows && n <= slice.0 + slice.1
    ensures n == numRows || n == slice.0 + slice.1
  {
    Min(numRows, slice.0 + slice.1)
  }

  /** The number of rows of a file of `numRows` rows that fall inside the
      slice `(offset, length)`. */
  function SliceRowCount(numRows: nat, slice: (nat, nat)): (n: nat)
    ensures n <= slice.1 && n + Min(numRows, slice.0) <= numRows
    ensures n == |RowsInSlice(0, numRows, slice)|
  {
    RowsInSliceCount(0, numRows, slice);
    if slice.0 >= numRows then 0 else Min(numRows - slice.0, slice.1)
  }

  /** The row numbers in `[from, numRows)` that the slice selects, in order. */
  function RowsInSlice(from: nat, numRows: nat, slice: (nat, nat)): seq<nat>
    decreases numRows - from
  {
    if from >= numRows then []
    else (if slice.0 <= from < slice.0 + slice.1 then [from] else []) + RowsInSlice(from + 1, numRows, slice)
  }

  lemma {:induction false} RowsInSliceCount(from: nat, numRows: nat, slice: (nat, nat))
    decreases numRows - from
    ensures |RowsInSlice(from, numRows, slice)| ==
      var lo := if from <= slice.0 then slice.0 else from;
      var hi := Min(numRows, slice.0 + slice.1);
      if lo <= hi then hi - lo else 0
  {
    if from < numRows {
      RowsInSliceCount(from + 1, numRows, slice);
    }
  }

  /** The row count as written exceeds the rows the slice selects by the
      slice offset (capped by the file): it counts the skipped rows too. */
  lemma NRowsAsWrittenCountsSkippedRows(numRows: nat, slice: (nat, nat))
    requires slice.0 + slice.1 <= USIZE_MAX
    ensures NRowsAsWritten(numRows, slice) == SliceRowCount(numRows, slice) + Min(numRows, slice.0)
  {
  }

  /** A file of 10 rows read with slice `(3, 4)` yields 4 rows, but `finish`
      sizes a file-path column for a column-less frame at 7 rows. */
  lemma NRowsAsWrittenOvercounts()
    ensures NRowsAsWritten(10, (3, 4)) == 7
    ensures SliceRowCount(10, (3, 4)) == 4 && RowsInSlice(0, 10, (3, 4)) == [3, 4, 5, 6]
  {
  }

  /** Without an offset the two counts agree. */
  lemma NRowsAgreeWithoutOffset(numRows: nat, length: nat)
    requires length <= USIZE_MAX
    ensures NRowsAsWritten(numRows, (0, length)) == SliceRowCount(numRows, (0, length))
  {
  }

  /** The part of `finish` before the decode: schema, metadata, row count and
      the projection named by `with_columns`, in that order of failure. */
  function Prepare(r: ParquetReader): (p: Result<Prepared>)
    requires r.opts.slice.0 + r.opts.slice.1 <= USIZE_MAX
    ensures p.Ok? <==>
      && ReaderSchema(r).out.Ok? && KnownMetadata(r).Ok?
      && (r.columns.Some? ==> ColumnsToProjection(r.columns.value, ReaderSchema(r).out.value).Ok?)
    ensures ReaderSchema(r).out.Err? ==> p == Err(ReaderSchema(r).out.error)
    ensures ReaderSchema(r).out.Ok? && KnownMetadata(r).Err? ==> p == Err(KnownMetadata(r).error)
    ensures ReaderSchema(r).out.Ok? && KnownMetadata(r).Ok? && r.columns.Some?
            && ColumnsToProjection(r.columns.value, ReaderSchema(r).out.value).Err? ==>
      p == Err(ColumnsToProjection(r.columns.value, ReaderSchema(r).out.value).error)
    ensures p.Ok? ==> ReaderSchema(r).out.Ok? && KnownMetadata(r).Ok?
    ensures p.Ok? ==> p.value.request.schema == ReaderSchema(r).out.value
    ensures p.Ok? ==> p.value.request.metadata == KnownMetadata(r).value
    ensures p.Ok? ==> p.value.nRows == NRowsAsWritten(KnownMetadata(r).value.numRows, r.opts.slice)
    ensures p.Ok? && r.columns.None? ==> p.value.request.projection == r.opts.projection
    ensures p.Ok? && r.columns.Some? ==>
      var cols := r.columns.value;
      var proj := p.value.request.projection;
      && proj.Some? && |proj.value| == |cols|
      && forall k :: 0 <= k < |cols| ==>
           proj.value[k] < |p.value.request.schema| && p.value.request.schema[proj.value[k]].name == cols[k]
    ensures ReaderSchema(r).out.Ok? && KnownMetadata(r).Ok? && r.columns.Some?
            && ColumnsToProjection(r.columns.value, ReaderSchema(r).out.value).Err? ==>
      p.Err? && p.error.ColumnNotFound?
    ensures p.Ok? ==> p.value.request.slice == r.opts.slice && p.value.includeFilePath == r.opts.includeFilePath
    ensures p.Ok? ==>
      && p.value.request.scanPredicate == r.opts.scanPredicate
      && p.value.request.parallel == r.opts.parallel
      && p.value.request.rowIndex == r.opts.rowIndex
      && p.value.request.useStatistics == r.opts.useStatistics
      && p.value.request.hivePartitionColumns == r.opts.hivePartitionColumns
  {
    var s1 := ReaderSchema(r);
    var schema :- s1.out;
    var s2 := GetMetadata(s1.reader);
    var metadata :- s2.out;
    var r2 := s2.reader;
    var nRows := NRowsAsWritten(metadata.numRows, r2.opts.slice);
    var projection :-
      match r2.columns
      case Some(cols) =>
        var idx :- ColumnsToProjection(cols, schema);
        Ok(Some(idx))
      case None => Ok(r2.opts.projection);
    var request := ReadRequest(r2.opts.slice, projection, schema, metadata, r2.opts.scanPredicate, r2.opts.parallel,
                               r2.opts.rowIndex, r2.opts.useStatistics, r2.opts.hivePartitionColumns);
    Ok(Prepared(request, nRows, r2.opts.includeFilePath))
  }

  /** Every column has the frame's height. */
  predicate Consistent(df: DataFrame) {
    forall c :: c in df.columns ==> c.length == df.height
  }

  /** `with_column_unchecked`: appends a column; the first column of a
      column-less frame sets its height. */
  function WithColumnUnchecked(df: DataFrame, c: Column): DataFrame {
    DataFrame(if |df.columns| == 0 then c.length else df.height, df.columns + [c])
  }

  /** The part of `finish` after the decode: a decode error propagates; the
      file-path column, if asked for, is appended with the frame's height,
      or with the row count when the frame has no columns. Rechunking only
      changes the memory layout and is not visible here. */
  function Complete(p: Prepared, decoded: Result<DataFrame>): (res: Result<DataFrame>)
    ensures decoded.Err? ==> res == decoded
    ensures decoded.Ok? && p.includeFilePath.None? ==> res == decoded
    ensures decoded.Ok? && p.includeFilePath.Some? ==>
      var df := decoded.value;
      var (col, value) := p.includeFilePath.value;
      && res.Ok?
      && res.value.columns == df.columns + [Column(col, Some(value), if |df.columns| > 0 then df.height else p.nRows)]
    ensures decoded.Ok? && Consistent(decoded.value) ==> res.Ok? && Consistent(res.value)
    ensures decoded.Ok? && |decoded.value.columns| == 0 && p.includeFilePath.Some? ==> res.value.height == p.nRows
  {
    var df :- decoded;
    match p.includeFilePath
    case None => Ok(df)
    case Some((col, value)) =>
      Ok(WithColumnUnchecked(df, Column(col, Some(value), if |df.columns| > 0 then df.height else p.nRows)))
  }

  /** `finish`: prepare, decode with `readParquet`, complete. A column-less
      frame's file-path column gets the row count as written. */
  function Finish(r: ParquetReader, readParquet: ReadRequest -> Result<DataFrame>): (res: Result<DataFrame>)
    requires r.opts.slice.0 + r.opts.slice.1 <= USIZE_MAX
    ensures Prepare(r).Err? ==> res == Err(Prepare(r).error)
    ensures Prepare(r).Ok? ==>
      var decoded := readParquet(Prepare(r).value.request);
      && (decoded.Err? ==> res == decoded)
      && (decoded.Ok? && r.opts.includeFilePath.None? ==> res == decoded)
      && (decoded.Ok? && r.opts.includeFilePath.Some? ==>
            && res.Ok? && |res.value.columns| == |decoded.value.columns| + 1
            && res.value.columns[..|decoded.value.columns|] == decoded.value.columns
            && res.value.columns[|decoded.value.columns|].name == r.opts.includeFilePath.value.0
            && res.value.columns[|decoded.value.columns|].constant == Some(r.opts.includeFilePath.value.1))
    ensures res.Ok? && Prepare(r).Ok? && Consistent(readParquet(Prepare(r).value.request).value) ==> Consistent(res.value)
    ensures Prepare(r).Ok? && r.opts.includeFilePath.Some? && res.Ok?
            && |readParquet(Prepare(r).value.request).value.columns| == 0 ==>
      |res.value.columns| == 1
      && res.value.columns[0].length == NRowsAsWritten(KnownMetadata(r).value.numRows, r.opts.slice)
  {
    var p :- Prepare(r);
    Complete(p, readParquet(p.request))
  }

  /** A 10-row file read with slice `(3, 4)` into a frame with no columns
      gets a 7-row file-path column, although the slice selects 4 rows. */
  lemma FinishOvercountsColumnLessFrame(path: string)
    ensures var r := ParquetReader(
              FileSource(Ok(FileMetadata(10, Ok([]))), 0),
              WithIncludeFilePath(WithSlice(DefaultOptions(), Some((3, 4))), Some(("file_path", path))),
              None, false, None);
            var res := Finish(r, _ => Ok(DataFrame(0, [])));
            && res.Ok? && |res.value.columns| == 1
            && res.value.columns[0].length == 7 && |RowsInSlice(0, 10, (3, 4))| == 4
  {
    NRowsAsWrittenOvercounts();
  }

  /** `finish` with the corrected row count: the file-path column of a
      column-less frame gets the number of rows the slice selects. Everything
      else is what `Finish` produces. */
  function FinishCorrected(r: ParquetReader, readParquet: ReadRequest -> Result<DataFrame>): (res: Result<DataFrame>)
    requires r.opts.slice.0 + r.opts.slice.1 <= USIZE_MAX
    ensures res.Ok? <==> Finish(r, readParquet).Ok?
    ensures res.Err? ==> res == Finish(r, readParquet)
    ensures Prepare(r).Ok? && readParquet(Prepare(r).value.request).Ok?
            && |readParquet(Prepare(r).value.request).value.columns| > 0 ==>
      res == Finish(r, readParquet)
    ensures r.opts.slice.0 == 0 ==> res == Finish(r, readParquet)
  {
    var p :- Prepare(r);
    Complete(p.(nRows := SliceRowCount(p.request.metadata.numRows, p.request.slice)), readParquet(p.request))
  }

  /** With the corrected count, a frame read with no columns and a
      file-path column gets exactly as many rows as the slice selects from
      the file. */
  lemma FinishFilePathColumnLength(r: ParquetReader, readParquet: ReadRequest -> Result<DataFrame>)
    requires r.opts.slice.0 + r.opts.slice.1 <= USIZE_MAX
    requires Prepare(r).Ok? && r.opts.includeFilePath.Some?
    requires var d := readParquet(Prepare(r).value.request); d.Ok? && |d.value.columns| == 0
    ensures var m := KnownMetadata(r).value;
            var res := FinishCorrected(r, readParquet);
            res.Ok? && |res.value.columns| == 1
            && res.value.columns[0].length == |RowsInSlice(0, m.numRows, r.opts.slice)|
  {
  }
}
