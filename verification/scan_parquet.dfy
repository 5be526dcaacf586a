/**
 * The lazy parquet scan: the scan arguments and their defaults, the lazy
 * reader's builder setters and getters, and `finish`, which expands the
 * paths and decides whether hive partitioning is on before handing
 * everything to the query-plan builder.
 *
 * Path expansion, glob detection and the plan builder are not part of this
 * model; `Finish` takes them as parameters.
 */
module ScanParquet {
  import opened Errors
  import opened ParquetOptions

  /** Cloud credentials and settings, carried unchanged to the plan. */
  datatype CloudOptions = CloudOptions(config: string)

  /** The hive-partitioning settings `finish` reads and fills in: whether
      hive partitioning is on (unset means "infer it"), and where the hive
      part of the expanded paths starts. */
  datatype HiveOptions = HiveOptions(enabled: Option<bool>, hiveStartIdx: nat)

  datatype ScanArgsParquet = ScanArgsParquet(
    nRows: Option<nat>,
    parallel: ParallelStrategy,
    rowIndex: Option<RowIndex>,
    cloudOptions: Option<CloudOptions>,
    hiveOptions: HiveOptions,
    useStatistics: bool,
    lowMemory: bool,
    rechunk: bool,
    cache: bool,
    glob: bool)

  /** The lazy reader: its arguments and the paths it was given. */
  datatype LazyParquetReader = LazyParquetReader(args: ScanArgsParquet, paths: seq<string>)

  /** What `finish` hands to the plan builder: the expanded paths and the
      arguments with the hive settings filled in. The row index travels in
      the arguments and is applied on top of the built scan. */
  datatype ScanPlan = ScanPlan(paths: seq<string>, args: ScanArgsParquet)

  /** The default scan arguments; hive partitioning is left to be inferred. */
  function DefaultArgs(): (a: ScanArgsParquet)
    ensures a.nRows.None? && a.rowIndex.None? && a.cloudOptions.None?
    ensures a.useStatistics && !a.rechunk && !a.lowMemory && a.cache && a.glob
    ensures a.parallel == Auto
    ensures a.hiveOptions.enabled.None?
  {
    ScanArgsParquet(None, Auto, None, None, HiveOptions(None, 0), true, false, false, true, true)
  }

  /** A new lazy reader has the given arguments and no paths yet. */
  function New(args: ScanArgsParquet): (r: LazyParquetReader)
    ensures r.args == args && Paths(r) == []
  {
    LazyParquetReader(args, [])
  }

  function Paths(r: LazyParquetReader): seq<string> { r.paths }
  function NRows(r: LazyParquetReader): Option<nat> { r.args.nRows }
  function GetRowIndex(r: LazyParquetReader): Option<RowIndex> { r.args.rowIndex }
  function Rechunk(r: LazyParquetReader): bool { r.args.rechunk }
  function GetCloudOptions(r: LazyParquetReader): Option<CloudOptions> { r.args.cloudOptions }
  function Glob(r: LazyParquetReader): bool { r.args.glob }

  /** `with_paths`: the getter returns the new paths; the arguments are kept. */
  function WithPaths(r: LazyParquetReader, paths: seq<string>): (s: LazyParquetReader)
    ensures Paths(s) == paths && s.args == r.args
  {
    r.(paths := paths)
  }

  /** `with_n_rows`: putting the old value back gives the original reader. */
  function WithNRows(r: LazyParquetReader, nRows: Option<nat>): (s: LazyParquetReader)
    ensures NRows(s) == nRows
    ensures s.(args := s.args.(nRows := r.args.nRows)) == r
  {
    r.(args := r.args.(nRows := nRows))
  }

  function WithRowIndex(r: LazyParquetReader, rowIndex: Option<RowIndex>): (s: LazyParquetReader)
    ensures GetRowIndex(s) == rowIndex
    ensures s.(args := s.args.(rowIndex := r.args.rowIndex)) == r
  {
    r.(args := r.args.(rowIndex := rowIndex))
  }

  function WithRechunk(r: LazyParquetReader, toggle: bool): (s: LazyParquetReader)
    ensures Rechunk(s) == toggle
    ensures s.(args := s.args.(rechunk := r.args.rechunk)) == r
  {
    r.(args := r.args.(rechunk := toggle))
  }

  /** Whether `finish` turns hive partitioning on when it was left unset:
      exactly one path was given, it is not a glob pattern, and expanding it
      yielded files of which the first is not the path itself (so the path
      named a directory). */
  predicate InferHive(paths: seq<string>, globStart: string -> Option<nat>, expanded: seq<string>) {
    |paths| == 1 && globStart(paths[0]).None? && |expanded| > 0 && expanded[0] != paths[0]
  }

  /** The plan `finish` hands to the builder once the paths are expanded to
      `e` (the paths and the hive start index): the expanded paths, and the
      arguments with hive partitioning decided and the start index set. */
  function PlanFor(r: LazyParquetReader, e: (seq<string>, nat), globStart: string -> Option<nat>): (plan: ScanPlan)
    ensures plan.paths == e.0 && plan.args.hiveOptions.hiveStartIdx == e.1
    ensures plan.args.hiveOptions.enabled.Some?
    ensures r.args.hiveOptions.enabled.Some? ==> plan.args.hiveOptions.enabled == r.args.hiveOptions.enabled
    ensures r.args.hiveOptions.enabled.None? ==>
      (plan.args.hiveOptions.enabled.value <==> InferHive(r.paths, globStart, e.0))
    ensures plan.args.(hiveOptions := r.args.hiveOptions) == r.args
  {
    var enabled := r.args.hiveOptions.enabled.UnwrapOr(InferHive(r.paths, globStart, e.0));
    ScanPlan(e.0, r.args.(hiveOptions := HiveOptions(Some(enabled), e.1)))
  }

  /** `finish`. `expand(reader, checkDirectoryLevel)` stands for the path
      expansion (the expanded paths and the index where the hive part of them
      starts), `globStart` for finding the first glob character of a path,
      and `build` for the plan builder's own checks. */
  function Finish(
    r: LazyParquetReader,
    expand: (LazyParquetReader, bool) -> Result<(seq<string>, nat)>,
    globStart: string -> Option<nat>,
    build: ScanPlan -> Result<()>)
    : (res: Result<ScanPlan>)
    ensures expand(r, r.args.hiveOptions.enabled.UnwrapOr(false)).Err? ==>
      res == Err(expand(r, r.args.hiveOptions.enabled.UnwrapOr(false)).error)
    ensures res.Ok? ==>
      var e := expand(r, r.args.hiveOptions.enabled.UnwrapOr(false)).value;
      && res.value.paths == e.0
      && res.value.args.hiveOptions.hiveStartIdx == e.1
      && res.value.args.hiveOptions.enabled.Some?
      && (r.args.hiveOptions.enabled.Some? ==> res.value.args.hiveOptions == HiveOptions(r.args.hiveOptions.enabled, e.1))
      && (r.args.hiveOptions.enabled.None? ==>
            (res.value.args.hiveOptions.enabled.value <==> InferHive(r.paths, globStart, e.0)))
    ensures res.Ok? ==> res.value.args.(hiveOptions := r.args.hiveOptions) == r.args
    ensures res.Ok? ==> build(res.value).Ok?
    ensures var e := expand(r, r.args.hiveOptions.enabled.UnwrapOr(false));
      e.Ok? ==>
        var plan := PlanFor(r, e.value, globStart);
        && (build(plan).Ok? ==> res == Ok(plan))
        && (build(plan).Err? ==> res == Err(build(plan).error))
  {
    var e :- expand(r, r.args.hiveOptions.enabled.UnwrapOr(false));
    var plan := PlanFor(r, e, globStart);
    var _ :- build(plan);
    Ok(plan)
  }

  /** `LazyFrame::scan_parquet`: a scan of the one given path. Left to be
      inferred, hive partitioning is on exactly when the path is not a glob
      pattern and its expansion starts with some other path, that is when
      the path names a directory. */
  function ScanParquetPath(
    path: string, args: ScanArgsParquet,
    expand: (LazyParquetReader, bool) -> Result<(seq<string>, nat)>,
    globStart: string -> Option<nat>,
    build: ScanPlan -> Result<()>)
    : (res: Result<ScanPlan>)
    ensures var e := expand(LazyParquetReader(args, [path]), args.hiveOptions.enabled.UnwrapOr(false));
      && (e.Err? ==> res == Err(e.error))
      && (res.Ok? ==> res.value.paths == e.value.0 && res.value.args.hiveOptions.hiveStartIdx == e.value.1)
      && (res.Ok? && args.hiveOptions.enabled.None? ==>
            res.value.args.hiveOptions.enabled
            == Some(globStart(path).None? && |e.value.0| > 0 && e.value.0[0] != path))
    ensures var e := expand(LazyParquetReader(args, [path]), args.hiveOptions.enabled.UnwrapOr(false));
      e.Ok? && build(PlanFor(LazyParquetReader(args, [path]), e.value, globStart)).Ok? ==> res.Ok?
  {
    Finish(WithPaths(New(args), [path]), expand, globStart, build)
  }

  /** `LazyFrame::scan_parquet_files`: a scan of the given path list. Left to
      be inferred, hive partitioning stays off unless exactly one path was
      given. */
  function ScanParquetFiles(
    paths: seq<string>, args: ScanArgsParquet,
    expand: (LazyParquetReader, bool) -> Result<(seq<string>, nat)>,
    globStart: string -> Option<nat>,
    build: ScanPlan -> Result<()>)
    : (res: Result<ScanPlan>)
    ensures var e := expand(LazyParquetReader(args, paths), args.hiveOptions.enabled.UnwrapOr(false));
      && (e.Err? ==> res == Err(e.error))
      && (res.Ok? ==> res.value.paths == e.value.0 && res.value.args.hiveOptions.hiveStartIdx == e.value.1)
      && (res.Ok? && args.hiveOptions.enabled.None? && |paths| != 1 ==>
            res.value.args.hiveOptions.enabled == Some(false))
    ensures res.Ok? && args.hiveOptions.enabled.Some? ==> res.value.args.hiveOptions.enabled == args.hiveOptions.enabled
    ensures var e := expand(LazyParquetReader(args, paths), args.hiveOptions.enabled.UnwrapOr(false));
      e.Ok? && build(PlanFor(LazyParquetReader(args, paths), e.value, globStart)).Ok? ==> res.Ok?
  {
    Finish(WithPaths(New(args), paths), expand, globStart, build)
  }

  /** The getters see the arguments the reader was built with, whatever the
      other setters changed: `cloud_options` and `glob` are untouched by
      `with_paths`, `with_n_rows`, `with_row_index` and `with_rechunk`. */
  lemma GettersKeepArguments(
    args: ScanArgsParquet, paths: seq<string>, nRows: Option<nat>, rowIndex: Option<RowIndex>, toggle: bool)
    ensures var r := WithRechunk(WithRowIndex(WithNRows(WithPaths(New(args), paths), nRows), rowIndex), toggle);
      && GetCloudOptions(r) == args.cloudOptions && Glob(r) == args.glob
      && Paths(r) == paths && NRows(r) == nRows && GetRowIndex(r) == rowIndex && Rechunk(r) == toggle
    ensures Glob(New(DefaultArgs())) && GetCloudOptions(New(DefaultArgs())).None?
  {
  }

  /** A glob pattern never turns inferred hive partitioning on, whatever it
      expands to. */
  lemma GlobNeverInfersHive(
    r: LazyParquetReader,
    expand: (LazyParquetReader, bool) -> Result<(seq<string>, nat)>,
    globStart: string -> Option<nat>,
    build: ScanPlan -> Result<()>)
    requires r.args.hiveOptions.enabled.None? && |r.paths| > 0 && globStart(r.paths[0]).Some?
    ensures var res := Finish(r, expand, globStart, build);
      res.Ok? ==> res.value.args.hiveOptions.enabled == Some(false)
  {
  }

  /** Scanning one path is scanning the one-element path list. */
  lemma ScanPathIsSingletonFiles(
    path: string, args: ScanArgsParquet,
    expand: (LazyParquetReader, bool) -> Result<(seq<string>, nat)>,
    globStart: string -> Option<nat>,
    build: ScanPlan -> Result<()>)
    ensures ScanParquetPath(path, args, expand, globStart, build) == ScanParquetFiles([path], args, expand, globStart, build)
  {
    assert WithPaths(New(args), [path]) == LazyParquetReader(args, [path]);
  }
}
