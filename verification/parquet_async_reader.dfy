/**
 * The asynchronous parquet reader front door over an object store. Its
 * setters are the shared ones of `ParquetOptions`; its schema and metadata
 * are memoised like the synchronous reader's, the metadata inside the object
 * store; its `with_arrow_schema_projection` repeats the synchronous one, and
 * the two are proved to agree.
 */
module ParquetAsync {
  import opened Errors
  import opened ParquetSchema
  import opened ParquetOptions
  import ParquetRead

  /** The remote file: the outcome of fetching its footer, how many fetches
      were made, and the metadata the store keeps once fetched. */
  datatype ObjectStore = ObjectStore(remote: Result<FileMetadata>, fetches: nat, metadata: Option<FileMetadata>)

  datatype ParquetAsyncReader = ParquetAsyncReader(store: ObjectStore, opts: ReaderOptions)

  datatype AsyncStep<T> = AsyncStep(out: Result<T>, reader: ParquetAsyncReader)

  /** `from_uri`, given the outcome of opening the object store. */
  function FromUri(store: Result<ObjectStore>): (r: Result<ParquetAsyncReader>)
    ensures store.Err? ==> r == Err(store.error)
    ensures store.Ok? ==> r.Ok? && r.value.store == store.value && r.value.opts == DefaultOptions()
  {
    var s :- store;
    Ok(ParquetAsyncReader(s, DefaultOptions()))
  }

  /** `get_metadata` of the object store: fetched at most once. */
  function GetMetadata(a: ParquetAsyncReader): (s: AsyncStep<FileMetadata>)
    ensures a.store.metadata.Some? ==> s == AsyncStep(Ok(a.store.metadata.value), a)
    ensures a.store.metadata.None? ==> s.out == a.store.remote
    ensures a.store.metadata.None? ==> s.reader.store.fetches == a.store.fetches + 1
    ensures s.out.Ok? ==> s.reader.store.metadata == Some(s.out.value)
    ensures s.reader.opts == a.opts && s.reader.store.remote == a.store.remote
  {
    match a.store.metadata
    case Some(m) => AsyncStep(Ok(m), a)
    case None =>
      var store := a.store.(fetches := a.store.fetches + 1);
      match a.store.remote
      case Ok(m) => AsyncStep(Ok(m), a.(store := store.(metadata := Some(m))))
      case Err(e) => AsyncStep(Err(e), a.(store := store))
  }

  /** The metadata the store has kept or would fetch. */
  function KnownMetadata(a: ParquetAsyncReader): Result<FileMetadata> {
    if a.store.metadata.Some? then Ok(a.store.metadata.value) else a.store.remote
  }

  /** `schema`: the stored schema, or the one inferred from the metadata,
      which is then stored. Only the schema setting can change. */
  function ReaderSchema(a: ParquetAsyncReader): (s: AsyncStep<Schema>)
    ensures a.opts.schema.Some? ==> s == AsyncStep(Ok(a.opts.schema.value), a)
    ensures a.opts.schema.None? ==>
      s.out == (match KnownMetadata(a) case Ok(m) => m.inferredSchema case Err(e) => Err(e))
    ensures s.out.Ok? ==> s.reader.opts.schema == Some(s.out.value)
    ensures AgreeOutside(a.opts, s.reader.opts, {SchemaSetting})
    ensures s.reader.store.remote == a.store.remote
    ensures s.reader.store.fetches <= a.store.fetches + 1
  {
    match a.opts.schema
    case Some(schema) => AsyncStep(Ok(schema), a)
    case None =>
      var m := GetMetadata(a);
      match m.out
      case Err(e) => AsyncStep(Err(e), m.reader)
      case Ok(md) =>
        match md.inferredSchema
        case Err(e) => AsyncStep(Err(e), m.reader)
        case Ok(schema) => AsyncStep(Ok(schema), m.reader.(opts := m.reader.opts.(schema := Some(schema))))
  }

  /** Once `schema()` has succeeded, calling it again returns the same schema
      and leaves the reader as it is: nothing more is fetched. */
  lemma SchemaIsIdempotent(a: ParquetAsyncReader)
    requires ReaderSchema(a).out.Ok?
    ensures ReaderSchema(ReaderSchema(a).reader) == ReaderSchema(a)
    ensures ReaderSchema(ReaderSchema(a).reader).reader.store.fetches == ReaderSchema(a).reader.store.fetches
  {
  }

  /** The asynchronous `with_arrow_schema_projection`. */
  function WithArrowSchemaProjection(
    a: ParquetAsyncReader, firstSchema: Schema, projected: Option<Schema>, allowMissingColumns: bool)
    : (res: Result<ParquetAsyncReader>)
    ensures ReaderSchema(a).out.Err? ==> res == Err(ReaderSchema(a).out.error)
    ensures ReaderSchema(a).out.Ok? ==>
      var o := ReconcileAndProject(ReaderSchema(a).out.value, firstSchema, projected, allowMissingColumns);
      && (res.Ok? <==> o.Ok?)
      && (res.Err? ==> res.error == o.error)
      && (res.Ok? ==> res.value.opts.schema == Some(o.value.0) && res.value.opts.projection == o.value.1)
    ensures res.Ok? ==> AgreeOutside(a.opts, res.value.opts, {SchemaSetting, ProjectionSetting})
  {
    var s1 := ReaderSchema(a);
    var fileSchema :- s1.out;
    var fileWidth := |fileSchema|;
    var a2 :-
      if allowMissingColumns then
        // the schema is stored by now, so this second call cannot fail
        var s2 := ReaderSchema(s1.reader);
        var again := s2.out.value;
        var dtypes := EnsureMatchingDtypesIfFound(projected.UnwrapOr(firstSchema), again);
        if dtypes.Err? then Err(dtypes.error)
        else Ok(s2.reader.(opts := s2.reader.opts.(schema := Some(Reconcile(firstSchema, fileSchema)))))
      else Ok(s1.reader);
    // stored either way, so this call cannot fail either
    var s3 := ReaderSchema(a2);
    var schema := s3.out.value;
    var projection :- WithMissingColumnsHint(ResolveProjection(schema, fileWidth, firstSchema, projected), allowMissingColumns);
    Ok(s3.reader.(opts := s3.reader.opts.(projection := projection)))
  }

  /** For readers that see the same file schema, the asynchronous and the
      synchronous `with_arrow_schema_projection` succeed together, fail with
      the same error, and otherwise store the same schema and projection. */
  lemma ProjectionMatchesSync(
    r: ParquetRead.ParquetReader, a: ParquetAsyncReader,
    firstSchema: Schema, projected: Option<Schema>, allowMissingColumns: bool)
    requires ParquetRead.ReaderSchema(r).out == ReaderSchema(a).out
    ensures var s := ParquetRead.WithArrowSchemaProjection(r, firstSchema, projected, allowMissingColumns);
            var t := WithArrowSchemaProjection(a, firstSchema, projected, allowMissingColumns);
            && (s.Ok? <==> t.Ok?)
            && (s.Err? ==> s.error == t.error)
            && (s.Ok? ==> s.value.opts.schema == t.value.opts.schema && s.value.opts.projection == t.value.opts.projection)
  {
  }
}
