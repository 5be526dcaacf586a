# Polars: IPC list decoding and the parquet reader front doors, in Dafny

This project models three pieces of polars:

- **Decoding and skipping a variable-size list array in an Arrow IPC record batch.** This is `read_list` and `skip_list` in the polars-arrow IPC reader. A record batch carries a queue of field nodes, in pre-order of the schema tree, and a queue of buffers. The list decoder works like this:
  - It takes its node, its validity buffer and its offsets buffer from the queues.
  - If the offsets read fails, it falls back to the single offset `[0]`, a leniency kept for older producers.
  - It decodes the child, limited to the last offset.
  - It builds the checked `ListArray`.

  The skipper pops the same node and buffers without decoding them.
- **The parquet reader front doors in polars-io.** This is the synchronous `ParquetReader` and the asynchronous `ParquetAsyncReader`:
  - their defaults and builder setters;
  - the memoised `get_metadata` and `schema`;
  - the schema reconciliation and projection of `with_arrow_schema_projection`;
  - the row count and the file-path column of `finish`.
- **The lazy parquet scan in polars-lazy.** This is `ScanArgsParquet` and its defaults, the `LazyParquetReader` setters and getters, and the hive-partitioning inference in `finish`, which `scan_parquet` and `scan_parquet_files` reach.

Everything is modelled with immutable datatypes and pure functions:

- A `&mut self` call returns the outcome together with the updated reader. The `Step` datatype does this. The reader is returned even on failure, as Rust leaves the partially updated `self` behind.
- File and network reads become recorded values. A `FileSource` or an `ObjectStore` holds the outcome of parsing the footer and counts how often it was parsed. This makes "the footer is read at most once" something the model can state.
- Code outside these files becomes a parameter or a small concrete stand-in. The parameters are row-group decoding, path expansion, glob detection and the query-plan builder. The stand-ins are the IPC buffer readers, `ListArray::try_new`, `ensure_matching_dtypes_if_found`, `projected_arrow_schema_to_projection_indices`, `columns_to_projection`, polars-core's `with_column_unchecked` and the object store's memoising `get_metadata`. Each stand-in's contract is the assumption the modelled code relies on. They are listed under "Left out".

Files:

| file | module | models |
|---|---|---|
| `errors.dfy` | `Errors` | `PolarsError` kinds, `Option` and `Result` with early return |
| `ipc_list.dfy` | `IpcList` | `read_list` and `skip_list`, with the leaf case of the generic `read` and `skip` |
| `parquet_schema.dfy` | `ParquetSchema` | Arrow schemas, name lookup, the dtype check, projection resolution, reconciliation |
| `parquet_options.dfy` | `ParquetOptions` | the settings the two parquet readers share, and their setters |
| `parquet_reader.dfy` | `ParquetRead` | `ParquetReader` |
| `parquet_async_reader.dfy` | `ParquetAsync` | `ParquetAsyncReader` |
| `scan_parquet.dfy` | `ScanParquet` | `ScanArgsParquet`, `LazyParquetReader`, `scan_parquet`, `scan_parquet_files` |

### What the model shows about the offsets fallback

For the child layouts modelled here (lists and two-buffer leaves), a successful decode of a type tree consumes exactly two buffers per level (`IpcList.Read`, via `Consumes` and `BufferCount`). So for these layouts the `[0]` fallback never rescues a batch whose offsets buffer is absent. The child's own buffers are then missing, and the decode fails (`IpcList.MissingOffsetsBufferFails`). This does not carry over to every Arrow type. A child of the Null layout takes a field node and no buffers, so a `List<Null>` without an offsets buffer gets `[0]` and can decode. The fallback helps only when an offsets buffer is present but too short for `1 + length` entries, which includes the zero-length buffer of a writer that "does not report an offset", as the code comment puts it. In that case the list decodes as an empty list, provided the node reports no nulls or the capped length is 0 (`IpcList.ShortOffsetsFallback`). When the node reports nulls and the length is positive, the validity bitmap has one bit per element while `[0]` describes no elements. The checked constructor then refuses the list, so the decode fails despite the fallback (`IpcList.ShortOffsetsWithNullsFails`).

Conversely, every well-formed encoding decodes, to an array of the capped declared length (`IpcList.ValidEncodingDecodes`). A well-formed encoding has a node and two buffers per level, a long enough bitmap when nulls are reported, enough leaf values, and a complete, non-decreasing offsets buffer whose last offset the child's node covers.

## Model

| member | source | states |
|---|---|---|
| IpcList.TryGetFieldNode | crates/polars-arrow/src/io/ipc/read/array/list.rs:35 | fails exactly when the node queue is empty, with the corruption error naming the type; otherwise it yields the front node and drops just that node |
| IpcList.Cap | crates/polars-arrow/src/io/ipc/read/array/list.rs:48 | the array length never exceeds the declared length or the limit, and equals the smaller of the two |
| IpcList.ReadValidity | crates/polars-arrow/src/io/ipc/read/array/list.rs:37-46 | always takes one buffer; yields a bitmap of exactly the capped length when the node reports nulls, and no bitmap otherwise |
| IpcList.ReadOffsetsOrDefault | crates/polars-arrow/src/io/ipc/read/array/list.rs:50-60 | never fails: the first `1 + length` entries of the offsets buffer when it holds that many, otherwise `[0]`; consumes the buffer if one is queued |
| IpcList.TryNewList | crates/polars-arrow/src/io/ipc/read/array/list.rs:81 | the checked constructor succeeds exactly when the offsets are non-empty, non-decreasing and within the child, the validity length matches and the child type matches; it then keeps the parts unchanged and the result is well formed |
| IpcList.ReadListHeader | crates/polars-arrow/src/io/ipc/read/array/list.rs:35-60 | succeeds exactly when a node and a validity buffer are queued and, if the node reports nulls, the bitmap covers the capped length; takes the front node, then the validity buffer, then the offsets buffer; the offsets are read from the second buffer or fall back to `[0]` |
| IpcList.Read | crates/polars-arrow/src/io/ipc/read/array/list.rs:66-80 | a successful decode has the requested type, is well formed, consumes exactly its subtree's nodes and buffers in pre-order, and never exceeds the capped length |
| IpcList.ReadList | crates/polars-arrow/src/io/ipc/read/array/list.rs:17-82 | a successful list decode is a well-formed list of the requested type; its child has exactly last-offset elements; its offsets are `[0]` or `1 + length` entries; it consumes exactly its own nodes and buffers |
| IpcList.ReadPrimitive | crates/polars-arrow/src/io/ipc/read/array/list.rs:66-80 | leaf child: succeeds exactly when a node and two buffers are queued, the bitmap (when nulls are reported) and the values buffer each cover the capped length; one node and two buffers consumed; the values are the first capped-length slots of the values buffer |
| IpcList.SkipList | crates/polars-arrow/src/io/ipc/read/array/list.rs:84-106 | succeeds exactly when the queues hold every node and buffer of the type tree and drops just those; the missing-node, missing-validity and missing-offsets errors each occur on their own condition |
| IpcList.Skip | crates/polars-arrow/src/io/ipc/read/array/list.rs:103-105 | skipping any type tree succeeds exactly when enough nodes and buffers are queued, and consumes exactly its subtree |
| IpcList.SkipMatchesRead | crates/polars-arrow/src/io/ipc/read/array/list.rs:84-106 | skipping leaves the queues exactly where a successful decode leaves them |
| IpcList.ReadListIsPreOrder | crates/polars-arrow/src/io/ipc/read/array/list.rs:62-80 | the child was decoded from the queues left after the list's node and two buffers, with the last offset as its limit |
| IpcList.ChildErrorPropagates | crates/polars-arrow/src/io/ipc/read/array/list.rs:66-80 | an error decoding the child is the list's error |
| IpcList.ConstructorErrorPropagates | crates/polars-arrow/src/io/ipc/read/array/list.rs:81 | an error of the checked constructor is the list's error |
| IpcList.ReadListShape | crates/polars-arrow/src/io/ipc/read/array/list.rs:48-81 | with a complete offsets buffer: `1 + L` offsets from that buffer, length `L`, child length `offsets[L]`, and a validity bitmap of length `L` exactly when the node reports nulls |
| IpcList.ShortOffsetsFallback | crates/polars-arrow/src/io/ipc/read/array/list.rs:59-62 | when the node reports no nulls (or L = 0), an offsets buffer too short for `1 + L` entries yields an empty list with offsets `[0]` and an empty child, instead of an error |
| IpcList.ShortOffsetsWithNullsFails | crates/polars-arrow/src/io/ipc/read/array/list.rs:37-81 | when the node reports nulls and L > 0, a missing or too-short offsets buffer makes the decode fail: the `[0]` fallback does not match the L-bit validity |
| IpcList.ValidEncodingDecodes | crates/polars-arrow/src/io/ipc/read/array/list.rs:35-81 | every well-formed encoding of a type tree decodes, to an array of exactly the capped declared length |
| IpcList.MissingOffsetsBufferFails | crates/polars-arrow/src/io/ipc/read/array/list.rs:50-60 | with no offsets buffer queued, decoding fails despite the fallback |
| IpcList.ReadRespectsLimit | crates/polars-arrow/src/io/ipc/read/array/list.rs:28 | a decode never returns more elements than its limit |
| ParquetSchema.IndexOf | crates/polars-io/src/parquet/read/reader.rs:105 | finds a column exactly when the schema has that name, and at its first occurrence |
| ParquetSchema.Get | crates/polars-io/src/parquet/read/reader.rs:105 | yields a field of the schema with that name exactly when the name is present |
| ParquetSchema.EnsureMatchingDtypesIfFound | crates/polars-io/src/parquet/read/reader.rs:95-100 | succeeds exactly when every reference column the file also has has the same dtype there; otherwise fails with a schema mismatch |
| ParquetSchema.Reconcile | crates/polars-io/src/parquet/read/reader.rs:101-108 | the reconciled schema has the reference names in reference order; each field is the file's when the file has the name, the reference field otherwise |
| ParquetSchema.ReconcileIsUnique | crates/polars-io/src/parquet/read/reader.rs:101-108 | any schema built by that per-column rule is the reconciled schema |
| ParquetSchema.ReconcileOfPresentColumns | crates/polars-io/src/parquet/read/reader.rs:104-106 | when the file has every reference column, the reconciled schema is the file's fields picked in reference order |
| ParquetSchema.ResolveIndices | crates/polars-io/src/parquet/read/reader.rs:114-118 | succeeds exactly when every projected column is in the schema with the same dtype, and then points each projected column at its schema position |
| ParquetSchema.ProjectionIndices | crates/polars-io/src/parquet/read/reader.rs:114-128 | succeeds exactly when every projected column is found with its dtype; then there is no projection exactly when the projection is full and ordered, each column found first at its own position; otherwise one index per projected column, each naming that column |
| ParquetSchema.FullOrderedProjectionIsNone | crates/polars-io/src/parquet/read/reader.rs:114-128 | a full ordered projection names the schema's columns in order, and with matching dtypes it resolves to no projection |
| ParquetSchema.ColumnsToProjection | crates/polars-io/src/parquet/read/reader.rs:261-263 | succeeds exactly when every named column exists; then one index per name, each pointing at that name |
| ParquetSchema.ResolveProjection | crates/polars-io/src/parquet/read/reader.rs:113-131 | resolves the projected schema when given; without one, a file wider than the reference schema is refused with the extra-columns error |
| ParquetSchema.WithMissingColumnsHint | crates/polars-io/src/parquet/read/reader.rs:132-144 | a column-not-found error gets the `allow_missing_columns` hint exactly when that option is off; every other outcome passes through |
| ParquetSchema.StoredSchema | crates/polars-io/src/parquet/read/reader.rs:95-109 | with missing columns not allowed the file schema is kept; with them allowed a dtype clash fails with a schema mismatch, and otherwise the reconciled schema is stored |
| ParquetSchema.ReconcileAndProject | crates/polars-io/src/parquet/read/reader.rs:92-146 | a failed dtype check is the error; a too-wide file without a projected schema fails with the extra-columns error; on success the schema is the stored one, the projection resolves against it, and without a projected schema the file is no wider than the reference; whenever the stored schema is fine and the extra-columns case does not apply, the outcome is the hinted result of resolving the projection against the stored schema, paired with that schema |
| ParquetSchema.ColumnNotFoundCarriesHint | crates/polars-io/src/parquet/read/reader.rs:132-140 | with missing columns not allowed, a column-not-found error of the projection step starts with the `allow_missing_columns` hint |
| ParquetOptions.DefaultOptions | crates/polars-io/src/parquet/read/reader.rs:232-249 | a new reader does not rechunk, reads every row, uses statistics, has the default parallel strategy, and has no projection, schema, row index, predicate, hive columns or file-path column |
| ParquetOptions.WithSlice | crates/polars-io/src/parquet/read/reader.rs:60-63 | sets the slice, or every row from the start when none is given; nothing else changes |
| ParquetOptions.WithProjection | crates/polars-io/src/parquet/read/reader.rs:73-76 | sets the projection; nothing else changes |
| ParquetOptions.WithRowIndex | crates/polars-io/src/parquet/read/reader.rs:79-82 | sets the row index; nothing else changes |
| ParquetOptions.ReadParallel | crates/polars-io/src/parquet/read/reader.rs:55-58 | sets the parallel strategy; nothing else changes |
| ParquetOptions.UseStatistics | crates/polars-io/src/parquet/read/reader.rs:164-167 | sets the statistics toggle; nothing else changes |
| ParquetOptions.WithHivePartitionColumns | crates/polars-io/src/parquet/read/reader.rs:175-178 | sets the hive columns; nothing else changes |
| ParquetOptions.WithIncludeFilePath | crates/polars-io/src/parquet/read/reader.rs:180-186 | sets the file-path column; nothing else changes |
| ParquetOptions.WithPredicate | crates/polars-io/src/parquet/read/reader.rs:199-202 | sets the predicate; nothing else changes |
| ParquetOptions.SetRechunk | crates/polars-io/src/parquet/read/reader.rs:251-254 | sets the rechunk flag; nothing else changes |
| ParquetRead.New | crates/polars-io/src/parquet/read/reader.rs:232-249 | a new reader has the default settings, no columns, low memory off and no metadata |
| ParquetRead.SetLowMemory | crates/polars-io/src/parquet/read/reader.rs:49-52 | sets low memory; restoring it gives back the original reader |
| ParquetRead.WithColumns | crates/polars-io/src/parquet/read/reader.rs:66-69 | sets the columns; restoring them gives back the original reader |
| ParquetRead.SetMetadata | crates/polars-io/src/parquet/read/reader.rs:188-190 | stores the metadata; restoring it gives back the original reader |
| ParquetRead.GetMetadata | crates/polars-io/src/parquet/read/reader.rs:192-197 | stored metadata is returned without reading; otherwise the footer is read once, and stored when the read succeeds; the settings are untouched |
| ParquetRead.NumRows | crates/polars-io/src/parquet/read/reader.rs:170-173 | succeeds exactly when metadata is stored or the footer parses, and returns its row count |
| ParquetRead.ReaderSchema | crates/polars-io/src/parquet/read/reader.rs:150-160 | a stored schema is returned unchanged; otherwise the outcome is the metadata's error or the schema inferred from the stored or footer metadata, which is then stored; only the schema setting changes, and at most one footer read happens |
| ParquetRead.SchemaIsIdempotent | crates/polars-io/src/parquet/read/reader.rs:150-160 | after a successful schema call, a second call returns the same and changes nothing |
| ParquetRead.MetadataIsReadAtMostOnce | crates/polars-io/src/parquet/read/reader.rs:192-197 | after a successful metadata call, a second call reads nothing and changes nothing |
| ParquetRead.SchemaThenMetadataReadsFooterOnce | crates/polars-io/src/parquet/read/reader.rs:257-258 | the schema call followed by the metadata call, as `finish` makes them, parses the footer at most once |
| ParquetRead.WithArrowSchemaProjection | crates/polars-io/src/parquet/read/reader.rs:86-147 | fails with the schema call's error, or else agrees with `ReconcileAndProject` on the file schema (same success, same error, same stored schema and projection); only the schema and projection settings change |
| ParquetRead.NRowsAsWritten | crates/polars-io/src/parquet/read/reader.rs:259 | the row count as written is the file's row count or the end of the slice, whichever is smaller |
| ParquetRead.NRowsAsWrittenCountsSkippedRows | crates/polars-io/src/parquet/read/reader.rs:259 | the count as written exceeds the rows the slice selects by the slice offset (capped by the file) |
| ParquetRead.NRowsAsWrittenOvercounts | crates/polars-io/src/parquet/read/reader.rs:259 | for a 10-row file and slice (3, 4), the count as written is 7 while the slice selects rows 3 to 6 |
| ParquetRead.NRowsAgreeWithoutOffset | crates/polars-io/src/parquet/read/reader.rs:259 | with slice offset 0 the count as written is correct |
| ParquetRead.SliceRowCount | crates/polars-io/src/parquet/read/reader.rs:259 | the corrected count is the number of file rows the slice selects, never more than the slice length |
| ParquetRead.RowsInSliceCount | crates/polars-io/src/parquet/read/reader.rs:259 | the rows a slice selects from a range form the overlap of the range and the slice |
| ParquetRead.Prepare | crates/polars-io/src/parquet/read/reader.rs:256-276 | succeeds exactly when the schema, the metadata and the named columns are all available; otherwise fails with the schema error, then the metadata error, then the column lookup error; on success the decode request carries the reader's schema and metadata, its slice, and its predicate, parallel strategy, row index, statistics flag and hive partition columns unchanged; the row count is the footer's row count capped by the end of the slice, as written; named columns become a projection pointing at those names, and an unknown name fails with column-not-found |
| ParquetRead.Complete | crates/polars-io/src/parquet/read/reader.rs:265-295 | a decode error propagates; the file-path column is appended with the frame's height, or with the row count when the frame has no columns; equal-height columns stay equal-height |
| ParquetRead.Finish | crates/polars-io/src/parquet/read/reader.rs:256-296 | preparation errors propagate, then decode errors; without a file-path column the decoded frame is returned; otherwise the decoded columns are kept and a constant file-path column is appended, which for a column-less frame has `min(num_rows, slice.0 + slice.1)` rows |
| ParquetRead.FinishOvercountsColumnLessFrame | crates/polars-io/src/parquet/read/reader.rs:259-290 | a 10-row file read with slice (3, 4) into a column-less frame gets a 7-row file-path column, while the slice selects 4 rows |
| ParquetRead.FinishCorrected | crates/polars-io/src/parquet/read/reader.rs:256-296 | the corrected `finish` fails exactly when `finish` does, and agrees with it whenever the decoded frame has a column or the slice starts at row 0 |
| ParquetRead.FinishFilePathColumnLength | crates/polars-io/src/parquet/read/reader.rs:282-292 | with the corrected count, a column-less decoded frame's file-path column has exactly as many rows as the slice selects from the file |
| ParquetAsync.FromUri | crates/polars-io/src/parquet/read/reader.rs:318-336 | fails with the store's error; otherwise a reader with the default settings over that store |
| ParquetAsync.GetMetadata | crates/polars-io/src/parquet/read/reader.rs:507-509 | stored metadata is returned without fetching; otherwise one fetch, stored on success |
| ParquetAsync.ReaderSchema | crates/polars-io/src/parquet/read/reader.rs:401-412 | a stored schema is returned unchanged; otherwise the outcome is the metadata's error or the schema inferred from the kept or fetched metadata, which is then stored; only the schema setting changes, and at most one fetch happens |
| ParquetAsync.SchemaIsIdempotent | crates/polars-io/src/parquet/read/reader.rs:401-412 | after a successful schema call, a second call returns the same, changes nothing and fetches nothing |
| ParquetAsync.WithArrowSchemaProjection | crates/polars-io/src/parquet/read/reader.rs:338-399 | fails with the schema call's error, or else agrees with `ReconcileAndProject` on the file schema; only the schema and projection settings change |
| ParquetAsync.ProjectionMatchesSync | crates/polars-io/src/parquet/read/reader.rs:338-399 | given the same file schema, the async and sync versions succeed together, fail with the same error, and store the same schema and projection |
| ScanParquet.DefaultArgs | crates/polars-lazy/src/scan/parquet.rs:26-41 | no row limit, row index or cloud options; statistics on, rechunk off, low memory off, cache on, glob on; hive partitioning left to be inferred |
| ScanParquet.New | crates/polars-lazy/src/scan/parquet.rs:50-55 | a new lazy reader keeps its arguments and has no paths |
| ScanParquet.WithPaths | crates/polars-lazy/src/scan/parquet.rs:106-113 | the paths getter returns the paths set; the arguments are unchanged |
| ScanParquet.WithNRows | crates/polars-lazy/src/scan/parquet.rs:115-118 | the row-limit getter returns the value set; restoring the old value gives back the original reader |
| ScanParquet.WithRowIndex | crates/polars-lazy/src/scan/parquet.rs:120-123 | the row-index getter returns the value set; restoring the old value gives back the original reader |
| ScanParquet.WithRechunk | crates/polars-lazy/src/scan/parquet.rs:125-132 | the rechunk getter returns the value set; restoring the old value gives back the original reader |
| ScanParquet.GettersKeepArguments | crates/polars-lazy/src/scan/parquet.rs:98-144 | after any of the setters, the `paths`, `n_rows`, `row_index` and `rechunk` getters return what was set, while `cloud_options` and `glob` return the arguments the reader was built with; by default there are no cloud options and globbing is on |
| ScanParquet.PlanFor | crates/polars-lazy/src/scan/parquet.rs:61-70 | the plan gets the expanded paths and the hive start index; hive partitioning is always decided; an explicit setting is kept; an unset one is on exactly when one non-glob path expanded to files starting with some other path; nothing else in the arguments changes |
| ScanParquet.Finish | crates/polars-lazy/src/scan/parquet.rs:60-96 | expansion errors propagate; after a successful expansion the outcome is the built plan or the builder's error; the plan gets the expanded paths and the expansion's hive start index; hive partitioning is always decided; an explicit setting is kept; an unset one is on exactly when one non-glob path expanded to files starting with some other path; nothing else in the arguments changes |
| ScanParquet.ScanParquetPath | crates/polars-lazy/src/scan/parquet.rs:149-153 | a scan of one path: it succeeds when the expansion and the builder do; inferred hive partitioning is on exactly when the path is not a glob and its expansion starts with another path |
| ScanParquet.ScanParquetFiles | crates/polars-lazy/src/scan/parquet.rs:155-158 | a scan of a path list: it succeeds when the expansion and the builder do; inferred hive partitioning stays off unless exactly one path was given; an explicit setting is kept |
| ScanParquet.GlobNeverInfersHive | crates/polars-lazy/src/scan/parquet.rs:64-69 | a glob pattern never turns inferred hive partitioning on |
| ScanParquet.ScanPathIsSingletonFiles | crates/polars-lazy/src/scan/parquet.rs:149-158 | scanning one path gives the same outcome as scanning the list holding just that path |

## Left out

- `IpcList.TryGetFieldNode`, `IpcList.ReadValidity`, `IpcList.ReadBuffer`, `IpcList.DecodeBits`, `IpcList.TryNewList`: the helpers `try_get_field_node`, `read_validity`, `read_buffer`, `try_get_array_length` and `ListArray::try_new` are defined in other files. The model gives them concrete stand-ins:
  - `read_validity` always pops one buffer;
  - `read_buffer` pops its buffer even when the read fails;
  - `try_get_array_length` is the declared length capped by the limit;
  - `try_new` checks offsets, validity length and child type.

  A node's length and null count are `i64` in the format but `nat` here. A negative length, which `try_get_array_length` and `read_validity` refuse as out of spec, is not modelled. Offsets are `nat` too, so the refusal of negative offsets by the offsets check on list.rs line 81 is not modelled either.
- Byte-level decoding is not modelled: endianness, block compression, scratch space, the 32/64-bit offset width `O` and its `try_into` conversion. A buffer is modelled as the numbers it decodes to.
- The dictionary, variadic-buffer, IPC field and version arguments of `read_list` are not modelled. They matter only to other array kinds.
- The generic `read` and `skip` are modelled for two type kinds only: lists and a primitive-like leaf with one validity buffer and one values buffer. The other layouts are not part of this model:
  - the Null layout, which takes a field node and no buffers;
  - the three-buffer variable-size binary and UTF-8 layouts;
  - structs, dictionaries, views and fixed-size lists.

  Statements about buffer counts hold for the modelled layouts only.
- `IpcList.SkipPrimitive` is a stand-in for the leaf case of the generic `skip` (`skip_primitive`), which is defined in another file. It assumes the leaf pops one node and two buffers. It also assumes the missing-node, missing-validity and missing-values out-of-spec errors, with their message texts.
- Parquet footer parsing, schema inference from metadata and the row-group decode (`read_parquet`) are not modelled. They are the recorded footer outcome and a function parameter of `ParquetRead.Finish`.
- `ParquetRead.Finish` does not model rechunking (`as_single_chunk_par`). It changes memory layout, not contents.
- `ParquetRead.NRowsAsWritten`: requires that `slice.0 + slice.1` fits in a `usize`. The source adds two `usize` values and would overflow otherwise. A slice set through `with_slice(None)` is `(0, usize::MAX)` and stays within that bound.
- `ParquetRead.Prepare`, `ParquetRead.Finish` and `ParquetRead.FinishCorrected` carry the same requirement on the slice, because they compute that sum. A slice whose end overflows a `usize` is not modelled.
- Not modelled, because they are streaming and I/O machinery: `batched`, `BatchedParquetReader`, `compute_row_group_range`, `materialize_empty_df`, the async reader's `finish` and `num_rows`, and the async `with_slice`/setters beyond the shared ones in `ParquetOptions`.
- Cloud options are opaque. `ScanParquet.Finish` takes path expansion, glob detection (`get_glob_start_idx`) and the plan builder (`DslBuilder::scan_parquet`) as parameters.
- `ScanParquet.Finish` carries the row index in the plan's arguments rather than as a separate `with_row_index` node on the lazy frame. It also leaves out the `file_caching` flag of the optimizer state.
- Only the `enabled` and `hive_start_idx` fields of `HiveOptions` are modelled.
- `ScanParquet.DefaultArgs`: assumes that `HiveOptions::default()` leaves `enabled` unset, which defers to inference. `HiveOptions` is defined in another file and is not part of this model. If its default is `Some(true)`, the `hive_options` clause of the contract does not hold.
- `ParquetSchema.EnsureMatchingDtypesIfFound` is a stand-in for a helper defined in another file. It assumes the helper fails with `SchemaMismatch`, and only when a column present in both schemas has different dtypes. Its message text is assumed.
- `ParquetSchema.ProjectionIndices` is a stand-in for `projected_arrow_schema_to_projection_indices`, defined in another file. It assumes:
  - a column missing from the file fails with `ColumnNotFound`;
  - a dtype clash fails with `SchemaMismatch`;
  - names are looked up at their first occurrence;
  - a full, ordered projection yields no projection.

  The message texts are assumed too.
- `ParquetSchema.ColumnsToProjection` is a stand-in for `columns_to_projection`, defined in another file. It assumes an unknown name fails with `ColumnNotFound` and that names are looked up at their first occurrence.
- `ParquetRead.WithColumnUnchecked` is a stand-in for polars-core's `DataFrame::with_column_unchecked`, which is not part of this model. It is assumed to append the column, and to take the frame's height from that column when the frame had none.
- `ParquetAsync.GetMetadata` assumes the memoising `ParquetObjectStore::get_metadata`: the metadata is fetched at most once and kept on success. reader.rs only delegates to it, and the object store is not part of this model.
- `finish_no_glob` is not modelled. It is unreachable in the source.
- Paths are strings. The `to_str().unwrap()` of a non-UTF-8 path, which panics, is not modelled.
- `ScanParquet.InferHive` compares the first expanded path with the given path as strings. The source compares `PathBuf`s component by component, so it treats `"dir/"` and `"dir"`, or `"a//b"` and `"a/b"`, as equal. For such spellings the model turns hive partitioning on where the source leaves it off. Path normalisation is not modelled.

## Findings

| source | as written | input that shows it | evidently intended | confidence | as-written member | corrected member |
|---|---|---|---|---|---|---|
| crates/polars-io/src/parquet/read/reader.rs:259 | `n_rows` is the file's row count capped by `slice.0 + slice.1`, the end of the slice. It sizes the file-path column of a frame with no columns (line 290). | A 10-row file with slice `(3, 4)` and a file-path column but no other columns. The slice selects 4 rows, but the column gets 7. | The number of rows the slice selects: `min(num_rows - offset, length)`, or 0 past the end. | medium, not executed | ParquetRead.FinishOvercountsColumnLessFrame | ParquetRead.FinishFilePathColumnLength |
