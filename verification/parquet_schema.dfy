/**
 * Arrow schemas as ordered name/field sequences, and the schema helpers the
 * parquet reader front door calls: name lookup, the dtype check for columns
 * found in the file, the projection resolution, and the reconciliation used
 * when missing columns are allowed.
 */
module ParquetSchema {
  import opened Errors

  /** An Arrow data type; only equality between types matters here. */
  datatype ArrowType = ArrowType(name: string)

  datatype Field = Field(name: string, dtype: ArrowType, nullable: bool)

  /** An Arrow schema: fields in column order, looked up by name. */
  type Schema = seq<Field>

  const MISSING_COLUMNS_HINT := "error with column selection, consider enabling `allow_missing_columns`: "
  const EXTRA_COLUMNS := "parquet file contained extra columns and no selection was given"

  predicate HasName(s: Schema, name: string) {
    exists j :: 0 <= j < |s| && s[j].name == name
  }

  /** Position of the first field called `name`. */
  function IndexOf(s: Schema, name: string): (r: Option<nat>)
    decreases |s|
    ensures r.Some? <==> HasName(s, name)
    ensures r.Some? ==> r.value < |s| && s[r.value].name == name
    ensures r.Some? ==> forall j :: 0 <= j < r.value ==> s[j].name != name
  {
    if |s| == 0 then None
    else if s[0].name == name then Some(0)
    else
      match IndexOf(s[1..], name)
      case None => None
      case Some(i) => Some(i + 1)
  }

  /** The field called `name`, if any (`ArrowSchema::get`). */
  function Get(s: Schema, name: string): (r: Option<Field>)
    ensures r.Some? <==> HasName(s, name)
    ensures r.Some? ==> r.value in s && r.value.name == name
  {
    match IndexOf(s, name)
    case None => None
    case Some(i) => Some(s[i])
  }

  /** `ensure_matching_dtypes_if_found`: every reference column that the file
      also has must have the same dtype there. */
  function EnsureMatchingDtypesIfFound(reference: Schema, file: Schema): (r: Result<()>)
    decreases |reference|
    ensures r.Ok? <==> DtypesAgree(reference, file)
    ensures r.Err? ==> r.error.SchemaMismatch?
  {
    if |reference| == 0 then Ok(())
    else if !DtypeAgrees(reference[0], file) then
      Err(SchemaMismatch("dtypes differ for column " + reference[0].name))
    else
      var rest := EnsureMatchingDtypesIfFound(reference[1..], file);
      assert forall i :: 1 <= i < |reference| ==> reference[i] == reference[1..][i - 1];
      rest
  }

  /** Every reference column is absent from the file or has the same dtype there. */
  predicate DtypesAgree(reference: Schema, file: Schema) {
    forall i :: 0 <= i < |reference| ==> DtypeAgrees(reference[i], file)
  }

  /** The field is absent from the file or has the same dtype there. */
  predicate DtypeAgrees(f: Field, file: Schema) {
    var found := Get(file, f.name);
    found.Some? ==> found.value.dtype == f.dtype
  }

  /** The schema a reader keeps when missing columns are allowed: the
      reference schema's names in its order, each taking the file's field
      when the file has that name. */
  function Reconcile(reference: Schema, file: Schema): (r: Schema)
    decreases |reference|
    ensures |r| == |reference|
    ensures forall i :: 0 <= i < |r| ==> r[i].name == reference[i].name
    ensures forall i :: 0 <= i < |r| && HasName(file, reference[i].name) ==> r[i] in file
    ensures forall i :: 0 <= i < |r| && !HasName(file, reference[i].name) ==> r[i] == reference[i]
  {
    if |reference| == 0 then []
    else
      [Get(file, reference[0].name).UnwrapOr(reference[0])] + Reconcile(reference[1..], file)
  }

  /** The positions in `schema` of the projected columns, in projected
      order, each checked for a matching dtype. */
  function ResolveIndices(schema: Schema, projected: Schema): (r: Result<seq<nat>>)
    decreases |projected|
    ensures r.Ok? ==> |r.value| == |projected|
    ensures r.Ok? ==> forall k :: 0 <= k < |projected| ==>
      r.value[k] < |schema| && schema[r.value[k]].name == projected[k].name
      && schema[r.value[k]].dtype == projected[k].dtype
    ensures r.Ok? <==> forall k :: 0 <= k < |projected| ==> Resolvable(schema, projected[k])
    ensures r.Ok? ==> forall k :: 0 <= k < |projected| ==> IndexOf(schema, projected[k].name) == Some(r.value[k])
    ensures r.Err? ==> r.error.ColumnNotFound? || r.error.SchemaMismatch?
    ensures r.Err? && r.error.ColumnNotFound? ==> exists k :: 0 <= k < |projected| && !HasName(schema, projected[k].name)
  {
    if |projected| == 0 then Ok([])
    else
      var f := projected[0];
      match IndexOf(schema, f.name)
      case None => Err(ColumnNotFound("did not find column in file: " + f.name))
      case Some(i) =>
        if schema[i].dtype != f.dtype then
          Err(SchemaMismatch("data type mismatch for column " + f.name))
        else
          var rest := ResolveIndices(schema, projected[1..]);
          assert forall k :: 1 <= k < |projected| ==> projected[k] == projected[1..][k - 1];
          if rest.Err? then rest else Ok([i] + rest.value)
  }

  /** The file has the column and with the projected dtype. */
  predicate Resolvable(schema: Schema, f: Field) {
    var i := IndexOf(schema, f.name);
    i.Some? && schema[i.value].dtype == f.dtype
  }

  predicate IsIdentity(idx: seq<nat>, n: nat) {
    |idx| == n && forall k :: 0 <= k < |idx| ==> idx[k] == k
  }

  /** `projected_arrow_schema_to_projection_indices`: no projection when the
      projected columns are exactly the file's columns in file order,
      otherwise their positions. */
  function ProjectionIndices(schema: Schema, projected: Schema): (r: Result<Option<seq<nat>>>)
    ensures r.Ok? <==> forall k :: 0 <= k < |projected| ==> Resolvable(schema, projected[k])
    ensures r.Ok? ==> (r.value.None? <==> FullOrdered(schema, projected))
    ensures r.Ok? && r.value.Some? ==> |r.value.value| == |projected|
    ensures r.Ok? && r.value.Some? ==> forall k :: 0 <= k < |projected| ==>
      r.value.value[k] < |schema| && schema[r.value.value[k]].name == projected[k].name
    ensures r.Err? ==> r.error.ColumnNotFound? || r.error.SchemaMismatch?
  {
    var idx :- ResolveIndices(schema, projected);
    if IsIdentity(idx, |schema|) then Ok(None) else Ok(Some(idx))
  }

  /** The projected columns are the schema's columns, each found first at its
      own position. */
  predicate FullOrdered(schema: Schema, projected: Schema) {
    |projected| == |schema| && forall k :: 0 <= k < |projected| ==> IndexOf(schema, projected[k].name) == Some(k)
  }

  /** A full, ordered projection means the columns are the schema's, in
      order; and when it resolves, no projection is produced. */
  lemma FullOrderedProjectionIsNone(schema: Schema, projected: Schema)
    requires FullOrdered(schema, projected)
    ensures forall k :: 0 <= k < |projected| ==> schema[k].name == projected[k].name
    ensures (forall k :: 0 <= k < |projected| ==> schema[k].dtype == projected[k].dtype) ==>
      ProjectionIndices(schema, projected) == Ok(None)
  {
    if forall k :: 0 <= k < |projected| ==> schema[k].dtype == projected[k].dtype {
      assert forall k :: 0 <= k < |projected| ==> Resolvable(schema, projected[k]);
    }
  }

  /** `columns_to_projection`: the position of each named column. */
  function ColumnsToProjection(columns: seq<string>, schema: Schema): (r: Result<seq<nat>>)
    decreases |columns|
    ensures r.Ok? <==> forall k :: 0 <= k < |columns| ==> HasName(schema, columns[k])
    ensures r.Ok? ==> |r.value| == |columns|
    ensures r.Ok? ==> forall k :: 0 <= k < |columns| ==>
      r.value[k] < |schema| && schema[r.value[k]].name == columns[k]
    ensures r.Err? ==> r.error.ColumnNotFound?
  {
    if |columns| == 0 then Ok([])
    else
      match IndexOf(schema, columns[0])
      case None => Err(ColumnNotFound("unable to find column " + columns[0]))
      case Some(i) =>
        var rest := ColumnsToProjection(columns[1..], schema);
        assert forall k :: 1 <= k < |columns| ==> columns[k] == columns[1..][k - 1];
        if rest.Err? then rest else Ok([i] + rest.value)
  }

  /** The projection step of `with_arrow_schema_projection`: resolve the
      projected schema if one was given; otherwise refuse a file wider than
      the reference schema, then resolve the reference schema. */
  function ResolveProjection(schema: Schema, fileWidth: nat, reference: Schema, projected: Option<Schema>)
    : (r: Result<Option<seq<nat>>>)
    ensures projected.Some? ==> r == ProjectionIndices(schema, projected.value)
    ensures projected.None? && fileWidth > |reference| ==> r == Err(SchemaMismatch(EXTRA_COLUMNS))
    ensures projected.None? && fileWidth <= |reference| ==> r == ProjectionIndices(schema, reference)
  {
    match projected
    case Some(p) => ProjectionIndices(schema, p)
    case None =>
      if fileWidth > |reference| then Err(SchemaMismatch(EXTRA_COLUMNS))
      else ProjectionIndices(schema, reference)
  }

  /** The error mapping of `with_arrow_schema_projection`: a column-not-found
      error gets the `allow_missing_columns` hint when that option is off;
      every other outcome passes through unchanged. */
  function WithMissingColumnsHint<T>(res: Result<T>, allowMissingColumns: bool): (r: Result<T>)
    ensures res.Ok? ==> r == res
    ensures res.Err? && !allowMissingColumns && res.error.ColumnNotFound? ==>
      r == Err(ColumnNotFound(MISSING_COLUMNS_HINT + res.error.msg))
    ensures !(res.Err? && !allowMissingColumns && res.error.ColumnNotFound?) ==> r == res
  {
    if res.Err? && !allowMissingColumns && res.error.ColumnNotFound? then
      Err(res.error.WrapMsg(s => MISSING_COLUMNS_HINT + s))
    else res
  }

  /** The schema `with_arrow_schema_projection` stores, as a function of the
      file schema: the file schema itself when missing columns are not
      allowed; otherwise, once the dtypes of the shared columns agree, the
      reconciliation of the reference schema against it. */
  function StoredSchema(file: Schema, reference: Schema, projected: Option<Schema>, allowMissingColumns: bool)
    : (r: Result<Schema>)
    ensures !allowMissingColumns ==> r == Ok(file)
    ensures allowMissingColumns && !DtypesAgree(projected.UnwrapOr(reference), file) ==>
      r.Err? && r.error.SchemaMismatch?
    ensures allowMissingColumns && DtypesAgree(projected.UnwrapOr(reference), file) ==>
      r == Ok(Reconcile(reference, file))
  {
    if !allowMissingColumns then Ok(file)
    else
      var dtypes := EnsureMatchingDtypesIfFound(projected.UnwrapOr(reference), file);
      if dtypes.Err? then Err(dtypes.error) else Ok(Reconcile(reference, file))
  }

  /** What `with_arrow_schema_projection` leaves behind, as a function of the
      file schema alone: the stored schema and the projection resolved
      against it, or the error. */
  function ReconcileAndProject(file: Schema, reference: Schema, projected: Option<Schema>, allowMissingColumns: bool)
    : (r: Result<(Schema, Option<seq<nat>>)>)
    ensures StoredSchema(file, reference, projected, allowMissingColumns).Err? ==>
      r == Err(StoredSchema(file, reference, projected, allowMissingColumns).error)
    ensures projected.None? && |file| > |reference| && StoredSchema(file, reference, projected, allowMissingColumns).Ok? ==>
      r == Err(SchemaMismatch(EXTRA_COLUMNS))
    ensures r.Ok? ==>
      && StoredSchema(file, reference, projected, allowMissingColumns) == Ok(r.value.0)
      && ProjectionIndices(r.value.0, projected.UnwrapOr(reference)) == Ok(r.value.1)
    ensures r.Ok? && projected.None? ==> |file| <= |reference|
    ensures var st := StoredSchema(file, reference, projected, allowMissingColumns);
      st.Ok? && (projected.Some? || |file| <= |reference|) ==>
        var p := WithMissingColumnsHint(ProjectionIndices(st.value, projected.UnwrapOr(reference)), allowMissingColumns);
        && (r.Ok? <==> p.Ok?)
        && (r.Err? ==> r.error == p.error)
        && (r.Ok? ==> r.value == (st.value, p.value))
  {
    var stored :- StoredSchema(file, reference, projected, allowMissingColumns);
    var projection :- WithMissingColumnsHint(ResolveProjection(stored, |file|, reference, projected), allowMissingColumns);
    Ok((stored, projection))
  }

  /** With missing columns not allowed, every column-not-found error of the
      projection step carries the `allow_missing_columns` hint. */
  lemma ColumnNotFoundCarriesHint(file: Schema, reference: Schema, projected: Option<Schema>)
    requires var r := ReconcileAndProject(file, reference, projected, false); r.Err? && r.error.ColumnNotFound?
    ensures MISSING_COLUMNS_HINT <= ReconcileAndProject(file, reference, projected, false).error.msg
  {
  }

  /** Reconciliation keeps exactly the reference names, in order, and is
      determined by that rule: any schema with those names that takes the
      file's field where the file has the name and the reference field
      elsewhere is the reconciled schema. */
  lemma {:induction false} ReconcileIsUnique(reference: Schema, file: Schema, s: Schema)
    requires |s| == |reference|
    requires forall i :: 0 <= i < |s| ==> s[i] == Get(file, reference[i].name).UnwrapOr(reference[i])
    ensures s == Reconcile(reference, file)
    decreases |reference|
  {
    if |reference| > 0 {
      ReconcileIsUnique(reference[1..], file, s[1..]);
    }
  }

  /** With no missing columns the reconciliation is the file's own fields,
      picked in reference order. */
  lemma {:induction false} ReconcileOfPresentColumns(reference: Schema, file: Schema)
    requires forall i :: 0 <= i < |reference| ==> HasName(file, reference[i].name)
    ensures forall i :: 0 <= i < |reference| ==> Reconcile(reference, file)[i] == Get(file, reference[i].name).value
    decreases |reference|
  {
    if |reference| > 0 {
      ReconcileOfPresentColumns(reference[1..], file);
      assert forall i :: 1 <= i < |reference| ==> reference[i] == reference[1..][i - 1];
    }
  }
}
