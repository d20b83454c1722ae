/** From the column definitions of a create request to the schema of the table. */
module TableSchema {
  import opened Prelude
  import opened JsonValues
  import opened Columnar
  import opened Text
  import DecodeTheorems

  type U32 = n: int | 0 <= n < 0x1_0000_0000

  datatype ColumnType =
    | UnspecifiedColumn | StringColumn | Int64Column | Float64Column | BoolColumn | VectorFloat32Column
    | Float32Column | Uint64Column | Int32Column | Uint32Column

  datatype ColumnDef = ColumnDef(name: string, columnType: ColumnType, vectorDim: U32, nullable: bool)

  datatype SchemaError = EmptyColumnName | ZeroDimension(name: string) | NoColumnType(name: string)

  /** `vector_dim as i32`. */
  function AsI32(dim: U32): int {
    if dim < TWO_31 then dim else dim - TWO_32
  }

  function ColumnToField(column: ColumnDef): Result<Field, SchemaError> {
    match column.columnType
    case StringColumn => Ok(Field(column.name, Utf8, column.nullable))
    case Int64Column => Ok(Field(column.name, Int64, column.nullable))
    case Float64Column => Ok(Field(column.name, Float64, column.nullable))
    case BoolColumn => Ok(Field(column.name, Boolean, column.nullable))
    case Float32Column => Ok(Field(column.name, Float32, column.nullable))
    case Uint64Column => Ok(Field(column.name, UInt64, column.nullable))
    case Int32Column => Ok(Field(column.name, Int32, column.nullable))
    case Uint32Column => Ok(Field(column.name, UInt32, column.nullable))
    case VectorFloat32Column =>
      if column.vectorDim == 0 then Err(ZeroDimension(column.name))
      else Ok(Field(column.name, FixedSizeList(true, AsI32(column.vectorDim)), column.nullable))
    case UnspecifiedColumn => Err(NoColumnType(column.name))
  }

  function CheckedField(column: ColumnDef): Result<Field, SchemaError> {
    if Trim(column.name) == "" then Err(EmptyColumnName) else ColumnToField(column)
  }

  function ArrowSchema(columns: seq<ColumnDef>): (r: Result<Schema, SchemaError>)
    ensures r.Ok? ==> |r.value| == |columns|
  {
    if |columns| == 0 then Ok([])
    else
      var front :- ArrowSchema(columns[..|columns| - 1]);
      var last :- CheckedField(columns[|columns| - 1]);
      Ok(front + [last])
  }

  lemma {:induction false} ArrowSchemaPrefix(columns: seq<ColumnDef>, k: nat)
    requires k <= |columns| && ArrowSchema(columns[..k]).Err?
    ensures ArrowSchema(columns) == ArrowSchema(columns[..k])
  {
    if k < |columns| {
      assert columns[..|columns| - 1][..k] == columns[..k];
      ArrowSchemaPrefix(columns[..|columns| - 1], k);
    } else {
      assert columns[..k] == columns;
    }
  }

  method BuildArrowSchema(columns: seq<ColumnDef>) returns (r: Result<Schema, SchemaError>)
    ensures r == ArrowSchema(columns)
  {
    var fields: Schema := [];
    for k := 0 to |columns|
      invariant ArrowSchema(columns[..k]) == Ok(fields)
    {
      assert columns[..k + 1][..k] == columns[..k];
      if Trim(columns[k].name) == "" {
        ArrowSchemaPrefix(columns, k + 1);
        return Err(EmptyColumnName);
      }
      var field := ColumnToField(columns[k]);
      if field.Err? {
        ArrowSchemaPrefix(columns, k + 1);
        return Err(field.error);
      }
      fields := fields + [field.value];
    }
    assert columns[..|columns|] == columns;
    r := Ok(fields);
  }

  /** What a column definition must satisfy. */
  ghost predicate GoodColumn(column: ColumnDef) {
    && Trim(column.name) != ""
    && !column.columnType.UnspecifiedColumn?
    && (column.columnType.VectorFloat32Column? ==> column.vectorDim > 0)
  }

  /** A field made from a column definition. */
  ghost predicate FieldFor(column: ColumnDef, field: Field) {
    && field.name == column.name && field.nullable == column.nullable
    && Supported(field.dataType) && TypeFor(column, field.dataType)
  }

  /** The data type of each column type; a dimension from 2^31 on wraps below zero. */
  ghost predicate TypeFor(column: ColumnDef, dt: DataType) {
    match column.columnType
    case StringColumn => dt == Utf8
    case Int64Column => dt == Int64
    case Int32Column => dt == Int32
    case Uint64Column => dt == UInt64
    case Uint32Column => dt == UInt32
    case Float64Column => dt == Float64
    case Float32Column => dt == Float32
    case BoolColumn => dt == Boolean
    case VectorFloat32Column =>
      dt == FixedSizeList(true, column.vectorDim - if column.vectorDim < TWO_31 then 0 else TWO_32)
    case UnspecifiedColumn => false
  }

  lemma CheckedFieldBuilt(column: ColumnDef)
    ensures CheckedField(column).Ok? <==> GoodColumn(column)
    ensures CheckedField(column).Ok? ==> FieldFor(column, CheckedField(column).value)
  {
  }

  /** A schema is built exactly when every column definition is good, field by field in the order given. */
  lemma {:induction false} SchemaBuilt(columns: seq<ColumnDef>)
    ensures ArrowSchema(columns).Ok? <==> forall i :: 0 <= i < |columns| ==> GoodColumn(columns[i])
    ensures ArrowSchema(columns).Ok? ==>
              forall i :: 0 <= i < |columns| ==> FieldFor(columns[i], ArrowSchema(columns).value[i])
  {
    if |columns| == 0 {
      return;
    }
    var front, last := columns[..|columns| - 1], columns[|columns| - 1];
    SchemaBuilt(front);
    CheckedFieldBuilt(last);
    assert columns == front + [last];
    assert forall i :: 0 <= i < |front| ==> front[i] == columns[i];
    if ArrowSchema(columns).Ok? {
      assert ArrowSchema(columns).value == ArrowSchema(front).value + [CheckedField(last).value];
    }
  }

  ghost predicate ColumnFaultIs(column: ColumnDef, e: SchemaError) {
    if Trim(column.name) == "" then e == EmptyColumnName
    else if column.columnType.UnspecifiedColumn? then e == NoColumnType(column.name)
    else column.columnType.VectorFloat32Column? && column.vectorDim == 0 && e == ZeroDimension(column.name)
  }

  /** A schema that is not built fails for the first definition that is not good. */
  lemma {:induction false} SchemaFault(columns: seq<ColumnDef>) returns (i: nat)
    requires ArrowSchema(columns).Err?
    ensures i < |columns| && ColumnFaultIs(columns[i], ArrowSchema(columns).error)
    ensures forall j :: 0 <= j < i ==> GoodColumn(columns[j])
  {
    var front := columns[..|columns| - 1];
    if ArrowSchema(front).Err? {
      i := SchemaFault(front);
      assert forall j :: 0 <= j < i ==> front[j] == columns[j];
    } else {
      i := |front|;
      SchemaBuilt(front);
      assert forall j :: 0 <= j < i ==> front[j] == columns[j];
    }
  }

  ghost predicate SmallDimension(column: ColumnDef) {
    column.columnType.VectorFloat32Column? ==> column.vectorDim < TWO_31
  }

  /** The field of a vector column has the dimension asked for exactly when it is small. */
  lemma DimensionKept(column: ColumnDef, field: Field)
    requires FieldFor(column, field)
    ensures (field.dataType.FixedSizeList? ==> field.dataType.size >= 0) <==> SmallDimension(column)
    ensures (column.columnType.VectorFloat32Column? ==> field.dataType == FixedSizeList(true, column.vectorDim))
            <==> SmallDimension(column)
  {
  }

  /** The cast to i32 keeps every dimension exactly when all of them are below 2^31. */
  lemma DimensionsKept(columns: seq<ColumnDef>)
    requires ArrowSchema(columns).Ok?
    ensures var schema := ArrowSchema(columns).value;
            var small := forall i :: 0 <= i < |columns| ==> SmallDimension(columns[i]);
            && DecodeTheorems.AllSupported(schema)
            && (DecodeTheorems.SizesNonNegative(schema) <==> small)
            && (small <==> forall i :: 0 <= i < |columns| && columns[i].columnType.VectorFloat32Column? ==>
                             schema[i].dataType == FixedSizeList(true, columns[i].vectorDim))
  {
    SchemaBuilt(columns);
    var schema := ArrowSchema(columns).value;
    forall i | 0 <= i < |columns|
      ensures Supported(schema[i].dataType)
      ensures (schema[i].dataType.FixedSizeList? ==> schema[i].dataType.size >= 0) <==> SmallDimension(columns[i])
      ensures (columns[i].columnType.VectorFloat32Column? ==>
                 schema[i].dataType == FixedSizeList(true, columns[i].vectorDim))
              <==> SmallDimension(columns[i])
    {
      DimensionKept(columns[i], schema[i]);
    }
  }

  /** The ingestion rules by column type, as the documentation gives them. */
  ghost predicate ColumnTakes(column: ColumnDef, v: Value) {
    match column.columnType
    case StringColumn => v.Str?
    case Int64Column => DecodeTheorems.WholeWithin(v, -TWO_63, TWO_63)
    case Int32Column => DecodeTheorems.WholeWithin(v, -TWO_31, TWO_31)
    case Uint64Column => DecodeTheorems.WholeWithin(v, 0, TWO_64)
    case Uint32Column => DecodeTheorems.WholeWithin(v, 0, TWO_32)
    case Float64Column => v.Num?
    case Float32Column => v.Num?
    case BoolColumn => v.Bool?
    case VectorFloat32Column =>
      v.Arr? && |v.items| == column.vectorDim && forall i :: 0 <= i < |v.items| ==> v.items[i].Num?
    case UnspecifiedColumn => false
  }

  lemma FieldTakes(column: ColumnDef, v: Value)
    requires ColumnToField(column).Ok?
    requires column.columnType.VectorFloat32Column? ==> column.vectorDim < TWO_31
    ensures Supported(ColumnToField(column).value.dataType)
    ensures DecodeTheorems.Fits(ColumnToField(column).value.dataType, v) <==> ColumnTakes(column, v)
  {
  }

  /** A table made from column definitions takes, field by field, the values its column types promise. */
  lemma FieldsTakeWhatColumnsPromise(columns: seq<ColumnDef>, i: nat, v: Value)
    requires ArrowSchema(columns).Ok? && i < |columns|
    requires columns[i].columnType.VectorFloat32Column? ==> columns[i].vectorDim < TWO_31
    ensures Supported(ArrowSchema(columns).value[i].dataType)
    ensures DecodeTheorems.Fits(ArrowSchema(columns).value[i].dataType, v) <==> ColumnTakes(columns[i], v)
  {
    FieldAt(columns, i);
    FieldTakes(columns[i], v);
  }

  lemma {:induction false} FieldAt(columns: seq<ColumnDef>, i: nat)
    requires ArrowSchema(columns).Ok? && i < |columns|
    ensures ColumnToField(columns[i]) == Ok(ArrowSchema(columns).value[i])
  {
    var n := |columns| - 1;
    if i < n { FieldAt(columns[..n], i); }
  }
}
