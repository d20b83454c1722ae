/**
 From JSON rows to a record batch: one column at a time, each column over all rows, the first
 error ending the whole decode.
 */
module JsonDecode {
  import opened Prelude
  import opened JsonValues
  import opened Columnar

  datatype DecodeError =
    | NotAnObject
    | NotNullable(name: string)
    | MissingField(name: string)
    | WrongKind(name: string, wanted: DataType)
    | OutOfRange(name: string, wanted: DataType)
    | NotAnArray(name: string)
    | WrongLength(name: string, expected: int, got: nat)
    | UnsupportedType(name: string, dataType: DataType)
    | RejectedBatch(reason: BatchFault)
    | BuilderPanics(name: string)

  /** What `RecordBatch::try_new` checks. */
  datatype BatchFault = NoColumns | ColumnCount | ColumnTypes | ColumnLengths | NullInRequired

  // ---------------------------------------------------------------- one field of one row

  function ExtractFieldValue(row: Value, name: string, nullable: bool): Result<Option<Value>, DecodeError> {
    if !row.Obj? then Err(NotAnObject)
    else if name !in row.members then
      if nullable then Ok(None) else Err(MissingField(name))
    else if row.members[name].Null? then
      if nullable then Ok(None) else Err(NotNullable(name))
    else Ok(Some(row.members[name]))
  }

  function ExpectInteger(name: string, dt: DataType, view: Option<Whole>, limit: int): Result<Cell, DecodeError> {
    match view
    case None => Err(WrongKind(name, dt))
    case Some(i) => if -limit <= i < limit then Ok(Integer(i)) else Err(OutOfRange(name, dt))
  }

  function ExpectF32(rnd: Rounding, value: Value, name: string): Result<Float, DecodeError> {
    match AsF64(rnd, value)
    case None => Err(WrongKind(name, Float32))
    case Some(x) => Ok(rnd.narrow(x))
  }

  function ExpectScalar(rnd: Rounding, dt: DataType, value: Value, name: string): Result<Cell, DecodeError>
    requires Supported(dt) && !IsVector(dt)
  {
    match dt
    case Utf8 => if value.Str? then Ok(Text(value.s)) else Err(WrongKind(name, dt))
    case LargeUtf8 => if value.Str? then Ok(Text(value.s)) else Err(WrongKind(name, dt))
    case Int64 => ExpectInteger(name, dt, AsI64(value), TWO_63)
    case Int32 => ExpectInteger(name, dt, AsI64(value), TWO_31)
    case UInt64 => if AsU64(value).Some? then Ok(Integer(AsU64(value).value)) else Err(WrongKind(name, dt))
    case UInt32 => ExpectInteger(name, dt, AsU64(value), TWO_32)
    case Float64 =>
      if AsF64(rnd, value).Some? then Ok(Floating(Finite(AsF64(rnd, value).value))) else Err(WrongKind(name, dt))
    case Float32 =>
      var f :- ExpectF32(rnd, value, name);
      Ok(Floating(f))
    case Boolean => if value.Bool? then Ok(Flag(value.b)) else Err(WrongKind(name, dt))
  }

  /** `i32 as usize` on a 64-bit machine. */
  function AsUsize(size: int): int {
    if size >= 0 then size else size + TWO_64
  }

  function ExpectFloats(rnd: Rounding, items: seq<Value>, name: string): (r: Result<seq<Option<Float>>, DecodeError>)
    ensures r.Ok? ==> |r.value| == |items|
  {
    if |items| == 0 then Ok([])
    else
      var front :- ExpectFloats(rnd, items[..|items| - 1], name);
      var last :- ExpectF32(rnd, items[|items| - 1], name);
      Ok(front + [Some(last)])
  }

  function ExpectVector(rnd: Rounding, size: int, value: Value, name: string): Result<seq<Option<Float>>, DecodeError> {
    if !value.Arr? then Err(NotAnArray(name))
    else if |value.items| != AsUsize(size) then Err(WrongLength(name, size, |value.items|))
    else ExpectFloats(rnd, value.items, name)
  }

  /** What one row contributes to one column. */
  function ReadSlot(rnd: Rounding, field: Field, row: Value): Result<Option<Item>, DecodeError>
    requires Supported(field.dataType)
  {
    var found :- ExtractFieldValue(row, field.name, field.nullable);
    match found
    case None => Ok(None)
    case Some(value) =>
      if IsVector(field.dataType) then
        var floats :- ExpectVector(rnd, field.dataType.size, value, field.name);
        Ok(Some(List(floats)))
      else
        var cell :- ExpectScalar(rnd, field.dataType, value, field.name);
        Ok(Some(Scalar(cell)))
  }

  // ---------------------------------------------------------------- one column

  /** One field read from the rows in order, up to the first error. */
  function ReadSlots(rnd: Rounding, field: Field, rows: seq<Value>): (r: Result<seq<Option<Item>>, DecodeError>)
    requires Supported(field.dataType)
    ensures r.Ok? ==> |r.value| == |rows|
  {
    if |rows| == 0 then Ok([])
    else
      var front :- ReadSlots(rnd, field, rows[..|rows| - 1]);
      var last :- ReadSlot(rnd, field, rows[|rows| - 1]);
      Ok(front + [last])
  }

  function Nulls(n: int): seq<Option<Float>> {
    if n <= 0 then [] else seq(n, _ => None)
  }

  /** The child slots one row of a vector column takes. */
  function Chunk(size: int, slot: Option<Item>): seq<Option<Float>> {
    match slot
    case Some(List(floats)) => floats
    case _ => Nulls(size)
  }

  function PackChild(size: int, slots: seq<Option<Item>>): seq<Option<Float>> {
    if |slots| == 0 then []
    else PackChild(size, slots[..|slots| - 1]) + Chunk(size, slots[|slots| - 1])
  }

  function CellOf(slot: Option<Item>): Option<Cell> {
    match slot
    case Some(Scalar(c)) => Some(c)
    case _ => None
  }

  /** The column a builder of type `dt` finishes with after these slots were appended. */
  function Pack(dt: DataType, slots: seq<Option<Item>>): Column {
    if IsVector(dt) then
      Vectors(dt.size, seq(|slots|, i requires 0 <= i < |slots| => slots[i].Some?), PackChild(dt.size, slots))
    else
      Scalars(dt, seq(|slots|, i requires 0 <= i < |slots| => CellOf(slots[i])))
  }

  /**
   The column of one field. A vector size below zero panics in the list builder: at its capacity
   when there are rows, and when it finishes otherwise.
   */
  function DecodeColumn(rnd: Rounding, rows: seq<Value>, field: Field): Result<Column, DecodeError> {
    if !Supported(field.dataType) then Err(UnsupportedType(field.name, field.dataType))
    else if IsVector(field.dataType) && field.dataType.size < 0 then Err(BuilderPanics(field.name))
    else
      var slots :- ReadSlots(rnd, field, rows);
      Ok(Pack(field.dataType, slots))
  }

  lemma {:induction false} ReadSlotsPrefix(rnd: Rounding, field: Field, rows: seq<Value>, k: nat)
    requires Supported(field.dataType) && k <= |rows|
    requires ReadSlots(rnd, field, rows[..k]).Err?
    ensures ReadSlots(rnd, field, rows) == ReadSlots(rnd, field, rows[..k])
  {
    if k < |rows| {
      var front := rows[..|rows| - 1];
      assert front[..k] == rows[..k];
      ReadSlotsPrefix(rnd, field, front, k);
    } else {
      assert rows[..k] == rows;
    }
  }

  /** One more row: its slot is appended, or its error is the error of the whole column. */
  lemma ReadSlotsStep(rnd: Rounding, field: Field, rows: seq<Value>, k: nat)
    requires Supported(field.dataType) && k < |rows|
    requires ReadSlots(rnd, field, rows[..k]).Ok?
    ensures match ReadSlot(rnd, field, rows[k])
            case Err(e) => ReadSlots(rnd, field, rows) == Err(e)
            case Ok(slot) => ReadSlots(rnd, field, rows[..k + 1]) == Ok(ReadSlots(rnd, field, rows[..k]).value + [slot])
  {
    assert rows[..k + 1][..k] == rows[..k];
    if ReadSlot(rnd, field, rows[k]).Err? {
      ReadSlotsPrefix(rnd, field, rows, k + 1);
    }
  }

  lemma PackChildStep(size: int, slots: seq<Option<Item>>, slot: Option<Item>)
    ensures PackChild(size, slots + [slot]) == PackChild(size, slots) + Chunk(size, slot)
  {
    assert (slots + [slot])[..|slots|] == slots;
  }

  lemma {:induction false} ExpectFloatsPrefix(rnd: Rounding, items: seq<Value>, name: string, k: nat)
    requires k <= |items|
    requires ExpectFloats(rnd, items[..k], name).Err?
    ensures ExpectFloats(rnd, items, name) == ExpectFloats(rnd, items[..k], name)
  {
    if k < |items| {
      var front := items[..|items| - 1];
      assert front[..k] == items[..k];
      ExpectFloatsPrefix(rnd, front, name, k);
    } else {
      assert items[..k] == items;
    }
  }

  method BuildScalarArray(rnd: Rounding, rows: seq<Value>, field: Field) returns (r: Result<Column, DecodeError>)
    requires Supported(field.dataType) && !IsVector(field.dataType)
    ensures r == DecodeColumn(rnd, rows, field)
  {
    var cells: seq<Option<Cell>> := [];
    ghost var slots: seq<Option<Item>> := [];
    for k := 0 to |rows|
      invariant ReadSlots(rnd, field, rows[..k]) == Ok(slots)
      invariant |slots| == |cells| == k
      invariant forall i :: 0 <= i < k ==> cells[i] == CellOf(slots[i])
    {
      ReadSlotsStep(rnd, field, rows, k);
      var found := ExtractFieldValue(rows[k], field.name, field.nullable);
      if found.Err? {
        return Err(found.error);
      }
      if found.value.Some? {
        var cell := ExpectScalar(rnd, field.dataType, found.value.value, field.name);
        if cell.Err? {
          return Err(cell.error);
        }
        cells := cells + [Some(cell.value)];
      } else {
        cells := cells + [None];
      }
      slots := slots + [ReadSlot(rnd, field, rows[k]).value];
    }
    assert rows[..|rows|] == rows;
    assert cells == Pack(field.dataType, slots).slots;
    r := Ok(Scalars(field.dataType, cells));
  }

  /** Appends the floats of one JSON array to the child buffer, stopping at the first that is not a number. */
  method AppendFloats(rnd: Rounding, items: seq<Value>, name: string, child: seq<Option<Float>>)
    returns (r: Result<seq<Option<Float>>, DecodeError>)
    ensures var floats := ExpectFloats(rnd, items, name);
            r == if floats.Ok? then Ok(child + floats.value) else Err(floats.error)
  {
    var buffer := child;
    for k := 0 to |items|
      invariant ExpectFloats(rnd, items[..k], name).Ok?
      invariant buffer == child + ExpectFloats(rnd, items[..k], name).value
    {
      assert items[..k + 1][..k] == items[..k];
      var f := ExpectF32(rnd, items[k], name);
      if f.Err? {
        ExpectFloatsPrefix(rnd, items, name, k + 1);
        return Err(f.error);
      }
      buffer := buffer + [Some(f.value)];
    }
    assert items[..|items|] == items;
    r := Ok(buffer);
  }

  method AppendNulls(size: int, child: seq<Option<Float>>) returns (buffer: seq<Option<Float>>)
    ensures buffer == child + Nulls(size)
  {
    buffer := child;
    var k := 0;
    while k < size
      invariant 0 <= k <= Max(size, 0)
      invariant buffer == child + Nulls(k)
    {
      buffer := buffer + [None];
      assert Nulls(k) + [None] == Nulls(k + 1);
      k := k + 1;
    }
  }

  /** One turn of the vector loop: grows the child buffer by one row and says whether the row is set. */
  method AppendVectorRow(rnd: Rounding, row: Value, field: Field, child: seq<Option<Float>>)
    returns (r: Result<(seq<Option<Float>>, bool), DecodeError>)
    requires IsVector(field.dataType)
    ensures match ReadSlot(rnd, field, row)
            case Err(e) => r == Err(e)
            case Ok(slot) => r == Ok((child + Chunk(field.dataType.size, slot), slot.Some?))
  {
    var found := ExtractFieldValue(row, field.name, field.nullable);
    if found.Err? {
      return Err(found.error);
    }
    if found.value.None? {
      var buffer := AppendNulls(field.dataType.size, child);
      return Ok((buffer, false));
    }
    var value := found.value.value;
    if !value.Arr? {
      return Err(NotAnArray(field.name));
    }
    if |value.items| != AsUsize(field.dataType.size) {
      return Err(WrongLength(field.name, field.dataType.size, |value.items|));
    }
    var extended := AppendFloats(rnd, value.items, field.name, child);
    if extended.Err? {
      return Err(extended.error);
    }
    return Ok((extended.value, true));
  }

  method BuildVectorArray(rnd: Rounding, rows: seq<Value>, field: Field) returns (r: Result<Column, DecodeError>)
    requires IsVector(field.dataType)
    ensures r == DecodeColumn(rnd, rows, field)
  {
    var size := field.dataType.size;
    if size < 0 {
      return Err(BuilderPanics(field.name));
    }
    var valid: seq<bool> := [];
    var child: seq<Option<Float>> := [];
    ghost var slots: seq<Option<Item>> := [];
    for k := 0 to |rows|
      invariant ReadSlots(rnd, field, rows[..k]) == Ok(slots)
      invariant |slots| == |valid| == k
      invariant forall i :: 0 <= i < k ==> valid[i] == slots[i].Some?
      invariant child == PackChild(size, slots)
    {
      ReadSlotsStep(rnd, field, rows, k);
      var appended := AppendVectorRow(rnd, rows[k], field, child);
      if appended.Err? {
        return Err(appended.error);
      }
      ghost var slot := ReadSlot(rnd, field, rows[k]).value;
      PackChildStep(size, slots, slot);
      slots := slots + [slot];
      child := appended.value.0;
      valid := valid + [appended.value.1];
    }
    assert rows[..|rows|] == rows;
    assert valid == Pack(field.dataType, slots).valid;
    r := Ok(Vectors(size, valid, child));
  }

  /** Builds the array of one field. The scalar types share one loop here and have one each in the source. */
  method BuildArrayForField(rnd: Rounding, rows: seq<Value>, field: Field) returns (r: Result<Column, DecodeError>)
    ensures r == DecodeColumn(rnd, rows, field)
  {
    if !Supported(field.dataType) {
      r := Err(UnsupportedType(field.name, field.dataType));
    } else if IsVector(field.dataType) {
      r := BuildVectorArray(rnd, rows, field);
    } else {
      r := BuildScalarArray(rnd, rows, field);
    }
  }

  // ---------------------------------------------------------------- the whole batch

  function DecodeColumns(rnd: Rounding, rows: seq<Value>, schema: Schema): (r: Result<seq<Column>, DecodeError>)
    ensures r.Ok? ==> |r.value| == |schema|
  {
    if |schema| == 0 then Ok([])
    else
      var front :- DecodeColumns(rnd, rows, schema[..|schema| - 1]);
      var last :- DecodeColumn(rnd, rows, schema[|schema| - 1]);
      Ok(front + [last])
  }

  /** The checks of `RecordBatch::try_new`. */
  function TryNew(schema: Schema, columns: seq<Column>): Result<Batch, DecodeError> {
    if |columns| != |schema| then Err(RejectedBatch(ColumnCount))
    else if |columns| == 0 then Err(RejectedBatch(NoColumns))
    else if exists c :: 0 <= c < |columns| && ColumnLength(columns[c]) != ColumnLength(columns[0]) then
      Err(RejectedBatch(ColumnLengths))
    else if exists c :: 0 <= c < |columns| && !schema[c].nullable
                        && exists i :: 0 <= i < ColumnLength(columns[c]) && IsNull(columns[c], i) then
      Err(RejectedBatch(NullInRequired))
    else if exists c :: 0 <= c < |columns| && ColumnType(columns[c]) != schema[c].dataType then
      Err(RejectedBatch(ColumnTypes))
    else Ok(Batch(schema, columns, ColumnLength(columns[0])))
  }

  function DecodeBatch(rnd: Rounding, rows: seq<Value>, schema: Schema): Result<Batch, DecodeError> {
    var columns :- DecodeColumns(rnd, rows, schema);
    TryNew(schema, columns)
  }

  lemma {:induction false} DecodeColumnsPrefix(rnd: Rounding, rows: seq<Value>, schema: Schema, k: nat)
    requires k <= |schema|
    requires DecodeColumns(rnd, rows, schema[..k]).Err?
    ensures DecodeColumns(rnd, rows, schema) == DecodeColumns(rnd, rows, schema[..k])
  {
    if k < |schema| {
      var front := schema[..|schema| - 1];
      assert front[..k] == schema[..k];
      DecodeColumnsPrefix(rnd, rows, front, k);
    } else {
      assert schema[..k] == schema;
    }
  }

  method JsonRowsToRecordBatch(rnd: Rounding, rows: seq<Value>, schema: Schema) returns (r: Result<Batch, DecodeError>)
    ensures r == DecodeBatch(rnd, rows, schema)
  {
    var arrays: seq<Column> := [];
    for k := 0 to |schema|
      invariant DecodeColumns(rnd, rows, schema[..k]) == Ok(arrays)
    {
      assert schema[..k + 1][..k] == schema[..k];
      var built := BuildArrayForField(rnd, rows, schema[k]);
      if built.Err? {
        DecodeColumnsPrefix(rnd, rows, schema, k + 1);
        return Err(built.error);
      }
      arrays := arrays + [built.value];
    }
    assert schema[..|schema|] == schema;
    r := TryNew(schema, arrays);
  }
}
