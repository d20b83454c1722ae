/** What the column-major decoder accepts, which error it reports, and where each row's values end up. */
module DecodeTheorems {
  import opened Prelude
  import opened JsonValues
  import opened Columnar
  import opened JsonDecode

  // ---------------------------------------------------------------- the documented ingestion rules

  ghost predicate WholeWithin(v: Value, low: int, high: int) {
    || (v.Num? && v.n.PosInt? && low <= v.n.u < high)
    || (v.Num? && v.n.NegInt? && low <= v.n.i < high)
  }

  ghost predicate Fits(dt: DataType, v: Value)
    requires Supported(dt)
  {
    match dt
    case Utf8 => v.Str?
    case LargeUtf8 => v.Str?
    case Int64 => WholeWithin(v, -TWO_63, TWO_63)
    case Int32 => WholeWithin(v, -TWO_31, TWO_31)
    case UInt64 => WholeWithin(v, 0, TWO_64)
    case UInt32 => WholeWithin(v, 0, TWO_32)
    case Float64 => v.Num?
    case Float32 => v.Num?
    case Boolean => v.Bool?
    case FixedSizeList(_, size) =>
      v.Arr? && |v.items| == AsUsize(size) && forall i :: 0 <= i < |v.items| ==> v.items[i].Num?
  }

  /** A row is an object, and gives the field a fitting value or, where the field allows it, none. */
  ghost predicate Acceptable(field: Field, row: Value)
    requires Supported(field.dataType)
  {
    && row.Obj?
    && if field.name in row.members && !row.members[field.name].Null?
       then Fits(field.dataType, row.members[field.name])
       else field.nullable
  }

  ghost predicate AllSupported(schema: Schema) {
    forall f :: 0 <= f < |schema| ==> Supported(schema[f].dataType)
  }

  ghost predicate SizesNonNegative(schema: Schema) {
    forall f :: 0 <= f < |schema| && schema[f].dataType.FixedSizeList? ==> schema[f].dataType.size >= 0
  }

  /** (f, r) is the first unacceptable pair, all rows of a field before the next field. */
  ghost predicate FirstFault(schema: Schema, rows: seq<Value>, f: nat, r: nat)
    requires AllSupported(schema)
  {
    && f < |schema| && r < |rows|
    && !Acceptable(schema[f], rows[r])
    && (forall r' :: 0 <= r' < r ==> Acceptable(schema[f], rows[r']))
    && (forall f', r' :: 0 <= f' < f && 0 <= r' < |rows| ==> Acceptable(schema[f'], rows[r']))
  }

  // ---------------------------------------------------------------- one slot, one column

  lemma {:induction false} FloatsOk(rnd: Rounding, items: seq<Value>, name: string)
    ensures ExpectFloats(rnd, items, name).Ok? <==> forall i :: 0 <= i < |items| ==> items[i].Num?
  {
    if |items| > 0 {
      var front := items[..|items| - 1];
      FloatsOk(rnd, front, name);
      assert forall i :: 0 <= i < |front| ==> front[i] == items[i];
    }
  }

  lemma SlotOk(rnd: Rounding, field: Field, row: Value)
    requires Supported(field.dataType)
    ensures ReadSlot(rnd, field, row).Ok? <==> Acceptable(field, row)
  {
    if row.Obj? && field.name in row.members && !row.members[field.name].Null? {
      var v := row.members[field.name];
      if IsVector(field.dataType) {
        if v.Arr? {
          FloatsOk(rnd, v.items, field.name);
        }
      }
    }
  }

  lemma {:induction false} FloatsRead(rnd: Rounding, items: seq<Value>, name: string)
    requires ExpectFloats(rnd, items, name).Ok?
    ensures forall i :: 0 <= i < |items| ==>
              && items[i].Num?
              && ExpectFloats(rnd, items, name).value[i] == Some(rnd.narrow(AsF64(rnd, items[i]).value))
  {
    if |items| > 0 {
      var front := items[..|items| - 1];
      FloatsRead(rnd, front, name);
      assert forall i :: 0 <= i < |front| ==> front[i] == items[i];
    }
  }

  lemma {:induction false} FloatsFault(rnd: Rounding, items: seq<Value>, name: string)
    requires ExpectFloats(rnd, items, name).Err?
    ensures ExpectFloats(rnd, items, name) == Err(WrongKind(name, Float32))
  {
    if ExpectFloats(rnd, items[..|items| - 1], name).Err? {
      FloatsFault(rnd, items[..|items| - 1], name);
    }
  }

  ghost predicate IsWhole(v: Value, i: int) {
    v.Num? && ((v.n.PosInt? && v.n.u == i) || (v.n.NegInt? && v.n.i == i))
  }

  ghost function RealOf(rnd: Rounding, n: Number): real {
    match n
    case PosInt(u) => rnd.toF64(u)
    case NegInt(i) => rnd.toF64(i)
    case Decimal(f) => f
  }

  /** What is stored for a value: texts, integers and flags as they are, numbers of float fields rounded to them. */
  ghost predicate StoredAs(rnd: Rounding, dt: DataType, v: Value, item: Item) {
    match dt
    case Utf8 => v.Str? && item == Scalar(Text(v.s))
    case LargeUtf8 => v.Str? && item == Scalar(Text(v.s))
    case Float64 => v.Num? && item == Scalar(Floating(Finite(RealOf(rnd, v.n))))
    case Float32 => v.Num? && item == Scalar(Floating(rnd.narrow(RealOf(rnd, v.n))))
    case Boolean => v.Bool? && item == Scalar(Flag(v.b))
    case FixedSizeList(_, _) =>
      && v.Arr? && item.List? && |item.floats| == |v.items|
      && forall k :: 0 <= k < |v.items| ==>
           v.items[k].Num? && item.floats[k] == Some(rnd.narrow(RealOf(rnd, v.items[k].n)))
    case OtherType(_) => false
    case _ => item.Scalar? && item.cell.Integer? && IsWhole(v, item.cell.i)
  }

  /** The row gives the field no value. */
  ghost predicate GivesNone(field: Field, row: Value) {
    row.Obj? && (field.name in row.members ==> row.members[field.name].Null?)
  }

  /** The error for each kind of fault; the row's own shape comes first, then the value's. */
  ghost predicate FaultIs(field: Field, row: Value, e: DecodeError) {
    if !row.Obj? then e == NotAnObject
    else if field.name !in row.members then e == MissingField(field.name)
    else if row.members[field.name].Null? then e == NotNullable(field.name)
    else
      var v := row.members[field.name];
      match field.dataType
      case Int32 =>
        e == if WholeWithin(v, -TWO_63, TWO_63) then OutOfRange(field.name, Int32) else WrongKind(field.name, Int32)
      case UInt32 =>
        e == if WholeWithin(v, 0, TWO_64) then OutOfRange(field.name, UInt32) else WrongKind(field.name, UInt32)
      case FixedSizeList(_, size) =>
        e == if !v.Arr? then NotAnArray(field.name)
             else if |v.items| != AsUsize(size) then WrongLength(field.name, size, |v.items|)
             else WrongKind(field.name, Float32)
      case dt => e == WrongKind(field.name, dt)
  }

  /** What one row comes to in one column, in full. */
  lemma SlotMeans(rnd: Rounding, field: Field, row: Value)
    requires Supported(field.dataType)
    ensures match ReadSlot(rnd, field, row)
            case Ok(None) => GivesNone(field, row) && field.nullable
            case Ok(Some(item)) =>
              && row.Obj? && field.name in row.members && !row.members[field.name].Null?
              && StoredAs(rnd, field.dataType, row.members[field.name], item)
            case Err(e) => FaultIs(field, row, e)
  {
    if row.Obj? && field.name in row.members && row.members[field.name].Arr? && IsVector(field.dataType) {
      var items := row.members[field.name].items;
      if ExpectFloats(rnd, items, field.name).Ok? {
        FloatsRead(rnd, items, field.name);
      } else {
        FloatsFault(rnd, items, field.name);
      }
    }
  }

  lemma {:induction false} SlotsOk(rnd: Rounding, field: Field, rows: seq<Value>)
    requires Supported(field.dataType)
    ensures ReadSlots(rnd, field, rows).Ok? <==> forall i :: 0 <= i < |rows| ==> Acceptable(field, rows[i])
    ensures ReadSlots(rnd, field, rows).Ok? ==>
              forall i :: 0 <= i < |rows| ==>
                var slot := ReadSlot(rnd, field, rows[i]);
                slot.Ok? && ReadSlots(rnd, field, rows).value[i] == slot.value
  {
    if |rows| > 0 {
      var front := rows[..|rows| - 1];
      SlotsOk(rnd, field, front);
      SlotOk(rnd, field, rows[|rows| - 1]);
      assert forall i :: 0 <= i < |front| ==> front[i] == rows[i];
    }
  }

  lemma ColumnFault(rnd: Rounding, field: Field, rows: seq<Value>, r: nat)
    requires Supported(field.dataType) && r < |rows|
    requires field.dataType.FixedSizeList? ==> field.dataType.size >= 0
    requires !Acceptable(field, rows[r])
    requires forall r' :: 0 <= r' < r ==> Acceptable(field, rows[r'])
    ensures ReadSlot(rnd, field, rows[r]).Err?
    ensures DecodeColumn(rnd, rows, field) == Err(ReadSlot(rnd, field, rows[r]).error)
  {
    SlotsOk(rnd, field, rows[..r]);
    SlotOk(rnd, field, rows[r]);
    ReadSlotsStep(rnd, field, rows, r);
  }

  // ---------------------------------------------------------------- vector layout

  ghost predicate ListsHave(size: int, slots: seq<Option<Item>>) {
    forall i :: 0 <= i < |slots| && slots[i].Some? ==> slots[i].value.List? && |slots[i].value.floats| == size
  }

  lemma {:induction false} FlatLength(size: nat, slots: seq<Option<Item>>)
    requires ListsHave(size, slots)
    ensures |PackChild(size, slots)| == |slots| * size
  {
    if |slots| > 0 {
      FlatLength(size, slots[..|slots| - 1]);
      assert |slots| * size == (|slots| - 1) * size + size;
    }
  }

  /** Row `i` owns exactly the child slots from `i * size` up to `(i + 1) * size`, null rows included. */
  lemma {:induction false} FlatLayout(size: nat, slots: seq<Option<Item>>, i: nat)
    requires ListsHave(size, slots) && i < |slots|
    ensures |PackChild(size, slots)| == |slots| * size
    ensures 0 <= i * size <= (i + 1) * size <= |slots| * size
    ensures PackChild(size, slots)[i * size..(i + 1) * size] == Chunk(size, slots[i])
  {
    var front := slots[..|slots| - 1];
    FlatLength(size, slots);
    FlatLength(size, front);
    RowFits(i, |slots|, size);
    var lo, hi := i * size, (i + 1) * size;
    var prior := PackChild(size, front);
    if i < |front| {
      FlatLayout(size, front, i);
      assert PackChild(size, slots)[lo..hi] == prior[lo..hi];
    } else {
      assert |prior| == lo;
      assert PackChild(size, slots)[lo..hi] == Chunk(size, slots[i]);
    }
  }

  ghost predicate SlotsMatch(dt: DataType, slots: seq<Option<Item>>) {
    if IsVector(dt) then ListsHave(dt.size, slots)
    else forall i :: 0 <= i < |slots| && slots[i].Some? ==> slots[i].value.Scalar?
  }

  /** Reading a row back through its slice returns what was appended for that row and nothing else. */
  lemma ReadBackPacked(dt: DataType, slots: seq<Option<Item>>)
    requires SlotsMatch(dt, slots)
    requires dt.FixedSizeList? ==> dt.size >= 0
    ensures WellFormed(Pack(dt, slots)) && ColumnLength(Pack(dt, slots)) == |slots|
    ensures forall i :: 0 <= i < |slots| ==> ReadBack(Pack(dt, slots), i) == slots[i]
  {
    var column := Pack(dt, slots);
    if IsVector(dt) {
      FlatLength(dt.size, slots);
      forall i | 0 <= i < |slots|
        ensures ReadBack(column, i) == slots[i]
      {
        FlatLayout(dt.size, slots, i);
      }
    }
  }

  lemma DecodedSlotsMatch(rnd: Rounding, field: Field, rows: seq<Value>)
    requires Supported(field.dataType)
    requires field.dataType.FixedSizeList? ==> field.dataType.size >= 0
    requires ReadSlots(rnd, field, rows).Ok?
    ensures SlotsMatch(field.dataType, ReadSlots(rnd, field, rows).value)
  {
    SlotsOk(rnd, field, rows);
  }

  /** The vector builder's buffers after any number of rows, told from the rows themselves. */
  lemma VectorColumnLayout(rnd: Rounding, rows: seq<Value>, field: Field, i: nat)
    requires IsVector(field.dataType) && i < |rows| && DecodeColumn(rnd, rows, field).Ok?
    ensures var column := DecodeColumn(rnd, rows, field).value;
            var size := field.dataType.size;
            && |column.child| == |rows| * size
            && 0 <= i * size <= (i + 1) * size <= |column.child|
            && ReadSlot(rnd, field, rows[i]).Ok?
            && match ReadSlot(rnd, field, rows[i]).value
               case None => !column.valid[i] && column.child[i * size..(i + 1) * size] == Nulls(size)
               case Some(item) => column.valid[i] && item == List(column.child[i * size..(i + 1) * size])
  {
    SlotsOk(rnd, field, rows);
    DecodedSlotsMatch(rnd, field, rows);
    var slots := ReadSlots(rnd, field, rows).value;
    FlatLayout(field.dataType.size, slots, i);
  }

  /** One decoded column: as long as the rows, of the field's type, null only where the field allows it. */
  lemma DecodedColumn(rnd: Rounding, rows: seq<Value>, field: Field)
    requires DecodeColumn(rnd, rows, field).Ok?
    ensures var column := DecodeColumn(rnd, rows, field).value;
            && WellFormed(column) && ColumnLength(column) == |rows| && ColumnType(column) == field.dataType
            && (forall i :: 0 <= i < |rows| ==>
                 ReadSlot(rnd, field, rows[i]).Ok? && ReadBack(column, i) == ReadSlot(rnd, field, rows[i]).value)
            && (!field.nullable ==> forall i :: 0 <= i < |rows| ==> !IsNull(column, i))
  {
    SlotsOk(rnd, field, rows);
    DecodedSlotsMatch(rnd, field, rows);
    var slots := ReadSlots(rnd, field, rows).value;
    ReadBackPacked(field.dataType, slots);
    forall i | 0 <= i < |rows| && !field.nullable
      ensures !IsNull(Pack(field.dataType, slots), i)
    {
      assert slots[i] == ReadSlot(rnd, field, rows[i]).value;
    }
  }

  // ---------------------------------------------------------------- the whole batch

  lemma {:induction false} ColumnsOk(rnd: Rounding, rows: seq<Value>, schema: Schema)
    ensures DecodeColumns(rnd, rows, schema).Ok? <==>
              forall f :: 0 <= f < |schema| ==> DecodeColumn(rnd, rows, schema[f]).Ok?
    ensures DecodeColumns(rnd, rows, schema).Ok? ==>
              forall f :: 0 <= f < |schema| ==>
                DecodeColumn(rnd, rows, schema[f]) == Ok(DecodeColumns(rnd, rows, schema).value[f])
  {
    if |schema| > 0 {
      var front := schema[..|schema| - 1];
      ColumnsOk(rnd, rows, front);
      assert forall f :: 0 <= f < |front| ==> front[f] == schema[f];
    }
  }

  lemma ColumnsFault(rnd: Rounding, rows: seq<Value>, schema: Schema, f: nat)
    requires f < |schema|
    requires DecodeColumn(rnd, rows, schema[f]).Err?
    requires forall f' :: 0 <= f' < f ==> DecodeColumn(rnd, rows, schema[f']).Ok?
    ensures DecodeBatch(rnd, rows, schema) == Err(DecodeColumn(rnd, rows, schema[f]).error)
  {
    ColumnsOk(rnd, rows, schema[..f]);
    assert schema[..f + 1][..f] == schema[..f];
    DecodeColumnsPrefix(rnd, rows, schema, f + 1);
  }

  /** Once every column has been built, the final `RecordBatch::try_new` has nothing left to object to. */
  lemma FinalCheckPasses(rnd: Rounding, rows: seq<Value>, schema: Schema)
    requires |schema| > 0 && DecodeColumns(rnd, rows, schema).Ok?
    ensures DecodeBatch(rnd, rows, schema) == Ok(Batch(schema, DecodeColumns(rnd, rows, schema).value, |rows|))
  {
    ColumnsOk(rnd, rows, schema);
    forall f | 0 <= f < |schema|
      ensures var column := DecodeColumns(rnd, rows, schema).value[f];
              && ColumnLength(column) == |rows| && ColumnType(column) == schema[f].dataType
              && (!schema[f].nullable ==> forall i :: 0 <= i < |rows| ==> !IsNull(column, i))
    {
      DecodedColumn(rnd, rows, schema[f]);
    }
  }

  /**
   The column-major decoder against the row rules: it succeeds exactly when every row is acceptable
   for every field; otherwise its error is that of the first fault.
   */
  lemma DecodeRefinesRowRules(rnd: Rounding, rows: seq<Value>, schema: Schema)
    requires |schema| > 0 && AllSupported(schema) && SizesNonNegative(schema)
    ensures DecodeBatch(rnd, rows, schema).Ok? <==>
              forall f, r :: 0 <= f < |schema| && 0 <= r < |rows| ==> Acceptable(schema[f], rows[r])
    ensures forall f: nat, r: nat :: FirstFault(schema, rows, f, r) ==>
              && ReadSlot(rnd, schema[f], rows[r]).Err?
              && DecodeBatch(rnd, rows, schema) == Err(ReadSlot(rnd, schema[f], rows[r]).error)
    ensures DecodeBatch(rnd, rows, schema).Err? ==> exists f: nat, r: nat :: FirstFault(schema, rows, f, r)
  {
    forall f | 0 <= f < |schema|
      ensures DecodeColumn(rnd, rows, schema[f]).Ok? <==>
                forall r :: 0 <= r < |rows| ==> Acceptable(schema[f], rows[r])
    {
      SlotsOk(rnd, schema[f], rows);
    }
    ColumnsOk(rnd, rows, schema);
    if DecodeColumns(rnd, rows, schema).Ok? {
      FinalCheckPasses(rnd, rows, schema);
    } else {
      var f, r := FindFirstFault(schema, rows);
    }
    forall f: nat, r: nat | FirstFault(schema, rows, f, r)
      ensures ReadSlot(rnd, schema[f], rows[r]).Err?
      ensures DecodeBatch(rnd, rows, schema) == Err(ReadSlot(rnd, schema[f], rows[r]).error)
    {
      ColumnFault(rnd, schema[f], rows, r);
      ColumnsFault(rnd, rows, schema, f);
    }
  }

  /** Which schemas and rows decode, for every schema and all rows there are. */
  lemma DecodeSucceedsExactly(rnd: Rounding, rows: seq<Value>, schema: Schema)
    ensures DecodeBatch(rnd, rows, schema).Ok? <==>
              && |schema| > 0 && AllSupported(schema) && SizesNonNegative(schema)
              && forall f, r :: 0 <= f < |schema| && 0 <= r < |rows| ==> Acceptable(schema[f], rows[r])
  {
    if DecodeBatch(rnd, rows, schema).Ok? {
      DecodedBatch(rnd, rows, schema);
    }
    if |schema| > 0 && AllSupported(schema) && SizesNonNegative(schema) {
      DecodeRefinesRowRules(rnd, rows, schema);
    }
  }

  lemma FindFirstFault(schema: Schema, rows: seq<Value>) returns (f: nat, r: nat)
    requires AllSupported(schema)
    requires exists f, r :: 0 <= f < |schema| && 0 <= r < |rows| && !Acceptable(schema[f], rows[r])
    ensures FirstFault(schema, rows, f, r)
  {
    f := 0;
    while forall r :: 0 <= r < |rows| ==> Acceptable(schema[f], rows[r])
      invariant f < |schema|
      invariant forall f', r' :: 0 <= f' < f && 0 <= r' < |rows| ==> Acceptable(schema[f'], rows[r'])
      decreases |schema| - f
    {
      f := f + 1;
    }
    r := FirstBadRow(schema[f], rows);
  }

  /** The cells of a decoded batch are those of the row-by-row reading. */
  lemma DecodedBatch(rnd: Rounding, rows: seq<Value>, schema: Schema)
    requires DecodeBatch(rnd, rows, schema).Ok?
    ensures |schema| > 0 && AllSupported(schema) && SizesNonNegative(schema)
    ensures var batch := DecodeBatch(rnd, rows, schema).value;
            && batch.schema == schema && batch.rows == |rows| && WellFormedBatch(batch)
            && (forall f :: 0 <= f < |schema| ==> DecodeColumn(rnd, rows, schema[f]) == Ok(batch.columns[f]))
            && forall f, r :: 0 <= f < |schema| && 0 <= r < |rows| ==>
                 && ReadSlot(rnd, schema[f], rows[r]).Ok?
                 && ReadBack(batch.columns[f], r) == ReadSlot(rnd, schema[f], rows[r]).value
  {
    ColumnsOk(rnd, rows, schema);
    FinalCheckPasses(rnd, rows, schema);
    forall f | 0 <= f < |schema|
      ensures var column := DecodeColumns(rnd, rows, schema).value[f];
              && WellFormed(column) && ColumnLength(column) == |rows|
              && forall r :: 0 <= r < |rows| ==>
                   && ReadSlot(rnd, schema[f], rows[r]).Ok?
                   && ReadBack(column, r) == ReadSlot(rnd, schema[f], rows[r]).value
    {
      DecodedColumn(rnd, rows, schema[f]);
    }
  }

  /** The field has a builder that does not panic, and takes what every row gives it. */
  ghost predicate GoodField(field: Field, rows: seq<Value>) {
    && Supported(field.dataType) && (field.dataType.FixedSizeList? ==> field.dataType.size >= 0)
    && forall r :: 0 <= r < |rows| ==> Acceptable(field, rows[r])
  }

  lemma GoodFieldDecodes(rnd: Rounding, rows: seq<Value>, field: Field)
    ensures DecodeColumn(rnd, rows, field).Ok? <==> GoodField(field, rows)
  {
    if Supported(field.dataType) { SlotsOk(rnd, field, rows); }
  }

  /**
   For every schema the first field that is not good decides how the decode fails: by its type, by the
   panic of its builder, or by the first row it does not take. Later fields are never looked at.
   */
  lemma FirstBadFieldDecides(rnd: Rounding, rows: seq<Value>, schema: Schema, f: nat)
    requires f < |schema| && !GoodField(schema[f], rows)
    requires forall f' :: 0 <= f' < f ==> GoodField(schema[f'], rows)
    ensures var field := schema[f];
            if !Supported(field.dataType) then
              DecodeBatch(rnd, rows, schema) == Err(UnsupportedType(field.name, field.dataType))
            else if field.dataType.FixedSizeList? && field.dataType.size < 0 then
              DecodeBatch(rnd, rows, schema) == Err(BuilderPanics(field.name))
            else
              exists r :: 0 <= r < |rows| && !Acceptable(field, rows[r])
                          && (forall r' :: 0 <= r' < r ==> Acceptable(field, rows[r']))
                          && ReadSlot(rnd, field, rows[r]).Err?
                          && DecodeBatch(rnd, rows, schema) == Err(ReadSlot(rnd, field, rows[r]).error)
  {
    var field := schema[f];
    forall f' | 0 <= f' <= f
      ensures DecodeColumn(rnd, rows, schema[f']).Ok? <==> GoodField(schema[f'], rows)
    {
      GoodFieldDecodes(rnd, rows, schema[f']);
    }
    ColumnsFault(rnd, rows, schema, f);
    if Supported(field.dataType) && (field.dataType.FixedSizeList? ==> field.dataType.size >= 0) {
      var r := FirstBadRow(field, rows);
      ColumnFault(rnd, field, rows, r);
    }
  }

  lemma FirstBadRow(field: Field, rows: seq<Value>) returns (r: nat)
    requires Supported(field.dataType)
    requires exists r :: 0 <= r < |rows| && !Acceptable(field, rows[r])
    ensures r < |rows| && !Acceptable(field, rows[r])
    ensures forall r' :: 0 <= r' < r ==> Acceptable(field, rows[r'])
  {
    r := 0;
    while Acceptable(field, rows[r])
      invariant r < |rows|
      invariant forall r' :: 0 <= r' < r ==> Acceptable(field, rows[r'])
      invariant exists r' :: 0 <= r' < |rows| && !Acceptable(field, rows[r'])
      decreases |rows| - r
    {
      r := r + 1;
    }
  }

  /** A field no builder exists for ends the decode even without rows, provided the fields before it are good. */
  lemma UnsupportedFieldEndsDecode(rnd: Rounding, rows: seq<Value>, schema: Schema, f: nat)
    requires f < |schema| && !Supported(schema[f].dataType)
    requires forall f' :: 0 <= f' < f ==> GoodField(schema[f'], rows)
    ensures DecodeBatch(rnd, rows, schema) == Err(UnsupportedType(schema[f].name, schema[f].dataType))
  {
    FirstBadFieldDecides(rnd, rows, schema, f);
  }

  /**
   A dimension that wrapped below zero never decodes; once the fields before it are good it panics,
   whatever the rows hold.
   */
  lemma NegativeSizePanics(rnd: Rounding, rows: seq<Value>, schema: Schema, f: nat)
    requires f < |schema| && IsVector(schema[f].dataType) && schema[f].dataType.size < 0
    ensures DecodeBatch(rnd, rows, schema).Err?
    ensures (forall f' :: 0 <= f' < f ==> GoodField(schema[f'], rows)) ==>
              DecodeBatch(rnd, rows, schema) == Err(BuilderPanics(schema[f].name))
  {
    ColumnsOk(rnd, rows, schema);
    if forall f' :: 0 <= f' < f ==> GoodField(schema[f'], rows) {
      FirstBadFieldDecides(rnd, rows, schema, f);
    }
  }
}
