/** The decoder and the encoder against each other, on JSON values. */
module RoundTrip {
  import opened Prelude
  import opened JsonValues
  import opened Columnar
  import opened JsonDecode
  import opened DecodeTheorems
  import opened JsonEncode

  // ---------------------------------------------------------------- the value a reader gets back

  /** A number as a 32-bit float column gives it back. */
  ghost function Narrowed(rnd: Rounding, v: Value): Value {
    if v.Num? then FromFloat(rnd.narrow(AsF64(rnd, v).value)) else v
  }

  /** Strings, booleans and integers come back as they went in; numbers in float fields come back rounded. */
  ghost function Canonical(rnd: Rounding, dt: DataType, v: Value): Value {
    match dt
    case Float64 => if v.Num? then Num(Decimal(AsF64(rnd, v).value)) else v
    case Float32 => Narrowed(rnd, v)
    case FixedSizeList(_, _) =>
      if v.Arr? then Arr(seq(|v.items|, i requires 0 <= i < |v.items| => Narrowed(rnd, v.items[i]))) else v
    case _ => v
  }

  /** One member of a row, with a missing one turned into null. */
  ghost function CutMember(rnd: Rounding, field: Field, row: Value): Value {
    if row.Obj? && field.name in row.members && !row.members[field.name].Null?
    then Canonical(rnd, field.dataType, row.members[field.name])
    else Null
  }

  ghost function Names(schema: Schema): set<string> {
    set f | 0 <= f < |schema| :: schema[f].name
  }

  /** Index of the last field called `name`. */
  ghost function LastNamed(schema: Schema, name: string): (f: nat)
    requires name in Names(schema)
    ensures f < |schema| && schema[f].name == name
    ensures forall g :: f < g < |schema| ==> schema[g].name != name
  {
    var last := |schema| - 1;
    if schema[last].name == name then last
    else
      var front := schema[..last];
      assert name in Names(front) by {
        var f :| 0 <= f < |schema| && schema[f].name == name;
        assert front[f].name == name;
      }
      LastNamed(front, name)
  }

  /** The input row cut to the schema. Fields that share a name share one member: that of the last of them. */
  ghost function CutMembers(rnd: Rounding, schema: Schema, row: Value): map<string, Value> {
    map name | name in Names(schema) :: CutMember(rnd, schema[LastNamed(schema, name)], row)
  }

  ghost function CutRow(rnd: Rounding, schema: Schema, row: Value): Value {
    Obj(CutMembers(rnd, schema, row))
  }

  // ---------------------------------------------------------------- rendering what was read

  ghost function RenderSlot(slot: Option<Item>): Value {
    match slot
    case None => Null
    case Some(Scalar(c)) => RenderCell(c)
    case Some(List(floats)) => Arr(RenderFloats(floats))
  }

  lemma RenderRead(rnd: Rounding, field: Field, row: Value)
    requires Supported(field.dataType) && ReadSlot(rnd, field, row).Ok?
    ensures RenderSlot(ReadSlot(rnd, field, row).value) == CutMember(rnd, field, row)
  {
    var slot := ReadSlot(rnd, field, row).value;
    if slot.Some? && IsVector(field.dataType) {
      var items := row.members[field.name].items;
      FloatsRead(rnd, items, field.name);
      assert RenderFloats(slot.value.floats)
          == seq(|items|, i requires 0 <= i < |items| => Narrowed(rnd, items[i]));
    }
  }

  lemma ValueOfReadBack(col: Column, i: nat)
    requires WellFormed(col) && i < ColumnLength(col)
    requires Supported(ColumnType(col)) && (col.Scalars? ==> !col.dataType.FixedSizeList?)
    ensures ValueAt(col, i) == Ok(RenderSlot(ReadBack(col, i)))
  {
  }

  lemma DecodedValue(rnd: Rounding, rows: seq<Value>, field: Field, r: nat)
    requires Supported(field.dataType) && (field.dataType.FixedSizeList? ==> field.dataType.size >= 0)
    requires DecodeColumn(rnd, rows, field).Ok? && r < |rows|
    ensures var col := DecodeColumn(rnd, rows, field).value;
            && WellFormed(col) && ColumnLength(col) == |rows|
            && ValueAt(col, r) == Ok(CutMember(rnd, field, rows[r]))
  {
    DecodedColumn(rnd, rows, field);
    RenderRead(rnd, field, rows[r]);
    ValueOfReadBack(DecodeColumn(rnd, rows, field).value, r);
  }

  // ---------------------------------------------------------------- decode, then encode

  /** Cell by cell, the batch prints as the rows cut to the schema. */
  ghost predicate PrintsAsCut(rnd: Rounding, rows: seq<Value>, schema: Schema, batch: Batch) {
    && Encodable(schema, batch) && batch.rows == |rows|
    && forall f, r :: 0 <= f < |schema| && 0 <= r < |rows| ==>
         ValueAt(batch.columns[f], r) == Ok(CutMember(rnd, schema[f], rows[r]))
  }

  lemma DecodedPrintsAsCut(rnd: Rounding, rows: seq<Value>, schema: Schema, batch: Batch)
    requires DecodeBatch(rnd, rows, schema) == Ok(batch)
    ensures PrintsAsCut(rnd, rows, schema, batch)
  {
    DecodedBatch(rnd, rows, schema);
    forall f, r | 0 <= f < |schema| && 0 <= r < |rows|
      ensures ValueAt(batch.columns[f], r) == Ok(CutMember(rnd, schema[f], rows[r]))
    {
      DecodedValue(rnd, rows, schema[f], r);
    }
  }

  lemma NamesStep(schema: Schema, k: nat)
    requires 0 < k <= |schema|
    ensures Names(schema[..k]) == Names(schema[..k - 1]) + {schema[k - 1].name}
  {
    forall name | name in Names(schema[..k - 1]) + {schema[k - 1].name}
      ensures name in Names(schema[..k])
    {
      if name in Names(schema[..k - 1]) {
        var f :| 0 <= f < k - 1 && schema[..k - 1][f].name == name;
        assert schema[..k][f].name == name;
      } else {
        assert schema[..k][k - 1].name == name;
      }
    }
    forall name | name in Names(schema[..k])
      ensures name in Names(schema[..k - 1]) + {schema[k - 1].name}
    {
      var f :| 0 <= f < k && schema[..k][f].name == name;
      if f < k - 1 { assert schema[..k - 1][f].name == name; }
    }
  }

  lemma LastNamedStep(schema: Schema, k: nat, name: string)
    requires 0 < k <= |schema| && name in Names(schema[..k])
    ensures name == schema[k - 1].name ==> LastNamed(schema[..k], name) == k - 1
    ensures name != schema[k - 1].name ==>
              name in Names(schema[..k - 1]) && LastNamed(schema[..k], name) == LastNamed(schema[..k - 1], name)
  {
    NamesStep(schema, k);
    assert schema[..k][k - 1] == schema[k - 1];
    assert schema[..k][..k - 1] == schema[..k - 1];
  }

  lemma CutMembersStep(rnd: Rounding, schema: Schema, row: Value, k: nat)
    requires 0 < k <= |schema|
    ensures CutMembers(rnd, schema[..k], row)
         == CutMembers(rnd, schema[..k - 1], row)[schema[k - 1].name := CutMember(rnd, schema[k - 1], row)]
  {
    var last := schema[k - 1];
    var all, front := schema[..k], schema[..k - 1];
    NamesStep(schema, k);
    forall name | name in Names(all)
      ensures all[LastNamed(all, name)] == if name == last.name then last else front[LastNamed(front, name)]
    {
      LastNamedStep(schema, k, name);
    }
  }

  lemma {:induction false} MembersOfCut(rnd: Rounding, rows: seq<Value>, schema: Schema, batch: Batch, r: nat, k: nat)
    requires PrintsAsCut(rnd, rows, schema, batch)
    requires r < |rows| && k <= |schema|
    ensures Members(schema, batch, r, k) == Ok(CutMembers(rnd, schema[..k], rows[r]))
  {
    if k > 0 {
      MembersOfCut(rnd, rows, schema, batch, r, k - 1);
      CutMembersStep(rnd, schema, rows[r], k);
    }
  }

  lemma RowOfCut(rnd: Rounding, rows: seq<Value>, schema: Schema, batch: Batch, n: nat)
    requires PrintsAsCut(rnd, rows, schema, batch) && n < |rows|
    requires RowsUpTo(schema, batch, n).Ok?
    ensures RowsUpTo(schema, batch, n + 1) == Ok(RowsUpTo(schema, batch, n).value + [CutRow(rnd, schema, rows[n])])
  {
    MembersOfCut(rnd, rows, schema, batch, n, |schema|);
    assert schema[..|schema|] == schema;
  }

  lemma {:induction false} RowsOfCut(rnd: Rounding, rows: seq<Value>, schema: Schema, batch: Batch, n: nat)
    requires PrintsAsCut(rnd, rows, schema, batch)
    requires n <= |rows|
    ensures RowsUpTo(schema, batch, n) == Ok(seq(n, r requires 0 <= r < n => CutRow(rnd, schema, rows[r])))
  {
    if n > 0 {
      RowsOfCut(rnd, rows, schema, batch, n - 1);
      RowOfCut(rnd, rows, schema, batch, n - 1);
    }
    assert RowsUpTo(schema, batch, n).value == seq(n, r requires 0 <= r < n => CutRow(rnd, schema, rows[r]));
  }

  /** Whatever was decoded is printed as the input cut to the schema, row by row. */
  lemma EncodeAfterDecode(rnd: Rounding, rows: seq<Value>, schema: Schema, batch: Batch)
    requires DecodeBatch(rnd, rows, schema) == Ok(batch)
    ensures AllEncodable(schema, [batch])
    ensures EncodeRows(schema, [batch]) == Ok(seq(|rows|, r requires 0 <= r < |rows| => CutRow(rnd, schema, rows[r])))
  {
    DecodedPrintsAsCut(rnd, rows, schema, batch);
    RowsOfCut(rnd, rows, schema, batch, |rows|);
    assert BatchesUpTo(schema, [batch], 0) == Ok([]);
    var printed := RowsUpTo(schema, batch, |rows|).value;
    assert EncodeRows(schema, [batch]) == Ok([] + printed);
    assert [] + printed == seq(|rows|, r requires 0 <= r < |rows| => CutRow(rnd, schema, rows[r]));
  }

  // ---------------------------------------------------------------- encode, then decode

  /** No number of the value overflows the float format of its field. */
  ghost predicate RoundsFinite(rnd: Rounding, dt: DataType, v: Value) {
    match dt
    case Float32 => v.Num? ==> rnd.narrow(AsF64(rnd, v).value).Finite?
    case FixedSizeList(_, _) =>
      v.Arr? ==> forall i :: 0 <= i < |v.items| && v.items[i].Num? ==>
                   rnd.narrow(AsF64(rnd, v.items[i]).value).Finite?
    case _ => true
  }

  ghost predicate MemberRoundsFinite(rnd: Rounding, field: Field, row: Value) {
    row.Obj? && field.name in row.members ==> RoundsFinite(rnd, field.dataType, row.members[field.name])
  }

  ghost predicate NoOverflow(rnd: Rounding, schema: Schema, rows: seq<Value>) {
    forall f, r :: 0 <= f < |schema| && 0 <= r < |rows| ==> MemberRoundsFinite(rnd, schema[f], rows[r])
  }

  ghost predicate DistinctNames(schema: Schema) {
    forall f, g :: 0 <= f < g < |schema| ==> schema[f].name != schema[g].name
  }

  lemma FloatsReread(rnd: Rounding, items: seq<Value>, name: string)
    requires Lawful(rnd) && ExpectFloats(rnd, items, name).Ok?
    ensures ExpectFloats(rnd, RenderFloats(ExpectFloats(rnd, items, name).value), name)
              == ExpectFloats(rnd, items, name)
            <==> forall i :: 0 <= i < |items| && items[i].Num? ==> rnd.narrow(AsF64(rnd, items[i]).value).Finite?
  {
    FloatsRead(rnd, items, name);
    var floats := ExpectFloats(rnd, items, name).value;
    var printed := RenderFloats(floats);
    if forall i :: 0 <= i < |items| && items[i].Num? ==> rnd.narrow(AsF64(rnd, items[i]).value).Finite? {
      assert forall i :: 0 <= i < |items| ==> printed[i].Num?;
      FloatsOk(rnd, printed, name);
      FloatsRead(rnd, printed, name);
      forall i | 0 <= i < |items|
        ensures ExpectFloats(rnd, printed, name).value[i] == floats[i]
      {
        var x := AsF64(rnd, items[i]).value;
        assert floats[i] == Some(rnd.narrow(x));
        assert rnd.narrow(rnd.narrow(x).r) == rnd.narrow(x);
        assert printed[i] == Num(Decimal(rnd.narrow(x).r));
        assert ExpectFloats(rnd, printed, name).value[i] == Some(rnd.narrow(AsF64(rnd, printed[i]).value));
      }
      assert ExpectFloats(rnd, printed, name).value == floats;
    }
    if ExpectFloats(rnd, printed, name) == Ok(floats) {
      FloatsRead(rnd, printed, name);
      forall i | 0 <= i < |items| && items[i].Num?
        ensures rnd.narrow(AsF64(rnd, items[i]).value).Finite?
      {
        assert floats[i] == Some(rnd.narrow(AsF64(rnd, items[i]).value));
        assert printed[i].Num?;
      }
    }
  }

  predicate StoresFloats(dt: DataType) {
    dt.Float64? || dt.Float32?
  }

  /**
   Whether a field of type `dt` reads the value it stored back from the member printed by the last
   field of its name, of type `last`. Integer fields cannot read the decimals a float field prints.
   */
  ghost predicate Survives(rnd: Rounding, dt: DataType, last: DataType, v: Value) {
    match last
    case Float64 => v.Num? ==> StoresFloats(dt)
    case Float32 =>
      v.Num? ==>
        var x := AsF64(rnd, v).value;
        rnd.narrow(x).Finite? && StoresFloats(dt) && (dt.Float64? ==> rnd.narrow(x) == Finite(x))
    case _ => RoundsFinite(rnd, last, v)
  }

  ghost predicate MemberSurvives(rnd: Rounding, dt: DataType, last: Field, row: Value) {
    row.Obj? && last.name in row.members && !row.members[last.name].Null? ==>
      Survives(rnd, dt, last.dataType, row.members[last.name])
  }

  /** The field whose value is printed for field `f`: the last of its name. */
  ghost function PrintedFor(schema: Schema, f: nat): (last: Field)
    requires f < |schema|
    ensures last.name == schema[f].name
    ensures exists g :: f <= g < |schema| && last == schema[g]
  {
    assert schema[f].name in Names(schema);
    schema[LastNamed(schema, schema[f].name)]
  }

  ghost predicate SurvivesAt(rnd: Rounding, schema: Schema, f: nat, row: Value)
    requires f < |schema|
  {
    MemberSurvives(rnd, schema[f].dataType, PrintedFor(schema, f), row)
  }

  /** Every member survives being printed by the last field of its name. */
  ghost predicate AllSurvive(rnd: Rounding, schema: Schema, rows: seq<Value>) {
    forall f, r :: 0 <= f < |schema| && 0 <= r < |rows| ==> SurvivesAt(rnd, schema, f, rows[r])
  }

  /** A vector is read back as the same slot exactly when no float in it overflowed. */
  lemma VectorReread(rnd: Rounding, field: Field, row: Value)
    requires Lawful(rnd) && IsVector(field.dataType) && field.dataType.size >= 0
    requires row.Obj? && field.name in row.members && row.members[field.name].Arr?
    requires ReadSlot(rnd, field, row).Ok?
    ensures ReadSlot(rnd, field, Obj(map[field.name := CutMember(rnd, field, row)])) == ReadSlot(rnd, field, row)
            <==> RoundsFinite(rnd, field.dataType, row.members[field.name])
  {
    RenderRead(rnd, field, row);
    var items := row.members[field.name].items;
    FloatsReread(rnd, items, field.name);
    var floats := ExpectFloats(rnd, items, field.name);
    assert CutMember(rnd, field, row) == Arr(RenderFloats(floats.value));
  }

  /** A slot depends on the row's own member only. */
  lemma SlotOfMember(rnd: Rounding, field: Field, row: Value)
    requires Supported(field.dataType) && row.Obj? && field.name in row.members
    ensures ReadSlot(rnd, field, row) == ReadSlot(rnd, field, Obj(map[field.name := row.members[field.name]]))
  {
  }

  lemma ScalarReread(rnd: Rounding, field: Field, last: Field, row: Value)
    requires Lawful(rnd) && Supported(field.dataType) && Supported(last.dataType) && last.name == field.name
    requires !IsVector(last.dataType)
    requires row.Obj? && field.name in row.members && !row.members[field.name].Null?
    requires ReadSlot(rnd, field, row).Ok? && ReadSlot(rnd, last, row).Ok?
    ensures ReadSlot(rnd, field, Obj(map[field.name := CutMember(rnd, last, row)])) == ReadSlot(rnd, field, row)
            <==> Survives(rnd, field.dataType, last.dataType, row.members[field.name])
  {
    SlotOk(rnd, field, row);
    SlotOk(rnd, last, row);
    SlotOfMember(rnd, field, row);
  }

  /** Fields of one name and of different vector types, or a vector and a scalar type, store no value in common. */
  lemma SameVectors(rnd: Rounding, field: Field, last: Field, row: Value)
    requires Supported(field.dataType) && IsVector(last.dataType) && last.name == field.name
    requires field.dataType.FixedSizeList? ==> field.dataType.size >= 0
    requires last.dataType.size >= 0
    requires row.Obj? && field.name in row.members && !row.members[field.name].Null?
    requires ReadSlot(rnd, field, row).Ok? && ReadSlot(rnd, last, row).Ok?
    ensures field.dataType == last.dataType && row.members[field.name].Arr?
  {
    SlotOk(rnd, field, row);
    SlotOk(rnd, last, row);
  }

  /** One printed member is read back as the same slot exactly when it survives. */
  lemma SlotReread(rnd: Rounding, field: Field, last: Field, row: Value, printed: Value)
    requires Lawful(rnd) && Supported(field.dataType) && Supported(last.dataType) && last.name == field.name
    requires field.dataType.FixedSizeList? ==> field.dataType.size >= 0
    requires last.dataType.FixedSizeList? ==> last.dataType.size >= 0
    requires ReadSlot(rnd, field, row).Ok? && ReadSlot(rnd, last, row).Ok?
    requires printed.Obj? && field.name in printed.members
    requires printed.members[field.name] == CutMember(rnd, last, row)
    ensures ReadSlot(rnd, field, printed) == ReadSlot(rnd, field, row)
            <==> MemberSurvives(rnd, field.dataType, last, row)
  {
    SlotOfMember(rnd, field, printed);
    SlotOk(rnd, field, row);
    if field.name in row.members && !row.members[field.name].Null? {
      if IsVector(last.dataType) {
        SameVectors(rnd, field, last, row);
        assert CutMember(rnd, field, row) == CutMember(rnd, last, row);
        VectorReread(rnd, field, row);
      } else {
        ScalarReread(rnd, field, last, row);
      }
    }
  }

  lemma CutMemberOf(rnd: Rounding, schema: Schema, row: Value, f: nat)
    requires f < |schema|
    ensures CutRow(rnd, schema, row).Obj?
    ensures schema[f].name in CutRow(rnd, schema, row).members
    ensures CutRow(rnd, schema, row).members[schema[f].name] == CutMember(rnd, PrintedFor(schema, f), row)
  {
    assert schema[f].name in Names(schema);
  }

  lemma SameSlotsSameColumn(rnd: Rounding, field: Field, rows: seq<Value>, others: seq<Value>)
    requires Supported(field.dataType) && |rows| == |others|
    requires DecodeColumn(rnd, rows, field).Ok?
    requires forall r :: 0 <= r < |rows| ==> ReadSlot(rnd, field, others[r]) == ReadSlot(rnd, field, rows[r])
    ensures DecodeColumn(rnd, others, field) == DecodeColumn(rnd, rows, field)
  {
    SlotsOk(rnd, field, rows);
    SlotsOk(rnd, field, others);
    forall r | 0 <= r < |rows|
      ensures Acceptable(field, others[r])
    {
      SlotOk(rnd, field, others[r]);
    }
    assert ReadSlots(rnd, field, others).value == ReadSlots(rnd, field, rows).value;
  }

  lemma PrintedReread(rnd: Rounding, row: Value, schema: Schema, f: nat)
    requires Lawful(rnd) && AllSupported(schema) && SizesNonNegative(schema) && f < |schema|
    requires forall g :: 0 <= g < |schema| ==> ReadSlot(rnd, schema[g], row).Ok?
    ensures ReadSlot(rnd, schema[f], CutRow(rnd, schema, row)) == ReadSlot(rnd, schema[f], row)
            <==> SurvivesAt(rnd, schema, f, row)
  {
    CutMemberOf(rnd, schema, row, f);
    SlotReread(rnd, schema[f], PrintedFor(schema, f), row, CutRow(rnd, schema, row));
  }

  /**
   Decoding what the encoder printed gives the very same batch exactly when every value survives
   being printed by the last field of its name. For any schema, names repeated or not.
   */
  lemma DecodeAfterEncode(rnd: Rounding, rows: seq<Value>, schema: Schema, batch: Batch, printed: seq<Value>)
    requires Lawful(rnd) && DecodeBatch(rnd, rows, schema) == Ok(batch)
    requires AllEncodable(schema, [batch]) && EncodeRows(schema, [batch]) == Ok(printed)
    ensures DecodeBatch(rnd, printed, schema) == Ok(batch) <==> AllSurvive(rnd, schema, rows)
  {
    EncodeAfterDecode(rnd, rows, schema, batch);
    DecodedBatch(rnd, rows, schema);
    forall f, r | 0 <= f < |schema| && 0 <= r < |rows|
      ensures ReadSlot(rnd, schema[f], printed[r]) == ReadSlot(rnd, schema[f], rows[r])
              <==> SurvivesAt(rnd, schema, f, rows[r])
    {
      PrintedReread(rnd, rows[r], schema, f);
    }
    if AllSurvive(rnd, schema, rows) {
      SameRowsSameBatch(rnd, rows, schema, batch, printed);
    }
    if DecodeBatch(rnd, printed, schema) == Ok(batch) {
      SameBatchSameSlots(rnd, rows, schema, batch, printed);
    }
  }

  lemma SameBatchSameSlots(rnd: Rounding, rows: seq<Value>, schema: Schema, batch: Batch, others: seq<Value>)
    requires DecodeBatch(rnd, rows, schema) == DecodeBatch(rnd, others, schema) == Ok(batch)
    ensures |rows| == |others| && AllSupported(schema)
    ensures forall f, r :: 0 <= f < |schema| && 0 <= r < |rows| ==>
              ReadSlot(rnd, schema[f], others[r]) == ReadSlot(rnd, schema[f], rows[r])
  {
    DecodedBatch(rnd, rows, schema);
    DecodedBatch(rnd, others, schema);
    forall f, r | 0 <= f < |schema| && 0 <= r < |rows|
      ensures ReadSlot(rnd, schema[f], others[r]) == ReadSlot(rnd, schema[f], rows[r])
    {
      assert ReadBack(batch.columns[f], r) == ReadSlot(rnd, schema[f], others[r]).value;
    }
  }

  lemma DistinctSurvives(rnd: Rounding, row: Value, schema: Schema, f: nat)
    requires DistinctNames(schema) && f < |schema| && Supported(schema[f].dataType)
    requires ReadSlot(rnd, schema[f], row).Ok?
    ensures SurvivesAt(rnd, schema, f, row) <==> MemberRoundsFinite(rnd, schema[f], row)
  {
    var last := PrintedFor(schema, f);
    assert forall g :: f < g < |schema| ==> schema[g].name != last.name;
    assert last == schema[f];
    SlotOk(rnd, schema[f], row);
  }

  /** With distinct names the condition is that no number overflowed its 32-bit float field on the way in. */
  lemma DecodeAfterEncodeDistinct(rnd: Rounding, rows: seq<Value>, schema: Schema, batch: Batch, printed: seq<Value>)
    requires Lawful(rnd) && DistinctNames(schema)
    requires DecodeBatch(rnd, rows, schema) == Ok(batch)
    requires AllEncodable(schema, [batch]) && EncodeRows(schema, [batch]) == Ok(printed)
    ensures DecodeBatch(rnd, printed, schema) == Ok(batch) <==> NoOverflow(rnd, schema, rows)
  {
    DecodeAfterEncode(rnd, rows, schema, batch, printed);
    DecodedBatch(rnd, rows, schema);
    forall f, r | 0 <= f < |schema| && 0 <= r < |rows|
      ensures SurvivesAt(rnd, schema, f, rows[r]) <==> MemberRoundsFinite(rnd, schema[f], rows[r])
    {
      DistinctSurvives(rnd, rows[r], schema, f);
    }
  }

  lemma SameRowsSameBatch(rnd: Rounding, rows: seq<Value>, schema: Schema, batch: Batch, others: seq<Value>)
    requires AllSupported(schema) && |rows| == |others|
    requires DecodeBatch(rnd, rows, schema) == Ok(batch)
    requires forall f, r :: 0 <= f < |schema| && 0 <= r < |rows| ==>
               ReadSlot(rnd, schema[f], others[r]) == ReadSlot(rnd, schema[f], rows[r])
    ensures DecodeBatch(rnd, others, schema) == Ok(batch)
  {
    ColumnsOk(rnd, rows, schema);
    forall f | 0 <= f < |schema|
      ensures DecodeColumn(rnd, others, schema[f]) == DecodeColumn(rnd, rows, schema[f])
    {
      SameSlotsSameColumn(rnd, schema[f], rows, others);
    }
    ColumnsOk(rnd, others, schema);
    FinalCheckPasses(rnd, rows, schema);
    FinalCheckPasses(rnd, others, schema);
    assert DecodeColumns(rnd, others, schema).value == DecodeColumns(rnd, rows, schema).value;
  }

  // ---------------------------------------------------------------- what is exact, and what is not

  /** A value a float field stores without rounding: decimals only, and f32 decimals in the 32-bit fields. */
  ghost predicate Exact(rnd: Rounding, dt: DataType, v: Value) {
    match dt
    case Float64 => v.Num? ==> v.n.Decimal?
    case Float32 => v.Num? ==> v.n.Decimal? && rnd.narrow(v.n.f) == Finite(v.n.f)
    case FixedSizeList(_, _) =>
      v.Arr? ==> forall i :: 0 <= i < |v.items| && v.items[i].Num? ==>
                   v.items[i].n.Decimal? && rnd.narrow(v.items[i].n.f) == Finite(v.items[i].n.f)
    case _ => true
  }

  /** A value survives unchanged exactly when its field stores it without rounding. */
  lemma UnchangedExactly(rnd: Rounding, dt: DataType, v: Value)
    ensures Canonical(rnd, dt, v) == v <==> Exact(rnd, dt, v)
  {
    if dt.FixedSizeList? && v.Arr? {
      var c := Canonical(rnd, dt, v);
      assert c.items == v.items <==> forall i :: 0 <= i < |v.items| ==> Narrowed(rnd, v.items[i]) == v.items[i];
    }
  }

  /** An instance of the condition failing: a 64-bit and a 32-bit float field of one name. */
  lemma DuplicateNamesLoseValues(rnd: Rounding, x: real)
    requires Lawful(rnd) && rnd.narrow(x).Finite? && rnd.narrow(x) != Finite(x)
    ensures var schema := [Field("a", Float64, true), Field("a", Float32, true)];
            var rows := [Obj(map["a" := Num(Decimal(x))])];
            && DecodeBatch(rnd, rows, schema).Ok?
            && AllEncodable(schema, [DecodeBatch(rnd, rows, schema).value])
            && EncodeRows(schema, [DecodeBatch(rnd, rows, schema).value]).Ok?
            && DecodeBatch(rnd, EncodeRows(schema, [DecodeBatch(rnd, rows, schema).value]).value, schema)
                 != DecodeBatch(rnd, rows, schema)
  {
    var wide, narrow := Field("a", Float64, true), Field("a", Float32, true);
    var schema, rows := [wide, narrow], [Obj(map["a" := Num(Decimal(x))])];
    forall f, r | 0 <= f < |schema| && 0 <= r < |rows| ensures Acceptable(schema[f], rows[r]) {}
    DecodeSucceedsExactly(rnd, rows, schema);
    var batch := DecodeBatch(rnd, rows, schema).value;
    EncodeAfterDecode(rnd, rows, schema, batch);
    assert PrintedFor(schema, 0) == narrow;
    assert !SurvivesAt(rnd, schema, 0, rows[0]);
    DecodeAfterEncode(rnd, rows, schema, batch, EncodeRows(schema, [batch]).value);
  }
}
