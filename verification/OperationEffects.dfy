/**
 What each operation does to its table and what it answers, told from its request and the libraries
 alone. The lemmas are about `Perform`, which every reply and table of a run comes from.
 */
module OperationEffects {
  import opened Prelude
  import opened Text
  import opened JsonValues
  import opened Columnar
  import opened TableSchema
  import opened JsonDecode
  import opened DecodeTheorems
  import opened JsonEncode
  import opened EngineOps

  // ---------------------------------------------------------------- refused before anything else

  ghost predicate Admissible(c: Config, req: Request) {
    && Trim(req.table) != ""
    && match req
       case CreateTable(_, columns, _) =>
         columns != [] && forall i :: 0 <= i < |columns| ==> GoodColumn(columns[i])
       case Upsert(_, _, data, _) => |data| <= c.options.maxUpsertPayload
       case Search(_, vector, _, _, _, _) => vector != []
       case Delete(_, condition) => Trim(condition) != ""
       case DropTable(_) => true
  }

  ghost predicate RefusedFor(req: Request, why: Refused) {
    if Trim(req.table) == "" then why == EmptyTableName
    else
      match req
      case CreateTable(_, columns, _) =>
        if columns == [] then why == NoColumnDefs
        else
          why.BadSchema?
          && exists i :: 0 <= i < |columns| && ColumnFaultIs(columns[i], why.e)
                         && forall j :: 0 <= j < i ==> GoodColumn(columns[j])
      case Upsert(_, _, _, _) => why == PayloadTooLarge
      case Search(_, _, _, _, _, _) => why == EmptyVector
      case Delete(_, _) => why == EmptyCondition
      case DropTable(_) => false
  }

  /** Which requests are refused up front, and why. */
  lemma RefusedExactly(c: Config, req: Request)
    ensures Refusal(c, req).None? <==> Admissible(c, req)
    ensures Refusal(c, req).Some? ==>
              && Refusal(c, req).value.InvalidArgument?
              && RefusedFor(req, Refusal(c, req).value.refused)
  {
    if req.CreateTable? {
      SchemaBuilt(req.columns);
      if ArrowSchema(req.columns).Err? {
        var i := SchemaFault(req.columns);
      }
    }
  }

  // ---------------------------------------------------------------- the rows an upsert is given

  ghost predicate BatchRowAt(batches: seq<GoodBatch>, rows: seq<Row>, b: nat, r: nat)
    requires b < |batches| && r < batches[b].rows
  {
    && CountRows(batches[..b]) + r < |rows|
    && var row := rows[CountRows(batches[..b]) + r];
       && |row| == |batches[b].columns|
       && forall k :: 0 <= k < |row| ==> row[k] == ReadBack(batches[b].columns[k], r)
  }

  /** The rows of all batches, batch after batch, cell by cell. */
  ghost predicate HoldBatches(batches: seq<GoodBatch>, rows: seq<Row>) {
    && |rows| == CountRows(batches)
    && forall b, r :: 0 <= b < |batches| && 0 <= r < batches[b].rows ==> BatchRowAt(batches, rows, b, r)
  }

  lemma {:induction false} RowsOfHold(batches: seq<GoodBatch>)
    ensures HoldBatches(batches, RowsOf(batches))
  {
    if |batches| > 0 {
      var n := |batches| - 1;
      var front := batches[..n];
      RowsOfHold(front);
      forall b, r | 0 <= b < |batches| && 0 <= r < batches[b].rows
        ensures BatchRowAt(batches, RowsOf(batches), b, r)
      {
        if b < n {
          assert front[..b] == batches[..b];
          assert BatchRowAt(front, RowsOf(front), b, r);
        }
      }
    }
  }

  /** What one JSON row says of one field. */
  ghost predicate CellHeld(rnd: Rounding, field: Field, value: Value, slot: Option<Item>) {
    match slot
    case None => GivesNone(field, value) && field.nullable
    case Some(item) =>
      && value.Obj? && field.name in value.members && !value.members[field.name].Null?
      && StoredAs(rnd, field.dataType, value.members[field.name], item)
  }

  ghost predicate ValueRow(rnd: Rounding, schema: Schema, value: Value, row: Row) {
    |row| == |schema| && forall f :: 0 <= f < |schema| ==> CellHeld(rnd, schema[f], value, row[f])
  }

  /** One row for each JSON row, in order. */
  ghost predicate HoldValues(rnd: Rounding, schema: Schema, values: seq<Value>, rows: seq<Row>) {
    |rows| == |values| && forall r :: 0 <= r < |rows| ==> ValueRow(rnd, schema, values[r], rows[r])
  }

  /** The JSON rows of a payload; an empty payload has none. */
  ghost predicate Parses(c: Config, data: Bytes, values: seq<Value>) {
    if data == [] then values == [] else c.lib.parseJson(data) == Some(values)
  }

  /** The payload of an upsert gives these rows. */
  ghost predicate GivesRows(c: Config, req: Request, schema: Schema, rows: seq<Row>)
    requires req.Upsert?
  {
    if req.inputFormat.InputArrowIpc? then
      exists batches :: c.lib.readIpc(req.data) == Some(batches) && HoldBatches(batches, rows)
    else
      exists values :: Parses(c, req.data, values) && HoldValues(c.lib.rnd, schema, values, rows)
  }

  lemma OneBatch(batch: GoodBatch)
    ensures RowsOf([batch]) == BatchRows(batch)
  {
    var batches: seq<GoodBatch> := [batch];
    assert batches[..0] == [];
    assert RowsOf(batches) == [] + BatchRows(batch);
  }

  lemma DecodedRowsHold(rnd: Rounding, schema: Schema, values: seq<Value>, batch: GoodBatch)
    requires DecodeBatch(rnd, values, schema) == Ok(batch)
    ensures HoldValues(rnd, schema, values, BatchRows(batch))
  {
    DecodedBatch(rnd, values, schema);
    forall r, f | 0 <= r < |values| && 0 <= f < |schema|
      ensures CellHeld(rnd, schema[f], values[r], BatchRows(batch)[r][f])
    {
      SlotMeans(rnd, schema[f], values[r]);
    }
  }

  lemma DecodedInputGives(c: Config, req: Request, schema: Schema, batches: seq<GoodBatch>, n: nat)
    requires req.Upsert? && DecodeInput(c.lib, req.inputFormat, req.data, schema) == Ok((batches, n))
    ensures GivesRows(c, req, schema, RowsOf(batches)) && n == |RowsOf(batches)|
  {
    if req.inputFormat.InputArrowIpc? {
      RowsOfHold(batches);
    } else {
      var values := if req.data == [] then [] else c.lib.parseJson(req.data).value;
      assert Parses(c, req.data, values);
      DecodedBatch(c.lib.rnd, values, schema);
      var batch: GoodBatch := DecodeBatch(c.lib.rnd, values, schema).value;
      assert batches == [batch];
      OneBatch(batch);
      DecodedRowsHold(c.lib.rnd, schema, values, batch);
    }
  }

  // ---------------------------------------------------------------- upsert

  /** What an upsert of the rows makes of the table, and what it reports. */
  ghost predicate UpsertedRows(
      c: Config, req: Request, table: Table, rows: seq<Row>, reply: Reply, after: Option<Table>)
    requires req.Upsert?
  {
    if |rows| == 0 then
      reply == Wrote(NoRowsToWrite, table.version, 0, 0, 0, 0) && after == Some(table)
    else if req.keys == [] then
      && reply == Wrote(AppendCompleted, table.version + 1, |rows|, |rows|, 0, 0)
      && after == Some(Table(table.schema, table.rows + rows, table.version + 1))
    else
      var m := c.lib.merge(table, req.keys, rows);
      && reply == Wrote(MergeCompleted, table.version + 1, |rows|, m.inserted, m.updated, m.deleted)
      && after == Some(Table(table.schema, m.rows, table.version + 1))
  }

  /** A completed upsert writes exactly the rows its payload gives, of whatever format, and reports them. */
  lemma UpsertEffect(c: Config, req: Request, table: Table) returns (rows: seq<Row>)
    requires Refusal(c, req).None? && req.Upsert?
    requires DecodeInput(c.lib, req.inputFormat, req.data, table.schema).Ok?
    ensures GivesRows(c, req, table.schema, rows)
    ensures var (outcome, after) := Perform(c, req, Some(table), Completes);
            outcome.Replied? && UpsertedRows(c, req, table, rows, outcome.reply, after)
  {
    var (batches, n) := DecodeInput(c.lib, req.inputFormat, req.data, table.schema).value;
    DecodedInputGives(c, req, table.schema, batches, n);
    rows := RowsOf(batches);
  }

  /** The Arrow IPC case in full: the rows of every batch of the stream, in order. */
  lemma ArrowUpsertEffect(c: Config, req: Request, table: Table, batches: seq<GoodBatch>) returns (rows: seq<Row>)
    requires Refusal(c, req).None? && req.Upsert?
    requires req.inputFormat.InputArrowIpc? && c.lib.readIpc(req.data) == Some(batches)
    ensures HoldBatches(batches, rows)
    ensures var (outcome, after) := Perform(c, req, Some(table), Completes);
            outcome.Replied? && UpsertedRows(c, req, table, rows, outcome.reply, after)
  {
    rows := UpsertEffect(c, req, table);
  }

  ghost predicate AllAcceptable(schema: Schema, values: seq<Value>) {
    |schema| > 0 && forall f :: 0 <= f < |schema| ==> GoodField(schema[f], values)
  }

  /** The JSON case in full, where every row is acceptable for every field of the table. */
  lemma JsonUpsertEffect(c: Config, req: Request, table: Table, values: seq<Value>) returns (rows: seq<Row>)
    requires Refusal(c, req).None? && req.Upsert?
    requires !req.inputFormat.InputArrowIpc? && Parses(c, req.data, values)
    requires AllAcceptable(table.schema, values)
    ensures HoldValues(c.lib.rnd, table.schema, values, rows)
    ensures var (outcome, after) := Perform(c, req, Some(table), Completes);
            outcome.Replied? && UpsertedRows(c, req, table, rows, outcome.reply, after)
  {
    GoodValuesDecode(c, req, table.schema, values);
    rows := UpsertEffect(c, req, table);
  }

  lemma GoodValuesDecode(c: Config, req: Request, schema: Schema, values: seq<Value>)
    requires req.Upsert? && !req.inputFormat.InputArrowIpc? && Parses(c, req.data, values)
    ensures DecodeInput(c.lib, req.inputFormat, req.data, schema).Ok? <==> AllAcceptable(schema, values)
  {
    DecodeSucceedsExactly(c.lib.rnd, values, schema);
    if AllAcceptable(schema, values) {
      assert forall f :: 0 <= f < |schema| ==> GoodField(schema[f], values);
    }
  }

  /** The answer for JSON rows the table does not take: that of the first bad field, and in it the first bad row. */
  ghost predicate RejectedFor(schema: Schema, values: seq<Value>, error: EngineError) {
    if |schema| == 0 then error == Internal(BatchRejected(RejectedBatch(NoColumns)))
    else
      exists f :: 0 <= f < |schema| && FirstBadField(schema, values, f) && FieldRejected(schema[f], values, error)
  }

  ghost predicate FirstBadField(schema: Schema, values: seq<Value>, f: nat) {
    f < |schema| && !GoodField(schema[f], values) && forall g :: 0 <= g < f ==> GoodField(schema[g], values)
  }

  ghost predicate FieldRejected(field: Field, values: seq<Value>, error: EngineError) {
    if !Supported(field.dataType) then
      error == InvalidArgument(Undecodable(UnsupportedType(field.name, field.dataType)))
    else if field.dataType.FixedSizeList? && field.dataType.size < 0 then error == Internal(DecodePanicked)
    else
      && error.InvalidArgument? && error.refused.Undecodable?
      && exists r :: 0 <= r < |values| && !Acceptable(field, values[r])
                     && (forall q :: 0 <= q < r ==> Acceptable(field, values[q]))
                     && FaultIs(field, values[r], error.refused.d)
  }

  lemma BadValuesRejected(c: Config, schema: Schema, values: seq<Value>, f: nat)
    requires FirstBadField(schema, values, f)
    ensures DecodeBatch(c.lib.rnd, values, schema).Err?
    ensures var field, e := schema[f], DecodeBatch(c.lib.rnd, values, schema).error;
            if Supported(field.dataType) && field.dataType.FixedSizeList? && field.dataType.size < 0
            then e == BuilderPanics(field.name)
            else !e.BuilderPanics? && !e.RejectedBatch? && FieldRejected(field, values, InvalidArgument(Undecodable(e)))
  {
    FirstBadFieldDecides(c.lib.rnd, values, schema, f);
    var field := schema[f];
    if Supported(field.dataType) && (field.dataType.FixedSizeList? ==> field.dataType.size >= 0) {
      var r :| 0 <= r < |values| && !Acceptable(field, values[r])
               && (forall q :: 0 <= q < r ==> Acceptable(field, values[q]))
               && ReadSlot(c.lib.rnd, field, values[r]).Err?
               && DecodeBatch(c.lib.rnd, values, schema) == Err(ReadSlot(c.lib.rnd, field, values[r]).error);
      SlotMeans(c.lib.rnd, field, values[r]);
    }
  }

  lemma FindFirstBadField(schema: Schema, values: seq<Value>) returns (f: nat)
    requires exists g :: 0 <= g < |schema| && !GoodField(schema[g], values)
    ensures FirstBadField(schema, values, f)
  {
    f := 0;
    while GoodField(schema[f], values)
      invariant f < |schema|
      invariant forall g :: 0 <= g < f ==> GoodField(schema[g], values)
      invariant exists g :: 0 <= g < |schema| && !GoodField(schema[g], values)
      decreases |schema| - f
    {
      f := f + 1;
    }
  }

  /** Why an upsert writes nothing. */
  ghost predicate UpsertFails(c: Config, req: Request, t: Option<Table>, error: EngineError)
    requires req.Upsert?
  {
    if t.None? then error == Internal(TableNotFound)
    else if req.inputFormat.InputArrowIpc? then c.lib.readIpc(req.data).None? && error == Internal(UnreadableIpc)
    else if req.data != [] && c.lib.parseJson(req.data).None? then error == InvalidArgument(NotJsonRows)
    else exists values :: Parses(c, req.data, values) && RejectedFor(t.value.schema, values, error)
  }

  /** An upsert that does not get as far as writing says why, and leaves the table as it was. */
  lemma UpsertFailure(c: Config, req: Request, t: Option<Table>)
    requires Refusal(c, req).None? && req.Upsert?
    requires t.Some? ==> DecodeInput(c.lib, req.inputFormat, req.data, t.value.schema).Err?
    ensures var (outcome, after) := Perform(c, req, t, Completes);
            && after == t && outcome.Replied? && outcome.reply.Failed?
            && UpsertFails(c, req, t, outcome.reply.error)
  {
    if t.Some? && !req.inputFormat.InputArrowIpc? && (req.data == [] || c.lib.parseJson(req.data).Some?) {
      var schema := t.value.schema;
      var values := if req.data == [] then [] else c.lib.parseJson(req.data).value;
      assert Parses(c, req.data, values);
      GoodValuesDecode(c, req, schema, values);
      ValuesRejected(c, req, schema, values);
    }
  }

  lemma ValuesRejected(c: Config, req: Request, schema: Schema, values: seq<Value>)
    requires req.Upsert? && !req.inputFormat.InputArrowIpc? && Parses(c, req.data, values)
    requires !AllAcceptable(schema, values)
    ensures DecodeInput(c.lib, req.inputFormat, req.data, schema).Err?
    ensures RejectedFor(schema, values, DecodeInput(c.lib, req.inputFormat, req.data, schema).error)
  {
    GoodValuesDecode(c, req, schema, values);
    if |schema| > 0 {
      var f := FindFirstBadField(schema, values);
      BadValuesRejected(c, schema, values, f);
    }
  }

  // ---------------------------------------------------------------- search

  /** The query a search makes of its request. */
  ghost predicate Asks(options: Options, req: Request, q: Query)
    requires req.Search?
  {
    && q.vector == req.vector
    && q.column == (if Trim(req.vectorColumn) == "" then None else Some(Trim(req.vectorColumn)))
    && q.filter == (if Trim(req.filter) == "" then None else Some(Trim(req.filter)))
    && q.limit == (if req.limit == 0 then 10
                   else if req.limit <= options.maxSearchLimit then req.limit else options.maxSearchLimit)
  }

  lemma QueryAsked(c: Config, req: Request)
    requires req.Search?
    ensures Asks(c.options, req, QueryOf(c, req))
  {
  }

  /** A completed search gathers what its query gives on the table, and changes nothing. */
  lemma SearchEffect(c: Config, req: Request, t: Option<Table>, q: Query)
    requires Refusal(c, req).None? && req.Search? && Asks(c.options, req, q)
    ensures Perform(c, req, t, Completes)
         == if t.None? then (Replied(Failed(Internal(TableNotFound))), t)
            else (Gathered(c.lib.outputSchema(t.value, q), c.lib.nearest(t.value, q)), t)
  {
    QueryAsked(c, req);
  }

  /** A batch with rows has fewer columns than the output schema. */
  ghost predicate ColumnsMissing(output: Schema, batches: seq<GoodBatch>) {
    exists b :: 0 <= b < |batches| && batches[b].rows > 0 && |batches[b].columns| < |output|
  }

  /** The JSON rows of the batches, in order, each name with its last field. */
  ghost predicate JsonOf(output: Schema, batches: seq<GoodBatch>, rows: seq<Value>) {
    && AllEncodable(output, batches) && |rows| == CountRows(batches)
    && forall b, r :: 0 <= b < |batches| && 0 <= r < batches[b].rows ==> PrintedAt(output, batches, rows, b, r)
  }

  /** What a search answers from its batches: Arrow IPC unless JSON rows were asked for, and all rows counted. */
  ghost predicate AnswerOf(c: Config, format: OutputFormat, output: Schema, batches: seq<GoodBatch>, reply: Reply) {
    if !format.OutputJsonRows? then
      reply == Found(OutputArrowIpc, CountRows(batches), c.lib.writeIpc(output, batches))
    else if ColumnsMissing(output, batches) then reply == Failed(Internal(EncodePanicked))
    else if reply.Found? then
      && reply.format == OutputJsonRows && reply.rows == CountRows(batches)
      && exists rows :: JsonOf(output, batches, rows) && reply.data == c.lib.printJson(rows)
    else
      && reply.Failed? && reply.error.Internal? && reply.error.cause.NotEncodable?
      && AllEncodable(output, batches)
      && exists b: nat, r: nat, f: nat :: FirstUnprintable(output, batches, b, r, f)
           && ValueAt(batches[b].columns[f], r) == Err(reply.error.cause.n)
  }

  lemma ReplyIsAnswer(c: Config, format: OutputFormat, output: Schema, batches: seq<GoodBatch>)
    ensures AnswerOf(c, format, output, batches, EncodeReply(c, format, output, batches))
  {
    assert AllEncodable(output, batches) <==> !ColumnsMissing(output, batches);
    if format.OutputJsonRows? && AllEncodable(output, batches) {
      RowsPrintInOrder(output, batches);
      if EncodeRows(output, batches).Ok? {
        assert JsonOf(output, batches, EncodeRows(output, batches).value);
      }
    }
  }

  // ---------------------------------------------------------------- create, delete, drop

  ghost predicate MadeFrom(columns: seq<ColumnDef>, schema: Schema) {
    |schema| == |columns| && forall i :: 0 <= i < |columns| ==> FieldFor(columns[i], schema[i])
  }

  /** A completed create leaves an empty table with a field for each column, unless there was one to keep. */
  lemma CreateEffect(c: Config, req: Request, t: Option<Table>)
    requires Refusal(c, req).None? && req.CreateTable?
    ensures var (outcome, after) := Perform(c, req, t, Completes);
            if t.Some? && !req.overwrite then
              outcome == Replied(Failed(Internal(TableExists))) && after == t
            else
              && outcome == Replied(Created(Trim(req.table)))
              && after.Some? && MadeFrom(req.columns, after.value.schema) && after.value.rows == []
              && after.value.version == (if t.Some? then t.value.version + 1 else 1)
  {
    SchemaBuilt(req.columns);
  }

  /** A completed delete removes exactly the rows its condition matches, and reports how many. */
  lemma DeleteEffect(c: Config, req: Request, table: Table, row: Row)
    requires Refusal(c, req).None? && req.Delete?
    ensures var (outcome, after) := Perform(c, req, Some(table), Completes);
            && after.Some? && after.value.schema == table.schema && after.value.version == table.version + 1
            && |after.value.rows| <= |table.rows|
            && outcome == Replied(Deleted(table.version + 1, |table.rows| - |after.value.rows|))
            && multiset(after.value.rows)[row]
                 == if c.lib.matches(Trim(req.condition), row) then 0 else multiset(table.rows)[row]
  {
    DeleteKeepsTheOthers(c.lib, Trim(req.condition), table.rows, row);
  }

  lemma DropEffect(c: Config, req: Request, t: Option<Table>)
    requires Refusal(c, req).None? && req.DropTable?
    ensures Perform(c, req, t, Completes)
         == (Replied(if t.Some? then Dropped(Trim(req.table)) else Failed(Internal(TableNotFound))), None)
  {
  }

  lemma MissingTable(c: Config, req: Request)
    requires Refusal(c, req).None? && !req.CreateTable?
    ensures Perform(c, req, None, Completes) == (Replied(Failed(Internal(TableNotFound))), None)
  {
  }

  // ---------------------------------------------------------------- when it does not run through

  /** All of the operation was done to its table or nothing, and its client told so, or of a failure, or nothing. */
  ghost predicate AllOrNone(
      t: Option<Table>, whole: (Outcome, Option<Table>), fate: Fate, result: (Outcome, Option<Table>))
  {
    && (result.1 == t || result.1 == whole.1)
    && (|| result == whole
        || (fate.BreaksAt? && result.0 == Replied(Failed(Internal(LibraryFailure(fate.message)))))
        || (fate.DroppedAt? && result.0 == Abandoned))
    && (!fate.Completes? && fate.steps == 0 ==> result.1 == t)
  }

  lemma UpsertAllOrNone(c: Config, req: Request, t: Option<Table>, fate: Fate)
    requires Refusal(c, req).None? && req.Upsert?
    ensures AllOrNone(t, PerformUpsert(c, req, t, Completes), fate, PerformUpsert(c, req, t, fate))
  {
  }

  /** However an operation ends, it is all or nothing to its table. */
  lemma AllOrNothing(c: Config, req: Request, t: Option<Table>, fate: Fate)
    requires Refusal(c, req).None?
    ensures AllOrNone(t, Perform(c, req, t, Completes), fate, Perform(c, req, t, fate))
  {
    if req.Upsert? { UpsertAllOrNone(c, req, t, fate); }
  }
}
