/**
 The five table operations of one engine: what each refuses up front, what it does at each of its
 await points once it holds the table lock, and what it does as a whole.
 */
module EngineOps {
  import opened Prelude
  import opened Text
  import opened JsonValues
  import opened Columnar
  import opened TableSchema
  import opened JsonDecode
  import opened DecodeTheorems
  import opened JsonEncode

  type GoodBatch = b: Batch | WellFormedBatch(b) witness Batch([], [], 0)

  type Row = seq<Option<Item>>

  datatype Table = Table(schema: Schema, rows: seq<Row>, version: nat)

  type Database = map<string, Table>

  datatype InputFormat = InputUnspecified | InputJsonRows | InputArrowIpc

  datatype OutputFormat = OutputUnspecified | OutputArrowIpc | OutputJsonRows

  datatype Request =
    | CreateTable(table: string, columns: seq<ColumnDef>, overwrite: bool)
    | Upsert(table: string, inputFormat: InputFormat, data: Bytes, keys: seq<string>)
    | Search(table: string, vector: seq<Float>, limit: nat, filter: string, vectorColumn: string,
             outputFormat: OutputFormat)
    | Delete(table: string, condition: string)
    | DropTable(table: string)

  datatype Refused =
    | EmptyTableName | NoColumnDefs | BadSchema(e: SchemaError) | PayloadTooLarge | EmptyVector | EmptyCondition
    | NotJsonRows | Undecodable(d: DecodeError)

  datatype Cause =
    | LibraryFailure(message: string) | TableNotFound | TableExists | BatchRejected(d: DecodeError)
    | UnreadableIpc | DecodePanicked | EncodePanicked | NotEncodable(n: EncodeError)

  datatype EngineError = InvalidArgument(refused: Refused) | Internal(cause: Cause)

  datatype WriteKind = NoRowsToWrite | AppendCompleted | MergeCompleted

  datatype Reply =
    | Created(name: string)
    | Wrote(kind: WriteKind, version: nat, inputRows: nat, inserted: nat, updated: nat, deleted: nat)
    | Found(format: OutputFormat, rows: nat, data: Bytes)
    | Deleted(newVersion: nat, deletedRows: nat)
    | Dropped(droppedName: string)
    | Failed(error: EngineError)

  datatype Options = Options(maxUpsertPayload: nat, maxSearchLimit: nat, maxConcurrentRequests: nat)

  datatype Query = Query(vector: seq<Float>, column: Option<string>, limit: nat, filter: Option<string>)

  datatype MergeResult = MergeResult(rows: seq<Row>, inserted: nat, updated: nat, deleted: nat)

  /** What comes from the libraries, uninterpreted. */
  datatype Library = Library(
    rnd: Rounding,
    parseJson: Bytes -> Option<seq<Value>>,
    printJson: seq<Value> -> Bytes,
    readIpc: Bytes -> Option<seq<GoodBatch>>,
    writeIpc: (Schema, seq<GoodBatch>) -> Bytes,
    matches: (string, Row) -> bool,
    merge: (Table, seq<string>, seq<Row>) -> MergeResult,
    outputSchema: (Table, Query) -> Schema,
    nearest: (Table, Query) -> seq<GoodBatch>)

  datatype Config = Config(lib: Library, options: Options)

  // ---------------------------------------------------------------- before any await

  /** The name used for the lock and for the table alike. */
  function Target(req: Request): string {
    Trim(req.table)
  }

  function Refusal(c: Config, req: Request): Option<EngineError> {
    if Target(req) == "" then Some(InvalidArgument(EmptyTableName))
    else
      match req
      case CreateTable(_, columns, _) =>
        if columns == [] then Some(InvalidArgument(NoColumnDefs))
        else if ArrowSchema(columns).Err? then Some(InvalidArgument(BadSchema(ArrowSchema(columns).error)))
        else None
      case Upsert(_, _, data, _) =>
        if |data| > c.options.maxUpsertPayload then Some(InvalidArgument(PayloadTooLarge)) else None
      case Search(_, vector, _, _, _, _) =>
        if vector == [] then Some(InvalidArgument(EmptyVector)) else None
      case Delete(_, condition) =>
        if Trim(condition) == "" then Some(InvalidArgument(EmptyCondition)) else None
      case DropTable(_) => None
  }

  // ---------------------------------------------------------------- the pieces of the operations

  function DecodeInput(lib: Library, format: InputFormat, data: Bytes, schema: Schema)
    : Result<(seq<GoodBatch>, nat), EngineError>
  {
    if format.InputArrowIpc? then
      match lib.readIpc(data)
      case None => Err(Internal(UnreadableIpc))
      case Some(batches) => Ok((batches, CountRows(batches)))
    else
      match if data == [] then Some([]) else lib.parseJson(data)
      case None => Err(InvalidArgument(NotJsonRows))
      case Some(rows) =>
        match DecodeBatch(lib.rnd, rows, schema)
        case Err(RejectedBatch(fault)) => Err(Internal(BatchRejected(RejectedBatch(fault))))
        case Err(BuilderPanics(_)) => Err(Internal(DecodePanicked))
        case Err(e) => Err(InvalidArgument(Undecodable(e)))
        case Ok(batch) =>
          DecodedBatch(lib.rnd, rows, schema);
          var whole: seq<GoodBatch> := [batch];
          Ok((whole, batch.rows))
  }

  function BatchRows(batch: GoodBatch): (rows: seq<Row>)
    ensures |rows| == batch.rows
  {
    seq(batch.rows, r requires 0 <= r < batch.rows =>
      seq(|batch.columns|, k requires 0 <= k < |batch.columns| => ReadBack(batch.columns[k], r)))
  }

  /** The rows of all batches, in order. */
  function RowsOf(batches: seq<GoodBatch>): (rows: seq<Row>)
    ensures |rows| == CountRows(batches)
  {
    if |batches| == 0 then []
    else RowsOf(batches[..|batches| - 1]) + BatchRows(batches[|batches| - 1])
  }

  function Kept(lib: Library, condition: string, rows: seq<Row>): (kept: seq<Row>)
    ensures |kept| <= |rows|
  {
    if |rows| == 0 then []
    else
      var front := Kept(lib, condition, rows[..|rows| - 1]);
      if lib.matches(condition, rows[|rows| - 1]) then front else front + [rows[|rows| - 1]]
  }

  function WithAppended(table: Table, batches: seq<GoodBatch>): Table {
    Table(table.schema, table.rows + RowsOf(batches), table.version + 1)
  }

  function WithMerged(lib: Library, table: Table, keys: seq<string>, batches: seq<GoodBatch>): Table {
    Table(table.schema, lib.merge(table, keys, RowsOf(batches)).rows, table.version + 1)
  }

  function WithDeleted(lib: Library, table: Table, condition: string): Table {
    Table(table.schema, Kept(lib, Trim(condition), table.rows), table.version + 1)
  }

  /** A fresh table starts at version 1; overwriting is one more version of the table there was. */
  function Made(t: Option<Table>, schema: Schema): Table {
    Table(schema, [], if t.Some? then t.value.version + 1 else 1)
  }

  function SearchLimit(options: Options, limit: nat): nat {
    if limit == 0 then 10 else Min(limit, options.maxSearchLimit)
  }

  function Blank(s: string): Option<string> {
    if Trim(s) == "" then None else Some(Trim(s))
  }

  function QueryOf(c: Config, req: Request): Query
    requires req.Search?
  {
    Query(req.vector, Blank(req.vectorColumn), SearchLimit(c.options, req.limit), Blank(req.filter))
  }

  function NormalizeOutputFormat(format: OutputFormat): OutputFormat {
    if format.OutputUnspecified? then OutputArrowIpc else format
  }

  /** What a search answers from the batches it collected. */
  function EncodeReply(c: Config, format: OutputFormat, output: Schema, batches: seq<GoodBatch>): Reply {
    if NormalizeOutputFormat(format).OutputJsonRows? then
      if !AllEncodable(output, batches) then Failed(Internal(EncodePanicked))
      else
        match EncodeRows(output, batches)
        case Err(e) => Failed(Internal(NotEncodable(e)))
        case Ok(rows) => Found(OutputJsonRows, CountRows(batches), c.lib.printJson(rows))
    else Found(OutputArrowIpc, CountRows(batches), c.lib.writeIpc(output, batches))
  }

  // ---------------------------------------------------------------- step by step, under the lock

  /** How far a request has come since it entered, with what it keeps in its local variables. */
  datatype Progress =
    | Entered
    | Opened
    | SchemaRead(schema: Schema)
    | InputDecoded(decodeSchema: Schema, batches: seq<GoodBatch>, inputRows: nat)
    | SchemaReadAgain(decodeSchema: Schema, readerSchema: Schema, batches: seq<GoodBatch>, inputRows: nat)
    | RowsAppended(inputRows: nat, created: nat)
    | RowsMerged(inputRows: nat, created: nat, result: MergeResult)
    | RowsDeleted(created: nat, count: nat)
    | TableMade
    | TableDropped
    | QueryPlanned(output: Schema)
    | QueryRunning(output: Schema)

  datatype Outcome = Replied(reply: Reply) | Gathered(output: Schema, batches: seq<GoodBatch>) | Abandoned

  datatype Turn = Continue(progress: Progress, table: Option<Table>) | Return(outcome: Outcome, table: Option<Table>)

  /** Which points each kind of request passes through. */
  predicate Suits(req: Request, p: Progress) {
    match req
    case CreateTable(_, columns, _) => ArrowSchema(columns).Ok? && (p.Entered? || p.TableMade?)
    case Upsert(_, _, _, keys) =>
      || p.Entered? || p.Opened? || p.SchemaRead? || p.InputDecoded? || p.SchemaReadAgain?
      || (p.RowsAppended? && keys == []) || (p.RowsMerged? && keys != [])
    case Search(_, _, _, _, _, _) => p.Entered? || p.Opened? || p.QueryPlanned? || p.QueryRunning?
    case Delete(_, _) => p.Entered? || p.Opened? || p.RowsDeleted?
    case DropTable(_) => p.Entered? || p.TableDropped?
  }

  function StepsDone(p: Progress): (n: nat)
    ensures n <= 5
  {
    match p
    case Entered => 0
    case Opened => 1
    case SchemaRead(_) => 2
    case InputDecoded(_, _, _) => 3
    case SchemaReadAgain(_, _, _, _) => 4
    case RowsAppended(_, _) => 5
    case RowsMerged(_, _, _) => 5
    case RowsDeleted(_, _) => 2
    case TableMade => 1
    case TableDropped => 1
    case QueryPlanned(_) => 2
    case QueryRunning(_) => 3
  }

  function NotFound(t: Option<Table>): Turn {
    Return(Replied(Failed(Internal(TableNotFound))), t)
  }

  function CreateStep(req: Request, p: Progress, t: Option<Table>): Turn
    requires req.CreateTable? && Suits(req, p)
  {
    if p.Entered? then
      if t.Some? && !req.overwrite then Return(Replied(Failed(Internal(TableExists))), t)
      else Continue(TableMade, Some(Made(t, ArrowSchema(req.columns).value)))
    else Return(Replied(Created(Target(req))), t)
  }

  function UpsertStep(c: Config, req: Request, p: Progress, t: Option<Table>): Turn
    requires req.Upsert? && Suits(req, p)
  {
    if t.None? then NotFound(t)
    else
      match p
      case Entered => Continue(Opened, t)
      case Opened => Continue(SchemaRead(t.value.schema), t)
      case SchemaRead(schema) =>
        (match DecodeInput(c.lib, req.inputFormat, req.data, schema)
         case Err(e) => Return(Replied(Failed(e)), t)
         case Ok((batches, n)) => Continue(InputDecoded(schema, batches, n), t))
      case InputDecoded(schema, batches, n) =>
        if n == 0 then Return(Replied(Wrote(NoRowsToWrite, t.value.version, 0, 0, 0, 0)), t)
        else Continue(SchemaReadAgain(schema, t.value.schema, batches, n), t)
      case SchemaReadAgain(_, _, batches, n) =>
        if req.keys == [] then
          Continue(RowsAppended(n, t.value.version + 1), Some(WithAppended(t.value, batches)))
        else
          Continue(RowsMerged(n, t.value.version + 1, c.lib.merge(t.value, req.keys, RowsOf(batches))),
                   Some(WithMerged(c.lib, t.value, req.keys, batches)))
      // An append asks the table for its version; a merge was told the version it made.
      case RowsAppended(n, _) => Return(Replied(Wrote(AppendCompleted, t.value.version, n, n, 0, 0)), t)
      case RowsMerged(n, created, m) =>
        Return(Replied(Wrote(MergeCompleted, created, n, m.inserted, m.updated, m.deleted)), t)
  }

  function SearchStep(c: Config, req: Request, p: Progress, t: Option<Table>): Turn
    requires req.Search? && Suits(req, p)
  {
    if t.None? then NotFound(t)
    else
      match p
      case Entered => Continue(Opened, t)
      case Opened => Continue(QueryPlanned(c.lib.outputSchema(t.value, QueryOf(c, req))), t)
      case QueryPlanned(output) => Continue(QueryRunning(output), t)
      case QueryRunning(output) => Return(Gathered(output, c.lib.nearest(t.value, QueryOf(c, req))), t)
  }

  function DeleteStep(c: Config, req: Request, p: Progress, t: Option<Table>): Turn
    requires req.Delete? && Suits(req, p)
  {
    if t.None? then NotFound(t)
    else
      match p
      case Entered => Continue(Opened, t)
      case Opened =>
        var after := WithDeleted(c.lib, t.value, req.condition);
        Continue(RowsDeleted(after.version, |t.value.rows| - |after.rows|), Some(after))
      case RowsDeleted(created, count) => Return(Replied(Deleted(created, count)), t)
  }

  function DropStep(req: Request, p: Progress, t: Option<Table>): Turn
    requires req.DropTable? && Suits(req, p)
  {
    if p.Entered? then
      if t.None? then NotFound(t) else Continue(TableDropped, None)
    else Return(Replied(Dropped(Target(req))), t)
  }

  /** What the next database call of a request does to its table when nothing goes wrong. */
  function BodyStep(c: Config, req: Request, p: Progress, t: Option<Table>): (turn: Turn)
    requires Suits(req, p)
    ensures turn.Continue? ==> Suits(req, turn.progress) && StepsDone(turn.progress) == StepsDone(p) + 1
    ensures req.Search? ==> turn.table == t
  {
    match req
    case CreateTable(_, _, _) => CreateStep(req, p, t)
    case Upsert(_, _, _, _) => UpsertStep(c, req, p, t)
    case Search(_, _, _, _, _, _) => SearchStep(c, req, p, t)
    case Delete(_, _) => DeleteStep(c, req, p, t)
    case DropTable(_) => DropStep(req, p, t)
  }

  // ---------------------------------------------------------------- one at a time, as a whole

  /** How a request ends: by itself, by a library error, or dropped by its caller, after so many steps. */
  datatype Fate = Completes | BreaksAt(steps: nat, message: string) | DroppedAt(steps: nat)

  function Cut(fate: Fate, steps: nat): Option<Outcome> {
    match fate
    case Completes => None
    case BreaksAt(k, message) => if k == steps then Some(Replied(Failed(Internal(LibraryFailure(message))))) else None
    case DroppedAt(k) => if k == steps then Some(Abandoned) else None
  }

  function PerformCreate(req: Request, t: Option<Table>, fate: Fate): (Outcome, Option<Table>)
    requires req.CreateTable? && ArrowSchema(req.columns).Ok?
  {
    var made := Some(Made(t, ArrowSchema(req.columns).value));
    if Cut(fate, 0).Some? then (Cut(fate, 0).value, t)
    else if t.Some? && !req.overwrite then (Replied(Failed(Internal(TableExists))), t)
    else if Cut(fate, 1).Some? then (Cut(fate, 1).value, made)
    else (Replied(Created(Target(req))), made)
  }

  function PerformWrite(c: Config, req: Request, table: Table, batches: seq<GoodBatch>, n: nat, fate: Fate)
    : (Outcome, Option<Table>)
    requires req.Upsert?
  {
    if req.keys == [] then
      var after := WithAppended(table, batches);
      (if Cut(fate, 5).Some? then Cut(fate, 5).value
       else Replied(Wrote(AppendCompleted, after.version, n, n, 0, 0)),
       Some(after))
    else
      var after := WithMerged(c.lib, table, req.keys, batches);
      var m := c.lib.merge(table, req.keys, RowsOf(batches));
      (if Cut(fate, 5).Some? then Cut(fate, 5).value
       else Replied(Wrote(MergeCompleted, after.version, n, m.inserted, m.updated, m.deleted)),
       Some(after))
  }

  function PerformUpsert(c: Config, req: Request, t: Option<Table>, fate: Fate): (Outcome, Option<Table>)
    requires req.Upsert?
  {
    if Cut(fate, 0).Some? then (Cut(fate, 0).value, t)
    else if t.None? then (Replied(Failed(Internal(TableNotFound))), t)
    else if Cut(fate, 1).Some? then (Cut(fate, 1).value, t)
    else if Cut(fate, 2).Some? then (Cut(fate, 2).value, t)
    else
      match DecodeInput(c.lib, req.inputFormat, req.data, t.value.schema)
      case Err(e) => (Replied(Failed(e)), t)
      case Ok((batches, n)) =>
        if Cut(fate, 3).Some? then (Cut(fate, 3).value, t)
        else if n == 0 then (Replied(Wrote(NoRowsToWrite, t.value.version, 0, 0, 0, 0)), t)
        else if Cut(fate, 4).Some? then (Cut(fate, 4).value, t)
        else PerformWrite(c, req, t.value, batches, n, fate)
  }

  function PerformSearch(c: Config, req: Request, t: Option<Table>, fate: Fate): (Outcome, Option<Table>)
    requires req.Search?
  {
    if Cut(fate, 0).Some? then (Cut(fate, 0).value, t)
    else if t.None? then (Replied(Failed(Internal(TableNotFound))), t)
    else if Cut(fate, 1).Some? then (Cut(fate, 1).value, t)
    else if Cut(fate, 2).Some? then (Cut(fate, 2).value, t)
    else if Cut(fate, 3).Some? then (Cut(fate, 3).value, t)
    else
      (Gathered(c.lib.outputSchema(t.value, QueryOf(c, req)), c.lib.nearest(t.value, QueryOf(c, req))), t)
  }

  function PerformDelete(c: Config, req: Request, t: Option<Table>, fate: Fate): (Outcome, Option<Table>)
    requires req.Delete?
  {
    if Cut(fate, 0).Some? then (Cut(fate, 0).value, t)
    else if t.None? then (Replied(Failed(Internal(TableNotFound))), t)
    else if Cut(fate, 1).Some? then (Cut(fate, 1).value, t)
    else
      var after := WithDeleted(c.lib, t.value, req.condition);
      (if Cut(fate, 2).Some? then Cut(fate, 2).value
       else Replied(Deleted(after.version, |t.value.rows| - |after.rows|)),
       Some(after))
  }

  function PerformDrop(req: Request, t: Option<Table>, fate: Fate): (Outcome, Option<Table>)
    requires req.DropTable?
  {
    if Cut(fate, 0).Some? then (Cut(fate, 0).value, t)
    else if t.None? then (Replied(Failed(Internal(TableNotFound))), t)
    else (if Cut(fate, 1).Some? then Cut(fate, 1).value else Replied(Dropped(Target(req))), None)
  }

  /** One whole request, alone: its outcome and the table it leaves behind. */
  function Perform(c: Config, req: Request, t: Option<Table>, fate: Fate): (result: (Outcome, Option<Table>))
    requires Refusal(c, req).None?
    ensures req.Search? ==> result.1 == t
  {
    match req
    case CreateTable(_, _, _) => PerformCreate(req, t, fate)
    case Upsert(_, _, _, _) => PerformUpsert(c, req, t, fate)
    case Search(_, _, _, _, _, _) => PerformSearch(c, req, t, fate)
    case Delete(_, _) => PerformDelete(c, req, t, fate)
    case DropTable(_) => PerformDrop(req, t, fate)
  }

  // ---------------------------------------------------------------- the two against each other

  /** The locals and the table of a request that found the table as `start` and was not disturbed since. */
  ghost predicate Reached(c: Config, req: Request, start: Option<Table>, p: Progress, t: Option<Table>) {
    && Suits(req, p)
    && match p
       case Entered => t == start
       case TableMade =>
         && (start.None? || req.overwrite)
         && t == Some(Made(start, ArrowSchema(req.columns).value))
       case TableDropped => start.Some? && t == None
       case Opened => start.Some? && t == start
       case SchemaRead(schema) => start.Some? && t == start && schema == start.value.schema
       case InputDecoded(schema, batches, n) =>
         && start.Some? && t == start && schema == start.value.schema
         && DecodeInput(c.lib, req.inputFormat, req.data, schema) == Ok((batches, n))
       case SchemaReadAgain(schema, again, batches, n) =>
         && start.Some? && t == start && schema == again == start.value.schema && n > 0
         && DecodeInput(c.lib, req.inputFormat, req.data, schema) == Ok((batches, n))
       case RowsAppended(n, created) =>
         && start.Some? && n > 0 && t.Some? && created == t.value.version
         && (exists batches ::
               && DecodeInput(c.lib, req.inputFormat, req.data, start.value.schema) == Ok((batches, n))
               && t == Some(WithAppended(start.value, batches)))
       case RowsMerged(n, created, m) =>
         && start.Some? && n > 0 && t.Some? && created == t.value.version
         && (exists batches ::
               && DecodeInput(c.lib, req.inputFormat, req.data, start.value.schema) == Ok((batches, n))
               && t == Some(WithMerged(c.lib, start.value, req.keys, batches))
               && m == c.lib.merge(start.value, req.keys, RowsOf(batches)))
       case RowsDeleted(created, count) =>
         && start.Some? && t == Some(WithDeleted(c.lib, start.value, req.condition))
         && created == t.value.version && count == |start.value.rows| - |t.value.rows|
       case QueryPlanned(output) =>
         start.Some? && t == start && output == c.lib.outputSchema(start.value, QueryOf(c, req))
       case QueryRunning(output) =>
         start.Some? && t == start && output == c.lib.outputSchema(start.value, QueryOf(c, req))
  }

  /** An undisturbed step keeps to the whole operation, and the last one gives its outcome and its table. */
  lemma StepRefinesWhole(c: Config, req: Request, start: Option<Table>, p: Progress, t: Option<Table>)
    requires Refusal(c, req).None? && Reached(c, req, start, p, t)
    ensures match BodyStep(c, req, p, t)
            case Continue(p', t') => Reached(c, req, start, p', t')
            case Return(outcome, t') => Perform(c, req, start, Completes) == (outcome, t')
  {
  }

  /** Stopping after some steps, for either reason, is what the whole operation does when cut there. */
  lemma CutRefinesWhole(c: Config, req: Request, start: Option<Table>, p: Progress, t: Option<Table>, message: string)
    requires Refusal(c, req).None? && Reached(c, req, start, p, t)
    ensures Perform(c, req, start, BreaksAt(StepsDone(p), message))
         == (Replied(Failed(Internal(LibraryFailure(message)))), t)
    ensures Perform(c, req, start, DroppedAt(StepsDone(p))) == (Abandoned, t)
  {
  }

  // ---------------------------------------------------------------- pieces on their own

  /** The configured maximum caps every search except one that leaves its limit out while the maximum is below 10. */
  lemma SearchLimitCapped(options: Options, limit: nat)
    ensures SearchLimit(options, limit) <= options.maxSearchLimit <==> !(limit == 0 && options.maxSearchLimit < 10)
    ensures 0 < limit <= options.maxSearchLimit ==> SearchLimit(options, limit) == limit
  {
  }

  /** A delete keeps every row its condition does not match, as often as it was there, and no other. */
  lemma {:induction false} DeleteKeepsTheOthers(lib: Library, condition: string, rows: seq<Row>, row: Row)
    ensures multiset(Kept(lib, condition, rows))[row]
         == if lib.matches(condition, row) then 0 else multiset(rows)[row]
  {
    if |rows| > 0 {
      var n := |rows| - 1;
      DeleteKeepsTheOthers(lib, condition, rows[..n], row);
      assert rows == rows[..n] + [rows[n]];
    }
  }
}
