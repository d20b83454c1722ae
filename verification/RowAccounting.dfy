/** Row counts against the numbers reported, over any serial run; and what one upsert does to its table. */
module RowAccounting {
  import opened Prelude
  import opened JsonValues
  import opened Columnar
  import opened JsonDecode
  import opened DecodeTheorems
  import opened EngineOps
  import opened EngineProtocol
  import opened ProtocolSerial

  function RowsHeld(t: Option<Table>): nat {
    match t
    case None => 0
    case Some(table) => |table.rows|
  }

  /** Rows inserted minus rows deleted, as the reply says. */
  function Reported(outcome: Outcome): int {
    match outcome
    case Replied(Wrote(_, _, _, inserted, _, deleted)) => inserted - deleted
    case Replied(Deleted(_, count)) => 0 - count
    case _ => 0
  }

  /** The one thing asked of the library: the numbers a merge gives add up. */
  ghost predicate MergesAddUp(lib: Library) {
    forall table, keys, rows ::
      |lib.merge(table, keys, rows).rows| + lib.merge(table, keys, rows).deleted
        == |table.rows| + lib.merge(table, keys, rows).inserted
  }

  /** The outcome of a write whose client never learnt of it, though it may have happened. */
  predicate Unanswered(outcome: Outcome) {
    || outcome.Abandoned?
    || (outcome.Replied? && outcome.reply.Failed? && outcome.reply.error.Internal?
        && outcome.reply.error.cause.LibraryFailure?)
  }

  predicate Rebuilds(req: Request) {
    req.CreateTable? || req.DropTable?
  }

  /** One request against the counts: a rebuilt table is empty, an answered write changed what it reported. */
  ghost predicate Counted(req: Request, t: Option<Table>, outcome: Outcome, after: Option<Table>) {
    && (Rebuilds(req) && after != t ==> RowsHeld(after) == 0)
    && (Rebuilds(req) ==> Reported(outcome) == 0)
    && (!Rebuilds(req) && !Unanswered(outcome) ==> RowsHeld(after) == RowsHeld(t) + Reported(outcome))
    && (Unanswered(outcome) ==> Reported(outcome) == 0)
  }

  lemma WriteCounted(c: Config, req: Request, table: Table, batches: seq<GoodBatch>, n: nat, fate: Fate)
    requires req.Upsert? && MergesAddUp(c.lib) && n == CountRows(batches)
    ensures var (outcome, after) := PerformWrite(c, req, table, batches, n, fate);
            Counted(req, Some(table), outcome, after)
  {
    var rows := RowsOf(batches);
    assert |c.lib.merge(table, req.keys, rows).rows| + c.lib.merge(table, req.keys, rows).deleted
        == |table.rows| + c.lib.merge(table, req.keys, rows).inserted;
  }

  lemma UpsertCounted(c: Config, req: Request, t: Option<Table>, fate: Fate)
    requires req.Upsert? && MergesAddUp(c.lib)
    ensures var (outcome, after) := PerformUpsert(c, req, t, fate);
            Counted(req, t, outcome, after)
  {
    if t.Some? && DecodeInput(c.lib, req.inputFormat, req.data, t.value.schema).Ok? {
      InputRowsCounted(c.lib, req.inputFormat, req.data, t.value.schema);
      var (batches, n) := DecodeInput(c.lib, req.inputFormat, req.data, t.value.schema).value;
      WriteCounted(c, req, t.value, batches, n, fate);
    }
  }

  lemma CountsOfOne(c: Config, req: Request, t: Option<Table>, fate: Fate)
    requires Refusal(c, req).None? && MergesAddUp(c.lib)
    ensures var (outcome, after) := Perform(c, req, t, fate);
            Counted(req, t, outcome, after)
  {
    if req.Upsert? { UpsertCounted(c, req, t, fate); }
  }

  lemma InputRowsCounted(lib: Library, format: InputFormat, data: Bytes, schema: Schema)
    requires DecodeInput(lib, format, data, schema).Ok?
    ensures DecodeInput(lib, format, data, schema).value.1 == CountRows(DecodeInput(lib, format, data, schema).value.0)
  {
    var (batches, n) := DecodeInput(lib, format, data, schema).value;
    if !format.InputArrowIpc? {
      assert batches[..0] == [];
    }
  }

  // ---------------------------------------------------------------- over a whole serial run

  ghost function TableAfter(c: Config, db: Database, log: seq<Entry>, name: string): Option<Table>
    requires Accepted(c, log)
  {
    Lookup(Replay(c, db, log), name)
  }

  /** The reported sum after one more request of the table: started afresh when the table is rebuilt. */
  function ReportedAfter(e: Entry, before: Option<Table>, after: Option<Table>, sum: int): int {
    if Rebuilds(e.request) && after != before then 0 else sum + Reported(e.outcome)
  }

  /** The unreported changes after one more request of the table. */
  function UnreportedAfter(e: Entry, before: Option<Table>, after: Option<Table>, sum: int): int {
    if Rebuilds(e.request) && after != before then 0
    else sum + (if Unanswered(e.outcome) then RowsHeld(after) - RowsHeld(before) else 0)
  }

  /** What the replies since the table was last created, or dropped, add up to. */
  ghost function ReportedRows(c: Config, db: Database, log: seq<Entry>, name: string): int
    requires Accepted(c, log)
  {
    if |log| == 0 then RowsHeld(Lookup(db, name))
    else
      var front, e := log[..|log| - 1], log[|log| - 1];
      var sum := ReportedRows(c, db, front, name);
      if Target(e.request) != name then sum
      else ReportedAfter(e, TableAfter(c, db, front, name), TableAfter(c, db, log, name), sum)
  }

  /** Row changes since then that no reply told anyone about. */
  ghost function UnreportedRows(c: Config, db: Database, log: seq<Entry>, name: string): int
    requires Accepted(c, log)
  {
    if |log| == 0 then 0
    else
      var front, e := log[..|log| - 1], log[|log| - 1];
      var sum := UnreportedRows(c, db, front, name);
      if Target(e.request) != name then sum
      else UnreportedAfter(e, TableAfter(c, db, front, name), TableAfter(c, db, log, name), sum)
  }

  lemma BalanceStep(e: Entry, before: Option<Table>, after: Option<Table>, reported: int, unreported: int)
    requires Counted(e.request, before, e.outcome, after) && RowsHeld(before) == reported + unreported
    ensures RowsHeld(after)
         == ReportedAfter(e, before, after, reported) + UnreportedAfter(e, before, after, unreported)
  {
  }

  /** The last request of a run either left the table alone or changed it as `Counted` says. */
  lemma LastEntryCounted(c: Config, db: Database, log: seq<Entry>, name: string)
    requires MergesAddUp(c.lib) && SerialRun(c, db, log) && |log| > 0
    ensures var front, e := log[..|log| - 1], log[|log| - 1];
            if Target(e.request) == name
            then Counted(e.request, TableAfter(c, db, front, name), e.outcome, TableAfter(c, db, log, name))
            else TableAfter(c, db, log, name) == TableAfter(c, db, front, name)
  {
    var n := |log| - 1;
    var e, before := log[n], Replay(c, db, log[..n]);
    var t := Lookup(before, Target(e.request));
    LookupStore(before, Target(e.request), Perform(c, e.request, t, e.fate).1, name);
    assert e.outcome == OutcomeAt(c, db, log, n);
    CountsOfOne(c, e.request, t, e.fate);
  }

  lemma {:induction false} RowsBalance(c: Config, db: Database, log: seq<Entry>, name: string)
    requires MergesAddUp(c.lib) && SerialRun(c, db, log)
    ensures RowsHeld(TableAfter(c, db, log, name))
         == ReportedRows(c, db, log, name) + UnreportedRows(c, db, log, name)
  {
    if |log| > 0 {
      var front, e := log[..|log| - 1], log[|log| - 1];
      assert SerialRun(c, db, front) by { SerialPrefix(c, db, log, |log| - 1); }
      RowsBalance(c, db, front, name);
      var before, after := TableAfter(c, db, front, name), TableAfter(c, db, log, name);
      LastEntryCounted(c, db, log, name);
      if Target(e.request) == name {
        BalanceStep(e, before, after, ReportedRows(c, db, front, name), UnreportedRows(c, db, front, name));
      }
    }
  }

  /** Every write of the table was answered. */
  ghost predicate AllAnswered(log: seq<Entry>, name: string) {
    forall i :: 0 <= i < |log| && Target(log[i].request) == name && !log[i].request.Search? ==>
      !Unanswered(log[i].outcome)
  }

  lemma SearchKeepsRows(c: Config, db: Database, log: seq<Entry>, name: string)
    requires Accepted(c, log) && |log| > 0 && log[|log| - 1].request.Search?
    ensures TableAfter(c, db, log, name) == TableAfter(c, db, log[..|log| - 1], name)
  {
  }

  lemma {:induction false} AnsweredRunsReportAll(c: Config, db: Database, log: seq<Entry>, name: string)
    requires Accepted(c, log) && AllAnswered(log, name)
    ensures UnreportedRows(c, db, log, name) == 0
  {
    if |log| > 0 {
      assert AllAnswered(log[..|log| - 1], name);
      AnsweredRunsReportAll(c, db, log[..|log| - 1], name);
      if log[|log| - 1].request.Search? { SearchKeepsRows(c, db, log, name); }
    }
  }

  /**
   The rows of a table are those reported plus those whose reply was lost. So the count equals the
   reported sum exactly when the lost changes cancel out, and in particular when every write of the
   table was answered.
   */
  lemma RowsAccountedFor(c: Config, db: Database, log: seq<Entry>, name: string)
    requires MergesAddUp(c.lib) && SerialRun(c, db, log)
    ensures RowsHeld(TableAfter(c, db, log, name))
         == ReportedRows(c, db, log, name) + UnreportedRows(c, db, log, name)
    ensures RowsHeld(TableAfter(c, db, log, name)) == ReportedRows(c, db, log, name)
            <==> UnreportedRows(c, db, log, name) == 0
    ensures AllAnswered(log, name) ==> UnreportedRows(c, db, log, name) == 0
  {
    RowsBalance(c, db, log, name);
    if AllAnswered(log, name) { AnsweredRunsReportAll(c, db, log, name); }
  }

  /** The client got an answer, and not that of a failed library call. */
  predicate ToldWhatHappened(pc: Pc) {
    pc.Finished? && !Unanswered(Replied(pc.reply))
  }

  /** Every write of the table that has left its lock told its client what happened. */
  ghost predicate AllWritersTold(states: seq<State>, name: string)
    requires |states| > 0
  {
    var s := states[|states| - 1];
    forall p: nat :: p < |s.procs| && NameOf(s, p) == name && !s.procs[p].request.Search? && HasLeft(states, p) ==>
      ToldWhatHappened(s.procs[p].pc)
  }

  lemma ToldIsAnswered(c: Config, states: seq<State>, log: seq<Entry>, name: string)
    requires |states| > 0 && AllWritersTold(states, name) && MadeOfThisRun(c, states, log)
    ensures AllAnswered(log, name)
  {
    var s := states[|states| - 1];
    forall i | 0 <= i < |log| && Target(log[i].request) == name && !log[i].request.Search?
      ensures !Unanswered(log[i].outcome)
    {
      assert Served(log, log[i].id);
      assert ToldWhatHappened(s.procs[log[i].id].pc);
      assert Explains(c, log[i].request, log[i].outcome, s.procs[log[i].id].pc);
    }
  }

  /**
   The same for interleaved runs. A table nobody is writing holds the rows accounted for by the
   requests of the run that have left their locks, with the outcomes they had in it; and when each
   of these that wrote the table told its client what happened, the reports account for all rows.
   */
  lemma RunsAccountForRows(c: Config, db: Database, states: seq<State>, actions: seq<Action>, name: string)
    returns (log: seq<Entry>)
    requires MergesAddUp(c.lib) && Run(c, db, states, actions)
    requires !WriterInside(states[|actions|], name)
    ensures SerialRun(c, db, log)
    ensures MadeOfThisRun(c, states, log) && RespectsTime(states, log)
    ensures var s := states[|actions|];
            && RowsHeld(Lookup(s.db, name)) == ReportedRows(c, db, log, name) + UnreportedRows(c, db, log, name)
            && (AllWritersTold(states, name) ==> RowsHeld(Lookup(s.db, name)) == ReportedRows(c, db, log, name))
  {
    log := RepliesAndTablesAreSerial(c, db, states, actions);
    RowsAccountedFor(c, db, log, name);
    if AllWritersTold(states, name) { ToldIsAnswered(c, states, log, name); }
  }

  lemma SerialPrefix(c: Config, db: Database, log: seq<Entry>, n: nat)
    requires SerialRun(c, db, log) && n <= |log|
    ensures SerialRun(c, db, log[..n])
  {
    forall i | 0 <= i < n
      ensures log[..n][i].outcome == OutcomeAt(c, db, log[..n], i)
    {
      assert log[..n][..i] == log[..i];
      assert log[i].outcome == OutcomeAt(c, db, log, i);
    }
  }

  /** An append that breaks while the version is read has written its rows and reports a failure. */
  lemma LostReplyKeepsRows(c: Config, req: Request, table: Table, message: string, batches: seq<GoodBatch>, n: nat)
    requires Refusal(c, req).None? && req.Upsert? && req.keys == [] && n > 0
    requires DecodeInput(c.lib, req.inputFormat, req.data, table.schema) == Ok((batches, n))
    ensures var (outcome, after) := Perform(c, req, Some(table), BreaksAt(5, message));
            && Unanswered(outcome) && Reported(outcome) == 0
            && RowsHeld(after) == |table.rows| + n
  {
    InputRowsCounted(c.lib, req.inputFormat, req.data, table.schema);
  }

  /** An upsert without rows leaves the table as it was, version included, however it ends. */
  lemma EmptyUpsertChangesNothing(c: Config, req: Request, table: Table, fate: Fate, batches: seq<GoodBatch>)
    requires Refusal(c, req).None? && req.Upsert?
    requires DecodeInput(c.lib, req.inputFormat, req.data, table.schema) == Ok((batches, 0))
    ensures Perform(c, req, Some(table), fate).1 == Some(table)
    ensures fate.Completes? ==>
              Perform(c, req, Some(table), fate).0 == Replied(Wrote(NoRowsToWrite, table.version, 0, 0, 0, 0))
  {
  }

  /**
   An append of JSON rows that runs through adds, after the rows there were, one row for each JSON
   row, holding for each field what the row says of it; and it reports the version it made.
   */
  lemma JsonAppendStoresRows(c: Config, req: Request, table: Table, rows: seq<Value>)
    requires Refusal(c, req).None? && req.Upsert? && req.keys == [] && !req.inputFormat.InputArrowIpc?
    requires req.data != [] && c.lib.parseJson(req.data) == Some(rows) && |rows| > 0
    requires |table.schema| > 0 && AllSupported(table.schema) && SizesNonNegative(table.schema)
    requires forall f, r :: 0 <= f < |table.schema| && 0 <= r < |rows| ==> Acceptable(table.schema[f], rows[r])
    ensures var (outcome, after) := Perform(c, req, Some(table), Completes);
            && outcome == Replied(Wrote(AppendCompleted, table.version + 1, |rows|, |rows|, 0, 0))
            && after.Some? && after.value.schema == table.schema && after.value.version == table.version + 1
            && |after.value.rows| == |table.rows| + |rows| && after.value.rows[..|table.rows|] == table.rows
            && forall r, f :: 0 <= r < |rows| && 0 <= f < |table.schema| ==>
                 && |after.value.rows[|table.rows| + r]| == |table.schema|
                 && ReadSlot(c.lib.rnd, table.schema[f], rows[r]) == Ok(after.value.rows[|table.rows| + r][f])
  {
    DecodeRefinesRowRules(c.lib.rnd, rows, table.schema);
    DecodedBatch(c.lib.rnd, rows, table.schema);
    var batch := DecodeBatch(c.lib.rnd, rows, table.schema).value;
    var batches: seq<GoodBatch> := [batch];
    assert batches[..0] == [];
    assert RowsOf(batches) == [] + BatchRows(batch);
    assert DecodeInput(c.lib, req.inputFormat, req.data, table.schema) == Ok((batches, |rows|));
  }
}
