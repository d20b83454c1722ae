/**
 Serialisability: whatever the interleaving, the requests that got as far as the lock can be put in
 one order, that of leaving it, so that running them whole and alone in that order explains every
 reply and every table.
 */
module ProtocolSerial {
  import opened Prelude
  import opened Columnar
  import opened EngineOps
  import opened EngineProtocol
  import opened ProtocolSafety
  import opened OperationEffects

  /** One request of the serial run: which it is, what it asks, how it ended, and what came of it. */
  datatype Entry = Entry(id: nat, request: Request, fate: Fate, outcome: Outcome)

  ghost predicate Accepted(c: Config, log: seq<Entry>) {
    forall i :: 0 <= i < |log| ==> Refusal(c, log[i].request).None?
  }

  /** The tables after running the entries whole, one after the other. */
  ghost function Replay(c: Config, db: Database, log: seq<Entry>): Database
    requires Accepted(c, log)
  {
    if |log| == 0 then db
    else
      var before := Replay(c, db, log[..|log| - 1]);
      var e := log[|log| - 1];
      Store(before, Target(e.request), Perform(c, e.request, Lookup(before, Target(e.request)), e.fate).1)
  }

  /** What entry `i` answers in the serial run. */
  ghost function OutcomeAt(c: Config, db: Database, log: seq<Entry>, i: nat): Outcome
    requires Accepted(c, log) && i < |log|
  {
    Perform(c, log[i].request, Lookup(Replay(c, db, log[..i]), Target(log[i].request)), log[i].fate).0
  }

  /** The entries are a serial run: each outcome is the one its request has, whole and alone, in its turn. */
  ghost predicate SerialRun(c: Config, db: Database, log: seq<Entry>) {
    && Accepted(c, log)
    && forall i :: 0 <= i < |log| ==> log[i].outcome == OutcomeAt(c, db, log, i)
  }

  /** A search answers by encoding, after its guard is gone, what it gathered under it. */
  ghost predicate EncodedReply(c: Config, req: Request, output: Schema, batches: seq<GoodBatch>, reply: Reply) {
    || (req.Search? && reply == EncodeReply(c, req.outputFormat, output, batches))
    || (exists message :: reply == Failed(Internal(LibraryFailure(message))))
  }

  /** How far the request may have come since its outcome was settled. */
  ghost predicate Explains(c: Config, req: Request, outcome: Outcome, pc: Pc) {
    match outcome
    case Replied(reply) => pc == Finished(reply)
    case Abandoned => pc == Gone
    case Gathered(output, batches) =>
      || pc == Encoding(output, batches)
      || pc == Gone
      || (pc.Finished? && EncodedReply(c, req, output, batches, pc.reply))
  }

  ghost predicate Served(log: seq<Entry>, p: nat) {
    exists i :: 0 <= i < |log| && log[i].id == p
  }

  /** Requests that never held a guard: still on their way, refused, or dropped. */
  ghost predicate Unserved(c: Config, proc: Proc) {
    match proc.pc
    case Encoding(_, _) => false
    case Finished(reply) => Refusal(c, proc.request).Some? && reply == Failed(Refusal(c, proc.request).value)
    case _ => true
  }

  /**
   The entries are requests of this state, each at most once, and say what became of them; requests
   without an entry are still on their way, inside, refused, or were dropped before they got in.
   */
  ghost predicate LogInv(c: Config, s: State, log: seq<Entry>) {
    && (forall i :: 0 <= i < |log| ==> log[i].id < |s.procs| && log[i].request == s.procs[log[i].id].request)
    && (forall i, j :: 0 <= i < j < |log| ==> log[i].id != log[j].id)
    && (forall i :: 0 <= i < |log| ==> Explains(c, log[i].request, log[i].outcome, s.procs[log[i].id].pc))
    && (forall p :: 0 <= p < |s.procs| && !Served(log, p) ==> Unserved(c, s.procs[p]))
  }

  ghost predicate WriterInside(s: State, name: string) {
    exists p :: 0 <= p < |s.procs| && s.procs[p].pc.Inside? && !IsReader(s.procs[p].request) && NameOf(s, p) == name
  }

  /** A request inside has reached its point from the table of the serial run, undisturbed. */
  ghost predicate InsideInv(c: Config, serial: Database, s: State, p: nat)
    requires p < |s.procs|
  {
    s.procs[p].pc.Inside? ==>
      && Refusal(c, s.procs[p].request).None?
      && Reached(c, s.procs[p].request, Lookup(serial, NameOf(s, p)), s.procs[p].pc.progress,
                 Lookup(s.db, NameOf(s, p)))
  }

  ghost predicate TablesInv(c: Config, serial: Database, s: State) {
    && (forall p :: 0 <= p < |s.procs| ==> InsideInv(c, serial, s, p))
    && (forall name :: !WriterInside(s, name) ==> Lookup(s.db, name) == Lookup(serial, name))
  }

  /** The serial run `log` explains the state `s`. */
  ghost predicate Explained(c: Config, db: Database, s: State, log: seq<Entry>) {
    && SerialRun(c, db, log)
    && LogInv(c, s, log)
    && TablesInv(c, Replay(c, db, log), s)
  }

  // ---------------------------------------------------------------- steps outside the lock

  lemma LookupStore<K, V>(m: map<K, V>, k: K, v: Option<V>, j: K)
    ensures Lookup(Store(m, k, v), j) == if j == k then v else Lookup(m, j)
  {
  }

  /** Writers that stay inside keep their tables marked as being written. */
  lemma WritersStay(s: State, s': State, left: set<string>)
    requires forall q :: 0 <= q < |s.procs| && s.procs[q].pc.Inside? && NameOf(s, q) !in left ==>
               q < |s'.procs| && s'.procs[q].pc.Inside? && s'.procs[q].request == s.procs[q].request
    ensures forall name :: name !in left && WriterInside(s, name) ==> WriterInside(s', name)
  {
    forall name | name !in left && WriterInside(s, name)
      ensures WriterInside(s', name)
    {
      var q :| 0 <= q < |s.procs| && s.procs[q].pc.Inside? && !IsReader(s.procs[q].request) && NameOf(s, q) == name;
      assert NameOf(s', q) == name;
    }
  }

  /** The log goes on explaining when one request moves in a way its entry, if any, allows. */
  lemma LogMove(c: Config, s: State, s': State, p: nat, log: seq<Entry>)
    requires LogInv(c, s, log)
    requires p < |s.procs| == |s'.procs| && s'.procs == s.procs[p := s'.procs[p]]
    requires s'.procs[p].request == s.procs[p].request
    requires !Served(log, p) ==> Unserved(c, s'.procs[p])
    requires forall i :: 0 <= i < |log| && log[i].id == p ==>
               Explains(c, log[i].request, log[i].outcome, s'.procs[p].pc)
    ensures LogInv(c, s', log)
  {
    forall i | 0 <= i < |log|
      ensures Explains(c, log[i].request, log[i].outcome, s'.procs[log[i].id].pc)
    {
      assert Explains(c, log[i].request, log[i].outcome, s.procs[log[i].id].pc);
    }
  }

  /** Tables and insiders as before: nothing to explain anew. */
  lemma TablesMove(c: Config, serial: Database, s: State, s': State)
    requires TablesInv(c, serial, s) && s'.db == s.db && |s.procs| <= |s'.procs|
    requires forall q :: 0 <= q < |s.procs| && s.procs[q].pc.Inside? ==> s'.procs[q] == s.procs[q]
    requires forall q :: 0 <= q < |s'.procs| && s'.procs[q].pc.Inside? ==> q < |s.procs| && s'.procs[q] == s.procs[q]
    ensures TablesInv(c, serial, s')
  {
    WritersStay(s, s', {});
    forall q | 0 <= q < |s'.procs|
      ensures InsideInv(c, serial, s', q)
    {
      if s'.procs[q].pc.Inside? { assert InsideInv(c, serial, s, q); }
    }
  }

  lemma ArriveExplained(c: Config, db: Database, s: State, req: Request, log: seq<Entry>)
    requires Explained(c, db, s, log)
    ensures Explained(c, db, Apply(c, s, Arrive(req)), log)
  {
    TablesMove(c, Replay(c, db, log), s, Apply(c, s, Arrive(req)));
  }

  /** A request on its way to the lock, or inside, has no entry yet. */
  lemma BeforeLockUnserved(c: Config, s: State, log: seq<Entry>, p: nat)
    requires LogInv(c, s, log) && p < |s.procs|
    requires !s.procs[p].pc.Encoding? && !Settled(s.procs[p].pc)
    ensures !Served(log, p)
  {
    forall i | 0 <= i < |log|
      ensures log[i].id != p
    {
      assert Explains(c, log[i].request, log[i].outcome, s.procs[log[i].id].pc);
    }
  }

  lemma PlainLog(c: Config, s: State, a: Action, log: seq<Entry>)
    requires LockInv(c, s) && LogInv(c, s, log) && Enabled(c, s, a)
    requires Plain(s, a) || a.LookUpLock?
    ensures LogInv(c, Apply(c, s, a), log)
  {
    var s' := Apply(c, s, a);
    var p := a.p;
    if s.procs[p].pc.Encoding? {
      forall i | 0 <= i < |log| && log[i].id == p
        ensures Explains(c, log[i].request, log[i].outcome, s'.procs[p].pc)
      {
        assert Explains(c, log[i].request, log[i].outcome, s.procs[p].pc);
      }
    } else {
      BeforeLockUnserved(c, s, log, p);
    }
    LogMove(c, s, s', p, log);
  }

  lemma PlainTables(c: Config, serial: Database, s: State, a: Action)
    requires TablesInv(c, serial, s) && Enabled(c, s, a) && (Plain(s, a) || a.LookUpLock?)
    ensures TablesInv(c, serial, Apply(c, s, a))
  {
    TablesMove(c, serial, s, Apply(c, s, a));
  }

  lemma PlainExplained(c: Config, db: Database, s: State, a: Action, log: seq<Entry>)
    requires LockInv(c, s) && Explained(c, db, s, log) && Enabled(c, s, a)
    requires Plain(s, a) || a.LookUpLock?
    ensures Explained(c, db, Apply(c, s, a), log)
  {
    PlainLog(c, s, a, log);
    PlainTables(c, Replay(c, db, log), s, a);
  }

  // ---------------------------------------------------------------- entering, working, leaving

  lemma GrantTables(c: Config, serial: Database, s: State, p: nat)
    requires LockInv(c, s) && TablesInv(c, serial, s) && Enabled(c, s, Grant(p))
    ensures TablesInv(c, serial, Apply(c, s, Grant(p)))
  {
    var s' := Apply(c, s, Grant(p));
    var name, l := NameOf(s, p), s.procs[p].pc.lock;
    assert ProcInv(s, p) && CheckedInv(c, s, p) && HolderInv(s, l);
    forall q | 0 <= q < |s.procs| && s.procs[q].pc.Inside? && NameOf(s, q) == name
      ensures IsReader(s.procs[q].request)
    {
      assert ProcInv(s, q);
      assert HoldsWrite(s, q, l) <==> !IsReader(s.procs[q].request);
    }
    assert !WriterInside(s, name);
    assert Suits(s.procs[p].request, Entered);
    WritersStay(s, s', {});
    forall q | 0 <= q < |s'.procs|
      ensures InsideInv(c, serial, s', q)
    {
      if q != p { assert InsideInv(c, serial, s, q); }
    }
  }

  lemma GrantExplained(c: Config, db: Database, s: State, p: nat, log: seq<Entry>)
    requires LockInv(c, s) && Explained(c, db, s, log) && Enabled(c, s, Grant(p))
    ensures Explained(c, db, Apply(c, s, Grant(p)), log)
  {
    BeforeLockUnserved(c, s, log, p);
    LogMove(c, s, Apply(c, s, Grant(p)), p, log);
    GrantTables(c, Replay(c, db, log), s, p);
  }

  ghost predicate Goes(c: Config, s: State, p: nat) {
    && Enabled(c, s, Work(p))
    && BodyStep(c, s.procs[p].request, s.procs[p].pc.progress, Lookup(s.db, NameOf(s, p))).Continue?
  }

  lemma ContinueInside(c: Config, serial: Database, s: State, p: nat, q: nat)
    requires LockInv(c, s) && TablesInv(c, serial, s) && Goes(c, s, p) && q < |s.procs|
    ensures InsideInv(c, serial, Apply(c, s, Work(p)), q)
  {
    var name := NameOf(s, p);
    assert InsideInv(c, serial, s, q) && InsideInv(c, serial, s, p);
    if q == p {
      StepRefinesWhole(c, s.procs[p].request, Lookup(serial, name), s.procs[p].pc.progress, Lookup(s.db, name));
    } else if s.procs[q].pc.Inside? && NameOf(s, q) == name {
      InsideShareLock(c, s, p, q);
    }
  }

  lemma ContinueTables(c: Config, serial: Database, s: State, p: nat)
    requires LockInv(c, s) && TablesInv(c, serial, s) && Goes(c, s, p)
    ensures TablesInv(c, serial, Apply(c, s, Work(p)))
  {
    var s' := Apply(c, s, Work(p));
    forall q | 0 <= q < |s'.procs|
      ensures InsideInv(c, serial, s', q)
    {
      ContinueInside(c, serial, s, p, q);
    }
    WritersStay(s, s', {});
    if !IsReader(s.procs[p].request) {
      assert s'.procs[p].pc.Inside? && NameOf(s', p) == NameOf(s, p);
      assert WriterInside(s', NameOf(s, p));
    }
    assert forall n :: n != NameOf(s, p) || IsReader(s.procs[p].request) ==> Lookup(s'.db, n) == Lookup(s.db, n);
  }

  lemma ContinueLog(c: Config, s: State, p: nat, log: seq<Entry>)
    requires LogInv(c, s, log) && Goes(c, s, p)
    ensures LogInv(c, Apply(c, s, Work(p)), log)
  {
    BeforeLockUnserved(c, s, log, p);
    LogMove(c, s, Apply(c, s, Work(p)), p, log);
  }

  lemma ContinueExplained(c: Config, db: Database, s: State, p: nat, log: seq<Entry>)
    requires LockInv(c, s) && Explained(c, db, s, log) && Goes(c, s, p)
    ensures Explained(c, db, Apply(c, s, Work(p)), log)
  {
    ContinueLog(c, s, p, log);
    ContinueTables(c, Replay(c, db, log), s, p);
  }

  /** The entry of a request that ran whole, or was cut, after the entries so far. */
  ghost function EntryFor(c: Config, db: Database, log: seq<Entry>, id: nat, req: Request, fate: Fate): Entry
    requires Accepted(c, log) && Refusal(c, req).None?
  {
    Entry(id, req, fate, Perform(c, req, Lookup(Replay(c, db, log), Target(req)), fate).0)
  }

  lemma SerialRunGrows(c: Config, db: Database, log: seq<Entry>, e: Entry)
    requires SerialRun(c, db, log) && Refusal(c, e.request).None?
    requires e.outcome == Perform(c, e.request, Lookup(Replay(c, db, log), Target(e.request)), e.fate).0
    ensures SerialRun(c, db, log + [e])
  {
    var log' := log + [e];
    forall i | 0 <= i < |log'|
      ensures log'[i].outcome == OutcomeAt(c, db, log', i)
    {
      assert log'[..i] == log[..i];
      if i < |log| { assert log[i].outcome == OutcomeAt(c, db, log, i); } else { assert log[..i] == log; }
    }
  }

  lemma AppendEntry(c: Config, db: Database, log: seq<Entry>, id: nat, req: Request, fate: Fate)
    requires SerialRun(c, db, log) && Refusal(c, req).None?
    ensures SerialRun(c, db, log + [EntryFor(c, db, log, id, req, fate)])
    ensures Replay(c, db, log + [EntryFor(c, db, log, id, req, fate)])
         == Store(Replay(c, db, log), Target(req),
                  Perform(c, req, Lookup(Replay(c, db, log), Target(req)), fate).1)
  {
    var e := EntryFor(c, db, log, id, req, fate);
    SerialRunGrows(c, db, log, e);
    assert (log + [e])[..|log|] == log;
  }

  /** Leaving the lock puts the request behind those served before. */
  lemma LeaveLogged(c: Config, s: State, p: nat, outcome: Outcome, table: Option<Table>, log: seq<Entry>, e: Entry)
    requires LogInv(c, s, log)
    requires p < |s.procs| && s.procs[p].pc.Inside? && s.procs[p].pc.lock < |s.locks|
    requires e.id == p && e.request == s.procs[p].request && e.outcome == outcome
    ensures LogInv(c, Leave(s, p, outcome, table), log + [e])
  {
    var s' := Leave(s, p, outcome, table);
    var log' := log + [e];
    BeforeLockUnserved(c, s, log, p);
    forall i | 0 <= i < |log'|
      ensures Explains(c, log'[i].request, log'[i].outcome, s'.procs[log'[i].id].pc)
    {
      if i < |log| {
        assert Explains(c, log[i].request, log[i].outcome, s.procs[log[i].id].pc);
        assert log[i].id != p;
      }
    }
    assert log'[|log|].id == p;
    forall q | Served(log, q)
      ensures Served(log', q)
    {
      var i :| 0 <= i < |log| && log[i].id == q;
      assert log'[i].id == q;
    }
  }

  /** The serial tables follow when a request leaves its lock. */
  lemma LeaveTables(c: Config, serial: Database, s: State, p: nat, outcome: Outcome, table: Option<Table>)
    requires LockInv(c, s) && TablesInv(c, serial, s)
    requires p < |s.procs| && s.procs[p].pc.Inside? && s.procs[p].pc.lock < |s.locks|
    requires IsReader(s.procs[p].request) ==> table == Lookup(s.db, NameOf(s, p))
    ensures TablesInv(c, Store(serial, NameOf(s, p), table), Leave(s, p, outcome, table))
  {
    var s' := Leave(s, p, outcome, table);
    var name := NameOf(s, p);
    var serial' := Store(serial, name, table);
    assert forall n :: Lookup(s'.db, n) == if n == name then table else Lookup(s.db, n);
    assert forall n :: Lookup(serial', n) == if n == name then table else Lookup(serial, n);
    forall q | 0 <= q < |s'.procs|
      ensures InsideInv(c, serial', s', q)
    {
      assert InsideInv(c, serial, s, q);
      if q != p && s.procs[q].pc.Inside? && NameOf(s, q) == name {
        InsideShareLock(c, s, p, q);
        ReaderSeesSerialTable(c, serial, s, p);
      }
    }
    WritersStay(s, s', {name});
  }

  /** While a search is inside, its table is that of the serial run. */
  lemma ReaderSeesSerialTable(c: Config, serial: Database, s: State, p: nat)
    requires LockInv(c, s) && TablesInv(c, serial, s)
    requires p < |s.procs| && s.procs[p].pc.Inside? && IsReader(s.procs[p].request)
    ensures Lookup(s.db, NameOf(s, p)) == Lookup(serial, NameOf(s, p))
  {
    assert InsideInv(c, serial, s, p);
  }

  /** The fate that a step out of the locked part gives the request. */
  ghost function FateOf(s: State, a: Action): Fate
    requires !a.Arrive? && a.p < |s.procs| && s.procs[a.p].pc.Inside?
  {
    match a
    case Break(p, message) => BreaksAt(StepsDone(s.procs[p].pc.progress), message)
    case Drop(p) => DroppedAt(StepsDone(s.procs[p].pc.progress))
    case _ => Completes
  }

  ghost predicate Leaves(c: Config, s: State, a: Action)
    requires Enabled(c, s, a)
  {
    && !a.Arrive? && s.procs[a.p].pc.Inside?
    && (a.Work? ==> BodyStep(c, s.procs[a.p].request, s.procs[a.p].pc.progress, Lookup(s.db, NameOf(s, a.p))).Return?)
  }

  /** A step out of the locked part gives the outcome and the table of the whole request with that fate. */
  lemma LeaveIsWhole(c: Config, serial: Database, s: State, a: Action)
    returns (outcome: Outcome, table: Option<Table>)
    requires LockInv(c, s) && TablesInv(c, serial, s) && Enabled(c, s, a) && Leaves(c, s, a)
    ensures Refusal(c, s.procs[a.p].request).None?
    ensures Apply(c, s, a) == Leave(s, a.p, outcome, table)
    ensures Perform(c, s.procs[a.p].request, Lookup(serial, NameOf(s, a.p)), FateOf(s, a)) == (outcome, table)
    ensures IsReader(s.procs[a.p].request) ==> table == Lookup(s.db, NameOf(s, a.p))
  {
    var req := s.procs[a.p].request;
    var progress := s.procs[a.p].pc.progress;
    var start, now := Lookup(serial, NameOf(s, a.p)), Lookup(s.db, NameOf(s, a.p));
    assert InsideInv(c, serial, s, a.p);
    outcome, table := Abandoned, now;
    match a {
      case Work(_) =>
        StepRefinesWhole(c, req, start, progress, now);
        var turn := BodyStep(c, req, progress, now);
        outcome, table := turn.outcome, turn.table;
      case Break(_, message) =>
        CutRefinesWhole(c, req, start, progress, now, message);
        outcome := Replied(Failed(Internal(LibraryFailure(message))));
      case Drop(_) =>
        CutRefinesWhole(c, req, start, progress, now, "");
    }
  }

  lemma LeaveExplained(c: Config, db: Database, s: State, a: Action, log: seq<Entry>)
    requires LockInv(c, s) && Explained(c, db, s, log) && Enabled(c, s, a) && Leaves(c, s, a)
    ensures Refusal(c, s.procs[a.p].request).None?
    ensures Explained(c, db, Apply(c, s, a),
                      log + [EntryFor(c, db, log, a.p, s.procs[a.p].request, FateOf(s, a))])
  {
    var req := s.procs[a.p].request;
    var outcome, table := LeaveIsWhole(c, Replay(c, db, log), s, a);
    var e := EntryFor(c, db, log, a.p, req, FateOf(s, a));
    AppendEntry(c, db, log, a.p, req, FateOf(s, a));
    LeaveLogged(c, s, a.p, outcome, table, log, e);
    LeaveTables(c, Replay(c, db, log), s, a.p, outcome, table);
  }

  // ---------------------------------------------------------------- every step, every run

  /** After a step, a serial run that extends the one before: by the request that left its lock, if one did. */
  lemma StepExplained(c: Config, db: Database, s: State, a: Action, log: seq<Entry>) returns (log': seq<Entry>)
    requires LockInv(c, s) && Explained(c, db, s, log) && Enabled(c, s, a)
    ensures Explained(c, db, Apply(c, s, a), log')
    ensures log <= log'
    ensures |log'| == |log| + (if Leaves(c, s, a) then 1 else 0)
    ensures Leaves(c, s, a) ==> log'[|log|].id == a.p
  {
    log' := log;
    if a.Arrive? {
      ArriveExplained(c, db, s, a.request, log);
    } else if Leaves(c, s, a) {
      LeaveExplained(c, db, s, a, log);
      log' := log + [EntryFor(c, db, log, a.p, s.procs[a.p].request, FateOf(s, a))];
    } else if a.Grant? {
      GrantExplained(c, db, s, a.p, log);
    } else if a.Work? {
      ContinueExplained(c, db, s, a.p, log);
    } else {
      PlainExplained(c, db, s, a, log);
    }
  }

  lemma InitiallyExplained(c: Config, db: Database)
    ensures LockInv(c, Initial(c, db)) && Explained(c, db, Initial(c, db), [])
  {
  }

  /** What explains a state, as a value, so that facts about prefixes need not look inside. */
  ghost function Explaining(c: Config, db: Database): (State, seq<Entry>) -> bool {
    (s: State, log: seq<Entry>) => Explained(c, db, s, log)
  }

  ghost predicate TracksWith(explains: (State, seq<Entry>) -> bool, states: seq<State>, log: seq<Entry>,
                             served: seq<nat>)
  {
    && |served| == |states| > 0 && served[|served| - 1] == |log|
    && (forall i, j :: 0 <= i <= j < |served| ==> served[i] <= served[j] <= |log|)
    && (forall i :: 0 <= i < |states| ==> explains(states[i], log[..served[i]]))
  }

  /** Request `p` leaves its lock between state `i` and the next. */
  ghost predicate LeavesAt(states: seq<State>, i: nat, p: nat) {
    && i + 1 < |states| && p < |states[i].procs| && p < |states[i + 1].procs|
    && states[i].procs[p].pc.Inside? && !states[i + 1].procs[p].pc.Inside?
  }

  /** The entries added between state `i` and the next are the requests that left their locks there. */
  ghost predicate LoggedAt(states: seq<State>, log: seq<Entry>, served: seq<nat>, i: nat) {
    && i + 1 < |served| && served[i] <= served[i + 1] <= |log|
    && forall p: nat :: LeavesAt(states, i, p) <==> Served(log[served[i]..served[i + 1]], p)
  }

  ghost predicate LoggedAlong(states: seq<State>, log: seq<Entry>, served: seq<nat>) {
    && |served| == |states| > 0 && served[0] == 0 && served[|served| - 1] == |log|
    && forall i: nat | i + 1 < |states| :: LoggedAt(states, log, served, i)
  }

  /** The states of a run, each explained by a prefix of one serial run of those that left their locks by then. */
  ghost predicate Tracks(c: Config, db: Database, states: seq<State>, log: seq<Entry>, served: seq<nat>) {
    TracksWith(Explaining(c, db), states, log, served) && LoggedAlong(states, log, served)
  }

  lemma ExtendTrack(explains: (State, seq<Entry>) -> bool, states: seq<State>, log: seq<Entry>, served: seq<nat>,
                    s': State, log': seq<Entry>)
    requires TracksWith(explains, states, log, served)
    requires log <= log' && explains(s', log')
    ensures TracksWith(explains, states + [s'], log', served + [|log'|])
  {
    assert log'[..|log'|] == log';
    forall i | 0 <= i < |states|
      ensures log'[..served[i]] == log[..served[i]]
    {
    }
  }

  /** One more state leaves what was logged before as it is. */
  lemma LoggedStays(states: seq<State>, log: seq<Entry>, served: seq<nat>, s': State, log': seq<Entry>, i: nat)
    requires |served| == |states| && i + 1 < |states| && LoggedAt(states, log, served, i) && log <= log'
    ensures LoggedAt(states + [s'], log', served + [|log'|], i)
  {
    assert log'[served[i]..served[i + 1]] == log[served[i]..served[i + 1]];
    forall p: nat
      ensures LeavesAt(states + [s'], i, p) == LeavesAt(states, i, p)
    {
    }
  }

  /** Only the request that moves can leave its lock in a step. */
  lemma LeaverMoves(c: Config, s: State, a: Action, p: nat)
    requires Enabled(c, s, a) && p < |s.procs|
    ensures p < |Apply(c, s, a).procs|
    ensures s.procs[p].pc.Inside? && !Apply(c, s, a).procs[p].pc.Inside? <==> Leaves(c, s, a) && a.p == p
  {
    if !a.Arrive? { OneMoves(c, s, a); }
  }

  lemma LoggedLast(c: Config, states: seq<State>, a: Action, log: seq<Entry>, served: seq<nat>, log': seq<Entry>)
    requires |served| == |states| > 0 && served[|served| - 1] == |log| && log <= log'
    requires Enabled(c, states[|states| - 1], a)
    requires |log'| == |log| + (if Leaves(c, states[|states| - 1], a) then 1 else 0)
    requires Leaves(c, states[|states| - 1], a) ==> log'[|log|].id == a.p
    ensures LoggedAt(states + [Apply(c, states[|states| - 1], a)], log', served + [|log'|], |states| - 1)
  {
    var n := |states| - 1;
    var longer := states + [Apply(c, states[n], a)];
    var added := log'[|log|..|log'|];
    forall p: nat
      ensures LeavesAt(longer, n, p) <==> Served(added, p)
    {
      if p < |states[n].procs| { LeaverMoves(c, states[n], a, p); }
      if Leaves(c, states[n], a) {
        assert added == [log'[|log|]];
        assert Served(added, a.p);
      }
    }
  }

  lemma LoggedLonger(c: Config, states: seq<State>, a: Action, log: seq<Entry>, served: seq<nat>, log': seq<Entry>)
    requires LoggedAlong(states, log, served) && log <= log'
    requires Enabled(c, states[|states| - 1], a)
    requires |log'| == |log| + (if Leaves(c, states[|states| - 1], a) then 1 else 0)
    requires Leaves(c, states[|states| - 1], a) ==> log'[|log|].id == a.p
    ensures LoggedAlong(states + [Apply(c, states[|states| - 1], a)], log', served + [|log'|])
  {
    var s' := Apply(c, states[|states| - 1], a);
    LoggedLast(c, states, a, log, served, log');
    forall i: nat | i + 1 < |states|
      ensures LoggedAt(states + [s'], log', served + [|log'|], i)
    {
      LoggedStays(states, log, served, s', log', i);
    }
  }

  lemma TrackAt(c: Config, db: Database, states: seq<State>, log: seq<Entry>, served: seq<nat>, i: nat)
    requires Tracks(c, db, states, log, served) && i < |states|
    ensures served[i] <= |log| && Explained(c, db, states[i], log[..served[i]])
    ensures i == |states| - 1 ==> log[..served[i]] == log
  {
    assert Explaining(c, db)(states[i], log[..served[i]]);
  }

  lemma RunPrefix(c: Config, db: Database, states: seq<State>, actions: seq<Action>)
    requires Run(c, db, states, actions) && |actions| > 0
    ensures Run(c, db, states[..|actions|], actions[..|actions| - 1])
    ensures states == states[..|actions|] + [states[|actions|]]
  {
  }

  /** One more action, one more tracked state. */
  lemma TrackStep(c: Config, db: Database, states: seq<State>, a: Action, log: seq<Entry>, served: seq<nat>)
    returns (log': seq<Entry>)
    requires Tracks(c, db, states, log, served)
    requires LockInv(c, states[|states| - 1]) && Enabled(c, states[|states| - 1], a)
    ensures Tracks(c, db, states + [Apply(c, states[|states| - 1], a)], log', served + [|log'|])
  {
    TrackAt(c, db, states, log, served, |states| - 1);
    log' := StepExplained(c, db, states[|states| - 1], a, log);
    var s' := Apply(c, states[|states| - 1], a);
    ExtendTrack(Explaining(c, db), states, log, served, s', log');
    LoggedLonger(c, states, a, log, served, log');
  }

  /**
   Every run has one serial run that explains each of its states by a prefix: `served[i]` requests
   had left their locks by state `i`.
   */
  lemma {:induction false} Serialisable(c: Config, db: Database, states: seq<State>, actions: seq<Action>)
    returns (log: seq<Entry>, served: seq<nat>)
    requires Run(c, db, states, actions)
    ensures Tracks(c, db, states, log, served)
    decreases |actions|
  {
    var n := |actions|;
    if n == 0 {
      InitiallyExplained(c, db);
      log, served := [], [0];
      assert Explaining(c, db)(states[0], log);
    } else {
      RunPrefix(c, db, states, actions);
      var before, counts := Serialisable(c, db, states[..n], actions[..n - 1]);
      RunKeeps(c, db, states, actions, n - 1);
      assert states[..n][n - 1] == states[n - 1];
      log := TrackStep(c, db, states[..n], actions[n - 1], before, counts);
      served := counts + [|log|];
    }
  }

  // ---------------------------------------------------------------- what it means

  /** The reply a client sees is the one of the serial run, or the refusal it would get at any time. */
  ghost predicate ReplyFromSerialRun(c: Config, log: seq<Entry>, proc: Proc, p: nat)
    requires proc.pc.Finished?
  {
    || (Refusal(c, proc.request).Some? && proc.pc.reply == Failed(Refusal(c, proc.request).value))
    || (exists i :: 0 <= i < |log| && log[i].id == p && log[i].request == proc.request
          && match log[i].outcome
             case Replied(reply) => proc.pc.reply == reply
             case Gathered(output, batches) => EncodedReply(c, proc.request, output, batches, proc.pc.reply)
             case Abandoned => false)
  }

  lemma RequestStays(c: Config, s: State, a: Action, p: nat)
    requires Enabled(c, s, a) && p < |s.procs|
    ensures p < |Apply(c, s, a).procs| && Apply(c, s, a).procs[p].request == s.procs[p].request
  {
    if !a.Arrive? { OneMoves(c, s, a); }
  }

  lemma {:induction false} RequestsStay(c: Config, states: seq<State>, actions: seq<Action>, i: nat, j: nat, p: nat)
    requires Behaviour(c, states, actions) && i <= j <= |actions| && p < |states[i].procs|
    ensures p < |states[j].procs| && states[j].procs[p].request == states[i].procs[p].request
    decreases j
  {
    if i < j {
      RequestsStay(c, states, actions, i, j - 1, p);
      RequestStays(c, states[j - 1], actions[j - 1], p);
    }
  }

  lemma AnsweredIsServed(c: Config, s: State, log: seq<Entry>, p: nat)
    requires LogInv(c, s, log) && p < |s.procs|
    requires s.procs[p].pc.Finished? && Refusal(c, s.procs[p].request).None?
    ensures Served(log, p)
  {
    assert Served(log, p) || Unserved(c, s.procs[p]);
  }

  /** What an early prefix explains comes before what arrived later. */
  lemma ServedBefore(c: Config, early: State, log: seq<Entry>, m: nat, a: nat, b: nat)
    requires m <= |log| && a < |log| && b < |log|
    requires LogInv(c, early, log[..m])
    requires forall i, j :: 0 <= i < j < |log| ==> log[i].id != log[j].id
    requires log[a].id < |early.procs| && early.procs[log[a].id].pc.Finished?
    requires Refusal(c, early.procs[log[a].id].request).None?
    requires log[b].id >= |early.procs|
    ensures a < b
  {
    AnsweredIsServed(c, early, log[..m], log[a].id);
    var k :| 0 <= k < |log[..m]| && log[..m][k].id == log[a].id;
    assert log[k].id == log[a].id;
    assert forall j :: 0 <= j < m ==> log[j] == log[..m][j] && log[..m][j].id < |early.procs|;
  }

  lemma AnsweredComesFirst(c: Config, db: Database, states: seq<State>, actions: seq<Action>,
                           log: seq<Entry>, served: seq<nat>, i: nat, a: nat, b: nat)
    requires Run(c, db, states, actions) && Tracks(c, db, states, log, served)
    requires i < |states| && a < |log| && b < |log|
    requires log[a].id < |states[i].procs| && states[i].procs[log[a].id].pc.Finished?
    requires log[b].id >= |states[i].procs|
    ensures a < b
  {
    TrackAt(c, db, states, log, served, |actions|);
    TrackAt(c, db, states, log, served, i);
    RequestsStay(c, states, actions, i, |actions|, log[a].id);
    ServedBefore(c, states[i], log, served[i], a, b);
  }

  /** What was answered before another request arrived comes first. */
  ghost predicate RespectsTime(states: seq<State>, log: seq<Entry>) {
    forall i, a, b :: 0 <= i < |states| && 0 <= a < |log| && 0 <= b < |log|
                      && log[a].id < |states[i].procs| && states[i].procs[log[a].id].pc.Finished?
                      && log[b].id >= |states[i].procs| ==>
      a < b
  }

  lemma SerialOrderRespectsTime(c: Config, db: Database, states: seq<State>, actions: seq<Action>,
                                log: seq<Entry>, served: seq<nat>)
    requires Run(c, db, states, actions) && Tracks(c, db, states, log, served)
    ensures RespectsTime(states, log)
  {
    forall i, a, b | 0 <= i < |states| && 0 <= a < |log| && 0 <= b < |log|
                     && log[a].id < |states[i].procs| && states[i].procs[log[a].id].pc.Finished?
                     && log[b].id >= |states[i].procs|
      ensures a < b
    {
      AnsweredComesFirst(c, db, states, actions, log, served, i, a, b);
    }
  }

  lemma ReplyExplained(c: Config, s: State, log: seq<Entry>, p: nat)
    requires LogInv(c, s, log) && p < |s.procs| && s.procs[p].pc.Finished?
    ensures ReplyFromSerialRun(c, log, s.procs[p], p)
  {
    if Served(log, p) {
      var i :| 0 <= i < |log| && log[i].id == p;
      assert Explains(c, log[i].request, log[i].outcome, s.procs[p].pc);
    } else {
      assert Unserved(c, s.procs[p]);
    }
  }

  /** Request `p` has left its lock in the run. */
  ghost predicate HasLeft(states: seq<State>, p: nat) {
    exists i: nat :: LeavesAt(states, i, p)
  }

  /** The stretch of the run in which entry `k` was added. */
  lemma {:induction false} AddedBetween(served: seq<nat>, k: nat, n: nat) returns (i: nat)
    requires n < |served| && served[0] == 0 && k < served[n]
    ensures i < n && served[i] <= k < served[i + 1]
  {
    i := n - 1;
    if k < served[i] { i := AddedBetween(served, k, i); }
  }

  lemma ServedHasLeft(states: seq<State>, log: seq<Entry>, served: seq<nat>, k: nat)
    requires LoggedAlong(states, log, served) && k < |log|
    ensures HasLeft(states, log[k].id)
  {
    var i := AddedBetween(served, k, |served| - 1);
    assert LoggedAt(states, log, served, i);
    var added := log[served[i]..served[i + 1]];
    assert added[k - served[i]] == log[k];
    assert Served(added, log[k].id);
    assert LeavesAt(states, i, log[k].id);
  }

  lemma LeaverIsServed(states: seq<State>, log: seq<Entry>, served: seq<nat>, i: nat, p: nat)
    requires LoggedAlong(states, log, served) && LeavesAt(states, i, p)
    ensures Served(log, p)
  {
    assert LoggedAt(states, log, served, i);
    var added := log[served[i]..served[i + 1]];
    var k :| 0 <= k < |added| && added[k].id == p;
    assert log[served[i] + k].id == p;
  }

  /** The serial run is made of exactly the requests that have left their locks. */
  lemma ServedAreThoseWhoLeft(states: seq<State>, log: seq<Entry>, served: seq<nat>, p: nat)
    requires LoggedAlong(states, log, served)
    ensures Served(log, p) <==> HasLeft(states, p)
  {
    if Served(log, p) {
      var k :| 0 <= k < |log| && log[k].id == p;
      ServedHasLeft(states, log, served, k);
    }
    if HasLeft(states, p) {
      var i: nat :| LeavesAt(states, i, p);
      LeaverIsServed(states, log, served, i, p);
    }
  }

  /**
   The entries are those of the run: exactly the requests that have left their locks, each once, and
   each with an outcome that says what its client has been told since.
   */
  ghost predicate MadeOfThisRun(c: Config, states: seq<State>, log: seq<Entry>)
    requires |states| > 0
  {
    var s := states[|states| - 1];
    && (forall p: nat :: Served(log, p) <==> HasLeft(states, p))
    && (forall i, j :: 0 <= i < j < |log| ==> log[i].id != log[j].id)
    && (forall i :: 0 <= i < |log| ==>
         && log[i].id < |s.procs| && log[i].request == s.procs[log[i].id].request
         && Explains(c, log[i].request, log[i].outcome, s.procs[log[i].id].pc))
  }

  /**
   At the end of any run: the serial run is made of exactly the requests of the run that have left
   their locks, each once, in an order that respects time, each with the outcome it had there; every
   reply is that of the serial run, and so is every table nobody is writing.
   */
  lemma RepliesAndTablesAreSerial(c: Config, db: Database, states: seq<State>, actions: seq<Action>)
    returns (log: seq<Entry>)
    requires Run(c, db, states, actions)
    ensures SerialRun(c, db, log)
    ensures MadeOfThisRun(c, states, log) && RespectsTime(states, log)
    ensures var s := states[|actions|];
            && (forall p :: 0 <= p < |s.procs| && s.procs[p].pc.Finished? ==>
                 ReplyFromSerialRun(c, log, s.procs[p], p))
            && (forall name :: !WriterInside(s, name) ==> Lookup(s.db, name) == Lookup(Replay(c, db, log), name))
  {
    var whole, served := Serialisable(c, db, states, actions);
    log := whole;
    var s := states[|actions|];
    TrackAt(c, db, states, whole, served, |actions|);
    SerialOrderRespectsTime(c, db, states, actions, whole, served);
    forall p: nat
      ensures Served(log, p) <==> HasLeft(states, p)
    {
      ServedAreThoseWhoLeft(states, whole, served, p);
    }
    forall p | 0 <= p < |s.procs| && s.procs[p].pc.Finished?
      ensures ReplyFromSerialRun(c, log, s.procs[p], p)
    {
      ReplyExplained(c, s, log, p);
    }
  }

  /**
   What an upsert sees under its write lock, in every reachable state: the schema it decoded with is
   still the table's when the reader is given it, and after an append the table's version is the one
   that append made.
   */
  lemma UpsertViewIsStable(c: Config, db: Database, s: State, p: nat)
    requires Reachable(c, db, s) && p < |s.procs| && s.procs[p].pc.Inside?
    ensures var progress := s.procs[p].pc.progress;
            var table := Lookup(s.db, NameOf(s, p));
            && (progress.SchemaRead? ==> table.Some? && table.value.schema == progress.schema)
            && (progress.InputDecoded? ==> table.Some? && table.value.schema == progress.decodeSchema)
            && (progress.SchemaReadAgain? ==>
                 table.Some? && table.value.schema == progress.readerSchema == progress.decodeSchema)
            && (progress.RowsAppended? ==> table.Some? && table.value.version == progress.created)
            && (progress.RowsMerged? ==> table.Some? && table.value.version == progress.created)
  {
    var states, actions :| Run(c, db, states, actions) && states[|actions|] == s;
    var log, served := Serialisable(c, db, states, actions);
    TrackAt(c, db, states, log, served, |actions|);
    assert InsideInv(c, Replay(c, db, log), s, p);
  }

  // ---------------------------------------------------------------- a search sees one instant

  /** The batches and their schema are what the query gives on the table as it is in state `s`. */
  ghost predicate GatheredFrom(c: Config, s: State, req: Request, output: Schema, batches: seq<GoodBatch>) {
    && req.Search?
    && var table := Lookup(s.db, Target(req));
       && table.Some?
       && exists q :: Asks(c.options, req, q)
            && output == c.lib.outputSchema(table.value, q) && batches == c.lib.nearest(table.value, q)
  }

  lemma EncodingComesFromWork(c: Config, s: State, a: Action, p: nat)
    requires Enabled(c, s, a) && p < |Apply(c, s, a).procs| && Apply(c, s, a).procs[p].pc.Encoding?
    ensures p < |s.procs| && (s.procs[p] == Apply(c, s, a).procs[p] || (a == Work(p) && s.procs[p].pc.Inside?))
    ensures s.procs[p].request == Apply(c, s, a).procs[p].request
  {
  }

  lemma GatherStep(c: Config, serial: Database, s: State, p: nat)
    requires Enabled(c, s, Work(p)) && InsideInv(c, serial, s, p)
    requires Apply(c, s, Work(p)).procs[p].pc.Encoding?
    ensures var pc := Apply(c, s, Work(p)).procs[p].pc;
            GatheredFrom(c, s, s.procs[p].request, pc.output, pc.batches)
  {
    var req := s.procs[p].request;
    var turn := BodyStep(c, req, s.procs[p].pc.progress, Lookup(s.db, NameOf(s, p)));
    assert turn.Return? && turn.outcome.Gathered?;
    assert req.Search? && s.procs[p].pc.progress.QueryRunning?;
    QueryAsked(c, req);
  }

  /** Request `p` holds its guard in state `k`, which comes before state `i`. */
  ghost predicate InsideBefore(states: seq<State>, k: nat, i: nat, p: nat) {
    && k < i < |states| && p < |states[k].procs| && p < |states[i].procs|
    && states[k].procs[p].pc.Inside? && states[k].procs[p].request == states[i].procs[p].request
  }

  lemma {:induction false} EncodesOneInstant(
      c: Config, db: Database, states: seq<State>, actions: seq<Action>, i: nat, p: nat)
    returns (k: nat)
    requires Run(c, db, states, actions) && i <= |actions| && p < |states[i].procs|
    requires states[i].procs[p].pc.Encoding?
    ensures InsideBefore(states, k, i, p)
    ensures var proc := states[i].procs[p];
            GatheredFrom(c, states[k], proc.request, proc.pc.output, proc.pc.batches)
    decreases i
  {
    k := i - 1;
    EncodingComesFromWork(c, states[k], actions[k], p);
    if states[k].procs[p] == states[i].procs[p] {
      k := EncodesOneInstant(c, db, states, actions, k, p);
    } else {
      var log, served := Serialisable(c, db, states, actions);
      TrackAt(c, db, states, log, served, k);
      GatherStep(c, Replay(c, db, log[..served[k]]), states[k], p);
    }
  }

  /**
   A search that finds something answers with the encoding of what its query gives on the table as
   it was in one state in which it held its guard, although it encodes after the guard is gone.
   */
  lemma {:induction false} SearchSeesOneInstant(
      c: Config, db: Database, states: seq<State>, actions: seq<Action>, i: nat, p: nat)
    returns (k: nat, output: Schema, batches: seq<GoodBatch>)
    requires Run(c, db, states, actions) && i <= |actions| && p < |states[i].procs|
    requires states[i].procs[p].pc.Finished? && states[i].procs[p].pc.reply.Found?
    ensures InsideBefore(states, k, i, p)
    ensures var proc := states[i].procs[p];
            && GatheredFrom(c, states[k], proc.request, output, batches)
            && AnswerOf(c, proc.request.outputFormat, output, batches, proc.pc.reply)
    decreases i
  {
    var before := states[i - 1];
    if p < |before.procs| && before.procs[p] == states[i].procs[p] {
      k, output, batches := SearchSeesOneInstant(c, db, states, actions, i - 1, p);
    } else {
      FoundComesFromEncoding(c, before, actions[i - 1], p);
      k := EncodesOneInstant(c, db, states, actions, i - 1, p);
      output, batches := before.procs[p].pc.output, before.procs[p].pc.batches;
      ReplyIsAnswer(c, before.procs[p].request.outputFormat, output, batches);
    }
  }

  lemma FoundComesFromEncoding(c: Config, s: State, a: Action, p: nat)
    requires Enabled(c, s, a) && p < |Apply(c, s, a).procs|
    requires Apply(c, s, a).procs[p].pc.Finished? && Apply(c, s, a).procs[p].pc.reply.Found?
    requires !(p < |s.procs| && s.procs[p] == Apply(c, s, a).procs[p])
    ensures a == Encode(p) && s.procs[p].pc.Encoding? && s.procs[p].request == Apply(c, s, a).procs[p].request
  {
  }
}
