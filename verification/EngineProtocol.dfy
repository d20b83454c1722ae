/**
 Any number of requests on one engine, run interleaved: limiter, lock table, per-table fair
 reader-writer locks, and one database call at a time under the lock.
 */
module EngineProtocol {
  import opened Prelude
  import opened Text
  import opened Columnar
  import opened EngineOps

  /** A table lock: the requests that hold a read guard, and the one that holds the write guard. */
  datatype RwLock = RwLock(readers: set<nat>, writer: Option<nat>)

  datatype Pc =
    | Arrived
    | WantsPermit
    | HasPermit
    | WantsLock
    | HasLock(lock: nat)
    | Queued(lock: nat, ticket: nat)
    | Inside(lock: nat, progress: Progress)
    | Encoding(output: Schema, batches: seq<GoodBatch>)
    | Finished(reply: Reply)
    | Gone

  datatype Proc = Proc(request: Request, pc: Pc)

  datatype State = State(
    db: Database,
    lockTable: map<string, nat>,
    locks: seq<RwLock>,
    permits: nat,
    tickets: nat,
    procs: seq<Proc>)

  /**
   What can happen next. `Break` is a library call that fails, `EncodeBreak` an encoding task that
   fails, `Drop` a caller that drops the request, as the gRPC timeout does.
   */
  datatype Action =
    | Arrive(request: Request)
    | Check(p: nat)
    | TakePermit(p: nat)
    | ReturnPermit(p: nat)
    | LookUpLock(p: nat)
    | Enqueue(p: nat)
    | Grant(p: nat)
    | Work(p: nat)
    | Break(p: nat, message: string)
    | Encode(p: nat)
    | EncodeBreak(p: nat, message: string)
    | Drop(p: nat)

  function Capacity(c: Config): nat {
    Max(1, c.options.maxConcurrentRequests)
  }

  function Initial(c: Config, db: Database): State {
    State(db, map[], [], Capacity(c), 0, [])
  }

  function NameOf(s: State, p: nat): string
    requires p < |s.procs|
  {
    Target(s.procs[p].request)
  }

  predicate IsReader(req: Request) {
    req.Search?
  }

  predicate Settled(pc: Pc) {
    pc.Finished? || pc.Gone?
  }

  function SetPc(s: State, p: nat, pc: Pc): State
    requires p < |s.procs|
  {
    s.(procs := s.procs[p := s.procs[p].(pc := pc)])
  }

  /** No one waits longer for the same lock: the locks of tokio serve their queue in order. */
  predicate FirstInLine(s: State, p: nat)
    requires p < |s.procs| && s.procs[p].pc.Queued?
  {
    forall q :: 0 <= q < |s.procs| && s.procs[q].pc.Queued? && s.procs[q].pc.lock == s.procs[p].pc.lock ==>
      s.procs[p].pc.ticket <= s.procs[q].pc.ticket
  }

  predicate Admits(lock: RwLock, req: Request) {
    lock.writer.None? && (IsReader(req) || lock.readers == {})
  }

  function Acquire(lock: RwLock, req: Request, p: nat): RwLock {
    if IsReader(req) then lock.(readers := lock.readers + {p}) else lock.(writer := Some(p))
  }

  function Release(lock: RwLock, req: Request, p: nat): RwLock {
    if IsReader(req) then lock.(readers := lock.readers - {p}) else lock.(writer := None)
  }

  function AfterBody(outcome: Outcome): Pc {
    match outcome
    case Replied(reply) => Finished(reply)
    case Gathered(output, batches) => Encoding(output, batches)
    case Abandoned => Gone
  }

  /** The request leaves the locked part: its guard is dropped and its outcome decides what follows. */
  function Leave(s: State, p: nat, outcome: Outcome, table: Option<Table>): State
    requires p < |s.procs| && s.procs[p].pc.Inside? && s.procs[p].pc.lock < |s.locks|
  {
    var l := s.procs[p].pc.lock;
    SetPc(s, p, AfterBody(outcome))
      .(locks := s.locks[l := Release(s.locks[l], s.procs[p].request, p)],
        db := Store(s.db, NameOf(s, p), table))
  }

  predicate Enabled(c: Config, s: State, a: Action) {
    if a.Arrive? then true
    else
      && a.p < |s.procs|
      && var pc := s.procs[a.p].pc;
         match a
         case Check(p) => pc.Arrived?
         case TakePermit(p) => pc.WantsPermit? && s.permits > 0
         case ReturnPermit(p) => pc.HasPermit?
         case LookUpLock(p) => pc.WantsLock?
         case Enqueue(p) => pc.HasLock?
         case Grant(p) =>
           pc.Queued? && pc.lock < |s.locks| && FirstInLine(s, p) && Admits(s.locks[pc.lock], s.procs[p].request)
         case Work(p) => pc.Inside? && pc.lock < |s.locks| && Suits(s.procs[p].request, pc.progress)
         case Break(p, _) => pc.Inside? && pc.lock < |s.locks|
         case Encode(p) => pc.Encoding? && IsReader(s.procs[p].request)
         case EncodeBreak(p, _) => pc.Encoding?
         // The permit is given back in the same poll that took it, so no drop falls in between.
         case Drop(p) => !Settled(pc) && !pc.HasPermit? && (pc.Inside? ==> pc.lock < |s.locks|)
  }

  function DoCheck(c: Config, s: State, p: nat): State
    requires p < |s.procs|
  {
    match Refusal(c, s.procs[p].request)
    case Some(e) => SetPc(s, p, Finished(Failed(e)))
    case None => SetPc(s, p, WantsPermit)
  }

  /** `lock_for`: one lock object a trimmed name, made at the first request for it and kept. */
  function DoLookUp(s: State, p: nat): State
    requires p < |s.procs|
  {
    var key := Trim(NameOf(s, p));
    if key in s.lockTable then SetPc(s, p, HasLock(s.lockTable[key]))
    else
      SetPc(s, p, HasLock(|s.locks|))
        .(lockTable := s.lockTable[key := |s.locks|], locks := s.locks + [RwLock({}, None)])
  }

  /** What a turn of a request inside does to the state. */
  function Proceed(s: State, p: nat, turn: Turn): State
    requires p < |s.procs| && s.procs[p].pc.Inside? && s.procs[p].pc.lock < |s.locks|
  {
    match turn
    case Continue(progress, table) =>
      SetPc(s, p, Inside(s.procs[p].pc.lock, progress)).(db := Store(s.db, NameOf(s, p), table))
    case Return(outcome, table) => Leave(s, p, outcome, table)
  }

  function DoWork(c: Config, s: State, p: nat): State
    requires Enabled(c, s, Work(p))
  {
    Proceed(s, p, BodyStep(c, s.procs[p].request, s.procs[p].pc.progress, Lookup(s.db, NameOf(s, p))))
  }

  function Apply(c: Config, s: State, a: Action): State
    requires Enabled(c, s, a)
  {
    match a
    case Arrive(request) => s.(procs := s.procs + [Proc(request, Arrived)])
    case Check(p) => DoCheck(c, s, p)
    case TakePermit(p) => SetPc(s, p, HasPermit).(permits := s.permits - 1)
    case ReturnPermit(p) => SetPc(s, p, WantsLock).(permits := s.permits + 1)
    case LookUpLock(p) => DoLookUp(s, p)
    case Enqueue(p) => SetPc(s, p, Queued(s.procs[p].pc.lock, s.tickets)).(tickets := s.tickets + 1)
    case Grant(p) =>
      var l := s.procs[p].pc.lock;
      SetPc(s, p, Inside(l, Entered)).(locks := s.locks[l := Acquire(s.locks[l], s.procs[p].request, p)])
    case Work(p) => DoWork(c, s, p)
    case Break(p, message) =>
      Leave(s, p, Replied(Failed(Internal(LibraryFailure(message)))), Lookup(s.db, NameOf(s, p)))
    case Encode(p) =>
      var pc := s.procs[p].pc;
      SetPc(s, p, Finished(EncodeReply(c, s.procs[p].request.outputFormat, pc.output, pc.batches)))
    case EncodeBreak(p, message) => SetPc(s, p, Finished(Failed(Internal(LibraryFailure(message)))))
    case Drop(p) =>
      if s.procs[p].pc.Inside? then Leave(s, p, Abandoned, Lookup(s.db, NameOf(s, p))) else SetPc(s, p, Gone)
  }

  /** A run: the states passed through and the actions between them. */
  ghost predicate Behaviour(c: Config, states: seq<State>, actions: seq<Action>) {
    && |states| == |actions| + 1
    && forall i :: 0 <= i < |actions| ==>
         Enabled(c, states[i], actions[i]) && states[i + 1] == Apply(c, states[i], actions[i])
  }

  /** A run from an engine opened on the tables of `db`. */
  ghost predicate Run(c: Config, db: Database, states: seq<State>, actions: seq<Action>) {
    Behaviour(c, states, actions) && states[0] == Initial(c, db)
  }

  ghost predicate Reachable(c: Config, db: Database, s: State) {
    exists states, actions :: Run(c, db, states, actions) && states[|actions|] == s
  }
}
