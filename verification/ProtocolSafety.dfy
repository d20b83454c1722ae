/** What holds in every reachable state of the protocol: locks, lock table, permits. */
module ProtocolSafety {
  import opened Prelude
  import opened Text
  import opened EngineOps
  import opened EngineProtocol

  // ---------------------------------------------------------------- locks

  /** Names are trimmed, and each has a lock of its own. */
  ghost predicate TableInv(s: State) {
    && (forall n :: n in s.lockTable ==> s.lockTable[n] < |s.locks|)
    && (forall n, m :: n in s.lockTable && m in s.lockTable && s.lockTable[n] == s.lockTable[m] ==> n == m)
  }

  ghost predicate NamesLock(s: State, p: nat, l: nat)
    requires p < |s.procs|
  {
    NameOf(s, p) in s.lockTable && s.lockTable[NameOf(s, p)] == l && l < |s.locks|
  }

  ghost predicate ProcInv(s: State, p: nat)
    requires p < |s.procs|
  {
    match s.procs[p].pc
    case HasLock(l) => NamesLock(s, p, l)
    case Queued(l, t) => NamesLock(s, p, l) && t < s.tickets
    case Inside(l, progress) => NamesLock(s, p, l) && Suits(s.procs[p].request, progress)
    case Encoding(_, _) => IsReader(s.procs[p].request)
    case _ => true
  }

  ghost predicate CheckedInv(c: Config, s: State, p: nat)
    requires p < |s.procs|
  {
    s.procs[p].pc.Arrived? || s.procs[p].pc.Finished? || s.procs[p].pc.Gone? || Refusal(c, s.procs[p].request).None?
  }

  ghost predicate HoldsRead(s: State, p: nat, l: nat) {
    p < |s.procs| && s.procs[p].pc.Inside? && s.procs[p].pc.lock == l && IsReader(s.procs[p].request)
  }

  ghost predicate HoldsWrite(s: State, p: nat, l: nat) {
    p < |s.procs| && s.procs[p].pc.Inside? && s.procs[p].pc.lock == l && !IsReader(s.procs[p].request)
  }

  /** The guards a lock has given out are exactly the requests inside, and a writer is alone. */
  ghost predicate HolderInv(s: State, l: nat)
    requires l < |s.locks|
  {
    && (forall p: nat :: p in s.locks[l].readers <==> HoldsRead(s, p, l))
    && (forall p: nat :: s.locks[l].writer == Some(p) <==> HoldsWrite(s, p, l))
    && (s.locks[l].writer.Some? ==> s.locks[l].readers == {})
  }

  ghost predicate LockInv(c: Config, s: State) {
    && TableInv(s)
    && (forall p :: 0 <= p < |s.procs| ==> ProcInv(s, p))
    && (forall p :: 0 <= p < |s.procs| ==> CheckedInv(c, s, p))
    && (forall l :: 0 <= l < |s.locks| ==> HolderInv(s, l))
  }

  /** Moving one request between points that hold no guard leaves every lock's holders alone. */
  lemma OutsideKeepsHolders(s: State, s': State, p: nat)
    requires p < |s.procs| == |s'.procs|
    requires forall q :: 0 <= q < |s.procs| && q != p ==> s'.procs[q] == s.procs[q]
    requires s'.procs[p].request == s.procs[p].request
    requires !s.procs[p].pc.Inside? && !s'.procs[p].pc.Inside?
    requires s.locks <= s'.locks
    requires forall l :: 0 <= l < |s.locks| ==> HolderInv(s, l)
    ensures forall l :: 0 <= l < |s.locks| ==> HolderInv(s', l)
  {
    forall l | 0 <= l < |s.locks|
      ensures HolderInv(s', l)
    {
      assert HolderInv(s, l);
      forall q: nat
        ensures HoldsRead(s', q, l) == HoldsRead(s, q, l) && HoldsWrite(s', q, l) == HoldsWrite(s, q, l)
      {
      }
    }
  }

  lemma LookUpKeeps(c: Config, s: State, p: nat)
    requires LockInv(c, s) && Enabled(c, s, LookUpLock(p))
    ensures LockInv(c, Apply(c, s, LookUpLock(p)))
  {
    var s' := Apply(c, s, LookUpLock(p));
    TrimIsIdempotent(s.procs[p].request.table);
    OutsideKeepsHolders(s, s', p);
    forall l | 0 <= l < |s'.locks|
      ensures HolderInv(s', l)
    {
      if l == |s.locks| {
        forall q: nat
          ensures !HoldsRead(s', q, l) && !HoldsWrite(s', q, l)
        {
          if q < |s.procs| { assert ProcInv(s, q); }
        }
      }
    }
    forall q | 0 <= q < |s'.procs|
      ensures ProcInv(s', q) && CheckedInv(c, s', q)
    {
      assert ProcInv(s, q) && CheckedInv(c, s, q);
    }
  }

  lemma GrantKeeps(c: Config, s: State, p: nat)
    requires LockInv(c, s) && Enabled(c, s, Grant(p))
    ensures LockInv(c, Apply(c, s, Grant(p)))
  {
    var s' := Apply(c, s, Grant(p));
    assert ProcInv(s, p) && CheckedInv(c, s, p);
    var l0 := s.procs[p].pc.lock;
    forall l | 0 <= l < |s'.locks|
      ensures HolderInv(s', l)
    {
      assert HolderInv(s, l);
      forall q: nat
        ensures HoldsRead(s', q, l) <==> HoldsRead(s, q, l) || (q == p && l == l0 && IsReader(s.procs[p].request))
        ensures HoldsWrite(s', q, l) <==> HoldsWrite(s, q, l) || (q == p && l == l0 && !IsReader(s.procs[p].request))
      {
      }
    }
    forall q | 0 <= q < |s'.procs|
      ensures ProcInv(s', q) && CheckedInv(c, s', q)
    {
      assert ProcInv(s, q) && CheckedInv(c, s, q);
    }
  }

  lemma LeaveKeeps(c: Config, s: State, p: nat, outcome: Outcome, table: Option<Table>)
    requires LockInv(c, s) && p < |s.procs| && s.procs[p].pc.Inside? && s.procs[p].pc.lock < |s.locks|
    requires outcome.Gathered? ==> IsReader(s.procs[p].request)
    ensures LockInv(c, Leave(s, p, outcome, table))
  {
    var s' := Leave(s, p, outcome, table);
    assert ProcInv(s, p) && CheckedInv(c, s, p);
    var l0 := s.procs[p].pc.lock;
    forall l | 0 <= l < |s'.locks|
      ensures HolderInv(s', l)
    {
      assert HolderInv(s, l);
      forall q: nat
        ensures HoldsRead(s', q, l) <==> HoldsRead(s, q, l) && q != p
        ensures HoldsWrite(s', q, l) <==> HoldsWrite(s, q, l) && q != p
      {
      }
      assert HoldsRead(s, p, l0) || HoldsWrite(s, p, l0);
      if l == l0 && !IsReader(s.procs[p].request) {
        assert s.locks[l].writer == Some(p);
        assert forall q: nat :: HoldsWrite(s, q, l) ==> q == p;
      }
    }
    forall q | 0 <= q < |s'.procs|
      ensures ProcInv(s', q) && CheckedInv(c, s', q)
    {
      assert ProcInv(s, q) && CheckedInv(c, s, q);
    }
  }

  lemma ContinueKeeps(c: Config, s: State, p: nat, turn: Turn)
    requires LockInv(c, s) && p < |s.procs| && s.procs[p].pc.Inside? && s.procs[p].pc.lock < |s.locks|
    requires turn.Continue? && Suits(s.procs[p].request, turn.progress)
    ensures LockInv(c, Proceed(s, p, turn))
  {
    var s' := Proceed(s, p, turn);
    forall l | 0 <= l < |s'.locks|
      ensures HolderInv(s', l)
    {
      assert HolderInv(s, l);
      forall q: nat
        ensures HoldsRead(s', q, l) == HoldsRead(s, q, l) && HoldsWrite(s', q, l) == HoldsWrite(s, q, l)
      {
      }
    }
    forall q | 0 <= q < |s'.procs|
      ensures ProcInv(s', q) && CheckedInv(c, s', q)
    {
      assert ProcInv(s, q) && CheckedInv(c, s, q);
    }
  }

  lemma WorkKeeps(c: Config, s: State, p: nat)
    requires LockInv(c, s) && Enabled(c, s, Work(p))
    ensures LockInv(c, Apply(c, s, Work(p)))
  {
    var turn := BodyStep(c, s.procs[p].request, s.procs[p].pc.progress, Lookup(s.db, NameOf(s, p)));
    match turn
    case Continue(_, _) => ContinueKeeps(c, s, p, turn);
    case Return(outcome, table) => LeaveKeeps(c, s, p, outcome, table);
  }

  /** The steps that touch no guard and no lock. */
  ghost predicate Plain(s: State, a: Action) {
    || a.Check? || a.TakePermit? || a.ReturnPermit? || a.Enqueue? || a.Encode? || a.EncodeBreak?
    || (a.Drop? && a.p < |s.procs| && !s.procs[a.p].pc.Inside?)
  }

  lemma PlainKeeps(c: Config, s: State, a: Action)
    requires LockInv(c, s) && Enabled(c, s, a) && Plain(s, a)
    ensures LockInv(c, Apply(c, s, a))
  {
    var s' := Apply(c, s, a);
    OutsideKeepsHolders(s, s', a.p);
    forall q | 0 <= q < |s'.procs|
      ensures ProcInv(s', q) && CheckedInv(c, s', q)
    {
      assert ProcInv(s, q) && CheckedInv(c, s, q);
    }
  }

  lemma ArriveKeeps(c: Config, s: State, req: Request)
    requires LockInv(c, s)
    ensures LockInv(c, Apply(c, s, Arrive(req)))
  {
    var s' := Apply(c, s, Arrive(req));
    forall l | 0 <= l < |s'.locks|
      ensures HolderInv(s', l)
    {
      assert HolderInv(s, l);
      forall q: nat
        ensures HoldsRead(s', q, l) == HoldsRead(s, q, l) && HoldsWrite(s', q, l) == HoldsWrite(s, q, l)
      {
      }
    }
    forall q | 0 <= q < |s'.procs|
      ensures ProcInv(s', q) && CheckedInv(c, s', q)
    {
      if q < |s.procs| { assert ProcInv(s, q) && CheckedInv(c, s, q); }
    }
  }

  /** Every step, drops at any await point included, keeps the lock discipline. */
  lemma StepKeepsLocks(c: Config, s: State, a: Action)
    requires LockInv(c, s) && Enabled(c, s, a)
    ensures LockInv(c, Apply(c, s, a))
  {
    match a
    case Arrive(req) => ArriveKeeps(c, s, req);
    case LookUpLock(p) => LookUpKeeps(c, s, p);
    case Grant(p) => GrantKeeps(c, s, p);
    case Work(p) => WorkKeeps(c, s, p);
    case Break(p, message) =>
      LeaveKeeps(c, s, p, Replied(Failed(Internal(LibraryFailure(message)))), Lookup(s.db, NameOf(s, p)));
    case Drop(p) =>
      if s.procs[p].pc.Inside? {
        LeaveKeeps(c, s, p, Abandoned, Lookup(s.db, NameOf(s, p)));
      } else {
        PlainKeeps(c, s, a);
      }
    case Check(_) => PlainKeeps(c, s, a);
    case TakePermit(_) => PlainKeeps(c, s, a);
    case ReturnPermit(_) => PlainKeeps(c, s, a);
    case Enqueue(_) => PlainKeeps(c, s, a);
    case Encode(_) => PlainKeeps(c, s, a);
    case EncodeBreak(_, _) => PlainKeeps(c, s, a);
  }

  // ---------------------------------------------------------------- permits

  function Holding(procs: seq<Proc>): nat {
    if |procs| == 0 then 0
    else Holding(procs[..|procs| - 1]) + (if procs[|procs| - 1].pc.HasPermit? then 1 else 0)
  }

  lemma {:induction false} HoldingUpdate(procs: seq<Proc>, p: nat, proc: Proc)
    requires p < |procs|
    ensures Holding(procs[p := proc]) + (if procs[p].pc.HasPermit? then 1 else 0)
         == Holding(procs) + (if proc.pc.HasPermit? then 1 else 0)
  {
    var n := |procs| - 1;
    var changed := procs[p := proc];
    if p < n {
      assert changed[..n] == procs[..n][p := proc];
      HoldingUpdate(procs[..n], p, proc);
    } else {
      assert changed[..n] == procs[..n];
    }
  }

  lemma {:induction false} HoldingNone(procs: seq<Proc>)
    requires forall p :: 0 <= p < |procs| ==> !procs[p].pc.HasPermit?
    ensures Holding(procs) == 0
  {
    if |procs| > 0 { HoldingNone(procs[..|procs| - 1]); }
  }

  ghost predicate PermitInv(c: Config, s: State) {
    s.permits + Holding(s.procs) == Capacity(c)
  }

  function PermitHeld(pc: Pc): nat {
    if pc.HasPermit? then 1 else 0
  }

  /** A step moves one request, and moves a permit only with it. */
  lemma OneMoves(c: Config, s: State, a: Action)
    requires Enabled(c, s, a) && !a.Arrive?
    ensures |Apply(c, s, a).procs| == |s.procs|
    ensures Apply(c, s, a).procs == s.procs[a.p := s.procs[a.p].(pc := Apply(c, s, a).procs[a.p].pc)]
    ensures Apply(c, s, a).permits + PermitHeld(Apply(c, s, a).procs[a.p].pc) == s.permits + PermitHeld(s.procs[a.p].pc)
  {
  }

  /** Permits free and permits held for a moment always add up to the configured number, or 1. */
  lemma StepKeepsPermits(c: Config, s: State, a: Action)
    requires PermitInv(c, s) && Enabled(c, s, a)
    ensures PermitInv(c, Apply(c, s, a))
  {
    var s' := Apply(c, s, a);
    if a.Arrive? {
      assert s'.procs[..|s.procs|] == s.procs;
    } else {
      OneMoves(c, s, a);
      HoldingUpdate(s.procs, a.p, s'.procs[a.p]);
    }
  }

  // ---------------------------------------------------------------- over whole runs

  lemma {:induction false} RunKeeps(c: Config, db: Database, states: seq<State>, actions: seq<Action>, i: nat)
    requires Run(c, db, states, actions) && i <= |actions|
    ensures LockInv(c, states[i]) && PermitInv(c, states[i])
  {
    if i > 0 {
      RunKeeps(c, db, states, actions, i - 1);
      StepKeepsLocks(c, states[i - 1], actions[i - 1]);
      StepKeepsPermits(c, states[i - 1], actions[i - 1]);
    }
  }

  lemma ReachableKeeps(c: Config, db: Database, s: State)
    requires Reachable(c, db, s)
    ensures LockInv(c, s) && PermitInv(c, s)
  {
    var states, actions :| Run(c, db, states, actions) && states[|actions|] == s;
    RunKeeps(c, db, states, actions, |actions|);
  }

  lemma InsideShareLock(c: Config, s: State, p: nat, q: nat)
    requires LockInv(c, s) && p < |s.procs| && q < |s.procs| && p != q
    requires s.procs[p].pc.Inside? && s.procs[q].pc.Inside? && NameOf(s, p) == NameOf(s, q)
    ensures IsReader(s.procs[p].request) && IsReader(s.procs[q].request)
  {
    assert ProcInv(s, p) && ProcInv(s, q);
    var l := s.procs[p].pc.lock;
    assert HolderInv(s, l);
    assert HoldsRead(s, p, l) || HoldsWrite(s, p, l);
    assert HoldsRead(s, q, l) || HoldsWrite(s, q, l);
  }

  predicate GuardGivenTo(lock: RwLock, p: nat) {
    p in lock.readers || lock.writer == Some(p)
  }

  /** Request `p` is inside the locked part, under lock `l`, which is that of its trimmed table name. */
  predicate LivesUnder(s: State, p: nat, l: nat) {
    && p < |s.procs| && s.procs[p].pc.Inside? && s.procs[p].pc.lock == l
    && Lookup(s.lockTable, Trim(s.procs[p].request.table)) == Some(l)
  }

  lemma GuardIsOfLiveRequest(c: Config, s: State, l: nat, p: nat)
    requires LockInv(c, s) && l < |s.locks| && GuardGivenTo(s.locks[l], p)
    ensures LivesUnder(s, p, l)
  {
    assert HolderInv(s, l);
    assert HoldsRead(s, p, l) || HoldsWrite(s, p, l);
    assert ProcInv(s, p);
  }

  /**
   Per-table exclusion: two requests inside the locked part whose table names trim to the same text
   are both searches; and every guard a lock has given out belongs to a live request inside on that
   very table, so no request holds two.
   */
  lemma TableExclusion(c: Config, db: Database, s: State)
    requires Reachable(c, db, s)
    ensures forall p, q | 0 <= p < |s.procs| && 0 <= q < |s.procs| && p != q
                          && s.procs[p].pc.Inside? && s.procs[q].pc.Inside?
                          && Trim(s.procs[p].request.table) == Trim(s.procs[q].request.table) ::
              s.procs[p].request.Search? && s.procs[q].request.Search?
    ensures forall l: nat, p: nat | l < |s.locks| && GuardGivenTo(s.locks[l], p) :: LivesUnder(s, p, l)
  {
    ReachableKeeps(c, db, s);
    forall p, q | 0 <= p < |s.procs| && 0 <= q < |s.procs| && p != q
                  && s.procs[p].pc.Inside? && s.procs[q].pc.Inside?
                  && Trim(s.procs[p].request.table) == Trim(s.procs[q].request.table)
      ensures s.procs[p].request.Search? && s.procs[q].request.Search?
    {
      InsideShareLock(c, s, p, q);
    }
    forall l: nat, p: nat | l < |s.locks| && GuardGivenTo(s.locks[l], p)
      ensures LivesUnder(s, p, l)
    {
      GuardIsOfLiveRequest(c, s, l, p);
    }
  }

  /**
   A request that waits, works or encodes can be dropped at any time: it is gone, holds no guard any
   more, and leaves tables, permits and all other requests as they are.
   */
  lemma DropLeavesNoGuard(c: Config, s: State, p: nat)
    requires LockInv(c, s) && p < |s.procs| && !Settled(s.procs[p].pc) && !s.procs[p].pc.HasPermit?
    ensures Enabled(c, s, Drop(p))
    ensures var s' := Apply(c, s, Drop(p));
            && s'.procs == s.procs[p := Proc(s.procs[p].request, Gone)]
            && s'.db == s.db && s'.permits == s.permits && s'.lockTable == s.lockTable
            && forall l :: 0 <= l < |s'.locks| ==> !GuardGivenTo(s'.locks[l], p)
  {
    assert ProcInv(s, p);
    var s' := Apply(c, s, Drop(p));
    StepKeepsLocks(c, s, Drop(p));
    forall l | 0 <= l < |s'.locks|
      ensures !GuardGivenTo(s'.locks[l], p)
    {
      if GuardGivenTo(s'.locks[l], p) { GuardIsOfLiveRequest(c, s', l, p); }
    }
  }

  /** The lock table only grows, and no name is ever given another lock. */
  lemma {:induction false} LockTableGrows(c: Config, states: seq<State>, actions: seq<Action>, i: nat, j: nat)
    requires Behaviour(c, states, actions) && i <= j <= |actions|
    ensures forall n :: n in states[i].lockTable ==>
              n in states[j].lockTable && states[j].lockTable[n] == states[i].lockTable[n]
    decreases j
  {
    if i < j {
      LockTableGrows(c, states, actions, i, j - 1);
    }
  }

  /** Permits are conserved in every reachable state. */
  lemma PermitsConserved(c: Config, db: Database, s: State)
    requires Reachable(c, db, s)
    ensures s.permits + Holding(s.procs) == Max(1, c.options.maxConcurrentRequests)
  {
    ReachableKeeps(c, db, s);
  }
}
