/** The protocol never gets stuck and, once requests stop arriving, always drains. */
module ProtocolProgress {
  import opened Prelude
  import opened Text
  import opened JsonValues
  import opened EngineOps
  import opened EngineProtocol
  import opened ProtocolSafety

  // ---------------------------------------------------------------- a measure

  /** A bound on the steps a request still has before it. */
  function Rank(pc: Pc): nat {
    match pc
    case Arrived => 16
    case WantsPermit => 15
    case HasPermit => 14
    case WantsLock => 13
    case HasLock(_) => 12
    case Queued(_, _) => 11
    case Inside(_, progress) => 10 - StepsDone(progress)
    case Encoding(_, _) => 1
    case Finished(_) => 0
    case Gone => 0
  }

  function Remaining(procs: seq<Proc>): nat {
    if |procs| == 0 then 0 else Remaining(procs[..|procs| - 1]) + Rank(procs[|procs| - 1].pc)
  }

  lemma {:induction false} RemainingUpdate(procs: seq<Proc>, p: nat, proc: Proc)
    requires p < |procs|
    ensures Remaining(procs[p := proc]) + Rank(procs[p].pc) == Remaining(procs) + Rank(proc.pc)
  {
    var n := |procs| - 1;
    var changed := procs[p := proc];
    if p < n {
      assert changed[..n] == procs[..n][p := proc];
      RemainingUpdate(procs[..n], p, proc);
    } else {
      assert changed[..n] == procs[..n];
    }
  }

  lemma ProceedRank(s: State, p: nat, turn: Turn)
    requires p < |s.procs| && s.procs[p].pc.Inside? && s.procs[p].pc.lock < |s.locks|
    requires turn.Continue? ==> StepsDone(turn.progress) == StepsDone(s.procs[p].pc.progress) + 1
    ensures |Proceed(s, p, turn).procs| == |s.procs|
    ensures Rank(Proceed(s, p, turn).procs[p].pc) < Rank(s.procs[p].pc)
  {
  }

  lemma StepRank(c: Config, s: State, a: Action)
    requires Enabled(c, s, a) && !a.Arrive?
    ensures |Apply(c, s, a).procs| == |s.procs|
    ensures Rank(Apply(c, s, a).procs[a.p].pc) < Rank(s.procs[a.p].pc)
  {
    if a.Work? {
      ProceedRank(s, a.p, BodyStep(c, s.procs[a.p].request, s.procs[a.p].pc.progress, Lookup(s.db, NameOf(s, a.p))));
    }
  }

  /** Every step but an arrival, library failures and drops included, leaves less work. */
  lemma StepLowersRemaining(c: Config, s: State, a: Action)
    requires Enabled(c, s, a) && !a.Arrive?
    ensures Remaining(Apply(c, s, a).procs) < Remaining(s.procs)
  {
    StepRank(c, s, a);
    OneMoves(c, s, a);
    RemainingUpdate(s.procs, a.p, Apply(c, s, a).procs[a.p]);
  }

  /** Without arrivals a run is no longer than the work its first state has: no request waits by spinning. */
  lemma {:induction false} RunsAreBounded(c: Config, states: seq<State>, actions: seq<Action>)
    requires Behaviour(c, states, actions)
    requires forall i :: 0 <= i < |actions| ==> !actions[i].Arrive?
    ensures |actions| + Remaining(states[|actions|].procs) <= Remaining(states[0].procs)
    decreases |actions|
  {
    var n := |actions|;
    if n > 0 {
      RunsAreBounded(c, states[..n], actions[..n - 1]);
      StepLowersRemaining(c, states[n - 1], actions[n - 1]);
    }
  }

  // ---------------------------------------------------------------- never stuck

  ghost predicate AllSettled(s: State) {
    forall p :: 0 <= p < |s.procs| ==> Settled(s.procs[p].pc)
  }

  /** A step the request itself takes when the libraries do their work: no arrival, failure or drop. */
  predicate Regular(a: Action) {
    !a.Arrive? && !a.Break? && !a.EncodeBreak? && !a.Drop?
  }

  predicate Waiting(pc: Pc) {
    pc.WantsPermit? || pc.Queued?
  }

  lemma OwnStep(c: Config, s: State, p: nat) returns (a: Action)
    requires LockInv(c, s) && p < |s.procs| && !Settled(s.procs[p].pc) && !Waiting(s.procs[p].pc)
    ensures Regular(a) && Enabled(c, s, a)
  {
    assert ProcInv(s, p);
    match s.procs[p].pc
    case Arrived => a := Check(p);
    case HasPermit => a := ReturnPermit(p);
    case WantsLock => a := LookUpLock(p);
    case HasLock(_) => a := Enqueue(p);
    case Inside(_, _) => a := Work(p);
    case Encoding(_, _) => a := Encode(p);
  }

  lemma LongestWaiting(s: State, p: nat) returns (q: nat)
    requires p < |s.procs| && s.procs[p].pc.Queued?
    ensures q < |s.procs| && s.procs[q].pc.Queued? && FirstInLine(s, q)
    ensures s.procs[q].pc.lock == s.procs[p].pc.lock && s.procs[q].pc.ticket <= s.procs[p].pc.ticket
  {
    q := p;
    for k := 0 to |s.procs|
      invariant q < |s.procs| && s.procs[q].pc.Queued?
      invariant s.procs[q].pc.lock == s.procs[p].pc.lock && s.procs[q].pc.ticket <= s.procs[p].pc.ticket
      invariant forall r :: 0 <= r < k && s.procs[r].pc.Queued? && s.procs[r].pc.lock == s.procs[p].pc.lock ==>
                  s.procs[q].pc.ticket <= s.procs[r].pc.ticket
    {
      var pc := s.procs[k].pc;
      if pc.Queued? && pc.lock == s.procs[p].pc.lock && pc.ticket < s.procs[q].pc.ticket {
        q := k;
      }
    }
  }

  lemma FreeLockAdmits(c: Config, s: State, q: nat)
    requires LockInv(c, s) && q < |s.procs| && s.procs[q].pc.Queued?
    requires forall p :: 0 <= p < |s.procs| && s.procs[p].pc.Inside? ==> s.procs[p].pc.lock != s.procs[q].pc.lock
    ensures s.procs[q].pc.lock < |s.locks| && Admits(s.locks[s.procs[q].pc.lock], s.procs[q].request)
  {
    assert ProcInv(s, q);
    var l := s.procs[q].pc.lock;
    assert HolderInv(s, l);
    forall p: nat
      ensures p !in s.locks[l].readers && s.locks[l].writer != Some(p)
    {
      assert !HoldsRead(s, p, l) && !HoldsWrite(s, p, l);
    }
  }

  /** While a request remains, some request can take a regular step. */
  lemma NeverStuck(c: Config, s: State) returns (a: Action)
    requires LockInv(c, s) && PermitInv(c, s) && !AllSettled(s)
    ensures Regular(a) && Enabled(c, s, a)
  {
    if p :| 0 <= p < |s.procs| && !Settled(s.procs[p].pc) && !Waiting(s.procs[p].pc) {
      a := OwnStep(c, s, p);
    } else if p :| 0 <= p < |s.procs| && s.procs[p].pc.WantsPermit? {
      HoldingNone(s.procs);
      a := TakePermit(p);
    } else {
      var p :| 0 <= p < |s.procs| && !Settled(s.procs[p].pc);
      var q := LongestWaiting(s, p);
      FreeLockAdmits(c, s, q);
      a := Grant(q);
    }
  }

  /** From any good state the requests there can all be brought to an end without a drop. */
  lemma {:induction false} Drain(c: Config, s: State) returns (states: seq<State>, actions: seq<Action>)
    requires LockInv(c, s) && PermitInv(c, s)
    ensures Behaviour(c, states, actions) && states[0] == s && AllSettled(states[|actions|])
    ensures forall i :: 0 <= i < |actions| ==> Regular(actions[i])
    decreases Remaining(s.procs)
  {
    if AllSettled(s) {
      states, actions := [s], [];
    } else {
      var a := NeverStuck(c, s);
      StepLowersRemaining(c, s, a);
      StepKeepsLocks(c, s, a);
      StepKeepsPermits(c, s, a);
      var rest, more := Drain(c, Apply(c, s, a));
      states, actions := [s] + rest, [a] + more;
    }
  }

  /** A step was possible wherever a run stopped with requests left, and stopping late enough leaves none. */
  lemma EveryRunDrains(c: Config, db: Database, states: seq<State>, actions: seq<Action>, from: nat)
    requires Run(c, db, states, actions) && from <= |actions|
    requires forall i :: from <= i < |actions| ==> !actions[i].Arrive?
    ensures |actions| - from <= Remaining(states[from].procs)
    ensures AllSettled(states[|actions|]) || exists a :: Regular(a) && Enabled(c, states[|actions|], a)
    ensures |actions| - from == Remaining(states[from].procs) ==> AllSettled(states[|actions|])
  {
    RunsAreBounded(c, states[from..], actions[from..]);
    RunKeeps(c, db, states, actions, |actions|);
    if !AllSettled(states[|actions|]) {
      var a := NeverStuck(c, states[|actions|]);
      StepLowersRemaining(c, states[|actions|], a);
    }
  }

  // ---------------------------------------------------------------- fair queues

  lemma {:induction false} RankNeverRises(c: Config, states: seq<State>, actions: seq<Action>, i: nat, j: nat, p: nat)
    requires Behaviour(c, states, actions) && i <= j <= |actions| && p < |states[i].procs|
    ensures p < |states[j].procs| && Rank(states[j].procs[p].pc) <= Rank(states[i].procs[p].pc)
    decreases j
  {
    if i < j {
      RankNeverRises(c, states, actions, i, j - 1, p);
      RankStepAt(c, states, actions, j - 1, p);
    }
  }

  lemma RankStepAt(c: Config, states: seq<State>, actions: seq<Action>, k: nat, p: nat)
    requires Behaviour(c, states, actions) && k < |actions| && p < |states[k].procs|
    ensures p < |states[k + 1].procs|
    ensures Rank(states[k + 1].procs[p].pc) <= Rank(states[k].procs[p].pc)
  {
    RankStep(c, states[k], actions[k], p);
  }

  lemma RankStep(c: Config, s: State, a: Action, p: nat)
    requires Enabled(c, s, a) && p < |s.procs|
    ensures p < |Apply(c, s, a).procs|
    ensures Apply(c, s, a).procs[p] == s.procs[p] || Rank(Apply(c, s, a).procs[p].pc) < Rank(s.procs[p].pc)
  {
    if !a.Arrive? {
      StepRank(c, s, a);
      OneMoves(c, s, a);
    }
  }

  /** In one step the later of two waiting requests can only be dropped while the earlier waits on. */
  lemma NoOvertakingStep(c: Config, s: State, a: Action, p: nat, q: nat)
    requires Enabled(c, s, a) && p < |s.procs| && q < |s.procs|
    requires s.procs[p].pc.Queued? && Apply(c, s, a).procs[p] == s.procs[p]
    requires s.procs[q].pc.Gone? || (s.procs[q].pc.Queued? && s.procs[q].pc.lock == s.procs[p].pc.lock
                                     && s.procs[p].pc.ticket < s.procs[q].pc.ticket)
    ensures q < |Apply(c, s, a).procs|
    ensures Apply(c, s, a).procs[q].pc.Gone? || Apply(c, s, a).procs[q] == s.procs[q]
  {
    if !a.Arrive? {
      OneMoves(c, s, a);
    }
  }

  /** A request seen waiting twice has waited in between, with the same ticket. */
  lemma {:induction false} StillQueued(c: Config, states: seq<State>, actions: seq<Action>, i: nat, j: nat, p: nat)
    requires Behaviour(c, states, actions) && i <= j <= |actions|
    requires p < |states[i].procs| && states[i].procs[p].pc.Queued?
    requires p < |states[j].procs| && states[j].procs[p].pc.Queued?
    ensures states[j].procs[p] == states[i].procs[p]
    ensures i < j ==> p < |states[j - 1].procs| && states[j - 1].procs[p] == states[i].procs[p]
    decreases j
  {
    if i < j {
      RankNeverRises(c, states, actions, i, j - 1, p);
      RankStep(c, states[j - 1], actions[j - 1], p);
      StillQueued(c, states, actions, i, j - 1, p);
    }
  }

  /**
   No overtaking: of two requests waiting for one table lock, the later never gets in while the
   earlier still waits, reader or writer.
   */
  lemma {:induction false} NoOvertaking(
      c: Config, states: seq<State>, actions: seq<Action>, i: nat, j: nat, p: nat, q: nat)
    requires Behaviour(c, states, actions) && i <= j <= |actions|
    requires p < |states[i].procs| && q < |states[i].procs|
    requires states[i].procs[p].pc.Queued? && states[i].procs[q].pc.Queued?
    requires states[i].procs[q].pc.lock == states[i].procs[p].pc.lock
    requires states[i].procs[p].pc.ticket < states[i].procs[q].pc.ticket
    requires p < |states[j].procs| && states[j].procs[p].pc.Queued?
    ensures q < |states[j].procs|
    ensures states[j].procs[q] == states[i].procs[q] || states[j].procs[q].pc.Gone?
    decreases j
  {
    if i < j {
      StillQueued(c, states, actions, i, j, p);
      NoOvertaking(c, states, actions, i, j - 1, p, q);
      NoOvertakingStep(c, states[j - 1], actions[j - 1], p, q);
    }
  }

  // ---------------------------------------------------------------- no starvation while requests keep arriving

  /** The request holds a guard of the lock, or waits for it with no later ticket. */
  predicate InFront(pc: Pc, lock: nat, ticket: nat) {
    (pc.Inside? && pc.lock == lock) || (pc.Queued? && pc.lock == lock && pc.ticket <= ticket)
  }

  function Share(pc: Pc, lock: nat, ticket: nat): nat {
    if InFront(pc, lock, ticket) then Rank(pc) else 0
  }

  /** A bound on the steps that requests in front of `ticket`, its holder included, still take. */
  function LineAhead(procs: seq<Proc>, lock: nat, ticket: nat): nat {
    if |procs| == 0 then 0
    else LineAhead(procs[..|procs| - 1], lock, ticket) + Share(procs[|procs| - 1].pc, lock, ticket)
  }

  lemma {:induction false} LineUpdate(procs: seq<Proc>, p: nat, proc: Proc, lock: nat, ticket: nat)
    requires p < |procs|
    ensures LineAhead(procs[p := proc], lock, ticket) + Share(procs[p].pc, lock, ticket)
         == LineAhead(procs, lock, ticket) + Share(proc.pc, lock, ticket)
  {
    var n := |procs| - 1;
    if p < n {
      assert procs[p := proc][..n] == procs[..n][p := proc];
      LineUpdate(procs[..n], p, proc, lock, ticket);
    } else {
      assert procs[p := proc][..n] == procs[..n];
    }
  }

  predicate WaitsAt(s: State, p: nat, lock: nat, ticket: nat) {
    p < |s.procs| && s.procs[p].pc == Queued(lock, ticket)
  }

  /** The action is a step of a request in front of `ticket`. */
  predicate StepInFront(s: State, a: Action, lock: nat, ticket: nat) {
    !a.Arrive? && a.p < |s.procs| && InFront(s.procs[a.p].pc, lock, ticket)
  }

  /** Nobody gets in front of a waiting request, neither by arriving, nor by queueing, nor by being let in. */
  lemma NobodyGetsInFront(c: Config, s: State, a: Action, p: nat, lock: nat, ticket: nat)
    requires LockInv(c, s) && Enabled(c, s, a) && !a.Arrive? && WaitsAt(s, p, lock, ticket)
    requires !InFront(s.procs[a.p].pc, lock, ticket)
    ensures |Apply(c, s, a).procs| == |s.procs|
    ensures !InFront(Apply(c, s, a).procs[a.p].pc, lock, ticket)
  {
    assert ProcInv(s, p);
  }

  /** Each step of a request in front leaves it less to do there. */
  lemma FrontMovesOn(c: Config, s: State, a: Action, lock: nat, ticket: nat)
    requires Enabled(c, s, a) && StepInFront(s, a, lock, ticket)
    ensures |Apply(c, s, a).procs| == |s.procs|
    ensures Share(Apply(c, s, a).procs[a.p].pc, lock, ticket) < Share(s.procs[a.p].pc, lock, ticket)
  {
    StepRank(c, s, a);
  }

  /** What is ahead of a waiting request grows by no step, arrivals included, and shrinks by steps in front. */
  lemma LineShrinks(c: Config, s: State, a: Action, p: nat, lock: nat, ticket: nat)
    requires LockInv(c, s) && Enabled(c, s, a) && WaitsAt(s, p, lock, ticket)
    ensures LineAhead(Apply(c, s, a).procs, lock, ticket) + (if StepInFront(s, a, lock, ticket) then 1 else 0)
         <= LineAhead(s.procs, lock, ticket)
  {
    var s' := Apply(c, s, a);
    if a.Arrive? {
      assert s'.procs[..|s.procs|] == s.procs;
    } else {
      if StepInFront(s, a, lock, ticket) {
        FrontMovesOn(c, s, a, lock, ticket);
      } else {
        NobodyGetsInFront(c, s, a, p, lock, ticket);
      }
      OneMoves(c, s, a);
      LineUpdate(s.procs, a.p, s'.procs[a.p], lock, ticket);
    }
  }

  /** While a request waits, it or one in front of it can take a regular step. */
  lemma LineCanMove(c: Config, s: State, p: nat, lock: nat, ticket: nat) returns (a: Action)
    requires LockInv(c, s) && WaitsAt(s, p, lock, ticket)
    ensures Regular(a) && Enabled(c, s, a) && StepInFront(s, a, lock, ticket)
  {
    if q :| 0 <= q < |s.procs| && s.procs[q].pc.Inside? && s.procs[q].pc.lock == lock {
      assert ProcInv(s, q);
      a := Work(q);
    } else {
      var q := LongestWaiting(s, p);
      FreeLockAdmits(c, s, q);
      a := Grant(q);
    }
  }

  function StepsInFront(states: seq<State>, actions: seq<Action>, i: nat, j: nat, lock: nat, ticket: nat): nat
    requires i <= j <= |actions| < |states|
  {
    if i == j then 0
    else
      StepsInFront(states, actions, i, j - 1, lock, ticket)
        + (if StepInFront(states[j - 1], actions[j - 1], lock, ticket) then 1 else 0)
  }

  lemma {:induction false} LineRunsDown(
      c: Config, db: Database, states: seq<State>, actions: seq<Action>, i: nat, j: nat, p: nat, lock: nat, ticket: nat)
    requires Run(c, db, states, actions) && i <= j <= |actions|
    requires forall k :: i <= k < j ==> WaitsAt(states[k], p, lock, ticket)
    ensures StepsInFront(states, actions, i, j, lock, ticket) + LineAhead(states[j].procs, lock, ticket)
         <= LineAhead(states[i].procs, lock, ticket)
    decreases j
  {
    if i < j {
      var before, a := states[j - 1], actions[j - 1];
      LineRunsDown(c, db, states, actions, i, j - 1, p, lock, ticket);
      assert LockInv(c, before) by { RunKeeps(c, db, states, actions, j - 1); }
      LineShrinks(c, before, a, p, lock, ticket);
    }
  }

  lemma {:induction false} WaitedThroughout(
      c: Config, states: seq<State>, actions: seq<Action>, i: nat, j: nat, p: nat, lock: nat, ticket: nat)
    requires Behaviour(c, states, actions) && i <= j <= |actions|
    requires WaitsAt(states[i], p, lock, ticket) && p < |states[j].procs| && states[j].procs[p].pc.Queued?
    ensures forall k :: i <= k <= j ==> WaitsAt(states[k], p, lock, ticket)
    decreases j
  {
    StillQueued(c, states, actions, i, j, p);
    if i < j { WaitedThroughout(c, states, actions, i, j - 1, p, lock, ticket); }
  }

  /**
   No starvation, however many requests keep arriving: while a request waits for its lock, those in
   front of it have taken fewer steps than `LineAhead` said when it was first seen waiting, and one
   of them, or the request itself, can take its next. So after that many it no longer waits.
   */
  lemma WaitIsBounded(
      c: Config, db: Database, states: seq<State>, actions: seq<Action>, i: nat, j: nat, p: nat, lock: nat, ticket: nat)
    requires Run(c, db, states, actions) && i <= j <= |actions|
    requires WaitsAt(states[i], p, lock, ticket) && p < |states[j].procs| && states[j].procs[p].pc.Queued?
    ensures WaitsAt(states[j], p, lock, ticket)
    ensures StepsInFront(states, actions, i, j, lock, ticket) < LineAhead(states[i].procs, lock, ticket)
    ensures exists a :: Regular(a) && Enabled(c, states[j], a) && StepInFront(states[j], a, lock, ticket)
  {
    WaitedThroughout(c, states, actions, i, j, p, lock, ticket);
    LineRunsDown(c, db, states, actions, i, j, p, lock, ticket);
    assert LockInv(c, states[j]) by { RunKeeps(c, db, states, actions, j); }
    var a := LineCanMove(c, states[j], p, lock, ticket);
    LineShrinks(c, states[j], a, p, lock, ticket);
  }

  // ---------------------------------------------------------------- the limiter does not limit

  lemma RunOneMore(c: Config, db: Database, states: seq<State>, actions: seq<Action>, a: Action, s': State)
    requires Run(c, db, states, actions) && Enabled(c, states[|actions|], a)
    requires s' == Apply(c, states[|actions|], a)
    ensures Run(c, db, states + [s'], actions + [a])
  {
    var longer := actions + [a];
    forall i | 0 <= i < |longer|
      ensures Enabled(c, (states + [s'])[i], longer[i])
      ensures (states + [s'])[i + 1] == Apply(c, (states + [s'])[i], longer[i])
    {
      assert (states + [s'])[i] == states[i];
      if i < |actions| { assert longer[i] == actions[i]; }
    }
  }

  lemma ReachableStep(c: Config, db: Database, s: State, a: Action)
    requires Reachable(c, db, s) && Enabled(c, s, a)
    ensures Reachable(c, db, Apply(c, s, a))
  {
    var states, actions :| Run(c, db, states, actions) && states[|actions|] == s;
    RunOneMore(c, db, states, actions, a, Apply(c, s, a));
    assert (states + [Apply(c, s, a)])[|actions + [a]|] == Apply(c, s, a);
  }

  function SampleSearch(): Request {
    Search("t", [Finite(0.0)], 0, "", "", OutputUnspecified)
  }

  /** `k` searches of one table, all inside the locked part at once. */
  ghost predicate Crowd(c: Config, s: State, k: nat) {
    && |s.procs| == k && s.permits == Capacity(c)
    && (forall p :: 0 <= p < k ==> s.procs[p] == Proc(SampleSearch(), Inside(0, Entered)))
    && (if k == 0 then s.lockTable == map[] && s.locks == []
        else s.lockTable == map["t" := 0] && |s.locks| == 1 && s.locks[0].writer.None?)
  }

  lemma JoinPastLimiter(c: Config, db: Database, s: State, k: nat) returns (s': State)
    requires Reachable(c, db, s) && Crowd(c, s, k)
    ensures Reachable(c, db, s')
    ensures s' == s.(procs := s.procs + [Proc(SampleSearch(), WantsLock)])
  {
    s' := s;
    ReachableStep(c, db, s', Arrive(SampleSearch()));
    s' := Apply(c, s', Arrive(SampleSearch()));
    assert Refusal(c, SampleSearch()).None? by { assert Trim("t") == "t"; }
    ReachableStep(c, db, s', Check(k));
    s' := Apply(c, s', Check(k));
    ReachableStep(c, db, s', TakePermit(k));
    s' := Apply(c, s', TakePermit(k));
    ReachableStep(c, db, s', ReturnPermit(k));
    s' := Apply(c, s', ReturnPermit(k));
    assert s'.procs == s.procs + [Proc(SampleSearch(), WantsLock)];
  }

  lemma JoinQueue(c: Config, db: Database, s: State, k: nat) returns (s': State)
    requires Reachable(c, db, s) && Crowd(c, s, k)
    ensures Reachable(c, db, s')
    ensures |s'.procs| == k + 1 && s'.procs[..k] == s.procs
    ensures s'.procs[k].request == SampleSearch() && s'.procs[k].pc == HasLock(0)
    ensures s'.lockTable == map["t" := 0] && |s'.locks| == 1 && s'.locks[0].writer.None?
    ensures s'.permits == Capacity(c)
  {
    assert Trim("t") == "t";
    s' := JoinPastLimiter(c, db, s, k);
    ReachableStep(c, db, s', LookUpLock(k));
    s' := Apply(c, s', LookUpLock(k));
  }

  lemma JoinCrowd(c: Config, db: Database, s: State, k: nat) returns (s': State)
    requires Reachable(c, db, s) && Crowd(c, s, k)
    ensures Reachable(c, db, s') && Crowd(c, s', k + 1)
  {
    s' := JoinQueue(c, db, s, k);
    ReachableStep(c, db, s', Enqueue(k));
    s' := Apply(c, s', Enqueue(k));
    ReachableStep(c, db, s', Grant(k));
    s' := Apply(c, s', Grant(k));
  }

  lemma {:induction false} CrowdGathers(c: Config, db: Database, k: nat) returns (s: State)
    ensures Reachable(c, db, s) && Crowd(c, s, k)
  {
    if k == 0 {
      s := Initial(c, db);
      assert Run(c, db, [s], []);
    } else {
      var s0 := CrowdGathers(c, db, k - 1);
      s := JoinCrowd(c, db, s0, k - 1);
    }
  }

  /**
   Whatever the configured maximum, any number of requests can be past the limiter and inside their
   bodies at once: the permit is given back before the body starts.
   */
  lemma LimiterDoesNotBoundBodies(c: Config, db: Database, k: nat)
    ensures exists s :: Reachable(c, db, s) && |s.procs| == k && forall p :: 0 <= p < k ==> s.procs[p].pc.Inside?
  {
    var s := CrowdGathers(c, db, k);
    assert Crowd(c, s, k);
  }
}
