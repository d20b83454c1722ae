/**
 The FFI dispatcher: one worker thread started on first use, one queue of jobs, and a one-slot reply
 channel for each call.
 */
module FfiWorker {
  import opened Prelude

  type Answer = Result<nat, string>

  /** What running the call's job comes to: an answer for its channel, or a panic before there is one. */
  datatype Job = Finishes(answer: Answer) | Panics

  /** The reply channel: nothing yet, one reply, or closed because its sender went away with the job. */
  datatype Slot = Empty | Full(answer: Answer) | Closed

  datatype Pc = Calling | Awaiting | Returned(answer: Answer)

  datatype Call = Call(job: Job, pc: Pc, slot: Slot)

  /** The cell that remembers how starting the worker went. */
  datatype Startup = NotStarted | Starting(starter: nat) | Up | Broken(message: string)

  /** `sent` and `ended` record the jobs in the order they were sent and the order they ended. */
  datatype State = State(
    startup: Startup,
    queue: seq<nat>,
    running: Option<nat>,
    calls: seq<Call>,
    sent: seq<nat>,
    ended: seq<nat>)

  datatype Action =
    | Arrive(job: Job)
    | BeginStart(p: nat)
    | StartOk
    | StartFails(message: string)
    | Refuse(p: nat)
    | Send(p: nat)
    | Receive
    | Finish
    | Collect(p: nat)

  const INITIAL: State := State(NotStarted, [], None, [], [], [])

  const DROPPED := "FFI runtime worker dropped the response channel"

  /** What the caller of a job is owed. */
  function OwnAnswer(job: Job): Answer {
    match job
    case Finishes(answer) => answer
    case Panics => Err(DROPPED)
  }

  predicate Enabled(s: State, a: Action) {
    match a
    case Arrive(_) => true
    case BeginStart(p) => s.startup.NotStarted? && p < |s.calls| && s.calls[p].pc.Calling?
    case StartOk => s.startup.Starting?
    case StartFails(_) => s.startup.Starting?
    case Refuse(p) => s.startup.Broken? && p < |s.calls| && s.calls[p].pc.Calling?
    case Send(p) => s.startup.Up? && p < |s.calls| && s.calls[p].pc.Calling?
    case Receive => s.startup.Up? && s.running.None? && |s.queue| > 0
    case Finish => s.running.Some? && s.running.value < |s.calls|
    case Collect(p) => p < |s.calls| && s.calls[p].pc.Awaiting? && !s.calls[p].slot.Empty?
  }

  function SetCall(s: State, p: nat, call: Call): State
    requires p < |s.calls|
  {
    s.(calls := s.calls[p := call])
  }

  /** The job runs to its end; a panic is caught, and takes the sender of the reply channel with it. */
  function DoFinish(s: State): State
    requires Enabled(s, Finish)
  {
    var p := s.running.value;
    var call := s.calls[p];
    var slot := match call.job case Finishes(answer) => Full(answer) case Panics => Closed;
    SetCall(s, p, call.(slot := slot)).(running := None, ended := s.ended + [p])
  }

  function Apply(s: State, a: Action): State
    requires Enabled(s, a)
  {
    match a
    case Arrive(job) => s.(calls := s.calls + [Call(job, Calling, Empty)])
    case BeginStart(p) => s.(startup := Starting(p))
    case StartOk => s.(startup := Up)
    case StartFails(message) => s.(startup := Broken(message))
    case Refuse(p) => SetCall(s, p, s.calls[p].(pc := Returned(Err(s.startup.message))))
    case Send(p) =>
      SetCall(s, p, s.calls[p].(pc := Awaiting)).(queue := s.queue + [p], sent := s.sent + [p])
    case Receive => s.(running := Some(s.queue[0]), queue := s.queue[1..])
    case Finish => DoFinish(s)
    case Collect(p) =>
      var answer := if s.calls[p].slot.Full? then s.calls[p].slot.answer else Err(DROPPED);
      SetCall(s, p, s.calls[p].(pc := Returned(answer)))
  }

  ghost predicate Behaviour(states: seq<State>, actions: seq<Action>) {
    && |states| == |actions| + 1
    && forall i :: 0 <= i < |actions| ==>
         Enabled(states[i], actions[i]) && states[i + 1] == Apply(states[i], actions[i])
  }

  ghost predicate Run(states: seq<State>, actions: seq<Action>) {
    Behaviour(states, actions) && states[0] == INITIAL
  }

  // ---------------------------------------------------------------- what every step keeps

  function Running(s: State): seq<nat> {
    match s.running
    case None => []
    case Some(p) => [p]
  }

  /** Sent in order is ended in order, then the job that runs, then the queue; and no job twice. */
  ghost predicate OrderInv(s: State) {
    && s.sent == s.ended + Running(s) + s.queue
    && (forall i, j :: 0 <= i < j < |s.sent| ==> s.sent[i] != s.sent[j])
    && (forall i :: 0 <= i < |s.sent| ==> s.sent[i] < |s.calls|)
    && (|s.sent| > 0 ==> s.startup.Up?)
  }

  ghost predicate CallInv(s: State, p: nat)
    requires p < |s.calls|
  {
    var call := s.calls[p];
    if p !in s.sent then
      && call.slot.Empty?
      && (call.pc.Calling? || (call.pc.Returned? && s.startup.Broken? && call.pc.answer == Err(s.startup.message)))
    else if p !in s.ended then call.pc.Awaiting? && call.slot.Empty?
    else
      && call.slot == (match call.job case Finishes(answer) => Full(answer) case Panics => Closed)
      && (call.pc.Awaiting? || call.pc == Returned(OwnAnswer(call.job)))
  }

  ghost predicate Inv(s: State) {
    OrderInv(s) && forall p :: 0 <= p < |s.calls| ==> CallInv(s, p)
  }

  lemma RunningIsSent(s: State)
    requires OrderInv(s) && s.running.Some?
    ensures s.running.value in s.sent && s.running.value !in s.ended && s.running.value < |s.calls|
  {
    var k := |s.ended|;
    assert s.sent[k] == s.running.value;
    forall i | 0 <= i < |s.ended|
      ensures s.ended[i] != s.running.value
    {
      assert s.sent[i] == s.ended[i];
    }
  }

  lemma SendKeeps(s: State, p: nat)
    requires Inv(s) && Enabled(s, Send(p))
    ensures Inv(Apply(s, Send(p)))
  {
    var s' := Apply(s, Send(p));
    assert CallInv(s, p);
    assert p !in s.sent;
    assert s'.sent == s'.ended + Running(s') + s'.queue;
    forall q | 0 <= q < |s'.calls|
      ensures CallInv(s', q)
    {
      assert CallInv(s, q);
      assert q in s'.sent <==> q in s.sent || q == p;
      assert q in s'.ended ==> q in s'.sent by { EndedIsSent(s); }
    }
  }

  lemma EndedIsSent(s: State)
    requires OrderInv(s)
    ensures forall q :: q in s.ended ==> q in s.sent
  {
    forall q | q in s.ended
      ensures q in s.sent
    {
      var i :| 0 <= i < |s.ended| && s.ended[i] == q;
      assert s.sent[i] == q;
    }
  }

  lemma ReceiveKeeps(s: State)
    requires Inv(s) && Enabled(s, Receive)
    ensures Inv(Apply(s, Receive))
  {
    var s' := Apply(s, Receive);
    assert s.queue == [s.queue[0]] + s.queue[1..];
    assert s'.sent == s'.ended + Running(s') + s'.queue;
    forall q | 0 <= q < |s'.calls|
      ensures CallInv(s', q)
    {
      assert CallInv(s, q);
    }
  }

  lemma FinishKeeps(s: State)
    requires Inv(s) && Enabled(s, Finish)
    ensures Inv(Apply(s, Finish))
  {
    var s' := Apply(s, Finish);
    var p := s.running.value;
    RunningIsSent(s);
    assert s'.sent == s'.ended + Running(s') + s'.queue;
    forall q | 0 <= q < |s'.calls|
      ensures CallInv(s', q)
    {
      assert CallInv(s, q);
      assert q in s'.ended <==> q in s.ended || q == p;
    }
  }

  lemma ArriveKeeps(s: State, job: Job)
    requires Inv(s)
    ensures Inv(Apply(s, Arrive(job)))
  {
    var s' := Apply(s, Arrive(job));
    assert s'.sent == s'.ended + Running(s') + s'.queue;
    forall q | 0 <= q < |s'.calls|
      ensures CallInv(s', q)
    {
      if q < |s.calls| { assert CallInv(s, q); }
    }
  }

  lemma StartKeeps(s: State, s': State)
    requires Inv(s) && (s.startup.NotStarted? || s.startup.Starting?)
    requires s' == s.(startup := s'.startup)
    ensures Inv(s')
  {
    assert s'.sent == s'.ended + Running(s') + s'.queue;
    forall q | 0 <= q < |s'.calls|
      ensures CallInv(s', q)
    {
      assert CallInv(s, q);
    }
  }

  lemma CallerKeeps(s: State, a: Action)
    requires Inv(s) && Enabled(s, a) && (a.Refuse? || a.Collect?)
    ensures Inv(Apply(s, a))
  {
    var s' := Apply(s, a);
    EndedIsSent(s);
    assert s'.sent == s'.ended + Running(s') + s'.queue;
    forall q | 0 <= q < |s'.calls|
      ensures CallInv(s', q)
    {
      assert CallInv(s, q) && CallInv(s, a.p);
    }
  }

  lemma StepKeeps(s: State, a: Action)
    requires Inv(s) && Enabled(s, a)
    ensures Inv(Apply(s, a))
  {
    match a
    case Arrive(job) => ArriveKeeps(s, job);
    case BeginStart(_) => StartKeeps(s, Apply(s, a));
    case StartOk => StartKeeps(s, Apply(s, a));
    case StartFails(_) => StartKeeps(s, Apply(s, a));
    case Refuse(_) => CallerKeeps(s, a);
    case Collect(_) => CallerKeeps(s, a);
    case Send(p) => SendKeeps(s, p);
    case Receive => ReceiveKeeps(s);
    case Finish => FinishKeeps(s);
  }

  lemma {:induction false} RunKeeps(states: seq<State>, actions: seq<Action>, i: nat)
    requires Run(states, actions) && i <= |actions|
    ensures Inv(states[i])
  {
    if i > 0 {
      RunKeeps(states, actions, i - 1);
      StepKeeps(states[i - 1], actions[i - 1]);
    }
  }

  // ---------------------------------------------------------------- what callers can rely on

  /** In every state of a run jobs have ended in the order they were sent, each once, with at most one running. */
  lemma JobsRunInOrder(states: seq<State>, actions: seq<Action>, i: nat)
    requires Run(states, actions) && i <= |actions|
    ensures states[i].ended <= states[i].sent
    ensures states[i].sent == states[i].ended + Running(states[i]) + states[i].queue
    ensures Distinct(states[i].sent)
  {
    RunKeeps(states, actions, i);
  }

  /** The answer of the job itself, or an error when it panicked. */
  ghost predicate Owed(job: Job, answer: Answer) {
    match job
    case Finishes(own) => answer == own
    case Panics => answer.Err? && answer.error == "FFI runtime worker dropped the response channel"
  }

  /**
   A call that returned got the answer of its own job, or, when the worker could not be started, the
   one message remembered from that start; a panic is an error to its own caller only.
   */
  lemma CallersGetTheirOwn(states: seq<State>, actions: seq<Action>, i: nat, p: nat)
    requires Run(states, actions) && i <= |actions|
    requires p < |states[i].calls| && states[i].calls[p].pc.Returned?
    ensures var s := states[i];
            if s.startup.Broken? then s.calls[p].pc.answer == Err(s.startup.message)
            else p in s.ended && Owed(s.calls[p].job, s.calls[p].pc.answer)
  {
    RunKeeps(states, actions, i);
    assert CallInv(states[i], p);
    if p in states[i].ended { EndedIsSent(states[i]); }
  }

  /** The worker never waits to reply: when a job ends its slot is empty and its caller is there. */
  lemma ReplySlotIsFree(states: seq<State>, actions: seq<Action>, i: nat)
    requires Run(states, actions) && i <= |actions| && states[i].running.Some?
    ensures var p := states[i].running.value;
            && Enabled(states[i], Finish)
            && states[i].calls[p].slot.Empty? && states[i].calls[p].pc.Awaiting?
            && Apply(states[i], Finish).running.None?
  {
    RunKeeps(states, actions, i);
    RunningIsSent(states[i]);
    assert CallInv(states[i], states[i].running.value);
  }

  /** How the start went is settled once: every later state of the run has the same worker or the same message. */
  lemma {:induction false} StartIsRemembered(states: seq<State>, actions: seq<Action>, i: nat, j: nat)
    requires Behaviour(states, actions) && i <= j <= |actions|
    requires states[i].startup.Up? || states[i].startup.Broken?
    ensures states[j].startup == states[i].startup
    decreases j
  {
    if i < j { StartIsRemembered(states, actions, i, j - 1); }
  }

  // ---------------------------------------------------------------- every call returns

  function CallRank(call: Call): nat {
    match call.pc
    case Calling => 5
    case Awaiting => if call.slot.Empty? then 2 else 1
    case Returned(_) => 0
  }

  function CallRanks(calls: seq<Call>): nat {
    if |calls| == 0 then 0 else CallRanks(calls[..|calls| - 1]) + CallRank(calls[|calls| - 1])
  }

  function StartRank(startup: Startup): nat {
    match startup
    case NotStarted => 2
    case Starting(_) => 1
    case _ => 0
  }

  /** Steps left at most: those of the calls, of the start, and one for each job still in the queue. */
  function Remaining(s: State): nat {
    CallRanks(s.calls) + |s.queue| + StartRank(s.startup)
  }

  lemma {:induction false} RanksUpdate(calls: seq<Call>, p: nat, call: Call)
    requires p < |calls|
    ensures CallRanks(calls[p := call]) + CallRank(calls[p]) == CallRanks(calls) + CallRank(call)
  {
    var n := |calls| - 1;
    if p < n {
      assert calls[p := call][..n] == calls[..n][p := call];
      RanksUpdate(calls[..n], p, call);
    } else {
      assert calls[p := call][..n] == calls[..n];
    }
  }

  lemma StepLowersRemaining(s: State, a: Action)
    requires Inv(s) && Enabled(s, a) && !a.Arrive?
    ensures Remaining(Apply(s, a)) < Remaining(s)
  {
    match a
    case Refuse(p) => RanksUpdate(s.calls, p, Apply(s, a).calls[p]);
    case Send(p) => RanksUpdate(s.calls, p, Apply(s, a).calls[p]);
    case Collect(p) => RanksUpdate(s.calls, p, Apply(s, a).calls[p]);
    case Finish =>
      var p := s.running.value;
      RunningIsSent(s);
      assert CallInv(s, p);
      RanksUpdate(s.calls, p, Apply(s, a).calls[p]);
    case _ =>
  }

  ghost predicate AllReturned(s: State) {
    forall p :: 0 <= p < |s.calls| ==> s.calls[p].pc.Returned?
  }

  lemma NeverStuck(s: State) returns (a: Action)
    requires Inv(s) && !AllReturned(s)
    ensures Enabled(s, a) && !a.Arrive?
  {
    var p :| 0 <= p < |s.calls| && !s.calls[p].pc.Returned?;
    assert CallInv(s, p);
    if s.calls[p].pc.Calling? {
      match s.startup
      case NotStarted => a := BeginStart(p);
      case Starting(_) => a := StartOk;
      case Up => a := Send(p);
      case Broken(_) => a := Refuse(p);
    } else if !s.calls[p].slot.Empty? {
      a := Collect(p);
    } else if s.running.Some? {
      RunningIsSent(s);
      a := Finish;
    } else {
      assert p in s.sent && p !in s.ended;
      assert s.sent == s.ended + s.queue;
      a := Receive;
    }
  }

  lemma {:induction false} RunsAreBounded(states: seq<State>, actions: seq<Action>, i: nat, j: nat)
    requires Run(states, actions) && i <= j <= |actions|
    requires forall k :: i <= k < j ==> !actions[k].Arrive?
    ensures j - i + Remaining(states[j]) <= Remaining(states[i])
    decreases j
  {
    if i < j {
      RunsAreBounded(states, actions, i, j - 1);
      RunKeeps(states, actions, j - 1);
      StepLowersRemaining(states[j - 1], actions[j - 1]);
    }
  }

  /**
   Every call returns: once calls stop arriving a run has at most so many steps left, and wherever it
   stands with a call still out some step is possible.
   */
  lemma EveryCallReturns(states: seq<State>, actions: seq<Action>, from: nat)
    requires Run(states, actions) && from <= |actions|
    requires forall i :: from <= i < |actions| ==> !actions[i].Arrive?
    ensures |actions| - from <= Remaining(states[from])
    ensures AllReturned(states[|actions|]) || exists a :: Enabled(states[|actions|], a) && !a.Arrive?
    ensures |actions| - from == Remaining(states[from]) ==> AllReturned(states[|actions|])
  {
    RunsAreBounded(states, actions, from, |actions|);
    RunKeeps(states, actions, |actions|);
    if !AllReturned(states[|actions|]) {
      var a := NeverStuck(states[|actions|]);
      StepLowersRemaining(states[|actions|], a);
    }
  }

  // ---------------------------------------------------------------- while calls keep arriving

  /** How many calls stand before `p` in the queue. */
  function Position(queue: seq<nat>, p: nat): (k: nat)
    ensures k <= |queue|
    ensures p in queue <==> k < |queue|
  {
    if |queue| == 0 || queue[0] == p then 0 else 1 + Position(queue[1..], p)
  }

  /** The worker steps left before the job of `p` has ended: a receive and a finish for each job up to its own. */
  function Ahead(s: State, p: nat): nat {
    if s.running == Some(p) then 1
    else if p in s.queue then 2 * (Position(s.queue, p) + 1) + |Running(s)|
    else 0
  }

  /** How far call `p` has come, the start of the worker included. */
  function Stage(s: State, p: nat): nat
    requires p < |s.calls|
  {
    match s.calls[p].pc
    case Calling => 2 + StartRank(s.startup)
    case Awaiting => 1
    case Returned(_) => 0
  }

  predicate Nearer(s: State, s': State, p: nat) {
    && p < |s.calls| && p < |s'.calls|
    && (Stage(s', p) < Stage(s, p) || (Stage(s', p) == Stage(s, p) && Ahead(s', p) < Ahead(s, p)))
  }

  predicate WorkerStep(a: Action) {
    a.Receive? || a.Finish?
  }

  lemma {:induction false} PositionAppended(queue: seq<nat>, p: nat, q: nat)
    requires p in queue
    ensures Position(queue + [q], p) == Position(queue, p)
  {
    if queue[0] != p {
      assert (queue + [q])[1..] == queue[1..] + [q];
      PositionAppended(queue[1..], p, q);
    }
  }

  /** A job that was sent and has not ended runs or waits in the queue. */
  lemma SentIsAhead(s: State, p: nat)
    requires OrderInv(s) && p in s.sent && p !in s.ended
    ensures s.running == Some(p) || p in s.queue
    ensures Ahead(s, p) > 0
  {
    assert p in s.ended + Running(s) + s.queue;
  }

  /** No step, those of new calls included, puts a sent call further back; each worker step brings it nearer. */
  lemma StepBringsNearer(s: State, a: Action, p: nat)
    requires Inv(s) && Enabled(s, a) && p in s.sent && p !in s.ended
    ensures p in Apply(s, a).sent
    ensures p in Apply(s, a).ended
            || Ahead(Apply(s, a), p) + (if WorkerStep(a) then 1 else 0) <= Ahead(s, p)
  {
    SentIsAhead(s, p);
    match a
    case Send(q) => if p in s.queue { PositionAppended(s.queue, p, q); }
    case _ =>
  }

  /** No step takes a call back to an earlier stage, or back in the queue. */
  lemma NeverFurther(s: State, a: Action, p: nat)
    requires Inv(s) && Enabled(s, a) && p < |s.calls|
    ensures p < |Apply(s, a).calls|
    ensures Stage(Apply(s, a), p) < Stage(s, p)
            || (Stage(Apply(s, a), p) == Stage(s, p) && Ahead(Apply(s, a), p) <= Ahead(s, p))
  {
    assert CallInv(s, p);
    assert p in s.queue ==> p in s.sent;
    if p in s.sent && p !in s.ended {
      StepBringsNearer(s, a, p);
      StepKeeps(s, a);
      if p in Apply(s, a).ended { NotAhead(Apply(s, a), p); }
    } else {
      NotAhead(s, p);
    }
  }

  lemma NotAhead(s: State, p: nat)
    requires OrderInv(s) && (p !in s.sent || p in s.ended)
    ensures Ahead(s, p) == 0
  {
    forall i | 0 <= i < |s.ended|
      ensures s.ended[i] !in s.queue && s.running != Some(s.ended[i])
    {
      assert s.sent[i] == s.ended[i];
      assert forall k :: 0 <= k < |s.queue| ==> s.sent[|s.ended| + |Running(s)| + k] == s.queue[k];
      assert s.running.Some? ==> s.sent[|s.ended|] == s.running.value;
    }
    assert forall k :: 0 <= k < |s.queue| ==> s.queue[k] in s.sent;
    assert s.running.Some? ==> s.running.value in s.sent;
  }

  /** Whatever else goes on, something can be done that brings the call nearer to its answer. */
  lemma CallCanAdvance(s: State, p: nat) returns (a: Action)
    requires Inv(s) && p < |s.calls| && !s.calls[p].pc.Returned?
    ensures Enabled(s, a) && !a.Arrive? && Nearer(s, Apply(s, a), p)
  {
    assert CallInv(s, p);
    if s.calls[p].pc.Calling? {
      match s.startup
      case NotStarted => a := BeginStart(p);
      case Starting(_) => a := StartOk;
      case Up => a := Send(p);
      case Broken(_) => a := Refuse(p);
    } else if !s.calls[p].slot.Empty? {
      a := Collect(p);
    } else {
      SentIsAhead(s, p);
      if s.running.Some? { RunningIsSent(s); }
      a := if s.running.Some? then Finish else Receive;
      StepBringsNearer(s, a, p);
      StepKeeps(s, a);
      if p in Apply(s, a).ended { NotAhead(Apply(s, a), p); }
    }
  }

  lemma SentStays(s: State, a: Action, p: nat)
    requires Enabled(s, a) && p in s.sent
    ensures p in Apply(s, a).sent && (p in s.ended ==> p in Apply(s, a).ended)
  {
  }

  function WorkerSteps(actions: seq<Action>, i: nat, j: nat): nat
    requires i <= j <= |actions|
  {
    if i == j then 0 else WorkerSteps(actions, i, j - 1) + (if WorkerStep(actions[j - 1]) then 1 else 0)
  }

  lemma {:induction false} AheadRunsOut(states: seq<State>, actions: seq<Action>, i: nat, j: nat, p: nat)
    requires Run(states, actions) && i <= j <= |actions| && p in states[i].sent
    ensures p in states[j].sent
    ensures p in states[j].ended || WorkerSteps(actions, i, j) + Ahead(states[j], p) <= Ahead(states[i], p)
    decreases j
  {
    if i < j {
      AheadRunsOut(states, actions, i, j - 1, p);
      RunKeeps(states, actions, j - 1);
      SentStays(states[j - 1], actions[j - 1], p);
      if p !in states[j - 1].ended { StepBringsNearer(states[j - 1], actions[j - 1], p); }
    }
  }

  /**
   A sent call gets its answer however many calls keep arriving: its job has ended by the time the
   worker took as many steps as were ahead of it, until then the worker can take one, and from then
   on the caller has its answer or can collect it.
   */
  lemma SentCallIsAnswered(states: seq<State>, actions: seq<Action>, i: nat, j: nat, p: nat)
    requires Run(states, actions) && i <= j <= |actions| && p in states[i].sent
    ensures p < |states[j].calls|
    ensures WorkerSteps(actions, i, j) >= Ahead(states[i], p) ==> p in states[j].ended
    ensures p !in states[j].ended ==> Enabled(states[j], Receive) || Enabled(states[j], Finish)
    ensures var call := states[j].calls[p];
            p in states[j].ended ==>
              if call.pc.Returned? then Owed(call.job, call.pc.answer)
              else
                && Enabled(states[j], Collect(p))
                && var after := Apply(states[j], Collect(p)).calls[p];
                   after.pc.Returned? && Owed(call.job, after.pc.answer)
  {
    AheadRunsOut(states, actions, i, j, p);
    RunKeeps(states, actions, j);
    var s := states[j];
    assert CallInv(s, p);
    if p !in s.ended {
      SentIsAhead(s, p);
      if s.running.Some? { RunningIsSent(s); }
    }
  }

  /** Once returned, a call stays returned with that answer: no call returns twice. */
  lemma {:induction false} ReturnsOnce(states: seq<State>, actions: seq<Action>, i: nat, j: nat, p: nat)
    requires Run(states, actions) && i <= j <= |actions|
    requires p < |states[i].calls| && states[i].calls[p].pc.Returned?
    ensures p < |states[j].calls| && states[j].calls[p].pc == states[i].calls[p].pc
    decreases j
  {
    if i < j { ReturnsOnce(states, actions, i, j - 1, p); }
  }

  // ---------------------------------------------------------------- the receive loop

  /** The worker's loop over the jobs it is sent: every job ends, panicking ones included, each in its own slot. */
  method WorkerLoop(jobs: seq<Job>) returns (slots: seq<Slot>)
    ensures |slots| == |jobs|
    ensures forall i :: 0 <= i < |jobs| ==> !slots[i].Empty?
    ensures forall i :: 0 <= i < |jobs| ==>
              OwnAnswer(jobs[i]) == if slots[i].Full? then slots[i].answer else Err(DROPPED)
  {
    slots := [];
    var queue := jobs;
    while |queue| > 0
      invariant |slots| + |queue| == |jobs| && queue == jobs[|slots|..]
      invariant forall i :: 0 <= i < |slots| ==> !slots[i].Empty?
      invariant forall i :: 0 <= i < |slots| ==>
                  OwnAnswer(jobs[i]) == if slots[i].Full? then slots[i].answer else Err(DROPPED)
    {
      var job := queue[0];
      queue := queue[1..];
      match job {
        case Finishes(answer) => slots := slots + [Full(answer)];
        case Panics => slots := slots + [Closed];
      }
    }
  }
}
