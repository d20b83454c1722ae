/**
 The connection cache raced by any number of callers: look under the lock, open without it, insert
 if still absent under it again.
 */
module ConnectionCache {
  import opened Prelude
  import opened DatabasePaths

  /** A connection: which one it is, and the path it was opened on. */
  datatype Conn = Conn(id: nat, path: string)

  datatype Pc =
    | Asked
    | Resolved(key: string, path: string)
    | Missed(key: string, path: string)
    | Connected(key: string, path: string, conn: Conn)
    | Got(key: string, conn: Conn, own: Option<Conn>)
    | Rejected(error: PathError)
    | NotOpened
    | Gone

  /** A caller of `open_named`; `own` in `Got` is the connection it opened itself, if it came that far. */
  datatype Caller = Caller(name: Option<string>, pc: Pc)

  datatype State = State(cache: map<string, Conn>, made: nat, callers: seq<Caller>)

  datatype Action =
    | Ask(name: Option<string>)
    | Resolve(p: nat)
    | Look(p: nat)
    | Open(p: nat)
    | OpenFails(p: nat)
    | Insert(p: nat)
    | Drop(p: nat)

  const INITIAL: State := State(map[], 0, [])

  predicate Done(pc: Pc) {
    pc.Got? || pc.Rejected? || pc.NotOpened? || pc.Gone?
  }

  predicate Enabled(s: State, a: Action) {
    if a.Ask? then true
    else
      && a.p < |s.callers|
      && var pc := s.callers[a.p].pc;
         match a
         case Resolve(_) => pc.Asked?
         case Look(_) => pc.Resolved?
         case Open(_) => pc.Missed?
         case OpenFails(_) => pc.Missed?
         case Insert(_) => pc.Connected?
         case Drop(_) => !Done(pc)
  }

  function SetPc(s: State, p: nat, pc: Pc): State
    requires p < |s.callers|
  {
    s.(callers := s.callers[p := s.callers[p].(pc := pc)])
  }

  function Apply(cfg: RuntimeConfig, s: State, a: Action): State
    requires Enabled(s, a)
  {
    match a
    case Ask(name) => s.(callers := s.callers + [Caller(name, Asked)])
    case Resolve(p) =>
      (match DatabasePath(cfg, s.callers[p].name)
       case Err(e) => SetPc(s, p, Rejected(e))
       case Ok(path) => SetPc(s, p, Resolved(DatabaseKey(s.callers[p].name), path)))
    case Look(p) =>
      var pc := s.callers[p].pc;
      if pc.key in s.cache then SetPc(s, p, Got(pc.key, s.cache[pc.key], None))
      else SetPc(s, p, Missed(pc.key, pc.path))
    case Open(p) =>
      var pc := s.callers[p].pc;
      SetPc(s, p, Connected(pc.key, pc.path, Conn(s.made, pc.path))).(made := s.made + 1)
    case OpenFails(p) => SetPc(s, p, NotOpened)
    case Insert(p) =>
      var pc := s.callers[p].pc;
      var cache := if pc.key in s.cache then s.cache else s.cache[pc.key := pc.conn];
      SetPc(s, p, Got(pc.key, cache[pc.key], Some(pc.conn))).(cache := cache)
    case Drop(p) => SetPc(s, p, Gone)
  }

  ghost predicate Behaviour(cfg: RuntimeConfig, states: seq<State>, actions: seq<Action>) {
    && |states| == |actions| + 1
    && forall i :: 0 <= i < |actions| ==>
         Enabled(states[i], actions[i]) && states[i + 1] == Apply(cfg, states[i], actions[i])
  }

  ghost predicate Run(cfg: RuntimeConfig, states: seq<State>, actions: seq<Action>) {
    Behaviour(cfg, states, actions) && states[0] == INITIAL
  }

  ghost predicate Reachable(cfg: RuntimeConfig, s: State) {
    exists states, actions :: Run(cfg, states, actions) && states[|actions|] == s
  }

  // ---------------------------------------------------------------- what every step keeps

  /** A caller's key and path are those of its name. */
  ghost predicate NamedInv(cfg: RuntimeConfig, caller: Caller) {
    match caller.pc
    case Resolved(key, path) => key == DatabaseKey(caller.name) && DatabasePath(cfg, caller.name) == Ok(path)
    case Missed(key, path) => key == DatabaseKey(caller.name) && DatabasePath(cfg, caller.name) == Ok(path)
    case Connected(key, path, conn) =>
      key == DatabaseKey(caller.name) && DatabasePath(cfg, caller.name) == Ok(path) && conn.path == path
    case Got(key, _, _) => key == DatabaseKey(caller.name) && DatabasePath(cfg, caller.name).Ok?
    case Rejected(e) => DatabasePath(cfg, caller.name) == Err(e)
    case _ => true
  }

  /** The connection a caller opened itself and holds, or held when it was answered. */
  function Own(pc: Pc): Option<Conn> {
    match pc
    case Connected(_, _, conn) => Some(conn)
    case Got(_, _, own) => own
    case _ => None
  }

  ghost predicate CacheInv(cfg: RuntimeConfig, s: State) {
    forall k :: k in s.cache ==>
      && s.cache[k].id < s.made
      && exists q :: 0 <= q < |s.callers| && DatabaseKey(s.callers[q].name) == k
                     && DatabasePath(cfg, s.callers[q].name) == Ok(s.cache[k].path)
  }

  /** Connections have one opener each; one that is not in the cache under its opener's key is in no cache entry. */
  ghost predicate OwnInv(s: State) {
    && (forall p :: 0 <= p < |s.callers| && Own(s.callers[p].pc).Some? ==> Own(s.callers[p].pc).value.id < s.made)
    && (forall p, q :: 0 <= p < q < |s.callers| && Own(s.callers[p].pc).Some? && Own(s.callers[q].pc).Some? ==>
         Own(s.callers[p].pc).value.id != Own(s.callers[q].pc).value.id)
    && (forall p, k :: 0 <= p < |s.callers| && s.callers[p].pc.Connected? && k in s.cache ==>
         s.cache[k].id != s.callers[p].pc.conn.id)
    && (forall p, k :: 0 <= p < |s.callers| && Lost(s.callers[p].pc) && k in s.cache ==>
         s.cache[k].id != Own(s.callers[p].pc).value.id)
  }

  /** The caller opened a connection of its own and was given another. */
  predicate Lost(pc: Pc) {
    pc.Got? && pc.own.Some? && pc.own.value != pc.conn
  }

  ghost predicate GotInv(s: State) {
    forall p :: 0 <= p < |s.callers| && s.callers[p].pc.Got? ==>
      Lookup(s.cache, s.callers[p].pc.key) == Some(s.callers[p].pc.conn)
  }

  ghost predicate Inv(cfg: RuntimeConfig, s: State) {
    && (forall p :: 0 <= p < |s.callers| ==> NamedInv(cfg, s.callers[p]))
    && CacheInv(cfg, s) && OwnInv(s) && GotInv(s)
  }

  lemma SameCacheKeeps(cfg: RuntimeConfig, s: State, s': State)
    requires CacheInv(cfg, s) && s'.cache == s.cache && s.made <= s'.made && |s.callers| <= |s'.callers|
    requires forall q :: 0 <= q < |s.callers| ==> s'.callers[q].name == s.callers[q].name
    ensures CacheInv(cfg, s')
  {
    forall k | k in s'.cache
      ensures exists q :: 0 <= q < |s'.callers| && DatabaseKey(s'.callers[q].name) == k
                          && DatabasePath(cfg, s'.callers[q].name) == Ok(s'.cache[k].path)
    {
      var q :| 0 <= q < |s.callers| && DatabaseKey(s.callers[q].name) == k
               && DatabasePath(cfg, s.callers[q].name) == Ok(s.cache[k].path);
      assert s'.callers[q].name == s.callers[q].name;
    }
  }

  lemma InsertKeepsCache(cfg: RuntimeConfig, s: State, p: nat)
    requires Inv(cfg, s) && Enabled(s, Insert(p))
    ensures CacheInv(cfg, Apply(cfg, s, Insert(p)))
  {
    var s' := Apply(cfg, s, Insert(p));
    assert NamedInv(cfg, s.callers[p]);
    assert Own(s.callers[p].pc) == Some(s.callers[p].pc.conn);
    forall k | k in s'.cache
      ensures s'.cache[k].id < s'.made
      ensures exists q :: 0 <= q < |s'.callers| && DatabaseKey(s'.callers[q].name) == k
                          && DatabasePath(cfg, s'.callers[q].name) == Ok(s'.cache[k].path)
    {
      if k in s.cache {
        var q :| 0 <= q < |s.callers| && DatabaseKey(s.callers[q].name) == k
                 && DatabasePath(cfg, s.callers[q].name) == Ok(s.cache[k].path);
        assert s'.callers[q].name == s.callers[q].name;
      } else {
        assert s'.callers[p].name == s.callers[p].name;
      }
    }
  }

  lemma InsertKeepsOwners(cfg: RuntimeConfig, s: State, p: nat)
    requires Inv(cfg, s) && Enabled(s, Insert(p))
    ensures OwnInv(Apply(cfg, s, Insert(p)))
  {
    var s' := Apply(cfg, s, Insert(p));
    assert forall q :: 0 <= q < |s.callers| ==> Own(s'.callers[q].pc) == Own(s.callers[q].pc);
  }

  /** One caller moves, the cache stays: it holds no connection of its own afterwards, or a brand-new one. */
  lemma MoveKeepsOwners(s: State, s': State, p: nat)
    requires OwnInv(s) && s'.cache == s.cache
    requires forall k :: k in s.cache ==> s.cache[k].id < s.made
    requires p < |s'.callers| && |s.callers| <= |s'.callers|
    requires forall q :: 0 <= q < |s'.callers| && q != p ==> q < |s.callers| && s'.callers[q] == s.callers[q]
    requires !s'.callers[p].pc.Got? || s'.callers[p].pc.own.None?
    requires if Own(s'.callers[p].pc).Some? then Own(s'.callers[p].pc).value.id == s.made && s'.made == s.made + 1
             else s'.made == s.made
    ensures OwnInv(s')
  {
  }

  lemma OthersKeepOwners(cfg: RuntimeConfig, s: State, a: Action)
    requires Inv(cfg, s) && Enabled(s, a) && !a.Insert?
    ensures OwnInv(Apply(cfg, s, a))
  {
    MoveKeepsOwners(s, Apply(cfg, s, a), if a.Ask? then |s.callers| else a.p);
  }

  lemma StepKeepsGot(cfg: RuntimeConfig, s: State, a: Action)
    requires Inv(cfg, s) && Enabled(s, a)
    ensures GotInv(Apply(cfg, s, a))
  {
  }

  lemma StepKeepsNames(cfg: RuntimeConfig, s: State, a: Action, p: nat)
    requires Inv(cfg, s) && Enabled(s, a) && p < |Apply(cfg, s, a).callers|
    ensures NamedInv(cfg, Apply(cfg, s, a).callers[p])
  {
    if p < |s.callers| { assert NamedInv(cfg, s.callers[p]); }
  }

  /** Every step keeps the cache, its owners and the answers given in agreement. */
  lemma StepKeeps(cfg: RuntimeConfig, s: State, a: Action)
    requires Inv(cfg, s) && Enabled(s, a)
    ensures Inv(cfg, Apply(cfg, s, a))
  {
    if a.Insert? {
      InsertKeepsCache(cfg, s, a.p);
      InsertKeepsOwners(cfg, s, a.p);
    } else {
      SameCacheKeeps(cfg, s, Apply(cfg, s, a));
      OthersKeepOwners(cfg, s, a);
    }
    StepKeepsGot(cfg, s, a);
    forall p | 0 <= p < |Apply(cfg, s, a).callers|
      ensures NamedInv(cfg, Apply(cfg, s, a).callers[p])
    {
      StepKeepsNames(cfg, s, a, p);
    }
  }

  /** No step changes or removes a cache entry. */
  lemma StepKeepsEntries(cfg: RuntimeConfig, s: State, a: Action)
    requires Enabled(s, a)
    ensures forall k :: k in s.cache ==> k in Apply(cfg, s, a).cache && Apply(cfg, s, a).cache[k] == s.cache[k]
  {
  }

  lemma {:induction false} RunKeeps(cfg: RuntimeConfig, states: seq<State>, actions: seq<Action>, i: nat)
    requires Run(cfg, states, actions) && i <= |actions|
    ensures Inv(cfg, states[i])
  {
    if i > 0 {
      RunKeeps(cfg, states, actions, i - 1);
      StepKeeps(cfg, states[i - 1], actions[i - 1]);
    }
  }

  lemma ReachableKeeps(cfg: RuntimeConfig, s: State)
    requires Reachable(cfg, s)
    ensures Inv(cfg, s)
  {
    var states, actions :| Run(cfg, states, actions) && states[|actions|] == s;
    RunKeeps(cfg, states, actions, |actions|);
  }

  // ---------------------------------------------------------------- what callers can rely on

  /** A caller that finds its key cached is given that connection at once; nothing is opened for it. */
  lemma CachedIsGiven(cfg: RuntimeConfig, s: State, p: nat)
    requires Enabled(s, Look(p))
    ensures var s', pc := Apply(cfg, s, Look(p)), s.callers[p].pc;
            && s'.cache == s.cache && s'.made == s.made
            && if pc.key in s.cache then s'.callers[p].pc == Got(pc.key, s.cache[pc.key], None)
               else s'.callers[p].pc == Missed(pc.key, pc.path)
  {
  }

  /** An entry once there stays for the rest of the run, with the same connection. */
  lemma {:induction false} EntriesStay(
      cfg: RuntimeConfig, states: seq<State>, actions: seq<Action>, i: nat, j: nat, k: string)
    requires Behaviour(cfg, states, actions) && i <= j <= |actions| && k in states[i].cache
    ensures k in states[j].cache && states[j].cache[k] == states[i].cache[k]
    decreases j
  {
    if i < j {
      EntriesStay(cfg, states, actions, i, j - 1, k);
      StepKeepsEntries(cfg, states[j - 1], actions[j - 1]);
    }
  }

  /**
   All successful opens of one key, in whatever states of one run they are seen, give the same
   connection, and no caller is ever given one that lost the race.
   */
  lemma OneConnectionAKey(cfg: RuntimeConfig, states: seq<State>, actions: seq<Action>, i: nat, p: nat, j: nat, q: nat)
    requires Run(cfg, states, actions) && i <= j <= |actions|
    requires p < |states[i].callers| && states[i].callers[p].pc.Got?
    requires q < |states[j].callers| && states[j].callers[q].pc.Got?
    ensures states[i].callers[p].pc.key == states[j].callers[q].pc.key ==>
              states[i].callers[p].pc.conn == states[j].callers[q].pc.conn
    ensures Lost(states[j].callers[q].pc) ==>
              states[i].callers[p].pc.conn.id != states[j].callers[q].pc.own.value.id
    ensures Lost(states[i].callers[p].pc) ==>
              states[j].callers[q].pc.conn.id != states[i].callers[p].pc.own.value.id
  {
    RunKeeps(cfg, states, actions, i);
    RunKeeps(cfg, states, actions, j);
    EntriesStay(cfg, states, actions, i, j, states[i].callers[p].pc.key);
    GotStays(cfg, states, actions, i, j, p);
  }

  lemma {:induction false} GotStays(
      cfg: RuntimeConfig, states: seq<State>, actions: seq<Action>, i: nat, j: nat, p: nat)
    requires Behaviour(cfg, states, actions) && i <= j <= |actions|
    requires p < |states[i].callers| && states[i].callers[p].pc.Got?
    ensures p < |states[j].callers| && states[j].callers[p] == states[i].callers[p]
    decreases j
  {
    if i < j { GotStays(cfg, states, actions, i, j - 1, p); }
  }

  ghost predicate NobodySaysDefault(s: State) {
    forall q :: 0 <= q < |s.callers| ==> ResolvedName(s.callers[q].name) != Some(DEFAULT_KEY)
  }

  /** What a caller is given was opened on the path its name resolves to. */
  ghost predicate PathAgrees(cfg: RuntimeConfig, caller: Caller) {
    caller.pc.Got? ==> DatabasePath(cfg, caller.name) == Ok(caller.pc.conn.path)
  }

  /**
   Whatever the names in use, a caller is only given a connection if its name resolves, and the
   connection is on the path of a name with the same key that some caller gave; and it is only
   rejected if its name does not resolve.
   */
  lemma OnlyResolvedNamesAreOpened(cfg: RuntimeConfig, s: State, p: nat)
    requires Reachable(cfg, s) && p < |s.callers|
    ensures var caller := s.callers[p];
            && (caller.pc.Rejected? ==> NotResolved(cfg, caller.name, caller.pc.error))
            && (caller.pc.Got? ==>
                 && Resolvable(cfg, caller.name)
                 && exists q :: 0 <= q < |s.callers|
                                && DatabaseKey(s.callers[q].name) == DatabaseKey(caller.name)
                                && ResolvesTo(cfg, s.callers[q].name, caller.pc.conn.path))
  {
    ReachableKeeps(cfg, s);
    var caller := s.callers[p];
    assert NamedInv(cfg, caller);
    PathResolves(cfg, caller.name);
    if caller.pc.Got? {
      var q :| 0 <= q < |s.callers| && DatabaseKey(s.callers[q].name) == caller.pc.key
               && DatabasePath(cfg, s.callers[q].name) == Ok(s.cache[caller.pc.key].path);
      PathResolves(cfg, s.callers[q].name);
    }
  }

  /** Unless the default database is ambiguous and asked for by that name, it is on the path of the caller's own. */
  lemma ConnectionIsOnItsPath(cfg: RuntimeConfig, s: State, p: nat)
    requires Reachable(cfg, s) && p < |s.callers|
    requires DefaultIsUnambiguous(cfg) || NobodySaysDefault(s)
    ensures PathAgrees(cfg, s.callers[p])
    ensures s.callers[p].pc.Got? ==> ResolvesTo(cfg, s.callers[p].name, s.callers[p].pc.conn.path)
  {
    PathResolves(cfg, s.callers[p].name);
    ReachableKeeps(cfg, s);
    var caller := s.callers[p];
    if caller.pc.Got? {
      assert NamedInv(cfg, caller);
      var q :| 0 <= q < |s.callers| && DatabaseKey(s.callers[q].name) == caller.pc.key
               && DatabasePath(cfg, s.callers[q].name) == Ok(s.cache[caller.pc.key].path);
      OneKeyOnePath(cfg, s.callers[q].name, caller.name);
    }
  }

  lemma RunOneMore(cfg: RuntimeConfig, states: seq<State>, actions: seq<Action>, a: Action, s': State)
    requires Run(cfg, states, actions) && Enabled(states[|actions|], a)
    requires s' == Apply(cfg, states[|actions|], a)
    ensures Run(cfg, states + [s'], actions + [a])
  {
    var longer := actions + [a];
    forall i | 0 <= i < |longer|
      ensures Enabled((states + [s'])[i], longer[i])
      ensures (states + [s'])[i + 1] == Apply(cfg, (states + [s'])[i], longer[i])
    {
      assert (states + [s'])[i] == states[i];
      if i < |actions| { assert longer[i] == actions[i]; }
    }
  }

  lemma ReachableStep(cfg: RuntimeConfig, s: State, a: Action)
    requires Reachable(cfg, s) && Enabled(s, a)
    ensures Reachable(cfg, Apply(cfg, s, a))
  {
    var states, actions :| Run(cfg, states, actions) && states[|actions|] == s;
    RunOneMore(cfg, states, actions, a, Apply(cfg, s, a));
    assert (states + [Apply(cfg, s, a)])[|actions + [a]|] == Apply(cfg, s, a);
  }

  lemma OpenUnnamed(cfg: RuntimeConfig) returns (s: State)
    ensures Reachable(cfg, s) && |s.callers| == 1
    ensures s.cache == map[DEFAULT_KEY := Conn(0, cfg.defaultPath)]
  {
    assert Run(cfg, [INITIAL], []);
    s := INITIAL;
    ReachableStep(cfg, s, Ask(None));
    s := Apply(cfg, s, Ask(None));
    ReachableStep(cfg, s, Resolve(0));
    s := Apply(cfg, s, Resolve(0));
    ReachableStep(cfg, s, Look(0));
    s := Apply(cfg, s, Look(0));
    ReachableStep(cfg, s, Open(0));
    s := Apply(cfg, s, Open(0));
    ReachableStep(cfg, s, Insert(0));
    s := Apply(cfg, s, Insert(0));
  }

  /** Open the default database, then ask for the one named "default": the second caller gets the first one's. */
  lemma DefaultAliasRun(cfg: RuntimeConfig) returns (s: State)
    requires !DefaultIsUnambiguous(cfg)
    ensures Reachable(cfg, s) && |s.callers| == 2 && !PathAgrees(cfg, s.callers[1])
  {
    DefaultIsAccepted();
    var name := Some(DEFAULT_KEY);
    s := OpenUnnamed(cfg);
    ReachableStep(cfg, s, Ask(name));
    s := Apply(cfg, s, Ask(name));
    ReachableStep(cfg, s, Resolve(1));
    s := Apply(cfg, s, Resolve(1));
    ReachableStep(cfg, s, Look(1));
    s := Apply(cfg, s, Look(1));
  }

  /** The cache agrees with the resolver in every reachable state exactly when the default database is unambiguous. */
  lemma CacheAgreesWithResolver(cfg: RuntimeConfig)
    ensures (forall s, p :: Reachable(cfg, s) && 0 <= p < |s.callers| ==> PathAgrees(cfg, s.callers[p]))
            <==> DefaultIsUnambiguous(cfg)
  {
    if DefaultIsUnambiguous(cfg) {
      forall s, p | Reachable(cfg, s) && 0 <= p < |s.callers|
        ensures PathAgrees(cfg, s.callers[p])
      {
        ConnectionIsOnItsPath(cfg, s, p);
      }
    } else {
      var s := DefaultAliasRun(cfg);
      assert !PathAgrees(cfg, s.callers[1]);
    }
  }
}
