/**
 * The entity locks of an agent endpoint (lock and locks of RpcAgentEndpointBase
 * in goperation/manager/rpc/agent/base.py), as steps of concurrent green threads.
 *
 * The semaphores belong to the class and are shared by all endpoints; the
 * frozen gate belongs to one endpoint.  A step is what a thread does between
 * two places where it may sleep; every acquisition of a semaphore is a step, and
 * EndpointRuns says which runs remain if that of a free one does not sleep.
 * A semaphore is live while a thread refers to it.
 */
module EntityLocks {
  import opened Wrappers
  import opened NatSets

  /** Where a thread stands inside lock(entity) or locks(entitys); timeouts are what is left of them. */
  datatype Phase =
    | LockGate(entity: nat, timeout: real)
    | LockWait(entity: nat)
    | LockHeld(entity: nat)
    | LocksGate(entities: seq<nat>, timeout: real)
    | LocksAcquire(entities: seq<nat>, next: nat, timeout: real)
    | LocksHeld(entities: seq<nat>)

  datatype Use = Use(endpoint: nat, phase: Phase)

  /**
   * frozen: the endpoints whose gate is closed, with the thread that closed it (the code keeps the flag only);
   * owner: the acquired semaphores and their holders.
   */
  datatype State = State(frozen: map<nat, nat>, owner: map<nat, nat>, threads: map<nat, Use>)

  const INIT := State(map[], map[], map[])

  /** max_lock, which is configured for each endpoint. */
  type Limits = nat -> nat

  datatype Action =
    | CallLock(thread: nat, endpoint: nat, entity: nat, timeout: real)
    | CallLocks(thread: nat, endpoint: nat, entities: seq<nat>, timeout: real)
    | TestGate(thread: nat)
    | Acquire(thread: nat, used: real)
    | TimeOut(thread: nat)
    | Release(thread: nat)

  /** The first k entities, or all of them. */
  function Prefix(s: seq<nat>, k: nat): seq<nat> {
    if k < |s| then s[..k] else s
  }

  /** The semaphores a thread refers to, waiting or holding. */
  function Refs(p: Phase): seq<nat> {
    match p
    case LockWait(e) => [e]
    case LockHeld(e) => [e]
    case LocksAcquire(es, k, _) => Prefix(es, k + 1)
    case LocksHeld(es) => es
    case _ => []
  }

  /** The semaphores a thread has acquired and not released. */
  function Holding(p: Phase): seq<nat> {
    match p
    case LockHeld(e) => [e]
    case LocksAcquire(es, k, _) => Prefix(es, k)
    case LocksHeld(es) => es
    case _ => []
  }

  function Live(s: State): set<nat> {
    set t, e | t in s.threads && e in Refs(s.threads[t].phase) :: e
  }

  /** The end of a call: its locks are released, and its own gate is reopened if it was closed. */
  function Leave(s: State, t: nat): State
    requires t in s.threads
  {
    var use := s.threads[t];
    State(
      if use.phase.LocksAcquire? then s.frozen - {use.endpoint} else s.frozen,
      s.owner - Elements(Holding(use.phase)),
      s.threads - {t})
  }

  function Set(s: State, t: nat, p: Phase): State
    requires t in s.threads
  {
    s.(threads := s.threads[t := s.threads[t].(phase := p)])
  }

  /** The for loop of locks at its k-th entity, with the gate closed by t. */
  function LocksLoop(s: State, t: nat, es: seq<nat>, k: nat, timeout: real): Outcome<State>
    requires t in s.threads
  {
    if k >= |es| then
      Moved(Set(s, t, LocksHeld(es)).(frozen := s.frozen - {s.threads[t].endpoint}))
    else if timeout <= 0.1 then
      Raised(Leave(Set(s, t, LocksAcquire(es, k, timeout)), t))
    else
      Moved(Set(s, t, LocksAcquire(es, k, timeout)))
  }

  function Next(s: State, limits: Limits, a: Action): Outcome<State> {
    match a
    case CallLock(t, ep, e, timeout) =>
      if t in s.threads then Disabled
      else Moved(s.(threads := s.threads[t := Use(ep, LockGate(e, timeout))]))
    case CallLocks(t, ep, es, timeout) =>
      if t in s.threads then Disabled
      else Moved(s.(threads := s.threads[t := Use(ep, LocksGate(es, timeout))]))
    case TestGate(t) =>
      if t !in s.threads then Disabled
      else
        var ep := s.threads[t].endpoint;
        (match s.threads[t].phase
         case LockGate(e, timeout) =>
           if ep in s.frozen then
             if timeout < 1.0 then Raised(Leave(s, t)) else Moved(Set(s, t, LockGate(e, timeout - 1.0)))
           else if |Live(s)| >= limits(ep) then Raised(Leave(s, t))
           else Moved(Set(s, t, LockWait(e)))
         case LocksGate(es, timeout) =>
           if ep in s.frozen then
             if timeout < 0.1 then Raised(Leave(s, t)) else Moved(Set(s, t, LocksGate(es, timeout - 0.1)))
           else if |es| + |Live(s)| > limits(ep) then Raised(Leave(s, t))
           else LocksLoop(s.(frozen := s.frozen[ep := t]), t, es, 0, timeout)
         case _ => Disabled)
    case Acquire(t, used) =>
      if t !in s.threads then Disabled
      else
        (match s.threads[t].phase
         case LockWait(e) =>
           if e in s.owner then Disabled
           else Moved(Set(s, t, LockHeld(e)).(owner := s.owner[e := t]))
         case LocksAcquire(es, k, timeout) =>
           if k >= |es| || es[k] in s.owner then Disabled
           else LocksLoop(s.(owner := s.owner[es[k] := t]), t, es, k + 1, timeout - used)
         case _ => Disabled)
    case TimeOut(t) =>
      if t in s.threads && (s.threads[t].phase.LockWait? || s.threads[t].phase.LocksAcquire?) then Raised(Leave(s, t))
      else Disabled
    case Release(t) =>
      if t in s.threads && (s.threads[t].phase.LockHeld? || s.threads[t].phase.LocksHeld?) then Moved(Leave(s, t))
      else Disabled
  }

  /** The state after a sequence of steps, if all of them were enabled. */
  function Exec(s: State, limits: Limits, actions: seq<Action>): Option<State>
    decreases |actions|
  {
    if actions == [] then Some(s)
    else
      match Next(s, limits, actions[0])
      case Disabled => None
      case Moved(s') => Exec(s', limits, actions[1..])
      case Raised(s') => Exec(s', limits, actions[1..])
  }

  // ---- what every interleaving keeps, with any number of endpoints ----

  ghost predicate Acquiring(s: State, t: nat, ep: nat) {
    t in s.threads && s.threads[t].phase.LocksAcquire? && s.threads[t].endpoint == ep
  }

  ghost predicate Holds(s: State, t: nat, e: nat) {
    t in s.threads && e in Holding(s.threads[t].phase)
  }

  /** A semaphore is owned by exactly the thread that holds it. */
  ghost predicate Owned(s: State) {
    forall t, e :: Holds(s, t, e) <==> e in s.owner && s.owner[e] == t
  }

  /** The gate of an endpoint is closed exactly while one thread of that endpoint acquires. */
  ghost predicate Gated(s: State) {
    && (forall t, ep :: Acquiring(s, t, ep) <==> ep in s.frozen && s.frozen[ep] == t)
    && (forall t, ep :: Acquiring(s, t, ep) ==> s.threads[t].phase.next < |s.threads[t].phase.entities|)
  }

  ghost predicate Inv(s: State) {
    Owned(s) && Gated(s)
  }

  lemma LeaveKeeps(s: State, t: nat)
    requires Inv(s) && t in s.threads
    ensures Inv(Leave(s, t))
  {
    var s' := Leave(s, t);
    forall u, e ensures Holds(s', u, e) <==> e in s'.owner && s'.owner[e] == u {
      assert Holds(s, u, e) <==> e in s.owner && s.owner[e] == u;
      assert Holds(s, t, e) <==> e in s.owner && s.owner[e] == t;
    }
    forall u, ep ensures Acquiring(s', u, ep) <==> ep in s'.frozen && s'.frozen[ep] == u {
      assert Acquiring(s, u, ep) <==> ep in s.frozen && s.frozen[ep] == u;
      assert Acquiring(s, t, ep) <==> ep in s.frozen && s.frozen[ep] == t;
    }
    assert forall u, ep :: Acquiring(s', u, ep) ==> Acquiring(s, u, ep);
  }

  /** A thread outside the acquisition loop changes its phase without acquiring anything. */
  lemma SetKeeps(s: State, t: nat, use: Use)
    requires Inv(s)
    requires t in s.threads ==> !s.threads[t].phase.LocksAcquire? && Holding(s.threads[t].phase) == []
    requires !use.phase.LocksAcquire? && Holding(use.phase) == []
    ensures Inv(s.(threads := s.threads[t := use]))
  {
    var s' := s.(threads := s.threads[t := use]);
    assert forall u, e :: Holds(s', u, e) <==> Holds(s, u, e);
    assert forall u, ep :: Acquiring(s', u, ep) <==> Acquiring(s, u, ep);
  }

  /** A thread acquires the semaphore it was waiting for in lock. */
  lemma TakeKeeps(s: State, t: nat, e: nat)
    requires Inv(s) && t in s.threads && s.threads[t].phase == LockWait(e) && e !in s.owner
    ensures Inv(Set(s, t, LockHeld(e)).(owner := s.owner[e := t]))
  {
    var s' := Set(s, t, LockHeld(e)).(owner := s.owner[e := t]);
    assert forall u, e' :: Holds(s', u, e') <==> Holds(s, u, e') || (u == t && e' == e);
    assert forall u, ep :: Acquiring(s', u, ep) <==> Acquiring(s, u, ep);
  }

  /** The acquisition loop, entered with the gate closed and the first k semaphores held. */
  ghost predicate InLoop(s: State, t: nat, es: seq<nat>, k: nat) {
    && t in s.threads
    && k <= |es|
    && (forall u, e :: InLoopHolds(s, t, es[..k], u, e) <==> e in s.owner && s.owner[e] == u)
    && (forall u, ep :: InLoopGate(s, t, u, ep) <==> ep in s.frozen && s.frozen[ep] == u)
    && (forall u, ep :: u != t && Acquiring(s, u, ep) ==> s.threads[u].phase.next < |s.threads[u].phase.entities|)
  }

  ghost predicate InLoopHolds(s: State, t: nat, held: seq<nat>, u: nat, e: nat) {
    if u == t then e in held else Holds(s, u, e)
  }

  ghost predicate InLoopGate(s: State, t: nat, u: nat, ep: nat)
    requires t in s.threads
  {
    if u == t then ep == s.threads[t].endpoint else Acquiring(s, u, ep)
  }

  lemma LoopKeeps(s: State, t: nat, es: seq<nat>, k: nat, timeout: real)
    requires InLoop(s, t, es, k)
    ensures Inv(LocksLoop(s, t, es, k, timeout).state)
  {
    if k == |es| {
      assert es[..k] == es;
      var s' := LocksLoop(s, t, es, k, timeout).state;
      assert forall u, e :: Holds(s', u, e) <==> InLoopHolds(s, t, es, u, e);
      var own := s.threads[t].endpoint;
      assert InLoopGate(s, t, t, own);
      forall u, ep ensures Acquiring(s', u, ep) <==> ep in s'.frozen && s'.frozen[ep] == u {
        assert Acquiring(s', u, ep) <==> u != t && Acquiring(s, u, ep);
        assert InLoopGate(s, t, u, ep) <==> ep in s.frozen && s.frozen[ep] == u;
      }
      assert forall u, ep :: Acquiring(s', u, ep) ==> u != t && Acquiring(s, u, ep);
    } else {
      var s' := Set(s, t, LocksAcquire(es, k, timeout));
      assert forall u, e :: Holds(s', u, e) <==> InLoopHolds(s, t, es[..k], u, e);
      assert forall u, ep :: Acquiring(s', u, ep) <==> InLoopGate(s, t, u, ep);
      LeaveKeeps(s', t);
    }
  }

  lemma NextKeeps(s: State, limits: Limits, a: Action)
    requires Inv(s) && !Next(s, limits, a).Disabled?
    ensures Inv(Next(s, limits, a).state)
  {
    hide Inv, Leave, LocksLoop, Live;
    match a {
      case CallLock(t, ep, e, timeout) => SetKeeps(s, t, Use(ep, LockGate(e, timeout)));
      case CallLocks(t, ep, es, timeout) => SetKeeps(s, t, Use(ep, LocksGate(es, timeout)));
      case TestGate(t) =>
        LeaveKeeps(s, t);
        match s.threads[t].phase {
          case LockGate(e, timeout) =>
            SetKeeps(s, t, Use(s.threads[t].endpoint, LockGate(e, timeout - 1.0)));
            SetKeeps(s, t, Use(s.threads[t].endpoint, LockWait(e)));
          case LocksGate(es, timeout) =>
            SetKeeps(s, t, Use(s.threads[t].endpoint, LocksGate(es, timeout - 0.1)));
            var ep := s.threads[t].endpoint;
            if ep !in s.frozen {
              CloseGate(s, t, ep, es);
              LoopKeeps(s.(frozen := s.frozen[ep := t]), t, es, 0, timeout);
            }
        }
      case Acquire(t, used) =>
        match s.threads[t].phase {
          case LockWait(e) => TakeKeeps(s, t, e);
          case LocksAcquire(es, k, timeout) =>
            TakeNext(s, t, es, k);
            LoopKeeps(s.(owner := s.owner[es[k] := t]), t, es, k + 1, timeout - used);
        }
      case TimeOut(t) => LeaveKeeps(s, t);
      case Release(t) => LeaveKeeps(s, t);
    }
  }

  /** A thread that is about to test the gate holds nothing. */
  lemma GateHolds(s: State, t: nat, u: nat, e: nat)
    requires Inv(s) && t in s.threads && s.threads[t].phase.LocksGate?
    ensures InLoopHolds(s, t, [], u, e) <==> e in s.owner && s.owner[e] == u
  {
    assert Holds(s, u, e) <==> e in s.owner && s.owner[e] == u;
  }

  lemma GateAcquires(s: State, t: nat, u: nat, ep: nat, closed: nat)
    requires Inv(s) && t in s.threads && s.threads[t].phase.LocksGate?
    requires s.threads[t].endpoint == closed && closed !in s.frozen
    ensures InLoopGate(s, t, u, ep) <==> ep in s.frozen[closed := t] && s.frozen[closed := t][ep] == u
  {
    assert Acquiring(s, u, ep) <==> ep in s.frozen && s.frozen[ep] == u;
  }

  lemma CloseGate(s: State, t: nat, ep: nat, es: seq<nat>)
    requires Inv(s) && t in s.threads && s.threads[t].phase.LocksGate? && s.threads[t].endpoint == ep && ep !in s.frozen
    ensures InLoop(s.(frozen := s.frozen[ep := t]), t, es, 0)
  {
    var s' := s.(frozen := s.frozen[ep := t]);
    assert es[..0] == [];
    forall u, e ensures InLoopHolds(s', t, es[..0], u, e) <==> e in s'.owner && s'.owner[e] == u {
      GateHolds(s, t, u, e);
      assert Holds(s', u, e) <==> Holds(s, u, e);
    }
    forall u, ep' ensures InLoopGate(s', t, u, ep') <==> ep' in s'.frozen && s'.frozen[ep'] == u {
      GateAcquires(s, t, u, ep', ep);
      assert Acquiring(s', u, ep') <==> Acquiring(s, u, ep');
    }
    forall u, ep' | u != t && Acquiring(s', u, ep')
      ensures s'.threads[u].phase.next < |s'.threads[u].phase.entities|
    {
      assert Acquiring(s, u, ep');
    }
  }

  /** What a thread in the loop holds is what it has acquired so far. */
  lemma NextHolds(s: State, t: nat, es: seq<nat>, k: nat, u: nat, e: nat)
    requires Inv(s) && t in s.threads && s.threads[t].phase.LocksAcquire?
    requires s.threads[t].phase.entities == es && s.threads[t].phase.next == k < |es| && es[k] !in s.owner
    ensures var owner := s.owner[es[k] := t];
            InLoopHolds(s, t, es[..k + 1], u, e) <==> e in owner && owner[e] == u
  {
    assert Holds(s, u, e) <==> e in s.owner && s.owner[e] == u;
    assert es[..k + 1] == es[..k] + [es[k]];
    assert Holding(s.threads[t].phase) == es[..k];
  }

  lemma NextAcquires(s: State, t: nat, u: nat, ep: nat)
    requires Inv(s) && t in s.threads && s.threads[t].phase.LocksAcquire?
    ensures InLoopGate(s, t, u, ep) <==> ep in s.frozen && s.frozen[ep] == u
  {
    assert Acquiring(s, u, ep) <==> ep in s.frozen && s.frozen[ep] == u;
  }

  lemma TakeNext(s: State, t: nat, es: seq<nat>, k: nat)
    requires Inv(s) && t in s.threads && s.threads[t].phase.LocksAcquire?
    requires s.threads[t].phase.entities == es && s.threads[t].phase.next == k < |es| && es[k] !in s.owner
    ensures InLoop(s.(owner := s.owner[es[k] := t]), t, es, k + 1)
  {
    var s' := s.(owner := s.owner[es[k] := t]);
    var got := es[..k + 1];
    forall u, e ensures InLoopHolds(s', t, got, u, e) <==> e in s'.owner && s'.owner[e] == u {
      NextHolds(s, t, es, k, u, e);
      assert Holds(s', u, e) <==> Holds(s, u, e);
    }
    forall u, ep ensures InLoopGate(s', t, u, ep) <==> ep in s'.frozen && s'.frozen[ep] == u {
      NextAcquires(s, t, u, ep);
      assert Acquiring(s', u, ep) <==> Acquiring(s, u, ep);
    }
    forall u, ep | u != t && Acquiring(s', u, ep)
      ensures s'.threads[u].phase.next < |s'.threads[u].phase.entities|
    {
      assert Acquiring(s, u, ep);
    }
  }

  lemma {:induction false} ExecKeeps(s: State, limits: Limits, actions: seq<Action>)
    requires Inv(s) && Exec(s, limits, actions).Some?
    ensures Inv(Exec(s, limits, actions).value)
    decreases |actions|
  {
    hide Inv, Next;
    if actions != [] {
      NextKeeps(s, limits, actions[0]);
      ExecKeeps(Next(s, limits, actions[0]).state, limits, actions[1..]);
    }
  }

  /** In every reachable state a semaphore has one holder and a gate one acquiring thread. */
  lemma ReachableKeeps(limits: Limits, actions: seq<Action>)
    requires Exec(INIT, limits, actions).Some?
    ensures Inv(Exec(INIT, limits, actions).value)
  {
    ExecKeeps(INIT, limits, actions);
  }

  /** At most one locks caller of an endpoint is between closing the gate and reopening it. */
  lemma OneAcquirer(s: State, ep: nat, t: nat, u: nat)
    requires Inv(s) && Acquiring(s, t, ep) && Acquiring(s, u, ep)
    ensures t == u
  {
    assert s.frozen[ep] == t;
  }

  lemma ForgetNext(owner: map<nat, nat>, es: seq<nat>, k: nat, t: nat)
    requires k < |es| && es[k] !in owner
    ensures owner[es[k] := t] - Elements(Prefix(es, k + 1)) == owner - Elements(Prefix(es, k))
  {
    assert Prefix(es, k + 1) == Prefix(es, k) + [es[k]];
  }

  /** Raising is leaving, whatever step it happens in. */
  lemma RaisedIsLeave(s: State, limits: Limits, a: Action)
    requires Inv(s) && Next(s, limits, a).Raised?
    ensures a.thread in s.threads && Next(s, limits, a).state == Leave(s, a.thread)
  {
    hide Live, Inv;
    var t := a.thread;
    if a.Acquire? {
      var es, k := s.threads[t].phase.entities, s.threads[t].phase.next;
      ForgetNext(s.owner, es, k, t);
    } else if a.TestGate? && s.threads[t].phase.LocksGate? {
      var ep := s.threads[t].endpoint;
      assert ep !in s.frozen ==> s.frozen[ep := t] - {ep} == s.frozen;
    }
  }

  /**
   * A call that raises gives back exactly the semaphores it had acquired, to
   * nobody else's loss, and reopens its endpoint's gate exactly if it had closed it.
   */
  lemma FailureRestores(s: State, limits: Limits, a: Action)
    requires Inv(s) && Next(s, limits, a).Raised?
    ensures a.thread in s.threads
    ensures var t, s' := a.thread, Next(s, limits, a).state;
            && s'.threads == s.threads - {t}
            && s'.owner == (map e | e in s.owner && s.owner[e] != t :: s.owner[e])
            && s'.frozen == (map ep | ep in s.frozen && s.frozen[ep] != t :: s.frozen[ep])
  {
    hide Next;
    RaisedIsLeave(s, limits, a);
    var t := a.thread;
    assert forall e :: Holds(s, t, e) <==> e in s.owner && s.owner[e] == t;
    assert forall ep :: Acquiring(s, t, ep) <==> ep in s.frozen && s.frozen[ep] == t;
  }

  // ---- when a call raises, and how long it waits at the gate ----

  /** A test of a closed gate finds no time left: lock tests it once a second, and locks ten times. */
  ghost predicate GateTimeUp(s: State, t: nat) {
    && t in s.threads && s.threads[t].endpoint in s.frozen
    && match s.threads[t].phase
       case LockGate(_, left) => left < 1.0
       case LocksGate(_, left) => left < 0.1
       case _ => false
  }

  /** The open gate finds no room for the entities of the call, besides the semaphores that are live. */
  ghost predicate OverLimit(s: State, limits: Limits, t: nat) {
    && t in s.threads && s.threads[t].endpoint !in s.frozen
    && match s.threads[t].phase
       case LockGate(_, _) => |Live(s)| + 1 > limits(s.threads[t].endpoint)
       case LocksGate(es, _) => |Live(s)| + |es| > limits(s.threads[t].endpoint)
       case _ => false
  }

  /** The loop of locks comes to another entity with at most a tenth of a second left. */
  ghost predicate LoopTimeUp(s: State, a: Action) {
    && a.thread in s.threads
    && var p := s.threads[a.thread].phase;
       || (a.TestGate? && p.LocksGate? && p.entities != [] && p.timeout <= 0.1)
       || (a.Acquire? && p.LocksAcquire? && p.next + 1 < |p.entities| && p.timeout - a.used <= 0.1)
  }

  /** A call raises exactly in one of four cases: time up at the gate, no room, time up in the loop, or at a semaphore. */
  lemma RaisingSteps(s: State, limits: Limits, a: Action)
    requires !Next(s, limits, a).Disabled?
    ensures Next(s, limits, a).Raised? <==>
              || (a.TestGate? && (GateTimeUp(s, a.thread) || OverLimit(s, limits, a.thread)))
              || (!(a.TestGate? && s.threads[a.thread].endpoint in s.frozen) && LoopTimeUp(s, a))
              || a.TimeOut?
  {
    hide Live, Elements, Leave;
  }

  /** A call can time out exactly while it waits for a semaphore. */
  lemma TimeOutMeaning(s: State, limits: Limits, t: nat)
    ensures !Next(s, limits, TimeOut(t)).Disabled? <==>
              t in s.threads && (s.threads[t].phase.LockWait? || s.threads[t].phase.LocksAcquire?)
  {
  }

  function Tests(t: nat, n: nat): seq<Action> {
    if n == 0 then [] else [TestGate(t)] + Tests(t, n - 1)
  }

  /** At a gate that stays closed a call of lock with n seconds and a bit left raises at its test n + 1, and not before. */
  lemma {:induction false} LockIsPatient(s: State, limits: Limits, t: nat, e: nat, left: real, n: nat)
    requires t in s.threads && s.threads[t].endpoint in s.frozen && s.threads[t].phase == LockGate(e, left)
    requires n as real <= left
    ensures Exec(s, limits, Tests(t, n)) == Some(Set(s, t, LockGate(e, left - n as real)))
    ensures GateTimeUp(Set(s, t, LockGate(e, left - n as real)), t) <==> left < n as real + 1.0
    decreases n
  {
    if n == 0 {
      assert Set(s, t, LockGate(e, left)).threads == s.threads;
    } else {
      var s' := Set(s, t, LockGate(e, left - 1.0));
      assert Next(s, limits, TestGate(t)) == Moved(s');
      LockIsPatient(s', limits, t, e, left - 1.0, n - 1);
      assert Set(s', t, LockGate(e, left - n as real)).threads == Set(s, t, LockGate(e, left - n as real)).threads;
      assert Tests(t, n)[1..] == Tests(t, n - 1);
      hide Next;
    }
  }

  /** So does a call of locks, ten times as often. */
  lemma {:induction false} LocksIsPatient(s: State, limits: Limits, t: nat, es: seq<nat>, left: real, n: nat)
    requires t in s.threads && s.threads[t].endpoint in s.frozen && s.threads[t].phase == LocksGate(es, left)
    requires 0.1 * n as real <= left
    ensures Exec(s, limits, Tests(t, n)) == Some(Set(s, t, LocksGate(es, left - 0.1 * n as real)))
    ensures GateTimeUp(Set(s, t, LocksGate(es, left - 0.1 * n as real)), t) <==> left < 0.1 * (n as real + 1.0)
    decreases n
  {
    if n == 0 {
      assert Set(s, t, LocksGate(es, left)).threads == s.threads;
    } else {
      var s' := Set(s, t, LocksGate(es, left - 0.1));
      assert Next(s, limits, TestGate(t)) == Moved(s');
      LocksIsPatient(s', limits, t, es, left - 0.1, n - 1);
      var after := LocksGate(es, left - 0.1 * n as real);
      assert left - 0.1 - 0.1 * (n - 1) as real == left - 0.1 * n as real;
      assert Set(s', t, after).threads == Set(s, t, after).threads;
      assert Tests(t, n)[1..] == Tests(t, n - 1);
      hide Next;
    }
  }

  // ---- one endpoint ----

  ghost predicate OnEndpoint(actions: seq<Action>, ep: nat) {
    forall a | a in actions && (a.CallLock? || a.CallLocks?) :: a.endpoint == ep
  }

  ghost predicate NoDuplicates(es: seq<nat>) {
    forall i, j | 0 <= i < j < |es| :: es[i] != es[j]
  }

  ghost predicate DistinctCalls(actions: seq<Action>) {
    forall a | a in actions && a.CallLocks? :: NoDuplicates(a.entities)
  }

  function Requested(p: Phase): seq<nat> {
    if p.LocksGate? || p.LocksAcquire? || p.LocksHeld? then p.entities else []
  }

  /** All calls ask for distinct entities. */
  ghost predicate Distinct(s: State) {
    forall t | t in s.threads :: NoDuplicates(Requested(s.threads[t].phase))
  }

  ghost predicate AllOn(s: State, ep: nat) {
    forall t | t in s.threads :: s.threads[t].endpoint == ep
  }

  ghost predicate Simple(s: State, ep: nat) {
    AllOn(s, ep) && Distinct(s)
  }

  lemma DistinctKeeps(s: State, limits: Limits, a: Action)
    requires Distinct(s) && DistinctCalls([a]) && !Next(s, limits, a).Disabled?
    ensures Distinct(Next(s, limits, a).state)
  {
    hide Live, NoDuplicates, Elements;
    assert NoDuplicates([]) by { EmptyHasNoDuplicates(); }
    assert a in [a];
  }

  lemma EmptyHasNoDuplicates()
    ensures NoDuplicates([])
  {
  }

  lemma EndpointKeeps(s: State, limits: Limits, a: Action, ep: nat)
    requires AllOn(s, ep) && OnEndpoint([a], ep) && !Next(s, limits, a).Disabled?
    ensures AllOn(Next(s, limits, a).state, ep)
  {
    hide Live, Elements;
    assert a in [a];
  }

  lemma {:induction false} ExecDistinct(s: State, limits: Limits, actions: seq<Action>)
    requires Distinct(s) && DistinctCalls(actions) && Exec(s, limits, actions).Some?
    ensures Distinct(Exec(s, limits, actions).value)
    decreases |actions|
  {
    if actions != [] {
      hide Next, Distinct;
      DistinctKeeps(s, limits, actions[0]);
      ExecDistinct(Next(s, limits, actions[0]).state, limits, actions[1..]);
    }
  }

  lemma {:induction false} ExecOnEndpoint(s: State, limits: Limits, actions: seq<Action>, ep: nat)
    requires AllOn(s, ep) && OnEndpoint(actions, ep) && Exec(s, limits, actions).Some?
    ensures AllOn(Exec(s, limits, actions).value, ep)
    decreases |actions|
  {
    if actions != [] {
      hide Next, AllOn;
      EndpointKeeps(s, limits, actions[0], ep);
      ExecOnEndpoint(Next(s, limits, actions[0]).state, limits, actions[1..], ep);
    }
  }

  ghost predicate WaitsFor(s: State, a: nat, b: nat) {
    && a in s.threads
    && match s.threads[a].phase
       case LockWait(e) => e in s.owner && s.owner[e] == b
       case LocksAcquire(es, k, _) => k < |es| && es[k] in s.owner && s.owner[es[k]] == b
       case _ => false
  }

  /** Only the thread that closed the gate can hold a semaphore while it waits for another. */
  lemma HoldAndWait(s: State, ep: nat, a: nat, b: nat, e: nat)
    requires Inv(s) && Simple(s, ep) && WaitsFor(s, a, b) && Holds(s, a, e)
    ensures ep in s.frozen && s.frozen[ep] == a
  {
    assert Acquiring(s, a, ep);
  }

  lemma NoSelfWait(s: State, a: nat)
    requires Inv(s) && Distinct(s)
    ensures !WaitsFor(s, a, a)
  {
    if a in s.threads {
      var p := s.threads[a].phase;
      if p.LockWait? {
        assert !Holds(s, a, p.entity);
      } else if p.LocksAcquire? && p.next < |p.entities| {
        assert Holds(s, a, p.entities[p.next]) <==> p.entities[p.next] in p.entities[..p.next];
        assert NoDuplicates(Requested(p));
      }
    }
  }

  ghost predicate WaitsForNext(s: State, path: seq<nat>, i: nat)
    requires i < |path|
  {
    i + 1 < |path| ==> WaitsFor(s, path[i], path[i + 1])
  }

  /** The wait-for graph has no cycle of any length. */
  lemma NoWaitCycle(s: State, ep: nat, path: seq<nat>)
    requires Inv(s) && Simple(s, ep)
    requires |path| >= 2 && forall i | 0 <= i < |path| :: WaitsForNext(s, path, i)
    ensures path[0] != path[|path| - 1]
  {
    NoSelfWait(s, path[0]);
    assert WaitsForNext(s, path, 0);
    if |path| > 2 {
      assert WaitsForNext(s, path, 1) && WaitsForNext(s, path, 2);
      WaitChainEnds(s, ep, path[0], path[1], path[2]);
    }
  }

  lemma WaitChainEnds(s: State, ep: nat, a: nat, b: nat, c: nat)
    requires Inv(s) && Simple(s, ep) && WaitsFor(s, a, b) && WaitsFor(s, b, c)
    ensures forall d :: !WaitsFor(s, c, d)
    ensures a != c
  {
    var pa, pb := s.threads[a].phase, s.threads[b].phase;
    var wanted := if pa.LockWait? then pa.entity else pa.entities[pa.next];
    assert Holds(s, b, wanted);
    HoldAndWait(s, ep, b, c, wanted);
    assert Acquiring(s, b, ep);
    assert Holds(s, c, pb.entities[pb.next]);
    NoSelfWait(s, b);
    assert s.threads[c].phase.LocksAcquire? ==> Acquiring(s, c, ep);
  }

  /** No interleaving of calls on one endpoint, for distinct entities, ever closes a wait cycle. */
  lemma NoDeadlock(limits: Limits, actions: seq<Action>, ep: nat, path: seq<nat>)
    requires OnEndpoint(actions, ep) && DistinctCalls(actions) && Exec(INIT, limits, actions).Some?
    requires |path| >= 2
    requires forall i | 0 <= i < |path| :: WaitsForNext(Exec(INIT, limits, actions).value, path, i)
    ensures path[0] != path[|path| - 1]
  {
    ExecOnEndpoint(INIT, limits, actions, ep);
    ExecDistinct(INIT, limits, actions);
    ExecKeeps(INIT, limits, actions);
    NoWaitCycle(Exec(INIT, limits, actions).value, ep, path);
  }
}
