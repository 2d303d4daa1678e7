/**
 * Runs of lock and locks of RpcAgentEndpointBase (goperation/manager/rpc/agent/base.py)
 * over the steps of EntityLocks, according to when the acquisition of a
 * semaphore that is free lets other threads run.
 */
module EndpointRuns {
  import opened Wrappers
  import opened NatSets
  import opened EntityLocks

  /** When acquiring a free semaphore may switch to another thread. */
  datatype Switching = Always | IfAwaited | Never

  /** The semaphore that a thread asks for. */
  function AsksFor(s: State, t: nat): Option<nat> {
    if t !in s.threads then None
    else
      match s.threads[t].phase
      case LockWait(e) => Some(e)
      case LocksAcquire(es, k, _) => if k < |es| then Some(es[k]) else None
      case _ => None
  }

  /** The thread takes what it asks for without letting others run. */
  ghost predicate GoesOn(s: State, w: Switching, t: nat) {
    && !w.Always? && AsksFor(s, t).Some? && AsksFor(s, t).value !in s.owner
    && (w.IfAwaited? ==> forall u :: u != t ==> AsksFor(s, u) != AsksFor(s, t))
  }

  /** last: the thread that made the last step. */
  ghost predicate Busy(s: State, w: Switching, last: Option<nat>) {
    last.Some? && GoesOn(s, w, last.value)
  }

  ghost predicate Allowed(s: State, w: Switching, last: Option<nat>, a: Action) {
    Busy(s, w, last) ==> a.Acquire? && a.thread == last.value
  }

  /** The state after a run in which no thread that goes on is interrupted, and none does at the end. */
  ghost function Run(s: State, limits: Limits, w: Switching, last: Option<nat>, actions: seq<Action>): Option<State>
    decreases |actions|
  {
    if actions == [] then
      if Busy(s, w, last) then None else Some(s)
    else if !Allowed(s, w, last, actions[0]) || Next(s, limits, actions[0]).Disabled? then None
    else Run(Next(s, limits, actions[0]).state, limits, w, Some(actions[0].thread), actions[1..])
  }

  /** Such runs are among all runs, and are all runs if every acquisition may switch. */
  lemma {:induction false} RunIsExec(s: State, limits: Limits, w: Switching, last: Option<nat>, actions: seq<Action>)
    ensures Run(s, limits, w, last, actions).Some? || w.Always? ==>
              Run(s, limits, w, last, actions) == Exec(s, limits, actions)
    decreases |actions|
  {
    if actions == [] {
    } else if Next(s, limits, actions[0]).Disabled? {
    } else {
      hide Next;
      RunIsExec(Next(s, limits, actions[0]).state, limits, w, Some(actions[0].thread), actions[1..]);
    }
  }

  // ---- what the steps do to acquiring threads ----

  ghost predicate OnEndpoints(actions: seq<Action>, endpoints: set<nat>) {
    forall a | a in actions && (a.CallLock? || a.CallLocks?) :: a.endpoint in endpoints
  }

  ghost predicate AllWithin(s: State, endpoints: set<nat>) {
    forall t | t in s.threads :: s.threads[t].endpoint in endpoints
  }

  /** The thread is in the loop of locks. */
  ghost predicate IsAcquiring(s: State, t: nat) {
    t in s.threads && s.threads[t].phase.LocksAcquire?
  }

  ghost function Asked(s: State, t: nat): seq<nat>
    requires IsAcquiring(s, t)
  {
    s.threads[t].phase.entities
  }

  /** TestGate lets a caller of locks into the loop. */
  ghost predicate Admits(s: State, limits: Limits, t: nat) {
    && t in s.threads && s.threads[t].phase.LocksGate? && s.threads[t].endpoint !in s.frozen
    && |s.threads[t].phase.entities| + |Live(s)| <= limits(s.threads[t].endpoint)
  }

  /** Nobody comes into the loop but by TestGate, and nobody changes endpoint or entities there. */
  lemma StepAcquirers(s: State, limits: Limits, a: Action, u: nat)
    requires !Next(s, limits, a).Disabled? && IsAcquiring(Next(s, limits, a).state, u)
    ensures var s' := Next(s, limits, a).state;
            && u in s.threads && s'.threads[u].endpoint == s.threads[u].endpoint
            && ((IsAcquiring(s, u) && Asked(s', u) == Asked(s, u))
                || (a == TestGate(u) && Admits(s, limits, u) && Asked(s', u) == s.threads[u].phase.entities))
  {
    hide Live, Elements;
  }

  lemma WithinKeeps(s: State, limits: Limits, a: Action, endpoints: set<nat>)
    requires AllWithin(s, endpoints) && OnEndpoints([a], endpoints) && !Next(s, limits, a).Disabled?
    ensures AllWithin(Next(s, limits, a).state, endpoints)
  {
    hide Live, Elements;
    assert a in [a];
  }

  /** An acquiring thread refers to the semaphore it asks for. */
  lemma AcquirerIsLive(s: State, t: nat)
    requires Inv(s) && IsAcquiring(s, t)
    ensures s.threads[t].phase.next < |Asked(s, t)| && Asked(s, t)[s.threads[t].phase.next] in Live(s)
    ensures |Live(s)| > 0
  {
    var p := s.threads[t].phase;
    assert Acquiring(s, t, s.threads[t].endpoint);
    var e := p.entities[p.next];
    assert e in Prefix(p.entities, p.next + 1);
    assert e in Refs(s.threads[t].phase);
  }

  // ---- how many entities an acquiring thread has asked for ----

  /** It waits for a semaphore that it holds itself, as an entity was given twice. */
  ghost predicate Stuck(s: State, t: nat)
    requires IsAcquiring(s, t)
  {
    var k := s.threads[t].phase.next;
    k < |Asked(s, t)| && Asked(s, t)[k] in Asked(s, t)[..k]
  }

  /** Nobody else refers to a semaphore. */
  ghost predicate Alone(s: State, t: nat) {
    forall u, e :: u in s.threads && e in Refs(s.threads[u].phase) ==> u == t
  }

  /** Unless every acquisition may switch, a thread that waits in the loop has left room for one more semaphore. */
  function Slack(w: Switching): nat {
    if w.Always? then 0 else 1
  }

  ghost predicate Sized(s: State, limits: Limits, w: Switching, last: Option<nat>, t: nat)
    requires IsAcquiring(s, t)
  {
    var limit := limits(s.threads[t].endpoint);
    && |Asked(s, t)| <= limit
    && (|Asked(s, t)| + Slack(w) <= limit || Stuck(s, t) || (last == Some(t) && Alone(s, t)))
  }

  ghost predicate AllSized(s: State, limits: Limits, w: Switching, last: Option<nat>) {
    forall t :: IsAcquiring(s, t) ==> Sized(s, limits, w, last, t)
  }

  lemma StuckIsOwned(s: State, t: nat)
    requires Inv(s) && IsAcquiring(s, t) && Stuck(s, t)
    ensures AsksFor(s, t).Some? && AsksFor(s, t).value in s.owner
  {
    var p := s.threads[t].phase;
    assert Holds(s, t, p.entities[p.next]);
  }

  /** A stuck thread stays so until it leaves. */
  lemma StuckStays(s: State, limits: Limits, a: Action, t: nat)
    requires Inv(s) && IsAcquiring(s, t) && Stuck(s, t)
    requires !Next(s, limits, a).Disabled? && IsAcquiring(Next(s, limits, a).state, t)
    ensures Stuck(Next(s, limits, a).state, t)
  {
    StuckIsOwned(s, t);
    hide Inv, Live, Elements;
  }

  /** What a thread asks for or holds, it refers to. */
  lemma AskedIsReferred(s: State, t: nat, e: nat)
    ensures AsksFor(s, t) == Some(e) ==> t in s.threads && e in Refs(s.threads[t].phase)
  {
    if t in s.threads && s.threads[t].phase.LocksAcquire? {
      var es, k := s.threads[t].phase.entities, s.threads[t].phase.next;
      assert k < |es| ==> Prefix(es, k + 1)[k] == es[k];
    }
  }

  lemma HeldIsReferred(s: State, t: nat, e: nat)
    ensures Holds(s, t, e) ==> e in Refs(s.threads[t].phase)
  {
    if t in s.threads && s.threads[t].phase.LocksAcquire? {
      var es, k := s.threads[t].phase.entities, s.threads[t].phase.next;
      assert forall x :: x in Prefix(es, k) ==> x in Prefix(es, k + 1);
    }
  }

  /** A thread that is alone finds the semaphore free, unless it is stuck. */
  lemma AloneGoesOn(s: State, w: Switching, t: nat)
    requires Inv(s) && IsAcquiring(s, t) && Alone(s, t) && !Stuck(s, t) && !w.Always?
    ensures GoesOn(s, w, t)
  {
    var p := s.threads[t].phase;
    assert Acquiring(s, t, s.threads[t].endpoint);
    var e := p.entities[p.next];
    assert Holding(p) == p.entities[..p.next];
    if e in s.owner {
      assert Holds(s, s.owner[e], e);
      HeldIsReferred(s, s.owner[e], e);
    }
    assert AsksFor(s, t) == Some(e);
    forall u: nat | u != t ensures AsksFor(s, u) != AsksFor(s, t) {
      AskedIsReferred(s, u, e);
    }
  }

  lemma AloneStays(s: State, limits: Limits, a: Action, t: nat)
    requires Alone(s, t) && a.Acquire? && a.thread == t && !Next(s, limits, a).Disabled?
    ensures Alone(Next(s, limits, a).state, t)
  {
    hide Live, Elements, Refs;
  }

  lemma OthersStay(s: State, limits: Limits, a: Action, u: nat)
    requires !Next(s, limits, a).Disabled?
    ensures var s' := Next(s, limits, a).state;
            u != a.thread && u in s'.threads ==> u in s.threads && s'.threads[u] == s.threads[u]
  {
    hide Live, Elements, Refs;
  }

  lemma NotLive(s: State, u: nat, e: nat)
    requires Live(s) == {} && u in s.threads
    ensures e !in Refs(s.threads[u].phase)
  {
    assert e in Refs(s.threads[u].phase) ==> e in Live(s);
  }

  /** Whoever passes the gate while no semaphore is live is alone. */
  lemma FirstIsAlone(s: State, limits: Limits, t: nat)
    requires Live(s) == {} && !Next(s, limits, TestGate(t)).Disabled?
    ensures Alone(Next(s, limits, TestGate(t)).state, t)
  {
    var s' := Next(s, limits, TestGate(t)).state;
    forall u: nat, e: nat | u in s'.threads && e in Refs(s'.threads[u].phase) ensures u == t {
      OthersStay(s, limits, TestGate(t), u);
      if u in s.threads {
        NotLive(s, u, e);
      }
    }
  }

  lemma SizedKeeps(s: State, limits: Limits, w: Switching, last: Option<nat>, a: Action, t: nat)
    requires Inv(s) && AllSized(s, limits, w, last) && Allowed(s, w, last, a) && !Next(s, limits, a).Disabled?
    requires IsAcquiring(Next(s, limits, a).state, t)
    ensures Sized(Next(s, limits, a).state, limits, w, Some(a.thread), t)
  {
    StepAcquirers(s, limits, a, t);
    hide Next, Inv, Live, Alone, Stuck, GoesOn;
    if !IsAcquiring(s, t) {
      if |Live(s)| == 0 {
        FirstIsAlone(s, limits, t);
      }
    } else if Stuck(s, t) {
      StuckStays(s, limits, a, t);
    } else if last == Some(t) && Alone(s, t) && !w.Always? {
      AloneGoesOn(s, w, t);
      AloneStays(s, limits, a, t);
    }
  }

  /** What holds between two steps of a run. */
  ghost predicate RunInv(s: State, limits: Limits, w: Switching, last: Option<nat>, endpoints: set<nat>) {
    Inv(s) && AllSized(s, limits, w, last) && AllWithin(s, endpoints)
  }

  lemma RunInvKeeps(s: State, limits: Limits, w: Switching, last: Option<nat>, a: Action, endpoints: set<nat>)
    requires RunInv(s, limits, w, last, endpoints) && OnEndpoints([a], endpoints)
    requires Allowed(s, w, last, a) && !Next(s, limits, a).Disabled?
    ensures RunInv(Next(s, limits, a).state, limits, w, Some(a.thread), endpoints)
  {
    hide Next, Inv, AllWithin, OnEndpoints, Allowed, Sized;
    NextKeeps(s, limits, a);
    WithinKeeps(s, limits, a, endpoints);
    forall t | IsAcquiring(Next(s, limits, a).state, t)
      ensures Sized(Next(s, limits, a).state, limits, w, Some(a.thread), t)
    {
      SizedKeeps(s, limits, w, last, a, t);
    }
  }

  lemma {:induction false} RunKeeps(s: State, limits: Limits, w: Switching, last: Option<nat>, actions: seq<Action>,
                                    endpoints: set<nat>)
    requires RunInv(s, limits, w, last, endpoints) && OnEndpoints(actions, endpoints)
    requires Run(s, limits, w, last, actions).Some?
    ensures RunInv(Run(s, limits, w, last, actions).value, limits, w, None, endpoints)
    decreases |actions|
  {
    if actions == [] {
      SettledSized(s, limits, w, last, endpoints);
    } else {
      hide RunInv, Next, Allowed;
      RunInvKeeps(s, limits, w, last, actions[0], endpoints);
      RunKeeps(Next(s, limits, actions[0]).state, limits, w, Some(actions[0].thread), actions[1..], endpoints);
    }
  }

  /** At the end of a run nobody is about to go on. */
  lemma SettledSized(s: State, limits: Limits, w: Switching, last: Option<nat>, endpoints: set<nat>)
    requires RunInv(s, limits, w, last, endpoints) && !Busy(s, w, last)
    ensures RunInv(s, limits, w, None, endpoints)
  {
    hide Inv, AllWithin, Stuck, Alone, GoesOn;
    forall t: nat | IsAcquiring(s, t) ensures Sized(s, limits, w, None, t) {
      assert Sized(s, limits, w, last, t);
      if last == Some(t) && Alone(s, t) && !Stuck(s, t) && !w.Always? {
        AloneGoesOn(s, w, t);
      }
    }
  }

  // ---- steps of particular runs ----

  lemma RunMoves(s: State, s': State, limits: Limits, w: Switching, last: Option<nat>, actions: seq<Action>)
    requires actions != [] && Allowed(s, w, last, actions[0])
    requires Next(s, limits, actions[0]).Moved? && Next(s, limits, actions[0]).state == s'
    ensures Run(s, limits, w, last, actions) == Run(s', limits, w, Some(actions[0].thread), actions[1..])
  {
  }

  lemma RunEnds(s: State, limits: Limits, w: Switching, last: Option<nat>)
    requires !Busy(s, w, last)
    ensures Run(s, limits, w, last, []) == Some(s)
  {
  }

  /** Live semaphores are among the given ones. */
  ghost predicate LiveIn(s: State, few: set<nat>) {
    forall t, e :: t in s.threads && e in Refs(s.threads[t].phase) ==> e in few
  }

  lemma LiveInSize(s: State, few: set<nat>)
    requires LiveIn(s, few)
    ensures Live(s) <= few && |Live(s)| <= |few|
  {
    assert Live(s) <= few;
    SubsetSize(Live(s), few);
  }

  lemma CallsLocks(s: State, limits: Limits, t: nat, ep: nat, es: seq<nat>)
    requires t !in s.threads
    ensures Next(s, limits, CallLocks(t, ep, es, 5.0)).Moved?
    ensures Next(s, limits, CallLocks(t, ep, es, 5.0)).state
         == s.(threads := s.threads[t := Use(ep, LocksGate(es, 5.0))])
  {
  }

  /** A caller of locks closes the open gate of its endpoint and asks for its first semaphore. */
  lemma GateCloses(s: State, limits: Limits, t: nat, ep: nat, es: seq<nat>, few: set<nat>)
    requires t in s.threads && s.threads[t] == Use(ep, LocksGate(es, 5.0)) && ep !in s.frozen
    requires es != [] && LiveIn(s, few) && |es| + |few| <= limits(ep)
    ensures Next(s, limits, TestGate(t)).Moved?
    ensures Next(s, limits, TestGate(t)).state
         == State(s.frozen[ep := t], s.owner, s.threads[t := Use(ep, LocksAcquire(es, 0, 5.0))])
  {
    LiveInSize(s, few);
  }

  /** It takes a free semaphore and asks for the next one. */
  lemma TakesNext(s: State, limits: Limits, t: nat, ep: nat, es: seq<nat>, k: nat)
    requires t in s.threads && s.threads[t] == Use(ep, LocksAcquire(es, k, 5.0))
    requires k + 1 < |es| && es[k] !in s.owner
    ensures Next(s, limits, Acquire(t, 0.0)).Moved?
    ensures Next(s, limits, Acquire(t, 0.0)).state
         == State(s.frozen, s.owner[es[k] := t], s.threads[t := Use(ep, LocksAcquire(es, k + 1, 5.0))])
  {
  }

  /** Thread t calls locks and passes its gate. */
  lemma PassesGate(s: State, limits: Limits, w: Switching, last: Option<nat>, t: nat, ep: nat, es: seq<nat>,
                   few: set<nat>, run: seq<Action>)
    returns (s': State)
    requires t !in s.threads && ep !in s.frozen && LiveIn(s, few) && es != [] && |es| + |few| <= limits(ep)
    requires |run| >= 2 && run[0] == CallLocks(t, ep, es, 5.0) && run[1] == TestGate(t) && !Busy(s, w, last)
    ensures Run(s, limits, w, last, run) == Run(s', limits, w, Some(t), run[2..])
    ensures s' == State(s.frozen[ep := t], s.owner, s.threads[t := Use(ep, LocksAcquire(es, 0, 5.0))])
  {
    CallsLocks(s, limits, t, ep, es);
    var s1 := s.(threads := s.threads[t := Use(ep, LocksGate(es, 5.0))]);
    assert !Busy(s1, w, Some(t));
    hide Next, Run, Busy;
    RunMoves(s, s1, limits, w, last, run);
    GateCloses(s1, limits, t, ep, es, few);
    s' := State(s.frozen[ep := t], s.owner, s.threads[t := Use(ep, LocksAcquire(es, 0, 5.0))]);
    assert s1.threads[t := Use(ep, LocksAcquire(es, 0, 5.0))] == s'.threads;
    RunMoves(s1, s', limits, w, Some(t), run[1..]);
    assert run[1..][1..] == run[2..];
  }

  /** Thread t calls lock and passes its gate. */
  lemma LockPasses(s: State, limits: Limits, w: Switching, last: Option<nat>, t: nat, ep: nat, e: nat,
                   few: set<nat>, run: seq<Action>)
    returns (s': State)
    requires t !in s.threads && ep !in s.frozen && LiveIn(s, few) && |few| < limits(ep)
    requires |run| >= 2 && run[0] == CallLock(t, ep, e, 3.0) && run[1] == TestGate(t) && !Busy(s, w, last)
    ensures Run(s, limits, w, last, run) == Run(s', limits, w, Some(t), run[2..])
    ensures s' == s.(threads := s.threads[t := Use(ep, LockWait(e))])
  {
    var s1 := s.(threads := s.threads[t := Use(ep, LockGate(e, 3.0))]);
    assert !Busy(s1, w, Some(t));
    hide Busy;
    RunMoves(s, s1, limits, w, last, run);
    LiveInSize(s1, few);
    s' := s.(threads := s.threads[t := Use(ep, LockWait(e))]);
    assert s1.threads[t := Use(ep, LockWait(e))] == s'.threads;
    hide Live, Run;
    RunMoves(s1, s', limits, w, Some(t), run[1..]);
    assert run[1..][1..] == run[2..];
  }

  /** Thread t has taken entity 0 with lock. */
  function FirstHeld(t: nat, ep: nat): State {
    State(map[], map[0 := t], map[t := Use(ep, LockHeld(0))])
  }

  lemma TakesFirst(limits: Limits, w: Switching, t: nat, ep: nat, run: seq<Action>)
    requires limits(ep) >= 1 && |run| >= 3
    requires run[0] == CallLock(t, ep, 0, 3.0) && run[1] == TestGate(t) && run[2] == Acquire(t, 0.0)
    ensures Run(INIT, limits, w, None, run) == Run(FirstHeld(t, ep), limits, w, Some(t), run[3..])
    ensures !Busy(FirstHeld(t, ep), w, Some(t)) && LiveIn(FirstHeld(t, ep), {0})
  {
    var s2 := LockPasses(INIT, limits, w, None, t, ep, 0, {}, run);
    hide Run, Busy;
    assert run[2..][0] == run[2];
    assert s2.threads[t := Use(ep, LockHeld(0))] == map[t := Use(ep, LockHeld(0))];
    RunMoves(s2, FirstHeld(t, ep), limits, w, Some(t), run[2..]);
    assert run[2..][1..] == run[3..];
  }
}
