/**
 * What the gate and the limit of the entity locks are worth when several endpoints
 * share the semaphores (lock and locks of RpcAgentEndpointBase in
 * goperation/manager/rpc/agent/base.py), over the runs of EndpointRuns.
 */
module EndpointLimits {
  import opened Wrappers
  import opened NatSets
  import opened EntityLocks
  import opened EndpointRuns

  // ---- deadlock ----

  /**
   * Every acquiring thread found room for its entities; and of two of
   * them, one found room for one more, as the other was acquiring already.
   */
  ghost predicate Paired(s: State, limits: Limits) {
    && (forall t :: IsAcquiring(s, t) ==> |Asked(s, t)| <= limits(s.threads[t].endpoint))
    && (forall t, u :: IsAcquiring(s, t) && IsAcquiring(s, u) && t != u ==>
          |Asked(s, t)| < limits(s.threads[t].endpoint) || |Asked(s, u)| < limits(s.threads[u].endpoint))
  }

  lemma PairedKeeps(s: State, limits: Limits, a: Action)
    requires Inv(s) && Paired(s, limits) && !Next(s, limits, a).Disabled?
    ensures Paired(Next(s, limits, a).state, limits)
  {
    var s' := Next(s, limits, a).state;
    forall t | IsAcquiring(s', t) ensures |Asked(s', t)| <= limits(s'.threads[t].endpoint) {
      StepAcquirers(s, limits, a, t);
    }
    forall t, u | IsAcquiring(s', t) && IsAcquiring(s', u) && t != u
      ensures |Asked(s', t)| < limits(s'.threads[t].endpoint) || |Asked(s', u)| < limits(s'.threads[u].endpoint)
    {
      StepAcquirers(s, limits, a, t);
      StepAcquirers(s, limits, a, u);
      hide Next, Inv, Live;
      if !IsAcquiring(s, t) {
        AcquirerIsLive(s, u);
      } else if !IsAcquiring(s, u) {
        AcquirerIsLive(s, t);
      }
    }
  }

  lemma {:induction false} ExecPaired(s: State, limits: Limits, actions: seq<Action>, endpoints: set<nat>)
    requires Inv(s) && Paired(s, limits) && AllWithin(s, endpoints)
    requires OnEndpoints(actions, endpoints) && Exec(s, limits, actions).Some?
    ensures Paired(Exec(s, limits, actions).value, limits) && AllWithin(Exec(s, limits, actions).value, endpoints)
    decreases |actions|
  {
    if actions != [] {
      var a := actions[0];
      hide Inv, Paired, Next, AllWithin;
      NextKeeps(s, limits, a);
      PairedKeeps(s, limits, a);
      WithinKeeps(s, limits, a, endpoints);
      ExecPaired(Next(s, limits, a).state, limits, actions[1..], endpoints);
    }
  }

  /** Every thread of the path waits for the next one, and the last one is the first. */
  ghost predicate IsCycle(s: State, path: seq<nat>) {
    |path| >= 2 && path[0] == path[|path| - 1] && forall i | 0 <= i < |path| :: WaitsForNext(s, path, i)
  }

  /** A thread that waits and is waited for is in the loop of locks, with at least two entities. */
  lemma WaitedForAndWaits(s: State, a: nat, b: nat, c: nat)
    requires Inv(s) && WaitsFor(s, c, a) && WaitsFor(s, a, b)
    ensures IsAcquiring(s, a) && |Asked(s, a)| >= 2
  {
    var p := s.threads[c].phase;
    var e := if p.LockWait? then p.entity else p.entities[p.next];
    assert Holds(s, a, e);
  }

  /** Two threads of a cycle acquire on different endpoints. */
  lemma CycleAcquirers(s: State, path: seq<nat>)
    requires Inv(s) && Distinct(s) && IsCycle(s, path)
    ensures |path| >= 3 && path[0] != path[1]
    ensures IsAcquiring(s, path[0]) && |Asked(s, path[0])| >= 2
    ensures IsAcquiring(s, path[1]) && |Asked(s, path[1])| >= 2
    ensures s.threads[path[0]].endpoint != s.threads[path[1]].endpoint
  {
    var n := |path|;
    assert WaitsForNext(s, path, 0) && WaitsForNext(s, path, n - 2);
    NoSelfWait(s, path[0]);
    assert WaitsForNext(s, path, 1);
    WaitedForAndWaits(s, path[0], path[1], path[n - 2]);
    WaitedForAndWaits(s, path[1], path[2], path[0]);
    var ep := s.threads[path[0]].endpoint;
    assert Acquiring(s, path[0], ep);
    var ep' := s.threads[path[1]].endpoint;
    assert Acquiring(s, path[1], ep');
    assert s.frozen[ep] == path[0] && s.frozen[ep'] == path[1];
  }

  /** Some run of calls on these endpoints, for distinct entities, closes a cycle of waiting threads. */
  ghost predicate CanDeadlock(endpoints: set<nat>, limits: Limits, w: Switching) {
    exists actions, path :: Deadlocks(endpoints, limits, w, actions, path)
  }

  ghost predicate Deadlocks(endpoints: set<nat>, limits: Limits, w: Switching, actions: seq<Action>, path: seq<nat>) {
    && OnEndpoints(actions, endpoints) && DistinctCalls(actions)
    && Run(INIT, limits, w, None, actions).Some?
    && IsCycle(Run(INIT, limits, w, None, actions).value, path)
  }

  /** Two endpoints let three entities pass; if every acquisition may switch, two do for one of them. */
  ghost predicate RoomForTwo(limits: Limits, w: Switching, p: nat, q: nat) {
    p != q && limits(p) >= 2 + Slack(w) && limits(q) >= 3
  }

  lemma StartInv(limits: Limits, w: Switching, endpoints: set<nat>)
    ensures RunInv(INIT, limits, w, None, endpoints)
  {
  }

  /** A thread that asked for distinct entities and waits has left room for one more. */
  lemma WaitsWithRoom(s: State, limits: Limits, w: Switching, endpoints: set<nat>, t: nat)
    requires RunInv(s, limits, w, None, endpoints) && Distinct(s) && IsAcquiring(s, t)
    ensures |Asked(s, t)| + Slack(w) <= limits(s.threads[t].endpoint)
  {
    hide Inv, AllWithin, Alone;
    assert Sized(s, limits, w, None, t);
    assert NoDuplicates(Requested(s.threads[t].phase));
  }

  lemma DeadlockNeedsRoom(endpoints: set<nat>, limits: Limits, w: Switching, actions: seq<Action>, path: seq<nat>)
    requires Deadlocks(endpoints, limits, w, actions, path)
    ensures exists p, q :: p in endpoints && q in endpoints && RoomForTwo(limits, w, p, q)
  {
    hide Exec, Run;
    var s := Run(INIT, limits, w, None, actions).value;
    RunIsExec(INIT, limits, w, None, actions);
    StartInv(limits, w, endpoints);
    RunKeeps(INIT, limits, w, None, actions, endpoints);
    ExecDistinct(INIT, limits, actions);
    ExecPaired(INIT, limits, actions, endpoints);
    CycleAcquirers(s, path);
    var t, u := path[0], path[1];
    var p, q := s.threads[t].endpoint, s.threads[u].endpoint;
    WaitsWithRoom(s, limits, w, endpoints, t);
    WaitsWithRoom(s, limits, w, endpoints, u);
    assert RoomForTwo(limits, w, p, q) || RoomForTwo(limits, w, q, p);
  }

  /** Two endpoints ask for the same two entities in opposite orders, and both pass their gates. */
  function CrossedCalls(p: nat, q: nat): seq<Action> {
    [CallLocks(0, p, [0, 1], 5.0), TestGate(0), CallLocks(1, q, [1, 0], 5.0), TestGate(1),
     Acquire(0, 0.0), Acquire(1, 0.0)]
  }

  /** Both have passed their gates. */
  function CrossedGates(p: nat, q: nat): State {
    State(map[p := 0, q := 1], map[],
          map[0 := Use(p, LocksAcquire([0, 1], 0, 5.0)), 1 := Use(q, LocksAcquire([1, 0], 0, 5.0))])
  }

  lemma CrossedFirst(p: nat, q: nat, limits: Limits)
    requires p != q && limits(p) >= 2 && limits(q) >= 3
    ensures Run(INIT, limits, Always, None, CrossedCalls(p, q))
         == Run(CrossedGates(p, q), limits, Always, Some(1), CrossedCalls(p, q)[4..])
  {
    hide Run;
    var calls := CrossedCalls(p, q);
    var s2 := PassesGate(INIT, limits, Always, None, 0, p, [0, 1], {}, calls);
    assert LiveIn(s2, {0});
    var s4 := PassesGate(s2, limits, Always, Some(0), 1, q, [1, 0], {0}, calls[2..]);
    assert s4 == CrossedGates(p, q) && calls[2..][2..] == calls[4..];
  }

  lemma CrossedSecond(p: nat, q: nat, limits: Limits) returns (s: State)
    requires p != q
    ensures Run(CrossedGates(p, q), limits, Always, Some(1), CrossedCalls(p, q)[4..]) == Some(s)
    ensures IsCycle(s, [0, 1, 0])
  {
    hide Next, Run;
    var calls, s4 := CrossedCalls(p, q), CrossedGates(p, q);
    TakesNext(s4, limits, 0, p, [0, 1], 0);
    var s5 := State(s4.frozen, s4.owner[0 := 0], s4.threads[0 := Use(p, LocksAcquire([0, 1], 1, 5.0))]);
    RunMoves(s4, s5, limits, Always, Some(1), calls[4..]);
    TakesNext(s5, limits, 1, q, [1, 0], 0);
    s := State(s5.frozen, s5.owner[1 := 1], s5.threads[1 := Use(q, LocksAcquire([1, 0], 1, 5.0))]);
    RunMoves(s5, s, limits, Always, Some(0), calls[5..]);
    assert calls[4..][1..] == calls[5..] && calls[5..][1..] == [];
    RunEnds(s, limits, Always, Some(1));
    assert WaitsFor(s, 0, 1) && WaitsFor(s, 1, 0);
  }

  /**
   * The first call of locks waits for an entity that is locked; when
   * that is released, it goes on to wait for the second call.
   */
  function WokenCalls(p: nat, q: nat): seq<Action> {
    [CallLock(2, p, 0, 3.0), TestGate(2), Acquire(2, 0.0), CallLocks(0, p, [0, 1], 5.0), TestGate(0),
     CallLocks(1, q, [1, 0], 5.0), TestGate(1), Acquire(1, 0.0), Release(2), Acquire(0, 0.0)]
  }

  function WokenGates(p: nat, q: nat): State {
    State(map[p := 0, q := 1], map[0 := 2],
          map[0 := Use(p, LocksAcquire([0, 1], 0, 5.0)), 1 := Use(q, LocksAcquire([1, 0], 0, 5.0)),
              2 := Use(p, LockHeld(0))])
  }

  lemma WokenFirst(p: nat, q: nat, limits: Limits, w: Switching)
    requires p != q && limits(p) >= 3 && limits(q) >= 3
    ensures Run(INIT, limits, w, None, WokenCalls(p, q))
         == Run(WokenGates(p, q), limits, w, Some(1), WokenCalls(p, q)[7..])
  {
    var calls := WokenCalls(p, q);
    TakesFirst(limits, w, 2, p, calls);
    WokenPasses(p, q, limits, w, calls[3..]);
    hide Run;
    assert calls[3..][4..] == calls[7..];
  }

  lemma WokenPasses(p: nat, q: nat, limits: Limits, w: Switching, run: seq<Action>)
    requires p != q && limits(p) >= 3 && limits(q) >= 3 && |run| >= 4
    requires run[0] == CallLocks(0, p, [0, 1], 5.0) && run[1] == TestGate(0)
    requires run[2] == CallLocks(1, q, [1, 0], 5.0) && run[3] == TestGate(1)
    ensures Run(FirstHeld(2, p), limits, w, Some(2), run) == Run(WokenGates(p, q), limits, w, Some(1), run[4..])
  {
    hide Run;
    var s5 := PassesGate(FirstHeld(2, p), limits, w, Some(2), 0, p, [0, 1], {0}, run);
    assert LiveIn(s5, {0}) && !Busy(s5, w, Some(0));
    var s7 := PassesGate(s5, limits, w, Some(0), 1, q, [1, 0], {0}, run[2..]);
    assert s7 == WokenGates(p, q) && run[2..][2..] == run[4..];
  }

  /** The second call has taken entity 1 and waits for entity 0. */
  function WokenTaken(p: nat, q: nat): State {
    State(map[p := 0, q := 1], map[0 := 2, 1 := 1],
          map[0 := Use(p, LocksAcquire([0, 1], 0, 5.0)), 1 := Use(q, LocksAcquire([1, 0], 1, 5.0)),
              2 := Use(p, LockHeld(0))])
  }

  function WokenFreed(p: nat, q: nat): State {
    State(map[p := 0, q := 1], map[1 := 1],
          map[0 := Use(p, LocksAcquire([0, 1], 0, 5.0)), 1 := Use(q, LocksAcquire([1, 0], 1, 5.0))])
  }

  function WokenCycle(p: nat, q: nat): State {
    State(map[p := 0, q := 1], map[0 := 0, 1 := 1],
          map[0 := Use(p, LocksAcquire([0, 1], 1, 5.0)), 1 := Use(q, LocksAcquire([1, 0], 1, 5.0))])
  }

  lemma WokenTakes(p: nat, q: nat, limits: Limits, w: Switching)
    requires p != q
    ensures Next(WokenGates(p, q), limits, Acquire(1, 0.0)).Moved?
    ensures Next(WokenGates(p, q), limits, Acquire(1, 0.0)).state == WokenTaken(p, q)
    ensures !Busy(WokenTaken(p, q), w, Some(1))
  {
    TakesNext(WokenGates(p, q), limits, 1, q, [1, 0], 0);
    hide Next;
  }

  lemma WokenReleases(p: nat, q: nat, limits: Limits, w: Switching)
    requires p != q
    ensures Next(WokenTaken(p, q), limits, Release(2)).Moved?
    ensures Next(WokenTaken(p, q), limits, Release(2)).state == WokenFreed(p, q)
    ensures !Busy(WokenFreed(p, q), w, Some(2))
  {
    Releases(WokenTaken(p, q), limits, 2);
    hide Next;
    assert map[0 := 2, 1 := 1] - Elements([0]) == map[1 := 1];
  }

  lemma WokenCloses(p: nat, q: nat, limits: Limits, w: Switching)
    requires p != q
    ensures Next(WokenFreed(p, q), limits, Acquire(0, 0.0)).Moved?
    ensures Next(WokenFreed(p, q), limits, Acquire(0, 0.0)).state == WokenCycle(p, q)
    ensures !Busy(WokenCycle(p, q), w, Some(0)) && IsCycle(WokenCycle(p, q), [0, 1, 0])
  {
    TakesNext(WokenFreed(p, q), limits, 0, p, [0, 1], 0);
    hide Next;
    assert WaitsFor(WokenCycle(p, q), 0, 1) && WaitsFor(WokenCycle(p, q), 1, 0);
  }

  lemma WokenSecond(p: nat, q: nat, limits: Limits, w: Switching)
    requires p != q
    ensures Run(WokenGates(p, q), limits, w, Some(1), WokenCalls(p, q)[7..]) == Some(WokenCycle(p, q))
  {
    var calls := WokenCalls(p, q);
    assert calls[7..] == [Acquire(1, 0.0), Release(2), Acquire(0, 0.0)];
    WokenTakes(p, q, limits, w);
    WokenReleases(p, q, limits, w);
    WokenCloses(p, q, limits, w);
    hide Next, Run, Busy, WokenCalls, WokenGates, WokenTaken, WokenFreed, WokenCycle, IsCycle;
    RunMoves(WokenGates(p, q), WokenTaken(p, q), limits, w, Some(1), calls[7..]);
    RunMoves(WokenTaken(p, q), WokenFreed(p, q), limits, w, Some(1), calls[7..][1..]);
    RunMoves(WokenFreed(p, q), WokenCycle(p, q), limits, w, Some(2), calls[7..][2..]);
    assert calls[7..][1..][1..] == calls[7..][2..] && calls[7..][2..][1..] == [];
    RunEnds(WokenCycle(p, q), limits, w, Some(0));
  }

  lemma Releases(s: State, limits: Limits, t: nat)
    requires t in s.threads && (s.threads[t].phase.LockHeld? || s.threads[t].phase.LocksHeld?)
    ensures Next(s, limits, Release(t)).Moved? && Next(s, limits, Release(t)).state == Leave(s, t)
  {
  }

  /**
   * The gate rules out deadlock, of any number of threads, exactly unless two different endpoints with limits of at
   * least 3 are in use; a limit of 2 does for one of them if the acquisition of a free semaphore may
   * always switch.  The gate does not reach across endpoints, but the semaphores do.
   */
  lemma GateGuardsOneEndpoint(endpoints: set<nat>, limits: Limits, w: Switching)
    ensures CanDeadlock(endpoints, limits, w) <==>
              exists p, q :: p in endpoints && q in endpoints && RoomForTwo(limits, w, p, q)
  {
    if actions, path :| Deadlocks(endpoints, limits, w, actions, path) {
      DeadlockNeedsRoom(endpoints, limits, w, actions, path);
    }
    if p, q :| p in endpoints && q in endpoints && RoomForTwo(limits, w, p, q) {
      if w.Always? {
        CrossedDeadlock(endpoints, limits, p, q);
      } else {
        WokenDeadlock(endpoints, limits, w, p, q);
      }
    }
  }

  lemma CrossedDeadlock(endpoints: set<nat>, limits: Limits, p: nat, q: nat)
    requires p in endpoints && q in endpoints && p != q && limits(p) >= 2 && limits(q) >= 3
    ensures Deadlocks(endpoints, limits, Always, CrossedCalls(p, q), [0, 1, 0])
  {
    CrossedFirst(p, q, limits);
    hide Run;
    var s := CrossedSecond(p, q, limits);
  }

  lemma WokenOn(endpoints: set<nat>, p: nat, q: nat)
    requires p in endpoints && q in endpoints
    ensures OnEndpoints(WokenCalls(p, q), endpoints) && DistinctCalls(WokenCalls(p, q))
  {
    assert NoDuplicates([0, 1]) && NoDuplicates([1, 0]);
    hide NoDuplicates;
  }

  lemma WokenDeadlock(endpoints: set<nat>, limits: Limits, w: Switching, p: nat, q: nat)
    requires p in endpoints && q in endpoints && p != q && limits(p) >= 3 && limits(q) >= 3
    ensures Deadlocks(endpoints, limits, w, WokenCalls(p, q), [0, 1, 0])
  {
    WokenFirst(p, q, limits, w);
    WokenSecond(p, q, limits, w);
    WokenCloses(p, q, limits, w);
    WokenOn(endpoints, p, q);
    hide Run, WokenCalls, WokenCycle, IsCycle, OnEndpoints, DistinctCalls;
  }

  // ---- the limit ----

  /** The semaphores a step may newly refer to. */
  ghost function Newly(s: State, limits: Limits, a: Action): set<nat> {
    if a.thread !in s.threads then {}
    else
      var use := s.threads[a.thread];
      if a.TestGate? && use.phase.LockGate? && use.endpoint !in s.frozen && |Live(s)| < limits(use.endpoint) then
        {use.phase.entity}
      else if a.TestGate? && Admits(s, limits, a.thread) then Elements(use.phase.entities)
      else if a.Acquire? && use.phase.LocksAcquire? then Elements(use.phase.entities)
      else {}
  }

  lemma StepRefs(s: State, limits: Limits, a: Action, t: nat, e: nat)
    requires !Next(s, limits, a).Disabled?
    requires t in Next(s, limits, a).state.threads && e in Refs(Next(s, limits, a).state.threads[t].phase)
    ensures e in Newly(s, limits, a) || (t in s.threads && e in Refs(s.threads[t].phase))
  {
    hide Live;
  }

  lemma StepLive(s: State, limits: Limits, a: Action)
    requires !Next(s, limits, a).Disabled?
    ensures Live(Next(s, limits, a).state) <= Live(s) + Newly(s, limits, a)
  {
    hide Newly, Next;
    var s' := Next(s, limits, a).state;
    forall t, e | t in s'.threads && e in Refs(s'.threads[t].phase) ensures e in Live(s) + Newly(s, limits, a) {
      StepRefs(s, limits, a, t, e);
    }
  }

  /** At most one endpoint in use has a limit of 3 or more; of 2 or more, if every acquisition may switch. */
  ghost predicate OneRoomy(endpoints: set<nat>, limits: Limits, w: Switching) {
    forall p, q :: p in endpoints && q in endpoints && p != q ==> limits(p) < 2 + Slack(w) || limits(q) < 2 + Slack(w)
  }

  ghost predicate Bounds(endpoints: set<nat>, limits: Limits, most: nat) {
    forall p :: p in endpoints ==> limits(p) <= most
  }

  /** The entities of an acquiring thread are reserved. */
  ghost predicate Reserved(s: State, t: nat, most: nat)
    requires IsAcquiring(s, t)
  {
    |Live(s) + Elements(Asked(s, t))| <= most
  }

  ghost predicate WithinLimit(s: State, most: nat) {
    |Live(s)| <= most && forall t :: IsAcquiring(s, t) && !Stuck(s, t) ==> Reserved(s, t, most)
  }

  /** An acquiring thread with one entity refers to it already. */
  lemma SmallIsLive(s: State, t: nat)
    requires Inv(s) && IsAcquiring(s, t) && |Asked(s, t)| <= 1
    ensures Elements(Asked(s, t)) <= Live(s)
  {
    AcquirerIsLive(s, t);
    assert Asked(s, t) == [Asked(s, t)[0]];
  }

  /** If one semaphore is live, an acquiring thread has asked for it. */
  lemma SingleIsAsked(s: State, t: nat)
    requires Inv(s) && IsAcquiring(s, t) && |Live(s)| == 1
    ensures Live(s) <= Elements(Asked(s, t))
  {
    AcquirerIsLive(s, t);
    var e := Asked(s, t)[s.threads[t].phase.next];
    hide Live, Inv;
    SingleIs(Live(s), e);
  }

  lemma SingleIs(a: set<nat>, e: nat)
    requires |a| == 1 && e in a
    ensures a == {e}
  {
    assert |a - {e}| == 0;
    assert a == (a - {e}) + {e};
  }

  /** Another acquiring thread has the gate of its own endpoint. */
  lemma OtherEndpoint(s: State, t: nat, u: nat)
    requires Inv(s) && IsAcquiring(s, u) && t in s.threads
    requires s.threads[t].endpoint !in s.frozen || (IsAcquiring(s, t) && t != u)
    ensures s.threads[u].endpoint != s.threads[t].endpoint
  {
    var ep := s.threads[u].endpoint;
    assert Acquiring(s, u, ep);
    assert s.frozen[ep] == u;
    assert IsAcquiring(s, t) ==> Acquiring(s, t, s.threads[t].endpoint);
  }

  /** A thread that is not the one to go on has left room for one more semaphore. */
  lemma HasRoom(s: State, limits: Limits, w: Switching, last: Option<nat>, a: Action, endpoints: set<nat>, u: nat)
    requires RunInv(s, limits, w, last, endpoints) && Allowed(s, w, last, a) && !(a.Acquire? && a.thread == u)
    requires IsAcquiring(s, u) && !Stuck(s, u)
    ensures |Asked(s, u)| + Slack(w) <= limits(s.threads[u].endpoint)
  {
    hide Inv, AllWithin, Stuck, Alone, GoesOn;
    assert Sized(s, limits, w, last, u);
    if last == Some(u) && Alone(s, u) && !w.Always? {
      AloneGoesOn(s, w, u);
    }
  }

  /** Beside another acquiring thread nobody is alone. */
  lemma HasRoomBeside(s: State, limits: Limits, w: Switching, last: Option<nat>, endpoints: set<nat>, t: nat, u: nat)
    requires RunInv(s, limits, w, last, endpoints) && IsAcquiring(s, t) && !Stuck(s, t) && IsAcquiring(s, u) && t != u
    ensures |Asked(s, t)| + Slack(w) <= limits(s.threads[t].endpoint)
  {
    assert Sized(s, limits, w, last, t);
    hide AllWithin, Stuck;
    assert Acquiring(s, u, s.threads[u].endpoint);
    var p := s.threads[u].phase;
    assert p.entities[p.next] in Prefix(p.entities, p.next + 1);
    assert p.entities[p.next] in Refs(s.threads[u].phase);
  }

  lemma UnionWithin(a: set<nat>, b: set<nat>, c: set<nat>, most: nat)
    requires c <= a && |a| + |b| <= most
    ensures |a + b + c| <= most
  {
    assert a + b + c == a + b;
    UnionSize(a, b);
  }

  /** Whoever passes an open gate leaves what another thread has reserved as it is, or adds within the limit. */
  lemma GateReserved(s: State, limits: Limits, w: Switching, endpoints: set<nat>, most: nat, t: nat, u: nat,
                     extra: set<nat>)
    requires Inv(s) && AllWithin(s, endpoints) && OneRoomy(endpoints, limits, w) && Bounds(endpoints, limits, most)
    requires t in s.threads && s.threads[t].endpoint !in s.frozen && IsAcquiring(s, u) && Reserved(s, u, most)
    requires |Asked(s, u)| + Slack(w) <= limits(s.threads[u].endpoint)
    requires extra != {} ==> |Live(s)| + |extra| <= limits(s.threads[t].endpoint)
    ensures |Live(s) + extra + Elements(Asked(s, u))| <= most
  {
    OtherEndpoint(s, t, u);
    AcquirerIsLive(s, u);
    hide Live, Inv, Elements;
    var asked := Elements(Asked(s, u));
    assert s.threads[t].endpoint in endpoints && s.threads[u].endpoint in endpoints;
    if extra == {} {
      assert Live(s) + extra == Live(s);
    } else if |Asked(s, u)| <= 1 {
      SmallIsLive(s, u);
      UnionWithin(Live(s), extra, asked, most);
    } else {
      OneMore(s, u, extra, most - 1);
    }
  }

  lemma OneMore(s: State, u: nat, extra: set<nat>, few: nat)
    requires Inv(s) && IsAcquiring(s, u) && |Live(s)| == 1 && |extra| == 1 && |Asked(s, u)| <= few
    ensures |Live(s) + extra + Elements(Asked(s, u))| <= few + 1
  {
    SingleIsAsked(s, u);
    hide Live, Inv, Elements;
    var asked := Elements(Asked(s, u));
    FewElements(Asked(s, u));
    assert Live(s) + extra + asked == asked + extra;
    UnionSize(asked, extra);
  }

  /** So does a thread that goes on in the loop. */
  lemma LoopReserved(s: State, limits: Limits, w: Switching, last: Option<nat>, endpoints: set<nat>, most: nat,
                     a: Action, u: nat)
    requires RunInv(s, limits, w, last, endpoints) && OneRoomy(endpoints, limits, w)
    requires a.Acquire? && Allowed(s, w, last, a) && IsAcquiring(s, a.thread) && IsAcquiring(s, u)
    requires !Stuck(s, a.thread) && !Stuck(s, u) && Reserved(s, a.thread, most) && Reserved(s, u, most)
    ensures |Live(s) + Elements(Asked(s, a.thread)) + Elements(Asked(s, u))| <= most
  {
    hide Live, Elements, Inv, Stuck, Allowed;
    var t := a.thread;
    var mine, other := Elements(Asked(s, t)), Elements(Asked(s, u));
    if t == u {
      assert Live(s) + mine + other == Live(s) + mine;
    } else {
      OtherEndpoint(s, t, u);
      HasRoom(s, limits, w, last, a, endpoints, u);
      HasRoomBeside(s, limits, w, last, endpoints, t, u);
      assert s.threads[t].endpoint in endpoints && s.threads[u].endpoint in endpoints;
      if |Asked(s, u)| <= 1 {
        SmallIsLive(s, u);
        assert Live(s) + mine + other == Live(s) + mine;
      } else {
        SmallIsLive(s, t);
        assert Live(s) + mine + other == Live(s) + other;
      }
    }
  }

  /** A stuck thread takes nothing. */
  lemma AcquirerNotStuck(s: State, limits: Limits, a: Action)
    requires Inv(s) && a.Acquire? && IsAcquiring(s, a.thread) && !Next(s, limits, a).Disabled?
    ensures !Stuck(s, a.thread)
  {
    var p := s.threads[a.thread].phase;
    assert Stuck(s, a.thread) ==> Holds(s, a.thread, p.entities[p.next]);
  }

  /** What a step adds stays within the limit, together with what any acquiring thread has reserved. */
  lemma NewlyReserved(s: State, limits: Limits, w: Switching, last: Option<nat>, a: Action, endpoints: set<nat>,
                      most: nat, u: nat)
    requires RunInv(s, limits, w, last, endpoints) && OneRoomy(endpoints, limits, w) && Bounds(endpoints, limits, most)
    requires WithinLimit(s, most) && Allowed(s, w, last, a) && !Next(s, limits, a).Disabled?
    requires IsAcquiring(s, u) && !Stuck(s, u)
    ensures |Live(s) + Newly(s, limits, a) + Elements(Asked(s, u))| <= most
  {
    hide Live, Elements, Inv, Next, AllSized, Allowed, Stuck;
    var t := a.thread;
    var extra := Newly(s, limits, a);
    if t in s.threads && a.TestGate? && s.threads[t].endpoint !in s.frozen {
      if Admits(s, limits, t) {
        FewElements(s.threads[t].phase.entities);
      }
      HasRoom(s, limits, w, last, a, endpoints, u);
      GateReserved(s, limits, w, endpoints, most, t, u, extra);
    } else if a.Acquire? && IsAcquiring(s, t) {
      AcquirerNotStuck(s, limits, a);
      LoopReserved(s, limits, w, last, endpoints, most, a, u);
    } else {
      assert Live(s) + extra == Live(s);
    }
  }

  lemma NewlyWithin(s: State, limits: Limits, a: Action, endpoints: set<nat>, most: nat)
    requires Inv(s) && AllWithin(s, endpoints) && Bounds(endpoints, limits, most) && WithinLimit(s, most)
    requires !Next(s, limits, a).Disabled?
    ensures |Live(s) + Newly(s, limits, a)| <= most
  {
    hide Live, Elements, Inv, Next, Stuck;
    var t := a.thread;
    var extra := Newly(s, limits, a);
    if t in s.threads && a.TestGate? && extra != {} {
      if Admits(s, limits, t) {
        FewElements(s.threads[t].phase.entities);
      }
      UnionSize(Live(s), extra);
    } else if a.Acquire? && IsAcquiring(s, t) {
      AcquirerNotStuck(s, limits, a);
      assert Reserved(s, t, most);
    } else {
      assert Live(s) + extra == Live(s);
    }
  }

  lemma LimitKeeps(s: State, limits: Limits, w: Switching, last: Option<nat>, a: Action, endpoints: set<nat>, most: nat)
    requires RunInv(s, limits, w, last, endpoints) && OneRoomy(endpoints, limits, w) && Bounds(endpoints, limits, most)
    requires WithinLimit(s, most) && Allowed(s, w, last, a) && !Next(s, limits, a).Disabled?
    ensures WithinLimit(Next(s, limits, a).state, most)
  {
    var s', extra := Next(s, limits, a).state, Newly(s, limits, a);
    StepLive(s, limits, a);
    NewlyWithin(s, limits, a, endpoints, most);
    SubsetSize(Live(s'), Live(s) + extra);
    forall u | IsAcquiring(s', u) && !Stuck(s', u) ensures Reserved(s', u, most) {
      StepAcquirers(s, limits, a, u);
      hide Next, Live, Elements, Inv, Stuck, AllSized, Allowed, OneRoomy, Bounds;
      var asked := Elements(Asked(s', u));
      SubsetSize(Live(s') + asked, Live(s) + extra + asked);
      if IsAcquiring(s, u) {
        if Stuck(s, u) {
          StuckStays(s, limits, a, u);
        } else {
          NewlyReserved(s, limits, w, last, a, endpoints, most, u);
        }
      } else {
        assert Live(s) + extra + asked == Live(s) + extra;
      }
    }
  }

  lemma {:induction false} RunWithinLimit(s: State, limits: Limits, w: Switching, last: Option<nat>,
                                          actions: seq<Action>, endpoints: set<nat>, most: nat)
    requires RunInv(s, limits, w, last, endpoints) && OneRoomy(endpoints, limits, w) && Bounds(endpoints, limits, most)
    requires WithinLimit(s, most) && OnEndpoints(actions, endpoints) && Run(s, limits, w, last, actions).Some?
    ensures WithinLimit(Run(s, limits, w, last, actions).value, most)
    decreases |actions|
  {
    if actions != [] {
      var a := actions[0];
      hide RunInv, Next, Allowed, WithinLimit, OneRoomy, Bounds;
      RunInvKeeps(s, limits, w, last, a, endpoints);
      LimitKeeps(s, limits, w, last, a, endpoints, most);
      RunWithinLimit(Next(s, limits, a).state, limits, w, Some(a.thread), actions[1..], endpoints, most);
    }
  }

  /** If at most one endpoint in use is roomy, no run has more live semaphores than the largest limit. */
  lemma LiveWithinLimit(limits: Limits, w: Switching, actions: seq<Action>, endpoints: set<nat>, most: nat)
    requires OneRoomy(endpoints, limits, w) && Bounds(endpoints, limits, most)
    requires OnEndpoints(actions, endpoints) && Run(INIT, limits, w, None, actions).Some?
    ensures |Live(Run(INIT, limits, w, None, actions).value)| <= most
  {
    assert Live(INIT) == {};
    StartInv(limits, w, endpoints);
    RunWithinLimit(INIT, limits, w, None, actions, endpoints, most);
  }

  /** In particular, as long as one endpoint is in use live semaphores never exceed its limit. */
  lemma OneEndpointWithinLimit(limits: Limits, actions: seq<Action>, ep: nat)
    requires OnEndpoint(actions, ep) && Exec(INIT, limits, actions).Some?
    ensures |Live(Exec(INIT, limits, actions).value)| <= limits(ep)
  {
    RunIsExec(INIT, limits, Always, None, actions);
    LiveWithinLimit(limits, Always, actions, {ep}, limits(ep));
  }

  /** Some run of calls on these endpoints has more live semaphores than any of them allows. */
  ghost predicate CanExceed(endpoints: set<nat>, limits: Limits, w: Switching) {
    exists actions :: Exceeds(endpoints, limits, w, actions)
  }

  ghost predicate Exceeds(endpoints: set<nat>, limits: Limits, w: Switching, actions: seq<Action>) {
    && OnEndpoints(actions, endpoints)
    && Run(INIT, limits, w, None, actions).Some?
    && var live := |Live(Run(INIT, limits, w, None, actions).value)|;
       live > 0 && forall p :: p in endpoints ==> live > limits(p)
  }

  /** An endpoint with the largest limit. */
  lemma {:induction false} LargestLimit(endpoints: set<nat>, limits: Limits) returns (top: nat)
    requires endpoints != {}
    ensures top in endpoints && Bounds(endpoints, limits, limits(top))
    decreases |endpoints|
  {
    var p :| p in endpoints;
    var rest := endpoints - {p};
    if rest == {} {
      assert endpoints == {p};
      top := p;
    } else {
      top := LargestLimit(rest, limits);
      if limits(top) < limits(p) {
        top := p;
      }
    }
  }

  /** The numbers below n. */
  function Numbers(n: nat): (s: seq<nat>)
    ensures |s| == n && forall i :: 0 <= i < n ==> s[i] == i
  {
    seq(n, i => i)
  }

  function Acquires(n: nat): seq<Action> {
    if n == 0 then [] else [Acquire(0, 0.0)] + Acquires(n - 1)
  }

  /** A call reserves as many entities as its endpoint allows; another endpoint lets one more entity pass. */
  function CrowdedCalls(p: nat, q: nat, m: nat): seq<Action>
    requires m > 0
  {
    [CallLocks(0, q, Numbers(m), 5.0), TestGate(0), CallLock(1, p, m, 3.0), TestGate(1)] + Acquires(m - 1)
  }

  /** The first call holds its first k entities, and the second one waits for its own. */
  ghost predicate Crowded(s: State, p: nat, q: nat, m: nat, k: nat) {
    && s.threads == map[0 := Use(q, LocksAcquire(Numbers(m), k, 5.0)), 1 := Use(p, LockWait(m))]
    && forall e :: e in s.owner ==> e < k
  }

  lemma AcquiresOne(s: State, limits: Limits, p: nat, q: nat, m: nat, k: nat) returns (s': State)
    requires Crowded(s, p, q, m, k) && k + 1 < m
    ensures Next(s, limits, Acquire(0, 0.0)).Moved? && Next(s, limits, Acquire(0, 0.0)).state == s'
    ensures Crowded(s', p, q, m, k + 1)
  {
    var es := Numbers(m);
    TakesNext(s, limits, 0, q, es, k);
    hide Next;
    s' := State(s.frozen, s.owner[k := 0], s.threads[0 := Use(q, LocksAcquire(es, k + 1, 5.0))]);
  }

  lemma {:induction false} AcquiresAll(s: State, limits: Limits, last: Option<nat>, p: nat, q: nat, m: nat, k: nat)
    returns (s': State)
    requires Crowded(s, p, q, m, k) && k < m
    ensures Run(s, limits, Always, last, Acquires(m - 1 - k)) == Some(s') && Crowded(s', p, q, m, m - 1)
    decreases m - k
  {
    hide Next, Run, Crowded;
    if k == m - 1 {
      s' := s;
      RunEnds(s, limits, Always, last);
    } else {
      var run := Acquires(m - 1 - k);
      assert run[0] == Acquire(0, 0.0) && run[1..] == Acquires(m - 1 - (k + 1));
      var s1 := AcquiresOne(s, limits, p, q, m, k);
      RunMoves(s, s1, limits, Always, last, run);
      s' := AcquiresAll(s1, limits, Some(0), p, q, m, k + 1);
    }
  }

  lemma CrowdedIsLive(s: State, p: nat, q: nat, m: nat)
    requires m > 0 && Crowded(s, p, q, m, m - 1)
    ensures |Live(s)| > m
  {
    var es := Numbers(m);
    assert Refs(s.threads[0].phase) == es && Refs(s.threads[1].phase) == [m];
    forall e | e in Elements(es) + {m} ensures e in Live(s) {
      assert if e == m then e in Refs(s.threads[1].phase) else e in Refs(s.threads[0].phase);
    }
    DistinctElements(es);
    SubsetSize(Elements(es) + {m}, Live(s));
  }

  lemma CrowdedExceeds(endpoints: set<nat>, limits: Limits, p: nat, q: nat)
    requires p in endpoints && q in endpoints && p != q && limits(p) >= 2 && Bounds(endpoints, limits, limits(q))
    ensures Exceeds(endpoints, limits, Always, CrowdedCalls(p, q, limits(q)))
  {
    hide Run, Next, Live;
    var m := limits(q);
    var run, es := CrowdedCalls(p, q, m), Numbers(m);
    var s2 := PassesGate(INIT, limits, Always, None, 0, q, es, {}, run);
    assert m >= 2 && Prefix(es, 1) == [0];
    assert LiveIn(s2, {0});
    var s4 := LockPasses(s2, limits, Always, Some(0), 1, p, m, {0}, run[2..]);
    assert run[2..][2..] == Acquires(m - 1);
    var s := AcquiresAll(s4, limits, Some(1), p, q, m, 0);
    CrowdedIsLive(s, p, q, m);
    CrowdedOn(endpoints, p, q, m);
  }

  lemma CrowdedOn(endpoints: set<nat>, p: nat, q: nat, m: nat)
    requires p in endpoints && q in endpoints && m > 0
    ensures OnEndpoints(CrowdedCalls(p, q, m), endpoints)
  {
    OnlyAcquires(m - 1);
  }

  lemma {:induction false} OnlyAcquires(n: nat)
    ensures forall a :: a in Acquires(n) ==> a.Acquire?
  {
    if n > 0 {
      OnlyAcquires(n - 1);
    }
  }

  /**
   * A call waits for the first of m - 1 entities, which is locked; another endpoint takes two
   * more, and then the lock is released and the call takes all of its own.
   */
  function WaitingCalls(p: nat, q: nat, m: nat): seq<Action>
    requires m > 0
  {
    [CallLock(2, q, 0, 3.0), TestGate(2), Acquire(2, 0.0), CallLocks(0, q, Numbers(m - 1), 5.0), TestGate(0),
     CallLocks(1, p, [m - 1, m], 5.0), TestGate(1), Acquire(1, 0.0), Acquire(1, 0.0), Release(2)] + Acquires(m - 1)
  }

  function WaitingGates(p: nat, q: nat, m: nat): State
    requires m > 0
  {
    State(map[q := 0, p := 1], map[0 := 2],
          map[0 := Use(q, LocksAcquire(Numbers(m - 1), 0, 5.0)), 1 := Use(p, LocksAcquire([m - 1, m], 0, 5.0)),
              2 := Use(q, LockHeld(0))])
  }

  lemma WaitingFirst(p: nat, q: nat, limits: Limits, w: Switching, m: nat)
    requires p != q && limits(p) >= 3 && limits(q) == m >= 3
    ensures Run(INIT, limits, w, None, WaitingCalls(p, q, m))
         == Run(WaitingGates(p, q, m), limits, w, Some(1), WaitingCalls(p, q, m)[7..])
  {
    var calls := WaitingCalls(p, q, m);
    WaitingStarts(p, q, m);
    hide Run, WaitingCalls, WaitingGates;
    TakesFirst(limits, w, 2, q, calls);
    WaitingPasses(p, q, limits, w, m, calls[3..]);
    assert calls[3..][4..] == calls[7..];
  }

  lemma WaitingStarts(p: nat, q: nat, m: nat)
    requires m > 0
    ensures var calls := WaitingCalls(p, q, m);
            && |calls| >= 7
            && calls[0] == CallLock(2, q, 0, 3.0) && calls[1] == TestGate(2) && calls[2] == Acquire(2, 0.0)
            && calls[3] == CallLocks(0, q, Numbers(m - 1), 5.0) && calls[4] == TestGate(0)
            && calls[5] == CallLocks(1, p, [m - 1, m], 5.0) && calls[6] == TestGate(1)
  {
  }

  lemma WaitingPasses(p: nat, q: nat, limits: Limits, w: Switching, m: nat, run: seq<Action>)
    requires p != q && limits(p) >= 3 && limits(q) == m >= 3 && |run| >= 4
    requires run[0] == CallLocks(0, q, Numbers(m - 1), 5.0) && run[1] == TestGate(0)
    requires run[2] == CallLocks(1, p, [m - 1, m], 5.0) && run[3] == TestGate(1)
    ensures Run(FirstHeld(2, q), limits, w, Some(2), run) == Run(WaitingGates(p, q, m), limits, w, Some(1), run[4..])
  {
    hide Run;
    var es := Numbers(m - 1);
    var s5 := PassesGate(FirstHeld(2, q), limits, w, Some(2), 0, q, es, {0}, run);
    assert Prefix(es, 1) == [0];
    assert LiveIn(s5, {0}) && !Busy(s5, w, Some(0));
    var s7 := PassesGate(s5, limits, w, Some(0), 1, p, [m - 1, m], {0}, run[2..]);
    assert s7 == WaitingGates(p, q, m) && run[2..][2..] == run[4..];
  }

  /** The first call holds its first k entities, and the second one both of its own. */
  ghost predicate Served(s: State, p: nat, q: nat, m: nat, k: nat)
    requires m > 0
  {
    var es := Numbers(m - 1);
    && s.threads == map[0 := Use(q, if k < m - 1 then LocksAcquire(es, k, 5.0) else LocksHeld(es)),
                        1 := Use(p, LocksHeld([m - 1, m]))]
    && forall e :: e in s.owner ==> e < k || e >= m - 1
  }

  function WaitingTaken(p: nat, q: nat, m: nat): State
    requires m > 0
  {
    State(map[q := 0, p := 1], map[0 := 2, m - 1 := 1],
          map[0 := Use(q, LocksAcquire(Numbers(m - 1), 0, 5.0)), 1 := Use(p, LocksAcquire([m - 1, m], 1, 5.0)),
              2 := Use(q, LockHeld(0))])
  }

  function WaitingLocked(p: nat, q: nat, m: nat): State
    requires m > 0
  {
    State(map[q := 0], map[0 := 2, m - 1 := 1, m := 1],
          map[0 := Use(q, LocksAcquire(Numbers(m - 1), 0, 5.0)), 1 := Use(p, LocksHeld([m - 1, m])),
              2 := Use(q, LockHeld(0))])
  }

  function WaitingFreed(p: nat, q: nat, m: nat): State
    requires m > 0
  {
    State(map[q := 0], map[m - 1 := 1, m := 1],
          map[0 := Use(q, LocksAcquire(Numbers(m - 1), 0, 5.0)), 1 := Use(p, LocksHeld([m - 1, m]))])
  }

  lemma WaitingTakes(p: nat, q: nat, limits: Limits, m: nat)
    requires p != q && m >= 3
    ensures Next(WaitingGates(p, q, m), limits, Acquire(1, 0.0)).Moved?
    ensures Next(WaitingGates(p, q, m), limits, Acquire(1, 0.0)).state == WaitingTaken(p, q, m)
  {
    TakesNext(WaitingGates(p, q, m), limits, 1, p, [m - 1, m], 0);
    hide Next;
  }

  lemma WaitingLocks(p: nat, q: nat, limits: Limits, w: Switching, m: nat)
    requires p != q && m >= 3
    ensures Next(WaitingTaken(p, q, m), limits, Acquire(1, 0.0)).Moved?
    ensures Next(WaitingTaken(p, q, m), limits, Acquire(1, 0.0)).state == WaitingLocked(p, q, m)
    ensures !Busy(WaitingLocked(p, q, m), w, Some(1))
  {
    TakesLast(WaitingTaken(p, q, m), limits, 1, p, [m - 1, m]);
    hide Next;
    assert map[q := 0, p := 1] - {p} == map[q := 0];
  }

  lemma WaitingReleases(p: nat, q: nat, limits: Limits, m: nat)
    requires p != q && m >= 3
    ensures Next(WaitingLocked(p, q, m), limits, Release(2)).Moved?
    ensures Next(WaitingLocked(p, q, m), limits, Release(2)).state == WaitingFreed(p, q, m)
  {
    Releases(WaitingLocked(p, q, m), limits, 2);
    hide Next;
    assert map[0 := 2, m - 1 := 1, m := 1] - Elements([0]) == map[m - 1 := 1, m := 1];
  }

  lemma WaitingSecond(p: nat, q: nat, limits: Limits, w: Switching, m: nat)
    requires p != q && m >= 3
    ensures Run(WaitingGates(p, q, m), limits, w, Some(1), WaitingCalls(p, q, m)[7..])
         == Run(WaitingFreed(p, q, m), limits, w, Some(2), Acquires(m - 1))
  {
    var run := WaitingCalls(p, q, m)[7..];
    assert run == [Acquire(1, 0.0), Acquire(1, 0.0), Release(2)] + Acquires(m - 1);
    WaitingTakes(p, q, limits, m);
    WaitingLocks(p, q, limits, w, m);
    WaitingReleases(p, q, limits, m);
    hide Next, Run, Busy, WaitingCalls, WaitingGates, WaitingTaken, WaitingLocked, WaitingFreed;
    RunMoves(WaitingGates(p, q, m), WaitingTaken(p, q, m), limits, w, Some(1), run);
    RunMoves(WaitingTaken(p, q, m), WaitingLocked(p, q, m), limits, w, Some(1), run[1..]);
    RunMoves(WaitingLocked(p, q, m), WaitingFreed(p, q, m), limits, w, Some(1), run[2..]);
    assert run[1..][1..] == run[2..] && run[2..][1..] == Acquires(m - 1);
  }

  /** A caller of locks takes its last semaphore, which is free, and opens its gate. */
  lemma TakesLast(s: State, limits: Limits, t: nat, ep: nat, es: seq<nat>)
    requires es != [] && t in s.threads && s.threads[t] == Use(ep, LocksAcquire(es, |es| - 1, 5.0))
    requires es[|es| - 1] !in s.owner
    ensures Next(s, limits, Acquire(t, 0.0)).Moved?
    ensures Next(s, limits, Acquire(t, 0.0)).state
         == State(s.frozen - {ep}, s.owner[es[|es| - 1] := t], s.threads[t := Use(ep, LocksHeld(es))])
  {
  }

  lemma FreedIsServed(p: nat, q: nat, m: nat)
    requires m >= 3
    ensures Served(WaitingFreed(p, q, m), p, q, m, 0)
  {
  }

  lemma ServesOne(s: State, limits: Limits, p: nat, q: nat, m: nat, k: nat) returns (s': State)
    requires m > 0 && Served(s, p, q, m, k) && k < m - 1
    ensures Next(s, limits, Acquire(0, 0.0)).Moved? && Next(s, limits, Acquire(0, 0.0)).state == s'
    ensures Served(s', p, q, m, k + 1)
  {
    var es := Numbers(m - 1);
    if k == m - 2 {
      TakesLast(s, limits, 0, q, es);
      s' := State(s.frozen - {q}, s.owner[k := 0], s.threads[0 := Use(q, LocksHeld(es))]);
    } else {
      TakesNext(s, limits, 0, q, es, k);
      s' := State(s.frozen, s.owner[k := 0], s.threads[0 := Use(q, LocksAcquire(es, k + 1, 5.0))]);
    }
    hide Next;
  }

  lemma {:induction false} ServesAll(s: State, limits: Limits, w: Switching, last: nat, p: nat, q: nat, m: nat, k: nat)
    returns (s': State)
    requires m > 0 && Served(s, p, q, m, k) && k <= m - 1 && (last == 2 || last == 0)
    ensures Run(s, limits, w, Some(last), Acquires(m - 1 - k)) == Some(s') && Served(s', p, q, m, m - 1)
    decreases m - k
  {
    if k == m - 1 {
      s' := s;
      hide Run;
      RunEnds(s, limits, w, Some(last));
    } else {
      var run := Acquires(m - 1 - k);
      assert run[0] == Acquire(0, 0.0) && run[1..] == Acquires(m - 1 - (k + 1));
      assert Allowed(s, w, Some(last), run[0]);
      hide Next, Run, Served, Allowed;
      var s1 := ServesOne(s, limits, p, q, m, k);
      RunMoves(s, s1, limits, w, Some(last), run);
      s' := ServesAll(s1, limits, w, 0, p, q, m, k + 1);
    }
  }

  lemma ServedIsLive(s: State, p: nat, q: nat, m: nat)
    requires m > 0 && Served(s, p, q, m, m - 1)
    ensures |Live(s)| > m
  {
    var es := Numbers(m - 1);
    assert Refs(s.threads[0].phase) == es && Refs(s.threads[1].phase) == [m - 1, m];
    forall e | e in Elements(es) + {m - 1, m} ensures e in Live(s) {
      assert if e >= m - 1 then e in Refs(s.threads[1].phase) else e in Refs(s.threads[0].phase);
    }
    DistinctElements(es);
    assert |Elements(es) + {m - 1, m}| == |Elements(es)| + |{m - 1, m}|;
    SubsetSize(Elements(es) + {m - 1, m}, Live(s));
  }

  lemma WaitingOn(endpoints: set<nat>, p: nat, q: nat, m: nat)
    requires p in endpoints && q in endpoints && m > 0
    ensures OnEndpoints(WaitingCalls(p, q, m), endpoints)
  {
    OnlyAcquires(m - 1);
  }

  lemma WaitingExceeds(endpoints: set<nat>, limits: Limits, w: Switching, p: nat, q: nat)
    requires p in endpoints && q in endpoints && p != q && limits(p) >= 3 && Bounds(endpoints, limits, limits(q))
    ensures Exceeds(endpoints, limits, w, WaitingCalls(p, q, limits(q)))
  {
    hide Run, Live, Served;
    var m := limits(q);
    assert m >= 3;
    WaitingFirst(p, q, limits, w, m);
    WaitingSecond(p, q, limits, w, m);
    FreedIsServed(p, q, m);
    var s := ServesAll(WaitingFreed(p, q, m), limits, w, 2, p, q, m, 0);
    ServedIsLive(s, p, q, m);
    WaitingOn(endpoints, p, q, m);
  }

  /**
   * The limit holds exactly unless two different endpoints in use have limits of at least
   * 3; of at least 2, if the acquisition of a free semaphore may always switch.
   */
  lemma LimitGuardsOneEndpoint(endpoints: set<nat>, limits: Limits, w: Switching)
    ensures CanExceed(endpoints, limits, w) <==>
              exists p, q :: p in endpoints && q in endpoints && p != q
                             && limits(p) >= 2 + Slack(w) && limits(q) >= 2 + Slack(w)
  {
    if p, q :| p in endpoints && q in endpoints && p != q && limits(p) >= 2 + Slack(w) && limits(q) >= 2 + Slack(w) {
      var top := LargestLimit(endpoints, limits);
      var other := if top == p then q else p;
      if w.Always? {
        CrowdedExceeds(endpoints, limits, other, top);
      } else {
        WaitingExceeds(endpoints, limits, w, other, top);
      }
    } else {
      forall actions ensures !Exceeds(endpoints, limits, w, actions) {
        NothingExceeds(endpoints, limits, w, actions);
      }
    }
  }

  lemma NothingExceeds(endpoints: set<nat>, limits: Limits, w: Switching, actions: seq<Action>)
    requires OneRoomy(endpoints, limits, w)
    ensures !Exceeds(endpoints, limits, w, actions)
  {
    hide Run, Live;
    if OnEndpoints(actions, endpoints) && Run(INIT, limits, w, None, actions).Some? {
      if endpoints == {} {
        LiveWithinLimit(limits, w, actions, endpoints, 0);
      } else {
        var top := LargestLimit(endpoints, limits);
        LiveWithinLimit(limits, w, actions, endpoints, limits(top));
      }
    }
  }

  /**
   * With one common limit, two endpoints can deadlock from 3 on, and exceed it from 3 on,
   * or from 2 on if the acquisition of a free semaphore may always switch.
   */
  lemma CommonLimit(endpoints: set<nat>, limits: Limits, w: Switching, maxLock: nat)
    requires forall p :: limits(p) == maxLock
    ensures var two := exists p, q :: p in endpoints && q in endpoints && p != q;
            && (CanDeadlock(endpoints, limits, w) <==> maxLock >= 3 && two)
            && (CanExceed(endpoints, limits, w) <==> maxLock >= (if w.Always? then 2 else 3) && two)
  {
    LimitGuardsOneEndpoint(endpoints, limits, w);
    GateGuardsOneEndpoint(endpoints, limits, w);
    assert forall p, q :: RoomForTwo(limits, w, p, q) <==> p != q && maxLock >= 3;
    hide CanExceed, CanDeadlock;
  }
}
