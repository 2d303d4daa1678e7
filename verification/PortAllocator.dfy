/**
 * The port bookkeeping of an agent (goperation/manager/rpc/agent/base.py).
 *
 * A port is free, or held by one entity of one endpoint, or lent to a running
 * log reader; the methods move ports between the three and roll back on failure.
 */
module PortAllocator {
  import opened Wrappers
  import opened NatSets

  /** allocked_ports: endpoint -> entity -> ports */
  type Allocated = map<string, map<nat, set<nat>>>

  datatype Error =
    | NoPortsRequested | PortNotAvailable | UnknownEndpoint | EntityExists
    | NoneInPorts | EndpointMissing | TooManyWebsockets | NoPortLeft

  /** An entity as the server knows it, with its ports. */
  datatype Recorded = Recorded(entity: nat, ports: seq<Option<nat>>)

  predicate Holds(m: Allocated, endpoint: string, entity: nat, port: nat) {
    endpoint in m && entity in m[endpoint] && port in m[endpoint][entity]
  }

  ghost predicate Held(m: Allocated, port: nat) {
    exists endpoint, entity :: Holds(m, endpoint, entity, port)
  }

  /** No port belongs to two entities. */
  ghost predicate OneHolder(m: Allocated) {
    forall endpoint, entity, endpoint', entity', port ::
      Holds(m, endpoint, entity, port) && Holds(m, endpoint', entity', port) ==> endpoint == endpoint' && entity == entity'
  }

  function With(m: Allocated, endpoint: string, entity: nat, ports: set<nat>): (r: Allocated)
    requires endpoint in m
    ensures endpoint in r && entity in r[endpoint] && r[endpoint][entity] == ports
  {
    var entities: map<nat, set<nat>> := m[endpoint][entity := ports];
    m[endpoint := entities]
  }

  lemma WithHolds(m: Allocated, endpoint: string, entity: nat, ports: set<nat>)
    requires endpoint in m
    ensures forall endpoint', entity', port ::
              Holds(With(m, endpoint, entity, ports), endpoint', entity', port) <==>
                if endpoint' == endpoint && entity' == entity then port in ports else Holds(m, endpoint', entity', port)
  {
  }

  lemma WithSame(m: Allocated, endpoint: string, entity: nat)
    requires endpoint in m && entity in m[endpoint]
    ensures With(m, endpoint, entity, m[endpoint][entity]) == m
  {
    var entities := m[endpoint];
    assert entities[entity := entities[entity]] == entities;
  }

  lemma WithWith(m: Allocated, endpoint: string, entity: nat, first: set<nat>, second: set<nat>)
    requires endpoint in m
    ensures With(With(m, endpoint, entity, first), endpoint, entity, second) == With(m, endpoint, entity, second)
  {
    var entities := m[endpoint];
    assert entities[entity := first][entity := second] == entities[entity := second];
  }

  lemma RollbackStep(before: Allocated, left: set<nat>, endpoint: string, entity: nat, undo: set<nat>, p: nat)
    requires endpoint in before && entity in before[endpoint] && before[endpoint][entity] * left == {}
    requires p in undo && undo <= left
    ensures left - undo + {p} == left - (undo - {p})
    ensures With(With(before, endpoint, entity, before[endpoint][entity] + undo), endpoint, entity,
                 before[endpoint][entity] + undo - {p})
         == With(before, endpoint, entity, before[endpoint][entity] + (undo - {p}))
  {
    hide With;
    var held := before[endpoint][entity];
    WithWith(before, endpoint, entity, held + undo, held + undo - {p});
    assert p in left && p !in held * left;
    assert held + undo - {p} == held + (undo - {p});
  }

  lemma RollbackDone(before: Allocated, left: set<nat>, endpoint: string, entity: nat)
    requires endpoint in before && entity in before[endpoint]
    ensures left - {} == left
    ensures With(before, endpoint, entity, before[endpoint][entity] + {}) == before
  {
    hide With;
    assert before[endpoint][entity] + {} == before[endpoint][entity];
    WithSame(before, endpoint, entity);
  }

  /** Free, held and lent ports are pairwise disjoint and together are the configured ones. */
  ghost predicate Conserved(total: set<nat>, left: set<nat>, m: Allocated, lent: map<nat, nat>) {
    && OneHolder(m)
    && (forall pid, pid' | pid in lent && pid' in lent && lent[pid] == lent[pid'] :: pid == pid')
    && (forall pid | pid in lent :: lent[pid] !in left && !Held(m, lent[pid]) && lent[pid] in total)
    && (forall port | port in left :: !Held(m, port) && port in total)
    && (forall endpoint, entity, port :: Holds(m, endpoint, entity, port) ==> port in total)
    && (forall port | port in total :: port in left || Lent(lent, port) || Held(m, port))
  }

  ghost predicate Lent(lent: map<nat, nat>, port: nat) {
    exists pid :: pid in lent && lent[pid] == port
  }

  // ---- which ports a request takes ----

  /** taken answers a prefix of the request: named ports as named, others any port that is still free. */
  ghost predicate Picks(ports: seq<Option<nat>>, left: set<nat>, taken: seq<nat>) {
    && |taken| <= |ports|
    && (forall i | 0 <= i < |taken| :: taken[i] in left && (ports[i].Some? ==> taken[i] == ports[i].value))
    && (forall i, j | 0 <= i < j < |taken| :: taken[i] != taken[j])
  }

  /** The next port of the request cannot be taken. */
  ghost predicate Stuck(ports: seq<Option<nat>>, left: set<nat>, taken: seq<nat>) {
    && |taken| < |ports|
    && match ports[|taken|]
       case Some(port) => port !in left || port in taken
       case None => forall port | port in left :: port in taken
  }

  /** One complete pass of the allocation loop, with some choice of the unnamed ports. */
  ghost predicate Run(ports: seq<Option<nat>>, left: set<nat>, taken: seq<nat>) {
    Picks(ports, left, taken) && (|taken| == |ports| || Stuck(ports, left, taken))
  }

  /** Enough free ports, and the named ones are distinct and free. */
  ghost predicate Feasible(ports: seq<Option<nat>>, left: set<nat>) {
    && |ports| <= |left|
    && (forall i | 0 <= i < |ports| && ports[i].Some? :: ports[i].value in left)
    && (forall i, j | 0 <= i < j < |ports| && ports[i].Some? :: ports[i] != ports[j])
  }

  /** No unnamed port is asked for before a named one. */
  ghost predicate NamesFirst(ports: seq<Option<nat>>) {
    forall i, j | 0 <= i < j < |ports| && ports[j].Some? :: ports[i].Some?
  }

  lemma PicksFit(ports: seq<Option<nat>>, left: set<nat>, taken: seq<nat>)
    requires Picks(ports, left, taken)
    ensures |taken| <= |left|
    ensures (forall port | port in left :: port in taken) ==> |taken| == |left|
  {
    DistinctElements(taken);
    SubsetSize(Elements(taken), left);
    if forall port | port in left :: port in taken {
      assert Elements(taken) == left;
    }
  }

  /** A pass that takes every port was asked for something feasible. */
  lemma CompleteIsFeasible(ports: seq<Option<nat>>, left: set<nat>, taken: seq<nat>)
    requires Picks(ports, left, taken) && |taken| == |ports|
    ensures Feasible(ports, left)
  {
    PicksFit(ports, left, taken);
  }

  lemma {:induction false} Extend(ports: seq<Option<nat>>, left: set<nat>, taken: seq<nat>) returns (all: seq<nat>)
    requires Picks(ports, left, taken)
    ensures Run(ports, left, all) && taken <= all
    decreases |ports| - |taken|
  {
    all := taken;
    if |taken| < |ports| && !Stuck(ports, left, taken) {
      var port: nat;
      match ports[|taken|] {
        case Some(named) => port := named;
        case None => port :| port in left && port !in taken;
      }
      all := Extend(ports, left, taken + [port]);
    }
  }

  /** With the names first, whatever is popped, a pass succeeds exactly when the request is feasible. */
  lemma NamesFirstSucceeds(ports: seq<Option<nat>>, left: set<nat>, taken: seq<nat>)
    requires NamesFirst(ports) && Run(ports, left, taken)
    ensures |taken| == |ports| <==> Feasible(ports, left)
  {
    if |taken| == |ports| {
      CompleteIsFeasible(ports, left, taken);
    } else {
      PicksFit(ports, left, taken);
      match ports[|taken|] {
        case Some(port) =>
          if port in left {
            var i :| 0 <= i < |taken| && taken[i] == port;
            assert ports[i] == ports[|taken|];
          }
        case None =>
      }
    }
  }

  /** Only unnamed ports: the request succeeds exactly when there are enough. */
  lemma UnnamedRequest(ports: seq<Option<nat>>, left: set<nat>, taken: seq<nat>)
    requires forall i | 0 <= i < |ports| :: ports[i].None?
    requires Run(ports, left, taken)
    ensures |taken| == |ports| <==> |ports| <= |left|
  {
    NamesFirstSucceeds(ports, left, taken);
  }

  /** Only named ports: the request succeeds exactly when they are distinct and free. */
  lemma NamedRequest(ports: seq<Option<nat>>, left: set<nat>, taken: seq<nat>)
    requires forall i | 0 <= i < |ports| :: ports[i].Some?
    requires Run(ports, left, taken)
    ensures |taken| == |ports| <==>
              && (forall i | 0 <= i < |ports| :: ports[i].value in left)
              && (forall i, j | 0 <= i < j < |ports| :: ports[i] != ports[j])
  {
    NamesFirstSucceeds(ports, left, taken);
    if (forall i | 0 <= i < |ports| :: ports[i].value in left)
       && (forall i, j | 0 <= i < j < |ports| :: ports[i] != ports[j]) {
      var names := seq(|ports|, i requires 0 <= i < |ports| => ports[i].value);
      DistinctElements(names);
      SubsetSize(Elements(names), left);
    }
  }

  /** A mixed request is safe for every choice of the unnamed ports exactly when it is feasible and names them first. */
  lemma MixedRequest(ports: seq<Option<nat>>, left: set<nat>)
    ensures (forall taken | Run(ports, left, taken) :: |taken| == |ports|) <==> Feasible(ports, left) && NamesFirst(ports)
  {
    if Feasible(ports, left) && NamesFirst(ports) {
      forall taken | Run(ports, left, taken) ensures |taken| == |ports| {
        NamesFirstSucceeds(ports, left, taken);
      }
    } else if Feasible(ports, left) {
      var i, j :| 0 <= i < j < |ports| && ports[j].Some? && ports[i].None?;
      var bad := TakeBefore(ports, left, i, j);
    } else {
      var all := Extend(ports, left, []);
      if |all| == |ports| {
        CompleteIsFeasible(ports, left, all);
      }
    }
  }

  /** An unnamed port that comes before a named one can steal it. */
  lemma TakeBefore(ports: seq<Option<nat>>, left: set<nat>, i: nat, j: nat) returns (bad: seq<nat>)
    requires Feasible(ports, left) && i < j < |ports| && ports[i].None? && ports[j].Some?
    ensures Run(ports, left, bad) && |bad| < |ports|
  {
    var wanted := ports[j].value;
    bad := Extend(ports, left, []);
    if |bad| == |ports| {
      forall k | 0 <= k < i ensures bad[k] != wanted {
        assert bad[j] == wanted;
      }
      bad := Extend(ports, left, bad[..i] + [wanted]);
      assert bad[i] == wanted;
    }
  }

  // ---- freeing ----

  /** Every entity loses the given ports. */
  function Freed(m: Allocated, ports: set<nat>): (r: Allocated)
    ensures r.Keys == m.Keys && forall e, n | e in m :: n in r[e] <==> n in m[e]
    ensures forall e, n | e in m && n in m[e] :: r[e][n] == m[e][n] - ports
  {
    map endpoint | endpoint in m :: FreedEntities(m[endpoint], ports)
  }

  function FreedEntities(entities: map<nat, set<nat>>, ports: set<nat>): map<nat, set<nat>> {
    map entity | entity in entities :: entities[entity] - ports
  }

  /** The ports of a request that some entity holds. */
  ghost predicate HeldAmong(m: Allocated, ports: set<nat>, held: set<nat>) {
    forall port :: port in held <==> port in ports && Held(m, port)
  }

  /** Moving held ports back to the free set conserves every port. */
  lemma FreeConserves(total: set<nat>, left: set<nat>, m: Allocated, lent: map<nat, nat>, ports: set<nat>,
                      held: set<nat>)
    requires Conserved(total, left, m, lent) && HeldAmong(m, ports, held)
    ensures Conserved(total, left + held, Freed(m, ports), lent)
  {
    var r := Freed(m, ports);
    FreedHolds(m, ports);
    forall port ensures Held(r, port) <==> Held(m, port) && port !in ports {
      HeldAfterFree(m, ports, port);
    }
  }

  lemma FreedHolds(m: Allocated, ports: set<nat>)
    ensures forall endpoint, entity, port ::
              Holds(Freed(m, ports), endpoint, entity, port) <==> Holds(m, endpoint, entity, port) && port !in ports
  {
  }

  lemma HeldAfterFree(m: Allocated, ports: set<nat>, port: nat)
    ensures Held(Freed(m, ports), port) <==> Held(m, port) && port !in ports
  {
    var r := Freed(m, ports);
    if endpoint, entity :| Holds(m, endpoint, entity, port) && port !in ports {
      assert Holds(r, endpoint, entity, port);
    }
    if endpoint, entity :| Holds(r, endpoint, entity, port) {
      assert Holds(m, endpoint, entity, port);
    }
  }

  /** Moving free ports to an entity conserves every port. */
  lemma FreezeConserves(total: set<nat>, left: set<nat>, m: Allocated, lent: map<nat, nat>,
                        endpoint: string, entity: nat, taken: set<nat>)
    requires Conserved(total, left, m, lent) && taken <= left
    requires endpoint in m && entity in m[endpoint]
    ensures Conserved(total, left - taken, With(m, endpoint, entity, m[endpoint][entity] + taken), lent)
  {
    var r := With(m, endpoint, entity, m[endpoint][entity] + taken);
    WithHolds(m, endpoint, entity, m[endpoint][entity] + taken);
    forall port ensures Held(r, port) <==> Held(m, port) || port in taken {
      if port in taken {
        assert Holds(r, endpoint, entity, port);
      }
      if endpoint', entity' :| Holds(m, endpoint', entity', port) {
        assert Holds(r, endpoint', entity', port);
      }
      if endpoint', entity' :| Holds(r, endpoint', entity', port) {
        assert port in taken || Holds(m, endpoint', entity', port);
      }
    }
    forall e, n, e', n', port | Holds(r, e, n, port) && Holds(r, e', n', port) ensures e == e' && n == n' {
      assert port !in taken ==> Holds(m, e, n, port) && Holds(m, e', n', port);
      assert port in taken ==> !Held(m, port);
    }
  }

  // ---- lending and the life of an entity ----

  lemma LendConserves(total: set<nat>, left: set<nat>, m: Allocated, lent: map<nat, nat>, port: nat, pid: nat)
    requires Conserved(total, left, m, lent) && port in left && pid !in lent
    ensures Conserved(total, left - {port}, m, lent[pid := port])
  {
    var more := lent[pid := port];
    assert more[pid] == port;
    forall p | Lent(lent, p) ensures Lent(more, p) {
      var pid' :| pid' in lent && lent[pid'] == p;
      assert more[pid'] == p;
    }
  }

  lemma ReturnConserves(total: set<nat>, left: set<nat>, m: Allocated, lent: map<nat, nat>, pid: nat)
    requires Conserved(total, left, m, lent) && pid in lent
    ensures Conserved(total, left + {lent[pid]}, m, lent - {pid})
  {
    var less := lent - {pid};
    forall p | Lent(lent, p) ensures p == lent[pid] || Lent(less, p) {
      var pid' :| pid' in lent && lent[pid'] == p;
      assert pid' != pid ==> pid' in less;
    }
  }

  /** An entity that holds no port comes or goes without moving any. */
  lemma EmptyEntityConserves(total: set<nat>, left: set<nat>, m: Allocated, lent: map<nat, nat>,
                             endpoint: string, entity: nat)
    requires endpoint in m && entity !in m[endpoint]
    ensures Conserved(total, left, m, lent) <==> Conserved(total, left, With(m, endpoint, entity, {}), lent)
  {
    var r := With(m, endpoint, entity, {});
    WithHolds(m, endpoint, entity, {});
    assert forall e, n, p :: Holds(r, e, n, p) <==> Holds(m, e, n, p);
    forall port ensures Held(r, port) <==> Held(m, port) {
      SameHolders(m, r, port);
    }
  }

  lemma SameHolders(m: Allocated, r: Allocated, port: nat)
    requires forall e, n :: Holds(r, e, n, port) <==> Holds(m, e, n, port)
    ensures Held(r, port) <==> Held(m, port)
  {
    if e, n :| Holds(m, e, n, port) {
      assert Holds(r, e, n, port);
    }
    if e, n :| Holds(r, e, n, port) {
      assert Holds(m, e, n, port);
    }
  }

  function Without(m: Allocated, endpoint: string, entity: nat): Allocated
    requires endpoint in m
  {
    m[endpoint := m[endpoint] - {entity}]
  }

  /** Dropping an entity conserves every port exactly when it held none. */
  lemma DropConserves(total: set<nat>, left: set<nat>, m: Allocated, lent: map<nat, nat>, endpoint: string, entity: nat)
    requires Conserved(total, left, m, lent) && endpoint in m && entity in m[endpoint]
    ensures Conserved(total, left, Without(m, endpoint, entity), lent) <==> m[endpoint][entity] == {}
  {
    var r := Without(m, endpoint, entity);
    if m[endpoint][entity] == {} {
      var rest: map<nat, set<nat>> := r[endpoint];
      assert rest[entity := {}] == m[endpoint];
      assert With(r, endpoint, entity, {}) == m;
      EmptyEntityConserves(total, left, r, lent, endpoint, entity);
    } else {
      var port :| port in m[endpoint][entity];
      assert Holds(m, endpoint, entity, port);
      assert Held(m, port);
      LostPort(m, endpoint, entity, port);
    }
  }

  lemma LostPort(m: Allocated, endpoint: string, entity: nat, port: nat)
    requires OneHolder(m) && Holds(m, endpoint, entity, port)
    ensures !Held(Without(m, endpoint, entity), port)
  {
    var r := Without(m, endpoint, entity);
    forall e, n ensures !Holds(r, e, n, port) {
      assert Holds(r, e, n, port) ==> Holds(m, e, n, port);
    }
  }

  /** A body that fails and left the maps alone leaves no trace of its allocation. */
  lemma AbortedBodyRestores(m: Allocated, left: set<nat>, endpoint: string, entity: nat, taken: set<nat>)
    requires endpoint in m && taken <= left
    requires forall port | port in left :: !Held(m, port)
    ensures var isNew := entity !in m[endpoint];
            var held := if isNew then {} else m[endpoint][entity];
            var inside := With(m, endpoint, entity, held + taken);
            var freed := Freed(inside, taken);
            && HeldAmong(inside, taken, taken)
            && left - taken + taken == left
            && (if isNew then Without(freed, endpoint, entity) else freed) == m
  {
    hide With, Freed, HeldAmong, Without;
    var held := if entity in m[endpoint] then m[endpoint][entity] else {};
    TakenAreHeld(m, endpoint, entity, held, taken);
    forall e, n, port | Holds(m, e, n, port) ensures port !in taken {
      assert Held(m, port);
    }
    NothingFreed(m, taken);
    FreedWith(m, endpoint, entity, held + taken, taken);
    if entity in m[endpoint] {
      WithSame(m, endpoint, entity);
    } else {
      assert {} + taken - taken == {};
      WithoutWith(m, endpoint, entity);
    }
  }

  /** Freeing works entity by entity. */
  lemma FreedWith(m: Allocated, endpoint: string, entity: nat, held: set<nat>, ports: set<nat>)
    requires endpoint in m && Freed(m, ports) == m
    ensures Freed(With(m, endpoint, entity, held), ports) == With(m, endpoint, entity, held - ports)
  {
    var a, b := Freed(With(m, endpoint, entity, held), ports), With(m, endpoint, entity, held - ports);
    forall e | e in m ensures a[e] == b[e] {
      assert m[e] == FreedEntities(m[e], ports);
    }
  }

  lemma WithoutWith(m: Allocated, endpoint: string, entity: nat)
    requires endpoint in m && entity !in m[endpoint]
    ensures Without(With(m, endpoint, entity, {}), endpoint, entity) == m
  {
    assert With(m, endpoint, entity, {})[endpoint] - {entity} == m[endpoint];
  }

  lemma TakenAreHeld(m: Allocated, endpoint: string, entity: nat, held: set<nat>, taken: set<nat>)
    requires endpoint in m
    ensures HeldAmong(With(m, endpoint, entity, held + taken), taken, taken)
  {
    forall port | port in taken ensures Held(With(m, endpoint, entity, held + taken), port) {
      assert Holds(With(m, endpoint, entity, held + taken), endpoint, entity, port);
    }
  }

  lemma NothingFreed(m: Allocated, ports: set<nat>)
    requires forall e, n, port | Holds(m, e, n, port) :: port !in ports
    ensures Freed(m, ports) == m
    ensures forall e, n | e in m && n in m[e] :: m[e][n] - ports == m[e][n] && m[e][n] + ports - ports == m[e][n]
    ensures forall e | e in m :: FreedEntities(m[e], ports) == m[e]
  {
    forall e, n | e in m && n in m[e] ensures m[e][n] - ports == m[e][n] && m[e][n] + ports - ports == m[e][n] {
      assert forall port | port in m[e][n] :: Holds(m, e, n, port);
    }
    forall e | e in m ensures FreedEntities(m[e], ports) == m[e] {
    }
  }

  // ---- the manager ----

  predicate InSomeRange(ranges: seq<(nat, nat)>, port: nat) {
    exists i | 0 <= i < |ranges| :: ranges[i].0 <= port < ranges[i].1
  }

  // ---- what the server knows at the start ----

  function WithEndpoint(m: Allocated, endpoint: string): Allocated {
    if endpoint in m then m else m[endpoint := map[]]
  }

  lemma EndpointConserves(total: set<nat>, left: set<nat>, m: Allocated, lent: map<nat, nat>, endpoint: string)
    ensures Conserved(total, left, m, lent) <==> Conserved(total, left, WithEndpoint(m, endpoint), lent)
  {
    var r := WithEndpoint(m, endpoint);
    assert forall e, n, p :: Holds(r, e, n, p) <==> Holds(m, e, n, p);
    forall port ensures Held(r, port) <==> Held(m, port) {
      SameHolders(m, r, port);
    }
  }

  /** Making an entity anew conserves every port exactly when it held none. */
  lemma OverwriteConserves(total: set<nat>, left: set<nat>, m: Allocated, lent: map<nat, nat>, endpoint: string, entity: nat)
    requires Conserved(total, left, m, lent) && endpoint in m
    ensures Conserved(total, left, With(m, endpoint, entity, {}), lent) <==>
              (entity in m[endpoint] ==> m[endpoint][entity] == {})
  {
    if entity in m[endpoint] {
      DropConserves(total, left, m, lent, endpoint, entity);
      EmptyEntityConserves(total, left, Without(m, endpoint, entity), lent, endpoint, entity);
      var entities: map<nat, set<nat>> := m[endpoint];
      assert (entities - {entity})[entity := {}] == entities[entity := {}];
      assert With(Without(m, endpoint, entity), endpoint, entity, {}) == With(m, endpoint, entity, {});
    } else {
      EmptyEntityConserves(total, left, m, lent, endpoint, entity);
    }
  }

  /** The ports that a request names. */
  function Named(ports: seq<Option<nat>>): set<nat> {
    set i | 0 <= i < |ports| && ports[i].Some? :: ports[i].value
  }

  /** All ports of the request are named, free and distinct. */
  ghost predicate AllFree(ports: seq<Option<nat>>, left: set<nat>) {
    && (forall i | 0 <= i < |ports| :: ports[i].Some? && ports[i].value in left)
    && (forall i, j | 0 <= i < j < |ports| :: ports[i] != ports[j])
  }

  /** A request in two parts: the second one needs what the first one leaves. */
  lemma FreeSplits(a: seq<Option<nat>>, b: seq<Option<nat>>, left: set<nat>)
    ensures AllFree(a + b, left) <==> AllFree(a, left) && AllFree(b, left - Named(a))
  {
    if AllFree(a + b, left) {
      FirstIsFree(a, b, left);
      SecondIsFree(a, b, left);
    }
    if AllFree(a, left) && AllFree(b, left - Named(a)) {
      BothAreFree(a, b, left);
    }
  }

  lemma FirstIsFree(a: seq<Option<nat>>, b: seq<Option<nat>>, left: set<nat>)
    requires AllFree(a + b, left)
    ensures AllFree(a, left)
  {
    forall i | 0 <= i < |a| ensures a[i].Some? && a[i].value in left {
      assert (a + b)[i] == a[i];
    }
    forall i, j | 0 <= i < j < |a| ensures a[i] != a[j] {
      assert (a + b)[i] == a[i] && (a + b)[j] == a[j];
    }
  }

  lemma SecondIsFree(a: seq<Option<nat>>, b: seq<Option<nat>>, left: set<nat>)
    requires AllFree(a + b, left)
    ensures AllFree(b, left - Named(a))
  {
    var n := |a|;
    forall i | 0 <= i < |b| ensures b[i].Some? && b[i].value in left - Named(a) {
      assert (a + b)[n + i] == b[i];
      forall k | 0 <= k < n ensures a[k] != b[i] {
        assert (a + b)[k] == a[k];
      }
    }
    forall i, j | 0 <= i < j < |b| ensures b[i] != b[j] {
      assert (a + b)[n + i] == b[i] && (a + b)[n + j] == b[j];
    }
  }

  lemma BothAreFree(a: seq<Option<nat>>, b: seq<Option<nat>>, left: set<nat>)
    requires AllFree(a, left) && AllFree(b, left - Named(a))
    ensures AllFree(a + b, left)
  {
    forall i | 0 <= i < |a| ensures a[i].value in Named(a) {
    }
  }

  lemma NamedJoins(a: seq<Option<nat>>, b: seq<Option<nat>>)
    ensures Named(a + b) == Named(a) + Named(b)
  {
    forall p ensures p in Named(a + b) <==> p in Named(a) + Named(b) {
      if i :| 0 <= i < |a| && a[i] == Some(p) {
        assert (a + b)[i] == Some(p);
      }
      if i :| 0 <= i < |b| && b[i] == Some(p) {
        assert (a + b)[|a| + i] == Some(p);
      }
    }
  }

  lemma TakenAsNamed(ports: seq<Option<nat>>, left: set<nat>, taken: seq<nat>)
    requires Picks(ports, left, taken) && |taken| == |ports| && forall i | 0 <= i < |ports| :: ports[i].Some?
    ensures Elements(taken) == Named(ports)
  {
    forall p ensures p in Elements(taken) <==> p in Named(ports) {
      if p in taken {
        var i :| 0 <= i < |taken| && taken[i] == p;
        assert ports[i].value == p;
      }
      if p in Named(ports) {
        var i :| 0 <= i < |ports| && ports[i].Some? && ports[i].value == p;
        assert taken[i] == p;
      }
    }
  }

  /** The records name each entity once, and none that is there already. */
  ghost predicate NewEntities(entitys: seq<Recorded>, m: map<nat, set<nat>>) {
    && (forall i | 0 <= i < |entitys| :: entitys[i].entity !in m)
    && (forall i, j | 0 <= i < j < |entitys| :: entitys[i].entity != entitys[j].entity)
  }

  /** All ports of the records. */
  ghost function Ports(entitys: seq<Recorded>): seq<Option<nat>> {
    if entitys == [] then [] else Ports(entitys[..|entitys| - 1]) + entitys[|entitys| - 1].ports
  }

  lemma PortsOfNext(entitys: seq<Recorded>, i: nat)
    requires i < |entitys|
    ensures Ports(entitys[..i + 1]) == Ports(entitys[..i]) + entitys[i].ports
  {
    var more := entitys[..i + 1];
    assert more[..i] == entitys[..i];
  }

  lemma {:induction false} PortsOfPrefix(entitys: seq<Recorded>, i: nat, left: set<nat>)
    requires i <= |entitys| && AllFree(Ports(entitys), left)
    ensures AllFree(Ports(entitys[..i]), left)
  {
    if i == |entitys| {
      assert entitys[..i] == entitys;
    } else {
      var front := entitys[..|entitys| - 1];
      FreeSplits(Ports(front), entitys[|entitys| - 1].ports, left);
      PortsOfPrefix(front, i, left);
      assert front[..i] == entitys[..i];
    }
  }

  /** The next record can be loaded or cannot, and if not, then neither can all of them. */
  lemma FreeNext(entitys: seq<Recorded>, i: nat, left: set<nat>)
    requires i < |entitys| && AllFree(Ports(entitys[..i]), left)
    ensures var ok := AllFree(entitys[i].ports, left - Named(Ports(entitys[..i])));
            && (ok <==> AllFree(Ports(entitys[..i + 1]), left))
            && (!ok ==> !AllFree(Ports(entitys), left))
    ensures Named(Ports(entitys[..i + 1])) == Named(Ports(entitys[..i])) + Named(entitys[i].ports)
  {
    PortsOfNext(entitys, i);
    FreeSplits(Ports(entitys[..i]), entitys[i].ports, left);
    NamedJoins(Ports(entitys[..i]), entitys[i].ports);
    hide AllFree, Ports, Named;
    if AllFree(Ports(entitys), left) {
      PortsOfPrefix(entitys, i + 1, left);
    }
  }

  ghost predicate AsRecorded(entitys: seq<Recorded>, m: map<nat, set<nat>>) {
    forall i | 0 <= i < |entitys| :: entitys[i].entity in m && m[entitys[i].entity] == Named(entitys[i].ports)
  }

  /** Loading the next record leaves the ones before it as they are, and the ones after it new. */
  lemma NextRecord(entitys: seq<Recorded>, i: nat, m: map<nat, set<nat>>)
    requires i < |entitys| && AsRecorded(entitys[..i], m) && NewEntities(entitys[i..], m)
    ensures entitys[i].entity !in m
    ensures var m' := m[entitys[i].entity := Named(entitys[i].ports)];
            AsRecorded(entitys[..i + 1], m') && NewEntities(entitys[i + 1..], m')
  {
    var done, more, rest := entitys[..i], entitys[..i + 1], entitys[i..];
    assert rest[0] == entitys[i] && rest[1..] == entitys[i + 1..];
    assert more == done + [entitys[i]];
  }

  function Endpoints(remote: seq<(string, seq<Recorded>)>): (r: set<string>)
    ensures forall e :: e in r <==> exists i :: 0 <= i < |remote| && remote[i].0 == e
  {
    set i | 0 <= i < |remote| :: remote[i].0
  }

  /** The server's record names an endpoint once, and an entity of it once. */
  ghost predicate AllRecordedOnce(remote: seq<(string, seq<Recorded>)>) {
    && (forall i, j | 0 <= i < j < |remote| :: remote[i].0 != remote[j].0)
    && (forall i | 0 <= i < |remote| :: NewEntities(remote[i].1, map[]))
  }

  /** All ports of all records. */
  ghost function AllPorts(remote: seq<(string, seq<Recorded>)>): seq<Option<nat>> {
    if remote == [] then [] else AllPorts(remote[..|remote| - 1]) + Ports(remote[|remote| - 1].1)
  }

  lemma AllPortsOfNext(remote: seq<(string, seq<Recorded>)>, i: nat)
    requires i < |remote|
    ensures AllPorts(remote[..i + 1]) == AllPorts(remote[..i]) + Ports(remote[i].1)
  {
    var more := remote[..i + 1];
    assert more[..i] == remote[..i];
  }

  lemma {:induction false} AllPortsOfPrefix(remote: seq<(string, seq<Recorded>)>, i: nat, left: set<nat>)
    requires i <= |remote| && AllFree(AllPorts(remote), left)
    ensures AllFree(AllPorts(remote[..i]), left)
  {
    if i == |remote| {
      assert remote[..i] == remote;
    } else {
      var front := remote[..|remote| - 1];
      FreeSplits(AllPorts(front), Ports(remote[|remote| - 1].1), left);
      AllPortsOfPrefix(front, i, left);
      assert front[..i] == remote[..i];
    }
  }

  /** Entities are recorded only on endpoints that this agent has. */
  ghost predicate OnlyKnown(local: set<string>, remote: seq<(string, seq<Recorded>)>) {
    forall i | 0 <= i < |remote| :: remote[i].1 != [] ==> remote[i].0 in local
  }

  /** The records can be loaded: their endpoints are known, and their ports are named, free and distinct. */
  ghost predicate Loadable(local: set<string>, remote: seq<(string, seq<Recorded>)>, left: set<nat>) {
    OnlyKnown(local, remote) && AllFree(AllPorts(remote), left)
  }

  /** So far everything is loaded; the next record can be or cannot, and if not, then neither can all of them. */
  lemma LoadableNext(local: set<string>, remote: seq<(string, seq<Recorded>)>, i: nat, left: set<nat>)
    requires i < |remote| && Loadable(local, remote[..i], left)
    ensures var ok := (remote[i].1 != [] ==> remote[i].0 in local)
                      && AllFree(Ports(remote[i].1), left - Named(AllPorts(remote[..i])));
            && (ok <==> Loadable(local, remote[..i + 1], left))
            && (!ok ==> !Loadable(local, remote, left))
  {
    AllPortsOfNext(remote, i);
    FreeSplits(AllPorts(remote[..i]), Ports(remote[i].1), left);
    assert remote[..i + 1] == remote[..i] + [remote[i]];
    KnownNext(local, remote, i);
    hide AllFree, AllPorts, Ports, Named, OnlyKnown;
    if Loadable(local, remote, left) {
      AllPortsOfPrefix(remote, i + 1, left);
    }
  }

  /** What holds in the loop over the records when the first of them are loaded. */
  ghost predicate Started(local: set<string>, names: set<string>, done: seq<(string, seq<Recorded>)>,
                          left0: set<nat>, left: set<nat>, m: Allocated) {
    && m.Keys == (local - names) + Endpoints(done) && AllAsRecorded(done, m)
    && Loadable(local, done, left0) && left == left0 - Named(AllPorts(done))
  }

  lemma StartedFits(local: set<string>, remote: seq<(string, seq<Recorded>)>, i: nat, left0: set<nat>,
                    left: set<nat>, m: Allocated)
    requires AllRecordedOnce(remote) && i < |remote|
    requires Started(local, Endpoints(remote), remote[..i], left0, left, m)
    ensures remote[i].0 !in m && NewEntities(remote[i].1, map[])
    ensures !((remote[i].1 != [] ==> remote[i].0 in local) && AllFree(Ports(remote[i].1), left)) ==>
              !Loadable(local, remote, left0)
  {
    NotYetLoaded(local, remote, i);
    LoadableNext(local, remote, i, left0);
    hide Loadable, AllFree, Ports, AllPorts, Named, AllAsRecorded, Endpoints;
  }

  lemma StartedNext(local: set<string>, remote: seq<(string, seq<Recorded>)>, i: nat, left0: set<nat>,
                    left: set<nat>, m: Allocated, left': set<nat>, m': Allocated)
    requires i < |remote| && Started(local, Endpoints(remote), remote[..i], left0, left, m)
    requires (remote[i].1 != [] ==> remote[i].0 in local) && AllFree(Ports(remote[i].1), left)
    requires left' == left - Named(Ports(remote[i].1)) && m'.Keys == m.Keys + {remote[i].0}
    requires remote[i].0 !in m && (forall e :: e in m ==> m'[e] == m[e]) && AsRecorded(remote[i].1, m'[remote[i].0])
    ensures Started(local, Endpoints(remote), remote[..i + 1], left0, left', m')
  {
    OneEndpointMore(remote, i);
    LoadableNext(local, remote, i, left0);
    AllPortsOfNext(remote, i);
    NamedJoins(AllPorts(remote[..i]), Ports(remote[i].1));
    hide Loadable, AllFree, Ports, AllPorts, Named, AllAsRecorded, Endpoints, AsRecorded;
    AsRecordedMore(remote, i, m, m');
  }

  lemma KnownNext(local: set<string>, remote: seq<(string, seq<Recorded>)>, i: nat)
    requires i < |remote| && OnlyKnown(local, remote[..i])
    ensures OnlyKnown(local, remote[..i + 1]) <==> remote[i].1 != [] ==> remote[i].0 in local
    ensures OnlyKnown(local, remote) ==> OnlyKnown(local, remote[..i + 1])
  {
    var more := remote[..i + 1];
    assert more[i] == remote[i];
    assert forall k :: 0 <= k < i ==> more[k] == remote[..i][k];
  }

  ghost predicate AllAsRecorded(remote: seq<(string, seq<Recorded>)>, m: Allocated) {
    forall i | 0 <= i < |remote| :: remote[i].0 in m && AsRecorded(remote[i].1, m[remote[i].0])
  }

  lemma NotYetLoaded(local: set<string>, remote: seq<(string, seq<Recorded>)>, i: nat)
    requires AllRecordedOnce(remote) && i < |remote|
    ensures remote[i].0 !in (local - Endpoints(remote)) + Endpoints(remote[..i])
  {
  }

  lemma OneEndpointMore(remote: seq<(string, seq<Recorded>)>, i: nat)
    requires i < |remote|
    ensures Endpoints(remote[..i + 1]) == Endpoints(remote[..i]) + {remote[i].0}
  {
    var done, more := remote[..i], remote[..i + 1];
    assert more == done + [remote[i]];
    assert more[i] == remote[i];
    assert forall k | 0 <= k < i :: more[k] == done[k];
  }

  lemma AsRecordedMore(remote: seq<(string, seq<Recorded>)>, i: nat, m: Allocated, m': Allocated)
    requires i < |remote| && AllAsRecorded(remote[..i], m)
    requires forall e :: e in m ==> e in m' && m'[e] == m[e]
    requires remote[i].0 in m' && AsRecorded(remote[i].1, m'[remote[i].0])
    ensures AllAsRecorded(remote[..i + 1], m')
  {
    hide AsRecorded;
    var done, more := remote[..i], remote[..i + 1];
    assert more == done + [remote[i]];
    forall k | 0 <= k < |more| ensures more[k].0 in m' && AsRecorded(more[k].1, m'[more[k].0]) {
      if k < i {
        assert more[k] == done[k];
      }
    }
  }

  class RpcAgentManager {
    const portsRange: seq<(nat, nat)>
    ghost var total: set<nat>
    var leftPorts: set<nat>
    var allockedPorts: Allocated
    /** pid of a log reader -> the port lent to it */
    var websockets: map<nat, nat>

    ghost predicate Valid()
      reads this
    {
      && (forall port :: port in total <==> InSomeRange(portsRange, port))
      && Conserved(total, leftPorts, allockedPorts, websockets)
    }

    constructor (portsRange: seq<(nat, nat)>)
      ensures this.portsRange == portsRange && leftPorts == {} && allockedPorts == map[] && websockets == map[]
    {
      this.portsRange := portsRange;
      total := {};
      leftPorts := {};
      allockedPorts := map[];
      websockets := map[];
    }

    /** The port loop of __init__; ranges below port 1024 are refused. */
    method FillLeftPorts() returns (ok: bool)
      requires leftPorts == {} && allockedPorts == map[] && websockets == map[]
      modifies this
      ensures ok <==> forall i | 0 <= i < |portsRange| :: portsRange[i].0 >= 1024
      ensures ok ==> Valid() && leftPorts == total
      ensures allockedPorts == map[] && websockets == map[]
    {
      for i := 0 to |portsRange|
        invariant forall k | 0 <= k < i :: portsRange[k].0 >= 1024
        invariant forall port :: port in leftPorts <==> InSomeRange(portsRange[..i], port)
        invariant allockedPorts == map[] && websockets == map[]
      {
        var (down, up) := portsRange[i];
        if down < 1024 {
          return false;
        }
        ghost var filled := leftPorts;
        var port := down;
        while port < up
          invariant down <= port && (port <= up || port == down)
          invariant forall p :: p in leftPorts <==> p in filled || down <= p < port
          invariant allockedPorts == map[] && websockets == map[]
        {
          leftPorts := leftPorts + {port};
          port := port + 1;
        }
        assert forall p :: p in leftPorts <==> p in filled || portsRange[i].0 <= p < portsRange[i].1;
        MoreRanges(portsRange, i);
      }
      total := leftPorts;
      assert portsRange[..|portsRange|] == portsRange;
      ok := true;
    }

    method InRange(port: nat) returns (b: bool)
      ensures b <==> InSomeRange(portsRange, port)
    {
      for i := 0 to |portsRange|
        invariant forall k | 0 <= k < i :: !(portsRange[k].0 <= port < portsRange[k].1)
      {
        if portsRange[i].0 <= port < portsRange[i].1 {
          return true;
        }
      }
      return false;
    }

    /** allocked_ports.setdefault(endpoint, dict()). */
    method AddEndpoint(endpoint: string)
      requires Valid()
      modifies this`allockedPorts
      ensures Valid()
      ensures allockedPorts == WithEndpoint(old(allockedPorts), endpoint)
    {
      EndpointConserves(total, leftPorts, allockedPorts, websockets, endpoint);
      if endpoint !in allockedPorts {
        allockedPorts := allockedPorts[endpoint := map[]];
      }
    }

    /** _placeholder: a new entity without ports. */
    method Placeholder(endpoint: string, entity: nat) returns (r: Result<(), Error>)
      requires Valid()
      modifies this`allockedPorts
      ensures Valid()
      ensures r == if endpoint !in old(allockedPorts) then Err(UnknownEndpoint)
                   else if entity in old(allockedPorts)[endpoint] then Err(EntityExists) else Ok(())
      ensures allockedPorts == if r.Ok? then With(old(allockedPorts), endpoint, entity, {}) else old(allockedPorts)
    {
      if endpoint !in allockedPorts {
        return Err(UnknownEndpoint);
      }
      if entity in allockedPorts[endpoint] {
        return Err(EntityExists);
      }
      EmptyEntityConserves(total, leftPorts, allockedPorts, websockets, endpoint, entity);
      allockedPorts := With(allockedPorts, endpoint, entity, {});
      return Ok(());
    }

    /** One entity of the loop of post_start; the server's record names an entity once. */
    method LoadEntity(endpoint: string, entity: nat, ports: seq<Option<nat>>) returns (r: Result<(), Error>)
      requires Valid() && endpoint in allockedPorts && entity !in allockedPorts[endpoint]
      modifies this
      ensures Valid() && total == old(total) && websockets == old(websockets)
      ensures r.Ok? <==> AllFree(ports, old(leftPorts))
      ensures r.Err? ==> r.error == if None in ports then NoneInPorts else PortNotAvailable
      ensures var taken := if r.Ok? then Named(ports) else {};
              && leftPorts == old(leftPorts) - taken
              && allockedPorts == With(old(allockedPorts), endpoint, entity, taken)
    {
      var placed := Placeholder(endpoint, entity);
      hide Conserved;
      ghost var before := allockedPorts;
      if ports == [] {
        assert Named(ports) == {};
        return Ok(());
      }
      if None in ports {
        return Err(NoneInPorts);
      }
      var frozen := FreezePorts(endpoint, entity, ports);
      ghost var taken :| Run(ports, old(leftPorts), taken)
                         && frozen == if |taken| == |ports| then Ok(Elements(taken)) else Err(PortNotAvailable);
      NamedRequest(ports, old(leftPorts), taken);
      if frozen.Err? {
        return Err(frozen.error);
      }
      TakenAsNamed(ports, old(leftPorts), taken);
      WithWith(old(allockedPorts), endpoint, entity, {}, Named(ports));
      assert before[endpoint][entity] + Named(ports) == Named(ports);
      return Ok(());
    }

    /** The entities of one endpoint in post_start: each gets exactly the ports of its record. */
    method LoadEntities(endpoint: string, entitys: seq<Recorded>) returns (r: Result<(), Error>)
      requires Valid() && endpoint in allockedPorts && NewEntities(entitys, allockedPorts[endpoint])
      modifies this
      ensures Valid() && total == old(total) && websockets == old(websockets)
      ensures allockedPorts.Keys == old(allockedPorts).Keys
      ensures forall e :: e in old(allockedPorts) && e != endpoint ==> allockedPorts[e] == old(allockedPorts)[e]
      ensures r.Ok? <==> AllFree(Ports(entitys), old(leftPorts))
      ensures r.Ok? ==> leftPorts == old(leftPorts) - Named(Ports(entitys))
      ensures r.Ok? ==> AsRecorded(entitys, allockedPorts[endpoint])
    {
      for i := 0 to |entitys|
        invariant Valid() && total == old(total) && websockets == old(websockets)
        invariant allockedPorts.Keys == old(allockedPorts).Keys
        invariant forall e :: e in old(allockedPorts) && e != endpoint ==> allockedPorts[e] == old(allockedPorts)[e]
        invariant AsRecorded(entitys[..i], allockedPorts[endpoint])
        invariant NewEntities(entitys[i..], allockedPorts[endpoint])
        invariant AllFree(Ports(entitys[..i]), old(leftPorts))
        invariant leftPorts == old(leftPorts) - Named(Ports(entitys[..i]))
      {
        hide Conserved, Valid, AllFree, Ports, Named, AsRecorded, NewEntities;
        var record := entitys[i];
        ghost var before := allockedPorts[endpoint];
        NextRecord(entitys, i, before);
        FreeNext(entitys, i, old(leftPorts));
        var loaded := LoadEntity(endpoint, record.entity, record.ports);
        if loaded.Err? {
          return loaded;
        }
      }
      assert entitys[..|entitys|] == entitys;
      return Ok(());
    }

    /**
     * The part of post_start that fills allocked_ports from the server's record of the agent.  It
     * returns exactly if the records can be loaded; then every endpoint of either side is there,
     * every recorded entity has exactly its ports, and all other ports are free.
     */
    method PostStart(local: set<string>, remote: seq<(string, seq<Recorded>)>) returns (r: Result<(), Error>)
      requires Valid() && allockedPorts == map[] && AllRecordedOnce(remote)
      modifies this
      ensures Valid() && total == old(total) && websockets == old(websockets)
      ensures r.Ok? <==> Loadable(local, remote, old(leftPorts))
      ensures r.Ok? ==> allockedPorts.Keys == local + Endpoints(remote) && AllAsRecorded(remote, allockedPorts)
      ensures r.Ok? ==> leftPorts == old(leftPorts) - Named(AllPorts(remote))
    {
      var names := Endpoints(remote);
      AddEndpoints(local - names);
      for i := 0 to |remote|
        invariant Valid() && total == old(total) && websockets == old(websockets)
        invariant Started(local, names, remote[..i], old(leftPorts), leftPorts, allockedPorts)
      {
        hide Conserved, Endpoints, AllFree, AllPorts, Ports, Named, Started, Loadable, NewEntities;
        ghost var left, before := leftPorts, allockedPorts;
        var (endpoint, entitys) := remote[i];
        StartedFits(local, remote, i, old(leftPorts), left, before);
        var loaded := LoadEndpoint(endpoint, entitys, endpoint in local);
        if loaded.Err? {
          return loaded;
        }
        StartedNext(local, remote, i, old(leftPorts), left, before, leftPorts, allockedPorts);
      }
      assert remote[..|remote|] == remote;
      return Ok(());
    }

    /** One turn of its loop over the recorded endpoints. */
    method LoadEndpoint(endpoint: string, entitys: seq<Recorded>, known: bool) returns (r: Result<(), Error>)
      requires Valid() && endpoint !in allockedPorts && NewEntities(entitys, map[])
      modifies this
      ensures Valid() && total == old(total) && websockets == old(websockets)
      ensures allockedPorts.Keys == old(allockedPorts).Keys + {endpoint}
      ensures forall e :: e in old(allockedPorts) ==> allockedPorts[e] == old(allockedPorts)[e]
      ensures r.Ok? <==> (entitys != [] ==> known) && AllFree(Ports(entitys), old(leftPorts))
      ensures entitys != [] && !known ==> r == Err(EndpointMissing)
      ensures r.Ok? ==> leftPorts == old(leftPorts) - Named(Ports(entitys))
      ensures r.Ok? ==> AsRecorded(entitys, allockedPorts[endpoint])
    {
      AddEndpoint(endpoint);
      hide Conserved, AllFree, Ports, Named;
      if !known && entitys != [] {
        return Err(EndpointMissing);
      }
      r := LoadEntities(endpoint, entitys);
    }

    method AddEndpoints(endpoints: set<string>)
      requires Valid() && allockedPorts == map[]
      modifies this`allockedPorts
      ensures Valid() && allockedPorts.Keys == endpoints
      ensures forall e :: e in allockedPorts ==> allockedPorts[e] == map[]
    {
      var rest := endpoints;
      while rest != {}
        invariant Valid() && rest <= endpoints && allockedPorts.Keys == endpoints - rest
        invariant forall e :: e in allockedPorts ==> allockedPorts[e] == map[]
        decreases rest
      {
        var endpoint :| endpoint in rest;
        AddEndpoint(endpoint);
        rest := rest - {endpoint};
      }
    }

    /** _frozen_ports: all of the request or nothing. */
    method FreezePorts(endpoint: string, entity: nat, ports: seq<Option<nat>>) returns (r: Result<set<nat>, Error>)
      requires Valid()
      requires endpoint in allockedPorts && entity in allockedPorts[endpoint]
      modifies this
      ensures Valid() && total == old(total) && websockets == old(websockets)
      ensures r.Err? ==> leftPorts == old(leftPorts) && allockedPorts == old(allockedPorts)
      ensures ports == [] ==> r == Err(NoPortsRequested)
      ensures ports != [] ==> exists taken ::
                && Run(ports, old(leftPorts), taken)
                && r == if |taken| == |ports| then Ok(Elements(taken)) else Err(PortNotAvailable)
      ensures r.Ok? ==>
                && r.value <= old(leftPorts)
                && leftPorts == old(leftPorts) - r.value
                && allockedPorts == With(old(allockedPorts), endpoint, entity, old(allockedPorts)[endpoint][entity] + r.value)
    {
      if ports == [] {
        return Err(NoPortsRequested);
      }
      FreeIsNotHeld(total, leftPorts, allockedPorts, websockets, endpoint, entity);
      hide Conserved, With;
      ghost var taken: seq<nat> := [];
      var got: set<nat> := {};
      WithSame(allockedPorts, endpoint, entity);
      ghost var held := allockedPorts[endpoint][entity];
      assert held + {} == held;
      for i := 0 to |ports|
        invariant Picks(ports, old(leftPorts), taken) && |taken| == i && got == Elements(taken)
        invariant total == old(total) && websockets == old(websockets)
        invariant leftPorts == old(leftPorts) - got
        invariant allockedPorts == With(old(allockedPorts), endpoint, entity, held + got)
      {
        var missing := match ports[i] case Some(named) => named !in leftPorts case None => leftPorts == {};
        if missing {
          assert Stuck(ports, old(leftPorts), taken);
          Rollback(endpoint, entity, got, old(leftPorts), old(allockedPorts));
          return Err(PortNotAvailable);
        }
        var port: nat;
        match ports[i] {
          case Some(named) => port := named;
          case None => port :| port in leftPorts;
        }
        leftPorts := leftPorts - {port};
        WithWith(old(allockedPorts), endpoint, entity, held + got, held + got + {port});
        allockedPorts := With(allockedPorts, endpoint, entity, allockedPorts[endpoint][entity] + {port});
        assert held + got + {port} == held + (got + {port});
        got := got + {port};
        taken := taken + [port];
      }
      assert Run(ports, old(leftPorts), taken);
      FreezeConserves(total, old(leftPorts), old(allockedPorts), websockets, endpoint, entity, got);
      return Ok(got);
    }

    /** The except branch of _frozen_ports. */
    method Rollback(endpoint: string, entity: nat, got: set<nat>, ghost left: set<nat>, ghost before: Allocated)
      requires endpoint in before && entity in before[endpoint]
      requires got <= left && before[endpoint][entity] * left == {}
      requires leftPorts == left - got
      requires allockedPorts == With(before, endpoint, entity, before[endpoint][entity] + got)
      modifies this`leftPorts, this`allockedPorts
      ensures leftPorts == left && allockedPorts == before
    {
      hide With;
      var undo := got;
      while undo != {}
        invariant undo <= got
        invariant leftPorts == left - undo
        invariant allockedPorts == With(before, endpoint, entity, before[endpoint][entity] + undo)
        decreases undo
      {
        var p :| p in undo;
        RollbackStep(before, left, endpoint, entity, undo, p);
        leftPorts := leftPorts + {p};
        allockedPorts := With(allockedPorts, endpoint, entity, allockedPorts[endpoint][entity] - {p});
        undo := undo - {p};
      }
      RollbackDone(before, left, endpoint, entity);
    }

    /** free_ports: takes the ports from whichever entities hold them and returns the ones nobody held. */
    method FreePorts(ports: set<nat>) returns (rest: set<nat>)
      requires Valid()
      modifies this`leftPorts, this`allockedPorts
      ensures Valid()
      ensures allockedPorts == Freed(old(allockedPorts), ports)
      ensures HeldAmong(old(allockedPorts), ports, ports - rest) && rest <= ports
      ensures leftPorts == old(leftPorts) + (ports - rest)
    {
      ghost var before, left := allockedPorts, leftPorts;
      assert OneHolder(before);
      hide Conserved, Freed, HeldAmong;
      rest := FreeEach(ports);
      FreeConserves(total, left, before, websockets, ports, ports - rest);
    }

    method FreeEach(ports: set<nat>) returns (rest: set<nat>)
      requires OneHolder(allockedPorts)
      modifies this`leftPorts, this`allockedPorts
      ensures allockedPorts == Freed(old(allockedPorts), ports)
      ensures rest <= ports && HeldAmong(old(allockedPorts), ports, ports - rest)
      ensures leftPorts == old(leftPorts) + (ports - rest)
    {
      hide OneHolder, Freeing, Freed, With, HeldAmong;
      ghost var before := allockedPorts;
      rest := ports;
      var owners := Owners(allockedPorts);
      FreeingStart(before, ports);
      while owners != {}
        invariant owners <= Owners(before) && rest <= ports
        invariant Freeing(before, ports, owners, allockedPorts, rest)
        invariant leftPorts == old(leftPorts) + (ports - rest)
        decreases owners
      {
        var owner :| owner in owners;
        var endpoint, entity := owner.0, owner.1;
        FreeingStep(before, ports, owners, allockedPorts, rest, endpoint, entity);
        ghost var wanted := rest;
        rest := FreeFrom(endpoint, entity, rest);
        MovedBack(old(leftPorts), ports, wanted, rest);
        owners := owners - {owner};
      }
      FreeingDone(before, ports, allockedPorts, rest);
    }

    /** The ports of one entity that are still wanted go back to the free set. */
    method FreeFrom(endpoint: string, entity: nat, ports: set<nat>) returns (rest: set<nat>)
      requires endpoint in allockedPorts && entity in allockedPorts[endpoint]
      modifies this`leftPorts, this`allockedPorts
      ensures var held := old(allockedPorts)[endpoint][entity];
              && rest == ports - held * ports
              && allockedPorts == With(old(allockedPorts), endpoint, entity, held - held * ports)
              && leftPorts == old(leftPorts) + (ports - rest)
    {
      var hit := allockedPorts[endpoint][entity] * ports;
      allockedPorts := With(allockedPorts, endpoint, entity, allockedPorts[endpoint][entity] - hit);
      leftPorts := leftPorts + hit;
      rest := ports - hit;
    }

    /** frozen_ports up to its yield.  A failed allocation leaves a new entity behind, without ports. */
    method EnterFrozenPorts(endpoint: string, entity: nat, ports: seq<Option<nat>>)
        returns (r: Result<(set<nat>, bool), Error>)
      requires Valid()
      modifies this
      ensures Valid() && total == old(total) && websockets == old(websockets)
      ensures endpoint !in old(allockedPorts) ==>
                r == Err(UnknownEndpoint) && leftPorts == old(leftPorts) && allockedPorts == old(allockedPorts)
      ensures endpoint in old(allockedPorts) ==>
                var isNew := entity !in old(allockedPorts)[endpoint];
                var held := if isNew then {} else old(allockedPorts)[endpoint][entity];
                match r
                case Ok((taken, new')) =>
                  && new' == isNew && taken <= old(leftPorts) && leftPorts == old(leftPorts) - taken
                  && allockedPorts == With(old(allockedPorts), endpoint, entity, held + taken)
                  && exists run :: Run(ports, old(leftPorts), run) && |run| == |ports| && taken == Elements(run)
                case Err(_) =>
                  leftPorts == old(leftPorts) && allockedPorts == With(old(allockedPorts), endpoint, entity, held)
    {
      if endpoint !in allockedPorts {
        return Err(UnknownEndpoint);
      }
      ghost var before := allockedPorts;
      var isNew := entity !in allockedPorts[endpoint];
      if isNew {
        EmptyEntityConserves(total, leftPorts, allockedPorts, websockets, endpoint, entity);
        allockedPorts := With(allockedPorts, endpoint, entity, {});
      } else {
        WithSame(allockedPorts, endpoint, entity);
      }
      ghost var held := allockedPorts[endpoint][entity];
      assert allockedPorts == With(before, endpoint, entity, held);
      hide Conserved, With, Run;
      var frozen := FreezePorts(endpoint, entity, ports);
      match frozen {
        case Err(e) => return Err(e);
        case Ok(taken) =>
          WithWith(before, endpoint, entity, held, held + taken);
          return Ok((taken, isNew));
      }
    }

    /**
     * frozen_ports from its yield on.  A failed body gives its ports back; a new
     * entity is dropped, which loses ports exactly when others were added to it meanwhile.
     */
    method ExitFrozenPorts(endpoint: string, entity: nat, taken: set<nat>, isNew: bool, failed: bool)
      requires Valid() && endpoint in allockedPorts
      modifies this`leftPorts, this`allockedPorts
      ensures !failed ==> leftPorts == old(leftPorts) && allockedPorts == old(allockedPorts)
      ensures failed ==>
                && HeldAmong(old(allockedPorts), taken, leftPorts - old(leftPorts))
                && leftPorts >= old(leftPorts)
                && allockedPorts == (var freed := Freed(old(allockedPorts), taken);
                                     if isNew then Without(freed, endpoint, entity) else freed)
      ensures Valid() <==> !(failed && isNew && entity in old(allockedPorts)[endpoint]
                             && old(allockedPorts)[endpoint][entity] - taken != {})
    {
      if failed {
        ghost var before, left := allockedPorts, leftPorts;
        assert forall port | port in left :: !Held(before, port);
        hide Conserved, Freed;
        var rest := FreePorts(taken);
        assert leftPorts - left == taken - rest;
        if isNew {
          allockedPorts := DropEntity(endpoint, entity);
        }
      }
    }

    method DropEntity(endpoint: string, entity: nat) returns (m: Allocated)
      requires Valid() && endpoint in allockedPorts
      ensures m == Without(allockedPorts, endpoint, entity)
      ensures Conserved(total, leftPorts, m, websockets) <==>
                !(entity in allockedPorts[endpoint] && allockedPorts[endpoint][entity] != {})
    {
      m := Without(allockedPorts, endpoint, entity);
      if entity in allockedPorts[endpoint] {
        DropConserves(total, leftPorts, allockedPorts, websockets, endpoint, entity);
      } else {
        assert allockedPorts[endpoint] - {entity} == allockedPorts[endpoint];
        assert m == allockedPorts;
      }
    }

    /** readlog: the largest free port goes to the reader, and comes back if the launch failed (pid None). */
    method ReadLog(maxWebsockets: nat, launched: Option<nat>) returns (r: Result<nat, Error>)
      requires Valid()
      requires launched.Some? ==> launched.value !in websockets
      modifies this`leftPorts, this`websockets
      ensures Valid()
      ensures r == if |old(websockets)| >= maxWebsockets then Err(TooManyWebsockets)
                   else if old(leftPorts) == {} then Err(NoPortLeft)
                   else Ok(MaxOf(old(leftPorts)))
      ensures r.Ok? && launched.Some? ==>
                && leftPorts == old(leftPorts) - {r.value}
                && websockets == old(websockets)[launched.value := r.value]
      ensures r.Err? || launched.None? ==> leftPorts == old(leftPorts) && websockets == old(websockets)
    {
      if |websockets| >= maxWebsockets {
        return Err(TooManyWebsockets);
      }
      if leftPorts == {} {
        return Err(NoPortLeft);
      }
      var port := MaxOf(leftPorts);
      ghost var before := leftPorts;
      leftPorts := leftPorts - {port};
      match launched {
        case Some(pid) =>
          LendConserves(total, before, allockedPorts, websockets, port, pid);
          websockets := websockets[pid := port];
        case None =>
          leftPorts := leftPorts + {port};
          assert leftPorts == before;
      }
      return Ok(port);
    }

    /** The waiter of a log reader: its port is free again. */
    method ReaderExited(pid: nat)
      requires Valid() && pid in websockets
      modifies this`leftPorts, this`websockets
      ensures Valid()
      ensures leftPorts == old(leftPorts) + {old(websockets)[pid]} && websockets == old(websockets) - {pid}
    {
      ReturnConserves(total, leftPorts, allockedPorts, websockets, pid);
      leftPorts := leftPorts + {websockets[pid]};
      websockets := websockets - {pid};
    }
  }

  lemma MovedBack(left: set<nat>, ports: set<nat>, wanted: set<nat>, rest: set<nat>)
    requires rest <= wanted <= ports
    ensures left + (ports - wanted) + (wanted - rest) == left + (ports - rest)
  {
  }

  /** Every (endpoint, entity) pair of the nested dictionaries. */
  function Owners(m: Allocated): set<(string, nat)> {
    set endpoint, entity | endpoint in m && entity in m[endpoint] :: (endpoint, entity)
  }

  /** free_ports in mid-flight: the owners in todo have not been visited. */
  ghost predicate Freeing(before: Allocated, ports: set<nat>, todo: set<(string, nat)>, m: Allocated, rest: set<nat>) {
    && m.Keys == before.Keys
    && (forall e | e in before :: m[e].Keys == before[e].Keys)
    && (forall e, n | e in before && n in before[e] ::
          m[e][n] == if (e, n) in todo then before[e][n] else before[e][n] - ports)
    && rest <= ports
    && (forall port | port in ports ::
          port in rest <==> forall e, n: nat :: Holds(before, e, n, port) ==> (e, n) in todo)
  }

  lemma FreeingStart(m: Allocated, ports: set<nat>)
    ensures Freeing(m, ports, Owners(m), m, ports)
  {
    forall port | port in ports ensures forall e, n: nat :: Holds(m, e, n, port) ==> (e, n) in Owners(m) {
    }
  }

  lemma FreeingStep(before: Allocated, ports: set<nat>, todo: set<(string, nat)>, m: Allocated, rest: set<nat>,
                    endpoint: string, entity: nat)
    requires OneHolder(before) && todo <= Owners(before)
    requires Freeing(before, ports, todo, m, rest) && (endpoint, entity) in todo
    ensures endpoint in m && entity in m[endpoint]
    ensures var hit := m[endpoint][entity] * rest;
            Freeing(before, ports, todo - {(endpoint, entity)},
                    With(m, endpoint, entity, m[endpoint][entity] - hit), rest - hit)
  {
    var held := before[endpoint][entity];
    var hit := held * rest;
    forall port | port in held && port in ports ensures port in rest {
      assert Holds(before, endpoint, entity, port);
    }
    assert held - hit == held - ports;
    var left := todo - {(endpoint, entity)};
    forall port | port in ports
      ensures port in rest - hit <==> forall e, n: nat :: Holds(before, e, n, port) ==> (e, n) in left {
      if port in hit {
        assert Holds(before, endpoint, entity, port);
      }
    }
  }

  lemma FreeingDone(before: Allocated, ports: set<nat>, m: Allocated, rest: set<nat>)
    requires Freeing(before, ports, {}, m, rest)
    ensures rest <= ports && m == Freed(before, ports) && HeldAmong(before, ports, ports - rest)
  {
    var freed := Freed(before, ports);
    forall e | e in before ensures m[e] == freed[e] {
    }
  }

  lemma FreeIsNotHeld(total: set<nat>, left: set<nat>, m: Allocated, lent: map<nat, nat>, endpoint: string, entity: nat)
    requires Conserved(total, left, m, lent) && endpoint in m && entity in m[endpoint]
    ensures m[endpoint][entity] * left == {}
  {
    forall port | port in m[endpoint][entity] ensures port !in left {
      assert Holds(m, endpoint, entity, port);
    }
  }

  lemma MoreRanges(ranges: seq<(nat, nat)>, i: nat)
    requires i < |ranges|
    ensures forall port :: InSomeRange(ranges[..i + 1], port) <==>
              InSomeRange(ranges[..i], port) || ranges[i].0 <= port < ranges[i].1
  {
    var more, less := ranges[..i + 1], ranges[..i];
    forall port ensures InSomeRange(more, port) <==> InSomeRange(less, port) || ranges[i].0 <= port < ranges[i].1 {
      if k :| 0 <= k < |less| && less[k].0 <= port < less[k].1 {
        assert more[k] == less[k];
      }
      if k :| 0 <= k < |more| && more[k].0 <= port < more[k].1 {
        assert k < i ==> more[k] == less[k];
      }
      if ranges[i].0 <= port < ranges[i].1 {
        assert more[i] == ranges[i];
      }
    }
  }
}
