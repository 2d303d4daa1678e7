/**
 * The bounded pool of Redis connections (ConnectionPoolEx in goperation/redis/connection.py)
 * and its heartbeat (heart_beat_loop in goperation/redis/client.py).
 *
 * Making a connection sleeps while the pool's lock is held; other green threads may
 * release and kick out connections meanwhile, which need no lock.
 */
module ConnectionPool {
  import opened Wrappers

  datatype Error = TooManyConnections | ConnectFailed | NotInUse

  /** making: the connections that are being made. */
  datatype Pool = Pool(created: int, available: seq<nat>, inUse: set<nat>, making: nat)

  datatype Action =
    | Get
    | Made(connection: nat)
    | MakeFails
    | Release(connection: nat)
    | KickOut(connection: nat)

  /** get_connection up to where it sleeps, if it does. */
  function GetStep(p: Pool, max: nat): Outcome<Pool> {
    if p.available != [] then
      Moved(p.(available := p.available[1..], inUse := p.inUse + {p.available[0]}))
    else if p.created >= max then Raised(p)
    else Moved(p.(making := p.making + 1))
  }

  /** locked: whether get_connection holds the lock while it makes a connection, as the code does. */
  function Next(p: Pool, max: nat, locked: bool, a: Action): Outcome<Pool> {
    match a
    case Get => if locked && p.making > 0 then Disabled else GetStep(p, max)
    case Made(c) =>
      if p.making == 0 || c in p.available || c in p.inUse then Disabled
      else Moved(p.(created := p.created + 1, inUse := p.inUse + {c}, making := p.making - 1))
    case MakeFails => if p.making == 0 then Disabled else Raised(p.(making := p.making - 1))
    case Release(c) =>
      if c !in p.inUse then Raised(p)
      else Moved(p.(available := p.available + [c], inUse := p.inUse - {c}))
    case KickOut(c) =>
      if c !in p.inUse then Raised(p)
      else Moved(p.(created := p.created - 1, inUse := p.inUse - {c}))
  }

  function Exec(p: Pool, max: nat, locked: bool, actions: seq<Action>): Option<Pool>
    decreases |actions|
  {
    if actions == [] then Some(p)
    else
      match Next(p, max, locked, actions[0])
      case Disabled => None
      case Moved(p') => Exec(p', max, locked, actions[1..])
      case Raised(p') => Exec(p', max, locked, actions[1..])
  }

  const EMPTY := Pool(0, [], {}, 0)

  /** Every connection that counts is idle or in use, once. */
  ghost predicate Counted(p: Pool) {
    && p.created == |p.available| + |p.inUse|
    && (forall i, j :: 0 <= i < j < |p.available| ==> p.available[i] != p.available[j])
    && (forall c :: c in p.available ==> c !in p.inUse)
  }

  /** There is room for the connection that is being made. */
  ghost predicate Bounded(p: Pool, max: nat) {
    p.created + p.making <= max && p.making <= 1
  }

  lemma GetKeeps(p: Pool, max: nat)
    requires Counted(p)
    ensures Counted(GetStep(p, max).state)
  {
    if p.available != [] {
      assert p.available == [p.available[0]] + p.available[1..];
      assert p.available[0] in p.available;
    }
  }

  lemma ReleaseKeeps(p: Pool, c: nat)
    requires Counted(p) && c in p.inUse
    ensures Counted(p.(available := p.available + [c], inUse := p.inUse - {c}))
  {
    assert |p.inUse - {c}| == |p.inUse| - 1;
  }

  lemma NextKeeps(p: Pool, max: nat, locked: bool, a: Action)
    requires Counted(p) && !Next(p, max, locked, a).Disabled?
    ensures Counted(Next(p, max, locked, a).state)
    ensures locked && Bounded(p, max) ==> Bounded(Next(p, max, locked, a).state, max)
  {
    if a.Get? {
      GetKeeps(p, max);
      hide Counted;
    } else if a.Release? && a.connection in p.inUse {
      ReleaseKeeps(p, a.connection);
      hide Counted;
    } else if a.KickOut? && a.connection in p.inUse {
      assert |p.inUse - {a.connection}| == |p.inUse| - 1;
    }
  }

  /**
   * A call gets the connection that was idle longest; without one it makes a new one, or
   * raises and changes nothing exactly if there are as many as there may be.
   */
  lemma GetMeaning(p: Pool, max: nat)
    requires p.making == 0
    ensures var got := Next(p, max, true, Get);
            && (got.Raised? <==> p.available == [] && p.created >= max) && !got.Disabled?
            && (got.Raised? ==> got.state == p)
            && (p.available != [] ==> got.state.available == p.available[1..] && p.available[0] in got.state.inUse
                                      && got.state.inUse == p.inUse + {p.available[0]} && got.state.created == p.created)
            && (p.available == [] && p.created < max ==> got.state == p.(making := 1))
  {
  }

  /** It has a new connection for itself, or raises and leaves the pool as it was before. */
  lemma MadeMeaning(p: Pool, max: nat, c: nat)
    requires p.available == [] && p.created < max && p.making == 0 && c !in p.inUse
    ensures var making := Next(p, max, true, Get).state;
            && Next(making, max, true, MakeFails) == Raised(p)
            && Next(making, max, true, Made(c)) == Moved(p.(created := p.created + 1, inUse := p.inUse + {c}))
  {
  }

  /** Only a connection in use can be given back, or kicked out; then it is the last idle one, or is gone. */
  lemma GivenBackMeaning(p: Pool, max: nat, locked: bool, c: nat)
    requires Counted(p)
    ensures var back, out := Next(p, max, locked, Release(c)), Next(p, max, locked, KickOut(c));
            && !back.Disabled? && !out.Disabled?
            && (back.Raised? <==> c !in p.inUse) && (out.Raised? <==> c !in p.inUse)
            && (c !in p.inUse ==> back.state == p && out.state == p)
            && (c in p.inUse ==>
                  && back.state.available == p.available + [c] && c !in back.state.inUse
                  && c !in out.state.available && c !in out.state.inUse && out.state.available == p.available)
  {
  }

  /** A connection that was kicked out is not seen again, unless it is made anew. */
  lemma {:induction false} KickedOutStays(p: Pool, max: nat, locked: bool, c: nat, actions: seq<Action>)
    requires c !in p.available && c !in p.inUse && Made(c) !in actions && Exec(p, max, locked, actions).Some?
    ensures var p' := Exec(p, max, locked, actions).value; c !in p'.available && c !in p'.inUse
    decreases |actions|
  {
    if actions != [] {
      assert actions[0] in actions;
      KickedOutStep(p, max, locked, c, actions[0]);
      hide Next;
      KickedOutStays(Next(p, max, locked, actions[0]).state, max, locked, c, actions[1..]);
    }
  }

  lemma KickedOutStep(p: Pool, max: nat, locked: bool, c: nat, a: Action)
    requires c !in p.available && c !in p.inUse && a != Made(c) && !Next(p, max, locked, a).Disabled?
    ensures var p' := Next(p, max, locked, a).state; c !in p'.available && c !in p'.inUse
  {
  }

  lemma {:induction false} ExecKeeps(p: Pool, max: nat, locked: bool, actions: seq<Action>)
    requires Counted(p) && Exec(p, max, locked, actions).Some?
    ensures Counted(Exec(p, max, locked, actions).value)
    ensures locked && Bounded(p, max) ==> Bounded(Exec(p, max, locked, actions).value, max)
    decreases |actions|
  {
    if actions != [] {
      NextKeeps(p, max, locked, actions[0]);
      hide Counted, Bounded, Next;
      ExecKeeps(Next(p, max, locked, actions[0]).state, max, locked, actions[1..]);
    }
  }

  /** In every run the counter is the number of connections, idle and in use. */
  lemma CounterIsExact(max: nat, locked: bool, actions: seq<Action>)
    requires Exec(EMPTY, max, locked, actions).Some?
    ensures var p := Exec(EMPTY, max, locked, actions).value; p.created == |p.available| + |p.inUse|
  {
    ExecKeeps(EMPTY, max, locked, actions);
  }

  ghost predicate Exceeds(max: nat, locked: bool, actions: seq<Action>) {
    Exec(EMPTY, max, locked, actions).Some? && Exec(EMPTY, max, locked, actions).value.created > max
  }

  /** The pool can grow past its bound if and only if connections are made without the lock. */
  lemma LockBoundsPool(max: nat, locked: bool)
    requires max > 0
    ensures (exists actions :: Exceeds(max, locked, actions)) <==> !locked
  {
    if locked {
      forall actions ensures !Exceeds(max, locked, actions) {
        if Exec(EMPTY, max, locked, actions).Some? {
          ExecKeeps(EMPTY, max, locked, actions);
        }
      }
    } else {
      MakersPass(EMPTY, max, max + 1);
      var p := EMPTY.(making := max + 1);
      MakersFinish(p, max, max + 1);
      ExecAppends(EMPTY, max, Repeated(max + 1), Makings(0, max + 1));
      assert Exceeds(max, false, Repeated(max + 1) + Makings(0, max + 1));
    }
  }

  function Repeated(n: nat): seq<Action> {
    if n == 0 then [] else [Get] + Repeated(n - 1)
  }

  /** n new connections, numbered from k on. */
  function Makings(k: nat, n: nat): seq<Action>
    decreases n
  {
    if n == 0 then [] else [Made(k)] + Makings(k + 1, n - 1)
  }

  lemma {:induction false} MakersPass(p: Pool, max: nat, n: nat)
    requires p.available == [] && p.created < max
    ensures Exec(p, max, false, Repeated(n)) == Some(p.(making := p.making + n))
    decreases n
  {
    if n > 0 {
      MakersPass(p.(making := p.making + 1), max, n - 1);
      assert Repeated(n)[1..] == Repeated(n - 1);
    }
  }

  lemma {:induction false} MakersFinish(p: Pool, max: nat, n: nat)
    requires p.available == [] && p.making == n && p.created >= 0 && forall c :: c in p.inUse ==> c < p.created
    ensures Exec(p, max, false, Makings(p.created, n)).Some?
    ensures Exec(p, max, false, Makings(p.created, n)).value.created == p.created + n
    decreases n
  {
    if n > 0 {
      var p' := p.(created := p.created + 1, inUse := p.inUse + {p.created}, making := n - 1);
      assert Makings(p.created, n)[1..] == Makings(p.created + 1, n - 1);
      MakersFinish(p', max, n - 1);
    }
  }

  lemma {:induction false} ExecAppends(p: Pool, max: nat, a: seq<Action>, b: seq<Action>)
    requires Exec(p, max, false, a).Some?
    ensures Exec(p, max, false, a + b) == Exec(Exec(p, max, false, a).value, max, false, b)
    decreases |a|
  {
    if a == [] {
      assert a + b == b;
    } else {
      assert (a + b)[0] == a[0] && (a + b)[1..] == a[1..] + b;
      ExecAppends(Next(p, max, false, a[0]).state, max, a[1..], b);
    }
  }

  // ---- the pool, and the heartbeat ----

  class ConnectionPoolEx {
    const maxConnections: nat
    var createdConnections: int
    var availableConnections: seq<nat>
    var inUseConnections: set<nat>
    var making: nat

    constructor (max: nat)
      ensures maxConnections == max && View() == EMPTY && Valid()
    {
      maxConnections := max;
      createdConnections, availableConnections, inUseConnections, making := 0, [], {}, 0;
    }

    function View(): Pool
      reads this
    {
      Pool(createdConnections, availableConnections, inUseConnections, making)
    }

    ghost predicate Valid()
      reads this
    {
      Counted(View()) && Bounded(View(), maxConnections)
    }

    /** get_connection with the lock taken; None: a connection is to be made, with the lock still held. */
    method BeginGet() returns (r: Result<Option<nat>, Error>)
      requires Valid() && making == 0
      modifies this`availableConnections, this`inUseConnections, this`making
      ensures Valid()
      ensures r.Err? <==> GetStep(old(View()), maxConnections).Raised?
      ensures View() == GetStep(old(View()), maxConnections).state
      ensures r.Ok? ==>
                if r.value.Some? then old(availableConnections) != [] && r.value.value == old(availableConnections)[0]
                else making == 1
    {
      NextKeeps(View(), maxConnections, true, Get);
      if availableConnections != [] {
        var connection := availableConnections[0];
        availableConnections := availableConnections[1..];
        inUseConnections := inUseConnections + {connection};
        return Ok(Some(connection));
      }
      if createdConnections >= maxConnections {
        return Err(TooManyConnections);
      }
      making := making + 1;
      return Ok(None);
    }

    /** The connection is made, or cannot be; the lock is released. */
    method EndGet(made: Option<nat>)
      requires Valid() && making == 1
      requires made.Some? ==> made.value !in availableConnections && made.value !in inUseConnections
      modifies this`createdConnections, this`inUseConnections, this`making
      ensures Valid()
      ensures View() == Next(old(View()), maxConnections, true, if made.Some? then Made(made.value) else MakeFails).state
    {
      NextKeeps(View(), maxConnections, true, if made.Some? then Made(made.value) else MakeFails);
      making := making - 1;
      if made.Some? {
        createdConnections := createdConnections + 1;
        inUseConnections := inUseConnections + {made.value};
      }
    }

    method Release(connection: nat) returns (r: Result<(), Error>)
      requires Valid()
      modifies this`availableConnections, this`inUseConnections
      ensures Valid()
      ensures r.Ok? <==> connection in old(inUseConnections)
      ensures View() == Next(old(View()), maxConnections, true, Action.Release(connection)).state
    {
      NextKeeps(View(), maxConnections, true, Action.Release(connection));
      if connection !in inUseConnections {
        return Err(NotInUse);
      }
      inUseConnections := inUseConnections - {connection};
      availableConnections := availableConnections + [connection];
      return Ok(());
    }

    method KickOut(connection: nat) returns (r: Result<(), Error>)
      requires Valid()
      modifies this`createdConnections, this`inUseConnections
      ensures Valid()
      ensures r.Ok? <==> connection in old(inUseConnections)
      ensures View() == Next(old(View()), maxConnections, true, Action.KickOut(connection)).state
    {
      if connection !in inUseConnections {
        return Err(NotInUse);
      }
      NextKeeps(View(), maxConnections, true, Action.KickOut(connection));
      inUseConnections := inUseConnections - {connection};
      createdConnections := createdConnections - 1;
      return Ok(());
    }

    /**
     * Heartbeats that meet no error and no other traffic: each looks at the connection that was idle
     * longest, so that as many heartbeats as there are idle connections look at each once and leave the queue as it was.
     */
    method HeartBeats(count: nat) returns (looked: seq<nat>)
      requires Valid() && making == 0 && count <= |availableConnections|
      modifies this
      ensures Valid() && making == 0
      ensures looked == old(availableConnections)[..count]
      ensures availableConnections == old(availableConnections)[count..] + old(availableConnections)[..count]
      ensures inUseConnections == old(inUseConnections) && createdConnections == old(createdConnections)
    {
      looked := [];
      ghost var before := availableConnections;
      for i := 0 to count
        invariant Valid() && making == 0
        invariant looked == before[..i] && availableConnections == before[i..] + before[..i]
        invariant inUseConnections == old(inUseConnections) && createdConnections == old(createdConnections)
      {
        assert availableConnections[0] == before[i] && before[i..][1..] == before[i + 1..];
        var connection := BeginGet();
        var c := connection.value.value;
        assert availableConnections == before[i + 1..] + before[..i];
        looked := looked + [c];
        var _ := Release(c);
        assert before[i + 1..] + before[..i] + [before[i]] == before[i + 1..] + before[..i + 1];
      }
    }
  }

  /** A whole round looks at every idle connection exactly once. */
  lemma RoundVisitsEach(p: Pool, looked: seq<nat>)
    requires Counted(p) && looked == p.available[..|p.available|]
    ensures p.available[|p.available|..] + p.available[..|p.available|] == p.available
    ensures forall c :: c in p.available ==> multiset(looked)[c] == 1
  {
    assert looked == p.available;
    forall c | c in p.available ensures multiset(looked)[c] == 1 {
      OccursOnce(p.available, c);
    }
  }

  lemma {:induction false} OccursOnce(s: seq<nat>, c: nat)
    requires (forall i, j :: 0 <= i < j < |s| ==> s[i] != s[j]) && c in s
    ensures multiset(s)[c] == 1
  {
    assert s == [s[0]] + s[1..];
    if c == s[0] {
      assert c !in s[1..];
    } else {
      OccursOnce(s[1..], c);
    }
  }
}
