/**
 * Which host owns an agent's online key, in any interleaving of flushes
 * (agent_metadata_flush in goperation/manager/gdata.py), over the steps of OnlineMetadata.
 */
module OnlineKey {
  import opened Wrappers
  import opened MetadataCache
  import opened OnlineMetadata

  /** A flush is about to SET without NX: it saw the key live, with its own host. */
  ghost predicate Replacing(s: State, f: nat, agent: nat) {
    f in s.flushes && s.flushes[f].Writing? && s.flushes[f].agent == agent && !s.flushes[f].nx
  }

  /** No key lapses between the EXEC and the SET of a flush that saw it live. */
  ghost predicate KeyStays(s: State, a: Action) {
    a.Lapse? ==> forall f :: !Replacing(s, f, a.agent)
  }

  ghost predicate KeysStay(s: State, actions: seq<Action>)
    decreases |actions|
  {
    actions != [] ==>
      && KeyStays(s, actions[0])
      && match Next(s, actions[0])
         case Disabled => true
         case Moved(s') => KeysStay(s', actions[1..])
         case Raised(s') => KeysStay(s', actions[1..])
  }

  ghost predicate Owns(s: State, agent: nat, host: nat) {
    agent in s.online && s.online[agent].metadata.host == host
  }

  /** The host that a flush saw is still the one in the key. */
  ghost predicate Seen(s: State) {
    forall f, agent :: Replacing(s, f, agent) ==> Owns(s, agent, s.flushes[f].metadata.host)
  }

  /** A step takes a live key from its host to another one. */
  ghost predicate Steals(s: State, a: Action, agent: nat) {
    && !Next(s, a).Disabled? && agent in s.online && agent in Next(s, a).state.online
    && Next(s, a).state.online[agent].metadata.host != s.online[agent].metadata.host
  }

  /** Exactly the plain SET of a flush whose host is not the one in the key any more can steal it. */
  lemma StealingStep(s: State, a: Action, agent: nat)
    ensures Steals(s, a, agent) <==>
              && a.Write? && Replacing(s, a.flush, agent) && agent in s.online
              && !Owns(s, agent, s.flushes[a.flush].metadata.host)
  {
    hide Keep, Refilled, NextRead, NextReply;
    if (a.Read? || a.Reply?) && !Next(s, a).Disabled? {
      ReadsWriteNothing(s, a);
    }
  }

  lemma ReadsWriteNothing(s: State, a: Action)
    requires (a.Read? || a.Reply?) && !Next(s, a).Disabled?
    ensures Next(s, a).state.online == s.online && Next(s, a).state.flushes == s.flushes
  {
    hide Keep, Refilled;
  }

  /** What a step does to the key of an agent, as far as its owner is concerned. */
  lemma OwnerStep(s: State, a: Action, agent: nat, host: nat)
    requires Seen(s) && !Next(s, a).Disabled? && Owns(s, agent, host) && a != Lapse(agent)
    ensures !Steals(s, a, agent) && Owns(Next(s, a).state, agent, host)
  {
    StealingStep(s, a, agent);
    if a.Write? && Replacing(s, a.flush, agent) {
      assert Owns(s, agent, s.flushes[a.flush].metadata.host);
    }
    hide NextRead, NextReply;
    if a.Read? || a.Reply? {
      ReadsWriteNothing(s, a);
    }
  }

  lemma NextKeepsSeen(s: State, a: Action)
    requires Seen(s) && KeyStays(s, a) && !Next(s, a).Disabled?
    ensures Seen(Next(s, a).state)
  {
    var s' := Next(s, a).state;
    forall f, agent | Replacing(s', f, agent) ensures Owns(s', agent, s'.flushes[f].metadata.host) {
      if Replacing(s, f, agent) {
        KeptFlush(s, a, f, agent);
        OwnerStep(s, a, agent, s.flushes[f].metadata.host);
      } else {
        NewFlush(s, a, f, agent);
      }
    }
  }

  lemma KeptFlush(s: State, a: Action, f: nat, agent: nat)
    requires !Next(s, a).Disabled? && Replacing(s, f, agent) && Replacing(Next(s, a).state, f, agent)
    ensures Next(s, a).state.flushes[f] == s.flushes[f]
  {
    hide NextRead, NextReply;
    if a.Read? || a.Reply? {
      ReadsWriteNothing(s, a);
    }
  }

  /** A flush starts to replace only after it saw its own host. */
  lemma NewFlush(s: State, a: Action, f: nat, agent: nat)
    requires !Next(s, a).Disabled? && !Replacing(s, f, agent) && Replacing(Next(s, a).state, f, agent)
    ensures Owns(Next(s, a).state, agent, Next(s, a).state.flushes[f].metadata.host)
  {
    hide NextRead, NextReply;
    if a.Read? || a.Reply? {
      ReadsWriteNothing(s, a);
    }
  }

  /**
   * In every run in which keys stay through the flushes that saw them, an owner
   * keeps its key as long as it does not lapse.
   */
  lemma {:induction false} OwnerKept(s: State, actions: seq<Action>, agent: nat, host: nat)
    requires Seen(s) && KeysStay(s, actions) && Exec(s, actions).Some?
    requires Owns(s, agent, host) && Lapse(agent) !in actions
    ensures Seen(Exec(s, actions).value) && Owns(Exec(s, actions).value, agent, host)
    decreases |actions|
  {
    if actions != [] {
      NextKeepsSeen(s, actions[0]);
      assert actions[0] in actions;
      OwnerStep(s, actions[0], agent, host);
      hide Seen, Next;
      OwnerKept(Next(s, actions[0]).state, actions[1..], agent, host);
    }
  }

  lemma {:induction false} ExecKeepsSeen(s: State, actions: seq<Action>)
    requires Seen(s) && KeysStay(s, actions) && Exec(s, actions).Some?
    ensures Seen(Exec(s, actions).value)
    decreases |actions|
  {
    if actions != [] {
      NextKeepsSeen(s, actions[0]);
      hide Seen, Next;
      ExecKeepsSeen(Next(s, actions[0]).state, actions[1..]);
    }
  }

  /** So after any such history, in every such run, only the lapse of its key takes it from its owner. */
  lemma OwnerKeptAlways(history: seq<Action>, s: State, actions: seq<Action>, agent: nat, host: nat)
    requires KeysStay(INIT, history) && Exec(INIT, history) == Some(s)
    requires KeysStay(s, actions) && Exec(s, actions).Some?
    requires Owns(s, agent, host) && Lapse(agent) !in actions
    ensures Owns(Exec(s, actions).value, agent, host)
  {
    assert Seen(INIT);
    ExecKeepsSeen(INIT, history);
    OwnerKept(s, actions, agent, host);
  }

  /** Of all flushes that write a key without it lapsing between them, only one host gets it. */
  lemma OneWinner(s: State, f: nat, between: seq<Action>, s': State, g: nat)
    requires Seen(s) && f in s.flushes && g in s'.flushes && Next(s, Write(f)).Moved? && Next(s', Write(g)).Moved?
    requires s.flushes[f].agent == s'.flushes[g].agent && Lapse(s.flushes[f].agent) !in between
    requires KeysStay(s, [Write(f)] + between) && Exec(s, [Write(f)] + between) == Some(s')
    ensures s.flushes[f].metadata.host == s'.flushes[g].metadata.host
  {
    var agent, run := s.flushes[f].agent, [Write(f)] + between;
    assert run[1..] == between;
    NextKeepsSeen(s, run[0]);
    assert Owns(Next(s, run[0]).state, agent, s.flushes[f].metadata.host);
    OwnerKept(Next(s, run[0]).state, between, agent, s.flushes[f].metadata.host);
    StealingStep(s', Write(g), agent);
    assert Replacing(s', g, agent);
  }

  // ---- which calls of agent_metadata_flush return ----

  /**
   * A flush is refused when it looks exactly if the key is live with another host, and that changes nothing;
   * it is done at once exactly if the key holds just what it would SET.
   */
  lemma CheckMeaning(s: State, f: nat, agent: nat, metadata: Metadata)
    requires f !in s.flushes
    ensures var looked := Next(s, Check(f, agent, metadata));
            && !looked.Disabled?
            && (looked.Raised? <==> agent in s.online && s.online[agent].metadata.host != metadata.host)
            && (looked.Raised? ==> looked.state == s)
            && (looked.Moved? ==> looked.state.online == s.online && looked.state.scores == s.scores)
            && (looked.Moved? && f !in looked.state.flushes <==> agent in s.online && s.online[agent].metadata == metadata)
            && (f in looked.state.flushes ==>
                  looked.state.flushes[f] == Writing(agent, metadata, agent !in s.online))
  {
  }

  /** A flush that has looked is refused exactly if it saw no key and now there is one. */
  lemma WriteMeaning(s: State, f: nat, agent: nat, metadata: Metadata, nx: bool)
    requires f in s.flushes && s.flushes[f] == Writing(agent, metadata, nx)
    ensures var written := Next(s, Write(f));
            && !written.Disabled?
            && (written.Raised? <==> nx && agent in s.online)
            && (written.Raised? ==> f !in written.state.flushes && written.state.online == s.online)
            && (written.Moved? ==> f in written.state.flushes && written.state.flushes[f].Scoring?
                                   && written.state.flushes[f].agent == agent
                                   && agent in written.state.online
                                   && written.state.online[agent] == Value(written.state.flushes[f].version, metadata)
                                   && forall a :: a != agent ==>
                                        (a in written.state.online <==> a in s.online)
                                        && (a in s.online ==> written.state.online[a] == s.online[a]))
  {
  }

  /** After its SET a call gives the agent its score and returns. */
  lemma ScoreMeaning(s: State, f: nat, score: nat)
    requires f in s.flushes && s.flushes[f].Scoring?
    ensures var scored := Next(s, Score(f, score));
            && scored.Moved? && f !in scored.state.flushes && scored.state.online == s.online
            && scored.state.scores == s.scores[s.flushes[f].agent := score]
  {
  }

  /** While keys stay, a call of a host that does not own the live key is refused, both when it looks and when it SETs. */
  lemma LosersAreRefused(history: seq<Action>, s: State, f: nat, agent: nat, metadata: Metadata, nx: bool)
    requires KeysStay(INIT, history) && Exec(INIT, history) == Some(s)
    requires agent in s.online && !Owns(s, agent, metadata.host)
    ensures f !in s.flushes ==> Next(s, Check(f, agent, metadata)).Raised?
    ensures f in s.flushes && s.flushes[f] == Writing(agent, metadata, nx) ==>
              Next(s, Write(f)).Raised? && Owns(Next(s, Write(f)).state, agent, s.online[agent].metadata.host)
  {
    assert Seen(INIT);
    ExecKeepsSeen(INIT, history);
    assert f in s.flushes && s.flushes[f] == Writing(agent, metadata, nx) && !nx ==> Replacing(s, f, agent);
  }

  /** The step is one of the flush f. */
  predicate IsOf(a: Action, f: nat) {
    (a.Check? || a.Write? || a.Score?) && a.flush == f
  }

  lemma {:induction false} OthersLeaveFlush(s: State, actions: seq<Action>, f: nat)
    requires Exec(s, actions).Some? && forall a :: a in actions ==> !IsOf(a, f)
    ensures var s' := Exec(s, actions).value;
            (f in s'.flushes <==> f in s.flushes) && (f in s.flushes ==> s'.flushes[f] == s.flushes[f])
    decreases |actions|
  {
    if actions != [] {
      FlushStays(s, actions[0], f);
      hide Next;
      OthersLeaveFlush(Next(s, actions[0]).state, actions[1..], f);
    }
  }

  lemma FlushStays(s: State, a: Action, f: nat)
    requires !Next(s, a).Disabled? && !IsOf(a, f)
    ensures var s' := Next(s, a).state;
            (f in s'.flushes <==> f in s.flushes) && (f in s.flushes ==> s'.flushes[f] == s.flushes[f])
  {
    hide NextRead, NextReply;
    if a.Read? || a.Reply? {
      ReadsWriteNothing(s, a);
    }
  }

  /** A call of agent_metadata_flush with other steps between its own: it looks in s, SETs in s1 and scores in s2. */
  ghost predicate FlushCall(s: State, f: nat, agent: nat, metadata: Metadata, between: seq<Action>, s1: State,
                            after: seq<Action>, s2: State) {
    && f !in s.flushes
    && (forall a :: a in between + after ==> !IsOf(a, f))
    && Exec(s, [Check(f, agent, metadata)] + between) == Some(s1)
    && Exec(s1, [Write(f)] + after) == Some(s2)
    && f in s2.flushes
  }

  /**
   * While keys stay, a call that gets as far as its ZADD is of the host that owned the key when it SET it,
   * and already when it looked, if the key was live then; nobody else owned the live key in either state.
   */
  lemma ReturningFlushOwns(history: seq<Action>, s: State, f: nat, agent: nat, metadata: Metadata,
                           between: seq<Action>, s1: State, after: seq<Action>, s2: State, score: nat)
    requires KeysStay(INIT, history) && Exec(INIT, history) == Some(s)
    requires FlushCall(s, f, agent, metadata, between, s1, after, s2)
    requires KeysStay(s, [Check(f, agent, metadata)] + between) && KeysStay(s1, [Write(f)] + after)
    ensures agent in s.online ==> Owns(s, agent, metadata.host)
    ensures agent in s1.online ==> Owns(s1, agent, metadata.host)
    ensures Next(s1, Write(f)).Moved? && Owns(Next(s1, Write(f)).state, agent, metadata.host)
    ensures Lapse(agent) !in after ==> Owns(s2, agent, metadata.host)
    ensures Next(s2, Score(f, score)).Moved? && f !in Next(s2, Score(f, score)).state.flushes
  {
    assert Seen(INIT);
    ExecKeepsSeen(INIT, history);
    var look, write := [Check(f, agent, metadata)] + between, [Write(f)] + after;
    assert look[1..] == between && write[1..] == after;
    assert forall a :: a in between ==> a in between + after;
    assert forall a :: a in after ==> a in between + after;
    CheckMeaning(s, f, agent, metadata);
    var t := Next(s, look[0]).state;
    OthersLeaveFlush(t, between, f);
    ExecKeepsSeen(s, look);
    var nx := agent !in s.online;
    var t1 := Next(s1, Write(f)).state;
    hide Next;
    if f in t.flushes {
      WriteMeaning(s1, f, agent, metadata, nx);
    } else {
      WriteNeedsFlush(s1, f);
    }
    OthersLeaveFlush(t1, after, f);
    assert !nx ==> Replacing(s1, f, agent);
    NextKeepsSeen(s1, Write(f));
    if Lapse(agent) !in after {
      OwnerKept(t1, after, agent, metadata.host);
    }
    ScoreMeaning(s2, f, score);
  }

  lemma WriteNeedsFlush(s: State, f: nat)
    ensures f !in s.flushes ==> Next(s, Write(f)).Disabled?
  {
  }

  /** Host p sees its live key, which then lapses; host q takes it; p SETs without NX. */
  function LostKey(agent: nat, p: Metadata, q: Metadata): seq<Action> {
    [Check(0, agent, p), Lapse(agent), Check(1, agent, q), Write(1), Write(0)]
  }

  /** Without that assumption the property fails: the last step of such a run steals the key from its new owner. */
  lemma LapsedKeyStolen(s: State, agent: nat, p: Metadata, q: Metadata)
    requires s.flushes == map[] && Owns(s, agent, p.host) && s.online[agent].metadata != p && p.host != q.host
    ensures Exec(s, LostKey(agent, p, q)[..4]).Some?
    ensures Owns(Exec(s, LostKey(agent, p, q)[..4]).value, agent, q.host)
    ensures Steals(Exec(s, LostKey(agent, p, q)[..4]).value, LostKey(agent, p, q)[4], agent)
  {
    var run := LostKey(agent, p, q)[..4];
    hide NextRead, NextReply;
    var s1 := Next(s, run[0]).state;
    assert s1.flushes[0] == Writing(agent, p, false);
    var s2 := Next(s1, run[1]).state;
    var s3 := Next(s2, run[2]).state;
    assert s3.flushes[1] == Writing(agent, q, true) && s3.flushes[0] == Writing(agent, p, false);
    var s4 := Next(s3, run[3]).state;
    StealingStep(s4, Write(0), agent);
    hide Exec, Next;
    ExecStep(s, s1, run);
    ExecStep(s1, s2, run[1..]);
    ExecStep(s2, s3, run[2..]);
    ExecStep(s3, s4, run[3..]);
    ExecNothing(s4);
    assert run[1..][1..] == run[2..] && run[2..][1..] == run[3..] && run[3..][1..] == [];
  }
}
