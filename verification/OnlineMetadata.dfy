/**
 * The shared online metadata of all agents: any number of flushes from any hosts
 * (agent_metadata_flush), the other writers of the score set, expiring keys, and the
 * cache of one reading process (goperation/manager/gdata.py).
 *
 * A step is one Redis command or one MULTI/EXEC block.  A flush is three steps:
 * the EXEC that looks at the online key, the SET or SET NX of it, and the ZADD.
 */
module OnlineMetadata {
  import opened Wrappers
  import opened MetadataCache

  /** Where a flush stands: about to SET (with nx or not), or about to ZADD the score of what it SET. */
  datatype Flush =
    | Writing(agent: nat, metadata: Metadata, nx: bool)
    | Scoring(agent: nat, version: nat)

  /** A call of agents_metadata between its ZRANGE and its MGET. */
  datatype Fetch = Fetch(agents: set<nat>, scores: map<nat, nat>, missed: set<nat>, now: int)

  datatype Mark = Mark(agent: nat, score: nat)

  /**
   * sets: the number of SETs so far; online, scores: what Redis holds.
   * committed and stamped are history: the newest version of an agent whose flush has done its ZADD,
   * and what that was when a score was given.
   */
  datatype State = State(sets: nat, online: map<nat, Value>, scores: map<nat, nat>, flushes: map<nat, Flush>,
                         cache: Cache, reader: Option<Fetch>,
                         committed: map<nat, nat>, stamped: map<Mark, nat>)

  const INIT := State(0, map[], map[], map[], Cache(map[], map[]), None, map[], map[])

  datatype Action =
    | Check(flush: nat, agent: nat, metadata: Metadata)
    | Write(flush: nat)
    | Score(flush: nat, score: nat)
    | Touch(agent: nat, score: nat)
    | Unscore(agent: nat)
    | Lapse(agent: nat)
    | Read(agents: set<nat>, now: int)
    | Reply(ttls: map<nat, int>)
    | ReplyRaises
    | Forget(agents: set<nat>)

  function Committed(committed: map<nat, nat>, agent: nat): nat {
    if agent in committed then committed[agent] else 0
  }

  /** ZADD of a score for an agent of which the given version is committed by now. */
  function Scored(s: State, agent: nat, score: nat, version: nat): State {
    s.(scores := s.scores[agent := score],
       committed := s.committed[agent := version],
       stamped := s.stamped[Mark(agent, score) := version])
  }

  function Max(a: nat, b: nat): nat {
    if a < b then b else a
  }

  function NextFlush(s: State, f: nat, a: Action): Outcome<State>
    requires a.Check? || (f in s.flushes && (a.Write? || a.Score?))
  {
    match a
    case Check(_, agent, metadata) =>
      if f in s.flushes then Disabled
      else if agent !in s.online then Moved(s.(flushes := s.flushes[f := Writing(agent, metadata, true)]))
      else if s.online[agent].metadata.host != metadata.host then Raised(s)
      else if s.online[agent].metadata == metadata then Moved(s)
      else Moved(s.(flushes := s.flushes[f := Writing(agent, metadata, false)]))
    case Write(_) =>
      (match s.flushes[f]
       case Scoring(_, _) => Disabled
       case Writing(agent, metadata, nx) =>
         if nx && agent in s.online then Raised(s.(flushes := s.flushes - {f}))
         else Moved(s.(sets := s.sets + 1,
                       online := s.online[agent := Value(s.sets + 1, metadata)],
                       flushes := s.flushes[f := Scoring(agent, s.sets + 1)])))
    case Score(_, score) =>
      (match s.flushes[f]
       case Writing(_, _, _) => Disabled
       case Scoring(agent, version) =>
         Moved(Scored(s, agent, score, Max(version, Committed(s.committed, agent))).(flushes := s.flushes - {f})))
  }

  /** agents_metadata up to its MGET; that the two dicts of the cache have equal keys is proved by EqualKeys. */
  function NextRead(s: State, agents: set<nat>, now: int): Outcome<State> {
    if s.reader.Some? || !SameKeys(s.cache) then Disabled
    else if !(agents <= s.scores.Keys) then Raised(s)
    else
      var kept := Keep(s.cache, agents);
      var missed := set a | a in agents && IsMissed(kept, s.scores, now, a);
      Moved(s.(cache := kept, reader := Some(Fetch(agents, s.scores, missed, now))))
  }

  function NextReply(s: State, ttls: map<nat, int>): Outcome<State> {
    if s.reader.None? || !(s.online.Keys <= ttls.Keys) then Disabled
    else
      var f := s.reader.value;
      Moved(s.(cache := Refilled(s.cache, f.missed, s.online, ttls, f.scores, f.now), reader := None))
  }

  /** The MGET raises: the call ends, and leaves the cache as it was before the fetch. */
  function NextReplyRaises(s: State): Outcome<State> {
    if s.reader.None? then Disabled else Raised(s.(reader := None))
  }

  function Next(s: State, a: Action): Outcome<State> {
    match a
    case Check(f, _, _) => NextFlush(s, f, a)
    case Write(f) => if f in s.flushes then NextFlush(s, f, a) else Disabled
    case Score(f, _) => if f in s.flushes then NextFlush(s, f, a) else Disabled
    case Touch(agent, score) => Moved(Scored(s, agent, score, Committed(s.committed, agent)))
    case Unscore(agent) => Moved(s.(scores := s.scores - {agent}))
    case Lapse(agent) => Moved(s.(online := s.online - {agent}))
    case Read(agents, now) => NextRead(s, agents, now)
    case Reply(ttls) => NextReply(s, ttls)
    case ReplyRaises => NextReplyRaises(s)
    case Forget(agents) =>
      Moved(s.(cache := Cache(s.cache.metadatas - agents, s.cache.metatimes - agents)))
  }

  /** The state after a sequence of steps, if all of them were enabled. */
  function Exec(s: State, actions: seq<Action>): Option<State>
    decreases |actions|
  {
    if actions == [] then Some(s)
    else
      match Next(s, actions[0])
      case Disabled => None
      case Moved(s') => Exec(s', actions[1..])
      case Raised(s') => Exec(s', actions[1..])
  }

  /** A call of agents_metadata raises exactly if an agent has no score; then, or if its MGET raises, it ends. */
  lemma ReadMeaning(s: State, agents: set<nat>, now: int)
    requires s.reader.None? && SameKeys(s.cache)
    ensures var asked := Next(s, Read(agents, now));
            && !asked.Disabled? && (asked.Raised? <==> exists a :: a in agents && a !in s.scores)
            && (asked.Raised? ==> asked.state == s)
            && (asked.Moved? ==>
                  var s' := asked.state;
                  && s' == s.(cache := s'.cache, reader := s'.reader) && s'.reader.Some?
                  && s'.reader.value.agents == agents && s'.reader.value.scores == s.scores
                  && s'.reader.value.now == now
                  && Next(s', ReplyRaises) == Raised(s'.(reader := None)))
  {
    hide Keep, IsMissed;
  }

  /** Other writers of scores, expiring keys and deletions touch nothing else. */
  lemma OtherStepsMeaning(s: State, agent: nat, score: nat, agents: set<nat>)
    ensures var s' := Next(s, Touch(agent, score)).state;
            && Next(s, Touch(agent, score)).Moved? && s'.scores == s.scores[agent := score] && s'.online == s.online
            && s'.flushes == s.flushes && s'.cache == s.cache && s'.reader == s.reader
    ensures Next(s, Unscore(agent)) == Moved(s.(scores := s.scores - {agent}))
    ensures Next(s, Lapse(agent)) == Moved(s.(online := s.online - {agent}))
    ensures var s' := Next(s, Forget(agents)).state;
            && Next(s, Forget(agents)).Moved? && s' == s.(cache := s'.cache)
            && (forall a :: a in s'.cache.metadatas <==> a in s.cache.metadatas && a !in agents)
            && (forall a :: a in s'.cache.metatimes <==> a in s.cache.metatimes && a !in agents)
  {
  }

  // ---- the two dicts of the cache ----

  /** What keeps the keys of metadatas and metatimes equal: only scored agents are fetched. */
  ghost predicate KeysInv(s: State) {
    SameKeys(s.cache) && (s.reader.Some? ==> s.reader.value.missed <= s.reader.value.scores.Keys)
  }

  lemma NextKeepsKeys(s: State, a: Action)
    requires KeysInv(s) && !Next(s, a).Disabled?
    ensures KeysInv(Next(s, a).state)
  {
    if a.Reply? {
      ReplyKeys(s, a.ttls);
    }
    hide Refilled;
  }

  lemma ReplyKeys(s: State, ttls: map<nat, int>)
    requires KeysInv(s) && NextReply(s, ttls).Moved?
    ensures KeysInv(NextReply(s, ttls).state)
  {
  }

  /** metadatas and metatimes have the same keys after every run. */
  lemma {:induction false} EqualKeys(s: State, actions: seq<Action>)
    requires KeysInv(s) && Exec(s, actions).Some?
    ensures SameKeys(Exec(s, actions).value.cache)
    decreases |actions|
  {
    if actions != [] {
      NextKeepsKeys(s, actions[0]);
      hide KeysInv, Next;
      EqualKeys(Next(s, actions[0]).state, actions[1..]);
    }
  }

  // ---- no stale read ----

  /** The score a step gives to an agent, if it gives one. */
  function Given(s: State, a: Action): Option<Mark> {
    match a
    case Score(f, score) => if f in s.flushes then Some(Mark(s.flushes[f].agent, score)) else None
    case Touch(agent, score) => Some(Mark(agent, score))
    case _ => None
  }

  /** The step gives the agent no score that it had before. */
  ghost predicate NewScore(s: State, agent: nat, a: Action) {
    Given(s, a).Some? && Given(s, a).value.agent == agent ==> Given(s, a).value !in s.stamped
  }

  /** The agent is given no score twice in the run. */
  ghost predicate DistinctScores(s: State, agent: nat, actions: seq<Action>)
    decreases |actions|
  {
    actions != [] ==>
      && NewScore(s, agent, actions[0])
      && match Next(s, actions[0])
         case Disabled => true
         case Moved(s') => DistinctScores(s', agent, actions[1..])
         case Raised(s') => DistinctScores(s', agent, actions[1..])
  }

  ghost predicate FlushOrdered(sets: nat, online: map<nat, Value>, flush: Flush) {
    flush.Scoring? ==>
      flush.version <= sets && (flush.agent in online ==> flush.version <= online[flush.agent].version)
  }

  /** What is committed for an agent was SET before what its online key holds. */
  ghost predicate VersionsOrdered(sets: nat, online: map<nat, Value>, committed: map<nat, nat>,
                                  flushes: map<nat, Flush>) {
    && (forall a :: a in committed ==> committed[a] <= sets)
    && (forall a :: a in online ==> Committed(committed, a) <= online[a].version <= sets)
    && (forall f :: f in flushes ==> FlushOrdered(sets, online, flushes[f]))
  }

  ghost predicate ScoresStamped(scores: map<nat, nat>, committed: map<nat, nat>, stamped: map<Mark, nat>) {
    && (forall a :: a in scores ==>
          Mark(a, scores[a]) in stamped && stamped[Mark(a, scores[a])] == Committed(committed, a))
    && (forall m :: m in stamped ==> stamped[m] <= Committed(committed, m.agent))
  }

  ghost predicate AtLeast(value: Value, m: Mark, stamped: map<Mark, nat>) {
    m in stamped && stamped[m] <= value.version
  }

  /** The cached value of the agent is at least what was committed when its score was given. */
  ghost predicate CacheStamped(c: Cache, agent: nat, stamped: map<Mark, nat>) {
    SameKeys(c) && (agent in c.metadatas ==> AtLeast(c.metadatas[agent], Mark(agent, c.metatimes[agent].score), stamped))
  }

  /** While a call fetches, all other cached values are those of the scores it has taken. */
  ghost predicate ReaderStamped(reader: Option<Fetch>, c: Cache, stamped: map<Mark, nat>) {
    reader.Some? ==>
      var f := reader.value;
      && f.missed <= f.agents <= f.scores.Keys
      && (forall a :: a in f.agents ==> Mark(a, f.scores[a]) in stamped)
      && (forall a :: a in c.metatimes ==>
            a in f.agents && (a !in f.missed ==> c.metatimes[a].score == f.scores[a]))
  }

  /** The invariant of one agent; it needs distinct scores of that agent only. */
  ghost predicate Inv(s: State, agent: nat) {
    && VersionsOrdered(s.sets, s.online, s.committed, s.flushes)
    && ScoresStamped(s.scores, s.committed, s.stamped)
    && CacheStamped(s.cache, agent, s.stamped)
    && ReaderStamped(s.reader, s.cache, s.stamped)
  }

  lemma WriteKeeps(s: State, f: nat, agent: nat, metadata: Metadata)
    requires VersionsOrdered(s.sets, s.online, s.committed, s.flushes)
    ensures VersionsOrdered(s.sets + 1, s.online[agent := Value(s.sets + 1, metadata)], s.committed,
                            s.flushes[f := Scoring(agent, s.sets + 1)])
  {
    var online := s.online[agent := Value(s.sets + 1, metadata)];
    assert Committed(s.committed, agent) <= s.sets;
    forall g | g in s.flushes ensures FlushOrdered(s.sets + 1, online, s.flushes[g]) {
      assert FlushOrdered(s.sets, s.online, s.flushes[g]);
    }
  }

  lemma CommitKeeps(s: State, agent: nat, version: nat)
    requires VersionsOrdered(s.sets, s.online, s.committed, s.flushes) && version <= s.sets
    requires agent in s.online ==> version <= s.online[agent].version
    ensures VersionsOrdered(s.sets, s.online, s.committed[agent := version], s.flushes)
  {
  }

  lemma StampKeeps(s: State, agent: nat, score: nat, version: nat)
    requires ScoresStamped(s.scores, s.committed, s.stamped)
    requires Committed(s.committed, agent) <= version
    ensures ScoresStamped(s.scores[agent := score], s.committed[agent := version],
                          s.stamped[Mark(agent, score) := version])
  {
  }

  lemma NewMarkKeeps(s: State, agent: nat, m: Mark, version: nat)
    requires CacheStamped(s.cache, agent, s.stamped) && ReaderStamped(s.reader, s.cache, s.stamped)
    requires m.agent == agent ==> m !in s.stamped
    ensures CacheStamped(s.cache, agent, s.stamped[m := version])
    ensures ReaderStamped(s.reader, s.cache, s.stamped[m := version])
  {
  }

  lemma ScoredKeeps(s: State, agent: nat, scored: nat, score: nat, version: nat)
    requires Inv(s, agent) && (scored == agent ==> Mark(scored, score) !in s.stamped)
    requires Committed(s.committed, scored) <= version <= s.sets
    requires scored in s.online ==> version <= s.online[scored].version
    ensures Inv(Scored(s, scored, score, version), agent)
  {
    hide VersionsOrdered, ScoresStamped, CacheStamped, ReaderStamped;
    CommitKeeps(s, scored, version);
    StampKeeps(s, scored, score, version);
    NewMarkKeeps(s, agent, Mark(scored, score), version);
  }

  lemma ReadKeeps(s: State, agent: nat, agents: set<nat>, now: int)
    requires CacheStamped(s.cache, agent, s.stamped) && ScoresStamped(s.scores, s.committed, s.stamped)
    requires NextRead(s, agents, now).Moved?
    ensures var s' := NextRead(s, agents, now).state;
            CacheStamped(s'.cache, agent, s.stamped) && ReaderStamped(s'.reader, s'.cache, s.stamped)
  {
  }

  /** What a fetch leaves in the cache for the agent is at least what was committed at its ZRANGE. */
  lemma ReplyFloor(s: State, agent: nat, ttls: map<nat, int>)
    requires Inv(s, agent) && NextReply(s, ttls).Moved?
    ensures var s', f := NextReply(s, ttls).state, s.reader.value;
            && SameKeys(s'.cache)
            && (forall a :: a in s'.cache.metadatas ==> a in f.agents && s'.cache.metatimes[a].score == f.scores[a])
            && (agent in s'.cache.metadatas ==>
                  AtLeast(s'.cache.metadatas[agent], Mark(agent, f.scores[agent]), s.stamped))
  {
    var f := s.reader.value;
    if agent in f.missed && agent in s.online {
      assert s.stamped[Mark(agent, f.scores[agent])] <= Committed(s.committed, agent) <= s.online[agent].version;
    }
  }

  lemma ReplyKeeps(s: State, agent: nat, ttls: map<nat, int>)
    requires Inv(s, agent) && NextReply(s, ttls).Moved?
    ensures var s' := NextReply(s, ttls).state;
            CacheStamped(s'.cache, agent, s.stamped) && ReaderStamped(s'.reader, s'.cache, s.stamped)
  {
    ReplyFloor(s, agent, ttls);
    hide Refilled;
  }

  lemma LapseKeeps(s: State, agent: nat)
    requires VersionsOrdered(s.sets, s.online, s.committed, s.flushes)
    ensures VersionsOrdered(s.sets, s.online - {agent}, s.committed, s.flushes)
  {
    forall g | g in s.flushes ensures FlushOrdered(s.sets, s.online - {agent}, s.flushes[g]) {
      assert FlushOrdered(s.sets, s.online, s.flushes[g]);
    }
  }

  lemma ForgetKeeps(s: State, agent: nat, agents: set<nat>)
    requires CacheStamped(s.cache, agent, s.stamped) && ReaderStamped(s.reader, s.cache, s.stamped)
    ensures var c := Cache(s.cache.metadatas - agents, s.cache.metatimes - agents);
            CacheStamped(c, agent, s.stamped) && ReaderStamped(s.reader, c, s.stamped)
  {
  }

  lemma CheckKeeps(s: State, f: nat, flush: Flush)
    requires VersionsOrdered(s.sets, s.online, s.committed, s.flushes) && flush.Writing?
    ensures VersionsOrdered(s.sets, s.online, s.committed, s.flushes[f := flush])
    ensures VersionsOrdered(s.sets, s.online, s.committed, s.flushes - {f})
  {
  }

  lemma FlushKeeps(s: State, f: nat, a: Action)
    requires VersionsOrdered(s.sets, s.online, s.committed, s.flushes)
    requires a.Check? || (a.Write? && f in s.flushes)
    requires !NextFlush(s, f, a).Disabled?
    ensures var s' := NextFlush(s, f, a).state;
            && VersionsOrdered(s'.sets, s'.online, s'.committed, s'.flushes)
            && s' == s.(sets := s'.sets, online := s'.online, flushes := s'.flushes)
  {
    hide VersionsOrdered;
    if a.Check? {
      CheckKeeps(s, f, Writing(a.agent, a.metadata, true));
      CheckKeeps(s, f, Writing(a.agent, a.metadata, false));
    } else if s.flushes[f].Writing? {
      WriteKeeps(s, f, s.flushes[f].agent, s.flushes[f].metadata);
      CheckKeeps(s, f, s.flushes[f]);
    }
  }

  /** Every step keeps the invariant, if it does not give the agent a score that it had before. */
  lemma NextKeeps(s: State, agent: nat, a: Action)
    requires Inv(s, agent) && !Next(s, a).Disabled? && NewScore(s, agent, a)
    ensures Inv(Next(s, a).state, agent)
  {
    if a.Score? {
      var flush := s.flushes[a.flush];
      assert FlushOrdered(s.sets, s.online, flush);
      ScoredKeeps(s, agent, flush.agent, a.score, Max(flush.version, Committed(s.committed, flush.agent)));
    } else if a.Touch? {
      ScoredKeeps(s, agent, a.agent, a.score, Committed(s.committed, a.agent));
    }
    hide VersionsOrdered, CacheStamped, ReaderStamped, Keep, Refilled;
    match a
    case Check(f, _, _) => FlushKeeps(s, f, a);
    case Write(f) => FlushKeeps(s, f, a);
    case Lapse(_) => LapseKeeps(s, a.agent);
    case Read(agents, now) =>
      if NextRead(s, agents, now).Moved? {
        ReadKeeps(s, agent, agents, now);
      }
    case Reply(ttls) => ReplyKeeps(s, agent, ttls);
    case Forget(agents) => ForgetKeeps(s, agent, agents);
    case _ =>
  }

  lemma {:induction false} ExecKeeps(s: State, agent: nat, actions: seq<Action>)
    requires Inv(s, agent) && DistinctScores(s, agent, actions) && Exec(s, actions).Some?
    ensures Inv(Exec(s, actions).value, agent)
    decreases |actions|
  {
    if actions != [] {
      NextKeeps(s, agent, actions[0]);
      hide Inv, Next;
      ExecKeeps(Next(s, actions[0]).state, agent, actions[1..]);
    }
  }

  /** History is only added to, as far as the agent goes. */
  ghost predicate Grows(s: State, agent: nat, s': State) {
    && (forall a :: a in s.committed ==> a in s'.committed && s.committed[a] <= s'.committed[a])
    && (forall m :: m in s.stamped && m.agent == agent ==> m in s'.stamped && s'.stamped[m] == s.stamped[m])
  }

  /** The step ends no fetch. */
  predicate Fetches(a: Action) {
    !a.Reply? && !a.ReplyRaises?
  }

  lemma NextGrows(s: State, agent: nat, a: Action)
    requires Inv(s, agent) && !Next(s, a).Disabled? && NewScore(s, agent, a)
    ensures Grows(s, agent, Next(s, a).state)
    ensures s.reader.Some? && Fetches(a) ==> Next(s, a).state.reader == s.reader
  {
    hide Inv, Keep, Refilled;
  }

  lemma {:induction false} ExecGrows(s: State, agent: nat, actions: seq<Action>)
    requires Inv(s, agent) && DistinctScores(s, agent, actions) && Exec(s, actions).Some?
    ensures Grows(s, agent, Exec(s, actions).value)
    ensures s.reader.Some? && (forall i | 0 <= i < |actions| :: Fetches(actions[i])) ==>
              Exec(s, actions).value.reader == s.reader
    decreases |actions|
  {
    if actions != [] {
      NextKeeps(s, agent, actions[0]);
      NextGrows(s, agent, actions[0]);
      hide Inv, Next;
      ExecGrows(Next(s, actions[0]).state, agent, actions[1..]);
    }
  }

  /**
   * The steps from the ZRANGE of a call in s to its MGET in s'; other steps come between.
   */
  ghost predicate ReadRun(s: State, agent: nat, agents: set<nat>, now: int, during: seq<Action>, s': State) {
    && Next(s, Read(agents, now)).Moved?
    && (forall i :: 0 <= i < |during| ==> Fetches(during[i]))
    && DistinctScores(Next(s, Read(agents, now)).state, agent, during)
    && Exec(Next(s, Read(agents, now)).state, during) == Some(s')
  }

  lemma ScoreCommitted(s: State, agent: nat)
    requires Inv(s, agent) && agent in s.scores
    ensures var m := Mark(agent, s.scores[agent]); m in s.stamped && s.stamped[m] == Committed(s.committed, agent)
  {
  }

  /** At its MGET a call still has the scores of its ZRANGE, and nothing that was stamped then has changed. */
  lemma FetchGrows(s: State, agent: nat, agents: set<nat>, now: int, during: seq<Action>, s': State)
    requires Inv(s, agent) && ReadRun(s, agent, agents, now, during, s')
    ensures Inv(s', agent) && Grows(s, agent, s')
    ensures s'.reader.Some? && s'.reader.value.agents == agents && s'.reader.value.scores == s.scores
  {
    var s1 := Next(s, Read(agents, now)).state;
    NextKeeps(s, agent, Read(agents, now));
    NextGrows(s, agent, Read(agents, now));
    hide Inv, Exec, DistinctScores, Keep;
    ExecKeeps(s1, agent, during);
    ExecGrows(s1, agent, during);
  }

  /**
   * A call returns values of the requested agents only, and that of the agent is at least what was
   * committed for it at the ZRANGE.
   */
  lemma ReadIsCommitted(s: State, agent: nat, agents: set<nat>, now: int, during: seq<Action>, s': State,
                        ttls: map<nat, int>)
    requires Inv(s, agent) && ReadRun(s, agent, agents, now, during, s') && Next(s', Reply(ttls)).Moved?
    ensures var result := Next(s', Reply(ttls)).state.cache.metadatas;
            && result.Keys <= agents
            && (agent in result ==> Committed(s.committed, agent) <= result[agent].version)
  {
    FetchGrows(s, agent, agents, now, during, s');
    assert agents <= s.scores.Keys;
    var result := Next(s', Reply(ttls)).state.cache.metadatas;
    ReplyFloor(s', agent, ttls);
    hide Inv, ReadRun, Refilled, NextRead;
    if agent in result {
      assert AtLeast(result[agent], Mark(agent, s.scores[agent]), s'.stamped);
      ScoreCommitted(s, agent);
    }
  }

  lemma FlushCommits(s: State, f: nat, score: nat, after: seq<Action>)
    requires f in s.flushes && s.flushes[f].Scoring? && Inv(s, s.flushes[f].agent)
    requires var run := [Score(f, score)] + after; DistinctScores(s, s.flushes[f].agent, run) && Exec(s, run).Some?
    ensures var s', agent := Exec(s, [Score(f, score)] + after).value, s.flushes[f].agent;
            Inv(s', agent) && s.flushes[f].version <= Committed(s'.committed, agent)
  {
    var run, agent := [Score(f, score)] + after, s.flushes[f].agent;
    assert run[1..] == after;
    NextKeeps(s, agent, run[0]);
    var s1 := Next(s, run[0]).state;
    ExecKeeps(s1, agent, after);
    ExecGrows(s1, agent, after);
    assert s.flushes[f].version <= s1.committed[agent];
  }

  /** Every state that a run with distinct scores of an agent reaches keeps its invariant. */
  lemma ReachableKeeps(history: seq<Action>, agent: nat)
    requires DistinctScores(INIT, agent, history) && Exec(INIT, history).Some?
    ensures Inv(Exec(INIT, history).value, agent)
  {
    assert Inv(INIT, agent);
    ExecKeeps(INIT, agent, history);
  }

  /**
   * After any history: a call whose ZRANGE follows the ZADD of a flush returns, if it returns a value
   * for that agent, the value which that flush SET or a later one; the other agents' scores do not matter.
   */
  lemma NoStaleRead(history: seq<Action>, s: State, f: nat, score: nat, before: seq<Action>, s1: State,
                    agents: set<nat>, now: int, during: seq<Action>, s2: State, ttls: map<nat, int>)
    requires Exec(INIT, history) == Some(s) && f in s.flushes && s.flushes[f].Scoring?
    requires DistinctScores(INIT, s.flushes[f].agent, history)
    requires var run := [Score(f, score)] + before;
             DistinctScores(s, s.flushes[f].agent, run) && Exec(s, run) == Some(s1)
    requires ReadRun(s1, s.flushes[f].agent, agents, now, during, s2) && Next(s2, Reply(ttls)).Moved?
    ensures var result := Next(s2, Reply(ttls)).state.cache.metadatas;
            s.flushes[f].agent in result ==> s.flushes[f].version <= result[s.flushes[f].agent].version
  {
    ReachableKeeps(history, s.flushes[f].agent);
    FlushCommits(s, f, score, before);
    hide Inv, Exec, DistinctScores, Next;
    ReadIsCommitted(s1, s.flushes[f].agent, agents, now, during, s2, ttls);
  }

  // ---- when two flushes get the same score ----

  function FlushRun(f: nat, agent: nat, metadata: Metadata, score: nat): seq<Action> {
    [Check(f, agent, metadata), Write(f), Score(f, score)]
  }

  function ReadOne(agent: nat, now: int, ttls: map<nat, int>): seq<Action> {
    [Read({agent}, now), Reply(ttls)]
  }

  /** A flush of an agent, and then a call for it. */
  function FlushAndRead(f: nat, agent: nat, metadata: Metadata, score: nat, now: int, ttls: map<nat, int>): seq<Action> {
    FlushRun(f, agent, metadata, score) + ReadOne(agent, now, ttls)
  }

  lemma ExecStep(s: State, s': State, actions: seq<Action>)
    requires actions != [] && Next(s, actions[0]).Moved? && Next(s, actions[0]).state == s'
    ensures Exec(s, actions) == Exec(s', actions[1..])
  {
  }

  lemma ExecNothing(s: State)
    ensures Exec(s, []) == Some(s)
  {
  }

  /** The flush is not on its way yet, no call is, and no cached version is still to come. */
  ghost predicate Quiet(s: State, f: nat, agent: nat) {
    && f !in s.flushes && s.reader == None && SameKeys(s.cache)
    && (agent in s.cache.metadatas ==> s.cache.metadatas[agent].version <= s.sets)
  }

  /** The metadata is news: the agent is not online, or is with the same host and other metadata. */
  ghost predicate IsNews(s: State, agent: nat, metadata: Metadata) {
    agent in s.online ==> s.online[agent].metadata.host == metadata.host && s.online[agent].metadata != metadata
  }

  /** What a flush of news leaves. */
  ghost predicate Flushed(s: State, s': State, agent: nat, metadata: Metadata, score: nat) {
    && s'.cache == s.cache && s'.reader == s.reader && s'.sets == s.sets + 1
    && agent in s'.scores && s'.scores[agent] == score
    && s'.online == s.online[agent := Value(s.sets + 1, metadata)]
  }

  lemma QuietFlush(s: State, f: nat, agent: nat, metadata: Metadata, score: nat) returns (s1: State, s2: State, s': State)
    requires Quiet(s, f, agent) && IsNews(s, agent, metadata)
    ensures Next(s, Check(f, agent, metadata)).Moved? && Next(s, Check(f, agent, metadata)).state == s1
    ensures Next(s1, Write(f)).Moved? && Next(s1, Write(f)).state == s2
    ensures Next(s2, Score(f, score)).Moved? && Next(s2, Score(f, score)).state == s'
    ensures Flushed(s, s', agent, metadata, score) && f !in s'.flushes
  {
    s1 := Next(s, Check(f, agent, metadata)).state;
    s2, s' := QuietWrite(s1, f, agent, metadata, score);
    hide NextRead, NextReply;
  }

  lemma QuietWrite(s: State, f: nat, agent: nat, metadata: Metadata, score: nat) returns (s1: State, s': State)
    requires f in s.flushes && s.flushes[f] == Writing(agent, metadata, agent !in s.online)
    ensures Next(s, Write(f)).Moved? && Next(s, Write(f)).state == s1
    ensures Next(s1, Score(f, score)).Moved? && Next(s1, Score(f, score)).state == s'
    ensures Flushed(s, s', agent, metadata, score) && f !in s'.flushes
  {
    hide NextRead, NextReply;
    s1 := Next(s, Write(f)).state;
    assert s1.flushes[f] == Scoring(agent, s.sets + 1);
    s' := Next(s1, Score(f, score)).state;
  }

  lemma FlushRound(s: State, f: nat, agent: nat, metadata: Metadata, score: nat, rest: seq<Action>) returns (s': State)
    requires Quiet(s, f, agent) && IsNews(s, agent, metadata)
    ensures Exec(s, FlushRun(f, agent, metadata, score) + rest) == Exec(s', rest)
    ensures Flushed(s, s', agent, metadata, score) && f !in s'.flushes
  {
    var run := FlushRun(f, agent, metadata, score) + rest;
    assert run[1..][1..] == run[2..] && run[2..][1..] == rest;
    hide Exec, Next;
    var s1, s2;
    s1, s2, s' := QuietFlush(s, f, agent, metadata, score);
    ExecStep(s, s1, run);
    ExecStep(s1, s2, run[1..]);
    ExecStep(s2, s', run[2..]);
  }

  /** The missed agents of a call for one agent. */
  function Missed(s: State, agent: nat, now: int): set<nat>
    requires SameKeys(s.cache) && agent in s.scores
  {
    if IsMissed(s.cache, s.scores, now, agent) then {agent} else {}
  }

  lemma QuietRead(s: State, agent: nat, now: int)
    requires s.reader == None && SameKeys(s.cache) && agent in s.scores
    ensures Next(s, Read({agent}, now)).Moved?
    ensures Next(s, Read({agent}, now)).state == s.(cache := Keep(s.cache, {agent}),
              reader := Some(Fetch({agent}, s.scores, Missed(s, agent, now), now)))
  {
    var s' := NextRead(s, {agent}, now).state;
    assert s'.reader.value.missed == Missed(s, agent, now);
  }

  /** What a call for one agent leaves in the cache: what Redis holds if the agent was missed, else what was there. */
  ghost predicate ReadResult(s: State, c: Cache, agent: nat, now: int, ttl: int)
    requires SameKeys(s.cache) && agent in s.scores && agent in s.online
  {
    if IsMissed(s.cache, s.scores, now, agent) then
      c == Cache(map[agent := s.online[agent]], map[agent := Stamp(s.scores[agent], now + ttl)])
    else
      agent in s.cache.metadatas
      && c == Cache(map[agent := s.cache.metadatas[agent]], map[agent := s.cache.metatimes[agent]])
  }

  lemma OneRefilled(s: State, agent: nat, now: int, ttls: map<nat, int>)
    requires SameKeys(s.cache) && agent in s.scores && agent in s.online && agent in ttls
    ensures ReadResult(s, Refilled(Keep(s.cache, {agent}), Missed(s, agent, now), s.online, ttls, s.scores, now),
                       agent, now, ttls[agent])
  {
    var kept, found := Keep(s.cache, {agent}), Stamps(s.online, ttls, s.scores, now);
    if IsMissed(s.cache, s.scores, now, agent) {
      assert Overlay(kept.metadatas, {agent}, s.online) == map[agent := s.online[agent]];
      assert Overlay(kept.metatimes, {agent}, found) == map[agent := Stamp(s.scores[agent], now + ttls[agent])];
    } else {
      assert Overlay(kept.metadatas, {}, s.online) == map[agent := s.cache.metadatas[agent]];
      assert Overlay(kept.metatimes, {}, found) == map[agent := s.cache.metatimes[agent]];
    }
  }

  lemma ReadRound(s: State, agent: nat, now: int, ttls: map<nat, int>, rest: seq<Action>) returns (s': State)
    requires s.reader == None && SameKeys(s.cache) && agent in s.scores && agent in s.online && s.online.Keys <= ttls.Keys
    ensures Exec(s, ReadOne(agent, now, ttls) + rest) == Exec(s', rest)
    ensures s' == s.(cache := s'.cache) && ReadResult(s, s'.cache, agent, now, ttls[agent])
  {
    var run := ReadOne(agent, now, ttls) + rest;
    assert run[1..][1..] == rest;
    QuietRead(s, agent, now);
    var s1 := Next(s, Read({agent}, now)).state;
    s' := Next(s1, Reply(ttls)).state;
    OneRefilled(s, agent, now, ttls);
    hide Exec, Next, ReadResult;
    ExecStep(s, s1, run);
    ExecStep(s1, s', run[1..]);
  }

  /**
   * After a flush of an agent's metadata, a call for it returns that if and only if the cached value, if there
   * is one, has another score than the flush has given, or has reached the end of its time.
   */
  lemma FlushThenRead(s: State, f: nat, agent: nat, metadata: Metadata, score: nat, now: int, ttls: map<nat, int>,
                      rest: seq<Action>)
    returns (s': State)
    requires Quiet(s, f, agent) && IsNews(s, agent, metadata) && s.online.Keys + {agent} <= ttls.Keys
    ensures Exec(s, FlushAndRead(f, agent, metadata, score, now, ttls) + rest) == Exec(s', rest)
    ensures Quiet(s', f, agent) && s'.online == s.online[agent := Value(s.sets + 1, metadata)] && s'.sets == s.sets + 1
    ensures agent in s'.cache.metadatas
    ensures s'.cache.metadatas[agent] == s'.online[agent] <==>
              (agent in s.cache.metadatas ==> s.cache.metatimes[agent].score != score || s.cache.metatimes[agent].until < now)
    ensures s'.cache.metatimes[agent] == Stamp(score, if s'.cache.metadatas[agent] == s'.online[agent]
                                                      then now + ttls[agent] else s.cache.metatimes[agent].until)
  {
    hide Exec;
    var more := ReadOne(agent, now, ttls) + rest;
    var s1 := FlushRound(s, f, agent, metadata, score, more);
    assert FlushAndRead(f, agent, metadata, score, now, ttls) + rest == FlushRun(f, agent, metadata, score) + more;
    s' := ReadRound(s1, agent, now, ttls, rest);
  }

  /**
   * Two flushes of an agent, each followed by a call: the second call returns what the second flush wrote if and
   * only if the two ZADDs gave different scores, or the value that the first call left has reached the end of its time.
   */
  lemma SecondReadStale(s: State, f: nat, agent: nat, first: Metadata, second: Metadata, score1: nat, score2: nat,
                        now1: int, now2: int, ttls1: map<nat, int>, ttls2: map<nat, int>)
    returns (s1: State, s2: State)
    requires Quiet(s, f, agent) && IsNews(s, agent, first) && first.host == second.host && first != second
    requires s.online.Keys + {agent} <= ttls1.Keys && s.online.Keys + {agent} <= ttls2.Keys
    ensures Exec(s, FlushAndRead(f, agent, first, score1, now1, ttls1)) == Some(s1)
    ensures Exec(s1, FlushAndRead(f, agent, second, score2, now2, ttls2)) == Some(s2)
    ensures agent in s1.cache.metatimes && agent in s2.online && s2.online[agent] == Value(s.sets + 2, second)
    ensures agent in s2.cache.metadatas
    ensures s2.cache.metadatas[agent] == s2.online[agent] <==>
              score1 != score2 || s1.cache.metatimes[agent].until < now2
    ensures agent !in s.cache.metadatas ==> s1.cache.metatimes[agent].until == now1 + ttls1[agent]
  {
    hide Exec;
    s1 := FlushThenRead(s, f, agent, first, score1, now1, ttls1, []);
    s2 := FlushThenRead(s1, f, agent, second, score2, now2, ttls2, []);
    ExecNothing(s1);
    ExecNothing(s2);
    var run1 := FlushAndRead(f, agent, first, score1, now1, ttls1);
    var run2 := FlushAndRead(f, agent, second, score2, now2, ttls2);
    assert run1 + [] == run1 && run2 + [] == run2;
  }
}
