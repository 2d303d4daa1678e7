/**
 * The agent metadata cache of GlobalData (agents_metadata in
 * goperation/manager/gdata.py).
 *
 * A call takes the scores of all agents (ZRANGE), trusts a cached value whose
 * score is unchanged, and fetches the others (MGET).  It may sleep between the two
 * commands, so it is modelled as two methods.
 */
module MetadataCache {
  import opened Wrappers
  import opened NatSets

  /** host: the host an agent runs on; info: everything else in its metadata. */
  datatype Metadata = Metadata(host: nat, info: nat)

  /** version: the number of the SET that wrote the metadata, which the code does not store. */
  datatype Value = Value(version: nat, metadata: Metadata)

  /** metatimes: the score a value was cached under, and the second after which it is fetched again. */
  datatype Stamp = Stamp(score: nat, until: int)

  datatype Cache = Cache(metadatas: map<nat, Value>, metatimes: map<nat, Stamp>)

  datatype Error = AgentsNotFound

  predicate SameKeys(c: Cache) {
    c.metadatas.Keys == c.metatimes.Keys
  }

  function Restrict<V>(m: map<nat, V>, keys: set<nat>): map<nat, V> {
    map a | a in m && a in keys :: m[a]
  }

  /** m with the agents in missed overwritten by what was found for them, or dropped. */
  function Overlay<V>(m: map<nat, V>, missed: set<nat>, found: map<nat, V>): map<nat, V> {
    map a | a in m.Keys + missed && (a in missed ==> a in found) :: if a in missed then found[a] else m[a]
  }

  function Keep(c: Cache, agents: set<nat>): Cache {
    Cache(Restrict(c.metadatas, agents), Restrict(c.metatimes, agents))
  }

  /** The cached value may not be used: there is none, its score changed, or its time is over. */
  predicate IsMissed(c: Cache, scores: map<nat, nat>, now: int, agent: nat)
    requires SameKeys(c) && agent in scores
  {
    agent in c.metadatas ==> c.metatimes[agent].score != scores[agent] || c.metatimes[agent].until < now
  }

  /** The stamps of the agents that have an online key, whose remaining times are ttls. */
  function Stamps(online: map<nat, Value>, ttls: map<nat, int>, scores: map<nat, nat>, now: int): map<nat, Stamp> {
    map a | a in online && a in scores && a in ttls :: Stamp(scores[a], now + ttls[a])
  }

  /** The cache once the missed agents were fetched: found values are stored, the rest is dropped. */
  function Refilled(c: Cache, missed: set<nat>, online: map<nat, Value>, ttls: map<nat, int>,
                    scores: map<nat, nat>, now: int): Cache
  {
    Cache(Overlay(c.metadatas, missed, online), Overlay(c.metatimes, missed, Stamps(online, ttls, scores, now)))
  }

  lemma OverlayStep<V>(m: map<nat, V>, missed: set<nat>, agent: nat, found: map<nat, V>)
    ensures Overlay(m, missed + {agent}, found)
         == if agent in found then Overlay(m, missed, found)[agent := found[agent]] else Overlay(m, missed, found) - {agent}
  {
  }

  class GlobalData {
    var metadatas: map<nat, Value>
    var metatimes: map<nat, Stamp>

    constructor ()
      ensures metadatas == map[] && metatimes == map[]
    {
      metadatas, metatimes := map[], map[];
    }

    ghost function Cached(): Cache
      reads this
    {
      Cache(metadatas, metatimes)
    }

    /** agents_metadata between its ZRANGE and its MGET. */
    method Validate(scores: map<nat, nat>, agents: set<nat>, now: int) returns (r: Result<seq<nat>, Error>)
      requires SameKeys(Cached())
      modifies this
      ensures r.Err? <==> !(agents <= scores.Keys)
      ensures r.Err? ==> Cached() == old(Cached())
      ensures r.Ok? ==>
                && Cached() == Keep(old(Cached()), agents) && SameKeys(Cached())
                && forall a :: a in r.value <==> a in agents && IsMissed(Cached(), scores, now, a)
    {
      if !(agents <= scores.Keys) {
        return Err(AgentsNotFound);
      }
      DropOthers(agents);
      var missed := CollectMissed(scores, agents, now);
      return Ok(missed);
    }

    method DropOthers(agents: set<nat>)
      requires SameKeys(Cached())
      modifies this
      ensures Cached() == Keep(old(Cached()), agents)
      ensures SameKeys(Cached()) && metadatas.Keys <= agents
    {
      var deleted := metadatas.Keys - agents;
      while deleted != {}
        invariant deleted !! agents
        invariant metadatas == Restrict(old(metadatas), agents + deleted)
        invariant metatimes == Restrict(old(metatimes), agents + deleted)
        decreases deleted
      {
        var agent :| agent in deleted;
        metatimes := metatimes - {agent};
        metadatas := metadatas - {agent};
        deleted := deleted - {agent};
      }
      assert agents + deleted == agents;
    }

    method CollectMissed(scores: map<nat, nat>, agents: set<nat>, now: int) returns (missed: seq<nat>)
      requires SameKeys(Cached()) && metadatas.Keys <= agents <= scores.Keys
      ensures forall a :: a in missed <==> a in agents && IsMissed(Cached(), scores, now, a)
    {
      missed := [];
      var rest := agents;
      while rest != {}
        invariant rest <= agents
        invariant forall a :: a in missed <==> a in agents && a !in rest && IsMissed(Cached(), scores, now, a)
        decreases rest
      {
        var agent :| agent in rest;
        if agent !in metadatas {
          missed := missed + [agent];
        } else if metatimes[agent].score != scores[agent] || metatimes[agent].until < now {
          missed := missed + [agent];
        }
        rest := rest - {agent};
      }
    }

    /** agents_metadata after its MGET, which found the values in online with the remaining times ttls. */
    method Refill(missed: seq<nat>, online: map<nat, Value>, ttls: map<nat, int>, scores: map<nat, nat>, now: int)
      requires SameKeys(Cached()) && online.Keys <= ttls.Keys && (forall a | a in missed :: a in scores)
      modifies this
      ensures Cached() == Refilled(old(Cached()), Elements(missed), online, ttls, scores, now)
      ensures SameKeys(Cached())
    {
      ghost var found := Stamps(online, ttls, scores, now);
      ghost var values, times := metadatas, metatimes;
      for i := 0 to |missed|
        invariant metadatas == Overlay(values, Elements(missed[..i]), online)
        invariant metatimes == Overlay(times, Elements(missed[..i]), found)
      {
        var agent := missed[i];
        assert Elements(missed[..i + 1]) == Elements(missed[..i]) + {agent};
        OverlayStep(values, Elements(missed[..i]), agent, online);
        OverlayStep(times, Elements(missed[..i]), agent, found);
        hide Overlay;
        if agent in online {
          metatimes := metatimes[agent := Stamp(scores[agent], now + ttls[agent])];
          metadatas := metadatas[agent := online[agent]];
        } else {
          metatimes := metatimes - {agent};
          metadatas := metadatas - {agent};
        }
      }
      assert missed[..|missed|] == missed;
    }
  }
}
