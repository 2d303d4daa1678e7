/**
 * The response records of one asynchronous request (agentrespone and bluk_insert in
 * goperation/manager/utils/responeutils.py) and the code the request ends with
 * (goperation/manager/rpc/server/__init__.py).
 *
 * Each answer of an agent is one atomic step, and answers come between any two
 * insertions of the overtime records.
 */
module Responses {
  import opened Wrappers
  import opened NatSets

  /** OverFinishTime is RESULT_OVER_FINISHTIME; Other is any other code. */
  datatype Code = OverFinishTime | Other(code: int)

  datatype Record = Record(agent: nat, time: int, code: Code)

  type Records = map<nat, Record>

  /** KeyRemoved is the KeyError of removing an agent from a set that does not hold it. */
  datatype Error = KeyRemoved

  /** RESULT_SUCCESS and RESULT_NOT_ALL_SUCCESS. */
  datatype Ending = Success | NotAll

  datatype Step = Answer(record: Record) | Overtime(key: nat, record: Record)

  predicate Refuses(rows: Records, record: Record) {
    record.agent in rows && rows[record.agent].code != OverFinishTime
  }

  /** An answer is stored unless there is one that is not an overtime record. */
  function Answered(rows: Records, record: Record): Records {
    if Refuses(rows, record) then rows else rows[record.agent := record]
  }

  function Inserted(rows: Records, key: nat, record: Record): Records {
    if key in rows then rows else rows[key := record]
  }

  function Apply(rows: Records, step: Step): Records {
    match step
    case Answer(record) => Answered(rows, record)
    case Overtime(key, record) => Inserted(rows, key, record)
  }

  function Run(rows: Records, steps: seq<Step>): Records
    decreases |steps|
  {
    if steps == [] then rows else Run(Apply(rows, steps[0]), steps[1..])
  }

  /** Exactly an answer to an overtime record changes a record. */
  lemma RecordChanges(rows: Records, step: Step, agent: nat)
    requires agent in rows
    ensures agent in Apply(rows, step)
    ensures Apply(rows, step)[agent] != rows[agent] <==>
              && step.Answer? && step.record.agent == agent && rows[agent].code == OverFinishTime
              && step.record != rows[agent]
  {
  }

  /** Under any steps a record stays, and stays as it is once its code is not the overtime code. */
  lemma {:induction false} RecordsAreFinal(rows: Records, steps: seq<Step>, agent: nat)
    requires agent in rows
    ensures agent in Run(rows, steps)
    ensures rows[agent].code != OverFinishTime ==> Run(rows, steps)[agent] == rows[agent]
    decreases |steps|
  {
    if steps != [] {
      RecordChanges(rows, steps[0], agent);
      RecordsAreFinal(Apply(rows, steps[0]), steps[1..], agent);
    }
  }

  /** A step that leaves a record for the agent if there was none. */
  predicate Concerns(step: Step, agent: nat) {
    if step.Answer? then step.record.agent == agent else step.key == agent
  }

  ghost predicate SomeConcerns(steps: seq<Step>, agent: nat) {
    exists step :: step in steps && Concerns(step, agent)
  }

  /** An agent has a record after some steps exactly if it had one, or answered, or its key got an overtime record. */
  lemma {:induction false} RecordsComeFrom(rows: Records, steps: seq<Step>, agent: nat)
    ensures agent in Run(rows, steps) <==> agent in rows || SomeConcerns(steps, agent)
    decreases |steps|
  {
    if steps != [] {
      RecordsComeFrom(Apply(rows, steps[0]), steps[1..], agent);
      assert agent in Apply(rows, steps[0]) <==> agent in rows || Concerns(steps[0], agent);
      assert steps == [steps[0]] + steps[1..];
    }
  }

  lemma {:induction false} RunAppends(rows: Records, a: seq<Step>, b: seq<Step>)
    ensures Run(rows, a + b) == Run(Run(rows, a), b)
    decreases |a|
  {
    if a == [] {
      assert a + b == b;
    } else {
      assert (a + b)[1..] == a[1..] + b;
      RunAppends(Apply(rows, a[0]), a[1..], b);
    }
  }

  // ---- the overtime records ----

  function OvertimeRecord(agent: nat, time: int): Record {
    Record(agent, time, OverFinishTime)
  }

  function Answers(records: seq<Record>): (steps: seq<Step>)
    ensures |steps| == |records| && forall i :: 0 <= i < |records| ==> steps[i] == Answer(records[i])
  {
    seq(|records|, i requires 0 <= i < |records| => Answer(records[i]))
  }

  /**
   * What happens up to the i-th insertion, without it.  order is the order of the agents in bulk_data,
   * late[j] the answers that arrive right before the j-th insertion, and keys the keys that are written.
   */
  function Before(keys: seq<nat>, order: seq<nat>, time: int, late: seq<seq<Record>>, i: nat): seq<Step>
    requires i < |order| == |late| == |keys|
    decreases i, 1
  {
    After(keys, order, time, late, i) + Answers(late[i])
  }

  /** What happens up to and with the first i insertions. */
  function After(keys: seq<nat>, order: seq<nat>, time: int, late: seq<seq<Record>>, i: nat): seq<Step>
    requires i <= |order| == |late| == |keys|
    decreases i, 0
  {
    if i == 0 then []
    else Before(keys, order, time, late, i - 1) + [Overtime(keys[i - 1], OvertimeRecord(order[i - 1], time))]
  }

  /** The i-th insertion finds a record under its key. */
  predicate Collides(rows: Records, keys: seq<nat>, order: seq<nat>, time: int, late: seq<seq<Record>>, i: nat)
    requires i < |order| == |late| == |keys|
  {
    keys[i] in Run(rows, Before(keys, order, time, late, i))
  }

  function Collisions(rows: Records, keys: seq<nat>, order: seq<nat>, time: int, late: seq<seq<Record>>, i: nat): nat
    requires i <= |order| == |late| == |keys|
  {
    if i == 0 then 0
    else Collisions(rows, keys, order, time, late, i - 1) + if Collides(rows, keys, order, time, late, i - 1) then 1 else 0
  }

  /** The keys bluk_insert writes in Redis: that of the first agent, for all of them. */
  function RedisKeys(order: seq<nat>): (keys: seq<nat>)
    ensures |keys| == |order| && forall i :: 0 <= i < |order| ==> keys[i] == order[0]
  {
    seq(|order|, i requires 0 <= i < |order| => order[0])
  }

  /** What bluk_insert leaves of the agents after so many collisions: each removes the first agent. */
  function Left(order: seq<nat>, collisions: nat): Result<set<nat>, Error> {
    if collisions == 0 then Ok(Elements(order))
    else if collisions == 1 && order != [] then Ok(Elements(order) - {order[0]})
    else Err(KeyRemoved)
  }

  // ---- what an agent that does not answer has for a record ----

  /** The agent does not answer while bluk_insert runs. */
  ghost predicate Silent(late: seq<seq<Record>>, agent: nat) {
    forall j, record :: 0 <= j < |late| && record in late[j] ==> record.agent != agent
  }

  lemma {:induction false} OthersLeaveRecord(rows: Records, steps: seq<Step>, agent: nat)
    requires forall step :: step in steps ==> !Concerns(step, agent)
    ensures agent in Run(rows, steps) <==> agent in rows
    ensures agent in rows ==> Run(rows, steps)[agent] == rows[agent]
    decreases |steps|
  {
    if steps != [] {
      assert steps[0] in steps && forall step :: step in steps[1..] ==> step in steps;
      OthersLeaveRecord(Apply(rows, steps[0]), steps[1..], agent);
    }
  }

  /** The record under the key is the one of insertion j, the first of those before i that write it. */
  ghost predicate MarkedBy(keys: seq<nat>, order: seq<nat>, time: int, i: nat, key: nat, j: nat, record: Record)
    requires i <= |order| == |keys|
  {
    j < i && keys[j] == key && (forall k :: 0 <= k < j ==> keys[k] != key)
    && record == Record(order[j], time, OverFinishTime)
  }

  /** A key without a record or an answer is left alone until it is written, and then holds an overtime record. */
  lemma {:induction false} FirstInsertionStays(keys: seq<nat>, rows: Records, order: seq<nat>, time: int,
                                               late: seq<seq<Record>>, i: nat, key: nat)
    requires i <= |order| == |late| == |keys| && key !in rows && Silent(late, key)
    ensures var after := Run(rows, After(keys, order, time, late, i));
            if key in after then exists j :: MarkedBy(keys, order, time, i, key, j, after[key])
            else key !in keys[..i]
  {
    if i > 0 {
      FirstInsertionStays(keys, rows, order, time, late, i - 1, key);
      var before, answers := After(keys, order, time, late, i - 1), Answers(late[i - 1]);
      RunAppends(rows, before, answers);
      OthersLeaveRecord(Run(rows, before), answers, key);
      var last := [Overtime(keys[i - 1], Record(order[i - 1], time, OverFinishTime))];
      assert After(keys, order, time, late, i) == (before + answers) + last;
      RunAppends(rows, before + answers, last);
      RunOne(Run(rows, before + answers), last[0]);
      assert keys[..i] == keys[..i - 1] + [keys[i - 1]];
      var was, now := Run(rows, before), Run(rows, After(keys, order, time, late, i));
      hide Run, After, Silent;
      if key in was {
        var j :| MarkedBy(keys, order, time, i - 1, key, j, was[key]);
        assert MarkedBy(keys, order, time, i, key, j, now[key]);
      } else if keys[i - 1] == key {
        assert MarkedBy(keys, order, time, i, key, i - 1, now[key]);
      }
    }
  }

  /** With the database, an agent of the batch that had no record and does not answer ends with its own overtime record. */
  lemma RowsAreMarked(rows: Records, order: seq<nat>, time: int, late: seq<seq<Record>>, agent: nat)
    requires |order| == |late| && agent in order && agent !in rows && Silent(late, agent)
    ensures var after := Run(rows, After(order, order, time, late, |order|));
            agent in after && after[agent] == Record(agent, time, OverFinishTime)
  {
    FirstInsertionStays(order, rows, order, time, late, |order|, agent);
    assert order[..|order|] == order;
  }

  /** In Redis so does the first agent. */
  lemma KeyIsMarked(rows: Records, order: seq<nat>, time: int, late: seq<seq<Record>>)
    requires |order| == |late| && order != [] && order[0] !in rows && Silent(late, order[0])
    ensures var after := Run(rows, After(RedisKeys(order), order, time, late, |order|));
            order[0] in after && after[order[0]] == Record(order[0], time, OverFinishTime)
  {
    var keys := RedisKeys(order);
    FirstInsertionStays(keys, rows, order, time, late, |order|, order[0]);
    assert keys[0] == order[0] && keys[..|order|] == keys;
  }

  /** The next answer to an overtime record is accepted and stored, and is final unless it is one itself. */
  lemma LateAnswerStored(rows: Records, agent: nat, time: int, answer: Record, steps: seq<Step>)
    requires agent in rows && rows[agent] == Record(agent, time, OverFinishTime) && answer.agent == agent
    ensures !Refuses(rows, answer)
    ensures Apply(rows, Answer(answer)) == rows[agent := answer]
    ensures answer.code != OverFinishTime ==>
              var after := Run(Apply(rows, Answer(answer)), steps); agent in after && after[agent] == answer
  {
    RecordsAreFinal(Apply(rows, Answer(answer)), steps, agent);
  }

  class Storage {
    var rows: Records

    constructor ()
      ensures rows == map[]
    {
      rows := map[];
    }

    method AgentRespone(record: Record) returns (accepted: bool)
      modifies this
      ensures rows == Apply(old(rows), Answer(record))
      ensures accepted <==> !Refuses(old(rows), record)
      ensures accepted ==> record.agent in rows && rows[record.agent] == record
    {
      if record.agent in rows {
        if rows[record.agent].code != OverFinishTime {
          return false;
        }
      }
      rows := rows[record.agent := record];
      return true;
    }

    method AnswerAll(records: seq<Record>)
      modifies this
      ensures rows == Run(old(rows), Answers(records))
    {
      ghost var steps := Answers(records);
      for i := 0 to |records|
        invariant rows == Run(old(rows), steps[..i])
      {
        var _ := AgentRespone(records[i]);
        assert steps[..i + 1] == steps[..i] + [steps[i]];
        RunAppends(old(rows), steps[..i], [steps[i]]);
        RunOne(Run(old(rows), steps[..i]), steps[i]);
      }
      assert steps[..|records|] == steps;
    }

    /** One insertion of bluk_insert, which fails if there is a record under the key. */
    method InsertNew(key: nat, record: Record) returns (duplicate: bool)
      modifies this
      ensures rows == Apply(old(rows), Overtime(key, record))
      ensures duplicate <==> key in old(rows)
    {
      duplicate := key in rows;
      if !duplicate {
        rows := rows[key := record];
      }
    }

    /** bluk_insert into the database. */
    method BlukInsertRows(order: seq<nat>, time: int, late: seq<seq<Record>>) returns (r: Result<set<nat>, Error>)
      requires |order| == |late|
      modifies this
      ensures r == Left(order, Collisions(old(rows), order, order, time, late, |order|))
      ensures r.Ok? ==> rows == Run(old(rows), After(order, order, time, late, |order|))
      ensures r.Ok? ==> forall agent :: agent in order && agent !in old(rows) && Silent(late, agent) ==>
                agent in rows && rows[agent] == Record(agent, time, OverFinishTime)
    {
      r := BlukInsert(order, order, time, late);
      hide Run, After, Silent, Left, Collisions;
      forall agent | r.Ok? && agent in order && agent !in old(rows) && Silent(late, agent)
        ensures agent in rows && rows[agent] == Record(agent, time, OverFinishTime)
      {
        RowsAreMarked(old(rows), order, time, late, agent);
      }
    }

    /** bluk_insert into Redis. */
    method BlukInsertKeys(order: seq<nat>, time: int, late: seq<seq<Record>>) returns (r: Result<set<nat>, Error>)
      requires |order| == |late|
      modifies this
      ensures r == Left(order, Collisions(old(rows), RedisKeys(order), order, time, late, |order|))
      ensures r.Ok? ==> rows == Run(old(rows), After(RedisKeys(order), order, time, late, |order|))
      ensures r.Ok? && order != [] && order[0] !in old(rows) && Silent(late, order[0]) ==>
                order[0] in rows && rows[order[0]] == Record(order[0], time, OverFinishTime)
    {
      r := BlukInsert(RedisKeys(order), order, time, late);
      hide Run, After, Silent, Left, Collisions;
      if r.Ok? && order != [] && order[0] !in old(rows) && Silent(late, order[0]) {
        KeyIsMarked(old(rows), order, time, late);
      }
    }

    method BlukInsert(keys: seq<nat>, order: seq<nat>, time: int, late: seq<seq<Record>>)
      returns (r: Result<set<nat>, Error>)
      requires |order| == |late| == |keys|
      modifies this
      ensures r == Left(order, Collisions(old(rows), keys, order, time, late, |order|))
      ensures r.Ok? ==> rows == Run(old(rows), After(keys, order, time, late, |order|))
    {
      ghost var before := rows;
      var agents := Elements(order);
      for i := 0 to |order|
        invariant rows == Run(before, After(keys, order, time, late, i))
        invariant Ok(agents) == Left(order, Collisions(before, keys, order, time, late, i))
        invariant i == 0 ==> agents == Elements(order)
      {
        AnswerAll(late[i]);
        RunAppends(before, After(keys, order, time, late, i), Answers(late[i]));
        var record := OvertimeRecord(order[i], time);
        var duplicate := InsertNew(keys[i], record);
        RunAppends(before, Before(keys, order, time, late, i), [Overtime(keys[i], record)]);
        RunOne(Run(before, Before(keys, order, time, late, i)), Overtime(keys[i], record));
        if duplicate {
          if order[0] !in agents {
            CollisionsGrow(before, keys, order, time, late, i + 1);
            return Err(KeyRemoved);
          }
          agents := agents - {order[0]};
        }
      }
      return Ok(agents);
    }
  }

  lemma RunOne(rows: Records, step: Step)
    ensures Run(rows, [step]) == Apply(rows, step)
  {
    assert [step][1..] == [];
  }

  lemma {:induction false} CollisionsGrow(rows: Records, keys: seq<nat>, order: seq<nat>, time: int,
                                          late: seq<seq<Record>>, i: nat)
    requires i <= |order| == |late| == |keys|
    ensures Collisions(rows, keys, order, time, late, i) <= Collisions(rows, keys, order, time, late, |order|)
    decreases |order| - i
  {
    if i < |order| {
      CollisionsGrow(rows, keys, order, time, late, i + 1);
    }
  }

  // ---- how a request ends ----

  /** The agent has answered itself, before the i-th insertion. */
  ghost predicate AnsweredBefore(rows: Records, late: seq<seq<Record>>, i: nat, agent: nat)
    requires i < |late|
  {
    agent in rows || exists j, record :: 0 <= j <= i && record in late[j] && record.agent == agent
  }

  lemma {:induction false} StepsBefore(keys: seq<nat>, order: seq<nat>, time: int, late: seq<seq<Record>>,
                                       i: nat, agent: nat)
    requires i < |order| == |late| == |keys|
    ensures SomeConcerns(Before(keys, order, time, late, i), agent) <==>
              || (exists j, record :: 0 <= j <= i && record in late[j] && record.agent == agent)
              || (exists j :: 0 <= j < i && keys[j] == agent)
    decreases i
  {
    var before, answers := After(keys, order, time, late, i), Answers(late[i]);
    ConcernsAppend(before, answers, agent);
    AnswersConcern(late[i], agent);
    if i > 0 {
      var last := Overtime(keys[i - 1], OvertimeRecord(order[i - 1], time));
      ConcernsAppend(Before(keys, order, time, late, i - 1), [last], agent);
      assert SomeConcerns([last], agent) <==> keys[i - 1] == agent by {
        assert last in [last];
      }
      StepsBefore(keys, order, time, late, i - 1, agent);
      hide SomeConcerns, Before, After;
    }
  }

  lemma ConcernsAppend(a: seq<Step>, b: seq<Step>, agent: nat)
    ensures SomeConcerns(a + b, agent) <==> SomeConcerns(a, agent) || SomeConcerns(b, agent)
  {
  }

  lemma AnswersConcern(records: seq<Record>, agent: nat)
    ensures SomeConcerns(Answers(records), agent) <==> exists record :: record in records && record.agent == agent
  {
    assert forall i :: 0 <= i < |records| ==> Answers(records)[i] in Answers(records);
  }

  /** Before its own insertion into the database, only an agent itself can have left a record. */
  lemma RowCollides(rows: Records, order: seq<nat>, time: int, late: seq<seq<Record>>, i: nat)
    requires i < |order| == |late| && (forall j, k :: 0 <= j < k < |order| ==> order[j] != order[k])
    ensures Collides(rows, order, order, time, late, i) <==> AnsweredBefore(rows, late, i, order[i])
  {
    RecordsComeFrom(rows, Before(order, order, time, late, i), order[i]);
    StepsBefore(order, order, time, late, i, order[i]);
  }

  /** In Redis every insertion but the first one collides. */
  lemma KeyCollides(rows: Records, order: seq<nat>, time: int, late: seq<seq<Record>>, i: nat)
    requires i < |order| == |late|
    ensures Collides(rows, RedisKeys(order), order, time, late, i) <==> i > 0 || AnsweredBefore(rows, late, 0, order[0])
  {
    var keys := RedisKeys(order);
    RecordsComeFrom(rows, Before(keys, order, time, late, i), order[0]);
    StepsBefore(keys, order, time, late, i, order[0]);
    assert i > 0 ==> keys[0] == order[0];
  }

  /** The result code of a request, from what bluk_insert leaves of the agents without an answer. */
  function EndOf(left: Result<set<nat>, Error>): Result<Ending, Error> {
    match left
    case Err(e) => Err(e)
    case Ok(agents) => if agents == {} then Ok(Success) else Ok(NotAll)
  }

  function EndingOf(redis: bool, rows: Records, order: seq<nat>, time: int,
                    late: seq<seq<Record>>): Result<Ending, Error>
    requires |order| == |late|
  {
    EndOf(Left(order, Collisions(rows, if redis then RedisKeys(order) else order, order, time, late, |order|)))
  }

  /** How many collisions there were, in terms of which. */
  lemma {:induction false} CountCollisions(rows: Records, keys: seq<nat>, order: seq<nat>, time: int,
                                           late: seq<seq<Record>>, n: nat)
    requires n <= |order| == |late| == |keys|
    ensures Collisions(rows, keys, order, time, late, n) == 0 <==>
              forall i :: 0 <= i < n ==> !Collides(rows, keys, order, time, late, i)
    ensures Collisions(rows, keys, order, time, late, n) >= 2 <==>
              exists i, j :: 0 <= i < j < n && Collides(rows, keys, order, time, late, i)
                                            && Collides(rows, keys, order, time, late, j)
  {
    if n > 0 {
      CountCollisions(rows, keys, order, time, late, n - 1);
      hide Collides;
    }
  }

  lemma SuccessLeft(order: seq<nat>, collisions: nat)
    requires collisions <= |order| && (forall j, k :: 0 <= j < k < |order| ==> order[j] != order[k])
    ensures EndOf(Left(order, collisions)) == Ok(Success) <==> |order| <= 1 && collisions == |order|
  {
    if |order| == 1 {
      assert Elements(order) == {order[0]};
    } else if |order| >= 2 {
      assert order[0] != order[1] && order[1] in Elements(order) - {order[0]};
    }
  }

  lemma {:induction false} CollisionsBound(rows: Records, keys: seq<nat>, order: seq<nat>, time: int,
                                           late: seq<seq<Record>>, n: nat)
    requires n <= |order| == |late| == |keys|
    ensures Collisions(rows, keys, order, time, late, n) <= n
  {
    if n > 0 {
      CollisionsBound(rows, keys, order, time, late, n - 1);
    }
  }

  ghost predicate AllAnswered(rows: Records, order: seq<nat>, late: seq<seq<Record>>)
    requires |order| == |late|
  {
    forall i :: 0 <= i < |order| ==> AnsweredBefore(rows, late, i, order[i])
  }

  /**
   * With the database, of the agents that had no record at the last poll: a request ends with success exactly if there
   * is at most one and it answers in time; it never ends, for a KeyError, exactly if two of them answer in time.
   */
  lemma RowEnding(rows: Records, order: seq<nat>, time: int, late: seq<seq<Record>>)
    requires |order| == |late| && (forall j, k :: 0 <= j < k < |order| ==> order[j] != order[k])
    ensures EndingOf(false, rows, order, time, late) == Ok(Success) <==> |order| <= 1 && AllAnswered(rows, order, late)
    ensures EndingOf(false, rows, order, time, late).Err? <==>
              exists i, j :: 0 <= i < j < |order| && AnsweredBefore(rows, late, i, order[i])
                                                  && AnsweredBefore(rows, late, j, order[j])
  {
    CountCollisions(rows, order, order, time, late, |order|);
    forall i | 0 <= i < |order|
      ensures Collides(rows, order, order, time, late, i) <==> AnsweredBefore(rows, late, i, order[i])
    {
      RowCollides(rows, order, time, late, i);
    }
    CollisionsBound(rows, order, order, time, late, |order|);
    SuccessLeft(order, Collisions(rows, order, order, time, late, |order|));
    hide Collides, AnsweredBefore, Collisions;
  }

  /**
   * With Redis, where all agents are written under the first one's key: a request never ends
   * exactly if there are three agents without a record, or two of which the first one answers in time.
   */
  lemma KeyEnding(rows: Records, order: seq<nat>, time: int, late: seq<seq<Record>>)
    requires |order| == |late| && (forall j, k :: 0 <= j < k < |order| ==> order[j] != order[k])
    ensures EndingOf(true, rows, order, time, late) == Ok(Success) <==> |order| <= 1 && AllAnswered(rows, order, late)
    ensures EndingOf(true, rows, order, time, late).Err? <==>
              |order| >= 3 || (|order| == 2 && AnsweredBefore(rows, late, 0, order[0]))
  {
    var keys := RedisKeys(order);
    CountCollisions(rows, keys, order, time, late, |order|);
    forall i | 0 <= i < |order|
      ensures Collides(rows, keys, order, time, late, i) <==> i > 0 || AnsweredBefore(rows, late, 0, order[0])
    {
      KeyCollides(rows, order, time, late, i);
    }
    CollisionsBound(rows, keys, order, time, late, |order|);
    SuccessLeft(order, Collisions(rows, keys, order, time, late, |order|));
    hide Collides, AnsweredBefore, Collisions;
    if |order| >= 3 {
      assert Collides(rows, keys, order, time, late, 1) && Collides(rows, keys, order, time, late, 2);
    }
  }

  /**
   * A request ends with the success code only if every agent it waited for has answered.
   * rows is what the last poll saw, and order the agents it missed.
   */
  lemma SuccessIsSound(redis: bool, waited: set<nat>, rows: Records, order: seq<nat>, time: int,
                       late: seq<seq<Record>>, agent: nat)
    requires |order| == |late| && (forall j, k :: 0 <= j < k < |order| ==> order[j] != order[k])
    requires Elements(order) == waited - rows.Keys
    requires EndingOf(redis, rows, order, time, late) == Ok(Success) && agent in waited
    ensures agent in rows || exists j, record :: 0 <= j < |late| && record in late[j] && record.agent == agent
  {
    if redis {
      KeyEnding(rows, order, time, late);
    } else {
      RowEnding(rows, order, time, late);
    }
    if agent !in rows {
      assert agent in Elements(order);
      assert AnsweredBefore(rows, late, 0, order[0]);
    }
  }

  /** After bluk_insert, an agent has a record exactly if it had one, or answered, or its key was written. */
  lemma OvertimeWritten(keys: seq<nat>, rows: Records, order: seq<nat>, time: int, late: seq<seq<Record>>, agent: nat)
    requires |order| == |late| == |keys|
    ensures agent in Run(rows, After(keys, order, time, late, |order|)) <==>
              || agent in rows || agent in keys
              || exists j, record :: 0 <= j < |late| && record in late[j] && record.agent == agent
  {
    var n := |order|;
    RecordsComeFrom(rows, After(keys, order, time, late, n), agent);
    if n > 0 {
      var last := Overtime(keys[n - 1], OvertimeRecord(order[n - 1], time));
      ConcernsAppend(Before(keys, order, time, late, n - 1), [last], agent);
      assert SomeConcerns([last], agent) <==> keys[n - 1] == agent by {
        assert last in [last];
      }
      StepsBefore(keys, order, time, late, n - 1, agent);
      hide SomeConcerns, Before, After, Run;
    }
  }
}
