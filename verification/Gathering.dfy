/**
 * Waiting for the agents of an asynchronous request (check_respone in
 * goperation/manager/rpc/server/__init__.py, norespones in
 * goperation/manager/utils/responeutils.py).
 *
 * Time is real and the code looks at whole seconds of it.  A sleep may last longer
 * than it was told, and anything between two sleeps takes time as well.
 */
module Gathering {

  class Clock {
    var now: real
    /** All the seconds that sleeps were told to last. */
    ghost var slept: nat

    constructor (start: real)
      ensures now == start && slept == 0
    {
      now, slept := start, 0;
    }

    /** Some time passes. */
    method Elapse()
      modifies this`now
      ensures now >= old(now)
    {
      var d: real := *;
      if d > 0.0 {
        now := now + d;
      }
    }

    method Sleep(seconds: nat)
      modifies this
      ensures now >= old(now) + seconds as real && slept == old(slept) + seconds
    {
      slept := slept + seconds;
      now := now + seconds as real;
      Elapse();
    }
  }

  /**
   * A turn of the polling loop that ran to its end: when it looked for answers, when it
   * compared the time with the finish time, and when with the deadline.
   */
  datatype Turn = Turn(poll: real, test: real, check: real)

  /** The agents that have no record at time t; stored says when the record of an agent was stored. */
  function Missing(agents: set<nat>, stored: map<nat, real>, t: real): set<nat> {
    set a | a in agents && !(a in stored && stored[a] <= t)
  }

  /** An agent is missing exactly if its record, if it has one, was stored later. */
  lemma MissingMeaning(agents: set<nat>, stored: map<nat, real>, t: real, a: nat)
    ensures a in Missing(agents, stored, t) <==> a in agents && (a in stored ==> stored[a] > t)
  {
  }

  predicate Late(turn: Turn, deadline: int) {
    turn.check.Floor > deadline
  }

  /** A turn is late once the whole second of the deadline has passed. */
  lemma LateMeaning(turn: Turn, deadline: int)
    ensures Late(turn, deadline) <==> turn.check >= deadline as real + 1.0
  {
  }

  /** A turn sleeps for the interval unless it finds the finish time over. */
  ghost predicate WellTimed(turn: Turn, finish: int, interval: nat) {
    && turn.poll <= turn.test <= turn.check
    && (turn.test.Floor < finish ==> turn.test + interval as real <= turn.check)
  }

  /** The turns of a loop; each but the first follows a sleep of one second. */
  ghost predicate IsRun(turns: seq<Turn>, finish: int, interval: nat) {
    && (forall i :: 0 <= i < |turns| ==> WellTimed(turns[i], finish, interval))
    && (forall i, j :: 0 <= i < j < |turns| ==> turns[i].check + 1.0 <= turns[j].poll)
  }

  /** The loop gives up at its grace-th late turn; the code has a grace of 2. */
  ghost predicate GivesUp(turns: seq<Turn>, deadline: int, grace: nat) {
    && 0 < grace <= |turns|
    && (forall i :: 0 <= i < |turns| ==> (Late(turns[i], deadline) <==> i >= |turns| - grace))
  }

  /** A record stored at time t, not after the deadline, is not seen by the last poll of the run. */
  ghost predicate Loses(turns: seq<Turn>, finish: int, interval: nat, deadline: int, grace: nat, t: real) {
    && IsRun(turns, finish, interval) && GivesUp(turns, deadline, grace)
    && t.Floor <= deadline && turns[|turns| - 1].poll < t
  }

  /** A loop that gives up at its grace-th late turn can lose a timely record if and only if the grace is 1. */
  lemma GraceOfTwo(finish: int, interval: nat, deadline: int, grace: nat)
    requires grace > 0
    ensures (exists turns, t :: Loses(turns, finish, interval, deadline, grace, t)) <==> grace == 1
  {
    if grace == 1 {
      var over := (if finish <= deadline then deadline + 1 else finish + 1) as real;
      var turns := [Turn(deadline as real, over, over)];
      assert Loses(turns, finish, interval, deadline, 1, deadline as real + 0.5);
    } else {
      forall turns: seq<Turn>, t: real |
        IsRun(turns, finish, interval) && GivesUp(turns, deadline, grace) && t.Floor <= deadline
        ensures turns[|turns| - 1].poll >= t
      {
        LastPollIsLate(turns, finish, interval, deadline, grace);
      }
    }
  }

  lemma LastPollIsLate(turns: seq<Turn>, finish: int, interval: nat, deadline: int, grace: nat)
    requires IsRun(turns, finish, interval) && GivesUp(turns, deadline, grace) && grace >= 2
    ensures turns[|turns| - 1].poll >= deadline as real + 1.0
  {
    var n := |turns|;
    assert Late(turns[n - 2], deadline);
    assert turns[n - 2].check + 1.0 <= turns[n - 1].poll;
  }

  /** The loop makes at most two turns more than there are seconds from its start to the deadline. */
  function MaxTurns(start: real, deadline: int): nat {
    if start.Floor <= deadline then deadline + 3 - start.Floor else 2
  }

  /** turns is a run from start on, of which exactly the last late ones were late. */
  ghost predicate Counted(turns: seq<Turn>, finish: int, interval: nat, deadline: int, start: real, late: nat) {
    && IsRun(turns, finish, interval) && late <= |turns|
    && (turns != [] ==> turns[0].poll >= start)
    && (forall i :: 0 <= i < |turns| ==> (Late(turns[i], deadline) <==> i >= |turns| - late))
  }

  /** The next turn can start now. */
  ghost predicate Ready(turns: seq<Turn>, start: real, now: real) {
    if turns == [] then start <= now else turns[|turns| - 1].check + 1.0 <= now
  }

  lemma TurnAdds(turns: seq<Turn>, finish: int, interval: nat, deadline: int, start: real, late: nat, turn: Turn)
    requires Counted(turns, finish, interval, deadline, start, late) && Ready(turns, start, turn.poll)
    requires WellTimed(turn, finish, interval)
    ensures Counted(turns + [turn], finish, interval, deadline, start, if Late(turn, deadline) then late + 1 else late)
  {
    var n := |turns|;
    if n > 0 {
      assert Late(turns[n - 1], deadline) ==> Late(turn, deadline);
      assert late > 0 ==> Late(turns[n - 1], deadline);
      forall i | 0 <= i < n ensures turns[i].check + 1.0 <= turn.poll {
        if i < n - 1 {
          assert turns[i].check + 1.0 <= turns[n - 1].poll;
          assert WellTimed(turns[n - 1], finish, interval);
        }
      }
    }
  }

  lemma FewTurns(turns: seq<Turn>, finish: int, interval: nat, deadline: int, start: real, late: nat)
    requires Counted(turns, finish, interval, deadline, start, late) && late <= 2
    ensures |turns| <= MaxTurns(start, deadline) == (if start.Floor <= deadline then deadline - start.Floor else -1) + 3
  {
    if |turns| > late {
      var i := |turns| - late - 1;
      PollsAdvance(turns, finish, interval, start, i);
      assert !Late(turns[i], deadline) && WellTimed(turns[i], finish, interval);
    }
  }

  lemma {:induction false} PollsAdvance(turns: seq<Turn>, finish: int, interval: nat, start: real, i: nat)
    requires IsRun(turns, finish, interval) && turns != [] && turns[0].poll >= start && i < |turns|
    ensures turns[i].poll >= start + i as real
  {
    if i > 0 {
      PollsAdvance(turns, finish, interval, start, i - 1);
      assert WellTimed(turns[i - 1], finish, interval);
    }
  }

  lemma CountedNone(finish: int, interval: nat, deadline: int, start: real)
    ensures Counted([], finish, interval, deadline, start, 0)
  {
  }

  /** The seconds that the turns sleep: an interval for each that finds the finish time ahead. */
  ghost function Naps(turns: seq<Turn>, finish: int, interval: nat): nat {
    if turns == [] then 0
    else Naps(turns[..|turns| - 1], finish, interval) + if turns[|turns| - 1].test.Floor < finish then interval else 0
  }

  lemma NapsNone(finish: int, interval: nat)
    ensures Naps([], finish, interval) == 0
  {
  }

  lemma NapsAdd(turns: seq<Turn>, finish: int, interval: nat, turn: Turn)
    ensures Naps(turns + [turn], finish, interval)
         == Naps(turns, finish, interval) + if turn.test.Floor < finish then interval else 0
  {
    assert (turns + [turn])[..|turns|] == turns;
  }

  /** A tenth of the time to wait, but at least three seconds and at most ten. */
  ghost predicate IsInterval(wait: int, interval: nat) {
    && 3 <= interval <= 10
    && (interval > 3 ==> 10 * interval <= wait)
    && (interval < 10 ==> wait < 10 * (interval + 1))
  }

  method Pause(wait: int) returns (interval: nat)
    ensures IsInterval(wait, interval)
  {
    var tenth := wait / 10;
    if tenth < 3 {
      tenth := 3;
    } else if tenth > 10 {
      tenth := 10;
    }
    return tenth;
  }

  /** The second half of a turn that began with a poll just now. */
  method FinishTurn(clock: Clock, finish: int, interval: nat) returns (ghost turn: Turn)
    modifies clock
    ensures WellTimed(turn, finish, interval) && turn.poll == old(clock.now) && turn.check == clock.now
    ensures clock.slept == old(clock.slept) + if turn.test.Floor < finish then interval else 0
  {
    clock.Elapse();
    ghost var test := clock.now;
    if clock.now.Floor < finish {
      clock.Sleep(interval);
    }
    clock.Elapse();
    turn := Turn(old(clock.now), test, clock.now);
  }

  lemma SecondLateTurn(turns: seq<Turn>, finish: int, interval: nat, deadline: int, start: real)
    requires Counted(turns, finish, interval, deadline, start, 2)
    ensures GivesUp(turns, deadline, 2) && turns[|turns| - 1].poll >= deadline as real + 1.0
  {
    LastPollIsLate(turns, finish, interval, deadline, 2);
  }

  /**
   * The part of check_respone up to the overtime records.  The agents it returns are those without a record
   * at the last poll; if there are any, the loop gave up at its second late turn.  No timely record is lost.
   * It sleeps three seconds at first if it has more than three to wait, an interval in every turn
   * before the finish time, and one second between two turns.
   */
  method Gather(clock: Clock, agents: set<nat>, stored: map<nat, real>, finish: int, deadline: int)
    returns (missing: set<nat>, ghost turns: seq<Turn>, ghost last: real, ghost interval: nat)
    modifies clock
    ensures IsInterval(finish - old(clock.now).Floor, interval)
    ensures clock.slept == old(clock.slept) + (if finish - old(clock.now).Floor > 3 then 3 else 0)
                           + Naps(turns, finish, interval)
                           + if missing == {} then |turns| else |turns| - 1
    ensures missing == Missing(agents, stored, last) && last <= clock.now
    ensures missing != {} ==> GivesUp(turns, deadline, 2) && last == turns[|turns| - 1].poll
    ensures forall a :: a in agents && a in stored && stored[a].Floor <= deadline ==> a !in missing
    ensures |turns| <= MaxTurns(old(clock.now), deadline)
  {
    hide Counted, WellTimed, GivesUp, IsRun, Naps, IsInterval;
    var wait := finish - clock.now.Floor;
    if wait > 3 {
      clock.Sleep(3);
    }
    missing := agents;
    var pause := Pause(wait);
    interval := pause;
    ghost var slept := clock.slept;
    var notOvertime := 2;
    turns := [];
    CountedNone(finish, interval, deadline, clock.now);
    NapsNone(finish, interval);
    ghost var start := clock.now;
    last := start;
    while true
      invariant Counted(turns, finish, interval, deadline, start, 2 - notOvertime) && Ready(turns, start, clock.now)
      invariant 1 <= notOvertime <= 2 && last <= clock.now
      invariant clock.slept == slept + Naps(turns, finish, interval) + |turns|
      invariant missing <= agents && forall a :: a in agents && a !in missing ==> a in stored && stored[a] <= last
      decreases if clock.now.Floor <= deadline then deadline + 1 - clock.now.Floor else 0, notOvertime
    {
      clock.Elapse();
      missing := Missing(missing, stored, clock.now);
      last := clock.now;
      if missing == {} {
        break;
      }
      ghost var turn := FinishTurn(clock, finish, pause);
      NapsAdd(turns, finish, interval, turn);
      TurnAdds(turns, finish, interval, deadline, start, 2 - notOvertime, turn);
      turns := turns + [turn];
      if clock.now.Floor > deadline {
        notOvertime := notOvertime - 1;
        if notOvertime == 0 {
          SecondLateTurn(turns, finish, interval, deadline, start);
          break;
        }
      }
      clock.Sleep(1);
    }
    FewTurns(turns, finish, interval, deadline, start, 2 - notOvertime);
  }
}
