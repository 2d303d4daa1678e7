/**
 * The lock keys of GlobalData in Redis (_lock_all_agents, _lock_endpoint and
 * garbage_key_collection in goperation/manager/gdata.py) with the background reaper
 * of keys whose deletion failed (safe_delete, add_garbage_keys and
 * garbage_collector_loop in goperation/redis/client.py).
 *
 * A step is one Redis command of one green thread, or what it does between two.
 * Every thread of a process locks with the same mark, which is the process here.
 */
module LockKeys {
  import opened Wrappers

  /** What a lock key holds: the mark of a whole-key lock, or the members locked one by one. */
  datatype Stored = Mark(process: nat) | Members(ids: set<nat>)

  /** A with block of some green thread that locks a key, or the reaper of a process. */
  datatype Who = Call(id: nat) | Reaper(process: nat)

  /**
   * Held: inside the lock.  Deleting: in the loop of garbage_key_collection.
   * The others are safe_delete before its WATCH, before its GET, and before its EXEC.
   */
  datatype Stage =
    | Held
    | Deleting
    | Popped
    | Watched(version: nat)
    | Matched(version: nat)

  /** stopped: the reaper took the key after its main loop; errors: its failures since then. */
  datatype Task = Task(process: nat, key: nat, stage: Stage, stopped: bool, errors: nat)

  /** An entry of the garbage_keys of a process; its mark is that of the process. */
  datatype Slot = Slot(process: nat, key: nat)

  /** versions: how often each key was written, which WATCH compares. */
  datatype State = State(kv: map<nat, Stored>, versions: map<nat, nat>, tasks: map<Who, Task>,
                         garbage: set<Slot>, running: set<nat>)

  const INIT := State(map[], map[], map[], {}, {})

  /** applied: the failing command took effect before the error. */
  datatype Action =
    | Start(process: nat)
    | Stop(process: nat)
    | TryLock(call: nat, process: nat, key: nat)
    | Leave(call: nat)
    | Delete(call: nat)
    | DeleteFails(call: nat, applied: bool, late: bool)
    | Pop(process: nat, key: nat)
    | Watch(who: Who)
    | Get(who: Who)
    | Reap(who: Who)
    | ReapFails(who: Who, applied: bool)
    | SAdd(key: nat, ids: set<nat>)
    | SRem(key: nat, ids: set<nat>)

  function Version(s: State, key: nat): nat {
    if key in s.versions then s.versions[key] else 0
  }

  function Written(s: State, key: nat, kv: map<nat, Stored>): State {
    s.(kv := kv, versions := s.versions[key := Version(s, key) + 1])
  }

  function Deleted(s: State, key: nat): State {
    if key in s.kv then Written(s, key, s.kv - {key}) else s
  }

  function Put(s: State, key: nat, what: Stored): State {
    Written(s, key, s.kv[key := what])
  }

  function At(s: State, who: Who, stage: Stage): State
    requires who in s.tasks
  {
    s.(tasks := s.tasks[who := s.tasks[who].(stage := stage)])
  }

  function Gone(s: State, who: Who): State {
    s.(tasks := s.tasks - {who})
  }

  /** setdefault of a key into the garbage of its process, by a task that ends with it. */
  function ToGarbage(s: State, who: Who): State
    requires who in s.tasks
  {
    Gone(s, who).(garbage := s.garbage + {Slot(s.tasks[who].process, s.tasks[who].key)})
  }

  ghost predicate AtStage(s: State, who: Who, stage: Stage) {
    who in s.tasks && s.tasks[who].stage == stage
  }

  function NextCall(s: State, a: Action): Outcome<State>
    requires a.TryLock? || a.Leave? || a.Delete? || a.DeleteFails?
  {
    var who := Call(a.call);
    if a.TryLock? then
      if who in s.tasks then Disabled
      else if a.key in s.kv then Moved(s)
      else Moved(Put(s, a.key, Mark(a.process)).(tasks := s.tasks[who := Task(a.process, a.key, Held, false, 0)]))
    else if who !in s.tasks then Disabled
    else
      var key := s.tasks[who].key;
      match a
      case Leave(_) => if s.tasks[who].stage == Held then Moved(At(s, who, Deleting)) else Disabled
      case Delete(_) => if s.tasks[who].stage == Deleting then Moved(Gone(Deleted(s, key), who)) else Disabled
      case DeleteFails(_, applied, late) =>
        if s.tasks[who].stage != Deleting then Disabled
        else
          var s' := if applied then Deleted(s, key) else s;
          if !late then Moved(s')
          else if s.tasks[who].process in s.running then Moved(ToGarbage(s', who))
          else Moved(At(s', who, Popped))
  }

  /** safe_delete of a reaper found the key changed. */
  function Dropped(s: State, who: Who): State
    requires who in s.tasks
  {
    if s.tasks[who].stopped then At(s, who, Popped) else Gone(s, who)
  }

  /** safe_delete failed with a connection error. */
  function Failed(s: State, who: Who): State
    requires who in s.tasks
  {
    var task := s.tasks[who];
    if who.Call? then Gone(s, who)
    else if !task.stopped then ToGarbage(s, who)
    else if task.errors < 4 then s.(tasks := s.tasks[who := task.(stage := Popped, errors := task.errors + 1)])
    else Gone(s, who)
  }

  function NextReap(s: State, a: Action): Outcome<State>
    requires a.Watch? || a.Get? || a.Reap? || a.ReapFails?
  {
    if a.who !in s.tasks then Disabled
    else
      var task, key := s.tasks[a.who], s.tasks[a.who].key;
      match a
      case Watch(who) => if task.stage == Popped then Moved(At(s, who, Watched(Version(s, key)))) else Disabled
      case Get(who) =>
        if !task.stage.Watched? then Disabled
        else if key !in s.kv then Moved(Gone(s, who))
        else if s.kv[key].Members? then (if who.Call? then Raised(Gone(s, who)) else Moved(Gone(s, who)))
        else if s.kv[key] == Mark(task.process) then Moved(At(s, who, Matched(task.stage.version)))
        else Moved(Gone(s, who))
      case Reap(who) =>
        if !task.stage.Matched? then Disabled
        else if task.stage.version == Version(s, key) then Moved(Gone(Deleted(s, key), who))
        else if who.Call? then Raised(Gone(s, who))
        else Moved(Dropped(s, who))
      case ReapFails(who, applied) =>
        if task.stage == Held || task.stage == Deleting then Disabled
        else if applied && task.stage == Matched(Version(s, key)) then Moved(Failed(Deleted(s, key), who))
        else Moved(Failed(s, who))
  }

  function Next(s: State, a: Action): Outcome<State> {
    match a
    case Start(p) => Moved(s.(running := s.running + {p}))
    case Stop(p) => Moved(s.(running := s.running - {p}))
    case Pop(p, key) =>
      if Slot(p, key) !in s.garbage || Reaper(p) in s.tasks then Disabled
      else Moved(s.(garbage := s.garbage - {Slot(p, key)},
                    tasks := s.tasks[Reaper(p) := Task(p, key, Popped, p !in s.running, 0)]))
    case SAdd(key, ids) =>
      if key in s.kv && s.kv[key].Mark? then Raised(s)
      else if key in s.kv then Moved(Put(s, key, Members(s.kv[key].ids + ids)))
      else Moved(Put(s, key, Members(ids)))
    case SRem(key, ids) =>
      if key !in s.kv then Moved(s)
      else if s.kv[key].Mark? then Raised(s)
      else if s.kv[key].ids <= ids then Moved(Deleted(s, key))
      else Moved(Put(s, key, Members(s.kv[key].ids - ids)))
    case TryLock(_, _, _) => NextCall(s, a)
    case Leave(_) => NextCall(s, a)
    case Delete(_) => NextCall(s, a)
    case DeleteFails(_, _, _) => NextCall(s, a)
    case _ => NextReap(s, a)
  }

  /** The state after a sequence of steps, if all of them were enabled. */
  function Exec(s: State, actions: seq<Action>): Option<State>
    decreases |actions|
  {
    if actions == [] then Some(s)
    else
      match Next(s, actions[0])
      case Disabled => None
      case Moved(s') => Exec(s', actions[1..])
      case Raised(s') => Exec(s', actions[1..])
  }

  /** A delete that raised did not take effect. */
  predicate Clean(a: Action) {
    (a.DeleteFails? ==> !a.applied) && (a.ReapFails? ==> !a.applied)
  }

  // ---- every lock key belongs to at most one claimant ----

  /** Those who will delete a key some day: a task, or an entry of the garbage of a process. */
  datatype Claimant = Doing(who: Who) | Pending(process: nat)

  ghost predicate Claims(s: State, c: Claimant, key: nat) {
    match c
    case Doing(who) => who in s.tasks && s.tasks[who].key == key
    case Pending(p) => Slot(p, key) in s.garbage
  }

  function Claimed(s: State, c: Claimant): nat {
    match c
    case Doing(who) => if who in s.tasks then s.tasks[who].process else 0
    case Pending(p) => p
  }

  /** A claimed key carries the mark of the claimant's process. */
  ghost predicate Marked(s: State) {
    forall c, key :: Claims(s, c, key) ==> key in s.kv && s.kv[key] == Mark(Claimed(s, c))
  }

  ghost predicate OneClaim(s: State) {
    forall c, d, key :: Claims(s, c, key) && Claims(s, d, key) ==> c == d
  }

  /** What a reaper watched has not been written since. */
  ghost predicate Unwritten(s: State) {
    forall who :: who in s.tasks ==>
      && (s.tasks[who].stage.Watched? ==> s.tasks[who].stage.version == Version(s, s.tasks[who].key))
      && (s.tasks[who].stage.Matched? ==> s.tasks[who].stage.version == Version(s, s.tasks[who].key))
      && (who.Reaper? ==> s.tasks[who].process == who.process && s.tasks[who].stage != Held && s.tasks[who].stage != Deleting)
  }

  ghost predicate Inv(s: State) {
    Marked(s) && OneClaim(s) && Unwritten(s)
  }

  /** Writing a key that nobody claims. */
  lemma WriteFreeKeeps(s: State, key: nat, kv: map<nat, Stored>)
    requires Inv(s) && (forall c :: !Claims(s, c, key)) && (forall k :: k != key && k in s.kv ==> k in kv && kv[k] == s.kv[k])
    ensures Inv(Written(s, key, kv))
  {
    var s' := Written(s, key, kv);
    assert forall c, k :: Claims(s', c, k) <==> Claims(s, c, k);
    forall who | who in s.tasks ensures s.tasks[who].key != key {
      assert !Claims(s, Doing(who), key);
    }
  }

  lemma UnmarkedIsFree(s: State, key: nat)
    requires Inv(s) && (key in s.kv ==> s.kv[key].Members?)
    ensures forall c :: !Claims(s, c, key)
  {
  }

  lemma LockKeeps(s: State, call: nat, p: nat, key: nat)
    requires Inv(s) && Call(call) !in s.tasks && key !in s.kv
    ensures Inv(Next(s, TryLock(call, p, key)).state)
  {
    var who := Call(call);
    UnmarkedIsFree(s, key);
    var s' := Next(s, TryLock(call, p, key)).state;
    forall c, k | Claims(s', c, k) ensures (c == Doing(who) && k == key) || (Claims(s, c, k) && k != key) {
      assert c != Doing(who) ==> Claims(s, c, k);
    }
    forall w | w in s.tasks ensures s.tasks[w].key != key {
      assert !Claims(s, Doing(w), key);
    }
  }

  /** The task of a claim moves on to another stage of its work, without writing. */
  lemma AtKeeps(s: State, who: Who, stage: Stage, errors: nat)
    requires Inv(s) && who in s.tasks
    requires stage.Watched? ==> stage.version == Version(s, s.tasks[who].key)
    requires stage.Matched? ==> stage.version == Version(s, s.tasks[who].key)
    requires who.Reaper? ==> stage != Held && stage != Deleting
    ensures Inv(s.(tasks := s.tasks[who := s.tasks[who].(stage := stage, errors := errors)]))
  {
    var s' := s.(tasks := s.tasks[who := s.tasks[who].(stage := stage, errors := errors)]);
    assert forall c, k :: Claims(s', c, k) <==> Claims(s, c, k);
  }

  lemma GoneKeeps(s: State, who: Who)
    requires Inv(s)
    ensures Inv(Gone(s, who))
  {
    var s' := Gone(s, who);
    assert forall c, k :: Claims(s', c, k) ==> Claims(s, c, k);
  }

  lemma ToGarbageKeeps(s: State, who: Who)
    requires Inv(s) && who in s.tasks
    ensures Inv(ToGarbage(s, who))
  {
    var p, key := s.tasks[who].process, s.tasks[who].key;
    var s' := ToGarbage(s, who);
    assert Claims(s, Doing(who), key);
    assert forall c, k :: Claims(s', c, k) ==> (c == Pending(p) && k == key) || (Claims(s, c, k) && c != Doing(who));
  }

  lemma PopKeeps(s: State, p: nat, key: nat)
    requires Inv(s) && Next(s, Pop(p, key)).Moved?
    ensures Inv(Next(s, Pop(p, key)).state)
  {
    var s' := Next(s, Pop(p, key)).state;
    assert Claims(s, Pending(p), key);
    assert forall c, k :: Claims(s', c, k) ==>
        (c == Doing(Reaper(p)) && k == key) || (Claims(s, c, k) && !(c == Pending(p) && k == key));
  }

  /** The claimant of a key deletes it and is done. */
  lemma DeletedKeeps(s: State, who: Who)
    requires Inv(s) && who in s.tasks
    ensures Inv(Gone(Deleted(s, s.tasks[who].key), who))
  {
    var key := s.tasks[who].key;
    assert Claims(s, Doing(who), key);
    var s' := Gone(s, who);
    GoneKeeps(s, who);
    forall c ensures !Claims(s', c, key) {
      assert Claims(s', c, key) ==> Claims(s, c, key);
    }
    WriteFreeKeeps(s', key, s'.kv - {key});
  }

  lemma {:induction false} NextKeeps(s: State, a: Action)
    requires Inv(s) && Clean(a) && !Next(s, a).Disabled?
    ensures Inv(Next(s, a).state)
  {
    if a.Pop? {
      PopKeeps(s, a.process, a.key);
    } else if a.SAdd? || a.SRem? {
      if Next(s, a).Moved? {
        UnmarkedIsFree(s, a.key);
        WriteFreeKeeps(s, a.key, Next(s, a).state.kv);
      }
    } else if a.TryLock? {
      if a.key !in s.kv {
        LockKeeps(s, a.call, a.process, a.key);
      }
    } else if a.Leave? || a.Delete? || a.DeleteFails? {
      ThreadKeeps(s, a);
    } else if a.Watch? || a.Get? || a.Reap? || a.ReapFails? {
      ReapKeeps(s, a);
    } else {
      var s' := Next(s, a).state;
      assert forall c, k :: Claims(s', c, k) <==> Claims(s, c, k);
    }
  }

  lemma ThreadKeeps(s: State, a: Action)
    requires Inv(s) && Clean(a) && (a.Leave? || a.Delete? || a.DeleteFails?) && NextCall(s, a).Moved?
    ensures Inv(NextCall(s, a).state)
  {
    var who := Call(a.call);
    var errors := s.tasks[who].errors;
    AtKeeps(s, who, Deleting, errors);
    AtKeeps(s, who, Popped, errors);
    ToGarbageKeeps(s, who);
    DeletedKeeps(s, who);
    hide Inv;
  }

  lemma ReapKeeps(s: State, a: Action)
    requires Inv(s) && Clean(a) && (a.Watch? || a.Get? || a.Reap? || a.ReapFails?)
    requires !NextReap(s, a).Disabled?
    ensures Inv(NextReap(s, a).state)
  {
    var who := a.who;
    var task := s.tasks[who];
    AtKeeps(s, who, Popped, task.errors);
    AtKeeps(s, who, Popped, task.errors + 1);
    AtKeeps(s, who, Watched(Version(s, task.key)), task.errors);
    AtKeeps(s, who, Matched(Version(s, task.key)), task.errors);
    GoneKeeps(s, who);
    ToGarbageKeeps(s, who);
    DeletedKeeps(s, who);
    assert task.stage.Watched? ==> task.stage.version == Version(s, task.key);
    hide Inv;
  }

  ghost predicate AllClean(actions: seq<Action>) {
    forall i :: 0 <= i < |actions| ==> Clean(actions[i])
  }

  lemma {:induction false} ExecKeeps(s: State, actions: seq<Action>)
    requires Inv(s) && AllClean(actions) && Exec(s, actions).Some?
    ensures Inv(Exec(s, actions).value)
    decreases |actions|
  {
    if actions != [] {
      NextKeeps(s, actions[0]);
      hide Inv, Next;
      ExecKeeps(Next(s, actions[0]).state, actions[1..]);
    }
  }

  ghost predicate Inside(s: State, call: nat, key: nat) {
    Call(call) in s.tasks && s.tasks[Call(call)].key == key && s.tasks[Call(call)].stage == Held
  }

  /**
   * After every run, failed deletes and reapers included: at most one holder a key; the key of a holder
   * carries the mark of its process; and a key in some garbage_keys carries the mark of that process and has no holder.
   */
  lemma LocksExclude(actions: seq<Action>, key: nat)
    requires AllClean(actions) && Exec(INIT, actions).Some?
    ensures var s := Exec(INIT, actions).value;
            && (forall c, d :: Inside(s, c, key) && Inside(s, d, key) ==> c == d)
            && (forall c :: Inside(s, c, key) ==> key in s.kv && s.kv[key] == Mark(s.tasks[Call(c)].process))
            && (forall p :: Slot(p, key) in s.garbage ==>
                  key in s.kv && s.kv[key] == Mark(p) && forall c :: !Inside(s, c, key))
  {
    ExecKeeps(INIT, actions);
    var s := Exec(INIT, actions).value;
    assert forall c :: Inside(s, c, key) ==> Claims(s, Doing(Call(c)), key);
    assert forall p :: Slot(p, key) in s.garbage ==> Claims(s, Pending(p), key);
  }

  /** A member lock is granted only when nobody is inside the whole-key lock, or will still delete it. */
  lemma MembersExclude(s: State, key: nat, ids: set<nat>)
    requires Inv(s)
    ensures Next(s, SAdd(key, ids)).Moved? ==>
              (forall c :: !Inside(s, c, key)) && (forall c :: !Claims(s, c, key))
    ensures (exists c :: Inside(s, c, key)) ==> Next(s, SAdd(key, ids)) == Raised(s)
  {
    assert forall c :: Inside(s, c, key) ==> Claims(s, Doing(Call(c)), key);
  }

  /** While a call is inside, no step takes the key from it, and only its own Leave ends the lock. */
  lemma HolderStays(s: State, a: Action, call: nat, key: nat)
    requires Inv(s) && Clean(a) && !Next(s, a).Disabled? && Inside(s, call, key)
    ensures var s' := Next(s, a).state;
            && key in s.kv && key in s'.kv && s'.kv[key] == s.kv[key]
            && (a != Leave(call) ==> Inside(s', call, key))
  {
    assert Claims(s, Doing(Call(call)), key);
    if a.Delete? || a.DeleteFails? {
      assert Claims(s, Doing(Call(a.call)), s.tasks[Call(a.call)].key);
    } else if a.Reap? || a.ReapFails? {
      assert Claims(s, Doing(a.who), s.tasks[a.who].key);
    }
  }

  /** Reaping a key never finds it changed: GET sees the mark, and EXEC deletes the key. */
  lemma ReaperFinds(s: State, who: Who)
    requires Inv(s) && who in s.tasks
    ensures s.tasks[who].stage.Watched? ==>
              Next(s, Get(who)).Moved? && AtStage(Next(s, Get(who)).state, who, Matched(Version(s, s.tasks[who].key)))
    ensures s.tasks[who].stage.Matched? ==>
              s.tasks[who].key in s.kv && Next(s, Reap(who)).state.kv == s.kv - {s.tasks[who].key}
  {
    assert Claims(s, Doing(who), s.tasks[who].key);
  }

  /** An attempt to lock gets inside exactly if the key is not there, and else changes nothing. */
  lemma TryLockMeaning(s: State, call: nat, process: nat, key: nat)
    requires Call(call) !in s.tasks
    ensures var tried := Next(s, TryLock(call, process, key));
            && tried.Moved?
            && (Inside(tried.state, call, key) <==> key !in s.kv)
            && (key !in s.kv ==> tried.state.kv == s.kv[key := Mark(process)])
            && (key in s.kv ==> tried.state == s)
  {
  }

  /** The members that are locked one by one; the key is there exactly while there are any. */
  ghost function MembersOf(s: State, key: nat): set<nat> {
    if key in s.kv && s.kv[key].Members? then s.kv[key].ids else {}
  }

  /** Members are added and removed unless the whole key is locked; then both raise and change nothing. */
  lemma MembersMeaning(s: State, key: nat, ids: set<nat>)
    requires ids != {}
    ensures var locked := key in s.kv && s.kv[key].Mark?;
            var added, removed := Next(s, SAdd(key, ids)), Next(s, SRem(key, ids));
            && (if locked then added == Raised(s) && removed == Raised(s) else added.Moved? && removed.Moved?)
            && (!locked ==> MembersOf(added.state, key) == MembersOf(s, key) + ids && key in added.state.kv)
            && (!locked ==> MembersOf(removed.state, key) == MembersOf(s, key) - ids
                            && (key in removed.state.kv ==> removed.state.kv[key] != Members({})))
  {
    if key in s.kv && s.kv[key].Members? {
      var members := s.kv[key].ids;
      if members <= ids {
        assert members - ids == {};
      } else {
        var id :| id in members && id !in ids;
        assert id in members - ids;
      }
    }
  }

  /**
   * A deletion that raised is tried again; when the time is up, it is left to the reaper of a running process, and
   * the call tries it once more itself if the process has stopped.
   */
  lemma LateDelete(s: State, call: nat, key: nat, late: bool)
    requires AtStage(s, Call(call), Deleting) && s.tasks[Call(call)].key == key
    ensures var s' := Next(s, DeleteFails(call, false, late)).state; var p := s.tasks[Call(call)].process;
            && Next(s, DeleteFails(call, false, late)).Moved? && s'.kv == s.kv
            && (!late ==> s' == s)
            && (late && p in s.running ==> Call(call) !in s'.tasks && s'.garbage == s.garbage + {Slot(p, key)})
            && (late && p !in s.running ==> AtStage(s', Call(call), Popped) && s'.garbage == s.garbage)
  {
  }

  /** A reaper that fails puts the key back if its process ran when it took it, and else tries again itself. */
  lemma ReaperRetries(s: State, p: nat, key: nat)
    requires Slot(p, key) in s.garbage && Reaper(p) !in s.tasks
    ensures var popped := Next(s, Pop(p, key));
            && popped.Moved? && Slot(p, key) !in popped.state.garbage && AtStage(popped.state, Reaper(p), Popped)
            && var failed := Next(popped.state, ReapFails(Reaper(p), false));
               && failed.Moved? && failed.state.kv == s.kv
               && (Slot(p, key) in failed.state.garbage <==> p in s.running)
               && (AtStage(failed.state, Reaper(p), Popped) <==> p !in s.running)
  {
    var popped := Next(s, Pop(p, key)).state;
    assert popped.tasks[Reaper(p)].key == key;
  }

  /** Whoever stores, changes or removes a key is seen by all that watch it. */
  lemma WritesAreSeen(s: State, a: Action, key: nat)
    requires !Next(s, a).Disabled?
    ensures var s' := Next(s, a).state;
            && Version(s, key) <= Version(s', key)
            && ((key in s.kv) != (key in s'.kv) || (key in s.kv && s.kv[key] != s'.kv[key]) ==>
                  Version(s, key) < Version(s', key))
  {
  }

  /**
   * safe_delete deletes the key exactly if nobody has written it since the WATCH.  If somebody has, a call
   * raises, a reaper forgets the key, and one that works after the stop looks again.
   */
  lemma ReapMeaning(s: State, who: Who, key: nat, version: nat)
    requires AtStage(s, who, Matched(version)) && s.tasks[who].key == key
    ensures var reaped := Next(s, Reap(who)); var seen := version != Version(s, key);
            && !reaped.Disabled?
            && reaped.state.kv == (if seen then s.kv else s.kv - {key})
            && (reaped.Raised? <==> seen && who.Call?)
            && (who in reaped.state.tasks <==> seen && who.Reaper? && s.tasks[who].stopped)
            && (who in reaped.state.tasks ==> AtStage(reaped.state, who, Popped))
  {
  }

  /** Only its own mark makes safe_delete go on; a call raises at a key that holds members. */
  lemma LookMeaning(s: State, who: Who, key: nat, version: nat)
    requires AtStage(s, who, Watched(version)) && s.tasks[who].key == key
    ensures var looked := Next(s, Get(who));
            && !looked.Disabled? && looked.state.kv == s.kv
            && (looked.Raised? <==> who.Call? && key in s.kv && s.kv[key].Members?)
            && (who in looked.state.tasks <==> key in s.kv && s.kv[key] == Mark(s.tasks[who].process))
            && (who in looked.state.tasks ==> AtStage(looked.state, who, Matched(version)))
  {
  }

  /** WATCH remembers how often the key was written; a failing command changes the key only if it took effect after all. */
  lemma WatchMeaning(s: State, who: Who, key: nat, applied: bool)
    requires who in s.tasks && s.tasks[who].key == key
    ensures AtStage(s, who, Popped) ==>
              Next(s, Watch(who)) == Moved(s.(tasks := s.tasks[who := s.tasks[who].(stage := Watched(Version(s, key)))]))
    ensures Next(s, ReapFails(who, applied)).Disabled? <==> AtStage(s, who, Held) || AtStage(s, who, Deleting)
    ensures !Next(s, ReapFails(who, applied)).Disabled? ==>
              Next(s, ReapFails(who, applied)).Moved?
              && Next(s, ReapFails(who, applied)).state.kv
                 == if applied && AtStage(s, who, Matched(Version(s, key))) then s.kv - {key} else s.kv
  {
  }

  /** Processes start and stop. */
  lemma RunningMeaning(s: State, p: nat)
    ensures Next(s, Start(p)) == Moved(s.(running := s.running + {p}))
    ensures Next(s, Stop(p)) == Moved(s.(running := s.running - {p}))
  {
  }

  function Failures(who: Who, n: nat): seq<Action> {
    if n == 0 then [] else [ReapFails(who, false)] + Failures(who, n - 1)
  }

  /** A reaper that took a key after the stop still has it after n failures exactly if n is below five. */
  lemma {:induction false} FiveTries(s: State, p: nat, key: nat, n: nat, done: nat)
    requires Reaper(p) in s.tasks && s.tasks[Reaper(p)] == Task(p, key, Popped, true, done) && done + n <= 5 && done < 5
    ensures Exec(s, Failures(Reaper(p), n)).Some?
    ensures var s' := Exec(s, Failures(Reaper(p), n)).value;
            && s'.kv == s.kv && s'.garbage == s.garbage
            && (Reaper(p) in s'.tasks <==> done + n < 5)
            && (done + n < 5 ==> s'.tasks[Reaper(p)] == Task(p, key, Popped, true, done + n))
    decreases n
  {
    if n > 0 {
      var run := Failures(Reaper(p), n);
      assert run[0] == ReapFails(Reaper(p), false) && run[1..] == Failures(Reaper(p), n - 1);
      var s1 := Next(s, run[0]).state;
      ExecStep(s, s1, run);
      if done == 4 {
        assert n == 1 && Failures(Reaper(p), 0) == [];
        ExecNothing(s1);
      } else {
        FiveTries(s1, p, key, n - 1, done + 1);
      }
    }
  }

  // ---- no lock is forgotten, but for failing deletions of a process that has stopped ----

  ghost predicate SomeClaim(s: State, key: nat) {
    exists c :: Claims(s, c, key)
  }

  /** Whoever locked a key will still delete it, or somebody else will for it. */
  ghost predicate AllClaimed(s: State) {
    forall key :: key in s.kv && s.kv[key].Mark? ==> SomeClaim(s, key)
  }

  /**
   * The step gives up on a key: a single deletion that a call tries once its own process has stopped fails, or
   * a reaper that took the key after the stop of its process fails for the fifth time.
   */
  ghost predicate GivesUp(s: State, a: Action) {
    && a.ReapFails? && a.who in s.tasks
    && (a.who.Call? || (s.tasks[a.who].stopped && s.tasks[a.who].errors >= 4))
  }

  /** Exactly these two steps leave a lock key that nobody will delete. */
  lemma ForgettingSteps(s: State, a: Action)
    requires Inv(s) && AllClaimed(s) && Clean(a) && !Next(s, a).Disabled?
    ensures AllClaimed(Next(s, a).state) <==> !GivesUp(s, a)
  {
    var s' := Next(s, a).state;
    if GivesUp(s, a) {
      var who, key := a.who, s.tasks[a.who].key;
      assert Claims(s, Doing(who), key);
      forall c ensures !Claims(s', c, key) {
        assert Claims(s', c, key) ==> Claims(s, c, key) && c != Doing(who);
      }
      assert key in s'.kv && s'.kv[key].Mark?;
    } else {
      forall key | key in s'.kv && s'.kv[key].Mark? ensures SomeClaim(s', key) {
        StaysClaimed(s, a, key);
      }
    }
  }

  /** A key that is marked after the step has a claimant then. */
  lemma StaysClaimed(s: State, a: Action, key: nat)
    requires Inv(s) && AllClaimed(s) && Clean(a) && !Next(s, a).Disabled? && !GivesUp(s, a)
    requires key in Next(s, a).state.kv && Next(s, a).state.kv[key].Mark?
    ensures SomeClaim(Next(s, a).state, key)
  {
    var s' := Next(s, a).state;
    if key in s.kv && s.kv[key].Mark? {
      var c :| Claims(s, c, key);
      ClaimMoves(s, a, c, key);
    } else {
      NewMark(s, a, key);
    }
  }

  /** A mark appears only with the call that puts it. */
  lemma NewMark(s: State, a: Action, key: nat)
    requires !Next(s, a).Disabled? && (key in s.kv ==> !s.kv[key].Mark?)
    requires key in Next(s, a).state.kv && Next(s, a).state.kv[key].Mark?
    ensures a.TryLock? && a.key == key && Claims(Next(s, a).state, Doing(Call(a.call)), key)
  {
  }

  /** Where the claim of a key goes that is still marked after the step. */
  lemma ClaimMoves(s: State, a: Action, c: Claimant, key: nat)
    requires Inv(s) && Claims(s, c, key) && Clean(a) && !Next(s, a).Disabled? && !GivesUp(s, a)
    requires key in Next(s, a).state.kv && Next(s, a).state.kv[key].Mark?
    ensures SomeClaim(Next(s, a).state, key)
  {
    var s' := Next(s, a).state;
    if a.Pop? && c == Pending(a.process) && key == a.key {
      assert Claims(s', Doing(Reaper(a.process)), key);
    } else if (a.Leave? || a.Delete? || a.DeleteFails?) && c == Doing(Call(a.call)) {
      CallClaim(s, a, key);
    } else if (a.Watch? || a.Get? || a.Reap? || a.ReapFails?) && c == Doing(a.who) {
      ReapClaim(s, a, key);
    } else {
      assert Claims(s', c, key);
    }
  }

  lemma CallClaim(s: State, a: Action, key: nat)
    requires Inv(s) && (a.Leave? || a.Delete? || a.DeleteFails?) && Clean(a) && !Next(s, a).Disabled?
    requires Claims(s, Doing(Call(a.call)), key) && key in Next(s, a).state.kv
    ensures SomeClaim(Next(s, a).state, key)
  {
    var s', who := Next(s, a).state, Call(a.call);
    assert Claims(s', Doing(who), key) || Claims(s', Pending(s.tasks[who].process), key);
  }

  lemma ReapClaim(s: State, a: Action, key: nat)
    requires Inv(s) && (a.Watch? || a.Get? || a.Reap? || a.ReapFails?) && Clean(a)
    requires !Next(s, a).Disabled? && !GivesUp(s, a)
    requires Claims(s, Doing(a.who), key) && key in Next(s, a).state.kv
    ensures SomeClaim(Next(s, a).state, key)
  {
    var s' := Next(s, a).state;
    assert Claims(s', Doing(a.who), key) || Claims(s', Pending(s.tasks[a.who].process), key);
  }

  /** No step of the run gives up on a key. */
  ghost predicate NeverGivesUp(s: State, actions: seq<Action>)
    decreases |actions|
  {
    actions != [] && !Next(s, actions[0]).Disabled? ==>
      !GivesUp(s, actions[0]) && NeverGivesUp(Next(s, actions[0]).state, actions[1..])
  }

  lemma {:induction false} ExecClaimed(s: State, actions: seq<Action>)
    requires Inv(s) && AllClaimed(s) && AllClean(actions) && NeverGivesUp(s, actions) && Exec(s, actions).Some?
    ensures AllClaimed(Exec(s, actions).value)
    decreases |actions|
  {
    if actions != [] {
      NextKeeps(s, actions[0]);
      ForgettingSteps(s, actions[0]);
      hide Inv, Next, AllClaimed, GivesUp;
      ExecClaimed(Next(s, actions[0]).state, actions[1..]);
    }
  }

  /** So after every run without such a step, every lock key is inside a lock, being deleted, or in some garbage. */
  lemma LocksAreRemembered(actions: seq<Action>, key: nat)
    requires AllClean(actions) && NeverGivesUp(INIT, actions) && Exec(INIT, actions).Some?
    ensures var s := Exec(INIT, actions).value;
            key in s.kv && s.kv[key].Mark? ==> exists c :: Claims(s, c, key)
  {
    ExecClaimed(INIT, actions);
  }

  /** A lock key that nobody claims. */
  ghost predicate Forgotten(s: State, key: nat) {
    key in s.kv && s.kv[key].Mark? && !SomeClaim(s, key)
  }

  lemma ForgottenStays(s: State, a: Action, key: nat)
    requires Inv(s) && Clean(a) && !Next(s, a).Disabled? && Forgotten(s, key)
    ensures Forgotten(Next(s, a).state, key) && Next(s, a).state.kv[key] == s.kv[key]
  {
    var s' := Next(s, a).state;
    forall who | who in s.tasks ensures s.tasks[who].key != key {
      assert !Claims(s, Doing(who), key);
    }
    forall c ensures !Claims(s', c, key) {
      assert !Claims(s, c, key);
      if a.Pop? {
        assert !Claims(s, Pending(a.process), key);
      }
    }
  }

  /** Such a key is never free again: in every run each attempt to lock it fails, and so does every member lock. */
  lemma {:induction false} ForgottenForever(s: State, actions: seq<Action>, key: nat, call: nat, process: nat,
                                            ids: set<nat>)
    requires Inv(s) && AllClean(actions) && Exec(s, actions).Some? && Forgotten(s, key)
    ensures var s' := Exec(s, actions).value;
            && Forgotten(s', key)
            && (Call(call) !in s'.tasks ==> Next(s', TryLock(call, process, key)) == Moved(s'))
            && Next(s', SAdd(key, ids)) == Raised(s')
    decreases |actions|
  {
    if actions != [] {
      NextKeeps(s, actions[0]);
      ForgottenStays(s, actions[0], key);
      hide Inv, Next, Forgotten;
      ForgottenForever(Next(s, actions[0]).state, actions[1..], key, call, process, ids);
    }
  }

  // ---- when a delete that raised did take effect ----

  lemma ExecStep(s: State, s': State, actions: seq<Action>)
    requires actions != [] && Next(s, actions[0]).Moved? && Next(s, actions[0]).state == s'
    ensures Exec(s, actions) == Exec(s', actions[1..])
  {
  }

  lemma ExecNothing(s: State)
    ensures Exec(s, []) == Some(s)
  {
  }

  /** The delete of p's lock takes effect and raises, q locks the key, and p deletes it again. */
  function RetriedDelete(p: nat, q: nat, r: nat, key: nat): seq<Action> {
    [TryLock(0, p, key), Leave(0), DeleteFails(0, true, false), TryLock(1, q, key), Delete(0), TryLock(2, r, key)]
  }

  lemma RetryBreaksLock(p: nat, q: nat, r: nat, key: nat)
    ensures Exec(INIT, RetriedDelete(p, q, r, key)).Some?
    ensures var s := Exec(INIT, RetriedDelete(p, q, r, key)).value; Inside(s, 1, key) && Inside(s, 2, key)
  {
    var run := RetriedDelete(p, q, r, key);
    var s1 := Next(INIT, run[0]).state;
    var s2 := Next(s1, run[1]).state;
    var s3 := Next(s2, run[2]).state;
    assert key !in s3.kv;
    var s4 := Next(s3, run[3]).state;
    var s5 := Next(s4, run[4]).state;
    assert key !in s5.kv && Inside(s5, 1, key);
    var s6 := Next(s5, run[5]).state;
    hide Exec, Next;
    ExecStep(INIT, s1, run);
    ExecStep(s1, s2, run[1..]);
    ExecStep(s2, s3, run[2..]);
    ExecStep(s3, s4, run[3..]);
    ExecStep(s4, s5, run[4..]);
    ExecStep(s5, s6, run[5..]);
    ExecNothing(s6);
    assert run[1..][1..] == run[2..] && run[2..][1..] == run[3..] && run[3..][1..] == run[4..];
    assert run[4..][1..] == run[5..] && run[5..][1..] == [];
  }

  ghost predicate Shares(actions: seq<Action>, c: nat, d: nat, key: nat) {
    Exec(INIT, actions).Some? && Inside(Exec(INIT, actions).value, c, key) && Inside(Exec(INIT, actions).value, d, key)
  }

  /** Two calls can be inside the lock of one key. */
  ghost predicate CanShare(applied: bool) {
    exists actions, c, d, key :: c != d && (applied || AllClean(actions)) && Shares(actions, c, d, key)
  }

  /** Locks exclude each other in every run if and only if a delete that raised never took effect. */
  lemma ExclusionNeedsCleanDeletes(applied: bool)
    ensures CanShare(applied) <==> applied
  {
    RetryBreaksLock(0, 1, 2, 3);
    assert Shares(RetriedDelete(0, 1, 2, 3), 1, 2, 3);
    if !applied {
      forall actions, c, d, key | AllClean(actions) && Shares(actions, c, d, key) ensures c == d {
        LocksExclude(actions, key);
      }
    }
  }

  /** The delete of p's lock takes effect and raises, q locks the key, and p's reaper looks at it. */
  function ReapedLock(p: nat, q: nat, key: nat): seq<Action> {
    [Start(p), TryLock(0, p, key), Leave(0), DeleteFails(0, true, true), TryLock(1, q, key),
     Pop(p, key), Watch(Reaper(p)), Get(Reaper(p))]
  }

  /** The mark keeps the reaper off the locks of other processes, and only of those. */
  lemma ReaperTakesOwnMark(p: nat, q: nat, key: nat)
    ensures Exec(INIT, ReapedLock(p, q, key)).Some?
    ensures var s := Exec(INIT, ReapedLock(p, q, key)).value;
            && Inside(s, 1, key) && key in s.kv && s.kv[key] == Mark(q)
            && (Next(s, Reap(Reaper(p))).Moved? <==> p == q)
            && (p == q ==> key !in Next(s, Reap(Reaper(p))).state.kv && Inside(Next(s, Reap(Reaper(p))).state, 1, key))
  {
    var run := ReapedLock(p, q, key);
    var s4 := FailedDelete(p, q, key, run);
    var s5 := Next(s4, run[4]).state;
    var s6 := PoppedLock(p, q, key, s4, s5);
    var s8 := LookedLock(p, q, key, s6);
    var s7 := Next(s6, run[6]).state;
    hide Exec, Next;
    ExecStep(s4, s5, run[4..]);
    ExecStep(s5, s6, run[5..]);
    ExecStep(s6, s7, run[6..]);
    ExecStep(s7, s8, run[7..]);
    ExecNothing(s8);
    assert run[4..][1..] == run[5..] && run[5..][1..] == run[6..] && run[6..][1..] == run[7..] && run[7..][1..] == [];
  }

  lemma PoppedLock(p: nat, q: nat, key: nat, s: State, s': State) returns (s'': State)
    requires s.kv == map[] && s.tasks == map[] && s.garbage == {Slot(p, key)} && s.running == {p}
    requires s' == Next(s, TryLock(1, q, key)).state
    ensures Next(s, TryLock(1, q, key)).Moved?
    ensures Next(s', Pop(p, key)).Moved? && Next(s', Pop(p, key)).state == s''
    ensures AtStage(s'', Reaper(p), Popped) && s''.tasks[Reaper(p)] == Task(p, key, Popped, false, 0)
    ensures Inside(s'', 1, key) && key in s''.kv && s''.kv[key] == Mark(q)
  {
    assert s'.kv[key] == Mark(q) && Inside(s', 1, key) && Slot(p, key) in s'.garbage;
    s'' := Next(s', Pop(p, key)).state;
  }

  lemma LookedLock(p: nat, q: nat, key: nat, s: State) returns (s': State)
    requires AtStage(s, Reaper(p), Popped) && s.tasks[Reaper(p)] == Task(p, key, Popped, false, 0)
    requires Inside(s, 1, key) && key in s.kv && s.kv[key] == Mark(q)
    ensures var watched := Next(s, Watch(Reaper(p)));
            watched.Moved? && Next(watched.state, Get(Reaper(p))).Moved? && Next(watched.state, Get(Reaper(p))).state == s'
    ensures Inside(s', 1, key) && key in s'.kv && s'.kv[key] == Mark(q)
    ensures Next(s', Reap(Reaper(p))).Moved? <==> p == q
    ensures p == q ==> key !in Next(s', Reap(Reaper(p))).state.kv && Inside(Next(s', Reap(Reaper(p))).state, 1, key)
  {
    var watched := Next(s, Watch(Reaper(p))).state;
    assert watched.tasks[Reaper(p)] == Task(p, key, Watched(Version(s, key)), false, 0);
    s' := Next(watched, Get(Reaper(p))).state;
    if p == q {
      assert s'.tasks[Reaper(p)] == Task(p, key, Matched(Version(s, key)), false, 0);
    } else {
      assert Reaper(p) !in s'.tasks;
    }
  }

  lemma FailedDelete(p: nat, q: nat, key: nat, run: seq<Action>) returns (s: State)
    requires run == ReapedLock(p, q, key)
    ensures Exec(INIT, run) == Exec(s, run[4..])
    ensures s.kv == map[] && s.tasks == map[] && s.garbage == {Slot(p, key)} && s.running == {p}
  {
    var s1 := Next(INIT, run[0]).state;
    var s2 := Next(s1, run[1]).state;
    var s3 := Next(s2, run[2]).state;
    s := Next(s3, run[3]).state;
    hide Exec, Next;
    ExecStep(INIT, s1, run);
    ExecStep(s1, s2, run[1..]);
    ExecStep(s2, s3, run[2..]);
    ExecStep(s3, s, run[3..]);
    assert run[1..][1..] == run[2..] && run[2..][1..] == run[3..] && run[3..][1..] == run[4..];
  }
}
