/**
 * Building the flow that upgrades applications (entity_factory and flow_factory in
 * goperation/manager/rpc/agent/application/taskflow/pipe.py, mysql_flow_factory in
 * database.py).  The engine of an entity's task runs the entity's flow as a part of the whole.
 */
module UpgradeFlow {
  import opened Wrappers
  import opened Flows

  /** Applications and their databases are numbered in the order of their lists. */
  datatype Task =
    | GetUpgradeFile
    | BackUpFile
    | GetSqlFile
    | Provides(app: nat)
    | Create(app: nat)
    | Stop(app: nat)
    | Upgrade(app: nat)
    | DbCreate(app: nat, db: nat)
    | DbBackup(app: nat, db: nat)
    | DbUpdate(app: nat, db: nat)
    | Update(app: nat)
    | Start(app: nat)
    | Delete(app: nat)

  /** update: whether the update rolls back, if there is an update. */
  datatype Database = Database(create: bool, backup: bool, update: Option<bool>)

  datatype App = App(create: bool, stop: bool, upgrade: bool, databases: seq<Database>,
                     update: bool, start: bool, delete: bool)

  datatype Error =
    NoApplication | NotAFile | FileInStore | NoFileForCreate | NoFileForUpgrade | RollbackNeedsBackup

  /** An argument that should be a TaskPublicFile: missing (or false), one, or something else. */
  datatype Given = Missing | PublicFile | Other

  type TaskFlow = Flow<Task>

  // ---- the flow with a place for every task ----

  const NOTHING: TaskFlow := Linear([])

  function Opt(present: bool, t: Task): TaskFlow {
    if present then Atom(t) else NOTHING
  }

  function DbPart(app: nat, db: nat, d: Database): TaskFlow {
    Linear([Opt(d.create, DbCreate(app, db)), Opt(d.backup, DbBackup(app, db)), Opt(d.update.Some?, DbUpdate(app, db))])
  }

  function DbParts(app: nat, dbs: seq<Database>): (parts: seq<TaskFlow>)
    ensures |parts| == |dbs| && forall i :: 0 <= i < |dbs| ==> parts[i] == DbPart(app, i, dbs[i])
  {
    seq(|dbs|, i requires 0 <= i < |dbs| => DbPart(app, i, dbs[i]))
  }

  function UpParts(i: nat, a: App): seq<TaskFlow> {
    [Opt(a.upgrade, Upgrade(i)), Unordered(DbParts(i, a.databases))]
  }

  function EntityParts(i: nat, a: App): seq<TaskFlow> {
    [Atom(Provides(i)), Opt(a.create, Create(i)), Unordered([Opt(a.stop, Stop(i))]), Unordered(UpParts(i, a)),
     Opt(a.update, Update(i)), Opt(a.start, Start(i)), Opt(a.delete, Delete(i))]
  }

  function Entities(apps: seq<App>): (parts: seq<TaskFlow>)
    ensures |parts| == |apps| && forall i :: 0 <= i < |apps| ==> parts[i] == Linear(EntityParts(i, apps[i]))
  {
    seq(|apps|, i requires 0 <= i < |apps| => Linear(EntityParts(i, apps[i])))
  }

  predicate HasUpdate(dbs: seq<Database>) {
    exists i :: 0 <= i < |dbs| && dbs[i].update.Some?
  }

  function Prepare(upgradefile: bool, backupfile: bool, chosen: App): seq<TaskFlow> {
    [Opt(upgradefile, GetUpgradeFile), Opt(backupfile, BackUpFile), Opt(HasUpdate(chosen.databases), GetSqlFile)]
  }

  function Whole(apps: seq<App>, upgradefile: bool, backupfile: bool, chosen: App): TaskFlow {
    Linear([Unordered(Prepare(upgradefile, backupfile, chosen)), Unordered(Entities(apps))])
  }

  // ---- the order that is meant ----

  predicate IsPrepare(t: Task) {
    t.GetUpgradeFile? || t.BackUpFile? || t.GetSqlFile?
  }

  /** Where a task comes in the flow of its entity. */
  function Stage(t: Task): nat {
    match t
    case Provides(_) => 0
    case Create(_) => 1
    case Stop(_) => 2
    case Upgrade(_) => 3
    case DbCreate(_, _) => 3
    case DbBackup(_, _) => 3
    case DbUpdate(_, _) => 3
    case Update(_) => 4
    case Start(_) => 5
    case Delete(_) => 6
    case _ => 0
  }

  predicate IsDb(t: Task) {
    t.DbCreate? || t.DbBackup? || t.DbUpdate?
  }

  function DbStep(t: Task): nat {
    if t.DbCreate? then 0 else if t.DbBackup? then 1 else 2
  }

  /**
   * What comes first: a prepare task before any other; an earlier stage of an entity before a later
   * one; and of one database, its creation before its backup before its update.
   */
  predicate Ordered(x: Task, y: Task) {
    if IsPrepare(x) || IsPrepare(y) then IsPrepare(x) && !IsPrepare(y)
    else
      && x.app == y.app
      && (Stage(x) < Stage(y) || (IsDb(x) && IsDb(y) && x.db == y.db && DbStep(x) < DbStep(y)))
  }

  // ---- the flow has exactly this order ----

  lemma OptTasks(present: bool, u: Task, t: Task)
    ensures t in Tasks(Opt(present, u)) <==> present && t == u
    ensures t in Tasks(Unordered([Opt(present, u)])) <==> present && t == u
  {
    var parts := [Opt(present, u)];
    assert parts[1..] == [] && AllTasks(parts) == Tasks(parts[0]) + AllTasks(parts[1..]);
  }

  lemma OptOrder(present: bool, u: Task)
    requires present
    ensures !Must(Opt(present, u), u, u) && !Must(Unordered([Opt(present, u)]), u, u)
  {
  }

  lemma DbTaskAt(app: nat, db: nat, d: Database, t: Task, k: nat)
    requires k < 3 && t in Tasks(DbPart(app, db, d).parts[k])
    ensures IsDb(t) && t.app == app && t.db == db && DbStep(t) == k
    ensures DbPart(app, db, d).parts[k] == Opt(true, t)
  {
    OptTasks(d.create, DbCreate(app, db), t);
    OptTasks(d.backup, DbBackup(app, db), t);
    OptTasks(d.update.Some?, DbUpdate(app, db), t);
  }

  lemma DbTasks(app: nat, db: nat, d: Database, t: Task)
    requires t in Tasks(DbPart(app, db, d))
    ensures IsDb(t) && t.app == app && t.db == db && OnlyIn(DbPart(app, db, d).parts, DbStep(t), t)
  {
    var parts := DbPart(app, db, d).parts;
    forall k | 0 <= k < |parts| && t in Tasks(parts[k])
      ensures IsDb(t) && t.app == app && t.db == db && k == DbStep(t)
    {
      DbTaskAt(app, db, d, t, k);
    }
    InTasks(parts, t);
    hide Tasks, DbPart;
  }

  lemma DbOrder(app: nat, db: nat, d: Database, x: Task, y: Task)
    requires x in Tasks(DbPart(app, db, d)) && y in Tasks(DbPart(app, db, d))
    ensures Must(DbPart(app, db, d), x, y) <==> DbStep(x) < DbStep(y)
  {
    var parts := DbPart(app, db, d).parts;
    DbTasks(app, db, d, x);
    DbTasks(app, db, d, y);
    LinearOrder(parts, x, y, DbStep(x), DbStep(y));
    DbTaskAt(app, db, d, x, DbStep(x));
    DbTaskAt(app, db, d, y, DbStep(y));
    OptOrder(true, x);
    hide MustLinear, Tasks, Opt;
  }

  /** The tasks of all databases of an application. */
  lemma DbsTasks(app: nat, dbs: seq<Database>, t: Task)
    requires t in AllTasks(DbParts(app, dbs))
    ensures IsDb(t) && t.app == app && OnlyIn(DbParts(app, dbs), t.db, t)
  {
    var parts := DbParts(app, dbs);
    forall k | 0 <= k < |parts| && t in Tasks(parts[k]) ensures IsDb(t) && t.app == app && t.db == k {
      DbTasks(app, k, dbs[k], t);
    }
    InTasks(parts, t);
  }

  lemma DbsOrder(app: nat, dbs: seq<Database>, x: Task, y: Task)
    requires x in AllTasks(DbParts(app, dbs)) && y in AllTasks(DbParts(app, dbs))
    ensures IsDb(x) && IsDb(y)
    ensures Must(Unordered(DbParts(app, dbs)), x, y) <==> x.db == y.db && DbStep(x) < DbStep(y)
  {
    DbsTasks(app, dbs, x);
    DbsTasks(app, dbs, y);
    UnorderedOrder(DbParts(app, dbs), x, y, x.db, y.db);
    if x.db == y.db {
      DbOrder(app, x.db, dbs[x.db], x, y);
    }
  }

  /** The tasks of the parallel part of an entity: the file, and the databases. */
  lemma UpTaskAt(i: nat, a: App, t: Task, k: nat)
    requires k < 2 && t in Tasks(UpParts(i, a)[k])
    ensures Stage(t) == 3 && !IsPrepare(t) && t.app == i && (IsDb(t) <==> k == 1)
    ensures k == 0 ==> UpParts(i, a)[0] == Opt(true, t)
    ensures k == 1 ==> t in AllTasks(DbParts(i, a.databases))
  {
    if k == 0 {
      OptTasks(a.upgrade, Upgrade(i), t);
    } else {
      DbsTasks(i, a.databases, t);
    }
  }

  lemma UpTasks(i: nat, a: App, t: Task)
    requires t in AllTasks(UpParts(i, a))
    ensures Stage(t) == 3 && !IsPrepare(t) && t.app == i && OnlyIn(UpParts(i, a), if IsDb(t) then 1 else 0, t)
  {
    var parts := UpParts(i, a);
    forall k | 0 <= k < |parts| && t in Tasks(parts[k])
      ensures Stage(t) == 3 && !IsPrepare(t) && t.app == i && k == if IsDb(t) then 1 else 0
    {
      UpTaskAt(i, a, t, k);
    }
    InTasks(parts, t);
    hide Tasks, UpParts;
  }

  lemma UpOrder(i: nat, a: App, x: Task, y: Task)
    requires x in AllTasks(UpParts(i, a)) && y in AllTasks(UpParts(i, a))
    ensures Must(Unordered(UpParts(i, a)), x, y) <==> IsDb(x) && IsDb(y) && x.db == y.db && DbStep(x) < DbStep(y)
  {
    UpTasks(i, a, x);
    UpTasks(i, a, y);
    var p, q := if IsDb(x) then 1 else 0, if IsDb(y) then 1 else 0;
    UnorderedOrder(UpParts(i, a), x, y, p, q);
    UpTaskAt(i, a, x, p);
    UpTaskAt(i, a, y, q);
    if IsDb(x) && IsDb(y) {
      DbsOrder(i, a.databases, x, y);
    } else if !IsDb(x) && !IsDb(y) {
      OptOrder(true, x);
    }
    hide MustUnordered, Opt;
  }

  /** Whether the application has the task of a stage that is not the parallel one, and that task. */
  function Single(i: nat, a: App, k: nat): (bool, Task)
    requires k < 7 && k != 3
  {
    match k
    case 0 => (true, Provides(i))
    case 1 => (a.create, Create(i))
    case 2 => (a.stop, Stop(i))
    case 4 => (a.update, Update(i))
    case 5 => (a.start, Start(i))
    case _ => (a.delete, Delete(i))
  }

  lemma SinglePart(i: nat, a: App, k: nat)
    requires k < 7 && k != 3
    ensures var (present, u) := Single(i, a, k);
            && EntityParts(i, a)[k] == (if k == 2 then Unordered([Opt(present, u)]) else Opt(present, u))
            && !IsPrepare(u) && u.app == i && Stage(u) == k && !IsDb(u)
  {
  }

  /** A part of an entity's flow that is not the parallel one has at most one task. */
  lemma SingleTaskAt(i: nat, a: App, t: Task, k: nat)
    requires k < 7 && k != 3 && t in Tasks(EntityParts(i, a)[k])
    ensures !IsPrepare(t) && t.app == i && Stage(t) == k && !IsDb(t)
    ensures EntityParts(i, a)[k] == Opt(true, t) || EntityParts(i, a)[k] == Unordered([Opt(true, t)])
  {
    var (present, u) := Single(i, a, k);
    SinglePart(i, a, k);
    OptTasks(present, u, t);
    hide EntityParts, Opt, Tasks, Single;
  }

  /** The tasks of an entity's flow are in the part of their stage. */
  lemma EntityTasks(i: nat, a: App, t: Task)
    requires t in AllTasks(EntityParts(i, a))
    ensures !IsPrepare(t) && t.app == i && OnlyIn(EntityParts(i, a), Stage(t), t)
  {
    var parts := EntityParts(i, a);
    forall k | 0 <= k < |parts| && t in Tasks(parts[k]) ensures !IsPrepare(t) && t.app == i && k == Stage(t) {
      if k == 3 {
        UpTasks(i, a, t);
      } else {
        SingleTaskAt(i, a, t, k);
      }
    }
    InTasks(parts, t);
    hide Tasks, EntityParts;
  }

  lemma EntityOrder(i: nat, a: App, x: Task, y: Task)
    requires x in AllTasks(EntityParts(i, a)) && y in AllTasks(EntityParts(i, a))
    ensures Must(Linear(EntityParts(i, a)), x, y) <==>
              Stage(x) < Stage(y) || (IsDb(x) && IsDb(y) && x.db == y.db && DbStep(x) < DbStep(y))
  {
    EntityTasks(i, a, x);
    EntityTasks(i, a, y);
    LinearOrder(EntityParts(i, a), x, y, Stage(x), Stage(y));
    if Stage(x) == Stage(y) {
      StageOrder(i, a, x, y);
    }
  }

  lemma StageOrder(i: nat, a: App, x: Task, y: Task)
    requires OnlyIn(EntityParts(i, a), Stage(x), x) && OnlyIn(EntityParts(i, a), Stage(y), y) && Stage(x) == Stage(y)
    ensures Must(EntityParts(i, a)[Stage(x)], x, y) <==> IsDb(x) && IsDb(y) && x.db == y.db && DbStep(x) < DbStep(y)
  {
    if Stage(x) == 3 {
      UpStage(i, a);
      UpOrder(i, a, x, y);
      hide Must, EntityParts;
    } else {
      SingleTaskAt(i, a, x, Stage(x));
      SingleTaskAt(i, a, y, Stage(x));
      OptOrder(true, x);
      OptTasks(true, x, y);
      hide Must, EntityParts, Tasks, Opt;
    }
  }

  lemma UpStage(i: nat, a: App)
    ensures EntityParts(i, a)[3] == Unordered(UpParts(i, a))
    ensures Tasks(EntityParts(i, a)[3]) == AllTasks(UpParts(i, a))
  {
  }

  lemma EntitiesTasks(apps: seq<App>, t: Task)
    requires t in AllTasks(Entities(apps))
    ensures !IsPrepare(t) && OnlyIn(Entities(apps), t.app, t)
  {
    var parts := Entities(apps);
    forall k | 0 <= k < |parts| && t in Tasks(parts[k]) ensures !IsPrepare(t) && t.app == k {
      EntityTasks(k, apps[k], t);
    }
    InTasks(parts, t);
  }

  lemma EntitiesOrder(apps: seq<App>, x: Task, y: Task)
    requires x in AllTasks(Entities(apps)) && y in AllTasks(Entities(apps))
    ensures Must(Unordered(Entities(apps)), x, y) <==> Ordered(x, y)
  {
    EntitiesTasks(apps, x);
    EntitiesTasks(apps, y);
    UnorderedOrder(Entities(apps), x, y, x.app, y.app);
    if x.app == y.app {
      EntityOrder(x.app, apps[x.app], x, y);
    }
  }

  function PrepareIndex(t: Task): nat {
    if t.GetUpgradeFile? then 0 else if t.BackUpFile? then 1 else 2
  }

  lemma PrepareTaskAt(upgradefile: bool, backupfile: bool, chosen: App, t: Task, k: nat)
    requires k < 3 && t in Tasks(Prepare(upgradefile, backupfile, chosen)[k])
    ensures IsPrepare(t) && PrepareIndex(t) == k && Prepare(upgradefile, backupfile, chosen)[k] == Opt(true, t)
  {
    OptTasks(upgradefile, GetUpgradeFile, t);
    OptTasks(backupfile, BackUpFile, t);
    OptTasks(HasUpdate(chosen.databases), GetSqlFile, t);
  }

  lemma PrepareTasks(upgradefile: bool, backupfile: bool, chosen: App, t: Task)
    requires t in AllTasks(Prepare(upgradefile, backupfile, chosen))
    ensures IsPrepare(t) && OnlyIn(Prepare(upgradefile, backupfile, chosen), PrepareIndex(t), t)
  {
    var parts := Prepare(upgradefile, backupfile, chosen);
    forall k | 0 <= k < |parts| && t in Tasks(parts[k]) ensures IsPrepare(t) && k == PrepareIndex(t) {
      PrepareTaskAt(upgradefile, backupfile, chosen, t, k);
    }
    InTasks(parts, t);
    hide Tasks, Prepare;
  }

  lemma PrepareOrder(upgradefile: bool, backupfile: bool, chosen: App, x: Task, y: Task)
    requires x in AllTasks(Prepare(upgradefile, backupfile, chosen))
    requires y in AllTasks(Prepare(upgradefile, backupfile, chosen))
    ensures !Must(Unordered(Prepare(upgradefile, backupfile, chosen)), x, y)
  {
    var parts := Prepare(upgradefile, backupfile, chosen);
    PrepareTasks(upgradefile, backupfile, chosen, x);
    PrepareTasks(upgradefile, backupfile, chosen, y);
    UnorderedOrder(parts, x, y, PrepareIndex(x), PrepareIndex(y));
    PrepareTaskAt(upgradefile, backupfile, chosen, x, PrepareIndex(x));
    OptOrder(true, x);
    hide MustUnordered, Tasks, Opt;
  }

  /** The whole flow is the prepare tasks and then the entities. */
  lemma WholeTasks(prepare: seq<TaskFlow>, entities: seq<TaskFlow>, t: Task)
    requires t in AllTasks(prepare) ==> IsPrepare(t)
    requires t in AllTasks(entities) ==> !IsPrepare(t)
    requires t in Tasks(Linear([Unordered(prepare), Unordered(entities)]))
    ensures OnlyIn([Unordered(prepare), Unordered(entities)], if IsPrepare(t) then 0 else 1, t)
  {
    InTasks([Unordered(prepare), Unordered(entities)], t);
  }

  /** Of two tasks of the whole flow, one must come first exactly if it is meant to. */
  lemma WholeOrder(apps: seq<App>, upgradefile: bool, backupfile: bool, chosen: App, x: Task, y: Task)
    requires x in Tasks(Whole(apps, upgradefile, backupfile, chosen))
    requires y in Tasks(Whole(apps, upgradefile, backupfile, chosen))
    ensures Must(Whole(apps, upgradefile, backupfile, chosen), x, y) <==> Ordered(x, y)
  {
    var prepare, entities := Prepare(upgradefile, backupfile, chosen), Entities(apps);
    forall t | t in AllTasks(prepare) ensures IsPrepare(t) {
      PrepareTasks(upgradefile, backupfile, chosen, t);
    }
    forall t | t in AllTasks(entities) ensures !IsPrepare(t) {
      EntitiesTasks(apps, t);
    }
    WholeTasks(prepare, entities, x);
    WholeTasks(prepare, entities, y);
    var p, q := if IsPrepare(x) then 0 else 1, if IsPrepare(y) then 0 else 1;
    LinearOrder([Unordered(prepare), Unordered(entities)], x, y, p, q);
    if IsPrepare(x) && IsPrepare(y) {
      PrepareOrder(upgradefile, backupfile, chosen, x, y);
    } else if !IsPrepare(x) && !IsPrepare(y) {
      EntitiesOrder(apps, x, y);
    }
    hide MustLinear, Prepare;
  }

  // ---- which tasks there are ----

  predicate DbHas(d: Database, t: Task)
    requires IsDb(t)
  {
    if t.DbCreate? then d.create else if t.DbBackup? then d.backup else d.update.Some?
  }

  predicate AppHas(a: App, t: Task)
    requires !IsPrepare(t)
  {
    if IsDb(t) then t.db < |a.databases| && DbHas(a.databases[t.db], t)
    else match t
      case Provides(_) => true
      case Create(_) => a.create
      case Stop(_) => a.stop
      case Upgrade(_) => a.upgrade
      case Update(_) => a.update
      case Start(_) => a.start
      case _ => a.delete
  }

  /** The tasks that an upgrade is meant to do. */
  predicate Present(apps: seq<App>, upgradefile: bool, backupfile: bool, chosen: App, t: Task) {
    match t
    case GetUpgradeFile => upgradefile
    case BackUpFile => backupfile
    case GetSqlFile => HasUpdate(chosen.databases)
    case _ => t.app < |apps| && AppHas(apps[t.app], t)
  }

  /** Membership in a list of parts, at the part where a task belongs. */
  lemma InPart(parts: seq<TaskFlow>, t: Task, p: nat)
    requires p < |parts| && forall k :: 0 <= k < |parts| && t in Tasks(parts[k]) ==> k == p
    ensures t in AllTasks(parts) <==> t in Tasks(parts[p])
  {
    InTasks(parts, t);
  }

  lemma DbPresent(app: nat, db: nat, d: Database, t: Task)
    requires IsDb(t) && t.app == app && t.db == db
    ensures t in Tasks(DbPart(app, db, d)) <==> DbHas(d, t)
  {
    var parts := DbPart(app, db, d).parts;
    forall k | 0 <= k < |parts| && t in Tasks(parts[k]) ensures k == DbStep(t) {
      DbTaskAt(app, db, d, t, k);
    }
    InPart(parts, t, DbStep(t));
    OptTasks(DbHas(d, t), t, t);
    hide Tasks, Opt;
  }

  lemma SinglePresent(i: nat, a: App, t: Task)
    requires !IsPrepare(t) && t.app == i && Stage(t) != 3
    ensures t in Tasks(EntityParts(i, a)[Stage(t)]) <==> AppHas(a, t)
  {
    var (present, u) := Single(i, a, Stage(t));
    SinglePart(i, a, Stage(t));
    OptTasks(present, u, t);
    assert u == t && (present <==> AppHas(a, t));
    hide EntityParts, Opt, Tasks, AppHas, Single;
  }

  lemma AppPresent(i: nat, a: App, t: Task)
    requires !IsPrepare(t) && t.app == i
    ensures t in AllTasks(EntityParts(i, a)) <==> AppHas(a, t)
  {
    var parts := EntityParts(i, a);
    forall k | 0 <= k < |parts| && t in Tasks(parts[k]) ensures k == Stage(t) {
      if k == 3 {
        UpStage(i, a);
        UpTasks(i, a, t);
      } else {
        SingleTaskAt(i, a, t, k);
      }
    }
    hide EntityParts, AppHas, Tasks, AllTasks;
    InPart(parts, t, Stage(t));
    if Stage(t) == 3 {
      UpPresent(i, a, t);
    } else {
      SinglePresent(i, a, t);
    }
  }

  lemma DbsPresent(app: nat, dbs: seq<Database>, t: Task)
    requires IsDb(t) && t.app == app
    ensures t in AllTasks(DbParts(app, dbs)) <==> t.db < |dbs| && DbHas(dbs[t.db], t)
  {
    var parts := DbParts(app, dbs);
    forall k | 0 <= k < |parts| && t in Tasks(parts[k]) ensures k == t.db {
      DbTasks(app, k, dbs[k], t);
    }
    InTasks(parts, t);
    if t.db < |dbs| {
      DbPresent(app, t.db, dbs[t.db], t);
    }
    hide DbPart, DbHas;
  }

  lemma UpPresent(i: nat, a: App, t: Task)
    requires Stage(t) == 3 && !IsPrepare(t) && t.app == i
    ensures t in Tasks(EntityParts(i, a)[3]) <==> AppHas(a, t)
  {
    var parts := UpParts(i, a);
    UpStage(i, a);
    forall k | 0 <= k < |parts| && t in Tasks(parts[k]) ensures k == if IsDb(t) then 1 else 0 {
      UpTaskAt(i, a, t, k);
    }
    InPart(parts, t, if IsDb(t) then 1 else 0);
    OptTasks(a.upgrade, Upgrade(i), t);
    if IsDb(t) {
      DbsPresent(i, a.databases, t);
    }
    hide EntityParts, Opt, DbHas, AllTasks;
  }

  lemma EntitiesPresent(apps: seq<App>, t: Task)
    ensures t in AllTasks(Entities(apps)) <==> !IsPrepare(t) && t.app < |apps| && AppHas(apps[t.app], t)
  {
    var entities := Entities(apps);
    forall k | 0 <= k < |entities| && t in Tasks(entities[k]) ensures !IsPrepare(t) && k == t.app {
      EntityTasks(k, apps[k], t);
    }
    InTasks(entities, t);
    if !IsPrepare(t) && t.app < |apps| {
      AppPresent(t.app, apps[t.app], t);
    }
    hide EntityParts, AppHas;
  }

  /** The whole flow has exactly the tasks that are meant. */
  lemma WholePresent(apps: seq<App>, upgradefile: bool, backupfile: bool, chosen: App, t: Task)
    ensures t in Tasks(Whole(apps, upgradefile, backupfile, chosen)) <==> Present(apps, upgradefile, backupfile, chosen, t)
  {
    var prepare, entities := Unordered(Prepare(upgradefile, backupfile, chosen)), Unordered(Entities(apps));
    PreparePresent(upgradefile, backupfile, chosen, t);
    EntitiesPresent(apps, t);
    assert [prepare, entities][1..] == [entities] && [entities][1..] == [];
    assert AllTasks([entities]) == Tasks(entities) + AllTasks([entities][1..]);
    assert AllTasks([prepare, entities]) == Tasks(prepare) + AllTasks([prepare, entities][1..]);
    assert Tasks(Whole(apps, upgradefile, backupfile, chosen)) == AllTasks([prepare, entities]);
    hide Prepare, AppHas, AllTasks;
  }

  lemma PreparePresent(upgradefile: bool, backupfile: bool, chosen: App, t: Task)
    ensures t in AllTasks(Prepare(upgradefile, backupfile, chosen)) <==>
              IsPrepare(t) && Present([], upgradefile, backupfile, chosen, t)
  {
    var parts := Prepare(upgradefile, backupfile, chosen);
    forall k | 0 <= k < |parts| && t in Tasks(parts[k]) ensures IsPrepare(t) && k == PrepareIndex(t) {
      PrepareTaskAt(upgradefile, backupfile, chosen, t, k);
    }
    InTasks(parts, t);
    OptTasks(true, t, t);
    OptTasks(false, t, t);
    assert IsPrepare(t) ==> parts[PrepareIndex(t)] == Opt(Present([], upgradefile, backupfile, chosen, t), t);
    hide Tasks, Opt;
  }

  // ---- each of them once ----

  lemma OptOnce(u: Task)
    ensures Tasks(Opt(true, u))[u] == 1 && Tasks(Unordered([Opt(true, u)]))[u] == 1
  {
    var parts := [Opt(true, u)];
    assert parts[1..] == [] && AllTasks(parts) == Tasks(parts[0]) + AllTasks(parts[1..]);
  }

  lemma DbOnce(app: nat, db: nat, d: Database, t: Task)
    requires t in Tasks(DbPart(app, db, d))
    ensures Tasks(DbPart(app, db, d))[t] == 1
  {
    var parts := DbPart(app, db, d).parts;
    DbTasks(app, db, d, t);
    DbTaskAt(app, db, d, t, DbStep(t));
    OnlyInCount(parts, DbStep(t), t);
    OptOnce(t);
    hide Opt, AllTasks;
  }

  lemma UpOnce(i: nat, a: App, t: Task)
    requires t in AllTasks(UpParts(i, a))
    ensures AllTasks(UpParts(i, a))[t] == 1
  {
    var p := if IsDb(t) then 1 else 0;
    UpTasks(i, a, t);
    UpTaskAt(i, a, t, p);
    OnlyInCount(UpParts(i, a), p, t);
    if IsDb(t) {
      DbsTasks(i, a.databases, t);
      OnlyInCount(DbParts(i, a.databases), t.db, t);
      DbOnce(i, t.db, a.databases[t.db], t);
    } else {
      OptOnce(t);
    }
    hide Opt, AllTasks, DbPart;
  }

  lemma EntityOnce(i: nat, a: App, t: Task)
    requires t in AllTasks(EntityParts(i, a))
    ensures AllTasks(EntityParts(i, a))[t] == 1
  {
    EntityTasks(i, a, t);
    OnlyInCount(EntityParts(i, a), Stage(t), t);
    if Stage(t) == 3 {
      UpStage(i, a);
      UpOnce(i, a, t);
    } else {
      SingleTaskAt(i, a, t, Stage(t));
      OptOnce(t);
    }
    hide EntityParts, Opt, AllTasks;
  }

  /** No task is in the whole flow twice. */
  lemma WholeOnce(apps: seq<App>, upgradefile: bool, backupfile: bool, chosen: App, t: Task)
    requires t in Tasks(Whole(apps, upgradefile, backupfile, chosen))
    ensures Tasks(Whole(apps, upgradefile, backupfile, chosen))[t] == 1
  {
    var prepare, entities := Prepare(upgradefile, backupfile, chosen), Entities(apps);
    var parts := [Unordered(prepare), Unordered(entities)];
    PreparePresent(upgradefile, backupfile, chosen, t);
    EntitiesPresent(apps, t);
    WholeTasks(prepare, entities, t);
    OnlyInCount(parts, if IsPrepare(t) then 0 else 1, t);
    if IsPrepare(t) {
      PrepareTasks(upgradefile, backupfile, chosen, t);
      OnlyInCount(prepare, PrepareIndex(t), t);
      PrepareTaskAt(upgradefile, backupfile, chosen, t, PrepareIndex(t));
      OptOnce(t);
    } else {
      EntitiesTasks(apps, t);
      OnlyInCount(entities, t.app, t);
      EntityOnce(t.app, apps[t.app], t);
    }
    hide Prepare, EntityParts, Opt, AllTasks, AppHas, Present;
  }

  // ---- building it ----

  predicate DbsOk(dbs: seq<Database>) {
    forall i :: 0 <= i < |dbs| ==> (dbs[i].update == Some(true) ==> dbs[i].backup)
  }

  predicate AppOk(a: App, upgradefile: bool) {
    (a.create || a.upgrade ==> upgradefile) && DbsOk(a.databases)
  }

  /** An application is refused exactly without a file to create or upgrade it, or for a rollback without a backup. */
  lemma AppOkMeaning(a: App, upgradefile: bool)
    ensures !AppOk(a, upgradefile) <==>
              || (a.create && !upgradefile) || (a.upgrade && !upgradefile)
              || exists d :: d in a.databases && d.update == Some(true) && !d.backup
  {
  }

  /** The update file is for databases that have an update, with or without a rollback. */
  lemma HasUpdateMeaning(dbs: seq<Database>)
    ensures HasUpdate(dbs) <==> exists d :: d in dbs && d.update != None
  {
    if d :| d in dbs && d.update != None {
      var i :| 0 <= i < |dbs| && dbs[i] == d;
      assert dbs[i].update.Some?;
    }
  }

  /** Adding a task that may be missing, or nothing. */
  lemma PruneOpt(parts: seq<TaskFlow>, present: bool, u: Task)
    ensures PruneAll(parts + [Opt(present, u)]) == if present then PruneAll(parts) + [Atom(u)] else PruneAll(parts)
  {
    PruneAppends(parts, Opt(present, u));
  }

  /** mysql_flow_factory for the databases of application app. */
  method MysqlFlowFactory(app: nat, databases: seq<Database>) returns (r: Result<Option<TaskFlow>, Error>)
    ensures r.Ok? <==> DbsOk(databases)
    ensures r.Ok? ==> r.value == (var f := Prune(Unordered(DbParts(app, databases))); if IsEmpty(f) then None else Some(f))
    ensures r.Err? ==> r.error == RollbackNeedsBackup
  {
    if databases == [] {
      return Ok(None);
    }
    var uflow: seq<TaskFlow> := [];
    ghost var full := DbParts(app, databases);
    for index := 0 to |databases|
      invariant DbsOk(databases[..index])
      invariant uflow == PruneAll(full[..index])
    {
      var lflow := DatabaseFlow(app, index, databases[index]);
      assert databases[..index + 1] == databases[..index] + [databases[index]];
      if lflow.Err? {
        return Err(lflow.error);
      }
      assert full[..index + 1] == full[..index] + [full[index]];
      PruneAppends(full[..index], full[index]);
      if lflow.value != [] {
        uflow := uflow + [Linear(lflow.value)];
      }
    }
    assert databases[..|databases|] == databases && full[..|databases|] == full;
    return Ok(if uflow != [] then Some(Unordered(uflow)) else None);
  }

  /** One turn of its loop: the linear flow of a database. */
  method DatabaseFlow(app: nat, index: nat, database: Database) returns (r: Result<seq<TaskFlow>, Error>)
    ensures r.Err? <==> database.update == Some(true) && !database.backup
    ensures r.Ok? ==> Prune(DbPart(app, index, database)) == Linear(r.value)
    ensures r.Err? ==> r.error == RollbackNeedsBackup
  {
    var lflow: seq<TaskFlow> := [];
    ghost var parts: seq<TaskFlow> := [];
    PruneOpt(parts, database.create, DbCreate(app, index));
    if database.create {
      lflow := lflow + [Atom(DbCreate(app, index))];
    }
    parts := parts + [Opt(database.create, DbCreate(app, index))];
    PruneOpt(parts, database.backup, DbBackup(app, index));
    if database.backup {
      lflow := lflow + [Atom(DbBackup(app, index))];
    }
    parts := parts + [Opt(database.backup, DbBackup(app, index))];
    PruneOpt(parts, database.update.Some?, DbUpdate(app, index));
    if database.update.Some? {
      if database.update.value && !database.backup {
        return Err(RollbackNeedsBackup);
      }
      lflow := lflow + [Atom(DbUpdate(app, index))];
    }
    parts := parts + [Opt(database.update.Some?, DbUpdate(app, index))];
    assert DbPart(app, index, database) == Linear(parts);
    return Ok(lflow);
  }

  /** upflow in entity_factory: the file and the databases in parallel. */
  method UpFlow(i: nat, app: App, upgradefile: bool) returns (r: Result<seq<TaskFlow>, Error>)
    ensures r.Ok? <==> (app.upgrade ==> upgradefile) && DbsOk(app.databases)
    ensures r.Ok? ==> r.value == PruneAll(UpParts(i, app))
    ensures r.Err? ==> r.error == if app.upgrade && !upgradefile then NoFileForUpgrade else RollbackNeedsBackup
  {
    var upflow: seq<TaskFlow> := [];
    PruneOpt([], app.upgrade, Upgrade(i));
    assert [] + [Opt(app.upgrade, Upgrade(i))] == [Opt(app.upgrade, Upgrade(i))];
    if app.upgrade {
      if !upgradefile {
        return Err(NoFileForUpgrade);
      }
      upflow := upflow + [Atom(Upgrade(i))];
    }
    var databaseFlow := MysqlFlowFactory(i, app.databases);
    if databaseFlow.Err? {
      return Err(databaseFlow.error);
    }
    PruneAppends([Opt(app.upgrade, Upgrade(i))], Unordered(DbParts(i, app.databases)));
    if databaseFlow.value.Some? {
      upflow := upflow + [databaseFlow.value.value];
    }
    return Ok(upflow);
  }

  /** The error that an application is refused with: the first that is met. */
  ghost predicate IsRefusal(app: App, upgradefile: bool, error: Error) {
    error == if app.create && !upgradefile then NoFileForCreate
             else if app.upgrade && !upgradefile then NoFileForUpgrade else RollbackNeedsBackup
  }

  /** The error of the first application that is refused. */
  ghost predicate FirstRefusal(apps: seq<App>, upgradefile: bool, error: Error) {
    exists i :: 0 <= i < |apps| && !AppOk(apps[i], upgradefile) && IsRefusal(apps[i], upgradefile, error)
                && forall k :: 0 <= k < i ==> AppOk(apps[k], upgradefile)
  }

  /** The parts of an entity's flow before and after the parallel one. */
  function FrontParts(i: nat, a: App): seq<TaskFlow> {
    [Atom(Provides(i)), Opt(a.create, Create(i)), Unordered([Opt(a.stop, Stop(i))])]
  }

  function BackParts(i: nat, a: App): seq<TaskFlow> {
    [Opt(a.update, Update(i)), Opt(a.start, Start(i)), Opt(a.delete, Delete(i))]
  }

  /** entity_factory for application i. */
  method EntityFactory(i: nat, app: App, upgradefile: bool) returns (r: Result<TaskFlow, Error>)
    ensures r.Ok? <==> AppOk(app, upgradefile)
    ensures r.Ok? ==> r.value == Prune(Linear(EntityParts(i, app)))
    ensures r.Err? ==> IsRefusal(app, upgradefile, r.error)
  {
    hide PruneAll, DbsOk, UpParts;
    var front := FirstTasks(i, app, upgradefile);
    if front.Err? {
      return Err(front.error);
    }
    var upflow := UpFlow(i, app, upgradefile);
    if upflow.Err? {
      return Err(upflow.error);
    }
    var entityFlow := front.value;
    ghost var parts := FrontParts(i, app);
    PruneAppends(parts, Unordered(UpParts(i, app)));
    if upflow.value != [] {
      entityFlow := entityFlow + [Unordered(upflow.value)];
    }
    parts := parts + [Unordered(UpParts(i, app))];
    entityFlow := LastTasks(i, app, entityFlow, parts);
    assert parts + BackParts(i, app) == EntityParts(i, app);
    return Ok(Linear(entityFlow));
  }

  /** The beginning of entity_factory. */
  method FirstTasks(i: nat, app: App, upgradefile: bool) returns (r: Result<seq<TaskFlow>, Error>)
    ensures r.Ok? <==> (app.create ==> upgradefile)
    ensures r.Ok? ==> r.value == PruneAll(FrontParts(i, app))
    ensures r.Err? ==> r.error == NoFileForCreate
  {
    var entityFlow: seq<TaskFlow> := [Atom(Provides(i))];
    ghost var parts := [Atom(Provides(i))];
    PruneAppends([], Atom(Provides(i)));
    assert [] + parts == parts && PruneAll<Task>([]) == [];
    hide PruneAll, Opt;
    PruneOpt(parts, app.create, Create(i));
    if app.create {
      if !upgradefile {
        return Err(NoFileForCreate);
      }
      entityFlow := entityFlow + [Atom(Create(i))];
    }
    parts := parts + [Opt(app.create, Create(i))];
    StopPart(parts, i, app.stop);
    if app.stop {
      entityFlow := entityFlow + [Unordered([Atom(Stop(i))])];
    }
    assert parts + [Unordered([Opt(app.stop, Stop(i))])] == FrontParts(i, app);
    return Ok(entityFlow);
  }

  lemma StopPart(parts: seq<TaskFlow>, i: nat, stop: bool)
    ensures PruneAll(parts + [Unordered([Opt(stop, Stop(i))])])
         == if stop then PruneAll(parts) + [Unordered([Atom(Stop(i))])] else PruneAll(parts)
  {
    PruneAppends(parts, Unordered([Opt(stop, Stop(i))]));
    PruneOpt([], stop, Stop(i));
    assert [] + [Opt(stop, Stop(i))] == [Opt(stop, Stop(i))];
  }

  /** The end of entity_factory: the tasks that follow the parallel ones. */
  method LastTasks(i: nat, app: App, flow: seq<TaskFlow>, ghost parts: seq<TaskFlow>)
    returns (entityFlow: seq<TaskFlow>)
    requires flow == PruneAll(parts)
    ensures entityFlow == PruneAll(parts + BackParts(i, app))
  {
    hide PruneAll, Opt;
    entityFlow := flow;
    ghost var all := parts;
    PruneOpt(all, app.update, Update(i));
    if app.update {
      entityFlow := entityFlow + [Atom(Update(i))];
    }
    all := all + [Opt(app.update, Update(i))];
    PruneOpt(all, app.start, Start(i));
    if app.start {
      entityFlow := entityFlow + [Atom(Start(i))];
    }
    all := all + [Opt(app.start, Start(i))];
    PruneOpt(all, app.delete, Delete(i));
    if app.delete {
      entityFlow := entityFlow + [Atom(Delete(i))];
    }
    assert all + [Opt(app.delete, Delete(i))] == parts + BackParts(i, app);
  }

  /** The store: its keys, and whether their values count as true. */
  type Store = map<string, bool>

  predicate FileIn(store: Store) {
    ("backupfile" in store && store["backupfile"]) || ("upgradefile" in store && store["upgradefile"])
  }

  /** format_store_rebind: the key is there, with None if it was missing. */
  function Rebound(store: Store): Store {
    if "download_timeout" in store then store else store["download_timeout" := false]
  }

  /** The timeout is in the store then; nothing that was there changes. */
  lemma ReboundMeaning(store: Store, key: string)
    ensures key in Rebound(store) <==> key in store || key == "download_timeout"
    ensures key in store ==> Rebound(store)[key] == store[key]
    ensures key in Rebound(store) && key !in store ==> !Rebound(store)[key]
  {
  }

  /** flow_factory; chosen is the number it draws. */
  method FlowFactory(apps: seq<App>, upgradefile: Given, backupfile: Given, store: Store, chosen: nat)
    returns (r: Result<TaskFlow, Error>, store': Store)
    requires apps != [] ==> chosen < |apps|
    ensures r.Ok? <==>
              && apps != [] && !upgradefile.Other? && !backupfile.Other? && !FileIn(store)
              && forall i :: 0 <= i < |apps| ==> AppOk(apps[i], upgradefile.PublicFile?)
    ensures r.Ok? ==> r.value == Prune(Whole(apps, upgradefile.PublicFile?, backupfile.PublicFile?, apps[chosen]))
    ensures r.Err? ==>
              if apps == [] then r.error == NoApplication
              else if upgradefile.Other? || backupfile.Other? then r.error == NotAFile
              else if FileIn(store) then r.error == FileInStore
              else FirstRefusal(apps, upgradefile.PublicFile?, r.error)
    ensures r.Ok? ==> store' == if upgradefile.PublicFile? || backupfile.PublicFile? || HasUpdate(apps[chosen].databases)
                                then Rebound(store) else store
  {
    store' := store;
    if apps == [] {
      return Err(NoApplication), store';
    }
    if upgradefile.Other? || backupfile.Other? {
      return Err(NotAFile), store';
    }
    if FileIn(store) {
      return Err(FileInStore), store';
    }
    hide FileIn, AppOk, Rebound, Prune, Main, FirstRefusal;
    var prepare;
    prepare, store' := PrepareFlow(apps[chosen], upgradefile.PublicFile?, backupfile.PublicFile?, store);
    var entities := EntityFlows(apps, upgradefile.PublicFile?);
    if entities.Err? {
      return Err(entities.error), store';
    }
    WholePruned(apps, upgradefile.PublicFile?, backupfile.PublicFile?, apps[chosen]);
    r := Ok(Main(prepare, entities.value));
  }

  /** The prepare tasks, on behalf of the chosen application. */
  method PrepareFlow(app: App, upgradefile: bool, backupfile: bool, store: Store)
    returns (prepare: seq<TaskFlow>, store': Store)
    ensures prepare == PruneAll(Prepare(upgradefile, backupfile, app))
    ensures store' == if upgradefile || backupfile || HasUpdate(app.databases) then Rebound(store) else store
  {
    assert PruneAll<Task>([]) == [];
    hide PruneAll, Opt, HasUpdate;
    prepare, store' := AddPrepare([], store, upgradefile, GetUpgradeFile, []);
    prepare, store' := AddPrepare(prepare, store', backupfile, BackUpFile, [Opt(upgradefile, GetUpgradeFile)]);
    prepare, store' := AddPrepare(prepare, store', HasUpdate(app.databases), GetSqlFile,
                                  [Opt(upgradefile, GetUpgradeFile), Opt(backupfile, BackUpFile)]);
  }

  /** One of its three branches. */
  method AddPrepare(flow: seq<TaskFlow>, store: Store, present: bool, t: Task, ghost parts: seq<TaskFlow>)
    returns (prepare: seq<TaskFlow>, store': Store)
    requires flow == PruneAll(parts)
    ensures prepare == PruneAll(parts + [Opt(present, t)])
    ensures store' == if present then Rebound(store) else store
  {
    prepare, store' := flow, store;
    PruneOpt(parts, present, t);
    if present {
      store' := Rebound(store');
      prepare := prepare + [Atom(t)];
    }
  }

  /** The flow of everything, from the flows of the two phases; the first is left out if it is empty. */
  function Main(prepare: seq<TaskFlow>, entities: seq<TaskFlow>): TaskFlow {
    Linear(if prepare != [] then [Unordered(prepare), Unordered(entities)] else [Unordered(entities)])
  }

  lemma PruneOne(f: TaskFlow)
    ensures PruneAll([f]) == if IsEmpty(Prune(f)) then [] else [Prune(f)]
  {
    assert [f][1..] == [];
  }

  lemma MainPruned(prepare: seq<TaskFlow>, entities: seq<TaskFlow>)
    requires PruneAll(entities) != []
    ensures Prune(Linear([Unordered(prepare), Unordered(entities)])) == Main(PruneAll(prepare), PruneAll(entities))
  {
    hide PruneAll;
    var p, e: TaskFlow := Unordered(prepare), Unordered(entities);
    PruneOne(p);
    PruneAppends([p], e);
    assert [p] + [e] == [p, e];
    assert Prune(p) == Unordered(PruneAll(prepare)) && Prune(e) == Unordered(PruneAll(entities));
    assert Prune<Task>(Linear([p, e])) == Linear(PruneAll([p, e]));
    hide Prune;
  }

  lemma WholePruned(apps: seq<App>, upgradefile: bool, backupfile: bool, chosen: App)
    requires apps != []
    ensures Prune(Whole(apps, upgradefile, backupfile, chosen))
         == Main(PruneAll(Prepare(upgradefile, backupfile, chosen)), PruneAll(Entities(apps)))
  {
    hide PruneAll, Prune, Prepare;
    EntitiesPruned(apps);
    MainPruned(Prepare(upgradefile, backupfile, chosen), Entities(apps));
  }

  lemma EntitiesPruned(apps: seq<App>)
    requires apps != []
    ensures PruneAll(Entities(apps)) != []
  {
    var first := Entities(apps)[0];
    var parts := EntityParts(0, apps[0]);
    assert Prune(parts[0]) == Atom(Provides(0));
    assert Prune(first) == Linear(PruneAll(parts)) && PruneAll(parts) != [];
    hide EntityParts;
  }

  /** The loop of flow_factory over the applications. */
  method EntityFlows(apps: seq<App>, upgradefile: bool) returns (r: Result<seq<TaskFlow>, Error>)
    ensures r.Ok? <==> forall i :: 0 <= i < |apps| ==> AppOk(apps[i], upgradefile)
    ensures r.Ok? ==> r.value == PruneAll(Entities(apps))
    ensures r.Err? ==> FirstRefusal(apps, upgradefile, r.error)
  {
    var flows: seq<TaskFlow> := [];
    ghost var full := Entities(apps);
    for i := 0 to |apps|
      invariant forall k :: 0 <= k < i ==> AppOk(apps[k], upgradefile)
      invariant flows == PruneAll(full[..i])
    {
      var entity := EntityFactory(i, apps[i], upgradefile);
      if entity.Err? {
        return Err(entity.error);
      }
      assert full[..i + 1] == full[..i] + [full[i]];
      PruneAppends(full[..i], full[i]);
      EntityNotEmpty(i, apps[i]);
      flows := flows + [entity.value];
    }
    assert full[..|apps|] == full;
    return Ok(flows);
  }

  lemma EntityNotEmpty(i: nat, a: App)
    ensures !IsEmpty(Prune(Linear(EntityParts(i, a))))
  {
    assert Prune(EntityParts(i, a)[0]) == Atom(Provides(i));
  }

  /**
   * Of two tasks of the flow that flow_factory builds, one comes before the other in
   * every run exactly if it is meant to; leaving out empty flows changed nothing.
   */
  lemma UpgradeOrder(apps: seq<App>, upgradefile: bool, backupfile: bool, chosen: App, x: Task, y: Task)
    requires Present(apps, upgradefile, backupfile, chosen, x) && Present(apps, upgradefile, backupfile, chosen, y)
    ensures AlwaysBefore(Prune(Whole(apps, upgradefile, backupfile, chosen)), x, y) <==> Ordered(x, y)
  {
    var f := Whole(apps, upgradefile, backupfile, chosen);
    WholePresent(apps, upgradefile, backupfile, chosen, x);
    WholePresent(apps, upgradefile, backupfile, chosen, y);
    WholeOrder(apps, upgradefile, backupfile, chosen, x, y);
    MustExact(f, x, y);
    forall run ensures IsRun(Prune(f), run) <==> IsRun(f, run) {
      PruneKeepsRuns(f, run);
    }
    hide IsRun, Prune, Whole, Present, Ordered;
  }

  /**
   * The database update file is fetched only on behalf of the chosen application: with two applications
   * of which the second one updates a database, some draw leaves every run with the update and without the file.
   */
  lemma UpdateWithoutFile(first: App, second: App, db: nat, run: seq<Task>)
    requires !HasUpdate(first.databases) && db < |second.databases| && second.databases[db].update.Some?
    requires IsRun(Prune(Whole([first, second], false, false, first)), run)
    ensures DbUpdate(1, db) in run && GetSqlFile !in run
  {
    UpgradeRuns([first, second], false, false, first, run, DbUpdate(1, db));
    UpgradeRuns([first, second], false, false, first, run, GetSqlFile);
    hide IsRun, Prune, Whole, HasUpdate;
    assert DbUpdate(1, db) in run <==> DbUpdate(1, db) in multiset(run);
    assert GetSqlFile in run <==> GetSqlFile in multiset(run);
  }

  /** Every run does the tasks that are meant, each once, and no others. */
  lemma UpgradeRuns(apps: seq<App>, upgradefile: bool, backupfile: bool, chosen: App, run: seq<Task>, t: Task)
    requires IsRun(Prune(Whole(apps, upgradefile, backupfile, chosen)), run)
    ensures multiset(run)[t] == if Present(apps, upgradefile, backupfile, chosen, t) then 1 else 0
  {
    var f := Whole(apps, upgradefile, backupfile, chosen);
    PruneKeepsRuns(f, run);
    RunTasks(f, run);
    WholePresent(apps, upgradefile, backupfile, chosen, t);
    if t in Tasks(f) {
      WholeOnce(apps, upgradefile, backupfile, chosen, t);
    }
    hide Present, Whole, IsRun, Prune;
  }
}
