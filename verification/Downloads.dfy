/**
 * Single-flight downloads of the file manager: any number of green threads that call get
 * and delete, the workers that download, and scans (goperation/filemanager/__init__.py).
 *
 * A step is what a thread does between two places where it may sleep: taking the lock,
 * looking up the file's info, downloading, and waiting for an event.
 */
module Downloads {
  import opened Wrappers
  import opened FileScan

  datatype Target = ByMd5(md5: nat) | ByPath(path: Name)

  /** What the info lookup returns for an md5. */
  datatype Info = Info(md5: nat, ext: string, size: nat)

  /** A call of get: before the lock, inside the info lookup with the lock, and waiting for an event. */
  datatype Phase = Wanting(target: Target) | Looking(md5: nat, event: nat) | Waiting(md5: nat, event: nat)

  datatype Stage = Begun | Loading | Fetched(digest: nat, size: nat)

  datatype Worker = Worker(md5: nat, info: Info, stage: Stage)

  /** The directory, the database and the two indexes. */
  datatype Files = Files(disk: Disk, rows: Rows, localpath: map<Name, LocalFile>, localmd5: map<nat, LocalFile>)

  /**
   * downloading: the event of each md5 that is being downloaded; sent: the events that were sent,
   * and whether with success; twice: an event was sent a second time.
   */
  datatype Flight = Flight(downloading: map<nat, nat>, sent: map<nat, bool>, twice: bool, nextEvent: nat)

  /** lock: the call of get that holds the lock while it sleeps; workers: by their events. */
  datatype State = State(files: Files, flight: Flight, lock: Option<nat>,
                         getters: map<nat, Phase>, deleters: map<nat, LocalFile>, workers: map<nat, Worker>)

  const INIT := State(Files(map[], map[], map[], map[]), Flight(map[], map[], false, 0), None, map[], map[], map[])

  /** Change: somebody else puts a file into the directory, or removes one. */
  datatype Action =
    | Get(getter: nat, target: Target, download: bool)
    | Enter(getter: nat)
    | Look(getter: nat, info: Info)
    | LookRaises(getter: nat)
    | Return(getter: nat)
    | Begin(event: nat)
    | BeginFails(event: nat)
    | WorkerDies(event: nat)
    | Load(event: nat, content: Content)
    | LoadFails(event: nat)
    | Finish(event: nat)
    | Delete(deleter: nat, target: Target)
    | DeleteLocked(deleter: nat)
    | Scan(result: Files)
    | ScanFails(result: Files)
    | Change(path: Name, now: Option<Content>)

  /** _find. */
  function Find(s: State, target: Target): Option<LocalFile> {
    match target
    case ByMd5(md5) => if md5 in s.files.localmd5 then Some(s.files.localmd5[md5]) else None
    case ByPath(path) => if path in s.files.localpath then Some(s.files.localpath[path]) else None
  }

  function WorkerPath(w: Worker): Name {
    PathOf(w.info.md5, w.info.ext)
  }

  /** A new entry with a new event. */
  function Opened(f: Flight, md5: nat): Flight {
    f.(downloading := f.downloading[md5 := f.nextEvent], nextEvent := f.nextEvent + 1)
  }

  /** The entry of an md5 is removed and its event sent. */
  function Closed(f: Flight, md5: nat, event: nat, success: bool): Flight {
    Flight(f.downloading - {md5}, f.sent[event := success], f.twice || event in f.sent, f.nextEvent)
  }

  function Close(s: State, md5: nat, event: nat, success: bool): State {
    s.(workers := s.workers - {event}, flight := Closed(s.flight, md5, event, success))
  }

  function SetGetter(s: State, g: nat, phase: Phase): State {
    s.(getters := s.getters[g := phase])
  }

  function EndGetter(s: State, g: nat): State {
    s.(getters := s.getters - {g})
  }

  function GetStep(s: State, g: nat, target: Target, download: bool): Outcome<State> {
    if g in s.getters then Disabled
    else
      match Find(s, target)
      case None => if download then Moved(SetGetter(s, g, Wanting(target))) else Raised(s)
      case Some(file) =>
        if file.path in s.files.disk || download then Moved(SetGetter(s, g, Wanting(ByMd5(file.md5))))
        else if g in s.deleters then Disabled
        else Raised(s.(deleters := s.deleters[g := file]))
  }

  /** get with the lock taken, up to the info lookup. */
  function EnterStep(s: State, g: nat): Outcome<State> {
    if g !in s.getters || !s.getters[g].Wanting? || s.lock.Some? then Disabled
    else
      match s.getters[g].target
      case ByPath(_) => Raised(EndGetter(s, g))
      case ByMd5(md5) =>
        if md5 in s.flight.downloading then Moved(SetGetter(s, g, Waiting(md5, s.flight.downloading[md5])))
        else
          Moved(s.(getters := s.getters[g := Looking(md5, s.flight.nextEvent)], lock := Some(g),
                   flight := Opened(s.flight, md5)))
  }

  function LookStep(s: State, g: nat, info: Info): Outcome<State> {
    if g !in s.getters || !s.getters[g].Looking? then Disabled
    else
      var Looking(md5, event) := s.getters[g];
      if info.md5 != md5 then Raised(EndGetter(Close(s, md5, event, false), g).(lock := None))
      else
        Moved(s.(getters := s.getters[g := Waiting(md5, event)], lock := None,
                 workers := s.workers[event := Worker(md5, info, Begun)]))
  }

  function LookRaisesStep(s: State, g: nat): Outcome<State> {
    if g !in s.getters || !s.getters[g].Looking? then Disabled
    else Raised(EndGetter(s, g).(lock := None))
  }

  /** The event was sent: a failure is raised, and after a success the file is looked for again. */
  function ReturnStep(s: State, g: nat): Outcome<State> {
    if g !in s.getters || !s.getters[g].Waiting? || s.getters[g].event !in s.flight.sent then Disabled
    else if !s.flight.sent[s.getters[g].event] then Raised(EndGetter(s, g))
    else
      match Find(s, ByMd5(s.getters[g].md5))
      case None => Raised(EndGetter(s, g))
      case Some(file) => if file.path in s.files.disk then Moved(EndGetter(s, g)) else Raised(EndGetter(s, g))
  }

  /** The end of a download is a success: the file is the one that was asked for, and is indexed or can be. */
  predicate Succeeds(s: State, w: Worker)
    requires w.stage.Fetched?
  {
    && w.stage.digest == w.md5 && w.stage.size == w.info.size
    && (if w.md5 in s.files.localmd5 then s.files.localmd5[w.md5].size == w.stage.size else w.md5 !in s.files.rows)
  }

  /** What the end of a download does to the files, the records and the indexes. */
  function FinishFiles(s: State, w: Worker): (r: State)
    requires w.stage.Fetched?
    ensures r == s.(files := r.files)
  {
    var path, size := WorkerPath(w), w.stage.size;
    if w.stage.digest != w.md5 || size != w.info.size then s.(files := s.files.(disk := s.files.disk - {path}))
    else if w.md5 in s.files.localmd5 then
      if s.files.localmd5[w.md5].size != size then s.(files := s.files.(disk := s.files.disk - {path})) else s
    else if w.md5 in s.files.rows then s
    else
      var file := LocalFile(path, w.md5, size);
      s.(files := Files(s.files.disk, s.files.rows[w.md5 := Row(size, w.info.ext)],
                        s.files.localpath[path := file], s.files.localmd5[w.md5 := file]))
  }

  function SetStage(s: State, e: nat, stage: Stage): State
    requires e in s.workers
  {
    s.(workers := s.workers[e := s.workers[e].(stage := stage)])
  }

  function BeginStep(s: State, e: nat): Outcome<State>
    requires e in s.workers
  {
    var path := WorkerPath(s.workers[e]);
    if s.workers[e].stage != Begun then Disabled
    else if path in s.files.disk then Moved(SetStage(s, e, Fetched(s.files.disk[path].digest, s.files.disk[path].size)))
    else Moved(SetStage(s, e, Loading))
  }

  /** The file that is there already cannot be read. */
  function BeginFailsStep(s: State, e: nat): Outcome<State>
    requires e in s.workers
  {
    if s.workers[e].stage != Begun || WorkerPath(s.workers[e]) !in s.files.disk then Disabled
    else Raised(Close(s, s.workers[e].md5, e, false))
  }

  /** The downloader is not known. */
  function WorkerDiesStep(s: State, e: nat): Outcome<State>
    requires e in s.workers
  {
    if s.workers[e].stage != Begun || WorkerPath(s.workers[e]) in s.files.disk then Disabled
    else Raised(s.(workers := s.workers - {e}))
  }

  function LoadStep(s: State, e: nat, content: Content): Outcome<State>
    requires e in s.workers
  {
    if s.workers[e].stage != Loading then Disabled
    else
      var disk := s.files.disk[WorkerPath(s.workers[e]) := content];
      Moved(SetStage(s.(files := s.files.(disk := disk)), e, Fetched(content.digest, content.size)))
  }

  function LoadFailsStep(s: State, e: nat): Outcome<State>
    requires e in s.workers
  {
    if s.workers[e].stage != Loading then Disabled
    else Raised(Close(s.(files := s.files.(disk := s.files.disk - {WorkerPath(s.workers[e])})), s.workers[e].md5, e, false))
  }

  function FinishStep(s: State, e: nat): Outcome<State>
    requires e in s.workers
  {
    var w := s.workers[e];
    if !w.stage.Fetched? then Disabled else Moved(Close(FinishFiles(s, w), w.md5, e, Succeeds(s, w)))
  }

  function DeleteStep(s: State, d: nat, target: Target): Outcome<State> {
    if d in s.deleters then Disabled
    else
      match Find(s, target)
      case None => Moved(s)
      case Some(file) => Moved(s.(deleters := s.deleters[d := file]))
  }

  /** delete with the lock taken, for the file it found before. */
  function DeleteLockedStep(s: State, d: nat): Outcome<State> {
    if d !in s.deleters || s.lock.Some? then Disabled
    else
      var file := s.deleters[d];
      Moved(s.(deleters := s.deleters - {d},
               files := Files(s.files.disk - {file.path}, s.files.rows - {file.md5},
                              s.files.localpath - {file.path}, s.files.localmd5 - {file.md5})))
  }

  /** scanning, which does not sleep and leaves what FileScan proves of it. */
  ghost function ScanStep(s: State, result: Files): Outcome<State> {
    if s.lock.Some? then Disabled
    else if s.flight.downloading != map[] then Raised(s)
    else if !Scanned(s.files.disk, s.files.rows, result.disk, result.rows, result.localpath, result.localmd5) then Disabled
    else Moved(s.(files := result))
  }

  /** A scan that finds an error when it has changed the indexes. */
  ghost function ScanFailsStep(s: State, result: Files): Outcome<State> {
    if s.lock.Some? || s.flight.downloading != map[] || !Bijection(result.localpath, result.localmd5) then Disabled
    else Raised(s.(files := result))
  }

  ghost function Next(s: State, a: Action): Outcome<State> {
    match a
    case Get(g, target, download) => GetStep(s, g, target, download)
    case Enter(g) => EnterStep(s, g)
    case Look(g, info) => LookStep(s, g, info)
    case LookRaises(g) => LookRaisesStep(s, g)
    case Return(g) => ReturnStep(s, g)
    case Begin(e) => if e in s.workers then BeginStep(s, e) else Disabled
    case BeginFails(e) => if e in s.workers then BeginFailsStep(s, e) else Disabled
    case WorkerDies(e) => if e in s.workers then WorkerDiesStep(s, e) else Disabled
    case Load(e, content) => if e in s.workers then LoadStep(s, e, content) else Disabled
    case LoadFails(e) => if e in s.workers then LoadFailsStep(s, e) else Disabled
    case Finish(e) => if e in s.workers then FinishStep(s, e) else Disabled
    case Delete(d, target) => DeleteStep(s, d, target)
    case DeleteLocked(d) => DeleteLockedStep(s, d)
    case Scan(result) => ScanStep(s, result)
    case ScanFails(result) => ScanFailsStep(s, result)
    case Change(path, now) =>
      var disk := s.files.disk;
      Moved(s.(files := s.files.(disk := if now.Some? then disk[path := now.value] else disk - {path})))
  }

  /** The state after a sequence of steps, if all of them were enabled. */
  ghost function Exec(s: State, actions: seq<Action>): Option<State>
    decreases |actions|
  {
    if actions == [] then Some(s)
    else
      match Next(s, actions[0])
      case Disabled => None
      case Moved(s') => Exec(s', actions[1..])
      case Raised(s') => Exec(s', actions[1..])
  }

  /** The info lookup returns a valid record, and the downloader of the record is known. */
  predicate Known(a: Action) {
    !a.LookRaises? && !a.WorkerDies?
  }

  // ---- one worker, one event, sent once ----

  /** The pending events are those of the entries, and none was sent yet. */
  ghost predicate EventsInv(sent: map<nat, bool>, nextEvent: nat, downloading: map<nat, nat>) {
    && (forall e :: e in sent ==> e < nextEvent)
    && (forall m :: m in downloading ==> downloading[m] < nextEvent && downloading[m] !in sent)
    && (forall m, n :: m in downloading && n in downloading && downloading[m] == downloading[n] ==> m == n)
  }

  /** Every worker is about the entry of its md5. */
  ghost predicate WorkersInv(workers: map<nat, Worker>, downloading: map<nat, nat>) {
    forall e :: e in workers ==>
      && workers[e].info.md5 == workers[e].md5
      && workers[e].md5 in downloading && downloading[workers[e].md5] == e
  }

  /** A call that looks up the info holds the lock, and its entry has no worker yet. */
  ghost predicate LooksInv(getters: map<nat, Phase>, lock: Option<nat>, downloading: map<nat, nat>,
                           workers: map<nat, Worker>) {
    forall g :: g in getters && getters[g].Looking? ==>
      && lock == Some(g) && getters[g].event !in workers
      && getters[g].md5 in downloading && downloading[getters[g].md5] == getters[g].event
  }

  /** The call that holds the lock is about to start a worker for the entry. */
  ghost predicate IsLooking(getters: map<nat, Phase>, lock: Option<nat>, md5: nat, event: nat) {
    lock.Some? && lock.value in getters && getters[lock.value] == Looking(md5, event)
  }

  /** Every entry has a worker or a lookup. */
  ghost predicate NoOrphan(getters: map<nat, Phase>, lock: Option<nat>, downloading: map<nat, nat>,
                           workers: map<nat, Worker>) {
    forall m :: m in downloading ==> downloading[m] in workers || IsLooking(getters, lock, m, downloading[m])
  }

  ghost predicate Inv(s: State) {
    && !s.flight.twice
    && EventsInv(s.flight.sent, s.flight.nextEvent, s.flight.downloading)
    && WorkersInv(s.workers, s.flight.downloading)
    && LooksInv(s.getters, s.lock, s.flight.downloading, s.workers)
    && NoOrphan(s.getters, s.lock, s.flight.downloading, s.workers)
  }

  /** The worker of an entry closes it. */
  lemma CloseKeeps(s: State, e: nat, success: bool)
    requires Inv(s) && e in s.workers
    ensures Inv(Close(s, s.workers[e].md5, e, success))
  {
  }

  lemma StageKeeps(s: State, e: nat, stage: Stage)
    requires Inv(s) && e in s.workers
    ensures Inv(SetStage(s, e, stage))
  {
  }

  /** A call that is not looking up the info moves on without looking, or ends. */
  lemma GetterMoves(s: State, g: nat, phase: Phase)
    requires Inv(s) && (g in s.getters ==> !s.getters[g].Looking?) && !phase.Looking?
    ensures Inv(SetGetter(s, g, phase)) && Inv(EndGetter(s, g))
  {
  }

  lemma GetKeeps(s: State, g: nat, target: Target, download: bool)
    requires Inv(s) && !GetStep(s, g, target, download).Disabled?
    ensures Inv(GetStep(s, g, target, download).state)
  {
    hide EventsInv, WorkersInv, LooksInv, NoOrphan;
    var found := Find(s, target);
    GetterMoves(s, g, if found.None? then Wanting(target) else Wanting(ByMd5(found.value.md5)));
    hide SetGetter, EndGetter, Find;
  }

  lemma EnterKeeps(s: State, g: nat)
    requires Inv(s) && !EnterStep(s, g).Disabled?
    ensures Inv(EnterStep(s, g).state)
  {
    if s.getters[g].target.ByMd5? {
      var md5 := s.getters[g].target.md5;
      if md5 in s.flight.downloading {
        GetterMoves(s, g, Waiting(md5, s.flight.downloading[md5]));
      } else {
        EntryKeeps(s, g, md5);
      }
    } else {
      GetterMoves(s, g, s.getters[g]);
    }
    hide Inv, SetGetter, EndGetter;
  }

  lemma OpenedKeeps(f: Flight, md5: nat)
    requires EventsInv(f.sent, f.nextEvent, f.downloading) && md5 !in f.downloading
    ensures var f' := Opened(f, md5); EventsInv(f'.sent, f'.nextEvent, f'.downloading)
  {
  }

  /** A worker has an event that was given out before. */
  lemma WorkersOld(f: Flight, workers: map<nat, Worker>, e: nat)
    requires EventsInv(f.sent, f.nextEvent, f.downloading) && WorkersInv(workers, f.downloading) && e in workers
    ensures e < f.nextEvent
  {
  }

  lemma EntryOfWorkers(s: State, md5: nat)
    requires EventsInv(s.flight.sent, s.flight.nextEvent, s.flight.downloading)
    requires WorkersInv(s.workers, s.flight.downloading) && md5 !in s.flight.downloading
    ensures WorkersInv(s.workers, Opened(s.flight, md5).downloading) && s.flight.nextEvent !in s.workers
  {
    hide EventsInv;
    forall e | e in s.workers ensures e < s.flight.nextEvent {
      WorkersOld(s.flight, s.workers, e);
    }
  }

  lemma EntryOfGetters(s: State, g: nat, md5: nat)
    requires LooksInv(s.getters, s.lock, s.flight.downloading, s.workers)
    requires NoOrphan(s.getters, s.lock, s.flight.downloading, s.workers)
    requires s.lock.None? && s.flight.nextEvent !in s.workers
    ensures var getters, downloading := s.getters[g := Looking(md5, s.flight.nextEvent)], Opened(s.flight, md5).downloading;
            LooksInv(getters, Some(g), downloading, s.workers) && NoOrphan(getters, Some(g), downloading, s.workers)
  {
  }

  lemma EntryKeeps(s: State, g: nat, md5: nat)
    requires Inv(s) && s.lock.None? && md5 !in s.flight.downloading
    ensures Inv(s.(getters := s.getters[g := Looking(md5, s.flight.nextEvent)], lock := Some(g),
                   flight := Opened(s.flight, md5)))
  {
    hide EventsInv, WorkersInv, LooksInv, NoOrphan;
    OpenedKeeps(s.flight, md5);
    EntryOfWorkers(s, md5);
    EntryOfGetters(s, g, md5);
  }

  /** The lookup returns the right record: its entry gets a worker. */
  lemma LookStarts(s: State, g: nat, md5: nat, event: nat, w: Worker)
    requires Inv(s) && g in s.getters && s.getters[g] == Looking(md5, event) && w.md5 == md5 && w.info.md5 == md5
    ensures Inv(s.(getters := s.getters[g := Waiting(md5, event)], lock := None, workers := s.workers[event := w]))
  {
    hide EventsInv;
  }

  /** It returns another record: its entry is closed. */
  lemma LookFails(s: State, g: nat, md5: nat, event: nat)
    requires Inv(s) && g in s.getters && s.getters[g] == Looking(md5, event)
    ensures Inv(EndGetter(Close(s, md5, event, false), g).(lock := None))
  {
  }

  lemma LookKeeps(s: State, g: nat, info: Info)
    requires Inv(s) && !LookStep(s, g, info).Disabled?
    ensures Inv(LookStep(s, g, info).state)
  {
    hide Inv, Close, EndGetter;
    var Looking(md5, event) := s.getters[g];
    if info.md5 == md5 {
      LookStarts(s, g, md5, event, Worker(md5, info, Begun));
    } else {
      LookFails(s, g, md5, event);
    }
  }

  lemma ReturnKeeps(s: State, g: nat)
    requires Inv(s) && !ReturnStep(s, g).Disabled?
    ensures Inv(ReturnStep(s, g).state)
  {
    GetterMoves(s, g, s.getters[g]);
    hide Inv, EndGetter, Find;
  }

  /** Inv is about everything but the files and their indexes. */
  lemma FilesKeep(s: State, s': State)
    requires Inv(s)
    requires s' == s.(files := s'.files)
    ensures Inv(s')
  {
  }

  lemma FinishKeeps(s: State, e: nat)
    requires Inv(s) && e in s.workers && s.workers[e].stage.Fetched?
    ensures var w := s.workers[e]; Inv(Close(FinishFiles(s, w), w.md5, e, Succeeds(s, w)))
  {
    hide EventsInv, WorkersInv, LooksInv, NoOrphan;
    var w := s.workers[e];
    FilesKeep(s, FinishFiles(s, w));
    CloseKeeps(FinishFiles(s, w), e, Succeeds(s, w));
  }

  lemma BeginKeeps(s: State, e: nat)
    requires Inv(s) && e in s.workers && !BeginStep(s, e).Disabled?
    ensures Inv(BeginStep(s, e).state)
  {
    hide Inv, SetStage;
    var path := WorkerPath(s.workers[e]);
    StageKeeps(s, e, Loading);
    if path in s.files.disk {
      StageKeeps(s, e, Fetched(s.files.disk[path].digest, s.files.disk[path].size));
    }
  }

  lemma LoadKeeps(s: State, e: nat, content: Content)
    requires Inv(s) && e in s.workers
    ensures !LoadStep(s, e, content).Disabled? ==> Inv(LoadStep(s, e, content).state)
    ensures !LoadFailsStep(s, e).Disabled? ==> Inv(LoadFailsStep(s, e).state)
  {
    hide Inv, SetStage, Close;
    var path := WorkerPath(s.workers[e]);
    var more := s.(files := s.files.(disk := s.files.disk[path := content]));
    var less := s.(files := s.files.(disk := s.files.disk - {path}));
    FilesKeep(s, more);
    StageKeeps(more, e, Fetched(content.digest, content.size));
    FilesKeep(s, less);
    CloseKeeps(less, e, false);
  }

  lemma NextKeeps(s: State, a: Action)
    requires Inv(s) && Known(a) && !Next(s, a).Disabled?
    ensures Inv(Next(s, a).state)
  {
    if a.Begin? || a.BeginFails? || a.Load? || a.LoadFails? || a.Finish? {
      CloseKeeps(s, a.event, false);
    }
    hide EventsInv, WorkersInv, LooksInv, NoOrphan;
    hide GetStep, EnterStep, LookStep, ReturnStep, BeginStep, LoadStep, LoadFailsStep;
    hide Close, Succeeds, FinishFiles, Scanned, Bijection;
    match a
    case Get(g, target, download) => GetKeeps(s, g, target, download);
    case Enter(g) => EnterKeeps(s, g);
    case Look(g, info) => LookKeeps(s, g, info);
    case Return(g) => ReturnKeeps(s, g);
    case Begin(e) => BeginKeeps(s, e);
    case Load(e, content) => LoadKeeps(s, e, content);
    case LoadFails(e) => LoadKeeps(s, e, Content(0, 0));
    case Finish(e) => FinishKeeps(s, e);
    case _ =>
  }

  lemma {:induction false} ExecKeeps(s: State, actions: seq<Action>)
    requires Inv(s) && (forall i :: 0 <= i < |actions| ==> Known(actions[i])) && Exec(s, actions).Some?
    ensures Inv(Exec(s, actions).value)
    decreases |actions|
  {
    if actions != [] {
      NextKeeps(s, actions[0]);
      hide Inv, Next;
      ExecKeeps(Next(s, actions[0]).state, actions[1..]);
    }
  }

  /**
   * After every run: no event was sent twice; an event is pending exactly while it is that of an entry; an md5 has
   * at most one worker, and has one or is being looked up exactly while it has an entry.
   */
  lemma SingleFlight(actions: seq<Action>, md5: nat)
    requires (forall i :: 0 <= i < |actions| ==> Known(actions[i])) && Exec(INIT, actions).Some?
    ensures var s := Exec(INIT, actions).value;
            && !s.flight.twice
            && (md5 in s.flight.downloading ==> s.flight.downloading[md5] !in s.flight.sent)
            && (forall e, f :: e in s.workers && f in s.workers && s.workers[e].md5 == md5 && s.workers[f].md5 == md5 ==>
                  e == f)
            && (forall e :: e in s.workers && s.workers[e].md5 == md5 ==>
                  md5 in s.flight.downloading && s.flight.downloading[md5] == e)
            && (md5 in s.flight.downloading ==>
                  || (s.flight.downloading[md5] in s.workers && s.workers[s.flight.downloading[md5]].md5 == md5)
                  || IsLooking(s.getters, s.lock, md5, s.flight.downloading[md5]))
  {
    ExecKeeps(INIT, actions);
  }

  datatype Closing = Closing(md5: nat, event: nat, success: bool)

  /** The entry that a step closes. */
  function Closes(s: State, a: Action): Option<Closing> {
    match a
    case Look(g, info) =>
      if g in s.getters && s.getters[g].Looking? && info.md5 != s.getters[g].md5
      then Some(Closing(s.getters[g].md5, s.getters[g].event, false)) else None
    case BeginFails(e) => if e in s.workers then Some(Closing(s.workers[e].md5, e, false)) else None
    case LoadFails(e) => if e in s.workers then Some(Closing(s.workers[e].md5, e, false)) else None
    case Finish(e) =>
      if e in s.workers && s.workers[e].stage.Fetched?
      then Some(Closing(s.workers[e].md5, e, Succeeds(s, s.workers[e]))) else None
    case _ => None
  }

  /** The md5 for which a step makes an entry. */
  function Opens(s: State, a: Action): Option<nat> {
    match a
    case Enter(g) =>
      if g in s.getters && s.getters[g].Wanting? && s.getters[g].target.ByMd5? &&
         s.getters[g].target.md5 !in s.flight.downloading
      then Some(s.getters[g].target.md5) else None
    case _ => None
  }

  /** A step does nothing to the entries and the events but close an entry, or open one with a new event. */
  ghost predicate OnlyCloses(f: Flight, f': Flight, closes: Option<Closing>, opens: Option<nat>) {
    f' == match closes
          case Some(c) => Closed(f, c.md5, c.event, c.success)
          case None => if opens.Some? then Opened(f, opens.value) else f
  }

  lemma EnterOpens(s: State, g: nat)
    requires !EnterStep(s, g).Disabled?
    ensures OnlyCloses(s.flight, EnterStep(s, g).state.flight, None, Opens(s, Enter(g)))
  {
  }

  lemma LookCloses(s: State, g: nat, info: Info)
    requires !LookStep(s, g, info).Disabled?
    ensures OnlyCloses(s.flight, LookStep(s, g, info).state.flight, Closes(s, Look(g, info)), None)
  {
  }

  lemma CallsClose(s: State, g: nat, target: Target, download: bool)
    ensures !GetStep(s, g, target, download).Disabled? ==>
              OnlyCloses(s.flight, GetStep(s, g, target, download).state.flight, None, None)
    ensures !ReturnStep(s, g).Disabled? ==> OnlyCloses(s.flight, ReturnStep(s, g).state.flight, None, None)
    ensures !LookRaisesStep(s, g).Disabled? ==> OnlyCloses(s.flight, LookRaisesStep(s, g).state.flight, None, None)
    ensures !DeleteStep(s, g, target).Disabled? ==> OnlyCloses(s.flight, DeleteStep(s, g, target).state.flight, None, None)
  {
    hide Find;
  }

  lemma FinishCloses(s: State, e: nat)
    requires e in s.workers && !FinishStep(s, e).Disabled?
    ensures OnlyCloses(s.flight, FinishStep(s, e).state.flight, Closes(s, Finish(e)), None)
  {
    hide Succeeds, FinishFiles;
  }

  lemma StepCloses(s: State, a: Action)
    requires !Next(s, a).Disabled?
    ensures OnlyCloses(s.flight, Next(s, a).state.flight, Closes(s, a), Opens(s, a))
  {
    hide Scanned, Bijection, GetStep, EnterStep, LookStep, LookRaisesStep, ReturnStep, FinishStep, DeleteStep, Succeeds;
    match a
    case Get(g, target, download) => CallsClose(s, g, target, download);
    case Enter(g) => EnterOpens(s, g);
    case Look(g, info) => LookCloses(s, g, info);
    case LookRaises(g) => CallsClose(s, g, ByMd5(0), false);
    case Return(g) => CallsClose(s, g, ByMd5(0), false);
    case Delete(d, target) => CallsClose(s, d, target, false);
    case Finish(e) => FinishCloses(s, e);
    case _ =>
  }

  lemma ClosesOwn(s: State, a: Action)
    requires Inv(s) && Closes(s, a).Some?
    ensures var c := Closes(s, a).value; c.md5 in s.flight.downloading && s.flight.downloading[c.md5] == c.event
  {
    hide Succeeds;
  }

  /** A step that sends an event removes its entry, and a step that removes an entry sends its event. */
  lemma SentWhenRemoved(s: State, a: Action, md5: nat)
    requires Inv(s) && !Next(s, a).Disabled? && md5 in s.flight.downloading
    ensures var s' := Next(s, a).state;
            s.flight.downloading[md5] in s'.flight.sent <==>
              !(md5 in s'.flight.downloading && s'.flight.downloading[md5] == s.flight.downloading[md5])
  {
    StepCloses(s, a);
    if Closes(s, a).Some? {
      ClosesOwn(s, a);
    }
    hide Next, Closes, WorkersInv, LooksInv, NoOrphan;
  }

  /**
   * Success is sent only by a worker that found the md5 and the size of the file to be those
   * that were asked for, and the md5 is indexed then with that size.
   */
  lemma SuccessIsVerified(s: State, a: Action, e: nat)
    requires Inv(s) && !Next(s, a).Disabled? && e !in s.flight.sent
    ensures var s' := Next(s, a).state;
            e in s'.flight.sent && s'.flight.sent[e] ==>
              && e in s.workers && a == Finish(e)
              && var w := s.workers[e];
                 && w.stage == Fetched(w.md5, w.info.size) && w.info.md5 == w.md5
                 && w.md5 in s'.files.localmd5 && s'.files.localmd5[w.md5].size == w.info.size
  {
    StepCloses(s, a);
    if a.Finish? {
      hide EventsInv, LooksInv, NoOrphan;
    } else {
      hide Next, Inv;
    }
  }

  // ---- what get returns ----

  /**
   * A call that waits returns exactly if its event was sent with success and the file is indexed and on disk
   * then; it raises exactly if the event was sent otherwise, or the file is not there.
   */
  lemma ReturnMeaning(s: State, g: nat, md5: nat, event: nat)
    requires g in s.getters && s.getters[g] == Waiting(md5, event)
    ensures var returned := Next(s, Return(g));
            && (returned.Disabled? <==> event !in s.flight.sent)
            && (returned.Moved? <==> event in s.flight.sent && s.flight.sent[event]
                                     && md5 in s.files.localmd5 && s.files.localmd5[md5].path in s.files.disk)
            && (!returned.Disabled? ==> returned.state == s.(getters := s.getters - {g}))
  {
  }

  /**
   * A call of get fails at once exactly if it may not download and the file is not indexed, or not on disk; in the
   * second case it goes on to delete the record.  Otherwise it asks for the md5 that is indexed, or for its target.
   */
  lemma GetMeaning(s: State, g: nat, target: Target, download: bool)
    requires g !in s.getters && g !in s.deleters
    ensures var found := if target.ByMd5? then target.md5 in s.files.localmd5 else target.path in s.files.localpath;
            var got := Next(s, Get(g, target, download));
            && !got.Disabled?
            && (!found ==> got == if download then Moved(s.(getters := s.getters[g := Wanting(target)])) else Raised(s))
            && (found ==>
                  var file := if target.ByMd5? then s.files.localmd5[target.md5] else s.files.localpath[target.path];
                  got == if download || file.path in s.files.disk
                         then Moved(s.(getters := s.getters[g := Wanting(ByMd5(file.md5))]))
                         else Raised(s.(deleters := s.deleters[g := file])))
  {
  }

  /**
   * With the lock, a path raises, as it cannot be downloaded; an md5 waits for its
   * entry, or makes one and looks up its info.
   */
  lemma EnterMeaning(s: State, g: nat, target: Target)
    requires g in s.getters && s.getters[g] == Wanting(target)
    ensures var entered := Next(s, Enter(g));
            && (entered.Disabled? <==> s.lock.Some?)
            && (s.lock.None? ==> (entered.Raised? <==> target.ByPath?))
            && (s.lock.None? && target.ByPath? ==> entered.state == s.(getters := s.getters - {g}))
            && (s.lock.None? && target.ByMd5? ==>
                  var s' := entered.state;
                  && s'.files == s.files && s'.workers == s.workers && target.md5 in s'.flight.downloading
                  && (target.md5 in s.flight.downloading ==>
                        s'.flight == s.flight && s'.lock.None?
                        && s'.getters == s.getters[g := Waiting(target.md5, s.flight.downloading[target.md5])])
                  && (target.md5 !in s.flight.downloading ==>
                        s'.flight.downloading == s.flight.downloading[target.md5 := s.flight.nextEvent]
                        && s'.lock == Some(g)
                        && s'.getters == s.getters[g := Looking(target.md5, s.flight.nextEvent)]))
  {
  }

  ghost function NextOwners(s: State, a: Action, owners: map<nat, nat>): map<nat, nat> {
    if Opens(s, a).Some? then owners[s.flight.nextEvent := Opens(s, a).value] else owners
  }

  /**
   * The info lookup ends with the lock released: with a worker for the entry, or, for another md5, with the entry
   * removed and its event sent as a failure; if it raises, the entry is left.
   */
  lemma LookMeaning(s: State, g: nat, md5: nat, event: nat, info: Info)
    requires g in s.getters && s.getters[g] == Looking(md5, event)
    ensures var looked := Next(s, Look(g, info)); var s' := looked.state;
            && !looked.Disabled? && s'.lock.None? && s'.files == s.files
            && (looked.Raised? <==> info.md5 != md5)
            && (looked.Moved? ==>
                  && s'.getters == s.getters[g := Waiting(md5, event)] && s'.flight == s.flight
                  && s'.workers == s.workers[event := Worker(md5, info, Begun)])
            && (looked.Raised? ==>
                  && g !in s'.getters && s'.flight.downloading == s.flight.downloading - {md5}
                  && s'.flight.sent == s.flight.sent[event := false] && event !in s'.workers)
    ensures Next(s, LookRaises(g)) == Raised(s.(getters := s.getters - {g}, lock := None))
  {
  }

  /** What a worker does up to the end of its download; failures send the event, an unknown downloader does not. */
  lemma WorkerMeaning(s: State, e: nat, content: Content)
    requires e in s.workers
    ensures var w := s.workers[e]; var path := PathOf(w.info.md5, w.info.ext); var there := path in s.files.disk;
            && Next(s, Begin(e)) == (if w.stage != Begun then Disabled else
                 Moved(s.(workers := s.workers[e := w.(stage :=
                   if there then Fetched(s.files.disk[path].digest, s.files.disk[path].size) else Loading)])))
            && Next(s, BeginFails(e)) == (if w.stage != Begun || !there then Disabled else Raised(Failed(s, e)))
            && Next(s, WorkerDies(e)) == (if w.stage != Begun || there then Disabled
                                          else Raised(s.(workers := s.workers - {e})))
            && Next(s, Load(e, content)) == (if w.stage != Loading then Disabled else
                 Moved(s.(files := s.files.(disk := s.files.disk[path := content]),
                          workers := s.workers[e := w.(stage := Fetched(content.digest, content.size))])))
            && Next(s, LoadFails(e)) == (if w.stage != Loading then Disabled else
                 Raised(Failed(s.(files := s.files.(disk := s.files.disk - {path})), e)))
  {
  }

  /** The worker has ended, and its event is sent as a failure; that an event was sent before is noted. */
  ghost function Failed(s: State, e: nat): State
    requires e in s.workers
  {
    var f := s.flight;
    s.(workers := s.workers - {e},
       flight := Flight(f.downloading - {s.workers[e].md5}, f.sent[e := false], f.twice || e in f.sent, f.nextEvent))
  }

  /** delete finds its file first, and with the lock removes file, record and both entries of the indexes. */
  lemma DeleteMeaning(s: State, d: nat, target: Target)
    ensures var found := if target.ByMd5? then target.md5 in s.files.localmd5 else target.path in s.files.localpath;
            d !in s.deleters ==>
              && (!found ==> Next(s, Delete(d, target)) == Moved(s))
              && (found ==>
                    var file := if target.ByMd5? then s.files.localmd5[target.md5] else s.files.localpath[target.path];
                    Next(s, Delete(d, target)) == Moved(s.(deleters := s.deleters[d := file])))
    ensures d in s.deleters && s.lock.None? ==>
              var deleted := Next(s, DeleteLocked(d)); var file := s.deleters[d];
              && deleted.Moved? && deleted.state.deleters == s.deleters - {d}
              && file.path !in deleted.state.files.disk && file.md5 !in deleted.state.files.rows
              && file.path !in deleted.state.files.localpath && file.md5 !in deleted.state.files.localmd5
              && deleted.state.files == Files(s.files.disk - {file.path}, s.files.rows - {file.md5},
                                              s.files.localpath - {file.path}, s.files.localmd5 - {file.md5})
  {
  }

  /** A scan waits for the lock, raises while something is downloaded, and else leaves what was scanned. */
  lemma ScanMeaning(s: State, result: Files)
    ensures Next(s, Scan(result)).Raised? <==> s.lock.None? && s.flight.downloading != map[]
    ensures Next(s, Scan(result)).Raised? ==> Next(s, Scan(result)).state == s
    ensures Next(s, Scan(result)).Moved? <==>
              && s.lock.None? && s.flight.downloading == map[]
              && Scanned(s.files.disk, s.files.rows, result.disk, result.rows, result.localpath, result.localmd5)
    ensures Next(s, Scan(result)).Moved? ==> Next(s, Scan(result)).state == s.(files := result)
    ensures Next(s, ScanFails(result)) ==
              if s.lock.None? && s.flight.downloading == map[] && Bijection(result.localpath, result.localmd5)
              then Raised(s.(files := result)) else Disabled
  {
    hide Scanned, Bijection;
  }

  /** What the end of a download does to directory, records and indexes. */
  lemma FinishMeaning(s: State, e: nat)
    requires e in s.workers && s.workers[e].stage.Fetched?
    ensures var w, finished := s.workers[e], Next(s, Finish(e));
            var path, f, f' := PathOf(w.info.md5, w.info.ext), s.files, finished.state.files;
            var right := w.stage.digest == w.md5 && w.stage.size == w.info.size;
            && finished.Moved? && e !in finished.state.workers && e in finished.state.flight.sent
            && (!right ==> f' == f.(disk := f.disk - {path}) && !finished.state.flight.sent[e])
            && (right && w.md5 in f.localmd5 && f.localmd5[w.md5].size != w.info.size ==>
                  f' == f.(disk := f.disk - {path}) && !finished.state.flight.sent[e])
            && (right && w.md5 in f.localmd5 && f.localmd5[w.md5].size == w.info.size ==>
                  f' == f && finished.state.flight.sent[e])
            && (right && w.md5 !in f.localmd5 && w.md5 in f.rows ==> f' == f && !finished.state.flight.sent[e])
            && (right && w.md5 !in f.localmd5 && w.md5 !in f.rows ==>
                  var file := LocalFile(path, w.md5, w.info.size);
                  && f' == Files(f.disk, f.rows[w.md5 := Row(w.info.size, w.info.ext)],
                                 f.localpath[path := file], f.localmd5[w.md5 := file])
                  && finished.state.flight.sent[e])
  {
  }

  /** The md5 that every event so far was made for. */
  ghost function Owners(actions: seq<Action>): map<nat, nat>
    requires Exec(INIT, actions).Some?
    decreases |actions|
  {
    if actions == [] then map[]
    else
      var front, last := actions[..|actions| - 1], actions[|actions| - 1];
      ExecLast(INIT, actions);
      NextOwners(Exec(INIT, front).value, last, Owners(front))
  }

  lemma {:induction false} ExecLast(s: State, actions: seq<Action>)
    requires actions != [] && Exec(s, actions).Some?
    ensures var front, last := actions[..|actions| - 1], actions[|actions| - 1];
            && Exec(s, front).Some? && !Next(Exec(s, front).value, last).Disabled?
            && Exec(s, actions).value == Next(Exec(s, front).value, last).state
    decreases |actions|
  {
    var n := |actions|;
    hide Next;
    if n == 1 {
      assert actions[1..] == [] && actions[..0] == [];
    } else {
      ExecLast(Next(s, actions[0]).state, actions[1..]);
      assert actions[1..][..n - 2] == actions[..n - 1][1..];
    }
  }

  /** Entries, workers and calls of an event are all about the md5 it was made for. */
  ghost predicate OwnersAgree(s: State, owners: map<nat, nat>) {
    && (forall e: nat :: e in owners <==> e < s.flight.nextEvent)
    && (forall m :: m in s.flight.downloading ==> Owns(owners, s.flight.downloading[m], m))
    && (forall e :: e in s.workers ==> Owns(owners, e, s.workers[e].md5) && s.workers[e].info.md5 == s.workers[e].md5)
    && (forall g :: g in s.getters ==> PhaseAgrees(owners, s.getters[g]))
  }

  ghost predicate Owns(owners: map<nat, nat>, event: nat, md5: nat) {
    event in owners && owners[event] == md5
  }

  ghost predicate PhaseAgrees(owners: map<nat, nat>, phase: Phase) {
    !phase.Wanting? ==> Owns(owners, phase.event, phase.md5)
  }

  lemma OwnersOfEntries(s: State, a: Action, owners: map<nat, nat>)
    requires OwnersAgree(s, owners) && !Next(s, a).Disabled?
    ensures var f, owners' := Next(s, a).state.flight, NextOwners(s, a, owners);
            && (forall e: nat :: e in owners' <==> e < f.nextEvent)
            && (forall m :: m in f.downloading ==> Owns(owners', f.downloading[m], m))
  {
    StepCloses(s, a);
    hide Next, Closes;
  }

  lemma OwnersOfWorkers(s: State, a: Action, owners: map<nat, nat>)
    requires OwnersAgree(s, owners) && !Next(s, a).Disabled?
    ensures var ws, owners' := Next(s, a).state.workers, NextOwners(s, a, owners);
            forall e :: e in ws ==> Owns(owners', e, ws[e].md5) && ws[e].info.md5 == ws[e].md5
  {
    if a.Look? {
      assert PhaseAgrees(owners, s.getters[a.getter]);
    }
    hide Scanned, Bijection, Succeeds, FinishFiles, Find, PhaseAgrees, Closed, Opened;
  }

  lemma OwnersOfPhases(s: State, a: Action, owners: map<nat, nat>)
    requires OwnersAgree(s, owners) && !Next(s, a).Disabled?
    ensures var gs := Next(s, a).state.getters;
            forall g :: g in gs ==> PhaseAgrees(NextOwners(s, a, owners), gs[g])
  {
    hide Scanned, Bijection, Succeeds, FinishFiles, Find, Closed;
  }

  lemma OwnersStay(s: State, a: Action, owners: map<nat, nat>)
    requires OwnersAgree(s, owners) && !Next(s, a).Disabled?
    ensures OwnersAgree(Next(s, a).state, NextOwners(s, a, owners))
  {
    OwnersOfEntries(s, a, owners);
    OwnersOfWorkers(s, a, owners);
    OwnersOfPhases(s, a, owners);
    hide Next, NextOwners, Owns, PhaseAgrees;
  }

  lemma StartAgrees()
    ensures OwnersAgree(INIT, map[])
  {
  }

  lemma {:induction false} OwnersAlwaysAgree(actions: seq<Action>)
    requires Exec(INIT, actions).Some?
    ensures OwnersAgree(Exec(INIT, actions).value, Owners(actions))
    decreases |actions|
  {
    if actions == [] {
      StartAgrees();
    } else {
      var front, last := actions[..|actions| - 1], actions[|actions| - 1];
      ExecLast(INIT, actions);
      OwnersAlwaysAgree(front);
      OwnersStay(Exec(INIT, front).value, last, Owners(front));
      hide Next, OwnersAgree, NextOwners;
    }
  }

  /** The step finishes the download of an event, and what it loaded has the md5 and the size that were asked for. */
  ghost predicate Verifies(s: State, a: Action, event: nat, md5: nat) {
    && a == Finish(event) && event in s.workers && s.workers[event].md5 == md5
    && s.workers[event].stage == Fetched(md5, s.workers[event].info.size)
    && md5 in Next(s, a).state.files.localmd5
    && Next(s, a).state.files.localmd5[md5].size == s.workers[event].info.size
  }

  /** Step i of the run verified the file of the event. */
  ghost predicate VerifiedAt(actions: seq<Action>, i: nat, event: nat, md5: nat) {
    i < |actions| && Exec(INIT, actions[..i]).Some? && Verifies(Exec(INIT, actions[..i]).value, actions[i], event, md5)
  }

  lemma SendsSuccess(s: State, a: Action, owners: map<nat, nat>, e: nat)
    requires OwnersAgree(s, owners) && !Next(s, a).Disabled?
    requires var sent := Next(s, a).state.flight.sent; e in sent && sent[e]
    ensures (e in s.flight.sent && s.flight.sent[e]) || (e in owners && Verifies(s, a, e, owners[e]))
  {
    StepCloses(s, a);
    if a.Finish? && a.event == e && s.workers[e].stage.Fetched? && Succeeds(s, s.workers[e]) {
      FinishVerifies(s, e);
    }
    hide Next, Verifies;
  }

  lemma FinishVerifies(s: State, e: nat)
    requires e in s.workers && s.workers[e].stage.Fetched? && Succeeds(s, s.workers[e])
    ensures Verifies(s, Finish(e), e, s.workers[e].md5)
  {
  }

  /** An event is sent with success only by a step that verified the file. */
  lemma {:induction false} SentWasVerified(actions: seq<Action>, e: nat) returns (i: nat)
    requires Exec(INIT, actions).Some? && e in Exec(INIT, actions).value.flight.sent
    requires Exec(INIT, actions).value.flight.sent[e]
    ensures e in Owners(actions) && VerifiedAt(actions, i, e, Owners(actions)[e])
    decreases |actions|
  {
    var n := |actions|;
    assert actions != [];
    var front, last := actions[..n - 1], actions[n - 1];
    ExecLast(INIT, actions);
    OwnersAlwaysAgree(front);
    var s := Exec(INIT, front).value;
    SendsSuccess(s, last, Owners(front), e);
    assert s.flight.nextEvent !in Owners(front);
    hide Next, Verifies;
    if e in s.flight.sent && s.flight.sent[e] {
      i := SentWasVerified(front, e);
      assert front[..i] == actions[..i] && front[i] == actions[i];
    } else {
      i := n - 1;
    }
  }

  /**
   * So in every run a call of get that had to wait returns normally only after the download of its md5
   * was verified in that run, and with the file indexed and on disk.
   */
  lemma ReturnsVerified(actions: seq<Action>, s: State, g: nat, md5: nat, event: nat)
    requires Exec(INIT, actions) == Some(s) && g in s.getters && s.getters[g] == Waiting(md5, event)
    requires Next(s, Return(g)).Moved?
    ensures exists i :: VerifiedAt(actions, i, event, md5)
    ensures md5 in s.files.localmd5 && s.files.localmd5[md5].path in s.files.disk
  {
    ReturnMeaning(s, g, md5, event);
    OwnersAlwaysAgree(actions);
    assert PhaseAgrees(Owners(actions), s.getters[g]);
    var i := SentWasVerified(actions, event);
  }

  // ---- a lookup that raises ----

  /** The entry of an md5 has an event that was not sent, and that no worker and no lookup is about. */
  ghost predicate OrphanEntry(f: Flight, md5: nat, event: nat) {
    && md5 in f.downloading && f.downloading[md5] == event
    && event < f.nextEvent && event !in f.sent
  }

  ghost predicate OrphanOfWorkers(workers: map<nat, Worker>, md5: nat, event: nat) {
    event !in workers && forall e :: e in workers ==> workers[e].md5 != md5
  }

  ghost predicate OrphanOfGetters(getters: map<nat, Phase>, md5: nat, event: nat) {
    forall g :: g in getters && getters[g].Looking? ==> getters[g].md5 != md5 && getters[g].event != event
  }

  ghost predicate Orphan(s: State, md5: nat, event: nat) {
    OrphanEntry(s.flight, md5, event) && OrphanOfWorkers(s.workers, md5, event) && OrphanOfGetters(s.getters, md5, event)
  }

  /** A lookup that raises, or an unknown downloader, leaves an entry behind. */
  lemma RaisedLeavesOrphan(s: State, a: Action)
    requires Inv(s) && !Known(a) && !Next(s, a).Disabled?
    ensures var md5 := if a.LookRaises? then s.getters[a.getter].md5 else s.workers[a.event].md5;
            md5 in s.flight.downloading && Orphan(Next(s, a).state, md5, s.flight.downloading[md5])
  {
    if a.LookRaises? {
      assert s.getters[a.getter].Looking?;
    }
  }

  lemma OrphanEntryStays(s: State, a: Action, md5: nat, event: nat)
    requires Orphan(s, md5, event) && !Next(s, a).Disabled?
    ensures OrphanEntry(Next(s, a).state.flight, md5, event)
  {
    StepCloses(s, a);
    assert Closes(s, a).Some? ==> Closes(s, a).value.md5 != md5 && Closes(s, a).value.event != event;
    assert Opens(s, a).Some? ==> Opens(s, a).value !in s.flight.downloading;
    hide Next, Closes, Opens, OrphanOfWorkers, OrphanOfGetters;
  }

  lemma OrphanOfWorkersStays(s: State, a: Action, md5: nat, event: nat)
    requires Orphan(s, md5, event) && !Next(s, a).Disabled?
    ensures OrphanOfWorkers(Next(s, a).state.workers, md5, event)
  {
    hide Scanned, Bijection, Succeeds, FinishFiles, Find, OrphanEntry, WorkerPath;
  }

  lemma OrphanOfGettersStays(s: State, a: Action, md5: nat, event: nat)
    requires Orphan(s, md5, event) && !Next(s, a).Disabled?
    ensures OrphanOfGetters(Next(s, a).state.getters, md5, event)
  {
    hide Scanned, Bijection, Succeeds, FinishFiles, Find, OrphanOfWorkers, WorkerPath;
  }

  /** No step removes such an entry or sends its event, and a call of get that waits for it goes on waiting. */
  lemma OrphanStays(s: State, a: Action, md5: nat, event: nat, g: nat)
    requires Orphan(s, md5, event) && !Next(s, a).Disabled?
    ensures Orphan(Next(s, a).state, md5, event)
    ensures g in s.getters && s.getters[g] == Waiting(md5, event) ==>
              g in Next(s, a).state.getters && Next(s, a).state.getters[g] == Waiting(md5, event)
  {
    OrphanEntryStays(s, a, md5, event);
    OrphanOfWorkersStays(s, a, md5, event);
    OrphanOfGettersStays(s, a, md5, event);
    hide Scanned, Bijection, Succeeds, FinishFiles, Find, OrphanOfWorkers, OrphanOfGetters, WorkerPath;
  }

  /**
   * While there is one, no scan runs: it raises, or waits for the lock; and a call that
   * waits for the event does not return.
   */
  ghost predicate Blocked(s: State, md5: nat, event: nat) {
    && md5 in s.flight.downloading && s.flight.downloading[md5] == event
    && (forall result :: !Next(s, Scan(result)).Moved? && (s.lock.None? ==> Next(s, Scan(result)) == Raised(s)))
    && (forall g :: g in s.getters && s.getters[g] == Waiting(md5, event) ==> Next(s, Return(g)).Disabled?)
  }

  lemma OrphanBlocks(s: State, md5: nat, event: nat)
    requires Orphan(s, md5, event)
    ensures Blocked(s, md5, event)
  {
    hide Scanned;
  }

  /** A call for the md5 that gets the lock waits for that event. */
  lemma OrphanCatches(s: State, g: nat, md5: nat, event: nat)
    requires Orphan(s, md5, event) && g in s.getters && s.getters[g] == Wanting(ByMd5(md5)) && s.lock.None?
    ensures Next(s, Enter(g)).Moved? && Next(s, Enter(g)).state == SetGetter(s, g, Waiting(md5, event))
  {
  }

  /** The entry stays for ever: after any run scans are blocked, and every call that waited for its event still does. */
  lemma {:induction false} OrphanForever(s: State, actions: seq<Action>, md5: nat, event: nat, g: nat)
    requires Orphan(s, md5, event) && Exec(s, actions).Some?
    ensures Orphan(Exec(s, actions).value, md5, event) && Blocked(Exec(s, actions).value, md5, event)
    ensures g in s.getters && s.getters[g] == Waiting(md5, event) ==>
              var s' := Exec(s, actions).value; g in s'.getters && s'.getters[g] == Waiting(md5, event)
    decreases |actions|
  {
    if actions == [] {
      OrphanBlocks(s, md5, event);
    } else {
      OrphanStays(s, actions[0], md5, event, g);
      hide Next, Orphan, Blocked;
      OrphanForever(Next(s, actions[0]).state, actions[1..], md5, event, g);
    }
  }

  /** A call for the md5 that comes later, and gets the lock, waits for that event for ever, too. */
  lemma NewCallersHang(s: State, before: seq<Action>, s1: State, md5: nat, event: nat, g: nat, after: seq<Action>)
    requires Orphan(s, md5, event) && Exec(s, before) == Some(s1)
    requires g in s1.getters && s1.getters[g] == Wanting(ByMd5(md5)) && s1.lock.None?
    requires Exec(s1, [Enter(g)] + after).Some?
    ensures var s' := Exec(s1, [Enter(g)] + after).value;
            && g in s'.getters && s'.getters[g] == Waiting(md5, event)
            && Next(s', Return(g)).Disabled?
  {
    OrphanForever(s, before, md5, event, g);
    OrphanCatches(s1, g, md5, event);
    OrphanStays(s1, Enter(g), md5, event, g);
    hide Next, Orphan;
    assert ([Enter(g)] + after)[1..] == after;
    OrphanForever(Next(s1, Enter(g)).state, after, md5, event, g);
  }

  // ---- the two indexes ----

  /** Indexing a file that was downloaded keeps the indexes consistent exactly if its path is not indexed yet. */
  lemma IndexingKeeps(localpath: map<Name, LocalFile>, localmd5: map<nat, LocalFile>, file: LocalFile)
    requires Bijection(localpath, localmd5) && file.md5 !in localmd5
    ensures Bijection(localpath[file.path := file], localmd5[file.md5 := file]) <==> file.path !in localpath
  {
    if file.path in localpath {
      var k := localpath[file.path].md5;
      assert localmd5[file.md5 := file][k].path == file.path;
    }
  }

  /** Deleting a file found before keeps them consistent exactly if it is still indexed as it was, or not at all. */
  lemma DeletingKeeps(localpath: map<Name, LocalFile>, localmd5: map<nat, LocalFile>, file: LocalFile)
    requires Bijection(localpath, localmd5)
    ensures Bijection(localpath - {file.path}, localmd5 - {file.md5}) <==>
              && (file.path in localpath ==> localpath[file.path].md5 == file.md5)
              && (file.md5 in localmd5 ==> localmd5[file.md5].path == file.path)
  {
    if file.path in localpath && localpath[file.path].md5 != file.md5 {
      var k := localpath[file.path].md5;
      assert k in localmd5 - {file.md5} && (localmd5 - {file.md5})[k].path == file.path;
    }
    if file.md5 in localmd5 && localmd5[file.md5].path != file.path {
      var p := localmd5[file.md5].path;
      assert p in localpath - {file.path} && (localpath - {file.path})[p].md5 == file.md5;
    }
  }

  /** A verified file is indexed under a path that another md5 has already. */
  ghost predicate Clashes(s: State, a: Action) {
    && a.Finish? && a.event in s.workers && s.workers[a.event].stage.Fetched?
    && var w := s.workers[a.event];
       && w.stage.digest == w.md5 && w.stage.size == w.info.size
       && w.md5 !in s.files.localmd5 && w.md5 !in s.files.rows && WorkerPath(w) in s.files.localpath
  }

  /** A file is deleted that by now is indexed otherwise than it was found. */
  ghost predicate DeletesOther(s: State, a: Action) {
    && a.DeleteLocked? && a.deleter in s.deleters
    && var file := s.deleters[a.deleter];
       || (file.path in s.files.localpath && s.files.localpath[file.path].md5 != file.md5)
       || (file.md5 in s.files.localmd5 && s.files.localmd5[file.md5].path != file.path)
  }

  ghost predicate Consistent(s: State) {
    Bijection(s.files.localpath, s.files.localmd5)
  }

  /** Exactly these two steps make the indexes inconsistent. */
  lemma BreakingSteps(s: State, a: Action)
    requires Consistent(s) && !Next(s, a).Disabled?
    ensures Consistent(Next(s, a).state) <==> !Clashes(s, a) && !DeletesOther(s, a)
  {
    if a.Finish? {
      FinishBreaks(s, a.event);
    } else if a.DeleteLocked? {
      var file := s.deleters[a.deleter];
      DeletingKeeps(s.files.localpath, s.files.localmd5, file);
    } else if a.Scan? && s.flight.downloading == map[] {
      ScannedBijection(s, a.result);
    }
    hide Find, FinishFiles, Succeeds, Bijection, Scanned, Close, SetStage, WorkerPath;
  }

  lemma FinishBreaks(s: State, e: nat)
    requires Consistent(s) && e in s.workers && s.workers[e].stage.Fetched?
    ensures Consistent(FinishFiles(s, s.workers[e])) <==> !Clashes(s, Finish(e))
  {
    var w := s.workers[e];
    if w.md5 !in s.files.localmd5 {
      IndexingKeeps(s.files.localpath, s.files.localmd5, LocalFile(WorkerPath(w), w.md5, w.stage.size));
    }
    hide Bijection;
  }

  /** The indexes are consistent after every step of the run. */
  ghost predicate StaysConsistent(s: State, actions: seq<Action>)
    decreases |actions|
  {
    Consistent(s) &&
    (actions != [] && !Next(s, actions[0]).Disabled? ==> StaysConsistent(Next(s, actions[0]).state, actions[1..]))
  }

  ghost predicate NothingBreaks(s: State, actions: seq<Action>)
    decreases |actions|
  {
    actions != [] && !Next(s, actions[0]).Disabled? ==>
      !Clashes(s, actions[0]) && !DeletesOther(s, actions[0]) && NothingBreaks(Next(s, actions[0]).state, actions[1..])
  }

  /** So a run keeps them consistent throughout if and only if none of its steps is one of the two. */
  lemma {:induction false} ConsistentRuns(s: State, actions: seq<Action>)
    requires Consistent(s)
    ensures StaysConsistent(s, actions) <==> NothingBreaks(s, actions)
    decreases |actions|
  {
    if actions != [] && !Next(s, actions[0]).Disabled? {
      BreakingSteps(s, actions[0]);
      hide Next, Consistent, Clashes, DeletesOther;
      var s' := Next(s, actions[0]).state;
      if Consistent(s') {
        ConsistentRuns(s', actions[1..]);
      } else {
        InconsistentRun(s', actions[1..]);
      }
    }
  }

  lemma InconsistentRun(s: State, actions: seq<Action>)
    requires !Consistent(s)
    ensures !StaysConsistent(s, actions)
  {
  }

  /** Every file of an md5 has the name made of the md5 and one extension. */
  ghost predicate IsNamed(exts: nat -> string, file: LocalFile) {
    file.path == PathOf(file.md5, exts(file.md5))
  }

  ghost predicate Named(exts: nat -> string, localpath: map<Name, LocalFile>) {
    forall p :: p in localpath ==> IsNamed(exts, localpath[p])
  }

  /** The info lookup gives an md5 that extension, and the files that a scan finds are named so. */
  ghost predicate NamesFiles(exts: nat -> string, a: Action) {
    && (a.Look? ==> a.info.ext == exts(a.info.md5))
    && (a.Scan? || a.ScanFails? ==> Named(exts, a.result.localpath))
  }

  ghost predicate IndexesNamed(exts: nat -> string, f: Files) {
    Bijection(f.localpath, f.localmd5) && Named(exts, f.localpath)
  }

  ghost predicate DeletersNamed(exts: nat -> string, deleters: map<nat, LocalFile>) {
    forall d :: d in deleters ==> IsNamed(exts, deleters[d])
  }

  ghost predicate WorkersNamed(exts: nat -> string, workers: map<nat, Worker>) {
    forall e :: e in workers ==>
      workers[e].info.ext == exts(workers[e].info.md5) && workers[e].info.md5 == workers[e].md5
  }

  ghost predicate FilesInv(exts: nat -> string, s: State) {
    IndexesNamed(exts, s.files) && DeletersNamed(exts, s.deleters) && WorkersNamed(exts, s.workers)
  }

  lemma FindNamed(exts: nat -> string, s: State, target: Target)
    requires IndexesNamed(exts, s.files) && Find(s, target).Some?
    ensures IsNamed(exts, Find(s, target).value)
  {
  }

  lemma FinishNamed(exts: nat -> string, s: State, w: Worker)
    requires IndexesNamed(exts, s.files) && w.stage.Fetched?
    requires w.info.ext == exts(w.info.md5) && w.info.md5 == w.md5
    ensures IndexesNamed(exts, FinishFiles(s, w).files)
  {
    if w.md5 !in s.files.localmd5 {
      var file := LocalFile(WorkerPath(w), w.md5, w.stage.size);
      assert file.path in s.files.localpath ==> IsNamed(exts, s.files.localpath[file.path]);
      IndexingKeeps(s.files.localpath, s.files.localmd5, file);
    }
    hide Bijection;
  }

  lemma DeleteNamed(exts: nat -> string, s: State, file: LocalFile)
    requires IndexesNamed(exts, s.files) && IsNamed(exts, file)
    ensures Bijection(s.files.localpath - {file.path}, s.files.localmd5 - {file.md5})
    ensures Named(exts, s.files.localpath - {file.path})
  {
    DeletingKeeps(s.files.localpath, s.files.localmd5, file);
  }

  lemma IndexesStep(exts: nat -> string, s: State, a: Action)
    requires FilesInv(exts, s) && NamesFiles(exts, a) && !Next(s, a).Disabled?
    ensures IndexesNamed(exts, Next(s, a).state.files)
  {
    if a.Finish? {
      FinishNamed(exts, s, s.workers[a.event]);
    } else if a.DeleteLocked? {
      DeleteNamed(exts, s, s.deleters[a.deleter]);
    } else if a.Scan? && s.flight.downloading == map[] {
      ScannedBijection(s, a.result);
    }
    hide Find, FinishFiles, Succeeds, Bijection, Named, Scanned, Close, DeletersNamed, WorkersNamed, SetStage, WorkerPath;
  }

  lemma DeletersStep(exts: nat -> string, s: State, a: Action)
    requires FilesInv(exts, s) && !Next(s, a).Disabled?
    ensures DeletersNamed(exts, Next(s, a).state.deleters)
  {
    if (a.Delete? || a.Get?) && Find(s, a.target).Some? {
      FindNamed(exts, s, a.target);
    }
    hide Find, FinishFiles, Succeeds, Scanned, IndexesNamed, IsNamed, WorkersNamed, WorkerPath;
  }

  lemma WorkersStep(exts: nat -> string, s: State, a: Action)
    requires FilesInv(exts, s) && NamesFiles(exts, a) && !Next(s, a).Disabled?
    ensures WorkersNamed(exts, Next(s, a).state.workers)
  {
    hide Find, FinishFiles, Succeeds, Scanned, IndexesNamed, DeletersNamed, WorkerPath;
  }

  /** If the files of every md5 have one name, made of it, every step keeps the two indexes consistent. */
  lemma IndexesKept(exts: nat -> string, s: State, a: Action)
    requires FilesInv(exts, s) && NamesFiles(exts, a) && !Next(s, a).Disabled?
    ensures FilesInv(exts, Next(s, a).state)
  {
    IndexesStep(exts, s, a);
    DeletersStep(exts, s, a);
    WorkersStep(exts, s, a);
  }

  lemma ScannedBijection(s: State, result: Files)
    requires Scanned(s.files.disk, s.files.rows, result.disk, result.rows, result.localpath, result.localmd5)
    ensures Bijection(result.localpath, result.localmd5)
  {
  }

  lemma {:induction false} IndexesConsistent(exts: nat -> string, s: State, actions: seq<Action>)
    requires FilesInv(exts, s) && (forall i :: 0 <= i < |actions| ==> NamesFiles(exts, actions[i]))
    requires Exec(s, actions).Some?
    ensures Bijection(Exec(s, actions).value.files.localpath, Exec(s, actions).value.files.localmd5)
    decreases |actions|
  {
    if actions != [] {
      IndexesKept(exts, s, actions[0]);
      hide FilesInv, Next;
      IndexesConsistent(exts, Next(s, actions[0]).state, actions[1..]);
    }
  }

  /** So the indexes are consistent after every run that starts with nothing. */
  lemma AlwaysConsistent(exts: nat -> string, actions: seq<Action>)
    requires (forall i :: 0 <= i < |actions| ==> NamesFiles(exts, actions[i])) && Exec(INIT, actions).Some?
    ensures Consistent(Exec(INIT, actions).value)
  {
    assert FilesInv(exts, INIT);
    IndexesConsistent(exts, INIT, actions);
  }

  /** A file named after md5 m holds something else, is scanned, and is lost; then m is downloaded. */
  function MisnamedFile(m: nat, k: nat, ext: string, size: nat): seq<Action> {
    var path := PathOf(m, ext);
    var file := LocalFile(path, k, size);
    [Change(path, Some(Content(size, k))),
     Scan(Files(map[path := Content(size, k)], map[k := Row(size, ext)], map[path := file], map[k := file])),
     Change(path, None), Get(0, ByMd5(m), true), Enter(0), Look(0, Info(m, ext, size)),
     Begin(0), Load(0, Content(size, m)), Finish(0)]
  }

  lemma ExecStep(s: State, s': State, actions: seq<Action>)
    requires actions != [] && Next(s, actions[0]).Moved? && Next(s, actions[0]).state == s'
    ensures Exec(s, actions) == Exec(s', actions[1..])
  {
  }

  lemma MisnamedScan(disk: Disk, m: nat, k: nat, ext: string, size: nat)
    requires disk == map[PathOf(m, ext) := Content(size, k)]
    ensures var file := LocalFile(PathOf(m, ext), k, size);
            Scanned(disk, map[], disk, map[k := Row(size, ext)], map[file.path := file], map[k := file])
  {
    assert Good(disk, map[], PathOf(m, ext)) && KeyOf(disk, map[], PathOf(m, ext)) == k;
  }

  /** The file is scanned, and lost. */
  lemma MisnamedScanned(m: nat, k: nat, ext: string, size: nat) returns (s: State)
    requires m != k
    ensures Exec(INIT, MisnamedFile(m, k, ext, size)) == Exec(s, MisnamedFile(m, k, ext, size)[3..])
    ensures var file := LocalFile(PathOf(m, ext), k, size);
            s == INIT.(files := Files(map[], map[k := Row(size, ext)], map[file.path := file], map[k := file]))
  {
    hide Scanned;
    var run := MisnamedFile(m, k, ext, size);
    var s1 := Next(INIT, run[0]).state;
    assert s1.files.disk == map[PathOf(m, ext) := Content(size, k)];
    MisnamedScan(s1.files.disk, m, k, ext, size);
    var s2 := Next(s1, run[1]).state;
    s := Next(s2, run[2]).state;
    assert s.files.disk == map[];
    hide Exec, Next;
    ExecStep(INIT, s1, run);
    ExecStep(s1, s2, run[1..]);
    ExecStep(s2, s, run[2..]);
    assert run[1..][1..] == run[2..] && run[2..][1..] == run[3..];
  }

  /** An md5 is not indexed, and a call downloads it. */
  lemma DownloadMissing(s: State, info: Info) returns (s1: State, s2: State, s': State)
    requires s == INIT.(files := s.files, deleters := s.deleters) && info.md5 !in s.files.localmd5
    ensures Next(s, Get(0, ByMd5(info.md5), true)).Moved? && Next(s, Get(0, ByMd5(info.md5), true)).state == s1
    ensures Next(s1, Enter(0)).Moved? && Next(s1, Enter(0)).state == s2
    ensures Next(s2, Look(0, info)).Moved? && Next(s2, Look(0, info)).state == s'
    ensures s'.files == s.files && s'.workers == map[0 := Worker(info.md5, info, Begun)]
    ensures s'.deleters == s.deleters && s'.lock.None?
  {
    s1 := Next(s, Get(0, ByMd5(info.md5), true)).state;
    assert s1.getters[0] == Wanting(ByMd5(info.md5));
    s2 := Next(s1, Enter(0)).state;
    assert s2.getters[0] == Looking(info.md5, 0);
    s' := Next(s2, Look(0, info)).state;
  }

  /** Its worker runs to the end. */
  lemma WorkMissing(s: State, info: Info) returns (s1: State, s2: State, s': State)
    requires s.workers == map[0 := Worker(info.md5, info, Begun)] && s.files.disk == map[]
    requires info.md5 !in s.files.localmd5 && info.md5 !in s.files.rows
    ensures Next(s, Begin(0)).Moved? && Next(s, Begin(0)).state == s1
    ensures Next(s1, Load(0, Content(info.size, info.md5))).Moved?
    ensures Next(s1, Load(0, Content(info.size, info.md5))).state == s2
    ensures Next(s2, Finish(0)).Moved? && Next(s2, Finish(0)).state == s'
    ensures var file := LocalFile(PathOf(info.md5, info.ext), info.md5, info.size);
            && s'.files.localmd5 == s.files.localmd5[info.md5 := file]
            && s'.files.localpath == s.files.localpath[file.path := file]
    ensures s'.deleters == s.deleters && s'.lock == s.lock
  {
    s1 := Next(s, Begin(0)).state;
    assert s1.workers[0] == Worker(info.md5, info, Loading) && s1.files == s.files;
    s2 := Next(s1, Load(0, Content(info.size, info.md5))).state;
    assert s2.workers[0] == Worker(info.md5, info, Fetched(info.md5, info.size));
    assert s2.files.(disk := map[]) == s.files;
    s' := Next(s2, Finish(0)).state;
  }

  /** Then the two indexes do not agree any more: both files have the same path. */
  lemma MisnamedBreaks(m: nat, k: nat, ext: string, size: nat)
    requires m != k
    ensures var run := MisnamedFile(m, k, ext, size);
            Exec(INIT, run).Some? &&
            var f := Exec(INIT, run).value.files;
            && m in f.localmd5 && k in f.localmd5 && f.localmd5[m].path == f.localmd5[k].path
            && !Bijection(f.localpath, f.localmd5)
  {
    hide Exec, Next;
    var run, info := MisnamedFile(m, k, ext, size), Info(m, ext, size);
    var s3 := MisnamedScanned(m, k, ext, size);
    var s4, s5, s6 := DownloadMissing(s3, info);
    var s7, s8, s9 := WorkMissing(s6, info);
    ExecStep(s3, s4, run[3..]);
    ExecStep(s4, s5, run[4..]);
    ExecStep(s5, s6, run[5..]);
    ExecStep(s6, s7, run[6..]);
    ExecStep(s7, s8, run[7..]);
    ExecStep(s8, s9, run[8..]);
    assert run[3..][1..] == run[4..] && run[4..][1..] == run[5..] && run[5..][1..] == run[6..];
    assert run[6..][1..] == run[7..] && run[7..][1..] == run[8..] && run[8..][1..] == [];
    ExecNothing(s9);
    SamePath(s9.files, m, k);
  }

  lemma SamePath(f: Files, m: nat, k: nat)
    requires m != k && m in f.localmd5 && k in f.localmd5 && f.localmd5[m].path == f.localmd5[k].path
    ensures !Bijection(f.localpath, f.localmd5)
  {
  }

  lemma ExecNothing(s: State)
    ensures Exec(s, []) == Some(s)
  {
  }

  /**
   * A file named after md5 m holds k and is scanned; two calls find it, in order to delete it, and one of them does
   * so; then k is downloaded under its proper name, and the other call deletes what it has found.
   */
  function DeletedTwice(m: nat, k: nat, ext: string, size: nat): seq<Action> {
    var path := PathOf(m, ext);
    var file := LocalFile(path, k, size);
    [Change(path, Some(Content(size, k))),
     Scan(Files(map[path := Content(size, k)], map[k := Row(size, ext)], map[path := file], map[k := file])),
     Delete(0, ByMd5(k)), Delete(1, ByMd5(k)), DeleteLocked(0),
     Get(0, ByMd5(k), true), Enter(0), Look(0, Info(k, ext, size)),
     Begin(0), Load(0, Content(size, k)), Finish(0), DeleteLocked(1)]
  }

  lemma TwoFind(s: State, file: LocalFile) returns (s1: State, s2: State, s': State)
    requires s == INIT.(files := s.files) && s.files.disk.Keys == {file.path} && s.files.rows.Keys == {file.md5}
    requires s.files.localpath == map[file.path := file] && s.files.localmd5 == map[file.md5 := file]
    ensures Next(s, Delete(0, ByMd5(file.md5))).Moved? && Next(s, Delete(0, ByMd5(file.md5))).state == s1
    ensures Next(s1, Delete(1, ByMd5(file.md5))).Moved? && Next(s1, Delete(1, ByMd5(file.md5))).state == s2
    ensures Next(s2, DeleteLocked(0)).Moved? && Next(s2, DeleteLocked(0)).state == s'
    ensures s' == INIT.(files := Files(map[], map[], map[], map[]), deleters := map[1 := file])
  {
    s1 := Next(s, Delete(0, ByMd5(file.md5))).state;
    s2 := Next(s1, Delete(1, ByMd5(file.md5))).state;
    assert s2.deleters == map[0 := file, 1 := file];
    s' := Next(s2, DeleteLocked(0)).state;
    assert s'.deleters == map[1 := file] && s'.files == Files(map[], map[], map[], map[]);
  }

  /** Both calls have found the file, and one has deleted it. */
  lemma FoundTwice(m: nat, k: nat, ext: string, size: nat) returns (s: State)
    requires m != k
    ensures Exec(INIT, DeletedTwice(m, k, ext, size)) == Exec(s, DeletedTwice(m, k, ext, size)[5..])
    ensures s == INIT.(files := Files(map[], map[], map[], map[]),
                       deleters := map[1 := LocalFile(PathOf(m, ext), k, size)])
  {
    hide Scanned;
    var run, file := DeletedTwice(m, k, ext, size), LocalFile(PathOf(m, ext), k, size);
    var s1 := Next(INIT, run[0]).state;
    assert s1.files.disk == map[file.path := Content(size, k)];
    MisnamedScan(s1.files.disk, m, k, ext, size);
    var s2 := Next(s1, run[1]).state;
    hide Exec, Next;
    var s3, s4;
    s3, s4, s := TwoFind(s2, file);
    ExecStep(INIT, s1, run);
    ExecStep(s1, s2, run[1..]);
    ExecStep(s2, s3, run[2..]);
    ExecStep(s3, s4, run[3..]);
    ExecStep(s4, s, run[4..]);
    assert run[1..][1..] == run[2..] && run[2..][1..] == run[3..];
    assert run[3..][1..] == run[4..] && run[4..][1..] == run[5..];
  }

  /** The last step leaves a path in one index that the other one does not know. */
  lemma DeletesNewer(s: State, found: LocalFile, newer: LocalFile) returns (s': State)
    requires s.deleters == map[1 := found] && s.lock.None? && found.md5 == newer.md5 && found.path != newer.path
    requires s.files.localpath == map[newer.path := newer] && s.files.localmd5 == map[newer.md5 := newer]
    ensures Next(s, DeleteLocked(1)).Moved? && Next(s, DeleteLocked(1)).state == s'
    ensures newer.path in s'.files.localpath && s'.files.localmd5 == map[]
    ensures Consistent(s) && DeletesOther(s, DeleteLocked(1)) && !Consistent(s')
  {
    s' := Next(s, DeleteLocked(1)).state;
  }

  /** So the other breaking step happens, too: a deletion drops the md5 of a newer file, and leaves its path. */
  lemma StaleDeleteBreaks(m: nat, k: nat, ext: string, size: nat)
    requires m != k
    ensures var run := DeletedTwice(m, k, ext, size);
            Exec(INIT, run).Some? &&
            var f := Exec(INIT, run).value.files;
            && PathOf(k, ext) in f.localpath && f.localmd5 == map[] && !Bijection(f.localpath, f.localmd5)
  {
    hide Exec, Next, Bijection;
    var run, info := DeletedTwice(m, k, ext, size), Info(k, ext, size);
    var s5 := FoundTwice(m, k, ext, size);
    var s6, s7, s8 := DownloadMissing(s5, info);
    var s9, s10, s11 := WorkMissing(s8, info);
    assert PathOf(m, ext) != PathOf(k, ext);
    var s12 := DeletesNewer(s11, LocalFile(PathOf(m, ext), k, size), LocalFile(PathOf(k, ext), k, size));
    ExecStep(s5, s6, run[5..]);
    ExecStep(s6, s7, run[6..]);
    ExecStep(s7, s8, run[7..]);
    ExecStep(s8, s9, run[8..]);
    ExecStep(s9, s10, run[9..]);
    ExecStep(s10, s11, run[10..]);
    ExecStep(s11, s12, run[11..]);
    assert run[5..][1..] == run[6..] && run[6..][1..] == run[7..] && run[7..][1..] == run[8..];
    assert run[8..][1..] == run[9..] && run[9..][1..] == run[10..];
    assert run[10..][1..] == run[11..] && run[11..][1..] == [];
    ExecNothing(s12);
  }
}
