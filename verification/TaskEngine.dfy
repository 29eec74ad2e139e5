/** The cache-task engine of internal/transfer/tasks/engine.go as a step machine over one store: any number
  * of Resolve calls, process drivers and mirror inserts, interleaved at the granularity of single store
  * operations. Fetches and uploads succeed or fail as the schedule says; saving the store succeeds. */
module TaskEngine {
  import opened Wrappers
  import opened TaskState
  import opened TaskStore

  /** Where a cache key lives in the object store (StorageKeyFor). */
  function StorageKeyFor(family: string, cacheKey: string): string {
    if |cacheKey| < 4 then "cache/" + family + "/" + cacheKey + ".bin"
    else "cache/" + family + "/" + cacheKey[..2] + "/" + cacheKey[2..4] + "/" + cacheKey + ".bin"
  }

  /** What process does next. */
  datatype Pc =
    | AtGuard | AtGet | AtTop | AtFetch | AtDownloaded | AtUploading | AtUpload | AtRegistering | AtReady
    | AtFailed | AtDead | AtSleep | AtCleanup | Done

  /** One process call. local is its copy of the task; base, fetches, failures and engaged are history:
    * the retry count it started from, what it did since, and whether it ever began a fetch round. */
  datatype Driver = Driver(id: string, pc: Pc, local: Task, base: int, fetches: nat, failures: nat, engaged: bool)

  /** What a Resolve returns: a presigned key of the object store, or the task that is being worked on. */
  datatype Reply = Cached(task: Task, presigned: string) | Working(task: Task) | Rejected

  /** The body of one Resolve call. */
  datatype Resolver =
    | Reading(key: string, family: string, url: string)
    | Rearming(id: string, key: string, family: string, url: string)
    | Creating(key: string, family: string, url: string)
    | Resolved(reply: Reply)

  /** A mirror request (mirrorcore.PresignOrFetchMulti, registrymirror.fetchOrPresignBlob). */
  datatype Mirror =
    | Probing(key: string, family: string)
    | Registering(key: string, family: string)
    | Served(presigned: Option<string>)

  /** late records that a Resolve re-armed a failed task whose retries were already used up. */
  datatype Sys = Sys(st: State, clock: int, objects: set<string>, processing: set<string>, drivers: seq<Driver>,
                     resolvers: seq<Resolver>, mirrors: seq<Mirror>, maxRetries: int, late: bool)

  datatype Step =
    | ResolveStart(key: string, family: string, url: string)
    | ResolveRead(r: nat)
    | ResolveRearm(r: nat)
    | ResolveCreate(r: nat, id: string)
    | Drive(d: nat, ok: bool)
    | MirrorStart(key: string, family: string)
    | MirrorStore(m: nat, ok: bool)
    | MirrorPut(m: nat, id: string)
    | Collect(id: string)

  const NO_TASK: Task := Task("", "", "", "", "", Queued, "", 0, 0, None, "", 0, 0)

  function NewTask(id: string, url: string, key: string, family: string, maxRetries: int, now: int): Task {
    Task(id, url, url, key, family, Queued, "", 0, maxRetries, None, "", now, now)
  }

  function ReadyTask(id: string, key: string, family: string, now: int): Task {
    NewTask(id, "", key, family, 0, now).(status := Ready, artifact := Some(Artifact(0, "", "", StorageKeyFor(family, key))))
  }

  function ToDownloading(t: Task): Task { t.(status := Downloading, error := "") }
  function ToStatus(s: Status): Task -> Task { (t: Task) => t.(status := s) }
  function ToFailed(retries: int): Task -> Task { (t: Task) => t.(status := Failed, error := "failed", retries := retries) }
  function ToReady(key: string): Task -> Task {
    (t: Task) => t.(status := Ready, artifact := Some(Artifact(0, "", "", key)))
  }

  /** The key that readyResult presigns for a ready task. */
  function PresignedKey(t: Task): string {
    StorageKeyFor(t.family, t.cacheKey)
  }

  // ----- the driver -----

  /** The write a driver is about to make, if its next action is one. */
  function NextWrite(d: Driver): Option<Task -> Task> {
    match d.pc
    case AtTop => if d.local.status.Queued? || d.local.status.Failed? then Some(ToDownloading) else None
    case AtDownloaded => Some(ToStatus(Downloaded))
    case AtUploading => Some(ToStatus(Uploading))
    case AtRegistering => Some(ToStatus(Status.Registering))
    case AtReady => Some(ToReady(StorageKeyFor(d.local.family, d.local.cacheKey)))
    case AtFailed => Some(ToFailed(d.local.retries + 1))
    case AtDead => Some(ToStatus(Dead))
    case _ => None
  }

  /** The driver after its write went through and returned t. */
  function AfterWrite(d: Driver, t: Task): Driver {
    match d.pc
    case AtTop => d.(pc := AtFetch, local := t, engaged := true)
    case AtDownloaded => d.(pc := AtUploading, local := t)
    case AtUploading => d.(pc := AtUpload, local := t)
    case AtRegistering => d.(pc := AtReady, local := t)
    case AtReady => d.(pc := AtCleanup, local := t)
    case AtFailed =>
      d.(pc := if d.local.retries + 1 > d.local.maxRetries then AtDead else AtSleep, local := t, failures := d.failures + 1)
    case _ => d.(pc := AtCleanup, local := t)
  }

  /** The driver after an action that writes no task; ok is the outcome of a fetch or an upload. */
  function AfterQuiet(s: Sys, d: Driver, ok: bool): Driver {
    match d.pc
    case AtGuard => d.(pc := if d.id in s.processing then Done else AtGet)
    case AtGet =>
      if d.id in s.st.byID then d.(pc := AtTop, local := s.st.byID[d.id], base := s.st.byID[d.id].retries)
      else d.(pc := AtCleanup)
    case AtTop => if d.local.status.Downloading? then d.(pc := AtFetch, engaged := true) else d.(pc := AtCleanup)
    case AtFetch => d.(pc := if ok then AtDownloaded else AtFailed, fetches := d.fetches + 1)
    case AtUpload => d.(pc := if ok then AtRegistering else AtFailed)
    case AtSleep => d.(pc := AtTop)
    case _ => d.(pc := Done)
  }

  function DriveResult(s: Sys, i: nat, ok: bool): Sys
    requires i < |s.drivers|
  {
    var d := s.drivers[i];
    if NextWrite(d).Some? then
      var u := UpdateResult(s.st, d.id, NextWrite(d).value, s.clock);
      if u.Ok? then s.(st := u.value.0, clock := s.clock + 1, drivers := s.drivers[i := AfterWrite(d, u.value.1)])
      else s.(drivers := s.drivers[i := d.(pc := AtCleanup)])
    else
      s.(drivers := s.drivers[i := AfterQuiet(s, d, ok)],
         processing := if d.pc.AtGuard? then s.processing + {d.id}
                       else if d.pc.AtCleanup? then s.processing - {d.id} else s.processing,
         objects := if d.pc.AtUpload? && ok then s.objects + {StorageKeyFor(d.local.family, d.local.cacheKey)} else s.objects)
  }

  function Spawned(id: string): Driver {
    Driver(id, AtGuard, NO_TASK, 0, 0, 0, false)
  }

  // ----- resolve, mirrors, collection -----

  /** Resolve after reading the store: answered, about to re-arm a failed task, or about to create one. */
  function ReadOutcome(s: Sys, x: Resolver): Resolver
    requires x.Reading?
  {
    var create := Creating(x.key, x.family, x.url);
    if x.key !in s.st.byKey then create
    else
      var t := s.st.byKey[x.key];
      match t.status
      case Failed => if t.retries < t.maxRetries then Rearming(t.id, x.key, x.family, x.url) else create
      case Dead => create
      case Ready => Resolved(Cached(t, PresignedKey(t)))
      case _ => Resolved(Working(t))
  }

  function RearmResult(s: Sys, r: nat): Sys
    requires r < |s.resolvers| && s.resolvers[r].Rearming?
  {
    var x := s.resolvers[r];
    var u := UpdateResult(s.st, x.id, ToDownloading, s.clock);
    if u.Ok? then
      s.(st := u.value.0, clock := s.clock + 1, drivers := s.drivers + [Spawned(x.id)],
         resolvers := s.resolvers[r := Resolved(Working(u.value.1))],
         late := s.late || (s.st.byID[x.id].status.Failed? && s.st.byID[x.id].retries > s.st.byID[x.id].maxRetries))
    else s.(resolvers := s.resolvers[r := Creating(x.key, x.family, x.url)])
  }

  function CreateResult(s: Sys, r: nat, id: string): Sys
    requires r < |s.resolvers| && s.resolvers[r].Creating?
  {
    var x := s.resolvers[r];
    var t := NewTask(id, x.url, x.key, x.family, s.maxRetries, s.clock);
    var p := PutResult(s.st, t, s.clock);
    if p.Ok? then s.(st := p.value, clock := s.clock + 1, drivers := s.drivers + [Spawned(id)],
                     resolvers := s.resolvers[r := Resolved(Working(t))])
    else s.(resolvers := s.resolvers[r := Resolved(Rejected)])
  }

  function MirrorStoreResult(s: Sys, m: nat, ok: bool): Sys
    requires m < |s.mirrors| && s.mirrors[m].Probing?
  {
    var x := s.mirrors[m];
    var hit := x.key in s.st.byKey && s.st.byKey[x.key].status.Ready? && s.st.byKey[x.key].artifact.Some?;
    if hit then s.(mirrors := s.mirrors[m := Served(Some(s.st.byKey[x.key].artifact.value.storageKey))])
    else if !ok then s.(mirrors := s.mirrors[m := Served(None)])
    else s.(objects := s.objects + {StorageKeyFor(x.family, x.key)},
            mirrors := s.mirrors[m := Mirror.Registering(x.key, x.family)])
  }

  function MirrorPutResult(s: Sys, m: nat, id: string): Sys
    requires m < |s.mirrors| && s.mirrors[m].Registering?
  {
    var x := s.mirrors[m];
    var p := PutResult(s.st, ReadyTask(id, x.key, x.family, s.clock), s.clock);
    if p.Ok? then s.(st := p.value, clock := s.clock + 1, mirrors := s.mirrors[m := Served(Some(StorageKeyFor(x.family, x.key)))])
    else s.(mirrors := s.mirrors[m := Served(None)])
  }

  /** Task ids are fresh; a task that is being driven is not collected. */
  ghost predicate Enabled(s: Sys, t: Step) {
    match t
    case ResolveStart(_, _, _) => true
    case ResolveRead(r) => r < |s.resolvers| && s.resolvers[r].Reading?
    case ResolveRearm(r) => r < |s.resolvers| && s.resolvers[r].Rearming?
    case ResolveCreate(r, id) => r < |s.resolvers| && s.resolvers[r].Creating? && Unused(s, id)
    case Drive(d, _) => d < |s.drivers| && !s.drivers[d].pc.Done?
    case MirrorStart(_, _) => true
    case MirrorStore(m, _) => m < |s.mirrors| && s.mirrors[m].Probing?
    case MirrorPut(m, id) => m < |s.mirrors| && s.mirrors[m].Registering? && Unused(s, id)
    case Collect(id) =>
      id in s.st.byID && (s.st.byID[id].status.Dead? || s.st.byID[id].status.Failed?) && id !in s.processing
  }

  ghost predicate Unused(s: Sys, id: string) {
    id !in s.st.byID && (forall d :: 0 <= d < |s.drivers| ==> s.drivers[d].id != id)
    && (forall r :: 0 <= r < |s.resolvers| && s.resolvers[r].Rearming? ==> s.resolvers[r].id != id)
  }

  function Apply(s: Sys, t: Step): Sys
    requires Enabled(s, t)
  {
    match t
    case ResolveStart(key, family, url) => s.(resolvers := s.resolvers + [Reading(key, family, url)])
    case ResolveRead(r) => s.(resolvers := s.resolvers[r := ReadOutcome(s, s.resolvers[r])])
    case ResolveRearm(r) => RearmResult(s, r)
    case ResolveCreate(r, id) => CreateResult(s, r, id)
    case Drive(d, ok) => DriveResult(s, d, ok)
    case MirrorStart(key, family) => s.(mirrors := s.mirrors + [Probing(key, family)])
    case MirrorStore(m, ok) => MirrorStoreResult(s, m, ok)
    case MirrorPut(m, id) => MirrorPutResult(s, m, id)
    case Collect(id) => s.(st := DeleteResult(s.st, id).value)
  }

  ghost predicate Run(s: Sys, ts: seq<Step>)
    decreases |ts|
  {
    ts == [] || (Enabled(s, ts[0]) && Run(Apply(s, ts[0]), ts[1..]))
  }

  ghost function Exec(s: Sys, ts: seq<Step>): Sys
    requires Run(s, ts)
    decreases |ts|
  {
    if ts == [] then s else Exec(Apply(s, ts[0]), ts[1..])
  }

  /** A ready task has an artifact under its own storage key, and that object exists. */
  ghost predicate ReadyBacked(t: Task, objects: set<string>) {
    t.status.Ready? ==> t.artifact.Some? && t.artifact.value.storageKey == PresignedKey(t) && PresignedKey(t) in objects
  }

  ghost predicate RetriesCapped(t: Task) {
    0 <= t.retries <= t.maxRetries + 1 && (t.retries > t.maxRetries ==> t.status.Failed? || t.status.Dead?)
  }

  /** A freshly started server over any sound persisted store. */
  ghost predicate Init(s: Sys) {
    && s.processing == {} && s.drivers == [] && s.resolvers == [] && s.mirrors == [] && !s.late && s.maxRetries >= 0
    && (forall id :: id in s.st.byID ==>
          s.st.byID[id].id == id && ReadyBacked(s.st.byID[id], s.objects) && RetriesCapped(s.st.byID[id]))
    && (forall k :: k in s.st.byKey ==> s.st.byKey[k].cacheKey == k && ReadyBacked(s.st.byKey[k], s.objects))
  }
}
