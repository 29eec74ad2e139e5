/** What every interleaving of drivers, Resolve calls and mirrors keeps, and the one race in which a driver's
  * write is refused. */
module TaskEngineSafety {
  import opened TaskState
  import opened TaskStore
  import opened TaskEngine

  // ----- the invariant -----

  ghost predicate PastGuard(d: Driver) {
    !d.pc.AtGuard? && !d.pc.Done?
  }

  ghost predicate Driving(d: Driver) {
    PastGuard(d) && !d.pc.AtGet? && !d.pc.AtCleanup?
  }

  /** The stored status a driver relies on at each point. Only a late re-arm can break the one before the burial. */
  ghost predicate StatusFits(d: Driver, stored: Status, late: bool) {
    match d.pc
    case AtTop =>
      (d.local.status.Downloading? ==> stored.Downloading?)
      && (d.local.status.Queued? || d.local.status.Failed? ==> stored.Queued? || stored.Failed? || stored.Downloading?)
    case AtFetch => stored.Downloading?
    case AtDownloaded => stored.Downloading?
    case AtUploading => stored.Downloaded?
    case AtUpload => stored.Uploading?
    case AtRegistering => stored.Uploading?
    case AtReady => stored.Registering?
    case AtFailed => stored.Downloading? || stored.Uploading?
    case AtSleep => d.local.status.Failed? && (stored.Failed? || stored.Downloading?)
    case AtDead => stored.Failed? || (late && stored.Downloading?)
    case _ => true
  }

  /** The retry bookkeeping of a driver. */
  ghost predicate CountsFit(d: Driver) {
    && d.base + d.failures == d.local.retries
    && (d.pc.AtDownloaded? || d.pc.AtUploading? || d.pc.AtUpload? || d.pc.AtRegistering? || d.pc.AtReady? || d.pc.AtFailed?
        ==> d.fetches == d.failures + 1)
    && (d.pc.AtTop? || d.pc.AtFetch? || d.pc.AtSleep? || d.pc.AtDead? ==> d.fetches == d.failures)
    && (d.pc.AtDead? ==> d.local.retries > d.local.maxRetries)
    && (!d.pc.AtDead? && d.failures > 0 ==> d.local.retries <= d.local.maxRetries)
    && (d.pc.AtTop? && d.failures == 0 ==> !d.engaged)
    && (d.pc.AtTop? && d.failures > 0 ==> d.local.status.Failed?)
    && (d.pc.AtSleep? ==> d.failures > 0)
    && (!d.pc.AtTop? ==> d.engaged)
  }

  ghost predicate Tied(st: State, d: Driver, late: bool) {
    Driving(d) ==>
      && d.id in st.byID
      && SameTask(d.local, st.byID[d.id])
      && StatusFits(d, st.byID[d.id].status, late)
      && CountsFit(d)
      && (!late ==> RetryRoom(d))
  }

  /** A driver that may still start a round has retries left. */
  ghost predicate RetryRoom(d: Driver) {
    d.pc.AtDead? || (d.pc.AtTop? && d.local.status.Dead?) || d.local.retries <= d.local.maxRetries
  }

  ghost predicate Burying(ds: seq<Driver>, id: string) {
    exists e :: 0 <= e < |ds| && ds[e].id == id && ds[e].pc.AtDead?
  }

  /** A driver that has not looked at its task yet will find it dead or with retries left. */
  ghost predicate Waiting(s: Sys, d: Driver) {
    (d.pc.AtGuard? || d.pc.AtGet?) && !s.late && d.id in s.st.byID ==>
      var t := s.st.byID[d.id];
      t.status.Dead? || t.retries <= t.maxRetries || Burying(s.drivers, d.id)
  }

  ghost predicate SameTask(a: Task, b: Task) {
    a.id == b.id && a.family == b.family && a.cacheKey == b.cacheKey && a.retries == b.retries && a.maxRetries == b.maxRetries
  }

  /** A driver that is through left its task at rest, unless a late re-arm interfered. */
  ghost predicate RestsWell(st: State, d: Driver, late: bool) {
    (d.pc.AtCleanup? || d.pc.Done?) && d.engaged && d.id in st.byID && !late ==> Terminal(st.byID[d.id].status)
  }

  ghost predicate FetchBound(d: Driver) {
    d.fetches <= 1 || (d.fetches <= d.local.maxRetries - d.base + 1)
  }

  ghost predicate UploadDone(d: Driver, objects: set<string>) {
    d.pc.AtRegistering? || d.pc.AtReady? ==> PresignedKey(d.local) in objects
  }

  ghost predicate DriverOk(s: Sys, d: Driver) {
    && (PastGuard(d) ==> d.id in s.processing)
    && Tied(s.st, d, s.late)
    && RestsWell(s.st, d, s.late)
    && FetchBound(d)
    && UploadDone(d, s.objects)
    && (d.pc.AtGuard? || d.pc.AtGet? ==> d.fetches == d.failures == 0 && !d.engaged && d.base == 0)
  }

  /** At most one driver per task is past the guard. */
  ghost predicate Exclusive(ds: seq<Driver>) {
    forall a, b :: 0 <= a < b < |ds| && PastGuard(ds[a]) && PastGuard(ds[b]) ==> ds[a].id != ds[b].id
  }

  ghost predicate TaskOk(t: Task, objects: set<string>, late: bool) {
    ReadyBacked(t, objects) && (!late ==> RetriesCapped(t))
  }

  ghost predicate StoreOk(st: State, objects: set<string>, late: bool) {
    && (forall id :: id in st.byID ==> st.byID[id].id == id && TaskOk(st.byID[id], objects, late))
    && (forall k :: k in st.byKey ==> st.byKey[k].cacheKey == k && ReadyBacked(st.byKey[k], objects))
  }

  ghost predicate MirrorOk(m: Mirror, objects: set<string>) {
    m.Registering? ==> StorageKeyFor(m.family, m.key) in objects
  }

  ghost predicate Inv(s: Sys) {
    && s.maxRetries >= 0
    && StoreOk(s.st, s.objects, s.late)
    && Exclusive(s.drivers)
    && (forall d :: 0 <= d < |s.drivers| ==> DriverOk(s, s.drivers[d]))
    && (forall d :: 0 <= d < |s.drivers| ==> Waiting(s, s.drivers[d]))
    && (forall m :: 0 <= m < |s.mirrors| ==> MirrorOk(s.mirrors[m], s.objects))
  }

  // ----- writes -----

  /** A write to another task leaves a driver's view alone. */
  lemma OtherWrite(s: Sys, s': Sys, d: Driver)
    requires DriverOk(s, d)
    requires s'.late == s.late && s.objects <= s'.objects
    requires PastGuard(d) ==> d.id in s'.processing
    requires d.id in s.st.byID <==> d.id in s'.st.byID
    requires d.id in s.st.byID ==> s'.st.byID[d.id] == s.st.byID[d.id]
    ensures DriverOk(s', d)
  {
  }

  lemma WriteKeepsStore(st: State, t: Task, objects: set<string>, late: bool)
    requires StoreOk(st, objects, late) && TaskOk(t, objects, late)
    ensures StoreOk(Written(st, t), objects, late)
  {
  }

  // ----- the drivers -----

  /** No driver write other than a burial after a late re-arm is refused. */
  lemma WriteAllowed(s: Sys, d: Driver)
    requires Inv(s) && DriverOk(s, d) && NextWrite(d).Some?
    ensures d.id in s.st.byID
    ensures Allowed(s.st.byID[d.id].status, NextWrite(d).value(s.st.byID[d.id]).status)
            <==> !(d.pc.AtDead? && s.st.byID[d.id].status.Downloading?)
  {
    assert Tied(s.st, d, s.late);
  }

  lemma WrittenTaskOk(s: Sys, d: Driver)
    requires Inv(s) && DriverOk(s, d) && NextWrite(d).Some?
    requires UpdateResult(s.st, d.id, NextWrite(d).value, s.clock).Ok?
    ensures TaskOk(UpdateResult(s.st, d.id, NextWrite(d).value, s.clock).value.1, s.objects, s.late)
  {
    assert Tied(s.st, d, s.late);
    assert TaskOk(s.st.byID[d.id], s.objects, s.late);
  }

  /** The write leaves the driver's counters in order. */
  lemma WriterCounts(s: Sys, d: Driver, t: Task)
    requires DriverOk(s, d) && NextWrite(d).Some?
    requires UpdateResult(s.st, d.id, NextWrite(d).value, s.clock).Ok?
    requires t == UpdateResult(s.st, d.id, NextWrite(d).value, s.clock).value.1
    ensures var e := AfterWrite(d, t);
            FetchBound(e) && UploadDone(e, s.objects) && (Driving(e) ==> CountsFit(e) && (!s.late ==> RetryRoom(e)))
  {
    assert Tied(s.st, d, s.late);
    assert t == NextWrite(d).value(s.st.byID[d.id]).(updatedAt := s.clock);
  }

  lemma WriterTied(s: Sys, s': Sys, d: Driver, t: Task)
    requires DriverOk(s, d) && NextWrite(d).Some? && (d.id in s.st.byID ==> s.st.byID[d.id].id == d.id)
    requires var u := UpdateResult(s.st, d.id, NextWrite(d).value, s.clock);
             u.Ok? && t == u.value.1 && s'.st == u.value.0
    ensures var e := AfterWrite(d, t);
            && e.id == d.id && PastGuard(e) && PastGuard(d) && d.id in s'.st.byID && s'.st.byID[d.id] == t
            && (Driving(e) ==> SameTask(e.local, t) && StatusFits(e, t.status, s.late))
            && RestsWell(s'.st, e, s.late)
  {
    assert Tied(s.st, d, s.late);
    assert t == NextWrite(d).value(s.st.byID[d.id]).(updatedAt := s.clock);
  }

  lemma WriterOk(s: Sys, s': Sys, d: Driver, t: Task)
    requires DriverOk(s, d) && NextWrite(d).Some? && (d.id in s.st.byID ==> s.st.byID[d.id].id == d.id)
    requires var u := UpdateResult(s.st, d.id, NextWrite(d).value, s.clock);
             u.Ok? && t == u.value.1 && s'.st == u.value.0
    requires s'.late == s.late && s'.objects == s.objects && s'.processing == s.processing
    ensures DriverOk(s', AfterWrite(d, t)) && AfterWrite(d, t).id == d.id && PastGuard(AfterWrite(d, t)) == PastGuard(d)
  {
    WriterCounts(s, d, t);
    WriterTied(s, s', d, t);
  }

  lemma BuryingStays(ds: seq<Driver>, i: nat, x: Driver, id: string)
    requires i < |ds| && Burying(ds, id) && (ds[i].pc.AtDead? && ds[i].id == id ==> x.pc.AtDead? && x.id == id)
    ensures Burying(ds[i := x], id)
  {
    var e :| 0 <= e < |ds| && ds[e].id == id && ds[e].pc.AtDead?;
    assert ds[i := x][e].id == id && ds[i := x][e].pc.AtDead?;
  }

  /** The only driver past the guard of a task is the one that buries it. */
  lemma NoOtherBurial(s: Sys, i: nat)
    requires Inv(s) && i < |s.drivers| && PastGuard(s.drivers[i]) && !s.drivers[i].pc.AtDead?
    ensures !Burying(s.drivers, s.drivers[i].id)
  {
    forall e | 0 <= e < |s.drivers| && s.drivers[e].pc.AtDead?
      ensures s.drivers[e].id != s.drivers[i].id
    {
      assert e != i && PastGuard(s.drivers[e]);
    }
  }

  lemma WriteKeepsWaiting(s: Sys, i: nat, s': Sys)
    requires Inv(s) && i < |s.drivers| && NextWrite(s.drivers[i]).Some?
    requires var d := s.drivers[i];
             var u := UpdateResult(s.st, d.id, NextWrite(d).value, s.clock);
             u.Ok? && s' == s.(st := u.value.0, clock := s.clock + 1, drivers := s.drivers[i := AfterWrite(d, u.value.1)])
    ensures forall k :: 0 <= k < |s'.drivers| ==> Waiting(s', s'.drivers[k])
  {
    var d := s.drivers[i];
    assert DriverOk(s, d) && Tied(s.st, d, s.late);
    var x := s'.drivers[i];
    forall k | 0 <= k < |s'.drivers|
      ensures Waiting(s', s'.drivers[k])
    {
      var w := s'.drivers[k];
      assert k != i ==> Waiting(s, s.drivers[k]);
      if k != i && (w.pc.AtGuard? || w.pc.AtGet?) && !s'.late && w.id in s'.st.byID {
        if w.id == d.id {
          if x.pc.AtDead? { assert Burying(s'.drivers, w.id) by { assert s'.drivers[i].pc.AtDead?; } }
        } else if Burying(s.drivers, w.id) {
          BuryingStays(s.drivers, i, x, w.id);
        }
      }
    }
  }

  lemma KeepsDriveWrite(s: Sys, i: nat, s': Sys)
    requires Inv(s) && i < |s.drivers| && NextWrite(s.drivers[i]).Some?
    requires var d := s.drivers[i];
             var u := UpdateResult(s.st, d.id, NextWrite(d).value, s.clock);
             u.Ok? && s' == s.(st := u.value.0, clock := s.clock + 1, drivers := s.drivers[i := AfterWrite(d, u.value.1)])
    ensures Inv(s')
  {
    var d := s.drivers[i];
    var t := UpdateResult(s.st, d.id, NextWrite(d).value, s.clock).value.1;
    WriterOk(s, s', d, t);
    WrittenTaskOk(s, d);
    WriteKeepsStore(s.st, t, s.objects, s.late);
    WriteKeepsWaiting(s, i, s');
    forall k | 0 <= k < |s'.drivers|
      ensures DriverOk(s', s'.drivers[k])
    {
      if k != i {
        var e := s.drivers[k];
        assert DriverOk(s, e);
        if e.id == d.id { SameIdWrite(s, s', d, e, t); } else { OtherWrite(s, s', e); }
      }
    }
    assert s'.drivers[i].id == d.id;
  }

  /** Another driver of the same task is not past the guard, or it would have excluded this one. */
  lemma SameIdWrite(s: Sys, s': Sys, d: Driver, e: Driver, t: Task)
    requires DriverOk(s, d) && DriverOk(s, e) && e.id == d.id && NextWrite(d).Some?
    requires !PastGuard(e)
    requires var u := UpdateResult(s.st, d.id, NextWrite(d).value, s.clock);
             u.Ok? && s'.st == u.value.0 && t == u.value.1
    requires s'.late == s.late && s'.objects == s.objects && s'.processing == s.processing
    ensures DriverOk(s', e)
  {
    assert Tied(s.st, d, s.late);
    if e.pc.Done? && e.engaged && !s.late {
      assert RestsWell(s.st, e, s.late);
      assert Terminal(s.st.byID[d.id].status);
      assert StatusFits(d, s.st.byID[d.id].status, s.late);
    }
  }

  lemma KeepsDriveRefused(s: Sys, i: nat, s': Sys)
    requires Inv(s) && i < |s.drivers| && NextWrite(s.drivers[i]).Some?
    requires var d := s.drivers[i];
             && UpdateResult(s.st, d.id, NextWrite(d).value, s.clock).Err?
             && s' == s.(drivers := s.drivers[i := d.(pc := AtCleanup)])
    ensures Inv(s') && s.late && s.drivers[i].pc.AtDead?
  {
    var d := s.drivers[i];
    assert DriverOk(s, d) && Tied(s.st, d, s.late);
    WriteAllowed(s, d);
    forall k | 0 <= k < |s'.drivers|
      ensures DriverOk(s', s'.drivers[k]) && Waiting(s', s'.drivers[k])
    {
      assert DriverOk(s, s.drivers[k]);
    }
  }

  /** The quiet actions: guard, read, fetch, upload, sleep, clean up. */
  lemma QuietOk(s: Sys, i: nat, ok: bool, s': Sys)
    requires Inv(s) && i < |s.drivers| && NextWrite(s.drivers[i]).None? && !s.drivers[i].pc.Done?
    requires s' == DriveResult(s, i, ok)
    ensures DriverOk(s', s'.drivers[i])
  {
    var d := s.drivers[i];
    assert DriverOk(s, d) && Waiting(s, d) && Tied(s.st, d, s.late);
    if d.pc.AtGet? { NoOtherBurial(s, i); }
  }

  lemma QuietOthers(s: Sys, i: nat, ok: bool, s': Sys, k: nat)
    requires Inv(s) && i < |s.drivers| && NextWrite(s.drivers[i]).None? && !s.drivers[i].pc.Done?
    requires s' == DriveResult(s, i, ok) && k < |s.drivers| && k != i
    ensures DriverOk(s', s.drivers[k])
  {
    assert DriverOk(s, s.drivers[k]) && DriverOk(s, s.drivers[i]);
  }

  lemma QuietWaiting(s: Sys, i: nat, ok: bool, s': Sys, k: nat)
    requires Inv(s) && i < |s.drivers| && NextWrite(s.drivers[i]).None? && !s.drivers[i].pc.Done?
    requires s' == DriveResult(s, i, ok) && k < |s.drivers|
    ensures Waiting(s', s'.drivers[k])
  {
    assert Waiting(s, s.drivers[k]);
    var id := s.drivers[k].id;
    if Burying(s.drivers, id) { BuryingStays(s.drivers, i, s'.drivers[i], id); }
  }

  /** A quiet action lets no second driver of a task past the guard. */
  lemma QuietExclusive(s: Sys, i: nat, ok: bool, s': Sys)
    requires i < |s.drivers| && NextWrite(s.drivers[i]).None? && !s.drivers[i].pc.Done? && Exclusive(s.drivers)
    requires forall k :: 0 <= k < |s.drivers| && PastGuard(s.drivers[k]) ==> s.drivers[k].id in s.processing
    requires s' == DriveResult(s, i, ok)
    ensures Exclusive(s'.drivers)
  {
    assert s'.drivers[i].id == s.drivers[i].id;
  }

  /** It leaves the store alone, and objects are only added. */
  lemma QuietRest(s: Sys, i: nat, ok: bool, s': Sys)
    requires i < |s.drivers| && NextWrite(s.drivers[i]).None? && s' == DriveResult(s, i, ok)
    ensures s'.st == s.st && s'.late == s.late && s'.maxRetries == s.maxRetries && s'.mirrors == s.mirrors
    ensures s.objects <= s'.objects && |s'.drivers| == |s.drivers| && forall k :: 0 <= k < |s.drivers| && k != i ==> s'.drivers[k] == s.drivers[k]
  {
  }

  lemma KeepsDriveQuiet(s: Sys, i: nat, ok: bool, s': Sys)
    requires Inv(s) && i < |s.drivers| && NextWrite(s.drivers[i]).None? && !s.drivers[i].pc.Done?
    requires s' == DriveResult(s, i, ok)
    ensures Inv(s')
  {
    QuietRest(s, i, ok, s');
    forall k | 0 <= k < |s.drivers|
      ensures DriverOk(s', s'.drivers[k]) && Waiting(s', s'.drivers[k])
    {
      if k == i { QuietOk(s, i, ok, s'); } else { QuietOthers(s, i, ok, s', k); }
      QuietWaiting(s, i, ok, s', k);
    }
    assert forall k :: 0 <= k < |s.drivers| ==> DriverOk(s, s.drivers[k]);
    QuietExclusive(s, i, ok, s');
  }

  lemma KeepsDrive(s: Sys, i: nat, ok: bool)
    requires Inv(s) && i < |s.drivers| && !s.drivers[i].pc.Done?
    ensures Inv(DriveResult(s, i, ok))
  {
    var d := s.drivers[i];
    if NextWrite(d).None? {
      KeepsDriveQuiet(s, i, ok, DriveResult(s, i, ok));
    } else if UpdateResult(s.st, d.id, NextWrite(d).value, s.clock).Ok? {
      KeepsDriveWrite(s, i, DriveResult(s, i, ok));
    } else {
      KeepsDriveRefused(s, i, DriveResult(s, i, ok));
    }
  }

  // ----- resolve -----

  /** Re-arming changes a status only to downloading, and only from queued, failed or downloading. */
  lemma RearmDriver(s: Sys, s': Sys, d: Driver, id: string, t: Task)
    requires Inv(s) && DriverOk(s, d) && id in s.st.byID && UpdateResult(s.st, id, ToDownloading, s.clock).Ok?
    requires s'.st == UpdateResult(s.st, id, ToDownloading, s.clock).value.0 && t == s'.st.byID[id]
    requires s'.objects == s.objects && s'.processing == s.processing
    requires s'.late == (s.late || (s.st.byID[id].status.Failed? && s.st.byID[id].retries > s.st.byID[id].maxRetries))
    ensures DriverOk(s', d)
  {
    assert Tied(s.st, d, s.late);
    assert s.st.byID[id].id == id;
    if d.id == id && !s'.late {
      assert TaskOk(s.st.byID[id], s.objects, s.late);
    }
  }

  lemma RearmWaiting(s: Sys, s': Sys, d: Driver, id: string)
    requires Inv(s) && Waiting(s, d) && id in s.st.byID && UpdateResult(s.st, id, ToDownloading, s.clock).Ok?
    requires s'.st == UpdateResult(s.st, id, ToDownloading, s.clock).value.0
    requires s'.drivers == s.drivers + [Spawned(id)]
    requires s'.late == (s.late || (s.st.byID[id].status.Failed? && s.st.byID[id].retries > s.st.byID[id].maxRetries))
    ensures Waiting(s', d)
  {
    assert TaskOk(s.st.byID[id], s.objects, s.late) && s.st.byID[id].id == id;
    if Burying(s.drivers, d.id) { BuryingGrows(s.drivers, Spawned(id), d.id); }
  }

  lemma BuryingGrows(ds: seq<Driver>, x: Driver, id: string)
    requires Burying(ds, id)
    ensures Burying(ds + [x], id)
  {
    var e :| 0 <= e < |ds| && ds[e].id == id && ds[e].pc.AtDead?;
    assert (ds + [x])[e] == ds[e];
  }

  lemma KeepsRearm(s: Sys, r: nat)
    requires Inv(s) && r < |s.resolvers| && s.resolvers[r].Rearming?
    ensures Inv(RearmResult(s, r))
  {
    var s' := RearmResult(s, r);
    var id := s.resolvers[r].id;
    if UpdateResult(s.st, id, ToDownloading, s.clock).Ok? {
      var t := UpdateResult(s.st, id, ToDownloading, s.clock).value.1;
      assert TaskOk(s.st.byID[id], s.objects, s.late) && s.st.byID[id].id == id;
      RearmedTaskOk(s, s', id);
      forall k | 0 <= k < |s.drivers|
        ensures DriverOk(s', s.drivers[k]) && Waiting(s', s.drivers[k])
      {
        RearmDriver(s, s', s.drivers[k], id, t);
        RearmWaiting(s, s', s.drivers[k], id);
      }
    } else {
      SameDrivers(s, s');
    }
  }

  lemma RearmedTaskOk(s: Sys, s': Sys, id: string)
    requires Inv(s) && id in s.st.byID && UpdateResult(s.st, id, ToDownloading, s.clock).Ok?
    requires s'.st == UpdateResult(s.st, id, ToDownloading, s.clock).value.0 && s'.objects == s.objects
    requires s'.late == (s.late || (s.st.byID[id].status.Failed? && s.st.byID[id].retries > s.st.byID[id].maxRetries))
    ensures StoreOk(s'.st, s'.objects, s'.late)
  {
    assert TaskOk(s.st.byID[id], s.objects, s.late) && s.st.byID[id].id == id;
    assert StoreOk(s.st, s.objects, s'.late);
    WriteKeepsStore(s.st, s'.st.byID[id], s.objects, s'.late);
  }

  lemma SameDrivers(s: Sys, s': Sys)
    requires Inv(s) && s'.st == s.st && s.objects <= s'.objects && s'.processing == s.processing
    requires s'.drivers == s.drivers && s'.late == s.late && s'.maxRetries == s.maxRetries
    requires forall m :: 0 <= m < |s'.mirrors| ==> MirrorOk(s'.mirrors[m], s'.objects)
    ensures Inv(s')
  {
    forall k | 0 <= k < |s.drivers|
      ensures DriverOk(s', s.drivers[k]) && Waiting(s', s.drivers[k])
    {
      assert DriverOk(s, s.drivers[k]) && Waiting(s, s.drivers[k]);
      OtherWrite(s, s', s.drivers[k]);
    }
  }

  /** Inserting a task under a fresh id. */
  lemma InsertKeeps(s: Sys, s': Sys, t: Task, more: seq<Driver>)
    requires Inv(s) && Unused(s, t.id) && TaskOk(t, s.objects, s.late)
    requires s'.st == Written(s.st, t) && s'.objects == s.objects && s'.processing == s.processing
    requires s'.drivers == s.drivers + more && s'.late == s.late && s'.maxRetries == s.maxRetries && s'.mirrors == s.mirrors
    requires more == [] || (more == [Spawned(t.id)] && t.retries <= t.maxRetries)
    ensures Inv(s')
  {
    WriteKeepsStore(s.st, t, s.objects, s.late);
    if more == [] { assert s'.drivers == s.drivers; }
    forall k | 0 <= k < |s.drivers|
      ensures DriverOk(s', s.drivers[k]) && Waiting(s', s.drivers[k])
    {
      assert DriverOk(s, s.drivers[k]) && Waiting(s, s.drivers[k]);
      OtherWrite(s, s', s.drivers[k]);
      if more != [] && Burying(s.drivers, s.drivers[k].id) { BuryingGrows(s.drivers, more[0], s.drivers[k].id); }
    }
    if more != [] { assert DriverOk(s', more[0]); }
    forall k | 0 <= k < |s'.drivers|
      ensures DriverOk(s', s'.drivers[k]) && Waiting(s', s'.drivers[k])
    {
      assert s'.drivers[k] == if k < |s.drivers| then s.drivers[k] else more[0];
    }
  }

  lemma KeepsCreate(s: Sys, r: nat, id: string)
    requires Inv(s) && Enabled(s, ResolveCreate(r, id))
    ensures Inv(CreateResult(s, r, id))
  {
    var x := s.resolvers[r];
    var t := NewTask(id, x.url, x.key, x.family, s.maxRetries, s.clock);
    var s' := CreateResult(s, r, id);
    if PutResult(s.st, t, s.clock).Ok? {
      InsertKeeps(s, s'.(resolvers := s.resolvers), t, [Spawned(id)]);
      SameDrivers(s'.(resolvers := s.resolvers), s');
    } else {
      SameDrivers(s, s');
    }
  }

  lemma KeepsMirrorPut(s: Sys, m: nat, id: string)
    requires Inv(s) && Enabled(s, MirrorPut(m, id))
    ensures Inv(MirrorPutResult(s, m, id))
  {
    var x := s.mirrors[m];
    assert MirrorOk(x, s.objects);
    var t := ReadyTask(id, x.key, x.family, s.clock);
    var s' := MirrorPutResult(s, m, id);
    if PutResult(s.st, t, s.clock).Ok? {
      InsertKeeps(s, s'.(mirrors := s.mirrors), t, []);
      SameDrivers(s'.(mirrors := s.mirrors), s');
    } else {
      SameDrivers(s, s');
    }
  }

  lemma CollectWaiting(s: Sys, s': Sys, d: Driver, id: string)
    requires Waiting(s, d) && s'.st.byID == s.st.byID - {id} && s'.drivers == s.drivers && s'.late == s.late
    ensures Waiting(s', d)
  {
    if d.id in s'.st.byID {
      assert s'.st.byID[d.id] == s.st.byID[d.id];
    }
  }

  lemma KeepsCollect(s: Sys, id: string)
    requires Inv(s) && Enabled(s, Collect(id))
    ensures Inv(s.(st := DeleteResult(s.st, id).value))
  {
    var s' := s.(st := DeleteResult(s.st, id).value);
    forall k | 0 <= k < |s.drivers|
      ensures DriverOk(s', s.drivers[k]) && Waiting(s', s.drivers[k])
    {
      var d := s.drivers[k];
      assert DriverOk(s, d) && Waiting(s, d);
      CollectWaiting(s, s', d, id);
      if d.id != id { OtherWrite(s, s', d); }
    }
  }

  lemma StepKeeps(s: Sys, t: Step)
    requires Inv(s) && Enabled(s, t)
    ensures Inv(Apply(s, t))
  {
    match t
    case ResolveStart(_, _, _) => SameDrivers(s, Apply(s, t));
    case ResolveRead(_) => SameDrivers(s, Apply(s, t));
    case ResolveRearm(r) => KeepsRearm(s, r);
    case ResolveCreate(r, id) => KeepsCreate(s, r, id);
    case Drive(d, ok) => KeepsDrive(s, d, ok);
    case MirrorStart(_, _) => SameDrivers(s, Apply(s, t));
    case MirrorStore(m, ok) => SameDrivers(s, Apply(s, t));
    case MirrorPut(m, id) => KeepsMirrorPut(s, m, id);
    case Collect(id) => KeepsCollect(s, id);
  }

  lemma {:induction false} RunKeeps(s: Sys, ts: seq<Step>)
    requires Inv(s) && Run(s, ts)
    ensures Inv(Exec(s, ts))
    decreases |ts|
  {
    if ts != [] {
      StepKeeps(s, ts[0]);
      RunKeeps(Apply(s, ts[0]), ts[1..]);
    }
  }

  // ----- main results -----

  lemma InitInv(s: Sys)
    requires Init(s)
    ensures Inv(s)
  {
  }

  /** Driver d is about to make a write that the store would refuse as a conflict. */
  ghost predicate Refused(s: Sys, d: Driver) {
    NextWrite(d).Some? && UpdateResult(s.st, d.id, NextWrite(d).value, s.clock).Err?
  }

  /** A driver's write is refused exactly when the driver is about to bury a task that a Resolve has set back
    * to downloading in between, and that takes a re-arm of a task whose retries were used up. */
  lemma RefusedIffReArmedAtBurial(s: Sys, ts: seq<Step>, d: nat)
    requires Init(s) && Run(s, ts) && d < |Exec(s, ts).drivers|
    ensures var e := Exec(s, ts); var x := e.drivers[d];
            && (Refused(e, x) <==> x.pc.AtDead? && x.id in e.st.byID && e.st.byID[x.id].status.Downloading?)
            && (Refused(e, x) ==> e.late)
  {
    InitInv(s);
    RunKeeps(s, ts);
    var e := Exec(s, ts);
    var x := e.drivers[d];
    assert DriverOk(e, x) && Tied(e.st, x, e.late);
    if NextWrite(x).Some? { WriteAllowed(e, x); }
  }

  /** The guard: if every re-arm that goes through finds the task within its retry limit, no driver write is
    * ever refused, retries stay within maxRetries + 1, and a driver that worked on a task leaves it at rest. */
  lemma NoConflictWithoutLateRearm(s: Sys, ts: seq<Step>, d: nat)
    requires Init(s) && Run(s, ts) && !Exec(s, ts).late && d < |Exec(s, ts).drivers|
    ensures var e := Exec(s, ts); var x := e.drivers[d];
            && !Refused(e, x)
            && (x.id in e.st.byID ==> 0 <= e.st.byID[x.id].retries <= e.st.byID[x.id].maxRetries + 1)
            && (x.pc.Done? && x.engaged && x.id in e.st.byID ==> Terminal(e.st.byID[x.id].status))
  {
    RefusedIffReArmedAtBurial(s, ts, d);
    InitInv(s);
    RunKeeps(s, ts);
    var e := Exec(s, ts);
    assert DriverOk(e, e.drivers[d]);
    if e.drivers[d].id in e.st.byID { assert TaskOk(e.st.byID[e.drivers[d].id], e.objects, e.late); }
  }

  /** Conversely, a re-arm that goes through while the task waits for its burial always costs the driver its write. */
  lemma RearmAtBurialRefuses(s: Sys, ts: seq<Step>, d: nat, r: nat)
    requires Init(s) && Run(s, ts) && Enabled(Exec(s, ts), ResolveRearm(r)) && d < |Exec(s, ts).drivers|
    requires var e := Exec(s, ts); e.drivers[d].pc.AtDead? && e.resolvers[r].id == e.drivers[d].id
    ensures var e' := Apply(Exec(s, ts), ResolveRearm(r)); d < |e'.drivers| && Refused(e', e'.drivers[d])
  {
    InitInv(s);
    RunKeeps(s, ts);
    var e := Exec(s, ts);
    assert DriverOk(e, e.drivers[d]) && Tied(e.st, e.drivers[d], e.late);
    assert e.st.byID[e.drivers[d].id].id == e.drivers[d].id;
  }

  /** At most one driver per task is past the guard, in every interleaving. */
  lemma OneDriverPerTask(s: Sys, ts: seq<Step>, a: nat, b: nat)
    requires Init(s) && Run(s, ts)
    requires var e := Exec(s, ts); a < b < |e.drivers| && PastGuard(e.drivers[a]) && PastGuard(e.drivers[b])
    ensures Exec(s, ts).drivers[a].id != Exec(s, ts).drivers[b].id
  {
    InitInv(s);
    RunKeeps(s, ts);
  }

  /** Every ready task that anyone can read, by id or by key, whoever wrote it, has its artifact under the
    * key that readyResult presigns, and that object exists. */
  lemma ReadyTasksAreBacked(s: Sys, ts: seq<Step>, t: Task)
    requires Init(s) && Run(s, ts)
    requires var e := Exec(s, ts);
             t.status.Ready? && (t in e.st.byID.Values || t in e.st.byKey.Values)
    ensures t.artifact.Some? && t.artifact.value.storageKey == PresignedKey(t) && PresignedKey(t) in Exec(s, ts).objects
  {
    InitInv(s);
    RunKeeps(s, ts);
    var e := Exec(s, ts);
    if t in e.st.byID.Values {
      var id :| id in e.st.byID && e.st.byID[id] == t;
      assert TaskOk(e.st.byID[id], e.objects, e.late);
    } else {
      var k :| k in e.st.byKey && e.st.byKey[k] == t;
      assert ReadyBacked(e.st.byKey[k], e.objects);
    }
  }

  /** A driver fetches at most maxRetries + 1 times, and the retry count is its start value plus its failures. */
  lemma FetchesBounded(s: Sys, ts: seq<Step>, d: nat)
    requires Init(s) && Run(s, ts) && d < |Exec(s, ts).drivers|
    ensures var x := Exec(s, ts).drivers[d];
            && (x.fetches <= 1 || x.fetches <= x.local.maxRetries - x.base + 1)
            && (Driving(x) ==> x.id in Exec(s, ts).st.byID && Exec(s, ts).st.byID[x.id].retries == x.base + x.failures)
  {
    InitInv(s);
    RunKeeps(s, ts);
    var e := Exec(s, ts);
    assert DriverOk(e, e.drivers[d]) && Tied(e.st, e.drivers[d], e.late);
  }

  /** One step moves the status of a stored task along an edge of the graph or not at all. */
  lemma StepFollowsGraph(s: Sys, t: Step, id: string)
    requires Inv(s) && Enabled(s, t) && id in s.st.byID && id in Apply(s, t).st.byID
    ensures Allowed(s.st.byID[id].status, Apply(s, t).st.byID[id].status)
  {
    if t.Drive? {
      var d := s.drivers[t.d];
      assert DriverOk(s, d) && Tied(s.st, d, s.late);
    }
    assert s.st.byID[id].id == id;
  }

  /** The statuses a task goes through in a run, as long as it is stored. */
  ghost function Statuses(s: Sys, ts: seq<Step>, id: string): seq<Status>
    requires Run(s, ts)
    decreases |ts|
  {
    if id !in s.st.byID then []
    else if ts == [] then [s.st.byID[id].status]
    else [s.st.byID[id].status] + Statuses(Apply(s, ts[0]), ts[1..], id)
  }

  lemma {:induction false} PathFrom(s: Sys, ts: seq<Step>, id: string)
    requires Inv(s) && Run(s, ts)
    ensures Path(Statuses(s, ts, id))
    decreases |ts|
  {
    if id in s.st.byID && ts != [] {
      StepKeeps(s, ts[0]);
      var s' := Apply(s, ts[0]);
      PathFrom(s', ts[1..], id);
      if id in s'.st.byID { StepFollowsGraph(s, ts[0], id); }
    }
  }

  /** From any moment us of any run on, the status history of a task, whether it was loaded or created on the
    * way, is a path of the transition graph with repetitions. */
  lemma HistoryIsPath(s: Sys, us: seq<Step>, ts: seq<Step>, id: string)
    requires Init(s) && Run(s, us) && Run(Exec(s, us), ts)
    ensures Path(Statuses(Exec(s, us), ts, id))
  {
    InitInv(s);
    RunKeeps(s, us);
    PathFrom(Exec(s, us), ts, id);
  }

  lemma {:induction false} LastStatus(s: Sys, ts: seq<Step>, id: string)
    requires Run(s, ts) && |Statuses(s, ts, id)| == |ts| + 1
    ensures id in s.st.byID && Statuses(s, ts, id)[0] == s.st.byID[id].status
    ensures id in Exec(s, ts).st.byID && Statuses(s, ts, id)[|ts|] == Exec(s, ts).st.byID[id].status
    decreases |ts|
  {
    if ts != [] { LastStatus(Apply(s, ts[0]), ts[1..], id); }
  }

  /** Hence a task that is ready or dead at any moment us of any run has that status as long as it is stored. */
  lemma TerminalForever(s: Sys, us: seq<Step>, ts: seq<Step>, id: string, j: nat)
    requires Init(s) && Run(s, us) && Run(Exec(s, us), ts)
    requires id in Exec(s, us).st.byID && Terminal(Exec(s, us).st.byID[id].status)
    ensures j < |Statuses(Exec(s, us), ts, id)| ==> Statuses(Exec(s, us), ts, id)[j] == Exec(s, us).st.byID[id].status
    ensures |Statuses(Exec(s, us), ts, id)| == |ts| + 1 ==>
              var e := Exec(Exec(s, us), ts); id in e.st.byID && e.st.byID[id].status == Exec(s, us).st.byID[id].status
  {
    HistoryIsPath(s, us, ts, id);
    var h := Statuses(Exec(s, us), ts, id);
    if j < |h| { TerminalAbsorbs(h, 0, j); }
    if |h| == |ts| + 1 {
      LastStatus(Exec(s, us), ts, id);
      TerminalAbsorbs(h, 0, |ts|);
    }
  }
}
