/** A driver that nobody interferes with does what the sequential process loop does: the step machine of the
  * engine, restricted to one driver, refines it. */
module TaskEngineLone {
  import opened Wrappers
  import opened TaskState
  import opened TaskStore
  import opened TaskEngine
  import opened TaskProcess

  /** What the driver's next action meets: the fetch or the upload of the round it is in. */
  function Outcome(x: Driver, fetches: nat -> bool, uploads: nat -> bool): bool {
    if x.pc.AtFetch? then fetches(x.failures) else uploads(x.failures)
  }

  /** Only driver d acts, its n-th round meets the n-th fetch and the n-th upload. */
  ghost predicate Follows(s: Sys, ts: seq<Step>, d: nat, fetches: nat -> bool, uploads: nat -> bool)
    requires Run(s, ts)
    decreases |ts|
  {
    ts == [] ||
    (d < |s.drivers| && ts[0] == Drive(d, Outcome(s.drivers[d], fetches, uploads))
     && Follows(Apply(s, ts[0]), ts[1..], d, fetches, uploads))
  }

  /** How things stood when the driver started: its task, the other tasks, the objects, the guard. */
  datatype Start = Start(task: Task, byID: map<string, Task>, objects: set<string>, processing: set<string>)

  ghost predicate SameButStatus(t0: Task, t: Task, failures: nat) {
    && t.id == t0.id && t.family == t0.family && t.cacheKey == t0.cacheKey && t.maxRetries == t0.maxRetries
    && t.retries == t0.retries + failures
  }

  ghost predicate BadSoFar(n: nat, fetches: nat -> bool, uploads: nat -> bool) {
    forall i :: 0 <= i < n ==> !RoundOk(fetches, uploads, i)
  }

  /** A driver in its loop, at the round that its failures count. */
  ghost predicate InRound(x: Driver, t: Task, b: Start, objects: set<string>, fetches: nat -> bool, uploads: nat -> bool) {
    var n := x.failures;
    var key := StorageKeyFor(b.task.family, b.task.cacheKey);
    && n < RoundLimit(b.task)
    && (x.pc.AtRegistering? || x.pc.AtReady? ==> objects == b.objects + {key})
    && (!x.pc.AtRegistering? && !x.pc.AtReady? ==> objects == b.objects)
    && match x.pc
       case AtTop => Startable(t)
       case AtFetch => t.status.Downloading?
       case AtDownloaded => t.status.Downloading? && fetches(n)
       case AtUploading => t.status.Downloaded? && fetches(n)
       case AtUpload => t.status.Uploading? && fetches(n)
       case AtRegistering => t.status.Uploading? && RoundOk(fetches, uploads, n)
       case AtReady => t.status.Registering? && RoundOk(fetches, uploads, n)
       case AtFailed => (t.status.Downloading? || t.status.Uploading?) && !RoundOk(fetches, uploads, n)
       case AtSleep => t.status.Failed?
       case _ => false
  }

  /** Where the driver stands, told from its task. */
  ghost predicate Stands(x: Driver, t: Task, b: Start, objects: set<string>, fetches: nat -> bool, uploads: nat -> bool) {
    && SameButStatus(b.task, t, x.failures) && BadSoFar(x.failures, fetches, uploads)
    && match x.pc
       case AtGuard => x.failures == 0 && t == b.task && Startable(t) && objects == b.objects
       case AtGet => x.failures == 0 && t == b.task && Startable(t) && objects == b.objects
       case AtDead => x.local == t && x.failures == RoundLimit(b.task) && t.status.Failed? && objects == b.objects
       case AtCleanup => Ended(x, t, b, objects, fetches, uploads)
       case Done => Ended(x, t, b, objects, fetches, uploads)
       case _ => x.local == t && InRound(x, t, b, objects, fetches, uploads)
  }

  ghost predicate Midway(s: Sys, x: Driver, b: Start, fetches: nat -> bool, uploads: nat -> bool) {
    && x.id == b.task.id && x.id in s.st.byID && OthersKept(b.byID, s.st.byID, x.id)
    && s.processing == (if x.pc.AtGuard? || x.pc.Done? then b.processing else b.processing + {x.id})
    && Stands(x, s.st.byID[x.id], b, s.objects, fetches, uploads)
  }

  /** The rounds a driver went through: its failures, and a good one if its task is ready. */
  function RoundsDone(x: Driver, t: Task): nat {
    if t.status.Ready? then x.failures + 1 else x.failures
  }

  ghost predicate Ended(x: Driver, t: Task, b: Start, objects: set<string>, fetches: nat -> bool, uploads: nat -> bool) {
    Finished(b.task, t, RoundsDone(x, t), fetches, uploads, b.objects, objects)
  }

  /** What is left to do: rounds, then actions of the round. */
  ghost predicate Closer(x: Driver, y: Driver) {
    x.failures < y.failures || (x.failures == y.failures && Place(y.pc) < Place(x.pc))
  }

  function Place(pc: Pc): nat {
    match pc
    case AtGuard => 14
    case AtGet => 13
    case AtSleep => 12
    case AtTop => 11
    case AtFetch => 10
    case AtDownloaded => 9
    case AtUploading => 8
    case AtUpload => 7
    case AtRegistering => 6
    case AtReady => 5
    case AtFailed => 4
    case AtDead => 3
    case AtCleanup => 1
    case Done => 0
  }

  /** The task as a write leaves it. */
  function AsWritten(x: Driver, t: Task, now: int): Task
    requires NextWrite(x).Some?
  {
    NextWrite(x).value(t).(updatedAt := now)
  }

  lemma WriteOn(x: Driver, t: Task, now: int, b: Start, objects: set<string>, fetches: nat -> bool, uploads: nat -> bool)
    requires Stands(x, t, b, objects, fetches, uploads)
    requires x.pc.AtTop? || x.pc.AtDownloaded? || x.pc.AtUploading? || x.pc.AtRegistering?
    requires NextWrite(x).Some?
    ensures var w := AsWritten(x, t, now);
            Allowed(t.status, w.status) && Stands(AfterWrite(x, w), w, b, objects, fetches, uploads)
  {
  }

  lemma WriteReady(x: Driver, t: Task, now: int, b: Start, objects: set<string>, fetches: nat -> bool, uploads: nat -> bool)
    requires Stands(x, t, b, objects, fetches, uploads) && x.pc.AtReady?
    ensures var w := AsWritten(x, t, now);
            Allowed(t.status, w.status) && Stands(AfterWrite(x, w), w, b, objects, fetches, uploads)
  {
  }

  lemma WriteFailed(x: Driver, t: Task, now: int, b: Start, objects: set<string>, fetches: nat -> bool, uploads: nat -> bool)
    requires Stands(x, t, b, objects, fetches, uploads) && x.pc.AtFailed?
    ensures var w := AsWritten(x, t, now);
            Allowed(t.status, w.status) && Stands(AfterWrite(x, w), w, b, objects, fetches, uploads)
  {
    var w := AsWritten(x, t, now);
    var y := AfterWrite(x, w);
    assert BadSoFar(y.failures, fetches, uploads);
    assert SameButStatus(b.task, w, y.failures);
  }

  lemma WriteDead(x: Driver, t: Task, now: int, b: Start, objects: set<string>, fetches: nat -> bool, uploads: nat -> bool)
    requires Stands(x, t, b, objects, fetches, uploads) && x.pc.AtDead?
    ensures var w := AsWritten(x, t, now);
            Allowed(t.status, w.status) && Stands(AfterWrite(x, w), w, b, objects, fetches, uploads)
  {
    assert !RoundOk(fetches, uploads, x.failures - 1);
  }

  lemma WriteStands(x: Driver, t: Task, now: int, b: Start, objects: set<string>, fetches: nat -> bool, uploads: nat -> bool)
    requires Stands(x, t, b, objects, fetches, uploads) && NextWrite(x).Some?
    ensures var w := AsWritten(x, t, now);
            Allowed(t.status, w.status) && Stands(AfterWrite(x, w), w, b, objects, fetches, uploads)
  {
    match x.pc
    case AtReady => WriteReady(x, t, now, b, objects, fetches, uploads);
    case AtFailed => WriteFailed(x, t, now, b, objects, fetches, uploads);
    case AtDead => WriteDead(x, t, now, b, objects, fetches, uploads);
    case _ => WriteOn(x, t, now, b, objects, fetches, uploads);
  }

  lemma WriteLands(s: Sys, d: nat, ok: bool)
    requires d < |s.drivers| && NextWrite(s.drivers[d]).Some? && s.drivers[d].id in s.st.byID
    requires s.st.byID[s.drivers[d].id].id == s.drivers[d].id
    requires Allowed(s.st.byID[s.drivers[d].id].status, AsWritten(s.drivers[d], s.st.byID[s.drivers[d].id], s.clock).status)
    ensures var x := s.drivers[d]; var w := AsWritten(x, s.st.byID[x.id], s.clock); var e := DriveResult(s, d, ok);
            && e.st.byID == s.st.byID[x.id := w] && e.drivers == s.drivers[d := AfterWrite(x, w)]
            && e.objects == s.objects && e.processing == s.processing
  {
  }

  /** A write goes one place on and never from or to the guard. */
  lemma WriteCloser(x: Driver, w: Task)
    requires NextWrite(x).Some?
    ensures Closer(x, AfterWrite(x, w)) && AfterWrite(x, w).id == x.id
    ensures !x.pc.AtGuard? && !x.pc.Done? && !AfterWrite(x, w).pc.AtGuard? && !AfterWrite(x, w).pc.Done?
  {
  }

  lemma WriteStep(s: Sys, d: nat, b: Start, fetches: nat -> bool, uploads: nat -> bool)
    requires d < |s.drivers| && NextWrite(s.drivers[d]).Some?
    requires Midway(s, s.drivers[d], b, fetches, uploads)
    ensures var e := DriveResult(s, d, Outcome(s.drivers[d], fetches, uploads));
            && |e.drivers| == |s.drivers| && Midway(e, e.drivers[d], b, fetches, uploads) && Closer(s.drivers[d], e.drivers[d])
  {
    var x := s.drivers[d];
    var t := s.st.byID[x.id];
    WriteStands(x, t, s.clock, b, s.objects, fetches, uploads);
    WriteLands(s, d, Outcome(x, fetches, uploads));
    WriteCloser(x, AsWritten(x, t, s.clock));
  }

  lemma QuietStands(s: Sys, x: Driver, b: Start, fetches: nat -> bool, uploads: nat -> bool)
    requires !x.pc.Done? && NextWrite(x).None? && x.id in s.st.byID && (x.pc.AtGuard? ==> x.id !in s.processing)
    requires Stands(x, s.st.byID[x.id], b, s.objects, fetches, uploads)
    ensures var ok := Outcome(x, fetches, uploads); var y := AfterQuiet(s, x, ok);
            && Stands(y, s.st.byID[x.id], b,
                      if x.pc.AtUpload? && ok then s.objects + {StorageKeyFor(x.local.family, x.local.cacheKey)} else s.objects,
                      fetches, uploads)
            && Closer(x, y) && y.id == x.id && (y.pc.Done? <==> x.pc.AtCleanup?) && !y.pc.AtGuard?
  {
    assert RoundOk(fetches, uploads, x.failures) == (fetches(x.failures) && uploads(x.failures));
  }

  lemma QuietStep(s: Sys, d: nat, b: Start, fetches: nat -> bool, uploads: nat -> bool)
    requires d < |s.drivers| && !s.drivers[d].pc.Done? && NextWrite(s.drivers[d]).None? && b.task.id !in b.processing
    requires Midway(s, s.drivers[d], b, fetches, uploads)
    ensures var e := DriveResult(s, d, Outcome(s.drivers[d], fetches, uploads));
            && |e.drivers| == |s.drivers| && Midway(e, e.drivers[d], b, fetches, uploads) && Closer(s.drivers[d], e.drivers[d])
  {
    QuietStands(s, s.drivers[d], b, fetches, uploads);
  }

  lemma LoneStep(s: Sys, d: nat, b: Start, fetches: nat -> bool, uploads: nat -> bool)
    requires d < |s.drivers| && !s.drivers[d].pc.Done? && b.task.id !in b.processing
    requires Midway(s, s.drivers[d], b, fetches, uploads)
    ensures var e := DriveResult(s, d, Outcome(s.drivers[d], fetches, uploads));
            && |e.drivers| == |s.drivers| && Midway(e, e.drivers[d], b, fetches, uploads) && Closer(s.drivers[d], e.drivers[d])
  {
    if NextWrite(s.drivers[d]).Some? {
      WriteStep(s, d, b, fetches, uploads);
    } else {
      QuietStep(s, d, b, fetches, uploads);
    }
  }

  lemma {:induction false} LoneKeeps(s: Sys, ts: seq<Step>, d: nat, b: Start, fetches: nat -> bool, uploads: nat -> bool)
    requires d < |s.drivers| && b.task.id !in b.processing && Midway(s, s.drivers[d], b, fetches, uploads)
    requires Run(s, ts) && Follows(s, ts, d, fetches, uploads)
    ensures d < |Exec(s, ts).drivers| && Midway(Exec(s, ts), Exec(s, ts).drivers[d], b, fetches, uploads)
    decreases |ts|
  {
    if ts != [] {
      LoneStep(s, d, b, fetches, uploads);
      LoneKeeps(Apply(s, ts[0]), ts[1..], d, b, fetches, uploads);
    }
  }

  lemma FailuresBounded(s: Sys, x: Driver, b: Start, fetches: nat -> bool, uploads: nat -> bool)
    requires Midway(s, x, b, fetches, uploads)
    ensures x.failures <= RoundLimit(b.task)
  {
  }

  lemma {:induction false} LoneEnds(s: Sys, d: nat, b: Start, fetches: nat -> bool, uploads: nat -> bool)
    returns (ts: seq<Step>)
    requires d < |s.drivers| && b.task.id !in b.processing && Midway(s, s.drivers[d], b, fetches, uploads)
    ensures Run(s, ts) && Follows(s, ts, d, fetches, uploads)
    ensures d < |Exec(s, ts).drivers| && Exec(s, ts).drivers[d].pc.Done?
    decreases RoundLimit(b.task) - s.drivers[d].failures, Place(s.drivers[d].pc)
  {
    if s.drivers[d].pc.Done? { return []; }
    var t := Drive(d, Outcome(s.drivers[d], fetches, uploads));
    LoneStep(s, d, b, fetches, uploads);
    FailuresBounded(s, s.drivers[d], b, fetches, uploads);
    var e := Apply(s, t);
    FailuresBounded(e, e.drivers[d], b, fetches, uploads);
    var rest := LoneEnds(e, d, b, fetches, uploads);
    ts := [t] + rest;
    assert ts[1..] == rest;
  }

  /** A fresh driver of a task that can be started and that nobody drives. */
  ghost predicate FreshDriver(s: Sys, d: nat) {
    && d < |s.drivers| && s.drivers[d] == Spawned(s.drivers[d].id) && s.drivers[d].id !in s.processing
    && s.drivers[d].id in s.st.byID && s.st.byID[s.drivers[d].id].id == s.drivers[d].id
    && Startable(s.st.byID[s.drivers[d].id])
  }

  /** Whatever its fetches and uploads do, a driver left alone comes to an end. Then its task is ready after its
    * first good round or dead because none of the rounds it is allowed was good, the retries count the bad
    * rounds, the object is stored if and only if the task is ready, and nothing else has changed. */
  lemma LoneDriver(s: Sys, d: nat, fetches: nat -> bool, uploads: nat -> bool) returns (ts: seq<Step>)
    requires FreshDriver(s, d)
    ensures Run(s, ts) && Follows(s, ts, d, fetches, uploads)
    ensures d < |Exec(s, ts).drivers| && Exec(s, ts).drivers[d].pc.Done?
    ensures LeftAsProcess(s, Exec(s, ts), d, fetches, uploads)
  {
    var id := s.drivers[d].id;
    var b := Start(s.st.byID[id], s.st.byID, s.objects, s.processing);
    ts := LoneEnds(s, d, b, fetches, uploads);
    LoneKeeps(s, ts, d, b, fetches, uploads);
  }

  /** The promise of the sequential process about its task, the other tasks and its guard. */
  ghost predicate LeftAsProcess(s: Sys, e: Sys, d: nat, fetches: nat -> bool, uploads: nat -> bool)
    requires FreshDriver(s, d)
  {
    var id := s.drivers[d].id;
    && e.processing == s.processing && OthersKept(s.st.byID, e.st.byID, id) && id in e.st.byID
    && exists rounds: nat ::
         Finished(s.st.byID[id], e.st.byID[id], rounds, fetches, uploads, s.objects, e.objects)
  }

  /** And however far such a schedule is carried, it can only end that way. */
  lemma LoneDriverOnly(s: Sys, ts: seq<Step>, d: nat, fetches: nat -> bool, uploads: nat -> bool)
    requires FreshDriver(s, d) && Run(s, ts) && Follows(s, ts, d, fetches, uploads)
    ensures d < |Exec(s, ts).drivers|
    ensures Exec(s, ts).drivers[d].pc.Done? ==> LeftAsProcess(s, Exec(s, ts), d, fetches, uploads)
  {
    var id := s.drivers[d].id;
    LoneKeeps(s, ts, d, Start(s.st.byID[id], s.st.byID, s.objects, s.processing), fetches, uploads);
  }
}
