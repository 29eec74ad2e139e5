/** The resumable parallel range download of internal/client/downloader/chunk.go (runChunked) as a
  * step machine: workers, publisher, URL refresh, bitmap, and a crash that may come at any moment.
  * File, persisted bitmap and process memory are separate parts of the state. */
module RangeDownload {
  import opened Wrappers
  import opened Chunks

  /** What the remote side is trusted for. A 206 body is never longer than the requested range and a
    * body of full length is the range itself. With prefixBodies a shorter body is a prefix of the
    * range too; without it a cut-off body may hold anything. onlyChunk is the chunk size that every
    * run uses, or None when it may change between runs. */
  datatype Origin = Origin(content: Bytes, prefixBodies: bool, onlyChunk: Option<int>)

  ghost predicate Trustworthy(o: Origin) {
    |o.content| > 0 && (o.prefixBodies || o.onlyChunk.Some?)
  }

  ghost predicate ChunkAllowed(o: Origin, chunk: int) {
    chunk > 0 && (o.onlyChunk.Some? ==> chunk == o.onlyChunk.value)
  }

  /** The persisted resume state (partMeta), without its hash and ETag, which the code never compares. */
  datatype Meta = Meta(url: string, size: int, chunk: int, done: seq<bool>)

  datatype Worker =
    | Idle                                                   // waits for a job
    | Got(idx: nat)                                          // received a job, has not looked at abort yet
    | Trying(idx: nat, tries: nat)                           // top of the retry loop, tries failures so far
    | Asking(idx: nat, tries: nat, url: string)              // read the URL, request under way
    | Copying(idx: nat, tries: nat, body: Bytes, n: nat)     // n bytes of the body are in the file
    | Copied(idx: nat)                                       // full copy, lock not taken yet
    | Exited

  datatype Publisher = Feeding | Closed | Gone

  datatype Main = Opening | Selecting | Draining | Saving | ReturnedOk | ReturnedErr

  /** One running process. queued counts the errors in the channel, posted all errors ever sent to it,
    * lost the jobs that a worker took and gave up. */
  datatype Proc = Proc(plan: Plan, concurrency: nat, url: string, done: seq<bool>, progress: int,
                       workers: seq<Worker>, next: nat, publisher: Publisher, abort: bool, cancelled: bool,
                       queued: nat, posted: nat, lost: set<nat>, main: Main)

  datatype Sys = Sys(file: Bytes, meta: Option<Meta>, proc: Option<Proc>)

  const MAX_TRIES: nat := 4

  datatype Step =
    | Launch(url: string, chunk: int, concurrency: int)
    | Crash
    | OpenFail
    | Truncate
    | Publish(w: nat)
    | Skip
    | CloseJobs
    | PublisherAbort
    | Check(w: nat)
    | Leave(w: nat)
    | CtxSeen(w: nat)
    | Ask(w: nat, url: string)
    | SendFail(w: nat)
    | Refresh(w: nat, renewed: Option<string>)
    | Fatal(w: nat)
    | Body(w: nat, body: Bytes)
    | Write(w: nat, k: nat)
    | CopyFail(w: nat)
    | CopyEnd(w: nat)
    | Commit(w: nat, saved: bool)
    | GiveUp(w: nat, silent: bool)
    | Cancel
    | MainErr
    | MainCtx
    | MainFinished
    | MainDrained
    | MainSave(saved: bool)

  /** The chunk a worker is responsible for, or -1. */
  function JobOf(x: Worker): int {
    match x
    case Idle => -1
    case Exited => -1
    case Got(idx) => idx
    case Trying(idx, _) => idx
    case Asking(idx, _, _) => idx
    case Copying(idx, _, _, _) => idx
    case Copied(idx) => idx
  }

  function WantLen(p: Plan, idx: nat): int {
    ChunkLen(p, idx)
  }

  ghost predicate BodyOk(o: Origin, p: Plan, idx: nat, body: Bytes) {
    && 0 <= Start(p, idx) <= End(p, idx) <= |o.content|
    && |body| <= WantLen(p, idx)
    && (|body| == WantLen(p, idx) ==> body == o.content[Start(p, idx)..End(p, idx)])
    && (o.prefixBodies ==> body <= o.content[Start(p, idx)..End(p, idx)])
  }

  /** Truncate to the planned size: cut, or extend with zero bytes. */
  function Resize(file: Bytes, size: nat): Bytes {
    if size <= |file| then file[..size] else file + seq(size - |file|, i => 0)
  }

  function Patch(file: Bytes, off: nat, piece: Bytes): Bytes {
    if off + |piece| <= |file| then file[..off] + piece + file[off + |piece|..] else file
  }

  ghost predicate Loadable(m: Option<Meta>, p: Plan) {
    m.Some? && m.value.size == p.size && m.value.chunk == p.chunk && |m.value.done| == Count(p)
  }

  ghost predicate AllDone(done: seq<bool>) {
    forall i :: 0 <= i < |done| ==> done[i]
  }

  /** The bitmap a run starts with: the persisted one when it fits the plan, otherwise a blank one. */
  ghost function LoadDone(m: Option<Meta>, p: Plan): (done: seq<bool>)
    ensures |done| == Count(p)
  {
    if Loadable(m, p) then m.value.done else seq(Count(p), i => false)
  }

  /** Entering runChunked. A complete bitmap returns at once, before the file is opened. */
  ghost function NewProc(m: Option<Meta>, p: Plan, url: string, concurrency: int): Proc {
    var done := LoadDone(m, p);
    var n := if concurrency < 1 then 1 else concurrency;
    Proc(p, n, url, done, DoneBytes(p, done, |done|), [], 0, Feeding, false, false, 0, 0, {},
         if AllDone(done) then ReturnedOk else Opening)
  }

  function SaveMeta(p: Proc): Option<Meta> {
    Some(Meta(p.url, p.plan.size, p.plan.chunk, p.done))
  }

  function SetWorker(p: Proc, w: nat, x: Worker): Proc {
    if w < |p.workers| then p.(workers := p.workers[w := x]) else p
  }

  /** A worker sends an error, closes abort and returns; its job is lost. */
  function Die(p: Proc, w: nat, idx: nat): Proc {
    SetWorker(p.(queued := p.queued + 1, posted := p.posted + 1, abort := true, lost := p.lost + {idx}), w, Exited)
  }

  ghost predicate IsTrying(p: Proc, w: nat) {
    w < |p.workers| && p.workers[w].Trying? && p.workers[w].tries < MAX_TRIES
  }

  ghost predicate IsAsking(p: Proc, w: nat) {
    w < |p.workers| && p.workers[w].Asking?
  }

  ghost predicate IsCopying(p: Proc, w: nat) {
    w < |p.workers| && p.workers[w].Copying?
  }

  ghost predicate AllExited(ws: seq<Worker>) {
    forall w :: 0 <= w < |ws| ==> ws[w].Exited?
  }

  ghost predicate Enabled(o: Origin, s: Sys, t: Step) {
    if t.Launch? then s.proc.None? && ChunkAllowed(o, t.chunk)
    else if t.Crash? then s.proc.Some?
    else s.proc.Some? && ProcEnabled(o, s.file, s.proc.value, t)
  }

  ghost predicate ProcEnabled(o: Origin, file: Bytes, p: Proc, t: Step) {
    match t
    case Launch(_, _, _) => false
    case Crash => false
    case OpenFail => p.main.Opening?
    case Truncate => p.main.Opening?
    case Publish(w) =>
      p.publisher.Feeding? && p.next < |p.done| && !p.done[p.next] && w < |p.workers| && p.workers[w].Idle?
    case Skip => p.workers != [] && p.publisher.Feeding? && p.next < |p.done| && p.done[p.next]
    case CloseJobs => p.workers != [] && p.publisher.Feeding? && p.next >= |p.done|
    case PublisherAbort => p.publisher.Feeding? && p.next < |p.done| && !p.done[p.next] && p.abort
    case Check(w) => w < |p.workers| && p.workers[w].Got?
    case Leave(w) => w < |p.workers| && p.workers[w].Idle? && p.publisher.Closed?
    case CtxSeen(w) => IsTrying(p, w) && p.cancelled
    case Ask(w, url) => IsTrying(p, w) && url == p.url
    case SendFail(w) => IsAsking(p, w)
    case Refresh(w, _) => IsAsking(p, w)
    case Fatal(w) => IsAsking(p, w)
    case Body(w, body) => IsAsking(p, w) && BodyOk(o, p.plan, p.workers[w].idx, body)
    case Write(w, k) => IsCopying(p, w) && k > 0 && p.workers[w].n + k <= |p.workers[w].body|
    case CopyFail(w) => IsCopying(p, w)
    case CopyEnd(w) => IsCopying(p, w) && p.workers[w].n == |p.workers[w].body|
    case Commit(w, _) => w < |p.workers| && p.workers[w].Copied?
    case GiveUp(w, silent) =>
      w < |p.workers| && p.workers[w].Trying? && p.workers[w].tries >= MAX_TRIES && (silent ==> p.abort)
    case Cancel => !p.cancelled
    case MainErr => p.main.Selecting? && p.queued > 0
    case MainCtx => p.main.Selecting? && p.cancelled
    case MainFinished => p.main.Selecting? && AllExited(p.workers)
    case MainDrained => p.main.Draining? && AllExited(p.workers)
    case MainSave(_) => p.main.Saving?
  }

  ghost function Apply(o: Origin, s: Sys, t: Step): Sys
    requires Enabled(o, s, t)
  {
    if t.Launch? then s.(proc := Some(NewProc(s.meta, Plan(|o.content|, t.chunk), t.url, t.concurrency)))
    else if t.Crash? then s.(proc := None)
    else if t.Truncate? then
      var p := s.proc.value;
      s.(file := Resize(s.file, |o.content|),
         proc := Some(p.(workers := seq(p.concurrency, i => Idle), main := Selecting)))
    else if t.Write? then
      var p := s.proc.value;
      var x := p.workers[t.w];
      s.(file := WriteFile(s.file, p.plan, x, t.k), proc := Some(SetWorker(p, t.w, x.(n := x.n + t.k))))
    else if t.Commit? then
      var p := Marked(s.proc.value, t.w);
      if t.saved then Sys(s.file, SaveMeta(p), Some(SetWorker(p, t.w, Idle)))
      else s.(proc := Some(SetWorker(p.(queued := p.queued + 1, posted := p.posted + 1, abort := true), t.w, Exited)))
    else if t.MainSave? then
      var p := s.proc.value;
      if t.saved then Sys(s.file, SaveMeta(p), Some(p.(main := ReturnedOk)))
      else s.(proc := Some(p.(main := ReturnedErr)))
    else s.(proc := Some(ProcStep(s.proc.value, t)))
  }

  function WriteFile(file: Bytes, p: Plan, x: Worker, k: nat): Bytes
    requires x.Copying? && x.n + k <= |x.body|
  {
    var off := Start(p, x.idx) + x.n;
    if off < 0 then file else Patch(file, off, x.body[x.n..x.n + k])
  }

  /** The critical section of a worker that copied its whole chunk, before the save. */
  function Marked(p: Proc, w: nat): Proc
    requires w < |p.workers| && p.workers[w].Copied?
  {
    var idx := p.workers[w].idx;
    if idx < |p.done| then p.(done := p.done[idx := true], progress := p.progress + WantLen(p.plan, idx)) else p
  }

  function Retry(p: Proc, w: nat): Proc
    requires w < |p.workers| && (p.workers[w].Asking? || p.workers[w].Copying?)
  {
    SetWorker(p, w, Trying(p.workers[w].idx, p.workers[w].tries + 1))
  }

  /** The steps that touch neither the file nor the persisted bitmap. */
  ghost function ProcStep(p: Proc, t: Step): Proc
    requires !t.Launch? && !t.Crash? && !t.Truncate? && !t.Write? && !t.Commit? && !t.MainSave?
    requires t.Publish? || t.Check? || t.Leave? ==> t.w < |p.workers|
    requires t.Check? ==> p.workers[t.w].Got?
    requires t.Ask? || t.CtxSeen? ==> IsTrying(p, t.w)
    requires t.SendFail? || t.Refresh? || t.Body? || t.Fatal? ==> IsAsking(p, t.w)
    requires t.CopyFail? || t.CopyEnd? ==> IsCopying(p, t.w)
    requires t.GiveUp? ==> t.w < |p.workers| && p.workers[t.w].Trying?
    requires t.MainErr? ==> p.queued > 0
  {
    match t
    case OpenFail => p.(main := ReturnedErr)
    case Publish(w) => SetWorker(p.(next := p.next + 1), w, Got(p.next))
    case Skip => p.(next := p.next + 1)
    case CloseJobs => p.(publisher := Closed)
    case PublisherAbort => p.(publisher := Gone)
    case Check(w) =>
      var idx := p.workers[w].idx;
      if p.abort then SetWorker(p.(lost := p.lost + {idx}), w, Exited) else SetWorker(p, w, Trying(idx, 0))
    case Leave(w) => SetWorker(p, w, Exited)
    case CtxSeen(w) => Die(p, w, p.workers[w].idx)
    case Fatal(w) => Die(p, w, p.workers[w].idx)
    case Ask(w, url) => SetWorker(p, w, Asking(p.workers[w].idx, p.workers[w].tries, url))
    case SendFail(w) => Retry(p, w)
    case Refresh(w, renewed) => Retry(if renewed.Some? then p.(url := renewed.value) else p, w)
    case Body(w, body) => SetWorker(p, w, Copying(p.workers[w].idx, p.workers[w].tries, body, 0))
    case CopyFail(w) => Retry(p, w)
    case CopyEnd(w) =>
      if |p.workers[w].body| == WantLen(p.plan, p.workers[w].idx)
      then SetWorker(p, w, Copied(p.workers[w].idx)) else Retry(p, w)
    case GiveUp(w, silent) =>
      var idx := p.workers[w].idx;
      if silent then SetWorker(p.(lost := p.lost + {idx}), w, Exited) else Die(p, w, idx)
    case Cancel => p.(cancelled := true)
    case MainErr => p.(queued := p.queued - 1, abort := true, main := Draining)
    case MainCtx => p.(abort := true, main := Draining)
    case MainFinished => p.(main := Saving)
    case MainDrained => p.(main := ReturnedErr)
    case _ => p
  }

  /** Any bitmap left behind by earlier content of another size is allowed; a bitmap that a run over
    * this content could load must be blank. */
  ghost predicate Init(o: Origin, s: Sys) {
    && s.proc.None?
    && (forall chunk :: chunk > 0 && Loadable(s.meta, Plan(|o.content|, chunk)) ==>
          forall i :: 0 <= i < |s.meta.value.done| ==> !s.meta.value.done[i])
  }

  ghost predicate Run(o: Origin, s: Sys, ts: seq<Step>)
    decreases |ts|
  {
    ts == [] || (Enabled(o, s, ts[0]) && Run(o, Apply(o, s, ts[0]), ts[1..]))
  }

  ghost function Exec(o: Origin, s: Sys, ts: seq<Step>): Sys
    requires Run(o, s, ts)
    decreases |ts|
  {
    if ts == [] then s else Exec(o, Apply(o, s, ts[0]), ts[1..])
  }
}
