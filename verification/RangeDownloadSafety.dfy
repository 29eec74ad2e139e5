/** What every interleaving of the range download keeps: the persisted bitmap only claims chunks whose
  * bytes are in the file, no chunk is fetched twice, and a clean run leaves the whole remote content. */
module RangeDownloadSafety {
  import opened Wrappers
  import opened Chunks
  import opened RangeDownload

  // ----- the invariant -----

  ghost predicate RightUpTo(content: Bytes, file: Bytes, lo: int, hi: int) {
    0 <= lo && hi <= |content| && hi <= |file| && forall at :: lo <= at < hi ==> file[at] == content[at]
  }

  ghost predicate ChunkRight(o: Origin, file: Bytes, p: Plan, i: nat) {
    |file| == |o.content| && RightUpTo(o.content, file, Start(p, i), End(p, i))
  }

  /** Each set bit of a bitmap names a chunk whose region of the file holds exactly the remote bytes. */
  ghost predicate BitsRight(o: Origin, file: Bytes, p: Plan, done: seq<bool>) {
    forall i :: 0 <= i < |done| && done[i] ==> ChunkRight(o, file, p, i)
  }

  /** The same for the persisted bitmap, if some run over this content could load it. */
  ghost predicate PersistedRight(o: Origin, file: Bytes, meta: Option<Meta>) {
    meta.Some? ==>
      var p := Plan(|o.content|, meta.value.chunk);
      p.chunk > 0 && Loadable(meta, p) ==>
        && BitsRight(o, file, p, meta.value.done)
        && (forall i :: 0 <= i < |meta.value.done| && meta.value.done[i] ==> ChunkAllowed(o, p.chunk))
  }

  ghost predicate InFlight(ws: seq<Worker>, i: int) {
    exists w :: 0 <= w < |ws| && JobOf(ws[w]) == i
  }

  /** Jobs are chunks that were published, are not done and not lost; no two workers share one. */
  ghost predicate JobsSound(ws: seq<Worker>, next: nat, done: seq<bool>, lost: set<nat>) {
    && (forall w :: 0 <= w < |ws| && JobOf(ws[w]) >= 0 ==> JobSound(JobOf(ws[w]), next, done, lost))
    && (forall v, w :: 0 <= v < w < |ws| && JobOf(ws[v]) >= 0 ==> JobOf(ws[v]) != JobOf(ws[w]))
  }

  ghost predicate JobSound(i: int, next: nat, done: seq<bool>, lost: set<nat>) {
    0 <= i < next && i < |done| && !done[i] && i !in lost
  }

  /** Every published chunk is done, lost, or in flight. */
  ghost predicate Accounted(ws: seq<Worker>, next: nat, done: seq<bool>, lost: set<nat>) {
    && (forall i :: 0 <= i < next && i < |done| ==> done[i] || i in lost || InFlight(ws, i))
    && (forall i :: i in lost ==> i < next && i < |done| && !done[i])
  }

  ghost predicate Jobs(p: Proc) {
    JobsSound(p.workers, p.next, p.done, p.lost) && Accounted(p.workers, p.next, p.done, p.lost)
  }

  ghost predicate CopyRight(o: Origin, file: Bytes, p: Plan, x: Worker) {
    && (x.Copying? ==>
          && BodyOk(o, p, x.idx, x.body) && x.n <= |x.body|
          && End(p, x.idx) <= |file|
          && forall k :: 0 <= k < x.n ==> file[Start(p, x.idx) + k] == x.body[k])
    && (x.Copied? ==> ChunkRight(o, file, p, x.idx))
  }

  ghost predicate CopiesRight(o: Origin, file: Bytes, p: Plan, ws: seq<Worker>) {
    forall w :: 0 <= w < |ws| ==> CopyRight(o, file, p, ws[w])
  }

  ghost predicate Shape(o: Origin, file: Bytes, p: Proc) {
    && p.plan.size == |o.content| && ChunkAllowed(o, p.plan.chunk)
    && |p.done| == Count(p.plan) && p.next <= |p.done| && p.concurrency > 0
    && p.progress == DoneBytes(p.plan, p.done, |p.done|)
    && (p.workers != [] ==> |file| == |o.content|)
    && (p.workers == [] ==>
          p.next == 0 && p.publisher.Feeding? && p.lost == {} && p.posted == p.queued == 0 && !p.abort)
    && p.queued <= p.posted
  }

  /** How the control states depend on each other. */
  ghost predicate Flow(p: Proc) {
    && (p.abort ==> p.posted > 0 || p.cancelled)
    && (p.lost != {} ==> p.abort)
    && (p.publisher.Closed? ==> p.next == |p.done|)
    && (p.publisher.Gone? ==> p.abort)
    && (forall w :: 0 <= w < |p.workers| && p.workers[w].Exited? ==> p.publisher.Closed? || p.abort)
    && (p.main.Opening? ==> p.workers == [])
    && (p.main.Selecting? || p.main.Draining? || p.main.Saving? ==> p.workers != [])
    && (p.main.Saving? || p.main.ReturnedOk? ==> AllExited(p.workers))
    && (p.main.ReturnedOk? && p.workers == [] ==> AllDone(p.done))
    && (p.main.ReturnedErr? ==> AllExited(p.workers))
  }

  ghost predicate Resumes(meta: Option<Meta>, p: Proc) {
    Loadable(meta, p.plan) ==>
      forall i :: 0 <= i < |meta.value.done| && i < |p.done| && meta.value.done[i] ==> p.done[i]
  }

  ghost predicate ProcInv(o: Origin, file: Bytes, meta: Option<Meta>, p: Proc) {
    && Shape(o, file, p)
    && BitsRight(o, file, p.plan, p.done)
    && Jobs(p)
    && CopiesRight(o, file, p.plan, p.workers)
    && Flow(p)
    && Resumes(meta, p)
  }

  ghost predicate Inv(o: Origin, s: Sys) {
    && PersistedRight(o, s.file, s.meta)
    && (s.proc.Some? ==> ProcInv(o, s.file, s.meta, s.proc.value))
  }

  // ----- changing one worker -----

  /** The job of the changed worker stays the same. */
  lemma KeepJob(p: Proc, w: nat, x: Worker)
    requires w < |p.workers| && JobOf(p.workers[w]) == JobOf(x) && Jobs(p)
    ensures Jobs(SetWorker(p, w, x))
  {
    var q := SetWorker(p, w, x);
    assert forall v :: 0 <= v < |p.workers| ==> JobOf(q.workers[v]) == JobOf(p.workers[v]);
    forall i | 0 <= i < p.next && i < |p.done| && InFlight(p.workers, i)
      ensures InFlight(q.workers, i)
    {
      var v :| 0 <= v < |p.workers| && JobOf(p.workers[v]) == i;
      assert JobOf(q.workers[v]) == i;
    }
  }

  lemma OthersInFlight(p: Proc, q: Proc, w: nat)
    requires w < |p.workers| == |q.workers|
    requires forall v :: 0 <= v < |p.workers| && v != w ==> q.workers[v] == p.workers[v]
    ensures forall i :: i != JobOf(p.workers[w]) && InFlight(p.workers, i) ==> InFlight(q.workers, i)
  {
    forall i | i != JobOf(p.workers[w]) && InFlight(p.workers, i)
      ensures InFlight(q.workers, i)
    {
      var v :| 0 <= v < |p.workers| && JobOf(p.workers[v]) == i;
      assert JobOf(q.workers[v]) == i;
    }
  }

  /** The changed worker gives its job up, which is recorded as lost. */
  lemma DropJob(p: Proc, w: nat)
    requires w < |p.workers| && JobOf(p.workers[w]) >= 0 && Jobs(p)
    ensures Jobs(SetWorker(p.(lost := p.lost + {JobOf(p.workers[w])}), w, Exited))
  {
    var j := JobOf(p.workers[w]);
    var q := SetWorker(p.(lost := p.lost + {j}), w, Exited);
    forall v | 0 <= v < |q.workers| && JobOf(q.workers[v]) >= 0
      ensures JobSound(JobOf(q.workers[v]), q.next, q.done, q.lost)
    {
      assert v != w && JobOf(p.workers[v]) != j;
      assert JobSound(JobOf(p.workers[v]), p.next, p.done, p.lost);
    }
    assert JobSound(j, p.next, p.done, p.lost);
    OthersInFlight(p, q, w);
  }

  /** A worker that holds no job leaves. */
  lemma LeaveJobless(p: Proc, w: nat)
    requires w < |p.workers| && JobOf(p.workers[w]) < 0 && Jobs(p)
    ensures Jobs(SetWorker(p, w, Exited))
  {
    OthersInFlight(p, SetWorker(p, w, Exited), w);
  }

  lemma TakeJob(p: Proc, w: nat)
    requires w < |p.workers| && p.workers[w].Idle? && p.next < |p.done| && !p.done[p.next] && Jobs(p)
    ensures Jobs(SetWorker(p.(next := p.next + 1), w, Got(p.next)))
  {
    var q := SetWorker(p.(next := p.next + 1), w, Got(p.next));
    forall v | 0 <= v < |q.workers| && JobOf(q.workers[v]) >= 0
      ensures JobSound(JobOf(q.workers[v]), q.next, q.done, q.lost) && (v != w ==> JobOf(q.workers[v]) < p.next)
    {
      if v != w { assert JobSound(JobOf(p.workers[v]), p.next, p.done, p.lost); }
    }
    OthersInFlight(p, q, w);
    assert JobOf(q.workers[w]) == p.next;
    assert InFlight(q.workers, p.next);
  }

  lemma SkipDone(p: Proc)
    requires p.next < |p.done| && p.done[p.next] && Jobs(p)
    ensures Jobs(p.(next := p.next + 1))
  {
    forall w | 0 <= w < |p.workers| && JobOf(p.workers[w]) >= 0
      ensures JobSound(JobOf(p.workers[w]), p.next + 1, p.done, p.lost)
    {
      assert JobSound(JobOf(p.workers[w]), p.next, p.done, p.lost);
    }
  }

  /** The critical section of a finished copy: the bit is set, the job is over. */
  lemma FinishJob(p: Proc, w: nat, x: Worker)
    requires w < |p.workers| && p.workers[w].Copied? && JobOf(x) < 0 && Jobs(p)
    ensures p.workers[w].idx < |p.done| && !p.done[p.workers[w].idx]
    ensures Jobs(SetWorker(Marked(p, w), w, x))
  {
    var j := p.workers[w].idx;
    assert JobOf(p.workers[w]) == j;
    assert JobSound(j, p.next, p.done, p.lost);
    var q := SetWorker(Marked(p, w), w, x);
    forall v | 0 <= v < |q.workers| && JobOf(q.workers[v]) >= 0
      ensures JobSound(JobOf(q.workers[v]), q.next, q.done, q.lost)
    {
      assert v != w && JobOf(p.workers[v]) != j;
      assert JobSound(JobOf(p.workers[v]), p.next, p.done, p.lost);
    }
    OthersInFlight(p, q, w);
  }

  lemma ReplaceCopy(o: Origin, file: Bytes, p: Plan, ws: seq<Worker>, w: nat, x: Worker)
    requires w < |ws| && CopiesRight(o, file, p, ws) && CopyRight(o, file, p, x)
    ensures CopiesRight(o, file, p, ws[w := x])
  {
  }

  // ----- each kind of step keeps the invariant -----

  /** After CopyEnd with a full body the whole region is right. */
  lemma FullCopy(o: Origin, file: Bytes, p: Plan, x: Worker)
    requires x.Copying? && CopyRight(o, file, p, x) && x.n == |x.body| == WantLen(p, x.idx)
    requires |file| == |o.content|
    ensures ChunkRight(o, file, p, x.idx)
  {
    forall at | Start(p, x.idx) <= at < End(p, x.idx)
      ensures file[at] == o.content[at]
    {
      var k := at - Start(p, x.idx);
      assert file[Start(p, x.idx) + k] == x.body[k];
    }
  }

  lemma NextAttemptState(o: Origin, s: Sys, t: Step)
    requires s.proc.Some? && Enabled(o, s, t) && |s.file| == |o.content|
    requires CopiesRight(o, s.file, s.proc.value.plan, s.proc.value.workers)
    requires t.Ask? || t.SendFail? || t.Refresh? || t.CopyFail? || t.Body?
    ensures CopyRight(o, s.file, s.proc.value.plan, Apply(o, s, t).proc.value.workers[t.w])
  {
    if t.Body? { assert BodyOk(o, s.proc.value.plan, s.proc.value.workers[t.w].idx, t.body); }
  }

  lemma NextCopiedState(o: Origin, s: Sys, t: Step)
    requires s.proc.Some? && Enabled(o, s, t) && |s.file| == |o.content|
    requires CopiesRight(o, s.file, s.proc.value.plan, s.proc.value.workers)
    requires t.CopyEnd?
    ensures CopyRight(o, s.file, s.proc.value.plan, Apply(o, s, t).proc.value.workers[t.w])
  {
    var p := s.proc.value;
    var x := p.workers[t.w];
    assert CopyRight(o, s.file, p.plan, x);
    if |x.body| == WantLen(p.plan, x.idx) { FullCopy(o, s.file, p.plan, x); }
  }

  lemma NextCopyState(o: Origin, s: Sys, t: Step)
    requires s.proc.Some? && Enabled(o, s, t) && |s.file| == |o.content|
    requires CopiesRight(o, s.file, s.proc.value.plan, s.proc.value.workers)
    requires t.Ask? || t.SendFail? || t.Refresh? || t.Body? || t.CopyFail? || t.CopyEnd?
    ensures CopyRight(o, s.file, s.proc.value.plan, Apply(o, s, t).proc.value.workers[t.w])
  {
    if t.CopyEnd? { NextCopiedState(o, s, t); } else { NextAttemptState(o, s, t); }
  }

  /** A worker moves on with its job. */
  lemma MoveOn(o: Origin, s: Sys, w: nat, x: Worker, url: string)
    requires Inv(o, s) && s.proc.Some?
    requires var p := s.proc.value;
             w < |p.workers| && JobOf(p.workers[w]) == JobOf(x) >= 0 && CopyRight(o, s.file, p.plan, x)
    ensures ProcInv(o, s.file, s.meta, SetWorker(s.proc.value.(url := url), w, x))
  {
    var p := s.proc.value;
    KeepJob(p, w, x);
    ReplaceCopy(o, s.file, p.plan, p.workers, w, x);
  }

  ghost predicate MovesOn(t: Step) {
    t.Ask? || t.SendFail? || t.Refresh? || t.Body? || t.CopyFail? || t.CopyEnd?
  }

  /** These steps change one worker, which keeps its job, and perhaps the URL. */
  lemma MoveEffect(o: Origin, s: Sys, t: Step) returns (x: Worker, url: string)
    requires Enabled(o, s, t) && MovesOn(t)
    ensures t.w < |s.proc.value.workers| && JobOf(x) == JobOf(s.proc.value.workers[t.w]) >= 0
    ensures Apply(o, s, t) == s.(proc := Some(SetWorker(s.proc.value.(url := url), t.w, x)))
  {
    var q := Apply(o, s, t).proc.value;
    x, url := q.workers[t.w], q.url;
  }

  lemma KeepsRetry(o: Origin, s: Sys, t: Step, s': Sys)
    requires Inv(o, s) && Enabled(o, s, t) && MovesOn(t) && s' == Apply(o, s, t)
    ensures Inv(o, s')
  {
    var x, url := MoveEffect(o, s, t);
    NextCopyState(o, s, t);
    MoveOn(o, s, t.w, x, url);
  }

  lemma KeepsCheck(o: Origin, s: Sys, t: Step)
    requires Inv(o, s) && Enabled(o, s, t) && t.Check?
    ensures Inv(o, Apply(o, s, t))
  {
    var p := s.proc.value;
    var q := Apply(o, s, t).proc.value;
    if p.abort { DropJob(p, t.w); } else { KeepJob(p, t.w, q.workers[t.w]); }
    ReplaceCopy(o, s.file, p.plan, p.workers, t.w, q.workers[t.w]);
  }

  lemma KeepsDeath(o: Origin, s: Sys, t: Step)
    requires Inv(o, s) && Enabled(o, s, t)
    requires t.CtxSeen? || t.Fatal? || t.GiveUp?
    ensures Inv(o, Apply(o, s, t))
  {
    var p := s.proc.value;
    var q := Apply(o, s, t).proc.value;
    DropJob(p, t.w);
    ReplaceCopy(o, s.file, p.plan, p.workers, t.w, Exited);
  }

  lemma KeepsLeave(o: Origin, s: Sys, t: Step)
    requires Inv(o, s) && Enabled(o, s, t) && t.Leave?
    ensures Inv(o, Apply(o, s, t))
  {
    var p := s.proc.value;
    LeaveJobless(p, t.w);
    ReplaceCopy(o, s.file, p.plan, p.workers, t.w, Exited);
  }

  lemma KeepsPublish(o: Origin, s: Sys, t: Step)
    requires Inv(o, s) && Enabled(o, s, t) && t.Publish?
    ensures Inv(o, Apply(o, s, t))
  {
    var p := s.proc.value;
    TakeJob(p, t.w);
    ReplaceCopy(o, s.file, p.plan, p.workers, t.w, Got(p.next));
  }

  lemma KeepsPublisher(o: Origin, s: Sys, t: Step)
    requires Inv(o, s) && Enabled(o, s, t)
    requires t.Skip? || t.CloseJobs? || t.PublisherAbort?
    ensures Inv(o, Apply(o, s, t))
  {
    if t.Skip? { SkipDone(s.proc.value); }
  }

  /** A control step changes flags only. */
  lemma ControlFlags(o: Origin, s: Sys, t: Step)
    requires Enabled(o, s, t) && s.proc.Some? && Flow(s.proc.value) && Shape(o, s.file, s.proc.value)
    requires t.Cancel? || t.MainErr? || t.MainCtx? || t.MainFinished? || t.MainDrained? || t.OpenFail?
    ensures var p := s.proc.value; var e := Apply(o, s, t);
            && e.file == s.file && e.meta == s.meta && e.proc.Some?
            && SameWork(p, e.proc.value) && Flow(e.proc.value) && Shape(o, s.file, e.proc.value)
  {
  }

  ghost predicate SameWork(p: Proc, q: Proc) {
    q.plan == p.plan && q.done == p.done && q.workers == p.workers && q.next == p.next && q.lost == p.lost
  }

  lemma SameWorkKeeps(o: Origin, file: Bytes, meta: Option<Meta>, p: Proc, q: Proc)
    requires ProcInv(o, file, meta, p) && SameWork(p, q) && Flow(q) && Shape(o, file, q)
    ensures ProcInv(o, file, meta, q)
  {
  }

  lemma KeepsControl(o: Origin, s: Sys, t: Step)
    requires Inv(o, s) && Enabled(o, s, t)
    requires t.Cancel? || t.MainErr? || t.MainCtx? || t.MainFinished? || t.MainDrained? || t.OpenFail?
    ensures Inv(o, Apply(o, s, t))
  {
    ControlFlags(o, s, t);
    SameWorkKeeps(o, s.file, s.meta, s.proc.value, Apply(o, s, t).proc.value);
  }

  // ----- steps that change the file or the persisted bitmap -----

  /** Patching changes the patched positions only. */
  lemma PatchAt(file: Bytes, off: nat, piece: Bytes)
    requires off + |piece| <= |file|
    ensures |Patch(file, off, piece)| == |file|
    ensures forall at :: 0 <= at < |file| ==>
              Patch(file, off, piece)[at] == if off <= at < off + |piece| then piece[at - off] else file[at]
  {
  }

  /** Writing part of the body of chunk idx leaves every other region of the same plan alone. */
  lemma WriteKeepsOther(o: Origin, file: Bytes, p: Plan, x: Worker, k: nat, i: nat)
    requires ValidPlan(p) && p.size == |o.content| == |file|
    requires x.Copying? && CopyRight(o, file, p, x) && x.n + k <= |x.body| && x.idx < Count(p)
    requires i < Count(p) && i != x.idx
    ensures |WriteFile(file, p, x, k)| == |file| && 0 <= Start(p, i) && End(p, i) <= |file|
    ensures forall at :: Start(p, i) <= at < End(p, i) ==> WriteFile(file, p, x, k)[at] == file[at]
  {
    RegionInFile(p, i);
    RegionInFile(p, x.idx);
    if i < x.idx { RegionsOrdered(p, i, x.idx); } else { RegionsOrdered(p, x.idx, i); }
    PatchAt(file, Start(p, x.idx) + x.n, x.body[x.n..x.n + k]);
  }

  /** Where the body is a prefix of the range, writing it never makes a right byte wrong. */
  lemma WriteKeepsRight(o: Origin, file: Bytes, p: Plan, x: Worker, k: nat, at: int)
    requires ValidPlan(p) && p.size == |o.content| == |file| && o.prefixBodies
    requires x.Copying? && CopyRight(o, file, p, x) && x.n + k <= |x.body| && x.idx < Count(p)
    requires 0 <= at < |file| && file[at] == o.content[at]
    ensures |WriteFile(file, p, x, k)| == |file| && WriteFile(file, p, x, k)[at] == o.content[at]
  {
    RegionInFile(p, x.idx);
    var off := Start(p, x.idx) + x.n;
    PatchAt(file, off, x.body[x.n..x.n + k]);
    var range := o.content[Start(p, x.idx)..End(p, x.idx)];
    assert x.body == range[..|x.body|];
  }

  /** The bitmap of any plan that the origin allows stays right when a chunk that is not set is written. */
  lemma WriteKeepsBits(o: Origin, file: Bytes, p: Plan, x: Worker, k: nat, r: Plan, done: seq<bool>)
    requires Trustworthy(o) && ValidPlan(p) && p.size == r.size == |o.content| == |file|
    requires ChunkAllowed(o, p.chunk) && ChunkAllowed(o, r.chunk) && |done| == Count(r)
    requires x.Copying? && CopyRight(o, file, p, x) && x.n + k <= |x.body| && x.idx < Count(p)
    requires BitsRight(o, file, r, done)
    requires r == p ==> !done[x.idx]
    ensures BitsRight(o, WriteFile(file, p, x, k), r, done)
  {
    var file' := WriteFile(file, p, x, k);
    forall i | 0 <= i < |done| && done[i]
      ensures ChunkRight(o, file', r, i)
    {
      assert ChunkRight(o, file, r, i);
      RegionInFile(r, i);
      if o.prefixBodies {
        forall at | Start(r, i) <= at < End(r, i)
          ensures |file'| == |file| && file'[at] == o.content[at]
        {
          WriteKeepsRight(o, file, p, x, k, at);
        }
      } else {
        WriteKeepsOther(o, file, p, x, k, i);
      }
    }
  }

  lemma WriteKeepsCopy(o: Origin, file: Bytes, p: Plan, x: Worker, k: nat, y: Worker)
    requires ValidPlan(p) && p.size == |o.content| == |file|
    requires x.Copying? && CopyRight(o, file, p, x) && x.n + k <= |x.body| && x.idx < Count(p)
    requires CopyRight(o, file, p, y) && JobOf(y) != x.idx && JobOf(y) < Count(p)
    ensures CopyRight(o, WriteFile(file, p, x, k), p, y)
  {
    if y.Copying? || y.Copied? { WriteKeepsOther(o, file, p, x, k, y.idx); }
  }

  lemma WriteOwn(o: Origin, file: Bytes, p: Plan, x: Worker, k: nat)
    requires ValidPlan(p) && p.size == |o.content| == |file|
    requires x.Copying? && CopyRight(o, file, p, x) && x.n + k <= |x.body| && x.idx < Count(p)
    ensures |WriteFile(file, p, x, k)| == |file|
    ensures CopyRight(o, WriteFile(file, p, x, k), p, x.(n := x.n + k))
  {
    RegionInFile(p, x.idx);
    PatchAt(file, Start(p, x.idx) + x.n, x.body[x.n..x.n + k]);
  }

  lemma WriteKeepsCopies(o: Origin, file: Bytes, p: Proc, w: nat, k: nat)
    requires Shape(o, file, p) && Jobs(p) && CopiesRight(o, file, p.plan, p.workers)
    requires IsCopying(p, w) && p.workers[w].n + k <= |p.workers[w].body|
    ensures p.workers[w].idx < Count(p.plan) && !p.done[p.workers[w].idx]
    ensures CopiesRight(o, WriteFile(file, p.plan, p.workers[w], k), p.plan,
                        p.workers[w := p.workers[w].(n := p.workers[w].n + k)])
  {
    var x := p.workers[w];
    assert CopyRight(o, file, p.plan, x);
    assert JobSound(JobOf(x), p.next, p.done, p.lost);
    WriteOwn(o, file, p.plan, x, k);
    forall v | 0 <= v < |p.workers| && v != w
      ensures CopyRight(o, WriteFile(file, p.plan, x, k), p.plan, p.workers[v])
    {
      var y := p.workers[v];
      assert CopyRight(o, file, p.plan, y);
      assert JobOf(y) >= 0 ==> JobOf(y) != JobOf(x) && JobSound(JobOf(y), p.next, p.done, p.lost);
      WriteKeepsCopy(o, file, p.plan, x, k, y);
    }
  }

  lemma WriteKeepsPersisted(o: Origin, s: Sys, w: nat, k: nat)
    requires Trustworthy(o) && Inv(o, s) && s.proc.Some?
    requires IsCopying(s.proc.value, w) && s.proc.value.workers[w].n + k <= |s.proc.value.workers[w].body|
    ensures var p := s.proc.value;
            PersistedRight(o, WriteFile(s.file, p.plan, p.workers[w], k), s.meta)
  {
    var p := s.proc.value;
    var x := p.workers[w];
    WriteKeepsCopies(o, s.file, p, w, k);
    assert CopyRight(o, s.file, p.plan, x);
    if s.meta.Some? {
      var r := Plan(|o.content|, s.meta.value.chunk);
      var done := s.meta.value.done;
      if r.chunk > 0 && Loadable(s.meta, r) && exists i :: 0 <= i < |done| && done[i] {
        assert r == p.plan ==> Loadable(s.meta, p.plan);
        WriteKeepsBits(o, s.file, p.plan, x, k, r, done);
      }
    }
  }

  lemma WriteKeepsControl(o: Origin, file: Bytes, file': Bytes, meta: Option<Meta>, p: Proc, w: nat, x: Worker)
    requires Shape(o, file, p) && Flow(p) && Jobs(p) && Resumes(meta, p)
    requires |file'| == |file| && IsCopying(p, w) && x.Copying? && x.idx == p.workers[w].idx
    ensures var q := SetWorker(p, w, x); Shape(o, file', q) && Flow(q) && Jobs(q) && Resumes(meta, q)
  {
    KeepJob(p, w, x);
  }

  lemma WriteKeepsOwnBits(o: Origin, file: Bytes, p: Proc, w: nat, k: nat)
    requires Trustworthy(o) && Shape(o, file, p) && Jobs(p) && CopiesRight(o, file, p.plan, p.workers)
    requires BitsRight(o, file, p.plan, p.done)
    requires IsCopying(p, w) && p.workers[w].n + k <= |p.workers[w].body|
    ensures BitsRight(o, WriteFile(file, p.plan, p.workers[w], k), p.plan, p.done)
    ensures |WriteFile(file, p.plan, p.workers[w], k)| == |file|
  {
    var x := p.workers[w];
    assert CopyRight(o, file, p.plan, x);
    WriteKeepsCopies(o, file, p, w, k);
    WriteOwn(o, file, p.plan, x, k);
    WriteKeepsBits(o, file, p.plan, x, k, p.plan, p.done);
  }

  lemma Together(o: Origin, file: Bytes, meta: Option<Meta>, q: Proc)
    requires Shape(o, file, q) && BitsRight(o, file, q.plan, q.done) && Jobs(q)
    requires CopiesRight(o, file, q.plan, q.workers) && Flow(q) && Resumes(meta, q)
    ensures ProcInv(o, file, meta, q)
  {
  }

  lemma WriteKeepsProc(o: Origin, file: Bytes, meta: Option<Meta>, p: Proc, w: nat, k: nat)
    requires Trustworthy(o) && ProcInv(o, file, meta, p)
    requires IsCopying(p, w) && p.workers[w].n + k <= |p.workers[w].body|
    ensures var x := p.workers[w];
            ProcInv(o, WriteFile(file, p.plan, x, k), meta, SetWorker(p, w, x.(n := x.n + k)))
  {
    var x := p.workers[w];
    var file' := WriteFile(file, p.plan, x, k);
    WriteKeepsCopies(o, file, p, w, k);
    WriteKeepsOwnBits(o, file, p, w, k);
    WriteKeepsControl(o, file, file', meta, p, w, x.(n := x.n + k));
    Together(o, file', meta, SetWorker(p, w, x.(n := x.n + k)));
  }

  ghost function Written(s: Sys, w: nat, k: nat): Sys
    requires s.proc.Some? && IsCopying(s.proc.value, w) && s.proc.value.workers[w].n + k <= |s.proc.value.workers[w].body|
  {
    var p := s.proc.value;
    var x := p.workers[w];
    Sys(WriteFile(s.file, p.plan, x, k), s.meta, Some(SetWorker(p, w, x.(n := x.n + k))))
  }

  lemma WriteResult(o: Origin, s: Sys, t: Step)
    requires Enabled(o, s, t) && t.Write?
    ensures Apply(o, s, t) == Written(s, t.w, t.k)
  {
  }

  lemma WrittenInv(o: Origin, s: Sys, w: nat, k: nat)
    requires Trustworthy(o) && Inv(o, s) && s.proc.Some?
    requires IsCopying(s.proc.value, w) && s.proc.value.workers[w].n + k <= |s.proc.value.workers[w].body|
    ensures Inv(o, Written(s, w, k))
  {
    WriteKeepsPersisted(o, s, w, k);
    WriteKeepsProc(o, s.file, s.meta, s.proc.value, w, k);
  }

  lemma KeepsWrite(o: Origin, s: Sys, t: Step)
    requires Trustworthy(o) && Inv(o, s) && Enabled(o, s, t) && t.Write?
    ensures Inv(o, Apply(o, s, t))
  {
    WrittenInv(o, s, t.w, t.k);
    WriteResult(o, s, t);
  }

  /** A run saves only bitmaps that are right, so what it saves may be loaded later. */
  lemma SavedRight(o: Origin, file: Bytes, p: Proc)
    requires Shape(o, file, p) && BitsRight(o, file, p.plan, p.done)
    ensures PersistedRight(o, file, SaveMeta(p)) && Resumes(SaveMeta(p), p)
  {
  }

  lemma CommitBits(o: Origin, s: Sys, w: nat)
    requires Inv(o, s) && s.proc.Some?
    requires w < |s.proc.value.workers| && s.proc.value.workers[w].Copied?
    ensures var p := s.proc.value; var q := Marked(p, w);
            BitsRight(o, s.file, q.plan, q.done) && Shape(o, s.file, q)
            && Resumes(s.meta, q) && Jobs(SetWorker(q, w, Idle)) && Jobs(SetWorker(q, w, Exited))
  {
    var p := s.proc.value;
    FinishJob(p, w, Idle);
    FinishJob(p, w, Exited);
    var idx := p.workers[w].idx;
    assert CopyRight(o, s.file, p.plan, p.workers[w]);
    DoneBytesMark(p.plan, p.done, idx, |p.done|);
  }

  /** The worker is free again or gone, and its chunk is marked. */
  lemma CommitKeeps(o: Origin, file: Bytes, meta: Option<Meta>, p: Proc, w: nat, x: Worker)
    requires ProcInv(o, file, meta, p) && w < |p.workers| && p.workers[w].Copied? && (x.Idle? || (x.Exited? && p.abort))
    requires var q := Marked(p, w); BitsRight(o, file, q.plan, q.done) && Shape(o, file, q) && Resumes(meta, q)
    requires Jobs(SetWorker(Marked(p, w), w, x))
    ensures ProcInv(o, file, meta, SetWorker(Marked(p, w), w, x))
  {
    var q := SetWorker(Marked(p, w), w, x);
    ReplaceCopy(o, file, p.plan, p.workers, w, x);
    CommitFlow(p, w, x);
    CommitShape(o, file, Marked(p, w), w, x);
    Together(o, file, meta, q);
  }

  lemma CommitFlow(p: Proc, w: nat, x: Worker)
    requires Flow(p) && w < |p.workers| && p.workers[w].Copied? && (x.Idle? || (x.Exited? && p.abort))
    ensures Flow(SetWorker(Marked(p, w), w, x))
  {
    assert !AllExited(p.workers) by { assert !p.workers[w].Exited?; }
  }

  lemma CommitShape(o: Origin, file: Bytes, q: Proc, w: nat, x: Worker)
    requires Shape(o, file, q) && w < |q.workers|
    ensures Shape(o, file, SetWorker(q, w, x))
  {
  }

  lemma KeepsSavedCommit(o: Origin, s: Sys, t: Step)
    requires Inv(o, s) && Enabled(o, s, t) && t.Commit? && t.saved
    ensures Inv(o, Apply(o, s, t))
  {
    var p := s.proc.value;
    CommitBits(o, s, t.w);
    var q := SetWorker(Marked(p, t.w), t.w, Idle);
    CommitKeeps(o, s.file, s.meta, p, t.w, Idle);
    SavedRight(o, s.file, Marked(p, t.w));
    SavedFits(o, s.file, s.meta, q);
  }

  /** The error is posted before the worker leaves. */
  function Posted(p: Proc): Proc {
    p.(queued := p.queued + 1, posted := p.posted + 1, abort := true)
  }

  lemma PostedKeeps(o: Origin, file: Bytes, meta: Option<Meta>, p: Proc)
    requires ProcInv(o, file, meta, p) && p.workers != []
    ensures ProcInv(o, file, meta, Posted(p))
  {
    SameWorkKeeps(o, file, meta, p, Posted(p));
  }

  lemma KeepsFailedCommit(o: Origin, s: Sys, t: Step)
    requires Inv(o, s) && Enabled(o, s, t) && t.Commit? && !t.saved
    ensures Inv(o, Apply(o, s, t))
  {
    var p := s.proc.value;
    CommitBits(o, s, t.w);
    PostedKeeps(o, s.file, s.meta, p);
    PostedCommit(o, s.file, s.meta, p, t.w);
    CommitKeeps(o, s.file, s.meta, Posted(p), t.w, Exited);
  }

  lemma PostedCommit(o: Origin, file: Bytes, meta: Option<Meta>, p: Proc, w: nat)
    requires w < |p.workers| && p.workers[w].Copied?
    requires var q := Marked(p, w); BitsRight(o, file, q.plan, q.done) && Shape(o, file, q) && Resumes(meta, q)
    requires Jobs(SetWorker(Marked(p, w), w, Exited))
    ensures var q := Marked(Posted(p), w); BitsRight(o, file, q.plan, q.done) && Shape(o, file, q) && Resumes(meta, q)
    ensures Jobs(SetWorker(Marked(Posted(p), w), w, Exited))
    ensures SetWorker(Marked(Posted(p), w), w, Exited) == SetWorker(Posted(Marked(p, w)), w, Exited)
  {
  }

  lemma KeepsCommit(o: Origin, s: Sys, t: Step)
    requires Inv(o, s) && Enabled(o, s, t) && t.Commit?
    ensures Inv(o, Apply(o, s, t))
  {
    if t.saved { KeepsSavedCommit(o, s, t); } else { KeepsFailedCommit(o, s, t); }
  }

  lemma MainSaved(o: Origin, file: Bytes, meta: Option<Meta>, p: Proc, main: Main)
    requires ProcInv(o, file, meta, p) && p.main.Saving? && (main.ReturnedOk? || main.ReturnedErr?)
    ensures ProcInv(o, file, meta, p.(main := main))
  {
    SameWorkKeeps(o, file, meta, p, p.(main := main));
  }

  lemma KeepsMainSave(o: Origin, s: Sys, t: Step)
    requires Inv(o, s) && Enabled(o, s, t) && t.MainSave?
    ensures Inv(o, Apply(o, s, t))
  {
    var p := s.proc.value;
    if t.saved {
      SavedRight(o, s.file, p);
      SavedFits(o, s.file, s.meta, p);
      MainSaved(o, s.file, SaveMeta(p), p, ReturnedOk);
    } else {
      MainSaved(o, s.file, s.meta, p, ReturnedErr);
    }
  }

  lemma SavedFits(o: Origin, file: Bytes, meta: Option<Meta>, p: Proc)
    requires ProcInv(o, file, meta, p) && Resumes(SaveMeta(p), p)
    ensures ProcInv(o, file, SaveMeta(p), p)
  {
  }

  /** Truncating to the planned size keeps every region of the file that is already right. */
  lemma TruncateKeepsBits(o: Origin, file: Bytes, p: Plan, done: seq<bool>)
    requires BitsRight(o, file, p, done)
    ensures BitsRight(o, Resize(file, |o.content|), p, done)
  {
    forall i | 0 <= i < |done| && done[i]
      ensures ChunkRight(o, Resize(file, |o.content|), p, i)
    {
      assert ChunkRight(o, file, p, i);
    }
  }

  lemma KeepsTruncate(o: Origin, s: Sys, t: Step)
    requires Inv(o, s) && Enabled(o, s, t) && t.Truncate?
    ensures Inv(o, Apply(o, s, t))
  {
    var p := s.proc.value;
    var s' := Apply(o, s, t);
    TruncateKeepsBits(o, s.file, p.plan, p.done);
    if s.meta.Some? {
      var r := Plan(|o.content|, s.meta.value.chunk);
      if r.chunk > 0 && Loadable(s.meta, r) { TruncateKeepsBits(o, s.file, r, s.meta.value.done); }
    }
    var q := s'.proc.value;
    assert forall w :: 0 <= w < |q.workers| ==> q.workers[w] == Idle;
    assert Jobs(q) && CopiesRight(o, s'.file, q.plan, q.workers);
  }

  lemma KeepsLaunch(o: Origin, s: Sys, t: Step)
    requires |o.content| > 0 && Inv(o, s) && Enabled(o, s, t) && t.Launch?
    ensures Inv(o, Apply(o, s, t))
  {
    var p := Plan(|o.content|, t.chunk);
    var q := Apply(o, s, t).proc.value;
    assert BitsRight(o, s.file, p, q.done);
    assert Jobs(q);
  }

  ghost predicate WorkerStep(t: Step) {
    t.Check? || t.Leave? || t.CtxSeen? || t.Fatal? || t.GiveUp? || MovesOn(t) || t.Write? || t.Commit?
  }

  lemma KeepsWorkerStep(o: Origin, s: Sys, t: Step)
    requires Trustworthy(o) && Inv(o, s) && Enabled(o, s, t) && WorkerStep(t)
    ensures Inv(o, Apply(o, s, t))
  {
    if t.Check? {
      KeepsCheck(o, s, t);
    } else if t.Leave? {
      KeepsLeave(o, s, t);
    } else if t.CtxSeen? || t.Fatal? || t.GiveUp? {
      KeepsDeath(o, s, t);
    } else if t.Write? {
      KeepsWrite(o, s, t);
    } else if t.Commit? {
      KeepsCommit(o, s, t);
    } else {
      KeepsRetry(o, s, t, Apply(o, s, t));
    }
  }

  lemma StepKeeps(o: Origin, s: Sys, t: Step)
    requires Trustworthy(o) && Inv(o, s) && Enabled(o, s, t)
    ensures Inv(o, Apply(o, s, t))
  {
    if WorkerStep(t) {
      KeepsWorkerStep(o, s, t);
    } else if t.Launch? {
      KeepsLaunch(o, s, t);
    } else if t.Truncate? {
      KeepsTruncate(o, s, t);
    } else if t.Publish? {
      KeepsPublish(o, s, t);
    } else if t.Skip? || t.CloseJobs? || t.PublisherAbort? {
      KeepsPublisher(o, s, t);
    } else if t.MainSave? {
      KeepsMainSave(o, s, t);
    } else if !t.Crash? {
      KeepsControl(o, s, t);
    }
  }

  lemma InitInv(o: Origin, s: Sys)
    requires Init(o, s)
    ensures Inv(o, s)
  {
  }

  lemma {:induction false} RunKeeps(o: Origin, s: Sys, ts: seq<Step>)
    requires Trustworthy(o) && Inv(o, s) && Run(o, s, ts)
    ensures Inv(o, Exec(o, s, ts))
    decreases |ts|
  {
    if ts != [] {
      StepKeeps(o, s, ts[0]);
      RunKeeps(o, Apply(o, s, ts[0]), ts[1..]);
    }
  }

  // ----- main results -----

  /** Crash safety. Whatever workers, refreshes, cut-off copies, crashes and restarts did, a persisted
    * bit that a later run would load names a chunk whose file region is exactly the remote bytes. */
  lemma PersistedBitsNeverLie(o: Origin, s: Sys, ts: seq<Step>, chunk: int, i: nat)
    requires Trustworthy(o) && Init(o, s) && Run(o, s, ts)
    requires var e := Exec(o, s, ts); var p := Plan(|o.content|, chunk);
             chunk > 0 && Loadable(e.meta, p) && i < Count(p) && e.meta.value.done[i]
    ensures var e := Exec(o, s, ts); var p := Plan(|o.content|, chunk);
            && 0 <= Start(p, i) < End(p, i) <= |e.file| == |o.content|
            && e.file[Start(p, i)..End(p, i)] == o.content[Start(p, i)..End(p, i)]
  {
    InitInv(o, s);
    RunKeeps(o, s, ts);
    var e := Exec(o, s, ts);
    var p := Plan(|o.content|, chunk);
    assert ChunkRight(o, e.file, p, i);
    RegionInFile(p, i);
  }

  /** A chunk that is done on disk is never handed to a worker again: neither in flight nor publishable. */
  lemma DoneChunkNotRefetched(o: Origin, s: Sys, ts: seq<Step>, i: nat, w: nat)
    requires Trustworthy(o) && Init(o, s) && Run(o, s, ts)
    requires var e := Exec(o, s, ts);
             && e.proc.Some? && Loadable(e.meta, e.proc.value.plan)
             && i < |e.meta.value.done| && e.meta.value.done[i]
    ensures var p := Exec(o, s, ts).proc.value;
            && !InFlight(p.workers, i)
            && (p.next == i ==> !Enabled(o, Exec(o, s, ts), Publish(w)))
  {
    InitInv(o, s);
    RunKeeps(o, s, ts);
    var p := Exec(o, s, ts).proc.value;
    forall v | 0 <= v < |p.workers|
      ensures JobOf(p.workers[v]) != i
    {
      assert JobOf(p.workers[v]) >= 0 ==> JobSound(JobOf(p.workers[v]), p.next, p.done, p.lost);
    }
  }

  /** The progress counter always is the summed length of the done chunks, and stays within the file. */
  lemma ProgressExact(o: Origin, s: Sys, ts: seq<Step>)
    requires Trustworthy(o) && Init(o, s) && Run(o, s, ts) && Exec(o, s, ts).proc.Some?
    ensures var p := Exec(o, s, ts).proc.value;
            && p.progress == DoneBytes(p.plan, p.done, |p.done|)
            && 0 <= p.progress <= |o.content|
            && (p.progress == |o.content| <==> AllDone(p.done))
  {
    InitInv(o, s);
    RunKeeps(o, s, ts);
    var p := Exec(o, s, ts).proc.value;
    ProgressBound(p.plan, p.done);
  }

  /** The publisher reads the bitmap without the lock; the cells it still has to read are never written by
    * a worker, because every worker's chunk was published before. */
  lemma PublisherReadsUnshared(o: Origin, s: Sys, ts: seq<Step>, w: nat)
    requires Trustworthy(o) && Init(o, s) && Run(o, s, ts) && Exec(o, s, ts).proc.Some?
    requires w < |Exec(o, s, ts).proc.value.workers|
    ensures var p := Exec(o, s, ts).proc.value; JobOf(p.workers[w]) < p.next
  {
    InitInv(o, s);
    RunKeeps(o, s, ts);
    var p := Exec(o, s, ts).proc.value;
    assert JobOf(p.workers[w]) >= 0 ==> JobSound(JobOf(p.workers[w]), p.next, p.done, p.lost);
  }

  lemma AllRightIsContent(o: Origin, file: Bytes, p: Plan, done: seq<bool>)
    requires ValidPlan(p) && p.size == |o.content| && |done| == Count(p)
    requires BitsRight(o, file, p, done) && AllDone(done)
    ensures file == o.content
  {
    assert ChunkRight(o, file, p, 0);
    forall at | 0 <= at < |file|
      ensures file[at] == o.content[at]
    {
      RegionsTile(p, at);
      var i: nat :| i < Count(p) && Holds(p, i, at);
      assert ChunkRight(o, file, p, i);
    }
  }

  /** A successful return means a complete file exactly when no worker gave a chunk up and every chunk
    * that was still missing had been handed out. */
  lemma OkMeansComplete(o: Origin, s: Sys, ts: seq<Step>)
    requires Trustworthy(o) && Init(o, s) && Run(o, s, ts)
    requires Exec(o, s, ts).proc.Some? && Exec(o, s, ts).proc.value.main.ReturnedOk?
    ensures var p := Exec(o, s, ts).proc.value;
            && (AllDone(p.done) <==> p.lost == {} && forall i :: p.next <= i < |p.done| ==> p.done[i])
            && (AllDone(p.done) ==> Exec(o, s, ts).file == o.content)
  {
    InitInv(o, s);
    RunKeeps(o, s, ts);
    var e := Exec(o, s, ts);
    OkAccount(o, e);
    if AllDone(e.proc.value.done) { AllRightIsContent(o, e.file, e.proc.value.plan, e.proc.value.done); }
  }

  lemma OkAccount(o: Origin, e: Sys)
    requires Trustworthy(o) && Inv(o, e) && e.proc.Some? && e.proc.value.main.ReturnedOk?
    ensures var p := e.proc.value;
            AllDone(p.done) <==> p.lost == {} && forall i :: p.next <= i < |p.done| ==> p.done[i]
  {
    var p := e.proc.value;
    assert forall i :: i >= 0 ==> !InFlight(p.workers, i);
    assert forall l :: l in p.lost ==> l < |p.done| && !p.done[l];
  }

  /** A run that returns success with no error ever posted and a live context leaves the whole content. */
  lemma CleanRunComplete(o: Origin, s: Sys, ts: seq<Step>)
    requires Trustworthy(o) && Init(o, s) && Run(o, s, ts)
    requires Exec(o, s, ts).proc.Some? && Exec(o, s, ts).proc.value.main.ReturnedOk?
    requires Exec(o, s, ts).proc.value.posted == 0 && !Exec(o, s, ts).proc.value.cancelled
    ensures AllDone(Exec(o, s, ts).proc.value.done) && Exec(o, s, ts).file == o.content
  {
    InitInv(o, s);
    RunKeeps(o, s, ts);
    var p := Exec(o, s, ts).proc.value;
    if p.workers != [] {
      assert p.workers[0].Exited? && p.publisher.Closed?;
    }
    OkMeansComplete(o, s, ts);
  }
}
