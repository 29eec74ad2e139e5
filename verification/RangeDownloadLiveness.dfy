/** How long a run of the range download can last, exactly when it returns, and the two ways in which it
  * falls short: a success with chunks missing and an abort that never returns. */
module RangeDownloadLiveness {
  import opened Wrappers
  import opened Chunks
  import opened RangeDownload
  import opened RangeDownloadSafety

  // ----- every step inside one run uses up some of a finite budget -----

  ghost predicate Internal(t: Step) {
    !t.Launch? && !t.Crash?
  }

  /** An attempt costs at most its request, one write per byte, and its end. */
  function AttemptCost(p: Plan): int {
    p.chunk + 3
  }

  function TriesLeft(p: Plan, tries: nat): int {
    var c := AttemptCost(p);
    if tries == 0 then c + c + c + c
    else if tries == 1 then c + c + c
    else if tries == 2 then c + c
    else if tries == 3 then c
    else 0
  }

  function WorkerBudget(p: Plan, x: Worker): int {
    match x
    case Exited => 0
    case Idle => 1
    case Copied(_) => 2
    case Trying(_, tries) => 2 + TriesLeft(p, tries)
    case Asking(_, tries, _) => 4 + TriesLeft(p, tries + 1) + p.chunk
    case Copying(_, tries, body, n) => 3 + TriesLeft(p, tries + 1) + |body| - n
    case Got(_) => 3 + TriesLeft(p, 0)
  }

  function WorkersBudget(p: Plan, ws: seq<Worker>): int {
    if ws == [] then 0 else WorkerBudget(p, ws[0]) + WorkersBudget(p, ws[1..])
  }

  function PublishCost(p: Plan): int {
    3 + TriesLeft(p, 0)
  }

  function PublishBudget(p: Plan, left: int): int {
    left * PublishCost(p)
  }

  function MainBudget(p: Proc): int {
    match p.main
    case Opening => p.concurrency + 4
    case Selecting => 3
    case Draining => 1
    case Saving => 1
    case ReturnedOk => 0
    case ReturnedErr => 0
  }

  ghost function Budget(p: Proc): int {
    WorkersBudget(p.plan, p.workers) + PublishBudget(p.plan, |p.done| - p.next) + MainBudget(p)
    + (if p.publisher.Feeding? then 1 else 0) + (if p.cancelled then 0 else 1)
  }

  ghost predicate CopyFits(p: Plan, x: Worker) {
    x.Copying? ==> x.n <= |x.body| <= p.chunk
  }

  lemma {:induction false} BudgetNonNegative(p: Plan, ws: seq<Worker>)
    requires p.chunk > 0 && forall w :: 0 <= w < |ws| ==> CopyFits(p, ws[w])
    ensures WorkersBudget(p, ws) >= 0
  {
    if ws != [] {
      assert CopyFits(p, ws[0]);
      BudgetNonNegative(p, ws[1..]);
    }
  }

  lemma {:induction false} BudgetUpdate(p: Plan, ws: seq<Worker>, w: nat, x: Worker)
    requires w < |ws|
    ensures WorkersBudget(p, ws[w := x]) == WorkersBudget(p, ws) - WorkerBudget(p, ws[w]) + WorkerBudget(p, x)
  {
    if w == 0 {
      assert ws[w := x][1..] == ws[1..];
    } else {
      assert ws[w := x][1..] == ws[1..][w - 1 := x];
      BudgetUpdate(p, ws[1..], w - 1, x);
    }
  }

  lemma {:induction false} BudgetIdle(p: Plan, n: nat)
    ensures WorkersBudget(p, seq(n, i => Idle)) == n
  {
    if n > 0 {
      var ws := seq(n, i => Idle);
      assert ws[1..] == seq(n - 1, i => Idle);
      BudgetIdle(p, n - 1);
    }
  }

  lemma PublishStep(p: Plan, left: int)
    ensures PublishBudget(p, left) == PublishBudget(p, left - 1) + PublishCost(p)
  {
    var c := PublishCost(p);
    assert left * c == (left - 1) * c + c;
  }

  lemma BodyFits(o: Origin, s: Sys, w: nat)
    requires Inv(o, s) && s.proc.Some? && w < |s.proc.value.workers|
    ensures CopyFits(s.proc.value.plan, s.proc.value.workers[w])
  {
    var p := s.proc.value;
    assert CopyRight(o, s.file, p.plan, p.workers[w]);
  }

  ghost predicate ControlStep(t: Step) {
    t.Truncate? || t.Skip? || t.CloseJobs? || t.PublisherAbort? || t.Cancel? || t.OpenFail?
    || t.MainErr? || t.MainCtx? || t.MainFinished? || t.MainDrained? || t.MainSave?
  }

  ghost predicate Cheaper(o: Origin, s: Sys, t: Step)
    requires Enabled(o, s, t) && Internal(t) && !ControlStep(t)
  {
    var p := s.proc.value;
    var q := Apply(o, s, t).proc.value;
    t.w < |p.workers| == |q.workers| && WorkerBudget(p.plan, q.workers[t.w]) < WorkerBudget(p.plan, p.workers[t.w])
  }

  lemma WriteSpends(o: Origin, s: Sys, t: Step)
    requires Enabled(o, s, t) && t.Write?
    ensures Cheaper(o, s, t)
  {
  }

  /** The end of a copy costs one attempt, or turns the copy into a finished one. */
  lemma CopyEndSpends(o: Origin, s: Sys, t: Step)
    requires Enabled(o, s, t) && (t.CopyFail? || t.CopyEnd?)
    requires s.proc.value.plan.chunk > 0 && CopyFits(s.proc.value.plan, s.proc.value.workers[t.w])
    ensures Cheaper(o, s, t)
  {
    TriesNonNegative(s.proc.value.plan, s.proc.value.workers[t.w].tries + 1);
  }

  lemma TriesNonNegative(p: Plan, tries: nat)
    requires p.chunk > 0
    ensures TriesLeft(p, tries) >= 0
  {
  }

  lemma CommitSpends(o: Origin, s: Sys, t: Step)
    requires Enabled(o, s, t) && t.Commit?
    ensures Cheaper(o, s, t)
  {
  }

  lemma CopySpends(o: Origin, s: Sys, t: Step)
    requires Enabled(o, s, t) && (t.Write? || t.CopyFail? || t.CopyEnd? || t.Commit?)
    requires s.proc.value.plan.chunk > 0 && CopyFits(s.proc.value.plan, s.proc.value.workers[t.w])
    ensures Cheaper(o, s, t)
  {
    if t.Write? {
      WriteSpends(o, s, t);
    } else if t.Commit? {
      CommitSpends(o, s, t);
    } else {
      CopyEndSpends(o, s, t);
    }
  }

  lemma AttemptSpends(o: Origin, s: Sys, t: Step)
    requires Enabled(o, s, t) && (t.Ask? || t.SendFail? || t.Refresh? || t.Body?) && s.proc.value.plan.chunk > 0
    ensures Cheaper(o, s, t)
  {
    var p := s.proc.value;
    if t.Ask? { RetryCheaper(p.plan, p.workers[t.w].tries); }
    if t.Body? { assert |t.body| <= WantLen(p.plan, p.workers[t.w].idx) <= p.plan.chunk; }
  }

  lemma ExitSpends(o: Origin, s: Sys, t: Step)
    requires Enabled(o, s, t) && (t.Check? || t.Leave? || t.CtxSeen? || t.Fatal? || t.GiveUp?)
    requires s.proc.value.plan.chunk > 0
    ensures Cheaper(o, s, t)
  {
  }

  lemma RetryCheaper(p: Plan, tries: nat)
    requires tries < MAX_TRIES
    ensures TriesLeft(p, tries) == TriesLeft(p, tries + 1) + AttemptCost(p)
  {
  }

  lemma WorkerFrame(o: Origin, s: Sys, t: Step)
    requires Enabled(o, s, t) && Internal(t) && !ControlStep(t) && !t.Publish?
    ensures var p := s.proc.value; var q := Apply(o, s, t).proc.value;
            && t.w < |p.workers| == |q.workers|
            && q.workers == p.workers[t.w := q.workers[t.w]]
            && q.plan == p.plan && |q.done| == |p.done| && q.next == p.next && q.main == p.main
            && q.publisher == p.publisher && q.cancelled == p.cancelled && q.concurrency == p.concurrency
  {
    if t.Write? || t.Commit? { FileFrame(o, s, t); }
  }

  lemma FileFrame(o: Origin, s: Sys, t: Step)
    requires Enabled(o, s, t) && (t.Write? || t.Commit?)
    ensures var p := s.proc.value; var q := Apply(o, s, t).proc.value;
            && t.w < |p.workers| == |q.workers|
            && q.workers == p.workers[t.w := q.workers[t.w]]
            && q.plan == p.plan && |q.done| == |p.done| && q.next == p.next && q.main == p.main
            && q.publisher == p.publisher && q.cancelled == p.cancelled && q.concurrency == p.concurrency
  {
  }

  lemma PublishSpends(o: Origin, s: Sys, t: Step)
    requires Inv(o, s) && Enabled(o, s, t) && t.Publish?
    ensures Budget(Apply(o, s, t).proc.value) < Budget(s.proc.value)
  {
    var p := s.proc.value;
    PublishStep(p.plan, |p.done| - p.next);
    BudgetUpdate(p.plan, p.workers, t.w, Got(p.next));
  }

  lemma TruncateSpends(o: Origin, s: Sys, t: Step)
    requires Enabled(o, s, t) && t.Truncate? && s.proc.value.plan.chunk > 0 && s.proc.value.workers == []
    ensures Budget(Apply(o, s, t).proc.value) < Budget(s.proc.value)
  {
    BudgetIdle(s.proc.value.plan, s.proc.value.concurrency);
  }

  lemma PublisherSpends(o: Origin, s: Sys, t: Step)
    requires Enabled(o, s, t) && (t.Skip? || t.CloseJobs? || t.PublisherAbort?) && s.proc.value.plan.chunk > 0
    ensures Budget(Apply(o, s, t).proc.value) < Budget(s.proc.value)
  {
    var p := s.proc.value;
    if t.Skip? { PublishStep(p.plan, |p.done| - p.next); }
  }

  lemma ControlSpends(o: Origin, s: Sys, t: Step)
    requires Enabled(o, s, t) && ControlStep(t)
    requires s.proc.value.plan.chunk > 0 && (s.proc.value.main.Opening? ==> s.proc.value.workers == [])
    ensures Budget(Apply(o, s, t).proc.value) < Budget(s.proc.value)
  {
    if t.Truncate? {
      TruncateSpends(o, s, t);
    } else if t.Skip? || t.CloseJobs? || t.PublisherAbort? {
      PublisherSpends(o, s, t);
    }
  }

  lemma WorkerStepSpends(o: Origin, s: Sys, t: Step)
    requires Enabled(o, s, t) && Internal(t) && !ControlStep(t) && !t.Publish? && Cheaper(o, s, t)
    ensures Budget(Apply(o, s, t).proc.value) < Budget(s.proc.value)
  {
    WorkerFrame(o, s, t);
    var p := s.proc.value;
    BudgetUpdate(p.plan, p.workers, t.w, Apply(o, s, t).proc.value.workers[t.w]);
  }

  lemma InvFacts(o: Origin, s: Sys)
    requires Inv(o, s) && s.proc.Some?
    ensures s.proc.value.plan.chunk > 0 && Flow(s.proc.value)
  {
  }

  /** Each step inside a run strictly lowers the budget. */
  lemma StepSpends(o: Origin, s: Sys, t: Step)
    requires Inv(o, s) && Enabled(o, s, t) && Internal(t)
    ensures Budget(Apply(o, s, t).proc.value) < Budget(s.proc.value)
  {
    InvFacts(o, s);
    if t.Publish? {
      PublishSpends(o, s, t);
    } else if ControlStep(t) {
      ControlSpends(o, s, t);
    } else {
      if t.Write? || t.CopyFail? || t.CopyEnd? || t.Commit? {
        BodyFits(o, s, t.w);
        CopySpends(o, s, t);
      } else if t.Ask? || t.SendFail? || t.Refresh? || t.Body? {
        AttemptSpends(o, s, t);
      } else {
        ExitSpends(o, s, t);
      }
      WorkerStepSpends(o, s, t);
    }
  }

  lemma BudgetFloor(o: Origin, s: Sys)
    requires Inv(o, s) && s.proc.Some?
    ensures Budget(s.proc.value) >= 0
  {
    var p := s.proc.value;
    forall w | 0 <= w < |p.workers|
      ensures CopyFits(p.plan, p.workers[w])
    {
      BodyFits(o, s, w);
    }
    BudgetNonNegative(p.plan, p.workers);
    assert PublishBudget(p.plan, |p.done| - p.next) >= 0 by {
      var left := |p.done| - p.next;
      if left > 0 { Grow(left, PublishCost(p.plan)); }
    }
  }

  ghost predicate AllInternal(ts: seq<Step>) {
    forall i :: 0 <= i < |ts| ==> Internal(ts[i])
  }

  lemma {:induction false} RunSpends(o: Origin, s: Sys, ts: seq<Step>)
    requires Trustworthy(o) && Inv(o, s) && s.proc.Some? && Run(o, s, ts) && AllInternal(ts)
    ensures Exec(o, s, ts).proc.Some?
    ensures |ts| + Budget(Exec(o, s, ts).proc.value) <= Budget(s.proc.value)
    decreases |ts|
  {
    if ts != [] {
      StepSpends(o, s, ts[0]);
      StepKeeps(o, s, ts[0]);
      RunSpends(o, Apply(o, s, ts[0]), ts[1..]);
    }
  }

  /** No schedule goes on forever: between a launch and the next crash at most Budget steps happen,
    * whatever the workers, the network and the refreshes do. */
  lemma RunIsFinite(o: Origin, s: Sys, before: seq<Step>, ts: seq<Step>)
    requires Trustworthy(o) && Init(o, s) && Run(o, s, before)
    requires Exec(o, s, before).proc.Some? && Run(o, Exec(o, s, before), ts) && AllInternal(ts)
    ensures |ts| <= Budget(Exec(o, s, before).proc.value)
  {
    InitInv(o, s);
    RunKeeps(o, s, before);
    var m := Exec(o, s, before);
    RunSpends(o, m, ts);
    RunKeeps(o, m, ts);
    BudgetFloor(o, Exec(o, m, ts));
  }

  ghost predicate Returned(p: Proc) {
    p.main.ReturnedOk? || p.main.ReturnedErr?
  }

  lemma WorkerCanMove(o: Origin, s: Sys, w: nat) returns (t: Step)
    requires s.proc.Some? && w < |s.proc.value.workers|
    requires var x := s.proc.value.workers[w]; JobOf(x) >= 0 || (x.Idle? && s.proc.value.publisher.Closed?)
    ensures Internal(t) && Enabled(o, s, t) && !t.Cancel?
  {
    var x := s.proc.value.workers[w];
    match x
    case Idle => t := Leave(w);
    case Got(_) => t := Check(w);
    case Trying(_, tries) => t := if tries < MAX_TRIES then Ask(w, s.proc.value.url) else GiveUp(w, false);
    case Asking(_, _, _) => t := SendFail(w);
    case Copying(_, _, _, _) => t := CopyFail(w);
    case Copied(_) => t := Commit(w, true);
    case Exited =>
  }

  // ----- when the call returns -----

  /** The publisher left without closing the job channel while worker w waits on it. */
  ghost predicate Parked(p: Proc, w: nat) {
    && w < |p.workers| && p.workers[w].Idle? && p.publisher.Gone?
    && (p.main.Selecting? || p.main.Draining?)
  }

  /** Nothing can happen any more, except that the context is cancelled. */
  ghost predicate AtRest(o: Origin, e: Sys) {
    forall t :: Internal(t) && !t.Cancel? ==> !Enabled(o, e, t)
  }

  /** A call that has not returned and has no parked worker can go on. */
  lemma StateCanMove(o: Origin, e: Sys) returns (t: Step)
    requires e.proc.Some? && Flow(e.proc.value)
    requires var p := e.proc.value; !Returned(p) && forall w: nat :: !Parked(p, w)
    ensures Internal(t) && Enabled(o, e, t) && !t.Cancel?
  {
    var p := e.proc.value;
    if p.main.Opening? { return Truncate; }
    if p.main.Saving? { return MainSave(true); }
    if AllExited(p.workers) { return if p.main.Selecting? then MainFinished else MainDrained; }
    var w: nat :| w < |p.workers| && !p.workers[w].Exited?;
    if JobOf(p.workers[w]) >= 0 || p.publisher.Closed? {
      t := WorkerCanMove(o, e, w);
    } else {
      assert !Parked(p, w);
      t := if p.next >= |p.done| then CloseJobs else if p.done[p.next] then Skip else Publish(w);
    }
  }

  lemma ReachedFlow(o: Origin, s: Sys, ts: seq<Step>)
    requires Trustworthy(o) && Init(o, s) && Run(o, s, ts) && Exec(o, s, ts).proc.Some?
    ensures Flow(Exec(o, s, ts).proc.value)
  {
    InitInv(o, s);
    RunKeeps(o, s, ts);
    InvFacts(o, Exec(o, s, ts));
  }

  /** A call comes to rest in every schedule (RunIsFinite), and there it has returned if and only if no
    * worker is parked. Parking takes an error that a worker posted or a cancelled context. */
  lemma ReturnsUnlessParked(o: Origin, s: Sys, ts: seq<Step>)
    requires Trustworthy(o) && Init(o, s) && Run(o, s, ts) && Exec(o, s, ts).proc.Some?
    ensures var e := Exec(o, s, ts);
            AtRest(o, e) ==> (Returned(e.proc.value) <==> forall w: nat :: !Parked(e.proc.value, w))
    ensures var p := Exec(o, s, ts).proc.value;
            (exists w: nat :: Parked(p, w)) ==> p.posted > 0 || p.cancelled
  {
    ReachedFlow(o, s, ts);
    var e := Exec(o, s, ts);
    if !Returned(e.proc.value) && forall w: nat :: !Parked(e.proc.value, w) {
      var t := StateCanMove(o, e);
    }
  }

  /** As long as no error was posted and the context lives, a run that has not returned can go on. */
  lemma CleanRunNotStuck(o: Origin, s: Sys, before: seq<Step>) returns (t: Step)
    requires Trustworthy(o) && Init(o, s) && Run(o, s, before)
    requires var e := Exec(o, s, before);
             e.proc.Some? && !Returned(e.proc.value) && e.proc.value.posted == 0 && !e.proc.value.cancelled
    ensures Internal(t) && Enabled(o, Exec(o, s, before), t) && !t.Cancel?
  {
    ReachedFlow(o, s, before);
    t := StateCanMove(o, Exec(o, s, before));
  }

  /** Opening or truncating the part file failed, before any worker was started. */
  ghost predicate OpenFailed(p: Proc) {
    p.main.ReturnedErr? && p.workers == []
  }

  /** Whatever a clean run returns, all chunks are done and the file is the content, unless opening it failed. */
  lemma CleanReturnComplete(o: Origin, s: Sys, ts: seq<Step>)
    requires Trustworthy(o) && Init(o, s) && Run(o, s, ts) && Exec(o, s, ts).proc.Some?
    requires var p := Exec(o, s, ts).proc.value; Returned(p) && p.posted == 0 && !p.cancelled && !OpenFailed(p)
    ensures AllDone(Exec(o, s, ts).proc.value.done) && Exec(o, s, ts).file == o.content
  {
    InitInv(o, s);
    RunKeeps(o, s, ts);
    var e := Exec(o, s, ts);
    var p := e.proc.value;
    if p.main.ReturnedOk? {
      CleanRunComplete(o, s, ts);
    } else {
      assert p.workers[0].Exited? && p.publisher.Closed?;
      assert forall i :: i >= 0 ==> !InFlight(p.workers, i);
      AllRightIsContent(o, e.file, p.plan, p.done);
    }
  }

  /** A clean run comes to rest with the whole content in the file, unless opening it failed, whatever else it
    * returns (the last save may fail). */
  lemma CleanRunEnds(o: Origin, s: Sys, ts: seq<Step>)
    requires Trustworthy(o) && Init(o, s) && Run(o, s, ts)
    requires var e := Exec(o, s, ts);
             e.proc.Some? && e.proc.value.posted == 0 && !e.proc.value.cancelled && AtRest(o, e)
    ensures var e := Exec(o, s, ts); var p := e.proc.value;
            && Returned(p)
            && (!OpenFailed(p) ==> AllDone(p.done) && e.file == o.content && p.progress == |o.content|)
  {
    var e := Exec(o, s, ts);
    ReturnsUnlessParked(o, s, ts);
    if !OpenFailed(e.proc.value) {
      CleanReturnComplete(o, s, ts);
      ProgressExact(o, s, ts);
    }
  }

  // ----- an aborted run with an idle worker never returns -----

  lemma ParkedUnderControl(o: Origin, s: Sys, t: Step, w: nat)
    requires Enabled(o, s, t) && ControlStep(t) && s.proc.Some? && Parked(s.proc.value, w)
    ensures Apply(o, s, t).proc.Some? && Parked(Apply(o, s, t).proc.value, w)
  {
    assert !AllExited(s.proc.value.workers) by { assert !s.proc.value.workers[w].Exited?; }
  }

  lemma ParkedBesideWorkers(o: Origin, s: Sys, t: Step, w: nat)
    requires Enabled(o, s, t) && Internal(t) && !ControlStep(t) && s.proc.Some? && Parked(s.proc.value, w)
    ensures Apply(o, s, t).proc.Some? && Parked(Apply(o, s, t).proc.value, w)
  {
    WorkerFrame(o, s, t);
    assert t.w != w;
  }

  lemma ParkedStays(o: Origin, s: Sys, t: Step, w: nat)
    requires Enabled(o, s, t) && Internal(t) && s.proc.Some? && Parked(s.proc.value, w)
    ensures Apply(o, s, t).proc.Some? && Parked(Apply(o, s, t).proc.value, w)
  {
    if ControlStep(t) { ParkedUnderControl(o, s, t, w); } else { ParkedBesideWorkers(o, s, t, w); }
  }

  /** Once a worker is parked after an abort, the call does not return in any continuation of the run. */
  lemma {:induction false} ParkedNeverReturns(o: Origin, s: Sys, ts: seq<Step>, w: nat)
    requires s.proc.Some? && Parked(s.proc.value, w) && Run(o, s, ts) && AllInternal(ts)
    ensures Exec(o, s, ts).proc.Some? && !Returned(Exec(o, s, ts).proc.value)
    decreases |ts|
  {
    if ts != [] {
      assert Internal(ts[0]);
      ParkedStays(o, s, ts[0], w);
      ParkedNeverReturns(o, Apply(o, s, ts[0]), ts[1..], w);
    }
  }

  // ----- concrete runs -----

  lemma {:induction false} Snoc(o: Origin, s: Sys, ts: seq<Step>, t: Step)
    requires Run(o, s, ts) && Enabled(o, Exec(o, s, ts), t)
    ensures Run(o, s, ts + [t]) && Exec(o, s, ts + [t]) == Apply(o, Exec(o, s, ts), t)
    decreases |ts|
  {
    if ts == [] {
      assert ts + [t] == [t];
      assert Run(o, Apply(o, s, t), [t][1..]);
    } else {
      assert (ts + [t])[1..] == ts[1..] + [t];
      Snoc(o, Apply(o, s, ts[0]), ts[1..], t);
    }
  }

  const TWO_BYTES: Bytes := [1, 2]

  /** The first steps of a run of two one-byte chunks: chunk 0 is handed to worker 0. */
  lemma TwoChunkPublished(o: Origin, n: nat) returns (ts: seq<Step>, e: Sys)
    requires o.content == TWO_BYTES && o.onlyChunk.None? && n > 0
    ensures Run(o, Sys([], None, None), ts) && e == Exec(o, Sys([], None, None), ts)
    ensures e.file == [0, 0] && e.meta.None? && e.proc.Some?
    ensures var p := e.proc.value;
            && p.plan == Plan(2, 1) && p.done == [false, false] && p.workers == seq(n, i => Idle)[0 := Got(0)]
            && p.next == 1 && p.publisher.Feeding? && !p.abort && p.queued == 0 && p.posted == 0
            && p.lost == {} && p.main.Selecting? && !p.cancelled && p.url == "u"
  {
    var s := Sys([], None, None);
    var t0 := Launch("u", 1, n);
    assert Run(o, s, []) && Exec(o, s, []) == s;
    Snoc(o, s, [], t0);
    var p0 := NewProc(None, Plan(2, 1), "u", n);
    assert p0.done == [false, false] && !p0.done[0];
    Snoc(o, s, [] + [t0], Truncate);
    Snoc(o, s, [] + [t0] + [Truncate], Publish(0));
    ts := [] + [t0] + [Truncate] + [Publish(0)];
    e := Exec(o, s, ts);
    assert Resize([], 2) == [0, 0];
  }

  /** Worker 0 asks for chunk 0. */
  lemma TwoChunkStart(o: Origin, n: nat) returns (ts: seq<Step>, e: Sys)
    requires o.content == TWO_BYTES && o.onlyChunk.None? && n > 0
    ensures Run(o, Sys([], None, None), ts) && e == Exec(o, Sys([], None, None), ts)
    ensures e.file == [0, 0] && e.meta.None? && e.proc.Some?
    ensures var p := e.proc.value;
            && p.plan == Plan(2, 1) && p.done == [false, false] && p.workers == seq(n, i => Idle)[0 := Asking(0, 0, "u")]
            && p.next == 1 && p.publisher.Feeding? && !p.abort && p.queued == 0 && p.posted == 0
            && p.lost == {} && p.main.Selecting? && !p.cancelled
  {
    var s := Sys([], None, None);
    ts, e := TwoChunkPublished(o, n);
    Snoc(o, s, ts, Check(0));
    ts := ts + [Check(0)];
    Snoc(o, s, ts, Ask(0, "u"));
    ts := ts + [Ask(0, "u")];
    e := Exec(o, s, ts);
    assert seq(n, i => Idle)[0 := Got(0)][0 := Trying(0, 0)][0 := Asking(0, 0, "u")] == seq(n, i => Idle)[0 := Asking(0, 0, "u")];
  }

  /** A success can be reported although a worker failed: the error is still queued when all workers are gone. */
  lemma SuccessWithMissingChunks() returns (o: Origin, s: Sys, ts: seq<Step>)
    ensures Trustworthy(o) && Init(o, s) && Run(o, s, ts)
    ensures var e := Exec(o, s, ts);
            e.proc.Some? && e.proc.value.main.ReturnedOk? && e.file != o.content && !AllDone(e.proc.value.done)
  {
    o, s := Origin(TWO_BYTES, true, None), Sys([], None, None);
    var us := OnlyWorkerFails(o);
    Snoc(o, s, us, MainFinished);
    Snoc(o, s, us + [MainFinished], MainSave(true));
    ts := us + [MainFinished] + [MainSave(true)];
    assert o.content[0] == 1 && Exec(o, s, us).file[0] == 0;
    assert !Exec(o, s, ts).proc.value.done[0];
  }

  lemma OnlyWorkerFails(o: Origin) returns (ts: seq<Step>)
    requires o == Origin(TWO_BYTES, true, None)
    ensures Run(o, Sys([], None, None), ts)
    ensures var e := Exec(o, Sys([], None, None), ts);
            && e.file == [0, 0] && e.proc.Some? && e.proc.value.main.Selecting?
            && e.proc.value.workers == [Exited] && e.proc.value.done == [false, false]
  {
    var us, e := TwoChunkStart(o, 1);
    Snoc(o, Sys([], None, None), us, Fatal(0));
    ts := us + [Fatal(0)];
    assert Apply(o, e, Fatal(0)).proc.value.workers == [Exited];
  }

  /** With two workers the same failure parks the second one, so that the call never returns. */
  lemma AbortCanPark() returns (o: Origin, s: Sys, ts: seq<Step>)
    ensures Trustworthy(o) && Init(o, s) && Run(o, s, ts)
    ensures Exec(o, s, ts).proc.Some? && Parked(Exec(o, s, ts).proc.value, 1)
  {
    o, s := Origin(TWO_BYTES, true, None), Sys([], None, None);
    var us, e := TwoChunkStart(o, 2);
    Snoc(o, s, us, Fatal(0));
    Snoc(o, s, us + [Fatal(0)], PublisherAbort);
    Snoc(o, s, us + [Fatal(0)] + [PublisherAbort], MainErr);
    ts := us + [Fatal(0)] + [PublisherAbort] + [MainErr];
  }
}
