/** For which calls of the range download a worker can be left waiting for ever: any call whose context is cancelled,
  * and otherwise exactly the calls with at least two workers and two chunks. */
module RangeDownloadParking {
  import opened Wrappers
  import opened Chunks
  import opened RangeDownload
  import opened RangeDownloadSafety
  import opened RangeDownloadLiveness

  // ----- what parking takes -----

  ghost predicate SomeExited(ws: seq<Worker>) {
    exists w :: 0 <= w < |ws| && ws[w].Exited?
  }

  /** An abort in a live context is the mark of a worker that left, and that worker had been handed a chunk. */
  ghost predicate Marks(p: Proc) {
    && (p.workers == [] ==> p.publisher.Feeding? && !p.abort && p.queued == 0)
    && (p.workers != [] ==> |p.workers| == p.concurrency)
    && (!p.cancelled && (p.abort || p.queued > 0) ==> SomeExited(p.workers))
    && (SomeExited(p.workers) && !p.publisher.Closed? ==> p.next >= 1)
    && (forall w :: 0 <= w < |p.workers| && JobOf(p.workers[w]) >= 0 ==> p.next >= 1)
    && (p.publisher.Gone? ==> p.abort && p.next < |p.done|)
    && |p.done| == Count(p.plan)
  }

  lemma ExitedStays(ws: seq<Worker>, w: nat, x: Worker)
    requires w < |ws| && !ws[w].Exited? && SomeExited(ws)
    ensures SomeExited(ws[w := x])
  {
    var v :| 0 <= v < |ws| && ws[v].Exited?;
    assert ws[w := x][v].Exited?;
  }

  lemma NowExited(ws: seq<Worker>, w: nat)
    requires w < |ws|
    ensures SomeExited(ws[w := Exited])
  {
    assert ws[w := Exited][w].Exited?;
  }

  /** Only the changed worker can have become the one that exited. */
  lemma ExitedBefore(ws: seq<Worker>, w: nat, x: Worker)
    requires w < |ws| && SomeExited(ws[w := x]) && !x.Exited?
    ensures SomeExited(ws)
  {
    var v :| 0 <= v < |ws| && ws[w := x][v].Exited?;
    assert ws[v].Exited?;
  }

  /** A worker moves on with its job, perhaps with another URL, progress or bitmap. */
  lemma MarksMove(p: Proc, q: Proc, w: nat, x: Worker)
    requires Marks(p) && w < |p.workers| && !p.workers[w].Exited? && !x.Exited?
    requires q.workers == p.workers[w := x] && (JobOf(x) >= 0 ==> JobOf(p.workers[w]) >= 0 || q.next >= 1)
    requires q.publisher == p.publisher && q.abort == p.abort && q.queued == p.queued && q.cancelled == p.cancelled
    requires q.concurrency == p.concurrency && q.plan == p.plan && |q.done| == |p.done|
    requires q.next == p.next || (q.next == p.next + 1 && q.publisher.Feeding?)
    ensures Marks(q)
  {
    if SomeExited(p.workers) { ExitedStays(p.workers, w, x); }
    if SomeExited(q.workers) { ExitedBefore(p.workers, w, x); }
  }

  /** A worker leaves, with an error or without. */
  lemma MarksLeave(p: Proc, q: Proc, w: nat)
    requires Marks(p) && w < |p.workers| && (JobOf(p.workers[w]) >= 0 || p.publisher.Closed?)
    requires q.workers == p.workers[w := Exited] && q.publisher == p.publisher && q.next == p.next
    requires q.cancelled == p.cancelled && q.concurrency == p.concurrency && q.plan == p.plan && |q.done| == |p.done|
    requires p.abort ==> q.abort
    ensures Marks(q)
  {
    NowExited(p.workers, w);
  }

  lemma AttemptKeepsMarks(o: Origin, s: Sys, t: Step)
    requires Enabled(o, s, t) && s.proc.Some? && Marks(s.proc.value)
    requires t.Ask? || t.SendFail? || t.Refresh? || t.Body?
    ensures Marks(Apply(o, s, t).proc.value)
  {
    var p, q := s.proc.value, Apply(o, s, t).proc.value;
    MarksMove(p, q, t.w, q.workers[t.w]);
  }

  lemma CopyKeepsMarks(o: Origin, s: Sys, t: Step)
    requires Enabled(o, s, t) && s.proc.Some? && Marks(s.proc.value)
    requires t.CopyFail? || t.CopyEnd? || t.Write?
    ensures Marks(Apply(o, s, t).proc.value)
  {
    var p, q := s.proc.value, Apply(o, s, t).proc.value;
    MarksMove(p, q, t.w, q.workers[t.w]);
  }

  lemma JobKeepsMarks(o: Origin, s: Sys, t: Step)
    requires Enabled(o, s, t) && s.proc.Some? && Marks(s.proc.value)
    requires t.Publish? || (t.Check? && !s.proc.value.abort) || (t.Commit? && t.saved)
    ensures Marks(Apply(o, s, t).proc.value)
  {
    var p, q := s.proc.value, Apply(o, s, t).proc.value;
    MarksMove(p, q, t.w, q.workers[t.w]);
  }

  lemma ExitKeepsMarks(o: Origin, s: Sys, t: Step)
    requires Enabled(o, s, t) && s.proc.Some? && Marks(s.proc.value)
    requires t.Leave? || t.CtxSeen? || t.Fatal? || t.GiveUp? || (t.Check? && s.proc.value.abort) || (t.Commit? && !t.saved)
    ensures Marks(Apply(o, s, t).proc.value)
  {
    var p, q := s.proc.value, Apply(o, s, t).proc.value;
    MarksLeave(p, q, t.w);
  }

  lemma ControlKeepsMarks(o: Origin, s: Sys, t: Step)
    requires Enabled(o, s, t) && Internal(t) && s.proc.Some? && Marks(s.proc.value) && Flow(s.proc.value)
    requires ControlStep(t)
    ensures Marks(Apply(o, s, t).proc.value)
  {
    if t.Truncate? {
      var q := Apply(o, s, t).proc.value;
      assert forall w :: 0 <= w < |q.workers| ==> q.workers[w].Idle?;
    }
  }

  lemma StepKeepsMarks(o: Origin, s: Sys, t: Step)
    requires Enabled(o, s, t) && (s.proc.Some? ==> Marks(s.proc.value) && Flow(s.proc.value))
    ensures Apply(o, s, t).proc.Some? ==> Marks(Apply(o, s, t).proc.value)
  {
    if t.Launch? || t.Crash? {
    } else if ControlStep(t) {
      ControlKeepsMarks(o, s, t);
    } else if t.Ask? || t.SendFail? || t.Refresh? || t.Body? {
      AttemptKeepsMarks(o, s, t);
    } else if t.CopyFail? || t.CopyEnd? || t.Write? {
      CopyKeepsMarks(o, s, t);
    } else if t.Publish? || (t.Check? && !s.proc.value.abort) || (t.Commit? && t.saved) {
      JobKeepsMarks(o, s, t);
    } else {
      ExitKeepsMarks(o, s, t);
    }
  }

  lemma {:induction false} RunKeepsMarks(o: Origin, s: Sys, ts: seq<Step>)
    requires Trustworthy(o) && Inv(o, s) && Run(o, s, ts) && (s.proc.Some? ==> Marks(s.proc.value))
    ensures Exec(o, s, ts).proc.Some? ==> Marks(Exec(o, s, ts).proc.value)
    decreases |ts|
  {
    if ts != [] {
      StepKeeps(o, s, ts[0]);
      StepKeepsMarks(o, s, ts[0]);
      RunKeepsMarks(o, Apply(o, s, ts[0]), ts[1..]);
    }
  }

  /** In a live context, parking takes two workers and two chunks. */
  lemma ParkingTakesTwo(o: Origin, s: Sys, ts: seq<Step>, w: nat)
    requires Trustworthy(o) && Init(o, s) && Run(o, s, ts) && Exec(o, s, ts).proc.Some?
    requires var p := Exec(o, s, ts).proc.value; Parked(p, w) && !p.cancelled
    ensures var p := Exec(o, s, ts).proc.value; p.concurrency >= 2 && Count(p.plan) >= 2
  {
    InitInv(o, s);
    RunKeepsMarks(o, s, ts);
    var p := Exec(o, s, ts).proc.value;
    var v :| 0 <= v < |p.workers| && p.workers[v].Exited?;
    assert v != w;
  }

  // ----- runs that park -----

  /** A call with this chunk size and number of workers can leave a worker waiting for ever, in a context that is
    * cancelled or not. */
  ghost predicate CanPark(o: Origin, chunk: int, n: nat, cancelled: bool) {
    exists s, ts, w: nat :: Init(o, s) && Run(o, s, ts) && ParkedCall(o, Exec(o, s, ts), chunk, n, cancelled, w)
  }

  ghost predicate ParkedCall(o: Origin, e: Sys, chunk: int, n: nat, cancelled: bool, w: nat) {
    && e.proc.Some? && Parked(e.proc.value, w)
    && e.proc.value.plan == Plan(|o.content|, chunk) && e.proc.value.concurrency == n && e.proc.value.cancelled == cancelled
  }

  const NOTHING: Sys := Sys([], None, None)

  /** The workers have started and no chunk was handed out yet. */
  ghost predicate Started(o: Origin, e: Sys, chunk: int, n: nat) {
    && e.proc.Some? && e.proc.value.plan == Plan(|o.content|, chunk) && e.proc.value.concurrency == n
    && |e.proc.value.workers| == n && (forall w :: 0 <= w < n ==> e.proc.value.workers[w].Idle?)
    && e.proc.value.next == 0 && e.proc.value.publisher.Feeding? && e.proc.value.main.Selecting?
    && !e.proc.value.abort && !e.proc.value.cancelled && e.proc.value.queued == 0
    && |e.proc.value.done| == Count(e.proc.value.plan) && forall i :: 0 <= i < |e.proc.value.done| ==> !e.proc.value.done[i]
  }

  lemma Starts(o: Origin, chunk: int, n: nat) returns (ts: seq<Step>)
    requires |o.content| > 0 && ChunkAllowed(o, chunk) && n > 0
    ensures Run(o, NOTHING, ts) && Started(o, Exec(o, NOTHING, ts), chunk, n)
  {
    var t := Launch("u", chunk, n);
    Snoc(o, NOTHING, [], t);
    assert [] + [t] == [t];
    var p := Exec(o, NOTHING, [t]).proc.value;
    assert !p.done[0];
    Snoc(o, NOTHING, [t], Truncate);
    ts := [t] + [Truncate];
  }

  /** Cancelling the context is enough: the publisher leaves while worker 0 waits for a job. */
  lemma CancelParks(o: Origin, chunk: int, n: nat)
    requires |o.content| > 0 && ChunkAllowed(o, chunk) && n > 0
    ensures CanPark(o, chunk, n, true)
  {
    var ts := Starts(o, chunk, n);
    Snoc(o, NOTHING, ts, Cancel);
    ts := ts + [Cancel];
    Snoc(o, NOTHING, ts, MainCtx);
    ts := ts + [MainCtx];
    assert !Exec(o, NOTHING, ts).proc.value.done[0];
    Snoc(o, NOTHING, ts, PublisherAbort);
    ts := ts + [PublisherAbort];
    var w: nat := 0;
    assert ParkedCall(o, Exec(o, NOTHING, ts), chunk, n, true, w);
  }

  /** So is a worker that fails with its first chunk, while another one and a chunk are left. */
  lemma FailureParks(o: Origin, chunk: int, n: nat)
    requires ChunkAllowed(o, chunk) && n >= 2 && Count(Plan(|o.content|, chunk)) >= 2
    ensures CanPark(o, chunk, n, false)
  {
    var ts := Starts(o, chunk, n);
    ts := FirstFails(o, ts, chunk, n);
    var p := Exec(o, NOTHING, ts).proc.value;
    Snoc(o, NOTHING, ts, PublisherAbort);
    ts := ts + [PublisherAbort];
    var w: nat := 1;
    assert ParkedCall(o, Exec(o, NOTHING, ts), chunk, n, false, w);
  }

  lemma FirstFails(o: Origin, us: seq<Step>, chunk: int, n: nat) returns (ts: seq<Step>)
    requires n >= 2 && Run(o, NOTHING, us) && Started(o, Exec(o, NOTHING, us), chunk, n) && Count(Plan(|o.content|, chunk)) >= 2
    ensures Run(o, NOTHING, ts)
    ensures var e := Exec(o, NOTHING, ts);
            && e.proc.Some? && e.proc.value.plan == Plan(|o.content|, chunk) && e.proc.value.concurrency == n
            && |e.proc.value.workers| == n && e.proc.value.workers[1].Idle? && e.proc.value.main.Selecting?
            && e.proc.value.publisher.Feeding? && e.proc.value.abort && !e.proc.value.cancelled
            && e.proc.value.next == 1 < |e.proc.value.done| && !e.proc.value.done[1]
  {
    Snoc(o, NOTHING, us, Publish(0));
    ts := us + [Publish(0)];
    Snoc(o, NOTHING, ts, Check(0));
    ts := ts + [Check(0)];
    var url := Exec(o, NOTHING, ts).proc.value.url;
    Snoc(o, NOTHING, ts, Ask(0, url));
    ts := ts + [Ask(0, url)];
    Snoc(o, NOTHING, ts, Fatal(0));
    ts := ts + [Fatal(0)];
  }

  /** A call can hang if its context may be cancelled; in a live context it can hang exactly if it has at least two
    * workers and at least two chunks. */
  lemma CanParkExactly(o: Origin, chunk: int, n: nat)
    requires Trustworthy(o) && ChunkAllowed(o, chunk) && n > 0
    ensures CanPark(o, chunk, n, true)
    ensures CanPark(o, chunk, n, false) <==> n >= 2 && Count(Plan(|o.content|, chunk)) >= 2
  {
    CancelParks(o, chunk, n);
    if n >= 2 && Count(Plan(|o.content|, chunk)) >= 2 { FailureParks(o, chunk, n); }
    forall s, ts, w: nat | Init(o, s) && Run(o, s, ts) && ParkedCall(o, Exec(o, s, ts), chunk, n, false, w)
      ensures n >= 2 && Count(Plan(|o.content|, chunk)) >= 2
    {
      ParkingTakesTwo(o, s, ts, w);
    }
  }
}
