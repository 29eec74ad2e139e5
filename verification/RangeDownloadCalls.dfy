/** What a call of the range download does, read off its schedule: which URL its attempts ask, what its saves write, how
  * often it tries, and that an error it saw is returned. */
module RangeDownloadCalls {
  import opened Wrappers
  import opened Chunks
  import opened RangeDownload
  import opened RangeDownloadSafety
  import opened RangeDownloadLiveness

  // ----- the schedule alone -----

  /** The URL of the running call: what its last successful refresh brought, or else what it was launched with. */
  function CallUrl(ts: seq<Step>): Option<string>
    decreases |ts|
  {
    if ts == [] then None
    else
      var before, t := ts[..|ts| - 1], ts[|ts| - 1];
      if t.Launch? then Some(t.url)
      else if t.Crash? then None
      else if t.Refresh? && t.renewed.Some? then t.renewed
      else CallUrl(before)
  }

  /** The chunk size that the running call was launched with. */
  function CallChunk(ts: seq<Step>): Option<int>
    decreases |ts|
  {
    if ts == [] then None
    else
      var before, t := ts[..|ts| - 1], ts[|ts| - 1];
      if t.Launch? then Some(t.chunk) else if t.Crash? then None else CallChunk(before)
  }

  /** How many requests worker w has sent since it last took up a chunk. */
  function Asks(ts: seq<Step>, w: nat): nat
    decreases |ts|
  {
    if ts == [] then 0
    else
      var before, t := ts[..|ts| - 1], ts[|ts| - 1];
      if t.Launch? || (t.Check? && t.w == w) then 0
      else if t.Ask? && t.w == w then 1 + Asks(before, w)
      else Asks(before, w)
  }

  lemma {:induction false} RunInit(o: Origin, s: Sys, ts: seq<Step>)
    requires Run(o, s, ts) && ts != []
    ensures var before, t := ts[..|ts| - 1], ts[|ts| - 1];
            Run(o, s, before) && Enabled(o, Exec(o, s, before), t) && Exec(o, s, ts) == Apply(o, Exec(o, s, before), t)
    decreases |ts|
  {
    if |ts| > 1 {
      RunInit(o, Apply(o, s, ts[0]), ts[1..]);
      assert ts[1..][..|ts| - 2] == ts[..|ts| - 1][1..];
    }
  }

  // ----- what the state says about it -----

  ghost predicate TriesFit(x: Worker, asks: nat) {
    && (x.Trying? ==> x.tries == asks <= 4)
    && (x.Asking? || x.Copying? ==> x.tries + 1 == asks <= 4)
  }

  ghost predicate CallFits(o: Origin, e: Sys, ts: seq<Step>) {
    && (e.proc.Some? <==> CallUrl(ts).Some?)
    && (e.proc.Some? <==> CallChunk(ts).Some?)
    && (e.proc.Some? ==> e.proc.value.url == CallUrl(ts).value && e.proc.value.plan == Plan(|o.content|, CallChunk(ts).value))
  }

  ghost predicate AllTriesFit(e: Sys, ts: seq<Step>) {
    e.proc.Some? ==> forall w :: 0 <= w < |e.proc.value.workers| ==> TriesFit(e.proc.value.workers[w], Asks(ts, w))
  }

  lemma FileStepKeepsCall(o: Origin, e: Sys, t: Step)
    requires Enabled(o, e, t) && (t.Truncate? || t.Write? || t.Commit? || t.MainSave?)
    ensures e.proc.Some? && Apply(o, e, t).proc.Some?
    ensures var p, q := e.proc.value, Apply(o, e, t).proc.value; q.plan == p.plan && q.url == p.url
  {
  }

  /** A step inside a call keeps its plan, and its URL unless it brings another one. */
  lemma CallKept(o: Origin, e: Sys, t: Step)
    requires Enabled(o, e, t) && !t.Launch? && !t.Crash?
    ensures e.proc.Some? && Apply(o, e, t).proc.Some?
    ensures var p, q := e.proc.value, Apply(o, e, t).proc.value;
            q.plan == p.plan && q.url == if t.Refresh? && t.renewed.Some? then t.renewed.value else p.url
  {
    if t.Truncate? || t.Write? || t.Commit? || t.MainSave? {
      FileStepKeepsCall(o, e, t);
    } else {
      assert Apply(o, e, t) == e.(proc := Some(ProcStep(e.proc.value, t)));
    }
  }

  lemma StepFits(o: Origin, e: Sys, before: seq<Step>, t: Step)
    requires Enabled(o, e, t) && CallFits(o, e, before)
    ensures CallFits(o, Apply(o, e, t), before + [t])
  {
    assert (before + [t])[..|before|] == before;
    if !t.Launch? && !t.Crash? { CallKept(o, e, t); }
  }

  lemma {:induction false} RunFits(o: Origin, s: Sys, ts: seq<Step>)
    requires s.proc.None? && Run(o, s, ts)
    ensures CallFits(o, Exec(o, s, ts), ts)
    decreases |ts|
  {
    if ts != [] {
      var before, t := ts[..|ts| - 1], ts[|ts| - 1];
      RunInit(o, s, ts);
      RunFits(o, s, before);
      StepFits(o, Exec(o, s, before), before, t);
      assert before + [t] == ts;
    }
  }

  /** The other workers are as they were, and so are their counts. */
  lemma OthersFit(e: Sys, e': Sys, before: seq<Step>, t: Step, w: nat)
    requires e.proc.Some? && e'.proc.Some? && AllTriesFit(e, before) && !t.Launch? && (t.Check? || t.Ask? ==> t.w == w)
    requires var p, q := e.proc.value, e'.proc.value;
             |q.workers| == |p.workers| && forall v :: 0 <= v < |p.workers| && v != w ==> q.workers[v] == p.workers[v]
    requires w < |e'.proc.value.workers| ==> TriesFit(e'.proc.value.workers[w], Asks(before + [t], w))
    ensures AllTriesFit(e', before + [t])
  {
    assert (before + [t])[..|before|] == before;
  }

  /** The worker that moves keeps its count in step. */
  lemma OwnTriesFit(o: Origin, e: Sys, before: seq<Step>, t: Step)
    requires Enabled(o, e, t) && Internal(t) && !ControlStep(t) && !t.Publish? && t.w < |e.proc.value.workers|
    requires TriesFit(e.proc.value.workers[t.w], Asks(before, t.w))
    ensures Apply(o, e, t).proc.Some? && t.w < |Apply(o, e, t).proc.value.workers|
    ensures TriesFit(Apply(o, e, t).proc.value.workers[t.w], Asks(before + [t], t.w))
  {
    assert (before + [t])[..|before|] == before;
  }

  lemma WorkerTriesFit(o: Origin, e: Sys, before: seq<Step>, t: Step)
    requires Enabled(o, e, t) && Internal(t) && !ControlStep(t) && AllTriesFit(e, before)
    ensures AllTriesFit(Apply(o, e, t), before + [t])
  {
    if t.Publish? {
      OthersFit(e, Apply(o, e, t), before, t, t.w);
    } else {
      WorkerFrame(o, e, t);
      OwnTriesFit(o, e, before, t);
      OthersFit(e, Apply(o, e, t), before, t, t.w);
    }
  }

  lemma StepTriesFit(o: Origin, e: Sys, before: seq<Step>, t: Step)
    requires Enabled(o, e, t) && AllTriesFit(e, before)
    ensures AllTriesFit(Apply(o, e, t), before + [t])
  {
    if Internal(t) && !ControlStep(t) {
      WorkerTriesFit(o, e, before, t);
    } else if Internal(t) && !t.Truncate? {
      OthersFit(e, Apply(o, e, t), before, t, |e.proc.value.workers|);
    }
  }

  lemma {:induction false} RunTriesFit(o: Origin, s: Sys, ts: seq<Step>)
    requires s.proc.None? && Run(o, s, ts)
    ensures AllTriesFit(Exec(o, s, ts), ts)
    decreases |ts|
  {
    if ts != [] {
      var before, t := ts[..|ts| - 1], ts[|ts| - 1];
      RunInit(o, s, ts);
      RunTriesFit(o, s, before);
      StepTriesFit(o, Exec(o, s, before), before, t);
      assert before + [t] == ts;
    }
  }

  // ----- main results -----

  /** Every request goes to the URL that the call's last successful refresh brought, or else to the one it was launched
    * with. */
  lemma AskedUrlIsNewest(o: Origin, s: Sys, ts: seq<Step>, w: nat, url: string)
    requires s.proc.None? && Run(o, s, ts) && Enabled(o, Exec(o, s, ts), Ask(w, url))
    ensures CallUrl(ts) == Some(url)
  {
    RunFits(o, s, ts);
  }

  /** Nothing that gives the call another URL, or ends it. */
  ghost predicate KeepsUrl(ts: seq<Step>) {
    forall i :: 0 <= i < |ts| ==> !ts[i].Launch? && !ts[i].Crash? && !(ts[i].Refresh? && ts[i].renewed.Some?)
  }

  lemma {:induction false} UrlKept(us: seq<Step>, ts: seq<Step>)
    requires KeepsUrl(ts)
    ensures CallUrl(us + ts) == CallUrl(us)
    decreases |ts|
  {
    if ts == [] {
      assert us + ts == us;
    } else {
      assert (us + ts)[..|us + ts| - 1] == us + ts[..|ts| - 1];
      UrlKept(us, ts[..|ts| - 1]);
    }
  }

  /** After a worker renewed the URL, every request of every worker goes to it, until it is renewed again. */
  lemma RenewalIsUsed(o: Origin, s: Sys, us: seq<Step>, v: nat, url: string, ts: seq<Step>, w: nat, asked: string)
    requires s.proc.None? && KeepsUrl(ts) && Run(o, s, us + [Refresh(v, Some(url))] + ts)
    requires Enabled(o, Exec(o, s, us + [Refresh(v, Some(url))] + ts), Ask(w, asked))
    ensures asked == url
  {
    AskedUrlIsNewest(o, s, us + [Refresh(v, Some(url))] + ts, w, asked);
    UrlKept(us + [Refresh(v, Some(url))], ts);
  }

  /** A save writes the call's URL, its size and chunk size, and its bitmap. */
  lemma SaveWritesCall(o: Origin, s: Sys, ts: seq<Step>, t: Step)
    requires s.proc.None? && Run(o, s, ts) && Enabled(o, Exec(o, s, ts), t)
    requires (t.Commit? && t.saved) || (t.MainSave? && t.saved)
    ensures CallUrl(ts).Some? && CallChunk(ts).Some?
    ensures var e := Apply(o, Exec(o, s, ts), t);
            && e.proc.Some?
            && e.meta == Some(Meta(CallUrl(ts).value, |o.content|, CallChunk(ts).value, e.proc.value.done))
  {
    RunFits(o, s, ts);
  }

  /** A finished copy marks its chunk and no other, and a failed save is an error of the call. */
  lemma CommitMarksOne(o: Origin, s: Sys, ts: seq<Step>, w: nat, saved: bool)
    requires Trustworthy(o) && Init(o, s) && Run(o, s, ts) && Enabled(o, Exec(o, s, ts), Commit(w, saved))
    ensures var p := Exec(o, s, ts).proc.value; var q := Apply(o, Exec(o, s, ts), Commit(w, saved)).proc.value;
            && p.workers[w].idx < |p.done| == |q.done| && !p.done[p.workers[w].idx]
            && (forall i :: 0 <= i < |q.done| ==> q.done[i] == (p.done[i] || i == p.workers[w].idx))
            && q.posted == p.posted + if saved then 0 else 1
  {
    InitInv(o, s);
    RunKeeps(o, s, ts);
    var p := Exec(o, s, ts).proc.value;
    assert JobSound(JobOf(p.workers[w]), p.next, p.done, p.lost);
  }

  /** A worker sends at most four requests for a chunk, and gives it up only after the fourth. */
  lemma FourRequests(o: Origin, s: Sys, ts: seq<Step>, w: nat)
    requires s.proc.None? && Run(o, s, ts)
    ensures forall url :: Enabled(o, Exec(o, s, ts), Ask(w, url)) ==> Asks(ts, w) < 4
    ensures forall silent :: Enabled(o, Exec(o, s, ts), GiveUp(w, silent)) ==> Asks(ts, w) == 4
  {
    RunTriesFit(o, s, ts);
  }

  ghost predicate SawError(e: Sys) {
    e.proc.Some? && (e.proc.value.main.Draining? || e.proc.value.main.ReturnedErr?)
  }

  lemma {:induction false} ErrorStays(o: Origin, e: Sys, ts: seq<Step>)
    requires SawError(e) && Run(o, e, ts) && AllInternal(ts)
    ensures SawError(Exec(o, e, ts))
    decreases |ts|
  {
    if ts != [] {
      assert Internal(ts[0]);
      ErrorStaysStep(o, e, ts[0]);
      ErrorStays(o, Apply(o, e, ts[0]), ts[1..]);
    }
  }

  lemma ErrorStaysStep(o: Origin, e: Sys, t: Step)
    requires SawError(e) && Enabled(o, e, t) && Internal(t)
    ensures SawError(Apply(o, e, t))
  {
    if !ControlStep(t) && !t.Publish? { WorkerFrame(o, e, t); }
  }

  /** Once the call took an error from the channel or saw its context end, it cannot return success. */
  lemma ErrorIsReturned(o: Origin, s: Sys, us: seq<Step>, t: Step, ts: seq<Step>)
    requires Run(o, s, us) && Enabled(o, Exec(o, s, us), t) && (t.MainErr? || t.MainCtx?)
    requires Run(o, Apply(o, Exec(o, s, us), t), ts) && AllInternal(ts)
    ensures var e := Exec(o, Apply(o, Exec(o, s, us), t), ts); e.proc.Some? && !e.proc.value.main.ReturnedOk?
  {
    ErrorStays(o, Apply(o, Exec(o, s, us), t), ts);
  }

  /** A call that finds a complete bitmap returns success at once, and starts no worker. */
  lemma CompleteReturnsAtOnce(o: Origin, s: Sys, url: string, chunk: int, concurrency: int)
    requires Enabled(o, s, Launch(url, chunk, concurrency))
    requires s.meta.Some? && s.meta.value.size == |o.content| && s.meta.value.chunk == chunk
    requires |s.meta.value.done| == Count(Plan(|o.content|, chunk)) && forall i :: 0 <= i < |s.meta.value.done| ==> s.meta.value.done[i]
    ensures var p := Apply(o, s, Launch(url, chunk, concurrency)).proc.value; p.main.ReturnedOk? && p.workers == []
  {
  }
}
