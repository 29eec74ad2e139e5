/** What crash safety needs from the remote side: exactly the remote contents of at least two bytes whose
  * cut-off bodies may hold anything, under changing chunk sizes, have a run after which a persisted bit lies. */
module RangeDownloadTrust {
  import opened Wrappers
  import opened Chunks
  import opened RangeDownload
  import opened RangeDownloadSafety
  import opened RangeDownloadLiveness

  /** The persisted bitmap, as a run with this chunk size would load it, claims chunk i. */
  ghost predicate Claims(o: Origin, e: Sys, chunk: int, i: nat) {
    var p := Plan(|o.content|, chunk);
    chunk > 0 && Loadable(e.meta, p) && i < Count(p) && e.meta.value.done[i]
  }

  /** The file region of chunk i holds the remote bytes. */
  ghost predicate RegionRight(o: Origin, e: Sys, chunk: int, i: nat) {
    var p := Plan(|o.content|, chunk);
    0 <= Start(p, i) < End(p, i) <= |e.file| == |o.content|
    && e.file[Start(p, i)..End(p, i)] == o.content[Start(p, i)..End(p, i)]
  }

  /** In no run over this content does a persisted bit that could be loaded lie. */
  ghost predicate CrashSafe(o: Origin) {
    forall s, ts, chunk, i: nat :: Init(o, s) && Run(o, s, ts) && Claims(o, Exec(o, s, ts), chunk, i) ==>
      RegionRight(o, Exec(o, s, ts), chunk, i)
  }

  // ----- a single byte -----

  function Trusted(o: Origin): Origin {
    o.(prefixBodies := true)
  }

  /** A body of at most one byte is a prefix of the range. */
  lemma OneByteBody(o: Origin, p: Plan, idx: nat, body: Bytes)
    requires |o.content| == 1
    ensures BodyOk(o, p, idx, body) <==> BodyOk(Trusted(o), p, idx, body)
  {
    if BodyOk(o, p, idx, body) && |body| < WantLen(p, idx) { assert body == []; }
  }

  lemma OneByteStep(o: Origin, s: Sys, t: Step)
    requires |o.content| == 1
    ensures Enabled(o, s, t) <==> Enabled(Trusted(o), s, t)
    ensures Enabled(o, s, t) ==> Apply(o, s, t) == Apply(Trusted(o), s, t)
  {
    if t.Body? && s.proc.Some? && IsAsking(s.proc.value, t.w) {
      OneByteBody(o, s.proc.value.plan, s.proc.value.workers[t.w].idx, t.body);
    }
  }

  lemma {:induction false} OneByteRun(o: Origin, s: Sys, ts: seq<Step>)
    requires |o.content| == 1 && Run(o, s, ts)
    ensures Run(Trusted(o), s, ts) && Exec(o, s, ts) == Exec(Trusted(o), s, ts)
    decreases |ts|
  {
    if ts != [] {
      OneByteStep(o, s, ts[0]);
      OneByteRun(o, Apply(o, s, ts[0]), ts[1..]);
    }
  }

  lemma TrustedIsSafe(o: Origin)
    requires Trustworthy(o) || |o.content| < 2
    ensures CrashSafe(o)
  {
    forall s, ts, chunk, i: nat | Init(o, s) && Run(o, s, ts) && Claims(o, Exec(o, s, ts), chunk, i)
      ensures RegionRight(o, Exec(o, s, ts), chunk, i)
    {
      if Trustworthy(o) {
        PersistedBitsNeverLie(o, s, ts, chunk, i);
      } else {
        assert |o.content| == 1;
        OneByteRun(o, s, ts);
        PersistedBitsNeverLie(Trusted(o), s, ts, chunk, i);
      }
    }
  }

  // ----- the run that lies -----

  /** Cut-off bodies may hold anything, the chunk size may change, and there is room for two chunks. */
  ghost predicate Treacherous(o: Origin) {
    |o.content| >= 2 && !o.prefixBodies && o.onlyChunk.None?
  }

  const NOTHING: Sys := Sys([], None, None)

  lemma OneByteChunks(n: int)
    requires n > 0
    ensures Count(Plan(n, 1)) == n && Count(Plan(n, n)) == 1
  {
    assert (Count(Plan(n, 1)) - 1) * 1 < n <= Count(Plan(n, 1)) * 1;
    var k := Count(Plan(n, n));
    assert k > 1 ==> (k - 1) * n >= n;
  }

  /** From here on worker 0, alone, is about to ask for chunk 0. */
  ghost predicate AboutToCopy(o: Origin, e: Sys, chunk: int) {
    && e.proc.Some? && |e.file| == |o.content|
    && e.proc.value.plan == Plan(|o.content|, chunk) && |e.proc.value.done| == Count(e.proc.value.plan)
    && e.proc.value.workers == [Asking(0, 0, e.proc.value.url)]
    && (forall i :: 0 <= i < |e.proc.value.done| ==> !e.proc.value.done[i])
  }

  /** Launch with a blank bitmap, open the file and hand out chunk 0. */
  lemma StartsFirst(o: Origin, s: Sys, us: seq<Step>, chunk: int) returns (ts: seq<Step>)
    requires Treacherous(o) && Run(o, s, us) && chunk > 0
    requires var e := Exec(o, s, us);
             e.proc.None? && !Loadable(e.meta, Plan(|o.content|, chunk)) && (|e.file| == 0 || |e.file| == |o.content|)
    ensures Run(o, s, ts) && AboutToCopy(o, Exec(o, s, ts), chunk) && Exec(o, s, ts).meta == Exec(o, s, us).meta
  {
    ts := us + [Launch("u", chunk, 1)];
    Snoc(o, s, us, Launch("u", chunk, 1));
    var p := Exec(o, s, ts).proc.value;
    assert !p.done[0];
    ts := HandsOut(o, s, ts);
  }

  lemma HandsOut(o: Origin, s: Sys, us: seq<Step>) returns (ts: seq<Step>)
    requires Run(o, s, us) && Exec(o, s, us).proc.Some? && |o.content| >= 2
    requires var e := Exec(o, s, us); var p := e.proc.value;
             && p.main.Opening? && p.concurrency == 1 && p.workers == [] && p.next == 0 && p.publisher.Feeding? && !p.abort
             && p.plan.size == |o.content| && |p.done| == Count(p.plan) > 0
             && forall i :: 0 <= i < |p.done| ==> !p.done[i]
    ensures Run(o, s, ts) && AboutToCopy(o, Exec(o, s, ts), Exec(o, s, us).proc.value.plan.chunk)
    ensures Exec(o, s, ts).meta == Exec(o, s, us).meta
  {
    Snoc(o, s, us, Truncate);
    var e := Exec(o, s, us + [Truncate]);
    assert e.proc.value.workers == [Idle];
    Snoc(o, s, us + [Truncate], Publish(0));
    ts := us + [Truncate] + [Publish(0)];
    assert Exec(o, s, ts).proc.value.workers == [Got(0)];
    Snoc(o, s, ts, Check(0));
    ts := ts + [Check(0)];
    var p := Exec(o, s, ts).proc.value;
    assert p.workers == [Trying(0, 0)];
    Snoc(o, s, ts, Ask(0, p.url));
    ts := ts + [Ask(0, p.url)];
  }

  /** The body's first byte is written. */
  lemma FirstByte(o: Origin, s: Sys, us: seq<Step>, chunk: int, b: byte) returns (ts: seq<Step>)
    requires Treacherous(o) && Run(o, s, us) && chunk > 0 && AboutToCopy(o, Exec(o, s, us), chunk)
    requires BodyOk(o, Plan(|o.content|, chunk), 0, [b])
    ensures Run(o, s, ts)
    ensures var e := Exec(o, s, us); var f := Exec(o, s, ts);
            && f.file == e.file[0 := b] && f.meta == e.meta && f.proc.Some?
            && f.proc.value == e.proc.value.(workers := [Copying(0, 0, [b], 1)])
  {
    Snoc(o, s, us, Body(0, [b]));
    ts := us + [Body(0, [b])];
    assert Exec(o, s, ts).proc.value.workers == [Copying(0, 0, [b], 0)];
    Snoc(o, s, ts, Write(0, 1));
    ts := ts + [Write(0, 1)];
    var f := Exec(o, s, us).file;
    assert Start(Plan(|o.content|, chunk), 0) == 0;
    assert [b][0..1] == [b];
    assert Patch(f, 0, [b]) == f[0 := b];
  }

  /** With one-byte chunks, chunk 0 is fetched and saved; then the process dies. */
  lemma SavesFirstByte(o: Origin) returns (ts: seq<Step>)
    requires Treacherous(o)
    ensures Run(o, NOTHING, ts)
    ensures var e := Exec(o, NOTHING, ts);
            && e.proc.None? && |e.file| == |o.content| && Claims(o, e, 1, 0) && e.meta.value.chunk == 1
  {
    OneByteChunks(|o.content|);
    var us := StartsFirst(o, NOTHING, [], 1);
    us := FirstByte(o, NOTHING, us, 1, o.content[0]);
    Snoc(o, NOTHING, us, CopyEnd(0));
    us := us + [CopyEnd(0)];
    assert Exec(o, NOTHING, us).proc.value.workers == [Copied(0)];
    Snoc(o, NOTHING, us, Commit(0, true));
    Snoc(o, NOTHING, us + [Commit(0, true)], Crash);
    ts := us + [Commit(0, true)] + [Crash];
  }

  /** A restart with one chunk for the whole file gets a cut-off body and spoils the byte that the old bitmap claims. */
  lemma ChunkSizeChangeLies(o: Origin) returns (ts: seq<Step>)
    requires Treacherous(o)
    ensures Init(o, NOTHING) && Run(o, NOTHING, ts)
    ensures Claims(o, Exec(o, NOTHING, ts), 1, 0) && !RegionRight(o, Exec(o, NOTHING, ts), 1, 0)
  {
    OneByteChunks(|o.content|);
    var us := SavesFirstByte(o);
    us := StartsFirst(o, NOTHING, us, |o.content|);
    var b: byte := if o.content[0] == 0 then 1 else 0;
    ts := FirstByte(o, NOTHING, us, |o.content|, b);
    Spoiled(o, Exec(o, NOTHING, ts));
  }

  lemma Spoiled(o: Origin, e: Sys)
    requires |e.file| == |o.content| > 0 && e.file[0] != o.content[0]
    ensures !RegionRight(o, e, 1, 0)
  {
    assert e.file[0..1][0] != o.content[0..1][0];
  }

  /** Crash safety holds of a remote content exactly when it is trustworthy or shorter than two bytes. */
  lemma CrashSafeExactly(o: Origin)
    ensures CrashSafe(o) <==> Trustworthy(o) || |o.content| < 2
  {
    if Trustworthy(o) || |o.content| < 2 {
      TrustedIsSafe(o);
    } else {
      var ts := ChunkSizeChangeLies(o);
      var i: nat := 0;
      assert Claims(o, Exec(o, NOTHING, ts), 1, i) && !RegionRight(o, Exec(o, NOTHING, ts), 1, i);
    }
  }
}
