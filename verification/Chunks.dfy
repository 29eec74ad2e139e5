/** The chunk arithmetic of the ranged download (internal/client/downloader/chunk.go):
  * how many chunks a file has, where each one lies, and that they tile the file. */
module Chunks {

  /** A plan as both callers of runChunked build it: the count is always ChunkCount. */
  datatype Plan = Plan(size: int, chunk: int)

  ghost predicate ValidPlan(p: Plan) {
    p.size > 0 && p.chunk > 0
  }

  /** The smallest number of chunks that covers the file; 0 for a plan that runChunked refuses. */
  function ChunkCount(size: int, chunk: int): (n: nat)
    ensures size <= 0 || chunk <= 0 <==> n == 0
    ensures n > 0 ==> (n - 1) * chunk < size <= n * chunk
  {
    if size <= 0 || chunk <= 0 then 0
    else
      var q := size / chunk;
      Division(size, chunk);
      if size % chunk != 0 then q + 1 else q
  }

  lemma Division(size: int, chunk: int)
    requires size > 0 && chunk > 0
    ensures size / chunk >= 0 && 0 <= size % chunk < chunk
    ensures size == (size / chunk) * chunk + size % chunk
    ensures size % chunk == 0 ==> size / chunk > 0
    ensures (size / chunk + 1) * chunk == (size / chunk) * chunk + chunk
    ensures (size / chunk - 1) * chunk == (size / chunk) * chunk - chunk
  {
  }

  function Count(p: Plan): nat {
    ChunkCount(p.size, p.chunk)
  }

  function Start(p: Plan, i: nat): int {
    i * p.chunk
  }

  /** chunkLen: a full chunk, or what is left of the file. */
  function ChunkLen(p: Plan, i: nat): int {
    if p.size - Start(p, i) >= p.chunk then p.chunk else p.size - Start(p, i)
  }

  function End(p: Plan, i: nat): int {
    Start(p, i) + ChunkLen(p, i)
  }

  predicate Holds(p: Plan, i: nat, at: nat) {
    Start(p, i) <= at < End(p, i)
  }

  /** Every region is non-empty, lies inside the file, and is no longer than a chunk. */
  lemma RegionInFile(p: Plan, i: nat)
    requires ValidPlan(p) && i < Count(p)
    ensures 0 <= Start(p, i) < End(p, i) <= p.size
    ensures End(p, i) - Start(p, i) <= p.chunk
  {
    var n := Count(p);
    assert i * p.chunk <= (n - 1) * p.chunk by { MulMono(i, n - 1, p.chunk); }
    assert 0 <= i * p.chunk by { MulMono(0, i, p.chunk); }
  }

  lemma MulMono(a: int, b: int, c: int)
    requires a <= b && c > 0
    ensures a * c <= b * c
    ensures a < b ==> a * c + c <= b * c
  {
    var d := b - a;
    assert b * c == (a + d) * c == a * c + d * c;
    if d > 0 {
      Grow(d, c);
    }
  }

  lemma Grow(d: int, c: int)
    requires d > 0 && c > 0
    ensures d * c >= c
  {
  }

  /** A region ends where the next one starts, and the last one ends at the end of the file. */
  lemma RegionsAbut(p: Plan, i: nat)
    requires ValidPlan(p) && i < Count(p)
    ensures i + 1 < Count(p) ==> End(p, i) == Start(p, i + 1)
    ensures i + 1 == Count(p) ==> End(p, i) == p.size
  {
    var n := Count(p);
    assert (i + 1) * p.chunk == i * p.chunk + p.chunk;
    if i + 1 < n { MulMono(i + 1, n - 1, p.chunk); }
  }

  lemma RegionsOrdered(p: Plan, i: nat, j: nat)
    requires ValidPlan(p) && i < j < Count(p)
    ensures End(p, i) <= Start(p, j)
  {
    RegionsAbut(p, i);
    MulMono(i + 1, j, p.chunk);
  }

  /** The regions tile [0, size): each byte position belongs to exactly one chunk. */
  lemma RegionsTile(p: Plan, at: nat)
    requires ValidPlan(p) && at < p.size
    ensures exists i: nat :: i < Count(p) && Holds(p, i, at)
    ensures forall i: nat, j: nat :: i < Count(p) && j < Count(p) && Holds(p, i, at) && Holds(p, j, at) ==> i == j
  {
    var i := Covering(p, at, Count(p));
    forall i: nat, j: nat | i < Count(p) && j < Count(p) && Holds(p, i, at) && Holds(p, j, at)
      ensures i == j
    {
      if i < j { RegionsOrdered(p, i, j); }
      if j < i { RegionsOrdered(p, j, i); }
    }
  }

  /** Finds the chunk of a position that lies before the end of chunk n - 1. */
  lemma {:induction false} Covering(p: Plan, at: nat, n: nat) returns (i: nat)
    requires ValidPlan(p) && 0 < n <= Count(p)
    requires at < End(p, n - 1)
    ensures i < n && Holds(p, i, at)
  {
    if Start(p, n - 1) <= at {
      i := n - 1;
    } else {
      assert n > 1 by { assert Start(p, 0) == 0; }
      RegionsAbut(p, n - 2);
      i := Covering(p, at, n - 1);
    }
  }

  /** The bytes of the first n chunks that are marked done. */
  function DoneBytes(p: Plan, done: seq<bool>, n: nat): (b: int)
    requires n <= |done|
  {
    if n == 0 then 0
    else DoneBytes(p, done, n - 1) + if done[n - 1] then ChunkLen(p, n - 1) else 0
  }

  /** Done bytes never exceed the bytes of the prefix, and reach them exactly when every chunk of it is done. */
  lemma {:induction false} DoneBytesBound(p: Plan, done: seq<bool>, n: nat)
    requires ValidPlan(p) && 0 < n <= Count(p) && n <= |done|
    ensures 0 <= DoneBytes(p, done, n) <= End(p, n - 1)
    ensures DoneBytes(p, done, n) == End(p, n - 1) <==> forall i :: 0 <= i < n ==> done[i]
  {
    RegionInFile(p, n - 1);
    if n == 1 {
      assert Start(p, 0) == 0;
      assert DoneBytes(p, done, 1) == DoneBytes(p, done, 0) + if done[0] then ChunkLen(p, 0) else 0;
    } else {
      RegionsAbut(p, n - 2);
      DoneBytesBound(p, done, n - 1);
      assert (forall i :: 0 <= i < n ==> done[i]) <==> (forall i :: 0 <= i < n - 1 ==> done[i]) && done[n - 1];
    }
  }

  /** Progress is bounded by the file size and equal to it exactly when every chunk is done. */
  lemma ProgressBound(p: Plan, done: seq<bool>)
    requires ValidPlan(p) && |done| == Count(p)
    ensures 0 <= DoneBytes(p, done, |done|) <= p.size
    ensures DoneBytes(p, done, |done|) == p.size <==> forall i :: 0 <= i < |done| ==> done[i]
  {
    RegionsAbut(p, Count(p) - 1);
    DoneBytesBound(p, done, |done|);
  }

  /** Marking one more chunk adds exactly its length. */
  lemma {:induction false} DoneBytesMark(p: Plan, done: seq<bool>, i: nat, n: nat)
    requires n <= |done| && i < |done| && !done[i]
    ensures DoneBytes(p, done[i := true], n) == DoneBytes(p, done, n) + if i < n then ChunkLen(p, i) else 0
  {
    if n > 0 { DoneBytesMark(p, done, i, n - 1); }
  }

  lemma {:induction false} DoneBytesNone(p: Plan, done: seq<bool>, n: nat)
    requires n <= |done| && forall i :: 0 <= i < n ==> !done[i]
    ensures DoneBytes(p, done, n) == 0
  {
    if n > 0 { DoneBytesNone(p, done, n - 1); }
  }

  /** The loop at the start of runChunked that adds up what a resumed bitmap already holds. */
  method ResumedBytes(p: Plan, done: seq<bool>) returns (doneBytes: int, doneCount: nat)
    requires ValidPlan(p) && |done| == Count(p)
    ensures doneBytes == DoneBytes(p, done, |done|)
    ensures doneCount == Count(p) <==> forall i :: 0 <= i < |done| ==> done[i]
    ensures doneCount == Count(p) <==> doneBytes == p.size
  {
    doneBytes, doneCount := 0, 0;
    for i := 0 to |done|
      invariant doneBytes == DoneBytes(p, done, i)
      invariant doneCount <= i
      invariant doneCount == i <==> forall j :: 0 <= j < i ==> done[j]
    {
      if done[i] {
        doneBytes := doneBytes + ChunkLen(p, i);
        doneCount := doneCount + 1;
      }
    }
    ProgressBound(p, done);
  }
}
