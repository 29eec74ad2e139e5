/** Moving a finished download into place (internal/client/downloader/downloader.go: finishFile) and its
  * composition with the ranged download (fetchPresigned), over a file system with atomic operations. */
module OutputFile {
  import opened Wrappers
  import opened RangeDownload
  import opened RangeDownloadSafety
  import Strings = Text

  datatype File = Data(bytes: Bytes) | Text(text: string)

  datatype FinishError = MissingPart | ChecksumMismatch | OutputExists | RenameFailed | DownloadFailed

  function PartPath(out: string): string { out + ".part" }
  function MetaPath(out: string): string { out + ".part.meta.json" }
  function PartSum(out: string): string { out + ".part.sha256" }
  function OutSum(out: string): string { out + ".sha256" }

  /** The paths derived from one output name never collide. */
  lemma PathsDiffer(out: string)
    ensures |PartPath(out)| == |out| + 5 && |MetaPath(out)| == |out| + 15
    ensures |PartSum(out)| == |out| + 12 && |OutSum(out)| == |out| + 7
  {
  }

  predicate EqualFold(a: string, b: string) {
    Strings.Lower(a) == Strings.Lower(b)
  }

  /** What the checksum test of finishFile accepts. */
  predicate Verified(hash: Bytes -> string, part: Bytes, want: string) {
    want == "" || EqualFold(hash(part), want)
  }

  function Lookup(files: map<string, File>, path: string): Option<File> {
    if path in files then Some(files[path]) else None
  }

  /** The disk. trace records the files after every operation, so that it holds every state a crash can expose. */
  class Disk {
    var files: map<string, File>
    ghost var trace: seq<map<string, File>>

    method WriteFile(path: string, f: File)
      modifies this
      ensures files == old(files)[path := f] && trace == old(trace) + [files]
    {
      files := files[path := f];
      trace := trace + [files];
    }

    method Remove(path: string)
      modifies this
      ensures files == old(files) - {path} && trace == old(trace) + [files]
    {
      files := files - {path};
      trace := trace + [files];
    }

    /** Renaming replaces the target atomically; it fails when the source is missing or the system refuses. */
    method Rename(from: string, to: string, allowed: bool) returns (ok: bool)
      requires from != to
      modifies this
      ensures ok == (allowed && from in old(files))
      ensures files == (if ok then (old(files) - {from})[to := old(files)[from]] else old(files))
      ensures trace == old(trace) + [files]
    {
      ok := allowed && from in files;
      if ok { files := (files - {from})[to := files[from]]; }
      trace := trace + [files];
    }
  }

  /** The output was never anything but what it was before, or the verified part. */
  ghost predicate OldOrVerified(hash: Bytes -> string, before: map<string, File>, now: map<string, File>, out: string, want: string) {
    || Lookup(now, out) == Lookup(before, out)
    || (PartPath(out) in before && Lookup(now, out) == Some(before[PartPath(out)])
        && (before[PartPath(out)].Data? ==> Verified(hash, before[PartPath(out)].bytes, want)))
  }

  ghost predicate FinishPaths(out: string, path: string) {
    path == out || path == PartPath(out) || path == MetaPath(out) || path == PartSum(out) || path == OutSum(out)
  }

  /** The hash that stands beside the part, if any, without the blanks around it. */
  function SumText(files: map<string, File>, out: string): string {
    if PartSum(out) in files && files[PartSum(out)].Text? then Strings.TrimSpace(files[PartSum(out)].text) else ""
  }

  /** The operations since trace length n only changed files other than the output and those in keep. */
  ghost predicate SideEffects(before: map<string, File>, disk: Disk, n: nat, out: string, keep: set<string>)
    reads disk
  {
    && n <= |disk.trace|
    && (forall k :: n <= k < |disk.trace| ==> Lookup(disk.trace[k], out) == Lookup(before, out))
    && (forall path :: path in keep || !FinishPaths(out, path) || path == out ==>
          Lookup(disk.files, path) == Lookup(before, path))
  }

  /** Reads and removes the hash that a streamed download left beside the part. */
  method TakeSum(disk: Disk, out: string) returns (got: string)
    modifies disk
    ensures old(disk.trace) <= disk.trace
    ensures SideEffects(old(disk.files), disk, |old(disk.trace)|, out, {PartPath(out), MetaPath(out), OutSum(out)})
    ensures Lookup(disk.files, PartSum(out)) == None && got == SumText(old(disk.files), out)
  {
    PathsDiffer(out);
    got := "";
    if PartSum(out) in disk.files {
      var f := disk.files[PartSum(out)];
      got := if f.Text? then Strings.TrimSpace(f.text) else "";
      disk.Remove(PartSum(out));
    }
  }

  /** Drops the part and its bitmap. */
  method Discard(disk: Disk, out: string)
    modifies disk
    ensures old(disk.trace) <= disk.trace
    ensures SideEffects(old(disk.files), disk, |old(disk.trace)|, out, {})
    ensures PartPath(out) !in disk.files && MetaPath(out) !in disk.files
  {
    PathsDiffer(out);
    disk.Remove(PartPath(out));
    disk.Remove(MetaPath(out));
  }

  method ExposeSum(disk: Disk, out: string, got: string)
    modifies disk
    ensures old(disk.trace) <= disk.trace
    ensures SideEffects(old(disk.files), disk, |old(disk.trace)|, out, {PartPath(out), MetaPath(out)})
    ensures Lookup(disk.files, OutSum(out)) == Some(Text("sha256:" + got))
    ensures Lookup(disk.files, PartSum(out)) == Lookup(old(disk.files), PartSum(out))
  {
    PathsDiffer(out);
    disk.WriteFile(OutSum(out), Text("sha256:" + got));
  }

  /** The rename and the removal of the bitmap, in this order. */
  method MoveIntoPlace(disk: Disk, out: string, renames: bool) returns (ok: bool)
    modifies disk
    ensures old(disk.trace) <= disk.trace
    ensures ok == (renames && PartPath(out) in old(disk.files))
    ensures !ok ==> SideEffects(old(disk.files), disk, |old(disk.trace)|, out, {PartPath(out), MetaPath(out)})
    ensures ok ==>
              && Lookup(disk.files, out) == Some(old(disk.files)[PartPath(out)])
              && PartPath(out) !in disk.files && MetaPath(out) !in disk.files
              && (forall path :: path == PartSum(out) || path == OutSum(out) ==>
                    Lookup(disk.files, path) == Lookup(old(disk.files), path))
              && (forall path :: !FinishPaths(out, path) ==> Lookup(disk.files, path) == Lookup(old(disk.files), path))
              && (forall k :: |old(disk.trace)| <= k < |disk.trace| ==>
                    Lookup(disk.trace[k], out) == Some(old(disk.files)[PartPath(out)]))
  {
    PathsDiffer(out);
    ok := disk.Rename(PartPath(out), out, renames);
    if ok { disk.Remove(MetaPath(out)); }
  }

  /** finishFile. It succeeds exactly when the part exists, passes the checksum test, may replace what is at
    * the output, and the rename is allowed. Every state that a crash can expose has the old output or the
    * verified one; a refused part is removed together with its bitmap, a failed rename keeps both. */
  method FinishFile(disk: Disk, hash: Bytes -> string, out: string, want: string, overwrite: bool, renames: bool)
    returns (r: Result<(), FinishError>)
    requires PartPath(out) in disk.files ==> disk.files[PartPath(out)].Data?
    modifies disk
    ensures old(disk.trace) <= disk.trace
    ensures r.Ok? <==> (&& PartPath(out) in old(disk.files)
                        && Verified(hash, old(disk.files)[PartPath(out)].bytes, want)
                        && (overwrite || out !in old(disk.files)) && renames)
    ensures r.Ok? ==>
              && Lookup(disk.files, out) == Some(old(disk.files)[PartPath(out)])
              && PartPath(out) !in disk.files && MetaPath(out) !in disk.files
    ensures r.Ok? ==>
              && Lookup(disk.files, PartSum(out)) == None
              && Lookup(disk.files, OutSum(out)) ==
                   (if want == "" && SumText(old(disk.files), out) != "" then Some(Text("sha256:" + SumText(old(disk.files), out)))
                    else Lookup(old(disk.files), OutSum(out)))
    ensures r.Err? ==> Lookup(disk.files, out) == Lookup(old(disk.files), out)
    ensures r == Err(ChecksumMismatch) || r == Err(OutputExists) ==>
              PartPath(out) !in disk.files && MetaPath(out) !in disk.files
    ensures r == Err(RenameFailed) ==>
              && Lookup(disk.files, PartPath(out)) == Lookup(old(disk.files), PartPath(out))
              && Lookup(disk.files, MetaPath(out)) == Lookup(old(disk.files), MetaPath(out))
    ensures forall k :: |old(disk.trace)| <= k < |disk.trace| ==>
              OldOrVerified(hash, old(disk.files), disk.trace[k], out, want)
    ensures forall path :: !FinishPaths(out, path) ==> Lookup(disk.files, path) == Lookup(old(disk.files), path)
  {
    var got := TakeSum(disk, out);
    assert Lookup(disk.files, PartPath(out)) == Lookup(old(disk.files), PartPath(out));
    if want != "" {
      if PartPath(out) !in disk.files || !EqualFold(hash(disk.files[PartPath(out)].bytes), want) {
        r := if PartPath(out) in disk.files then Err(ChecksumMismatch) else Err(MissingPart);
        Discard(disk, out);
        return;
      }
    } else if got != "" {
      ExposeSum(disk, out, got);
    }
    assert Lookup(disk.files, out) == Lookup(old(disk.files), out);
    if !overwrite && out in disk.files {
      Discard(disk, out);
      return Err(OutputExists);
    }
    var ok := MoveIntoPlace(disk, out, renames);
    r := if ok then Ok(()) else Err(RenameFailed);
  }

  /** The hash is printed in lower case and no two contents share one. */
  ghost predicate HashIdentifies(hash: Bytes -> string) {
    (forall a, b :: hash(a) == hash(b) ==> a == b) && (forall a :: Strings.Lower(hash(a)) == hash(a))
  }

  /** fetchPresigned over a ranged download: the run of the step machine decides the part file and whether
    * finishFile is reached at all. The output stays old unless the part passed the checksum test. With an
    * injective hash and the artifact's own hash a success means the artifact's bytes, even for a run that
    * reported success too early; and a clean run does succeed. */
  method FetchPresigned(disk: Disk, hash: Bytes -> string, out: string, want: string, overwrite: bool, renames: bool,
                        part: Bytes, ranOk: bool, ghost o: Origin, ghost s: Sys, ghost ts: seq<Step>)
    returns (r: Result<(), FinishError>)
    requires Trustworthy(o) && Init(o, s) && Run(o, s, ts)
    requires Exec(o, s, ts).proc.Some? && part == Exec(o, s, ts).file
    requires ranOk <==> Exec(o, s, ts).proc.value.main.ReturnedOk?
    modifies disk
    ensures r.Err? ==> Lookup(disk.files, out) == Lookup(old(disk.files), out)
    ensures r.Ok? ==> Lookup(disk.files, out) == Some(Data(part)) && Verified(hash, part, want)
    ensures HashIdentifies(hash) && want != "" && Strings.Lower(want) == hash(o.content) && r.Ok? ==>
              Lookup(disk.files, out) == Some(Data(o.content))
    ensures (&& ranOk && Exec(o, s, ts).proc.value.posted == 0 && !Exec(o, s, ts).proc.value.cancelled
             && Verified(hash, o.content, want) && (overwrite || out !in old(disk.files)) && renames) ==>
              r.Ok? && Lookup(disk.files, out) == Some(Data(o.content))
  {
    PathsDiffer(out);
    disk.WriteFile(PartPath(out), Data(part));
    if !ranOk { return Err(DownloadFailed); }
    if Exec(o, s, ts).proc.value.posted == 0 && !Exec(o, s, ts).proc.value.cancelled {
      CleanRunComplete(o, s, ts);
    }
    r := FinishFile(disk, hash, out, want, overwrite, renames);
  }
}
