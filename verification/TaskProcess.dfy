/** The engine's process loop and collector, and the mirrors' failover loop, run one at a time over the store
  * object (internal/transfer/tasks/engine.go, internal/server/mirrorcore/mirrorcore.go). */
module TaskProcess {
  import opened Wrappers
  import opened TaskState
  import opened TaskStore
  import opened TaskEngine

  /** Round n of a task succeeds when its fetch and its upload do. */
  predicate RoundOk(fetches: nat -> bool, uploads: nat -> bool, n: nat) {
    fetches(n) && uploads(n)
  }

  /** How many rounds a task gets. */
  function RoundLimit(t: Task): nat {
    if t.retries > t.maxRetries then 1 else t.maxRetries - t.retries + 1
  }

  ghost predicate OthersKept(before: map<string, Task>, now: map<string, Task>, id: string) {
    now.Keys == before.Keys && forall i :: i in before && i != id ==> now[i] == before[i]
  }

  ghost predicate Startable(t: Task) {
    t.status.Queued? || t.status.Failed? || t.status.Downloading?
  }

  /** How process leaves a task t0 that it could start. */
  ghost predicate Finished(t0: Task, t: Task, rounds: nat, fetches: nat -> bool, uploads: nat -> bool,
                           before: set<string>, objects: set<string>) {
    && 1 <= rounds <= RoundLimit(t0)
    && (forall n :: 0 <= n < rounds - 1 ==> !RoundOk(fetches, uploads, n))
    && (t.status.Ready? || t.status.Dead?)
    && (t.status.Ready? <==> RoundOk(fetches, uploads, rounds - 1))
    && (t.status.Ready? ==>
          && t.retries == t0.retries + rounds - 1
          && t.artifact.Some? && t.artifact.value.storageKey == StorageKeyFor(t0.family, t0.cacheKey)
          && objects == before + {t.artifact.value.storageKey})
    && (t.status.Dead? ==> rounds == RoundLimit(t0) && t.retries == t0.retries + rounds && objects == before)
  }

  class Engine {
    const store: Store
    var objects: set<string>
    var processing: set<string>
    var clock: int

    constructor (store: Store)
      ensures this.store == store && objects == {} && processing == {} && clock == 0
    {
      this.store := store;
      objects, processing, clock := {}, {}, 0;
    }

    /** One store update that the store accepts and saves. */
    method Write(id: string, change: Task -> Task) returns (t: Task)
      requires store.Keyed() && id in store.byID && change(store.byID[id]).id == id
      requires Allowed(store.byID[id].status, change(store.byID[id]).status)
      modifies this`clock, store
      ensures store.Keyed() && OthersKept(old(store.byID), store.byID, id) && store.byID[id] == t
      ensures t == change(old(store.byID[id])).(updatedAt := old(clock)) && clock == old(clock) + 1
      ensures store.SavedCurrent()
    {
      var u, err := store.Update(id, change, clock, true);
      clock := clock + 1;
      t := u.value;
    }

    /** fail: records the failure and, when the retries are used up, buries the task. */
    method Fail(t: Task) returns (nt: Task)
      requires store.Keyed() && t.id in store.byID && store.byID[t.id] == t && Can(t.status, Failed)
      modifies this`clock, store
      ensures store.Keyed() && OthersKept(old(store.byID), store.byID, t.id) && store.byID[t.id] == nt
      ensures SameBut(t, nt) && nt.retries == t.retries + 1
      ensures nt.status == if t.retries + 1 > t.maxRetries then Dead else Failed
    {
      nt := Write(t.id, ToFailed(t.retries + 1));
      if t.retries + 1 > t.maxRetries { nt := Write(t.id, ToStatus(Dead)); }
    }

    /** What a round never changes in a task. */
    ghost predicate SameBut(a: Task, b: Task) {
      a.id == b.id && a.family == b.family && a.cacheKey == b.cacheKey && a.maxRetries == b.maxRetries
    }

    /** One round after the task is downloading: fetch, upload, register. */
    method Round(t: Task, fetchOk: bool, uploadOk: bool) returns (nt: Task)
      requires store.Keyed() && t.id in store.byID && store.byID[t.id] == t && t.status.Downloading?
      modifies this`clock, this`objects, store
      ensures store.Keyed() && OthersKept(old(store.byID), store.byID, t.id) && store.byID[t.id] == nt && SameBut(t, nt)
      ensures fetchOk && uploadOk ==>
                && nt.status.Ready? && nt.retries == t.retries
                && nt.artifact.Some? && nt.artifact.value.storageKey == StorageKeyFor(t.family, t.cacheKey)
                && objects == old(objects) + {StorageKeyFor(t.family, t.cacheKey)}
      ensures !(fetchOk && uploadOk) ==>
                && nt.retries == t.retries + 1 && objects == old(objects)
                && nt.status == if t.retries + 1 > t.maxRetries then Dead else Failed
    {
      if !fetchOk {
        nt := Fail(t);
        return;
      }
      nt := Write(t.id, ToStatus(Downloaded));
      nt := Write(t.id, ToStatus(Uploading));
      if !uploadOk {
        nt := Fail(nt);
        return;
      }
      nt := Register(nt);
    }

    /** The end of a good round: the uploaded object's key becomes the artifact of a ready task. */
    method Register(t: Task) returns (nt: Task)
      requires store.Keyed() && t.id in store.byID && store.byID[t.id] == t && t.status.Uploading?
      modifies this`clock, this`objects, store
      ensures store.Keyed() && OthersKept(old(store.byID), store.byID, t.id) && store.byID[t.id] == nt && SameBut(t, nt)
      ensures nt.status.Ready? && nt.retries == t.retries
      ensures nt.artifact.Some? && nt.artifact.value.storageKey == StorageKeyFor(t.family, t.cacheKey)
      ensures objects == old(objects) + {StorageKeyFor(t.family, t.cacheKey)}
    {
      objects := objects + {StorageKeyFor(t.family, t.cacheKey)};
      nt := Write(t.id, ToStatus(Status.Registering));
      nt := Write(t.id, ToReady(StorageKeyFor(t.family, t.cacheKey)));
    }

    /** The body of the retry loop: back to downloading if needed, then one round. */
    method NextRound(t: Task, fetchOk: bool, uploadOk: bool) returns (nt: Task)
      requires store.Keyed() && t.id in store.byID && store.byID[t.id] == t && Startable(t)
      modifies this`clock, this`objects, store
      ensures store.Keyed() && OthersKept(old(store.byID), store.byID, t.id) && store.byID[t.id] == nt && SameBut(t, nt)
      ensures fetchOk && uploadOk ==>
                && nt.status.Ready? && nt.retries == t.retries
                && nt.artifact.Some? && nt.artifact.value.storageKey == StorageKeyFor(t.family, t.cacheKey)
                && objects == old(objects) + {StorageKeyFor(t.family, t.cacheKey)}
      ensures !(fetchOk && uploadOk) ==>
                && nt.retries == t.retries + 1 && objects == old(objects)
                && nt.status == if t.retries + 1 > t.maxRetries then Dead else Failed
    {
      nt := t;
      if nt.status.Queued? || nt.status.Failed? { nt := Write(nt.id, ToDownloading); }
      nt := Round(nt, fetchOk, uploadOk);
    }

    /** process. A task that can be started ends ready after its first good round, or dead if none of the
      * rounds it is allowed is good; its retry count is exactly its number of bad rounds more than before. */
    method Process(id: string, fetches: nat -> bool, uploads: nat -> bool) returns (rounds: nat)
      requires store.Keyed()
      modifies this, store
      ensures store.Keyed() && processing == old(processing) && OthersKept(old(store.byID), store.byID, id)
      ensures id in old(processing) || id !in old(store.byID) || !Startable(old(store.byID[id])) ==>
                rounds == 0 && store.byID == old(store.byID) && objects == old(objects)
      ensures id !in old(processing) && id in old(store.byID) && Startable(old(store.byID[id])) ==>
                Finished(old(store.byID[id]), store.byID[id], rounds, fetches, uploads, old(objects), objects)
    {
      rounds := 0;
      if id in processing { return; }
      processing := processing + {id};
      if id in store.byID {
        var t := store.byID[id];
        if t.status.Queued? || t.status.Failed? || t.status.Downloading? {
          rounds := Rounds(t, fetches, uploads);
        }
      }
      processing := processing - {id};
    }

    /** The retry loop of process. */
    method Rounds(t0: Task, fetches: nat -> bool, uploads: nat -> bool) returns (rounds: nat)
      requires store.Keyed() && t0.id in store.byID && store.byID[t0.id] == t0 && Startable(t0)
      modifies this`clock, this`objects, store
      ensures store.Keyed() && OthersKept(old(store.byID), store.byID, t0.id)
      ensures Finished(t0, store.byID[t0.id], rounds, fetches, uploads, old(objects), objects)
    {
      var t := t0;
      rounds := 0;
      while true
        invariant store.Keyed() && OthersKept(old(store.byID), store.byID, t0.id) && t0.id in store.byID
        invariant store.byID[t0.id] == t && SameBut(t0, t) && Startable(t)
        invariant t.retries == t0.retries + rounds && rounds < RoundLimit(t0)
        invariant forall n :: 0 <= n < rounds ==> !RoundOk(fetches, uploads, n)
        invariant objects == old(objects)
        decreases RoundLimit(t0) - rounds
      {
        t := NextRound(t, fetches(rounds), uploads(rounds));
        rounds := rounds + 1;
        if t.status.Ready? || t.status.Dead? {
          assert RoundOk(fetches, uploads, rounds - 1) == (fetches(rounds - 1) && uploads(rounds - 1));
          return;
        }
      }
    }

    /** The task part of GC: exactly the dead and failed tasks that were not updated for longer than a day go. */
    method Collect(now: int) returns (removed: nat)
      requires store.Keyed()
      modifies store
      ensures store.Keyed()
      ensures forall id :: id in store.byID <==>
                id in old(store.byID)
                && (old(store.byID)[id].status in {Queued, Downloading, Downloaded, Uploading, Status.Registering, Ready}
                    || now - old(store.byID)[id].updatedAt <= 86_400_000_000_000)
      ensures forall id :: id in store.byID ==> store.byID[id] == old(store.byID)[id]
      ensures removed == |old(store.byID)| - |store.byID|
    {
      removed := 0;
      var list := store.byID;
      var rest := list.Keys;
      while rest != {}
        invariant store.Keyed() && rest <= list.Keys
        invariant forall id :: id in store.byID <==> id in list && (id in rest || !Collectable(list[id], now))
        invariant forall id :: id in store.byID ==> store.byID[id] == list[id]
        invariant removed == |list| - |store.byID|
        decreases rest
      {
        var id :| id in rest;
        var t := list[id];
        if Collectable(t, now) {
          ghost var before := store.byID;
          var r := store.Delete(id, true);
          assert before.Keys == store.byID.Keys + {id};
          removed := removed + 1;
        }
        rest := rest - {id};
      }
    }
  }

  /** A day in nanoseconds. */
  const DAY: int := 24 * 3600 * 1_000_000_000

  predicate Collectable(t: Task, now: int) {
    (t.status.Dead? || t.status.Failed?) && now - t.updatedAt > DAY
  }

  /** What one origin does to a mirror request. */
  datatype Attempt = FetchFails | OpenFails | StoreFails | Stored

  datatype MirrorError = AllOriginsFailed(count: nat, last: Attempt) | SaveFailed

  ghost predicate FirstStored(attempts: seq<Attempt>, n: nat) {
    n < |attempts| && attempts[n].Stored? && forall i :: 0 <= i < n ==> !attempts[i].Stored?
  }

  /** PresignOrFetchMulti: attempts[i] is what candidate origin i does. A hit presigns the artifact's key.
    * Otherwise the first origin that stores wins, and whichever it is, the object, the ready task and the
    * presigned URL all use the key of the canonical address. If none wins, the last error is reported and
    * neither the tasks nor the objects change. */
  method PresignOrFetchMulti(engine: Engine, cacheKey: string, family: string, attempts: seq<Attempt>, id: string)
    returns (r: Result<string, MirrorError>, tried: nat)
    requires engine.store.Keyed() && id != "" && id !in engine.store.byID && cacheKey != "" && |attempts| > 0
    modifies engine`objects, engine`clock, engine.store
    ensures engine.store.Keyed() && tried <= |attempts|
    ensures Hit(old(engine.store.byKey), cacheKey) ==>
              && r == Ok(old(engine.store.byKey[cacheKey]).artifact.value.storageKey) && tried == 0
              && engine.store.View() == old(engine.store.View()) && engine.objects == old(engine.objects)
    ensures !Hit(old(engine.store.byKey), cacheKey) && (exists n :: FirstStored(attempts, n)) ==>
              && tried > 0 && FirstStored(attempts, tried - 1) && r == Ok(StorageKeyFor(family, cacheKey))
              && engine.objects == old(engine.objects) + {StorageKeyFor(family, cacheKey)}
              && id in engine.store.byID && engine.store.byID == old(engine.store.byID)[id := engine.store.byID[id]]
              && engine.store.byKey == old(engine.store.byKey)[cacheKey := engine.store.byID[id]]
              && engine.store.byID[id].cacheKey == cacheKey && engine.store.byID[id].family == family
              && engine.store.byID[id].status.Ready? && ReadyBacked(engine.store.byID[id], engine.objects)
    ensures !Hit(old(engine.store.byKey), cacheKey) && !(exists n :: FirstStored(attempts, n)) ==>
              && r == Err(AllOriginsFailed(|attempts|, attempts[|attempts| - 1])) && tried == |attempts|
              && engine.store.View() == old(engine.store.View()) && engine.objects == old(engine.objects)
  {
    tried := 0;
    if cacheKey in engine.store.byKey && engine.store.byKey[cacheKey].status.Ready?
       && engine.store.byKey[cacheKey].artifact.Some? {
      r := Ok(engine.store.byKey[cacheKey].artifact.value.storageKey);
      return;
    }
    var key := StorageKeyFor(family, cacheKey);
    var last := FetchFails;
    while tried < |attempts|
      invariant tried <= |attempts|
      invariant forall i :: 0 <= i < tried ==> !attempts[i].Stored?
      invariant tried > 0 ==> last == attempts[tried - 1]
    {
      var a := attempts[tried];
      tried := tried + 1;
      if !a.Stored? {
        last := a;
        continue;
      }
      assert FirstStored(attempts, tried - 1);
      var saved := PutReady(engine, cacheKey, family, id);
      r := if saved then Ok(key) else Err(SaveFailed);
      return;
    }
    r := Err(AllOriginsFailed(|attempts|, last));
  }

  /** The object is stored and a ready task for it is put. */
  method PutReady(engine: Engine, cacheKey: string, family: string, id: string) returns (saved: bool)
    requires engine.store.Keyed() && id != "" && id !in engine.store.byID && cacheKey != ""
    modifies engine`objects, engine`clock, engine.store
    ensures engine.store.Keyed() && saved
    ensures engine.objects == old(engine.objects) + {StorageKeyFor(family, cacheKey)}
    ensures id in engine.store.byID && engine.store.byID == old(engine.store.byID)[id := engine.store.byID[id]]
    ensures engine.store.byKey == old(engine.store.byKey)[cacheKey := engine.store.byID[id]]
    ensures engine.store.byID[id].cacheKey == cacheKey && engine.store.byID[id].family == family
    ensures engine.store.byID[id].status.Ready? && ReadyBacked(engine.store.byID[id], engine.objects)
  {
    engine.objects := engine.objects + {StorageKeyFor(family, cacheKey)};
    var t := ReadyTask(id, cacheKey, family, engine.clock);
    var result := engine.store.Put(t, engine.clock, true);
    engine.clock := engine.clock + 1;
    saved := result.Ok?;
  }

  ghost predicate Hit(byKey: map<string, Task>, cacheKey: string) {
    cacheKey in byKey && byKey[cacheKey].status.Ready? && byKey[cacheKey].artifact.Some?
  }

  /** An object's key in words: two levels of two characters each, or none for keys shorter than four. */
  lemma StorageKeyText(family: string, a: string, b: string, rest: string)
    requires |a| == 2
    ensures |b| == 2 ==> StorageKeyFor(family, a + b + rest) == "cache/" + family + "/" + a + "/" + b + "/" + (a + b + rest) + ".bin"
    ensures |rest| < 4 ==> StorageKeyFor(family, rest) == "cache/" + family + "/" + rest + ".bin"
  {
    var k := a + b + rest;
    if |b| == 2 { assert k[..2] == a && k[2..4] == b; }
  }

  /** Two cache keys of the digest's fixed length never share an object, whatever their families. */
  lemma StorageKeyInjective(f: string, k: string, g: string, l: string)
    requires |k| == |l| >= 4 && StorageKeyFor(f, k) == StorageKeyFor(g, l)
    ensures f == g && k == l
  {
    var a, b := StorageKeyFor(f, k), StorageKeyFor(g, l);
    assert |a| == 6 + |f| + 1 + 2 + 1 + 2 + 1 + |k| + 4 && |b| == 6 + |g| + 1 + 2 + 1 + 2 + 1 + |l| + 4;
    assert a[6..6 + |f|] == f && b[6..6 + |g|] == g;
    var at := |f| + 13;
    assert a[at..at + |k|] == k && b[at..at + |l|] == l;
  }
}
