/** The task store of internal/transfer/tasks/store.go: two indexes, transition checks, and persistence. */
module TaskStore {
  import opened Wrappers
  import opened TaskState

  datatype Artifact = Artifact(size: int, sha256: string, etag: string, storageKey: string)

  datatype Task = Task(id: string, url: string, canonicalURL: string, cacheKey: string, family: string,
                       status: Status, error: string, retries: int, maxRetries: int, artifact: Option<Artifact>,
                       createdBy: string, createdAt: int, updatedAt: int)

  datatype StoreError = NotFound | Conflict | Invalid | Persist

  /** byID holds every task, byKey the task of a cache key that was written last. */
  datatype State = State(byID: map<string, Task>, byKey: map<string, Task>)

  const EMPTY: State := State(map[], map[])

  // ----- what each operation does, as functions of the state -----

  function Written(st: State, t: Task): State {
    State(st.byID[t.id := t], st.byKey[t.cacheKey := t])
  }

  /** Put: refuses missing ids and illegal transitions, ignores updates older than what is stored. */
  function PutResult(st: State, t: Task, now: int): Result<State, StoreError> {
    if t.id == "" || t.cacheKey == "" then Err(Invalid)
    else if t.id in st.byID && !Allowed(st.byID[t.id].status, t.status) then Err(Conflict)
    else if t.id in st.byID && t.updatedAt < st.byID[t.id].updatedAt then Ok(st)
    else Ok(Written(st, t.(createdAt := if t.createdAt == 0 then now else t.createdAt, updatedAt := now)))
  }

  /** Update: applies a change to a copy, refuses an illegal transition, otherwise writes the copy. */
  function UpdateResult(st: State, id: string, change: Task -> Task, now: int): Result<(State, Task), StoreError> {
    if id !in st.byID then Err(NotFound)
    else
      var t := change(st.byID[id]);
      if !Allowed(st.byID[id].status, t.status) then Err(Conflict)
      else
        var w := t.(updatedAt := now);
        Ok((Written(st, w), w))
  }

  function DeleteResult(st: State, id: string): Result<State, StoreError> {
    if id !in st.byID then Err(NotFound)
    else
      var k := st.byID[id].cacheKey;
      Ok(State(st.byID - {id}, if k in st.byKey && st.byKey[k].id == id then st.byKey - {k} else st.byKey))
  }

  /** Loading one persisted task: a later entry replaces an earlier one of its key only if it is newer. */
  function Loaded(st: State, t: Task): State {
    State(st.byID[t.id := t],
          if t.cacheKey !in st.byKey || t.updatedAt > st.byKey[t.cacheKey].updatedAt
          then st.byKey[t.cacheKey := t] else st.byKey)
  }

  function Load(list: seq<Task>): State {
    if list == [] then EMPTY else Loaded(Load(list[..|list| - 1]), list[|list| - 1])
  }

  /** A persisted list: every stored task once, in any order. */
  ghost predicate Listing(list: seq<Task>, byID: map<string, Task>) {
    && (forall i :: 0 <= i < |list| ==> list[i].id in byID && byID[list[i].id] == list[i])
    && (forall i, j :: 0 <= i < j < |list| ==> list[i].id != list[j].id)
    && (forall id :: id in byID ==> exists i :: 0 <= i < |list| && list[i].id == id)
  }

  // ----- the store object -----

  class Store {
    var byID: map<string, Task>
    var byKey: map<string, Task>
    var disk: Option<seq<Task>>     // the persisted list; None when nothing was ever saved
    const persistent: bool          // false for an empty path

    ghost function View(): State
      reads this
    {
      State(byID, byKey)
    }

    /** Tasks are stored under their own id. */
    ghost predicate Keyed()
      reads this
    {
      forall id :: id in byID ==> byID[id].id == id
    }

    ghost predicate SavedCurrent()
      reads this
    {
      persistent ==> disk.Some? && Listing(disk.value, byID)
    }

    constructor (list: Option<seq<Task>>, persistent: bool)
      ensures View() == if list.Some? then Load(list.value) else EMPTY
      ensures disk == list && this.persistent == persistent
    {
      this.persistent := persistent;
      disk := list;
      byID, byKey := map[], map[];
      new;
      if list.Some? {
        var i := 0;
        assert list.value[..0] == [];
        while i < |list.value|
          invariant 0 <= i <= |list.value|
          invariant View() == Load(list.value[..i])
          invariant disk == list
        {
          var cp := list.value[i];
          byID := byID[cp.id := cp];
          if cp.cacheKey !in byKey || cp.updatedAt > byKey[cp.cacheKey].updatedAt {
            byKey := byKey[cp.cacheKey := cp];
          }
          assert list.value[..i + 1][..i] == list.value[..i];
          i := i + 1;
        }
        assert list.value[..i] == list.value;
      }
    }

    /** persistLocked: writes the tasks in map order, that is, in any order; saves says whether the write succeeds. */
    method PersistLocked(saves: bool) returns (ok: bool)
      requires Keyed()
      modifies this`disk
      ensures ok == (!persistent || saves)
      ensures ok ==> SavedCurrent()
      ensures !ok || !persistent ==> disk == old(disk)
    {
      if !persistent { return true; }
      var list: seq<Task> := [];
      var rest := byID.Keys;
      while rest != {}
        invariant rest <= byID.Keys
        invariant forall i :: 0 <= i < |list| ==> list[i].id in byID && byID[list[i].id] == list[i] && list[i].id !in rest
        invariant forall i, j :: 0 <= i < j < |list| ==> list[i].id != list[j].id
        invariant forall id :: id in byID && id !in rest ==> exists i :: 0 <= i < |list| && list[i].id == id
        decreases rest
      {
        var id :| id in rest;
        ghost var before := list;
        list := list + [byID[id]];
        rest := rest - {id};
        assert list[|list| - 1].id == id;
        assert forall i :: 0 <= i < |before| ==> list[i] == before[i];
      }
      if saves { disk := Some(list); }
      return saves;
    }

    method Put(t: Task, now: int, saves: bool) returns (r: Result<(), StoreError>)
      requires Keyed()
      modifies this
      ensures Keyed()
      ensures PutResult(old(View()), t, now).Err? ==>
                r == Err(PutResult(old(View()), t, now).error) && View() == old(View()) && disk == old(disk)
      ensures PutResult(old(View()), t, now).Ok? ==> View() == PutResult(old(View()), t, now).value
      ensures PutResult(old(View()), t, now).Ok? && View() != old(View()) && r.Ok? ==> SavedCurrent()
      ensures PutResult(old(View()), t, now).Ok? && r.Err? ==> persistent && !saves && disk == old(disk)
    {
      if t.id == "" || t.cacheKey == "" { return Err(Invalid); }
      if t.id in byID {
        var prev := byID[t.id];
        if !Can(prev.status, t.status) && prev.status != t.status { return Err(Conflict); }
        if t.updatedAt < prev.updatedAt { return Ok(()); }
      }
      var cp := t;
      if cp.createdAt == 0 { cp := cp.(createdAt := now); }
      cp := cp.(updatedAt := now);
      byID := byID[cp.id := cp];
      byKey := byKey[cp.cacheKey := cp];
      var ok := PersistLocked(saves);
      r := if ok then Ok(()) else Err(Persist);
    }

    /** A failed save is reported together with the task, because the memory state has already changed. */
    method Update(id: string, change: Task -> Task, now: int, saves: bool)
      returns (t: Option<Task>, err: Option<StoreError>)
      requires Keyed() && (id in byID ==> change(byID[id]).id == id)
      modifies this
      ensures Keyed()
      ensures var u := UpdateResult(old(View()), id, change, now);
              if u.Err? then t == None && err == Some(u.error) && View() == old(View()) && disk == old(disk)
              else View() == u.value.0 && t == Some(u.value.1)
      ensures t.Some? && err.None? ==> SavedCurrent()
      ensures t.Some? && err.Some? ==> err == Some(Persist) && persistent && !saves && disk == old(disk)
    {
      if id !in byID { return None, Some(NotFound); }
      var cp := change(byID[id]);
      if !Can(byID[id].status, cp.status) && byID[id].status != cp.status { return None, Some(Conflict); }
      cp := cp.(updatedAt := now);
      byID := byID[cp.id := cp];
      byKey := byKey[cp.cacheKey := cp];
      var ok := PersistLocked(saves);
      t := Some(cp);
      err := if ok then None else Some(Persist);
    }

    method Get(id: string) returns (r: Result<Task, StoreError>)
      ensures r == if id in byID then Ok(byID[id]) else Err(NotFound)
    {
      if id in byID { return Ok(byID[id]); }
      return Err(NotFound);
    }

    method GetByCacheKey(cacheKey: string) returns (r: Result<Task, StoreError>)
      ensures r == if cacheKey in byKey then Ok(byKey[cacheKey]) else Err(NotFound)
    {
      if cacheKey in byKey { return Ok(byKey[cacheKey]); }
      return Err(NotFound);
    }

    method Delete(id: string, saves: bool) returns (r: Result<(), StoreError>)
      requires Keyed()
      modifies this
      ensures Keyed()
      ensures DeleteResult(old(View()), id).Err? ==> r == Err(NotFound) && View() == old(View()) && disk == old(disk)
      ensures DeleteResult(old(View()), id).Ok? ==> View() == DeleteResult(old(View()), id).value
      ensures DeleteResult(old(View()), id).Ok? && r.Ok? ==> SavedCurrent()
      ensures DeleteResult(old(View()), id).Ok? && r.Err? ==> persistent && !saves && disk == old(disk)
    {
      if id !in byID { return Err(NotFound); }
      var t := byID[id];
      byID := byID - {id};
      if t.cacheKey in byKey && byKey[t.cacheKey].id == id { byKey := byKey - {t.cacheKey}; }
      var ok := PersistLocked(saves);
      r := if ok then Ok(()) else Err(Persist);
    }
  }

  // ----- the index invariant over whole runs -----

  /** byKey answers with the stored task of the key that was updated last, and no two tasks share an update time. */
  ghost predicate Indexed(st: State) {
    && (forall id :: id in st.byID ==> st.byID[id].id == id)
    && (forall k :: k in st.byKey ==> IsNewest(st, k, st.byKey[k]))
    && (forall a, b :: a in st.byID && b in st.byID && a != b ==> st.byID[a].updatedAt != st.byID[b].updatedAt)
  }

  ghost predicate IsNewest(st: State, k: string, t: Task) {
    && t.cacheKey == k && t.id in st.byID && st.byID[t.id] == t
    && (forall id :: id in st.byID && st.byID[id].cacheKey == k ==> st.byID[id].updatedAt <= t.updatedAt)
  }

  /** Every stored time lies before now. */
  ghost predicate Past(st: State, now: int) {
    forall id :: id in st.byID ==> st.byID[id].updatedAt < now
  }

  datatype Op =
    | OpPut(t: Task)
    | OpUpdate(id: string, change: Task -> Task)
    | OpDelete(id: string)
    | OpReload(list: seq<Task>)

  /** Writes keep id and cache key of a stored task; a reload reads some listing of what was saved. */
  ghost predicate Faithful(st: State, op: Op) {
    match op
    case OpPut(t) => t.id in st.byID ==> st.byID[t.id].cacheKey == t.cacheKey
    case OpUpdate(id, change) =>
      id in st.byID ==> change(st.byID[id]).id == id && change(st.byID[id]).cacheKey == st.byID[id].cacheKey
    case OpDelete(_) => true
    case OpReload(list) => Listing(list, st.byID)
  }

  ghost function After(st: State, op: Op, now: int): State {
    match op
    case OpPut(t) => var r := PutResult(st, t, now); if r.Ok? then r.value else st
    case OpUpdate(id, change) => var r := UpdateResult(st, id, change, now); if r.Ok? then r.value.0 else st
    case OpDelete(id) => var r := DeleteResult(st, id); if r.Ok? then r.value else st
    case OpReload(list) => Load(list)
  }

  /** Operation i happens at time now + i + 1: update times strictly increase. */
  ghost predicate History(st: State, ops: seq<Op>, now: int)
    decreases |ops|
  {
    ops == [] || (Faithful(st, ops[0]) && History(After(st, ops[0], now + 1), ops[1..], now + 1))
  }

  ghost function Final(st: State, ops: seq<Op>, now: int): State
    decreases |ops|
  {
    if ops == [] then st else Final(After(st, ops[0], now + 1), ops[1..], now + 1)
  }

  lemma WriteKeepsIndex(st: State, t: Task, now: int)
    requires Indexed(st) && Past(st, now) && t.updatedAt == now
    requires t.id in st.byID ==> st.byID[t.id].cacheKey == t.cacheKey
    ensures Indexed(Written(st, t)) && Past(Written(st, t), now + 1)
  {
    var w := Written(st, t);
    forall k | k in w.byKey
      ensures IsNewest(w, k, w.byKey[k])
    {
      if k != t.cacheKey { assert IsNewest(st, k, st.byKey[k]); }
    }
  }

  lemma DeleteKeepsIndex(st: State, id: string)
    requires Indexed(st) && id in st.byID
    ensures Indexed(DeleteResult(st, id).value)
  {
    var w := DeleteResult(st, id).value;
    forall k | k in w.byKey
      ensures IsNewest(w, k, w.byKey[k])
    {
      assert IsNewest(st, k, st.byKey[k]);
    }
  }

  ghost predicate HasID(list: seq<Task>, n: nat, id: string)
    requires n <= |list|
  {
    exists i :: 0 <= i < n && list[i].id == id
  }

  /** The tasks of a prefix of a listing. */
  ghost predicate TasksFrom(list: seq<Task>, n: nat, st: State)
    requires n <= |list|
  {
    && (forall i :: 0 <= i < n ==> list[i].id in st.byID && st.byID[list[i].id] == list[i])
    && (forall id :: id in st.byID ==> HasID(list, n, id))
  }

  /** Each key of the prefix answers with a newest task of the prefix. */
  ghost predicate AnswersFrom(list: seq<Task>, n: nat, st: State)
    requires n <= |list|
  {
    && (forall i :: 0 <= i < n ==>
          list[i].cacheKey in st.byKey && list[i].updatedAt <= st.byKey[list[i].cacheKey].updatedAt)
    && (forall k :: k in st.byKey ==> st.byKey[k].cacheKey == k && st.byKey[k] in list[..n])
  }

  lemma TasksGrow(list: seq<Task>, n: nat, st: State)
    requires n < |list| && TasksFrom(list, n, st)
    requires forall i, j :: 0 <= i < j < |list| ==> list[i].id != list[j].id
    ensures TasksFrom(list, n + 1, Loaded(st, list[n]))
  {
    var st' := Loaded(st, list[n]);
    forall id | id in st'.byID
      ensures HasID(list, n + 1, id)
    {
      if id == list[n].id {
        assert list[n].id == id;
      } else {
        assert HasID(list, n, id);
      }
    }
  }

  lemma AnswersGrow(list: seq<Task>, n: nat, st: State)
    requires n < |list| && AnswersFrom(list, n, st)
    ensures AnswersFrom(list, n + 1, Loaded(st, list[n]))
  {
    var st' := Loaded(st, list[n]);
    assert list[..n + 1] == list[..n] + [list[n]];
    forall k | k in st'.byKey
      ensures st'.byKey[k].cacheKey == k && st'.byKey[k] in list[..n + 1]
    {
      if k in st.byKey && st'.byKey[k] == st.byKey[k] { assert st.byKey[k] in list[..n]; }
    }
  }

  lemma LoadNext(list: seq<Task>, n: nat)
    requires 0 < n <= |list|
    ensures Load(list[..n]) == Loaded(Load(list[..n - 1]), list[n - 1])
  {
    assert list[..n][..n - 1] == list[..n - 1] && list[..n][n - 1] == list[n - 1];
  }

  /** What Load builds from a listing. */
  lemma {:induction false} LoadBuilds(list: seq<Task>, n: nat)
    requires n <= |list| && forall i, j :: 0 <= i < j < |list| ==> list[i].id != list[j].id
    ensures TasksFrom(list, n, Load(list[..n])) && AnswersFrom(list, n, Load(list[..n]))
  {
    if n > 0 {
      LoadBuilds(list, n - 1);
      LoadNext(list, n);
      TasksGrow(list, n - 1, Load(list[..n - 1]));
      AnswersGrow(list, n - 1, Load(list[..n - 1]));
    }
  }

  lemma ReloadIndexed(st: State, list: seq<Task>)
    requires Indexed(st) && Listing(list, st.byID)
    ensures Load(list).byID == st.byID && Indexed(Load(list)) && AnswersFrom(list, |list|, Load(list))
  {
    LoadBuilds(list, |list|);
    assert list[..|list|] == list;
    SameTasks(st, list);
    forall k | k in Load(list).byKey
      ensures IsNewest(Load(list), k, Load(list).byKey[k])
    {
      LoadedNewest(st, list, k);
    }
  }

  /** Saving in any order and loading again loses nothing: byID is the same, every answer of byKey is kept,
    * and every key with stored tasks has an answer. */
  lemma ReloadKeepsAnswers(st: State, list: seq<Task>)
    requires Indexed(st) && Listing(list, st.byID)
    ensures Load(list).byID == st.byID && Indexed(Load(list))
    ensures forall k :: k in st.byKey ==> k in Load(list).byKey && Load(list).byKey[k] == st.byKey[k]
    ensures forall k :: k in Load(list).byKey <==> exists id :: id in st.byID && st.byID[id].cacheKey == k
  {
    ReloadIndexed(st, list);
    KeysCovered(st, list);
    NewestAgree(st, Load(list));
  }

  lemma SameTasks(st: State, list: seq<Task>)
    requires Listing(list, st.byID) && TasksFrom(list, |list|, Load(list))
    ensures Load(list).byID == st.byID
  {
    var l := Load(list);
    forall id
      ensures id in l.byID <==> id in st.byID
      ensures id in l.byID ==> l.byID[id] == st.byID[id]
    {
      if id in l.byID { assert HasID(list, |list|, id); }
    }
  }

  lemma LoadedNewest(st: State, list: seq<Task>, k: string)
    requires Listing(list, st.byID) && AnswersFrom(list, |list|, Load(list)) && Load(list).byID == st.byID
    requires list[..|list|] == list && k in Load(list).byKey
    ensures IsNewest(Load(list), k, Load(list).byKey[k])
  {
    var l := Load(list);
    assert l.byKey[k] in list;
    forall id | id in l.byID && l.byID[id].cacheKey == k
      ensures l.byID[id].updatedAt <= l.byKey[k].updatedAt
    {
      var j :| 0 <= j < |list| && list[j].id == id;
      assert list[j].cacheKey == k;
    }
  }

  lemma KeysCovered(st: State, list: seq<Task>)
    requires Listing(list, st.byID) && AnswersFrom(list, |list|, Load(list)) && Load(list).byID == st.byID
    requires forall k :: k in Load(list).byKey ==> IsNewest(Load(list), k, Load(list).byKey[k])
    ensures forall k :: k in Load(list).byKey <==> exists id :: id in st.byID && st.byID[id].cacheKey == k
  {
    var l := Load(list);
    forall id | id in st.byID
      ensures st.byID[id].cacheKey in l.byKey
    {
      var j :| 0 <= j < |list| && list[j].id == id;
      assert list[j].cacheKey in l.byKey;
    }
    forall k | k in l.byKey
      ensures exists id :: id in st.byID && st.byID[id].cacheKey == k
    {
      assert st.byID[l.byKey[k].id].cacheKey == k;
    }
  }

  lemma NewestAgree(st: State, l: State)
    requires Indexed(st) && Indexed(l) && l.byID == st.byID
    requires forall id :: id in l.byID ==> l.byID[id].cacheKey in l.byKey
    ensures forall k :: k in st.byKey ==> k in l.byKey && l.byKey[k] == st.byKey[k]
  {
    forall k | k in st.byKey
      ensures k in l.byKey && l.byKey[k] == st.byKey[k]
    {
      var a := st.byKey[k];
      assert IsNewest(st, k, a) && l.byID[a.id].cacheKey == k;
      var b := l.byKey[k];
      assert IsNewest(l, k, b);
      assert st.byID[b.id] == b && a.updatedAt <= b.updatedAt && b.updatedAt <= a.updatedAt;
    }
  }

  lemma StepKeepsIndex(st: State, op: Op, now: int)
    requires Indexed(st) && Past(st, now) && Faithful(st, op)
    ensures Indexed(After(st, op, now)) && Past(After(st, op, now), now + 1)
  {
    match op
    case OpPut(t) =>
      if PutResult(st, t, now).Ok? && PutResult(st, t, now).value != st {
        WriteKeepsIndex(st, t.(createdAt := if t.createdAt == 0 then now else t.createdAt, updatedAt := now), now);
      }
    case OpUpdate(id, change) =>
      if UpdateResult(st, id, change, now).Ok? { WriteKeepsIndex(st, UpdateResult(st, id, change, now).value.1, now); }
    case OpDelete(id) =>
      if id in st.byID { DeleteKeepsIndex(st, id); }
    case OpReload(list) => ReloadKeepsAnswers(st, list);
  }

  /** Over every history of writes, deletes and reloads, GetByCacheKey answers with the newest stored task of the key. */
  lemma {:induction false} AnswerIsNewest(st: State, ops: seq<Op>, now: int)
    requires Indexed(st) && Past(st, now + 1) && History(st, ops, now)
    ensures Indexed(Final(st, ops, now))
    decreases |ops|
  {
    if ops != [] {
      StepKeepsIndex(st, ops[0], now + 1);
      AnswerIsNewest(After(st, ops[0], now + 1), ops[1..], now + 1);
    }
  }

  // ----- which answers a reload adds -----

  /** The key that an operation leaves without an answer: a delete of the task that answers for it. */
  function TakenBy(st: State, op: Op): set<string> {
    if op.OpDelete? && op.id in st.byID
       && var k := st.byID[op.id].cacheKey; k in st.byKey && st.byKey[k].id == op.id
    then {st.byID[op.id].cacheKey} else {}
  }

  /** The keys whose answer was taken by a delete in a history and that have not had an answer since. */
  ghost function Lost(st: State, lost: set<string>, ops: seq<Op>, now: int): set<string>
    decreases |ops|
  {
    if ops == [] then lost
    else
      var next := After(st, ops[0], now + 1);
      Lost(next, lost + TakenBy(st, ops[0]) - next.byKey.Keys, ops[1..], now + 1)
  }

  /** Every stored task's key has an answer, or is lost; lost keys have none. */
  ghost predicate Covered(st: State, lost: set<string>) {
    && (forall id :: id in st.byID ==> st.byID[id].cacheKey in st.byKey || st.byID[id].cacheKey in lost)
    && lost !! st.byKey.Keys
  }

  lemma StepKeepsCovered(st: State, lost: set<string>, op: Op, now: int)
    requires Indexed(st) && Faithful(st, op) && Covered(st, lost)
    ensures var next := After(st, op, now); Covered(next, lost + TakenBy(st, op) - next.byKey.Keys)
  {
    if op.OpReload? {
      ReloadKeepsAnswers(st, op.list);
    }
  }

  lemma {:induction false} RunKeepsCovered(st: State, lost: set<string>, ops: seq<Op>, now: int)
    requires Indexed(st) && Past(st, now + 1) && History(st, ops, now) && Covered(st, lost)
    ensures Covered(Final(st, ops, now), Lost(st, lost, ops, now))
    decreases |ops|
  {
    if ops != [] {
      var next := After(st, ops[0], now + 1);
      StepKeepsIndex(st, ops[0], now + 1);
      StepKeepsCovered(st, lost, ops[0], now + 1);
      RunKeepsCovered(next, lost + TakenBy(st, ops[0]) - next.byKey.Keys, ops[1..], now + 1);
    }
  }

  /** After any history from an empty store, a reload adds an answer for a key exactly when the key has stored
    * tasks and a delete took its last answer, that is, its newest task. */
  lemma ReloadAddsExactly(ops: seq<Op>, now: int, list: seq<Task>, k: string)
    requires History(EMPTY, ops, now) && Listing(list, Final(EMPTY, ops, now).byID)
    ensures var st := Final(EMPTY, ops, now);
            k in Load(list).byKey && k !in st.byKey
            <==> k in Lost(EMPTY, {}, ops, now) && exists id :: id in st.byID && st.byID[id].cacheKey == k
  {
    AnswerIsNewest(EMPTY, ops, now);
    RunKeepsCovered(EMPTY, {}, ops, now);
    ReloadKeepsAnswers(Final(EMPTY, ops, now), list);
  }

  // ----- every writer follows the graph -----

  ghost predicate OwnIds(st: State) {
    forall id :: id in st.byID ==> st.byID[id].id == id
  }

  /** The statuses of a task over a history, as long as it is stored. */
  ghost function Lifetime(st: State, ops: seq<Op>, now: int, id: string): seq<Status>
    decreases |ops|
  {
    if id !in st.byID then []
    else [st.byID[id].status] + if ops == [] then [] else Lifetime(After(st, ops[0], now + 1), ops[1..], now + 1, id)
  }

  lemma StepFollowsGraph(st: State, op: Op, now: int, id: string)
    requires OwnIds(st) && Faithful(st, op)
    ensures OwnIds(After(st, op, now))
    ensures id in st.byID && id in After(st, op, now).byID ==>
              Allowed(st.byID[id].status, After(st, op, now).byID[id].status)
  {
    if op.OpReload? {
      LoadBuilds(op.list, |op.list|);
      assert op.list[..|op.list|] == op.list;
      SameTasks(st, op.list);
    }
  }

  /** Whatever puts, changes, deletes and reloads come, accepted or refused, the statuses of a task are a path of
    * the transition graph with repetitions as long as it is stored. */
  lemma {:induction false} LifetimeIsPath(st: State, ops: seq<Op>, now: int, id: string)
    requires OwnIds(st) && History(st, ops, now)
    ensures Path(Lifetime(st, ops, now, id))
    decreases |ops|
  {
    if id in st.byID && ops != [] {
      StepFollowsGraph(st, ops[0], now + 1, id);
      LifetimeIsPath(After(st, ops[0], now + 1), ops[1..], now + 1, id);
    }
  }
}
